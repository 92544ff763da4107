/** Downstream impact of column changes: which nodes must run, and why. */
module Impact {
  import opened Prelude
  import opened Fixpoint
  import opened Lineage

  datatype ColumnChangeKind = Added | Removed | Modified

  datatype Change = Column(column: ColumnRef, kind: ColumnChangeKind) | Rows(changed: RelationName)
  {
    function Relation(): RelationName { if Column? then column.relation else changed }

    predicate IsAdded() { Column? && kind == Added }
  }

  datatype ImpactReason =
    | ColumnReason(upstream: ColumnRef, change: ColumnChangeKind, output: Option<string>, edge: EdgeKind)
    | RowsReason(relation: RelationName)
    | WildcardReason(added: ColumnRef)
    | NameCaptureReason(captured: ColumnRef)
    | OpaqueReason(from: RelationName)

  datatype NodeImpact = NodeImpact(reasons: set<ImpactReason>, changedColumns: set<string>, rowsChanged: bool)

  datatype Pruned = Pruned(node: string, upstream: RelationName, unusedChangedColumns: set<string>)

  datatype Impact = Impact(nodes: map<string, NodeImpact>, pruned: set<Pruned>)

  // ---- what one change does to one reader -------------------------------------------

  datatype Outcome = RowsDiffer | ColumnDiffers(name: string, how: ColumnChangeKind)

  /** One piece of evidence recorded on a node, and what it makes of the node's data. */
  datatype Effect = Effect(node: string, reason: ImpactReason, outcome: Outcome)

  /** Some column of another relation, used by `l`, has this name. */
  predicate UsesSameName(l: QueryLineage, column: ColumnRef) {
    || (exists o ::
        o in l.outputs && exists i :: i in o.inputs && i.0.column == column.column && i.0.relation != column.relation)
    || (exists i :: i in l.rowInputs && i.0.column == column.column && i.0.relation != column.relation)
  }

  predicate ShapesRowsWith(l: QueryLineage, relation: RelationName) {
    exists i :: i in l.rowInputs && i.0.relation == relation
  }

  /** An added column reaches a reader through `*`, or by capturing an unqualified name. */
  function AddedEffects(reader: string, l: QueryLineage, column: ColumnRef): set<Effect> {
    var wildcard := column.relation in l.wildcards;
    (if wildcard then {Effect(reader, WildcardReason(column), ColumnDiffers(column.column, Added))} else {}) +
    (if wildcard && ShapesRowsWith(l, column.relation) then {Effect(reader, WildcardReason(column), RowsDiffer)}
        else {}) +
    (if UsesSameName(l, column) then {Effect(reader, NameCaptureReason(column), RowsDiffer)} else {})
  }

  /** A modified or removed column changes each output it feeds, or the rows it shapes. */
  function UseEffect(column: ColumnRef, kind: ColumnChangeKind, u: ColumnUse): Effect {
    Effect(u.node, ColumnReason(column, kind, u.output, u.edge),
      match u.output case Some(o) => ColumnDiffers(o, Modified) case None => RowsDiffer)
  }

  /** Everything `change` does to `reader`, which reads the changed relation. */
  function EffectsOn(g: ColumnGraph, change: Change, reader: string): (r: set<Effect>)
    ensures forall e :: e in r ==> e.node == reader && reader in g.nodes
  {
    if reader !in g.nodes then {} else
    var node := g.nodes[reader];
    if node.IsOpaque() || node.DeclaredOnly(change.Relation()) then
      {Effect(reader, OpaqueReason(change.Relation()), RowsDiffer)}
    else match change
      case Rows(relation) => {Effect(reader, RowsReason(relation), RowsDiffer)}
      case Column(column, kind) =>
        if kind == Added then
          (if node.lineage.Some? then AddedEffects(reader, node.lineage.value, column) else {})
        else set u | u in g.UsesOf(column) && u.node == reader :: UseEffect(column, kind, u)
  }

  function Effects(g: ColumnGraph, change: Change): set<Effect> {
    EffectsOfReaders(g, change, g.ReadersOf(change.Relation()))
  }

  function EffectsOfReaders(g: ColumnGraph, change: Change, readers: set<string>): set<Effect> {
    set r, e | r in readers && e in EffectsOn(g, change, r) :: e
  }

  function AllEffects(g: ColumnGraph, changes: set<Change>): set<Effect> {
    set c, e | c in changes && e in Effects(g, c) :: e
  }

  /** The change an effect sends further downstream. */
  function Onward(g: ColumnGraph, e: Effect): Change
    requires e.node in g.nodes
  {
    var relation := g.nodes[e.node].relation;
    match e.outcome
    case RowsDiffer => Rows(relation)
    case ColumnDiffers(name, kind) => Column(ColumnRef(relation, name), kind)
  }

  // ---- the reference: one closure, one summary --------------------------------------

  ghost function Step(g: ColumnGraph): Change -> set<Change> {
    c => set e | e in Effects(g, c) :: Onward(g, e)
  }

  /** A finite set no change in `changes` can lead out of. */
  ghost function Bound(g: ColumnGraph, changes: set<Change>): (r: set<Change>)
    ensures changes <= r && Closed(Step(g), r)
  {
    BoundIsClosed(g, changes);
    changes + Downstream(g, Names(g, changes))
  }

  /** Every name a column change can carry: one given, or an output some column feeds. */
  ghost function Names(g: ColumnGraph, changes: set<Change>): set<string> {
    (set c | c in changes && c.Column? :: c.column.column) +
    (set c, u | c in g.consumers && u in g.consumers[c] && u.output.Some? :: u.output.value)
  }

  ghost function Downstream(g: ColumnGraph, names: set<string>): set<Change> {
    (set id | id in g.nodes :: Rows(g.nodes[id].relation)) +
    (set id, n, kind | id in g.nodes && n in names && kind in {Added, Modified} ::
      Column(ColumnRef(g.nodes[id].relation, n), kind))
  }

  /** An effect on a column carries the added name on, or names an output the changed
      column feeds. */
  lemma ColumnEffect(g: ColumnGraph, c: Change, e: Effect)
    requires e in Effects(g, c) && e.outcome.ColumnDiffers?
    ensures c.Column? && e.outcome.how in {Added, Modified}
    ensures e.outcome.how == Added <==> c.IsAdded()
    ensures c.IsAdded() ==> e.outcome.name == c.column.column
    ensures !c.IsAdded() ==> exists u :: u in g.UsesOf(c.column) && u.node == e.node && u.output == Some(e.outcome.name)
  {
    if !c.IsAdded() {
      var u :| u in g.UsesOf(c.column) && u.node == e.node && e == UseEffect(c.column, c.kind, u);
      assert u.output == Some(e.outcome.name);
    }
  }

  lemma BoundIsClosed(g: ColumnGraph, changes: set<Change>)
    ensures Closed(Step(g), changes + Downstream(g, Names(g, changes)))
  {
    var names := Names(g, changes);
    forall c, d | c in changes + Downstream(g, names) && d in Step(g)(c) ensures d in Downstream(g, names) {
      var e :| e in Effects(g, c) && d == Onward(g, e);
      if e.outcome.ColumnDiffers? {
        ColumnEffect(g, c, e);
        assert e.outcome.name in names;
      }
    }
  }

  /** The least set of changes that holds the given ones and everything they cause. */
  ghost function Caused(g: ColumnGraph, changes: set<Change>): (r: set<Change>)
    ensures changes <= r && Closed(Step(g), r)
  {
    Closure(Step(g), changes, Bound(g, changes))
  }

  function Touched(effects: set<Effect>): set<string> { set e | e in effects :: e.node }

  function ImpactOn(effects: set<Effect>, id: string): NodeImpact {
    NodeImpact(
      set e | e in effects && e.node == id :: e.reason,
      set e | e in effects && e.node == id && e.outcome.ColumnDiffers? :: e.outcome.name,
      exists e :: e in effects && e.node == id && e.outcome.RowsDiffer?)
  }

  function NodesOf(effects: set<Effect>): map<string, NodeImpact> {
    var touched := Touched(effects);
    map id | id in touched :: ImpactOn(effects, id)
  }

  function ChangedColumns(changes: set<Change>, relation: RelationName): set<string> {
    set c | c in changes && c.Column? && c.column.relation == relation :: c.column.column
  }

  function PrunedOf(g: ColumnGraph, changes: set<Change>, impacted: set<string>): set<Pruned> {
    set c, r | c in changes && r in g.ReadersOf(c.Relation()) && r !in impacted ::
      Pruned(r, c.Relation(), ChangedColumns(changes, c.Relation()))
  }

  /** The report for a set of processed changes. */
  function Report(g: ColumnGraph, changes: set<Change>): Impact {
    var nodes := NodesOf(AllEffects(g, changes));
    Impact(nodes, PrunedOf(g, changes, nodes.Keys))
  }

  // ---- the worklist -----------------------------------------------------------------

  /** Two effects that mark their node the same way: one guard for its rows, and one for each
      column name whatever the kind of change. */
  predicate SameMark(e: Effect, f: Effect) {
    && e.node == f.node
    && (e.outcome.RowsDiffer? <==> f.outcome.RowsDiffer?)
    && (e.outcome.ColumnDiffers? && f.outcome.ColumnDiffers? ==> e.outcome.name == f.outcome.name)
  }

  /** `senders` are the effects whose onward change was queued: one for each mark, so a name
      is sent as added or as modified, never both. */
  ghost predicate Sending(g: ColumnGraph, given: set<Change>, effects: set<Effect>, senders: set<Effect>,
      pending: set<Change>) {
    && senders <= effects
    && (forall e :: e in effects ==> e.node in g.nodes)
    && (forall e, f :: e in senders && f in senders && SameMark(e, f) ==> e == f)
    && (forall e :: e in effects ==> exists f :: f in senders && SameMark(e, f))
    && pending == given + Onwards(g, senders)
  }

  function Onwards(g: ColumnGraph, effects: set<Effect>): set<Change>
    requires forall e :: e in effects ==> e.node in g.nodes
  {
    set e | e in effects :: Onward(g, e)
  }

  /** Records one effect on its node, and queues what it causes unless the node already has
      its mark. */
  method Record(g: ColumnGraph, nodes: map<string, NodeImpact>, queue: seq<Change>, e: Effect,
      ghost given: set<Change>, ghost seen: set<Change>, ghost effects: set<Effect>, ghost senders: set<Effect>)
    returns (r: map<string, NodeImpact>, q: seq<Change>, ghost s: set<Effect>)
    requires nodes == NodesOf(effects) && Sending(g, given, effects, senders, seen + Elements(queue))
    requires e.node in g.nodes
    ensures r == NodesOf(effects + {e}) && Sending(g, given, effects + {e}, s, seen + Elements(q))
  {
    var target := if e.node in nodes then nodes[e.node] else NodeImpact({}, {}, false);
    target := target.(reasons := target.reasons + {e.reason});
    q, s := queue, senders;
    match e.outcome {
      case RowsDiffer =>
        if !target.rowsChanged {
          target := target.(rowsChanged := true);
          q, s := q + [Onward(g, e)], s + {e};
        }
      case ColumnDiffers(name, kind) =>
        if name !in target.changedColumns {
          target := target.(changedColumns := target.changedColumns + {name});
          q, s := q + [Onward(g, e)], s + {e};
        }
    }
    r := nodes[e.node := target];
    RecordKeepsNodes(effects, e);
    ImpactOnMore(effects, e, e.node);
    assert target == ImpactOn(effects + {e}, e.node);
    MarkedMeansSent(effects, e);
    if s == senders {
      KeepSending(g, given, effects, senders, seen + Elements(queue), e);
    } else {
      assert seen + Elements(q) == seen + Elements(queue) + {Onward(g, e)};
      SendOne(g, given, effects, senders, seen + Elements(queue), e);
    }
  }

  /** One more effect changes only its own node's entry. */
  lemma ImpactOnMore(effects: set<Effect>, e: Effect, id: string)
    ensures id != e.node ==> ImpactOn(effects + {e}, id) == ImpactOn(effects, id)
    ensures id == e.node ==>
      var was := ImpactOn(effects, id);
      ImpactOn(effects + {e}, id) == NodeImpact(
        was.reasons + {e.reason},
        was.changedColumns + (if e.outcome.ColumnDiffers? then {e.outcome.name} else {}),
        was.rowsChanged || e.outcome.RowsDiffer?)
  {
    var was, now := ImpactOn(effects, id), ImpactOn(effects + {e}, id);
    if id == e.node {
      assert now.reasons == was.reasons + {e.reason};
      assert now.changedColumns == was.changedColumns + (if e.outcome.ColumnDiffers? then {e.outcome.name} else {});
      assert e in effects + {e};
    } else {
      assert now.reasons == was.reasons;
      assert now.changedColumns == was.changedColumns;
    }
  }

  lemma RecordKeepsNodes(effects: set<Effect>, e: Effect)
    ensures NodesOf(effects + {e}) == NodesOf(effects)[e.node := ImpactOn(effects + {e}, e.node)]
    ensures e.node !in NodesOf(effects) ==> ImpactOn(effects, e.node) == NodeImpact({}, {}, false)
  {
    var before, after := NodesOf(effects), NodesOf(effects + {e});
    assert Touched(effects + {e}) == Touched(effects) + {e.node};
    forall id | id in after && id != e.node ensures after[id] == before[id] {
      ImpactOnMore(effects, e, id);
    }
    if e.node !in before {
      var was := ImpactOn(effects, e.node);
      assert forall f :: f in effects ==> f.node in Touched(effects);
      assert was.reasons == {} && was.changedColumns == {};
    }
  }

  lemma MarkedMeansSent(effects: set<Effect>, e: Effect)
    ensures
      var marked := match e.outcome
        case RowsDiffer => ImpactOn(effects, e.node).rowsChanged
        case ColumnDiffers(name, _) => name in ImpactOn(effects, e.node).changedColumns;
      marked <==> exists f :: f in effects && SameMark(e, f)
  {
    if e.outcome.ColumnDiffers? && e.outcome.name in ImpactOn(effects, e.node).changedColumns {
      var f :| f in effects && f.node == e.node && f.outcome.ColumnDiffers? && f.outcome.name == e.outcome.name;
      assert SameMark(e, f);
    }
    if e.outcome.RowsDiffer? && ImpactOn(effects, e.node).rowsChanged {
      var f :| f in effects && f.node == e.node && f.outcome.RowsDiffer?;
      assert SameMark(e, f);
    }
  }

  lemma KeepSending(g: ColumnGraph, given: set<Change>, effects: set<Effect>, senders: set<Effect>,
      pending: set<Change>, e: Effect)
    requires Sending(g, given, effects, senders, pending) && e.node in g.nodes
    requires exists f :: f in effects && SameMark(e, f)
    ensures Sending(g, given, effects + {e}, senders, pending)
  {
    var f :| f in effects && SameMark(e, f);
    var h :| h in senders && SameMark(f, h);
    assert SameMark(e, h);
  }

  lemma SendOne(g: ColumnGraph, given: set<Change>, effects: set<Effect>, senders: set<Effect>, pending: set<Change>,
      e: Effect)
    requires Sending(g, given, effects, senders, pending) && e.node in g.nodes
    requires !exists f :: f in effects && SameMark(e, f)
    ensures Sending(g, given, effects + {e}, senders + {e}, pending + {Onward(g, e)})
  {
    OneMore(g, senders, e);
    forall f | f in effects + {e} ensures exists h :: h in senders + {e} && SameMark(f, h) {
      if f == e { assert SameMark(e, e); } else { var h :| h in senders && SameMark(f, h); assert h in senders + {e}; }
    }
    forall f, h | f in senders + {e} && h in senders + {e} && SameMark(f, h) ensures f == h {
      assert SameMark(h, f);
    }
  }

  lemma OneMore(g: ColumnGraph, senders: set<Effect>, e: Effect)
    requires forall f :: f in senders + {e} ==> f.node in g.nodes
    ensures Onwards(g, senders + {e}) == Onwards(g, senders) + {Onward(g, e)}
  {
  }

  /** Applies `change` to one reader of its relation. */
  method VisitReader(g: ColumnGraph, change: Change, reader: string, nodes: map<string, NodeImpact>, queue: seq<Change>,
      ghost given: set<Change>, ghost seen: set<Change>, ghost effects: set<Effect>, ghost senders: set<Effect>)
    returns (r: map<string, NodeImpact>, q: seq<Change>, ghost s: set<Effect>)
    requires nodes == NodesOf(effects) && Sending(g, given, effects, senders, seen + Elements(queue))
    ensures r == NodesOf(effects + EffectsOn(g, change, reader))
    ensures Sending(g, given, effects + EffectsOn(g, change, reader), s, seen + Elements(q))
  {
    hide EffectsOn, NodesOf;
    r, q, s := nodes, queue, senders;
    var todo := EffectsOn(g, change, reader);
    ghost var done := effects;
    while todo != {}
      invariant todo <= EffectsOn(g, change, reader)
      invariant done + todo == effects + EffectsOn(g, change, reader)
      invariant r == NodesOf(done) && Sending(g, given, done, s, seen + Elements(q))
    {
      var e :| e in todo;
      r, q, s := Record(g, r, q, e, given, seen, done, s);
      todo, done := todo - {e}, done + {e};
    }
    assert done == effects + EffectsOn(g, change, reader);
  }

  /** Applies `change` to every reader of its relation. */
  method Visit(g: ColumnGraph, change: Change, nodes: map<string, NodeImpact>, queue: seq<Change>,
      ghost given: set<Change>, ghost seen: set<Change>, ghost effects: set<Effect>, ghost senders: set<Effect>)
    returns (r: map<string, NodeImpact>, q: seq<Change>, ghost s: set<Effect>)
    requires nodes == NodesOf(effects) && Sending(g, given, effects, senders, seen + Elements(queue))
    ensures r == NodesOf(effects + Effects(g, change)) &&
        Sending(g, given, effects + Effects(g, change), s, seen + Elements(q))
  {
    hide EffectsOn, NodesOf, Sending;
    r, q, s := nodes, queue, senders;
    var readers := g.ReadersOf(change.Relation());
    ghost var done := {};
    assert effects + EffectsOfReaders(g, change, done) == effects;
    while readers != {}
      invariant readers + done == g.ReadersOf(change.Relation())
      invariant r == NodesOf(effects + EffectsOfReaders(g, change, done))
      invariant Sending(g, given, effects + EffectsOfReaders(g, change, done), s, seen + Elements(q))
    {
      var reader :| reader in readers;
      r, q, s := VisitReader(g, change, reader, r, q, given, seen, effects + EffectsOfReaders(g, change, done), s);
      assert effects + EffectsOfReaders(g, change, done + {reader}) == effects + EffectsOfReaders(g, change, done) +
          EffectsOn(g, change, reader);
      readers, done := readers - {reader}, done + {reader};
    }
    assert done == g.ReadersOf(change.Relation());
  }

  /** What the worklist keeps: everything given or caused so far is seen or queued, and the
      report so far is that of what was seen. */
  ghost predicate Working(g: ColumnGraph, given: set<Change>, seen: set<Change>, queue: seq<Change>,
      nodes: map<string, NodeImpact>, senders: set<Effect>) {
    && seen + Elements(queue) <= Caused(g, given)
    && nodes == NodesOf(AllEffects(g, seen))
    && Sending(g, given, AllEffects(g, seen), senders, seen + Elements(queue))
  }

  /** `processed` is what a run of the worklist follows: the given changes and what they
      cause, less what the guard withholds. */
  ghost predicate Follows(g: ColumnGraph, given: set<Change>, processed: set<Change>) {
    given <= processed <= Caused(g, given) &&
        exists senders :: Sending(g, given, AllEffects(g, processed), senders, processed)
  }

  /** `impact` is what some run of the worklist reports. */
  ghost predicate IsImpact(g: ColumnGraph, given: set<Change>, impact: Impact) {
    exists processed :: Follows(g, given, processed) && impact == Report(g, processed)
  }

  /** Propagates `changes` downstream, on any graph. */
  method Propagate(g: ColumnGraph, changes: seq<Change>) returns (impact: Impact)
    ensures IsImpact(g, Elements(changes), impact)
    ensures ClashesUnheard(g, Elements(changes)) ==> impact == ImpactOf(g, Elements(changes))
  {
    hide Working, Follows, ClashesUnheard, Caused, Report, ImpactOf, PrunedOf, AllEffects;
    ghost var given := Elements(changes);
    var nodes: map<string, NodeImpact> := map[];
    var queue := changes;
    var seen: set<Change> := {};
    var changedBy: map<RelationName, set<string>> := map[];
    ghost var senders: set<Effect> := {};
    StartWorking(g, changes);
    while queue != []
      invariant Working(g, given, seen, queue, nodes, senders) && changedBy == ChangedBy(seen)
      decreases |Caused(g, given) - seen|, |queue|
    {
      var change := queue[0];
      if change in seen {
        SkipSeen(g, given, seen, queue, nodes, senders);
        queue := queue[1..];
      } else {
        ChangedByMore(seen, change);
        changedBy :=
            changedBy[change.Relation() := Entry(changedBy, change.Relation()) +
            (if change.Column? then {change.column.column} else {})];
        nodes, queue, senders := Advance(g, given, seen, queue, nodes, senders);
        seen := seen + {change};
      }
    }
    Settled(g, given, seen, nodes, senders);
    var pruned := Prune(g, changedBy, nodes.Keys, seen);
    impact := Impact(nodes, pruned);
  }

  lemma StartWorking(g: ColumnGraph, changes: seq<Change>)
    ensures Working(g, Elements(changes), {}, changes, map[], {}) && ChangedBy({}) == map[]
  {
    assert AllEffects(g, {}) == {} && {} + Elements(changes) == Elements(changes);
  }

  lemma SkipSeen(g: ColumnGraph, given: set<Change>, seen: set<Change>, queue: seq<Change>,
      nodes: map<string, NodeImpact>, senders: set<Effect>)
    requires Working(g, given, seen, queue, nodes, senders) && queue != [] && queue[0] in seen
    ensures Working(g, given, seen, queue[1..], nodes, senders)
  {
    assert Elements(queue) == {queue[0]} + Elements(queue[1..]);
    assert seen + Elements(queue[1..]) == seen + Elements(queue);
  }

  /** Processes the first change of the queue, new to `seen`. */
  method Advance(g: ColumnGraph, ghost given: set<Change>, ghost seen: set<Change>, queue: seq<Change>,
      nodes: map<string, NodeImpact>, ghost senders: set<Effect>)
    returns (r: map<string, NodeImpact>, q: seq<Change>, ghost s: set<Effect>)
    requires Working(g, given, seen, queue, nodes, senders) && queue != [] && queue[0] !in seen
    ensures Working(g, given, seen + {queue[0]}, q, r, s)
    ensures |Caused(g, given) - (seen + {queue[0]})| < |Caused(g, given) - seen|
  {
    var change := queue[0];
    assert Elements(queue) == {change} + Elements(queue[1..]);
    ghost var now, all := seen + {change}, Caused(g, given);
    assert now + Elements(queue[1..]) == seen + Elements(queue);
    assert AllEffects(g, now) == AllEffects(g, seen) + Effects(g, change);
    r, q, s := Visit(g, change, nodes, queue[1..], given, now, AllEffects(g, seen), senders);
    SentIsCaused(g, given, now, s, now + Elements(q));
    Grows(seen, now, all);
    SubsetCardinality(all - now, all - seen);
  }

  lemma SentIsCaused(g: ColumnGraph, given: set<Change>, seen: set<Change>, senders: set<Effect>, pending: set<Change>)
    requires seen <= Caused(g, given) && Sending(g, given, AllEffects(g, seen), senders, pending)
    ensures pending <= Caused(g, given)
  {
    forall e | e in senders ensures Onward(g, e) in Caused(g, given) {
      var c :| c in seen && e in Effects(g, c);
      assert Onward(g, e) in Step(g)(c);
    }
  }

  lemma Settled(g: ColumnGraph, given: set<Change>, seen: set<Change>, nodes: map<string, NodeImpact>,
      senders: set<Effect>)
    requires Working(g, given, seen, [], nodes, senders)
    ensures Follows(g, given, seen)
    ensures Report(g, seen) == Impact(nodes, PrunedOf(g, seen, nodes.Keys))
    ensures ClashesUnheard(g, given) ==> Report(g, seen) == ImpactOf(g, given)
  {
    assert seen + Elements<Change>([]) == seen;
    if ClashesUnheard(g, given) { UnheardClashesAreHarmless(g, given, seen); }
  }

  function ChangedBy(changes: set<Change>): map<RelationName, set<string>> {
    var relations := set c | c in changes :: c.Relation();
    map r | r in relations :: ChangedColumns(changes, r)
  }

  lemma ChangedByMore(changes: set<Change>, c: Change)
    ensures ChangedBy(changes + {c}) ==
      ChangedBy(changes)[c.Relation() := Entry(ChangedBy(changes), c.Relation()) +
          (if c.Column? then {c.column.column} else {})]
  {
    var more := changes + {c};
    assert ChangedBy(more).Keys == ChangedBy(changes).Keys + {c.Relation()};
    if c.Relation() !in ChangedBy(changes) {
      assert forall d :: d in changes ==> d.Relation() in ChangedBy(changes);
      assert ChangedColumns(changes, c.Relation()) == {};
    }
    assert ChangedColumns(more, c.Relation()) == ChangedColumns(changes, c.Relation()) +
        (if c.Column? then {c.column.column} else {});
    forall r | r in ChangedBy(changes) && r != c.Relation()
        ensures ChangedColumns(more, r) == ChangedColumns(changes, r) {
    }
  }

  /** The readers of changed relations that nothing impacts. */
  method Prune(g: ColumnGraph, changedBy: map<RelationName, set<string>>, impacted: set<string>,
      ghost changes: set<Change>) returns (pruned: set<Pruned>)
    requires changedBy == ChangedBy(changes)
    ensures pruned == PrunedOf(g, changes, impacted)
  {
    pruned := {};
    var relations := changedBy.Keys;
    while relations != {}
      invariant relations <= changedBy.Keys
      invariant forall p :: p in pruned <==>
        p.upstream in changedBy.Keys - relations && p.node in g.ReadersOf(p.upstream) - impacted &&
            p.unusedChangedColumns == changedBy[p.upstream]
    {
      var relation :| relation in relations;
      pruned := pruned + set r | r in g.ReadersOf(relation) &&
          r !in impacted :: Pruned(r, relation, changedBy[relation]);
      relations := relations - {relation};
    }
    assert forall c :: c in changes ==> c.Relation() in changedBy;
  }

  // ---- when the shared guard hides nothing ------------------------------------------

  /** The report for `given` and everything it causes: a set, so neither order nor repetition
      of the given changes matters. */
  ghost function ImpactOf(g: ColumnGraph, given: set<Change>): Impact {
    Report(g, Caused(g, given))
  }

  /** No column of a node is reached both as added and as modified: the one guard per column
      name then hides nothing. */
  ghost predicate NoClash(g: ColumnGraph, given: set<Change>) {
    forall e, f ::
        e in AllEffects(g, Caused(g, given)) && f in AllEffects(g, Caused(g, given)) && SameMark(e, f) ==>
        e.outcome == f.outcome
  }

  /** No added column has the name of an output that some column feeds. In particular, no
      column was added. */
  ghost predicate DisjointNames(g: ColumnGraph, given: set<Change>) {
    forall c, d, u :: c in given && c.IsAdded() && u in g.UsesOf(d) ==> u.output != Some(c.column.column)
  }

  lemma AddedKeepNames(g: ColumnGraph, given: set<Change>)
    ensures forall d ::
        d in Caused(g, given) && d.IsAdded() ==>
        exists c :: c in given && c.IsAdded() && c.column.column == d.column.column
  {
    var kept := set d | d in Caused(g, given) &&
        (d.IsAdded() ==> exists c :: c in given && c.IsAdded() && c.column.column == d.column.column);
    forall c, d | c in kept && d in Step(g)(c) ensures d in kept {
      var e :| e in Effects(g, c) && d == Onward(g, e);
      if d.IsAdded() { ColumnEffect(g, c, e); }
    }
    ClosureIsLeast(Step(g), given, Bound(g, given), kept);
  }

  lemma SameKind(g: ColumnGraph, given: set<Change>, c: Change, e: Effect, b: Change, f: Effect)
    requires DisjointNames(g, given)
    requires forall d ::
        d in Caused(g, given) && d.IsAdded() ==>
        exists a :: a in given && a.IsAdded() && a.column.column == d.column.column
    requires c in Caused(g, given) && e in Effects(g, c) && b in Caused(g, given) && f in Effects(g, b) &&
        SameMark(e, f)
    ensures e.outcome == f.outcome
  {
    if e.outcome.ColumnDiffers? {
      ColumnEffect(g, c, e);
      ColumnEffect(g, b, f);
    }
  }

  /** Added names disjoint from every analysed output's never clash. */
  lemma DisjointNamesNeverClash(g: ColumnGraph, given: set<Change>)
    requires DisjointNames(g, given)
    ensures NoClash(g, given)
  {
    AddedKeepNames(g, given);
    var all := Caused(g, given);
    forall e, f | e in AllEffects(g, all) && f in AllEffects(g, all) && SameMark(e, f) ensures e.outcome == f.outcome {
      var c :| c in all && e in Effects(g, c);
      var b :| b in all && f in Effects(g, b);
      SameKind(g, given, c, e, b, f);
    }
  }

  /** With no added columns nothing clashes. */
  lemma NothingAddedNeverClashes(g: ColumnGraph, given: set<Change>)
    requires forall c :: c in given ==> !c.IsAdded()
    ensures NoClash(g, given)
  {
    DisjointNamesNeverClash(g, given);
  }

  /** For every effect of what was processed, some change with its mark was processed too. */
  lemma MarkIsSent(g: ColumnGraph, given: set<Change>, processed: set<Change>, e: Effect) returns (f: Effect)
    requires Follows(g, given, processed) && e in AllEffects(g, processed)
    ensures e.node in g.nodes && f in AllEffects(g, processed) && SameMark(e, f) && Onward(g, f) in processed
    ensures e.outcome == f.outcome ==> Onward(g, e) in processed
  {
    hide Caused, AllEffects, SameMark;
    var senders :| Sending(g, given, AllEffects(g, processed), senders, processed);
    f :| f in senders && SameMark(e, f);
    assert e.node == f.node by { SameMarkSameNode(e, f); }
    assert Onward(g, f) in Onwards(g, senders);
  }

  /** What was followed and not given, some effect sent. */
  lemma Sender(g: ColumnGraph, given: set<Change>, processed: set<Change>, c: Change) returns (e: Effect)
    requires Follows(g, given, processed) && c in processed - given
    ensures e in AllEffects(g, processed) && e.node in g.nodes && c == Onward(g, e)
  {
    var senders := Senders(g, given, processed);
    e := OnwardOf(g, senders, c);
  }

  lemma Senders(g: ColumnGraph, given: set<Change>, processed: set<Change>) returns (senders: set<Effect>)
    requires Follows(g, given, processed)
    ensures senders <= AllEffects(g, processed) && forall e :: e in senders ==> e.node in g.nodes
    ensures processed == given + Onwards(g, senders)
  {
    senders :| Sending(g, given, AllEffects(g, processed), senders, processed);
    hide *;
  }

  lemma OnwardOf(g: ColumnGraph, senders: set<Effect>, c: Change) returns (e: Effect)
    requires (forall e :: e in senders ==> e.node in g.nodes) && c in Onwards(g, senders)
    ensures e in senders && c == Onward(g, e)
  {
    e :| e in senders && c == Onward(g, e);
  }

  lemma SameMarkSameNode(e: Effect, f: Effect)
    requires SameMark(e, f)
    ensures e.node == f.node
  {
  }

  /** Without a clash the worklist follows everything the given changes cause. */
  lemma NothingHidden(g: ColumnGraph, given: set<Change>, processed: set<Change>)
    requires NoClash(g, given) && Follows(g, given, processed)
    ensures processed == Caused(g, given)
  {
    assert given <= processed <= Caused(g, given);
    MoreChangesMoreEffects(g, processed, Caused(g, given));
    hide Follows, Effects, SameMark;
    forall c, d | c in processed && d in Step(g)(c) ensures d in processed {
      var e :| e in Effects(g, c) && d == Onward(g, e);
      assert e in AllEffects(g, processed);
      var f := MarkIsSent(g, given, processed, e);
    }
    hide Caused, NoClash;
    CausedIsLeast(g, given, processed);
  }

  // ---- what a withheld change costs the report --------------------------------------

  /** Some reader has a recorded use for the change, other than depending on its relation in an
      unknown way. */
  predicate Heard(g: ColumnGraph, c: Change) { exists e :: e in Effects(g, c) && !e.reason.OpaqueReason? }

  /** What the processed changes cause and the guard withholds. */
  ghost predicate Withheld(g: ColumnGraph, processed: set<Change>, w: Change) {
    w !in processed && exists e :: e in AllEffects(g, processed) && e.node in g.nodes && w == Onward(g, e)
  }

  /** `c` or another kind of change to the same column was processed, and nothing `c` does is
      missing. */
  predicate Replaced(g: ColumnGraph, processed: set<Change>, c: Change) {
    && Effects(g, c) <= AllEffects(g, processed)
    && exists d :: d in processed && SamePlace(c, d)
  }

  predicate SamePlace(c: Change, d: Change) { c == d || (c.Column? && d.Column? && c.column == d.column) }

  lemma UnheardIsReplaced(g: ColumnGraph, processed: set<Change>, w: Change, d: Change)
    requires !Heard(g, w) && d in processed && SamePlace(w, d)
    ensures Replaced(g, processed, w)
  {
    forall e | e in Effects(g, w) ensures e in AllEffects(g, processed) {
      assert e in EffectsOn(g, d, e.node);
      assert e in Effects(g, d);
    }
  }

  lemma SentIsReplaced(g: ColumnGraph, given: set<Change>, processed: set<Change>, e: Effect)
    requires Follows(g, given, processed) && e in AllEffects(g, processed) && e.node in g.nodes
    requires Onward(g, e) in processed || !Heard(g, Onward(g, e))
    ensures Replaced(g, processed, Onward(g, e))
  {
    hide Follows, Effects, Heard;
    var w := Onward(g, e);
    if w in processed {
      forall f | f in Effects(g, w) ensures f in AllEffects(g, processed) {}
      assert SamePlace(w, w);
    } else {
      var f := MarkIsSent(g, given, processed, e);
      hide AllEffects, Replaced;
      UnheardIsReplaced(g, processed, w, Onward(g, f));
    }
  }

  lemma AllReplaced(g: ColumnGraph, given: set<Change>, processed: set<Change>)
    requires Follows(g, given, processed)
    requires forall w :: Withheld(g, processed, w) ==> !Heard(g, w)
    ensures forall c :: c in Caused(g, given) ==> Replaced(g, processed, c)
  {
    var kept := set c | c in Caused(g, given) && Replaced(g, processed, c);
    assert given <= Caused(g, given) && Closed(Step(g), Caused(g, given));
    hide Caused, Heard;
    forall c, d | c in kept && d in Step(g)(c) ensures d in kept {
      var e :| e in Effects(g, c) && d == Onward(g, e);
      assert e in AllEffects(g, processed);
      if d !in processed { assert Withheld(g, processed, d); }
      SentIsReplaced(g, given, processed, e);
    }
    forall c | c in given ensures c in kept {
      assert SamePlace(c, c);
      forall f | f in Effects(g, c) ensures f in AllEffects(g, processed) {}
    }
    CausedIsLeast(g, given, kept);
  }

  lemma CausedIsLeast(g: ColumnGraph, given: set<Change>, kept: set<Change>)
    requires given <= kept && Closed(Step(g), kept)
    ensures Caused(g, given) <= kept
  {
    ClosureIsLeast(Step(g), given, Bound(g, given), kept);
  }

  lemma ReplacedReportsAll(g: ColumnGraph, processed: set<Change>, all: set<Change>)
    requires processed <= all && forall c :: c in all ==> Replaced(g, processed, c)
    ensures Report(g, processed) == Report(g, all)
  {
    hide Effects;
    assert AllEffects(g, processed) == AllEffects(g, all);
    forall r ensures ChangedColumns(processed, r) == ChangedColumns(all, r) {
      forall c | c in all && c.Column? && c.column.relation == r
          ensures c.column.column in ChangedColumns(processed, r) {
        var d :| d in processed && SamePlace(c, d);
      }
    }
    var impacted := Report(g, all).nodes.Keys;
    forall c, r | c in all && r in g.ReadersOf(c.Relation()) && r !in impacted
      ensures Pruned(r, c.Relation(), ChangedColumns(all, c.Relation())) in PrunedOf(g, processed, impacted)
    {
      var d :| d in processed && SamePlace(c, d);
      assert d.Relation() == c.Relation();
    }
    assert PrunedOf(g, processed, impacted) == PrunedOf(g, all, impacted);
  }

  /** A reason other than an unknown dependency names the change it comes from. */
  lemma ReasonNamesChange(g: ColumnGraph, c: Change, e: Effect, d: Change, f: Effect)
    requires e in Effects(g, c) && f in Effects(g, d) && e.reason == f.reason && !e.reason.OpaqueReason?
    ensures c == d
  {
  }

  /** A run of the worklist reports everything the given changes cause exactly when the guard
      withholds no change that some reader has a recorded use for. */
  lemma ReportIsFullExactlyWhenNothingHeardIsWithheld(g: ColumnGraph, given: set<Change>, processed: set<Change>)
    requires Follows(g, given, processed)
    ensures Report(g, processed) == ImpactOf(g, given) <==> forall w :: Withheld(g, processed, w) ==> !Heard(g, w)
    ensures Report(g, processed).nodes == ImpactOf(g, given).nodes <==> Report(g, processed) == ImpactOf(g, given)
  {
    assert given <= processed <= Caused(g, given);
    hide Caused, Follows, Withheld, Heard, Replaced, Report;
    if forall w :: Withheld(g, processed, w) ==> !Heard(g, w) {
      AllReplaced(g, given, processed);
      ReplacedReportsAll(g, processed, Caused(g, given));
    } else {
      var w :| Withheld(g, processed, w) && Heard(g, w);
      WithheldIsCaused(g, given, processed, w);
      HeardIsMissed(g, given, processed, w);
    }
  }

  lemma WithheldIsCaused(g: ColumnGraph, given: set<Change>, processed: set<Change>, w: Change)
    requires processed <= Caused(g, given) && Withheld(g, processed, w)
    ensures w in Caused(g, given)
  {
    var e :| e in AllEffects(g, processed) && e.node in g.nodes && w == Onward(g, e);
    var c :| c in processed && e in Effects(g, c);
    assert w in Step(g)(c);
  }

  lemma HeardIsMissed(g: ColumnGraph, given: set<Change>, processed: set<Change>, w: Change)
    requires w !in processed && w in Caused(g, given) && Heard(g, w)
    ensures Report(g, processed).nodes != ImpactOf(g, given).nodes
  {
    hide Caused;
    var e :| e in Effects(g, w) && !e.reason.OpaqueReason?;
    EffectCounts(g, given, w, e);
    if e.node in Report(g, processed).nodes && e.reason in Report(g, processed).nodes[e.node].reasons {
      var f :| f in AllEffects(g, processed) && f.node == e.node && f.reason == e.reason;
      var c :| c in processed && f in Effects(g, c);
      ReasonNamesChange(g, w, e, c, f);
    }
  }

  /** Where a column of a node is reached both as added and as modified, no reader has a use for
      either kind. */
  ghost predicate ClashesUnheard(g: ColumnGraph, given: set<Change>) {
    forall e, f ::
        e in AllEffects(g, Caused(g, given)) && f in AllEffects(g, Caused(g, given)) && SameMark(e, f) &&
        e.outcome != f.outcome ==>
      e.node in g.nodes && !Heard(g, Onward(g, e))
  }

  /** Then every run reports everything. In particular, when there is no clash at all. */
  lemma UnheardClashesAreHarmless(g: ColumnGraph, given: set<Change>, processed: set<Change>)
    requires Follows(g, given, processed) && ClashesUnheard(g, given)
    ensures Report(g, processed) == ImpactOf(g, given)
  {
    assert given <= processed <= Caused(g, given);
    MoreChangesMoreEffects(g, processed, Caused(g, given));
    hide Caused, Follows, AllEffects, SameMark, Heard, Report, ImpactOf;
    forall w | Withheld(g, processed, w) ensures !Heard(g, w) {
      var e :| e in AllEffects(g, processed) && e.node in g.nodes && w == Onward(g, e);
      var f := MarkIsSent(g, given, processed, e);
      assert e.outcome != f.outcome;
    }
    ReportIsFullExactlyWhenNothingHeardIsWithheld(g, given, processed);
  }

  lemma MoreChangesMoreEffects(g: ColumnGraph, some: set<Change>, all: set<Change>)
    requires some <= all
    ensures AllEffects(g, some) <= AllEffects(g, all)
  {
  }

  /** One kind of change to a column that is not given: the guard sends only one of them on. */
  lemma OneKindIsFollowed(g: ColumnGraph, given: set<Change>, processed: set<Change>, id: string, name: string)
    requires Follows(g, given, processed) && BuildsAlone(g, id)
    requires forall kind :: kind in {Added, Modified} ==> Column(ColumnRef(g.nodes[id].relation, name), kind) !in given
    ensures exists kind ::
        kind in {Added, Modified} && Column(ColumnRef(g.nodes[id].relation, name), kind) !in processed
  {
    hide Caused, AllEffects, SameMark;
    var senders :| Sending(g, given, AllEffects(g, processed), senders, processed);
    assert Added in {Added, Modified} && Modified in {Added, Modified};
    SentOnce(g, senders, id, name);
  }

  ghost predicate BuildsAlone(g: ColumnGraph, id: string) {
    id in g.nodes && forall other :: other in g.nodes && g.nodes[other].relation == g.nodes[id].relation ==> other == id
  }

  /** Where an added and a modified column of one name are both caused, no run follows both; and
      where readers have uses for both, no run's report is complete. */
  lemma ClashHides(g: ColumnGraph, given: set<Change>, processed: set<Change>, id: string, name: string)
    requires Follows(g, given, processed) && BuildsAlone(g, id)
    requires forall kind :: kind in {Added, Modified} ==>
      Column(ColumnRef(g.nodes[id].relation, name), kind) in Caused(g, given) - given
    ensures processed != Caused(g, given)
    ensures (forall kind ::
        kind in {Added, Modified} ==> Heard(g, Column(ColumnRef(g.nodes[id].relation, name), kind))) ==>
      Report(g, processed).nodes != ImpactOf(g, given).nodes
  {
    hide Caused, Follows, Heard, Report, ImpactOf;
    OneKindIsFollowed(g, given, processed, id, name);
    var kind :| kind in {Added, Modified} && Column(ColumnRef(g.nodes[id].relation, name), kind) !in processed;
    var w := Column(ColumnRef(g.nodes[id].relation, name), kind);
    if Heard(g, w) { HeardIsMissed(g, given, processed, w); }
  }

  lemma SentOnce(g: ColumnGraph, senders: set<Effect>, id: string, name: string)
    requires forall e :: e in senders ==> e.node in g.nodes
    requires forall e, f :: e in senders && f in senders && SameMark(e, f) ==> e == f
    requires BuildsAlone(g, id)
    ensures !({Column(ColumnRef(g.nodes[id].relation, name), Added),
        Column(ColumnRef(g.nodes[id].relation, name), Modified)} <= Onwards(g, senders))
  {
    var relation := g.nodes[id].relation;
    if Column(ColumnRef(relation, name), Modified) in Onwards(g, senders) &&
        Column(ColumnRef(relation, name), Added) in Onwards(g, senders) {
      var e :| e in senders && Column(ColumnRef(relation, name), Added) == Onward(g, e);
      var f :| f in senders && Column(ColumnRef(relation, name), Modified) == Onward(g, f);
      assert SameMark(e, f);
    }
  }

  /** Every node has a relation of its own, and no given change names a column that a caused
      effect also marks. */
  ghost predicate GivenApart(g: ColumnGraph, given: set<Change>) {
    && (forall i, j :: i in g.nodes && j in g.nodes && g.nodes[i].relation == g.nodes[j].relation ==> i == j)
    && forall e ::
        e in AllEffects(g, Caused(g, given)) && e.node in g.nodes && e.outcome.ColumnDiffers? ==> Onward(g, e) !in given
  }

  /** The worklist follows everything the given changes cause exactly when nothing clashes. */
  lemma FollowsAllExactlyWhenNoClash(g: ColumnGraph, given: set<Change>, processed: set<Change>)
    requires Follows(g, given, processed) && GivenApart(g, given)
    ensures processed == Caused(g, given) <==> NoClash(g, given)
  {
    hide Caused, AllEffects, SameMark;
    if NoClash(g, given) { NothingHidden(g, given, processed); }
    if !NoClash(g, given) {
      var e, f :| e in AllEffects(g, Caused(g, given)) && f in AllEffects(g, Caused(g, given)) && SameMark(e, f) &&
          e.outcome != f.outcome;
      ClashingKinds(g, given, e, f);
      ClashHides(g, given, processed, e.node, e.outcome.name);
    }
  }

  lemma ClashingKinds(g: ColumnGraph, given: set<Change>, e: Effect, f: Effect)
    requires e in AllEffects(g, Caused(g, given)) && f in AllEffects(g, Caused(g, given)) && SameMark(e, f) &&
        e.outcome != f.outcome
    requires GivenApart(g, given)
    ensures e.node in g.nodes && e.outcome.ColumnDiffers?
    ensures forall kind ::
        kind in {Added, Modified} ==>
        Column(ColumnRef(g.nodes[e.node].relation, e.outcome.name), kind) in Caused(g, given) - given
  {
    var c :| c in Caused(g, given) && e in Effects(g, c);
    var d :| d in Caused(g, given) && f in Effects(g, d);
    ColumnEffect(g, c, e);
    ColumnEffect(g, d, f);
    assert Onward(g, e) in Step(g)(c) && Onward(g, f) in Step(g)(d);
  }

  /** An effect of a caused change is in the report. */
  lemma EffectCounts(g: ColumnGraph, given: set<Change>, c: Change, e: Effect)
    requires c in Caused(g, given) && e.node in g.ReadersOf(c.Relation()) && e in EffectsOn(g, c, e.node)
    ensures e in AllEffects(g, Caused(g, given))
    ensures e.node in ImpactOf(g, given).nodes &&
        ImpactOf(g, given).nodes[e.node] == ImpactOn(AllEffects(g, Caused(g, given)), e.node)
    ensures e.reason in ImpactOf(g, given).nodes[e.node].reasons
    ensures e.outcome.RowsDiffer? ==> ImpactOf(g, given).nodes[e.node].rowsChanged
  {
    assert e in Effects(g, c);
  }

  /** A reported reason comes from an effect of a caused change. */
  lemma ReasonCounts(g: ColumnGraph, given: set<Change>, id: string, reason: ImpactReason)
      returns (c: Change, e: Effect)
    requires id in ImpactOf(g, given).nodes && reason in ImpactOf(g, given).nodes[id].reasons
    ensures c in Caused(g, given) && id in g.ReadersOf(c.Relation()) && e in EffectsOn(g, c, id) && e.reason == reason
  {
    e :| e in AllEffects(g, Caused(g, given)) && e.node == id && e.reason == reason;
    c :| c in Caused(g, given) && e in Effects(g, c);
  }

  /** What travels along a chain of effects that starts at a given change touches the node. */
  ghost predicate Chained(g: ColumnGraph, given: set<Change>, id: string) {
    exists path, c :: Walk(Step(g), given, path, c) && Affects(g, c, id)
  }

  predicate Affects(g: ColumnGraph, c: Change, id: string) { exists e :: e in Effects(g, c) && e.node == id }

  /** The whole closure reports a node exactly when a chain of evidence leads to it. */
  lemma ImpactedExactly(g: ColumnGraph, given: set<Change>, id: string)
    ensures id in ImpactOf(g, given).nodes <==> Chained(g, given, id)
  {
    var all := Caused(g, given);
    assert forall c :: c in all <==> exists path :: Walk(Step(g), given, path, c) by {
      forall c ensures c in all <==> exists path :: Walk(Step(g), given, path, c) {
        ClosureIsReachable(Step(g), given, Bound(g, given), c);
      }
    }
    hide Caused, Effects, Walk, Step;
    if id in ImpactOf(g, given).nodes {
      var e :| e in AllEffects(g, all) && e.node == id;
      var c :| c in all && e in Effects(g, c);
      assert Affects(g, c, id);
    }
    if path, c :| Walk(Step(g), given, path, c) && Affects(g, c, id) {
      var e :| e in Effects(g, c) && e.node == id;
      assert e in AllEffects(g, all);
    }
  }

  /** A run of the worklist reports a node only where a chain of evidence leads to it, and all
      such nodes when no clash is heard. */
  lemma ReportedIsChained(g: ColumnGraph, given: set<Change>, impact: Impact, id: string)
    requires IsImpact(g, given, impact)
    ensures id in impact.nodes ==> Chained(g, given, id)
    ensures ClashesUnheard(g, given) ==> (id in impact.nodes <==> Chained(g, given, id))
  {
    var processed :| Follows(g, given, processed) && impact == Report(g, processed);
    MoreChangesMoreEffects(g, processed, Caused(g, given));
    hide Follows, Caused, ClashesUnheard, AllEffects, Chained;
    ImpactedExactly(g, given, id);
    if ClashesUnheard(g, given) { UnheardClashesAreHarmless(g, given, processed); }
  }

  // ---- every reader is accounted for ------------------------------------------------

  /** Every reader of a changed relation is impacted or pruned, never both. */
  lemma ReadersAreReportedOnce(g: ColumnGraph, processed: set<Change>, c: Change, reader: string)
    requires c in processed && reader in g.ReadersOf(c.Relation())
    ensures var report := Report(g, processed);
      reader in report.nodes <==> !exists p :: p in report.pruned && p.node == reader && p.upstream == c.Relation()
    ensures var report := Report(g, processed);
      reader in report.nodes <==> !exists p :: p in report.pruned && p.node == reader
  {
    var report := Report(g, processed);
    if reader !in report.nodes {
      assert Pruned(reader, c.Relation(), ChangedColumns(processed, c.Relation())) in report.pruned;
    }
  }

  /** A pruned reader has known lineage and uses nothing that changed in the relation. */
  lemma PrunedUsesNothing(g: ColumnGraph, processed: set<Change>, p: Pruned, c: Change)
    requires g.Indexed() && p in Report(g, processed).pruned && c in processed && c.Relation() == p.upstream
    ensures p.node in g.ReadersOf(p.upstream) && !g.nodes[p.node].IsOpaque() &&
        !g.nodes[p.node].DeclaredOnly(p.upstream)
    ensures c.Column? && c.column.column in p.unusedChangedColumns
    ensures !c.IsAdded() ==> forall u :: u in g.UsesOf(c.column) ==> u.node != p.node
    ensures c.IsAdded() && g.nodes[p.node].lineage.Some? ==>
      p.upstream !in g.nodes[p.node].lineage.value.wildcards && !UsesSameName(g.nodes[p.node].lineage.value, c.column)
  {
    var reader := p.node;
    var node := g.nodes[reader];
    if node.IsOpaque() || node.DeclaredOnly(p.upstream) {
      EffectIsReported(g, processed, c, Effect(reader, OpaqueReason(p.upstream), RowsDiffer));
    } else if c.Rows? {
      EffectIsReported(g, processed, c, Effect(reader, RowsReason(p.upstream), RowsDiffer));
    } else if !c.IsAdded() {
      forall u | u in g.UsesOf(c.column) ensures u.node != reader {
        if u.node == reader { EffectIsReported(g, processed, c, UseEffect(c.column, c.kind, u)); }
      }
    } else if node.lineage.Some? {
      if p.upstream in node.lineage.value.wildcards {
        EffectIsReported(g, processed, c,
            Effect(reader, WildcardReason(c.column), ColumnDiffers(c.column.column, Added)));
      }
      if UsesSameName(node.lineage.value, c.column) {
        EffectIsReported(g, processed, c, Effect(reader, NameCaptureReason(c.column), RowsDiffer));
      }
    }
  }

  lemma EffectIsReported(g: ColumnGraph, processed: set<Change>, c: Change, e: Effect)
    requires c in processed && e.node in g.ReadersOf(c.Relation()) && e in EffectsOn(g, c, e.node)
    ensures e.node in Report(g, processed).nodes
  {
    assert e in Effects(g, c) && e in AllEffects(g, processed);
  }
}
