/** Which nodes would fail if columns were removed: the SQL that names a column that no
    longer exists. */
module Breaks {
  import opened Prelude
  import opened Fixpoint
  import opened Lineage

  datatype Uncertainty = Uncertainty(columns: set<ColumnRef>, through: set<RelationName>)

  datatype Breaks = Breaks(
    broken: map<string, set<ColumnRef>>,
    dropped: map<string, set<ColumnRef>>,
    unknown: map<string, Uncertainty>)

  /** What travels downstream: a column that is gone, or a relation that may have lost a
      column carrying `origin`. */
  datatype Loss = Removed(column: ColumnRef) | Uncertain(relation: RelationName, origin: ColumnRef)

  /** What losses were found to do, as plain pairs. */
  datatype Found = Found(
    broken: set<(string, ColumnRef)>,
    dropped: set<(string, ColumnRef)>,
    maybe: set<(string, ColumnRef)>,
    through: set<(string, RelationName)>,
    next: set<Loss>)
  {
    function And(other: Found): Found {
      Found(broken + other.broken, dropped + other.dropped, maybe + other.maybe, through + other.through,
          next + other.next)
    }
  }

  const Nothing := Found({}, {}, {}, {}, {})

  /** The node's SQL is known to read the relation, and how. */
  predicate Knows(node: NodeLineage, relation: RelationName) {
    node.lineage.Some? && !node.IsOpaque() && relation in node.lineage.value.relationsRead
  }

  predicate Star(node: NodeLineage, relation: RelationName) {
    node.lineage.Some? && relation in node.lineage.value.wildcards
  }

  /** The use only carries the column on under its own name through `select *`. */
  predicate PassesThrough(node: NodeLineage, column: ColumnRef, u: ColumnUse) {
    Star(node, column.relation) && u.output == Some(column.column) && u.edge == Direct(Identity)
  }

  // ---- what one loss does -----------------------------------------------------------

  function UseFound(node: NodeLineage, reader: string, column: ColumnRef, u: ColumnUse): Found {
    var lost := ColumnRef(node.relation, column.column);
    if PassesThrough(node, column, u)
    then Found({}, {(reader, lost)}, {}, {}, {Removed(lost)})
    else Found({(reader, column)}, {}, {}, {}, {})
  }

  function UsesFound(node: NodeLineage, reader: string, column: ColumnRef, used: set<ColumnUse>): Found {
    var lost := ColumnRef(node.relation, column.column);
    var passed := exists u :: u in used && PassesThrough(node, column, u);
    var named := exists u :: u in used && !PassesThrough(node, column, u);
    Found(
      if named then {(reader, column)} else {},
      if passed then {(reader, lost)} else {},
      {}, {},
      if passed then {Removed(lost)} else {})
  }

  /** What a loss does to one reader of its relation. */
  function FoundAt(g: ColumnGraph, loss: Loss, reader: string): Found {
    if reader !in g.nodes then Nothing else
    var node := g.nodes[reader];
    match loss
    case Removed(column) =>
      if Knows(node, column.relation)
      then UsesFound(node, reader, column, (set u | u in g.UsesOf(column) && u.node == reader))
      else Found({}, {}, {(reader, column)}, {}, {Uncertain(node.relation, column)})
    case Uncertain(relation, origin) =>
      Found({}, {}, {(reader, origin)}, {(reader, relation)},
        if node.IsOpaque() || Star(node, relation) then {Uncertain(node.relation, origin)} else {})
  }

  function LossRelation(loss: Loss): RelationName {
    if loss.Removed? then loss.column.relation else loss.relation
  }

  /** Readers of a node whose columns were never known may name the column unseen. */
  function FoundUnseen(g: ColumnGraph, loss: Loss): Found {
    if loss.Removed? && g.NodeFor(loss.column.relation).Some? && g.NodeFor(loss.column.relation).value.columns == []
    then Nothing.(next := {Uncertain(loss.column.relation, loss.column)})
    else Nothing
  }

  function FoundAmong(g: ColumnGraph, loss: Loss, readers: set<string>): Found {
    Found(
      set r, p | r in readers && p in FoundAt(g, loss, r).broken :: p,
      set r, p | r in readers && p in FoundAt(g, loss, r).dropped :: p,
      set r, p | r in readers && p in FoundAt(g, loss, r).maybe :: p,
      set r, p | r in readers && p in FoundAt(g, loss, r).through :: p,
      set r, p | r in readers && p in FoundAt(g, loss, r).next :: p)
  }

  function FoundBy(g: ColumnGraph, loss: Loss): Found {
    FoundUnseen(g, loss).And(FoundAmong(g, loss, g.ReadersOf(LossRelation(loss))))
  }

  function Union<A, B>(s: set<A>, f: A -> set<B>): set<B> { set a, b | a in s && b in f(a) :: b }

  lemma UnionMore<A, B>(s: set<A>, f: A -> set<B>, a: A)
    ensures Union(s + {a}, f) == Union(s, f) + f(a)
  {
  }

  function BrokenBy(g: ColumnGraph): Loss -> set<(string, ColumnRef)> { loss => FoundBy(g, loss).broken }
  function DroppedBy(g: ColumnGraph): Loss -> set<(string, ColumnRef)> { loss => FoundBy(g, loss).dropped }
  function MaybeBy(g: ColumnGraph): Loss -> set<(string, ColumnRef)> { loss => FoundBy(g, loss).maybe }
  function ThroughBy(g: ColumnGraph): Loss -> set<(string, RelationName)> { loss => FoundBy(g, loss).through }
  function Step(g: ColumnGraph): Loss -> set<Loss> { loss => FoundBy(g, loss).next }

  function AllFound(g: ColumnGraph, losses: set<Loss>): Found {
    Found(Union(losses, BrokenBy(g)), Union(losses, DroppedBy(g)), Union(losses, MaybeBy(g)),
        Union(losses, ThroughBy(g)), Union(losses, Step(g)))
  }

  // ---- grouping pairs by node -------------------------------------------------------

  function Firsts<V(==)>(pairs: set<(string, V)>): set<string> { set p | p in pairs :: p.0 }

  function Seconds<V(==)>(pairs: set<(string, V)>, id: string): set<V> { set p | p in pairs && p.0 == id :: p.1 }

  function Group<V(==)>(pairs: set<(string, V)>): map<string, set<V>> {
    var ids := Firsts(pairs);
    map id | id in ids :: Seconds(pairs, id)
  }

  function GroupUnknown(maybe: set<(string, ColumnRef)>,
      through: set<(string, RelationName)>): map<string, Uncertainty> {
    var ids := Firsts(maybe);
    map id | id in ids :: Uncertainty(Seconds(maybe, id), Seconds(through, id))
  }

  lemma SecondsMore<V>(pairs: set<(string, V)>, k: string, v: V, id: string)
    ensures Seconds(pairs + {(k, v)}, id) == Seconds(pairs, id) + (if id == k then {v} else {})
    ensures k !in Firsts(pairs) ==> Seconds(pairs, k) == {}
    ensures Firsts(pairs + {(k, v)}) == Firsts(pairs) + {k}
  {
    assert forall p :: p in pairs ==> p.0 in Firsts(pairs);
  }

  lemma GroupMore<V>(pairs: set<(string, V)>, k: string, v: V)
    ensures Group(pairs + {(k, v)}) == Insert(Group(pairs), k, v)
  {
    SecondsMore(pairs, k, v, k);
    forall id | id in Group(pairs + {(k, v)}) ensures Group(pairs + {(k, v)})[id] == Insert(Group(pairs), k, v)[id] {
      SecondsMore(pairs, k, v, id);
    }
  }

  /** Every recorded relation goes with a recorded column of the same node. */
  predicate Paired(f: Found) { Firsts(f.through) <= Firsts(f.maybe) }

  /** Finding nothing of a kind leaves that kind as it was. */
  lemma AndKeeps(f: Found, other: Found)
    ensures other.broken == {} ==> f.And(other).broken == f.broken
    ensures other.dropped == {} ==> f.And(other).dropped == f.dropped
    ensures other.maybe == {} ==> f.And(other).maybe == f.maybe
    ensures other.through == {} ==> f.And(other).through == f.through
    ensures other.next == {} ==> f.And(other).next == f.next
  {
  }

  // ---- the worklist -----------------------------------------------------------------

  /** The three maps hold exactly what was found, and the queue what it leads to. */
  predicate Tells(b: Breaks, f: Found) {
    b.broken == Group(f.broken) && b.dropped == Group(f.dropped) && b.unknown == GroupUnknown(f.maybe, f.through) &&
        Paired(f)
  }

  /** Adds a column a node might name, and the relation it might have it through. */
  method AddUnknown(unknown: map<string, Uncertainty>, reader: string, column: ColumnRef, through: Option<RelationName>,
      ghost f: Found)
    returns (r: map<string, Uncertainty>)
    requires unknown == GroupUnknown(f.maybe, f.through) && Paired(f)
    ensures
      var after := f.And(OneUnknown(reader, column, through));
      r == GroupUnknown(after.maybe, after.through) && Paired(after)
  {
    var entry := if reader in unknown then unknown[reader] else Uncertainty({}, {});
    entry := entry.(columns := entry.columns + {column});
    if through.Some? { entry := entry.(through := entry.through + {through.value}); }
    r := unknown[reader := entry];
    GroupUnknownMore(f, reader, column, through);
    assert entry.through + {} == entry.through;
  }

  function OneUnknown(reader: string, column: ColumnRef, through: Option<RelationName>): Found {
    Found({}, {}, {(reader, column)}, if through.Some? then {(reader, through.value)} else {}, {})
  }

  lemma GroupUnknownMore(f: Found, reader: string, column: ColumnRef, through: Option<RelationName>)
    requires Paired(f)
    ensures
      var before, after := GroupUnknown(f.maybe, f.through), f.And(OneUnknown(reader, column, through));
      var entry := if reader in before then before[reader] else Uncertainty({}, {});
      && Paired(after)
      && GroupUnknown(after.maybe, after.through) == before[reader :=
          Uncertainty(entry.columns + {column}, entry.through + if through.Some? then {through.value} else {})]
  {
    MaybeMore(f.maybe, f.through, reader, column);
    if through.Some? {
      ThroughMore(f.maybe + {(reader, column)}, f.through, reader, through.value);
    } else {
      assert f.through + {} == f.through && forall t: set<RelationName> :: t + {} == t;
    }
  }

  lemma MaybeMore(maybe: set<(string, ColumnRef)>, through: set<(string, RelationName)>, reader: string,
      column: ColumnRef)
    requires Firsts(through) <= Firsts(maybe)
    ensures
      var before := GroupUnknown(maybe, through);
      var entry := if reader in before then before[reader] else Uncertainty({}, {});
      GroupUnknown(maybe + {(reader, column)}, through) == before[reader := entry.(columns := entry.columns + {column})]
    ensures Firsts(maybe + {(reader, column)}) == Firsts(maybe) + {reader}
  {
    SecondsMore(maybe, reader, column, reader);
    var before, after := GroupUnknown(maybe, through), GroupUnknown(maybe + {(reader, column)}, through);
    forall id | id in after && id != reader ensures after[id] == before[id] {
      SecondsMore(maybe, reader, column, id);
    }
    if reader !in before {
      assert forall p :: p in through ==> p.0 in Firsts(through);
      assert Seconds(through, reader) == {};
    }
  }

  lemma ThroughMore(maybe: set<(string, ColumnRef)>, through: set<(string, RelationName)>, reader: string,
      relation: RelationName)
    requires reader in Firsts(maybe)
    ensures
      var before := GroupUnknown(maybe, through);
      GroupUnknown(maybe, through + {(reader, relation)}) ==
          before[reader := before[reader].(through := before[reader].through + {relation})]
    ensures Firsts(through + {(reader, relation)}) == Firsts(through) + {reader}
  {
    SecondsMore(through, reader, relation, reader);
    var before, after := GroupUnknown(maybe, through), GroupUnknown(maybe, through + {(reader, relation)});
    forall id | id in after && id != reader ensures after[id] == before[id] {
      SecondsMore(through, reader, relation, id);
    }
  }

  /** Records how a reader of known lineage uses a lost column. */
  method AddUses(node: NodeLineage, reader: string, column: ColumnRef, used: set<ColumnUse>, b: Breaks,
      queue: seq<Loss>, ghost f: Found)
    returns (r: Breaks, q: seq<Loss>)
    requires Tells(b, f)
    ensures Tells(r, f.And(UsesFound(node, reader, column, used)))
    ensures Elements(q) == Elements(queue) + UsesFound(node, reader, column, used).next
  {
    r, q := b, queue;
    var todo := used;
    ghost var done: set<ColumnUse> := {};
    assert f.And(UsesFound(node, reader, column, done)) == f;
    while todo != {}
      invariant done + todo == used
      invariant Tells(r, f.And(UsesFound(node, reader, column, done)))
      invariant Elements(q) == Elements(queue) + UsesFound(node, reader, column, done).next
    {
      var u :| u in todo;
      ghost var before := f.And(UsesFound(node, reader, column, done));
      assert f.And(UsesFound(node, reader, column, done + {u})) == before.And(UseFound(node, reader, column, u)) by {
      }
      if PassesThrough(node, column, u) {
        var lost := ColumnRef(node.relation, column.column);
        GroupMore(before.dropped, reader, lost);
        r := r.(dropped := Insert(r.dropped, reader, lost));
        assert Elements(q + [Removed(lost)]) == Elements(q) + {Removed(lost)};
        q := q + [Removed(lost)];
      } else {
        GroupMore(before.broken, reader, column);
        r := r.(broken := Insert(r.broken, reader, column));
      }
      todo, done := todo - {u}, done + {u};
    }
    assert done == used;
  }

  /** What one loss does to one reader. */
  method VisitReader(g: ColumnGraph, loss: Loss, reader: string, b: Breaks, queue: seq<Loss>, ghost f: Found)
    returns (r: Breaks, q: seq<Loss>)
    requires Tells(b, f)
    ensures Tells(r, f.And(FoundAt(g, loss, reader)))
    ensures Elements(q) == Elements(queue) + FoundAt(g, loss, reader).next
  {
    r, q := b, queue;
    AndKeeps(f, FoundAt(g, loss, reader));
    if reader !in g.nodes { return; }
    var node := g.nodes[reader];
    match loss {
      case Removed(column) =>
        if Knows(node, column.relation) {
          r, q := AddUses(node, reader, column, (set u | u in g.UsesOf(column) && u.node == reader), b, queue, f);
        } else {
          var unknown := AddUnknown(b.unknown, reader, column, None, f);
          r := b.(unknown := unknown);
          q := queue + [Uncertain(node.relation, column)];
        }
      case Uncertain(relation, origin) =>
        var unknown := AddUnknown(b.unknown, reader, origin, Some(relation), f);
        r := b.(unknown := unknown);
        if node.IsOpaque() || Star(node, relation) {
          q := queue + [Uncertain(node.relation, origin)];
        }
    }
  }

  method VisitReaders(g: ColumnGraph, loss: Loss, readers: set<string>, b: Breaks, queue: seq<Loss>, ghost f: Found)
    returns (r: Breaks, q: seq<Loss>)
    requires Tells(b, f)
    ensures Tells(r, f.And(FoundAmong(g, loss, readers)))
    ensures Elements(q) == Elements(queue) + FoundAmong(g, loss, readers).next
  {
    hide FoundAt;
    r, q := b, queue;
    var todo := readers;
    ghost var done: set<string>, now := {}, f;
    AndKeeps(f, FoundAmong(g, loss, done));
    while todo != {}
      invariant todo + done == readers
      invariant now == f.And(FoundAmong(g, loss, done)) && Tells(r, now)
      invariant Elements(q) == Elements(queue) + FoundAmong(g, loss, done).next
    {
      var reader :| reader in todo;
      r, q := VisitReader(g, loss, reader, r, q, now);
      OneReaderMore(g, loss, done, reader);
      AndAssociates(f, FoundAmong(g, loss, done), FoundAt(g, loss, reader));
      now := now.And(FoundAt(g, loss, reader));
      todo, done := todo - {reader}, done + {reader};
    }
    assert done == readers;
  }

  lemma AndAssociates(a: Found, b: Found, c: Found)
    ensures a.And(b).And(c) == a.And(b.And(c))
  {
  }

  /** Follows one loss to every reader of its relation. */
  method Visit(g: ColumnGraph, loss: Loss, b: Breaks, queue: seq<Loss>, ghost f: Found)
    returns (r: Breaks, q: seq<Loss>)
    requires Tells(b, f)
    ensures Tells(r, f.And(FoundBy(g, loss)))
    ensures Elements(q) == Elements(queue) + FoundBy(g, loss).next
  {
    hide FoundAt, FoundAmong;
    r, q := b, queue;
    if loss.Removed? {
      var owner := g.NodeFor(loss.column.relation);
      if owner.Some? && owner.value.columns == [] {
        q := q + [Uncertain(loss.column.relation, loss.column)];
      }
    }
    assert Elements(q) == Elements(queue) + FoundUnseen(g, loss).next;
    AndKeeps(f, FoundUnseen(g, loss));
    r, q := VisitReaders(g, loss, g.ReadersOf(LossRelation(loss)), r, q, f.And(FoundUnseen(g, loss)));
    AndAssociates(f, FoundUnseen(g, loss), FoundAmong(g, loss, g.ReadersOf(LossRelation(loss))));
  }

  lemma OneReaderMore(g: ColumnGraph, loss: Loss, done: set<string>, reader: string)
    ensures FoundAmong(g, loss, done + {reader}) == FoundAmong(g, loss, done).And(FoundAt(g, loss, reader))
  {
    var more, both := FoundAmong(g, loss, done + {reader}), FoundAmong(g, loss, done).And(FoundAt(g, loss, reader));
    assert more.broken == both.broken;
    assert more.dropped == both.dropped;
    assert more.maybe == both.maybe;
    assert more.through == both.through;
    assert more.next == both.next;
  }

  // ---- the reference: everything a removal leads to ---------------------------------

  function Start(removed: set<ColumnRef>): set<Loss> { set c | c in removed :: Removed(c) }

  /** The removed columns, and their names on every node. */
  ghost function Renamed(g: ColumnGraph, removed: set<ColumnRef>): set<ColumnRef> {
    removed + set id, c | id in g.nodes && c in removed :: ColumnRef(g.nodes[id].relation, c.column)
  }

  ghost function Bound(g: ColumnGraph, removed: set<ColumnRef>): (r: set<Loss>)
    ensures Start(removed) <= r && Closed(Step(g), r)
  {
    var columns := Renamed(g, removed);
    var relations := (set c | c in columns :: c.relation) + (set id | id in g.nodes :: g.nodes[id].relation);
    var r := Start(columns) + set rel, c | rel in relations && c in columns :: Uncertain(rel, c);
    forall loss, next | loss in r && next in Step(g)(loss) ensures next in r {
    }
    r
  }

  /** Every loss the removals lead to. */
  ghost function AllLosses(g: ColumnGraph, removed: set<ColumnRef>): (r: set<Loss>)
    ensures Start(removed) <= r && Closed(Step(g), r)
  {
    Closure(Step(g), Start(removed), Bound(g, removed))
  }

  /** What is certain wins: a broken node is neither dropped nor unknown. */
  function Settle(f: Found): Breaks {
    Breaks(Group(f.broken), Group(f.dropped) - Firsts(f.broken), GroupUnknown(f.maybe, f.through) - Firsts(f.broken))
  }

  ghost function BreaksOf(g: ColumnGraph, removed: set<ColumnRef>): Breaks {
    Settle(AllFound(g, AllLosses(g, removed)))
  }

  lemma OneLossMore(g: ColumnGraph, seen: set<Loss>, loss: Loss)
    ensures AllFound(g, seen + {loss}) == AllFound(g, seen).And(FoundBy(g, loss))
  {
    UnionMore(seen, BrokenBy(g), loss);
    UnionMore(seen, DroppedBy(g), loss);
    UnionMore(seen, MaybeBy(g), loss);
    UnionMore(seen, ThroughBy(g), loss);
    UnionMore(seen, Step(g), loss);
  }

  ghost predicate Working(g: ColumnGraph, removed: set<ColumnRef>, seen: set<Loss>, queue: seq<Loss>) {
    seen + Elements(queue) == Start(removed) + Union(seen, Step(g)) && seen <= AllLosses(g, removed)
  }

  lemma TakeNew(g: ColumnGraph, removed: set<ColumnRef>, seen: set<Loss>, queue: seq<Loss>, q: seq<Loss>)
    requires Working(g, removed, seen, queue) && queue != []
    requires Elements(q) == Elements(queue[1..]) + Step(g)(queue[0])
    ensures Working(g, removed, seen + {queue[0]}, q)
  {
    UnionMore(seen, Step(g), queue[0]);
    TakeElements(seen, queue, q, Step(g)(queue[0]));
    assert queue[0] in Elements(queue);
  }

  lemma Done(g: ColumnGraph, removed: set<ColumnRef>, seen: set<Loss>)
    requires Working(g, removed, seen, [])
    ensures seen == AllLosses(g, removed)
  {
    assert seen + Elements<Loss>([]) == seen;
    forall loss, n | loss in seen && n in Step(g)(loss) ensures n in seen {
      assert n in Union(seen, Step(g));
    }
    ClosureIsLeast(Step(g), Start(removed), Bound(g, removed), seen);
  }

  /** Follows removed columns downstream, on any graph, and reports which nodes would fail. */
  method FindBreaks(g: ColumnGraph, removed: seq<ColumnRef>) returns (b: Breaks)
    ensures b == BreaksOf(g, Elements(removed))
  {
    b := Breaks(map[], map[], map[]);
    var queue: seq<Loss> := seq(|removed|, i requires 0 <= i < |removed| => Removed(removed[i]));
    var seen: set<Loss> := {};
    ghost var gone := Elements(removed);
    StartQueue(g, removed, queue);
    while queue != []
      invariant Going(g, gone, seen, queue, b)
      decreases |AllLosses(g, gone) - seen|, |queue|
    {
      var loss := queue[0];
      if loss in seen {
        SkipElements(seen, queue);
        queue := queue[1..];
      } else {
        b, queue := Advance(g, gone, seen, queue, b);
        seen := seen + {loss};
      }
    }
    Finish(g, gone, seen, b);
    b := Breaks(b.broken, b.dropped - b.broken.Keys, b.unknown - b.broken.Keys);
  }

  ghost predicate Going(g: ColumnGraph, removed: set<ColumnRef>, seen: set<Loss>, queue: seq<Loss>, b: Breaks) {
    Working(g, removed, seen, queue) && Tells(b, AllFound(g, seen))
  }

  lemma Finish(g: ColumnGraph, removed: set<ColumnRef>, seen: set<Loss>, b: Breaks)
    requires Going(g, removed, seen, [], b)
    ensures Breaks(b.broken, b.dropped - b.broken.Keys, b.unknown - b.broken.Keys) == BreaksOf(g, removed)
  {
    hide Working, Tells, AllFound, AllLosses, Settle;
    Done(g, removed, seen);
    SettleTold(b, AllFound(g, seen));
  }

  lemma SettleTold(b: Breaks, f: Found)
    requires Tells(b, f)
    ensures Breaks(b.broken, b.dropped - b.broken.Keys, b.unknown - b.broken.Keys) == Settle(f)
  {
    assert b.broken.Keys == Firsts(f.broken);
  }

  /** Follows the first loss of the queue, new to `seen`. */
  method Advance(g: ColumnGraph, ghost removed: set<ColumnRef>, ghost seen: set<Loss>, queue: seq<Loss>, b: Breaks)
    returns (r: Breaks, q: seq<Loss>)
    requires Going(g, removed, seen, queue, b) && queue != [] && queue[0] !in seen
    ensures Going(g, removed, seen + {queue[0]}, q, r)
    ensures |AllLosses(g, removed) - (seen + {queue[0]})| < |AllLosses(g, removed) - seen|
  {
    r, q := Visit(g, queue[0], b, queue[1..], AllFound(g, seen));
    OneLossMore(g, seen, queue[0]);
    TakeNew(g, removed, seen, queue, q);
    assert queue[0] in Elements(queue);
    OneFewer(AllLosses(g, removed), seen, queue[0]);
  }

  lemma StartQueue(g: ColumnGraph, removed: seq<ColumnRef>, queue: seq<Loss>)
    requires |queue| == |removed| && forall i :: 0 <= i < |removed| ==> queue[i] == Removed(removed[i])
    ensures Going(g, Elements(removed), {}, queue, Breaks(map[], map[], map[]))
  {
    var start := Start(Elements(removed));
    forall loss | loss in start ensures loss in Elements(queue) {
      var i :| 0 <= i < |removed| && loss == Removed(removed[i]);
      assert queue[i] == loss;
    }
    assert Elements(queue) == start;
    assert Union({}, Step(g)) == {};
    assert AllFound(g, {}) == Nothing;
  }

  // ---- what the report means --------------------------------------------------------

  /** One step of `select *` carrying a column on unchanged. */
  ghost function PassStep(g: ColumnGraph): ColumnRef -> set<ColumnRef> {
    (c: ColumnRef) => set r | r in g.ReadersOf(c.relation) &&
        PassesOn(g, r, c) :: ColumnRef(g.nodes[r].relation, c.column)
  }

  predicate PassesOn(g: ColumnGraph, reader: string, c: ColumnRef) {
    && reader in g.nodes && Knows(g.nodes[reader], c.relation)
    && exists u :: u in g.UsesOf(c) && u.node == reader && PassesThrough(g.nodes[reader], c, u)
  }

  /** The reader's SQL names the column. */
  predicate Names(g: ColumnGraph, reader: string, c: ColumnRef) {
    && reader in g.nodes && Knows(g.nodes[reader], c.relation)
    && exists u :: u in g.UsesOf(c) && u.node == reader && !PassesThrough(g.nodes[reader], c, u)
  }

  /** Every column gone after the removal: reachable through `select *` alone. */
  ghost predicate Lost(g: ColumnGraph, removed: set<ColumnRef>, c: ColumnRef) {
    exists path :: Walk(PassStep(g), removed, path, c)
  }

  /** What one known reader does with a lost column is followed. */
  lemma PassIsFollowed(g: ColumnGraph, before: ColumnRef, c: ColumnRef)
    requires c in PassStep(g)(before)
    ensures Removed(c) in Step(g)(Removed(before))
  {
    var r :| r in g.ReadersOf(before.relation) && PassesOn(g, r, before) &&
        c == ColumnRef(g.nodes[r].relation, before.column);
    var u :| u in g.UsesOf(before) && u.node == r && PassesThrough(g.nodes[r], before, u);
    assert u in (set u | u in g.UsesOf(before) && u.node == r);
    assert Removed(c) in FoundAt(g, Removed(before), r).next;
  }

  /** A column is followed as removed exactly when `select *` alone leads to it. */
  lemma RemovedExactly(g: ColumnGraph, removed: set<ColumnRef>, c: ColumnRef)
    ensures Removed(c) in AllLosses(g, removed) <==> Lost(g, removed, c)
  {
    var all := AllLosses(g, removed);
    hide AllLosses, Step;
    if path :| Walk(PassStep(g), removed, path, c) {
      var followed := set l | l in all && l.Removed? :: l.column;
      forall x, y | x in followed && y in PassStep(g)(x) ensures y in followed { PassIsFollowed(g, x, y); }
      forall x | x in removed ensures x in followed { assert Removed(x) in Start(removed); }
      WalkStaysInClosed(PassStep(g), removed, path, c, followed);
    }
    FollowedIsLost(g, removed);
  }

  lemma FollowedIsLost(g: ColumnGraph, removed: set<ColumnRef>)
    ensures forall c :: Removed(c) in AllLosses(g, removed) ==> Lost(g, removed, c)
  {
    var kept := set l | l in AllLosses(g, removed) && (l.Removed? ==> Lost(g, removed, l.column));
    forall loss, next | loss in kept && next in Step(g)(loss) ensures next in kept {
      if next.Removed? { NextIsPassed(g, removed, loss, next); }
    }
    forall c | c in removed ensures Lost(g, removed, c) { assert Walk(PassStep(g), removed, [c], c); }
    ClosureIsLeast(Step(g), Start(removed), Bound(g, removed), kept);
  }

  lemma NextIsPassed(g: ColumnGraph, removed: set<ColumnRef>, loss: Loss, next: Loss)
    requires next.Removed? && next in FoundBy(g, loss).next
    requires loss.Removed? ==> Lost(g, removed, loss.column)
    ensures Lost(g, removed, next.column)
  {
    var r :| r in g.ReadersOf(LossRelation(loss)) && next in FoundAt(g, loss, r).next;
    assert loss.Removed? && PassesOn(g, r, loss.column);
    assert next.column in PassStep(g)(loss.column);
    var path :| Walk(PassStep(g), removed, path, loss.column);
    assert Walk(PassStep(g), removed, path + [next.column], next.column);
  }

  /** The node's own lineage says how its SQL reads the relation. */
  predicate ReadKnown(n: NodeLineage, r: RelationName) {
    n.lineage.Some? && !n.lineage.value.unread && r in n.lineage.value.relationsRead
  }

  /** A node passes a column on exactly when it selects `*` and an output of that name is the column
      itself. */
  lemma PassesOnExactly(g: ColumnGraph, id: string, c: ColumnRef)
    requires g.Indexed() && id in g.nodes
    ensures PassesOn(g, id, c) <==>
      && ReadKnown(g.nodes[id], c.relation) && c.relation in g.nodes[id].lineage.value.wildcards
      && exists o :: o in g.nodes[id].lineage.value.outputs && o.name == c.column && (c, Direct(Identity)) in o.inputs
  {
    var n := g.nodes[id];
    var u := ColumnUse(id, Some(c.column), Direct(Identity));
    assert n.id == id && (u in g.UsesOf(c) <==> (c, u) in n.Uses());
    if ReadKnown(n, c.relation) && c.relation in n.lineage.value.wildcards {
      if o :| o in n.lineage.value.outputs && o.name == c.column && (c, Direct(Identity)) in o.inputs {
        assert (c, u) in OutputUses(id, o);
        assert PassesThrough(n, c, u);
      }
      if v :| v in g.UsesOf(c) && v.node == id && PassesThrough(n, c, v) { assert v == u; }
    }
  }

  /** The column feeds the output, and not by `*` carrying it on unchanged. */
  predicate FeedsOtherwise(l: QueryLineage, c: ColumnRef, o: OutputColumn, i: (ColumnRef, EdgeKind)) {
    && o in l.outputs && i in o.inputs && i.0 == c
    && !(c.relation in l.wildcards && o.name == c.column && i.1 == Direct(Identity))
  }

  /** A node's SQL names a column exactly when the column shapes its rows, or feeds an output other
      than by `*` carrying it on unchanged. */
  lemma NamesExactly(g: ColumnGraph, id: string, c: ColumnRef)
    requires g.Indexed() && id in g.nodes
    ensures Names(g, id, c) <==>
      && ReadKnown(g.nodes[id], c.relation)
      && ((exists i :: i in g.nodes[id].lineage.value.rowInputs && i.0 == c) ||
          exists o, i :: FeedsOtherwise(g.nodes[id].lineage.value, c, o, i))
  {
    var n := g.nodes[id];
    if ReadKnown(n, c.relation) {
      var l := n.lineage.value;
      if i :| i in l.rowInputs && i.0 == c {
        var u := ColumnUse(id, None, Indirect(i.1));
        assert (c, u) in RowUses(id, l) && u in g.UsesOf(c) && !PassesThrough(n, c, u);
      }
      if v :| v in g.UsesOf(c) && v.node == id && !PassesThrough(n, c, v) {
        assert (c, v) in n.Uses();
        if v.output.Some? {
          var o :| o in l.outputs && (c, v) in OutputUses(id, o);
          assert FeedsOtherwise(l, c, o, (c, v.edge));
        } else {
          assert (c, v) in RowUses(id, l);
        }
      }
      if o, i :| FeedsOtherwise(l, c, o, i) {
        var u := ColumnUse(id, Some(o.name), i.1);
        assert (c, u) in OutputUses(id, o) && u in g.UsesOf(c) && !PassesThrough(n, c, u);
      }
    }
  }

  // ---- where a column may have gone unseen ------------------------------------------

  /** The reader uses the relation in a way nothing records. */
  predicate ReadsUnknown(g: ColumnGraph, reader: string, r: RelationName) {
    reader in g.ReadersOf(r) && reader in g.nodes && !Knows(g.nodes[reader], r)
  }

  /** Where a lost column is first out of sight: its own relation, if that node's columns were
      never known, and whatever its unknown readers build. */
  function FirstDoubts(g: ColumnGraph, c: ColumnRef): set<RelationName> {
    (if g.NodeFor(c.relation).Some? && g.NodeFor(c.relation).value.columns == [] then {c.relation} else {}) +
    (set r | r in g.ReadersOf(c.relation) && ReadsUnknown(g, r, c.relation) :: g.nodes[r].relation)
  }

  /** A reader is unknown exactly when its SQL was not analysed or does not read what it declares. */
  lemma ReadsUnknownExactly(g: ColumnGraph, id: string, r: RelationName)
    requires g.Indexed() && id in g.nodes
    ensures ReadsUnknown(g, id, r) <==>
      && !ReadKnown(g.nodes[id], r)
      && (r in g.nodes[id].dependsOn || (g.nodes[id].lineage.Some? && r in g.nodes[id].lineage.value.relationsRead))
  {
    assert id in g.ReadersOf(r) <==> r in g.nodes[id].Reads();
  }

  predicate CarriesOn(g: ColumnGraph, reader: string, r: RelationName) {
    reader in g.ReadersOf(r) && reader in g.nodes && (g.nodes[reader].IsOpaque() || Star(g.nodes[reader], r))
  }

  function DoubtStep(g: ColumnGraph): RelationName -> set<RelationName> {
    (r: RelationName) => set q | q in g.ReadersOf(r) && CarriesOn(g, q, r) :: g.nodes[q].relation
  }

  /** The relation may have lost a column that carries the lost column `c`: it is reached from
      where `c` went out of sight through opaque nodes and `select *` alone. */
  ghost predicate Doubtful(g: ColumnGraph, removed: set<ColumnRef>, r: RelationName, c: ColumnRef) {
    Lost(g, removed, c) && exists path :: Walk(DoubtStep(g), FirstDoubts(g, c), path, r)
  }

  lemma FirstDoubtIsFollowed(g: ColumnGraph, r: RelationName, c: ColumnRef)
    requires r in FirstDoubts(g, c)
    ensures Uncertain(r, c) in Step(g)(Removed(c))
  {
    var loss := Removed(c);
    if Uncertain(r, c) !in FoundUnseen(g, loss).next {
      var q :| q in g.ReadersOf(c.relation) && ReadsUnknown(g, q, c.relation) && r == g.nodes[q].relation;
      assert Uncertain(r, c) in FoundAt(g, loss, q).next;
    }
  }

  lemma DoubtIsFollowed(g: ColumnGraph, r: RelationName, q: RelationName, c: ColumnRef)
    requires q in DoubtStep(g)(r)
    ensures Uncertain(q, c) in Step(g)(Uncertain(r, c))
  {
    var reader :| reader in g.ReadersOf(r) && CarriesOn(g, reader, r) && q == g.nodes[reader].relation;
    assert Uncertain(q, c) in FoundAt(g, Uncertain(r, c), reader).next;
  }

  lemma FollowedIsDoubtful(g: ColumnGraph, removed: set<ColumnRef>)
    ensures forall r, c :: Uncertain(r, c) in AllLosses(g, removed) ==> Doubtful(g, removed, r, c)
  {
    FollowedIsLost(g, removed);
    var kept := set l | l in AllLosses(g, removed) && (l.Uncertain? ==> Doubtful(g, removed, l.relation, l.origin));
    forall loss, next | loss in kept && next in Step(g)(loss) ensures next in kept {
      if next.Uncertain? { NextIsDoubtful(g, removed, loss, next); }
    }
    ClosureIsLeast(Step(g), Start(removed), Bound(g, removed), kept);
  }

  lemma NextIsDoubtful(g: ColumnGraph, removed: set<ColumnRef>, loss: Loss, next: Loss)
    requires next.Uncertain? && next in FoundBy(g, loss).next
    requires if loss.Removed? then Lost(g, removed, loss.column) else Doubtful(g, removed, loss.relation, loss.origin)
    ensures Doubtful(g, removed, next.relation, next.origin)
  {
    hide Lost;
    if loss.Removed? {
      assert next.relation in FirstDoubts(g, next.origin) && next.origin == loss.column;
      assert Walk(DoubtStep(g), FirstDoubts(g, next.origin), [next.relation], next.relation);
    } else {
      assert next.relation in DoubtStep(g)(loss.relation) && next.origin == loss.origin;
      var path :| Walk(DoubtStep(g), FirstDoubts(g, loss.origin), path, loss.relation);
      assert Walk(DoubtStep(g), FirstDoubts(g, next.origin), path + [next.relation], next.relation);
    }
  }

  lemma DoubtfulIsFollowed(g: ColumnGraph, all: set<Loss>, path: seq<RelationName>, r: RelationName, c: ColumnRef)
    requires Removed(c) in all && Closed(Step(g), all) && Walk(DoubtStep(g), FirstDoubts(g, c), path, r)
    ensures Uncertain(r, c) in all
  {
    hide Step, DoubtStep, FirstDoubts, Walk;
    var followed := set l | l in all && l.Uncertain? && l.origin == c :: l.relation;
    forall x, y | x in followed && y in DoubtStep(g)(x) ensures y in followed {
      DoubtIsFollowed(g, x, y, c);
      assert Uncertain(y, c) in all;
    }
    forall x | x in FirstDoubts(g, c) ensures x in followed {
      FirstDoubtIsFollowed(g, x, c);
      assert Uncertain(x, c) in all;
    }
    WalkStaysInClosed(DoubtStep(g), FirstDoubts(g, c), path, r, followed);
  }

  lemma UncertainExactly(g: ColumnGraph, removed: set<ColumnRef>, r: RelationName, c: ColumnRef)
    ensures Uncertain(r, c) in AllLosses(g, removed) <==> Doubtful(g, removed, r, c)
  {
    FollowedIsDoubtful(g, removed);
    var all := AllLosses(g, removed);
    assert Closed(Step(g), all);
    hide AllLosses, Lost, Step, Closed, FirstDoubts, DoubtStep;
    if Doubtful(g, removed, r, c) {
      RemovedExactly(g, removed, c);
      var path :| Walk(DoubtStep(g), FirstDoubts(g, c), path, r);
      DoubtfulIsFollowed(g, all, path, r, c);
    }
  }

  lemma NamedIsBroken(g: ColumnGraph, losses: set<Loss>, id: string, c: ColumnRef)
    requires Removed(c) in losses && id in g.ReadersOf(c.relation) && Names(g, id, c)
    ensures (id, c) in AllFound(g, losses).broken
  {
    var u :| u in g.UsesOf(c) && u.node == id && !PassesThrough(g.nodes[id], c, u);
    assert u in (set u | u in g.UsesOf(c) && u.node == id);
    assert (id, c) in FoundAt(g, Removed(c), id).broken;
    assert (id, c) in BrokenBy(g)(Removed(c));
  }

  lemma BrokenIsNamed(g: ColumnGraph, losses: set<Loss>, id: string, c: ColumnRef)
    requires (id, c) in AllFound(g, losses).broken
    ensures Removed(c) in losses && id in g.ReadersOf(c.relation) && Names(g, id, c)
  {
    var loss :| loss in losses && (id, c) in BrokenBy(g)(loss);
  }

  /** `broken` holds a node and a column exactly when the column is lost and the node's SQL
      names it. */
  lemma BrokenExactly(g: ColumnGraph, removed: set<ColumnRef>, id: string, c: ColumnRef)
    ensures c in Entry(BreaksOf(g, removed).broken, id) <==>
      Lost(g, removed, c) && id in g.ReadersOf(c.relation) && Names(g, id, c)
  {
    RemovedExactly(g, removed, c);
    var losses := AllLosses(g, removed);
    var pairs := AllFound(g, losses).broken;
    if (id, c) in pairs { BrokenIsNamed(g, losses, id, c); }
    if Removed(c) in losses && id in g.ReadersOf(c.relation) && Names(g, id, c) { NamedIsBroken(g, losses, id, c); }
  }

  /** The node passes `c` on as its own column `d`. */
  predicate DropsAs(g: ColumnGraph, id: string, c: ColumnRef, d: ColumnRef) {
    id in g.ReadersOf(c.relation) && PassesOn(g, id, c) && d == ColumnRef(g.nodes[id].relation, c.column)
  }

  ghost predicate Drops(g: ColumnGraph, removed: set<ColumnRef>, id: string, d: ColumnRef) {
    exists c :: Lost(g, removed, c) && DropsAs(g, id, c, d)
  }

  lemma PassIsDropped(g: ColumnGraph, losses: set<Loss>, id: string, c: ColumnRef)
    requires Removed(c) in losses && id in g.ReadersOf(c.relation) && PassesOn(g, id, c)
    ensures (id, ColumnRef(g.nodes[id].relation, c.column)) in AllFound(g, losses).dropped
  {
    var d := ColumnRef(g.nodes[id].relation, c.column);
    var u :| u in g.UsesOf(c) && u.node == id && PassesThrough(g.nodes[id], c, u);
    assert u in (set u | u in g.UsesOf(c) && u.node == id);
    assert (id, d) in FoundAt(g, Removed(c), id).dropped;
    assert (id, d) in DroppedBy(g)(Removed(c));
  }

  lemma DropIsPassed(g: ColumnGraph, losses: set<Loss>, id: string, d: ColumnRef) returns (c: ColumnRef)
    requires (id, d) in AllFound(g, losses).dropped
    ensures Removed(c) in losses && DropsAs(g, id, c, d)
  {
    var loss :| loss in losses && (id, d) in DroppedBy(g)(loss);
    var reader :| reader in g.ReadersOf(LossRelation(loss)) && (id, d) in FoundAt(g, loss, reader).dropped;
    c := loss.column;
  }

  lemma DropFoundExactly(g: ColumnGraph, removed: set<ColumnRef>, id: string, d: ColumnRef)
    ensures (id, d) in AllFound(g, AllLosses(g, removed)).dropped <==> Drops(g, removed, id, d)
  {
    var losses := AllLosses(g, removed);
    hide AllLosses, Lost, AllFound;
    if (id, d) in AllFound(g, losses).dropped {
      var c := DropIsPassed(g, losses, id, d);
      RemovedExactly(g, removed, c);
      assert DropsAs(g, id, c, d);
    }
    if c :| Lost(g, removed, c) && DropsAs(g, id, c, d) {
      RemovedExactly(g, removed, c);
      PassIsDropped(g, losses, id, c);
    }
  }

  /** `dropped` holds a node and a column exactly when the node passes a lost column on as that
      column, and nothing is broken about the node. */
  lemma DroppedExactly(g: ColumnGraph, removed: set<ColumnRef>, id: string, d: ColumnRef)
    ensures var b := BreaksOf(g, removed);
      d in Entry(b.dropped, id) <==> id !in b.broken && Drops(g, removed, id, d)
  {
    DropFoundExactly(g, removed, id, d);
    hide AllFound, AllLosses, Drops;
    var f := AllFound(g, AllLosses(g, removed));
    assert (id, d) in f.dropped ==> id in Firsts(f.dropped);
  }

  /** The node may name a column that carries `c` in a way nothing records. */
  ghost predicate MayName(g: ColumnGraph, removed: set<ColumnRef>, id: string, c: ColumnRef) {
    || (Lost(g, removed, c) && ReadsUnknown(g, id, c.relation))
    || exists r :: MayNameThrough(g, removed, id, r, c)
  }

  ghost predicate MayNameThrough(g: ColumnGraph, removed: set<ColumnRef>, id: string, r: RelationName, c: ColumnRef) {
    Doubtful(g, removed, r, c) && id in g.ReadersOf(r) && id in g.nodes
  }

  lemma UnknownIsFound(g: ColumnGraph, losses: set<Loss>, id: string, c: ColumnRef)
    requires Removed(c) in losses && ReadsUnknown(g, id, c.relation)
    ensures (id, c) in AllFound(g, losses).maybe
  {
    assert (id, c) in FoundAt(g, Removed(c), id).maybe;
    assert (id, c) in MaybeBy(g)(Removed(c));
  }

  lemma DoubtIsFound(g: ColumnGraph, losses: set<Loss>, id: string, r: RelationName, c: ColumnRef)
    requires Uncertain(r, c) in losses && id in g.ReadersOf(r) && id in g.nodes
    ensures (id, c) in AllFound(g, losses).maybe && (id, r) in AllFound(g, losses).through
  {
    assert (id, c) in FoundAt(g, Uncertain(r, c), id).maybe && (id, r) in FoundAt(g, Uncertain(r, c), id).through;
    assert (id, c) in MaybeBy(g)(Uncertain(r, c)) && (id, r) in ThroughBy(g)(Uncertain(r, c));
  }

  lemma FoundIsDoubt(g: ColumnGraph, losses: set<Loss>, id: string, c: ColumnRef) returns (loss: Loss)
    requires (id, c) in AllFound(g, losses).maybe
    ensures loss in losses && if loss.Removed?
      then loss.column == c && ReadsUnknown(g, id, c.relation)
      else loss.origin == c && id in g.ReadersOf(loss.relation) && id in g.nodes
  {
    loss :| loss in losses && (id, c) in MaybeBy(g)(loss);
  }

  lemma FoundIsThrough(g: ColumnGraph, losses: set<Loss>, id: string, r: RelationName) returns (c: ColumnRef)
    requires (id, r) in AllFound(g, losses).through
    ensures Uncertain(r, c) in losses && id in g.ReadersOf(r) && id in g.nodes
  {
    var loss :| loss in losses && (id, r) in ThroughBy(g)(loss);
    var reader :| reader in g.ReadersOf(LossRelation(loss)) && (id, r) in FoundAt(g, loss, reader).through;
    c := loss.origin;
  }

  lemma MaybeFoundExactly(g: ColumnGraph, removed: set<ColumnRef>, id: string, c: ColumnRef)
    ensures (id, c) in AllFound(g, AllLosses(g, removed)).maybe <==> MayName(g, removed, id, c)
  {
    var losses := AllLosses(g, removed);
    hide AllLosses, AllFound, Lost, Doubtful, ReadsUnknown;
    RemovedExactly(g, removed, c);
    if (id, c) in AllFound(g, losses).maybe {
      var loss := FoundIsDoubt(g, losses, id, c);
      if loss.Uncertain? {
        UncertainExactly(g, removed, loss.relation, c);
        assert MayNameThrough(g, removed, id, loss.relation, c);
      }
    }
    if Lost(g, removed, c) && ReadsUnknown(g, id, c.relation) { UnknownIsFound(g, losses, id, c); }
    if r :| MayNameThrough(g, removed, id, r, c) {
      UncertainExactly(g, removed, r, c);
      DoubtIsFound(g, losses, id, r, c);
    }
  }

  lemma ThroughFoundExactly(g: ColumnGraph, removed: set<ColumnRef>, id: string, r: RelationName)
    ensures (id, r) in AllFound(g, AllLosses(g, removed)).through <==> exists c :: MayNameThrough(g, removed, id, r, c)
  {
    var losses := AllLosses(g, removed);
    hide AllLosses, AllFound, Doubtful;
    if (id, r) in AllFound(g, losses).through {
      var c := FoundIsThrough(g, losses, id, r);
      UncertainExactly(g, removed, r, c);
      assert MayNameThrough(g, removed, id, r, c);
    }
    if c :| MayNameThrough(g, removed, id, r, c) {
      UncertainExactly(g, removed, r, c);
      DoubtIsFound(g, losses, id, r, c);
    }
  }

  /** `unknown` holds a node exactly when it may name some lost column unseen and nothing is
      broken about it, with exactly those columns and the relations it may have them through. */
  lemma UnknownExactly(g: ColumnGraph, removed: set<ColumnRef>, id: string)
    ensures var b := BreaksOf(g, removed);
      && (id in b.unknown <==> id !in b.broken && exists c :: MayName(g, removed, id, c))
      && (id in b.unknown ==>
          && (forall c :: c in b.unknown[id].columns <==> MayName(g, removed, id, c))
          && (forall r :: r in b.unknown[id].through <==> exists c :: MayNameThrough(g, removed, id, r, c)))
  {
    var f := AllFound(g, AllLosses(g, removed));
    forall c ensures (id, c) in f.maybe <==> MayName(g, removed, id, c) { MaybeFoundExactly(g, removed, id, c); }
    forall r ensures (id, r) in f.through <==> exists c :: MayNameThrough(g, removed, id, r, c) {
      ThroughFoundExactly(g, removed, id, r);
    }
    assert BreaksOf(g, removed) == Settle(f);
    hide *;
    SettledUnknown(f, id);
  }

  lemma SettledUnknown(f: Found, id: string)
    ensures var b := Settle(f);
      && (id in b.unknown <==> id !in b.broken && exists c :: (id, c) in f.maybe)
      && (id in b.unknown ==>
          && (forall c :: c in b.unknown[id].columns <==> (id, c) in f.maybe)
          && (forall r :: r in b.unknown[id].through <==> (id, r) in f.through))
  {
    forall c ensures (id, c) in f.maybe ==> id in Firsts(f.maybe) {}
    if id in Firsts(f.maybe) {
      var p :| p in f.maybe && p.0 == id;
      assert (id, p.1) in f.maybe;
    }
  }

  /** Any other reader of a lost column drops that column, may name it unseen, or has no
      recorded use of it. */
  lemma ReadersAreAccountedFor(g: ColumnGraph, removed: set<ColumnRef>, id: string, c: ColumnRef)
    requires Lost(g, removed, c) && id in g.ReadersOf(c.relation) && id in g.nodes
    ensures
      var b := BreaksOf(g, removed);
      || id in b.broken
      || ColumnRef(g.nodes[id].relation, c.column) in Entry(b.dropped, id)
      || (id in b.unknown && c in b.unknown[id].columns)
      || (Knows(g.nodes[id], c.relation) && forall u :: u in g.UsesOf(c) ==> u.node != id)
  {
    var b := BreaksOf(g, removed);
    hide Lost, BreaksOf;
    BrokenExactly(g, removed, id, c);
    UnknownExactly(g, removed, id);
    DroppedExactly(g, removed, id, ColumnRef(g.nodes[id].relation, c.column));
    if Knows(g.nodes[id], c.relation) {
      if u :| u in g.UsesOf(c) && u.node == id {
        assert if PassesThrough(g.nodes[id], c, u) then PassesOn(g, id, c) else Names(g, id, c);
      }
    } else {
      assert MayName(g, removed, id, c);
    }
  }

  /** A broken node is never also reported dropped or unknown. */
  lemma CertainWins(g: ColumnGraph, removed: set<ColumnRef>)
    ensures var b := BreaksOf(g, removed); b.broken.Keys !! b.dropped.Keys && b.broken.Keys !! b.unknown.Keys
  {
  }
}
