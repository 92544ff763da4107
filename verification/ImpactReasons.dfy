/** What a change does to a node, stated on the node's own lineage; and every report of the change
    worklist in those terms. */
module ImpactReasons {
  import opened Prelude
  import opened Fixpoint
  import opened Lineage
  import opened Impact

  /** Its SQL reads the relation, or it declares it. */
  predicate ReadsFrom(n: NodeLineage, r: RelationName) {
    r in n.dependsOn || (n.lineage.Some? && r in n.lineage.value.relationsRead)
  }

  /** Nothing says how its SQL uses the relation: it was not analysed, or does not read it. */
  predicate UsesUnknown(n: NodeLineage, r: RelationName) {
    n.lineage.None? || n.lineage.value.unread || r !in n.lineage.value.relationsRead
  }

  predicate Feeds(o: OutputColumn, c: ColumnRef, edge: EdgeKind) { (c, edge) in o.inputs }

  /** The query uses the column in an output of this name, or to shape its rows. */
  predicate UsesColumn(l: QueryLineage, c: ColumnRef, output: Option<string>, edge: EdgeKind) {
    match output
    case Some(name) => exists k :: 0 <= k < |l.outputs| && l.outputs[k].name == name && Feeds(l.outputs[k], c, edge)
    case None => edge.Indirect? && (c, edge.indirect) in l.rowInputs
  }

  /** It uses a column of this name from another relation. */
  predicate UsesNameElsewhere(l: QueryLineage, c: ColumnRef) {
    || (exists i :: i in l.rowInputs && i.0.column == c.column && i.0.relation != c.relation)
    || exists k :: 0 <= k < |l.outputs| && exists i ::
         i in l.outputs[k].inputs && i.0.column == c.column && i.0.relation != c.relation
  }

  /** A known reader of the relation. */
  predicate Known(n: NodeLineage, r: RelationName) { ReadsFrom(n, r) && !UsesUnknown(n, r) }

  /** The change makes the node run for this reason, with this effect on what it builds. */
  predicate Does(n: NodeLineage, c: Change, reason: ImpactReason, outcome: Outcome) {
    match reason
    case OpaqueReason(r) =>
      && r == (if c.Rows? then c.changed else c.column.relation)
      && ReadsFrom(n, r) && UsesUnknown(n, r) && outcome == RowsDiffer
    case RowsReason(r) => c == Rows(r) && Known(n, r) && outcome == RowsDiffer
    case ColumnReason(column, kind, output, edge) =>
      && c == Column(column, kind) && kind != Added && Known(n, column.relation)
      && UsesColumn(n.lineage.value, column, output, edge)
      && outcome == (if output.Some? then ColumnDiffers(output.value, Modified) else RowsDiffer)
    case WildcardReason(column) =>
      && c == Column(column, Added) && Known(n, column.relation) && column.relation in n.lineage.value.wildcards
      && (outcome == ColumnDiffers(column.column, Added) ||
          (outcome == RowsDiffer && exists i :: i in n.lineage.value.rowInputs && i.0.relation == column.relation))
    case NameCaptureReason(column) =>
      c == Column(column, Added) && Known(n, column.relation) && UsesNameElsewhere(n.lineage.value, column) &&
        outcome == RowsDiffer
  }

  ghost predicate DoneBy(n: NodeLineage, changes: set<Change>, reason: ImpactReason, outcome: Outcome) {
    exists c :: c in changes && Does(n, c, reason, outcome)
  }

  // ---- the rules do exactly that ----------------------------------------------------

  lemma SameReads(n: NodeLineage, r: RelationName)
    ensures r in n.Reads() <==> ReadsFrom(n, r)
    ensures ReadsFrom(n, r) ==> (n.IsOpaque() || n.DeclaredOnly(r) <==> UsesUnknown(n, r))
  {
  }

  lemma SameUses(n: NodeLineage, l: QueryLineage, c: ColumnRef, output: Option<string>, edge: EdgeKind)
    requires n.lineage == Some(l)
    ensures (c, ColumnUse(n.id, output, edge)) in n.Uses() <==> UsesColumn(l, c, output, edge)
  {
    if k :| 0 <= k < |l.outputs| && output == Some(l.outputs[k].name) && Feeds(l.outputs[k], c, edge) {
      assert l.outputs[k] in l.outputs;
      assert (c, ColumnUse(n.id, output, edge)) in OutputUses(n.id, l.outputs[k]);
    }
    if o :| o in l.outputs && (c, ColumnUse(n.id, output, edge)) in OutputUses(n.id, o) {
      var k :| 0 <= k < |l.outputs| && l.outputs[k] == o;
      assert Feeds(l.outputs[k], c, edge);
    }
  }

  lemma SameNames(l: QueryLineage, c: ColumnRef)
    ensures UsesSameName(l, c) <==> UsesNameElsewhere(l, c)
  {
  }

  lemma AddedEffectIs(id: string, n: NodeLineage, l: QueryLineage, c: Change, e: Effect)
    requires n.lineage == Some(l) && c.IsAdded() && Known(n, c.column.relation) && e.node == id
    ensures e in AddedEffects(id, l, c.column) <==> Does(n, c, e.reason, e.outcome)
  {
    SameNames(l, c.column);
    hide UsesSameName, UsesNameElsewhere, Known;
  }

  lemma UseEffectIs(g: ColumnGraph, n: NodeLineage, c: Change, e: Effect)
    requires g.Indexed() && e.node in g.nodes && n == g.nodes[e.node]
    requires c.Column? && !c.IsAdded() && Known(n, c.column.relation)
    ensures (exists u :: u in g.UsesOf(c.column) && u.node == e.node && e == UseEffect(c.column, c.kind, u)) <==>
      Does(n, c, e.reason, e.outcome)
  {
    assert n.id == e.node && g.UsesAgree();
    hide ColumnGraph.Indexed, ColumnGraph.ReadersAgree, ColumnGraph.OwnersAgree, UsesColumn, Known;
    var l := n.lineage.value;
    forall u: ColumnUse | u.node == e.node
      ensures u in g.UsesOf(c.column) <==> UsesColumn(l, c.column, u.output, u.edge)
    {
      SameUses(n, l, c.column, u.output, u.edge);
      assert u == ColumnUse(n.id, u.output, u.edge);
    }
    hide ColumnGraph.UsesAgree, ColumnGraph.UsesOf;
    if e.reason.ColumnReason? && e.reason.upstream == c.column && e.reason.change == c.kind {
      var u := ColumnUse(e.node, e.reason.output, e.reason.edge);
      assert u.node == e.node;
      assert UseEffect(c.column, c.kind, u).reason == e.reason;
    }
  }

  lemma EffectOnIs(g: ColumnGraph, c: Change, e: Effect)
    requires g.Indexed() && e.node in g.nodes && ReadsFrom(g.nodes[e.node], c.Relation())
    ensures e in EffectsOn(g, c, e.node) <==> Does(g.nodes[e.node], c, e.reason, e.outcome)
  {
    var n := g.nodes[e.node];
    SameReads(n, c.Relation());
    if UsesUnknown(n, c.Relation()) {
      assert EffectsOn(g, c, e.node) == {Effect(e.node, OpaqueReason(c.Relation()), RowsDiffer)};
    } else {
      assert !(n.IsOpaque() || n.DeclaredOnly(c.Relation())) && Known(n, c.Relation());
      hide NodeLineage.IsOpaque, NodeLineage.DeclaredOnly, ColumnGraph.Indexed, ReadsFrom, UsesUnknown;
      if c.Rows? {
      } else if c.kind == Added {
        AddedEffectIs(e.node, n, n.lineage.value, c, e);
      } else {
        UseEffectIs(g, n, c, e);
      }
    }
  }

  /** The propagation rules do to each reader exactly what its lineage says. */
  lemma EffectIs(g: ColumnGraph, c: Change, e: Effect)
    requires g.Indexed()
    ensures e in Effects(g, c) <==> e.node in g.nodes && Does(g.nodes[e.node], c, e.reason, e.outcome)
  {
    assert e in Effects(g, c) <==> e.node in g.ReadersOf(c.Relation()) && e in EffectsOn(g, c, e.node);
    if e.node in g.nodes {
      assert e.node in g.ReadersOf(c.Relation()) <==> c.Relation() in g.nodes[e.node].Reads();
      SameReads(g.nodes[e.node], c.Relation());
      DoesToReaders(g.nodes[e.node], c, e);
      if ReadsFrom(g.nodes[e.node], c.Relation()) { EffectOnIs(g, c, e); }
    }
  }

  lemma DoesToReaders(n: NodeLineage, c: Change, e: Effect)
    ensures Does(n, c, e.reason, e.outcome) ==> ReadsFrom(n, c.Relation())
  {
  }

  // ---- what a report says -----------------------------------------------------------

  ghost predicate Touches(n: NodeLineage, changes: set<Change>) {
    exists reason, outcome :: DoneBy(n, changes, reason, outcome)
  }

  /** One entry of a report: exactly the reasons there are, the columns that differ, and whether
      the rows do. */
  ghost predicate IsEntry(n: NodeLineage, changes: set<Change>, entry: NodeImpact) {
    && (forall reason :: reason in entry.reasons <==> exists outcome :: DoneBy(n, changes, reason, outcome))
    && (forall x :: x in entry.changedColumns <==>
          exists reason, kind :: DoneBy(n, changes, reason, ColumnDiffers(x, kind)))
    && (entry.rowsChanged <==> exists reason :: DoneBy(n, changes, reason, RowsDiffer))
  }

  /** One reader that nothing touches, with all the columns that changed in the relation. */
  ghost predicate IsPruned(g: ColumnGraph, changes: set<Change>, p: Pruned) {
    && p.node in g.nodes && ReadsFrom(g.nodes[p.node], p.upstream) && !Touches(g.nodes[p.node], changes)
    && (exists c :: c in changes && ChangesIn(c, p.upstream))
    && forall x :: x in p.unusedChangedColumns <==> exists kind :: Column(ColumnRef(p.upstream, x), kind) in changes
  }

  predicate ChangesIn(c: Change, r: RelationName) { r == if c.Rows? then c.changed else c.column.relation }

  /** The report for a set of changes, told from the nodes' lineage alone. */
  ghost predicate Tells(g: ColumnGraph, changes: set<Change>, report: Impact) {
    && (forall id :: id in report.nodes <==> id in g.nodes && Touches(g.nodes[id], changes))
    && (forall id :: id in report.nodes ==> IsEntry(g.nodes[id], changes, report.nodes[id]))
    && forall p :: p in report.pruned <==> IsPruned(g, changes, p)
  }

  lemma EffectAmong(g: ColumnGraph, changes: set<Change>, e: Effect)
    requires g.Indexed()
    ensures e in AllEffects(g, changes) <==> e.node in g.nodes && DoneBy(g.nodes[e.node], changes, e.reason, e.outcome)
  {
    hide ColumnGraph.Indexed, Effects, Does;
    forall c | c in changes
      ensures e in Effects(g, c) <==> e.node in g.nodes && Does(g.nodes[e.node], c, e.reason, e.outcome)
    {
      EffectIs(g, c, e);
    }
  }

  lemma EntryIs(g: ColumnGraph, changes: set<Change>, id: string)
    requires g.Indexed() && id in g.nodes
    ensures IsEntry(g.nodes[id], changes, ImpactOn(AllEffects(g, changes), id))
  {
    var n, effects := g.nodes[id], AllEffects(g, changes);
    forall reason, outcome ensures Effect(id, reason, outcome) in effects <==> DoneBy(n, changes, reason, outcome) {
      EffectAmong(g, changes, Effect(id, reason, outcome));
    }
    hide AllEffects, DoneBy, ColumnGraph.Indexed;
    var entry := ImpactOn(effects, id);
    forall reason ensures reason in entry.reasons <==> exists outcome :: DoneBy(n, changes, reason, outcome) {
      if outcome :| DoneBy(n, changes, reason, outcome) { assert Effect(id, reason, outcome) in effects; }
      if e :| e in effects && e.node == id && e.reason == reason { assert e == Effect(id, reason, e.outcome); }
    }
    forall x ensures x in entry.changedColumns <==>
      exists reason, kind :: DoneBy(n, changes, reason, ColumnDiffers(x, kind))
    {
      if reason, kind :| DoneBy(n, changes, reason, ColumnDiffers(x, kind)) {
        assert Effect(id, reason, ColumnDiffers(x, kind)) in effects;
      }
      if e :| e in effects && e.node == id && e.outcome.ColumnDiffers? && e.outcome.name == x {
        assert e == Effect(id, e.reason, ColumnDiffers(x, e.outcome.how));
      }
    }
    if reason :| DoneBy(n, changes, reason, RowsDiffer) { assert Effect(id, reason, RowsDiffer) in effects; }
    if e :| e in effects && e.node == id && e.outcome.RowsDiffer? { assert e == Effect(id, e.reason, RowsDiffer); }
  }

  lemma ReportedAre(g: ColumnGraph, changes: set<Change>, id: string)
    requires g.Indexed()
    ensures id in Report(g, changes).nodes <==> id in g.nodes && Touches(g.nodes[id], changes)
    ensures id in Report(g, changes).nodes ==> Report(g, changes).nodes[id] == ImpactOn(AllEffects(g, changes), id)
  {
    hide AllEffects, DoneBy, ColumnGraph.Indexed;
    if e :| e in AllEffects(g, changes) && e.node == id { EffectAmong(g, changes, e); }
    if id in g.nodes {
      if reason, outcome :| DoneBy(g.nodes[id], changes, reason, outcome) {
        EffectAmong(g, changes, Effect(id, reason, outcome));
        assert Effect(id, reason, outcome) in AllEffects(g, changes);
      }
    }
  }

  lemma PrunedAre(g: ColumnGraph, changes: set<Change>, p: Pruned)
    requires g.Indexed()
    ensures p in Report(g, changes).pruned <==> IsPruned(g, changes, p)
  {
    ReportedAre(g, changes, p.node);
    assert forall r :: p.node in g.ReadersOf(r) <==> p.node in g.nodes && r in g.nodes[p.node].Reads();
    if p.node in g.nodes { SameReads(g.nodes[p.node], p.upstream); }
    hide NodesOf, AllEffects, Touches, ReadsFrom, ColumnGraph.Indexed, NodeLineage.Reads, ColumnGraph.ReadersOf;
    var columns := ChangedColumns(changes, p.upstream);
    forall x ensures x in columns <==> exists kind :: Column(ColumnRef(p.upstream, x), kind) in changes {
      if c :| c in changes && c.Column? && c.column.relation == p.upstream && c.column.column == x {
        assert c == Column(ColumnRef(p.upstream, x), c.kind);
      }
      if kind :| Column(ColumnRef(p.upstream, x), kind) in changes {
        assert Column(ColumnRef(p.upstream, x), kind).column.relation == p.upstream;
      }
    }
    assert forall c :: ChangesIn(c, p.upstream) <==> c.Relation() == p.upstream;
    if IsPruned(g, changes, p) { assert p.unusedChangedColumns == columns; }
  }

  /** The report of the propagation rules for any set of changes: each node, each reason, each
      column and each pruned reader is there exactly when the lineage says so. */
  lemma ReportExactly(g: ColumnGraph, changes: set<Change>)
    requires g.Indexed()
    ensures Tells(g, changes, Report(g, changes))
  {
    hide Report, IsEntry, IsPruned, Touches, AllEffects, ColumnGraph.Indexed;
    forall id ensures id in Report(g, changes).nodes <==> id in g.nodes && Touches(g.nodes[id], changes) {
      ReportedAre(g, changes, id);
    }
    forall id | id in Report(g, changes).nodes ensures IsEntry(g.nodes[id], changes, Report(g, changes).nodes[id]) {
      ReportedAre(g, changes, id);
      EntryIs(g, changes, id);
    }
    forall p ensures p in Report(g, changes).pruned <==> IsPruned(g, changes, p) { PrunedAre(g, changes, p); }
  }

  // ---- what a run follows -----------------------------------------------------------

  /** The change to the node's own relation that an effect on it amounts to. */
  function Sends(n: NodeLineage, outcome: Outcome): Change {
    match outcome
    case RowsDiffer => Rows(n.relation)
    case ColumnDiffers(x, kind) => Column(ColumnRef(n.relation, x), kind)
  }

  ghost predicate ClosedUnderEffects(g: ColumnGraph, all: set<Change>) {
    forall id, reason, outcome :: id in g.nodes && DoneBy(g.nodes[id], all, reason, outcome) ==>
      Sends(g.nodes[id], outcome) in all
  }

  ghost predicate SentBy(g: ColumnGraph, changes: set<Change>, c: Change) {
    exists id, reason, outcome ::
      id in g.nodes && DoneBy(g.nodes[id], changes, reason, outcome) && c == Sends(g.nodes[id], outcome)
  }

  /** What a run follows: the given changes, and for each node with effects its changed rows and one
      change to each changed column; all of it sent by some node, and nothing that the given
      changes do not cause. */
  ghost predicate IsFollowed(g: ColumnGraph, given: set<Change>, followed: set<Change>) {
    && given <= followed
    && (forall id, reason :: id in g.nodes && DoneBy(g.nodes[id], followed, reason, RowsDiffer) ==>
          Rows(g.nodes[id].relation) in followed)
    && (forall id, reason, x, kind :: id in g.nodes && DoneBy(g.nodes[id], followed, reason, ColumnDiffers(x, kind)) ==>
          exists k :: Column(ColumnRef(g.nodes[id].relation, x), k) in followed)
    && (forall c :: c in followed - given ==> SentBy(g, followed, c))
    && forall all :: given <= all && ClosedUnderEffects(g, all) ==> followed <= all
  }

  lemma ClosedIsClosed(g: ColumnGraph, all: set<Change>)
    requires g.Indexed() && ClosedUnderEffects(g, all)
    ensures Closed(Step(g), all)
  {
    EffectsHaveNodes(g);
    hide ColumnGraph.Indexed, AllEffects, Effects, DoneBy;
    forall c, d | c in all && d in Step(g)(c) ensures d in all {
      var e :| e in Effects(g, c) && d == Onward(g, e);
      assert e in AllEffects(g, all) by { Among(g, all, c, e); }
      EffectAmong(g, all, e);
      assert Sends(g.nodes[e.node], e.outcome) == d;
    }
  }

  lemma EffectsHaveNodes(g: ColumnGraph)
    ensures forall c, e :: e in Effects(g, c) ==> e.node in g.nodes
  {
  }

  lemma Among(g: ColumnGraph, changes: set<Change>, c: Change, e: Effect)
    requires c in changes && e in Effects(g, c)
    ensures e in AllEffects(g, changes)
  {
  }

  lemma SentMark(g: ColumnGraph, given: set<Change>, followed: set<Change>, id: string, reason: ImpactReason,
      outcome: Outcome)
    requires g.Indexed() && Follows(g, given, followed) && id in g.nodes
    requires DoneBy(g.nodes[id], followed, reason, outcome)
    ensures outcome.RowsDiffer? ==> Rows(g.nodes[id].relation) in followed
    ensures outcome.ColumnDiffers? ==> exists k :: Column(ColumnRef(g.nodes[id].relation, outcome.name), k) in followed
  {
    hide ColumnGraph.Indexed, AllEffects, DoneBy, Follows;
    var e := Effect(id, reason, outcome);
    EffectAmong(g, followed, e);
    var f := MarkIsSent(g, given, followed, e);
    if outcome.ColumnDiffers? {
      assert Onward(g, f) == Column(ColumnRef(g.nodes[id].relation, outcome.name), f.outcome.how);
    }
  }

  lemma FollowedIsSent(g: ColumnGraph, given: set<Change>, followed: set<Change>, c: Change)
    requires g.Indexed() && Follows(g, given, followed) && c in followed - given
    ensures SentBy(g, followed, c)
  {
    var e := Sender(g, given, followed, c);
    EffectAmong(g, followed, e);
    hide *;
    SentIs(g, followed, c, e);
  }

  lemma SentIs(g: ColumnGraph, followed: set<Change>, c: Change, e: Effect)
    requires e.node in g.nodes && DoneBy(g.nodes[e.node], followed, e.reason, e.outcome) && c == Onward(g, e)
    ensures SentBy(g, followed, c)
  {
    hide DoneBy;
    assert c == Sends(g.nodes[e.node], e.outcome);
  }

  /** Every report of the worklist is that of what it followed. */
  lemma ImpactExactly(g: ColumnGraph, given: set<Change>, impact: Impact)
    requires g.Indexed() && IsImpact(g, given, impact)
    ensures exists followed :: IsFollowed(g, given, followed) && Tells(g, followed, impact)
  {
    var followed :| Follows(g, given, followed) && impact == Report(g, followed);
    assert given <= followed <= Caused(g, given);
    hide ColumnGraph.Indexed, DoneBy, Follows, Report, Tells, SentBy, Caused, ClosedUnderEffects;
    ReportExactly(g, followed);
    forall id, reason | id in g.nodes && DoneBy(g.nodes[id], followed, reason, RowsDiffer)
      ensures Rows(g.nodes[id].relation) in followed
    {
      SentMark(g, given, followed, id, reason, RowsDiffer);
    }
    forall id, reason, x, kind | id in g.nodes && DoneBy(g.nodes[id], followed, reason, ColumnDiffers(x, kind))
      ensures exists k :: Column(ColumnRef(g.nodes[id].relation, x), k) in followed
    {
      SentMark(g, given, followed, id, reason, ColumnDiffers(x, kind));
    }
    forall c | c in followed - given ensures SentBy(g, followed, c) { FollowedIsSent(g, given, followed, c); }
    forall all | given <= all && ClosedUnderEffects(g, all) ensures followed <= all {
      ClosedIsClosed(g, all);
      CausedIsLeast(g, given, all);
    }
  }
}
