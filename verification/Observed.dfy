/** Filling in nodes the analyzer can't read with lineage a platform recorded, and what that
    does to impact. */
module Observed {
  import opened Prelude
  import opened Fixpoint
  import opened Lineage
  import opened Impact

  datatype ObservedLineage = ObservedLineage(
    columnEdges: set<(ColumnRef, ColumnRef)>,
    rowInputs: set<(ColumnRef, RelationName)>,
    relationEdges: set<(RelationName, RelationName)>)
  {
    function Reads(relation: RelationName): set<RelationName> {
      set e | e in relationEdges && e.1 == relation :: e.0
    }

    function OutputNames(relation: RelationName): set<string> {
      set e | e in columnEdges && e.1.relation == relation :: e.1.column
    }

    function OutputInputs(relation: RelationName, name: string): set<(ColumnRef, EdgeKind)> {
      set e | e in columnEdges && e.1 == ColumnRef(relation, name) :: (e.0, Direct(Transformation))
    }

    function RowInputs(relation: RelationName): set<(ColumnRef, IndirectKind)> {
      set e | e in rowInputs && e.1 == relation :: (e.0, Filter)
    }
  }

  /** The relation's lineage as observed; unread, and so opaque, unless trusted. */
  ghost predicate IsObserved(relation: RelationName, o: ObservedLineage, trust: bool, l: QueryLineage) {
    && l.relationsRead == o.Reads(relation) && l.rowInputs == o.RowInputs(relation)
    && l.wildcards == {} && l.unread == !trust
    && (forall i, j :: 0 <= i < j < |l.outputs| ==> l.outputs[i].name != l.outputs[j].name)
    && (forall out :: out in l.outputs ==> out.inputs == o.OutputInputs(relation, out.name))
    && Named(l.outputs) == o.OutputNames(relation)
  }

  /** Observed lineage says what was recorded about the relation and nothing else: every relation
      read, every column that shaped its rows, and for every column written each column it came
      from. */
  lemma ObservedIsRecorded(relation: RelationName, o: ObservedLineage, trust: bool, l: QueryLineage)
    requires IsObserved(relation, o, trust, l)
    ensures forall r :: r in l.relationsRead <==> (r, relation) in o.relationEdges
    ensures forall c, kind :: (c, kind) in l.rowInputs <==> kind == Filter && (c, relation) in o.rowInputs
    ensures forall x :: (exists out :: out in l.outputs && out.name == x) <==>
      exists c :: (c, ColumnRef(relation, x)) in o.columnEdges
    ensures forall out, c, edge :: out in l.outputs ==>
      ((c, edge) in out.inputs <==>
       edge == Direct(Transformation) && (c, ColumnRef(relation, out.name)) in o.columnEdges)
  {
    forall x ensures (exists out :: out in l.outputs && out.name == x) <==>
      exists c :: (c, ColumnRef(relation, x)) in o.columnEdges
    {
      assert (exists out :: out in l.outputs && out.name == x) <==> x in Named(l.outputs);
      if c :| (c, ColumnRef(relation, x)) in o.columnEdges {
        assert (c, ColumnRef(relation, x)).1.column in o.OutputNames(relation);
      }
      if x in o.OutputNames(relation) {
        var e :| e in o.columnEdges && e.1.relation == relation && e.1.column == x;
        assert e == (e.0, ColumnRef(relation, x));
      }
    }
    forall r ensures r in l.relationsRead <==> (r, relation) in o.relationEdges {
      if (r, relation) in o.relationEdges { assert (r, relation).0 in o.Reads(relation); }
    }
    forall c, kind ensures (c, kind) in l.rowInputs <==> kind == Filter && (c, relation) in o.rowInputs {
      if (c, relation) in o.rowInputs { assert ((c, relation).0, Filter) in o.RowInputs(relation); }
    }
    forall out, c, edge | out in l.outputs ensures (c, edge) in out.inputs <==>
      edge == Direct(Transformation) && (c, ColumnRef(relation, out.name)) in o.columnEdges
    {
      var e := (c, ColumnRef(relation, out.name));
      if e in o.columnEdges { assert (e.0, Direct(Transformation)) in o.OutputInputs(relation, out.name); }
    }
  }

  function Named(outputs: seq<OutputColumn>): set<string> { set out | out in outputs :: out.name }

  /** The observed outputs of a relation, one for each column written. */
  method OutputsFor(relation: RelationName, o: ObservedLineage) returns (outputs: seq<OutputColumn>)
    ensures forall i, j :: 0 <= i < j < |outputs| ==> outputs[i].name != outputs[j].name
    ensures forall out :: out in outputs ==> out.inputs == o.OutputInputs(relation, out.name)
    ensures Named(outputs) == o.OutputNames(relation)
  {
    var names := o.OutputNames(relation);
    ghost var done: set<string> := {};
    outputs := [];
    while names != {}
      invariant names + done == o.OutputNames(relation) && names !! done
      invariant forall i, j :: 0 <= i < j < |outputs| ==> outputs[i].name != outputs[j].name
      invariant forall out :: out in outputs ==> out.inputs == o.OutputInputs(relation, out.name)
      invariant Named(outputs) == done
    {
      var name :| name in names;
      forall i | 0 <= i < |outputs| ensures outputs[i].name != name { assert outputs[i].name in Named(outputs); }
      var output := OutputColumn(name, o.OutputInputs(relation, name), "observed");
      assert Named(outputs + [output]) == Named(outputs) + {name};
      outputs := outputs + [output];
      names, done := names - {name}, done + {name};
    }
  }

  method LineageFor(relation: RelationName, o: ObservedLineage, trust: bool) returns (l: Option<QueryLineage>)
    ensures l.None? <==> o.Reads(relation) == {}
    ensures l.Some? ==> IsObserved(relation, o, trust, l.value)
  {
    var outputs := OutputsFor(relation, o);
    if o.Reads(relation) == {} { return None; }
    l := Some(QueryLineage(outputs, o.RowInputs(relation), o.Reads(relation), {}, "observed", !trust));
  }

  ghost predicate StitchedNode(n: NodeLineage, o: ObservedLineage, trust: bool, m: NodeLineage) {
    if !n.IsOpaque() || o.Reads(n.relation) == {} then m == n else
      && m.lineage.Some? && IsObserved(n.relation, o, trust, m.lineage.value)
      && m == n.(lineage := m.lineage, columns := m.columns)
      && n.columns <= m.columns && Elements(m.columns) == Elements(n.columns) + o.OutputNames(n.relation)
  }

  /** `h` is `g` with the opaque nodes something was observed about carrying that lineage. */
  ghost predicate Stitched(g: ColumnGraph, o: ObservedLineage, trust: bool, h: ColumnGraph) {
    && g.Indexed() && h.Indexed() && h.nodes.Keys == g.nodes.Keys
    && forall id :: id in g.nodes ==> StitchedNode(g.nodes[id], o, trust, h.nodes[id])
  }

  method Stitch(n: NodeLineage, o: ObservedLineage, trust: bool) returns (m: NodeLineage, stitched: bool)
    ensures StitchedNode(n, o, trust, m) && m.id == n.id
    ensures stitched <==> Takes(n, o)
  {
    if !n.IsOpaque() { return n, false; }
    var l := LineageFor(n.relation, o, trust);
    if l.None? { return n, false; }
    var outputs, columns := l.value.outputs, n.columns;
    for i := 0 to |outputs|
      invariant n.columns <= columns
      invariant Elements(columns) == Elements(n.columns) + Named(outputs[..i])
    {
      assert outputs[..i + 1] == outputs[..i] + [outputs[i]];
      assert Named(outputs[..i + 1]) == Named(outputs[..i]) + {outputs[i].name};
      if outputs[i].name !in columns {
        assert Elements(columns + [outputs[i].name]) == Elements(columns) + {outputs[i].name};
        columns := columns + [outputs[i].name];
      } else {
        assert outputs[i].name in Elements(columns);
      }
    }
    assert outputs[..|outputs|] == outputs;
    m, stitched := n.(lineage := l, columns := columns), true;
  }

  predicate Takes(n: NodeLineage, o: ObservedLineage) { n.IsOpaque() && o.Reads(n.relation) != {} }

  /** A copy of the graph with observed lineage stitched in, and which nodes took it. */
  method WithObserved(g: ColumnGraph, o: ObservedLineage, trust: bool) returns (h: ColumnGraph, stitched: set<string>)
    requires g.Indexed()
    ensures Stitched(g, o, trust, h)
    ensures stitched == set id | id in g.nodes && Takes(g.nodes[id], o)
  {
    hide IsObserved, StitchedNode, Takes, ColumnGraph.UsesAgree, ColumnGraph.OwnersAgree, ColumnGraph.ReadersAgree;
    var nodes: map<string, NodeLineage> := map[];
    var todo := g.nodes.Keys;
    stitched := {};
    while todo != {}
      invariant todo <= g.nodes.Keys && nodes.Keys == g.nodes.Keys - todo
      invariant forall id :: id in nodes ==> nodes[id].id == id && StitchedNode(g.nodes[id], o, trust, nodes[id])
      invariant forall id :: id in stitched <==> id in nodes && Takes(g.nodes[id], o)
    {
      var id :| id in todo;
      var m, taken := Stitch(g.nodes[id], o, trust);
      nodes := nodes[id := m];
      if taken { stitched := stitched + {id}; }
      todo := todo - {id};
    }
    h := FromNodes(nodes);
  }

  // ---- what stitching does to impact ------------------------------------------------

  ghost predicate NoneAdded(given: set<Change>) { forall c :: c in given ==> !c.IsAdded() }

  /** Every relation a stitched node's SQL read is still declared by it, or was observed. */
  predicate ReadsKept(g: ColumnGraph, o: ObservedLineage) {
    forall id :: id in g.nodes && Takes(g.nodes[id], o) ==> NodeReadsKept(g.nodes[id], o)
  }

  predicate NodeReadsKept(n: NodeLineage, o: ObservedLineage) {
    n.lineage.Some? ==> n.lineage.value.relationsRead <= o.Reads(n.relation) + set r | r in n.dependsOn
  }

  ghost predicate Covers(was: NodeImpact, now: NodeImpact) {
    was.reasons <= now.reasons && was.changedColumns <= now.changedColumns && (was.rowsChanged ==> now.rowsChanged)
  }

  /** No change list without additions loses a node, or any evidence about it. */
  ghost predicate EvidenceKept(g: ColumnGraph, h: ColumnGraph) {
    forall given, id :: NoneAdded(given) && id in ImpactOf(g, given).nodes ==>
      id in ImpactOf(h, given).nodes && Covers(ImpactOf(g, given).nodes[id], ImpactOf(h, given).nodes[id])
  }

  lemma StitchedReads(n: NodeLineage, o: ObservedLineage, m: NodeLineage, r: RelationName)
    requires StitchedNode(n, o, false, m) && (Takes(n, o) || n != m)
    ensures Takes(n, o) && m.IsOpaque() && m.relation == n.relation
    ensures r in m.Reads() <==> r in o.Reads(n.relation) || r in n.dependsOn
  {
  }

  lemma SameNodeSameUses(g: ColumnGraph, h: ColumnGraph, c: ColumnRef, id: string)
    requires g.Indexed() && h.Indexed() && id in g.nodes && id in h.nodes && g.nodes[id] == h.nodes[id]
    ensures forall u: ColumnUse :: u.node == id ==> (u in g.UsesOf(c) <==> u in h.UsesOf(c))
  {
  }

  lemma SameUsesSameEffects(g: ColumnGraph, h: ColumnGraph, c: Change, id: string)
    requires id in g.nodes && id in h.nodes && g.nodes[id] == h.nodes[id]
    requires c.Column? ==>
        forall u: ColumnUse :: u.node == id ==> (u in g.UsesOf(c.column) <==> u in h.UsesOf(c.column))
    ensures EffectsOn(g, c, id) <= EffectsOn(h, c, id)
  {
  }

  lemma OpaqueSameEffects(g: ColumnGraph, h: ColumnGraph, c: Change, id: string)
    requires id in g.nodes && id in h.nodes && g.nodes[id].IsOpaque() && h.nodes[id].IsOpaque()
    ensures EffectsOn(g, c, id) == EffectsOn(h, c, id)
  {
  }

  /** A node that reads a relation before and after stitching feels what changes in it. */
  lemma EffectStays(g: ColumnGraph, o: ObservedLineage, h: ColumnGraph, c: Change, id: string)
    requires Stitched(g, o, false, h) && !c.IsAdded() && id in g.ReadersOf(c.Relation())
    ensures EffectsOn(g, c, id) <= EffectsOn(h, c, id)
    ensures id in g.nodes && id in h.nodes && g.nodes[id].relation == h.nodes[id].relation
  {
    hide ColumnGraph.UsesAgree, ColumnGraph.OwnersAgree, ColumnGraph.KeyedById;
    hide EffectsOn, IsObserved;
    var n, m := g.nodes[id], h.nodes[id];
    assert StitchedNode(n, o, false, m);
    if n != m {
      StitchedReads(n, o, m, c.Relation());
      OpaqueSameEffects(g, h, c, id);
    } else {
      if c.Column? { SameNodeSameUses(g, h, c.column, id); }
      SameUsesSameEffects(g, h, c, id);
    }
  }

  lemma EffectKept(g: ColumnGraph, o: ObservedLineage, h: ColumnGraph, c: Change, id: string)
    requires Stitched(g, o, false, h) && ReadsKept(g, o) && !c.IsAdded() && id in g.ReadersOf(c.Relation())
    ensures EffectsOn(g, c, id) <= EffectsOn(h, c, id) && id in h.ReadersOf(c.Relation())
    ensures id in g.nodes && id in h.nodes && g.nodes[id].relation == h.nodes[id].relation
  {
    hide ColumnGraph.UsesAgree, ColumnGraph.OwnersAgree, ColumnGraph.KeyedById;
    hide EffectsOn, IsObserved;
    EffectStays(g, o, h, c, id);
    var n, m := g.nodes[id], h.nodes[id];
    assert StitchedNode(n, o, false, m) && c.Relation() in n.Reads();
    if n != m {
      StitchedReads(n, o, m, c.Relation());
      assert NodeReadsKept(n, o);
    }
    assert c.Relation() in m.Reads();
  }

  lemma CausedKept(g: ColumnGraph, o: ObservedLineage, h: ColumnGraph, given: set<Change>)
    requires Stitched(g, o, false, h) && ReadsKept(g, o) && NoneAdded(given)
    ensures Caused(g, given) <= Caused(h, given)
    ensures forall c :: c in Caused(g, given) ==> !c.IsAdded()
  {
    hide Stitched, ReadsKept, EffectsOn, IsObserved, StitchedNode;
    AddedKeepNames(g, given);
    var kept := Caused(g, given) * Caused(h, given);
    forall c, d | c in kept && d in Step(g)(c) ensures d in kept {
      var e :| e in Effects(g, c) && d == Onward(g, e);
      EffectKept(g, o, h, c, e.node);
      OnwardStays(h, given, c, e);
    }
    ClosureIsLeast(Step(g), given, Bound(g, given), kept);
  }

  lemma OnwardStays(h: ColumnGraph, given: set<Change>, c: Change, e: Effect)
    requires c in Caused(h, given) && e.node in h.ReadersOf(c.Relation()) && e in EffectsOn(h, c, e.node)
    ensures Onward(h, e) in Caused(h, given)
  {
    assert e in Effects(h, c);
    assert Onward(h, e) in Step(h)(c);
  }

  lemma EffectsKept(g: ColumnGraph, o: ObservedLineage, h: ColumnGraph, given: set<Change>)
    requires Stitched(g, o, false, h) && ReadsKept(g, o) && NoneAdded(given)
    ensures AllEffects(g, Caused(g, given)) <= AllEffects(h, Caused(h, given))
  {
    hide Stitched, ReadsKept, EffectsOn, Caused, Step;
    CausedKept(g, o, h, given);
    forall e | e in AllEffects(g, Caused(g, given)) ensures e in AllEffects(h, Caused(h, given)) {
      var c :| c in Caused(g, given) && e in Effects(g, c);
      EffectKept(g, o, h, c, e.node);
      EffectCounts(h, given, c, e);
    }
  }

  lemma MoreEffectsCover(small: set<Effect>, big: set<Effect>, id: string)
    requires small <= big
    ensures Touched(small) <= Touched(big) && Covers(ImpactOn(small, id), ImpactOn(big, id))
  {
  }

  lemma LostReadLosesEvidence(g: ColumnGraph, h: ColumnGraph, id: string, r: RelationName)
    requires id in g.nodes && g.nodes[id].IsOpaque() && id in g.ReadersOf(r) && id !in h.ReadersOf(r)
    ensures id in ImpactOf(g, {Rows(r)}).nodes && OpaqueReason(r) in ImpactOf(g, {Rows(r)}).nodes[id].reasons
    ensures id in ImpactOf(h, {Rows(r)}).nodes ==> OpaqueReason(r) !in ImpactOf(h, {Rows(r)}).nodes[id].reasons
  {
    var given, c := {Rows(r)}, Rows(r);
    EffectCounts(g, given, c, Effect(id, OpaqueReason(r), RowsDiffer));
    if id in ImpactOf(h, given).nodes && OpaqueReason(r) in ImpactOf(h, given).nodes[id].reasons {
      var d, f := ReasonCounts(h, given, id, OpaqueReason(r));
      ReasonNamesItsRelation(h, d, id, f, r);
    }
  }

  lemma ReasonNamesItsRelation(g: ColumnGraph, c: Change, id: string, e: Effect, r: RelationName)
    requires e in EffectsOn(g, c, id) && e.reason == OpaqueReason(r)
    ensures c.Relation() == r
  {
  }

  /** Stitching without trust keeps every node in the impact of every change list without
      additions, with all its evidence, exactly when what the stitched nodes' SQL read is
      still declared or was observed: the observed reads replace the analysed ones. */
  lemma StitchingKeepsEvidenceExactlyWhenReadsKept(g: ColumnGraph, o: ObservedLineage, h: ColumnGraph)
    requires Stitched(g, o, false, h)
    ensures EvidenceKept(g, h) <==> ReadsKept(g, o)
  {
    hide Stitched, Caused, AllEffects, NodeReadsKept, Covers;
    if ReadsKept(g, o) {
      forall given, id | NoneAdded(given) && id in ImpactOf(g, given).nodes
        ensures id in ImpactOf(h, given).nodes && Covers(ImpactOf(g, given).nodes[id], ImpactOf(h, given).nodes[id])
      {
        EffectsKept(g, o, h, given);
        MoreEffectsCover(AllEffects(g, Caused(g, given)), AllEffects(h, Caused(h, given)), id);
      }
    } else {
      var id :| id in g.nodes && Takes(g.nodes[id], o) && !NodeReadsKept(g.nodes[id], o);
      LostReadIsSeen(g, o, h, id);
    }
  }

  lemma LostReadIsSeen(g: ColumnGraph, o: ObservedLineage, h: ColumnGraph, id: string)
    requires Stitched(g, o, false, h) && id in g.nodes && Takes(g.nodes[id], o) && !NodeReadsKept(g.nodes[id], o)
    ensures !EvidenceKept(g, h)
  {
    hide ColumnGraph.UsesAgree, ColumnGraph.OwnersAgree, ColumnGraph.KeyedById;
    hide IsObserved, Caused, AllEffects;
    var n, m := g.nodes[id], h.nodes[id];
    var r :| r in n.lineage.value.relationsRead && r !in o.Reads(n.relation) && r !in n.dependsOn;
    assert r in n.Reads();
    StitchedReads(n, o, m, r);
    LostReadLosesEvidence(g, h, id, r);
    assert NoneAdded({Rows(r)});
    assert id in ImpactOf(g, {Rows(r)}).nodes;
  }

  // ---- which nodes are kept ---------------------------------------------------------

  /** No change list without additions loses a node. */
  ghost predicate NodesKept(g: ColumnGraph, h: ColumnGraph) {
    forall given, id :: NoneAdded(given) && id in ImpactOf(g, given).nodes ==> id in ImpactOf(h, given).nodes
  }

  /** The readers of a relation that any change in it makes run: opaque ones, and those that
      declare it without reading it. */
  function UnknownReaders(h: ColumnGraph, r: RelationName): set<string> {
    set id | id in h.ReadersOf(r) && id in h.nodes && (h.nodes[id].IsOpaque() || h.nodes[id].DeclaredOnly(r))
  }

  function ReaderStep(h: ColumnGraph): string -> set<string> {
    id => if id in h.nodes then h.ReadersOf(h.nodes[id].relation) else {}
  }

  /** The node reads, directly or through other nodes, what some unknown reader of `r` builds, or
      is such a reader. */
  ghost predicate RunsFor(h: ColumnGraph, r: RelationName, id: string) {
    exists path :: Walk(ReaderStep(h), UnknownReaders(h, r), path, id)
  }

  /** Whoever no longer reads a relation still runs for it through another reader. */
  ghost predicate LostReadsCovered(g: ColumnGraph, h: ColumnGraph) {
    forall id, r :: id in g.ReadersOf(r) && id !in h.ReadersOf(r) ==> RunsFor(h, r, id)
  }

  lemma {:induction false} WalkRuns(h: ColumnGraph, given: set<Change>, c: Change, path: seq<string>, id: string)
    requires h.Indexed() && c in Caused(h, given)
    requires Walk(ReaderStep(h), UnknownReaders(h, c.Relation()), path, id)
    ensures id in h.nodes && Rows(h.nodes[id].relation) in Caused(h, given) && id in ImpactOf(h, given).nodes
    decreases |path|
  {
    hide Caused, ImpactOf, AllEffects, NodesOf, ColumnGraph.UsesAgree, ColumnGraph.OwnersAgree;
    if |path| == 1 {
      var e := Effect(id, OpaqueReason(c.Relation()), RowsDiffer);
      OnwardStays(h, given, c, e);
      EffectCounts(h, given, c, e);
    } else {
      var shorter := path[..|path| - 1];
      var before := shorter[|shorter| - 1];
      assert Walk(ReaderStep(h), UnknownReaders(h, c.Relation()), shorter, before);
      WalkRuns(h, given, c, shorter, before);
      assert path[|path| - 1] in ReaderStep(h)(path[|path| - 2]);
      ReaderRuns(h, given, h.nodes[before].relation, id);
    }
  }

  lemma ReaderRuns(h: ColumnGraph, given: set<Change>, r: RelationName, id: string)
    requires h.Indexed() && Rows(r) in Caused(h, given) && id in h.ReadersOf(r)
    ensures id in h.nodes && Rows(h.nodes[id].relation) in Caused(h, given) && id in ImpactOf(h, given).nodes
  {
    hide Caused, ImpactOf, AllEffects, NodesOf, ColumnGraph.UsesAgree, ColumnGraph.OwnersAgree;
    var unknown := h.nodes[id].IsOpaque() || h.nodes[id].DeclaredOnly(r);
    var e := Effect(id, if unknown then OpaqueReason(r) else RowsReason(r), RowsDiffer);
    assert e in EffectsOn(h, Rows(r), id);
    OnwardStays(h, given, Rows(r), e);
    EffectCounts(h, given, Rows(r), e);
  }

  /** Only a stitched node, which was opaque, stops reading a relation. */
  lemma LostIsOpaque(g: ColumnGraph, o: ObservedLineage, h: ColumnGraph, id: string, r: RelationName)
    requires Stitched(g, o, false, h) && id in g.ReadersOf(r) && id !in h.ReadersOf(r)
    ensures id in g.nodes && g.nodes[id].IsOpaque() && id in h.nodes && h.nodes[id].relation == g.nodes[id].relation
  {
    hide ColumnGraph.UsesAgree, ColumnGraph.OwnersAgree, ColumnGraph.KeyedById, IsObserved;
    assert StitchedNode(g.nodes[id], o, false, h.nodes[id]);
    assert g.nodes[id] != h.nodes[id];
    StitchedReads(g.nodes[id], o, h.nodes[id], r);
  }

  /** What an effect does in the graph before is caused, and its node impacted, after. */
  lemma EffectArrives(g: ColumnGraph, o: ObservedLineage, h: ColumnGraph, given: set<Change>, c: Change, e: Effect)
    requires Stitched(g, o, false, h) && LostReadsCovered(g, h) && c in Caused(h, given) && !c.IsAdded() &&
        e in Effects(g, c)
    ensures e.node in g.nodes && Onward(g, e) in Caused(h, given) && e.node in ImpactOf(h, given).nodes
  {
    hide Stitched, Caused, ImpactOf, EffectsOn, RunsFor;
    var id, r := e.node, c.Relation();
    EffectIsOfReader(g, c, e);
    EffectStays(g, o, h, c, id);
    if id in h.ReadersOf(r) {
      OnwardStays(h, given, c, e);
      EffectCounts(h, given, c, e);
    } else {
      LostIsOpaque(g, o, h, id, r);
      OpaqueEffect(g, c, e);
      assert RunsFor(h, r, id);
      RunsForRuns(g, o, h, given, c, id);
    }
  }

  lemma EffectIsOfReader(g: ColumnGraph, c: Change, e: Effect)
    requires e in Effects(g, c)
    ensures e.node in g.ReadersOf(c.Relation()) && e in EffectsOn(g, c, e.node) && e.node in g.nodes
  {
  }

  lemma OpaqueEffect(g: ColumnGraph, c: Change, e: Effect)
    requires e in EffectsOn(g, c, e.node) && e.node in g.nodes && g.nodes[e.node].IsOpaque()
    ensures Onward(g, e) == Rows(g.nodes[e.node].relation)
  {
  }

  lemma RunsForRuns(g: ColumnGraph, o: ObservedLineage, h: ColumnGraph, given: set<Change>, c: Change, id: string)
    requires Stitched(g, o, false, h) && c in Caused(h, given) && RunsFor(h, c.Relation(), id)
    ensures id in h.nodes && Rows(h.nodes[id].relation) in Caused(h, given) && id in ImpactOf(h, given).nodes
  {
    hide Caused, ImpactOf;
    var path :| Walk(ReaderStep(h), UnknownReaders(h, c.Relation()), path, id);
    WalkRuns(h, given, c, path, id);
  }

  lemma CoveredKeepsNodes(g: ColumnGraph, o: ObservedLineage, h: ColumnGraph, given: set<Change>, id: string)
    requires Stitched(g, o, false, h) && LostReadsCovered(g, h) && NoneAdded(given) && id in ImpactOf(g, given).nodes
    ensures id in ImpactOf(h, given).nodes
  {
    hide Stitched, LostReadsCovered, EffectsOn;
    AddedKeepNames(g, given);
    var kept := Caused(g, given) * Caused(h, given);
    forall c, d | c in kept && d in Step(g)(c) ensures d in kept {
      var e :| e in Effects(g, c) && d == Onward(g, e);
      EffectArrives(g, o, h, given, c, e);
    }
    ClosureIsLeast(Step(g), given, Bound(g, given), kept);
    var e :| e in AllEffects(g, Caused(g, given)) && e.node == id;
    var c :| c in Caused(g, given) && e in Effects(g, c);
    EffectArrives(g, o, h, given, c, e);
  }

  lemma {:induction false} LongerThanAll(columns: set<ColumnRef>) returns (n: nat)
    ensures forall c :: c in columns ==> |c.column| < n
  {
    if columns == {} {
      n := 0;
    } else {
      var c :| c in columns;
      var m := LongerThanAll(columns - {c});
      n := if |c.column| < m then m else |c.column| + 1;
      assert columns == (columns - {c}) + {c};
    }
  }

  /** Some column of every relation is used by nobody. */
  lemma UnusedColumn(h: ColumnGraph, r: RelationName) returns (x: string)
    ensures h.UsesOf(ColumnRef(r, x)) == {}
  {
    var n := LongerThanAll(h.consumers.Keys);
    x := seq(n, _ => 'x');
  }

  /** Removing a column nobody uses makes run only what runs for its relation. */
  lemma OnlyRunners(h: ColumnGraph, r: RelationName, x: string, id: string)
    requires h.Indexed() && h.UsesOf(ColumnRef(r, x)) == {}
    requires id in ImpactOf(h, {Column(ColumnRef(r, x), Removed)}).nodes
    ensures RunsFor(h, r, id)
  {
    hide RunsFor, ColumnGraph.UsesAgree, ColumnGraph.OwnersAgree;
    var removed := Column(ColumnRef(r, x), Removed);
    var given, all := {removed}, Caused(h, {removed});
    var kept := set c | c in all && Runner(h, r, removed, c);
    forall c, d | c in kept && d in Step(h)(c) ensures d in kept {
      var e :| e in Effects(h, c) && d == Onward(h, e);
      RunnerStep(h, r, x, c, e);
    }
    ClosureIsLeast(Step(h), given, Bound(h, given), kept);
    var e :| e in AllEffects(h, all) && e.node == id;
    var c :| c in all && e in Effects(h, c);
    RunnerStep(h, r, x, c, e);
  }

  ghost predicate Runner(h: ColumnGraph, r: RelationName, removed: Change, c: Change) {
    c == removed || (c.Rows? && exists n :: n in h.nodes && c.changed == h.nodes[n].relation && RunsFor(h, r, n))
  }

  lemma RunnerStep(h: ColumnGraph, r: RelationName, x: string, c: Change, e: Effect)
    requires h.Indexed() && h.UsesOf(ColumnRef(r, x)) == {}
    requires Runner(h, r, Column(ColumnRef(r, x), Removed), c) && e in Effects(h, c)
    ensures e.node in h.nodes && RunsFor(h, r, e.node) && Onward(h, e) == Rows(h.nodes[e.node].relation)
  {
    hide EffectsOn, RunsFor, ColumnGraph.Indexed;
    EffectIsOfReader(h, c, e);
    if c == Column(ColumnRef(r, x), Removed) {
      FirstRunner(h, r, x, e);
    } else {
      var n :| n in h.nodes && c.changed == h.nodes[n].relation && RunsFor(h, r, n);
      NextRunner(h, r, n, e);
    }
  }

  lemma FirstRunner(h: ColumnGraph, r: RelationName, x: string, e: Effect)
    requires h.UsesOf(ColumnRef(r, x)) == {} && e.node in h.nodes && e.node in h.ReadersOf(r)
    requires e in EffectsOn(h, Column(ColumnRef(r, x), Removed), e.node)
    ensures RunsFor(h, r, e.node) && Onward(h, e) == Rows(h.nodes[e.node].relation)
  {
    assert e.node in UnknownReaders(h, r);
    assert Walk(ReaderStep(h), UnknownReaders(h, r), [e.node], e.node);
  }

  lemma NextRunner(h: ColumnGraph, r: RelationName, n: string, e: Effect)
    requires n in h.nodes && RunsFor(h, r, n) && e.node in h.nodes && e.node in h.ReadersOf(h.nodes[n].relation)
    requires e in EffectsOn(h, Rows(h.nodes[n].relation), e.node)
    ensures RunsFor(h, r, e.node) && Onward(h, e) == Rows(h.nodes[e.node].relation)
  {
    hide UnknownReaders;
    var path :| Walk(ReaderStep(h), UnknownReaders(h, r), path, n);
    assert Walk(ReaderStep(h), UnknownReaders(h, r), path + [e.node], e.node);
  }

  lemma LostReadIsCovered(g: ColumnGraph, o: ObservedLineage, h: ColumnGraph, id: string, r: RelationName)
    requires Stitched(g, o, false, h) && NodesKept(g, h) && id in g.ReadersOf(r) && id !in h.ReadersOf(r)
    ensures RunsFor(h, r, id)
  {
    hide Caused, ImpactOf, RunsFor, AllEffects, ColumnGraph.UsesAgree, ColumnGraph.OwnersAgree, ColumnGraph.KeyedById,
        StitchedNode;
    LostIsOpaque(g, o, h, id, r);
    var x := UnusedColumn(h, r);
    var removed := Column(ColumnRef(r, x), Removed);
    EffectCounts(g, {removed}, removed, Effect(id, OpaqueReason(r), RowsDiffer));
    assert NoneAdded({removed});
    OnlyRunners(h, r, x, id);
  }

  /** Stitching without trust keeps every node in the impact of every change list without
      additions exactly when whoever lost a read still runs for that relation: it reads, directly
      or through other nodes, what an opaque or merely declaring reader of the relation builds. */
  lemma StitchingKeepsNodesExactlyWhenLostReadsCovered(g: ColumnGraph, o: ObservedLineage, h: ColumnGraph)
    requires Stitched(g, o, false, h)
    ensures NodesKept(g, h) <==> LostReadsCovered(g, h)
  {
    hide Stitched, ImpactOf, RunsFor;
    if LostReadsCovered(g, h) {
      forall given, id | NoneAdded(given) && id in ImpactOf(g, given).nodes ensures id in ImpactOf(h, given).nodes {
        CoveredKeepsNodes(g, o, h, given, id);
      }
    }
    if NodesKept(g, h) {
      forall id, r | id in g.ReadersOf(r) && id !in h.ReadersOf(r) ensures RunsFor(h, r, id) {
        LostReadIsCovered(g, o, h, id, r);
      }
    }
  }

  /** Where a lost read had no other reader, the node drops out of the impact altogether. */
  lemma LostReaderIsHidden(g: ColumnGraph, h: ColumnGraph, id: string, r: RelationName)
    requires id in g.nodes && g.nodes[id].IsOpaque() && id in g.ReadersOf(r) && h.ReadersOf(r) == {}
    ensures id in ImpactOf(g, {Rows(r)}).nodes && ImpactOf(h, {Rows(r)}).nodes == map[]
  {
    LostReadLosesEvidence(g, h, id, r);
    NoReadersNoImpact(h, r);
  }

  lemma NoReadersNoImpact(h: ColumnGraph, r: RelationName)
    requires h.ReadersOf(r) == {}
    ensures ImpactOf(h, {Rows(r)}).nodes == map[]
  {
    assert Effects(h, Rows(r)) == {};
    ClosureIsLeast(Step(h), {Rows(r)}, Bound(h, {Rows(r)}), {Rows(r)});
    assert AllEffects(h, {Rows(r)}) == {};
  }

  /** Such a graph exists: a node whose SQL reads `a`, declares nothing, and was observed
      reading only `b`. */
  lemma StitchingCanHideANode()
    ensures exists g, o, h, id, r ::
        Stitched(g, o, false, h) && id in ImpactOf(g, {Rows(r)}).nodes && ImpactOf(h, {Rows(r)}).nodes == map[]
  {
    hide Stitched, ImpactOf;
    ExampleIsStitched();
    assert ExampleAfter.ReadersOf(["a"]) == {} by {
      assert ["a"][0] == "a" && ["b"][0] == "b" && "a"[0] == 'a' && "b"[0] == 'b';
    }
    LostReaderIsHidden(ExampleBefore, ExampleAfter, "n", ["a"]);
  }

  ghost const ExampleObserved := ObservedLineage({}, {}, {(["b"], ["n"])})
  ghost const ExampleWas :=
      NodeLineage("n", ["n"], Model, [], Some(QueryLineage([], {}, {["a"]}, {}, "", true)), None, [])
  ghost const ExampleNow := ExampleWas.(lineage := Some(QueryLineage([], {}, {["b"]}, {}, "observed", true)))
  ghost const ExampleBefore := ColumnGraph(map["n" := ExampleWas], map[["n"] := "n"], map[], map[["a"] := {"n"}])
  ghost const ExampleAfter := ColumnGraph(map["n" := ExampleNow], map[["n"] := "n"], map[], map[["b"] := {"n"}])

  lemma OneNodeIndexed(node: NodeLineage, r: RelationName)
    requires node.lineage.Some? && node.Uses() == {} && node.Reads() == {r}
    ensures ColumnGraph(map[node.id := node], map[node.relation := node.id], map[], map[r := {node.id}]).Indexed()
  {
  }

  lemma ExampleIsStitched()
    ensures Stitched(ExampleBefore, ExampleObserved, false, ExampleAfter)
  {
    hide ColumnGraph.Indexed;
    assert ExampleWas.Reads() == {["a"]} && ExampleNow.Reads() == {["b"]};
    OneNodeIndexed(ExampleWas, ["a"]);
    OneNodeIndexed(ExampleNow, ["b"]);
    assert ExampleObserved.Reads(["n"]) == {["b"]};
    assert IsObserved(["n"], ExampleObserved, false, ExampleNow.lineage.value);
    assert StitchedNode(ExampleWas, ExampleObserved, false, ExampleNow);
  }

  /** Even when observed lineage is trusted, a relation a node declares but was not observed
      reading keeps making it run. */
  lemma DeclaredStillRuns(g: ColumnGraph, o: ObservedLineage, trust: bool, h: ColumnGraph, id: string,
      given: set<Change>, c: Change)
    requires Stitched(g, o, trust, h) && id in g.nodes && Takes(g.nodes[id], o)
    requires c.Relation() in g.nodes[id].dependsOn && c.Relation() !in o.Reads(g.nodes[id].relation) &&
        c in Caused(h, given)
    ensures id in ImpactOf(h, given).nodes && ImpactOf(h, given).nodes[id].rowsChanged
  {
    hide ColumnGraph.UsesAgree, ColumnGraph.OwnersAgree, ColumnGraph.KeyedById;
    hide Caused, ImpactOn, NodesOf;
    assert StitchedNode(g.nodes[id], o, trust, h.nodes[id]);
    assert c.Relation() in h.nodes[id].Reads();
    EffectCounts(h, given, c, Effect(id, OpaqueReason(c.Relation()), RowsDiffer));
  }
}
