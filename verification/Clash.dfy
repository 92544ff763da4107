/** A project on which the shared guard of the change worklist hides a node, whatever the order
    of its queue. */
module Clash {
  import opened Prelude
  import opened Fixpoint
  import opened Lineage
  import opened Impact

  const A: RelationName := ["a"]
  const B: RelationName := ["b"]
  const C: RelationName := ["c"]
  const N: RelationName := ["n"]
  const P: RelationName := ["p"]
  const Q: RelationName := ["q"]

  lemma NamesDiffer()
    ensures A != B && A != C && A != N && A != P && A != Q && B != C && B != N && B != P && B != Q
    ensures C != N && C != P && C != Q && N != P && N != Q && P != Q
    ensures "n" != "p" && "n" != "q" && "p" != "q" && "x" != "y" && "x" != "z" && "y" != "z"
  {
    assert A[0] == "a" && B[0] == "b" && C[0] == "c" && N[0] == "n" && P[0] == "p" && Q[0] == "q";
    assert "a"[0] == 'a' && "b"[0] == 'b' && "c"[0] == 'c' && "n"[0] == 'n' && "p"[0] == 'p' && "q"[0] == 'q';
    assert "x"[0] == 'x' && "y"[0] == 'y' && "z"[0] == 'z';
  }

  function Fed(name: string, input: ColumnRef): OutputColumn { OutputColumn(name, {(input, Direct(Identity))}, "") }

  function Query(output: OutputColumn, read: set<RelationName>, stars: set<RelationName>): QueryLineage {
    QueryLineage([output], {}, read, stars, "", false)
  }

  function View(id: string, relation: RelationName, l: QueryLineage): NodeLineage {
    NodeLineage(id, relation, Model, [], Some(l), None, [])
  }

  const LineageN := Query(Fed("x", ColumnRef(B, "y")), {A, B}, {A})
  const LineageP := Query(Fed("z", ColumnRef(N, "x")), {N}, {})
  const LineageQ := Query(Fed("z", ColumnRef(C, "x")), {N, C}, {})

  /** `n` is `select a.*, b.y as x from a, b`; `p` is `select n.x as z from n`; and `q` is
      `select x as z from n, c`, where `x` was found in `c`. */
  const Nodes := map["n" := View("n", N, LineageN), "p" := View("p", P, LineageP), "q" := View("q", Q, LineageQ)]

  const AddedA := Column(ColumnRef(A, "x"), Added)
  const ModifiedB := Column(ColumnRef(B, "y"), Modified)
  const AddedN := Column(ColumnRef(N, "x"), Added)
  const ModifiedN := Column(ColumnRef(N, "x"), Modified)
  const ModifiedP := Column(ColumnRef(P, "z"), Modified)
  const RowsQ := Rows(Q)

  const Given := {AddedA, ModifiedB}

  ghost predicate OfProject(g: ColumnGraph) { g.nodes == Nodes && g.Indexed() }

  lemma UsesAre(id: string, relation: RelationName, name: string, input: ColumnRef, read: set<RelationName>,
      stars: set<RelationName>)
    ensures View(id, relation, Query(Fed(name, input), read, stars)).Uses() ==
        {(input, ColumnUse(id, Some(name), Direct(Identity)))}
    ensures View(id, relation, Query(Fed(name, input), read, stars)).Reads() == read
  {
    var l := Query(Fed(name, input), read, stars);
    assert l.outputs[0] in l.outputs;
    assert OutputUses(id, l.outputs[0]) == {(input, ColumnUse(id, Some(name), Direct(Identity)))};
  }

  lemma Reads(g: ColumnGraph)
    requires OfProject(g)
    ensures forall r, id :: id in g.ReadersOf(r) <==>
      (id == "n" && (r == A || r == B)) || (id == "p" && r == N) || (id == "q" && (r == N || r == C))
  {
    ReadsOfNodes();
    assert g.nodes == Nodes && g.ReadersAgree();
    hide OfProject, A, B, C, N, P, Q, LineageN, LineageP, LineageQ;
    NodesAre(g);
    forall r, id ensures id in g.ReadersOf(r) <==>
      (id == "n" && (r == A || r == B)) || (id == "p" && r == N) || (id == "q" && (r == N || r == C))
    {
      assert id in g.ReadersOf(r) <==> id in g.nodes && r in g.nodes[id].Reads();
    }
  }

  lemma ReadsOfNodes()
    ensures Nodes.Keys == {"n", "p", "q"} && "n" != "p" && "n" != "q" && "p" != "q"
    ensures Nodes["n"].Reads() == {A, B} && Nodes["p"].Reads() == {N} && Nodes["q"].Reads() == {N, C}
  {
    NamesDiffer();
    UsesAre("n", N, "x", ColumnRef(B, "y"), {A, B}, {A});
    UsesAre("p", P, "z", ColumnRef(N, "x"), {N}, {});
    UsesAre("q", Q, "z", ColumnRef(C, "x"), {N, C}, {});
  }

  ghost predicate Use(c: ColumnRef, u: ColumnUse) {
    || (c == ColumnRef(B, "y") && u == ColumnUse("n", Some("x"), Direct(Identity)))
    || (c == ColumnRef(N, "x") && u == ColumnUse("p", Some("z"), Direct(Identity)))
    || (c == ColumnRef(C, "x") && u == ColumnUse("q", Some("z"), Direct(Identity)))
  }

  lemma Uses(g: ColumnGraph)
    requires OfProject(g)
    ensures forall c, u :: u in g.UsesOf(c) <==> Use(c, u)
  {
    UsesOfNodes();
    assert g.nodes == Nodes && g.UsesAgree();
    hide OfProject, A, B, C, N, P, Q, LineageN, LineageP, LineageQ, Nodes;
    forall c, u ensures u in g.UsesOf(c) <==> Use(c, u) {
      assert u in g.UsesOf(c) <==> u.node in g.nodes && (c, u) in g.nodes[u.node].Uses();
    }
  }

  lemma UsesOfNodes()
    ensures Nodes.Keys == {"n", "p", "q"}
    ensures Nodes["n"].Uses() == {(ColumnRef(B, "y"), ColumnUse("n", Some("x"), Direct(Identity)))}
    ensures Nodes["p"].Uses() == {(ColumnRef(N, "x"), ColumnUse("p", Some("z"), Direct(Identity)))}
    ensures Nodes["q"].Uses() == {(ColumnRef(C, "x"), ColumnUse("q", Some("z"), Direct(Identity)))}
  {
    NamesDiffer();
    UsesAre("n", N, "x", ColumnRef(B, "y"), {A, B}, {A});
    UsesAre("p", P, "z", ColumnRef(N, "x"), {N}, {});
    UsesAre("q", Q, "z", ColumnRef(C, "x"), {N, C}, {});
  }

  /** Whether the reader uses the added column's name from another relation. */
  lemma SameNames()
    ensures !UsesSameName(LineageN, AddedA.column) && !UsesSameName(LineageP, AddedN.column) &&
        UsesSameName(LineageQ, AddedN.column)
  {
    NamesDiffer();
    assert LineageQ.outputs[0] in LineageQ.outputs;
    assert (ColumnRef(C, "x"), Direct(Identity)) in LineageQ.outputs[0].inputs;
  }

  /** What each change of the project makes of its readers. */
  lemma OnN(g: ColumnGraph, e: Effect)
    requires OfProject(g)
    ensures e in EffectsOn(g, AddedA, "n") <==>
        e == Effect("n", WildcardReason(AddedA.column), ColumnDiffers("x", Added))
    ensures e in EffectsOn(g, ModifiedB, "n") <==>
        e == UseEffect(ModifiedB.column, Modified, ColumnUse("n", Some("x"), Direct(Identity)))
  {
    NamesDiffer();
    SameNames();
    Uses(g);
  }

  lemma OnP(g: ColumnGraph, e: Effect)
    requires OfProject(g)
    ensures e !in EffectsOn(g, AddedN, "p")
    ensures e in EffectsOn(g, ModifiedN, "p") <==>
        e == UseEffect(ModifiedN.column, Modified, ColumnUse("p", Some("z"), Direct(Identity)))
  {
    NamesDiffer();
    SameNames();
    Uses(g);
  }

  lemma OnQ(g: ColumnGraph, e: Effect)
    requires OfProject(g)
    ensures e !in EffectsOn(g, ModifiedN, "q")
    ensures e in EffectsOn(g, AddedN, "q") <==> e == Effect("q", NameCaptureReason(AddedN.column), RowsDiffer)
  {
    NamesDiffer();
    SameNames();
    Uses(g);
  }

  const All: set<Change> := {AddedA, ModifiedB, AddedN, ModifiedN, ModifiedP, RowsQ}

  lemma EffectsWithin(g: ColumnGraph, c: Change, e: Effect)
    requires OfProject(g) && c in All && e in Effects(g, c)
    ensures e.node in g.nodes && Onward(g, e) in All
  {
    hide EffectsOn, OfProject, Nodes;
    NamesDiffer();
    Reads(g);
    OnN(g, e);
    OnP(g, e);
    OnQ(g, e);
    NodesAre(g);
  }

  lemma NodesAre(g: ColumnGraph)
    requires OfProject(g)
    ensures g.nodes.Keys == {"n", "p", "q"}
    ensures g.nodes["n"].relation == N && g.nodes["p"].relation == P && g.nodes["q"].relation == Q
  {
    NamesDiffer();
  }

  /** All that the two changes cause. */
  lemma CausedIsAll(g: ColumnGraph)
    requires OfProject(g)
    ensures Caused(g, Given) <= All && AddedN in Caused(g, Given) && ModifiedN in Caused(g, Given)
  {
    hide EffectsOn, OfProject, Nodes;
    forall c, d | c in All && d in Step(g)(c) ensures d in All {
      var e :| e in Effects(g, c) && d == Onward(g, e);
      EffectsWithin(g, c, e);
    }
    ClosureIsLeast(Step(g), Given, Bound(g, Given), All);
    Reads(g);
    NodesAre(g);
    var e, f := Effect("n", WildcardReason(AddedA.column), ColumnDiffers("x", Added)),
        UseEffect(ModifiedB.column, Modified, ColumnUse("n", Some("x"), Direct(Identity)));
    OnN(g, e);
    OnN(g, f);
    assert e in Effects(g, AddedA) && f in Effects(g, ModifiedB);
    assert Onward(g, e) in Step(g)(AddedA) && Onward(g, f) in Step(g)(ModifiedB);
  }

  /** The full closure reports both `p` and `q`. */
  lemma BothAreCaused(g: ColumnGraph)
    requires OfProject(g)
    ensures "p" in ImpactOf(g, Given).nodes && "q" in ImpactOf(g, Given).nodes
  {
    hide EffectsOn, OfProject, Nodes, Caused, ImpactOf;
    CausedIsAll(g);
    Reads(g);
    var e, f := UseEffect(ModifiedN.column, Modified, ColumnUse("p", Some("z"), Direct(Identity))),
        Effect("q", NameCaptureReason(AddedN.column), RowsDiffer);
    OnP(g, e);
    OnQ(g, f);
    EffectCounts(g, Given, ModifiedN, e);
    EffectCounts(g, Given, AddedN, f);
  }

  /** A run reports `p` only if it processed the modified `n.x`, and `q` only if the added one. */
  lemma ReportedNeeds(g: ColumnGraph, processed: set<Change>)
    requires OfProject(g) && processed <= All
    ensures "p" in Report(g, processed).nodes ==> ModifiedN in processed
    ensures "q" in Report(g, processed).nodes ==> AddedN in processed
  {
    hide EffectsOn, OfProject, Nodes;
    NamesDiffer();
    Reads(g);
    forall c, e | c in processed && e in Effects(g, c)
      ensures (e.node == "p" ==> ModifiedN in processed) && (e.node == "q" ==> AddedN in processed)
    {
      OnP(g, e);
      OnQ(g, e);
    }
  }

  /** No run processes both kinds of change of `n.x`. */
  lemma OneKindOnly(g: ColumnGraph, processed: set<Change>)
    requires OfProject(g) && Follows(g, Given, processed)
    ensures !(AddedN in processed && ModifiedN in processed)
  {
    hide Follows, OfProject, Nodes;
    NamesDiffer();
    NodesAre(g);
    assert AddedN !in Given && ModifiedN !in Given;
    OneKindIsFollowed(g, Given, processed, "n", "x");
  }

  /** Whatever order the queue takes, the report leaves out `p` or `q`, which the given changes
      do cause to change. */
  lemma EveryRunHidesOne(g: ColumnGraph, processed: set<Change>)
    requires OfProject(g) && Follows(g, Given, processed)
    ensures "p" in ImpactOf(g, Given).nodes && "q" in ImpactOf(g, Given).nodes
    ensures !("p" in Report(g, processed).nodes && "q" in Report(g, processed).nodes)
  {
    BothAreCaused(g);
    CausedIsAll(g);
    assert processed <= Caused(g, Given);
    hide *;
    ReportedNeeds(g, processed);
    OneKindOnly(g, processed);
  }

  /** Building that project and propagating the two changes, in either order and however often
      repeated, gives a report that leaves out a node the changes reach. */
  method AddedHidesANode(changes: seq<Change>) returns (g: ColumnGraph, impact: Impact)
    requires Elements(changes) == Given
    ensures g.Indexed() && g.nodes == Nodes
    ensures exists id :: id in ImpactOf(g, Elements(changes)).nodes && id !in impact.nodes
  {
    hide ImpactOf, Report, Follows, ClashesUnheard;
    g := FromNodes(Nodes);
    impact := Propagate(g, changes);
    ghost var processed :| Follows(g, Given, processed) && impact == Report(g, processed);
    EveryRunHidesOne(g, processed);
  }
}
