/** Dependency order over ids: which come first, how deep each one is, and the waves a build
    runs them in. */
module Layers {
  import opened Prelude
  import opened Fixpoint
  import opened Order

  type Edges = set<(string, string)>

  // ---- paths ------------------------------------------------------------------------

  /** A walk along dependency edges, from a dependency to its dependents. */
  ghost predicate IsPath(edges: Edges, p: seq<string>) {
    p != [] && forall i :: 0 < i < |p| ==> (p[i - 1], p[i]) in edges
  }

  ghost predicate PathTo(edges: Edges, p: seq<string>, id: string) {
    IsPath(edges, p) && p[|p| - 1] == id
  }

  /** The longest path that ends at `id` has `d` edges. */
  ghost predicate IsDepth(edges: Edges, id: string, d: nat) {
    && (exists p :: PathTo(edges, p, id) && |p| == d + 1)
    && forall p :: PathTo(edges, p, id) ==> |p| <= d + 1
  }

  ghost predicate IsCycle(edges: Edges, p: seq<string>) {
    IsPath(edges, p) && |p| > 1 && p[0] == p[|p| - 1]
  }

  ghost predicate Topological(edges: Edges, order: seq<string>) {
    && (forall i, j :: 0 <= i < j < |order| ==> order[i] != order[j])
    && forall e ::
        e in edges && e.1 in order ==> exists i, j :: 0 <= i < j < |order| && order[i] == e.0 && order[j] == e.1
  }

  function Preds(edges: Edges, id: string): set<string> { set e | e in edges && e.1 == id :: e.0 }

  /** Some dependency of `id` is still among `left`. */
  predicate DependsWithin(edges: Edges, left: set<string>, id: string) {
    exists x :: x in left && (x, id) in edges
  }

  // ---- a topological order, or a cycle ----------------------------------------------

  /** Repeatedly takes an id whose dependencies have all been taken; stuck exactly when the
      rest go round in a circle. */
  method TopologicalSort(ids: set<string>, edges: Edges) returns (order: Option<seq<string>>)
    requires forall e :: e in edges ==> e.0 in ids && e.1 in ids
    ensures order.Some? ==> Elements(order.value) == ids && Topological(edges, order.value)
    ensures order.None? <==> exists p :: IsCycle(edges, p)
  {
    var taken: seq<string> := [];
    var left := ids;
    while left != {}
      invariant Elements(taken) == ids - left && left <= ids && Topological(edges, taken)
    {
      var ready := set id | id in left && !DependsWithin(edges, left, id);
      if ready == {} {
        forall id | id in left ensures DependsWithin(edges, left, id) { assert id !in ready; }
        StuckMeansCycle(edges, left);
        return None;
      }
      var id :| id in ready;
      TakeOne(ids, edges, left, taken, id);
      taken, left := taken + [id], left - {id};
    }
    assert forall id :: id in ids ==> id in Elements(taken);
    OrderMeansNoCycle(edges, taken);
    order := Some(taken);
  }

  lemma TakeOne(ids: set<string>, edges: Edges, left: set<string>, taken: seq<string>, id: string)
    requires forall e :: e in edges ==> e.0 in ids && e.1 in ids
    requires Elements(taken) == ids - left && id in left && !DependsWithin(edges, left, id) && Topological(edges, taken)
    ensures Elements(taken + [id]) == Elements(taken) + {id} && Topological(edges, taken + [id])
  {
    var more := taken + [id];
    assert Elements(more) == Elements(taken) + {id} by {
      assert more[|taken|] == id; forall x | x in taken ensures x in more {
        var i :| 0 <= i < |taken| && taken[i] == x;
        assert more[i] == x;
      }
    }
    assert id !in Elements(taken) && id !in taken;
    forall e | e in edges && e.1 in more
        ensures exists i, j :: 0 <= i < j < |more| && more[i] == e.0 && more[j] == e.1 {
      if e.1 == id {
        assert e == (e.0, id) && e.0 !in left;
        assert e.0 in Elements(taken);
        var i :| 0 <= i < |taken| && taken[i] == e.0;
        assert more[i] == e.0 && more[|taken|] == e.1;
      } else {
        assert e.1 in taken;
        var i, j :| 0 <= i < j < |taken| && taken[i] == e.0 && taken[j] == e.1;
        assert more[i] == e.0 && more[j] == e.1;
      }
    }
  }

  lemma {:induction false} PositionsGrow(edges: Edges, order: seq<string>, p: seq<string>) returns (a: nat, b: nat)
    requires Topological(edges, order) && IsPath(edges, p) && p[|p| - 1] in order
    ensures a < |order| && b < |order| && order[a] == p[0] && order[b] == p[|p| - 1] && a + |p| - 1 <= b
    decreases |p|
  {
    if |p| == 1 {
      a :| 0 <= a < |order| && order[a] == p[0];
      b := a;
    } else {
      var e := (p[|p| - 2], p[|p| - 1]);
      assert e in edges;
      var i, j :| 0 <= i < j < |order| && order[i] == e.0 && order[j] == e.1;
      var mid;
      a, mid := PositionsGrow(edges, order, p[..|p| - 1]);
      assert mid == i;
      b := j;
    }
  }

  lemma OrderMeansNoCycle(edges: Edges, order: seq<string>)
    requires Topological(edges, order) && forall e :: e in edges ==> e.1 in order
    ensures !exists p :: IsCycle(edges, p)
  {
    if p :| IsCycle(edges, p) {
      assert (p[|p| - 2], p[|p| - 1]) in edges;
      var a, b := PositionsGrow(edges, order, p);
    }
  }

  /** A walk of any length that stays in a set where everyone has a dependency in the set. */
  lemma {:induction false} WalkBack(edges: Edges, left: set<string>, n: nat) returns (p: seq<string>)
    requires left != {} &&
        forall id {:trigger DependsWithin(edges, left, id)} :: id in left ==> DependsWithin(edges, left, id)
    ensures |p| == n + 1 && IsPath(edges, p) && forall x :: x in p ==> x in left
  {
    if n == 0 {
      var x :| x in left;
      p := [x];
    } else {
      var q := WalkBack(edges, left, n - 1);
      assert DependsWithin(edges, left, q[0]);
      var x :| x in left && (x, q[0]) in edges;
      p := [x] + q;
    }
  }

  lemma {:induction false} DistinctFit(s: seq<string>, all: set<string>)
    requires (forall x :: x in s ==> x in all) && forall i, j :: 0 <= i < j < |s| ==> s[i] != s[j]
    ensures |s| <= |all|
  {
    if s != [] {
      var last := s[|s| - 1];
      forall x | x in s[..|s| - 1] ensures x in all - {last} {}
      DistinctFit(s[..|s| - 1], all - {last});
    }
  }

  lemma StuckMeansCycle(edges: Edges, left: set<string>)
    requires left != {} &&
        forall id {:trigger DependsWithin(edges, left, id)} :: id in left ==> DependsWithin(edges, left, id)
    ensures exists p :: IsCycle(edges, p)
  {
    var p := WalkBack(edges, left, |left|);
    var i, j := Repeats(p, left);
    var q := p[i..j + 1];
    assert IsPath(edges, q) by {
      forall k | 0 < k < |q| ensures (q[k - 1], q[k]) in edges { assert (p[i + k - 1], p[i + k]) in edges; }
    }
    assert IsCycle(edges, q);
  }

  /** More entries than there are values: two of them are the same. */
  lemma Repeats(s: seq<string>, all: set<string>) returns (i: nat, j: nat)
    requires (forall x :: x in s ==> x in all) && |s| > |all|
    ensures i < j < |s| && s[i] == s[j]
  {
    if forall i, j :: 0 <= i < j < |s| ==> s[i] != s[j] { DistinctFit(s, all); }
    i, j :| 0 <= i < j < |s| && s[i] == s[j];
  }

  // ---- depths -----------------------------------------------------------------------

  /** One more than the deepest dependency, or 0. */
  method DepthOf(edges: Edges, id: string, depth: map<string, nat>) returns (d: nat)
    requires forall q :: q in Preds(edges, id) ==> q in depth && IsDepth(edges, q, depth[q])
    ensures IsDepth(edges, id, d)
  {
    d := 0;
    var todo := Preds(edges, id);
    while todo != {}
      invariant todo <= Preds(edges, id)
      invariant forall q :: q in Preds(edges, id) - todo ==> depth[q] + 1 <= d
      invariant d > 0 ==> exists q :: q in Preds(edges, id) && depth[q] + 1 == d
    {
      var q :| q in todo;
      if depth[q] + 1 > d { d := depth[q] + 1; }
      todo := todo - {q};
    }
    DeepestPlusOne(edges, id, depth, d);
  }

  lemma DeepestPlusOne(edges: Edges, id: string, depth: map<string, nat>, d: nat)
    requires forall q :: q in Preds(edges, id) ==> q in depth && IsDepth(edges, q, depth[q]) && depth[q] + 1 <= d
    requires d > 0 ==> exists q :: q in Preds(edges, id) && depth[q] + 1 == d
    ensures IsDepth(edges, id, d)
  {
    forall p | PathTo(edges, p, id) ensures |p| <= d + 1 {
      if |p| > 1 {
        var q := p[|p| - 2];
        assert (q, id) in edges && q in Preds(edges, id);
        assert PathTo(edges, p[..|p| - 1], q);
      }
    }
    if d == 0 {
      assert PathTo(edges, [id], id);
    } else {
      var q :| q in Preds(edges, id) && depth[q] + 1 == d;
      var p :| PathTo(edges, p, q) && |p| == depth[q] + 1;
      assert (q, id) in edges;
      assert PathTo(edges, p + [id], id);
    }
  }

  /** Each id goes with the length of its longest incoming path. */
  ghost predicate AreDepths(edges: Edges, depth: map<string, nat>) {
    forall id :: id in depth ==> IsDepth(edges, id, depth[id])
  }

  method Depths(edges: Edges, order: seq<string>) returns (depth: map<string, nat>)
    requires Topological(edges, order)
    ensures depth.Keys == Elements(order) && AreDepths(edges, depth)
  {
    depth := map[];
    for k := 0 to |order|
      invariant depth.Keys == Elements(order[..k]) && AreDepths(edges, depth)
    {
      forall q | q in Preds(edges, order[k]) ensures q in depth {
        assert (q, order[k]) in edges;
        var i, j :| 0 <= i < j < |order| && order[i] == q && order[j] == order[k];
        assert j == k && order[..k][i] == q;
      }
      var d := DepthOf(edges, order[k], depth);
      depth := depth[order[k] := d];
      assert order[..k + 1] == order[..k] + [order[k]];
    }
    assert order[..|order|] == order;
  }

  /** Depths have no gaps: below a deep id there is one exactly one less deep. */
  lemma NoGap(edges: Edges, id: string, d: nat) returns (below: string)
    requires IsDepth(edges, id, d) && d > 0
    ensures (below, id) in edges && (forall b: nat :: IsDepth(edges, below, b) ==> b == d - 1)
  {
    var p :| PathTo(edges, p, id) && |p| == d + 1;
    below := p[|p| - 2];
    assert PathTo(edges, p[..|p| - 1], below);
    forall b: nat | IsDepth(edges, below, b) ensures b == d - 1 {
      var q :| PathTo(edges, q, below) && |q| == b + 1;
      assert PathTo(edges, q + [id], id);
    }
  }

  // ---- sorted output ----------------------------------------------------------------

  /** By depth, then id. */
  predicate Before(a: (string, nat), b: (string, nat)) {
    a.1 < b.1 || (a.1 == b.1 && StringLe(a.0, b.0))
  }

  predicate Sorted(s: seq<(string, nat)>) { forall i, j :: 0 <= i < j < |s| ==> Before(s[i], s[j]) }

  /** `x` put in its place among sorted items. */
  method Place(s: seq<(string, nat)>, x: (string, nat)) returns (r: seq<(string, nat)>)
    requires Sorted(s)
    ensures Sorted(r) && |r| == |s| + 1 && exists k :: 0 <= k <= |s| && r == s[..k] + [x] + s[k..]
  {
    var k := 0;
    while k < |s| && Before(s[k], x)
      invariant 0 <= k <= |s| && forall i :: 0 <= i < k ==> Before(s[i], x)
    {
      k := k + 1;
    }
    forall i | k <= i < |s| ensures Before(x, s[i]) {
      StringLeTotal(s[k].0, x.0);
      if k < i && x.1 == s[k].1 == s[i].1 { StringLeTransitive(x.0, s[k].0, s[i].0); }
    }
    r := s[..k] + [x] + s[k..];
  }

  /** Every id with its depth, sorted by depth and then id. */
  ghost predicate IsLayered(depth: map<string, nat>, s: seq<(string, nat)>) {
    && Sorted(s)
    && (forall i, j :: 0 <= i < j < |s| ==> s[i].0 != s[j].0)
    && forall x :: x in s <==> x.0 in depth && depth[x.0] == x.1
  }

  method SortByDepth(depth: map<string, nat>) returns (s: seq<(string, nat)>)
    ensures IsLayered(depth, s)
  {
    s := [];
    var todo := depth.Keys;
    ghost var done: map<string, nat> := map[];
    while todo != {}
      invariant todo <= depth.Keys && done == map id | id in depth && id !in todo :: depth[id]
      invariant IsLayered(done, s)
    {
      var id :| id in todo;
      var r := Place(s, (id, depth[id]));
      s, todo, done := r, todo - {id}, done[id := depth[id]];
    }
    assert done == depth;
  }

  /** Orders `ids` so that each comes after what it depends on, with its depth; nothing when
      the dependencies go round in a circle. Edges naming other ids are ignored. */
  method Layer(ids: set<string>, edges: Edges) returns (layers: Option<seq<(string, nat)>>)
    ensures layers.None? <==> exists p :: IsCycle(Inner(ids, edges), p)
    ensures layers.Some? ==> exists depth: map<string, nat> ::
      depth.Keys == ids && IsLayered(depth, layers.value) && AreDepths(Inner(ids, edges), depth)
  {
    var inner := Inner(ids, edges);
    var order := TopologicalSort(ids, inner);
    if order.None? { return None; }
    var depth := Depths(inner, order.value);
    var s := SortByDepth(depth);
    layers := Some(s);
  }

  function Inner(ids: set<string>, edges: Edges): Edges { set e | e in edges && e.0 in ids && e.1 in ids }

  // ---- waves ------------------------------------------------------------------------

  /** What each node declares it depends on, known or not. */
  type Declared = map<string, seq<string>>

  /** The dependencies that order a build: between known nodes, self-references aside. */
  function DependencyEdges(declared: Declared): Edges {
    set id, dep | id in declared && dep in declared[id] && dep in declared && dep != id :: (dep, id)
  }

  function MissingDependencies(declared: Declared): set<string> {
    set id, dep | id in declared && dep in declared[id] && dep !in declared :: dep
  }

  function InWave(waves: seq<seq<string>>, k: nat, id: string): bool { k < |waves| && id in waves[k] }

  /** Sorted by id, each id once. */
  ghost predicate InOrder(wave: seq<string>) {
    forall i, j :: 0 <= i < j < |wave| ==> wave[i] != wave[j] && StringLe(wave[i], wave[j])
  }

  /** Wave `k` holds the nodes of depth `k`, in order; every node is in one, and no wave is
      empty. */
  ghost predicate IsSchedule(declared: Declared, waves: seq<seq<string>>) {
    && (forall id, k :: InWave(waves, k, id) ==> id in declared && IsDepth(DependencyEdges(declared), id, k))
    && (forall id :: id in declared ==> exists k :: InWave(waves, k, id))
    && (forall k :: 0 <= k < |waves| ==> waves[k] != [] && InOrder(waves[k]))
  }

  /** Groups node ids into waves; nothing when the dependencies contain a cycle. */
  method Waves(declared: Declared) returns (waves: Option<seq<seq<string>>>, missing: set<string>)
    ensures missing == MissingDependencies(declared)
    ensures forall d :: d in missing <==> d !in declared && exists id :: id in declared && d in declared[id]
    ensures waves.None? <==> exists p :: IsCycle(DependencyEdges(declared), p)
    ensures waves.Some? ==> IsSchedule(declared, waves.value)
  {
    missing := MissingDependencies(declared);
    var edges := DependencyEdges(declared);
    assert Inner(declared.Keys, edges) == edges;
    var layers := Layer(declared.Keys, edges);
    if layers.None? { return None, missing; }
    ghost var depth: map<string, nat> :| depth.Keys == declared.Keys && IsLayered(depth, layers.value) &&
        AreDepths(edges, depth);
    var w := FillWaves(edges, layers.value, depth);
    FilledIsSchedule(declared, layers.value, depth, w);
    waves := Some(w);
  }

  /** Waves hold the sorted items so far: each at its depth, none empty. */
  ghost predicate Filled(items: seq<(string, nat)>, waves: seq<seq<string>>) {
    && (forall id: string, k: nat :: InWave(waves, k, id) <==> (id, k) in items)
    && (forall k :: 0 <= k < |waves| ==> waves[k] != [] && InOrder(waves[k]))
  }

  /** Puts each item in the wave of its depth: at most one wave is ever added for it, and
      that is enough. */
  method FillWaves(edges: Edges, items: seq<(string, nat)>, ghost depth: map<string, nat>)
      returns (waves: seq<seq<string>>)
    requires IsLayered(depth, items) && AreDepths(edges, depth) && forall e :: e in edges ==> e.0 in depth
    ensures Filled(items, waves)
  {
    waves := [];
    for n := 0 to |items|
      invariant Filled(items[..n], waves)
    {
      var id, d := items[n].0, items[n].1;
      NextWaveExists(edges, items, depth, n, waves);
      if |waves| <= d { waves := waves + [[]]; }
      assert items[..n + 1] == items[..n] + [(id, d)];
      ghost var before := waves;
      waves := waves[d := waves[d] + [id]];
      ComesLast(items, n, before);
      FilledMore(items[..n], before, id, d);
    }
    assert items[..|items|] == items;
  }

  /** Items come by depth and depths have no gaps, so an item is at most one wave deeper than
      those already placed. */
  lemma NextWaveExists(edges: Edges, items: seq<(string, nat)>, depth: map<string, nat>, n: nat,
      waves: seq<seq<string>>)
    requires IsLayered(depth, items) && AreDepths(edges, depth) && forall e :: e in edges ==> e.0 in depth
    requires n < |items| && Filled(items[..n], waves)
    ensures items[n].1 <= |waves| && !InWave(waves, items[n].1, items[n].0)
  {
    var d := items[n].1;
    if d > 0 {
      assert items[n] in items;
      var below := NoGap(edges, items[n].0, d);
      assert depth[below] == d - 1 && (below, d - 1) in items;
      var i :| 0 <= i < |items| && items[i] == (below, d - 1);
      assert n <= i ==> Before(items[n], items[i]) || n == i;
      assert (below, d - 1) in items[..n] by { assert items[..n][i] == (below, d - 1); }
      assert InWave(waves, d - 1, below);
    }
    assert (items[n].0, d) !in items[..n] by { assert forall i :: 0 <= i < n ==> items[i].0 != items[n].0; }
  }

  /** What is already in the item's wave comes before it. */
  lemma ComesLast(items: seq<(string, nat)>, n: nat, waves: seq<seq<string>>)
    requires Sorted(items) && n < |items| && items[n].1 < |waves|
    requires forall x :: InWave(waves, items[n].1, x) ==> (x, items[n].1) in items[..n]
    ensures forall x :: x in waves[items[n].1] ==> StringLe(x, items[n].0)
  {
    forall x | x in waves[items[n].1] ensures StringLe(x, items[n].0) {
      assert InWave(waves, items[n].1, x);
      var i :| 0 <= i < n && items[..n][i] == (x, items[n].1);
      assert Before(items[i], items[n]);
    }
  }

  lemma FilledMore(items: seq<(string, nat)>, waves: seq<seq<string>>, id: string, d: nat)
    requires d < |waves| && !InWave(waves, d, id) && forall x :: x in waves[d] ==> StringLe(x, id)
    requires (waves[d] == [] && d == |waves| - 1 && Filled(items, waves[..d])) || Filled(items, waves)
    ensures Filled(items + [(id, d)], waves[d := waves[d] + [id]])
  {
    var after := waves[d := waves[d] + [id]];
    forall x: string, k: nat ensures InWave(after, k, x) <==> (x, k) in items + [(id, d)] {
      if k != d && waves[d] == [] && Filled(items, waves[..d]) {
        assert InWave(after, k, x) <==> InWave(waves[..d], k, x);
      }
      assert after[d][|waves[d]|] == id;
      assert (items + [(id, d)])[|items|] == (id, d);
    }
  }

  lemma FilledIsSchedule(declared: Declared, items: seq<(string, nat)>, depth: map<string, nat>,
      waves: seq<seq<string>>)
    requires Filled(items, waves) && IsLayered(depth, items) && depth.Keys == declared.Keys &&
        AreDepths(DependencyEdges(declared), depth)
    ensures IsSchedule(declared, waves)
  {
    forall id | id in declared ensures exists k :: InWave(waves, k, id) {
      assert (id, depth[id]) in items;
      assert InWave(waves, depth[id], id);
    }
  }

  lemma DepthIsUnique(edges: Edges, id: string, a: nat, b: nat)
    requires IsDepth(edges, id, a) && IsDepth(edges, id, b)
    ensures a == b
  {
  }

  lemma {:induction false} OrderIsUnique(a: seq<string>, b: seq<string>)
    requires InOrder(a) && InOrder(b) && forall x :: x in a <==> x in b
    ensures a == b
    decreases |a|
  {
    assert a != [] ==> a[0] in b;
    assert b != [] ==> b[0] in a;
    if a != [] {
      assert a[0] in b && b[0] in a;
      assert StringLe(a[0], b[0]) || a[0] == b[0];
      assert StringLe(b[0], a[0]) || a[0] == b[0];
      if a[0] != b[0] { StringLeAntisymmetric(a[0], b[0]); }
      forall x ensures x in a[1..] <==> x in b[1..] {
        if x in a[1..] { var i :| 0 < i < |a| && a[i] == x; assert x in b && x != b[0]; }
        if x in b[1..] { var i :| 0 < i < |b| && b[i] == x; assert x in a && x != a[0]; }
      }
      OrderIsUnique(a[1..], b[1..]);
    }
  }

  /** There is only one such schedule. */
  lemma ScheduleIsUnique(declared: Declared, v: seq<seq<string>>, w: seq<seq<string>>)
    requires IsSchedule(declared, v) && IsSchedule(declared, w)
    ensures v == w
  {
    SameWaves(declared, v, w);
    SameWaves(declared, w, v);
    forall k | 0 <= k < |v| && k < |w| ensures v[k] == w[k] {
      forall x ensures x in v[k] <==> x in w[k] { assert InWave(v, k, x) <==> InWave(w, k, x); }
      OrderIsUnique(v[k], w[k]);
    }
  }

  lemma SameWaves(declared: Declared, v: seq<seq<string>>, w: seq<seq<string>>)
    requires IsSchedule(declared, v) && IsSchedule(declared, w)
    ensures |v| <= |w| && forall k, x :: InWave(v, k, x) ==> InWave(w, k, x)
  {
    forall k, x | InWave(v, k, x) ensures InWave(w, k, x) {
      var j :| InWave(w, j, x);
      DepthIsUnique(DependencyEdges(declared), x, k, j);
    }
    if |v| > 0 { assert InWave(v, |v| - 1, v[|v| - 1][0]); }
  }

  /** A node's other known dependencies are in earlier waves. */
  lemma DependenciesComeFirst(declared: Declared, waves: seq<seq<string>>, id: string, dep: string, k: nat, j: nat)
    requires IsSchedule(declared, waves) && InWave(waves, k, id) && InWave(waves, j, dep)
    requires dep in declared[id] && dep != id
    ensures j < k
  {
    var edges := DependencyEdges(declared);
    assert (dep, id) in edges;
    var p :| PathTo(edges, p, dep) && |p| == j + 1;
    assert PathTo(edges, p + [id], id);
  }
}
