/** The changes between two analyses of one model, and why replanning by them is safe. */
module Diff {
  import opened Prelude
  import opened Fixpoint
  import opened Lineage
  import Order
  import opened Impact
  import opened NonInterference

  function Names(outputs: seq<OutputColumn>): (r: seq<string>)
    ensures |r| == |outputs| && forall i :: 0 <= i < |r| ==> r[i] == outputs[i].name
  {
    seq(|outputs|, i requires 0 <= i < |outputs| => outputs[i].name)
  }

  /** Names and expression digests, in order: all a query's outputs are compared by. */
  function Pairs(outputs: seq<OutputColumn>): (r: seq<(string, string)>)
    ensures |r| == |outputs| && forall i :: 0 <= i < |r| ==> r[i] == (outputs[i].name, outputs[i].digest)
  {
    seq(|outputs|, i requires 0 <= i < |outputs| => (outputs[i].name, outputs[i].digest))
  }

  ghost predicate Distinct<T>(s: seq<T>) { forall i, j :: 0 <= i < j < |s| ==> s[i] != s[j] }

  /** Each output's expression digest, by name. */
  function Digests(outputs: seq<OutputColumn>): (r: map<string, string>)
    ensures forall x :: x in r <==> x in Names(outputs)
  {
    if outputs == [] then map[] else
      var last := outputs[|outputs| - 1];
      assert Names(outputs) == Names(outputs[..|outputs| - 1]) + [last.name];
      Digests(outputs[..|outputs| - 1])[last.name := last.digest]
  }

  /** The names also among `others`, in order. */
  function Shared(names: seq<string>, others: set<string>): (r: seq<string>)
    ensures forall x :: x in r <==> x in names && x in others
  {
    if names == [] then [] else
      var init, last := Shared(names[..|names| - 1], others), names[|names| - 1];
      assert names == names[..|names| - 1] + [last];
      if last in others then init + [last] else init
  }

  /** Nothing can be matched column by column, so nothing is proven unchanged. */
  ghost predicate Incomparable(before: Option<QueryLineage>, after: QueryLineage) {
    || before.None? || before.value.unread || after.unread || before.value.rowDigest != after.rowDigest
    || !Distinct(Names(before.value.outputs)) || !Distinct(Names(after.outputs))
  }

  function WasOrder(before: QueryLineage, after: QueryLineage): seq<string> {
    Shared(Names(before.outputs), Digests(after.outputs).Keys)
  }

  function NowOrder(before: QueryLineage, after: QueryLineage): seq<string> {
    Shared(Names(after.outputs), Digests(before.outputs).Keys)
  }

  /** A shared column another one stood in the place of. */
  ghost predicate Moved(before: QueryLineage, after: QueryLineage, x: string) {
    exists i :: MovedAt(before, after, x, i)
  }

  predicate MovedAt(before: QueryLineage, after: QueryLineage, x: string, i: nat) {
    && i < |WasOrder(before, after)| && i < |NowOrder(before, after)|
    && NowOrder(before, after)[i] == x && WasOrder(before, after)[i] != x
  }

  /** How one column changed, if it did. */
  ghost predicate ChangedAs(before: QueryLineage, after: QueryLineage, x: string, kind: ColumnChangeKind) {
    var was, now := Digests(before.outputs), Digests(after.outputs);
    match kind
    case Added => x in now && x !in was
    case Removed => x in was && x !in now
    case Modified => x in was && x in now && (was[x] != now[x] || Moved(before, after, x))
  }

  /** Exactly what is reported. */
  ghost predicate IsDiff(relation: RelationName, before: Option<QueryLineage>, after: QueryLineage,
      changes: set<Change>) {
    if Incomparable(before, after) then changes == {Rows(relation)}
    else forall c ::
        c in changes <==>
        c.Column? && c.column.relation == relation && ChangedAs(before.value, after, c.column.column, c.kind)
  }

  method HasDuplicate(outputs: seq<OutputColumn>) returns (r: bool)
    ensures r <==> !Distinct(Names(outputs))
  {
    var seen: set<string> := {};
    for k := 0 to |outputs|
      invariant forall x :: x in seen <==> exists i :: 0 <= i < k && outputs[i].name == x
      invariant forall i, j :: 0 <= i < j < k ==> outputs[i].name != outputs[j].name
    {
      if outputs[k].name in seen {
        var i :| 0 <= i < k && outputs[i].name == outputs[k].name;
        assert Names(outputs)[i] == Names(outputs)[k];
        return true;
      }
      seen := seen + {outputs[k].name};
    }
    return false;
  }

  /** The changes to a relation between two analyses of its SQL, each column once, by name. */
  method Compare(relation: RelationName, before: Option<QueryLineage>, after: QueryLineage)
      returns (changes: seq<Change>)
    ensures IsDiff(relation, before, after, Elements(changes))
    ensures Distinct(changes) && ByName(changes)
  {
    if before.None? { return [Rows(relation)]; }
    var was := before.value;
    var wasTwice := HasDuplicate(was.outputs);
    var nowTwice := HasDuplicate(after.outputs);
    if was.unread || after.unread || was.rowDigest != after.rowDigest || wasTwice || nowTwice {
      return [Rows(relation)];
    }
    var found := CompareColumns(relation, was, after);
    changes := Sort(found);
  }

  // ---- sorting ----------------------------------------------------------------------

  predicate NameLe(c: Change, d: Change) { c.Column? && d.Column? ==> Order.StringLe(c.column.column, d.column.column) }

  ghost predicate ByName(s: seq<Change>) { forall i, j :: 0 <= i < j < |s| ==> NameLe(s[i], s[j]) }

  function Place(s: seq<Change>, c: Change): (r: seq<Change>)
    ensures forall x :: x in r <==> x == c || x in s
  {
    if s == [] then [c] else if NameLe(c, s[0]) then [c] + s else [s[0]] + Place(s[1..], c)
  }

  lemma {:induction false} PlaceKeepsOrder(s: seq<Change>, c: Change)
    requires c.Column? && (forall d :: d in s ==> d.Column?) && Distinct(s) && c !in s && ByName(s)
    ensures Distinct(Place(s, c)) && ByName(Place(s, c))
  {
    if s != [] {
      if NameLe(c, s[0]) {
        forall i | 0 < i < |s| ensures NameLe(c, s[i]) {
          assert s[i] in s && NameLe(s[0], s[i]);
          Order.StringLeTransitive(c.column.column, s[0].column.column, s[i].column.column);
        }
      } else {
        assert s[0] in s;
        Order.StringLeTotal(c.column.column, s[0].column.column);
        PlaceKeepsOrder(s[1..], c);
        var more := Place(s[1..], c);
        forall i | 0 <= i < |more| ensures NameLe(s[0], more[i]) && s[0] != more[i] {
          assert more[i] in more;
          if more[i] != c {
            var j :| 0 <= j < |s[1..]| && s[1..][j] == more[i];
            assert s[j + 1] == more[i];
          }
        }
      }
    }
  }

  /** The library's sort, on changes to columns. */
  method Sort(changes: seq<Change>) returns (r: seq<Change>)
    requires (forall c :: c in changes ==> c.Column?) && Distinct(changes)
    ensures Distinct(r) && ByName(r) && Elements(r) == Elements(changes)
  {
    hide Distinct, ByName;
    r := [];
    assert Distinct(r) && ByName(r) by { NothingRepeats(); }
    for k := 0 to |changes|
      invariant Distinct(r) && ByName(r) && forall c :: c in r <==> c in changes[..k]
    {
      assert changes[..k + 1] == changes[..k] + [changes[k]];
      NextIsNew(changes, k);
      PlaceKeepsOrder(r, changes[k]);
      r := Place(r, changes[k]);
    }
    assert changes[..|changes|] == changes;
  }

  method CompareColumns(relation: RelationName, was: QueryLineage, after: QueryLineage) returns (changes: seq<Change>)
    requires Distinct(Names(was.outputs)) && Distinct(Names(after.outputs))
    ensures Distinct(changes)
    ensures forall c ::
        c in changes <==> c.Column? && c.column.relation == relation && ChangedAs(was, after, c.column.column, c.kind)
  {
    hide Digests, Shared, Distinct, Moved;
    var old', new' := Digests(was.outputs), Digests(after.outputs);
    var present := NewOrChanged(relation, after.outputs, old', new');
    var gone := Gone(relation, was.outputs, new');
    var moved := MovedColumns(relation, was, after);
    changes := present + gone + moved;
    forall c ensures c in changes <==>
        c.Column? && c.column.relation == relation && ChangedAs(was, after, c.column.column, c.kind) {
    }
    AllDistinct(present, gone, moved);
  }

  lemma AllDistinct(a: seq<Change>, b: seq<Change>, c: seq<Change>)
    requires Distinct(a) && Distinct(b) && Distinct(c)
    requires forall x :: x in a ==> x !in b && x !in c
    requires forall x :: x in b ==> x !in c
    ensures Distinct(a + b + c)
  {
    var s := a + b + c;
    forall i, j | 0 <= i < j < |s| ensures s[i] != s[j] {
      assert i < |a| ==> s[i] in a;
      assert |a| <= i < |a| + |b| ==> s[i] == b[i - |a|] && s[i] in b;
      assert |a| <= j < |a| + |b| ==> s[j] == b[j - |a|] && s[j] in b;
      assert |a| + |b| <= i ==> s[i] == c[i - |a| - |b|];
      assert |a| + |b| <= j ==> s[j] == c[j - |a| - |b|] && s[j] in c;
    }
  }

  lemma NextIsNew<T>(s: seq<T>, k: nat)
    requires Distinct(s) && k < |s|
    ensures s[k] !in s[..k]
  {
  }

  lemma DistinctMore<T>(s: seq<T>, x: T)
    requires Distinct(s) && x !in s
    ensures Distinct(s + [x])
  {
  }

  predicate NewOrDigestChanged(relation: RelationName, names: seq<string>, old': map<string, string>,
      new': map<string, string>, c: Change)
    requires forall x :: x in names ==> x in new'
  {
    && c.Column? && c.column.relation == relation && c.column.column in names
    && (if c.column.column in old' then c.kind == Modified && old'[c.column.column] != new'[c.column.column]
        else c.kind == Added)
  }

  method NewOrChanged(relation: RelationName, outputs: seq<OutputColumn>, old': map<string, string>,
      new': map<string, string>) returns (changes: seq<Change>)
    requires Distinct(Names(outputs)) && forall x :: x in new' <==> x in Names(outputs)
    ensures Distinct(changes)
    ensures forall c :: c in changes <==> NewOrDigestChanged(relation, Names(outputs), old', new', c)
  {
    hide Distinct;
    changes := [];
    assert Distinct(changes) by { NothingRepeats(); }
    var names := Names(outputs);
    for k := 0 to |names|
      invariant Distinct(changes)
      invariant forall c :: c in changes <==> NewOrDigestChanged(relation, names[..k], old', new', c)
    {
      var x := names[k];
      assert names[..k + 1] == names[..k] + [x];
      NextIsNew(names, k);
      if x !in old' {
        DistinctMore(changes, Column(ColumnRef(relation, x), Added));
        changes := changes + [Column(ColumnRef(relation, x), Added)];
      } else if old'[x] != new'[x] {
        DistinctMore(changes, Column(ColumnRef(relation, x), Modified));
        changes := changes + [Column(ColumnRef(relation, x), Modified)];
      }
    }
    assert names[..|names|] == names;
  }

  lemma NothingRepeats()
    ensures Distinct<Change>([]) && ByName([])
  {
  }

  method Gone(relation: RelationName, outputs: seq<OutputColumn>, new': map<string, string>)
      returns (changes: seq<Change>)
    requires Distinct(Names(outputs))
    ensures Distinct(changes)
    ensures forall c ::
        c in changes <==>
        c.Column? && c.column.relation == relation && c.kind == Removed && c.column.column in Names(outputs) &&
        c.column.column !in new'
  {
    hide Distinct;
    changes := [];
    assert Distinct(changes) by { NothingRepeats(); }
    var names := Names(outputs);
    for k := 0 to |names|
      invariant Distinct(changes)
      invariant forall c ::
          c in changes <==>
          c.Column? && c.column.relation == relation && c.kind == Removed && c.column.column in names[..k] &&
          c.column.column !in new'
    {
      var x := names[k];
      assert names[..k + 1] == names[..k] + [x];
      NextIsNew(names, k);
      if x !in new' {
        DistinctMore(changes, Column(ColumnRef(relation, x), Removed));
        changes := changes + [Column(ColumnRef(relation, x), Removed)];
      }
    }
    assert names[..|names|] == names;
  }

  predicate OnlyMoved(relation: RelationName, was: QueryLineage, after: QueryLineage, c: Change) {
    var old', new' := Digests(was.outputs), Digests(after.outputs);
    && c.Column? && c.column.relation == relation && c.kind == Modified
    && c.column.column in old' && c.column.column in new' && old'[c.column.column] == new'[c.column.column]
  }

  /** Columns that moved and were not changed otherwise. */
  method MovedColumns(relation: RelationName, was: QueryLineage, after: QueryLineage) returns (changes: seq<Change>)
    requires Distinct(Names(was.outputs)) && Distinct(Names(after.outputs))
    ensures Distinct(changes)
    ensures forall c :: c in changes <==> OnlyMoved(relation, was, after, c) && Moved(was, after, c.column.column)
  {
    hide Distinct, Digests, Shared, Names;
    var old', new' := Digests(was.outputs), Digests(after.outputs);
    var wasOrder, nowOrder := WasOrder(was, after), NowOrder(was, after);
    SharedIsDistinct(Names(after.outputs), old'.Keys);
    changes := [];
    assert Distinct(changes) by { NothingRepeats(); }
    var k := 0;
    while k < |wasOrder| && k < |nowOrder|
      invariant k <= |wasOrder| && k <= |nowOrder|
      invariant Distinct(changes)
      invariant forall c ::
          c in changes <==> OnlyMoved(relation, was, after, c) && MovedBefore(was, after, c.column.column, k)
    {
      var x := nowOrder[k];
      assert x in nowOrder;
      NextIsNew(nowOrder, k);
      MovedNext(was, after, k);
      if wasOrder[k] != x && old'[x] == new'[x] {
        assert !MovedBefore(was, after, x, k);
        DistinctMore(changes, Column(ColumnRef(relation, x), Modified));
        changes := changes + [Column(ColumnRef(relation, x), Modified)];
      }
      k := k + 1;
    }
    forall x ensures MovedBefore(was, after, x, k) <==> Moved(was, after, x) {}
  }

  ghost predicate MovedBefore(was: QueryLineage, after: QueryLineage, x: string, k: nat) {
    exists i: nat :: i < k && MovedAt(was, after, x, i)
  }

  lemma MovedNext(was: QueryLineage, after: QueryLineage, k: nat)
    requires k < |WasOrder(was, after)| && k < |NowOrder(was, after)| &&
        NowOrder(was, after)[k] !in NowOrder(was, after)[..k]
    ensures forall x ::
        MovedBefore(was, after, x, k + 1) <==> MovedBefore(was, after, x, k) || MovedAt(was, after, x, k)
    ensures !MovedBefore(was, after, NowOrder(was, after)[k], k)
  {
    hide Digests, Shared;
    var x := NowOrder(was, after)[k];
    forall i: nat | i < k ensures NowOrder(was, after)[i] != x {
      assert NowOrder(was, after)[..k][i] == NowOrder(was, after)[i];
    }
  }

  lemma {:induction false} SharedIsDistinct(names: seq<string>, others: set<string>)
    requires Distinct(names)
    ensures Distinct(Shared(names, others))
  {
    if names != [] {
      var init := names[..|names| - 1];
      SharedIsDistinct(init, others);
      NextIsNew(names, |names| - 1);
      if names[|names| - 1] in others { DistinctMore(Shared(init, others), names[|names| - 1]); }
    }
  }

  // ---- when nothing changed ---------------------------------------------------------

  lemma {:induction false} DigestOfOutput(outputs: seq<OutputColumn>, i: nat)
    requires i < |outputs| && Distinct(Names(outputs))
    ensures Digests(outputs)[outputs[i].name] == outputs[i].digest
  {
    var init := outputs[..|outputs| - 1];
    assert Names(outputs)[i] in Names(outputs);
    assert Names(init) == Names(outputs)[..|init|];
    if i < |init| {
      assert Names(outputs)[i] != Names(outputs)[|init|];
      DigestOfOutput(init, i);
    }
  }

  lemma {:induction false} SharedAll(names: seq<string>, others: set<string>)
    requires forall x :: x in names ==> x in others
    ensures Shared(names, others) == names
  {
    if names != [] {
      var init := names[..|names| - 1];
      SharedAll(init, others);
      assert names == init + [names[|names| - 1]];
    }
  }

  lemma {:induction false} DistinctSize(s: seq<string>)
    requires Distinct(s)
    ensures |Elements(s)| == |s|
  {
    if s != [] {
      var init := s[..|s| - 1];
      DistinctSize(init);
      NextIsNew(s, |s| - 1);
      assert s == init + [s[|s| - 1]];
      assert Elements(s) == Elements(init) + {s[|s| - 1]};
    }
  }

  lemma EqualPairsEqualNames(a: seq<OutputColumn>, b: seq<OutputColumn>)
    requires Pairs(a) == Pairs(b)
    ensures Names(a) == Names(b)
    ensures Distinct(Names(a)) ==> Digests(a) == Digests(b)
  {
    assert forall i :: 0 <= i < |a| ==> Pairs(a)[i] == Pairs(b)[i];
    assert Names(a) == Names(b);
    if Distinct(Names(a)) {
      forall x | x in Digests(a) ensures Digests(a)[x] == Digests(b)[x] {
        var i :| 0 <= i < |a| && Names(a)[i] == x;
        assert Pairs(a)[i] == Pairs(b)[i];
        DigestOfOutput(a, i);
        DigestOfOutput(b, i);
      }
    }
  }

  lemma OutOfPlaceIsMoved(before: QueryLineage, after: QueryLineage, i: nat)
    requires i < |WasOrder(before, after)| && i < |NowOrder(before, after)|
    ensures WasOrder(before, after)[i] != NowOrder(before, after)[i] ==>
        Moved(before, after, NowOrder(before, after)[i])
  {
    hide Shared, Digests, Names;
    if WasOrder(before, after)[i] != NowOrder(before, after)[i] {
      assert MovedAt(before, after, NowOrder(before, after)[i], i);
    }
  }

  lemma SameColumnsSamePairs(before: QueryLineage, after: QueryLineage)
    requires Distinct(Names(before.outputs)) && Distinct(Names(after.outputs))
    requires forall x, kind :: !ChangedAs(before, after, x, kind)
    ensures Pairs(before.outputs) == Pairs(after.outputs)
  {
    hide Distinct, Digests, Shared, Names, Moved;
    var a, b := Names(before.outputs), Names(after.outputs);
    var was, now := Digests(before.outputs), Digests(after.outputs);
    forall x ensures x in a <==> x in b {
      assert !ChangedAs(before, after, x, Added) && !ChangedAs(before, after, x, Removed);
    }
    SharedAll(a, now.Keys);
    SharedAll(b, was.Keys);
    DistinctSize(a);
    DistinctSize(b);
    assert Elements(a) == Elements(b);
    forall i | 0 <= i < |a| ensures Pairs(before.outputs)[i] == Pairs(after.outputs)[i] {
      assert b[i] in b && !ChangedAs(before, after, b[i], Modified);
      assert Pairs(before.outputs)[i] == (a[i], before.outputs[i].digest) &&
          Pairs(after.outputs)[i] == (b[i], after.outputs[i].digest);
      OutOfPlaceIsMoved(before, after, i);
      DigestOfOutput(before.outputs, i);
      DigestOfOutput(after.outputs, i);
    }
  }

  lemma SamePairsSameColumns(before: QueryLineage, after: QueryLineage)
    requires Distinct(Names(before.outputs)) && Pairs(before.outputs) == Pairs(after.outputs)
    ensures forall x, kind :: !ChangedAs(before, after, x, kind)
  {
    hide Distinct;
    EqualPairsEqualNames(before.outputs, after.outputs);
  }

  /** Nothing is reported exactly when there is an earlier analysis, neither is opaque or
      repeats an output name, the row digests agree, and so do the outputs' names and digests,
      in order. */
  lemma EmptyExactlyWhenSame(relation: RelationName, before: Option<QueryLineage>, after: QueryLineage,
      changes: set<Change>)
    requires IsDiff(relation, before, after, changes)
    ensures changes == {} <==> !Incomparable(before, after) && Pairs(before.value.outputs) == Pairs(after.outputs)
  {
    hide Distinct;
    if !Incomparable(before, after) {
      var was := before.value;
      if changes == {} {
        forall x, kind ensures !ChangedAs(was, after, x, kind) {
          assert Column(ColumnRef(relation, x), kind) !in changes;
        }
        SameColumnsSamePairs(was, after);
      }
      if Pairs(was.outputs) == Pairs(after.outputs) {
        SamePairsSameColumns(was, after);
      }
    }
  }

  /** A column is reported in at most one way, and never beside a change of rows. */
  lemma EachColumnAtMostOnce(relation: RelationName, before: Option<QueryLineage>, after: QueryLineage,
      changes: set<Change>, c: Change, d: Change)
    requires IsDiff(relation, before, after, changes) && c in changes && d in changes
    ensures c.Rows? ==> d == c
    ensures c.Column? && d.Column? && c.column == d.column ==> c == d
  {
    hide Distinct, Moved;
  }

  // ---- replanning -------------------------------------------------------------------

  /** Digests tell code apart: with the same digests, the same rows and the same column. */
  ghost predicate DigestsSound<R(!new), V(!new)>(was: Semantics<R, V>, now: Semantics<R, V>, id: string,
      before: QueryLineage, after: QueryLineage) {
    before.rowDigest == after.rowDigest ==>
      && (forall e: Env<R, V> :: was.rows(id, e) == now.rows(id, e))
      && forall x ::
          SameDigest(before, after, x) ==> forall e: Env<R, V> :: was.column(id, x, e) == now.column(id, x, e)
  }

  predicate SameDigest(before: QueryLineage, after: QueryLineage, x: string) {
    var b, a := Digests(before.outputs), Digests(after.outputs);
    (x in b <==> x in a) && (x in b ==> b[x] == a[x])
  }

  /** Every node's changes are among those given: its diff, or, where it has no analysis now,
      that it computes what it did. */
  ghost predicate DiffsGiven<R(!new), V(!new)>(was: Semantics<R, V>, now: Semantics<R, V>,
      earlier: map<string, QueryLineage>, g: ColumnGraph, given: set<Change>) {
    forall id :: id in g.nodes ==> DiffGiven(was, now, earlier, g.nodes[id], id, given)
  }

  ghost predicate DiffGiven<R(!new), V(!new)>(was: Semantics<R, V>, now: Semantics<R, V>,
      earlier: map<string, QueryLineage>, node: NodeLineage, id: string, given: set<Change>) {
    match node.lineage
    case None =>
        forall e: Env<R, V> ::
        was.rows(id, e) == now.rows(id, e) && forall x :: was.column(id, x, e) == now.column(id, x, e)
    case Some(after) =>
      var before := if id in earlier then Some(earlier[id]) else None;
      && (before.Some? ==> DigestsSound(was, now, id, before.value, after))
      && exists changes :: IsDiff(node.relation, before, after, changes) && changes <= given
  }

  /** What the old code computed, the new code computes too, except where a diff says so. */
  lemma OldRunIsNewRun<R(!new), V(!new)>(was: Semantics<R, V>, now: Semantics<R, V>, earlier: map<string, QueryLineage>,
      g: ColumnGraph, e: Env<R, V>, given: set<Change>)
    requires DiffsGiven(was, now, earlier, g, given) && Evaluates(g, was, e, given)
    ensures Evaluates(g, now, e, given)
  {
    hide DiffGiven;
    forall id | id in g.nodes && Rows(g.nodes[id].relation) !in given
      ensures now.rows(id, e) == was.rows(id, e)
      ensures forall x ::
          !GivenColumn(given, ColumnRef(g.nodes[id].relation, x)) ==> now.column(id, x, e) == was.column(id, x, e)
    {
      SameCode(was, now, earlier, g.nodes[id], id, e, given);
    }
  }

  lemma SameCode<R(!new), V(!new)>(was: Semantics<R, V>, now: Semantics<R, V>, earlier: map<string, QueryLineage>,
      node: NodeLineage, id: string, e: Env<R, V>, given: set<Change>)
    requires DiffGiven(was, now, earlier, node, id, given) && Rows(node.relation) !in given
    ensures now.rows(id, e) == was.rows(id, e)
    ensures forall x ::
        !GivenColumn(given, ColumnRef(node.relation, x)) ==> now.column(id, x, e) == was.column(id, x, e)
  {
    hide Distinct, Moved;
    if node.lineage.Some? {
      var after := node.lineage.value;
      var before := if id in earlier then Some(earlier[id]) else None;
      var changes :| IsDiff(node.relation, before, after, changes) && changes <= given;
      assert Incomparable(before, after) ==> Rows(node.relation) in changes;
      forall x | !GivenColumn(given, ColumnRef(node.relation, x)) ensures now.column(id, x, e) == was.column(id, x, e) {
        forall kind ensures !ChangedAs(before.value, after, x, kind) {
          assert Column(ColumnRef(node.relation, x), kind) !in given;
        }
        assert !ChangedAs(before.value, after, x, Added) && !ChangedAs(before.value, after, x, Removed) &&
            !ChangedAs(before.value, after, x, Modified);
        assert SameDigest(before.value, after, x);
      }
    }
  }

  /** Replanning by diffs is safe: run the old code, change the project, diff every node and
      propagate the diffs. Every node neither diffed nor in the worklist's report already holds
      what the new code would compute. */
  lemma ReplanIsSafe<R(!new), V(!new)>(was: Semantics<R, V>, now: Semantics<R, V>, earlier: map<string, QueryLineage>,
      g: ColumnGraph, a: Env<R, V>, b: Env<R, V>, given: set<Change>, rank: RelationName -> nat, impact: Impact,
      id: string)
    requires g.Indexed() && UniqueRelations(g) && Acyclic(g, rank) && NonInterference.Sound(g, now)
    requires DiffsGiven(was, now, earlier, g, given) && AddedThroughStars(g, given)
    requires Evaluates(g, was, a, given) && Evaluates(g, now, b, given) && SameOutside(g, a, b, given)
    requires IsImpact(g, given, impact)
    requires id in g.nodes && id !in impact.nodes && forall c :: c in given ==> c.Relation() != g.nodes[id].relation
    ensures SameTable(a, b, g.nodes[id].relation)
  {
    hide *;
    OldRunIsNewRun(was, now, earlier, g, a, given);
    assert Compared(g, now, a, b, given) by { AreCompared(g, now, a, b, given); }
    ImpactIsComplete(g, now, a, b, given, rank, impact, id);
    LeftOutIsSame(g, a, b, given, impact.nodes, id);
  }

  lemma LeftOutIsSame<R(!new), V(!new)>(g: ColumnGraph, a: Env<R, V>, b: Env<R, V>, given: set<Change>,
      report: map<string, NodeImpact>, id: string)
    requires id in g.nodes && Right(g, a, b, given, report, id)
    requires id !in report && forall c :: c in given ==> c.Relation() != g.nodes[id].relation
    ensures SameTable(a, b, g.nodes[id].relation)
  {
  }

  lemma AreCompared<R(!new), V(!new)>(g: ColumnGraph, sem: Semantics<R, V>, a: Env<R, V>, b: Env<R, V>,
      given: set<Change>)
    requires g.Indexed() && NonInterference.Sound(g, sem)
    requires Evaluates(g, sem, a, given) && Evaluates(g, sem, b, given) && SameOutside(g, a, b, given)
    requires AddedThroughStars(g, given)
    ensures Compared(g, sem, a, b, given)
  {
  }
}
