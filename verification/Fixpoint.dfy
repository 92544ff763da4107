/** The least set that contains a start set and is closed under a step: what a worklist
    with a `seen` set computes, whatever the order it works in. */
module Fixpoint {

  ghost predicate Closed<T(!new)>(step: T -> set<T>, s: set<T>) {
    forall x :: x in s ==> step(x) <= s
  }

  /** Everything `start` leads to in any number of steps. `bound` only shows finiteness. */
  ghost function Closure<T(!new)>(step: T -> set<T>, start: set<T>, bound: set<T>): (r: set<T>)
    requires start <= bound && Closed(step, bound)
    ensures start <= r <= bound && Closed(step, r)
    decreases |bound - start|
  {
    var next := start + set x, y | x in start && y in step(x) :: y;
    if next == start then
      assert Closed(step, start) by { StepsStay(step, start); }
      start
    else
      assert bound - next < bound - start by { Grows(start, next, bound); }
      SubsetCardinality(bound - next, bound - start);
      Closure(step, next, bound)
  }

  lemma StepsStay<T(!new)>(step: T -> set<T>, s: set<T>)
    requires s == s + set x, y | x in s && y in step(x) :: y
    ensures Closed(step, s)
  {
    forall x, y | x in s && y in step(x) ensures y in s {
      assert y in set x, y | x in s && y in step(x) :: y;
    }
  }

  lemma Grows<T>(start: set<T>, next: set<T>, bound: set<T>)
    requires start <= next <= bound && next != start
    ensures bound - next < bound - start
  {
    var x :| x in next && x !in start;
    assert x in bound - start && x !in bound - next;
  }

  lemma SubsetCardinality<T>(a: set<T>, b: set<T>)
    requires a < b
    ensures |a| < |b|
  {
    var x :| x in b && x !in a;
    assert a <= b - {x};
    CardinalityMonotone(a, b - {x});
  }

  lemma CardinalityMonotone<T>(a: set<T>, b: set<T>)
    requires a <= b
    ensures |a| <= |b|
    decreases b
  {
    if b != {} {
      var x :| x in b;
      CardinalityMonotone(a - {x}, b - {x});
    }
  }

  lemma {:induction false} ClosureIsLeast<T(!new)>(step: T -> set<T>, start: set<T>, bound: set<T>, s: set<T>)
    requires start <= bound && Closed(step, bound)
    requires start <= s && Closed(step, s)
    ensures Closure(step, start, bound) <= s
    decreases |bound - start|
  {
    var next := start + set x, y | x in start && y in step(x) :: y;
    if next != start {
      Grows(start, next, bound);
      SubsetCardinality(bound - next, bound - start);
      ClosureIsLeast(step, next, bound, s);
    }
  }

  /** A walk from a member of `start` to `x`, one step at a time. */
  ghost predicate Walk<T(!new)>(step: T -> set<T>, start: set<T>, path: seq<T>, x: T) {
    && path != [] && path[0] in start && path[|path| - 1] == x
    && forall i :: 0 < i < |path| ==> path[i] in step(path[i - 1])
  }

  lemma {:induction false} WalkStaysInClosed<T(!new)>(step: T -> set<T>, start: set<T>, path: seq<T>, x: T, s: set<T>)
    requires Walk(step, start, path, x) && start <= s && Closed(step, s)
    ensures x in s
    decreases |path|
  {
    if |path| > 1 {
      var shorter := path[..|path| - 1];
      WalkStaysInClosed(step, start, shorter, shorter[|shorter| - 1], s);
      assert path[|path| - 1] in step(path[|path| - 2]);
    }
  }

  /** The closure is exactly what a walk can reach. */
  lemma {:induction false} ClosureIsReachable<T(!new)>(step: T -> set<T>, start: set<T>, bound: set<T>, x: T)
    requires start <= bound && Closed(step, bound)
    ensures x in Closure(step, start, bound) <==> exists path :: Walk(step, start, path, x)
  {
    var all := Closure(step, start, bound);
    if path :| Walk(step, start, path, x) {
      WalkStaysInClosed(step, start, path, x, all);
    }
    var reached := set y | y in all && exists path :: Walk(step, start, path, y);
    forall y, z | y in reached && z in step(y) ensures z in reached {
      var path :| Walk(step, start, path, y);
      assert Walk(step, start, path + [z], z);
    }
    forall y | y in start ensures y in reached {
      assert Walk(step, start, [y], y);
    }
    ClosureIsLeast(step, start, bound, reached);
  }

  // ---- queues as sets ---------------------------------------------------------------

  function Elements<T>(s: seq<T>): set<T> { set x | x in s }

  lemma SkipElements<T>(seen: set<T>, queue: seq<T>)
    requires queue != [] && queue[0] in seen
    ensures seen + Elements(queue[1..]) == seen + Elements(queue)
  {
    assert Elements(queue) == {queue[0]} + Elements(queue[1..]);
  }

  lemma TakeElements<T>(seen: set<T>, queue: seq<T>, q: seq<T>, next: set<T>)
    requires queue != [] && Elements(q) == Elements(queue[1..]) + next
    ensures seen + {queue[0]} + Elements(q) == seen + Elements(queue) + next
  {
    assert Elements(queue) == {queue[0]} + Elements(queue[1..]);
  }

  lemma OneFewer<T>(all: set<T>, seen: set<T>, x: T)
    requires x in all && x !in seen && seen <= all
    ensures |all - (seen + {x})| < |all - seen|
  {
    Grows(seen, seen + {x}, all);
    SubsetCardinality(all - (seen + {x}), all - seen);
  }
}
