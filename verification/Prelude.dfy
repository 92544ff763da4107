/** What several components share. */
module Prelude {

  datatype Option<+T> = None | Some(value: T)

  function LowerChar(c: char): char { if 'A' <= c <= 'Z' then ((c as int) + 32) as char else c }

  /** ASCII lower case. */
  function Lower(s: string): (r: string)
    ensures |r| == |s| && forall i :: 0 <= i < |s| ==> r[i] == LowerChar(s[i])
  {
    seq(|s|, i requires 0 <= i < |s| => LowerChar(s[i]))
  }

  predicate OtherCase(upper: char, lower: char) { 'A' <= upper <= 'Z' && lower as int == upper as int + 32 }

  /** The same letters, ASCII case aside. */
  predicate SameButCase(a: string, b: string) {
    |a| == |b| && forall i :: 0 <= i < |a| ==> a[i] == b[i] || OtherCase(a[i], b[i]) || OtherCase(b[i], a[i])
  }

  lemma LowerMeans(a: string, b: string)
    ensures Lower(a) == Lower(b) <==> SameButCase(a, b)
  {
    assert |a| == |b| ==>
      forall i :: 0 <= i < |a| ==> (Lower(a)[i] == Lower(b)[i] <==> LowerChar(a[i]) == LowerChar(b[i]));
    if SameButCase(a, b) { assert Lower(a) == Lower(b); }
  }
}
