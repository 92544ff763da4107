/** The sort order of names: strings by code point, lists of strings element by element. */
module Order {

  predicate StringLe(a: string, b: string) {
    a == [] || (b != [] && (a[0] < b[0] || (a[0] == b[0] && StringLe(a[1..], b[1..]))))
  }

  lemma {:induction false} StringLeTotal(a: string, b: string)
    ensures StringLe(a, b) || StringLe(b, a)
  {
    if a != [] && b != [] && a[0] == b[0] { StringLeTotal(a[1..], b[1..]); }
  }

  lemma {:induction false} StringLeTransitive(a: string, b: string, c: string)
    requires StringLe(a, b) && StringLe(b, c)
    ensures StringLe(a, c)
  {
    if a != [] && a[0] == b[0] && b[0] == c[0] { StringLeTransitive(a[1..], b[1..], c[1..]); }
  }

  lemma {:induction false} StringLeAntisymmetric(a: string, b: string)
    requires StringLe(a, b) && StringLe(b, a)
    ensures a == b
  {
    if a != [] {
      StringLeAntisymmetric(a[1..], b[1..]);
      assert a == [a[0]] + a[1..] && b == [b[0]] + b[1..];
    }
  }

  predicate NameLe(a: seq<string>, b: seq<string>) {
    a == [] || (b != [] && StringLe(a[0], b[0]) && (a[0] == b[0] ==> NameLe(a[1..], b[1..])))
  }

  lemma {:induction false} NameLeTotal(a: seq<string>, b: seq<string>)
    ensures NameLe(a, b) || NameLe(b, a)
  {
    if a != [] && b != [] {
      StringLeTotal(a[0], b[0]);
      NameLeTotal(a[1..], b[1..]);
    }
  }

  lemma {:induction false} NameLeTransitive(a: seq<string>, b: seq<string>, c: seq<string>)
    requires NameLe(a, b) && NameLe(b, c)
    ensures NameLe(a, c)
  {
    if a != [] {
      StringLeTransitive(a[0], b[0], c[0]);
      if a[0] == c[0] {
        StringLeAntisymmetric(a[0], b[0]);
        NameLeTransitive(a[1..], b[1..], c[1..]);
      }
    }
  }

  lemma {:induction false} NameLeAntisymmetric(a: seq<string>, b: seq<string>)
    requires NameLe(a, b) && NameLe(b, a)
    ensures a == b
  {
    if a != [] {
      StringLeAntisymmetric(a[0], b[0]);
      NameLeAntisymmetric(a[1..], b[1..]);
      assert a == [a[0]] + a[1..] && b == [b[0]] + b[1..];
    }
  }

  predicate IsFirst(names: set<seq<string>>, x: seq<string>) {
    x in names && forall y :: y in names ==> NameLe(x, y)
  }

  lemma {:induction false} FirstExists(names: set<seq<string>>)
    requires names != {}
    ensures exists x :: IsFirst(names, x)
  {
    var a :| a in names;
    if names == {a} {
      NameLeTotal(a, a);
      assert IsFirst(names, a);
    } else {
      var rest := names - {a};
      assert names == rest + {a};
      FirstExists(rest);
      var b :| IsFirst(rest, b);
      NameLeTotal(a, b);
      NameLeTotal(a, a);
      var x := if NameLe(a, b) then a else b;
      forall y | y in names ensures NameLe(x, y) {
        if y != a && x == a { NameLeTransitive(a, b, y); }
      }
      assert IsFirst(names, x);
    }
  }

  lemma FirstIsUnique(names: set<seq<string>>)
    ensures forall x, y :: IsFirst(names, x) && IsFirst(names, y) ==> x == y
  {
    forall x, y | IsFirst(names, x) && IsFirst(names, y) ensures x == y { NameLeAntisymmetric(x, y); }
  }

  /** The names in sort order, each once. */
  function Listing(names: set<seq<string>>): (r: seq<seq<string>>)
    ensures forall x :: x in r <==> x in names
    ensures |r| == |names|
    ensures forall i, j :: 0 <= i < j < |r| ==> NameLe(r[i], r[j]) && r[i] != r[j]
  {
    if names == {} then [] else
    FirstExists(names);
    FirstIsUnique(names);
    var x :| IsFirst(names, x);
    [x] + Listing(names - {x})
  }
}
