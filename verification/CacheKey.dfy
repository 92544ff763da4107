/** The bytes a model's cache key is a digest of: everything the analysis depends on. */
module CacheKey {
  import opened Prelude
  import opened Lineage

  type Byte = x: int | 0 <= x < 256
  type Bytes = seq<Byte>

  /** The upstream relations a model declares, in order, each with its columns if known. */
  type Upstream = seq<(RelationName, Option<seq<string>>)>

  /** A text encoding that loses nothing. */
  ghost predicate Lossless(utf8: string -> Bytes) { forall a, b :: utf8(a) == utf8(b) ==> a == b }

  function Power(k: nat): nat { if k == 0 then 1 else 256 * Power(k - 1) }

  /** The low `k` bytes of `n`, least significant first. */
  function LittleEndian(n: nat, k: nat): (r: Bytes)
    ensures |r| == k
  {
    if k == 0 then [] else [n % 256] + LittleEndian(n / 256, k - 1)
  }

  lemma {:induction false} LittleEndianInjective(n: nat, m: nat, k: nat)
    requires n < Power(k) && m < Power(k) && LittleEndian(n, k) == LittleEndian(m, k)
    ensures n == m
  {
    if k > 0 {
      var a, b := LittleEndian(n, k), LittleEndian(m, k);
      assert a[0] == n % 256 && b[0] == m % 256;
      assert a[1..] == LittleEndian(n / 256, k - 1) && b[1..] == LittleEndian(m / 256, k - 1);
      LittleEndianInjective(n / 256, m / 256, k - 1);
    }
  }

  predicate Fits(b: Bytes) { |b| < Power(8) }

  /** A field: its length as eight little-endian bytes, then the bytes. */
  function Field(b: Bytes): Bytes { LittleEndian(|b|, 8) + b }

  function Fields(fs: seq<Bytes>): Bytes { if fs == [] then [] else Field(fs[0]) + Fields(fs[1..]) }

  /** Length-prefixed fields can only be split back one way. */
  lemma {:induction false} FieldsInjective(a: seq<Bytes>, b: seq<Bytes>)
    requires (forall f :: f in a ==> Fits(f)) && (forall f :: f in b ==> Fits(f)) && Fields(a) == Fields(b)
    ensures a == b
  {
    assert a != [] ==> |Fields(a)| >= 8;
    assert b != [] ==> |Fields(b)| >= 8;
    if a != [] && b != [] {
      SamePrefix(a[0], Fields(a[1..]), b[0], Fields(b[1..]));
      FieldsInjective(a[1..], b[1..]);
      assert a == [a[0]] + a[1..] && b == [b[0]] + b[1..];
    }
  }

  lemma SamePrefix(x: Bytes, s: Bytes, y: Bytes, t: Bytes)
    requires Fits(x) && Fits(y) && Field(x) + s == Field(y) + t
    ensures x == y && s == t
  {
    var whole := Field(x) + s;
    assert whole[..8] == LittleEndian(|x|, 8) && whole[..8] == LittleEndian(|y|, 8);
    LittleEndianInjective(|x|, |y|, 8);
    assert whole[8..8 + |x|] == x && whole[8..8 + |y|] == y;
    assert whole[8 + |x|..] == s && whole[8 + |y|..] == t;
  }

  // ---- which fields -----------------------------------------------------------------

  /** A relation name as shown: its parts joined by dots. */
  function Display(r: RelationName): string {
    if r == [] then "" else if |r| == 1 then r[0] else r[0] + "." + Display(r[1..])
  }

  const Tag: Bytes := [111, 100, 115, 45, 108, 105, 110, 101, 97, 103, 101, 47, 49] // ods-lineage/1
  const Unknown: Bytes := [60, 117, 110, 107, 110, 111, 119, 110, 62] // <unknown>

  function Encoded(utf8: string -> Bytes, columns: seq<string>): (r: seq<Bytes>)
    ensures |r| == |columns| && forall i :: 0 <= i < |r| ==> r[i] == utf8(columns[i])
  {
    seq(|columns|, i requires 0 <= i < |columns| => utf8(columns[i]))
  }

  function ColumnFields(utf8: string -> Bytes, columns: Option<seq<string>>): seq<Bytes> {
    match columns
    case None => [Unknown]
    case Some(c) => [LittleEndian(|c|, 8)] + Encoded(utf8, c)
  }

  function UpstreamFields(utf8: string -> Bytes, u: Upstream): seq<Bytes> {
    if u == [] then [] else [utf8(Display(u[0].0))] + ColumnFields(utf8, u[0].1) + UpstreamFields(utf8, u[1..])
  }

  function KeyFields(utf8: string -> Bytes, version: string, sql: string, u: Upstream): seq<Bytes> {
    [Tag, utf8(version), utf8(sql)] + UpstreamFields(utf8, u)
  }

  /** What is hashed. */
  function Stream(utf8: string -> Bytes, version: string, sql: string, u: Upstream): Bytes {
    Fields(KeyFields(utf8, version, sql, u))
  }

  /** Every length fits in the 64 bits it is written in. */
  predicate Sized(utf8: string -> Bytes, version: string, sql: string, u: Upstream) {
    && (forall f :: f in KeyFields(utf8, version, sql, u) ==> Fits(f))
    && forall i :: 0 <= i < |u| && u[i].1.Some? ==> |u[i].1.value| < Power(8)
  }

  /** A column list and its encoded names fit their 64-bit lengths. */
  predicate ColumnsFit(utf8: string -> Bytes, columns: seq<string>) {
    |columns| < Power(8) && forall c :: c in columns ==> Fits(utf8(c))
  }

  lemma PowerIsLarge()
    ensures Power(8) > 256
  {
    assert Power(2) == 256 * Power(1) && Power(4) == 256 * (256 * Power(2)) &&
        Power(8) == 256 * (256 * (256 * (256 * Power(4))));
  }

  lemma {:induction false} UpstreamFits(utf8: string -> Bytes, u: Upstream)
    requires forall i ::
        0 <= i < |u| ==> Fits(utf8(Display(u[i].0))) && (u[i].1.Some? ==> ColumnsFit(utf8, u[i].1.value))
    ensures forall f :: f in UpstreamFields(utf8, u) ==> Fits(f)
  {
    hide Display, Power;
    PowerIsLarge();
    if u != [] {
      UpstreamFits(utf8, u[1..]);
      forall f | f in ColumnFields(utf8, u[0].1) ensures Fits(f) {
        if u[0].1.Some? && f in Encoded(utf8, u[0].1.value) {
          var i :| 0 <= i < |u[0].1.value| && Encoded(utf8, u[0].1.value)[i] == f;
          assert u[0].1.value[i] in u[0].1.value;
        }
      }
    }
  }

  lemma FittingIsSized(utf8: string -> Bytes, version: string, sql: string, u: Upstream)
    requires Fits(utf8(version)) && Fits(utf8(sql))
    requires forall i ::
        0 <= i < |u| ==> Fits(utf8(Display(u[i].0))) && (u[i].1.Some? ==> ColumnsFit(utf8, u[i].1.value))
    ensures Sized(utf8, version, sql, u)
  {
    hide Display, Power, UpstreamFields;
    PowerIsLarge();
    UpstreamFits(utf8, u);
  }

  lemma {:induction false} FieldsAppend(a: seq<Bytes>, b: Bytes)
    ensures Fields(a + [b]) == Fields(a) + Field(b)
  {
    if a == [] {
      assert Fields([b]) == Field(b) + Fields([]);
    } else {
      FieldsAppend(a[1..], b);
      assert (a + [b])[1..] == a[1..] + [b];
    }
  }

  lemma {:induction false} UpstreamAppend(utf8: string -> Bytes, u: Upstream, x: (RelationName, Option<seq<string>>))
    ensures UpstreamFields(utf8, u + [x]) == UpstreamFields(utf8, u) + [utf8(Display(x.0))] + ColumnFields(utf8, x.1)
  {
    hide ColumnFields;
    if u == [] {
      assert u + [x] == [x] && [x][1..] == [];
    } else {
      UpstreamAppend(utf8, u[1..], x);
      assert (u + [x])[1..] == u[1..] + [x];
    }
  }

  /** Feeds one field to the digest. */
  method Feed(hashed: Bytes, field: Bytes, ghost fed: seq<Bytes>) returns (r: Bytes)
    requires hashed == Fields(fed)
    ensures r == Fields(fed + [field])
  {
    FieldsAppend(fed, field);
    r := hashed + LittleEndian(|field|, 8) + field;
    assert r == hashed + Field(field);
  }

  method FeedColumns(utf8: string -> Bytes, hashed: Bytes, columns: Option<seq<string>>, ghost fed: seq<Bytes>)
      returns (r: Bytes)
    requires hashed == Fields(fed)
    ensures r == Fields(fed + ColumnFields(utf8, columns))
  {
    match columns {
      case None => r := Feed(hashed, Unknown, fed);
      case Some(c) =>
        r := Feed(hashed, LittleEndian(|c|, 8), fed);
        ghost var all := ColumnFields(utf8, columns);
        assert all[..1] == [LittleEndian(|c|, 8)];
        for i := 0 to |c|
          invariant r == Fields(fed + all[..i + 1])
        {
          r := Feed(r, utf8(c[i]), fed + all[..i + 1]);
          assert fed + all[..i + 2] == fed + all[..i + 1] + [utf8(c[i])];
        }
        assert all[..|c| + 1] == all;
    }
  }

  lemma EmptyFields()
    ensures Fields([]) == []
  {
  }

  lemma KeyFieldsStart(utf8: string -> Bytes, version: string, sql: string)
    ensures [] + [Tag] + [utf8(version)] + [utf8(sql)] == KeyFields(utf8, version, sql, [])
  {
    assert [] + [Tag] + [utf8(version)] + [utf8(sql)] == [Tag, utf8(version), utf8(sql)] + [];
  }

  lemma KeyFieldsAppend(utf8: string -> Bytes, version: string, sql: string, u: Upstream,
      x: (RelationName, Option<seq<string>>))
    ensures KeyFields(utf8, version, sql, u) + [utf8(Display(x.0))] + ColumnFields(utf8, x.1) ==
        KeyFields(utf8, version, sql, u + [x])
  {
    hide Display, ColumnFields, UpstreamFields;
    UpstreamAppend(utf8, u, x);
    var head := [Tag, utf8(version), utf8(sql)];
    assert head + UpstreamFields(utf8, u) + [utf8(Display(x.0))] + ColumnFields(utf8, x.1)
        == head + (UpstreamFields(utf8, u) + [utf8(Display(x.0))] + ColumnFields(utf8, x.1));
  }

  /** The key a model's lineage is cached under: a digest fed field by field. */
  method Key(utf8: string -> Bytes, sha256: Bytes -> string, version: string, sql: string, u: Upstream)
      returns (key: string)
    ensures key == sha256(Stream(utf8, version, sql, u))
  {
    hide Fields, Display, UpstreamFields, ColumnFields, KeyFields;
    EmptyFields();
    var hashed := Feed([], Tag, []);
    hashed := Feed(hashed, utf8(version), [] + [Tag]);
    hashed := Feed(hashed, utf8(sql), [] + [Tag] + [utf8(version)]);
    KeyFieldsStart(utf8, version, sql);
    assert u[..0] == [];
    for k := 0 to |u|
      invariant hashed == Fields(KeyFields(utf8, version, sql, u[..k]))
    {
      ghost var fed := KeyFields(utf8, version, sql, u[..k]);
      hashed := Feed(hashed, utf8(Display(u[k].0)), fed);
      hashed := FeedColumns(utf8, hashed, u[k].1, fed + [utf8(Display(u[k].0))]);
      KeyFieldsAppend(utf8, version, sql, u[..k], u[k]);
      assert u[..k + 1] == u[..k] + [u[k]];
    }
    assert u[..|u|] == u;
    key := sha256(hashed);
  }

  // ---- what equal keys mean ---------------------------------------------------------

  /** The same relations as shown, with the same columns: known, unknown or empty alike. */
  predicate SameShown(u: Upstream, v: Upstream) {
    |u| == |v| && forall i :: 0 <= i < |u| ==> Display(u[i].0) == Display(v[i].0) && u[i].1 == v[i].1
  }

  predicate Counted(u: Upstream) { forall i :: 0 <= i < |u| && u[i].1.Some? ==> |u[i].1.value| < Power(8) }

  lemma {:induction false} UpstreamDetermined(utf8: string -> Bytes, u: Upstream, v: Upstream)
    requires Lossless(utf8) && Counted(u) && Counted(v) && UpstreamFields(utf8, u) == UpstreamFields(utf8, v)
    ensures SameShown(u, v)
    decreases |u|
  {
    if u != [] && v != [] {
      var a, b := UpstreamFields(utf8, u), UpstreamFields(utf8, v);
      assert a[0] == utf8(Display(u[0].0)) && b[0] == utf8(Display(v[0].0));
      var c, d := ColumnFields(utf8, u[0].1), ColumnFields(utf8, v[0].1);
      assert a[1] == c[0] && b[1] == d[0];
      if u[0].1.Some? && v[0].1.Some? { LittleEndianInjective(|u[0].1.value|, |v[0].1.value|, 8); }
      assert |c| == |d|;
      assert c == a[1..1 + |c|] && d == b[1..1 + |d|];
      SameColumns(utf8, u[0].1, v[0].1);
      assert a[1 + |c|..] == UpstreamFields(utf8, u[1..]) && b[1 + |d|..] == UpstreamFields(utf8, v[1..]);
      UpstreamDetermined(utf8, u[1..], v[1..]);
      forall i | 0 <= i < |u| ensures Display(u[i].0) == Display(v[i].0) && u[i].1 == v[i].1 {
        if i > 0 { assert u[i] == u[1..][i - 1] && v[i] == v[1..][i - 1]; }
      }
    }
  }

  lemma SameColumns(utf8: string -> Bytes, x: Option<seq<string>>, y: Option<seq<string>>)
    requires Lossless(utf8) && ColumnFields(utf8, x) == ColumnFields(utf8, y)
    requires x.Some? <==> y.Some?
    ensures x == y
  {
    if x.Some? {
      var c, d := x.value, y.value;
      var s, t := ColumnFields(utf8, x), ColumnFields(utf8, y);
      assert |s| == |c| + 1 && |t| == |d| + 1;
      assert |c| == |d|;
      forall i | 0 <= i < |c| ensures c[i] == d[i] {
        assert s[i + 1] == Encoded(utf8, c)[i] && t[i + 1] == Encoded(utf8, d)[i];
      }
      assert c == d;
    }
  }

  lemma {:induction false} ShownIsEnough(utf8: string -> Bytes, u: Upstream, v: Upstream)
    requires SameShown(u, v)
    ensures UpstreamFields(utf8, u) == UpstreamFields(utf8, v)
  {
    if u != [] { ShownIsEnough(utf8, u[1..], v[1..]); }
  }

  /** The bytes hashed are equal exactly when the analyzer version, the SQL and the whole
      upstream list as shown are. */
  lemma StreamDeterminesInputs(utf8: string -> Bytes, version: string, sql: string, u: Upstream, version': string,
      sql': string, v: Upstream)
    requires Lossless(utf8) && Sized(utf8, version, sql, u) && Sized(utf8, version', sql', v)
    ensures Stream(utf8, version, sql, u) == Stream(utf8, version', sql', v) <==>
      version == version' && sql == sql' && SameShown(u, v)
  {
    var a, b := KeyFields(utf8, version, sql, u), KeyFields(utf8, version', sql', v);
    if Fields(a) == Fields(b) {
      FieldsInjective(a, b);
      assert a[1] == b[1] && a[2] == b[2];
      assert a[3..] == UpstreamFields(utf8, u) && b[3..] == UpstreamFields(utf8, v);
      UpstreamDetermined(utf8, u, v);
    }
    if SameShown(u, v) { ShownIsEnough(utf8, u, v); }
  }

  // ---- names and dots ---------------------------------------------------------------

  /** A relation name has parts, and none of them holds a dot. */
  predicate Dotless(r: RelationName) { r != [] && forall p :: p in r ==> '.' !in p }

  lemma {:induction false} DisplayInjective(a: RelationName, b: RelationName)
    requires Dotless(a) && Dotless(b) && Display(a) == Display(b)
    ensures a == b
    decreases |a|
  {
    var s := Display(a);
    FirstPart(a);
    FirstPart(b);
    assert |a[0]| < |s| ==> s[|a[0]|] == '.';
    assert |b[0]| < |s| ==> s[|b[0]|] == '.';
    assert |a[0]| == |b[0]|;
    assert a[0] == s[..|a[0]|] == b[0];
    if |a| > 1 && |b| > 1 {
      assert Display(a[1..]) == s[|a[0]| + 1..] == Display(b[1..]);
      assert Dotless(a[1..]) && Dotless(b[1..]);
      DisplayInjective(a[1..], b[1..]);
      assert a == [a[0]] + a[1..] && b == [b[0]] + b[1..];
    }
  }

  lemma FirstPart(a: RelationName)
    requires Dotless(a)
    ensures |Display(a)| >= |a[0]| && Display(a)[..|a[0]|] == a[0]
    ensures |a| == 1 <==> |Display(a)| == |a[0]|
    ensures |a| > 1 ==> Display(a)[|a[0]|] == '.'
    ensures forall i :: 0 <= i < |a[0]| ==> Display(a)[i] != '.'
  {
    forall i | 0 <= i < |a[0]| ensures Display(a)[i] != '.' { assert a[0][i] in a[0]; }
  }

  /** Without dots in names, equal keys mean equal inputs. */
  lemma KeyIsInjective(utf8: string -> Bytes, version: string, sql: string, u: Upstream, version': string, sql': string,
      v: Upstream)
    requires Lossless(utf8) && Sized(utf8, version, sql, u) && Sized(utf8, version', sql', v)
    requires (forall i :: 0 <= i < |u| ==> Dotless(u[i].0)) && (forall i :: 0 <= i < |v| ==> Dotless(v[i].0))
    requires Stream(utf8, version, sql, u) == Stream(utf8, version', sql', v)
    ensures version == version' && sql == sql' && u == v
  {
    StreamDeterminesInputs(utf8, version, sql, u, version', sql', v);
    forall i | 0 <= i < |u| ensures u[i] == v[i] { DisplayInjective(u[i].0, v[i].0); }
  }

  /** With a dot inside a part, two different relations share a key. */
  lemma DottedNamesCollide(utf8: string -> Bytes, version: string, sql: string, columns: Option<seq<string>>)
    ensures ["a.b"] != ["a", "b"]
    ensures Stream(utf8, version, sql, [(["a.b"], columns)]) == Stream(utf8, version, sql, [(["a", "b"], columns)])
  {
    assert Display(["a", "b"]) == "a" + "." + Display(["b"]) by { assert ["a", "b"][1..] == ["b"]; }
    ShownIsEnough(utf8, [(["a.b"], columns)], [(["a", "b"], columns)]);
  }
}
