/** A probe's `pass` condition: the parser against its grammar, and three-valued evaluation
    against what the condition can still turn out to be. */
module Pass {
  import opened Prelude

  datatype Op = Eq | Ne | Lt | Le | Gt | Ge

  datatype Literal = Number(n: real) | Text(t: string) | Bool(b: bool)

  datatype Comparison = Comparison(column: string, op: Op, literal: Literal)

  datatype Condition = Compare(comparison: Comparison) | And(left: Condition, right: Condition) |
      Or(left: Condition, right: Condition)

  datatype Token = Ident(name: string) | NumberToken(n: real) | TextToken(t: string) | OpToken(op: Op) | Open | Close

  datatype Error =
    NothingThere | NotClosed | MustBeCompared | NeedsLiteral | OnlyNumbersOrdered | ExpectedComparison |
        SomethingFollows

  datatype Result<T> = Ok(value: T) | Err(error: Error)

  predicate Keyword(t: Token, word: string) { t.Ident? && Lower(t.name) == word }

  predicate Reserved(name: string) { Lower(name) in {"and", "or", "true", "false"} }

  function LiteralOf(t: Token): Result<Literal> {
    if t.NumberToken? then Ok(Number(t.n))
    else if t.TextToken? then Ok(Text(t.t))
    else if Keyword(t, "true") then Ok(Bool(true))
    else if Keyword(t, "false") then Ok(Bool(false))
    else Err(NeedsLiteral)
  }

  /** Only numbers can be ordered. */
  predicate Comparable(op: Op, literal: Literal) { literal.Number? || op == Eq || op == Ne }

  // ---- the grammar ------------------------------------------------------------------

  /** `column op literal`. */
  predicate IsComparison(ts: seq<Token>, c: Condition) {
    && |ts| == 3 && ts[0].Ident? && !Reserved(ts[0].name) && ts[1].OpToken?
    && LiteralOf(ts[2]).Ok? && Comparable(ts[1].op, LiteralOf(ts[2]).value)
    && c == Compare(Comparison(Lower(ts[0].name), ts[1].op, LiteralOf(ts[2]).value))
  }

  /** atom ::= `(` or `)` | comparison */
  ghost predicate DerivesAtom(ts: seq<Token>, c: Condition)
    decreases |ts|, 0
  {
    || IsComparison(ts, c)
    || (|ts| >= 2 && ts[0] == Open && ts[|ts| - 1] == Close && DerivesOr(ts[1..|ts| - 1], c))
  }

  /** and ::= and `and` atom | atom */
  ghost predicate DerivesAnd(ts: seq<Token>, c: Condition)
    decreases |ts|, 1
  {
    || DerivesAtom(ts, c)
    || (c.And? && exists k ::
        0 <= k < |ts| && Keyword(ts[k], "and") && DerivesAnd(ts[..k], c.left) && DerivesAtom(ts[k + 1..], c.right))
  }

  /** or ::= or `or` and | and */
  ghost predicate DerivesOr(ts: seq<Token>, c: Condition)
    decreases |ts|, 2
  {
    || DerivesAnd(ts, c)
    || (c.Or? && exists k ::
        0 <= k < |ts| && Keyword(ts[k], "or") && DerivesOr(ts[..k], c.left) && DerivesAnd(ts[k + 1..], c.right))
  }

  // ---- what the parser reads --------------------------------------------------------

  datatype Parsed = Parsed(condition: Condition, rest: seq<Token>)

  /** A condition was read, and strictly fewer tokens are left. */
  predicate Shortens(ts: seq<Token>, r: Result<Parsed>) { r.Ok? ==> |r.value.rest| < |ts| }

  function ReadComparison(ts: seq<Token>): (r: Result<Parsed>)
    requires |ts| > 0 && ts[0].Ident? && !Reserved(ts[0].name)
  {
    if |ts| < 2 || !ts[1].OpToken? then Err(MustBeCompared)
    else if |ts| < 3 then Err(NeedsLiteral)
    else
      var literal := LiteralOf(ts[2]);
      if literal.Err? then Err(literal.error)
      else if !Comparable(ts[1].op, literal.value) then Err(OnlyNumbersOrdered)
      else Ok(Parsed(Compare(Comparison(Lower(ts[0].name), ts[1].op, literal.value)), ts[3..]))
  }

  function ReadAtom(ts: seq<Token>): (r: Result<Parsed>)
    ensures Shortens(ts, r)
    decreases |ts|, 0
  {
    if |ts| > 0 && ts[0] == Open then
      var inner := ReadOr(ts[1..]);
      if inner.Err? then inner
      else if inner.value.rest == [] || inner.value.rest[0] != Close then Err(NotClosed)
      else Ok(Parsed(inner.value.condition, inner.value.rest[1..]))
    else if |ts| > 0 && ts[0].Ident? && !Reserved(ts[0].name) then ReadComparison(ts)
    else Err(ExpectedComparison)
  }

  function ReadAnd(ts: seq<Token>): (r: Result<Parsed>)
    ensures Shortens(ts, r)
    decreases |ts|, 1
  {
    var first := ReadAtom(ts);
    if first.Err? then first else MoreAnd(first.value.condition, first.value.rest)
  }

  function MoreAnd(left: Condition, ts: seq<Token>): (r: Result<Parsed>)
    ensures r.Ok? ==> |r.value.rest| <= |ts|
    decreases |ts|, 1
  {
    if ts == [] || !Keyword(ts[0], "and") then Ok(Parsed(left, ts)) else
      var next := ReadAtom(ts[1..]);
      if next.Err? then next else MoreAnd(And(left, next.value.condition), next.value.rest)
  }

  function ReadOr(ts: seq<Token>): (r: Result<Parsed>)
    ensures Shortens(ts, r)
    decreases |ts|, 2
  {
    var first := ReadAnd(ts);
    if first.Err? then first else MoreOr(first.value.condition, first.value.rest)
  }

  function MoreOr(left: Condition, ts: seq<Token>): (r: Result<Parsed>)
    ensures r.Ok? ==> |r.value.rest| <= |ts|
    decreases |ts|, 2
  {
    if ts == [] || !Keyword(ts[0], "or") then Ok(Parsed(left, ts)) else
      var next := ReadAnd(ts[1..]);
      if next.Err? then next else MoreOr(Or(left, next.value.condition), next.value.rest)
  }

  // ---- the parser -------------------------------------------------------------------

  class Parser {
    const tokens: seq<Token>
    var at: nat

    constructor (tokens: seq<Token>)
      ensures this.tokens == tokens && at == 0
    {
      this.tokens := tokens;
      at := 0;
    }

    /** What was read from `from`, and where the cursor is now. */
    ghost predicate Agrees(from: nat, r: Result<Condition>, read: Result<Parsed>)
      reads this
      requires from <= |tokens|
    {
      match read
      case Ok(p) => r == Ok(p.condition) && from < at <= |tokens| && tokens[at..] == p.rest
      case Err(e) => r == Err(e)
    }

    predicate AtKeyword(word: string)
      reads this
    {
      at < |tokens| && Keyword(tokens[at], word)
    }

    method ParseOr() returns (r: Result<Condition>)
      requires at <= |tokens|
      modifies this`at
      ensures Agrees(old(at), r, ReadOr(tokens[old(at)..]))
      decreases |tokens| - at, 2
    {
      hide ReadAnd, MoreOr, ReadOr, Keyword;
      ReadOrStep(tokens[at..]);
      r := ParseAnd();
      if r.Err? { return; }
      var left := r.value;
      while AtKeyword("or")
        invariant old(at) < at <= |tokens|
        invariant ReadOr(tokens[old(at)..]) == MoreOr(left, tokens[at..])
        decreases |tokens| - at
      {
        MoreOrStep(left, tokens[at..]);
        ghost var here := at;
        at := at + 1;
        assert tokens[here..][1..] == tokens[at..];
        r := ParseAnd();
        if r.Err? { return; }
        left := Or(left, r.value);
      }
      MoreOrStep(left, tokens[at..]);
      return Ok(left);
    }

    method ParseAnd() returns (r: Result<Condition>)
      requires at <= |tokens|
      modifies this`at
      ensures Agrees(old(at), r, ReadAnd(tokens[old(at)..]))
      decreases |tokens| - at, 1
    {
      hide ReadAnd, MoreAnd, ReadAtom, Keyword;
      ReadAndStep(tokens[at..]);
      r := ParseAtom();
      if r.Err? { return; }
      var left := r.value;
      while AtKeyword("and")
        invariant old(at) < at <= |tokens|
        invariant ReadAnd(tokens[old(at)..]) == MoreAnd(left, tokens[at..])
        decreases |tokens| - at
      {
        MoreAndStep(left, tokens[at..]);
        ghost var here := at;
        at := at + 1;
        assert tokens[here..][1..] == tokens[at..];
        r := ParseAtom();
        if r.Err? { return; }
        left := And(left, r.value);
      }
      MoreAndStep(left, tokens[at..]);
      return Ok(left);
    }

    method ParseAtom() returns (r: Result<Condition>)
      requires at <= |tokens|
      modifies this`at
      ensures Agrees(old(at), r, ReadAtom(tokens[old(at)..]))
      decreases |tokens| - at, 0
    {
      hide ReadOr, LiteralOf, Lower, Reserved, Comparable;
      ghost var ts := tokens[at..];
      if at >= |tokens| { return Err(ExpectedComparison); }
      var token := tokens[at];
      at := at + 1;
      assert ts[1..] == tokens[at..];
      if token == Open {
        r := ParseOr();
        if r.Err? { return; }
        if at >= |tokens| || tokens[at] != Close { return Err(NotClosed); }
        ghost var here := at;
        at := at + 1;
        assert tokens[here..][1..] == tokens[at..];
      } else if token.Ident? && !Reserved(token.name) {
        if at >= |tokens| || !tokens[at].OpToken? { return Err(MustBeCompared); }
        var op := tokens[at].op;
        at := at + 1;
        if at >= |tokens| { return Err(NeedsLiteral); }
        var literal := LiteralOf(tokens[at]);
        at := at + 1;
        assert ts[3..] == tokens[at..];
        if literal.Err? { return Err(literal.error); }
        if !Comparable(op, literal.value) { return Err(OnlyNumbersOrdered); }
        r := Ok(Compare(Comparison(Lower(token.name), op, literal.value)));
      } else {
        r := Err(ExpectedComparison);
      }
    }
  }

  /** Everything must be read. */
  function Whole(ts: seq<Token>): Result<Condition> {
    if ts == [] then Err(NothingThere) else
      var r := ReadOr(ts);
      if r.Err? then Err(r.error) else if r.value.rest != [] then Err(SomethingFollows) else Ok(r.value.condition)
  }

  /** A condition is accepted exactly when the grammar derives it from the tokens, all of them. */
  method Parse(tokens: seq<Token>) returns (r: Result<Condition>)
    ensures r == Whole(tokens)
    ensures forall c :: r == Ok(c) <==> DerivesOr(tokens, c)
  {
    forall c ensures Whole(tokens) == Ok(c) <==> DerivesOr(tokens, c) { ParsesExactly(tokens, c); }
    if tokens == [] { return Err(NothingThere); }
    var parser := new Parser(tokens);
    assert tokens[0..] == tokens;
    r := parser.ParseOr();
    if r.Ok? && parser.at < |tokens| { r := Err(SomethingFollows); }
  }

  // ---- one step at a time -----------------------------------------------------------

  lemma ReadParens(ts: seq<Token>)
    requires |ts| > 0 && ts[0] == Open
    ensures ReadAtom(ts) == var inner := ReadOr(ts[1..]);
                            if inner.Err? then inner
                            else if inner.value.rest == [] || inner.value.rest[0] != Close then Err(NotClosed)
                            else Ok(Parsed(inner.value.condition, inner.value.rest[1..]))
  {
    hide ReadOr;
  }

  lemma ReadColumn(ts: seq<Token>)
    requires |ts| > 0 && ts[0].Ident? && !Reserved(ts[0].name)
    ensures ReadAtom(ts) == ReadComparison(ts)
  {
    hide ReadOr, ReadComparison, Reserved;
  }

  lemma ReadAndStep(ts: seq<Token>)
    ensures ReadAnd(ts) == var first := ReadAtom(ts);
        if first.Err? then first else MoreAnd(first.value.condition, first.value.rest)
  {
    hide ReadAtom, MoreAnd;
  }

  lemma MoreAndStep(left: Condition, ts: seq<Token>)
    ensures (ts == [] || !Keyword(ts[0], "and")) ==> MoreAnd(left, ts) == Ok(Parsed(left, ts))
    ensures ts != [] && Keyword(ts[0], "and") ==>
      MoreAnd(left, ts) == var next := ReadAtom(ts[1..]);
          if next.Err? then next else MoreAnd(And(left, next.value.condition), next.value.rest)
  {
    hide ReadAtom, Keyword;
  }

  lemma ReadOrStep(ts: seq<Token>)
    ensures ReadOr(ts) == var first := ReadAnd(ts);
        if first.Err? then first else MoreOr(first.value.condition, first.value.rest)
  {
    hide ReadAnd, MoreOr;
  }

  lemma MoreOrStep(left: Condition, ts: seq<Token>)
    ensures (ts == [] || !Keyword(ts[0], "or")) ==> MoreOr(left, ts) == Ok(Parsed(left, ts))
    ensures ts != [] && Keyword(ts[0], "or") ==>
      MoreOr(left, ts) == var next := ReadAnd(ts[1..]);
          if next.Err? then next else MoreOr(Or(left, next.value.condition), next.value.rest)
  {
    hide ReadAnd, Keyword;
  }

  lemma AndOfAtom(ts: seq<Token>, c: Condition)
    requires DerivesAtom(ts, c)
    ensures DerivesAnd(ts, c)
  {
    hide DerivesAtom;
  }

  lemma OrOfAnd(ts: seq<Token>, c: Condition)
    requires DerivesAnd(ts, c)
    ensures DerivesOr(ts, c)
  {
    hide DerivesAnd;
  }

  lemma AndOfTwo(x: seq<Token>, a: Condition, word: Token, y: seq<Token>, b: Condition)
    requires DerivesAnd(x, a) && Keyword(word, "and") && DerivesAtom(y, b)
    ensures DerivesAnd(x + [word] + y, And(a, b))
  {
    hide DerivesAtom, Keyword;
    var ts := x + [word] + y;
    assert ts[..|x|] == x && ts[|x| + 1..] == y && ts[|x|] == word;
  }

  lemma OrOfTwo(x: seq<Token>, a: Condition, word: Token, y: seq<Token>, b: Condition)
    requires DerivesOr(x, a) && Keyword(word, "or") && DerivesAnd(y, b)
    ensures DerivesOr(x + [word] + y, Or(a, b))
  {
    hide DerivesAnd, Keyword;
    var ts := x + [word] + y;
    assert ts[..|x|] == x && ts[|x| + 1..] == y && ts[|x|] == word;
  }

  lemma AtomOfParens(inner: seq<Token>, c: Condition)
    requires DerivesOr(inner, c)
    ensures DerivesAtom([Open] + inner + [Close], c)
  {
    hide DerivesOr;
    var ts := [Open] + inner + [Close];
    assert ts[1..|ts| - 1] == inner;
  }

  /** How a list of atoms was derived: from its last two parts, if not from an atom. */
  lemma SplitAnd(ts: seq<Token>, c: Condition) returns (k: nat)
    requires DerivesAnd(ts, c) && !DerivesAtom(ts, c)
    ensures c.And? && k < |ts| && Keyword(ts[k], "and") && DerivesAnd(ts[..k], c.left) &&
        DerivesAtom(ts[k + 1..], c.right)
  {
    hide DerivesAtom, Keyword;
    k :| 0 <= k < |ts| && Keyword(ts[k], "and") && DerivesAnd(ts[..k], c.left) && DerivesAtom(ts[k + 1..], c.right);
  }

  lemma SplitOr(ts: seq<Token>, c: Condition) returns (k: nat)
    requires DerivesOr(ts, c) && !DerivesAnd(ts, c)
    ensures c.Or? && k < |ts| && Keyword(ts[k], "or") && DerivesOr(ts[..k], c.left) && DerivesAnd(ts[k + 1..], c.right)
  {
    hide DerivesAnd, Keyword;
    k :| 0 <= k < |ts| && Keyword(ts[k], "or") && DerivesOr(ts[..k], c.left) && DerivesAnd(ts[k + 1..], c.right);
  }

  lemma SplitAtom(ts: seq<Token>, c: Condition)
    requires DerivesAtom(ts, c) && !IsComparison(ts, c)
    ensures |ts| >= 2 && ts[0] == Open && ts[|ts| - 1] == Close && DerivesOr(ts[1..|ts| - 1], c)
  {
    hide DerivesOr, IsComparison;
  }

  // ---- everything derivable is read -------------------------------------------------

  lemma ComparisonIsRead(ts: seq<Token>, c: Condition, rest: seq<Token>)
    requires IsComparison(ts, c)
    ensures ReadAtom(ts + rest) == Ok(Parsed(c, rest))
  {
    hide Reserved, LiteralOf, Comparable, Lower, ReadAtom;
    var all := ts + rest;
    assert all[0] == ts[0] && all[1] == ts[1] && all[2] == ts[2] && all[3..] == rest;
    ReadColumn(all);
  }

  lemma {:induction false} AtomIsRead(ts: seq<Token>, c: Condition, rest: seq<Token>)
    requires DerivesAtom(ts, c)
    ensures ReadAtom(ts + rest) == Ok(Parsed(c, rest))
    decreases |ts|, 0
  {
    hide *;
    if IsComparison(ts, c) {
      ComparisonIsRead(ts, c, rest);
    } else {
      SplitAtom(ts, c);
      var inner, after := ts[1..|ts| - 1], [Close] + rest;
      CloseIsNoKeyword();
      OrIsRead(inner, c, after);
      ReadParens(ts + rest);
      assert (ts + rest)[1..] == inner + after && after[1..] == rest;
      MoreOrStep(c, after);
    }
  }

  lemma CloseIsNoKeyword()
    ensures !Keyword(Close, "and") && !Keyword(Close, "or")
  {
  }

  lemma {:induction false} AndIsRead(ts: seq<Token>, c: Condition, rest: seq<Token>)
    requires DerivesAnd(ts, c)
    ensures ReadAnd(ts + rest) == MoreAnd(c, rest)
    decreases |ts|, 1
  {
    hide *;
    if DerivesAtom(ts, c) {
      AtomIsRead(ts, c, rest);
      ReadAndStep(ts + rest);
    } else {
      var k := SplitAnd(ts, c);
      var after := [ts[k]] + ts[k + 1..] + rest;
      AndIsRead(ts[..k], c.left, after);
      assert ts + rest == ts[..k] + after && after[1..] == ts[k + 1..] + rest;
      AtomIsRead(ts[k + 1..], c.right, rest);
      MoreAndStep(c.left, after);
    }
  }

  lemma NotBoth(t: Token)
    ensures !(Keyword(t, "and") && Keyword(t, "or"))
  {
  }

  lemma {:induction false} OrIsRead(ts: seq<Token>, c: Condition, rest: seq<Token>)
    requires DerivesOr(ts, c) && (rest != [] ==> !Keyword(rest[0], "and"))
    ensures ReadOr(ts + rest) == MoreOr(c, rest)
    decreases |ts|, 2
  {
    hide *;
    if DerivesAnd(ts, c) {
      AndIsRead(ts, c, rest);
      ReadOrStep(ts + rest);
      MoreAndStep(c, rest);
    } else {
      var k := SplitOr(ts, c);
      var after := [ts[k]] + ts[k + 1..] + rest;
      NotBoth(ts[k]);
      OrIsRead(ts[..k], c.left, after);
      assert ts + rest == ts[..k] + after && after[1..] == ts[k + 1..] + rest;
      AndIsRead(ts[k + 1..], c.right, rest);
      MoreAndStep(c.right, rest);
      MoreOrStep(c.left, after);
    }
  }

  // ---- everything read is derivable -------------------------------------------------

  lemma ComparisonDerives(ts: seq<Token>)
    requires |ts| > 0 && ts[0].Ident? && !Reserved(ts[0].name) && ReadComparison(ts).Ok?
    ensures |ts| >= 3 && ReadComparison(ts).value.rest == ts[3..] &&
        DerivesAtom(ts[..3], ReadComparison(ts).value.condition)
  {
    hide Reserved, LiteralOf, Comparable, Lower, DerivesOr;
    assert IsComparison(ts[..3], ReadComparison(ts).value.condition);
  }

  lemma ReadAtomIsOne(ts: seq<Token>)
    requires ReadAtom(ts).Ok?
    ensures |ts| > 0 && (ts[0] == Open || (ts[0].Ident? && !Reserved(ts[0].name)))
  {
    hide ReadOr, ReadComparison, Reserved;
  }

  /** The tokens an atom was read from derive it. */
  lemma {:induction false} ReadAtomDerives(ts: seq<Token>) returns (used: seq<Token>)
    requires ReadAtom(ts).Ok?
    ensures ts == used + ReadAtom(ts).value.rest && DerivesAtom(used, ReadAtom(ts).value.condition)
    decreases |ts|, 0
  {
    hide *;
    ReadAtomIsOne(ts);
    if ts[0] == Open {
      ReadParens(ts);
      var inner := ReadOrDerives(ts[1..]);
      var c, rest := ReadOr(ts[1..]).value.condition, ReadOr(ts[1..]).value.rest;
      AtomOfParens(inner, c);
      used := [Open] + inner + [Close];
      assert rest == [Close] + rest[1..];
    } else {
      ReadColumn(ts);
      ComparisonDerives(ts);
      used := ts[..3];
    }
  }

  lemma {:induction false} ReadAndDerives(ts: seq<Token>) returns (used: seq<Token>)
    requires ReadAnd(ts).Ok?
    ensures ts == used + ReadAnd(ts).value.rest && DerivesAnd(used, ReadAnd(ts).value.condition)
    decreases |ts|, 1
  {
    hide *;
    ReadAndStep(ts);
    var first := ReadAtom(ts).value;
    var one := ReadAtomDerives(ts);
    ReadAtomShortens(ts);
    AndOfAtom(one, first.condition);
    var more := MoreAndDerives(one, first.condition, first.rest);
    used := one + more;
  }

  lemma ReadAtomShortens(ts: seq<Token>)
    requires ReadAtom(ts).Ok?
    ensures |ReadAtom(ts).value.rest| < |ts|
  {
    hide ReadAtom;
    assert Shortens(ts, ReadAtom(ts));
  }

  lemma {:induction false} MoreAndDerives(read: seq<Token>, left: Condition, ts: seq<Token>) returns (used: seq<Token>)
    requires DerivesAnd(read, left) && MoreAnd(left, ts).Ok?
    ensures ts == used + MoreAnd(left, ts).value.rest && DerivesAnd(read + used, MoreAnd(left, ts).value.condition)
    decreases |ts|, 1
  {
    hide *;
    MoreAndStep(left, ts);
    if ts == [] || !Keyword(ts[0], "and") {
      used := [];
      assert read + [] == read && ts == [] + ts;
    } else {
      var next := ReadAtom(ts[1..]).value;
      var one := ReadAtomDerives(ts[1..]);
      ReadAtomShortens(ts[1..]);
      AndOfTwo(read, left, ts[0], one, next.condition);
      var more := MoreAndDerives(read + [ts[0]] + one, And(left, next.condition), next.rest);
      used := [ts[0]] + one + more;
      assert read + used == read + [ts[0]] + one + more;
    }
  }

  lemma {:induction false} ReadOrDerives(ts: seq<Token>) returns (used: seq<Token>)
    requires ReadOr(ts).Ok?
    ensures ts == used + ReadOr(ts).value.rest && DerivesOr(used, ReadOr(ts).value.condition)
    decreases |ts|, 2
  {
    hide *;
    ReadOrStep(ts);
    var first := ReadAnd(ts).value;
    var one := ReadAndDerives(ts);
    ReadAndShortens(ts);
    OrOfAnd(one, first.condition);
    var more := MoreOrDerives(one, first.condition, first.rest);
    used := one + more;
  }

  lemma ReadAndShortens(ts: seq<Token>)
    requires ReadAnd(ts).Ok?
    ensures |ReadAnd(ts).value.rest| < |ts|
  {
    hide ReadAnd;
    assert Shortens(ts, ReadAnd(ts));
  }

  lemma {:induction false} MoreOrDerives(read: seq<Token>, left: Condition, ts: seq<Token>) returns (used: seq<Token>)
    requires DerivesOr(read, left) && MoreOr(left, ts).Ok?
    ensures ts == used + MoreOr(left, ts).value.rest && DerivesOr(read + used, MoreOr(left, ts).value.condition)
    decreases |ts|, 2
  {
    hide *;
    MoreOrStep(left, ts);
    if ts == [] || !Keyword(ts[0], "or") {
      used := [];
      assert read + [] == read && ts == [] + ts;
    } else {
      var next := ReadAnd(ts[1..]).value;
      var one := ReadAndDerives(ts[1..]);
      ReadAndShortens(ts[1..]);
      OrOfTwo(read, left, ts[0], one, next.condition);
      var more := MoreOrDerives(read + [ts[0]] + one, Or(left, next.condition), next.rest);
      used := [ts[0]] + one + more;
      assert read + used == read + [ts[0]] + one + more;
    }
  }

  /** The parser accepts exactly the grammar's token lists and returns the grammar's tree. */
  lemma ParsesExactly(ts: seq<Token>, c: Condition)
    ensures Whole(ts) == Ok(c) <==> DerivesOr(ts, c)
  {
    hide ReadOr, DerivesOr, MoreOr;
    if Whole(ts) == Ok(c) {
      var used := ReadOrDerives(ts);
      assert used + [] == used;
    }
    if DerivesOr(ts, c) {
      OrIsRead(ts, c, []);
      MoreOrStep(c, []);
      assert ts + [] == ts;
    }
  }

  /** The grammar is unambiguous: a token list derives at most one condition. */
  lemma GrammarIsUnambiguous(ts: seq<Token>, c: Condition, d: Condition)
    requires DerivesOr(ts, c) && DerivesOr(ts, d)
    ensures c == d
  {
    hide DerivesOr, Whole;
    ParsesExactly(ts, c);
    ParsesExactly(ts, d);
  }

  // ---- printing ---------------------------------------------------------------------

  predicate WellFormed(c: Condition) {
    match c
    case Compare(k) => Lower(k.column) == k.column && !Reserved(k.column) && Comparable(k.op, k.literal)
    case And(a, b) => WellFormed(a) && WellFormed(b)
    case Or(a, b) => WellFormed(a) && WellFormed(b)
  }

  function ShowLiteral(l: Literal): Token {
    match l
    case Number(n) => NumberToken(n)
    case Text(t) => TextToken(t)
    case Bool(b) => Ident(if b then "true" else "false")
  }

  /** Every comparison and every connective in parentheses. */
  function Show(c: Condition): seq<Token> {
    match c
    case Compare(k) => [Open, Ident(k.column), OpToken(k.op), ShowLiteral(k.literal), Close]
    case And(a, b) => [Open] + Show(a) + [Ident("and")] + Show(b) + [Close]
    case Or(a, b) => [Open] + Show(a) + [Ident("or")] + Show(b) + [Close]
  }

  lemma LiteralRoundTrip(l: Literal)
    ensures LiteralOf(ShowLiteral(l)) == Ok(l)
  {
    if l.Bool? { assert Lower("true") == "true" && Lower("false") == "false"; }
  }

  lemma {:induction false} ShownDerives(c: Condition)
    requires WellFormed(c)
    ensures DerivesAtom(Show(c), c)
    decreases c
  {
    hide Lower, Reserved, Comparable, LiteralOf, ShowLiteral, DerivesAtom, DerivesOr, DerivesAnd, Keyword;
    KeywordsShow();
    match c {
      case Compare(k) =>
        var inner := [Ident(k.column), OpToken(k.op), ShowLiteral(k.literal)];
        LiteralRoundTrip(k.literal);
        ComparisonIsAtom(inner, c);
        AndOfAtom(inner, c);
        OrOfAnd(inner, c);
        AtomOfParens(inner, c);
        assert Show(c) == [Open] + inner + [Close];
      case And(a, b) =>
        ShownDerives(a);
        ShownDerives(b);
        AndOfAtom(Show(a), a);
        AndOfTwo(Show(a), a, Ident("and"), Show(b), b);
        var inner := Show(a) + [Ident("and")] + Show(b);
        OrOfAnd(inner, c);
        AtomOfParens(inner, c);
        assert Show(c) == [Open] + inner + [Close];
      case Or(a, b) =>
        ShownDerives(a);
        ShownDerives(b);
        AndOfAtom(Show(a), a);
        OrOfAnd(Show(a), a);
        AndOfAtom(Show(b), b);
        OrOfTwo(Show(a), a, Ident("or"), Show(b), b);
        var inner := Show(a) + [Ident("or")] + Show(b);
        AtomOfParens(inner, c);
        assert Show(c) == [Open] + inner + [Close];
    }
  }

  lemma ComparisonIsAtom(ts: seq<Token>, c: Condition)
    requires IsComparison(ts, c)
    ensures DerivesAtom(ts, c)
  {
    hide IsComparison;
  }

  lemma KeywordsShow()
    ensures Keyword(Ident("and"), "and") && Keyword(Ident("or"), "or")
  {
    assert Lower("and") == "and" && Lower("or") == "or";
  }

  /** Reading a fully parenthesised condition gives the condition back. */
  lemma ShownIsReadBack(c: Condition)
    requires WellFormed(c)
    ensures Whole(Show(c)) == Ok(c)
  {
    hide *;
    ShownDerives(c);
    AndOfAtom(Show(c), c);
    OrOfAnd(Show(c), c);
    ParsesExactly(Show(c), c);
  }

  // ---- one comparison ---------------------------------------------------------------

  predicate IsWord(name: string) {
    SameButCase(name, "and") || SameButCase(name, "or") || SameButCase(name, "true") || SameButCase(name, "false")
  }

  /** The literal a token spells. */
  function Spelled(t: Token): Option<Literal> {
    match t
    case NumberToken(n) => Some(Number(n))
    case TextToken(text) => Some(Text(text))
    case Ident(name) =>
      if SameButCase(name, "true") then Some(Bool(true))
      else if SameButCase(name, "false") then Some(Bool(false)) else None
    case _ => None
  }

  lemma WordsAreReserved(name: string)
    ensures Reserved(name) <==> IsWord(name)
    ensures Keyword(Ident(name), "true") <==> SameButCase(name, "true")
    ensures Keyword(Ident(name), "false") <==> SameButCase(name, "false")
  {
    assert Lower("and") == "and" && Lower("or") == "or" && Lower("true") == "true" && Lower("false") == "false";
    LowerMeans(name, "and");
    LowerMeans(name, "or");
    LowerMeans(name, "true");
    LowerMeans(name, "false");
  }

  lemma LiteralsAreSpelled(t: Token)
    ensures LiteralOf(t) == if Spelled(t).Some? then Ok(Spelled(t).value) else Err(NeedsLiteral)
  {
    if t.Ident? { WordsAreReserved(t.name); }
  }

  /** A name, an operator and a third token are a condition exactly when the name is no keyword
      and the third token spells a number, or a text or truth value that is compared by `=` or
      `!=`; the column is the name in lower case. */
  lemma ThreeTokensRead(name: string, op: Op, t: Token)
    ensures var r := Whole([Ident(name), OpToken(op), t]);
      && (r.Ok? <==> !IsWord(name) && Spelled(t).Some? && (Spelled(t).value.Number? || op == Eq || op == Ne))
      && (r.Ok? ==>
            && r.value.Compare? && r.value.comparison.op == op && Some(r.value.comparison.literal) == Spelled(t)
            && SameButCase(r.value.comparison.column, name)
            && forall c :: c in r.value.comparison.column ==> !('A' <= c <= 'Z'))
  {
    var ts := [Ident(name), OpToken(op), t];
    WordsAreReserved(name);
    LiteralsAreSpelled(t);
    LowerTwice(name);
    LowerMeans(Lower(name), name);
    hide Reserved, LiteralOf, Lower, SameButCase, Spelled;
    assert ts[3..] == [];
    assert ReadAnd(ts) == ReadAtom(ts) && ReadOr(ts) == ReadAtom(ts);
  }

  /** `and` and `or` join conditions in any case. */
  lemma ConnectivesInAnyCase(a: Condition, word: string, b: Condition)
    requires WellFormed(a) && WellFormed(b)
    ensures SameButCase(word, "and") ==> Whole(Show(a) + [Ident(word)] + Show(b)) == Ok(And(a, b))
    ensures SameButCase(word, "or") ==> Whole(Show(a) + [Ident(word)] + Show(b)) == Ok(Or(a, b))
  {
    LowerMeans(word, "and");
    LowerMeans(word, "or");
    assert Lower("and") == "and" && Lower("or") == "or";
    var ts := Show(a) + [Ident(word)] + Show(b);
    assert Keyword(Ident(word), "and") <==> SameButCase(word, "and");
    assert Keyword(Ident(word), "or") <==> SameButCase(word, "or");
    hide *;
    ShownDerives(a);
    ShownDerives(b);
    AndOfAtom(Show(a), a);
    if SameButCase(word, "and") {
      AndOfTwo(Show(a), a, Ident(word), Show(b), b);
      OrOfAnd(ts, And(a, b));
      ParsesExactly(ts, And(a, b));
    }
    if SameButCase(word, "or") {
      OrOfAnd(Show(a), a);
      AndOfAtom(Show(b), b);
      OrOfTwo(Show(a), a, Ident(word), Show(b), b);
      ParsesExactly(ts, Or(a, b));
    }
  }

  lemma LowerTwice(s: string)
    ensures Lower(Lower(s)) == Lower(s)
  {
  }

  lemma ComparisonIsWellFormed(ts: seq<Token>, c: Condition)
    requires IsComparison(ts, c)
    ensures WellFormed(c)
  {
    hide LiteralOf, Comparable, Lower;
    LowerTwice(ts[0].name);
  }

  lemma {:induction false} AtomIsWellFormed(ts: seq<Token>, c: Condition)
    requires DerivesAtom(ts, c)
    ensures WellFormed(c)
    decreases |ts|, 0
  {
    hide *;
    if IsComparison(ts, c) {
      ComparisonIsWellFormed(ts, c);
    } else {
      SplitAtom(ts, c);
      OrIsWellFormed(ts[1..|ts| - 1], c);
    }
  }

  lemma {:induction false} AndIsWellFormed(ts: seq<Token>, c: Condition)
    requires DerivesAnd(ts, c)
    ensures WellFormed(c)
    decreases |ts|, 1
  {
    hide DerivesAtom, DerivesAnd, Keyword;
    if DerivesAtom(ts, c) {
      AtomIsWellFormed(ts, c);
    } else {
      var k := SplitAnd(ts, c);
      AndIsWellFormed(ts[..k], c.left);
      AtomIsWellFormed(ts[k + 1..], c.right);
    }
  }

  lemma {:induction false} OrIsWellFormed(ts: seq<Token>, c: Condition)
    requires DerivesOr(ts, c)
    ensures WellFormed(c)
    decreases |ts|, 2
  {
    hide DerivesAnd, DerivesOr, Keyword;
    if DerivesAnd(ts, c) {
      AndIsWellFormed(ts, c);
    } else {
      var k := SplitOr(ts, c);
      OrIsWellFormed(ts[..k], c.left);
      AndIsWellFormed(ts[k + 1..], c.right);
    }
  }

  /** Whatever is accepted can be printed in full parentheses and read back as the same. */
  lemma AcceptedIsReadBack(ts: seq<Token>, c: Condition)
    requires Whole(ts) == Ok(c)
    ensures WellFormed(c) && Whole(Show(c)) == Ok(c)
  {
    hide *;
    ParsesExactly(ts, c);
    OrIsWellFormed(ts, c);
    ShownIsReadBack(c);
  }

  // ---- evaluation -------------------------------------------------------------------

  datatype Verdict = Passes | Fails | Undecided

  type Row = map<string, string>

  /** How a cell is read: trimmed, and as a finite number if it is one. */
  datatype Reading = Reading(trim: string -> string, number: string -> Option<real>)

  predicate Ordered(op: Op, got: real, want: real) {
    match op
    case Eq => got == want
    case Ne => got != want
    case Lt => got < want
    case Le => got <= want
    case Gt => got > want
    case Ge => got >= want
  }

  /** The six operators mean what they say: one of `<`, `=` and `>` holds, the others are their
      negations, and a larger literal only makes `<` hold more often. */
  lemma OperatorsAreAnOrder(got: real, want: real, larger: real)
    requires want <= larger
    ensures Ordered(Ne, got, want) <==> !Ordered(Eq, got, want)
    ensures Ordered(Ge, got, want) <==> !Ordered(Lt, got, want)
    ensures Ordered(Le, got, want) <==> !Ordered(Gt, got, want)
    ensures Ordered(Le, got, want) <==> Ordered(Lt, got, want) || Ordered(Eq, got, want)
    ensures !(Ordered(Lt, got, want) && Ordered(Eq, got, want)) && Ordered(Eq, want, want)
    ensures Ordered(Lt, got, want) ==> Ordered(Lt, got, larger)
    ensures Ordered(Lt, want, larger) <==> want != larger
  {
  }

  function Decide(holds: bool): Verdict { if holds then Passes else Fails }

  function EvaluateOne(c: Comparison, row: Row, reading: Reading): Verdict {
    if c.column !in row then Undecided else
      var value := reading.trim(row[c.column]);
      match c.literal
      case Number(want) =>
        var got := reading.number(value);
        if got.Some? then Decide(Ordered(c.op, got.value, want)) else Undecided
      case Text(want) => Decide((value == want) == (c.op == Eq))
      case Bool(want) =>
        if Lower(value) == "true" then Decide((true == want) == (c.op == Eq))
        else if Lower(value) == "false" then Decide((false == want) == (c.op == Eq))
        else Undecided
  }

  function Evaluate(c: Condition, row: Row, reading: Reading): Verdict {
    match c
    case Compare(k) => EvaluateOne(k, row, reading)
    case And(a, b) =>
      var x, y := Evaluate(a, row, reading), Evaluate(b, row, reading);
      if x.Fails? || y.Fails? then Fails else if x.Undecided? || y.Undecided? then Undecided else Passes
    case Or(a, b) =>
      var x, y := Evaluate(a, row, reading), Evaluate(b, row, reading);
      if x.Passes? || y.Passes? then Passes else if x.Undecided? || y.Undecided? then Undecided else Fails
  }

  /** The cell under this column, trimmed. */
  function Cell(row: Row, column: string, reading: Reading): Option<string> {
    if column in row then Some(reading.trim(row[column])) else None
  }

  /** A number compares with the cell on the left and the literal on the right; a missing column
      or a cell that is no number decides nothing. */
  lemma NumbersCompare(column: string, op: Op, want: real, row: Row, reading: Reading)
    ensures
      var v := Evaluate(Compare(Comparison(column, op, Number(want))), row, reading);
      var cell := Cell(row, column, reading);
      && (v == Undecided <==> cell.None? || reading.number(cell.value).None?)
      && (v != Undecided ==>
            var got := reading.number(cell.value).value;
            && (op == Eq ==> (v == Passes <==> got == want)) && (op == Ne ==> (v == Passes <==> got != want))
            && (op == Lt ==> (v == Passes <==> got < want)) && (op == Le ==> (v == Passes <==> got <= want))
            && (op == Gt ==> (v == Passes <==> got > want)) && (op == Ge ==> (v == Passes <==> got >= want)))
  {
  }

  /** A text compares with the whole cell; only a missing column decides nothing. */
  lemma TextsCompare(column: string, want: string, row: Row, reading: Reading)
    ensures var cell := Cell(row, column, reading);
      && (Evaluate(Compare(Comparison(column, Eq, Text(want))), row, reading) ==
            if cell.None? then Undecided else if cell.value == want then Passes else Fails)
      && (Evaluate(Compare(Comparison(column, Ne, Text(want))), row, reading) ==
            if cell.None? then Undecided else if cell.value != want then Passes else Fails)
  {
  }

  /** The truth value a cell spells, in any case. */
  function Truth(cell: string): Option<bool> {
    if SameButCase(cell, "true") then Some(true) else if SameButCase(cell, "false") then Some(false) else None
  }

  /** A truth value compares with a cell that spells one; any other cell decides nothing. */
  lemma TruthsCompare(column: string, want: bool, row: Row, reading: Reading)
    ensures
      var cell := Cell(row, column, reading);
      var got: Option<bool> := if cell.Some? then Truth(cell.value) else None;
      && (Evaluate(Compare(Comparison(column, Eq, Bool(want))), row, reading) ==
            if got.None? then Undecided else if got.value == want then Passes else Fails)
      && (Evaluate(Compare(Comparison(column, Ne, Bool(want))), row, reading) ==
            if got.None? then Undecided else if got.value != want then Passes else Fails)
  {
    if column in row {
      LowerMeans(reading.trim(row[column]), "true");
      LowerMeans(reading.trim(row[column]), "false");
      assert Lower("true") == "true" && Lower("false") == "false";
    }
  }

  function Columns(c: Condition): set<string> {
    match c
    case Compare(k) => {k.column}
    case And(a, b) => Columns(a) + Columns(b)
    case Or(a, b) => Columns(a) + Columns(b)
  }

  /** What every comparison might really be. */
  type World = Comparison -> bool

  predicate Holds(c: Condition, world: World) {
    match c
    case Compare(k) => world(k)
    case And(a, b) => Holds(a, world) && Holds(b, world)
    case Or(a, b) => Holds(a, world) || Holds(b, world)
  }

  /** The row shows that the comparison holds, or that it does not: a number against a cell that is
      one, a text against any cell, a truth value against a cell that spells one. */
  predicate Shows(k: Comparison, row: Row, reading: Reading, holds: bool) {
    k.column in row &&
      var cell := reading.trim(row[k.column]);
      match k.literal
      case Number(want) => reading.number(cell).Some? && holds == Ordered(k.op, reading.number(cell).value, want)
      case Text(want) => holds == if k.op == Eq then cell == want else cell != want
      case Bool(want) =>
        Truth(cell).Some? && holds == if k.op == Eq then Truth(cell).value == want else Truth(cell).value != want
  }

  lemma EvaluatedIsShown(k: Comparison, row: Row, reading: Reading)
    ensures EvaluateOne(k, row, reading) == Passes <==> Shows(k, row, reading, true)
    ensures EvaluateOne(k, row, reading) == Fails <==> Shows(k, row, reading, false)
  {
    if k.column in row {
      LowerMeans(reading.trim(row[k.column]), "true");
      LowerMeans(reading.trim(row[k.column]), "false");
      assert Lower("true") == "true" && Lower("false") == "false";
    }
  }

  /** The world agrees with every comparison that the row decides. */
  ghost predicate Possible(world: World, row: Row, reading: Reading) {
    forall k :: (Shows(k, row, reading, true) ==> world(k)) && (Shows(k, row, reading, false) ==> !world(k))
  }

  lemma {:induction false} VerdictsAreCertain(c: Condition, row: Row, reading: Reading, world: World)
    requires Possible(world, row, reading)
    ensures Evaluate(c, row, reading) == Passes ==> Holds(c, world)
    ensures Evaluate(c, row, reading) == Fails ==> !Holds(c, world)
    decreases c
  {
    hide EvaluateOne, Shows;
    if c.Compare? {
      EvaluatedIsShown(c.comparison, row, reading);
    } else {
      VerdictsAreCertain(c.left, row, reading, world);
      VerdictsAreCertain(c.right, row, reading, world);
    }
  }

  /** The world in which everything undecided turns out as told. */
  function Settled(row: Row, reading: Reading, told: bool): World {
    k => if EvaluateOne(k, row, reading) == Undecided then told else EvaluateOne(k, row, reading) == Passes
  }

  lemma {:induction false} SettledDecides(c: Condition, row: Row, reading: Reading)
    ensures Holds(c, Settled(row, reading, true)) <==> Evaluate(c, row, reading) != Fails
    ensures Holds(c, Settled(row, reading, false)) <==> Evaluate(c, row, reading) == Passes
    decreases c
  {
    hide EvaluateOne;
    if !c.Compare? {
      SettledDecides(c.left, row, reading);
      SettledDecides(c.right, row, reading);
    }
  }

  /** The verdict is exactly what is certain: Passes when the condition holds however the
      undecidable comparisons turn out, Fails when it holds in no case, Undecided when both
      are still possible. */
  lemma VerdictIsExact(c: Condition, row: Row, reading: Reading)
    ensures Evaluate(c, row, reading) == Passes <==> forall w :: Possible(w, row, reading) ==> Holds(c, w)
    ensures Evaluate(c, row, reading) == Fails <==> forall w :: Possible(w, row, reading) ==> !Holds(c, w)
  {
    hide EvaluateOne, Evaluate, Holds, Shows;
    forall w | Possible(w, row, reading)
      ensures (Evaluate(c, row, reading) == Passes ==> Holds(c, w)) &&
          (Evaluate(c, row, reading) == Fails ==> !Holds(c, w))
    {
      VerdictsAreCertain(c, row, reading, w);
    }
    SettledDecides(c, row, reading);
    forall k ensures EvaluateOne(k, row, reading) == Passes <==> Shows(k, row, reading, true)
      ensures EvaluateOne(k, row, reading) == Fails <==> Shows(k, row, reading, false)
    {
      EvaluatedIsShown(k, row, reading);
    }
    assert Possible(Settled(row, reading, true), row, reading) && Possible(Settled(row, reading, false), row, reading);
  }

  /** A verdict survives any columns added to the row. */
  lemma {:induction false} VerdictSurvivesMoreColumns(c: Condition, row: Row, more: Row, reading: Reading)
    requires row.Keys <= more.Keys && forall k :: k in row ==> more[k] == row[k]
    ensures Evaluate(c, row, reading) != Undecided ==> Evaluate(c, more, reading) == Evaluate(c, row, reading)
    decreases c
  {
    if !c.Compare? {
      VerdictSurvivesMoreColumns(c.left, row, more, reading);
      VerdictSurvivesMoreColumns(c.right, row, more, reading);
    }
  }

  /** Only the columns a condition names matter to it. */
  lemma {:induction false} OnlyColumnsMatter(c: Condition, row: Row, other: Row, reading: Reading)
    requires forall k :: k in Columns(c) ==> (k in row <==> k in other) && (k in row ==> row[k] == other[k])
    ensures Evaluate(c, row, reading) == Evaluate(c, other, reading)
    decreases c
  {
    if !c.Compare? {
      OnlyColumnsMatter(c.left, row, other, reading);
      OnlyColumnsMatter(c.right, row, other, reading);
    }
  }
}
