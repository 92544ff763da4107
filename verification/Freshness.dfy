/** Durations as text: what is parsed is exactly what is written, within 64 bits. */
module Freshness {
  import opened Prelude

  const MAX: nat := 0x1_0000_0000_0000_0000

  predicate Digit(c: char) { '0' <= c <= '9' }

  predicate Letter(c: char) { 'a' <= c <= 'z' || 'A' <= c <= 'Z' }

  /** Which characters are white space: any classification in which digits and letters are not. */
  type Space = char -> bool

  ghost predicate Sane(space: Space) { forall c :: Digit(c) || Letter(c) ==> !space(c) }

  function DigitRun(s: string): (n: nat)
    ensures n <= |s| && (forall i :: 0 <= i < n ==> Digit(s[i])) && (n < |s| ==> !Digit(s[n]))
  {
    if s == "" || !Digit(s[0]) then 0 else 1 + DigitRun(s[1..])
  }

  function LetterRun(s: string): (n: nat)
    ensures n <= |s| && (forall i :: 0 <= i < n ==> Letter(s[i])) && (n < |s| ==> !Letter(s[n]))
  {
    if s == "" || !Letter(s[0]) then 0 else 1 + LetterRun(s[1..])
  }

  function TrimStart(space: Space, s: string): (r: string)
    ensures |r| <= |s|
  {
    if s == "" || !space(s[0]) then s else TrimStart(space, s[1..])
  }

  function TrimEnd(space: Space, s: string): string {
    if s == "" || !space(s[|s| - 1]) then s else TrimEnd(space, s[..|s| - 1])
  }

  /** Seconds in one period, by its short or long name. */
  function PeriodSeconds(period: string): (r: Option<nat>)
    ensures r.Some? ==> r.value >= 1
  {
    var p := Lower(period);
    if p in {"s", "sec", "secs", "second", "seconds"} then Some(1)
    else if p in {"m", "min", "mins", "minute", "minutes"} then Some(60)
    else if p in {"h", "hr", "hrs", "hour", "hours"} then Some(3_600)
    else if p in {"d", "day", "days"} then Some(86_400)
    else if p in {"w", "week", "weeks"} then Some(604_800)
    else None
  }

  ghost predicate OneOf(name: string, names: seq<string>) {
    exists i :: 0 <= i < |names| && SameButCase(name, names[i])
  }

  /** The names of the periods, in any case, and their seconds. */
  lemma PeriodsAre(name: string)
    ensures PeriodSeconds(name) == Some(1) <==> OneOf(name, ["s", "sec", "secs", "second", "seconds"])
    ensures PeriodSeconds(name) == Some(60) <==> OneOf(name, ["m", "min", "mins", "minute", "minutes"])
    ensures PeriodSeconds(name) == Some(60 * 60) <==> OneOf(name, ["h", "hr", "hrs", "hour", "hours"])
    ensures PeriodSeconds(name) == Some(24 * 60 * 60) <==> OneOf(name, ["d", "day", "days"])
    ensures PeriodSeconds(name) == Some(7 * 24 * 60 * 60) <==> OneOf(name, ["w", "week", "weeks"])
    ensures PeriodSeconds(name).Some? ==> PeriodSeconds(name).value in {1, 60, 3_600, 86_400, 604_800}
  {
    OneOfLower(name, ["s", "sec", "secs", "second", "seconds"]);
    OneOfLower(name, ["m", "min", "mins", "minute", "minutes"]);
    OneOfLower(name, ["h", "hr", "hrs", "hour", "hours"]);
    OneOfLower(name, ["d", "day", "days"]);
    OneOfLower(name, ["w", "week", "weeks"]);
    hide OneOf, Lower;
  }

  lemma OneOfLower(name: string, names: seq<string>)
    requires forall i :: 0 <= i < |names| ==> Lower(names[i]) == names[i]
    ensures OneOf(name, names) <==> Lower(name) in names
  {
    forall i | 0 <= i < |names| ensures SameButCase(name, names[i]) <==> Lower(name) == names[i] {
      LowerMeans(name, names[i]);
    }
    hide SameButCase, Lower;
  }

  function Value(digits: string): nat {
    if digits == "" then 0
    else
      var last := digits[|digits| - 1];
      10 * Value(digits[..|digits| - 1]) + if Digit(last) then (last as int) - ('0' as int) else 0
  }

  datatype Term = Term(count: nat, seconds: nat)

  datatype Read = Read(term: Term, rest: string)

  /** The first count and unit of a text, however large, and what follows. */
  function ReadTerm(space: Space, s: string): (r: Option<Read>)
    requires s != ""
    ensures r.Some? ==> |r.value.rest| < |s| && r.value.term.seconds >= 1
  {
    var digits := DigitRun(s);
    if digits == 0 then None
    else
      var afterCount := TrimStart(space, s[digits..]);
      var letters := LetterRun(afterCount);
      var rest := TrimStart(space, afterCount[letters..]);
      var seconds := if letters == 0 then Some(1) else PeriodSeconds(afterCount[..letters]);
      if seconds.None? then None else Some(Read(Term(Value(s[..digits]), seconds.value), rest))
  }

  /** All the counts and units a text is made of. */
  function Terms(space: Space, s: string): Option<seq<Term>>
    decreases |s|
  {
    if s == "" then Some([]) else
      var first := ReadTerm(space, s);
      if first.None? then None else
        var more := Terms(space, first.value.rest);
        if more.None? then None else Some([first.value.term] + more.value)
  }

  /** The exact, unbounded sum. */
  function Sum(terms: seq<Term>): nat { if terms == [] then 0 else terms[0].count * terms[0].seconds + Sum(terms[1..]) }

  /** A duration is a non-empty text of counts and units whose exact sum fits in 64 bits. */
  function Duration(space: Space, text: string): Option<nat> {
    var s := TrimStart(space, TrimEnd(space, text));
    var terms := Terms(space, s);
    if s == "" || terms.None? || Sum(terms.value) >= MAX then None else Some(Sum(terms.value))
  }

  // ---- the parser -------------------------------------------------------------------

  method ParseDuration(space: Space, text: string) returns (r: Option<nat>)
    ensures r == Duration(space, text)
  {
    hide ReadTerm, TrimStart, TrimEnd;
    var rest := TrimStart(space, TrimEnd(space, text));
    if rest == "" { return None; }
    ghost var all, done := Terms(space, rest), [];
    var total: nat := 0;
    PrependNothing(all);
    while rest != ""
      invariant all == Prepend(done, Terms(space, rest)) && total == Sum(done) < MAX
      decreases |rest|
    {
      var read := NextTerm(space, rest);
      if read.None? { return None; }
      ghost var more := Terms(space, read.value.rest);
      PrependMore(done, read.value.term, more);
      SumMore(done, read.value.term);
      if more.Some? { SumOfBoth(done + [read.value.term], more.value); }
      var count, seconds := read.value.term.count, read.value.term.seconds;
      if count >= MAX || count * seconds >= MAX || total + count * seconds >= MAX {
        return None;
      }
      total := total + count * seconds;
      done := done + [read.value.term];
      rest := read.value.rest;
    }
    PrependNothing(Some(done));
    r := Some(total);
  }

  /** Reads one count and unit. */
  method NextTerm(space: Space, rest: string) returns (r: Option<Read>)
    requires rest != ""
    ensures r == ReadTerm(space, rest)
  {
    var digits := 0;
    while digits < |rest| && Digit(rest[digits])
      invariant digits <= |rest| && DigitRun(rest) == digits + DigitRun(rest[digits..])
    {
      digits := digits + 1;
    }
    if digits == 0 { return None; }
    var after := TrimStart(space, rest[digits..]);
    var letters := 0;
    while letters < |after| && Letter(after[letters])
      invariant letters <= |after| && LetterRun(after) == letters + LetterRun(after[letters..])
    {
      letters := letters + 1;
    }
    var seconds := if letters == 0 then Some(1) else PeriodSeconds(after[..letters]);
    if seconds.None? { return None; }
    r := Some(Read(Term(Value(rest[..digits]), seconds.value), TrimStart(space, after[letters..])));
  }

  function Prepend(done: seq<Term>, r: Option<seq<Term>>): Option<seq<Term>> {
    if r.None? then None else Some(done + r.value)
  }

  lemma PrependMore(done: seq<Term>, t: Term, r: Option<seq<Term>>)
    ensures Prepend(done, Prepend([t], r)) == Prepend(done + [t], r)
  {
    if r.Some? { assert done + ([t] + r.value) == done + [t] + r.value; }
  }

  lemma PrependNothing(r: Option<seq<Term>>)
    ensures Prepend([], r) == r
    ensures r.Some? ==> Prepend(r.value, Some([])) == r
  {
    if r.Some? { assert [] + r.value == r.value && r.value + [] == r.value; }
  }

  lemma SumMore(terms: seq<Term>, t: Term)
    ensures Sum(terms + [t]) == Sum(terms) + t.count * t.seconds
  {
    SumOfBoth(terms, [t]);
  }

  lemma {:induction false} SumOfBoth(a: seq<Term>, b: seq<Term>)
    ensures Sum(a + b) == Sum(a) + Sum(b)
  {
    if a == [] {
      assert a + b == b;
    } else {
      assert (a + b)[1..] == a[1..] + b;
      SumOfBoth(a[1..], b);
    }
  }

  // ---- printing ---------------------------------------------------------------------

  datatype Unit = Unit(name: char, size: nat)

  const UNITS := [Unit('w', 604_800), Unit('d', 86_400), Unit('h', 3_600), Unit('m', 60), Unit('s', 1)]

  function Decimal(n: nat): (r: string)
    ensures r != "" && forall i :: 0 <= i < |r| ==> Digit(r[i])
  {
    (if n < 10 then "" else Decimal(n / 10)) + [((n % 10) + ('0' as int)) as char]
  }

  /** The rest, from the `k`th unit on, largest first. */
  function FormatFrom(rest: nat, k: nat): string
    decreases |UNITS| - k
  {
    if k >= |UNITS| then ""
    else if rest >= UNITS[k].size
        then Decimal(rest / UNITS[k].size) + [UNITS[k].name] + FormatFrom(rest % UNITS[k].size, k + 1)
    else FormatFrom(rest, k + 1)
  }

  function Formatted(seconds: nat): string { if seconds == 0 then "0s" else FormatFrom(seconds, 0) }

  method FormatDuration(seconds: nat) returns (out: string)
    ensures out == Formatted(seconds)
  {
    hide FormatFrom, Decimal;
    if seconds == 0 { return "0s"; }
    var rest: nat := seconds;
    out := "";
    assert "" + FormatFrom(rest, 0) == FormatFrom(rest, 0);
    for k := 0 to |UNITS|
      invariant Formatted(seconds) == out + FormatFrom(rest, k)
    {
      var unit := UNITS[k];
      FormatStep(rest, k);
      if rest >= unit.size {
        var part := Decimal(rest / unit.size) + [unit.name];
        assert out + (part + FormatFrom(rest % unit.size, k + 1)) == out + part + FormatFrom(rest % unit.size, k + 1);
        out := out + part;
        rest := rest % unit.size;
      }
    }
    FormatStep(rest, |UNITS|);
    assert out + "" == out;
  }

  lemma FormatStep(rest: nat, k: nat)
    ensures k >= |UNITS| ==> FormatFrom(rest, k) == ""
    ensures k < |UNITS| && rest >= UNITS[k].size ==>
      FormatFrom(rest, k) == Decimal(rest / UNITS[k].size) + [UNITS[k].name] + FormatFrom(rest % UNITS[k].size, k + 1)
    ensures k < |UNITS| && rest < UNITS[k].size ==> FormatFrom(rest, k) == FormatFrom(rest, k + 1)
  {
    hide Decimal;
  }

  // ---- there and back ---------------------------------------------------------------

  lemma {:induction false} DecimalValue(n: nat)
    ensures Value(Decimal(n)) == n
  {
    var d := Decimal(n);
    var last := ((n % 10) + ('0' as int)) as char;
    assert d[|d| - 1] == last && d[..|d| - 1] == if n < 10 then "" else Decimal(n / 10);
    if n >= 10 { DecimalValue(n / 10); }
  }

  lemma {:induction false} DigitsThen(digits: string, rest: string)
    requires (forall i :: 0 <= i < |digits| ==> Digit(digits[i])) && (rest != "" ==> !Digit(rest[0]))
    ensures DigitRun(digits + rest) == |digits|
  {
    if digits == "" {
      assert digits + rest == rest;
    } else {
      assert (digits + rest)[1..] == digits[1..] + rest;
      DigitsThen(digits[1..], rest);
    }
  }

  predicate StartsWithDigit(s: string) { s == "" || Digit(s[0]) }

  lemma UnitNames(k: nat)
    requires k < |UNITS|
    ensures Letter(UNITS[k].name) && UNITS[k].size >= 1 && PeriodSeconds([UNITS[k].name]) == Some(UNITS[k].size)
  {
    var name := UNITS[k].name;
    assert Lower([name]) == [name] by { assert [name][1..] == ""; }
  }

  /** One count and unit, followed by nothing or another count, is read back. */
  lemma TermIsRead(space: Space, count: nat, k: nat, rest: string)
    requires Sane(space) && k < |UNITS| && StartsWithDigit(rest)
    ensures ReadTerm(space, Decimal(count) + [UNITS[k].name] + rest) == Some(Read(Term(count, UNITS[k].size), rest))
  {
    hide PeriodSeconds, Decimal, Value;
    var digits, name := Decimal(count), UNITS[k].name;
    var s := digits + [name] + rest;
    UnitNames(k);
    DecimalValue(count);
    assert s == digits + ([name] + rest);
    DigitsThen(digits, [name] + rest);
    var after := s[|digits|..];
    assert after == [name] + rest && s[..|digits|] == digits;
    assert TrimStart(space, after) == after;
    assert after[1..] == rest && after[..1] == [name];
    assert LetterRun(after) == 1 + LetterRun(rest) && LetterRun(rest) == 0;
    assert TrimStart(space, rest) == rest;
  }

  lemma {:induction false} FormatIsRead(space: Space, n: nat, k: nat)
    requires Sane(space) && k <= |UNITS| && (k == |UNITS| ==> n == 0)
    ensures StartsWithDigit(FormatFrom(n, k))
    ensures Terms(space, FormatFrom(n, k)).Some? && Sum(Terms(space, FormatFrom(n, k)).value) == n
    decreases |UNITS| - k
  {
    hide ReadTerm, Decimal, Sane, FormatFrom;
    FormatStep(n, k);
    if k < |UNITS| {
      var size := UNITS[k].size;
      UnitNames(k);
      if n >= size {
        var rest := FormatFrom(n % size, k + 1);
        FormatIsRead(space, n % size, k + 1);
        TermIsRead(space, n / size, k, rest);
        var s := Decimal(n / size) + [UNITS[k].name] + rest;
        assert s == FormatFrom(n, k) && s != "" && s[0] == Decimal(n / size)[0];
        var terms := Terms(space, rest).value;
        assert Terms(space, s) == Some([Term(n / size, size)] + terms);
        assert ([Term(n / size, size)] + terms)[1..] == terms;
      } else {
        FormatIsRead(space, n, k + 1);
      }
    }
  }

  lemma {:induction false} EndsInLetter(n: nat, k: nat)
    requires k <= |UNITS|
    ensures FormatFrom(n, k) != "" ==> Letter(FormatFrom(n, k)[|FormatFrom(n, k)| - 1])
    ensures k < |UNITS| && n > 0 ==> FormatFrom(n, k) != ""
    decreases |UNITS| - k
  {
    hide Decimal;
    if k < |UNITS| {
      UnitNames(k);
      var size := UNITS[k].size;
      EndsInLetter(if n >= size then n % size else n, k + 1);
      if n < size && k + 1 == |UNITS| { assert size == 1; }
    }
  }

  /** Printing a number of seconds and parsing it gives it back, for every 64-bit number. */
  lemma PrintedIsParsed(space: Space, n: nat)
    requires Sane(space) && n < MAX
    ensures Duration(space, Formatted(n)) == Some(n)
  {
    hide Terms, FormatFrom;
    var s := Formatted(n);
    if n == 0 {
      ZeroIsRead(space);
    } else {
      FormatIsRead(space, n, 0);
      EndsInLetter(n, 0);
    }
    assert TrimEnd(space, s) == s && TrimStart(space, s) == s;
  }

  lemma ZeroIsRead(space: Space)
    requires Sane(space)
    ensures Terms(space, "0s").Some? && Sum(Terms(space, "0s").value) == 0
  {
    hide ReadTerm;
    assert Decimal(0) + [UNITS[4].name] + "" == "0s";
    TermIsRead(space, 0, 4, "");
    assert Terms(space, "0s") == Some([Term(0, 1)] + []);
  }

  /** Different numbers of seconds read differently. */
  lemma PrintingIsInjective(a: nat, b: nat)
    requires a < MAX && b < MAX && Formatted(a) == Formatted(b)
    ensures a == b
  {
    hide Duration, Formatted;
    var space := (c: char) => c == ' ';
    assert Sane(space);
    PrintedIsParsed(space, a);
    PrintedIsParsed(space, b);
  }

  // ---- whatever is written in counts and periods ------------------------------------

  /** A count and the name of a period, or none for seconds, with white space after each. */
  datatype Piece = Piece(digits: string, gap: string, name: string, after: string)
  {
    function Text(): string { digits + gap + name + after }

    function Seconds(): nat { if name == "" || PeriodSeconds(name).None? then 1 else PeriodSeconds(name).value }
  }

  /** A count of seconds needs white space before the next count. */
  ghost predicate IsPiece(space: Space, p: Piece, last: bool) {
    && p.digits != "" && (forall c :: c in p.digits ==> Digit(c)) && (forall c :: c in p.name ==> Letter(c))
    && (forall c :: c in p.gap + p.after ==> space(c))
    && (p.name != "" ==> PeriodSeconds(p.name).Some?) && (p.name == "" ==> p.after == "")
    && (if last then p.after == "" && (p.name == "" ==> p.gap == "") else p.name == "" ==> p.gap != "")
  }

  ghost predicate ArePieces(space: Space, pieces: seq<Piece>) {
    forall i :: 0 <= i < |pieces| ==> IsPiece(space, pieces[i], i == |pieces| - 1)
  }

  function Written(pieces: seq<Piece>): string { if pieces == [] then "" else pieces[0].Text() + Written(pieces[1..]) }

  function Total(pieces: seq<Piece>): nat {
    if pieces == [] then 0 else Value(pieces[0].digits) * pieces[0].Seconds() + Total(pieces[1..])
  }

  lemma {:induction false} SpacesThen(space: Space, gap: string, rest: string)
    requires (forall c :: c in gap ==> space(c)) && (rest != "" ==> !space(rest[0]))
    ensures TrimStart(space, gap + rest) == rest
  {
    if gap == "" {
      assert gap + rest == rest;
    } else {
      assert (gap + rest)[1..] == gap[1..] + rest;
      SpacesThen(space, gap[1..], rest);
    }
  }

  lemma {:induction false} LettersThen(letters: string, rest: string)
    requires (forall c :: c in letters ==> Letter(c)) && (rest != "" ==> !Letter(rest[0]))
    ensures LetterRun(letters + rest) == |letters|
  {
    if letters == "" {
      assert letters + rest == rest;
    } else {
      assert (letters + rest)[1..] == letters[1..] + rest;
      LettersThen(letters[1..], rest);
    }
  }

  lemma PieceIsRead(space: Space, p: Piece, rest: string, last: bool)
    requires Sane(space) && IsPiece(space, p, last) && StartsWithDigit(rest) && (last <==> rest == "")
    ensures ReadTerm(space, p.Text() + rest) == Some(Read(Term(Value(p.digits), p.Seconds()), rest))
  {
    hide PeriodSeconds, TrimStart, DigitRun, LetterRun, Value, Sane;
    var s, tail := p.Text() + rest, p.gap + p.name + p.after + rest;
    assert s == p.digits + tail && s[..|p.digits|] == p.digits && s[|p.digits|..] == tail;
    TailIsNoDigit(space, p, rest, tail, last);
    DigitsThen(p.digits, tail);
    var named := p.name + p.after + rest;
    assert tail == p.gap + named;
    SpacesThen(space, p.gap, named);
    assert named == p.name + (p.after + rest) && named[|p.name|..] == p.after + rest && named[..|p.name|] == p.name;
    LettersThen(p.name, p.after + rest);
    SpacesThen(space, p.after, rest);
  }

  lemma TailIsNoDigit(space: Space, p: Piece, rest: string, tail: string, last: bool)
    requires Sane(space) && IsPiece(space, p, last) && (last <==> rest == "") && StartsWithDigit(rest)
    requires tail == p.gap + p.name + p.after + rest
    ensures tail != "" ==> !Digit(tail[0])
    ensures p.name + p.after + rest != "" ==> !space((p.name + p.after + rest)[0])
    ensures p.after + rest != "" ==> !Letter((p.after + rest)[0])
    ensures rest != "" ==> !space(rest[0])
  {
    hide PeriodSeconds;
    if p.gap != "" { assert tail[0] == p.gap[0] && p.gap[0] in p.gap + p.after; }
    if p.after != "" { assert (p.after + rest)[0] == p.after[0] && p.after[0] in p.gap + p.after; }
    if p.name != "" { assert (p.name + p.after + rest)[0] == p.name[0] && p.name[0] in p.name; }
  }

  lemma {:induction false} PiecesAreRead(space: Space, pieces: seq<Piece>)
    requires Sane(space) && ArePieces(space, pieces)
    ensures StartsWithDigit(Written(pieces)) && (pieces != [] ==> Written(pieces) != "")
    ensures Terms(space, Written(pieces)).Some? && Sum(Terms(space, Written(pieces)).value) == Total(pieces)
  {
    hide ReadTerm, Value, Sane, IsPiece;
    if pieces != [] {
      var p, more := pieces[0], pieces[1..];
      assert IsPiece(space, p, 0 == |pieces| - 1);
      forall i | 0 <= i < |more| ensures IsPiece(space, more[i], i == |more| - 1) {
        assert IsPiece(space, pieces[i + 1], i + 1 == |pieces| - 1);
      }
      PiecesAreRead(space, more);
      var s, rest := Written(pieces), Written(more);
      PieceIsRead(space, p, rest, more == []);
      PieceStarts(space, p, rest, more == []);
      var terms := Terms(space, rest).value;
      assert Terms(space, s) == Some([Term(Value(p.digits), p.Seconds())] + terms);
      assert ([Term(Value(p.digits), p.Seconds())] + terms)[1..] == terms;
    }
  }

  lemma PieceStarts(space: Space, p: Piece, rest: string, last: bool)
    requires IsPiece(space, p, last)
    ensures p.Text() + rest != "" && Digit((p.Text() + rest)[0])
  {
    assert (p.Text() + rest)[0] == p.digits[0] && p.digits[0] in p.digits;
  }

  lemma {:induction false} WrittenEnds(space: Space, pieces: seq<Piece>)
    requires Sane(space) && ArePieces(space, pieces) && pieces != []
    ensures Written(pieces) != "" && !space(Written(pieces)[|Written(pieces)| - 1])
  {
    var p, more := pieces[0], pieces[1..];
    assert IsPiece(space, p, 0 == |pieces| - 1);
    if more == [] {
      var s := p.digits + p.gap + p.name + p.after;
      assert Written(pieces) == s;
      if p.name != "" {
        assert s[|s| - 1] == p.name[|p.name| - 1] && p.name[|p.name| - 1] in p.name;
      } else {
        assert s == p.digits && p.digits[|p.digits| - 1] in p.digits;
      }
    } else {
      forall i | 0 <= i < |more| ensures IsPiece(space, more[i], i == |more| - 1) {
        assert IsPiece(space, pieces[i + 1], i + 1 == |pieces| - 1);
      }
      WrittenEnds(space, more);
    }
  }

  /** Counts and periods read as their sum, however they are spaced and whatever case and length
      their names have: `2 hours`, `1h30m`, `90`. */
  lemma WrittenIsParsed(space: Space, pieces: seq<Piece>)
    requires Sane(space) && ArePieces(space, pieces) && pieces != []
    ensures Duration(space, Written(pieces)) == if Total(pieces) < MAX then Some(Total(pieces)) else None
  {
    PiecesAreRead(space, pieces);
    WrittenEnds(space, pieces);
    hide Terms, IsPiece, Written, Total;
    var s := Written(pieces);
    assert TrimEnd(space, s) == s && TrimStart(space, s) == s;
  }
}
