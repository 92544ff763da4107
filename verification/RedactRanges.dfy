/** What opens a span and where it ends, by positions of the line: a scrubbed line is the line
    without exactly those ranges. */
module RedactRanges {
  import opened Prelude
  import opened Redact

  /** The positions from `from` up to `to`. */
  datatype Range = Range(from: nat, to: nat)

  ghost predicate WordAt(alnum: Alphabet, line: string, i: nat)
    requires i < |line|
  {
    alnum(line[i]) || line[i] == '_'
  }

  ghost predicate AllWord(alnum: Alphabet, line: string, i: nat, j: nat)
    requires j <= |line|
  {
    forall k :: i <= k < j ==> WordAt(alnum, line, k)
  }

  // ---- what opens a span ------------------------------------------------------------

  /** The word before `p` starts at `start`. */
  ghost predicate WordBefore(alnum: Alphabet, line: string, start: nat, p: nat)
    requires p <= |line|
  {
    start <= p && AllWord(alnum, line, start, p) && (start == 0 || !WordAt(alnum, line, start - 1))
  }

  ghost predicate IsPrefix(word: string) {
    || SameButCase(word, "b") || SameButCase(word, "br") || SameButCase(word, "e") || SameButCase(word, "n")
    || SameButCase(word, "r") || SameButCase(word, "rb") || SameButCase(word, "u") || SameButCase(word, "x")
  }

  /** A `'` after a word may still open a literal: the word is a string prefix, or the word after
      the `'` runs into another one. */
  ghost predicate MayOpen(alnum: Alphabet, line: string, p: nat)
    requires p < |line|
  {
    || (exists start: nat :: WordBefore(alnum, line, start, p) && IsPrefix(line[start..p]))
    || (exists e: nat :: p + 1 < e < |line| && AllWord(alnum, line, p + 1, e) && line[e] == '\'')
  }

  /** A dollar tag from `p` to `e`, both `$`. */
  ghost predicate TagAt(alnum: Alphabet, line: string, p: nat, e: nat) {
    p < e < |line| && line[p] == '$' && line[e] == '$' && AllWord(alnum, line, p + 1, e)
  }

  ghost predicate AfterWordAt(alnum: Alphabet, line: string, p: nat)
    requires p < |line|
  {
    p > 0 && WordAt(alnum, line, p - 1)
  }

  ghost predicate Opens(alnum: Alphabet, line: string, p: nat)
    requires p < |line|
  {
    || line[p] == '"' || line[p] == '`'
    || (line[p] == '\'' && (AfterWordAt(alnum, line, p) ==> MayOpen(alnum, line, p)))
    || exists e: nat :: TagAt(alnum, line, p, e)
  }

  // ---- where it ends ----------------------------------------------------------------

  /** At `k` a run of the quote at `p` ends that is odd: quotes inside a span come in pairs. */
  ghost predicate OddRun(line: string, p: nat, k: nat)
    requires p < k < |line|
  {
    (k + 1 == |line| || line[k + 1] != line[p]) && exists j: nat :: RunFrom(line, p, j, k) && (k - j) % 2 == 0
  }

  ghost predicate RunFrom(line: string, p: nat, j: nat, k: nat)
    requires p < k < |line|
  {
    p < j <= k && (forall i :: j <= i <= k ==> line[i] == line[p]) && (j == p + 1 || line[j - 1] != line[p])
  }

  /** The first quote after `p`, of the same kind, that is not doubled. */
  ghost predicate QuoteCloses(line: string, p: nat, k: nat) {
    p < k < |line| && OddRun(line, p, k) && forall i :: p < i < k ==> !OddRun(line, p, i)
  }

  ghost predicate Occurs(tag: string, s: string, k: nat) { k + |tag| <= |s| && s[k..k + |tag|] == tag }

  ghost predicate FirstAfter(tag: string, s: string, e: nat, k: nat) {
    e < k && Occurs(tag, s, k) && forall i: nat :: e < i < k ==> !Occurs(tag, s, i)
  }

  /** The first tag like that from `p` to `e`, after it. */
  ghost predicate TagCloses(line: string, p: nat, e: nat, k: nat)
    requires p <= e < |line|
  {
    FirstAfter(line[p..e + 1], line, e, k)
  }

  ghost predicate QuoteSpan(alnum: Alphabet, line: string, p: nat, k: nat)
    requires p < |line|
  {
    && Quote(line[p]) && (line[p] == '\'' ==> !AfterWordAt(alnum, line, p))
    && QuoteCloses(line, p, k) && line[k - 1] != '\\' && (k + 1 < |line| ==> !alnum(line[k + 1]))
  }

  ghost predicate TagSpan(alnum: Alphabet, line: string, p: nat, to: nat)
    requires p < |line|
  {
    exists e: nat :: TagAt(alnum, line, p, e) && to >= e + 1 - p && TagCloses(line, p, e, to - (e + 1 - p))
  }

  /** A span that can be read goes from `p` up to `to`. */
  ghost predicate SpanAt(alnum: Alphabet, line: string, p: nat, to: nat)
    requires p < |line|
  {
    (to > 0 && QuoteSpan(alnum, line, p, to - 1)) || TagSpan(alnum, line, p, to)
  }

  // ---- the scanner reads it so ------------------------------------------------------

  lemma RunAt(alnum: Alphabet, line: string, p: nat, e: nat)
    requires Sane(alnum) && p < |line|
    ensures line[p] == '$' ==>
      (TagAt(alnum, line, p, e) <==> e == p + 1 + Run(alnum, line[p + 1..]) < |line| && line[e] == '$')
    ensures p + 1 <= e < |line| && !WordAt(alnum, line, e) ==>
      (AllWord(alnum, line, p + 1, e) <==> e == p + 1 + Run(alnum, line[p + 1..]))
  {
    var after := line[p + 1..];
    var n := Run(alnum, after);
    assert forall i :: p + 1 <= i < |line| ==> line[i] == after[i - p - 1];
    forall k | p + 1 <= k < p + 1 + n ensures WordAt(alnum, line, k) { assert Word(alnum, after[k - p - 1]); }
    assert p + 1 + n < |line| ==> !WordAt(alnum, line, p + 1 + n);
  }

  lemma {:induction false} LastWordIs(alnum: Alphabet, line: string, start: nat, p: nat)
    requires p <= |line| && WordBefore(alnum, line, start, p)
    ensures LastWord(alnum, line[..p]) == line[start..p]
    decreases p
  {
    var s := line[..p];
    if start < p {
      assert WordAt(alnum, line, p - 1);
      assert WordBefore(alnum, line, start, p - 1);
      LastWordIs(alnum, line, start, p - 1);
      assert s[..p - 1] == line[..p - 1] && line[start..p] == line[start..p - 1] + [line[p - 1]];
    }
  }

  lemma {:induction false} SomeWordBefore(alnum: Alphabet, line: string, p: nat) returns (start: nat)
    requires p <= |line|
    ensures WordBefore(alnum, line, start, p)
  {
    if p == 0 || !WordAt(alnum, line, p - 1) {
      start := p;
    } else {
      start := SomeWordBefore(alnum, line, p - 1);
    }
  }

  lemma PrefixesAre(word: string)
    ensures Lower(word) in PREFIXES <==> IsPrefix(word)
  {
    assert Lower("b") == "b" && Lower("br") == "br" && Lower("e") == "e" && Lower("n") == "n";
    assert Lower("r") == "r" && Lower("rb") == "rb" && Lower("u") == "u" && Lower("x") == "x";
    LowerMeans(word, "b");
    LowerMeans(word, "br");
    LowerMeans(word, "e");
    LowerMeans(word, "n");
    LowerMeans(word, "r");
    LowerMeans(word, "rb");
    LowerMeans(word, "u");
    LowerMeans(word, "x");
  }

  lemma PrefixedAt(alnum: Alphabet, line: string, p: nat)
    requires Sane(alnum) && p < |line|
    ensures Prefixed(alnum, line[..p], line[p + 1..]) <==> MayOpen(alnum, line, p)
  {
    var start := SomeWordBefore(alnum, line, p);
    LastWordIs(alnum, line, start, p);
    PrefixesAre(line[start..p]);
    forall other: nat | WordBefore(alnum, line, other, p) ensures line[other..p] == line[start..p] {
      LastWordIs(alnum, line, other, p);
    }
    var e := p + 1 + Run(alnum, line[p + 1..]);
    hide Run, LastWord, Lower, IsPrefix;
    assert e < |line| ==> line[p + 1..][e - p - 1] == line[e];
    RunAt(alnum, line, p, e);
    forall f: nat | p + 1 < f < |line| && AllWord(alnum, line, p + 1, f) && line[f] == '\'' ensures f == e {
      RunAt(alnum, line, p, f);
    }
  }

  lemma {:induction false} TagFromIsFirst(tag: string, s: string, k: nat, v: nat)
    requires tag != ""
    ensures TagFrom(tag, s, k) == Some(v) <==>
      k <= v && Occurs(tag, s, v) && forall i :: k <= i < v ==> !Occurs(tag, s, i)
    decreases |s| - k
  {
    if k + |tag| <= |s| && s[k..k + |tag|] != tag {
      assert !Occurs(tag, s, k);
      TagFromIsFirst(tag, s, k + 1, v);
    } else {
      assert Occurs(tag, s, k) <==> k + |tag| <= |s|;
    }
  }

  lemma OccursShifted(tag: string, s: string, p: nat, i: nat)
    requires p <= |s| && p <= i
    ensures Occurs(tag, s, i) <==> Occurs(tag, s[p..], i - p)
  {
    if i + |tag| <= |s| { assert s[p..][i - p..i - p + |tag|] == s[i..i + |tag|]; }
  }

  lemma FirstShifted(tag: string, line: string, rest: string, p: nat, e: nat, k: nat)
    requires p <= e < k && Occurs(tag, line, k) == Occurs(tag, rest, k - p)
    requires forall i | e < i < k :: Occurs(tag, line, i) <==> Occurs(tag, rest, i - p)
    ensures FirstAfter(tag, line, e, k) <==>
      Occurs(tag, rest, k - p) && forall i :: e + 1 - p <= i < k - p ==> !Occurs(tag, rest, i)
  {
    hide Occurs;
    if FirstAfter(tag, line, e, k) {
      forall i | e + 1 - p <= i < k - p ensures !Occurs(tag, rest, i) { assert !Occurs(tag, line, i + p); }
    } else if Occurs(tag, line, k) {
      var i: nat :| e < i < k && Occurs(tag, line, i);
      assert Occurs(tag, rest, i - p);
    }
  }

  lemma TagClosesIs(line: string, p: nat, e: nat, k: nat)
    requires p <= e < k && e < |line|
    ensures TagCloses(line, p, e, k) <==> TagFrom(line[p..e + 1], line[p..], e + 1 - p) == Some(k - p)
  {
    FirstAfterIs(line[p..e + 1], line, line[p..], p, e, k);
  }

  lemma FirstAfterIs(tag: string, line: string, rest: string, p: nat, e: nat, k: nat)
    requires tag != "" && p <= e < k && e < |line| && rest == line[p..]
    ensures FirstAfter(tag, line, e, k) <==> TagFrom(tag, rest, e + 1 - p) == Some(k - p)
  {
    TagFromIsFirst(tag, rest, e + 1 - p, k - p);
    forall i: nat | p <= i ensures Occurs(tag, line, i) <==> Occurs(tag, rest, i - p) {
      OccursShifted(tag, line, p, i);
    }
    hide Occurs, TagFrom, FirstAfter;
    FirstShifted(tag, line, rest, p, e, k);
  }

  lemma TagSpanIs(alnum: Alphabet, line: string, p: nat, e: nat, to: nat)
    requires p < e < |line| && forall f: nat :: TagAt(alnum, line, p, f) <==> f == e
    ensures TagSpan(alnum, line, p, to) <==>
      to > e && TagFrom(line[p..e + 1], line[p..], e + 1 - p) == Some(to - e - 1)
  {
    OneTag(alnum, line, p, e, to);
    hide *;
    if to > e + (e + 1 - p) {
      TagClosesIs(line, p, e, to - (e + 1 - p));
    } else {
      TooSoon(line, p, e, to);
    }
  }

  lemma OnlyTag(alnum: Alphabet, line: string, p: nat, n: nat)
    requires Sane(alnum) && p < |line| && line[p] == '$' && n == Run(alnum, line[p + 1..])
    ensures forall e: nat :: TagAt(alnum, line, p, e) <==> e == p + 1 + n < |line| && line[e] == '$'
  {
    forall e: nat ensures TagAt(alnum, line, p, e) <==> e == p + 1 + n < |line| && line[e] == '$' {
      RunAt(alnum, line, p, e);
    }
  }

  lemma OneTag(alnum: Alphabet, line: string, p: nat, e: nat, to: nat)
    requires p < e < |line| && forall f: nat :: TagAt(alnum, line, p, f) <==> f == e
    ensures TagSpan(alnum, line, p, to) <==> to >= e + 1 - p && TagCloses(line, p, e, to - (e + 1 - p))
  {
    hide TagAt, TagCloses;
    if f: nat :| TagAt(alnum, line, p, f) && to >= f + 1 - p && TagCloses(line, p, f, to - (f + 1 - p)) {
      assert f == e;
    }
    assert TagAt(alnum, line, p, e);
  }

  lemma TooSoon(line: string, p: nat, e: nat, to: nat)
    requires p <= e < |line| && to <= e + (e + 1 - p)
    ensures to >= e + 1 - p ==> !TagCloses(line, p, e, to - (e + 1 - p))
    ensures to > e ==> TagFrom(line[p..e + 1], line[p..], e + 1 - p) != Some(to - e - 1)
  {
  }

  lemma RunStartsOnce(line: string, p: nat, j: nat, i: nat, k: nat)
    requires p < k < |line| && RunFrom(line, p, j, k) && RunFrom(line, p, i, k)
    ensures i == j
  {
  }

  lemma OnlyRun(line: string, p: nat, j: nat, k: nat)
    requires p < k < |line| && RunFrom(line, p, j, k) && (k - j) % 2 == 1
    ensures !OddRun(line, p, k)
  {
    if i: nat :| RunFrom(line, p, i, k) && (k - i) % 2 == 0 { RunStartsOnce(line, p, j, i, k); }
  }

  /** The quotes directly before `k` come in pairs. */
  ghost predicate PairsBefore(line: string, p: nat, k: nat)
    requires p < k <= |line|
  {
    exists j: nat :: PairsFrom(line, p, j, k)
  }

  ghost predicate PairsFrom(line: string, p: nat, j: nat, k: nat)
    requires p < k <= |line|
  {
    && p < j <= k && (k - j) % 2 == 0 && (forall i :: j <= i < k ==> line[i] == line[p])
    && (j == p + 1 || line[j - 1] != line[p])
  }

  lemma {:induction false} CloseFromIsFirst(line: string, p: nat, k: nat, v: nat)
    requires p < k <= |line| && PairsBefore(line, p, k)
    ensures CloseFrom(line[p], line[p..], k - p) == Some(v) <==>
      k <= p + v < |line| && OddRun(line, p, p + v) && forall i :: k <= i < p + v ==> !OddRun(line, p, i)
    decreases |line| - k
  {
    var rest, q := line[p..], line[p];
    var j: nat :| PairsFrom(line, p, j, k);
    if k < |line| {
      assert rest[k - p] == line[k];
      if line[k] != q {
        assert !OddRun(line, p, k);
        assert PairsFrom(line, p, k + 1, k + 1);
        CloseFromIsFirst(line, p, k + 1, v);
      } else if k + 1 < |line| && line[k + 1] == q {
        assert RunFrom(line, p, j, k + 1);
        OnlyRun(line, p, j, k + 1);
        assert !OddRun(line, p, k) && !OddRun(line, p, k + 1);
        assert PairsFrom(line, p, j, k + 2);
        CloseFromIsFirst(line, p, k + 2, v);
      } else {
        assert RunFrom(line, p, j, k);
        assert OddRun(line, p, k);
      }
    }
  }

  lemma QuoteCloseIs(line: string, p: nat, v: nat)
    requires p < |line|
    ensures CloseFrom(line[p], line[p..], 1) == Some(v) <==> QuoteCloses(line, p, p + v)
  {
    assert PairsFrom(line, p, p + 1, p + 1);
    CloseFromIsFirst(line, p, p + 1, v);
  }

  /** The scanner keeps what opens nothing, and takes each span that can be read for what it is. */
  lemma NextAt(alnum: Alphabet, line: string, p: nat, to: nat)
    requires Sane(alnum) && p < |line|
    ensures Next(alnum, line[..p], line[p..]) == Keep <==> !Opens(alnum, line, p)
    ensures SpanAt(alnum, line, p, to) <==> to > p && Next(alnum, line[..p], line[p..]) == Span(to - p)
  {
    if line[p] == '$' {
      DollarAt(alnum, line, p, to);
    } else {
      QuoteAt(alnum, line, p, to);
    }
  }

  lemma DollarAt(alnum: Alphabet, line: string, p: nat, to: nat)
    requires Sane(alnum) && p < |line| && line[p] == '$'
    ensures Next(alnum, line[..p], line[p..]) == Keep <==> !Opens(alnum, line, p)
    ensures SpanAt(alnum, line, p, to) <==> to > p && Next(alnum, line[..p], line[p..]) == Span(to - p)
  {
    DollarSpans(alnum, line, p, to);
    NextAtDollar(alnum, line[..p], line[p..]);
    var e := p + 1 + Run(alnum, line[p + 1..]);
    OnlyTag(alnum, line, p, e - p - 1);
    TailsAgree(line, p, e);
    hide *;
    if e < |line| && line[e] == '$' {
      assert TagAt(alnum, line, p, e);
      TagTaken(alnum, line, p, e, Next(alnum, line[..p], line[p..]), to);
    } else {
      NoTagSpan(alnum, line, p, to);
    }
  }

  lemma TagTaken(alnum: Alphabet, line: string, p: nat, e: nat, next: Step, to: nat)
    requires p < e < |line| && forall f: nat :: TagAt(alnum, line, p, f) <==> f == e
    requires
      var close := TagFrom(line[p..e + 1], line[p..], e + 1 - p);
      next == if close.Some? then Span(close.value + e + 1 - p) else Unreadable
    ensures next != Keep && (TagSpan(alnum, line, p, to) <==> to > p && next == Span(to - p))
  {
    TagSpanIs(alnum, line, p, e, to);
    hide *;
  }

  lemma TailsAgree(line: string, p: nat, e: nat)
    requires p < |line| && p < e
    ensures line[p..][1..] == line[p + 1..]
    ensures e < |line| ==> line[p..][e - p] == line[e] && line[p..][..e - p + 1] == line[p..e + 1]
  {
  }

  lemma NextAtDollar(alnum: Alphabet, before: string, rest: string)
    requires rest != "" && rest[0] == '$'
    ensures
      var n := 1 + Run(alnum, rest[1..]);
      && (n >= |rest| || rest[n] != '$' ==> Next(alnum, before, rest) == Keep)
      && (n < |rest| && rest[n] == '$' ==>
            var close := TagFrom(rest[..n + 1], rest, n + 1);
            Next(alnum, before, rest) == if close.Some? then Span(close.value + n + 1) else Unreadable)
  {
    NextIsDollar(alnum, before, rest);
    hide Next, Run, TagFrom;
  }

  lemma NextIsDollar(alnum: Alphabet, before: string, rest: string)
    requires rest != "" && rest[0] == '$'
    ensures Next(alnum, before, rest) == Dollar(alnum, rest)
  {
    hide Dollar, Prefixed;
  }

  lemma NextIsQuoted(alnum: Alphabet, before: string, rest: string)
    requires rest != "" && rest[0] != '$'
    ensures Next(alnum, before, rest) ==
      if AfterWord(alnum, before, rest[0]) && Prefixed(alnum, before, rest[1..]) then Unreadable
      else if !Quote(rest[0]) || AfterWord(alnum, before, rest[0]) then Keep
      else Quoted(alnum, rest)
  {
    hide Quoted, Prefixed, AfterWord, Quote;
  }

  lemma DollarSpans(alnum: Alphabet, line: string, p: nat, to: nat)
    requires p < |line| && line[p] == '$'
    ensures Opens(alnum, line, p) <==> exists e: nat :: TagAt(alnum, line, p, e)
    ensures SpanAt(alnum, line, p, to) <==> TagSpan(alnum, line, p, to)
  {
    hide TagAt, TagSpan, QuoteCloses;
  }

  lemma NoTagSpan(alnum: Alphabet, line: string, p: nat, to: nat)
    requires p < |line| && forall e: nat :: !TagAt(alnum, line, p, e)
    ensures !TagSpan(alnum, line, p, to)
  {
  }

  lemma QuoteAt(alnum: Alphabet, line: string, p: nat, to: nat)
    requires Sane(alnum) && p < |line| && line[p] != '$'
    ensures Next(alnum, line[..p], line[p..]) == Keep <==> !Opens(alnum, line, p)
    ensures SpanAt(alnum, line, p, to) <==> to > p && Next(alnum, line[..p], line[p..]) == Span(to - p)
  {
    NextIsQuoted(alnum, line[..p], line[p..]);
    PrefixedAt(alnum, line, p);
    AfterWordIs(alnum, line, p);
    QuoteOpens(alnum, line, p);
    QuoteSpans(alnum, line, p, to);
    if to > p { QuotedAt(alnum, line, p, to); }
    assert line[p..][0] == line[p] && line[p..][1..] == line[p + 1..];
    QuotedIsNoText(alnum, line[p..]);
    hide *;
  }

  lemma QuotedIsNoText(alnum: Alphabet, rest: string)
    requires rest != ""
    ensures Quoted(alnum, rest) != Keep
  {
  }

  lemma AfterWordIs(alnum: Alphabet, line: string, p: nat)
    requires p < |line|
    ensures AfterWord(alnum, line[..p], line[p]) <==> line[p] == '\'' && AfterWordAt(alnum, line, p)
  {
  }

  lemma QuoteOpens(alnum: Alphabet, line: string, p: nat)
    requires p < |line| && line[p] != '$'
    ensures Opens(alnum, line, p) <==>
      Quote(line[p]) && (line[p] == '\'' ==> (AfterWordAt(alnum, line, p) ==> MayOpen(alnum, line, p)))
  {
    hide MayOpen, AfterWordAt;
  }

  lemma QuoteSpans(alnum: Alphabet, line: string, p: nat, to: nat)
    requires p < |line| && line[p] != '$'
    ensures SpanAt(alnum, line, p, to) <==>
      && to > p && Quote(line[p]) && (line[p] == '\'' ==> !AfterWordAt(alnum, line, p)) && Closes(alnum, line, p, to)
  {
    NoTagSpan(alnum, line, p, to);
    hide QuoteCloses, AfterWordAt, TagSpan;
  }

  /** The quote at `p` has its close just before `to`, and nothing puts that in doubt. */
  ghost predicate Closes(alnum: Alphabet, line: string, p: nat, to: nat) {
    p + 1 < to <= |line| && QuoteCloses(line, p, to - 1) && line[to - 2] != '\\' && (to < |line| ==> !alnum(line[to]))
  }

  lemma QuotedAt(alnum: Alphabet, line: string, p: nat, to: nat)
    requires p < |line| && p < to
    ensures Quoted(alnum, line[p..]) == Span(to - p) <==> Closes(alnum, line, p, to)
  {
    QuoteCloseIs(line, p, to - 1 - p);
    var rest := line[p..];
    assert rest[0] == line[p] && forall v :: 0 <= v < |rest| ==> rest[v] == line[p + v];
    hide CloseFrom, QuoteCloses;
  }

  // ---- a whole line -----------------------------------------------------------------

  ghost predicate Covered(ranges: seq<Range>, p: nat) {
    exists i :: 0 <= i < |ranges| && ranges[i].from <= p < ranges[i].to
  }

  /** From `from` on, the line is read as text around exactly these spans, up to its end or to an
      opening at `stop` whose end cannot be told. */
  ghost predicate ReadAs(alnum: Alphabet, line: string, from: nat, ranges: seq<Range>, stop: nat) {
    && from <= stop <= |line|
    && (forall i :: 0 <= i < |ranges| ==>
          from <= ranges[i].from < ranges[i].to <= stop && SpanAt(alnum, line, ranges[i].from, ranges[i].to))
    && (forall i, j :: 0 <= i < j < |ranges| ==> ranges[i].to <= ranges[j].from)
    && (forall p: nat :: from <= p < stop && !Covered(ranges, p) ==> !Opens(alnum, line, p))
    && (stop < |line| ==> Opens(alnum, line, stop) && forall to: nat :: !SpanAt(alnum, line, stop, to))
  }

  /** The line from `from` on, with a mark in the place of each range. */
  function Without(line: string, from: nat, ranges: seq<Range>): string
    decreases |ranges|
  {
    if ranges == [] then if from <= |line| then line[from..] else ""
    else
      var r := ranges[0];
      (if from <= r.from <= |line| then line[from..r.from] else "") + "[value removed]" +
          Without(line, r.to, ranges[1..])
  }

  function FirstStop(ranges: seq<Range>, stop: nat): nat { if ranges == [] then stop else ranges[0].from }

  lemma SpanIsLong(alnum: Alphabet, line: string, p: nat, to: nat)
    requires Sane(alnum) && p < |line| && SpanAt(alnum, line, p, to)
    ensures p < to <= |line|
  {
    hide Next;
    NextAt(alnum, line, p, to);
  }

  lemma ReadKeep(alnum: Alphabet, line: string, from: nat, ranges: seq<Range>, stop: nat)
    requires ReadAs(alnum, line, from, ranges, stop) && from < FirstStop(ranges, stop)
    ensures !Opens(alnum, line, from) && ReadAs(alnum, line, from + 1, ranges, stop)
    ensures Without(line, from, ranges) == [line[from]] + Without(line, from + 1, ranges)
  {
    hide Opens, SpanAt, Without;
    assert !Covered(ranges, from);
    assert ranges != [] ==> ranges[0].from < |line|;
    WithoutKeep(line, from, ranges);
  }

  lemma WithoutKeep(line: string, from: nat, ranges: seq<Range>)
    requires from < |line| && (ranges != [] ==> from < ranges[0].from < |line|)
    ensures Without(line, from, ranges) == [line[from]] + Without(line, from + 1, ranges)
  {
    if ranges == [] {
      assert line[from..] == [line[from]] + line[from + 1..];
    } else {
      var c, text, rest := [line[from]], line[from + 1..ranges[0].from], Without(line, ranges[0].to, ranges[1..]);
      assert line[from..ranges[0].from] == c + text;
      assert (c + text) + "[value removed]" + rest == c + (text + "[value removed]" + rest);
    }
  }

  lemma ReadSpan(alnum: Alphabet, line: string, from: nat, ranges: seq<Range>, stop: nat)
    requires ReadAs(alnum, line, from, ranges, stop) && ranges != [] && from == ranges[0].from
    ensures SpanAt(alnum, line, from, ranges[0].to) && ReadAs(alnum, line, ranges[0].to, ranges[1..], stop)
    ensures Without(line, from, ranges) == REMOVED + Without(line, ranges[0].to, ranges[1..])
  {
    hide Opens, SpanAt;
    forall p: nat | ranges[0].to <= p && Covered(ranges, p) ensures Covered(ranges[1..], p) {
      var i :| 0 <= i < |ranges| && ranges[i].from <= p < ranges[i].to;
      assert ranges[1..][i - 1] == ranges[i];
    }
    assert line[from..from] == "";
  }

  lemma {:induction false} RenderIsWithout(alnum: Alphabet, line: string, from: nat, ranges: seq<Range>, stop: nat)
    requires Sane(alnum) && ReadAs(alnum, line, from, ranges, stop)
    ensures Render(alnum, line[..from], line[from..]) ==
      if stop == |line| then Some(Without(line, from, ranges)) else None
    ensures from + FirstOpening(alnum, line[..from], line[from..]) == FirstStop(ranges, stop)
    decreases |line| - from
  {
    hide Next, Opens, SpanAt, Sane, Covered;
    if from < |line| {
      var before, rest := line[..from], line[from..];
      if from < FirstStop(ranges, stop) {
        ReadKeep(alnum, line, from, ranges, stop);
        NextAt(alnum, line, from, from);
        RenderIsWithout(alnum, line, from + 1, ranges, stop);
        Slices(line, from, 1);
        assert rest[..1] == [line[from]];
      } else if ranges != [] {
        var to := ranges[0].to;
        ReadSpan(alnum, line, from, ranges, stop);
        NextAt(alnum, line, from, to);
        RenderIsWithout(alnum, line, to, ranges[1..], stop);
        Slices(line, from, to - from);
      } else {
        Unread(alnum, line, from);
      }
    } else {
      var first := FirstStop(ranges, stop);
      assert first == from;
    }
  }

  lemma Unread(alnum: Alphabet, line: string, p: nat)
    requires Sane(alnum) && p < |line| && Opens(alnum, line, p) && forall to: nat :: !SpanAt(alnum, line, p, to)
    ensures Next(alnum, line[..p], line[p..]) == Unreadable
  {
    hide Opens, SpanAt, Next;
    NextAt(alnum, line, p, p);
    var next := Next(alnum, line[..p], line[p..]);
    if next.Span? { NextAt(alnum, line, p, p + next.length); }
  }

  /** A scrubbed line is the line with exactly its spans replaced, or, where one cannot be read, the
      text before its first opening. */
  lemma ScrubbedIs(alnum: Alphabet, line: string, ranges: seq<Range>, stop: nat)
    requires Sane(alnum) && ReadAs(alnum, line, 0, ranges, stop)
    ensures Scrubbed(alnum, line) ==
      if stop == |line| then Without(line, 0, ranges) else line[..FirstStop(ranges, stop)] + "[value removed]"
  {
    RenderIsWithout(alnum, line, 0, ranges, stop);
    assert line[..0] == "" && line[0..] == line;
  }

  lemma ReadMore(alnum: Alphabet, line: string, from: nat, to: nat, ranges: seq<Range>, stop: nat)
    requires ReadAs(alnum, line, to, ranges, stop) && from < |line| && to <= |line|
    ensures to == from + 1 && !Opens(alnum, line, from) ==> ReadAs(alnum, line, from, ranges, stop)
    ensures from < to && SpanAt(alnum, line, from, to) ==> ReadAs(alnum, line, from, [Range(from, to)] + ranges, stop)
  {
    hide Opens, SpanAt;
    if from < to && SpanAt(alnum, line, from, to) {
      var more := [Range(from, to)] + ranges;
      forall p: nat | from <= p < stop && !Covered(more, p) ensures !Opens(alnum, line, p) {
        assert !(more[0].from <= p < more[0].to);
        forall i | 0 <= i < |ranges| ensures !(ranges[i].from <= p < ranges[i].to) { assert more[i + 1] == ranges[i]; }
      }
    }
  }

  /** Every line reads so. */
  lemma {:induction false} EveryLineReads(alnum: Alphabet, line: string, from: nat)
    returns (ranges: seq<Range>, stop: nat)
    requires Sane(alnum) && from <= |line|
    ensures ReadAs(alnum, line, from, ranges, stop)
    decreases |line| - from
  {
    hide Opens, SpanAt, Next, Sane;
    if from == |line| {
      return [], from;
    }
    NextAt(alnum, line, from, from);
    match Next(alnum, line[..from], line[from..]) {
      case Keep =>
        ranges, stop := EveryLineReads(alnum, line, from + 1);
        ReadMore(alnum, line, from, from + 1, ranges, stop);
      case Span(n) =>
        NextAt(alnum, line, from, from + n);
        ranges, stop := EveryLineReads(alnum, line, from + n);
        ReadMore(alnum, line, from, from + n, ranges, stop);
        ranges := [Range(from, from + n)] + ranges;
      case Unreadable =>
        forall to: nat ensures !SpanAt(alnum, line, from, to) { NextAt(alnum, line, from, to); }
        ranges, stop := [], from;
    }
  }
}
