/** Removing quoted values from engine messages, failing closed where the quoting of a line
    cannot be read for sure. */
module Redact {
  import opened Prelude

  const REMOVED := "[value removed]"

  const PREFIXES := {"b", "br", "e", "n", "r", "rb", "u", "x"}

  /** Which characters are letters or digits: any classification in which quotes, brackets, line
      ends and `$` are neither. */
  type Alphabet = char -> bool

  ghost predicate Sane(alnum: Alphabet) { forall c :: c in "'\"`$[] \n" ==> !alnum(c) }

  predicate Word(alnum: Alphabet, c: char) { alnum(c) || c == '_' }

  predicate Quote(c: char) { c == '\'' || c == '"' || c == '`' }

  /** The word a text ends with. */
  function LastWord(alnum: Alphabet, s: string): string {
    if s == "" || !Word(alnum, s[|s| - 1]) then "" else LastWord(alnum, s[..|s| - 1]) + [s[|s| - 1]]
  }

  /** How many word characters a text starts with. */
  function Run(alnum: Alphabet, s: string): (n: nat)
    ensures n <= |s|
    ensures forall i :: 0 <= i < n ==> Word(alnum, s[i])
    ensures n < |s| ==> !Word(alnum, s[n])
  {
    if s == "" || !Word(alnum, s[0]) then 0 else 1 + Run(alnum, s[1..])
  }

  /** The `'` between `before` and `after` may open a literal rather than be an apostrophe. */
  predicate Prefixed(alnum: Alphabet, before: string, after: string) {
    || Lower(LastWord(alnum, before)) in PREFIXES
    || (var n := Run(alnum, after); 0 < n < |after| && after[n] == '\'')
  }

  /** The first `tag` at or after `k`. */
  function TagFrom(tag: string, s: string, k: nat): (r: Option<nat>)
    ensures r.Some? ==> k <= r.value && r.value + |tag| <= |s| && s[r.value..r.value + |tag|] == tag
    decreases |s| - k
  {
    if k + |tag| > |s| || k >= |s| then None else if s[k..k + |tag|] == tag then Some(k) else TagFrom(tag, s, k + 1)
  }

  /** The first `q` at or after `k` that is not doubled. */
  function CloseFrom(q: char, s: string, k: nat): (r: Option<nat>)
    ensures r.Some? ==> k <= r.value < |s| && s[r.value] == q
    decreases |s| - k
  {
    if k >= |s| then None
    else if s[k] != q then CloseFrom(q, s, k + 1)
    else if k + 1 < |s| && s[k + 1] == q then CloseFrom(q, s, k + 2)
    else Some(k)
  }

  datatype Step = Keep | Span(length: nat) | Unreadable

  predicate AfterWord(alnum: Alphabet, before: string, c: char) {
    c == '\'' && before != "" && Word(alnum, before[|before| - 1])
  }

  /** A dollar tag opens a span up to the end of the next such tag; a `$` that starts none stays. */
  function Dollar(alnum: Alphabet, rest: string): (r: Step)
    requires rest != ""
    ensures r.Span? ==> 0 < r.length <= |rest|
  {
    var n := Run(alnum, rest[1..]);
    if 1 + n < |rest| && rest[1 + n] == '$' then
      var close := TagFrom(rest[..n + 2], rest, n + 2);
      if close.Some? then Span(close.value + n + 2) else Unreadable
    else Keep
  }

  /** A quote opens a span up to its close, unless a backslash or what follows puts that in doubt. */
  function Quoted(alnum: Alphabet, rest: string): (r: Step)
    requires rest != ""
    ensures r.Span? ==> 0 < r.length <= |rest|
  {
    var close := CloseFrom(rest[0], rest, 1);
    if close.Some? && rest[close.value - 1] != '\\' && !(close.value + 1 < |rest| && alnum(rest[close.value + 1]))
    then Span(close.value + 1)
    else Unreadable
  }

  /** How the first character of `rest` reads after `before`: it stays, opens a span of some
      length, or opens one that cannot be read. */
  function Next(alnum: Alphabet, before: string, rest: string): (r: Step)
    requires rest != ""
    ensures r.Span? ==> 0 < r.length <= |rest|
  {
    var c := rest[0];
    if AfterWord(alnum, before, c) && Prefixed(alnum, before, rest[1..]) then Unreadable
    else if c == '$' then Dollar(alnum, rest)
    else if !Quote(c) || AfterWord(alnum, before, c) then Keep
    else Quoted(alnum, rest)
  }

  /** The rest of a line with its spans replaced, if all of them can be read. */
  function Render(alnum: Alphabet, before: string, rest: string): Option<string>
    decreases |rest|
  {
    if rest == "" then Some("") else
      match Next(alnum, before, rest)
      case Keep =>
        var r := Render(alnum, before + rest[..1], rest[1..]);
        if r.None? then None else Some(rest[..1] + r.value)
      case Span(n) =>
        var r := Render(alnum, before + rest[..n], rest[n..]);
        if r.None? then None else Some(REMOVED + r.value)
      case Unreadable => None
  }

  /** Where the first span opens, counted from the start of `rest`. */
  function FirstOpening(alnum: Alphabet, before: string, rest: string): (n: nat)
    ensures n <= |rest|
    decreases |rest|
  {
    if rest == "" || Next(alnum, before, rest) != Keep then 0
        else 1 + FirstOpening(alnum, before + rest[..1], rest[1..])
  }

  /** A line with its spans replaced, or cut at the first opening if one cannot be read. */
  function Scrubbed(alnum: Alphabet, line: string): string {
    var r := Render(alnum, "", line);
    if r.Some? then r.value else line[..FirstOpening(alnum, "", line)] + REMOVED
  }

  // ---- the scanner ------------------------------------------------------------------

  lemma TagStep(tag: string, s: string, k: nat)
    ensures k + |tag| > |s| || k >= |s| ==> TagFrom(tag, s, k) == None
    ensures k + |tag| <= |s| && k < |s| ==>
        TagFrom(tag, s, k) == if s[k..k + |tag|] == tag then Some(k) else TagFrom(tag, s, k + 1)
  {
  }

  method FindTag(rest: string, tag: string) returns (close: Option<nat>)
    requires 0 < |tag| <= |rest|
    ensures close == TagFrom(tag, rest, |tag|)
  {
    hide TagFrom;
    var k := |tag|;
    while k + |tag| <= |rest| && rest[k..k + |tag|] != tag
      invariant |tag| <= k <= |rest|
      invariant TagFrom(tag, rest, |tag|) == TagFrom(tag, rest, k)
      decreases |rest| - k
    {
      TagStep(tag, rest, k);
      k := k + 1;
    }
    TagStep(tag, rest, k);
    close := if k + |tag| <= |rest| then Some(k) else None;
  }

  method FindClose(chars: string, i: nat) returns (close: Option<nat>)
    requires i < |chars|
    ensures close == match CloseFrom(chars[i], chars[i..], 1) case None => None case Some(k) => Some(i + k)
  {
    var k := i + 1;
    while k < |chars| && (chars[k] != chars[i] || (k + 1 < |chars| && chars[k + 1] == chars[i]))
      invariant i < k <= |chars|
      invariant CloseFrom(chars[i], chars[i..], 1) == CloseFrom(chars[i], chars[i..], k - i)
      decreases |chars| - k
    {
      k := if chars[k] == chars[i] then k + 2 else k + 1;
    }
    close := if k < |chars| then Some(k) else None;
  }

  /** How the character at `i` reads. */
  method ReadAt(alnum: Alphabet, chars: string, i: nat) returns (step: Step)
    requires i < |chars|
    ensures step == Next(alnum, chars[..i], chars[i..])
  {
    var c := chars[i];
    var afterWord := c == '\'' && i > 0 && Word(alnum, chars[i - 1]);
    assert chars[i..][1..] == chars[i + 1..];
    if afterWord && Prefixed(alnum, chars[..i], chars[i + 1..]) { return Unreadable; }
    if c == '$' {
      var end := i + 1 + Run(alnum, chars[i + 1..]);
      if end < |chars| && chars[end] == '$' {
        var tag := chars[i..end + 1];
        assert chars[i..][..|tag|] == tag;
        var close := FindTag(chars[i..], tag);
        return if close.Some? then Span(close.value + |tag|) else Unreadable;
      }
      return Keep;
    }
    if !Quote(c) || afterWord { return Keep; }
    var close := FindClose(chars, i);
    if close.Some? {
      var k := close.value;
      assert chars[k - 1] == chars[i..][k - i - 1];
      if chars[k - 1] != '\\' && !(k + 1 < |chars| && alnum(chars[k + 1])) { return Span(k + 1 - i); }
    }
    return Unreadable;
  }

  method LineSpans(alnum: Alphabet, line: string) returns (out: string)
    ensures out == Scrubbed(alnum, line)
  {
    hide Next;
    var firstOpen: Option<nat> := None;
    out := "";
    var i := 0;
    assert line[..0] == "" && line[0..] == line;
    PrependNothing(Render(alnum, "", line));
    while i < |line|
      invariant 0 <= i <= |line|
      invariant Render(alnum, "", line) == Prepend(out, Render(alnum, line[..i], line[i..]))
      invariant FirstOpening(alnum, "", line) == if firstOpen.Some? then firstOpen.value
          else i + FirstOpening(alnum, line[..i], line[i..])
    {
      var step := ReadAt(alnum, line, i);
      assert line[..i] + line[i..][..1] == line[..i + 1] && line[i..][1..] == line[i + 1..] &&
          line[i..][..1] == [line[i]];
      match step {
        case Keep =>
          PrependMore(out, [line[i]], Render(alnum, line[..i + 1], line[i + 1..]));
          out := out + [line[i]];
          i := i + 1;
        case Span(n) =>
          if firstOpen.None? { firstOpen := Some(i); }
          Slices(line, i, n);
          PrependMore(out, REMOVED, Render(alnum, line[..i + n], line[i + n..]));
          out := out + REMOVED;
          i := i + n;
        case Unreadable =>
          if firstOpen.None? { firstOpen := Some(i); }
          return line[..firstOpen.value] + REMOVED;
      }
    }
  }

  function Prepend(s: string, r: Option<string>): Option<string> { if r.None? then None else Some(s + r.value) }

  lemma Slices(line: string, i: nat, n: nat)
    requires i + n <= |line|
    ensures line[..i] + line[i..][..n] == line[..i + n] && line[i..][n..] == line[i + n..]
  {
  }

  lemma PrependNothing(r: Option<string>)
    ensures Prepend("", r) == r
  {
    if r.Some? { assert "" + r.value == r.value; }
  }

  lemma PrependMore(a: string, b: string, r: Option<string>)
    ensures Prepend(a, Prepend(b, r)) == Prepend(a + b, r)
  {
    if r.Some? { assert a + (b + r.value) == a + b + r.value; }
  }

  // ---- lines ------------------------------------------------------------------------

  function Lines(text: string): (r: seq<string>)
    ensures |r| > 0
  {
    if text == "" then [""]
    else if text[0] == '\n' then [""] + Lines(text[1..])
    else var rest := Lines(text[1..]); [[text[0]] + rest[0]] + rest[1..]
  }

  function Joined(lines: seq<string>): string {
    if lines == [] then "" else if |lines| == 1 then lines[0] else lines[0] + "\n" + Joined(lines[1..])
  }

  function AllScrubbed(alnum: Alphabet, lines: seq<string>): (r: seq<string>)
    ensures |r| == |lines| && forall i :: 0 <= i < |r| ==> r[i] == Scrubbed(alnum, lines[i])
  {
    seq(|lines|, i requires 0 <= i < |lines| => Scrubbed(alnum, lines[i]))
  }

  function Redacted(alnum: Alphabet, text: string): string { Joined(AllScrubbed(alnum, Lines(text))) }

  method Spans(alnum: Alphabet, text: string) returns (out: string)
    ensures out == Redacted(alnum, text)
  {
    hide Scrubbed;
    out := "";
    var lines := Lines(text);
    for i := 0 to |lines|
      invariant out == Joined(AllScrubbed(alnum, lines[..i]))
    {
      if i > 0 { out := out + "\n"; }
      var line := LineSpans(alnum, lines[i]);
      assert AllScrubbed(alnum, lines[..i + 1]) == AllScrubbed(alnum, lines[..i]) + [line];
      JoinedMore(AllScrubbed(alnum, lines[..i]), line);
      out := out + line;
    }
    assert lines[..|lines|] == lines;
  }

  lemma {:induction false} JoinedMore(lines: seq<string>, line: string)
    ensures Joined(lines + [line]) == if lines == [] then line else Joined(lines) + "\n" + line
  {
    if |lines| > 0 {
      assert (lines + [line])[1..] == lines[1..] + [line];
      JoinedMore(lines[1..], line);
    }
  }

  // ---- nothing quoted is left -------------------------------------------------------

  /** The rest reads, as far as the next character is concerned, no worse than `was`: the same
      run of word characters, then the same character, a `[`, or nothing. */
  predicate Ahead(alnum: Alphabet, was: string, now: string) {
    var n, m := Run(alnum, was), Run(alnum, now);
    n == m && (m < |now| ==> now[m] == '[' || (n < |was| && now[m] == was[n]))
  }

  predicate SameBehind(alnum: Alphabet, a: string, b: string) {
    LastWord(alnum, a) == LastWord(alnum, b)
  }

  lemma EndsInWord(alnum: Alphabet, s: string)
    ensures LastWord(alnum, s) != "" <==> s != "" && Word(alnum, s[|s| - 1])
  {
  }

  /** A character that stays, stays where the same word stands behind it and nothing worse is
      ahead. */
  lemma KeepTransfers(alnum: Alphabet, before: string, rest: string, before': string, rest': string)
    requires rest != "" && rest' != "" && rest[0] == rest'[0]
    requires Next(alnum, before, rest) == Keep
    requires SameBehind(alnum, before, before') && Ahead(alnum, rest[1..], rest'[1..])
    ensures Next(alnum, before', rest') == Keep
  {
    hide Run, LastWord, Lower;
    EndsInWord(alnum, before);
    EndsInWord(alnum, before');
  }

  /** A text none of whose characters opens anything. */
  ghost predicate Clean(alnum: Alphabet, line: string) {
    forall p :: 0 <= p < |line| ==> Next(alnum, line[..p], line[p..]) == Keep
  }

  ghost predicate CleanFrom(alnum: Alphabet, line: string, from: nat) {
    forall p :: from <= p < |line| ==> Next(alnum, line[..p], line[p..]) == Keep
  }

  lemma PlainIsKept(alnum: Alphabet, before: string, rest: string)
    requires rest != "" && !Quote(rest[0]) && rest[0] != '$'
    ensures Next(alnum, before, rest) == Keep
  {
  }

  lemma LastWordMore(alnum: Alphabet, s: string, c: char)
    ensures LastWord(alnum, s + [c]) == if Word(alnum, c) then LastWord(alnum, s) + [c] else ""
  {
    assert (s + [c])[..|s|] == s;
  }

  lemma RemovedEndsWord(alnum: Alphabet, s: string)
    requires Sane(alnum)
    ensures LastWord(alnum, s + REMOVED) == ""
  {
    assert s + REMOVED == s + REMOVED[..|REMOVED| - 1] + [']'];
    LastWordMore(alnum, s + REMOVED[..|REMOVED| - 1], ']');
  }

  /** What opens a span is no word character, and neither is what closes it. */
  lemma OpeningIsNoWord(alnum: Alphabet, before: string, rest: string)
    requires Sane(alnum) && rest != "" && Next(alnum, before, rest) != Keep
    ensures !Word(alnum, rest[0])
    ensures Next(alnum, before, rest).Span? ==> !Word(alnum, rest[Next(alnum, before, rest).length - 1])
  {
    hide Run, LastWord, Lower, TagFrom, CloseFrom, Prefixed;
    var next := Next(alnum, before, rest);
    if next.Span? && rest[0] == '$' {
      var n := Run(alnum, rest[1..]);
      var close := TagFrom(rest[..n + 2], rest, n + 2);
      assert rest[next.length - 1] == rest[close.value..close.value + |rest[..n + 2]|][n + 1] == '$';
    }
  }

  lemma SpanEndsWord(alnum: Alphabet, before: string, rest: string, n: nat)
    requires Sane(alnum) && rest != "" && Next(alnum, before, rest) == Span(n)
    ensures LastWord(alnum, before + rest[..n]) == ""
  {
    hide Next;
    OpeningIsNoWord(alnum, before, rest);
    assert before + rest[..n] == before + rest[..n - 1] + [rest[n - 1]];
    LastWordMore(alnum, before + rest[..n - 1], rest[n - 1]);
  }

  /** Replacing spans keeps what is ahead of any kept character no worse. */
  lemma {:induction false} RenderKeepsAhead(alnum: Alphabet, before: string, rest: string)
    requires Sane(alnum) && Render(alnum, before, rest).Some?
    ensures Ahead(alnum, rest, Render(alnum, before, rest).value)
    decreases |rest|
  {
    hide Next;
    if rest != "" {
      var next := Next(alnum, before, rest);
      if next.Keep? {
        RenderKeepsAhead(alnum, before + rest[..1], rest[1..]);
        var more := Render(alnum, before + rest[..1], rest[1..]).value;
        assert rest == [rest[0]] + rest[1..] && rest[..1] == [rest[0]];
      } else {
        OpeningIsNoWord(alnum, before, rest);
      }
    }
  }

  /** Whatever precedes it, a rendered rest opens nothing, if the same word stands behind. */
  lemma {:induction false} RenderIsClean(alnum: Alphabet, before: string, rest: string, out: string)
    requires Sane(alnum) && Render(alnum, before, rest).Some? && SameBehind(alnum, before, out)
    ensures CleanFrom(alnum, out + Render(alnum, before, rest).value, |out|)
    decreases |rest|
  {
    hide Next, Sane, LastWord;
    if rest != "" {
      var all := out + Render(alnum, before, rest).value;
      var next := Next(alnum, before, rest);
      if next.Keep? {
        var more := Render(alnum, before + rest[..1], rest[1..]).value;
        assert rest[..1] == [rest[0]];
        LastWordMore(alnum, before, rest[0]);
        LastWordMore(alnum, out, rest[0]);
        RenderIsClean(alnum, before + rest[..1], rest[1..], out + rest[..1]);
        assert all == out + rest[..1] + more;
        RenderKeepsAhead(alnum, before + rest[..1], rest[1..]);
        assert all[..|out|] == out && all[|out|..] == [rest[0]] + more && all[|out|..][1..] == more;
        KeepTransfers(alnum, before, rest, out, all[|out|..]);
      } else {
        var more := Render(alnum, before + rest[..next.length], rest[next.length..]).value;
        SpanEndsWord(alnum, before, rest, next.length);
        RemovedEndsWord(alnum, out);
        RenderIsClean(alnum, before + rest[..next.length], rest[next.length..], out + REMOVED);
        assert all == out + REMOVED + more;
        RemovedIsClean(alnum, out, all);
      }
    }
  }

  lemma RemovedIsClean(alnum: Alphabet, out: string, all: string)
    requires out + REMOVED <= all
    ensures forall p :: |out| <= p < |out| + |REMOVED| ==> Next(alnum, all[..p], all[p..]) == Keep
  {
    hide Next;
    forall p | |out| <= p < |out| + |REMOVED| ensures Next(alnum, all[..p], all[p..]) == Keep {
      assert all[p..][0] == (out + REMOVED)[p] == REMOVED[p - |out|];
      PlainIsKept(alnum, all[..p], all[p..]);
    }
  }

  /** Before the first opening everything stays. */
  lemma {:induction false} KeptBeforeOpening(alnum: Alphabet, before: string, rest: string, k: nat)
    requires k <= FirstOpening(alnum, before, rest)
    ensures FirstOpening(alnum, before + rest[..k], rest[k..]) == FirstOpening(alnum, before, rest) - k
    ensures k < FirstOpening(alnum, before, rest) ==> Next(alnum, before + rest[..k], rest[k..]) == Keep
    decreases |rest|
  {
    hide Next;
    if k == 0 {
      assert before + rest[..0] == before && rest[0..] == rest;
    } else {
      KeptBeforeOpening(alnum, before + rest[..1], rest[1..], k - 1);
      assert before + rest[..1] + rest[1..][..k - 1] == before + rest[..k] && rest[1..][k - 1..] == rest[k..];
    }
  }

  /** Cutting a rest before a character that is no word character, and putting a bracket there,
      keeps what is ahead no worse. */
  lemma {:induction false} CutAhead(alnum: Alphabet, rest: string, n: nat, tail: string)
    requires tail != "" && tail[0] == '[' && !Word(alnum, '[')
    requires n <= |rest| && (n < |rest| ==> !Word(alnum, rest[n]))
    ensures Ahead(alnum, rest, rest[..n] + tail)
    decreases n
  {
    if n == 0 {
      assert rest[..0] + tail == tail;
    } else {
      var c, was, now := rest[0], rest[1..], rest[1..][..n - 1] + tail;
      CutAhead(alnum, was, n - 1, tail);
      assert rest == [c] + was && rest[..n] + tail == [c] + now;
    }
  }

  lemma CutKeepsAhead(alnum: Alphabet, before: string, rest: string)
    requires Sane(alnum)
    ensures Ahead(alnum, rest, rest[..FirstOpening(alnum, before, rest)] + REMOVED)
  {
    hide Next, FirstOpening, Ahead;
    var n := FirstOpening(alnum, before, rest);
    if n < |rest| {
      KeptBeforeOpening(alnum, before, rest, n);
      OpensHere(alnum, before + rest[..n], rest[n..]);
      OpeningIsNoWord(alnum, before + rest[..n], rest[n..]);
    }
    CutAhead(alnum, rest, n, REMOVED);
  }

  lemma OpensHere(alnum: Alphabet, before: string, rest: string)
    requires rest != "" && FirstOpening(alnum, before, rest) == 0
    ensures Next(alnum, before, rest) != Keep
  {
    hide Next;
  }

  lemma CutIsClean(alnum: Alphabet, line: string)
    requires Sane(alnum)
    ensures Clean(alnum, line[..FirstOpening(alnum, "", line)] + REMOVED)
  {
    hide Next, Sane, LastWord, FirstOpening;
    var n := FirstOpening(alnum, "", line);
    var cut := line[..n] + REMOVED;
    forall p | 0 <= p < |cut| ensures Next(alnum, cut[..p], cut[p..]) == Keep {
      if p < n {
        KeptBeforeOpening(alnum, "", line, p);
        KeptBeforeOpening(alnum, "", line, p + 1);
        assert "" + line[..p] == line[..p] == cut[..p] && "" + line[..p + 1] == line[..p + 1];
        CutKeepsAhead(alnum, line[..p + 1], line[p + 1..]);
        assert cut[p..][1..] == line[p + 1..][..n - p - 1] + REMOVED && line[p..][1..] == line[p + 1..];
        KeepTransfers(alnum, line[..p], line[p..], cut[..p], cut[p..]);
      } else {
        RemovedIsClean(alnum, line[..n], cut);
      }
    }
  }

  /** Nothing in a scrubbed line opens a span. */
  lemma ScrubbedIsClean(alnum: Alphabet, line: string)
    requires Sane(alnum)
    ensures Clean(alnum, Scrubbed(alnum, line))
  {
    hide Next, Sane;
    if Render(alnum, "", line).Some? {
      RenderIsClean(alnum, "", line, "");
      assert "" + Render(alnum, "", line).value == Render(alnum, "", line).value;
    } else {
      CutIsClean(alnum, line);
    }
  }

  /** No double quote or backtick, every apostrophe directly follows a word character, and between
      any two `$` stands something other than a word. */
  predicate Tidy(alnum: Alphabet, s: string) { forall p :: 0 <= p < |s| ==> TidyAt(alnum, s, p) }

  predicate ApartAt(alnum: Alphabet, s: string, p: nat, e: nat)
    requires e <= |s|
  {
    exists k :: p < k < e && !(alnum(s[k]) || s[k] == '_')
  }

  predicate TidyAt(alnum: Alphabet, s: string, p: nat)
    requires p < |s|
  {
    && s[p] != '"' && s[p] != '`' && (s[p] == '\'' ==> p > 0 && (alnum(s[p - 1]) || s[p - 1] == '_'))
    && (s[p] == '$' ==> forall e :: p < e < |s| && s[e] == '$' ==> ApartAt(alnum, s, p, e))
  }

  lemma CleanIsTidy(alnum: Alphabet, line: string)
    requires Sane(alnum) && Clean(alnum, line)
    ensures Tidy(alnum, line)
  {
    hide Run, LastWord, Lower, TagFrom, CloseFrom, Prefixed;
    forall p | 0 <= p < |line| ensures TidyAt(alnum, line, p) {
      assert Next(alnum, line[..p], line[p..]) == Keep;
      forall e | line[p] == '$' && p < e < |line| && line[e] == '$' ensures ApartAt(alnum, line, p, e) {
        NoTagKept(alnum, line, p, e);
      }
    }
  }

  lemma NoTagKept(alnum: Alphabet, line: string, p: nat, e: nat)
    requires Sane(alnum) && p < e < |line| && line[p] == line[e] == '$'
    requires Next(alnum, line[..p], line[p..]) == Keep
    ensures ApartAt(alnum, line, p, e)
  {
    hide LastWord, Lower, TagFrom, CloseFrom, Prefixed;
    var n := Run(alnum, line[p..][1..]);
    assert p + 1 + n < |line| ==> line[p + 1 + n] == line[p..][1..][n];
    assert line[p..][1..][e - p - 1] == line[e];
  }

  lemma {:induction false} CleanRenders(alnum: Alphabet, line: string, p: nat)
    requires Clean(alnum, line) && p <= |line|
    ensures Render(alnum, line[..p], line[p..]) == Some(line[p..])
    decreases |line| - p
  {
    hide Next;
    if p < |line| {
      CleanRenders(alnum, line, p + 1);
      assert line[..p] + line[p..][..1] == line[..p + 1] && line[p..][1..] == line[p + 1..];
      assert line[p..] == line[p..][..1] + line[p + 1..];
    }
  }

  /** A line that opens nothing is left as it is. */
  lemma CleanIsUnchanged(alnum: Alphabet, line: string)
    requires Clean(alnum, line)
    ensures Scrubbed(alnum, line) == line
  {
    CleanRenders(alnum, line, 0);
    assert line[..0] == "" && line[0..] == line;
  }

  // ---- whole texts ------------------------------------------------------------------

  predicate OneLine(s: string) { '\n' !in s }

  /** The lines are all of the text. */
  lemma {:induction false} LinesRejoin(text: string)
    ensures Joined(Lines(text)) == text
  {
    if text != "" {
      LinesRejoin(text[1..]);
      var rest := Lines(text[1..]);
      assert text == [text[0]] + text[1..];
      if text[0] == '\n' {
        assert ([""] + rest)[1..] == rest;
      } else {
        assert ([[text[0]] + rest[0]] + rest[1..])[1..] == rest[1..];
      }
    }
  }

  lemma {:induction false} LinesAreLines(text: string)
    ensures forall line :: line in Lines(text) ==> OneLine(line)
  {
    if text != "" {
      LinesAreLines(text[1..]);
      var rest := Lines(text[1..]);
      assert rest[0] in rest && forall line :: line in rest[1..] ==> line in rest;
    }
  }

  lemma {:induction false} LinesOfLine(line: string)
    requires OneLine(line)
    ensures Lines(line) == [line]
  {
    if line != "" {
      LinesOfLine(line[1..]);
      assert line == [line[0]] + line[1..];
    }
  }

  lemma {:induction false} LinesOfMore(line: string, text: string)
    requires OneLine(line)
    ensures Lines(line + "\n" + text) == [line] + Lines(text)
  {
    var all := line + "\n" + text;
    if line == "" {
      assert all == "\n" + text && all[1..] == text;
    } else {
      LinesOfMore(line[1..], text);
      assert all[1..] == line[1..] + "\n" + text && line == [line[0]] + line[1..];
    }
  }

  /** Joining lines and splitting them again gives the lines back. */
  lemma {:induction false} LinesOfJoined(lines: seq<string>)
    requires lines != [] && forall line :: line in lines ==> OneLine(line)
    ensures Lines(Joined(lines)) == lines
  {
    assert lines[0] in lines;
    if |lines| == 1 {
      LinesOfLine(lines[0]);
    } else {
      LinesOfJoined(lines[1..]);
      LinesOfMore(lines[0], Joined(lines[1..]));
    }
  }

  lemma {:induction false} RenderIsOneLine(alnum: Alphabet, before: string, rest: string)
    requires OneLine(rest) && Render(alnum, before, rest).Some?
    ensures OneLine(Render(alnum, before, rest).value)
    decreases |rest|
  {
    hide Next;
    if rest != "" {
      var next := Next(alnum, before, rest);
      if next.Keep? { RenderIsOneLine(alnum, before + rest[..1], rest[1..]); }
      if next.Span? { RenderIsOneLine(alnum, before + rest[..next.length], rest[next.length..]); }
    }
  }

  lemma ScrubbedIsOneLine(alnum: Alphabet, line: string)
    requires OneLine(line)
    ensures OneLine(Scrubbed(alnum, line))
  {
    if Render(alnum, "", line).Some? { RenderIsOneLine(alnum, "", line); }
  }

  lemma {:induction false} JoinedIsTidy(alnum: Alphabet, lines: seq<string>)
    requires Sane(alnum) && forall line :: line in lines ==> Tidy(alnum, line)
    ensures Tidy(alnum, Joined(lines))
  {
    if |lines| > 1 {
      JoinedIsTidy(alnum, lines[1..]);
      assert lines[0] in lines;
      TidyMore(alnum, lines[0], Joined(lines[1..]));
    }
  }

  lemma TidyMore(alnum: Alphabet, a: string, b: string)
    requires Sane(alnum) && Tidy(alnum, a) && Tidy(alnum, b)
    ensures Tidy(alnum, a + "\n" + b)
  {
    var s := a + "\n" + b;
    assert s[|a|] == '\n';
    forall p | 0 <= p < |s| ensures TidyAt(alnum, s, p) {
      if p < |a| {
        assert TidyAt(alnum, a, p);
      } else if p > |a| {
        assert TidyAt(alnum, b, p - |a| - 1);
      }
      forall e | s[p] == '$' && p < e < |s| && s[e] == '$' ensures ApartAt(alnum, s, p, e) {
        ApartInBoth(alnum, a, b, p, e);
      }
    }
  }

  lemma ApartInBoth(alnum: Alphabet, a: string, b: string, p: nat, e: nat)
    requires Sane(alnum) && Tidy(alnum, a) && Tidy(alnum, b)
    requires p < e < |a| + 1 + |b| && (a + "\n" + b)[p] == (a + "\n" + b)[e] == '$'
    ensures ApartAt(alnum, a + "\n" + b, p, e)
  {
    var s := a + "\n" + b;
    if e < |a| {
      assert TidyAt(alnum, a, p) && ApartAt(alnum, a, p, e);
      var k :| p < k < e && !(alnum(a[k]) || a[k] == '_');
      assert s[k] == a[k];
    } else if p < |a| {
      assert s[|a|] == '\n';
    } else {
      var q, f := p - |a| - 1, e - |a| - 1;
      assert TidyAt(alnum, b, q) && ApartAt(alnum, b, q, f);
      var k :| q < k < f && !(alnum(b[k]) || b[k] == '_');
      assert s[k + |a| + 1] == b[k];
    }
  }

  /** No quoted value survives: no double quote or backtick is left, each `'` that is left is an
      apostrophe inside a word, and no dollar quote is left. */
  lemma NothingQuotedIsLeft(alnum: Alphabet, text: string)
    requires Sane(alnum)
    ensures Tidy(alnum, Redacted(alnum, text))
  {
    hide Scrubbed, Clean, Tidy, Sane;
    var lines := AllScrubbed(alnum, Lines(text));
    forall line | line in lines ensures Tidy(alnum, line) {
      var i :| 0 <= i < |lines| && lines[i] == line;
      ScrubbedIsClean(alnum, Lines(text)[i]);
      CleanIsTidy(alnum, line);
    }
    JoinedIsTidy(alnum, lines);
  }

  /** Removing spans again changes nothing. */
  lemma RedactingTwiceIsRedactingOnce(alnum: Alphabet, text: string)
    requires Sane(alnum)
    ensures Redacted(alnum, Redacted(alnum, text)) == Redacted(alnum, text)
  {
    hide Scrubbed, Clean, Sane, Lines, OneLine, Joined;
    var lines := AllScrubbed(alnum, Lines(text));
    forall line | line in lines ensures OneLine(line) && Scrubbed(alnum, line) == line {
      var i :| 0 <= i < |lines| && lines[i] == line;
      LinesAreLines(text);
      ScrubbedIsOneLine(alnum, Lines(text)[i]);
      ScrubbedIsClean(alnum, Lines(text)[i]);
      CleanIsUnchanged(alnum, line);
    }
    LinesOfJoined(lines);
    assert AllScrubbed(alnum, lines) == lines;
  }

  /** The first opening of a line is at `p`. */
  ghost predicate OpensAt(alnum: Alphabet, line: string, p: nat) {
    && p < |line| && Next(alnum, line[..p], line[p..]) != Keep
    && forall q :: 0 <= q < p ==> Next(alnum, line[..q], line[q..]) == Keep
  }

  lemma FirstOpeningIs(alnum: Alphabet, line: string, p: nat)
    requires OpensAt(alnum, line, p)
    ensures FirstOpening(alnum, "", line) == p
  {
    hide Next;
    var n := FirstOpening(alnum, "", line);
    var first := if p < n then p else n;
    KeptBeforeOpening(alnum, "", line, first);
    assert "" + line[..first] == line[..first];
  }

  /** Fail closed: if any span of a line cannot be read, what is kept is exactly the text
      before the line's first opening, whatever else the line holds. */
  lemma UnreadableIsCut(alnum: Alphabet, line: string, p: nat)
    requires OpensAt(alnum, line, p) && Render(alnum, "", line).None?
    ensures Scrubbed(alnum, line) == line[..p] + REMOVED
  {
    hide Next;
    FirstOpeningIs(alnum, line, p);
  }

  lemma NextSameBehind(alnum: Alphabet, a: string, b: string, rest: string)
    requires rest != "" && SameBehind(alnum, a, b)
    ensures Next(alnum, a, rest) == Next(alnum, b, rest)
  {
    hide Run, LastWord, Lower, TagFrom, CloseFrom;
    EndsInWord(alnum, a);
    EndsInWord(alnum, b);
  }

  lemma {:induction false} SameBehindMore(alnum: Alphabet, a: string, b: string, more: string)
    requires SameBehind(alnum, a, b)
    ensures SameBehind(alnum, a + more, b + more)
  {
    if more == "" {
      assert a + more == a && b + more == b;
    } else {
      var init, last := more[..|more| - 1], more[|more| - 1];
      SameBehindMore(alnum, a, b, init);
      assert a + more == a + init + [last] && b + more == b + init + [last];
      LastWordMore(alnum, a + init, last);
      LastWordMore(alnum, b + init, last);
    }
  }

  /** How a rest reads depends on what precedes it only through the word it ends with. */
  lemma {:induction false} RenderSameBehind(alnum: Alphabet, a: string, b: string, rest: string)
    requires SameBehind(alnum, a, b)
    ensures Render(alnum, a, rest) == Render(alnum, b, rest)
    decreases |rest|
  {
    hide Next, SameBehind;
    if rest != "" {
      NextSameBehind(alnum, a, b, rest);
      var n := if Next(alnum, a, rest).Span? then Next(alnum, a, rest).length else 1;
      SameBehindMore(alnum, a, b, rest[..n]);
      RenderSameBehind(alnum, a + rest[..n], b + rest[..n], rest[n..]);
    }
  }

  lemma {:induction false} OpeningSameBehind(alnum: Alphabet, a: string, b: string, rest: string)
    requires SameBehind(alnum, a, b)
    ensures FirstOpening(alnum, a, rest) == FirstOpening(alnum, b, rest)
    decreases |rest|
  {
    hide Next, SameBehind;
    if rest != "" {
      NextSameBehind(alnum, a, b, rest);
      SameBehindMore(alnum, a, b, rest[..1]);
      if Next(alnum, a, rest).Keep? { OpeningSameBehind(alnum, a + rest[..1], b + rest[..1], rest[1..]); }
    }
  }

  /** The two rests hold the same text outside their spans, whatever the spans hold and however
      long they are. */
  predicate SameButSpans(alnum: Alphabet, before: string, a: string, before': string, b: string)
    decreases |a|
  {
    a == b || (a != "" && b != "" &&
      match Next(alnum, before, a)
      case Keep =>
          Next(alnum, before', b).Keep? && a[0] == b[0] &&
          SameButSpans(alnum, before + a[..1], a[1..], before' + b[..1], b[1..])
      case Span(n) => Next(alnum, before', b).Span? &&
        var m := Next(alnum, before', b).length;
        SameButSpans(alnum, before + a[..n], a[n..], before' + b[..m], b[m..])
      case Unreadable => false)
  }

  lemma {:induction false} RenderSameButSpans(alnum: Alphabet, before: string, a: string, before': string, b: string)
    requires Sane(alnum) && SameBehind(alnum, before, before') && SameButSpans(alnum, before, a, before', b)
    ensures Render(alnum, before, a) == Render(alnum, before', b)
    ensures a[..FirstOpening(alnum, before, a)] == b[..FirstOpening(alnum, before', b)]
    decreases |a|
  {
    hide Next, Sane, SameBehind;
    if a == b {
      RenderSameBehind(alnum, before, before', a);
      OpeningSameBehind(alnum, before, before', a);
    } else if Next(alnum, before, a).Keep? {
      assert a[..1] == b[..1];
      SameBehindMore(alnum, before, before', a[..1]);
      RenderSameButSpans(alnum, before + a[..1], a[1..], before' + b[..1], b[1..]);
      assert a[..FirstOpening(alnum, before, a)] == a[..1] + a[1..][..FirstOpening(alnum, before, a) - 1];
      assert b[..FirstOpening(alnum, before', b)] == b[..1] + b[1..][..FirstOpening(alnum, before', b) - 1];
    } else {
      var n, m := Next(alnum, before, a).length, Next(alnum, before', b).length;
      SpanEndsWord(alnum, before, a, n);
      SpanEndsWord(alnum, before', b, m);
      assert SameBehind(alnum, before + a[..n], before' + b[..m]) by {
        NoWordBehind(alnum, before + a[..n], before' + b[..m]);
      }
      RenderSameButSpans(alnum, before + a[..n], a[n..], before' + b[..m], b[m..]);
    }
  }

  lemma NoWordBehind(alnum: Alphabet, a: string, b: string)
    requires LastWord(alnum, a) == LastWord(alnum, b) == ""
    ensures SameBehind(alnum, a, b)
  {
  }

  /** What a span holds never shows: two lines that differ only inside spans come out the same,
      also when a later span cannot be read. */
  lemma SpanContentsNeverShow(alnum: Alphabet, a: string, b: string)
    requires Sane(alnum) && SameButSpans(alnum, "", a, "", b)
    ensures Scrubbed(alnum, a) == Scrubbed(alnum, b)
  {
    RenderSameButSpans(alnum, "", a, "", b);
  }
}
