/** Score extraction: the three regular-expression searches of bandwidth.py
    (`HighDetail:[\s](\d+)%`, `LowDetail:[\s](\d+)%` and `30s:\s(\d+)\spercent`),
    modelled as a leftmost search for a pattern "fixed tokens, one captured run
    of decimal digits, fixed tokens", followed by `int()` of the captured digits. */
module Scores {

  datatype Option<T> = None | Some(value: T)

  /** The characters Python's `\s` matches in a str pattern (those `str.isspace` accepts). */
  predicate IsSpace(c: char) {
    || ('\t' <= c <= '\r')
    || ('\U{1C}' <= c <= '\U{1F}')
    || c == ' ' || c == '\U{85}' || c == '\U{A0}' || c == '\U{1680}'
    || ('\U{2000}' <= c <= '\U{200A}')
    || c == '\U{2028}' || c == '\U{2029}' || c == '\U{202F}' || c == '\U{205F}' || c == '\U{3000}'
  }

  predicate IsDigit(c: char) {
    '0' <= c <= '9'
  }

  predicate AllDigits(ds: string) {
    forall k :: 0 <= k < |ds| ==> IsDigit(ds[k])
  }

  /** Python's `int()` of a string of decimal digits. */
  function DigitsValue(ds: string): nat
    requires AllDigits(ds)
  {
    if ds == [] then 0
    else DigitsValue(ds[..|ds| - 1]) * 10 + (ds[|ds| - 1] as int - '0' as int)
  }

  function DigitChar(d: nat): char
    requires d < 10
  {
    ('0' as int + d) as char
  }

  /** Python's `str()` of a non-negative integer: its shortest decimal spelling. */
  function Render(v: nat): (ds: string)
    ensures |ds| > 0 && AllDigits(ds)
    ensures v >= 10 ==> ds[0] != '0'
  {
    if v < 10 then [DigitChar(v)] else Render(v / 10) + [DigitChar(v % 10)]
  }

  lemma {:induction false} ReadRender(v: nat)
    ensures DigitsValue(Render(v)) == v
  {
    var ds := Render(v);
    if v >= 10 {
      ReadRender(v / 10);
      assert ds[..|ds| - 1] == Render(v / 10);
    }
  }

  /** One position of a pattern: a literal character or Python's `\s`. */
  datatype Token = Exact(c: char) | Space

  predicate Accepts(t: Token, c: char) {
    match t
    case Exact(e) => c == e
    case Space => IsSpace(c)
  }

  predicate TokensAt(s: string, i: nat, ts: seq<Token>) {
    i + |ts| <= |s| && forall k :: 0 <= k < |ts| ==> Accepts(ts[k], s[i + k])
  }

  /** The regular expression `before(\d+)after`. */
  datatype Pattern = Pattern(before: seq<Token>, after: seq<Token>)

  /** The token after the digits cannot itself be a digit, so greedy `\d+` never backtracks. */
  predicate WellFormed(p: Pattern) {
    |p.after| > 0 && !(p.after[0].Exact? && IsDigit(p.after[0].c))
  }

  const HighDetailPattern := Pattern([Exact('H'), Exact('i'), Exact('g'), Exact('h'), Exact('D'), Exact('e'), Exact('t'), Exact('a'), Exact('i'), Exact('l'), Exact(':'), Space], [Exact('%')])
  const LowDetailPattern := Pattern([Exact('L'), Exact('o'), Exact('w'), Exact('D'), Exact('e'), Exact('t'), Exact('a'), Exact('i'), Exact('l'), Exact(':'), Space], [Exact('%')])
  const MotionPattern := Pattern([Exact('3'), Exact('0'), Exact('s'), Exact(':'), Space], [Space, Exact('p'), Exact('e'), Exact('r'), Exact('c'), Exact('e'), Exact('n'), Exact('t')])

  /** The regular-expression meaning: the pattern matches at `i` with `n` captured digits. */
  predicate MatchesAt(s: string, i: nat, p: Pattern, n: nat) {
    var j := i + |p.before|;
    && TokensAt(s, i, p.before)
    && 1 <= n && j + n <= |s|
    && AllDigits(s[j..j + n])
    && TokensAt(s, j + n, p.after)
  }

  /** `int(m.group(1))` for a match at `i` with `n` captured digits. */
  function Captured(s: string, i: nat, p: Pattern, n: nat): nat
    requires MatchesAt(s, i, p, n)
  {
    DigitsValue(s[i + |p.before|..i + |p.before| + n])
  }

  /** Length of the longest run of digits starting at `j`. */
  function DigitRun(s: string, j: nat): (n: nat)
    requires j <= |s|
    ensures j + n <= |s| && AllDigits(s[j..j + n])
    ensures j + n == |s| || !IsDigit(s[j + n])
    decreases |s| - j
  {
    if j < |s| && IsDigit(s[j]) then
      var m := DigitRun(s, j + 1);
      assert s[j..j + 1 + m] == [s[j]] + s[j + 1..j + 1 + m];
      1 + m
    else 0
  }

  /** Attempt to match at position `i` only: greedy digits, then the trailing tokens. */
  function MatchAt(s: string, i: nat, p: Pattern): Option<nat>
    requires i <= |s|
  {
    var j := i + |p.before|;
    if TokensAt(s, i, p.before) then
      var n := DigitRun(s, j);
      if n >= 1 && TokensAt(s, j + n, p.after) then Some(DigitsValue(s[j..j + n])) else None
    else None
  }

  /** With a well-formed pattern the match at `i` is unique: its digit run is the longest one. */
  lemma OnlyLongestRunMatches(s: string, i: nat, p: Pattern, n: nat)
    requires WellFormed(p) && MatchesAt(s, i, p, n)
    ensures n == DigitRun(s, i + |p.before|)
  {
    var j := i + |p.before|;
    var m := DigitRun(s, j);
    forall q | j <= q < j + m ensures IsDigit(s[q]) {
      assert s[j..j + m][q - j] == s[q];
    }
    forall q | j <= q < j + n ensures IsDigit(s[q]) {
      assert s[j..j + n][q - j] == s[q];
    }
    assert Accepts(p.after[0], s[j + n]);
  }

  /** A successful `MatchAt` is a match of the regular expression, with the longest digit run. */
  lemma MatchAtSound(s: string, i: nat, p: Pattern)
    requires i <= |s|
    ensures MatchAt(s, i, p).Some? ==>
      i + |p.before| <= |s| && MatchesAt(s, i, p, DigitRun(s, i + |p.before|))
  {
  }

  /** `MatchAt` finds exactly the regular-expression matches at `i`, and captures their value. */
  lemma MatchAtSpec(s: string, i: nat, p: Pattern)
    requires i <= |s| && WellFormed(p)
    ensures MatchAt(s, i, p).Some? <==> exists n :: MatchesAt(s, i, p, n)
    ensures forall n :: MatchesAt(s, i, p, n) ==> MatchAt(s, i, p) == Some(Captured(s, i, p, n))
  {
    MatchAtSound(s, i, p);
    forall n | MatchesAt(s, i, p, n)
      ensures MatchAt(s, i, p) == Some(Captured(s, i, p, n))
    {
      OnlyLongestRunMatches(s, i, p, n);
    }
  }

  /** `re.search` tries the positions from `from` on, in order. */
  function FirstMatch(s: string, p: Pattern, from: nat): nat
    requires from <= |s|
    decreases |s| - from
  {
    if MatchAt(s, from, p).Some? then from
    else if from == |s| then |s| + 1
    else FirstMatch(s, p, from + 1)
  }

  /** The search stops at the first position where the pattern matches, or at `|s| + 1` when
      there is none. */
  lemma {:induction false} FirstMatchSpec(s: string, p: Pattern, from: nat)
    requires from <= |s|
    ensures from <= FirstMatch(s, p, from) <= |s| + 1
    ensures FirstMatch(s, p, from) <= |s| ==> MatchAt(s, FirstMatch(s, p, from), p).Some?
    ensures forall k :: from <= k < FirstMatch(s, p, from) && k <= |s| ==> MatchAt(s, k, p).None?
    decreases |s| - from
  {
    if MatchAt(s, from, p).None? && from < |s| {
      FirstMatchSpec(s, p, from + 1);
    }
  }

  /** `int(re.search(pattern, s).group(1))`, or None when the search finds nothing. */
  function Extract(s: string, p: Pattern): Option<nat> {
    var i := FirstMatch(s, p, 0);
    if i <= |s| then MatchAt(s, i, p) else None
  }

  /** The extracted value is the one captured by the leftmost match of the regular expression,
      and nothing is extracted exactly when the text holds no match at all. */
  lemma ExtractSpec(s: string, p: Pattern)
    requires WellFormed(p)
    ensures Extract(s, p).None? <==> forall i: nat, n: nat :: !MatchesAt(s, i, p, n)
    ensures Extract(s, p).Some? ==>
      exists i: nat, n: nat :: && MatchesAt(s, i, p, n)
                               && Extract(s, p).value == Captured(s, i, p, n)
                               && forall k: nat, m: nat :: k < i ==> !MatchesAt(s, k, p, m)
  {
    var i := FirstMatch(s, p, 0);
    FirstMatchSpec(s, p, 0);
    forall k: nat, m: nat | k < i ensures !MatchesAt(s, k, p, m) {
      if k <= |s| {
        MatchAtSpec(s, k, p);
      }
    }
    if i <= |s| {
      MatchAtSpec(s, i, p);
      var n: nat :| MatchesAt(s, i, p, n);
      assert Extract(s, p).value == Captured(s, i, p, n);
    }
  }

  /** The search runs past a stretch of text where nothing matches. */
  lemma {:induction false} FirstMatchSkips(s: string, p: Pattern, from: nat, to: nat)
    requires from <= to <= |s|
    requires forall k :: from <= k < to ==> MatchAt(s, k, p).None?
    ensures FirstMatch(s, p, from) == FirstMatch(s, p, to)
    decreases (to as int) - (from as int)
  {
    if from < to {
      FirstMatchSkips(s, p, from + 1, to);
    }
  }

  /** A match whose digits spell `v` captures `v`. */
  lemma MatchesRendered(s: string, i: nat, p: Pattern, v: nat)
    requires WellFormed(p) && TokensAt(s, i, p.before)
    requires i + |p.before| + |Render(v)| <= |s|
    requires s[i + |p.before|..i + |p.before| + |Render(v)|] == Render(v)
    requires TokensAt(s, i + |p.before| + |Render(v)|, p.after)
    ensures MatchAt(s, i, p) == Some(v)
  {
    var n := |Render(v)|;
    assert MatchesAt(s, i, p, n);
    OnlyLongestRunMatches(s, i, p, n);
    ReadRender(v);
  }

  /** The reply of the camera's `ms` console command for a 30-second motion score. */
  function MotionReply(score: nat): string {
    "30s: " + Render(score) + " percent"
  }

  /** The text the detail tool prints for a frame with the given high and low detail scores. */
  function DetailReport(high: nat, low: nat): string {
    "HighDetail: " + Render(high) + "%\n" + "LowDetail: " + Render(low) + "%\n"
  }

  /** Reading back a motion reply, whatever follows it, gives the score it was made from. */
  lemma MotionReplyRoundTrip(score: nat, rest: string)
    ensures Extract(MotionReply(score) + rest, MotionPattern) == Some(score)
  {
    var s := MotionReply(score) + rest;
    var ds := Render(score);
    assert s == "30s: " + ds + " percent" + rest;
    assert s[5..5 + |ds|] == ds;
    assert TokensAt(s, 0, MotionPattern.before);
    assert TokensAt(s, 5 + |ds|, MotionPattern.after) by {
      assert s[5 + |ds|..5 + |ds| + 8] == " percent";
    }
    MatchesRendered(s, 0, MotionPattern, score);
  }

  /** A detail report starts with the high detail score... */
  lemma DetailReportHigh(high: nat, low: nat)
    ensures Extract(DetailReport(high, low), HighDetailPattern) == Some(high)
  {
    var h := Render(high);
    var tail := "%\n" + "LowDetail: " + Render(low) + "%\n";
    var s := DetailReport(high, low);
    assert s == "HighDetail: " + h + tail;
    assert s[12..12 + |h|] == h;
    assert TokensAt(s, 0, HighDetailPattern.before);
    assert TokensAt(s, 12 + |h|, HighDetailPattern.after);
    MatchesRendered(s, 0, HighDetailPattern, high);
  }

  /** A match cannot start at a character other than the pattern's first literal. */
  lemma NoMatchAtOtherChar(s: string, k: nat, p: Pattern)
    requires k < |s| && |p.before| > 0 && p.before[0].Exact? && s[k] != p.before[0].c
    ensures MatchAt(s, k, p).None?
  {
  }

  /** The search finds a match that follows text which cannot start one. */
  lemma FoundAfter(a: string, b: string, p: Pattern, v: nat)
    requires |p.before| > 0 && p.before[0].Exact?
    requires forall k :: 0 <= k < |a| ==> a[k] != p.before[0].c
    requires MatchAt(a + b, |a|, p) == Some(v)
    ensures Extract(a + b, p) == Some(v)
  {
    var s := a + b;
    forall k | 0 <= k < |a| ensures MatchAt(s, k, p).None? {
      assert s[k] == a[k];
      NoMatchAtOtherChar(s, k, p);
    }
    FirstMatchSkips(s, p, 0, |a|);
  }

  /** The low detail line matches where it starts, whatever precedes it. */
  lemma LowLineMatches(a: string, low: nat)
    ensures MatchAt(a + ("LowDetail: " + Render(low) + "%\n"), |a|, LowDetailPattern) == Some(low)
  {
    var l := Render(low);
    var s := a + ("LowDetail: " + l + "%\n");
    var off := |a|;
    assert s[off + 11..off + 11 + |l|] == l;
    assert TokensAt(s, off, LowDetailPattern.before) by {
      assert s[off..off + 11] == "LowDetail: ";
    }
    assert TokensAt(s, off + 11 + |l|, LowDetailPattern.after);
    MatchesRendered(s, off, LowDetailPattern, low);
  }

  /** ...and no `LowDetail:` match can start inside the high detail line. */
  lemma DetailReportLow(high: nat, low: nat)
    ensures Extract(DetailReport(high, low), LowDetailPattern) == Some(low)
  {
    var h := Render(high);
    var a := "HighDetail: " + h + "%\n";
    var b := "LowDetail: " + Render(low) + "%\n";
    assert DetailReport(high, low) == a + b;
    forall k | 0 <= k < |a| ensures a[k] != 'L' {
      if 12 <= k < 12 + |h| {
        assert a[k] == h[k - 12];
      }
    }
    LowLineMatches(a, low);
    FoundAfter(a, b, LowDetailPattern, low);
  }

  /** Reading back a detail report gives both scores it was made from. */
  lemma DetailReportRoundTrip(high: nat, low: nat)
    ensures Extract(DetailReport(high, low), HighDetailPattern) == Some(high)
    ensures Extract(DetailReport(high, low), LowDetailPattern) == Some(low)
  {
    DetailReportHigh(high, low);
    DetailReportLow(high, low);
  }
}
