/**
  The pattern `(?<![「『])([。！？]+)(?![」』])` and Python's `re.split` with it.

  `IsMatch` says declaratively which spans the pattern accepts; Python's
  backtracking engine reports, at the leftmost position where some span is
  accepted, the longest such span (the repetition is greedy and gives back
  one mark at a time until the lookahead holds). The scanner below is proved
  to do exactly that.
 */
module SplitPattern {
  import opened Wrappers
  import opened PyStr

  /** The sentence-ending marks 。 ！ ？ (U+3002, U+FF01, U+FF1F). */
  predicate IsTerminal(c: char) {
    c == '\U{3002}' || c == '\U{FF01}' || c == '\U{FF1F}'
  }

  /** The opening quotes 「 『 (U+300C, U+300E). */
  predicate IsOpenQuote(c: char) {
    c == '\U{300C}' || c == '\U{300E}'
  }

  /** The closing quotes 」 』 (U+300D, U+300F). */
  predicate IsCloseQuote(c: char) {
    c == '\U{300D}' || c == '\U{300F}'
  }

  predicate AllTerminal(s: string) {
    forall i :: 0 <= i < |s| ==> IsTerminal(s[i])
  }

  /** The pattern accepts `s[i..j]`: one or more marks, no opening quote just
      before, no closing quote just after. */
  ghost predicate IsMatch(s: string, i: int, j: int) {
    0 <= i < j <= |s| &&
    (forall k :: i <= k < j ==> IsTerminal(s[k])) &&
    (i == 0 || !IsOpenQuote(s[i - 1])) &&
    (j == |s| || !IsCloseQuote(s[j]))
  }

  ghost predicate IsLongestMatch(s: string, i: int, j: int) {
    IsMatch(s, i, j) && forall j' :: j < j' <= |s| ==> !IsMatch(s, i, j')
  }

  ghost predicate NoMatchAt(s: string, i: int) {
    forall j :: !IsMatch(s, i, j)
  }

  datatype Span = Span(start: nat, end: nat)

  /**
    What a left-to-right scan from `from` finds: the leftmost accepted
    position, its longest span, and the same again after that span.
   */
  ghost predicate ScanFrom(s: string, from: nat, spans: seq<Span>)
    decreases |spans|
  {
    from <= |s| &&
    if spans == [] then
      forall p :: from <= p < |s| ==> NoMatchAt(s, p)
    else
      from <= spans[0].start &&
      (forall p :: from <= p < spans[0].start ==> NoMatchAt(s, p)) &&
      IsLongestMatch(s, spans[0].start, spans[0].end) &&
      ScanFrom(s, spans[0].end, spans[1..])
  }

  /** The end of the run of marks that starts at `i`. */
  function RunEnd(s: string, i: nat): (e: nat)
    requires i <= |s|
    ensures i <= e <= |s|
    ensures forall k :: i <= k < e ==> IsTerminal(s[k])
    ensures e == |s| || !IsTerminal(s[e])
    decreases |s| - i
  {
    if i < |s| && IsTerminal(s[i]) then RunEnd(s, i + 1) else i
  }

  /**
    The regular-expression engine tried at position `i`: the lookbehind,
    then the greedy run of marks, giving back marks while the lookahead fails.
   */
  function MatchAt(s: string, i: nat): (end: Option<nat>)
    requires i <= |s|
    ensures end.Some? ==> IsLongestMatch(s, i, end.value)
    ensures end.None? ==> NoMatchAt(s, i)
  {
    if i < |s| && IsTerminal(s[i]) && (i == 0 || !IsOpenQuote(s[i - 1])) then
      var e := RunEnd(s, i);
      if e == |s| || !IsCloseQuote(s[e]) then Some(e)
      else if e - i >= 2 then Some(e - 1)
      else None
    else None
  }

  /** The search for the next match, trying each position from `from` on. */
  function FindMatch(s: string, from: nat): (m: Option<Span>)
    requires from <= |s|
    ensures m.Some? ==>
      from <= m.value.start && IsLongestMatch(s, m.value.start, m.value.end) &&
      forall p :: from <= p < m.value.start ==> NoMatchAt(s, p)
    ensures m.None? ==> forall p :: from <= p < |s| ==> NoMatchAt(s, p)
    decreases |s| - from
  {
    if from == |s| then None
    else match MatchAt(s, from)
      case Some(end) => Some(Span(from, end))
      case None => FindMatch(s, from + 1)
  }

  /** Every match, left to right, as the engine reports them. */
  function MatchSpans(s: string, from: nat): (spans: seq<Span>)
    requires from <= |s|
    ensures ScanFrom(s, from, spans)
    decreases |s| - from
  {
    match FindMatch(s, from)
    case None => []
    case Some(m) =>
      var rest := MatchSpans(s, m.end);
      assert ([m] + rest)[1..] == rest;
      [m] + rest
  }

  /** The scan is determined: only one list of spans satisfies it. */
  lemma {:induction false} ScanIsUnique(s: string, from: nat, a: seq<Span>, b: seq<Span>)
    requires ScanFrom(s, from, a) && ScanFrom(s, from, b)
    ensures a == b
    decreases |a|
  {
    if a != [] {
      assert IsMatch(s, a[0].start, a[0].end);
      assert !NoMatchAt(s, a[0].start);
    }
    if b != [] {
      assert IsMatch(s, b[0].start, b[0].end);
      assert !NoMatchAt(s, b[0].start);
    }
    if a != [] && b != [] {
      assert a[0].start == b[0].start;
      assert a[0].end == b[0].end;
      ScanIsUnique(s, a[0].end, a[1..], b[1..]);
      assert a == [a[0]] + a[1..] && b == [b[0]] + b[1..];
    }
  }

  /**
    `re.split` with a capturing group: the text before each match, the
    match itself, and finally the text after the last match.
   */
  function Cut(s: string, from: nat, spans: seq<Span>): (parts: seq<string>)
    requires ScanFrom(s, from, spans)
    ensures |parts| == 2 * |spans| + 1
    ensures Concat(parts) == s[from..]
    ensures forall k :: 0 <= k < |parts| && k % 2 == 1 ==> parts[k] != [] && AllTerminal(parts[k])
    decreases |spans|
  {
    if spans == [] then
      [s[from..]]
    else
      var m := spans[0];
      var rest := Cut(s, m.end, spans[1..]);
      var parts := [s[from..m.start], s[m.start..m.end]] + rest;
      assert parts[1..] == [s[m.start..m.end]] + rest && parts[1..][1..] == rest;
      assert s[from..] == s[from..m.start] + s[m.start..m.end] + s[m.end..];
      parts
  }

  /** `re.split(pattern, s)`: odd-numbered parts are the runs of marks split on. */
  function RegexSplit(s: string): (parts: seq<string>)
    ensures |parts| % 2 == 1
    ensures Concat(parts) == s
    ensures forall k :: 0 <= k < |parts| && k % 2 == 1 ==> parts[k] != [] && AllTerminal(parts[k])
  {
    Cut(s, 0, MatchSpans(s, 0))
  }

  /** Part `2k+1` of the split is the text of the `k`th match. */
  lemma {:induction false} CutSeparator(s: string, from: nat, spans: seq<Span>, k: nat)
    requires ScanFrom(s, from, spans) && k < |spans|
    ensures spans[k].start < spans[k].end <= |s|
    ensures Cut(s, from, spans)[2 * k + 1] == s[spans[k].start..spans[k].end]
    decreases |spans|
  {
    if k > 0 {
      CutSeparator(s, spans[0].end, spans[1..], k - 1);
    }
  }

  /** Part `2k` of the split is the text between the previous match (or `from`) and the `k`th match. */
  lemma {:induction false} CutFragment(s: string, from: nat, spans: seq<Span>, k: nat)
    requires ScanFrom(s, from, spans) && k < |spans|
    ensures var prev := if k == 0 then from else spans[k - 1].end;
      prev <= spans[k].start <= |s| &&
      Cut(s, from, spans)[2 * k] == s[prev..spans[k].start]
    decreases |spans|
  {
    if k > 0 {
      CutFragment(s, spans[0].end, spans[1..], k - 1);
    }
  }

  /** Every span of the scan is a longest match. */
  lemma {:induction false} ScanSpan(s: string, from: nat, spans: seq<Span>, k: nat)
    requires ScanFrom(s, from, spans) && k < |spans|
    ensures from <= spans[k].start
    ensures IsLongestMatch(s, spans[k].start, spans[k].end)
    decreases |spans|
  {
    if k > 0 {
      ScanSpan(s, spans[0].end, spans[1..], k - 1);
    }
  }

  /**
    Split points respect the quotes: a run split on is never right after an
    opening quote nor right before a closing quote.
   */
  lemma SplitPointsAvoidQuotes(s: string, k: nat)
    requires k < |MatchSpans(s, 0)|
    ensures var m := MatchSpans(s, 0)[k];
      m.start < m.end <= |s| && AllTerminal(s[m.start..m.end]) &&
      (m.start == 0 || !IsOpenQuote(s[m.start - 1])) &&
      (m.end == |s| || !IsCloseQuote(s[m.end]))
  {
    ScanSpan(s, 0, MatchSpans(s, 0), k);
  }

  /** A span may start inside a run only just after a lone mark that follows an opening quote. */
  ghost predicate StartsRun(s: string, i: nat) {
    i <= |s| &&
    (i == 0 || !IsTerminal(s[i - 1]) || (i >= 2 && IsOpenQuote(s[i - 2])))
  }

  /** A span may end inside a run only just before a lone mark that precedes a closing quote. */
  ghost predicate EndsRun(s: string, j: nat) {
    j <= |s| &&
    (j == |s| || !IsTerminal(s[j]) || (j + 1 < |s| && IsCloseQuote(s[j + 1])))
  }

  lemma {:induction false} RunsKeptWholeFrom(s: string, from: nat, spans: seq<Span>, k: nat)
    requires ScanFrom(s, from, spans) && k < |spans|
    requires StartsRun(s, from) || NoMatchAt(s, from)
    ensures StartsRun(s, spans[k].start) && EndsRun(s, spans[k].end)
    decreases |spans|
  {
    var m := spans[0];
    assert IsMatch(s, m.start, m.end);
    assert EndsRun(s, m.end) by {
      if m.end < |s| && IsTerminal(s[m.end]) {
        assert !IsMatch(s, m.start, m.end + 1);
      }
    }
    if k == 0 {
      if m.start > from && IsTerminal(s[m.start - 1]) {
        assert NoMatchAt(s, m.start - 1);
        assert !IsMatch(s, m.start - 1, m.end);
      }
    } else {
      if m.end < |s| && IsTerminal(s[m.end]) {
        assert !IsMatch(s, m.start, m.end + 1);
      }
      assert NoMatchAt(s, m.end);
      RunsKeptWholeFrom(s, m.end, spans[1..], k - 1);
    }
  }

  /**
    A run of marks is split on whole: a split point falls inside a run only
    where a quote forces the engine to leave a single mark behind.
   */
  lemma RunsKeptWhole(s: string, k: nat)
    requires k < |MatchSpans(s, 0)|
    ensures StartsRun(s, MatchSpans(s, 0)[k].start) && EndsRun(s, MatchSpans(s, 0)[k].end)
  {
    RunsKeptWholeFrom(s, 0, MatchSpans(s, 0), k);
  }

  /** After the last span nothing more matches. */
  lemma {:induction false} CutLast(s: string, from: nat, spans: seq<Span>)
    requires ScanFrom(s, from, spans)
    ensures var parts := Cut(s, from, spans);
      var tail := parts[|parts| - 1];
      |tail| <= |s| - from && tail == s[|s| - |tail|..] &&
      forall p :: |s| - |tail| <= p < |s| ==> NoMatchAt(s, p)
    decreases |spans|
  {
    if spans != [] {
      CutLast(s, spans[0].end, spans[1..]);
    }
  }
}
