/**
  `split_sentence_for_tts`: text is cut into paragraphs at line feeds, blank
  paragraphs are skipped, each remaining paragraph is stripped and split on
  runs of sentence-ending marks, and each fragment is glued back to the run
  that follows it.
 */
module SentenceSplitter {
  import opened Wrappers
  import opened PyStr
  import opened SplitPattern

  /** No whitespace at either end, and not empty. */
  predicate Trimmed(s: string) {
    s != [] && !IsSpace(s[0]) && !IsSpace(s[|s| - 1])
  }

  /**
    The `while` loop over the split parts: each (fragment, marks) pair,
    both stripped, becomes one sentence; a lone last fragment is kept only
    if something is left after stripping it.
   */
  function Recombine(parts: seq<string>): seq<string>
    decreases |parts|
  {
    if |parts| == 0 then []
    else if |parts| == 1 then
      (var last := Strip(parts[0]); if last == [] then [] else [last])
    else [Strip(parts[0]) + Strip(parts[1])] + Recombine(parts[2..])
  }

  function StripEach(parts: seq<string>): seq<string>
  {
    if parts == [] then [] else [Strip(parts[0])] + StripEach(parts[1..])
  }

  /** The sentences one paragraph contributes. */
  function ParagraphSentences(paragraph: string): seq<string>
  {
    var text := Strip(paragraph);
    if text == [] then [] else Recombine(RegexSplit(text))
  }

  /** `f` applied to each element, the results concatenated in order. */
  function FlatMap<A, B>(f: A -> seq<B>, xs: seq<A>): seq<B>
    decreases |xs|
  {
    if xs == [] then [] else FlatMap(f, xs[..|xs| - 1]) + f(xs[|xs| - 1])
  }

  function SentencesOfParagraphs(paragraphs: seq<string>): seq<string>
  {
    FlatMap(ParagraphSentences, paragraphs)
  }

  /** What `split_sentence_for_tts(text)` returns. */
  function SplitSentences(text: string): seq<string>
  {
    SentencesOfParagraphs(SplitLines(text))
  }

  /** The function as written: a loop over paragraphs, and a loop that pops parts. */
  method SplitSentenceForTts(text: string) returns (splitText: seq<string>)
    ensures splitText == SplitSentences(text)
    ensures forall k :: 0 <= k < |splitText| ==> Trimmed(splitText[k]) && '\n' !in splitText[k]
  {
    var paragraphs := SplitLines(text);
    splitText := [];
    for i := 0 to |paragraphs|
      invariant splitText == SentencesOfParagraphs(paragraphs[..i])
    {
      var paragraph := paragraphs[i];
      FlatMapStep(ParagraphSentences, paragraphs, i);
      ghost var target := ParagraphSentences(paragraph);
      if Strip(paragraph) != [] {
        var sentences := RegexSplit(Strip(paragraph));
        ghost var before := splitText;
        while |sentences| > 0
          invariant splitText + Recombine(sentences) == before + target
          decreases |sentences|
        {
          if |sentences| == 1 {
            var s := Strip(sentences[0]);
            sentences := sentences[..0];
            if s != [] {
              splitText := splitText + [s];
            }
            break;
          }
          RecombinePair(sentences);
          var fragment := Strip(sentences[0]);
          sentences := sentences[1..];
          var marks := Strip(sentences[0]);
          sentences := sentences[1..];
          splitText := splitText + [fragment + marks];
        }
      }
    }
    assert paragraphs[..|paragraphs|] == paragraphs;
    SentencesWellFormed(text);
  }

  // ---------------------------------------------------------------------
  // Recombination

  lemma RecombinePair(parts: seq<string>)
    requires |parts| >= 2
    ensures Recombine(parts) == [Strip(parts[0]) + Strip(parts[1])] + Recombine(parts[1..][1..])
  {
    assert parts[1..][1..] == parts[2..];
  }

  ghost predicate MarksAtOddParts(parts: seq<string>) {
    forall k :: 0 <= k < |parts| && k % 2 == 1 ==> parts[k] != [] && AllTerminal(parts[k])
  }

  lemma MarksAtOddPartsTail(parts: seq<string>)
    requires |parts| >= 2 && MarksAtOddParts(parts)
    ensures MarksAtOddParts(parts[2..])
  {
    forall k | 0 <= k < |parts[2..]| && k % 2 == 1
      ensures parts[2..][k] != [] && AllTerminal(parts[2..][k])
    {
      assert parts[2..][k] == parts[k + 2] && (k + 2) % 2 == 1;
    }
  }

  /** Dropping `k` sentences is dropping `2k` parts. */
  lemma {:induction false} RecombineDrop(parts: seq<string>, k: nat)
    requires 2 * k <= |parts|
    ensures k <= |Recombine(parts)|
    ensures Recombine(parts)[k..] == Recombine(parts[2 * k..])
    decreases k
  {
    if k > 0 {
      var rest := parts[2..];
      RecombineDrop(rest, k - 1);
      assert rest[2 * (k - 1)..] == parts[2 * k..];
      assert Recombine(parts)[k..] == Recombine(rest)[k - 1..] by {
        assert Recombine(parts) == [Strip(parts[0]) + Strip(parts[1])] + Recombine(rest);
      }
    }
  }

  /** Sentence `k` is the stripped fragment `2k` with the stripped marks `2k+1` after it. */
  lemma RecombineAt(parts: seq<string>, k: nat)
    requires 2 * k + 1 < |parts|
    ensures k < |Recombine(parts)|
    ensures Recombine(parts)[k] == Strip(parts[2 * k]) + Strip(parts[2 * k + 1])
  {
    RecombineDrop(parts, k);
    var tail := parts[2 * k..];
    assert tail[0] == parts[2 * k] && tail[1] == parts[2 * k + 1];
    assert Recombine(tail) == [Strip(tail[0]) + Strip(tail[1])] + Recombine(tail[2..]);
    assert Recombine(parts)[k] == Recombine(parts)[k..][0];
  }

  /** Every recombined sentence is non-empty and has no whitespace at its ends. */
  lemma {:induction false} RecombineTrimmed(parts: seq<string>)
    requires MarksAtOddParts(parts)
    ensures forall k :: 0 <= k < |Recombine(parts)| ==> Trimmed(Recombine(parts)[k])
    decreases |parts|
  {
    if |parts| >= 2 {
      assert parts[1] != [] && AllTerminal(parts[1]);
      StripTrimmed(parts[1]);
      MarksAtOddPartsTail(parts);
      RecombineTrimmed(parts[2..]);
    }
  }

  /** One sentence per split point, plus one for a non-blank last fragment. */
  lemma {:induction false} RecombineCount(parts: seq<string>)
    requires |parts| % 2 == 1
    ensures |Recombine(parts)| == |parts| / 2 + (if Strip(parts[|parts| - 1]) == [] then 0 else 1)
    decreases |parts|
  {
    if |parts| > 1 {
      RecombineCount(parts[2..]);
    }
  }

  /** Nothing is reordered or dropped but the whitespace at fragment edges. */
  lemma {:induction false} RecombineInOrder(parts: seq<string>)
    ensures Concat(Recombine(parts)) == Concat(StripEach(parts))
    decreases |parts|
  {
    if |parts| == 1 {
      assert StripEach(parts) == [Strip(parts[0])];
    } else if |parts| >= 2 {
      RecombineInOrder(parts[2..]);
      var a, b := Strip(parts[0]), Strip(parts[1]);
      var rest := Recombine(parts[2..]);
      assert ([a + b] + rest)[1..] == rest;
      assert parts[1..][1..] == parts[2..];
      assert StripEach(parts) == [a] + StripEach(parts[1..]);
      assert StripEach(parts[1..]) == [b] + StripEach(parts[2..]);
      assert StripEach(parts)[1..] == StripEach(parts[1..]);
    }
  }

  /** Recombination only uses characters of its parts. */
  lemma {:induction false} RecombineLacks(parts: seq<string>, c: char)
    requires forall k :: 0 <= k < |parts| ==> c !in parts[k]
    ensures forall k :: 0 <= k < |Recombine(parts)| ==> c !in Recombine(parts)[k]
    decreases |parts|
  {
    if |parts| == 1 {
      StripLacks(parts[0], c);
    } else if |parts| >= 2 {
      StripLacks(parts[0], c);
      StripLacks(parts[1], c);
      RecombineLacks(parts[2..], c);
    }
  }

  lemma {:induction false} StripEachIdentity(parts: seq<string>)
    requires forall k :: 0 <= k < |parts| ==> NoSpace(parts[k])
    ensures StripEach(parts) == parts
    decreases |parts|
  {
    if parts != [] {
      assert NoSpace(parts[0]);
      StripTrimmed(parts[0]);
      assert forall k :: 0 <= k < |parts[1..]| ==> parts[1..][k] == parts[k + 1];
      StripEachIdentity(parts[1..]);
      assert StripEach(parts) == [parts[0]] + parts[1..];
    }
  }

  // ---------------------------------------------------------------------
  // One paragraph

  lemma ParagraphSentencesTrimmed(paragraph: string)
    ensures forall k :: 0 <= k < |ParagraphSentences(paragraph)| ==> Trimmed(ParagraphSentences(paragraph)[k])
  {
    var text := Strip(paragraph);
    if text != [] {
      RecombineTrimmed(RegexSplit(text));
    }
  }

  /** A character that is not in the paragraph is in none of its sentences. */
  lemma ParagraphSentencesLack(paragraph: string, c: char)
    requires c !in paragraph
    ensures forall k :: 0 <= k < |ParagraphSentences(paragraph)| ==> c !in ParagraphSentences(paragraph)[k]
  {
    var text := Strip(paragraph);
    if text != [] {
      StripLacks(paragraph, c);
      ConcatLacks(RegexSplit(text), c);
      RecombineLacks(RegexSplit(text), c);
    }
  }

  /**
    Order is kept: the paragraph's sentences, concatenated, are the stripped
    paragraph's split parts, each stripped, concatenated.
   */
  lemma ParagraphInOrder(paragraph: string)
    ensures var text := Strip(paragraph);
      Concat(RegexSplit(text)) == text &&
      Concat(ParagraphSentences(paragraph)) == Concat(StripEach(RegexSplit(text)))
  {
    var text := Strip(paragraph);
    RecombineInOrder(RegexSplit(text));
    if text == [] {
      var parts := RegexSplit(text);
      assert |parts| == 1 && parts[0] == [];
      assert StripEach(parts) == [[]];
    }
  }

  /** A paragraph without any whitespace is reproduced exactly by its sentences. */
  lemma ParagraphReassembled(paragraph: string)
    requires NoSpace(paragraph)
    ensures Concat(ParagraphSentences(paragraph)) == paragraph
  {
    StripTrimmed(paragraph);
    ParagraphInOrder(paragraph);
    var parts := RegexSplit(paragraph);
    ConcatNoSpace(parts);
    StripEachIdentity(parts);
  }

  /** Sentence `k` of a split is the stripped fragment before span `k` with that span's marks. */
  lemma CutSentenceAt(s: string, spans: seq<Span>, k: nat)
    requires ScanFrom(s, 0, spans) && k < |spans|
    ensures var prev := if k == 0 then 0 else spans[k - 1].end;
      prev <= spans[k].start < spans[k].end <= |s| &&
      k < |Recombine(Cut(s, 0, spans))| &&
      Recombine(Cut(s, 0, spans))[k] == Strip(s[prev..spans[k].start]) + s[spans[k].start..spans[k].end]
  {
    var parts := Cut(s, 0, spans);
    var marks := parts[2 * k + 1];
    assert marks != [] && AllTerminal(marks) by {
      assert (2 * k + 1) % 2 == 1;
    }
    StripTrimmed(marks);
    RecombineAt(parts, k);
    CutFragment(s, 0, spans, k);
    CutSeparator(s, 0, spans, k);
  }

  /**
    Sentence `k` of a paragraph is the fragment between the previous match
    and the `k`th one, stripped, with the `k`th match's run of marks attached
    to it whole.
   */
  lemma ParagraphSentenceAt(paragraph: string, k: nat)
    requires k < |MatchSpans(Strip(paragraph), 0)|
    ensures var text := Strip(paragraph);
      var spans := MatchSpans(text, 0);
      var prev := if k == 0 then 0 else spans[k - 1].end;
      prev <= spans[k].start < spans[k].end <= |text| &&
      k < |ParagraphSentences(paragraph)| &&
      ParagraphSentences(paragraph)[k] == Strip(text[prev..spans[k].start]) + text[spans[k].start..spans[k].end]
  {
    var text := Strip(paragraph);
    CutSentenceAt(text, MatchSpans(text, 0), k);
  }

  /**
    A paragraph that ends in a mark (not a lone mark right after an opening
    quote) yields exactly one sentence per split point: no trailing extra.
   */
  lemma MarkEndedParagraphHasNoTail(paragraph: string)
    requires var text := Strip(paragraph);
      text != [] && IsTerminal(text[|text| - 1]) &&
      (|text| == 1 || !IsOpenQuote(text[|text| - 2]))
    ensures |ParagraphSentences(paragraph)| == |MatchSpans(Strip(paragraph), 0)|
  {
    MarkEndedTextHasNoTail(Strip(paragraph));
  }

  lemma MarkEndedTextHasNoTail(text: string)
    requires text != [] && IsTerminal(text[|text| - 1])
    requires |text| == 1 || !IsOpenQuote(text[|text| - 2])
    ensures |Recombine(RegexSplit(text))| == |MatchSpans(text, 0)|
  {
    var parts := RegexSplit(text);
    var n := |MatchSpans(text, 0)|;
    FinalMarkLeavesEmptyTail(text);
    assert |parts| / 2 == n by { assert |parts| == 2 * n + 1; }
    assert Strip(parts[|parts| - 1]) == [] by { assert AllSpace(parts[|parts| - 1]); }
    RecombineCount(parts);
  }

  lemma FinalMarkLeavesEmptyTail(text: string)
    requires text != [] && IsTerminal(text[|text| - 1])
    requires |text| == 1 || !IsOpenQuote(text[|text| - 2])
    ensures var parts := RegexSplit(text);
      |parts| == 2 * |MatchSpans(text, 0)| + 1 && parts[|parts| - 1] == []
  {
    TailAfterFinalMark(text, MatchSpans(text, 0));
  }

  lemma TailAfterFinalMark(text: string, spans: seq<Span>)
    requires text != [] && IsTerminal(text[|text| - 1])
    requires |text| == 1 || !IsOpenQuote(text[|text| - 2])
    requires ScanFrom(text, 0, spans)
    ensures var parts := Cut(text, 0, spans); parts[|parts| - 1] == []
  {
    var parts := Cut(text, 0, spans);
    CutLast(text, 0, spans);
    NothingAfterFinalMark(text, |parts[|parts| - 1]|);
  }

  /** A final mark is itself a match, so no match-free stretch can cover it. */
  lemma NothingAfterFinalMark(text: string, t: nat)
    requires text != [] && IsTerminal(text[|text| - 1])
    requires |text| == 1 || !IsOpenQuote(text[|text| - 2])
    requires t <= |text|
    requires forall p :: |text| - t <= p < |text| ==> NoMatchAt(text, p)
    ensures t == 0
  {
    assert IsMatch(text, |text| - 1, |text|);
    assert !NoMatchAt(text, |text| - 1);
  }

  // ---------------------------------------------------------------------
  // Whole text

  lemma {:induction false} FlatMapAppend<A, B>(f: A -> seq<B>, a: seq<A>, b: seq<A>)
    ensures FlatMap(f, a + b) == FlatMap(f, a) + FlatMap(f, b)
    decreases |b|
  {
    if b == [] {
      assert a + b == a;
    } else {
      var n := |b| - 1;
      assert (a + b)[..|a + b| - 1] == a + b[..n];
      FlatMapAppend(f, a, b[..n]);
    }
  }

  lemma FlatMapStep<A, B>(f: A -> seq<B>, xs: seq<A>, i: nat)
    requires i < |xs|
    ensures FlatMap(f, xs[..i + 1]) == FlatMap(f, xs[..i]) + f(xs[i])
  {
    assert xs[..i + 1][..i] == xs[..i];
  }

  /** Every element of the result comes from one element of the input. */
  lemma {:induction false} FlatMapOrigin<A, B>(f: A -> seq<B>, xs: seq<A>, k: nat)
    requires k < |FlatMap(f, xs)|
    ensures exists p, j :: 0 <= p < |xs| && 0 <= j < |f(xs[p])| && FlatMap(f, xs)[k] == f(xs[p])[j]
    decreases |xs|
  {
    var n := |xs| - 1;
    var init := xs[..n];
    if k < |FlatMap(f, init)| {
      FlatMapOrigin(f, init, k);
      var p, j :| 0 <= p < |init| && 0 <= j < |f(init[p])| && FlatMap(f, init)[k] == f(init[p])[j];
      assert init[p] == xs[p];
    } else {
      var j := k - |FlatMap(f, init)|;
      assert FlatMap(f, xs)[k] == f(xs[n])[j];
    }
  }

  lemma {:induction false} FlatMapOfNothing<A, B>(f: A -> seq<B>, xs: seq<A>)
    requires forall p :: 0 <= p < |xs| ==> f(xs[p]) == []
    ensures FlatMap(f, xs) == []
    decreases |xs|
  {
    if xs != [] {
      FlatMapOfNothing(f, xs[..|xs| - 1]);
    }
  }

  lemma SentencesOfParagraphsAppend(a: seq<string>, b: seq<string>)
    ensures SentencesOfParagraphs(a + b) == SentencesOfParagraphs(a) + SentencesOfParagraphs(b)
  {
    FlatMapAppend(ParagraphSentences, a, b);
  }

  /** Each output sentence comes from one paragraph. */
  lemma SentenceOrigin(paragraphs: seq<string>, k: nat)
    requires k < |SentencesOfParagraphs(paragraphs)|
    ensures exists p, j ::
      (0 <= p < |paragraphs| && 0 <= j < |ParagraphSentences(paragraphs[p])| &&
       SentencesOfParagraphs(paragraphs)[k] == ParagraphSentences(paragraphs[p])[j])
  {
    FlatMapOrigin(ParagraphSentences, paragraphs, k);
  }

  /** No sentence contains a line feed. */
  lemma SentencesHaveNoLineBreak(text: string)
    ensures forall k :: 0 <= k < |SplitSentences(text)| ==> '\n' !in SplitSentences(text)[k]
  {
    var paragraphs := SplitLines(text);
    forall k | 0 <= k < |SplitSentences(text)|
      ensures '\n' !in SplitSentences(text)[k]
    {
      SentenceOrigin(paragraphs, k);
      var p, j :| 0 <= p < |paragraphs| && 0 <= j < |ParagraphSentences(paragraphs[p])| &&
        SplitSentences(text)[k] == ParagraphSentences(paragraphs[p])[j];
      ParagraphSentencesLack(paragraphs[p], '\n');
    }
  }

  /** Every sentence is non-empty and has no whitespace at its ends. */
  lemma SentencesTrimmed(text: string)
    ensures forall k :: 0 <= k < |SplitSentences(text)| ==> Trimmed(SplitSentences(text)[k])
  {
    var paragraphs := SplitLines(text);
    forall k | 0 <= k < |SplitSentences(text)|
      ensures Trimmed(SplitSentences(text)[k])
    {
      SentenceOrigin(paragraphs, k);
      var p, j :| 0 <= p < |paragraphs| && 0 <= j < |ParagraphSentences(paragraphs[p])| &&
        SplitSentences(text)[k] == ParagraphSentences(paragraphs[p])[j];
      ParagraphSentencesTrimmed(paragraphs[p]);
    }
  }

  lemma SentencesWellFormed(text: string)
    ensures var out := SplitSentences(text);
      forall k :: 0 <= k < |out| ==> Trimmed(out[k]) && '\n' !in out[k]
  {
    SentencesTrimmed(text);
    SentencesHaveNoLineBreak(text);
  }

  lemma BlankParagraphsYieldNothing(paragraphs: seq<string>)
    requires forall k :: 0 <= k < |paragraphs| ==> AllSpace(paragraphs[k])
    ensures SentencesOfParagraphs(paragraphs) == []
  {
    FlatMapOfNothing(ParagraphSentences, paragraphs);
  }

  /** Empty or whitespace-only text yields no sentence. */
  lemma BlankTextYieldsNothing(text: string)
    requires AllSpace(text)
    ensures SplitSentences(text) == []
  {
    SplitLinesAllSpace(text);
    BlankParagraphsYieldNothing(SplitLines(text));
  }

  /** Paragraphs are split independently: a line feed separates their sentences. */
  lemma LineBreakSeparates(a: string, b: string)
    ensures SplitSentences(a + "\n" + b) == SplitSentences(a) + SplitSentences(b)
  {
    SplitLinesAppend(a, b);
    SentencesOfParagraphsAppend(SplitLines(a), SplitLines(b));
  }

  /** A blank line between two pieces of text contributes nothing. */
  lemma BlankLineIgnored(a: string, blank: string, b: string)
    requires AllSpace(blank)
    ensures SplitSentences(a + "\n" + blank + "\n" + b) == SplitSentences(a) + SplitSentences(b)
  {
    LineBreakSeparates(a + "\n" + blank, b);
    LineBreakSeparates(a, blank);
    BlankTextYieldsNothing(blank);
  }

  // ---------------------------------------------------------------------
  // Line endings

  /** Whitespace at the end of a paragraph changes none of its sentences. */
  lemma ParagraphTrailingSpace(paragraph: string, c: char)
    requires IsSpace(c)
    ensures ParagraphSentences(paragraph + [c]) == ParagraphSentences(paragraph)
  {
    StripSnocSpace(paragraph, c);
  }

  lemma SentencesOfLastParagraph(init: seq<string>, last: string)
    ensures SentencesOfParagraphs(init + [last]) == SentencesOfParagraphs(init) + ParagraphSentences(last)
  {
    assert (init + [last])[..|init|] == init;
  }

  /** Whitespace before a line feed, such as the `\r` of a CR LF pair, is dropped. */
  lemma TrailingSpaceIgnored(text: string, c: char)
    requires IsSpace(c) && c != '\n'
    ensures SplitSentences(text + [c]) == SplitSentences(text)
  {
    var lines := SplitLines(text);
    var n := |lines| - 1;
    SplitLinesSnoc(text, c);
    ParagraphTrailingSpace(lines[n], c);
    SentencesOfLastParagraph(lines[..n], lines[n] + [c]);
    SentencesOfLastParagraph(lines[..n], lines[n]);
    FrontLast(lines);
  }

  /** A CR LF line break splits exactly as a bare line feed does. */
  lemma CrLfIsLineBreak(a: string, b: string)
    ensures SplitSentences(a + "\r\n" + b) == SplitSentences(a + "\n" + b)
  {
    var cr := a + ['\r'];
    assert a + "\r\n" + b == cr + "\n" + b;
    calc {
      SplitSentences(cr + "\n" + b);
    == { LineBreakSeparates(cr, b); }
      SplitSentences(cr) + SplitSentences(b);
    == { TrailingSpaceIgnored(a, '\r'); }
      SplitSentences(a) + SplitSentences(b);
    == { LineBreakSeparates(a, b); }
      SplitSentences(a + "\n" + b);
    }
  }

  // ---------------------------------------------------------------------
  // Worked cases

  /**
    A closing quote after a run of two marks: the engine gives back the
    second mark, so only the first is a split point.
   */
  lemma QuoteSpans(a: char)
    requires !IsTerminal(a) && !IsOpenQuote(a)
    ensures MatchSpans([a, '。', '！', '」'], 0) == [Span(1, 2)]
  {
    var s := [a, '。', '！', '」'];
    assert MatchAt(s, 0).None?;
    assert IsTerminal(s[1]) && IsTerminal(s[2]) && !IsTerminal(s[3]) && IsCloseQuote(s[3]);
    assert RunEnd(s, 3) == 3;
    assert RunEnd(s, 2) == 3;
    assert RunEnd(s, 1) == 3;
    assert MatchAt(s, 1) == Some(2);
    assert MatchAt(s, 2).None? && MatchAt(s, 3).None?;
    assert FindMatch(s, 4).None? && FindMatch(s, 3).None? && FindMatch(s, 2).None?;
    assert FindMatch(s, 0) == FindMatch(s, 1) == Some(Span(1, 2));
    assert MatchSpans(s, 2) == [];
  }

  /** `re.split` keeps the mark left before the closing quote in the last part. */
  lemma QuoteSplit(a: char)
    requires !IsTerminal(a) && !IsOpenQuote(a)
    ensures RegexSplit([a, '。', '！', '」']) == [[a], ['。'], ['！', '」']]
  {
    var s := [a, '。', '！', '」'];
    QuoteSpans(a);
    assert [Span(1, 2)][1..] == [];
    assert s[0..1] == [a] && s[1..2] == ['。'] && s[2..] == ['！', '」'];
    assert Cut(s, 0, [Span(1, 2)]) == [[a], ['。']] + Cut(s, 2, []);
  }

  /** One split point in whitespace-free text: a sentence and a tail. */
  lemma RecombineOneSplit(a: string, m: string, b: string)
    requires NoSpace(a) && NoSpace(m) && NoSpace(b) && b != []
    ensures Recombine([a, m, b]) == [a + m, b]
  {
    var parts := [a, m, b];
    StripTrimmed(a);
    StripTrimmed(m);
    StripTrimmed(b);
    RecombinePair(parts);
    assert parts[1..][1..] == [b];
  }

  /** A paragraph with no whitespace is split as it is. */
  lemma TrimmedParagraph(s: string)
    requires NoSpace(s) && s != []
    ensures ParagraphSentences(s) == Recombine(RegexSplit(s))
  {
    StripTrimmed(s);
  }

  /** A paragraph without line feeds is the whole text. */
  lemma OneParagraph(s: string)
    requires '\n' !in s
    ensures SplitSentences(s) == ParagraphSentences(s)
  {
    SplitLinesSingle(s);
    SentencesOfLastParagraph([], s);
    assert [] + [s] == [s];
  }

  /**
    `"A。！」"`, for any ordinary first character, gives the sentences
    `"A。"` and `"！」"`.
   */
  lemma QuoteAfterRun(a: char)
    requires !IsSpace(a) && !IsTerminal(a) && !IsOpenQuote(a)
    ensures SplitSentences([a, '。', '！', '」']) == [[a, '。'], ['！', '」']]
  {
    var s := [a, '。', '！', '」'];
    assert '\n' !in s;
    OneParagraph(s);
    QuoteParagraph(a);
  }

  /** The paragraph `a。！」` on its own. */
  lemma QuoteParagraph(a: char)
    requires !IsSpace(a) && !IsTerminal(a) && !IsOpenQuote(a)
    ensures ParagraphSentences([a, '。', '！', '」']) == [[a, '。'], ['！', '」']]
  {
    var s := [a, '。', '！', '」'];
    QuoteNoSpace(a);
    TrimmedParagraph(s);
    QuoteSplit(a);
    QuotePieces(a);
    assert [a] + ['。'] == [a, '。'];
  }

  lemma QuoteNoSpace(a: char)
    requires !IsSpace(a)
    ensures NoSpace([a, '。', '！', '」'])
  {
    assert !IsSpace('。') && !IsSpace('！') && !IsSpace('」');
    NoSpaceOfFour([a, '。', '！', '」']);
  }

  lemma QuotePieces(a: char)
    requires !IsSpace(a)
    ensures Recombine([[a], ['。'], ['！', '」']]) == [[a] + ['。'], ['！', '」']]
  {
    var s := [a, '。', '！', '」'];
    QuoteNoSpace(a);
    SliceNoSpace(s, 0, 1);
    SliceNoSpace(s, 1, 2);
    SliceNoSpace(s, 2, 4);
    assert s[0..1] == [a] && s[1..2] == ['。'] && s[2..4] == ['！', '」'];
    RecombineOneSplit([a], ['。'], ['！', '」']);
  }

  lemma NoSpaceOfFour(s: string)
    requires |s| == 4 && !IsSpace(s[0]) && !IsSpace(s[1]) && !IsSpace(s[2]) && !IsSpace(s[3])
    ensures NoSpace(s)
  {
  }

  lemma LoneMarkSplit()
    ensures RegexSplit("。") == ["", "。", ""]
  {
    var s := "。";
    assert MatchAt(s, 0) == Some(1);
    assert MatchSpans(s, 1) == [];
    assert MatchSpans(s, 0) == [Span(0, 1)];
    assert [Span(0, 1)][1..] == [];
    assert s[0..0] == "" && s[0..1] == "。" && s[1..] == "";
    assert Cut(s, 0, [Span(0, 1)]) == ["", "。"] + Cut(s, 1, []);
  }

  /**
    A paragraph that is a single mark is kept: the empty fragment before it
    is glued to it, giving the sentence `"。"`.
   */
  lemma LoneMark()
    ensures SplitSentences("。") == ["。"]
  {
    var s, e := "。", "";
    assert NoSpace(s);
    TrimmedParagraph(s);
    LoneMarkSplit();
    StripTrimmed(s);
    StripTrimmed(e);
    var parts := [e, s, e];
    RecombinePair(parts);
    assert parts[1..][1..] == [e];
    assert e + s == s;
    OneParagraph(s);
  }
}
