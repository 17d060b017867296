/**
  The parts of Python's `str` that the sentence splitter relies on:
  `isspace`, `strip`, `split("\n")` and `"".join`.
 */
module PyStr {

  /** The characters for which Python's `str.isspace()` holds. */
  predicate IsSpace(c: char) {
    ('\t' <= c <= '\r') || ('\U{1C}' <= c <= '\U{1F}') || c == ' ' ||
    c == '\U{85}' || c == '\U{A0}' || c == '\U{1680}' ||
    ('\U{2000}' <= c <= '\U{200A}') || c == '\U{2028}' || c == '\U{2029}' ||
    c == '\U{202F}' || c == '\U{205F}' || c == '\U{3000}'
  }

  predicate AllSpace(s: string) {
    forall i :: 0 <= i < |s| ==> IsSpace(s[i])
  }

  predicate NoSpace(s: string) {
    forall i :: 0 <= i < |s| ==> !IsSpace(s[i])
  }

  /** `s.lstrip()`: leading whitespace dropped (see `LStripIsSuffix`). */
  function LStrip(s: string): (r: string)
    ensures |r| <= |s|
    ensures r == [] || !IsSpace(r[0])
    ensures r == [] <==> AllSpace(s)
  {
    if s != [] && IsSpace(s[0]) then LStrip(s[1..]) else s
  }

  /** What `lstrip` leaves is a suffix, and what it drops is whitespace. */
  lemma {:induction false} LStripIsSuffix(s: string)
    ensures var r := LStrip(s);
      r == s[|s| - |r|..] && forall k :: 0 <= k < |s| - |r| ==> IsSpace(s[k])
  {
    if s != [] && IsSpace(s[0]) {
      LStripIsSuffix(s[1..]);
    }
  }

  /** `s.rstrip()`: trailing whitespace dropped (see `RStripIsPrefix`). */
  function RStrip(s: string): (r: string)
    ensures |r| <= |s|
    ensures r == [] || !IsSpace(r[|r| - 1])
    ensures r == [] <==> AllSpace(s)
  {
    if s != [] && IsSpace(s[|s| - 1]) then RStrip(s[..|s| - 1]) else s
  }

  /** What `rstrip` leaves is a prefix, and what it drops is whitespace. */
  lemma {:induction false} RStripIsPrefix(s: string)
    ensures var r := RStrip(s);
      r == s[..|r|] && forall k :: |r| <= k < |s| ==> IsSpace(s[k])
  {
    if s != [] && IsSpace(s[|s| - 1]) {
      RStripIsPrefix(s[..|s| - 1]);
    }
  }

  /**
    `s.strip()`: whitespace is cut from both ends, and what is left starts
    and ends with a non-whitespace character (see `StripIsSlice` for where
    it sits in `s`).
   */
  function Strip(s: string): (r: string)
    ensures |r| <= |s|
    ensures r == [] || (!IsSpace(r[0]) && !IsSpace(r[|r| - 1]))
    ensures r == [] <==> AllSpace(s)
  {
    var l := LStrip(s);
    LStripIsSuffix(s);
    RStripIsPrefix(l);
    RStrip(l)
  }

  /** The stripped string is the slice of `s` between its whitespace ends. */
  lemma StripIsSlice(s: string)
    ensures var i := |s| - |LStrip(s)|; var r := Strip(s);
      i + |r| <= |s| && r == s[i..i + |r|] &&
      (forall k :: 0 <= k < i ==> IsSpace(s[k])) &&
      (forall k :: i + |r| <= k < |s| ==> IsSpace(s[k]))
  {
    var l := LStrip(s);
    var i := |s| - |l|;
    var r := RStrip(l);
    assert Strip(s) == r;
    assert l == s[i..] && forall k :: 0 <= k < i ==> IsSpace(s[k]) by {
      LStripIsSuffix(s);
    }
    assert r == l[..|r|] && forall k :: |r| <= k < |l| ==> IsSpace(l[k]) by {
      RStripIsPrefix(l);
    }
    SpaceAfterPrefix(s, i, l, |r|);
    PrefixOfSuffix(s, i, l, r);
  }

  /** A prefix of the suffix `s[i..]` is a slice of `s` starting at `i`. */
  lemma PrefixOfSuffix<T>(s: seq<T>, i: nat, l: seq<T>, r: seq<T>)
    requires i <= |s| && l == s[i..] && |r| <= |l| && r == l[..|r|]
    ensures r == s[i..i + |r|]
  {
  }

  /** Whitespace after position `n` of the suffix `s[i..]` is whitespace after `i + n` in `s`. */
  lemma SpaceAfterPrefix(s: string, i: nat, l: string, n: nat)
    requires i <= |s| && l == s[i..] && n <= |l|
    requires forall k :: n <= k < |l| ==> IsSpace(l[k])
    ensures forall k :: i + n <= k < |s| ==> IsSpace(s[k])
  {
    forall k | i + n <= k < |s|
      ensures IsSpace(s[k])
    {
      assert s[k] == l[k - i];
    }
  }

  /** A non-empty list is its front followed by its last element. */
  lemma FrontLast<T>(s: seq<T>)
    requires s != []
    ensures s[..|s| - 1] + [s[|s| - 1]] == s
  {
  }

  /** A string with no whitespace at its edges is left as it is by `strip`. */
  lemma StripTrimmed(s: string)
    requires s == [] || (!IsSpace(s[0]) && !IsSpace(s[|s| - 1]))
    ensures Strip(s) == s
  {
    var l := LStrip(s);
    assert |l| == |s|;
    var r := RStrip(l);
    assert |r| == |l|;
  }

  /** `strip` keeps out every character the string lacks. */
  lemma StripLacks(s: string, c: char)
    requires c !in s
    ensures c !in Strip(s)
  {
    StripIsSlice(s);
  }

  /** `sep.join`-free concatenation, Python's `"".join(parts)`. */
  function Concat(parts: seq<string>): string
  {
    if parts == [] then [] else parts[0] + Concat(parts[1..])
  }

  lemma {:induction false} ConcatAppend(a: seq<string>, b: seq<string>)
    ensures Concat(a + b) == Concat(a) + Concat(b)
  {
    if a == [] {
      assert a + b == b;
    } else {
      assert (a + b)[1..] == a[1..] + b;
      ConcatAppend(a[1..], b);
    }
  }

  /** Where part `k` sits inside the concatenation. */
  function Offset(parts: seq<string>, k: nat): nat
    requires k <= |parts|
  {
    |Concat(parts[..k])|
  }

  lemma PartAtOffset(parts: seq<string>, k: nat)
    requires k < |parts|
    ensures Offset(parts, k) + |parts[k]| <= |Concat(parts)|
    ensures Concat(parts)[Offset(parts, k)..Offset(parts, k) + |parts[k]|] == parts[k]
  {
    var post := parts[k..];
    assert parts == parts[..k] + post;
    ConcatAppend(parts[..k], post);
    assert post[1..] == parts[k + 1..];
    assert Concat(post) == parts[k] + Concat(parts[k + 1..]);
    assert Concat(parts) == Concat(parts[..k]) + (parts[k] + Concat(parts[k + 1..]));
  }

  /** A character absent from the concatenation is absent from every part. */
  lemma ConcatLacks(parts: seq<string>, c: char)
    requires c !in Concat(parts)
    ensures forall k :: 0 <= k < |parts| ==> c !in parts[k]
  {
    forall k | 0 <= k < |parts|
      ensures c !in parts[k]
    {
      PartAtOffset(parts, k);
    }
  }

  lemma SliceNoSpace(s: string, i: nat, j: nat)
    requires NoSpace(s) && i <= j <= |s|
    ensures NoSpace(s[i..j])
  {
  }

  /** Whitespace-free concatenation means whitespace-free parts. */
  lemma ConcatNoSpace(parts: seq<string>)
    requires NoSpace(Concat(parts))
    ensures forall k :: 0 <= k < |parts| ==> NoSpace(parts[k])
  {
    forall k | 0 <= k < |parts|
      ensures NoSpace(parts[k])
    {
      PartAtOffset(parts, k);
      SliceNoSpace(Concat(parts), Offset(parts, k), Offset(parts, k) + |parts[k]|);
    }
  }

  /**
    Python's `s.split("\n")`: the pieces between line feeds, in order; there
    is always at least one piece, and no piece holds a line feed.
   */
  function SplitLines(s: string): (lines: seq<string>)
    ensures |lines| >= 1
    ensures forall k :: 0 <= k < |lines| ==> '\n' !in lines[k]
    decreases |s|
  {
    if s == [] then [[]]
    else
      var rest := SplitLines(s[1..]);
      if s[0] == '\n' then [[]] + rest
      else [[s[0]] + rest[0]] + rest[1..]
  }

  /** Python's `"\n".join(lines)`. */
  function JoinLines(lines: seq<string>): string
    requires |lines| >= 1
  {
    if |lines| == 1 then lines[0] else lines[0] + "\n" + JoinLines(lines[1..])
  }

  /** Joining the pieces again with line feeds gives back the text. */
  lemma {:induction false} JoinSplitRoundTrip(s: string)
    ensures JoinLines(SplitLines(s)) == s
    decreases |s|
  {
    if s != [] {
      var rest := SplitLines(s[1..]);
      JoinSplitRoundTrip(s[1..]);
      if s[0] == '\n' {
        assert ([[]] + rest)[1..] == rest;
      } else {
        var lines := [[s[0]] + rest[0]] + rest[1..];
        if |rest| > 1 {
          assert lines[1..] == rest[1..];
          assert JoinLines(rest) == rest[0] + "\n" + JoinLines(rest[1..]);
        }
      }
    }
  }

  /** A line break ends the last piece of the text before it. */
  lemma {:induction false} SplitLinesAppend(a: string, b: string)
    ensures SplitLines(a + "\n" + b) == SplitLines(a) + SplitLines(b)
    decreases |a|
  {
    if a == [] {
      assert a + "\n" + b == "\n" + b;
      assert ("\n" + b)[1..] == b;
    } else {
      assert (a + "\n" + b)[1..] == a[1..] + "\n" + b;
      SplitLinesAppend(a[1..], b);
    }
  }

  /** Text without a line feed is one piece. */
  lemma {:induction false} SplitLinesSingle(s: string)
    requires '\n' !in s
    ensures SplitLines(s) == [s]
    decreases |s|
  {
    if s != [] {
      assert s[0] in s;
      assert forall c :: c in s[1..] ==> c in s;
      SplitLinesSingle(s[1..]);
      assert [s[0]] + s[1..] == s;
    }
  }

  /** Splitting text joined from line-feed-free pieces gives back the pieces. */
  lemma {:induction false} SplitJoinRoundTrip(lines: seq<string>)
    requires |lines| >= 1
    requires forall k :: 0 <= k < |lines| ==> '\n' !in lines[k]
    ensures SplitLines(JoinLines(lines)) == lines
    decreases |lines|
  {
    SplitLinesSingle(lines[0]);
    if |lines| > 1 {
      SplitJoinRoundTrip(lines[1..]);
      SplitLinesAppend(lines[0], JoinLines(lines[1..]));
    }
  }

  /** Whitespace-only text splits into whitespace-only pieces. */
  lemma {:induction false} SplitLinesAllSpace(s: string)
    requires AllSpace(s)
    ensures forall k :: 0 <= k < |SplitLines(s)| ==> AllSpace(SplitLines(s)[k])
    decreases |s|
  {
    if s != [] {
      SplitLinesAllSpace(s[1..]);
    }
  }

  /** `lstrip` of text with a whitespace character appended. */
  lemma {:induction false} LStripSnocSpace(s: string, c: char)
    requires IsSpace(c)
    ensures LStrip(s + [c]) == if AllSpace(s) then [] else LStrip(s) + [c]
    decreases |s|
  {
    if s == [] {
      assert LStrip([c]) == LStrip([c][1..]);
    } else if IsSpace(s[0]) {
      assert (s + [c])[1..] == s[1..] + [c];
      LStripSnocSpace(s[1..], c);
    } else {
      assert !AllSpace(s);
    }
  }

  /** Trailing whitespace makes no difference to `strip`. */
  lemma StripSnocSpace(s: string, c: char)
    requires IsSpace(c)
    ensures Strip(s + [c]) == Strip(s)
  {
    LStripSnocSpace(s, c);
    if !AllSpace(s) {
      var l := LStrip(s);
      assert RStrip(l + [c]) == RStrip((l + [c])[..|l|]);
      assert (l + [c])[..|l|] == l;
    }
  }

  /** A character other than a line feed extends the last piece. */
  lemma {:induction false} SplitLinesSnoc(s: string, c: char)
    requires c != '\n'
    ensures var lines := SplitLines(s); var n := |lines| - 1;
      SplitLines(s + [c]) == lines[..n] + [lines[n] + [c]]
    decreases |s|
  {
    var lines := SplitLines(s);
    var n := |lines| - 1;
    var t := s + [c];
    if s == [] {
      assert t == [c] && t[0] == c && t[1..] == [];
      assert lines == [[]] && n == 0;
      assert SplitLines(t[1..]) == [[]];
      assert SplitLines(t) == [[c] + []] + [[]][1..];
      assert [c] + [] == [c];
      assert SplitLines(t) == [[c]];
      assert lines[..n] + [lines[n] + [c]] == [[c]];
    } else {
      assert t[0] == s[0] && t[1..] == s[1..] + [c];
      SplitLinesSnoc(s[1..], c);
      var rest := SplitLines(s[1..]);
      var m := |rest| - 1;
      var rest' := rest[..m] + [rest[m] + [c]];
      assert SplitLines(t[1..]) == rest';
      if s[0] == '\n' {
        assert lines == [[]] + rest && n == m + 1;
        assert SplitLines(t) == [[]] + rest';
        assert lines[..n] == [[]] + rest[..m];
      } else {
        assert lines == [[s[0]] + rest[0]] + rest[1..] && n == m;
        assert SplitLines(t) == [[s[0]] + rest'[0]] + rest'[1..];
        if m == 0 {
          assert rest' == [rest[0] + [c]];
          assert [s[0]] + (rest[0] + [c]) == ([s[0]] + rest[0]) + [c];
        } else {
          assert rest'[0] == rest[0];
          assert rest'[1..] == rest[1..m] + [rest[m] + [c]];
          assert lines[..n] == [[s[0]] + rest[0]] + rest[1..m];
          assert lines[n] == rest[m];
        }
      }
    }
  }
}
