/** The two regular-expression splits of the inline renderer, written out as
    leftmost-match scans: `line.split(/(\*\*[^*]+\*\*)/)`, which keeps the
    bold spans it matches, and `text.split(/\n\s*\n/)`, which drops the
    paragraph breaks. */
module Markup {
  import opened Strings

  function Concat(xs: seq<string>): string
    decreases |xs|
  {
    if xs == [] then [] else xs[0] + Concat(xs[1..])
  }

  lemma ConcatPair(a: string, b: string, rest: seq<string>)
    ensures Concat([a, b] + rest) == a + b + Concat(rest)
  {
    assert ([a, b] + rest)[1..] == [b] + rest;
    assert ([b] + rest)[1..] == rest;
  }

  // ---------------------------------------------------------------------
  // Bold spans

  /** A whole match of `\*\*[^*]+\*\*`: two stars, at least one character
      that is not a star, two stars. */
  predicate IsSpan(t: string) {
    |t| >= 5 && t[0] == '*' && t[1] == '*' && t[|t| - 2] == '*' && t[|t| - 1] == '*'
    && forall k :: 2 <= k < |t| - 2 ==> t[k] != '*'
  }

  /** No bold span occurs anywhere in t. */
  predicate SpanFree(t: string) {
    forall i, j :: 0 <= i <= j <= |t| ==> !IsSpan(t[i..j])
  }

  /** Length of the run of non-star characters at the start of s. */
  function StarFreeRun(s: string): (n: nat)
    ensures n <= |s|
    ensures forall k :: 0 <= k < n ==> s[k] != '*'
    ensures n < |s| ==> s[n] == '*'
    decreases |s|
  {
    if |s| > 0 && s[0] != '*' then 1 + StarFreeRun(s[1..]) else 0
  }

  /** The length of the bold span that starts at the beginning of s, or 0 when
      none does. */
  function SpanLen(s: string): (n: nat)
    ensures n <= |s|
    ensures n > 0 ==> IsSpan(s[..n])
  {
    if |s| >= 2 && s[0] == '*' && s[1] == '*' then
      var k := StarFreeRun(s[2..]);
      if 1 <= k && k + 4 <= |s| && s[k + 3] == '*' then k + 4 else 0
    else 0
  }

  /** Since `[^*]+` cannot run past a star, at most one span starts at a
      given position, and SpanLen finds it. */
  lemma SpanLenUnique(s: string, m: nat)
    requires m <= |s| && IsSpan(s[..m])
    ensures SpanLen(s) == m
  {
    var k := StarFreeRun(s[2..]);
    assert s[..m][2..m - 2] == s[2..][..m - 4];
  }

  /** The pieces of `s[i..]`'s split, scanning for the leftmost span from
      position i on; nothing before i starts a span. */
  function SplitSpans(s: string, i: nat): seq<string>
    requires i <= |s|
    decreases |s| - i
  {
    if i == |s| then [s]
    else
      var n := SpanLen(s[i..]);
      if n > 0 then [s[..i], s[i..i + n]] + SplitSpans(s[i + n..], 0)
      else SplitSpans(s, i + 1)
  }

  /** `s.split(/(\*\*[^*]+\*\*)/)`. */
  function BoldSplit(s: string): seq<string> {
    SplitSpans(s, 0)
  }

  /** A span inside t is a span starting at that position of any string t
      is a prefix of. */
  lemma SpanInPrefix(s: string, i: nat, a: nat, b: nat)
    requires a <= b <= i <= |s|
    requires IsSpan(s[..i][a..b])
    ensures SpanLen(s[a..]) == b - a
  {
    assert s[a..][..b - a] == s[..i][a..b];
    SpanLenUnique(s[a..], b - a);
  }

  /** Text without spans, then any number of (span, text without spans)
      pairs: the shape of a split that keeps its matches. */
  predicate Alternates(parts: seq<string>)
    decreases |parts|
  {
    |parts| >= 1 && SpanFree(parts[0])
    && (|parts| == 1 || (|parts| >= 3 && IsSpan(parts[1]) && Alternates(parts[2..])))
  }

  lemma {:induction false} SplitSpansConcat(s: string, i: nat)
    requires i <= |s|
    ensures Concat(SplitSpans(s, i)) == s
    decreases |s| - i
  {
    if i == |s| {
      assert Concat([s]) == s + Concat([]);
    } else {
      var n := SpanLen(s[i..]);
      if n > 0 {
        var rest := SplitSpans(s[i + n..], 0);
        SplitAtSpan(s, i, n);
        SplitSpansConcat(s[i + n..], 0);
        ConcatPair(s[..i], s[i..i + n], rest);
        Resplit(s, i, i + n);
      } else {
        SkipOne(s, i);
        SplitSpansConcat(s, i + 1);
      }
    }
  }

  lemma Resplit(s: string, i: nat, j: nat)
    requires i <= j <= |s|
    ensures s[..i] + s[i..j] + s[j..] == s
  {
  }

  /** When no span starts before i, the text before i is free of spans. */
  lemma NoSpanBefore(s: string, i: nat)
    requires i <= |s|
    requires forall a :: 0 <= a < i ==> SpanLen(s[a..]) == 0
    ensures SpanFree(s[..i])
  {
    forall a, b | 0 <= a <= b <= i ensures !IsSpan(s[..i][a..b]) {
      if IsSpan(s[..i][a..b]) {
        SpanInPrefix(s, i, a, b);
      }
    }
  }

  lemma {:induction false} SplitSpansParts(s: string, i: nat)
    requires i <= |s|
    requires forall a :: 0 <= a < i ==> SpanLen(s[a..]) == 0
    ensures Alternates(SplitSpans(s, i))
    decreases |s| - i
  {
    if i == |s| {
      NoSpanBefore(s, i);
      assert s[..i] == s;
    } else {
      var n := SpanLen(s[i..]);
      if n > 0 {
        var rest := SplitSpans(s[i + n..], 0);
        SplitSpansParts(s[i + n..], 0);
        NoSpanBefore(s, i);
        assert s[i..][..n] == s[i..i + n];
        SplitAtSpan(s, i, n);
        var parts := [s[..i], s[i..i + n]] + rest;
        assert parts[2..] == rest;
      } else {
        SkipOne(s, i);
        SplitSpansParts(s, i + 1);
      }
    }
  }

  /** The split alternates text without spans (even positions) and spans
      (odd positions), and its pieces concatenate back to the line. */
  lemma BoldSplitShape(s: string)
    ensures Alternates(BoldSplit(s)) && Concat(BoldSplit(s)) == s
  {
    SplitSpansConcat(s, 0);
    SplitSpansParts(s, 0);
  }

  /** Positions without a span start can be skipped over. */
  lemma {:induction false} SplitSpansSkip(s: string, i: nat, j: nat)
    requires i <= j <= |s|
    requires forall a :: i <= a < j ==> SpanLen(s[a..]) == 0
    ensures SplitSpans(s, i) == SplitSpans(s, j)
    decreases j - i
  {
    if i < j {
      assert SpanLen(s[i..]) == 0;
      SkipOne(s, i);
      SplitSpansSkip(s, i + 1, j);
    }
  }

  lemma SkipOne(s: string, i: nat)
    requires i < |s| && SpanLen(s[i..]) == 0
    ensures SplitSpans(s, i) == SplitSpans(s, i + 1)
  {
  }

  /** Star-free text, a span around star-free text, then anything: the split
      starts with the text and the span, and goes on with the split of the
      rest. */
  lemma SplitFirstSpan(a: string, b: string, c: string)
    requires forall k :: 0 <= k < |a| ==> a[k] != '*'
    requires |b| >= 1 && forall k :: 0 <= k < |b| ==> b[k] != '*'
    ensures BoldSplit(a + "**" + b + "**" + c) == [a, "**" + b + "**"] + BoldSplit(c)
  {
    var t := "**" + b + "**";
    var s := a + t + c;
    assert s == a + "**" + b + "**" + c;
    var n := |t|;
    NoSpanInText(a, t + c);
    assert s == a + (t + c);
    SpanOfStarFree(b);
    SpanAtStart(s, |a|, t);
    FirstSpanAt(s, |a|, n);
    assert s[..|a|] == a;
    assert s[|a| + n..] == c;
  }

  lemma NoSpanInText(a: string, rest: string)
    requires forall k :: 0 <= k < |a| ==> a[k] != '*'
    ensures forall i :: 0 <= i < |a| ==> SpanLen((a + rest)[i..]) == 0
  {
    forall i | 0 <= i < |a| ensures SpanLen((a + rest)[i..]) == 0 {
      assert (a + rest)[i] == a[i];
      NoSpanAtNonStar(a + rest, i);
    }
  }

  lemma SpanOfStarFree(b: string)
    requires |b| >= 1 && forall k :: 0 <= k < |b| ==> b[k] != '*'
    ensures IsSpan("**" + b + "**")
  {
    var t := "**" + b + "**";
    forall k | 2 <= k < |t| - 2 ensures t[k] != '*' {
      assert t[k] == b[k - 2];
    }
  }

  lemma SpanAtStart(s: string, i: nat, t: string)
    requires i + |t| <= |s| && s[i..i + |t|] == t && IsSpan(t)
    ensures SpanLen(s[i..]) == |t| && s[i..i + |t|] == t
  {
    assert s[i..][..|t|] == t;
    SpanLenUnique(s[i..], |t|);
  }

  lemma NoSpanAtNonStar(s: string, i: nat)
    requires i < |s| && s[i] != '*'
    ensures SpanLen(s[i..]) == 0
  {
    assert s[i..][0] == s[i];
  }

  /** When the first span starts at i, the split is the text before it, the
      span, and the split of the rest. */
  lemma FirstSpanAt(s: string, i: nat, n: nat)
    requires i + n <= |s| && n > 0 && SpanLen(s[i..]) == n
    requires forall a :: 0 <= a < i ==> SpanLen(s[a..]) == 0
    ensures BoldSplit(s) == [s[..i], s[i..i + n]] + BoldSplit(s[i + n..])
  {
    SplitSpansSkip(s, 0, i);
    SplitAtSpan(s, i, n);
  }

  lemma SplitAtSpan(s: string, i: nat, n: nat)
    requires i + n <= |s| && n > 0 && SpanLen(s[i..]) == n
    ensures SplitSpans(s, i) == [s[..i], s[i..i + n]] + SplitSpans(s[i + n..], 0)
  {
  }

  /** `addFormattedText`'s test for a bold part: starts and ends with `**`. */
  predicate IsWrapped(p: string) {
    StartsWith(p, "**") && EndsWith(p, "**")
  }

  /** `p.slice(2, -2)`. */
  function Unwrap(p: string): string {
    if |p| >= 4 then p[2..|p| - 2] else []
  }

  /** A span passes the bold test, and stripping its markers leaves the
      non-empty text between them. */
  lemma SpanUnwraps(t: string)
    requires IsSpan(t)
    ensures IsWrapped(t)
    ensures "**" + Unwrap(t) + "**" == t && |Unwrap(t)| >= 1
  {
    assert t[..2] == "**" && t[|t| - 2..] == "**";
    assert t == t[..2] + t[2..|t| - 2] + t[|t| - 2..];
  }

  // ---------------------------------------------------------------------
  // Paragraph breaks

  /** A whole match of `\n\s*\n`: whitespace only, starting and ending with
      a line feed. */
  predicate IsBreak(t: string) {
    |t| >= 2 && t[0] == '\n' && t[|t| - 1] == '\n' && forall k :: 0 <= k < |t| ==> IsSpace(t[k])
  }

  /** No paragraph break occurs anywhere in t. */
  predicate BreakFree(t: string) {
    forall i, j :: 0 <= i <= j <= |t| ==> !IsBreak(t[i..j])
  }

  /** Scans the whitespace after a leading line feed, remembering the end of
      the last line feed seen (0 for none yet). */
  function ScanBreak(s: string, i: nat, best: nat): (n: nat)
    requires 1 <= i <= |s| && s[0] == '\n'
    requires forall k :: 0 <= k < i ==> IsSpace(s[k])
    requires best == 0 || (2 <= best <= i && s[best - 1] == '\n')
    requires forall k :: 1 <= k < i && best <= k ==> s[k] != '\n'
    ensures best <= n <= |s|
    ensures n > 0 ==> IsBreak(s[..n])
    ensures forall m :: 0 <= m <= |s| && IsBreak(s[..m]) ==> m <= n
    decreases |s| - i
  {
    if i < |s| && IsSpace(s[i]) then ScanBreak(s, i + 1, if s[i] == '\n' then i + 1 else best)
    else
      assert forall m :: i < m <= |s| ==> s[..m][i] == s[i];
      best
  }

  /** The length of the paragraph break at the start of s, or 0 when none
      starts there. The greedy `\s*` gives back characters only until a line
      feed follows, so the match is the longest break at that position. */
  function BreakLen(s: string): (n: nat)
    ensures n <= |s|
    ensures n > 0 ==> IsBreak(s[..n])
    ensures forall m :: 0 <= m <= |s| && IsBreak(s[..m]) ==> m <= n
  {
    if |s| >= 1 && s[0] == '\n' then ScanBreak(s, 1, 0) else 0
  }

  /** Pieces of s's split on paragraph breaks, scanning from position i. */
  function SplitBreaks(s: string, i: nat): (pieces: seq<string>)
    requires i <= |s|
    ensures |pieces| >= 1
    decreases |s| - i
  {
    if i == |s| then [s]
    else
      var n := BreakLen(s[i..]);
      if n > 0 then [s[..i]] + SplitBreaks(s[i + n..], 0)
      else SplitBreaks(s, i + 1)
  }

  /** `text.split(/\n\s*\n/)`. */
  function ParaSplit(s: string): seq<string> {
    SplitBreaks(s, 0)
  }

  lemma {:induction false} SplitBreaksSkip(s: string, i: nat, j: nat)
    requires i <= j <= |s|
    requires forall a :: i <= a < j ==> BreakLen(s[a..]) == 0
    ensures SplitBreaks(s, i) == SplitBreaks(s, j)
    decreases j - i
  {
    if i < j {
      assert BreakLen(s[i..]) == 0;
      SkipBreakless(s, i);
      SplitBreaksSkip(s, i + 1, j);
    }
  }

  /** When the first paragraph break starts at i, the split is the text
      before it and the split of the rest. */
  lemma FirstBreakAt(s: string, i: nat, n: nat)
    requires i <= |s| && n > 0 && BreakLen(s[i..]) == n
    requires forall a :: 0 <= a < i ==> BreakLen(s[a..]) == 0
    ensures ParaSplit(s) == [s[..i]] + ParaSplit(s[i + n..])
  {
    SplitBreaksSkip(s, 0, i);
    SplitAtBreak(s, i, n);
  }

  lemma SkipBreakless(s: string, i: nat)
    requires i < |s| && BreakLen(s[i..]) == 0
    ensures SplitBreaks(s, i) == SplitBreaks(s, i + 1)
  {
  }

  /** Text without a paragraph break is one paragraph. */
  lemma ParaSplitSingle(s: string)
    requires BreakFree(s)
    ensures ParaSplit(s) == [s]
  {
    forall a | 0 <= a < |s| ensures BreakLen(s[a..]) == 0 {
      var n := BreakLen(s[a..]);
      assert s[a..][..n] == s[a..a + n];
    }
    SplitBreaksSkip(s, 0, |s|);
  }

  /** Text in which every line feed is followed by a visible character has
      no paragraph break. */
  lemma NewlinesFollowedBreakFree(t: string)
    requires NewlinesFollowed(t)
    ensures BreakFree(t)
  {
    forall i, j | 0 <= i <= j <= |t| ensures !IsBreak(t[i..j]) {
      if j - i >= 2 && t[i..j][0] == '\n' {
        assert t[i..j][1] == t[i + 1];
      }
    }
  }

  /** A paragraph as the renderer's caller would write it: not empty, no
      surrounding whitespace, no paragraph break inside. */
  predicate CleanParagraph(p: string) {
    p != [] && !IsSpace(p[0]) && !IsSpace(p[|p| - 1]) && BreakFree(p)
  }

  /** Splitting clean paragraphs joined by blank lines gives them back. */
  lemma {:induction false} ParaSplitJoin(ps: seq<string>)
    requires |ps| >= 1
    requires forall k :: 0 <= k < |ps| ==> CleanParagraph(ps[k])
    ensures ParaSplit(Join(ps, "\n\n")) == ps
    decreases |ps|
  {
    if |ps| == 1 {
      ParaSplitSingle(ps[0]);
    } else {
      var p := ps[0];
      var q := Join(ps[1..], "\n\n");
      ParaSplitJoin(ps[1..]);
      JoinStartsClean(ps[1..]);
      SplitAfterParagraph(p, q);
      assert Join(ps, "\n\n") == p + "\n\n" + q;
      assert ps == [p] + ps[1..];
    }
  }

  /** A clean paragraph, a blank line, then text starting with a visible
      character: the paragraph is the first piece. */
  lemma SplitAfterParagraph(p: string, q: string)
    requires CleanParagraph(p) && q != [] && !IsSpace(q[0])
    ensures ParaSplit(p + "\n\n" + q) == [p] + ParaSplit(q)
  {
    var s := p + "\n\n" + q;
    forall a | 0 <= a < |p| ensures BreakLen(s[a..]) == 0 {
      NoBreakInParagraph(p, q, a);
    }
    SplitBreaksSkip(s, 0, |p|);
    BlankLineBreak(q);
    assert s[|p|..] == "\n\n" + q;
    SplitAtBreak(s, |p|, 2);
    assert s[..|p|] == p && s[|p| + 2..] == q;
  }

  lemma NoBreakInParagraph(p: string, q: string, a: nat)
    requires CleanParagraph(p) && a < |p|
    ensures BreakLen((p + "\n\n" + q)[a..]) == 0
  {
    var t := (p + "\n\n" + q)[a..];
    forall m | 0 <= m <= |t| ensures !IsBreak(t[..m]) {
      if m <= |p| - a {
        assert t[..m] == p[a..a + m];
      } else {
        assert t[..m][|p| - 1 - a] == p[|p| - 1];
      }
    }
  }

  /** Two line feeds before a visible character are a break of length two. */
  lemma BlankLineBreak(q: string)
    requires q != [] && !IsSpace(q[0])
    ensures BreakLen("\n\n" + q) == 2
  {
    var t := "\n\n" + q;
    assert t[2] == q[0];
  }

  lemma SplitAtBreak(s: string, i: nat, n: nat)
    requires i + n <= |s| && n > 0 && BreakLen(s[i..]) == n
    ensures SplitBreaks(s, i) == [s[..i]] + SplitBreaks(s[i + n..], 0)
  {
  }

  lemma JoinStartsClean(ps: seq<string>)
    requires |ps| >= 1 && ps[0] != [] && !IsSpace(ps[0][0])
    ensures var q := Join(ps, "\n\n"); q != [] && q[0] == ps[0][0]
  {
  }
}
