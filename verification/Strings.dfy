/** ASCII string helpers standing in for the JavaScript string methods the
    formatter uses: `trim`, `toLowerCase`, `startsWith`, `endsWith`,
    `includes`, `split` on one character, `join` and number formatting.
    Whitespace and letters are ASCII only. */
module Strings {

  /** ASCII whitespace as JavaScript's `trim` and `\s` see it:
      space, tab, line feed, vertical tab, form feed, carriage return. */
  predicate IsSpace(c: char) {
    c == ' ' || ('\t' <= c <= '\r')
  }

  /** `\w`: ASCII letters, digits and underscore. */
  predicate IsWordChar(c: char) {
    ('a' <= c <= 'z') || ('A' <= c <= 'Z') || ('0' <= c <= '9') || c == '_'
  }

  function Lower(c: char): char {
    if 'A' <= c <= 'Z' then (c as int + 32) as char else c
  }

  function Upper(c: char): char {
    if 'a' <= c <= 'z' then (c as int - 32) as char else c
  }

  /** `s.toLowerCase()` on ASCII letters. */
  function ToLower(s: string): (r: string)
    ensures |r| == |s|
  {
    seq(|s|, k requires 0 <= k < |s| => Lower(s[k]))
  }

  predicate IsUpper(c: char) {
    'A' <= c <= 'Z'
  }

  /** No upper-case letter is left, every other character is unchanged, and
      lower-casing again changes nothing. */
  lemma ToLowerShape(s: string)
    ensures var r := ToLower(s);
      && (forall k :: 0 <= k < |r| ==> !IsUpper(r[k]))
      && (forall k :: 0 <= k < |s| && !IsUpper(s[k]) ==> r[k] == s[k])
      && ToLower(r) == r
  {
    var r := ToLower(s);
    forall k | 0 <= k < |s| ensures !IsUpper(r[k]) && (!IsUpper(s[k]) ==> r[k] == s[k]) {
      assert r[k] == Lower(s[k]);
    }
    assert forall k :: 0 <= k < |r| ==> ToLower(r)[k] == r[k];
  }

  /** a and b are the same text up to ASCII letter case. */
  predicate SameIgnoringCase(a: string, b: string) {
    |a| == |b| && forall k :: 0 <= k < |a| ==> Lower(a[k]) == Lower(b[k])
  }

  /** A case-insensitive prefix test: for a pattern without upper-case
      letters, the lower-cased text starts with it exactly when the text's
      first |p| characters are p up to letter case. */
  lemma StartsWithIgnoringCase(s: string, p: string)
    requires forall k :: 0 <= k < |p| ==> !IsUpper(p[k])
    ensures StartsWith(ToLower(s), p) <==> |p| <= |s| && SameIgnoringCase(s[..|p|], p)
  {
    var r := ToLower(s);
    if |p| <= |s| {
      forall k | 0 <= k < |p| ensures Lower(p[k]) == p[k] && r[k] == Lower(s[..|p|][k]) {
      }
      if StartsWith(r, p) {
        assert forall k :: 0 <= k < |p| ==> r[..|p|][k] == p[k];
      }
      if SameIgnoringCase(s[..|p|], p) {
        assert forall k :: 0 <= k < |p| ==> r[..|p|][k] == p[k];
        assert r[..|p|] == p;
      }
    }
  }

  predicate StartsWith(s: string, p: string) {
    |p| <= |s| && s[..|p|] == p
  }

  predicate EndsWith(s: string, p: string) {
    |p| <= |s| && s[|s| - |p|..] == p
  }

  /** `s.includes(p)`: p occurs somewhere in s. */
  predicate Includes(s: string, p: string)
    decreases |s|
  {
    StartsWith(s, p) || (|s| > 0 && Includes(s[1..], p))
  }

  /** Leading whitespace removed. */
  function TrimStart(s: string): (r: string)
    ensures |r| <= |s|
    decreases |s|
  {
    if |s| > 0 && IsSpace(s[0]) then TrimStart(s[1..]) else s
  }

  /** The result of TrimStart is a suffix of s, everything cut off is
      whitespace, and the result does not start with whitespace. */
  lemma {:induction false} TrimStartShape(s: string)
    ensures var r := TrimStart(s);
      && r == s[|s| - |r|..]
      && (forall k :: 0 <= k < |s| - |r| ==> IsSpace(s[k]))
      && (r == [] || !IsSpace(r[0]))
    decreases |s|
  {
    if |s| > 0 && IsSpace(s[0]) {
      TrimStartShape(s[1..]);
      var r := TrimStart(s);
      assert s[1..][|s| - 1 - |r|..] == s[|s| - |r|..];
      forall k | 1 <= k < |s| - |r| ensures IsSpace(s[k]) {
        assert s[k] == s[1..][k - 1];
      }
    }
  }

  /** Trailing whitespace removed. */
  function TrimEnd(s: string): (r: string)
    ensures |r| <= |s|
    decreases |s|
  {
    if |s| > 0 && IsSpace(s[|s| - 1]) then TrimEnd(s[..|s| - 1]) else s
  }

  /** The result of TrimEnd is a prefix of s, everything cut off is
      whitespace, and the result does not end with whitespace. */
  lemma {:induction false} TrimEndShape(s: string)
    ensures var r := TrimEnd(s);
      && r == s[..|r|]
      && (forall k :: |r| <= k < |s| ==> IsSpace(s[k]))
      && (r == [] || !IsSpace(r[|r| - 1]))
    decreases |s|
  {
    if |s| > 0 && IsSpace(s[|s| - 1]) {
      TrimEndShape(s[..|s| - 1]);
      var r := TrimEnd(s);
      assert s[..|s| - 1][..|r|] == s[..|r|];
      forall k | |r| <= k < |s| - 1 ensures IsSpace(s[k]) {
        assert s[k] == s[..|s| - 1][k];
      }
    }
  }

  /** `s.trim()`. */
  function Trim(s: string): string {
    TrimEnd(TrimStart(s))
  }

  /** A string without surrounding whitespace is its own trim. */
  lemma TrimOfTrimmed(s: string)
    requires s == [] || (!IsSpace(s[0]) && !IsSpace(s[|s| - 1]))
    ensures Trim(s) == s
  {
  }

  /** What `trim` returns has no surrounding whitespace, so trimming twice
      changes nothing. */
  lemma TrimIdempotent(s: string)
    ensures var t := Trim(s); t == [] || (!IsSpace(t[0]) && !IsSpace(t[|t| - 1]))
    ensures Trim(Trim(s)) == Trim(s)
  {
    var u := TrimStart(s);
    var t := TrimEnd(u);
    TrimStartShape(s);
    TrimEndShape(u);
    assert t == [] || t[0] == u[0];
    TrimOfTrimmed(t);
  }

  /** `xs.join(sep)`. */
  function Join(xs: seq<string>, sep: string): string
    decreases |xs|
  {
    if |xs| == 0 then []
    else if |xs| == 1 then xs[0]
    else xs[0] + sep + Join(xs[1..], sep)
  }

  /** What `trim` keeps is a run of the original characters. */
  lemma TrimKeepsCharacters(s: string)
    ensures forall k :: 0 <= k < |Trim(s)| ==> Trim(s)[k] in s
  {
    var u := TrimStart(s);
    var t := TrimEnd(u);
    TrimStartShape(s);
    TrimEndShape(u);
    forall k | 0 <= k < |t| ensures t[k] in s {
      assert t[k] == u[k] == s[|s| - |u| + k];
    }
  }

  /** A line as `parseContent` keeps it: not empty, trimmed, and without a
      line feed. */
  predicate CleanLine(x: string) {
    x != [] && !IsSpace(x[0]) && !IsSpace(x[|x| - 1])
    && forall k :: 0 <= k < |x| ==> x[k] != '\n'
  }

  /** Every line feed in t is followed by a character that is not
      whitespace, so no blank line occurs in t. */
  predicate NewlinesFollowed(t: string) {
    forall i :: 0 <= i < |t| && t[i] == '\n' ==> i + 1 < |t| && !IsSpace(t[i + 1])
  }

  /** Clean lines joined with line feeds: the text starts and ends with a
      visible character and each line feed is followed by the next line. */
  lemma {:induction false} JoinCleanLines(xs: seq<string>)
    requires |xs| >= 1 && forall k :: 0 <= k < |xs| ==> CleanLine(xs[k])
    ensures var j := Join(xs, "\n");
            j != [] && !IsSpace(j[0]) && !IsSpace(j[|j| - 1]) && NewlinesFollowed(j)
    decreases |xs|
  {
    if |xs| > 1 {
      JoinCleanLines(xs[1..]);
      var x := xs[0];
      var r := Join(xs[1..], "\n");
      var j := x + "\n" + r;
      assert Join(xs, "\n") == j;
      assert forall i :: 0 <= i < |x| ==> j[i] == x[i];
      forall i | 0 <= i < |j| && j[i] == '\n'
        ensures i + 1 < |j| && !IsSpace(j[i + 1])
      {
        if i == |x| {
          assert j[i + 1] == r[0];
        } else if i > |x| {
          assert j[i] == r[i - |x| - 1];
          assert j[i + 1] == r[i - |x|];
        }
      }
      assert j[0] == x[0];
      assert j[|j| - 1] == r[|r| - 1];
    }
  }

  /** `s.split(c)` for a single-character separator: at least one piece, and no
      piece contains the separator. */
  function Split(s: string, c: char): (r: seq<string>)
    ensures |r| >= 1
    ensures forall k :: 0 <= k < |r| ==> c !in r[k]
    decreases |s|
  {
    if s == [] then [[]]
    else
      var rest := Split(s[1..], c);
      if s[0] == c then [[]] + rest
      else [[s[0]] + rest[0]] + rest[1..]
  }

  /** Joining the pieces of a split with the separator gives back the string. */
  lemma {:induction false} SplitJoin(s: string, c: char)
    ensures Join(Split(s, c), [c]) == s
    decreases |s|
  {
    if s != [] {
      var rest := Split(s[1..], c);
      SplitJoin(s[1..], c);
      if s[0] == c {
        assert Split(s, c) == [[]] + rest;
        assert ([[]] + rest)[1..] == rest;
      } else {
        var r := [[s[0]] + rest[0]] + rest[1..];
        if |rest| == 1 {
          assert r == [[s[0]] + rest[0]];
        } else {
          assert r[1..] == rest[1..];
          assert Join(rest, [c]) == rest[0] + [c] + Join(rest[1..], [c]);
        }
        assert s == [s[0]] + s[1..];
      }
    }
  }

  function Digit(d: nat): char
    requires d < 10
  {
    ('0' as int + d) as char
  }

  predicate IsDigits(s: string) {
    forall k :: 0 <= k < |s| ==> '0' <= s[k] <= '9'
  }

  /** `String(n)` for a natural number: decimal digits, no leading zero. */
  function NatToString(n: nat): (r: string)
    ensures |r| >= 1 && IsDigits(r)
    ensures r[0] != '0' || n == 0
    decreases n
  {
    if n < 10 then [Digit(n)] else NatToString(n / 10) + [Digit(n % 10)]
  }

  /** The number a string of decimal digits denotes. */
  function DigitsValue(s: string): nat
    requires IsDigits(s)
    decreases |s|
  {
    if s == [] then 0
    else DigitsValue(s[..|s| - 1]) * 10 + (s[|s| - 1] as int - '0' as int)
  }

  /** Reading back the digits of `n` gives `n`. */
  lemma {:induction false} NatToStringRoundTrip(n: nat)
    ensures DigitsValue(NatToString(n)) == n
    decreases n
  {
    if n >= 10 {
      NatToStringRoundTrip(n / 10);
      var r := NatToString(n);
      assert r[..|r| - 1] == NatToString(n / 10);
    }
  }
}
