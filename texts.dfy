/** Strings, character classes and the decimal rendering of integers, as Python's `re`
    character classes and `str(int)` see them. */
module Texts {

  /** Concatenation of a sequence of strings, in order (Python's `"".join`). */
  function Concat(ss: seq<string>): (r: string)
    ensures |ss| == 0 ==> r == ""
  {
    if |ss| == 0 then "" else Concat(ss[..|ss| - 1]) + ss[|ss| - 1]
  }

  lemma {:induction false} ConcatAppend(a: seq<string>, b: seq<string>)
    ensures Concat(a + b) == Concat(a) + Concat(b)
    decreases |b|
  {
    if |b| == 0 {
      assert a + b == a;
    } else {
      assert (a + b)[..|a + b| - 1] == a + b[..|b| - 1];
      ConcatAppend(a, b[..|b| - 1]);
    }
  }

  /** Taking one element more of a sequence appends that element. */
  lemma TakeSnoc<T>(s: seq<T>, i: nat)
    requires i < |s|
    ensures s[..i + 1] == s[..i] + [s[i]]
  {
  }

  /** A slice of length one holds the one element. */
  lemma SliceOne<T>(s: seq<T>, i: nat, x: T)
    requires i < |s| && s[i] == x
    ensures s[i..i + 1] == [x]
  {
  }

  lemma TakeNone<T>(s: seq<T>)
    ensures s[..0] == []
  {
  }

  lemma TakeAll<T>(s: seq<T>)
    ensures s[..|s|] == s
  {
  }

  lemma AppendAssoc(a: string, b: string, c: string)
    ensures (a + b) + c == a + (b + c)
  {
  }

  /** `w` occurs in `s` at position `pos`. */
  predicate StartsWithAt(s: string, pos: nat, w: string)
  {
    pos + |w| <= |s| && s[pos..pos + |w|] == w
  }

  lemma StartsWithAtHead(s: string, pos: nat, w: string)
    requires StartsWithAt(s, pos, w) && |w| > 0
    ensures pos < |s| && s[pos] == w[0]
  {
    assert s[pos..pos + |w|][0] == s[pos];
  }

  /** A word that begins with another character does not occur at `pos`. */
  lemma NotAt(s: string, pos: nat, w: string)
    requires pos <= |s| && |w| > 0 && (pos < |s| ==> s[pos] != w[0])
    ensures !StartsWithAt(s, pos, w)
  {
    if StartsWithAt(s, pos, w) { StartsWithAtHead(s, pos, w); }
  }

  /** The text ends with a newline, as Pygments makes sure before scanning. */
  predicate EndsWithNewline(s: string)
  {
    |s| > 0 && s[|s| - 1] == '\n'
  }

  predicate EndsWith(s: string, suffix: string)
  {
    |suffix| <= |s| && s[|s| - |suffix|..] == suffix
  }

  /** `k` copies of `s` (Python's `s * k`). */
  function Repeat(s: string, k: nat): (r: string)
    ensures |r| == k * |s|
  {
    if k == 0 then "" else Repeat(s, k - 1) + s
  }

  // Python `re` character classes, restricted to ASCII for `\d` and `\w`.

  predicate IsDigit(c: char) { '0' <= c <= '9' }
  predicate IsUpper(c: char) { 'A' <= c <= 'Z' }
  predicate IsLower(c: char) { 'a' <= c <= 'z' }
  predicate IsLetter(c: char) { IsUpper(c) || IsLower(c) }
  predicate IsWordChar(c: char) { IsLetter(c) || IsDigit(c) || c == '_' }

  /** The characters for which Python's `str.isspace` holds, which is what `\s` matches in a `str` pattern. */
  const SpaceChars: set<char> := {
    ' ', '\t', '\n', '\r', '\U{0B}', '\U{0C}', '\U{1C}', '\U{1D}', '\U{1E}', '\U{1F}',
    '\U{85}', '\U{A0}', '\U{1680}', '\U{2000}', '\U{2001}', '\U{2002}', '\U{2003}', '\U{2004}',
    '\U{2005}', '\U{2006}', '\U{2007}', '\U{2008}', '\U{2009}', '\U{200A}', '\U{2028}', '\U{2029}',
    '\U{202F}', '\U{205F}', '\U{3000}'
  }

  predicate IsSpace(c: char) { c in SpaceChars }

  lemma SpaceIsNotWord(c: char)
    ensures IsSpace(c) ==> !IsWordChar(c)
  {
  }

  // Decimal rendering of integers, as Python's `str(int)` and f-strings write them.

  function DigitChar(d: nat): (c: char)
    requires d < 10
    ensures IsDigit(c)
  {
    ('0' as int + d) as char
  }

  function DigitValue(c: char): nat
    requires IsDigit(c)
  {
    c as int - '0' as int
  }

  function NatToString(n: nat): (r: string)
    ensures |r| >= 1
    ensures forall i :: 0 <= i < |r| ==> IsDigit(r[i])
    ensures n < 10 <==> |r| == 1
  {
    if n < 10 then [DigitChar(n)] else NatToString(n / 10) + [DigitChar(n % 10)]
  }

  /** The value of a string of decimal digits (Python's `int` on `\d+`). */
  function DigitsValue(s: string): nat
    requires forall i :: 0 <= i < |s| ==> IsDigit(s[i])
  {
    if |s| == 0 then 0 else DigitsValue(s[..|s| - 1]) * 10 + DigitValue(s[|s| - 1])
  }

  /** Reading back the decimal rendering of `n` gives `n`. */
  lemma {:induction false} NatToStringRoundTrip(n: nat)
    ensures DigitsValue(NatToString(n)) == n
  {
    var r := NatToString(n);
    if n >= 10 {
      NatToStringRoundTrip(n / 10);
      assert r[..|r| - 1] == NatToString(n / 10);
    }
  }

  /** Different numbers render differently, so a marker name determines its line number. */
  lemma NatToStringInjective(a: nat, b: nat)
    ensures NatToString(a) == NatToString(b) ==> a == b
  {
    NatToStringRoundTrip(a);
    NatToStringRoundTrip(b);
  }

  function IntToString(i: int): (r: string)
    ensures |r| >= 1
    ensures (r[0] == '-') == (i < 0)
  {
    if i < 0 then "-" + NatToString(-i) else NatToString(i)
  }

  /** Splitting at every newline (Python's `s.split("\n")`). */
  function SplitLines(s: string): (r: seq<string>)
    ensures |r| >= 1
  {
    if |s| == 0 then [""]
    else
      var init := SplitLines(s[..|s| - 1]);
      if s[|s| - 1] == '\n' then init + [""]
      else init[..|init| - 1] + [init[|init| - 1] + [s[|s| - 1]]]
  }

  /** The last piece of a split is the suffix of the text after its last newline. */
  lemma {:induction false} SplitLinesLast(s: string)
    ensures var r := SplitLines(s); var last := r[|r| - 1];
      && |last| <= |s| && s[|s| - |last|..] == last && '\n' !in last
      && (|last| < |s| ==> s[|s| - |last| - 1] == '\n')
  {
    if |s| > 0 {
      var t := s[..|s| - 1];
      SplitLinesLast(t);
      assert s == t + [s[|s| - 1]];
    }
  }

  /** A text without a newline splits into itself. */
  lemma {:induction false} SplitLinesNoNewline(s: string)
    requires '\n' !in s
    ensures SplitLines(s) == [s]
  {
    if |s| > 0 {
      var t := s[..|s| - 1];
      assert '\n' !in t;
      SplitLinesNoNewline(t);
      assert s == t + [s[|s| - 1]];
    }
  }

  /** Joining with newlines (Python's `"\n".join(lines)`). */
  function JoinLines(lines: seq<string>): string
  {
    if |lines| == 0 then ""
    else if |lines| == 1 then lines[0]
    else JoinLines(lines[..|lines| - 1]) + "\n" + lines[|lines| - 1]
  }

  lemma {:induction false} JoinLinesExtendLast(lines: seq<string>, c: char)
    requires |lines| >= 1
    ensures JoinLines(lines[..|lines| - 1] + [lines[|lines| - 1] + [c]]) == JoinLines(lines) + [c]
  {
    var n := |lines|;
    var l2 := lines[..n - 1] + [lines[n - 1] + [c]];
    if n > 1 {
      assert l2[..n - 1] == lines[..n - 1];
    }
  }

  lemma {:induction false} JoinLinesAppendEmpty(lines: seq<string>)
    requires |lines| >= 1
    ensures JoinLines(lines + [""]) == JoinLines(lines) + "\n"
  {
    assert (lines + [""])[..|lines|] == lines;
  }

  /** Joining the lines of a split gives the text back. */
  lemma {:induction false} SplitJoinRoundTrip(s: string)
    ensures JoinLines(SplitLines(s)) == s
    decreases |s|
  {
    if |s| > 0 {
      var t := s[..|s| - 1];
      var c := s[|s| - 1];
      SplitJoinRoundTrip(t);
      assert s == t + [c];
      if c == '\n' {
        assert SplitLines(s) == SplitLines(t) + [""];
        JoinLinesAppendEmpty(SplitLines(t));
      } else {
        var init := SplitLines(t);
        assert SplitLines(s) == init[..|init| - 1] + [init[|init| - 1] + [c]];
        JoinLinesExtendLast(init, c);
      }
    }
  }
}
