/** The string operations the chunker relies on, over sequences of Unicode characters. */
module Text {

  /** White space as `str.strip` and the `\s` class see it. */
  predicate IsSpace(c: char) {
    var n := c as int;
    || 0x09 <= n <= 0x0D || 0x1C <= n <= 0x20 || n == 0x85 || n == 0xA0 || n == 0x1680
    || 0x2000 <= n <= 0x200A || n == 0x2028 || n == 0x2029 || n == 0x202F || n == 0x205F || n == 0x3000
  }

  /** Line boundaries of `str.splitlines`. */
  predicate IsLineBreak(c: char) {
    var n := c as int;
    || 0x0A <= n <= 0x0D || 0x1C <= n <= 0x1E || n == 0x85 || n == 0x2028 || n == 0x2029
  }

  function StripLeft(s: string): (r: string)
    ensures |r| <= |s|
  {
    if s == [] || !IsSpace(s[0]) then s else StripLeft(s[1..])
  }

  function StripRight(s: string): (r: string)
    ensures |r| <= |s|
  {
    if s == [] || !IsSpace(s[|s| - 1]) then s else StripRight(s[..|s| - 1])
  }

  function Strip(s: string): (r: string)
    ensures |r| <= |s|
  {
    StripRight(StripLeft(s))
  }

  predicate AllSpace(s: string) {
    forall i | 0 <= i < |s| :: IsSpace(s[i])
  }

  /** Stripping takes white space off both ends and nothing else. */
  lemma StripExactly(s: string) returns (x: string, y: string)
    ensures s == x + Strip(s) + y && AllSpace(x) && AllSpace(y)
    ensures Strip(s) != [] ==> !IsSpace(Strip(s)[0]) && !IsSpace(Strip(s)[|Strip(s)| - 1])
  {
    hide IsSpace;
    var l := StripLeft(s);
    var r := StripRight(l);
    StripShape(s);
    StripLeftTakes(s);
    StripRightTakes(l);
    StripLeftShape(s);
    StripRightShape(l);
    hide StripLeft;
    hide StripRight;
    x, y := s[..|s| - |l|], l[|r|..];
  }

  lemma {:induction false} StripLeftTakes(s: string)
    ensures AllSpace(s[..|s| - |StripLeft(s)|])
  {
    if s != [] && IsSpace(s[0]) {
      StripLeftTakes(s[1..]);
      var n := |s| - |StripLeft(s)|;
      assert s[..n] == [s[0]] + s[1..][..n - 1];
    }
  }

  lemma {:induction false} StripRightTakes(s: string)
    ensures AllSpace(s[|StripRight(s)|..])
  {
    if s != [] && IsSpace(s[|s| - 1]) {
      var front := s[..|s| - 1];
      StripRightTakes(front);
      var n := |StripRight(s)|;
      assert s[n..] == front[n..] + [s[|s| - 1]];
    }
  }

  lemma {:induction false} StripLeftShape(s: string)
    ensures var r := StripLeft(s); r == s[|s| - |r|..] && (r == [] || !IsSpace(r[0]))
  {
    if s != [] && IsSpace(s[0]) {
      StripLeftShape(s[1..]);
    }
  }

  lemma {:induction false} StripRightShape(s: string)
    ensures var r := StripRight(s); r == s[..|r|] && (r == [] || !IsSpace(r[|r| - 1]))
  {
    if s != [] && IsSpace(s[|s| - 1]) {
      StripRightShape(s[..|s| - 1]);
    }
  }

  /** Stripping returns a slice with no white space at either end. */
  lemma StripShape(s: string)
    ensures var r := Strip(s);
            r != [] ==> !IsSpace(r[0]) && !IsSpace(r[|r| - 1])
  {
    StripLeftShape(s);
    StripRightShape(StripLeft(s));
  }

  function Zeros(n: nat): (s: string)
    ensures |s| == n && forall i | 0 <= i < n :: s[i] == '0'
  {
    seq(n, i => '0')
  }

  /** `str.lower` on the ASCII letters. */
  function LowerChar(c: char): char {
    if 'A' <= c <= 'Z' then (c as int + 32) as char else c
  }

  function Lower(s: string): (r: string)
    ensures |r| == |s| && forall i | 0 <= i < |s| :: r[i] == LowerChar(s[i])
  {
    seq(|s|, i requires 0 <= i < |s| => LowerChar(s[i]))
  }

  /** The characters of a text that are not white space, in order. */
  function Squeeze(s: string): string {
    if s == [] then [] else (if IsSpace(s[0]) then [] else [s[0]]) + Squeeze(s[1..])
  }

  function SqueezeAll(parts: seq<string>): string {
    if parts == [] then [] else Squeeze(parts[0]) + SqueezeAll(parts[1..])
  }

  /** Parts put together with a separator between neighbours. */
  function Join(parts: seq<string>, sep: string): string {
    if parts == [] then []
    else if |parts| == 1 then parts[0]
    else parts[0] + sep + Join(parts[1..], sep)
  }

  /** `str.splitlines`: a carriage return and line feed pair is one boundary. */
  function SplitLines(s: string): seq<string>
    decreases |s|
  {
    if s == [] then []
    else
      var n := LineLength(s);
      if n == |s| then [s]
      else [s[..n]] + SplitLines(s[n + (if |s| > n + 1 && s[n] == '\r' && s[n + 1] == '\n' then 2 else 1)..])
  }

  function LineLength(s: string): (n: nat)
    ensures n <= |s| && (n < |s| ==> IsLineBreak(s[n]))
    ensures forall i | 0 <= i < n :: !IsLineBreak(s[i])
  {
    if s == [] || IsLineBreak(s[0]) then 0 else 1 + LineLength(s[1..])
  }

  /** `text.split("\n\n")`. */
  function SplitBlank(s: string): (parts: seq<string>)
    ensures parts != []
    decreases |s|
  {
    var n := BlankAt(s);
    if n == |s| then [s] else [s[..n]] + SplitBlank(s[n + 2..])
  }

  /** Where the first pair of line feeds starts, or the length. */
  function BlankAt(s: string): (n: nat)
    ensures n <= |s| && (n < |s| ==> n + 1 < |s| && s[n] == '\n' && s[n + 1] == '\n')
  {
    if |s| < 2 then |s|
    else if s[0] == '\n' && s[1] == '\n' then 0
    else
      var n := BlankAt(s[1..]);
      n + 1
  }

  /** Index of the last line feed, or -1. */
  function RFindNewline(s: string): (i: int)
    ensures -1 <= i < |s|
    ensures i >= 0 ==> s[i] == '\n'
    ensures forall j | i < j < |s| :: s[j] != '\n'
  {
    if s == [] then -1
    else if s[|s| - 1] == '\n' then |s| - 1
    else RFindNewline(s[..|s| - 1])
  }

  // ----- squeezing ------------------------------------------------------------------------

  lemma {:induction false} SqueezeConcat(x: string, y: string)
    ensures Squeeze(x + y) == Squeeze(x) + Squeeze(y)
  {
    if x == [] {
      assert x + y == y;
    } else {
      assert (x + y)[1..] == x[1..] + y;
      SqueezeConcat(x[1..], y);
    }
  }

  lemma {:induction false} SqueezeSpaces(s: string)
    requires forall i | 0 <= i < |s| :: IsSpace(s[i])
    ensures Squeeze(s) == []
  {
    if s != [] {
      SqueezeSpaces(s[1..]);
    }
  }

  lemma {:induction false} StripLeftDropsSpaces(s: string)
    ensures Squeeze(StripLeft(s)) == Squeeze(s)
  {
    if s != [] && IsSpace(s[0]) {
      StripLeftDropsSpaces(s[1..]);
    }
  }

  lemma {:induction false} StripRightDropsSpaces(s: string)
    ensures Squeeze(StripRight(s)) == Squeeze(s)
  {
    if s != [] && IsSpace(s[|s| - 1]) {
      var front, last := s[..|s| - 1], s[|s| - 1..];
      assert s == front + last;
      SqueezeConcat(front, last);
      StripRightDropsSpaces(front);
    }
  }

  /** Stripping loses white space only. */
  lemma SqueezeStrip(s: string)
    ensures Squeeze(Strip(s)) == Squeeze(s)
  {
    StripLeftDropsSpaces(s);
    StripRightDropsSpaces(StripLeft(s));
  }

  lemma {:induction false} SqueezeAllConcat(x: seq<string>, y: seq<string>)
    ensures SqueezeAll(x + y) == SqueezeAll(x) + SqueezeAll(y)
  {
    if x == [] {
      assert x + y == y;
    } else {
      assert (x + y)[1..] == x[1..] + y;
      SqueezeAllConcat(x[1..], y);
    }
  }

  /** Joining with white space adds nothing but white space. */
  lemma {:induction false} SqueezeJoin(parts: seq<string>, sep: string)
    requires Squeeze(sep) == []
    ensures Squeeze(Join(parts, sep)) == SqueezeAll(parts)
  {
    if |parts| == 1 {
      assert parts[1..] == [];
    } else if parts != [] {
      var rest := Join(parts[1..], sep);
      SqueezeThree(parts[0], sep, rest);
      SqueezeJoin(parts[1..], sep);
      assert Join(parts, sep) == parts[0] + sep + rest;
      assert Squeeze(Join(parts, sep)) == Squeeze(parts[0]) + Squeeze(rest);
      assert Squeeze(rest) == SqueezeAll(parts[1..]);
    }
  }

  /** Splitting into lines loses line boundaries only. */
  lemma {:induction false} SplitLinesKeepsText(s: string)
    ensures SqueezeAll(SplitLines(s)) == Squeeze(s)
    decreases |s|
  {
    hide IsSpace;
    hide IsLineBreak;
    if s != [] {
      var n := LineLength(s);
      if n == |s| {
        assert SplitLines(s)[1..] == [];
      } else {
        var skip := if |s| > n + 1 && s[n] == '\r' && s[n + 1] == '\n' then 2 else 1;
        BreakIsSpace(s, n, skip);
        SqueezeThree(s[..n], s[n..n + skip], s[n + skip..]);
        assert s == s[..n] + s[n..n + skip] + s[n + skip..];
        SplitLinesKeepsText(s[n + skip..]);
        assert SplitLines(s) == [s[..n]] + SplitLines(s[n + skip..]);
      }
    }
  }

  lemma BreakIsSpace(s: string, n: nat, skip: nat)
    requires n + skip <= |s| && 1 <= skip <= 2 && IsLineBreak(s[n]) && (skip == 2 ==> s[n + 1] == '\n')
    ensures Squeeze(s[n..n + skip]) == []
  {
    SqueezeSpaces(s[n..n + skip]);
  }

  /** White space in the middle does not show. */
  lemma SqueezeThree(x: string, gap: string, y: string)
    requires Squeeze(gap) == []
    ensures Squeeze(x + gap + y) == Squeeze(x) + Squeeze(y)
  {
    SqueezeConcat(x + gap, y);
    SqueezeConcat(x, gap);
  }

  /** Splitting at blank lines loses those line feeds only. */
  lemma {:induction false} SplitBlankKeepsText(s: string)
    ensures SqueezeAll(SplitBlank(s)) == Squeeze(s)
    decreases |s|
  {
    var n := BlankAt(s);
    if n == |s| {
      assert SplitBlank(s)[1..] == [];
    } else {
      SqueezeSpaces(s[n..n + 2]);
      SqueezeThree(s[..n], s[n..n + 2], s[n + 2..]);
      assert s == s[..n] + s[n..n + 2] + s[n + 2..];
      SplitBlankKeepsText(s[n + 2..]);
    }
  }

  lemma {:induction false} BlankIsFirst(s: string)
    ensures forall i | 0 <= i < BlankAt(s) && i + 2 <= |s| :: !(s[i] == '\n' && s[i + 1] == '\n')
  {
    if |s| >= 2 && !(s[0] == '\n' && s[1] == '\n') {
      BlankIsFirst(s[1..]);
      forall i | 0 <= i < BlankAt(s) && i + 2 <= |s| ensures !(s[i] == '\n' && s[i + 1] == '\n') {
        if i > 0 {
          assert s[i] == s[1..][i - 1] && s[i + 1] == s[1..][i];
        }
      }
    }
  }

  predicate HoldsBlank(s: string) {
    exists i :: 0 <= i < |s| - 1 && s[i] == '\n' && s[i + 1] == '\n'
  }

  /** `split` on blank lines: the parts joined again are the text, none holds two line feeds in a row, and each is
      cut as early as can be, so only the last may end in a line feed. */
  lemma {:induction false} SplitBlankExactly(s: string)
    ensures var parts := SplitBlank(s);
            && Join(parts, "\n\n") == s
            && (forall k | 0 <= k < |parts| :: !HoldsBlank(parts[k]))
            && (forall k | 0 <= k < |parts| - 1 :: parts[k] == [] || parts[k][|parts[k]| - 1] != '\n')
    decreases |s|
  {
    var n := BlankAt(s);
    BlankIsFirst(s);
    if n < |s| {
      var rest := SplitBlank(s[n + 2..]);
      SplitBlankExactly(s[n + 2..]);
      assert s == s[..n] + "\n\n" + s[n + 2..];
      assert SplitBlank(s) == [s[..n]] + rest;
      assert SplitBlank(s)[1..] == rest;
      hide HoldsBlank;
      NoBlankBefore(s, n);
    } else {
      assert s[..n] == s;
    }
  }

  lemma NoBlankBefore(s: string, n: nat)
    requires n <= |s| && forall i | 0 <= i < n && i + 2 <= |s| :: !(s[i] == '\n' && s[i + 1] == '\n')
    ensures !HoldsBlank(s[..n])
    ensures n > 0 && n < |s| && s[n] == '\n' ==> s[n - 1] != '\n'
  {
  }

  /** A text has nothing left after stripping exactly when it is all white space. */
  lemma StripEmpty(s: string)
    ensures Strip(s) == [] <==> Squeeze(s) == []
  {
    SqueezeStrip(s);
    StripShape(s);
    if Strip(s) != [] {
      var t := Strip(s);
      var last := t[|t| - 1..];
      assert t == t[..|t| - 1] + last;
      SqueezeConcat(t[..|t| - 1], last);
    }
  }

  /** A character that is not white space is not stripped away. */
  lemma StripKeeps(s: string, c: char)
    requires c in s && !IsSpace(c)
    ensures c in Strip(s)
  {
    SqueezeStrip(s);
    SqueezeHas(s, c);
    SqueezeHas(Strip(s), c);
  }

  lemma {:induction false} SqueezeHas(s: string, c: char)
    requires !IsSpace(c)
    ensures c in Squeeze(s) <==> c in s
  {
    if s != [] {
      SqueezeHas(s[1..], c);
      assert s == [s[0]] + s[1..];
    }
  }

  lemma NothingToStrip(s: string)
    requires s != [] && !IsSpace(s[0]) && !IsSpace(s[|s| - 1])
    ensures Strip(s) == s
  {
  }

  /** Stripping twice is stripping once. */
  lemma StripTwice(s: string)
    ensures Strip(Strip(s)) == Strip(s)
  {
    StripShape(s);
  }
}
