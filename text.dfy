/**
 * String helpers with JavaScript meaning: decimal digits, the whitespace set
 * used by `String.prototype.trim` and the regular-expression class `\s`,
 * substring search, `split` and `toLowerCase` on ASCII letters.
 */
module Text {

  // ---------------------------------------------------------------- digits

  predicate IsDigit(c: char) { '0' <= c <= '9' }

  predicate AllDigits(s: string) { forall i :: 0 <= i < |s| ==> IsDigit(s[i]) }

  function DigitValue(c: char): (d: nat)
    requires IsDigit(c)
    ensures d < 10
  {
    c as int - '0' as int
  }

  function DigitChar(d: nat): (c: char)
    requires d < 10
    ensures IsDigit(c) && DigitValue(c) == d
  {
    ('0' as int + d) as char
  }

  /** The value of a run of decimal digits, most significant first (what `parseInt` gives for it). */
  function DigitsValue(s: string): nat
    requires AllDigits(s)
  {
    if s == [] then 0 else DigitsValue(s[..|s| - 1]) * 10 + DigitValue(s[|s| - 1])
  }

  /** Integer quotient and remainder of naturals, kept behind names so that proofs about them stay linear. */
  function Div(n: nat, d: nat): (q: nat)
    requires d > 0
  {
    n / d
  }

  function Mod(n: nat, d: nat): (r: nat)
    requires d > 0
    ensures r < d
  {
    n % d
  }

  lemma DivMod(n: nat, d: nat)
    requires d > 0
    ensures Div(n, d) * d + Mod(n, d) == n
  {
  }

  function Pow10(n: nat): (p: nat)
    ensures p >= 1
  {
    if n == 0 then 1 else 10 * Pow10(n - 1)
  }

  /** Decimal rendering of a natural number without leading zeroes (JavaScript `String(n)`). */
  function NatToString(n: nat): (s: string)
    ensures |s| > 0 && AllDigits(s) && DigitsValue(s) == n
  {
    if n < 10 then [DigitChar(n)]
    else
      var p := NatToString(n / 10);
      var s := p + [DigitChar(n % 10)];
      assert s[..|s| - 1] == p;
      s
  }

  /** A digit string keeps its value when zeroes are put in front of it. */
  lemma {:induction false} LeadingZeroes(z: nat, s: string)
    requires AllDigits(s)
    ensures AllDigits(Zeroes(z) + s) && DigitsValue(Zeroes(z) + s) == DigitsValue(s)
  {
    if s != [] {
      var t := Zeroes(z) + s;
      assert t[..|t| - 1] == Zeroes(z) + s[..|s| - 1];
      LeadingZeroes(z, s[..|s| - 1]);
    } else {
      assert Zeroes(z) + s == Zeroes(z);
      ZeroesValue(z);
    }
  }

  function Zeroes(z: nat): (s: string)
    ensures |s| == z && AllDigits(s)
    ensures forall i :: 0 <= i < z ==> s[i] == '0'
  {
    if z == 0 then [] else Zeroes(z - 1) + ['0']
  }

  lemma {:induction false} ZeroesValue(z: nat)
    ensures DigitsValue(Zeroes(z)) == 0
  {
    if z > 0 {
      assert Zeroes(z)[..z - 1] == Zeroes(z - 1);
      ZeroesValue(z - 1);
    }
  }

  /** `s` padded on the left with '0' up to `width` characters. */
  function PadLeftZeroes(s: string, width: nat): (r: string)
    ensures |r| == if |s| < width then width else |s|
  {
    if |s| < width then Zeroes(width - |s|) + s else s
  }

  lemma PadLeftZeroesValue(s: string, width: nat)
    requires AllDigits(s)
    ensures AllDigits(PadLeftZeroes(s, width)) && DigitsValue(PadLeftZeroes(s, width)) == DigitsValue(s)
  {
    if |s| < width { LeadingZeroes(width - |s|, s); }
  }

  /** Length of the longest prefix of `s` made of digits. */
  function DigitPrefixLength(s: string): (n: nat)
    ensures n <= |s| && AllDigits(s[..n])
    ensures n < |s| ==> !IsDigit(s[n])
  {
    if s == [] || !IsDigit(s[0]) then 0
    else
      var n := 1 + DigitPrefixLength(s[1..]);
      assert s[..n] == [s[0]] + s[1..][..n - 1];
      n
  }

  lemma {:induction false} DigitPrefixOfConcat(a: string, b: string)
    requires AllDigits(a)
    requires b == [] || !IsDigit(b[0])
    ensures DigitPrefixLength(a + b) == |a|
  {
    if a != [] {
      assert (a + b)[1..] == a[1..] + b;
      DigitPrefixOfConcat(a[1..], b);
    }
  }

  // ------------------------------------------------------------ whitespace

  /**
   * The JavaScript WhiteSpace and LineTerminator characters: what `trim`
   * removes and what the regular-expression class `\s` matches.
   */
  predicate IsSpace(c: char)
  {
    c == ' ' || c == '\t' || c == '\n' || c == '\r' || c == '\U{000B}' || c == '\U{000C}'
    || c == '\U{00A0}' || c == '\U{1680}' || ('\U{2000}' <= c <= '\U{200A}')
    || c == '\U{2028}' || c == '\U{2029}' || c == '\U{202F}' || c == '\U{205F}'
    || c == '\U{3000}' || c == '\U{FEFF}'
  }

  predicate AllSpaces(s: string) { forall i :: 0 <= i < |s| ==> IsSpace(s[i]) }

  /** Length of the longest prefix of `s` made of whitespace. */
  function SpacePrefixLength(s: string): (n: nat)
    ensures n <= |s| && AllSpaces(s[..n])
    ensures n < |s| ==> !IsSpace(s[n])
  {
    if s == [] || !IsSpace(s[0]) then 0
    else
      var n := 1 + SpacePrefixLength(s[1..]);
      assert s[..n] == [s[0]] + s[1..][..n - 1];
      n
  }

  lemma {:induction false} SpacePrefixOfConcat(a: string, b: string)
    requires AllSpaces(a)
    requires b == [] || !IsSpace(b[0])
    ensures SpacePrefixLength(a + b) == |a|
  {
    if a != [] {
      assert (a + b)[1..] == a[1..] + b;
      SpacePrefixOfConcat(a[1..], b);
    }
  }

  function TrimStart(s: string): (r: string)
    ensures |r| <= |s| && r == s[|s| - |r|..]
    ensures AllSpaces(s[..|s| - |r|])
    ensures r == [] || !IsSpace(r[0])
  {
    s[SpacePrefixLength(s)..]
  }

  function TrimEnd(s: string): (r: string)
    ensures |r| <= |s| && r == s[..|r|]
    ensures AllSpaces(s[|r|..])
    ensures r == [] || !IsSpace(r[|r| - 1])
  {
    if s == [] || !IsSpace(s[|s| - 1]) then s
    else
      var r := TrimEnd(s[..|s| - 1]);
      assert s[|r|..] == s[..|s| - 1][|r|..] + [s[|s| - 1]];
      r
  }

  /** `String.prototype.trim`: the input without its leading and trailing whitespace. */
  function Trim(s: string): (r: string)
    ensures r == [] || (!IsSpace(r[0]) && !IsSpace(r[|r| - 1]))
    ensures exists i :: 0 <= i <= |s| - |r| && s[i..i + |r|] == r && AllSpaces(s[..i]) && AllSpaces(s[i + |r|..])
  {
    var t := TrimStart(s);
    var r := TrimEnd(t);
    var i := |s| - |t|;
    assert s[i..i + |r|] == r;
    assert s[i + |r|..] == t[|r|..];
    r
  }

  /** Prepending to a text joined from three parts is joining four parts. */
  lemma PrependToJoined(head: string, a: string, b: string, c: string, tail: string)
    requires tail == a + b + c
    ensures head + tail == head + a + b + c
  {
  }

  lemma {:induction false} TrimUnchanged(s: string)
    requires s == [] || (!IsSpace(s[0]) && !IsSpace(s[|s| - 1]))
    ensures Trim(s) == s
  {
  }

  // ------------------------------------------------------- search and split

  predicate StartsWith(s: string, prefix: string)
  {
    |prefix| <= |s| && s[..|prefix|] == prefix
  }

  /** `s.includes(t)`: `t` occurs in `s` at some position. */
  predicate Includes(s: string, t: string)
  {
    exists i :: 0 <= i <= |s| - |t| && OccursAt(s, t, i)
  }

  predicate OccursAt(s: string, t: string, i: int)
  {
    0 <= i <= |s| - |t| && s[i..i + |t|] == t
  }

  /** Position of the first occurrence of `c` in `s` (`indexOf`), if any. */
  function IndexOf(s: string, c: char): (r: nat)
    ensures r <= |s|
    ensures r < |s| ==> s[r] == c
    ensures forall j :: 0 <= j < r ==> s[j] != c
  {
    if s == [] then 0
    else if s[0] == c then 0
    else 1 + IndexOf(s[1..], c)
  }

  lemma {:induction false} IndexOfConcat(a: string, c: char, b: string)
    requires forall j :: 0 <= j < |a| ==> a[j] != c
    ensures IndexOf(a + [c] + b, c) == |a|
  {
    if a != [] {
      assert (a + [c] + b)[1..] == a[1..] + [c] + b;
      IndexOfConcat(a[1..], c, b);
    }
  }

  /** `s.split(sep)` for a one-character separator. */
  function Split(s: string, sep: char): (parts: seq<string>)
    ensures |parts| >= 1
    ensures forall k, j :: 0 <= k < |parts| && 0 <= j < |parts[k]| ==> parts[k][j] != sep
  {
    var i := IndexOf(s, sep);
    if i == |s| then [s] else [s[..i]] + Split(s[i + 1..], sep)
  }

  /** Joining the pieces of `Split` with the separator gives back the input. */
  function Join(parts: seq<string>, sep: char): string
  {
    if parts == [] then [] else if |parts| == 1 then parts[0] else parts[0] + [sep] + Join(parts[1..], sep)
  }

  lemma {:induction false} SplitJoin(s: string, sep: char)
    ensures Join(Split(s, sep), sep) == s
  {
    var i := IndexOf(s, sep);
    if i < |s| {
      SplitJoin(s[i + 1..], sep);
      assert s == s[..i] + [sep] + s[i + 1..];
    }
  }

  /**
   * `s.split(/\s+/)`: the pieces between maximal whitespace runs; a leading
   * or trailing run gives an empty first or last piece, as in JavaScript.
   */
  function SplitOnSpaces(s: string): (parts: seq<string>)
    ensures |parts| >= 1
    ensures forall k, j :: 0 <= k < |parts| && 0 <= j < |parts[k]| ==> !IsSpace(parts[k][j])
    decreases |s|
  {
    var n := NonSpacePrefixLength(s);
    if n == |s| then [s]
    else
      var rest := s[n..];
      var w := SpacePrefixLength(rest);
      [s[..n]] + SplitOnSpaces(rest[w..])
  }

  function NonSpacePrefixLength(s: string): (n: nat)
    ensures n <= |s|
    ensures forall j :: 0 <= j < n ==> !IsSpace(s[j])
    ensures n < |s| ==> IsSpace(s[n])
  {
    if s == [] || IsSpace(s[0]) then 0 else 1 + NonSpacePrefixLength(s[1..])
  }

  /** On a trimmed, non-empty line no piece of `SplitOnSpaces` is empty. */
  lemma {:induction false} SplitOnSpacesOfTrimmed(s: string)
    requires s != [] && !IsSpace(s[0]) && !IsSpace(s[|s| - 1])
    ensures forall k :: 0 <= k < |SplitOnSpaces(s)| ==> SplitOnSpaces(s)[k] != []
    decreases |s|
  {
    var n := NonSpacePrefixLength(s);
    if n < |s| {
      var rest := s[n..];
      var w := SpacePrefixLength(rest);
      SplitOnSpacesOfTrimmed(rest[w..]);
    }
  }

  /** `s` with every whitespace character dropped, the rest kept in order. */
  function NonSpaceText(s: string): string
  {
    if s == [] then [] else (if IsSpace(s[0]) then [] else [s[0]]) + NonSpaceText(s[1..])
  }

  /** The pieces written one after another. */
  function Concat(parts: seq<string>): string
  {
    if parts == [] then [] else parts[0] + Concat(parts[1..])
  }

  lemma {:induction false} NonSpaceTextAppend(a: string, b: string)
    ensures NonSpaceText(a + b) == NonSpaceText(a) + NonSpaceText(b)
  {
    if a != [] {
      var head := if IsSpace(a[0]) then [] else [a[0]];
      assert (a + b)[0] == a[0] && (a + b)[1..] == a[1..] + b;
      assert NonSpaceText(a + b) == head + NonSpaceText(a[1..] + b);
      NonSpaceTextAppend(a[1..], b);
      assert NonSpaceText(a) == head + NonSpaceText(a[1..]);
    } else {
      assert a + b == b;
    }
  }

  lemma {:induction false} NonSpaceTextOfSpaces(s: string)
    requires AllSpaces(s)
    ensures NonSpaceText(s) == []
  {
    if s != [] {
      NonSpaceTextOfSpaces(s[1..]);
    }
  }

  lemma {:induction false} NonSpaceTextOfWord(s: string)
    requires forall j :: 0 <= j < |s| ==> !IsSpace(s[j])
    ensures NonSpaceText(s) == s
  {
    if s != [] {
      NonSpaceTextOfWord(s[1..]);
    }
  }

  /** The pieces of `SplitOnSpaces`, written one after another, are the input's non-whitespace characters in order. */
  lemma {:induction false} SplitOnSpacesKeepsText(s: string)
    ensures Concat(SplitOnSpaces(s)) == NonSpaceText(s)
    decreases |s|
  {
    var n := NonSpacePrefixLength(s);
    if n == |s| {
      NonSpaceTextOfWord(s);
      assert SplitOnSpaces(s) == [s];
      assert Concat([s]) == s + Concat([]);
    } else {
      var rest := s[n..];
      var w := SpacePrefixLength(rest);
      var tail := SplitOnSpaces(rest[w..]);
      assert SplitOnSpaces(s) == [s[..n]] + tail;
      SplitOnSpacesKeepsText(rest[w..]);
      assert Concat([s[..n]] + tail) == s[..n] + Concat(tail) by {
        assert ([s[..n]] + tail)[0] == s[..n] && ([s[..n]] + tail)[1..] == tail;
      }
      SplitStepText(s, n, w);
    }
  }

  /** One step of `SplitOnSpaces`: a word, a run of whitespace, and the rest. */
  lemma SplitStepText(s: string, n: nat, w: nat)
    requires n < |s| && w <= |s| - n
    requires forall j :: 0 <= j < n ==> !IsSpace(s[j])
    requires AllSpaces(s[n..][..w])
    ensures NonSpaceText(s) == s[..n] + NonSpaceText(s[n..][w..])
  {
    var rest := s[n..];
    assert s == s[..n] + (rest[..w] + rest[w..]);
    NonSpaceTextOfWord(s[..n]);
    NonSpaceTextAppend(s[..n], rest[..w] + rest[w..]);
    NonSpaceTextAppend(rest[..w], rest[w..]);
    NonSpaceTextOfSpaces(rest[..w]);
  }

  /** The whitespace runs between the pieces of `SplitOnSpaces`, in order. */
  function SpaceRuns(s: string): (gaps: seq<string>)
    ensures |gaps| + 1 == |SplitOnSpaces(s)|
    decreases |s|
  {
    var n := NonSpacePrefixLength(s);
    if n == |s| then []
    else
      var rest := s[n..];
      var w := SpacePrefixLength(rest);
      assert IsSpace(rest[0]) && w >= 1;
      [rest[..w]] + SpaceRuns(rest[w..])
  }

  /** Every run between two pieces is non-empty and made of whitespace only. */
  lemma {:induction false} SpaceRunsAreWhitespace(s: string)
    ensures forall k :: 0 <= k < |SpaceRuns(s)| ==> SpaceRuns(s)[k] != [] && AllSpaces(SpaceRuns(s)[k])
    decreases |s|
  {
    var n := NonSpacePrefixLength(s);
    if n < |s| {
      var rest := s[n..];
      var w := SpacePrefixLength(rest);
      assert IsSpace(rest[0]);
      var gaps := SpaceRuns(rest[w..]);
      SpaceRunsAreWhitespace(rest[w..]);
      assert SpaceRuns(s) == [rest[..w]] + gaps;
    }
  }

  /** The pieces with the gaps written between them: `parts[0] + gaps[0] + parts[1] + …`. */
  function Interleave(parts: seq<string>, gaps: seq<string>): string
    requires |parts| == |gaps| + 1
    decreases |gaps|
  {
    if gaps == [] then parts[0] else parts[0] + gaps[0] + Interleave(parts[1..], gaps[1..])
  }

  lemma SplitInThree(s: string, n: nat, w: nat)
    requires n <= |s| && w <= |s| - n
    ensures s == s[..n] + s[n..][..w] + s[n..][w..]
  {
    assert s[n..] == s[n..][..w] + s[n..][w..];
  }

  /** `SplitOnSpaces` cuts exactly at the whitespace runs: pieces and runs, interleaved, give back the input. */
  lemma {:induction false} SplitOnSpacesRebuilds(s: string)
    ensures s == Interleave(SplitOnSpaces(s), SpaceRuns(s))
    decreases |s|
  {
    var n := NonSpacePrefixLength(s);
    if n == |s| {
      assert s[..n] == s;
    } else {
      var rest := s[n..];
      var w := SpacePrefixLength(rest);
      var tail := rest[w..];
      var parts := SplitOnSpaces(s);
      var gaps := SpaceRuns(s);
      assert parts == [s[..n]] + SplitOnSpaces(tail);
      assert gaps == [rest[..w]] + SpaceRuns(tail);
      assert parts[0] == s[..n] && parts[1..] == SplitOnSpaces(tail);
      assert gaps[0] == rest[..w] && gaps[1..] == SpaceRuns(tail);
      assert Interleave(parts, gaps) == s[..n] + rest[..w] + Interleave(SplitOnSpaces(tail), SpaceRuns(tail));
      SplitOnSpacesRebuilds(tail);
      SplitInThree(s, n, w);
    }
  }

  // ------------------------------------------------------------ letter case

  /** `toLowerCase` on the ASCII letters (other characters are left alone). */
  function ToLowerAscii(s: string): (r: string)
    ensures |r| == |s|
    ensures forall i :: 0 <= i < |s| ==> r[i] == (if 'A' <= s[i] <= 'Z' then (s[i] as int + 32) as char else s[i])
  {
    if s == [] then []
    else [if 'A' <= s[0] <= 'Z' then (s[0] as int + 32) as char else s[0]] + ToLowerAscii(s[1..])
  }
}
