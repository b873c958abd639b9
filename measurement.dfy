/**
 * Inch measurements typed into and shown by the precise-cut dialogs of the
 * cut tool and the planer tool: `parseMeasurement` and `formatMeasurement`,
 * which both tools carry as identical copies.
 *
 * The fraction pattern of `parseMeasurement`, `^(\d+)?\s*(\d+)\/(\d+)$`,
 * lets its optional whole-number group take digits away from the
 * numerator when there is no space between them: "15/16" is read as
 * 1 + 5/16.  `MatchAsWritten` and `ParseMeasurementAsWritten` model the
 * pattern as written; `MatchFraction` and `ParseMeasurement` model the
 * evidently intended pattern `^(?:(\d+)\s+)?(\d+)\/(\d+)$`, which the rest
 * of the model uses.
 */
module Measurement {
  import opened Wrappers
  import opened Text
  import opened JsNum

  // ------------------------------------------------------------------ match

  /** The capture groups of a successful fraction match, with the whitespace between group 1 and group 2. */
  datatype FractionMatch = FractionMatch(whole: Option<string>, gap: string, numerator: string, denominator: string)

  function WholeText(m: FractionMatch): string
  {
    if m.whole.Some? then m.whole.value else []
  }

  /** The text a match was read from. */
  function Rebuild(m: FractionMatch): string
  {
    WholeText(m) + m.gap + m.numerator + "/" + m.denominator
  }

  /** Every group holds what its part of the pattern admits. */
  predicate WellFormed(m: FractionMatch)
  {
    (m.whole.Some? ==> m.whole.value != [] && AllDigits(m.whole.value))
    && AllSpaces(m.gap)
    && m.numerator != [] && AllDigits(m.numerator)
    && m.denominator != [] && AllDigits(m.denominator)
  }

  /**
   * `t.match(/^(\d+)?\s*(\d+)\/(\d+)$/)` with the groups JavaScript's
   * backtracking assigns: a greedy group 1 first gives up its last digit
   * to group 2 before the group is skipped.
   */
  function MatchAsWritten(t: string): Option<FractionMatch>
  {
    var i := IndexOf(t, '/');
    if i == |t| then None else GroupsAsWritten(t[..i], t[i + 1..])
  }

  /** The groups the pattern as written assigns around the first slash, `p` before it and `d` after it. */
  function GroupsAsWritten(p: string, d: string): Option<FractionMatch>
  {
    if d == [] || !AllDigits(d) then None
    else
      var l := DigitPrefixLength(p);
      var w := SpacePrefixLength(p[l..]);
      var n := p[l + w..];
      if n != [] then
        if !AllDigits(n) then None
        else if l == 0 then Some(FractionMatch(None, p[..w], n, d))
        else Some(FractionMatch(Some(p[..l]), p[l..l + w], n, d))
      else if w == 0 && l >= 2 then Some(FractionMatch(Some(p[..l - 1]), [], p[l - 1..], d))
      else if w == 0 && l == 1 then Some(FractionMatch(None, [], p, d))
      else None
  }

  /** `t.match(/^(?:(\d+)\s+)?(\d+)\/(\d+)$/)`: a whole number is present exactly when whitespace follows it. */
  function MatchFraction(t: string): Option<FractionMatch>
  {
    var i := IndexOf(t, '/');
    if i == |t| then None else Groups(t[..i], t[i + 1..])
  }

  /** The groups the intended pattern assigns around the first slash, `p` before it and `d` after it. */
  function Groups(p: string, d: string): Option<FractionMatch>
  {
    if d == [] || !AllDigits(d) then None
    else
      var l := DigitPrefixLength(p);
      if l == |p| then (if l == 0 then None else Some(FractionMatch(None, [], p, d)))
      else
        var w := SpacePrefixLength(p[l..]);
        var n := p[l + w..];
        if l > 0 && w > 0 && n != [] && AllDigits(n) then Some(FractionMatch(Some(p[..l]), p[l..l + w], n, d))
        else None
  }

  /** `t.match(/^(\d+)\s+(\d+)\/(\d+)$/)`, the source's second ("mixed number") pattern. */
  function MatchMixed(t: string): Option<FractionMatch>
  {
    var m := MatchFraction(t);
    if m.Some? && m.value.whole.Some? then m else None
  }

  lemma SpaceIsNotDigit(c: char)
    requires IsSpace(c)
    ensures !IsDigit(c) && c != '/'
  {
  }

  /** What the intended pattern matches is exactly a well-formed decomposition of the text. */
  lemma MatchFractionSound(t: string)
    requires MatchFraction(t).Some?
    ensures var m := MatchFraction(t).value;
            WellFormed(m) && Rebuild(m) == t && (m.whole.Some? <==> m.gap != [])
  {
    var i := IndexOf(t, '/');
    var p, d := t[..i], t[i + 1..];
    SplitAtSlash(t, i);
    GroupsSound(p, d);
    RebuildOfParts(Groups(p, d).value, p, d, t);
  }

  lemma GroupsSound(p: string, d: string)
    requires Groups(p, d).Some?
    ensures var m := Groups(p, d).value;
            WellFormed(m) && WholeText(m) + m.gap + m.numerator == p && m.denominator == d
            && (m.whole.Some? <==> m.gap != [])
  {
    var m := Groups(p, d).value;
    var l := DigitPrefixLength(p);
    if l == |p| {
      assert p[..l] == p;
      assert m == FractionMatch(None, [], p, d);
    } else {
      var w := SpacePrefixLength(p[l..]);
      HeadSplit(p, l, w);
      assert m == FractionMatch(Some(p[..l]), p[l..l + w], p[l + w..], d);
    }
  }

  predicate NoSlash(s: string) { forall j :: 0 <= j < |s| ==> s[j] != '/' }

  lemma NoSlashInGroups(m: FractionMatch)
    requires WellFormed(m)
    ensures NoSlash(WholeText(m) + m.gap + m.numerator)
  {
    var p := WholeText(m) + m.gap + m.numerator;
    forall j | 0 <= j < |p| ensures p[j] != '/' {
      if j < |WholeText(m)| {
        assert p[j] == WholeText(m)[j];
      } else if j < |WholeText(m)| + |m.gap| {
        assert p[j] == m.gap[j - |WholeText(m)|];
        SpaceIsNotDigit(p[j]);
      } else {
        assert p[j] == m.numerator[j - |WholeText(m)| - |m.gap|];
      }
    }
  }

  /** The slash of a rebuilt match is the one after the numerator. */
  lemma SlashOfRebuild(m: FractionMatch)
    requires WellFormed(m)
    ensures var p := WholeText(m) + m.gap + m.numerator;
            var t := Rebuild(m);
            IndexOf(t, '/') == |p| && t[..|p|] == p && t[|p| + 1..] == m.denominator
  {
    var p := WholeText(m) + m.gap + m.numerator;
    NoSlashInGroups(m);
    assert Rebuild(m) == p + "/" + m.denominator;
    IndexOfConcat(p, '/', m.denominator);
  }

  /** In "W<spaces>N" the digit run, the space run and the numerator are found where they are. */
  lemma SplitMixedHead(a: string, gap: string, n: string)
    requires a != [] && AllDigits(a) && gap != [] && AllSpaces(gap) && n != [] && AllDigits(n)
    ensures var p := a + gap + n;
            DigitPrefixLength(p) == |a| && SpacePrefixLength(p[|a|..]) == |gap|
            && p[..|a|] == a && p[|a|..|a| + |gap|] == gap && p[|a| + |gap|..] == n
  {
    var p := a + gap + n;
    SpaceIsNotDigit(gap[0]);
    assert p == a + (gap + n);
    DigitPrefixOfConcat(a, gap + n);
    assert p[|a|..] == gap + n;
    assert !IsSpace(n[0]);
    SpacePrefixOfConcat(gap, n);
  }

  /** Every well-formed decomposition is found again by the intended pattern, with the same groups. */
  lemma MatchFractionComplete(m: FractionMatch)
    requires WellFormed(m) && (m.whole.Some? <==> m.gap != [])
    ensures MatchFraction(Rebuild(m)) == Some(m)
  {
    SlashOfRebuild(m);
    if m.whole.None? {
      DigitPrefixOfConcat(m.numerator, []);
      assert WholeText(m) + m.gap + m.numerator == m.numerator + [] == m.numerator;
      assert m == FractionMatch(None, [], m.numerator, m.denominator);
    } else {
      SplitMixedHead(m.whole.value, m.gap, m.numerator);
    }
  }

  /** A mixed number "W N/D" gets the same groups from the pattern as written. */
  lemma MatchAsWrittenMixed(m: FractionMatch)
    requires WellFormed(m) && m.whole.Some? && m.gap != []
    ensures MatchAsWritten(Rebuild(m)) == Some(m)
  {
    SlashOfRebuild(m);
    SplitMixedHead(m.whole.value, m.gap, m.numerator);
  }

  /**
   * Without whitespace, a numerator of two or more digits loses all but its
   * last digit to the whole-number group under the pattern as written.
   */
  lemma MatchAsWrittenSplitsNumerator(n: string, d: string)
    requires |n| >= 2 && AllDigits(n) && d != [] && AllDigits(d)
    ensures MatchAsWritten(n + "/" + d) == Some(FractionMatch(Some(n[..|n| - 1]), [], n[|n| - 1..], d))
  {
    assert forall j :: 0 <= j < |n| ==> n[j] != '/';
    IndexOfConcat(n, '/', d);
    var t := n + "/" + d;
    assert t[..|n|] == n && t[|n| + 1..] == d;
    DigitPrefixOfConcat(n, []);
    assert n + [] == n;
    assert n[|n|..] == [];
  }

  /** The second pattern of the source never fires: whatever it matches, the first pattern has already matched with the same groups. */
  lemma MixedPatternIsSubsumed(t: string)
    requires MatchMixed(t).Some?
    ensures MatchAsWritten(t) == MatchMixed(t)
  {
    MatchFractionSound(t);
    MatchAsWrittenMixed(MatchMixed(t).value);
  }

  // ------------------------------------------------------------------ parse

  /** `whole + numerator / denominator` in JavaScript numbers: a zero denominator gives Infinity or NaN. */
  function FractionValue(whole: nat, numerator: nat, denominator: nat): (r: Num)
    ensures denominator > 0 <==> r.Fin?
    ensures denominator == 0 ==> r == if numerator == 0 then NaN else PosInf
  {
    if denominator == 0 then (if numerator == 0 then NaN else PosInf)
    else Fin(whole as real + numerator as real / denominator as real)
  }

  /** The value of a fraction with a non-zero denominator, times that denominator, is the whole times it plus the numerator. */
  lemma FractionValueTimes(whole: nat, numerator: nat, denominator: nat)
    requires denominator > 0
    ensures FractionValue(whole, numerator, denominator).v * denominator as real
            == (whole * denominator + numerator) as real
  {
    var r := whole as real + numerator as real / denominator as real;
    SumTimes(whole as real, numerator as real, denominator as real, r);
  }

  lemma SumTimes(w: real, n: real, d: real, r: real)
    requires d > 0.0 && r == w + n / d
    ensures r * d == w * d + n
  {
  }

  /** The number a match denotes; an absent or "0" whole part counts as 0 (`parseInt(...) || 0`). */
  function MatchValue(m: FractionMatch): Num
    requires WellFormed(m)
  {
    FractionValue(if m.whole.Some? then DigitsValue(m.whole.value) else 0, DigitsValue(m.numerator), DigitsValue(m.denominator))
  }

  /** `parseMeasurement` exactly as written; `None` is the source's `null`. */
  function ParseMeasurementAsWritten(input: string): Option<Num>
  {
    var t := Trim(input);
    if t == [] then None
    else if MatchAsWritten(t).Some? then Some(MatchValueAsWritten(t))
    else if MatchMixed(t).Some? then (MatchFractionSound(t); Some(MatchValue(MatchMixed(t).value)))
    else
      var d := ParseFloat(t);
      if d.NaN? then None else Some(d)
  }

  function MatchValueAsWritten(t: string): Num
    requires MatchAsWritten(t).Some?
  {
    MatchAsWrittenSound(t);
    MatchValue(MatchAsWritten(t).value)
  }

  lemma MatchAsWrittenSound(t: string)
    requires MatchAsWritten(t).Some?
    ensures WellFormed(MatchAsWritten(t).value) && Rebuild(MatchAsWritten(t).value) == t
  {
    var i := IndexOf(t, '/');
    var p, d := t[..i], t[i + 1..];
    SplitAtSlash(t, i);
    GroupsAsWrittenSound(p, d);
    RebuildOfParts(GroupsAsWritten(p, d).value, p, d, t);
  }

  lemma GroupsAsWrittenSound(p: string, d: string)
    requires GroupsAsWritten(p, d).Some?
    ensures var m := GroupsAsWritten(p, d).value;
            WellFormed(m) && WholeText(m) + m.gap + m.numerator == p && m.denominator == d
  {
    var m := GroupsAsWritten(p, d).value;
    var l := DigitPrefixLength(p);
    var w := SpacePrefixLength(p[l..]);
    HeadSplit(p, l, w);
    if p[l + w..] == [] {
      assert w == 0 && l == |p| && l >= 1;
      if l >= 2 {
        assert m == FractionMatch(Some(p[..l - 1]), [], p[l - 1..], d);
        DigitsSplit(p, l - 1);
      } else {
        assert m == FractionMatch(None, [], p, d);
        assert p[..l] == p;
      }
    } else {
      GroupsWithNumerator(p, d, l, w, m);
    }
  }

  /** When digits follow the head runs, they are the numerator, and the head runs are the whole part and the gap. */
  lemma GroupsWithNumerator(p: string, d: string, l: nat, w: nat, m: FractionMatch)
    requires d != [] && AllDigits(d)
    requires l + w < |p| && AllDigits(p[..l]) && AllSpaces(p[l..l + w]) && AllDigits(p[l + w..])
    requires p[..l] + p[l..l + w] + p[l + w..] == p
    requires m == if l == 0 then FractionMatch(None, p[..w], p[l + w..], d) else FractionMatch(Some(p[..l]), p[l..l + w], p[l + w..], d)
    ensures WellFormed(m) && WholeText(m) + m.gap + m.numerator == p && m.denominator == d
  {
    if l == 0 {
      assert p[..0] == [] && p[0..0 + w] == p[..w];
    }
  }

  /** The digit run and the whitespace run at the head of `p`, and the rest. */
  lemma HeadSplit(p: string, l: nat, w: nat)
    requires l <= |p| && w <= |p| - l && AllDigits(p[..l]) && AllSpaces(p[l..][..w])
    ensures AllSpaces(p[l..l + w])
    ensures p[..l] + p[l..l + w] + p[l + w..] == p
  {
    assert p[l..l + w] == p[l..][..w];
    ThreeSlices(p, l, l + w);
  }

  lemma DigitsSplit(p: string, k: nat)
    requires k + 1 == |p| && AllDigits(p[..k + 1])
    ensures AllDigits(p[..k]) && AllDigits(p[k..]) && p[..k] + p[k..] == p && AllDigits(p)
  {
    assert p[..k + 1] == p;
  }

  /** A text with a slash at `i` is what comes before it, the slash and what comes after. */
  lemma SplitAtSlash(t: string, i: nat)
    requires i < |t| && t[i] == '/'
    ensures t == t[..i] + "/" + t[i + 1..]
  {
  }

  lemma ThreeSlices(p: string, a: nat, b: nat)
    requires a <= b <= |p|
    ensures p[..a] + p[a..b] + p[b..] == p && p[..b] == p[..a] + p[a..b]
  {
  }

  lemma RebuildOfParts(m: FractionMatch, p: string, d: string, t: string)
    requires WholeText(m) + m.gap + m.numerator == p && m.denominator == d && t == p + "/" + d
    ensures Rebuild(m) == t
  {
  }

  /**
   * `parseMeasurement` with the intended fraction pattern: `None` for blank
   * input, a fraction "N/D" or "W N/D" as `W + N/D`, otherwise the decimal
   * that `parseFloat` reads, or `None` when it reads none.
   */
  function ParseMeasurement(input: string): Option<Num>
  {
    var t := Trim(input);
    if t == [] then None
    else if MatchFraction(t).Some? then (MatchFractionSound(t); Some(MatchValue(MatchFraction(t).value)))
    else
      var d := ParseFloat(t);
      if d.NaN? then None else Some(d)
  }

  // ----------------------------------------------------------------- format

  /** The non-zero 32nds of an inch in lowest terms, as the source's table of 31 fractions lists them. */
  function Fraction32(k: nat): (r: (nat, nat))
    requires 1 <= k <= 31
    ensures r.0 * 32 == k * r.1
    ensures r.0 % 2 == 1 && (r.1 == 2 || r.1 == 4 || r.1 == 8 || r.1 == 16 || r.1 == 32)
  {
    if k % 16 == 0 then (k / 16, 2)
    else if k % 8 == 0 then (k / 8, 4)
    else if k % 4 == 0 then (k / 4, 8)
    else if k % 2 == 0 then (k / 2, 16)
    else (k, 32)
  }

  /** How the table displays `k/32`, e.g. "15/16". */
  function FractionText(k: nat): string
    requires 1 <= k <= 31
  {
    NatToString(Fraction32(k).0) + "/" + NatToString(Fraction32(k).1)
  }

  /** The fraction-of-an-inch `rem` is within the source's 0.005 tolerance of `k/32`. */
  predicate Near(rem: real, k: nat)
  {
    Abs(rem - k as real / 32.0) < 0.005
  }

  /** The first of `k/32, (k+1)/32, ..., 31/32` near `rem`, or 0 when none is. */
  function FirstNearFrom(rem: real, k: nat): (j: nat)
    requires k >= 1
    ensures j == 0 || (k <= j <= 31 && Near(rem, j))
    decreases 32 - k
  {
    if k > 31 then 0 else if Near(rem, k) then k else FirstNearFrom(rem, k + 1)
  }

  /** The slot of the table that `formatMeasurement` prints for `v`; 0 means it falls back to three decimals. */
  function FractionSlot(v: real): nat
  {
    FirstNearFrom(v - Floor(v) as real, 1)
  }

  /** What `formatMeasurement` returns: "0.000" for null, "W N/D" or "N/D" near a 32nd, otherwise `toFixed(3)`. */
  function FormatSpec(x: Option<real>): string
  {
    match x
    case None => "0.000"
    case Some(v) =>
      var whole := Floor(v);
      var k := FractionSlot(v);
      if k == 0 then ToFixed(v, 3)
      else if whole > 0 then NatToString(whole) + " " + FractionText(k)
      else FractionText(k)
  }

  /** `formatMeasurement`, scanning the fraction table in order as the source does. */
  method FormatMeasurement(x: Option<real>) returns (s: string)
    ensures s == FormatSpec(x)
  {
    if x.None? {
      return "0.000";
    }
    var v := x.value;
    var whole := Floor(v);
    var rem := v - whole as real;
    var k := 1;
    while k <= 31
      invariant 1 <= k <= 32
      invariant FirstNearFrom(rem, 1) == FirstNearFrom(rem, k)
    {
      if Abs(rem - k as real / 32.0) < 0.005 {
        var display := FractionText(k);
        s := if whole > 0 then NatToString(whole) + " " + display else display;
        return;
      }
      k := k + 1;
    }
    s := ToFixed(v, 3);
  }

  /** Two different 32nds are never both within the tolerance: the first match is the only one. */
  lemma NearIsUnique(rem: real, j: nat, k: nat)
    requires Near(rem, j) && Near(rem, k)
    ensures j == k
  {
  }

  /** The scan stops at the 32nd near `rem`, wherever it sits in the table. */
  lemma {:induction false} FirstNearFinds(rem: real, k: nat, j: nat)
    requires 1 <= k <= j <= 31 && Near(rem, j)
    ensures FirstNearFrom(rem, k) == j
    decreases j - k
  {
    if k < j && !Near(rem, k) {
      FirstNearFinds(rem, k + 1, j);
    } else if k < j {
      NearIsUnique(rem, j, k);
    }
  }

  lemma RatioOfLowestTerms(k: nat, num: nat, den: nat)
    requires den > 0 && num * 32 == k * den
    ensures num as real / den as real == k as real / 32.0
  {
    assert num as real * 32.0 == k as real * den as real;
  }

  /** A fraction written out in full is read back by the intended pattern as the number its groups denote. */
  lemma ParseOfRebuild(m: FractionMatch)
    requires WellFormed(m) && (m.whole.Some? <==> m.gap != [])
    ensures ParseMeasurement(Rebuild(m)) == Some(MatchValue(m))
  {
    var t := Rebuild(m);
    MatchFractionComplete(m);
    RebuildIsTrimmed(m, t);
    ParseOfMatched(t, m);
  }

  lemma RebuildIsTrimmed(m: FractionMatch, t: string)
    requires WellFormed(m) && (m.whole.Some? <==> m.gap != []) && t == Rebuild(m)
    ensures t != [] && !IsSpace(t[0]) && !IsSpace(t[|t| - 1])
  {
    assert t[|t| - 1] == m.denominator[|m.denominator| - 1];
    assert t[0] == (if m.whole.Some? then m.whole.value[0] else m.numerator[0]);
  }

  /** A trimmed text the intended pattern matches parses to the value of its groups. */
  lemma ParseOfMatched(t: string, m: FractionMatch)
    requires t != [] && !IsSpace(t[0]) && !IsSpace(t[|t| - 1])
    requires WellFormed(m) && MatchFraction(t) == Some(m)
    ensures ParseMeasurement(t) == Some(MatchValue(m))
  {
    TrimUnchanged(t);
  }

  /** The text of a table entry, read back by the intended pattern. */
  lemma ParseFractionText(whole: int, k: nat, text: string)
    requires 1 <= k <= 31 && whole >= 0
    requires text == if whole > 0 then NatToString(whole) + " " + FractionText(k) else FractionText(k)
    ensures ParseMeasurement(text) == Some(Fin(whole as real + k as real / 32.0))
  {
    var m := TableEntryMatch(whole, k, text);
    ParseOfRebuild(m);
  }

  /** The groups of a table entry's text: they rebuild the text and denote the entry's value. */
  lemma TableEntryMatch(whole: int, k: nat, text: string) returns (m: FractionMatch)
    requires 1 <= k <= 31 && whole >= 0
    requires text == if whole > 0 then NatToString(whole) + " " + FractionText(k) else FractionText(k)
    ensures WellFormed(m) && (m.whole.Some? <==> m.gap != []) && Rebuild(m) == text
    ensures MatchValue(m) == Fin(whole as real + k as real / 32.0)
  {
    var (num, den) := Fraction32(k);
    var ns, ds := NatToString(num), NatToString(den);
    if whole > 0 {
      m := FractionMatch(Some(NatToString(whole)), " ", ns, ds);
      PrependToJoined(NatToString(whole) + " ", ns, "/", ds, FractionText(k));
    } else {
      m := FractionMatch(None, "", ns, ds);
    }
    TableEntryGroups(whole, num, den, m);
    TableEntryValue(whole, num, den, k, MatchValue(m));
  }

  lemma TableEntryGroups(whole: int, num: nat, den: nat, m: FractionMatch)
    requires whole >= 0 && den > 0
    requires m == FractionMatch(if whole > 0 then Some(NatToString(whole)) else None, if whole > 0 then " " else "",
                                NatToString(num), NatToString(den))
    ensures WellFormed(m) && (m.whole.Some? <==> m.gap != [])
    ensures MatchValue(m) == FractionValue(whole, num, den)
  {
  }

  lemma TableEntryValue(whole: nat, num: nat, den: nat, k: nat, r: Num)
    requires den > 0 && num * 32 == k * den && r == FractionValue(whole, num, den)
    ensures r == Fin(whole as real + k as real / 32.0)
  {
    RatioOfLowestTerms(k, num, den);
  }

  /** A three-decimal rendering is read back as the rounded value by `parseFloat`. */
  lemma ParseOfToFixed(x: real)
    requires x >= 0.0
    ensures ParseMeasurement(ToFixed(x, 3)) == Some(Fin(RoundedTo(x, 3)))
  {
    ToFixedChars(x, 3);
    ParseFloatOfToFixed(x, 3);
    ParseOfDecimalText(ToFixed(x, 3), RoundedTo(x, 3));
  }

  lemma ParseOfDecimalText(text: string, v: real)
    requires text != [] && IsDigit(text[0]) && IsDigit(text[|text| - 1])
    requires forall i :: 0 <= i < |text| ==> IsDigit(text[i]) || text[i] == '.' || text[i] == '-'
    requires ParseFloat(text) == Fin(v)
    ensures ParseMeasurement(text) == Some(Fin(v))
  {
    NoSlashNoFraction(text);
    ParseOfUnmatched(text, v);
  }

  lemma NoSlashNoFraction(text: string)
    requires forall i :: 0 <= i < |text| ==> IsDigit(text[i]) || text[i] == '.' || text[i] == '-'
    ensures MatchFraction(text).None?
  {
    assert IndexOf(text, '/') == |text|;
  }

  /** A trimmed text the fraction pattern does not match is read by `parseFloat`. */
  lemma ParseOfUnmatched(t: string, v: real)
    requires t != [] && IsDigit(t[0]) && IsDigit(t[|t| - 1])
    requires MatchFraction(t).None? && ParseFloat(t) == Fin(v)
    ensures ParseMeasurement(t) == Some(Fin(v))
  {
    TrimUnchanged(t);
  }

  lemma ThreeDecimalsAreClose(x: real)
    ensures Abs(RoundedTo(x, 3) - x) < 0.005
  {
    RoundedToIsClose(x, 3);
    assert Pow10(3) == 1000;
  }

  lemma NearSlotIsClose(x: real, whole: int, k: nat)
    requires whole as real <= x && Near(x - whole as real, k)
    ensures Abs(whole as real + k as real / 32.0 - x) < 0.005
  {
  }

  /**
   * Round trip: for a non-negative length, what the dialog shows parses
   * (with the intended pattern) to a value within 0.005 of it: the 32nd it
   * matched, or the three-decimal rounding.
   */
  lemma FormatThenParse(x: real)
    requires x >= 0.0
    ensures FractionSlot(x) != 0 ==>
              ParseMeasurement(FormatSpec(Some(x))) == Some(Fin(Floor(x) as real + FractionSlot(x) as real / 32.0))
    ensures FractionSlot(x) == 0 ==> ParseMeasurement(FormatSpec(Some(x))) == Some(Fin(RoundedTo(x, 3)))
    ensures var r := ParseMeasurement(FormatSpec(Some(x))); r.Some? && r.value.Fin? && Abs(r.value.v - x) < 0.005
  {
    var k := FractionSlot(x);
    if k != 0 {
      FormatOfSlotParses(x);
      NearSlotIsClose(x, Floor(x), k);
    } else {
      FormatOfFixedParses(x);
      ThreeDecimalsAreClose(x);
    }
  }

  lemma FormatOfSlotParses(x: real)
    requires x >= 0.0 && FractionSlot(x) != 0
    ensures ParseMeasurement(FormatSpec(Some(x))) == Some(Fin(Floor(x) as real + FractionSlot(x) as real / 32.0))
  {
    ParseFractionText(Floor(x), FractionSlot(x), FormatSpec(Some(x)));
  }

  lemma FormatOfFixedParses(x: real)
    requires x >= 0.0 && FractionSlot(x) == 0
    ensures ParseMeasurement(FormatSpec(Some(x))) == Some(Fin(RoundedTo(x, 3)))
  {
    assert FormatSpec(Some(x)) == ToFixed(x, 3);
    ParseOfToFixed(x);
  }

  /** `10 <= n <= 99` is written as its two digits. */
  lemma TwoDigits(n: nat)
    requires 10 <= n <= 99
    ensures NatToString(n) == [DigitChar(n / 10), DigitChar(n % 10)]
  {
  }

  /**
   * The pattern as written reads a bare fraction with a two-digit numerator
   * "AB/D" as A + B/D, which differs from AB/D for every denominator but 10
   * (`IntendedReadsFraction` is the intended reading).
   */
  lemma AsWrittenMisreadsTwoDigitNumerator(a: char, b: char, ds: string, x: nat, y: nat, d: nat)
    requires IsDigit(a) && DigitValue(a) == x && x != 0 && IsDigit(b) && DigitValue(b) == y
    requires ds != [] && AllDigits(ds) && DigitsValue(ds) == d && d > 0 && d != 10
    ensures ParseMeasurementAsWritten([a, b] + "/" + ds) == Some(Fin(x as real + y as real / d as real))
    ensures DigitsValue([a, b]) == 10 * x + y
    ensures x as real + y as real / d as real != (10 * x + y) as real / d as real
  {
    var t := [a, b] + "/" + ds;
    AsWrittenSplitsFraction(t, a, b, ds, x, y, d);
    MisreadOfTwoDigits(a, b, x, y, d);
  }

  lemma MisreadOfTwoDigits(a: char, b: char, x: nat, y: nat, d: nat)
    requires IsDigit(a) && DigitValue(a) == x && x != 0 && IsDigit(b) && DigitValue(b) == y && d > 0 && d != 10
    ensures DigitsValue([a, b]) == 10 * x + y
    ensures x as real + y as real / d as real != (10 * x + y) as real / d as real
  {
    TwoDigitValue(a, b);
    MisreadDiffers(x, y, 10 * x + y, d);
  }

  lemma TwoDigitValue(a: char, b: char)
    requires IsDigit(a) && IsDigit(b)
    ensures DigitsValue([a, b]) == 10 * DigitValue(a) + DigitValue(b)
  {
    assert [a, b][..1] == [a];
    assert [a][..0] == [];
    assert DigitsValue([a]) == DigitValue(a);
  }

  /** "AB/D" under the pattern as written: group 1 is "A", the numerator "B". */
  lemma AsWrittenSplitsFraction(t: string, a: char, b: char, ds: string, x: nat, y: nat, d: nat)
    requires t == [a, b] + "/" + ds
    requires IsDigit(a) && DigitValue(a) == x && IsDigit(b) && DigitValue(b) == y
    requires ds != [] && AllDigits(ds) && DigitsValue(ds) == d && d > 0
    ensures ParseMeasurementAsWritten(t) == Some(Fin(x as real + y as real / d as real))
  {
    var n := [a, b];
    assert AllDigits(n);
    AsWrittenOfUnspacedFraction(n, ds);
    assert n[..1] == [a] && n[1..] == [b];
    SingleDigitsValue(a, b, ds, x, y, d);
  }

  /** Unspaced "N/D" with two or more numerator digits parses, as written, to the value of the split groups. */
  lemma AsWrittenOfUnspacedFraction(n: string, ds: string)
    requires |n| >= 2 && AllDigits(n) && ds != [] && AllDigits(ds)
    ensures WellFormed(FractionMatch(Some(n[..|n| - 1]), [], n[|n| - 1..], ds))
    ensures ParseMeasurementAsWritten(n + "/" + ds) == Some(MatchValue(FractionMatch(Some(n[..|n| - 1]), [], n[|n| - 1..], ds)))
  {
    var text := n + "/" + ds;
    MatchAsWrittenSplitsNumerator(n, ds);
    assert text[0] == n[0] && text[|text| - 1] == ds[|ds| - 1];
    TrimUnchanged(text);
    ParseAsWrittenOfMatch(text, FractionMatch(Some(n[..|n| - 1]), [], n[|n| - 1..], ds));
  }

  lemma IntendedReadsFraction(ns: string, ds: string, n: nat, d: nat)
    requires ns != [] && AllDigits(ns) && DigitsValue(ns) == n
    requires ds != [] && AllDigits(ds) && DigitsValue(ds) == d && d > 0
    ensures ParseMeasurement(ns + "/" + ds) == Some(Fin(n as real / d as real))
  {
    ParseOfBareFraction(ns, ds, n, d);
    FractionOfZeroWhole(n, d);
  }

  /** "0/0" (in any number of zero digits) is read as NaN, which no comparison with a number rejects. */
  lemma ZeroOverZeroIsNaN(ns: string, ds: string)
    requires ns != [] && AllDigits(ns) && DigitsValue(ns) == 0
    requires ds != [] && AllDigits(ds) && DigitsValue(ds) == 0
    ensures ParseMeasurement(ns + "/" + ds) == Some(NaN)
  {
    ParseOfBareFraction(ns, ds, 0, 0);
  }

  /** A bare "N/D" is read as the JavaScript value of N/D. */
  lemma ParseOfBareFraction(ns: string, ds: string, n: nat, d: nat)
    requires ns != [] && AllDigits(ns) && DigitsValue(ns) == n
    requires ds != [] && AllDigits(ds) && DigitsValue(ds) == d
    ensures ParseMeasurement(ns + "/" + ds) == Some(FractionValue(0, n, d))
  {
    var m := FractionMatch(None, [], ns, ds);
    BareRebuild(ns, ds, m);
    ParseOfRebuild(m);
  }

  lemma BareRebuild(ns: string, ds: string, m: FractionMatch)
    requires ns != [] && AllDigits(ns) && ds != [] && AllDigits(ds) && m == FractionMatch(None, [], ns, ds)
    ensures Rebuild(m) == ns + "/" + ds && WellFormed(m)
  {
  }

  lemma FractionOfZeroWhole(n: nat, d: nat)
    requires d > 0
    ensures FractionValue(0, n, d) == Fin(n as real / d as real)
  {
  }

  lemma MisreadDiffers(a: nat, b: nat, n: nat, d: nat)
    requires n == 10 * a + b && a >= 1 && d > 0 && d != 10
    ensures a as real + b as real / d as real != n as real / d as real
  {
    var ar, br, dr := a as real, b as real, d as real;
    assert n as real == 10.0 * ar + br;
    var gap := (10.0 * ar + br) / dr - (ar + br / dr);
    GapTimes(ar, br, dr, gap);
    NonZeroProduct(ar, 10.0 - dr, gap * dr);
  }

  lemma GapTimes(a: real, b: real, d: real, gap: real)
    requires d > 0.0 && gap == (10.0 * a + b) / d - (a + b / d)
    ensures gap * d == a * (10.0 - d)
  {
  }

  lemma NonZeroProduct(a: real, e: real, p: real)
    requires a != 0.0 && e != 0.0 && p == a * e
    ensures p != 0.0
  {
  }

  /**
   * The dialog shows 15/16" as "15/16", which the pattern as written reads
   * back as 1 5/16" (`AsWrittenMisreadsTwoDigitNumerator` with digits 1 and 5
   * over "16").
   */
  lemma FifteenSixteenthsShown()
    ensures FormatSpec(Some(15.0 / 16.0)) == "15/16"
  {
    var x := 15.0 / 16.0;
    assert Floor(x) == 0;
    FirstNearFinds(x, 1, 30);
    assert Fraction32(30) == (15, 16);
    TwoDigits(15);
    TwoDigits(16);
    assert FractionText(30) == "15/16";
  }

  lemma ParseAsWrittenOfMatch(t: string, m: FractionMatch)
    requires t != [] && Trim(t) == t && MatchAsWritten(t) == Some(m)
    ensures WellFormed(m) && ParseMeasurementAsWritten(t) == Some(MatchValue(m))
  {
    MatchAsWrittenSound(t);
  }

  lemma SingleDigitsValue(a: char, b: char, ds: string, x: nat, y: nat, d: nat)
    requires IsDigit(a) && DigitValue(a) == x && IsDigit(b) && DigitValue(b) == y
    requires ds != [] && AllDigits(ds) && DigitsValue(ds) == d && d > 0
    ensures WellFormed(FractionMatch(Some([a]), [], [b], ds))
    ensures MatchValue(FractionMatch(Some([a]), [], [b], ds)) == Fin(x as real + y as real / d as real)
  {
    assert DigitsValue([a]) == x;
    assert DigitsValue([b]) == y;
  }
}
