/**
 * JavaScript number semantics that the modelled code relies on, over exact
 * reals: `Math.round`, `Math.floor`, truncating `%`, `parseFloat`,
 * `parseInt` and `Number.prototype.toFixed`.
 */
module JsNum {
  import opened Text
  import opened Wrappers

  /** A JavaScript number as the modelled code can produce it. */
  datatype Num = Fin(v: real) | PosInf | NegInf | NaN

  function Abs(x: real): (r: real)
    ensures r >= 0.0 && (r == x || r == -x)
  {
    if x < 0.0 then -x else x
  }

  function Max(a: real, b: real): (r: real)
    ensures r >= a && r >= b && (r == a || r == b)
  {
    if a >= b then a else b
  }

  function Min(a: real, b: real): (r: real)
    ensures r <= a && r <= b && (r == a || r == b)
  {
    if a <= b then a else b
  }

  /** `Math.floor`. */
  function Floor(x: real): (n: int)
    ensures n as real <= x < n as real + 1.0
  {
    x.Floor
  }

  /** `Math.round`: the nearest integer, halves rounded towards +Infinity. */
  function Round(x: real): (n: int)
    ensures x - 0.5 < n as real <= x + 0.5
  {
    (x + 0.5).Floor
  }

  /** `Math.trunc`: the integer part, rounded towards zero. */
  function Trunc(x: real): (n: int)
    ensures x >= 0.0 ==> n as real <= x < n as real + 1.0
    ensures x < 0.0 ==> n as real - 1.0 < x <= n as real
  {
    if x >= 0.0 then x.Floor else -((-x).Floor)
  }

  /** JavaScript `a % b` on numbers: the remainder takes the sign of `a`. */
  function Rem(a: real, b: real): real
    requires b != 0.0
  {
    a - b * Trunc(a / b) as real
  }

  /** For a positive divisor the remainder lies in [0, b) or (-b, 0], with the sign of `a`. */
  lemma RemBounds(a: real, b: real)
    requires b > 0.0
    ensures a >= 0.0 ==> 0.0 <= Rem(a, b) < b
    ensures a < 0.0 ==> -b < Rem(a, b) <= 0.0
  {
    var q := a / b;
    var t := Trunc(q) as real;
    var r := Rem(a, b);
    assert r == b * (q - t) by {
      assert a == b * q;
    }
    if a >= 0.0 {
      assert q >= 0.0;
      ProductBelow(b, q - t, r);
    } else {
      assert q < 0.0;
      assert -r == b * (t - q);
      ProductBelow(b, t - q, -r);
    }
  }

  lemma ProductBelow(b: real, d: real, r: real)
    requires b > 0.0 && 0.0 <= d < 1.0 && r == b * d
    ensures 0.0 <= r < b
  {
  }

  function Scale(e: int): (r: real)
    ensures r > 0.0
  {
    if e >= 0 then Pow10(e) as real else 1.0 / Pow10(-e) as real
  }

  /** The exponent part `e[+-]digits` at the head of `s`, or 0 when there is none. */
  function ExponentPrefix(s: string): int
  {
    if s == [] || (s[0] != 'e' && s[0] != 'E') then 0
    else
      var t := s[1..];
      var neg := t != [] && t[0] == '-';
      var u := if t != [] && (t[0] == '-' || t[0] == '+') then t[1..] else t;
      var n := DigitPrefixLength(u);
      if n == 0 then 0
      else if neg then -(DigitsValue(u[..n]) as int) else DigitsValue(u[..n])
  }

  /**
   * `parseFloat`: skips leading whitespace and reads the longest prefix that
   * is a decimal literal (sign, digits, point, digits, exponent) or
   * `Infinity`; NaN when there is none.
   */
  function ParseFloat(s: string): Num
  {
    var t := TrimStart(s);
    var neg := t != [] && t[0] == '-';
    var body := if t != [] && (t[0] == '-' || t[0] == '+') then t[1..] else t;
    if StartsWith(body, "Infinity") then (if neg then NegInf else PosInf)
    else
      match DecimalPrefix(body)
      case None => NaN
      case Some(m) => Fin(Signed(neg, m))
  }

  function Signed(neg: bool, m: real): real
  {
    if neg then -m else m
  }

  /** The value of the longest unsigned decimal literal at the head of `s`, if there is one. */
  function DecimalPrefix(s: string): Option<real>
  {
    var n := DigitPrefixLength(s);
    var afterInt := s[n..];
    var hasDot := afterInt != [] && afterInt[0] == '.';
    var frac := if hasDot then afterInt[1..][..DigitPrefixLength(afterInt[1..])] else [];
    if n == 0 && frac == [] then None
    else
      var rest := if hasDot then afterInt[1 + |frac|..] else afterInt;
      Some(DecimalValue(s[..n], frac, ExponentPrefix(rest)))
  }

  /** `whole.frac` times `10^e`. */
  function DecimalValue(whole: string, frac: string, e: int): real
    requires AllDigits(whole) && AllDigits(frac)
  {
    (DigitsValue(whole) as real + DigitsValue(frac) as real / Pow10(|frac|) as real) * Scale(e)
  }

  predicate IsHexDigit(c: char) { IsDigit(c) || 'a' <= c <= 'f' || 'A' <= c <= 'F' }

  function HexDigitValue(c: char): (d: nat)
    requires IsHexDigit(c)
    ensures d < 16
  {
    if IsDigit(c) then DigitValue(c) else if 'a' <= c <= 'f' then c as int - 'a' as int + 10 else c as int - 'A' as int + 10
  }

  function HexPrefixLength(s: string): (n: nat)
    ensures n <= |s| && forall j :: 0 <= j < n ==> IsHexDigit(s[j])
  {
    if s == [] || !IsHexDigit(s[0]) then 0 else 1 + HexPrefixLength(s[1..])
  }

  function HexValue(s: string): nat
    requires forall j :: 0 <= j < |s| ==> IsHexDigit(s[j])
  {
    if s == [] then 0 else HexValue(s[..|s| - 1]) * 16 + HexDigitValue(s[|s| - 1])
  }

  /**
   * `parseInt` without a radix: skips leading whitespace, reads a sign, then
   * the longest run of hexadecimal digits after `0x`/`0X` or of decimal
   * digits; `None` stands for NaN.
   */
  function ParseInt(s: string): (r: Option<int>)
  {
    var t := TrimStart(s);
    var neg := t != [] && t[0] == '-';
    var body := if t != [] && (t[0] == '-' || t[0] == '+') then t[1..] else t;
    if |body| >= 2 && body[0] == '0' && (body[1] == 'x' || body[1] == 'X') then
      var h := body[2..];
      var n := HexPrefixLength(h);
      if n == 0 then None else Some(if neg then -(HexValue(h[..n]) as int) else HexValue(h[..n]))
    else
      var n := DigitPrefixLength(body);
      if n == 0 then None
      else
        Some(if neg then -(DigitsValue(body[..n]) as int) else DigitsValue(body[..n]))
  }

  /** On a plain run of decimal digits `parseInt` gives their value. */
  lemma ParseIntOfDigits(s: string)
    requires s != [] && AllDigits(s)
    ensures ParseInt(s) == Some(DigitsValue(s))
  {
    assert SpacePrefixLength(s) == 0 by { assert IsDigit(s[0]); }
    assert TrimStart(s) == s;
    DigitPrefixOfConcat(s, []);
    assert s + [] == s;
  }

  /** `|x|` scaled by `10^f` and rounded half up: the integer that `toFixed(f)` prints. */
  function FixedUnits(x: real, f: nat): (n: nat)
  {
    var m := Round(Abs(x) * Pow10(f) as real);
    if m < 0 then 0 else m
  }

  /** The digits of `n / 10^f` with a point before the last `f` of them. */
  function FixedDigits(n: nat, f: nat): string
  {
    if f == 0 then NatToString(n)
    else
      var p := Pow10(f);
      NatToString(Div(n, p)) + "." + PadLeftZeroes(NatToString(Mod(n, p)), f)
  }

  /** `toFixed` prints digits and one point, led by "-" for a negative value, and ends in a digit. */
  lemma ToFixedChars(x: real, f: nat)
    ensures var s := ToFixed(x, f);
            s != [] && IsDigit(s[|s| - 1]) && (s[0] == '-' <==> x < 0.0) && (x >= 0.0 ==> IsDigit(s[0]))
            && forall i :: 0 <= i < |s| ==> IsDigit(s[i]) || s[i] == '.' || s[i] == '-'
  {
    var d := FixedDigits(FixedUnits(x, f), f);
    if f > 0 {
      var p := Pow10(f);
      var n := FixedUnits(x, f);
      var w := NatToString(Div(n, p));
      var r := NatToString(Mod(n, p));
      PadLeftZeroesValue(r, f);
      assert d == w + "." + PadLeftZeroes(r, f);
    }
    assert IsDigit(d[0]) && IsDigit(d[|d| - 1]);
    assert forall i :: 0 <= i < |d| ==> IsDigit(d[i]) || d[i] == '.';
  }

  /**
   * `x.toFixed(f)` for `|x| < 10^21`: the exact value rounded half away from
   * zero to `f` decimals, with a leading "-" for negative `x`.
   */
  function ToFixed(x: real, f: nat): string
  {
    (if x < 0.0 then "-" else "") + FixedDigits(FixedUnits(x, f), f)
  }

  /** The value `toFixed(f)` denotes. */
  function RoundedTo(x: real, f: nat): real
  {
    Signed(x < 0.0, FixedUnits(x, f) as real / Pow10(f) as real)
  }

  /** `toFixed(f)` is within half a unit of the last printed decimal of the exact value. */
  lemma RoundedToIsClose(x: real, f: nat)
    ensures Abs(RoundedTo(x, f) - x) <= 0.5 / Pow10(f) as real
  {
    var p := Pow10(f) as real;
    var y := Abs(x) * p;
    NonNegativeProduct(Abs(x), p, y);
    assert FixedUnits(x, f) == Round(y);
    CloseAfterRounding(x, p, y, Round(y), FixedUnits(x, f) as real / p, RoundedTo(x, f));
  }

  lemma NonNegativeProduct(a: real, p: real, y: real)
    requires a >= 0.0 && p > 0.0 && y == a * p
    ensures y >= 0.0
  {
  }

  lemma CloseAfterRounding(x: real, p: real, y: real, m: int, q: real, r: real)
    requires p > 0.0 && y == Abs(x) * p && y - 0.5 < m as real <= y + 0.5 && q == m as real / p
    requires r == Signed(x < 0.0, q)
    ensures Abs(r - x) <= 0.5 / p
  {
    DivOfProduct(Abs(x), p, y);
    DivDiff(m as real, y, p);
    DivBound(m as real - y, p);
  }

  lemma DivOfProduct(x: real, p: real, y: real)
    requires p > 0.0 && y == x * p
    ensures y / p == x
  {
  }

  lemma DivDiff(a: real, b: real, p: real)
    requires p > 0.0
    ensures (a - b) / p == a / p - b / p
  {
  }

  lemma DivBound(e: real, p: real)
    requires p > 0.0 && -0.5 <= e <= 0.5
    ensures -0.5 / p <= e / p <= 0.5 / p
  {
  }

  lemma NotSpaceAtHead(s: string)
    requires s != [] && (s[0] == '-' || IsDigit(s[0]))
    ensures TrimStart(s) == s
  {
    assert SpacePrefixLength(s) == 0;
  }

  /** `parseFloat` of an optional minus sign and a run of digits. */
  lemma ParseFloatOfInteger(sign: string, q: string)
    requires sign == "" || sign == "-"
    requires q != [] && AllDigits(q)
    ensures ParseFloat(sign + q) == Fin(Signed(sign == "-", DigitsValue(q) as real))
  {
    var s := sign + q;
    NotSpaceAtHead(s);
    assert (if sign == "-" then s[1..] else s) == q;
    assert !StartsWith(q, "Infinity") by { assert IsDigit(q[0]); }
    DecimalPrefixOfInteger(q);
  }

  lemma DecimalPrefixOfInteger(q: string)
    requires q != [] && AllDigits(q)
    ensures DecimalPrefix(q) == Some(DigitsValue(q) as real)
  {
    DigitPrefixOfConcat(q, []);
    assert q + [] == q;
    assert q[|q|..] == [];
    assert q[..|q|] == q;
    DecimalValueNoExponent(q, []);
  }

  /** `parseFloat` of an optional minus sign, digits, a point and more digits. */
  lemma ParseFloatOfDecimal(sign: string, q: string, frac: string)
    requires sign == "" || sign == "-"
    requires q != [] && AllDigits(q) && AllDigits(frac)
    ensures ParseFloat(sign + q + "." + frac) == Fin(Signed(sign == "-", DecimalValue(q, frac, 0)))
  {
    var s := sign + q + "." + frac;
    NotSpaceAtHead(s);
    var body := q + ("." + frac);
    assert (if sign == "-" then s[1..] else s) == body;
    assert !StartsWith(body, "Infinity") by { assert IsDigit(body[0]); }
    DecimalPrefixOfDecimal(q, frac);
  }

  lemma DecimalPrefixOfDecimal(q: string, frac: string)
    requires q != [] && AllDigits(q) && AllDigits(frac)
    ensures DecimalPrefix(q + ("." + frac)) == Some(DecimalValue(q, frac, 0))
  {
    var body := q + ("." + frac);
    DigitPrefixOfConcat(q, "." + frac);
    var afterInt := body[|q|..];
    assert afterInt == "." + frac;
    assert afterInt[1..] == frac;
    DigitPrefixOfConcat(frac, []);
    assert frac + [] == frac;
    assert frac[..|frac|] == frac;
    assert afterInt[1 + |frac|..] == [];
    assert body[..|q|] == q;
    assert ExponentPrefix([]) == 0;
  }

  lemma DecimalValueNoExponent(whole: string, frac: string)
    requires AllDigits(whole) && AllDigits(frac)
    ensures DecimalValue(whole, frac, 0) == DigitsValue(whole) as real + DigitsValue(frac) as real / Pow10(|frac|) as real
  {
    assert Scale(0) == 1.0;
    var m := DigitsValue(whole) as real + DigitsValue(frac) as real / Pow10(|frac|) as real;
    assert m * 1.0 == m;
  }

  /** `parseFloat` reads back exactly the value that `toFixed` printed. */
  lemma ParseFloatOfToFixed(x: real, f: nat)
    ensures ParseFloat(ToFixed(x, f)) == Fin(RoundedTo(x, f))
  {
    var sign := if x < 0.0 then "-" else "";
    assert ToFixed(x, f) == sign + FixedDigits(FixedUnits(x, f), f);
    ParseFloatOfFixedDigits(sign, FixedUnits(x, f), f);
  }

  lemma ParseFloatOfFixedDigits(sign: string, n: nat, f: nat)
    requires sign == "" || sign == "-"
    ensures ParseFloat(sign + FixedDigits(n, f)) == Fin(Signed(sign == "-", n as real / Pow10(f) as real))
  {
    if f == 0 {
      ParseFloatOfWholeFixed(sign, n, sign + FixedDigits(n, 0));
    } else {
      var q := NatToString(Div(n, Pow10(f)));
      var pad := PadLeftZeroes(NatToString(Mod(n, Pow10(f))), f);
      ParseFloatOfFractionFixed(sign, n, f, q, pad, sign + FixedDigits(n, f));
    }
  }

  lemma ParseFloatOfWholeFixed(sign: string, n: nat, text: string)
    requires sign == "" || sign == "-"
    requires text == sign + FixedDigits(n, 0)
    ensures ParseFloat(text) == Fin(Signed(sign == "-", n as real / Pow10(0) as real))
  {
    assert text == sign + NatToString(n);
    ParseFloatOfInteger(sign, NatToString(n));
    DivideByOne(n as real, Pow10(0) as real);
  }

  lemma ParseFloatOfFractionFixed(sign: string, n: nat, f: nat, q: string, pad: string, text: string)
    requires sign == "" || sign == "-"
    requires f >= 1
    requires q == NatToString(Div(n, Pow10(f))) && pad == PadLeftZeroes(NatToString(Mod(n, Pow10(f))), f)
    requires text == sign + FixedDigits(n, f)
    ensures ParseFloat(text) == Fin(Signed(sign == "-", n as real / Pow10(f) as real))
  {
    FixedDigitsParts(sign, n, f, q, pad, text);
    FixedFractionValue(n, f, q, NatToString(Mod(n, Pow10(f))), pad);
    ParseFloatOfDecimal(sign, q, pad);
  }

  lemma FixedDigitsParts(sign: string, n: nat, f: nat, q: string, pad: string, text: string)
    requires f >= 1
    requires q == NatToString(Div(n, Pow10(f))) && pad == PadLeftZeroes(NatToString(Mod(n, Pow10(f))), f)
    requires text == sign + FixedDigits(n, f)
    ensures text == sign + q + "." + pad
  {
    var tail := FixedDigits(n, f);
    assert tail == q + "." + pad;
    PrependToJoined(sign, q, ".", pad, tail);
  }

  lemma DivideByOne(x: real, one: real)
    requires one == 1.0
    ensures x / one == x
  {
  }

  lemma FixedFractionValue(n: nat, f: nat, q: string, r: string, pad: string)
    requires f >= 1
    requires q == NatToString(Div(n, Pow10(f))) && r == NatToString(Mod(n, Pow10(f))) && pad == PadLeftZeroes(r, f)
    ensures AllDigits(pad) && DecimalValue(q, pad, 0) == n as real / Pow10(f) as real
  {
    FixedFractionShape(n, f, q, r, pad);
    DivMod(n, Pow10(f));
    QuotientAndRemainder(Div(n, Pow10(f)), Mod(n, Pow10(f)), n, Pow10(f), DecimalValue(q, pad, 0));
  }

  lemma QuotientAndRemainder(a: nat, b: nat, n: nat, p: nat, v: real)
    requires p > 0 && a * p + b == n && v == a as real + b as real / p as real
    ensures v == n as real / p as real
  {
    CastSumOfProduct(a, p, b, n);
    QuotientPlusFraction(a as real, b as real, n as real, p as real);
  }

  lemma FixedFractionShape(n: nat, f: nat, q: string, r: string, pad: string)
    requires f >= 1
    requires q == NatToString(Div(n, Pow10(f))) && r == NatToString(Mod(n, Pow10(f))) && pad == PadLeftZeroes(r, f)
    ensures AllDigits(pad) && |pad| == f
    ensures DigitsValue(q) == Div(n, Pow10(f)) && DigitsValue(pad) == Mod(n, Pow10(f))
    ensures DecimalValue(q, pad, 0) == DigitsValue(q) as real + DigitsValue(pad) as real / Pow10(f) as real
  {
    PadLeftZeroesValue(r, f);
    NatToStringWidth(Mod(n, Pow10(f)), f);
    DecimalValueNoExponent(q, pad);
  }

  lemma CastSumOfProduct(a: int, p: int, b: int, n: int)
    requires a * p + b == n
    ensures a as real * p as real + b as real == n as real
  {
  }

  lemma QuotientPlusFraction(a: real, b: real, n: real, p: real)
    requires p > 0.0 && a * p + b == n
    ensures a + b / p == n / p
  {
  }

  /** A number below `10^f` needs at most `f` digits. */
  lemma {:induction false} NatToStringWidth(n: nat, f: nat)
    requires n < Pow10(f) && f >= 1
    ensures |NatToString(n)| <= f
  {
    if n >= 10 {
      assert f >= 2;
      NatToStringWidth(n / 10, f - 1);
    }
  }
}
