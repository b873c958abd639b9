/**
 * The 2D drawing engine's dimension labels and hit test
 * (src/modules/drawing_backup.js): `formatDimensionValue` shows a length
 * in feet, inches and the nearest sixteenth (imperial) or in millimetres
 * and metres (metric); `hitTest` finds the topmost object under a point.
 */
module Drawing {
  import opened Wrappers
  import opened Text
  import opened JsNum
  import opened Geometry
  import opened Measurement
  import opened Tools

  // ---------------------------------------------------------------------
  // Reducing a fraction
  // ---------------------------------------------------------------------

  /**
   * The fraction-reducing loop of `formatDimensionValue`: for `i` from
   * `from` down to 2, both terms are divided by `i` whenever it divides both.
   */
  function Reduce(num: nat, den: nat, from: nat): (r: (nat, nat))
    requires num > 0 && den > 0
    ensures r.0 > 0 && r.1 > 0
    decreases from
  {
    if from <= 1 then (num, den)
    else if num % from == 0 && den % from == 0 then Reduce(num / from, den / from, from - 1)
    else Reduce(num, den, from - 1)
  }

  /** The loop as the source runs it, on two variables it divides in place. */
  method ReduceFraction(sixteenths: nat) returns (num: nat, den: nat)
    requires 0 < sixteenths < 16
    ensures (num, den) == Fraction32(2 * sixteenths)
  {
    num := sixteenths;
    den := 16;
    var i := if num > den then num else den;
    while i > 1
      invariant 0 <= i && num > 0 && den > 0
      invariant Reduce(num, den, i) == Reduce(sixteenths, 16, 16)
    {
      ReduceStep(num, den, i);
      if num % i == 0 && den % i == 0 {
        num := num / i;
        den := den / i;
      }
      i := i - 1;
    }
    ReducedSixteenths(sixteenths);
  }

  /** One turn of the loop keeps the fraction it will end with. */
  lemma ReduceStep(num: nat, den: nat, i: nat)
    requires num > 0 && den > 0 && i > 1
    ensures num % i == 0 && den % i == 0 ==> num / i > 0 && den / i > 0 && Reduce(num / i, den / i, i - 1) == Reduce(num, den, i)
    ensures !(num % i == 0 && den % i == 0) ==> Reduce(num, den, i - 1) == Reduce(num, den, i)
  {
  }

  /**
   * For every count of sixteenths the loop can see, it ends in lowest
   * terms: an odd numerator over a power of two (the fraction the cut
   * dialogs' table shows for the same length).
   */
  lemma ReducedSixteenths(s: nat)
    requires 0 < s < 16
    ensures Reduce(s, 16, 16) == Fraction32(2 * s)
    ensures Reduce(s, 16, 16).0 % 2 == 1
    ensures Reduce(s, 16, 16).0 * 16 == s * Reduce(s, 16, 16).1
  {
    if s <= 5 {
      ReducedUpToFive(s);
    } else if s <= 10 {
      ReducedUpToTen(s);
    } else {
      ReducedUpToFifteen(s);
    }
    var k := 2 * s;
    var r := Fraction32(k);
    HalveProduct(r.0, r.1, s);
  }

  /** Halving both sides of `a * 32 == 2 * s * b`. */
  lemma HalveProduct(a: nat, b: nat, s: nat)
    requires a * 32 == (2 * s) * b
    ensures a * 16 == s * b
  {
    assert (2 * s) * b == 2 * (s * b);
  }

  lemma ReducedUpToFive(s: nat)
    requires 0 < s <= 5
    ensures Reduce(s, 16, 16) == Fraction32(2 * s)
  {
    LoopUpToFive(s);
    TableUpToFive(s);
  }

  lemma LoopUpToFive(s: nat)
    requires 0 < s <= 5
    ensures Reduce(s, 16, 16) == [(1, 16), (1, 8), (3, 16), (1, 4), (5, 16)][s - 1]
  {
    if s == 1 { assert Reduce(1, 16, 16) == (1, 16); }
    else if s == 2 { assert Reduce(2, 16, 16) == (1, 8); }
    else if s == 3 { assert Reduce(3, 16, 16) == (3, 16); }
    else if s == 4 { assert Reduce(4, 16, 16) == (1, 4); }
    else { assert Reduce(5, 16, 16) == (5, 16); }
  }

  lemma TableUpToFive(s: nat)
    requires 0 < s <= 5
    ensures Fraction32(2 * s) == [(1, 16), (1, 8), (3, 16), (1, 4), (5, 16)][s - 1]
  {
    if s == 1 { assert Fraction32(2) == (1, 16); }
    else if s == 2 { assert Fraction32(4) == (1, 8); }
    else if s == 3 { assert Fraction32(6) == (3, 16); }
    else if s == 4 { assert Fraction32(8) == (1, 4); }
    else { assert Fraction32(10) == (5, 16); }
  }

  lemma ReducedUpToTen(s: nat)
    requires 5 < s <= 10
    ensures Reduce(s, 16, 16) == Fraction32(2 * s)
  {
    LoopUpToTen(s);
    TableUpToTen(s);
  }

  lemma LoopUpToTen(s: nat)
    requires 5 < s <= 10
    ensures Reduce(s, 16, 16) == [(3, 8), (7, 16), (1, 2), (9, 16), (5, 8)][s - 6]
  {
    if s == 6 { assert Reduce(6, 16, 16) == (3, 8); }
    else if s == 7 { assert Reduce(7, 16, 16) == (7, 16); }
    else if s == 8 { assert Reduce(1, 2, 7) == (1, 2); assert Reduce(8, 16, 16) == (1, 2); }
    else if s == 9 { assert Reduce(9, 16, 16) == (9, 16); }
    else { assert Reduce(10, 16, 16) == (5, 8); }
  }

  lemma TableUpToTen(s: nat)
    requires 5 < s <= 10
    ensures Fraction32(2 * s) == [(3, 8), (7, 16), (1, 2), (9, 16), (5, 8)][s - 6]
  {
    if s == 6 { assert Fraction32(12) == (3, 8); }
    else if s == 7 { assert Fraction32(14) == (7, 16); }
    else if s == 8 { assert Fraction32(16) == (1, 2); }
    else if s == 9 { assert Fraction32(18) == (9, 16); }
    else { assert Fraction32(20) == (5, 8); }
  }

  lemma ReducedUpToFifteen(s: nat)
    requires 10 < s < 16
    ensures Reduce(s, 16, 16) == Fraction32(2 * s)
  {
    LoopUpToFifteen(s);
    TableUpToFifteen(s);
  }

  lemma LoopUpToFifteen(s: nat)
    requires 10 < s < 16
    ensures Reduce(s, 16, 16) == [(11, 16), (3, 4), (13, 16), (7, 8), (15, 16)][s - 11]
  {
    if s == 11 { assert Reduce(11, 16, 16) == (11, 16); }
    else if s == 12 { assert Reduce(12, 16, 16) == (3, 4); }
    else if s == 13 { assert Reduce(13, 16, 16) == (13, 16); }
    else if s == 14 { assert Reduce(14, 16, 16) == (7, 8); }
    else { assert Reduce(15, 16, 16) == (15, 16); }
  }

  lemma TableUpToFifteen(s: nat)
    requires 10 < s < 16
    ensures Fraction32(2 * s) == [(11, 16), (3, 4), (13, 16), (7, 8), (15, 16)][s - 11]
  {
    if s == 11 { assert Fraction32(22) == (11, 16); }
    else if s == 12 { assert Fraction32(24) == (3, 4); }
    else if s == 13 { assert Fraction32(26) == (13, 16); }
    else if s == 14 { assert Fraction32(28) == (7, 8); }
    else { assert Fraction32(30) == (15, 16); }
  }

  // ---------------------------------------------------------------------
  // formatDimensionValue
  // ---------------------------------------------------------------------

  datatype UnitSystem = Imperial | Metric

  /** Feet, whole inches and sixteenths of an inch (0 to 16) of a length in inches. */
  datatype ImperialParts = ImperialParts(feet: int, inches: int, sixteenths: int)

  /**
   * The parts as the source computes them: whole feet by `Math.floor`, the
   * remaining inches by the truncating `%`, and the fractional inch times
   * 16 rounded by `Math.round`, which can reach 16.
   */
  function PartsAsWritten(value: real): (p: ImperialParts)
    ensures value >= 0.0 ==> p.feet >= 0 && 0 <= p.inches < 12 && 0 <= p.sixteenths <= 16
  {
    var feet := Floor(value / 12.0);
    var remaining := Rem(value, 12.0);
    RemBounds(value, 12.0);
    var whole := Floor(remaining);
    var fraction := remaining - whole as real;
    ImperialParts(feet, whole, if fraction > 0.0 then Round(fraction * 16.0) else 0)
  }

  /** The length the parts stand for, in inches. */
  function PartsValue(p: ImperialParts): real
  {
    12.0 * p.feet as real + p.inches as real + p.sixteenths as real / 16.0
  }

  /** The parts with 16 sixteenths carried into the next inch, and 12 inches into the next foot. */
  function Carried(p: ImperialParts): (c: ImperialParts)
    requires 0 <= p.inches < 12 && 0 <= p.sixteenths <= 16
    ensures 0 <= c.inches < 12 && 0 <= c.sixteenths < 16 && c.feet >= p.feet
    ensures PartsValue(c) == PartsValue(p)
  {
    if p.sixteenths < 16 then p
    else if p.inches < 11 then ImperialParts(p.feet, p.inches + 1, 0)
    else ImperialParts(p.feet + 1, 0, 0)
  }

  /** The written parts are a non-negative length to the nearest sixteenth of an inch. */
  lemma PartsAreNearest(value: real)
    requires value >= 0.0
    ensures Abs(PartsValue(PartsAsWritten(value)) - value) <= 1.0 / 32.0
  {
    var feet := Floor(value / 12.0);
    RemBounds(value, 12.0);
    assert Trunc(value / 12.0) == feet;
    var remaining := Rem(value, 12.0);
    assert remaining == value - 12.0 * feet as real;
  }

  /** An integer as a template literal prints it. */
  function IntText(n: int): string
  {
    if n < 0 then "-" + NatToString(-n) else NatToString(n)
  }

  /** `" num/den"` for 1 to 15 sixteenths, nothing otherwise. */
  function FractionSuffix(sixteenths: int): string
  {
    if 0 < sixteenths < 16 then
      var (num, den) := Reduce(sixteenths, 16, 16);
      " " + NatToString(num) + "/" + NatToString(den)
    else ""
  }

  /** The imperial label assembled from the parts, as the source assembles and trims it. */
  function ImperialText(value: real, p: ImperialParts): string
  {
    Trim(ImperialResult(value, p))
  }

  /** The label before trimming. */
  function ImperialResult(value: real, p: ImperialParts): string
  {
    Assembled(value, p, FractionSuffix(p.sixteenths))
  }

  /** The feet, the inches and the fraction text put together, with the source's special cases. */
  function Assembled(value: real, p: ImperialParts, fractionString: string): string
  {
    var feetText := if p.feet > 0 then IntText(p.feet) + "'" else "";
    var result :=
      if p.inches > 0 || fractionString != "" || (p.feet == 0 && value == 0.0) then
        feetText + (if p.feet > 0 && (p.inches > 0 || fractionString != "") then " " else "")
        + IntText(p.inches) + fractionString + "\""
      else if p.feet == 0 && p.inches == 0 && fractionString == "" && value != 0.0 then
        ToFixed(value, 3) + "\""
      else if feetText == "" then "0\""
      else feetText;
    result
  }

  function MetricText(value: real): string
  {
    if value >= 1000.0 then ToFixed(value / 1000.0, 2) + " m" else ToFixed(value, 1) + " mm"
  }

  /**
   * `formatDimensionValue` as written: a fractional inch of 31/32 or more
   * rounds to 16 sixteenths, which is then dropped instead of adding an inch.
   */
  function DimensionTextAsWritten(value: real, units: UnitSystem): string
  {
    match units
    case Imperial => ImperialText(value, PartsAsWritten(value))
    case Metric => MetricText(value)
  }

  /**
   * The intended `formatDimensionValue`: a non-negative length is shown to
   * the nearest sixteenth, a full sixteen sixteenths carried into the next
   * inch (and a twelfth inch into the next foot).
   */
  function DimensionText(value: real, units: UnitSystem): string
  {
    match units
    case Imperial =>
      if value >= 0.0 then ImperialText(value, Carried(PartsAsWritten(value)))
      else ImperialText(value, PartsAsWritten(value))
    case Metric => MetricText(value)
  }

  /** A length of zero is labelled `0"`. */
  lemma ZeroIsZeroInches()
    ensures DimensionText(0.0, Imperial) == "0\""
    ensures DimensionTextAsWritten(0.0, Imperial) == "0\""
  {
    assert Floor(0.0 / 12.0) == 0 && Trunc(0.0 / 12.0) == 0;
    assert PartsAsWritten(0.0) == ImperialParts(0, 0, 0);
    assert IntText(0) == "0";
    assert FractionSuffix(0) == "";
    assert ImperialResult(0.0, ImperialParts(0, 0, 0)) == "0\"";
    TrimUnchanged("0\"");
  }

  /** A metric label is in metres exactly from 1000 mm on, in millimetres below. */
  lemma MetricUnitSuffix(value: real)
    ensures var s := DimensionText(value, Metric);
            |s| >= 3 && (value >= 1000.0 <==> s[|s| - 2..] == " m")
  {
    var s := DimensionText(value, Metric);
    if value >= 1000.0 {
      var metres := value / 1000.0;
      NumberThenUnit(metres, 2, " m", s);
    } else {
      NumberThenUnit(value, 1, " mm", s);
    }
  }

  /** `toFixed` followed by a unit ends in the unit's last two characters. */
  lemma NumberThenUnit(x: real, f: nat, unit: string, s: string)
    requires |unit| >= 2 && s == ToFixed(x, f) + unit
    ensures |s| >= 3 && s[|s| - 2..] == unit[|unit| - 2..]
  {
    var t := ToFixed(x, f);
    FixedNotEmpty(x, f, t);
    UnitEnding(t, unit, s);
  }

  lemma FixedNotEmpty(x: real, f: nat, t: string)
    requires t == ToFixed(x, f)
    ensures t != []
  {
    ToFixedChars(x, f);
  }

  /** A number followed by a unit ends in the unit's last two characters. */
  lemma UnitEnding(number: string, unit: string, s: string)
    requires number != [] && |unit| >= 2 && s == number + unit
    ensures |s| >= 3 && s[|s| - 2..] == unit[|unit| - 2..]
  {
    assert s[|s| - 2] == unit[|unit| - 2] && s[|s| - 1] == unit[|unit| - 1];
  }

  /** The parts the intended label shows stand for the length to within 1/32 of an inch. */
  lemma DimensionTextIsNearest(value: real)
    requires value >= 0.0
    ensures var c := Carried(PartsAsWritten(value));
            Abs(PartsValue(c) - value) <= 1.0 / 32.0 && 0 <= c.inches < 12 && 0 <= c.sixteenths < 16
  {
    PartsAreNearest(value);
  }

  /** Whenever no carry is needed the written label is the intended one. */
  lemma AsWrittenAgreesWithoutCarry(value: real, units: UnitSystem)
    requires value >= 0.0 && PartsAsWritten(value).sixteenths < 16
    ensures DimensionTextAsWritten(value, units) == DimensionText(value, units)
  {
  }

  /** The parts of 2.99 inches: no feet, 2 inches and a fraction that rounds to 16 sixteenths. */
  lemma PartsOfAlmostThree()
    ensures PartsAsWritten(2.99) == ImperialParts(0, 2, 16)
  {
    assert Floor(2.99 / 12.0) == 0;
    assert Trunc(2.99 / 12.0) == 0;
    assert Rem(2.99, 12.0) == 2.99;
    assert Floor(2.99) == 2;
    assert Round(0.99 * 16.0) == 16;
  }

  /** A label of whole inches only. */
  lemma WholeInchesText(value: real, n: nat)
    requires 0 < n < 10
    ensures ImperialText(value, ImperialParts(0, n, 0)) == [DigitChar(n)] + "\""
  {
    assert IntText(n) == [DigitChar(n)];
    assert ImperialResult(value, ImperialParts(0, n, 0)) == [DigitChar(n)] + "\"";
    TrimUnchanged([DigitChar(n)] + "\"");
  }

  /** 2.99 inches: written, the label shows 2", a whole inch short; intended, it shows 3". */
  lemma AlmostThreeInches()
    ensures DimensionTextAsWritten(2.99, Imperial) == "2\""
    ensures DimensionText(2.99, Imperial) == "3\""
  {
    PartsOfAlmostThree();
    AlmostThreeAsWritten(2.99, PartsAsWritten(2.99));
    AlmostThreeCarried(2.99, PartsAsWritten(2.99));
  }

  lemma AlmostThreeAsWritten(value: real, p: ImperialParts)
    requires p == ImperialParts(0, 2, 16)
    ensures ImperialText(value, p) == "2\""
  {
    WholeInchesText(value, 2);
    assert [DigitChar(2)] + "\"" == "2\"";
  }

  lemma AlmostThreeCarried(value: real, p: ImperialParts)
    requires p == ImperialParts(0, 2, 16)
    ensures ImperialText(value, Carried(p)) == "3\""
  {
    assert Carried(p) == ImperialParts(0, 3, 0);
    WholeInchesText(value, 3);
    assert [DigitChar(3)] + "\"" == "3\"";
  }

  /**
   * `formatDimensionValue`, with the reducing loop run as a method and the
   * carry of the intended label.
   */
  method FormatDimensionValue(value: real, units: UnitSystem) returns (s: string)
    ensures s == DimensionText(value, units)
  {
    if units == Metric {
      return MetricText(value);
    }
    var p := PartsAsWritten(value);
    if value >= 0.0 {
      p := Carried(p);
    }
    var fractionString := "";
    if 0 < p.sixteenths < 16 {
      var num, den := ReduceFraction(p.sixteenths);
      ReducedSixteenths(p.sixteenths);
      fractionString := " " + NatToString(num) + "/" + NatToString(den);
    }
    assert fractionString == FractionSuffix(p.sixteenths);
    s := Trim(Assembled(value, p, fractionString));
  }

  // ---------------------------------------------------------------------
  // hitTest
  // ---------------------------------------------------------------------

  function Dist2(a: Vec2, b: Vec2): real
  {
    (a.x - b.x) * (a.x - b.x) + (a.y - b.y) * (a.y - b.y)
  }

  /** `Math.sqrt(d2) <= limit`, compared on squares. */
  predicate WithinDistance(d2: real, limit: real)
  {
    limit >= 0.0 && d2 <= limit * limit
  }

  /** The dot product of `p - a` and `b - a`. */
  function Dot(p: Vec2, a: Vec2, b: Vec2): real
  {
    (p.x - a.x) * (b.x - a.x) + (p.y - a.y) * (b.y - a.y)
  }

  /** The projection parameter of `p` on the segment from `a` to `b`, clamped to [0, 1]. */
  function SegmentParameter(p: Vec2, a: Vec2, b: Vec2): (t: real)
    requires Dist2(a, b) != 0.0
    ensures 0.0 <= t <= 1.0
  {
    var raw := Dot(p, a, b) / Dist2(a, b);
    if raw < 0.0 then 0.0 else if raw > 1.0 then 1.0 else raw
  }

  /** The point of the segment nearest `p`. */
  function ClosestOnSegment(p: Vec2, a: Vec2, b: Vec2): Vec2
    requires Dist2(a, b) != 0.0
  {
    var t := SegmentParameter(p, a, b);
    Vec2(a.x + t * (b.x - a.x), a.y + t * (b.y - a.y))
  }

  /**
   * Whether a point is on a shape, within the tolerance: inside a
   * rectangle grown by it, within it of a circle's disc, within it of a
   * line segment (of the point, for a zero-length line).
   */
  predicate Hits(s: Shape, p: Vec2, tol: real)
  {
    match s
    case Rect(x, y, w, h) => x - tol <= p.x <= x + w + tol && y - tol <= p.y <= y + h + tol
    case Circle(c, r) => WithinDistance(Dist2(p, c), r + tol)
    case Line(a, b) =>
      if Dist2(a, b) == 0.0 then WithinDistance(Dist2(p, a), tol)
      else WithinDistance(Dist2(p, ClosestOnSegment(p, a, b)), tol)
  }

  /**
   * `hitTest`: scanning from the last object drawn, the first one the point
   * hits — the topmost hit — or nothing.
   */
  method HitTest(shapes: seq<Shape>, p: Vec2, tol: real) returns (r: Option<nat>)
    ensures r.Some? ==> r.value < |shapes| && Hits(shapes[r.value], p, tol)
    ensures r.Some? ==> forall j :: r.value < j < |shapes| ==> !Hits(shapes[j], p, tol)
    ensures r.None? ==> forall j :: 0 <= j < |shapes| ==> !Hits(shapes[j], p, tol)
  {
    var i := |shapes|;
    while i > 0
      invariant 0 <= i <= |shapes|
      invariant forall j :: i <= j < |shapes| ==> !Hits(shapes[j], p, tol)
    {
      i := i - 1;
      if Hits(shapes[i], p, tol) {
        return Some(i);
      }
    }
    return None;
  }

  /** Both ends of a line, and so a zero-length line's point, are hit with any non-negative tolerance. */
  lemma LineEndsHit(a: Vec2, b: Vec2, tol: real)
    requires tol >= 0.0
    ensures Hits(Line(a, b), a, tol) && Hits(Line(a, b), b, tol)
  {
    if Dist2(a, b) != 0.0 {
      assert SegmentParameter(a, a, b) == 0.0;
      assert ClosestOnSegment(a, a, b) == a;
      var l2 := Dist2(a, b);
      assert (b.x - a.x) * (b.x - a.x) + (b.y - a.y) * (b.y - a.y) == l2;
      assert SegmentParameter(b, a, b) == 1.0;
      assert ClosestOnSegment(b, a, b) == b;
    }
  }

  /** Every point between the ends of a line is on it: the clamp keeps its own parameter. */
  lemma PointsOnSegmentHit(a: Vec2, b: Vec2, u: real, tol: real)
    requires tol >= 0.0 && 0.0 <= u <= 1.0 && Dist2(a, b) != 0.0
    ensures Hits(Line(a, b), Vec2(a.x + u * (b.x - a.x), a.y + u * (b.y - a.y)), tol)
  {
    var p := Vec2(a.x + u * (b.x - a.x), a.y + u * (b.y - a.y));
    var l2 := Dist2(a, b);
    var dx := b.x - a.x;
    var dy := b.y - a.y;
    assert l2 == dx * dx + dy * dy;
    assert (p.x - a.x) * dx + (p.y - a.y) * dy == u * l2;
    assert SegmentParameter(p, a, b) == u;
    assert ClosestOnSegment(p, a, b) == p;
  }

  /** A circle's centre is on it whenever the radius plus the tolerance is not negative. */
  lemma CircleCentreHits(c: Vec2, r: real, tol: real)
    requires r + tol >= 0.0
    ensures Hits(Circle(c, r), c, tol)
  {
  }
}
