/**
 * The sketch grid (src/modules/grid_spanky_new.js): the 2D grid picks its
 * minor spacing from a ladder of woodworking sizes so that lines stay
 * between 25 and 50 screen pixels apart, the 3D grid switches among seven
 * detail levels by camera distance, spacing labels, and snapping a point
 * to the grid.
 */
module Grid {
  import opened Wrappers
  import opened Text
  import opened JsNum
  import opened Geometry
  import opened Measurement

  // ---------------------------------------------------------------------
  // 2D level of detail
  // ---------------------------------------------------------------------

  /** `lodWorldSpacings`: the minor spacings in inches, finest first. */
  const LodWorldSpacings: seq<real> := [1.0 / 32.0, 1.0 / 16.0, 1.0 / 8.0, 1.0 / 4.0, 1.0 / 2.0, 1.0, 2.0]
  const Coarsest: nat := 6

  /** Pixels wanted between lines; half of it is the least before coarsening. */
  const OptimalScreenPx: real := 50.0
  const SwitchThresholdZoomOut: real := 25.0
  const SwitchThresholdZoomIn: real := 50.0

  lemma SpacingsIncrease()
    ensures |LodWorldSpacings| == Coarsest + 1
    ensures forall i, j :: 0 <= i < j <= Coarsest ==> LodWorldSpacings[i] < LodWorldSpacings[j]
  {
  }

  /** The on-screen distance between lines of level `i`; `scale` is zoom times the device pixel ratio. */
  function ScreenSize(i: nat, scale: real): real
    requires i <= Coarsest
  {
    LodWorldSpacings[i] * scale
  }

  /**
   * The switch-finer threshold: at level 1 the camera's optimal pixels per
   * unit for the finest level when it is set and not 0, otherwise 50 px.
   */
  function FinerThreshold(i: nat, finestPx: Option<real>): real
  {
    if i == 1 && finestPx.Some? && finestPx.value != 0.0 then finestPx.value else SwitchThresholdZoomIn
  }

  /** The coarsening loop's test: lines closer than 25 px, and a coarser level left. */
  predicate ShouldCoarsen(i: nat, scale: real)
    requires i <= Coarsest
  {
    i < Coarsest && ScreenSize(i, scale) < SwitchThresholdZoomOut
  }

  /** The refining loop's test, both branches of it: lines too far apart and the finer level not too close. */
  predicate ShouldRefine(i: nat, scale: real, finestPx: Option<real>)
    requires i <= Coarsest
  {
    i > 0 && SwitchesFiner(ScreenSize(i, scale), ScreenSize(i - 1, scale), FinerThreshold(i, finestPx))
  }

  /** The refining decision on the current and the finer level's screen sizes. */
  predicate SwitchesFiner(size: real, finer: real, threshold: real)
  {
    if size > threshold && finer > SwitchThresholdZoomOut then finer >= SwitchThresholdZoomOut
    else size > SwitchThresholdZoomIn && finer >= SwitchThresholdZoomOut
  }

  /** Where the coarsening loop stops, starting from level `i`. */
  function Coarsened(i: nat, scale: real): (r: nat)
    requires i <= Coarsest
    ensures i <= r <= Coarsest && !ShouldCoarsen(r, scale)
    decreases Coarsest - i
  {
    if ShouldCoarsen(i, scale) then Coarsened(i + 1, scale) else i
  }

  /** Where the refining loop stops, starting from level `i`. */
  function Refined(i: nat, scale: real, finestPx: Option<real>): (r: nat)
    requires i <= Coarsest
    ensures r <= i && !ShouldRefine(r, scale, finestPx)
  {
    if ShouldRefine(i, scale, finestPx) then Refined(i - 1, scale, finestPx) else i
  }

  /** Refining never moves to a level whose lines are closer than 25 px. */
  lemma {:induction false} RefinedKeepsLinesApart(i: nat, scale: real, finestPx: Option<real>)
    requires i <= Coarsest && !ShouldCoarsen(i, scale)
    ensures !ShouldCoarsen(Refined(i, scale, finestPx), scale)
  {
    if ShouldRefine(i, scale, finestPx) {
      RefinedKeepsLinesApart(i - 1, scale, finestPx);
    }
  }

  /** The level the two loops settle on from a starting spacing: an unknown spacing starts at the coarsest. */
  function SettledLevel(minorSpacing: real, scale: real, finestPx: Option<real>): (r: nat)
    ensures r <= Coarsest
  {
    var start := if minorSpacing in LodWorldSpacings then FirstIndex(LodWorldSpacings, minorSpacing) else Coarsest;
    Refined(Coarsened(start, scale), scale, finestPx)
  }

  /** `indexOf` on the spacing ladder. */
  function FirstIndex(s: seq<real>, v: real): (i: nat)
    requires v in s
    ensures i < |s| && s[i] == v
    ensures forall j :: 0 <= j < i ==> s[j] != v
  {
    if s[0] == v then 0 else 1 + FirstIndex(s[1..], v)
  }

  /** The settled level is stable: neither loop would move it again. */
  lemma SettledIsStable(minorSpacing: real, scale: real, finestPx: Option<real>)
    ensures var r := SettledLevel(minorSpacing, scale, finestPx);
            !ShouldCoarsen(r, scale) && !ShouldRefine(r, scale, finestPx)
  {
    var start := if minorSpacing in LodWorldSpacings then FirstIndex(LodWorldSpacings, minorSpacing) else Coarsest;
    RefinedKeepsLinesApart(Coarsened(start, scale), scale, finestPx);
  }

  /** At a positive scale the settled lines are at least 25 px apart unless even the coarsest level is closer. */
  lemma SettledLinesAreReadable(minorSpacing: real, scale: real, finestPx: Option<real>)
    ensures var r := SettledLevel(minorSpacing, scale, finestPx);
            r == Coarsest || ScreenSize(r, scale) >= SwitchThresholdZoomOut
  {
    SettledIsStable(minorSpacing, scale, finestPx);
  }

  // ---------------------------------------------------------------------
  // 3D level of detail
  // ---------------------------------------------------------------------

  /** The seven 3D grid states, by camera distance (radius) in inches. */
  datatype Lod3D = Lod1 | Lod2 | Lod3 | Lod4 | Lod5 | Lod6 | Lod7

  function LodRank(l: Lod3D): nat
  {
    match l
    case Lod1 => 1 case Lod2 => 2 case Lod3 => 3 case Lod4 => 4
    case Lod5 => 5 case Lod6 => 6 case Lod7 => 7
  }

  /** Where the states change, in inches of camera radius. */
  const LodBoundaries: seq<real> := [25.0, 50.0, 100.0, 200.0, 400.0, 800.0]

  /** The state for a camera radius: the rank is one more than the number of boundaries at or below it. */
  function LodFor(radius: real): (l: Lod3D)
    ensures forall i :: 0 <= i < |LodBoundaries| ==> (radius < LodBoundaries[i] <==> LodRank(l) <= i + 1)
  {
    if radius < 25.0 then Lod1
    else if radius < 50.0 then Lod2
    else if radius < 100.0 then Lod3
    else if radius < 200.0 then Lod4
    else if radius < 400.0 then Lod5
    else if radius < 800.0 then Lod6
    else Lod7
  }

  /** Moving the camera away never selects a finer grid. */
  lemma LodIsMonotone(r1: real, r2: real)
    requires r1 <= r2
    ensures LodRank(LodFor(r1)) <= LodRank(LodFor(r2))
  {
  }

  /** The grid material's settings for a state: minor spacing (`gridRatio`) and minor line visibility. */
  datatype GridSettings = GridSettings(gridRatio: real, majorUnitFrequency: nat, minorUnitVisibility: real)

  function SettingsFor(l: Lod3D): (g: GridSettings)
    ensures g.majorUnitFrequency == 4
  {
    match l
    case Lod1 => GridSettings(0.25, 4, 0.85)
    case Lod2 => GridSettings(0.5, 4, 0.75)
    case Lod3 => GridSettings(1.0, 4, 0.65)
    case Lod4 => GridSettings(3.0, 4, 0.55)
    case Lod5 => GridSettings(12.0, 4, 0.45)
    case Lod6 => GridSettings(36.0, 4, 0.35)
    case Lod7 => GridSettings(120.0, 4, 0.25)
  }

  /** A farther camera gets a coarser grid with fainter minor lines. */
  lemma SettingsFollowDistance(r1: real, r2: real)
    requires r1 <= r2
    ensures SettingsFor(LodFor(r1)).gridRatio <= SettingsFor(LodFor(r2)).gridRatio
    ensures SettingsFor(LodFor(r1)).minorUnitVisibility >= SettingsFor(LodFor(r2)).minorUnitVisibility
  {
  }

  // ---------------------------------------------------------------------
  // Spacing labels
  // ---------------------------------------------------------------------

  /** The label's closing mark: the template literal writes a backslash before the inch mark. */
  const InchMark: string := "\\\""

  const Tolerance: real := 0.00001

  /** The fractions the label knows, in the order they are tried: (text, k) for k/32 of an inch. */
  const SpacingFractions: seq<(string, nat)> :=
    [("1/32", 1), ("1/16", 2), ("3/32", 3), ("1/8", 4), ("5/32", 5), ("3/16", 6), ("7/32", 7),
     ("1/4", 8), ("5/16", 10), ("3/8", 12), ("7/16", 14), ("1/2", 16), ("9/16", 18), ("5/8", 20),
     ("11/16", 22), ("3/4", 24), ("13/16", 26), ("7/8", 28), ("15/16", 30)]

  /** Every entry of the list is written in lowest terms, as the cut dialogs write k/32. */
  lemma SpacingFractionsInLowestTerms()
    ensures forall i :: 0 <= i < |SpacingFractions| ==>
      1 <= SpacingFractions[i].1 <= 31 && SpacingFractions[i].0 == FractionText(SpacingFractions[i].1)
  {
    TextsFrom1To3();
    TextsFrom4To6();
    TextsFrom7To10();
    TextsFrom12To16();
    TextsFrom18To22();
    TextsFrom24To28();
    TextsOf30();
    forall i | 0 <= i < |SpacingFractions|
      ensures 1 <= SpacingFractions[i].1 <= 31 && SpacingFractions[i].0 == FractionText(SpacingFractions[i].1)
    {
    }
  }

  lemma TextsFrom1To3()
    ensures FractionText(1) == "1/32"
    ensures FractionText(2) == "1/16"
    ensures FractionText(3) == "3/32"
  {
    assert Fraction32(1) == (1, 32) && NatToString(1) == "1" && NatToString(32) == "32";
    assert Fraction32(2) == (1, 16) && NatToString(1) == "1" && NatToString(16) == "16";
    assert Fraction32(3) == (3, 32) && NatToString(3) == "3" && NatToString(32) == "32";
  }

  lemma TextsFrom4To6()
    ensures FractionText(4) == "1/8"
    ensures FractionText(5) == "5/32"
    ensures FractionText(6) == "3/16"
  {
    assert Fraction32(4) == (1, 8) && NatToString(1) == "1" && NatToString(8) == "8";
    assert Fraction32(5) == (5, 32) && NatToString(5) == "5" && NatToString(32) == "32";
    assert Fraction32(6) == (3, 16) && NatToString(3) == "3" && NatToString(16) == "16";
  }

  lemma TextsFrom7To10()
    ensures FractionText(7) == "7/32"
    ensures FractionText(8) == "1/4"
    ensures FractionText(10) == "5/16"
  {
    assert Fraction32(7) == (7, 32) && NatToString(7) == "7" && NatToString(32) == "32";
    assert Fraction32(8) == (1, 4) && NatToString(1) == "1" && NatToString(4) == "4";
    assert Fraction32(10) == (5, 16) && NatToString(5) == "5" && NatToString(16) == "16";
  }

  lemma TextsFrom12To16()
    ensures FractionText(12) == "3/8"
    ensures FractionText(14) == "7/16"
    ensures FractionText(16) == "1/2"
  {
    assert Fraction32(12) == (3, 8) && NatToString(3) == "3" && NatToString(8) == "8";
    assert Fraction32(14) == (7, 16) && NatToString(7) == "7" && NatToString(16) == "16";
    assert Fraction32(16) == (1, 2) && NatToString(1) == "1" && NatToString(2) == "2";
  }

  lemma TextsFrom18To22()
    ensures FractionText(18) == "9/16"
    ensures FractionText(20) == "5/8"
    ensures FractionText(22) == "11/16"
  {
    assert Fraction32(18) == (9, 16) && NatToString(9) == "9" && NatToString(16) == "16";
    assert Fraction32(20) == (5, 8) && NatToString(5) == "5" && NatToString(8) == "8";
    assert Fraction32(22) == (11, 16) && NatToString(11) == "11" && NatToString(16) == "16";
  }

  lemma TextsFrom24To28()
    ensures FractionText(24) == "3/4"
    ensures FractionText(26) == "13/16"
    ensures FractionText(28) == "7/8"
  {
    assert Fraction32(24) == (3, 4) && NatToString(3) == "3" && NatToString(4) == "4";
    assert Fraction32(26) == (13, 16) && NatToString(13) == "13" && NatToString(16) == "16";
    assert Fraction32(28) == (7, 8) && NatToString(7) == "7" && NatToString(8) == "8";
  }

  lemma TextsOf30()
    ensures FractionText(30) == "15/16"
  {
    assert Fraction32(30) == (15, 16) && NatToString(15) == "15" && NatToString(16) == "16";
  }

  /** The first entry within the tolerance of `x`, searching from position `i`. */
  function MatchingFraction(x: real, i: nat): (r: Option<nat>)
    requires i <= |SpacingFractions|
    ensures r.Some? ==> i <= r.value < |SpacingFractions|
                        && Abs(x - SpacingFractions[r.value].1 as real / 32.0) < Tolerance
    ensures r.None? ==> forall j :: i <= j < |SpacingFractions| ==> Abs(x - SpacingFractions[j].1 as real / 32.0) >= Tolerance
    decreases |SpacingFractions| - i
  {
    if i == |SpacingFractions| then None
    else if Abs(x - SpacingFractions[i].1 as real / 32.0) < Tolerance then Some(i)
    else MatchingFraction(x, i + 1)
  }

  /**
   * `String(parseFloat(t))` for a `toFixed` text `t`: trailing zeroes of
   * the decimals dropped, then a trailing point, and "-0" read as "0".
   */
  function ShortestDecimal(t: string): string
  {
    var s := if '.' in t then DropTrailing(DropTrailing(t, '0'), '.') else t;
    if s == "-0" then "0" else s
  }

  /** `t` without the run of `c` at its end (at most one `.` is dropped, as a number has one). */
  function DropTrailing(t: string, c: char): (r: string)
    ensures |r| <= |t| && r == t[..|r|]
    ensures r == [] || r[|r| - 1] != c
    ensures forall i :: |r| <= i < |t| ==> t[i] == c
  {
    if t == [] || t[|t| - 1] != c then t else DropTrailing(t[..|t| - 1], c)
  }

  /**
   * `getFormattedSpacing`: "N/A" without a number; a whole number of at
   * least one inch as an integer; a known fraction by its text; otherwise
   * up to three decimals below an inch and two above.
   */
  function FormattedSpacing(spacing: Option<Num>): string
  {
    match spacing
    case None => "N/A"
    case Some(NaN) => "N/A"
    case Some(PosInf) => "Infinity" + InchMark
    case Some(NegInf) => "-Infinity" + InchMark
    case Some(Fin(x)) =>
      if Abs(x - Round(x) as real) < Tolerance && x >= 1.0 then
        var n: nat := Round(x);
        NatToString(n) + InchMark
      else
        match MatchingFraction(x, 0)
        case Some(i) => SpacingFractions[i].0 + InchMark
        case None => ShortestDecimal(ToFixed(x, if x < 1.0 then 3 else 2)) + InchMark
  }

  /** The label is "N/A" exactly when there is no number; every other label ends in the inch mark. */
  lemma NotANumberLabel(spacing: Option<Num>)
    ensures FormattedSpacing(spacing) == "N/A" <==> spacing.None? || spacing.value.NaN?
  {
    var s := FormattedSpacing(spacing);
    if !(spacing.None? || spacing.value.NaN?) {
      var t :| s == t + InchMark;
      assert s[|s| - 1] == '"';
    }
  }

  /** A whole number of inches from one on is labelled by its digits. */
  lemma WholeSpacingLabel(n: nat)
    requires n >= 1
    ensures FormattedSpacing(Some(Fin(n as real))) == NatToString(n) + InchMark
  {
    assert Round(n as real) == n;
  }

  /** The list is in increasing order. */
  lemma {:induction false} NumeratorsIncrease(a: nat, b: nat)
    requires a < b < |SpacingFractions|
    ensures SpacingFractions[a].1 < SpacingFractions[b].1
    decreases b - a
  {
    assert forall i :: 0 < i < |SpacingFractions| ==> SpacingFractions[i - 1].1 < SpacingFractions[i].1;
    if b > a + 1 {
      NumeratorsIncrease(a, b - 1);
    }
  }

  /** Fractions 1/32 apart cannot both be within the tolerance of one value. */
  lemma FractionMatchIsUnique(x: real, j: nat)
    requires j < |SpacingFractions| && Abs(x - SpacingFractions[j].1 as real / 32.0) < Tolerance
    ensures MatchingFraction(x, 0) == Some(j)
  {
    forall k | 0 <= k < |SpacingFractions| && k != j
      ensures Abs(x - SpacingFractions[k].1 as real / 32.0) >= Tolerance
    {
      if k < j {
        NumeratorsIncrease(k, j);
      } else {
        NumeratorsIncrease(j, k);
      }
    }
  }

  /** Each known fraction of an inch is labelled by its own text. */
  lemma FractionSpacingLabel(j: nat, x: real)
    requires j < |SpacingFractions| && x == SpacingFractions[j].1 as real / 32.0
    ensures FormattedSpacing(Some(Fin(x))) == SpacingFractions[j].0 + InchMark
  {
    assert 0.0 < x < 1.0;
    FractionMatchIsUnique(x, j);
  }

  /** Which entry of the fraction list names each fractional spacing of the 2D grid. */
  const LodFractionEntries: seq<nat> := [0, 1, 3, 7, 11]

  /** The five fractional spacings the 2D grid can settle on are labelled by their fractions. */
  lemma LodFractionLabel(i: nat)
    requires i < |LodFractionEntries|
    ensures LodFractionEntries[i] < |SpacingFractions|
    ensures FormattedSpacing(Some(Fin(LodWorldSpacings[i]))) == SpacingFractions[LodFractionEntries[i]].0 + InchMark
  {
    FractionSpacingLabel(LodFractionEntries[i], LodWorldSpacings[i]);
  }

  /** The two whole-inch spacings are labelled by their digits. */
  lemma LodWholeLabels()
    ensures FormattedSpacing(Some(Fin(LodWorldSpacings[5]))) == "1" + InchMark
    ensures FormattedSpacing(Some(Fin(LodWorldSpacings[6]))) == "2" + InchMark
  {
    WholeSpacingLabel(1);
    WholeSpacingLabel(2);
    assert NatToString(1) == "1" && NatToString(2) == "2";
  }

  // ---------------------------------------------------------------------
  // Snapping
  // ---------------------------------------------------------------------

  /** One coordinate snapped to the nearest multiple of the spacing (halves upward). */
  function SnapCoordinate(v: real, spacing: real): real
    requires spacing > 0.0
  {
    Round(v / spacing) as real * spacing
  }

  /** A snapped coordinate is the nearest multiple of the spacing: within half a spacing of the input. */
  lemma SnapIsNearestMultiple(v: real, spacing: real)
    requires spacing > 0.0
    ensures IsMultipleOf(SnapCoordinate(v, spacing), spacing)
    ensures Abs(SnapCoordinate(v, spacing) - v) <= spacing / 2.0
  {
    var q := v / spacing;
    var k := Round(q);
    assert v == q * spacing;
    assert SnapCoordinate(v, spacing) - v == (k as real - q) * spacing;
    assert -0.5 < k as real - q <= 0.5;
    HalfBound(k as real - q, spacing);
    assert SnapCoordinate(v, spacing) / spacing == k as real;
  }

  /** `v` is a whole number of spacings. */
  predicate IsMultipleOf(v: real, spacing: real)
    requires spacing > 0.0
  {
    v / spacing == Floor(v / spacing) as real
  }

  lemma HalfBound(d: real, spacing: real)
    requires spacing > 0.0 && -0.5 < d <= 0.5
    ensures Abs(d * spacing) <= spacing / 2.0
  {
    if d >= 0.0 {
      assert d * spacing <= 0.5 * spacing;
    } else {
      assert -d * spacing < 0.5 * spacing;
    }
  }

  /** A multiple of the spacing snaps to itself, so snapping twice is snapping once. */
  lemma SnapOfMultiple(k: int, spacing: real)
    requires spacing > 0.0
    ensures SnapCoordinate(k as real * spacing, spacing) == k as real * spacing
  {
    assert (k as real * spacing) / spacing == k as real;
    assert Round(k as real) == k;
  }

  /** `snapToGrid`: both coordinates snapped; a spacing that is 0 or negative leaves the point. */
  function SnapToGrid(p: Vec2, minorSpacing: real): (r: Vec2)
    ensures minorSpacing <= 0.0 ==> r == p
  {
    if minorSpacing <= 0.0 then p else Vec2(SnapCoordinate(p.x, minorSpacing), SnapCoordinate(p.y, minorSpacing))
  }

  /** Snapping a snapped point changes nothing. */
  lemma SnapToGridIdempotent(p: Vec2, s: real)
    ensures SnapToGrid(SnapToGrid(p, s), s) == SnapToGrid(p, s)
  {
    if s > 0.0 {
      var q := SnapToGrid(p, s);
      var kx, ky := Round(p.x / s), Round(p.y / s);
      assert q.x == kx as real * s && q.y == ky as real * s;
      SnapOfMultiple(kx, s);
      SnapOfMultiple(ky, s);
    }
  }

  // ---------------------------------------------------------------------
  // The renderer's state
  // ---------------------------------------------------------------------

  class GridRenderer {
    var minorSpacing: real
    var majorSpacing: real
    var current3DLodState: Option<Lod3D>
    /** The 3D grid material's settings, when a 3D grid exists. */
    var material: Option<GridSettings>

    /** The constructor starts at the coarsest spacing with major lines four apart. */
    constructor()
      ensures minorSpacing == LodWorldSpacings[Coarsest] && majorSpacing == 4.0 * minorSpacing
      ensures current3DLodState == None && material == None
    {
      minorSpacing := LodWorldSpacings[Coarsest];
      majorSpacing := LodWorldSpacings[Coarsest] * 4.0;
      current3DLodState := None;
      material := None;
    }

    /**
     * `updateGridSpacingForLOD`: first coarsen while lines are closer than
     * 25 px, then refine while they are farther than the threshold and the
     * finer level would not be closer than 25 px; major lines every ten.
     */
    method UpdateGridSpacingForLOD(scale: real, finestPx: Option<real>)
      modifies this
      ensures minorSpacing == LodWorldSpacings[SettledLevel(old(minorSpacing), scale, finestPx)]
      ensures minorSpacing in LodWorldSpacings && majorSpacing == 10.0 * minorSpacing
      ensures current3DLodState == old(current3DLodState) && material == old(material)
    {
      var index: nat;
      if minorSpacing in LodWorldSpacings {
        index := FirstIndex(LodWorldSpacings, minorSpacing);
      } else {
        index := Coarsest;
        minorSpacing := LodWorldSpacings[index];
      }
      index := CoarsenSpacing(index, scale);
      index := RefineSpacing(index, scale, finestPx);
      majorSpacing := minorSpacing * 10.0;
    }

    /** The coarsening loop of `updateGridSpacingForLOD`. */
    method CoarsenSpacing(start: nat, scale: real) returns (index: nat)
      requires start <= Coarsest && minorSpacing == LodWorldSpacings[start]
      modifies this
      ensures index == Coarsened(start, scale) && minorSpacing == LodWorldSpacings[index]
      ensures majorSpacing == old(majorSpacing) && current3DLodState == old(current3DLodState) && material == old(material)
    {
      index := start;
      var madeChange := true;
      while madeChange
        invariant start <= index <= Coarsest && minorSpacing == LodWorldSpacings[index]
        invariant Coarsened(index, scale) == Coarsened(start, scale)
        invariant !madeChange ==> !ShouldCoarsen(index, scale)
        invariant majorSpacing == old(majorSpacing) && current3DLodState == old(current3DLodState) && material == old(material)
        decreases Coarsest - index + (if madeChange then 1 else 0)
      {
        madeChange := false;
        if index < Coarsest && ScreenSize(index, scale) < SwitchThresholdZoomOut {
          index := index + 1;
          minorSpacing := LodWorldSpacings[index];
          madeChange := true;
        }
      }
    }

    /** The refining loop of `updateGridSpacingForLOD`. */
    method RefineSpacing(start: nat, scale: real, finestPx: Option<real>) returns (index: nat)
      requires start <= Coarsest && minorSpacing == LodWorldSpacings[start]
      modifies this
      ensures index == Refined(start, scale, finestPx) && minorSpacing == LodWorldSpacings[index]
      ensures majorSpacing == old(majorSpacing) && current3DLodState == old(current3DLodState) && material == old(material)
    {
      index := start;
      var madeChange := true;
      while madeChange
        invariant index <= start && minorSpacing == LodWorldSpacings[index]
        invariant Refined(index, scale, finestPx) == Refined(start, scale, finestPx)
        invariant !madeChange ==> !ShouldRefine(index, scale, finestPx)
        invariant majorSpacing == old(majorSpacing) && current3DLodState == old(current3DLodState) && material == old(material)
        decreases index + (if madeChange then 1 else 0)
      {
        madeChange := false;
        if index > 0 {
          var projected := ScreenSize(index, scale);
          var finer := ScreenSize(index - 1, scale);
          var threshold := FinerThreshold(index, finestPx);
          var switchFiner := SwitchesFiner(projected, finer, threshold);
          if switchFiner {
            index := index - 1;
            minorSpacing := LodWorldSpacings[index];
            madeChange := true;
          }
        }
      }
    }

    /**
     * `update3DGridLOD`: without a grid material or a 3D camera (whose
     * radius is `cameraRadius`) nothing happens; otherwise the state for the
     * radius is taken, and the material is set only when the state changes.
     */
    method Update3DGridLOD(cameraRadius: Option<real>)
      modifies this
      ensures old(material).None? || cameraRadius.None? ==>
        current3DLodState == old(current3DLodState) && material == old(material)
      ensures old(material).Some? && cameraRadius.Some? ==>
        current3DLodState == Some(LodFor(cameraRadius.value)) &&
        material == (if old(current3DLodState) == current3DLodState then old(material) else Some(SettingsFor(LodFor(cameraRadius.value))))
      ensures minorSpacing == old(minorSpacing) && majorSpacing == old(majorSpacing)
    {
      if material.None? || cameraRadius.None? {
        return;
      }
      var newLodState := LodFor(cameraRadius.value);
      if Some(newLodState) != current3DLodState {
        current3DLodState := Some(newLodState);
        material := Some(SettingsFor(newLodState));
      }
    }

    /** `snapToGrid` on the current minor spacing. */
    function Snap(p: Vec2): (r: Vec2)
      reads this
      ensures minorSpacing <= 0.0 ==> r == p
      ensures minorSpacing > 0.0 ==> IsMultipleOf(r.x, minorSpacing) && IsMultipleOf(r.y, minorSpacing)
      ensures minorSpacing > 0.0 ==> Abs(r.x - p.x) <= minorSpacing / 2.0 && Abs(r.y - p.y) <= minorSpacing / 2.0
    {
      if minorSpacing > 0.0 then
        SnapIsNearestMultiple(p.x, minorSpacing);
        SnapIsNearestMultiple(p.y, minorSpacing);
        SnapToGrid(p, minorSpacing)
      else
        p
    }
  }
}
