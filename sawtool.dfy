/**
 * The straight-line saw (modules/SawToolSystem.js): two clicks on a
 * workbench board define the cut line, the crosshair labels show the
 * pieces' lengths in sixteenths of an inch, and each piece gets a new part
 * record.  The CSG cutting, the meshes and the DOM are not modelled.
 */
module SawTool {
  import opened Wrappers
  import opened Text
  import opened JsNum
  import opened Geometry
  import opened Measurement
  import opened Lumber

  /** The default blade thickness, 1/16". */
  const DefaultKerf: real := 0.0625

  /** No piece is ever reported shorter than 0.1". */
  const MinPieceLength: real := 0.1

  // ------------------------------------------------- formatInchesAsFraction

  /** How far the fractional part `f` is from the table entry `k/16`. */
  function Gap(f: real, k: nat): real
  {
    Abs(f - k as real / 16.0)
  }

  /**
   * The entry among `0/16, ..., (n-1)/16` that the scan keeps: it replaces
   * its choice only on a strictly smaller gap, so it is the FIRST closest.
   */
  function Closest(f: real, n: nat): (k: nat)
    requires n >= 1
    ensures k < n
    ensures forall j :: 0 <= j < n ==> Gap(f, k) <= Gap(f, j)
    ensures forall j :: 0 <= j < k ==> Gap(f, k) < Gap(f, j)
  {
    if n == 1 then 0
    else
      var k := Closest(f, n - 1);
      if Gap(f, n - 1) < Gap(f, k) then n - 1 else k
  }

  /** The table's text for `k/16` in lowest terms ("1/8", "3/16", ...); the entry 0 has none. */
  function SixteenthText(k: nat): string
    requires k < 16
  {
    if k == 0 then "" else FractionText(2 * k)
  }

  /** The label for `whole` inches and `k` sixteenths, without the inch mark: "2 1/2", "3/4", "3" or "0". */
  function InchText(whole: nat, k: nat): string
    requires k < 16
  {
    if whole > 0 && k > 0 then NatToString(whole) + " " + SixteenthText(k)
    else if whole > 0 then NatToString(whole)
    else if k > 0 then SixteenthText(k)
    else "0"
  }

  /**
   * `formatInchesAsFraction` as written: a negative length shows `0"`;
   * otherwise the whole inches and the closest of the sixteen entries
   * `0/16 .. 15/16`.  The branch meant to round up to the next inch only
   * runs when the closest entry is 0.
   */
  function InchesAsFractionAsWritten(x: real): string
  {
    if x < 0.0 then "0\""
    else
      var whole := Floor(x);
      var f := x - whole as real;
      var k := Closest(f, 16);
      if k == 0 && f > 0.03 && Round(f * 16.0) as real / 16.0 >= 1.0 then NatToString(whole + 1) + "\""
      else InchText(whole, k) + "\""
  }

  /** `formatInchesAsFraction`, scanning the table of sixteenths as the source does. */
  method FormatInchesAsFraction(decimalInches: real) returns (s: string)
    ensures s == InchesAsFractionAsWritten(decimalInches)
  {
    if decimalInches < 0.0 {
      return "0\"";
    }
    var wholeInches: nat := Floor(decimalInches);
    var fractionalPart := decimalInches - wholeInches as real;
    var closest := 0;
    var minDifference := Abs(fractionalPart - 0.0);
    var i := 0;
    while i < 16
      invariant 0 <= i <= 16
      invariant closest == Closest(fractionalPart, if i == 0 then 1 else i)
      invariant minDifference == Gap(fractionalPart, closest)
    {
      var difference := Abs(fractionalPart - i as real / 16.0);
      if difference < minDifference {
        minDifference := difference;
        closest := i;
      }
      i := i + 1;
    }
    var nextInch: nat := wholeInches + 1;
    if closest == 0 && fractionalPart > 0.03 {
      var roundedFractional := Round(fractionalPart * 16.0) as real / 16.0;
      if roundedFractional >= 1.0 {
        return NatToString(nextInch) + "\"";
      }
    }
    s := InchText(wholeInches, closest) + "\"";
  }

  /** The entry 0 is closest only for a fractional part of at most 1/32. */
  lemma ClosestZeroIsSmall(f: real)
    requires 0.0 <= f
    requires Closest(f, 16) == 0
    ensures f <= 1.0 / 32.0
  {
    assert Gap(f, 0) <= Gap(f, 1);
  }

  /** The round-up branch never fires: when the closest entry is 0, sixteen times the fraction rounds to at most 1. */
  lemma RoundUpNeverTaken(x: real)
    requires x >= 0.0
    ensures var f := x - Floor(x) as real;
            !(Closest(f, 16) == 0 && f > 0.03 && Round(f * 16.0) as real / 16.0 >= 1.0)
  {
    var f := x - Floor(x) as real;
    if Closest(f, 16) == 0 {
      ClosestZeroIsSmall(f);
    }
  }

  /** Above 31/32 of an inch the closest of the sixteen entries is 15/16. */
  lemma ClosestNearTheTop(f: real)
    requires 31.0 / 32.0 < f < 1.0
    ensures Closest(f, 16) == 15
  {
    var k := Closest(f, 16);
    assert Gap(f, k) <= Gap(f, 15);
    assert Gap(f, k) == f - k as real / 16.0;
  }

  /**
   * The label never reaches the next inch: a length whose fractional part
   * is above 31/32 is shown as `whole 15/16"`, although `whole + 1` is nearer.
   */
  lemma AsWrittenMissesNextInch(x: real)
    requires x >= 0.0 && x - Floor(x) as real > 31.0 / 32.0
    ensures InchesAsFractionAsWritten(x) == InchText(Floor(x), 15) + "\""
    ensures Abs(x - (Floor(x) + 1) as real) < Abs(x - (Floor(x) as real + 15.0 / 16.0))
  {
    ClosestNearTheTop(x - Floor(x) as real);
  }

  /** The whole inches and the sixteenths the label intends: the nearest sixteenth, carried into the next inch at 16/16. */
  function ShownSixteenths(x: real): (r: (nat, nat))
    requires x >= 0.0
    ensures r.1 < 16
  {
    var whole := Floor(x);
    var k := Closest(x - whole as real, 17);
    if k == 16 then (whole + 1, 0) else (whole, k)
  }

  /** The intended `formatInchesAsFraction`: the nearest sixteenth of an inch, rounding up to the next whole inch. */
  function InchesAsFraction(x: real): (s: string)
    ensures s != [] && s[|s| - 1] == '"'
    ensures x < 0.0 ==> s == "0\""
  {
    if x < 0.0 then "0\""
    else
      var (whole, k) := ShownSixteenths(x);
      InchText(whole, k) + "\""
  }

  /** The sixteenth shown is at most 1/32" away from the length: it is a nearest sixteenth. */
  lemma {:induction false} ShownIsNearest(x: real)
    requires x >= 0.0
    ensures var (whole, k) := ShownSixteenths(x);
            Abs(whole as real + k as real / 16.0 - x) <= 1.0 / 32.0
  {
    var f := x - Floor(x) as real;
    var j := Round(f * 16.0);
    assert 0 <= j <= 16;
    assert Gap(f, j) <= 1.0 / 32.0;
    var k := Closest(f, 17);
    assert Gap(f, k) <= Gap(f, j);
  }

  /** Where the intended and the written label differ: only above 31/32 of an inch. */
  lemma AsWrittenAgreesBelowTheTop(x: real)
    requires x >= 0.0 && x - Floor(x) as real <= 31.0 / 32.0
    ensures InchesAsFractionAsWritten(x) == InchesAsFraction(x)
  {
    var f := x - Floor(x) as real;
    RoundUpNeverTaken(x);
    var k := Closest(f, 16);
    assert Gap(f, k) <= Gap(f, 15);
    assert !(Gap(f, 16) < Gap(f, k));
    assert Closest(f, 17) == k;
  }

  /** Each label text reads back, through the measurement parser, as the number of inches it names. */
  lemma InchTextReadsBack(whole: nat, k: nat)
    requires k < 16
    ensures ParseMeasurement(InchText(whole, k)) == Some(Fin(whole as real + k as real / 16.0))
  {
    if k > 0 {
      FractionLabelReadsBack(whole, k, InchText(whole, k));
    } else {
      WholeLabelReadsBack(whole, k, InchText(whole, k));
    }
  }

  lemma FractionLabelReadsBack(whole: nat, k: nat, text: string)
    requires 0 < k < 16 && text == InchText(whole, k)
    ensures ParseMeasurement(text) == Some(Fin(whole as real + k as real / 16.0))
  {
    var k2 := 2 * k;
    assert text == if whole > 0 then NatToString(whole) + " " + FractionText(k2) else FractionText(k2);
    var m := TableEntryMatch(whole, k2, text);
    SixteenthsAsThirtySeconds(whole, k, k2, MatchValue(m));
    ParseOfRebuild(m);
  }

  lemma SixteenthsAsThirtySeconds(whole: nat, k: nat, k2: nat, r: Num)
    requires k2 == 2 * k && r == Fin(whole as real + k2 as real / 32.0)
    ensures r == Fin(whole as real + k as real / 16.0)
  {
  }

  lemma WholeLabelReadsBack(whole: nat, k: nat, text: string)
    requires k == 0 && text == InchText(whole, k)
    ensures ParseMeasurement(text) == Some(Fin(whole as real + k as real / 16.0))
  {
    var t := NatToString(whole);
    assert text == t;
    ParseFloatOfInteger("", t);
    assert "" + t == t;
    ParseOfDecimalText(t, whole as real + k as real / 16.0);
  }

  /** A label's number reads back within 1/32" of the size it shows. */
  predicate ReadsBackNear(text: string, x: real)
  {
    var r := ParseMeasurement(text);
    r.Some? && r.value.Fin? && Abs(r.value.v - x) <= 1.0 / 32.0
  }

  /**
   * Round trip for the intended label: without its inch mark it parses to a
   * length within 1/32" of the one measured.
   */
  lemma LabelReadsBack(x: real)
    requires x >= 0.0
    ensures var s := InchesAsFraction(x);
            ReadsBackNear(s[..|s| - 1], x)
  {
    var (whole, k) := ShownSixteenths(x);
    var s := InchesAsFraction(x);
    assert s[..|s| - 1] == InchText(whole, k);
    InchTextReadsBack(whole, k);
    ShownIsNearest(x);
  }

  // --------------------------------------------------------- distance labels

  /** The crosshair's distances from the mouse to the board's four edges, in inches. */
  datatype Distances = Distances(left: real, right: real, front: real, back: real)

  /**
   * The kerf rule of the labels: the left and front pieces keep the full
   * distance, the right and back pieces lose the kerf but never drop below 0.1".
   */
  function PieceSizes(d: Distances, kerf: real): (r: Distances)
    ensures r.left == d.left && r.front == d.front
    ensures r.right >= MinPieceLength && r.back >= MinPieceLength
    ensures r.right == d.right - kerf || r.right == MinPieceLength
    ensures r.back == d.back - kerf || r.back == MinPieceLength
    ensures d.right - kerf >= MinPieceLength ==> r.right == d.right - kerf
    ensures d.back - kerf >= MinPieceLength ==> r.back == d.back - kerf
  {
    Distances(d.left, Max(MinPieceLength, d.right - kerf), d.front, Max(MinPieceLength, d.back - kerf))
  }

  /** The texts of the four labels around the crosshair. */
  datatype CrosshairLabels = CrosshairLabels(left: string, right: string, front: string, back: string)

  /**
   * The four labels around the crosshair: the left, right, front and back
   * piece sizes after the kerf rule, each labelled as `InchesAsFraction`
   * (the corrected label of the 1185-1202 rounding) with its arrow.
   */
  function DistanceLabels(d: Distances, kerf: real): (labels: CrosshairLabels)
    ensures labels.left == "←" + InchesAsFraction(d.left)
    ensures labels.right == InchesAsFraction(PieceSizes(d, kerf).right) + "→"
    ensures labels.front == "↑" + InchesAsFraction(d.front)
    ensures labels.back == InchesAsFraction(PieceSizes(d, kerf).back) + "↓"
  {
    var sizes := PieceSizes(d, kerf);
    CrosshairLabels("←" + InchesAsFraction(sizes.left), InchesAsFraction(sizes.right) + "→",
                    "↑" + InchesAsFraction(sizes.front), InchesAsFraction(sizes.back) + "↓")
  }

  /**
   * Every crosshair label, stripped of its arrow and inch mark, reads back
   * within 1/32" of the piece it names; the right and back pieces are
   * never shown below 0.1".
   */
  lemma DistanceLabelsReadBack(d: Distances, kerf: real)
    requires d.left >= 0.0 && d.front >= 0.0
    ensures PieceSizes(d, kerf).right >= MinPieceLength && PieceSizes(d, kerf).back >= MinPieceLength
    ensures LabelsReadBack(DistanceLabels(d, kerf), PieceSizes(d, kerf))
  {
    var labels, sizes := DistanceLabels(d, kerf), PieceSizes(d, kerf);
    ArrowBefore(labels.left, "←", sizes.left);
    ArrowAfter(labels.right, "→", sizes.right);
    ArrowBefore(labels.front, "↑", sizes.front);
    ArrowAfter(labels.back, "↓", sizes.back);
  }

  /**
   * Each label, stripped of its arrow (first or last character) and its
   * inch mark, reads back within 1/32" of its piece size.
   */
  predicate LabelsReadBack(labels: CrosshairLabels, sizes: Distances)
  {
    && |labels.left| >= 2 && ReadsBackNear(labels.left[1..|labels.left| - 1], sizes.left)
    && |labels.right| >= 2 && ReadsBackNear(labels.right[..|labels.right| - 2], sizes.right)
    && |labels.front| >= 2 && ReadsBackNear(labels.front[1..|labels.front| - 1], sizes.front)
    && |labels.back| >= 2 && ReadsBackNear(labels.back[..|labels.back| - 2], sizes.back)
  }

  /** An arrow in front of a label leaves the number between the arrow and the inch mark. */
  lemma ArrowBefore(shown: string, arrow: string, x: real)
    requires x >= 0.0 && |arrow| == 1 && shown == arrow + InchesAsFraction(x)
    ensures |shown| >= 2 && ReadsBackNear(shown[1..|shown| - 1], x)
  {
    LabelReadsBack(x);
    DropArrowBefore(InchesAsFraction(x), arrow);
  }

  /** An arrow behind a label leaves the number before the inch mark and the arrow. */
  lemma ArrowAfter(shown: string, arrow: string, x: real)
    requires x >= 0.0 && |arrow| == 1 && shown == InchesAsFraction(x) + arrow
    ensures |shown| >= 2 && ReadsBackNear(shown[..|shown| - 2], x)
  {
    LabelReadsBack(x);
    DropArrowAfter(InchesAsFraction(x), arrow);
  }

  lemma DropArrowBefore(t: string, arrow: string)
    requires t != [] && |arrow| == 1
    ensures var s := arrow + t;
            s[1..|s| - 1] == t[..|t| - 1]
  {
  }

  lemma DropArrowAfter(t: string, arrow: string)
    requires t != [] && |arrow| == 1
    ensures var s := t + arrow;
            s[..|s| - 2] == t[..|t| - 1]
  {
  }

  // -------------------------------------------------- calculateCutDimensions

  /**
   * The distance, in inches, from the board's front end to the midpoint of
   * the cut line along the board's length (Z), the midpoint clamped to the
   * board.  `centerZ` is the board's position; lengths are in centimetres
   * in the scene.
   */
  function CutDistance(length: real, centerZ: real, startZ: real, endZ: real): (d: real)
    ensures 0.0 <= d
    ensures length >= 0.0 ==> d <= length
    ensures length <= 0.0 ==> d == 0.0
    ensures var front := centerZ - length * CmPerInch / 2.0;
            var mid := (startZ + endZ) / 2.0;
            front <= mid <= centerZ + length * CmPerInch / 2.0 ==> d * CmPerInch == mid - front
  {
    var lumberLength := length * CmPerInch;
    var lumberFront := centerZ - lumberLength / 2.0;
    var lumberBack := centerZ + lumberLength / 2.0;
    var cutPositionZ := Max(lumberFront, Min(lumberBack, (startZ + endZ) / 2.0));
    Max(0.0, (cutPositionZ - lumberFront) / CmPerInch)
  }

  /**
   * `calculateCutDimensions`: the piece on the "positive" side is as long
   * as the cut distance, the other loses the kerf as well; neither is
   * shorter than 0.1" and both keep the width and thickness.  `centerZ` is
   * the Z position of the board's mesh, `None` when it is not in the scene.
   */
  function CutDimensions(original: Dimensions, centerZ: Option<real>, startZ: real, endZ: real, side: string, kerf: real)
    : (r: Option<Dimensions>)
    ensures r.Some? <==> centerZ.Some?
    ensures r.Some? ==> r.value.width == original.width && r.value.thickness == original.thickness
    ensures r.Some? ==> r.value.length >= MinPieceLength
    ensures r.Some? ==>
              var d := CutDistance(original.length, centerZ.value, startZ, endZ);
              r.value.length == (if side == "positive" then Max(MinPieceLength, d)
                                 else Max(MinPieceLength, original.length - d - kerf))
  {
    if centerZ.None? then None
    else
      var cutDistance := CutDistance(original.length, centerZ.value, startZ, endZ);
      if side == "positive" then
        Some(Dimensions(Max(MinPieceLength, cutDistance), original.width, original.thickness))
      else
        var remainingLength := original.length - cutDistance;
        Some(Dimensions(Max(MinPieceLength, remainingLength - kerf), original.width, original.thickness))
  }

  /**
   * The two pieces and the kerf make up the board: unless a piece is so
   * short that the 0.1" floor applies, the lengths add up to the original.
   */
  lemma PiecesAndKerfMakeTheBoard(original: Dimensions, centerZ: real, startZ: real, endZ: real, kerf: real)
    requires var d := CutDistance(original.length, centerZ, startZ, endZ);
             d >= MinPieceLength && original.length - d - kerf >= MinPieceLength
    ensures var p := CutDimensions(original, Some(centerZ), startZ, endZ, "positive", kerf);
            var n := CutDimensions(original, Some(centerZ), startZ, endZ, "negative", kerf);
            p.Some? && n.Some? && p.value.length + kerf + n.value.length == original.length
  {
  }

  // ------------------------------------------------------ createNewPartData

  /** The fields of a workbench part record the saw copies and changes; `meshGeometry` is kept as serialised text. */
  datatype SawnPart = SawnPart(
    id: string, materialName: string, status: string, bench: string, dimensions: Dimensions,
    meshGeometry: Option<string>, processingHistory: Option<seq<HistoryEntry>>)

  /**
   * `createNewPartData`: a copy of the original with a fresh id, the suffix
   * in its name, status "cut", no stored geometry and one more history
   * entry.  `now` is `Date.now()`, `randomId` the nine random base-36
   * characters and `timestamp` the ISO time.
   */
  function NewPartData(original: SawnPart, suffix: string, now: nat, randomId: string, timestamp: string): (r: SawnPart)
    ensures r.id == "part_" + NatToString(now) + "_" + randomId
    ensures r.materialName == original.materialName + " (Cut " + suffix + ")"
    ensures r.status == "cut" && r.meshGeometry == None
    ensures r.bench == original.bench && r.dimensions == original.dimensions
    ensures r.processingHistory.Some?
    ensures |r.processingHistory.value| == |ProcessingHistory(original.processingHistory)| + 1
    ensures r.processingHistory.value[..|r.processingHistory.value| - 1] == ProcessingHistory(original.processingHistory)
    ensures r.processingHistory.value[|r.processingHistory.value| - 1]
            == HistoryEntry("saw_cut", timestamp, "Straight line cut - piece " + suffix)
  {
    var entry := HistoryEntry("saw_cut", timestamp, "Straight line cut - piece " + suffix);
    var history := ProcessingHistory(original.processingHistory) + [entry];
    assert history[..|history| - 1] == ProcessingHistory(original.processingHistory);
    original.(id := "part_" + NatToString(now) + "_" + randomId,
              materialName := original.materialName + " (Cut " + suffix + ")",
              status := "cut",
              meshGeometry := None,
              processingHistory := Some(history))
  }

  /**
   * The "Main" and "Cutoff" records of one cut share the board, its bench
   * and its earlier history, and differ in their names and last entries.
   */
  lemma MainAndCutoffShareTheBoard(original: SawnPart, now: nat, id1: string, id2: string, timestamp: string)
    ensures var main := NewPartData(original, "Main", now, id1, timestamp);
            var cutoff := NewPartData(original, "Cutoff", now, id2, timestamp);
            main.dimensions == cutoff.dimensions && main.bench == cutoff.bench
            && main.processingHistory.value[..|main.processingHistory.value| - 1]
               == cutoff.processingHistory.value[..|cutoff.processingHistory.value| - 1]
            && main.materialName != cutoff.materialName
  {
    var main := NewPartData(original, "Main", now, id1, timestamp);
    var cutoff := NewPartData(original, "Cutoff", now, id2, timestamp);
    var n := |original.materialName| + 6;
    assert main.materialName[n] == 'M';
    assert cutoff.materialName[n] == 'C';
  }

  // ------------------------------------------------------- the step machine

  /** The saw's steps: waiting for the first point, for the second, then the cut. */
  datatype Step = FirstPoint | SecondPoint | ReadyToCut

  /** A mesh of the scene: its identity, the id of the part it shows (if any), its bench and the workbench flag. */
  datatype SceneMesh = SceneMesh(handle: nat, partId: Option<string>, bench: string, isWorkBenchPart: bool)

  /** `scene.meshes.find(m => m.partData && m.partData.id === id)`: the first mesh showing the part. */
  function FindPartMesh(meshes: seq<SceneMesh>, id: string): (r: Option<SceneMesh>)
    ensures r.Some? ==> r.value in meshes && r.value.partId == Some(id)
    ensures r.None? ==> forall m :: m in meshes ==> m.partId != Some(id)
    ensures r.Some? ==> exists i :: 0 <= i < |meshes| && meshes[i] == r.value
                          && forall j :: 0 <= j < i ==> meshes[j].partId != Some(id)
  {
    if meshes == [] then None
    else if meshes[0].partId == Some(id) then Some(meshes[0])
    else
      var r := FindPartMesh(meshes[1..], id);
      if r.Some? then
        ghost var i :| 0 <= i < |meshes[1..]| && meshes[1..][i] == r.value
                       && forall j :: 0 <= j < i ==> meshes[1..][j].partId != Some(id);
        assert meshes[i + 1] == r.value;
        r
      else r
  }

  /** How many cut points each step has collected. */
  function PointsAt(step: Step): nat
  {
    match step
    case FirstPoint => 0
    case SecondPoint => 1
    case ReadyToCut => 2
  }

  /**
   * Where a click lands: on a board the picker hit, or off the boards on
   * the plane of the board already targeted (second point) or of the
   * selected workbench board (first point); `projected` is where the mouse
   * ray meets that plane, if it does.
   */
  function ClickLanding(hit: Option<(Vec3, SceneMesh)>, projected: Option<Vec3>, selectedLumber: Option<SceneMesh>,
                        step: Step, target: Option<SceneMesh>): (r: Option<(Vec3, SceneMesh)>)
    ensures hit.Some? ==> r == hit
    ensures r.Some? && hit.None? ==>
              Some(r.value.0) == projected
              && (if step == SecondPoint && target.Some? then Some(r.value.1) == target else Some(r.value.1) == selectedLumber)
    ensures r.Some? ==> step != ReadyToCut || hit.Some?
  {
    if hit.Some? then hit
    else if target.Some? && step == SecondPoint then
      if projected.Some? then Some((projected.value, target.value)) else None
    else if step == FirstPoint && selectedLumber.Some? then
      if projected.Some? then Some((projected.value, selectedLumber.value)) else None
    else None
  }

  /** The saw's state: whether it is active, the step, the points so far, the target board and the part to cut. */
  class SawToolState {
    var sawToolActive: bool
    var currentStep: Step
    var cutPoints: seq<Vec3>
    var targetMesh: Option<SceneMesh>
    var hoveredPart: Option<string>
    var selectedPartForCutting: Option<string>
    var kerfWidth: real

    /** Each step has collected its number of points, and past the first step there is a target board. */
    predicate Valid()
      reads this
    {
      |cutPoints| == PointsAt(currentStep) && (currentStep != FirstPoint ==> targetMesh.Some?)
    }

    constructor ()
      ensures Valid() && !sawToolActive && currentStep == FirstPoint && cutPoints == []
      ensures targetMesh == None && hoveredPart == None && kerfWidth == DefaultKerf
    {
      sawToolActive := false;
      currentStep := FirstPoint;
      cutPoints := [];
      targetMesh := None;
      hoveredPart := None;
      selectedPartForCutting := None;
      kerfWidth := DefaultKerf;
    }

    /**
     * `activate`: only with a selected part whose mesh is a workbench board;
     * then the saw starts over at the first point.  `selectedPartId` is the
     * drawing's selected part and `meshes` the scene's meshes in order.
     */
    method Activate(selectedPartId: Option<string>, meshes: seq<SceneMesh>) returns (activated: bool)
      modifies this
      ensures var mesh := if selectedPartId.Some? then FindPartMesh(meshes, selectedPartId.value) else None;
              activated <==> mesh.Some? && mesh.value.isWorkBenchPart
      ensures activated ==> sawToolActive && currentStep == FirstPoint && cutPoints == [] && Valid()
      ensures activated ==> selectedPartForCutting == selectedPartId
      ensures activated ==> targetMesh == old(targetMesh) && hoveredPart == old(hoveredPart) && kerfWidth == old(kerfWidth)
      ensures !activated ==> unchanged(this)
    {
      if selectedPartId.None? {
        return false;
      }
      var selectedMesh := FindPartMesh(meshes, selectedPartId.value);
      if selectedMesh.None? || !selectedMesh.value.isWorkBenchPart {
        return false;
      }
      selectedPartForCutting := selectedMesh.value.partId;
      sawToolActive := true;
      currentStep := FirstPoint;
      cutPoints := [];
      return true;
    }

    /** `onMouseMove`: hovering a board of the workbench makes it the target. */
    method OnMouseMove(hit: Option<(Vec3, SceneMesh)>)
      modifies this
      ensures sawToolActive && hit.Some? && hit.value.1.partId.Some? ==>
                targetMesh == Some(hit.value.1) && hoveredPart == hit.value.1.partId
      ensures !(sawToolActive && hit.Some? && hit.value.1.partId.Some?) ==>
                targetMesh == old(targetMesh) && hoveredPart == old(hoveredPart)
      ensures sawToolActive == old(sawToolActive) && currentStep == old(currentStep) && cutPoints == old(cutPoints)
      ensures selectedPartForCutting == old(selectedPartForCutting) && kerfWidth == old(kerfWidth)
    {
      if !sawToolActive {
        return;
      }
      if hit.Some? && hit.value.1.partId.Some? {
        hoveredPart := hit.value.1.partId;
        targetMesh := Some(hit.value.1);
      }
    }

    /**
     * `onMouseClick`: the first click that lands on (or is projected onto) a
     * board records the first point and targets that board; the second
     * records the second point only on the targeted board, and the cut is
     * then ready.  `hit` is the picker's result on workbench boards.
     */
    method OnMouseClick(hit: Option<(Vec3, SceneMesh)>, projected: Option<Vec3>, selectedLumber: Option<SceneMesh>)
      requires Valid()
      modifies this
      ensures Valid()
      ensures !old(sawToolActive) ==> unchanged(this)
      ensures sawToolActive == old(sawToolActive) && selectedPartForCutting == old(selectedPartForCutting)
      ensures kerfWidth == old(kerfWidth)
      ensures var landing := ClickLanding(hit, projected, selectedLumber, old(currentStep), old(targetMesh));
              old(sawToolActive) && old(currentStep) == FirstPoint && landing.Some? ==>
                currentStep == SecondPoint && cutPoints == [landing.value.0]
                && targetMesh == Some(landing.value.1) && hoveredPart == landing.value.1.partId
      ensures var landing := ClickLanding(hit, projected, selectedLumber, old(currentStep), old(targetMesh));
              old(sawToolActive) && old(currentStep) == FirstPoint && landing.None? ==>
                currentStep == FirstPoint && cutPoints == old(cutPoints) && hoveredPart == old(hoveredPart)
                && targetMesh == (if hit.None? && selectedLumber.Some? then selectedLumber else old(targetMesh))
      ensures var landing := ClickLanding(hit, projected, selectedLumber, old(currentStep), old(targetMesh));
              old(sawToolActive) && old(currentStep) == SecondPoint ==>
                if landing.Some? && Some(landing.value.1) == old(targetMesh) then
                  currentStep == ReadyToCut && cutPoints == old(cutPoints) + [landing.value.0]
                else
                  currentStep == SecondPoint && cutPoints == old(cutPoints)
      ensures currentStep == ReadyToCut && old(currentStep) != ReadyToCut ==> targetMesh == old(targetMesh)
      ensures old(currentStep) == ReadyToCut ==> currentStep == ReadyToCut && cutPoints == old(cutPoints)
    {
      if !sawToolActive {
        return;
      }
      var landing := ClickLanding(hit, projected, selectedLumber, currentStep, targetMesh);
      if hit.None? && currentStep == FirstPoint && selectedLumber.Some? {
        targetMesh := selectedLumber;
      }
      if currentStep == FirstPoint {
        if landing.Some? {
          cutPoints := cutPoints + [landing.value.0];
          targetMesh := Some(landing.value.1);
          hoveredPart := landing.value.1.partId;
          currentStep := SecondPoint;
        }
      } else if currentStep == SecondPoint {
        if landing.Some? && Some(landing.value.1) == targetMesh {
          cutPoints := cutPoints + [landing.value.0];
          currentStep := ReadyToCut;
        }
      }
    }
  }
}
