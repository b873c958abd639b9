/**
 * The bookkeeping of the table-saw cut tool
 * (modules/CutToolSystem_backup_20250726_162737.js): which routed edges
 * each of the two pieces keeps, the part records of the pieces, where the
 * pieces sit after the kerf is removed, and the checks of the precise-cut
 * dialog.  The CSG cut itself and the scene updates are not modelled.
 */
module CutTool {
  import opened Wrappers
  import opened Text
  import opened JsNum
  import opened Geometry
  import opened Measurement
  import opened Lumber

  // ------------------------------------------------------- inherited edges

  /** Whether a routed edge (an edge-type name such as "left_edge_roundover") stays on the given piece. */
  predicate ShouldInherit(edgeType: string, pieceType: string, cutDirection: string)
  {
    if cutDirection == "cross" then
      Includes(edgeType, "left_edge") || Includes(edgeType, "right_edge")
      || (Includes(edgeType, "front_edge") && pieceType == "piece1")
      || (Includes(edgeType, "back_edge") && pieceType == "piece2")
    else if cutDirection == "rip" then
      Includes(edgeType, "front_edge") || Includes(edgeType, "back_edge")
      || (Includes(edgeType, "left_edge") && pieceType == "piece1")
      || (Includes(edgeType, "right_edge") && pieceType == "piece2")
    else false
  }

  /** The routed edges a piece keeps, in their original order. */
  function InheritedEdges(routedEdges: seq<string>, pieceType: string, cutDirection: string): seq<string>
  {
    if routedEdges == [] then []
    else
      var last := routedEdges[|routedEdges| - 1];
      InheritedEdges(routedEdges[..|routedEdges| - 1], pieceType, cutDirection)
      + (if ShouldInherit(last, pieceType, cutDirection) then [last] else [])
  }

  /** `determineInheritedEdges`: one pass over the routed edges, keeping those the piece inherits. */
  method DetermineInheritedEdges(routedEdges: seq<string>, pieceType: string, cutDirection: string)
    returns (inherited: seq<string>)
    ensures inherited == InheritedEdges(routedEdges, pieceType, cutDirection)
  {
    inherited := [];
    var i := 0;
    while i < |routedEdges|
      invariant 0 <= i <= |routedEdges|
      invariant inherited == InheritedEdges(routedEdges[..i], pieceType, cutDirection)
    {
      var edgeType := routedEdges[i];
      var shouldInherit := false;
      if cutDirection == "cross" {
        if Includes(edgeType, "left_edge") || Includes(edgeType, "right_edge") {
          shouldInherit := true;
        } else if Includes(edgeType, "front_edge") && pieceType == "piece1" {
          shouldInherit := true;
        } else if Includes(edgeType, "back_edge") && pieceType == "piece2" {
          shouldInherit := true;
        }
      } else if cutDirection == "rip" {
        if Includes(edgeType, "front_edge") || Includes(edgeType, "back_edge") {
          shouldInherit := true;
        } else if Includes(edgeType, "left_edge") && pieceType == "piece1" {
          shouldInherit := true;
        } else if Includes(edgeType, "right_edge") && pieceType == "piece2" {
          shouldInherit := true;
        }
      }
      if shouldInherit {
        inherited := inherited + [edgeType];
      }
      assert routedEdges[..i + 1][..i] == routedEdges[..i];
      i := i + 1;
    }
    assert routedEdges[..i] == routedEdges;
  }

  /** `a` is `b` with some elements left out, the rest in order. */
  predicate IsSubsequence<T(==)>(a: seq<T>, b: seq<T>)
    decreases |b|
  {
    if a == [] then true
    else if b == [] then false
    else if a[|a| - 1] == b[|b| - 1] then IsSubsequence(a[..|a| - 1], b[..|b| - 1])
    else IsSubsequence(a, b[..|b| - 1])
  }

  lemma {:induction false} SubsequenceOfEmpty<T>(b: seq<T>)
    ensures IsSubsequence([], b)
  {
  }

  /** A subsequence of a prefix is a subsequence of the whole. */
  lemma {:induction false} SubsequenceExtend<T>(a: seq<T>, b: seq<T>, x: T)
    requires IsSubsequence(a, b)
    ensures IsSubsequence(a, b + [x])
    decreases |b|, 1
  {
    if a != [] {
      var bx := b + [x];
      assert bx[..|bx| - 1] == b;
      if a[|a| - 1] == x {
        SubsequenceDrop(a, b);
      }
    }
  }

  /** Dropping the last element keeps a subsequence a subsequence. */
  lemma {:induction false} SubsequenceDrop<T>(a: seq<T>, b: seq<T>)
    requires a != [] && IsSubsequence(a, b)
    ensures IsSubsequence(a[..|a| - 1], b)
    decreases |b|, 0
  {
    var a' := a[..|a| - 1];
    var b' := b[..|b| - 1];
    assert b' + [b[|b| - 1]] == b;
    if a[|a| - 1] == b[|b| - 1] {
      SubsequenceExtend(a', b', b[|b| - 1]);
    } else {
      SubsequenceDrop(a, b');
      SubsequenceExtend(a', b', b[|b| - 1]);
    }
  }

  /** The edges a piece keeps are a subsequence of the routed edges. */
  lemma {:induction false} InheritedIsSubsequence(routedEdges: seq<string>, pieceType: string, cutDirection: string)
    ensures IsSubsequence(InheritedEdges(routedEdges, pieceType, cutDirection), routedEdges)
    decreases |routedEdges|
  {
    if routedEdges != [] {
      var init := routedEdges[..|routedEdges| - 1];
      var last := routedEdges[|routedEdges| - 1];
      var kept := InheritedEdges(init, pieceType, cutDirection);
      InheritedIsSubsequence(init, pieceType, cutDirection);
      assert init + [last] == routedEdges;
      if ShouldInherit(last, pieceType, cutDirection) {
        assert (kept + [last])[..|kept|] == kept;
      } else {
        assert kept + [] == kept;
        SubsequenceExtend(kept, init, last);
      }
    }
  }

  /** An edge is kept exactly when it was routed and the piece inherits it. */
  lemma {:induction false} InheritedMembership(routedEdges: seq<string>, pieceType: string, cutDirection: string, e: string)
    ensures e in InheritedEdges(routedEdges, pieceType, cutDirection)
            <==> e in routedEdges && ShouldInherit(e, pieceType, cutDirection)
    decreases |routedEdges|
  {
    if routedEdges != [] {
      var init := routedEdges[..|routedEdges| - 1];
      InheritedMembership(init, pieceType, cutDirection, e);
      assert routedEdges == init + [routedEdges[|routedEdges| - 1]];
    }
  }

  /**
   * A cross cut shortens the board: a routed left or right edge stays on
   * both pieces, a front edge only on piece 1 and a back edge only on
   * piece 2 (for an edge naming only one side).
   */
  lemma CrossCutInheritance(routedEdges: seq<string>, e: string)
    requires e in routedEdges
    ensures Includes(e, "left_edge") || Includes(e, "right_edge") ==>
              e in InheritedEdges(routedEdges, "piece1", "cross") && e in InheritedEdges(routedEdges, "piece2", "cross")
    ensures Includes(e, "front_edge") && !Includes(e, "left_edge") && !Includes(e, "right_edge") && !Includes(e, "back_edge") ==>
              e in InheritedEdges(routedEdges, "piece1", "cross") && e !in InheritedEdges(routedEdges, "piece2", "cross")
    ensures Includes(e, "back_edge") && !Includes(e, "left_edge") && !Includes(e, "right_edge") && !Includes(e, "front_edge") ==>
              e !in InheritedEdges(routedEdges, "piece1", "cross") && e in InheritedEdges(routedEdges, "piece2", "cross")
  {
    InheritedMembership(routedEdges, "piece1", "cross", e);
    InheritedMembership(routedEdges, "piece2", "cross", e);
  }

  /**
   * A rip cut narrows the board: a routed front or back edge stays on both
   * pieces, a left edge only on piece 1 and a right edge only on piece 2.
   */
  lemma RipCutInheritance(routedEdges: seq<string>, e: string)
    requires e in routedEdges
    ensures Includes(e, "front_edge") || Includes(e, "back_edge") ==>
              e in InheritedEdges(routedEdges, "piece1", "rip") && e in InheritedEdges(routedEdges, "piece2", "rip")
    ensures Includes(e, "left_edge") && !Includes(e, "front_edge") && !Includes(e, "back_edge") && !Includes(e, "right_edge") ==>
              e in InheritedEdges(routedEdges, "piece1", "rip") && e !in InheritedEdges(routedEdges, "piece2", "rip")
    ensures Includes(e, "right_edge") && !Includes(e, "front_edge") && !Includes(e, "back_edge") && !Includes(e, "left_edge") ==>
              e !in InheritedEdges(routedEdges, "piece1", "rip") && e in InheritedEdges(routedEdges, "piece2", "rip")
  {
    InheritedMembership(routedEdges, "piece1", "rip", e);
    InheritedMembership(routedEdges, "piece2", "rip", e);
  }

  /** Any other cut direction keeps no routed edge. */
  lemma UnknownDirectionKeepsNothing(routedEdges: seq<string>, pieceType: string, cutDirection: string)
    requires cutDirection != "cross" && cutDirection != "rip"
    ensures InheritedEdges(routedEdges, pieceType, cutDirection) == []
  {
    if InheritedEdges(routedEdges, pieceType, cutDirection) != [] {
      var e := InheritedEdges(routedEdges, pieceType, cutDirection)[0];
      InheritedMembership(routedEdges, pieceType, cutDirection, e);
    }
  }

  // ------------------------------------------------------------ part record

  /** One entry of a part's cut history. */
  datatype CutRecord = CutRecord(kind: string, timestamp: nat, fromParent: string)

  /** The fields of a workbench part record that the cut tool reads and writes. */
  datatype PartRecord = PartRecord(
    id: string, materialId: string, materialName: string, dimensions: Dimensions,
    grade: string, status: string, parentId: Option<string>, cutHistory: Option<seq<CutRecord>>)

  /** `partData.cutHistory || []`. */
  function HistoryOf(p: PartRecord): seq<CutRecord>
  {
    if p.cutHistory.Some? then p.cutHistory.value else []
  }

  /**
   * `createCutPieceData`: the record of one piece.  `timestamp` is the
   * `Date.now()` of the cut and `cutDirection` the tool's active direction.
   */
  function CutPieceData(original: PartRecord, pieceSize: real, suffix: string, timestamp: nat, cutDirection: string): (r: PartRecord)
    ensures r.dimensions.thickness == original.dimensions.thickness
    ensures r.dimensions.length == if cutDirection == "cross" then pieceSize else original.dimensions.length
    ensures r.dimensions.width == if cutDirection == "rip" then pieceSize else original.dimensions.width
    ensures r.materialId == original.materialId && r.grade == original.grade
    ensures r.parentId == Some(original.id) && r.status == "Cut from parent"
    ensures r.cutHistory.Some? && |r.cutHistory.value| == |HistoryOf(original)| + 1
    ensures r.cutHistory.value[..|HistoryOf(original)|] == HistoryOf(original)
    ensures r.cutHistory.value[|HistoryOf(original)|] == CutRecord(cutDirection, timestamp, original.id)
  {
    var d := original.dimensions;
    var history := HistoryOf(original) + [CutRecord(cutDirection, timestamp, original.id)];
    PartRecord(
      "workpart_" + NatToString(timestamp) + "_" + suffix,
      original.materialId,
      original.materialName + " (" + suffix + ")",
      Dimensions(if cutDirection == "cross" then pieceSize else d.length,
                 if cutDirection == "rip" then pieceSize else d.width,
                 d.thickness),
      original.grade,
      "Cut from parent",
      Some(original.id),
      Some(history))
  }

  /**
   * The two pieces of one cut differ from each other only in their id, name
   * and the size along the cut; each history grows by the same entry.
   */
  lemma PiecesAgreeOffTheCut(original: PartRecord, size1: real, size2: real, timestamp: nat, cutDirection: string)
    requires cutDirection == "cross" || cutDirection == "rip"
    ensures var p1 := CutPieceData(original, size1, "piece1", timestamp, cutDirection);
            var p2 := CutPieceData(original, size2, "piece2", timestamp, cutDirection);
            p1.cutHistory == p2.cutHistory && p1.parentId == p2.parentId
            && (cutDirection == "cross" ==> p1.dimensions.width == p2.dimensions.width)
            && (cutDirection == "rip" ==> p1.dimensions.length == p2.dimensions.length)
            && p1.dimensions.thickness == p2.dimensions.thickness
  {
  }

  // ---------------------------------------------------------- cut positions

  datatype BoxSize = BoxSize(width: real, height: real, depth: real)

  /** The result of `calculateCutPositions`: both piece centres, the kerf's centre and its box. */
  datatype CutInfo = CutInfo(position1: Vec3, position2: Vec3, kerfPosition: Vec3, kerfDimensions: BoxSize)

  /**
   * `calculateCutPositions`: the board's outer faces stay where they are;
   * piece 1 ends half a kerf before the cut point and piece 2 starts half a
   * kerf after it.
   */
  function CutPositions(originalPosition: Vec3, meshSize: Vec3, cutPointPos: real, kerfWidth: real, cutAxis: Axis): (info: CutInfo)
    ensures var lo := Comp(originalPosition, cutAxis) - Comp(meshSize, cutAxis) / 2.0;
            var hi := Comp(originalPosition, cutAxis) + Comp(meshSize, cutAxis) / 2.0;
            var size1 := 2.0 * (Comp(info.position1, cutAxis) - lo);
            var size2 := 2.0 * (hi - Comp(info.position2, cutAxis));
            lo + size1 == cutPointPos - kerfWidth / 2.0
            && hi - size2 == cutPointPos + kerfWidth / 2.0
            && size1 + size2 == Comp(meshSize, cutAxis) - kerfWidth
    ensures forall a :: a != cutAxis ==>
              Comp(info.position1, a) == Comp(originalPosition, a) && Comp(info.position2, a) == Comp(originalPosition, a)
              && Comp(info.kerfPosition, a) == Comp(originalPosition, a)
    ensures Comp(info.kerfPosition, cutAxis) == cutPointPos
  {
    var halfKerf := kerfWidth / 2.0;
    var lo := Comp(originalPosition, cutAxis) - Comp(meshSize, cutAxis) / 2.0;
    var hi := Comp(originalPosition, cutAxis) + Comp(meshSize, cutAxis) / 2.0;
    var piece1Size := (cutPointPos - halfKerf) - lo;
    var piece2Size := hi - (cutPointPos + halfKerf);
    CutInfo(
      WithComp(originalPosition, cutAxis, lo + piece1Size / 2.0),
      WithComp(originalPosition, cutAxis, hi - piece2Size / 2.0),
      WithComp(originalPosition, cutAxis, cutPointPos),
      match cutAxis
      case X => BoxSize(kerfWidth, meshSize.y, meshSize.z)
      case Y => BoxSize(meshSize.x, kerfWidth, meshSize.z)
      case Z => BoxSize(meshSize.x, meshSize.y, kerfWidth))
  }

  /** The kerf box is the board's box with the cut axis narrowed to the kerf. */
  lemma KerfBox(originalPosition: Vec3, meshSize: Vec3, cutPointPos: real, kerfWidth: real, cutAxis: Axis)
    ensures var k := CutPositions(originalPosition, meshSize, cutPointPos, kerfWidth, cutAxis).kerfDimensions;
            Comp(Vec3(k.width, k.height, k.depth), cutAxis) == kerfWidth
            && forall a :: a != cutAxis ==> Comp(Vec3(k.width, k.height, k.depth), a) == Comp(meshSize, a)
  {
  }

  // -------------------------------------------------------- precise cut

  /**
   * The checks of `applyPreciseCut` as written, given the size of piece 1
   * as `parseMeasurement` read it and the cut line's dimension: the new cut
   * position as a fraction of that dimension, or `None` when the dialog
   * returns without cutting.  JavaScript's `<=` is false for NaN, so a NaN
   * size passes both checks.
   */
  function PreciseCutPositionAsWritten(piece1Size: Option<Num>, cutDimension: Option<real>): (r: Option<Num>)
    ensures r.Some? && r.value.Fin? ==>
              cutDimension.Some? && 0.0 < r.value.v < 1.0 && piece1Size == Some(Fin(r.value.v * cutDimension.value))
  {
    match piece1Size
    case None => None
    case Some(NegInf) => None
    case Some(PosInf) => None // piece 2 would be -Infinity
    case Some(NaN) => if cutDimension.None? then None else Some(NaN)
    case Some(Fin(size)) =>
      if size <= 0.0 || cutDimension.None? then None
      else
        var piece2Size := cutDimension.value - size;
        if piece2Size <= 0.0 then None
        else
          var p := size / cutDimension.value;
          QuotientTimes(size, cutDimension.value, p);
          Some(Fin(p))
  }

  lemma QuotientTimes(a: real, c: real, p: real)
    requires 0.0 < a < c && p == a / c
    ensures 0.0 < p < 1.0 && p * c == a
  {
    assert p * c == a;
    assert (1.0 - p) * c == c - a;
    PositiveFactor(1.0 - p, c);
  }

  lemma PositiveFactor(y: real, c: real)
    requires c > 0.0 && y * c > 0.0
    ensures y > 0.0
  {
    assert y == (y * c) / c;
  }

  /** A size the dialog reads as NaN, such as "0/0", gets through the checks as written and becomes the cut position. */
  lemma PreciseCutAcceptsNaN(ns: string, ds: string, cutDimension: real)
    requires ns != [] && AllDigits(ns) && DigitsValue(ns) == 0
    requires ds != [] && AllDigits(ds) && DigitsValue(ds) == 0
    ensures PreciseCutPositionAsWritten(ParseMeasurement(ns + "/" + ds), Some(cutDimension)) == Some(NaN)
  {
    ZeroOverZeroIsNaN(ns, ds);
  }

  /**
   * The precise cut with the evidently intended check that the size is a
   * number: a position strictly inside the board, at the typed size of
   * piece 1, exactly when that size lies strictly between 0 and the cut
   * dimension.
   */
  function PreciseCutPosition(piece1Size: Option<Num>, cutDimension: Option<real>): (r: Option<real>)
    ensures r.Some? <==> cutDimension.Some? && piece1Size.Some? && piece1Size.value.Fin?
                         && 0.0 < piece1Size.value.v < cutDimension.value
    ensures r.Some? ==> 0.0 < r.value < 1.0 && r.value * cutDimension.value == piece1Size.value.v
  {
    var p := PreciseCutPositionAsWritten(piece1Size, cutDimension);
    if p.Some? && p.value.Fin? then Some(p.value.v) else None
  }
}
