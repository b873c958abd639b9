/**
 * The part registry (modules_backup_current_20250818_193204/PartManager.js):
 * a `Map` from part id to part record, kept in insertion order, with
 * creation, lookup by type, timestamped update, removal, and cutting one
 * board into two pieces separated by the saw kerf.
 *
 * Part records (modules/Part.js) are values here; the registry holds them
 * by id, so a change to a part is a change to the registry's map entry.
 */
module PartRegistry {
  import opened Wrappers
  import opened Geometry
  import opened Lumber

  /** The material a part is made of, as its record stores it. */
  datatype Material = Material(id: Option<string>, name: Option<string>)

  /** One entry of a board's `cutHistory`. */
  datatype CutEvent = CutEvent(timestamp: nat, cutType: string, cutPosition: real, resultingParts: seq<string>)

  /**
   * A part record. `grain`, `grade` and `cutHistory` exist only on boards;
   * `None` is the property a non-board part does not have.
   */
  datatype Part = Part(
    id: string,
    partType: string,
    dimensions: Dimensions,
    position: Vec3,
    rotation: Vec3,
    material: Material,
    parentId: Option<string>,
    childIds: seq<string>,
    created: nat,
    modified: nat,
    grain: Option<string>,
    grade: Option<string>,
    cutHistory: Option<seq<CutEvent>>)

  /** What a caller hands to `new Part(...)`; absent properties are `None`. */
  datatype PartData = PartData(
    id: Option<string>,
    partType: Option<string>,
    dimensions: Dimensions,
    position: Option<Vec3>,
    rotation: Option<Vec3>,
    material: Material,
    parentId: Option<string>,
    grain: Option<string>,
    grade: Option<string>,
    childIds: Option<seq<string>>,
    created: Option<nat>,
    modified: Option<nat>,
    cutHistory: Option<seq<CutEvent>>)

  /** JavaScript's `s || fallback` on an optional string: absent and "" both fall back. */
  function OrElse(s: Option<string>, fallback: string): (r: string)
    ensures s.Some? && s.value != "" ==> r == s.value
    ensures (s.None? || s.value == "") ==> r == fallback
  {
    if s.Some? && s.value != "" then s.value else fallback
  }

  /** JavaScript's `n || fallback` on an optional timestamp: absent and 0 both fall back. */
  function TimeOrElse(n: Option<nat>, fallback: nat): (r: nat)
    ensures n.Some? && n.value != 0 ==> r == n.value
    ensures (n.None? || n.value == 0) ==> r == fallback
  {
    if n.Some? && n.value != 0 then n.value else fallback
  }

  const Origin := Vec3(0.0, 0.0, 0.0)

  /**
   * The part constructor: a missing id takes the generated one, a missing
   * type is a board, a missing position or rotation is the origin, and the
   * board-only properties default to vertical grain, select grade and an
   * empty cut history. Missing children are none, and a missing (or zero)
   * timestamp is `now`.
   */
  function NewPart(data: PartData, generatedId: string, now: nat): (p: Part)
    ensures p.id == OrElse(data.id, generatedId)
    ensures p.partType != ""
    ensures p.dimensions == data.dimensions && p.material == data.material
    ensures p.parentId == (if OrElse(data.parentId, "") == "" then None else data.parentId)
    ensures p.childIds == (if data.childIds.Some? then data.childIds.value else [])
    ensures p.created == TimeOrElse(data.created, now) && p.modified == TimeOrElse(data.modified, now)
    ensures p.cutHistory.Some? <==> p.partType == "board"
    ensures p.cutHistory.Some? ==> p.grain.Some? && p.grade.Some?
    ensures p.cutHistory.Some? ==> p.cutHistory.value == (if data.cutHistory.Some? then data.cutHistory.value else [])
  {
    var partType := OrElse(data.partType, "board");
    var isBoard := partType == "board";
    Part(
      OrElse(data.id, generatedId),
      partType,
      data.dimensions,
      if data.position.Some? then data.position.value else Origin,
      if data.rotation.Some? then data.rotation.value else Origin,
      data.material,
      if OrElse(data.parentId, "") == "" then None else data.parentId,
      if data.childIds.Some? then data.childIds.value else [],
      TimeOrElse(data.created, now),
      TimeOrElse(data.modified, now),
      if isBoard then Some(OrElse(data.grain, "vertical")) else None,
      if isBoard then Some(OrElse(data.grade, "select")) else None,
      if isBoard then Some(if data.cutHistory.Some? then data.cutHistory.value else []) else None)
  }

  // ---------------------------------------------------------------------
  // Insertion-ordered views of the map
  // ---------------------------------------------------------------------

  /** `ids` with every occurrence of `id` dropped (the order a `Map` keeps after `delete`). */
  function Without(ids: seq<string>, id: string): (r: seq<string>)
    ensures forall x :: x in r <==> x in ids && x != id
    ensures id !in ids ==> r == ids
    ensures |r| <= |ids|
  {
    if ids == [] then []
    else if ids[0] == id then Without(ids[1..], id)
    else [ids[0]] + Without(ids[1..], id)
  }

  predicate NoDuplicates(ids: seq<string>)
  {
    forall i, j :: 0 <= i < j < |ids| ==> ids[i] != ids[j]
  }

  lemma {:induction false} WithoutKeepsNoDuplicates(ids: seq<string>, id: string)
    requires NoDuplicates(ids)
    ensures NoDuplicates(Without(ids, id))
  {
    if ids != [] {
      WithoutKeepsNoDuplicates(ids[1..], id);
      assert NoDuplicates(ids[1..]) by {
        forall i, j | 0 <= i < j < |ids[1..]| ensures ids[1..][i] != ids[1..][j] {
          assert ids[1..][i] == ids[i + 1] && ids[1..][j] == ids[j + 1];
        }
      }
      if ids[0] != id {
        var rest := Without(ids[1..], id);
        assert ids[0] !in ids[1..];
        assert ids[0] !in rest;
        var r := [ids[0]] + rest;
        forall i, j | 0 <= i < j < |r| ensures r[i] != r[j] {
          if i == 0 {
            assert r[j] == rest[j - 1];
          } else {
            assert r[i] == rest[i - 1] && r[j] == rest[j - 1];
          }
        }
      }
    }
  }

  /** The records of `ids`, in that order (`Array.from(parts.values())`). */
  function PartsInOrder(ids: seq<string>, parts: map<string, Part>): (r: seq<Part>)
    requires forall id :: id in ids ==> id in parts
    ensures |r| == |ids|
    ensures forall i :: 0 <= i < |ids| ==> r[i] == parts[ids[i]]
  {
    if ids == [] then [] else [parts[ids[0]]] + PartsInOrder(ids[1..], parts)
  }

  /** The parts of `ps` whose type is `t`, in their order (`filter(part => part.type === type)`). */
  function OfType(ps: seq<Part>, t: string): (r: seq<Part>)
    ensures |r| <= |ps|
  {
    if ps == [] then []
    else if ps[0].partType == t then [ps[0]] + OfType(ps[1..], t)
    else OfType(ps[1..], t)
  }

  /** The filter keeps exactly the parts of type `t`. */
  lemma {:induction false} OfTypeMembers(ps: seq<Part>, t: string)
    ensures forall p :: p in OfType(ps, t) <==> p in ps && p.partType == t
  {
    if ps != [] {
      OfTypeMembers(ps[1..], t);
      assert ps == [ps[0]] + ps[1..];
    }
  }

  // ---------------------------------------------------------------------
  // Cut geometry
  // ---------------------------------------------------------------------

  /** What `cutPart` is asked to do: a cut type, the cut's fraction of the cut dimension and the kerf. */
  datatype CutData = CutData(cutType: string, position: real, kerfWidth: Option<real>)

  const DefaultKerf: real := 0.125

  /** `kerfWidth || 0.125`: an absent or zero kerf is an eighth of an inch. */
  function Kerf(k: Option<real>): (r: real)
    ensures r != 0.0
    ensures k.Some? && k.value != 0.0 ==> r == k.value
    ensures (k.None? || k.value == 0.0) ==> r == DefaultKerf
  {
    if k.Some? && k.value != 0.0 then k.value else DefaultKerf
  }

  datatype CutPieces = CutPieces(dimensions1: Dimensions, dimensions2: Dimensions, position1: Vec3, position2: Vec3)

  predicate IsCross(cut: CutData) { cut.cutType == "cross" }

  /**
   * `calculateCutPieces`: a cross cut divides the width at `position × width`
   * and places the pieces along x; any other cut type is a rip, dividing the
   * length and placing the pieces along z. Each piece loses half a kerf.
   */
  function CalculateCutPieces(dims: Dimensions, pos: Vec3, cut: CutData): (r: CutPieces)
    ensures IsCross(cut) ==>
      && r.dimensions1.width + r.dimensions2.width == dims.width - Kerf(cut.kerfWidth)
      && r.dimensions1.width == cut.position * dims.width - Kerf(cut.kerfWidth) / 2.0
      && r.dimensions1.length == dims.length && r.dimensions2.length == dims.length
      && r.dimensions1.thickness == dims.thickness && r.dimensions2.thickness == dims.thickness
      && r.position1.y == pos.y && r.position1.z == pos.z
      && r.position2.y == pos.y && r.position2.z == pos.z
    ensures !IsCross(cut) ==>
      && r.dimensions1.length + r.dimensions2.length == dims.length - Kerf(cut.kerfWidth)
      && r.dimensions1.length == cut.position * dims.length - Kerf(cut.kerfWidth) / 2.0
      && r.dimensions1.width == dims.width && r.dimensions2.width == dims.width
      && r.dimensions1.thickness == dims.thickness && r.dimensions2.thickness == dims.thickness
      && r.position1.x == pos.x && r.position1.y == pos.y
      && r.position2.x == pos.x && r.position2.y == pos.y
  {
    var kerf := Kerf(cut.kerfWidth);
    var kerfOffset := kerf * CmPerInch / 2.0;
    if IsCross(cut) then
      var at := cut.position * dims.width;
      var d1 := Dimensions(dims.length, at - kerf / 2.0, dims.thickness);
      var d2 := Dimensions(dims.length, dims.width - at - kerf / 2.0, dims.thickness);
      CutPieces(d1, d2,
        Vec3(pos.x - kerfOffset + d1.width * CmPerInch / 2.0 - dims.width * CmPerInch / 2.0, pos.y, pos.z),
        Vec3(pos.x + kerfOffset - d2.width * CmPerInch / 2.0 + dims.width * CmPerInch / 2.0, pos.y, pos.z))
    else
      var at := cut.position * dims.length;
      var d1 := Dimensions(at - kerf / 2.0, dims.width, dims.thickness);
      var d2 := Dimensions(dims.length - at - kerf / 2.0, dims.width, dims.thickness);
      CutPieces(d1, d2,
        Vec3(pos.x, pos.y, pos.z - kerfOffset + d1.length * CmPerInch / 2.0 - dims.length * CmPerInch / 2.0),
        Vec3(pos.x, pos.y, pos.z + kerfOffset - d2.length * CmPerInch / 2.0 + dims.length * CmPerInch / 2.0))
  }

  /**
   * Where the pieces land, in centimetres along the cut axis: the first
   * piece's outer face sits half a kerf beyond the board's, the second's
   * likewise on the other side, and the gap between the pieces is twice
   * the kerf.
   */
  lemma CutPiecesPlacement(dims: Dimensions, pos: Vec3, cut: CutData)
    ensures var r := CalculateCutPieces(dims, pos, cut);
            var kerf := Kerf(cut.kerfWidth);
            var a := if IsCross(cut) then X else Z;
            var size := if IsCross(cut) then dims.width else dims.length;
            var s1 := if IsCross(cut) then r.dimensions1.width else r.dimensions1.length;
            var s2 := if IsCross(cut) then r.dimensions2.width else r.dimensions2.length;
            && Comp(r.position1, a) - s1 * CmPerInch / 2.0 == Comp(pos, a) - size * CmPerInch / 2.0 - kerf * CmPerInch / 2.0
            && Comp(r.position2, a) + s2 * CmPerInch / 2.0 == Comp(pos, a) + size * CmPerInch / 2.0 + kerf * CmPerInch / 2.0
            && (Comp(r.position2, a) - s2 * CmPerInch / 2.0) - (Comp(r.position1, a) + s1 * CmPerInch / 2.0) == 2.0 * kerf * CmPerInch
  {
  }

  /** What `cutPart` returns: `null` for an unknown id, the two pieces, or the `TypeError` a part without a cut history throws. */
  datatype CutOutcome = NotFound | Pieces(piece1: Part, piece2: Part) | NoCutHistory

  /** The data each piece of a cut is created from: the original's type, rotation, material, grain and grade, its id as parent. */
  function PieceData(original: Part, d: Dimensions, p: Vec3): (data: PartData)
    ensures data.parentId == Some(original.id) && data.partType == Some(original.partType)
    ensures data.dimensions == d && data.position == Some(p)
    ensures data.childIds == None && data.created == None && data.cutHistory == None
  {
    PartData(None, Some(original.partType), d, Some(p), Some(original.rotation), original.material,
             Some(original.id), original.grain, original.grade, None, None, None, None)
  }

  /**
   * The two pieces `cutPart` creates: they carry the generated ids, the
   * original's type and its id as parent, and between them they are the
   * board less one kerf along the cut dimension.
   */
  function CutPieceParts(original: Part, cut: CutData, id1: string, id2: string, now: nat): (r: (Part, Part))
    ensures r.0.id == id1 && r.1.id == id2
    ensures original.id != "" ==> r.0.parentId == Some(original.id) && r.1.parentId == Some(original.id)
    ensures original.partType != "" ==> r.0.partType == original.partType && r.1.partType == original.partType
    ensures r.0.childIds == [] && r.1.childIds == []
    ensures IsCross(cut) ==>
      && r.0.dimensions.width + r.1.dimensions.width == original.dimensions.width - Kerf(cut.kerfWidth)
      && r.0.dimensions.length == original.dimensions.length == r.1.dimensions.length
    ensures !IsCross(cut) ==>
      && r.0.dimensions.length + r.1.dimensions.length == original.dimensions.length - Kerf(cut.kerfWidth)
      && r.0.dimensions.width == original.dimensions.width == r.1.dimensions.width
    ensures r.0.dimensions.thickness == original.dimensions.thickness == r.1.dimensions.thickness
  {
    var pieces := CalculateCutPieces(original.dimensions, original.position, cut);
    (NewPart(PieceData(original, pieces.dimensions1, pieces.position1), id1, now),
     NewPart(PieceData(original, pieces.dimensions2, pieces.position2), id2, now))
  }

  // ---------------------------------------------------------------------
  // The registry
  // ---------------------------------------------------------------------

  class PartManager {
    /** The `Map` from id to part. */
    var parts: map<string, Part>
    /** The `Map`'s insertion order of its keys. */
    var order: seq<string>

    ghost predicate Valid()
      reads this
    {
      && NoDuplicates(order)
      && (forall id :: id in order <==> id in parts)
      && (forall id :: id in parts ==> parts[id].id == id)
    }

    constructor()
      ensures Valid() && parts == map[] && order == []
    {
      parts := map[];
      order := [];
    }

    /** `parts.set(part.id, part)`: a new key goes last, an existing key keeps its place. */
    method Set(part: Part)
      requires Valid()
      modifies this
      ensures Valid()
      ensures parts == old(parts)[part.id := part]
      ensures order == if part.id in old(parts) then old(order) else old(order) + [part.id]
    {
      if part.id !in parts {
        forall i, j | 0 <= i < j < |order + [part.id]| ensures (order + [part.id])[i] != (order + [part.id])[j] {
          if j == |order| {
            assert order[i] in order;
          }
        }
        order := order + [part.id];
      }
      parts := parts[part.id := part];
    }

    /** `createPart`: builds the record and stores it under its id, adding exactly that id. */
    method CreatePart(data: PartData, generatedId: string, now: nat) returns (part: Part)
      requires Valid()
      modifies this
      ensures Valid()
      ensures part == NewPart(data, generatedId, now)
      ensures parts == old(parts)[part.id := part]
      ensures parts.Keys == old(parts).Keys + {part.id}
      ensures order == if part.id in old(parts) then old(order) else old(order) + [part.id]
    {
      part := NewPart(data, generatedId, now);
      Set(part);
    }

    /** `getPart`. */
    function GetPart(id: string): (r: Option<Part>)
      reads this
      ensures r.Some? <==> id in parts
      ensures r.Some? ==> r.value == parts[id]
    {
      if id in parts then Some(parts[id]) else None
    }

    /** `getAllParts`: every record, in insertion order. */
    function AllParts(): (r: seq<Part>)
      requires Valid()
      reads this
      ensures |r| == |order|
      ensures forall p: Part :: p in r <==> p.id in parts && parts[p.id] == p
    {
      var r := PartsInOrder(order, parts);
      assert forall p :: p in r ==> p.id in parts && parts[p.id] == p by {
        forall p | p in r ensures p.id in parts && parts[p.id] == p {
          var i :| 0 <= i < |r| && r[i] == p;
          assert order[i] in order;
        }
      }
      assert forall p: Part :: p.id in parts && parts[p.id] == p ==> p in r by {
        forall p: Part | p.id in parts && parts[p.id] == p ensures p in r {
          var i :| 0 <= i < |order| && order[i] == p.id;
          assert r[i] == p;
        }
      }
      r
    }

    /** `getPartsByType`: exactly the stored parts of that type, in insertion order. */
    function PartsByType(t: string): (r: seq<Part>)
      requires Valid()
      reads this
      ensures forall p: Part :: p in r <==> p.id in parts && parts[p.id] == p && p.partType == t
    {
      OfTypeMembers(AllParts(), t);
      OfType(AllParts(), t)
    }

    /** `getBoards`. */
    function Boards(): (r: seq<Part>)
      requires Valid()
      reads this
      ensures forall p: Part :: p in r <==> p.id in parts && parts[p.id] == p && p.partType == "board"
    {
      PartsByType("board")
    }

    /** `updatePart`: stamps the stored record with `now`; an unknown id changes nothing. */
    method UpdatePart(id: string, now: nat)
      requires Valid()
      modifies this
      ensures Valid()
      ensures id !in old(parts) ==> parts == old(parts)
      ensures id in old(parts) ==> parts == old(parts)[id := old(parts)[id].(modified := now)]
      ensures order == old(order)
    {
      if id !in parts {
        return;
      }
      parts := parts[id := parts[id].(modified := now)];
    }

    /** `removePart`: drops that id and its place in the order; an unknown id changes nothing. */
    method RemovePart(id: string)
      requires Valid()
      modifies this
      ensures Valid()
      ensures parts == old(parts) - {id}
      ensures order == Without(old(order), id)
      ensures id !in old(parts) ==> parts == old(parts) && order == old(order)
    {
      if id in parts {
        WithoutKeepsNoDuplicates(order, id);
        order := Without(order, id);
        parts := parts - {id};
      }
    }

    /** `originalPart.childIds.push(...)` on the record the map still holds under `partId`, if any. */
    method RecordChildren(partId: string, original: Part, id1: string, id2: string)
      requires Valid()
      modifies this
      ensures Valid()
      ensures parts == ChildrenRecorded(old(parts), partId, original, id1, id2)
      ensures order == old(order)
    {
      if partId in parts && parts[partId] == original {
        parts := parts[partId := original.(childIds := original.childIds + [id1, id2])];
      }
    }

    /**
     * `cutPart`: creates both pieces (ids `id1`, `id2` from the id
     * generator), records them as the original's children and then removes
     * the original. A part with no cut history (not a board) throws after
     * the pieces exist and its child ids were recorded, and stays.
     */
    method CutPart(partId: string, cut: CutData, id1: string, id2: string, now: nat) returns (r: CutOutcome)
      requires Valid()
      modifies this
      ensures Valid()
      ensures partId !in old(parts) <==> r.NotFound?
      ensures r.NotFound? ==> parts == old(parts) && order == old(order)
      ensures r.Pieces? ==>
        && old(parts)[partId].cutHistory.Some?
        && (r.piece1, r.piece2) == CutPieceParts(old(parts)[partId], cut, id1, id2, now)
        && parts == old(parts)[id1 := r.piece1][id2 := r.piece2] - {partId}
      ensures r.NoCutHistory? ==>
        && old(parts)[partId].cutHistory.None?
        && var (piece1, piece2) := CutPieceParts(old(parts)[partId], cut, id1, id2, now);
           parts == ChildrenRecorded(old(parts)[id1 := piece1][id2 := piece2], partId, old(parts)[partId], id1, id2)
    {
      if partId !in parts {
        return NotFound;
      }
      var original := parts[partId];
      var pieces := CutPieceParts(original, cut, id1, id2, now);
      Set(pieces.0);
      Set(pieces.1);
      ghost var added := parts;
      RecordChildren(partId, original, id1, id2);
      if original.cutHistory.None? {
        return NoCutHistory;
      }
      RemovePart(partId);
      RecordedThenRemoved(added, partId, original, id1, id2);
      return Pieces(pieces.0, pieces.1);
    }
  }

  /** Removing the original afterwards forgets the child ids pushed onto it. */
  lemma RecordedThenRemoved(parts: map<string, Part>, partId: string, original: Part, id1: string, id2: string)
    ensures ChildrenRecorded(parts, partId, original, id1, id2) - {partId} == parts - {partId}
  {
  }

  /** The map after the original's child ids were pushed: only if it still holds that record under `partId`. */
  function ChildrenRecorded(parts: map<string, Part>, partId: string, original: Part, id1: string, id2: string): (r: map<string, Part>)
    ensures r.Keys == parts.Keys
    ensures forall id :: id in parts && id != partId ==> r[id] == parts[id]
    ensures partId in parts && parts[partId] == original ==> r[partId].childIds == original.childIds + [id1, id2]
  {
    if partId in parts && parts[partId] == original
    then parts[partId := original.(childIds := original.childIds + [id1, id2])]
    else parts
  }

}
