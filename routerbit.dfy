/**
 * The router tool (modules/RouterBitSystem_OLD.js): importing a custom bit's
 * 3D model (the OBJ reader and the sniffing of a file's first bytes), and
 * picking the edges of a part that a bit profile will be run along.
 */
module RouterBit {
  import opened Wrappers
  import opened Text
  import opened JsNum

  // ---------------------------------------------------------------------
  // OBJ import
  // ---------------------------------------------------------------------

  /**
   * `line.trim().split(/\s+/)`: the whitespace-free runs of the trimmed
   * line, in order, cut exactly at its whitespace runs; a blank line gives
   * the one token "".
   */
  function Tokens(line: string): (parts: seq<string>)
    ensures |parts| >= 1
    ensures forall k, j :: 0 <= k < |parts| && 0 <= j < |parts[k]| ==> !IsSpace(parts[k][j])
    ensures Trim(line) == [] ==> parts == [""]
    ensures Trim(line) != [] ==> forall k :: 0 <= k < |parts| ==> parts[k] != []
    ensures Concat(parts) == NonSpaceText(Trim(line))
    ensures Trim(line) != [] ==>
              var gaps := SpaceRuns(Trim(line));
              |gaps| + 1 == |parts| && Trim(line) == Interleave(parts, gaps)
              && forall k :: 0 <= k < |gaps| ==> gaps[k] != [] && AllSpaces(gaps[k])
  {
    var t := Trim(line);
    if t == [] then [""]
    else
      SplitOnSpacesOfTrimmed(t);
      SplitOnSpacesKeepsText(t);
      SplitOnSpacesRebuilds(t);
      SpaceRunsAreWhitespace(t);
      SplitOnSpaces(t)
  }

  predicate IsVertexLine(parts: seq<string>)
  {
    |parts| >= 4 && parts[0] == "v"
  }

  predicate IsFaceLine(parts: seq<string>)
  {
    |parts| >= 4 && parts[0] == "f"
  }

  /**
   * The vertex reference of one face token (`v`, `v/vt`, `v/vt/vn`): the
   * 1-based number before the first slash, made 0-based; a token that does
   * not parse, or names vertex 0 or a negative one, gives nothing.
   */
  function FaceIndex(token: string): (r: Option<nat>)
  {
    match ParseInt(Split(token, '/')[0])
    case None => None
    case Some(v) => if v - 1 >= 0 then Some(v - 1) else None
  }

  /** A plain vertex number `n` refers to index `n − 1`, or to nothing when `n` is 0. */
  lemma FaceIndexOfNumber(token: string)
    requires token != [] && AllDigits(token)
    ensures FaceIndex(token) == if DigitsValue(token) >= 1 then Some(DigitsValue(token) - 1) else None
  {
    NoSlashSplit(token);
    ParseIntOfDigits(token);
  }

  /** A token starting with a letter (not a number) refers to nothing. */
  lemma FaceIndexDropsWords(token: string)
    requires token != [] && 'a' <= token[0] <= 'z'
    ensures FaceIndex(token).None?
  {
    var head := Split(token, '/')[0];
    assert IndexOf(token, '/') > 0;
    assert head[0] == token[0];
    assert SpacePrefixLength(head) == 0;
    assert DigitPrefixLength(head) == 0;
  }

  lemma NoSlashSplit(s: string)
    requires AllDigits(s)
    ensures Split(s, '/')[0] == s
  {
    assert forall j :: 0 <= j < |s| ==> IsDigit(s[j]);
    assert IndexOf(s, '/') == |s|;
  }

  /** The reference of each face token, in order. */
  function FaceRefs(tokens: seq<string>): (r: seq<Option<nat>>)
    ensures |r| == |tokens|
    ensures forall k :: 0 <= k < |tokens| ==> r[k] == FaceIndex(tokens[k])
  {
    seq(|tokens|, k requires 0 <= k < |tokens| => FaceIndex(tokens[k]))
  }

  /** The references that name a vertex, in order; the others are dropped. */
  function Present(refs: seq<Option<nat>>): (r: seq<nat>)
    ensures |r| <= |refs|
    decreases |refs|
  {
    if refs == [] then []
    else
      var front := Present(refs[..|refs| - 1]);
      match refs[|refs| - 1]
      case None => front
      case Some(i) => front + [i]
  }

  lemma {:induction false} PresentAllSome(refs: seq<Option<nat>>)
    requires forall k :: 0 <= k < |refs| ==> refs[k].Some?
    ensures |Present(refs)| == |refs|
    ensures forall k :: 0 <= k < |refs| ==> Present(refs)[k] == refs[k].value
    decreases |refs|
  {
    if refs != [] {
      PresentAllSome(refs[..|refs| - 1]);
    }
  }

  /**
   * The triangles of one face: the first three indices, and for a quad the
   * second triangle 0-2-3. Faces of five or more vertices give only their
   * first triangle; faces of fewer than three give none.
   */
  function Triangles(idx: seq<nat>): (r: seq<nat>)
    ensures |r| == (if |idx| < 3 then 0 else if |idx| == 4 then 6 else 3)
    ensures |idx| >= 3 ==> r[..3] == idx[..3]
    ensures |idx| == 4 ==> r[3..] == [idx[0], idx[2], idx[3]]
    ensures forall k :: 0 <= k < |r| ==> r[k] in idx
  {
    if |idx| < 3 then []
    else if |idx| == 4 then [idx[0], idx[1], idx[2], idx[0], idx[2], idx[3]]
    else [idx[0], idx[1], idx[2]]
  }

  /** What one line of an OBJ file is to the reader. */
  datatype ObjLine =
    | VertexLine(x: Num, y: Num, z: Num)
    | FaceLine(indices: seq<nat>)
    | OtherLine

  /**
   * A `v x y z [r g b]` line gives its first three numbers (`parseFloat`); an
   * `f` line with three or more tokens after it gives the vertex indices its
   * tokens name; every other line (comments, normals, texture coordinates,
   * short lines) is skipped.
   */
  function ClassifyLine(parts: seq<string>): (r: ObjLine)
    ensures r.VertexLine? <==> IsVertexLine(parts)
    ensures r.FaceLine? <==> IsFaceLine(parts)
    ensures r.FaceLine? ==> |r.indices| <= |parts| - 1
  {
    if IsVertexLine(parts) then VertexLine(ParseFloat(parts[1]), ParseFloat(parts[2]), ParseFloat(parts[3]))
    else if IsFaceLine(parts) then FaceLine(Present(FaceRefs(parts[1..])))
    else OtherLine
  }

  /** The lines of a file, each split into tokens and classified. */
  function ObjLines(content: string): (ls: seq<ObjLine>)
    ensures |ls| == |Split(content, '\n')|
    ensures forall k :: 0 <= k < |ls| ==> ls[k] == ClassifyLine(Tokens(Split(content, '\n')[k]))
  {
    var lines := Split(content, '\n');
    seq(|lines|, k requires 0 <= k < |lines| => ClassifyLine(Tokens(lines[k])))
  }

  /** All vertex coordinates, in file order. */
  function Positions(ls: seq<ObjLine>): (r: seq<Num>)
    ensures |r| == 3 * VertexLineCount(ls)
    decreases |ls|
  {
    if ls == [] then []
    else
      Positions(ls[..|ls| - 1]) + AddedPositions(ls[|ls| - 1])
  }

  /** The coordinates one line adds: three for a vertex line, none otherwise. */
  function AddedPositions(l: ObjLine): (r: seq<Num>)
    ensures |r| == if l.VertexLine? then 3 else 0
  {
    if l.VertexLine? then [l.x, l.y, l.z] else []
  }

  function VertexLineCount(ls: seq<ObjLine>): nat
    decreases |ls|
  {
    if ls == [] then 0
    else VertexLineCount(ls[..|ls| - 1]) + (if ls[|ls| - 1].VertexLine? then 1 else 0)
  }

  /** All triangle indices, in file order: each face line adds 0, 3 or 6. */
  function Indices(ls: seq<ObjLine>): (r: seq<nat>)
    ensures |r| % 3 == 0
    decreases |ls|
  {
    if ls == [] then []
    else
      var front := Indices(ls[..|ls| - 1]);
      var added := AddedIndices(ls[|ls| - 1]);
      TriplesAdd(|front|, |added|);
      front + added
  }

  lemma TriplesAdd(a: nat, b: nat)
    requires a % 3 == 0 && (b == 0 || b == 3 || b == 6)
    ensures (a + b) % 3 == 0
  {
  }

  /** The triangle indices one line adds: a face line's triangles, nothing otherwise. */
  function AddedIndices(l: ObjLine): (r: seq<nat>)
    ensures |r| == 0 || |r| == 3 || |r| == 6
  {
    if l.FaceLine? then Triangles(l.indices) else []
  }

  /** The lists after one more line are the lists before it plus what that line adds. */
  lemma PrefixStep(ls: seq<ObjLine>, k: nat)
    requires k < |ls|
    ensures Positions(ls[..k + 1]) == Positions(ls[..k]) + AddedPositions(ls[k])
    ensures Indices(ls[..k + 1]) == Indices(ls[..k]) + AddedIndices(ls[k])
  {
    assert ls[..k + 1][..k] == ls[..k];
  }

  /** `x` is one of the indices some face line names. */
  predicate NamedByFace(ls: seq<ObjLine>, x: nat)
  {
    exists k :: 0 <= k < |ls| && ls[k].FaceLine? && x in ls[k].indices
  }

  /** Every triangle index is an index some face line of the file names. */
  lemma {:induction false} IndicesComeFromFaces(ls: seq<ObjLine>)
    ensures forall i :: 0 <= i < |Indices(ls)| ==> NamedByFace(ls, Indices(ls)[i])
    decreases |ls|
  {
    if ls != [] {
      var front := ls[..|ls| - 1];
      var last := ls[|ls| - 1];
      IndicesComeFromFaces(front);
      var r := Indices(ls);
      var f := Indices(front);
      assert r == f + AddedIndices(last);
      forall i | 0 <= i < |r| ensures NamedByFace(ls, r[i]) {
        if i < |f| {
          assert r[i] == f[i] && NamedByFace(front, f[i]);
          var k :| 0 <= k < |front| && front[k].FaceLine? && f[i] in front[k].indices;
          assert ls[k] == front[k];
        } else {
          assert last.FaceLine? && r[i] == Triangles(last.indices)[i - |f|];
          assert r[i] in last.indices;
        }
      }
    }
  }

  /** The mesh data an OBJ file becomes: flat coordinate and triangle-index lists. */
  datatype ObjMesh = ObjMesh(positions: seq<Num>, indices: seq<nat>)

  const NoVerticesMessage: string := "No vertices found in OBJ file"

  /** The mesh the classified lines make: an error when there is no vertex line. */
  function MeshOf(ls: seq<ObjLine>): (r: Result<ObjMesh>)
    ensures r.Err? <==> VertexLineCount(ls) == 0
    ensures r.Err? ==> r.error == NoVerticesMessage
    ensures r.Ok? ==> |r.value.positions| >= 3 && |r.value.positions| % 3 == 0 && |r.value.indices| % 3 == 0
  {
    var positions := Positions(ls);
    if |positions| == 0 then Err(NoVerticesMessage)
    else Ok(ObjMesh(positions, Indices(ls)))
  }

  /** What `createMeshFromOBJ` reads from a file. */
  function ParseObj(content: string): Result<ObjMesh>
  {
    MeshOf(ObjLines(content))
  }

  /** The inner loop over a face line's tokens. */
  method CollectFaceIndices(parts: seq<string>) returns (indices: seq<nat>)
    requires |parts| >= 1
    ensures indices == Present(FaceRefs(parts[1..]))
  {
    indices := [];
    ghost var refs := FaceRefs(parts[1..]);
    for i := 1 to |parts|
      invariant indices == Present(refs[..i - 1])
    {
      assert refs[..i][..i - 1] == refs[..i - 1];
      var vertexIndex := FaceIndex(parts[i]);
      assert vertexIndex == refs[i - 1];
      if vertexIndex.Some? {
        indices := indices + [vertexIndex.value];
      }
    }
    assert refs[..|parts| - 1] == refs;
  }

  /**
   * One pass of the parse loop: a vertex line adds its three coordinates, a
   * face line its triangles, and any other line nothing.
   */
  method ReadLine(parts: seq<string>, vertices: seq<Num>, faces: seq<nat>) returns (vertices': seq<Num>, faces': seq<nat>)
    requires |parts| >= 1
    ensures IsVertexLine(parts) ==> vertices' == vertices + [ParseFloat(parts[1]), ParseFloat(parts[2]), ParseFloat(parts[3])] && faces' == faces
    ensures IsFaceLine(parts) ==> vertices' == vertices && faces' == faces + Triangles(Present(FaceRefs(parts[1..])))
    ensures !IsVertexLine(parts) && !IsFaceLine(parts) ==> vertices' == vertices && faces' == faces
  {
    vertices', faces' := vertices, faces;
    if parts[0] == "v" && |parts| >= 4 {
      vertices' := vertices' + [ParseFloat(parts[1]), ParseFloat(parts[2]), ParseFloat(parts[3])];
    } else if parts[0] == "f" && |parts| >= 4 {
      var indices := CollectFaceIndices(parts);
      faces' := PushTriangles(faces, indices);
    }
  }

  /** The face branch's pushes: the first triangle, and for a quad the second. */
  method PushTriangles(faces: seq<nat>, indices: seq<nat>) returns (faces': seq<nat>)
    ensures faces' == faces + Triangles(indices)
  {
    faces' := faces;
    if |indices| >= 3 {
      faces' := faces' + [indices[0], indices[1], indices[2]];
      if |indices| == 4 {
        faces' := faces' + [indices[0], indices[2], indices[3]];
      }
    }
  }

  /** What `ReadLine` adds is what the line's classification adds. */
  lemma ReadLineAddsClassified(parts: seq<string>, vertices: seq<Num>, faces: seq<nat>, vertices': seq<Num>, faces': seq<nat>)
    requires |parts| >= 1
    requires IsVertexLine(parts) ==> vertices' == vertices + [ParseFloat(parts[1]), ParseFloat(parts[2]), ParseFloat(parts[3])] && faces' == faces
    requires IsFaceLine(parts) ==> vertices' == vertices && faces' == faces + Triangles(Present(FaceRefs(parts[1..])))
    requires !IsVertexLine(parts) && !IsFaceLine(parts) ==> vertices' == vertices && faces' == faces
    ensures vertices' == vertices + AddedPositions(ClassifyLine(parts))
    ensures faces' == faces + AddedIndices(ClassifyLine(parts))
  {
  }

  /** `createMeshFromOBJ`'s parse loop and its no-vertex check. */
  method CreateMeshFromObj(objContent: string) returns (r: Result<ObjMesh>)
    ensures r == MeshOf(ObjLines(objContent))
  {
    var lines := Split(objContent, '\n');
    ghost var ls := ObjLines(objContent);
    var vertices: seq<Num> := [];
    var faces: seq<nat> := [];
    for k := 0 to |lines|
      invariant vertices == Positions(ls[..k])
      invariant faces == Indices(ls[..k])
    {
      PrefixStep(ls, k);
      var parts := Tokens(lines[k]);
      assert ls[k] == ClassifyLine(parts);
      var vertices', faces' := ReadLine(parts, vertices, faces);
      ReadLineAddsClassified(parts, vertices, faces, vertices', faces');
      vertices, faces := vertices', faces';
    }
    assert ls[..|lines|] == ls;
    if |vertices| == 0 {
      return Err(NoVerticesMessage);
    }
    return Ok(ObjMesh(vertices, faces));
  }

  // ---------------------------------------------------------------------
  // Sniffing a file's first bytes
  // ---------------------------------------------------------------------

  newtype Byte = x: int | 0 <= x < 256

  /** A control character other than tab, line feed and carriage return (the null byte included). */
  predicate NonPrintable(b: Byte)
  {
    b == 0 || (b < 32 && b != 9 && b != 10 && b != 13)
  }

  function NonPrintableCount(bs: seq<Byte>): (n: nat)
    ensures n <= |bs|
    decreases |bs|
  {
    if bs == [] then 0
    else NonPrintableCount(bs[..|bs| - 1]) + (if NonPrintable(bs[|bs| - 1]) then 1 else 0)
  }

  const SniffLength: nat := 100

  function Head(bytes: seq<Byte>): (h: seq<Byte>)
    ensures |h| <= SniffLength && |h| <= |bytes| && h == bytes[..|h|]
    ensures |bytes| <= SniffLength ==> h == bytes
  {
    if |bytes| <= SniffLength then bytes else bytes[..SniffLength]
  }

  /**
   * `detectBinaryContent`: the non-printable bytes among the first 100 are
   * more than a tenth of the length. The count is an integer and the tenth
   * is computed in binary floating point as at least the exact tenth, so
   * comparing `10·count > length` decides the same.
   */
  predicate LooksBinary(bytes: seq<Byte>)
  {
    NonPrintableCount(Head(bytes)) * 10 > |bytes|
  }

  method DetectBinaryContent(bytes: seq<Byte>) returns (binary: bool)
    ensures binary == LooksBinary(bytes)
  {
    var nonPrintableCount := 0;
    var n := if |bytes| < SniffLength then |bytes| else SniffLength;
    for i := 0 to n
      invariant nonPrintableCount == NonPrintableCount(bytes[..i])
    {
      assert bytes[..i + 1][..i] == bytes[..i];
      if bytes[i] == 0 || (bytes[i] < 32 && bytes[i] != 9 && bytes[i] != 10 && bytes[i] != 13) {
        nonPrintableCount := nonPrintableCount + 1;
      }
    }
    assert bytes[..n] == Head(bytes);
    return nonPrintableCount * 10 > |bytes|;
  }

  /** Text made only of printable bytes, tabs and line breaks is never taken for binary. */
  lemma {:induction false} PrintableIsText(bytes: seq<Byte>)
    requires forall i :: 0 <= i < |bytes| ==> !NonPrintable(bytes[i])
    ensures !LooksBinary(bytes)
  {
    NoneNonPrintable(Head(bytes));
  }

  lemma {:induction false} NoneNonPrintable(bs: seq<Byte>)
    requires forall i :: 0 <= i < |bs| ==> !NonPrintable(bs[i])
    ensures NonPrintableCount(bs) == 0
    decreases |bs|
  {
    if bs != [] {
      NoneNonPrintable(bs[..|bs| - 1]);
    }
  }

  /**
   * A run of at least eleven non-printable bytes at the start is binary
   * whatever the length of a header of at most 100 bytes.
   */
  lemma {:induction false} ControlRunIsBinary(bytes: seq<Byte>, run: nat)
    requires |bytes| <= SniffLength && 11 <= run <= |bytes|
    requires forall i :: 0 <= i < run ==> NonPrintable(bytes[i])
    ensures LooksBinary(bytes)
  {
    AllNonPrintable(bytes[..run]);
    CountPrefix(bytes, run);
  }

  lemma {:induction false} AllNonPrintable(bs: seq<Byte>)
    requires forall i :: 0 <= i < |bs| ==> NonPrintable(bs[i])
    ensures NonPrintableCount(bs) == |bs|
    decreases |bs|
  {
    if bs != [] {
      AllNonPrintable(bs[..|bs| - 1]);
    }
  }

  /** Counting a longer prefix never gives fewer. */
  lemma {:induction false} CountPrefix(bs: seq<Byte>, k: nat)
    requires k <= |bs|
    ensures NonPrintableCount(bs[..k]) <= NonPrintableCount(bs)
    decreases |bs|
  {
    if k < |bs| {
      assert bs[..|bs| - 1][..k] == bs[..k];
      CountPrefix(bs[..|bs| - 1], k);
    } else {
      assert bs[..k] == bs;
    }
  }

  /**
   * Only the first 100 bytes are counted but against the whole length, so
   * anything longer than 1000 bytes reads as text; the file picker passes
   * at most 100 bytes, where this does not arise.
   */
  lemma LongInputIsText(bytes: seq<Byte>)
    requires |bytes| > 10 * SniffLength
    ensures !LooksBinary(bytes)
  {
  }

  datatype Format = Glb | GltfJson | ObjText | StlAscii | StlBinary | Unknown

  predicate HasGlbMagic(bytes: seq<Byte>)
  {
    |bytes| >= 4 && bytes[0] == 0x67 && bytes[1] == 0x6C && bytes[2] == 0x54 && bytes[3] == 0x46
  }

  predicate HasObjMarker(text: string)
  {
    Includes(text, "# ") || Includes(text, "v ") || Includes(text, "f ") || Includes(text, "vn ")
  }

  predicate LooksLikeGltf(text: string)
  {
    StartsWith(Trim(text), "{") && Includes(text, "\"asset\"")
  }

  predicate LooksLikeStlAscii(text: string)
  {
    Includes(text, "solid ") && Includes(text, "facet normal")
  }

  /**
   * The tests of `detectFormatFromHeader` in order, on the lower-cased
   * header text: the first that holds decides.
   */
  function FormatOf(text: string, bytes: seq<Byte>): (r: Format)
    ensures r == Glb <==> HasGlbMagic(bytes)
    ensures r == GltfJson <==> !HasGlbMagic(bytes) && LooksLikeGltf(text)
    ensures r == ObjText <==> !HasGlbMagic(bytes) && !LooksLikeGltf(text) && HasObjMarker(text)
    ensures r == StlAscii <==>
              !HasGlbMagic(bytes) && !LooksLikeGltf(text) && !HasObjMarker(text) && LooksLikeStlAscii(text)
    ensures r == StlBinary <==>
              !HasGlbMagic(bytes) && !LooksLikeGltf(text) && !HasObjMarker(text) && !LooksLikeStlAscii(text)
              && |bytes| >= 84 && !Includes(text, "solid ")
    ensures r == Unknown <==>
              !HasGlbMagic(bytes) && !LooksLikeGltf(text) && !HasObjMarker(text) && !LooksLikeStlAscii(text)
              && !(|bytes| >= 84 && !Includes(text, "solid "))
  {
    if HasGlbMagic(bytes) then Glb
    else if LooksLikeGltf(text) then GltfJson
    else if HasObjMarker(text) then ObjText
    else if LooksLikeStlAscii(text) then StlAscii
    else if |bytes| >= 84 && !Includes(text, "solid ") then StlBinary
    else Unknown
  }

  /** `detectFormatFromHeader`. */
  function DetectFormat(headerText: string, bytes: seq<Byte>): Format
  {
    FormatOf(ToLowerAscii(headerText), bytes)
  }

  /** The GLB magic decides before any look at the text. */
  lemma GlbWinsOverText(headerText: string, bytes: seq<Byte>)
    requires HasGlbMagic(bytes)
    ensures DetectFormat(headerText, bytes) == Glb
  {
  }

  // ---------------------------------------------------------------------
  // Edge selection
  // ---------------------------------------------------------------------

  /** A part in the scene, as far as routing is concerned. */
  class RouterMesh {
    const isWorkBenchPart: bool
    const isProjectPart: bool

    constructor(workBench: bool, project: bool)
      ensures isWorkBenchPart == workBench && isProjectPart == project
    {
      isWorkBenchPart := workBench;
      isProjectPart := project;
    }
  }

  /**
   * An edge found under the mouse: its type (`top_front`, ...) on the
   * picked part. Each hover creates a new one, compared by identity.
   */
  class Edge {
    const edgeType: string
    const mesh: RouterMesh

    constructor(t: string, m: RouterMesh)
      ensures edgeType == t && mesh == m
    {
      edgeType := t;
      mesh := m;
    }
  }

  /** Two edge objects for the same side of the same part: the same geometric edge. */
  predicate SameEdge(a: Edge, b: Edge)
  {
    a.edgeType == b.edgeType && a.mesh == b.mesh
  }

  /** No geometric edge is selected twice. */
  predicate NoTwins(es: seq<Edge>)
  {
    forall i, j :: 0 <= i < j < |es| ==> !SameEdge(es[i], es[j])
  }

  predicate Distinct(es: seq<Edge>)
  {
    forall i, j :: 0 <= i < j < |es| ==> es[i] != es[j]
  }

  /** `indexOf` on the selection: the first position of `e`, or the length. */
  function IndexOfEdge(es: seq<Edge>, e: Edge): (k: nat)
    ensures k <= |es|
    ensures k < |es| ==> es[k] == e
    ensures forall j :: 0 <= j < k ==> es[j] != e
  {
    if es == [] then 0 else if es[0] == e then 0 else 1 + IndexOfEdge(es[1..], e)
  }

  /** Removing the first occurrence of `e` from a list without repeats removes it altogether and nothing else. */
  lemma RemoveFromDistinct(es: seq<Edge>, k: nat)
    requires Distinct(es) && k < |es|
    ensures var rest := es[..k] + es[k + 1..];
            && Distinct(rest)
            && es[k] !in rest
            && forall x :: x in rest <==> x in es && x != es[k]
  {
    var rest := es[..k] + es[k + 1..];
    forall x | x in es && x != es[k] ensures x in rest {
      var i :| 0 <= i < |es| && es[i] == x;
      if i < k { assert rest[i] == x; } else { assert rest[i - 1] == x; }
    }
  }

  /** The first position of an edge object for the same geometric edge as `e`, or the length. */
  function IndexOfTwin(es: seq<Edge>, e: Edge): (k: nat)
    ensures k <= |es|
    ensures k < |es| ==> SameEdge(es[k], e)
    ensures forall j :: 0 <= j < k ==> !SameEdge(es[j], e)
  {
    if es == [] then 0 else if SameEdge(es[0], e) then 0 else 1 + IndexOfTwin(es[1..], e)
  }

  /**
   * The selection after a click on the hovered edge object `e`, as
   * written: `includes` and `indexOf` compare objects, so a new object for
   * an already selected edge is appended beside it.
   */
  function ToggledAsWritten(es: seq<Edge>, e: Edge): seq<Edge>
  {
    var k := IndexOfEdge(es, e);
    if k < |es| then es[..k] + es[k + 1..] else es + [e]
  }

  /** The click as evidently intended: a selected twin of `e` is removed, else `e` is appended. */
  function Toggled(es: seq<Edge>, e: Edge): seq<Edge>
  {
    var k := IndexOfTwin(es, e);
    if k < |es| then es[..k] + es[k + 1..] else es + [e]
  }

  /**
   * As written, selecting an edge, moving the mouse (which hovers a new
   * object for the same edge) and clicking again selects the edge twice.
   */
  lemma ReclickSelectsTwinAsWritten(first: Edge, again: Edge)
    requires first != again && SameEdge(first, again)
    ensures ToggledAsWritten([first], again) == [first, again]
    ensures !NoTwins(ToggledAsWritten([first], again))
  {
    assert IndexOfEdge([first], again) == 1 + IndexOfEdge([], again) == 1;
    var r := ToggledAsWritten([first], again);
    assert r[0] == first && r[1] == again;
  }

  /** With the intended toggle the second click deselects the edge. */
  lemma ReclickDeselects(first: Edge, again: Edge)
    requires SameEdge(first, again)
    ensures Toggled([first], again) == []
  {
  }

  /**
   * The intended toggle keeps the selection free of twins, flips whether
   * the clicked edge is selected, and leaves every other edge as it was.
   */
  lemma ToggledKeepsNoTwins(es: seq<Edge>, e: Edge)
    requires NoTwins(es)
    ensures var r := Toggled(es, e);
            && NoTwins(r)
            && (IndexOfTwin(r, e) < |r| <==> IndexOfTwin(es, e) == |es|)
            && forall x :: !SameEdge(x, e) ==> (x in r <==> x in es)
  {
    var k := IndexOfTwin(es, e);
    var r := Toggled(es, e);
    if k < |es| {
      assert r == es[..k] + es[k + 1..];
      forall i, j | 0 <= i < j < |r|
        ensures !SameEdge(r[i], r[j])
      {
        var i' := if i < k then i else i + 1;
        var j' := if j < k then j else j + 1;
        assert r[i] == es[i'] && r[j] == es[j'];
      }
      forall j | 0 <= j < |r|
        ensures !SameEdge(r[j], e)
      {
        var j' := if j < k then j else j + 1;
        assert r[j] == es[j'];
        if j' > k {
          assert !SameEdge(es[k], es[j']);
        }
      }
      forall x | !SameEdge(x, e) && x in es
        ensures x in r
      {
        var i :| 0 <= i < |es| && es[i] == x;
        if i < k { assert r[i] == x; } else { assert r[i - 1] == x; }
      }
    } else {
      assert r == es + [e];
      forall i, j | 0 <= i < j < |r|
        ensures !SameEdge(r[i], r[j])
      {
        if j == |es| {
          assert r[i] == es[i];
        }
      }
      assert r[|es|] == e;
    }
  }

  /** When the hovered object is itself the one selected, the written and the intended click agree. */
  lemma TogglesAgreeOnTheSameObject(es: seq<Edge>, e: Edge)
    requires NoTwins(es)
    requires IndexOfTwin(es, e) < |es| ==> es[IndexOfTwin(es, e)] == e
    ensures ToggledAsWritten(es, e) == Toggled(es, e)
  {
    var k := IndexOfTwin(es, e);
    if k < |es| {
      assert es[k] == e;
      FirstIndexOfEdge(es, k);
    } else {
      if e in es {
        var i :| 0 <= i < |es| && es[i] == e;
        assert SameEdge(es[i], e);
      }
    }
  }

  /** In a list without twins, the object at position k is first found at k. */
  lemma FirstIndexOfEdge(es: seq<Edge>, k: nat)
    requires NoTwins(es) && k < |es|
    ensures IndexOfEdge(es, es[k]) == k
  {
    var j := IndexOfEdge(es, es[k]);
    if j < k {
      assert SameEdge(es[j], es[k]);
    }
  }

  class RouterBitState {
    var isActive: bool
    var selectedBitProfile: Option<string>
    var hoveredEdge: Edge?
    var selectedEdges: seq<Edge>
    var focusPart: RouterMesh?

    /** The same geometric edge is never selected twice. */
    ghost predicate Valid()
      reads this
    {
      NoTwins(selectedEdges)
    }

    constructor()
      ensures Valid()
      ensures !isActive && selectedBitProfile == None && hoveredEdge == null && selectedEdges == [] && focusPart == null
    {
      isActive := false;
      selectedBitProfile := None;
      hoveredEdge := null;
      selectedEdges := [];
      focusPart := null;
    }

    /**
     * `isRoutablePart`: with a focus part only that part, otherwise any
     * work bench or project part.
     */
    predicate IsRoutablePart(mesh: RouterMesh?)
      reads this
    {
      if focusPart != null then mesh == focusPart
      else mesh != null && (mesh.isWorkBenchPart || mesh.isProjectPart)
    }

    /** Once a part has focus, no other part is routable. */
    lemma FocusExcludesOthers(mesh: RouterMesh?)
      requires focusPart != null && mesh != focusPart
      ensures !IsRoutablePart(mesh)
    {
    }

    /** `clearEdgeHover`. */
    method ClearEdgeHover()
      modifies this
      ensures hoveredEdge == null
      ensures selectedEdges == old(selectedEdges) && focusPart == old(focusPart)
      ensures isActive == old(isActive) && selectedBitProfile == old(selectedBitProfile)
    {
      hoveredEdge := null;
    }

    /**
     * The hover part of the mouse-move handler: an edge under the mouse
     * different from the hovered one becomes hovered; a miss clears the hover.
     */
    method HoverEdge(hit: bool, edge: Edge?)
      modifies this
      ensures hoveredEdge == (if !hit then null else if edge != null then edge else old(hoveredEdge))
      ensures selectedEdges == old(selectedEdges) && focusPart == old(focusPart)
      ensures isActive == old(isActive) && selectedBitProfile == old(selectedBitProfile)
    {
      if hit {
        if edge != null && edge != hoveredEdge {
          ClearEdgeHover();
          hoveredEdge := edge;
        }
      } else {
        ClearEdgeHover();
      }
    }

    /** `selectEdge`. */
    method SelectEdge(edge: Edge)
      modifies this
      ensures selectedEdges == old(selectedEdges) + [edge]
      ensures hoveredEdge == old(hoveredEdge) && focusPart == old(focusPart)
      ensures isActive == old(isActive) && selectedBitProfile == old(selectedBitProfile)
    {
      selectedEdges := selectedEdges + [edge];
    }

    /** `deselectEdge`: the first occurrence of the edge, if any, is spliced out. */
    method DeselectEdge(edge: Edge)
      modifies this
      ensures var k := IndexOfEdge(old(selectedEdges), edge);
              selectedEdges == if k < |old(selectedEdges)| then old(selectedEdges)[..k] + old(selectedEdges)[k + 1..] else old(selectedEdges)
      ensures hoveredEdge == old(hoveredEdge) && focusPart == old(focusPart)
      ensures isActive == old(isActive) && selectedBitProfile == old(selectedBitProfile)
    {
      var index := IndexOfEdge(selectedEdges, edge);
      if index < |selectedEdges| {
        selectedEdges := selectedEdges[..index] + selectedEdges[index + 1..];
      }
    }

    /**
     * `handleEdgeSelection`, corrected: a click on a hovered edge deselects
     * the selected object for the same geometric edge if there is one, and
     * selects the hovered object otherwise (the source compares objects,
     * see `ToggledAsWritten`); a click with no hovered edge on a part makes
     * that part the focus unless one already is.
     */
    method HandleEdgeSelection(pickedPart: RouterMesh?)
      requires Valid()
      modifies this
      ensures Valid()
      ensures old(hoveredEdge) != null ==>
        && selectedEdges == Toggled(old(selectedEdges), old(hoveredEdge))
        && (IndexOfTwin(selectedEdges, old(hoveredEdge)) < |selectedEdges|
            <==> IndexOfTwin(old(selectedEdges), old(hoveredEdge)) == |old(selectedEdges)|)
        && (forall x :: !SameEdge(x, old(hoveredEdge)) ==> (x in selectedEdges <==> x in old(selectedEdges)))
        && focusPart == old(focusPart)
      ensures old(hoveredEdge) == null ==>
        && selectedEdges == old(selectedEdges)
        && focusPart == (if pickedPart != null && old(focusPart) == null then pickedPart else old(focusPart))
      ensures hoveredEdge == old(hoveredEdge)
      ensures isActive == old(isActive) && selectedBitProfile == old(selectedBitProfile)
    {
      if hoveredEdge != null {
        var es, e := selectedEdges, hoveredEdge;
        ToggledKeepsNoTwins(es, e);
        var k := IndexOfTwin(es, e);
        if k < |es| {
          FirstIndexOfEdge(es, k);
          DeselectEdge(es[k]);
        } else {
          SelectEdge(e);
        }
        assert selectedEdges == Toggled(es, e);
      } else if pickedPart != null && focusPart == null {
        focusPart := pickedPart;
      }
    }

    /** `clearAll`: no hovered edge and an empty selection. */
    method ClearAll()
      modifies this
      ensures Valid()
      ensures hoveredEdge == null && selectedEdges == []
      ensures focusPart == old(focusPart) && isActive == old(isActive) && selectedBitProfile == old(selectedBitProfile)
    {
      ClearEdgeHover();
      selectedEdges := [];
    }

    /** `activate`: the profile defaults to the roundover bit; the selection starts empty. */
    method Activate(bitProfile: Option<string>)
      modifies this
      ensures Valid()
      ensures isActive && selectedBitProfile == Some(if bitProfile.Some? then bitProfile.value else "roundover")
      ensures hoveredEdge == null && selectedEdges == [] && focusPart == old(focusPart)
    {
      isActive := true;
      selectedBitProfile := Some(if bitProfile.Some? then bitProfile.value else "roundover");
      ClearAll();
    }

    /** `deactivate`: no profile, no focus part, nothing selected. */
    method Deactivate()
      modifies this
      ensures Valid()
      ensures !isActive && selectedBitProfile == None && focusPart == null
      ensures hoveredEdge == null && selectedEdges == []
    {
      isActive := false;
      selectedBitProfile := None;
      focusPart := null;
      ClearAll();
    }
  }
}
