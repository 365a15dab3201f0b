/** File-type detection and the buffer assembly of `Primitive.load`: the file
    text goes to the decoder its name calls for, and the decoder's arrays
    become the vertex, normal, colour and index buffers of a `Primitive`.

    Reading the file is left to the caller: `Load` receives the text the
    `FileReader` produced. */
module Primitives {
  import opened Wrappers
  import opened Text
  import Obj
  import Ply
  import opened Meshes

  datatype FileType = OBJ | PLY | UNKNOWN

  /** `getFileType`: the extension, compared without regard to case. */
  function GetFileType(fileName: string): (ft: FileType)
    ensures ft == OBJ <==> EndsWith(ToLower(fileName), ".obj")
    ensures ft == PLY <==> !EndsWith(ToLower(fileName), ".obj") && EndsWith(ToLower(fileName), ".ply")
  {
    var lower := ToLower(fileName);
    if EndsWith(lower, ".obj") then OBJ
    else if EndsWith(lower, ".ply") then PLY
    else UNKNOWN
  }

  datatype BufferData = BufferData(
    position: seq<real>,
    color: Option<seq<real>>,
    normal: Option<seq<real>>,
    indices: Option<IndexBuffer>)

  datatype Primitive = Primitive(
    vertices: seq<real>,
    colors: Option<seq<real>>,
    normals: Option<seq<real>>,
    indices: Option<IndexBuffer>,
    vertexCount: real,
    indexCount: Option<nat>)

  /** `new Primitive(bufferData)`: the vertex count is the buffer length over
      three, a fraction when the length is not a multiple of three. */
  function NewPrimitive(data: BufferData): (p: Primitive)
    ensures p.vertices == data.position && p.colors == data.color
    ensures p.normals == data.normal && p.indices == data.indices
    ensures 3.0 * p.vertexCount == |data.position| as real
    ensures p.indexCount.Some? <==> data.indices.Some?
    ensures data.indices.Some? ==> p.indexCount.value == |data.indices.value.values|
  {
    Primitive(
      data.position, data.color, data.normal, data.indices,
      (|data.position| as real) / 3.0,
      if data.indices.Some? then Some(|data.indices.value.values|) else None)
  }

  /** The settled state of the promise `load` returns. A decoder that throws
      inside the reader's `onload` callback leaves the promise unsettled. */
  datatype LoadOutcome =
    | Resolved(primitive: Primitive)
    | Rejected(message: string)
    | Unsettled

  /** `Math.max(...indices) < 65536`: an `undefined` index makes the maximum
      NaN, and the comparison false. */
  predicate FitsUint16(indices: seq<Option<nat>>) {
    forall i :: 0 <= i < |indices| ==> indices[i].Some? && indices[i].value < Uint16Range
  }

  /** A typed-array element from a decoded index: `undefined` is stored as 0. */
  function Stored(indices: seq<Option<nat>>, range: nat): (r: seq<nat>)
    requires range > 0
    ensures |r| == |indices|
    ensures forall i :: 0 <= i < |indices| ==> r[i] == if indices[i].Some? then indices[i].value % range else 0
  {
    seq(|indices|, i requires 0 <= i < |indices| => if indices[i].Some? then indices[i].value % range else 0)
  }

  /** The index buffer `load` assembles: 16-bit when every index is below
      65536, otherwise 32-bit. */
  function AssembleIndices(indices: seq<Option<nat>>): (b: IndexBuffer)
    ensures b.Uint16? <==> FitsUint16(indices)
    ensures |b.values| == |indices|
  {
    if FitsUint16(indices) then Uint16(Stored(indices, Uint16Range)) else Uint32(Stored(indices, Uint32Range))
  }

  /** The buffers of a decoded OBJ file: its normal stream is always an array,
      and so always becomes a buffer; OBJ has no colours and no indices. */
  function FromObj(r: Obj.ObjResult): BufferData {
    BufferData(r.position, None, Some(r.normal), None)
  }

  /** The buffers of a decoded PLY file. */
  function FromPly(r: Ply.PlyResult): BufferData {
    BufferData(
      r.position,
      r.color,
      r.normal,
      if r.indices.Some? then Some(AssembleIndices(r.indices.value)) else None)
  }

  /** `Primitive.load(file)` once the text is read. */
  function Load(fileName: string, text: string, parseFloat: string -> real, rd: Ply.Reader): (out: LoadOutcome)
    ensures text == [] ==> out == Rejected("Failed to read file.")
    ensures text != [] && GetFileType(fileName) == UNKNOWN ==> out == Rejected("Unsupported file type.")
    ensures out.Resolved? ==> GetFileType(fileName) != UNKNOWN && text != []
  {
    if text == [] then Rejected("Failed to read file.")
    else
      match GetFileType(fileName)
      case OBJ =>
        (match Obj.Decode(text, parseFloat)
         case Failure(_) => Unsettled
         case Success(r) => Resolved(NewPrimitive(FromObj(r))))
      case PLY =>
        (match Ply.Decode(text, rd, Ply.Independent)
         case Failure(_) => Unsettled
         case Success(r) => Resolved(NewPrimitive(FromPly(r))))
      case UNKNOWN => Rejected("Unsupported file type.")
  }

  // ---------------------------------------------------------------------
  // Properties

  /** What a loaded OBJ primitive holds: the decoder's positions and normals
      (the normal buffer present even when empty), no colour, no indices. */
  lemma LoadObj(fileName: string, text: string, parseFloat: string -> real, rd: Ply.Reader)
    requires text != [] && GetFileType(fileName) == OBJ
    ensures var d := Obj.Decode(text, parseFloat);
            d.Success? ==>
              && Load(fileName, text, parseFloat, rd).Resolved?
              && var p := Load(fileName, text, parseFloat, rd).primitive;
              && p.vertices == d.value.position
              && p.normals == Some(d.value.normal)
              && p.colors.None? && p.indices.None? && p.indexCount.None?
    ensures Obj.Decode(text, parseFloat).Failure? ==> Load(fileName, text, parseFloat, rd) == Unsettled
  {
  }

  /** What a loaded PLY primitive holds: the decoder's positions, normals and
      colours as they are, and the indices at the width their maximum needs. */
  lemma LoadPly(fileName: string, text: string, parseFloat: string -> real, rd: Ply.Reader)
    requires text != [] && GetFileType(fileName) == PLY
    ensures var d := Ply.Decode(text, rd, Ply.Independent);
            d.Success? ==>
              && Load(fileName, text, parseFloat, rd).Resolved?
              && var p := Load(fileName, text, parseFloat, rd).primitive;
              && p.vertices == d.value.position
              && p.normals == d.value.normal
              && p.colors == d.value.color
              && (p.indices.Some? <==> d.value.indices.Some?)
              && (d.value.indices.Some? ==> (p.indices.value.Uint16? <==> FitsUint16(d.value.indices.value)))
              && (d.value.indices.Some? ==> p.indexCount == Some(|d.value.indices.value|))
    ensures Ply.Decode(text, rd, Ply.Independent).Failure? ==> Load(fileName, text, parseFloat, rd) == Unsettled
  {
  }

  /** Indices that fit are stored unchanged in the 16-bit buffer. */
  lemma FittingIndicesStored(indices: seq<Option<nat>>)
    requires FitsUint16(indices)
    ensures forall i :: 0 <= i < |indices| ==> AssembleIndices(indices).values[i] == indices[i].value
  {
  }

  /** The two width rules disagree: the mesh constructor looks at the vertex
      count, `load` at the largest index. A 70000-vertex model whose indices
      are all small gets a 32-bit buffer in one and a 16-bit buffer in the
      other. */
  lemma WidthRulesDiffer()
    ensures IndexBufferFor(70000, [0, 1, 2]).Uint32?
    ensures AssembleIndices([Some(0), Some(1), Some(2)]).Uint16?
  {
    assert FitsUint16([Some(0), Some(1), Some(2)]);
  }

  /** An extension is recognised in any case. */
  lemma UpperCaseExtension(stem: string)
    ensures GetFileType(stem + ".PLY") == PLY
    ensures GetFileType(stem + ".Obj") == OBJ
  {
    var a, b := stem + ".PLY", stem + ".Obj";
    assert ToLower(a)[|a| - 4..] == ".ply";
    assert ToLower(b)[|b| - 4..] == ".obj";
  }
}
