/** A renderable `Mesh`: the vertex buffers built from a decoded model, the
    index buffer at the width the vertex count calls for, normals synthesized
    from the faces when the model has none, and a bounding sphere whose
    centre seeds the mesh's `Transform`.

    `sqrt` and `vec3.normalize` are parameters (`Numerics`); typed-array
    storage is modelled by the wrap-around of the integer index buffers and
    otherwise as exact reals. */
module Meshes {
  import opened Wrappers
  import opened Vectors
  import opened Transforms

  /** The decoder output a mesh is built from. */
  datatype ParseResult = ParseResult(
    vertexCount: nat,
    position: seq<real>,
    normal: Option<seq<real>>,
    indices: Option<seq<nat>>)

  /** A `Uint16Array` or `Uint32Array`, holding the values as stored. */
  datatype IndexBuffer = Uint16(values: seq<nat>) | Uint32(values: seq<nat>)

  const Uint16Range: nat := 0x1_0000
  const Uint32Range: nat := 0x1_0000_0000

  datatype Numerics = Numerics(sqrt: real -> real, normalize: Vec3 -> Vec3)

  datatype Mesh = Mesh(
    name: string,
    count: nat,
    position: seq<real>,
    normal: Option<seq<real>>,
    indices: Option<IndexBuffer>,
    transform: Transform,
    boundingRadius: real,
    color: string,
    selectable: bool)

  /** `new Uint16Array(xs)` / `new Uint32Array(xs)` on non-negative integers. */
  function Wrap(xs: seq<nat>, range: nat): (r: seq<nat>)
    requires range > 0
    ensures |r| == |xs|
    ensures forall i :: 0 <= i < |xs| ==> r[i] == xs[i] % range
  {
    seq(|xs|, i requires 0 <= i < |xs| => xs[i] % range)
  }

  /** Values in range are stored unchanged. */
  lemma WrapInRange(xs: seq<nat>, range: nat)
    requires range > 0 && forall i :: 0 <= i < |xs| ==> xs[i] < range
    ensures Wrap(xs, range) == xs
  {
  }

  /** The constructor's index-buffer choice: 32-bit exactly when the vertex
      count exceeds 65535. */
  function IndexBufferFor(vertexCount: nat, indices: seq<nat>): (b: IndexBuffer)
    ensures b.Uint32? <==> vertexCount > 65535
    ensures |b.values| == |indices|
    ensures forall i :: 0 <= i < |indices| ==>
              b.values[i] == indices[i] % (if b.Uint32? then Uint32Range else Uint16Range)
  {
    if vertexCount > 65535 then Uint32(Wrap(indices, Uint32Range)) else Uint16(Wrap(indices, Uint16Range))
  }

  /** Values already stored in a buffer of the same width are stored
      unchanged: copying an index buffer and re-wrapping it is the identity. */
  lemma RewrapIndexBuffer(vertexCount: nat, indices: seq<nat>)
    ensures IndexBufferFor(vertexCount, IndexBufferFor(vertexCount, indices).values) == IndexBufferFor(vertexCount, indices)
  {
    var b := IndexBufferFor(vertexCount, indices);
    var b' := IndexBufferFor(vertexCount, b.values);
    assert b'.values == b.values;
  }

  /** The 16/32-bit boundary: 65535 vertices still index through 16 bits,
      65536 need 32. */
  lemma IndexWidthBoundary(indices: seq<nat>)
    ensures IndexBufferFor(65535, indices).Uint16?
    ensures IndexBufferFor(65536, indices).Uint32?
  {
  }

  // ---------------------------------------------------------------------
  // Vertices

  /** The `v`-th vertex of a flat `x, y, z, x, y, z, ...` buffer. */
  function VertexAt(buffer: seq<real>, v: nat): Vec3
    requires 3 * v + 3 <= |buffer|
  {
    Vec3(buffer[3 * v], buffer[3 * v + 1], buffer[3 * v + 2])
  }

  /** A buffer that holds whole vertices. */
  predicate Whole(buffer: seq<real>) {
    |buffer| % 3 == 0
  }

  /** The sum of the first `k` vertices. */
  function SumTo(buffer: seq<real>, k: nat): Vec3
    requires 3 * k <= |buffer|
  {
    if k == 0 then Origin else Add(SumTo(buffer, k - 1), VertexAt(buffer, k - 1))
  }

  /** The component-wise mean of the vertices. An empty buffer has none: the
      source divides by zero and gets NaN, which `Origin` stands in for. */
  function Centroid(buffer: seq<real>): Vec3
    requires Whole(buffer)
  {
    var n := |buffer| / 3;
    if n == 0 then Origin else Scale(SumTo(buffer, n), 1.0 / (n as real))
  }

  /** `d` is the largest squared distance from `c` to a vertex, or 0 when
      every vertex is at `c` or there is none. */
  predicate IsMaxSqDist(buffer: seq<real>, c: Vec3, d: real)
    requires Whole(buffer)
  {
    && d >= 0.0
    && (forall v: nat :: v < |buffer| / 3 ==> SqDist(VertexAt(buffer, v), c) <= d)
    && (d == 0.0 || exists v: nat :: v < |buffer| / 3 && SqDist(VertexAt(buffer, v), c) == d)
  }

  /** The farthest squared distance is determined by the vertices: two values
      that both satisfy `IsMaxSqDist` are equal. */
  lemma MaxSqDistUnique(buffer: seq<real>, c: Vec3, d1: real, d2: real)
    requires Whole(buffer) && IsMaxSqDist(buffer, c, d1) && IsMaxSqDist(buffer, c, d2)
    ensures d1 == d2
  {
    if d1 != 0.0 {
      var v1: nat :| v1 < |buffer| / 3 && SqDist(VertexAt(buffer, v1), c) == d1;
      assert d1 <= d2;
    }
    if d2 != 0.0 {
      var v2: nat :| v2 < |buffer| / 3 && SqDist(VertexAt(buffer, v2), c) == d2;
      assert d2 <= d1;
    }
  }

  /** `computeBoundingSphere`: the mean of the vertices and the distance to
      the farthest one. */
  method ComputeBoundingSphere(buffer: seq<real>, sqrt: real -> real) returns (centroid: Vec3, maxDistSq: real, radius: real)
    requires Whole(buffer)
    ensures centroid == Centroid(buffer)
    ensures IsMaxSqDist(buffer, centroid, maxDistSq)
    ensures radius == sqrt(maxDistSq)
  {
    var n := |buffer| / 3;
    var sum := Origin;
    var k := 0;
    while k < n
      invariant 0 <= k <= n
      invariant sum == SumTo(buffer, k)
    {
      sum := Add(sum, VertexAt(buffer, k));
      k := k + 1;
    }
    centroid := if n == 0 then Origin else Scale(sum, 1.0 / (n as real));
    maxDistSq := 0.0;
    k := 0;
    while k < n
      invariant 0 <= k <= n
      invariant maxDistSq >= 0.0
      invariant forall v: nat :: v < k ==> SqDist(VertexAt(buffer, v), centroid) <= maxDistSq
      invariant maxDistSq == 0.0 || exists v: nat :: v < k && SqDist(VertexAt(buffer, v), centroid) == maxDistSq
    {
      var distSq := SqDist(VertexAt(buffer, k), centroid);
      if distSq > maxDistSq {
        maxDistSq := distSq;
      }
      k := k + 1;
    }
    radius := sqrt(maxDistSq);
  }

  // ---------------------------------------------------------------------
  // Normals

  /** Triangles whose corners all name a vertex of the buffer. */
  predicate TrianglesIn(buffer: seq<real>, indices: seq<nat>) {
    && |indices| % 3 == 0
    && forall i :: 0 <= i < |indices| ==> 3 * indices[i] + 3 <= |buffer|
  }

  /** The normalised `cross(b - a, c - a)` of triangle `t`. */
  function FaceNormal(buffer: seq<real>, indices: seq<nat>, t: nat, normalize: Vec3 -> Vec3): Vec3
    requires TrianglesIn(buffer, indices) && 3 * t + 3 <= |indices|
  {
    var a := VertexAt(buffer, indices[3 * t]);
    var b := VertexAt(buffer, indices[3 * t + 1]);
    var c := VertexAt(buffer, indices[3 * t + 2]);
    normalize(Cross(Sub(b, a), Sub(c, a)))
  }

  /** Vertex `v`'s accumulator after the first `j` corners: the face normal
      of every corner among them that names `v`, once per corner and without
      weighting. */
  function Accumulated(buffer: seq<real>, indices: seq<nat>, v: nat, j: nat, normalize: Vec3 -> Vec3): Vec3
    requires TrianglesIn(buffer, indices) && j <= |indices|
  {
    if j == 0 then Origin
    else
      var prev := Accumulated(buffer, indices, v, j - 1, normalize);
      if indices[j - 1] == v then Add(prev, FaceNormal(buffer, indices, (j - 1) / 3, normalize)) else prev
  }

  /** A vertex that no corner names keeps a zero accumulator. */
  lemma {:induction false} UnreferencedVertex(buffer: seq<real>, indices: seq<nat>, v: nat, j: nat, normalize: Vec3 -> Vec3)
    requires TrianglesIn(buffer, indices) && j <= |indices|
    requires forall i :: 0 <= i < j ==> indices[i] != v
    ensures Accumulated(buffer, indices, v, j, normalize) == Origin
  {
    if j > 0 {
      UnreferencedVertex(buffer, indices, v, j - 1, normalize);
    }
  }

  /** The accumulators after one more triangle. */
  lemma AccumulateTriangle(buffer: seq<real>, indices: seq<nat>, t: nat, normalize: Vec3 -> Vec3, v: nat)
    requires TrianglesIn(buffer, indices) && 3 * t + 3 <= |indices|
    ensures var n := FaceNormal(buffer, indices, t, normalize);
            var before := Accumulated(buffer, indices, v, 3 * t, normalize);
            var step1 := if indices[3 * t] == v then Add(before, n) else before;
            var step2 := if indices[3 * t + 1] == v then Add(step1, n) else step1;
            Accumulated(buffer, indices, v, 3 * t + 3, normalize) == if indices[3 * t + 2] == v then Add(step2, n) else step2
  {
    assert (3 * t) / 3 == t && (3 * t + 1) / 3 == t && (3 * t + 2) / 3 == t;
    var n := FaceNormal(buffer, indices, t, normalize);
    var before := Accumulated(buffer, indices, v, 3 * t, normalize);
    var step1 := if indices[3 * t] == v then Add(before, n) else before;
    assert Accumulated(buffer, indices, v, 3 * t + 1, normalize) == step1;
    var step2 := if indices[3 * t + 1] == v then Add(step1, n) else step1;
    assert Accumulated(buffer, indices, v, 3 * t + 2, normalize) == step2;
  }

  /** `calculateNormals`: every triangle's face normal is added to each of its
      three corners' accumulators, then every accumulator is normalised. */
  method CalculateNormals(buffer: seq<real>, indices: seq<nat>, normalize: Vec3 -> Vec3) returns (normals: seq<real>)
    requires Whole(buffer) && TrianglesIn(buffer, indices)
    ensures |normals| == |buffer|
    ensures forall v: nat :: 3 * v + 3 <= |buffer| ==>
              VertexAt(normals, v) == normalize(Accumulated(buffer, indices, v, |indices|, normalize))
  {
    var n := |buffer| / 3;
    var acc := seq(n, _ => Origin);
    var t := 0;
    while t < |indices| / 3
      invariant 0 <= t <= |indices| / 3
      invariant |acc| == n
      invariant forall v: nat :: v < n ==> acc[v] == Accumulated(buffer, indices, v, 3 * t, normalize)
    {
      var a, b, c := indices[3 * t], indices[3 * t + 1], indices[3 * t + 2];
      var normal := FaceNormal(buffer, indices, t, normalize);
      acc := acc[a := Add(acc[a], normal)];
      acc := acc[b := Add(acc[b], normal)];
      acc := acc[c := Add(acc[c], normal)];
      forall v: nat | v < n
        ensures acc[v] == Accumulated(buffer, indices, v, 3 * t + 3, normalize)
      {
        AccumulateTriangle(buffer, indices, t, normalize, v);
      }
      t := t + 1;
    }
    normals := [];
    var k := 0;
    while k < n
      invariant 0 <= k <= n
      invariant |normals| == 3 * k
      invariant forall v: nat :: v < k ==> VertexAt(normals, v) == normalize(acc[v])
    {
      var unit := normalize(acc[k]);
      normals := normals + [unit.x, unit.y, unit.z];
      k := k + 1;
    }
  }

  // ---------------------------------------------------------------------
  // Construction

  /** What the constructor needs of a model: whole vertices, and, when it
      will synthesize normals, whole triangles over those vertices. */
  predicate Buildable(data: ParseResult) {
    && Whole(data.position)
    && (data.normal.None? && data.indices.Some? ==>
          TrianglesIn(data.position, IndexBufferFor(data.vertexCount, data.indices.value).values))
  }

  /** `new Mesh(name, data, color)`. */
  method NewMesh(name: string, data: ParseResult, color: string, num: Numerics) returns (m: Mesh)
    requires Buildable(data)
    ensures m.name == name && m.color == color && m.selectable
    ensures m.count == data.vertexCount && m.position == data.position
    ensures m.indices == if data.indices.Some? then Some(IndexBufferFor(data.vertexCount, data.indices.value)) else None
    ensures data.normal.Some? ==> m.normal == data.normal
    ensures data.normal.None? && data.indices.None? ==> m.normal.None?
    ensures data.normal.None? && data.indices.Some? ==>
              && m.normal.Some?
              && |m.normal.value| == |data.position|
              && forall v: nat :: 3 * v + 3 <= |data.position| ==>
                   VertexAt(m.normal.value, v) ==
                     num.normalize(Accumulated(data.position, m.indices.value.values, v, |m.indices.value.values|, num.normalize))
    ensures m.transform == New(Centroid(data.position))
    ensures exists d :: IsMaxSqDist(data.position, Centroid(data.position), d) && m.boundingRadius == num.sqrt(d)
    ensures Valid(m, num)
  {
    var indices := if data.indices.Some? then Some(IndexBufferFor(data.vertexCount, data.indices.value)) else None;
    var centroid, maxDistSq, radius := ComputeBoundingSphere(data.position, num.sqrt);
    var normal := data.normal;
    if data.normal.None? && indices.Some? {
      var synthesized := CalculateNormals(data.position, indices.value.values, num.normalize);
      normal := Some(synthesized);
    }
    m := Mesh(name, data.vertexCount, data.position, normal, indices, New(centroid), radius, color, true);
    if data.indices.Some? {
      RewrapIndexBuffer(data.vertexCount, data.indices.value);
    }
  }

  /** The colour the constructor gives a mesh when the caller names none. */
  const DefaultColour: string := "#fff"

  /** `new Mesh(name, data)`, the colour argument left to its default. */
  method NewMeshDefaultColour(name: string, data: ParseResult, num: Numerics) returns (m: Mesh)
    requires Buildable(data)
    ensures m.name == name && m.color == DefaultColour && m.selectable
    ensures m.count == data.vertexCount && m.position == data.position
    ensures m.indices == if data.indices.Some? then Some(IndexBufferFor(data.vertexCount, data.indices.value)) else None
    ensures data.normal.Some? ==> m.normal == data.normal
    ensures m.transform == New(Centroid(data.position))
    ensures Valid(m, num)
  {
    m := NewMesh(name, data, DefaultColour, num);
  }

  /** What every constructed mesh satisfies. */
  ghost predicate Valid(m: Mesh, num: Numerics) {
    && Whole(m.position)
    && (m.indices.Some? ==> m.indices.value == IndexBufferFor(m.count, m.indices.value.values))
    && (m.indices.Some? ==> m.normal.Some?)
    && exists d :: IsMaxSqDist(m.position, Centroid(m.position), d) && m.boundingRadius == num.sqrt(d)
  }

  /** `Mesh.clone(original, newName)`: a new mesh from the original's buffers
      and colour. */
  method Clone(original: Mesh, newName: string, num: Numerics) returns (m: Mesh)
    requires Valid(original, num)
    ensures m.name == newName && m.color == original.color && m.selectable
    ensures m.count == original.count && m.position == original.position
    ensures m.normal == original.normal && m.indices == original.indices
    ensures m.transform == New(Centroid(original.position))
    ensures m.boundingRadius == original.boundingRadius
  {
    var data := ParseResult(
      original.count,
      original.position,
      original.normal,
      if original.indices.Some? then Some(original.indices.value.values) else None);
    m := NewMesh(newName, data, original.color, num);
    if original.indices.Some? {
      assert m.indices == original.indices;
    }
    var d1 :| IsMaxSqDist(original.position, Centroid(original.position), d1) && original.boundingRadius == num.sqrt(d1);
    var d2 :| IsMaxSqDist(original.position, Centroid(original.position), d2) && m.boundingRadius == num.sqrt(d2);
    MaxSqDistUnique(original.position, Centroid(original.position), d1, d2);
  }
}
