/** The perspective `Camera`: position, target and up vector, a view matrix
    recomputed on read only while the `modified` flag is set, and a
    projection fixed at construction. The matrix routines are the symbolic
    ones of `GlMatrix`. */
module Cameras {
  import opened Vectors
  import opened GlMatrix

  datatype Camera = Camera(
    position: Vec3,
    target: Vec3,
    up: Vec3,
    view: Mat4,
    projection: Mat4,
    modified: bool)

  /** `mat4.perspective(out, Math.PI / 4, 1, 0.1, 100)`, the field of view
      written as a fraction of pi. */
  const DefaultProjection := Perspective(0.25, 1.0, 0.1, 100.0)

  /** `new Camera()`: the view is not yet computed, so the flag is set. */
  function New(): (c: Camera)
    ensures c.position == Vec3(0.0, 0.0, 5.0) && c.target == Origin && c.up == Vec3(0.0, 1.0, 0.0)
    ensures c.modified && c.projection == DefaultProjection
  {
    Camera(Vec3(0.0, 0.0, 5.0), Origin, Vec3(0.0, 1.0, 0.0), Identity, DefaultProjection, true)
  }

  function SetPosition(c: Camera, v: Vec3): Camera {
    c.(position := v, modified := true)
  }

  function SetTarget(c: Camera, v: Vec3): Camera {
    c.(target := v, modified := true)
  }

  function SetUp(c: Camera, v: Vec3): Camera {
    c.(up := v, modified := true)
  }

  /** The cache rule: a camera whose flag is clear holds the view of its
      current fields. */
  predicate Valid(c: Camera) {
    !c.modified ==> c.view == LookAt(c.position, c.target, c.up)
  }

  /** The `viewMatrix` getter: the matrix it returns and the camera after
      the read. From a camera that keeps the cache rule, the matrix is the
      view of the current fields, and the camera after the read has its flag
      clear and nothing else changed but the cache. */
  function ViewMatrix(c: Camera): (r: (Mat4, Camera))
    ensures Valid(c) ==> r.0 == LookAt(c.position, c.target, c.up) && Valid(r.1)
    ensures !r.1.modified && r.1.view == r.0
    ensures r.1 == c.(view := r.0, modified := false)
  {
    if c.modified then
      var v := LookAt(c.position, c.target, c.up);
      (v, c.(view := v, modified := false))
    else (c.view, c)
  }

  /** The `projectionMatrix` getter. */
  function ProjectionMatrix(c: Camera): Mat4 {
    c.projection
  }

  // ---------------------------------------------------------------------
  // Sequences of operations

  datatype Op =
    | SetPositionOp(v: Vec3)
    | SetTargetOp(v: Vec3)
    | SetUpOp(v: Vec3)
    | ReadView

  function Apply(c: Camera, op: Op): Camera {
    match op
    case SetPositionOp(v) => SetPosition(c, v)
    case SetTargetOp(v) => SetTarget(c, v)
    case SetUpOp(v) => SetUp(c, v)
    case ReadView => ViewMatrix(c).1
  }

  function ApplyAll(c: Camera, ops: seq<Op>): Camera
    decreases |ops|
  {
    if ops == [] then c else ApplyAll(Apply(c, ops[0]), ops[1..])
  }

  /** Each setter stores its value, sets the flag and changes nothing else. */
  lemma Setters(c: Camera, v: Vec3)
    ensures var c' := SetPosition(c, v);
            c'.position == v && c'.modified && c'.target == c.target && c'.up == c.up
            && c'.view == c.view && c'.projection == c.projection
    ensures var c' := SetTarget(c, v);
            c'.target == v && c'.modified && c'.position == c.position && c'.up == c.up
            && c'.view == c.view && c'.projection == c.projection
    ensures var c' := SetUp(c, v);
            c'.up == v && c'.modified && c'.position == c.position && c'.target == c.target
            && c'.view == c.view && c'.projection == c.projection
  {
  }

  /** From a camera that keeps the cache rule, any run of operations keeps
      the rule and the projection, so every read of `viewMatrix` sees the view of the fields
      as they are at that moment. */
  lemma {:induction false} CacheCoherent(c: Camera, ops: seq<Op>)
    requires Valid(c)
    ensures var c' := ApplyAll(c, ops);
            && Valid(c')
            && c'.projection == c.projection
            && ViewMatrix(c').0 == LookAt(c'.position, c'.target, c'.up)
    decreases |ops|
  {
    if ops != [] {
      CacheCoherent(Apply(c, ops[0]), ops[1..]);
    }
  }

  /** The new camera keeps the cache rule, and its projection never
      changes. */
  lemma NewCamera(ops: seq<Op>)
    ensures Valid(New())
    ensures ApplyAll(New(), ops).projection == DefaultProjection
  {
    CacheCoherent(New(), ops);
  }

  /** A second read without a setter in between returns the same matrix and
      leaves the camera as the first read left it. */
  lemma ReadTwice(c: Camera)
    ensures ViewMatrix(ViewMatrix(c).1) == ViewMatrix(c)
  {
  }
}
