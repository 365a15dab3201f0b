/** A mesh's `Transform`: translation, scale, rotation and the centroid the
    rotation and scale act about, with a cached model matrix that is rebuilt
    on read only while the `modified` flag is set. The flag is set by every
    setter and never cleared; `applyRotation` does not set it. */
module Transforms {
  import opened Wrappers
  import opened Vectors
  import opened GlMatrix

  datatype Transform = Transform(
    translate: Vec3,
    scale: Vec3,
    rotate: Quat,
    matrix: Mat4,
    modified: bool,
    centroid: Vec3)

  /** `new Transform(centroid)`. */
  function New(centroid: Vec3): (t: Transform)
    ensures t.translate == Origin && t.scale == Vec3(1.0, 1.0, 1.0) && t.rotate == QuatIdentity
    ensures !t.modified && t.matrix == Identity && t.centroid == centroid
  {
    Transform(Origin, Vec3(1.0, 1.0, 1.0), QuatIdentity, Identity, false, centroid)
  }

  function SetCentroid(t: Transform, c: Vec3): Transform
  {
    t.(centroid := c, modified := true)
  }

  function SetTranslation(t: Transform, v: Vec3): Transform
  {
    t.(translate := v, modified := true)
  }

  /** `addTranslation(x, y, z)`: component-wise sum. */
  function AddTranslation(t: Transform, x: real, y: real, z: real): (t': Transform)
    ensures Sub(t'.translate, t.translate) == Vec3(x, y, z)
    ensures t' == t.(translate := t'.translate, modified := true)
  {
    t.(translate := Add(t.translate, Vec3(x, y, z)), modified := true)
  }

  /** The `scale` setter and `setScale(x, y, z)`. */
  function SetScale(t: Transform, v: Vec3): Transform
  {
    t.(scale := v, modified := true)
  }

  /** The `rotation` setter: the rotation about the normalised axis. */
  function SetRotation(t: Transform, axis: Vec3, angle: real, normalize: Vec3 -> Vec3): Transform
  {
    t.(rotate := FromAxisAngle(normalize(axis), angle), modified := true)
  }

  /** `applyRotation`: the delta is composed on the left and the result
      normalised, but the flag is left as it was. */
  function ApplyRotation(t: Transform, axis: Vec3, angle: real): Transform
  {
    t.(rotate := Normalized(Multiply(FromAxisAngle(axis, angle), t.rotate)))
  }

  /** `rotateAboutAxis`: throws for an axis name other than `x`, `y`, `z`. */
  function RotateAboutAxis(t: Transform, axis: string, angle: real): (r: Result<Transform, string>)
    ensures r.Failure? <==> axis !in {"x", "y", "z"}
    ensures r.Success? ==> r.value.modified && r.value == t.(rotate := r.value.rotate, modified := true)
  {
    if axis == "x" then Success(t.(rotate := RotatedX(t.rotate, angle), modified := true))
    else if axis == "y" then Success(t.(rotate := RotatedY(t.rotate, angle), modified := true))
    else if axis == "z" then Success(t.(rotate := RotatedZ(t.rotate, angle), modified := true))
    else Failure("invalid rotation axis: " + axis)
  }

  /** The matrix built from the current fields. */
  function Composed(t: Transform): Mat4 {
    FromRotationTranslationScaleOrigin(t.rotate, t.translate, t.scale, t.centroid)
  }

  /** The `transformMatrix` getter: the matrix it returns and the transform
      after the read (the cache refreshed, the flag untouched). */
  function TransformMatrix(t: Transform): (r: (Mat4, Transform))
    ensures r.1 == t.(matrix := r.0)
    ensures r.0 == if t.modified then Composed(t) else t.matrix
  {
    if t.modified then (Composed(t), t.(matrix := Composed(t))) else (t.matrix, t)
  }

  /** The `position` getter: the centroid carried through the model matrix;
      `apply` is `vec4.transformMat4` on `(x, y, z, 1)`. */
  function Position(t: Transform, apply: (Mat4, Vec3) -> Vec3): Vec3
  {
    apply(TransformMatrix(t).0, t.centroid)
  }

  // ---------------------------------------------------------------------
  // Sequences of operations

  datatype Op =
    | SetCentroidOp(c: Vec3)
    | SetTranslationOp(v: Vec3)
    | AddTranslationOp(x: real, y: real, z: real)
    | SetScaleOp(v: Vec3)
    | SetRotationOp(axis: Vec3, angle: real)
    | ApplyRotationOp(axis: Vec3, angle: real)
    | RotateAboutAxisOp(name: string, angle: real)
    | ReadMatrix

  function Apply(t: Transform, op: Op, normalize: Vec3 -> Vec3): Result<Transform, string> {
    match op
    case SetCentroidOp(c) => Success(SetCentroid(t, c))
    case SetTranslationOp(v) => Success(SetTranslation(t, v))
    case AddTranslationOp(x, y, z) => Success(AddTranslation(t, x, y, z))
    case SetScaleOp(v) => Success(SetScale(t, v))
    case SetRotationOp(axis, angle) => Success(SetRotation(t, axis, angle, normalize))
    case ApplyRotationOp(axis, angle) => Success(ApplyRotation(t, axis, angle))
    case RotateAboutAxisOp(name, angle) => RotateAboutAxis(t, name, angle)
    case ReadMatrix => Success(TransformMatrix(t).1)
  }

  function ApplyAll(t: Transform, ops: seq<Op>, normalize: Vec3 -> Vec3): Result<Transform, string>
    decreases |ops|
  {
    if ops == [] then Success(t)
    else match Apply(t, ops[0], normalize)
      case Failure(e) => Failure(e)
      case Success(t') => ApplyAll(t', ops[1..], normalize)
  }

  /** The operations that set the flag. */
  predicate Marks(op: Op) {
    !op.ApplyRotationOp? && !op.ReadMatrix?
  }

  /** Each setter stores its value, sets the flag and changes nothing else;
      `applyRotation` changes only the rotation. */
  lemma Setters(t: Transform, v: Vec3, axis: Vec3, angle: real, normalize: Vec3 -> Vec3)
    ensures var t' := SetCentroid(t, v);
            t'.centroid == v && t'.modified && t'.translate == t.translate && t'.scale == t.scale && t'.rotate == t.rotate && t'.matrix == t.matrix
    ensures var t' := SetTranslation(t, v);
            t'.translate == v && t'.modified && t'.centroid == t.centroid && t'.scale == t.scale && t'.rotate == t.rotate && t'.matrix == t.matrix
    ensures var t' := SetScale(t, v);
            t'.scale == v && t'.modified && t'.centroid == t.centroid && t'.translate == t.translate && t'.rotate == t.rotate && t'.matrix == t.matrix
    ensures var t' := SetRotation(t, axis, angle, normalize);
            t'.rotate == FromAxisAngle(normalize(axis), angle) && t'.modified
            && t'.centroid == t.centroid && t'.translate == t.translate && t'.scale == t.scale && t'.matrix == t.matrix
    ensures var t' := ApplyRotation(t, axis, angle);
            t'.rotate == Normalized(Multiply(FromAxisAngle(axis, angle), t.rotate))
            && t'.modified == t.modified && t'.centroid == t.centroid && t'.translate == t.translate
            && t'.scale == t.scale && t'.matrix == t.matrix
  {
  }

  /** The cache rule: an unmodified transform still holds the identity it
      was built with. */
  predicate Valid(t: Transform) {
    !t.modified ==> t.matrix == Identity
  }

  /** Every operation keeps the cache rule; the flag, once set, stays set,
      and it is set by exactly the marking operations. */
  lemma ApplyValid(t: Transform, op: Op, normalize: Vec3 -> Vec3)
    requires Valid(t)
    ensures var r := Apply(t, op, normalize);
            r.Success? ==> Valid(r.value) && (r.value.modified <==> t.modified || Marks(op))
  {
  }

  /** After any run of operations that succeeds, the flag is set exactly when
      one of them was a marking operation, and a transform that only ever saw
      `applyRotation` and matrix reads still reports the identity matrix,
      whatever rotation it now holds. */
  lemma {:induction false} FlagAfterOps(t: Transform, ops: seq<Op>, normalize: Vec3 -> Vec3)
    requires Valid(t)
    ensures var r := ApplyAll(t, ops, normalize);
            r.Success? ==>
              && Valid(r.value)
              && (r.value.modified <==> t.modified || exists i :: 0 <= i < |ops| && Marks(ops[i]))
    decreases |ops|
  {
    if ops != [] {
      ApplyValid(t, ops[0], normalize);
      var r := Apply(t, ops[0], normalize);
      if r.Success? {
        FlagAfterOps(r.value, ops[1..], normalize);
        if ApplyAll(t, ops, normalize).Success? {
          assert forall i :: 0 < i < |ops| ==> ops[i] == ops[1..][i - 1];
          assert (exists i :: 0 <= i < |ops| && Marks(ops[i])) <==>
                 Marks(ops[0]) || exists i :: 0 <= i < |ops| - 1 && Marks(ops[1..][i]);
        }
      }
    }
  }

  /** The rotation a run of `applyRotation`s leaves, each delta composed on
      the left of the last and normalised; other operations are skipped. */
  function RotationAfter(q: Quat, ops: seq<Op>): Quat
    decreases |ops|
  {
    if ops == [] then q
    else if ops[0].ApplyRotationOp? then
      RotationAfter(Normalized(Multiply(FromAxisAngle(ops[0].axis, ops[0].angle), q)), ops[1..])
    else RotationAfter(q, ops[1..])
  }

  /** On a transform no setter has touched, any run of `applyRotation`s and
      matrix reads succeeds, turns the rotation as `RotationAfter` says and
      changes nothing else, yet every later read returns the cached matrix
      the transform started with: two rotations applied to a fresh transform,
      for instance, leave the identity matrix in place. */
  lemma {:induction false} ApplyRotationInvisible(t: Transform, ops: seq<Op>, normalize: Vec3 -> Vec3)
    requires !t.modified
    requires forall i :: 0 <= i < |ops| ==> !Marks(ops[i])
    ensures ApplyAll(t, ops, normalize).Success?
    ensures ApplyAll(t, ops, normalize).value == t.(rotate := RotationAfter(t.rotate, ops))
    ensures TransformMatrix(ApplyAll(t, ops, normalize).value).0 == t.matrix
    decreases |ops|
  {
    if ops != [] {
      var t' := Apply(t, ops[0], normalize).value;
      assert !Marks(ops[0]);
      assert forall i :: 0 <= i < |ops| - 1 ==> ops[1..][i] == ops[i + 1];
      ApplyRotationInvisible(t', ops[1..], normalize);
    }
  }

  /** A second read of the matrix, with no operation in between, returns
      what the first read returned and leaves the transform as the first read
      left it. */
  lemma ReadStable(t: Transform)
    ensures TransformMatrix(TransformMatrix(t).1) == TransformMatrix(t)
  {
  }

  /** Once modified, reading the matrix gives the composition of the current
      fields, so a read after any setter sees that setter's value. */
  lemma ReadAfterSet(t: Transform, v: Vec3)
    ensures TransformMatrix(SetTranslation(t, v)).0 ==
              FromRotationTranslationScaleOrigin(t.rotate, v, t.scale, t.centroid)
  {
  }
}
