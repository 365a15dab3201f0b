/** The top-down `OrthographicCamera`: extents derived from the zoom and the
    canvas aspect ratio, panning, centring on a mesh and resetting. The
    projection and view matrices are the symbolic ones of `GlMatrix` and are
    rebuilt by each operation, as the source does in place. */
module OrthoCameras {
  import opened Vectors
  import opened GlMatrix

  datatype OrthoCamera = OrthoCamera(
    width: real,
    height: real,
    left: real,
    right: real,
    top: real,
    bottom: real,
    near: real,
    far: real,
    position: Vec3,
    target: Vec3,
    up: Vec3,
    zoom: real,
    projection: Mat4,
    view: Mat4)

  const DefaultZoom := 3.0
  const MinZoom := 0.1
  const DefaultPosition := Vec3(0.0, 0.0, 100.0)
  const DefaultUp := Vec3(0.0, 1.0, 0.0)

  /** `updateProjectionMatrix()`: half the visible height is `50 / zoom`,
      and half the width that times the aspect ratio. The divisions need a
      non-zero height and zoom. */
  function UpdateProjectionMatrix(c: OrthoCamera): (c': OrthoCamera)
    requires c.height != 0.0 && c.zoom != 0.0
    ensures c'.top * c.zoom == 50.0
    ensures c'.bottom == -c'.top && c'.left == -c'.right
    ensures c'.right * c.height == c'.top * c.width
    ensures c'.projection == Ortho(c'.left, c'.right, c'.bottom, c'.top, c'.near, c'.far)
    ensures c' == c.(left := c'.left, right := c'.right, top := c'.top, bottom := c'.bottom, projection := c'.projection)
  {
    var aspect := c.width / c.height;
    var scale := 50.0 / c.zoom;
    var left := -scale * aspect;
    var right := scale * aspect;
    var bottom := -scale;
    var top := scale;
    c.(left := left, right := right, bottom := bottom, top := top,
       projection := Ortho(left, right, bottom, top, c.near, c.far))
  }

  /** `updateViewMatrix()`. */
  function UpdateViewMatrix(c: OrthoCamera): OrthoCamera {
    c.(view := LookAt(c.position, c.target, c.up))
  }

  /** The camera's matrices and extents agree with its fields. */
  predicate Consistent(c: OrthoCamera) {
    && c.height != 0.0 && c.zoom >= MinZoom
    && c.top * c.zoom == 50.0 && c.bottom == -c.top
    && c.right * c.height == c.top * c.width && c.left == -c.right
    && c.projection == Ortho(c.left, c.right, c.bottom, c.top, c.near, c.far)
    && c.view == LookAt(c.position, c.target, c.up)
  }

  /** `new OrthographicCamera(width, height)`. */
  function New(width: real, height: real): (c: OrthoCamera)
    requires height != 0.0
    ensures Consistent(c)
    ensures c.width == width && c.height == height && c.zoom == DefaultZoom
    ensures c.near == -1000.0 && c.far == 1000.0
    ensures c.position == DefaultPosition && c.target == Origin && c.up == DefaultUp
  {
    var c := OrthoCamera(width, height, 0.0, 0.0, 0.0, 0.0, -1000.0, 1000.0,
                         DefaultPosition, Origin, DefaultUp, DefaultZoom, Identity, Identity);
    UpdateViewMatrix(UpdateProjectionMatrix(c))
  }

  /** `resize(width, height)`. */
  function Resize(c: OrthoCamera, width: real, height: real): (c': OrthoCamera)
    requires height != 0.0 && c.zoom != 0.0
    ensures Consistent(c) ==> Consistent(c')
    ensures c'.width == width && c'.height == height
    ensures c'.zoom == c.zoom && c'.position == c.position && c'.target == c.target && c'.up == c.up
  {
    UpdateProjectionMatrix(c.(width := width, height := height))
  }

  /** `setZoom(zoom)`: the zoom never drops below 0.1. */
  function SetZoom(c: OrthoCamera, zoom: real): (c': OrthoCamera)
    requires c.height != 0.0
    ensures Consistent(c) ==> Consistent(c')
    ensures c'.zoom >= MinZoom
    ensures zoom >= MinZoom ==> c'.zoom == zoom
    ensures zoom < MinZoom ==> c'.zoom == MinZoom
    ensures c'.position == c.position && c'.target == c.target && c'.up == c.up
    ensures c'.width == c.width && c'.height == c.height
  {
    var z := if MinZoom >= zoom then MinZoom else zoom;
    UpdateProjectionMatrix(c.(zoom := z))
  }

  /** `pan(dx, dy)`: position and target move together in the view plane. */
  function Pan(c: OrthoCamera, dx: real, dy: real): (c': OrthoCamera)
    ensures Consistent(c) ==> Consistent(c')
    ensures Sub(c'.position, c.position) == Vec3(dx, dy, 0.0)
    ensures Sub(c'.target, c.target) == Vec3(dx, dy, 0.0)
    ensures Sub(c'.target, c'.position) == Sub(c.target, c.position)
    ensures c'.zoom == c.zoom && c'.up == c.up && c'.projection == c.projection
  {
    var p := c.position;
    var t := c.target;
    UpdateViewMatrix(c.(position := Vec3(p.x + dx, p.y + dy, p.z), target := Vec3(t.x + dx, t.y + dy, t.z)))
  }

  /** `lookAt(mesh)` given the mesh's position: the target becomes the mesh
      position, and the camera position takes its x and z coordinates while
      keeping its own y. */
  function LookAtMesh(c: OrthoCamera, meshPosition: Vec3): (c': OrthoCamera)
    ensures Consistent(c) ==> Consistent(c')
    ensures c'.target == meshPosition
    ensures c'.position == Vec3(meshPosition.x, c.position.y, meshPosition.z)
    ensures c'.zoom == c.zoom && c'.up == c.up && c'.projection == c.projection
  {
    var target := meshPosition;
    UpdateViewMatrix(c.(target := target, position := Vec3(target.x, c.position.y, target.z)))
  }

  /** `reset()`: zoom, position, target and up go back to their initial
      values; the size and the depth range are kept. */
  function Reset(c: OrthoCamera): (c': OrthoCamera)
    requires c.height != 0.0
    ensures Consistent(c')
    ensures c'.zoom == DefaultZoom && c'.position == DefaultPosition && c'.target == Origin && c'.up == DefaultUp
    ensures c'.width == c.width && c'.height == c.height && c'.near == c.near && c'.far == c.far
  {
    UpdateViewMatrix(UpdateProjectionMatrix(
      c.(zoom := DefaultZoom, position := DefaultPosition, target := Origin, up := DefaultUp)))
  }

  // ---------------------------------------------------------------------
  // Properties

  /** A reset camera is indistinguishable from a new one of the same size. */
  lemma ResetIsNew(c: OrthoCamera)
    requires c.height != 0.0 && c.near == -1000.0 && c.far == 1000.0
    ensures Reset(c) == New(c.width, c.height)
  {
  }

  /** Panning back by the opposite amounts restores the camera. */
  lemma PanBack(c: OrthoCamera, dx: real, dy: real)
    requires Consistent(c)
    ensures Pan(Pan(c, dx, dy), -dx, -dy) == c
  {
  }

  datatype Op =
    | ResizeOp(width: real, height: real)
    | SetZoomOp(zoom: real)
    | PanOp(dx: real, dy: real)
    | LookAtOp(meshPosition: Vec3)
    | ResetOp

  /** The source never divides by a zero height: every resize is to a
      canvas of non-zero height. */
  predicate Sized(ops: seq<Op>) {
    forall i :: 0 <= i < |ops| && ops[i].ResizeOp? ==> ops[i].height != 0.0
  }

  /** One operation, `lookAt` as the source writes it. */
  function Apply(c: OrthoCamera, op: Op): OrthoCamera
    requires Consistent(c) && (op.ResizeOp? ==> op.height != 0.0)
  {
    match op
    case ResizeOp(w, h) => Resize(c, w, h)
    case SetZoomOp(z) => SetZoom(c, z)
    case PanOp(dx, dy) => Pan(c, dx, dy)
    case LookAtOp(m) => LookAtMesh(c, m)
    case ResetOp => Reset(c)
  }

  function ApplyAll(c: OrthoCamera, ops: seq<Op>): OrthoCamera
    requires Consistent(c) && Sized(ops)
    decreases |ops|
  {
    if ops == [] then c
    else
      OpConsistent(c, ops[0]);
      ApplyAll(Apply(c, ops[0]), ops[1..])
  }

  /** One operation keeps the camera consistent and the depth range as it
      was; only `reset` writes the up vector, and it writes `(0, 1, 0)`. */
  lemma OpConsistent(c: OrthoCamera, op: Op)
    requires Consistent(c) && (op.ResizeOp? ==> op.height != 0.0)
    ensures Consistent(Apply(c, op))
    ensures Apply(c, op).up == (if op.ResetOp? then DefaultUp else c.up)
    ensures Apply(c, op).near == c.near && Apply(c, op).far == c.far
  {
  }

  /** Any run of operations from a new camera keeps its extents matched to
      the zoom and aspect ratio, keeps the zoom at least 0.1, keeps up as
      `(0, 1, 0)` and keeps the depth range `[-1000, 1000]`. */
  lemma {:induction false} RunConsistent(c: OrthoCamera, ops: seq<Op>)
    requires Consistent(c) && Sized(ops)
    requires c.up == DefaultUp
    ensures var c' := ApplyAll(c, ops);
            Consistent(c') && c'.zoom >= MinZoom && c'.up == DefaultUp && c'.near == c.near && c'.far == c.far
    decreases |ops|
  {
    if ops != [] {
      OpConsistent(c, ops[0]);
      assert Sized(ops[1..]) by {
        forall i | 0 <= i < |ops[1..]| && ops[1..][i].ResizeOp?
          ensures ops[1..][i].height != 0.0
        {
          assert ops[1..][i] == ops[i + 1];
        }
      }
      RunConsistent(Apply(c, ops[0]), ops[1..]);
    }
  }

  // ---------------------------------------------------------------------
  // `lookAt` moves the eye to the target's depth

  /** As written, `lookAt` leaves the eye and the target differing only in
      y, so the view direction is parallel to the up vector `(0, 1, 0)` that
      every camera keeps: their cross product, the view's x axis, is zero,
      and `mat4.lookAt` has no well-defined orientation to build. */
  lemma LookAtAlongUp(c: OrthoCamera, meshPosition: Vec3)
    requires c.up == DefaultUp
    ensures var c' := LookAtMesh(c, meshPosition);
            Cross(Sub(c'.target, c'.position), c'.up) == Origin
  {
  }

  /** Centring on a mesh as a top-down camera does: x and y are copied and
      the eye keeps its height above the mesh. */
  function CenteredLookAt(c: OrthoCamera, meshPosition: Vec3): (c': OrthoCamera)
    ensures Consistent(c) ==> Consistent(c')
    ensures c'.target == meshPosition
    ensures c'.position == Vec3(meshPosition.x, meshPosition.y, c.position.z)
    ensures c'.zoom == c.zoom && c'.up == c.up && c'.projection == c.projection
  {
    var target := meshPosition;
    UpdateViewMatrix(c.(target := target, position := Vec3(target.x, target.y, c.position.z)))
  }

  /** The centred version looks straight down the z axis at the mesh, so its
      view direction is never parallel to up while the eye is above or below
      the mesh. */
  lemma CenteredLookAtFacesMesh(c: OrthoCamera, meshPosition: Vec3)
    requires c.up == DefaultUp
    ensures var c' := CenteredLookAt(c, meshPosition);
            && Sub(c'.target, c'.position) == Vec3(0.0, 0.0, meshPosition.z - c.position.z)
            && (c.position.z != meshPosition.z <==> Cross(Sub(c'.target, c'.position), c'.up) != Origin)
  {
    var c' := CenteredLookAt(c, meshPosition);
    var d := meshPosition.z - c.position.z;
    assert Sub(c'.target, c'.position) == Vec3(0.0, 0.0, d);
    assert Cross(Vec3(0.0, 0.0, d), DefaultUp) == Vec3(-d, 0.0, 0.0);
  }

  /** From the initial camera, centring on a mesh at the origin puts the eye
      on the target under the source's rule, and 100 units above it under
      the centred rule. */
  lemma LookAtFromStart(width: real, height: real)
    requires height != 0.0
    ensures LookAtMesh(New(width, height), Origin).position == Origin
    ensures CenteredLookAt(New(width, height), Origin).position == DefaultPosition
  {
  }
}
