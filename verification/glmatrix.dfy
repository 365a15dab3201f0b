/** The gl-matrix matrix and quaternion routines, kept uninterpreted: a value
    of these types records which routine produced it and from what arguments.
    Two values are only ever compared when they come from the same call with
    the same arguments, so nothing below depends on what the routines compute. */
module GlMatrix {
  import opened Vectors

  datatype Quat =
    | QuatIdentity                                  // quat.create()
    | FromAxisAngle(axis: Vec3, angle: real)        // quat.setAxisAngle
    | Multiply(a: Quat, b: Quat)                    // quat.multiply
    | Normalized(q: Quat)                           // quat.normalize
    | RotatedX(q: Quat, angle: real)                // quat.rotateX
    | RotatedY(q: Quat, angle: real)                // quat.rotateY
    | RotatedZ(q: Quat, angle: real)                // quat.rotateZ

  datatype Mat4 =
    | Identity                                      // mat4.create()
    | FromRotationTranslationScaleOrigin(rotation: Quat, translation: Vec3, scale: Vec3, origin: Vec3)
    | LookAt(eye: Vec3, center: Vec3, up: Vec3)
    | Ortho(left: real, right: real, bottom: real, top: real, near: real, far: real)
    | Perspective(fovyOverPi: real, aspect: real, near: real, far: real)
}
