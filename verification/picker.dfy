/** Click-to-select in the top-down view: the click becomes a ray from the
    near plane, and the selectable mesh whose bounding sphere the ray passes
    through, nearest along the ray, becomes the active mesh.

    The unprojection of the click through the inverted view-projection
    matrix is not modelled: the handler receives the ray, or `None` when the
    matrix cannot be inverted. `sqrt` and the matrix application behind a
    mesh's `position` are parameters. */
module Picker {
  import opened Wrappers
  import opened Vectors
  import opened GlMatrix
  import opened Transforms
  import opened Meshes

  /** `worldNear` and the normalised `rayDir`. */
  datatype Ray = Ray(near: Vec3, dir: Vec3)

  /** The projection parameter `t` of the mesh centre onto the ray. */
  function RayParam(m: Mesh, ray: Ray, apply: (Mat4, Vec3) -> Vec3): real {
    Dot(Sub(Position(m.transform, apply), ray.near), ray.dir)
  }

  /** The candidate test: in front of the ray start, selectable, and the
      ray's closest point to the centre strictly inside the bounding
      sphere. */
  predicate Hit(m: Mesh, ray: Ray, apply: (Mat4, Vec3) -> Vec3, sqrt: real -> real) {
    var t := RayParam(m, ray, apply);
    var closestPoint := Add(ray.near, Scale(ray.dir, t));
    && t >= 0.0
    && m.selectable
    && sqrt(SqDist(closestPoint, Position(m.transform, apply))) < m.boundingRadius
  }

  /** Mesh `k` is the one the loop keeps: a candidate with the least `t`,
      and no earlier candidate ties with it. */
  predicate IsClosest(meshes: seq<Mesh>, k: nat, ray: Ray, apply: (Mat4, Vec3) -> Vec3, sqrt: real -> real) {
    && k < |meshes|
    && Hit(meshes[k], ray, apply, sqrt)
    && (forall j :: 0 <= j < |meshes| && Hit(meshes[j], ray, apply, sqrt) ==>
          RayParam(meshes[k], ray, apply) <= RayParam(meshes[j], ray, apply))
    && (forall j :: 0 <= j < k && Hit(meshes[j], ray, apply, sqrt) ==>
          RayParam(meshes[k], ray, apply) < RayParam(meshes[j], ray, apply))
  }

  /** The selection loop of `onClick`: `closestDistance` starts at infinity
      (`None`), a mesh behind the ray start is skipped, and a candidate
      replaces the current choice only when strictly nearer. */
  method ClosestHit(meshes: seq<Mesh>, ray: Ray, apply: (Mat4, Vec3) -> Vec3, sqrt: real -> real)
    returns (closest: Option<nat>)
    ensures closest.None? <==> forall j :: 0 <= j < |meshes| ==> !Hit(meshes[j], ray, apply, sqrt)
    ensures closest.Some? ==> IsClosest(meshes, closest.value, ray, apply, sqrt)
  {
    closest := None;
    var closestDistance: Option<real> := None;
    var i := 0;
    while i < |meshes|
      invariant 0 <= i <= |meshes|
      invariant closest.None? <==> forall j :: 0 <= j < i ==> !Hit(meshes[j], ray, apply, sqrt)
      invariant closest.None? <==> closestDistance.None?
      invariant closest.Some? ==>
                  && closest.value < i
                  && Hit(meshes[closest.value], ray, apply, sqrt)
                  && closestDistance == Some(RayParam(meshes[closest.value], ray, apply))
                  && (forall j :: 0 <= j < i && Hit(meshes[j], ray, apply, sqrt) ==>
                        closestDistance.value <= RayParam(meshes[j], ray, apply))
                  && (forall j :: 0 <= j < closest.value && Hit(meshes[j], ray, apply, sqrt) ==>
                        closestDistance.value < RayParam(meshes[j], ray, apply))
    {
      var mesh := meshes[i];
      var position := Position(mesh.transform, apply);
      var t := Dot(Sub(position, ray.near), ray.dir);
      if t < 0.0 {
        i := i + 1;
        continue;
      }
      var closestPoint := Add(ray.near, Scale(ray.dir, t));
      var distanceToCenter := sqrt(SqDist(closestPoint, position));
      if mesh.selectable && distanceToCenter < mesh.boundingRadius
         && (closestDistance.None? || t < closestDistance.value) {
        closestDistance := Some(t);
        closest := Some(i);
      }
      i := i + 1;
    }
  }

  /** The rule picks at most one mesh: two indices that both satisfy it are
      the same. */
  lemma ClosestUnique(meshes: seq<Mesh>, k1: nat, k2: nat, ray: Ray, apply: (Mat4, Vec3) -> Vec3, sqrt: real -> real)
    requires IsClosest(meshes, k1, ray, apply, sqrt) && IsClosest(meshes, k2, ray, apply, sqrt)
    ensures k1 == k2
  {
  }

  /** `onClick`: the new active mesh. Perspective mode, a singular matrix
      (`ray` is `None`) and a click that hits nothing all leave it as it
      was. */
  method OnClick(perspectiveMode: bool, ray: Option<Ray>, meshes: seq<Mesh>, activeMesh: Option<Mesh>,
                 apply: (Mat4, Vec3) -> Vec3, sqrt: real -> real)
    returns (active: Option<Mesh>)
    ensures perspectiveMode || ray.None? ==> active == activeMesh
    ensures !perspectiveMode && ray.Some? ==>
              if exists k :: 0 <= k < |meshes| && Hit(meshes[k], ray.value, apply, sqrt)
              then exists k: nat :: IsClosest(meshes, k, ray.value, apply, sqrt) && active == Some(meshes[k])
              else active == activeMesh
  {
    if perspectiveMode || ray.None? {
      return activeMesh;
    }
    var closest := ClosestHit(meshes, ray.value, apply, sqrt);
    if closest.Some? {
      active := Some(meshes[closest.value]);
    } else {
      active := activeMesh;
    }
  }
}
