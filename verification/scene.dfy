/** The `Scene`: the user's meshes, the axis meshes, the animation points and
    the active mesh, with `add`, `remove` and the `drawables` list.

    The source compares meshes by reference; the model compares values, so
    two equal meshes stand for the same object. */
module Scenes {
  import opened Wrappers

  datatype Scene<M> = Scene(meshes: seq<M>, axes: seq<M>, points: seq<M>, activeMesh: Option<M>)

  /** `new Scene()`. */
  function Empty<M>(): (s: Scene<M>)
    ensures s.meshes == [] && s.axes == [] && s.points == [] && s.activeMesh.None?
  {
    Scene([], [], [], None)
  }

  /** `add(mesh)`: a present mesh is appended; `null` changes nothing. */
  function Add<M>(s: Scene<M>, mesh: Option<M>): (s': Scene<M>)
    ensures mesh.None? ==> s' == s
    ensures mesh.Some? ==> s'.meshes == s.meshes + [mesh.value]
    ensures s'.axes == s.axes && s'.points == s.points && s'.activeMesh == s.activeMesh
  {
    if mesh.Some? then s.(meshes := s.meshes + [mesh.value]) else s
  }

  /** `Array.prototype.indexOf`: the first position holding `x`, or -1. */
  function IndexOf<M(==)>(xs: seq<M>, x: M): (i: int)
    ensures -1 <= i < |xs|
    ensures i == -1 <==> x !in xs
    ensures i >= 0 ==> xs[i] == x && forall j :: 0 <= j < i ==> xs[j] != x
  {
    if |xs| == 0 then -1
    else if xs[0] == x then 0
    else
      var k := IndexOf(xs[1..], x);
      if k == -1 then -1 else k + 1
  }

  /** `splice(i, 1)` for its effect on the array. */
  function SpliceOne<M>(xs: seq<M>, i: nat): (r: seq<M>)
    requires i < |xs|
    ensures |r| == |xs| - 1
    ensures forall j :: 0 <= j < i ==> r[j] == xs[j]
    ensures forall j :: i <= j < |r| ==> r[j] == xs[j + 1]
  {
    xs[..i] + xs[i + 1..]
  }

  /** `remove(mesh)`: the first occurrence goes; a `null` or absent mesh
      changes nothing. */
  function Remove<M(==)>(s: Scene<M>, mesh: Option<M>): (s': Scene<M>)
    ensures mesh.None? || mesh.value !in s.meshes ==> s' == s
    ensures mesh.Some? && mesh.value in s.meshes ==>
              && |s'.meshes| == |s.meshes| - 1
              && multiset(s'.meshes) == multiset(s.meshes) - multiset{mesh.value}
    ensures s'.axes == s.axes && s'.points == s.points && s'.activeMesh == s.activeMesh
  {
    if mesh.None? then s
    else
      var i := IndexOf(s.meshes, mesh.value);
      if i > -1 then
        assert s.meshes == s.meshes[..i] + [s.meshes[i]] + s.meshes[i + 1..];
        s.(meshes := SpliceOne(s.meshes, i))
      else s
  }

  /** The `drawables` getter: axes, then points, then meshes. */
  function Drawables<M>(s: Scene<M>): (d: seq<M>)
    ensures |d| == |s.axes| + |s.points| + |s.meshes|
    ensures d[..|s.axes|] == s.axes
    ensures d[|s.axes|..|s.axes| + |s.points|] == s.points
    ensures d[|s.axes| + |s.points|..] == s.meshes
  {
    s.axes + s.points + s.meshes
  }

  // ---------------------------------------------------------------------
  // Properties

  /** `remove` takes out the first occurrence and keeps everything before
      and after it in order. */
  lemma RemoveFirst<M>(s: Scene<M>, m: M, i: nat)
    requires i < |s.meshes| && s.meshes[i] == m
    requires forall j :: 0 <= j < i ==> s.meshes[j] != m
    ensures Remove(s, Some(m)).meshes == s.meshes[..i] + s.meshes[i + 1..]
  {
    var k := IndexOf(s.meshes, m);
    assert k >= 0 && s.meshes[k] == m;
    assert k == i;
  }

  /** Removing a mesh just added undoes the addition when the mesh was not
      already in the scene. */
  lemma RemoveUndoesAdd<M>(s: Scene<M>, m: M)
    requires m !in s.meshes
    ensures Remove(Add(s, Some(m)), Some(m)) == s
  {
    var s1 := Add(s, Some(m));
    RemoveFirst(s1, m, |s.meshes|);
    assert s1.meshes[..|s.meshes|] == s.meshes;
  }

  /** When the mesh was already there, the earlier copy goes and the one
      just appended stays. */
  lemma RemoveAfterDuplicateAdd<M>(s: Scene<M>, m: M)
    requires m in s.meshes
    ensures Remove(Add(s, Some(m)), Some(m)).meshes == Remove(s, Some(m)).meshes + [m]
  {
    var i := IndexOf(s.meshes, m);
    var s1 := Add(s, Some(m));
    RemoveFirst(s1, m, i);
    RemoveFirst(s, m, i);
    assert s1.meshes[..i] == s.meshes[..i];
    assert s1.meshes[i + 1..] == s.meshes[i + 1..] + [m];
  }

  /** Adding a mesh makes it the last drawable. */
  lemma AddedIsLastDrawable<M>(s: Scene<M>, m: M)
    ensures var d := Drawables(Add(s, Some(m)));
            |d| == |Drawables(s)| + 1 && d[|d| - 1] == m && d[..|d| - 1] == Drawables(s)
  {
  }
}
