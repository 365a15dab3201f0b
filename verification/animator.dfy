/** The point-to-point animation: a quadratic path through the active mesh's
    position and the first two placed points, walked frame by frame until its
    parameter passes 1, when the two newest points are dropped and the active
    mesh is cleared.

    The Tweakpane panel, the point-placing clicks and `requestAnimationFrame`
    are not modelled: a frame is one application of `Animate`, given the speed
    the slider holds when that frame runs, since the source reads it afresh on
    every frame. */
module Animator {
  import opened Wrappers
  import opened Vectors

  /** The coefficients of `p(t) = a t^2 + b t + c`. */
  datatype Coefficients = Coefficients(a: Vec3, b: Vec3, c: Vec3)

  /** The `getCoord` closure: `a t^2 + b t + c`, built in the source's order. */
  function Curve(k: Coefficients, t: real): Vec3 {
    Add(Add(Scale(k.a, t * t), Scale(k.b, t)), k.c)
  }

  /** Any quadratic starts at `c` and ends at `a + b + c`. */
  lemma CurveEnds(k: Coefficients)
    ensures Curve(k, 0.0) == k.c
    ensures Curve(k, 1.0) == Add(Add(k.a, k.b), k.c)
  {
    assert Scale(k.a, 0.0 * 0.0) == Origin && Scale(k.b, 0.0) == Origin;
    assert Scale(k.a, 1.0 * 1.0) == k.a && Scale(k.b, 1.0) == k.b;
  }

  /** One coordinate of the fit: with `a` the `right / denom` of the source
      and `b = (p2 - p0) - a`, the quadratic passes through `p1` at `t1`. */
  lemma ScalarFit(p0: real, p1: real, p2: real, t1: real)
    requires t1 * t1 - t1 != 0.0
    ensures var d := t1 * t1 - t1;
            var a := ((p1 - p0) - (p2 - p0) * t1) * (1.0 / d);
            var b := (p2 - p0) - a;
            a * (t1 * t1) + b * t1 + p0 == p1
  {
    var d := t1 * t1 - t1;
    var r := (p1 - p0) - (p2 - p0) * t1;
    var a := r * (1.0 / d);
    assert a * d == r;
    calc {
      a * (t1 * t1) + ((p2 - p0) - a) * t1 + p0;
      a * d + (p2 - p0) * t1 + p0;
      r + (p2 - p0) * t1 + p0;
      p1;
    }
  }

  /** `solveQuadraticCoefficients(p0, p1, p2, t1)`: the quadratic that starts
      at `p0`, ends at `p2` when `t = 1` and passes `p1` when `t = t1`. The
      division by `t1^2 - t1` needs that denominator non-zero. */
  function SolveQuadraticCoefficients(p0: Vec3, p1: Vec3, p2: Vec3, t1: real): (k: Coefficients)
    requires t1 * t1 - t1 != 0.0
    ensures k.c == p0
    ensures Add(Add(k.a, k.b), k.c) == p2
    ensures Curve(k, t1) == p1
  {
    var c := p0;
    var p2MinusC := Sub(p2, c);
    var p1MinusC := Sub(p1, c);
    var left := Scale(p2MinusC, t1);
    var right := Sub(p1MinusC, left);
    var denom := t1 * t1 - t1;
    var a := Scale(right, 1.0 / denom);
    var b := Sub(p2MinusC, a);
    ScalarFit(p0.x, p1.x, p2.x, t1);
    ScalarFit(p0.y, p1.y, p2.y, t1);
    ScalarFit(p0.z, p1.z, p2.z, t1);
    var k := Coefficients(a, b, c);
    assert Curve(k, t1) == Vec3(a.x * (t1 * t1) + b.x * t1 + c.x,
                                a.y * (t1 * t1) + b.y * t1 + c.y,
                                a.z * (t1 * t1) + b.z * t1 + c.z);
    k
  }

  /** The path visits the three points at `t = 0`, `t = t1` and `t = 1`. */
  lemma PathThroughPoints(p0: Vec3, p1: Vec3, p2: Vec3, t1: real)
    requires t1 * t1 - t1 != 0.0
    ensures var k := SolveQuadraticCoefficients(p0, p1, p2, t1);
            Curve(k, 0.0) == p0 && Curve(k, t1) == p1 && Curve(k, 1.0) == p2
  {
    CurveEnds(SolveQuadraticCoefficients(p0, p1, p2, t1));
  }

  /** The `t1` slider's range `[0.1, 0.9]` keeps the denominator negative,
      so never zero. */
  lemma SliderDenominator(t1: real)
    requires 0.1 <= t1 <= 0.9
    ensures t1 * t1 - t1 < 0.0
  {
    assert t1 * t1 - t1 == t1 * (t1 - 1.0);
  }

  /** The state an animation runs on: the parameter, the path, the animated
      mesh's position, the scene's points and active mesh, and whether
      another frame is scheduled. The speed is not part of it: every frame
      reads the slider anew. */
  datatype Playback<M> = Playback(
    t: real,
    k: Coefficients,
    position: Vec3,
    points: seq<M>,
    active: Option<M>,
    running: bool)

  /** `Array.prototype.pop` for its effect: the last element goes, and an
      empty array stays empty. */
  function Pop<M>(s: seq<M>): (r: seq<M>)
    ensures |s| > 0 ==> r == s[..|s| - 1]
    ensures |s| == 0 ==> r == []
  {
    if |s| == 0 then s else s[..|s| - 1]
  }

  /** The frame increment at a given speed. */
  function StepOf(speed: real): real {
    0.001 * speed
  }

  /** One call of the `animate` closure at the speed the slider holds then:
      the parameter advances; past 1 the two newest points are popped, the
      active mesh cleared and no further frame scheduled; otherwise the mesh
      moves to the path's point. */
  function Animate<M>(p: Playback<M>, speed: real): (q: Playback<M>)
    ensures q.t == p.t + StepOf(speed) && q.k == p.k
    ensures q.t > 1.0 ==>
              && !q.running && q.active.None? && q.position == p.position
              && q.points == Pop(Pop(p.points))
    ensures q.t <= 1.0 ==>
              && q.running == p.running && q.active == p.active && q.points == p.points
              && q.position == Curve(p.k, q.t)
  {
    var t := p.t + StepOf(speed);
    if t > 1.0 then p.(t := t, points := Pop(Pop(p.points)), active := None, running := false)
    else p.(t := t, position := Curve(p.k, t))
  }

  /** The frames that follow, one per speed in `speeds`, stopping once no
      frame is scheduled. */
  function Frames<M>(p: Playback<M>, speeds: seq<real>): Playback<M>
    decreases |speeds|
  {
    if speeds == [] || !p.running then p else Frames(Animate(p, speeds[0]), speeds[1..])
  }

  /** The total increment a run of frame speeds adds to the parameter. */
  function Travel(speeds: seq<real>): real
    decreases |speeds|
  {
    if speeds == [] then 0.0 else StepOf(speeds[0]) + Travel(speeds[1..])
  }

  /** `playAnimation()`: nothing happens without an active mesh or with
      fewer than two points; otherwise the path through the active mesh's
      translation and the first two points is solved and the first frame is
      run at once, at the speed the slider holds then. `translation` reads a
      mesh's translation. */
  function PlayAnimation<M>(active: Option<M>, position: Vec3, points: seq<M>, t1: real, speed: real,
                            translation: M -> Vec3): (r: Option<Playback<M>>)
    requires 0.1 <= t1 <= 0.9
    ensures r.None? <==> active.None? || |points| < 2
    ensures r.Some? ==>
              && r.value.t == StepOf(speed)
              && r.value.k == SolveQuadraticCoefficients(translation(active.value), translation(points[0]), translation(points[1]), t1)
  {
    if active.None? || |points| < 2 then None
    else
      SliderDenominator(t1);
      var k := SolveQuadraticCoefficients(translation(active.value), translation(points[0]), translation(points[1]), t1);
      Some(Animate(Playback(0.0, k, position, points, active, true), speed))
  }

  // ---------------------------------------------------------------------
  // Properties over runs of frames

  /** While frames are scheduled the parameter stays at most 1 and the
      path, points and active mesh are those the animation started with; once
      no frame is scheduled, exactly two pops have happened and the active
      mesh is cleared. */
  ghost predicate Tracks<M>(start: Playback<M>, p: Playback<M>) {
    && p.k == start.k
    && (p.running ==> p.t <= 1.0 && p.points == start.points && p.active == start.active)
    && (!p.running ==> p.points == Pop(Pop(start.points)) && p.active.None?)
  }

  /** Frames keep `Tracks`, at whatever speeds they run. */
  lemma {:induction false} FramesTrack<M>(start: Playback<M>, p: Playback<M>, speeds: seq<real>)
    requires Tracks(start, p)
    ensures Tracks(start, Frames(p, speeds))
    decreases |speeds|
  {
    if speeds != [] && p.running {
      FramesTrack(start, Animate(p, speeds[0]), speeds[1..]);
    }
  }

  /** The animation stops within any run of frames whose total increment
      carries the parameter past 1, whatever the speeds along the way. */
  lemma {:induction false} Finishes<M>(p: Playback<M>, speeds: seq<real>)
    requires p.running ==> p.t <= 1.0
    requires p.t + Travel(speeds) > 1.0
    ensures !Frames(p, speeds).running
    decreases |speeds|
  {
    if speeds != [] && p.running {
      var q := Animate(p, speeds[0]);
      if q.t <= 1.0 {
        Finishes(q, speeds[1..]);
      }
    }
  }

  /** Frames each at least `lo` fast add at least `lo`'s increment per
      frame. */
  lemma {:induction false} TravelAtLeast(speeds: seq<real>, lo: real)
    requires forall i :: 0 <= i < |speeds| ==> speeds[i] >= lo
    ensures Travel(speeds) >= |speeds| as real * StepOf(lo)
    decreases |speeds|
  {
    if speeds != [] {
      TravelAtLeast(speeds[1..], lo);
    }
  }

  /** A playback `playAnimation` starts is the first frame of a running
      state at parameter 0 that holds the scene's points and active mesh. */
  lemma PlayStarts<M>(active: Option<M>, position: Vec3, points: seq<M>, t1: real, speed: real,
                      translation: M -> Vec3)
    requires 0.1 <= t1 <= 0.9
    requires active.Some? && |points| >= 2
    ensures var r := PlayAnimation(active, position, points, t1, speed, translation).value;
            r == Animate(Playback(0.0, r.k, position, points, active, true), speed)
  {
  }

  /** However the speed slider moves during playback, within its range
      (at least 0.1 on every frame), an animation started by `playAnimation`
      is over within 10000 further frames, having popped two points and
      cleared the active mesh. */
  lemma PlaybackEnds<M>(active: Option<M>, position: Vec3, points: seq<M>, t1: real, speed: real,
                        translation: M -> Vec3, speeds: seq<real>)
    requires 0.1 <= t1 <= 0.9 && speed >= 0.1
    requires active.Some? && |points| >= 2
    requires |speeds| == 10000 && forall i :: 0 <= i < |speeds| ==> speeds[i] >= 0.1
    ensures var r := PlayAnimation(active, position, points, t1, speed, translation);
            var q := Frames(r.value, speeds);
            && !q.running
            && q.points == points[..|points| - 2]
            && q.active.None?
  {
    var r := PlayAnimation(active, position, points, t1, speed, translation).value;
    PlayStarts(active, position, points, t1, speed, translation);
    var start := Playback(0.0, r.k, position, points, active, true);
    assert Tracks(start, r);
    FramesTrack(start, r, speeds);
    TravelAtLeast(speeds, 0.1);
    Finishes(r, speeds);
    assert Pop(Pop(points)) == points[..|points| - 2];
  }
}
