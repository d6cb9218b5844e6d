/**
 * AnimatedCelestialObject: a 36-segment circle of radius 0.1 whose motor
 * bounces between three key poses.  A timer t runs from 0 up to 150 and back
 * down, one unit per frame; the first half of the range interpolates key
 * pose 0 to key pose 1, the second half key pose 1 to key pose 2.
 *
 * cos and sin are parameters of the constructor (they are not modelled);
 * the GPU upload done by the base class is not part of this model.
 */
module Celestial {

  const NumSegments: nat := 36
  const Radius: real := 0.1
  const Interval: int := 150
  /** interval / 2, the length of one interpolation phase. */
  const Half: int := 75
  /** The double nearest to pi, the value of Math.PI. */
  const Pi: real := 3.141592653589793

  const Colour: seq<real> := [0.2, 0.5, 1.0]

  const Pose0: seq<real> := [1.0, 0.0, -0.6, 0.2, 1.0, 1.0]
  const Pose1: seq<real> := [0.0, 1.0, 0.0, -0.4, 1.0, 1.0]
  const Pose2: seq<real> := [1.0, 0.0, 0.6, 0.2, 1.0, 1.0]

  /** The vertex [r cos a, r sin a, 0.2, 0.5, 1, 1] of segment i. */
  function Vertex(i: nat, cos: real -> real, sin: real -> real): (v: seq<real>)
    ensures |v| == 6 && v[2..] == Colour + [1.0]
  {
    var angle := (i as real * 2.0 * Pi) / NumSegments as real;
    [Radius * cos(angle), Radius * sin(angle)] + Colour + [1.0]
  }

  /** The interpolation parameter: (t mod 75) / 75. */
  function LocalT(t: int): (u: real)
    requires 0 <= t
    ensures 0.0 <= u < 1.0
  {
    (t % Half) as real / Half as real
  }

  /** (1 - u) p0 + u p1 on the four motor entries. */
  function Lerp(p0: seq<real>, p1: seq<real>, u: real): (m: seq<real>)
    requires |p0| >= 4 && |p1| >= 4
    ensures |m| == 4
    ensures forall k :: 0 <= k < 4 ==> m[k] - p0[k] == u * (p1[k] - p0[k])
  {
    [p0[0] * (1.0 - u) + p1[0] * u, p0[1] * (1.0 - u) + p1[1] * u,
     p0[2] * (1.0 - u) + p1[2] * u, p0[3] * (1.0 - u) + p1[3] * u]
  }

  /** The pair of key poses for timer value t. */
  function Phase(t: int): (p: (seq<real>, seq<real>))
    ensures |p.0| == 6 && |p.1| == 6
    ensures t < Half ==> p == (Pose0, Pose1)
    ensures t >= Half ==> p == (Pose1, Pose2)
  {
    if t < Half then (Pose0, Pose1) else (Pose1, Pose2)
  }

  /** The direction after a move to t. */
  function NextStep(t: int, step: int): (s: int)
    ensures t >= Interval ==> s == -1
    ensures t <= 0 ==> s == 1
    ensures 0 < t < Interval ==> s == step
  {
    if t >= Interval then -1 else if t <= 0 then 1 else step
  }

  class CelestialObject {
    const pose: array<real>
    const vertices: seq<real>
    var t: int
    var step: int

    /** t stays in [0, 150] and the direction points back into the range
        at either end. */
    predicate Valid()
      reads this
    {
      pose.Length >= 4 && 0 <= t <= Interval && (step == 1 || step == -1)
      && (t == Interval ==> step == -1) && (t == 0 ==> step == 1)
    }

    constructor (p: array<real>, cos: real -> real, sin: real -> real)
      requires p.Length >= 4
      ensures Valid() && pose == p && t == 0 && step == 1
      ensures |vertices| == NumSegments * 6
      ensures forall i :: 0 <= i < NumSegments ==> vertices[6 * i .. 6 * i + 6] == Vertex(i, cos, sin)
    {
      var vs: seq<real> := [];
      for i := 0 to NumSegments
        invariant |vs| == 6 * i
        invariant forall j :: 0 <= j < i ==> vs[6 * j .. 6 * j + 6] == Vertex(j, cos, sin)
      {
        vs := vs + Vertex(i, cos, sin);
        assert vs[6 * i .. 6 * i + 6] == Vertex(i, cos, sin);
      }
      vertices := vs;
      pose := p;
      t := 0;
      step := 1;
    }

    /** The four motor writes of one frame. */
    method Interpolate(p0: seq<real>, p1: seq<real>, u: real)
      requires pose.Length >= 4 && |p0| >= 4 && |p1| >= 4
      modifies pose
      ensures pose[..] == Lerp(p0, p1, u) + old(pose[4..])
    {
      pose[0] := p0[0] * (1.0 - u) + p1[0] * u;
      pose[1] := p0[1] * (1.0 - u) + p1[1] * u;
      pose[2] := p0[2] * (1.0 - u) + p1[2] * u;
      pose[3] := p0[3] * (1.0 - u) + p1[3] * u;
      assert pose[..] == pose[..4] + pose[4..];
    }

    /** One frame: interpolate, then advance the timer by step and turn at
        either end. */
    method UpdateGeometry()
      requires Valid()
      modifies this, pose
      ensures Valid()
      ensures var ph := Phase(old(t));
        pose[..] == Lerp(ph.0, ph.1, LocalT(old(t))) + old(pose[4..])
      ensures t == old(t) + old(step) && step == NextStep(t, old(step))
    {
      var p0, p1;
      if t < Interval / 2 {
        p0, p1 := Pose0, Pose1;
      } else {
        p0, p1 := Pose1, Pose2;
      }
      var localT := (t % (Interval / 2)) as real / (Interval / 2) as real;
      Interpolate(p0, p1, localT);
      t := t + step;
      if t >= Interval {
        step := -1;
      } else if t <= 0 {
        step := 1;
      }
    }
  }
}
