/**
 * The 3-D camera of quest 6: a sixteen-entry pose motor, a focal length per
 * axis, the image resolution and the projective flag.  The moves and
 * rotations, which go through the PGA3D motor algebra, are not part of this
 * model.
 */
module Camera3D {

  /** The smallest focal length the clamps allow. */
  const MinFocal: real := 0.01

  /** The identity motor: 1 followed by fifteen zeros. */
  function IdentityPose(): (p: seq<real>)
    ensures |p| == 16 && p[0] == 1.0 && forall i :: 1 <= i < 16 ==> p[i] == 0.0
  {
    [1.0] + seq(15, _ => 0.0)
  }

  /** focal + delta, raised to MinFocal when it falls below. */
  function ClampedFocal(focal: real, delta: real): (f: real)
    ensures f >= MinFocal
    ensures f == focal + delta || (f == MinFocal && focal + delta < MinFocal)
  {
    if focal + delta < MinFocal then MinFocal else focal + delta
  }

  class Camera {
    const pose: array<real>
    const focal: array<real>
    const resolutions: array<real>
    var isProjective: bool

    predicate Valid()
      reads this
    {
      pose.Length == 16 && focal.Length == 2 && resolutions.Length == 2
      && pose != focal && pose != resolutions && focal != resolutions
    }

    constructor (w: real, h: real)
      ensures Valid() && !isProjective
      ensures pose[..] == IdentityPose() && focal[..] == [1.0, 1.0] && resolutions[..] == [w, h]
    {
      pose := new real[16];
      focal := new real[2] [1.0, 1.0];
      resolutions := new real[2] [w, h];
      isProjective := false;
      new;
      SetIdentity();
    }

    /** The loop that zeroes the pose, then pose[0] = 1. */
    method SetIdentity()
      requires Valid()
      modifies pose
      ensures pose[..] == IdentityPose()
    {
      for i := 0 to 16
        invariant forall j :: 0 <= j < i ==> pose[j] == 0.0
      {
        pose[i] := 0.0;
      }
      pose[0] := 1.0;
    }

    /** Identity pose and focal [1, 1]; resolutions and the projective flag
        stay. */
    method ResetPose()
      requires Valid()
      modifies pose, focal
      ensures pose[..] == IdentityPose() && focal[..] == [1.0, 1.0]
    {
      SetIdentity();
      focal[0] := 1.0;
      focal[1] := 1.0;
    }

    /** Copies entries 0..15 of its argument. */
    method UpdatePose(n: seq<real>)
      requires Valid() && |n| >= 16
      modifies pose
      ensures pose[..] == n[..16]
    {
      for i := 0 to 16
        invariant forall j :: 0 <= j < i ==> pose[j] == n[j]
      {
        pose[i] := n[i];
      }
    }

    method UpdateSize(w: real, h: real)
      requires Valid()
      modifies resolutions
      ensures resolutions[..] == [w, h]
    {
      resolutions[0] := w;
      resolutions[1] := h;
    }

    method ChangeFocalX(x: real)
      requires Valid()
      modifies focal
      ensures focal[..] == [ClampedFocal(old(focal[0]), x), old(focal[1])]
      ensures focal[0] >= MinFocal
    {
      focal[0] := focal[0] + x;
      if focal[0] < MinFocal {
        focal[0] := MinFocal;
      }
    }

    method ChangeFocalY(y: real)
      requires Valid()
      modifies focal
      ensures focal[..] == [old(focal[0]), ClampedFocal(old(focal[1]), y)]
      ensures focal[1] >= MinFocal
    {
      focal[1] := focal[1] + y;
      if focal[1] < MinFocal {
        focal[1] := MinFocal;
      }
    }
  }
}
