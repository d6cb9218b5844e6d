/**
 * The unit shapes of quest 6 (sphere, cylinder, cone, ellipsoid, torus).
 * Each is an eight-entry pose, zero at construction, and four scale
 * entries fixed per shape; updatePose copies entries 0..7 of its argument.
 * The five classes differ only in their scales, so they are one class here
 * with one constructor per shape.
 */
module UnitShapes {

  const PoseSize: nat := 8

  /** [0.5, 0.5, 0.5, 1]: the radius per axis (the comment beside it says
      0.25; the code stores 0.5). */
  const SphereScales: seq<real> := [0.5, 0.5, 0.5, 1.0]
  /** [radius, half height, radius, 1]. */
  const CylinderScales: seq<real> := [0.3, 0.5, 0.3, 1.0]
  /** [base radius, base radius, height, 1]. */
  const ConeScales: seq<real> := [0.25, 0.25, 0.5, 1.0]
  /** The three semi-axes, then 1. */
  const EllipsoidScales: seq<real> := [0.3, 0.2, 0.4, 1.0]
  /** [major radius, minor radius, 0, 1]. */
  const TorusScales: seq<real> := [0.5, 0.15, 0.0, 1.0]

  class UnitShape {
    const pose: array<real>
    const scales: array<real>

    predicate Valid()
      reads this
    {
      pose.Length == PoseSize && scales.Length == 4 && pose != scales
    }

    /** Eight zero pose entries and the given scales. */
    constructor (s: seq<real>)
      requires |s| == 4
      ensures Valid() && fresh(pose) && fresh(scales)
      ensures pose[..] == seq(PoseSize, _ => 0.0) && scales[..] == s
    {
      pose := new real[PoseSize](_ => 0.0);
      scales := new real[4](i requires 0 <= i < 4 => s[i]);
    }

    static method Sphere() returns (u: UnitShape)
      ensures fresh(u) && fresh(u.pose) && fresh(u.scales) && u.Valid() && u.pose[..] == seq(PoseSize, _ => 0.0) && u.scales[..] == SphereScales
    {
      u := new UnitShape(SphereScales);
    }

    static method Cylinder() returns (u: UnitShape)
      ensures fresh(u) && fresh(u.pose) && fresh(u.scales) && u.Valid() && u.pose[..] == seq(PoseSize, _ => 0.0) && u.scales[..] == CylinderScales
    {
      u := new UnitShape(CylinderScales);
    }

    static method Cone() returns (u: UnitShape)
      ensures fresh(u) && fresh(u.pose) && fresh(u.scales) && u.Valid() && u.pose[..] == seq(PoseSize, _ => 0.0) && u.scales[..] == ConeScales
    {
      u := new UnitShape(ConeScales);
    }

    static method Ellipsoid() returns (u: UnitShape)
      ensures fresh(u) && fresh(u.pose) && fresh(u.scales) && u.Valid() && u.pose[..] == seq(PoseSize, _ => 0.0) && u.scales[..] == EllipsoidScales
    {
      u := new UnitShape(EllipsoidScales);
    }

    static method Torus() returns (u: UnitShape)
      ensures fresh(u) && fresh(u.pose) && fresh(u.scales) && u.Valid() && u.pose[..] == seq(PoseSize, _ => 0.0) && u.scales[..] == TorusScales
    {
      u := new UnitShape(TorusScales);
    }

    /** Copies entries 0..7; anything beyond is ignored and the scales are
        not touched. */
    method UpdatePose(newPose: seq<real>)
      requires Valid() && |newPose| >= PoseSize
      modifies pose
      ensures pose[..] == newPose[..PoseSize]
      ensures pose.Length == PoseSize && scales[..] == old(scales[..])
    {
      for i := 0 to PoseSize
        invariant forall j :: 0 <= j < i ==> pose[j] == newPose[j]
      {
        pose[i] := newPose[i];
      }
    }
  }
}
