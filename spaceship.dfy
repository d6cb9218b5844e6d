/**
 * SpaceshipObject: a ship of twelve coloured vertices (body, two wings and
 * a three-vertex thruster) whose thruster alpha pulses with the animation
 * phase.
 *
 * The hover motion interpolates motors with PGA2D.slerp and multiplies
 * them into the pose; that algebra is not part of this model.  Math.sin at
 * the phase enters as a value in [-1, 1].
 */
module Spaceship {

  const FloatsPerVertex: nat := 6
  const NumVertices: nat := 12
  /** The thruster is vertices 9, 10 and 11. */
  const FirstThruster: nat := 9
  const LastThruster: nat := 11
  /** The phase advance per frame. */
  const Step: real := 0.05

  /** The vertex table: x, y, r, g, b, alpha per vertex. */
  const Table: seq<real> := [
     0.0,   0.2, 0.8, 0.8, 0.8, 1.0,
    -0.15, -0.2, 0.5, 0.5, 0.8, 1.0,
     0.15, -0.2, 0.5, 0.5, 0.8, 1.0,
    -0.25, -0.1, 0.7, 0.2, 0.2, 1.0,
    -0.15, -0.2, 0.7, 0.2, 0.2, 1.0,
    -0.25, -0.3, 0.7, 0.2, 0.2, 1.0,
     0.25, -0.1, 0.7, 0.2, 0.2, 1.0,
     0.15, -0.2, 0.7, 0.2, 0.2, 1.0,
     0.25, -0.3, 0.7, 0.2, 0.2, 1.0,
     0.0,  -0.4,  1.0, 0.4, 0.0, 0.8,
    -0.05, -0.45, 1.0, 0.4, 0.0, 0.8,
     0.05, -0.45, 1.0, 0.4, 0.0, 0.8]

  /** The alpha slot of thruster vertex i: 59, 65 and 71. */
  predicate ThrusterAlpha(k: int)
  {
    exists i :: FirstThruster <= i <= LastThruster && k == i * FloatsPerVertex + 5
  }

  lemma ThrusterAlphaSlots(k: int)
    ensures ThrusterAlpha(k) <==> k == 59 || k == 65 || k == 71
  {
    if k == 59 { assert k == 9 * FloatsPerVertex + 5; }
    if k == 65 { assert k == 10 * FloatsPerVertex + 5; }
    if k == 71 { assert k == 11 * FloatsPerVertex + 5; }
  }

  /** 0.8 + |sin(2 phase)| 0.2 for a sine value s. */
  function Intensity(s: real): (a: real)
    requires -1.0 <= s <= 1.0
    ensures 0.8 <= a <= 1.0
    ensures a == 0.8 <==> s == 0.0
    ensures a == 1.0 <==> s == 1.0 || s == -1.0
  {
    0.8 + (if s < 0.0 then -s else s) * 0.2
  }

  /** (sin(phase) + 1) / 2, the slerp parameter of the hover motion. */
  function HoverFactor(s: real): (f: real)
    requires -1.0 <= s <= 1.0
    ensures 0.0 <= f <= 1.0 && 2.0 * f - 1.0 == s
  {
    (s + 1.0) / 2.0
  }

  class SpaceshipObject {
    const vertices: array<real>
    var phase: real
    var intensity: real
    /** The vertex-buffer dirty flag of the base class. */
    var needUpdate: bool

    predicate Valid()
      reads this
    {
      vertices.Length == NumVertices * FloatsPerVertex && 0.8 <= intensity <= 1.0
    }

    constructor ()
      ensures Valid() && fresh(vertices) && vertices[..] == Table
      ensures phase == 0.0 && intensity == 1.0 && !needUpdate
    {
      vertices := new real[72](k requires 0 <= k < 72 => Table[k]);
      phase := 0.0;
      intensity := 1.0;
      needUpdate := false;
      new;
      assert vertices[..] == Table;
    }

    /** Writes the intensity into the three thruster alpha slots, changes
        no other entry, and marks the buffer dirty. */
    method UpdateThrusterColor()
      requires Valid()
      modifies vertices, this
      ensures needUpdate && phase == old(phase) && intensity == old(intensity)
      ensures forall k :: 0 <= k < vertices.Length ==>
        vertices[k] == if ThrusterAlpha(k) then intensity else old(vertices[k])
    {
      for i := FirstThruster to LastThruster + 1
        invariant phase == old(phase) && intensity == old(intensity)
        invariant forall k :: 0 <= k < vertices.Length ==>
          vertices[k] == if exists j :: FirstThruster <= j < i && k == j * FloatsPerVertex + 5 then intensity else old(vertices[k])
      {
        var baseIndex := i * 6 + 5;
        vertices[baseIndex] := intensity;
      }
      needUpdate := true;
    }

    /** One frame: the pulse from sin(2 phase), the thruster writes and
        the phase advance. */
    method UpdateGeometry(sin2Phase: real)
      requires Valid() && -1.0 <= sin2Phase <= 1.0
      modifies vertices, this
      ensures Valid() && needUpdate
      ensures intensity == Intensity(sin2Phase) && phase == old(phase) + Step
      ensures forall k :: 0 <= k < vertices.Length ==>
        vertices[k] == if ThrusterAlpha(k) then intensity else old(vertices[k])
    {
      intensity := 0.8 + (if sin2Phase < 0.0 then -sin2Phase else sin2Phase) * 0.2;
      UpdateThrusterColor();
      phase := phase + Step;
    }
  }
}
