/**
 * RayTracingObject (quest 9): the base ray-tracing scene object.  It counts
 * soft-shadow samples, and its compute pass is skipped altogether when a
 * scene object's shadow ray is blocked.
 *
 * traceScene is called as a global that the repository never defines, and
 * the shaded point and light position compute reads are undefined too.
 * The model therefore takes the trace results as parameters: hits[i] is
 * what traceScene reported for the i-th ray.  The random light offsets
 * and the ray construction (Vector3 add, sub, normalize) are not part of
 * this model.
 */
module RayTracing {
  import opened Wrappers
  import opened GpuBuffer

  /** The samples calculateSoftShadows takes. */
  const NumSamples: nat := 16

  /** The compute entry point of the base pipeline. */
  const ComputeEntry: string := "computeMain"

  /** A hit that a trace reported (its contents are never inspected). */
  datatype Hit = Hit(distance: real)

  /** isInShadow: true exactly when the trace returned a hit. */
  function IsInShadow(shadowHit: Option<Hit>): (b: bool)
    ensures b <==> shadowHit != None
  {
    if shadowHit.Some? then true else false
  }

  /** The number of samples whose trace found nothing, so that the light
      reaches the point. */
  function Lit(hits: seq<Option<Hit>>): (n: nat)
    ensures n <= |hits|
    decreases |hits|
  {
    if |hits| == 0 then 0
    else Lit(hits[..|hits| - 1]) + (if IsInShadow(hits[|hits| - 1]) then 0 else 1)
  }

  /** No sample is blocked exactly when every sample is lit. */
  lemma {:induction false} AllLit(hits: seq<Option<Hit>>)
    ensures Lit(hits) == |hits| <==> forall k :: 0 <= k < |hits| ==> hits[k].None?
    decreases |hits|
  {
    if |hits| > 0 {
      var n := |hits| - 1;
      AllLit(hits[..n]);
      assert forall k :: 0 <= k < n ==> hits[..n][k] == hits[k];
    }
  }

  /** calculateSoftShadows: one point per unblocked sample, divided by 16;
      the result is a multiple of 1/16 in [0, 1]. */
  method CalculateSoftShadows(hits: seq<Option<Hit>>) returns (f: real)
    requires |hits| == NumSamples
    ensures f == Lit(hits) as real / NumSamples as real
    ensures 0.0 <= f <= 1.0
    ensures f == 1.0 <==> forall k :: 0 <= k < NumSamples ==> hits[k].None?
  {
    var shadowIntensity := 0;
    for i := 0 to NumSamples
      invariant shadowIntensity == Lit(hits[..i])
    {
      assert hits[..i + 1][..i] == hits[..i];
      if !IsInShadow(hits[i]) {
        shadowIntensity := shadowIntensity + 1;
      }
    }
    assert hits[..NumSamples] == hits;
    f := shadowIntensity as real / NumSamples as real;
    AllLit(hits);
  }

  class RayTracingObject {
    var wgWidth: nat
    var wgHeight: nat

    constructor ()
      ensures wgWidth == 0 && wgHeight == 0
    {
      wgWidth, wgHeight := 0, 0;
    }

    /** The workgroup extents are Math.ceil of the texture's width and
        height, which are whole numbers. */
    method CreateBindGroup(width: nat, height: nat)
      modifies this
      ensures wgWidth == width && wgHeight == height
    {
      wgWidth := width;
      wgHeight := height;
    }

    /** compute: one shadow ray per scene object (hits[i] is its trace);
        the first blocked one returns without dispatching, otherwise one
        dispatch of 16 x 16 groups covers the image. */
    method Compute(hits: seq<Option<Hit>>) returns (d: Option<Dispatch>)
      ensures d.None? <==> exists k :: 0 <= k < |hits| && IsInShadow(hits[k])
      ensures d.Some? ==> d.value.pipeline == ComputeEntry
      ensures d.Some? ==> d.value.x * TileSize >= wgWidth && d.value.y * TileSize >= wgHeight
      ensures d.Some? ==> d.value == TileDispatch(ComputeEntry, wgWidth, wgHeight)
    {
      for i := 0 to |hits|
        invariant forall k :: 0 <= k < i ==> !IsInShadow(hits[k])
      {
        if IsInShadow(hits[i]) {
          return None;
        }
      }
      d := Some(TileDispatch(ComputeEntry, wgWidth, wgHeight));
    }
  }
}
