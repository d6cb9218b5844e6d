/**
 * The CPU-side shadow helpers of quest 9's box-and-light tracer
 * (RayTracingBoxObject2.js): updateLight scales the light intensity by a
 * shadow factor chosen by the shadow mode (1: percentage-closer filtering
 * over 16 jittered samples, 2: a factor from the distance to the first
 * occluder, 3: a factor from the closest signed distance met while
 * marching towards the light), and the same camera and box uploads as the
 * other box tracers.
 *
 * The vectors and rays these helpers build (Vector3, Ray, normalize,
 * distanceTo), the jitter drawn from Math.random and the light lookup
 * getLightInfo are not part of this model: each helper takes the values
 * they produce as parameters.  traceScene is part of it, and it never
 * reports a hit.
 */
module RayBoxShadows {
  import opened Wrappers
  import opened GpuBuffer
  import opened RayLayout
  import Camera3D

  /** The samples percentage-closer filtering averages. */
  const NumSamples: nat := 16
  /** The SDF march: step 0.01 while t < 10, that is 1000 steps. */
  const MarchStep: real := 0.01
  const MaxDistance: real := 10.0
  const MarchSteps: nat := 1000
  /** The floor of the distance and SDF factors. */
  const MinFactor: real := 0.1

  /** A shadow ray: the shaded point and the direction to the light. */
  datatype Ray = Ray(origin: seq<real>, direction: seq<real>)

  /** A hit reported by a trace, with its distance from the ray's origin. */
  datatype Hit = Hit(distance: real)

  /** traceScene: the CPU side holds no geometry, so no ray hits anything. */
  function TraceScene(ray: Ray): (h: Option<Hit>)
  {
    None
  }

  /** isInShadow: a ray is blocked exactly when the trace reports a hit. */
  function IsInShadow(ray: Ray): (b: bool)
    ensures b <==> TraceScene(ray).Some?
  {
    TraceScene(ray) != None
  }

  /** No shadow ray is ever blocked. */
  lemma NeverInShadow(ray: Ray)
    ensures !IsInShadow(ray)
  {
  }

  // ------------------------------------------------------------ distance-based

  /** The distance-based factor: 1 on a miss, otherwise
      max(0.1, 1 - (d / 10)^2) for the occluder's distance d. */
  function DistanceFactor(hit: Option<Hit>): (f: real)
    ensures hit.None? ==> f == 1.0
    ensures hit.Some? ==> f >= MinFactor
    ensures hit.Some? && hit.value.distance >= 0.0 ==> f <= 1.0
    ensures hit.Some? && f > MinFactor ==>
      f == 1.0 - (hit.value.distance / MaxDistance) * (hit.value.distance / MaxDistance)
  {
    match hit
    case None => 1.0
    case Some(h) =>
      var q := h.distance / MaxDistance;
      MaxR(MinFactor, 1.0 - q * q)
  }

  /** calculateDistanceBasedSoftShadows on the ray towards the light. */
  function DistanceBasedSoftShadows(ray: Ray): real
  {
    DistanceFactor(TraceScene(ray))
  }

  /** Since nothing is ever hit, the distance-based factor is always 1. */
  lemma DistanceBasedIsOne(ray: Ray)
    ensures DistanceBasedSoftShadows(ray) == 1.0
  {
  }

  // ------------------------------------------------------------ signed distance

  /** getSDF: the distance from a point to the sphere's surface, given the
      point's distance to the sphere's centre. */
  function GetSDF(centreDist: real, radius: real): (d: real)
    ensures d >= 0.0
    ensures d == centreDist - radius || d == radius - centreDist
    ensures d == 0.0 <==> centreDist == radius
  {
    AbsR(centreDist - radius)
  }

  /** closestDist after the first |dists| march steps: the running minimum
      of 10 and the SDF at each step, in the loop's order.  dists[k] is the
      distance from the k-th march point to the sphere's centre. */
  function Closest(dists: seq<real>, radius: real): (c: real)
    ensures 0.0 <= c <= MaxDistance
    decreases |dists|
  {
    if |dists| == 0 then MaxDistance
    else
      var before := Closest(dists[..|dists| - 1], radius);
      var d := GetSDF(dists[|dists| - 1], radius);
      if d < before then d else before
  }

  /** closestDist is the minimum of 10 and every SDF the march met: no
      sample is smaller, and it is 10 or one of the samples. */
  lemma {:induction false} ClosestIsMinimum(dists: seq<real>, radius: real)
    ensures forall k :: 0 <= k < |dists| ==> Closest(dists, radius) <= GetSDF(dists[k], radius)
    ensures Closest(dists, radius) == MaxDistance ||
      exists k :: 0 <= k < |dists| && Closest(dists, radius) == GetSDF(dists[k], radius)
    decreases |dists|
  {
    if |dists| > 0 {
      var n := |dists| - 1;
      ClosestIsMinimum(dists[..n], radius);
      assert forall k :: 0 <= k < n ==> dists[..n][k] == dists[k];
      var before := Closest(dists[..n], radius);
      if before != MaxDistance {
        var k :| 0 <= k < n && before == GetSDF(dists[..n][k], radius);
        assert before == GetSDF(dists[k], radius);
      }
    }
  }

  /** The SDF factor max(0.1, 1 - closestDist / 10). */
  function SdfFactor(closest: real): real
  {
    MaxR(MinFactor, 1.0 - closest / MaxDistance)
  }

  /** For every closest distance the march can produce the factor lies in
      [0.1, 1]; it is 1 exactly when the march touched the sphere. */
  lemma SdfFactorRange(dists: seq<real>, radius: real)
    ensures MinFactor <= SdfFactor(Closest(dists, radius)) <= 1.0
    ensures SdfFactor(Closest(dists, radius)) == 1.0 <==>
      exists k :: 0 <= k < |dists| && dists[k] == radius
  {
    ClosestIsMinimum(dists, radius);
    if exists k :: 0 <= k < |dists| && dists[k] == radius {
      var k :| 0 <= k < |dists| && dists[k] == radius;
      assert GetSDF(dists[k], radius) == 0.0;
    }
  }

  /** calculateSDFSoftShadows: march from t = 0 in steps of 0.01 while
      t < 10, keeping the smallest SDF seen (starting from 10). */
  method CalculateSDFSoftShadows(dists: seq<real>, radius: real) returns (f: real)
    requires |dists| == MarchSteps
    ensures f == SdfFactor(Closest(dists, radius))
    ensures MinFactor <= f <= 1.0
  {
    var closestDist := MaxDistance;
    var t, k := 0.0, 0;
    while t < MaxDistance
      invariant 0 <= k <= MarchSteps && t == k as real * MarchStep
      invariant closestDist == Closest(dists[..k], radius)
      decreases MarchSteps - k
    {
      var dist := GetSDF(dists[k], radius);
      assert dists[..k + 1][..k] == dists[..k];
      if dist < closestDist {
        closestDist := dist;
      }
      t, k := t + MarchStep, k + 1;
    }
    assert dists[..k] == dists;
    f := MaxR(MinFactor, 1.0 - closestDist / MaxDistance);
    SdfFactorRange(dists, radius);
  }

  // ------------------------------------------------------------ percentage-closer filtering

  /** The intensities of the samples whose shadow ray is not blocked,
      summed in sample order. */
  function UnshadowedSum(rays: seq<Ray>, intensity: seq<real>): real
    requires |rays| == |intensity|
    decreases |rays|
  {
    if |rays| == 0 then 0.0
    else
      var n := |rays| - 1;
      UnshadowedSum(rays[..n], intensity[..n]) + (if IsInShadow(rays[n]) then 0.0 else intensity[n])
  }

  /** The plain sum of the intensities. */
  function Total(intensity: seq<real>): real
    decreases |intensity|
  {
    if |intensity| == 0 then 0.0 else Total(intensity[..|intensity| - 1]) + intensity[|intensity| - 1]
  }

  /** Since no ray is blocked, every sample contributes. */
  lemma {:induction false} UnshadowedIsTotal(rays: seq<Ray>, intensity: seq<real>)
    requires |rays| == |intensity|
    ensures UnshadowedSum(rays, intensity) == Total(intensity)
    decreases |rays|
  {
    if |rays| > 0 {
      var n := |rays| - 1;
      UnshadowedIsTotal(rays[..n], intensity[..n]);
      NeverInShadow(rays[n]);
    }
  }

  /** With every intensity in [0, 1] the unshadowed sum of n samples lies
      in [0, n]. */
  lemma {:induction false} UnshadowedBounds(rays: seq<Ray>, intensity: seq<real>)
    requires |rays| == |intensity|
    requires forall k :: 0 <= k < |intensity| ==> 0.0 <= intensity[k] <= 1.0
    ensures 0.0 <= UnshadowedSum(rays, intensity) <= |rays| as real
    decreases |rays|
  {
    if |rays| > 0 {
      var n := |rays| - 1;
      assert forall k :: 0 <= k < n ==> intensity[..n][k] == intensity[k];
      UnshadowedBounds(rays[..n], intensity[..n]);
    }
  }

  /** The PCF factor: the unshadowed sum over the 16 samples, divided by 16. */
  function PcfFactor(rays: seq<Ray>, intensity: seq<real>): real
    requires |rays| == |intensity|
  {
    UnshadowedSum(rays, intensity) / NumSamples as real
  }

  /** calculatePCFSoftShadows: rays[i] is the shadow ray along the i-th
      jittered light direction and intensity[i] the intensity getLightInfo
      reports for it. */
  method CalculatePCFSoftShadows(rays: seq<Ray>, intensity: seq<real>) returns (f: real)
    requires |rays| == NumSamples && |intensity| == NumSamples
    ensures f == PcfFactor(rays, intensity)
    ensures f == Total(intensity) / NumSamples as real
    ensures (forall k :: 0 <= k < NumSamples ==> 0.0 <= intensity[k] <= 1.0) ==> 0.0 <= f <= 1.0
  {
    var totalIntensity := 0.0;
    for i := 0 to NumSamples
      invariant totalIntensity == UnshadowedSum(rays[..i], intensity[..i])
    {
      assert rays[..i + 1][..i] == rays[..i] && intensity[..i + 1][..i] == intensity[..i];
      if !IsInShadow(rays[i]) {
        totalIntensity := totalIntensity + intensity[i];
      }
    }
    assert rays[..NumSamples] == rays && intensity[..NumSamples] == intensity;
    f := totalIntensity / NumSamples as real;
    UnshadowedIsTotal(rays, intensity);
    if forall k :: 0 <= k < NumSamples ==> 0.0 <= intensity[k] <= 1.0 {
      UnshadowedBounds(rays, intensity);
    }
  }

  // ------------------------------------------------------------ updateLight

  /** What a shadow-mode computation needs: the PCF samples, the ray
      towards the light and the march's distances to the sphere's centre. */
  datatype ShadowInputs = ShadowInputs(rays: seq<Ray>, intensity: seq<real>, toLight: Ray,
                                       dists: seq<real>, radius: real)
  {
    /** The inputs the current mode reads are all there. */
    predicate ReadyFor(mode: int)
    {
      && (mode == 1 ==> |rays| == NumSamples && |intensity| == NumSamples)
      && (mode == 3 ==> |dists| == MarchSteps)
    }
  }

  /** The factor updateLight multiplies the intensity by. */
  function ShadowFactor(mode: int, s: ShadowInputs): real
    requires s.ReadyFor(mode)
  {
    if mode == 1 then PcfFactor(s.rays, s.intensity)
    else if mode == 2 then DistanceBasedSoftShadows(s.toLight)
    else if mode == 3 then SdfFactor(Closest(s.dists, s.radius))
    else 1.0
  }

  /** Every mode's factor lies in [0, 1] when the sample intensities do, so
      updateLight never raises a non-negative intensity; only modes 1 and 3
      can lower it. */
  lemma ShadowFactorRange(mode: int, s: ShadowInputs)
    requires s.ReadyFor(mode)
    requires forall k :: 0 <= k < |s.intensity| ==> 0.0 <= s.intensity[k] <= 1.0
    ensures 0.0 <= ShadowFactor(mode, s) <= 1.0
    ensures mode != 1 && mode != 3 ==> ShadowFactor(mode, s) == 1.0
  {
    if mode == 1 {
      UnshadowedBounds(s.rays, s.intensity);
    } else if mode == 3 {
      SdfFactorRange(s.dists, s.radius);
    }
  }

  /** The quest-9 box tracer with CPU shadow helpers.  SceneObject.js, which
      holds the shadow mode and the light intensity, is not part of this
      model: their initial values come in through the constructor, and
      updateShadowMode (which defers to it) just records the mode. */
  class RayTracingBoxLightObject {
    const camera: Camera3D.Camera
    const box: UnitCube
    const showTexture: bool
    var shadowMode: int
    var lightIntensity: real
    var cameraBuffer: seq<real>
    var boxBuffer: seq<real>
    var wgWidth: nat
    var wgHeight: nat

    predicate Valid()
      reads camera
    {
      camera.Valid()
    }

    /** The box buffer's size: pose, scales and six faces of top's length. */
    function BoxBytes(): nat
      reads box
    {
      ByteLength(box.pose) + ByteLength(box.scales) + ByteLength(box.top) * 6
    }

    constructor (camera: Camera3D.Camera, box: UnitCube, showTexture: bool,
                 shadowMode: int, lightIntensity: real)
      requires camera.Valid()
      ensures Valid() && this.camera == camera && this.box == box && this.showTexture == showTexture
      ensures this.shadowMode == shadowMode && this.lightIntensity == lightIntensity
    {
      this.camera := camera;
      this.box := box;
      this.showTexture := showTexture;
      this.shadowMode := shadowMode;
      this.lightIntensity := lightIntensity;
      cameraBuffer, boxBuffer := [], [];
      wgWidth, wgHeight := 0, 0;
    }

    method UpdateShadowMode(mode: int)
      modifies this`shadowMode
      ensures shadowMode == mode && lightIntensity == old(lightIntensity)
      ensures cameraBuffer == old(cameraBuffer) && boxBuffer == old(boxBuffer)
    {
      shadowMode := mode;
    }

    /** The camera image and the box's eight arrays at running offsets; with
        faces of top's length they tile the box buffer exactly. */
    method CreateGeometry()
      requires Valid()
      modifies this`cameraBuffer, this`boxBuffer
      ensures cameraBuffer == CameraImage(camera)
      ensures ByteLength(boxBuffer) == BoxBytes()
      ensures boxBuffer == Serialise(Zeros(BoxBytes()), 0, box.Regions())
      ensures box.FacesAre(|box.top|) ==> boxBuffer == box.Image()
      ensures shadowMode == old(shadowMode) && lightIntensity == old(lightIntensity)
    {
      cameraBuffer := UploadCamera(camera.pose[..], camera.focal[..], camera.resolutions[..]);
      UploadBox();
    }

    /** The box upload of createGeometry. */
    method UploadBox()
      modifies this`boxBuffer
      ensures ByteLength(boxBuffer) == BoxBytes()
      ensures boxBuffer == Serialise(Zeros(BoxBytes()), 0, box.Regions())
      ensures box.FacesAre(|box.top|) ==> boxBuffer == box.Image()
    {
      var zeros := Zeros(BoxBytes());
      assert BoxBytes() % BytesPerWord == 0;
      boxBuffer := Serialise(zeros, 0, box.Regions());
      if box.FacesAre(|box.top|) {
        box.ImageLayout(|box.top|);
        SerialiseFits(zeros, box.Regions());
      }
    }

    /** The image size into the camera, then the resolutions at
        pose.byteLength + focal.byteLength. */
    method UpdateGeometry(imgWidth: real, imgHeight: real)
      requires Valid()
      modifies this`cameraBuffer, camera.resolutions
      ensures camera.resolutions[..] == [imgWidth, imgHeight]
      ensures cameraBuffer == Write(old(cameraBuffer), ResolutionsAt, [imgWidth, imgHeight])
      ensures AgreesOutside(old(cameraBuffer), CameraImage(camera), 18, 20) ==> cameraBuffer == CameraImage(camera)
      ensures boxBuffer == old(boxBuffer) && shadowMode == old(shadowMode) && lightIntensity == old(lightIntensity)
    {
      camera.UpdateSize(imgWidth, imgHeight);
      CameraRegions(camera);
      cameraBuffer := Write(cameraBuffer, ByteLength(camera.pose[..]) + ByteLength(camera.focal[..]), camera.resolutions[..]);
      if AgreesOutside(old(cameraBuffer), CameraImage(camera), 18, 20) {
        WriteResyncs(old(cameraBuffer), CameraImage(camera), 18, camera.resolutions[..]);
      }
    }

    /** updateLight: factor 1, replaced by the current mode's factor for
        modes 1, 2 and 3, then the intensity is multiplied by it. */
    method UpdateLight(s: ShadowInputs)
      requires s.ReadyFor(shadowMode)
      modifies this`lightIntensity
      ensures shadowMode == old(shadowMode)
      ensures lightIntensity == old(lightIntensity) * ShadowFactor(shadowMode, s)
      ensures shadowMode != 1 && shadowMode != 3 ==> lightIntensity == old(lightIntensity)
      ensures cameraBuffer == old(cameraBuffer) && boxBuffer == old(boxBuffer)
    {
      var mode := shadowMode;
      var shadowFactor := 1.0;
      if mode == 1 {
        shadowFactor := CalculatePCFSoftShadows(s.rays, s.intensity);
      } else if mode == 2 {
        shadowFactor := DistanceBasedSoftShadows(s.toLight);
      } else if mode == 3 {
        shadowFactor := CalculateSDFSoftShadows(s.dists, s.radius);
      }
      lightIntensity := lightIntensity * shadowFactor;
    }

    method CreateBindGroup(width: nat, height: nat)
      modifies this`wgWidth, this`wgHeight
      ensures wgWidth == width && wgHeight == height
      ensures cameraBuffer == old(cameraBuffer) && boxBuffer == old(boxBuffer)
      ensures shadowMode == old(shadowMode) && lightIntensity == old(lightIntensity)
    {
      wgWidth := width;
      wgHeight := height;
    }

    /** The projective pipeline exactly when the camera is projective, and
        Math.ceil(width / 16) x Math.ceil(height / 16) groups: the fewest
        16 x 16 tiles that cover the image. */
    method Compute() returns (d: Dispatch)
      ensures d.pipeline == ProjectiveEntry <==> camera.isProjective
      ensures d.pipeline == OrthogonalEntry <==> !camera.isProjective
      ensures d.x * TileSize >= wgWidth && d.y * TileSize >= wgHeight
      ensures (d.x == 0 || (d.x - 1) * TileSize < wgWidth) && (d.y == 0 || (d.y - 1) * TileSize < wgHeight)
    {
      d := TileDispatch(TracePipeline(camera.isProjective), wgWidth, wgHeight);
    }
  }
}
