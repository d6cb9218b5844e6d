/**
 * RayTracingBoxLightObject (quest 9): a box lit by one light, traced on
 * the GPU.  Four buffers mirror the CPU state: the camera buffer, the box
 * buffer (pose, scales and six faces at running offsets, sized for six
 * faces of top's length), a 20-float light buffer that updateLight fills
 * with the light's five arrays end to end, and a 4-byte shadow-mode buffer
 * holding the mode as one 32-bit integer.
 *
 * The shaders, pipelines and bind-group objects are not part of this
 * model; the image size comes in as parameters.
 */
module RayBoxLight {
  import opened GpuBuffer
  import opened RayLayout
  import Camera3D

  /** The light buffer's size in floats. */
  const LightWords: nat := 20
  /** Its byte size, 20 * Float32Array.BYTES_PER_ELEMENT. */
  const LightBytes: nat := 80

  /** PointLight.js is not part of this model: a light is the five arrays
      updateLight uploads. */
  datatype Light = Light(intensity: seq<real>, position: seq<real>, direction: seq<real>,
                         attenuation: seq<real>, params: seq<real>)
  {
    /** The arrays in upload order. */
    function Regions(): seq<seq<real>>
    {
      [intensity, position, direction, attenuation, params]
    }

    function Image(): seq<real>
    {
      intensity + position + direction + attenuation + params
    }

    lemma ImageLayout()
      ensures Concat(Regions()) == Image()
    {
      var r := Regions();
      assert Concat(r[4..]) == params;
      assert Concat(r[3..]) == attenuation + params;
      assert Concat(r[2..]) == direction + (attenuation + params);
      assert Concat(r[1..]) == position + (direction + (attenuation + params));
      assert Concat(r) == intensity + (position + (direction + (attenuation + params)));
    }
  }

  const TwoTo31: int := 0x8000_0000
  const TwoTo32: int := 0x1_0000_0000

  /** ToInt32, the conversion new Int32Array([mode]) applies to a whole
      number: the value congruent to n modulo 2^32 in [-2^31, 2^31). */
  function Int32(n: int): (v: int)
    ensures -TwoTo31 <= v < TwoTo31 && (v - n) % TwoTo32 == 0
    ensures -TwoTo31 <= n < TwoTo31 ==> v == n
  {
    var r := (n + TwoTo31) % TwoTo32 - TwoTo31;
    assert (r - n) % TwoTo32 == 0 by {
      assert r - n == (n + TwoTo31) % TwoTo32 - (n + TwoTo31);
    }
    r
  }

  /** The shadow buffer's one word for a mode. */
  function ShadowWord(mode: int): real
  {
    Int32(mode) as real
  }

  class RayTracingBoxLightObject {
    const camera: Camera3D.Camera
    const box: UnitCube
    const showTexture: bool
    var shadowMode: int
    var cameraBuffer: seq<real>
    var boxBuffer: seq<real>
    var lightBuffer: seq<real>
    var shadowBuffer: seq<real>
    var wgWidth: nat
    var wgHeight: nat

    predicate Valid()
      reads camera
    {
      camera.Valid()
    }

    /** The box buffer's size: pose, scales and six faces of top's length. */
    function BoxBytes(): nat
      reads box
    {
      ByteLength(box.pose) + ByteLength(box.scales) + ByteLength(box.top) * 6
    }

    /** The shadow buffer holds the current mode. */
    predicate ShadowSynced()
      reads this
    {
      shadowBuffer == [ShadowWord(shadowMode)]
    }

    constructor (camera: Camera3D.Camera, box: UnitCube, showTexture: bool)
      requires camera.Valid()
      ensures Valid() && this.camera == camera && this.box == box && this.showTexture == showTexture
      ensures shadowMode == 0
    {
      this.camera := camera;
      this.box := box;
      this.showTexture := showTexture;
      shadowMode := 0;
      cameraBuffer, boxBuffer, lightBuffer, shadowBuffer := [], [], [], [];
      wgWidth, wgHeight := 0, 0;
    }

    /** Uploads the camera and the box and creates the zero-filled light and
        shadow buffers.  When the faces share top's length the eight box
        writes tile the box buffer exactly.  The fresh shadow buffer reads
        as mode 0, the mode the constructor sets. */
    method CreateGeometry()
      requires Valid()
      modifies this`cameraBuffer, this`boxBuffer, this`lightBuffer, this`shadowBuffer
      ensures cameraBuffer == CameraImage(camera)
      ensures ByteLength(boxBuffer) == BoxBytes()
      ensures boxBuffer == Serialise(Zeros(BoxBytes()), 0, box.Regions())
      ensures box.FacesAre(|box.top|) ==> boxBuffer == box.Image()
      ensures lightBuffer == Zeros(LightBytes) && |lightBuffer| == LightWords
      ensures shadowMode == old(shadowMode) && shadowBuffer == [0.0]
      ensures shadowMode == 0 ==> ShadowSynced()
      ensures wgWidth == old(wgWidth) && wgHeight == old(wgHeight)
    {
      cameraBuffer := UploadCamera(camera.pose[..], camera.focal[..], camera.resolutions[..]);
      UploadBox();
      lightBuffer, shadowBuffer := Zeros(LightBytes), Zeros(4);
      FreshBuffers();
    }

    /** The box upload of createGeometry. */
    method UploadBox()
      modifies this`boxBuffer
      ensures ByteLength(boxBuffer) == BoxBytes()
      ensures boxBuffer == Serialise(Zeros(BoxBytes()), 0, box.Regions())
      ensures box.FacesAre(|box.top|) ==> boxBuffer == box.Image()
    {
      boxBuffer := Serialise(Zeros(BoxBytes()), 0, box.Regions());
      BoxSized();
      if box.FacesAre(|box.top|) {
        BoxTiles();
      }
    }

    /** The fresh light buffer has 20 words, the fresh shadow buffer one
        word, all zero. */
    static lemma FreshBuffers()
      ensures |Zeros(LightBytes)| == LightWords && Zeros(4) == [0.0] && ShadowWord(0) == 0.0
    {
    }

    /** The box buffer is boxBytes long whatever the faces. */
    lemma BoxSized()
      ensures ByteLength(Serialise(Zeros(BoxBytes()), 0, box.Regions())) == BoxBytes()
    {
      var z := Zeros(BoxBytes());
      assert BoxBytes() % BytesPerWord == 0;
      assert |z| == BoxBytes() / BytesPerWord;
    }

    /** With faces of top's length the eight regions fill the box buffer
        exactly. */
    lemma BoxTiles()
      requires box.FacesAre(|box.top|)
      ensures Serialise(Zeros(BoxBytes()), 0, box.Regions()) == box.Image()
    {
      box.ImageLayout(|box.top|);
      var zeros := Zeros(BoxBytes());
      assert |zeros| == |box.Image()|;
      SerialiseFits(zeros, box.Regions());
    }

    // ---------------------------------------------------------- camera and box updates

    /** The image size into the camera, then the resolutions at
        pose.byteLength + focal.byteLength. */
    method UpdateGeometry(imgWidth: real, imgHeight: real)
      requires Valid()
      modifies this`cameraBuffer, camera.resolutions
      ensures camera.resolutions[..] == [imgWidth, imgHeight]
      ensures cameraBuffer == Write(old(cameraBuffer), ResolutionsAt, [imgWidth, imgHeight])
      ensures AgreesOutside(old(cameraBuffer), CameraImage(camera), 18, 20) ==> cameraBuffer == CameraImage(camera)
      ensures boxBuffer == old(boxBuffer) && lightBuffer == old(lightBuffer) && shadowBuffer == old(shadowBuffer)
    {
      camera.UpdateSize(imgWidth, imgHeight);
      CameraRegions(camera);
      cameraBuffer := Write(cameraBuffer, ByteLength(camera.pose[..]) + ByteLength(camera.focal[..]), camera.resolutions[..]);
      if AgreesOutside(old(cameraBuffer), CameraImage(camera), 18, 20) {
        WriteResyncs(old(cameraBuffer), CameraImage(camera), 18, camera.resolutions[..]);
      }
    }

    /** The box pose at offset 0. */
    method UpdateBoxPose()
      requires Valid()
      modifies this`boxBuffer
      ensures boxBuffer == Write(old(boxBuffer), 0, box.pose)
      ensures AgreesOutside(old(boxBuffer), box.Image(), 0, |box.pose|) ==> boxBuffer == box.Image()
      ensures cameraBuffer == old(cameraBuffer) && lightBuffer == old(lightBuffer) && shadowBuffer == old(shadowBuffer)
    {
      boxBuffer := Write(boxBuffer, 0, box.pose);
      if AgreesOutside(old(boxBuffer), box.Image(), 0, |box.pose|) {
        WriteResyncs(old(boxBuffer), box.Image(), 0, box.pose);
      }
    }

    /** The box scales at pose.byteLength. */
    method UpdateBoxScales()
      requires Valid()
      modifies this`boxBuffer
      ensures boxBuffer == Write(old(boxBuffer), ByteLength(box.pose), box.scales)
      ensures AgreesOutside(old(boxBuffer), box.Image(), |box.pose|, |box.pose| + |box.scales|) ==>
        boxBuffer == box.Image()
      ensures cameraBuffer == old(cameraBuffer) && lightBuffer == old(lightBuffer) && shadowBuffer == old(shadowBuffer)
    {
      boxBuffer := Write(boxBuffer, ByteLength(box.pose), box.scales);
      var lo := |box.pose|;
      if AgreesOutside(old(boxBuffer), box.Image(), lo, lo + |box.scales|) {
        assert box.Image()[..lo] == box.pose;
        assert box.Image()[lo..lo + |box.scales|] == box.scales;
        WriteResyncs(old(boxBuffer), box.Image(), lo, box.scales);
      }
    }

    /** The camera pose at offset 0. */
    method UpdateCameraPose()
      requires Valid()
      modifies this`cameraBuffer
      ensures cameraBuffer == Write(old(cameraBuffer), 0, camera.pose[..])
      ensures AgreesOutside(old(cameraBuffer), CameraImage(camera), 0, 16) ==> cameraBuffer == CameraImage(camera)
      ensures boxBuffer == old(boxBuffer) && lightBuffer == old(lightBuffer) && shadowBuffer == old(shadowBuffer)
    {
      cameraBuffer := Write(cameraBuffer, 0, camera.pose[..]);
      CameraRegions(camera);
      if AgreesOutside(old(cameraBuffer), CameraImage(camera), 0, 16) {
        WriteResyncs(old(cameraBuffer), CameraImage(camera), 0, camera.pose[..]);
      }
    }

    /** The camera focal at pose.byteLength. */
    method UpdateCameraFocal()
      requires Valid()
      modifies this`cameraBuffer
      ensures cameraBuffer == Write(old(cameraBuffer), FocalAt, camera.focal[..])
      ensures AgreesOutside(old(cameraBuffer), CameraImage(camera), 16, 18) ==> cameraBuffer == CameraImage(camera)
      ensures boxBuffer == old(boxBuffer) && lightBuffer == old(lightBuffer) && shadowBuffer == old(shadowBuffer)
    {
      CameraRegions(camera);
      cameraBuffer := Write(cameraBuffer, ByteLength(camera.pose[..]), camera.focal[..]);
      if AgreesOutside(old(cameraBuffer), CameraImage(camera), 16, 18) {
        WriteResyncs(old(cameraBuffer), CameraImage(camera), 16, camera.focal[..]);
      }
    }

    // ---------------------------------------------------------- light and shadow mode

    /** The light's five arrays at running offsets.  On the 20-float buffer
        they all land, end to end, exactly when together they take at most
        80 bytes; the floats after them keep their values. */
    method UpdateLight(light: Light)
      modifies this`lightBuffer
      ensures lightBuffer == Serialise(old(lightBuffer), 0, light.Regions())
      ensures |old(lightBuffer)| == LightWords ==>
        (light.Image() <= lightBuffer <==> ByteLength(light.Image()) <= LightBytes)
      ensures |light.Image()| <= |old(lightBuffer)| ==>
        lightBuffer == light.Image() + old(lightBuffer)[|light.Image()|..]
      ensures cameraBuffer == old(cameraBuffer) && boxBuffer == old(boxBuffer) && shadowBuffer == old(shadowBuffer)
    {
      light.ImageLayout();
      SerialiseFits(lightBuffer, light.Regions());
      lightBuffer := Serialise(lightBuffer, 0, light.Regions());
    }

    /** Stores the mode and writes it as one 32-bit integer at offset 0; on
        the 4-byte buffer that leaves the buffer holding exactly the mode. */
    method UpdateShadowMode(mode: int)
      modifies this`shadowMode, this`shadowBuffer
      ensures shadowMode == mode
      ensures shadowBuffer == Write(old(shadowBuffer), 0, [ShadowWord(mode)])
      ensures |old(shadowBuffer)| == 1 ==> ShadowSynced()
      ensures cameraBuffer == old(cameraBuffer) && boxBuffer == old(boxBuffer) && lightBuffer == old(lightBuffer)
    {
      shadowMode := mode;
      shadowBuffer := Write(shadowBuffer, 0, [Int32(mode) as real]);
      if |old(shadowBuffer)| == 1 {
        assert Fits(old(shadowBuffer), 0, [ShadowWord(mode)]);
        assert shadowBuffer[0..1] == [ShadowWord(mode)];
      }
    }

    // ---------------------------------------------------------- dispatch

    method CreateBindGroup(width: nat, height: nat)
      modifies this`wgWidth, this`wgHeight
      ensures wgWidth == width && wgHeight == height
      ensures cameraBuffer == old(cameraBuffer) && boxBuffer == old(boxBuffer)
      ensures lightBuffer == old(lightBuffer) && shadowBuffer == old(shadowBuffer)
    {
      wgWidth := width;
      wgHeight := height;
    }

    /** The projective pipeline exactly when the camera is projective, and
        16 x 16 groups that cover the image. */
    method Compute() returns (d: Dispatch)
      ensures d.pipeline == ProjectiveEntry <==> camera.isProjective
      ensures d.pipeline == OrthogonalEntry <==> !camera.isProjective
      ensures d.x * TileSize >= wgWidth && d.y * TileSize >= wgHeight
      ensures (d.x == 0 || (d.x - 1) * TileSize < wgWidth) && (d.y == 0 || (d.y - 1) * TileSize < wgHeight)
    {
      d := TileDispatch(TracePipeline(camera.isProjective), wgWidth, wgHeight);
    }
  }
}
