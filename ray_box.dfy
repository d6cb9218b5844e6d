/**
 * RayTracingBoxObject (quest 6): a box and a unit sphere traced on the GPU.
 * Two uniform buffers mirror the CPU objects: the camera buffer (pose,
 * focal, resolutions) and the scene buffer (the box's pose, scales and six
 * faces, then the sphere's pose and scales, at running offsets).  The
 * scene buffer is sized for six faces of front's length, so the layout is
 * exact when the faces agree in length.
 *
 * The shaders, pipelines and bind-group objects are not part of this
 * model; the image size comes in as parameters.
 */
module RayBox {
  import opened GpuBuffer
  import opened RayLayout
  import Camera3D
  import UnitShapes

  /** The cube's regions followed by the sphere's pose and scales, written
      into zeros of exactly their total size, are the images end to end. */
  lemma TilesExactly(cube: seq<seq<real>>, cubeImage: seq<real>, spherePose: seq<real>, sphereScales: seq<real>, size: nat)
    requires Concat(cube) == cubeImage
    requires size == ByteLength(cubeImage) + ByteLength(spherePose) + ByteLength(sphereScales)
    ensures Serialise(Zeros(size), 0, cube + [spherePose, sphereScales]) == cubeImage + spherePose + sphereScales
  {
    var tail := [spherePose, sphereScales];
    ConcatAppend(cube, tail);
    ConcatPair(spherePose, sphereScales);
    var regions := cube + tail;
    var zeros := Zeros(size);
    assert |Concat(regions)| == |zeros|;
    SerialiseFits(zeros, regions);
  }

  class RayTracingBoxObject {
    const camera: Camera3D.Camera
    const box: UnitCube
    const sphere: UnitShapes.UnitShape
    const showTexture: bool
    var cameraBuffer: seq<real>
    var sceneBuffer: seq<real>
    var wgWidth: nat
    var wgHeight: nat

    predicate Valid()
      reads camera, sphere
    {
      camera.Valid() && sphere.Valid()
    }

    /** boxBytes: pose, scales and six faces of front's length. */
    function BoxBytes(): nat
      reads box
    {
      ByteLength(box.pose) + ByteLength(box.scales) + ByteLength(box.front) * 6
    }

    /** totalSize: boxBytes plus the sphere's pose and scales. */
    function SceneBytes(): nat
      reads box, sphere, sphere.pose, sphere.scales
    {
      BoxBytes() + ByteLength(sphere.pose[..]) + ByteLength(sphere.scales[..])
    }

    /** The ten arrays in upload order. */
    function SceneRegions(): seq<seq<real>>
      reads box, sphere, sphere.pose, sphere.scales
    {
      box.Regions() + [sphere.pose[..], sphere.scales[..]]
    }

    /** The scene as its buffer should hold it. */
    function SceneImage(): seq<real>
      reads box, sphere, sphere.pose, sphere.scales
    {
      box.Image() + sphere.pose[..] + sphere.scales[..]
    }

    /** The first word of the sphere's pose and of its scales. */
    function SpherePoseWord(): nat
      reads box
    {
      |box.pose| + |box.scales| + 6 * |box.front|
    }

    constructor (camera: Camera3D.Camera, box: UnitCube, showTexture: bool)
      requires camera.Valid()
      ensures Valid() && this.camera == camera && this.box == box && this.showTexture == showTexture
      ensures fresh(sphere)
      ensures sphere.pose[..] == seq(UnitShapes.PoseSize, _ => 0.0) && sphere.scales[..] == UnitShapes.SphereScales
    {
      var s := UnitShapes.UnitShape.Sphere();
      this.camera := camera;
      this.box := box;
      this.sphere := s;
      this.showTexture := showTexture;
      cameraBuffer := [];
      sceneBuffer := [];
      wgWidth, wgHeight := 0, 0;
    }

    /** Uploads the camera and the scene.  The camera buffer is exactly the
        camera image; the scene buffer has totalSize bytes, and when the six
        faces share front's length the ten writes tile it exactly, so it is
        the scene image with the sphere's pose at boxBytes. */
    method CreateGeometry()
      requires Valid()
      modifies this`cameraBuffer, this`sceneBuffer
      ensures cameraBuffer == CameraImage(camera)
      ensures ByteLength(sceneBuffer) == SceneBytes()
      ensures sceneBuffer == Serialise(Zeros(SceneBytes()), 0, SceneRegions())
      ensures box.FacesAre(|box.front|) ==> sceneBuffer == SceneImage()
      ensures box.FacesAre(|box.front|) ==>
        ByteLength(SceneImage()[..SpherePoseWord()]) == BoxBytes()
        && SceneImage()[SpherePoseWord()..SpherePoseWord() + UnitShapes.PoseSize] == sphere.pose[..]
      ensures wgWidth == old(wgWidth) && wgHeight == old(wgHeight)
    {
      cameraBuffer := UploadCamera(camera.pose[..], camera.focal[..], camera.resolutions[..]);
      UploadScene();
    }

    /** The scene upload of createGeometry: the box, then the sphere's pose
        and scales, in a buffer of totalSize bytes. */
    method UploadScene()
      requires Valid()
      modifies this`sceneBuffer
      ensures ByteLength(sceneBuffer) == SceneBytes()
      ensures sceneBuffer == Serialise(Zeros(SceneBytes()), 0, SceneRegions())
      ensures box.FacesAre(|box.front|) ==> sceneBuffer == SceneImage()
      ensures box.FacesAre(|box.front|) ==>
        ByteLength(SceneImage()[..SpherePoseWord()]) == BoxBytes()
        && SceneImage()[SpherePoseWord()..SpherePoseWord() + UnitShapes.PoseSize] == sphere.pose[..]
    {
      var totalSize := BoxBytes() + ByteLength(sphere.pose[..]) + ByteLength(sphere.scales[..]);
      sceneBuffer := Serialise(Zeros(totalSize), 0, SceneRegions());
      if box.FacesAre(|box.front|) {
        SceneTiles();
      }
    }

    /** With agreeing faces the regions end to end are the scene image and
        exactly fill totalSize bytes. */
    lemma SceneTiles()
      requires Valid() && box.FacesAre(|box.front|)
      ensures Serialise(Zeros(SceneBytes()), 0, SceneRegions()) == SceneImage()
      ensures ByteLength(SceneImage()[..SpherePoseWord()]) == BoxBytes()
      ensures SceneImage()[SpherePoseWord()..SpherePoseWord() + UnitShapes.PoseSize] == sphere.pose[..]
      ensures ByteLength(SceneImage()[..SpherePoseWord() + UnitShapes.PoseSize]) == BoxBytes() + ByteLength(sphere.pose[..])
      ensures SceneImage()[SpherePoseWord() + UnitShapes.PoseSize..] == sphere.scales[..]
      ensures |SceneImage()| == SpherePoseWord() + UnitShapes.PoseSize + |sphere.scales[..]|
    {
      box.ImageLayout(|box.front|);
      TilesExactly(box.Regions(), box.Image(), sphere.pose[..], sphere.scales[..], SceneBytes());
      var image, lo := SceneImage(), SpherePoseWord();
      assert image[..lo] == box.Image();
      assert image[..lo + UnitShapes.PoseSize] == box.Image() + sphere.pose[..];
    }

    // ---------------------------------------------------------- updates

    /** The image size into the camera, then the resolutions at
        pose.byteLength + focal.byteLength: a buffer stale only there is
        back in step. */
    method UpdateGeometry(imgWidth: real, imgHeight: real)
      requires Valid()
      modifies this`cameraBuffer, camera.resolutions
      ensures camera.resolutions[..] == [imgWidth, imgHeight]
      ensures cameraBuffer == Write(old(cameraBuffer), ResolutionsAt, [imgWidth, imgHeight])
      ensures AgreesOutside(old(cameraBuffer), CameraImage(camera), 18, 20) ==> cameraBuffer == CameraImage(camera)
      ensures sceneBuffer == old(sceneBuffer)
    {
      camera.UpdateSize(imgWidth, imgHeight);
      CameraRegions(camera);
      cameraBuffer := Write(cameraBuffer, ByteLength(camera.pose[..]) + ByteLength(camera.focal[..]), camera.resolutions[..]);
      if AgreesOutside(old(cameraBuffer), CameraImage(camera), 18, 20) {
        WriteResyncs(old(cameraBuffer), CameraImage(camera), 18, camera.resolutions[..]);
      }
    }

    /** The camera pose at offset 0. */
    method UpdateCameraPose()
      requires Valid()
      modifies this`cameraBuffer
      ensures cameraBuffer == Write(old(cameraBuffer), 0, camera.pose[..])
      ensures AgreesOutside(old(cameraBuffer), CameraImage(camera), 0, 16) ==> cameraBuffer == CameraImage(camera)
      ensures sceneBuffer == old(sceneBuffer)
    {
      cameraBuffer := Write(cameraBuffer, 0, camera.pose[..]);
      CameraRegions(camera);
      if AgreesOutside(old(cameraBuffer), CameraImage(camera), 0, 16) {
        WriteResyncs(old(cameraBuffer), CameraImage(camera), 0, camera.pose[..]);
      }
    }

    /** The camera focal at pose.byteLength. */
    method UpdateCameraFocal()
      requires Valid()
      modifies this`cameraBuffer
      ensures cameraBuffer == Write(old(cameraBuffer), FocalAt, camera.focal[..])
      ensures AgreesOutside(old(cameraBuffer), CameraImage(camera), 16, 18) ==> cameraBuffer == CameraImage(camera)
      ensures sceneBuffer == old(sceneBuffer)
    {
      CameraRegions(camera);
      cameraBuffer := Write(cameraBuffer, ByteLength(camera.pose[..]), camera.focal[..]);
      if AgreesOutside(old(cameraBuffer), CameraImage(camera), 16, 18) {
        WriteResyncs(old(cameraBuffer), CameraImage(camera), 16, camera.focal[..]);
      }
    }

    /** The box pose at offset 0. */
    method UpdateBoxPose()
      requires Valid()
      modifies this`sceneBuffer
      ensures sceneBuffer == Write(old(sceneBuffer), 0, box.pose)
      ensures AgreesOutside(old(sceneBuffer), SceneImage(), 0, |box.pose|) ==> sceneBuffer == SceneImage()
      ensures cameraBuffer == old(cameraBuffer)
    {
      var offset := 0;
      sceneBuffer := Write(sceneBuffer, offset, box.pose);
      if AgreesOutside(old(sceneBuffer), SceneImage(), 0, |box.pose|) {
        WriteResyncs(old(sceneBuffer), SceneImage(), 0, box.pose);
      }
    }

    /** The box scales at pose.byteLength. */
    method UpdateBoxScales()
      requires Valid()
      modifies this`sceneBuffer
      ensures sceneBuffer == Write(old(sceneBuffer), ByteLength(box.pose), box.scales)
      ensures AgreesOutside(old(sceneBuffer), SceneImage(), |box.pose|, |box.pose| + |box.scales|) ==>
        sceneBuffer == SceneImage()
      ensures cameraBuffer == old(cameraBuffer)
    {
      var offset := ByteLength(box.pose);
      sceneBuffer := Write(sceneBuffer, offset, box.scales);
      var lo := |box.pose|;
      if AgreesOutside(old(sceneBuffer), SceneImage(), lo, lo + |box.scales|) {
        assert SceneImage()[..lo] == box.pose;
        assert SceneImage()[lo..lo + |box.scales|] == box.scales;
        WriteResyncs(old(sceneBuffer), SceneImage(), lo, box.scales);
      }
    }

    /** The sphere pose at boxBytes (SpherePoseResyncs: where
        createGeometry put it when the faces agree). */
    method UpdateSpherePose()
      requires Valid()
      modifies this`sceneBuffer
      ensures sceneBuffer == Write(old(sceneBuffer), BoxBytes(), sphere.pose[..])
      ensures cameraBuffer == old(cameraBuffer)
    {
      var boxBytes := BoxBytes();
      sceneBuffer := Write(sceneBuffer, boxBytes, sphere.pose[..]);
    }

    /** Writing the sphere's pose at boxBytes brings a buffer that mirrors
        the scene everywhere else back in step. */
    lemma SpherePoseResyncs(stale: seq<real>)
      requires Valid() && box.FacesAre(|box.front|)
      requires AgreesOutside(stale, SceneImage(), SpherePoseWord(), SpherePoseWord() + UnitShapes.PoseSize)
      ensures Write(stale, BoxBytes(), sphere.pose[..]) == SceneImage()
    {
      var head := box.Image();
      box.ImageLayout(|box.front|);
      assert ByteLength(head) == BoxBytes() && |head| == SpherePoseWord();
      MiddleResyncs(stale, head, sphere.pose[..], sphere.scales[..]);
    }

    /** The sphere scales at boxBytes + the sphere pose's byteLength
        (SphereScalesResyncs: where createGeometry put them). */
    method UpdateSphereScales()
      requires Valid()
      modifies this`sceneBuffer
      ensures sceneBuffer == Write(old(sceneBuffer), BoxBytes() + ByteLength(sphere.pose[..]), sphere.scales[..])
      ensures cameraBuffer == old(cameraBuffer)
    {
      var offset := BoxBytes() + ByteLength(sphere.pose[..]);
      sceneBuffer := Write(sceneBuffer, offset, sphere.scales[..]);
      assert BoxBytes() == old(BoxBytes());
      assert sphere.pose[..] == old(sphere.pose[..]);
    }

    /** Writing the sphere's scales at updateSphereScales' offset brings a
        buffer that mirrors the scene everywhere else back in step: the
        offset is the one createGeometry gave them. */
    lemma SphereScalesResyncs(stale: seq<real>)
      requires Valid() && box.FacesAre(|box.front|)
      requires AgreesOutside(stale, SceneImage(), SpherePoseWord() + UnitShapes.PoseSize, |SceneImage()|)
      ensures Write(stale, BoxBytes() + ByteLength(sphere.pose[..]), sphere.scales[..]) == SceneImage()
    {
      var head, data := box.Image() + sphere.pose[..], sphere.scales[..];
      box.ImageLayout(|box.front|);
      assert ByteLength(head) == BoxBytes() + ByteLength(sphere.pose[..]);
      assert SceneImage() == head + data + [];
      MiddleResyncs(stale, head, data, []);
    }

    // ---------------------------------------------------------- dispatch

    /** The workgroup extents are the texture's size (Math.ceil of a whole
        number is that number). */
    method CreateBindGroup(width: nat, height: nat)
      modifies this`wgWidth, this`wgHeight
      ensures wgWidth == width && wgHeight == height
      ensures cameraBuffer == old(cameraBuffer) && sceneBuffer == old(sceneBuffer)
    {
      wgWidth := width;
      wgHeight := height;
    }

    /** The projective pipeline exactly when the camera is projective, and
        16 x 16 groups that cover the image. */
    method Compute() returns (d: Dispatch)
      ensures d.pipeline == ProjectiveEntry <==> camera.isProjective
      ensures d.pipeline == OrthogonalEntry <==> !camera.isProjective
      ensures d.x * TileSize >= wgWidth && d.y * TileSize >= wgHeight
      ensures (d.x == 0 || (d.x - 1) * TileSize < wgWidth) && (d.y == 0 || (d.y - 1) * TileSize < wgHeight)
    {
      d := TileDispatch(TracePipeline(camera.isProjective), wgWidth, wgHeight);
    }
  }
}
