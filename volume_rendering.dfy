/**
 * VolumeRenderingSimpleObject (quest 7): a volume traced on the GPU.  The
 * volume mode picks one of three BrainWeb scans (loaded from a file by
 * init) or the procedural XOR volume.  createGeometry uploads three
 * buffers: the camera (pose, focal, resolutions), a header holding the
 * volume's dims and sizes, each followed by a zero pad word, and the voxel
 * data itself.
 *
 * VolumeByteIO.js is not part of this model: what it reads from a scan
 * file comes in as a parameter of createGeometry.  Shaders, pipelines and
 * bind-group objects are not part of it either; the image size comes in
 * as parameters.
 */
module VolumeRendering {
  import opened Wrappers
  import opened GpuBuffer
  import opened RayLayout
  import Camera3D
  import VolumeData

  const PdFile: string := "/quest7/assets/brainweb-pd-1mm-pn0-rf0.raws"
  const T1File: string := "/quest7/assets/brainweb-t1-1mm-pn0-rf0.raws"
  const T2File: string := "/quest7/assets/brainweb-t2-1mm-pn0-rf0.raws"

  /** The scan file a volume mode loads: PD, T1 and T2 for modes 0, 1 and
      2, and none (the procedural volume) for every other mode. */
  function VolumeFile(mode: int): (f: Option<string>)
    ensures f.Some? <==> 0 <= mode <= 2
    ensures mode == 0 ==> f == Some(PdFile)
    ensures mode == 1 ==> f == Some(T1File)
    ensures mode == 2 ==> f == Some(T2File)
  {
    if mode == 0 then Some(PdFile)
    else if mode == 1 then Some(T1File)
    else if mode == 2 then Some(T2File)
    else None
  }

  /** What VolumeByteIO.read returns: dims, sizes and the voxels. */
  datatype Scan = Scan(dims: seq<real>, sizes: seq<real>, data: seq<real>)

  /** The header the volume buffer holds: the dims, a pad word, the sizes,
      a pad word. */
  function Header(dims: seq<real>, sizes: seq<real>): (h: seq<real>)
    ensures |h| == |dims| + |sizes| + 2
    ensures h[..|dims|] == dims && h[|dims|] == 0.0
    ensures h[|dims| + 1..|dims| + 1 + |sizes|] == sizes && h[|h| - 1] == 0.0
  {
    dims + [0.0] + sizes + [0.0]
  }

  /** A buffer of exactly data's byte length, written with data at 0,
      holds data. */
  lemma UploadExact(data: seq<real>)
    ensures Write(Zeros(ByteLength(data)), 0, data) == data
  {
    var z := Zeros(ByteLength(data));
    assert |z| == |data|;
    assert Fits(z, 0, data);
    var r := Write(z, 0, data);
    assert r[0..|data|] == data;
  }

  /** VolumeData: a scan file, read by init. */
  class FileVolume {
    const filename: string
    var dims: seq<real>
    var sizes: seq<real>
    var data: seq<real>

    constructor (filename: string)
      ensures this.filename == filename && dims == [] && sizes == [] && data == []
    {
      this.filename := filename;
      dims, sizes, data := [], [], [];
    }

    /** init: dims, sizes and data become what was read from the file. */
    method Init(scan: Scan)
      modifies this
      ensures dims == scan.dims && sizes == scan.sizes && data == scan.data
    {
      dims := scan.dims;
      sizes := scan.sizes;
      data := scan.data;
    }
  }

  class VolumeRenderingSimpleObject {
    const camera: Camera3D.Camera
    /** The volume: a scan file for modes 0 to 2, else the procedural one. */
    const file: FileVolume?
    const procedural: VolumeData.ProceduralVolumeData?
    var cameraBuffer: seq<real>
    var volumeBuffer: seq<real>
    var dataBuffer: seq<real>
    var wgWidth: nat
    var wgHeight: nat

    predicate Valid()
      reads this, camera
    {
      camera.Valid() && (file == null <==> procedural != null)
    }

    /** The volume's dims getter (as floats, the way the header stores them). */
    function Dims(): seq<real>
      reads file, procedural
    {
      if file != null then file.dims
      else if procedural != null then seq(|procedural.dims|, i requires 0 <= i < |procedural.dims| => procedural.dims[i] as real)
      else []
    }

    function Sizes(): seq<real>
      reads file, procedural
    {
      if file != null then file.sizes else if procedural != null then procedural.sizes else []
    }

    function Data(): seq<real>
      reads file, procedural, if procedural != null then {procedural.data} else {}
    {
      if file != null then file.data else if procedural != null then procedural.data[..] else []
    }

    constructor (camera: Camera3D.Camera, volumeMode: int)
      requires camera.Valid()
      ensures Valid() && this.camera == camera
      ensures VolumeFile(volumeMode).Some? ==> file != null && fresh(file) && file.filename == VolumeFile(volumeMode).value
      ensures VolumeFile(volumeMode).None? ==>
        procedural != null && fresh(procedural) && fresh(procedural.data)
        && procedural.dims == VolumeData.DefaultDims && procedural.sizes == VolumeData.DefaultSizes
    {
      this.camera := camera;
      if volumeMode == 0 {
        file := new FileVolume(PdFile);
        procedural := null;
      } else if volumeMode == 1 {
        file := new FileVolume(T1File);
        procedural := null;
      } else if volumeMode == 2 {
        file := new FileVolume(T2File);
        procedural := null;
      } else {
        file := null;
        procedural := new VolumeData.ProceduralVolumeData.Default();
      }
      cameraBuffer, volumeBuffer, dataBuffer := [], [], [];
      wgWidth, wgHeight := 0, 0;
    }

    /** Loads the scan (only a file volume has init; scan is what it reads),
        then uploads the camera image, the header into a buffer of
        (dims.length + sizes.length + 2) * 4 bytes that it fills exactly,
        and every voxel into a buffer of data.length * 4 bytes. */
    method CreateGeometry(scan: Scan)
      requires Valid()
      modifies this, file
      ensures file != null ==> file.dims == scan.dims && file.sizes == scan.sizes && file.data == scan.data
      ensures procedural != null ==> Data() == old(Data())
      ensures cameraBuffer == CameraImage(camera)
      ensures ByteLength(volumeBuffer) == (|Dims()| + |Sizes()| + 2) * BytesPerWord
      ensures volumeBuffer == Header(Dims(), Sizes())
      ensures ByteLength(dataBuffer) == |Data()| * BytesPerWord && dataBuffer == Data()
      ensures wgWidth == old(wgWidth) && wgHeight == old(wgHeight)
    {
      if file != null {
        file.Init(scan);
      }
      Upload();
    }

    /** The three uploads of createGeometry, once the volume is loaded. */
    method Upload()
      requires Valid()
      modifies this`cameraBuffer, this`volumeBuffer, this`dataBuffer
      ensures cameraBuffer == CameraImage(camera)
      ensures ByteLength(volumeBuffer) == (|Dims()| + |Sizes()| + 2) * BytesPerWord
      ensures volumeBuffer == Header(Dims(), Sizes())
      ensures ByteLength(dataBuffer) == |Data()| * BytesPerWord && dataBuffer == Data()
    {
      var cam := UploadCamera(camera.pose[..], camera.focal[..], camera.resolutions[..]);
      var header := Header(Dims(), Sizes());
      UploadExact(header);
      var volume := Write(Zeros(ByteLength(header)), 0, header);
      var data := Data();
      UploadExact(data);
      var voxels := Write(Zeros(ByteLength(data)), 0, data);
      cameraBuffer, volumeBuffer, dataBuffer := cam, volume, voxels;
    }

    /** The image size into the camera, then the resolutions at
        pose.byteLength + focal.byteLength. */
    method UpdateGeometry(imgWidth: real, imgHeight: real)
      requires Valid()
      modifies this`cameraBuffer, camera.resolutions
      ensures camera.resolutions[..] == [imgWidth, imgHeight]
      ensures cameraBuffer == Write(old(cameraBuffer), ResolutionsAt, [imgWidth, imgHeight])
      ensures AgreesOutside(old(cameraBuffer), CameraImage(camera), 18, 20) ==> cameraBuffer == CameraImage(camera)
      ensures volumeBuffer == old(volumeBuffer) && dataBuffer == old(dataBuffer)
    {
      camera.UpdateSize(imgWidth, imgHeight);
      CameraRegions(camera);
      var ofs := ByteLength(camera.pose[..]) + ByteLength(camera.focal[..]);
      cameraBuffer := Write(cameraBuffer, ofs, camera.resolutions[..]);
      if AgreesOutside(old(cameraBuffer), CameraImage(camera), 18, 20) {
        WriteResyncs(old(cameraBuffer), CameraImage(camera), 18, camera.resolutions[..]);
      }
    }

    /** The camera pose at offset 0. */
    method UpdateCameraPose()
      requires Valid()
      modifies this`cameraBuffer
      ensures cameraBuffer == Write(old(cameraBuffer), 0, camera.pose[..])
      ensures AgreesOutside(old(cameraBuffer), CameraImage(camera), 0, 16) ==> cameraBuffer == CameraImage(camera)
      ensures volumeBuffer == old(volumeBuffer) && dataBuffer == old(dataBuffer)
    {
      cameraBuffer := Write(cameraBuffer, 0, camera.pose[..]);
      CameraRegions(camera);
      if AgreesOutside(old(cameraBuffer), CameraImage(camera), 0, 16) {
        WriteResyncs(old(cameraBuffer), CameraImage(camera), 0, camera.pose[..]);
      }
    }

    /** The camera focal at pose.byteLength. */
    method UpdateCameraFocal()
      requires Valid()
      modifies this`cameraBuffer
      ensures cameraBuffer == Write(old(cameraBuffer), FocalAt, camera.focal[..])
      ensures AgreesOutside(old(cameraBuffer), CameraImage(camera), 16, 18) ==> cameraBuffer == CameraImage(camera)
      ensures volumeBuffer == old(volumeBuffer) && dataBuffer == old(dataBuffer)
    {
      CameraRegions(camera);
      var ofs := ByteLength(camera.pose[..]);
      cameraBuffer := Write(cameraBuffer, ofs, camera.focal[..]);
      if AgreesOutside(old(cameraBuffer), CameraImage(camera), 16, 18) {
        WriteResyncs(old(cameraBuffer), CameraImage(camera), 16, camera.focal[..]);
      }
    }

    /** The workgroup extents are the texture's size (Math.ceil of a whole
        number is that number). */
    method CreateBindGroup(width: nat, height: nat)
      modifies this`wgWidth, this`wgHeight
      ensures wgWidth == width && wgHeight == height
      ensures cameraBuffer == old(cameraBuffer) && volumeBuffer == old(volumeBuffer) && dataBuffer == old(dataBuffer)
    {
      wgWidth := width;
      wgHeight := height;
    }

    /** The projective pipeline exactly when the camera is projective, and
        Math.ceil(width / 16) x Math.ceil(height / 16) groups: the fewest
        16 x 16 tiles that cover the image. */
    method Compute() returns (d: Dispatch)
      ensures d.pipeline == ProjectiveEntry <==> camera.isProjective
      ensures d.pipeline == OrthogonalEntry <==> !camera.isProjective
      ensures d.x * TileSize >= wgWidth && d.y * TileSize >= wgHeight
      ensures (d.x == 0 || (d.x - 1) * TileSize < wgWidth) && (d.y == 0 || (d.y - 1) * TileSize < wgHeight)
    {
      d := TileDispatch(TracePipeline(camera.isProjective), wgWidth, wgHeight);
    }
  }
}
