/**
 * The buffer layouts shared by the ray-tracing scene objects.
 *
 * Every ray-tracing object uploads its camera as pose, focal and
 * resolutions at byte offsets 0, pose.byteLength and pose.byteLength +
 * focal.byteLength of a buffer sized exactly for the three, and uploads its
 * shapes with a running-offset serialiser: write a region at offset, add
 * the region's byteLength to offset, write the next.  The update methods
 * later rewrite one region at the offset the serialiser gave it; the
 * lemmas here say when that brings a stale buffer back in step with the
 * objects it mirrors.
 */
module RayLayout {
  import opened GpuBuffer
  import Camera3D

  /** The regions laid end to end. */
  function Concat(regions: seq<seq<real>>): seq<real>
  {
    if |regions| == 0 then [] else regions[0] + Concat(regions[1..])
  }

  /** Laying out two lists of regions one after the other. */
  lemma {:induction false} ConcatAppend(a: seq<seq<real>>, b: seq<seq<real>>)
    ensures Concat(a + b) == Concat(a) + Concat(b)
    decreases |a|
  {
    if |a| > 0 {
      assert (a + b)[1..] == a[1..] + b;
      ConcatAppend(a[1..], b);
    } else {
      assert a + b == b;
    }
  }

  lemma ConcatPair(a: seq<real>, b: seq<real>)
    ensures Concat([a, b]) == a + b
  {
    var r := [a, b];
    assert r[1..] == [b];
    assert r[1..][1..] == [];
    assert Concat(r[1..]) == b + Concat(r[1..][1..]);
  }

  /** writeBuffer(buf, offset, r); offset += r.byteLength, for each region
      r in order. */
  function Serialise(buf: seq<real>, offset: nat, regions: seq<seq<real>>): (r: seq<real>)
    ensures |r| == |buf|
    decreases |regions|
  {
    if |regions| == 0 then buf
    else Serialise(Write(buf, offset, regions[0]), offset + ByteLength(regions[0]), regions[1..])
  }

  /** Serialising after a prefix that is already in place, into a buffer
      with room for every region, lays the regions out end to end after
      that prefix and leaves the rest of the buffer as it was. */
  lemma {:induction false} SerialiseLays(buf: seq<real>, prefix: seq<real>, regions: seq<seq<real>>)
    requires prefix <= buf && |prefix| + |Concat(regions)| <= |buf|
    ensures prefix + Concat(regions) <= Serialise(buf, ByteLength(prefix), regions)
    ensures Serialise(buf, ByteLength(prefix), regions)[|prefix| + |Concat(regions)|..]
      == buf[|prefix| + |Concat(regions)|..]
    decreases |regions|
  {
    if |regions| > 0 {
      var head, tail := regions[0], regions[1..];
      var longer := prefix + head;
      var next := Write(buf, ByteLength(prefix), head);
      var end := |prefix| + |Concat(regions)|;
      SerialiseCons(buf, prefix, regions);
      NextFacts(buf, prefix, head, end);
      SerialiseLays(next, longer, tail);
      AppendAssoc(prefix, head, Concat(tail));
    }
  }

  /** Concatenation regroups freely. */
  lemma AppendAssoc(a: seq<real>, b: seq<real>, c: seq<real>)
    ensures (a + b) + c == a + (b + c)
  {
  }

  /** Serialising the first region, then the rest from the next offset,
      is serialising them all. */
  lemma SerialiseCons(buf: seq<real>, prefix: seq<real>, regions: seq<seq<real>>)
    requires |regions| > 0
    ensures Serialise(buf, ByteLength(prefix), regions)
      == Serialise(Write(buf, ByteLength(prefix), regions[0]), ByteLength(prefix + regions[0]), regions[1..])
    ensures Concat(regions) == regions[0] + Concat(regions[1..])
  {
    assert ByteLength(prefix) + ByteLength(regions[0]) == ByteLength(prefix + regions[0]);
  }

  /** The write at the end of a prefix extends the prefix and keeps
      everything from end on. */
  lemma NextFacts(buf: seq<real>, prefix: seq<real>, data: seq<real>, end: nat)
    requires prefix <= buf && |prefix| + |data| <= end <= |buf|
    ensures var next := Write(buf, ByteLength(prefix), data);
      prefix + data <= next && |next| == |buf| && next[end..] == buf[end..]
  {
    WriteExtends(buf, prefix, data);
    WriteKeepsTail(buf, prefix, data, end);
  }

  lemma WriteKeepsTail(buf: seq<real>, prefix: seq<real>, data: seq<real>, from: nat)
    requires |prefix| + |data| <= from <= |buf|
    ensures Write(buf, ByteLength(prefix), data)[from..] == buf[from..]
  {
    assert Fits(buf, ByteLength(prefix), data);
  }

  /** Serialising from offset 0 fits exactly when the regions together are
      no longer than the buffer: then they all land, end to end, and the
      words after them keep their values. */
  lemma SerialiseFits(buf: seq<real>, regions: seq<seq<real>>)
    ensures Concat(regions) <= Serialise(buf, 0, regions) <==> |Concat(regions)| <= |buf|
    ensures |Concat(regions)| <= |buf| ==>
      Serialise(buf, 0, regions) == Concat(regions) + buf[|Concat(regions)|..]
  {
    if |Concat(regions)| <= |buf| {
      SerialiseLays(buf, [], regions);
      var r := Serialise(buf, 0, regions);
      assert r == r[..|Concat(regions)|] + r[|Concat(regions)|..];
    }
  }

  /** The six faces all have len words. */
  predicate FacesShare(front: seq<real>, back: seq<real>, left: seq<real>, right: seq<real>,
                       top: seq<real>, down: seq<real>, len: nat)
  {
    |front| == len && |back| == len && |left| == len && |right| == len && |top| == len && |down| == len
  }

  // ------------------------------------------------------------ rewriting one region

  /** buf and image differ at most in the words [lo, hi). */
  predicate AgreesOutside(buf: seq<real>, image: seq<real>, lo: nat, hi: nat)
  {
    |buf| == |image| && lo <= hi <= |image| && buf[..lo] == image[..lo] && buf[hi..] == image[hi..]
  }

  /** A buffer that mirrors image everywhere but one region mirrors it
      entirely once that region's data is written at its offset. */
  lemma WriteResyncs(buf: seq<real>, image: seq<real>, lo: nat, data: seq<real>)
    requires AgreesOutside(buf, image, lo, lo + |data|)
    requires image[lo..lo + |data|] == data
    ensures Write(buf, ByteLength(image[..lo]), data) == image
  {
    var hi := lo + |data|;
    assert buf == image[..lo] + buf[lo..hi] + image[hi..];
    WriteReplaces(image[..lo], buf[lo..hi], image[hi..], data);
    assert image == image[..lo] + data + image[hi..];
  }

  /** The same for an image of three parts whose middle part is
      rewritten at the byte length of the first. */
  lemma MiddleResyncs(stale: seq<real>, head: seq<real>, data: seq<real>, tail: seq<real>)
    requires AgreesOutside(stale, head + data + tail, |head|, |head| + |data|)
    ensures Write(stale, ByteLength(head), data) == head + data + tail
  {
    var image := head + data + tail;
    assert image[..|head|] == head;
    assert image[|head|..|head| + |data|] == data;
    WriteResyncs(stale, image, |head|, data);
  }

  // ------------------------------------------------------------ the camera buffer

  /** The camera as its buffer holds it: pose, focal, resolutions. */
  function CameraImage(c: Camera3D.Camera): seq<real>
    reads c, c.pose, c.focal, c.resolutions
  {
    c.pose[..] + c.focal[..] + c.resolutions[..]
  }

  /** createGeometry's camera upload: a buffer of the three byte lengths
      together and three writes at offsets 0, pose.byteLength and
      pose.byteLength + focal.byteLength.  The explicit offsets are the
      running ones, so the buffer is exactly the camera image. */
  function UploadCamera(pose: seq<real>, focal: seq<real>, res: seq<real>): (buf: seq<real>)
    ensures buf == pose + focal + res
    ensures ByteLength(buf) == ByteLength(pose) + ByteLength(focal) + ByteLength(res)
  {
    var size := ByteLength(pose) + ByteLength(focal) + ByteLength(res);
    var b0 := Zeros(size);
    var b1 := Write(b0, 0, pose);
    var b2 := Write(b1, ByteLength(pose), focal);
    var b3 := Write(b2, ByteLength(pose) + ByteLength(focal), res);
    WriteExtends(b0, [], pose);
    assert ByteLength([]) == 0;
    WriteExtends(b1, pose, focal);
    WriteExtends(b2, pose + focal, res);
    assert b3[..|pose + focal + res|] == b3;
    b3
  }

  /** The byte offsets of the camera fields in the camera buffer. */
  const FocalAt: nat := 64
  const ResolutionsAt: nat := 72

  /** The word ranges of the camera fields: [0, 16), [16, 18), [18, 20). */
  lemma CameraRegions(c: Camera3D.Camera)
    requires c.Valid()
    ensures |CameraImage(c)| == 20
    ensures CameraImage(c)[..16] == c.pose[..] && ByteLength(c.pose[..]) == FocalAt
    ensures CameraImage(c)[16..18] == c.focal[..] && ByteLength(CameraImage(c)[..16]) == FocalAt
    ensures CameraImage(c)[18..] == c.resolutions[..] && ByteLength(CameraImage(c)[..18]) == ResolutionsAt
  {
  }

  // ------------------------------------------------------------ dispatch

  const OrthogonalEntry: string := "computeOrthogonalMain"
  const ProjectiveEntry: string := "computeProjectiveMain"

  /** compute's pipeline: the projective one exactly when the camera is
      projective. */
  function TracePipeline(projective: bool): (p: string)
    ensures p == ProjectiveEntry <==> projective
    ensures p == OrthogonalEntry <==> !projective
  {
    if projective then ProjectiveEntry else OrthogonalEntry
  }

  /** UnitCube2.js is not part of this model: the cube is its eight arrays
      (pose, scales and the six faces), which code outside this model may
      replace. */
  class UnitCube {
    var pose: seq<real>
    var scales: seq<real>
    var front: seq<real>
    var back: seq<real>
    var left: seq<real>
    var right: seq<real>
    var top: seq<real>
    var down: seq<real>

    constructor (pose: seq<real>, scales: seq<real>, faces: seq<seq<real>>)
      requires |faces| == 6
      ensures this.pose == pose && this.scales == scales
      ensures [front, back, left, right, top, down] == faces
    {
      this.pose := pose;
      this.scales := scales;
      front, back, left, right := faces[0], faces[1], faces[2], faces[3];
      top, down := faces[4], faces[5];
    }

    /** The eight arrays in upload order. */
    function Regions(): seq<seq<real>>
      reads this
    {
      [pose, scales, front, back, left, right, top, down]
    }

    function Image(): seq<real>
      reads this
    {
      pose + scales + front + back + left + right + top + down
    }

    predicate FacesAre(len: nat)
      reads this
    {
      FacesShare(front, back, left, right, top, down, len)
    }

    /** The regions end to end are the image; with faces of len words each
        it is pose, scales and six faces of len words. */
    lemma ImageLayout(len: nat)
      ensures Concat(Regions()) == Image()
      ensures FacesAre(len) ==> |Image()| == |pose| + |scales| + 6 * len
    {
      var r := Regions();
      assert Concat(r[7..]) == down;
      assert Concat(r[6..]) == top + down;
      assert Concat(r[5..]) == right + (top + down);
      assert Concat(r[4..]) == left + (right + (top + down));
      assert Concat(r[3..]) == back + (left + (right + (top + down)));
      assert Concat(r[2..]) == front + (back + (left + (right + (top + down))));
      assert Concat(r[1..]) == scales + (front + (back + (left + (right + (top + down)))));
      assert Concat(r) == pose + (scales + (front + (back + (left + (right + (top + down))))));
    }
  }
}
