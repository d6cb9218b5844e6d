/**
 * The slice of WebGPU that the scene objects' layout arithmetic depends on.
 * A buffer's contents are a sequence of 4-byte words (every array the
 * objects upload is a Float32Array or an Int32Array), offsets are in bytes,
 * and queue.writeBuffer copies words in at an offset.  A write that does not
 * fit the buffer is a validation error in WebGPU and changes nothing.
 * Dispatch sizes are Math.ceil(n / groupSize).
 */
module GpuBuffer {

  const BytesPerWord: nat := 4

  /** The byteLength of a typed array of 4-byte elements. */
  function ByteLength(data: seq<real>): (b: nat)
    ensures b % BytesPerWord == 0 && b / BytesPerWord == |data|
  {
    BytesPerWord * |data|
  }

  /** A fresh buffer of the given byte size: createBuffer zero-fills it. */
  function Zeros(size: nat): (buf: seq<real>)
    ensures |buf| * BytesPerWord <= size < (|buf| + 1) * BytesPerWord
    ensures forall k :: 0 <= k < |buf| ==> buf[k] == 0.0
  {
    seq(size / BytesPerWord, _ => 0.0)
  }

  /** Whether a write of data at byte offset lies inside buf. */
  predicate Fits(buf: seq<real>, offset: nat, data: seq<real>)
  {
    offset % BytesPerWord == 0 && offset / BytesPerWord + |data| <= |buf|
  }

  /** queue.writeBuffer(buf, offset, data). */
  function Write(buf: seq<real>, offset: nat, data: seq<real>): (r: seq<real>)
    ensures |r| == |buf|
    ensures Fits(buf, offset, data) ==>
      var o := offset / BytesPerWord;
      && r[o..o + |data|] == data && r[..o] == buf[..o] && r[o + |data|..] == buf[o + |data|..]
    ensures !Fits(buf, offset, data) ==> r == buf
  {
    if Fits(buf, offset, data) then
      var o := offset / BytesPerWord;
      buf[..o] + data + buf[o + |data|..]
    else buf
  }

  /** Writing a region and then reading it back gives the data, wherever
      the other regions lie: the write at the end of a known prefix extends
      that prefix. */
  lemma WriteExtends(buf: seq<real>, prefix: seq<real>, data: seq<real>)
    requires prefix <= buf && |prefix| + |data| <= |buf|
    ensures prefix + data <= Write(buf, ByteLength(prefix), data)
  {
    var r := Write(buf, ByteLength(prefix), data);
    assert Fits(buf, ByteLength(prefix), data);
    assert r[..|prefix|] == prefix;
    assert r[|prefix|..|prefix| + |data|] == data;
    assert (prefix + data) == r[..|prefix| + |data|];
  }

  /** Writing at the offset where a region already sits, with data of the
      same length, replaces that region and nothing else. */
  lemma WriteReplaces(before: seq<real>, stale: seq<real>, after: seq<real>, data: seq<real>)
    requires |data| == |stale|
    ensures Write(before + stale + after, ByteLength(before), data) == before + data + after
  {
    var buf := before + stale + after;
    assert buf[..|before|] == before;
    assert buf[|before| + |data|..] == after;
  }

  /** Math.ceil(n / d) for a whole n and a positive group size d. */
  function CeilDiv(n: nat, d: nat): (q: nat)
    requires d > 0
    ensures q * d >= n && (q == 0 || (q - 1) * d < n)
  {
    if n == 0 then 0 else (n - 1) / d + 1
  }

  /** One compute dispatch: the pipeline it runs and its workgroup counts. */
  datatype Dispatch = Dispatch(pipeline: string, x: nat, y: nat)

  /** The 16 x 16 tiling that every ray-tracing object dispatches. */
  const TileSize: nat := 16

  /** Math.ceil(w / 16) x Math.ceil(h / 16) groups: together the groups
      cover every pixel, and no group lies wholly outside the image. */
  function TileDispatch(pipeline: string, w: nat, h: nat): (d: Dispatch)
    ensures d.pipeline == pipeline
    ensures d.x * TileSize >= w && d.y * TileSize >= h
    ensures (d.x == 0 || (d.x - 1) * TileSize < w) && (d.y == 0 || (d.y - 1) * TileSize < h)
  {
    Dispatch(pipeline, CeilDiv(w, TileSize), CeilDiv(h, TileSize))
  }
}
