/**
 * ProceduralVolumeData: a dims[0] x dims[1] x dims[2] volume whose voxel
 * (x, y, z) holds (x XOR y XOR z) AND 255, stored x-fastest in a flat
 * Float32Array.  The triple loop visits the voxels in storage order, so
 * the flat index it writes is a running count; the lemmas show that the
 * index map is a bijection between in-range triples and [0, n).
 *
 * VolumeData, the file-backed volume, is modelled by FileVolume in
 * module VolumeRendering, with what its init reads as a parameter.
 */
module VolumeData {

  const DefaultDims: seq<nat> := [64, 64, 64]
  const DefaultSizes: seq<real> := [1.0, 1.0, 1.0]

  /** The flat index z * (d0 * d1) + y * d0 + x. */
  function Idx(x: nat, y: nat, z: nat, d0: nat, d1: nat): nat
  {
    z * (d0 * d1) + y * d0 + x
  }

  /** (x ^ y ^ z) & 255.  JavaScript's ^ works on 32-bit integers, and the
      mask keeps the low eight bits, which only the low eight bits of each
      operand decide. */
  function Voxel(x: nat, y: nat, z: nat): (v: nat)
    ensures v <= 255
  {
    ((x % 256) as bv8 ^ (y % 256) as bv8 ^ (z % 256) as bv8) as nat
  }

  /** The triple whose flat index is k. */
  function Decode(k: nat, d0: nat, d1: nat): (t: (nat, nat, nat))
    requires d0 > 0 && d1 > 0
  {
    (k % d0, (k / d0) % d1, k / (d0 * d1))
  }

  /** The voxel value belonging to flat index k. */
  function VoxelAt(k: nat, d0: nat, d1: nat): nat
    requires d0 > 0 && d1 > 0
  {
    var t := Decode(k, d0, d1);
    Voxel(t.0, t.1, t.2)
  }

  /** Euclidean division is unique. */
  lemma DivModUnique(a: int, d: int, q: int, r: int)
    requires d > 0 && 0 <= r < d && a == q * d + r
    ensures a / d == q && a % d == r
  {
    var q', r' := a / d, a % d;
    assert (q - q') * d == r' - r;
    if q > q' {
      MulAtLeast(q - q', d);
    } else if q < q' {
      MulAtLeast(q' - q, d);
    }
  }

  lemma MulAtLeast(k: int, d: int)
    requires k >= 1 && d > 0
    ensures k * d >= d
  {
    assert k * d == (k - 1) * d + d;
  }

  /** A quotient by m of something below m * n is below n. */
  lemma DivBelow(k: nat, m: nat, n: nat)
    requires m > 0 && k < m * n
    ensures k / m < n
  {
    var q := k / m;
    assert q * m <= k;
    assert (n - q) * m == n * m - q * m;
    assert (n - q) * m > 0;
  }

  lemma DivDiv(a: nat, b: nat, c: nat)
    requires b > 0 && c > 0
    ensures a / (b * c) == (a / b) / c
  {
    var q, r := (a / b) / c, (a / b) % c;
    assert a / b == q * c + r;
    assert a == (q * c + r) * b + a % b;
    assert a == q * (b * c) + (r * b + a % b);
    assert r * b + a % b < b * c by {
      assert r * b <= (c - 1) * b;
    }
    DivModUnique(a, b * c, q, r * b + a % b);
  }

  /** In-range triples are decoded back from their index: distinct
      triples get distinct indices. */
  lemma DecodeIdx(x: nat, y: nat, z: nat, d0: nat, d1: nat)
    requires x < d0 && y < d1
    ensures Decode(Idx(x, y, z, d0, d1), d0, d1) == (x, y, z)
  {
    var k := Idx(x, y, z, d0, d1);
    assert k == (z * d1 + y) * d0 + x;
    DivModUnique(k, d0, z * d1 + y, x);
    DivModUnique(z * d1 + y, d1, z, y);
    DivDiv(k, d0, d1);
  }

  /** Every index below d0 * d1 * d2 is the index of an in-range triple, so
      the loops write every slot. */
  lemma IdxDecode(k: nat, d0: nat, d1: nat, d2: nat)
    requires d0 > 0 && d1 > 0 && k < d0 * d1 * d2
    ensures var t := Decode(k, d0, d1);
      t.0 < d0 && t.1 < d1 && t.2 < d2 && Idx(t.0, t.1, t.2, d0, d1) == k
  {
    var t := Decode(k, d0, d1);
    DivDiv(k, d0, d1);
    assert k == (k / d0) * d0 + t.0;
    assert k / d0 == t.2 * d1 + t.1;
    assert k == t.2 * (d0 * d1) + t.1 * d0 + t.0;
    assert k < (d0 * d1) * d2;
    DivBelow(k, d0 * d1, d2);
  }

  /** Slots [0, c) hold their voxel values. */
  ghost predicate Filled(data: array<real>, c: nat, d0: nat, d1: nat)
    reads data
  {
    c <= data.Length && (c > 0 ==> d0 > 0 && d1 > 0 && forall k :: 0 <= k < c ==> data[k] == VoxelAt(k, d0, d1) as real)
  }

  /** The innermost loop: row y of plane z. */
  method FillRow(data: array<real>, d0: nat, d1: nat, y: nat, z: nat)
    requires y < d1 && Filled(data, Idx(0, y, z, d0, d1), d0, d1)
    requires Idx(0, y, z, d0, d1) + d0 <= data.Length
    modifies data
    ensures Filled(data, Idx(0, y, z, d0, d1) + d0, d0, d1)
    ensures data[Idx(0, y, z, d0, d1) + d0..] == old(data[Idx(0, y, z, d0, d1) + d0..])
  {
    var base := Idx(0, y, z, d0, d1);
    for x := 0 to d0
      invariant Filled(data, base + x, d0, d1)
      invariant data[base + d0..] == old(data[base + d0..])
    {
      var idx := z * (d0 * d1) + y * d0 + x;
      DecodeIdx(x, y, z, d0, d1);
      var val := Voxel(x, y, z);
      data[idx] := val as real;
    }
  }

  /** The middle loop: plane z. */
  method FillPlane(data: array<real>, d0: nat, d1: nat, z: nat)
    requires Filled(data, Idx(0, 0, z, d0, d1), d0, d1)
    requires Idx(0, 0, z + 1, d0, d1) <= data.Length
    modifies data
    ensures Filled(data, Idx(0, 0, z + 1, d0, d1), d0, d1)
  {
    for y := 0 to d1
      invariant Filled(data, Idx(0, y, z, d0, d1), d0, d1)
    {
      RowStep(y, z, d0, d1);
      FillRow(data, d0, d1, y, z);
    }
    RowStep(d1, z, d0, d1);
  }

  /** Row y + 1 starts d0 slots after row y, and row d1 of plane z is
      plane z + 1. */
  lemma RowStep(y: nat, z: nat, d0: nat, d1: nat)
    ensures Idx(0, y + 1, z, d0, d1) == Idx(0, y, z, d0, d1) + d0
    ensures y < d1 ==> Idx(0, y + 1, z, d0, d1) <= Idx(0, 0, z + 1, d0, d1)
    ensures Idx(0, d1, z, d0, d1) == Idx(0, 0, z + 1, d0, d1)
  {
    if y < d1 {
      assert (y + 1) * d0 <= d1 * d0;
    }
  }

  /** The constructor's triple loop over a fresh zero-filled array. */
  method Fill(d0: nat, d1: nat, d2: nat) returns (data: array<real>)
    ensures fresh(data) && data.Length == d0 * d1 * d2
    ensures d0 > 0 && d1 > 0 ==> forall k :: 0 <= k < data.Length ==> data[k] == VoxelAt(k, d0, d1) as real
  {
    data := new real[d0 * d1 * d2](_ => 0.0);
    for z := 0 to d2
      invariant Filled(data, Idx(0, 0, z, d0, d1), d0, d1)
    {
      assert Idx(0, 0, z + 1, d0, d1) <= d0 * d1 * d2 by {
        assert (z + 1) * (d0 * d1) <= d2 * (d0 * d1);
      }
      FillPlane(data, d0, d1, z);
    }
    assert Idx(0, 0, d2, d0, d1) == d0 * d1 * d2;
  }

  class ProceduralVolumeData {
    const dims: seq<nat>
    const sizes: seq<real>
    const data: array<real>

    /** The triple loop; with fewer than three dims the size is NaN, the
        array is empty and no loop runs. */
    constructor (dims: seq<nat>, sizes: seq<real>)
      ensures this.dims == dims && this.sizes == sizes && fresh(data)
      ensures |dims| < 3 ==> data.Length == 0
      ensures |dims| >= 3 ==> data.Length == dims[0] * dims[1] * dims[2]
      ensures |dims| >= 3 ==> forall x: nat, y: nat, z: nat :: x < dims[0] && y < dims[1] && z < dims[2] ==>
        Idx(x, y, z, dims[0], dims[1]) < data.Length && data[Idx(x, y, z, dims[0], dims[1])] == Voxel(x, y, z) as real
    {
      this.dims := dims;
      this.sizes := sizes;
      if |dims| < 3 {
        data := new real[0];
      } else {
        var d0, d1, d2 := dims[0], dims[1], dims[2];
        var a := Fill(d0, d1, d2);
        FilledTriples(a, d0, d1, d2);
        data := a;
      }
    }

    /** new ProceduralVolumeData() with the default arguments. */
    constructor Default()
      ensures dims == DefaultDims && sizes == DefaultSizes && fresh(data)
      ensures data.Length == 262144
      ensures forall k :: 0 <= k < data.Length ==> data[k] == VoxelAt(k, 64, 64) as real
    {
      var a := Fill(64, 64, 64);
      dims := DefaultDims;
      sizes := DefaultSizes;
      data := a;
    }
  }

  lemma IdxBelow(x: nat, y: nat, z: nat, d0: nat, d1: nat, d2: nat)
    requires x < d0 && y < d1 && z < d2
    ensures Idx(x, y, z, d0, d1) < d0 * d1 * d2
  {
    var p := d0 * d1;
    assert y * d0 + x < (y + 1) * d0;
    MulLe(y + 1, d1, d0);
    assert z * p + (y * d0 + x) < (z + 1) * p;
    MulLe(z + 1, d2, p);
    assert d0 * d1 * d2 == d2 * p;
  }

  lemma MulLe(a: nat, b: nat, c: nat)
    requires a <= b
    ensures a * c <= b * c
  {
  }

  /** The flat description of a filled volume, read back per triple. */
  lemma FilledTriples(a: array<real>, d0: nat, d1: nat, d2: nat)
    requires a.Length == d0 * d1 * d2
    requires d0 > 0 && d1 > 0 ==> forall k :: 0 <= k < a.Length ==> a[k] == VoxelAt(k, d0, d1) as real
    ensures forall x: nat, y: nat, z: nat :: x < d0 && y < d1 && z < d2 ==>
      Idx(x, y, z, d0, d1) < a.Length && a[Idx(x, y, z, d0, d1)] == Voxel(x, y, z) as real
  {
    forall x: nat, y: nat, z: nat | x < d0 && y < d1 && z < d2
      ensures Idx(x, y, z, d0, d1) < a.Length && a[Idx(x, y, z, d0, d1)] == Voxel(x, y, z) as real
    {
      var k := Idx(x, y, z, d0, d1);
      IdxBelow(x, y, z, d0, d1, d2);
      DecodeIdx(x, y, z, d0, d1);
      assert a[k] == VoxelAt(k, d0, d1) as real;
    }
  }
}
