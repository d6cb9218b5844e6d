/**
 * PolygonObject: a polygon drawn as a line strip.  createGeometry flattens
 * the polygon's points into one vertex array, uploads it into a buffer of
 * exactly its byte size, and derives the vertex layout from the dimension
 * of the first point; render draws every point, including the duplicate
 * closing one.  Loading the polygon file is not part of this model: the
 * point list is the input.
 */
module PolygonObject {
  import opened Wrappers
  import opened GpuBuffer

  /** Array.prototype.flat() on a list of points. */
  function Flat(poly: seq<seq<real>>): seq<real>
  {
    if |poly| == 0 then [] else Flat(poly[..|poly| - 1]) + poly[|poly| - 1]
  }

  /** Every point has dim coordinates. */
  predicate Uniform(poly: seq<seq<real>>, dim: nat)
  {
    forall i :: 0 <= i < |poly| ==> |poly[i]| == dim
  }

  /** With dim coordinates per point, the flat array has numV * dim entries
      and coordinate j of point i sits at i * dim + j. */
  lemma {:induction false} FlatLayout(poly: seq<seq<real>>, dim: nat)
    requires Uniform(poly, dim)
    ensures |Flat(poly)| == |poly| * dim
    ensures forall i, j :: 0 <= i < |poly| && 0 <= j < dim ==> Flat(poly)[i * dim + j] == poly[i][j]
  {
    FlatLength(poly, dim);
    forall i, j | 0 <= i < |poly| && 0 <= j < dim
      ensures i * dim + j < |Flat(poly)| && Flat(poly)[i * dim + j] == poly[i][j]
    {
      FlatAt(poly, dim, i, j);
    }
  }

  lemma {:induction false} FlatLength(poly: seq<seq<real>>, dim: nat)
    requires Uniform(poly, dim)
    ensures |Flat(poly)| == |poly| * dim
  {
    if |poly| > 0 {
      var m := |poly| - 1;
      FlatLength(poly[..m], dim);
      MulSucc(m, dim);
    }
  }

  lemma MulSucc(m: int, dim: int)
    ensures (m + 1) * dim == m * dim + dim
  {
  }

  /** Coordinate j of point i lies inside the flat array, at i * dim + j. */
  lemma {:induction false} FlatAt(poly: seq<seq<real>>, dim: nat, i: nat, j: nat)
    requires Uniform(poly, dim) && i < |poly| && j < dim
    ensures i * dim + j < |Flat(poly)| && Flat(poly)[i * dim + j] == poly[i][j]
    decreases |poly|
  {
    var m := |poly| - 1;
    var init := poly[..m];
    FlatLength(init, dim);
    FlatLength(poly, dim);
    if i < m {
      FlatAt(init, dim, i, j);
      assert init[i] == poly[i];
    } else {
      assert i * dim + j == m * dim + j;
    }
  }

  // ------------------------------------------------------------ "float32x" + dim

  function DigitChar(d: nat): (c: char)
    requires d < 10
    ensures '0' <= c <= '9' && c as int - '0' as int == d
  {
    ('0' as int + d) as char
  }

  /** The decimal numeral JavaScript writes for a whole number. */
  function Decimal(n: nat): (s: string)
    ensures |s| >= 1 && forall k :: 0 <= k < |s| ==> '0' <= s[k] <= '9'
    ensures n < 10 <==> |s| == 1
  {
    if n < 10 then [DigitChar(n)] else Decimal(n / 10) + [DigitChar(n % 10)]
  }

  /** The value a string of decimal digits denotes. */
  function DigitsValue(s: string): nat
    requires forall k :: 0 <= k < |s| ==> '0' <= s[k] <= '9'
  {
    if |s| == 0 then 0
    else 10 * DigitsValue(s[..|s| - 1]) + (s[|s| - 1] as int - '0' as int)
  }

  /** Reading the numeral back gives the number. */
  lemma {:induction false} DecimalRoundTrip(n: nat)
    ensures DigitsValue(Decimal(n)) == n
  {
    if n >= 10 {
      DecimalRoundTrip(n / 10);
      var s := Decimal(n);
      assert s[..|s| - 1] == Decimal(n / 10);
    }
  }

  const FormatPrefix: string := "float32x"

  /** The vertex format string "float32x" + dim. */
  function Format(dim: nat): (f: string)
    ensures |f| > |FormatPrefix| && f[..|FormatPrefix|] == FormatPrefix
    ensures forall k :: |FormatPrefix| <= k < |f| ==> '0' <= f[k] <= '9'
    ensures DigitsValue(f[|FormatPrefix|..]) == dim
  {
    DecimalRoundTrip(dim);
    assert (FormatPrefix + Decimal(dim))[|FormatPrefix|..] == Decimal(dim);
    FormatPrefix + Decimal(dim)
  }

  // ------------------------------------------------------------ createGeometry

  datatype Geometry = Geometry(
    numV: nat,
    dim: nat,
    vertices: seq<real>,
    /** The vertex buffer as uploaded. */
    buffer: seq<real>,
    /** Its byte size. */
    size: nat,
    arrayStride: nat,
    format: string)

  /** createGeometry after the polygon is loaded.  An empty polygon has no
      first point, so reading its length throws. */
  function CreateGeometry(poly: seq<seq<real>>): (g: Option<Geometry>)
    ensures g.None? <==> |poly| == 0
    ensures g.Some? ==>
      && g.value.numV == |poly| && g.value.dim == |poly[0]|
      && g.value.vertices == Flat(poly)
      && g.value.size == ByteLength(g.value.vertices)
      && g.value.arrayStride == BytesPerWord * g.value.dim
      && g.value.format == Format(g.value.dim)
  {
    if |poly| == 0 then None
    else
      var vertices := Flat(poly);
      var size := ByteLength(vertices);
      var buffer := Write(Zeros(size), 0, vertices);
      var dim := |poly[0]|;
      Some(Geometry(|poly|, dim, vertices, buffer, size, BytesPerWord * dim, Format(dim)))
  }

  /** The upload fills the whole buffer with the flattened data. */
  lemma UploadFills(poly: seq<seq<real>>)
    requires |poly| > 0
    ensures CreateGeometry(poly).value.buffer == Flat(poly)
  {
    var v := Flat(poly);
    var b := Write(Zeros(ByteLength(v)), 0, v);
    assert Fits(Zeros(ByteLength(v)), 0, v);
    assert b[0..|v|] == v;
  }

  /** For a polygon of uniform dimension the layout is consistent: the
      buffer holds numV strides exactly (point i occupies stride i, by
      FlatLayout), and the format names the dimension; the draw visits every point, the
      closing duplicate included, and reads exactly the buffer. */
  lemma GeometryLayout(poly: seq<seq<real>>)
    requires |poly| > 0 && Uniform(poly, |poly[0]|)
    ensures var g := CreateGeometry(poly).value;
      && g.size == g.numV * g.arrayStride
      && DrawCount(g) == |poly| && DrawCount(g) * g.arrayStride == g.size
      && |g.vertices| == g.numV * g.dim
      && DigitsValue(g.format[|FormatPrefix|..]) == g.dim
  {
    var dim := |poly[0]|;
    FlatLayout(poly, dim);
    var g := CreateGeometry(poly).value;
    calc {
      g.size;
      BytesPerWord * (|poly| * dim);
      { MulSwap(BytesPerWord, |poly|, dim); }
      |poly| * (BytesPerWord * dim);
    }
  }

  lemma MulSwap(a: int, b: int, c: int)
    ensures a * (b * c) == b * (a * c)
  {
  }

  /** render: pass.draw(numV). */
  function DrawCount(g: Geometry): nat
  {
    g.numV
  }
}
