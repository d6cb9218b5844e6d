/**
 * circle.js: an HSL to RGB conversion and circleMaker, which lays out a
 * rainbow sun as a triangle list (six floats per vertex: x, y, r, g, b,
 * alpha) followed by numDots small dots, each drawn as a fan of
 * numSegments triangles.
 *
 * Math.cos and Math.sin enter as tables of their values at the angles the
 * loops evaluate; Math.random is a sequence of values in [0, 1), three per
 * dot.  A Float32Array ignores a write past its
 * end, and the model keeps that behaviour.
 */
module Circle {
  import opened Wrappers

  /** The double nearest to pi, the value of Math.PI. */
  const Pi: real := 3.141592653589793

  // ------------------------------------------------------------ hslToRgb

  datatype Rgb = Rgb(r: real, g: real, b: real)

  /** JavaScript's a % 2 on numbers: the remainder of the division that
      truncates toward zero. */
  function JsMod2(a: real): (m: real)
    ensures a >= 0.0 ==> 0.0 <= m < 2.0
  {
    var q := a / 2.0;
    var t := if q >= 0.0 then q.Floor else -((-q).Floor);
    a - 2.0 * t as real
  }

  /** The hue sector the if-chain selects: sector k < 5 exactly when
      k/6 <= h < (k+1)/6; everything else, h outside [0, 5/6) included,
      falls into the last branch. */
  function Sector(h: real): (k: nat)
    ensures k <= 5
    ensures k < 5 <==> 0.0 <= h < 5.0 / 6.0
    ensures k < 5 ==> k as real / 6.0 <= h < (k + 1) as real / 6.0
  {
    if 0.0 <= h < 1.0 / 6.0 then 0
    else if 1.0 / 6.0 <= h < 2.0 / 6.0 then 1
    else if 2.0 / 6.0 <= h < 3.0 / 6.0 then 2
    else if 3.0 / 6.0 <= h < 4.0 / 6.0 then 3
    else if 4.0 / 6.0 <= h < 5.0 / 6.0 then 4
    else 5
  }

  /** The chroma (1 - |2l - 1|) s. */
  function Chroma(s: real, l: real): real
  {
    (1.0 - AbsR(2.0 * l - 1.0)) * s
  }

  /** The second-largest component c (1 - |((h 360) / 60) % 2 - 1|). */
  function Second(h: real, c: real): real
  {
    c * (1.0 - AbsR(JsMod2((h * 360.0) / 60.0) - 1.0))
  }

  function HslToRgb(h: real, s: real, l: real): Rgb
  {
    var c := Chroma(s, l);
    var x := Second(h, c);
    var m := l - c / 2.0;
    var rgb1 :=
      match Sector(h)
      case 0 => Rgb(c, x, 0.0)
      case 1 => Rgb(x, c, 0.0)
      case 2 => Rgb(0.0, c, x)
      case 3 => Rgb(0.0, x, c)
      case 4 => Rgb(x, 0.0, c)
      case _ => Rgb(c, 0.0, x);
    Rgb(rgb1.r + m, rgb1.g + m, rgb1.b + m)
  }

  predicate Unit(a: real) { 0.0 <= a <= 1.0 }

  predicate InGamut(c: Rgb) { Unit(c.r) && Unit(c.g) && Unit(c.b) }

  lemma MulNonNegative(a: real, b: real)
    requires a >= 0.0 && b >= 0.0
    ensures a * b >= 0.0
  {
  }

  lemma ChromaBounds(s: real, l: real)
    requires Unit(s) && Unit(l)
    ensures var c := Chroma(s, l);
      0.0 <= c && l - c / 2.0 >= 0.0 && l + c / 2.0 <= 1.0
  {
    var k := 1.0 - AbsR(2.0 * l - 1.0);
    assert 0.0 <= k <= 1.0;
    MulNonNegative(k, 1.0 - s);
    MulNonNegative(k, s);
    assert k / 2.0 <= l && l + k / 2.0 <= 1.0;
  }

  lemma SecondBounds(h: real, c: real)
    requires h >= 0.0 && c >= 0.0
    ensures 0.0 <= Second(h, c) <= c
  {
    var w := 1.0 - AbsR(JsMod2((h * 360.0) / 60.0) - 1.0);
    assert 0.0 <= w <= 1.0;
    MulNonNegative(c, 1.0 - w);
    MulNonNegative(c, w);
  }

  /** For h, s, l in [0, 1] every channel lies in [0, 1]. */
  lemma HslToRgbInGamut(h: real, s: real, l: real)
    requires Unit(h) && Unit(s) && Unit(l)
    ensures InGamut(HslToRgb(h, s, l))
  {
    ChromaBounds(s, l);
    SecondBounds(h, Chroma(s, l));
  }

  /** The only call pattern, s = 1 and l = 0.5: chroma 1 and offset 0, so
      one channel is 1, one is 0 and the third lies in [0, 1]; the full
      channel is red in sectors 0 and 5, green in 1 and 2, blue in 3 and 4. */
  lemma PureHue(h: real)
    requires Unit(h)
    ensures var c := HslToRgb(h, 1.0, 0.5);
      && InGamut(c)
      && (Sector(h) in {0, 5} ==> c.r == 1.0) && (Sector(h) in {1, 2} ==> c.g == 1.0)
      && (Sector(h) in {3, 4} ==> c.b == 1.0)
      && (Sector(h) in {0, 1} ==> c.b == 0.0) && (Sector(h) in {2, 3} ==> c.r == 0.0)
      && (Sector(h) in {4, 5} ==> c.g == 0.0)
  {
    assert Chroma(1.0, 0.5) == 1.0;
    HslToRgbInGamut(h, 1.0, 0.5);
  }

  // ------------------------------------------------------------ the layout

  /** One vertex: position, colour and alpha. */
  datatype Vtx = Vtx(x: real, y: real, colour: Rgb, alpha: real)

  /** The six floats of a vertex, in buffer order. */
  function Six(v: Vtx): seq<real>
  {
    [v.x, v.y, v.colour.r, v.colour.g, v.colour.b, v.alpha]
  }

  /** A vertex list as the float stream the writes produce: float
      6k + j is field j of vertex k. */
  function Stream(vs: seq<Vtx>): (s: seq<real>)
    ensures |s| == 6 * |vs|
  {
    seq(6 * |vs|, k requires 0 <= k < 6 * |vs| => Six(vs[k / 6])[k % 6])
  }

  /** circleMaker's arguments and the inputs it draws from. */
  datatype Sun = Sun(
    radius: real,
    numSegments: nat,
    numDots: nat,
    /** Math.random() values, three per dot in call order. */
    random: seq<real>,
    /** Math.cos and Math.sin of angle index i * angleStep, i < numSegments. */
    cosAt: seq<real>,
    sinAt: seq<real>,
    /** Math.cos and Math.sin of each dot's random angle. */
    dotCos: seq<real>,
    dotSin: seq<real>)

  predicate InputsOk(p: Sun)
  {
    |p.cosAt| == |p.sinAt| == p.numSegments && |p.dotCos| == |p.dotSin| == p.numDots
    && |p.random| == 3 * p.numDots && forall k :: 0 <= k < |p.random| ==> 0.0 <= p.random[k] < 1.0
  }

  /** i * angleStep with angleStep = 2 pi / numSegments. */
  function Theta(i: nat, p: Sun): real
    requires p.numSegments > 0
  {
    i as real * ((2.0 * Pi) / p.numSegments as real)
  }

  /** The black centre vertex (0, 0, 0, 0, 0, 1). */
  const Centre: Vtx := Vtx(0.0, 0.0, Rgb(0.0, 0.0, 0.0), 1.0)

  /** The rim vertex at angle index i, coloured by its hue. */
  function Rim(i: nat, p: Sun): Vtx
    requires InputsOk(p) && i < p.numSegments
  {
    var theta := Theta(i, p);
    Vtx(p.radius * p.cosAt[i], p.radius * p.sinAt[i], HslToRgb(theta / (2.0 * Pi), 1.0, 0.5), 1.0)
  }

  /** Boundary triangle i: the centre and the rim at i and at i + 1,
      wrapping to 0 after the last. */
  function SegmentTri(i: nat, p: Sun): seq<Vtx>
    requires InputsOk(p) && i < p.numSegments
  {
    [Centre, Rim(i, p), Rim((i + 1) % p.numSegments, p)]
  }

  /** The first k boundary triangles. */
  function Boundary(k: nat, p: Sun): seq<Vtx>
    requires InputsOk(p) && k <= p.numSegments
  {
    if k == 0 then [] else Boundary(k - 1, p) + SegmentTri(k - 1, p)
  }

  /** The centre, size and colour of dot d, from its three random draws. */
  datatype DotShape = DotShape(x: real, y: real, size: real, colour: Rgb)

  function Dot(d: nat, p: Sun): DotShape
    requires d < p.numDots && InputsOk(p)
  {
    var angle := p.random[3 * d] * 2.0 * Pi;
    var dist := p.random[3 * d + 1] * p.radius * 0.9;
    var size := p.random[3 * d + 2] * (p.radius * 0.07) + p.radius * 0.02;
    DotShape(dist * p.dotCos[d], dist * p.dotSin[d], size, HslToRgb(angle / (2.0 * Pi), 1.0, 0.5))
  }

  /** Triangle j of the fan of dot d. */
  function DotTri(d: nat, j: nat, p: Sun): seq<Vtx>
    requires d < p.numDots && InputsOk(p) && j < p.numSegments
  {
    var s := Dot(d, p);
    var j2 := (j + 1) % p.numSegments;
    [Vtx(s.x, s.y, s.colour, 1.0),
     Vtx(s.x + s.size * p.cosAt[j], s.y + s.size * p.sinAt[j], s.colour, 1.0),
     Vtx(s.x + s.size * p.cosAt[j2], s.y + s.size * p.sinAt[j2], s.colour, 1.0)]
  }

  /** The first j triangles of dot d's fan. */
  function Fan(d: nat, j: nat, p: Sun): seq<Vtx>
    requires d < p.numDots && InputsOk(p) && j <= p.numSegments
  {
    if j == 0 then [] else Fan(d, j - 1, p) + DotTri(d, j - 1, p)
  }

  /** The fans of the first k dots. */
  function Dots(k: nat, p: Sun): seq<Vtx>
    requires k <= p.numDots && InputsOk(p)
  {
    if k == 0 then [] else Dots(k - 1, p) + Fan(k - 1, p.numSegments, p)
  }

  /** Every vertex circleMaker emits, in order. */
  function Vertices(p: Sun): seq<Vtx>
    requires InputsOk(p)
  {
    Boundary(p.numSegments, p) + Dots(p.numDots, p)
  }

  // ------------------------------------------------------------ layout lemmas

  /** Float 6k + j of the stream is field j of vertex k. */
  lemma StreamAt(vs: seq<Vtx>, k: nat, j: nat)
    requires k < |vs| && j < 6
    ensures 6 * k + j < |Stream(vs)| && Stream(vs)[6 * k + j] == Six(vs[k])[j]
  {
    assert (6 * k + j) / 6 == k && (6 * k + j) % 6 == j;
  }

  /** Appending a vertex appends its six floats. */
  lemma StreamSnoc(vs: seq<Vtx>, v: Vtx)
    ensures Stream(vs + [v]) == Stream(vs) + Six(v)
  {
    var a, b := Stream(vs + [v]), Stream(vs) + Six(v);
    forall k | 0 <= k < |a|
      ensures a[k] == b[k]
    {
      if k < 6 * |vs| {
        assert k / 6 < |vs|;
      } else {
        assert k / 6 == |vs|;
      }
    }
  }

  lemma {:induction false} BoundaryLength(k: nat, p: Sun)
    requires InputsOk(p) && k <= p.numSegments
    ensures |Boundary(k, p)| == 3 * k
  {
    if k > 0 {
      BoundaryLength(k - 1, p);
    }
  }

  /** Boundary triangle i occupies vertices 3i, 3i + 1 and 3i + 2. */
  lemma {:induction false} BoundaryAt(k: nat, i: nat, j: nat, p: Sun)
    requires InputsOk(p) && i < k <= p.numSegments && j < 3
    ensures |Boundary(k, p)| == 3 * k && Boundary(k, p)[3 * i + j] == SegmentTri(i, p)[j]
  {
    BoundaryLength(k, p);
    BoundaryLength(k - 1, p);
    if i < k - 1 {
      BoundaryAt(k - 1, i, j, p);
    }
  }

  lemma {:induction false} FanLength(d: nat, j: nat, p: Sun)
    requires d < p.numDots && InputsOk(p) && j <= p.numSegments
    ensures |Fan(d, j, p)| == 3 * j
  {
    if j > 0 {
      FanLength(d, j - 1, p);
    }
  }

  lemma {:induction false} DotsLength(k: nat, p: Sun)
    requires k <= p.numDots && InputsOk(p)
    ensures |Dots(k, p)| == 3 * (k * p.numSegments)
  {
    if k > 0 {
      DotsLength(k - 1, p);
      FanLength(k - 1, p.numSegments, p);
      assert k * p.numSegments == (k - 1) * p.numSegments + p.numSegments;
    }
  }

  /** The stream holds (3 numSegments + 3 numDots numSegments) vertices,
      six floats each. */
  lemma StreamLength(p: Sun)
    requires InputsOk(p)
    ensures |Stream(Vertices(p))| == (p.numSegments * 3 + p.numDots * p.numSegments * 3) * 6
  {
    var n, m := p.numSegments, p.numDots * p.numSegments;
    BoundaryLength(n, p);
    DotsLength(p.numDots, p);
    assert |Vertices(p)| == 3 * n + 3 * m;
  }

  /** Each boundary triangle starts with the black centre (0, 0, 0, 0, 0, 1)
      and its second rim vertex uses angle index (i + 1) mod numSegments,
      so the last triangle closes the ring at angle 0. */
  lemma BoundaryTriangles(p: Sun, i: nat)
    requires InputsOk(p) && i < p.numSegments
    ensures |Vertices(p)| > 3 * i + 2
    ensures Vertices(p)[3 * i] == Vtx(0.0, 0.0, Rgb(0.0, 0.0, 0.0), 1.0)
    ensures Vertices(p)[3 * i + 1] == Rim(i, p)
    ensures Vertices(p)[3 * i + 2] == Rim((i + 1) % p.numSegments, p)
    ensures i == p.numSegments - 1 ==> Vertices(p)[3 * i + 2] == Rim(0, p)
  {
    var n := p.numSegments;
    BoundaryLength(n, p);
    BoundaryAt(n, i, 0, p);
    BoundaryAt(n, i, 1, p);
    BoundaryAt(n, i, 2, p);
  }

  /** A vertex as circleMaker emits it: opaque, with every channel in
      [0, 1]. */
  predicate Emitted(v: Vtx) { v.alpha == 1.0 && InGamut(v.colour) }

  lemma HueInUnit(i: nat, p: Sun)
    requires i < p.numSegments
    ensures Unit(Theta(i, p) / (2.0 * Pi))
  {
    var n := p.numSegments as real;
    assert Theta(i, p) / (2.0 * Pi) == i as real / n;
  }

  lemma RimEmitted(i: nat, p: Sun)
    requires InputsOk(p) && i < p.numSegments
    ensures Emitted(Rim(i, p))
  {
    HueInUnit(i, p);
    HslToRgbInGamut(Theta(i, p) / (2.0 * Pi), 1.0, 0.5);
  }

  lemma {:induction false} BoundaryEmitted(k: nat, p: Sun)
    requires InputsOk(p) && k <= p.numSegments
    ensures forall v :: v in Boundary(k, p) ==> Emitted(v)
  {
    if k > 0 {
      BoundaryEmitted(k - 1, p);
      RimEmitted(k - 1, p);
      RimEmitted(k % p.numSegments, p);
    }
  }

  lemma DotEmitted(d: nat, p: Sun)
    requires InputsOk(p) && d < p.numDots
    ensures InGamut(Dot(d, p).colour)
  {
    var r := p.random[3 * d];
    assert (r * 2.0 * Pi) / (2.0 * Pi) == r;
    HslToRgbInGamut(r, 1.0, 0.5);
  }

  lemma {:induction false} FanEmitted(d: nat, j: nat, p: Sun)
    requires d < p.numDots && InputsOk(p) && j <= p.numSegments
    ensures forall v :: v in Fan(d, j, p) ==> Emitted(v)
  {
    if j > 0 {
      FanEmitted(d, j - 1, p);
      DotEmitted(d, p);
    }
  }

  lemma {:induction false} DotsEmitted(k: nat, p: Sun)
    requires k <= p.numDots && InputsOk(p)
    ensures forall v :: v in Dots(k, p) ==> Emitted(v)
  {
    if k > 0 {
      DotsEmitted(k - 1, p);
      FanEmitted(k - 1, p.numSegments, p);
    }
  }

  /** Every vertex is opaque and every colour channel lies in [0, 1]. */
  lemma AllEmitted(p: Sun)
    requires InputsOk(p)
    ensures forall v :: v in Vertices(p) ==> Emitted(v)
  {
    BoundaryEmitted(p.numSegments, p);
    DotsEmitted(p.numDots, p);
  }

  // ------------------------------------------------------------ circleMaker

  /** The buffer shows the stream s: the floats written so far, then the
      zero fill; writes past the end are lost. */
  ghost predicate Shows(d: seq<real>, s: seq<real>)
  {
    forall k :: 0 <= k < |d| ==> d[k] == if k < |s| then s[k] else 0.0
  }

  /** data[offset++] = val. */
  method Put(data: array<real>, offset: nat, val: real, ghost s: seq<real>) returns (next: nat)
    requires offset == |s| && Shows(data[..], s)
    modifies data
    ensures next == offset + 1 && Shows(data[..], s + [val])
  {
    if offset < data.Length {
      data[offset] := val;
    }
    next := offset + 1;
  }

  /** The six writes of one vertex. */
  method PutVertex(data: array<real>, offset: nat, v: Vtx, ghost vs: seq<Vtx>) returns (next: nat)
    requires offset == 6 * |vs| && Shows(data[..], Stream(vs))
    modifies data
    ensures next == 6 * |vs| + 6 && Shows(data[..], Stream(vs + [v]))
  {
    ghost var s := Stream(vs);
    next := Put(data, offset, v.x, s);
    next := Put(data, next, v.y, s + [v.x]);
    next := Put(data, next, v.colour.r, s + [v.x, v.y]);
    next := Put(data, next, v.colour.g, s + [v.x, v.y, v.colour.r]);
    next := Put(data, next, v.colour.b, s + [v.x, v.y, v.colour.r, v.colour.g]);
    next := Put(data, next, v.alpha, s + [v.x, v.y, v.colour.r, v.colour.g, v.colour.b]);
    StreamSnoc(vs, v);
    assert s + [v.x, v.y, v.colour.r, v.colour.g, v.colour.b] + [v.alpha] == s + Six(v);
  }

  /** The three vertices of one triangle. */
  method PutTriangle(data: array<real>, offset: nat, tri: seq<Vtx>, ghost vs: seq<Vtx>) returns (next: nat)
    requires |tri| == 3 && offset == 6 * |vs| && Shows(data[..], Stream(vs))
    modifies data
    ensures next == 6 * |vs| + 18 && Shows(data[..], Stream(vs + tri))
  {
    next := PutVertex(data, offset, tri[0], vs);
    next := PutVertex(data, next, tri[1], vs + [tri[0]]);
    assert vs + [tri[0]] + [tri[1]] == vs + [tri[0], tri[1]];
    next := PutVertex(data, next, tri[2], vs + [tri[0], tri[1]]);
    assert vs + [tri[0], tri[1]] + [tri[2]] == vs + tri;
  }

  /** One dot's inner loop over the segments. */
  method PutFan(data: array<real>, offset: nat, d: nat, p: Sun, ghost vs: seq<Vtx>) returns (next: nat)
    requires InputsOk(p) && d < p.numDots
    requires offset == 6 * |vs| && Shows(data[..], Stream(vs))
    modifies data
    ensures next == 6 * |vs + Fan(d, p.numSegments, p)| && Shows(data[..], Stream(vs + Fan(d, p.numSegments, p)))
  {
    next := offset;
    ghost var ws := vs;
    assert vs + Fan(d, 0, p) == vs;
    for j := 0 to p.numSegments
      invariant ws == vs + Fan(d, j, p)
      invariant next == 6 * |ws| && Shows(data[..], Stream(ws))
    {
      var tri := DotTri(d, j, p);
      next := PutTriangle(data, next, tri, ws);
      assert Fan(d, j + 1, p) == Fan(d, j, p) + tri;
      ws := ws + tri;
      assert ws == vs + (Fan(d, j, p) + tri);
    }
  }

  /** The boundary loop over a zero-filled array. */
  method PutBoundary(data: array<real>, p: Sun) returns (offset: nat)
    requires InputsOk(p) && forall k :: 0 <= k < data.Length ==> data[k] == 0.0
    modifies data
    ensures offset == 6 * |Boundary(p.numSegments, p)| && Shows(data[..], Stream(Boundary(p.numSegments, p)))
  {
    offset := 0;
    ghost var ws: seq<Vtx> := [];
    for i := 0 to p.numSegments
      invariant ws == Boundary(i, p)
      invariant offset == 6 * |ws| && Shows(data[..], Stream(ws))
    {
      offset := PutTriangle(data, offset, SegmentTri(i, p), ws);
      ws := ws + SegmentTri(i, p);
    }
  }

  /** The dot loop, continuing after the boundary stream b. */
  method PutDots(data: array<real>, offset: nat, p: Sun, ghost b: seq<Vtx>) returns (next: nat)
    requires InputsOk(p) && offset == 6 * |b| && Shows(data[..], Stream(b))
    modifies data
    ensures Shows(data[..], Stream(b + Dots(p.numDots, p)))
  {
    next := offset;
    ghost var ws := b;
    assert ws == b + Dots(0, p);
    for d := 0 to p.numDots
      invariant ws == b + Dots(d, p)
      invariant next == 6 * |ws| && Shows(data[..], Stream(ws))
    {
      next := PutFan(data, next, d, p, ws);
      ghost var fan := Fan(d, p.numSegments, p);
      assert Dots(d + 1, p) == Dots(d, p) + fan;
      ws := ws + fan;
      assert ws == b + (Dots(d, p) + fan);
    }
  }

  /** Both loops of circleMaker over a zero-filled array. */
  method Generate(data: array<real>, p: Sun)
    requires InputsOk(p) && forall k :: 0 <= k < data.Length ==> data[k] == 0.0
    modifies data
    ensures Shows(data[..], Stream(Vertices(p)))
  {
    var offset := PutBoundary(data, p);
    offset := PutDots(data, offset, p, Boundary(p.numSegments, p));
  }

  /** totalFloats as line 32 computes it: room for one triangle per dot. */
  function AsWrittenTotal(p: Sun): nat
  {
    (p.numSegments * 3 + p.numDots * 3) * 6
  }

  /** circleMaker as written: the array is sized by AsWrittenTotal, so the
      stream is cut at that length. */
  method CircleMakerAsWritten(p: Sun) returns (data: array<real>)
    requires InputsOk(p)
    ensures data.Length == AsWrittenTotal(p) && Shows(data[..], Stream(Vertices(p)))
  {
    data := new real[AsWrittenTotal(p)](_ => 0.0);
    Generate(data, p);
  }

  /** With more than one segment and at least one dot the stream is longer
      than the array, so the writes of the last dot fans are lost.  For
      numSegments = 72 and numDots = 1 the array holds 1314 floats and the
      stream has 2592. */
  lemma StreamOverflows(p: Sun)
    requires InputsOk(p) && p.numSegments > 1 && p.numDots > 0
    ensures |Stream(Vertices(p))| > AsWrittenTotal(p)
  {
    StreamLength(p);
    assert p.numDots * p.numSegments >= p.numDots * 2;
  }

  /** totalFloats sized for numSegments triangles per dot. */
  function Total(p: Sun): nat
  {
    (p.numSegments * 3 + p.numDots * p.numSegments * 3) * 6
  }

  /** circleMaker with the corrected size: the array holds the whole
      stream, float 6k + j being field j of vertex k, every vertex opaque
      and every channel in [0, 1]. */
  method CircleMaker(p: Sun) returns (data: array<real>)
    requires InputsOk(p)
    ensures data[..] == Stream(Vertices(p))
    ensures data.Length == (p.numSegments * 3 + p.numDots * p.numSegments * 3) * 6
    ensures forall k :: 0 <= k < data.Length / 6 ==>
      data[6 * k + 5] == 1.0 && Unit(data[6 * k + 2]) && Unit(data[6 * k + 3]) && Unit(data[6 * k + 4])
  {
    StreamLength(p);
    data := new real[Total(p)](_ => 0.0);
    Generate(data, p);
    ghost var vs := Vertices(p);
    assert data[..] == Stream(vs);
    AllEmitted(p);
    forall k | 0 <= k < data.Length / 6
      ensures data[6 * k + 5] == 1.0 && Unit(data[6 * k + 2]) && Unit(data[6 * k + 3]) && Unit(data[6 * k + 4])
    {
      StreamAt(vs, k, 2);
      StreamAt(vs, k, 3);
      StreamAt(vs, k, 4);
      StreamAt(vs, k, 5);
      assert vs[k] in vs;
    }
  }
}
