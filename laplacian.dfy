/**
 * Laplacian smoothing of a mesh (quest 10).  Each function maps every
 * vertex to a weighted average of its neighbours; the three variants differ
 * in the weights: 1 per neighbour, the inverse edge length, or the area of a
 * face that holds the edge.  The result is a new vertex list of the same
 * length; the inputs are values and are not changed.
 *
 * A JavaScript division by a zero total gives NaN or an infinity; such a
 * vertex is None here.  Math.sqrt is the parameter `sqrt`.
 */
module Laplacian {
  import opened Wrappers

  datatype Vec3 = Vec3(x: real, y: real, z: real)
  {
    function Plus(o: Vec3): Vec3 { Vec3(x + o.x, y + o.y, z + o.z) }

    function Times(s: real): Vec3 { Vec3(s * x, s * y, s * z) }

    function Minus(o: Vec3): Vec3 { Vec3(x - o.x, y - o.y, z - o.z) }

    function At(c: Axis): real
    {
      match c
      case X => x
      case Y => y
      case Z => z
    }
  }

  datatype Axis = X | Y | Z

  const Zero: Vec3 := Vec3(0.0, 0.0, 0.0)

  /** Every neighbour index names a vertex, and there is a neighbour list
      for every vertex: what reading vertices[neighborIndex] and neighbors[i]
      needs. */
  predicate MeshOk(vertices: seq<Vec3>, neighbors: seq<seq<nat>>)
  {
    |neighbors| >= |vertices|
    && forall i, k :: 0 <= i < |vertices| && 0 <= k < |neighbors[i]| ==> neighbors[i][k] < |vertices|
  }

  /** The neighbour positions, in list order. */
  function Gather(vertices: seq<Vec3>, idx: seq<nat>): (ps: seq<Vec3>)
    requires forall k :: 0 <= k < |idx| ==> idx[k] < |vertices|
    ensures |ps| == |idx| && forall k :: 0 <= k < |idx| ==> ps[k] == vertices[idx[k]]
  {
    seq(|idx|, k requires 0 <= k < |idx| => vertices[idx[k]])
  }

  /** Coordinate c of every point. */
  function Coords(ps: seq<Vec3>, c: Axis): (xs: seq<real>)
    ensures |xs| == |ps| && forall k :: 0 <= k < |ps| ==> xs[k] == ps[k].At(c)
  {
    seq(|ps|, k requires 0 <= k < |ps| => ps[k].At(c))
  }

  /** The running sum of w_k x_k that a forEach loop accumulates. */
  function Dot(ws: seq<real>, xs: seq<real>): real
    requires |ws| == |xs|
  {
    if xs == [] then 0.0 else Dot(ws[..|ws| - 1], xs[..|xs| - 1]) + ws[|ws| - 1] * xs[|xs| - 1]
  }

  function Total(ws: seq<real>): real
  {
    if ws == [] then 0.0 else Total(ws[..|ws| - 1]) + ws[|ws| - 1]
  }

  /** The three running sums, one per coordinate. */
  function WeightedSum(ws: seq<real>, ps: seq<Vec3>): (s: Vec3)
    requires |ws| == |ps|
    ensures forall c :: s.At(c) == Dot(ws, Coords(ps, c))
  {
    Vec3(Dot(ws, Coords(ps, X)), Dot(ws, Coords(ps, Y)), Dot(ws, Coords(ps, Z)))
  }

  /** weightedSum / totalWeight; None when the total is 0. */
  function Average(ws: seq<real>, ps: seq<Vec3>): (r: Option<Vec3>)
    requires |ws| == |ps|
    ensures r.None? <==> Total(ws) == 0.0
  {
    var t := Total(ws);
    if t == 0.0 then None else Some(WeightedSum(ws, ps).Times(1.0 / t))
  }

  predicate Within(xs: seq<real>, lo: real, hi: real)
  {
    forall k :: 0 <= k < |xs| ==> lo <= xs[k] <= hi
  }

  predicate NonNegative(ws: seq<real>)
  {
    forall k :: 0 <= k < |ws| ==> ws[k] >= 0.0
  }

  lemma StepAbove(s: real, t: real, w: real, x: real, lo: real, s': real, t': real)
    requires lo * t <= s && w >= 0.0 && lo <= x
    requires s' == s + w * x && t' == t + w
    ensures lo * t' <= s'
  {
    assert w * lo <= w * x;
  }

  lemma StepBelow(s: real, t: real, w: real, x: real, hi: real, s': real, t': real)
    requires s <= hi * t && w >= 0.0 && x <= hi
    requires s' == s + w * x && t' == t + w
    ensures s' <= hi * t'
  {
    assert w * x <= w * hi;
  }

  lemma DivideBetween(s: real, t: real, lo: real, hi: real, a: real)
    requires t > 0.0 && lo * t <= s <= hi * t && a == (1.0 / t) * s
    ensures lo <= a <= hi
  {
    assert (1.0 / t) * (lo * t) == lo;
    assert (1.0 / t) * (hi * t) == hi;
  }

  /** With non-negative weights, the weighted sum of values of at least lo
      is at least lo * total. */
  lemma {:induction false} DotAbove(ws: seq<real>, xs: seq<real>, lo: real)
    requires |ws| == |xs| && NonNegative(ws) && forall k :: 0 <= k < |xs| ==> lo <= xs[k]
    ensures lo * Total(ws) <= Dot(ws, xs)
  {
    if xs != [] {
      var n := |xs| - 1;
      DotAbove(ws[..n], xs[..n], lo);
      StepAbove(Dot(ws[..n], xs[..n]), Total(ws[..n]), ws[n], xs[n], lo, Dot(ws, xs), Total(ws));
    }
  }

  /** ... and of values of at most hi is at most hi * total. */
  lemma {:induction false} DotBelow(ws: seq<real>, xs: seq<real>, hi: real)
    requires |ws| == |xs| && NonNegative(ws) && forall k :: 0 <= k < |xs| ==> xs[k] <= hi
    ensures Dot(ws, xs) <= hi * Total(ws)
  {
    if xs != [] {
      var n := |xs| - 1;
      DotBelow(ws[..n], xs[..n], hi);
      StepBelow(Dot(ws[..n], xs[..n]), Total(ws[..n]), ws[n], xs[n], hi, Dot(ws, xs), Total(ws));
    }
  }

  lemma {:induction false} TotalNonNegative(ws: seq<real>)
    requires NonNegative(ws)
    ensures Total(ws) >= 0.0
  {
    if ws != [] {
      TotalNonNegative(ws[..|ws| - 1]);
    }
  }

  /** Dot / Total, written as (1 / total) * sum the way Average scales. */
  function Ratio(ws: seq<real>, xs: seq<real>): real
    requires |ws| == |xs| && Total(ws) != 0.0
  {
    (1.0 / Total(ws)) * Dot(ws, xs)
  }

  lemma {:induction false} AverageAt(ws: seq<real>, ps: seq<Vec3>, c: Axis)
    requires |ws| == |ps| && Total(ws) != 0.0
    ensures Average(ws, ps).value.At(c) == Ratio(ws, Coords(ps, c))
  {
    var s := WeightedSum(ws, ps);
    var k := 1.0 / Total(ws);
    assert Average(ws, ps).value == s.Times(k);
    TimesAt(s, k, c, Dot(ws, Coords(ps, c)));
  }

  lemma TimesAt(v: Vec3, k: real, c: Axis, a: real)
    requires v.At(c) == a
    ensures v.Times(k).At(c) == k * a
  {
  }

  /** With non-negative weights and a non-zero total, Dot / Total lies
      within every range that holds the values. */
  lemma {:induction false} RatioBetween(ws: seq<real>, xs: seq<real>, lo: real, hi: real)
    requires |ws| == |xs| && NonNegative(ws) && Within(xs, lo, hi) && Total(ws) != 0.0
    ensures Total(ws) > 0.0
    ensures lo <= Ratio(ws, xs) <= hi
  {
    DotAbove(ws, xs, lo);
    DotBelow(ws, xs, hi);
    TotalNonNegative(ws);
    DivideBetween(Dot(ws, xs), Total(ws), lo, hi, (1.0 / Total(ws)) * Dot(ws, xs));
  }

  /** A weighted average with non-negative weights and a positive total is
      a convex combination: it stays within every range that holds the
      points. */
  lemma {:induction false} AverageBetween(ws: seq<real>, ps: seq<Vec3>, c: Axis, lo: real, hi: real)
    requires |ws| == |ps| && NonNegative(ws) && Within(Coords(ps, c), lo, hi) && Total(ws) != 0.0
    ensures Total(ws) > 0.0
    ensures lo <= Average(ws, ps).value.At(c) <= hi
  {
    var xs := Coords(ps, c);
    RatioBetween(ws, xs, lo, hi);
    AverageAt(ws, ps, c);
  }

  // ------------------------------------------------------------ uniform

  function Ones(n: nat): (ws: seq<real>)
    ensures |ws| == n && NonNegative(ws)
  {
    seq(n, _ => 1.0)
  }

  lemma {:induction false} TotalOnes(n: nat)
    ensures Total(Ones(n)) == n as real
  {
    if n > 0 {
      assert Ones(n)[..n - 1] == Ones(n - 1);
      TotalOnes(n - 1);
    }
  }

  /** laplacianInterpolationUniform: every vertex becomes the mean of its
      neighbours, or NaN when it has none. */
  function Uniform(vertices: seq<Vec3>, neighbors: seq<seq<nat>>): (r: seq<Option<Vec3>>)
    requires MeshOk(vertices, neighbors)
    ensures |r| == |vertices|
    ensures forall i :: 0 <= i < |vertices| ==> (r[i].None? <==> neighbors[i] == [])
  {
    seq(|vertices|, i requires 0 <= i < |vertices| => Mean(Gather(vertices, neighbors[i])))
  }

  /** sum / neighborCount. */
  function Mean(ps: seq<Vec3>): (r: Option<Vec3>)
    ensures r.None? <==> ps == []
    ensures r.Some? ==> r.value == WeightedSum(Ones(|ps|), ps).Times(1.0 / |ps| as real)
  {
    TotalOnes(|ps|);
    Average(Ones(|ps|), ps)
  }

  /** The mean is the neighbours' sum divided by their count, and it lies in
      every axis range that holds all neighbours. */
  lemma UniformIsMean(vertices: seq<Vec3>, neighbors: seq<seq<nat>>, i: nat, c: Axis, lo: real, hi: real)
    requires MeshOk(vertices, neighbors) && i < |vertices| && neighbors[i] != []
    requires Within(Coords(Gather(vertices, neighbors[i]), c), lo, hi)
    ensures var n := |neighbors[i]| as real;
      Uniform(vertices, neighbors)[i] == Some(WeightedSum(Ones(|neighbors[i]|), Gather(vertices, neighbors[i])).Times(1.0 / n))
    ensures lo <= Uniform(vertices, neighbors)[i].value.At(c) <= hi
  {
    var ps := Gather(vertices, neighbors[i]);
    TotalOnes(|ps|);
    AverageBetween(Ones(|ps|), ps, c, lo, hi);
  }

  /** When all neighbours sit at one point p, the mean is p. */
  lemma UniformCoincident(vertices: seq<Vec3>, neighbors: seq<seq<nat>>, i: nat, p: Vec3)
    requires MeshOk(vertices, neighbors) && i < |vertices| && neighbors[i] != []
    requires forall k :: 0 <= k < |neighbors[i]| ==> vertices[neighbors[i][k]] == p
    ensures Uniform(vertices, neighbors)[i] == Some(p)
  {
    var ps := Gather(vertices, neighbors[i]);
    assert Within(Coords(ps, X), p.x, p.x) && Within(Coords(ps, Y), p.y, p.y) && Within(Coords(ps, Z), p.z, p.z);
    UniformIsMean(vertices, neighbors, i, X, p.x, p.x);
    UniformIsMean(vertices, neighbors, i, Y, p.y, p.y);
    UniformIsMean(vertices, neighbors, i, Z, p.z, p.z);
    var v := Uniform(vertices, neighbors)[i].value;
    assert v.x == p.x && v.y == p.y && v.z == p.z;
  }

  // ------------------------------------------------------------ edge length

  /** The squared distance the edge-length weights start from. */
  function Dist2(a: Vec3, b: Vec3): real
  {
    var d := a.Minus(b);
    d.x * d.x + d.y * d.y + d.z * d.z
  }

  /** 1 / |v_n - v_i| for every neighbour n. */
  function EdgeWeights(vertices: seq<Vec3>, i: nat, idx: seq<nat>, sqrt: real -> real): (ws: seq<real>)
    requires i < |vertices| && forall k :: 0 <= k < |idx| ==> idx[k] < |vertices|
    requires forall k :: 0 <= k < |idx| ==> sqrt(Dist2(vertices[idx[k]], vertices[i])) != 0.0
    ensures |ws| == |idx|
    ensures forall k :: 0 <= k < |idx| ==> ws[k] * sqrt(Dist2(vertices[idx[k]], vertices[i])) == 1.0
  {
    seq(|idx|, k requires 0 <= k < |idx| => 1.0 / sqrt(Dist2(vertices[idx[k]], vertices[i])))
  }

  /** Some neighbour coincides with the vertex: its weight is 1 / 0. */
  predicate HasZeroEdge(vertices: seq<Vec3>, i: nat, idx: seq<nat>, sqrt: real -> real)
    requires i < |vertices| && forall k :: 0 <= k < |idx| ==> idx[k] < |vertices|
  {
    exists k :: 0 <= k < |idx| && sqrt(Dist2(vertices[idx[k]], vertices[i])) == 0.0
  }

  /** laplacianInterpolationEdgeLength.  An infinite weight (a neighbour at
      distance 0) makes both sums infinite and the quotient NaN, as does an
      empty neighbour list. */
  function EdgeLength(vertices: seq<Vec3>, neighbors: seq<seq<nat>>, sqrt: real -> real): (r: seq<Option<Vec3>>)
    requires MeshOk(vertices, neighbors)
    ensures |r| == |vertices|
    ensures forall i :: 0 <= i < |vertices| && HasZeroEdge(vertices, i, neighbors[i], sqrt) ==> r[i].None?
  {
    seq(|vertices|, i requires 0 <= i < |vertices| =>
      if HasZeroEdge(vertices, i, neighbors[i], sqrt) then None
      else Average(EdgeWeights(vertices, i, neighbors[i], sqrt), Gather(vertices, neighbors[i])))
  }

  /** With positive distances the weights are positive, so a non-empty
      neighbourhood gives a convex combination of the neighbours. */
  lemma EdgeLengthIsConvex(vertices: seq<Vec3>, neighbors: seq<seq<nat>>, sqrt: real -> real,
                           i: nat, c: Axis, lo: real, hi: real)
    requires MeshOk(vertices, neighbors) && i < |vertices| && neighbors[i] != []
    requires forall k :: 0 <= k < |neighbors[i]| ==> sqrt(Dist2(vertices[neighbors[i][k]], vertices[i])) > 0.0
    requires Within(Coords(Gather(vertices, neighbors[i]), c), lo, hi)
    ensures EdgeLength(vertices, neighbors, sqrt)[i].Some?
    ensures lo <= EdgeLength(vertices, neighbors, sqrt)[i].value.At(c) <= hi
  {
    var ws := EdgeWeights(vertices, i, neighbors[i], sqrt);
    forall k | 0 <= k < |ws|
      ensures ws[k] > 0.0
    {
      var d := sqrt(Dist2(vertices[neighbors[i][k]], vertices[i]));
      assert ws[k] * d == 1.0;
    }
    PositiveTotal(ws);
    AverageBetween(ws, Gather(vertices, neighbors[i]), c, lo, hi);
  }

  lemma {:induction false} PositiveTotal(ws: seq<real>)
    requires ws != [] && forall k :: 0 <= k < |ws| ==> ws[k] > 0.0
    ensures Total(ws) > 0.0
  {
    if |ws| > 1 {
      PositiveTotal(ws[..|ws| - 1]);
    }
  }

  // ------------------------------------------------------------ area

  /** calculateTriangleArea: half the length of the cross product. */
  function TriangleArea(v1: Vec3, v2: Vec3, v3: Vec3, sqrt: real -> real): (a: real)
    ensures sqrt(Cross2(v2.Minus(v1), v3.Minus(v1))) >= 0.0 ==> a >= 0.0
    ensures a * 2.0 == sqrt(Cross2(v2.Minus(v1), v3.Minus(v1)))
  {
    0.5 * sqrt(Cross2(v2.Minus(v1), v3.Minus(v1)))
  }

  /** The cross product a x b. */
  function Cross(a: Vec3, b: Vec3): Vec3
  {
    Vec3(a.y * b.z - a.z * b.y, a.z * b.x - a.x * b.z, a.x * b.y - a.y * b.x)
  }

  /** The squared length of the cross product. */
  function Cross2(a: Vec3, b: Vec3): real
  {
    Norm2(Cross(a, b))
  }

  function Norm2(v: Vec3): real
  {
    Sq(v.x) + Sq(v.y) + Sq(v.z)
  }

  function Sq(x: real): real
  {
    x * x
  }

  /** The first three entries of every face name vertices. */
  predicate FacesOk(vertices: seq<Vec3>, faces: seq<seq<nat>>)
  {
    forall f :: 0 <= f < |faces| ==>
      |faces[f]| >= 3 && faces[f][0] < |vertices| && faces[f][1] < |vertices| && faces[f][2] < |vertices|
  }

  /** The index of the first face that includes both i and n (the loop with
      break), if any. */
  function FirstFace(faces: seq<seq<nat>>, i: nat, n: nat): (r: Option<nat>)
    ensures r.Some? ==> r.value < |faces| && i in faces[r.value] && n in faces[r.value]
    ensures r.Some? ==> forall f :: 0 <= f < r.value ==> !(i in faces[f] && n in faces[f])
    ensures r.None? ==> forall f :: 0 <= f < |faces| ==> !(i in faces[f] && n in faces[f])
  {
    if faces == [] then None
    else if i in faces[0] && n in faces[0] then Some(0)
    else
      var r := FirstFace(faces[1..], i, n);
      if r.Some? then Some(r.value + 1) else None
  }

  /** The weight of neighbour n of vertex i: the area of the first face
      holding both, or 0. */
  function AreaWeight(vertices: seq<Vec3>, faces: seq<seq<nat>>, i: nat, n: nat, sqrt: real -> real): (w: real)
    requires FacesOk(vertices, faces)
    ensures (forall f :: 0 <= f < |faces| ==> !(i in faces[f] && n in faces[f])) ==> w == 0.0
    ensures (forall a :: a >= 0.0 ==> sqrt(a) >= 0.0) ==> w >= 0.0
  {
    match FirstFace(faces, i, n)
    case None => 0.0
    case Some(f) =>
      CrossNonNegative(vertices[faces[f][1]].Minus(vertices[faces[f][0]]), vertices[faces[f][2]].Minus(vertices[faces[f][0]]));
      TriangleArea(vertices[faces[f][0]], vertices[faces[f][1]], vertices[faces[f][2]], sqrt)
  }

  function AreaWeights(vertices: seq<Vec3>, faces: seq<seq<nat>>, i: nat, idx: seq<nat>, sqrt: real -> real): (ws: seq<real>)
    requires FacesOk(vertices, faces)
    ensures |ws| == |idx| && forall k :: 0 <= k < |idx| ==> ws[k] == AreaWeight(vertices, faces, i, idx[k], sqrt)
  {
    seq(|idx|, k requires 0 <= k < |idx| => AreaWeight(vertices, faces, i, idx[k], sqrt))
  }

  /** laplacianInterpolationArea. */
  function Area(vertices: seq<Vec3>, faces: seq<seq<nat>>, neighbors: seq<seq<nat>>, sqrt: real -> real): (r: seq<Option<Vec3>>)
    requires MeshOk(vertices, neighbors) && FacesOk(vertices, faces)
    ensures |r| == |vertices|
    ensures forall i :: 0 <= i < |vertices| ==>
      (r[i].None? <==> Total(AreaWeights(vertices, faces, i, neighbors[i], sqrt)) == 0.0)
  {
    seq(|vertices|, i requires 0 <= i < |vertices| =>
      Average(AreaWeights(vertices, faces, i, neighbors[i], sqrt), Gather(vertices, neighbors[i])))
  }

  /** Areas are never negative, so a non-zero total gives a convex
      combination of the neighbours. */
  lemma AreaIsConvex(vertices: seq<Vec3>, faces: seq<seq<nat>>, neighbors: seq<seq<nat>>, sqrt: real -> real,
                     i: nat, c: Axis, lo: real, hi: real)
    requires MeshOk(vertices, neighbors) && FacesOk(vertices, faces) && i < |vertices|
    requires forall a :: a >= 0.0 ==> sqrt(a) >= 0.0
    requires Within(Coords(Gather(vertices, neighbors[i]), c), lo, hi)
    requires Area(vertices, faces, neighbors, sqrt)[i].Some?
    ensures lo <= Area(vertices, faces, neighbors, sqrt)[i].value.At(c) <= hi
  {
    var ws := AreaWeights(vertices, faces, i, neighbors[i], sqrt);
    AverageBetween(ws, Gather(vertices, neighbors[i]), c, lo, hi);
  }

  lemma CrossNonNegative(a: Vec3, b: Vec3)
    ensures Cross2(a, b) >= 0.0
  {
    Norm2NonNegative(Cross(a, b));
  }

  lemma Norm2NonNegative(v: Vec3)
    ensures Norm2(v) >= 0.0
  {
    SquareNonNegative(v.x);
    SquareNonNegative(v.y);
    SquareNonNegative(v.z);
  }

  lemma SquareNonNegative(x: real)
    ensures Sq(x) >= 0.0
  {
    if x < 0.0 {
      assert (-x) * (-x) == x * x;
    }
  }
}
