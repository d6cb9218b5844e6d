/**
 * Pure geometry of the segmented 2-D point-location grid: the grid parameters
 * derived from a closed polygon, the cell lookup, the per-edge rasterisation
 * (as a specification of the pushes the imperative walk performs), the
 * winding-number fallback and the closest-point computation.
 *
 * Coordinates are `real`.  The only IEEE effects the source relies on
 * (division by a zero direction component, a zero denominator in the winding
 * test) are written out where they occur.
 */
module GridGeometry {
  import opened Wrappers

  datatype Point = Point(x: real, y: real)

  /** An axis-aligned box [x0, y0, x1, y1]. */
  datatype Box = Box(x0: real, y0: real, x1: real, y1: real)

  /** A cell index [cx, cy]; [-1, -1] stands for "no cell". */
  datatype Coord = Coord(x: int, y: int)

  const NoCell: Coord := Coord(-1, -1)

  /** A stored segment piece [edge, t0, t1]: edge `edge` between parameters t0 and t1. */
  datatype SegEntry = SegEntry(edge: int, t0: real, t1: real)

  /** One push performed by the rasterisation: `entry` appended to the list of `cell`. */
  datatype Push = Push(cell: Coord, entry: SegEntry)

  /** The four cell labels. */
  datatype Label = Exterior | Interior | Mixed | Unknown

  /** The errors the constructor raises (DegenerateBox: see README). */
  datatype GridError = NotTwoDimensional | BadGridSize | DegenerateBox

  const Big: real := 1000000000000000.0           // 1e15, the initial min/max bound
  const EpsilonScale: real := 0.0001              // EPSILON = min cell extent * 1e-4
  const DegenerateDir: real := 0.00000000000001   // 1e-14
  const HitSlack: real := 0.000000000001          // 1e-12
  const ZeroDenominator: real := 0.000000001      // 1e-9, used when a segment has zero length
  const MaxWalkSteps: nat := 999999

  /** Everything the constructor derives from the polygon and the grid size. */
  datatype Geometry = Geometry(
    polygon: seq<Point>, gridSize: nat, dirs: seq<Point>,
    epsilon: real, bbox: Box, dx: real, dy: real)

  function Sub(a: Point, b: Point): Point { Point(a.x - b.x, a.y - b.y) }

  function Dot(u: Point, v: Point): real { u.x * v.x + u.y * v.y }

  function Min3(a: real, b: real, c: real): real { MinR(MinR(a, b), c) }

  function Max3(a: real, b: real, c: real): real { MaxR(MaxR(a, b), c) }

  // ---------------------------------------------------------------- input checks

  /** Number.isInteger on a real-valued argument. */
  predicate IsInteger(r: real) { r.Floor as real == r }

  /** The two checks of the constructor, in the order it performs them. */
  function Validate(raw: seq<seq<real>>, gridSize: real): (r: Option<GridError>)
    ensures r == None <==> |raw| > 0 && |raw[0]| == 2 && IsInteger(gridSize) && gridSize >= 1.0
    ensures r == Some(BadGridSize) ==> |raw| > 0 && |raw[0]| == 2
  {
    if |raw| == 0 || |raw[0]| != 2 then Some(NotTwoDimensional)
    else if !IsInteger(gridSize) || gridSize < 1.0 then Some(BadGridSize)
    else None
  }

  /** Reads the x and y coordinates of a raw point (missing ones read as 0). */
  function ToPoint(v: seq<real>): Point
  {
    Point(if |v| > 0 then v[0] else 0.0, if |v| > 1 then v[1] else 0.0)
  }

  /** The polygon as the constructor reads it. */
  function Points(raw: seq<seq<real>>): (poly: seq<Point>)
    ensures |poly| == |raw| && forall i :: 0 <= i < |raw| ==> poly[i] == ToPoint(raw[i])
  {
    seq(|raw|, i requires 0 <= i < |raw| => ToPoint(raw[i]))
  }

  // ---------------------------------------------------------------- grid parameters

  /** dirs[i] = v[i+1] - v[i] for every edge i. */
  function Dirs(poly: seq<Point>): (d: seq<Point>)
    requires |poly| >= 1
    ensures |d| == |poly| - 1
    ensures forall i {:trigger d[i]} :: 0 <= i < |d| ==> d[i] == Sub(poly[i + 1], poly[i])
  {
    seq(|poly| - 1, i requires 0 <= i < |poly| - 1 => Sub(poly[i + 1], poly[i]))
  }

  /** The running min/max after the first k edges, starting from +-1e15. */
  function Extent(poly: seq<Point>, k: nat): Box
    requires k < |poly|
  {
    if k == 0 then Box(Big, Big, -Big, -Big)
    else
      var b := Extent(poly, k - 1);
      var v0 := poly[k - 1];
      var v1 := poly[k];
      Box(Min3(b.x0, v0.x, v1.x), Min3(b.y0, v0.y, v1.y),
          Max3(b.x1, v0.x, v1.x), Max3(b.y1, v0.y, v1.y))
  }

  /** After at least one edge, the extent contains every vertex seen so far. */
  lemma {:induction false} ExtentContains(poly: seq<Point>, k: nat, j: nat)
    requires 1 <= k < |poly| && j <= k
    ensures Extent(poly, k).x0 <= poly[j].x <= Extent(poly, k).x1
    ensures Extent(poly, k).y0 <= poly[j].y <= Extent(poly, k).y1
  {
    if k > 1 && j < k - 1 {
      ExtentContains(poly, k - 1, j);
    }
  }

  /** The polygon has an edge but its extent has zero width or height. */
  predicate Degenerate(poly: seq<Point>)
    requires |poly| >= 1
  {
    var e := Extent(poly, |poly| - 1);
    |poly| >= 2 && (e.x0 == e.x1 || e.y0 == e.y1)
  }

  /** EPSILON: the smaller cell extent of the unpadded box, times 1e-4. */
  function Padding(e: Box, g: nat): real
    requires g >= 1
  {
    MinR((e.x1 - e.x0) / g as real, (e.y1 - e.y0) / g as real) * EpsilonScale
  }

  function Padded(e: Box, eps: real): Box
  {
    Box(e.x0 - eps, e.y0 - eps, e.x1 + eps, e.y1 + eps)
  }

  function MakeGeometry(poly: seq<Point>, g: nat): Geometry
    requires |poly| >= 1 && g >= 1
  {
    var e := Extent(poly, |poly| - 1);
    var eps := Padding(e, g);
    var bb := Padded(e, eps);
    Geometry(poly, g, Dirs(poly), eps, bb, (bb.x1 - bb.x0) / g as real, (bb.y1 - bb.y0) / g as real)
  }

  /** What the rest of the grid relies on: consistent parameters, and positive
      cell extents whenever the padded box is not inverted. */
  ghost predicate GeometryOk(geo: Geometry)
  {
    && |geo.polygon| >= 1 && geo.gridSize >= 1
    && geo.dirs == Dirs(geo.polygon)
    && geo.dx == (geo.bbox.x1 - geo.bbox.x0) / geo.gridSize as real
    && geo.dy == (geo.bbox.y1 - geo.bbox.y0) / geo.gridSize as real
    && (geo.bbox.x0 <= geo.bbox.x1 && geo.bbox.y0 <= geo.bbox.y1 ==> geo.dx > 0.0 && geo.dy > 0.0)
  }

  lemma PositiveQuotient(a: real, b: real)
    requires a > 0.0 && b > 0.0
    ensures a / b > 0.0
  {
  }

  /** Padding a box of positive extent, or the untouched initial bounds,
      never yields a box whose cells are empty or inverted. */
  lemma PaddedBoxOk(e: Box, g: nat)
    requires g >= 1
    requires (e.x0 < e.x1 && e.y0 < e.y1) || e == Box(Big, Big, -Big, -Big)
    ensures var bb := Padded(e, Padding(e, g));
      bb.x0 <= bb.x1 && bb.y0 <= bb.y1 ==>
        (bb.x1 - bb.x0) / g as real > 0.0 && (bb.y1 - bb.y0) / g as real > 0.0
  {
    var gr := g as real;
    var bb := Padded(e, Padding(e, g));
    if e.x0 < e.x1 && e.y0 < e.y1 {
      PositiveQuotient(e.x1 - e.x0, gr);
      PositiveQuotient(e.y1 - e.y0, gr);
      assert Padding(e, g) > 0.0;
      PositiveQuotient(bb.x1 - bb.x0, gr);
      PositiveQuotient(bb.y1 - bb.y0, gr);
    } else {
      assert -2.0 * Big / gr < 0.0;
      assert Padding(e, g) < 0.0;
      assert bb.x0 > bb.x1;
    }
  }

  /** Every non-degenerate polygon yields usable grid parameters. */
  lemma MakeGeometryOk(poly: seq<Point>, g: nat)
    requires |poly| >= 1 && g >= 1 && !Degenerate(poly)
    ensures GeometryOk(MakeGeometry(poly, g))
  {
    var n := |poly| - 1;
    if n >= 1 {
      ExtentContains(poly, n, 0);
    }
    PaddedBoxOk(Extent(poly, n), g);
  }

  // ---------------------------------------------------------------- cells

  predicate InGrid(geo: Geometry, c: Coord)
  {
    0 <= c.x < geo.gridSize && 0 <= c.y < geo.gridSize
  }

  /** A set of cells of row y with columns below g has at most g elements. */
  lemma {:induction false} RowBound(s: set<Coord>, g: nat, y: int)
    requires forall c :: c in s ==> 0 <= c.x < g && c.y == y
    ensures |s| <= g
  {
    if g > 0 {
      var t := s - {Coord(g - 1, y)};
      RowBound(t, g - 1, y);
    }
  }

  /** A set of cells of the first n rows with columns below g has at most
      g * n elements. */
  lemma {:induction false} BlockBound(s: set<Coord>, g: nat, n: nat)
    requires forall c :: c in s ==> 0 <= c.x < g && 0 <= c.y < n
    ensures |s| <= g * n
  {
    if n > 0 {
      var lo := set c | c in s && c.y < n - 1;
      var hi := set c | c in s && c.y == n - 1;
      BlockBound(lo, g, n - 1);
      RowBound(hi, g, n - 1);
      assert s == lo + hi;
      assert g * n == g * (n - 1) + g;
    }
  }

  /** A set of cells of the grid has at most gridSize^2 elements. */
  lemma GridCellsCard(geo: Geometry, s: set<Coord>)
    requires forall c :: c in s ==> InGrid(geo, c)
    ensures |s| <= geo.gridSize * geo.gridSize
  {
    BlockBound(s, geo.gridSize, geo.gridSize);
  }

  /** The box of cell [y][x]: [bx0 + x dx, by0 + y dy, bx0 + (x+1) dx, by0 + (y+1) dy]. */
  function CellBox(geo: Geometry, x: int, y: int): Box
  {
    var x0 := geo.bbox.x0 + x as real * geo.dx;
    var y0 := geo.bbox.y0 + y as real * geo.dy;
    Box(x0, y0, x0 + geo.dx, y0 + geo.dy)
  }

  /** The cells tile the padded bounding box: the first starts at its lower
      corner, neighbours share their sides, and the last ends at its upper corner. */
  lemma CellsTile(geo: Geometry, x: int, y: int)
    requires GeometryOk(geo) && 0 <= x < geo.gridSize && 0 <= y < geo.gridSize
    ensures CellBox(geo, 0, 0).x0 == geo.bbox.x0 && CellBox(geo, 0, 0).y0 == geo.bbox.y0
    ensures CellBox(geo, x + 1, y).x0 == CellBox(geo, x, y).x1
    ensures CellBox(geo, x, y + 1).y0 == CellBox(geo, x, y).y1
    ensures CellBox(geo, geo.gridSize - 1, y).x1 == geo.bbox.x1
    ensures CellBox(geo, x, geo.gridSize - 1).y1 == geo.bbox.y1
  {
    var g := geo.gridSize as real;
    assert geo.dx * g == geo.bbox.x1 - geo.bbox.x0;
    assert geo.dy * g == geo.bbox.y1 - geo.bbox.y0;
    assert (g - 1.0) * geo.dx + geo.dx == geo.dx * g;
    assert (g - 1.0) * geo.dy + geo.dy == geo.dy * g;
  }

  predicate InBoxHalfOpen(b: Box, p: Point)
  {
    b.x0 <= p.x < b.x1 && b.y0 <= p.y < b.y1
  }

  /** getCellIdx: [-1, -1] outside the box or when a floored index reaches the grid size. */
  function CellIdx(geo: Geometry, p: Point): (c: Coord)
    requires GeometryOk(geo)
    ensures c == NoCell || InGrid(geo, c)
  {
    var b := geo.bbox;
    if p.x < b.x0 || p.x > b.x1 || p.y < b.y0 || p.y > b.y1 then NoCell
    else
      var cx := ((p.x - b.x0) / geo.dx).Floor;
      var cy := ((p.y - b.y0) / geo.dy).Floor;
      if cx < 0 || cx >= geo.gridSize || cy < 0 || cy >= geo.gridSize then NoCell
      else Coord(cx, cy)
  }

  lemma MulMono(a: real, b: real, d: real)
    requires a <= b && d > 0.0
    ensures a * d <= b * d
  {
  }

  lemma MulStrict(a: real, b: real, d: real)
    requires a < b && d > 0.0
    ensures a * d < b * d
  {
  }

  lemma FloorScaled(a: real, d: real, k: int)
    requires d > 0.0 && k == (a / d).Floor
    ensures k as real * d <= a < k as real * d + d
  {
    var q := a / d;
    var kr := k as real;
    assert q * d == a;
    assert kr <= q < kr + 1.0;
    MulMono(kr, q, d);
    MulStrict(q, kr + 1.0, d);
    assert (kr + 1.0) * d == kr * d + d;
    assert a < kr * d + d;
  }

  lemma FloorBelow(a: real, d: real, g: nat)
    requires d > 0.0 && 0.0 <= a < g as real * d
    ensures 0 <= (a / d).Floor < g
  {
    var q := a / d;
    assert q * d == a;
    if q >= g as real {
      MulMono(g as real, q, d);
    }
  }

  /** A returned cell contains the point. */
  lemma CellIdxContains(geo: Geometry, p: Point)
    requires GeometryOk(geo) && CellIdx(geo, p) != NoCell
    ensures InBoxHalfOpen(CellBox(geo, CellIdx(geo, p).x, CellIdx(geo, p).y), p)
  {
    var c := CellIdx(geo, p);
    CellIdxFloors(geo, p);
    FloorsInBox(geo, p, c.x, c.y);
  }

  /** The cell at the floored offsets of p contains p. */
  lemma FloorsInBox(geo: Geometry, p: Point, cx: int, cy: int)
    requires geo.dx > 0.0 && geo.dy > 0.0
    requires cx == ((p.x - geo.bbox.x0) / geo.dx).Floor && cy == ((p.y - geo.bbox.y0) / geo.dy).Floor
    ensures InBoxHalfOpen(CellBox(geo, cx, cy), p)
  {
    FloorScaled(p.x - geo.bbox.x0, geo.dx, cx);
    FloorScaled(p.y - geo.bbox.y0, geo.dy, cy);
  }

  /** A returned cell holds the floored offsets of the point in cell units. */
  lemma CellIdxFloors(geo: Geometry, p: Point)
    requires GeometryOk(geo) && CellIdx(geo, p) != NoCell
    ensures geo.dx > 0.0 && geo.dy > 0.0
    ensures CellIdx(geo, p).x == ((p.x - geo.bbox.x0) / geo.dx).Floor
    ensures CellIdx(geo, p).y == ((p.y - geo.bbox.y0) / geo.dy).Floor
  {
  }

  /** Every point of the half-open padded box gets a cell. */
  lemma CellIdxTotal(geo: Geometry, p: Point)
    requires GeometryOk(geo) && InBoxHalfOpen(geo.bbox, p)
    ensures CellIdx(geo, p) != NoCell
  {
    var b := geo.bbox;
    var g := geo.gridSize as real;
    assert geo.dx * g == b.x1 - b.x0;
    assert geo.dy * g == b.y1 - b.y0;
    FloorBelow(p.x - b.x0, geo.dx, geo.gridSize);
    FloorBelow(p.y - b.y0, geo.dy, geo.gridSize);
  }

  /** getPointOnSegment: v[i] + t dirs[i]. */
  function PointOnSegment(geo: Geometry, i: nat, t: real): Point
    requires GeometryOk(geo) && i < |geo.dirs|
  {
    var v0 := geo.polygon[i];
    Point(v0.x + geo.dirs[i].x * t, v0.y + geo.dirs[i].y * t)
  }

  /** Parameter 0 is vertex i and parameter 1 is vertex i + 1. */
  lemma PointOnSegmentEnds(geo: Geometry, i: nat)
    requires GeometryOk(geo) && i < |geo.dirs|
    ensures PointOnSegment(geo, i, 0.0) == geo.polygon[i]
    ensures PointOnSegment(geo, i, 1.0) == geo.polygon[i + 1]
  {
  }

  // ---------------------------------------------------------------- rasterisation

  /** The finite hit parameters of getCellHitPoints.  A zero direction
      component gives +-Infinity or NaN there: NaN and -Infinity never pass the
      filter of the walk, and +Infinity only ever leads to the same
      "push up to 1 and stop" as having no hit, so they are dropped here. */
  function FiniteHits(cell: Box, start: Point, dir: Point): seq<real>
  {
    (if dir.x != 0.0 then [(cell.x0 - start.x) / dir.x, (cell.x1 - start.x) / dir.x] else [])
    + (if dir.y != 0.0 then [(cell.y0 - start.y) / dir.y, (cell.y1 - start.y) / dir.y] else [])
  }

  /** The hits strictly beyond t + 1e-12. */
  function Above(s: seq<real>, t: real): (r: seq<real>)
    ensures forall v :: v in r <==> v in s && v > t + HitSlack
  {
    if s == [] then []
    else (if s[0] > t + HitSlack then [s[0]] else []) + Above(s[1..], t)
  }

  function MinOf(s: seq<real>): (m: real)
    requires s != []
    ensures m in s && forall v :: v in s ==> m <= v
  {
    if |s| == 1 then s[0]
    else
      assert forall v :: v in s ==> v == s[0] || v in s[1..];
      MinR(s[0], MinOf(s[1..]))
  }

  /** The pushes of the while-loop of computeCellLineSegments for edge i, from
      parameter t after `count` iterations: the loop guard and the step limit. */
  function WalkFrom(geo: Geometry, i: nat, t: real, count: nat): seq<Push>
    requires GeometryOk(geo) && i < |geo.dirs| && count <= MaxWalkSteps
    decreases MaxWalkSteps - count, 1
  {
    if !(t < 1.0) || count + 1 > MaxWalkSteps then [] else WalkIteration(geo, i, t, count)
  }

  /** The body of that loop at t: the cell at t + EPSILON (none outside the
      grid ends the walk), then [i, t, end] pushed there, where end is the
      nearest boundary hit beyond t, or 1 (ending the walk) when there is none
      or it lies beyond the edge. */
  function WalkIteration(geo: Geometry, i: nat, t: real, count: nat): seq<Push>
    requires GeometryOk(geo) && i < |geo.dirs| && count < MaxWalkSteps
    decreases MaxWalkSteps - count, 0
  {
    var c := CellIdx(geo, PointOnSegment(geo, i, t + geo.epsilon));
    if c.x == -1 || c.y == -1 then []
    else
      var valid := Above(FiniteHits(CellBox(geo, c.x, c.y), geo.polygon[i], geo.dirs[i]), t);
      if valid == [] then [Push(c, SegEntry(i, t, 1.0))]
      else
        var next := MinOf(valid);
        if next > 1.0 then [Push(c, SegEntry(i, t, 1.0))]
        else [Push(c, SegEntry(i, t, next))] + WalkFrom(geo, i, next, count + 1)
  }

  /** The pushes computeCellLineSegments performs for edge i. */
  function EdgePushes(geo: Geometry, i: nat): seq<Push>
    requires GeometryOk(geo) && i < |geo.dirs|
  {
    var s := CellIdx(geo, geo.polygon[i]);
    var e := CellIdx(geo, geo.polygon[i + 1]);
    if s.x == e.x && s.y == e.y && s.x != -1 && s.y != -1 then [Push(s, SegEntry(i, 0.0, 1.0))]
    else if AbsR(geo.dirs[i].x) < DegenerateDir && AbsR(geo.dirs[i].y) < DegenerateDir then []
    else WalkFrom(geo, i, 0.0, 0)
  }

  /** The pushes of one full pass over the first k edges. */
  function AllPushes(geo: Geometry, k: nat): seq<Push>
    requires GeometryOk(geo) && k <= |geo.dirs|
  {
    if k == 0 then [] else AllPushes(geo, k - 1) + EdgePushes(geo, k - 1)
  }

  /** A full pass starts with the pushes of the first edge. */
  lemma {:induction false} AllPushesStart(geo: Geometry, k: nat)
    requires GeometryOk(geo) && 1 <= k <= |geo.dirs|
    ensures EdgePushes(geo, 0) <= AllPushes(geo, k)
  {
    if k > 1 {
      AllPushesStart(geo, k - 1);
    }
  }

  /** With a single cell, every vertex of a polygon with a proper box lies in it. */
  lemma VertexInSingleCell(poly: seq<Point>, j: nat)
    requires |poly| >= 2 && !Degenerate(poly) && j < |poly|
    ensures GeometryOk(MakeGeometry(poly, 1))
    ensures CellIdx(MakeGeometry(poly, 1), poly[j]) == Coord(0, 0)
  {
    var geo := MakeGeometry(poly, 1);
    MakeGeometryOk(poly, 1);
    ExtentContains(poly, |poly| - 1, j);
    assert Padding(Extent(poly, |poly| - 1), 1) > 0.0;
    CellIdxTotal(geo, poly[j]);
  }

  /** With a single cell, the first edge is stored whole in that cell. */
  lemma SingleCellFirstEdge(poly: seq<Point>)
    requires |poly| >= 2 && !Degenerate(poly)
    ensures GeometryOk(MakeGeometry(poly, 1))
    ensures EdgePushes(MakeGeometry(poly, 1), 0) == [Push(Coord(0, 0), SegEntry(0, 0.0, 1.0))]
  {
    VertexInSingleCell(poly, 0);
    VertexInSingleCell(poly, 1);
  }

  /** The entries a push list appends to cell c, in order. */
  function CellSegs(ps: seq<Push>, c: Coord): seq<SegEntry>
  {
    if ps == [] then []
    else (if ps[0].cell == c then [ps[0].entry] else []) + CellSegs(ps[1..], c)
  }

  lemma {:induction false} CellSegsAppend(a: seq<Push>, b: seq<Push>, c: Coord)
    ensures CellSegs(a + b, c) == CellSegs(a, c) + CellSegs(b, c)
  {
    if a != [] {
      var head := if a[0].cell == c then [a[0].entry] else [];
      assert (a + b)[0] == a[0];
      assert (a + b)[1..] == a[1..] + b;
      CellSegsAppend(a[1..], b, c);
      assert CellSegs(a, c) == head + CellSegs(a[1..], c);
      calc {
        CellSegs(a + b, c);
        head + CellSegs(a[1..] + b, c);
        head + (CellSegs(a[1..], c) + CellSegs(b, c));
        (head + CellSegs(a[1..], c)) + CellSegs(b, c);
        CellSegs(a, c) + CellSegs(b, c);
      }
    } else {
      assert a + b == b;
    }
  }

  lemma {:induction false} CellSegsMember(ps: seq<Push>, c: Coord, e: SegEntry)
    requires e in CellSegs(ps, c)
    ensures Push(c, e) in ps
  {
    if ps[0].cell == c && ps[0].entry == e {
    } else {
      CellSegsMember(ps[1..], c, e);
    }
  }

  /** A well-formed segment entry: a real edge, 0 <= t0 < t1 <= 1. */
  predicate EntryOk(geo: Geometry, e: SegEntry)
  {
    0 <= e.edge < |geo.dirs| && 0.0 <= e.t0 < e.t1 <= 1.0
  }

  predicate PushOk(geo: Geometry, p: Push)
  {
    InGrid(geo, p.cell) && EntryOk(geo, p.entry)
  }

  /** The walk of edge i from t: every push lands in the grid with a well-formed
      entry of edge i, the first starts at t, and each entry starts where the
      previous one ended, so t strictly increases along the edge. */
  lemma {:induction false} WalkFacts(geo: Geometry, i: nat, t: real, count: nat)
    requires GeometryOk(geo) && i < |geo.dirs| && count <= MaxWalkSteps && 0.0 <= t
    ensures WalkOk(geo, i, t, WalkFrom(geo, i, t, count), MaxWalkSteps - count)
    decreases MaxWalkSteps - count
  {
    if t < 1.0 && count + 1 <= MaxWalkSteps {
      var c := CellIdx(geo, PointOnSegment(geo, i, t + geo.epsilon));
      if c.x != -1 && c.y != -1 {
        var valid := Above(FiniteHits(CellBox(geo, c.x, c.y), geo.polygon[i], geo.dirs[i]), t);
        if valid != [] && MinOf(valid) <= 1.0 {
          var next := MinOf(valid);
          var rest := WalkFrom(geo, i, next, count + 1);
          assert WalkFrom(geo, i, t, count) == [Push(c, SegEntry(i, t, next))] + rest;
          WalkFacts(geo, i, next, count + 1);
          WalkOkCons(geo, i, t, next, c, rest, MaxWalkSteps - count);
        } else {
          assert WalkFrom(geo, i, t, count) == [Push(c, SegEntry(i, t, 1.0))];
          WalkOkCons(geo, i, t, 1.0, c, [], MaxWalkSteps - count);
        }
      } else {
        assert WalkFrom(geo, i, t, count) == [];
      }
    } else {
      assert WalkFrom(geo, i, t, count) == [];
    }
  }

  /** The walk w of edge i from t: every push lands in the grid with a
      well-formed entry of edge i, the first starts at t, each entry starts
      where the previous one ended, and there are at most bound of them. */
  ghost predicate WalkOk(geo: Geometry, i: nat, t: real, w: seq<Push>, bound: int)
  {
    && (forall k :: 0 <= k < |w| ==> PushOk(geo, w[k]) && w[k].entry.edge == i)
    && (|w| > 0 ==> w[0].entry.t0 == t)
    && (forall k :: 0 <= k < |w| - 1 ==> w[k].entry.t1 == w[k + 1].entry.t0)
    && |w| <= bound
  }

  /** One more push [i, t, next] in front of a walk from next. */
  lemma WalkOkCons(geo: Geometry, i: nat, t: real, next: real, c: Coord, rest: seq<Push>, bound: int)
    requires PushOk(geo, Push(c, SegEntry(i, t, next)))
    requires WalkOk(geo, i, next, rest, bound - 1)
    ensures WalkOk(geo, i, t, [Push(c, SegEntry(i, t, next))] + rest, bound)
  {
    var w := [Push(c, SegEntry(i, t, next))] + rest;
    assert forall k :: 1 <= k < |w| ==> w[k] == rest[k - 1];
  }

  /** Every push of edge i lands in the grid with a well-formed entry of edge i. */
  lemma EdgePushesOk(geo: Geometry, i: nat)
    requires GeometryOk(geo) && i < |geo.dirs|
    ensures PushesOk(geo, EdgePushes(geo, i)) && OfEdge(EdgePushes(geo, i), i)
  {
    WalkFacts(geo, i, 0.0, 0);
    PushesOkAll(geo, EdgePushes(geo, i));
  }

  /** A degenerate edge (both direction components below 1e-14) contributes
      nothing unless both of its endpoints lie in the same cell of the grid. */
  lemma DegenerateEdgeSkipped(geo: Geometry, i: nat)
    requires GeometryOk(geo) && i < |geo.dirs|
    requires AbsR(geo.dirs[i].x) < DegenerateDir && AbsR(geo.dirs[i].y) < DegenerateDir
    ensures EdgePushes(geo, i) != [] <==>
      CellIdx(geo, geo.polygon[i]) == CellIdx(geo, geo.polygon[i + 1]) != NoCell
  {
  }

  lemma {:induction false} AllPushesOk(geo: Geometry, k: nat)
    requires GeometryOk(geo) && k <= |geo.dirs|
    ensures PushesOk(geo, AllPushes(geo, k))
  {
    if k > 0 {
      AllPushesOk(geo, k - 1);
      EdgePushesOk(geo, k - 1);
      PushesOkAppend(geo, AllPushes(geo, k - 1), EdgePushes(geo, k - 1));
    }
  }

  /** Every push in ps lands in the grid with a well-formed entry; stated
      element by element so that it unfolds only as far as a proof asks. */
  ghost predicate PushesOk(geo: Geometry, ps: seq<Push>)
    decreases |ps|
  {
    ps == [] || (PushOk(geo, ps[0]) && PushesOk(geo, ps[1..]))
  }

  lemma {:induction false} PushesOkAll(geo: Geometry, ps: seq<Push>)
    requires forall j :: 0 <= j < |ps| ==> PushOk(geo, ps[j])
    ensures PushesOk(geo, ps)
    decreases |ps|
  {
    if ps != [] {
      PushesOkAll(geo, ps[1..]);
    }
  }

  lemma {:induction false} PushesOkMember(geo: Geometry, ps: seq<Push>, p: Push)
    requires PushesOk(geo, ps) && p in ps
    ensures PushOk(geo, p)
    decreases |ps|
  {
    if ps[0] != p {
      PushesOkMember(geo, ps[1..], p);
    }
  }

  /** Every push in ps stores a piece of edge i. */
  ghost predicate OfEdge(ps: seq<Push>, i: nat)
  {
    forall p :: p in ps ==> p.entry.edge == i
  }

  lemma {:induction false} PushesOkAppend(geo: Geometry, a: seq<Push>, b: seq<Push>)
    requires PushesOk(geo, a) && PushesOk(geo, b)
    ensures PushesOk(geo, a + b)
    decreases |a|
  {
    if a == [] {
      assert a + b == b;
    } else {
      PushesOkAppend(geo, a[1..], b);
      assert (a + b)[0] == a[0];
      assert (a + b)[1..] == a[1..] + b;
    }
  }

  /** Every entry one pass appends to a cell is well formed. */
  lemma CellSegsOk(geo: Geometry, c: Coord, e: SegEntry)
    requires GeometryOk(geo) && e in CellSegs(AllPushes(geo, |geo.dirs|), c)
    ensures EntryOk(geo, e) && InGrid(geo, c)
  {
    CellSegsMember(AllPushes(geo, |geo.dirs|), c, e);
    AllPushesOk(geo, |geo.dirs|);
    PushesOkMember(geo, AllPushes(geo, |geo.dirs|), Push(c, e));
  }

  // ---------------------------------------------------------------- winding number

  /** The edge v0 -> v1 crosses the horizontal line through p (half-open in y). */
  predicate Straddles(v0: Point, v1: Point, p: Point)
  {
    (v0.y <= p.y && v1.y > p.y) || (v0.y > p.y && v1.y <= p.y)
  }

  /** xint > p.x, where xint = v0.x + (p.y - v0.y)(v1.x - v0.x) / ((v1.y - v0.y) + 1e-14).
      With a zero denominator JavaScript gives +Infinity, -Infinity or NaN, so
      the comparison holds exactly when the numerator is positive. */
  predicate CrossesRightOf(v0: Point, v1: Point, p: Point)
  {
    var num := (p.y - v0.y) * (v1.x - v0.x);
    var den := (v1.y - v0.y) + DegenerateDir;
    if den != 0.0 then v0.x + num / den > p.x else num > 0.0
  }

  /** The two counters of isInsideWindingNumber after the first k edges;
      `side` is PGA2D.isInside, which is not part of this model. */
  function WindingCounts(poly: seq<Point>, p: Point, side: (Point, Point, Point) -> bool, k: nat): (int, int)
    requires k < |poly|
  {
    if k == 0 then (0, 0)
    else
      var (w1, w2) := WindingCounts(poly, p, side, k - 1);
      var v0 := poly[k - 1];
      var v1 := poly[k];
      if !Straddles(v0, v1, p) then (w1, w2)
      else
        var d := if side(v0, v1, p) then 1 else -1;
        if CrossesRightOf(v0, v1, p) then (w1 + d, w2) else (w1, w2 + d)
  }

  function StraddleCount(poly: seq<Point>, p: Point, k: nat): nat
    requires k < |poly|
  {
    if k == 0 then 0
    else StraddleCount(poly, p, k - 1) + (if Straddles(poly[k - 1], poly[k], p) then 1 else 0)
  }

  /** The verdict: inside iff both counters are nonzero. */
  predicate WindingInside(poly: seq<Point>, p: Point, side: (Point, Point, Point) -> bool)
    requires |poly| >= 1
  {
    var (w1, w2) := WindingCounts(poly, p, side, |poly| - 1);
    !(w1 == 0 || w2 == 0)
  }

  /** Only straddling edges move a counter, each by one. */
  lemma {:induction false} WindingBounded(poly: seq<Point>, p: Point, side: (Point, Point, Point) -> bool, k: nat)
    requires k < |poly|
    ensures var (w1, w2) := WindingCounts(poly, p, side, k);
      AbsR(w1 as real) + AbsR(w2 as real) <= StraddleCount(poly, p, k) as real
  {
    if k > 0 {
      WindingBounded(poly, p, side, k - 1);
    }
  }

  /** Inside needs one straddling edge on each side of p, so at least two. */
  lemma WindingNeedsTwoCrossings(poly: seq<Point>, p: Point, side: (Point, Point, Point) -> bool)
    requires |poly| >= 1 && WindingInside(poly, p, side)
    ensures StraddleCount(poly, p, |poly| - 1) >= 2
  {
    WindingBounded(poly, p, side, |poly| - 1);
  }

  // ---------------------------------------------------------------- closest point

  /** The parameter of the closest point on v0 -> v1, clamped to [0, 1]
      (a zero-length segment divides by 1e-9 instead of 0). */
  function ClampedParam(v0: Point, v1: Point, p: Point): (t: real)
    ensures 0.0 <= t <= 1.0
  {
    var segv := Sub(v1, v0);
    var denom := if Dot(segv, segv) != 0.0 then Dot(segv, segv) else ZeroDenominator;
    MaxR(0.0, MinR(1.0, Dot(Sub(p, v0), segv) / denom))
  }

  function Along(v0: Point, v1: Point, s: real): Point
  {
    Point(v0.x + (v1.x - v0.x) * s, v0.y + (v1.y - v0.y) * s)
  }

  function Dist2(a: Point, b: Point): real { Dot(Sub(a, b), Sub(a, b)) }

  /** |p - along(s)|^2 expanded as a quadratic in s. */
  lemma DistExpand(v0: Point, v1: Point, p: Point, r: real)
    ensures var u := Sub(v1, v0); var w := Sub(p, v0);
      Dist2(p, Along(v0, v1, r)) == Dot(w, w) - 2.0 * r * Dot(w, u) + r * r * Dot(u, u)
  {
    var u := Sub(v1, v0);
    var w := Sub(p, v0);
    assert Sub(p, Along(v0, v1, r)) == Point(w.x - r * u.x, w.y - r * u.y);
  }

  /** The quadratic s^2 L - 2 s A (L > 0) is least over [0, 1] at A / L clamped to [0, 1]. */
  lemma QuadraticClampedMin(L: real, A: real, s: real)
    requires L > 0.0 && 0.0 <= s <= 1.0
    ensures var t := MaxR(0.0, MinR(1.0, A / L));
      t * t * L - 2.0 * t * A <= s * s * L - 2.0 * s * A
  {
    var t := MaxR(0.0, MinR(1.0, A / L));
    QuadraticGap(L, A, s, t);
    ClampedGapNonNegative(L, A, s);
  }

  /** How much t * t * L - 2 * t * A falls short of its value at s, factored. */
  function Gap(L: real, A: real, s: real, t: real): real
  {
    (s - t) * ((s + t) * L - 2.0 * A)
  }

  lemma QuadraticGap(L: real, A: real, s: real, t: real)
    ensures s * s * L - 2.0 * s * A - (t * t * L - 2.0 * t * A) == Gap(L, A, s, t)
  {
  }

  /** The clamped minimiser of the quadratic is no worse than any s in [0, 1]. */
  lemma ClampedGapNonNegative(L: real, A: real, s: real)
    requires L > 0.0 && 0.0 <= s <= 1.0
    ensures Gap(L, A, s, MaxR(0.0, MinR(1.0, A / L))) >= 0.0
  {
    var t := MaxR(0.0, MinR(1.0, A / L));
    var q := A / L;
    assert q * L == A;
    if q <= 0.0 {
      assert A <= 0.0 by { MulMono(q, 0.0, L); }
      assert t == 0.0;
      GapLow(L, A, s);
    } else if q >= 1.0 {
      assert A >= L by { MulMono(1.0, q, L); }
      assert t == 1.0;
      GapHigh(L, A, s);
    } else {
      assert t == q;
      GapInside(L, A, s, t);
    }
  }

  lemma GapLow(L: real, A: real, s: real)
    requires L > 0.0 && 0.0 <= s && A <= 0.0
    ensures Gap(L, A, s, 0.0) >= 0.0
  {
    assert Gap(L, A, s, 0.0) == s * (s * L - 2.0 * A);
  }

  lemma GapHigh(L: real, A: real, s: real)
    requires L > 0.0 && s <= 1.0 && A >= L
    ensures Gap(L, A, s, 1.0) >= 0.0
  {
    assert (s + 1.0) * L <= 2.0 * L by { MulMono(s + 1.0, 2.0, L); }
    assert (s - 1.0) * ((s + 1.0) * L - 2.0 * A) >= 0.0;
  }

  lemma GapInside(L: real, A: real, s: real, t: real)
    requires L > 0.0 && A == t * L
    ensures Gap(L, A, s, t) >= 0.0
  {
    assert (s + t) * L - 2.0 * A == (s - t) * L by {
      assert (s + t) * L == s * L + t * L;
      assert (s - t) * L == s * L - t * L;
    }
    assert (s - t) * ((s - t) * L) == (s - t) * (s - t) * L;
    MulMono(0.0, (s - t) * (s - t), L);
  }

  /** The clamped parameter gives the point of the segment nearest to p
      (for a segment of positive length, or a single point). */
  lemma ClampedParamIsClosest(v0: Point, v1: Point, p: Point, s: real)
    requires 0.0 <= s <= 1.0
    requires v0 == v1 || Dot(Sub(v1, v0), Sub(v1, v0)) > 0.0
    ensures Dist2(p, Along(v0, v1, ClampedParam(v0, v1, p))) <= Dist2(p, Along(v0, v1, s))
  {
    var u := Sub(v1, v0);
    var w := Sub(p, v0);
    var t := ClampedParam(v0, v1, p);
    if v0 == v1 {
      assert Along(v0, v1, s) == v0 == Along(v0, v1, t);
    } else {
      var L := Dot(u, u);
      DistExpand(v0, v1, p, s);
      DistExpand(v0, v1, p, t);
      assert t == MaxR(0.0, MinR(1.0, Dot(w, u) / L));
      QuadraticClampedMin(L, Dot(w, u), s);
    }
  }


  /** The end points of the piece of edge e.edge that entry e stores. */
  function Ends(geo: Geometry, e: SegEntry): (Point, Point)
    requires GeometryOk(geo) && 0 <= e.edge < |geo.dirs|
  {
    (PointOnSegment(geo, e.edge, e.t0), PointOnSegment(geo, e.edge, e.t1))
  }

  /** The point of entry e closest to p (px, py in the source). */
  function ClosestOn(geo: Geometry, e: SegEntry, p: Point): Point
    requires GeometryOk(geo) && 0 <= e.edge < |geo.dirs|
  {
    var (v0, v1) := Ends(geo, e);
    Along(v0, v1, ClampedParam(v0, v1, p))
  }

  /** The squared distance from p to the closest point of a stored entry. */
  function SegDist2(geo: Geometry, e: SegEntry, p: Point): (d: real)
    requires GeometryOk(geo) && 0 <= e.edge < |geo.dirs|
    ensures d >= 0.0
  {
    Dist2(p, ClosestOn(geo, e, p))
  }

  predicate EntriesOk(geo: Geometry, segs: seq<SegEntry>)
  {
    forall j :: 0 <= j < |segs| ==> EntryOk(geo, segs[j])
  }

  /** The distances from p of the closest points of the entries. */
  function Dists(geo: Geometry, segs: seq<SegEntry>, p: Point): (ds: seq<real>)
    requires GeometryOk(geo) && EntriesOk(geo, segs)
    ensures |ds| == |segs| && forall j :: 0 <= j < |ds| ==> ds[j] == SegDist2(geo, segs[j], p)
  {
    seq(|segs|, j requires 0 <= j < |segs| => SegDist2(geo, segs[j], p))
  }

  /** The index getClosestPointAndSegmentOnSegments keeps among the first n
      distances: a later one replaces the best only when strictly smaller. */
  function FirstMin(ds: seq<real>, n: nat): (b: nat)
    requires 1 <= n <= |ds|
    ensures b < n
  {
    if n == 1 then 0
    else
      var b := FirstMin(ds, n - 1);
      if ds[n - 1] < ds[b] then n - 1 else b
  }

  /** The kept index is the first of the smallest distances. */
  lemma {:induction false} FirstMinIsFirstMinimal(ds: seq<real>, n: nat)
    requires 1 <= n <= |ds|
    ensures var b := FirstMin(ds, n);
      && (forall j :: 0 <= j < n ==> ds[b] <= ds[j])
      && (forall j :: 0 <= j < b ==> ds[b] < ds[j])
  {
    if n > 1 {
      FirstMinIsFirstMinimal(ds, n - 1);
    }
  }

  /** The entry kept by the closest-segment search. */
  function BestOf(geo: Geometry, segs: seq<SegEntry>, p: Point): (b: nat)
    requires GeometryOk(geo) && 1 <= |segs| && EntriesOk(geo, segs)
    ensures b < |segs|
  {
    FirstMin(Dists(geo, segs, p), |segs|)
  }

  /** No point of any of the entries is nearer to p than the closest point of
      the kept one (for pieces of positive length or single points). */
  lemma BestIsNearest(geo: Geometry, segs: seq<SegEntry>, p: Point, j: nat, s: real)
    requires GeometryOk(geo) && 1 <= |segs| && j < |segs| && 0.0 <= s <= 1.0
    requires EntriesOk(geo, segs)
    requires var (v0, v1) := Ends(geo, segs[j]); v0 == v1 || Dot(Sub(v1, v0), Sub(v1, v0)) > 0.0
    ensures var (v0, v1) := Ends(geo, segs[j]);
      Dist2(p, ClosestOn(geo, segs[BestOf(geo, segs, p)], p)) <= Dist2(p, Along(v0, v1, s))
  {
    FirstMinIsFirstMinimal(Dists(geo, segs, p), |segs|);
    var (v0, v1) := Ends(geo, segs[j]);
    ClampedParamIsClosest(v0, v1, p, s);
  }

  /** onLeft(a, b, q): q is on or to the left of a -> b. */
  predicate OnLeft(a: Point, b: Point, q: Point)
  {
    (b.x - a.x) * (q.y - a.y) - (b.y - a.y) * (q.x - a.x) >= 0.0
  }
}
