/**
 * The segmented point-location grid as an object: a gridSize x gridSize table
 * of cells, each holding its box, the pieces of polygon edges that cross it
 * and a label.  The constructor builds the table, the rasterisation appends
 * edge pieces and marks cells MIXED, the flood fill labels the remaining
 * regions, and the queries answer inside/outside.
 */
module TwoDGrid {
  import opened Wrappers
  import opened GridGeometry

  /** One cell [box, segments, label]. */
  datatype Cell = Cell(box: Box, segs: seq<SegEntry>, kind: Label)

  /** isInside dereferences the closest segment, which is null for an empty
      list: the TypeError the source then throws. */
  datatype QueryError = NoSegments

  /** The cap on the iterations of one flood fill. */
  const MaxFloodSteps: nat := 200000

  /** A cell after `es` has been appended to its list: MIXED as soon as
      anything was appended, untouched otherwise. */
  function AddSegs(c: Cell, es: seq<SegEntry>): (r: Cell)
    ensures r.box == c.box && r.segs == c.segs + es
    ensures r.kind == (if es == [] then c.kind else Mixed)
  {
    if es == [] then c else c.(segs := c.segs + es, kind := Mixed)
  }

  /** Appending in two steps is appending the concatenation. */
  lemma AddSegsTwice(c: Cell, a: seq<SegEntry>, b: seq<SegEntry>)
    ensures AddSegs(AddSegs(c, a), b) == AddSegs(c, a + b)
  {
    if a == [] {
      assert a + b == b;
    } else if b == [] {
      assert a + b == a;
    } else {
      assert c.segs + a + b == c.segs + (a + b);
    }
  }

  /** What every cell of a well-formed grid satisfies: its box is the tiling
      box, its entries are well formed, and it is MIXED iff it holds entries. */
  ghost predicate CellOk(geo: Geometry, c: Cell, x: int, y: int)
  {
    && c.box == CellBox(geo, x, y)
    && (forall e :: e in c.segs ==> EntryOk(geo, e))
    && (c.kind == Mixed <==> c.segs != [])
  }

  /** The four moves [1,0], [-1,0], [0,1], [0,-1] of the flood fill. */
  function Neighbour(c: Coord, k: int): Coord
  {
    if k == 0 then Coord(c.x + 1, c.y)
    else if k == 1 then Coord(c.x - 1, c.y)
    else if k == 2 then Coord(c.x, c.y + 1)
    else Coord(c.x, c.y - 1)
  }

  /** a comes before b when read row by row, left to right. */
  predicate RowFirst(a: Coord, b: Coord)
  {
    a.y < b.y || (a.y == b.y && a.x < b.x)
  }

  /** Row-major arithmetic for RowMajorOrder: a row before row b ends
      before row b starts. */
  lemma {:induction false} MulStep(a: int, b: int, g: nat)
    requires a < b
    ensures a * g + g <= b * g
    decreases b - a
  {
    if a + 1 < b {
      MulStep(a, b - 1, g);
      assert (b - 1) * g + g == b * g;
    }
  }

  /** The move that undoes move k. */
  function Opposite(k: int): int
  {
    if k == 0 then 1 else if k == 1 then 0 else if k == 2 then 3 else 2
  }

  lemma OppositeNeighbour(c: Coord, k: int)
    requires 0 <= k < 4
    ensures 0 <= Opposite(k) < 4 && Neighbour(Neighbour(c, k), Opposite(k)) == c
  {
  }

  /** Appending p to the push list updates the cell at p.cell, and only it. */
  lemma RecordPush(o: Cell, cur: Cell, next: Cell, done: seq<Push>, p: Push, c: Coord)
    requires cur == AddSegs(o, CellSegs(done, c))
    requires next == (if p.cell == c then AddSegs(cur, [p.entry]) else cur)
    ensures next == AddSegs(o, CellSegs(done + [p], c))
  {
    CellSegsAppend(done, [p], c);
    assert [p][1..] == [];
    AddSegsTwice(o, CellSegs(done, c), CellSegs([p], c));
  }

  function Midpoint(b: Box): Point
  {
    Point((b.x0 + b.x1) * 0.5, (b.y0 + b.y1) * 0.5)
  }

  /** init runs the rasterisation twice (once itself, once inside
      assignCellTypes), so every entry is stored twice.  With a single cell
      the list of that cell already repeats the first edge.  The list
      before + s + s is the shape TwoDGridSegmented.Init's ensures gives each
      cell; this lemma speaks about init only through that postcondition. */
  lemma InitRepeatsEntry(poly: seq<Point>, before: seq<SegEntry>)
    requires |poly| >= 2 && !Degenerate(poly)
    ensures GeometryOk(MakeGeometry(poly, 1))
    ensures var geo := MakeGeometry(poly, 1);
      var s := CellSegs(AllPushes(geo, |geo.dirs|), Coord(0, 0));
      var l := before + s + s;
      |s| >= 1 && l[|before|] == l[|before| + |s|] == SegEntry(0, 0.0, 1.0)
  {
    SingleCellFirstEdge(poly);
    var geo := MakeGeometry(poly, 1);
    var all := AllPushes(geo, |geo.dirs|);
    var e0 := EdgePushes(geo, 0);
    AllPushesStart(geo, |geo.dirs|);
    assert all == e0 + all[|e0|..];
    CellSegsAppend(e0, all[|e0|..], Coord(0, 0));
  }

  class TwoDGridSegmented {
    const geo: Geometry
    const cells: array2<Cell>

    ghost predicate Valid()
      reads this, cells
    {
      && GeometryOk(geo)
      && cells.Length0 == geo.gridSize && cells.Length1 == geo.gridSize
      && (forall y, x :: 0 <= y < cells.Length0 && 0 <= x < cells.Length1 ==> CellOk(geo, cells[y, x], x, y))
    }

    /** The constructor, for input that passed the checks of Create.  The
        loop computes the edge directions and the running extent. */
    constructor (poly: seq<Point>, g: nat)
      requires |poly| >= 1 && g >= 1 && !Degenerate(poly)
      ensures Valid() && geo == MakeGeometry(poly, g) && fresh(cells)
      ensures forall y, x :: 0 <= y < g && 0 <= x < g ==> cells[y, x] == Cell(CellBox(geo, x, y), [], Unknown)
    {
      var dirs, minx, miny, maxx, maxy := DirsAndExtent(poly);
      var eps := MinR((maxx - minx) / g as real, (maxy - miny) / g as real) * EpsilonScale;
      var bb := Box(minx - eps, miny - eps, maxx + eps, maxy + eps);
      geo := Geometry(poly, g, dirs, eps, bb, (bb.x1 - bb.x0) / g as real, (bb.y1 - bb.y0) / g as real);
      cells := new Cell[g, g]((y, x) => Cell(Box(0.0, 0.0, 0.0, 0.0), [], Unknown));
      new;
      MakeGeometryOk(poly, g);
      InitCells();
    }

    /** The loop of the constructor over the n = |poly| - 1 edges: the edge
        directions and the running min/max, starting from +-1e15. */
    static method DirsAndExtent(poly: seq<Point>) returns (dirs: seq<Point>, minx: real, miny: real, maxx: real, maxy: real)
      requires |poly| >= 1
      ensures dirs == Dirs(poly)
      ensures Box(minx, miny, maxx, maxy) == Extent(poly, |poly| - 1)
    {
      var n := |poly| - 1;
      dirs := [];
      minx, miny, maxx, maxy := Big, Big, -Big, -Big;
      var i := 0;
      while i < n
        invariant 0 <= i <= n && |dirs| == i
        invariant forall k {:trigger dirs[k]} :: 0 <= k < i ==> dirs[k] == Sub(poly[k + 1], poly[k])
        invariant Box(minx, miny, maxx, maxy) == Extent(poly, i)
      {
        var v0, v1 := poly[i], poly[i + 1];
        dirs := dirs + [Sub(v1, v0)];
        minx, miny := Min3(minx, v0.x, v1.x), Min3(miny, v0.y, v1.y);
        maxx, maxy := Max3(maxx, v0.x, v1.x), Max3(maxy, v0.y, v1.y);
        i := i + 1;
      }
    }

    /** One row of initCells: every cell of row y gets its box; nothing else
        changes. */
    method InitRow(y: nat)
      requires GeometryOk(geo) && cells.Length0 == geo.gridSize && cells.Length1 == geo.gridSize && y < geo.gridSize
      modifies cells
      ensures forall yy, xx :: 0 <= yy < cells.Length0 && 0 <= xx < cells.Length1 ==>
        cells[yy, xx] == if yy == y then old(cells[yy, xx]).(box := CellBox(geo, xx, yy)) else old(cells[yy, xx])
    {
      var x := 0;
      while x < geo.gridSize
        invariant 0 <= x <= geo.gridSize
        invariant forall yy, xx :: 0 <= yy < cells.Length0 && 0 <= xx < cells.Length1 ==>
          cells[yy, xx] == if yy == y && xx < x then old(cells[yy, xx]).(box := CellBox(geo, xx, yy)) else old(cells[yy, xx])
      {
        var x0 := geo.bbox.x0 + x as real * geo.dx;
        var y0 := geo.bbox.y0 + y as real * geo.dy;
        cells[y, x] := cells[y, x].(box := Box(x0, y0, x0 + geo.dx, y0 + geo.dy));
        x := x + 1;
      }
    }

    /** initCells: gives cell [y][x] the box [bx0 + x dx, by0 + y dy, +dx, +dy]. */
    method InitCells()
      requires GeometryOk(geo) && cells.Length0 == geo.gridSize && cells.Length1 == geo.gridSize
      requires forall y, x :: 0 <= y < cells.Length0 && 0 <= x < cells.Length1 ==>
        cells[y, x].segs == [] && cells[y, x].kind == Unknown
      modifies cells
      ensures Valid()
      ensures forall y, x :: 0 <= y < cells.Length0 && 0 <= x < cells.Length1 ==>
        cells[y, x] == Cell(CellBox(geo, x, y), [], Unknown)
    {
      var y := 0;
      while y < geo.gridSize
        invariant 0 <= y <= geo.gridSize
        invariant forall yy, xx :: 0 <= yy < cells.Length0 && 0 <= xx < cells.Length1 ==>
          cells[yy, xx].segs == [] && cells[yy, xx].kind == Unknown && (yy < y ==> cells[yy, xx].box == CellBox(geo, xx, yy))
      {
        InitRow(y);
        y := y + 1;
      }
    }

    /** The table as rows of values (row y, column x). */
    ghost function Snapshot(): (s: seq<seq<Cell>>)
      reads this, cells
      ensures |s| == cells.Length0
      ensures forall y :: 0 <= y < |s| ==> |s[y]| == cells.Length1
      ensures forall y, x :: 0 <= y < cells.Length0 && 0 <= x < cells.Length1 ==> s[y][x] == cells[y, x]
    {
      seq(cells.Length0, y requires 0 <= y < cells.Length0 reads cells =>
        seq(cells.Length1, x requires 0 <= x < cells.Length1 reads cells => cells[y, x]))
    }

    /** Every cell is its value in `orig` with the entries `done` sends to it
        appended, in order. */
    ghost predicate Recorded(orig: seq<seq<Cell>>, done: seq<Push>)
      reads this, cells
    {
      && |orig| == cells.Length0
      && (forall y :: 0 <= y < |orig| ==> |orig[y]| == cells.Length1)
      && (forall y, x {:trigger cells[y, x]} :: 0 <= y < cells.Length0 && 0 <= x < cells.Length1 ==>
            cells[y, x] == AddSegs(orig[y][x], CellSegs(done, Coord(x, y))))
    }

    /** cell[1].push(entry); cell[2] = MIXED, on the cell at c: the push list
        grows by one push. */
    method PushEntry(c: Coord, entry: SegEntry, ghost orig: seq<seq<Cell>>, ghost done: seq<Push>)
      requires Valid() && InGrid(geo, c) && EntryOk(geo, entry) && Recorded(orig, done)
      modifies cells
      ensures Valid() && Recorded(orig, done + [Push(c, entry)])
    {
      label Before:
      cells[c.y, c.x] := AddSegs(cells[c.y, c.x], [entry]);
      forall y, x | 0 <= y < cells.Length0 && 0 <= x < cells.Length1
        ensures cells[y, x] == AddSegs(orig[y][x], CellSegs(done + [Push(c, entry)], Coord(x, y)))
      {
        RecordPush(orig[y][x], old@Before(cells[y, x]), cells[y, x], done, Push(c, entry), Coord(x, y));
      }
    }

    /** The rasterisation of edge i (one iteration of the outer loop of
        computeCellLineSegments): the push list grows by EdgePushes. */
    method RasterizeEdge(i: nat, ghost orig: seq<seq<Cell>>, ghost done: seq<Push>)
      requires Valid() && i < |geo.dirs| && Recorded(orig, done)
      modifies cells
      ensures Valid() && Recorded(orig, done + EdgePushes(geo, i))
    {
      var v0 := geo.polygon[i];
      var v1 := geo.polygon[i + 1];
      var s := CellIdx(geo, v0);
      var e := CellIdx(geo, v1);
      if s.x == e.x && s.y == e.y && s.x != -1 && s.y != -1 {
        PushEntry(s, SegEntry(i, 0.0, 1.0), orig, done);
        return;
      }
      var d := geo.dirs[i];
      if AbsR(d.x) < DegenerateDir && AbsR(d.y) < DegenerateDir {
        assert done + [] == done;
        return;
      }
      WalkEdge(i, orig, done);
    }

    /** The part of one iteration of the while-loop over t of
        computeCellLineSegments that decides what to push: the cell at
        t + EPSILON (None outside the grid), the entry [i, t, end] for it and
        whether the loop stops after pushing it. */
    method NextPush(i: nat, t: real, ghost count: nat) returns (step: Option<(Coord, SegEntry, bool)>)
      requires Valid() && i < |geo.dirs| && 0.0 <= t < 1.0 && count < MaxWalkSteps
      ensures step.None? ==> WalkFrom(geo, i, t, count) == []
      ensures step.Some? ==> var (c, e, last) := step.value;
        && InGrid(geo, c) && EntryOk(geo, e) && e.edge == i && e.t0 == t
        && WalkFrom(geo, i, t, count) == [Push(c, e)] + (if last then [] else WalkFrom(geo, i, e.t1, count + 1))
    {
      var c := CellIdx(geo, PointOnSegment(geo, i, t + geo.epsilon));
      if c.x == -1 || c.y == -1 {
        return None;
      }
      var cell := cells[c.y, c.x];
      var valid := Above(FiniteHits(cell.box, geo.polygon[i], geo.dirs[i]), t);
      // all three outcomes push [i, t, end]; the first two then stop the walk
      if valid == [] {
        step := Some((c, SegEntry(i, t, 1.0), true));
      } else {
        var next := MinOf(valid);
        if next > 1.0 {
          step := Some((c, SegEntry(i, t, 1.0), true));
        } else {
          step := Some((c, SegEntry(i, t, next), false));
        }
      }
    }

    /** One iteration of the while-loop over t of computeCellLineSegments:
        the count is bumped and checked, the cell at t + EPSILON receives its
        entry, and t advances to the entry's end unless the loop stops.  The
        pushes done so far followed by the rest of the walk stay the same. */
    method WalkIterate(i: nat, t: real, count: nat, ghost orig: seq<seq<Cell>>, ghost done: seq<Push>)
      returns (t': real, count': nat, stop: bool, ghost done': seq<Push>)
      requires Valid() && i < |geo.dirs| && Recorded(orig, done)
      requires 0.0 <= t < 1.0 && count <= MaxWalkSteps
      modifies cells
      ensures Valid() && Recorded(orig, done')
      ensures count <= count' <= MaxWalkSteps && 0.0 <= t'
      ensures !stop ==> count' == count + 1
      ensures done' + (if stop then [] else WalkFrom(geo, i, t', count')) == done + WalkFrom(geo, i, t, count)
    {
      ghost var rest := WalkFrom(geo, i, t, count);
      t', count', done' := t, count, done;
      count' := count' + 1;
      if count' > MaxWalkSteps {
        assert rest == [] && done + [] == done;
        return t, count, true, done;
      }
      var step := NextPush(i, t, count);
      if step.None? {
        assert rest == [] && done + [] == done;
        return t, count', true, done;
      }
      var (c, entry, last) := step.value;
      PushEntry(c, entry, orig, done);
      done' := done + [Push(c, entry)];
      if last {
        Splice(done, Push(c, entry), rest, []);
        return t, count', true, done';
      }
      Splice(done, Push(c, entry), rest, WalkFrom(geo, i, entry.t1, count'));
      return entry.t1, count', false, done';
    }

    /** Moving the head of the remaining pushes to the done ones. */
    static lemma Splice(done: seq<Push>, p: Push, rest: seq<Push>, tail: seq<Push>)
      requires rest == [p] + tail
      ensures (done + [p]) + tail == done + rest
    {
    }

    /** The while-loop over t of computeCellLineSegments for edge i. */
    method WalkEdge(i: nat, ghost orig: seq<seq<Cell>>, ghost before: seq<Push>)
      requires Valid() && i < |geo.dirs| && Recorded(orig, before)
      modifies cells
      ensures Valid() && Recorded(orig, before + WalkFrom(geo, i, 0.0, 0))
    {
      var t := 0.0;
      var count := 0;
      var stop := false;
      ghost var done: seq<Push> := before;
      while t < 1.0 && !stop
        invariant count <= MaxWalkSteps && 0.0 <= t
        invariant done + (if stop then [] else WalkFrom(geo, i, t, count)) == before + WalkFrom(geo, i, 0.0, 0)
        invariant Valid() && Recorded(orig, done)
        decreases MaxWalkSteps - count, if stop then 0 else 1
      {
        t, count, stop, done := WalkIterate(i, t, count, orig, done);
      }
      if !stop {
        assert WalkFrom(geo, i, t, count) == [];
      }
      assert done + [] == done;
    }

    /** One round of the loop over the edges: edge i's pushes follow those
        of the edges before it. */
    method RasterizeNext(i: nat, ghost orig: seq<seq<Cell>>, ghost done: seq<Push>) returns (ghost done': seq<Push>)
      requires Valid() && i < |geo.dirs| && done == AllPushes(geo, i) && Recorded(orig, done)
      modifies cells
      ensures Valid() && done' == AllPushes(geo, i + 1) && Recorded(orig, done')
    {
      RasterizeEdge(i, orig, done);
      done' := done + EdgePushes(geo, i);
    }

    /** The loop over the edges of computeCellLineSegments. */
    method RasterizeAll(ghost orig: seq<seq<Cell>>)
      requires Valid() && Recorded(orig, [])
      modifies cells
      ensures Valid() && Recorded(orig, AllPushes(geo, |geo.dirs|))
    {
      var i := 0;
      ghost var done: seq<Push> := [];
      while i < |geo.dirs|
        invariant 0 <= i <= |geo.dirs| && done == AllPushes(geo, i)
        invariant Valid() && Recorded(orig, done)
      {
        done := RasterizeNext(i, orig, done);
        i := i + 1;
      }
    }

    /** computeCellLineSegments: every cell receives, in order, the entries of
        one pass over all edges. */
    method ComputeCellLineSegments()
      requires Valid()
      modifies cells
      ensures Valid()
      ensures forall y, x :: 0 <= y < cells.Length0 && 0 <= x < cells.Length1 ==>
        cells[y, x] == AddSegs(old(cells[y, x]), CellSegs(AllPushes(geo, |geo.dirs|), Coord(x, y)))
    {
      ghost var orig := Snapshot();
      RasterizeAll(orig);
    }

    // ------------------------------------------------------------ flood fill

    /** The position of cell c in row-major order. */
    function RowMajor(c: Coord): int
    {
      c.y * geo.gridSize + c.x
    }

    /** The label of cell c. */
    function KindAt(c: Coord): Label
      reads this, cells
      requires InGrid(geo, c) && cells.Length0 == geo.gridSize && cells.Length1 == geo.gridSize
    {
      cells[c.y, c.x].kind
    }

    /** Move k from c either leaves the grid, meets a labelled cell, or stays in `region`. */
    ghost predicate Reached(region: set<Coord>, c: Coord, k: int)
      reads this, cells
      requires cells.Length0 == geo.gridSize && cells.Length1 == geo.gridSize
    {
      InGrid(geo, Neighbour(c, k)) && KindAt(Neighbour(c, k)) == Unknown ==> Neighbour(c, k) in region
    }

    /** Move k from c meets no EXTERIOR or INTERIOR cell. */
    ghost predicate Quiet(c: Coord, k: int)
      reads this, cells
      requires cells.Length0 == geo.gridSize && cells.Length1 == geo.gridSize
    {
      InGrid(geo, Neighbour(c, k)) ==> KindAt(Neighbour(c, k)) in {Unknown, Mixed}
    }

    /** No move from the region meets a labelled cell. */
    ghost predicate QuietRegion(region: set<Coord>)
      reads this, cells
      requires cells.Length0 == geo.gridSize && cells.Length1 == geo.gridSize
    {
      forall c, k :: c in region && 0 <= k < 4 ==> Quiet(c, k)
    }

    /** Move k from c meets a cell labelled l. */
    ghost predicate LabelledBy(c: Coord, k: int, l: Label)
      reads this, cells
      requires cells.Length0 == geo.gridSize && cells.Length1 == geo.gridSize
    {
      InGrid(geo, Neighbour(c, k)) && KindAt(Neighbour(c, k)) == l
    }

    /** No UNKNOWN cell is 4-adjacent to `region` without belonging to it. */
    ghost predicate Closed(region: set<Coord>)
      reads this, cells
      requires cells.Length0 == geo.gridSize && cells.Length1 == geo.gridSize
    {
      forall c, k :: c in region && 0 <= k < 4 ==> Reached(region, c, k)
    }

    /** Reached only depends on membership, so it survives growing the region. */
    lemma ReachedGrows(r: set<Coord>, r': set<Coord>, done: set<Coord>, m: int)
      requires cells.Length0 == geo.gridSize && cells.Length1 == geo.gridSize
      requires r <= r'
      requires forall c, k :: c in done && 0 <= k < m ==> Reached(r, c, k)
      ensures forall c, k :: c in done && 0 <= k < m ==> Reached(r', c, k)
    {
      forall c, k | c in done && 0 <= k < m
        ensures Reached(r', c, k)
      {
        assert Reached(r, c, k);
      }
    }

    /** The state of a flood fill from `seed`: `region` holds UNKNOWN cells,
        each either expanded already or waiting on the stack (once); the
        expanded cells have all their UNKNOWN neighbours in `region`, and
        `connected` is UNKNOWN while no expanded cell touches a labelled
        cell, otherwise a label such a neighbour carries. */
    ghost predicate FloodInv(seed: Coord, region: set<Coord>, stack: seq<Coord>, expanded: set<Coord>, connected: Label)
      reads this, cells
      requires cells.Length0 == geo.gridSize && cells.Length1 == geo.gridSize
    {
      && expanded <= region && seed in region
      && (forall c :: c in region ==> InGrid(geo, c) && KindAt(c) == Unknown)
      && (forall j :: 0 <= j < |stack| ==> stack[j] in region && stack[j] !in expanded)
      && (forall j, j' :: 0 <= j < j' < |stack| ==> stack[j] != stack[j'])
      && (forall c :: c in region ==> c in expanded || c in stack)
      && connected != Mixed
      && (forall c, k :: c in expanded && 0 <= k < 4 ==> Reached(region, c, k))
      && (connected == Unknown ==> forall c, k :: c in expanded && 0 <= k < 4 ==> Quiet(c, k))
      && (connected != Unknown ==> exists c, k :: c in expanded && 0 <= k < 4 && LabelledBy(c, k, connected))
    }

    /** The flood-fill state while the neighbours of the popped cell u are
        visited: FloodInv with u neither expanded nor on the stack, and its
        first k moves already handled. */
    ghost predicate VisitInv(seed: Coord, u: Coord, k: int, region: set<Coord>, stack: seq<Coord>, expanded: set<Coord>, connected: Label)
      reads this, cells
      requires cells.Length0 == geo.gridSize && cells.Length1 == geo.gridSize
    {
      VisitShape(seed, u, k, region, stack, expanded) && VisitReach(u, k, region, expanded, connected)
    }

    /** The region and the stack while u is visited. */
    ghost predicate VisitShape(seed: Coord, u: Coord, k: int, region: set<Coord>, stack: seq<Coord>, expanded: set<Coord>)
      reads this, cells
      requires cells.Length0 == geo.gridSize && cells.Length1 == geo.gridSize
    {
      && 0 <= k <= 4
      && expanded <= region && seed in region && u in region && u !in expanded
      && (forall c :: c in region ==> InGrid(geo, c) && KindAt(c) == Unknown)
      && (forall j :: 0 <= j < |stack| ==> stack[j] in region && stack[j] !in expanded && stack[j] != u)
      && (forall j, j' :: 0 <= j < j' < |stack| ==> stack[j] != stack[j'])
      && (forall c :: c in region ==> c in expanded || c in stack || c == u)
    }

    /** What the moves handled so far have met while u is visited. */
    ghost predicate VisitReach(u: Coord, k: int, region: set<Coord>, expanded: set<Coord>, connected: Label)
      reads this, cells
      requires cells.Length0 == geo.gridSize && cells.Length1 == geo.gridSize
    {
      && connected != Mixed
      && (forall c, k' :: c in expanded && 0 <= k' < 4 ==> Reached(region, c, k'))
      && (forall c, k' :: c in {u} && 0 <= k' < k ==> Reached(region, c, k'))
      && (connected == Unknown ==>
           (forall c, k' :: c in expanded && 0 <= k' < 4 ==> Quiet(c, k')) && forall k' :: 0 <= k' < k ==> Quiet(u, k'))
      && (connected != Unknown ==>
           (exists c, k' :: c in expanded && 0 <= k' < 4 && LabelledBy(c, k', connected))
           || exists k' :: 0 <= k' < k && LabelledBy(u, k', connected))
    }

    /** The body of the loop over the four moves: neighbour k of u. */
    method VisitNeighbour(ghost seed: Coord, u: Coord, k: int, region0: set<Coord>, stack0: seq<Coord>,
                          ghost expanded: set<Coord>, connected0: Label)
      returns (region: set<Coord>, stack: seq<Coord>, connected: Label)
      requires Valid() && k < 4 && VisitInv(seed, u, k, region0, stack0, expanded, connected0)
      ensures VisitInv(seed, u, k + 1, region, stack, expanded, connected)
    {
      region, stack, connected := region0, stack0, connected0;
      var n := Neighbour(u, k);
      if InGrid(geo, n) {
        if KindAt(n) == Unknown {
          if n !in region {
            VisitNew(seed, u, k, region, stack, expanded, connected);
            region := region + {n};
            stack := stack + [n];
          } else {
            VisitQuiet(seed, u, k, region, stack, expanded, connected);
          }
        } else if KindAt(n) != Mixed {
          connected := KindAt(n);
          VisitLabelled(seed, u, k, region, stack, expanded, connected0);
        } else {
          VisitQuiet(seed, u, k, region, stack, expanded, connected);
        }
      } else {
        VisitQuiet(seed, u, k, region, stack, expanded, connected);
      }
    }

    /** Move k from u meets an UNKNOWN cell not in the region yet: it joins
        the region and the stack. */
    lemma VisitNew(seed: Coord, u: Coord, k: int, region: set<Coord>, stack: seq<Coord>, expanded: set<Coord>, connected: Label)
      requires Valid() && k < 4 && VisitInv(seed, u, k, region, stack, expanded, connected)
      requires InGrid(geo, Neighbour(u, k)) && KindAt(Neighbour(u, k)) == Unknown && Neighbour(u, k) !in region
      ensures VisitInv(seed, u, k + 1, region + {Neighbour(u, k)}, stack + [Neighbour(u, k)], expanded, connected)
    {
      VisitNewShape(seed, u, k, region, stack, expanded);
      VisitNewReach(u, k, region, expanded, connected);
    }

    lemma VisitNewShape(seed: Coord, u: Coord, k: int, region: set<Coord>, stack: seq<Coord>, expanded: set<Coord>)
      requires Valid() && k < 4 && VisitShape(seed, u, k, region, stack, expanded)
      requires InGrid(geo, Neighbour(u, k)) && KindAt(Neighbour(u, k)) == Unknown && Neighbour(u, k) !in region
      ensures VisitShape(seed, u, k + 1, region + {Neighbour(u, k)}, stack + [Neighbour(u, k)], expanded)
    {
    }

    lemma VisitNewReach(u: Coord, k: int, region: set<Coord>, expanded: set<Coord>, connected: Label)
      requires Valid() && k < 4 && VisitReach(u, k, region, expanded, connected)
      requires InGrid(geo, Neighbour(u, k)) && KindAt(Neighbour(u, k)) == Unknown
      ensures VisitReach(u, k + 1, region + {Neighbour(u, k)}, expanded, connected)
    {
      var n := Neighbour(u, k);
      ReachedGrows(region, region + {n}, expanded, 4);
      ReachedGrows(region, region + {n}, {u}, k);
      assert Reached(region + {n}, u, k);
      if connected == Unknown {
        assert Quiet(u, k);
      }
    }

    /** Move k from u meets nothing new and no label: only k advances. */
    lemma VisitQuiet(seed: Coord, u: Coord, k: int, region: set<Coord>, stack: seq<Coord>, expanded: set<Coord>, connected: Label)
      requires Valid() && k < 4 && VisitInv(seed, u, k, region, stack, expanded, connected)
      requires InGrid(geo, Neighbour(u, k)) ==> KindAt(Neighbour(u, k)) == Mixed || Neighbour(u, k) in region
      ensures VisitInv(seed, u, k + 1, region, stack, expanded, connected)
    {
      assert Reached(region, u, k);
      if connected == Unknown {
        assert forall c :: c in region ==> KindAt(c) == Unknown;
        assert Quiet(u, k);
      }
    }

    /** Move k from u meets an EXTERIOR or INTERIOR cell: its label is
        recorded. */
    lemma VisitLabelled(seed: Coord, u: Coord, k: int, region: set<Coord>, stack: seq<Coord>, expanded: set<Coord>, connected: Label)
      requires Valid() && k < 4 && VisitInv(seed, u, k, region, stack, expanded, connected)
      requires InGrid(geo, Neighbour(u, k)) && KindAt(Neighbour(u, k)) in {Interior, Exterior}
      ensures VisitInv(seed, u, k + 1, region, stack, expanded, KindAt(Neighbour(u, k)))
    {
      assert Reached(region, u, k);
      assert LabelledBy(u, k, KindAt(Neighbour(u, k)));
    }

    /** One iteration of the flood fill: pop the top cell and look at its
        four neighbours, adding the UNKNOWN ones not seen yet and recording
        the label of the EXTERIOR/INTERIOR ones. */
    method ExpandTop(ghost seed: Coord, region0: set<Coord>, stack0: seq<Coord>, ghost expanded: set<Coord>, connected0: Label)
      returns (region: set<Coord>, stack: seq<Coord>, connected: Label)
      requires Valid() && stack0 != [] && FloodInv(seed, region0, stack0, expanded, connected0)
      ensures stack0[|stack0| - 1] !in expanded
      ensures FloodInv(seed, region, stack, expanded + {stack0[|stack0| - 1]}, connected)
    {
      var u := stack0[|stack0| - 1];
      stack := stack0[..|stack0| - 1];
      region := region0;
      connected := connected0;
      VisitStart(seed, region, stack0, expanded, connected);
      var k := 0;
      while k < 4
        invariant VisitInv(seed, u, k, region, stack, expanded, connected)
      {
        region, stack, connected := VisitNeighbour(seed, u, k, region, stack, expanded, connected);
        k := k + 1;
      }
      VisitEnd(seed, u, region, stack, expanded, connected);
    }

    /** Popping the top of the stack starts the visit of its moves. */
    lemma VisitStart(seed: Coord, region: set<Coord>, stack: seq<Coord>, expanded: set<Coord>, connected: Label)
      requires Valid() && stack != [] && FloodInv(seed, region, stack, expanded, connected)
      ensures stack[|stack| - 1] !in expanded
      ensures VisitInv(seed, stack[|stack| - 1], 0, region, stack[..|stack| - 1], expanded, connected)
    {
      var u, rest := stack[|stack| - 1], stack[..|stack| - 1];
      assert forall j :: 0 <= j < |rest| ==> rest[j] == stack[j];
      forall c | c in region
        ensures c in expanded || c in rest || c == u
      {
        if c !in expanded {
          var j :| 0 <= j < |stack| && stack[j] == c;
          if j < |rest| {
            assert rest[j] == c;
          }
        }
      }
    }

    /** After the four moves, u counts as expanded. */
    lemma VisitEnd(seed: Coord, u: Coord, region: set<Coord>, stack: seq<Coord>, expanded: set<Coord>, connected: Label)
      requires Valid() && VisitInv(seed, u, 4, region, stack, expanded, connected)
      ensures FloodInv(seed, region, stack, expanded + {u}, connected)
    {
      assert forall c, k :: c in {u} && 0 <= k < 4 ==> Reached(region, c, k);
    }

    /** One flood fill of assignCellTypes from an UNKNOWN seed: a depth-first
        search over UNKNOWN cells with the four moves, remembering the last
        EXTERIOR/INTERIOR label met on the border.  After MaxFloodSteps pops
        the fill gives up and reports EXTERIOR (`capped`). */
    method FloodRegion(seed: Coord) returns (region: set<Coord>, connected: Label, ghost capped: bool)
      requires Valid() && InGrid(geo, seed) && KindAt(seed) == Unknown
      ensures seed in region
      ensures forall c :: c in region ==> InGrid(geo, c) && KindAt(c) == Unknown
      ensures connected != Mixed
      ensures capped ==> connected == Exterior
      ensures !capped ==> Closed(region)
      ensures !capped && connected == Unknown ==> QuietRegion(region)
      ensures !capped && connected != Unknown ==>
        exists c, k :: c in region && 0 <= k < 4 && LabelledBy(c, k, connected)
      ensures geo.gridSize * geo.gridSize <= MaxFloodSteps ==> !capped
    {
      var stack := [seed];
      region := {seed};
      connected := Unknown;
      capped := false;
      var count := 0;
      ghost var expanded: set<Coord> := {};
      while stack != []
        invariant count == |expanded| <= MaxFloodSteps
        invariant FloodInv(seed, region, stack, expanded, connected)
        decreases MaxFloodSteps - count
      {
        count := count + 1;
        if count > MaxFloodSteps {
          GridCellsCard(geo, expanded + {stack[|stack| - 1]});
          connected := Exterior;
          capped := true;
          return;
        }
        ghost var u := stack[|stack| - 1];
        region, stack, connected := ExpandTop(seed, region, stack, expanded, connected);
        expanded := expanded + {u};
      }
    }

    // ------------------------------------------------------------ labelling

    /** isInsideWindingNumber: the loop over the edges keeps the two counters. */
    method IsInsideWindingNumber(p: Point, side: (Point, Point, Point) -> bool) returns (inside: bool)
      requires Valid()
      ensures inside == WindingInside(geo.polygon, p, side)
    {
      var poly := geo.polygon;
      var w1, w2 := 0, 0;
      var i := 0;
      while i < |poly| - 1
        invariant 0 <= i <= |poly| - 1
        invariant (w1, w2) == WindingCounts(poly, p, side, i)
      {
        var v0, v1 := poly[i], poly[i + 1];
        if Straddles(v0, v1, p) {
          var d := if side(v0, v1, p) then 1 else -1;
          if CrossesRightOf(v0, v1, p) {
            w1 := w1 + d;
          } else {
            w2 := w2 + d;
          }
        }
        i := i + 1;
      }
      inside := !(w1 == 0 || w2 == 0);
    }

    /** Adjacent cells that are not MIXED carry the same label, and a labelled
        cell has no UNKNOWN neighbour. */
    ghost predicate Coherent()
      reads this, cells
      requires cells.Length0 == geo.gridSize && cells.Length1 == geo.gridSize
    {
      forall c, k :: InGrid(geo, c) && 0 <= k < 4 && KindAt(c) in {Interior, Exterior} && InGrid(geo, Neighbour(c, k)) ==>
        KindAt(Neighbour(c, k)) in {Mixed, KindAt(c)}
    }

    /** In a coherent grid no UNKNOWN cell touches a labelled one. */
    lemma CoherentNoBorder(c: Coord, k: int)
      requires cells.Length0 == geo.gridSize && cells.Length1 == geo.gridSize
      requires Coherent() && InGrid(geo, c) && KindAt(c) == Unknown && 0 <= k < 4
      ensures !LabelledBy(c, k, Interior) && !LabelledBy(c, k, Exterior)
    {
      OppositeNeighbour(c, k);
      if InGrid(geo, Neighbour(c, k)) {
        assert Neighbour(Neighbour(c, k), Opposite(k)) == c;
      }
    }

    /** region.forEach: every cell of the region gets label l. */
    method LabelRegion(region: set<Coord>, l: Label)
      requires Valid() && l in {Interior, Exterior}
      requires forall c :: c in region ==> InGrid(geo, c) && KindAt(c) == Unknown
      modifies cells
      ensures Valid()
      ensures forall y, x :: 0 <= y < cells.Length0 && 0 <= x < cells.Length1 ==>
        cells[y, x] == if Coord(x, y) in region then old(cells[y, x]).(kind := l) else old(cells[y, x])
      ensures old(Coherent()) && old(Closed(region)) && old(QuietRegion(region)) ==>
        Coherent()
    {
      ghost var wasCoherent := Coherent();
      ghost var wasClosed := Closed(region);
      ghost var wasQuiet := QuietRegion(region);
      forall y, x | 0 <= y < cells.Length0 && 0 <= x < cells.Length1 && Coord(x, y) in region {
        cells[y, x] := cells[y, x].(kind := l);
      }
      assert Valid() by {
        forall y, x | 0 <= y < cells.Length0 && 0 <= x < cells.Length1
          ensures CellOk(geo, cells[y, x], x, y)
        {
          assert old(CellOk(geo, cells[y, x], x, y));
          if Coord(x, y) in region {
            assert old(KindAt(Coord(x, y))) == Unknown;
          }
        }
      }
      if wasCoherent && wasClosed && wasQuiet {
        assert Coherent() by {
          forall c, k | InGrid(geo, c) && 0 <= k < 4 && KindAt(c) in {Interior, Exterior} && InGrid(geo, Neighbour(c, k))
            ensures KindAt(Neighbour(c, k)) in {Mixed, KindAt(c)}
          {
            var n := Neighbour(c, k);
            if c in region {
              assert old(Reached(region, c, k));
              assert old(Quiet(c, k));
            } else if n in region {
              // A region cell never borders a labelled cell outside it.
              OppositeNeighbour(c, k);
            }
          }
        }
      }
    }

    /** One pass of the outer loop of assignCellTypes for an UNKNOWN cell:
        flood its region, pick the label (the one met on the border, else the
        winding test at the midpoint of the seed's box, the region's first
        element) and write it into every cell of the region.  In a coherent
        grid small enough for the cap never to trigger, the border meets no
        labelled cell, so the label is the winding verdict, and the result is
        coherent again. */
    method FillFrom(seed: Coord, side: (Point, Point, Point) -> bool) returns (region: set<Coord>, l: Label)
      requires Valid() && InGrid(geo, seed) && KindAt(seed) == Unknown
      modifies cells
      ensures Valid() && seed in region && l in {Interior, Exterior}
      ensures forall c :: c in region ==> InGrid(geo, c) && old(KindAt(c)) == Unknown
      ensures forall y, x :: 0 <= y < cells.Length0 && 0 <= x < cells.Length1 ==>
        cells[y, x] == if Coord(x, y) in region then old(cells[y, x]).(kind := l) else old(cells[y, x])
      ensures old(Coherent()) && geo.gridSize * geo.gridSize <= MaxFloodSteps ==>
        && Coherent() && old(Closed(region))
        && (l == Interior <==> WindingInside(geo.polygon, Midpoint(cells[seed.y, seed.x].box), side))
    {
      var connected;
      ghost var capped;
      ghost var small := Coherent() && geo.gridSize * geo.gridSize <= MaxFloodSteps;
      region, connected, capped := FloodRegion(seed);
      if small && connected != Unknown {
        var c, k :| c in region && 0 <= k < 4 && LabelledBy(c, k, connected);
        CoherentNoBorder(c, k);
      }
      ghost var calm := small ==> Closed(region) && QuietRegion(region);
      assert calm;
      if connected == Unknown && |region| > 0 {
        var inside := IsInsideWindingNumber(Midpoint(cells[seed.y, seed.x].box), side);
        connected := if inside then Interior else Exterior;
      }
      l := connected;
      LabelRegion(region, connected);
      assert small ==> Coherent();
    }

    /** Row-major order of two cells of the grid follows their rows, then
        their columns. */
    lemma RowMajorOrder(a: Coord, b: Coord)
      requires InGrid(geo, a) && InGrid(geo, b) && RowFirst(a, b)
      ensures RowMajor(a) < RowMajor(b)
    {
      if a.y < b.y {
        MulStep(a.y, b.y, geo.gridSize);
      }
    }

    /** The cells labelled UNKNOWN, in row-major order (needtocheck). */
    method CollectUnknown() returns (todo: seq<Coord>)
      requires Valid()
      ensures forall c :: c in todo <==> InGrid(geo, c) && KindAt(c) == Unknown
      ensures forall i, j :: 0 <= i < j < |todo| ==> RowMajor(todo[i]) < RowMajor(todo[j])
    {
      todo := [];
      var y := 0;
      while y < geo.gridSize
        invariant 0 <= y <= geo.gridSize
        invariant forall c :: c in todo <==> InGrid(geo, c) && c.y < y && KindAt(c) == Unknown
        invariant forall i, j :: 0 <= i < j < |todo| ==> RowFirst(todo[i], todo[j])
        invariant forall i :: 0 <= i < |todo| ==> todo[i].y < y
      {
        var x := 0;
        while x < geo.gridSize
          invariant 0 <= x <= geo.gridSize
          invariant forall c :: c in todo <==> InGrid(geo, c) && (c.y < y || (c.y == y && c.x < x)) && KindAt(c) == Unknown
          invariant forall i, j :: 0 <= i < j < |todo| ==> RowFirst(todo[i], todo[j])
          invariant forall i :: 0 <= i < |todo| ==> RowFirst(todo[i], Coord(x, y))
        {
          if cells[y, x].kind == Unknown {
            todo := todo + [Coord(x, y)];
          }
          x := x + 1;
        }
        y := y + 1;
      }
      forall i, j | 0 <= i < j < |todo|
        ensures RowMajor(todo[i]) < RowMajor(todo[j])
      {
        assert todo[i] in todo && todo[j] in todo;
        RowMajorOrder(todo[i], todo[j]);
      }
    }

    /** The outer loop of assignCellTypes over needtocheck: every cell that
        is still UNKNOWN when its turn comes seeds a flood fill. */
    method LabelAll(todo: seq<Coord>, side: (Point, Point, Point) -> bool)
      requires Valid()
      requires forall c :: c in todo ==> InGrid(geo, c)
      requires forall c :: InGrid(geo, c) && KindAt(c) == Unknown ==> c in todo
      modifies cells
      ensures Valid()
      ensures forall y, x :: 0 <= y < cells.Length0 && 0 <= x < cells.Length1 ==>
        && cells[y, x].box == old(cells[y, x].box)
        && cells[y, x].segs == old(cells[y, x].segs)
        && cells[y, x].kind != Unknown
        && (old(cells[y, x].kind) != Unknown ==> cells[y, x].kind == old(cells[y, x].kind))
      ensures old(Coherent()) && geo.gridSize * geo.gridSize <= MaxFloodSteps ==> Coherent()
    {
      var q := 0;
      while q < |todo|
        invariant 0 <= q <= |todo| && Valid()
        invariant forall y, x :: 0 <= y < cells.Length0 && 0 <= x < cells.Length1 ==>
          && cells[y, x].box == old(cells[y, x].box)
          && cells[y, x].segs == old(cells[y, x].segs)
          && (old(cells[y, x].kind) != Unknown ==> cells[y, x].kind == old(cells[y, x].kind))
          && (cells[y, x].kind == Unknown ==> Coord(x, y) in todo[q..])
        invariant old(Coherent()) && geo.gridSize * geo.gridSize <= MaxFloodSteps ==> Coherent()
      {
        var c := todo[q];
        assert c in todo;
        if cells[c.y, c.x].kind == Unknown {
          var region, l := FillFrom(c, side);
        }
        q := q + 1;
      }
    }

    /** assignCellTypes: recompute the segment lists, then flood every cell
        still UNKNOWN, in row-major order. */
    method AssignCellTypes(side: (Point, Point, Point) -> bool)
      requires Valid()
      modifies cells
      ensures Valid()
      ensures forall y, x :: 0 <= y < cells.Length0 && 0 <= x < cells.Length1 ==>
        && cells[y, x].box == old(cells[y, x].box)
        && cells[y, x].segs == old(cells[y, x].segs) + CellSegs(AllPushes(geo, |geo.dirs|), Coord(x, y))
        && cells[y, x].kind != Unknown
      ensures forall y, x :: 0 <= y < cells.Length0 && 0 <= x < cells.Length1 ==>
        (old(cells[y, x].kind) in {Interior, Exterior} && CellSegs(AllPushes(geo, |geo.dirs|), Coord(x, y)) == []) ==>
        cells[y, x].kind == old(cells[y, x].kind)
      ensures old(Coherent()) && geo.gridSize * geo.gridSize <= MaxFloodSteps ==> Coherent()
    {
      ComputeCellLineSegments();
      if old(Coherent()) {
        forall c, k | InGrid(geo, c) && 0 <= k < 4 && KindAt(c) in {Interior, Exterior} && InGrid(geo, Neighbour(c, k))
          ensures KindAt(Neighbour(c, k)) in {Mixed, KindAt(c)}
        {
          assert old(KindAt(c)) == KindAt(c);
        }
      }
      var todo := CollectUnknown();
      LabelAll(todo, side);
    }

    // ------------------------------------------------------------ queries

    /** getClosestPointAndSegmentOnSegments: the loop keeps the first entry
        of least squared distance (the initial bound Number.MAX_VALUE is
        "no bound yet") and the closest point on it. */
    method ClosestPointAndSegment(segments: seq<SegEntry>, p: Point) returns (bestPt: Point, bestSeg: Option<SegEntry>)
      requires Valid() && EntriesOk(geo, segments)
      ensures bestSeg.None? <==> segments == []
      ensures segments == [] ==> bestPt == Point(0.0, 0.0)
      ensures segments != [] ==>
        bestSeg == Some(segments[BestOf(geo, segments, p)]) && bestPt == ClosestOn(geo, bestSeg.value, p)
    {
      ghost var ds := Dists(geo, segments, p);
      var minD: Option<real> := None;
      bestPt, bestSeg := Point(0.0, 0.0), None;
      var i := 0;
      while i < |segments|
        invariant 0 <= i <= |segments|
        invariant i == 0 ==> minD.None? && bestSeg.None? && bestPt == Point(0.0, 0.0)
        invariant i > 0 ==>
          && minD == Some(ds[FirstMin(ds, i)])
          && bestSeg == Some(segments[FirstMin(ds, i)])
          && bestPt == ClosestOn(geo, bestSeg.value, p)
      {
        var s := segments[i];
        var pt := ClosestOn(geo, s, p);
        var d2 := Dist2(p, pt);
        if minD.None? || d2 < minD.value {
          minD := Some(d2);
          bestPt := pt;
          bestSeg := Some(s);
        }
        i := i + 1;
      }
    }

    /** isInside: p is inside when it lies on or left of the closest entry,
        taken in its edge's direction. */
    method IsInside(segments: seq<SegEntry>, p: Point) returns (r: Result<bool, QueryError>)
      requires Valid() && EntriesOk(geo, segments)
      ensures segments == [] ==> r == Err(NoSegments)
      ensures segments != [] ==>
        var (v0, v1) := Ends(geo, segments[BestOf(geo, segments, p)]);
        r == Ok(OnLeft(v0, v1, p))
    {
      var pt, seg := ClosestPointAndSegment(segments, p);
      if seg.None? {
        return Err(NoSegments);
      }
      var v0 := PointOnSegment(geo, seg.value.edge, seg.value.t0);
      var v1 := PointOnSegment(geo, seg.value.edge, seg.value.t1);
      r := Ok(OnLeft(v0, v1, p));
    }

    // ------------------------------------------------------------ ring search

    /** The search radius bound Math.max(10, gridSize). */
    function Reach(): nat
      reads this
    {
      Max(10, geo.gridSize)
    }

    ghost predicate MixedAt(n: Coord)
      reads this, cells
      requires cells.Length0 == geo.gridSize && cells.Length1 == geo.gridSize
    {
      InGrid(geo, n) && KindAt(n) == Mixed
    }

    /** What cell n contributes to the search: its list if it is a MIXED grid cell. */
    ghost function Part(n: Coord): seq<SegEntry>
      reads this, cells
      requires cells.Length0 == geo.gridSize && cells.Length1 == geo.gridSize
    {
      if MixedAt(n) then cells[n.y, n.x].segs else []
    }

    /** Row c.y + oy of the square of radius r around c, columns -r .. -r + k - 1. */
    ghost function RowPart(c: Coord, r: nat, oy: int, k: nat): seq<SegEntry>
      reads this, cells
      requires cells.Length0 == geo.gridSize && cells.Length1 == geo.gridSize
    {
      if k == 0 then [] else RowPart(c, r, oy, k - 1) + Part(Coord(c.x - r + k - 1, c.y + oy))
    }

    /** Rows -r .. -r + m - 1 of the square of radius r around c. */
    ghost function SquarePart(c: Coord, r: nat, m: nat): seq<SegEntry>
      reads this, cells
      requires cells.Length0 == geo.gridSize && cells.Length1 == geo.gridSize
    {
      if m == 0 then [] else SquarePart(c, r, m - 1) + RowPart(c, r, m - 1 - r, 2 * r + 1)
    }

    /** One round of the search loop: the lists of the MIXED cells at
        Chebyshev distance at most r from c, row by row. */
    ghost function Square(c: Coord, r: nat): seq<SegEntry>
      reads this, cells
      requires cells.Length0 == geo.gridSize && cells.Length1 == geo.gridSize
    {
      SquarePart(c, r, 2 * r + 1)
    }

    /** The list the search loop ends with when it starts at radius r with
        an empty list. */
    ghost function Gathered(c: Coord, r: nat): seq<SegEntry>
      reads this, cells
      requires cells.Length0 == geo.gridSize && cells.Length1 == geo.gridSize
      decreases Reach() - r
    {
      if r >= Reach() then []
      else if Square(c, r) != [] then Square(c, r)
      else Gathered(c, r + 1)
    }

    /** The entries isOutsideAssumeLocalConvex hands to isInside for a cell
        that is neither INTERIOR nor EXTERIOR. */
    ghost function LocalSegments(c: Coord): seq<SegEntry>
      reads this, cells
      requires InGrid(geo, c) && cells.Length0 == geo.gridSize && cells.Length1 == geo.gridSize
    {
      if cells[c.y, c.x].segs != [] then cells[c.y, c.x].segs else Gathered(c, 1)
    }

    /** A row part is empty exactly when none of its cells is MIXED. */
    lemma {:induction false} RowPartEmpty(c: Coord, r: nat, oy: int, k: nat)
      requires Valid()
      ensures RowPart(c, r, oy, k) == [] <==>
        forall n :: MixedAt(n) && n.y == c.y + oy ==> n.x < c.x - r || n.x >= c.x - r + k
    {
      if k > 0 {
        RowPartEmpty(c, r, oy, k - 1);
        var n := Coord(c.x - r + k - 1, c.y + oy);
        if MixedAt(n) {
          assert CellOk(geo, cells[n.y, n.x], n.x, n.y);
        }
      }
    }

    /** A square part is empty exactly when none of its cells is MIXED. */
    lemma {:induction false} SquarePartEmpty(c: Coord, r: nat, m: nat)
      requires Valid()
      ensures SquarePart(c, r, m) == [] <==>
        forall n :: MixedAt(n) && c.x - r <= n.x <= c.x + r ==> n.y < c.y - r || n.y >= c.y - r + m
    {
      if m > 0 {
        SquarePartEmpty(c, r, m - 1);
        RowPartEmpty(c, r, m - 1 - r, 2 * r + 1);
      }
    }

    /** The round of radius r finds nothing exactly when no MIXED cell lies
        within Chebyshev distance r of c. */
    lemma SquareEmpty(c: Coord, r: nat)
      requires Valid()
      ensures Square(c, r) == [] <==> forall n :: MixedAt(n) ==> Abs(n.x - c.x) > r || Abs(n.y - c.y) > r
    {
      SquarePartEmpty(c, r, 2 * r + 1);
    }

    /** Once the radius reaches Math.max(10, gridSize) - 1 the whole grid has
        been searched, so the search comes back empty exactly when the grid
        has no MIXED cell. */
    lemma {:induction false} GatheredEmpty(c: Coord, r: nat)
      requires Valid() && InGrid(geo, c) && 1 <= r
      ensures Gathered(c, r) == [] <==> r >= Reach() || forall n :: !MixedAt(n)
      decreases Reach() - r
    {
      if r < Reach() {
        SquareEmpty(c, r);
        if r + 1 < Reach() {
          GatheredEmpty(c, r + 1);
        }
      }
    }

    /** isOutsideAssumeLocalConvex hands isInside an empty list exactly when
        the grid holds no MIXED cell. */
    lemma LocalSegmentsEmpty(c: Coord)
      requires Valid() && InGrid(geo, c)
      ensures LocalSegments(c) == [] <==> forall n :: !MixedAt(n)
    {
      GatheredEmpty(c, 1);
      assert CellOk(geo, cells[c.y, c.x], c.x, c.y);
      if forall n :: !MixedAt(n) {
        assert !MixedAt(c);
      }
    }

    lemma {:induction false} RowPartOk(c: Coord, r: nat, oy: int, k: nat)
      requires Valid()
      ensures EntriesOk(geo, RowPart(c, r, oy, k))
    {
      if k > 0 {
        RowPartOk(c, r, oy, k - 1);
        var n := Coord(c.x - r + k - 1, c.y + oy);
        if MixedAt(n) {
          assert CellOk(geo, cells[n.y, n.x], n.x, n.y);
        }
      }
    }

    lemma {:induction false} SquarePartOk(c: Coord, r: nat, m: nat)
      requires Valid()
      ensures EntriesOk(geo, SquarePart(c, r, m))
    {
      if m > 0 {
        SquarePartOk(c, r, m - 1);
        RowPartOk(c, r, m - 1 - r, 2 * r + 1);
      }
    }

    lemma {:induction false} GatheredOk(c: Coord, r: nat)
      requires Valid()
      ensures EntriesOk(geo, Gathered(c, r))
      decreases Reach() - r
    {
      if r < Reach() {
        SquarePartOk(c, r, 2 * r + 1);
        GatheredOk(c, r + 1);
      }
    }

    /** Every gathered entry is a stored one, hence well formed. */
    lemma LocalSegmentsOk(c: Coord)
      requires Valid() && InGrid(geo, c)
      ensures EntriesOk(geo, LocalSegments(c))
    {
      GatheredOk(c, 1);
      assert CellOk(geo, cells[c.y, c.x], c.x, c.y);
    }

    /** What isInside answers on the gathered list, negated. */
    ghost function LocalVerdict(c: Coord, p: Point): Result<bool, QueryError>
      reads this, cells
      requires Valid() && InGrid(geo, c)
    {
      var segs := LocalSegments(c);
      LocalSegmentsOk(c);
      if segs == [] then Err(NoSegments)
      else
        var (v0, v1) := Ends(geo, segs[BestOf(geo, segs, p)]);
        Ok(!OnLeft(v0, v1, p))
    }

    /** Row c.y + oy of one search round: nothing when the row lies outside
        the grid, else columns ox = -r .. r, skipping those outside it. */
    method SearchRow(c: Coord, r: nat, oy: int, segments0: seq<SegEntry>) returns (segments: seq<SegEntry>)
      requires Valid() && EntriesOk(geo, segments0)
      ensures segments == segments0 + RowPart(c, r, oy, 2 * r + 1) && EntriesOk(geo, segments)
    {
      var ny := c.y + oy;
      segments := segments0;
      if ny < 0 || ny >= geo.gridSize {
        RowPartEmpty(c, r, oy, 2 * r + 1);
        assert segments0 + [] == segments0;
        return;
      }
      var ox := -(r as int);
      while ox <= r
        invariant -(r as int) <= ox <= r + 1
        invariant segments == segments0 + RowPart(c, r, oy, ox + r) && EntriesOk(geo, segments)
      {
        var nx := c.x + ox;
        if 0 <= nx < geo.gridSize {
          var c2 := cells[ny, nx];
          assert CellOk(geo, c2, nx, ny);
          if c2.kind == Mixed {
            segments := segments + c2.segs;
          }
        }
        ox := ox + 1;
      }
    }

    /** Row oy extends the rows before it. */
    lemma SquarePartStep(c: Coord, r: nat, oy: int, pre: seq<SegEntry>)
      requires cells.Length0 == geo.gridSize && cells.Length1 == geo.gridSize && -(r as int) <= oy <= r
      ensures pre + SquarePart(c, r, oy + 1 + r) == pre + SquarePart(c, r, oy + r) + RowPart(c, r, oy, 2 * r + 1)
    {
      var m: nat := oy + r + 1;
      assert SquarePart(c, r, m) == SquarePart(c, r, m - 1) + RowPart(c, r, oy, 2 * r + 1);
    }

    /** One round of the search loop of isOutsideAssumeLocalConvex: the rows
        oy = -r .. r around c. */
    method SearchRound(c: Coord, r: nat, segments0: seq<SegEntry>) returns (segments: seq<SegEntry>)
      requires Valid() && EntriesOk(geo, segments0)
      ensures segments == segments0 + Square(c, r) && EntriesOk(geo, segments)
    {
      segments := segments0;
      var oy := -(r as int);
      while oy <= r
        invariant -(r as int) <= oy <= r + 1
        invariant segments == segments0 + SquarePart(c, r, oy + r) && EntriesOk(geo, segments)
      {
        segments := SearchRow(c, r, oy, segments);
        SquarePartStep(c, r, oy, segments0);
        oy := oy + 1;
      }
    }

    /** The list isOutsideAssumeLocalConvex gathers for a cell that is not
        labelled INTERIOR or EXTERIOR: its own entries, else the first
        non-empty round of radius 1, 2, ... below Math.max(10, gridSize). */
    method LocalSearch(c: Coord) returns (segments: seq<SegEntry>)
      requires Valid() && InGrid(geo, c)
      ensures segments == LocalSegments(c) && EntriesOk(geo, segments)
    {
      segments := cells[c.y, c.x].segs;
      var rng := 1;
      while segments == [] && rng < Max(10, geo.gridSize)
        invariant 1 <= rng
        invariant (if segments == [] then Gathered(c, rng) else segments) == LocalSegments(c)
        decreases Reach() - rng
      {
        segments := SearchRound(c, rng, segments);
        rng := rng + 1;
      }
      LocalSegmentsOk(c);
    }

    /** The tail of isOutsideAssumeLocalConvex for a MIXED or UNKNOWN cell. */
    method LocalQuery(c: Coord, p: Point) returns (r: Result<bool, QueryError>)
      requires Valid() && InGrid(geo, c) && KindAt(c) in {Mixed, Unknown}
      ensures r == LocalVerdict(c, p)
      ensures r.Err? <==> KindAt(c) == Unknown && forall n :: !MixedAt(n)
    {
      var segments := LocalSearch(c);
      var inside := IsInside(segments, p);
      r := if inside.Ok? then Ok(!inside.value) else Err(inside.error);
      LocalSegmentsEmpty(c);
      if forall n :: !MixedAt(n) {
        assert !MixedAt(c);
      }
    }

    /** isOutsideAssumeLocalConvex: outside the padded box, or in an
        EXTERIOR cell, p is outside; in an INTERIOR cell it is inside;
        otherwise the closest gathered entry decides.  The query fails only
        for an UNKNOWN cell in a grid without any MIXED cell. */
    method IsOutsideAssumeLocalConvex(p: Point) returns (r: Result<bool, QueryError>)
      requires Valid()
      ensures CellIdx(geo, p) == NoCell ==> r == Ok(true)
      ensures CellIdx(geo, p) != NoCell ==> var c := CellIdx(geo, p);
        && (KindAt(c) == Interior ==> r == Ok(false))
        && (KindAt(c) == Exterior ==> r == Ok(true))
        && (KindAt(c) in {Mixed, Unknown} ==> r == LocalVerdict(c, p))
        && (r.Err? <==> KindAt(c) == Unknown && forall n :: !MixedAt(n))
    {
      var c := CellIdx(geo, p);
      if c.x == -1 && c.y == -1 {
        return Ok(true);
      }
      var cell := cells[c.y, c.x];
      if cell.kind == Interior {
        return Ok(false);
      }
      if cell.kind == Exterior {
        return Ok(true);
      }
      r := LocalQuery(c, p);
    }

    // ------------------------------------------------------------ construction and init

    /** new TwoDGridSegmented(polygon, grid_size) with the checks it performs
        before building anything. */
    static method Create(raw: seq<seq<real>>, gridSize: real) returns (r: Result<TwoDGridSegmented, GridError>)
      ensures Validate(raw, gridSize).Some? ==> r == Err(Validate(raw, gridSize).value)
      ensures Validate(raw, gridSize).None? && Degenerate(Points(raw)) ==> r == Err(DegenerateBox)
      ensures r.Ok? <==> Validate(raw, gridSize).None? && !Degenerate(Points(raw))
      ensures r.Ok? ==>
        && fresh(r.value) && fresh(r.value.cells) && r.value.Valid()
        && r.value.geo == MakeGeometry(Points(raw), gridSize.Floor)
        && forall y, x :: 0 <= y < r.value.cells.Length0 && 0 <= x < r.value.cells.Length1 ==>
             r.value.cells[y, x] == Cell(CellBox(r.value.geo, x, y), [], Unknown)
    {
      var err := Validate(raw, gridSize);
      if err.Some? {
        return Err(err.value);
      }
      var poly := Points(raw);
      if Degenerate(poly) {
        return Err(DegenerateBox);
      }
      var grid := new TwoDGridSegmented(poly, gridSize.Floor as nat);
      r := Ok(grid);
    }

    /** init as written: computeCellLineSegments, then assignCellTypes, which
        runs computeCellLineSegments again, so every cell receives its entries
        twice. */
    method Init(side: (Point, Point, Point) -> bool)
      requires Valid()
      modifies cells
      ensures Valid()
      ensures forall y, x :: 0 <= y < cells.Length0 && 0 <= x < cells.Length1 ==>
        var s := CellSegs(AllPushes(geo, |geo.dirs|), Coord(x, y));
        && cells[y, x].box == old(cells[y, x].box)
        && cells[y, x].segs == old(cells[y, x].segs) + s + s
        && cells[y, x].kind != Unknown
      ensures old(Coherent()) && geo.gridSize * geo.gridSize <= MaxFloodSteps ==> Coherent()
    {
      ComputeCellLineSegments();
      AssignCellTypes(side);
    }

    /** init with a single rasterisation pass: every cell receives its
        entries once, and all cells are labelled. */
    method InitOnce(side: (Point, Point, Point) -> bool)
      requires Valid()
      modifies cells
      ensures Valid()
      ensures forall y, x :: 0 <= y < cells.Length0 && 0 <= x < cells.Length1 ==>
        && cells[y, x].box == old(cells[y, x].box)
        && cells[y, x].segs == old(cells[y, x].segs) + CellSegs(AllPushes(geo, |geo.dirs|), Coord(x, y))
        && cells[y, x].kind != Unknown
      ensures old(Coherent()) && geo.gridSize * geo.gridSize <= MaxFloodSteps ==> Coherent()
    {
      AssignCellTypes(side);
    }
  }
}
