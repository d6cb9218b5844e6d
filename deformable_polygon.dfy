/**
 * DeformablePolygonObject of quest 5: a closed polygon packed into a GPU
 * vertex buffer of six floats per vertex [x, y, oldx, oldy, restPrev,
 * restNext], a Verlet gravity step with a floor and a mouse pull, and the
 * compute pass that runs one gravity dispatch and five constraint
 * dispatches while deformation is enabled.
 *
 * The polygon holds a duplicate closing vertex (the last equals the first);
 * the rest lengths are computed over the numV - 1 unique vertices.
 * Math.hypot is the parameter `hypot`.  The gravity kernel touches only its
 * own vertex, so running it vertex by vertex is exact; the constraint kernel
 * races on neighbouring vertices and is not part of this model.
 */
module DeformablePolygon {
  import opened GpuBuffer
  import G = GridGeometry

  const FloatsPerVert: nat := 6
  /** The time step the gravity kernel integrates with. */
  const Dt: real := 0.0167
  /** The squared distance within which the mouse pulls a vertex. */
  const PullRadius2: real := 0.02
  /** The fraction of the way to the mouse a pulled vertex moves. */
  const PullFraction: real := 0.3
  const WorkgroupSize: nat := 64
  const ConstraintIterations: nat := 5
  /** The uniform block: 8 floats, 32 bytes. */
  const ParamWords: nat := 8

  /** The six floats of one packed vertex. */
  datatype Vertex = Vertex(x: real, y: real, oldX: real, oldY: real, restPrev: real, restNext: real)

  /** Vertex i of a packed buffer. */
  function VertexAt(d: seq<real>, i: nat): Vertex
    requires FloatsPerVert * i + FloatsPerVert <= |d|
  {
    var b := FloatsPerVert * i;
    Vertex(d[b], d[b + 1], d[b + 2], d[b + 3], d[b + 4], d[b + 5])
  }

  /** The cyclic predecessor among m unique vertices. */
  function PrevIndex(i: nat, m: nat): (r: nat)
    requires i < m
    ensures r < m
    ensures r == if i == 0 then m - 1 else i - 1
  {
    (i - 1 + m) % m
  }

  /** The cyclic successor among m unique vertices. */
  function NextIndex(i: nat, m: nat): (r: nat)
    requires i < m
    ensures r < m
    ensures r == if i == m - 1 then 0 else i + 1
  {
    (i + 1) % m
  }

  /** The two index maps undo each other: the neighbours form one cycle. */
  lemma PrevNextCycle(i: nat, m: nat)
    requires i < m
    ensures NextIndex(PrevIndex(i, m), m) == i
    ensures PrevIndex(NextIndex(i, m), m) == i
  {
  }

  /** dist(a, b) = hypot(b.x - a.x, b.y - a.y). */
  function Dist(a: G.Point, b: G.Point, hypot: (real, real) -> real): real
  {
    hypot(b.x - a.x, b.y - a.y)
  }

  /** d' is d with vertex i replaced by v: every other vertex keeps its six
      floats. */
  ghost predicate Replaced(d': seq<real>, d: seq<real>, i: nat, v: Vertex)
    requires FloatsPerVert * i + FloatsPerVert <= |d|
  {
    |d'| == |d| && VertexAt(d', i) == v
    && (forall j :: 0 <= j && FloatsPerVert * j + FloatsPerVert <= |d| && j != i ==> VertexAt(d', j) == VertexAt(d, j))
    && d'[|d| / FloatsPerVert * FloatsPerVert..] == d[|d| / FloatsPerVert * FloatsPerVert..]
  }

  /** Slots 0..3 of vertex i: position and old position. */
  method WriteMotion(data: array<real>, i: nat, x: real, y: real, oldX: real, oldY: real)
    requires FloatsPerVert * i + FloatsPerVert <= data.Length
    modifies data
    ensures Replaced(data[..], old(data[..]), i, VertexAt(old(data[..]), i).(x := x, y := y, oldX := oldX, oldY := oldY))
  {
    var b := FloatsPerVert * i;
    data[b] := x;
    data[b + 1] := y;
    data[b + 2] := oldX;
    data[b + 3] := oldY;
  }

  /** Slots 4 and 5 of vertex i: the two rest lengths. */
  method WriteRest(data: array<real>, i: nat, prev: real, next: real)
    requires FloatsPerVert * i + FloatsPerVert <= data.Length
    modifies data
    ensures Replaced(data[..], old(data[..]), i, VertexAt(old(data[..]), i).(restPrev := prev, restNext := next))
  {
    var b := FloatsPerVert * i;
    data[b + 4] := prev;
    data[b + 5] := next;
  }

  /** The position and zero velocity the first loop gives vertex i. */
  predicate AtRest(v: Vertex, p: G.Point)
  {
    v.x == p.x && v.y == p.y && v.oldX == p.x && v.oldY == p.y
  }

  /** The packed buffer createGeometry builds: six floats per vertex, zero
      initial velocity, rest lengths to the cyclic neighbours among the
      numV - 1 unique vertices, and the closing vertex copying vertex 0's
      (a single vertex keeps the zero fill). */
  ghost predicate Packed(d: seq<real>, poly: seq<G.Point>, hypot: (real, real) -> real)
  {
    && |d| == FloatsPerVert * |poly|
    && PackedMotion(d, poly)
    && PackedRest(d, poly, hypot)
    && PackedClosing(d, poly)
  }

  /** Every vertex at its point with zero velocity. */
  ghost predicate PackedMotion(d: seq<real>, poly: seq<G.Point>)
  {
    && |d| == FloatsPerVert * |poly|
    && forall i :: 0 <= i < |poly| ==>
         var v := VertexAt(d, i);
         v.x == poly[i].x && v.y == poly[i].y && v.oldX == v.x && v.oldY == v.y
  }

  /** The unique vertices carry the distances to their cyclic neighbours. */
  ghost predicate PackedRest(d: seq<real>, poly: seq<G.Point>, hypot: (real, real) -> real)
  {
    && |d| == FloatsPerVert * |poly|
    && forall i :: 0 <= i < |poly| - 1 ==>
         var m := |poly| - 1;
         VertexAt(d, i).restPrev == Dist(poly[i], poly[PrevIndex(i, m)], hypot)
         && VertexAt(d, i).restNext == Dist(poly[i], poly[NextIndex(i, m)], hypot)
  }

  /** The closing vertex copies vertex 0's rest lengths; a single vertex
      keeps the zero fill. */
  ghost predicate PackedClosing(d: seq<real>, poly: seq<G.Point>)
  {
    && |d| == FloatsPerVert * |poly|
    && (|poly| >= 2 ==>
         VertexAt(d, |poly| - 1).restPrev == VertexAt(d, 0).restPrev
         && VertexAt(d, |poly| - 1).restNext == VertexAt(d, 0).restNext)
    && (|poly| == 1 ==> VertexAt(d, 0).restPrev == 0.0 && VertexAt(d, 0).restNext == 0.0)
  }

  /** The two packing loops of createGeometry and the closing copy. */
  method Pack(poly: seq<G.Point>, hypot: (real, real) -> real) returns (packed: seq<real>)
    ensures Packed(packed, poly, hypot)
  {
    var data := Blank(poly);
    PackPositions(data, poly);
    if |poly| >= 1 {
      packed := PackRest(data, poly, hypot);
    } else {
      packed := data[..];
      assert |packed| == 0;
    }
  }

  /** The packed vertex data in a new buffer. */
  method PackBuffer(poly: seq<G.Point>, hypot: (real, real) -> real) returns (buf: array<real>)
    ensures fresh(buf) && Packed(buf[..], poly, hypot)
  {
    var data := Pack(poly, hypot);
    buf := NewBuffer(data);
  }

  /** A zeroed buffer with one vertex record per polygon vertex. */
  method Blank(poly: seq<G.Point>) returns (data: array<real>)
    ensures fresh(data) && data.Length == FloatsPerVert * |poly|
    ensures forall j :: 0 <= j < |poly| ==> VertexAt(data[..], j).restPrev == 0.0 && VertexAt(data[..], j).restNext == 0.0
  {
    data := new real[FloatsPerVert * |poly|](_ => 0.0);
  }

  /** The second loop and the closing vertex, on a buffer whose positions are packed. */
  method PackRest(data: array<real>, poly: seq<G.Point>, hypot: (real, real) -> real) returns (packed: seq<real>)
    requires |poly| >= 1 && data.Length == FloatsPerVert * |poly|
    requires forall j :: 0 <= j < |poly| ==> AtRest(VertexAt(data[..], j), poly[j])
    requires forall j :: 0 <= j < |poly| ==> VertexAt(data[..], j).restPrev == 0.0 && VertexAt(data[..], j).restNext == 0.0
    modifies data
    ensures Packed(packed, poly, hypot)
  {
    RestLengths(data, poly, hypot);
    ghost var d := data[..];
    // The closing vertex copies vertex 0's rest lengths; with one vertex
    // this writes slots 4 and 5 onto themselves.
    WriteRest(data, |poly| - 1, data[4], data[5]);
    PackedClose(data[..], d, poly, hypot);
    packed := data[..];
  }

  /** After the second loop: positions at rest, the unique vertices
      carrying the distances to their cyclic neighbours, the closing vertex
      still zero. */
  ghost predicate RestDone(d: seq<real>, poly: seq<G.Point>, hypot: (real, real) -> real)
    requires |poly| >= 1 && |d| == FloatsPerVert * |poly|
  {
    var m := |poly| - 1;
    && (forall i :: 0 <= i < |poly| ==> AtRest(VertexAt(d, i), poly[i]))
    && (forall i :: 0 <= i < m ==>
          VertexAt(d, i).restPrev == Dist(poly[i], poly[PrevIndex(i, m)], hypot)
          && VertexAt(d, i).restNext == Dist(poly[i], poly[NextIndex(i, m)], hypot))
    && VertexAt(d, m).restPrev == 0.0 && VertexAt(d, m).restNext == 0.0
  }

  /** A new storage buffer holding data. */
  method NewBuffer(data: seq<real>) returns (buf: array<real>)
    ensures fresh(buf) && buf[..] == data
  {
    buf := new real[|data|](k requires 0 <= k < |data| => data[k]);
  }

  /** The closing copy completes the packed layout. */
  lemma PackedClose(d': seq<real>, d: seq<real>, poly: seq<G.Point>, hypot: (real, real) -> real)
    requires |poly| >= 1 && |d| == FloatsPerVert * |poly|
    requires RestDone(d, poly, hypot)
    requires Replaced(d', d, |poly| - 1, VertexAt(d, |poly| - 1).(restPrev := d[4], restNext := d[5]))
    ensures Packed(d', poly, hypot)
  {
    CloseKeepsMotion(d', d, poly, hypot);
    CloseKeepsRest(d', d, poly, hypot);
    CloseCopies(d', d, poly, hypot);
  }

  lemma CloseKeepsMotion(d': seq<real>, d: seq<real>, poly: seq<G.Point>, hypot: (real, real) -> real)
    requires |poly| >= 1 && |d| == FloatsPerVert * |poly|
    requires RestDone(d, poly, hypot)
    requires Replaced(d', d, |poly| - 1, VertexAt(d, |poly| - 1).(restPrev := d[4], restNext := d[5]))
    ensures |d'| == |d| && PackedMotion(d', poly)
  {
    forall i | 0 <= i < |poly|
      ensures var v := VertexAt(d', i);
        v.x == poly[i].x && v.y == poly[i].y && v.oldX == v.x && v.oldY == v.y
    {
      assert AtRest(VertexAt(d, i), poly[i]);
    }
  }

  lemma CloseKeepsRest(d': seq<real>, d: seq<real>, poly: seq<G.Point>, hypot: (real, real) -> real)
    requires |poly| >= 1 && |d| == FloatsPerVert * |poly|
    requires RestDone(d, poly, hypot)
    requires Replaced(d', d, |poly| - 1, VertexAt(d, |poly| - 1).(restPrev := d[4], restNext := d[5]))
    ensures |d'| == |d| && PackedRest(d', poly, hypot)
  {
    var m := |poly| - 1;
    forall i | 0 <= i < m
      ensures VertexAt(d', i).restPrev == Dist(poly[i], poly[PrevIndex(i, m)], hypot)
      ensures VertexAt(d', i).restNext == Dist(poly[i], poly[NextIndex(i, m)], hypot)
    {
      assert VertexAt(d', i) == VertexAt(d, i);
    }
  }

  lemma CloseCopies(d': seq<real>, d: seq<real>, poly: seq<G.Point>, hypot: (real, real) -> real)
    requires |poly| >= 1 && |d| == FloatsPerVert * |poly|
    requires RestDone(d, poly, hypot)
    requires Replaced(d', d, |poly| - 1, VertexAt(d, |poly| - 1).(restPrev := d[4], restNext := d[5]))
    ensures |d'| == |d| && PackedClosing(d', poly)
  {
    var m := |poly| - 1;
    assert VertexAt(d, 0).restPrev == d[4] && VertexAt(d, 0).restNext == d[5];
    if m > 0 {
      assert VertexAt(d', 0) == VertexAt(d, 0);
    }
  }

  /** The first packing loop: positions and old positions of every vertex,
      over a zero-filled buffer. */
  method PackPositions(data: array<real>, poly: seq<G.Point>)
    requires data.Length == FloatsPerVert * |poly|
    requires forall j :: 0 <= j < |poly| ==> VertexAt(data[..], j).restPrev == 0.0 && VertexAt(data[..], j).restNext == 0.0
    modifies data
    ensures forall j :: 0 <= j < |poly| ==> AtRest(VertexAt(data[..], j), poly[j])
    ensures forall j :: 0 <= j < |poly| ==> VertexAt(data[..], j).restPrev == 0.0 && VertexAt(data[..], j).restNext == 0.0
  {
    for i := 0 to |poly|
      invariant forall j :: 0 <= j < i ==> AtRest(VertexAt(data[..], j), poly[j])
      invariant forall j :: 0 <= j < |poly| ==> VertexAt(data[..], j).restPrev == 0.0 && VertexAt(data[..], j).restNext == 0.0
    {
      WriteMotion(data, i, poly[i].x, poly[i].y, poly[i].x, poly[i].y);
    }
  }

  /** The second packing loop: the rest lengths of the unique vertices. */
  method RestLengths(data: array<real>, poly: seq<G.Point>, hypot: (real, real) -> real)
    requires |poly| >= 1 && data.Length == FloatsPerVert * |poly|
    requires forall i :: 0 <= i < |poly| ==> AtRest(VertexAt(data[..], i), poly[i])
    requires forall i :: 0 <= i < |poly| ==> VertexAt(data[..], i).restPrev == 0.0 && VertexAt(data[..], i).restNext == 0.0
    modifies data
    ensures RestDone(data[..], poly, hypot)
  {
    var m := |poly| - 1;
    for i := 0 to m
      invariant RestInv(data[..], poly, hypot, i)
    {
      ghost var d := data[..];
      RestLengthsOf(data, poly, hypot, i);
      RestStep(data[..], d, poly, hypot, i);
    }
  }

  /** The state of the second loop before vertex i: positions at rest,
      vertices below i carrying their rest lengths, the others still zero. */
  ghost predicate RestInv(d: seq<real>, poly: seq<G.Point>, hypot: (real, real) -> real, i: nat)
    requires |poly| >= 1 && |d| == FloatsPerVert * |poly|
  {
    var m := |poly| - 1;
    && (forall j :: 0 <= j < |poly| ==> AtRest(VertexAt(d, j), poly[j]))
    && (forall j :: 0 <= j < i && j < m ==>
          VertexAt(d, j).restPrev == Dist(poly[j], poly[PrevIndex(j, m)], hypot)
          && VertexAt(d, j).restNext == Dist(poly[j], poly[NextIndex(j, m)], hypot))
    && (forall j :: i <= j < |poly| ==> VertexAt(d, j).restPrev == 0.0 && VertexAt(d, j).restNext == 0.0)
  }

  /** Writing vertex i's rest lengths advances the state of the second loop. */
  lemma RestStep(d': seq<real>, d: seq<real>, poly: seq<G.Point>, hypot: (real, real) -> real, i: nat)
    requires i < |poly| - 1 && |d| == FloatsPerVert * |poly|
    requires RestInv(d, poly, hypot, i)
    requires var m := |poly| - 1;
      Replaced(d', d, i, VertexAt(d, i).(restPrev := Dist(poly[i], poly[PrevIndex(i, m)], hypot),
                                          restNext := Dist(poly[i], poly[NextIndex(i, m)], hypot)))
    ensures |d'| == |d| && RestInv(d', poly, hypot, i + 1)
  {
  }

  /** One iteration of the second loop: vertex i's distances to its cyclic
      neighbours, read back from the positions the first loop stored. */
  method RestLengthsOf(data: array<real>, poly: seq<G.Point>, hypot: (real, real) -> real, i: nat)
    requires i < |poly| - 1 && data.Length == FloatsPerVert * |poly|
    requires forall j :: 0 <= j < |poly| ==> AtRest(VertexAt(data[..], j), poly[j])
    modifies data
    ensures
      var m := |poly| - 1;
      var v := VertexAt(old(data[..]), i);
      Replaced(data[..], old(data[..]), i, v.(restPrev := Dist(poly[i], poly[PrevIndex(i, m)], hypot),
                                                   restNext := Dist(poly[i], poly[NextIndex(i, m)], hypot)))
  {
    var m := |poly| - 1;
    var iPrev := PrevIndex(i, m);
    var iNext := NextIndex(i, m);
    var d := data[..];
    assert AtRest(VertexAt(d, i), poly[i]) && AtRest(VertexAt(d, iPrev), poly[iPrev]) && AtRest(VertexAt(d, iNext), poly[iNext]);
    var x0, y0 := d[FloatsPerVert * i], d[FloatsPerVert * i + 1];
    var xp, yp := d[FloatsPerVert * iPrev], d[FloatsPerVert * iPrev + 1];
    var xn, yn := d[FloatsPerVert * iNext], d[FloatsPerVert * iNext + 1];
    assert hypot(xp - x0, yp - y0) == Dist(poly[i], poly[iPrev], hypot);
    assert hypot(xn - x0, yn - y0) == Dist(poly[i], poly[iNext], hypot);
    WriteRest(data, i, hypot(xp - x0, yp - y0), hypot(xn - x0, yn - y0));
  }

  // ------------------------------------------------------------ gravity

  /** The uniform parameters: gravity, floor height and the mouse. */
  datatype Params = Params(gravity: real, floorY: real, mouseX: real, mouseY: real, mouseDown: real)

  /** The values the constructor sets. */
  const InitialParams: Params := Params(-0.6, -0.9, 0.0, 0.0, 0.0)

  /** The 8-float uniform block compute uploads: the five parameters in
      order, then three pad floats. */
  function ParamBlock(p: Params): (b: seq<real>)
    ensures |b| == ParamWords && ByteLength(b) == 32
    ensures b[5..] == [0.0, 0.0, 0.0]
  {
    [p.gravity, p.floorY, p.mouseX, p.mouseY, p.mouseDown, 0.0, 0.0, 0.0]
  }

  /** How the kernel's UniformParams struct reads the block. */
  function ReadParams(b: seq<real>): Params
    requires |b| >= 5
  {
    Params(b[0], b[1], b[2], b[3], b[4])
  }

  /** The kernel reads back exactly the parameters compute wrote. */
  lemma ParamBlockRoundTrip(p: Params)
    ensures ReadParams(ParamBlock(p)) == p
  {
  }

  /** The Verlet position before the mouse: x + (x - oldx), and
      y + (y - oldy) + g dt raised to the floor. */
  function Fall(v: Vertex, p: Params): (n: G.Point)
    ensures n.x == 2.0 * v.x - v.oldX
    ensures n.y >= p.floorY
    ensures n.y == 2.0 * v.y - v.oldY + p.gravity * Dt
         || (n.y == p.floorY && 2.0 * v.y - v.oldY + p.gravity * Dt < p.floorY)
  {
    var vx := v.x - v.oldX;
    var vy := v.y - v.oldY + p.gravity * Dt;
    var ny := v.y + vy;
    G.Point(v.x + vx, if ny < p.floorY then p.floorY else ny)
  }

  /** The mouse pulls a vertex when the button is down and the vertex is
      within squared distance 0.02 of it. */
  predicate Pulled(n: G.Point, p: Params)
  {
    var dx := p.mouseX - n.x;
    var dy := p.mouseY - n.y;
    p.mouseDown > 0.5 && dx * dx + dy * dy < PullRadius2
  }

  /** gravityMain for one vertex. */
  function GravityStep(v: Vertex, p: Params): (w: Vertex)
    ensures w.oldX == v.x && w.oldY == v.y
    ensures w.restPrev == v.restPrev && w.restNext == v.restNext
    ensures !Pulled(Fall(v, p), p) ==> w.x == Fall(v, p).x && w.y == Fall(v, p).y
    ensures Pulled(Fall(v, p), p) ==>
      && p.mouseX - w.x == (1.0 - PullFraction) * (p.mouseX - Fall(v, p).x)
      && p.mouseY - w.y == (1.0 - PullFraction) * (p.mouseY - Fall(v, p).y)
  {
    var n := Fall(v, p);
    var nx, ny :=
      if Pulled(n, p) then n.x + (p.mouseX - n.x) * PullFraction else n.x,
      if Pulled(n, p) then n.y + (p.mouseY - n.y) * PullFraction else n.y;
    Vertex(nx, ny, v.x, v.y, v.restPrev, v.restNext)
  }

  /** With the button up no vertex ends below the floor, and the step is
      plain Verlet in x. */
  lemma NoPullKeepsFloor(v: Vertex, p: Params)
    requires p.mouseDown <= 0.5
    ensures GravityStep(v, p).y >= p.floorY
    ensures GravityStep(v, p).x == 2.0 * v.x - v.oldX
  {
    assert !Pulled(Fall(v, p), p);
  }

  /** The gravity dispatch over the whole vertex buffer, one vertex at a
      time; arrayLength counts whole 24-byte records. */
  method GravityPass(verts: array<real>, p: Params)
    modifies verts
    ensures forall i :: 0 <= i < verts.Length / FloatsPerVert ==>
      VertexAt(verts[..], i) == GravityStep(VertexAt(old(verts[..]), i), p)
    ensures verts[verts.Length / FloatsPerVert * FloatsPerVert..] == old(verts[verts.Length / FloatsPerVert * FloatsPerVert..])
  {
    var n := verts.Length / FloatsPerVert;
    for i := 0 to n
      invariant forall j :: 0 <= j < i ==> VertexAt(verts[..], j) == GravityStep(VertexAt(old(verts[..]), j), p)
      invariant forall j :: i <= j < n ==> VertexAt(verts[..], j) == VertexAt(old(verts[..]), j)
      invariant verts[n * FloatsPerVert..] == old(verts[n * FloatsPerVert..]) && verts.Length / FloatsPerVert == n
    {
      var v := VertexAt(verts[..], i);
      var w := GravityStep(v, p);
      WriteMotion(verts, i, w.x, w.y, w.oldX, w.oldY);
    }
  }

  // ------------------------------------------------------------ the object

  class DeformablePolygonObject {
    var params: Params
    var mouseDown: bool
    var mousePos: G.Point
    var deformEnabled: bool
    var polygon: seq<G.Point>
    /** The copy resetShape restores; empty until createGeometry runs. */
    var originalPolygon: seq<G.Point>
    var numV: nat
    var numVertices: nat
    /** The storage and vertex buffer the kernels and the draw share. */
    var mainBuf: array<real>
    /** The 32-byte uniform buffer. */
    var paramBuf: seq<real>
    /** The vertex stride in bytes. */
    var arrayStride: nat

    constructor (poly: seq<G.Point>)
      ensures params == InitialParams && !mouseDown && mousePos == G.Point(0.0, 0.0)
      ensures !deformEnabled && polygon == poly && originalPolygon == []
    {
      params := InitialParams;
      mouseDown := false;
      mousePos := G.Point(0.0, 0.0);
      deformEnabled := false;
      polygon := poly;
      originalPolygon := [];
      numV := 0;
      numVertices := 0;
      mainBuf := new real[0];
      paramBuf := [];
      arrayStride := 0;
    }

    /** Saves the polygon for reset, uploads the packed vertices into a new
        buffer, and creates the zero-filled 32-byte uniform buffer.  The
        file loading of Polygon.init is not part of this model: the polygon
        is the one the object holds. */
    method CreateGeometry(hypot: (real, real) -> real)
      modifies this`originalPolygon, this`numV, this`mainBuf, this`numVertices, this`arrayStride, this`paramBuf
      ensures fresh(mainBuf) && Packed(mainBuf[..], polygon, hypot)
      ensures originalPolygon == polygon == old(polygon)
      ensures numV == numVertices == |polygon| && arrayStride == FloatsPerVert * BytesPerWord
      ensures paramBuf == Zeros(32) && |paramBuf| == ParamWords
      ensures params == old(params) && deformEnabled == old(deformEnabled)
      ensures mouseDown == old(mouseDown) && mousePos == old(mousePos)
    {
      var buf := PackBuffer(polygon, hypot);
      originalPolygon := polygon;
      numV := |polygon|;
      mainBuf := buf;
      numVertices := numV;
      arrayStride := FloatsPerVert * BytesPerWord;
      paramBuf := Zeros(32);
    }

    /** The mousedown listener. */
    method MouseDown()
      modifies this`mouseDown, this`params
      ensures mouseDown && params == old(params).(mouseDown := 1.0)
      ensures deformEnabled == old(deformEnabled) && mousePos == old(mousePos)
    {
      mouseDown := true;
      params := params.(mouseDown := 1.0);
    }

    /** The mouseup listener. */
    method MouseUp()
      modifies this`mouseDown, this`params
      ensures !mouseDown && params == old(params).(mouseDown := 0.0)
      ensures deformEnabled == old(deformEnabled) && mousePos == old(mousePos)
    {
      mouseDown := false;
      params := params.(mouseDown := 0.0);
    }

    /** The mousemove listener: canvas pixels to normalised device
        coordinates, y pointing up.  A point on the canvas maps into
        [-1, 1] x [-1, 1]. */
    method MouseMove(sx: real, sy: real, width: real, height: real)
      requires width > 0.0 && height > 0.0
      modifies this`mousePos
      ensures (mousePos.x + 1.0) * width == 2.0 * sx && (1.0 - mousePos.y) * height == 2.0 * sy
      ensures 0.0 <= sx <= width && 0.0 <= sy <= height ==> -1.0 <= mousePos.x <= 1.0 && -1.0 <= mousePos.y <= 1.0
      ensures params == old(params) && mouseDown == old(mouseDown) && deformEnabled == old(deformEnabled)
    {
      var ndcx := (sx / width) * 2.0 - 1.0;
      var ndcy := 1.0 - (sy / height) * 2.0;
      mousePos := G.Point(ndcx, ndcy);
    }

    /** Copies the mouse position into the parameters. */
    method UpdateGeometry()
      modifies this`params
      ensures params == old(params).(mouseX := mousePos.x, mouseY := mousePos.y)
      ensures mousePos == old(mousePos) && deformEnabled == old(deformEnabled)
    {
      params := params.(mouseX := mousePos.x, mouseY := mousePos.y);
    }

    /** pass.draw(numVertices): the closing duplicate is drawn too. */
    method Render() returns (vertexCount: nat)
      ensures vertexCount == numVertices
    {
      vertexCount := numVertices;
    }

    /** Nothing while deformation is off; otherwise the parameter block is
        uploaded and one gravity dispatch and five constraint dispatches
        are encoded, each of ceil(numVertices / 64) groups. */
    method Compute() returns (ds: seq<Dispatch>)
      modifies this`paramBuf
      ensures !old(deformEnabled) ==> ds == [] && paramBuf == old(paramBuf)
      ensures old(deformEnabled) ==>
        && |ds| == 1 + ConstraintIterations
        && ds[0].pipeline == "gravityMain"
        && (forall k :: 1 <= k < |ds| ==> ds[k].pipeline == "constraintMain")
        && (forall k :: 0 <= k < |ds| ==> ds[k].x == CeilDiv(numVertices, WorkgroupSize) && ds[k].y == 1)
        && paramBuf == Write(old(paramBuf), 0, ParamBlock(params))
      ensures old(deformEnabled) && |old(paramBuf)| == ParamWords ==> paramBuf == ParamBlock(params)
      ensures forall k :: 0 <= k < |ds| ==> ds[k].x * WorkgroupSize >= numVertices
      ensures params == old(params) && deformEnabled == old(deformEnabled) && numVertices == old(numVertices)
      ensures mainBuf == old(mainBuf)
    {
      if !deformEnabled {
        return [];
      }
      paramBuf := Write(paramBuf, 0, ParamBlock(params));
      var groups := CeilDiv(numVertices, WorkgroupSize);
      ds := [Dispatch("gravityMain", groups, 1)];
      for i := 0 to ConstraintIterations
        invariant |ds| == 1 + i && ds[0].pipeline == "gravityMain"
        invariant forall k :: 1 <= k < |ds| ==> ds[k].pipeline == "constraintMain"
        invariant forall k :: 0 <= k < |ds| ==> ds[k].x == groups && ds[k].y == 1
      {
        ds := ds + [Dispatch("constraintMain", groups, 1)];
      }
      if |old(paramBuf)| == ParamWords {
        assert paramBuf[..ParamWords] == ParamBlock(params);
      }
    }

    /** What the GPU does with the gravity dispatch: every vertex record
        takes one gravity step under the parameters in the uniform
        buffer. */
    method RunGravity()
      requires |paramBuf| >= 5
      modifies mainBuf
      ensures forall i :: 0 <= i < mainBuf.Length / FloatsPerVert ==>
        VertexAt(mainBuf[..], i) == GravityStep(VertexAt(old(mainBuf[..]), i), ReadParams(paramBuf))
    {
      GravityPass(mainBuf, ReadParams(paramBuf));
    }

    /** Flips the deformation flag and nothing else. */
    method ToggleDeformation()
      modifies this`deformEnabled
      ensures deformEnabled == !old(deformEnabled)
      ensures params == old(params) && polygon == old(polygon) && mainBuf == old(mainBuf)
    {
      deformEnabled := !deformEnabled;
    }

    /** Restores the saved polygon and rebuilds the buffers as
        createGeometry does; the parameters, the flags and the mouse
        state are kept. */
    method ResetShape(hypot: (real, real) -> real)
      modifies this`polygon, this`originalPolygon, this`numV, this`mainBuf, this`numVertices, this`arrayStride, this`paramBuf
      ensures polygon == originalPolygon == old(originalPolygon)
      ensures fresh(mainBuf) && Packed(mainBuf[..], old(originalPolygon), hypot)
      ensures numV == numVertices == |old(originalPolygon)| && arrayStride == FloatsPerVert * BytesPerWord
      ensures paramBuf == Zeros(32) && |paramBuf| == ParamWords
      ensures deformEnabled == old(deformEnabled) && params == old(params)
      ensures mouseDown == old(mouseDown) && mousePos == old(mousePos)
    {
      polygon := originalPolygon;
      CreateGeometry(hypot);
    }
  }
}
