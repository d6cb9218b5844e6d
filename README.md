# WebGPU classroom demos: a verified model of the sequential core

The repository is a set of WebGPU classroom demos: 2-D and 3-D cameras,
polygon and particle scenes, ray tracers, a volume renderer and a
Game-of-Life grid.  Most of it is GPU and DOM plumbing.  This project
models the sequential code underneath in Dafny and proves what that code
promises.

The main piece is `TwoDGridSegmented` (modules `GridGeometry` and
`TwoDGrid`), a point-location grid over a closed 2-D polygon.  It does
four things:

- It checks its input and builds an N x N array of cells over the
  polygon's bounding box, padded by an epsilon.
- It walks every polygon edge through the cells it crosses.  Each such
  cell records the edge's parameter interval `[t0, t1]` and becomes MIXED.
- It labels every remaining 4-connected UNKNOWN region INTERIOR or
  EXTERIOR.  A stack flood fill finds the region, and a winding-number
  test of its seed cell's centre decides the label.
- It answers inside/outside queries from a cell's label.  A MIXED cell
  tests the point against the segments in its own list.  Only an UNKNOWN
  cell, whose list is empty, gathers segments from a growing ring of
  cells around it.

The rest of the model covers the smaller pieces, one module per source
file:

- the 2-D camera's viewport bookkeeping and the 3-D camera's focal clamps;
- the deformable polygon's packing and its sequential gravity step;
- polygon flattening;
- the procedural XOR volume and its index bijection;
- the bouncing interpolation timer of the celestial object;
- the three Laplacian averages;
- HSL to RGB conversion and the circle's vertex layout;
- particle ping-pong parity and the spaceship thruster update;
- the ray tracers' buffer layouts, shadow factors and dispatch sizes;
- the volume renderer;
- the Game-of-Life objects' flags;
- the unit-shape records.

Coordinates are `real`.  The following are not modelled; they come in as
parameters instead:

- Math.sqrt, Math.hypot, Math.cos and Math.sin;
- Math.random, as input sequences of values in [0, 1);
- the motor algebra of the PGA2D and PGA3D libraries;
- file contents.

A GPU buffer is a sequence of 32-bit words.  `device.queue.writeBuffer(buf, ofs, src)`
is `GpuBuffer.Write`: it replaces the words from `ofs / 4` on and keeps
the rest.

Where a source function changes state, the model is a class with the
source's fields, and its methods change those fields in place.  Where the
source computes a value, the model is a function with lemmas about it.
Some behaviour the source never states outright is stated as a property
and proved:

- the grid rasterisation and labelling invariants;
- the correctness of the nearest-point search;
- the layout round trips of the ray tracers' buffers;
- bounds on the shadow factors;
- the convexity of the Laplacian averages.

Two pieces of behaviour in the grid follow the code:

- `isOutsideAssumeLocalConvex` dereferences a null segment when the ring
  search finds none (TwoDGridSegmented.js:235 via 289).  The model returns
  `Err(NoSegments)` there.  `IsOutsideAssumeLocalConvex` proves that this
  can happen only while some cell is still UNKNOWN and no cell is MIXED,
  which `Init` rules out.
- A polygon whose bounding box has zero width or zero height still
  constructs: the constructor divides only by grid_size (lines 62, 79-80),
  so EPSILON is 0 and the cells have zero width or height.  The division
  by zero comes later, in getCellIdx (lines 93-94), which init calls.  It
  yields a NaN cell index, so the first edge that the 1e-14 test at line
  120 does not skip reads an undefined cell and throws a TypeError (lines
  132-133, 100).  When every edge is below 1e-14 in both components, init
  completes.  `Create` reports `DegenerateBox` up front instead.

## Model

| member | source | states |
|---|---|---|
| AliveDead.Quest3Grid.constructor | quest3/lib/DSViz/CameraLineStrip2DAliveDeadObject.js:27-38 | resolution 2048, running, first rule set, the vertices kept, nothing built yet |
| AliveDead.Quest3Grid.CreateComputePipeline | quest3/lib/DSViz/CameraLineStrip2DAliveDeadObject.js:41-55 | without a shader module nothing changes; with one the pipeline exists with the given entry point and the flags are unchanged |
| AliveDead.Quest3Grid.CreatePipelineLayout | quest3/lib/DSViz/CameraLineStrip2DAliveDeadObject.js:88-98 | without a shader module nothing changes; with one the layout exists; no other field changes |
| AliveDead.Quest3Grid.CreateShaders | quest3/lib/DSViz/CameraLineStrip2DAliveDeadObject.js:79-85 | a shader module exists afterwards; no other field changes (the compute and render pipelines keep whatever they were built from) |
| AliveDead.Quest3Grid.CreateRenderPipeline | quest3/lib/DSViz/CameraLineStrip2DAliveDeadObject.js:101-121 | the render pipeline exists, and the layout too whenever a shader module did; nothing else changes, the compute pipeline and its entry included |
| AliveDead.Quest3Grid.Render | quest3/lib/DSViz/CameraLineStrip2DAliveDeadObject.js:124-128 | draws vertices.length / 2 vertices, gridResolution squared instances |
| AliveDead.Quest3Grid.TogglePause | quest3/lib/DSViz/CameraLineStrip2DAliveDeadObject.js:131-133 | negates the pause flag; nothing else changes |
| AliveDead.Quest3Grid.RefreshSimulation | quest3/lib/DSViz/CameraLineStrip2DAliveDeadObject.js:136-146 | step 0, running, shaders, layout and render pipeline rebuilt, rule kept; the compute pipeline is not rebuilt and keeps its entry |
| AliveDead.Quest3Grid.ToggleRule | quest3/lib/DSViz/CameraLineStrip2DAliveDeadObject.js:149-152 | negates the rule flag and refreshes: step 0, running, shaders, layout and render pipeline rebuilt, the compute pipeline and its entry kept |
| AliveDead.DynamicGrid.constructor | lib/DSViz/CameraLineStrip2DAliveDeadObject.js:27-34 | grid size 2048, running, first rule, the vertices kept |
| AliveDead.DynamicGrid.Render | lib/DSViz/CameraLineStrip2DAliveDeadObject.js:79-83 | draws vertices.length / 2 vertices, gridSize squared instances |
| AliveDead.DynamicGrid.TogglePause | lib/DSViz/CameraLineStrip2DAliveDeadObject.js:85-87 | negates the pause flag; rule and step unchanged |
| AliveDead.DynamicGrid.ResetSimulation | lib/DSViz/CameraLineStrip2DAliveDeadObject.js:89-96 | step 0 and running, rule unchanged |
| AliveDead.DynamicGrid.ToggleRule | lib/DSViz/CameraLineStrip2DAliveDeadObject.js:98-101 | negates the rule flag, step 0, running |
| Camera2D.Viewport.Scaled | quest3/lib/Viz/2DCamera.js:94-98 | scaling every bound by f scales width and height by f |
| Camera2D.Viewport.Shifted | quest3/lib/Viz/2DCamera.js:134-137 | shifting both bounds of an axis keeps width and height |
| Camera2D.RecentreShift | quest3/lib/Viz/2DCamera.js:124-128 | the translation max(-m, min(-m, 0)) centres both axes on 0 |
| Camera2D.Recentred | quest3/lib/Viz/2DCamera.js:124-137 | the recentred viewport is centred on 0 with the same width and height |
| Camera2D.RecentredFits | quest3/lib/Viz/2DCamera.js:110-138 | a viewport with room to zoom out passes zoomOut's bound check once recentred |
| Camera2D.RecentredInside | quest3/lib/Viz/2DCamera.js:120-138 | recentring keeps a viewport inside [-1, 1]^2 |
| Camera2D.ZoomOutActivation | quest3/lib/Viz/2DCamera.js:101-143 | one call of zoomOut zooms exactly when the scaled viewport passes the bound check, else it recentres and retries |
| Camera2D.ZoomOutTerminates | quest3/lib/Viz/2DCamera.js:101-143 | with width and height times 1.1 at most 2, the first or the second activation zooms |
| Camera2D.ZoomOutDiverges | quest3/lib/Viz/2DCamera.js:101-143 | with width times 1.1 above 2, the second activation retries on its own viewport: unbounded recursion |
| Camera2D.InitialViewDiverges | quest3/lib/Viz/2DCamera.js:27-33 | the viewport right after construction has no room, so zoomOut never returns from it |
| Camera2D.Camera.constructor | quest3/lib/Viz/2DCamera.js:27-33 | pose [1, 0, 0, 0, 1, 1] and viewport [-1, 1]^2 |
| Camera2D.Camera.ResetPose | quest3/lib/Viz/2DCamera.js:35-41 | back to pose [1, 0, 0, 0, 1, 1] and the full viewport |
| Camera2D.Camera.UpdatePose | quest3/lib/Viz/2DCamera.js:43-48 | entries 0..3 replaced, the two scale entries kept |
| Camera2D.Camera.MoveBy | quest3/lib/Viz/2DCamera.js:50-88 | when allowed the viewport shifts by (tx, ty) and the motor is translated; otherwise nothing changes |
| Camera2D.Camera.MoveLeft | quest3/lib/Viz/2DCamera.js:50-58 | moves by -d exactly when left - d >= -1, else nothing changes; for d >= 0 the viewport stays inside [-1, 1]^2 |
| Camera2D.Camera.MoveRight | quest3/lib/Viz/2DCamera.js:60-68 | moves by d exactly when right + d <= 1, else nothing changes; for d >= 0 the viewport stays inside |
| Camera2D.Camera.MoveUp | quest3/lib/Viz/2DCamera.js:70-78 | moves by d exactly when top + d <= 1, else nothing changes; for d >= 0 the viewport stays inside |
| Camera2D.Camera.MoveDown | quest3/lib/Viz/2DCamera.js:80-88 | moves by -d exactly when bottom - d >= -1, else nothing changes; for d >= 0 the viewport stays inside |
| Camera2D.Camera.ZoomIn | quest3/lib/Viz/2DCamera.js:90-99 | both scales times 1.1, the viewport scaled by 1/1.1, and it stays inside |
| Camera2D.Camera.ApplyZoomOut | quest3/lib/Viz/2DCamera.js:110-117 | scales divided by 1.1, viewport scaled by 1.1 |
| Camera2D.Camera.ZoomOut | quest3/lib/Viz/2DCamera.js:101-143 | under the termination precondition: the viewport (recentred if the check failed) scaled by 1.1, inside [-1, 1]^2, scales divided by 1.1, motor translated only when recentred |
| Camera2D.Camera.AdjustForRetry | quest3/lib/Viz/2DCamera.js:120-138 | the viewport is recentred and the motor translated by the recentring shift |
| Camera2D.Camera.ZoomOutOnce | quest3/lib/Viz/2DCamera.js:101-143 | always returns: recentres at most once, zooms only if the result fits, keeps the viewport inside, and agrees with ZoomOut wherever that returns |
| Camera3D.IdentityPose | quest6/lib/Viz/3DCamera2.js:34-39 | 16 entries, 1 followed by zeros |
| Camera3D.ClampedFocal | quest6/lib/Viz/3DCamera2.js:84-91 | focal + delta, or 0.01 when that falls below 0.01; never below 0.01 |
| Camera3D.Camera.constructor | quest6/lib/Viz/3DCamera2.js:26-33 | identity pose, focal [1, 1], resolutions [w, h], orthogonal |
| Camera3D.Camera.SetIdentity | quest6/lib/Viz/3DCamera2.js:34-39 | the pose becomes the identity motor |
| Camera3D.Camera.ResetPose | quest6/lib/Viz/3DCamera2.js:34-39 | identity pose and focal [1, 1] |
| Camera3D.Camera.UpdatePose | quest6/lib/Viz/3DCamera2.js:40 | the pose becomes the first 16 entries of the argument |
| Camera3D.Camera.UpdateSize | quest6/lib/Viz/3DCamera2.js:41 | resolutions become [w, h] |
| Camera3D.Camera.ChangeFocalX | quest6/lib/Viz/3DCamera2.js:84-87 | x focal clamped-incremented, y focal kept, x focal at least 0.01 |
| Camera3D.Camera.ChangeFocalY | quest6/lib/Viz/3DCamera2.js:88-91 | y focal clamped-incremented, x focal kept, y focal at least 0.01 |
| Celestial.Vertex | lib/DSViz/circle1.js:10-13 | six floats per vertex, colour (0.2, 0.5, 1) and alpha 1 |
| Celestial.LocalT | lib/DSViz/circle1.js:39 | the interpolation parameter (t mod 75) / 75 lies in [0, 1) |
| Celestial.Lerp | lib/DSViz/circle1.js:40-43 | each motor entry moves from p0 towards p1 by the fraction u |
| Celestial.Phase | lib/DSViz/circle1.js:30-36 | key poses 0 and 1 while t < 75, key poses 1 and 2 from 75 on |
| Celestial.NextStep | lib/DSViz/circle1.js:46-51 | the direction turns to -1 at 150, to 1 at 0, and is kept in between |
| Celestial.CelestialObject.constructor | lib/DSViz/circle1.js:4-25 | 36 vertices, vertex i at segment i; timer 0, direction 1, timer invariant holds |
| Celestial.CelestialObject.Interpolate | lib/DSViz/circle1.js:40-43 | motor entries become Lerp(p0, p1, u), the rest of the pose kept |
| Celestial.CelestialObject.UpdateGeometry | lib/DSViz/circle1.js:27-54 | pose interpolated for the old timer, timer advanced by step, direction turned at either end; t stays in [0, 150] |
| Circle.JsMod2 | lib/DSViz/circle.js:7 | JavaScript's % 2 of a non-negative number lies in [0, 2) |
| Circle.Sector | lib/DSViz/circle.js:11-16 | the branch chosen: sector k < 5 exactly when k/6 <= h < (k+1)/6, all else the last branch |
| Circle.ChromaBounds | lib/DSViz/circle.js:6-8 | for s, l in [0, 1]: chroma non-negative and l - c/2, l + c/2 within [0, 1] |
| Circle.SecondBounds | lib/DSViz/circle.js:7 | the second component lies between 0 and the chroma |
| Circle.HslToRgbInGamut | lib/DSViz/circle.js:5-19 | for h, s, l in [0, 1] every channel lies in [0, 1] |
| Circle.PureHue | lib/DSViz/circle.js:5-19 | with s = 1, l = 0.5: per sector, which channel is 1 and which is 0 |
| Circle.Stream | lib/DSViz/circle.js:50-72 | the float stream of n vertices has 6n floats |
| Circle.StreamAt | lib/DSViz/circle.js:50-72 | float 6k + j is field j of vertex k |
| Circle.StreamSnoc | lib/DSViz/circle.js:51-56 | appending a vertex appends its six floats |
| Circle.BoundaryLength | lib/DSViz/circle.js:41-73 | k boundary triangles are 3k vertices |
| Circle.BoundaryAt | lib/DSViz/circle.js:41-73 | triangle i occupies vertices 3i to 3i + 2 |
| Circle.FanLength | lib/DSViz/circle.js:90-122 | j triangles of a dot's fan are 3j vertices |
| Circle.DotsLength | lib/DSViz/circle.js:78-123 | k dots are 3 k numSegments vertices |
| Circle.StreamLength | lib/DSViz/circle.js:29-126 | the whole stream holds (3 numSegments + 3 numDots numSegments) vertices of six floats |
| Circle.BoundaryTriangles | lib/DSViz/circle.js:41-73 | triangle i is the black centre, rim i and rim (i + 1) mod numSegments; the last closes the ring at 0 |
| Circle.HueInUnit | lib/DSViz/circle.js:45-46 | the hue angle / 2 pi lies in [0, 1] |
| Circle.RimEmitted | lib/DSViz/circle.js:45-72 | every rim vertex is opaque and in gamut |
| Circle.BoundaryEmitted | lib/DSViz/circle.js:41-73 | every boundary vertex is opaque and in gamut |
| Circle.DotEmitted | lib/DSViz/circle.js:79-88 | a dot's colour is in gamut |
| Circle.FanEmitted | lib/DSViz/circle.js:90-122 | every vertex of a fan is opaque and in gamut |
| Circle.DotsEmitted | lib/DSViz/circle.js:78-123 | every dot vertex is opaque and in gamut |
| Circle.AllEmitted | lib/DSViz/circle.js:29-126 | every vertex circleMaker emits is opaque with channels in [0, 1] |
| Circle.Put | lib/DSViz/circle.js:51 | one write at offset extends the written stream by one float; a write past the end is lost |
| Circle.PutVertex | lib/DSViz/circle.js:51-56 | the six writes of a vertex extend the stream by that vertex |
| Circle.PutTriangle | lib/DSViz/circle.js:50-72 | three vertices extend the stream by the triangle |
| Circle.PutFan | lib/DSViz/circle.js:90-122 | the inner dot loop extends the stream by the dot's whole fan |
| Circle.PutBoundary | lib/DSViz/circle.js:41-73 | the boundary loop over zeros writes the boundary stream |
| Circle.PutDots | lib/DSViz/circle.js:78-123 | the dot loop extends the stream by every dot's fan |
| Circle.Generate | lib/DSViz/circle.js:41-123 | both loops over zeros write the whole vertex stream, cut at the array's end |
| Circle.CircleMakerAsWritten | lib/DSViz/circle.js:29-126 | as written: an array of totalFloats (line 32) holding the stream cut at that length |
| Circle.StreamOverflows | lib/DSViz/circle.js:32 | with more than one segment and a dot, the stream is longer than totalFloats |
| Circle.CircleMaker | lib/DSViz/circle.js:29-126 | corrected size: the array is the whole stream, six floats per vertex, opaque, channels in [0, 1] |
| DeformablePolygon.PrevIndex | quest5/lib/DSViz/DeformablePolygonObject.js:67 | the cyclic predecessor among the numV - 1 unique vertices: m - 1 for 0, else i - 1 |
| DeformablePolygon.NextIndex | quest5/lib/DSViz/DeformablePolygonObject.js:68 | the cyclic successor: 0 after m - 1, else i + 1 |
| DeformablePolygon.PrevNextCycle | quest5/lib/DSViz/DeformablePolygonObject.js:67-68 | predecessor and successor undo each other: the unique vertices form one cycle |
| DeformablePolygon.WriteMotion | quest5/lib/DSViz/DeformablePolygonObject.js:60-63 | slots 0..3 of vertex i replaced, every other float kept |
| DeformablePolygon.WriteRest | quest5/lib/DSViz/DeformablePolygonObject.js:72-73 | slots 4 and 5 of vertex i replaced, every other float kept |
| DeformablePolygon.Pack | quest5/lib/DSViz/DeformablePolygonObject.js:52-78 | six floats per vertex, positions with zero velocity, rest lengths to the cyclic neighbours of the unique vertices, the closing vertex copying vertex 0's rest lengths |
| DeformablePolygon.PackPositions | quest5/lib/DSViz/DeformablePolygonObject.js:58-64 | every vertex holds its position twice, rest slots still zero |
| DeformablePolygon.Blank | quest5/lib/DSViz/DeformablePolygonObject.js:53-54 | a fresh array of numV * 6 zeros: every rest slot starts at 0 |
| DeformablePolygon.PackRest | quest5/lib/DSViz/DeformablePolygonObject.js:65-78 | from positions already in place, the two rest-length loops and the closing copy produce the full packed layout |
| DeformablePolygon.PackBuffer | quest5/lib/DSViz/DeformablePolygonObject.js:52-84 | a fresh main buffer holding exactly the packed vertices |
| DeformablePolygon.RestLengths | quest5/lib/DSViz/DeformablePolygonObject.js:66-74 | each unique vertex's rest slots are its distances to its cyclic neighbours; positions kept; the closing vertex untouched |
| DeformablePolygon.RestLengthsOf | quest5/lib/DSViz/DeformablePolygonObject.js:67-73 | one iteration: vertex i's two distances, read from the stored positions, and nothing else changes |
| DeformablePolygon.ParamBlock | quest5/lib/DSViz/DeformablePolygonObject.js:310-317 | 8 floats, 32 bytes, ending in three zero pads |
| DeformablePolygon.ParamBlockRoundTrip | quest5/lib/DSViz/DeformablePolygonObject.js:124-133 | the kernel's UniformParams struct reads back exactly the parameters compute wrote |
| DeformablePolygon.Fall | quest5/lib/DSViz/DeformablePolygonObject.js:157-166 | Verlet position: x + (x - oldx), y + (y - oldy) + g dt raised to the floor, never below it |
| DeformablePolygon.GravityStep | quest5/lib/DSViz/DeformablePolygonObject.js:146-178 | old position becomes the position, rest lengths kept; a pulled vertex moves 30 % of the way to the mouse, else it takes the fallen position |
| DeformablePolygon.NoPullKeepsFloor | quest5/lib/DSViz/DeformablePolygonObject.js:166-167 | with the button up no vertex ends below the floor and x is plain Verlet |
| DeformablePolygon.GravityPass | quest5/lib/DSViz/DeformablePolygonObject.js:146-148 | every whole record takes one gravity step; the trailing partial record is untouched |
| DeformablePolygon.DeformablePolygonObject.constructor | quest5/lib/DSViz/DeformablePolygonObject.js:27-44 | parameters (-0.6, -0.9, 0, 0, 0), button up, mouse at the origin, deformation off, no saved polygon |
| DeformablePolygon.DeformablePolygonObject.CreateGeometry | quest5/lib/DSViz/DeformablePolygonObject.js:46-101 | saves the polygon, a fresh buffer holding the packed vertices, numV = numVertices = polygon length, stride 24 bytes, a zeroed 32-byte uniform buffer |
| DeformablePolygon.DeformablePolygonObject.MouseDown | quest5/lib/DSViz/DeformablePolygonObject.js:104-107 | the button is down and the parameter mouseDown is 1; only the flag and the parameters change |
| DeformablePolygon.DeformablePolygonObject.MouseUp | quest5/lib/DSViz/DeformablePolygonObject.js:108-111 | the button is up and the parameter mouseDown is 0; only the flag and the parameters change |
| DeformablePolygon.DeformablePolygonObject.MouseMove | quest5/lib/DSViz/DeformablePolygonObject.js:112-119 | canvas pixels to device coordinates with y up; a point on the canvas lands in [-1, 1]^2; only the mouse position changes |
| DeformablePolygon.DeformablePolygonObject.UpdateGeometry | quest5/lib/DSViz/DeformablePolygonObject.js:293-296 | the mouse position is copied into the parameters; only the parameters change |
| DeformablePolygon.DeformablePolygonObject.Render | quest5/lib/DSViz/DeformablePolygonObject.js:298-302 | draws numVertices vertices, the closing duplicate included |
| DeformablePolygon.DeformablePolygonObject.Compute | quest5/lib/DSViz/DeformablePolygonObject.js:306-331 | nothing while deformation is off; otherwise the parameter block is uploaded, then one gravity and five constraint dispatches of ceil(numVertices / 64) groups that cover every vertex; only the uniform buffer changes |
| DeformablePolygon.DeformablePolygonObject.RunGravity | quest5/lib/DSViz/DeformablePolygonObject.js:146-178 | the gravity dispatch: every vertex record steps under the parameters the uniform buffer holds |
| DeformablePolygon.DeformablePolygonObject.ToggleDeformation | quest5/lib/DSViz/DeformablePolygonObject.js:333-335 | negates the deformation flag; no other field changes |
| DeformablePolygon.DeformablePolygonObject.ResetShape | quest5/lib/DSViz/DeformablePolygonObject.js:337-341 | the saved polygon is restored and a fresh buffer packs it again; vertex counts, stride and a zeroed 32-byte uniform buffer as createGeometry sets them; parameters, flags and mouse state kept |
| GpuBuffer.CeilDiv | quest5/lib/DSViz/DeformablePolygonObject.js:324 | Math.ceil(n / d): the smallest group count that covers n |
| GpuBuffer.TileDispatch | quest6/lib/DSViz/RayTracingBoxObject2.js:168 | ceil(w / 16) x ceil(h / 16) groups cover every pixel and none lies wholly outside |
| GpuBuffer.WriteExtends | quest6/lib/DSViz/RayTracingBoxObject2.js:56-75 | a write at the end of a known prefix extends that prefix: the running-offset writes lay regions side by side |
| GpuBuffer.WriteReplaces | quest6/lib/DSViz/RayTracingBoxObject2.js:87-114 | a write at a region's own offset with data of its length replaces that region and nothing else |
| Laplacian.Gather | quest10/lib/DSViz/LaplacianInterpolation.js:9-13 | the neighbour positions vertices[neighborIndex], in list order |
| Laplacian.Coords | quest10/lib/DSViz/LaplacianInterpolation.js:10-12 | coordinate c of every point |
| Laplacian.WeightedSum | quest10/lib/DSViz/LaplacianInterpolation.js:39-41 | each coordinate of the sum is the running sum of weight times that coordinate |
| Laplacian.Average | quest10/lib/DSViz/LaplacianInterpolation.js:46-50 | weightedSum / totalWeight, and None (NaN or infinity) exactly when the total is 0 |
| Laplacian.StepAbove | quest10/lib/DSViz/LaplacianInterpolation.js:39-42 | one accumulation step keeps lo * total <= sum for a non-negative weight |
| Laplacian.StepBelow | quest10/lib/DSViz/LaplacianInterpolation.js:39-42 | one accumulation step keeps sum <= hi * total for a non-negative weight |
| Laplacian.DivideBetween | quest10/lib/DSViz/LaplacianInterpolation.js:46-50 | lo t <= s <= hi t with t > 0 puts s / t in [lo, hi] |
| Laplacian.DotAbove | quest10/lib/DSViz/LaplacianInterpolation.js:32-43 | non-negative weights over values at least lo sum to at least lo * total |
| Laplacian.DotBelow | quest10/lib/DSViz/LaplacianInterpolation.js:32-43 | non-negative weights over values at most hi sum to at most hi * total |
| Laplacian.TotalNonNegative | quest10/lib/DSViz/LaplacianInterpolation.js:42 | non-negative weights have a non-negative total |
| Laplacian.AverageAt | quest10/lib/DSViz/LaplacianInterpolation.js:46-50 | coordinate c of the average is (1 / total) times the weighted sum of that coordinate |
| Laplacian.TimesAt | quest10/lib/DSViz/LaplacianInterpolation.js:17-19 | scaling a point scales each coordinate |
| Laplacian.RatioBetween | quest10/lib/DSViz/LaplacianInterpolation.js:46-50 | with non-negative weights and a non-zero total, the total is positive and sum / total lies within any range holding the values |
| Laplacian.AverageBetween | quest10/lib/DSViz/LaplacianInterpolation.js:28-50 | a weighted average with non-negative weights is a convex combination: it stays within every axis range holding the neighbours |
| Laplacian.Ones | quest10/lib/DSViz/LaplacianInterpolation.js:9-13 | n weights of 1 |
| Laplacian.TotalOnes | quest10/lib/DSViz/LaplacianInterpolation.js:6 | n weights of 1 total n, the neighbour count |
| Laplacian.Uniform | quest10/lib/DSViz/LaplacianInterpolation.js:2-23 | one result per vertex, None (0 / 0) exactly for a vertex with no neighbours |
| Laplacian.Mean | quest10/lib/DSViz/LaplacianInterpolation.js:16-20 | the sum of the neighbours divided by their count, None for no neighbours |
| Laplacian.UniformIsMean | quest10/lib/DSViz/LaplacianInterpolation.js:2-23 | the uniform result is the neighbours' sum over their count and lies in every axis range holding them |
| Laplacian.UniformCoincident | quest10/lib/DSViz/LaplacianInterpolation.js:2-23 | neighbours all at one point p give p |
| Laplacian.EdgeWeights | quest10/lib/DSViz/LaplacianInterpolation.js:33-37 | weight k times the distance to neighbour k is 1 |
| Laplacian.EdgeLength | quest10/lib/DSViz/LaplacianInterpolation.js:25-53 | one result per vertex; a neighbour at distance 0 makes the result None |
| Laplacian.EdgeLengthIsConvex | quest10/lib/DSViz/LaplacianInterpolation.js:25-53 | with positive distances and some neighbour, the result exists and lies in every axis range holding the neighbours |
| Laplacian.PositiveTotal | quest10/lib/DSViz/LaplacianInterpolation.js:42 | a non-empty list of positive weights has a positive total |
| Laplacian.TriangleArea | quest10/lib/DSViz/LaplacianInterpolation.js:59-70 | twice the area is the length of the cross product, non-negative when the square root is |
| Laplacian.CrossNonNegative | quest10/lib/DSViz/LaplacianInterpolation.js:66-69 | the squared cross-product length is never negative |
| Laplacian.FirstFace | quest10/lib/DSViz/LaplacianInterpolation.js:80-88 | the first face holding both i and n, or None when none does |
| Laplacian.AreaWeight | quest10/lib/DSViz/LaplacianInterpolation.js:79-88 | 0 when no face holds the edge, never negative when the square root is not |
| Laplacian.AreaWeights | quest10/lib/DSViz/LaplacianInterpolation.js:77-94 | weight k is the area weight of neighbour k |
| Laplacian.Area | quest10/lib/DSViz/LaplacianInterpolation.js:55-104 | one result per vertex, None exactly when the area weights total 0 |
| Laplacian.AreaIsConvex | quest10/lib/DSViz/LaplacianInterpolation.js:55-104 | a defined result lies in every axis range holding the neighbours |
| Particles.SpawnRange | quest4/lib/DSViz/ParticleSystemObject.js:78-93 | from draws in [0, 1): initial position equals position, inside [-1, 1)^2, velocities in [-0.005, 0.005) |
| Particles.Group | quest4/lib/DSViz/ParticleSystemObject.js:163-178 | bind group k reads buffer k and writes buffer 1 - k |
| Particles.PingPong | quest4/lib/DSViz/ParticleSystemObject.js:185-205 | the buffer one step writes is the one the next step reads; a step never reads what it writes; the choice has period 2 |
| Particles.ParticleSystemObject.constructor | quest4/lib/DSViz/ParticleSystemObject.js:42-46 | the particle count kept, step 0 |
| Particles.ParticleSystemObject.CreateParticleGeometry | quest4/lib/DSViz/ParticleSystemObject.js:54-74 | a fresh array of 6 floats per particle, every particle spawned from its draws, buffer 0 holds them, buffer 1 zero, step 0 |
| Particles.ParticleSystemObject.ResetParticles | quest4/lib/DSViz/ParticleSystemObject.js:77-101 | every particle respawned from its draws, step 0, buffer 0 holds the array, buffer 1 unchanged |
| Particles.ParticleSystemObject.SetParticle | quest4/lib/DSViz/ParticleSystemObject.js:79-92 | particle i spawned from its four draws, every other particle unchanged |
| Particles.ParticleSystemObject.Compute | quest4/lib/DSViz/ParticleSystemObject.js:203-209 | bind group step % 2, ceil(n / 256) groups covering every particle, step + 1; the output lands in the group's write buffer, which the next render reads |
| Particles.ParticleSystemObject.Render | quest4/lib/DSViz/ParticleSystemObject.js:182-188 | bind group step % 2, 128 vertices per particle instance |
| PolygonObject.FlatLayout | quest5/lib/DSViz/PolygonObject.js:43 | flat() of points of dimension dim has numV * dim entries, coordinate j of point i at i * dim + j |
| PolygonObject.DigitChar | quest5/lib/DSViz/PolygonObject.js:58 | the decimal digit character of d |
| PolygonObject.Decimal | quest5/lib/DSViz/PolygonObject.js:58 | a non-empty digit string, one digit exactly for numbers below 10 |
| PolygonObject.DecimalRoundTrip | quest5/lib/DSViz/PolygonObject.js:58 | reading the numeral back gives the number |
| PolygonObject.Format | quest5/lib/DSViz/PolygonObject.js:58 | "float32x" followed by digits that denote dim |
| PolygonObject.CreateGeometry | quest5/lib/DSViz/PolygonObject.js:38-64 | None exactly for an empty polygon; else numV, dim of the first point, the flattened vertices, their byte size, stride dim * 4 and format float32x + dim |
| PolygonObject.UploadFills | quest5/lib/DSViz/PolygonObject.js:45-52 | the mapped upload leaves the buffer holding the flattened vertices |
| PolygonObject.GeometryLayout | quest5/lib/DSViz/PolygonObject.js:38-98 | for a uniform dimension: size = numV strides, the draw of numV vertices reads exactly the buffer, the format names dim |
| RayLayout.ConcatAppend | quest6/lib/DSViz/RayTracingBoxObject2.js:56-75 | laying out two lists of regions one after the other lays out their concatenation |
| RayLayout.ConcatPair | quest6/lib/DSViz/RayTracingBoxObject2.js:73-75 | two regions laid out are the one followed by the other |
| RayLayout.Serialise | quest6/lib/DSViz/RayTracingBoxObject2.js:56-75 | the running-offset write loop keeps the buffer's length |
| RayLayout.SerialiseLays | quest6/lib/DSViz/RayTracingBoxObject2.js:56-75 | after a prefix already in place and with room for all regions, the regions land end to end after it and the rest of the buffer is unchanged |
| RayLayout.WriteKeepsTail | quest6/lib/DSViz/RayTracingBoxObject2.js:56-75 | a write after a prefix leaves every word from its end on alone |
| RayLayout.SerialiseFits | quest6/lib/DSViz/RayTracingBoxObject2.js:52-75 | from offset 0 the regions all land exactly when they fit the buffer, and then the buffer is the regions followed by the untouched words |
| RayLayout.WriteResyncs | quest6/lib/DSViz/RayTracingBoxObject2.js:87-114 | a buffer that mirrors the objects everywhere but one region mirrors them entirely once that region is rewritten at its offset |
| RayLayout.MiddleResyncs | quest6/lib/DSViz/RayTracingBoxObject2.js:92-95 | rewriting the middle of three parts at the first part's byte length brings a buffer stale only there back in step |
| RayLayout.UploadCamera | quest6/lib/DSViz/RayTracingBoxObject2.js:38-48 | the three writes at offsets 0, pose.byteLength and pose.byteLength + focal.byteLength fill a buffer of their total size with pose, focal and resolutions |
| RayLayout.CameraRegions | quest6/lib/DSViz/RayTracingBoxObject2.js:42-47 | the camera image has 20 words: pose in [0, 16) at byte 0, focal in [16, 18) at byte 64, resolutions in [18, 20) at byte 72 |
| RayLayout.TracePipeline | quest6/lib/DSViz/RayTracingBoxObject2.js:162-166 | the projective entry point exactly when the camera is projective, the orthogonal one otherwise |
| RayLayout.UnitCube.constructor | quest6/lib/DSViz/RayTracingBoxObject2.js:33 | a cube holding the given pose, scales and six faces |
| RayLayout.UnitCube.ImageLayout | quest6/lib/DSViz/RayTracingBoxObject2.js:49 | the eight regions end to end are the cube image; with faces of len words it has pose + scales + 6 len words, the size boxBytes counts |
| RayBox.TilesExactly | quest6/lib/DSViz/RayTracingBoxObject2.js:49-75 | the cube's regions and the sphere's pose and scales, written into zeros of exactly their size, are the images end to end |
| RayBox.RayTracingBoxObject.constructor | quest6/lib/DSViz/RayTracingBoxObject2.js:29-35 | keeps camera, box and showTexture and makes a fresh unit sphere |
| RayBox.RayTracingBoxObject.CreateGeometry | quest6/lib/DSViz/RayTracingBoxObject2.js:37-76 | the camera buffer is the camera image; the scene buffer has totalSize bytes and, when the faces share front's length, is the scene image with the sphere's pose at boxBytes |
| RayBox.RayTracingBoxObject.UploadScene | quest6/lib/DSViz/RayTracingBoxObject2.js:49-75 | the scene buffer has totalSize bytes, holds the regions end to end from offset 0 and, when the faces share front's length, is the scene image with the sphere's pose at boxBytes |
| RayBox.RayTracingBoxObject.SceneTiles | quest6/lib/DSViz/RayTracingBoxObject2.js:49-75 | with agreeing faces the ten writes tile totalSize exactly; the sphere's pose sits at boxBytes and its scales right after |
| RayBox.RayTracingBoxObject.UpdateGeometry | quest6/lib/DSViz/RayTracingBoxObject2.js:78-85 | the camera takes the image size, which is written at byte 72; a buffer stale only there is back in step; only the camera buffer changes; scene buffer and workgroup extents kept |
| RayBox.RayTracingBoxObject.UpdateCameraPose | quest6/lib/DSViz/RayTracingBoxObject2.js:108-110 | the pose is written at byte 0 and resyncs a buffer stale only there; only the camera buffer changes; scene buffer and workgroup extents kept |
| RayBox.RayTracingBoxObject.UpdateCameraFocal | quest6/lib/DSViz/RayTracingBoxObject2.js:112-114 | the focal is written at byte 64 and resyncs a buffer stale only there; only the camera buffer changes; scene buffer and workgroup extents kept |
| RayBox.RayTracingBoxObject.UpdateBoxPose | quest6/lib/DSViz/RayTracingBoxObject2.js:87-90 | the box pose is written at byte 0 and resyncs a scene buffer stale only there; only the scene buffer changes; camera buffer and workgroup extents kept |
| RayBox.RayTracingBoxObject.UpdateBoxScales | quest6/lib/DSViz/RayTracingBoxObject2.js:92-95 | the box scales are written at pose.byteLength and resync a scene buffer stale only there; only the scene buffer changes; camera buffer and workgroup extents kept |
| RayBox.RayTracingBoxObject.UpdateSpherePose | quest6/lib/DSViz/RayTracingBoxObject2.js:97-100 | the sphere pose is written at boxBytes; only the scene buffer changes; camera buffer and workgroup extents kept |
| RayBox.RayTracingBoxObject.SpherePoseResyncs | quest6/lib/DSViz/RayTracingBoxObject2.js:97-100 | boxBytes is where createGeometry put the sphere pose: the write resyncs a buffer stale only there |
| RayBox.RayTracingBoxObject.UpdateSphereScales | quest6/lib/DSViz/RayTracingBoxObject2.js:102-106 | the sphere scales are written at boxBytes + the sphere pose's byteLength; only the scene buffer changes; camera buffer and workgroup extents kept |
| RayBox.RayTracingBoxObject.SphereScalesResyncs | quest6/lib/DSViz/RayTracingBoxObject2.js:102-106 | that offset is where createGeometry put the sphere scales: the write resyncs a buffer stale only there |
| RayBox.RayTracingBoxObject.CreateBindGroup | quest6/lib/DSViz/RayTracingBoxObject2.js:148-159 | the workgroup extents are the texture's width and height; only the extents change |
| RayBox.RayTracingBoxObject.Compute | quest6/lib/DSViz/RayTracingBoxObject2.js:161-169 | the projective pipeline exactly when the camera is projective; ceil(w / 16) x ceil(h / 16) groups that cover the image with none wholly outside |
| RayBoxLight.Light.ImageLayout | quest9/lib/DSViz/RayTracingBoxLightObject2.js:99-110 | the light's five arrays end to end are the light image |
| RayBoxLight.Int32 | quest9/lib/DSViz/RayTracingBoxLightObject2.js:211 | new Int32Array([mode]) stores the value congruent to mode modulo 2^32 in [-2^31, 2^31), the mode itself when it is in range |
| RayBoxLight.RayTracingBoxLightObject.constructor | quest9/lib/DSViz/RayTracingBoxLightObject2.js:28-34 | keeps camera, box and showTexture; shadow mode 0 |
| RayBoxLight.RayTracingBoxLightObject.CreateGeometry | quest9/lib/DSViz/RayTracingBoxLightObject2.js:36-76 | the camera image; a box buffer of boxBytes that, with faces of top's length, is exactly the box image; a zeroed 20-float light buffer; a one-word shadow buffer reading as mode 0 |
| RayBoxLight.RayTracingBoxLightObject.UploadBox | quest9/lib/DSViz/RayTracingBoxLightObject2.js:45-65 | the box buffer has boxBytes bytes holding the box regions end to end; with faces of top's length it is exactly the box image |
| RayBoxLight.RayTracingBoxLightObject.FreshBuffers | quest9/lib/DSViz/RayTracingBoxLightObject2.js:66-75 | the fresh light buffer has 20 words and the fresh shadow buffer one zero word, which is mode 0 |
| RayBoxLight.RayTracingBoxLightObject.BoxSized | quest9/lib/DSViz/RayTracingBoxLightObject2.js:45-65 | the box buffer keeps its size boxBytes whatever the faces |
| RayBoxLight.RayTracingBoxLightObject.BoxTiles | quest9/lib/DSViz/RayTracingBoxLightObject2.js:45-65 | with faces of top's length the eight writes fill the box buffer exactly with the box image |
| RayBoxLight.RayTracingBoxLightObject.UpdateGeometry | quest9/lib/DSViz/RayTracingBoxLightObject2.js:78-81 | the camera takes the image size, written at byte 72, resyncing a buffer stale only there; only the camera buffer changes; the other buffers, shadow mode and extents kept |
| RayBoxLight.RayTracingBoxLightObject.UpdateBoxPose | quest9/lib/DSViz/RayTracingBoxLightObject2.js:83-85 | the box pose at byte 0, resyncing a box buffer stale only there; only the box buffer changes; the other buffers, shadow mode and extents kept |
| RayBoxLight.RayTracingBoxLightObject.UpdateBoxScales | quest9/lib/DSViz/RayTracingBoxLightObject2.js:87-89 | the box scales at pose.byteLength, resyncing a box buffer stale only there; only the box buffer changes; the other buffers, shadow mode and extents kept |
| RayBoxLight.RayTracingBoxLightObject.UpdateCameraPose | quest9/lib/DSViz/RayTracingBoxLightObject2.js:91-93 | the camera pose at byte 0, resyncing a buffer stale only there; only the camera buffer changes; the other buffers, shadow mode and extents kept |
| RayBoxLight.RayTracingBoxLightObject.UpdateCameraFocal | quest9/lib/DSViz/RayTracingBoxLightObject2.js:95-97 | the camera focal at byte 64, resyncing a buffer stale only there; only the camera buffer changes; the other buffers, shadow mode and extents kept |
| RayBoxLight.RayTracingBoxLightObject.UpdateLight | quest9/lib/DSViz/RayTracingBoxLightObject2.js:99-110 | the five arrays at running offsets; on the 20-float buffer they all land exactly when they take at most 80 bytes, and the words after them are kept; only the light buffer changes; shadow mode and extents kept |
| RayBoxLight.RayTracingBoxLightObject.UpdateShadowMode | quest9/lib/DSViz/RayTracingBoxLightObject2.js:209-212 | the mode is stored and written as one 32-bit integer; on the 4-byte buffer the buffer holds exactly the mode; nothing else changes, extents included |
| RayBoxLight.RayTracingBoxLightObject.CreateBindGroup | quest9/lib/DSViz/RayTracingBoxLightObject2.js:167-196 | the workgroup extents are the texture's size; only the extents change; buffers and shadow mode kept |
| RayBoxLight.RayTracingBoxLightObject.Compute | quest9/lib/DSViz/RayTracingBoxLightObject2.js:198-207 | the projective pipeline exactly when the camera is projective; 16 x 16 groups covering the image, none wholly outside |
| RayBoxShadows.IsInShadow | quest9/lib/DSViz/RayTracingBoxObject2.js:144-147 | a ray is blocked exactly when traceScene reports a hit |
| RayBoxShadows.NeverInShadow | quest9/lib/DSViz/RayTracingBoxObject2.js:153-155 | traceScene returns null, so no ray is ever blocked |
| RayBoxShadows.DistanceFactor | quest9/lib/DSViz/RayTracingBoxObject2.js:114-119 | 1 on a miss; otherwise max(0.1, 1 - (d / 10)^2): at least 0.1, at most 1 for d >= 0 |
| RayBoxShadows.DistanceBasedIsOne | quest9/lib/DSViz/RayTracingBoxObject2.js:110-120 | since nothing is ever hit, the distance-based factor is always 1 |
| RayBoxShadows.GetSDF | quest9/lib/DSViz/RayTracingBoxObject2.js:140-142 | abs(centre distance - radius): non-negative, zero exactly on the sphere |
| RayBoxShadows.Closest | quest9/lib/DSViz/RayTracingBoxObject2.js:126-135 | the running minimum closestDist lies in [0, 10] |
| RayBoxShadows.ClosestIsMinimum | quest9/lib/DSViz/RayTracingBoxObject2.js:126-135 | closestDist is no larger than any SDF the march met, and is 10 or one of them |
| RayBoxShadows.SdfFactorRange | quest9/lib/DSViz/RayTracingBoxObject2.js:137 | max(0.1, 1 - closestDist / 10) lies in [0.1, 1], and is 1 exactly when the march touched the sphere |
| RayBoxShadows.CalculateSDFSoftShadows | quest9/lib/DSViz/RayTracingBoxObject2.js:122-138 | the march loop yields the SDF factor of the running minimum, in [0.1, 1] |
| RayBoxShadows.UnshadowedIsTotal | quest9/lib/DSViz/RayTracingBoxObject2.js:93-100 | since no ray is blocked, every sample's intensity counts |
| RayBoxShadows.UnshadowedBounds | quest9/lib/DSViz/RayTracingBoxObject2.js:93-100 | with intensities in [0, 1], the sum over n samples lies in [0, n] |
| RayBoxShadows.CalculatePCFSoftShadows | quest9/lib/DSViz/RayTracingBoxObject2.js:89-103 | the unshadowed sum over 16 samples divided by 16, which is the plain sum / 16, in [0, 1] for intensities in [0, 1] |
| RayBoxShadows.ShadowFactorRange | quest9/lib/DSViz/RayTracingBoxObject2.js:77-87 | every mode's factor lies in [0, 1]; modes other than 1 and 3 give exactly 1 |
| RayBoxShadows.RayTracingBoxLightObject.constructor | quest9/lib/DSViz/RayTracingBoxObject2.js:28-33 | keeps camera, box, showTexture and the inherited shadow mode and light intensity |
| RayBoxShadows.RayTracingBoxLightObject.UpdateShadowMode | quest9/lib/DSViz/RayTracingBoxObject2.js:35-37 | records the mode; nothing else changes: intensity, buffers and extents kept |
| RayBoxShadows.RayTracingBoxLightObject.CreateGeometry | quest9/lib/DSViz/RayTracingBoxObject2.js:39-70 | the camera image, and a box buffer of boxBytes that is exactly the box image when the faces share top's length |
| RayBoxShadows.RayTracingBoxLightObject.UploadBox | quest9/lib/DSViz/RayTracingBoxObject2.js:49-69 | the box buffer has boxBytes bytes holding the box regions end to end; with faces of top's length it is exactly the box image |
| RayBoxShadows.RayTracingBoxLightObject.UpdateGeometry | quest9/lib/DSViz/RayTracingBoxObject2.js:72-75 | the camera takes the image size, written at byte 72, resyncing a buffer stale only there; only the camera buffer changes; box buffer, mode, intensity and extents kept |
| RayBoxShadows.RayTracingBoxLightObject.UpdateLight | quest9/lib/DSViz/RayTracingBoxObject2.js:77-87 | the intensity is multiplied by the current mode's factor, and unchanged for modes other than 1 and 3; nothing else changes, extents included |
| RayBoxShadows.RayTracingBoxLightObject.CreateBindGroup | quest9/lib/DSViz/RayTracingBoxObject2.js:209-229 | the workgroup extents are the texture's size; only the extents change |
| RayBoxShadows.RayTracingBoxLightObject.Compute | quest9/lib/DSViz/RayTracingBoxObject2.js:231-239 | the projective pipeline exactly when the camera is projective; ceil(w / 16) x ceil(h / 16) groups that cover the image with none wholly outside |
| RayTracing.IsInShadow | quest9/lib/DSViz/RayTracingObject.js:81-87 | true exactly when the trace returned a hit |
| RayTracing.Lit | quest9/lib/DSViz/RayTracingObject.js:70-77 | the count of unblocked samples is at most the number of samples |
| RayTracing.AllLit | quest9/lib/DSViz/RayTracingObject.js:70-77 | every sample is lit exactly when no trace reported a hit |
| RayTracing.CalculateSoftShadows | quest9/lib/DSViz/RayTracingObject.js:67-79 | the lit count over 16, in [0, 1], and 1 exactly when no sample is blocked |
| RayTracing.RayTracingObject.CreateBindGroup | quest9/lib/DSViz/RayTracingObject.js:54-65 | the workgroup extents are the texture's width and height |
| RayTracing.RayTracingObject.Compute | quest9/lib/DSViz/RayTracingObject.js:93-103 | no dispatch exactly when some scene object's shadow ray is blocked; otherwise one dispatch of 16 x 16 groups covering the image |
| Spaceship.ThrusterAlphaSlots | lib1/DSViz/SpaceshipObject.js:60-63 | the slots i * 6 + 5 for i in 9..11 are exactly 59, 65 and 71 |
| Spaceship.Intensity | lib1/DSViz/SpaceshipObject.js:50 | 0.8 + abs(sin) * 0.2 lies in [0.8, 1]; 0.8 exactly when sin is 0, 1 exactly when sin is 1 or -1 |
| Spaceship.HoverFactor | lib1/DSViz/SpaceshipObject.js:42 | (sin + 1) / 2 lies in [0, 1] and determines sin |
| Spaceship.SpaceshipObject.constructor | lib1/DSViz/SpaceshipObject.js:6-33 | a fresh copy of the twelve-vertex table, phase 0, intensity 1 |
| Spaceship.SpaceshipObject.UpdateThrusterColor | lib1/DSViz/SpaceshipObject.js:57-65 | the three thruster alpha slots take the intensity, every other entry is unchanged, and the buffer is marked dirty |
| Spaceship.SpaceshipObject.UpdateGeometry | lib1/DSViz/SpaceshipObject.js:40-55 | intensity from sin(2 phase), written into the thruster alphas only, phase advanced by 0.05 |
| UnitShapes.UnitShape.constructor | quest6/lib/DS/UnitSphere.js:2-5 | a fresh eight-entry zero pose and the given four scales |
| UnitShapes.UnitShape.Sphere | quest6/lib/DS/UnitSphere.js:2-5 | zero pose, scales [0.5, 0.5, 0.5, 1] |
| UnitShapes.UnitShape.Cylinder | quest6/lib/DS/UnitCylinder.js:2-8 | zero pose, scales [0.3, 0.5, 0.3, 1] |
| UnitShapes.UnitShape.Cone | quest6/lib/DS/UnitCone.js:2-7 | zero pose, scales [0.25, 0.25, 0.5, 1] |
| UnitShapes.UnitShape.Ellipsoid | quest6/lib/DS/UnitEllipsoid.js:2-6 | zero pose, scales [0.3, 0.2, 0.4, 1] |
| UnitShapes.UnitShape.Torus | quest6/lib/DS/UnitTorus.js:2-7 | zero pose, scales [0.5, 0.15, 0, 1] |
| UnitShapes.UnitShape.UpdatePose | quest6/lib/DS/UnitSphere.js:7-9 | the pose becomes entries 0..7 of the argument; the scales are untouched |
| VolumeData.Voxel | quest7/lib/DS/VolumeData.js:36 | (x ^ y ^ z) & 255 is at most 255 |
| VolumeData.DivModUnique | quest7/lib/DS/VolumeData.js:35 | a = q d + r with 0 <= r < d fixes a / d and a % d |
| VolumeData.MulAtLeast | quest7/lib/DS/VolumeData.js:35 | k >= 1 gives k d >= d |
| VolumeData.DivBelow | quest7/lib/DS/VolumeData.js:35 | k < m n gives k / m < n |
| VolumeData.DivDiv | quest7/lib/DS/VolumeData.js:35 | a / (b c) == (a / b) / c |
| VolumeData.DecodeIdx | quest7/lib/DS/VolumeData.js:35 | an in-range triple is decoded back from its index: distinct triples get distinct slots |
| VolumeData.IdxDecode | quest7/lib/DS/VolumeData.js:30-35 | every index below d0 d1 d2 is the index of an in-range triple: the loops write every slot |
| VolumeData.FillRow | quest7/lib/DS/VolumeData.js:34-38 | the inner loop fills row y of plane z and touches nothing after it |
| VolumeData.FillPlane | quest7/lib/DS/VolumeData.js:33-39 | the middle loop fills plane z |
| VolumeData.Fill | quest7/lib/DS/VolumeData.js:30-40 | a fresh array of d0 d1 d2 floats, slot k holding the voxel of the triple k decodes to |
| VolumeData.ProceduralVolumeData.constructor | quest7/lib/DS/VolumeData.js:27-41 | dims and sizes kept; with three dims, an array of their product whose slot for (x, y, z) holds (x ^ y ^ z) & 255; with fewer, an empty array |
| VolumeData.ProceduralVolumeData.Default | quest7/lib/DS/VolumeData.js:27 | dims [64, 64, 64], sizes [1, 1, 1], 262144 voxels, each its XOR value |
| VolumeData.IdxBelow | quest7/lib/DS/VolumeData.js:30-35 | the index of an in-range triple lies below n |
| VolumeData.FilledTriples | quest7/lib/DS/VolumeData.js:32-38 | a volume filled slot by slot holds each in-range triple's XOR value at its index |
| VolumeRendering.VolumeFile | quest7/lib/DSViz/VolumeRenderingSimpleObject2.js:32-40 | modes 0, 1 and 2 load the PD, T1 and T2 scans; every other mode the procedural volume |
| VolumeRendering.Header | quest7/lib/DSViz/VolumeRenderingSimpleObject2.js:69 | dims, a zero pad, sizes, a zero pad: dims.length + sizes.length + 2 words |
| VolumeRendering.UploadExact | quest7/lib/DSViz/VolumeRenderingSimpleObject2.js:72-77 | a buffer of exactly the data's byte length, written at 0, holds the data |
| VolumeRendering.FileVolume.constructor | quest7/lib/DS/VolumeData.js:49-51 | the file name kept, nothing read yet |
| VolumeRendering.FileVolume.Init | quest7/lib/DS/VolumeData.js:53-58 | dims, sizes and data become what the read returned |
| VolumeRendering.VolumeRenderingSimpleObject.constructor | quest7/lib/DSViz/VolumeRenderingSimpleObject2.js:28-41 | a file volume named by VolumeFile for modes 0 to 2, otherwise a fresh default procedural volume |
| VolumeRendering.VolumeRenderingSimpleObject.CreateGeometry | quest7/lib/DSViz/VolumeRenderingSimpleObject2.js:43-78 | a file volume is loaded first; the camera image; a header buffer of (dims + sizes + 2) * 4 bytes holding the header exactly; a data buffer of data.length * 4 bytes holding every voxel |
| VolumeRendering.VolumeRenderingSimpleObject.Upload | quest7/lib/DSViz/VolumeRenderingSimpleObject2.js:52-77 | the camera image; a header buffer of (dims + sizes + 2) * 4 bytes holding the header exactly; a data buffer of data.length * 4 bytes holding every voxel |
| VolumeRendering.VolumeRenderingSimpleObject.UpdateGeometry | quest7/lib/DSViz/VolumeRenderingSimpleObject2.js:80-84 | the camera takes the image size, written at byte 72, resyncing a buffer stale only there; only the camera buffer changes; volume and data buffers and extents kept |
| VolumeRendering.VolumeRenderingSimpleObject.UpdateCameraPose | quest7/lib/DSViz/VolumeRenderingSimpleObject2.js:86-88 | the pose at byte 0, resyncing a buffer stale only there; only the camera buffer changes; volume and data buffers and extents kept |
| VolumeRendering.VolumeRenderingSimpleObject.UpdateCameraFocal | quest7/lib/DSViz/VolumeRenderingSimpleObject2.js:90-93 | the focal at byte 64, resyncing a buffer stale only there; only the camera buffer changes; volume and data buffers and extents kept |
| VolumeRendering.VolumeRenderingSimpleObject.CreateBindGroup | quest7/lib/DSViz/VolumeRenderingSimpleObject2.js:138-151 | the workgroup extents are the texture's size; only the extents change |
| VolumeRendering.VolumeRenderingSimpleObject.Compute | quest7/lib/DSViz/VolumeRenderingSimpleObject2.js:153-164 | the projective pipeline exactly when the camera is projective; ceil(w / 16) x ceil(h / 16) groups that cover the image with none wholly outside |
| GridGeometry.Validate | quest5/lib/DS/TwoDGridSegmented.js:41-47 | no error exactly when the polygon is non-empty, its first point has two coordinates and the grid size is an integer >= 1; the dimension check comes first |
| GridGeometry.Points | quest5/lib/DS/TwoDGridSegmented.js:40 | one point per vertex of the input, in order |
| GridGeometry.Dirs | quest5/lib/DS/TwoDGridSegmented.js:48-56 | one direction per edge, dirs[i] = v[i+1] - v[i] |
| GridGeometry.ExtentContains | quest5/lib/DS/TwoDGridSegmented.js:51-61 | after at least one edge the running min/max box contains every vertex seen |
| GridGeometry.PaddedBoxOk | quest5/lib/DS/TwoDGridSegmented.js:62-64 | padding a box of positive extent (or the untouched +-1e15 bounds) never yields empty or inverted cells |
| GridGeometry.MakeGeometryOk | quest5/lib/DS/TwoDGridSegmented.js:48-64 | every polygon whose box has positive width and height yields consistent grid parameters with positive cell extents |
| GridGeometry.GridCellsCard | quest5/lib/DS/TwoDGridSegmented.js:75-77 | a set of grid cells has at most gridSize^2 elements |
| GridGeometry.CellsTile | quest5/lib/DS/TwoDGridSegmented.js:78-87 | the cell boxes tile the padded bounding box: first at its lower corner, neighbours sharing sides, last at its upper corner |
| GridGeometry.CellIdx | quest5/lib/DS/TwoDGridSegmented.js:90-97 | [-1, -1] or a cell of the grid |
| GridGeometry.CellIdxContains | quest5/lib/DS/TwoDGridSegmented.js:90-97 | a returned cell's half-open box contains the point |
| GridGeometry.CellIdxTotal | quest5/lib/DS/TwoDGridSegmented.js:90-97 | every point of the half-open padded box gets a cell |
| GridGeometry.PointOnSegmentEnds | quest5/lib/DS/TwoDGridSegmented.js:68-72 | parameter 0 is vertex i and parameter 1 is vertex i + 1 |
| GridGeometry.Above | quest5/lib/DS/TwoDGridSegmented.js:134 | exactly the hits greater than t + 1e-12 |
| GridGeometry.MinOf | quest5/lib/DS/TwoDGridSegmented.js:140 | a member of the list no greater than any other |
| GridGeometry.WalkFacts | quest5/lib/DS/TwoDGridSegmented.js:121-149 | every push of the walk lands in the grid with an entry of edge i and 0 <= t0 < t1 <= 1; the first starts at t, each starts where the previous ended; at most 999999 pushes |
| GridGeometry.EdgePushesOk | quest5/lib/DS/TwoDGridSegmented.js:110-150 | every push for edge i lands in the grid with a well-formed entry of edge i |
| GridGeometry.DegenerateEdgeSkipped | quest5/lib/DS/TwoDGridSegmented.js:115-120 | an edge with both direction components below 1e-14 contributes something exactly when both its ends lie in the same grid cell |
| GridGeometry.AllPushesOk | quest5/lib/DS/TwoDGridSegmented.js:108-152 | every push of a full pass lands in the grid with a well-formed entry |
| GridGeometry.CellSegsOk | quest5/lib/DS/TwoDGridSegmented.js:108-152 | every entry a pass appends to a cell is well formed, and the cell is in the grid |
| GridGeometry.SingleCellFirstEdge | quest5/lib/DS/TwoDGridSegmented.js:115-117 | with gridSize 1, the first edge is stored whole, as [0, 0, 1], in cell [0, 0] |
| GridGeometry.VertexInSingleCell | quest5/lib/DS/TwoDGridSegmented.js:90-97 | with gridSize 1, every vertex lies in cell [0, 0] |
| GridGeometry.CellSegsAppend | quest5/lib/DS/TwoDGridSegmented.js:108-152 | the entries a cell receives from two push lists in turn are the concatenation of what each sends it |
| GridGeometry.WindingBounded | quest5/lib/DS/TwoDGridSegmented.js:213-228 | |w1| + |w2| never exceeds the number of edges that straddle the horizontal through p |
| GridGeometry.WindingNeedsTwoCrossings | quest5/lib/DS/TwoDGridSegmented.js:213-230 | a point reported inside has at least two straddling edges |
| GridGeometry.ClampedParam | quest5/lib/DS/TwoDGridSegmented.js:248-252 | the parameter lies in [0, 1] |
| GridGeometry.ClampedParamIsClosest | quest5/lib/DS/TwoDGridSegmented.js:248-256 | the clamped parameter gives the point of the segment nearest p (segments of positive length, or single points) |
| GridGeometry.QuadraticClampedMin | quest5/lib/DS/TwoDGridSegmented.js:250-252 | s^2 L - 2 s A with L > 0 is least over [0, 1] at A / L clamped to [0, 1] |
| GridGeometry.SegDist2 | quest5/lib/DS/TwoDGridSegmented.js:253-256 | the squared distance is non-negative |
| GridGeometry.FirstMin | quest5/lib/DS/TwoDGridSegmented.js:257-261 | the kept index lies among the first n |
| GridGeometry.FirstMinIsFirstMinimal | quest5/lib/DS/TwoDGridSegmented.js:257-261 | the kept distance is no greater than any, and strictly smaller than every earlier one: the first of the least |
| GridGeometry.BestIsNearest | quest5/lib/DS/TwoDGridSegmented.js:240-264 | no point of any entry is nearer to p than the closest point of the kept entry |
| TwoDGrid.AddSegs | quest5/lib/DS/TwoDGridSegmented.js:135-147 | the entries appended in order, the box kept, MIXED once anything was appended |
| TwoDGrid.AddSegsTwice | quest5/lib/DS/TwoDGridSegmented.js:135-147 | appending in two steps is appending the concatenation |
| TwoDGrid.OppositeNeighbour | quest5/lib/DS/TwoDGridSegmented.js:163 | each of the four moves has an opposite move that undoes it |
| TwoDGrid.InitRepeatsEntry | quest5/lib/DS/TwoDGridSegmented.js:292-295 | with gridSize 1, the list init leaves in the cell holds [0, 0, 1] at two positions: the first pass repeated |
| TwoDGrid.TwoDGridSegmented.constructor | quest5/lib/DS/TwoDGridSegmented.js:38-66 | grid parameters from the polygon, every cell [its tiling box, [], UNKNOWN] |
| TwoDGrid.TwoDGridSegmented.DirsAndExtent | quest5/lib/DS/TwoDGridSegmented.js:48-61 | the edge directions and the min/max box over all edges, from +-1e15 |
| TwoDGrid.TwoDGridSegmented.InitCells | quest5/lib/DS/TwoDGridSegmented.js:74-88 | every cell holds its tiling box, no entries, UNKNOWN |
| TwoDGrid.TwoDGridSegmented.InitRow | quest5/lib/DS/TwoDGridSegmented.js:82-86 | every cell of row y gets the box x0 = bx0 + x * dx, y0 = by0 + y * dy, x0 + dx, y0 + dy; its list and label, and every other row, stay as they were |
| TwoDGrid.TwoDGridSegmented.PushEntry | quest5/lib/DS/TwoDGridSegmented.js:135-147 | one entry appended to one cell, which becomes MIXED; no other cell changes |
| TwoDGrid.TwoDGridSegmented.RasterizeEdge | quest5/lib/DS/TwoDGridSegmented.js:111-150 | the cells receive exactly the pushes specified for edge i |
| TwoDGrid.TwoDGridSegmented.RasterizeNext | quest5/lib/DS/TwoDGridSegmented.js:110-150 | after the pushes of edges 0 .. i - 1, one more round leaves the cells holding the pushes of edges 0 .. i, in order |
| TwoDGrid.TwoDGridSegmented.RasterizeAll | quest5/lib/DS/TwoDGridSegmented.js:108-151 | starting from cells with no recorded pushes, the cells end up holding exactly the pushes of one pass over all edges, in order |
| TwoDGrid.TwoDGridSegmented.NextPush | quest5/lib/DS/TwoDGridSegmented.js:129-145 | no push exactly when the specified walk ends here; otherwise the push and whether it is the last are those of the specification |
| TwoDGrid.TwoDGridSegmented.WalkIterate | quest5/lib/DS/TwoDGridSegmented.js:123-149 | one iteration moves the pushes from the remaining walk to the done list, counting one step |
| TwoDGrid.TwoDGridSegmented.WalkEdge | quest5/lib/DS/TwoDGridSegmented.js:121-149 | the while-loop performs the specified walk of edge i from parameter 0 |
| TwoDGrid.TwoDGridSegmented.ComputeCellLineSegments | quest5/lib/DS/TwoDGridSegmented.js:108-152 | every cell receives, in order, the entries of one pass over all edges, becoming MIXED when it receives any; boxes unchanged |
| TwoDGrid.TwoDGridSegmented.CoherentNoBorder | quest5/lib/DS/TwoDGridSegmented.js:181-195 | in a coherent grid no UNKNOWN cell touches an INTERIOR or EXTERIOR one |
| TwoDGrid.TwoDGridSegmented.VisitNeighbour | quest5/lib/DS/TwoDGridSegmented.js:181-195 | one move from u keeps the flood-fill invariant: UNKNOWN neighbours join the region, labelled ones set the connected label |
| TwoDGrid.TwoDGridSegmented.ExpandTop | quest5/lib/DS/TwoDGridSegmented.js:179-195 | popping the top cell and visiting its neighbours keeps the invariant with that cell expanded |
| TwoDGrid.TwoDGridSegmented.FloodRegion | quest5/lib/DS/TwoDGridSegmented.js:164-196 | the region holds the seed and only UNKNOWN cells; uncapped, it is closed under the four moves and the label is one met on its border (UNKNOWN when none is met); capped gives EXTERIOR, and cannot happen when gridSize^2 <= 200000 |
| TwoDGrid.TwoDGridSegmented.LabelRegion | quest5/lib/DS/TwoDGridSegmented.js:206-209 | exactly the region's cells take the label; a coherent grid stays coherent when the region is closed and meets no label |
| TwoDGrid.TwoDGridSegmented.FillFrom | quest5/lib/DS/TwoDGridSegmented.js:164-209 | the region of the seed gets INTERIOR or EXTERIOR, nothing else changes; in a coherent grid below the cap the label is the winding verdict at the seed's box midpoint and the grid stays coherent |
| TwoDGrid.TwoDGridSegmented.IsInsideWindingNumber | quest5/lib/DS/TwoDGridSegmented.js:213-230 | the verdict of the two counters over all edges |
| TwoDGrid.TwoDGridSegmented.CollectUnknown | quest5/lib/DS/TwoDGridSegmented.js:156-162 | exactly the UNKNOWN cells, in row-major order |
| TwoDGrid.TwoDGridSegmented.LabelAll | quest5/lib/DS/TwoDGridSegmented.js:164-210 | afterwards no cell is UNKNOWN, boxes and entries are unchanged, labelled cells keep their label, and coherence is kept below the cap |
| TwoDGrid.TwoDGridSegmented.AssignCellTypes | quest5/lib/DS/TwoDGridSegmented.js:154-211 | every cell receives one more pass of entries and is then labelled; INTERIOR/EXTERIOR cells that receive nothing keep their label; coherence is kept below the cap |
| TwoDGrid.TwoDGridSegmented.ClosestPointAndSegment | quest5/lib/DS/TwoDGridSegmented.js:240-264 | no segment and [0, 0] exactly for an empty list; otherwise the first entry of least distance and its closest point |
| TwoDGrid.TwoDGridSegmented.IsInside | quest5/lib/DS/TwoDGridSegmented.js:232-238 | an error for an empty list; otherwise whether p is on or left of the closest entry |
| TwoDGrid.TwoDGridSegmented.RowPartEmpty | quest5/lib/DS/TwoDGridSegmented.js:278-285 | a row of a search round gathers nothing exactly when none of its grid cells is MIXED |
| TwoDGrid.TwoDGridSegmented.SquareEmpty | quest5/lib/DS/TwoDGridSegmented.js:275-286 | the round of radius r gathers nothing exactly when no MIXED cell lies within r in both directions |
| TwoDGrid.TwoDGridSegmented.GatheredEmpty | quest5/lib/DS/TwoDGridSegmented.js:273-288 | the search loop from radius r ends empty exactly when r reaches max(10, gridSize) or the grid has no MIXED cell |
| TwoDGrid.TwoDGridSegmented.LocalSegmentsEmpty | quest5/lib/DS/TwoDGridSegmented.js:272-288 | the gathered list is empty exactly when the grid has no MIXED cell |
| TwoDGrid.TwoDGridSegmented.LocalSegmentsOk | quest5/lib/DS/TwoDGridSegmented.js:272-288 | every gathered entry is well formed |
| TwoDGrid.TwoDGridSegmented.SearchRow | quest5/lib/DS/TwoDGridSegmented.js:278-285 | nothing when row c.y + oy lies outside the grid; otherwise appends, in column order, the lists of the MIXED cells of that row inside the grid within r columns of c |
| TwoDGrid.TwoDGridSegmented.SearchRound | quest5/lib/DS/TwoDGridSegmented.js:275-286 | appends the lists of the MIXED cells of the square of radius r |
| TwoDGrid.TwoDGridSegmented.LocalSearch | quest5/lib/DS/TwoDGridSegmented.js:272-288 | the list the search loop specifies |
| TwoDGrid.TwoDGridSegmented.LocalQuery | quest5/lib/DS/TwoDGridSegmented.js:272-289 | the negated isInside verdict on the gathered list; an error exactly for an UNKNOWN cell in a grid without MIXED cells |
| TwoDGrid.TwoDGridSegmented.IsOutsideAssumeLocalConvex | quest5/lib/DS/TwoDGridSegmented.js:266-290 | outside the box: true; INTERIOR: false; EXTERIOR: true; otherwise the negated verdict of the closest gathered entry; an error exactly for an UNKNOWN cell in a grid without MIXED cells |
| TwoDGrid.TwoDGridSegmented.Create | quest5/lib/DS/TwoDGridSegmented.js:38-66 | the constructor's errors in order (2-D check, grid size, degenerate box), and a fresh grid exactly when none applies |
| TwoDGrid.TwoDGridSegmented.Init | quest5/lib/DS/TwoDGridSegmented.js:292-295 | as written: every cell receives the pass's entries twice, and no cell stays UNKNOWN |
| TwoDGrid.TwoDGridSegmented.InitOnce | quest5/lib/DS/TwoDGridSegmented.js:292-295 | every cell receives the pass's entries once, no cell stays UNKNOWN, coherence kept below the cap |

## Left out

- WebGPU itself: buffers, shader modules, pipelines, bind groups, command encoders and passes.  A buffer is a sequence of words, `writeBuffer` is `GpuBuffer.Write`, and a dispatch or draw is a record of its sizes.
- The WGSL shaders, including the constraint kernel of quest5/lib/DSViz/DeformablePolygonObject.js:181-218.  That kernel runs in parallel with racing writes to neighbouring vertices; only the gravity kernel is modelled, as a sequential pass.
- The PGA2D and PGA3D motor algebra.  This covers the 3-D camera's moves and rotations (quest6/lib/Viz/3DCamera2.js:42-83), the 2-D camera's motor products, the spaceship's slerp and hover motors, and `PGA2D.isInside`, which is the `side` parameter of the winding test.
- Floating-point and Float32Array rounding: coordinates are reals, so properties such as the focal clamp hold over reals.
- Math.sqrt, Math.hypot, Math.sin and Math.cos: their values come in as parameters, with the range the code relies on.
- Math.random: draws are input sequences of values in [0, 1).
- File loading: Polygon file parsing and VolumeByteIO.  The volume renderer takes what a scan read returns as a parameter, and the deformable polygon's reset does not reload the file.
- The entry scripts, the HTTP helpers, AnimatedSpaceshipObject and AnimatedOrbitObject: DOM, input, timers and animation-loop glue.
- The SceneObject base class.  Its flags (the shadow mode, the light intensity, the vertex-buffer dirty flag) become fields of the modelled classes; the Game-of-Life cell-state buffers it would hold are not modelled.
- The undefined globals of the ray tracers (`hitPoint`, `normal`, `Vector3`, `Ray`, `sphere`, `lightPosition`, and `traceScene`, which RayTracingObject.js:82 calls as a global).  These come in as parameters instead of raising ReferenceErrors, and the light jitter and shadow-ray vector arithmetic are not modelled.
- RayBoxShadows.CalculateSDFSoftShadows: marches exactly 1000 steps of 0.01.  In floating point the accumulated t stays below 10 for one more step.
- GridGeometry.FiniteHits: hit parameters that divide by a zero direction component (infinities and NaN) are dropped.  NaN and -Infinity never pass the walk's filter, and +Infinity only ever leads to the same "push up to 1 and stop" as having no hit.
- TwoDGrid.TwoDGridSegmented.Create: rejects with `DegenerateBox` a polygon whose box has zero width or height.  The source accepts such a polygon at construction, with zero-width or zero-height cells.  Its init then throws a TypeError at the first edge not skipped as degenerate, or completes when every edge is below 1e-14 in both components; neither outcome is modelled.
- TwoDGrid.TwoDGridSegmented.IsOutsideAssumeLocalConvex: where the source throws a TypeError on a null segment, the model returns `Err(NoSegments)`.
- TwoDGrid.TwoDGridSegmented.FloodRegion: when the cap of 200000 pops triggers, the region is labelled EXTERIOR (`capped`).  The coherence of the labels is proved only for grids of at most 200000 cells, where the cap cannot trigger.
- Camera2D.Camera.ZoomOut: requires the viewport's width and height times 1.1 to be at most 2.  Without that, the source recurses forever (see Findings), and `ZoomOutOnce` models the call that always returns.
- GridGeometry.Validate: only the first point's length is checked, as in the source.  An empty point list, on which the source throws a TypeError reading `[0].length`, is reported as `NotTwoDimensional`.
- GridGeometry.ToPoint: a later point with fewer than two coordinates reads the missing ones as 0.  In JavaScript they are `undefined` and turn every computation with them into NaN.
- Circle.CircleMaker: the default arguments of `circleMaker` (radius 0.3, 72 segments, 200 dots) are not modelled; every call passes all three.
- Camera3D.Camera.UpdatePose: requires a motor of at least 16 entries.  With a shorter one the source copies `undefined` into the Float32Array, which stores NaN.
- UnitShapes.UnitShape.UpdatePose: requires a pose of at least 8 entries, for the same reason.
- Laplacian.MeshOk and Laplacian.FacesOk: neighbour and face indices must lie inside the vertex list and faces need three corners.  On other input the source reads `undefined` and throws a TypeError, which the model does not represent.
- The asynchronous interleaving of the Game-of-Life objects' `toggleRule` and `refreshSimulation` with rendering: the methods state what holds once they complete.

## Findings

| source | as written | input that shows it | evidently intended | confidence | as-written member | corrected member |
|---|---|---|---|---|---|---|
| quest5/lib/DS/TwoDGridSegmented.js:292-295 | `init` calls computeCellLineSegments and then assignCellTypes, which calls it again (line 155), so every cell stores each segment entry twice | any polygon with gridSize 1: cell [0, 0] holds the entry [0, 0, 1] of the first edge at two positions | each entry stored once | high, not executed | TwoDGrid.InitRepeatsEntry | TwoDGrid.TwoDGridSegmented.InitOnce |
| lib/DSViz/circle.js:32 | totalFloats counts 3 vertices per dot, but the dot loop writes 3 vertices per dot and per segment (lines 90-122); writes past the end of the Float32Array are dropped | numSegments = 72, numDots = 1: 1314 floats allocated, 2592 written | an array of (numSegments + numDots * numSegments) * 3 * 6 floats | high, not executed | Circle.StreamOverflows | Circle.CircleMaker |
| quest3/lib/Viz/2DCamera.js:101-143 | when the zoomed viewport does not fit, zoomOut recentres and calls itself again; if width * 1.1 > 2 the recentred viewport still does not fit | the viewport right after construction, [-1, 1]^2, whose width 2 times 1.1 exceeds 2 | stop zooming out when the viewport cannot grow | high, not executed | Camera2D.InitialViewDiverges | Camera2D.Camera.ZoomOutOnce |
