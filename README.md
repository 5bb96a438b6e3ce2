# racani-seminar-2021 — a verified model of the event and shape core

This project models the interactive core of a small OpenGL teaching framework, written in C++.

**Event sources.** Listeners register with an `ob::observer` registry. Platform callbacks then dispatch each event to every registered listener in order, and a listener that votes `detach` is erased during the dispatch. The model covers four sources:
- the keyboard;
- the window resize source;
- the raw mouse source;
- the drag-gesture tracker `mouse_events`. It turns left-button clicks and cursor moves into started, moved and finalized events for the leg of the gesture in progress.

**Shapes.** The shapes are listeners on those sources:
- a colour key listener, shared by every shape;
- a free line;
- a Bresenham line, whose `draw` rasterises the segment with an error accumulator;
- an N-gon that grows one vertex per leg and locks on its N-th vertex;
- a scanline polygon. Its `finalize` orients the contour clockwise, finds the lowest vertex and splits the boundary into a left and a right edge chain. It also has a half-plane hit test.

**Mesh, scene and camera.** The mesh pipeline, `generic_mesh` with `simple_vertex_policy`, works in four steps:
1. It reads `v` and `f` commands from the file's tokens.
2. It rebases the 1-based indices.
3. It rescales the vertices. Per axis, every coordinate lands in [-1, 1]. With the aspect ratio kept (the default of `from_file`), only the widest axis spans [-1, 1]; the other axes use the same factor from that axis's minimum and can leave the interval.
4. It triangulates every face as a fan, each corner carrying the plane of its triangle. Its `is_inside` tests a point against every plane.

The scene keeps its objects with visibility flags. The camera's key controller moves one mask component per key.

**How the model is built.**
- Code that mutates state is written as classes: the registry, the tracker, the shapes, the scene, the camera and the mesh. Their methods have `modifies` clauses, and each method is proved against a pure function of the old state.
- Loops are methods with invariants.
- A listener closure becomes a step: a function `(W, L) -> (W, Action)` that threads the state it acts on through the listeners in order.
- Floats are real numbers. The IEEE special cases the source meets are written out where they change a branch: a vertical segment's slope and a horizontal edge's ratio.

Files:
- `obmodel.dfy`: the registry and its dispatch loop.
- `keyboard.dfy`, `window.dfy`, `mouse.dfy`: the event sources.
- `glfw.dfy`: the GLFW constants.
- `primitive.dfy`: points and the vector algebra.
- `shape.dfy`: the colour listener, the line, the Bresenham line and the N-gon.
- `bresenham.dfy`: the rasteriser.
- `scanline.dfy` and `scanline_polygon.dfy`: the scanline geometry and the shape that uses it.
- `generic_mesh.dfy`: the mesh pipeline.
- `scene.dfy` and `camera.dfy`: the scene and the camera controller.

## Model

| member | source | states |
|---|---|---|
| ObModel.Underlying | 03/include/irg/obmodel.hpp:7-10 | `remain` is the enumerator with value 0 and `detach` the one with value 1 |
| ObModel.ValueInitialised | src/irg/mouse.cpp:12-13 | a value-initialised `ob::action{}` has underlying value 0, so it is `remain` |
| ObModel.RemainIndices | 03/src/irg/keyboard.cpp:13-18 | lists exactly the positions whose vote was `remain`, in increasing order |
| ObModel.RunKeepsRemaining | 03/src/irg/keyboard.cpp:13-18 | a dispatch pass collects one vote per listener; the listeners left afterwards are exactly those that voted `remain`, in their original order, so an erasure neither skips nor repeats the next listener |
| ObModel.AllRemainKeepsAll | 03/src/irg/window.cpp:9-14 | a pass in which every listener votes `remain` leaves the registry unchanged |
| ObModel.Observer.constructor | 03/include/irg/obmodel.hpp:12-15 | a new registry has no listeners |
| ObModel.Observer.AddListener | 03/include/irg/obmodel.hpp:18-20 | the listener is appended after all registered ones |
| ObModel.Observer.Dispatch | 03/src/irg/keyboard.cpp:13-18 | the erase-while-iterating loop produces the final state, the votes and the survivors of the specification pass `Run` |
| ObModel.Observer.Notify | src/irg/mouse.cpp:78-79 | the range-for over handlers that return nothing threads the state through every listener in order and changes no registration |
| Keyboard.Callback | 03/src/irg/keyboard.cpp:7-19 | an action other than press or release changes nothing; otherwise every listener gets (key, action == RELEASE) once, in order, and the detaching ones are erased |
| Window.BufferSizeCallback | 03/src/irg/window.cpp:7-15 | every resize goes, unfiltered, to every listener once, in order, and the detaching ones are erased |
| Mouse.SafeInvoke | src/irg/mouse.cpp:7-14 | a present handler is called; an absent one leaves the state unchanged and yields the value-initialised action |
| Mouse.SafeNotify | src/irg/mouse.cpp:7-14 | a present handler is called; an absent one does nothing |
| Mouse.AbsentHandlerRemains | src/irg/mouse.cpp:12-13 | an absent `finalized` handler never detaches |
| Mouse.SimpleMoveCallback | src/irg/mouse.cpp:18-37 | with no listeners nothing happens; otherwise the normalised cursor goes to every `moved` handler, with erasure on `detach` |
| Mouse.SimpleClickCallback | src/irg/mouse.cpp:39-62 | only a left-button press reaches the listeners, and only when some exist; the normalised cursor goes to every `clicked` handler, with erasure on `detach` |
| Mouse.MouseEvents.constructor | src/irg/mouse.cpp:65 | the global tracker starts idle, with the all-zero segment and no listeners |
| Mouse.MouseEvents.AddListener | 03/include/irg/obmodel.hpp:18-20 | the gesture listener is appended to the tracker's registry |
| Mouse.MouseEvents.MoveCallback | src/irg/mouse.cpp:67-80 | while idle nothing changes; while tracking the cursor becomes the segment's end, every `moved` handler sees the new segment and nobody is erased |
| Mouse.MouseEvents.ClickCallback | src/irg/mouse.cpp:82-121 | other buttons and actions change nothing. An idle click moves the segment's start, notifies `started` and begins tracking. A tracking click ends the leg and dispatches `finalized` with erasure; if nobody detached, the next leg starts at the click, otherwise the tracker goes idle |
| Primitive.SamePoint | include/irg/primitive.hpp:40-42 | point equality holds exactly when both coordinates agree |
| Primitive.Swap | include/irg/primitive.hpp:34-38 | both coordinates of the two points are exchanged |
| Primitive.ScaleNormalize | include/irg/primitive.hpp:45-51 | `scale` undoes `normalize` for every window with non-zero sides |
| Primitive.NormalizeScale | include/irg/primitive.hpp:45-51 | `normalize` undoes `scale` |
| Primitive.NormalizeCorners | include/irg/primitive.hpp:45-47 | the window's top-left pixel maps to device (-1, 1) and its bottom-right corner to (1, -1) |
| Primitive.Homogenous | include/irg/primitive.hpp:53-56 | keeps x and y and sets z to 1 |
| Primitive.NonHomogenous | include/irg/primitive.hpp:58-61 | keeps x and y without dividing by z |
| Primitive.NonHomogenousHomogenous | include/irg/primitive.hpp:53-61 | dropping z after adding it gives back the point |
| Primitive.CrossPerpendicular | src/irg/shape.cpp:222 | the cross product the hit test uses is perpendicular to both of its factors |
| Primitive.TripleSwap | src/irg/shape.cpp:167-170 | exchanging two factors of the orientation triple product negates it |
| Primitive.TripleRotate | src/irg/shape.cpp:167-170 | the triple product is invariant under rotation of its factors |
| Shape.ColourKey | include/irg/shape.hpp:26-40 | while unlocked, R, B, G and W select red, blue, green and white and other keys keep the colour; the vote is `detach` exactly when the shape is locked, and then the colour is kept |
| Shape.ShapeCore.constructor | include/irg/shape.hpp:20-23 | a shape starts white and unlocked |
| Shape.ShapeCore.OnKey | include/irg/shape.hpp:27-40 | the colour listener's effect and vote are those of `ColourKey` |
| Shape.Line.constructor | src/irg/shape.cpp:12-24 | the buffer starts as the degenerate segment at the start point, unlocked |
| Shape.Line.Moved | src/irg/shape.cpp:28 | the buffer follows the gesture's segment |
| Shape.Line.Finalized | src/irg/shape.cpp:29-33 | locks, keeps the final segment and detaches |
| Shape.Adjust | include/irg/shape.hpp:73-77 | both ends move 0.02 down; the x coordinates and the direction vector are unchanged |
| Shape.BresenhamLine.constructor | src/irg/shape.cpp:50-53 | starts with the adjusted degenerate segment, unlocked |
| Shape.BresenhamLine.Moved | src/irg/shape.cpp:56-58 | the stored segment is the adjusted gesture segment |
| Shape.BresenhamLine.Finalized | src/irg/shape.cpp:59-63 | locks, stores the adjusted final segment and detaches |
| Shape.PolygonMoved | include/irg/shape.hpp:97-99 | only the last, open vertex changes; it becomes the segment's end |
| Shape.PolygonFinalized | include/irg/shape.hpp:100-110 | the leg's end closes the open vertex. With N vertices the polygon locks and detaches; otherwise a copy of the closed vertex is pushed and the listener remains |
| Shape.LegsBuildPolygon | include/irg/shape.hpp:93-110 | over a run of legs each finalize adds the leg's end: the size never exceeds N, the polygon is locked exactly when the listener detached, and that happens on the leg that brings it to N vertices |
| Shape.PolygonLocksOnLastLeg | include/irg/shape.hpp:93-110 | a polygon started by a click locks on its (N-1)-th leg; its vertices are the start point and the N-1 leg ends |
| Shape.PolygonDrawMode | include/irg/shape.hpp:139-140 | lines when there are fewer than three vertices or the second and third coincide, otherwise a triangle fan |
| Shape.PolygonDrawnFilled | include/irg/shape.hpp:93-140 | a gesture polygon is drawn as lines at first; once complete it is drawn as a fan, unless its first two leg ends coincide |
| Shape.Polygon.constructor | include/irg/shape.hpp:93-94 | two copies of the start point, unlocked |
| Shape.Polygon.FromVertices | include/irg/shape.hpp:114-115 | keeps the first N of the given vertices |
| Shape.Polygon.Moved | include/irg/shape.hpp:97-99 | the new state is `PolygonMoved` of the old one |
| Shape.Polygon.Finalized | include/irg/shape.hpp:100-110 | the new state and the vote are `PolygonFinalized` of the old state |
| Shape.Polygon.DrawMode | include/irg/shape.hpp:139-140 | chooses the mode `PolygonDrawMode` specifies |
| Bresenham.SetUp | src/irg/shape.cpp:76-90 | the axes are exchanged exactly for a steep segment; the working slope lies in [-1, 1]; the minor step is its sign; the endpoints are the (exchanged) segment's ends, ordered by x |
| Bresenham.SlopeBounded | src/irg/shape.cpp:76-85 | taking the reciprocal of a steep slope brings it into [-1, 1] |
| Bresenham.SlopeIsRiseOverRun | src/irg/shape.cpp:76-88 | in the working frame the slope is the rise of the minor coordinate over the run of the major one, for either axis choice and endpoint order |
| Bresenham.WalkMajor | src/irg/shape.cpp:94 | point k lies k units along the major axis from the start, and points are produced exactly until the end's x is reached, never at it |
| Bresenham.WalkMinorSteps | src/irg/shape.cpp:96-99 | between consecutive points the minor coordinate moves by the step or stays, and it moves exactly when the accumulated decision variable has the step's sign |
| Bresenham.WalkNearLine | src/irg/shape.cpp:90-100 | starting within 1/2 of the ideal line, every point stays within 1/2 of it |
| Bresenham.WalkFromStart | src/irg/shape.cpp:90-100 | from the source's initial decision value, the first point is the start, the points are unit-spaced along the major axis and every minor coordinate is within 1/2 of the exact line |
| Bresenham.RasterNearLine | src/irg/shape.cpp:74-100 | the same holds for the raster of any segment in window pixels |
| Bresenham.RasterExample | src/irg/shape.cpp:90-100 | the segment (0,0)-(5,2) rasterises to (0,0), (1,0), (2,1), (3,1), (4,2) |
| Bresenham.Draw | src/irg/shape.cpp:67-100 | the emitted points are the raster points, turned back to (x, y) and normalised, one for each, in order |
| Scanline.SuccIsMod | src/irg/shape.cpp:167-169 | the cyclic successor is `(i + 1) % n`, and applied twice it is `(i + 2) % n` |
| Scanline.YMinScan | src/irg/shape.cpp:163-175 | after k steps the candidate is at most 1.5; below 1.5 it is the y of a vertex already seen, every seen vertex is at least as high, and every earlier one is strictly higher |
| Scanline.YMinIndex | src/irg/shape.cpp:163-175 | the first vertex of strictly smallest y, or 0 when no vertex lies below 1.5 |
| Scanline.Reversed | src/irg/shape.cpp:181 | `std::reverse`: element i is the old element n-1-i |
| Scanline.ReversedTwice | src/irg/shape.cpp:181 | reversing twice restores the list |
| Scanline.RemapSameVertex | src/irg/shape.cpp:182 | the remapped index n-1-ymin_idx names the same vertex in the reversed list, and that vertex is again lowest |
| Scanline.TurnReversed | src/irg/shape.cpp:167-181 | the turn of the reversed list at i is minus the turn of the original at the mirrored triple |
| Scanline.AnticlockwiseReversed | src/irg/shape.cpp:178-181 | reversing an anticlockwise contour makes it clockwise |
| Scanline.MakeEdge | src/irg/shape.cpp:185-198 | the y range is ordered upper then lower; the edge is horizontal exactly when its ends have the same y; otherwise its line passes through both ends |
| Scanline.EdgeThroughEnds | src/irg/shape.cpp:188-197 | a line with ratio dx/dy anchored at either end passes through both ends |
| Scanline.PosInLap | src/irg/shape.cpp:184 | within one lap, the walk's index after k steps is start + k, wrapped once |
| Scanline.WalkStops | src/irg/shape.cpp:200-201 | the stopping test first holds on the n-th pair, so every cyclic pair is visited exactly once |
| Scanline.Chains | src/irg/shape.cpp:184-202 | after k iterations the two chains hold k edges together |
| Scanline.LeftChainHoldsRising | src/irg/shape.cpp:185-191 | the left chain holds every rising edge of the walk and nothing else |
| Scanline.RightChainHoldsRest | src/irg/shape.cpp:192-198 | the right chain holds every other edge of the walk and nothing else |
| Scanline.RightChainOrder | src/irg/shape.cpp:184-202 | the right chain is the walk's non-rising edges in walk order, each having been appended |
| Scanline.LeftChainOrder | src/irg/shape.cpp:184-202 | the left chain is the walk's rising edges in reverse walk order, each having been put in front |
| Scanline.Finalize | src/irg/shape.cpp:159-202 | the vertices are kept when clockwise and reversed otherwise; the walk starts at the lowest vertex found before any reversal; the chains hold n edges together |
| Scanline.FinalizeClockwise | src/irg/shape.cpp:159-182 | a convex contour in either orientation is clockwise once finalised |
| Scanline.FinalizeStartsLowest | src/irg/shape.cpp:173-184 | the walk starts at a lowest vertex of the final list |
| Scanline.InsideFrom | src/irg/shape.cpp:221-225 | the scan from pair i answers true exactly when the point is on the inner side of, or on, every later edge line |
| Scanline.IsInside | src/irg/shape.cpp:217-226 | false exactly when some edge line has the point strictly on its outer side |
| Scanline.ClockwiseTriangleHoldsCorners | src/irg/shape.cpp:159-226 | every corner of a clockwise triangle passes the hit test |
| Scanline.TriangleNotClockwise | src/irg/shape.cpp:166-171 | the unit right triangle entered anticlockwise fails the orientation test |
| Scanline.TriangleReversedClockwise | src/irg/shape.cpp:166-171 | the same triangle reversed passes it |
| Scanline.TriangleFinalized | src/irg/shape.cpp:159-182 | `finalize` reverses that triangle into a clockwise one |
| Scanline.TriangleFinalizedHoldsCorners | src/irg/shape.cpp:159-226 | every corner of the finalised triangle passes its hit test |
| Scanline.YMinReversed | src/irg/shape.cpp:163-175 | with a single lowest vertex below 1.5, the lowest index of the reversed list is the mirror image n - 1 - i of the original one |
| Scanline.FinalizeReversedSame | src/irg/shape.cpp:159-202 | a contour that fails the clockwise test but passes the anticlockwise one, with a single lowest vertex below 1.5, finalises exactly as its reversal does: same vertices, same start, same chains |
| Scanline.SquareClockwise | src/irg/shape.cpp:166-171 | the unit square (0,0), (0,1), (1,1), (1,0) passes the clockwise test |
| Scanline.SquareReversedNotClockwise | src/irg/shape.cpp:166-171 | the same square reversed fails it |
| Scanline.RightChainFrom0 | src/irg/shape.cpp:184-202 | four vertices whose only rising pair is the first, walked from vertex 0, put the other three edges into the right chain in walk order |
| Scanline.RightChainFrom3 | src/irg/shape.cpp:184-202 | the same four vertices walked from vertex 3 put the closing edge first |
| Scanline.SquareTieStart | src/irg/shape.cpp:159-202 | with two equally low vertices the orientations differ: the square and its reversal both finalise to the square, but start at vertices 0 and 3, and the right chain ends with the bottom edge in one and begins with it in the other |
| ScanlineShape.ScanlinePolygon.constructor | src/irg/shape.cpp:123-127 | two homogeneous copies of the start point, unfilled, multiplier 1, no edges, unlocked and white |
| ScanlineShape.ScanlinePolygon.Moved | src/irg/shape.cpp:130-133 | while unlocked the open vertex follows the gesture; once locked nothing changes |
| ScanlineShape.ScanlinePolygon.Finalized | src/irg/shape.cpp:134-142 | always remains; while unlocked the leg's end closes the open vertex and a copy is pushed |
| ScanlineShape.ScanlinePolygon.OnKey | src/irg/shape.cpp:145-156 | F on an unlocked polygon locks and finalises it; DOWN doubles and UP halves the multiplier; other keys, and F once locked, change nothing; the vote is always `remain` |
| ScanlineShape.ScanlinePolygon.ReverseVertices | src/irg/shape.cpp:181 | the vertex list becomes its reversal |
| ScanlineShape.ScanlinePolygon.ScanOrientation | src/irg/shape.cpp:160-176 | the flag is the orientation predicate and the index is `YMinIndex` |
| ScanlineShape.ScanlinePolygon.WalkEdges | src/irg/shape.cpp:184-202 | the loop adds exactly the n-step chains: rising edges in front of `edges[0]`, others behind `edges[1]` |
| ScanlineShape.ScanlinePolygon.Orient | src/irg/shape.cpp:160-182 | the vertices become those of `Finalize` (kept when clockwise, reversed otherwise) and the returned index is the walk's start, the remapped lowest vertex |
| ScanlineShape.ScanlinePolygon.FinalizeEdges | src/irg/shape.cpp:159-202 | the new vertices and chains are those of `Finalize` |
| ScanlineShape.ScanlinePolygon.IsInside | src/irg/shape.cpp:217-226 | the early-return loop answers `Scanline.IsInside` |
| ScanlineShape.ScanlinePolygon.IsFinal | include/irg/shape.hpp:166 | reports the lock |
| ScanlineShape.ScanlinePolygon.SetFilled | include/irg/shape.hpp:169 | sets the fill flag |
| ScanlineShape.ScanlinePolygon.OutlineMode | src/irg/shape.cpp:248 | a closed loop exactly when locked, an open strip before |
| GenericMesh.RebaseIndices | include/irg/generic_mesh.hpp:49-51 | every index of every face is decremented in place, shapes kept; 0 wraps to the largest `unsigned` |
| GenericMesh.AxisMin | include/irg/generic_mesh.hpp:53-62 | the running minimum, started at the largest float, bounds every coordinate of the axis from below |
| GenericMesh.AxisMax | include/irg/generic_mesh.hpp:53-62 | the running maximum, started at `numeric_limits<float>::min()`, bounds every coordinate from above and is at least that start |
| GenericMesh.ExtremesAttained | include/irg/generic_mesh.hpp:53-62 | each extreme is a coordinate of the axis unless it is still its starting value |
| GenericMesh.ExtremesStep | include/irg/generic_mesh.hpp:59-62 | one more vertex updates each extreme by `std::min` or `std::max` with its coordinate |
| GenericMesh.NonPositiveAxisMax | include/irg/generic_mesh.hpp:54-62 | on an axis with no positive coordinate the computed maximum stays at the smallest positive float, strictly above every coordinate |
| GenericMesh.WithCoord | include/irg/generic_mesh.hpp:61-62 | component a is replaced and the others kept |
| GenericMesh.Mins | include/irg/generic_mesh.hpp:53-62 | component a is the axis minimum |
| GenericMesh.Maxs | include/irg/generic_mesh.hpp:53-62 | component a is the axis maximum |
| GenericMesh.Extremes | include/irg/generic_mesh.hpp:53-62 | the nested loop yields the per-axis minima and maxima |
| GenericMesh.Widest | include/irg/generic_mesh.hpp:66-72 | after k axes the scaling is non-negative and at least every range seen, and the bound stays 0 while the scaling does |
| GenericMesh.WidestPicksAxis | include/irg/generic_mesh.hpp:69-72 | a positive scaling is the range of the first axis with the largest range, and the bound is that axis's minimum |
| GenericMesh.Span | include/irg/generic_mesh.hpp:74 | the factor maps the width onto 2 |
| GenericMesh.PreservingFit | include/irg/generic_mesh.hpp:64-79 | one bound and one factor for all three axes; the factor spans the scaling |
| GenericMesh.PerAxisFit | include/irg/generic_mesh.hpp:80-91 | each axis has its own minimum as bound and a factor spanning its own range |
| GenericMesh.FitVertex | include/irg/generic_mesh.hpp:76-78 | every component becomes -1 + (x - bound) * factor |
| GenericMesh.FitAll | include/irg/generic_mesh.hpp:76-78 | every vertex is fitted, count kept |
| GenericMesh.Fitted | include/irg/generic_mesh.hpp:53-91 | `normalize_data` keeps the number of vertices |
| GenericMesh.UnitInterval | include/irg/generic_mesh.hpp:78 | the affine map sends [lo, lo + width] into [-1, 1], lo to -1 and lo + width to 1 |
| GenericMesh.AxisFitted | include/irg/generic_mesh.hpp:76-90 | on an axis within [lo, lo + width] every fitted coordinate is in [-1, 1], with the ends of the range at -1 and 1 |
| GenericMesh.UniformFit | include/irg/generic_mesh.hpp:76-78 | one bound and one factor scale every difference between vertices by that factor |
| GenericMesh.PerAxisFactor | include/irg/generic_mesh.hpp:82-86 | each per-axis factor spans that axis's range |
| GenericMesh.FitPerAxis | include/irg/generic_mesh.hpp:80-91 | without aspect preservation each axis fits into [-1, 1], its minimum at -1 and its maximum at 1 |
| GenericMesh.FitPreservesAspect | include/irg/generic_mesh.hpp:64-79 | with aspect preservation all differences are scaled by one common factor, so proportions are kept |
| GenericMesh.WidestAxisFitted | include/irg/generic_mesh.hpp:64-79 | the widest axis fills exactly [-1, 1] |
| GenericMesh.AspectFitLeavesRange | include/irg/generic_mesh.hpp:64-79 | with aspect preservation the other axes can leave [-1, 1]: for the vertices (0, 20, 0) and (10, 21, 0), x spans [-1, 1] while y lands at 3 and 3.2 |
| GenericMesh.PlaneHoldsCorners | include/irg/generic_mesh.hpp:233-246 | all three corners of a triangle lie on its plane (n, -dot(a, n)) |
| GenericMesh.TrianglesLayout | include/irg/generic_mesh.hpp:240-251 | fan triangle t takes entries 3t, 3t+1 and 3t+2: the face's first corner, corner t+1 and corner t+2 |
| GenericMesh.FanLayout | include/irg/generic_mesh.hpp:239-251 | a face of k >= 2 corners yields 3(k-2) entries in that layout |
| GenericMesh.FanOnPlanes | include/irg/generic_mesh.hpp:240-251 | every entry of a fan lies on its own plane |
| GenericMesh.TriangulateFace | include/irg/generic_mesh.hpp:240-251 | the inner loop emits the fan of the face |
| GenericMesh.ComputeBufferData | include/irg/generic_mesh.hpp:230-254 | the outer loop emits the fans of all faces, in face order |
| GenericMesh.BufferOnPlanes | include/irg/generic_mesh.hpp:230-254 | every buffer entry lies on its own plane |
| GenericMesh.InsideFrom | include/irg/generic_mesh.hpp:269-272 | the scan from entry i answers true exactly when no later plane has the point strictly on its positive side |
| GenericMesh.IsInside | include/irg/generic_mesh.hpp:267-273 | false exactly when some entry's plane has the point strictly on its positive side |
| GenericMesh.CornerOnOwnPlane | include/irg/generic_mesh.hpp:246-272 | a buffer corner always passes the test against its own triangle's plane |
| GenericMesh.ComputeFit | include/irg/generic_mesh.hpp:64-86 | the loop over the three axes computes the bound and factors `normalize_data` specifies |
| GenericMesh.FitVertices | include/irg/generic_mesh.hpp:76-90 | every vertex is fitted in place |
| GenericMesh.NormalizeData | include/irg/generic_mesh.hpp:46-94 | the buffer is the triangulation of the fitted vertices with rebased indices |
| GenericMesh.Mesh.constructor | include/irg/generic_mesh.hpp:99-107 | the mesh holds the buffer `normalize_data` computes |
| GenericMesh.Mesh.Contains | include/irg/generic_mesh.hpp:183-185 | the early-return loop answers `IsInside` on the mesh's buffer |
| GenericMesh.LeadingIntExample | include/irg/generic_mesh.hpp:165 | `stoi` of the token "12/7/3" is 12 |
| GenericMesh.PastFrom | include/irg/generic_mesh.hpp:160-169 | the skip stops just past the first token from i on that is followed by the delimiter (a space for `ss.ignore`, a line break for `in.ignore` and `getline`), or at the end of the file; no token it passes before that one is followed by the delimiter |
| GenericMesh.DigitIndices | include/irg/generic_mesh.hpp:163-165 | reading a face whose tokens are separated by single spaces: at most one index per token; when every token starts with a digit each gives its leading integer, in order; tokens without a leading digit give nothing |
| GenericMesh.FaceIndices | include/irg/generic_mesh.hpp:161-167 | the face read from the rest of an "f" line has at most one index per token |
| GenericMesh.SpacedFaceIndices | include/irg/generic_mesh.hpp:163-167 | with a single space after every token but the last, `ignore(max, ' ')` drops nothing and the face is `DigitIndices` of the tokens |
| GenericMesh.TabSeparatedFace | include/irg/generic_mesh.hpp:163-167 | with tabs between the indices the `ignore` after the first index swallows the rest of the line: the face is [1] where single spaces would give [1, 2, 3] |
| GenericMesh.ReadVertex | include/irg/generic_mesh.hpp:153-156 | the vertex reads successfully exactly when three tokens follow that extract as numbers, and those are its components; when the first extraction fails every component stays 0 |
| GenericMesh.ParseBound | include/irg/generic_mesh.hpp:152-170 | every vertex and every face read consumes at least its own command token |
| GenericMesh.LineParse | include/irg/generic_mesh.hpp:152-170 | one well-formed line read on its own: "v" one vertex from its three numbers, "f" one face from its digit tokens, anything else nothing |
| GenericMesh.ParseCounts | include/irg/generic_mesh.hpp:152-170 | a file of well-formed lines yields one vertex per "v" line and one face per "f" line |
| GenericMesh.LineAt | include/irg/generic_mesh.hpp:152-170 | from a token that starts a well-formed command line, the loop reads that line's contribution and then goes on right after the line |
| GenericMesh.LinesAt | include/irg/generic_mesh.hpp:152-170 | from the start of a run of well-formed lines that ends the file, the loop reads the lines' contributions one after the other |
| GenericMesh.ParseByLines | include/irg/generic_mesh.hpp:152-170 | a file of well-formed command lines reads exactly as those lines read one by one |
| GenericMesh.InlineCommands | include/irg/generic_mesh.hpp:152-167 | an "f" on the same line as a "v" is read as a command: "v 1 2 3 f 1 2 3" yields the vertex and the face [1, 2, 3] |
| GenericMesh.ShortVertex | include/irg/generic_mesh.hpp:152-156 | a "v" with two numbers reads on into the next line, fails on the "f" there and stops the reading, leaving the vertex (1, 2, 0) |
| GenericMesh.SkipPast | include/irg/generic_mesh.hpp:166-169 | the `ignore` loop stops where `PastFrom` says |
| GenericMesh.ReadFace | include/irg/generic_mesh.hpp:161-167 | the token loop over the rest of an "f" line computes `FaceIndices` |
| GenericMesh.ReadCommand | include/irg/generic_mesh.hpp:152-170 | one turn of the reading loop: what it adds, and the token the next turn starts from, agree with the reading from that token |
| GenericMesh.FromFile | include/irg/generic_mesh.hpp:139-175 | the loop reads exactly `Parse` of the file's tokens |
| Scene.Toggled | src/irg/scene.cpp:17-19 | flips entry i and keeps the others |
| Scene.ToggleTwice | src/irg/scene.cpp:17-19 | toggling twice restores the flags |
| Scene.VisibleExactly | src/irg/scene.cpp:28-36 | the drawn indices are exactly the displayed objects, each once, in increasing order |
| Scene.Scene.constructor | include/irg/scene.hpp:12-19 | an empty scene with one flag per object |
| Scene.Scene.PushBack | src/irg/scene.cpp:7-11 | appends the object, displayed, and returns its index, which is the old size |
| Scene.Scene.Get | src/irg/scene.cpp:13-15 | returns the object at the index |
| Scene.Scene.ToggleVisibility | src/irg/scene.cpp:17-19 | flips one flag and nothing else |
| Scene.Scene.Draw | src/irg/scene.cpp:21-38 | the loop draws exactly the displayed objects, in order |
| Camera.BindingOf | src/irg/camera.cpp:44-67 | the twelve keys and only they are bound, each to one mask component with +1 or -1 |
| Camera.Control | src/irg/camera.cpp:41-69 | an unbound key leaves the masks unchanged |
| Camera.ControlMovesOneComponent | src/irg/camera.cpp:42-67 | a bound key's press adds its amount to exactly one of the six components, and its release subtracts it; the other five are unchanged |
| Camera.PressReleaseRestores | src/irg/camera.cpp:42-67 | a press followed by the release of the same key restores every mask, and so does the reverse order |
| Camera.Controller | src/irg/camera.cpp:41-70 | the controller always votes `remain` |
| Camera.Camera.constructor | 03/include/irg/camera.hpp:20-26 | all masks start at zero |
| Camera.Camera.OnKey | src/irg/camera.cpp:40-71 | the lambda's effect on the masks and its vote are those of `Controller` |

## Left out

- Floating point: `unit` and glm vectors are 32-bit floats in the source and real numbers here. Rounding, overflow, infinities and NaN are not modelled. The exceptions are the vertical-segment slope in `bresenham_line::draw` and the ratio of a horizontal scanline edge: each has its own branch.
- Primitive.ScaleNormalize: requires non-zero window sides. A zero-sized window makes `normalize` divide by zero, giving IEEE infinities.
- Bresenham.Draw: requires a window with non-zero sides, because `normalize` divides by them.
- GenericMesh.NormalizeData: requires every divisor to be non-zero, which needs a non-degenerate axis range. The source divides by zero on a flat mesh and produces infinities.
- GenericMesh.Mesh.constructor: requires every divisor to be non-zero, for the same reason.
- GenericMesh.NormalizeData: requires every rebased index to be in range and every face non-empty. The source indexes without a bounds test (undefined behaviour otherwise). `size() - 1` on an empty face wraps around in the source.
- The maximum in `normalize_data` starts at `numeric_limits<float>::min()`, the smallest positive float, as written. An axis with no positive coordinate therefore gets that value as its maximum (GenericMesh.NonPositiveAxisMax).
- GenericMesh.FromFile:
  - the file comes already split into tokens, each with two flags saying whether the whitespace after it holds a space before any line break and whether it holds a line break;
  - a `coord` parameter stands for the stream's float extraction of a whole token; a token that only starts with a number (such as "1x") would leave its rest in the stream, and that is not modelled;
  - opening the file, `assert(in.is_open())` and the stream's error states other than a failed vertex read are not part of this model;
  - `std::stoi` overflow on very long digit runs is not modelled.
- Shape.Polygon.FromVertices: requires at least N vertices. The source copies `begin() + N` without a bounds test.
- Scene.Scene.Draw: keeps only which objects are drawn and in which order. The view and projection matrices, shader uniforms and the objects' own drawing are left out. `mesh_concept` is an opaque type parameter.
- The scanline fill loop of `scanline_polygon::draw` (src/irg/shape.cpp:253-273) is not part of this model. It steps a float `y` down by a window-dependent delta and walks both chains. The model stops at the chains `finalize` builds, together with their properties.
- The fill density multiplier is kept; its use in the fill loop is left out.
- The console output of `finalize` is not part of this model.
- Scanline.TriangleFinalizedHoldsCorners: the concrete example proves the hit test on the triangle's corners only, not on interior points.
- Scanline.FinalizeReversedSame: holds only when a single vertex is lowest and lies below 1.5. With no vertex below 1.5 both orientations start at index 0. When the lowest edge is horizontal, the scan keeps the first of the two lowest vertices, so the two orientations start the walk at different ends of that edge and their chains differ in order (Scanline.SquareTieStart).
- Gouraud shading is not part of this model: `gouraud_vertex_policy` and its averaged normals. The `std::hash<glm::vec3>` specialisation it uses is left out too.
- The camera's orbit, zoom and `update` arithmetic and `view_matrix` are not part of this model, and neither are the Bezier curve code in src/irg/camera.cpp and `glm::lookAt`/`perspective`. Only the key-mask controller is modelled.
- GL and GLFW calls are left out:
  - buffers, vertex arrays, draw calls, shaders, textures;
  - window and cursor queries. The cursor position and window size are parameters of the callbacks.
- The resource wrappers (`ownership.hpp`, `texture`, `shader`) and `on_scope_exit` are not part of this model.
- The programs' entry points (`main.cpp`) and the two JavaScript demos are not part of this model.
- Colour values: `colors::red` and the others are declared `extern` and defined outside the modelled files, so colours are an enumeration.
- Listener closures:
  - a lambda that captures `this` is a method of the shape's class, with a pure transition beside it;
  - listeners stored in a registry are values: a step function over an explicit state, which stands for the captured objects;
  - aliasing between a closure and the shape it captures is not modelled.
- Global event sources (`k_events`, `w_events`, `sm_events`, `m_events`) are objects passed to the callbacks.
- Registration as a side effect of a shape's constructor is not modelled; a shape's listener methods are what the registries would invoke.
- The `released` argument is ignored by the shape colour listener and the scanline polygon key listener, as in the source. A release therefore acts like a press there.
