# Wireframe viewer core, in Dafny

This project models the per-frame pipeline of a small wireframe viewer written in
TypeScript. A mesh of vertices and edges is revealed by a construction animation.
The pointer can hover a vertex or an edge, and every frame the scene is flattened
into one list of draw items, each carrying a view depth and a layer. The page
sorts that list by depth, then by layer.

The model covers:

- `util.dfy` (module `Util`): the scalar and screen-space helpers: clamp, lerp,
  inverse lerp, smoothstep, cubic ease, the approximate-equality test, squared
  distance and point-to-segment distance.
- `types.dfy`, `config.dfy`: the shared datatypes (mesh, animation and
  interaction state, the four draw-item variants) and the tuning constants
  (durations, sizes, hit thresholds, highlight look, layers).
- `animation.dfy`: the construction-animation state machine and its two queries,
  vertex visibility and edge progress.
- `grid.dfy`: the grid builder. `ChooseStep` scans the 1/2/5 × 10^k candidates in
  nested loops. `BuildGrid` selects the step, snaps and clamps the half-extent,
  and pushes the lines by integer multiples of the step.
- `hit_test.dfy`: hover picking. The class `HitTester` owns the scratch buffers
  `projX` and `projY` as arrays. `EnsureProjCapacity` grows them, and `Pick` runs
  the vertex loop, then the edge loop. Both loops are proved against the
  selection rule `HitOf`.
- `highlight.dfy`: the 0, 2 or 3 extra draw items for the hovered vertex or edge.
- `scene.dfy`: `BuildScene` pushes the ground, the grid lines, the drawn edges,
  the vertices and the highlights into one list. `DepthAvg` is the mean view
  depth of two points.

Conventions of the model:

- Numbers are exact reals.
- Distances are compared squared. A test `Math.hypot(...) < r` becomes
  `Within(d2, r)`, that is `0 < r && d2 < r * r`, which is the same test for
  every r.
- The projector is a parameter. It is `project: Vec3 -> Vec2` for the hit test,
  `viewZ: Vec3 -> real` for depths, and `pxPerUnit` for the grid.

Three behaviours of the code a reader may not expect:

- **Begin at time 0.** The stamping rule treats `startTime == 0` as "unset". A
  draw call begun at time 0 therefore does not leave the initial delay 750 ms
  after the call: the first tick only stamps the time, and the delay counts from there (`Animation.BeginAtZeroWaitsForStamp`).
- **Vertex alpha in the scene.** The scene always emits vertices opaque.
  `vertexVisibility` is not consulted there (`Scene.SceneLayout`).
- **Depth of a half-drawn edge.** The underlay of a hovered edge takes the depth
  of the whole edge, while the base stroke takes the depth of its visible part.
  While an edge is partly drawn, the two can therefore sort apart
  (`Scene.PartialUnderlayCanCoverBase`).

## Model

| member | source | states |
|---|---|---|
| Util.Clamp | src/util.ts:4-6 | the result lies in [lo, hi] when lo <= hi; x is returned unchanged when already in range; lo below, hi above; lo when hi < lo |
| Util.Clamp01 | src/util.ts:7-9 | the result lies in [0, 1]; it is 0 exactly for x <= 0 and 1 exactly for x >= 1 |
| Util.Lerp | src/util.ts:10-12 | t = 0 gives a, t = 1 gives b, and t in [0, 1] stays between a and b |
| Util.InvLerp | src/util.ts:13-16 | 0 on an empty interval; a maps to 0 and b to 1; on a proper interval lerp of the result gives v back |
| Util.InvLerpOfLerp | src/util.ts:13-16 | the other half of the round trip: invLerp undoes lerp on a proper interval |
| Util.Smoothstep | src/util.ts:17-20 | the result lies in [0, 1]; 0 at or below edge0 and 1 at or above edge1 when edge0 < edge1 |
| Util.EaseCubicInOut | src/util.ts:21-24 | the input is clamped; the result lies in [0, 1]; it is 0 exactly for inputs <= 0; it is 1 for inputs >= 1 |
| Util.EaseSymmetric | src/util.ts:21-24 | the ease curve is point-symmetric: ease(1 - t) = 1 - ease(t) on [0, 1] |
| Util.EaseMonotone | src/util.ts:21-24 | the ease curve never decreases: x <= y gives ease(x) <= ease(y) |
| Util.ApproxEq | src/util.ts:25-27 | true exactly when b lies within eps of a; a value is close to itself exactly when eps >= 0 |
| Util.ApproxEqSymmetric | src/util.ts:25-27 | the test does not depend on the order of a and b |
| Util.ApproxEqDefault | src/util.ts:25-27 | with the default tolerance 10^-6, values up to 10^-6 apart are close and values 2·10^-6 apart are not |
| Util.Dist2 | src/util.ts:30-33 | the squared distance is non-negative, and positive for distinct points |
| Util.Dist2Symmetric | src/util.ts:30-33 | the squared distance is symmetric in its two points |
| Util.PointSegmentDist2 | src/util.ts:34-45 | non-negative; for a degenerate segment it is the distance to a |
| Util.PointSegmentDistIsMinimal | src/util.ts:34-45 | the clamped projection gives the least distance from p to any point of the segment |
| Util.PointSegmentDistAttained | src/util.ts:34-45 | the returned distance is reached at some point of the segment, so together with minimality it is the true distance |
| Util.PointSegmentDistAtMostEndpoints | src/util.ts:34-45 | the segment distance is never more than the distance to either endpoint |
| Types.PaintsBeforeStrictOrder | src/core/types.ts:79-81 | the draw order (depth ascending, then layer ascending) is irreflexive and transitive; two items are unordered exactly when depth and layer agree |
| Types.LerpVec3 | src/core/highlight/highlight-system.ts:70-72 | the component-wise lerp gives a at t = 0 and b at t = 1 |
| Config.LayersAscending | src/config.ts:59-73 | the layers strictly increase in declaration order; each highlight underlay sits directly beneath its base layer |
| Animation.BeginDrawCall | src/core/fsm/animation.ts:9-16 | phase INITIAL_DELAY, index 0, startTime = now, completion flag kept |
| Animation.TickAnimation | src/core/fsm/animation.ts:18-63 | a frame either leaves the state unchanged or stamps startTime with now; within a phase the index stays or grows by one, and a change of phase resets it to 0 (the per-case behaviour is in TickResting, TickStamps, TickInitialDelay and TickStep) |
| Animation.TickResting | src/core/fsm/animation.ts:26 | IDLE and COMPLETE states are returned unchanged |
| Animation.TickStamps | src/core/fsm/animation.ts:27-29 | in an active phase with startTime 0, a tick only sets startTime to now |
| Animation.TickInitialDelay | src/core/fsm/animation.ts:34-39 | the delay ends, with index 0 and startTime = now, exactly when elapsed >= initialDelay; before that the state is unchanged |
| Animation.TickStep | src/core/fsm/animation.ts:40-59 | before the step duration the state is unchanged; then the index grows by one, or, past the last vertex or edge, the next phase starts at index 0; COMPLETE sets the flag |
| Animation.TickMonotone | src/core/fsm/animation.ts:18-63 | the phase never goes back, and a change of phase moves one step forward from an active phase; the completion flag is sticky and is set on entering COMPLETE |
| Animation.TickStartTime | src/core/fsm/animation.ts:18-63 | a tick keeps startTime or sets it to now |
| Animation.TickIdempotent | src/core/fsm/animation.ts:31-59 | with positive durations, ticking twice at the same now equals ticking once |
| Animation.TickKeepsIndexInRange | src/core/fsm/animation.ts:40-59 | with non-empty vertices and edges, the index stays below the count of the phase's collection |
| Animation.RunMonotone | src/core/fsm/animation.ts:18-63 | over any sequence of frames the phase only moves forward, the flag stays set and the index stays in range |
| Animation.RunStaysComplete | src/core/fsm/animation.ts:26 | once COMPLETE, no sequence of frames changes the state |
| Animation.VertexVisibility | src/core/fsm/animation.ts:67-86 | alpha lies in [0, 1] and is 0 when hidden. Nothing shows in IDLE or INITIAL_DELAY, and everything is opaque in EDGE_DRAWING and COMPLETE. While building, vertex i is visible exactly when i <= index; earlier vertices are opaque; the current one has alpha 0 exactly when now <= startTime and alpha 1 exactly once its build time has passed, and in between it is the ease of elapsed / vertexBuild |
| Animation.EdgeProgress | src/core/fsm/animation.ts:88-103 | progress lies in [0, 1]. It is 1 in COMPLETE and 0 in the other non-drawing phases. While drawing, earlier edges are at 1 and later edges at 0; the current edge is at 0 exactly when now <= startTime and at 1 exactly once elapsed >= edgeDraw, and in between progress × edgeDraw = elapsed |
| Animation.EdgeProgressMonotone | src/core/fsm/animation.ts:96-99 | for a fixed state, an edge's progress never goes down as now grows |
| Animation.VertexVisibilityMonotone | src/core/fsm/animation.ts:74-80 | for a fixed state, a vertex's alpha never goes down as now grows |
| Animation.EdgeProgressPrefix | src/core/fsm/animation.ts:96-100 | progress never increases with the edge index, so the drawn edges form a prefix |
| Animation.EdgesAfterVertices | src/core/fsm/animation.ts:67-103 | while any edge shows, every vertex is fully visible |
| Animation.CompletedEdgeStays | src/core/fsm/animation.ts:50-59 | an edge before the current index while drawing, or any edge once COMPLETE, is still at progress 1 after the next tick |
| Animation.StampRestartsCurrentEdge | src/core/fsm/animation.ts:27-29 | the current edge is not covered by that promise: unstamped (startTime 0) it reads as fully drawn, and the stamping tick sets its progress back to 0 |
| Animation.BeginAtZeroWaitsForStamp | src/core/fsm/animation.ts:27-29 | a draw call begun at time 0 is still in INITIAL_DELAY after a tick past the delay; that tick only stamps the time |
| Animation.BeginThenDelay | src/core/fsm/animation.ts:34-39 | begun at a nonzero time, the first tick at least initialDelay later enters VERTEX_CONSTRUCTION; an earlier tick changes nothing |
| Grid.CandidateAt | src/core/scene/grid.ts:18-23 | candidate 3(e + 3) + m of the table is mantissa m times 10^e, so the table lists the candidates in scan order |
| Grid.FirstBestIsFirstMinimum | src/core/scene/grid.ts:26-29 | the running best has the least error seen, and every earlier entry has a strictly larger error |
| Grid.BestOfIsFirstBest | src/core/scene/grid.ts:19-31 | the best step kept after n candidates is the candidate at the first least error |
| Grid.NiceStepIsFirstBest | src/core/scene/grid.ts:16-33 | for a positive density, the chosen step is a candidate; no candidate comes closer to the target spacing; every earlier candidate is strictly farther |
| Grid.NiceStepPositive | src/core/scene/grid.ts:16-33 | the chosen step is positive |
| Grid.ChooseStep | src/core/scene/grid.ts:16-33 | the nested scan returns NiceStep: 1 for a density <= 0, else the first candidate with the least error |
| Grid.ScanDecade | src/core/scene/grid.ts:22-30 | the inner loop visits the three mantissas of one decade in order and keeps the first least error |
| Grid.KeepBetter | src/core/scene/grid.ts:26-29 | one step of the scan: a strictly smaller error replaces the best, so the first least error is kept |
| Grid.EffectiveMaxLines | src/core/scene/grid.ts:60 | the line budget is at least 16, and 160 when not given |
| Grid.SelectedStep | src/core/scene/grid.ts:64-66 | the step is positive; a positive override is used as is; without one, adaptive mode (the default) uses NiceStep for the 28 px target and non-adaptive mode uses step 1 |
| Grid.GridLines | src/core/scene/grid.ts:88-97 | for N >= 0 there are 2(2N + 1) lines; for N < 0 there are none |
| Grid.GridLineShape | src/core/scene/grid.ts:90-97 | every line is at the ground height and spans exactly [-range, range]; pair i (from -N to N) is a z-parallel line, then an x-parallel line, at offset i * step |
| Grid.GroundQuadShape | src/core/scene/grid.ts:81-86 | the ground corners are (±r, y, ±r) in the order (-r,-r), (r,-r), (r,r), (-r,r); the sides are axis-parallel; the quad is centred on the origin; its signed x/z area is positive, so it runs counter-clockwise |
| Grid.Round | src/core/scene/grid.ts:90 | Math.round: the integer within one half of x, halves going up |
| Grid.FloorSnap | src/core/scene/grid.ts:70-71 | floor(range / step) whole steps fit inside the requested range, and one more would not |
| Grid.LineCountWithinBudget | src/core/scene/grid.ts:73-78 | after the clamp, the 2(2N + 1) lines fit in the line budget |
| Grid.RangeSnapsDown | src/core/scene/grid.ts:70-78 | for a non-negative requested range, the half count N is a whole number between 0 and floor(range / step), and N * step lies in [0, range] |
| Grid.BuildGrid | src/core/scene/grid.ts:46-100 | the step is the selected step, since the clamp never changes it. The range is N * step. The ground is the quad at the ground height, and the lines are the 2(2N + 1) grid lines, never more than the line budget |
| Grid.LayOutGrid | src/core/scene/grid.ts:68-99 | the snap and the clamp give N, the range N * step, the ground quad and the line list, within the line budget |
| Grid.EmitGridLines | src/core/scene/grid.ts:88-97 | the push loop from -N to N, with N = round(range / step), produces exactly the grid lines of the N the range was built from |
| Grid.SceneGridFixed | src/core/scene/drawcall-scene.ts:34-40 | the scene's grid options give step 1, N = 2 and ten lines |
| HitTest.FirstNearestIsFirstMinimum | src/core/interaction/hit-test.ts:66-78 | the running nearest finds nothing exactly when no entry is admitted. Otherwise its result is admitted, no admitted entry is nearer, and every earlier admitted entry is strictly farther |
| HitTest.VertexFirst | src/core/interaction/hit-test.ts:42-78 | a vertex is reported exactly when the viewport and mesh are non-empty and some vertex is strictly inside the vertex radius (override or default). It is then the nearest such vertex, the lowest index on a tie, so no edge is reported |
| HitTest.EdgeSecond | src/core/interaction/hit-test.ts:80-113 | a reported edge means that no vertex is hit and that the edge passed the box reject, both endpoint guards (1.05 × the vertex radius) and the tolerance; it is the nearest such edge, the first on a tie. With no hit and a usable viewport, no edge was a candidate |
| HitTest.HitInRange | src/core/interaction/hit-test.ts:66-112 | every reported id indexes the vertices or the edges it names |
| HitTest.BoxRejectIsSafe | src/core/interaction/hit-test.ts:89-94 | the grown bounding box never rejects an edge the distance test would accept |
| HitTest.EdgeTest | src/core/interaction/hit-test.ts:89-99 | the two quick rejects pass exactly when the pointer is in the grown box and outside both endpoint guards |
| HitTest.KeepNearer | src/core/interaction/hit-test.ts:70-73 | one loop step keeps the first nearest admitted entry |
| HitTest.HitTester.EnsureProjCapacity | src/core/interaction/hit-test.ts:16-23 | both buffers grow to n when shorter, keeping their contents; otherwise they are left as they are; they never shrink |
| HitTest.HitTester.ProjectVertices | src/core/interaction/hit-test.ts:52-57 | the first count entries become the projected vertices; the entries past them are unchanged |
| HitTest.HitTester.NearestVertex | src/core/interaction/hit-test.ts:60-74 | the vertex loop returns the first nearest vertex strictly inside the radius, or -1 |
| HitTest.HitTester.NearestEdge | src/core/interaction/hit-test.ts:80-107 | the edge loop returns the first nearest admitted edge, or -1 |
| HitTest.HitTester.Pick | src/core/interaction/hit-test.ts:34-114 | hitTest returns HitOf on the projected vertices and leaves the buffers of a rejected call untouched. Otherwise the buffers are grown to the vertex count and hold the projection, and entries past it are unchanged when no growth was needed |
| Highlight.EdgeT | src/core/highlight/highlight-system.ts:65-68 | the drawn fraction lies in [0, 1]; it is the edge progress during EDGE_DRAWING and 1 outside it |
| Highlight.VisibleEnd | src/core/highlight/highlight-system.ts:70-72 | the visible end is b when t >= 1, a when t = 0, and lerp(a, b, t) otherwise |
| Highlight.EmitHighlights | src/core/highlight/highlight-system.ts:15-116 | two items for an existing hovered vertex, three for an existing hovered edge, none otherwise (the items themselves are in VertexHoverItems and EdgeHoverItems) |
| Highlight.EmptyUnlessHovering | src/core/highlight/highlight-system.ts:23-59 | nothing is emitted exactly when nothing is hovered, the id is negative, or the id is past the end of what it names |
| Highlight.VertexHoverItems | src/core/highlight/highlight-system.ts:25-55 | a hovered vertex gets two points at the vertex and at its depth: the halo (radius 3 × 1.8, alpha 0.45, layer 50), then the opaque dot (radius 3, layer 60) that paints over it. Neither depends on time or phase |
| Highlight.EdgeHoverItems | src/core/highlight/highlight-system.ts:57-113 | a hovered edge gets three items: the underlay from a to the visible end (width 2.5 × 1.6, alpha 0.45, layer 30) at the mean depth of both full endpoints, then opaque vertex-coloured caps of radius 3 × 1.6 at a and at the visible end, each at its own depth; the underlay has the highlight colour |
| Highlight.EdgeHoverFollowsProgress | src/core/highlight/highlight-system.ts:65-72 | outside edge drawing the whole edge is highlighted; a partial edge's underlay and moving cap stop at lerp(a, b, t); an edge not yet started collapses to a |
| Scene.DepthAvg | src/core/scene/drawcall-scene.ts:122-127 | the mean depth lies between the two depths and equals them when they agree |
| Scene.DepthAvgSymmetric | src/core/scene/drawcall-scene.ts:122-127 | the mean depth does not depend on the order of the points |
| Scene.BuildScene | src/core/scene/drawcall-scene.ts:22-119 | the pushed list equals SceneItems: ground, grid lines, drawn edges, vertices, highlights |
| Scene.PushGridLines | src/core/scene/drawcall-scene.ts:54-65 | one line item per grid line, in grid order |
| Scene.PushEdges | src/core/scene/drawcall-scene.ts:68-93 | one stroke per edge with positive drawn fraction, in index order; the others are skipped |
| Scene.EdgeStroke | src/core/scene/drawcall-scene.ts:69-92 | an edge is drawn exactly when its fraction is positive, and its stroke runs from a to the visible end at the visible segment's depth |
| Scene.PushVertices | src/core/scene/drawcall-scene.ts:96-111 | one opaque point per vertex, in index order |
| Scene.DrawnEdgesAre | src/core/scene/drawcall-scene.ts:73-77 | edge i is drawn exactly when i < |edges| and its fraction is positive; the drawn indices ascend |
| Scene.DrawnWhileDrawing | src/core/scene/drawcall-scene.ts:73-77 | during EDGE_DRAWING edge i is drawn exactly when i < |edges| and either i < currentIndex, or i is the current edge and now > startTime |
| Scene.EdgeItemsOfDrawn | src/core/scene/drawcall-scene.ts:68-93 | the edge strokes are exactly the strokes of the drawn edges, in order |
| Scene.AllEdgesAtRest | src/core/scene/drawcall-scene.ts:73-91 | outside EDGE_DRAWING every edge is drawn whole, at the mean depth of its endpoints |
| Scene.SceneLayout | src/core/scene/drawcall-scene.ts:43-118 | the ground is first, at the depth of (0, -1, 0), layer 10. Then come the ten grid lines (width 0.5, layer 20), the base strokes of the drawn edges in index order, and every vertex, opaque at layer 60. The highlights come last, unchanged. The count is 1 + 10 + drawn + |vertices| + |highlights| |
| Scene.UnderlayMatchesBaseEdge | src/core/highlight/highlight-system.ts:76-110 | the hovered edge's underlay covers exactly the base stroke and its caps sit on its ends; once the edge is complete the two share a depth and the underlay paints first |
| Scene.PartialUnderlayCanCoverBase | src/core/highlight/highlight-system.ts:74 | a concrete edge, half drawn, whose endpoints differ in depth: its base stroke sorts before its own underlay, so the underlay paints over it |

## Left out

- The projector (three.js camera math) is not part of this model. It appears
  only as the parameters `project`, `viewZ` and `pxPerUnit`. `estimatePxPerUnit`
  (grid.ts:35-44) is therefore not modelled.
- The renderer, the global store and the page (event wiring, sorting,
  animation frames) are not part of this model. The page's sort order appears
  only as the predicate `Types.PaintsBefore`.
- `toFixedN` and `formatVec3` (float-to-string formatting) are not modelled.
- IEEE-754 arithmetic is not modelled: rounding, NaN, Infinity, and the
  precision of `Math.pow` and `Math.hypot`. `Pow10` is the exact power.
  `Infinity` as the initial best error is a flag (`haveBest`, or id -1).
  Non-finite coordinates never occur over the reals.
- Animation.EdgeProgress: requires a positive edge duration. The source divides
  by it and would yield Infinity or NaN otherwise.
- Animation.VertexVisibility: requires a positive build duration, for the same
  reason.
- HitTest.HitTester.Pick: requires every edge to name existing vertices. In the
  source, an out-of-range edge reads a stale buffer entry or `undefined`.
- Highlight.EmitHighlights: requires every edge to name existing vertices. The
  source would read an undefined vertex.
- Scene.BuildScene: requires every edge to name existing vertices, as above. The
  `ui` parameter, unused by the source, is dropped. So is the viewport, which
  the source uses only for the pixel estimate.
- HitTest.HitTester.EnsureProjCapacity: the new buffer entries are arbitrary. In
  the source they are holes (`undefined`), and they are always overwritten
  before being read.
- Grid.Round: models `Math.round` on exact reals only. The value rounded
  (`range / step`) is exactly a whole number here.
