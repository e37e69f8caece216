// The per-frame scene builder (src/core/scene/drawcall-scene.ts): one draw
// list holding, in this order, the ground quad, the grid lines, the drawn
// edges, the vertices and the hover highlights. The page sorts it by depth
// and layer afterwards. The projector's view-space depth is `viewZ`.
module Scene {
  import opened Util
  import opened Types
  import opened Config
  import opened Animation
  import opened Grid
  import opened Highlight

  /** The mean view depth of two points. */
  function DepthAvg(viewZ: Vec3 -> real, a: Vec3, b: Vec3): (d: real)
    ensures Min(viewZ(a), viewZ(b)) <= d <= Max(viewZ(a), viewZ(b))
    ensures viewZ(a) == viewZ(b) ==> d == viewZ(a)
  {
    (viewZ(a) + viewZ(b)) * 0.5
  }

  lemma DepthAvgSymmetric(viewZ: Vec3 -> real, a: Vec3, b: Vec3)
    ensures DepthAvg(viewZ, a, b) == DepthAvg(viewZ, b, a)
  {
  }

  /** The ground's depth is taken at its centre. */
  const GroundCenter := Vec3(0.0, -1.0, 0.0)

  /** The grid of every frame: half-extent 2 at unit step on y = -1 (see Grid.SceneGridFixed). */
  function SceneGridLines(): (lines: seq<Segment>)
    ensures |lines| == 10
  {
    GridLines(2, 1.0, 2.0, -1.0)
  }

  function GroundItem(viewZ: Vec3 -> real): DrawItem
  {
    var q := GroundQuad(2.0, -1.0);
    QuadItem(q[0], q[1], q[2], q[3], ColorGround, 1.0, viewZ(GroundCenter), LayerGround)
  }

  function GridItem(viewZ: Vec3 -> real, s: Segment): DrawItem
  {
    LineItem(s.a, s.b, 0.5, ColorGrid, 1.0, DepthAvg(viewZ, s.a, s.b), LayerGrid)
  }

  function GridItems(viewZ: Vec3 -> real, lines: seq<Segment>): (items: seq<DrawItem>)
    ensures |items| == |lines|
  {
    seq(|lines|, k requires 0 <= k < |lines| => GridItem(viewZ, lines[k]))
  }

  /** The base stroke of edge i: from its start vertex to its visible end, at the visible segment's depth. */
  function EdgeItem(now: real, viewZ: Vec3 -> real, mesh: Mesh, anim: AnimationState, i: nat): DrawItem
    requires ValidMesh(mesh) && i < |mesh.edges|
  {
    assert mesh.edges[i] in mesh.edges;
    var a := mesh.vertices[mesh.edges[i].a];
    var end := VisibleEnd(a, mesh.vertices[mesh.edges[i].b], EdgeT(i, now, anim));
    LineItem(a, end, EdgeWidthPx, ColorEdge, 1.0, DepthAvg(viewZ, a, end), LayerEdgeBase)
  }

  /** The indices among the first n edges that have something drawn, ascending. */
  function DrawnEdges(now: real, anim: AnimationState, n: nat): seq<nat>
  {
    if n == 0 then []
    else DrawnEdges(now, anim, n - 1) + (if EdgeT(n - 1, now, anim) > 0.0 then [n - 1] else [])
  }

  /** The base strokes of the first n edges, skipping those with nothing drawn. */
  function EdgeItems(now: real, viewZ: Vec3 -> real, mesh: Mesh, anim: AnimationState, n: nat): seq<DrawItem>
    requires ValidMesh(mesh) && n <= |mesh.edges|
  {
    if n == 0 then []
    else
      EdgeItems(now, viewZ, mesh, anim, n - 1)
      + (if EdgeT(n - 1, now, anim) > 0.0 then [EdgeItem(now, viewZ, mesh, anim, n - 1)] else [])
  }

  function VertexItem(viewZ: Vec3 -> real, v: Vec3): DrawItem
  {
    PointItem(v, VertexRadiusPx, ColorVertex, 1.0, viewZ(v), LayerPointBase)
  }

  function VertexItems(viewZ: Vec3 -> real, vertices: seq<Vec3>): (items: seq<DrawItem>)
    ensures |items| == |vertices|
  {
    seq(|vertices|, i requires 0 <= i < |vertices| => VertexItem(viewZ, vertices[i]))
  }

  /** The draw list of one frame. */
  function SceneItems(now: real, viewZ: Vec3 -> real, mesh: Mesh, anim: AnimationState, it: InteractionState)
    : seq<DrawItem>
    requires ValidMesh(mesh)
  {
    [GroundItem(viewZ)]
    + GridItems(viewZ, SceneGridLines())
    + EdgeItems(now, viewZ, mesh, anim, |mesh.edges|)
    + VertexItems(viewZ, mesh.vertices)
    + EmitHighlights(now, viewZ, mesh, anim, it)
  }

  /** buildScene: push the ground, the grid lines, the drawn edges, the vertices, then the highlights. */
  method BuildScene(now: real, pxPerUnit: real, viewZ: Vec3 -> real, mesh: Mesh, anim: AnimationState,
                    it: InteractionState)
    returns (items: seq<DrawItem>)
    requires ValidMesh(mesh)
    ensures items == SceneItems(now, viewZ, mesh, anim, it)
  {
    var grid := BuildGrid(pxPerUnit, SceneGridOptions);
    SceneGridFixed(pxPerUnit);
    assert grid.lines == SceneGridLines();
    items := [QuadItem(grid.ground[0], grid.ground[1], grid.ground[2], grid.ground[3],
                       ColorGround, 1.0, viewZ(GroundCenter), LayerGround)];
    items := PushGridLines(items, viewZ, grid.lines);
    items := PushEdges(items, now, viewZ, mesh, anim);
    items := PushVertices(items, viewZ, mesh.vertices);
    items := items + EmitHighlights(now, viewZ, mesh, anim, it);
  }

  /** The grid-lines loop of buildScene. */
  method PushGridLines(items0: seq<DrawItem>, viewZ: Vec3 -> real, lines: seq<Segment>) returns (items: seq<DrawItem>)
    ensures items == items0 + GridItems(viewZ, lines)
  {
    items := items0;
    var k := 0;
    while k < |lines|
      invariant 0 <= k <= |lines|
      invariant items == items0 + GridItems(viewZ, lines[..k])
    {
      var seg := lines[k];
      assert lines[..k + 1] == lines[..k] + [seg];
      items := items + [LineItem(seg.a, seg.b, 0.5, ColorGrid, 1.0, DepthAvg(viewZ, seg.a, seg.b), LayerGrid)];
      k := k + 1;
    }
    assert lines[..k] == lines;
  }

  /** The edges loop of buildScene: an edge with nothing drawn yet is skipped. */
  method PushEdges(items0: seq<DrawItem>, now: real, viewZ: Vec3 -> real, mesh: Mesh, anim: AnimationState)
    returns (items: seq<DrawItem>)
    requires ValidMesh(mesh)
    ensures items == items0 + EdgeItems(now, viewZ, mesh, anim, |mesh.edges|)
  {
    items := items0;
    var i := 0;
    while i < |mesh.edges|
      invariant 0 <= i <= |mesh.edges|
      invariant items == items0 + EdgeItems(now, viewZ, mesh, anim, i)
    {
      var drawn, stroke := EdgeStroke(now, viewZ, mesh, anim, i);
      if !drawn {
        i := i + 1;
        continue;
      }
      items := items + [stroke];
      i := i + 1;
    }
  }

  /** One pass of the edges loop: whether edge i is drawn and, if so, its stroke. */
  method EdgeStroke(now: real, viewZ: Vec3 -> real, mesh: Mesh, anim: AnimationState, i: nat)
    returns (drawn: bool, stroke: DrawItem)
    requires ValidMesh(mesh) && i < |mesh.edges|
    ensures drawn <==> EdgeT(i, now, anim) > 0.0
    ensures drawn ==> stroke == EdgeItem(now, viewZ, mesh, anim, i)
  {
    assert mesh.edges[i] in mesh.edges;
    var a := mesh.vertices[mesh.edges[i].a];
    var b := mesh.vertices[mesh.edges[i].b];
    var t := EdgeT(i, now, anim);
    var end := VisibleEnd(a, b, t);
    drawn := t > 0.0;
    stroke := LineItem(a, end, EdgeWidthPx, ColorEdge, 1.0, DepthAvg(viewZ, a, end), LayerEdgeBase);
  }

  /** The points loop of buildScene: every vertex, opaque. */
  method PushVertices(items0: seq<DrawItem>, viewZ: Vec3 -> real, vertices: seq<Vec3>) returns (items: seq<DrawItem>)
    ensures items == items0 + VertexItems(viewZ, vertices)
  {
    items := items0;
    var j := 0;
    while j < |vertices|
      invariant 0 <= j <= |vertices|
      invariant items == items0 + VertexItems(viewZ, vertices[..j])
    {
      var v := vertices[j];
      assert vertices[..j + 1] == vertices[..j] + [v];
      items := items + [PointItem(v, VertexRadiusPx, ColorVertex, 1.0, viewZ(v), LayerPointBase)];
      j := j + 1;
    }
    assert vertices[..j] == vertices;
  }

  // ---------------------------------------------------------------------
  // What the draw list promises

  /** Edge i is drawn exactly when its drawn fraction is positive; the drawn indices ascend. */
  lemma {:induction false} DrawnEdgesAre(now: real, anim: AnimationState, n: nat)
    ensures forall i :: i in DrawnEdges(now, anim, n) <==> 0 <= i < n && EdgeT(i, now, anim) > 0.0
    ensures forall p, q :: 0 <= p < q < |DrawnEdges(now, anim, n)| ==>
      DrawnEdges(now, anim, n)[p] < DrawnEdges(now, anim, n)[q]
  {
    if n > 0 {
      DrawnEdgesAre(now, anim, n - 1);
      var prev := DrawnEdges(now, anim, n - 1);
      assert forall p :: 0 <= p < |prev| ==> prev[p] < n - 1 by {
        forall p | 0 <= p < |prev| ensures prev[p] < n - 1 {
          assert prev[p] in prev;
        }
      }
    }
  }

  /**
   * While edges are being drawn, the edges before the current one are drawn,
   * the current one is drawn once any time has passed since its start, and
   * the later ones are not drawn.
   */
  lemma DrawnWhileDrawing(now: real, anim: AnimationState, n: nat, i: int)
    requires anim.phase == EdgeDrawing
    ensures i in DrawnEdges(now, anim, n) <==>
      0 <= i < n && (i < anim.currentIndex || (i == anim.currentIndex && now > anim.startTime))
  {
    DrawnEdgesAre(now, anim, n);
  }

  /** The edge strokes are exactly the strokes of the drawn edges, in index order. */
  lemma {:induction false} EdgeItemsOfDrawn(now: real, viewZ: Vec3 -> real, mesh: Mesh, anim: AnimationState, n: nat)
    requires ValidMesh(mesh) && n <= |mesh.edges|
    ensures var drawn := DrawnEdges(now, anim, n);
      var items := EdgeItems(now, viewZ, mesh, anim, n);
      && |items| == |drawn|
      && forall p :: 0 <= p < |drawn| ==> drawn[p] < n && items[p] == EdgeItem(now, viewZ, mesh, anim, drawn[p])
  {
    if n > 0 {
      EdgeItemsOfDrawn(now, viewZ, mesh, anim, n - 1);
      DrawnEdgesAre(now, anim, n - 1);
    }
  }

  /** Outside edge drawing every edge is drawn, whole, at the depth of its two endpoints. */
  lemma {:induction false} AllEdgesAtRest(now: real, viewZ: Vec3 -> real, mesh: Mesh, anim: AnimationState, n: nat)
    requires ValidMesh(mesh) && n <= |mesh.edges| && anim.phase != EdgeDrawing
    ensures var items := EdgeItems(now, viewZ, mesh, anim, n);
      && |items| == n
      && forall i :: 0 <= i < n ==>
        var e := mesh.edges[i];
        items[i].LineItem?
        && items[i].a == mesh.vertices[e.a] && items[i].b == mesh.vertices[e.b]
        && items[i].depth == DepthAvg(viewZ, mesh.vertices[e.a], mesh.vertices[e.b])
  {
    if n > 0 {
      AllEdgesAtRest(now, viewZ, mesh, anim, n - 1);
      assert mesh.edges[n - 1] in mesh.edges;
    }
  }

  /**
   * The draw list: the ground quad first, at the depth of (0, -1, 0); then the
   * ten grid lines in grid order at their midpoint depth; then one stroke per
   * drawn edge; then every vertex, in order, opaque at the base point layer;
   * then the highlights, unchanged. The count is
   * 1 + 10 + (drawn edges) + |vertices| + |highlights|.
   */
  lemma SceneLayout(now: real, viewZ: Vec3 -> real, mesh: Mesh, anim: AnimationState, it: InteractionState)
    requires ValidMesh(mesh)
    ensures var items := SceneItems(now, viewZ, mesh, anim, it);
      var lines := SceneGridLines();
      var drawn := |DrawnEdges(now, anim, |mesh.edges|)|;
      var hl := EmitHighlights(now, viewZ, mesh, anim, it);
      var nv := |mesh.vertices|;
      && |items| == 1 + 10 + drawn + nv + |hl|
      && items[0].QuadItem? && items[0].layer == LayerGround && items[0].depth == viewZ(GroundCenter)
      && items[11..11 + drawn] == EdgeItems(now, viewZ, mesh, anim, |mesh.edges|)
      && (forall k :: 0 <= k < 10 ==>
            items[1 + k] == LineItem(lines[k].a, lines[k].b, 0.5, ColorGrid, 1.0,
                                     DepthAvg(viewZ, lines[k].a, lines[k].b), LayerGrid))
      && (forall j :: 0 <= j < nv ==>
            items[11 + drawn + j] == PointItem(mesh.vertices[j], VertexRadiusPx, ColorVertex, 1.0,
                                               viewZ(mesh.vertices[j]), LayerPointBase))
      && items[11 + drawn + nv..] == hl
  {
    EdgeItemsOfDrawn(now, viewZ, mesh, anim, |mesh.edges|);
    var head := [GroundItem(viewZ)] + GridItems(viewZ, SceneGridLines());
    var edges := EdgeItems(now, viewZ, mesh, anim, |mesh.edges|);
    var rest := VertexItems(viewZ, mesh.vertices) + EmitHighlights(now, viewZ, mesh, anim, it);
    assert SceneItems(now, viewZ, mesh, anim, it) == head + edges + rest;
    assert |head| == 11;
  }

  /**
   * The hovered edge's underlay covers exactly the stroke of the base edge and
   * caps its two ends. Once the edge is complete both have the same depth, so
   * the underlay (layer 30) paints before the base stroke (layer 40).
   */
  lemma UnderlayMatchesBaseEdge(now: real, viewZ: Vec3 -> real, mesh: Mesh, anim: AnimationState, it: InteractionState)
    requires ValidMesh(mesh) && it.hoverType == EdgeHover && 0 <= it.hoverId < |mesh.edges|
    ensures var hl := EmitHighlights(now, viewZ, mesh, anim, it);
      var base := EdgeItem(now, viewZ, mesh, anim, it.hoverId);
      && hl[0].a == base.a && hl[0].b == base.b
      && hl[1].p == base.a && hl[2].p == base.b
      && (EdgeT(it.hoverId, now, anim) >= 1.0 ==> hl[0].depth == base.depth && PaintsBefore(hl[0], base))
  {
    EdgeHoverItems(now, viewZ, mesh, anim, it);
  }

  /**
   * While an edge is half drawn its underlay takes the depth of the whole edge
   * and the base stroke that of its visible half, so when the far end is
   * nearer than the start the base stroke paints first and the underlay over it.
   */
  lemma PartialUnderlayCanCoverBase(viewZ: Vec3 -> real)
    requires viewZ(Vec3(0.0, 0.0, 0.0)) == 0.0 && viewZ(Vec3(1.0, 0.0, 0.0)) == 1.0
    requires viewZ(Vec3(0.5, 0.0, 0.0)) == 0.5
    ensures var mesh := Mesh([Vec3(0.0, 0.0, 0.0), Vec3(1.0, 0.0, 0.0)], [Edge(0, 1)]);
      var anim := AnimationState(EdgeDrawing, 0, 1000.0, false);
      var it := InteractionState(EdgeHover, 0, Vec2(0.0, 0.0));
      var hl := EmitHighlights(1125.0, viewZ, mesh, anim, it);
      var base := EdgeItem(1125.0, viewZ, mesh, anim, 0);
      && EdgeT(0, 1125.0, anim) == 0.5
      && PaintsBefore(base, hl[0])
  {
    var mesh := Mesh([Vec3(0.0, 0.0, 0.0), Vec3(1.0, 0.0, 0.0)], [Edge(0, 1)]);
    var anim := AnimationState(EdgeDrawing, 0, 1000.0, false);
    assert EdgeProgress(0, 1125.0, anim, DefaultDurations) == 0.5;
    assert LerpVec3(Vec3(0.0, 0.0, 0.0), Vec3(1.0, 0.0, 0.0), 0.5) == Vec3(0.5, 0.0, 0.0);
  }
}
