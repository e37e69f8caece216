// Hover highlights (src/core/highlight/highlight-system.ts): the extra draw
// items for the hovered vertex or edge, layered into the same list as the
// base scene. The projector's view-space depth is the parameter `viewZ`.
module Highlight {
  import opened Util
  import opened Types
  import opened Config
  import opened Animation

  /**
   * The drawn fraction of edge i: the clamped edge progress while edges are
   * being drawn, 1 in every other phase. The scene uses the same value.
   */
  function EdgeT(i: int, now: real, anim: AnimationState): (t: real)
    ensures 0.0 <= t <= 1.0
    ensures anim.phase != EdgeDrawing ==> t == 1.0
    ensures anim.phase == EdgeDrawing ==> t == EdgeProgress(i, now, anim, DefaultDurations)
  {
    if anim.phase == EdgeDrawing then Clamp01(EdgeProgress(i, now, anim, DefaultDurations)) else 1.0
  }

  /** The visible end of edge a-b at fraction t: b once complete, else the point at t along it. */
  function VisibleEnd(a: Vec3, b: Vec3, t: real): (e: Vec3)
    ensures t >= 1.0 ==> e == b
    ensures t == 0.0 ==> e == a
    ensures t < 1.0 ==> e == LerpVec3(a, b, t)
  {
    if t >= 1.0 then b else LerpVec3(a, b, t)
  }

  /** Radius of the translucent halo under a hovered vertex. */
  const HaloRadiusPx := VertexRadiusPx * VertexHaloScale

  /** Width of the underlay stroke of a hovered edge. */
  const UnderlayWidthPx := EdgeWidthPx * EdgeWidthScale

  /** Radius of the end caps of a hovered edge. */
  const CapRadiusPx := VertexRadiusPx * EndCapScale

  /**
   * The highlight items for the current hover, in push order: two for a
   * vertex, three for an edge, none otherwise.
   */
  function EmitHighlights(now: real, viewZ: Vec3 -> real, mesh: Mesh, anim: AnimationState,
                          it: InteractionState): (items: seq<DrawItem>)
    requires ValidMesh(mesh)
    ensures |items| == if !HoverTargetExists(mesh, it) then 0 else if it.hoverType == VertexHover then 2 else 3
  {
    if it.hoverType == NoHover || it.hoverId < 0 then []
    else if it.hoverType == VertexHover then
      var i := it.hoverId;
      if i >= |mesh.vertices| then []
      else
        var v := mesh.vertices[i];
        var depth := viewZ(v);
        [PointItem(v, HaloRadiusPx, HighlightColor, VertexHaloAlpha, depth, LayerPointHlUnderlay),
         PointItem(v, VertexRadiusPx, ColorVertex, 1.0, depth, LayerPointBase)]
    else
      var ei := it.hoverId;
      if ei >= |mesh.edges| then []
      else
        assert mesh.edges[ei] in mesh.edges;
        var a := mesh.vertices[mesh.edges[ei].a];
        var b := mesh.vertices[mesh.edges[ei].b];
        var end := VisibleEnd(a, b, EdgeT(ei, now, anim));
        var edgeDepth := (viewZ(a) + viewZ(b)) * 0.5;
        [LineItem(a, end, UnderlayWidthPx, HighlightColor, EdgeAlpha, edgeDepth, LayerEdgeHlUnderlay),
         PointItem(a, CapRadiusPx, ColorVertex, 1.0, viewZ(a), LayerPointBase),
         PointItem(end, CapRadiusPx, ColorVertex, 1.0, viewZ(end), LayerPointBase)]
  }

  /** The hover names a vertex or edge that exists. */
  predicate HoverTargetExists(mesh: Mesh, it: InteractionState)
  {
    && it.hoverType != NoHover
    && 0 <= it.hoverId
    && (it.hoverType == VertexHover ==> it.hoverId < |mesh.vertices|)
    && (it.hoverType == EdgeHover ==> it.hoverId < |mesh.edges|)
  }

  /**
   * Nothing is emitted exactly when nothing is hovered, the id is negative, or
   * the id is past the end of the vertices or edges it names.
   */
  lemma EmptyUnlessHovering(now: real, viewZ: Vec3 -> real, mesh: Mesh, anim: AnimationState, it: InteractionState)
    requires ValidMesh(mesh)
    ensures EmitHighlights(now, viewZ, mesh, anim, it) == [] <==> !HoverTargetExists(mesh, it)
  {
  }

  /**
   * A hovered vertex gets two points at the vertex, at the vertex's depth: the
   * translucent halo, then the opaque dot, which paints over it. Neither the
   * time nor the animation state matters, so the dot shows even while the
   * vertex is not revealed yet.
   */
  lemma VertexHoverItems(now: real, viewZ: Vec3 -> real, mesh: Mesh, anim: AnimationState, it: InteractionState,
                         now': real, anim': AnimationState)
    requires ValidMesh(mesh) && it.hoverType == VertexHover && 0 <= it.hoverId < |mesh.vertices|
    ensures var items := EmitHighlights(now, viewZ, mesh, anim, it);
      var v := mesh.vertices[it.hoverId];
      && |items| == 2
      && items[0].PointItem? && items[1].PointItem?
      && items[0].p == v && items[1].p == v
      && items[0].depth == viewZ(v) && items[1].depth == viewZ(v)
      && items[0].radiusPx > items[1].radiusPx == VertexRadiusPx
      && items[0].alpha == VertexHaloAlpha && items[1].alpha == 1.0
      && items[0].color == HighlightColor && items[1].color == ColorVertex
      && items[0].layer == LayerPointHlUnderlay && items[1].layer == LayerPointBase
      && PaintsBefore(items[0], items[1])
    ensures EmitHighlights(now', viewZ, mesh, anim', it) == EmitHighlights(now, viewZ, mesh, anim, it)
  {
  }

  /**
   * A hovered edge gets three items: the underlay stroke from the start vertex
   * to the visible end, at the mean depth of the two full endpoints; a cap at
   * the start; a cap at the visible end. The stroke ends exactly at the two
   * caps, and each cap sits at its own point's depth.
   */
  lemma EdgeHoverItems(now: real, viewZ: Vec3 -> real, mesh: Mesh, anim: AnimationState, it: InteractionState)
    requires ValidMesh(mesh) && it.hoverType == EdgeHover && 0 <= it.hoverId < |mesh.edges|
    ensures var items := EmitHighlights(now, viewZ, mesh, anim, it);
      var e := mesh.edges[it.hoverId];
      var a := mesh.vertices[e.a];
      var b := mesh.vertices[e.b];
      var end := VisibleEnd(a, b, EdgeT(it.hoverId, now, anim));
      && |items| == 3
      && items[0].LineItem? && items[1].PointItem? && items[2].PointItem?
      && items[0].a == a && items[0].b == end
      && items[1].p == items[0].a && items[2].p == items[0].b
      && items[0].depth == (viewZ(a) + viewZ(b)) * 0.5
      && items[1].depth == viewZ(a) && items[2].depth == viewZ(end)
      && items[0].widthPx == UnderlayWidthPx && items[0].alpha == EdgeAlpha
      && items[0].color == HighlightColor
      && items[0].layer == LayerEdgeHlUnderlay
      && items[1].alpha == 1.0 && items[2].alpha == 1.0
      && items[1].color == ColorVertex && items[2].color == ColorVertex
      && items[1].radiusPx == CapRadiusPx && items[2].radiusPx == CapRadiusPx
      && items[1].layer == LayerPointBase && items[2].layer == LayerPointBase
  {
    var e := mesh.edges[it.hoverId];
    assert e in mesh.edges;
  }

  /**
   * Outside edge drawing the whole edge is highlighted; while the hovered edge
   * is being drawn the underlay stops at the same fraction the base edge shows,
   * and the moving cap sits there.
   */
  lemma EdgeHoverFollowsProgress(now: real, viewZ: Vec3 -> real, mesh: Mesh, anim: AnimationState, it: InteractionState)
    requires ValidMesh(mesh) && it.hoverType == EdgeHover && 0 <= it.hoverId < |mesh.edges|
    ensures var items := EmitHighlights(now, viewZ, mesh, anim, it);
      var e := mesh.edges[it.hoverId];
      var a := mesh.vertices[e.a];
      var b := mesh.vertices[e.b];
      var t := EdgeT(it.hoverId, now, anim);
      && (anim.phase != EdgeDrawing ==> items[0].b == b && items[2].p == b)
      && (t < 1.0 ==> items[0].b == LerpVec3(a, b, t) && items[2].p == LerpVec3(a, b, t))
      && (anim.phase == EdgeDrawing && it.hoverId > anim.currentIndex ==> items[0].b == a)
  {
    EdgeHoverItems(now, viewZ, mesh, anim, it);
  }
}
