// Shared shapes of the viewer (src/core/types.ts): mesh, animation and
// interaction state, and the unified draw items every stage emits.
module Types {
  import opened Util

  datatype Option<T> = None | Some(value: T)

  function GetOr<T>(o: Option<T>, default: T): T
  {
    match o
    case None => default
    case Some(v) => v
  }

  datatype Vec3 = Vec3(x: real, y: real, z: real)

  /** An edge joins two vertex ids. */
  datatype Edge = Edge(a: nat, b: nat)

  datatype Mesh = Mesh(vertices: seq<Vec3>, edges: seq<Edge>)

  /** Every edge names two existing vertices; the source indexes vertices by edge ends without a check. */
  predicate ValidMesh(m: Mesh)
  {
    EdgesInRange(m.edges, |m.vertices|)
  }

  predicate EdgesInRange(edges: seq<Edge>, n: nat)
  {
    forall e :: e in edges ==> e.a < n && e.b < n
  }

  datatype Phase = Idle | InitialDelay | VertexConstruction | EdgeDrawing | Complete

  /** Position along INITIAL_DELAY < VERTEX_CONSTRUCTION < EDGE_DRAWING < COMPLETE (IDLE first). */
  function PhaseRank(p: Phase): nat
  {
    match p
    case Idle => 0
    case InitialDelay => 1
    case VertexConstruction => 2
    case EdgeDrawing => 3
    case Complete => 4
  }

  /** startTime == 0 means "not stamped yet". */
  datatype AnimationState = AnimationState(phase: Phase, currentIndex: nat, startTime: real, hasCompletedOnce: bool)

  datatype HoverType = NoHover | VertexHover | EdgeHover

  /** hoverId is -1 when nothing is hovered; mouse is in canvas-local CSS pixels. */
  datatype InteractionState = InteractionState(hoverType: HoverType, hoverId: int, mouse: Vec2)

  datatype Viewport = Viewport(width: real, height: real, dpr: real)

  /**
   * One drawable: every variant carries a view-space depth and a layer tiebreak.
   * The optional alpha of the source (default 1) is always set by the emitters
   * modelled here, so it is a plain field.
   */
  datatype DrawItem =
    | QuadItem(p1: Vec3, p2: Vec3, p3: Vec3, p4: Vec3, color: string, alpha: real, depth: real, layer: int)
    | LineItem(a: Vec3, b: Vec3, widthPx: real, color: string, alpha: real, depth: real, layer: int)
    | PointItem(p: Vec3, radiusPx: real, color: string, alpha: real, depth: real, layer: int)
    | LabelItem(p: Vec3, text: string, labelColor: Option<string>, alpha: real, depth: real, layer: int)

  /** The page's sort order: depth ascending (far to near), then layer ascending. */
  predicate PaintsBefore(i: DrawItem, j: DrawItem)
  {
    i.depth < j.depth || (i.depth == j.depth && i.layer < j.layer)
  }

  /**
   * The sort order is a strict order (irreflexive and transitive), and two
   * items are unordered by it exactly when they agree on depth and layer.
   */
  lemma PaintsBeforeStrictOrder(i: DrawItem, j: DrawItem, k: DrawItem)
    ensures !PaintsBefore(i, i)
    ensures PaintsBefore(i, j) && PaintsBefore(j, k) ==> PaintsBefore(i, k)
    ensures !PaintsBefore(i, j) && !PaintsBefore(j, i) <==> i.depth == j.depth && i.layer == j.layer
  {
  }

  /** Component-wise lerp of two points. */
  function LerpVec3(a: Vec3, b: Vec3, t: real): (r: Vec3)
    ensures t == 0.0 ==> r == a
    ensures t == 1.0 ==> r == b
  {
    Vec3(Lerp(a.x, b.x, t), Lerp(a.y, b.y, t), Lerp(a.z, b.z, t))
  }
}
