// Screen-space hover picking (src/core/interaction/hit-test.ts): vertices
// first, the nearest one strictly inside the vertex radius; only when no
// vertex is hit, edges, each behind an inflated bounding-box reject and an
// endpoint guard, the nearest one strictly inside the edge tolerance. Ties go
// to the lowest index. Distances are compared squared instead of through
// Math.hypot; the projector is the parameter `project`.
module HitTest {
  import opened Util
  import opened Types
  import opened Config

  datatype Hit = NoHit | VertexHit(id: nat) | EdgeHit(id: nat)

  /** The optional threshold overrides of hitTest, in CSS pixels. */
  datatype HitOverrides = HitOverrides(vertexRadiusPx: Option<real>, edgeTolerancePx: Option<real>)

  function VertexRadius(o: HitOverrides): real { GetOr(o.vertexRadiusPx, HitVertexRadiusPx) }

  function EdgeTolerance(o: HitOverrides): real { GetOr(o.edgeTolerancePx, HitEdgeTolerancePx) }

  /** The guard around each endpoint inside which no edge is reported. */
  function EndpointGuard(vRad: real): real { vRad * 1.05 }

  /** Nothing is hit in an empty viewport or an empty mesh. */
  predicate Rejected(vp: Viewport, vertexCount: nat)
  {
    vp.width <= 0.0 || vp.height <= 0.0 || vertexCount == 0
  }

  // ---------------------------------------------------------------------
  // The selection rule, on distances and admission flags

  /**
   * Among the first n entries admitted by ok, the index of the first one with
   * the least distance, or -1 when none is admitted: a later entry replaces the
   * best so far only when it is strictly nearer.
   */
  function FirstNearest(d: seq<real>, ok: seq<bool>, n: nat): (r: int)
    requires n <= |d| == |ok|
    ensures -1 <= r < n
  {
    if n == 0 then -1
    else
      var b := FirstNearest(d, ok, n - 1);
      if ok[n - 1] && (b == -1 || d[n - 1] < d[b]) then n - 1 else b
  }

  /**
   * FirstNearest finds nothing exactly when nothing is admitted; otherwise it
   * is admitted, no admitted entry is nearer, and every admitted entry before
   * it is strictly farther.
   */
  lemma {:induction false} FirstNearestIsFirstMinimum(d: seq<real>, ok: seq<bool>, n: nat)
    requires n <= |d| == |ok|
    ensures var r := FirstNearest(d, ok, n);
      && (r == -1 <==> forall k :: 0 <= k < n ==> !ok[k])
      && (r != -1 ==> ok[r])
      && (r != -1 ==> forall k :: 0 <= k < n && ok[k] ==> d[r] <= d[k])
      && (r != -1 ==> forall k :: 0 <= k < r && ok[k] ==> d[r] < d[k])
  {
    if n > 0 {
      FirstNearestIsFirstMinimum(d, ok, n - 1);
    }
  }

  // ---------------------------------------------------------------------
  // Vertex and edge admission

  /** The projected vertices: the screen point of every vertex, by index. */
  function Projected(project: Vec3 -> Vec2, vertices: seq<Vec3>): (pts: seq<Vec2>)
    ensures |pts| == |vertices|
  {
    seq(|vertices|, i requires 0 <= i < |vertices| => project(vertices[i]))
  }

  function VertexDists(pts: seq<Vec2>, m: Vec2): (d: seq<real>)
    ensures |d| == |pts|
  {
    seq(|pts|, i requires 0 <= i < |pts| => Dist2(m, pts[i]))
  }

  /** A vertex is a candidate when the pointer is strictly inside its radius. */
  function VertexOks(pts: seq<Vec2>, m: Vec2, vRad: real): (ok: seq<bool>)
    ensures |ok| == |pts|
  {
    seq(|pts|, i requires 0 <= i < |pts| => Within(Dist2(m, pts[i]), vRad))
  }

  /** The pointer lies in the segment's bounding box grown by tol on every side. */
  predicate InBox(m: Vec2, a: Vec2, b: Vec2, tol: real)
  {
    !(m.x < Min(a.x, b.x) - tol || m.x > Max(a.x, b.x) + tol
      || m.y < Min(a.y, b.y) - tol || m.y > Max(a.y, b.y) + tol)
  }

  /** The pointer is not strictly inside the guard of either endpoint. */
  predicate OutsideGuard(m: Vec2, a: Vec2, b: Vec2, guard: real)
  {
    !Within(Dist2(m, a), guard) && !Within(Dist2(m, b), guard)
  }

  function EdgeDists(pts: seq<Vec2>, edges: seq<Edge>, m: Vec2): (d: seq<real>)
    requires EdgesInRange(edges, |pts|)
    ensures |d| == |edges|
  {
    seq(|edges|, i requires 0 <= i < |edges| => PointSegmentDist2(m, pts[edges[i].a], pts[edges[i].b]))
  }

  /** An edge is a candidate when it passes the box reject, the endpoint guard and the tolerance. */
  predicate EdgeAdmitted(m: Vec2, a: Vec2, b: Vec2, vRad: real, eTol: real)
  {
    InBox(m, a, b, eTol) && OutsideGuard(m, a, b, EndpointGuard(vRad))
    && Within(PointSegmentDist2(m, a, b), eTol)
  }

  function EdgeOks(pts: seq<Vec2>, edges: seq<Edge>, m: Vec2, vRad: real, eTol: real): (ok: seq<bool>)
    requires EdgesInRange(edges, |pts|)
    ensures |ok| == |edges|
  {
    seq(|edges|, i requires 0 <= i < |edges| => EdgeAdmitted(m, pts[edges[i].a], pts[edges[i].b], vRad, eTol))
  }

  /** The hit for pointer m over the projected vertices pts. */
  function HitOf(m: Vec2, pts: seq<Vec2>, edges: seq<Edge>, vp: Viewport, o: HitOverrides): Hit
    requires EdgesInRange(edges, |pts|)
  {
    if Rejected(vp, |pts|) then NoHit
    else
      var vRad := VertexRadius(o);
      var v := FirstNearest(VertexDists(pts, m), VertexOks(pts, m, vRad), |pts|);
      if v != -1 then VertexHit(v)
      else
        var e := FirstNearest(EdgeDists(pts, edges, m), EdgeOks(pts, edges, m, vRad, EdgeTolerance(o)), |edges|);
        if e != -1 then EdgeHit(e) else NoHit
  }

  // ---------------------------------------------------------------------
  // What the selection rule promises

  /**
   * A vertex is reported exactly when the viewport is usable and some vertex
   * has the pointer strictly inside its radius; it is then the nearest such
   * vertex, the first one on a tie.
   */
  lemma VertexFirst(m: Vec2, pts: seq<Vec2>, edges: seq<Edge>, vp: Viewport, o: HitOverrides)
    requires EdgesInRange(edges, |pts|)
    ensures HitOf(m, pts, edges, vp, o).VertexHit? <==>
      !Rejected(vp, |pts|) && exists k :: 0 <= k < |pts| && Within(Dist2(m, pts[k]), VertexRadius(o))
    ensures HitOf(m, pts, edges, vp, o).VertexHit? ==>
      var v := HitOf(m, pts, edges, vp, o).id;
      && v < |pts| && Within(Dist2(m, pts[v]), VertexRadius(o))
      && (forall k :: 0 <= k < |pts| && Within(Dist2(m, pts[k]), VertexRadius(o)) ==> Dist2(m, pts[v]) <= Dist2(m, pts[k]))
      && (forall k :: 0 <= k < v && Within(Dist2(m, pts[k]), VertexRadius(o)) ==> Dist2(m, pts[v]) < Dist2(m, pts[k]))
  {
    var vRad := VertexRadius(o);
    var d, ok := VertexDists(pts, m), VertexOks(pts, m, vRad);
    FirstNearestIsFirstMinimum(d, ok, |pts|);
    assert forall k :: 0 <= k < |pts| ==> d[k] == Dist2(m, pts[k]) && ok[k] == Within(d[k], vRad);
  }

  /**
   * An edge is reported only when no vertex is hit; it is then a candidate (in
   * the grown box, outside both endpoint guards, strictly inside the
   * tolerance), the nearest candidate, and the first one on a tie. Conversely,
   * with a usable viewport and no vertex hit, any candidate edge means an edge
   * is reported.
   */
  lemma EdgeSecond(m: Vec2, pts: seq<Vec2>, edges: seq<Edge>, vp: Viewport, o: HitOverrides)
    requires EdgesInRange(edges, |pts|)
    ensures var h := HitOf(m, pts, edges, vp, o);
      h.EdgeHit? ==>
        var e := h.id;
        var vRad := VertexRadius(o);
        var eTol := EdgeTolerance(o);
        && e < |edges|
        && !Rejected(vp, |pts|)
        && (forall k :: 0 <= k < |pts| ==> !Within(Dist2(m, pts[k]), vRad))
        && EdgeAdmitted(m, pts[edges[e].a], pts[edges[e].b], vRad, eTol)
        && (forall k :: 0 <= k < |edges| && EdgeAdmitted(m, pts[edges[k].a], pts[edges[k].b], vRad, eTol) ==>
              PointSegmentDist2(m, pts[edges[e].a], pts[edges[e].b]) <= PointSegmentDist2(m, pts[edges[k].a], pts[edges[k].b]))
        && (forall k :: 0 <= k < e && EdgeAdmitted(m, pts[edges[k].a], pts[edges[k].b], vRad, eTol) ==>
              PointSegmentDist2(m, pts[edges[e].a], pts[edges[e].b]) < PointSegmentDist2(m, pts[edges[k].a], pts[edges[k].b]))
    ensures var h := HitOf(m, pts, edges, vp, o);
      h == NoHit && !Rejected(vp, |pts|) ==>
        forall k :: 0 <= k < |edges| ==>
          !EdgeAdmitted(m, pts[edges[k].a], pts[edges[k].b], VertexRadius(o), EdgeTolerance(o))
  {
    var vRad := VertexRadius(o);
    var eTol := EdgeTolerance(o);
    var vd, vok := VertexDists(pts, m), VertexOks(pts, m, vRad);
    var ed, eok := EdgeDists(pts, edges, m), EdgeOks(pts, edges, m, vRad, eTol);
    FirstNearestIsFirstMinimum(vd, vok, |pts|);
    FirstNearestIsFirstMinimum(ed, eok, |edges|);
    assert forall k :: 0 <= k < |pts| ==> vok[k] == Within(Dist2(m, pts[k]), vRad);
    assert forall k :: 0 <= k < |edges| ==>
      ed[k] == PointSegmentDist2(m, pts[edges[k].a], pts[edges[k].b])
      && eok[k] == EdgeAdmitted(m, pts[edges[k].a], pts[edges[k].b], vRad, eTol);
  }

  /** Every reported id indexes the vertex or edge sequence it names. */
  lemma HitInRange(m: Vec2, pts: seq<Vec2>, edges: seq<Edge>, vp: Viewport, o: HitOverrides)
    requires EdgesInRange(edges, |pts|)
    ensures HitOf(m, pts, edges, vp, o).VertexHit? ==> HitOf(m, pts, edges, vp, o).id < |pts|
    ensures HitOf(m, pts, edges, vp, o).EdgeHit? ==> HitOf(m, pts, edges, vp, o).id < |edges|
  {
  }

  /** |x| < r follows from x^2 < r^2 for a positive r. */
  lemma SqBelow(x: real, r: real)
    requires 0.0 < r && Sq(x) < Sq(r)
    ensures -r < x < r
  {
    if x >= r {
      MulNonNeg(x - r, x + r);
    } else if x <= -r {
      MulNonNeg(r - x, -r - x);
    }
  }

  /** A point along a segment, at a parameter in [0, 1], lies in the segment's bounding box. */
  lemma AlongInBox(a: Vec2, b: Vec2, s: real)
    requires 0.0 <= s <= 1.0
    ensures Min(a.x, b.x) <= Along(a, b, s).x <= Max(a.x, b.x)
    ensures Min(a.y, b.y) <= Along(a, b, s).y <= Max(a.y, b.y)
  {
    LerpBetween(a.x, b.x, s);
    LerpBetween(a.y, b.y, s);
    assert Along(a, b, s) == Vec2(a.x + Mul(b.x - a.x, s), a.y + Mul(b.y - a.y, s));
  }

  /**
   * The bounding-box reject never drops an edge the distance test would
   * accept: a pointer strictly within tol of the segment lies in its box grown
   * by tol.
   */
  lemma BoxRejectIsSafe(m: Vec2, a: Vec2, b: Vec2, tol: real)
    requires Within(PointSegmentDist2(m, a, b), tol)
    ensures InBox(m, a, b, tol)
  {
    var q := if b.x - a.x == 0.0 && b.y - a.y == 0.0 then a else Along(a, b, ClosestParam(m, a, b));
    if b.x - a.x == 0.0 && b.y - a.y == 0.0 {
      assert Along(a, b, 0.0) == a;
      AlongInBox(a, b, 0.0);
    } else {
      AlongInBox(a, b, ClosestParam(m, a, b));
    }
    assert Dist2(m, q) == PointSegmentDist2(m, a, b);
    SqSign(m.x - q.x);
    SqSign(m.y - q.y);
    SqBelow(m.x - q.x, tol);
    SqBelow(m.y - q.y, tol);
  }

  // ---------------------------------------------------------------------
  // The hit tester and its scratch buffers

  /** Zip two equally long coordinate sequences into points. */
  function Zip(xs: seq<real>, ys: seq<real>): (pts: seq<Vec2>)
    requires |xs| == |ys|
    ensures |pts| == |xs|
  {
    seq(|xs|, i requires 0 <= i < |xs| => Vec2(xs[i], ys[i]))
  }

  /**
   * The module-level scratch buffers of hitTest: the projected x and y of each
   * vertex. They grow to the largest mesh seen and are never shrunk, so
   * entries past the current vertex count may be stale.
   */
  class HitTester {
    var projX: array<real>
    var projY: array<real>

    ghost predicate Valid()
      reads this
    {
      projX != projY && projX.Length == projY.Length
    }

    /** The first n projected points held by the buffers. */
    function Points(n: nat): (pts: seq<Vec2>)
      reads this, projX, projY
      requires Valid() && n <= projX.Length
      ensures |pts| == n
    {
      Zip(projX[..n], projY[..n])
    }

    constructor ()
      ensures Valid() && projX.Length == 0
      ensures fresh(projX) && fresh(projY)
    {
      projX := new real[0];
      projY := new real[0];
    }

    /**
     * Grow both buffers to at least n entries, keeping what they hold; the new
     * entries have no meaningful value yet. Buffers already long enough are
     * left alone.
     */
    method EnsureProjCapacity(n: nat)
      requires Valid()
      modifies this
      ensures Valid()
      ensures old(projX.Length) < n ==> projX.Length == n && fresh(projX) && fresh(projY)
      ensures old(projX.Length) >= n ==> projX == old(projX) && projY == old(projY)
      ensures projX.Length >= n && projX.Length >= old(projX.Length)
      ensures projX[..old(projX.Length)] == old(projX[..])
      ensures projY[..old(projY.Length)] == old(projY[..])
    {
      if projX.Length < n {
        var nx := new real[n];
        var ny := new real[n];
        forall k | 0 <= k < projX.Length {
          nx[k] := projX[k];
        }
        forall k | 0 <= k < projY.Length {
          ny[k] := projY[k];
        }
        projX, projY := nx, ny;
      }
    }

    /** Project every vertex once into the first |vertices| buffer entries; the rest stay as they were. */
    method ProjectVertices(project: Vec3 -> Vec2, vertices: seq<Vec3>)
      requires Valid() && |vertices| <= projX.Length
      modifies projX, projY
      ensures Points(|vertices|) == Projected(project, vertices)
      ensures projX[|vertices|..] == old(projX[..])[|vertices|..]
      ensures projY[|vertices|..] == old(projY[..])[|vertices|..]
    {
      var i := 0;
      while i < |vertices|
        invariant 0 <= i <= |vertices|
        invariant forall k :: 0 <= k < i ==> Vec2(projX[k], projY[k]) == project(vertices[k])
        invariant forall k :: i <= k < projX.Length ==> projX[k] == old(projX[k]) && projY[k] == old(projY[k])
      {
        var s := project(vertices[i]);
        projX[i] := s.x;
        projY[i] := s.y;
        i := i + 1;
      }
      assert Points(|vertices|) == Projected(project, vertices);
    }

    /** The buffered projection of vertex j. */
    method ProjectedAt(n: nat, j: nat) returns (p: Vec2)
      requires Valid() && j < n <= projX.Length
      ensures p == Points(n)[j]
    {
      p := Vec2(projX[j], projY[j]);
    }

    /** The vertex loop: the first nearest vertex among the first n buffered points. */
    method NearestVertex(n: nat, m: Vec2, vRad: real) returns (id: int)
      requires Valid() && n <= projX.Length
      ensures id == FirstNearest(VertexDists(Points(n), m), VertexOks(Points(n), m, vRad), n)
    {
      ghost var pts := Points(n);
      ghost var d, ok := VertexDists(pts, m), VertexOks(pts, m, vRad);
      id := -1;
      var bestDist := 0.0;  // Infinity while id == -1
      var i := 0;
      while i < n
        invariant 0 <= i <= n
        invariant id == FirstNearest(d, ok, i)
        invariant id != -1 ==> bestDist == d[id]
      {
        var dd := Dist2(m, Vec2(projX[i], projY[i]));
        id, bestDist := KeepNearer(d, ok, i, Within(dd, vRad), dd, id, bestDist);
        i := i + 1;
      }
    }

    /** The edge loop: the first nearest admitted edge, over the first n buffered points. */
    method NearestEdge(n: nat, edges: seq<Edge>, m: Vec2, vRad: real, eTol: real) returns (id: int)
      requires Valid() && n <= projX.Length && EdgesInRange(edges, n)
      ensures id == FirstNearest(EdgeDists(Points(n), edges, m), EdgeOks(Points(n), edges, m, vRad, eTol), |edges|)
    {
      ghost var pts := Points(n);
      var guard := EndpointGuard(vRad);
      id := -1;
      var bestDist := 0.0;  // Infinity while id == -1
      var i := 0;
      while i < |edges|
        invariant 0 <= i <= |edges|
        invariant EdgesScanned(pts, edges, m, vRad, eTol, i, id, bestDist)
      {
        var e := edges[i];
        assert e in edges;
        var a := ProjectedAt(n, e.a);
        var b := ProjectedAt(n, e.b);
        id, bestDist := EdgeStep(pts, edges, m, guard, vRad, eTol, i, a, b, id, bestDist);
        i := i + 1;
      }
    }

    /**
     * hitTest: reject an empty viewport or mesh, project every vertex into the
     * scratch buffers, then run the vertex loop and, when no vertex is hit,
     * the edge loop.
     */
    method Pick(mouse: Vec2, project: Vec3 -> Vec2, vp: Viewport, vertices: seq<Vec3>, edges: seq<Edge>,
                o: HitOverrides)
      returns (hit: Hit)
      requires Valid() && EdgesInRange(edges, |vertices|)
      modifies this, projX, projY
      ensures Valid()
      ensures hit == HitOf(mouse, Projected(project, vertices), edges, vp, o)
      ensures Rejected(vp, |vertices|) ==>
        projX == old(projX) && projY == old(projY) && projX[..] == old(projX[..]) && projY[..] == old(projY[..])
      ensures !Rejected(vp, |vertices|) ==>
        && projX.Length == (if old(projX.Length) < |vertices| then |vertices| else old(projX.Length))
        && Points(|vertices|) == Projected(project, vertices)
      ensures !Rejected(vp, |vertices|) && old(projX.Length) >= |vertices| ==>
        projX[|vertices|..] == old(projX[..])[|vertices|..] && projY[|vertices|..] == old(projY[..])[|vertices|..]
    {
      if vp.width <= 0.0 || vp.height <= 0.0 || |vertices| == 0 {
        return NoHit;
      }
      var vRad := VertexRadius(o);
      var eTol := EdgeTolerance(o);

      EnsureProjCapacity(|vertices|);
      ProjectVertices(project, vertices);

      var v := NearestVertex(|vertices|, mouse, vRad);
      if v != -1 {
        return VertexHit(v);
      }
      var e := NearestEdge(|vertices|, edges, mouse, vRad, eTol);
      if e != -1 {
        return EdgeHit(e);
      }
      return NoHit;
    }
  }

  /**
   * One step of either loop: entry i, admitted or not, with distance dd,
   * replaces the best so far when admitted and strictly nearer (the best
   * distance is Infinity while nothing is found).
   */
  method KeepNearer(ghost d: seq<real>, ghost ok: seq<bool>, i: nat, admitted: bool, dd: real,
                    id: int, bestDist: real)
    returns (id': int, bestDist': real)
    requires i < |d| == |ok| && ok[i] == admitted && (admitted ==> d[i] == dd)
    requires id == FirstNearest(d, ok, i) && (id != -1 ==> bestDist == d[id])
    ensures id' == FirstNearest(d, ok, i + 1) && (id' != -1 ==> bestDist' == d[id'])
  {
    if admitted && (id == -1 || dd < bestDist) {
      id', bestDist' := i, dd;
    } else {
      id', bestDist' := id, bestDist;
    }
  }

  /** After the first i edges the loop holds the first nearest admitted edge so far and its distance. */
  ghost predicate EdgesScanned(pts: seq<Vec2>, edges: seq<Edge>, m: Vec2, vRad: real, eTol: real,
                               i: nat, id: int, bestDist: real)
    requires EdgesInRange(edges, |pts|) && i <= |edges|
  {
    var d, ok := EdgeDists(pts, edges, m), EdgeOks(pts, edges, m, vRad, eTol);
    id == FirstNearest(d, ok, i) && (id != -1 ==> bestDist == d[id])
  }

  /** One pass of the edges loop over the projected points pts: test edge i, then keep the nearer. */
  method EdgeStep(ghost pts: seq<Vec2>, edges: seq<Edge>, m: Vec2, guard: real, vRad: real, eTol: real,
                  i: nat, a: Vec2, b: Vec2, id: int, bestDist: real)
    returns (id': int, bestDist': real)
    requires EdgesInRange(edges, |pts|) && i < |edges| && guard == EndpointGuard(vRad)
    requires a == pts[edges[i].a] && b == pts[edges[i].b]
    requires EdgesScanned(pts, edges, m, vRad, eTol, i, id, bestDist)
    ensures EdgesScanned(pts, edges, m, vRad, eTol, i + 1, id', bestDist')
  {
    var admitted, dd := EdgeCandidate(m, a, b, guard, vRad, eTol);
    id', bestDist' := KeepNearer(EdgeDists(pts, edges, m), EdgeOks(pts, edges, m, vRad, eTol), i, admitted, dd,
                                 id, bestDist);
  }

  /** The quick rejects of one edge, then its segment distance against the tolerance. */
  method EdgeCandidate(m: Vec2, a: Vec2, b: Vec2, guard: real, vRad: real, eTol: real)
    returns (admitted: bool, dd: real)
    requires guard == EndpointGuard(vRad)
    ensures admitted == EdgeAdmitted(m, a, b, vRad, eTol)
    ensures admitted ==> dd == PointSegmentDist2(m, a, b)
  {
    var pass := EdgeTest(m, a, b, guard, eTol);
    if !pass {
      return false, 0.0;
    }
    dd := PointSegmentDist2(m, a, b);
    admitted := Within(dd, eTol);
  }

  /**
   * The two quick rejects of the edge loop, in order: the grown bounding box,
   * then the endpoint guard.
   */
  method EdgeTest(m: Vec2, a: Vec2, b: Vec2, guard: real, eTol: real) returns (pass: bool)
    ensures pass <==> InBox(m, a, b, eTol) && OutsideGuard(m, a, b, guard)
  {
    var minX := (if a.x < b.x then a.x else b.x) - eTol;
    var maxX := (if a.x > b.x then a.x else b.x) + eTol;
    var minY := (if a.y < b.y then a.y else b.y) - eTol;
    var maxY := (if a.y > b.y then a.y else b.y) + eTol;
    if m.x < minX || m.x > maxX || m.y < minY || m.y > maxY {
      return false;
    }
    var dA := Dist2(m, a);
    var dB := Dist2(m, b);
    if Within(dA, guard) || Within(dB, guard) {
      return false;
    }
    return true;
  }
}
