// Shared arithmetic helpers of the viewer (scalar easing and 2D screen-space
// geometry), src/util.ts. Numbers are exact reals; distances are kept squared
// so that no square root is needed: a test `Math.hypot(..) < r` becomes
// `Within(d2, r)`, that is `0 < r && d2 < r * r`.
module Util {

  function Min(x: real, y: real): real { if x <= y then x else y }
  function Max(x: real, y: real): real { if x >= y then x else y }

  /** x pulled into [lo, hi]: below lo gives lo, above hi gives hi; lo wins when the bounds cross. */
  function Clamp(x: real, lo: real, hi: real): (r: real)
    ensures lo <= hi ==> lo <= r <= hi
    ensures lo <= x <= hi ==> r == x
    ensures x <= lo ==> r == lo
    ensures lo <= hi && hi <= x ==> r == hi
    ensures hi < lo ==> r == lo
  {
    Max(lo, Min(hi, x))
  }

  function Clamp01(x: real): (r: real)
    ensures 0.0 <= r <= 1.0
    ensures 0.0 <= x <= 1.0 ==> r == x
    ensures r == 0.0 <==> x <= 0.0
    ensures r == 1.0 <==> x >= 1.0
  {
    Clamp(x, 0.0, 1.0)
  }

  // Products go through Mul so that the sign lemmas below are stated about
  // one term that the solver does not rewrite.
  function Mul(x: real, y: real): real { x * y }

  lemma MulNonNeg(x: real, y: real)
    requires 0.0 <= x && 0.0 <= y
    ensures 0.0 <= Mul(x, y)
  {
  }

  lemma MulPos(x: real, y: real)
    requires 0.0 < x && 0.0 < y
    ensures 0.0 < Mul(x, y)
  {
  }

  function Sq(x: real): real { Mul(x, x) }

  lemma SqSign(x: real)
    ensures 0.0 <= Sq(x)
    ensures x != 0.0 ==> 0.0 < Sq(x)
  {
    if x > 0.0 {
      MulPos(x, x);
    } else if x < 0.0 {
      MulPos(-x, -x);
      assert Mul(-x, -x) == Mul(x, x);
    }
  }

  /** a + (b - a) * t */
  function Lerp(a: real, b: real, t: real): (r: real)
    ensures t == 0.0 ==> r == a
    ensures t == 1.0 ==> r == b
    ensures 0.0 <= t <= 1.0 ==> Min(a, b) <= r <= Max(a, b)
  {
    LerpBetween(a, b, t);
    a + Mul(b - a, t)
  }

  lemma LerpBetween(a: real, b: real, t: real)
    ensures 0.0 <= t <= 1.0 ==> Min(a, b) <= a + Mul(b - a, t) <= Max(a, b)
  {
    if 0.0 <= t <= 1.0 {
      if a <= b {
        MulNonNeg(b - a, t);
        MulNonNeg(b - a, 1.0 - t);
        assert Mul(b - a, 1.0 - t) == (b - a) - Mul(b - a, t);
      } else {
        MulNonNeg(a - b, t);
        MulNonNeg(a - b, 1.0 - t);
        assert Mul(b - a, t) == -Mul(a - b, t);
        assert Mul(a - b, 1.0 - t) == (a - b) - Mul(a - b, t);
      }
    }
  }

  /** Where v lies between a and b, as a fraction; 0 for an empty interval. */
  function InvLerp(a: real, b: real, v: real): (r: real)
    ensures a == b ==> r == 0.0
    ensures a != b && v == a ==> r == 0.0
    ensures a != b && v == b ==> r == 1.0
    ensures a != b ==> Lerp(a, b, r) == v
  {
    if a == b then 0.0 else InvLerpProper(a, b, v); (v - a) / (b - a)
  }

  lemma InvLerpProper(a: real, b: real, v: real)
    requires a != b
    ensures v == a ==> (v - a) / (b - a) == 0.0
    ensures v == b ==> (v - a) / (b - a) == 1.0
    ensures a + Mul(b - a, (v - a) / (b - a)) == v
  {
    MulDiv(v - a, b - a);
    if v == b {
      DivSelf(b - a);
    }
  }

  /** The other direction of the round trip: InvLerp undoes Lerp on a proper interval. */
  lemma InvLerpOfLerp(a: real, b: real, t: real)
    requires a != b
    ensures InvLerp(a, b, Lerp(a, b, t)) == t
  {
    var v := Lerp(a, b, t);
    assert v - a == Mul(b - a, t);
    DivOfMul(t, b - a);
  }

  lemma DivSelf(d: real)
    requires d != 0.0
    ensures d / d == 1.0
  {
  }

  lemma DivOfMul(t: real, d: real)
    requires d != 0.0
    ensures Mul(d, t) / d == t
  {
  }

  lemma MulDiv(n: real, d: real)
    requires d != 0.0
    ensures Mul(d, n / d) == n
  {
  }

  /** Dividing by a positive number keeps the order. */
  lemma DivMonotone(n: real, m: real, d: real)
    requires 0.0 < d && n <= m
    ensures n / d <= m / d
  {
    DivSign(m - n, d);
    assert (m - n) / d == m / d - n / d;
  }

  lemma DivSign(n: real, d: real)
    requires 0.0 < d
    ensures n <= 0.0 <==> n / d <= 0.0
    ensures d <= n <==> n / d >= 1.0
  {
    var q := n / d;
    MulDiv(n, d);
    if q > 0.0 {
      MulPos(d, q);
    } else {
      MulNonNeg(d, -q);
      assert Mul(d, -q) == -Mul(d, q);
    }
    if q < 1.0 {
      MulPos(d, 1.0 - q);
      assert Mul(d, 1.0 - q) == d - Mul(d, q);
    } else {
      MulNonNeg(d, q - 1.0);
      assert Mul(d, q - 1.0) == Mul(d, q) - d;
    }
  }

  function Smoothstep(edge0: real, edge1: real, x: real): (r: real)
    ensures 0.0 <= r <= 1.0
    ensures edge0 < edge1 && x <= edge0 ==> r == 0.0
    ensures edge0 < edge1 && x >= edge1 ==> r == 1.0
  {
    var t := Clamp01(InvLerp(edge0, edge1, x));
    SmoothstepPolyBounds(t);
    SmoothstepEnds(edge0, edge1, x);
    Mul(Sq(t), 3.0 - 2.0 * t)
  }

  lemma SmoothstepEnds(edge0: real, edge1: real, x: real)
    ensures edge0 < edge1 && x <= edge0 ==> InvLerp(edge0, edge1, x) <= 0.0
    ensures edge0 < edge1 && x >= edge1 ==> InvLerp(edge0, edge1, x) >= 1.0
  {
    if edge0 < edge1 {
      DivSign(x - edge0, edge1 - edge0);
    }
  }

  lemma SmoothstepPolyBounds(t: real)
    requires 0.0 <= t <= 1.0
    ensures 0.0 <= Mul(Sq(t), 3.0 - 2.0 * t) <= 1.0
    ensures t == 0.0 ==> Mul(Sq(t), 3.0 - 2.0 * t) == 0.0
    ensures t == 1.0 ==> Mul(Sq(t), 3.0 - 2.0 * t) == 1.0
  {
    SqSign(t);
    MulNonNeg(Sq(t), 3.0 - 2.0 * t);
    SqSign(1.0 - t);
    MulNonNeg(Sq(1.0 - t), 1.0 + 2.0 * t);
    assert 1.0 - Mul(Sq(t), 3.0 - 2.0 * t) == Mul(Sq(1.0 - t), 1.0 + 2.0 * t);
  }

  function Cube(x: real): real { Mul(Sq(x), x) }

  lemma CubeSign(x: real)
    ensures 0.0 <= x ==> 0.0 <= Cube(x)
    ensures 0.0 < x ==> 0.0 < Cube(x)
  {
    SqSign(x);
    if 0.0 < x {
      MulPos(Sq(x), x);
    } else if x == 0.0 {
      assert Cube(x) == 0.0;
    }
  }

  lemma CubeMonotone(x: real, y: real)
    requires 0.0 <= x <= y
    ensures Cube(x) <= Cube(y)
  {
    // y^3 - x^3 = (y - x) (x^2 + x y + y^2)
    MulNonNeg(x, y);
    SqSign(x);
    SqSign(y);
    MulNonNeg(y - x, Sq(x) + Mul(x, y) + Sq(y));
    assert Cube(y) - Cube(x) == Mul(y - x, Sq(x) + Mul(x, y) + Sq(y));
  }

  /** Cubic ease-in-out of the clamped input: 4t^3 below one half, 1 - (2 - 2t)^3 / 2 from there on. */
  function EaseCubicInOut(t0: real): (r: real)
    ensures 0.0 <= r <= 1.0
    ensures r == 0.0 <==> t0 <= 0.0
    ensures t0 >= 1.0 ==> r == 1.0
  {
    var t := Clamp01(t0);
    EaseBounds(t);
    if t < 0.5 then 4.0 * Cube(t) else 1.0 - Cube(-2.0 * t + 2.0) / 2.0
  }

  lemma EaseBounds(t: real)
    requires 0.0 <= t <= 1.0
    ensures t < 0.5 ==> 0.0 <= 4.0 * Cube(t) < 0.5
    ensures t < 0.5 ==> (4.0 * Cube(t) == 0.0 <==> t == 0.0)
    ensures t >= 0.5 ==> 0.5 <= 1.0 - Cube(-2.0 * t + 2.0) / 2.0 <= 1.0
    ensures t == 1.0 ==> 1.0 - Cube(-2.0 * t + 2.0) / 2.0 == 1.0
  {
    if t < 0.5 {
      EaseLowerHalf(t);
    } else {
      EaseUpperHalf(-2.0 * t + 2.0);
    }
  }

  lemma EaseLowerHalf(t: real)
    requires 0.0 <= t < 0.5
    ensures 0.0 <= Cube(t) < 0.125
    ensures Cube(t) == 0.0 <==> t == 0.0
  {
    CubeSign(t);
    CubeMonotone(t, 0.5);
    assert Cube(0.5) == 0.125;
    if Cube(t) == 0.125 {
      CubeStrict(t, 0.5);
    }
    if t == 0.0 {
      assert Cube(t) == 0.0;
    }
  }

  lemma CubeStrict(x: real, y: real)
    requires 0.0 <= x < y
    ensures Cube(x) < Cube(y)
  {
    MulNonNeg(x, y);
    SqSign(x);
    SqSign(y);
    MulPos(y - x, Sq(x) + Mul(x, y) + Sq(y));
    assert Cube(y) - Cube(x) == Mul(y - x, Sq(x) + Mul(x, y) + Sq(y));
  }

  lemma EaseUpperHalf(u: real)
    requires 0.0 <= u <= 1.0
    ensures 0.0 <= Cube(u) <= 1.0
    ensures u == 0.0 ==> Cube(u) == 0.0
  {
    CubeSign(u);
    CubeMonotone(u, 1.0);
    assert Cube(1.0) == 1.0;
    if u == 0.0 {
      assert Cube(u) == 0.0;
    }
  }

  /** The ease curve never decreases: a later input is at least as far along. */
  lemma EaseMonotone(x: real, y: real)
    requires x <= y
    ensures EaseCubicInOut(x) <= EaseCubicInOut(y)
  {
    var s, t := Clamp01(x), Clamp01(y);
    assert s <= t;
    EaseBounds(s);
    EaseBounds(t);
    if t < 0.5 {
      CubeMonotone(s, t);
      assert EaseCubicInOut(x) == 4.0 * Cube(s);
      assert EaseCubicInOut(y) == 4.0 * Cube(t);
    } else if s >= 0.5 {
      CubeMonotone(-2.0 * t + 2.0, -2.0 * s + 2.0);
      assert EaseCubicInOut(x) == 1.0 - Cube(-2.0 * s + 2.0) / 2.0;
      assert EaseCubicInOut(y) == 1.0 - Cube(-2.0 * t + 2.0) / 2.0;
    } else {
      assert EaseCubicInOut(x) == 4.0 * Cube(s);
      assert EaseCubicInOut(y) == 1.0 - Cube(-2.0 * t + 2.0) / 2.0;
    }
  }

  /** The ease curve is point-symmetric about (1/2, 1/2). */
  lemma EaseSymmetric(t: real)
    requires 0.0 <= t <= 1.0
    ensures EaseCubicInOut(1.0 - t) == 1.0 - EaseCubicInOut(t)
  {
    if t < 0.5 {
      assert -2.0 * (1.0 - t) + 2.0 == 2.0 * t;
      assert Cube(2.0 * t) == 8.0 * Cube(t);
    } else if t > 0.5 {
      assert -2.0 * t + 2.0 == 2.0 * (1.0 - t);
      assert Cube(2.0 * (1.0 - t)) == 8.0 * Cube(1.0 - t);
    } else {
      assert Cube(1.0) == 1.0;
    }
  }

  /** approxEq's default tolerance. */
  const DefaultEps := 0.000001

  /** a and b differ by at most eps (approxEq). */
  function ApproxEq(a: real, b: real, eps: real): (r: bool)
    ensures r <==> a - eps <= b <= a + eps
    ensures a == b ==> (r <==> eps >= 0.0)
  {
    (if a >= b then a - b else b - a) <= eps
  }

  /** With the default tolerance a value is close to itself and to anything within 10^-6, and no farther. */
  lemma ApproxEqDefault(a: real)
    ensures ApproxEq(a, a, DefaultEps)
    ensures ApproxEq(a, a + 0.000001, DefaultEps) && ApproxEq(a, a - 0.000001, DefaultEps)
    ensures !ApproxEq(a, a + 0.000002, DefaultEps) && !ApproxEq(a, a - 0.000002, DefaultEps)
  {
  }

  /** Closeness does not depend on the order of the two values. */
  lemma ApproxEqSymmetric(a: real, b: real, eps: real)
    ensures ApproxEq(a, b, eps) == ApproxEq(b, a, eps)
  {
  }

  /** A point in screen space (CSS pixels). */
  datatype Vec2 = Vec2(x: real, y: real)

  /** Squared Euclidean distance between two screen points (dist2). */
  function Dist2(p: Vec2, q: Vec2): (r: real)
    ensures r >= 0.0
    ensures p != q ==> r > 0.0
  {
    SqSign(p.x - q.x);
    SqSign(p.y - q.y);
    Sq(p.x - q.x) + Sq(p.y - q.y)
  }

  lemma Dist2Symmetric(p: Vec2, q: Vec2)
    ensures Dist2(p, q) == Dist2(q, p)
  {
    assert Sq(p.x - q.x) == Sq(q.x - p.x);
    assert Sq(p.y - q.y) == Sq(q.y - p.y);
  }

  /** `hypot < r` on the squared distance d2 (d2 >= 0). */
  predicate Within(d2: real, r: real)
  {
    0.0 < r && d2 < Sq(r)
  }

  /** The point at parameter s along the segment from a to b. */
  function Along(a: Vec2, b: Vec2, s: real): Vec2
  {
    Vec2(a.x + Mul(s, b.x - a.x), a.y + Mul(s, b.y - a.y))
  }

  /** The dot product (p - a) . (b - a). */
  function Proj(p: Vec2, a: Vec2, b: Vec2): real
  {
    Mul(p.x - a.x, b.x - a.x) + Mul(p.y - a.y, b.y - a.y)
  }

  /** The segment parameter of the point of [a, b] closest to p, clamped to [0, 1]. */
  function ClosestParam(p: Vec2, a: Vec2, b: Vec2): (tt: real)
    requires a != b
    ensures 0.0 <= tt <= 1.0
  {
    Clamp(Proj(p, a, b) / Dist2(b, a), 0.0, 1.0)
  }

  /**
   * Squared distance from p to the segment [a, b]: pointSegmentDistance squared
   * (the source takes Math.hypot of the same offsets).
   */
  function PointSegmentDist2(p: Vec2, a: Vec2, b: Vec2): (r: real)
    ensures r >= 0.0
    ensures a == b ==> r == Dist2(p, a)
  {
    if b.x - a.x == 0.0 && b.y - a.y == 0.0 then Dist2(p, a)
    else Dist2(p, Along(a, b, ClosestParam(p, a, b)))
  }

  /** The segment distance is reached: some point of the segment lies exactly that far from p. */
  lemma PointSegmentDistAttained(p: Vec2, a: Vec2, b: Vec2)
    ensures exists s :: 0.0 <= s <= 1.0 && PointSegmentDist2(p, a, b) == Dist2(p, Along(a, b, s))
  {
    if b.x - a.x == 0.0 && b.y - a.y == 0.0 {
      assert Along(a, b, 0.0) == a;
      assert PointSegmentDist2(p, a, b) == Dist2(p, Along(a, b, 0.0));
    } else {
      var s := ClosestParam(p, a, b);
      assert PointSegmentDist2(p, a, b) == Dist2(p, Along(a, b, s));
    }
  }

  /** One coordinate of f(s) - f(u) for the quadratic f(s) = |p - Along(a, b, s)|^2. */
  lemma CoordDifference(e: real, d: real, s: real, u: real)
    ensures Sq(e - Mul(s, d)) - Sq(e - Mul(u, d))
         == Mul(s - u, Mul(s + u, Sq(d)) - 2.0 * Mul(e, d))
  {
    assert Sq(e - Mul(s, d)) == e * e - 2.0 * s * e * d + s * s * d * d;
    assert Sq(e - Mul(u, d)) == e * e - 2.0 * u * e * d + u * u * d * d;
  }

  /** f(s) - f(u) for the quadratic f(s) = |p - Along(a, b, s)|^2. */
  lemma QuadraticDifference(p: Vec2, a: Vec2, b: Vec2, s: real, u: real)
    ensures Dist2(p, Along(a, b, s)) - Dist2(p, Along(a, b, u))
         == Mul(s - u, Mul(s + u, Dist2(b, a)) - 2.0 * Proj(p, a, b))
  {
    var dx, dy := b.x - a.x, b.y - a.y;
    var ex, ey := p.x - a.x, p.y - a.y;
    CoordDifference(ex, dx, s, u);
    CoordDifference(ey, dy, s, u);
    assert Dist2(p, Along(a, b, s)) == Sq(ex - Mul(s, dx)) + Sq(ey - Mul(s, dy));
    assert Dist2(p, Along(a, b, u)) == Sq(ex - Mul(u, dx)) + Sq(ey - Mul(u, dy));
    assert Dist2(b, a) == Sq(dx) + Sq(dy);
    assert Proj(p, a, b) == Mul(ex, dx) + Mul(ey, dy);
    SumOfProducts(s - u, s + u, Sq(dx), Sq(dy), Mul(ex, dx), Mul(ey, dy));
  }

  lemma SumOfProducts(m: real, n: real, x1: real, x2: real, y1: real, y2: real)
    ensures Mul(m, Mul(n, x1) - 2.0 * y1) + Mul(m, Mul(n, x2) - 2.0 * y2)
         == Mul(m, Mul(n, x1 + x2) - 2.0 * (y1 + y2))
  {
  }

  /**
   * The point-to-segment distance is the least distance from p to any point of
   * the segment.
   */
  lemma PointSegmentDistIsMinimal(p: Vec2, a: Vec2, b: Vec2, s: real)
    requires 0.0 <= s <= 1.0
    ensures PointSegmentDist2(p, a, b) <= Dist2(p, Along(a, b, s))
  {
    if b.x - a.x == 0.0 && b.y - a.y == 0.0 {
      assert Along(a, b, s) == a;
    } else {
      var tt := ClosestParam(p, a, b);
      assert PointSegmentDist2(p, a, b) == Dist2(p, Along(a, b, tt));
      QuadraticDifference(p, a, b, s, tt);
      ClampedParamGap(Dist2(b, a), Proj(p, a, b), s);
    }
  }

  /** The algebraic core: (s - tt) ((s + tt) len2 - 2k) >= 0 for tt = clamp01(k / len2). */
  lemma ClampedParamGap(len2: real, k: real, s: real)
    requires len2 > 0.0 && 0.0 <= s <= 1.0
    ensures 0.0 <= Mul(s - Clamp(k / len2, 0.0, 1.0), Mul(s + Clamp(k / len2, 0.0, 1.0), len2) - 2.0 * k)
  {
    var t := k / len2;
    var tt := Clamp(t, 0.0, 1.0);
    assert k == t * len2;
    var g := Mul(s - tt, s + tt - 2.0 * t);
    assert Mul(s - tt, Mul(s + tt, len2) - 2.0 * k) == Mul(len2, g);
    if t < 0.0 {
      MulNonNeg(s, s - 2.0 * t);
      assert g == Mul(s, s - 2.0 * t);
    } else if t > 1.0 {
      MulNonNeg(1.0 - s, 2.0 * t - s - 1.0);
      assert g == Mul(1.0 - s, 2.0 * t - s - 1.0);
    } else {
      SqSign(s - t);
      assert g == Sq(s - t);
    }
    MulNonNeg(len2, g);
  }

  /** ... so it is never more than the distance to either endpoint. */
  lemma PointSegmentDistAtMostEndpoints(p: Vec2, a: Vec2, b: Vec2)
    ensures PointSegmentDist2(p, a, b) <= Dist2(p, a)
    ensures PointSegmentDist2(p, a, b) <= Dist2(p, b)
  {
    PointSegmentDistIsMinimal(p, a, b, 0.0);
    assert Along(a, b, 0.0) == a;
    PointSegmentDistIsMinimal(p, a, b, 1.0);
    assert Along(a, b, 1.0) == b;
  }
}
