/** Closed segments of the plane: what the sign tests say about where they meet. */
module Segments {
  import opened Plane

  /** cross_2d is the doubled signed area Tri2. */

  function Lerp(a: Point, b: Point, t: real): Point {
    Point(a.x + t * (b.x - a.x), a.y + t * (b.y - a.y))
  }

  /** p lies on the closed segment from a to b. */
  ghost predicate Lies(p: Point, a: Point, b: Point) {
    exists t: real :: 0.0 <= t <= 1.0 && p == Lerp(a, b, t)
  }

  /** The closed segments p1-p2 and p3-p4 have a point in common. */
  ghost predicate Meet(p1: Point, p2: Point, p3: Point, p4: Point) {
    exists p :: Lies(p, p1, p2) && Lies(p, p3, p4)
  }

  predicate Opposite(x: real, y: real) {
    (x > 0.0 && y < 0.0) || (x < 0.0 && y > 0.0)
  }

  /** segments_intersect. */
  predicate SegmentsIntersect(p1: Point, p2: Point, p3: Point, p4: Point) {
    Opposite(Tri2(p3, p4, p1), Tri2(p3, p4, p2)) && Opposite(Tri2(p1, p2, p3), Tri2(p1, p2, p4))
  }

  /** The on_segment test of polygon_is_valid. */
  predicate OnSegment(p: Point, a: Point, b: Point) {
    Tri2(a, b, p) == 0.0 && Boxed(p, a, b)
  }

  lemma Between(u: real, v: real, t: real)
    requires 0.0 <= t <= 1.0
    ensures Min(u, v) <= u + t * (v - u) <= Max(u, v)
  {
    var d, e := if v >= u then v - u else u - v, 1.0 - t;
    ProductNotNegative(t, d);
    ProductNotNegative(e, d);
    assert e * d == d - t * d;
    assert t * (v - u) == if v >= u then t * d else -(t * d);
  }

  lemma ProductNotNegative(a: real, b: real)
    requires a >= 0.0 && b >= 0.0
    ensures a * b >= 0.0
  {
  }

  lemma LerpCollinear(a: Point, b: Point, t: real)
    ensures Tri2(a, b, Lerp(a, b, t)) == 0.0
  {
    var dx, dy := b.x - a.x, b.y - a.y;
    assert Lerp(a, b, t).x - a.x == t * dx && Lerp(a, b, t).y - a.y == t * dy;
    assert dx * (t * dy) == t * (dx * dy) && dy * (t * dx) == t * (dx * dy);
  }

  /** The place of w between u and v, as a fraction. */
  lemma Fraction(u: real, v: real, w: real) returns (t: real)
    requires u != v && Min(u, v) <= w <= Max(u, v)
    ensures 0.0 <= t <= 1.0 && w == u + t * (v - u)
  {
    t := (w - u) / (v - u);
    assert t * (v - u) == w - u;
    if v > u {
      FractionBounds(w - u, v - u, t);
    } else {
      assert t * (u - v) == u - w;
      FractionBounds(u - w, u - v, t);
    }
  }

  lemma ProductSign(t: real, d: real)
    requires d > 0.0
    ensures t * d < 0.0 <==> t < 0.0
  {
    if t >= 0.0 {
      assert t * d >= 0.0;
    } else {
      assert (-t) * d > 0.0;
    }
  }

  lemma FractionBounds(x: real, d: real, t: real)
    requires d > 0.0 && t * d == x && 0.0 <= x <= d
    ensures 0.0 <= t <= 1.0
  {
    ProductSign(t, d);
    ProductSign(1.0 - t, d);
    assert (1.0 - t) * d == d - x;
  }

  /** If dx times u equals dy times v and dx is not zero, then u is dy times the quotient of v and dx. */
  lemma Proportion(dx: real, dy: real, u: real, v: real, t: real)
    requires dx != 0.0 && dx * u == dy * v && v == t * dx
    ensures u == t * dy
  {
    assert dx * u == dx * (t * dy);
    assert dx * (u - t * dy) == 0.0;
  }

  /** The on_segment test is exact. */
  lemma OnSegmentExact(p: Point, a: Point, b: Point)
    ensures OnSegment(p, a, b) <==> Lies(p, a, b)
  {
    if Lies(p, a, b) {
      var t: real :| 0.0 <= t <= 1.0 && p == Lerp(a, b, t);
      LerpCollinear(a, b, t);
      Between(a.x, b.x, t);
      Between(a.y, b.y, t);
    }
    if OnSegment(p, a, b) {
      OnSegmentLies(p, a, b);
    }
  }

  lemma LiesByX(p: Point, a: Point, b: Point)
    requires Tri2(a, b, p) == 0.0 && a.x != b.x && Min(a.x, b.x) <= p.x <= Max(a.x, b.x)
    ensures Lies(p, a, b)
  {
    var t := Fraction(a.x, b.x, p.x);
    Proportion(b.x - a.x, b.y - a.y, p.y - a.y, p.x - a.x, t);
    assert p == Lerp(a, b, t);
  }

  lemma LiesByY(p: Point, a: Point, b: Point)
    requires Tri2(a, b, p) == 0.0 && a.y != b.y && Min(a.y, b.y) <= p.y <= Max(a.y, b.y)
    ensures Lies(p, a, b)
  {
    var t := Fraction(a.y, b.y, p.y);
    Proportion(b.y - a.y, b.x - a.x, p.x - a.x, p.y - a.y, t);
    assert p == Lerp(a, b, t);
  }

  lemma OnSegmentLies(p: Point, a: Point, b: Point)
    requires OnSegment(p, a, b)
    ensures Lies(p, a, b)
  {
    if a.x != b.x {
      LiesByX(p, a, b);
    } else if a.y != b.y {
      LiesByY(p, a, b);
    } else {
      assert p == Lerp(a, b, 0.0);
    }
  }

  // --- Where two segments meet ---

  /** The cross product of the two directions. */
  function Turning(p1: Point, p2: Point, p3: Point, p4: Point): real {
    (p2.x - p1.x) * (p4.y - p3.y) - (p2.y - p1.y) * (p4.x - p3.x)
  }

  lemma TurningIs(p1: Point, p2: Point, p3: Point, p4: Point)
    ensures Tri2(p3, p4, p1) - Tri2(p3, p4, p2) == Turning(p1, p2, p3, p4)
    ensures Tri2(p1, p2, p4) - Tri2(p1, p2, p3) == Turning(p1, p2, p3, p4)
  {
  }

  /** Cramer's rule for the crossing point, without the division. */
  lemma Cramer(p1: Point, p2: Point, p3: Point, p4: Point)
    ensures Turning(p1, p2, p3, p4) * p1.x + Tri2(p3, p4, p1) * (p2.x - p1.x)
         == Turning(p1, p2, p3, p4) * p3.x - Tri2(p1, p2, p3) * (p4.x - p3.x)
    ensures Turning(p1, p2, p3, p4) * p1.y + Tri2(p3, p4, p1) * (p2.y - p1.y)
         == Turning(p1, p2, p3, p4) * p3.y - Tri2(p1, p2, p3) * (p4.y - p3.y)
  {
  }

  lemma Cancel(d: real, u: real, v: real)
    requires d != 0.0 && d * u == d * v
    ensures u == v
  {
    assert d * (u - v) == 0.0;
  }

  /** A quotient of numbers with the same sign, the denominator the larger. */
  lemma Quotient(x: real, d: real) returns (q: real)
    requires (0.0 <= x <= d && d > 0.0) || (d <= x <= 0.0 && d < 0.0)
    ensures 0.0 <= q <= 1.0 && q * d == x
  {
    q := x / d;
    assert q * d == x;
    if d > 0.0 {
      FractionBounds(x, d, q);
    } else {
      assert q * (-d) == -x;
      FractionBounds(-x, -d, q);
    }
  }

  /** Where the signs say that each segment crosses the other's line, the segments meet. */
  lemma CrossingMeets(p1: Point, p2: Point, p3: Point, p4: Point)
    requires SegmentsIntersect(p1, p2, p3, p4)
    ensures Meet(p1, p2, p3, p4)
  {
    var d := Turning(p1, p2, p3, p4);
    var d1, d3 := Tri2(p3, p4, p1), Tri2(p1, p2, p3);
    TurningIs(p1, p2, p3, p4);
    var s := Quotient(d1, d);
    var t := Quotient(-d3, d);
    CommonPoint(p1, p2, p3, p4, s, t);
    assert Lies(Lerp(p1, p2, s), p1, p2) && Lies(Lerp(p3, p4, t), p3, p4);
  }

  lemma CommonPoint(p1: Point, p2: Point, p3: Point, p4: Point, s: real, t: real)
    requires Turning(p1, p2, p3, p4) != 0.0
    requires s * Turning(p1, p2, p3, p4) == Tri2(p3, p4, p1) && t * Turning(p1, p2, p3, p4) == -Tri2(p1, p2, p3)
    ensures Lerp(p1, p2, s) == Lerp(p3, p4, t)
  {
    var d := Turning(p1, p2, p3, p4);
    var d1, d3 := Tri2(p3, p4, p1), Tri2(p1, p2, p3);
    Cramer(p1, p2, p3, p4);
    ScaledLerp(d, s, d1, p1, p2);
    ScaledLerp(d, t, -d3, p3, p4);
    Cancel(d, Lerp(p1, p2, s).x, Lerp(p3, p4, t).x);
    Cancel(d, Lerp(p1, p2, s).y, Lerp(p3, p4, t).y);
  }

  lemma ScaledLerp(d: real, s: real, x: real, a: Point, b: Point)
    requires s * d == x
    ensures d * Lerp(a, b, s).x == d * a.x + x * (b.x - a.x)
    ensures d * Lerp(a, b, s).y == d * a.y + x * (b.y - a.y)
  {
    ScaledTerm(d, s, a.x, b.x - a.x);
    ScaledTerm(d, s, a.y, b.y - a.y);
  }

  lemma ScaledTerm(d: real, s: real, u: real, v: real)
    ensures d * (u + s * v) == d * u + (s * d) * v
  {
  }

  /** Along a segment the signed area against a fixed line changes linearly. */
  lemma TriLerp(o: Point, q: Point, a: Point, b: Point, s: real)
    ensures Tri2(o, q, Lerp(a, b, s)) == Tri2(o, q, a) + s * (Tri2(o, q, b) - Tri2(o, q, a))
  {
    var dx, dy := q.x - o.x, q.y - o.y;
    var vx, vy := b.x - a.x, b.y - a.y;
    LinearTerm(dx, a.y - o.y, s, vy);
    LinearTerm(dy, a.x - o.x, s, vx);
    assert Tri2(o, q, b) - Tri2(o, q, a) == dx * vy - dy * vx;
    assert s * (dx * vy - dy * vx) == s * (dx * vy) - s * (dy * vx);
  }

  lemma LinearTerm(d: real, u: real, s: real, v: real)
    ensures d * (u + s * v) == d * u + s * (d * v)
  {
  }

  /** The signs at a common point: each end's signed area is its share of the turning. */
  lemma MeetingSigns(p1: Point, p2: Point, p3: Point, p4: Point, s: real, t: real)
    requires Lerp(p1, p2, s) == Lerp(p3, p4, t)
    ensures var d := Turning(p1, p2, p3, p4);
            Tri2(p3, p4, p1) == s * d && Tri2(p3, p4, p2) == (s - 1.0) * d
            && Tri2(p1, p2, p3) == -(t * d) && Tri2(p1, p2, p4) == (1.0 - t) * d
  {
    var d := Turning(p1, p2, p3, p4);
    TurningIs(p1, p2, p3, p4);
    TriLerp(p3, p4, p1, p2, s);
    LerpCollinear(p3, p4, t);
    TriLerp(p1, p2, p3, p4, t);
    LerpCollinear(p1, p2, s);
    assert s * (-d) == -(s * d) && (s - 1.0) * d == s * d - d && (1.0 - t) * d == d - t * d;
  }

  /** Some end of one segment lies on the other. */
  predicate EndOnOther(p1: Point, p2: Point, p3: Point, p4: Point) {
    OnSegment(p1, p3, p4) || OnSegment(p2, p3, p4) || OnSegment(p3, p1, p2) || OnSegment(p4, p1, p2)
  }

  lemma LerpEnds(a: Point, b: Point)
    ensures Lerp(a, b, 0.0) == a && Lerp(a, b, 1.0) == b
    ensures Lies(a, a, b) && Lies(b, a, b)
  {
    LiesAt(a, a, b, 0.0);
    LiesAt(b, a, b, 1.0);
  }

  lemma LiesAt(p: Point, a: Point, b: Point, t: real)
    requires 0.0 <= t <= 1.0 && p == Lerp(a, b, t)
    ensures Lies(p, a, b)
  {
  }

  lemma SharesOppose(s: real, d: real, x: real, y: real)
    requires 0.0 < s < 1.0 && d != 0.0 && x == s * d && y == (s - 1.0) * d
    ensures Opposite(x, y) && Opposite(-x, -y)
  {
    assert (s - 1.0) * d == -((1.0 - s) * d);
    if d > 0.0 {
      PositiveProduct(s, d);
      PositiveProduct(1.0 - s, d);
    } else {
      PositiveProduct(s, -d);
      PositiveProduct(1.0 - s, -d);
      assert s * (-d) == -(s * d) && (1.0 - s) * (-d) == -((1.0 - s) * d);
    }
  }

  lemma PositiveProduct(a: real, b: real)
    requires a > 0.0 && b > 0.0
    ensures a * b > 0.0
  {
  }

  lemma Negated(t: real, d: real)
    ensures (1.0 - t) * d == -((t - 1.0) * d)
  {
  }

  /** A common point inside both segments, whose directions differ, is a crossing. */
  lemma InnerCrossing(p1: Point, p2: Point, p3: Point, p4: Point, s: real, t: real)
    requires Lerp(p1, p2, s) == Lerp(p3, p4, t) && 0.0 < s < 1.0 && 0.0 < t < 1.0
    requires Turning(p1, p2, p3, p4) != 0.0
    ensures SegmentsIntersect(p1, p2, p3, p4)
  {
    var d := Turning(p1, p2, p3, p4);
    MeetingSigns(p1, p2, p3, p4, s, t);
    SharesOppose(s, d, Tri2(p3, p4, p1), Tri2(p3, p4, p2));
    Negated(t, d);
    SharesOppose(t, d, -Tri2(p1, p2, p3), -Tri2(p1, p2, p4));
  }

  lemma ParallelByX(p1: Point, p2: Point, p3: Point, p4: Point, x: real)
    requires Tri2(p3, p4, p1) == 0.0 && Tri2(p3, p4, p2) == 0.0 && Tri2(p1, p2, p3) == 0.0 && Tri2(p1, p2, p4) == 0.0
    requires p1.x != p2.x && p3.x != p4.x
    requires Min(p1.x, p2.x) <= x <= Max(p1.x, p2.x) && Min(p3.x, p4.x) <= x <= Max(p3.x, p4.x)
    ensures Lies(p1, p3, p4) || Lies(p2, p3, p4) || Lies(p3, p1, p2) || Lies(p4, p1, p2)
  {
    if Min(p1.x, p2.x) >= Min(p3.x, p4.x) {
      if p1.x <= p2.x { LiesByX(p1, p3, p4); } else { LiesByX(p2, p3, p4); }
    } else {
      if p3.x <= p4.x { LiesByX(p3, p1, p2); } else { LiesByX(p4, p1, p2); }
    }
  }

  lemma ParallelByY(p1: Point, p2: Point, p3: Point, p4: Point, y: real)
    requires Tri2(p3, p4, p1) == 0.0 && Tri2(p3, p4, p2) == 0.0 && Tri2(p1, p2, p3) == 0.0 && Tri2(p1, p2, p4) == 0.0
    requires p1.y != p2.y && p3.y != p4.y
    requires Min(p1.y, p2.y) <= y <= Max(p1.y, p2.y) && Min(p3.y, p4.y) <= y <= Max(p3.y, p4.y)
    ensures Lies(p1, p3, p4) || Lies(p2, p3, p4) || Lies(p3, p1, p2) || Lies(p4, p1, p2)
  {
    if Min(p1.y, p2.y) >= Min(p3.y, p4.y) {
      if p1.y <= p2.y { LiesByY(p1, p3, p4); } else { LiesByY(p2, p3, p4); }
    } else {
      if p3.y <= p4.y { LiesByY(p3, p1, p2); } else { LiesByY(p4, p1, p2); }
    }
  }

  lemma ParallelAxis(dx: real, dy: real, ex: real, ey: real)
    requires dx * ey - dy * ex == 0.0 && (dx != 0.0 || dy != 0.0) && (ex != 0.0 || ey != 0.0)
    ensures (dx != 0.0 && ex != 0.0) || (dy != 0.0 && ey != 0.0)
  {
    ZeroProduct(dy, ex);
    ZeroProduct(dx, ey);
  }

  lemma ZeroProduct(a: real, b: real)
    ensures a * b == 0.0 <==> a == 0.0 || b == 0.0
  {
    if a != 0.0 && a * b == 0.0 {
      Cancel(a, b, 0.0);
    }
  }

  lemma OnOneLine(p1: Point, p2: Point, p3: Point, p4: Point, s: real, t: real)
    requires Lerp(p1, p2, s) == Lerp(p3, p4, t) && Turning(p1, p2, p3, p4) == 0.0
    ensures Tri2(p3, p4, p1) == 0.0 && Tri2(p3, p4, p2) == 0.0 && Tri2(p1, p2, p3) == 0.0 && Tri2(p1, p2, p4) == 0.0
  {
    MeetingSigns(p1, p2, p3, p4, s, t);
  }

  /** Segments on one line that meet have an end of one on the other. */
  lemma ParallelMeeting(p1: Point, p2: Point, p3: Point, p4: Point, s: real, t: real)
    requires Lerp(p1, p2, s) == Lerp(p3, p4, t) && 0.0 <= s <= 1.0 && 0.0 <= t <= 1.0
    requires Turning(p1, p2, p3, p4) == 0.0
    ensures Lies(p1, p3, p4) || Lies(p2, p3, p4) || Lies(p3, p1, p2) || Lies(p4, p1, p2)
  {
    var p := Lerp(p1, p2, s);
    if p1 == p2 {
      LiesAt(p1, p3, p4, t);
    } else if p3 == p4 {
      LiesAt(p3, p1, p2, s);
    } else {
      LineMeeting(p1, p2, p3, p4, s, t);
    }
  }

  lemma LineMeeting(p1: Point, p2: Point, p3: Point, p4: Point, s: real, t: real)
    requires Lerp(p1, p2, s) == Lerp(p3, p4, t) && 0.0 <= s <= 1.0 && 0.0 <= t <= 1.0
    requires Turning(p1, p2, p3, p4) == 0.0 && p1 != p2 && p3 != p4
    ensures Lies(p1, p3, p4) || Lies(p2, p3, p4) || Lies(p3, p1, p2) || Lies(p4, p1, p2)
  {
    OnOneLine(p1, p2, p3, p4, s, t);
    LerpBox(p1, p2, s);
    LerpBox(p3, p4, t);
    AxisShared(p1, p2, p3, p4);
    AxisMeeting(p1, p2, p3, p4, Lerp(p1, p2, s));
  }

  lemma LerpBox(a: Point, b: Point, t: real)
    requires 0.0 <= t <= 1.0
    ensures Min(a.x, b.x) <= Lerp(a, b, t).x <= Max(a.x, b.x) && Min(a.y, b.y) <= Lerp(a, b, t).y <= Max(a.y, b.y)
  {
    Between(a.x, b.x, t);
    Between(a.y, b.y, t);
  }

  lemma AxisShared(p1: Point, p2: Point, p3: Point, p4: Point)
    requires Turning(p1, p2, p3, p4) == 0.0 && p1 != p2 && p3 != p4
    ensures (p1.x != p2.x && p3.x != p4.x) || (p1.y != p2.y && p3.y != p4.y)
  {
    ParallelAxis(p2.x - p1.x, p2.y - p1.y, p4.x - p3.x, p4.y - p3.y);
  }

  lemma AxisMeeting(p1: Point, p2: Point, p3: Point, p4: Point, p: Point)
    requires Tri2(p3, p4, p1) == 0.0 && Tri2(p3, p4, p2) == 0.0 && Tri2(p1, p2, p3) == 0.0 && Tri2(p1, p2, p4) == 0.0
    requires Min(p1.x, p2.x) <= p.x <= Max(p1.x, p2.x) && Min(p3.x, p4.x) <= p.x <= Max(p3.x, p4.x)
    requires Min(p1.y, p2.y) <= p.y <= Max(p1.y, p2.y) && Min(p3.y, p4.y) <= p.y <= Max(p3.y, p4.y)
    requires (p1.x != p2.x && p3.x != p4.x) || (p1.y != p2.y && p3.y != p4.y)
    ensures Lies(p1, p3, p4) || Lies(p2, p3, p4) || Lies(p3, p1, p2) || Lies(p4, p1, p2)
  {
    if p1.x != p2.x && p3.x != p4.x {
      ParallelByX(p1, p2, p3, p4, p.x);
    } else {
      ParallelByY(p1, p2, p3, p4, p.y);
    }
  }

  lemma EndLies(p1: Point, p2: Point, p3: Point, p4: Point)
    requires Lies(p1, p3, p4) || Lies(p2, p3, p4) || Lies(p3, p1, p2) || Lies(p4, p1, p2)
    ensures EndOnOther(p1, p2, p3, p4)
  {
    OnSegmentExact(p1, p3, p4);
    OnSegmentExact(p2, p3, p4);
    OnSegmentExact(p3, p1, p2);
    OnSegmentExact(p4, p1, p2);
  }

  lemma MeetingTests(p1: Point, p2: Point, p3: Point, p4: Point, s: real, t: real)
    requires Lerp(p1, p2, s) == Lerp(p3, p4, t) && 0.0 <= s <= 1.0 && 0.0 <= t <= 1.0
    ensures SegmentsIntersect(p1, p2, p3, p4) || EndOnOther(p1, p2, p3, p4)
  {
    if Turning(p1, p2, p3, p4) == 0.0 {
      ParallelMeeting(p1, p2, p3, p4, s, t);
      EndLies(p1, p2, p3, p4);
    } else if 0.0 < s < 1.0 && 0.0 < t < 1.0 {
      InnerCrossing(p1, p2, p3, p4, s, t);
    } else {
      LerpEnds(p1, p2);
      LerpEnds(p3, p4);
      EndLies(p1, p2, p3, p4);
    }
  }

  lemma EndsMeet(p1: Point, p2: Point, p3: Point, p4: Point)
    requires EndOnOther(p1, p2, p3, p4)
    ensures Meet(p1, p2, p3, p4)
  {
    OnSegmentExact(p1, p3, p4);
    OnSegmentExact(p2, p3, p4);
    OnSegmentExact(p3, p1, p2);
    OnSegmentExact(p4, p1, p2);
    LerpEnds(p1, p2);
    LerpEnds(p3, p4);
  }

  /** The strict crossing test and the four end tests together decide exactly whether two closed segments meet. */
  lemma TestsExact(p1: Point, p2: Point, p3: Point, p4: Point)
    ensures SegmentsIntersect(p1, p2, p3, p4) || EndOnOther(p1, p2, p3, p4) <==> Meet(p1, p2, p3, p4)
  {
    if SegmentsIntersect(p1, p2, p3, p4) {
      CrossingMeets(p1, p2, p3, p4);
    }
    if EndOnOther(p1, p2, p3, p4) {
      EndsMeet(p1, p2, p3, p4);
    }
    if Meet(p1, p2, p3, p4) {
      var p :| Lies(p, p1, p2) && Lies(p, p3, p4);
      var s: real :| 0.0 <= s <= 1.0 && p == Lerp(p1, p2, s);
      var t: real :| 0.0 <= t <= 1.0 && p == Lerp(p3, p4, t);
      MeetingTests(p1, p2, p3, p4, s, t);
    }
  }
}
