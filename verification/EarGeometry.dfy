/** The point predicates of the triangulator, and what they say about one another. */
module EarGeometry {
  import opened Plane
  import opened ZOrder

  /** p lies in the closed counter-clockwise triangle a, b, c (by three half-plane tests). */
  predicate ContainsPoint(a: Point, b: Point, c: Point, p: Point) {
    && (c.x - p.x) * (a.y - p.y) >= (a.x - p.x) * (c.y - p.y)
    && (a.x - p.x) * (b.y - p.y) >= (b.x - p.x) * (a.y - p.y)
    && (b.x - p.x) * (c.y - p.y) >= (c.x - p.x) * (b.y - p.y)
  }

  function Sign(v: real): int {
    if v > 0.0 then 1 else if v < 0.0 then -1 else 0
  }

  /** intersects; its onSegment, asked of collinear points, is Boxed. */
  predicate Intersects(p1: Point, q1: Point, p2: Point, q2: Point) {
    var o1 := Sign(Turn(p1, q1, p2));
    var o2 := Sign(Turn(p1, q1, q2));
    var o3 := Sign(Turn(p2, q2, p1));
    var o4 := Sign(Turn(p2, q2, q1));
    || (o1 != o2 && o3 != o4)
    || (o1 == 0 && Boxed(p2, p1, q1))
    || (o2 == 0 && Boxed(q2, p1, q1))
    || (o3 == 0 && Boxed(p1, p2, q2))
    || (o4 == 0 && Boxed(q1, p2, q2))
  }

  /** The diagonal from a (between `before` and `after`) to b starts inside the polygon. */
  predicate LocallyInside(before: Point, a: Point, after: Point, b: Point) {
    if Turn(before, a, after) < 0.0
    then Turn(a, b, after) >= 0.0 && Turn(a, before, b) >= 0.0
    else Turn(a, b, before) < 0.0 || Turn(a, after, b) < 0.0
  }

  /**
   * What an ear is: the ring listing ps turns counter-clockwise at ps[0], and no other vertex of
   * the ring that does not turn so lies in the triangle there.
   */
  ghost predicate Ear(ps: seq<Point>)
    requires |ps| >= 3
  {
    var n := |ps|;
    && Turn(ps[n - 1], ps[0], ps[1]) < 0.0
    && forall j :: 2 <= j < n - 1 ==> !Blocks(ps, j)
  }

  ghost predicate Blocks(ps: seq<Point>, j: nat)
    requires 0 < j < |ps| - 1
  {
    && ContainsPoint(ps[|ps| - 1], ps[0], ps[1], ps[j])
    && Turn(ps[j - 1], ps[j], ps[j + 1]) >= 0.0
  }

  /** The listing of the same ring that starts k vertices later. */
  ghost function From(ps: seq<Point>, k: nat): seq<Point>
    requires k <= |ps|
  {
    ps[k..] + ps[..k]
  }

  /** No vertex of the ring from place e on is an ear. */
  ghost predicate NoEarFrom(ps: seq<Point>, e: nat) {
    |ps| >= 3 ==> forall k :: e <= k < |ps| ==> !Ear(From(ps, k))
  }

  /** When the first vertex is no ear either, it joins the others at the end of the next listing. */
  lemma NoEarStep(ps: seq<Point>, e: nat)
    requires |ps| >= 3 && !Ear(ps) && 0 < e <= |ps| && NoEarFrom(ps, e)
    ensures NoEarFrom(From(ps, 1), e - 1)
  {
    var qs := From(ps, 1);
    forall k | e - 1 <= k < |qs| ensures !Ear(From(qs, k)) {
      if k < |ps| - 1 {
        assert From(qs, k) == From(ps, k + 1);
      } else {
        assert From(qs, k) == ps;
      }
    }
  }

  /**
   * What cureLocalIntersections clips: the edges before and after the edge from ps[0] to ps[1]
   * meet, and their far ends see each other inside the ring.
   */
  ghost predicate Crosses(ps: seq<Point>)
    requires |ps| >= 4
  {
    var n := |ps|;
    && ps[n - 1] != ps[2]
    && Intersects(ps[n - 1], ps[0], ps[1], ps[2])
    && LocallyInside(ps[n - 2], ps[n - 1], ps[0], ps[2])
    && LocallyInside(ps[1], ps[2], ps[3], ps[n - 1])
  }

  ghost predicate NoCrossFrom(ps: seq<Point>, e: nat) {
    |ps| >= 4 ==> forall k :: e <= k < |ps| ==> !Crosses(From(ps, k))
  }

  lemma NoCrossStep(ps: seq<Point>, e: nat)
    requires 0 < e <= |ps| && NoCrossFrom(ps, e) && (|ps| >= 4 ==> !Crosses(ps))
    ensures NoCrossFrom(From(ps, 1), e - 1)
  {
    var qs := From(ps, 1);
    if |ps| >= 4 {
      forall k | e - 1 <= k < |qs| ensures !Crosses(From(qs, k)) {
        if k < |ps| - 1 {
          assert From(qs, k) == From(ps, k + 1);
        } else {
          assert From(qs, k) == ps;
        }
      }
    }
  }

  // --- A point of a proper triangle lies in its bounding box ---

  lemma Barycentric(a: Point, b: Point, c: Point, p: Point, u: real, v: real, w: real)
    requires u == (b.x - p.x) * (c.y - p.y) - (c.x - p.x) * (b.y - p.y)
    requires v == (c.x - p.x) * (a.y - p.y) - (a.x - p.x) * (c.y - p.y)
    requires w == (a.x - p.x) * (b.y - p.y) - (b.x - p.x) * (a.y - p.y)
    ensures u + v + w == -Turn(a, b, c)
    ensures u * (a.x - p.x) + v * (b.x - p.x) + w * (c.x - p.x) == 0.0
    ensures u * (a.y - p.y) + v * (b.y - p.y) + w * (c.y - p.y) == 0.0
  {
  }

  lemma WeightedBelow(u: real, v: real, w: real, da: real, db: real, dc: real)
    requires u >= 0.0 && v >= 0.0 && w >= 0.0 && u + v + w > 0.0
    requires u * da + v * db + w * dc == 0.0
    ensures Min(da, Min(db, dc)) <= 0.0 <= Max(da, Max(db, dc))
  {
    if da > 0.0 && db > 0.0 && dc > 0.0 {
      PositiveSum(u, v, w, da, db, dc);
    }
    if da < 0.0 && db < 0.0 && dc < 0.0 {
      PositiveSum(u, v, w, -da, -db, -dc);
      assert u * -da + v * -db + w * -dc == -(u * da + v * db + w * dc);
    }
  }

  lemma PositiveSum(u: real, v: real, w: real, da: real, db: real, dc: real)
    requires u >= 0.0 && v >= 0.0 && w >= 0.0 && u + v + w > 0.0
    requires da > 0.0 && db > 0.0 && dc > 0.0
    ensures u * da + v * db + w * dc > 0.0
  {
    assert u * da >= 0.0 && v * db >= 0.0 && w * dc >= 0.0;
    if u > 0.0 {
      assert u * da > 0.0;
    } else if v > 0.0 {
      assert v * db > 0.0;
    } else {
      assert w * dc > 0.0;
    }
  }

  lemma InBox(a: Point, b: Point, c: Point, p: Point)
    requires Turn(a, b, c) < 0.0 && ContainsPoint(a, b, c, p)
    ensures Min(a.x, Min(b.x, c.x)) <= p.x <= Max(a.x, Max(b.x, c.x))
    ensures Min(a.y, Min(b.y, c.y)) <= p.y <= Max(a.y, Max(b.y, c.y))
  {
    var u := (b.x - p.x) * (c.y - p.y) - (c.x - p.x) * (b.y - p.y);
    var v := (c.x - p.x) * (a.y - p.y) - (a.x - p.x) * (c.y - p.y);
    var w := (a.x - p.x) * (b.y - p.y) - (b.x - p.x) * (a.y - p.y);
    Barycentric(a, b, c, p, u, v, w);
    WeightedBelow(u, v, w, a.x - p.x, b.x - p.x, c.x - p.x);
    WeightedBelow(u, v, w, a.y - p.y, b.y - p.y, c.y - p.y);
  }

  function LowCorner(a: Point, b: Point, c: Point): Point {
    Point(Min(a.x, Min(b.x, c.x)), Min(a.y, Min(b.y, c.y)))
  }

  function HighCorner(a: Point, b: Point, c: Point): Point {
    Point(Max(a.x, Max(b.x, c.x)), Max(a.y, Max(b.y, c.y)))
  }

  lemma CornersOnGrid(g: Grid, a: Point, b: Point, c: Point)
    requires InGrid(g, a) && InGrid(g, b) && InGrid(g, c)
    ensures InGrid(g, LowCorner(a, b, c)) && InGrid(g, HighCorner(a, b, c))
  {
  }

  /** The codes of a triangle's box corners enclose the code of every point inside it. */
  lemma CodesEnclose(g: Grid, a: Point, b: Point, c: Point, p: Point)
    requires InGrid(g, a) && InGrid(g, b) && InGrid(g, c) && InGrid(g, p) && g.invSize >= 0.0
    requires Turn(a, b, c) < 0.0 && ContainsPoint(a, b, c, p)
    requires InGrid(g, LowCorner(a, b, c)) && InGrid(g, HighCorner(a, b, c))
    ensures ZCode(g, LowCorner(a, b, c)) <= ZCode(g, p) <= ZCode(g, HighCorner(a, b, c))
  {
    InBox(a, b, c, p);
    ZCodeMonotone(g, LowCorner(a, b, c), p);
    ZCodeMonotone(g, p, HighCorner(a, b, c));
  }

  // --- The cut of cureLocalIntersections ---

  /** Replacing a, p, n, b by a, b costs the emitted triangle and the triangle p, n, b. */
  lemma CureIdentity(a: Point, p: Point, n: Point, b: Point)
    ensures Tri2(a, p, n) + Tri2(a, n, b) == Tri2(a, p, b) + Tri2(p, n, b)
  {
  }

  /** A ring of two vertices is never locally inside itself. */
  lemma TwoRingNotInside(n: Point, p: Point)
    ensures !LocallyInside(p, n, p, p)
  {
  }
}
