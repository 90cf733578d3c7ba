/** Polygon validity and signed area. */
module GeomUtils {
  import opened Cyclic
  import opened Plane
  import opened Shoelace
  import opened Segments

  /** The corner test of polygon_is_valid: straight on the same line, but not forward. */
  predicate FoldsBack(previous: Point, p: Point, next: Point) {
    && Tri2(previous, p, next) == 0.0
    && (p.x - previous.x) * (next.x - p.x) + (p.y - previous.y) * (next.y - p.y) <= 0.0
  }

  /** The two edges at p have no other point in common. */
  ghost predicate OnlyMeetAt(previous: Point, p: Point, next: Point) {
    forall q :: Lies(q, previous, p) && Lies(q, p, next) ==> q == p
  }

  lemma NegativeProduct(a: real, b: real)
    requires a < 0.0 && b < 0.0
    ensures a * b > 0.0
  {
  }

  lemma MixedProduct(a: real, b: real)
    requires a >= 0.0 >= b
    ensures a * b <= 0.0
  {
  }

  /** A positive multiple points the same way. */
  lemma SameWay(k: real, u: real, v: real)
    requires k > 0.0 && v == k * u
    ensures u * v >= 0.0 && (u != 0.0 ==> u * v > 0.0)
  {
    if u > 0.0 {
      PositiveProduct(k, u);
      PositiveProduct(u, v);
    } else if u < 0.0 {
      PositiveProduct(k, -u);
      assert k * (-u) == -(k * u);
      NegativeProduct(u, v);
    }
  }

  /** Parallel vectors: the second is a multiple of the first. */
  lemma Multiple(ux: real, uy: real, vx: real, vy: real) returns (k: real)
    requires ux * vy - uy * vx == 0.0 && (ux != 0.0 || uy != 0.0)
    ensures vx == k * ux && vy == k * uy
    ensures ux * vx + uy * vy <= 0.0 ==> k <= 0.0
  {
    if ux != 0.0 {
      k := MultipleOf(ux, uy, vx, vy);
    } else {
      k := MultipleOf(uy, ux, vy, vx);
    }
    if k > 0.0 {
      SameWay(k, ux, vx);
      SameWay(k, uy, vy);
    }
  }

  lemma MultipleOf(ux: real, uy: real, vx: real, vy: real) returns (k: real)
    requires ux * vy == uy * vx && ux != 0.0
    ensures vx == k * ux && vy == k * uy
  {
    k := vx / ux;
    assert k * ux == vx;
    assert ux * (k * uy) == uy * (k * ux);
    Cancel(ux, vy, k * uy);
  }

  /** The corner test is exact: it finds the corners at which the two edges overlap. */
  lemma FoldsBackExact(previous: Point, p: Point, next: Point)
    requires previous != p && p != next
    ensures FoldsBack(previous, p, next) <==> !OnlyMeetAt(previous, p, next)
  {
    if FoldsBack(previous, p, next) {
      var q := Overlap(previous, p, next);
    }
    if !OnlyMeetAt(previous, p, next) {
      var q :| Lies(q, previous, p) && Lies(q, p, next) && q != p;
      var s: real :| 0.0 <= s <= 1.0 && q == Lerp(previous, p, s);
      var t: real :| 0.0 <= t <= 1.0 && q == Lerp(p, next, t);
      OverlapFolds(previous, p, next, s, t);
    }
  }

  /** Where the path folds back, the nearer of its other ends lies on the other edge. */
  lemma Overlap(previous: Point, p: Point, next: Point) returns (q: Point)
    requires previous != p && p != next && FoldsBack(previous, p, next)
    ensures Lies(q, previous, p) && Lies(q, p, next) && q != p
  {
    var k := BackwardsBy(previous, p, next);
    LerpEnds(previous, p);
    LerpEnds(p, next);
    if k >= -1.0 {
      q := next;
      ShortReturn(previous, p, next, k);
    } else {
      q := previous;
      LongReturn(previous, p, next, k);
    }
  }

  lemma BackwardsBy(previous: Point, p: Point, next: Point) returns (k: real)
    requires previous != p && FoldsBack(previous, p, next)
    ensures k <= 0.0 && next.x - p.x == k * (p.x - previous.x) && next.y - p.y == k * (p.y - previous.y)
  {
    TriOfSteps(previous, p, next);
    k := Multiple(p.x - previous.x, p.y - previous.y, next.x - p.x, next.y - p.y);
  }

  lemma ShortReturn(previous: Point, p: Point, next: Point, k: real)
    requires -1.0 <= k <= 0.0
    requires next.x - p.x == k * (p.x - previous.x) && next.y - p.y == k * (p.y - previous.y)
    ensures Lies(next, previous, p)
  {
    BackAlong(previous.x, p.x, k);
    BackAlong(previous.y, p.y, k);
    LiesAt(next, previous, p, 1.0 + k);
  }

  lemma LongReturn(previous: Point, p: Point, next: Point, k: real)
    requires k < -1.0
    requires next.x - p.x == k * (p.x - previous.x) && next.y - p.y == k * (p.y - previous.y)
    ensures Lies(previous, p, next)
  {
    var t := 1.0 / (-k);
    assert t * (-k) == 1.0;
    FractionBounds(1.0, -k, t);
    BackTo(p.x - previous.x, next.x - p.x, k, t);
    BackTo(p.y - previous.y, next.y - p.y, k, t);
    LiesAt(previous, p, next, t);
  }

  lemma TriOfSteps(previous: Point, p: Point, next: Point)
    ensures Tri2(previous, p, next) == (p.x - previous.x) * (next.y - p.y) - (p.y - previous.y) * (next.x - p.x)
  {
  }

  lemma BackAlong(a: real, b: real, k: real)
    ensures a + (1.0 + k) * (b - a) == b + k * (b - a)
  {
    var d := b - a;
    assert (1.0 + k) * d == d + k * d;
  }

  lemma BackTo(u: real, v: real, k: real, t: real)
    requires v == k * u && t * (-k) == 1.0
    ensures t * v == -u
  {
    assert t * (k * u) == (t * k) * u;
  }

  /** A second common point forces the edges onto one line, in opposite directions. */
  lemma OverlapFolds(previous: Point, p: Point, next: Point, s: real, t: real)
    requires previous != p && p != next && 0.0 <= s <= 1.0 && 0.0 <= t <= 1.0
    requires Lerp(previous, p, s) == Lerp(p, next, t) != p
    ensures FoldsBack(previous, p, next)
  {
    var ux, uy, vx, vy := p.x - previous.x, p.y - previous.y, next.x - p.x, next.y - p.y;
    BackAlong(previous.x, p.x, s - 1.0);
    BackAlong(previous.y, p.y, s - 1.0);
    assert (s - 1.0) * ux == -((1.0 - s) * ux) && (s - 1.0) * uy == -((1.0 - s) * uy);
    assert t * vx == -((1.0 - s) * ux) && t * vy == -((1.0 - s) * uy);
    LerpEnds(p, next);
    assert t > 0.0;
    Antiparallel(ux, uy, vx, vy, 1.0 - s, t);
    FoldsByProducts(previous, p, next);
  }

  lemma FoldsByProducts(previous: Point, p: Point, next: Point)
    requires (p.x - previous.x) * (next.y - p.y) - (p.y - previous.y) * (next.x - p.x) == 0.0
    requires (p.x - previous.x) * (next.x - p.x) + (p.y - previous.y) * (next.y - p.y) <= 0.0
    ensures FoldsBack(previous, p, next)
  {
    TriOfSteps(previous, p, next);
  }

  lemma Antiparallel(ux: real, uy: real, vx: real, vy: real, r: real, t: real)
    requires t > 0.0 && r >= 0.0 && t * vx == -(r * ux) && t * vy == -(r * uy)
    ensures ux * vy - uy * vx == 0.0 && ux * vx + uy * vy <= 0.0
  {
    assert t * (ux * vy - uy * vx) == ux * (t * vy) - uy * (t * vx);
    assert ux * (r * uy) == uy * (r * ux);
    Cancel(t, ux * vy - uy * vx, 0.0);
    OppositeWay(t, r, ux, vx);
    OppositeWay(t, r, uy, vy);
  }

  lemma OppositeWay(t: real, r: real, u: real, v: real)
    requires t > 0.0 && r >= 0.0 && t * v == -(r * u)
    ensures u * v <= 0.0
  {
    if u >= 0.0 {
      MixedProduct(u, -r);
      assert u * (-r) == -(r * u);
      SignOf(t, v);
      MixedProduct(u, v);
    } else {
      MixedProduct(-u, -r);
      assert (-u) * (-r) == r * u;
      SignOf(t, -v);
      assert t * (-v) == -(t * v);
      MixedProduct(-u, -v);
      assert (-u) * (-v) == u * v;
    }
  }

  lemma SignOf(t: real, v: real)
    requires t > 0.0
    ensures t * v <= 0.0 ==> v <= 0.0
  {
    if v > 0.0 {
      PositiveProduct(t, v);
    }
  }

  /** The edge from corner i is not degenerate, and the edges at the corner do not overlap. */
  ghost predicate GoodCorner(ps: seq<Point>, i: nat)
    requires i < |ps|
  {
    ps[i] != ps[Succ(i, |ps|)] && CornerOpen(ps, i)
  }

  /** What polygon_is_valid promises: a simple closed polygon with an area. */
  ghost predicate ValidPolygon(ps: seq<Point>) {
    && |ps| >= 3
    && (forall i :: 0 <= i < |ps| ==> GoodCorner(ps, i))
    && Area2(ps) != 0.0
    && (forall i, j :: 0 <= i < j < |ps| && Separate(i, j, |ps|) ==> !EdgesMeet(ps, i, j))
  }

  function Pred(i: nat, n: nat): nat
    requires i < n
  {
    if i == 0 then n - 1 else i - 1
  }

  /** The edges at corner i meet in the corner only. */
  ghost predicate CornerOpen(ps: seq<Point>, i: nat)
    requires i < |ps|
  {
    OnlyMeetAt(ps[Pred(i, |ps|)], ps[i], ps[Succ(i, |ps|)])
  }

  /** Edges i and j have no corner in common. */
  predicate Separate(i: nat, j: nat, n: nat) {
    i + 2 <= j && !(i == 0 && j == n - 1)
  }

  ghost predicate EdgesMeet(ps: seq<Point>, i: nat, j: nat)
    requires i < |ps| && j < |ps|
  {
    Meet(ps[i], ps[Succ(i, |ps|)], ps[j], ps[Succ(j, |ps|)])
  }

  lemma PrevIndex(i: nat, n: nat)
    requires i < n
    ensures (i + n - 1) % n == Pred(i, n)
  {
    if i > 0 {
      assert i + n - 1 == (i - 1) + n;
      assert (i - 1 + n) % n == i - 1;
    }
  }

  lemma DegenerateFolds(p: Point, next: Point)
    ensures FoldsBack(p, p, next)
  {
  }

  /** Corner i passes both tests exactly when its edges are not degenerate and do not overlap. */
  lemma CornerExact(ps: seq<Point>, i: nat)
    requires i < |ps| && ps[i] != ps[Succ(i, |ps|)]
    ensures !FoldsBack(ps[Pred(i, |ps|)], ps[i], ps[Succ(i, |ps|)])
            <==> ps[Pred(i, |ps|)] != ps[i] && CornerOpen(ps, i)
  {
    if ps[Pred(i, |ps|)] == ps[i] {
      DegenerateFolds(ps[i], ps[Succ(i, |ps|)]);
    } else {
      FoldsBackExact(ps[Pred(i, |ps|)], ps[i], ps[Succ(i, |ps|)]);
    }
  }

  lemma BadEdgeBefore(ps: seq<Point>, i: nat)
    requires i < |ps| && ps[Pred(i, |ps|)] == ps[i]
    ensures !GoodCorner(ps, Pred(i, |ps|))
  {
    assert Succ(Pred(i, |ps|), |ps|) == i;
  }

  /** The first loop: no edge is degenerate or folds back, and the fan area. */
  method CheckCorners(ps: seq<Point>) returns (good: bool, area: real)
    requires |ps| >= 3
    ensures good <==> forall i :: 0 <= i < |ps| ==> GoodCorner(ps, i)
    ensures good ==> area == Area2(ps)
  {
    var n := |ps|;
    area := 0.0;
    var i := 0;
    while i < n
      invariant 0 <= i <= n && area == FanSum(ps[0], ps, i)
      invariant forall k :: 0 <= k < i ==> GoodCorner(ps, k)
    {
      PrevIndex(i, n);
      NextIndex(i, n);
      var previous, point, next := ps[(i + n - 1) % n], ps[i], ps[(i + 1) % n];
      if point == next {
        assert !GoodCorner(ps, i);
        return false, area;
      }
      CornerExact(ps, i);
      if FoldsBack(previous, point, next) {
        if previous == point {
          BadEdgeBefore(ps, i);
        } else {
          assert !GoodCorner(ps, i);
        }
        return false, area;
      }
      area := area + Tri2(ps[0], point, next);
      i := i + 1;
    }
    good := true;
    FanIsArea(ps[0], ps);
  }

  /** One turn of the inner loop: whether edges i and j meet. */
  method TouchOrCross(ps: seq<Point>, i: nat, j: nat) returns (r: bool)
    requires i < |ps| && j < |ps|
    ensures r <==> EdgesMeet(ps, i, j)
  {
    NextIndex(i, |ps|);
    NextIndex(j, |ps|);
    var p1, p2, p3, p4 := ps[i], ps[(i + 1) % |ps|], ps[j], ps[(j + 1) % |ps|];
    TestsExact(p1, p2, p3, p4);
    r := SegmentsIntersect(p1, p2, p3, p4) || OnSegment(p1, p3, p4) || OnSegment(p2, p3, p4)
         || OnSegment(p3, p1, p2) || OnSegment(p4, p1, p2);
  }

  /** The second pair of loops: no two separate edges meet. */
  method CheckEdges(ps: seq<Point>) returns (good: bool)
    requires |ps| >= 3
    ensures good <==> forall i, j :: 0 <= i < j < |ps| && Separate(i, j, |ps|) ==> !EdgesMeet(ps, i, j)
  {
    var n := |ps|;
    var i := 0;
    while i < n
      invariant 0 <= i <= n
      invariant forall k, j :: 0 <= k < i && k < j < n && Separate(k, j, n) ==> !EdgesMeet(ps, k, j)
    {
      var j := i + 2;
      while j < n
        invariant i + 2 <= j
        invariant forall m :: i < m < j && m < n && Separate(i, m, n) ==> !EdgesMeet(ps, i, m)
      {
        if !(i == 0 && j == n - 1) {
          var meet := TouchOrCross(ps, i, j);
          if meet {
            assert Separate(i, j, n) && EdgesMeet(ps, i, j);
            return false;
          }
        }
        j := j + 1;
      }
      i := i + 1;
    }
    good := true;
  }

  /** polygon_is_valid, over the reals: exact for every list of points. */
  method PolygonIsValid(ps: seq<Point>) returns (r: bool)
    ensures r <==> ValidPolygon(ps)
  {
    if |ps| < 3 {
      return false;
    }
    var good, area := CheckCorners(ps);
    if !good {
      return false;
    }
    if area == 0.0 {
      return false;
    }
    r := CheckEdges(ps);
  }

  // --- Signed area ---

  /** The points of a flat coordinate list; a last odd coordinate is ignored. */
  ghost function FlatPoints(pos: seq<real>): (r: seq<Point>)
    ensures |r| == |pos| / 2
  {
    seq(|pos| / 2, i requires 0 <= i < |pos| / 2 => Point(pos[i * 2], pos[i * 2 + 1]))
  }

  lemma SignedTerm(o: Point, p: Point, q: Point)
    ensures (p.x - o.x) * (q.y - o.y) - (q.x - o.x) * (p.y - o.y) == Tri2(o, p, q)
  {
  }

  /** What one turn of the loop of signed_area adds and subtracts. */
  method SignedTerms(pos: seq<real>, i: nat, j: nat) returns (r: real)
    requires i < |pos| / 2 && j < |pos| / 2
    ensures r == Tri2(FlatPoints(pos)[0], FlatPoints(pos)[i], FlatPoints(pos)[j])
  {
    ghost var ps := FlatPoints(pos);
    SignedTerm(ps[0], ps[i], ps[j]);
    r := (pos[i * 2] - pos[0]) * (pos[j * 2 + 1] - pos[1]);
    r := r - (pos[j * 2] - pos[0]) * (pos[i * 2 + 1] - pos[1]);
  }

  /** signed_area: twice the area, as the shoelace sum gives it. */
  method SignedArea(pos: seq<real>) returns (area: real)
    ensures area == Area2(FlatPoints(pos))
  {
    ghost var ps := FlatPoints(pos);
    var n := |pos| / 2;
    area := 0.0;
    if n < 2 {
      Area2Small(ps);
      return;
    }
    var i := 0;
    while i < n
      invariant 0 <= i <= n && area == FanSum(ps[0], ps, i)
    {
      NextIndex(i, n);
      var j := (i + 1) % n;
      var terms := SignedTerms(pos, i, j);
      area := area + terms;
      i := i + 1;
    }
    FanIsArea(ps[0], ps);
  }
}
