/**
 * A polygon with a hole at which the two calls of filterPoints in eliminateHole do not leave a ring.
 *
 * The outer ring is (0,1) (0,2) (1,2) (0,2) (0,1) (0,0) (1,1) and the hole (0,2) (0,1) (0,2). The
 * bridge goes from the outer vertex (0,1) before (0,0) to the hole vertex (0,1).
 */
module LostRing {
  import opened Cyclic
  import opened Plane
  import opened EarGeometry
  import opened RingBuilder
  import opened HoleBridge
  import opened Seams
  import opened LinkWalk
  import opened Astray
  import opened Resume

  /** The ring that splitPolygon makes of both, listed from the doubled hole vertex on; the bridge is number 8. */
  function Vertex(k: nat): Point {
    if k == 2 then Point(0.0, 0.0)
    else if k == 3 then Point(1.0, 1.0)
    else if k == 5 || k == 7 || k == 10 then Point(0.0, 2.0)
    else if k == 6 then Point(1.0, 2.0)
    else Point(0.0, 1.0)
  }

  ghost function Vertices(): (c: Corners)
    ensures |c.pt| == |c.steiner| == 11
    ensures forall k :: 0 <= k < 11 ==> c.pt[k] == Vertex(k) && !c.steiner[k]
  {
    Corners(seq(11, k requires 0 <= k => Vertex(k)), seq(11, _ => false))
  }

  /** The first call goes from the doubled hole vertex to the one after it. */
  function Begin(): Walk {
    Walk([1, 2, 3, 4, 5, 6, 7, 8, 9, 10, 0], [10, 0, 1, 2, 3, 4, 5, 6, 7, 8, 9], 0, 1, false)
  }

  lemma Drop(w: Walk, l: nat, p: nat, r: nat) returns (v: Walk)
    requires Within(w, 11) && w.p == p && w.prev[p] == l && w.next[p] == r && Flat(Vertex(l), Vertex(p), Vertex(r))
    ensures Fits(Vertices(), v) && v == Step(Vertices(), w) == Walk(w.next[l := r], w.prev[r := l], l, l, l == r)
  {
    v := Step(Vertices(), w);
  }

  lemma Keep(w: Walk, l: nat, p: nat, r: nat) returns (v: Walk)
    requires Within(w, 11) && w.p == p && w.prev[p] == l && w.next[p] == r && !Flat(Vertex(l), Vertex(p), Vertex(r))
    ensures Fits(Vertices(), v) && v == Step(Vertices(), w) == Walk(w.next, w.prev, r, w.stop, r == w.stop)
  {
    v := Step(Vertices(), w);
  }

  /** The links are these. */
  ghost predicate Shows(w: Walk, next: seq<nat>, prev: seq<nat>)
    requires |w.next| == |w.prev| == |next| == |prev| == 11
  {
    && w.next[0] == next[0] && w.next[1] == next[1] && w.next[2] == next[2] && w.next[3] == next[3]
    && w.next[4] == next[4] && w.next[5] == next[5]
    && w.next[6] == next[6] && w.next[7] == next[7] && w.next[8] == next[8] && w.next[9] == next[9]
    && w.next[10] == next[10]
    && w.prev[0] == prev[0] && w.prev[1] == prev[1] && w.prev[2] == prev[2] && w.prev[3] == prev[3]
    && w.prev[4] == prev[4] && w.prev[5] == prev[5]
    && w.prev[6] == prev[6] && w.prev[7] == prev[7] && w.prev[8] == prev[8] && w.prev[9] == prev[9]
    && w.prev[10] == prev[10]
  }

  /** Some turns of a walk. */
  ghost predicate Turns(path: seq<Walk>) {
    && |path| > 0 && (forall i :: 0 <= i < |path| ==> Fits(Vertices(), path[i]))
    && forall i :: 0 <= i < |path| - 1 ==> Follows(Vertices(), path, i)
  }

  lemma Three(w0: Walk, w1: Walk, w2: Walk, w3: Walk) returns (path: seq<Walk>)
    requires Fits(Vertices(), w0) && Fits(Vertices(), w1) && Fits(Vertices(), w2) && Fits(Vertices(), w3)
    requires !w0.over && !w1.over && !w2.over
    requires w1 == Step(Vertices(), w0) && w2 == Step(Vertices(), w1) && w3 == Step(Vertices(), w2)
    ensures Turns(path) && path == [w0, w1, w2, w3]
  {
    path := [w0, w1, w2, w3];
    assert Follows(Vertices(), path, 0) && Follows(Vertices(), path, 1) && Follows(Vertices(), path, 2);
  }

  lemma Joined(p: seq<Walk>, q: seq<Walk>)
    requires Turns(p) && Turns(q) && p[|p| - 1] == q[0]
    ensures Turns(p + q[1..])
  {
    var r := p + q[1..];
    forall i | 0 <= i < |r| - 1
      ensures Follows(Vertices(), r, i)
    {
      assert if i < |p| - 1 then Follows(Vertices(), p, i) else Follows(Vertices(), q, i - |p| + 1);
    }
  }

  lemma TurnsTo3(w: Walk) returns (path: seq<Walk>)
    requires Within(w, 11) && w.p == 0 && w.stop == 1 && !w.over
    requires Shows(w, [1, 2, 3, 4, 5, 6, 7, 8, 9, 10, 0], [10, 0, 1, 2, 3, 4, 5, 6, 7, 8, 9])
    ensures Turns(path) && |path| == 4 && path[0] == w
    ensures var v := path[3]; v.p == 8 && v.stop == 8 && !v.over
    ensures var v := path[3]; Shows(v, [1, 2, 3, 4, 5, 6, 7, 8, 1, 1, 1], [10, 8, 1, 2, 3, 4, 5, 6, 7, 8, 9])
  {
    var w0 := w;
    var w1 := Drop(w0, 10, 0, 1);
    var w2 := Drop(w1, 9, 10, 1);
    var w3 := Drop(w2, 8, 9, 1);
    path := Three(w0, w1, w2, w3);
  }

  lemma TurnsTo6(w: Walk) returns (path: seq<Walk>)
    requires Within(w, 11) && w.p == 8 && w.stop == 8 && !w.over
    requires Shows(w, [1, 2, 3, 4, 5, 6, 7, 8, 1, 1, 1], [10, 8, 1, 2, 3, 4, 5, 6, 7, 8, 9])
    ensures Turns(path) && |path| == 4 && path[0] == w
    ensures var v := path[3]; v.p == 7 && v.stop == 7 && !v.over
    ensures var v := path[3]; Shows(v, [1, 2, 3, 4, 5, 6, 7, 2, 1, 1, 1], [10, 7, 7, 2, 3, 4, 5, 6, 7, 8, 9])
  {
    var w0 := w;
    var w1 := Drop(w0, 7, 8, 1);
    var w2 := Keep(w1, 6, 7, 1);
    var w3 := Drop(w2, 7, 1, 2);
    path := Three(w0, w1, w2, w3);
  }

  lemma TurnsTo9(w: Walk) returns (path: seq<Walk>)
    requires Within(w, 11) && w.p == 7 && w.stop == 7 && !w.over
    requires Shows(w, [1, 2, 3, 4, 5, 6, 7, 2, 1, 1, 1], [10, 7, 7, 2, 3, 4, 5, 6, 7, 8, 9])
    ensures Turns(path) && |path| == 4 && path[0] == w
    ensures var v := path[3]; v.p == 4 && v.stop == 7 && !v.over
    ensures var v := path[3]; Shows(v, [1, 2, 3, 4, 5, 6, 7, 2, 1, 1, 1], [10, 7, 7, 2, 3, 4, 5, 6, 7, 8, 9])
  {
    var w0 := w;
    var w1 := Keep(w0, 6, 7, 2);
    var w2 := Keep(w1, 7, 2, 3);
    var w3 := Keep(w2, 2, 3, 4);
    path := Three(w0, w1, w2, w3);
  }

  lemma TurnsTo12(w: Walk) returns (path: seq<Walk>)
    requires Within(w, 11) && w.p == 4 && w.stop == 7 && !w.over
    requires Shows(w, [1, 2, 3, 4, 5, 6, 7, 2, 1, 1, 1], [10, 7, 7, 2, 3, 4, 5, 6, 7, 8, 9])
    ensures Turns(path) && |path| == 4 && path[0] == w
    ensures var v := path[3]; v.p == 5 && v.stop == 5 && !v.over
    ensures var v := path[3]; Shows(v, [1, 2, 3, 4, 5, 7, 7, 2, 1, 1, 1], [10, 7, 7, 2, 3, 4, 5, 5, 7, 8, 9])
  {
    var w0 := w;
    var w1 := Keep(w0, 3, 4, 5);
    var w2 := Keep(w1, 4, 5, 6);
    var w3 := Drop(w2, 5, 6, 7);
    path := Three(w0, w1, w2, w3);
  }

  lemma TurnsTo15(w: Walk) returns (path: seq<Walk>)
    requires Within(w, 11) && w.p == 5 && w.stop == 5 && !w.over
    requires Shows(w, [1, 2, 3, 4, 5, 7, 7, 2, 1, 1, 1], [10, 7, 7, 2, 3, 4, 5, 5, 7, 8, 9])
    ensures Turns(path) && |path| == 4 && path[0] == w
    ensures var v := path[3]; v.p == 4 && v.stop == 4 && !v.over
    ensures var v := path[3]; Shows(v, [1, 2, 3, 4, 2, 7, 7, 2, 1, 1, 1], [10, 7, 4, 2, 3, 4, 5, 4, 7, 8, 9])
  {
    var w0 := w;
    var w1 := Drop(w0, 4, 5, 7);
    var w2 := Keep(w1, 3, 4, 7);
    var w3 := Drop(w2, 4, 7, 2);
    path := Three(w0, w1, w2, w3);
  }

  lemma TurnsTo18(w: Walk) returns (path: seq<Walk>)
    requires Within(w, 11) && w.p == 4 && w.stop == 4 && !w.over
    requires Shows(w, [1, 2, 3, 4, 2, 7, 7, 2, 1, 1, 1], [10, 7, 4, 2, 3, 4, 5, 4, 7, 8, 9])
    ensures Turns(path) && |path| == 4 && path[0] == w
    ensures var v := path[3]; v.p == 4 && v.stop == 4 && v.over
    ensures var v := path[3]; Shows(v, [1, 2, 3, 4, 2, 7, 7, 2, 1, 1, 1], [10, 7, 4, 2, 3, 4, 5, 4, 7, 8, 9])
  {
    var w0 := w;
    var w1 := Keep(w0, 3, 4, 2);
    var w2 := Keep(w1, 4, 2, 3);
    var w3 := Keep(w2, 2, 3, 4);
    path := Three(w0, w1, w2, w3);
  }

  /** The first call drops the bridge and all but three vertices; those it leaves linked as a ring. */
  lemma FirstCall() returns (path: seq<Walk>)
    ensures Course(Vertices(), path) && |path| == 19 && path[0] == Begin()
    ensures Shows(path[18], [1, 2, 3, 4, 2, 7, 7, 2, 1, 1, 1], [10, 7, 4, 2, 3, 4, 5, 4, 7, 8, 9])
  {
    path := TurnsTo3(Begin());
    var more := TurnsTo6(path[3]);
    Joined(path, more);
    path := path + more[1..];
    more := TurnsTo9(path[6]);
    Joined(path, more);
    path := path + more[1..];
    more := TurnsTo12(path[9]);
    Joined(path, more);
    path := path + more[1..];
    more := TurnsTo15(path[12]);
    Joined(path, more);
    path := path + more[1..];
    more := TurnsTo18(path[15]);
    Joined(path, more);
    path := path + more[1..];
  }

  /** The second call, from the bridge to the vertex it still points at, puts vertex 1 in the place of vertex 4. */
  lemma SecondCall(w: Walk) returns (path: seq<Walk>)
    requires Within(w, 11) && w.p == 8 && w.stop == 1 && !w.over
    requires Links(w, 2, 3) && Links(w, 3, 4) && Links(w, 4, 2)
    requires w.next[1] == 2 && w.next[7] == 2 && w.next[8] == 1 && w.prev[1] == 7 && w.prev[7] == 4 && w.prev[8] == 7
    ensures Course(Vertices(), path) && |path| == 7 && path[0] == w
    ensures path[6].stop == 3 && path[6].next[3] == 1 && path[6].next[1] == 2 && path[6].next[2] == 3
    ensures path[6].prev[2] == 4
  {
    var w0 := w;
    var w1 := Drop(w0, 7, 8, 1);
    var w2 := Drop(w1, 4, 7, 1);
    var w3 := Drop(w2, 3, 4, 1);
    var w4 := Keep(w3, 2, 3, 1);
    var w5 := Keep(w4, 3, 1, 2);
    var w6 := Keep(w5, 4, 2, 3);
    path := [w0, w1, w2, w3, w4, w5, w6];
    assert Follows(Vertices(), path, 0) && Follows(Vertices(), path, 1) && Follows(Vertices(), path, 2);
    assert Follows(Vertices(), path, 3) && Follows(Vertices(), path, 4) && Follows(Vertices(), path, 5);
  }

  /** Vertices q and r are linked to each other. */
  ghost predicate Links(w: Walk, q: nat, r: nat) {
    q < |w.next| && r < |w.prev| && w.next[q] == r && w.prev[r] == q
  }

  // --- How the ring comes about ---

  ghost predicate IsOuter(s: seq<Point>) {
    && |s| == 7
    && s[0] == Point(0.0, 1.0) && s[1] == Point(0.0, 2.0) && s[2] == Point(1.0, 2.0) && s[3] == Point(0.0, 2.0)
    && s[4] == Point(0.0, 1.0) && s[5] == Point(0.0, 0.0) && s[6] == Point(1.0, 1.0)
  }

  ghost predicate IsHole(s: seq<Point>) {
    |s| == 3 && s[0] == Point(0.0, 2.0) && s[1] == Point(0.0, 1.0) && s[2] == Point(0.0, 2.0)
  }

  lemma PathFrom(s: seq<Point>, k: nat)
    requires k + 1 < |s|
    ensures PathSum(s[k..]) == Cross(s[k], s[k + 1]) + PathSum(s[k + 1..])
  {
    assert s[k..][1..] == s[k + 1..];
  }

  lemma Area7(s: seq<Point>)
    requires |s| == 7
    ensures Area2(s) == Cross(s[0], s[1]) + Cross(s[1], s[2]) + Cross(s[2], s[3]) + Cross(s[3], s[4])
         + Cross(s[4], s[5])
                        + Cross(s[5], s[6]) + Cross(s[6], s[0])
  {
    assert s[0..] == s && PathSum(s[6..]) == 0.0;
    PathFrom(s, 0);
    PathFrom(s, 1);
    PathFrom(s, 2);
    PathFrom(s, 3);
    PathFrom(s, 4);
    PathFrom(s, 5);
  }

  lemma HoleArea(s: seq<Point>)
    requires IsHole(s)
    ensures Area2(s) == 0.0
  {
    assert s[0..] == s && PathSum(s[2..]) == 0.0;
    PathFrom(s, 0);
    PathFrom(s, 1);
  }

  /** The outer ring from the vertex on that linkedList returns; it goes round the right way already. */
  ghost predicate IsListed(ps: seq<Point>) {
    && |ps| == 7
    && ps[0] == Point(1.0, 1.0) && ps[1] == Point(0.0, 1.0) && ps[2] == Point(0.0, 2.0) && ps[3] == Point(1.0, 2.0)
    && ps[4] == Point(0.0, 2.0) && ps[5] == Point(0.0, 1.0) && ps[6] == Point(0.0, 0.0)
  }

  lemma Listings(outer: seq<Point>, hole: seq<Point>)
    requires IsOuter(outer) && IsHole(hole)
    ensures IsListed(Listing(outer, true)) && Listing(hole, false) == hole[..2]
  {
    Area7(outer);
    HoleArea(hole);
    assert Area2(outer) == 1.0;
  }

  lemma FirstOfTwo(ps: seq<Point>, h: Point)
    requires |ps| == 7 && !Reaches(ps, 0, h) && !Reaches(ps, 1, h) && !Reaches(ps, 2, h) && !Reaches(ps, 3, h)
    requires Reaches(ps, 4, h) && Reaches(ps, 5, h) && !Reaches(ps, 6, h)
    requires CrossingX(ps[4], ps[5], h) == CrossingX(ps[5], ps[6], h) == h.x
    ensures Nearest(ps, 4, 7, h, h.x)
  {
    forall i | 0 <= i < 7 && Reaches(ps, i, h)
      ensures i == 4 || i == 5
    {
      assert i in {0, 1, 2, 3, 4, 5, 6};
    }
  }

  /** Two edges reach the hole point, both with an end; the first of them leads to the bridge. */
  lemma NearestLeft(ps: seq<Point>, h: Point)
    requires IsListed(ps) && h == Point(0.0, 1.0)
    ensures Nearest(ps, 4, 7, h, h.x) && LeftEnd(ps, 4) == 5
  {
    assert Reaches(ps, 4, h) && Reaches(ps, 5, h);
    FirstOfTwo(ps, h);
  }

  /** The points of the ring that splitPolygon makes of an outer ring and a hole, from the doubled hole vertex on. */
  ghost function BridgedPoints(outer: seq<Point>, hole: seq<Point>): seq<Point>
    requires outer != [] && hole != []
  {
    [hole[0], outer[0]] + outer[1..] + [outer[0]] + hole
  }

  /** The hole from its leftmost vertex on. */
  lemma HoleFromLeftmost(hole: seq<Point>, listed: seq<Point>)
    requires IsHole(hole) && FromLeftmost(hole[..2], listed)
    ensures |listed| == 2 && listed[0] == hole[1] && listed[1] == hole[0]
  {
    var ring := hole[..2];
    var i: nat :| i < |ring| && listed == From(ring, i) && forall j :: 0 <= j < |ring| ==> !LeftOf(ring[j], ring[i]);
    assert !LeftOf(ring[1], ring[i]);
  }

  lemma NearestListed(outer: seq<Point>, hole: seq<Point>, listed: seq<Point>)
    requires IsOuter(outer) && IsHole(hole) && FromLeftmost(Listing(hole, false), listed)
    ensures var ps := Listing(outer, true); listed != [] && |ps| == 7
    ensures var ps := Listing(outer, true); Nearest(ps, 4, 7, listed[0], listed[0].x) && LeftEnd(ps, 4) == 5
  {
    Listings(outer, hole);
    HoleFromLeftmost(hole, listed);
    NearestLeft(Listing(outer, true), listed[0]);
  }

  /** The hole is joined at vertex 5 of the outer ring and nowhere else. */
  lemma BridgeComesAbout(outer: seq<Point>, hole: seq<Point>, listed: seq<Point>)
    requires IsOuter(outer) && IsHole(hole) && FromLeftmost(Listing(hole, false), listed)
    ensures listed != [] && OnlyBridge(Listing(outer, true), listed[0], 5)
  {
    NearestListed(outer, hole, listed);
    BridgeOnEdge(Listing(outer, true), listed[0], 4);
  }

  lemma BridgedVertices(ps: seq<Point>, listed: seq<Point>)
    requires IsListed(ps) && |listed| == 2 && listed[0] == Point(0.0, 1.0) && listed[1] == Point(0.0, 2.0)
    ensures BridgedPoints(From(ps, 5), listed) == Vertices().pt
  {
    var s, r := From(ps, 5), BridgedPoints(From(ps, 5), listed);
    assert s == [ps[5], ps[6], ps[0], ps[1], ps[2], ps[3], ps[4]];
    assert r == [listed[0], ps[5], ps[6], ps[0], ps[1], ps[2], ps[3], ps[4], ps[5], listed[0], listed[1]];
    forall k | 0 <= k < 11
      ensures r[k] == Vertex(k)
    {
      assert k in {0, 1, 2, 3, 4, 5, 6, 7, 8, 9, 10};
    }
  }

  /** The joined ring has the vertices above. The bridge, at the end of the outer part, is number 8. */
  lemma RingComesAbout(outer: seq<Point>, hole: seq<Point>, listed: seq<Point>)
    requires IsOuter(outer) && IsHole(hole) && FromLeftmost(Listing(hole, false), listed)
    ensures listed != [] && |Listing(outer, true)| == 7
    ensures BridgedPoints(From(Listing(outer, true), 5), listed) == Vertices().pt
  {
    Listings(outer, hole);
    HoleFromLeftmost(hole, listed);
    BridgedVertices(Listing(outer, true), listed);
  }

  // --- The seam ---

  /**
   * The ring of three that the first call leaves, and the neighbours that the bridge had: 7 on its
   * left, 1 on its right.
   */
  ghost function Number(q: nat): nat {
    if q == 0 then 2 else if q == 1 then 3 else if q == 2 then 4 else if q == 3 then 7 else 1
  }

  /** The same links, by other numbers. */
  ghost predicate Renumbered(w: Walk, x: Stranding) {
    && Within(w, 11) && Fits(x.c, x.w) && x.g == Gap(3, 1, 1) && |x.c.pt| == 5
    && forall q :: 0 <= q < 5 ==> NumberedAt(w, x, q)
  }

  ghost predicate NumberedAt(w: Walk, x: Stranding, q: nat)
    requires Within(w, 11) && Fits(x.c, x.w) && |x.c.pt| == 5 && q < 5
  {
    && x.c.pt[q] == Vertex(Number(q)) && !x.c.steiner[q]
    && w.next[Number(q)] == Number(x.w.next[q]) && w.prev[Number(q)] == Number(x.w.prev[q])
  }

  /** The left vertex is dropped again, and then the ring vertex before it. */
  lemma SeamLoses(s: Seam, marks: seq<nat>)
    requires Sound(s, marks) && |s.left| == |s.right| == 2 && !s.stiff
    requires Flat(s.left[1], s.left[0], s.right[0]) && Flat(s.back, s.left[1], s.right[0])
    ensures !Closes(s, marks)
  {
    assert Go(s, marks, 0, 0) == Move.Left && Go(s, marks, 1, 0) == Loses;
    assert Outcome(s, marks, 1, 0) == Loses;
  }

  lemma SeamFlat()
    ensures Flat(Vertex(4), Vertex(7), Vertex(1)) && Flat(Vertex(3), Vertex(4), Vertex(1))
    ensures Flat(Vertex(7), Vertex(1), Vertex(2))
  {
  }

  lemma ThreeTidy(w: Walk, x: Stranding)
    requires Renumbered(w, x)
    ensures Tidy(x.c, x.g)
  {
    assert NumberedAt(w, x, 0) && NumberedAt(w, x, 1) && NumberedAt(w, x, 2);
    assert Stays(x.c, x.g, 0) && Stays(x.c, x.g, 1) && Stays(x.c, x.g, 2);
  }

  lemma LinksRenumbered(w: Walk, x: Stranding, q: nat, r: nat)
    requires Renumbered(w, x) && q < 5 && r < 5
    ensures w.next[Number(q)] == Number(r) ==> x.w.next[q] == r
    ensures w.prev[Number(q)] == Number(r) ==> x.w.prev[q] == r
  {
    assert NumberedAt(w, x, q);
  }

  /** The ring of three is whole, and the dropped vertices still point at it. */
  lemma SeamFramed(w: Walk, x: Stranding)
    requires Renumbered(w, x) && Links(w, 2, 3) && Links(w, 3, 4) && Links(w, 4, 2)
    requires w.next[1] == 2 && w.next[7] == 2 && w.prev[1] == 7 && w.prev[7] == 4
    ensures Framed(x.c, x.w, x.g, [0]) && Whole(x.w, x.g)
  {
    LinksRenumbered(w, x, 0, 1);
    LinksRenumbered(w, x, 1, 2);
    LinksRenumbered(w, x, 2, 0);
    LinksRenumbered(w, x, 3, 0);
    LinksRenumbered(w, x, 4, 0);
    LinksRenumbered(w, x, 0, 2);
    LinksRenumbered(w, x, 1, 0);
    LinksRenumbered(w, x, 2, 1);
    LinksRenumbered(w, x, 3, 2);
    LinksRenumbered(w, x, 4, 3);
    assert NumberedAt(w, x, 3) && NumberedAt(w, x, 4);
    assert LeftKept(x.c, x.w, x.g, 0) && RightKept(x.c, x.w, x.g, [0], 0);
  }

  lemma FlatThere(w: Walk, x: Stranding)
    requires Renumbered(w, x)
    ensures var pt := x.c.pt; Flat(pt[2], pt[3], pt[4]) && Flat(pt[1], pt[2], pt[4]) && Flat(pt[3], pt[4], pt[0])
    ensures !x.c.steiner[2]
  {
    assert NumberedAt(w, x, 0) && NumberedAt(w, x, 1) && NumberedAt(w, x, 2) && NumberedAt(w, x, 3);
    assert NumberedAt(w, x, 4);
    SeamFlat();
  }

  /** Seen from the bridge. */
  lemma SeamSeen(w: Walk, x: Stranding)
    requires Renumbered(w, x)
    ensures var s := SeamOf(x.c, x.g); |s.left| == |s.right| == 2 && !s.stiff
    ensures var s := SeamOf(x.c, x.g); Flat(s.left[1], s.left[0], s.right[0]) && Flat(s.back, s.left[1], s.right[0])
    ensures FlatRight(x.c, x.g, [0], 0)
  {
    FlatThere(w, x);
  }

  /** The first call has left a tidy ring whose seam does not close. */
  lemma SeamStaysOpen(w: Walk, x: Stranding)
    requires Renumbered(w, x) && Links(w, 2, 3) && Links(w, 3, 4) && Links(w, 4, 2)
    requires w.next[1] == 2 && w.next[7] == 2 && w.prev[1] == 7 && w.prev[7] == 4
    ensures Opened(x.c, x.w, x.g, [0]) && Sound(SeamOf(x.c, x.g), [0]) && !Closes(SeamOf(x.c, x.g), [0])
  {
    SeamFramed(w, x);
    ThreeTidy(w, x);
    SeamSound(x.c, x.w, x.g, [0]);
    SeamSeen(w, x);
    SeamLoses(SeamOf(x.c, x.g), [0]);
  }

  /** The walk w in the numbers by which the seam is read. */
  lemma Renumbers(w: Walk) returns (x: Stranding)
    requires Within(w, 11) && Links(w, 2, 3) && Links(w, 3, 4) && Links(w, 4, 2)
    requires w.next[1] == 2 && w.next[7] == 2 && w.prev[1] == 7 && w.prev[7] == 4
    ensures Renumbered(w, x)
  {
    x := Stranding(Corners(seq(5, q requires 0 <= q < 5 => Vertex(Number(q))), seq(5, _ => false)),
                   Walk([1, 2, 0, 0, 0], [2, 0, 1, 2, 3], 0, 0, false), Gap(3, 1, 1));
    assert NumberedAt(w, x, 0) && NumberedAt(w, x, 1) && NumberedAt(w, x, 2) && NumberedAt(w, x, 3);
    assert NumberedAt(w, x, 4);
    forall q | 0 <= q < 5
      ensures NumberedAt(w, x, q)
    {
      assert q in {0, 1, 2, 3, 4};
    }
  }

  // --- The two calls ---

  /**
   * The two calls end after eighteen and six turns. The first leaves a ring of three, whose seam
   * does not close. What the second leaves is no ring: going on from 3 one comes to 1 and then to
   * 2, but going back from 2 one comes to 4.
   */
  lemma NoRingLeft() returns (first: seq<Walk>, second: seq<Walk>, x: Stranding)
    ensures Course(Vertices(), first) && first[0] == Begin() && |first| == 19
    ensures Links(first[18], 2, 3) && Links(first[18], 3, 4) && Links(first[18], 4, 2)
    ensures first[18].prev[8] == 7 && first[18].next[8] == 1
    ensures Renumbered(first[18], x) && Opened(x.c, x.w, x.g, [0]) && Sound(SeamOf(x.c, x.g), [0])
    ensures !Closes(SeamOf(x.c, x.g), [0]) && Stranded(x)
    ensures Course(Vertices(), second) && |second| == 7
    ensures second[0] == Walk(first[18].next, first[18].prev, 8, first[18].next[8], false)
    ensures var w := second[6]; w.next[w.stop] == 1 && w.next[1] == 2 && w.next[2] == w.stop && w.prev[2] == 4
  {
    first := FirstCall();
    assert Fits(Vertices(), first[18]);
    x := Renumbers(first[18]);
    SeamStaysOpen(first[18], x);
    Strands(x.c, x.w, x.g, [0]);
    second := SecondCall(Walk(first[18].next, first[18].prev, 8, first[18].next[8], false));
  }
}
