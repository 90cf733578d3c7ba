/** Where a hole is joined to the outer ring. */
module HoleBridge {
  import opened Cyclic
  import opened Plane
  import opened EarGeometry
  import opened Rings
  import opened Diagonals

  predicate LeftOf(p: Point, q: Point) {
    p.x < q.x || (p.x == q.x && p.y < q.y)
  }

  /** The same ring, listed from a vertex that no other is left of. */
  ghost predicate FromLeftmost(ring: seq<Point>, ps: seq<Point>) {
    exists k: nat :: k < |ring| && ps == From(ring, k) && forall j :: 0 <= j < |ring| ==> !LeftOf(ring[j], ring[k])
  }

  /** getLeftmost: a node of the ring that no other is left of. */
  method GetLeftmost(start: Node, ghost s: seq<Node>) returns (leftmost: Node, ghost k: nat)
    requires Ring(s) && s[0] == start
    ensures k < |s| && s[k] == leftmost
    ensures forall j :: 0 <= j < |s| ==> !LeftOf(s[j].pt, leftmost.pt)
  {
    var p := start;
    leftmost, k := start, 0;
    ghost var j := 0;
    while true
      invariant j < |s| && p == s[j] && k < |s| && s[k] == leftmost
      invariant forall i :: 0 <= i < j ==> !LeftOf(s[i].pt, leftmost.pt)
      decreases |s| - j
    {
      StepAlong(s, j);
      if LeftOf(p.pt, leftmost.pt) {
        leftmost, k := p, j;
      }
      p := p.next;
      j := j + 1;
      if p == start {
        return;
      }
    }
  }

  /** Where the ring edge p-q crosses the horizontal through h. */
  function CrossingX(p: Point, q: Point, h: Point): real
    requires q.y != p.y
  {
    p.x + (h.y - p.y) * (q.x - p.x) / (q.y - p.y)
  }

  predicate Spans(p: Point, q: Point, h: Point) {
    q.y <= h.y <= p.y && q.y != p.y
  }

  /** Edge j of the ring crosses the horizontal through h at h or left of it. */
  ghost predicate Reaches(ps: seq<Point>, j: nat, h: Point)
    requires j < |ps|
  {
    Spans(ps[j], ps[Succ(j, |ps|)], h) && CrossingX(ps[j], ps[Succ(j, |ps|)], h) <= h.x
  }

  ghost predicate NoEdgeLeft(ps: seq<Point>, h: Point) {
    forall j :: 0 <= j < |ps| ==> !Reaches(ps, j, h)
  }

  /** Edge e reaches h at x = qx. No edge before place n does so nearer to h, and none before e as near. */
  ghost predicate Nearest(ps: seq<Point>, e: nat, n: nat, h: Point, qx: real)
    requires e < |ps| && n <= |ps|
  {
    && Reaches(ps, e, h) && CrossingX(ps[e], ps[Succ(e, |ps|)], h) == qx
    && (forall i :: 0 <= i < n && Reaches(ps, i, h) ==> CrossingX(ps[i], ps[Succ(i, |ps|)], h) <= qx)
    && forall i :: 0 <= i < e && Reaches(ps, i, h) ==> CrossingX(ps[i], ps[Succ(i, |ps|)], h) < qx
  }

  /** The end of edge e that lies further left. */
  ghost function LeftEnd(ps: seq<Point>, e: nat): (k: nat)
    requires e < |ps|
    ensures k < |ps|
  {
    if ps[e].x < ps[Succ(e, |ps|)].x then e else Succ(e, |ps|)
  }

  /** The first loop of findHoleBridge: the nearest edge to the left of the hole point. */
  method NearestEdge(hole: Node, outer: Node, ghost s: seq<Node>)
    returns (m: Node?, qx: real, exact: bool, ghost e: nat)
    requires Ring(s) && s[0] == outer
    ensures m == null <==> NoEdgeLeft(Pts(s), hole.pt)
    ensures m != null ==> e < |s| && Nearest(Pts(s), e, |s|, hole.pt, qx) && m == s[LeftEnd(Pts(s), e)]
    ensures exact <==> m != null && qx == hole.pt.x
  {
    ghost var ps := Pts(s);
    var p := outer;
    m, qx, exact, e := null, 0.0, false, 0;
    ghost var j := 0;
    while true
      invariant j < |s| && p == s[j] && !exact && e < |s| && (m != null ==> e < j)
      invariant m == null ==> forall i :: 0 <= i < j ==> !Reaches(ps, i, hole.pt)
      invariant m != null ==> Nearest(ps, e, j, hole.pt, qx) && m == s[LeftEnd(ps, e)] && qx != hole.pt.x
      decreases |s| - j
    {
      StepAlong(s, j);
      assert Reaches(ps, j, hole.pt) <==>
        Spans(p.pt, p.next.pt, hole.pt) && CrossingX(p.pt, p.next.pt, hole.pt) <= hole.pt.x;
      if Spans(p.pt, p.next.pt, hole.pt) {
        var x := CrossingX(p.pt, p.next.pt, hole.pt);
        if x <= hole.pt.x && (m == null || x > qx) {
          qx, e := x, j;
          m := if p.pt.x < p.next.pt.x then p else p.next;
          if x == hole.pt.x {
            exact := true;
            return;
          }
        }
      }
      p := p.next;
      j := j + 1;
      if p == outer {
        return;
      }
    }
  }

  predicate SectorContainsSector(m: Node, p: Node)
    requires m.prev != null && m.next != null && p.prev != null && p.next != null
    reads m`prev, m`next, p`prev, p`next
  {
    Turn(m.prev.pt, m.pt, p.prev.pt) < 0.0 && Turn(p.next.pt, m.pt, m.next.pt) < 0.0
  }

  /** The triangle between the hole point, the nearest edge and its left end contains p. */
  predicate InWedge(m: Point, h: Point, qx: real, p: Point) {
    && h.x >= p.x >= m.x && h.x != p.x
    && ContainsPoint(Point(if h.y < m.y then h.x else qx, h.y), m, Point(if h.y < m.y then qx else h.x, h.y), p)
  }

  function Slope(p: Point, h: Point): real
    requires p.x != h.x
  {
    Abs(h.y - p.y) / (h.x - p.x)
  }

  /** Vertex k of the ring that starts at the left end is in the way of a straight bridge. */
  ghost predicate InTheWay(ps: seq<Point>, h: Point, qx: real, k: nat)
    requires k < |ps|
  {
    InWedge(ps[0], h, qx, ps[k]) && LocallyInside(ps[if k == 0 then |ps| - 1 else k - 1], ps[k], ps[Succ(k, |ps|)], h)
  }

  /** Of the vertices before place n that are in the way, k is one at the flattest angle; if there is none, k is 0. */
  ghost predicate Flattest(ps: seq<Point>, h: Point, qx: real, k: nat, n: nat)
    requires k < |ps| && n <= |ps|
  {
    && (k == 0 || InTheWay(ps, h, qx, k))
    && forall i :: 0 <= i < n && InTheWay(ps, h, qx, i) ==> InTheWay(ps, h, qx, k) && Slope(ps[k], h) <= Slope(ps[i], h)
  }

  /** The second loop of findHoleBridge: the visible vertex at the flattest angle. */
  method FlattestVertex(hole: Node, m0: Node, qx: real, ghost s: seq<Node>) returns (m: Node, ghost k: nat)
    requires Ring(s) && s[0] == m0
    ensures k < |s| && m == s[k] && Flattest(Pts(s), hole.pt, qx, k, |s|)
  {
    ghost var ps := Pts(s);
    m, k := m0, 0;
    var p, found, tanMin := m0, false, 0.0;
    ghost var j := 0;
    while true
      invariant j < |s| && p == s[j] && k < |s| && m == s[k]
      invariant if found then InTheWay(ps, hole.pt, qx, k) && tanMin == Slope(m.pt, hole.pt) else k == 0
      invariant !found ==> forall i :: 0 <= i < j ==> !InTheWay(ps, hole.pt, qx, i)
      invariant found ==> forall i :: 0 <= i < j && InTheWay(ps, hole.pt, qx, i) ==> tanMin <= Slope(ps[i], hole.pt)
      decreases |s| - j
    {
      StepAlong(s, j);
      RingPlaceAt(s, j);
      NodeLinks(s, p);
      NodeLinks(s, m);
      if InWedge(m0.pt, hole.pt, qx, p.pt) {
        var tanCur := Slope(p.pt, hole.pt);
        if LocallyInside(p.prev.pt, p.pt, p.next.pt, hole.pt)
           && (!found || tanCur < tanMin || (tanCur == tanMin && (p.pt.x > m.pt.x || SectorContainsSector(m, p))))
        {
          m, k, tanMin, found := p, j, tanCur, true;
        }
      }
      p := p.next;
      j := j + 1;
      if p == m0 {
        return;
      }
    }
  }

  lemma NodeLinks(s: seq<Node>, n: Node)
    requires Ring(s) && n in s
    ensures n.next != null && n.prev != null
  {
    assert n in NodeSet(s);
    RingPointers(s, n);
  }

  /**
   * findHoleBridge: nothing exactly if no edge lies left of the hole. Otherwise the bridge goes to
   * the left end of the nearest such edge, or, unless the hole point lies on that edge, to the
   * vertex at the flattest angle among those in the way.
   */
  method FindHoleBridge(hole: Node, outer: Node, ghost s: seq<Node>) returns (m: Node?, ghost k: nat)
    requires Ring(s) && s[0] == outer
    ensures m == null <==> NoEdgeLeft(Pts(s), hole.pt)
    ensures m != null ==> k < |s| && s[k] == m && BridgeTo(Pts(s), hole.pt, k)
  {
    var qx, exact;
    ghost var e, r;
    k := 0;
    m, qx, exact, e := NearestEdge(hole, outer, s);
    if m == null {
      return;
    }
    k := LeftEnd(Pts(s), e);
    if exact {
      BridgeFound(Pts(s), hole.pt, qx, e, 0);
      return;
    }
    m, r := FlattestFrom(hole, m, qx, s, k);
    BridgeFound(Pts(s), hole.pt, qx, e, r);
    k := Later(k, r, |s|);
  }

  /** FlattestVertex, seen from the k-th node of the ring. */
  method FlattestFrom(hole: Node, m0: Node, qx: real, ghost s: seq<Node>, ghost k: nat) returns (m: Node, ghost r: nat)
    requires Ring(s) && k < |s| && m0 == s[k]
    ensures r < |s| && m == s[Later(k, r, |s|)] && Flattest(From(Pts(s), k), hole.pt, qx, r, |s|)
  {
    RingRot(s, k);
    assert Pts(Rot(s, k)) == From(Pts(s), k);
    m, r := FlattestVertex(hole, m0, qx, Rot(s, k));
  }

  /** The place r steps after place k. */
  ghost function Later(k: nat, r: nat, n: nat): (l: nat)
    requires k < n && r < n
    ensures l < n
  {
    if k + r < n then k + r else k + r - n
  }

  /** Edge e is the nearest, at x = qx, and the bridge goes to the vertex r steps after its left end. */
  ghost predicate BridgeVia(ps: seq<Point>, h: Point, e: nat, r: nat, qx: real) {
    && e < |ps| && r < |ps| && Nearest(ps, e, |ps|, h, qx)
    && if qx == h.x then r == 0 else Flattest(From(ps, LeftEnd(ps, e)), h, qx, r, |ps|)
  }

  ghost predicate BridgeTo(ps: seq<Point>, h: Point, k: nat) {
    exists e: nat, r: nat, qx: real :: BridgeVia(ps, h, e, r, qx) && k == Later(LeftEnd(ps, e), r, |ps|)
  }

  lemma BridgeFound(ps: seq<Point>, h: Point, qx: real, e: nat, r: nat)
    requires e < |ps| && r < |ps| && Nearest(ps, e, |ps|, h, qx)
    requires if qx == h.x then r == 0 else Flattest(From(ps, LeftEnd(ps, e)), h, qx, r, |ps|)
    ensures BridgeTo(ps, h, Later(LeftEnd(ps, e), r, |ps|))
  {
    assert BridgeVia(ps, h, e, r, qx);
  }

  ghost predicate OnlyBridge(ps: seq<Point>, h: Point, k: nat) {
    forall l :: BridgeTo(ps, h, l) <==> l == k
  }

  /** A hole point on its nearest edge is joined to the left end of that edge. */
  lemma BridgeOnEdge(ps: seq<Point>, h: Point, e: nat)
    requires e < |ps| && Nearest(ps, e, |ps|, h, h.x)
    ensures OnlyBridge(ps, h, LeftEnd(ps, e))
  {
    BridgeFound(ps, h, h.x, e, 0);
    forall k | BridgeTo(ps, h, k)
      ensures k == LeftEnd(ps, e)
    {
      var f: nat, r: nat, qx: real :| BridgeVia(ps, h, f, r, qx) && k == Later(LeftEnd(ps, f), r, |ps|);
      assert f == e;
    }
  }
}
