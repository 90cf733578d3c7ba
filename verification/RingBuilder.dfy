/** linkedList: a ring of nodes from a list of points, wound the way the caller asks for. */
module RingBuilder {
  import opened Plane
  import opened ZOrder
  import opened Rings

  /** What the orientation loop adds for the edge from `from` to `to`. */
  function EdgeTerm(from: Point, to: Point): real {
    (from.x - to.x) * (to.y + from.y)
  }

  lemma TermIsCross(from: Point, to: Point)
    ensures EdgeTerm(from, to) == Cross(from, to) + from.x * from.y - to.x * to.y
  {
  }

  lemma PrefixStep(points: seq<Point>, i: nat)
    requires 0 < i < |points|
    ensures PathSum(points[..i + 1]) == PathSum(points[..i]) + Cross(points[i - 1], points[i])
  {
    assert points[..i + 1] == points[..i] + [points[i]];
    PathSumAppend(points[..i], [points[i]]);
  }

  /** The orientation sum is the doubled signed area of the closed point list. */
  method OrientationSum(points: seq<Point>) returns (sum: real)
    ensures sum == Area2(points)
  {
    sum := 0.0;
    var n := |points|;
    if n == 0 {
      return;
    }
    var i, j := 0, n - 1;
    while i < n
      invariant 0 <= i <= n && j == if i == 0 then n - 1 else i - 1
      invariant i == 0 ==> sum == 0.0
      invariant i > 0 ==> sum == Cross(points[n - 1], points[0]) + PathSum(points[..i])
                                 + points[n - 1].x * points[n - 1].y - points[i - 1].x * points[i - 1].y
    {
      TermIsCross(points[j], points[i]);
      if i > 0 {
        PrefixStep(points, i);
      }
      sum := sum + EdgeTerm(points[j], points[i]);
      j := i;
      i := i + 1;
    }
    assert points[..n] == points;
  }

  /** A node as linkedList makes it: number `base + k` for point k, not yet in any z-order list. */
  ghost predicate Made(n: Node, base: nat, points: seq<Point>)
    reads n
  {
    && base <= n.i < base + |points| && n.pt == points[n.i - base]
    && n.z == 0 && !n.steiner && n.prevZ == null && n.nextZ == null
  }

  ghost predicate AllMade(s: seq<Node>, base: nat, points: seq<Point>)
    reads s
  {
    forall k :: 0 <= k < |s| ==> Made(s[k], base, points)
  }

  /** No two of the nodes stand for the same input vertex. */
  ghost predicate Unalike(nodes: set<Node>) {
    forall m, n :: m in nodes && n in nodes && m != n ==> m.i != n.i
  }

  /** Node k of the listing has number first + k, or first - k. */
  ghost predicate Counted(s: seq<Node>, first: int, up: bool) {
    forall k :: 0 <= k < |s| ==> s[k].i == if up then first + k else first - k
  }

  lemma CountOn(s: seq<Node>, p: Node, first: int, up: bool)
    requires Counted(s, first, up) && p.i == if up then first + |s| else first - |s|
    ensures Counted(s + [p], first, up)
  {
  }

  lemma CountedUnalike(s: seq<Node>, first: int, up: bool)
    requires Counted(s, first, up)
    ensures Unalike(NodeSet(s))
  {
    forall m, n | m in NodeSet(s) && n in NodeSet(s) && m != n
      ensures m.i != n.i
    {
      var j :| 0 <= j < |s| && s[j] == m;
      var k :| 0 <= k < |s| && s[k] == n;
    }
  }

  /** Inserts point k after `last`. */
  method AddPoint(points: seq<Point>, base: nat, k: nat, last: Node?, ghost s: seq<Node>) returns (p: Node)
    requires k < |points| && AllMade(s, base, points)
    requires if s == [] then last == null else Ring(s) && last == s[|s| - 1]
    modifies NodeSet(s)`next, NodeSet(s)`prev
    ensures fresh(p) && Ring(s + [p]) && AllMade(s + [p], base, points) && p.i == base + k && p.pt == points[k]
  {
    p := InsertNode(base + k, points[k], last, s);
  }

  method BuildForward(points: seq<Point>, base: nat) returns (last: Node?, ghost s: seq<Node>)
    ensures if points == [] then last == null && s == [] else Ring(s) && last == s[|s| - 1]
    ensures fresh(NodeSet(s)) && AllMade(s, base, points) && Unalike(NodeSet(s))
    ensures Pts(s) == points
  {
    last, s := null, [];
    var i := 0;
    while i < |points|
      invariant 0 <= i <= |points| && |s| == i
      invariant if s == [] then last == null else Ring(s) && last == s[|s| - 1]
      invariant fresh(NodeSet(s)) && AllMade(s, base, points)
      invariant Pts(s) == points[..i] && Counted(s, base, true)
    {
      var p := AddPoint(points, base, i, last, s);
      AppendNodes(s, p);
      assert fresh(NodeSet(s + [p]));
      CountOn(s, p, base, true);
      assert Pts(s + [p]) == Pts(s) + [p.pt];
      last, s := p, s + [p];
      i := i + 1;
    }
    CountedUnalike(s, base, true);
  }

  method BuildBackward(points: seq<Point>, base: nat) returns (last: Node?, ghost s: seq<Node>)
    ensures if points == [] then last == null && s == [] else Ring(s) && last == s[|s| - 1]
    ensures fresh(NodeSet(s)) && AllMade(s, base, points) && Unalike(NodeSet(s))
    ensures Pts(s) == Reversed(points)
  {
    last, s := null, [];
    var i := |points|;
    while i > 0
      invariant 0 <= i <= |points| && |s| == |points| - i
      invariant if s == [] then last == null else Ring(s) && last == s[|s| - 1]
      invariant fresh(NodeSet(s)) && AllMade(s, base, points)
      invariant Pts(s) == Reversed(points[i..]) && Counted(s, base + |points| - 1, false)
    {
      i := i - 1;
      var p := AddPoint(points, base, i, last, s);
      AppendNodes(s, p);
      assert fresh(NodeSet(s + [p]));
      CountOn(s, p, base + |points| - 1, false);
      assert Pts(s + [p]) == Pts(s) + [p.pt];
      assert points[i..][1..] == points[i + 1..];
      last, s := p, s + [p];
    }
    assert points[0..] == points;
    CountedUnalike(s, base + |points| - 1, false);
  }

  /** The doubled area a ring of these points is given: positive for outer rings, negative for holes. */
  ghost function WoundArea(points: seq<Point>, clockwise: bool): real {
    if clockwise then Abs(Area2(points)) else -Abs(Area2(points))
  }

  /** The points in the direction the caller asks for. */
  ghost function Wound(points: seq<Point>, clockwise: bool): seq<Point> {
    if clockwise == (Area2(points) > 0.0) then points else Reversed(points)
  }

  /** The ring that linkedList makes of these points, listed from the vertex it returns. */
  ghost function Listing(points: seq<Point>, clockwise: bool): seq<Point> {
    Unrepeated(Wound(points, clockwise))
  }

  /** Listed from the last point on; without it if it repeats the first. */
  ghost function Unrepeated(w: seq<Point>): seq<Point> {
    if |w| < 2 then w
    else if w[|w| - 1] == w[0] then w[..|w| - 1]
    else [w[|w| - 1]] + w[..|w| - 1]
  }

  lemma WoundHasArea(points: seq<Point>, clockwise: bool)
    ensures |Wound(points, clockwise)| == |points|
    ensures Area2(Wound(points, clockwise)) == WoundArea(points, clockwise)
  {
    Area2Reversed(points);
  }

  /** The two insertion loops of linkedList. */
  method BuildRing(points: seq<Point>, base: nat, clockwise: bool) returns (last: Node?, ghost s: seq<Node>)
    ensures if points == [] then last == null && s == [] else Ring(s) && last == s[|s| - 1]
    ensures fresh(NodeSet(s)) && AllMade(s, base, points) && Unalike(NodeSet(s))
    ensures |s| == |points| && Pts(s) == Wound(points, clockwise)
  {
    WoundHasArea(points, clockwise);
    var sum := OrientationSum(points);
    if clockwise == (sum > 0.0) {
      last, s := BuildForward(points, base);
      assert Pts(s) == Wound(points, clockwise);
    } else {
      last, s := BuildBackward(points, base);
      assert Pts(s) == Wound(points, clockwise);
    }
    assert |Pts(s)| == |s|;
  }

  /** Drops the last node when it repeats the first point, and starts the listing at the result. */
  method DropRepeat(last: Node, ghost s: seq<Node>, ghost pool: set<Node>) returns (r: Node, ghost s': seq<Node>)
    requires Ring(s) && s[|s| - 1] == last && NodeSet(s) <= pool && ZClosed(pool) && !last.steiner
    modifies s`next, s`prev, pool`prevZ, pool`nextZ
    ensures Ring(s') && s'[0] == r && ZClosed(pool)
    ensures NodeSet(s') <= NodeSet(s) && |s| - 1 <= |s'| <= |s|
    ensures Area2(Pts(s')) == Area2(Pts(s)) && Pts(s') == Unrepeated(Pts(s))
  {
    RingBack(s);
    s', r := Back(s), last;
    RingNext(s');
    assert s'[0] in NodeSet(s');
    if last.pt == last.next.pt {
      FlatCut(s');
      ghost var zs := RemoveNode(last, Grid(0.0, 0.0, 0.0), s', [], pool);
      r, s' := last.next, Without(s');
    }
  }
}
