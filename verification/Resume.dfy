/** The second call of filterPoints in eliminateHole, when the first has dropped the bridge it starts at. */
module Resume {
  import opened Distinctness
  import opened Plane
  import opened Seams
  import opened Rings
  import opened Filter
  import opened LinkWalk
  import opened Reseal
  import opened Astray

  // --- The nodes by number ---

  /** The ring from the last node on the right round to the last on the left, then the dropped ones. */
  ghost function Numbered(ring: seq<Node>, d: Sides): (nodes: seq<Node>)
    requires |d.left| > 0 && |d.right| > 0
    ensures |nodes| == |ring| + (|d.left| - 1) + (|d.right| - 1)
  {
    ring + d.left[..|d.left| - 1] + d.right[..|d.right| - 1]
  }

  ghost function GapOf(ring: seq<Node>, d: Sides): (g: Gap)
    requires |d.left| > 0 && |d.right| > 0
  {
    Gap(|ring|, |d.left| - 1, |d.right| - 1)
  }

  ghost predicate Cornered(c: Corners, nodes: seq<Node>)
    reads nodes`steiner
  {
    && |c.pt| == |c.steiner| == |nodes|
    && forall q :: 0 <= q < |nodes| ==> c.pt[q] == nodes[q].pt && c.steiner[q] == nodes[q].steiner
  }

  /** The nodes are linked as the numbers say. */
  ghost predicate Linked(nodes: seq<Node>, w: Walk)
    reads nodes`next, nodes`prev
  {
    && Within(w, |nodes|)
    && (forall q :: 0 <= q < |nodes| ==> nodes[q].next == nodes[w.next[q]])
    && (forall q :: 0 <= q < |nodes| ==> nodes[q].prev == nodes[w.prev[q]])
  }

  lemma OneIndex(nodes: seq<Node>, j: nat, k: nat)
    requires Distinct(nodes) && j < |nodes| && k < |nodes|
    ensures nodes[j] == nodes[k] <==> j == k
  {
  }

  // --- The walk on the nodes ---

  /** The neighbours of p are linked to each other. */
  method Unlink(p: Node, ghost nodes: seq<Node>, ghost w: Walk)
    requires Distinct(nodes) && Linked(nodes, w) && p == nodes[w.p]
    modifies nodes`next, nodes`prev
    ensures Linked(nodes, w.(next := w.next[w.prev[w.p] := w.next[w.p]], prev := w.prev[w.next[w.p] := w.prev[w.p]]))
    ensures p.prev == nodes[w.prev[w.p]]
  {
    ghost var l, r := w.prev[w.p], w.next[w.p];
    ghost var left, right := nodes[l], nodes[r];
    assert p.next == right && p.prev == left;
    p.next.prev := p.prev;
    assert p.prev == left && p.next == right;
    p.prev.next := p.next;
    forall q | 0 <= q < |nodes|
      ensures nodes[q].next == nodes[w.next[l := r][q]] && nodes[q].prev == nodes[w.prev[r := l][q]]
    {
      OneIndex(nodes, q, l);
      OneIndex(nodes, q, r);
    }
  }

  /** One turn of the loop of filterPoints, wherever the links lead. */
  method Turn(p: Node, stop: Node, ghost nodes: seq<Node>, ghost c: Corners, ghost w: Walk, ghost pool: set<Node>)
    returns (p': Node, stop': Node, over: bool)
    requires Distinct(nodes) && Cornered(c, nodes) && Linked(nodes, w) && p == nodes[w.p] && stop == nodes[w.stop]
    requires NodeSet(nodes) <= pool && ZClosed(pool)
    modifies nodes`next, nodes`prev, pool`prevZ, pool`nextZ
    ensures Linked(nodes, Step(c, w)) && ZClosed(pool)
    ensures p' == nodes[Step(c, w).p] && stop' == nodes[Step(c, w).stop]
    ensures over == Step(c, w).over
  {
    assert p in NodeSet(nodes);
    ghost var l, r := w.prev[w.p], w.next[w.p];
    OneIndex(nodes, l, r);
    OneIndex(nodes, r, w.stop);
    if Removable(p) {
      assert Drops(c, l, w.p, r);
      Unlink(p, nodes, w);
      UnlinkZ(p, [], 0, pool);
      p' := p.prev;
      stop', over := p', p' == p'.next;
    } else {
      p', stop' := p.next, stop;
      over := p' == stop';
    }
  }

  // --- The gap in numbers ---

  /** The ring, listed from one side of the gap round to the other. */
  ghost predicate Facing(b: Node, d: Sides, ring: seq<Node>, all: set<Node>)
    reads b`next, b`prev, ring`next, ring`prev, d.left`next, d.left`prev, d.right`next, d.right`prev
    reads all`next, all`prev, all`steiner
  {
    && Ring(ring) && Parted(b, d, ring) && Residue(all, ring) && NodeSet(ring) <= all && b in all
    && ring[0] == d.right[|d.right| - 1] && ring[|ring| - 1] == d.left[|d.left| - 1]
  }

  lemma NumberedAt(d: Sides, ring: seq<Node>, i: nat, j: nat)
    requires |ring| > 0 && i < |d.left| && j < |d.right|
    requires ring[0] == d.right[|d.right| - 1] && ring[|ring| - 1] == d.left[|d.left| - 1]
    ensures Numbered(ring, d)[LeftAt(GapOf(ring, d), i)] == d.left[i]
    ensures Numbered(ring, d)[RightAt(GapOf(ring, d), j)] == d.right[j]
  {
  }

  lemma NumberedDistinct(b: Node, d: Sides, ring: seq<Node>, all: set<Node>)
    requires Facing(b, d, ring, all)
    ensures Distinct(Numbered(ring, d))
  {
    OffRing(b, d, ring);
    var nodes, t, m := Numbered(ring, d), |ring|, |d.left| - 1;
    forall x, y | 0 <= x < y < |nodes|
      ensures nodes[x] != nodes[y]
    {
      if t <= x && y < t + m {
        assert d.left[x - t] != d.left[y - t];
      } else if t + m <= x {
        assert d.right[x - t - m] != d.right[y - t - m];
      } else if y < t {
        assert ring[x] != ring[y];
      }
    }
  }

  /** Every node of both sides belongs to the ring or was dropped. */
  lemma {:induction false} SideDropped(b: Node, d: Sides, ring: seq<Node>, all: set<Node>, i: nat)
    requires Facing(b, d, ring, all) && i < |d.left|
    ensures d.left[i] in all && (i < |d.left| - 1 ==> Gone(d.left[i], all))
  {
    assert Gone(b, all);
    if i > 0 {
      SideDropped(b, d, ring, all, i - 1);
      assert OnLeft(d, ring, i - 1);
    }
    if i < |d.left| - 1 {
      assert OnLeft(d, ring, i);
      assert Gone(d.left[i], all);
    }
  }

  lemma {:induction false} RightDropped(b: Node, d: Sides, ring: seq<Node>, all: set<Node>, j: nat)
    requires Facing(b, d, ring, all) && j < |d.right|
    ensures d.right[j] in all && (j < |d.right| - 1 ==> Gone(d.right[j], all))
  {
    assert Gone(b, all);
    if j > 0 {
      RightDropped(b, d, ring, all, j - 1);
      assert OnRight(d, ring, j - 1);
    }
    if j < |d.right| - 1 {
      assert OnRight(d, ring, j);
      assert Gone(d.right[j], all);
    }
  }

  ghost predicate Marked(d: Sides, marks: seq<nat>)
    reads d.right`prev
  {
    && |d.right| > 0 && |marks| == |d.right| - 1
    && forall j :: 0 <= j < |marks| ==> marks[j] < |d.left| && d.right[j].prev == d.left[marks[j]]
  }

  /** Both links of node q lead to numbered nodes. */
  ghost predicate LinksInside(nodes: seq<Node>, q: nat)
    requires q < |nodes|
    reads nodes`next, nodes`prev
  {
    exists x: nat, y: nat :: Numbers(nodes, q, x, y)
  }

  ghost predicate Numbers(nodes: seq<Node>, q: nat, x: nat, y: nat)
    requires q < |nodes|
    reads nodes`next, nodes`prev
  {
    x < |nodes| && y < |nodes| && nodes[q].next == nodes[x] && nodes[q].prev == nodes[y]
  }

  /** The links of the numbered nodes, as numbers. */
  lemma WalkOf(nodes: seq<Node>) returns (w: Walk)
    requires |nodes| > 0 && forall q :: 0 <= q < |nodes| ==> LinksInside(nodes, q)
    ensures Linked(nodes, w)
  {
    var next: seq<nat>, prev: seq<nat> := [], [];
    while |next| < |nodes|
      invariant |prev| == |next| <= |nodes|
      invariant forall q :: 0 <= q < |next| ==> Numbers(nodes, q, next[q], prev[q])
    {
      assert LinksInside(nodes, |next|);
      var x: nat, y: nat :| Numbers(nodes, |next|, x, y);
      next, prev := next + [x], prev + [y];
    }
    w := Walk(next, prev, 0, 0, false);
    forall q | 0 <= q < |nodes|
      ensures Numbers(nodes, q, next[q], prev[q])
    {
    }
  }

  lemma InsideAt(nodes: seq<Node>, q: nat, x: nat, y: nat)
    requires q < |nodes| && x < |nodes| && y < |nodes| && nodes[q].next == nodes[x] && nodes[q].prev == nodes[y]
    ensures LinksInside(nodes, q)
  {
    assert Numbers(nodes, q, x, y);
  }

  /** No link of a numbered node leads elsewhere. */
  lemma AllInside(b: Node, d: Sides, ring: seq<Node>, all: set<Node>, q: nat)
    requires Facing(b, d, ring, all) && q < |Numbered(ring, d)|
    ensures LinksInside(Numbered(ring, d), q)
  {
    var nodes, t, m, n, g := Numbered(ring, d), |ring|, |d.left| - 1, |d.right| - 1, GapOf(ring, d);
    if q < t {
      RingPlaceAt(ring, q);
      var next, prev := if q + 1 == t then 0 else q + 1, if q == 0 then t - 1 else q - 1;
      assert nodes[q] == ring[q] && nodes[next] == ring[next] && nodes[prev] == ring[prev];
      InsideAt(nodes, q, next, prev);
    } else if q < t + m {
      assert OnLeft(d, ring, q - t);
      var j :| 0 <= j < |d.right| && d.right[j] == d.left[q - t].next;
      NumberedAt(d, ring, q - t, j);
      NumberedAt(d, ring, q - t + 1, j);
      InsideAt(nodes, q, RightAt(g, j), LeftAt(g, q - t + 1));
    } else {
      assert OnRight(d, ring, q - t - m);
      var i :| 0 <= i < |d.left| && d.left[i] == d.right[q - t - m].prev;
      NumberedAt(d, ring, i, q - t - m);
      NumberedAt(d, ring, i, q - t - m + 1);
      InsideAt(nodes, q, RightAt(g, q - t - m + 1), LeftAt(g, i));
    }
  }

  /** A number that stands for a given node. */
  lemma Stands(nodes: seq<Node>, x: nat, y: nat, n: Node)
    requires Distinct(nodes) && x < |nodes| && y < |nodes| && nodes[x] == n && nodes[y] == n
    ensures x == y
  {
    OneIndex(nodes, x, y);
  }

  /** The numbers of the nodes beside the i-th on the left. */
  lemma LeftPlaces(d: Sides, ring: seq<Node>, w: Walk, i: nat)
    requires |d.left| > 0 && |d.right| > 0 && Distinct(Numbered(ring, d)) && Linked(Numbered(ring, d), w)
    requires |ring| > 0 && ring[0] == d.right[|d.right| - 1] && ring[|ring| - 1] == d.left[|d.left| - 1]
    requires i < |d.left| - 1 && d.left[i].prev == d.left[i + 1] && d.left[i].next in d.right
    ensures w.prev[LeftAt(GapOf(ring, d), i)] == LeftAt(GapOf(ring, d), i + 1)
    ensures IsRight(GapOf(ring, d), w.next[LeftAt(GapOf(ring, d), i)])
  {
    var nodes, g := Numbered(ring, d), GapOf(ring, d);
    var q := LeftAt(g, i);
    NumberedAt(d, ring, i, 0);
    NumberedAt(d, ring, i + 1, 0);
    Stands(nodes, w.prev[q], LeftAt(g, i + 1), d.left[i + 1]);
    var j :| 0 <= j < |d.right| && d.right[j] == d.left[i].next;
    NumberedAt(d, ring, 0, j);
    Stands(nodes, w.next[q], RightAt(g, j), d.right[j]);
  }

  lemma LeftNumbers(b: Node, d: Sides, ring: seq<Node>, all: set<Node>, c: Corners, w: Walk, i: nat)
    requires Facing(b, d, ring, all) && Linked(Numbered(ring, d), w) && Cornered(c, Numbered(ring, d))
    requires i < |d.left| - 1
    ensures LeftKept(c, w, GapOf(ring, d), i)
  {
    NumberedDistinct(b, d, ring, all);
    SideDropped(b, d, ring, all, i);
    assert OnLeft(d, ring, i);
    LeftPlaces(d, ring, w, i);
    NumberedAt(d, ring, i, 0);
  }

  /** The numbers of the nodes beside the j-th on the right. */
  lemma RightPlaces(d: Sides, ring: seq<Node>, w: Walk, marks: seq<nat>, j: nat)
    requires |d.left| > 0 && Marked(d, marks) && Distinct(Numbered(ring, d)) && Linked(Numbered(ring, d), w)
    requires |ring| > 0 && ring[0] == d.right[|d.right| - 1] && ring[|ring| - 1] == d.left[|d.left| - 1]
    requires j < |d.right| - 1 && d.right[j].next == d.right[j + 1]
    ensures w.next[RightAt(GapOf(ring, d), j)] == RightAt(GapOf(ring, d), j + 1)
    ensures w.prev[RightAt(GapOf(ring, d), j)] == LeftAt(GapOf(ring, d), marks[j])
  {
    var nodes, g := Numbered(ring, d), GapOf(ring, d);
    var q := RightAt(g, j);
    NumberedAt(d, ring, marks[j], j);
    NumberedAt(d, ring, 0, j + 1);
    Stands(nodes, w.next[q], RightAt(g, j + 1), d.right[j + 1]);
    Stands(nodes, w.prev[q], LeftAt(g, marks[j]), d.left[marks[j]]);
  }

  /** The corners there, of a node that was doubled or in line. */
  lemma RightCorners(d: Sides, ring: seq<Node>, c: Corners, marks: seq<nat>, j: nat)
    requires |d.left| > 0 && Marked(d, marks) && Cornered(c, Numbered(ring, d))
    requires |ring| > 0 && ring[0] == d.right[|d.right| - 1] && ring[|ring| - 1] == d.left[|d.left| - 1]
    requires j < |d.right| - 1 && d.right[j].next == d.right[j + 1] && d.right[j].prev != null && Removable(d.right[j])
    ensures !c.steiner[RightAt(GapOf(ring, d), j)] && FlatRight(c, GapOf(ring, d), marks, j)
  {
    NumberedAt(d, ring, marks[j], j);
    NumberedAt(d, ring, 0, j + 1);
  }

  lemma RightNumbers(b: Node, d: Sides, ring: seq<Node>, all: set<Node>, c: Corners, w: Walk, marks: seq<nat>, j: nat)
    requires Facing(b, d, ring, all) && Linked(Numbered(ring, d), w) && Cornered(c, Numbered(ring, d))
    requires Marked(d, marks)
    requires j < |d.right| - 1
    ensures RightKept(c, w, GapOf(ring, d), marks, j) && FlatRight(c, GapOf(ring, d), marks, j)
  {
    NumberedDistinct(b, d, ring, all);
    RightDropped(b, d, ring, all, j);
    assert OnRight(d, ring, j);
    RightPlaces(d, ring, w, marks, j);
    RightCorners(d, ring, c, marks, j);
  }

  ghost predicate RingKept(c: Corners, w: Walk, g: Gap, k: nat)
    requires |c.pt| == |c.steiner| == |w.next| == |w.prev| == Size(g) && k < g.ring
  {
    && w.next[k] == (if k + 1 == g.ring then 0 else k + 1)
    && w.prev[k] == (if k == 0 then g.ring - 1 else k - 1)
    && (g.ring > 1 ==> Stays(c, g, k))
  }

  lemma Assembled(c: Corners, w: Walk, g: Gap, marks: seq<nat>)
    requires g.ring > 0 && |c.pt| == Size(g) && Fits(c, w) && |marks| == g.right
    requires forall k :: 0 <= k < g.ring ==> RingKept(c, w, g, k)
    requires forall i :: 0 <= i < g.left ==> LeftKept(c, w, g, i)
    requires forall j :: 0 <= j < g.right ==> RightKept(c, w, g, marks, j) && FlatRight(c, g, marks, j)
    ensures Opened(c, w, g, marks)
  {
    assert RingKept(c, w, g, 0) && RingKept(c, w, g, g.ring - 1);
    assert Chained(w, g) by {
      forall k | 0 <= k < g.ring
        ensures (k < g.ring - 1 ==> w.next[k] == k + 1) && (k > 0 ==> w.prev[k] == k - 1)
      {
        assert RingKept(c, w, g, k);
      }
    }
    assert Tidy(c, g) by {
      forall k | 0 <= k < g.ring && g.ring > 1
        ensures Stays(c, g, k)
      {
        assert RingKept(c, w, g, k);
      }
    }
  }

  lemma RingNumbers(b: Node, d: Sides, ring: seq<Node>, all: set<Node>, c: Corners, w: Walk, k: nat)
    requires Facing(b, d, ring, all) && Linked(Numbered(ring, d), w) && Cornered(c, Numbered(ring, d)) && k < |ring|
    requires |ring| == 1 || KeepsFrom(ring, 0)
    ensures RingKept(c, w, GapOf(ring, d), k)
  {
    var nodes, g := Numbered(ring, d), GapOf(ring, d);
    NumberedDistinct(b, d, ring, all);
    RingPlaceAt(ring, k);
    var next, prev := if k + 1 == |ring| then 0 else k + 1, if k == 0 then |ring| - 1 else k - 1;
    assert nodes[k] == ring[k] && nodes[next] == ring[next] && nodes[prev] == ring[prev];
    Stands(nodes, w.next[k], next, ring[next]);
    Stands(nodes, w.prev[k], prev, ring[prev]);
    assert |ring| > 1 ==> Keeps(ring[k]);
  }

  /** The state at the beginning of the second call. */
  lemma Opening(b: Node, d: Sides, ring: seq<Node>, all: set<Node>, c: Corners, marks: seq<nat>) returns (w: Walk)
    requires Facing(b, d, ring, all) && Cornered(c, Numbered(ring, d)) && Marked(d, marks)
    requires |ring| == 1 || KeepsFrom(ring, 0)
    ensures Linked(Numbered(ring, d), w) && Opened(c, w, GapOf(ring, d), marks)
  {
    var nodes, g := Numbered(ring, d), GapOf(ring, d);
    forall q | 0 <= q < |nodes|
      ensures LinksInside(nodes, q)
    {
      AllInside(b, d, ring, all, q);
    }
    w := WalkOf(nodes);
    forall k | 0 <= k < g.ring
      ensures RingKept(c, w, g, k)
    {
      RingNumbers(b, d, ring, all, c, w, k);
    }
    forall i | 0 <= i < g.left
      ensures LeftKept(c, w, g, i)
    {
      LeftNumbers(b, d, ring, all, c, w, i);
    }
    forall j | 0 <= j < g.right
      ensures RightKept(c, w, g, marks, j) && FlatRight(c, g, marks, j)
    {
      RightNumbers(b, d, ring, all, c, w, marks, j);
    }
    Assembled(c, w, g, marks);
  }

  // --- Looking at the gap, and the call itself ---

  /** A node is on the ring exactly when the node after it leads back to it. */
  lemma OnRingIff(b: Node, d: Sides, ring: seq<Node>, all: set<Node>, i: nat)
    requires Facing(b, d, ring, all) && i < |d.left|
    ensures d.left[i].next != null && d.left[i].prev != null
    ensures d.left[i].next.prev == d.left[i] <==> i == |d.left| - 1
    ensures i < |d.left| - 1 ==> d.left[i].prev == d.left[i + 1]
  {
    SideDropped(b, d, ring, all, i);
    if i < |d.left| - 1 {
      assert OnLeft(d, ring, i);
    } else {
      RingPlaceAt(ring, |ring| - 1);
      RingPlaceAt(ring, 0);
    }
  }

  lemma OnRingIffRight(b: Node, d: Sides, ring: seq<Node>, all: set<Node>, j: nat)
    requires Facing(b, d, ring, all) && j < |d.right|
    ensures d.right[j].next != null && d.right[j].prev != null
    ensures d.right[j].next.prev == d.right[j] <==> j == |d.right| - 1
    ensures j < |d.right| - 1 ==> d.right[j].next == d.right[j + 1] && d.right[j].prev in d.left
  {
    RightDropped(b, d, ring, all, j);
    if j < |d.right| - 1 {
      assert OnRight(d, ring, j);
    } else {
      RingPlaceAt(ring, 0);
      if |ring| > 1 {
        RingPlaceAt(ring, 1);
      }
    }
  }

  /** The nodes to the left of the dropped bridge, up to the first that is on the ring. */
  method ReadLeft(b: Node, ghost d: Sides, ghost ring: seq<Node>, ghost all: set<Node>) returns (left: seq<Node>)
    requires Facing(b, d, ring, all)
    ensures left == d.left
  {
    var n := b.prev;
    left := [n];
    OnRingIff(b, d, ring, all, 0);
    while n.next.prev != n
      invariant 0 < |left| <= |d.left| && left == d.left[..|left|] && n == d.left[|left| - 1]
      invariant n.next != null && n.prev != null && (n.next.prev == n <==> |left| == |d.left|)
      decreases |d.left| - |left|
    {
      OnRingIff(b, d, ring, all, |left| - 1);
      n := n.prev;
      left := left + [n];
      OnRingIff(b, d, ring, all, |left| - 1);
    }
  }

  /** The nodes to its right. */
  method ReadRight(b: Node, ghost d: Sides, ghost ring: seq<Node>, ghost all: set<Node>) returns (right: seq<Node>)
    requires Facing(b, d, ring, all)
    ensures right == d.right
  {
    var n := b.next;
    right := [n];
    OnRingIffRight(b, d, ring, all, 0);
    while n.next.prev != n
      invariant 0 < |right| <= |d.right| && right == d.right[..|right|] && n == d.right[|right| - 1]
      invariant n.next != null && (n.next.prev == n <==> |right| == |d.right|)
      decreases |d.right| - |right|
    {
      OnRingIffRight(b, d, ring, all, |right| - 1);
      n := n.next;
      right := right + [n];
      OnRingIffRight(b, d, ring, all, |right| - 1);
    }
  }

  method PlaceOf(n: Node, left: seq<Node>) returns (k: nat)
    requires n in left
    ensures k < |left| && left[k] == n
  {
    k := 0;
    while left[k] != n
      invariant k < |left| && n in left[k..]
      decreases |left| - k
    {
      k := k + 1;
    }
  }

  /** The places of the old left neighbours of the nodes on the right. */
  method ReadMarks(left: seq<Node>, right: seq<Node>, ghost b: Node, ghost d: Sides, ghost ring: seq<Node>,
                   ghost all: set<Node>)
    returns (marks: seq<nat>)
    requires Facing(b, d, ring, all) && left == d.left && right == d.right
    ensures Marked(d, marks)
  {
    marks := [];
    while |marks| < |right| - 1
      invariant |marks| < |right|
      invariant forall j :: 0 <= j < |marks| ==> marks[j] < |left| && right[j].prev == left[marks[j]]
      decreases |right| - |marks|
    {
      OnRingIffRight(b, d, ring, all, |marks|);
      var k := PlaceOf(right[|marks|].prev, left);
      marks := marks + [k];
    }
  }

  function PointsOf(s: seq<Node>): (r: seq<Point>)
    ensures |r| == |s| && forall k :: 0 <= k < |s| ==> r[k] == s[k].pt
  {
    seq(|s|, k requires 0 <= k < |s| => s[k].pt)
  }

  /** What can be seen at a dropped bridge before the second call. */
  method ReadSeam(b: Node, ghost d: Sides, ghost ring: seq<Node>, ghost all: set<Node>, ghost c: Corners)
    returns (seam: Seam, marks: seq<nat>)
    requires Facing(b, d, ring, all) && Cornered(c, Numbered(ring, d))
    ensures Marked(d, marks) && seam == SeamOf(c, GapOf(ring, d))
  {
    var left := ReadLeft(b, d, ring, all);
    var right := ReadRight(b, d, ring, all);
    marks := ReadMarks(left, right, b, d, ring, all);
    var a := left[|left| - 1];
    OnRingIff(b, d, ring, all, |left| - 1);
    RingPlaceAt(ring, |ring| - 1);
    seam := Seam(PointsOf(left), PointsOf(right), a.prev.pt, a.steiner, a.next == a);
    SeamRead(d, ring, c, seam);
  }

  lemma SeamRead(d: Sides, ring: seq<Node>, c: Corners, seam: Seam)
    requires Ring(ring) && |d.left| > 0 && |d.right| > 0 && Cornered(c, Numbered(ring, d))
    requires ring[0] == d.right[|d.right| - 1] && ring[|ring| - 1] == d.left[|d.left| - 1]
    requires seam.left == PointsOf(d.left) && seam.right == PointsOf(d.right)
    requires seam.back == ring[if |ring| == 1 then 0 else |ring| - 2].pt && seam.stiff == ring[|ring| - 1].steiner
    requires seam.single == (|ring| == 1)
    ensures seam == SeamOf(c, GapOf(ring, d))
  {
    var nodes, g := Numbered(ring, d), GapOf(ring, d);
    var s := SeamOf(c, g);
    forall i | 0 <= i < |d.left|
      ensures seam.left[i] == s.left[i]
    {
      NumberedAt(d, ring, i, 0);
    }
    forall j | 0 <= j < |d.right|
      ensures seam.right[j] == s.right[j]
    {
      NumberedAt(d, ring, 0, j);
    }
    assert forall k :: 0 <= k < |ring| ==> nodes[k] == ring[k];
  }

  lemma LeftApart(b: Node, d: Sides, ring: seq<Node>, all: set<Node>, i: nat)
    requires Facing(b, d, ring, all) && i < |d.left| - 1
    ensures d.left[i] in all && d.left[i] != b
  {
    SideDropped(b, d, ring, all, i);
    assert OnLeft(d, ring, i);
    assert d.left[i + 1] != d.left[0];
  }

  lemma RightApart(b: Node, d: Sides, ring: seq<Node>, all: set<Node>, j: nat)
    requires Facing(b, d, ring, all) && j < |d.right| - 1
    ensures d.right[j] in all && d.right[j] != b
  {
    RightDropped(b, d, ring, all, j);
    assert OnRight(d, ring, j);
    assert d.right[j + 1] != d.right[0];
  }

  lemma NumberedApart(b: Node, d: Sides, ring: seq<Node>, all: set<Node>, q: nat)
    requires Facing(b, d, ring, all) && q < |Numbered(ring, d)|
    ensures Numbered(ring, d)[q] in all && Numbered(ring, d)[q] != b
  {
    var t, m := |ring|, |d.left| - 1;
    if q < t {
      assert Numbered(ring, d)[q] == ring[q] && ring[q] in NodeSet(ring) && b !in ring;
    } else if q < t + m {
      assert Numbered(ring, d)[q] == d.left[q - t];
      LeftApart(b, d, ring, all, q - t);
    } else {
      assert Numbered(ring, d)[q] == d.right[q - t - m];
      RightApart(b, d, ring, all, q - t - m);
    }
  }

  lemma NumberedAll(b: Node, d: Sides, ring: seq<Node>, all: set<Node>)
    requires Facing(b, d, ring, all)
    ensures NodeSet(Numbered(ring, d)) <= all && b !in Numbered(ring, d)
  {
    forall q | 0 <= q < |Numbered(ring, d)|
      ensures Numbered(ring, d)[q] in all && Numbered(ring, d)[q] != b
    {
      NumberedApart(b, d, ring, all, q);
    }
  }

  /** The first turn: the bridge is dropped once more. */
  method DropAgain(b: Node, ghost nodes: seq<Node>, ghost w: Walk, ghost l: nat, ghost r: nat, ghost pool: set<Node>)
    returns (p: Node, stop: Node, over: bool)
    requires Distinct(nodes) && Linked(nodes, w) && l < |nodes| && r < |nodes| && b !in nodes
    requires b.prev == nodes[l] && b.next == nodes[r] && Removable(b)
    requires b in pool && ZClosed(pool)
    modifies nodes`next, nodes`prev, pool`prevZ, pool`nextZ
    ensures ZClosed(pool) && Linked(nodes, Walk(w.next[l := r], w.prev[r := l], l, l, l == r))
    ensures p == stop == nodes[l] && over == (l == r)
  {
    p, stop, over := b, b.next, false;
    OneIndex(nodes, l, r);
    if Removable(p) {
      LinkAcross(p, nodes, w, l, r);
      UnlinkZ(p, [], 0, pool);
      p := p.prev;
      stop, over := p, p == p.next;
    }
  }

  method LinkAcross(b: Node, ghost nodes: seq<Node>, ghost w: Walk, ghost l: nat, ghost r: nat)
    requires Distinct(nodes) && Linked(nodes, w) && l < |nodes| && r < |nodes| && b !in nodes
    requires b.prev == nodes[l] && b.next == nodes[r]
    modifies nodes`next, nodes`prev
    ensures Linked(nodes, Walk(w.next[l := r], w.prev[r := l], l, l, l == r))
    ensures b.prev == nodes[l] && nodes[l].next == nodes[r]
  {
    b.next.prev := b.prev;
    b.prev.next := b.next;
    forall q | 0 <= q < |nodes|
      ensures nodes[q].next == nodes[w.next[l := r][q]] && nodes[q].prev == nodes[w.prev[r := l][q]]
    {
      OneIndex(nodes, q, l);
      OneIndex(nodes, q, r);
    }
  }

  /** All the turns of a walk, up to its end. */
  ghost predicate Course(c: Corners, path: seq<Walk>) {
    && |path| > 0 && path[|path| - 1].over
    && (forall i :: 0 <= i < |path| ==> Fits(c, path[i]))
    && (forall i :: 0 <= i < |path| - 1 ==> Follows(c, path, i))
  }

  ghost predicate Follows(c: Corners, path: seq<Walk>, i: nat)
    requires i + 1 < |path|
  {
    Fits(c, path[i]) && !path[i].over && path[i + 1] == Step(c, path[i])
  }

  lemma {:induction false} CourseOf(c: Corners, w: Walk, k: nat) returns (path: seq<Walk>)
    requires Fits(c, w) && After(c, w, k).over
    ensures Course(c, path) && path[0] == w && path[|path| - 1] == After(c, w, k)
    decreases k
  {
    if w.over {
      path := [w];
    } else {
      var rest := CourseOf(c, Step(c, w), k - 1);
      path := [w] + rest;
      forall i | 0 <= i < |path| - 1
        ensures Follows(c, path, i)
      {
        assert i > 0 ==> Follows(c, rest, i - 1);
      }
    }
  }

  /** The turns after it, as long as the walk goes on. */
  method WalkOut(p0: Node, stop0: Node, over0: bool, ghost nodes: seq<Node>, ghost c: Corners, ghost path: seq<Walk>,
                 ghost pool: set<Node>)
    returns (r: Node)
    requires Distinct(nodes) && Cornered(c, nodes) && Course(c, path) && Linked(nodes, path[0])
    requires NodeSet(nodes) <= pool && ZClosed(pool)
    requires p0 == nodes[path[0].p] && stop0 == nodes[path[0].stop] && over0 == path[0].over
    modifies nodes`next, nodes`prev, pool`prevZ, pool`nextZ
    ensures Linked(nodes, path[|path| - 1]) && r == nodes[path[|path| - 1].stop] && ZClosed(pool)
  {
    var p, stop, over := p0, stop0, over0;
    ghost var t := 0;
    while !over
      invariant 0 <= t < |path| && Linked(nodes, path[t]) && ZClosed(pool)
      invariant p == nodes[path[t].p] && stop == nodes[path[t].stop] && over == path[t].over
      decreases |path| - t
    {
      assert Follows(c, path, t);
      p, stop, over := Turn(p, stop, nodes, c, path[t], pool);
      t := t + 1;
    }
    assert t + 1 < |path| ==> Follows(c, path, t);
    r := stop;
  }

  method WalkFrom(b: Node, ghost nodes: seq<Node>, ghost c: Corners, ghost w: Walk, ghost l: nat, ghost r0: nat,
                  ghost path: seq<Walk>, ghost pool: set<Node>)
    returns (r: Node)
    requires Distinct(nodes) && Cornered(c, nodes) && Linked(nodes, w) && l < |nodes| && r0 < |nodes| && b !in nodes
    requires b.prev == nodes[l] && b.next == nodes[r0] && Removable(b)
    requires b in pool && NodeSet(nodes) <= pool && ZClosed(pool)
    requires Course(c, path) && path[0] == Walk(w.next[l := r0], w.prev[r0 := l], l, l, l == r0)
    modifies nodes`next, nodes`prev, pool`prevZ, pool`nextZ
    ensures Linked(nodes, path[|path| - 1]) && r == nodes[path[|path| - 1].stop] && ZClosed(pool)
  {
    var p, stop, over := DropAgain(b, nodes, w, l, r0, pool);
    r := WalkOut(p, stop, over, nodes, c, path, pool);
  }

  /** Where the numbers say that the ring is whole, it is. */
  lemma WholeRing(d: Sides, ring: seq<Node>, w: Walk)
    requires |ring| > 0 && Distinct(ring) && |d.left| > 0 && |d.right| > 0
    requires Linked(Numbered(ring, d), w) && Whole(w, GapOf(ring, d))
    ensures Ring(ring)
  {
    var nodes, t := Numbered(ring, d), |ring|;
    assert forall k :: 0 <= k < t ==> nodes[k] == ring[k];
    assert nodes[t - 1].next == nodes[w.next[t - 1]] && nodes[0].prev == nodes[w.prev[0]];
    forall k | 0 <= k < t - 1
      ensures ring[k].next == ring[k + 1] && ring[k + 1].prev == ring[k]
    {
      assert nodes[k].next == nodes[w.next[k]] && nodes[k + 1].prev == nodes[w.prev[k + 1]];
    }
  }

  /** What the second call of filterPoints begins with, at a seam that closes, and the turns that it will take. */
  lemma WayBack(b: Node, d: Sides, ring: seq<Node>, all: set<Node>, c: Corners, w: Walk, marks: seq<nat>)
    returns (path: seq<Walk>)
    requires Facing(b, d, ring, all)
    requires Cornered(c, Numbered(ring, d)) && Linked(Numbered(ring, d), w) && Opened(c, w, GapOf(ring, d), marks)
    requires Sound(SeamOf(c, GapOf(ring, d)), marks) && Closes(SeamOf(c, GapOf(ring, d)), marks)
    ensures Beginning(b, d, ring, all)
    ensures Course(c, path) && path[0] == Reopened(w, GapOf(ring, d)) && Whole(path[|path| - 1], GapOf(ring, d))
    ensures path[|path| - 1].stop == |ring| - 1
  {
    var g := GapOf(ring, d);
    Begins(b, d, ring, all);
    GivesBackIff(c, w, g, marks);
    var k: nat :| BackAfter(c, Reopened(w, g), g, k);
    path := CourseOf(c, Reopened(w, g), k);
  }

  /** The bridge could be dropped again, and points at the first nodes on both sides. */
  ghost predicate Beginning(b: Node, d: Sides, ring: seq<Node>, all: set<Node>)
    reads b`next, b`prev, b`steiner
  {
    && |ring| > 0 && Distinct(ring) && |d.left| > 0 && |d.right| > 0
    && Distinct(Numbered(ring, d)) && NodeSet(Numbered(ring, d)) <= all && b in all && b !in Numbered(ring, d)
    && b.prev == Numbered(ring, d)[LeftAt(GapOf(ring, d), 0)] && b.next == Numbered(ring, d)[RightAt(GapOf(ring, d), 0)]
    && Removable(b)
  }

  lemma Begins(b: Node, d: Sides, ring: seq<Node>, all: set<Node>)
    requires Facing(b, d, ring, all)
    ensures Beginning(b, d, ring, all)
  {
    NumberedDistinct(b, d, ring, all);
    NumberedAll(b, d, ring, all);
    NumberedAt(d, ring, 0, 0);
    assert b !in NodeSet(ring);
    assert Gone(b, all);
  }

  /**
   * The second call of filterPoints from a dropped bridge at a seam that closes: it ends, and the
   * ring is as the first call left it.
   */
  method FilterFromDropped(b: Node, ghost d: Sides, ghost ring: seq<Node>, ghost all: set<Node>, ghost pool: set<Node>,
                           ghost c: Corners, ghost w: Walk, ghost path: seq<Walk>)
    returns (r: Node)
    requires Beginning(b, d, ring, all) && all <= pool && ZClosed(pool)
    requires Cornered(c, Numbered(ring, d)) && Linked(Numbered(ring, d), w)
    requires Course(c, path) && path[0] == Reopened(w, GapOf(ring, d)) && Whole(path[|path| - 1], GapOf(ring, d))
    requires path[|path| - 1].stop == |ring| - 1
    modifies all`next, all`prev, pool`prevZ, pool`nextZ
    ensures Ring(ring) && r == ring[|ring| - 1] && ZClosed(pool)
  {
    ghost var nodes, g := Numbered(ring, d), GapOf(ring, d);
    r := WalkFrom(b, nodes, c, w, LeftAt(g, 0), RightAt(g, 0), path, pool);
    WholeRing(d, ring, path[|path| - 1]);
  }

  // --- The outcome ---

  /** A ring as the first call left it, with the bridge dropped. */
  datatype Stranding = Stranding(c: Corners, w: Walk, g: Gap)

  ghost const NOWHERE := Stranding(Corners([], []), Walk([], [], 0, 0, true), Gap(0, 0, 0))

  /** The second call does not give this ring back, however many turns it takes. */
  ghost predicate Stranded(x: Stranding) {
    forall turns: nat :: NotBack(x, turns)
  }

  /** The first call left a tidy ring, the seam does not close, and the ring is not back after so many turns. */
  ghost predicate NotBack(x: Stranding, turns: nat) {
    exists marks ::
      && Opened(x.c, x.w, x.g, marks)
      && Sound(SeamOf(x.c, x.g), marks) && !Closes(SeamOf(x.c, x.g), marks)
      && Fits(x.c, Reopened(x.w, x.g)) && !BackAfter(x.c, Reopened(x.w, x.g), x.g, turns)
  }

  lemma Strands(c: Corners, w: Walk, g: Gap, marks: seq<nat>)
    requires Opened(c, w, g, marks) && Sound(SeamOf(c, g), marks) && !Closes(SeamOf(c, g), marks)
    ensures Stranded(Stranding(c, w, g))
  {
    GivesBackIff(c, w, g, marks);
  }

  /** It is this ring, with these nodes dropped beside the bridge. */
  ghost predicate Pictured(x: Stranding, d: Sides, s: seq<Node>)
    requires |d.left| > 0 && |d.right| > 0
    reads NodeSet(s), d.left, d.right
  {
    exists k: nat :: k <= |s| && Numbering(x, d, Rot(s, k))
  }

  ghost predicate Numbering(x: Stranding, d: Sides, ring: seq<Node>)
    requires |d.left| > 0 && |d.right| > 0
    reads NodeSet(ring), d.left, d.right
  {
    && (forall n :: n in Numbered(ring, d) ==> n in NodeSet(ring) || n in d.left || n in d.right)
    && x.g == GapOf(ring, d) && Cornered(x.c, Numbered(ring, d)) && Linked(Numbered(ring, d), x.w)
  }

  /** All its points are points of these nodes. */
  ghost predicate Drawn(x: Stranding, all: set<Node>) {
    forall p :: p in x.c.pt ==> p in Spots(all)
  }

  lemma PictureOf(c: Corners, w: Walk, d: Sides, s: seq<Node>, ring: seq<Node>, k: nat, all: set<Node>)
    requires |d.left| > 0 && |d.right| > 0 && k <= |s| && ring == Rot(s, k)
    requires Cornered(c, Numbered(ring, d)) && Linked(Numbered(ring, d), w) && NodeSet(Numbered(ring, d)) <= all
    ensures Pictured(Stranding(c, w, GapOf(ring, d)), d, s) && Drawn(Stranding(c, w, GapOf(ring, d)), all)
  {
    var nodes := Numbered(ring, d);
    assert Numbering(Stranding(c, w, GapOf(ring, d)), d, ring);
    forall p | p in c.pt
      ensures p in Spots(all)
    {
      var q :| 0 <= q < |c.pt| && c.pt[q] == p;
      assert nodes[q] in NodeSet(nodes);
    }
  }

  lemma Cornering(nodes: seq<Node>) returns (c: Corners)
    ensures Cornered(c, nodes)
  {
    var pt: seq<Point>, steiner: seq<bool> := [], [];
    while |pt| < |nodes|
      invariant |pt| == |steiner| <= |nodes|
      invariant forall q :: 0 <= q < |pt| ==> pt[q] == nodes[q].pt && steiner[q] == nodes[q].steiner
    {
      pt, steiner := pt + [nodes[|pt|].pt], steiner + [nodes[|pt|].steiner];
    }
    c := Corners(pt, steiner);
  }

  /** The listing of a ring that ends at its k-th node. */
  lemma EndAt(s: seq<Node>, k: nat) returns (ring: seq<Node>)
    requires Ring(s) && k < |s|
    ensures ring == Rot(s, k + 1) && Ring(ring) && |ring| == |s| && NodeSet(ring) == NodeSet(s)
    ensures Area2(Pts(ring)) == Area2(Pts(s))
    ensures ring[|s| - 1] == s[k] && ring[0] == s[if k + 1 == |s| then 0 else k + 1]
    ensures forall n :: n in ring <==> n in s
  {
    ring := Rot(s, k + 1);
    if k + 1 == |s| {
      assert ring == s;
    } else {
      RotArea(s, k + 1);
      RingRot(s, k + 1);
      assert s == s[..k + 1] + s[k + 1..];
    }
  }

  lemma EndKeeps(s: seq<Node>, ring: seq<Node>)
    requires KeepsFrom(s, 0) && forall n :: n in ring ==> n in s
    ensures KeepsFrom(ring, 0)
  {
    forall q | 0 <= q < |ring|
      ensures Keeps(ring[q])
    {
      assert ring[q] in s;
      var x :| 0 <= x < |s| && s[x] == ring[q];
    }
  }

  /** The listing of the ring that begins on the right side of the gap. */
  lemma Face(b: Node, d: Sides, s: seq<Node>, all: set<Node>) returns (ring: seq<Node>, k: nat)
    requires Ring(s) && Parted(b, d, s) && Residue(all, s) && NodeSet(s) <= all && b in all
    ensures Facing(b, d, ring, all) && |ring| == |s| && NodeSet(ring) == NodeSet(s) && k <= |s| && ring == Rot(s, k)
    ensures Area2(Pts(ring)) == Area2(Pts(s))
    ensures KeepsFrom(s, 0) ==> KeepsFrom(ring, 0)
  {
    k := GapPlace(b, d, s);
    ring := EndAt(s, k);
    k := k + 1;
    FaceParted(b, d, s, ring);
    if KeepsFrom(s, 0) {
      EndKeeps(s, ring);
    }
  }

  lemma FaceParted(b: Node, d: Sides, s: seq<Node>, ring: seq<Node>)
    requires Parted(b, d, s) && forall n :: n in ring <==> n in s
    ensures Parted(b, d, ring)
  {
    forall i | 0 <= i < |d.left| - 1
      ensures OnLeft(d, ring, i)
    {
      assert OnLeft(d, s, i);
    }
    forall j | 0 <= j < |d.right| - 1
      ensures OnRight(d, ring, j)
    {
      assert OnRight(d, s, j);
    }
  }

  /**
   * The second call of filterPoints from a dropped bridge. Its outcome can be read off beforehand:
   * at a seam that closes it ends with the ring as it was; at any other it never gives it back.
   */
  method FilterDropped(b: Node, ghost d: Sides, ghost s: seq<Node>, ghost all: set<Node>, ghost pool: set<Node>)
    returns (r: Node, intact: bool, ghost s': seq<Node>, ghost x: Stranding)
    requires Ring(s) && Parted(b, d, s) && Residue(all, s) && NodeSet(s) <= all <= pool && b in all && ZClosed(pool)
    requires |s| == 1 || KeepsFrom(s, 0)
    modifies all`next, all`prev, pool`prevZ, pool`nextZ
    ensures ZClosed(pool)
    ensures intact ==>
      Ring(s') && s'[0] == r && NodeSet(s') == NodeSet(s) && |s'| == |s| && Area2(Pts(s')) == Area2(Pts(s))
    ensures !intact ==> Stranded(x) && Pictured(x, d, s) && Drawn(x, all)
  {
    ghost var ring, k := Face(b, d, s, all);
    ghost var c := Cornering(Numbered(ring, d));
    var seam, marks := ReadSeam(b, d, ring, all, c);
    ghost var w := Opening(b, d, ring, all, c, marks);
    SeamSound(c, w, GapOf(ring, d), marks);
    intact, r, s', x := Closes(seam, marks), b, ring, Stranding(c, w, GapOf(ring, d));
    if intact {
      ghost var path := WayBack(b, d, ring, all, c, w, marks);
      r := FilterFromDropped(b, d, ring, all, pool, c, w, path);
      s' := BackOf(s, ring, k);
    } else {
      StrandedHere(b, d, s, ring, k, all, c, w, marks);
    }
  }

  /** The ring listed from the vertex that the second call returns. */
  lemma BackOf(s: seq<Node>, ring: seq<Node>, k: nat) returns (s': seq<Node>)
    requires Ring(ring) && k <= |s| && ring == Rot(s, k) && s != []
    ensures Ring(s') && s'[0] == ring[|ring| - 1] && NodeSet(s') == NodeSet(s) && |s'| == |s|
    ensures Area2(Pts(s')) == Area2(Pts(s))
  {
    RingBack(ring);
    RotArea(s, k);
    s' := Back(ring);
  }

  lemma StrandedHere(b: Node, d: Sides, s: seq<Node>, ring: seq<Node>, k: nat, all: set<Node>, c: Corners, w: Walk,
                     marks: seq<nat>)
    requires Facing(b, d, ring, all) && k <= |s| && ring == Rot(s, k)
    requires Cornered(c, Numbered(ring, d)) && Linked(Numbered(ring, d), w)
    requires Opened(c, w, GapOf(ring, d), marks) && Sound(SeamOf(c, GapOf(ring, d)), marks)
    requires !Closes(SeamOf(c, GapOf(ring, d)), marks)
    ensures var x := Stranding(c, w, GapOf(ring, d)); Stranded(x) && Pictured(x, d, s) && Drawn(x, all)
  {
    Strands(c, w, GapOf(ring, d), marks);
    NumberedAll(b, d, ring, all);
    PictureOf(c, w, d, s, ring, k, all);
  }
}
