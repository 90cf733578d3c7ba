/** Circular doubly linked rings of polygon nodes, threaded by a second, z-ordered list. */
module Rings {
  import opened Distinctness
  import opened Plane
  import opened ZOrder
  import opened Seams

  class Node {
    const i: nat
    const pt: Point
    var prev: Node?
    var next: Node?
    var z: nat
    var steiner: bool
    var prevZ: Node?
    var nextZ: Node?

    constructor (i: nat, pt: Point)
      ensures this.i == i && this.pt == pt && z == 0 && !steiner
      ensures prev == null && next == null && prevZ == null && nextZ == null
    {
      this.i, this.pt := i, pt;
      z, steiner := 0, false;
      prev, next, prevZ, nextZ := null, null, null, null;
    }
  }

  ghost function NodeSet(s: seq<Node>): set<Node> {
    set n | n in s
  }

  /** The points of the nodes. */
  ghost function Spots(nodes: set<Node>): set<Point> {
    set n | n in nodes :: n.pt
  }

  ghost function Pts(s: seq<Node>): (r: seq<Point>)
    ensures |r| == |s|
    ensures forall k :: 0 <= k < |s| ==> r[k] == s[k].pt
  {
    seq(|s|, k requires 0 <= k < |s| => s[k].pt)
  }

  /** `next` and `prev` agree all along the listing s. */
  ghost predicate Chain(s: seq<Node>)
    reads s`next, s`prev
  {
    && (forall k :: 0 <= k < |s| - 1 ==> s[k].next == s[k + 1])
    && (forall k :: 0 < k < |s| ==> s[k].prev == s[k - 1])
  }

  /** s lists one whole ring in `next` order, and `prev` is the inverse of `next` on it. */
  ghost predicate Ring(s: seq<Node>)
    reads s`next, s`prev
  {
    && |s| > 0
    && Distinct(s)
    && s[0].prev == s[|s| - 1]
    && s[|s| - 1].next == s[0]
    && Chain(s)
  }

  lemma ChainAppend(s: seq<Node>, t: seq<Node>)
    requires Chain(s) && Chain(t)
    requires |s| > 0 && |t| > 0 ==> s[|s| - 1].next == t[0] && t[0].prev == s[|s| - 1]
    ensures Chain(s + t)
  {
  }

  /** The listing of the same ring that starts k nodes later. */
  ghost function Rot(s: seq<Node>, k: nat): (r: seq<Node>)
    requires k <= |s|
    ensures |r| == |s|
    ensures NodeSet(r) == NodeSet(s)
  {
    assert s == s[..k] + s[k..];
    s[k..] + s[..k]
  }

  lemma RotArea(s: seq<Node>, k: nat)
    requires k <= |s|
    ensures Area2(Pts(Rot(s, k))) == Area2(Pts(s))
  {
    assert Pts(s) == Pts(s[..k]) + Pts(s[k..]);
    assert Pts(Rot(s, k)) == Pts(s[k..]) + Pts(s[..k]);
    Area2Rotate(Pts(s[..k]), Pts(s[k..]));
  }

  lemma RingRot(s: seq<Node>, k: nat)
    requires Ring(s) && k < |s|
    ensures Ring(Rot(s, k)) && Rot(s, k)[0] == s[k]
  {
    var r := Rot(s, k);
    assert r == s[k..] + s[..k];
  }

  /** One step along `next`, seen as a rotation of the listing. */
  lemma RingNext(s: seq<Node>)
    requires Ring(s)
    ensures |s| == 1 ==> s[0].next == s[0] && s[0].prev == s[0]
    ensures |s| > 1 ==> s[0].next == s[1] && Ring(Rot(s, 1)) && Rot(s, 1)[0] == s[1]
    ensures Area2(Pts(Rot(s, 1))) == Area2(Pts(s))
    ensures s[0].prev == s[|s| - 1]
  {
    RotArea(s, 1);
    if |s| > 1 {
      RingRot(s, 1);
    } else {
      assert Rot(s, 1) == s;
    }
  }

  /** The z-order list is a doubly linked chain through zs, null at both ends. */
  ghost predicate ZLinks(zs: seq<Node>)
    reads zs`prevZ, zs`nextZ
  {
    && |zs| > 0
    && Distinct(zs)
    && zs[0].prevZ == null
    && zs[|zs| - 1].nextZ == null
    && (forall k :: 0 <= k < |zs| - 1 ==> zs[k].nextZ == zs[k + 1])
    && (forall k :: 0 < k < |zs| ==> zs[k].prevZ == zs[k - 1])
  }

  ghost predicate OnGrid(g: Grid, s: seq<Node>) {
    forall n :: n in s ==> InGrid(g, n.pt)
  }

  ghost function Key(g: Grid, n: Node): nat {
    if InGrid(g, n.pt) then ZCode(g, n.pt) else 0
  }

  ghost predicate ZSorted(g: Grid, zs: seq<Node>) {
    forall i, j :: 0 <= i < j < |zs| ==> Key(g, zs[i]) <= Key(g, zs[j])
  }

  /** zs holds exactly the nodes of s, sorted by their codes. */
  ghost predicate ZMatches(g: Grid, zs: seq<Node>, s: seq<Node>) {
    && NodeSet(zs) == NodeSet(s)
    && OnGrid(g, zs)
    && ZSorted(g, zs)
  }

  /** Every node of zs stores its own code. */
  ghost predicate ZStored(g: Grid, zs: seq<Node>)
    reads zs`z
  {
    forall n :: n in zs ==> n.z == Key(g, n)
  }

  /** The z-order list zs holds exactly the nodes of ring s, sorted by their codes. */
  ghost predicate ZListed(g: Grid, zs: seq<Node>, s: seq<Node>)
    reads zs`prevZ, zs`nextZ
  {
    && ZLinks(zs)
    && ZMatches(g, zs, s)
  }

  /** z-order pointers never leave the node pool. */
  ghost predicate ZClosed(pool: set<Node>)
    reads pool`prevZ, pool`nextZ
  {
    forall n {:trigger ZInside(n, pool)} :: n in pool ==> ZInside(n, pool)
  }

  /** Nodes outside the z-order may join the pool. */
  lemma ZClosedMore(pool: set<Node>, more: set<Node>)
    requires ZClosed(pool) && forall n :: n in more ==> n.prevZ == null && n.nextZ == null
    ensures ZClosed(pool + more)
  {
    forall n | n in pool + more
      ensures ZInside(n, pool + more)
    {
      assert n in pool ==> ZInside(n, pool);
    }
  }

  ghost predicate ZInside(n: Node, pool: set<Node>)
    reads n`prevZ, n`nextZ
  {
    (n.prevZ != null ==> n.prevZ in pool) && (n.nextZ != null ==> n.nextZ in pool)
  }

  ghost function Del<T>(s: seq<T>, k: nat): (r: seq<T>)
    requires k < |s|
    ensures |r| == |s| - 1
    ensures forall j :: 0 <= j < |r| ==> r[j] == if j < k then s[j] else s[j + 1]
  {
    s[..k] + s[k + 1..]
  }

  lemma DelNodes(zs: seq<Node>, m: nat)
    requires Distinct(zs) && m < |zs|
    ensures NodeSet(Del(zs, m)) == NodeSet(zs) - {zs[m]}
  {
    var r := Del(zs, m);
    forall k | 0 <= k < |zs| && k != m
      ensures zs[k] in r
    {
      assert zs[k] == r[if k < m then k else k - 1];
    }
  }

  lemma TailNodes(s: seq<Node>)
    requires Distinct(s) && |s| > 0
    ensures NodeSet(s[1..]) == NodeSet(s) - {s[0]}
  {
    forall k | 1 <= k < |s|
      ensures s[k] in s[1..]
    {
      assert s[k] == s[1..][k - 1];
    }
  }

  /** What is left of a ring when removeNode has unlinked its first node: the only node of a ring stays. */
  ghost function Without(s: seq<Node>): seq<Node>
    requires |s| > 0
  {
    if |s| == 1 then s else s[1..]
  }

  /** The ring half of removeNode: the ring closes behind its first node. */
  method UnlinkRing(p: Node, ghost s: seq<Node>)
    requires Ring(s) && s[0] == p
    modifies s`next, s`prev
    ensures Ring(Without(s))
    ensures p.next == old(p.next) && p.prev == old(p.prev)
    ensures p.prev == s[|s| - 1]
  {
    RingNext(s);
    assert p.next == if |s| > 1 then s[1] else s[0];
    p.next.prev := p.prev;
    p.prev.next := p.next;
  }

  /** The z-order half of removeNode: the chain closes behind p. */
  method UnlinkZ(p: Node, ghost zs: seq<Node>, ghost m: nat, ghost pool: set<Node>)
    requires p in pool && ZClosed(pool)
    modifies pool`prevZ, pool`nextZ
    ensures ZClosed(pool)
    ensures m < |zs| && |zs| > 1 && zs[m] == p && old(ZLinks(zs)) ==> ZLinks(Del(zs, m))
    ensures zs == [p] && old(ZLinks(zs)) ==> ZLinks(zs)
  {
    ghost var chained := m < |zs| && |zs| > 1 && zs[m] == p && ZLinks(zs);
    if chained {
      assert p.prevZ == if m > 0 then zs[m - 1] else null;
      assert p.nextZ == if m + 1 < |zs| then zs[m + 1] else null;
    }
    assert ZInside(p, pool);
    if p.prevZ != null {
      p.prevZ.nextZ := p.nextZ;
    }
    if p.nextZ != null {
      p.nextZ.prevZ := p.prevZ;
    }
    forall n | n in pool
      ensures ZInside(n, pool)
    {
      assert old(ZInside(n, pool));
    }
    if chained {
      ghost var r := Del(zs, m);
      forall k | 0 <= k < |r| - 1
        ensures r[k].nextZ == r[k + 1]
      {
        assert r[k] == zs[if k < m then k else k + 1];
      }
      forall k | 0 < k < |r|
        ensures r[k].prevZ == r[k - 1]
      {
        assert r[k] == zs[if k < m then k else k + 1];
      }
    }
  }

  lemma ZMatchesDel(g: Grid, zs: seq<Node>, s: seq<Node>, m: nat)
    requires ZMatches(g, zs, s) && Distinct(zs) && Distinct(s)
    requires |s| > 0 && m < |zs| && zs[m] == s[0]
    ensures ZMatches(g, Del(zs, m), s[1..])
  {
    DelNodes(zs, m);
    TailNodes(s);
    assert forall n :: n in Del(zs, m) ==> n in NodeSet(zs);
  }

  lemma ZPosition(g: Grid, zs: seq<Node>, s: seq<Node>) returns (m: nat)
    requires ZMatches(g, zs, s) && Distinct(zs) && Distinct(s) && |s| > 0
    ensures m < |zs| && zs[m] == s[0]
    ensures |s| == 1 ==> zs == s
    ensures |s| > 1 ==> |zs| > 1 && ZMatches(g, Del(zs, m), s[1..])
  {
    assert s[0] in NodeSet(s);
    assert forall k :: 0 <= k < |zs| ==> zs[k] in NodeSet(zs);
    m :| 0 <= m < |zs| && zs[m] == s[0];
    if |s| == 1 {
      assert forall k :: 0 <= k < |zs| ==> zs[k] == s[0];
      assert zs[0] == zs[m] == zs[|zs| - 1];
    } else {
      assert s[1] in NodeSet(s);
      ZMatchesDel(g, zs, s, m);
    }
  }

  /**
   * removeNode: p leaves the ring it is the first node of, and the z-order list if that list
   * was in step with the ring.
   */
  method RemoveNode(p: Node, ghost g: Grid, ghost s: seq<Node>, ghost zs: seq<Node>, ghost pool: set<Node>)
    returns (ghost zs': seq<Node>)
    requires Ring(s) && s[0] == p && NodeSet(s) <= pool && ZClosed(pool)
    modifies NodeSet(s)`next, NodeSet(s)`prev, pool`prevZ, pool`nextZ
    ensures Ring(Without(s)) && ZClosed(pool)
    ensures p.next == old(p.next) && p.prev == old(p.prev)
    ensures p.prev == s[|s| - 1]
    ensures old(ZListed(g, zs, s)) ==> ZListed(g, zs', Without(s))
  {
    ghost var listed := ZListed(g, zs, s);
    ghost var m: nat := 0;
    zs' := zs;
    if listed {
      m := ZPosition(g, zs, s);
      zs' := if |s| == 1 then zs else Del(zs, m);
    }
    assert p in NodeSet(s);
    UnlinkRing(p, s);
    UnlinkZ(p, zs, m, pool);
  }

  /** Cutting the first vertex off a ring listing removes the triangle at it. */
  lemma CutArea(s: seq<Node>)
    requires |s| > 1
    ensures Area2(Pts(s)) == Area2(Pts(s[1..])) + Tri2(s[|s| - 1].pt, s[0].pt, s[1].pt)
  {
    assert Pts(s) == [s[0].pt] + Pts(s[1..]);
    Area2CutFirst(s[0].pt, Pts(s[1..]));
  }

  /** Dropping a doubled or collinear first vertex keeps the area. */
  lemma FlatCut(s: seq<Node>)
    requires |s| > 0
    requires |s| > 1 ==> Flat(s[|s| - 1].pt, s[0].pt, s[1].pt)
    ensures Area2(Pts(Without(s))) == Area2(Pts(s))
  {
    if |s| > 1 {
      CutArea(s);
      TurnIsTri(s[|s| - 1].pt, s[0].pt, s[1].pt);
    }
  }

  lemma TailRotated(s: seq<Node>)
    requires Distinct(s) && |s| > 1
    ensures |Rot(s[1..], 1)| == |s| - 1 && NodeSet(Rot(s[1..], 1)) <= NodeSet(s)
    ensures Area2(Pts(s)) == Area2(Pts(Rot(s[1..], 1))) + Tri2(s[|s| - 1].pt, s[0].pt, s[1].pt)
  {
    CutArea(s);
    TailNodes(s);
    RotArea(s[1..], 1);
  }

  /** Takes p out of its ring and goes on two vertices later. */
  method CutCorner(p: Node, ghost g: Grid, ghost s: seq<Node>, ghost zs: seq<Node>, ghost pool: set<Node>)
    returns (q: Node, ghost s': seq<Node>, ghost zs': seq<Node>)
    requires Ring(s) && s[0] == p && |s| > 1 && NodeSet(s) <= pool && ZClosed(pool)
    modifies NodeSet(s)`next, NodeSet(s)`prev, pool`prevZ, pool`nextZ
    ensures Ring(s') && s'[0] == q && s' == Rot(s[1..], 1) && ZClosed(pool)
    ensures old(ZListed(g, zs, s)) ==> ZListed(g, zs', s')
  {
    RingNext(s);
    assert p in NodeSet(s);
    var next := p.next;
    zs' := RemoveNode(p, g, s, zs, pool);
    RingNext(s[1..]);
    q := next.next;
    s' := Rot(s[1..], 1);
  }

  /** Takes p and the node after it out of their ring. */
  method CutTwo(p: Node, n: Node, ghost g: Grid, ghost s: seq<Node>, ghost zs: seq<Node>, ghost pool: set<Node>)
    returns (ghost zs': seq<Node>)
    requires Ring(s) && |s| > 2 && s[0] == p && s[1] == n && NodeSet(s) <= pool && ZClosed(pool)
    modifies NodeSet(s)`next, NodeSet(s)`prev, pool`prevZ, pool`nextZ
    ensures Ring(s[2..]) && ZClosed(pool)
    ensures old(ZListed(g, zs, s)) ==> ZListed(g, zs', s[2..])
  {
    assert {p, n} <= NodeSet(s);
    zs' := RemoveNode(p, g, s, zs, pool);
    TailNodes(s);
    zs' := RemoveNode(n, g, s[1..], zs', pool);
    assert s[1..][1..] == s[2..];
  }

  /** The node before the first one of a listing comes first. */
  ghost function Back(s: seq<Node>): (r: seq<Node>)
    requires |s| > 0
    ensures |r| == |s| && NodeSet(r) == NodeSet(s)
  {
    Rot(s, |s| - 1)
  }

  lemma RingBack(s: seq<Node>)
    requires Ring(s)
    ensures Ring(Back(s)) && Back(s)[0] == s[|s| - 1]
    ensures Area2(Pts(Back(s))) == Area2(Pts(s))
  {
    RingRot(s, |s| - 1);
    RotArea(s, |s| - 1);
  }

  /** The two rings that a diagonal from s[0] to s[k] cuts ring s into. */
  ghost function NearSide(s: seq<Node>, k: nat): seq<Node>
    requires 0 < k < |s|
  {
    [s[0]] + s[k..]
  }

  ghost function FarSide(s: seq<Node>, k: nat, a2: Node, b2: Node): seq<Node>
    requires 0 < k < |s|
  {
    [b2, a2] + s[1..k]
  }

  /** The one ring that a doubled bridge between s[0] and t[0] makes of rings s and t. */
  ghost function Bridged(s: seq<Node>, t: seq<Node>, a2: Node, b2: Node): seq<Node>
    requires |s| > 0
  {
    [b2, a2] + s[1..] + [s[0]] + t
  }

  lemma DistinctAppend(s: seq<Node>, t: seq<Node>)
    requires Distinct(s) && Distinct(t) && NodeSet(s) !! NodeSet(t)
    ensures Distinct(s + t)
  {
    assert forall k :: 0 <= k < |s| ==> s[k] in NodeSet(s);
    assert forall k :: 0 <= k < |t| ==> t[k] in NodeSet(t);
  }

  lemma BridgeRing(s: seq<Node>, t: seq<Node>, a2: Node, b2: Node)
    requires |s| > 0 && |t| > 0 && Distinct(s) && Distinct(t) && NodeSet(s) !! NodeSet(t)
    requires a2 != b2 && {a2, b2} !! NodeSet(s) && {a2, b2} !! NodeSet(t)
    requires Chain(t) && Chain(s[1..])
    requires s[0].next == t[0] && t[0].prev == s[0]
    requires t[|t| - 1].next == b2 && b2.prev == t[|t| - 1]
    requires b2.next == a2 && a2.prev == b2
    requires if |s| == 1 then a2.next == s[0] && s[0].prev == a2
             else a2.next == s[1] && s[1].prev == a2 && s[|s| - 1].next == s[0] && s[0].prev == s[|s| - 1]
    ensures Ring(Bridged(s, t, a2, b2))
  {
    var near, far := [s[0]] + t, [b2, a2] + s[1..];
    ChainAppend([s[0]], t);
    ChainAppend([b2, a2], s[1..]);
    ChainAppend(far, near);
    assert Bridged(s, t, a2, b2) == far + near;
    assert NodeSet([s[0]]) == {s[0]} <= NodeSet(s);
    TailNodes(s);
    DistinctAppend([s[0]], t);
    assert NodeSet([b2, a2]) == {a2, b2};
    DistinctAppend([b2, a2], s[1..]);
    assert NodeSet(near) == {s[0]} + NodeSet(t);
    assert NodeSet(far) == {a2, b2} + NodeSet(s[1..]);
    DistinctAppend(far, near);
  }

  lemma SplitRing(s: seq<Node>, k: nat, a2: Node, b2: Node)
    requires 2 <= k < |s| && Distinct(s) && a2 != b2 && {a2, b2} !! NodeSet(s)
    requires Chain(s[k..]) && Chain(s[1..k])
    requires s[0].next == s[k] && s[k].prev == s[0]
    requires s[|s| - 1].next == s[0] && s[0].prev == s[|s| - 1]
    requires b2.next == a2 && a2.prev == b2
    requires a2.next == s[1] && s[1].prev == a2
    requires s[k - 1].next == b2 && b2.prev == s[k - 1]
    ensures Ring(NearSide(s, k)) && Ring(FarSide(s, k, a2, b2))
  {
    ChainAppend([s[0]], s[k..]);
    ChainAppend([b2, a2], s[1..k]);
    assert NodeSet([b2, a2]) == {a2, b2};
    assert NodeSet(s[1..k]) <= NodeSet(s);
    DistinctAppend([b2, a2], s[1..k]);
  }

  /** splitPolygon: doubles a and b and reconnects the four chains that meet there. */
  method SplitPolygon(a: Node, b: Node) returns (b2: Node, ghost a2: Node)
    requires a.next != null && b.prev != null && a.next != b && b.prev != a
    modifies a`next, b`prev, a.next`prev, b.prev`next
    ensures fresh(a2) && fresh(b2) && a2 != b2
    ensures a2.i == a.i && a2.pt == a.pt && b2.i == b.i && b2.pt == b.pt
    ensures a2.z == 0 && a2.prevZ == null && a2.nextZ == null && !a2.steiner
    ensures b2.z == 0 && b2.prevZ == null && b2.nextZ == null && !b2.steiner
    ensures a.next == b && b.prev == a
    ensures b2.next == a2 && a2.prev == b2
    ensures a2.next == old(a.next) && old(a.next).prev == a2
    ensures b2.prev == old(b.prev) && old(b.prev).next == b2
  {
    var a2' := new Node(a.i, a.pt);
    b2 := new Node(b.i, b.pt);
    a2 := a2';
    var an := a.next;
    var bp := b.prev;
    a.next := b;
    b.prev := a;
    a2'.next := an;
    an.prev := a2';
    b2.next := a2';
    a2'.prev := b2;
    bp.next := b2;
    b2.prev := bp;
  }

  /** splitPolygon inside one ring, between nodes that are not neighbours: two rings. */
  method SplitOneRing(a: Node, b: Node, ghost s: seq<Node>, ghost k: nat)
    returns (b2: Node, ghost a2: Node)
    requires Ring(s) && 2 <= k < |s| - 1 && s[0] == a && s[k] == b
    modifies s`next, s`prev
    ensures fresh(a2) && fresh(b2) && a2 != b2
    ensures a2.i == a.i && a2.pt == a.pt && b2.i == b.i && b2.pt == b.pt
    ensures a2.z == 0 && a2.prevZ == null && a2.nextZ == null && !a2.steiner
    ensures b2.z == 0 && b2.prevZ == null && b2.nextZ == null && !b2.steiner
    ensures Ring(NearSide(s, k)) && Ring(FarSide(s, k, a2, b2))
  {
    assert a.next == s[1] && b.prev == s[k - 1];
    b2, a2 := SplitPolygon(a, b);
    assert Chain(s[k..]);
    assert Chain(s[1..k]);
    SplitRing(s, k, a2, b2);
  }

  /** splitPolygon between two rings: one ring. */
  method BridgeTwoRings(a: Node, b: Node, ghost s: seq<Node>, ghost t: seq<Node>)
    returns (b2: Node, ghost a2: Node)
    requires Ring(s) && Ring(t) && s[0] == a && t[0] == b && NodeSet(s) !! NodeSet(t)
    modifies s`next, s`prev, t`next, t`prev
    ensures fresh(a2) && fresh(b2) && a2 != b2
    ensures a2.i == a.i && a2.pt == a.pt && b2.i == b.i && b2.pt == b.pt
    ensures a2.z == 0 && a2.prevZ == null && a2.nextZ == null && !a2.steiner
    ensures b2.z == 0 && b2.prevZ == null && b2.nextZ == null && !b2.steiner
    ensures Ring(Bridged(s, t, a2, b2))
  {
    RingNext(s);
    ghost var bp := b.prev;
    assert bp == t[|t| - 1] && a.next in NodeSet(s) && bp in NodeSet(t);
    assert a in NodeSet(s) && b in NodeSet(t);
    assert Chain(s[1..]);
    b2, a2 := SplitPolygon(a, b);
    assert Chain(t);
    assert Chain(s[1..]);
    BridgeRing(s, t, a2, b2);
  }

  lemma RingGrows(s: seq<Node>, p: Node)
    requires |s| > 0 && Distinct(s) && p !in s && Chain(s)
    requires p.next == s[0] && s[0].prev == p && p.prev == s[|s| - 1] && s[|s| - 1].next == p
    ensures Ring(s + [p])
  {
    ChainAppend(s, [p]);
  }

  /** insertNode: a new node after `last`, the last node of ring listing s, or a ring of its own. */
  method InsertNode(i: nat, pt: Point, last: Node?, ghost s: seq<Node>) returns (p: Node)
    requires if last == null then s == [] else Ring(s) && s[|s| - 1] == last
    modifies NodeSet(s)`next, NodeSet(s)`prev
    ensures fresh(p) && p.i == i && p.pt == pt && p.z == 0 && !p.steiner && p.prevZ == null && p.nextZ == null
    ensures Ring(s + [p])
  {
    p := new Node(i, pt);
    if last == null {
      p.prev := p;
      p.next := p;
    } else {
      assert s[0] in NodeSet(s) && last in NodeSet(s);
      p.next := last.next;
      p.prev := last;
      last.next.prev := p;
      last.next := p;
      RingGrows(s, p);
    }
  }

  lemma AppendNodes(out: seq<Node>, e: Node)
    ensures NodeSet(out + [e]) == NodeSet(out) + {e}
  {
  }

  lemma RingPointers(s: seq<Node>, n: Node)
    requires Ring(s) && n in NodeSet(s)
    ensures n.next != null && n.next in NodeSet(s) && n.prev != null && n.prev in NodeSet(s)
  {
    var k :| 0 <= k < |s| && s[k] == n;
    RingNext(s);
    assert k + 1 < |s| ==> s[k].next == s[k + 1] && s[k + 1] in NodeSet(s);
    assert k > 0 ==> s[k].prev == s[k - 1] && s[k - 1] in NodeSet(s);
    assert s[0] in NodeSet(s) && s[|s| - 1] in NodeSet(s);
  }

  lemma RingPlaceAt(s: seq<Node>, k: nat)
    requires Ring(s) && k < |s|
    ensures s[k].next == s[if k + 1 == |s| then 0 else k + 1]
    ensures s[k].prev == s[if k == 0 then |s| - 1 else k - 1]
  {
    RingNext(s);
  }

  lemma RingPlace(s: seq<Node>, n: Node) returns (k: nat)
    requires n in NodeSet(s)
    ensures k < |s| && s[k] == n
    ensures Ring(s) ==> n.next == s[if k + 1 == |s| then 0 else k + 1]
    ensures Ring(s) ==> n.prev == s[if k == 0 then |s| - 1 else k - 1]
  {
    k :| 0 <= k < |s| && s[k] == n;
  }
}
