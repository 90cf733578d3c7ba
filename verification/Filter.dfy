/** filterPoints on a ring, and what it leaves behind around a vertex that is watched. */
module Filter {
  import opened Distinctness
  import opened Plane
  import opened ZOrder
  import opened Seams
  import opened Rings

  /** A vertex that filterPoints drops: not a Steiner point, and doubled or collinear. */
  predicate Removable(p: Node)
    requires p.next != null && p.prev != null
    reads p`next, p`prev, p`steiner
  {
    !p.steiner && Flat(p.prev.pt, p.pt, p.next.pt)
  }

  /** A node that was dropped: it could be dropped again, and its right neighbour has another left one. */
  ghost predicate Gone(n: Node, all: set<Node>)
    reads n`next, n`prev, n`steiner, all`prev
  {
    && n.next != null && n.next in all && n.next.prev != n
    && n.prev != null && n.prev in all
    && Removable(n)
  }

  /**
   * The nodes of `all` that are no longer on ring s: each was removable when it went, still points
   * at its neighbours of that moment, and is pointed at by neither of them.
   */
  ghost predicate Residue(all: set<Node>, s: seq<Node>)
    reads all`next, all`prev, all`steiner
  {
    forall n {:trigger Gone(n, all)} :: n in all && n !in NodeSet(s) ==> Gone(n, all)
  }

  // --- The gap around a dropped vertex ---

  /**
   * The nodes dropped to the left and to the right of a dropped node, nearest first, each side up
   * to its first node that is still on the ring.
   */
  datatype Sides = Sides(left: seq<Node>, right: seq<Node>)

  /** Between the last nodes of both sides the ring is closed; the others point outwards along their side. */
  ghost predicate Parted(b: Node, d: Sides, s: seq<Node>)
    reads b`next, b`prev, s`next, s`prev, d.left`next, d.left`prev, d.right`next, d.right`prev
  {
    var m, n := |d.left| - 1, |d.right| - 1;
    && m >= 0 && n >= 0 && Distinct(d.left) && Distinct(d.right)
    && b !in s && b.prev == d.left[0] && b.next == d.right[0]
    && d.left[m] in s && d.right[n] in s && d.left[m].next == d.right[n] && d.right[n].prev == d.left[m]
    && (forall i :: 0 <= i < m ==> OnLeft(d, s, i))
    && (forall j :: 0 <= j < n ==> OnRight(d, s, j))
  }

  ghost predicate OnLeft(d: Sides, s: seq<Node>, i: nat)
    requires i + 1 < |d.left|
    reads d.left`next, d.left`prev
  {
    d.left[i] !in s && d.left[i] !in d.right && d.left[i].prev == d.left[i + 1] && d.left[i].next in d.right
  }

  ghost predicate OnRight(d: Sides, s: seq<Node>, j: nat)
    requires j + 1 < |d.right|
    reads d.right`next, d.right`prev
  {
    d.right[j] !in s && d.right[j] !in d.left && d.right[j].next == d.right[j + 1] && d.right[j].prev in d.left
  }

  /** The watched node, if any, is still on the ring, or the gap around it is known. */
  ghost predicate Watched(b: Node?, d: Sides, s: seq<Node>)
    reads b, s`next, s`prev, d.left`next, d.left`prev, d.right`next, d.right`prev
  {
    b == null || b in s || Parted(b, d, s)
  }

  /** The sides after the first node of s has been dropped. */
  ghost function Widened(b: Node?, d: Sides, s: seq<Node>): Sides
    requires |s| > 0
  {
    var l, p, r := s[|s| - 1], s[0], s[if |s| == 1 then 0 else 1];
    if b == null || |s| == 1 then d
    else if p == b then Sides([l], [r])
    else if b in s then d
    else if d.left != [] && p == d.left[|d.left| - 1] then Sides(d.left + [l], d.right)
    else if d.right != [] && p == d.right[|d.right| - 1] then Sides(d.left, d.right + [r])
    else d
  }

  /** Dropping p, the first node of ring s, adds p, and only p, to the residue. */
  method DropTracked(p: Node, ghost g: Grid, ghost s: seq<Node>, ghost zs: seq<Node>, ghost pool: set<Node>,
                     ghost all: set<Node>)
    returns (ghost zs': seq<Node>)
    requires Ring(s) && s[0] == p && p.next != null && p.prev != null && Removable(p)
    requires NodeSet(s) <= pool && ZClosed(pool)
    requires Residue(all, s) && (NodeSet(s) <= all || all == {})
    modifies NodeSet(s)`next, NodeSet(s)`prev, pool`prevZ, pool`nextZ
    ensures Ring(Without(s)) && ZClosed(pool)
    ensures p.next == old(p.next) && p.prev == old(p.prev)
    ensures old(ZListed(g, zs, s)) ==> ZListed(g, zs', Without(s))
    ensures Residue(all, Without(s))
  {
    RingNext(s);
    assert s[0] in NodeSet(s) && s[|s| - 1] in NodeSet(s);
    ghost var w := Without(s);
    assert NodeSet(w) <= NodeSet(s) <= NodeSet(w) + {p} by { if w != s { TailNodes(s); } }
    zs' := RemoveNode(p, g, s, zs, pool);
    forall n | n in all && n !in NodeSet(w)
      ensures Gone(n, all)
    {
      assert n !in NodeSet(s) ==> old(Gone(n, all));
      if n.next in NodeSet(w) {
        RingPointers(w, n.next);
      }
    }
  }

  /** The ring that starts at the node before p when p, the first node of s, is gone. */
  ghost function Closed(s: seq<Node>): (r: seq<Node>)
    requires |s| > 0
    ensures |r| == if |s| == 1 then 1 else |s| - 1
  {
    Back(Without(s))
  }

  lemma ClosedFacts(s: seq<Node>)
    requires Distinct(s) && |s| > 0
    ensures NodeSet(Closed(s)) <= NodeSet(s) && Closed(s)[0] == s[|s| - 1]
    ensures |s| > 1 ==> NodeSet(Closed(s)) == NodeSet(s) - {s[0]}
    ensures |s| == 1 ==> Closed(s) == s
    ensures forall k :: 0 < k < |s| - 1 ==> Closed(s)[k] == s[k]
  {
    if |s| > 1 {
      TailNodes(s);
    }
  }

  /** The removal branch of filterPoints: p goes, the node before it comes first. */
  method DropVertex(p: Node, ghost g: Grid, ghost s: seq<Node>, ghost zs: seq<Node>, ghost pool: set<Node>,
                    ghost all: set<Node>)
    returns (q: Node, ghost zs': seq<Node>)
    requires Ring(s) && s[0] == p && p.next != null && p.prev != null && Removable(p)
    requires NodeSet(s) <= pool && ZClosed(pool)
    requires Residue(all, s) && (NodeSet(s) <= all || all == {})
    modifies NodeSet(s)`next, NodeSet(s)`prev, pool`prevZ, pool`nextZ
    ensures q == p.prev && Ring(Closed(s)) && Closed(s)[0] == q && ZClosed(pool)
    ensures p.next == old(p.next) && p.prev == old(p.prev)
    ensures Area2(Pts(Closed(s))) == Area2(Pts(s))
    ensures old(ZListed(g, zs, s)) ==> ZListed(g, zs', Closed(s))
    ensures Residue(all, Closed(s))
  {
    RingNext(s);
    FlatCut(s);
    zs' := DropTracked(p, g, s, zs, pool, all);
    q := p.prev;
    RingBack(Without(s));
  }

  /** What a ring says about the nodes around its first one. */
  lemma AroundFirst(s: seq<Node>)
    requires Ring(s)
    ensures s[0].prev == s[|s| - 1] && s[0].next == s[if |s| == 1 then 0 else 1]
  {
    RingNext(s);
  }

  /** After p, the first node of s, is gone, its old neighbours are neighbours. */
  lemma AcrossGap(s: seq<Node>)
    requires Distinct(s) && |s| > 1 && Ring(Closed(s))
    ensures s[|s| - 1].next == s[1] && s[1].prev == s[|s| - 1]
  {
    ClosedFacts(s);
    RingNext(Closed(s));
    if |s| > 2 {
      assert Closed(s)[1] == s[1];
    }
  }

  /** Neighbours on the ring other than p are still neighbours when p is gone. */
  lemma StillNeighbours(s: seq<Node>, k: nat)
    requires Distinct(s) && 0 < k < |s| - 1 && Ring(Closed(s))
    ensures s[k].next == s[k + 1] && s[k + 1].prev == s[k]
  {
    ClosedFacts(s);
    var r := Closed(s);
    assert r[k] == s[k];
    assert if k + 1 < |r| then r[k + 1] == s[k + 1] else r[0] == s[k + 1];
  }

  /** The nodes that were dropped before, on both sides, point where they did. */
  ghost predicate Outward(b: Node, d: Sides, s: seq<Node>)
    reads b`next, b`prev, d.left`next, d.left`prev, d.right`next, d.right`prev
  {
    var m, n := |d.left| - 1, |d.right| - 1;
    && m >= 0 && n >= 0 && Distinct(d.left) && Distinct(d.right)
    && b !in s && b.prev == d.left[0] && b.next == d.right[0] && d.left[m] in s && d.right[n] in s
    && (forall i :: 0 <= i < m ==> OnLeft(d, s, i))
    && (forall j :: 0 <= j < n ==> OnRight(d, s, j))
  }

  lemma OffRing(b: Node, d: Sides, s: seq<Node>)
    requires Outward(b, d, s)
    ensures forall i :: 0 <= i < |d.left| - 1 ==> d.left[i] !in s && d.left[i] !in d.right
    ensures forall j :: 0 <= j < |d.right| - 1 ==> d.right[j] !in s && d.right[j] !in d.left
  {
    forall i | 0 <= i < |d.left| - 1
      ensures d.left[i] !in s && d.left[i] !in d.right
    {
      assert OnLeft(d, s, i);
    }
    forall j | 0 <= j < |d.right| - 1
      ensures d.right[j] !in s && d.right[j] !in d.left
    {
      assert OnRight(d, s, j);
    }
  }

  /** The last node on the left goes. */
  lemma WidenLeft(b: Node, d: Sides, s: seq<Node>)
    requires Outward(b, d, s) && Distinct(s) && |s| > 1 && Ring(Closed(s))
    requires s[0] == d.left[|d.left| - 1] && s[0].prev == s[|s| - 1] && s[0].next == s[1] == d.right[|d.right| - 1]
    ensures Parted(b, Sides(d.left + [s[|s| - 1]], d.right), Closed(s))
  {
    var e, c, m := Sides(d.left + [s[|s| - 1]], d.right), Closed(s), |d.left| - 1;
    ClosedFacts(s);
    AcrossGap(s);
    SmallerRing(s);
    OffRing(b, d, s);
    assert s[0] !in d.right;
    forall i | 0 <= i < |e.left| - 1
      ensures OnLeft(e, c, i)
    {
      assert i < m ==> OnLeft(d, s, i);
      assert e.left[i] == d.left[i] && e.left[i + 1] == if i < m then d.left[i + 1] else s[|s| - 1];
    }
    forall j | 0 <= j < |e.right| - 1
      ensures OnRight(e, c, j)
    {
      assert OnRight(d, s, j);
    }
  }

  /** The last node on the right goes. */
  lemma WidenRight(b: Node, d: Sides, s: seq<Node>)
    requires Outward(b, d, s) && Distinct(s) && |s| > 1 && Ring(Closed(s))
    requires s[0] == d.right[|d.right| - 1] && s[0].next == s[1] && s[0].prev == s[|s| - 1] == d.left[|d.left| - 1]
    ensures Parted(b, Sides(d.left, d.right + [s[1]]), Closed(s))
  {
    var e, c, n := Sides(d.left, d.right + [s[1]]), Closed(s), |d.right| - 1;
    ClosedFacts(s);
    AcrossGap(s);
    SmallerRing(s);
    OffRing(b, d, s);
    assert s[0] !in d.left;
    forall i | 0 <= i < |e.left| - 1
      ensures OnLeft(e, c, i)
    {
      assert OnLeft(d, s, i);
    }
    forall j | 0 <= j < |e.right| - 1
      ensures OnRight(e, c, j)
    {
      assert j < n ==> OnRight(d, s, j);
      assert e.right[j] == d.right[j] && e.right[j + 1] == if j < n then d.right[j + 1] else s[1];
    }
  }

  /** Another node goes. */
  lemma WidenElsewhere(b: Node, d: Sides, s: seq<Node>, k: nat)
    requires Outward(b, d, s) && Distinct(s) && Ring(Closed(s)) && 0 < k < |s| - 1
    requires s[k] == d.left[|d.left| - 1] && s[k + 1] == d.right[|d.right| - 1]
    ensures Parted(b, d, Closed(s))
  {
    var c := Closed(s);
    ClosedFacts(s);
    StillNeighbours(s, k);
    SmallerRing(s);
    forall i | 0 <= i < |d.left| - 1
      ensures OnLeft(d, c, i)
    {
      assert OnLeft(d, s, i);
    }
    forall j | 0 <= j < |d.right| - 1
      ensures OnRight(d, c, j)
    {
      assert OnRight(d, s, j);
    }
  }

  lemma SmallerRing(s: seq<Node>)
    requires Distinct(s) && |s| > 1
    ensures forall n :: n in Closed(s) <==> n in s && n != s[0]
  {
    ClosedFacts(s);
    assert forall n :: n in Closed(s) <==> n in NodeSet(Closed(s));
    assert forall n :: n in s <==> n in NodeSet(s);
  }

  /** Where the gap is, seen from ring s: between two nodes, of which p, the first of s, may be one. */
  lemma GapPlace(b: Node, d: Sides, s: seq<Node>) returns (k: nat)
    requires Parted(b, d, s) && Ring(s)
    ensures k < |s| && d.left[|d.left| - 1] == s[k]
    ensures d.right[|d.right| - 1] == s[if k + 1 == |s| then 0 else k + 1]
  {
    assert d.left[|d.left| - 1] in NodeSet(s);
    k := RingPlace(s, d.left[|d.left| - 1]);
  }

  /** No node on either side before the last one is on the ring. */
  lemma Apart(b: Node, d: Sides, s: seq<Node>)
    requires Parted(b, d, s)
    ensures Aside(b, d, s)
  {
    OffRing(b, d, s);
    assert forall n :: n in NodeSet(s) ==> n in s;
  }

  /** The watched node and the nodes dropped around it are not on the ring. */
  ghost predicate Aside(b: Node, d: Sides, s: seq<Node>)
    reads b`next, b`prev, d.left`next, d.left`prev, d.right`next, d.right`prev
  {
    && Outward(b, d, s) && b !in NodeSet(s)
    && (forall i :: 0 <= i < |d.left| - 1 ==> d.left[i] !in NodeSet(s))
    && (forall j :: 0 <= j < |d.right| - 1 ==> d.right[j] !in NodeSet(s))
  }

  /** Dropping a vertex of the ring does not touch the nodes dropped before. */
  method DropBeside(p: Node, ghost g: Grid, ghost s: seq<Node>, ghost zs: seq<Node>, ghost pool: set<Node>,
                    ghost all: set<Node>, ghost b: Node?, ghost d: Sides)
    returns (q: Node, ghost zs': seq<Node>)
    requires Ring(s) && s[0] == p && p.next != null && p.prev != null && Removable(p)
    requires NodeSet(s) <= pool && ZClosed(pool)
    requires Residue(all, s) && (NodeSet(s) <= all || all == {})
    requires b != null && b !in s ==> Aside(b, d, s)
    modifies NodeSet(s)`next, NodeSet(s)`prev, pool`prevZ, pool`nextZ
    ensures q == p.prev && Ring(Closed(s)) && Closed(s)[0] == q && ZClosed(pool)
    ensures p.next == old(p.next) && p.prev == old(p.prev)
    ensures Area2(Pts(Closed(s))) == Area2(Pts(s))
    ensures old(ZListed(g, zs, s)) ==> ZListed(g, zs', Closed(s))
    ensures Residue(all, Closed(s))
    ensures b != null && b !in s ==> Outward(b, d, s)
  {
    q, zs' := DropVertex(p, g, s, zs, pool, all);
    if b != null && b !in s {
      forall i | 0 <= i < |d.left| - 1
        ensures OnLeft(d, s, i)
      {
        assert old(OnLeft(d, s, i));
      }
      forall j | 0 <= j < |d.right| - 1
        ensures OnRight(d, s, j)
      {
        assert old(OnRight(d, s, j));
      }
    }
  }

  /** Dropping a vertex keeps track of the gap around the watched one. */
  method DropWatched(p: Node, ghost g: Grid, ghost s: seq<Node>, ghost zs: seq<Node>, ghost pool: set<Node>,
                     ghost all: set<Node>, ghost b: Node?, ghost d: Sides)
    returns (q: Node, ghost zs': seq<Node>)
    requires Ring(s) && s[0] == p && p.next != null && p.prev != null && Removable(p)
    requires NodeSet(s) <= pool && ZClosed(pool)
    requires Residue(all, s) && (NodeSet(s) <= all || all == {})
    requires Watched(b, d, s)
    modifies NodeSet(s)`next, NodeSet(s)`prev, pool`prevZ, pool`nextZ
    ensures q == p.prev && Ring(Closed(s)) && Closed(s)[0] == q && ZClosed(pool)
    ensures Area2(Pts(Closed(s))) == Area2(Pts(s))
    ensures old(ZListed(g, zs, s)) ==> ZListed(g, zs', Closed(s))
    ensures Residue(all, Closed(s)) && Watched(b, Widened(b, d, s), Closed(s))
  {
    AroundFirst(s);
    ghost var k: nat := 0;
    if b != null && b !in s {
      k := GapPlace(b, d, s);
      Apart(b, d, s);
    }
    q, zs' := DropBeside(p, g, s, zs, pool, all, b, d);
    if b != null {
      WatchOn(b, d, s, k);
    }
  }

  lemma WatchOn(b: Node, d: Sides, s: seq<Node>, k: nat)
    requires Distinct(s) && |s| > 0 && Ring(Closed(s)) && k < |s|
    requires s[0].prev == s[|s| - 1] && s[0].next == s[if |s| == 1 then 0 else 1]
    requires b !in s ==> Outward(b, d, s)
    requires b !in s ==> d.left[|d.left| - 1] == s[k] && d.right[|d.right| - 1] == s[if k + 1 == |s| then 0 else k + 1]
    ensures Watched(b, Widened(b, d, s), Closed(s))
  {
    ClosedFacts(s);
    if b !in s {
      WidenParted(b, d, s, k);
    } else if |s| > 1 {
      OpenGap(b, s, d);
    }
  }

  /** The watched node itself may have been dropped just now. */
  lemma OpenGap(b: Node, s: seq<Node>, d: Sides)
    requires Distinct(s) && |s| > 1 && Ring(Closed(s)) && b in s
    requires s[0].prev == s[|s| - 1] && s[0].next == s[1]
    ensures Watched(b, Widened(b, d, s), Closed(s))
  {
    SmallerRing(s);
    AcrossGap(s);
  }

  lemma WidenParted(b: Node, d: Sides, s: seq<Node>, k: nat)
    requires Outward(b, d, s) && Distinct(s) && |s| > 0 && Ring(Closed(s)) && k < |s|
    requires s[0].prev == s[|s| - 1] && s[0].next == s[if |s| == 1 then 0 else 1]
    requires d.left[|d.left| - 1] == s[k] && d.right[|d.right| - 1] == s[if k + 1 == |s| then 0 else k + 1]
    ensures Watched(b, Widened(b, d, s), Closed(s))
  {
    if |s| > 1 {
      if k == 0 {
        WidenLeft(b, d, s);
      } else if k + 1 == |s| {
        WidenRight(b, d, s);
      } else {
        WidenElsewhere(b, d, s, k);
      }
    } else {
      ClosedFacts(s);
    }
  }

  // --- filterPoints ---

  /** A step along `next` keeps track of where node s[e] is listed. */
  lemma RingWalk(s: seq<Node>, e: nat) returns (e': nat)
    requires Ring(s) && e < |s|
    ensures s[0].next == Rot(s, 1)[0] && Ring(Rot(s, 1))
    ensures Area2(Pts(Rot(s, 1))) == Area2(Pts(s))
    ensures e' == (if e == 0 then |s| - 1 else e - 1) && Rot(s, 1)[e'] == s[e]
  {
    RingNext(s);
    e' := if e == 0 then |s| - 1 else e - 1;
    if |s| == 1 {
      assert Rot(s, 1) == s;
    }
  }

  /** No vertex of the ring from place e on is one that filterPoints drops. */
  ghost predicate KeepsFrom(s: seq<Node>, e: nat)
    reads s`next, s`prev, s`steiner
  {
    forall k :: e <= k < |s| ==> Keeps(s[k])
  }

  predicate Keeps(p: Node)
    reads p`next, p`prev, p`steiner
  {
    p.next != null && p.prev != null && !Removable(p)
  }

  lemma KeepsStep(s: seq<Node>, e: nat)
    requires |s| > 0 && Keeps(s[0]) && 0 < e <= |s| && KeepsFrom(s, e)
    ensures KeepsFrom(Rot(s, 1), e - 1)
  {
  }

  /**
   * The loop of filterPoints at the first vertex of s: a sweep that started over at `stop` has
   * found nothing to drop so far.
   */
  ghost predicate Filtering(p: Node, stop: Node, again: bool, swept: bool, s: seq<Node>, e: nat)
    reads s`next, s`prev, s`steiner
  {
    && Ring(s) && p == s[0] && e < |s| && s[e] == stop
    && (swept ==> |s| == 1 || if again then e == 0 else KeepsFrom(s, e))
  }

  /** The walk goes on past a vertex that stays. */
  lemma PassOn(p: Node, stop: Node, again: bool, swept: bool, s: seq<Node>, e: nat) returns (e': nat)
    requires Filtering(p, stop, again, swept, s, e) && (again || p != stop) && Keeps(p)
    ensures Filtering(p.next, stop, false, swept, Rot(s, 1), e') && Area2(Pts(Rot(s, 1))) == Area2(Pts(s))
    ensures e' == (if e == 0 then |s| - 1 else e - 1)
  {
    if swept {
      KeepsStep(s, if e == 0 then |s| else e);
    }
    e' := RingWalk(s, e);
  }

  /** One turn of the loop of filterPoints: p is dropped, or the walk goes on. */
  method FilterStep(p: Node, stop: Node, again: bool, ghost swept: bool, ghost g: Grid, ghost s: seq<Node>,
                    ghost zs: seq<Node>, ghost e: nat, ghost pool: set<Node>, ghost all: set<Node>, ghost b: Node?,
                    ghost d: Sides)
    returns (p': Node, stop': Node, again': bool, ghost swept': bool, ghost s': seq<Node>, ghost zs': seq<Node>,
             ghost e': nat, ghost d': Sides)
    requires Filtering(p, stop, again, swept, s, e) && (again || p != stop)
    requires NodeSet(s) <= pool && ZClosed(pool)
    requires Residue(all, s) && (NodeSet(s) <= all || all == {}) && Watched(b, d, s)
    modifies NodeSet(s)`next, NodeSet(s)`prev, pool`prevZ, pool`nextZ
    ensures Filtering(p', stop', again', swept', s', e') && ZClosed(pool) && Residue(all, s') && Watched(b, d', s')
    ensures NodeSet(s') <= NodeSet(s) && |s'| <= |s| && Area2(Pts(s')) == Area2(Pts(s))
    ensures old(ZListed(g, zs, s)) ==> ZListed(g, zs', s')
    ensures again' ==> 1 < |s'| < |s|
    ensures |s'| == |s| && !again' ==> |s'| == 1 || e' == if e == 0 then |s| - 1 else e - 1
    ensures |s'| == 1 ==> e' == 0
    ensures !swept' ==> !swept && !again' && NodeSet(s') == NodeSet(s) && old(Keeps(p))
    ensures old(Keeps(p)) ==> s' == Rot(s, 1) && !again' && stop' == stop && swept' == swept
  {
    RingNext(s);
    if Removable(p) {
      ClosedFacts(s);
      p', zs' := DropWatched(p, g, s, zs, pool, all, b, d);
      s', d' := Closed(s), Widened(b, d, s);
      stop', e', swept' := p', 0, true;
      RingNext(s');
      again' := p' != p'.next;
    } else {
      e' := PassOn(p, stop, again, swept, s, e);
      p', stop', again', s', zs', swept', d' := p.next, stop, false, Rot(s, 1), zs, swept, d;
      WatchRotated(b, d, s);
    }
  }

  lemma WatchRotated(b: Node?, d: Sides, s: seq<Node>)
    requires |s| > 0 && Watched(b, d, s)
    ensures Watched(b, d, Rot(s, 1))
  {
    SameMembers(s);
    if b != null && b !in s {
      forall i | 0 <= i < |d.left| - 1
        ensures OnLeft(d, Rot(s, 1), i)
      {
        assert OnLeft(d, s, i);
      }
      forall j | 0 <= j < |d.right| - 1
        ensures OnRight(d, Rot(s, 1), j)
      {
        assert OnRight(d, s, j);
      }
    }
  }

  lemma SameMembers(s: seq<Node>)
    requires |s| > 0
    ensures forall n :: n in Rot(s, 1) <==> n in s
  {
    assert forall n :: n in Rot(s, 1) <==> n in NodeSet(Rot(s, 1));
    assert forall n :: n in s <==> n in NodeSet(s);
  }

  /** The walk is to end at the second vertex, and the first one stays. */
  ghost predicate Quiet(s: seq<Node>, end: Node, stays: bool) {
    |s| > 1 && end == s[1] && stays
  }

  /**
   * filterPoints: walks from `start` to `end` dropping doubled and collinear vertices; after
   * each drop it starts over from the vertex before. Unless one vertex is left, or `end` was
   * reached without any drop, no vertex that could be dropped remains.
   */
  method FilterPoints(start: Node, end: Node, ghost g: Grid, ghost s: seq<Node>, ghost zs: seq<Node>,
                      ghost pool: set<Node>, ghost all: set<Node>, ghost b: Node?)
    returns (r: Node, ghost s': seq<Node>, ghost zs': seq<Node>, ghost d: Sides)
    requires Ring(s) && s[0] == start && NodeSet(s) <= pool && ZClosed(pool) && end in s
    requires Residue(all, s) && (NodeSet(s) <= all || all == {}) && (b == null || b in s)
    modifies NodeSet(s)`next, NodeSet(s)`prev, pool`prevZ, pool`nextZ
    ensures Ring(s') && s'[0] == r && ZClosed(pool)
    ensures NodeSet(s') <= NodeSet(s) && |s'| <= |s|
    ensures Area2(Pts(s')) == Area2(Pts(s))
    ensures old(ZListed(g, zs, s)) ==> ZListed(g, zs', s')
    ensures Residue(all, s') && Watched(b, d, s')
    ensures |s'| == 1 || KeepsFrom(s', 0) || (start != end && old(Keeps(start)) && NodeSet(s') == NodeSet(s))
    ensures Quiet(s, end, old(Keeps(start))) ==> NodeSet(s') == NodeSet(s)
  {
    s', zs', d := s, zs, Sides([], []);
    ghost var e: nat :| e < |s| && s[e] == end;
    ghost var swept := start == end;
    var p, stop, again := start, end, true;
    while again || p != stop
      invariant Filtering(p, stop, again, swept, s', e)
      invariant ZClosed(pool) && Residue(all, s') && Watched(b, d, s')
      invariant NodeSet(s') <= NodeSet(s) && |s'| <= |s| && Area2(Pts(s')) == Area2(Pts(s))
      invariant old(ZListed(g, zs, s)) ==> ZListed(g, zs', s')
      invariant !swept ==> NodeSet(s') == NodeSet(s) && start != end
      invariant !swept ==> if again then p == start && Keeps(start) == old(Keeps(start)) else old(Keeps(start))
      invariant Quiet(s, end, old(Keeps(start))) ==> !swept && if again then s' == s && stop == end else p == stop
      decreases |s'|, if again then |s'| else e
    {
      p, stop, again, swept, s', zs', e, d := FilterStep(p, stop, again, swept, g, s', zs', e, pool, all, b, d);
    }
    r := stop;
  }
}
