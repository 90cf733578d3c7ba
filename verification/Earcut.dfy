/** The ear-clipping triangulator. */
module Earcut {
  import opened Distinctness
  import opened Plane
  import opened Seams
  import opened ZOrder
  import opened EarGeometry
  import opened Rings
  import opened Filter
  import R = Resume
  import opened RingBuilder
  import opened HoleBridge
  import opened Holes
  import opened ZSort
  import opened EarTest
  import opened Diagonals
  import opened Ledger

  /** Triangles that a ring of n vertices can still give. */
  ghost function Room(n: nat): nat {
    if n <= 2 then 0 else n - 2
  }

  /** What linkedList makes of the doubled areas of the given holes. */
  ghost function HolePoints(rings: seq<seq<Point>>): real {
    if rings == [] then 0.0 else HolePoints(rings[..|rings| - 1]) - Abs(Area2(rings[|rings| - 1]))
  }

  /** How many vertices the given holes can add: their own and two for each bridge. */
  ghost function HoleVertices(rings: seq<seq<Point>>): nat {
    if rings == [] then 0 else HoleVertices(rings[..|rings| - 1]) + |rings[|rings| - 1]| + 2
  }

  /** All vertices in order. */
  ghost function Flatten(rings: seq<seq<Point>>): seq<Point> {
    if rings == [] then [] else Flatten(rings[..|rings| - 1]) + rings[|rings| - 1]
  }

  /** No two of the points are equal, and no three lie on one line. */
  ghost predicate General(points: seq<Point>) {
    forall i, j, k :: 0 <= i < |points| && 0 <= j < |points| && 0 <= k < |points| && i != j && j != k && i != k ==>
      !Flat(points[i], points[j], points[k])
  }

  /** The vertices are in general position, and every hole has three of them or none. */
  ghost predicate Spacious(polygon: seq<seq<Point>>) {
    General(Flatten(polygon)) && forall k :: 0 < k < |polygon| ==> polygon[k] == [] || |polygon[k]| >= 3
  }

  /** No point of s is at the first vertex of the hole, or in line with it and the one before it. */
  ghost predicate Misses(s: seq<Node>, h: seq<Node>) {
    h != [] ==> forall p :: p in Spots(NodeSet(s)) ==> !Flat(h[|h| - 1].pt, h[0].pt, p)
  }

  /** No hole can strand the ring, in whatever order they are joined. */
  ghost predicate Clearing(s: seq<Node>, hs: seq<seq<Node>>) {
    && (forall h :: h in hs ==> Misses(s, h))
    && (forall g, h :: g in hs && h in hs && g != h ==> Misses(g, h))
  }

  /** A ring stranded among these points. */
  ghost predicate LostAt(x: R.Stranding, points: seq<Point>) {
    R.Stranded(x) && forall p :: p in x.c.pt ==> p in points
  }

  class Earcut {
    var indices: seq<nat>
    var vertices: nat
    var hashing: bool
    var grid: Grid

    // The nodes constructed so far, and the account of what happens to the input's area.
    ghost var pool: set<Node>
    ghost var pts: seq<Point>
    ghost var stuck: seq<seq<Vertex>>
    ghost var unbridged: seq<seq<Vertex>>
    ghost var cuts: seq<Cut>

    /** Every node stands for an input vertex. */
    ghost predicate Faithful()
      reads this`pool, this`pts
    {
      forall n :: n in pool ==> n.i < |pts| && n.pt == pts[n.i]
    }

    ghost function Book(): Account
      reads this
    {
      Account(pts, indices, stuck, unbridged, cuts)
    }

    /** Nodes stand for input vertices and the account is in order. */
    ghost predicate Sound()
      reads this
    {
      |pts| == vertices && Faithful() && InOrder(Book())
    }

    ghost predicate Valid()
      reads this, pool`prevZ, pool`nextZ
    {
      Sound() && ZClosed(pool)
    }

    /** A stored code is the node's own code; without hashing nothing is stored. */
    ghost predicate Cached()
      reads this`hashing, this`grid, this`pool, pool`z
    {
      (hashing ==> grid.invSize >= 0.0) && forall n {:trigger Coded(n)} :: n in pool ==> Coded(n)
    }

    ghost predicate Coded(n: Node)
      reads this`hashing, this`grid, n`z
    {
      n.z == 0 || (hashing && n.z == Key(grid, n))
    }

    ghost function Balance(): real
      reads this
    {
      Total(Book())
    }

    method Emit(a: Node, b: Node, c: Node)
      requires Sound() && a in pool && b in pool && c in pool
      requires Tri2(a.pt, b.pt, c.pt) > 0.0 || cuts != []
      modifies this`indices
      ensures Sound()
      ensures indices == old(indices) + [a.i, b.i, c.i]
      ensures Balance() == old(Balance()) + Tri2(a.pt, b.pt, c.pt)
    {
      EmitKeepsOrder(Book(), a.i, b.i, c.i);
      indices := indices + [a.i, b.i, c.i];
    }

    /** Emits the triangle at the first node of ring s. */
    method EmitEar(a: Node, b: Node, c: Node, ghost s: seq<Node>, ghost zs: seq<Node>)
      requires Valid() && Ring(s) && |s| >= 3 && NodeSet(s) <= pool
      requires a == s[|s| - 1] && b == s[0] && c == s[1] && Turn(a.pt, b.pt, c.pt) < 0.0
      modifies this`indices
      ensures Valid() && Ring(s) && (old(ZListed(grid, zs, s)) ==> ZListed(grid, zs, s))
      ensures indices == old(indices) + [a.i, b.i, c.i]
      ensures Balance() == old(Balance()) + Tri2(a.pt, b.pt, c.pt)
    {
      assert a in NodeSet(s) && b in NodeSet(s) && c in NodeSet(s);
      TurnIsTri(a.pt, b.pt, c.pt);
      Emit(a, b, c);
    }

    /** Removes the first node of ring s; the account does not notice. */
    method Clip(ear: Node, ghost s: seq<Node>, ghost zs: seq<Node>)
      returns (ear': Node, ghost s': seq<Node>, ghost zs': seq<Node>)
      requires Valid() && Ring(s) && s[0] == ear && |s| > 1 && NodeSet(s) <= pool
      modifies NodeSet(s)`next, NodeSet(s)`prev, pool`prevZ, pool`nextZ
      ensures Valid() && Balance() == old(Balance())
      ensures Ring(s') && s'[0] == ear' && s' == Rot(s[1..], 1)
      ensures old(ZListed(grid, zs, s)) ==> ZListed(grid, zs', s')
    {
      ear', s', zs' := CutCorner(ear, grid, s, zs, pool);
    }

    /** The clipping branch of earcutLinked. */
    method ClipEar(ear: Node, ghost s: seq<Node>, ghost zs: seq<Node>)
      returns (ear': Node, ghost s': seq<Node>, ghost zs': seq<Node>)
      requires Valid() && Ring(s) && s[0] == ear && |s| >= 3 && NodeSet(s) <= pool
      requires Turn(s[|s| - 1].pt, s[0].pt, s[1].pt) < 0.0
      modifies this`indices, NodeSet(s)`next, NodeSet(s)`prev, pool`prevZ, pool`nextZ
      ensures Valid()
      ensures Ring(s') && s'[0] == ear' && |s'| == |s| - 1 && NodeSet(s') <= NodeSet(s)
      ensures Balance() + Area2(Pts(s')) == old(Balance()) + Area2(Pts(s))
      ensures |indices| == |old(indices)| + 3
      ensures old(ZListed(grid, zs, s)) ==> ZListed(grid, zs', s')
    {
      RingNext(s);
      EmitEar(ear.prev, ear, ear.next, s, zs);
      ear', s', zs' := Clip(ear, s, zs);
      TailRotated(s);
    }

    method Stamp(p: Node)
      requires p in pool && Cached() && hashing && InGrid(grid, p.pt)
      modifies p`z, p`prevZ, p`nextZ
      ensures Cached() && p.z == Key(grid, p)
      ensures p.prevZ == p.prev && p.nextZ == p.next
    {
      assert Coded(p);
      p.z := if p.z != 0 then p.z else ZCode(grid, p.pt);
      p.prevZ := p.prev;
      p.nextZ := p.next;
      forall n | n in pool
        ensures Coded(n)
      {
        assert old(Coded(n));
      }
    }

    /** Gives every ring node its code and a z-order link to its ring neighbours. */
    method CopyLinks(start: Node, ghost s: seq<Node>)
      requires Ring(s) && s[0] == start && NodeSet(s) <= pool && Cached() && hashing && OnGrid(grid, s)
      modifies NodeSet(s)`z, NodeSet(s)`prevZ, NodeSet(s)`nextZ
      ensures Cached() && ZStored(grid, s)
      ensures forall k :: 0 <= k < |s| ==> s[k].prevZ == s[k].prev && s[k].nextZ == s[k].next
    {
      var p := start;
      ghost var j: nat := 0;
      while true
        invariant j < |s| && p == s[j]
        invariant Cached()
        invariant forall k :: 0 <= k < j ==> s[k].z == Key(grid, s[k])
        invariant forall k :: 0 <= k < j ==> s[k].prevZ == s[k].prev && s[k].nextZ == s[k].next
        decreases |s| - j
      {
        StepAlong(s, j);
        assert s[j] in NodeSet(s);
        Stamp(p);
        p := p.next;
        j := j + 1;
        if p == start {
          break;
        }
      }
    }

    /** Cuts the copied ring open before its first node. */
    method OpenLinks(start: Node, ghost s: seq<Node>)
      requires Ring(s) && s[0] == start
      requires forall k :: 0 <= k < |s| ==> s[k].prevZ == s[k].prev && s[k].nextZ == s[k].next
      modifies NodeSet(s)`prevZ, NodeSet(s)`nextZ
      ensures Forward(s)
    {
      RingNext(s);
      assert s[|s| - 1] in NodeSet(s);
      start.prevZ.nextZ := null;
      start.prevZ := null;
    }

    lemma LinkedClosed(nodes: set<Node>, r: seq<Node>)
      requires ZLinks(r) && NodeSet(r) <= nodes
      ensures forall n :: n in NodeSet(r) ==> ZInside(n, nodes)
    {
      forall n | n in NodeSet(r)
        ensures ZInside(n, nodes)
      {
        var k :| 0 <= k < |r| && r[k] == n;
        if k > 0 {
          assert r[k - 1] in NodeSet(r);
        }
        if k + 1 < |r| {
          assert r[k].nextZ == r[k + 1] && r[k + 1] in NodeSet(r);
        }
      }
    }

    /** The ring in z-order. */
    method ListCurve(start: Node, ghost s: seq<Node>) returns (ghost zs: seq<Node>)
      requires Cached() && hashing && Ring(s) && s[0] == start && NodeSet(s) <= pool && OnGrid(grid, s)
      modifies NodeSet(s)`z, NodeSet(s)`prevZ, NodeSet(s)`nextZ
      ensures Cached() && ZListed(grid, zs, s) && ZStored(grid, zs) && Stable(grid, s, zs) && NodeSet(zs) == NodeSet(s)
    {
      CopyLinks(start, s);
      OpenLinks(start, s);
      assert Cached() && ZStored(grid, s);
      var list;
      list, zs := SortLinked(start, grid, s);
      SameNodes(s, zs);
      StoredSame(grid, s, zs);
    }

    /** indexCurve: lists the ring in z-order. */
    method IndexCurve(start: Node, ghost s: seq<Node>) returns (ghost zs: seq<Node>)
      requires Valid() && Cached() && hashing
      requires Ring(s) && s[0] == start && NodeSet(s) <= pool && OnGrid(grid, s)
      modifies NodeSet(s)`z, NodeSet(s)`prevZ, NodeSet(s)`nextZ
      ensures Valid() && Cached()
      ensures ZListed(grid, zs, s) && ZStored(grid, zs) && Stable(grid, s, zs)
    {
      zs := ListCurve(start, s);
      LinkedClosed(pool, zs);
      forall n | n in pool
        ensures ZInside(n, pool)
      {
        assert n !in NodeSet(zs) ==> old(ZInside(n, pool));
      }
    }

    /** Emits a, p, b where the ring reads a, p, n, b, and books the lost corner p, n, b. */
    method EmitOver(a: Node, p: Node, n: Node, b: Node)
      requires Sound() && {a, p, n, b} <= pool && Intersects(a.pt, p.pt, n.pt, b.pt)
      modifies this`indices, this`cuts
      ensures Sound()
      ensures indices == old(indices) + [a.i, p.i, b.i] && cuts == old(cuts) + [Cut(a.pt, p.pt, n.pt, b.pt)]
      ensures Balance() == old(Balance()) + Tri2(a.pt, p.pt, b.pt) + Tri2(p.pt, n.pt, b.pt)
    {
      CutKeepsOrder(Book(), Cut(a.pt, p.pt, n.pt, b.pt));
      cuts := cuts + [Cut(a.pt, p.pt, n.pt, b.pt)];
      Emit(a, p, b);
    }

    method EmitCut(a: Node, p: Node, n: Node, b: Node, ghost s: seq<Node>, ghost zs: seq<Node>)
      requires Valid() && Ring(s) && |s| >= 4 && NodeSet(s) <= pool
      requires a == s[|s| - 1] && p == s[0] && n == s[1] && b == s[2] && Intersects(a.pt, p.pt, n.pt, b.pt)
      modifies this`indices, this`cuts
      ensures Valid() && Ring(s) && (old(ZListed(grid, zs, s)) ==> ZListed(grid, zs, s))
      ensures |indices| == |old(indices)| + 3
      ensures Balance() == old(Balance()) + Tri2(a.pt, p.pt, b.pt) + Tri2(p.pt, n.pt, b.pt)
    {
      assert {a, p, n, b} <= NodeSet(s);
      EmitOver(a, p, n, b);
    }

    /** Removes the first two nodes of ring s; the account does not notice. */
    method ClipTwo(p: Node, n: Node, ghost s: seq<Node>, ghost zs: seq<Node>) returns (ghost zs': seq<Node>)
      requires Valid() && Ring(s) && |s| > 2 && s[0] == p && s[1] == n && NodeSet(s) <= pool
      modifies NodeSet(s)`next, NodeSet(s)`prev, pool`prevZ, pool`nextZ
      ensures Valid() && Balance() == old(Balance()) && Ring(s[2..])
      ensures old(ZListed(grid, zs, s)) ==> ZListed(grid, zs', s[2..])
    {
      zs' := CutTwo(p, n, grid, s, zs, pool);
    }

    /** The clipping branch of cureLocalIntersections: p and the vertex n after it go. */
    method CureAt(a: Node, p: Node, n: Node, b: Node, ghost s: seq<Node>, ghost zs: seq<Node>)
      returns (ghost zs': seq<Node>)
      requires Valid() && Ring(s) && |s| >= 4 && NodeSet(s) <= pool
      requires a == s[|s| - 1] && p == s[0] && n == s[1] && b == s[2] && Intersects(a.pt, p.pt, n.pt, b.pt)
      modifies this`indices, this`cuts, NodeSet(s)`next, NodeSet(s)`prev, pool`prevZ, pool`nextZ
      ensures Valid() && Ring(s[2..])
      ensures Balance() + Area2(Pts(s[2..])) == old(Balance()) + Area2(Pts(s))
      ensures |indices| == |old(indices)| + 3
      ensures old(ZListed(grid, zs, s)) ==> ZListed(grid, zs', s[2..])
    {
      EmitCut(a, p, n, b, s, zs);
      zs' := ClipTwo(p, n, s, zs);
      CureAreas(s);
    }

    lemma CureAreas(s: seq<Node>)
      requires |s| >= 4
      ensures Area2(Pts(s)) == Area2(Pts(s[2..]))
                               + Tri2(s[|s| - 1].pt, s[0].pt, s[2].pt) + Tri2(s[0].pt, s[1].pt, s[2].pt)
    {
      CutArea(s);
      CutArea(s[1..]);
      assert s[1..][1..] == s[2..];
      CureIdentity(s[|s| - 1].pt, s[0].pt, s[1].pt, s[2].pt);
    }

    /** filterPoints on a ring of the pool; the account does not notice. */
    method FilterRing(start: Node, end: Node, ghost s: seq<Node>, ghost zs: seq<Node>)
      returns (r: Node, ghost s': seq<Node>, ghost zs': seq<Node>)
      requires Valid() && Ring(s) && s[0] == start && end in s && NodeSet(s) <= pool
      modifies NodeSet(s)`next, NodeSet(s)`prev, pool`prevZ, pool`nextZ
      ensures Valid() && Balance() == old(Balance())
      ensures Ring(s') && s'[0] == r && NodeSet(s') <= NodeSet(s) && |s'| <= |s|
      ensures Area2(Pts(s')) == Area2(Pts(s))
      ensures old(ZListed(grid, zs, s)) ==> ZListed(grid, zs', s')
      ensures start == end ==> |s'| == 1 || KeepsFrom(s', 0)
    {
      assert s[0] in NodeSet(s);
      ghost var d;
      r, s', zs', d := FilterPoints(start, end, grid, s, zs, pool, {}, null);
    }

    /** The condition under which cureLocalIntersections clips at p. */
    predicate CrossesItself(p: Node)
      requires p.prev != null && p.next != null && p.next.next != null
      requires p.prev.prev != null && p.prev.next != null && p.next.next.next != null && p.next.next.prev != null
      reads p, p.next, p.prev, p.next.next
    {
      var a, b := p.prev, p.next.next;
      && a.pt != b.pt
      && Intersects(a.pt, p.pt, p.next.pt, b.pt)
      && LocallyInside(a.prev.pt, a.pt, a.next.pt, b.pt)
      && LocallyInside(b.prev.pt, b.pt, b.next.pt, a.pt)
    }

    lemma RingNeighbours(s: seq<Node>)
      requires Ring(s)
      ensures s[0].prev != null && s[0].next != null && s[0].next.next != null
      ensures s[0].prev.prev != null && s[0].prev.next != null
      ensures s[0].next.next.next != null && s[0].next.next.prev != null
      ensures CrossesItself(s[0]) <==> |s| >= 4 && Crosses(Pts(s))
      ensures CrossesItself(s[0]) ==> |s| >= 4 && s[0].next.next == s[2] && s[0].next == s[1] && s[0].prev == s[|s| - 1]
    {
      RingNext(s);
      if |s| == 2 {
        assert s[1].next == s[0];
        TwoRingNotInside(s[1].pt, s[0].pt);
      } else if |s| >= 3 {
        assert s[1].next == s[2];
        if |s| == 3 {
          assert s[2].next == s[0];
        }
        StepAlong(s, 2);
        assert s[2].prev == s[1];
        assert s[|s| - 1].prev == s[|s| - 2];
      }
    }

    lemma Dropped(s: seq<Node>, k: nat)
      requires k <= |s|
      ensures NodeSet(s[k..]) <= NodeSet(s)
    {
    }

    lemma CrossingWalk(s: seq<Node>, e: nat)
      requires 0 < e <= |s|
      ensures NoCrossFrom(Pts(s), e) ==> (|s| >= 4 && Crosses(Pts(s))) || NoCrossFrom(Pts(Rot(s, 1)), e - 1)
    {
      assert Pts(Rot(s, 1)) == From(Pts(s), 1);
      if NoCrossFrom(Pts(s), e) && (|s| < 4 || !Crosses(Pts(s))) {
        NoCrossStep(Pts(s), e);
      }
    }

    /** One turn of the loop of cureLocalIntersections. */
    method CureStep(p: Node, start: Node, ghost first: bool, ghost s: seq<Node>, ghost zs: seq<Node>, ghost e: nat)
      returns (p': Node, start': Node, ghost s': seq<Node>, ghost zs': seq<Node>, ghost e': nat)
      requires Valid() && Ring(s) && s[0] == p && NodeSet(s) <= pool && e < |s| && s[e] == start
      modifies this`indices, this`cuts, NodeSet(s)`next, NodeSet(s)`prev, pool`prevZ, pool`nextZ
      ensures Valid()
      ensures Ring(s') && s'[0] == p' && NodeSet(s') <= NodeSet(s) && e' < |s'| && s'[e'] == start'
      ensures if |s| >= 4 && Crosses(Pts(s)) then |s'| == |s| - 2 else s' == Rot(s, 1)
      ensures |s'| < |s| || (|s'| == |s| && e' == if e == 0 then |s| - 1 else e - 1)
      ensures (first ==> e == 0) && NoCrossFrom(Pts(s), if first then |s| else e + 1) && (first || e > 0) ==>
        NoCrossFrom(Pts(s'), e' + 1)
      ensures Balance() + Area2(Pts(s')) == old(Balance()) + Area2(Pts(s))
      ensures |indices| + 3 * Room(|s'|) <= |old(indices)| + 3 * Room(|s|)
      ensures old(ZListed(grid, zs, s)) ==> ZListed(grid, zs', s')
    {
      RingNeighbours(s);
      CrossingWalk(s, if first then |s| else e + 1);
      p', start', s', zs', e' := p, start, s, zs, e;
      var a, b := p.prev, p.next.next;
      if CrossesItself(p) {
        zs' := CureAt(a, p, p.next, b, s, zs);
        Dropped(s, 2);
        s', e' := s[2..], 0;
        p', start' := b, b;
      }
      e' := RingWalk(s', e');
      p', s' := p'.next, Rot(s', 1);
    }

    /**
     * The loop of cureLocalIntersections: once around the ring, starting over after a clip. At the
     * end no vertex but perhaps the last start is left to clip.
     */
    method CureLoop(start0: Node, ghost s: seq<Node>, ghost zs: seq<Node>)
      returns (r: Node, ghost s': seq<Node>, ghost zs': seq<Node>)
      requires Valid() && Ring(s) && s[0] == start0 && NodeSet(s) <= pool
      modifies this`indices, this`cuts, NodeSet(s)`next, NodeSet(s)`prev, pool`prevZ, pool`nextZ
      ensures Valid()
      ensures Ring(s') && s'[0] == r && NodeSet(s') <= NodeSet(s) && |s'| <= |s|
      ensures NoCrossFrom(Pts(s'), 1)
      ensures Balance() + Area2(Pts(s')) == old(Balance()) + Area2(Pts(s))
      ensures |indices| + 3 * Room(|s'|) <= |old(indices)| + 3 * Room(|s|)
      ensures old(ZListed(grid, zs, s)) ==> ZListed(grid, zs', s')
    {
      s', zs' := s, zs;
      var p, start, first := start0, start0, true;
      ghost var e: nat := 0;
      while first || p != start
        invariant Valid() && Ring(s') && s'[0] == p && NodeSet(s') <= NodeSet(s) && |s'| <= |s|
        invariant e < |s'| && s'[e] == start && NoCrossFrom(Pts(s'), if first then |s'| else e + 1)
        invariant first ==> e == 0
        invariant Balance() + Area2(Pts(s')) == old(Balance()) + Area2(Pts(s))
        invariant |indices| + 3 * Room(|s'|) <= |old(indices)| + 3 * Room(|s|)
        invariant old(ZListed(grid, zs, s)) ==> ZListed(grid, zs', s')
        decreases |s'|, if first then |s'| else e
      {
        p, start, s', zs', e := CureStep(p, start, first, s', zs', e);
        first := false;
      }
      r := p;
    }

    /** cureLocalIntersections: clips every corner whose neighbouring edges cross, then filters. */
    method CureLocalIntersections(start0: Node, ghost s: seq<Node>, ghost zs: seq<Node>)
      returns (r: Node, ghost s': seq<Node>, ghost zs': seq<Node>)
      requires Valid() && Ring(s) && s[0] == start0 && NodeSet(s) <= pool
      modifies this`indices, this`cuts, NodeSet(s)`next, NodeSet(s)`prev, pool`prevZ, pool`nextZ
      ensures Valid()
      ensures Ring(s') && s'[0] == r && NodeSet(s') <= NodeSet(s) && |s'| <= |s|
      ensures Balance() + Area2(Pts(s')) == old(Balance()) + Area2(Pts(s))
      ensures |indices| + 3 * Room(|s'|) <= |old(indices)| + 3 * Room(|s|)
      ensures old(ZListed(grid, zs, s)) ==> ZListed(grid, zs', s')
    {
      r, s', zs' := CureLoop(start0, s, zs);
      r, s', zs' := FilterRing(r, r, s', zs');
    }

    /** With hashing on, the z-order list is in step with ring s. */
    ghost predicate Indexed(s: seq<Node>, zs: seq<Node>)
      reads this`hashing, this`grid, s`z, zs`prevZ, zs`nextZ
    {
      hashing ==> grid.invSize >= 0.0 && ZListed(grid, zs, s) && ZStored(grid, s)
    }

    lemma StoredSubset(g: Grid, s: seq<Node>, s': seq<Node>)
      requires ZStored(g, s) && NodeSet(s') <= NodeSet(s)
      ensures ZStored(g, s')
    {
      assert forall n :: n in s' ==> n in NodeSet(s');
    }

    lemma ListedFacts(g: Grid, s: seq<Node>, zs: seq<Node>)
      requires ZMatches(g, zs, s) && ZStored(g, s)
      ensures OnGrid(g, s) && ZStored(g, zs)
    {
      StoredSame(g, s, zs);
      assert forall n :: n in s ==> n in NodeSet(s);
    }

    /** The ear test that earcutLinked uses: with or without the z-order list, the same answer. */
    method TryEar(ear: Node, ghost s: seq<Node>, ghost zs: seq<Node>) returns (r: bool)
      requires Ring(s) && s[0] == ear && |s| >= 3 && Indexed(s, zs)
      ensures r == Ear(Pts(s))
    {
      if hashing {
        ListedFacts(grid, s, zs);
        r := IsEarHashed(ear, grid, s, zs);
      } else {
        r := IsEar(ear, s);
      }
    }

    method ClipIndexed(ear: Node, ghost s: seq<Node>, ghost zs: seq<Node>)
      returns (ear': Node, ghost s': seq<Node>, ghost zs': seq<Node>)
      requires Valid() && Ring(s) && s[0] == ear && |s| >= 3 && NodeSet(s) <= pool && Indexed(s, zs)
      requires Turn(s[|s| - 1].pt, s[0].pt, s[1].pt) < 0.0
      modifies this`indices, NodeSet(s)`next, NodeSet(s)`prev, pool`prevZ, pool`nextZ
      ensures Valid()
      ensures Ring(s') && s'[0] == ear' && |s'| == |s| - 1 && NodeSet(s') <= NodeSet(s)
      ensures Balance() + Area2(Pts(s')) == old(Balance()) + Area2(Pts(s))
      ensures |indices| == |old(indices)| + 3
      ensures Indexed(s', zs')
    {
      ear', s', zs' := ClipEar(ear, s, zs);
      if hashing {
        assert ZStored(grid, s);
        StoredSubset(grid, s, s');
      }
    }

    lemma IndexedRot(s: seq<Node>, zs: seq<Node>)
      requires |s| > 0 && Indexed(s, zs)
      ensures Indexed(Rot(s, 1), zs)
    {
      if hashing {
        StoredSame(grid, s, Rot(s, 1));
      }
    }

    /** One turn of the loop of earcutLinked: clip the ear, or go on to the next vertex. */
    method EarStep(ear: Node, stop: Node, ghost s: seq<Node>, ghost zs: seq<Node>, ghost e: nat)
      returns (ear': Node, stop': Node, clipped: bool, ghost s': seq<Node>, ghost zs': seq<Node>, ghost e': nat)
      requires Valid() && Ring(s) && s[0] == ear && |s| >= 3 && NodeSet(s) <= pool && e < |s| && s[e] == stop
      requires Indexed(s, zs)
      modifies this`indices, NodeSet(s)`next, NodeSet(s)`prev, pool`prevZ, pool`nextZ
      ensures Valid()
      ensures Ring(s') && s'[0] == ear' && NodeSet(s') <= NodeSet(s) && e' < |s'| && s'[e'] == stop'
      ensures clipped <==> Ear(Pts(s))
      ensures !clipped && NoEarFrom(Pts(s), Untested(e, |s|)) ==> NoEarFrom(Pts(s'), e')
      ensures if clipped then |s'| == |s| - 1 && e' == 0
              else |s'| == |s| && e' == (if e == 0 then |s| - 1 else e - 1)
      ensures Balance() + Area2(Pts(s')) == old(Balance()) + Area2(Pts(s))
      ensures |indices| + 3 * Room(|s'|) <= |old(indices)| + 3 * Room(|s|)
      ensures Indexed(s', zs')
    {
      ear', stop', s', zs', e' := ear, stop, s, zs, e;
      clipped := TryEar(ear, s, zs);
      if clipped {
        ear', s', zs' := ClipIndexed(ear, s, zs);
        stop', e' := ear', 0;
      } else {
        e' := RingWalk(s, e);
        IndexedRot(s, zs);
        NoEarWalk(s, e);
        ear', s' := ear.next, Rot(s, 1);
      }
    }

    /** Where the vertices tested since the last clip begin in the listing; right after the clip, at its end. */
    ghost function Untested(e: nat, n: nat): nat {
      if e == 0 then n else e
    }

    lemma NoEarWalk(s: seq<Node>, e: nat)
      requires |s| >= 3 && e < |s| && !Ear(Pts(s))
      ensures NoEarFrom(Pts(s), Untested(e, |s|)) ==> NoEarFrom(Pts(Rot(s, 1)), Untested(e, |s|) - 1)
    {
      assert Pts(Rot(s, 1)) == From(Pts(s), 1);
      if NoEarFrom(Pts(s), Untested(e, |s|)) {
        NoEarStep(Pts(s), Untested(e, |s|));
      }
    }

    lemma IndexedSubset(s: seq<Node>, s': seq<Node>, zs': seq<Node>)
      requires hashing ==> grid.invSize >= 0.0 && ZStored(grid, s) && ZListed(grid, zs', s')
      requires NodeSet(s') <= NodeSet(s)
      ensures Indexed(s', zs')
    {
      if hashing {
        StoredSubset(grid, s, s');
      }
    }

    /** The loop of earcutLinked: clips ears until two vertices are left or a whole turn has none. */
    method ClipEars(ear0: Node, ghost s: seq<Node>, ghost zs0: seq<Node>)
      returns (ear: Node, noEar: bool, ghost s': seq<Node>, ghost zs: seq<Node>)
      requires Valid() && Ring(s) && s[0] == ear0 && NodeSet(s) <= pool && Indexed(s, zs0)
      modifies this`indices, NodeSet(s)`next, NodeSet(s)`prev, pool`prevZ, pool`nextZ
      ensures Valid()
      ensures Ring(s') && s'[0] == ear && NodeSet(s') <= NodeSet(s) && |s'| <= |s| && Indexed(s', zs)
      ensures (noEar <==> |s'| > 2) && NoEarFrom(Pts(s'), 0)
      ensures Balance() + Area2(Pts(s')) == old(Balance()) + Area2(Pts(s))
      ensures |indices| + 3 * Room(|s'|) <= |old(indices)| + 3 * Room(|s|)
    {
      var stop, clipped := ear0, true;
      ear, noEar, s', zs := ear0, false, s, zs0;
      ghost var e: nat := 0;
      while ear.prev != ear.next
        invariant Valid() && Indexed(s', zs)
        invariant Ring(s') && s'[0] == ear && NodeSet(s') <= NodeSet(s) && |s'| <= |s|
        invariant e < |s'| && s'[e] == stop && NoEarFrom(Pts(s'), Untested(e, |s'|))
        invariant Balance() + Area2(Pts(s')) == old(Balance()) + Area2(Pts(s))
        invariant |indices| + 3 * Room(|s'|) <= |old(indices)| + 3 * Room(|s|)
        decreases |s'|, if e == 0 then |s'| else e
      {
        TwoNeighbours(s');
        ear, stop, clipped, s', zs, e := EarStep(ear, stop, s', zs, e);
        if !clipped && ear == stop {
          noEar := true;
          return;
        }
      }
      TwoNeighbours(s');
    }

    lemma TwoNeighbours(s: seq<Node>)
      requires Ring(s)
      ensures s[0].prev != null && s[0].next != null && (s[0].prev == s[0].next <==> |s| <= 2)
    {
      RingNext(s);
    }

    /** The state in which a ring can be handed on. */
    ghost predicate Takes(s: seq<Node>)
      reads this, pool`z, pool`prevZ, pool`nextZ, s`next, s`prev
    {
      Valid() && Cached() && Ring(s) && NodeSet(s) <= pool && (hashing ==> OnGrid(grid, s))
    }

    lemma GridSubset(g: Grid, s: seq<Node>, s': seq<Node>)
      requires OnGrid(g, s) && NodeSet(s') <= NodeSet(s)
      ensures OnGrid(g, s')
    {
      assert forall n :: n in s' ==> n in NodeSet(s');
    }

    /** filterPoints between two passes. */
    method FilterIndexed(start: Node, ghost s: seq<Node>, ghost zs: seq<Node>)
      returns (r: Node, ghost s': seq<Node>, ghost zs': seq<Node>)
      requires Takes(s) && s[0] == start && Indexed(s, zs)
      modifies NodeSet(s)`next, NodeSet(s)`prev, pool`prevZ, pool`nextZ
      ensures Takes(s') && s'[0] == r && Indexed(s', zs') && Balance() == old(Balance())
      ensures NodeSet(s') <= NodeSet(s) && |s'| <= |s|
      ensures Area2(Pts(s')) == Area2(Pts(s))
    {
      r, s', zs' := FilterRing(start, start, s, zs);
      assert Cached();
      IndexedSubset(s, s', zs');
      if hashing {
        GridSubset(grid, s, s');
      }
    }

    /** cureLocalIntersections between two passes. */
    method CureIndexed(start: Node, ghost s: seq<Node>, ghost zs: seq<Node>)
      returns (r: Node, ghost s': seq<Node>, ghost zs': seq<Node>)
      requires Takes(s) && s[0] == start && Indexed(s, zs)
      modifies this`indices, this`cuts, NodeSet(s)`next, NodeSet(s)`prev, pool`prevZ, pool`nextZ
      ensures Takes(s') && s'[0] == r && Indexed(s', zs')
      ensures NodeSet(s') <= NodeSet(s) && |s'| <= |s|
      ensures Balance() + Area2(Pts(s')) == old(Balance()) + Area2(Pts(s))
      ensures |indices| + 3 * Room(|s'|) <= |old(indices)| + 3 * Room(|s|)
    {
      r, s', zs' := CureLocalIntersections(start, s, zs);
      assert Cached();
      IndexedSubset(s, s', zs');
      if hashing {
        GridSubset(grid, s, s');
      }
    }

    /** ClipEars on a ring to be handed on. */
    method ClipEarsIndexed(ear0: Node, ghost s: seq<Node>, ghost zs0: seq<Node>)
      returns (ear: Node, noEar: bool, ghost s': seq<Node>, ghost zs: seq<Node>)
      requires Takes(s) && s[0] == ear0 && Indexed(s, zs0)
      modifies this`indices, NodeSet(s)`next, NodeSet(s)`prev, pool`prevZ, pool`nextZ
      ensures Takes(s') && s'[0] == ear && Indexed(s', zs)
      ensures NodeSet(s') <= NodeSet(s) && |s'| <= |s|
      ensures (noEar <==> |s'| > 2) && NoEarFrom(Pts(s'), 0)
      ensures Balance() + Area2(Pts(s')) == old(Balance()) + Area2(Pts(s))
      ensures |indices| + 3 * Room(|s'|) <= |old(indices)| + 3 * Room(|s|)
    {
      ear, noEar, s', zs := ClipEars(ear0, s, zs0);
      assert Cached();
      if hashing {
        GridSubset(grid, s, s');
      }
    }

    method IndexIfHashing(start: Node, ghost s: seq<Node>) returns (ghost zs: seq<Node>)
      requires Takes(s) && s[0] == start
      modifies NodeSet(s)`z, NodeSet(s)`prevZ, NodeSet(s)`nextZ
      ensures Takes(s) && Indexed(s, zs)
    {
      if hashing {
        zs := IndexCurve(start, s);
        assert Ring(s);
        StoredSame(grid, zs, s);
      } else {
        zs := [];
      }
    }

    lemma SidesNodes(s: seq<Node>, k: nat, a2: Node, b2: Node)
      requires 2 <= k < |s| - 1 && Distinct(s) && a2 !in NodeSet(s) && b2 !in NodeSet(s)
      ensures NodeSet(NearSide(s, k)) <= NodeSet(s)
      ensures NodeSet(FarSide(s, k, a2, b2)) <= NodeSet(s) + {a2, b2}
      ensures NodeSet(NearSide(s, k)) !! NodeSet(FarSide(s, k, a2, b2))
    {
      var near, far := NearSide(s, k), FarSide(s, k, a2, b2);
      assert forall j :: 0 <= j < |near| ==> near[j] == s[if j == 0 then 0 else k + j - 1];
      assert forall j :: 2 <= j < |far| ==> far[j] == s[j - 1];
    }

    /** Two rings come from one: nothing in common, smaller, with its area. */
    ghost predicate Halves(near: seq<Node>, far: seq<Node>, s: seq<Node>, news: set<Node>) {
      && NodeSet(near) <= NodeSet(s) && NodeSet(far) <= NodeSet(s) + news && NodeSet(near) !! NodeSet(far)
      && |near| < |s| && |far| < |s| && Room(|near|) + Room(|far|) <= Room(|s|)
      && Area2(Pts(near)) + Area2(Pts(far)) == Area2(Pts(s))
    }

    lemma SidesArea(s: seq<Node>, k: nat, a2: Node, b2: Node)
      requires 2 <= k < |s| - 1 && a2.pt == s[0].pt && b2.pt == s[k].pt
      ensures Area2(Pts(NearSide(s, k))) + Area2(Pts(FarSide(s, k, a2, b2))) == Area2(Pts(s))
    {
      var a, b, inner, outer := s[0].pt, s[k].pt, Pts(s[1..k]), Pts(s[k + 1..]);
      assert Pts(s) == [a] + inner + [b] + outer;
      assert Pts(NearSide(s, k)) == [a, b] + outer;
      assert Pts(FarSide(s, k, a2, b2)) == [b] + ([a] + inner);
      Area2Rotate([b], [a] + inner);
      Area2Split(a, b, inner, outer);
    }

    lemma SidesHalve(s: seq<Node>, k: nat, a2: Node, b2: Node)
      requires 2 <= k < |s| - 1 && Distinct(s) && a2 !in NodeSet(s) && b2 !in NodeSet(s)
      requires a2.pt == s[0].pt && b2.pt == s[k].pt
      ensures Halves(NearSide(s, k), FarSide(s, k, a2, b2), s, {a2, b2})
    {
      SidesNodes(s, k, a2, b2);
      SidesArea(s, k, a2, b2);
    }

    lemma SidesGrid(g: Grid, s: seq<Node>, k: nat, a2: Node, b2: Node)
      requires 2 <= k < |s| - 1 && a2.pt == s[0].pt && b2.pt == s[k].pt && OnGrid(g, s)
      ensures OnGrid(g, NearSide(s, k)) && OnGrid(g, FarSide(s, k, a2, b2))
    {
      assert forall n :: n in NearSide(s, k) ==> n in s;
      assert forall n :: n in FarSide(s, k, a2, b2) ==> n == a2 || n == b2 || n in s;
    }

    /** Takes two new nodes, copies of old ones, into the pool. */
    ghost method Adopt(a2: Node, b2: Node, a: Node, b: Node)
      requires Valid() && Cached() && a in pool && b in pool
      requires a2.i == a.i && a2.pt == a.pt && b2.i == b.i && b2.pt == b.pt
      requires a2.z == 0 && a2.prevZ == null && a2.nextZ == null
      requires b2.z == 0 && b2.prevZ == null && b2.nextZ == null
      modifies this`pool
      ensures pool == old(pool) + {a2, b2} && Valid() && Cached() && Balance() == old(Balance())
    {
      ZClosedMore(pool, {a2, b2});
      pool := pool + {a2, b2};
    }

    /** splitPolygon on a ring to be handed on: two rings of the pool. */
    method DivideRing(a: Node, b: Node, ghost s: seq<Node>, ghost k: nat)
      returns (c: Node, ghost a2: Node, ghost news: set<Node>)
      requires Takes(s) && s[0] == a && 2 <= k < |s| - 1 && s[k] == b
      modifies this`pool, NodeSet(s)`next, NodeSet(s)`prev
      ensures Valid() && Cached() && Balance() == old(Balance())
      ensures pool == old(pool) + news && news == {a2, c} && fresh(news)
      ensures a2.pt == a.pt && c.pt == b.pt
      ensures Ring(NearSide(s, k)) && Ring(FarSide(s, k, a2, c))
    {
      assert a in NodeSet(s) && b in NodeSet(s);
      c, a2 := SplitOneRing(a, b, s, k);
      Adopt(a2, c, a, b);
      news := {a2, c};
      assert Ring(NearSide(s, k)) && Ring(FarSide(s, k, a2, c));
    }

    /** splitPolygon on a ring to be handed on: both rings can be handed on. */
    method Divide(a: Node, b: Node, ghost s: seq<Node>, ghost k: nat)
      returns (c: Node, ghost near: seq<Node>, ghost far: seq<Node>, ghost news: set<Node>)
      requires Takes(s) && s[0] == a && 2 <= k < |s| - 1 && s[k] == b
      modifies this`pool, NodeSet(s)`next, NodeSet(s)`prev
      ensures Takes(near) && Takes(far) && near[0] == a && far[0] == c && Balance() == old(Balance())
      ensures pool == old(pool) + news && fresh(news)
      ensures Halves(near, far, s, news)
    {
      ghost var a2;
      c, a2, news := DivideRing(a, b, s, k);
      near, far := NearSide(s, k), FarSide(s, k, a2, c);
      HalvesTaken(near, far, s, news, k, a2, c);
    }

    lemma HalvesTaken(near: seq<Node>, far: seq<Node>, s: seq<Node>, news: set<Node>, k: nat, a2: Node, b2: Node)
      requires Valid() && Cached() && (hashing ==> OnGrid(grid, s)) && NodeSet(s) <= pool && news <= pool
      requires 2 <= k < |s| - 1 && a2.pt == s[0].pt && b2.pt == s[k].pt
      requires near == NearSide(s, k) && far == FarSide(s, k, a2, b2) && Ring(near) && Ring(far)
      requires news == {a2, b2} && Distinct(s) && a2 !in NodeSet(s) && b2 !in NodeSet(s)
      ensures Takes(near) && Takes(far) && near[0] == s[0] && far[0] == b2 && Halves(near, far, s, news)
    {
      SidesHalve(s, k, a2, b2);
      if hashing {
        SidesGrid(grid, s, k, a2, b2);
      }
    }

    /** filterPoints on one side of a diagonal; the ring on the other side is not touched. */
    method FilterSide(a: Node, ghost s: seq<Node>, ghost other: seq<Node>) returns (r: Node, ghost s': seq<Node>)
      requires Takes(s) && s[0] == a && Takes(other) && NodeSet(s) !! NodeSet(other)
      modifies NodeSet(s)`next, NodeSet(s)`prev, pool`prevZ, pool`nextZ
      ensures Takes(s') && s'[0] == r && Takes(other) && Balance() == old(Balance())
      ensures NodeSet(s') <= NodeSet(s) && NodeSet(s') !! NodeSet(other)
      ensures |s'| <= |s| && Room(|s'|) <= Room(|s|)
      ensures Area2(Pts(s')) == Area2(Pts(s))
    {
      RingNext(s);
      ghost var zs';
      assert forall n :: n in other ==> n in NodeSet(other);
      r, s', zs' := FilterRing(a, a.next, s, []);
      assert Ring(other) && Cached();
      if hashing {
        GridSubset(grid, s, s');
      }
    }

    method FilterBoth(a: Node, c: Node, ghost n: seq<Node>, ghost f: seq<Node>)
      returns (a': Node, c': Node, ghost near: seq<Node>, ghost far: seq<Node>)
      requires Takes(n) && n[0] == a && Takes(f) && f[0] == c && NodeSet(n) !! NodeSet(f)
      modifies NodeSet(n)`next, NodeSet(n)`prev, NodeSet(f)`next, NodeSet(f)`prev, pool`prevZ, pool`nextZ
      ensures Takes(near) && Takes(far) && near[0] == a' && far[0] == c' && Balance() == old(Balance())
      ensures NodeSet(near) <= NodeSet(n) && NodeSet(far) <= NodeSet(f) && NodeSet(near) !! NodeSet(far)
      ensures |near| <= |n| && |far| <= |f| && Room(|near|) + Room(|far|) <= Room(|n|) + Room(|f|)
      ensures Area2(Pts(near)) + Area2(Pts(far)) == Area2(Pts(n)) + Area2(Pts(f))
    {
      a', near := FilterSide(a, n, f);
      c', far := FilterSide(c, f, near);
    }

    /** splitPolygon and the two filterPoints calls that follow it in splitEarcut. */
    method SplitAndFilter(a: Node, b: Node, ghost s: seq<Node>, ghost k: nat)
      returns (a': Node, c': Node, ghost near: seq<Node>, ghost far: seq<Node>, ghost news: set<Node>)
      requires Takes(s) && s[0] == a && 2 <= k < |s| - 1 && s[k] == b
      modifies this`pool, NodeSet(s)`next, NodeSet(s)`prev, pool`prevZ, pool`nextZ
      ensures Takes(near) && Takes(far) && near[0] == a' && far[0] == c' && Balance() == old(Balance())
      ensures pool == old(pool) + news && fresh(news)
      ensures Halves(near, far, s, news)
    {
      var c;
      ghost var n, f;
      c, n, f, news := Divide(a, b, s, k);
      assert fresh(news);
      a', c', near, far := FilterBoth(a, c, n, f);
      Smaller(near, n, far, f, s, news);
    }

    lemma Smaller(near: seq<Node>, n: seq<Node>, far: seq<Node>, f: seq<Node>, s: seq<Node>, news: set<Node>)
      requires Halves(n, f, s, news) && NodeSet(near) <= NodeSet(n) && NodeSet(far) <= NodeSet(f)
      requires |near| <= |n| && |far| <= |f| && Room(|near|) + Room(|far|) <= Room(|n|) + Room(|f|)
      requires Area2(Pts(near)) + Area2(Pts(far)) == Area2(Pts(n)) + Area2(Pts(f))
      ensures Halves(near, far, s, news)
    {
    }

    /** Triangulates one side of a diagonal; the ring on the other side is not touched. */
    method LinkedBeside(a: Node, ghost s: seq<Node>, ghost other: seq<Node>)
      returns (ghost news: set<Node>)
      requires Takes(s) && s[0] == a && Takes(other) && NodeSet(s) !! NodeSet(other)
      modifies this`indices, this`pool, this`stuck, this`cuts
      modifies NodeSet(s)`next, NodeSet(s)`prev, pool`z, pool`prevZ, pool`nextZ
      ensures Takes(other)
      ensures pool == old(pool) + news && fresh(news)
      ensures Balance() == old(Balance()) + Area2(Pts(s))
      ensures |indices| <= |old(indices)| + 3 * Room(|s|)
      decreases |s|, 3, 4
    {
      news := LinkedApart(a, s, other);
    }

    method LinkedApart(a: Node, ghost s: seq<Node>, ghost other: seq<Node>)
      returns (ghost news: set<Node>)
      requires Takes(s) && s[0] == a && Ring(other) && NodeSet(other) <= pool && NodeSet(s) !! NodeSet(other)
      modifies this`indices, this`pool, this`stuck, this`cuts
      modifies NodeSet(s)`next, NodeSet(s)`prev, pool`z, pool`prevZ, pool`nextZ
      ensures Valid() && Cached() && Ring(other)
      ensures pool == old(pool) + news && fresh(news)
      ensures Balance() == old(Balance()) + Area2(Pts(s))
      ensures |indices| <= |old(indices)| + 3 * Room(|s|)
      decreases |s|, 3, 3
    {
      assert forall n :: n in other ==> n in NodeSet(other);
      news := EarcutLinked(a, 0, s, []);
      assert Ring(other);
    }

    lemma JoinSets(p: set<Node>, a: set<Node>, b: set<Node>)
      ensures (p + a) + b == p + (a + b)
    {
    }

    lemma Unions(p: set<Node>, a: set<Node>, b: set<Node>, c: set<Node>)
      ensures ((p + a) + b) + c == p + (a + b + c)
    {
    }

    /** What splitEarcut does when it has found a diagonal: both sides start over. */
    method SplitAt(a: Node, b: Node, ghost s: seq<Node>, ghost k: nat)
      returns (ghost news: set<Node>)
      requires Takes(s) && s[0] == a
      requires 2 <= k < |s| - 1 && s[k] == b
      modifies this`indices, this`pool, this`stuck, this`cuts
      modifies NodeSet(s)`next, NodeSet(s)`prev, pool`z, pool`prevZ, pool`nextZ
      ensures Valid() && Cached()
      ensures pool == old(pool) + news && fresh(news)
      ensures Balance() == old(Balance()) + Area2(Pts(s))
      ensures |indices| <= |old(indices)| + 3 * Room(|s|)
      decreases |s|, 0, 0
    {
      ghost var near, far, more, last;
      var a', c';
      a', c', near, far, news := SplitAndFilter(a, b, s, k);
      assert fresh(news);
      more := LinkedBeside(a', near, far);
      assert fresh(news + more);
      last := EarcutLinked(c', 0, far, []);
      assert fresh(last);
      assert fresh(news + more + last);
      Unions(old(pool), news, more, last);
      news := news + more + last;
    }

    lemma VsRot(s: seq<Node>, r: nat)
      requires r <= |s|
      ensures Vs(Rot(s, r)) == Turned(Vs(s), r)
    {
    }

    /** The inner loop of splitEarcut: the first vertex with a valid diagonal from a, if any. */
    method FindDiagonal(a: Node, ghost s: seq<Node>) returns (b: Node, found: bool, ghost k: nat)
      requires Ring(s) && s[0] == a && |s| >= 3
      ensures found ==> 2 <= k < |s| - 1 && s[k] == b && ValidDiagonal(Vs(s), k)
      ensures !found ==> NoDiagonalFrom(Vs(s))
    {
      RingNext(s);
      StepAlong(s, 1);
      b, found, k := a.next.next, false, 2;
      while b != a.prev
        invariant 2 <= k <= |s| - 1 && s[k] == b
        invariant forall j :: 2 <= j < k && Vs(s)[0].i != Vs(s)[j].i ==> !ValidDiagonal(Vs(s), j)
        decreases |s| - k
      {
        if a.i != b.i {
          found := IsValidDiagonal(a, b, s, k);
          if found {
            return;
          }
        }
        StepAlong(s, k);
        b := b.next;
        k := k + 1;
      }
    }

    /** A ring without a valid diagonal is given up. */
    method GiveUp(ghost s: seq<Node>) returns (ghost news: set<Node>)
      requires Valid() && Cached() && NodeSet(s) <= pool && NoEarFrom(Pts(s), 0) && NoDiagonal(Vs(s))
      modifies this`stuck
      ensures Valid() && Cached()
      ensures pool == old(pool) + news && fresh(news)
      ensures Balance() == old(Balance()) + Area2(Pts(s))
    {
      assert Points(Vs(s)) == Pts(s);
      stuck := stuck + [Vs(s)];
      news := {};
    }

    /** Vertex a is r vertices on, and b another k vertices on, not next to a. */
    ghost predicate Splits(s: seq<Node>, a: Node, b: Node, r: nat, k: nat)
      reads s`next, s`prev
    {
      && r < |s| && Ring(Rot(s, r)) && Rot(s, r)[0] == a
      && 2 <= k < |s| - 1 && Rot(s, r)[k] == b
    }

    /** One turn of the outer loop of splitEarcut. */
    method FindDiagonalAt(a: Node, ghost s: seq<Node>, ghost r: nat) returns (b: Node, found: bool, ghost k: nat)
      requires Ring(s) && r < |s| && s[r] == a && |s| >= 3
      ensures found ==> Splits(s, a, b, r, k) && ValidDiagonal(Vs(Rot(s, r)), k)
      ensures !found ==> NoDiagonalFrom(Turned(Vs(s), r))
    {
      RingRot(s, r);
      VsRot(s, r);
      b, found, k := FindDiagonal(a, Rot(s, r));
    }

    /** The loops of splitEarcut: the first pair of vertices with a valid diagonal, if any. */
    method FindSplit(start: Node, ghost s: seq<Node>)
      returns (a: Node, b: Node, found: bool, ghost r: nat, ghost k: nat)
      requires Ring(s) && s[0] == start && |s| >= 3
      ensures found ==> Splits(s, a, b, r, k) && ValidDiagonal(Vs(Rot(s, r)), k)
      ensures !found ==> NoDiagonal(Vs(s))
    {
      a, b, found, r, k := start, start, false, 0, 0;
      while true
        invariant r < |s| && a == s[r]
        invariant forall q :: 0 <= q < r ==> NoDiagonalFrom(Turned(Vs(s), q))
        decreases |s| - r
      {
        b, found, k := FindDiagonalAt(a, s, r);
        if found {
          return;
        }
        StepAlong(s, r);
        a := a.next;
        if a == start {
          return;
        }
        r := r + 1;
      }
    }

    lemma TakesRot(s: seq<Node>, r: nat)
      requires Takes(s) && r < |s| && Ring(Rot(s, r))
      ensures Takes(Rot(s, r))
    {
      assert forall n :: n in Rot(s, r) ==> n in NodeSet(Rot(s, r));
    }

    /** Splits ring s at the diagonal found r vertices on. */
    method SplitTurned(a: Node, b: Node, ghost s: seq<Node>, ghost r: nat, ghost k: nat)
      returns (ghost news: set<Node>)
      requires Takes(s) && Splits(s, a, b, r, k)
      modifies this`indices, this`pool, this`stuck, this`cuts
      modifies NodeSet(s)`next, NodeSet(s)`prev, pool`z, pool`prevZ, pool`nextZ
      ensures Valid() && Cached()
      ensures pool == old(pool) + news && fresh(news)
      ensures Balance() == old(Balance()) + Area2(Pts(s))
      ensures |indices| <= |old(indices)| + 3 * Room(|s|)
      decreases |s|, 0, 1
    {
      TakesRot(s, r);
      RotArea(s, r);
      news := SplitAt(a, b, Rot(s, r), k);
    }

    /** splitEarcut: looks for a valid diagonal from every vertex in turn. */
    method SplitEarcut(start: Node, ghost s: seq<Node>)
      returns (ghost news: set<Node>)
      requires Takes(s) && s[0] == start
      requires |s| >= 3 && NoEarFrom(Pts(s), 0)
      modifies this`indices, this`pool, this`stuck, this`cuts
      modifies NodeSet(s)`next, NodeSet(s)`prev, pool`z, pool`prevZ, pool`nextZ
      ensures Valid() && Cached()
      ensures pool == old(pool) + news && fresh(news)
      ensures Balance() == old(Balance()) + Area2(Pts(s))
      ensures |indices| <= |old(indices)| + 3 * Room(|s|)
      decreases |s|, 0, 3
    {
      ghost var r, k;
      var a, b, found;
      a, b, found, r, k := FindSplit(start, s);
      assert Takes(s) && Balance() == old(Balance());
      news := SplitOrGiveUp(found, a, b, s, r, k);
    }

    method SplitOrGiveUp(found: bool, a: Node, b: Node, ghost s: seq<Node>, ghost r: nat, ghost k: nat)
      returns (ghost news: set<Node>)
      requires Takes(s) && if found then Splits(s, a, b, r, k) else NoEarFrom(Pts(s), 0) && NoDiagonal(Vs(s))
      modifies this`indices, this`pool, this`stuck, this`cuts
      modifies NodeSet(s)`next, NodeSet(s)`prev, pool`z, pool`prevZ, pool`nextZ
      ensures Valid() && Cached()
      ensures pool == old(pool) + news && fresh(news)
      ensures Balance() == old(Balance()) + Area2(Pts(s))
      ensures |indices| <= |old(indices)| + 3 * Room(|s|)
      decreases |s|, 0, 2
    {
      if found {
        news := SplitTurned(a, b, s, r, k);
      } else {
        news := GiveUp(s);
      }
    }

    method NextPass(ear: Node, pass: nat, ghost s: seq<Node>, ghost zs: seq<Node>)
      returns (ghost news: set<Node>)
      requires Takes(s) && s[0] == ear
      requires pass <= 2 && |s| >= 3 && Indexed(s, zs) && NoEarFrom(Pts(s), 0)
      modifies this`indices, this`pool, this`stuck, this`cuts
      modifies NodeSet(s)`next, NodeSet(s)`prev, pool`z, pool`prevZ, pool`nextZ
      ensures Valid() && Cached()
      ensures pool == old(pool) + news && fresh(news)
      ensures Balance() == old(Balance()) + Area2(Pts(s))
      ensures |indices| <= |old(indices)| + 3 * Room(|s|)
      decreases |s|, 3 - pass, 1
    {
      if pass == 0 {
        news := FilterAndRetry(ear, s, zs);
      } else if pass == 1 {
        news := CureAndRetry(ear, s, zs);
      } else {
        news := SplitEarcut(ear, s);
      }
    }

    /** The second pass: filter the ring and try again. */
    method FilterAndRetry(ear: Node, ghost s: seq<Node>, ghost zs: seq<Node>)
      returns (ghost news: set<Node>)
      requires Takes(s) && s[0] == ear
      requires Indexed(s, zs)
      modifies this`indices, this`pool, this`stuck, this`cuts
      modifies NodeSet(s)`next, NodeSet(s)`prev, pool`z, pool`prevZ, pool`nextZ
      ensures Valid() && Cached()
      ensures pool == old(pool) + news && fresh(news)
      ensures Balance() == old(Balance()) + Area2(Pts(s))
      ensures |indices| <= |old(indices)| + 3 * Room(|s|)
      decreases |s|, 3, 0
    {
      var p, s', zs' := FilterIndexed(ear, s, zs);
      news := EarcutLinked(p, 1, s', zs');
    }

    /** The third pass: cure local intersections and try again. */
    method CureAndRetry(ear: Node, ghost s: seq<Node>, ghost zs: seq<Node>)
      returns (ghost news: set<Node>)
      requires Takes(s) && s[0] == ear
      requires Indexed(s, zs)
      modifies this`indices, this`pool, this`stuck, this`cuts
      modifies NodeSet(s)`next, NodeSet(s)`prev, pool`z, pool`prevZ, pool`nextZ
      ensures Valid() && Cached()
      ensures pool == old(pool) + news && fresh(news)
      ensures Balance() == old(Balance()) + Area2(Pts(s))
      ensures |indices| <= |old(indices)| + 3 * Room(|s|)
      decreases |s|, 2, 0
    {
      var p, s', zs' := FilterIndexed(ear, s, zs);
      p, s', zs' := CureIndexed(p, s', zs');
      news := EarcutLinked(p, 2, s', zs');
    }

    /** The start and the loop of earcutLinked. */
    method ClipPass(ear0: Node, pass: nat, ghost s: seq<Node>, ghost zs0: seq<Node>)
      returns (ear: Node, noEar: bool, ghost s': seq<Node>, ghost zs: seq<Node>)
      requires Takes(s) && s[0] == ear0 && (pass > 0 ==> Indexed(s, zs0))
      modifies this`indices, NodeSet(s)`next, NodeSet(s)`prev, NodeSet(s)`z, pool`prevZ, pool`nextZ
      ensures Takes(s') && s'[0] == ear && Indexed(s', zs)
      ensures NodeSet(s') <= NodeSet(s) && |s'| <= |s|
      ensures (noEar <==> |s'| > 2) && NoEarFrom(Pts(s'), 0)
      ensures Balance() + Area2(Pts(s')) == old(Balance()) + Area2(Pts(s))
      ensures |indices| + 3 * Room(|s'|) <= |old(indices)| + 3 * Room(|s|)
    {
      zs := zs0;
      if pass == 0 {
        zs := IndexIfHashing(ear0, s);
      }
      ear, noEar, s', zs := ClipEarsIndexed(ear0, s, zs);
    }

    /**
     * earcutLinked: clips ears until two vertices are left; after a whole turn without an ear it
     * hands the ring to the next pass. Everything the ring encloses ends up in the account.
     */
    method EarcutLinked(ear0: Node, pass: nat, ghost s: seq<Node>, ghost zs0: seq<Node>)
      returns (ghost news: set<Node>)
      requires Takes(s) && s[0] == ear0
      requires pass <= 2 && (pass > 0 ==> Indexed(s, zs0))
      modifies this`indices, this`pool, this`stuck, this`cuts
      modifies NodeSet(s)`next, NodeSet(s)`prev, pool`z, pool`prevZ, pool`nextZ
      ensures Valid() && Cached()
      ensures pool == old(pool) + news && fresh(news)
      ensures Balance() == old(Balance()) + Area2(Pts(s))
      ensures |indices| <= |old(indices)| + 3 * Room(|s|)
      decreases |s|, 3 - pass, 2
    {
      ghost var s', zs;
      var ear, noEar;
      ear, noEar, s', zs := ClipPass(ear0, pass, s, zs0);
      if noEar {
        news := NextPass(ear, pass, s', zs);
      } else {
        news := {};
        Area2Small(Pts(s'));
      }
    }

    // --- Rings and holes ---

    /** Nothing has been emitted, given up or cut off yet. */
    ghost predicate Untouched()
      reads this`indices, this`stuck, this`cuts
    {
      indices == [] && stuck == [] && cuts == []
    }

    /** Takes the nodes of a new ring into the pool, and its points into the input. */
    method AdoptRing(ghost s: seq<Node>, points: seq<Point>)
      requires Valid() && Cached() && Untouched() && AllMade(s, vertices, points)
      modifies this`pool, this`pts, this`vertices
      ensures pool == old(pool) + NodeSet(s) && vertices == old(vertices) + |points| && pts == old(pts) + points
      ensures Valid() && Cached() && Balance() == old(Balance()) && (old(Ring(s)) ==> Ring(s))
    {
      ZClosedMore(pool, NodeSet(s));
      pool := pool + NodeSet(s);
      pts := pts + points;
      vertices := vertices + |points|;
    }

    /** The start of linkedList: the ring of all points, taken into the pool. */
    method OpenRing(points: seq<Point>, clockwise: bool) returns (last: Node?, ghost s: seq<Node>)
      requires Valid() && Cached() && Untouched()
      modifies this`pool, this`pts, this`vertices
      ensures Valid() && Cached() && Balance() == old(Balance())
      ensures vertices == old(vertices) + |points| && pts == old(pts) + points
      ensures pool == old(pool) + NodeSet(s) && fresh(NodeSet(s))
      ensures if points == [] then last == null && s == [] else Ring(s) && last == s[|s| - 1] && !last.steiner
      ensures |s| == |points| && Pts(s) == Wound(points, clockwise)
      ensures Unalike(NodeSet(s)) && forall n :: n in NodeSet(s) ==> n.i >= |old(pts)|
    {
      last, s := BuildRing(points, vertices, clockwise);
      assert Valid() && Cached() && Untouched() && Balance() == old(Balance());
      assert fresh(NodeSet(s)) && (last != null ==> !last.steiner);
      AdoptRing(s, points);
    }

    /** The end of linkedList. */
    method CloseRing(last: Node, ghost s: seq<Node>) returns (list: Node, ghost s': seq<Node>)
      requires Valid() && Cached() && Ring(s) && s[|s| - 1] == last && NodeSet(s) <= pool && !last.steiner
      modifies s`next, s`prev, pool`prevZ, pool`nextZ
      ensures Valid() && Cached() && Balance() == old(Balance())
      ensures Ring(s') && list == s'[0] && NodeSet(s') <= NodeSet(s) && |s| - 1 <= |s'| <= |s|
      ensures Area2(Pts(s')) == Area2(Pts(s)) && Pts(s') == Unrepeated(Pts(s))
    {
      list, s' := DropRepeat(last, s, pool);
    }

    /** linkedList: a ring of the points, wound as asked, without a repeated closing point. */
    method LinkedList(points: seq<Point>, clockwise: bool)
      returns (list: Node?, ghost s: seq<Node>, ghost news: set<Node>)
      requires Valid() && Cached() && Untouched()
      modifies this`pool, this`pts, this`vertices, pool`prevZ, pool`nextZ
      ensures Valid() && Cached() && Balance() == old(Balance())
      ensures vertices == old(vertices) + |points| && pts == old(pts) + points
      ensures pool == old(pool) + news && fresh(news)
      ensures if points == [] then list == null else Ring(s) && list == s[0] && NodeSet(s) <= news
      ensures |points| - 1 <= |s| <= |points|
      ensures Pts(s) == Listing(points, clockwise) && Area2(Pts(s)) == WoundArea(points, clockwise)
      ensures Unalike(news) && forall n :: n in news ==> n.i >= |old(pts)|
    {
      list, s := OpenRing(points, clockwise);
      WoundHasArea(points, clockwise);
      news := NodeSet(s);
      assert fresh(news);
      if list != null {
        list, s := CloseRing(list, s);
      }
    }

    lemma BridgedArea(s: seq<Node>, h: seq<Node>, a2: Node, b2: Node)
      requires |s| > 0 && |h| > 0 && a2.pt == s[0].pt && b2.pt == h[0].pt
      ensures Area2(Pts(Bridged(s, h, a2, b2))) == Area2(Pts(s)) + Area2(Pts(h))
    {
      var a, b, outer, hole := s[0].pt, h[0].pt, Pts(s[1..]), Pts(h[1..]);
      assert Pts(s) == [a] + outer && Pts(h) == [b] + hole;
      assert Pts(Bridged(s, h, a2, b2)) == ([b, a] + outer) + ([a] + ([b] + hole));
      BridgedChains(a, b, outer, hole);
    }

    lemma BridgedChains(a: Point, b: Point, outer: seq<Point>, hole: seq<Point>)
      ensures Area2(([b, a] + outer) + ([a] + ([b] + hole))) == Area2([a] + outer) + Area2([b] + hole)
    {
      Area2Rotate([b, a] + outer, [a] + ([b] + hole));
      assert ([a] + ([b] + hole)) + ([b, a] + outer) == [a] + ([b] + hole) + [b, a] + outer;
      Area2Bridge(a, b, outer, hole);
    }

    lemma BridgedNodes(s: seq<Node>, h: seq<Node>, a2: Node, b2: Node)
      requires |s| > 0
      ensures NodeSet(Bridged(s, h, a2, b2)) == NodeSet(s) + NodeSet(h) + {a2, b2}
    {
      var m := Bridged(s, h, a2, b2);
      assert forall n :: n in s ==> n == s[0] || n in s[1..];
      assert forall n :: n in m <==> n == a2 || n == b2 || n in s[1..] || n == s[0] || n in h;
    }

    /** splitPolygon between the outer ring and a hole: one ring of both. */
    method JoinHole(bridge: Node, hole: Node, ghost s: seq<Node>, ghost h: seq<Node>)
      returns (b2: Node, ghost m: seq<Node>, ghost news: set<Node>)
      requires Valid() && Cached() && NodeSet(s) <= pool && NodeSet(h) <= pool && NodeSet(s) !! NodeSet(h)
      requires Ring(s) && Ring(h) && s[0] == bridge && h[0] == hole
      modifies this`pool, NodeSet(s)`next, NodeSet(s)`prev, NodeSet(h)`next, NodeSet(h)`prev
      ensures Valid() && Cached() && Balance() == old(Balance())
      ensures pool == old(pool) + news && fresh(news)
      ensures Ring(m) && m[0] == b2 && |m| == |s| + |h| + 2 && NodeSet(m) == NodeSet(s) + NodeSet(h) + news
      ensures Area2(Pts(m)) == Area2(Pts(s)) + Area2(Pts(h))
      ensures Spots(NodeSet(m)) <= Spots(NodeSet(s)) + Spots(NodeSet(h))
      ensures !Flat(h[|h| - 1].pt, hole.pt, bridge.pt) ==> Keeps(b2)
    {
      ghost var a2;
      assert bridge in NodeSet(s) && hole in NodeSet(h);
      b2, a2 := BridgeTwoRings(bridge, hole, s, h);
      Adopt(a2, b2, bridge, hole);
      m, news := Bridged(s, h, a2, b2), {a2, b2};
      assert fresh(news);
      BridgedArea(s, h, a2, b2);
      BridgedNodes(s, h, a2, b2);
      BridgedSpots(s, h, m, a2, b2);
      BridgedKeeps(s, h, a2, b2);
    }

    lemma BridgedSpots(s: seq<Node>, h: seq<Node>, m: seq<Node>, a2: Node, b2: Node)
      requires |s| > 0 && |h| > 0 && a2.pt == s[0].pt && b2.pt == h[0].pt
      requires NodeSet(m) == NodeSet(s) + NodeSet(h) + {a2, b2}
      ensures Spots(NodeSet(m)) <= Spots(NodeSet(s)) + Spots(NodeSet(h))
    {
      assert s[0] in NodeSet(s) && h[0] in NodeSet(h);
    }

    /** The doubled hole node is between the end of the hole and the doubled bridge. */
    lemma BridgedKeeps(s: seq<Node>, h: seq<Node>, a2: Node, b2: Node)
      requires |s| > 0 && |h| > 0 && a2.pt == s[0].pt && b2.pt == h[0].pt && Ring(Bridged(s, h, a2, b2))
      ensures !Flat(h[|h| - 1].pt, h[0].pt, s[0].pt) ==> Keeps(b2)
    {
      var m := Bridged(s, h, a2, b2);
      assert m[0] == b2 && m[1] == a2 && m[|m| - 1] == h[|h| - 1];
      RingNext(m);
    }

    /** filterPoints on a ring, with an eye on one of its nodes; the account does not notice. */
    method FilterFollowed(start: Node, end: Node, ghost s: seq<Node>, ghost all: set<Node>, ghost b: Node)
      returns (r: Node, ghost s': seq<Node>, ghost d: Sides)
      requires Valid() && Cached() && Ring(s) && s[0] == start && end in s && b in s && NodeSet(s) <= all <= pool
      requires Residue(all, s)
      modifies NodeSet(s)`next, NodeSet(s)`prev, pool`prevZ, pool`nextZ
      ensures Valid() && Cached() && Balance() == old(Balance())
      ensures Ring(s') && s'[0] == r && NodeSet(s') <= NodeSet(s) && |s'| <= |s|
      ensures Area2(Pts(s')) == Area2(Pts(s)) && Residue(all, s') && Watched(b, d, s')
      ensures |s'| == 1 || KeepsFrom(s', 0) || b in s'
      ensures Quiet(s, end, old(Keeps(start))) ==> b in s'
    {
      ghost var zs;
      r, s', zs, d := FilterPoints(start, end, grid, s, [], pool, all, b);
      assert b in NodeSet(s);
    }

    lemma NoResidue(s: seq<Node>)
      ensures Residue(NodeSet(s), s)
    {
    }

    /**
     * The two filterPoints calls of eliminateHole. The second one starts at the bridge, which the
     * first may have dropped. `intact` says whether the ring of the first is given back then; it
     * is if nothing can be dropped at the doubled hole node, where the first call starts.
     */
    method FilterBridge(bridge: Node, b2: Node, ghost m: seq<Node>)
      returns (r: Node, intact: bool, ghost s': seq<Node>, ghost x: R.Stranding)
      requires Valid() && Cached() && Ring(m) && |m| > 1 && m[0] == b2 && NodeSet(m) <= pool && bridge in m
      modifies NodeSet(m)`next, NodeSet(m)`prev, pool`prevZ, pool`nextZ
      ensures Valid() && Cached() && Balance() == old(Balance())
      ensures intact ==> Ring(s') && s'[0] == r && NodeSet(s') <= NodeSet(m) && |s'| <= |m|
      ensures intact ==> Area2(Pts(s')) == Area2(Pts(m))
      ensures !intact ==> LostAt(x, pts)
      ensures old(Keeps(b2)) ==> intact
    {
      ghost var all, d := NodeSet(m), Sides([], []);
      NoResidue(m);
      RingNext(m);
      r, s', d := FilterFollowed(b2, b2.next, m, all, bridge);
      r, intact, s', x := FilterAgain(bridge, r, s', all, d);
    }

    /** The second of the two calls, after the first has dropped the rest of `all`. */
    method FilterAgain(bridge: Node, first: Node, ghost s: seq<Node>, ghost all: set<Node>, ghost d: Sides)
      returns (r: Node, intact: bool, ghost s': seq<Node>, ghost x: R.Stranding)
      requires Valid() && Cached() && Ring(s) && s[0] == first && NodeSet(s) <= all <= pool
      requires Residue(all, s) && bridge in all && Watched(bridge, d, s)
      requires |s| == 1 || KeepsFrom(s, 0) || bridge in s
      modifies all`next, all`prev, pool`prevZ, pool`nextZ
      ensures Valid() && Cached() && Balance() == old(Balance())
      ensures intact ==> Ring(s') && s'[0] == r && NodeSet(s') <= NodeSet(s) && |s'| <= |s|
      ensures intact ==> Area2(Pts(s')) == Area2(Pts(s))
      ensures !intact ==> LostAt(x, pts)
      ensures bridge in s ==> intact
    {
      ghost var k := WhereIs(bridge, s, all);
      if bridge.next.prev == bridge {
        ghost var e;
        r, s', e := FilterFollowed(bridge, bridge.next, Rot(s, k), all, bridge);
        intact, x := true, R.NOWHERE;
      } else {
        r, intact, s', x := R.FilterDropped(bridge, d, s, all, pool);
        if !intact {
          DrawnLost(x, all);
        }
      }
    }

    lemma DrawnLost(x: R.Stranding, all: set<Node>)
      requires Sound() && all <= pool && R.Stranded(x) && R.Drawn(x, all)
      ensures LostAt(x, pts)
    {
      forall p | p in x.c.pt
        ensures p in pts
      {
        var n :| n in all && n.pt == p;
        assert n in pool && pts[n.i] == p;
      }
    }

    /** A node is on the ring exactly when the node after it leads back to it. */
    lemma WhereIs(b: Node, s: seq<Node>, all: set<Node>) returns (k: nat)
      requires Ring(s) && Residue(all, s) && NodeSet(s) <= all && b in all
      ensures b.next != null && b.prev != null
      ensures b in s <==> b.next.prev == b
      ensures k < |s| && (b in s ==> s[k] == b && Ring(Rot(s, k)) && Rot(s, k)[0] == b && b.next in Rot(s, k))
      ensures Area2(Pts(Rot(s, k))) == Area2(Pts(s)) && Residue(all, Rot(s, k))
    {
      k := 0;
      if b in NodeSet(s) {
        k := RingPlace(s, b);
        RingPointers(s, b);
        RingPlaceAt(s, k);
        RingPlaceAt(s, if k + 1 == |s| then 0 else k + 1);
        RingRot(s, k);
        RingNext(Rot(s, k));
      } else {
        assert Gone(b, all);
      }
      RotArea(s, k);
    }

    /** A hole to the left of which ring s has no edge is left out, and booked. */
    method LeaveOut(ghost s: seq<Node>, ghost h: seq<Node>)
      requires Valid() && Cached() && h != [] && NoEdgeLeft(Pts(s), h[0].pt)
      modifies this`unbridged
      ensures Valid() && Cached()
      ensures Balance() == old(Balance()) + Area2(Pts(h))
      ensures unbridged == old(unbridged) + [Vs(h)]
    {
      assert Points(Vs(h)) == Pts(h);
      unbridged := unbridged + [Vs(h)];
    }

    /** splitPolygon and the two filterPoints calls of eliminateHole. */
    method JoinAndFilter(bridge: Node, hole: Node, ghost s: seq<Node>, ghost h: seq<Node>)
      returns (r: Node, intact: bool, ghost x: R.Stranding, ghost s': seq<Node>, ghost news: set<Node>)
      requires Valid() && Cached() && NodeSet(s) <= pool && NodeSet(h) <= pool && NodeSet(s) !! NodeSet(h)
      requires Ring(s) && Ring(h) && s[0] == bridge && h[0] == hole
      modifies this`pool, NodeSet(s)`next, NodeSet(s)`prev, NodeSet(h)`next, NodeSet(h)`prev, pool`prevZ, pool`nextZ
      ensures !intact ==> LostAt(x, pts)
      ensures Valid() && Cached() && Balance() == old(Balance())
      ensures pool == old(pool) + news && fresh(news)
      ensures intact ==> Ring(s') && s'[0] == r && NodeSet(s') <= NodeSet(s) + NodeSet(h) + news
      ensures intact ==> |s'| <= |s| + |h| + 2 && Area2(Pts(s')) == Area2(Pts(s)) + Area2(Pts(h))
      ensures intact ==> Spots(NodeSet(s')) <= Spots(NodeSet(s)) + Spots(NodeSet(h))
      ensures !Flat(h[|h| - 1].pt, hole.pt, bridge.pt) ==> intact
    {
      var b2;
      ghost var m;
      b2, m, news := JoinHole(bridge, hole, s, h);
      assert fresh(news);
      assert bridge in m && NodeSet(m) <= pool by {
        Amid(bridge, s, h, m, news);
      }
      r, intact, s', x := FilterBridge(bridge, b2, m);
      if intact {
        FewerNodes(NodeSet(s'), NodeSet(m), NodeSet(s), NodeSet(h), news);
      }
    }

    lemma FewerNodes(a: set<Node>, b: set<Node>, s: set<Node>, h: set<Node>, news: set<Node>)
      requires a <= b == s + h + news && Spots(b) <= Spots(s) + Spots(h)
      ensures a <= s + h + news && Spots(a) <= Spots(s) + Spots(h)
    {
    }

    lemma Amid(bridge: Node, s: seq<Node>, h: seq<Node>, m: seq<Node>, news: set<Node>)
      requires s != [] && s[0] == bridge && NodeSet(m) == NodeSet(s) + NodeSet(h) + news
      requires NodeSet(s) <= pool && NodeSet(h) <= pool && news <= pool
      ensures bridge in m && NodeSet(m) <= pool
    {
      assert bridge in NodeSet(s);
      assert bridge in NodeSet(m);
    }

    /** eliminateHole: joins the hole to the outer ring through a bridge, if there is one. */
    method EliminateHole(hole: Node, outer: Node, ghost s: seq<Node>, ghost h: seq<Node>)
      returns (r: Node, intact: bool, ghost x: R.Stranding, ghost s': seq<Node>, ghost news: set<Node>)
      requires Valid() && Cached() && NodeSet(s) <= pool && NodeSet(h) <= pool && NodeSet(s) !! NodeSet(h)
      requires Ring(s) && Ring(h) && s[0] == outer && h[0] == hole
      modifies this`pool, this`unbridged
      modifies NodeSet(s)`next, NodeSet(s)`prev, NodeSet(h)`next, NodeSet(h)`prev, pool`prevZ, pool`nextZ
      ensures !intact ==> LostAt(x, pts)
      ensures Valid() && Cached()
      ensures pool == old(pool) + news && fresh(news)
      ensures intact ==>
        Ring(s') && s'[0] == r && NodeSet(s') <= NodeSet(s) + NodeSet(h) + news && |s'| <= |s| + |h| + 2
      ensures intact ==> Balance() + Area2(Pts(s')) == old(Balance()) + Area2(Pts(s)) + Area2(Pts(h))
      ensures intact ==> Spots(NodeSet(s')) <= Spots(NodeSet(s)) + Spots(NodeSet(h))
      ensures Misses(s, h) ==> intact
      ensures unbridged == if NoEdgeLeft(Pts(s), hole.pt) then old(unbridged) + [Vs(h)] else old(unbridged)
    {
      ghost var k;
      var bridge;
      bridge, k := FindHoleBridge(hole, outer, s);
      assert Valid() && Cached() && Balance() == old(Balance());
      r, intact, x, s', news := JoinOrLeave(bridge, hole, outer, s, h, k);
    }

    method JoinOrLeave(bridge: Node?, hole: Node, outer: Node, ghost s: seq<Node>, ghost h: seq<Node>, ghost k: nat)
      returns (r: Node, intact: bool, ghost x: R.Stranding, ghost s': seq<Node>, ghost news: set<Node>)
      requires Valid() && Cached() && NodeSet(s) <= pool && NodeSet(h) <= pool && NodeSet(s) !! NodeSet(h)
      requires Ring(s) && Ring(h) && s[0] == outer && h[0] == hole
      requires if bridge == null then NoEdgeLeft(Pts(s), hole.pt) else k < |s| && s[k] == bridge
      modifies this`pool, this`unbridged
      modifies NodeSet(s)`next, NodeSet(s)`prev, NodeSet(h)`next, NodeSet(h)`prev, pool`prevZ, pool`nextZ
      ensures !intact ==> LostAt(x, pts)
      ensures Valid() && Cached()
      ensures pool == old(pool) + news && fresh(news)
      ensures intact ==>
        Ring(s') && s'[0] == r && NodeSet(s') <= NodeSet(s) + NodeSet(h) + news && |s'| <= |s| + |h| + 2
      ensures intact ==> Balance() + Area2(Pts(s')) == old(Balance()) + Area2(Pts(s)) + Area2(Pts(h))
      ensures intact ==> Spots(NodeSet(s')) <= Spots(NodeSet(s)) + Spots(NodeSet(h))
      ensures Misses(s, h) ==> intact
      ensures unbridged == if bridge == null then old(unbridged) + [Vs(h)] else old(unbridged)
    {
      if bridge == null {
        LeaveOut(s, h);
        r, intact, x, s', news := outer, true, R.NOWHERE, s, {};
        assert Ring(s) && pool == old(pool);
      } else {
        r, intact, x, s', news := JoinAt(bridge, hole, s, h, k);
      }
    }

    /** Joins the hole to the k-th node of the outer ring. */
    method JoinAt(bridge: Node, hole: Node, ghost s: seq<Node>, ghost h: seq<Node>, ghost k: nat)
      returns (r: Node, intact: bool, ghost x: R.Stranding, ghost s': seq<Node>, ghost news: set<Node>)
      requires Valid() && Cached() && NodeSet(s) <= pool && NodeSet(h) <= pool && NodeSet(s) !! NodeSet(h)
      requires Ring(s) && Ring(h) && k < |s| && s[k] == bridge && h[0] == hole
      modifies this`pool, NodeSet(s)`next, NodeSet(s)`prev, NodeSet(h)`next, NodeSet(h)`prev, pool`prevZ, pool`nextZ
      ensures !intact ==> LostAt(x, pts)
      ensures Valid() && Cached() && Balance() == old(Balance())
      ensures pool == old(pool) + news && fresh(news)
      ensures intact ==> Ring(s') && s'[0] == r && NodeSet(s') <= NodeSet(s) + NodeSet(h) + news
      ensures intact ==> |s'| <= |s| + |h| + 2 && Area2(Pts(s')) == Area2(Pts(s)) + Area2(Pts(h))
      ensures intact ==> Spots(NodeSet(s')) <= Spots(NodeSet(s)) + Spots(NodeSet(h))
      ensures Misses(s, h) ==> intact
    {
      assert bridge in NodeSet(s) && bridge.pt in Spots(NodeSet(s));
      RingRot(s, k);
      RotArea(s, k);
      r, intact, x, s', news := JoinAndFilter(bridge, hole, Rot(s, k), h);
    }

    /** A hole's ring, listed from its leftmost node. */
    method MakeHole(points: seq<Point>) returns (head: Node?, ghost h: seq<Node>, ghost news: set<Node>)
      requires Valid() && Cached() && Untouched()
      modifies this`pool, this`pts, this`vertices, pool`prevZ, pool`nextZ
      ensures Valid() && Cached() && Balance() == old(Balance())
      ensures vertices == old(vertices) + |points| && pts == old(pts) + points
      ensures pool == old(pool) + news && fresh(news)
      ensures if points == [] then head == null else Ring(h) && head == h[0] && NodeSet(h) <= news
      ensures |points| > 0 ==> |points| - 1 <= |h| <= |points|
      ensures Area2(Pts(h)) == WoundArea(points, false)
      ensures points != [] ==> FromLeftmost(Listing(points, false), Pts(h))
      ensures Unalike(news) && forall n :: n in news ==> n.i >= |old(pts)|
    {
      var list;
      list, h, news := LinkedList(points, false);
      assert fresh(news);
      head := list;
      if list != null {
        head, h := LeftmostFirst(list, h);
      }
    }

    /** A hole of one vertex is kept as a Steiner point; the ring is listed from its leftmost node. */
    method LeftmostFirst(list: Node, ghost h0: seq<Node>) returns (head: Node, ghost h: seq<Node>)
      requires Ring(h0) && h0[0] == list
      modifies list`steiner
      ensures Ring(h) && head == h[0] && NodeSet(h) == NodeSet(h0) && |h| == |h0| && Area2(Pts(h)) == Area2(Pts(h0))
      ensures FromLeftmost(Pts(h0), Pts(h))
    {
      assert list in NodeSet(h0);
      RingNext(h0);
      if list == list.next {
        list.steiner := true;
      }
      ghost var k;
      head, k := GetLeftmost(list, h0);
      RingRot(h0, k);
      RotArea(h0, k);
      h := Rot(h0, k);
      assert Pts(h) == From(Pts(h0), k);
    }

    /** The outer ring and the holes that wait. */
    ghost predicate Waiting(s: seq<Node>, queue: seq<Node>, hs: seq<seq<Node>>)
      reads this, pool`z, pool`prevZ, pool`nextZ, s`next, s`prev, HoleNodes(hs)`next, HoleNodes(hs)`prev
    {
      && Valid() && Cached() && Ring(s) && NodeSet(s) <= pool
      && HoleRings(hs) && Heads(queue, hs) && HoleNodes(hs) <= pool && NodeSet(s) !! HoleNodes(hs)
    }

    ghost predicate Under(nodes: set<Node>, bound: nat) {
      forall n :: n in nodes ==> n.i < bound
    }

    /** The same as Clearing, and both ends of every hole listing are vertices of their own. */
    ghost predicate Cleared(s: seq<Node>, hs: seq<seq<Node>>) {
      Clearing(s, hs) && forall h: seq<Node> :: h in hs ==> h != [] && h[0].i != h[|h| - 1].i
    }

    /** The nodes stand for different input vertices. */
    ghost predicate Beside(g: seq<Node>, h: seq<Node>) {
      forall m, n :: m in NodeSet(g) && n in NodeSet(h) ==> m.i != n.i
    }

    lemma GeneralMisses(g: seq<Node>, h: seq<Node>)
      requires Faithful() && NodeSet(g) <= pool && NodeSet(h) <= pool && General(pts)
      requires h != [] && h[0].i != h[|h| - 1].i && Beside(g, h)
      ensures Misses(g, h)
    {
      var u, v := h[|h| - 1], h[0];
      assert u in NodeSet(h) && v in NodeSet(h);
      forall p | p in Spots(NodeSet(g))
        ensures !Flat(u.pt, v.pt, p)
      {
        var n :| n in NodeSet(g) && n.pt == p;
        assert n.i != u.i && n.i != v.i;
        assert !Flat(pts[u.i], pts[v.i], pts[n.i]);
      }
    }

    /** In general position one more hole changes nothing. */
    lemma ClearedMore(s: seq<Node>, hs: seq<seq<Node>>, h: seq<Node>, base: nat, size: nat)
      requires Faithful() && NodeSet(s) <= pool && HoleNodes(hs) <= pool && NodeSet(h) <= pool
      requires Under(NodeSet(s) + HoleNodes(hs), base) && (forall n :: n in NodeSet(h) ==> n.i >= base)
      requires Unalike(NodeSet(h)) && Distinct(h) && h != [] && size - 1 <= |h|
      ensures Cleared(s, hs) && General(pts) && size >= 3 ==> Cleared(s, hs + [h])
    {
      if Cleared(s, hs) && General(pts) && size >= 3 {
        EndsApart(h);
        assert Beside(s, h);
        GeneralMisses(s, h);
        forall g | g in hs
          ensures Misses(g, h) && Misses(h, g)
        {
          InHole(hs, g);
          assert Beside(g, h) && Beside(h, g);
          GeneralMisses(g, h);
          GeneralMisses(h, g);
        }
        ClearedWith(s, hs, h);
      }
    }

    lemma ClearedWith(s: seq<Node>, hs: seq<seq<Node>>, h: seq<Node>)
      requires Cleared(s, hs) && h != [] && h[0].i != h[|h| - 1].i && Misses(s, h)
      requires forall g :: g in hs ==> Misses(g, h) && Misses(h, g)
      ensures Cleared(s, hs + [h])
    {
      assert forall g :: g in hs + [h] <==> g in hs || g == h;
    }

    lemma EndsApart(h: seq<Node>)
      requires Unalike(NodeSet(h)) && Distinct(h) && |h| >= 2
      ensures h[0].i != h[|h| - 1].i
    {
      assert h[0] in NodeSet(h) && h[|h| - 1] in NodeSet(h);
    }

    lemma InHole(hs: seq<seq<Node>>, g: seq<Node>)
      requires g in hs
      ensures NodeSet(g) <= HoleNodes(hs)
    {
    }

    /** One turn of the first loop of eliminateHoles. */
    method QueueHole(points: seq<Point>, queue: seq<Node>, ghost s: seq<Node>, ghost hs: seq<seq<Node>>)
      returns (queue': seq<Node>, ghost hs': seq<seq<Node>>, ghost news: set<Node>)
      requires Waiting(s, queue, hs) && Untouched()
      modifies this`pool, this`pts, this`vertices, pool`prevZ, pool`nextZ
      ensures Waiting(s, queue', hs') && Balance() == old(Balance())
      ensures pool == old(pool) + news && fresh(news)
      ensures vertices == old(vertices) + |points| && pts == old(pts) + points
      ensures HolesArea(hs') == HolesArea(hs) - Abs(Area2(points))
      ensures HolesSize(hs') <= HolesSize(hs) + |points| + 2
      ensures HoleNodes(hs') <= HoleNodes(hs) + news
      ensures Cleared(s, hs) && General(pts) && (points == [] || |points| >= 3) ==> Cleared(s, hs')
    {
      var head;
      ghost var h;
      assert Under(NodeSet(s) + HoleNodes(hs), |pts|);
      head, h, news := MakeHole(points);
      assert fresh(news);
      queue', hs' := queue, hs;
      if head != null {
        assert Ring(s) && HoleRings(hs);
        assert NodeSet(h) !! NodeSet(s) && NodeSet(h) !! HoleNodes(hs);
        RingsAppend(hs, h);
        HoleNodesAppend(hs, h);
        SumsAppend(hs, [h]);
        ClearedMore(s, hs, h, |old(pts)|, |points|);
        queue', hs' := queue + [head], hs + [h];
      }
    }

    /** The rings of the first holes wait, with the areas and sizes that these holes can have. */
    ghost predicate Gathered(rings: seq<seq<Point>>, i: nat, hs: seq<seq<Node>>) {
      && i <= |rings|
      && HolesArea(hs) == HolePoints(rings[..i])
      && HolesSize(hs) <= HoleVertices(rings[..i])
    }

    /** These points and those of the rings are in general position, and every ring has three of them or none. */
    ghost predicate Airy(points: seq<Point>, rings: seq<seq<Point>>) {
      General(points + Flatten(rings)) && forall k :: 0 <= k < |rings| ==> rings[k] == [] || |rings[k]| >= 3
    }

    lemma {:induction false} FlattenPrefix(rings: seq<seq<Point>>, i: nat)
      requires i <= |rings|
      ensures Flatten(rings[..i]) <= Flatten(rings)
      decreases |rings| - i
    {
      if i == |rings| {
        assert rings[..i] == rings;
      } else {
        assert rings[..i + 1][..i] == rings[..i];
        FlattenPrefix(rings, i + 1);
      }
    }

    lemma AirySpread(points: seq<Point>, rings: seq<seq<Point>>, i: nat)
      requires i <= |rings|
      ensures Airy(points, rings) ==> General(points + Flatten(rings[..i]))
    {
      FlattenPrefix(rings, i);
      var all, some := points + Flatten(rings), points + Flatten(rings[..i]);
      assert forall k :: 0 <= k < |some| ==> some[k] == all[k];
    }

    method GatherNext(rings: seq<seq<Point>>, i: nat, queue: seq<Node>, ghost s: seq<Node>, ghost hs: seq<seq<Node>>,
                      ghost before: seq<Point>)
      returns (queue': seq<Node>, ghost hs': seq<seq<Node>>, ghost news: set<Node>)
      requires Waiting(s, queue, hs) && Untouched() && i < |rings| && Gathered(rings, i, hs)
      requires pts == before + Flatten(rings[..i])
      modifies this`pool, this`pts, this`vertices, pool`prevZ, pool`nextZ
      ensures Waiting(s, queue', hs') && Balance() == old(Balance()) && Gathered(rings, i + 1, hs')
      ensures pool == old(pool) + news && fresh(news)
      ensures pts == before + Flatten(rings[..i + 1])
      ensures HoleNodes(hs') <= HoleNodes(hs) + news
      ensures Airy(before, rings) && Cleared(s, hs) ==> Cleared(s, hs')
    {
      assert rings[..i + 1][..i] == rings[..i];
      queue', hs', news := QueueHole(rings[i], queue, s, hs);
      FlattenNext(rings, i, before);
      AirySpread(before, rings, i + 1);
    }

    /** The first loop of eliminateHoles: a ring for every hole. */
    method GatherHoles(rings: seq<seq<Point>>, ghost s: seq<Node>)
      returns (queue: seq<Node>, ghost hs: seq<seq<Node>>, ghost news: set<Node>)
      requires Waiting(s, [], []) && Untouched()
      modifies this`pool, this`pts, this`vertices, pool`prevZ, pool`nextZ
      ensures Waiting(s, queue, hs) && Balance() == old(Balance())
      ensures pool == old(pool) + news && fresh(news)
      ensures pts == old(pts) + Flatten(rings)
      ensures HolesArea(hs) == HolePoints(rings)
      ensures HolesSize(hs) <= HoleVertices(rings)
      ensures HoleNodes(hs) <= news
      ensures Airy(old(pts), rings) ==> Clearing(s, hs)
    {
      queue, hs, news := [], [], {};
      ghost var more;
      var i := 0;
      while i < |rings|
        invariant Gathered(rings, i, hs)
        invariant Waiting(s, queue, hs) && Untouched() && Balance() == old(Balance())
        invariant pool == old(pool) + news && fresh(news) && HoleNodes(hs) <= news
        invariant pts == old(pts) + Flatten(rings[..i])
        invariant Airy(old(pts), rings) ==> Cleared(s, hs)
      {
        queue, hs, more := GatherNext(rings, i, queue, s, hs, old(pts));
        assert fresh(more);
        assert fresh(news + more);
        JoinSets(old(pool), news, more);
        news := news + more;
        i := i + 1;
      }
      assert rings[..i] == rings;
    }

    lemma FlattenNext(rings: seq<seq<Point>>, i: nat, before: seq<Point>)
      requires i < |rings|
      ensures before + Flatten(rings[..i]) + rings[i] == before + Flatten(rings[..i + 1])
    {
      assert rings[..i + 1][..i] == rings[..i];
    }

    /** eliminateHole; the rings of the holes that still wait stay as they are. */
    method JoinFirst(outer: Node, hole: Node, ghost s: seq<Node>, ghost h: seq<Node>, ghost rest: seq<seq<Node>>)
      returns (r: Node, intact: bool, ghost x: R.Stranding, ghost s': seq<Node>, ghost news: set<Node>)
      requires Valid() && Cached() && NodeSet(s) <= pool && NodeSet(h) <= pool && NodeSet(s) !! NodeSet(h)
      requires Ring(s) && Ring(h) && s[0] == outer && h[0] == hole
      requires HoleRings(rest) && HoleNodes(rest) <= pool && NodeSet(s) !! HoleNodes(rest)
      requires NodeSet(h) !! HoleNodes(rest)
      modifies this`pool, this`unbridged
      modifies NodeSet(s)`next, NodeSet(s)`prev, NodeSet(h)`next, NodeSet(h)`prev, pool`prevZ, pool`nextZ
      ensures !intact ==> LostAt(x, pts)
      ensures Valid() && Cached() && HoleRings(rest)
      ensures pool == old(pool) + news && fresh(news)
      ensures intact ==> Ring(s') && s'[0] == r && NodeSet(s') <= NodeSet(s) + NodeSet(h) + news
      ensures intact ==> |s'| <= |s| + |h| + 2 && Spots(NodeSet(s')) <= Spots(NodeSet(s)) + Spots(NodeSet(h))
      ensures Misses(s, h) ==> intact
      ensures intact ==> Balance() + Area2(Pts(s')) == old(Balance()) + Area2(Pts(s)) + Area2(Pts(h))
    {
      r, intact, x, s', news := EliminateHole(hole, outer, s, h);
    }

    /** The first of the waiting holes, and the others. */
    lemma FirstHole(s: seq<Node>, queue: seq<Node>, hs: seq<seq<Node>>)
      requires Waiting(s, queue, hs) && queue != []
      ensures Ring(hs[0]) && hs[0][0] == queue[0] && NodeSet(hs[0]) <= HoleNodes(hs)
      ensures HoleNodes(hs[1..]) <= HoleNodes(hs)
      ensures HoleRings(hs[1..]) && NodeSet(hs[0]) !! HoleNodes(hs[1..])
    {
      RingsSplit(hs);
      HoleNodesSplit(hs);
    }

    /** One turn of the second loop of eliminateHoles. */
    method NextHole(outer: Node, queue: seq<Node>, ghost s: seq<Node>, ghost hs: seq<seq<Node>>)
      returns (r: Node, intact: bool, ghost x: R.Stranding, ghost s': seq<Node>, ghost news: set<Node>)
      requires Waiting(s, queue, hs) && s[0] == outer && queue != []
      modifies this`pool, this`unbridged
      modifies NodeSet(s)`next, NodeSet(s)`prev, HoleNodes(hs)`next, HoleNodes(hs)`prev, pool`prevZ, pool`nextZ
      ensures !intact ==> LostAt(x, pts)
      ensures Valid() && Cached()
      ensures pool == old(pool) + news && fresh(news)
      ensures intact ==> Waiting(s', queue[1..], hs[1..]) && s'[0] == r
      ensures intact ==> NodeSet(s') <= NodeSet(s) + HoleNodes(hs) + news
      ensures intact ==> |s'| + HolesSize(hs[1..]) <= |s| + HolesSize(hs)
      ensures intact ==>
        Balance() + Area2(Pts(s')) + HolesArea(hs[1..]) == old(Balance()) + Area2(Pts(s)) + HolesArea(hs)
      ensures Clearing(s, hs) ==> intact && Clearing(s', hs[1..])
    {
      HoleNodesSplit(hs);
      FirstHole(s, queue, hs);
      r, intact, x, s', news := JoinFirst(outer, queue[0], s, hs[0], hs[1..]);
      if intact {
        WaitNext(s, s', queue, hs, news);
        ClearingOn(s, s', hs);
      }
    }

    /** The points of the first hole belong to the ring now. */
    lemma ClearingOn(s: seq<Node>, s': seq<Node>, hs: seq<seq<Node>>)
      requires hs != [] && Distinct(hs) && Spots(NodeSet(s')) <= Spots(NodeSet(s)) + Spots(NodeSet(hs[0]))
      ensures Clearing(s, hs) ==> Clearing(s', hs[1..])
    {
      assert hs[0] in hs && forall h :: h in hs[1..] ==> h in hs;
      if Clearing(s, hs) {
        forall h | h in hs[1..]
          ensures Misses(s', h)
        {
          assert Misses(s, h) && Misses(hs[0], h);
        }
      }
    }

    /** When the first hole is joined, the others wait. */
    lemma WaitNext(s: seq<Node>, s': seq<Node>, queue: seq<Node>, hs: seq<seq<Node>>, news: set<Node>)
      requires hs != [] && Valid() && Cached() && Ring(s') && NodeSet(s') <= NodeSet(s) + NodeSet(hs[0]) + news
      requires HoleRings(hs[1..]) && Heads(queue, hs) && HoleNodes(hs) == NodeSet(hs[0]) + HoleNodes(hs[1..])
      requires NodeSet(s) <= pool && HoleNodes(hs) <= pool && news <= pool
      requires NodeSet(s) !! HoleNodes(hs) && NodeSet(hs[0]) !! HoleNodes(hs[1..]) && news !! HoleNodes(hs)
      ensures Waiting(s', queue[1..], hs[1..]) && NodeSet(s') <= NodeSet(s) + HoleNodes(hs) + news
    {
    }

    /** The second loop of eliminateHoles. */
    method JoinHoles(outer0: Node, queue0: seq<Node>, ghost s: seq<Node>, ghost hs0: seq<seq<Node>>)
      returns (outer: Node, intact: bool, ghost x: R.Stranding, ghost s': seq<Node>, ghost news: set<Node>)
      requires Waiting(s, queue0, hs0) && s[0] == outer0
      modifies this`pool, this`unbridged
      modifies NodeSet(s)`next, NodeSet(s)`prev, HoleNodes(hs0)`next, HoleNodes(hs0)`prev, pool`prevZ, pool`nextZ
      ensures !intact ==> LostAt(x, pts)
      ensures Valid() && Cached()
      ensures pool == old(pool) + news && fresh(news)
      ensures intact ==> Ring(s') && s'[0] == outer && NodeSet(s') <= pool
      ensures intact ==> |s'| <= |s| + HolesSize(hs0)
      ensures intact ==> Balance() + Area2(Pts(s')) == old(Balance()) + Area2(Pts(s)) + HolesArea(hs0)
      ensures Clearing(s, hs0) ==> intact
    {
      ghost var hs, all, more: set<Node> := hs0, NodeSet(s) + HoleNodes(hs0), {};
      var queue := queue0;
      outer, intact, x, s', news := outer0, true, R.NOWHERE, s, {};
      while intact && queue != []
        invariant !intact ==> LostAt(x, pts)
        invariant Valid() && Cached()
        invariant pool == old(pool) + news && fresh(news)
        invariant intact ==> Waiting(s', queue, hs) && s'[0] == outer && NodeSet(s') + HoleNodes(hs) <= all + news
        invariant intact ==> |s'| + HolesSize(hs) <= |s| + HolesSize(hs0)
        invariant intact ==> Balance() + Area2(Pts(s')) + HolesArea(hs)
                             == old(Balance()) + Area2(Pts(s)) + HolesArea(hs0)
        invariant Clearing(s, hs0) ==> intact && Clearing(s', hs)
        decreases intact, |queue|
      {
        outer, intact, x, s', more := NextHole(outer, queue, s', hs);
        assert fresh(more);
        assert Valid() && Cached();
        assert fresh(news + more);
        JoinSets(old(pool), news, more);
        HoleNodesSplit(hs);
        queue, hs, news := queue[1..], hs[1..], news + more;
      }
    }

    lemma ClearingPermute(s: seq<Node>, g: seq<seq<Node>>, h: seq<seq<Node>>)
      requires multiset(g) == multiset(h)
      ensures Clearing(s, g) ==> Clearing(s, h)
    {
      assert forall r :: r in h ==> r in multiset(g);
    }

    /** Sorts the waiting holes from left to right and joins them. */
    method SortAndJoin(outer0: Node, queue0: seq<Node>, ghost s: seq<Node>, ghost hs0: seq<seq<Node>>)
      returns (outer: Node, intact: bool, ghost x: R.Stranding, ghost s': seq<Node>, ghost news: set<Node>)
      requires Waiting(s, queue0, hs0) && s[0] == outer0
      modifies this`pool, this`unbridged
      modifies NodeSet(s)`next, NodeSet(s)`prev, HoleNodes(hs0)`next, HoleNodes(hs0)`prev, pool`prevZ, pool`nextZ
      ensures !intact ==> LostAt(x, pts)
      ensures Valid() && Cached()
      ensures pool == old(pool) + news && fresh(news)
      ensures intact ==> Ring(s') && s'[0] == outer && NodeSet(s') <= pool
      ensures intact ==> |s'| <= |s| + HolesSize(hs0)
      ensures intact ==> Balance() + Area2(Pts(s')) == old(Balance()) + Area2(Pts(s)) + HolesArea(hs0)
      ensures Clearing(s, hs0) ==> intact
    {
      ghost var hs;
      var queue;
      queue, hs := SortQueue(queue0, hs0);
      assert Valid() && Cached() && Balance() == old(Balance());
      RingsPermute(hs0, hs);
      HoleNodesPermute(hs0, hs);
      SumsPermute(hs0, hs);
      ClearingPermute(s, hs0, hs);
      outer, intact, x, s', news := JoinHoles(outer0, queue, s, hs);
    }

    /** eliminateHoles: queues the holes from left to right and joins them one after the other. */
    method EliminateHoles(rings: seq<seq<Point>>, outer0: Node, ghost s: seq<Node>)
      returns (outer: Node, intact: bool, ghost x: R.Stranding, ghost s': seq<Node>, ghost news: set<Node>)
      requires Waiting(s, [], []) && Untouched() && s[0] == outer0
      modifies this`pool, this`pts, this`vertices, this`unbridged
      modifies NodeSet(s)`next, NodeSet(s)`prev, pool`prevZ, pool`nextZ
      ensures !intact ==> LostAt(x, pts)
      ensures Valid() && Cached() && pts == old(pts) + Flatten(rings)
      ensures pool == old(pool) + news && fresh(news)
      ensures intact ==> Ring(s') && s'[0] == outer && NodeSet(s') <= pool
      ensures intact ==> |s'| <= |s| + HoleVertices(rings)
      ensures intact ==> Balance() + Area2(Pts(s')) == old(Balance()) + Area2(Pts(s)) + HolePoints(rings)
      ensures Airy(old(pts), rings) ==> intact
    {
      ghost var hs, more;
      var queue;
      queue, hs, news := GatherHoles(rings, s);
      assert fresh(news);
      outer, intact, x, s', more := SortAndJoin(outer0, queue, s, hs);
      assert fresh(more);
      assert fresh(news + more);
      JoinSets(old(pool), news, more);
      news := news + more;
    }

    lemma ScaleFits(a: real, low: real, span: real, size: real)
      requires 0.0 <= a - low <= span <= size && size > 0.0
      ensures 0.0 <= Scaled(a, low, 32767.0 / size) <= 32767.0
    {
      var d := a - low;
      assert d * (32767.0 / size) == (d * 32767.0) / size;
    }

    lemma BoxFits(p: Point, low: Point, high: Point, size: real)
      requires low.x <= p.x <= high.x && low.y <= p.y <= high.y
      requires size == Max(high.x - low.x, high.y - low.y)
      ensures InGrid(Grid(low.x, low.y, if size != 0.0 then 32767.0 / size else 0.0), p)
    {
      if size != 0.0 {
        ScaleFits(p.x, low.x, high.x - low.x, size);
        ScaleFits(p.y, low.y, high.y - low.y, size);
      }
    }

    /** The bounding box of the ring. */
    method RingBox(outer: Node, ghost s: seq<Node>) returns (low: Point, high: Point)
      requires Ring(s) && s[0] == outer
      ensures forall k :: 0 <= k < |s| ==> low.x <= s[k].pt.x <= high.x && low.y <= s[k].pt.y <= high.y
    {
      RingNext(s);
      var p := outer.next;
      low, high := outer.pt, outer.pt;
      ghost var j := 1;
      StepAlong(s, 0);
      while true
        invariant 1 <= j && (j < |s| || j == |s| == 1) && p == s[if j == |s| then 0 else j]
        invariant forall k :: 0 <= k < j ==> low.x <= s[k].pt.x <= high.x && low.y <= s[k].pt.y <= high.y
        decreases |s| - j
      {
        low := Point(Min(low.x, p.pt.x), Min(low.y, p.pt.y));
        high := Point(Max(high.x, p.pt.x), Max(high.y, p.pt.y));
        StepAlong(s, if j == |s| then 0 else j);
        p := p.next;
        j := j + 1;
        if p == outer {
          return;
        }
      }
    }

    /** Sets up the grid of the z-order codes over the ring. */
    method FitGrid(outer: Node, ghost s: seq<Node>)
      requires Valid() && Cached() && !hashing && Ring(s) && s[0] == outer && NodeSet(s) <= pool
      modifies this`grid, this`hashing
      ensures Takes(s) && hashing && Balance() == old(Balance())
    {
      var low, high := RingBox(outer, s);
      var size := Max(high.x - low.x, high.y - low.y);
      grid := Grid(low.x, low.y, if size != 0.0 then 32767.0 / size else 0.0);
      hashing := true;
      forall n | n in pool
        ensures Coded(n)
      {
        assert old(Coded(n));
      }
      forall n | n in s
        ensures InGrid(grid, n.pt)
      {
        var k :| 0 <= k < |s| && s[k] == n;
        BoxFits(n.pt, low, high, size);
      }
    }

    /** Whether the rings have more than 80 vertices: the countdown stops once it is below zero. */
    method CountDown(rings: seq<seq<Point>>) returns (threshold: int)
      ensures threshold < 0 <==> |Flatten(rings)| > 80
    {
      threshold := 80;
      var i := 0;
      while threshold >= 0 && i < |rings|
        invariant 0 <= i <= |rings|
        invariant threshold == 80 - |Flatten(rings[..i])|
      {
        assert rings[..i + 1][..i] == rings[..i];
        threshold := threshold - |rings[i]|;
        i := i + 1;
      }
      FlattenGrows(rings, i);
      assert rings[..|rings|] == rings;
    }

    lemma {:induction false} FlattenGrows(rings: seq<seq<Point>>, i: nat)
      requires i <= |rings|
      ensures |Flatten(rings[..i])| <= |Flatten(rings)|
      decreases |rings| - i
    {
      if i == |rings| {
        assert rings[..i] == rings;
      } else {
        assert rings[..i + 1][..i] == rings[..i];
        FlattenGrows(rings, i + 1);
      }
    }

    /** Forgets an earlier run. */
    method Reset()
      modifies this
      ensures Valid() && Cached() && Untouched() && !hashing
      ensures pool == {} && pts == [] && unbridged == [] && vertices == 0
    {
      indices, vertices, hashing, grid := [], 0, false, Grid(0.0, 0.0, 0.0);
      pool, pts, stuck, unbridged, cuts := {}, [], [], [], [];
    }

    constructor ()
      ensures indices == []
    {
      indices, vertices, hashing, grid := [], 0, false, Grid(0.0, 0.0, 0.0);
      pool, pts, stuck, unbridged, cuts := {}, [], [], [], [];
    }

    lemma {:induction false} FlattenHead(first: seq<Point>, rings: seq<seq<Point>>)
      ensures Flatten([first] + rings) == first + Flatten(rings)
    {
      var all := [first] + rings;
      if rings == [] {
        assert all[..0] == [];
      } else {
        var front := rings[..|rings| - 1];
        assert all[..|all| - 1] == [first] + front;
        FlattenHead(first, front);
      }
    }

    lemma {:induction false} VertexCount(rings: seq<seq<Point>>)
      ensures HoleVertices(rings) == |Flatten(rings)| + 2 * |rings|
    {
      if rings != [] {
        VertexCount(rings[..|rings| - 1]);
      }
    }

    /** The outer ring, unless it has at most two vertices left. */
    method OuterRing(points: seq<Point>) returns (outer: Node?, ghost s: seq<Node>)
      requires Valid() && Cached() && Untouched() && pool == {} && pts == []
      modifies this`pool, this`pts, this`vertices
      ensures Valid() && Cached() && Balance() == old(Balance())
      ensures pts == points
      ensures if outer == null then |points| <= 3 && Area2(points) == 0.0
              else Ring(s) && NodeSet(s) <= pool && s[0] == outer && |s| <= |points|
      ensures outer != null ==> Area2(Pts(s)) == Abs(Area2(points))
      ensures Pts(s) == Listing(points, true)
      ensures fresh(pool)
    {
      ghost var news;
      outer, s, news := LinkedList(points, true);
      assert fresh(news);
      assert pool == news;
      if outer != null {
        TwoNeighbours(s);
        if outer.prev == outer.next {
          Area2Small(Pts(s));
          outer := null;
        }
      }
    }

    /** The outer ring and its holes as one ring. */
    method OneRing(polygon: seq<seq<Point>>)
      returns (outer: Node?, intact: bool, ghost x: R.Stranding, ghost s: seq<Node>)
      requires polygon != [] && Valid() && Cached() && Untouched() && !hashing && pool == {} && pts == []
      modifies this`pool, this`pts, this`vertices, this`unbridged
      ensures !intact ==> LostAt(x, pts)
      ensures Valid() && Cached() && fresh(pool)
      ensures outer == null ==> |polygon[0]| <= 3 && Area2(polygon[0]) == 0.0
      ensures |polygon| == 1 ==> intact && unbridged == old(unbridged)
      ensures outer != null || !intact ==> pts == Flatten(polygon)
      ensures outer != null && intact ==> Ring(s) && s[0] == outer && NodeSet(s) <= pool
      ensures outer != null && intact ==> |s| <= |polygon[0]| + HoleVertices(polygon[1..])
      ensures outer != null && intact ==>
        Balance() + Area2(Pts(s)) == old(Balance()) + Abs(Area2(polygon[0])) + HolePoints(polygon[1..])
      ensures Spacious(polygon) ==> intact
    {
      FirstRing(polygon);
      intact, x := true, R.NOWHERE;
      outer, s := OuterRing(polygon[0]);
      assert fresh(pool) && Valid() && Cached();
      if outer != null && |polygon| > 1 {
        ghost var first, news := pool, {};
        SpaciousAiry(polygon);
        outer, intact, x, s, news := HolesOf(polygon, outer, s);
        assert fresh(first) && fresh(news);
      }
    }

    /** eliminateHoles for the rings after the first. */
    method HolesOf(polygon: seq<seq<Point>>, outer0: Node, ghost s: seq<Node>)
      returns (outer: Node, intact: bool, ghost x: R.Stranding, ghost s': seq<Node>, ghost news: set<Node>)
      requires |polygon| > 1 && Valid() && Cached() && Untouched() && pts == polygon[0]
      requires Ring(s) && s[0] == outer0 && NodeSet(s) <= pool
      modifies this`pool, this`pts, this`vertices, this`unbridged
      modifies NodeSet(s)`next, NodeSet(s)`prev, pool`prevZ, pool`nextZ
      ensures !intact ==> LostAt(x, pts)
      ensures Valid() && Cached() && pts == Flatten(polygon) && pool == old(pool) + news && fresh(news)
      ensures intact ==> Ring(s') && s'[0] == outer && NodeSet(s') <= pool && |s'| <= |s| + HoleVertices(polygon[1..])
      ensures intact ==> Balance() + Area2(Pts(s')) == old(Balance()) + Area2(Pts(s)) + HolePoints(polygon[1..])
      ensures Airy(polygon[0], polygon[1..]) ==> intact
    {
      FirstRing(polygon);
      assert Waiting(s, [], []);
      outer, intact, x, s', news := EliminateHoles(polygon[1..], outer0, s);
    }

    lemma FirstRing(polygon: seq<seq<Point>>)
      requires polygon != []
      ensures Flatten(polygon) == polygon[0] + Flatten(polygon[1..])
      ensures |polygon| == 1 ==> Flatten(polygon) == polygon[0] && HolePoints(polygon[1..]) == 0.0
    {
      FlattenHead(polygon[0], polygon[1..]);
      assert polygon == [polygon[0]] + polygon[1..];
    }

    /** Grid, hashing and the ear clipping itself. */
    method ClipRing(outer: Node, hash: bool, ghost s: seq<Node>)
      requires Valid() && Cached() && !hashing && Ring(s) && s[0] == outer && NodeSet(s) <= pool
      modifies this`indices, this`pool, this`stuck, this`cuts, this`grid, this`hashing
      modifies NodeSet(s)`next, NodeSet(s)`prev, pool`z, pool`prevZ, pool`nextZ
      ensures Valid()
      ensures Balance() == old(Balance()) + Area2(Pts(s))
      ensures |indices| <= |old(indices)| + 3 * Room(|s|)
    {
      if hash {
        FitGrid(outer, s);
      }
      ghost var news := EarcutLinked(outer, 0, s, []);
    }

    lemma RoomBound(polygon: seq<seq<Point>>, size: nat, n: nat)
      requires polygon != [] && size <= |polygon[0]| + HoleVertices(polygon[1..]) && n <= 3 * Room(size)
      ensures n == 0 || n <= 3 * (|Flatten(polygon)| + 2 * (|polygon| - 1) - 2)
    {
      VertexCount(polygon[1..]);
      FirstRing(polygon);
    }

    /** ClipRing, with the bound on what it emits. */
    method ClipBounded(outer: Node, hash: bool, ghost s: seq<Node>, ghost polygon: seq<seq<Point>>)
      requires Valid() && Cached() && !hashing && Ring(s) && s[0] == outer && NodeSet(s) <= pool && indices == []
      requires polygon != [] && |s| <= |polygon[0]| + HoleVertices(polygon[1..])
      modifies this`indices, this`pool, this`stuck, this`cuts, this`grid, this`hashing
      modifies NodeSet(s)`next, NodeSet(s)`prev, pool`z, pool`prevZ, pool`nextZ
      ensures Valid() && Balance() == old(Balance()) + Area2(Pts(s))
      ensures |indices| == 0 || |indices| <= 3 * (|Flatten(polygon)| + 2 * (|polygon| - 1) - 2)
    {
      ClipRing(outer, hash, s);
      RoomBound(polygon, |s|, |indices|);
    }

    lemma SpaciousAiry(polygon: seq<seq<Point>>)
      requires polygon != []
      ensures Spacious(polygon) ==> Airy(polygon[0], polygon[1..])
    {
      FirstRing(polygon);
    }

    lemma SpaciousArea(polygon: seq<seq<Point>>)
      requires polygon != []
      ensures Spacious(polygon) && |polygon[0]| == 3 ==> Area2(polygon[0]) != 0.0
    {
      if Spacious(polygon) && |polygon[0]| == 3 {
        FirstRing(polygon);
        var p, all := polygon[0], Flatten(polygon);
        assert all[0] == p[0] && all[1] == p[1] && all[2] == p[2];
        assert !Flat(all[0], all[1], all[2]);
        assert p[1..][1..] == [p[2]];
        assert p == [p[0], p[1], p[2]];
        TurnIsTri(p[0], p[1], p[2]);
        Area2CutFirst(p[0], [p[1], p[2]]);
        Area2Small([p[1], p[2]]);
        TriIsCrosses(p[0], p[1], p[2]);
        TriIsCrosses(p[2], p[0], p[1]);
      }
    }

    /** A run on a fresh state. */
    method Run(polygon: seq<seq<Point>>) returns (intact: bool, clipped: bool, ghost x: R.Stranding)
      requires polygon != [] && Valid() && Cached() && Untouched() && !hashing && pool == {} && pts == []
      requires unbridged == []
      modifies this
      ensures Valid() && (clipped ==> intact) && (clipped || !intact ==> pts == Flatten(polygon))
      ensures !clipped ==> indices == [] && cuts == [] && stuck == []
      ensures |indices| == 0 || |indices| <= 3 * (|Flatten(polygon)| + 2 * (|polygon| - 1) - 2)
      ensures clipped ==> Balance() == Abs(Area2(polygon[0])) + HolePoints(polygon[1..])
      ensures intact && !clipped ==> |polygon[0]| <= 3 && Area2(polygon[0]) == 0.0
      ensures !intact ==> LostAt(x, pts)
      ensures |polygon| == 1 ==> intact && unbridged == []
      ensures Spacious(polygon) ==> intact && (|polygon[0]| >= 3 ==> clipped)
    {
      assert Balance() == 0.0;
      var threshold := CountDown(polygon);
      var outer;
      ghost var s;
      outer, intact, x, s := OneRing(polygon);
      assert fresh(pool);
      clipped := outer != null && intact;
      SpaciousArea(polygon);
      if clipped {
        ClipBounded(outer, threshold < 0, s, polygon);
      }
    }

    /**
     * The whole run on a polygon: an outer ring followed by its holes. Whenever it comes to the
     * clipping, the emitted triangles, the rings given up, the holes left out and the corners cut
     * off add up to the area of the outer ring less the areas of the holes. It does not come to it
     * only if the outer ring has no more than three points to begin with, two of them left, or if a
     * hole strands the ring, which the second call then never gives back. In general position
     * neither happens.
     */
    method Triangulate(polygon: seq<seq<Point>>) returns (intact: bool, clipped: bool, ghost x: R.Stranding)
      modifies this
      ensures |indices| % 3 == 0 && forall k :: 0 <= k < |indices| ==> indices[k] < |Flatten(polygon)|
      ensures indices == [] || |indices| <= 3 * (|Flatten(polygon)| + 2 * (|polygon| - 1) - 2)
      ensures clipped ==> polygon != [] && intact
      ensures clipped ==>
        Emitted(Flatten(polygon), indices, |indices| / 3) + RingsArea(stuck) + RingsArea(unbridged) + CutsArea(cuts)
        == Abs(Area2(polygon[0])) + HolePoints(polygon[1..])
      ensures clipped && cuts == [] ==> AllPositive(Flatten(polygon), indices)
      ensures clipped && cuts == [] && stuck == [] && unbridged == [] ==>
        Covered(Flatten(polygon), indices, |indices| / 3) == Abs(Area2(polygon[0])) + HolePoints(polygon[1..])
      ensures clipped ==> forall k :: 0 <= k < |stuck| ==> GivenUp(stuck[k])
      ensures clipped ==> forall k :: 0 <= k < |cuts| ==> Crossed(cuts[k], Flatten(polygon))
      ensures !clipped ==> indices == [] && cuts == [] && stuck == []
      ensures intact && !clipped ==> polygon == [] || (|polygon[0]| <= 3 && Area2(polygon[0]) == 0.0)
      ensures !intact ==> LostAt(x, Flatten(polygon))
      ensures |polygon| <= 1 ==> intact && unbridged == []
      ensures polygon != [] && Spacious(polygon) ==> intact && (|polygon[0]| >= 3 ==> clipped)
    {
      Reset();
      intact, clipped, x := true, false, R.NOWHERE;
      if polygon == [] {
        return;
      }
      intact, clipped, x := Run(polygon);
      if clipped && cuts == [] {
        CoveredIsEmitted(pts, indices, |indices| / 3);
      }
    }
  }
}
