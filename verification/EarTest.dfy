/** The ear test on the ring, and the same test through the z-order list. */
module EarTest {
  import opened Distinctness
  import opened Plane
  import opened ZOrder
  import opened EarGeometry
  import opened Rings

  /** Node p of the ring does not keep s[0] from being an ear. */
  ghost predicate Clear(s: seq<Node>, p: Node)
    requires |s| >= 3
  {
    forall i :: 2 <= i < |s| - 1 && s[i] == p ==> !Blocks(Pts(s), i)
  }

  /** isEar: walks the ring from the vertex after next to the one before prev. */
  method IsEar(ear: Node, ghost s: seq<Node>) returns (r: bool)
    requires Ring(s) && s[0] == ear && |s| >= 3
    ensures r == Ear(Pts(s))
  {
    ghost var n := |s|;
    RingNext(s);
    var a, b, c := ear.prev, ear, ear.next;
    if Turn(a.pt, b.pt, c.pt) >= 0.0 {
      return false;
    }
    assert s[1].next == s[2 % n] by { assert n == 3 ==> s[2].next == s[0]; }
    var p := ear.next.next;
    ghost var j := 2;
    while p != ear.prev
      invariant 2 <= j <= n - 1 && p == s[j]
      invariant forall i :: 2 <= i < j ==> !Blocks(Pts(s), i)
      decreases n - j
    {
      assert p.prev == s[j - 1] && p.next == s[j + 1];
      if ContainsPoint(a.pt, b.pt, c.pt, p.pt) && Turn(p.prev.pt, p.pt, p.next.pt) >= 0.0 {
        assert Blocks(Pts(s), j);
        return false;
      }
      p := p.next;
      j := j + 1;
    }
    return true;
  }

  /** The condition under which isEarHashed gives up at node p. */
  predicate Obstructs(a: Node, b: Node, c: Node, p: Node)
    requires p.prev != null && p.next != null
    reads p`prev, p`next
  {
    && p != a && p != c
    && ContainsPoint(a.pt, b.pt, c.pt, p.pt)
    && Turn(p.prev.pt, p.pt, p.next.pt) >= 0.0
  }

  lemma InRing(s: seq<Node>, p: Node) returns (i: nat)
    requires Ring(s) && p in NodeSet(s) && |s| >= 3
    ensures i < |s| && s[i] == p && p.prev != null && p.next != null
    ensures 0 < i < |s| - 1 ==> p.prev == s[i - 1] && p.next == s[i + 1]
    ensures s[0].prev == s[|s| - 1] && s[0].next == s[1]
  {
    RingNext(s);
    i :| 0 <= i < |s| && s[i] == p;
    assert i > 0 ==> s[i].prev == s[i - 1];
    assert i < |s| - 1 ==> s[i].next == s[i + 1];
  }

  /** At a node other than the ear itself, giving up is right exactly when the node blocks. */
  lemma ObstructsIsBlocks(s: seq<Node>, p: Node)
    requires Ring(s) && |s| >= 3 && p in NodeSet(s) && p != s[0]
    requires p.prev != null && p.next != null
    ensures Obstructs(s[|s| - 1], s[0], s[1], p) <==> !Clear(s, p)
  {
    var i := InRing(s, p);
    assert forall j :: 0 <= j < |s| && j != i ==> s[j] != p;
  }

  /** A node whose code is outside the codes of the triangle's box corners is clear. */
  lemma FarCodeClear(g: Grid, s: seq<Node>, p: Node)
    requires |s| >= 3 && OnGrid(g, s) && g.invSize >= 0.0
    requires Turn(s[|s| - 1].pt, s[0].pt, s[1].pt) < 0.0
    requires InGrid(g, LowCorner(s[|s| - 1].pt, s[0].pt, s[1].pt))
    requires InGrid(g, HighCorner(s[|s| - 1].pt, s[0].pt, s[1].pt))
    requires || Key(g, p) < ZCode(g, LowCorner(s[|s| - 1].pt, s[0].pt, s[1].pt))
             || Key(g, p) > ZCode(g, HighCorner(s[|s| - 1].pt, s[0].pt, s[1].pt))
    ensures Clear(s, p)
  {
    forall i | 2 <= i < |s| - 1 && s[i] == p
      ensures !Blocks(Pts(s), i)
    {
      if Blocks(Pts(s), i) {
        CodesEnclose(g, s[|s| - 1].pt, s[0].pt, s[1].pt, p.pt);
      }
    }
  }

  lemma AllClear(s: seq<Node>, zs: seq<Node>, m: nat)
    requires |s| >= 3 && NodeSet(zs) == NodeSet(s) && m < |zs| && zs[m] == s[0]
    requires Distinct(s) && Turn(s[|s| - 1].pt, s[0].pt, s[1].pt) < 0.0
    requires forall k :: 0 <= k < |zs| && k != m ==> Clear(s, zs[k])
    ensures Ear(Pts(s))
  {
    forall i | 2 <= i < |s| - 1
      ensures !Blocks(Pts(s), i)
    {
      assert s[i] in NodeSet(s);
      var k :| 0 <= k < |zs| && zs[k] == s[i];
    }
  }

  /** What both scans of isEarHashed start from: a proper corner, listed in z-order at position m. */
  ghost predicate Scanning(g: Grid, s: seq<Node>, zs: seq<Node>, m: nat)
    reads s`next, s`prev, zs`prevZ, zs`nextZ, zs`z
  {
    && Ring(s) && |s| >= 3
    && ZListed(g, zs, s) && ZStored(g, zs) && OnGrid(g, s) && g.invSize >= 0.0
    && m < |zs| && zs[m] == s[0]
    && Turn(s[|s| - 1].pt, s[0].pt, s[1].pt) < 0.0
    && InGrid(g, LowCorner(s[|s| - 1].pt, s[0].pt, s[1].pt))
    && InGrid(g, HighCorner(s[|s| - 1].pt, s[0].pt, s[1].pt))
  }

  lemma ScannedNode(g: Grid, s: seq<Node>, zs: seq<Node>, m: nat, k: nat)
    requires Scanning(g, s, zs, m) && k < |zs| && k != m
    ensures zs[k].prev != null && zs[k].next != null && zs[k].z == Key(g, zs[k])
    ensures Obstructs(s[|s| - 1], s[0], s[1], zs[k]) ==> !Ear(Pts(s))
    ensures !Obstructs(s[|s| - 1], s[0], s[1], zs[k]) ==> Clear(s, zs[k])
  {
    assert zs[k] in NodeSet(zs);
    assert zs[k] != zs[m];
    var _ := InRing(s, zs[k]);
    ObstructsIsBlocks(s, zs[k]);
  }

  method ScanForward(a: Node, b: Node, c: Node, maxZ: nat, ghost g: Grid, ghost s: seq<Node>, ghost zs: seq<Node>,
                     ghost m: nat)
    returns (clear: bool)
    requires Scanning(g, s, zs, m) && a == s[|s| - 1] && b == s[0] && c == s[1]
    requires maxZ == ZCode(g, HighCorner(a.pt, b.pt, c.pt))
    ensures clear ==> forall k :: m < k < |zs| ==> Clear(s, zs[k])
    ensures !clear ==> !Ear(Pts(s))
  {
    var p := b.nextZ;
    ghost var j := m + 1;
    while p != null && p.z <= maxZ
      invariant m < j <= |zs| && p == (if j < |zs| then zs[j] else null)
      invariant forall k :: m < k < j ==> Clear(s, zs[k])
      decreases |zs| - j
    {
      ScannedNode(g, s, zs, m, j);
      if Obstructs(a, b, c, p) {
        return false;
      }
      p := p.nextZ;
      j := j + 1;
    }
    forall k | j <= k < |zs|
      ensures Clear(s, zs[k])
    {
      ScannedNode(g, s, zs, m, j);
      FarCodeClear(g, s, zs[k]);
    }
    return true;
  }

  method ScanBackward(a: Node, b: Node, c: Node, minZ: nat, ghost g: Grid, ghost s: seq<Node>, ghost zs: seq<Node>,
                      ghost m: nat)
    returns (clear: bool)
    requires Scanning(g, s, zs, m) && a == s[|s| - 1] && b == s[0] && c == s[1]
    requires minZ == ZCode(g, LowCorner(a.pt, b.pt, c.pt))
    ensures clear ==> forall k :: 0 <= k < m ==> Clear(s, zs[k])
    ensures !clear ==> !Ear(Pts(s))
  {
    var p := b.prevZ;
    ghost var j := m;
    while p != null && p.z >= minZ
      invariant 0 <= j <= m && p == (if j > 0 then zs[j - 1] else null)
      invariant forall k :: j <= k < m ==> Clear(s, zs[k])
      decreases j
    {
      ScannedNode(g, s, zs, m, j - 1);
      if Obstructs(a, b, c, p) {
        return false;
      }
      p := p.prevZ;
      j := j - 1;
    }
    forall k | 0 <= k < j
      ensures Clear(s, zs[k])
    {
      ScannedNode(g, s, zs, m, j - 1);
      FarCodeClear(g, s, zs[k]);
    }
    return true;
  }

  /** isEarHashed: walks the z-order list both ways from the ear, as far as the codes can matter. */
  method IsEarHashed(ear: Node, g: Grid, ghost s: seq<Node>, ghost zs: seq<Node>) returns (r: bool)
    requires Ring(s) && s[0] == ear && |s| >= 3
    requires ZListed(g, zs, s) && ZStored(g, zs) && OnGrid(g, s) && g.invSize >= 0.0
    ensures r == Ear(Pts(s))
  {
    RingNext(s);
    var a, b, c := ear.prev, ear, ear.next;
    if Turn(a.pt, b.pt, c.pt) >= 0.0 {
      return false;
    }
    CornersOnGrid(g, a.pt, b.pt, c.pt);
    var minZ := ZCode(g, LowCorner(a.pt, b.pt, c.pt));
    var maxZ := ZCode(g, HighCorner(a.pt, b.pt, c.pt));
    assert ear in NodeSet(s);
    ghost var m :| 0 <= m < |zs| && zs[m] == ear;
    r := ScanForward(a, b, c, maxZ, g, s, zs, m);
    if !r {
      return;
    }
    r := ScanBackward(a, b, c, minZ, g, s, zs, m);
    if r {
      AllClear(s, zs, m);
    }
  }
}
