/** The rings of the holes that wait to be joined to the outer ring. */
module Holes {
  import opened Distinctness
  import opened Plane
  import opened Rings

  ghost function HoleNodes(hs: seq<seq<Node>>): set<Node> {
    set h, n | h in hs && n in h :: n
  }

  /** Every listing is a whole ring, and no two of them share a node. */
  ghost predicate HoleRings(hs: seq<seq<Node>>)
    reads HoleNodes(hs)`next, HoleNodes(hs)`prev
  {
    && Distinct(hs)
    && (forall h :: h in hs ==> NodeSet(h) <= HoleNodes(hs) && Ring(h))
    && (forall g, h :: g in hs && h in hs && g != h ==> NodeSet(g) !! NodeSet(h))
  }

  ghost function HolesArea(hs: seq<seq<Node>>): real {
    if hs == [] then 0.0 else Area2(Pts(hs[0])) + HolesArea(hs[1..])
  }

  /** What the holes can add to the outer ring: their nodes and two for each bridge. */
  ghost function HolesSize(hs: seq<seq<Node>>): nat {
    if hs == [] then 0 else |hs[0]| + 2 + HolesSize(hs[1..])
  }

  ghost predicate Heads(queue: seq<Node>, hs: seq<seq<Node>>) {
    |queue| == |hs| && forall k :: 0 <= k < |hs| ==> hs[k] != [] && queue[k] == hs[k][0]
  }

  ghost predicate SortedByX(queue: seq<Node>) {
    forall i, j :: 0 <= i < j < |queue| ==> queue[i].pt.x <= queue[j].pt.x
  }

  lemma {:induction false} SumsAppend(g: seq<seq<Node>>, h: seq<seq<Node>>)
    ensures HolesArea(g + h) == HolesArea(g) + HolesArea(h)
    ensures HolesSize(g + h) == HolesSize(g) + HolesSize(h)
  {
    if g == [] {
      assert g + h == h;
    } else {
      assert (g + h)[1..] == g[1..] + h;
      SumsAppend(g[1..], h);
    }
  }

  lemma SumsAt(hs: seq<seq<Node>>, k: nat)
    requires k < |hs|
    ensures HolesArea(hs) == Area2(Pts(hs[k])) + HolesArea(Del(hs, k))
    ensures HolesSize(hs) == |hs[k]| + 2 + HolesSize(Del(hs, k))
    ensures multiset(hs) == multiset{hs[k]} + multiset(Del(hs, k))
  {
    assert hs == hs[..k] + ([hs[k]] + hs[k + 1..]);
    SumsAppend(hs[..k], [hs[k]] + hs[k + 1..]);
    assert ([hs[k]] + hs[k + 1..])[1..] == hs[k + 1..];
    SumsAppend(hs[..k], hs[k + 1..]);
    assert Del(hs, k) == hs[..k] + hs[k + 1..];
  }

  lemma Cancel<T>(x: T, a: multiset<T>, b: multiset<T>)
    requires multiset{x} + a == multiset{x} + b
    ensures a == b
  {
    assert a == (multiset{x} + a) - multiset{x};
    assert b == (multiset{x} + b) - multiset{x};
  }

  lemma {:induction false} SumsPermute(g: seq<seq<Node>>, h: seq<seq<Node>>)
    requires multiset(g) == multiset(h)
    ensures HolesArea(g) == HolesArea(h) && HolesSize(g) == HolesSize(h)
    decreases |g|
  {
    if g == [] {
      assert |multiset(h)| == 0;
      assert h == [];
    } else {
      var first := g[0];
      assert first in multiset(g);
      var k :| 0 <= k < |h| && h[k] == first;
      SumsAt(h, k);
      SumsAt(g, 0);
      Cancel(first, multiset(Del(g, 0)), multiset(Del(h, k)));
      SumsPermute(Del(g, 0), Del(h, k));
    }
  }

  lemma DistinctCounts(hs: seq<seq<Node>>)
    ensures Distinct(hs) <==> forall h :: multiset(hs)[h] <= 1
  {
    if Distinct(hs) {
      forall h
        ensures multiset(hs)[h] <= 1
      {
        AtMostOnce(hs, h);
      }
    } else {
      var i, j :| 0 <= i < j < |hs| && hs[i] == hs[j];
      assert hs == hs[..j] + [hs[j]] + hs[j + 1..];
      assert hs[i] in hs[..j];
      assert multiset(hs)[hs[j]] >= 2;
    }
  }

  lemma {:induction false} AtMostOnce(hs: seq<seq<Node>>, h: seq<Node>)
    requires Distinct(hs)
    ensures multiset(hs)[h] <= 1
  {
    if hs != [] {
      assert hs == [hs[0]] + hs[1..];
      AtMostOnce(hs[1..], h);
      if hs[0] == h {
        assert h !in hs[1..];
      }
    }
  }

  lemma HoleNodesPermute(g: seq<seq<Node>>, h: seq<seq<Node>>)
    requires multiset(g) == multiset(h)
    ensures HoleNodes(g) == HoleNodes(h)
    ensures forall r :: r in g <==> r in h
  {
    assert forall r :: r in g <==> r in multiset(g);
    assert forall r :: r in h <==> r in multiset(h);
  }

  lemma RingsPermute(g: seq<seq<Node>>, h: seq<seq<Node>>)
    requires multiset(g) == multiset(h) && HoleRings(g)
    ensures HoleRings(h)
  {
    HoleNodesPermute(g, h);
    DistinctCounts(g);
    DistinctCounts(h);
  }

  /** The position of a node with the least x. */
  method LeastX(queue: seq<Node>) returns (k: nat)
    requires queue != []
    ensures k < |queue| && forall i :: 0 <= i < |queue| ==> queue[k].pt.x <= queue[i].pt.x
  {
    k := 0;
    for i := 1 to |queue|
      invariant k < |queue| && forall j :: 0 <= j < i ==> queue[k].pt.x <= queue[j].pt.x
    {
      if queue[i].pt.x < queue[k].pt.x {
        k := i;
      }
    }
  }

  lemma HeadsMove(out: seq<Node>, g: seq<seq<Node>>, rest: seq<Node>, h: seq<seq<Node>>, k: nat)
    requires Heads(out, g) && Heads(rest, h) && k < |rest|
    ensures Heads(out + [rest[k]], g + [h[k]]) && Heads(Del(rest, k), Del(h, k))
  {
  }

  /** Nothing in `out` lies right of anything in `rest`. */
  ghost predicate Before(out: seq<Node>, rest: seq<Node>) {
    forall i, j :: 0 <= i < |out| && 0 <= j < |rest| ==> out[i].pt.x <= rest[j].pt.x
  }

  lemma SortedMove(out: seq<Node>, rest: seq<Node>, k: nat)
    requires SortedByX(out) && Before(out, rest) && k < |rest|
    requires forall i :: 0 <= i < |rest| ==> rest[k].pt.x <= rest[i].pt.x
    ensures SortedByX(out + [rest[k]]) && Before(out + [rest[k]], Del(rest, k))
  {
  }

  lemma ElementsMove(g: seq<seq<Node>>, h: seq<seq<Node>>, k: nat, all: multiset<seq<Node>>)
    requires multiset(g) + multiset(h) == all && k < |h|
    ensures multiset(g + [h[k]]) + multiset(Del(h, k)) == all
  {
    SumsAt(h, k);
  }

  /** Sorts the hole queue from left to right; the rings move with their nodes. */
  method SortQueue(queue: seq<Node>, ghost hs: seq<seq<Node>>) returns (sorted: seq<Node>, ghost hs': seq<seq<Node>>)
    requires Heads(queue, hs)
    ensures Heads(sorted, hs') && SortedByX(sorted) && multiset(hs') == multiset(hs)
  {
    var rest := queue;
    sorted, hs' := [], [];
    ghost var left, all := hs, multiset(hs);
    while rest != []
      invariant Heads(rest, left) && Heads(sorted, hs')
      invariant SortedByX(sorted) && Before(sorted, rest)
      invariant multiset(hs') + multiset(left) == all
      decreases |rest|
    {
      var k := LeastX(rest);
      HeadsMove(sorted, hs', rest, left, k);
      SortedMove(sorted, rest, k);
      ElementsMove(hs', left, k, all);
      hs', left := hs' + [left[k]], Del(left, k);
      sorted, rest := sorted + [rest[k]], rest[..k] + rest[k + 1..];
    }
    assert left == [];
  }

  lemma HoleNodesAppend(hs: seq<seq<Node>>, h: seq<Node>)
    ensures HoleNodes(hs + [h]) == HoleNodes(hs) + NodeSet(h)
  {
    assert forall r :: r in hs + [h] <==> r in hs || r == h;
  }

  lemma RingsAppend(hs: seq<seq<Node>>, h: seq<Node>)
    requires HoleRings(hs) && Ring(h) && NodeSet(h) !! HoleNodes(hs)
    ensures HoleRings(hs + [h])
  {
    HoleNodesAppend(hs, h);
    assert h[0] in NodeSet(h);
    assert forall r :: r in hs + [h] <==> r in hs || r == h;
  }

  lemma HoleNodesSplit(hs: seq<seq<Node>>)
    requires hs != []
    ensures HoleNodes(hs) == NodeSet(hs[0]) + HoleNodes(hs[1..])
  {
    assert hs == [hs[0]] + hs[1..];
    assert forall r :: r in hs <==> r == hs[0] || r in hs[1..];
  }

  /** The first ring and the others, apart. */
  lemma RingsSplit(hs: seq<seq<Node>>)
    requires HoleRings(hs) && hs != []
    ensures Ring(hs[0]) && HoleRings(hs[1..]) && NodeSet(hs[0]) !! HoleNodes(hs[1..])
  {
    HoleNodesSplit(hs);
    assert hs[0] in hs;
    assert forall r :: r in hs[1..] ==> r in hs && r != hs[0];
    forall n | n in HoleNodes(hs[1..])
      ensures n !in NodeSet(hs[0])
    {
      var h :| h in hs[1..] && n in h;
      assert n in NodeSet(h);
    }
    forall h | h in hs[1..]
      ensures NodeSet(h) <= HoleNodes(hs[1..]) && Ring(h)
    {
    }
  }
}
