/** Tracing the border of a patch of triangles into closed loops. */
module BoundaryLoops {
  import opened Cyclic
  import opened Distinctness
  import opened Meshes
  import opened HalfEdges

  type HalfEdgeMap = map<Edge, nat>

  /** The faces of a group. */
  ghost function Faces(faces: seq<Face>, group: seq<nat>): (r: seq<Face>)
    requires forall i :: 0 <= i < |group| ==> group[i] < |faces|
    ensures |r| == |group|
  {
    seq(|group|, i requires 0 <= i < |group| => faces[group[i]])
  }

  /** The loop that enters the directed edges of a group. */
  method CollectHalfEdges(faces: seq<Face>, group: seq<nat>) returns (m: HalfEdgeMap)
    requires forall i :: 0 <= i < |group| ==> group[i] < |faces|
    ensures m.Keys == AllSides(Faces(faces, group))
  {
    m := map[];
    var i := 0;
    while i < |group|
      invariant 0 <= i <= |group|
      invariant m.Keys == AllSides(Faces(faces, group)[..i])
    {
      assert Faces(faces, group)[..i + 1][..i] == Faces(faces, group)[..i];
      var f := faces[group[i]];
      m := m[Edge(f.a, f.b) := group[i]];
      m := m[Edge(f.b, f.c) := group[i]];
      m := m[Edge(f.c, f.a) := group[i]];
      i := i + 1;
    }
    assert Faces(faces, group)[..i] == Faces(faces, group);
  }

  /** order lists the keys of a hash map in some order. */
  ghost predicate Enumerates<T(!new)>(order: seq<T>, keys: set<T>) {
    Distinct(order) && forall k :: k in order <==> k in keys
  }

  /** The map follows the border edges among the first i of a list. */
  ghost predicate FollowsFirst(next: map<nat, nat>, h: set<Edge>, order: seq<Edge>, i: nat)
    requires i <= |order|
  {
    forall u: nat, v: nat :: (u in next && next[u] == v) <==> Edge(u, v) in Border(h) && Edge(u, v) in order[..i]
  }

  /**
   * The loop that builds boundary_next, in whatever order the hash map yields its edges: the map
   * of the border, or nothing when two border edges begin at one vertex.
   */
  method BoundaryNext(halfEdges: HalfEdgeMap, order: seq<Edge>) returns (next: map<nat, nat>)
    requires Enumerates(order, halfEdges.Keys)
    ensures if Unbranched(halfEdges.Keys) then Follows(next, halfEdges.Keys) else next == map[]
  {
    ghost var h := halfEdges.Keys;
    next := map[];
    var i := 0;
    while i < |order|
      invariant 0 <= i <= |order| && FollowsFirst(next, h, order, i)
    {
      var he := order[i];
      assert he in h && order[..i + 1] == order[..i] + [he];
      if Reverse(he) !in halfEdges {
        assert he in Border(h);
        if he.from in next {
          assert Edge(he.from, next[he.from]) in Border(h) && Edge(he.from, next[he.from]) in order[..i];
          assert Edge(he.from, next[he.from]) != he;
          return map[];
        }
        next := next[he.from := he.to];
      }
      i := i + 1;
    }
    assert order[..i] == order;
    forall e, g | e in Border(h) && g in Border(h) && e.from == g.from
      ensures e == g
    {
      assert Edge(e.from, e.to) in order && Edge(g.from, g.to) in order;
    }
  }

  /** The map leads from position j of the loop to the next position, and from the last to the first. */
  ghost predicate Leads(next: map<nat, nat>, loop: seq<nat>, j: int) {
    0 <= j < |loop| && loop[j] in next && next[loop[j]] == loop[Succ(j, |loop|)]
  }

  /** The loop goes round along the map, without repetition. */
  ghost predicate Cycle(next: map<nat, nat>, loop: seq<nat>) {
    |loop| > 0 && Distinct(loop) && forall j :: 0 <= j < |loop| ==> Leads(next, loop, j)
  }

  /** The loop so far: it follows the map and stays outside the vertices visited before. */
  ghost predicate Trail(next: map<nat, nat>, loop: seq<nat>, before: set<nat>) {
    && Distinct(loop)
    && (forall j :: 0 <= j < |loop| ==> loop[j] !in before)
    && (forall j :: 0 <= j < |loop| - 1 ==> Leads(next, loop, j))
  }

  ghost function Members(s: seq<nat>): set<nat> {
    set x | x in s
  }

  /** The visited vertices are whole cycles of the map. */
  ghost predicate Whole(next: map<nat, nat>, visited: set<nat>) {
    forall k :: k in next ==> (k in visited <==> next[k] in visited)
  }

  /** Where a permutation is followed, only the first vertex can come up again. */
  lemma BackAtFront(next: map<nat, nat>, loop: seq<nat>, before: set<nat>, cur: nat)
    requires Permutes(next) && Whole(next, before) && Trail(next, loop, before) && |loop| > 0
    requires loop[|loop| - 1] in next && cur == next[loop[|loop| - 1]] && cur in before + Members(loop)
    ensures cur == loop[0]
  {
    var last := |loop| - 1;
    assert cur !in before;
    var j :| 0 <= j < |loop| && loop[j] == cur;
    assert j > 0 ==> Leads(next, loop, j - 1);
  }

  lemma TrailGrows(next: map<nat, nat>, loop: seq<nat>, before: set<nat>, cur: nat)
    requires Trail(next, loop, before) && cur !in before + Members(loop)
    requires |loop| > 0 ==> loop[|loop| - 1] in next && cur == next[loop[|loop| - 1]]
    ensures Trail(next, loop + [cur], before) && Members(loop + [cur]) == Members(loop) + {cur}
  {
    var more := loop + [cur];
    assert forall j :: 0 <= j < |loop| ==> loop[j] in Members(loop);
    forall j | 0 <= j < |more| - 1
      ensures Leads(next, more, j)
    {
      assert j < |loop| - 1 ==> Leads(next, loop, j);
    }
  }

  lemma TrailCloses(next: map<nat, nat>, loop: seq<nat>, before: set<nat>)
    requires Trail(next, loop, before) && |loop| > 0
    requires loop[|loop| - 1] in next && next[loop[|loop| - 1]] == loop[0]
    ensures Cycle(next, loop)
  {
    assert Leads(next, loop, |loop| - 1);
  }

  /**
   * The loop that follows boundary_next from one vertex. A valid loop is a cycle of the map; along
   * a permutation every loop is valid.
   */
  method TraceLoop(next: map<nat, nat>, start: nat, before: set<nat>, maxSize: nat)
    returns (loop: seq<nat>, valid: bool, visited: set<nat>)
    requires start in next && start !in before
    ensures visited == before + Members(loop)
    ensures valid ==> Cycle(next, loop) && loop[0] == start && Trail(next, loop, before)
    ensures Permutes(next) && Whole(next, before) && (forall k :: k in next ==> k < maxSize) ==> valid
  {
    loop, valid, visited := [], true, before;
    var cur := start;
    while true
      invariant valid && visited == before + Members(loop) && Trail(next, loop, before)
      invariant loop == [] ==> cur == start
      invariant |loop| > 0 ==> loop[0] == start && loop[|loop| - 1] in next && cur == next[loop[|loop| - 1]]
      invariant Permutes(next) ==> cur in next
      invariant |loop| <= maxSize
      decreases maxSize - |loop|
    {
      assert Permutes(next) ==> Inside(next, cur);
      if cur in visited {
        if loop != [] && cur == loop[0] {
          TrailCloses(next, loop, before);
          return;
        }
        NotBack(next, loop, before, cur);
        valid := false;
        return;
      }
      TrailGrows(next, loop, before, cur);
      visited := visited + {cur};
      loop := loop + [cur];
      if cur !in next {
        valid := false;
        return;
      }
      cur := next[cur];
      if |loop| > maxSize {
        LoopFits(next, loop, before, maxSize);
        valid := false;
        return;
      }
    }
  }

  /** Coming upon a visited vertex that is not the first one shows that the map is no permutation. */
  lemma NotBack(next: map<nat, nat>, loop: seq<nat>, before: set<nat>, cur: nat)
    requires Trail(next, loop, before) && |loop| > 0 && cur != loop[0]
    requires loop[|loop| - 1] in next && cur == next[loop[|loop| - 1]] && cur in before + Members(loop)
    ensures !(Permutes(next) && Whole(next, before))
  {
    if Permutes(next) && Whole(next, before) {
      BackAtFront(next, loop, before, cur);
    }
  }

  lemma LoopFits(next: map<nat, nat>, loop: seq<nat>, before: set<nat>, n: nat)
    requires Trail(next, loop, before) && |loop| > 0 && loop[|loop| - 1] in next
    ensures (forall k :: k in next ==> k < n) ==> |loop| <= n
  {
    if forall k :: k in next ==> k < n {
      forall j | 0 <= j < |loop|
        ensures loop[j] < n
      {
        assert j < |loop| - 1 ==> Leads(next, loop, j);
      }
      DistinctBound(loop, n);
    }
  }

  /** The loops are disjoint cycles of at least three vertices, and every key is on one of them. */
  ghost predicate Decomposes(next: map<nat, nat>, loops: seq<seq<nat>>) {
    && SeparateLoops(next, loops)
    && forall k :: k in next <==> OnLoop(loops, k)
  }

  ghost predicate SeparateLoops(next: map<nat, nat>, loops: seq<seq<nat>>) {
    && (forall i :: 0 <= i < |loops| ==> Cycle(next, loops[i]) && |loops[i]| >= 3)
    && (forall i, j :: 0 <= i < j < |loops| ==> Members(loops[i]) !! Members(loops[j]))
  }

  ghost predicate OnLoop(loops: seq<seq<nat>>, k: nat) {
    exists i :: 0 <= i < |loops| && k in loops[i]
  }

  /** The visited vertices are exactly those on the loops. */
  ghost predicate Visits(loops: seq<seq<nat>>, visited: set<nat>) {
    forall k :: k in visited <==> OnLoop(loops, k)
  }

  lemma LoopsGrow(next: map<nat, nat>, loops: seq<seq<nat>>, visited: set<nat>, loop: seq<nat>)
    requires SeparateLoops(next, loops) && Visits(loops, visited)
    requires Cycle(next, loop) && |loop| >= 3 && Trail(next, loop, visited)
    ensures SeparateLoops(next, loops + [loop])
  {
    forall i | 0 <= i < |loops|
      ensures Members(loops[i]) !! Members(loop)
    {
      forall k | k in loops[i]
        ensures k !in loop
      {
        assert OnLoop(loops, k);
      }
    }
  }

  lemma VisitsGrow(loops: seq<seq<nat>>, visited: set<nat>, loop: seq<nat>)
    requires Visits(loops, visited)
    ensures Visits(loops + [loop], visited + Members(loop))
  {
    var more := loops + [loop];
    forall k
      ensures k in visited + Members(loop) <==> OnLoop(more, k)
    {
      if OnLoop(loops, k) {
        var i :| 0 <= i < |loops| && k in loops[i];
        assert more[i] == loops[i];
      }
      if k in loop {
        assert k in more[|loops|];
      }
    }
  }

  lemma WholeGrows(next: map<nat, nat>, visited: set<nat>, loop: seq<nat>)
    requires Whole(next, visited) && Injective(next) && Cycle(next, loop)
    ensures Whole(next, visited + Members(loop))
  {
    forall k | k in next
      ensures k in loop <==> next[k] in loop
    {
      if k in loop {
        var j :| 0 <= j < |loop| && loop[j] == k;
        assert Leads(next, loop, j);
      }
      if next[k] in loop {
        var j :| 0 <= j < |loop| && loop[j] == next[k];
        var p := if j == 0 then |loop| - 1 else j - 1;
        assert Leads(next, loop, p);
      }
    }
  }

  /** A permutation without short cycles has no cycle of one or two vertices. */
  lemma LongLoop(next: map<nat, nat>, loop: seq<nat>)
    requires Cycle(next, loop) && NoShortCycle(next)
    ensures |loop| >= 3
  {
    assert Leads(next, loop, 0) && GoesOn(next, loop[0]);
    assert |loop| == 2 ==> Leads(next, loop, 1);
  }

  /**
   * The loop over all border vertices, in whatever order the hash map yields them: the border
   * falls apart into closed loops exactly when it is a permutation without short cycles.
   */
  method TraceLoops(next: map<nat, nat>, order: seq<nat>, maxSize: nat) returns (loops: seq<seq<nat>>)
    requires Enumerates(order, next.Keys) && forall k :: k in next ==> k < maxSize
    ensures loops != [] ==> Decomposes(next, loops)
    ensures loops != [] <==> next != map[] && Permutes(next) && NoShortCycle(next)
  {
    loops := [];
    var visited: set<nat> := {};
    var i := 0;
    while i < |order|
      invariant 0 <= i <= |order|
      invariant SeparateLoops(next, loops) && Visits(loops, visited)
      invariant Permutes(next) ==> Whole(next, visited)
      invariant forall k :: k in order[..i] ==> k in visited
      invariant i > 0 <==> loops != []
    {
      var start := order[i];
      assert start in next && order[..i + 1] == order[..i] + [start];
      if start !in visited {
        var loop, valid;
        ghost var before := visited;
        loop, valid, visited := TraceLoop(next, start, visited, maxSize);
        if !valid || |loop| < 3 {
          if valid && NoShortCycle(next) {
            LongLoop(next, loop);
          }
          return [];
        }
        LoopsGrow(next, loops, before, loop);
        VisitsGrow(loops, before, loop);
        if Permutes(next) {
          WholeGrows(next, before, loop);
        }
        loops := loops + [loop];
        assert start in loop;
      } else {
        assert OnLoop(loops, start);
      }
      i := i + 1;
    }
    assert order[..i] == order;
    if order != [] {
      assert order[0] in next;
      AllOnLoops(next, loops, visited, order);
      LoopsPermute(next, loops);
    } else {
      assert next.Keys == {};
    }
  }

  lemma AllOnLoops(next: map<nat, nat>, loops: seq<seq<nat>>, visited: set<nat>, order: seq<nat>)
    requires SeparateLoops(next, loops) && Visits(loops, visited)
    requires Enumerates(order, next.Keys) && forall k :: k in order ==> k in visited
    ensures Decomposes(next, loops)
  {
    forall k
      ensures k in next <==> OnLoop(loops, k)
    {
      if k in next {
        assert k in order;
      }
      if OnLoop(loops, k) {
        var i :| 0 <= i < |loops| && k in loops[i];
        var j :| 0 <= j < |loops[i]| && loops[i][j] == k;
        assert Leads(next, loops[i], j);
      }
    }
  }

  /** The place of a key on the loops. */
  lemma Place(next: map<nat, nat>, loops: seq<seq<nat>>, k: nat) returns (i: nat, j: nat)
    requires Decomposes(next, loops) && k in next
    ensures i < |loops| && j < |loops[i]| && loops[i][j] == k
    ensures next[k] == loops[i][Succ(j, |loops[i]|)]
  {
    assert OnLoop(loops, k);
    i :| 0 <= i < |loops| && k in loops[i];
    j :| 0 <= j < |loops[i]| && loops[i][j] == k;
    assert Leads(next, loops[i], j);
  }

  lemma CycleGoesOn(next: map<nat, nat>, loop: seq<nat>, j: nat)
    requires Cycle(next, loop) && |loop| >= 3 && j < |loop|
    ensures Inside(next, loop[j]) && GoesOn(next, loop[j])
  {
    assert Leads(next, loop, j) && Leads(next, loop, Succ(j, |loop|));
  }

  lemma CycleInjective(next: map<nat, nat>, loop: seq<nat>, j: nat, k: nat)
    requires Cycle(next, loop) && j < |loop| && k < |loop| && loop[j] in next && loop[k] in next
    requires next[loop[j]] == next[loop[k]]
    ensures j == k
  {
    assert Leads(next, loop, j) && Leads(next, loop, k);
  }

  lemma PlaceInjective(next: map<nat, nat>, loops: seq<seq<nat>>, p: nat, q: nat)
    requires Decomposes(next, loops) && p in next && q in next && next[p] == next[q]
    ensures p == q
  {
    var i, j := Place(next, loops, p);
    var i', j' := Place(next, loops, q);
    SameLoop(next, loops, i, i', next[p]);
    CycleInjective(next, loops[i], j, j');
  }

  /** Only a permutation without short cycles decomposes into loops. */
  lemma LoopsPermute(next: map<nat, nat>, loops: seq<seq<nat>>)
    requires Decomposes(next, loops)
    ensures Permutes(next) && NoShortCycle(next)
  {
    forall k | k in next
      ensures Inside(next, k) && GoesOn(next, k)
    {
      var i, j := Place(next, loops, k);
      CycleGoesOn(next, loops[i], j);
    }
    forall p, q | p in next && q in next && next[p] == next[q]
      ensures p == q
    {
      PlaceInjective(next, loops, p, q);
    }
  }

  lemma SameLoop(next: map<nat, nat>, loops: seq<seq<nat>>, i: nat, j: nat, k: nat)
    requires SeparateLoops(next, loops) && i < |loops| && j < |loops| && k in loops[i] && k in loops[j]
    ensures i == j
  {
    assert k in Members(loops[i]) && k in Members(loops[j]);
  }
}
