/** retri_coplanar_patches: groups coplanar faces and gives each group new triangles. */
module Retriangulation {
  import opened Distinctness
  import opened Plane
  import opened Ledger
  import opened Diagonals
  import opened Meshes
  import opened Orientation
  import opened HalfEdges
  import opened BoundaryLoops
  import opened Stokes
  import opened Patches
  import R = Resume
  import E = Earcut

  /** The measurements that the pass takes with square roots and tolerances; here any functions. */
  datatype Tests = Tests(flat: Face -> bool, coplanar: (Face, Face) -> bool,
                         collinear: (Vec3, Vec3, Vec3) -> bool, normal: Face -> Vec3)

  /** The orders in which hash maps and sets are run through; any order will do. */
  datatype Orders = Orders(edges: set<Edge> -> seq<Edge>, keys: set<nat> -> seq<nat>)

  ghost predicate InSomeOrder(o: Orders) {
    (forall s :: Enumerates(o.edges(s), s)) && (forall s :: Enumerates(o.keys(s), s))
  }

  // --- Grouping ---

  /** Two faces share an edge. */
  ghost predicate Adjacent(f: Face, g: Face) {
    exists k :: HasKey(f, k) && HasKey(g, k)
  }

  /** Member i of the group lies in the plane of the first and shares an edge with an earlier member. */
  ghost predicate Belongs(faces: seq<Face>, tests: Tests, group: seq<nat>, i: nat)
    requires FacesBelow(group, |faces|) && 0 < i < |group|
  {
    && tests.coplanar(faces[group[0]], faces[group[i]])
    && exists j :: 0 <= j < i && Adjacent(faces[group[j]], faces[group[i]])
  }

  ghost predicate FacesBelow(group: seq<nat>, n: nat) {
    forall i :: 0 <= i < |group| ==> group[i] < n
  }

  /** A connected group of coplanar faces without repetition. */
  ghost predicate Coherent(faces: seq<Face>, tests: Tests, group: seq<nat>) {
    && group != [] && Distinct(group) && FacesBelow(group, |faces|)
    && forall i :: 0 < i < |group| ==> Belongs(faces, tests, group, i)
  }

  /** group_id says of every face which group it is in, and -1 before it is in one. */
  ghost predicate Grouped(groupId: seq<int>, groups: seq<seq<nat>>) {
    && (forall f :: 0 <= f < |groupId| ==> -1 <= groupId[f] < |groups|)
    && (forall f: nat, k: nat :: f < |groupId| && k < |groups| ==> (f in groups[k] <==> groupId[f] == k))
  }

  lemma CoherentGrows(faces: seq<Face>, tests: Tests, group: seq<nat>, cur: nat, adj: nat)
    requires Coherent(faces, tests, group) && cur in group && adj < |faces| && adj !in group
    requires tests.coplanar(faces[group[0]], faces[adj]) && Adjacent(faces[cur], faces[adj])
    ensures Coherent(faces, tests, group + [adj])
  {
    var more := group + [adj];
    forall i | 0 < i < |more|
      ensures Belongs(faces, tests, more, i)
    {
      if i < |group| {
        assert Belongs(faces, tests, group, i);
        var j :| 0 <= j < i && Adjacent(faces[group[j]], faces[group[i]]);
        assert Adjacent(faces[more[j]], faces[more[i]]);
      } else {
        var j :| 0 <= j < |group| && group[j] == cur;
        assert Adjacent(faces[more[j]], faces[more[i]]);
      }
    }
  }

  lemma GroupedGrows(groupId: seq<int>, groups: seq<seq<nat>>, group: seq<nat>, adj: nat)
    requires Grouped(groupId, groups + [group]) && adj < |groupId| && groupId[adj] == -1
    ensures Grouped(groupId[adj := |groups|], groups + [group + [adj]])
  {
    var before, after := groups + [group], groups + [group + [adj]];
    assert forall k :: 0 <= k < |groups| ==> after[k] == before[k];
    assert before[|groups|] == group;
  }

  /** What was in a group stays in one. */
  ghost predicate Later(before: seq<int>, after: seq<int>) {
    |before| == |after| && forall f :: 0 <= f < |before| && before[f] >= 0 ==> after[f] >= 0
  }

  /** Of the faces named by the list, all that fit the group are in some group. */
  ghost predicate ListTaken(faces: seq<Face>, tests: Tests, groupId: seq<int>, seed: nat, list: seq<nat>, cur: nat,
                            n: nat)
    requires |groupId| == |faces| && seed < |faces| && n <= |list|
    requires forall i :: 0 <= i < |list| ==> list[i] < |faces|
  {
    forall i :: 0 <= i < n && list[i] != cur && tests.coplanar(faces[seed], faces[list[i]]) ==> groupId[list[i]] >= 0
  }

  /** All faces next to face f that fit the group are in some group. */
  ghost predicate Surrounded(faces: seq<Face>, tests: Tests, groupId: seq<int>, seed: nat, f: nat)
    requires |groupId| == |faces| && seed < |faces| && f < |faces|
  {
    forall g: nat :: g < |faces| && g != f && Adjacent(faces[f], faces[g]) && tests.coplanar(faces[seed], faces[g]) ==>
      groupId[g] >= 0
  }

  lemma SurroundedBy(faces: seq<Face>, m: EdgeFaces, tests: Tests, groupId: seq<int>, seed: nat, cur: nat)
    requires |groupId| == |faces| && seed < |faces| && cur < |faces| && Lists(m, faces, |faces|)
    requires forall k :: HasKey(faces[cur], k) ==> KeyTaken(faces, m, tests, groupId, seed, cur, k)
    ensures Surrounded(faces, tests, groupId, seed, cur)
  {
    forall g: nat | g < |faces| && g != cur && Adjacent(faces[cur], faces[g]) && tests.coplanar(faces[seed], faces[g])
      ensures groupId[g] >= 0
    {
      var k :| HasKey(faces[cur], k) && HasKey(faces[g], k);
      assert KeyTaken(faces, m, tests, groupId, seed, cur, k);
      assert Named(m, k, g);
    }
  }

  ghost predicate KeyTaken(faces: seq<Face>, m: EdgeFaces, tests: Tests, groupId: seq<int>, seed: nat, cur: nat,
                           k: EdgeKey)
    requires |groupId| == |faces| && seed < |faces|
  {
    && (forall i :: 0 <= i < |At(m, k)| ==> At(m, k)[i] < |faces|)
    && ListTaken(faces, tests, groupId, seed, At(m, k), cur, |At(m, k)|)
  }

  lemma StillTaken(faces: seq<Face>, m: EdgeFaces, tests: Tests, before: seq<int>, after: seq<int>, seed: nat,
                   cur: nat, k: EdgeKey)
    requires |before| == |faces| && seed < |faces| && Later(before, after)
    requires KeyTaken(faces, m, tests, before, seed, cur, k)
    ensures KeyTaken(faces, m, tests, after, seed, cur, k)
  {
  }

  /** The faces at one edge of the current face join the group if they fit. */
  method JoinNeighbours(faces: seq<Face>, list: seq<nat>, cur: nat, groupId: array<int>, group0: seq<nat>, tests: Tests,
                        groups: seq<seq<nat>>, ghost key: EdgeKey)
    returns (group: seq<nat>)
    requires groupId.Length == |faces| && Grouped(groupId[..], groups + [group0]) && Coherent(faces, tests, group0)
    requires cur in group0 && HasKey(faces[cur], key)
    requires forall i :: 0 <= i < |list| ==> list[i] < |faces| && HasKey(faces[list[i]], key)
    modifies groupId
    ensures Grouped(groupId[..], groups + [group]) && Coherent(faces, tests, group) && group0 <= group
    ensures Later(old(groupId[..]), groupId[..]) && ListTaken(faces, tests, groupId[..], group0[0], list, cur, |list|)
  {
    group := group0;
    var i := 0;
    while i < |list|
      invariant 0 <= i <= |list| && group0 <= group
      invariant Grouped(groupId[..], groups + [group]) && Coherent(faces, tests, group)
      invariant Later(old(groupId[..]), groupId[..]) && ListTaken(faces, tests, groupId[..], group0[0], list, cur, i)
    {
      var adj := list[i];
      if adj != cur && groupId[adj] < 0 && tests.coplanar(faces[group[0]], faces[adj]) {
        JoinsGroup(faces, tests, groupId[..], groups, group, cur, adj, key);
        groupId[adj] := |groups|;
        group := group + [adj];
      }
      i := i + 1;
    }
  }

  lemma JoinsGroup(faces: seq<Face>, tests: Tests, groupId: seq<int>, groups: seq<seq<nat>>, group: seq<nat>,
                   cur: nat, adj: nat, key: EdgeKey)
    requires |groupId| == |faces| && Grouped(groupId, groups + [group]) && Coherent(faces, tests, group)
    requires cur in group && adj < |faces| && groupId[adj] < 0 && tests.coplanar(faces[group[0]], faces[adj])
    requires cur < |faces| && HasKey(faces[cur], key) && HasKey(faces[adj], key)
    ensures Grouped(groupId[adj := |groups|], groups + [group + [adj]])
    ensures Coherent(faces, tests, group + [adj])
  {
    assert adj in (groups + [group])[|groups|] <==> groupId[adj] == |groups|;
    CoherentGrows(faces, tests, group, cur, adj);
    GroupedGrows(groupId, groups, group, adj);
  }

  lemma GroupFits(faces: seq<Face>, tests: Tests, group: seq<nat>)
    requires Coherent(faces, tests, group)
    ensures |group| <= |faces| && forall f :: f in group ==> f < |faces|
  {
    DistinctBound(group, |faces|);
  }

  /** The three edges of one face of the group. */
  method JoinAround(faces: seq<Face>, m: EdgeFaces, cur: nat, groupId: array<int>, group0: seq<nat>, tests: Tests,
                    groups: seq<seq<nat>>)
    returns (group: seq<nat>)
    requires groupId.Length == |faces| && Grouped(groupId[..], groups + [group0]) && Coherent(faces, tests, group0)
    requires Lists(m, faces, |faces|) && cur in group0 && cur < |faces|
    modifies groupId
    ensures Grouped(groupId[..], groups + [group]) && Coherent(faces, tests, group) && group0 <= group
    ensures Later(old(groupId[..]), groupId[..]) && Surrounded(faces, tests, groupId[..], group0[0], cur)
  {
    var f := faces[cur];
    ListNames(m, faces, Key(f.a, f.b));
    ListNames(m, faces, Key(f.b, f.c));
    ListNames(m, faces, Key(f.c, f.a));
    group := JoinNeighbours(faces, At(m, Key(f.a, f.b)), cur, groupId, group0, tests, groups, Key(f.a, f.b));
    ghost var first := groupId[..];
    group := JoinNeighbours(faces, At(m, Key(f.b, f.c)), cur, groupId, group, tests, groups, Key(f.b, f.c));
    ghost var second := groupId[..];
    group := JoinNeighbours(faces, At(m, Key(f.c, f.a)), cur, groupId, group, tests, groups, Key(f.c, f.a));
    StillTaken(faces, m, tests, first, second, group0[0], cur, Key(f.a, f.b));
    StillTaken(faces, m, tests, second, groupId[..], group0[0], cur, Key(f.a, f.b));
    StillTaken(faces, m, tests, second, groupId[..], group0[0], cur, Key(f.b, f.c));
    SurroundedBy(faces, m, tests, groupId[..], group0[0], cur);
  }

  lemma ListNames(m: EdgeFaces, faces: seq<Face>, k: EdgeKey)
    requires Lists(m, faces, |faces|)
    ensures forall i :: 0 <= i < |At(m, k)| ==> At(m, k)[i] < |faces| && HasKey(faces[At(m, k)[i]], k)
  {
    forall i | 0 <= i < |At(m, k)|
      ensures At(m, k)[i] < |faces| && HasKey(faces[At(m, k)[i]], k)
    {
      assert Named(m, k, At(m, k)[i]);
    }
  }

  /** The breadth-first search from one face; the queue is the part of the group not yet looked at. */
  method GrowGroup(faces: seq<Face>, m: EdgeFaces, seed: nat, groupId: array<int>, tests: Tests, groups: seq<seq<nat>>)
    returns (group: seq<nat>)
    requires groupId.Length == |faces| && Lists(m, faces, |faces|) && seed < |faces|
    requires Grouped(groupId[..], groups) && groupId[seed] == -1
    modifies groupId
    ensures Grouped(groupId[..], groups + [group]) && Coherent(faces, tests, group) && group[0] == seed
    ensures Later(old(groupId[..]), groupId[..])
    ensures !tests.flat(faces[seed]) ==> forall i :: 0 <= i < |group| ==>
      Surrounded(faces, tests, groupId[..], seed, group[i])
  {
    SeedGroup(groupId[..], groups, seed);
    groupId[seed] := |groups|;
    group := [seed];
    if tests.flat(faces[seed]) {
      return;
    }
    var done: nat := 0;
    while done < |group|
      invariant done <= |group|
      invariant Grouped(groupId[..], groups + [group]) && Coherent(faces, tests, group) && group[0] == seed
      invariant Later(old(groupId[..]), groupId[..]) && forall i :: 0 <= i < done ==>
        Surrounded(faces, tests, groupId[..], seed, group[i])
      decreases |faces| - done
    {
      GroupFits(faces, tests, group);
      group := JoinAround(faces, m, group[done], groupId, group, tests, groups);
      GroupFits(faces, tests, group);
      done := done + 1;
    }
  }

  lemma SeedGroup(groupId: seq<int>, groups: seq<seq<nat>>, seed: nat)
    requires Grouped(groupId, groups) && seed < |groupId| && groupId[seed] == -1
    ensures Grouped(groupId[seed := |groups|], groups + [[seed]])
  {
  }

  ghost predicate InGroup(groups: seq<seq<nat>>, f: nat, k: nat) {
    k < |groups| && f in groups[k]
  }

  ghost predicate HasGroup(groups: seq<seq<nat>>, f: nat) {
    exists k: nat :: InGroup(groups, f, k)
  }

  /**
   * A face next to a group that fits it is in the group or in an earlier one, unless the group began
   * with a flat face.
   */
  ghost predicate Full(faces: seq<Face>, tests: Tests, groups: seq<seq<nat>>, k: nat)
    requires k < |groups| && groups[k] != [] && FacesBelow(groups[k], |faces|)
  {
    !tests.flat(faces[groups[k][0]]) ==>
      forall f: nat, g: nat :: InGroup(groups, f, k) && g < |faces| && Adjacent(faces[f], faces[g])
        && tests.coplanar(faces[groups[k][0]], faces[g])
        ==> InGroupUpTo(groups, g, k)
  }

  ghost predicate InGroupUpTo(groups: seq<seq<nat>>, f: nat, k: nat) {
    exists j: nat :: j <= k && InGroup(groups, f, j)
  }

  /** Every face is in exactly one group, and every group is coherent and full. */
  ghost predicate Partition(faces: seq<Face>, tests: Tests, groups: seq<seq<nat>>) {
    && (forall k :: 0 <= k < |groups| ==> Coherent(faces, tests, groups[k]) && Full(faces, tests, groups, k))
    && (forall f :: 0 <= f < |faces| ==> HasGroup(groups, f))
    && (forall f: nat, j: nat, k: nat :: InGroup(groups, f, j) && InGroup(groups, f, k) ==> j == k)
  }

  lemma GroupedPartition(faces: seq<Face>, tests: Tests, groupId: seq<int>, groups: seq<seq<nat>>)
    requires |groupId| == |faces| && Grouped(groupId, groups)
    requires forall k :: 0 <= k < |groups| ==> Coherent(faces, tests, groups[k]) && Full(faces, tests, groups, k)
    requires forall f :: 0 <= f < |faces| ==> groupId[f] >= 0
    ensures Partition(faces, tests, groups)
  {
    forall f | 0 <= f < |faces|
      ensures HasGroup(groups, f)
    {
      assert InGroup(groups, f, groupId[f]);
    }
    forall f: nat, j: nat, k: nat | InGroup(groups, f, j) && InGroup(groups, f, k)
      ensures j == k
    {
      GroupFits(faces, tests, groups[k]);
      assert groupId[f] == k && groupId[f] == j;
    }
  }

  /** The grouping loop. */
  method GroupFaces(faces: seq<Face>, tests: Tests) returns (groups: seq<seq<nat>>)
    ensures Partition(faces, tests, groups)
  {
    var m := BuildEdgeFaceMap(faces);
    var groupId := new int[|faces|](_ => -1);
    groups := [];
    var fi := 0;
    while fi < |faces|
      invariant 0 <= fi <= |faces| && Grouped(groupId[..], groups)
      invariant forall k :: 0 <= k < |groups| ==> Coherent(faces, tests, groups[k]) && Full(faces, tests, groups, k)
      invariant forall f :: 0 <= f < fi ==> groupId[f] >= 0
    {
      if groupId[fi] < 0 {
        ghost var before := groupId[..];
        var group := GrowGroup(faces, m, fi, groupId, tests, groups);
        StillGrouped(before, groupId[..], groups, group);
        FullMore(faces, tests, groupId[..], groups, group);
        groups := groups + [group];
        assert fi in groups[|groups| - 1];
      }
      fi := fi + 1;
    }
    GroupedPartition(faces, tests, groupId[..], groups);
  }

  lemma FullMore(faces: seq<Face>, tests: Tests, groupId: seq<int>, groups: seq<seq<nat>>, group: seq<nat>)
    requires |groupId| == |faces| && Grouped(groupId, groups + [group]) && Coherent(faces, tests, group)
    requires forall k :: 0 <= k < |groups| ==> Coherent(faces, tests, groups[k]) && Full(faces, tests, groups, k)
    requires !tests.flat(faces[group[0]]) ==> forall i :: 0 <= i < |group| ==>
      Surrounded(faces, tests, groupId, group[0], group[i])
    ensures forall k :: 0 <= k <= |groups| ==>
      Coherent(faces, tests, (groups + [group])[k]) && Full(faces, tests, groups + [group], k)
  {
    var more := groups + [group];
    forall k | 0 <= k < |groups|
      ensures Full(faces, tests, more, k)
    {
      forall f: nat, g: nat | InGroup(more, f, k) && InGroupUpTo(groups, g, k)
        ensures InGroup(groups, f, k) && InGroupUpTo(more, g, k)
      {
        var j: nat :| j <= k && InGroup(groups, g, j);
        assert InGroup(more, g, j);
      }
      assert forall f: nat :: InGroup(more, f, k) ==> InGroup(groups, f, k);
    }
    if !tests.flat(faces[group[0]]) {
      forall f: nat, g: nat | InGroup(more, f, |groups|) && g < |faces| && Adjacent(faces[f], faces[g])
        && tests.coplanar(faces[group[0]], faces[g])
        ensures InGroupUpTo(more, g, |groups|)
      {
        var i :| 0 <= i < |group| && group[i] == f;
        if g != f {
          assert Surrounded(faces, tests, groupId, group[0], group[i]);
          assert g in more[groupId[g]];
          assert InGroup(more, g, groupId[g]);
        } else {
          assert InGroup(more, g, |groups|);
        }
      }
    }
  }

  lemma StillGrouped(before: seq<int>, after: seq<int>, groups: seq<seq<nat>>, group: seq<nat>)
    requires |before| == |after| && Grouped(before, groups) && Grouped(after, groups + [group])
    ensures forall f :: 0 <= f < |before| && before[f] >= 0 ==> after[f] >= 0
  {
    forall f | 0 <= f < |before| && before[f] >= 0
      ensures after[f] >= 0
    {
      assert f in groups[before[f]];
      assert (groups + [group])[before[f]] == groups[before[f]];
    }
  }

  // --- Replacing the faces of a group ---

  /**
   * The attempt on a group: its border loops and the outer one, whether the triangulator found any
   * triangles, the new faces, and what it lost.
   */
  datatype Patch = Patch(group: seq<nat>, axis: nat, loops: seq<seq<nat>>, outer: nat, found: bool, faces: seq<Face>,
                         clipped: bool, stuck: seq<seq<Vertex>>, unbridged: seq<seq<Vertex>>, cuts: seq<Cut>,
                         x: R.Stranding)

  /** What the new faces cover, and what the triangulator lost. */
  ghost function Settles(vs: seq<Vec3>, p: Patch): real {
    PatchArea(Project(vs, p.axis), p.faces) + Lost(p.stuck, p.unbridged, p.cuts)
  }

  /** The loops are the border of the group, and some vertex on them is in line with its neighbours. */
  ghost predicate Bounded(vs: seq<Vec3>, faces: seq<Face>, tests: Tests, group: seq<nat>, loops: seq<seq<nat>>)
    requires FacesBelow(group, |faces|)
  {
    && |group| >= 2 && LoopsIn(loops, |vs|) && SomeCollinear(vs, loops, tests.collinear)
    && exists next :: Follows(next, AllSides(Faces(faces, group))) && Decomposes(next, loops)
  }

  /** The areas of a patch's new faces, of its border loops and of its old faces agree. */
  ghost predicate Lawful(vs: seq<Vec3>, faces: seq<Face>, tests: Tests, p: Patch) {
    var ps := Project(vs, p.axis);
    && FacesIn(p.faces, |vs|) && FacesBelow(p.group, |faces|) && Bounded(vs, faces, tests, p.group, p.loops)
    && p.axis == DropAxis(tests.normal(faces[p.group[0]]))
    && p.outer < |p.loops|
    && (forall i :: 0 <= i < |p.loops| ==> Abs(AreaOf(ps, p.loops[i])) <= Abs(AreaOf(ps, p.loops[p.outer])))
    && Bought(vs, faces, p)
  }

  ghost predicate Bought(vs: seq<Vec3>, faces: seq<Face>, p: Patch)
    requires FacesBelow(p.group, |faces|) && p.outer < |p.loops|
  {
    var ps := Project(vs, p.axis);
    && (!p.found ==> p.faces == [])
    && (!p.clipped ==> !p.found && (AreaOf(ps, p.loops[p.outer]) == 0.0 || (|p.loops| > 1 && E.LostAt(p.x, ps))))
    && ForReasons(p.stuck, p.cuts) && (|p.loops| == 1 ==> p.unbridged == [])
    && (p.clipped && p.cuts == [] ==> forall f :: f in p.faces ==> FaceArea(ps, f) > 0.0)
    && (p.clipped ==> Settles(vs, p) == Abs(AreaOf(ps, p.loops[p.outer])) - HolesTotal(ps, p.loops, p.outer, |p.loops|))
    && (Apart(Faces(faces, p.group)) ==> PatchArea(ps, Faces(faces, p.group)) == LoopsArea(ps, p.loops))
    && (p.clipped && Apart(Faces(faces, p.group)) && HolesOpposite(ps, p.loops, p.outer) ==>
          PatchArea(ps, Faces(faces, p.group)) == Signed(AreaOf(ps, p.loops[p.outer]) >= 0.0, Settles(vs, p)))
  }

  /**
   * The reasons to leave a group alone: it has one face, its border does not close up, or no vertex
   * on the loops is in line with its neighbours.
   */
  ghost predicate Skipped(vs: seq<Vec3>, faces: seq<Face>, tests: Tests, group: seq<nat>)
    requires FacesBelow(group, |faces|)
  {
    || |group| < 2
    || !ClosesUp(AllSides(Faces(faces, group)))
    || (exists next, loops :: Straightened(vs, faces, tests, group, next, loops))
  }

  ghost predicate Straightened(vs: seq<Vec3>, faces: seq<Face>, tests: Tests, group: seq<nat>, next: map<nat, nat>,
                               loops: seq<seq<nat>>)
    requires FacesBelow(group, |faces|)
  {
    && Follows(next, AllSides(Faces(faces, group))) && Decomposes(next, loops)
    && LoopsIn(loops, |vs|) && !SomeCollinear(vs, loops, tests.collinear)
  }

  lemma AllEnclosed(ps: seq<Point>, loops: seq<seq<nat>>, outer: nat)
    requires outer < |loops| && HolesOpposite(ps, loops, outer)
    ensures LoopsArea(ps, loops)
         == Signed(AreaOf(ps, loops[outer]) >= 0.0,
                   Abs(AreaOf(ps, loops[outer])) - HolesTotal(ps, loops, outer, |loops|))
  {
    LoopsEnclose(ps, loops, outer, |loops|);
    assert loops[..|loops|] == loops;
  }

  lemma PatchLaw(vs: seq<Vec3>, faces: seq<Face>, p: Patch, next: map<nat, nat>)
    requires FacesBelow(p.group, |faces|) && p.outer < |p.loops|
    requires Follows(next, AllSides(Faces(faces, p.group))) && Decomposes(next, p.loops)
    requires p.clipped ==>
      var ps := Project(vs, p.axis);
      Settles(vs, p) == Abs(AreaOf(ps, p.loops[p.outer])) - HolesTotal(ps, p.loops, p.outer, |p.loops|)
    ensures Apart(Faces(faces, p.group)) ==>
      PatchArea(Project(vs, p.axis), Faces(faces, p.group)) == LoopsArea(Project(vs, p.axis), p.loops)
    ensures p.clipped && Apart(Faces(faces, p.group)) && HolesOpposite(Project(vs, p.axis), p.loops, p.outer) ==>
      PatchArea(Project(vs, p.axis), Faces(faces, p.group))
      == Signed(AreaOf(Project(vs, p.axis), p.loops[p.outer]) >= 0.0, Settles(vs, p))
  {
    var ps := Project(vs, p.axis);
    if Apart(Faces(faces, p.group)) {
      PatchIsLoops(ps, Faces(faces, p.group), next, p.loops);
      if p.clipped && HolesOpposite(ps, p.loops, p.outer) {
        AllEnclosed(ps, p.loops, p.outer);
      }
    }
  }

  /** The work on one group: either there is a reason to leave it alone, or it is tried. */
  method RetriangulateGroup(vs: seq<Vec3>, faces: seq<Face>, group: seq<nat>, tests: Tests, orders: Orders)
    returns (tried: bool, found: bool, newFaces: seq<Face>, ghost p: Patch)
    requires FacesIn(faces, |vs|) && FacesBelow(group, |faces|) && group != [] && InSomeOrder(orders)
    ensures if tried then Lawful(vs, faces, tests, p) && p.group == group && p.found == found && p.faces == newFaces
            else Skipped(vs, faces, tests, group) && !found
  {
    tried, found, newFaces, p := false, false, [], Patch(group, 0, [], 0, false, [], false, [], [], [], R.NOWHERE);
    if |group| < 2 {
      return;
    }
    ghost var next;
    var loops;
    loops, next := BorderLoops(faces, group, |vs|, orders.edges, orders.keys);
    if loops == [] {
      return;
    }
    tried := HasCollinear(vs, loops, tests.collinear);
    if !tried {
      assert Straightened(vs, faces, tests, group, next, loops);
      return;
    }
    found, newFaces, p := RetriangulateBorder(vs, faces, group, tests, loops, next);
  }

  method RetriangulateBorder(vs: seq<Vec3>, faces: seq<Face>, group: seq<nat>, tests: Tests, loops: seq<seq<nat>>,
                             ghost next: map<nat, nat>)
    returns (found: bool, newFaces: seq<Face>, ghost p: Patch)
    requires FacesBelow(group, |faces|) && |group| >= 2 && loops != [] && LoopsIn(loops, |vs|)
    requires Follows(next, AllSides(Faces(faces, group))) && Decomposes(next, loops)
    requires SomeCollinear(vs, loops, tests.collinear)
    ensures Lawful(vs, faces, tests, p) && p.group == group && p.found == found && p.faces == newFaces
  {
    var normal := tests.normal(faces[group[0]]);
    var axis := DropAxis(normal);
    var clipped, outer;
    ghost var stuck, unbridged, cuts, x;
    found, newFaces, clipped, outer, stuck, unbridged, cuts, x :=
      RetriangulateLoops(vs, axis, Coordinate(normal, axis), loops);
    p := Patch(group, axis, loops, outer, found, newFaces, clipped, stuck, unbridged, cuts, x);
    PatchLaw(vs, faces, p, next);
    assert Bought(vs, faces, p);
  }

  /** The faces that are not marked as removed. */
  ghost function Remaining(faces: seq<Face>, removed: seq<bool>): seq<Face>
    requires |removed| == |faces|
  {
    if faces == [] then []
    else
      var k := |faces| - 1;
      Remaining(faces[..k], removed[..k]) + if removed[k] then [] else [faces[k]]
  }

  ghost function AllFaces(patches: seq<Patch>): seq<Face> {
    if patches == [] then [] else AllFaces(patches[..|patches| - 1]) + patches[|patches| - 1].faces
  }

  /** A face is marked exactly when its group was replaced. */
  ghost predicate Marks(removed: seq<bool>, patches: seq<Patch>) {
    forall f :: 0 <= f < |removed| ==> (removed[f] <==> Replaced(patches, f))
  }

  ghost predicate Replaced(patches: seq<Patch>, f: nat) {
    exists k :: 0 <= k < |patches| && patches[k].found && f in patches[k].group
  }

  /** Marks the faces of a replaced group. */
  method MarkGroup(removed: array<bool>, group: seq<nat>, ghost patches: seq<Patch>, ghost p: Patch)
    requires FacesBelow(group, removed.Length) && Marks(removed[..], patches) && p.group == group && p.found
    modifies removed
    ensures Marks(removed[..], patches + [p])
  {
    ghost var before := removed[..];
    var i := 0;
    while i < |group|
      invariant 0 <= i <= |group|
      invariant forall f :: 0 <= f < removed.Length ==> (removed[f] <==> before[f] || f in group[..i])
    {
      removed[group[i]] := true;
      assert group[..i + 1] == group[..i] + [group[i]];
      i := i + 1;
    }
    assert group[..i] == group;
    forall f | 0 <= f < removed.Length
      ensures removed[f] <==> Replaced(patches + [p], f)
    {
      ReplacedMore(patches, p, f);
    }
  }

  lemma ReplacedMore(patches: seq<Patch>, p: Patch, f: nat)
    ensures Replaced(patches + [p], f) <==> Replaced(patches, f) || (p.found && f in p.group)
  {
    var more := patches + [p];
    if k :| 0 <= k < |patches| && patches[k].found && f in patches[k].group {
      assert more[k] == patches[k];
    }
    if p.found && f in p.group {
      assert more[|patches|] == p;
    }
  }

  lemma {:induction false} RemainingIn(faces: seq<Face>, removed: seq<bool>, n: nat)
    requires |removed| == |faces| && FacesIn(faces, n)
    ensures FacesIn(Remaining(faces, removed), n)
  {
    if faces != [] {
      RemainingIn(faces[..|faces| - 1], removed[..|faces| - 1], n);
    }
  }

  /** The loop that copies the faces that stay. */
  method KeepFaces(faces: seq<Face>, removed: array<bool>) returns (kept: seq<Face>)
    requires removed.Length == |faces|
    ensures kept == Remaining(faces, removed[..])
  {
    kept := [];
    var i := 0;
    while i < |faces|
      invariant 0 <= i <= |faces| && kept == Remaining(faces[..i], removed[..i])
    {
      assert faces[..i + 1][..i] == faces[..i] && removed[..i + 1][..i] == removed[..i];
      if !removed[i] {
        kept := kept + [faces[i]];
      }
      i := i + 1;
    }
    assert faces[..i] == faces && removed[..i] == removed[..];
  }

  /** The attempts so far are lawful, and the new faces are collected. */
  ghost predicate Collected(vs: seq<Vec3>, faces: seq<Face>, tests: Tests, patches: seq<Patch>, added: seq<Face>) {
    && (forall k :: 0 <= k < |patches| ==> Lawful(vs, faces, tests, patches[k]))
    && added == AllFaces(patches) && FacesIn(added, |vs|)
  }

  lemma CollectMore(vs: seq<Vec3>, faces: seq<Face>, tests: Tests, patches: seq<Patch>, added: seq<Face>, p: Patch)
    requires Collected(vs, faces, tests, patches, added) && Lawful(vs, faces, tests, p)
    ensures Collected(vs, faces, tests, patches + [p], added + p.faces)
  {
    assert (patches + [p])[..|patches|] == patches;
  }

  /** Every one of the first n groups was tried, or there was a reason not to. */
  ghost predicate Attended(vs: seq<Vec3>, faces: seq<Face>, tests: Tests, groups: seq<seq<nat>>, n: nat,
                           patches: seq<Patch>)
    requires n <= |groups|
  {
    forall k :: 0 <= k < n ==>
      FacesBelow(groups[k], |faces|) && (Skipped(vs, faces, tests, groups[k]) || Tried(patches, groups[k]))
  }

  ghost predicate Tried(patches: seq<Patch>, group: seq<nat>) {
    exists j :: 0 <= j < |patches| && patches[j].group == group
  }

  lemma AttendMore(vs: seq<Vec3>, faces: seq<Face>, tests: Tests, groups: seq<seq<nat>>, n: nat, patches: seq<Patch>,
                   p: Patch)
    requires n < |groups| && Attended(vs, faces, tests, groups, n, patches)
    requires FacesBelow(groups[n], |faces|) && p.group == groups[n]
    ensures Attended(vs, faces, tests, groups, n + 1, patches + [p])
  {
    var more := patches + [p];
    assert more[|patches|].group == groups[n];
    forall k | 0 <= k < n && Tried(patches, groups[k])
      ensures Tried(more, groups[k])
    {
      var j :| 0 <= j < |patches| && patches[j].group == groups[k];
      assert more[j].group == groups[k];
    }
  }

  /** Marks the faces of a group for which triangles were found. */
  method MarkIfFound(removed: array<bool>, group: seq<nat>, ghost patches: seq<Patch>, ghost p: Patch, found: bool)
    requires FacesBelow(group, removed.Length) && Marks(removed[..], patches) && p.group == group && p.found == found
    modifies removed
    ensures Marks(removed[..], patches + [p])
  {
    if found {
      MarkGroup(removed, group, patches, p);
    } else {
      forall f | 0 <= f < removed.Length
        ensures Replaced(patches + [p], f) <==> Replaced(patches, f)
      {
        ReplacedMore(patches, p, f);
      }
    }
  }

  /** One turn of the loop over the groups. */
  method AttendGroup(vs: seq<Vec3>, faces: seq<Face>, groups: seq<seq<nat>>, i: nat, tests: Tests, orders: Orders,
                     removed: array<bool>, added: seq<Face>, ghost patches: seq<Patch>)
    returns (added': seq<Face>, ghost patches': seq<Patch>)
    requires FacesIn(faces, |vs|) && InSomeOrder(orders) && i < |groups| && Coherent(faces, tests, groups[i])
    requires removed.Length == |faces| && Marks(removed[..], patches)
    requires Collected(vs, faces, tests, patches, added) && Attended(vs, faces, tests, groups, i, patches)
    modifies removed
    ensures Marks(removed[..], patches')
    ensures Collected(vs, faces, tests, patches', added') && Attended(vs, faces, tests, groups, i + 1, patches')
  {
    ghost var p;
    var tried, found, newFaces;
    tried, found, newFaces, p := RetriangulateGroup(vs, faces, groups[i], tests, orders);
    added', patches' := added, patches;
    if tried {
      MarkIfFound(removed, groups[i], patches, p, found);
      CollectMore(vs, faces, tests, patches, added, p);
      AttendMore(vs, faces, tests, groups, i, patches, p);
      patches', added' := patches + [p], added + newFaces;
    }
  }

  /** The loop over the groups. */
  method RetriangulateGroups(vs: seq<Vec3>, faces: seq<Face>, groups: seq<seq<nat>>, tests: Tests, orders: Orders)
    returns (removed: array<bool>, added: seq<Face>, ghost patches: seq<Patch>)
    requires FacesIn(faces, |vs|) && Partition(faces, tests, groups) && InSomeOrder(orders)
    ensures fresh(removed) && removed.Length == |faces| && Marks(removed[..], patches)
    ensures Collected(vs, faces, tests, patches, added) && Attended(vs, faces, tests, groups, |groups|, patches)
  {
    removed := new bool[|faces|](_ => false);
    added, patches := [], [];
    var i := 0;
    while i < |groups|
      invariant 0 <= i <= |groups| && Marks(removed[..], patches)
      invariant Collected(vs, faces, tests, patches, added) && Attended(vs, faces, tests, groups, i, patches)
    {
      assert Coherent(faces, tests, groups[i]);
      added, patches := AttendGroup(vs, faces, groups, i, tests, orders, removed, added, patches);
      i := i + 1;
    }
  }

  /**
   * retri_coplanar_patches: the faces fall into coplanar groups; every group is tried or has a
   * reason not to be; the faces of the groups for which triangles were found go, their new faces
   * come at the end, and every other face stays as it is.
   */
  method RetriCoplanarPatches(mesh: Mesh, tests: Tests, orders: Orders)
    returns (ghost removed: seq<bool>, ghost groups: seq<seq<nat>>, ghost patches: seq<Patch>)
    requires mesh.InRange() && InSomeOrder(orders)
    modifies mesh`faces
    ensures mesh.InRange()
    ensures Retriangulated(mesh.vertices, old(mesh.faces), mesh.faces, tests, removed, groups, patches)
  {
    patches, groups, removed := [], [], seq(|mesh.faces|, _ => false);
    if |mesh.faces| < 2 {
      return;
    }
    var parts := GroupFaces(mesh.faces, tests);
    var marks, added;
    marks, added, patches := RetriangulateGroups(mesh.vertices, mesh.faces, parts, tests, orders);
    removed, groups := marks[..], parts;
    if added != [] {
      var kept := KeepFaces(mesh.faces, marks);
      RemainingIn(mesh.faces, removed, |mesh.vertices|);
      mesh.faces := kept + added;
    }
  }

  /** What retri_coplanar_patches does to the faces of a mesh. */
  ghost predicate Retriangulated(vs: seq<Vec3>, before: seq<Face>, after: seq<Face>, tests: Tests,
                                 removed: seq<bool>, groups: seq<seq<nat>>, patches: seq<Patch>)
  {
    && |removed| == |before| && Marks(removed, patches)
    && (if |before| < 2 then groups == [] else Partition(before, tests, groups))
    && Collected(vs, before, tests, patches, AllFaces(patches))
    && Attended(vs, before, tests, groups, |groups|, patches)
    && after == if AllFaces(patches) == [] then before else Remaining(before, removed) + AllFaces(patches)
  }

  /**
   * A group whose attempt lost nothing keeps its projected area, up to the side the patch shows:
   * the old faces of a consistently wound group and the new ones cover the same.
   */
  lemma PatchKeepsArea(vs: seq<Vec3>, faces: seq<Face>, tests: Tests, p: Patch)
    requires Lawful(vs, faces, tests, p) && p.clipped && p.stuck == [] && p.unbridged == [] && p.cuts == []
    requires Consistent(Faces(faces, p.group)) && forall i :: 0 <= i < |p.group| ==> ThreeSides(faces[p.group[i]])
    requires HolesOpposite(Project(vs, p.axis), p.loops, p.outer)
    ensures Abs(PatchArea(Project(vs, p.axis), p.faces)) == Abs(PatchArea(Project(vs, p.axis), Faces(faces, p.group)))
    ensures forall f :: f in p.faces ==> FaceArea(Project(vs, p.axis), f) > 0.0
  {
    ConsistentApart(Faces(faces, p.group));
    assert Lost([], [], []) == 0.0;
  }

  lemma {:induction false} UpwardArea(ps: seq<Point>, fs: seq<Face>)
    requires forall f :: f in fs ==> FaceArea(ps, f) > 0.0
    ensures PatchArea(ps, fs) >= 0.0
  {
    if fs != [] {
      UpwardArea(ps, fs[..|fs| - 1]);
    }
  }

  /** So the patch shows the same side as before exactly if it did not face down. */
  lemma FacesUp(vs: seq<Vec3>, faces: seq<Face>, tests: Tests, p: Patch)
    requires Lawful(vs, faces, tests, p) && p.clipped && p.stuck == [] && p.unbridged == [] && p.cuts == []
    requires Consistent(Faces(faces, p.group)) && forall i :: 0 <= i < |p.group| ==> ThreeSides(faces[p.group[i]])
    requires HolesOpposite(Project(vs, p.axis), p.loops, p.outer)
    ensures PatchArea(Project(vs, p.axis), p.faces) == Abs(PatchArea(Project(vs, p.axis), Faces(faces, p.group)))
    ensures PatchArea(Project(vs, p.axis), p.faces) == PatchArea(Project(vs, p.axis), Faces(faces, p.group))
       <==> PatchArea(Project(vs, p.axis), Faces(faces, p.group)) >= 0.0
  {
    PatchKeepsArea(vs, faces, tests, p);
    UpwardArea(Project(vs, p.axis), p.faces);
  }
}
