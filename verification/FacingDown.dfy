/**
 * A flat patch of two faces that faces down, with a vertex in the middle of one side: the pass
 * tries it, and the new faces face up.
 */
module FacingDown {
  import opened Cyclic
  import opened Distinctness
  import opened Plane
  import opened Meshes
  import opened Orientation
  import opened HalfEdges
  import opened BoundaryLoops
  import opened Stokes
  import opened Patches
  import opened Retriangulation

  ghost predicate IsPatch(vs: seq<Vec3>, faces: seq<Face>) {
    && |vs| == 4 && vs[0] == Vec3(0.0, 0.0, 0.0) && vs[1] == Vec3(1.0, 0.0, 0.0) && vs[2] == Vec3(2.0, 0.0, 0.0)
    && vs[3] == Vec3(0.0, 1.0, 0.0)
    && |faces| == 2 && faces[0] == Face(0, 3, 1) && faces[1] == Face(1, 3, 2)
  }

  /** The normal points down, and the vertex in the middle of its side is in line. */
  ghost predicate Measures(vs: seq<Vec3>, faces: seq<Face>, tests: Tests)
    requires IsPatch(vs, faces)
  {
    tests.normal(faces[0]) == Vec3(0.0, 0.0, -1.0) && tests.collinear(vs[2], vs[1], vs[0])
  }

  ghost predicate IsGroup(group: seq<nat>) {
    |group| == 2 && group[0] == 0 && group[1] == 1
  }

  ghost predicate OnBorder(e: Edge) {
    e == Edge(0, 3) || e == Edge(3, 2) || e == Edge(2, 1) || e == Edge(1, 0)
  }

  lemma TwoFaces(fs: seq<Face>)
    requires |fs| == 2
    ensures AllSides(fs) == Sides(fs[0]) + Sides(fs[1])
    ensures Apart(fs) <==> ThreeSides(fs[0]) && ThreeSides(fs[1]) && Sides(fs[0]) !! Sides(fs[1])
  {
    var front := fs[..1];
    assert front[..0] == [] && front[0] == fs[0] && fs[..|fs| - 1] == front;
    assert AllSides(front) == AllSides([]) + Sides(fs[0]);
    assert Apart(front) <==> Apart([]) && ThreeSides(fs[0]);
  }

  lemma TwoAreas(ps: seq<Point>, fs: seq<Face>)
    requires |fs| == 2
    ensures PatchArea(ps, fs) == FaceArea(ps, fs[0]) + FaceArea(ps, fs[1])
  {
    var front := fs[..1];
    assert front[..0] == [] && front[0] == fs[0] && fs[..|fs| - 1] == front;
    assert PatchArea(ps, front) == PatchArea(ps, []) + FaceArea(ps, fs[0]);
  }

  lemma BorderIs(fs: seq<Face>)
    requires |fs| == 2 && fs[0] == Face(0, 3, 1) && fs[1] == Face(1, 3, 2)
    ensures Apart(fs) && forall e :: e in Border(AllSides(fs)) <==> OnBorder(e)
  {
    TwoFaces(fs);
  }

  /** The border edge after the one that ends at v. */
  function After(v: nat): Edge {
    if v == 0 then Edge(0, 3) else if v == 3 then Edge(3, 2) else if v == 2 then Edge(2, 1) else Edge(1, 0)
  }

  lemma BorderCloses(h: set<Edge>)
    requires forall e :: e in Border(h) <==> OnBorder(e)
    ensures ClosesUp(h)
  {
    assert After(0) in Border(h);
    assert EndsBegin(h) by {
      forall e | e in Border(h)
        ensures Begins(h, e.to)
      {
        var g := After(e.to);
        assert g in Border(h) && g.from == e.to;
      }
    }
    assert Unbranched(h) && Unmerged(h);
  }

  /** The map runs from 2 over 1 to 0, and round. */
  ghost predicate Round(next: map<nat, nat>) {
    next == map[0 := 3, 3 := 2, 2 := 1, 1 := 0]
  }

  lemma FollowsRound(h: set<Edge>, next: map<nat, nat>)
    requires (forall e :: e in Border(h) <==> OnBorder(e)) && Follows(next, h)
    ensures Round(next)
  {
    forall u: nat, v: nat
      ensures (u in next && next[u] == v) <==> OnBorder(Edge(u, v))
    {
      assert Edge(u, v) in Border(h) <==> OnBorder(Edge(u, v));
    }
    assert OnBorder(Edge(0, 3)) && OnBorder(Edge(3, 2)) && OnBorder(Edge(2, 1)) && OnBorder(Edge(1, 0));
    forall u | u in next
      ensures u == 0 || u == 1 || u == 2 || u == 3
    {
      assert OnBorder(Edge(u, next[u]));
    }
  }

  lemma FirstThree(next: map<nat, nat>, loops: seq<seq<nat>>, i: nat)
    requires Round(next) && Decomposes(next, loops) && i < |loops|
    ensures var p := loops[i]; |p| >= 3 && p[0] < 4 && p[1] < 4 && p[2] < 4 && p[0] != p[1] && p[1] != p[2]
    ensures var p := loops[i]; p[0] != p[2]
    ensures var p := loops[i]; {p[0], p[1], p[2]} <= Members(p)
  {
    var p := loops[i];
    assert Cycle(next, p);
    assert OnLoop(loops, p[0]) && OnLoop(loops, p[1]) && OnLoop(loops, p[2]);
  }

  /** Four vertices make one loop. */
  lemma OneLoop(next: map<nat, nat>, loops: seq<seq<nat>>)
    requires Round(next) && Decomposes(next, loops)
    ensures |loops| == 1
  {
    assert 0 in next && OnLoop(loops, 0);
    if |loops| >= 2 {
      FirstThree(next, loops, 0);
      FirstThree(next, loops, 1);
    }
  }

  /** The vertex in the middle of its side is found in line. */
  lemma MiddleInLine(vs: seq<Vec3>, faces: seq<Face>, tests: Tests, next: map<nat, nat>, loops: seq<seq<nat>>)
    requires IsPatch(vs, faces) && Measures(vs, faces, tests)
    requires Round(next) && Decomposes(next, loops) && LoopsIn(loops, 4)
    ensures SomeCollinear(vs, loops, tests.collinear)
  {
    assert 1 in next && OnLoop(loops, 1);
    var i :| 0 <= i < |loops| && 1 in loops[i];
    var loop := loops[i];
    var j :| 0 <= j < |loop| && loop[j] == 1;
    var k := if j == 0 then |loop| - 1 else j - 1;
    assert LoopIn(loop, 4) && Cycle(next, loop) && Leads(next, loop, j) && Leads(next, loop, k);
    assert loop[k] == 2 && loop[Succ(j, |loop|)] == 0;
    assert CollinearAt(vs, loop, j, tests.collinear);
    assert LoopCollinear(vs, loop, tests.collinear);
  }

  /** There is no reason to leave the patch alone. */
  lemma PatchIsTried(vs: seq<Vec3>, faces: seq<Face>, tests: Tests, group: seq<nat>)
    requires IsPatch(vs, faces) && Measures(vs, faces, tests) && IsGroup(group)
    ensures !Skipped(vs, faces, tests, group)
  {
    var h := AllSides(Faces(faces, group));
    BorderIs(Faces(faces, group));
    BorderCloses(h);
    forall next, loops | Straightened(vs, faces, tests, group, next, loops)
      ensures false
    {
      FollowsRound(h, next);
      MiddleInLine(vs, faces, tests, next, loops);
    }
  }

  lemma SingleLoop(vs: seq<Vec3>, faces: seq<Face>, tests: Tests, p: Patch)
    requires IsPatch(vs, faces) && IsGroup(p.group) && Lawful(vs, faces, tests, p)
    ensures |p.loops| == 1
  {
    var fs := Faces(faces, p.group);
    BorderIs(fs);
    var next :| Follows(next, AllSides(fs)) && Decomposes(next, p.loops);
    FollowsRound(AllSides(fs), next);
    OneLoop(next, p.loops);
  }

  lemma OldArea(vs: seq<Vec3>, faces: seq<Face>, group: seq<nat>)
    requires IsPatch(vs, faces) && IsGroup(group)
    ensures PatchArea(Project(vs, 2), Faces(faces, group)) == -2.0
  {
    TwoAreas(Project(vs, 2), Faces(faces, group));
  }

  /** One loop that encloses something is clipped. */
  lemma LoopClipped(vs: seq<Vec3>, faces: seq<Face>, p: Patch)
    requires FacesBelow(p.group, |faces|) && |p.loops| == 1 && p.outer == 0 && Bought(vs, faces, p)
    requires Apart(Faces(faces, p.group)) && PatchArea(Project(vs, p.axis), Faces(faces, p.group)) != 0.0
    ensures p.clipped && p.unbridged == []
  {
    var ps := Project(vs, p.axis);
    assert p.loops[..0] == [] && LoopsArea(ps, p.loops) == AreaOf(ps, p.loops[0]);
  }

  lemma PlainFaces(faces: seq<Face>, group: seq<nat>)
    requires |faces| == 2 && faces[0] == Face(0, 3, 1) && faces[1] == Face(1, 3, 2) && IsGroup(group)
    ensures Apart(Faces(faces, group)) && Consistent(Faces(faces, group))
    ensures forall i :: 0 <= i < |group| ==> ThreeSides(faces[group[i]])
  {
    BorderIs(Faces(faces, group));
    ConsistentApart(Faces(faces, group));
  }

  /**
   * The old faces have area -2 in the projection. Unless the triangulator gives up a ring or cuts
   * off a corner, the new ones have area 2.
   */
  lemma PatchTurnsOver(vs: seq<Vec3>, faces: seq<Face>, tests: Tests, p: Patch)
    requires IsPatch(vs, faces) && Measures(vs, faces, tests) && IsGroup(p.group) && Lawful(vs, faces, tests, p)
    ensures p.clipped && PatchArea(Project(vs, p.axis), Faces(faces, p.group)) == -2.0
    ensures p.stuck == [] && p.cuts == [] ==> PatchArea(Project(vs, p.axis), p.faces) == 2.0
  {
    assert p.axis == 2;
    SingleLoop(vs, faces, tests, p);
    PlainFaces(faces, p.group);
    OldArea(vs, faces, p.group);
    LoopClipped(vs, faces, p);
    if p.stuck == [] && p.cuts == [] {
      FacesUp(vs, faces, tests, p);
    }
  }
}
