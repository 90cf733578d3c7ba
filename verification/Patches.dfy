/** retri_coplanar_patches, for one group of coplanar faces: border loops in, new triangles out. */
module Patches {
  import opened Cyclic
  import opened Distinctness
  import opened Plane
  import opened Shoelace
  import opened Ledger
  import opened EarGeometry
  import opened Diagonals
  import opened E = Earcut
  import R = Resume
  import opened EarcutBinding
  import opened Meshes
  import Orientation
  import opened HalfEdges
  import opened BoundaryLoops
  import opened Stokes

  function Coordinate(v: Vec3, axis: nat): real {
    if axis == 0 then v.x else if axis == 1 then v.y else v.z
  }

  /** The axis along which the normal is longest. */
  function DropAxis(n: Vec3): (axis: nat)
    ensures axis < 3
    ensures forall k: nat :: k < 3 ==> Abs(Coordinate(n, k)) <= Abs(Coordinate(n, axis))
  {
    var x, y, z := Abs(n.x), Abs(n.y), Abs(n.z);
    if x >= y && x >= z then 0 else if y >= x && y >= z then 1 else 2
  }

  /** The two coordinates that are left when an axis is dropped. */
  function Flat(v: Vec3, axis: nat): Point {
    if axis == 0 then Point(v.y, v.z) else if axis == 1 then Point(v.x, v.z) else Point(v.x, v.y)
  }

  ghost function Project(vs: seq<Vec3>, axis: nat): (r: seq<Point>)
    ensures |r| == |vs|
  {
    seq(|vs|, i requires 0 <= i < |vs| => Flat(vs[i], axis))
  }

  ghost predicate LoopIn(loop: seq<nat>, n: nat) {
    forall i :: 0 <= i < |loop| ==> loop[i] < n
  }

  ghost predicate LoopsIn(loops: seq<seq<nat>>, n: nat) {
    forall i :: 0 <= i < |loops| ==> LoopIn(loops[i], n)
  }

  /** The projected positions of a loop. */
  method LoopPoints(vs: seq<Vec3>, axis: nat, loop: seq<nat>) returns (r: seq<Point>)
    requires LoopIn(loop, |vs|)
    ensures r == Positions(Project(vs, axis), loop)
  {
    r := [];
    var i := 0;
    while i < |loop|
      invariant 0 <= i <= |loop| && r == Positions(Project(vs, axis), loop)[..i]
    {
      r := r + [Flat(vs[loop[i]], axis)];
      i := i + 1;
    }
  }

  /** signed_area_2d. */
  method SignedArea2d(vs: seq<Vec3>, axis: nat, loop: seq<nat>) returns (area: real)
    requires LoopIn(loop, |vs|)
    ensures area * 2.0 == Area2(Positions(Project(vs, axis), loop))
  {
    ghost var ps := Positions(Project(vs, axis), loop);
    var n := |loop|;
    area := 0.0;
    var i := 0;
    while i < n
      invariant 0 <= i <= n && area == AreaUpTo(ps, i)
    {
      AreaStep(ps, i);
      NextIndex(i, n);
      area := area + Cross(Flat(vs[loop[i]], axis), Flat(vs[loop[(i + 1) % n]], axis));
      i := i + 1;
    }
    area := area * 0.5;
  }

  // --- The loops as a polygon with holes ---

  function Backwards(s: seq<nat>): (r: seq<nat>)
    ensures |r| == |s|
  {
    seq(|s|, i requires 0 <= i < |s| => s[|s| - 1 - i])
  }

  lemma BackwardsArea(ps: seq<Point>, loop: seq<nat>)
    ensures Area2(Positions(ps, Backwards(loop))) == -Area2(Positions(ps, loop))
  {
    Area2Reversed(Positions(ps, loop));
    assert Positions(ps, Backwards(loop)) == Reversed(Positions(ps, loop));
  }

  ghost function AreaOf(ps: seq<Point>, loop: seq<nat>): real {
    Area2(Positions(ps, loop))
  }

  /** Absolute doubled areas of the loops other than the outer one, among the first n. */
  ghost function HolesTotal(ps: seq<Point>, loops: seq<seq<nat>>, outer: nat, n: nat): real
    requires n <= |loops|
  {
    if n == 0 then 0.0
    else HolesTotal(ps, loops, outer, n - 1) + if n - 1 == outer then 0.0 else Abs(AreaOf(ps, loops[n - 1]))
  }

  /** The loops other than the outer one turn the other way. */
  ghost predicate HolesOpposite(ps: seq<Point>, loops: seq<seq<nat>>, outer: nat)
    requires outer < |loops|
  {
    forall i :: 0 <= i < |loops| && i != outer ==>
      if AreaOf(ps, loops[outer]) >= 0.0 then AreaOf(ps, loops[i]) <= 0.0 else AreaOf(ps, loops[i]) >= 0.0
  }

  ghost function Signed(positive: bool, x: real): real {
    if positive then x else -x
  }

  /** With the holes turned the other way, the loops enclose the outer area less the holes. */
  lemma {:induction false} LoopsEnclose(ps: seq<Point>, loops: seq<seq<nat>>, outer: nat, n: nat)
    requires outer < |loops| && n <= |loops| && HolesOpposite(ps, loops, outer)
    ensures LoopsArea(ps, loops[..n])
         == Signed(AreaOf(ps, loops[outer]) >= 0.0,
                   (if outer < n then Abs(AreaOf(ps, loops[outer])) else 0.0) - HolesTotal(ps, loops, outer, n))
  {
    if n > 0 {
      LoopsEnclose(ps, loops, outer, n - 1);
      assert loops[..n][..n - 1] == loops[..n - 1];
    }
  }

  /** Reversing all loops changes neither the size of their areas nor which of them are opposite. */
  ghost predicate SameSizes(ps: seq<Point>, loops: seq<seq<nat>>, turned: seq<seq<nat>>) {
    |turned| == |loops| && forall i :: 0 <= i < |loops| ==> Abs(AreaOf(ps, turned[i])) == Abs(AreaOf(ps, loops[i]))
  }

  lemma {:induction false} HolesTotalSame(ps: seq<Point>, loops: seq<seq<nat>>, turned: seq<seq<nat>>, outer: nat,
                                          n: nat)
    requires SameSizes(ps, loops, turned) && n <= |loops|
    ensures HolesTotal(ps, turned, outer, n) == HolesTotal(ps, loops, outer, n)
  {
    if n > 0 {
      HolesTotalSame(ps, loops, turned, outer, n - 1);
    }
  }

  /** The choice of the outer loop: the first of largest absolute area. */
  method OuterLoop(vs: seq<Vec3>, axis: nat, loops: seq<seq<nat>>) returns (outer: nat, areas: seq<real>)
    requires loops != [] && LoopsIn(loops, |vs|)
    ensures outer < |loops| == |areas|
    ensures forall i :: 0 <= i < |loops| ==> areas[i] * 2.0 == AreaOf(Project(vs, axis), loops[i])
    ensures forall i :: 0 <= i < |loops| ==> Abs(areas[i]) <= Abs(areas[outer])
  {
    outer, areas := 0, [];
    var maxAbsArea := 0.0;
    var i := 0;
    while i < |loops|
      invariant 0 <= i <= |loops| && |areas| == i && outer < |loops|
      invariant forall j :: 0 <= j < i ==> areas[j] * 2.0 == AreaOf(Project(vs, axis), loops[j])
      invariant forall j :: 0 <= j < i ==> Abs(areas[j]) <= maxAbsArea
      invariant outer == 0 || outer < i
      invariant if i > 0 then maxAbsArea == Abs(areas[outer]) else maxAbsArea == 0.0
    {
      var area := SignedArea2d(vs, axis, loops[i]);
      areas := areas + [area];
      if Abs(area) > maxAbsArea {
        maxAbsArea := Abs(area);
        outer := i;
      }
      i := i + 1;
    }
  }

  /** The loops turned over if asked, with their areas. */
  method TurnLoops(vs: seq<Vec3>, axis: nat, loops: seq<seq<nat>>, areas: seq<real>, flip: bool)
    returns (turned: seq<seq<nat>>, turnedAreas: seq<real>)
    requires LoopsIn(loops, |vs|) && |areas| == |loops|
    requires forall i :: 0 <= i < |loops| ==> areas[i] * 2.0 == AreaOf(Project(vs, axis), loops[i])
    ensures LoopsIn(turned, |vs|) && |turnedAreas| == |turned| && SameSizes(Project(vs, axis), loops, turned)
    ensures forall i :: 0 <= i < |turned| ==> turnedAreas[i] * 2.0 == AreaOf(Project(vs, axis), turned[i])
    ensures forall i :: 0 <= i < |turned| ==> turned[i] == if flip then Backwards(loops[i]) else loops[i]
  {
    turned, turnedAreas := loops, areas;
    if flip {
      turned, turnedAreas := [], [];
      var i := 0;
      while i < |loops|
        invariant 0 <= i <= |loops| && |turned| == |turnedAreas| == i
        invariant LoopsIn(turned, |vs|)
        invariant forall j :: 0 <= j < i ==>
          Abs(AreaOf(Project(vs, axis), turned[j])) == Abs(AreaOf(Project(vs, axis), loops[j]))
        invariant forall j :: 0 <= j < i ==> turnedAreas[j] * 2.0 == AreaOf(Project(vs, axis), turned[j])
        invariant forall j :: 0 <= j < i ==> turned[j] == Backwards(loops[j])
      {
        BackwardsArea(Project(vs, axis), loops[i]);
        assert LoopIn(loops[i], |vs|);
        turned := turned + [Backwards(loops[i])];
        turnedAreas := turnedAreas + [-areas[i]];
        i := i + 1;
      }
    }
  }

  lemma PositionsJoin(ps: seq<Point>, a: seq<nat>, b: seq<nat>)
    ensures Positions(ps, a + b) == Positions(ps, a) + Positions(ps, b)
  {
  }

  /** The polygon so far and the vertices it came from. */
  ghost predicate Assembled(ps: seq<Point>, turned: seq<seq<nat>>, outer: nat, n: nat,
                            polygon: seq<seq<Point>>, allIndices: seq<nat>)
    requires outer < |turned| && n <= |turned|
  {
    && polygon != [] && polygon[0] == Positions(ps, turned[outer])
    && (n == 0 || (n == 1 && outer == 0) ==> |polygon| == 1)
    && Flatten(polygon) == Positions(ps, allIndices)
    && HolePoints(polygon[1..]) == -HolesTotal(ps, turned, outer, n)
    && forall k :: 0 < k < |polygon| ==> Area2(polygon[k]) <= 0.0
  }

  lemma AddHole(ps: seq<Point>, turned: seq<seq<nat>>, outer: nat, n: nat, polygon: seq<seq<Point>>,
                allIndices: seq<nat>, hole: seq<nat>)
    requires outer < |turned| && n < |turned| && n != outer && Assembled(ps, turned, outer, n, polygon, allIndices)
    requires Abs(AreaOf(ps, hole)) == Abs(AreaOf(ps, turned[n])) && AreaOf(ps, hole) <= 0.0
    ensures Assembled(ps, turned, outer, n + 1, polygon + [Positions(ps, hole)], allIndices + hole)
  {
    var more := polygon + [Positions(ps, hole)];
    PositionsJoin(ps, allIndices, hole);
    assert more[..|polygon|] == polygon;
    assert more[1..] == polygon[1..] + [Positions(ps, hole)];
    assert more[1..][..|polygon| - 1] == polygon[1..];
  }

  /** A loop, turned over if it runs counter-clockwise, and its projection. */
  method Clockwise(vs: seq<Vec3>, axis: nat, loop: seq<nat>, area: real) returns (hole: seq<nat>, points: seq<Point>)
    requires LoopIn(loop, |vs|) && area * 2.0 == AreaOf(Project(vs, axis), loop)
    ensures LoopIn(hole, |vs|) && points == Positions(Project(vs, axis), hole)
    ensures AreaOf(Project(vs, axis), hole) == -Abs(AreaOf(Project(vs, axis), loop))
    ensures hole == if AreaOf(Project(vs, axis), loop) > 0.0 then Backwards(loop) else loop
  {
    hole := loop;
    if area > 0.0 {
      BackwardsArea(Project(vs, axis), loop);
      hole := Backwards(loop);
    }
    points := LoopPoints(vs, axis, hole);
  }

  lemma FirstLoop(ps: seq<Point>, turned: seq<seq<nat>>, outer: nat)
    requires outer < |turned|
    ensures Assembled(ps, turned, outer, 0, [Positions(ps, turned[outer])], turned[outer])
  {
    var polygon := [Positions(ps, turned[outer])];
    assert polygon[..0] == [];
  }

  lemma SkipOuter(ps: seq<Point>, turned: seq<seq<nat>>, outer: nat, polygon: seq<seq<Point>>, allIndices: seq<nat>)
    requires outer < |turned| && Assembled(ps, turned, outer, outer, polygon, allIndices)
    ensures Assembled(ps, turned, outer, outer + 1, polygon, allIndices)
  {
  }

  /** One turn of the loop over the loops. */
  method AssembleLoop(vs: seq<Vec3>, axis: nat, turned: seq<seq<nat>>, areas: seq<real>, outer: nat, i: nat,
                      polygon: seq<seq<Point>>, allIndices: seq<nat>)
    returns (polygon': seq<seq<Point>>, allIndices': seq<nat>)
    requires outer < |turned| == |areas| && LoopsIn(turned, |vs|) && i < |turned| && LoopIn(allIndices, |vs|)
    requires areas[i] * 2.0 == AreaOf(Project(vs, axis), turned[i])
    requires Assembled(Project(vs, axis), turned, outer, i, polygon, allIndices)
    ensures Assembled(Project(vs, axis), turned, outer, i + 1, polygon', allIndices') && LoopIn(allIndices', |vs|)
  {
    ghost var ps := Project(vs, axis);
    polygon', allIndices' := polygon, allIndices;
    if i != outer {
      var hole, points := Clockwise(vs, axis, turned[i], areas[i]);
      AddHole(ps, turned, outer, i, polygon, allIndices, hole);
      polygon', allIndices' := polygon + [points], allIndices + hole;
    } else {
      SkipOuter(ps, turned, outer, polygon, allIndices);
    }
  }

  /** The polygon for the triangulator: the outer loop, then the holes, each turned clockwise. */
  method AssemblePolygon(vs: seq<Vec3>, axis: nat, turned: seq<seq<nat>>, areas: seq<real>, outer: nat)
    returns (polygon: seq<seq<Point>>, allIndices: seq<nat>)
    requires outer < |turned| == |areas| && LoopsIn(turned, |vs|)
    requires forall i :: 0 <= i < |turned| ==> areas[i] * 2.0 == AreaOf(Project(vs, axis), turned[i])
    ensures Assembled(Project(vs, axis), turned, outer, |turned|, polygon, allIndices)
    ensures LoopIn(allIndices, |vs|)
  {
    assert LoopIn(turned[outer], |vs|);
    var points := LoopPoints(vs, axis, turned[outer]);
    FirstLoop(Project(vs, axis), turned, outer);
    polygon, allIndices := [points], turned[outer];
    var i := 0;
    while i < |turned|
      invariant 0 <= i <= |turned| && LoopIn(allIndices, |vs|)
      invariant Assembled(Project(vs, axis), turned, outer, i, polygon, allIndices)
    {
      polygon, allIndices := AssembleLoop(vs, axis, turned, areas, outer, i, polygon, allIndices);
      i := i + 1;
    }
  }

  /** Triangle number t of the triangulator's output, with the mesh's own vertex numbers. */
  ghost function MeshFace(allIndices: seq<nat>, indices: seq<nat>, t: nat): Face
    requires 3 * t + 2 < |indices| && forall k :: 0 <= k < |indices| ==> indices[k] < |allIndices|
  {
    Face(allIndices[indices[3 * t]], allIndices[indices[3 * t + 1]], allIndices[indices[3 * t + 2]])
  }

  lemma MeshFaceArea(ps: seq<Point>, allIndices: seq<nat>, indices: seq<nat>, t: nat)
    requires 3 * t + 2 < |indices| && forall k :: 0 <= k < |indices| ==> indices[k] < |allIndices|
    ensures var qs, f := Positions(ps, allIndices), MeshFace(allIndices, indices, t);
      Emitted(qs, indices, t + 1) == Emitted(qs, indices, t) + FaceArea(ps, f)
    ensures AllPositive(Positions(ps, allIndices), indices) ==>
      FaceArea(ps, MeshFace(allIndices, indices, t)) > 0.0
  {
    assert FaceArea(ps, MeshFace(allIndices, indices, t)) == TriArea(Positions(ps, allIndices), indices, t);
  }

  lemma AddFace(ps: seq<Point>, fs: seq<Face>, f: Face)
    ensures PatchArea(ps, fs + [f]) == PatchArea(ps, fs) + FaceArea(ps, f)
  {
    assert (fs + [f])[..|fs|] == fs;
  }

  lemma FlatFace(ps: seq<Point>, f: Face)
    requires f.a == f.b || f.b == f.c || f.a == f.c
    ensures FaceArea(ps, f) == 0.0
  {
  }

  /** The loop that renumbers the triangles and drops those with a repeated corner. */
  method CollectTriangles(allIndices: seq<nat>, indices: seq<nat>, n: nat, ghost ps: seq<Point>)
    returns (newFaces: seq<Face>)
    requires |indices| % 3 == 0 && forall k :: 0 <= k < |indices| ==> indices[k] < |allIndices|
    requires LoopIn(allIndices, n)
    ensures FacesIn(newFaces, n)
    ensures PatchArea(ps, newFaces) == Emitted(Positions(ps, allIndices), indices, |indices| / 3)
    ensures AllPositive(Positions(ps, allIndices), indices) ==> forall f :: f in newFaces ==> FaceArea(ps, f) > 0.0
  {
    newFaces := [];
    var i := 0;
    ghost var t := 0;
    while i < |indices|
      invariant 0 <= i <= |indices| && i == 3 * t && FacesIn(newFaces, n)
      invariant PatchArea(ps, newFaces) == Emitted(Positions(ps, allIndices), indices, t)
      invariant AllPositive(Positions(ps, allIndices), indices) ==> forall f :: f in newFaces ==> FaceArea(ps, f) > 0.0
    {
      var a, b, c := allIndices[indices[i]], allIndices[indices[i + 1]], allIndices[indices[i + 2]];
      MeshFaceArea(ps, allIndices, indices, t);
      if a != b && b != c && a != c {
        AddFace(ps, newFaces, Face(a, b, c));
        newFaces := newFaces + [Face(a, b, c)];
      } else {
        FlatFace(ps, Face(a, b, c));
      }
      i, t := i + 3, t + 1;
    }
  }

  /** Some loop has a vertex that is nearly in line with its neighbours. */
  ghost predicate SomeCollinear(vs: seq<Vec3>, loops: seq<seq<nat>>, collinear: (Vec3, Vec3, Vec3) -> bool)
    requires LoopsIn(loops, |vs|)
  {
    exists i :: 0 <= i < |loops| && LoopCollinear(vs, loops[i], collinear)
  }

  ghost predicate LoopCollinear(vs: seq<Vec3>, loop: seq<nat>, collinear: (Vec3, Vec3, Vec3) -> bool)
    requires LoopIn(loop, |vs|)
  {
    exists j :: 0 <= j < |loop| && CollinearAt(vs, loop, j, collinear)
  }

  predicate CollinearAt(vs: seq<Vec3>, loop: seq<nat>, j: nat, collinear: (Vec3, Vec3, Vec3) -> bool)
    requires j < |loop| && LoopIn(loop, |vs|)
  {
    collinear(vs[loop[if j == 0 then |loop| - 1 else j - 1]], vs[loop[j]], vs[loop[Succ(j, |loop|)]])
  }

  /** The search for a vertex nearly in line with its neighbours on its loop. */
  method HasCollinear(vs: seq<Vec3>, loops: seq<seq<nat>>, collinear: (Vec3, Vec3, Vec3) -> bool) returns (r: bool)
    requires LoopsIn(loops, |vs|)
    ensures r <==> SomeCollinear(vs, loops, collinear)
  {
    r := false;
    var i := 0;
    while i < |loops|
      invariant 0 <= i <= |loops|
      invariant forall k :: 0 <= k < i ==> !LoopCollinear(vs, loops[k], collinear)
    {
      assert LoopIn(loops[i], |vs|);
      var j := 0;
      while j < |loops[i]|
        invariant 0 <= j <= |loops[i]|
        invariant forall k :: 0 <= k < j ==> !CollinearAt(vs, loops[i], k, collinear)
      {
        if CollinearAt(vs, loops[i], j, collinear) {
          assert LoopCollinear(vs, loops[i], collinear);
          return true;
        }
        j := j + 1;
      }
      i := i + 1;
    }
  }

  /** Doubled areas that the triangulator gave up or cut off. */
  ghost function Lost(stuck: seq<seq<Vertex>>, unbridged: seq<seq<Vertex>>, cuts: seq<Cut>): real {
    RingsArea(stuck) + RingsArea(unbridged) + CutsArea(cuts)
  }

  /** Rings were given up only for want of an ear and a diagonal, and corners cut off only at crossings. */
  ghost predicate ForReasons(stuck: seq<seq<Vertex>>, cuts: seq<Cut>) {
    && (forall k :: 0 <= k < |stuck| ==> GivenUp(stuck[k]))
    && (forall k :: 0 <= k < |cuts| ==> Intersects(cuts[k].a, cuts[k].p, cuts[k].n, cuts[k].b))
  }

  lemma AmongPositions(x: R.Stranding, ps: seq<Point>, ids: seq<nat>)
    requires forall k :: 0 <= k < |ids| ==> ids[k] < |ps|
    ensures LostAt(x, Positions(ps, ids)) ==> LostAt(x, ps)
  {
    assert forall p :: p in Positions(ps, ids) ==> p in ps;
  }

  /**
   * From the loops of a patch to its new triangles. Their projected areas, and what the
   * triangulator lost, add up to the largest loop less the others.
   */
  method RetriangulateLoops(vs: seq<Vec3>, axis: nat, normalSign: real, loops: seq<seq<nat>>)
    returns (found: bool, newFaces: seq<Face>, clipped: bool, outer: nat,
             ghost stuck: seq<seq<Vertex>>, ghost unbridged: seq<seq<Vertex>>, ghost cuts: seq<Cut>,
             ghost x: R.Stranding)
    requires loops != [] && LoopsIn(loops, |vs|)
    ensures FacesIn(newFaces, |vs|) && (!found ==> newFaces == [])
    ensures outer < |loops|
    ensures forall i :: 0 <= i < |loops| ==>
      Abs(AreaOf(Project(vs, axis), loops[i])) <= Abs(AreaOf(Project(vs, axis), loops[outer]))
    ensures clipped ==>
      PatchArea(Project(vs, axis), newFaces) + Lost(stuck, unbridged, cuts)
      == Abs(AreaOf(Project(vs, axis), loops[outer])) - HolesTotal(Project(vs, axis), loops, outer, |loops|)
    ensures !clipped ==>
      !found && (AreaOf(Project(vs, axis), loops[outer]) == 0.0 || (|loops| > 1 && LostAt(x, Project(vs, axis))))
    ensures ForReasons(stuck, cuts) && (|loops| == 1 ==> unbridged == [])
    ensures clipped && cuts == [] ==> forall f :: f in newFaces ==> FaceArea(Project(vs, axis), f) > 0.0
  {
    ghost var ps := Project(vs, axis);
    var areas;
    outer, areas := OuterLoop(vs, axis, loops);
    var turned, turnedAreas := TurnLoops(vs, axis, loops, areas, areas[outer] * normalSign < 0.0);
    HolesTotalSame(ps, loops, turned, outer, |loops|);
    var polygon, allIndices := AssemblePolygon(vs, axis, turned, turnedAreas, outer);
    ghost var points := Positions(ps, allIndices);
    var r;
    r, clipped, stuck, unbridged, cuts, x := Clipped(polygon, points);
    AmongPositions(x, ps, allIndices);
    found, newFaces := r.indices != [], [];
    if found {
      newFaces := CollectTriangles(allIndices, r.indices, |vs|, ps);
    }
  }

  /** Every loop of a map over n vertices stays below n. */
  lemma LoopsBelow(next: map<nat, nat>, loops: seq<seq<nat>>, n: nat)
    requires Decomposes(next, loops) && forall k :: k in next ==> k < n
    ensures LoopsIn(loops, n)
  {
    forall i | 0 <= i < |loops|
      ensures LoopIn(loops[i], n)
    {
      forall j | 0 <= j < |loops[i]|
        ensures loops[i][j] < n
      {
        assert Leads(next, loops[i], j);
      }
    }
  }

  lemma BorderBelow(fs: seq<Face>, next: map<nat, nat>, n: nat)
    requires FacesIn(fs, n) && Follows(next, AllSides(fs))
    ensures forall k :: k in next ==> k < n
  {
    forall k | k in next
      ensures k < n
    {
      var e := Edge(k, next[k]);
      assert e in Border(AllSides(fs));
      AllSidesAre(fs, e);
      var i :| 0 <= i < |fs| && Orientation.Runs(fs[i], e.from, e.to);
      assert FaceIn(fs[i], n);
    }
  }

  /**
   * The border loops of a group of faces, in whatever order the hash maps are run through. They are
   * found exactly if the border closes up. If the directed edges are distinct, it does so unless a
   * border vertex branches.
   */
  method BorderLoops(faces: seq<Face>, group: seq<nat>, n: nat,
                     listEdges: set<Edge> -> seq<Edge>, listKeys: set<nat> -> seq<nat>)
    returns (loops: seq<seq<nat>>, ghost next: map<nat, nat>)
    requires FacesIn(faces, n) && forall i :: 0 <= i < |group| ==> group[i] < |faces|
    requires forall s :: Enumerates(listEdges(s), s)
    requires forall s :: Enumerates(listKeys(s), s)
    ensures loops != [] ==> LoopsIn(loops, n) && Follows(next, AllSides(Faces(faces, group))) && Decomposes(next, loops)
    ensures loops != [] <==> ClosesUp(AllSides(Faces(faces, group)))
    ensures Apart(Faces(faces, group)) ==>
      (loops != [] <==> Unbranched(AllSides(Faces(faces, group))) && Border(AllSides(Faces(faces, group))) != {})
  {
    ghost var fs := Faces(faces, group);
    assert FacesIn(fs, n) by {
      forall i | 0 <= i < |fs|
        ensures FaceIn(fs[i], n)
      {
        assert FaceIn(faces[group[i]], n);
      }
    }
    var halfEdges := CollectHalfEdges(faces, group);
    var m := BoundaryNext(halfEdges, listEdges(halfEdges.Keys));
    next := m;
    loops := [];
    if Unbranched(AllSides(fs)) {
      NextEmpty(AllSides(fs), next);
      ClosesUpPermutes(AllSides(fs), next);
      BorderBelow(fs, next, n);
      if Apart(fs) {
        BorderPermutes(fs, next);
      }
    }
    if |m| == 0 {
      assert m.Keys == {};
      return;
    }
    loops := TraceLoops(m, listKeys(m.Keys), n);
    if loops != [] {
      LoopsBelow(next, loops, n);
    }
  }
}
