/** The area of a patch of triangles, read off its border. */
module Stokes {
  import opened Cyclic
  import opened Distinctness
  import opened Plane
  import opened Meshes
  import opened Orientation
  import opened HalfEdges
  import opened BoundaryLoops

  /** Position of vertex i. */
  ghost function Spot(ps: seq<Point>, i: nat): Point {
    if i < |ps| then ps[i] else Point(0.0, 0.0)
  }

  /** Doubled signed area of a face in the plane. */
  ghost function FaceArea(ps: seq<Point>, f: Face): real {
    Tri2(Spot(ps, f.a), Spot(ps, f.b), Spot(ps, f.c))
  }

  ghost function PatchArea(ps: seq<Point>, fs: seq<Face>): real {
    if fs == [] then 0.0 else PatchArea(ps, fs[..|fs| - 1]) + FaceArea(ps, fs[|fs| - 1])
  }

  /** Twice the area between the origin and a directed edge. */
  ghost function EdgeTerm(ps: seq<Point>): Edge -> real {
    (e: Edge) => Cross(Spot(ps, e.from), Spot(ps, e.to))
  }

  /** The weight changes sign with the direction of the edge. */
  ghost predicate Odd(w: Edge -> real) {
    forall e :: w(Reverse(e)) == -w(e)
  }

  /** Sum of the weights of a set of edges. */
  ghost function Sum(w: Edge -> real, s: set<Edge>): real {
    if s == {} then 0.0
    else
      var e :| e in s;
      w(e) + Sum(w, s - {e})
  }

  lemma {:induction false} SumRemove(w: Edge -> real, s: set<Edge>, x: Edge)
    requires x in s
    ensures Sum(w, s) == w(x) + Sum(w, s - {x})
    decreases |s|
  {
    var e :| e in s && Sum(w, s) == w(e) + Sum(w, s - {e});
    if e != x {
      SumRemove(w, s - {e}, x);
      SumRemove(w, s - {x}, e);
      assert s - {e} - {x} == s - {x} - {e};
    }
  }

  lemma {:induction false} SumUnion(w: Edge -> real, s: set<Edge>, t: set<Edge>)
    requires s !! t
    ensures Sum(w, s + t) == Sum(w, s) + Sum(w, t)
    decreases |t|
  {
    if t == {} {
      assert s + t == s;
    } else {
      var e :| e in t;
      SumRemove(w, t, e);
      SumRemove(w, s + t, e);
      assert s + t - {e} == s + (t - {e});
      SumUnion(w, s, t - {e});
    }
  }

  lemma SumOne(w: Edge -> real, e: Edge)
    ensures Sum(w, {e}) == w(e)
  {
    SumRemove(w, {e}, e);
    assert {e} - {e} == {};
  }

  lemma {:induction false} SumReverses(w: Edge -> real, s: set<Edge>)
    requires Odd(w)
    ensures Sum(w, Reverses(s)) == -Sum(w, s)
    decreases |s|
  {
    if s == {} {
      assert Reverses(s) == {};
    } else {
      var e :| e in s;
      SumRemove(w, s, e);
      SumReverses(w, s - {e});
      assert Reverse(e) in Reverses(s);
      SumRemove(w, Reverses(s), Reverse(e));
      assert Reverses(s) - {Reverse(e)} == Reverses(s - {e});
    }
  }

  /** Edges that occur in both directions cancel. */
  lemma InnerCancels(w: Edge -> real, h: set<Edge>)
    requires Odd(w)
    ensures Sum(w, h) == Sum(w, Border(h))
  {
    var i := Inner(h);
    forall e | e in i
      ensures e in Reverses(i)
    {
      assert Reverse(e) in i && Reverse(Reverse(e)) == e;
    }
    assert Reverses(i) == i;
    SumReverses(w, i);
    assert h == Border(h) + i;
    SumUnion(w, Border(h), i);
  }

  lemma SumSides(w: Edge -> real, f: Face)
    requires ThreeSides(f)
    ensures Sum(w, Sides(f)) == w(Edge(f.a, f.b)) + w(Edge(f.b, f.c)) + w(Edge(f.c, f.a))
  {
    var x, y, z := Edge(f.a, f.b), Edge(f.b, f.c), Edge(f.c, f.a);
    SumOne(w, x);
    SumOne(w, y);
    SumOne(w, z);
    SumUnion(w, {x}, {y});
    SumUnion(w, {x} + {y}, {z});
    assert Sides(f) == {x} + {y} + {z};
  }

  /** The area of a patch is the sum over its directed edges. */
  lemma {:induction false} PatchIsEdges(ps: seq<Point>, fs: seq<Face>)
    requires Apart(fs)
    ensures PatchArea(ps, fs) == Sum(EdgeTerm(ps), AllSides(fs))
  {
    if fs != [] {
      var front, f := fs[..|fs| - 1], fs[|fs| - 1];
      PatchIsEdges(ps, front);
      SumUnion(EdgeTerm(ps), AllSides(front), Sides(f));
      SumSides(EdgeTerm(ps), f);
      TriIsCrosses(Spot(ps, f.a), Spot(ps, f.b), Spot(ps, f.c));
    }
  }

  lemma EdgeTermOdd(ps: seq<Point>)
    ensures Odd(EdgeTerm(ps))
  {
    forall e
      ensures EdgeTerm(ps)(Reverse(e)) == -EdgeTerm(ps)(e)
    {
      CrossOdd(Spot(ps, e.from), Spot(ps, e.to));
    }
  }

  lemma CrossOdd(p: Point, q: Point)
    ensures Cross(q, p) == -Cross(p, q)
  {
  }

  // --- Loops ---

  ghost function Positions(ps: seq<Point>, loop: seq<nat>): (r: seq<Point>)
    ensures |r| == |loop|
  {
    seq(|loop|, i requires 0 <= i < |loop| => Spot(ps, loop[i]))
  }

  ghost function Hop(chain: seq<nat>, j: nat): Edge
    requires j < |chain| - 1
  {
    Edge(chain[j], chain[j + 1])
  }

  /** The edges from each vertex of an open chain to the next. */
  ghost function ChainEdges(chain: seq<nat>): set<Edge> {
    set j | 0 <= j < |chain| - 1 :: Hop(chain, j)
  }

  ghost function LoopEdges(loop: seq<nat>): set<Edge> {
    if loop == [] then {} else ChainEdges(loop) + {Edge(loop[|loop| - 1], loop[0])}
  }

  lemma {:induction false} ChainSum(ps: seq<Point>, chain: seq<nat>)
    requires Distinct(chain)
    ensures Sum(EdgeTerm(ps), ChainEdges(chain)) == PathSum(Positions(ps, chain))
  {
    if |chain| < 2 {
      assert ChainEdges(chain) == {};
    } else {
      var rest, e := chain[1..], Edge(chain[0], chain[1]);
      ChainSum(ps, rest);
      assert Positions(ps, chain)[1..] == Positions(ps, rest);
      ChainFirst(chain);
      SumUnion(EdgeTerm(ps), {e}, ChainEdges(rest));
      SumOne(EdgeTerm(ps), e);
    }
  }

  lemma ChainFirst(chain: seq<nat>)
    requires Distinct(chain) && |chain| >= 2
    ensures ChainEdges(chain) == {Edge(chain[0], chain[1])} + ChainEdges(chain[1..])
    ensures Edge(chain[0], chain[1]) !in ChainEdges(chain[1..])
  {
    var rest := chain[1..];
    assert Hop(chain, 0) == Edge(chain[0], chain[1]);
    forall x | x in ChainEdges(chain)
      ensures x == Edge(chain[0], chain[1]) || x in ChainEdges(rest)
    {
      var j :| 0 <= j < |chain| - 1 && x == Hop(chain, j);
      if j > 0 {
        assert x == Hop(rest, j - 1);
      }
    }
    forall x | x in ChainEdges(rest)
      ensures x in ChainEdges(chain) && x != Edge(chain[0], chain[1])
    {
      var j :| 0 <= j < |rest| - 1 && x == Hop(rest, j);
      assert x == Hop(chain, j + 1);
    }
  }

  /** The doubled area of a loop is the sum over its edges. */
  lemma LoopSum(ps: seq<Point>, loop: seq<nat>)
    requires Distinct(loop)
    ensures Sum(EdgeTerm(ps), LoopEdges(loop)) == Area2(Positions(ps, loop))
  {
    if loop != [] {
      var e := Edge(loop[|loop| - 1], loop[0]);
      ChainSum(ps, loop);
      forall x | x in ChainEdges(loop)
        ensures x != e
      {
        var j :| 0 <= j < |loop| - 1 && x == Hop(loop, j);
      }
      SumUnion(EdgeTerm(ps), ChainEdges(loop), {e});
      SumOne(EdgeTerm(ps), e);
    }
  }

  /** Doubled signed area of a list of loops. */
  ghost function LoopsArea(ps: seq<Point>, loops: seq<seq<nat>>): real {
    if loops == [] then 0.0 else LoopsArea(ps, loops[..|loops| - 1]) + Area2(Positions(ps, loops[|loops| - 1]))
  }

  ghost function LoopsEdges(loops: seq<seq<nat>>): set<Edge> {
    if loops == [] then {} else LoopsEdges(loops[..|loops| - 1]) + LoopEdges(loops[|loops| - 1])
  }

  lemma LoopEdgesAre(loop: seq<nat>, e: Edge)
    ensures e in LoopEdges(loop) <==> exists j :: 0 <= j < |loop| && e == Edge(loop[j], loop[Succ(j, |loop|)])
  {
    if loop != [] {
      if e in ChainEdges(loop) {
        var j :| 0 <= j < |loop| - 1 && e == Hop(loop, j);
        assert Succ(j, |loop|) == j + 1;
      }
      assert Succ(|loop| - 1, |loop|) == 0;
      if j :| 0 <= j < |loop| && e == Edge(loop[j], loop[Succ(j, |loop|)]) {
        if j < |loop| - 1 {
          assert e == Hop(loop, j);
        }
      }
    }
  }

  lemma {:induction false} LoopsEdgesFrom(loops: seq<seq<nat>>, e: Edge)
    ensures e in LoopsEdges(loops) <==> exists i :: 0 <= i < |loops| && e in LoopEdges(loops[i])
  {
    if loops != [] {
      var front := loops[..|loops| - 1];
      LoopsEdgesFrom(front, e);
      assert forall i :: 0 <= i < |front| ==> front[i] == loops[i];
    }
  }

  lemma {:induction false} LoopsSum(ps: seq<Point>, loops: seq<seq<nat>>)
    requires forall i :: 0 <= i < |loops| ==> Distinct(loops[i])
    requires forall i, j :: 0 <= i < j < |loops| ==> Members(loops[i]) !! Members(loops[j])
    ensures Sum(EdgeTerm(ps), LoopsEdges(loops)) == LoopsArea(ps, loops)
  {
    if loops != [] {
      var front, last := loops[..|loops| - 1], loops[|loops| - 1];
      LoopsSum(ps, front);
      LoopSum(ps, last);
      forall e | e in LoopsEdges(front)
        ensures e !in LoopEdges(last)
      {
        LoopsEdgesFrom(front, e);
        var i :| 0 <= i < |front| && e in LoopEdges(front[i]);
        LoopEdgesAre(front[i], e);
        LoopEdgesAre(last, e);
        assert front[i] == loops[i];
        assert e.from in Members(loops[i]);
      }
      SumUnion(EdgeTerm(ps), LoopsEdges(front), LoopEdges(last));
    }
  }

  lemma BorderOnLoops(h: set<Edge>, next: map<nat, nat>, loops: seq<seq<nat>>, e: Edge)
    requires Follows(next, h) && Decomposes(next, loops) && e in Border(h)
    ensures e in LoopsEdges(loops)
  {
    assert e == Edge(e.from, e.to);
    var i, j := Place(next, loops, e.from);
    LoopEdgesAre(loops[i], e);
    LoopsEdgesFrom(loops, e);
  }

  lemma LoopsOnBorder(h: set<Edge>, next: map<nat, nat>, loops: seq<seq<nat>>, e: Edge)
    requires Follows(next, h) && Decomposes(next, loops) && e in LoopsEdges(loops)
    ensures e in Border(h)
  {
    LoopsEdgesFrom(loops, e);
    var i :| 0 <= i < |loops| && e in LoopEdges(loops[i]);
    LoopEdgesAre(loops[i], e);
    var j :| 0 <= j < |loops[i]| && e == Edge(loops[i][j], loops[i][Succ(j, |loops[i]|)]);
    assert Leads(next, loops[i], j);
  }

  /** Loops that decompose the border map run along exactly the border edges. */
  lemma LoopsCoverBorder(h: set<Edge>, next: map<nat, nat>, loops: seq<seq<nat>>)
    requires Follows(next, h) && Decomposes(next, loops)
    ensures LoopsEdges(loops) == Border(h)
  {
    forall e
      ensures e in LoopsEdges(loops) <==> e in Border(h)
    {
      if e in Border(h) {
        BorderOnLoops(h, next, loops, e);
      }
      if e in LoopsEdges(loops) {
        LoopsOnBorder(h, next, loops, e);
      }
    }
  }

  /**
   * Discrete Stokes: the projected areas of the faces of a patch with distinct directed edges add
   * up to the areas of its border loops.
   */
  lemma PatchIsLoops(ps: seq<Point>, fs: seq<Face>, next: map<nat, nat>, loops: seq<seq<nat>>)
    requires Apart(fs) && Follows(next, AllSides(fs)) && Decomposes(next, loops)
    ensures PatchArea(ps, fs) == LoopsArea(ps, loops)
  {
    PatchIsEdges(ps, fs);
    EdgeTermOdd(ps);
    InnerCancels(EdgeTerm(ps), AllSides(fs));
    LoopsCoverBorder(AllSides(fs), next, loops);
    LoopsSum(ps, loops);
  }
}
