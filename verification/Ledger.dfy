/** The account of areas that the triangulator must balance: what it emits, cuts and gives up. */
module Ledger {
  import opened Plane
  import opened EarGeometry
  import opened Diagonals

  /** Vertex i of the input. */
  ghost function Corner(pts: seq<Point>, i: nat): Point {
    if i < |pts| then pts[i] else Point(0.0, 0.0)
  }

  /** Doubled signed area of triangle number t of an index list. */
  ghost function TriArea(pts: seq<Point>, indices: seq<nat>, t: nat): real
    requires 3 * t + 2 < |indices|
  {
    Tri2(Corner(pts, indices[3 * t]), Corner(pts, indices[3 * t + 1]), Corner(pts, indices[3 * t + 2]))
  }

  /** Doubled signed area of the first n triangles. */
  ghost function Emitted(pts: seq<Point>, indices: seq<nat>, n: nat): real
    requires 3 * n <= |indices|
  {
    if n == 0 then 0.0 else Emitted(pts, indices, n - 1) + TriArea(pts, indices, n - 1)
  }

  /** The same with every triangle counted positively. */
  ghost function Covered(pts: seq<Point>, indices: seq<nat>, n: nat): real
    requires 3 * n <= |indices|
  {
    if n == 0 then 0.0 else Covered(pts, indices, n - 1) + Abs(TriArea(pts, indices, n - 1))
  }

  ghost predicate AllPositive(pts: seq<Point>, indices: seq<nat>) {
    forall t: nat :: 3 * t + 2 < |indices| ==> TriArea(pts, indices, t) > 0.0
  }

  ghost function Points(vs: seq<Vertex>): (r: seq<Point>)
    ensures |r| == |vs|
    ensures forall k :: 0 <= k < |vs| ==> r[k] == vs[k].pt
  {
    seq(|vs|, k requires 0 <= k < |vs| => vs[k].pt)
  }

  /** Doubled signed area of a list of rings. */
  ghost function RingsArea(rings: seq<seq<Vertex>>): real {
    if rings == [] then 0.0 else RingsArea(rings[..|rings| - 1]) + Area2(Points(rings[|rings| - 1]))
  }

  /** A corner p, n, b that cureLocalIntersections cut off without covering it; a is the vertex before p. */
  datatype Cut = Cut(a: Point, p: Point, n: Point, b: Point)

  /** Corners are cut off only between input points whose connections cross. */
  ghost predicate Crossed(c: Cut, pts: seq<Point>) {
    Intersects(c.a, c.p, c.n, c.b) && c.a in pts && c.p in pts && c.n in pts && c.b in pts
  }

  ghost function CutsArea(cuts: seq<Cut>): real {
    if cuts == [] then 0.0
    else CutsArea(cuts[..|cuts| - 1]) + Tri2(cuts[|cuts| - 1].p, cuts[|cuts| - 1].n, cuts[|cuts| - 1].b)
  }

  lemma {:induction false} EmittedPrefix(pts: seq<Point>, indices: seq<nat>, more: seq<nat>, n: nat)
    requires 3 * n <= |indices|
    ensures Emitted(pts, indices + more, n) == Emitted(pts, indices, n)
  {
    if n > 0 {
      EmittedPrefix(pts, indices, more, n - 1);
    }
  }

  lemma EmitOne(pts: seq<Point>, indices: seq<nat>, a: nat, b: nat, c: nat)
    requires |indices| % 3 == 0
    ensures Emitted(pts, indices + [a, b, c], |indices| / 3 + 1)
         == Emitted(pts, indices, |indices| / 3) + Tri2(Corner(pts, a), Corner(pts, b), Corner(pts, c))
    ensures AllPositive(pts, indices) && Tri2(Corner(pts, a), Corner(pts, b), Corner(pts, c)) > 0.0
            ==> AllPositive(pts, indices + [a, b, c])
  {
    var n := |indices| / 3;
    EmittedPrefix(pts, indices, [a, b, c], n);
    var r := indices + [a, b, c];
    assert r[3 * n] == a && r[3 * n + 1] == b && r[3 * n + 2] == c;
    forall t: nat | 3 * t + 2 < |r| && t < n
      ensures TriArea(pts, r, t) == TriArea(pts, indices, t)
    {
    }
  }

  lemma {:induction false} CoveredIsEmitted(pts: seq<Point>, indices: seq<nat>, n: nat)
    requires 3 * n <= |indices| && AllPositive(pts, indices)
    ensures Covered(pts, indices, n) == Emitted(pts, indices, n)
  {
    if n > 0 {
      CoveredIsEmitted(pts, indices, n - 1);
    }
  }

  /** A ring at which nothing is left to try: no vertex is an ear, and there is no valid diagonal. */
  ghost predicate GivenUp(vs: seq<Vertex>) {
    NoEarFrom(Points(vs), 0) && NoDiagonal(vs)
  }

  /** The input vertices, the triangles emitted, the rings given up and the corners cut off. */
  datatype Account = Account(pts: seq<Point>, indices: seq<nat>,
                             stuck: seq<seq<Vertex>>, unbridged: seq<seq<Vertex>>, cuts: seq<Cut>)

  /** Doubled area emitted, given up or cut off so far. */
  ghost function Total(a: Account): real {
    Emitted(a.pts, a.indices, |a.indices| / 3) + RingsArea(a.stuck) + RingsArea(a.unbridged) + CutsArea(a.cuts)
  }

  /**
   * The output lists triangles over the input; they all turn the same way unless a corner was
   * cut off; and rings were only given up for want of an ear and of a diagonal,
   * and corners only cut off at crossings.
   */
  ghost predicate InOrder(a: Account) {
    && |a.indices| % 3 == 0
    && (forall k :: 0 <= k < |a.indices| ==> a.indices[k] < |a.pts|)
    && (a.cuts == [] ==> AllPositive(a.pts, a.indices))
    && (forall k :: 0 <= k < |a.stuck| ==> GivenUp(a.stuck[k]))
    && (forall k :: 0 <= k < |a.cuts| ==> Crossed(a.cuts[k], a.pts))
  }

  lemma EmitKeepsOrder(a: Account, i: nat, j: nat, k: nat)
    requires InOrder(a) && i < |a.pts| && j < |a.pts| && k < |a.pts|
    requires Tri2(a.pts[i], a.pts[j], a.pts[k]) > 0.0 || a.cuts != []
    ensures InOrder(a.(indices := a.indices + [i, j, k]))
    ensures Total(a.(indices := a.indices + [i, j, k])) == Total(a) + Tri2(a.pts[i], a.pts[j], a.pts[k])
  {
    EmitOne(a.pts, a.indices, i, j, k);
  }

  lemma CutKeepsOrder(a: Account, c: Cut)
    requires InOrder(a) && Crossed(c, a.pts)
    ensures InOrder(a.(cuts := a.cuts + [c]))
    ensures Total(a.(cuts := a.cuts + [c])) == Total(a) + Tri2(c.p, c.n, c.b)
  {
  }
}
