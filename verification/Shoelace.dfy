/** The shoelace sum, edge by edge, and its fan form. */
module Shoelace {
  import opened Cyclic
  import opened Plane

  /** The edge terms of the first i edges of a closed chain. */
  ghost function AreaUpTo(ps: seq<Point>, i: nat): real
    requires i <= |ps|
  {
    if i == |ps| then Area2(ps) else PathSum(ps[..i + 1])
  }

  lemma PathGrows(a: seq<Point>, p: Point)
    requires |a| > 0
    ensures PathSum(a + [p]) == PathSum(a) + Cross(a[|a| - 1], p)
  {
    PathSumAppend(a, [p]);
  }

  lemma AreaStep(ps: seq<Point>, i: nat)
    requires i < |ps|
    ensures AreaUpTo(ps, i + 1) == AreaUpTo(ps, i) + Cross(ps[i], ps[Succ(i, |ps|)])
  {
    if i + 1 < |ps| {
      assert ps[..i + 2] == ps[..i + 1] + [ps[i + 1]];
      PathGrows(ps[..i + 1], ps[i + 1]);
    } else {
      assert ps[..i + 1] == ps;
    }
  }

  /** Signed areas of the triangles between a base point and the first n edges. */
  ghost function FanSum(base: Point, ps: seq<Point>, n: nat): real
    requires n <= |ps|
  {
    if n == 0 then 0.0 else FanSum(base, ps, n - 1) + Tri2(base, ps[n - 1], ps[Succ(n - 1, |ps|)])
  }

  lemma FanTerm(base: Point, p: Point, q: Point)
    ensures Tri2(base, p, q) == Cross(p, q) + Cross(base, p) - Cross(base, q)
  {
    TriIsCrosses(base, p, q);
    assert Cross(q, base) == -Cross(base, q);
  }

  lemma {:induction false} FanPrefix(base: Point, ps: seq<Point>, n: nat)
    requires n <= |ps| && |ps| > 0
    ensures FanSum(base, ps, n) == AreaUpTo(ps, n) + Cross(base, ps[0]) - Cross(base, ps[if n == |ps| then 0 else n])
  {
    if n > 0 {
      FanPrefix(base, ps, n - 1);
      AreaStep(ps, n - 1);
      FanTerm(base, ps[n - 1], ps[Succ(n - 1, |ps|)]);
    }
  }

  /** The fan sum is the shoelace sum, whatever the base point. */
  lemma FanIsArea(base: Point, ps: seq<Point>)
    ensures FanSum(base, ps, |ps|) == Area2(ps)
  {
    if |ps| > 0 {
      FanPrefix(base, ps, |ps|);
    }
  }
}
