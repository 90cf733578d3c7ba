/** The diagonal test that splitEarcut uses when no ear is left. */
module Diagonals {
  import opened Cyclic
  import opened Plane
  import opened EarGeometry
  import opened Rings

  /** A ring vertex without its links. */
  datatype Vertex = Vertex(i: nat, pt: Point)

  ghost function Vs(s: seq<Node>): (r: seq<Vertex>)
    ensures |r| == |s|
    ensures forall k :: 0 <= k < |s| ==> r[k] == Vertex(s[k].i, s[k].pt)
  {
    seq(|s|, k requires 0 <= k < |s| => Vertex(s[k].i, s[k].pt))
  }

  /** Ring edge j, unless it touches an end of the diagonal, meets the diagonal from vs[0] to vs[k]. */
  ghost predicate EdgeMeets(vs: seq<Vertex>, k: nat, j: nat)
    requires k < |vs| && j < |vs|
  {
    var a, b, p, q := vs[0], vs[k], vs[j], vs[Succ(j, |vs|)];
    && p.i != a.i && q.i != a.i && p.i != b.i && q.i != b.i
    && Intersects(p.pt, q.pt, a.pt, b.pt)
  }

  /** Whether edge p-q is crossed by the ray from m to the right. */
  predicate RayCrosses(p: Point, q: Point, m: Point) {
    && (p.y > m.y) != (q.y > m.y)
    && q.y != p.y
    && m.x < (q.x - p.x) * (m.y - p.y) / (q.y - p.y) + p.x
  }

  /** Parity of the crossings of the first `count` ring edges. */
  ghost predicate OddCrossings(vs: seq<Vertex>, m: Point, count: nat)
    requires count <= |vs|
  {
    count > 0 && OddCrossings(vs, m, count - 1) != RayCrosses(vs[count - 1].pt, vs[Succ(count - 1, |vs|)].pt, m)
  }

  function Middle(p: Point, q: Point): Point {
    Point((p.x + q.x) / 2.0, (p.y + q.y) / 2.0)
  }

  /** isValidDiagonal, for the diagonal between vs[0] and vs[k] of the ring listing vs. */
  ghost predicate ValidDiagonal(vs: seq<Vertex>, k: nat)
    requires 2 <= k < |vs| - 1
  {
    var n := |vs|;
    var a, an, ap := vs[0], vs[1], vs[n - 1];
    var b, bn, bp := vs[k], vs[k + 1], vs[k - 1];
    && an.i != b.i && ap.i != b.i
    && (forall j :: 0 <= j < n ==> !EdgeMeets(vs, k, j))
    && (|| (&& LocallyInside(ap.pt, a.pt, an.pt, b.pt)
            && LocallyInside(bp.pt, b.pt, bn.pt, a.pt)
            && OddCrossings(vs, Middle(a.pt, b.pt), n)
            && (Turn(ap.pt, a.pt, bp.pt) != 0.0 || Turn(a.pt, bp.pt, b.pt) != 0.0))
        || (a.pt == b.pt && Turn(ap.pt, a.pt, an.pt) > 0.0 && Turn(bp.pt, b.pt, bn.pt) > 0.0))
  }

  ghost predicate NoDiagonalFrom(vs: seq<Vertex>) {
    forall k :: 2 <= k < |vs| - 1 && vs[0].i != vs[k].i ==> !ValidDiagonal(vs, k)
  }

  ghost function Turned(vs: seq<Vertex>, r: nat): seq<Vertex>
    requires r <= |vs|
  {
    vs[r..] + vs[..r]
  }

  /** No two vertices of the ring have a valid diagonal between them. */
  ghost predicate NoDiagonal(vs: seq<Vertex>) {
    forall r :: 0 <= r < |vs| ==> NoDiagonalFrom(Turned(vs, r))
  }

  lemma StepAlong(s: seq<Node>, j: nat)
    requires Ring(s) && j < |s|
    ensures s[j].next == s[Succ(j, |s|)]
  {
  }

  method IntersectsPolygon(a: Node, b: Node, ghost s: seq<Node>, ghost k: nat) returns (r: bool)
    requires Ring(s) && s[0] == a && k < |s| && s[k] == b
    ensures r <==> exists j :: 0 <= j < |s| && EdgeMeets(Vs(s), k, j)
  {
    ghost var vs := Vs(s);
    var p := a;
    ghost var j := 0;
    while true
      invariant j < |s| && p == s[j]
      invariant forall e :: 0 <= e < j ==> !EdgeMeets(vs, k, e)
      decreases |s| - j
    {
      StepAlong(s, j);
      if p.i != a.i && p.next.i != a.i && p.i != b.i && p.next.i != b.i && Intersects(p.pt, p.next.pt, a.pt, b.pt) {
        assert EdgeMeets(vs, k, j);
        return true;
      }
      assert !EdgeMeets(vs, k, j);
      p := p.next;
      if p == a {
        return false;
      }
      j := j + 1;
    }
  }

  method MiddleInside(a: Node, b: Node, ghost s: seq<Node>) returns (inside: bool)
    requires Ring(s) && s[0] == a
    ensures inside == OddCrossings(Vs(s), Middle(a.pt, b.pt), |s|)
  {
    ghost var vs := Vs(s);
    var p := a;
    inside := false;
    var m := Middle(a.pt, b.pt);
    ghost var j: nat := 0;
    while true
      invariant j < |s| && p == s[j]
      invariant inside == OddCrossings(vs, m, j)
      decreases |s| - j
    {
      StepAlong(s, j);
      assert OddCrossings(vs, m, j + 1) == (OddCrossings(vs, m, j) != RayCrosses(p.pt, p.next.pt, m));
      if RayCrosses(p.pt, p.next.pt, m) {
        inside := !inside;
      }
      p := p.next;
      j := j + 1;
      if p == a {
        return;
      }
    }
  }

  method IsValidDiagonal(a: Node, b: Node, ghost s: seq<Node>, ghost k: nat) returns (r: bool)
    requires Ring(s) && s[0] == a && 2 <= k < |s| - 1 && s[k] == b
    ensures r == ValidDiagonal(Vs(s), k)
  {
    RingNext(s);
    assert b.next == s[k + 1] && b.prev == s[k - 1];
    if a.next.i == b.i || a.prev.i == b.i {
      return false;
    }
    var meets := IntersectsPolygon(a, b, s, k);
    if meets {
      return false;
    }
    if LocallyInside(a.prev.pt, a.pt, a.next.pt, b.pt) && LocallyInside(b.prev.pt, b.pt, b.next.pt, a.pt) {
      var inside := MiddleInside(a, b, s);
      if inside && (Turn(a.prev.pt, a.pt, b.prev.pt) != 0.0 || Turn(a.pt, b.prev.pt, b.pt) != 0.0) {
        return true;
      }
    }
    return a.pt == b.pt && Turn(a.prev.pt, a.pt, a.next.pt) > 0.0 && Turn(b.prev.pt, b.pt, b.next.pt) > 0.0;
  }
}
