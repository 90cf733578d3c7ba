/** Points of the plane, and the doubled signed area of closed point lists. */
module Plane {

  datatype Point = Point(x: real, y: real)

  function Cross(p: Point, q: Point): real {
    p.x * q.y - q.x * p.y
  }

  /** Doubled signed area of the triangle p, q, r; positive when counter-clockwise. */
  function Tri2(p: Point, q: Point, r: Point): real {
    (q.x - p.x) * (r.y - p.y) - (q.y - p.y) * (r.x - p.x)
  }

  /** Sum of the edge terms along an open chain. */
  function PathSum(s: seq<Point>): real {
    if |s| < 2 then 0.0 else Cross(s[0], s[1]) + PathSum(s[1..])
  }

  /** Shoelace sum of the closed chain s. */
  function Area2(s: seq<Point>): real {
    if |s| == 0 then 0.0 else PathSum(s) + Cross(s[|s| - 1], s[0])
  }

  function Abs(r: real): real {
    if r < 0.0 then -r else r
  }

  function Min(a: real, b: real): real {
    if a <= b then a else b
  }

  function Max(a: real, b: real): real {
    if a >= b then a else b
  }

  /** p lies in the box around a and b. */
  predicate Boxed(p: Point, a: Point, b: Point) {
    Min(a.x, b.x) <= p.x <= Max(a.x, b.x) && Min(a.y, b.y) <= p.y <= Max(a.y, b.y)
  }

  /** The triangulator's turn test: negative for a counter-clockwise corner p, q, r. */
  function Turn(p: Point, q: Point, r: Point): real {
    (q.y - p.y) * (r.x - q.x) - (q.x - p.x) * (r.y - q.y)
  }

  lemma TurnIsTri(p: Point, q: Point, r: Point)
    ensures Turn(p, q, r) == -Tri2(p, q, r)
    ensures q == r ==> Tri2(p, q, r) == 0.0
  {
  }

  lemma TriIsCrosses(p: Point, q: Point, r: Point)
    ensures Tri2(p, q, r) == Cross(p, q) + Cross(q, r) + Cross(r, p)
  {
  }

  lemma {:induction false} PathSumAppend(a: seq<Point>, b: seq<Point>)
    requires |a| > 0 && |b| > 0
    ensures PathSum(a + b) == PathSum(a) + Cross(a[|a| - 1], b[0]) + PathSum(b)
  {
    if |a| == 1 {
      assert (a + b)[1..] == b;
    } else {
      assert (a + b)[1..] == a[1..] + b;
      PathSumAppend(a[1..], b);
    }
  }

  lemma Area2Append(a: seq<Point>, b: seq<Point>)
    requires |a| > 0 && |b| > 0
    ensures Area2(a + b)
         == PathSum(a) + Cross(a[|a| - 1], b[0]) + PathSum(b) + Cross(b[|b| - 1], a[0])
  {
    PathSumAppend(a, b);
  }

  /** The area of a closed chain does not depend on where its listing starts. */
  lemma Area2Rotate(a: seq<Point>, b: seq<Point>)
    ensures Area2(a + b) == Area2(b + a)
  {
    if |a| == 0 {
      assert a + b == b && b + a == b;
    } else if |b| == 0 {
      assert a + b == a && b + a == a;
    } else {
      Area2Append(a, b);
      Area2Append(b, a);
    }
  }

  lemma Area2Small(s: seq<Point>)
    requires |s| <= 2
    ensures Area2(s) == 0.0
  {
    if |s| == 2 {
      assert PathSum(s) == Cross(s[0], s[1]) + PathSum(s[1..]);
    }
  }

  /** Cutting the vertex q off a closed chain removes exactly the triangle at q. */
  lemma Area2CutFirst(q: Point, rest: seq<Point>)
    requires |rest| > 0
    ensures Area2([q] + rest) == Area2(rest) + Tri2(rest[|rest| - 1], q, rest[0])
  {
    Area2Append([q], rest);
  }

  /** A diagonal from a to b splits a closed chain into two whose areas add up. */
  lemma Area2Split(a: Point, b: Point, inner: seq<Point>, outer: seq<Point>)
    ensures Area2([a] + inner + [b] + outer) == Area2([a] + inner + [b]) + Area2([a, b] + outer)
  {
    var ai := [a] + inner;
    var bo := [b] + outer;
    assert [a] + inner + [b] + outer == ai + bo;
    Area2Append(ai, bo);
    Area2Append(ai, [b]);
    assert [a, b] + outer == [a] + bo;
    Area2Append([a], bo);
  }

  /** Joining two closed chains through a doubled bridge a-b adds their areas. */
  lemma Area2Bridge(a: Point, b: Point, outer: seq<Point>, hole: seq<Point>)
    ensures Area2([a] + ([b] + hole) + [b, a] + outer) == Area2([a] + outer) + Area2([b] + hole)
  {
    var h := [b] + hole;
    assert [a] + h + [b, a] + outer == ([a] + h) + ([b, a] + outer);
    Area2Append([a] + h, [b, a] + outer);
    PathSumAppend([a], h);
    assert [b, a] + outer == [b] + ([a] + outer);
    PathSumAppend([b], [a] + outer);
    PathSumAppend([a], h);
  }

  function Reversed(s: seq<Point>): (r: seq<Point>)
    ensures |r| == |s|
    ensures forall k :: 0 <= k < |s| ==> r[k] == s[|s| - 1 - k]
  {
    if |s| == 0 then [] else Reversed(s[1..]) + [s[0]]
  }

  lemma {:induction false} PathSumReversed(s: seq<Point>)
    ensures PathSum(Reversed(s)) == -PathSum(s)
  {
    if |s| > 1 {
      PathSumReversed(s[1..]);
      PathSumAppend(Reversed(s[1..]), [s[0]]);
    }
  }

  lemma Area2Reversed(s: seq<Point>)
    ensures Area2(Reversed(s)) == -Area2(s)
  {
    PathSumReversed(s);
  }
}
