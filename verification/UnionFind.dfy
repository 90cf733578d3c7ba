/** The union-find inside collapse_short_edges, against the labelling it is meant to compute. */
module UnionFind {
  import opened Meshes

  /** Every parent pointer leads to the same or a smaller index. */
  ghost predicate Forest(p: seq<nat>) {
    forall x :: 0 <= x < |p| ==> p[x] <= x
  }

  ghost function Root(p: seq<nat>, x: nat): (r: nat)
    requires Forest(p) && x < |p|
    ensures r <= x && p[r] == r
  {
    if p[x] == x then x else Root(p, p[x])
  }

  /** Pointing x at its grandparent changes no root. */
  lemma {:induction false} HalveKeepsRoots(p: seq<nat>, x: nat, y: nat)
    requires Forest(p) && x < |p| && y < |p|
    ensures Forest(p[x := p[p[x]]])
    ensures Root(p[x := p[p[x]]], y) == Root(p, y)
    decreases y
  {
    var q := p[x := p[p[x]]];
    assert p[x] != x ==> p[p[x]] < x;
    if q[y] != y {
      HalveKeepsRoots(p, x, q[y]);
    }
  }

  /** Linking root b below the smaller root a gives all of b's tree the root a. */
  lemma {:induction false} LinkMovesRoots(p: seq<nat>, a: nat, b: nat, y: nat)
    requires Forest(p) && a < b < |p| && p[a] == a && p[b] == b && y < |p|
    ensures Forest(p[b := a])
    ensures Root(p[b := a], y) == if Root(p, y) == b then a else Root(p, y)
    decreases y
  {
    if p[y] != y {
      LinkMovesRoots(p, a, b, p[y]);
    } else if y == b {
      assert Root(p[b := a], a) == a;
    }
  }

  /** All roots at once. */
  ghost function Roots(p: seq<nat>): (r: seq<nat>)
    requires Forest(p)
    ensures |r| == |p|
  {
    seq(|p|, x requires 0 <= x < |p| => Root(p, x))
  }

  /** find: follows parent pointers, halving the path on the way. */
  method Find(parent: array<nat>, x0: nat) returns (x: nat)
    requires Forest(parent[..]) && x0 < parent.Length
    modifies parent
    ensures Forest(parent[..]) && Roots(parent[..]) == Roots(old(parent[..]))
    ensures x == Root(parent[..], x0)
  {
    x := x0;
    ghost var before := parent[..];
    while parent[x] != x
      invariant x < parent.Length && Forest(parent[..]) && Roots(parent[..]) == Roots(before)
      invariant Root(before, x) == Root(before, x0)
      decreases x
    {
      x := Halve(parent, x, before);
    }
    assert Roots(parent[..])[x] == Roots(before)[x];
    assert Roots(parent[..])[x0] == Roots(before)[x0];
  }

  /** One turn of the loop of find. */
  method Halve(parent: array<nat>, x: nat, ghost before: seq<nat>) returns (r: nat)
    requires x < parent.Length && Forest(parent[..]) && parent[x] != x
    requires Forest(before) && Roots(parent[..]) == Roots(before)
    modifies parent
    ensures Forest(parent[..]) && Roots(parent[..]) == Roots(before)
    ensures r < x && Root(before, r) == Root(before, x)
  {
    ghost var p := parent[..];
    forall y | 0 <= y < |p|
      ensures Forest(p[x := p[p[x]]]) && Root(p[x := p[p[x]]], y) == Root(p, y)
    {
      HalveKeepsRoots(p, x, y);
    }
    parent[x] := parent[parent[x]];
    assert parent[..] == p[x := p[p[x]]];
    r := parent[x];
    assert Roots(before)[r] == Roots(p)[r] && Roots(before)[x] == Roots(p)[x];
    assert Root(p, x) == Root(p, p[x]) == Root(p, r);
  }

  /** The plain labelling that the forest stands for: joining a and b relabels one class. */
  ghost function Join(labels: seq<nat>, a: nat, b: nat): (r: seq<nat>)
    requires a < |labels| && b < |labels|
    ensures |r| == |labels|
  {
    var la, lb := labels[a], labels[b];
    var low := if la <= lb then la else lb;
    seq(|labels|, x requires 0 <= x < |labels| => if labels[x] == la || labels[x] == lb then low else labels[x])
  }

  /** unite. */
  method Unite(parent: array<nat>, a: nat, b: nat)
    requires Forest(parent[..]) && a < parent.Length && b < parent.Length
    modifies parent
    ensures Forest(parent[..]) && Roots(parent[..]) == Join(Roots(old(parent[..])), a, b)
  {
    ghost var before := Roots(parent[..]);
    var ra := Find(parent, a);
    var rb := Find(parent, b);
    assert Roots(parent[..])[a] == before[a] == ra && Roots(parent[..])[b] == before[b] == rb;
    if ra != rb {
      var low: nat, high: nat := if ra <= rb then ra else rb, if ra <= rb then rb else ra;
      ghost var p := parent[..];
      forall y | 0 <= y < |p|
        ensures Forest(p[high := low]) && Root(p[high := low], y) == if Root(p, y) == high then low else Root(p, y)
      {
        LinkMovesRoots(p, low, high, y);
      }
      parent[high] := low;
      assert parent[..] == p[high := low];
      assert Roots(parent[..]) == Join(before, a, b);
    } else {
      assert Roots(parent[..]) == Join(before, a, b);
    }
  }

  // --- What the labelling means ---

  ghost predicate EdgesBelow(es: seq<Edge>, n: nat) {
    forall i :: 0 <= i < |es| ==> es[i].from < n && es[i].to < n
  }

  /** The labelling of n vertices after joining the ends of all given edges. */
  ghost function Labels(n: nat, es: seq<Edge>): (r: seq<nat>)
    requires EdgesBelow(es, n)
    ensures |r| == n
  {
    if es == [] then seq(n, x => x)
    else
      var e := es[|es| - 1];
      Join(Labels(n, es[..|es| - 1]), e.from, e.to)
  }

  ghost predicate Step(es: seq<Edge>, u: nat, v: nat) {
    Edge(u, v) in es || Edge(v, u) in es
  }

  ghost predicate Walk(es: seq<Edge>, path: seq<nat>, x: nat, y: nat) {
    |path| > 0 && path[0] == x && path[|path| - 1] == y
    && forall i :: 0 <= i < |path| - 1 ==> Step(es, path[i], path[i + 1])
  }

  /** The given edges lead from x to y. */
  ghost predicate Connected(es: seq<Edge>, x: nat, y: nat) {
    exists path :: Walk(es, path, x, y)
  }

  lemma ConnectedSelf(es: seq<Edge>, x: nat)
    ensures Connected(es, x, x)
  {
    assert Walk(es, [x], x, x);
  }

  lemma ConnectedStep(es: seq<Edge>, x: nat, y: nat)
    requires Step(es, x, y)
    ensures Connected(es, x, y)
  {
    assert Walk(es, [x, y], x, y);
  }

  lemma ConnectedTrans(es: seq<Edge>, x: nat, y: nat, z: nat)
    requires Connected(es, x, y) && Connected(es, y, z)
    ensures Connected(es, x, z)
  {
    var p :| Walk(es, p, x, y);
    var q :| Walk(es, q, y, z);
    var r := p + q[1..];
    forall i | 0 <= i < |r| - 1
      ensures Step(es, r[i], r[i + 1])
    {
      if i < |p| - 1 {
        assert Step(es, p[i], p[i + 1]);
      } else {
        assert Step(es, q[i + 1 - |p|], q[i + 2 - |p|]);
      }
    }
    assert Walk(es, r, x, z);
  }

  lemma ConnectedSym(es: seq<Edge>, x: nat, y: nat)
    requires Connected(es, x, y)
    ensures Connected(es, y, x)
  {
    var p :| Walk(es, p, x, y);
    var r := seq(|p|, i requires 0 <= i < |p| => p[|p| - 1 - i]);
    forall i | 0 <= i < |r| - 1
      ensures Step(es, r[i], r[i + 1])
    {
      assert Step(es, p[|p| - 2 - i], p[|p| - 1 - i]);
    }
    assert Walk(es, r, y, x);
  }

  lemma ConnectedMore(es: seq<Edge>, e: Edge, x: nat, y: nat)
    requires Connected(es, x, y)
    ensures Connected(es + [e], x, y)
  {
    var p :| Walk(es, p, x, y);
    assert forall i :: 0 <= i < |p| - 1 ==> Step(es, p[i], p[i + 1]);
    assert Walk(es + [e], p, x, y);
  }

  /** Every vertex is connected to its label. */
  lemma {:induction false} LabelConnected(n: nat, es: seq<Edge>, x: nat)
    requires EdgesBelow(es, n) && x < n
    ensures Labels(n, es)[x] <= x && Connected(es, x, Labels(n, es)[x])
    decreases |es|
  {
    if es == [] {
      ConnectedSelf(es, x);
    } else {
      var front, e := es[..|es| - 1], es[|es| - 1];
      assert es == front + [e];
      var l := Labels(n, front);
      LabelConnected(n, front, x);
      ConnectedMore(front, e, x, l[x]);
      if l[x] == l[e.from] || l[x] == l[e.to] {
        LabelConnected(n, front, e.from);
        LabelConnected(n, front, e.to);
        ConnectedMore(front, e, e.from, l[e.from]);
        ConnectedMore(front, e, e.to, l[e.to]);
        ConnectedStep(es, e.from, e.to);
        ConnectedSym(es, e.from, l[e.from]);
        ConnectedSym(es, e.from, e.to);
        ConnectedSym(es, e.to, l[e.to]);
        ConnectedTrans(es, l[e.from], e.from, e.to);
        ConnectedTrans(es, l[e.from], e.to, l[e.to]);
        ConnectedSym(es, l[e.from], l[e.to]);
        ConnectedTrans(es, x, l[x], if l[x] == l[e.from] then l[e.to] else l[e.from]);
      }
    }
  }

  /** The ends of a joined edge carry one label. */
  lemma {:induction false} StepSameLabel(n: nat, es: seq<Edge>, u: nat, v: nat)
    requires EdgesBelow(es, n) && Step(es, u, v)
    ensures u < n && v < n && Labels(n, es)[u] == Labels(n, es)[v]
    decreases |es|
  {
    var front, e := es[..|es| - 1], es[|es| - 1];
    assert es == front + [e];
    if e != Edge(u, v) && e != Edge(v, u) {
      StepSameLabel(n, front, u, v);
    }
  }

  lemma {:induction false} WalkSameLabel(n: nat, es: seq<Edge>, path: seq<nat>, x: nat, y: nat)
    requires EdgesBelow(es, n) && Walk(es, path, x, y) && x < n
    ensures y < n && Labels(n, es)[x] == Labels(n, es)[y]
    decreases |path|
  {
    if |path| > 1 {
      assert Step(es, path[0], path[1]);
      StepSameLabel(n, es, x, path[1]);
      var rest := path[1..];
      forall i | 0 <= i < |rest| - 1
        ensures Step(es, rest[i], rest[i + 1])
      {
        assert Step(es, path[i + 1], path[i + 2]);
      }
      WalkSameLabel(n, es, rest, path[1], y);
    }
  }

  /** Two vertices carry one label exactly when the edges connect them, and the label is the least of its class. */
  lemma LabelsAreClasses(n: nat, es: seq<Edge>, x: nat, y: nat)
    requires EdgesBelow(es, n) && x < n && y < n
    ensures Labels(n, es)[x] == Labels(n, es)[y] <==> Connected(es, x, y)
    ensures Connected(es, x, y) ==> Labels(n, es)[x] <= y
    ensures Labels(n, es)[x] < n && Labels(n, es)[Labels(n, es)[x]] == Labels(n, es)[x]
  {
    LabelConnected(n, es, x);
    LabelConnected(n, es, y);
    var l := Labels(n, es);
    if l[x] == l[y] {
      ConnectedSym(es, y, l[y]);
      ConnectedTrans(es, x, l[x], y);
    }
    if Connected(es, x, y) {
      var path :| Walk(es, path, x, y);
      WalkSameLabel(n, es, path, x, y);
    }
    var path :| Walk(es, path, x, l[x]);
    WalkSameLabel(n, es, path, x, l[x]);
  }
}
