/** The directed edges of a patch of triangles, and those without a partner in the patch. */
module HalfEdges {
  import opened Meshes
  import opened Orientation

  function Reverse(e: Edge): Edge {
    Edge(e.to, e.from)
  }

  ghost function Sides(f: Face): set<Edge> {
    {Edge(f.a, f.b), Edge(f.b, f.c), Edge(f.c, f.a)}
  }

  ghost function AllSides(fs: seq<Face>): set<Edge> {
    if fs == [] then {} else AllSides(fs[..|fs| - 1]) + Sides(fs[|fs| - 1])
  }

  /** All directed edges of the patch are distinct. */
  ghost predicate Apart(fs: seq<Face>) {
    fs == [] || (Apart(fs[..|fs| - 1]) && ThreeSides(fs[|fs| - 1]) && Sides(fs[|fs| - 1]) !! AllSides(fs[..|fs| - 1]))
  }

  ghost predicate ThreeSides(f: Face) {
    !(f.a == f.b == f.c)
  }

  lemma {:induction false} AllSidesAre(fs: seq<Face>, e: Edge)
    ensures e in AllSides(fs) <==> exists i :: 0 <= i < |fs| && Runs(fs[i], e.from, e.to)
  {
    if fs != [] {
      var front := fs[..|fs| - 1];
      AllSidesAre(front, e);
      assert forall i :: 0 <= i < |front| ==> front[i] == fs[i];
      assert e in Sides(fs[|fs| - 1]) <==> Runs(fs[|fs| - 1], e.from, e.to);
    }
  }

  /** The directed edges of a consistently wound patch are distinct, if no face is a single point. */
  lemma {:induction false} ConsistentApart(fs: seq<Face>)
    requires forall i :: 0 <= i < |fs| ==> ThreeSides(fs[i])
    ensures Consistent(fs) <==> Apart(fs)
  {
    if fs != [] {
      var front, f := fs[..|fs| - 1], fs[|fs| - 1];
      ConsistentApart(front);
      if Apart(fs) {
        forall i, j | 0 <= i < j < |fs|
          ensures !Conflict(fs[i], fs[j])
        {
          if j == |fs| - 1 && Conflict(fs[i], f) {
            ConflictMeaning(fs[i], f);
            var u, v :| Runs(fs[i], u, v) && Runs(f, u, v);
            assert front[i] == fs[i];
            assert Edge(u, v) in Sides(f);
            AllSidesAre(front, Edge(u, v));
          } else if j < |fs| - 1 {
            assert front[i] == fs[i] && front[j] == fs[j];
          }
        }
      }
      if Consistent(fs) {
        assert forall i :: 0 <= i < |front| ==> front[i] == fs[i];
        forall e | e in Sides(f)
          ensures e !in AllSides(front)
        {
          AllSidesAre(front, e);
          forall i | 0 <= i < |front|
            ensures !Runs(front[i], e.from, e.to)
          {
            Clash(fs[i], f);
          }
        }
      }
    }
  }

  /** Edges whose reverse is missing. */
  ghost function Border(h: set<Edge>): set<Edge> {
    set e | e in h && Reverse(e) !in h
  }

  ghost function Inner(h: set<Edge>): set<Edge> {
    set e | e in h && Reverse(e) in h
  }

  ghost function Out(h: set<Edge>, v: nat): set<Edge> {
    set e | e in h && e.from == v
  }

  ghost function In(h: set<Edge>, v: nat): set<Edge> {
    set e | e in h && e.to == v
  }

  function One(c: bool): nat {
    if c then 1 else 0
  }

  lemma AddEdge(h: set<Edge>, e: Edge, v: nat)
    requires e !in h
    ensures |Out(h + {e}, v)| == |Out(h, v)| + One(e.from == v)
    ensures |In(h + {e}, v)| == |In(h, v)| + One(e.to == v)
  {
    assert Out(h + {e}, v) == if e.from == v then Out(h, v) + {e} else Out(h, v);
    assert In(h + {e}, v) == if e.to == v then In(h, v) + {e} else In(h, v);
  }

  /** A triangle leaves each of its corners as often as it comes to it. */
  lemma SidesBalanced(f: Face, v: nat)
    requires ThreeSides(f)
    ensures |Out(Sides(f), v)| == |In(Sides(f), v)|
  {
    var x, y, z := Edge(f.a, f.b), Edge(f.b, f.c), Edge(f.c, f.a);
    assert Out({}, v) == {} && In({}, v) == {};
    AddEdge({}, x, v);
    AddEdge({} + {x}, y, v);
    AddEdge({} + {x} + {y}, z, v);
    assert Sides(f) == {} + {x} + {y} + {z};
  }

  lemma {:induction false} AllBalanced(fs: seq<Face>, v: nat)
    requires Apart(fs)
    ensures |Out(AllSides(fs), v)| == |In(AllSides(fs), v)|
  {
    if fs == [] {
      assert Out({}, v) == {} && In({}, v) == {};
    } else {
      var front, f := AllSides(fs[..|fs| - 1]), Sides(fs[|fs| - 1]);
      AllBalanced(fs[..|fs| - 1], v);
      SidesBalanced(fs[|fs| - 1], v);
      assert Out(AllSides(fs), v) == Out(front, v) + Out(f, v);
      assert In(AllSides(fs), v) == In(front, v) + In(f, v);
    }
  }

  ghost function Reverses(s: set<Edge>): set<Edge> {
    set e | e in s :: Reverse(e)
  }

  lemma {:induction false} ReversesSize(s: set<Edge>)
    ensures |Reverses(s)| == |s|
    decreases |s|
  {
    if s != {} {
      var e :| e in s;
      ReversesSize(s - {e});
      assert Reverses(s) == Reverses(s - {e}) + {Reverse(e)};
      assert Reverse(e) !in Reverses(s - {e});
    }
  }

  lemma InnerBalanced(h: set<Edge>, v: nat)
    ensures |Out(Inner(h), v)| == |In(Inner(h), v)|
  {
    ReversesSize(Out(Inner(h), v));
    forall e | e in In(Inner(h), v)
      ensures e in Reverses(Out(Inner(h), v))
    {
      assert Reverse(e) in Out(Inner(h), v) && Reverse(Reverse(e)) == e;
    }
    assert In(Inner(h), v) == Reverses(Out(Inner(h), v));
  }

  /** At every vertex as many border edges begin as end. */
  lemma BorderBalanced(fs: seq<Face>, v: nat)
    requires Apart(fs)
    ensures |Out(Border(AllSides(fs)), v)| == |In(Border(AllSides(fs)), v)|
  {
    var h := AllSides(fs);
    AllBalanced(fs, v);
    InnerBalanced(h, v);
    assert Out(h, v) == Out(Border(h), v) + Out(Inner(h), v);
    assert In(h, v) == In(Border(h), v) + In(Inner(h), v);
  }

  /** No vertex has two border edges that begin at it. */
  ghost predicate Unbranched(h: set<Edge>) {
    forall e, g :: e in Border(h) && g in Border(h) && e.from == g.from ==> e == g
  }

  /** The map follows the border. */
  ghost predicate Follows(next: map<nat, nat>, h: set<Edge>) {
    forall u: nat, v: nat :: (u in next && next[u] == v) <==> Edge(u, v) in Border(h)
  }

  ghost predicate Inside(next: map<nat, nat>, k: nat) {
    k in next && next[k] in next
  }

  ghost predicate Closed(next: map<nat, nat>) {
    forall k {:trigger Inside(next, k)} :: k in next ==> Inside(next, k)
  }

  ghost predicate Injective(next: map<nat, nat>) {
    forall j, k :: j in next && k in next && next[j] == next[k] ==> j == k
  }

  /** The map permutes its keys. */
  ghost predicate Permutes(next: map<nat, nat>) {
    Closed(next) && Injective(next)
  }

  /** The map leads from k neither back to k at once nor after one more step. */
  ghost predicate GoesOn(next: map<nat, nat>, k: nat) {
    k in next && next[k] != k && (next[k] in next ==> next[next[k]] != k)
  }

  ghost predicate NoShortCycle(next: map<nat, nat>) {
    forall k {:trigger GoesOn(next, k)} :: k in next ==> GoesOn(next, k)
  }

  lemma SizeTwo(s: set<Edge>, x: Edge, y: Edge)
    requires x in s && y in s && x != y
    ensures |s| >= 2
  {
    assert s == {x, y} + (s - {x, y});
  }

  /**
   * Where no border vertex branches, the border of a patch with distinct directed edges is a
   * permutation of its vertices, and no cycle of it is shorter than three.
   */
  lemma BorderPermutes(fs: seq<Face>, next: map<nat, nat>)
    requires Apart(fs) && Unbranched(AllSides(fs)) && Follows(next, AllSides(fs))
    ensures Permutes(next) && NoShortCycle(next)
  {
    var b := Border(AllSides(fs));
    forall k | k in next
      ensures Inside(next, k) && GoesOn(next, k)
    {
      var e := Edge(k, next[k]);
      assert e in b && e in In(b, next[k]);
      BorderBalanced(fs, next[k]);
      assert Out(b, next[k]) != {};
      var g :| g in Out(b, next[k]);
      assert Edge(g.from, g.to) in b;
      assert Edge(next[k], next[next[k]]) in b;
      assert e in AllSides(fs) && Reverse(e) !in AllSides(fs);
    }
    forall j, k | j in next && k in next && next[j] == next[k]
      ensures j == k
    {
      var v := next[j];
      assert Edge(j, v) in In(b, v) && Edge(k, v) in In(b, v);
      BorderBalanced(fs, v);
      OneOut(b, v);
      if j != k {
        SizeTwo(In(b, v), Edge(j, v), Edge(k, v));
      }
    }
  }

  /** A border edge begins at v. */
  ghost predicate Begins(h: set<Edge>, v: nat) {
    exists e :: e in Border(h) && e.from == v
  }

  /** Every border edge ends where one begins. */
  ghost predicate EndsBegin(h: set<Edge>) {
    forall e {:trigger Begins(h, e.to)} :: e in Border(h) ==> Begins(h, e.to)
  }

  /** No vertex has two border edges that end at it. */
  ghost predicate Unmerged(h: set<Edge>) {
    forall e, g :: e in Border(h) && g in Border(h) && e.to == g.to ==> e == g
  }

  /** There is a border, no two of its edges begin or end at the same vertex, and every one ends where one begins. */
  ghost predicate ClosesUp(h: set<Edge>) {
    Border(h) != {} && Unbranched(h) && Unmerged(h) && EndsBegin(h)
  }

  lemma NextEmpty(h: set<Edge>, next: map<nat, nat>)
    requires Follows(next, h)
    ensures next == map[] <==> Border(h) == {}
  {
    if e :| e in Border(h) {
      assert Edge(e.from, e.to) in Border(h);
    }
    if k :| k in next {
      assert Edge(k, next[k]) in Border(h);
    }
  }

  /** The border closes up exactly if its map is a non-empty permutation without short cycles. */
  lemma ClosesUpPermutes(h: set<Edge>, next: map<nat, nat>)
    requires Unbranched(h) && Follows(next, h)
    ensures ClosesUp(h) <==> next != map[] && Permutes(next) && NoShortCycle(next)
  {
    NextEmpty(h, next);
    if ClosesUp(h) {
      PermutesIfClosed(h, next);
    }
    if next != map[] && Permutes(next) {
      AllBegin(h, next);
      NoneMerge(h, next);
    }
  }

  lemma PermutesIfClosed(h: set<Edge>, next: map<nat, nat>)
    requires ClosesUp(h) && Follows(next, h)
    ensures Permutes(next) && NoShortCycle(next)
  {
    forall k | k in next
      ensures Inside(next, k) && GoesOn(next, k)
    {
      var e := Edge(k, next[k]);
      assert e in Border(h) && Begins(h, e.to);
      var g :| g in Border(h) && g.from == e.to;
      assert Edge(g.from, g.to) in Border(h);
      assert Edge(next[k], next[next[k]]) in Border(h);
      assert e in h && Reverse(e) !in h;
    }
    forall j, k | j in next && k in next && next[j] == next[k]
      ensures j == k
    {
      assert Edge(j, next[j]) in Border(h) && Edge(k, next[k]) in Border(h);
    }
  }

  lemma AllBegin(h: set<Edge>, next: map<nat, nat>)
    requires Closed(next) && Follows(next, h)
    ensures EndsBegin(h)
  {
    forall e | e in Border(h)
      ensures Begins(h, e.to)
    {
      assert Edge(e.from, e.to) in Border(h) && Inside(next, e.from);
      var g := Edge(e.to, next[e.to]);
      assert g in Border(h);
    }
  }

  lemma NoneMerge(h: set<Edge>, next: map<nat, nat>)
    requires Injective(next) && Follows(next, h)
    ensures Unmerged(h)
  {
    forall e, g | e in Border(h) && g in Border(h) && e.to == g.to
      ensures e == g
    {
      assert Edge(e.from, e.to) in Border(h) && Edge(g.from, g.to) in Border(h);
    }
  }

  lemma OneOut(b: set<Edge>, v: nat)
    requires forall e, g :: e in b && g in b && e.from == g.from ==> e == g
    ensures |Out(b, v)| <= 1
  {
    if g :| g in Out(b, v) {
      assert Out(b, v) == {g};
    }
  }
}
