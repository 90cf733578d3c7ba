/** When the second call of filterPoints, made from a dropped bridge, gives back the ring of the first. */
module Reseal {
  import opened Distinctness
  import opened Plane
  import opened Seams
  import opened LinkWalk

  /** The walk has ended at the last ring vertex, and the ring is as the first call left it. */
  ghost predicate GaveBack(w: Walk, g: Gap)
    requires |w.next| == |w.prev| == Size(g) && g.ring > 0
  {
    w.over && w.stop == g.ring - 1 && Whole(w, g)
  }

  /** After k turns the walk has given the ring back. */
  ghost predicate BackAfter(c: Corners, w: Walk, g: Gap, k: nat)
    requires g.ring > 0 && |c.pt| == Size(g) && Fits(c, w)
  {
    GaveBack(After(c, w, k), g)
  }

  // --- A seam that closes ---

  /** Once around the whole ring, from vertex k to the last one. */
  lemma {:induction false} GoRound(c: Corners, w: Walk, g: Gap, k: nat)
    requires g.ring > 1 && Fits(c, w) && |c.pt| == Size(g) && Whole(w, g) && Tidy(c, g)
    requires k < g.ring && w.p == k && w.stop == g.ring - 1 && w.over == (k == g.ring - 1)
    ensures GaveBack(After(c, w, g.ring - 1 - k), g)
    decreases g.ring - k
  {
    if k < g.ring - 1 {
      assert Stays(c, g, k);
      GoRound(c, Step(c, w), g, k + 1);
    }
  }

  lemma Closing(c: Corners, w: Walk, g: Gap, marks: seq<nat>) returns (k: nat)
    requires At(c, w, g, marks, g.left, g.right) && Tidy(c, g)
    ensures GaveBack(After(c, w, k), g)
  {
    k := 0;
    if g.ring > 1 {
      assert Stays(c, g, g.ring - 1);
      GoRound(c, Step(c, w), g, 0);
      k := g.ring;
    }
  }

  lemma NoTurn(a: Point, b: Point)
    ensures Flat(a, a, b) && Flat(a, b, b)
  {
  }

  /** A ring of one vertex is dropped to nothing, which leaves it as it is. */
  lemma LastOne(c: Corners, w: Walk, g: Gap, marks: seq<nat>, i: nat, j: nat)
    requires At(c, w, g, marks, i, j) && Sound(SeamOf(c, g), marks) && Go(SeamOf(c, g), marks, i, j) == Done
    requires j < g.right
    ensures GaveBack(After(c, w, 3), g)
  {
    FrameAt(c, w, g, marks, i, j);
    FrameAt(c, w, g, marks, i, j + 1);
    NoTurn(c.pt[0], c.pt[RightAt(g, j)]);
    KeepLeft(c, w, g, marks, i, j);
    var v := Step(c, w);
    KeepRight(c, v, g, marks, i, j);
    var u := Step(c, v);
    NoTurn(c.pt[0], c.pt[0]);
    assert u.p == 0 && u.prev[0] == 0 && u.next[0] == 0;
    assert After(c, w, 3) == After(c, v, 2) == After(c, u, 1) == Step(c, u);
  }

  /** Where the moves end well, the walk gives the ring back. */
  lemma {:induction false} Mends(c: Corners, w: Walk, g: Gap, marks: seq<nat>, i: nat, j: nat) returns (k: nat)
    requires At(c, w, g, marks, i, j) && Tidy(c, g) && Sound(SeamOf(c, g), marks)
    requires Outcome(SeamOf(c, g), marks, i, j) == Done
    ensures GaveBack(After(c, w, k), g)
    decreases g.right - j, g.left - i
  {
    var s := SeamOf(c, g);
    match Go(s, marks, i, j)
    case Done =>
      if j == g.right {
        k := Closing(c, w, g, marks);
      } else {
        LastOne(c, w, g, marks, i, j);
        k := 3;
      }
    case Left =>
      TurnLeft(c, w, g, marks, i, j);
      MarkUnseen(c, g, marks, i + 1, j);
      k := Mends(c, Step(c, w), g, Mark(g, marks, j, i + 1), i + 1, j);
      k := k + 1;
    case Right =>
      k := MendsRight(c, w, g, marks, i, j);
    case Jump(x) =>
      k := MendsBeyond(c, w, g, marks, i, j, x);
  }

  lemma {:induction false} MendsRight(c: Corners, w: Walk, g: Gap, marks: seq<nat>, i: nat, j: nat) returns (k: nat)
    requires At(c, w, g, marks, i, j) && Tidy(c, g) && Sound(SeamOf(c, g), marks)
    requires Outcome(SeamOf(c, g), marks, i, j) == Done && Go(SeamOf(c, g), marks, i, j) == Right
    ensures GaveBack(After(c, w, k), g)
    decreases g.right - j, g.left - i, 0
  {
    var v := PassLeft(c, w, g, marks, i, j);
    var after := Mark(g, marks, j + 1, i);
    SeamSound(c, Step(c, v), g, after);
    MarkUnseen(c, g, marks, i, j + 1);
    k := Mends(c, Step(c, v), g, after, i, j + 1);
    assert After(c, w, k + 2) == After(c, v, k + 1) == After(c, Step(c, v), k);
    k := k + 2;
  }

  /** The left vertex stays, and the right one is dropped. */
  lemma PassLeft(c: Corners, w: Walk, g: Gap, marks: seq<nat>, i: nat, j: nat) returns (v: Walk)
    requires At(c, w, g, marks, i, j) && Sound(SeamOf(c, g), marks) && Go(SeamOf(c, g), marks, i, j) == Right
    ensures !w.over && v == Step(c, w) && !v.over
    ensures At(c, Step(c, v), g, Mark(g, marks, j + 1, i), i, j + 1)
  {
    FrameAt(c, w, g, marks, i, j);
    KeepLeft(c, w, g, marks, i, j);
    v := Step(c, w);
    DropRight(c, v, g, marks, i, j);
  }

  lemma {:induction false} MendsBeyond(c: Corners, w: Walk, g: Gap, marks: seq<nat>, i: nat, j: nat, x: nat)
    returns (k: nat)
    requires At(c, w, g, marks, i, j) && Tidy(c, g) && Sound(SeamOf(c, g), marks)
    requires Outcome(SeamOf(c, g), marks, i, j) == Done && Go(SeamOf(c, g), marks, i, j) == Jump(x)
    ensures GaveBack(After(c, w, k), g)
    decreases g.right - j, g.left - i, 0
  {
    var v, u, after := PassBoth(c, w, g, marks, i, j, x);
    SeamSound(c, Step(c, u), g, after);
    MarkUnseen(c, g, marks, x, j + 2);
    k := Mends(c, Step(c, u), g, after, x, j + 2);
    ThreeTurns(c, w, v, u, k);
    k := k + 3;
  }

  lemma ThreeTurns(c: Corners, w: Walk, v: Walk, u: Walk, k: nat)
    requires Fits(c, w) && !w.over && v == Step(c, w) && !v.over && u == Step(c, v) && !u.over
    ensures After(c, w, k + 3) == After(c, Step(c, u), k)
  {
    assert After(c, w, k + 3) == After(c, v, k + 2) == After(c, u, k + 1);
  }

  /** Both vertices stay, and the one after them is dropped. */
  lemma PassBoth(c: Corners, w: Walk, g: Gap, marks: seq<nat>, i: nat, j: nat, x: nat)
    returns (v: Walk, u: Walk, after: seq<nat>)
    requires At(c, w, g, marks, i, j) && Sound(SeamOf(c, g), marks) && Go(SeamOf(c, g), marks, i, j) == Jump(x)
    ensures !w.over && v == Step(c, w) && !v.over && u == Step(c, v) && !u.over
    ensures Onward(c, v, g, marks, i, j, j) && Onward(c, u, g, marks, i, j, j + 1)
    ensures after == Mark(g, marks, j + 2, x) && At(c, Step(c, u), g, after, x, j + 2)
  {
    FrameAt(c, w, g, marks, i, j);
    KeepLeft(c, w, g, marks, i, j);
    v := Step(c, w);
    FrameAt(c, v, g, marks, i, j);
    KeepRight(c, v, g, marks, i, j);
    u := Step(c, v);
    FrameAt(c, u, g, marks, i, j + 1);
    NoTurn(c.pt[0], c.pt[RightAt(g, j)]);
    DropBeyond(c, u, g, marks, i, j);
    after := Mark(g, marks, j + 2, x);
  }
}
