/** The second call of filterPoints on a seam that does not close: it never gives the ring back. */
module Astray {
  import opened Distinctness
  import opened Plane
  import opened Seams
  import opened LinkWalk
  import opened Reseal

  /** Where the last ring vertex leads: across the gap, or to a right vertex that was left standing there. */
  datatype Bend = Straight | Bent(a: nat)

  /** What the walk looks at. */
  datatype Place = AtLeft | AtRight | Beyond | OnRing(k: nat) | AtBend | PastBend

  ghost predicate Bad(c: Corners, g: Gap, marks: seq<nat>, i: nat, j: nat)
    requires g.ring > 0 && |c.pt| == |c.steiner| == Size(g) && Sound(SeamOf(c, g), marks)
    requires i <= g.left && j <= g.right
  {
    Outcome(SeamOf(c, g), marks, i, j) in {Loses, Sticks}
  }

  ghost predicate LeftStays(c: Corners, g: Gap, i: nat, j: nat)
    requires g.ring > 0 && |c.pt| == |c.steiner| == Size(g) && i <= g.left && j <= g.right
  {
    var s := SeamOf(c, g);
    (i == g.left && s.stiff) || !Flat(Before(s, i), s.left[i], s.right[j])
  }

  ghost predicate RightStays(c: Corners, g: Gap, i: nat, j: nat)
    requires g.ring > 0 && |c.pt| == |c.steiner| == Size(g) && i <= g.left && j < g.right
  {
    var s := SeamOf(c, g);
    !Flat(s.left[i], s.right[j], s.right[j + 1])
  }

  /** The bend, if there is one, leads back to a place from which the moves lead to (i, j). */
  ghost predicate Bending(c: Corners, w: Walk, g: Gap, marks: seq<nat>, i: nat, j: nat, b: Bend)
    requires Standing(c, w, g, marks, i, j) && Sound(SeamOf(c, g), marks)
  {
    var s := SeamOf(c, g);
    match b
    case Straight => i < g.left ==> w.next[g.ring - 1] == 0
    case Bent(a) =>
      && i < g.left && a + 1 < g.right && w.next[g.ring - 1] == RightAt(g, a) && marks[a] == g.left
      && LeftStays(c, g, g.left, a) && RightStays(c, g, g.left, a)
      && Flat(s.left[marks[a + 1]], s.right[a + 1], s.right[a + 2]) && marks[a + 1] < g.left
      && Leads(s, marks, marks[a + 1], a + 2, i, j)
  }

  ghost predicate Wanders(c: Corners, w: Walk, g: Gap, marks: seq<nat>, i: nat, j: nat, b: Bend, at: Place) {
    && Standing(c, w, g, marks, i, j) && Sound(SeamOf(c, g), marks) && Tidy(c, g) && !w.over
    && Bad(c, g, marks, i, j) && Bending(c, w, g, marks, i, j, b)
    && match at
       case AtLeft => w.p == w.stop
       case AtRight => j < g.right && w.p == RightAt(g, j) && LeftStays(c, g, i, j)
       case Beyond => j + 1 < g.right && w.p == RightAt(g, j + 1) && LeftStays(c, g, i, j) && RightStays(c, g, i, j)
       case OnRing(k) => k < g.ring && w.p == k && k != w.stop && Go(SeamOf(c, g), marks, i, j) == Sticks
       case AtBend => b.Bent? && w.p == RightAt(g, b.a) && Go(SeamOf(c, g), marks, i, j) == Sticks
       case PastBend => b.Bent? && w.p == RightAt(g, b.a + 1) && Go(SeamOf(c, g), marks, i, j) == Sticks
  }

  /** No vertex leads to the last ring vertex any more, or none leads back to the first. */
  ghost predicate Cut(w: Walk, g: Gap)
    requires |w.next| == |w.prev| == Size(g) && g.ring > 0
  {
    g.ring > 1 && (g.ring - 1 !in w.next || 0 !in w.prev)
  }

  ghost predicate Hopeless(c: Corners, w: Walk, g: Gap)
    requires g.ring > 0 && |c.pt| == Size(g) && Fits(c, w)
  {
    || (w.over && !Whole(w, g))
    || Cut(w, g)
    || exists marks: seq<nat>, i: nat, j: nat, b: Bend, at: Place :: Wanders(c, w, g, marks, i, j, b, at)
  }

  lemma CutStays(c: Corners, w: Walk, g: Gap)
    requires g.ring > 0 && |c.pt| == Size(g) && Fits(c, w) && Cut(w, g)
    ensures Cut(Step(c, w), g)
  {
  }

  lemma WholeNotCut(w: Walk, g: Gap)
    requires |w.next| == |w.prev| == Size(g) && g.ring > 1 && Whole(w, g)
    ensures !Cut(w, g)
  {
    assert w.next[g.ring - 2] == g.ring - 1 && w.prev[1] == 0;
  }

  /** The last ring vertex is dropped: nothing leads to it any more. */
  lemma LosesLast(c: Corners, w: Walk, g: Gap, marks: seq<nat>, j: nat)
    requires At(c, w, g, marks, g.left, j) && g.ring > 1 && Sound(SeamOf(c, g), marks)
    requires Go(SeamOf(c, g), marks, g.left, j) == Loses
    ensures Cut(Step(c, w), g)
  {
    FrameAt(c, w, g, marks, g.left, j);
    var v := Step(c, w);
    forall q | 0 <= q < Size(g)
      ensures v.next[q] != g.ring - 1
    {
      if g.ring <= q < g.ring + g.left {
        assert LeftKept(c, w, g, q - g.ring);
      } else if q >= g.ring + g.left {
        assert RightKept(c, w, g, marks, q - g.ring - g.left);
      }
    }
  }

  /** The first ring vertex is dropped: nothing leads back to it any more. */
  lemma LosesFirst(c: Corners, w: Walk, g: Gap, marks: seq<nat>)
    requires Framed(c, w, g, marks) && g.ring > 1 && w.p == 0 && Tidy(c, g)
    requires Drops(c, w.prev[0], 0, w.next[0])
    ensures Cut(Step(c, w), g)
  {
    assert Stays(c, g, 0);
    var v := Step(c, w);
    assert w.prev[0] != g.ring - 1;
    forall q | 0 <= q < Size(g)
      ensures v.prev[q] != 0
    {
      if g.ring <= q < g.ring + g.left {
        assert LeftKept(c, w, g, q - g.ring);
      } else if q >= g.ring + g.left {
        assert RightKept(c, w, g, marks, q - g.ring - g.left);
      }
    }
  }

  // --- What a turn does to a wandering walk ---

  lemma Found(c: Corners, w: Walk, g: Gap, marks: seq<nat>, i: nat, j: nat, b: Bend, at: Place)
    requires Wanders(c, w, g, marks, i, j, b, at)
    ensures Hopeless(c, w, g)
  {
  }

  /** The bend is still there when the walk has moved on to (i2, j2). */
  lemma BendFollows(c: Corners, w: Walk, v: Walk, g: Gap, marks: seq<nat>, i: nat, j: nat, b: Bend, i2: nat, j2: nat)
    requires Standing(c, w, g, marks, i, j) && Sound(SeamOf(c, g), marks) && Bending(c, w, g, marks, i, j, b)
    requires Standing(c, v, g, Mark(g, marks, j2, i2), i2, j2) && Sound(SeamOf(c, g), Mark(g, marks, j2, i2))
    requires i < g.left && i2 < g.left && v.next[g.ring - 1] == w.next[g.ring - 1]
    requires b.Bent? ==> Leads(SeamOf(c, g), marks, marks[b.a + 1], b.a + 2, i2, j2)
    ensures Bending(c, v, g, Mark(g, marks, j2, i2), i2, j2, b)
  {
    if b.Bent? {
      LeadsOutcome(SeamOf(c, g), marks, marks[b.a + 1], b.a + 2, i2, j2);
      if j2 < g.right {
        MarkUnused(SeamOf(c, g), marks, marks[b.a + 1], b.a + 2, i2, j2, i2);
      }
    }
  }

  /** The vertex after the bend is there, and the moves lead from it to (i, j). */
  ghost predicate Led(c: Corners, g: Gap, marks: seq<nat>, b: Bend, i: nat, j: nat)
    requires g.ring > 0 && |c.pt| == |c.steiner| == Size(g) && Sound(SeamOf(c, g), marks)
  {
    b.Bent? ==> b.a + 1 < |marks| && Leads(SeamOf(c, g), marks, marks[b.a + 1], b.a + 2, i, j)
  }

  lemma LedOn(c: Corners, g: Gap, marks: seq<nat>, b: Bend, i: nat, j: nat)
    requires g.ring > 0 && |c.pt| == |c.steiner| == Size(g) && Sound(SeamOf(c, g), marks)
    requires i <= g.left && j <= g.right && Led(c, g, marks, b, i, j)
    ensures match Go(SeamOf(c, g), marks, i, j)
            case Left => Led(c, g, marks, b, i + 1, j)
            case Right => Led(c, g, marks, b, i, j + 1)
            case Jump(x) => Led(c, g, marks, b, x, j + 2)
            case _ => true
  {
    if b.Bent? {
      LeadsOn(SeamOf(c, g), marks, marks[b.a + 1], b.a + 2, i, j);
    }
  }

  /** The mark of the vertex on the right plays no part in what happens next. */
  /** Where the walk is when the vertices at (i2, j2) have become neighbours. */
  lemma Arrives(c: Corners, w: Walk, g: Gap, marks: seq<nat>, i: nat, j: nat, b: Bend, i2: nat, j2: nat)
    requires Standing(c, w, g, marks, i, j) && Sound(SeamOf(c, g), marks) && Bending(c, w, g, marks, i, j, b)
    requires Tidy(c, g)
    requires i2 <= g.left && At(c, Link(w, g, i2, j2), g, Mark(g, marks, j2, i2), i2, j2)
    requires i2 < g.left ==> i < g.left
    requires Led(c, g, marks, b, i2, j2) && Bad(c, g, marks, i2, j2)
    ensures Hopeless(c, Link(w, g, i2, j2), g)
  {
    var v, after := Link(w, g, i2, j2), Mark(g, marks, j2, i2);
    SeamSound(c, v, g, after);
    MarkUnseen(c, g, marks, i2, j2);
    FrameAt(c, v, g, after, i2, j2);
    if i2 < g.left {
      BendFollows(c, w, v, g, marks, i, j, b, i2, j2);
      Found(c, v, g, after, i2, j2, b, AtLeft);
    } else {
      Found(c, v, g, after, i2, j2, Straight, AtLeft);
    }
  }

  /** A bad place leads to bad ones. */
  lemma BadOn(c: Corners, g: Gap, marks: seq<nat>, i: nat, j: nat)
    requires g.ring > 0 && |c.pt| == |c.steiner| == Size(g) && Sound(SeamOf(c, g), marks)
    requires i <= g.left && j <= g.right && Bad(c, g, marks, i, j)
    ensures match Go(SeamOf(c, g), marks, i, j)
            case Left => i < g.left && Bad(c, g, marks, i + 1, j)
            case Right => j < g.right && Bad(c, g, marks, i, j + 1)
            case Jump(x) => j + 1 < g.right && x <= g.left && Bad(c, g, marks, x, j + 2)
            case _ => true
  {
  }

  /** The left vertex is dropped. */
  lemma WandersLeft(c: Corners, w: Walk, g: Gap, marks: seq<nat>, i: nat, j: nat, b: Bend)
    requires Wanders(c, w, g, marks, i, j, b, AtLeft) && Go(SeamOf(c, g), marks, i, j) == Left
    ensures Hopeless(c, Step(c, w), g)
  {
    TurnLeft(c, w, g, marks, i, j);
    LedOn(c, g, marks, b, i, j);
    BadOn(c, g, marks, i, j);
    Arrives(c, w, g, marks, i, j, b, i + 1, j);
  }

  /** The walk goes on and changes no link. */
  lemma StandsOn(c: Corners, w: Walk, v: Walk, g: Gap, marks: seq<nat>, i: nat, j: nat, b: Bend)
    requires Standing(c, w, g, marks, i, j) && Sound(SeamOf(c, g), marks) && Bending(c, w, g, marks, i, j, b)
    requires Fits(c, v) && v.next == w.next && v.prev == w.prev && v.stop == w.stop
    ensures Standing(c, v, g, marks, i, j) && Bending(c, v, g, marks, i, j, b)
  {
    FramedOn(c, w, v, g, marks);
  }

  /** The only vertex of the ring is dropped again and again. */
  lemma LosesOnly(c: Corners, w: Walk, g: Gap, marks: seq<nat>, i: nat, j: nat, b: Bend)
    requires Wanders(c, w, g, marks, i, j, b, AtLeft) && Go(SeamOf(c, g), marks, i, j) == Loses && g.ring == 1
    ensures Step(c, w) == w
  {
    FrameAt(c, w, g, marks, i, j);
    NoTurn(c.pt[0], c.pt[RightAt(g, j)]);
  }

  /** The left vertex stays. */
  lemma LeftOnward(c: Corners, w: Walk, g: Gap, marks: seq<nat>, i: nat, j: nat, b: Bend)
    requires Wanders(c, w, g, marks, i, j, b, AtLeft) && LeftStays(c, g, i, j)
    requires Go(SeamOf(c, g), marks, i, j) == Sticks || j < g.right
    ensures Hopeless(c, Step(c, w), g)
  {
    FrameAt(c, w, g, marks, i, j);
    KeepLeft(c, w, g, marks, i, j);
    var v := Step(c, w);
    StandsOn(c, w, v, g, marks, i, j, b);
    if j < g.right {
      Found(c, v, g, marks, i, j, b, AtRight);
    } else {
      Found(c, v, g, marks, i, j, b, OnRing(0));
    }
  }

  lemma WandersAtLeft(c: Corners, w: Walk, g: Gap, marks: seq<nat>, i: nat, j: nat, b: Bend)
    requires Wanders(c, w, g, marks, i, j, b, AtLeft)
    ensures Hopeless(c, Step(c, w), g)
  {
    match Go(SeamOf(c, g), marks, i, j)
    case Left => WandersLeft(c, w, g, marks, i, j, b);
    case Loses =>
      if g.ring > 1 {
        LosesLast(c, w, g, marks, j);
      } else {
        LosesOnly(c, w, g, marks, i, j, b);
        Found(c, w, g, marks, i, j, b, AtLeft);
      }
    case _ => LeftOnward(c, w, g, marks, i, j, b);
  }

  /** The right vertex is dropped. */
  lemma WandersRight(c: Corners, w: Walk, g: Gap, marks: seq<nat>, i: nat, j: nat, b: Bend)
    requires Wanders(c, w, g, marks, i, j, b, AtRight) && Go(SeamOf(c, g), marks, i, j) == Right
    ensures Hopeless(c, Step(c, w), g)
  {
    RightDropped(c, w, g, marks, i, j);
    LedOn(c, g, marks, b, i, j);
    BadOn(c, g, marks, i, j);
    Arrives(c, w, g, marks, i, j, b, i, j + 1);
  }

  lemma RightDropped(c: Corners, w: Walk, g: Gap, marks: seq<nat>, i: nat, j: nat)
    requires Standing(c, w, g, marks, i, j) && Sound(SeamOf(c, g), marks) && !w.over && j < g.right
    requires w.p == RightAt(g, j)
    requires Go(SeamOf(c, g), marks, i, j) == Right
    ensures Step(c, w) == Link(w, g, i, j + 1) && At(c, Step(c, w), g, Mark(g, marks, j + 1, i), i, j + 1)
  {
    DropRight(c, w, g, marks, i, j);
  }

  /** The right vertex stays. */
  lemma RightOnward(c: Corners, w: Walk, g: Gap, marks: seq<nat>, i: nat, j: nat, b: Bend)
    requires Wanders(c, w, g, marks, i, j, b, AtRight) && RightStays(c, g, i, j)
    requires Go(SeamOf(c, g), marks, i, j) == Sticks || j + 1 < g.right
    ensures Hopeless(c, Step(c, w), g)
  {
    FrameAt(c, w, g, marks, i, j);
    KeepRight(c, w, g, marks, i, j);
    var v := Step(c, w);
    StandsOn(c, w, v, g, marks, i, j, b);
    if j + 1 < g.right {
      Found(c, v, g, marks, i, j, b, Beyond);
    } else if !v.over {
      Found(c, v, g, marks, i, j, b, OnRing(0));
    }
  }

  lemma WandersAtRight(c: Corners, w: Walk, g: Gap, marks: seq<nat>, i: nat, j: nat, b: Bend)
    requires Wanders(c, w, g, marks, i, j, b, AtRight)
    ensures Hopeless(c, Step(c, w), g)
  {
    if Go(SeamOf(c, g), marks, i, j) == Right {
      WandersRight(c, w, g, marks, i, j, b);
    } else {
      RightOnward(c, w, g, marks, i, j, b);
    }
  }

  /** The vertex after the right one is dropped, and leads back to the left. */
  lemma BeyondDropped(c: Corners, w: Walk, g: Gap, marks: seq<nat>, i: nat, j: nat, b: Bend)
    requires Wanders(c, w, g, marks, i, j, b, Beyond)
    ensures var x := marks[j + 1]; x <= g.left && Go(SeamOf(c, g), marks, i, j) == Jump(x)
    ensures var x := marks[j + 1]; Step(c, w) == Link(w, g, x, j + 2)
    ensures At(c, Link(w, g, marks[j + 1], j + 2), g, Mark(g, marks, j + 2, marks[j + 1]), marks[j + 1], j + 2)
  {
    FrameAt(c, w, g, marks, i, j);
    NoTurn(c.pt[0], c.pt[RightAt(g, j)]);
    assert Go(SeamOf(c, g), marks, i, j) == Jump(marks[j + 1]);
    DropBeyond(c, w, g, marks, i, j);
  }

  lemma WandersBeyond(c: Corners, w: Walk, g: Gap, marks: seq<nat>, i: nat, j: nat, b: Bend)
    requires Wanders(c, w, g, marks, i, j, b, Beyond)
    ensures Hopeless(c, Step(c, w), g)
  {
    var x := marks[j + 1];
    BeyondDropped(c, w, g, marks, i, j, b);
    BadOn(c, g, marks, i, j);
    if i == g.left && x < g.left {
      NewBend(c, w, g, marks, j, x);
    } else {
      LedOn(c, g, marks, b, i, j);
      Arrives(c, w, g, marks, i, j, b, x, j + 2);
    }
  }

  /** The last ring vertex is left leading to a right vertex. */
  lemma NewBend(c: Corners, w: Walk, g: Gap, marks: seq<nat>, j: nat, x: nat)
    requires Standing(c, w, g, marks, g.left, j) && Sound(SeamOf(c, g), marks) && j + 1 < g.right
    requires x == marks[j + 1] < g.left
    requires Tidy(c, g) && LeftStays(c, g, g.left, j) && RightStays(c, g, g.left, j)
    requires Go(SeamOf(c, g), marks, g.left, j) == Jump(x) && Bad(c, g, marks, x, j + 2)
    requires At(c, Link(w, g, x, j + 2), g, Mark(g, marks, j + 2, x), x, j + 2)
    ensures Hopeless(c, Link(w, g, x, j + 2), g)
  {
    var v, after := Link(w, g, x, j + 2), Mark(g, marks, j + 2, x);
    MarkHere(c, w, g, marks, g.left, j);
    assert v.next[g.ring - 1] == w.next[g.ring - 1];
    BendAgain(c, v, g, marks, after, j, x);
  }

  /** The mark of the right one of two neighbours is the place of the left one. */
  lemma MarkHere(c: Corners, w: Walk, g: Gap, marks: seq<nat>, i: nat, j: nat)
    requires Standing(c, w, g, marks, i, j) && j < g.right
    ensures marks[j] == i
  {
    assert RightKept(c, w, g, marks, j);
  }


  lemma BendHere(c: Corners, v: Walk, g: Gap, marks: seq<nat>, a: nat, x: nat)
    requires Standing(c, v, g, marks, x, a + 2) && Sound(SeamOf(c, g), marks) && a + 1 < g.right
    requires x == marks[a + 1] < g.left
    requires v.next[g.ring - 1] == RightAt(g, a) && marks[a] == g.left
    requires LeftStays(c, g, g.left, a) && RightStays(c, g, g.left, a)
    requires Flat(SeamOf(c, g).left[x], SeamOf(c, g).right[a + 1], SeamOf(c, g).right[a + 2])
    ensures Bending(c, v, g, marks, x, a + 2, Bent(a))
  {
    assert Leads(SeamOf(c, g), marks, x, a + 2, x, a + 2);
  }

  lemma BendFound(c: Corners, v: Walk, g: Gap, marks: seq<nat>, a: nat, x: nat)
    requires At(c, v, g, marks, x, a + 2) && Sound(SeamOf(c, g), marks) && Tidy(c, g) && Bad(c, g, marks, x, a + 2)
    requires Bending(c, v, g, marks, x, a + 2, Bent(a))
    ensures Hopeless(c, v, g)
  {
    Found(c, v, g, marks, x, a + 2, Bent(a), AtLeft);
  }

  /** The walk is where the moves lead to after the bend. */
  lemma BendAgain(c: Corners, v: Walk, g: Gap, marks: seq<nat>, after: seq<nat>, a: nat, x: nat)
    requires At(c, v, g, after, x, a + 2) && Sound(SeamOf(c, g), marks) && a + 1 < g.right && x == marks[a + 1] < g.left
    requires after == Mark(g, marks, a + 2, x) && Tidy(c, g) && Bad(c, g, marks, x, a + 2)
    requires v.next[g.ring - 1] == RightAt(g, a) && marks[a] == g.left
    requires LeftStays(c, g, g.left, a) && RightStays(c, g, g.left, a)
    requires Flat(SeamOf(c, g).left[x], SeamOf(c, g).right[a + 1], SeamOf(c, g).right[a + 2])
    ensures Hopeless(c, v, g)
  {
    SeamSound(c, v, g, after);
    assert Bad(c, g, after, x, a + 2) by {
      MarkUnseen(c, g, marks, x, a + 2);
    }
    BendHere(c, v, g, after, a, x);
    BendFound(c, v, g, after, a, x);
  }

  /** On the ring of one vertex: it is dropped, and the walk is back at the left vertex. */
  lemma OnlyOneDropped(c: Corners, w: Walk, g: Gap, marks: seq<nat>, i: nat, j: nat, b: Bend)
    requires Wanders(c, w, g, marks, i, j, b, OnRing(0)) && g.ring == 1 && !c.steiner[0]
    ensures Hopeless(c, Step(c, w), g)
  {
    FrameAt(c, w, g, marks, i, j);
    NoTurn(c.pt[LeftAt(g, i)], c.pt[0]);
    NoTurn(c.pt[0], c.pt[RightAt(g, j)]);
    var v := Step(c, w);
    assert v.next == w.next && v.prev == w.prev && v.stop == w.stop;
    StandsOn(c, w, v, g, marks, i, j, b);
    Found(c, v, g, marks, i, j, b, AtLeft);
  }

  /** A ring vertex before the last stays, and the next one is looked at. */
  lemma RingStays(c: Corners, w: Walk, g: Gap, marks: seq<nat>, k: nat)
    requires Framed(c, w, g, marks) && Tidy(c, g) && k < g.ring - 1 && w.p == k
    requires k == 0 ==> !Drops(c, w.prev[0], 0, w.next[0])
    ensures Step(c, w) == Walk(w.next, w.prev, k + 1, w.stop, k + 1 == w.stop)
  {
    assert Stays(c, g, k);
  }

  lemma RingOnward(c: Corners, w: Walk, g: Gap, marks: seq<nat>, i: nat, j: nat, b: Bend, k: nat)
    requires Wanders(c, w, g, marks, i, j, b, OnRing(k)) && k < g.ring - 1
    requires k == 0 ==> !Drops(c, w.prev[0], 0, w.next[0])
    ensures Hopeless(c, Step(c, w), g)
  {
    RingStays(c, w, g, marks, k);
    var v := Step(c, w);
    StandsOn(c, w, v, g, marks, i, j, b);
    if v.over {
      FrameAt(c, w, g, marks, i, j);
    } else {
      Found(c, v, g, marks, i, j, b, OnRing(k + 1));
    }
  }

  /** The last ring vertex stays, and the walk crosses the gap or comes to the bend. */
  lemma RingEnds(c: Corners, w: Walk, g: Gap, marks: seq<nat>, i: nat, j: nat, b: Bend)
    requires g.ring > 0 && Wanders(c, w, g, marks, i, j, b, OnRing(g.ring - 1)) && (g.ring == 1 ==> c.steiner[0])
    ensures Hopeless(c, Step(c, w), g)
  {
    FrameAt(c, w, g, marks, i, j);
    FrameAt(c, w, g, marks, g.left, if b.Bent? then b.a else j);
    assert Stays(c, g, g.ring - 1);
    var v := Step(c, w);
    StandsOn(c, w, v, g, marks, i, j, b);
    Found(c, v, g, marks, i, j, b, if b.Bent? then AtBend else OnRing(0));
  }

  lemma WandersOnRing(c: Corners, w: Walk, g: Gap, marks: seq<nat>, i: nat, j: nat, b: Bend, k: nat)
    requires Wanders(c, w, g, marks, i, j, b, OnRing(k))
    ensures Hopeless(c, Step(c, w), g)
  {
    if g.ring == 1 && !c.steiner[0] {
      OnlyOneDropped(c, w, g, marks, i, j, b);
    } else if k == g.ring - 1 {
      RingEnds(c, w, g, marks, i, j, b);
    } else if k == 0 && Drops(c, w.prev[0], 0, w.next[0]) {
      LosesFirst(c, w, g, marks);
    } else {
      RingOnward(c, w, g, marks, i, j, b, k);
    }
  }

  /** The vertex at the bend stays. */
  lemma BendStays(c: Corners, w: Walk, g: Gap, marks: seq<nat>, i: nat, a: nat)
    requires Framed(c, w, g, marks) && i < g.left && a + 1 < g.right && w.p == RightAt(g, a) && w.stop == LeftAt(g, i)
    requires marks[a] == g.left && RightStays(c, g, g.left, a)
    ensures var q := RightAt(g, a + 1); Step(c, w) == Walk(w.next, w.prev, q, w.stop, q == w.stop) && q != w.stop
  {
    FrameAt(c, w, g, marks, g.left, a);
    FrameAt(c, w, g, marks, i, a + 1);
  }

  lemma WandersAtBend(c: Corners, w: Walk, g: Gap, marks: seq<nat>, i: nat, j: nat, b: Bend)
    requires Wanders(c, w, g, marks, i, j, b, AtBend)
    ensures Hopeless(c, Step(c, w), g)
  {
    BendStays(c, w, g, marks, i, b.a);
    var v := Step(c, w);
    StandsOn(c, w, v, g, marks, i, j, b);
    Found(c, v, g, marks, i, j, b, PastBend);
  }

  /** The vertex after the bend is dropped. */
  lemma BendDropped(c: Corners, w: Walk, g: Gap, marks: seq<nat>, i: nat, j: nat, b: Bend)
    requires Wanders(c, w, g, marks, i, j, b, PastBend)
    ensures var x := marks[b.a + 1]; x < g.left && Step(c, w) == Link(w, g, x, b.a + 2)
    ensures At(c, Step(c, w), g, Mark(g, marks, b.a + 2, marks[b.a + 1]), marks[b.a + 1], b.a + 2)
    ensures Step(c, w).next[g.ring - 1] == w.next[g.ring - 1]
  {
    var x, y := marks[b.a + 1], b.a + 2;
    FrameAt(c, w, g, marks, x, b.a + 1);
    FrameAt(c, w, g, marks, x, y);
    assert Step(c, w) == Link(w, g, x, y);
    if g.ring == 1 {
      assert Lone(c, w, g, x, y);
    }
    Joined(c, w, g, marks, x, y);
  }

  /** The same moves come again. */
  lemma WandersPastBend(c: Corners, w: Walk, g: Gap, marks: seq<nat>, i: nat, j: nat, b: Bend)
    requires Wanders(c, w, g, marks, i, j, b, PastBend)
    ensures Hopeless(c, Step(c, w), g)
  {
    var x := marks[b.a + 1];
    LeadsOutcome(SeamOf(c, g), marks, x, b.a + 2, i, j);
    BendDropped(c, w, g, marks, i, j, b);
    BendAgain(c, Step(c, w), g, marks, Mark(g, marks, b.a + 2, x), b.a, x);
  }

  lemma WandersOn(c: Corners, w: Walk, g: Gap, marks: seq<nat>, i: nat, j: nat, b: Bend, at: Place)
    requires Wanders(c, w, g, marks, i, j, b, at)
    ensures Hopeless(c, Step(c, w), g)
  {
    match at
    case AtLeft => WandersAtLeft(c, w, g, marks, i, j, b);
    case AtRight => WandersAtRight(c, w, g, marks, i, j, b);
    case Beyond => WandersBeyond(c, w, g, marks, i, j, b);
    case OnRing(k) => WandersOnRing(c, w, g, marks, i, j, b, k);
    case AtBend => WandersAtBend(c, w, g, marks, i, j, b);
    case PastBend => WandersPastBend(c, w, g, marks, i, j, b);
  }

  lemma HopelessOn(c: Corners, w: Walk, g: Gap)
    requires g.ring > 0 && |c.pt| == Size(g) && Fits(c, w) && Hopeless(c, w, g) && !w.over
    ensures Hopeless(c, Step(c, w), g)
  {
    if Cut(w, g) {
      CutStays(c, w, g);
    } else {
      var marks: seq<nat>, i: nat, j: nat, b: Bend, at: Place :| Wanders(c, w, g, marks, i, j, b, at);
      WandersOn(c, w, g, marks, i, j, b, at);
    }
  }

  /** A hopeless walk never gives the ring back, however long it goes on. */
  lemma {:induction false} NeverBack(c: Corners, w: Walk, g: Gap, k: nat)
    requires g.ring > 0 && |c.pt| == Size(g) && Fits(c, w) && Hopeless(c, w, g)
    ensures !GaveBack(After(c, w, k), g)
    decreases k
  {
    if k == 0 || w.over {
      if Whole(w, g) && g.ring > 1 {
        WholeNotCut(w, g);
      }
    } else {
      HopelessOn(c, w, g);
      NeverBack(c, Step(c, w), g, k - 1);
    }
  }

  // --- The theorem ---

  /**
   * The state in which the second call begins: the first call has left the ring whole and tidy, and
   * the bridge is dropped.
   */
  ghost predicate Opened(c: Corners, w: Walk, g: Gap, marks: seq<nat>) {
    && Framed(c, w, g, marks) && Whole(w, g) && Tidy(c, g)
    && (forall j :: 0 <= j < g.right ==> FlatRight(c, g, marks, j))
  }

  /** A right vertex was doubled or in line when it went. */
  ghost predicate FlatRight(c: Corners, g: Gap, marks: seq<nat>, j: nat)
    requires g.ring > 0 && |c.pt| == |c.steiner| == Size(g) && j < g.right == |marks|
  {
    marks[j] <= g.left && Flat(c.pt[LeftAt(g, marks[j])], c.pt[RightAt(g, j)], c.pt[RightAt(g, j + 1)])
  }

  lemma {:induction false} NoStray(c: Corners, w: Walk, g: Gap, marks: seq<nat>, i: nat, j: nat)
    requires Opened(c, w, g, marks) && Sound(SeamOf(c, g), marks) && i <= g.left && j <= g.right
    ensures Outcome(SeamOf(c, g), marks, i, j) != Strays
    decreases g.right - j, g.left - i
  {
    if j + 1 < g.right {
      assert FlatRight(c, g, marks, j + 1);
      FrameAt(c, w, g, marks, marks[j + 1], j + 1);
      FrameAt(c, w, g, marks, i, j + 2);
    }
    match Go(SeamOf(c, g), marks, i, j)
    case Left => NoStray(c, w, g, marks, i + 1, j);
    case Right => NoStray(c, w, g, marks, i, j + 1);
    case Jump(x) => NoStray(c, w, g, marks, x, j + 2);
    case _ =>
  }

  /** After its first turn, which drops the bridge again, the second call is at the first vertices on both sides. */
  ghost function Reopened(w: Walk, g: Gap): Walk
    requires g.ring > 0 && |w.next| == |w.prev| == Size(g)
  {
    Link(w, g, 0, 0)
  }

  /**
   * The second call gives back the ring of the first, after some number of turns, exactly when the
   * seam closes.
   */
  lemma GivesBackIff(c: Corners, w: Walk, g: Gap, marks: seq<nat>)
    requires Opened(c, w, g, marks)
    ensures Sound(SeamOf(c, g), marks) && Fits(c, Reopened(w, g))
    ensures Closes(SeamOf(c, g), marks) <==> exists k: nat :: BackAfter(c, Reopened(w, g), g, k)
  {
    var v, after, s := Reopened(w, g), Mark(g, marks, 0, 0), SeamOf(c, g);
    SeamSound(c, w, g, marks);
    Joined(c, w, g, marks, 0, 0);
    SeamSound(c, v, g, after);
    MarksAhead(s, marks, after, 0, 0);
    NoStray(c, w, g, marks, 0, 0);
    if Closes(s, marks) {
      var k := Mends(c, v, g, after, 0, 0);
      assert BackAfter(c, v, g, k);
    } else {
      FrameAt(c, v, g, after, 0, 0);
      Found(c, v, g, after, 0, 0, Straight, AtLeft);
      forall k: nat
        ensures !BackAfter(c, v, g, k)
      {
        NeverBack(c, v, g, k);
      }
    }
  }
}
