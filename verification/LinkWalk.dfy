/** filterPoints one turn at a time, on links that need not form a ring. */
module LinkWalk {
  import opened Distinctness
  import opened Plane
  import opened Seams

  /** What decides whether a vertex is dropped, apart from its neighbours: vertices go by number. */
  datatype Corners = Corners(pt: seq<Point>, steiner: seq<bool>)

  /** The links of all vertices, the vertex that is looked at, the one to stop at, and whether the walk is over. */
  datatype Walk = Walk(next: seq<nat>, prev: seq<nat>, p: nat, stop: nat, over: bool)

  /** No link leads out of the n vertices. */
  ghost predicate Within(w: Walk, n: nat) {
    |w.next| == n && |w.prev| == n && w.p < n && w.stop < n && Below(w.next, n) && Below(w.prev, n)
  }

  ghost predicate Fits(c: Corners, w: Walk) {
    |c.steiner| == |c.pt| && Within(w, |c.pt|)
  }

  ghost predicate Drops(c: Corners, a: nat, p: nat, n: nat)
    requires |c.steiner| == |c.pt| && a < |c.pt| && p < |c.pt| && n < |c.pt|
  {
    !c.steiner[p] && Flat(c.pt[a], c.pt[p], c.pt[n])
  }

  /** One turn of the loop: the vertex is unlinked from its neighbours, or the walk goes on to the next. */
  ghost function Step(c: Corners, w: Walk): (r: Walk)
    requires Fits(c, w)
    ensures Fits(c, r)
  {
    var l, r := w.prev[w.p], w.next[w.p];
    if Drops(c, l, w.p, r) then Walk(w.next[l := r], w.prev[r := l], l, l, l == r)
    else Walk(w.next, w.prev, r, w.stop, r == w.stop)
  }

  /** After at most k turns. */
  ghost function After(c: Corners, w: Walk, k: nat): (r: Walk)
    requires Fits(c, w)
    ensures Fits(c, r)
    decreases k
  {
    if k == 0 || w.over then w else After(c, Step(c, w), k - 1)
  }

  // --- The gap at a dropped bridge ---

  /**
   * How the vertices are numbered: first the `ring` vertices still on the ring, in order, then the
   * `left` ones dropped to the left of the bridge, nearest first, and then those dropped to its
   * right. The last ring vertex comes after the last left one, and the first after the last right one.
   */
  datatype Gap = Gap(ring: nat, left: nat, right: nat)

  function Size(g: Gap): nat {
    g.ring + g.left + g.right
  }

  ghost function LeftAt(g: Gap, i: nat): (q: nat)
    requires g.ring > 0
    ensures q < Size(g)
  {
    if i < g.left then g.ring + i else g.ring - 1
  }

  ghost function RightAt(g: Gap, j: nat): (q: nat)
    requires g.ring > 0
    ensures q < Size(g)
  {
    if j < g.right then g.ring + g.left + j else 0
  }

  ghost predicate IsLeft(g: Gap, q: nat) {
    g.ring - 1 <= q < g.ring + g.left
  }

  ghost predicate IsRight(g: Gap, q: nat) {
    q == 0 || g.ring + g.left <= q < Size(g)
  }

  /** What a caller can see of the gap before the second call. */
  ghost function SeamOf(c: Corners, g: Gap): Seam
    requires g.ring > 0 && |c.pt| == |c.steiner| == Size(g)
  {
    Seam(seq(g.left + 1, i requires 0 <= i <= g.left => c.pt[LeftAt(g, i)]),
         seq(g.right + 1, j requires 0 <= j <= g.right => c.pt[RightAt(g, j)]),
         c.pt[if g.ring == 1 then 0 else g.ring - 2], c.steiner[g.ring - 1], g.ring == 1)
  }

  /** All ring links but the one across the gap. */
  ghost predicate Chained(w: Walk, g: Gap)
    requires |w.next| == |w.prev| == Size(g)
  {
    && (forall k :: 0 <= k < g.ring - 1 ==> w.next[k] == k + 1)
    && (forall k :: 0 < k < g.ring ==> w.prev[k] == k - 1)
  }

  /** The ring is linked as the first call left it. */
  ghost predicate Whole(w: Walk, g: Gap)
    requires |w.next| == |w.prev| == Size(g) && g.ring > 0
  {
    Chained(w, g) && w.next[g.ring - 1] == 0 && w.prev[0] == g.ring - 1
  }

  /** A dropped left vertex keeps its link to the left, and a dropped right one its link to the right. */
  ghost predicate LeftKept(c: Corners, w: Walk, g: Gap, i: nat)
    requires g.ring > 0 && Size(g) == |w.next| == |w.prev| == |c.steiner| && i < g.left
  {
    w.prev[g.ring + i] == LeftAt(g, i + 1) && IsRight(g, w.next[g.ring + i]) && !c.steiner[g.ring + i]
  }

  ghost predicate RightKept(c: Corners, w: Walk, g: Gap, marks: seq<nat>, j: nat)
    requires g.ring > 0 && Size(g) == |w.next| == |w.prev| == |c.steiner| && |marks| == g.right && j < g.right
  {
    && w.next[g.ring + g.left + j] == RightAt(g, j + 1) && !c.steiner[g.ring + g.left + j]
    && marks[j] <= g.left && w.prev[g.ring + g.left + j] == LeftAt(g, marks[j])
  }

  /** The links that no turn changes, and where the others can lead. */
  ghost predicate Framed(c: Corners, w: Walk, g: Gap, marks: seq<nat>) {
    && g.ring > 0 && |c.pt| == Size(g) && Fits(c, w) && Chained(w, g) && |marks| == g.right
    && (forall i :: 0 <= i < g.left ==> LeftKept(c, w, g, i))
    && (forall j :: 0 <= j < g.right ==> RightKept(c, w, g, marks, j))
    && IsRight(g, w.next[g.ring - 1]) && IsLeft(g, w.prev[0])
  }

  /** No vertex of the ring would be dropped on the whole ring, unless it is the only one. */
  ghost predicate Tidy(c: Corners, g: Gap)
    requires |c.pt| == |c.steiner| == Size(g)
  {
    g.ring > 1 ==> forall k :: 0 <= k < g.ring ==>
      Stays(c, g, k)
  }

  ghost predicate Stays(c: Corners, g: Gap, k: nat)
    requires |c.pt| == |c.steiner| == Size(g) && k < g.ring
  {
    !Drops(c, if k == 0 then g.ring - 1 else k - 1, k, if k == g.ring - 1 then 0 else k + 1)
  }

  /** The i-th left and the j-th right vertex are neighbours, and the walk is to stop at the left one. */
  ghost predicate Standing(c: Corners, w: Walk, g: Gap, marks: seq<nat>, i: nat, j: nat) {
    && Framed(c, w, g, marks) && i <= g.left && j <= g.right
    && w.stop == LeftAt(g, i) && w.next[LeftAt(g, i)] == RightAt(g, j) && w.prev[RightAt(g, j)] == LeftAt(g, i)
    && (g.ring == 1 ==> Lone(c, w, g, i, j))
  }

  /** The links of the only vertex on the ring, while it is not one of the neighbours and could be dropped. */
  ghost predicate Lone(c: Corners, w: Walk, g: Gap, i: nat, j: nat)
    requires g.ring == 1 && Fits(c, w) && |c.pt| > 0
  {
    !c.steiner[0] ==> (j < g.right ==> w.prev[0] == 0) && (i < g.left ==> w.next[0] == 0)
  }

  /** They have just become neighbours, and the left one is looked at. */
  ghost predicate At(c: Corners, w: Walk, g: Gap, marks: seq<nat>, i: nat, j: nat) {
    Standing(c, w, g, marks, i, j) && w.p == w.stop && w.over == (LeftAt(g, i) == RightAt(g, j))
  }

  /** The left one stays, and a right one is looked at. */
  ghost predicate Onward(c: Corners, w: Walk, g: Gap, marks: seq<nat>, i: nat, j: nat, k: nat) {
    Standing(c, w, g, marks, i, j) && k <= g.right && w.p == RightAt(g, k) && w.over == (LeftAt(g, i) == RightAt(g, k))
  }

  lemma SeamSound(c: Corners, w: Walk, g: Gap, marks: seq<nat>)
    requires Framed(c, w, g, marks)
    ensures Sound(SeamOf(c, g), marks)
  {
    forall j | 0 <= j < g.right
      ensures marks[j] <= g.left
    {
      assert RightKept(c, w, g, marks, j);
    }
  }

  ghost function Mark(g: Gap, marks: seq<nat>, j: nat, i: nat): seq<nat>
    requires |marks| == g.right
  {
    if j < g.right then marks[j := i] else marks
  }

  /** The mark of the vertex on the right plays no part in what happens next. */
  lemma MarkUnseen(c: Corners, g: Gap, marks: seq<nat>, i: nat, j: nat)
    requires g.ring > 0 && |c.pt| == |c.steiner| == Size(g) && i <= g.left && j <= g.right
    requires Sound(SeamOf(c, g), marks) && Sound(SeamOf(c, g), Mark(g, marks, j, i))
    ensures Outcome(SeamOf(c, g), Mark(g, marks, j, i), i, j) == Outcome(SeamOf(c, g), marks, i, j)
  {
    MarksAhead(SeamOf(c, g), marks, Mark(g, marks, j, i), i, j);
  }

  /** The frame at one vertex on the left and one on the right. */
  lemma FrameAt(c: Corners, w: Walk, g: Gap, marks: seq<nat>, i: nat, j: nat)
    requires Framed(c, w, g, marks) && i <= g.left && j <= g.right
    ensures Sound(SeamOf(c, g), marks)
    ensures SeamOf(c, g).left[i] == c.pt[LeftAt(g, i)] && SeamOf(c, g).right[j] == c.pt[RightAt(g, j)]
    ensures i < g.left ==> w.prev[LeftAt(g, i)] == LeftAt(g, i + 1) && !c.steiner[LeftAt(g, i)]
    ensures j < g.right ==> w.next[RightAt(g, j)] == RightAt(g, j + 1) && !c.steiner[RightAt(g, j)]
    ensures j < g.right ==> w.prev[RightAt(g, j)] == LeftAt(g, marks[j])
    ensures Before(SeamOf(c, g), i)
         == c.pt[if i < g.left then LeftAt(g, i + 1) else if g.ring == 1 then 0 else g.ring - 2]
    ensures g.ring > 1 ==> w.prev[LeftAt(g, g.left)] == g.ring - 2
    ensures RightAt(g, j) == LeftAt(g, i) ==> g.ring == 1 && i == g.left && j == g.right
  {
    SeamSound(c, w, g, marks);
    assert i < g.left ==> LeftKept(c, w, g, i);
    assert j < g.right ==> RightKept(c, w, g, marks, j);
  }

  /** Going on changes no link. */
  lemma FramedOn(c: Corners, w: Walk, v: Walk, g: Gap, marks: seq<nat>)
    requires Framed(c, w, g, marks) && Fits(c, v) && v.next == w.next && v.prev == w.prev
    ensures Framed(c, v, g, marks)
  {
    assert forall i :: 0 <= i < g.left && LeftKept(c, w, g, i) ==> LeftKept(c, v, g, i);
    assert forall j :: 0 <= j < g.right && RightKept(c, w, g, marks, j) ==> RightKept(c, v, g, marks, j);
  }

  /** The links after the vertices at i and j have become neighbours. */
  ghost function Link(w: Walk, g: Gap, i: nat, j: nat): Walk
    requires g.ring > 0 && |w.next| == |w.prev| == Size(g)
  {
    Walk(w.next[LeftAt(g, i) := RightAt(g, j)], w.prev[RightAt(g, j) := LeftAt(g, i)],
         LeftAt(g, i), LeftAt(g, i), LeftAt(g, i) == RightAt(g, j))
  }

  lemma LinkFramed(c: Corners, w: Walk, g: Gap, marks: seq<nat>, i: nat, j: nat)
    requires Framed(c, w, g, marks) && i <= g.left && j <= g.right
    ensures Framed(c, Link(w, g, i, j), g, Mark(g, marks, j, i))
  {
    var v, after := Link(w, g, i, j), Mark(g, marks, j, i);
    forall k | 0 <= k < g.left
      ensures LeftKept(c, v, g, k)
    {
      assert LeftKept(c, w, g, k);
    }
    forall k | 0 <= k < g.right
      ensures RightKept(c, v, g, after, k)
    {
      assert RightKept(c, w, g, marks, k);
    }
  }

  /** What happens when the vertices at i and j become neighbours. */
  lemma Joined(c: Corners, w: Walk, g: Gap, marks: seq<nat>, i: nat, j: nat)
    requires Framed(c, w, g, marks) && i <= g.left && j <= g.right
    requires g.ring == 1 ==> Lone(c, w, g, i, j)
    ensures At(c, Link(w, g, i, j), g, Mark(g, marks, j, i), i, j)
  {
    LinkFramed(c, w, g, marks, i, j);
  }

  /** The left vertex is dropped; the one before it takes its place. */
  lemma TurnLeft(c: Corners, w: Walk, g: Gap, marks: seq<nat>, i: nat, j: nat)
    requires At(c, w, g, marks, i, j) && Sound(SeamOf(c, g), marks) && Go(SeamOf(c, g), marks, i, j) == Left
    ensures !w.over && i < g.left && Step(c, w) == Link(w, g, i + 1, j)
    ensures At(c, Step(c, w), g, Mark(g, marks, j, i + 1), i + 1, j)
  {
    FrameAt(c, w, g, marks, i, j);
    Joined(c, w, g, marks, i + 1, j);
  }

  /** The left vertex stays. */
  lemma KeepLeft(c: Corners, w: Walk, g: Gap, marks: seq<nat>, i: nat, j: nat)
    requires At(c, w, g, marks, i, j) && !w.over && Sound(SeamOf(c, g), marks)
    requires !(i == g.left && c.steiner[g.ring - 1]) ==>
      !Flat(Before(SeamOf(c, g), i), SeamOf(c, g).left[i], SeamOf(c, g).right[j])
    ensures Onward(c, Step(c, w), g, marks, i, j, j)
  {
    FrameAt(c, w, g, marks, i, j);
    FramedOn(c, w, Step(c, w), g, marks);
  }

  /** The right vertex is dropped. */
  lemma DropRight(c: Corners, w: Walk, g: Gap, marks: seq<nat>, i: nat, j: nat)
    requires Onward(c, w, g, marks, i, j, j) && !w.over && Sound(SeamOf(c, g), marks) && j < g.right
    requires Flat(SeamOf(c, g).left[i], SeamOf(c, g).right[j], SeamOf(c, g).right[j + 1])
    ensures Step(c, w) == Link(w, g, i, j + 1) && At(c, Step(c, w), g, Mark(g, marks, j + 1, i), i, j + 1)
  {
    FrameAt(c, w, g, marks, i, j);
    FrameAt(c, w, g, marks, i, j + 1);
    Joined(c, w, g, marks, i, j + 1);
  }

  /** The right vertex stays. */
  lemma KeepRight(c: Corners, w: Walk, g: Gap, marks: seq<nat>, i: nat, j: nat)
    requires Onward(c, w, g, marks, i, j, j) && !w.over && Sound(SeamOf(c, g), marks) && j < g.right
    requires !Flat(SeamOf(c, g).left[i], SeamOf(c, g).right[j], SeamOf(c, g).right[j + 1])
    ensures Onward(c, Step(c, w), g, marks, i, j, j + 1)
  {
    FrameAt(c, w, g, marks, i, j);
    FrameAt(c, w, g, marks, i, j + 1);
    FramedOn(c, w, Step(c, w), g, marks);
  }

  /** The vertex after it is dropped: its old left neighbour comes next. */
  lemma DropBeyond(c: Corners, w: Walk, g: Gap, marks: seq<nat>, i: nat, j: nat)
    requires Onward(c, w, g, marks, i, j, j + 1) && !w.over && Sound(SeamOf(c, g), marks) && j + 1 < g.right
    requires g.ring == 1 && !c.steiner[0] ==> i < g.left
    requires Flat(SeamOf(c, g).left[marks[j + 1]], SeamOf(c, g).right[j + 1], SeamOf(c, g).right[j + 2])
    ensures Step(c, w) == Link(w, g, marks[j + 1], j + 2)
    ensures At(c, Step(c, w), g, Mark(g, marks, j + 2, marks[j + 1]), marks[j + 1], j + 2)
  {
    FrameAt(c, w, g, marks, i, j + 1);
    FrameAt(c, w, g, marks, marks[j + 1], j + 2);
    Joined(c, w, g, marks, marks[j + 1], j + 2);
  }
}
