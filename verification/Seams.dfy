/**
 * The seam between the vertices that filterPoints has dropped to the left and to the right of a
 * bridge, and how dropping them once more, from the bridge on, closes it again or fails to.
 */
module Seams {
  import opened Plane

  /** Vertex p is doubled or in line with its neighbours. */
  predicate Flat(a: Point, p: Point, n: Point) {
    p == n || Turn(a, p, n) == 0.0
  }

  /**
   * The vertices dropped left of the bridge, nearest first, up to the first that is still on the
   * ring; the same to the right; and for every dropped vertex on the right its left neighbour of
   * the moment when it went, by its place on the left. `back` comes before the last left vertex
   * on the ring; `stiff` says that the last left vertex is a Steiner point, and `single` that the
   * ring has one vertex.
   */
  datatype Seam = Seam(left: seq<Point>, right: seq<Point>, back: Point, stiff: bool, single: bool)

  predicate Sound(s: Seam, marks: seq<nat>) {
    && |s.left| > 0 && |s.right| > 0 && |marks| == |s.right| - 1
    && forall k :: 0 <= k < |marks| ==> marks[k] < |s.left|
  }

  function Before(s: Seam, i: nat): Point
    requires i < |s.left|
  {
    if i + 1 < |s.left| then s.left[i + 1] else s.back
  }

  /** What happens when left[i] and right[j] have become neighbours. */
  datatype Move = Done | Left | Right | Jump(to: nat) | Loses | Sticks | Strays

  function Go(s: Seam, marks: seq<nat>, i: nat, j: nat): Move
    requires Sound(s, marks) && i < |s.left| && j < |s.right|
  {
    var m, n := |s.left| - 1, |s.right| - 1;
    if i == m && j == n then Done
    else if !(i == m && s.stiff) && Flat(Before(s, i), s.left[i], s.right[j]) then if i < m then Left else Loses
    else if j == n then Sticks
    else if Flat(s.left[i], s.right[j], s.right[j + 1]) then Right
    else if j + 1 == n then if s.single && !s.stiff then Done else Sticks
    else if Flat(s.left[marks[j + 1]], s.right[j + 1], s.right[j + 2]) then Jump(marks[j + 1])
    else Strays
  }

  /** How it ends: the ring is whole again, a vertex of the ring is lost, or the walk goes astray. */
  function Outcome(s: Seam, marks: seq<nat>, i: nat, j: nat): (o: Move)
    requires Sound(s, marks) && i < |s.left| && j < |s.right|
    ensures o in {Done, Loses, Sticks, Strays}
    decreases |s.right| - j, |s.left| - i
  {
    match Go(s, marks, i, j)
    case Left => Outcome(s, marks, i + 1, j)
    case Right => Outcome(s, marks, i, j + 1)
    case Jump(x) => Outcome(s, marks, x, j + 2)
    case o => o
  }

  /** The seam closes from the bridge on. */
  predicate Closes(s: Seam, marks: seq<nat>)
    requires Sound(s, marks)
  {
    Outcome(s, marks, 0, 0) == Done
  }

  /** What happens from (i, j) on does not depend on the mark of right[j] or of vertices before it. */
  lemma {:induction false} MarksAhead(s: Seam, marks: seq<nat>, other: seq<nat>, i: nat, j: nat)
    requires Sound(s, marks) && Sound(s, other) && i < |s.left| && j < |s.right|
    requires forall k :: j < k < |marks| ==> marks[k] == other[k]
    ensures Go(s, marks, i, j) == Go(s, other, i, j)
    ensures Outcome(s, marks, i, j) == Outcome(s, other, i, j)
    decreases |s.right| - j, |s.left| - i
  {
    match Go(s, marks, i, j)
    case Left => MarksAhead(s, marks, other, i + 1, j);
    case Right => MarksAhead(s, marks, other, i, j + 1);
    case Jump(x) => MarksAhead(s, marks, other, x, j + 2);
    case _ =>
  }

  /** From (a, b) the moves lead to (i, j). */
  ghost predicate Leads(s: Seam, marks: seq<nat>, a: nat, b: nat, i: nat, j: nat)
    requires Sound(s, marks) && a < |s.left| && b < |s.right|
    decreases |s.right| - b, |s.left| - a
  {
    || (a == i && b == j)
    || match Go(s, marks, a, b)
       case Left => Leads(s, marks, a + 1, b, i, j)
       case Right => Leads(s, marks, a, b + 1, i, j)
       case Jump(x) => Leads(s, marks, x, b + 2, i, j)
       case _ => false
  }

  /** Where the moves lead, they end the same way. */
  lemma {:induction false} LeadsOutcome(s: Seam, marks: seq<nat>, a: nat, b: nat, i: nat, j: nat)
    requires Sound(s, marks) && a < |s.left| && b < |s.right| && Leads(s, marks, a, b, i, j)
    ensures i < |s.left| && b <= j < |s.right|
    ensures Outcome(s, marks, a, b) == Outcome(s, marks, i, j)
    decreases |s.right| - b, |s.left| - a
  {
    if !(a == i && b == j) {
      match Go(s, marks, a, b)
      case Left => LeadsOutcome(s, marks, a + 1, b, i, j);
      case Right => LeadsOutcome(s, marks, a, b + 1, i, j);
      case Jump(x) => LeadsOutcome(s, marks, x, b + 2, i, j);
      case _ =>
    }
  }

  /** One more move. */
  lemma {:induction false} LeadsOn(s: Seam, marks: seq<nat>, a: nat, b: nat, i: nat, j: nat)
    requires Sound(s, marks) && a < |s.left| && b < |s.right| && Leads(s, marks, a, b, i, j)
    ensures i < |s.left| && j < |s.right|
    ensures match Go(s, marks, i, j)
            case Left => Leads(s, marks, a, b, i + 1, j)
            case Right => Leads(s, marks, a, b, i, j + 1)
            case Jump(x) => Leads(s, marks, a, b, x, j + 2)
            case _ => true
    decreases |s.right| - b, |s.left| - a
  {
    if !(a == i && b == j) {
      match Go(s, marks, a, b)
      case Left => LeadsOn(s, marks, a + 1, b, i, j);
      case Right => LeadsOn(s, marks, a, b + 1, i, j);
      case Jump(x) => LeadsOn(s, marks, x, b + 2, i, j);
      case _ =>
    }
  }

  /** The mark of right[j] plays no part on the way to (i, j) nor after it. */
  lemma {:induction false} MarkUnused(s: Seam, marks: seq<nat>, a: nat, b: nat, i: nat, j: nat, to: nat)
    requires Sound(s, marks) && a < |s.left| && b < |s.right| && Leads(s, marks, a, b, i, j)
    requires j < |marks| && to < |s.left|
    ensures Leads(s, marks[j := to], a, b, i, j)
    decreases |s.right| - b, |s.left| - a
  {
    if !(a == i && b == j) {
      match Go(s, marks, a, b)
      case Left => MarkUnused(s, marks, a + 1, b, i, j, to);
      case Right => MarkUnused(s, marks, a, b + 1, i, j, to);
      case Jump(x) => {
        LeadsOutcome(s, marks, x, b + 2, i, j);
        MarkUnused(s, marks, x, b + 2, i, j, to);
      }
      case _ =>
    }
  }

  /** When nothing on the right was dropped, and every vertex on the left went next to it, the seam closes. */
  lemma {:induction false} OneSided(s: Seam, i: nat)
    requires Sound(s, []) && i < |s.left|
    requires forall k :: 0 <= k < |s.left| - 1 ==> Flat(s.left[k + 1], s.left[k], s.right[0])
    ensures Outcome(s, [], i, 0) == Done
    decreases |s.left| - i
  {
    if i + 1 < |s.left| {
      OneSided(s, i + 1);
    }
  }
}
