/** The module function around the triangulator: validation, ring splitting, triangulation. */
module EarcutBinding {
  import opened Plane
  import opened Ledger
  import opened Diagonals
  import opened E = Earcut
  import R = Resume

  datatype Outcome =
    | Triangles(indices: seq<nat>)
    | DimTooSmall
    | LengthNotDivisible
    | HolesOutOfOrder
    | RingTooShort

  /** The vertices that a flat coordinate list describes: of every group of dim numbers, the first two. */
  ghost function Coordinates(flat: seq<real>, dim: nat): (r: seq<Point>)
    requires dim >= 2 && |flat| % dim == 0
    ensures |r| == |flat| / dim
  {
    seq(|flat| / dim, i requires 0 <= i < |flat| / dim => PointAt(flat, dim, i))
  }

  function PointAt(flat: seq<real>, dim: nat, i: nat): Point
    requires dim >= 2 && |flat| % dim == 0 && i < |flat| / dim
  {
    FitsFlat(|flat|, dim, i);
    Point(flat[i * dim], flat[i * dim + 1])
  }

  lemma FitsFlat(length: nat, dim: nat, i: nat)
    requires dim >= 2 && length % dim == 0 && i < length / dim
    ensures 0 <= i * dim && i * dim + 1 < length
  {
    assert length == length / dim * dim;
    assert i * dim <= (length / dim - 1) * dim;
  }

  /** Where ring i starts; past the last ring, the number of vertices. */
  ghost function Bound(holes: seq<nat>, n: nat, i: nat): nat
    requires i <= |holes| + 1
  {
    if i == 0 then 0 else if i <= |holes| then holes[i - 1] else n
  }

  ghost function Bounds(holes: seq<nat>, n: nat): (r: seq<nat>)
    ensures |r| == |holes| + 2
  {
    seq(|holes| + 2, i requires 0 <= i < |holes| + 2 => Bound(holes, n, i))
  }

  /** The first k hole indices are in range and leave at least three vertices before each. */
  ghost predicate GoodStarts(holes: seq<nat>, n: nat, k: nat)
    requires k <= |holes|
  {
    forall j :: 0 <= j < k ==> Bound(holes, n, j) + 3 <= holes[j] < n
  }

  /** Hole index k does not come after its predecessor, or lies past the last vertex. */
  ghost predicate Misplaced(holes: seq<nat>, n: nat, k: nat)
    requires k < |holes|
  {
    holes[k] <= Bound(holes, n, k) || holes[k] >= n
  }

  /** Ring r has at least three vertices. */
  ghost predicate LongEnough(holes: seq<nat>, n: nat, r: nat) {
    r <= |holes| && Bound(holes, n, r) + 3 <= Bound(holes, n, r + 1)
  }

  /** Every ring has at least three vertices. */
  ghost predicate WellCut(holes: seq<nat>, n: nat) {
    forall r :: 0 <= r <= |holes| ==> LongEnough(holes, n, r)
  }

  lemma {:induction false} BoundsGrow(holes: seq<nat>, n: nat, i: nat, j: nat)
    requires WellCut(holes, n) && i <= j <= |holes| + 1
    ensures Bound(holes, n, i) <= Bound(holes, n, j) <= n
    decreases |holes| + 1 - i
  {
    if i < j {
      assert LongEnough(holes, n, i);
      BoundsGrow(holes, n, i + 1, j);
    } else if j <= |holes| {
      BoundsGrow(holes, n, j + 1, j + 1);
      assert LongEnough(holes, n, j);
    }
  }

  /** The vertex lists of the rings. */
  ghost function RingsOf(points: seq<Point>, b: seq<nat>): (r: seq<seq<Point>>)
    requires |b| > 0 && Ascending(b, |points|)
    ensures |r| == |b| - 1
  {
    seq(|b| - 1, k requires 0 <= k < |b| - 1 => points[b[k]..b[k + 1]])
  }

  lemma {:induction false} FlattenRings(points: seq<Point>, b: seq<nat>)
    requires |b| > 0 && Ascending(b, |points|)
    ensures Flatten(RingsOf(points, b)) == points[b[0]..b[|b| - 1]]
  {
    if |b| > 1 {
      var front := b[..|b| - 1];
      FlattenRings(points, front);
      assert RingsOf(points, b)[..|b| - 2] == RingsOf(points, front);
    }
  }

  ghost predicate Ascending(b: seq<nat>, top: nat) {
    forall i, j :: 0 <= i <= j < |b| ==> b[i] <= b[j] <= top
  }

  lemma BoundsAscend(holes: seq<nat>, n: nat)
    requires WellCut(holes, n)
    ensures Ascending(Bounds(holes, n), n)
    ensures forall r :: 0 <= r <= |holes| ==> Bounds(holes, n)[r] + 3 <= Bounds(holes, n)[r + 1]
  {
    forall i, j | 0 <= i <= j < |holes| + 2
      ensures Bounds(holes, n)[i] <= Bounds(holes, n)[j] <= n
    {
      BoundsGrow(holes, n, i, j);
    }
    forall r | 0 <= r <= |holes|
      ensures Bounds(holes, n)[r] + 3 <= Bounds(holes, n)[r + 1]
    {
      assert LongEnough(holes, n, r);
    }
  }

  /** Some hole index is misplaced although all before it are good. */
  ghost predicate OutOfOrder(holes: seq<nat>, n: nat) {
    exists k :: 0 <= k < |holes| && GoodStarts(holes, n, k) && Misplaced(holes, n, k)
  }

  /** What the checks from hole index i on come to. */
  ghost function Verdict(holes: seq<nat>, n: nat, i: nat): Outcome
    requires i <= |holes|
    decreases |holes| - i
  {
    if i == |holes| then
      if n < Bound(holes, n, i) + 3 then RingTooShort else Triangles([])
    else if Misplaced(holes, n, i) then HolesOutOfOrder
    else if holes[i] < Bound(holes, n, i) + 3 then RingTooShort
    else Verdict(holes, n, i + 1)
  }

  /** The checks accept exactly the well-cut vertex lists, and complain of order where order is the first fault. */
  lemma {:induction false} VerdictIs(holes: seq<nat>, n: nat, i: nat)
    requires i <= |holes| && GoodStarts(holes, n, i)
    ensures Verdict(holes, n, i).Triangles? <==> WellCut(holes, n)
    ensures Verdict(holes, n, i).HolesOutOfOrder? <==> OutOfOrder(holes, n)
    ensures Verdict(holes, n, i) in {Triangles([]), HolesOutOfOrder, RingTooShort}
    decreases |holes| - i
  {
    if i == |holes| {
      GoodIsCut(holes, n);
      NoneMisplaced(holes, n, i);
    } else if Misplaced(holes, n, i) || holes[i] < Bound(holes, n, i) + 3 {
      FirstFault(holes, n, i);
    } else {
      VerdictIs(holes, n, i + 1);
    }
  }

  /** Behind good starts, the first fault decides. */
  lemma FirstFault(holes: seq<nat>, n: nat, i: nat)
    requires i < |holes| && GoodStarts(holes, n, i)
    requires Misplaced(holes, n, i) || holes[i] < Bound(holes, n, i) + 3
    ensures !WellCut(holes, n)
    ensures OutOfOrder(holes, n) <==> Misplaced(holes, n, i)
  {
    if WellCut(holes, n) {
      CutPlaced(holes, n, i);
    }
    if !Misplaced(holes, n, i) {
      NoneMisplaced(holes, n, i);
    }
  }

  lemma NoneMisplaced(holes: seq<nat>, n: nat, i: nat)
    requires i <= |holes| && GoodStarts(holes, n, i)
    requires i < |holes| ==> !Misplaced(holes, n, i) && holes[i] < Bound(holes, n, i) + 3
    ensures !OutOfOrder(holes, n)
  {
    forall k | 0 <= k < |holes| && GoodStarts(holes, n, k)
      ensures !Misplaced(holes, n, k)
    {
    }
  }

  lemma CutPlaced(holes: seq<nat>, n: nat, k: nat)
    requires k < |holes| && WellCut(holes, n)
    ensures !Misplaced(holes, n, k) && Bound(holes, n, k) + 3 <= holes[k]
  {
    BoundsGrow(holes, n, k + 2, k + 2);
    assert LongEnough(holes, n, k) && LongEnough(holes, n, k + 1);
  }

  lemma GoodIsCut(holes: seq<nat>, n: nat)
    requires GoodStarts(holes, n, |holes|)
    ensures WellCut(holes, n) <==> Bound(holes, n, |holes|) + 3 <= n
  {
    assert WellCut(holes, n) ==> LongEnough(holes, n, |holes|);
  }

  /** The validation loop over the hole indices, and the collection of the ring starts. */
  method CheckHoles(holes: seq<nat>, n: nat) returns (r: Outcome, starts: seq<nat>)
    requires n >= 3
    ensures r == Verdict(holes, n, 0)
    ensures r.Triangles? ==> starts == Bounds(holes, n)
  {
    starts, r := [0], Triangles([]);
    var previousStart, i := 0, 0;
    while i < |holes|
      invariant 0 <= i <= |holes| && previousStart == Bound(holes, n, i)
      invariant starts == Bounds(holes, n)[..i + 1]
      invariant Verdict(holes, n, 0) == Verdict(holes, n, i)
    {
      var start := holes[i];
      if start <= previousStart || start >= n {
        return HolesOutOfOrder, starts;
      }
      if start - previousStart < 3 {
        return RingTooShort, starts;
      }
      starts := starts + [start];
      previousStart := start;
      i := i + 1;
    }
    if n - previousStart < 3 {
      return RingTooShort, starts;
    }
    starts := starts + [n];
  }

  /** The inner splitting loop: one ring. */
  method CutRing(flat: seq<real>, dim: nat, start: nat, end: nat) returns (ring: seq<Point>)
    requires dim >= 2 && |flat| % dim == 0 && start <= end <= |flat| / dim
    ensures ring == Coordinates(flat, dim)[start..end]
  {
    ring := [];
    var i := start;
    while i < end
      invariant start <= i <= end
      invariant ring == Coordinates(flat, dim)[start..i]
    {
      FitsFlat(|flat|, dim, i);
      ring := ring + [Point(flat[i * dim], flat[i * dim + 1])];
      i := i + 1;
    }
  }

  /** The splitting loop: the rings one after the other. */
  method CutRings(flat: seq<real>, dim: nat, starts: seq<nat>) returns (polygon: seq<seq<Point>>)
    requires dim >= 2 && |flat| % dim == 0 && |starts| > 0
    requires forall r :: 0 <= r < |starts| - 1 ==> starts[r] < starts[r + 1]
    requires Ascending(starts, |flat| / dim)
    ensures polygon == RingsOf(Coordinates(flat, dim), starts)
  {
    polygon := [];
    var r := 0;
    while r + 1 < |starts|
      invariant 0 <= r < |starts|
      invariant polygon == RingsOf(Coordinates(flat, dim), starts)[..r]
    {
      var ring := CutRing(flat, dim, starts[r], starts[r + 1]);
      if ring != [] {
        polygon := polygon + [ring];
      }
      r := r + 1;
    }
  }

  /**
   * What comes back for a vertex list and its rings when it came to the clipping. The areas of the
   * triangles, of the rings given up (stuck or left out) and of the corners cut off add up to the
   * outer ring less the holes.
   */
  ghost predicate Accounted(points: seq<Point>, rings: seq<seq<Point>>, indices: seq<nat>,
                            stuck: seq<seq<Vertex>>, unbridged: seq<seq<Vertex>>, cuts: seq<Cut>)
    requires rings != []
  {
    && |indices| % 3 == 0
    && Emitted(points, indices, |indices| / 3) + RingsArea(stuck) + RingsArea(unbridged) + CutsArea(cuts)
       == Abs(Area2(rings[0])) + HolePoints(rings[1..])
    && (cuts == [] ==> AllPositive(points, indices))
    && (cuts == [] && stuck == [] && unbridged == [] ==>
          Covered(points, indices, |indices| / 3) == Abs(Area2(rings[0])) + HolePoints(rings[1..]))
    && (forall k :: 0 <= k < |stuck| ==> GivenUp(stuck[k]))
    && (forall k :: 0 <= k < |cuts| ==> Crossed(cuts[k], points))
  }

  /**
   * Why it did not come to the clipping: a flat outer ring of three points, or a ring stranded at a
   * hole, which takes vertices that are not in general position.
   */
  ghost predicate Excused(rings: seq<seq<Point>>, x: R.Stranding)
    requires rings != []
  {
    || (|rings[0]| <= 3 && Area2(rings[0]) == 0.0)
    || (|rings| > 1 && !Spacious(rings) && LostAt(x, Flatten(rings)))
  }

  /** earcut_triangulate. */
  method EarcutTriangulate(flat: seq<real>, holes: seq<nat>, dim: nat)
    returns (r: Outcome, clipped: bool, ghost stuck: seq<seq<Vertex>>, ghost unbridged: seq<seq<Vertex>>,
             ghost cuts: seq<Cut>, ghost x: R.Stranding)
    ensures flat == [] ==> r == Triangles([])
    ensures flat != [] ==> (r.DimTooSmall? <==> dim < 2)
    ensures flat != [] && dim >= 2 ==> (r.LengthNotDivisible? <==> |flat| % dim != 0)
    ensures flat != [] && dim >= 2 && |flat| % dim == 0 && |flat| / dim < 3 ==> r == Triangles([])
    ensures flat != [] && dim >= 2 && |flat| % dim == 0 && |flat| / dim >= 3 ==>
      && (r.Triangles? <==> WellCut(holes, |flat| / dim))
      && (r.HolesOutOfOrder? <==> OutOfOrder(holes, |flat| / dim))
    ensures r.Triangles? && r.indices != [] ==>
      && dim >= 2 && |r.indices| % 3 == 0 && |r.indices| / 3 <= |flat| / dim + 2 * |holes| - 2
      && forall k :: 0 <= k < |r.indices| ==> r.indices[k] < |flat| / dim
    ensures r.Triangles? && dim >= 2 && |flat| % dim == 0 && |flat| / dim >= 3 && WellCut(holes, |flat| / dim) ==>
      && Ascending(Bounds(holes, |flat| / dim), |flat| / dim)
      && var points := Coordinates(flat, dim);
         var rings := RingsOf(points, Bounds(holes, |flat| / dim));
         if clipped then Accounted(points, rings, r.indices, stuck, unbridged, cuts)
         else r.indices == [] && Excused(rings, x)
    ensures holes == [] ==> unbridged == []
  {
    stuck, unbridged, cuts, clipped, x := [], [], [], false, R.NOWHERE;
    if flat == [] {
      r := Triangles([]);
      return;
    }
    if dim < 2 {
      r := DimTooSmall;
      return;
    }
    if |flat| % dim != 0 {
      r := LengthNotDivisible;
      return;
    }
    var n := |flat| / dim;
    if n < 3 {
      r := Triangles([]);
      return;
    }
    var starts;
    r, starts := CheckHoles(holes, n);
    VerdictIs(holes, n, 0);
    if !r.Triangles? {
      return;
    }
    BoundsAscend(holes, n);
    var polygon := CutRings(flat, dim, starts);
    ghost var points := Coordinates(flat, dim);
    FlattenRings(points, starts);
    assert points[..] == points;
    assert polygon[0] == points[starts[0]..starts[1]];
    if polygon == [] || |polygon[0]| < 3 {
      assert false;
    }
    r, clipped, stuck, unbridged, cuts, x := Clipped(polygon, points);
  }

  /** The triangulation of a checked polygon. */
  method Clipped(polygon: seq<seq<Point>>, ghost points: seq<Point>)
    returns (r: Outcome, clipped: bool, ghost stuck: seq<seq<Vertex>>, ghost unbridged: seq<seq<Vertex>>,
             ghost cuts: seq<Cut>, ghost x: R.Stranding)
    requires polygon != [] && Flatten(polygon) == points
    ensures r.Triangles? && |r.indices| % 3 == 0
    ensures r.indices == [] || |r.indices| / 3 <= |points| + 2 * (|polygon| - 1) - 2
    ensures forall k :: 0 <= k < |r.indices| ==> r.indices[k] < |points|
    ensures if clipped then Accounted(points, polygon, r.indices, stuck, unbridged, cuts)
            else r.indices == [] && Excused(polygon, x)
    ensures !clipped ==> stuck == [] && cuts == []
    ensures |polygon| == 1 ==> unbridged == []
  {
    var ec := new E.Earcut();
    var intact;
    intact, clipped, x := ec.Triangulate(polygon);
    r := Triangles(ec.indices);
    stuck, unbridged, cuts := ec.stuck, ec.unbridged, ec.cuts;
  }
}
