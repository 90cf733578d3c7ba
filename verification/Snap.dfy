/** snap_to_input_vertices: pulls vertices onto nearby input vertices and merges equal ones. */
module Snap {
  import opened Meshes
  import opened Options
  import opened Remap

  function Dist2(p: Vec3, q: Vec3): real {
    var dx, dy, dz := p.x - q.x, p.y - q.y, p.z - q.z;
    dx * dx + dy * dy + dz * dz
  }

  /** A point closer than the tolerance is also closer than that along the first axis. */
  lemma WithinWindow(p: Vec3, q: Vec3, tol: real)
    requires tol >= 0.0 && Dist2(p, q) < tol * tol
    ensures -tol < p.x - q.x < tol
  {
    var dx := p.x - q.x;
    Square(p.y - q.y);
    Square(p.z - q.z);
    if dx >= tol {
      SquareGrows(tol, dx);
    } else if dx <= -tol {
      SquareGrows(tol, -dx);
    }
  }

  lemma Square(x: real)
    ensures x * x >= 0.0
  {
  }

  lemma SquareGrows(a: real, b: real)
    requires 0.0 <= a <= b
    ensures a * a <= b * b
  {
    assert b * b - a * a == (b - a) * (b + a);
  }

  /** order lists the indices of the input from left to right; ties may come in any order. */
  ghost predicate LeftToRight(order: seq<nat>, input: seq<Vec3>) {
    && (forall k :: 0 <= k < |order| ==> order[k] < |input|)
    && (forall i :: 0 <= i < |input| ==> i in order)
    && (forall j, k :: 0 <= j < k < |order| ==> input[order[j]].x <= input[order[k]].x)
  }

  /** lower_bound: the first position whose vertex is not left of x. */
  method LowerBound(order: seq<nat>, input: seq<Vec3>, x: real) returns (lo: nat)
    requires forall k :: 0 <= k < |order| ==> order[k] < |input|
    requires forall j, k :: 0 <= j < k < |order| ==> input[order[j]].x <= input[order[k]].x
    ensures lo <= |order|
    ensures forall k :: 0 <= k < lo ==> input[order[k]].x < x
    ensures forall k :: lo <= k < |order| ==> input[order[k]].x >= x
  {
    lo := 0;
    var count := |order|;
    while count > 0
      invariant 0 <= count && lo + count <= |order|
      invariant forall k :: 0 <= k < lo ==> input[order[k]].x < x
      invariant forall k :: lo + count <= k < |order| ==> input[order[k]].x >= x
    {
      var half := count / 2;
      if input[order[lo + half]].x < x {
        lo := lo + half + 1;
        count := count - half - 1;
      } else {
        count := half;
      }
    }
  }

  /** best is an input vertex closer to v than the tolerance and than no other, or there is none. */
  ghost predicate Nearest(input: seq<Vec3>, v: Vec3, tol: real, best: Option<nat>) {
    match best
    case None => forall i :: 0 <= i < |input| ==> Dist2(input[i], v) >= tol * tol
    case Some(b) =>
      && b < |input| && Dist2(input[b], v) < tol * tol
      && forall i :: 0 <= i < |input| ==> Dist2(input[b], v) <= Dist2(input[i], v)
  }

  /** best is the closest among the positions lo to hi, strictly within the tolerance. */
  ghost predicate BestOf(input: seq<Vec3>, order: seq<nat>, v: Vec3, tol: real, lo: nat, hi: nat, best: Option<nat>,
                         d2: real)
    requires lo <= hi <= |order| && forall k :: 0 <= k < |order| ==> order[k] < |input|
  {
    && (best.None? ==> d2 == tol * tol)
    && (best.Some? ==> best.value < |input| && d2 == Dist2(input[best.value], v) < tol * tol)
    && forall k :: lo <= k < hi ==> d2 <= Dist2(input[order[k]], v)
  }

  /** The scan of the window finds what a scan of all input vertices would find. */
  lemma WindowSuffices(input: seq<Vec3>, order: seq<nat>, v: Vec3, tol: real, lo: nat, hi: nat, best: Option<nat>,
                       d2: real)
    requires LeftToRight(order, input) && lo <= hi <= |order| && tol >= 0.0
    requires forall k :: 0 <= k < lo ==> input[order[k]].x < v.x - tol
    requires hi < |order| ==> input[order[hi]].x - v.x > tol
    requires BestOf(input, order, v, tol, lo, hi, best, d2)
    ensures Nearest(input, v, tol, best)
  {
    forall i | 0 <= i < |input|
      ensures d2 <= Dist2(input[i], v)
    {
      assert i in order;
      var k :| 0 <= k < |order| && order[k] == i;
      if Dist2(input[i], v) < d2 {
        WithinWindow(input[i], v, tol);
      }
    }
  }

  /** The search for the input vertex to snap to. */
  method FindNearest(input: seq<Vec3>, order: seq<nat>, v: Vec3, tol: real) returns (best: Option<nat>)
    requires LeftToRight(order, input) && tol >= 0.0
    ensures Nearest(input, v, tol, best)
  {
    var lo := LowerBound(order, input, v.x - tol);
    var bestDist2 := tol * tol;
    best := None;
    var si := lo;
    while si < |order|
      invariant lo <= si <= |order|
      invariant BestOf(input, order, v, tol, lo, si, best, bestDist2)
    {
      var ii := order[si];
      if input[ii].x - v.x > tol {
        break;
      }
      var d2 := Dist2(input[ii], v);
      if d2 < bestDist2 {
        bestDist2 := d2;
        best := Some(ii);
      }
      si := si + 1;
    }
    WindowSuffices(input, order, v, tol, lo, si, best, bestDist2);
  }

  /** r is where v comes to lie: on a nearest input vertex, or where it was. */
  ghost predicate Snapped(input: seq<Vec3>, v: Vec3, tol: real, r: Vec3) {
    (Nearest(input, v, tol, None) && r == v)
    || exists b :: 0 <= b < |input| && Nearest(input, v, tol, Some(b)) && r == input[b]
  }

  /** The loop that moves every vertex. */
  method SnapVertices(mesh: Mesh, input: seq<Vec3>, order: seq<nat>, tol: real)
    requires LeftToRight(order, input) && tol >= 0.0
    modifies mesh`vertices
    ensures |mesh.vertices| == |old(mesh.vertices)|
    ensures forall i :: 0 <= i < |mesh.vertices| ==> Snapped(input, old(mesh.vertices)[i], tol, mesh.vertices[i])
  {
    ghost var before := mesh.vertices;
    var i := 0;
    while i < |mesh.vertices|
      invariant 0 <= i <= |mesh.vertices| == |before|
      invariant forall j :: 0 <= j < i ==> Snapped(input, before[j], tol, mesh.vertices[j])
      invariant forall j :: i <= j < |before| ==> mesh.vertices[j] == before[j]
    {
      var best := FindNearest(input, order, mesh.vertices[i], tol);
      if best.Some? {
        assert Nearest(input, before[i], tol, Some(best.value));
        mesh.vertices := mesh.vertices[i := input[best.value]];
      }
      i := i + 1;
    }
  }

  // --- Merging equal vertices ---

  /** The distinct elements in the order of their first occurrence. */
  ghost function Firsts<T>(s: seq<T>): (r: seq<T>)
    ensures |r| <= |s|
  {
    if s == [] then []
    else
      var front := Firsts(s[..|s| - 1]);
      if s[|s| - 1] in front then front else front + [s[|s| - 1]]
  }

  lemma {:induction false} FirstsAre<T>(s: seq<T>)
    ensures forall x :: x in Firsts(s) <==> x in s
    ensures forall i, j :: 0 <= i < j < |Firsts(s)| ==> Firsts(s)[i] != Firsts(s)[j]
  {
    if s != [] {
      FirstsAre(s[..|s| - 1]);
      assert s == s[..|s| - 1] + [s[|s| - 1]];
    }
  }

  type Buckets = map<int, seq<nat>>

  function Bucket(m: Buckets, h: int): seq<nat> {
    if h in m then m[h] else []
  }

  /** The numbers of the kept vertices that have hash h, in order. */
  ghost function Numbers(hash: Vec3 -> int, kept: seq<Vec3>, h: int): seq<nat> {
    if kept == [] then []
    else
      var k := |kept| - 1;
      Numbers(hash, kept[..k], h) + if hash(kept[k]) == h then [k] else []
  }

  lemma {:induction false} NumbersAre(hash: Vec3 -> int, kept: seq<Vec3>, h: int)
    ensures forall j :: 0 <= j < |Numbers(hash, kept, h)| ==> Numbers(hash, kept, h)[j] < |kept|
    ensures forall k :: 0 <= k < |kept| && hash(kept[k]) == h ==> k in Numbers(hash, kept, h)
  {
    if kept != [] {
      NumbersAre(hash, kept[..|kept| - 1], h);
    }
  }

  /** Every bucket lists the kept vertices that have its hash. */
  ghost predicate Hashed(m: Buckets, hash: Vec3 -> int, kept: seq<Vec3>) {
    forall h :: Bucket(m, h) == Numbers(hash, kept, h)
  }

  /** Looks a vertex up among the kept ones of its bucket. */
  method Lookup(v: Vec3, bucket: seq<nat>, kept: seq<Vec3>, ghost hash: Vec3 -> int)
    returns (found: bool, at: nat)
    requires bucket == Numbers(hash, kept, hash(v))
    ensures found <==> v in kept
    ensures found ==> at < |kept| && kept[at] == v
  {
    NumbersAre(hash, kept, hash(v));
    found, at := false, 0;
    var j := 0;
    while j < |bucket|
      invariant 0 <= j <= |bucket|
      invariant forall i :: 0 <= i < j ==> kept[bucket[i]] != v
    {
      var existing := bucket[j];
      if kept[existing] == v {
        return true, existing;
      }
      j := j + 1;
    }
    forall k | 0 <= k < |kept|
      ensures kept[k] != v
    {
      if hash(kept[k]) == hash(v) {
        assert k in bucket;
      }
    }
  }

  /** The loop that keeps the first of several equal vertices, with the help of hash buckets. */
  method Merge(vertices: seq<Vec3>, hash: Vec3 -> int) returns (remap: array<nat>, kept: seq<Vec3>)
    ensures fresh(remap) && remap.Length == |vertices| && kept == Firsts(vertices)
    ensures forall i :: 0 <= i < |vertices| ==> remap[i] < |kept| && kept[remap[i]] == vertices[i]
  {
    var n := |vertices|;
    remap := new nat[n];
    kept := [];
    var buckets: Buckets := map[];
    var i := 0;
    while i < n
      invariant 0 <= i <= n && kept == Firsts(vertices[..i]) && Hashed(buckets, hash, kept)
      invariant forall j :: 0 <= j < i ==> remap[j] < |kept| && kept[remap[j]] == vertices[j]
    {
      assert vertices[..i + 1][..i] == vertices[..i];
      var v := vertices[i];
      var h := hash(v);
      var found, at := Lookup(v, Bucket(buckets, h), kept, hash);
      if found {
        remap[i] := at;
      } else {
        remap[i] := |kept|;
        BucketGrows(buckets, hash, kept, v);
        buckets := buckets[h := Bucket(buckets, h) + [|kept|]];
        kept := kept + [v];
      }
      i := i + 1;
    }
    assert vertices[..n] == vertices;
  }

  lemma BucketGrows(m: Buckets, hash: Vec3 -> int, kept: seq<Vec3>, v: Vec3)
    requires Hashed(m, hash, kept)
    ensures Hashed(m[hash(v) := Bucket(m, hash(v)) + [|kept|]], hash, kept + [v])
  {
    var h := hash(v);
    var r := m[h := Bucket(m, h) + [|kept|]];
    assert (kept + [v])[..|kept|] == kept;
    forall h'
      ensures Bucket(r, h') == Numbers(hash, kept + [v], h')
    {
      assert Bucket(r, h') == if h' == h then Bucket(m, h) + [|kept|] else Bucket(m, h');
    }
  }

  /**
   * snap_to_input_vertices: every vertex ends on a nearest input vertex within the tolerance or
   * stays; then equal vertices are merged into their first occurrence, whatever the hash function.
   */
  method SnapToInputVertices(mesh: Mesh, input: seq<Vec3>, tol: real, order: seq<nat>, hash: Vec3 -> int)
    returns (ghost snapped: seq<Vec3>, ghost renumbering: seq<nat>)
    requires mesh.InRange() && LeftToRight(order, input) && tol >= 0.0
    modifies mesh
    ensures mesh.InRange()
    ensures |snapped| == |renumbering| == |old(mesh.vertices)|
    ensures forall i :: 0 <= i < |snapped| ==> Snapped(input, old(mesh.vertices)[i], tol, snapped[i])
    ensures mesh.vertices == Firsts(snapped) || (input == [] && mesh.vertices == snapped)
    ensures forall i :: 0 <= i < |snapped| ==>
      renumbering[i] < |mesh.vertices| && mesh.vertices[renumbering[i]] == snapped[i]
    ensures mesh.faces == MapFaces(old(mesh.faces), renumbering)
    ensures mesh.edges
         == if |mesh.vertices| < |snapped| then MapEdges(old(mesh.edges), renumbering) else old(mesh.edges)
  {
    if |input| == 0 || |mesh.vertices| == 0 {
      snapped, renumbering := mesh.vertices, seq(|mesh.vertices|, i => i);
      Unmoved(mesh.faces, |mesh.vertices|);
      return;
    }
    SnapVertices(mesh, input, order, tol);
    snapped := mesh.vertices;
    var remap, kept := Merge(mesh.vertices, hash);
    renumbering := remap[..];
    MapFacesIn(mesh.faces, renumbering, |kept|);
    MapEdgesIn(mesh.edges, renumbering, |kept|);
    if |kept| < |mesh.vertices| {
      mesh.vertices := kept;
      RemapMeshIndices(mesh, remap);
    } else {
      AllDistinct(snapped, renumbering);
      Unmoved(mesh.faces, |snapped|);
    }
  }

  lemma Unmoved(faces: seq<Face>, n: nat)
    requires FacesIn(faces, n)
    ensures MapFaces(faces, seq(n, i => i)) == faces
  {
    forall i | 0 <= i < |faces|
      ensures MapFace(faces[i], seq(n, i => i)) == faces[i]
    {
      assert FaceIn(faces[i], n);
    }
  }

  /** When nothing is merged, nothing is renumbered. */
  lemma AllDistinct(s: seq<Vec3>, r: seq<nat>)
    requires |r| == |s| == |Firsts(s)|
    requires forall i :: 0 <= i < |s| ==> r[i] < |s| && Firsts(s)[r[i]] == s[i]
    ensures Firsts(s) == s && r == seq(|s|, i => i)
  {
    FirstsWhole(s);
    FirstsAre(s);
  }

  lemma {:induction false} FirstsWhole<T>(s: seq<T>)
    requires |Firsts(s)| == |s|
    ensures Firsts(s) == s
  {
    if s != [] {
      FirstsWhole(s[..|s| - 1]);
    }
  }
}
