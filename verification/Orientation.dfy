/** Triangles of a surface mesh, their edges, and what it means to orient them consistently. */
module Orientation {
  import opened Meshes

  /** The face with its last two corners swapped. */
  function Flip(f: Face): Face {
    Face(f.a, f.c, f.b)
  }

  function Oriented(f: Face, flip: bool): Face {
    if flip then Flip(f) else f
  }

  function Orient(faces: seq<Face>, flips: seq<bool>): (r: seq<Face>)
    requires |flips| == |faces|
    ensures |r| == |faces|
  {
    seq(|faces|, i requires 0 <= i < |faces| => Oriented(faces[i], flips[i]))
  }

  /** The face runs from u to v along one of its edges. */
  predicate Runs(f: Face, u: nat, v: nat) {
    (f.a == u && f.b == v) || (f.b == u && f.c == v) || (f.c == u && f.a == v)
  }

  /** Some edge is run along in the same direction by both faces. */
  predicate Conflict(f: Face, g: Face) {
    Runs(g, f.a, f.b) || Runs(g, f.b, f.c) || Runs(g, f.c, f.a)
  }

  lemma ConflictMeaning(f: Face, g: Face)
    ensures Conflict(f, g) <==> exists u, v :: Runs(f, u, v) && Runs(g, u, v)
  {
    if Conflict(f, g) {
      assert Runs(f, f.a, f.b) && Runs(f, f.b, f.c) && Runs(f, f.c, f.a);
    }
  }

  /** No two faces run along an edge in the same direction. */
  ghost predicate Consistent(faces: seq<Face>) {
    forall i, j :: 0 <= i < j < |faces| ==> !Conflict(faces[i], faces[j])
  }

  /** Some choice of flips makes the mesh consistent. */
  ghost predicate Orientable(faces: seq<Face>) {
    exists flips: seq<bool> :: |flips| == |faces| && Consistent(Orient(faces, flips))
  }

  /** In a consistent mesh the two faces at an edge run along it in opposite directions, and there is no third. */
  lemma SharedEdge(faces: seq<Face>, i: nat, j: nat, u: nat, v: nat)
    requires Consistent(faces) && i < |faces| && j < |faces| && i != j
    requires HasKey(faces[i], Key(u, v)) && HasKey(faces[j], Key(u, v))
    ensures Runs(faces[i], u, v) != Runs(faces[j], u, v)
    ensures Runs(faces[i], v, u) != Runs(faces[j], v, u)
    ensures forall k :: 0 <= k < |faces| && k != i && k != j ==> !HasKey(faces[k], Key(u, v))
  {
    KeyRuns(faces[i], u, v);
    KeyRuns(faces[j], u, v);
    Clash(faces[i], faces[j]);
    forall k | 0 <= k < |faces| && k != i && k != j
      ensures !HasKey(faces[k], Key(u, v))
    {
      KeyRuns(faces[k], u, v);
      Clash(faces[i], faces[k]);
      Clash(faces[j], faces[k]);
    }
  }

  lemma KeyRuns(f: Face, u: nat, v: nat)
    ensures HasKey(f, Key(u, v)) <==> Runs(f, u, v) || Runs(f, v, u)
  {
  }

  lemma Clash(f: Face, g: Face)
    ensures Conflict(f, g) <==> Conflict(g, f)
    ensures forall u, v :: Runs(f, u, v) && Runs(g, u, v) ==> Conflict(f, g)
  {
  }

  /** Flipping both faces of a pair changes nothing between them. */
  lemma FlipBoth(f: Face, g: Face, p: bool, q: bool)
    ensures Conflict(Oriented(f, !p), Oriented(g, !q)) <==> Conflict(Oriented(f, p), Oriented(g, q))
  {
  }

  /** Next to a face that runs from u to v, only one of the two orientations of g is possible. */
  lemma NeighbourFlip(f: Face, g: Face, q: bool, u: nat, v: nat)
    requires Runs(f, u, v) && HasKey(g, Key(u, v)) && !Conflict(f, Oriented(g, q))
    ensures q == Runs(g, u, v)
  {
    KeyRuns(g, u, v);
    Clash(f, Oriented(g, q));
  }

  /** A face keeps its edges when it is flipped. */
  lemma FlipKeys(f: Face, p: bool, k: EdgeKey)
    ensures HasKey(Oriented(f, p), k) <==> HasKey(f, k)
  {
  }

  /** What the sweep keeps: adjacent faces carry one sign. */
  ghost predicate OneSign(faces: seq<Face>, sign: seq<bool>)
    requires |sign| == |faces|
  {
    forall f, g, k :: 0 <= f < |faces| && 0 <= g < |faces| && HasKey(faces[f], k) && HasKey(faces[g], k) ==>
      sign[f] == sign[g]
  }

  /** Flips that differ from a consistent choice by one sign per connected part are consistent. */
  lemma SignedFlips(faces: seq<Face>, phi: seq<bool>, flips: seq<bool>, sign: seq<bool>)
    requires |phi| == |flips| == |sign| == |faces|
    requires Consistent(Orient(faces, phi)) && OneSign(faces, sign)
    requires forall f :: 0 <= f < |faces| ==> flips[f] == (phi[f] != sign[f])
    ensures Consistent(Orient(faces, flips))
  {
    var r := Orient(faces, flips);
    forall i, j | 0 <= i < j < |faces|
      ensures !Conflict(r[i], r[j])
    {
      var f, g := faces[i], faces[j];
      assert !Conflict(Orient(faces, phi)[i], Orient(faces, phi)[j]);
      FlipBoth(f, g, phi[i], phi[j]);
      if Conflict(r[i], r[j]) {
        ConflictKey(f, g, flips[i], flips[j]);
      }
    }
  }

  lemma ConflictKey(f: Face, g: Face, p: bool, q: bool)
    requires Conflict(Oriented(f, p), Oriented(g, q))
    ensures exists k :: HasKey(f, k) && HasKey(g, k)
  {
    assert HasKey(f, Key(f.a, f.b)) && HasKey(f, Key(f.b, f.c)) && HasKey(f, Key(f.c, f.a));
  }
}
