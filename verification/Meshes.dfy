/** Triangle meshes: the data that the boolean operations hand on, and the faces at each edge. */
module Meshes {

  datatype Vec3 = Vec3(x: real, y: real, z: real)

  /** A triangle by the numbers of its corners. */
  datatype Face = Face(a: nat, b: nat, c: nat)

  datatype Edge = Edge(from: nat, to: nat)

  class Mesh {
    var vertices: seq<Vec3>
    var faces: seq<Face>
    var edges: seq<Edge>

    constructor (vertices: seq<Vec3>, faces: seq<Face>, edges: seq<Edge>)
      ensures this.vertices == vertices && this.faces == faces && this.edges == edges
    {
      this.vertices, this.faces, this.edges := vertices, faces, edges;
    }

    /** Faces and edges name existing vertices. */
    predicate InRange()
      reads this
    {
      FacesIn(faces, |vertices|) && EdgesIn(edges, |vertices|)
    }
  }

  predicate FaceIn(f: Face, n: nat) {
    f.a < n && f.b < n && f.c < n
  }

  predicate FacesIn(faces: seq<Face>, n: nat) {
    forall i :: 0 <= i < |faces| ==> FaceIn(faces[i], n)
  }

  predicate EdgesIn(edges: seq<Edge>, n: nat) {
    forall i :: 0 <= i < |edges| ==> edges[i].from < n && edges[i].to < n
  }

  /** An undirected edge, smaller end first. */
  datatype EdgeKey = EdgeKey(v0: nat, v1: nat)

  function Key(u: nat, v: nat): EdgeKey {
    if u <= v then EdgeKey(u, v) else EdgeKey(v, u)
  }

  predicate HasKey(f: Face, k: EdgeKey) {
    k == Key(f.a, f.b) || k == Key(f.b, f.c) || k == Key(f.c, f.a)
  }

  type EdgeFaces = map<EdgeKey, seq<nat>>

  function At(m: EdgeFaces, k: EdgeKey): seq<nat> {
    if k in m then m[k] else []
  }

  predicate Named(m: EdgeFaces, k: EdgeKey, i: nat) {
    i in At(m, k)
  }

  /** Every list names, in order, the first n faces that have its edge. */
  ghost predicate Lists(m: EdgeFaces, faces: seq<Face>, n: nat)
    requires n <= |faces|
  {
    && (forall k, i: nat :: Named(m, k, i) <==> i < n && HasKey(faces[i], k))
    && (forall k :: Ascending(At(m, k)))
  }

  ghost predicate Ascending(s: seq<nat>) {
    forall i, j :: 0 <= i < j < |s| ==> s[i] <= s[j]
  }

  /** The first n faces are listed, and face n under the given keys. */
  ghost predicate Listing(m: EdgeFaces, faces: seq<Face>, n: nat, keys: set<EdgeKey>)
    requires n < |faces|
  {
    && (forall k, i: nat :: Named(m, k, i) <==> (i < n && HasKey(faces[i], k)) || (i == n && k in keys))
    && (forall k :: Ascending(At(m, k)))
  }

  function Push(m: EdgeFaces, k: EdgeKey, i: nat): EdgeFaces {
    m[k := At(m, k) + [i]]
  }

  lemma PushLists(m: EdgeFaces, faces: seq<Face>, n: nat, keys: set<EdgeKey>, k: EdgeKey)
    requires n < |faces| && Listing(m, faces, n, keys)
    ensures Listing(Push(m, k, n), faces, n, keys + {k})
  {
    var r := Push(m, k, n);
    assert At(r, k) == At(m, k) + [n];
    assert forall j :: 0 <= j < |At(m, k)| ==> Named(m, k, At(m, k)[j]);
    forall k', i: nat
      ensures Named(r, k', i) <==> Named(m, k', i) || (i == n && k' == k)
    {
    }
    forall k'
      ensures Ascending(At(r, k'))
    {
      if k' != k {
        assert At(r, k') == At(m, k');
      }
    }
  }

  /** build_edge_face_map. */
  method BuildEdgeFaceMap(faces: seq<Face>) returns (m: EdgeFaces)
    ensures Lists(m, faces, |faces|)
  {
    m := map[];
    var i := 0;
    while i < |faces|
      invariant 0 <= i <= |faces| && Lists(m, faces, i)
    {
      var f := faces[i];
      PushLists(m, faces, i, {}, Key(f.a, f.b));
      m := Push(m, Key(f.a, f.b), i);
      PushLists(m, faces, i, {Key(f.a, f.b)}, Key(f.b, f.c));
      m := Push(m, Key(f.b, f.c), i);
      PushLists(m, faces, i, {Key(f.a, f.b)} + {Key(f.b, f.c)}, Key(f.c, f.a));
      m := Push(m, Key(f.c, f.a), i);
      i := i + 1;
    }
  }
}
