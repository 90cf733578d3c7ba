/** Feature edges: border edges and edges where the surface bends by more than a threshold. */
module FeatureEdges {
  import opened Distinctness
  import opened Meshes
  import opened HalfEdges
  import opened BoundaryLoops

  function Minus(p: Vec3, q: Vec3): Vec3 {
    Vec3(p.x - q.x, p.y - q.y, p.z - q.z)
  }

  function CrossProduct(p: Vec3, q: Vec3): Vec3 {
    Vec3(p.y * q.z - p.z * q.y, p.z * q.x - p.x * q.z, p.x * q.y - p.y * q.x)
  }

  function Dot(p: Vec3, q: Vec3): real {
    p.x * q.x + p.y * q.y + p.z * q.z
  }

  function FaceNormal(v0: Vec3, v1: Vec3, v2: Vec3): Vec3 {
    CrossProduct(Minus(v1, v0), Minus(v2, v0))
  }

  /** Normalisation, the length test and the arc cosine; here any functions. */
  datatype Measure = Measure(normalize: Vec3 -> Vec3, short: Vec3 -> bool, arc: real -> real)

  function Clamp(x: real): real {
    if x < -1.0 then -1.0 else if x > 1.0 then 1.0 else x
  }

  /** compute_dihedral_angle. */
  function DihedralAngle(m: Measure, v0: Vec3, v1: Vec3, v2: Vec3, v3: Vec3): real {
    var n1, n2 := m.normalize(FaceNormal(v0, v1, v2)), m.normalize(FaceNormal(v1, v0, v3));
    if m.short(n1) || m.short(n2) then 0.0 else m.arc(Clamp(Dot(n1, n2)))
  }

  /** The angle is the same seen from either half of the edge. */
  lemma AngleSymmetric(m: Measure, v0: Vec3, v1: Vec3, v2: Vec3, v3: Vec3)
    ensures DihedralAngle(m, v0, v1, v2, v3) == DihedralAngle(m, v1, v0, v3, v2)
  {
    DotSymmetric(m.normalize(FaceNormal(v0, v1, v2)), m.normalize(FaceNormal(v1, v0, v3)));
  }

  lemma DotSymmetric(p: Vec3, q: Vec3)
    ensures Dot(p, q) == Dot(q, p)
  {
  }

  /** The first corner of the face that is not on the edge; corner number 0 if there is none. */
  function Opposite(f: Face, e: Edge): nat {
    if f.a != e.from && f.a != e.to then f.a
    else if f.b != e.from && f.b != e.to then f.b
    else if f.c != e.from && f.c != e.to then f.c
    else 0
  }

  /** Which face every directed edge belongs to: the last one that has it. */
  ghost function Owners(faces: seq<Face>): HalfEdgeMap {
    if faces == [] then map[]
    else
      var k, f := |faces| - 1, faces[|faces| - 1];
      Owners(faces[..k])[Edge(f.a, f.b) := k][Edge(f.b, f.c) := k][Edge(f.c, f.a) := k]
  }

  lemma {:induction false} OwnersAre(faces: seq<Face>, n: nat)
    requires FacesIn(faces, n)
    ensures forall e :: e in Owners(faces) ==>
      Owners(faces)[e] < |faces| && e in Sides(faces[Owners(faces)[e]]) && e.from < n && e.to < n
    ensures forall e :: e in Owners(faces) <==> e in AllSides(faces)
  {
    if faces != [] {
      OwnersAre(faces[..|faces| - 1], n);
      assert FaceIn(faces[|faces| - 1], n);
    }
  }

  method CollectOwners(faces: seq<Face>) returns (m: HalfEdgeMap)
    ensures m == Owners(faces)
  {
    m := map[];
    var i := 0;
    while i < |faces|
      invariant 0 <= i <= |faces| && m == Owners(faces[..i])
    {
      assert faces[..i + 1][..i] == faces[..i];
      var f := faces[i];
      m := m[Edge(f.a, f.b) := i];
      m := m[Edge(f.b, f.c) := i];
      m := m[Edge(f.c, f.a) := i];
      i := i + 1;
    }
    assert faces[..i] == faces;
  }

  /** The map leads to faces, and its edges and their corners to vertices. */
  ghost predicate Legal(vs: seq<Vec3>, faces: seq<Face>, owners: HalfEdgeMap) {
    && |vs| > 0 && FacesIn(faces, |vs|)
    && forall e :: e in owners ==> owners[e] < |faces| && e.from < |vs| && e.to < |vs|
  }

  /** The angle between the faces on the two sides of an edge. */
  function AngleAt(vs: seq<Vec3>, faces: seq<Face>, owners: HalfEdgeMap, m: Measure, e: Edge): real
    requires Legal(vs, faces, owners) && e in owners && Reverse(e) in owners
  {
    OppositeIn(faces[owners[e]], e, |vs|);
    OppositeIn(faces[owners[Reverse(e)]], e, |vs|);
    DihedralAngle(m, vs[e.from], vs[e.to], vs[Opposite(faces[owners[e]], e)],
                  vs[Opposite(faces[owners[Reverse(e)]], e)])
  }

  lemma OppositeIn(f: Face, e: Edge, n: nat)
    requires FaceIn(f, n) && n > 0
    ensures Opposite(f, e) < n
  {
  }

  lemma AngleAtSymmetric(vs: seq<Vec3>, faces: seq<Face>, owners: HalfEdgeMap, m: Measure, e: Edge)
    requires Legal(vs, faces, owners) && e in owners && Reverse(e) in owners
    ensures AngleAt(vs, faces, owners, m, Reverse(e)) == AngleAt(vs, faces, owners, m, e)
  {
    var r := Reverse(e);
    assert Reverse(r) == e;
    OppositeIn(faces[owners[e]], e, |vs|);
    OppositeIn(faces[owners[r]], e, |vs|);
    AngleSymmetric(m, vs[e.from], vs[e.to], vs[Opposite(faces[owners[e]], e)], vs[Opposite(faces[owners[r]], e)]);
  }

  /** What is decided from one half of an edge: it has no other half, or the surface bends there. */
  predicate Sharp(vs: seq<Vec3>, faces: seq<Face>, owners: HalfEdgeMap, m: Measure, threshold: real, e: Edge)
    requires Legal(vs, faces, owners) && e in owners
  {
    Reverse(e) in owners ==> AngleAt(vs, faces, owners, m, e) > threshold
  }

  /** The undirected edge is on the mesh, and is a border edge or bends by more than the threshold. */
  ghost predicate IsFeature(vs: seq<Vec3>, faces: seq<Face>, owners: HalfEdgeMap, m: Measure, threshold: real,
                            k: EdgeKey)
    requires Legal(vs, faces, owners)
  {
    var e, r := Edge(k.v0, k.v1), Edge(k.v1, k.v0);
    && k.v0 <= k.v1 && (e in owners || r in owners)
    && (e !in owners || r !in owners || AngleAt(vs, faces, owners, m, e) > threshold)
  }

  /** Either half of an edge decides the same: the edge is a feature or it is not. */
  lemma HalvesAgree(vs: seq<Vec3>, faces: seq<Face>, owners: HalfEdgeMap, m: Measure, threshold: real, e: Edge)
    requires Legal(vs, faces, owners) && e in owners
    ensures Sharp(vs, faces, owners, m, threshold, e) <==> IsFeature(vs, faces, owners, m, threshold, Key(e.from, e.to))
  {
    assert Reverse(e) == Edge(e.to, e.from) && e == Edge(e.from, e.to);
    if Reverse(e) in owners {
      AngleAtSymmetric(vs, faces, owners, m, e);
    }
  }

  /** The loop over the half-edge map, in whatever order it is run through. */
  method CollectFeatures(vs: seq<Vec3>, faces: seq<Face>, owners: HalfEdgeMap, order: seq<Edge>, m: Measure,
                         threshold: real)
    returns (features: set<EdgeKey>)
    requires Legal(vs, faces, owners) && Enumerates(order, owners.Keys)
    ensures forall k :: k in features <==> IsFeature(vs, faces, owners, m, threshold, k)
  {
    features := {};
    var i := 0;
    while i < |order|
      invariant 0 <= i <= |order|
      invariant forall k :: k in features ==> IsFeature(vs, faces, owners, m, threshold, k)
      invariant forall j :: 0 <= j < i && IsFeature(vs, faces, owners, m, threshold, Key(order[j].from, order[j].to))
                            ==> Key(order[j].from, order[j].to) in features
    {
      var e := order[i];
      assert e in owners.Keys;
      HalvesAgree(vs, faces, owners, m, threshold, e);
      if Sharp(vs, faces, owners, m, threshold, e) {
        features := features + {Key(e.from, e.to)};
      }
      i := i + 1;
    }
    forall k | IsFeature(vs, faces, owners, m, threshold, k)
      ensures k in features
    {
      var e := if Edge(k.v0, k.v1) in owners then Edge(k.v0, k.v1) else Edge(k.v1, k.v0);
      assert e in order;
      var j :| 0 <= j < |order| && order[j] == e;
      assert Key(e.from, e.to) == k;
    }
  }

  /**
   * extract_feature_edges: exactly the border edges and the edges that bend by more than the
   * threshold, each once, whatever the order of the hash map. An invalid mesh has none.
   */
  method ExtractFeatureEdges(mesh: Mesh, valid: bool, threshold: real, m: Measure,
                             listEdges: set<Edge> -> seq<Edge>, listKeys: set<EdgeKey> -> seq<EdgeKey>)
    returns (result: seq<EdgeKey>)
    requires valid ==> |mesh.vertices| > 0 && FacesIn(mesh.faces, |mesh.vertices|)
    requires forall s :: Enumerates(listEdges(s), s)
    requires forall s :: Enumerates(listKeys(s), s)
    ensures !valid ==> result == []
    ensures valid ==> Distinct(result) && Legal(mesh.vertices, mesh.faces, Owners(mesh.faces))
    ensures valid ==> forall k :: k in result <==>
      IsFeature(mesh.vertices, mesh.faces, Owners(mesh.faces), m, threshold, k)
  {
    if !valid {
      return [];
    }
    var owners := CollectOwners(mesh.faces);
    OwnersAre(mesh.faces, |mesh.vertices|);
    var features := CollectFeatures(mesh.vertices, mesh.faces, owners, listEdges(owners.Keys), m, threshold);
    result := listKeys(features);
  }

  /** On the border of a consistently wound mesh every edge is a feature, at whatever threshold. */
  lemma BorderIsFeature(vs: seq<Vec3>, faces: seq<Face>, m: Measure, threshold: real, e: Edge)
    requires |vs| > 0 && FacesIn(faces, |vs|) && e in Border(AllSides(faces))
    ensures Legal(vs, faces, Owners(faces)) && IsFeature(vs, faces, Owners(faces), m, threshold, Key(e.from, e.to))
  {
    OwnersAre(faces, |vs|);
    assert e in Owners(faces) && Reverse(e) !in Owners(faces);
    HalvesAgree(vs, faces, Owners(faces), m, threshold, e);
  }
}
