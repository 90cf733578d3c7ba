/** collapse_short_edges: merges the vertices that short face edges connect. */
module Collapse {
  import opened Distinctness
  import opened Meshes
  import opened Remap
  import opened UnionFind

  // The value of a remap entry that is not set yet; vertex numbers have 32 bits and stay below it.
  const UNSET: nat := 0xFFFF_FFFF

  predicate Near(p: Vec3, q: Vec3, t2: real) {
    var dx, dy, dz := p.x - q.x, p.y - q.y, p.z - q.z;
    dx * dx + dy * dy + dz * dz < t2
  }

  /** Which pairs of vertices are closer than the threshold. */
  ghost function Closer(vs: seq<Vec3>, t2: real): (nat, nat) -> bool {
    (a: nat, b: nat) => a < |vs| && b < |vs| && Near(vs[a], vs[b], t2)
  }

  /** Edge a-b if it is short. */
  ghost function IfShort(short: (nat, nat) -> bool, a: nat, b: nat): seq<Edge> {
    if short(a, b) then [Edge(a, b)] else []
  }

  /** The short edges of one face. */
  ghost function ShortOn(short: (nat, nat) -> bool, f: Face): seq<Edge> {
    IfShort(short, f.a, f.b) + IfShort(short, f.b, f.c) + IfShort(short, f.c, f.a)
  }

  /** The short face edges. */
  ghost function ShortEdges(short: (nat, nat) -> bool, faces: seq<Face>): seq<Edge> {
    if faces == [] then [] else ShortEdges(short, faces[..|faces| - 1]) + ShortOn(short, faces[|faces| - 1])
  }

  predicate RunsAlong(f: Face, e: Edge) {
    e == Edge(f.a, f.b) || e == Edge(f.b, f.c) || e == Edge(f.c, f.a)
  }

  lemma ShortOnAre(short: (nat, nat) -> bool, f: Face, e: Edge)
    ensures e in ShortOn(short, f) <==> short(e.from, e.to) && RunsAlong(f, e)
  {
  }

  /** Some face has e among its directed edges. */
  ghost predicate OnSomeFace(faces: seq<Face>, e: Edge) {
    exists i :: 0 <= i < |faces| && RunsAlong(faces[i], e)
  }

  lemma OnLastFace(faces: seq<Face>, e: Edge)
    requires faces != []
    ensures OnSomeFace(faces, e) <==> OnSomeFace(faces[..|faces| - 1], e) || RunsAlong(faces[|faces| - 1], e)
  {
    var front := faces[..|faces| - 1];
    if i :| 0 <= i < |front| && RunsAlong(front[i], e) {
      assert faces[i] == front[i];
    }
    if i :| 0 <= i < |faces| - 1 && RunsAlong(faces[i], e) {
      assert faces[i] == front[i];
    }
  }

  /** The short edges are exactly the face edges that are short. */
  lemma {:induction false} ShortEdgesAre(short: (nat, nat) -> bool, faces: seq<Face>, e: Edge)
    ensures e in ShortEdges(short, faces) <==> short(e.from, e.to) && OnSomeFace(faces, e)
  {
    if faces != [] {
      ShortEdgesAre(short, faces[..|faces| - 1], e);
      OnLastFace(faces, e);
      ShortOnAre(short, faces[|faces| - 1], e);
    }
  }

  lemma {:induction false} ShortEdgesIn(short: (nat, nat) -> bool, faces: seq<Face>, n: nat)
    requires FacesIn(faces, n)
    ensures EdgesBelow(ShortEdges(short, faces), n)
  {
    forall i | 0 <= i < |ShortEdges(short, faces)|
      ensures ShortEdges(short, faces)[i].from < n && ShortEdges(short, faces)[i].to < n
    {
      var e := ShortEdges(short, faces)[i];
      ShortEdgesAre(short, faces, e);
      var k :| 0 <= k < |faces| && RunsAlong(faces[k], e);
      assert FaceIn(faces[k], n);
    }
  }

  /** The forest stands for the classes that the given edges connect. */
  ghost predicate Stands(parent: array<nat>, es: seq<Edge>)
    reads parent
  {
    Forest(parent[..]) && EdgesBelow(es, parent.Length) && Roots(parent[..]) == Labels(parent.Length, es)
  }

  /** Joins the ends of edge a-b if it is short. */
  method UniteIfShort(parent: array<nat>, vs: seq<Vec3>, t2: real, a: nat, b: nat, ghost es: seq<Edge>)
    requires parent.Length == |vs| && a < |vs| && b < |vs| && Stands(parent, es)
    modifies parent
    ensures Stands(parent, es + IfShort(Closer(vs, t2), a, b))
  {
    if Near(vs[a], vs[b], t2) {
      Unite(parent, a, b);
      assert (es + [Edge(a, b)])[..|es|] == es;
    } else {
      assert es + [] == es;
    }
  }

  lemma Regroup(es: seq<Edge>, a: seq<Edge>, b: seq<Edge>, c: seq<Edge>)
    ensures es + a + b + c == es + (a + b + c)
  {
  }

  /** The loop over the three edges of a face. */
  method UniteFace(parent: array<nat>, vs: seq<Vec3>, t2: real, f: Face, ghost es: seq<Edge>)
    requires parent.Length == |vs| && FaceIn(f, |vs|) && Stands(parent, es)
    modifies parent
    ensures Stands(parent, es + ShortOn(Closer(vs, t2), f))
  {
    ghost var short := Closer(vs, t2);
    UniteIfShort(parent, vs, t2, f.a, f.b, es);
    UniteIfShort(parent, vs, t2, f.b, f.c, es + IfShort(short, f.a, f.b));
    UniteIfShort(parent, vs, t2, f.c, f.a, es + IfShort(short, f.a, f.b) + IfShort(short, f.b, f.c));
    Regroup(es, IfShort(short, f.a, f.b), IfShort(short, f.b, f.c), IfShort(short, f.c, f.a));
  }

  /** The loop over the faces that joins the ends of all short edges. */
  method UniteShortEdges(parent: array<nat>, vs: seq<Vec3>, faces: seq<Face>, t2: real)
    requires parent.Length == |vs| && FacesIn(faces, |vs|)
    requires forall x :: 0 <= x < |vs| ==> parent[x] == x
    modifies parent
    ensures Stands(parent, ShortEdges(Closer(vs, t2), faces))
  {
    ghost var short := Closer(vs, t2);
    assert Roots(parent[..]) == Labels(|vs|, []);
    var i := 0;
    while i < |faces|
      invariant 0 <= i <= |faces| && Stands(parent, ShortEdges(short, faces[..i]))
    {
      assert faces[..i + 1][..i] == faces[..i];
      assert FaceIn(faces[i], |vs|);
      UniteFace(parent, vs, t2, faces[i], ShortEdges(short, faces[..i]));
      i := i + 1;
    }
    assert faces[..i] == faces;
  }

  /** A labelling whose labels label themselves and are the least of their class. */
  ghost predicate Labelling(l: seq<nat>) {
    forall x :: 0 <= x < |l| ==> l[x] <= x && l[l[x]] == l[x]
  }

  /** The number of labels below k. */
  ghost function Rank(l: seq<nat>, k: nat): (r: nat)
    requires k <= |l|
    ensures r <= k
  {
    if k == 0 then 0 else Rank(l, k - 1) + if l[k - 1] == k - 1 then 1 else 0
  }

  /** The vertices that are kept: one for each label, in order. */
  ghost function Kept(vs: seq<Vec3>, l: seq<nat>, k: nat): (r: seq<Vec3>)
    requires k <= |l| == |vs|
    ensures |r| == Rank(l, k)
  {
    if k == 0 then [] else Kept(vs, l, k - 1) + if l[k - 1] == k - 1 then [vs[k - 1]] else []
  }

  /** The new number of every vertex: the rank of its label. */
  ghost function Renumbering(l: seq<nat>): (r: seq<nat>)
    requires Labelling(l)
    ensures |r| == |l|
  {
    seq(|l|, x requires 0 <= x < |l| => Rank(l, l[x]))
  }

  lemma {:induction false} RankGrows(l: seq<nat>, i: nat, j: nat)
    requires i <= j <= |l|
    ensures Rank(l, i) <= Rank(l, j)
    ensures i < j && l[i] == i ==> Rank(l, i) < Rank(l, j)
    decreases j - i
  {
    if i < j {
      RankGrows(l, i, j - 1);
    }
  }

  lemma {:induction false} KeptAt(vs: seq<Vec3>, l: seq<nat>, k: nat, x: nat)
    requires k <= |l| == |vs| && x < k && l[x] == x
    ensures Rank(l, x) < Rank(l, k) && Kept(vs, l, k)[Rank(l, x)] == vs[x]
  {
    RankGrows(l, x, k);
    if x < k - 1 {
      KeptAt(vs, l, k - 1, x);
    }
  }

  /** The vertex of rank q. */
  lemma {:induction false} RankOnto(l: seq<nat>, k: nat, q: nat) returns (x: nat)
    requires k <= |l| && q < Rank(l, k)
    ensures x < k && l[x] == x && Rank(l, x) == q
  {
    if q < Rank(l, k - 1) {
      x := RankOnto(l, k - 1, q);
    } else {
      x := k - 1;
    }
  }

  /**
   * The renumbering is a quotient map: two vertices get one number exactly when they carry one
   * label, and the number of a vertex names its label's position.
   */
  lemma Quotient(vs: seq<Vec3>, l: seq<nat>, x: nat, y: nat)
    requires Labelling(l) && |l| == |vs| && x < |l| && y < |l|
    ensures Renumbering(l)[x] == Renumbering(l)[y] <==> l[x] == l[y]
    ensures Renumbering(l)[x] < Rank(l, |l|) && Kept(vs, l, |l|)[Renumbering(l)[x]] == vs[l[x]]
  {
    KeptAt(vs, l, |l|, l[x]);
    if l[x] < l[y] {
      RankGrows(l, l[x], l[y]);
    } else if l[y] < l[x] {
      RankGrows(l, l[y], l[x]);
    }
  }

  /** Every number below the number of kept vertices is the number of some label. */
  lemma QuotientOnto(l: seq<nat>, q: nat)
    requires Labelling(l) && q < Rank(l, |l|)
    ensures q in Renumbering(l)
  {
    var z := RankOnto(l, |l|, q);
    assert Renumbering(l)[z] == q;
  }

  /** The forest with the labelling l. */
  ghost predicate Labelled(parent: array<nat>, l: seq<nat>)
    reads parent
  {
    Forest(parent[..]) && Roots(parent[..]) == l && Labelling(l)
  }

  /** The first i vertices are numbered. */
  ghost predicate Numbered(remap: array<nat>, l: seq<nat>, i: nat)
    requires Labelling(l)
    reads remap
  {
    remap.Length == |l| && forall j :: 0 <= j < |l| ==> remap[j] == if j < i then Rank(l, l[j]) else UNSET
  }

  lemma AllNumbered(remap: array<nat>, l: seq<nat>)
    requires Labelling(l) && Numbered(remap, l, |l|)
    ensures remap[..] == Renumbering(l)
  {
  }

  /** One turn of the numbering loop. */
  method NumberVertex(parent: array<nat>, remap: array<nat>, vs: seq<Vec3>, newVerts: seq<Vec3>, i: nat,
                      ghost l: seq<nat>)
    returns (newVerts': seq<Vec3>)
    requires parent != remap && parent.Length == |vs| == |l| <= UNSET && i < |vs|
    requires Labelled(parent, l) && Numbered(remap, l, i) && newVerts == Kept(vs, l, i)
    modifies parent, remap
    ensures Labelled(parent, l) && Numbered(remap, l, i + 1) && newVerts' == Kept(vs, l, i + 1)
  {
    newVerts' := newVerts;
    var root := Find(parent, i);
    assert root == l[i] <= i;
    RankGrows(l, root, i);
    assert remap[root] == UNSET <==> root == i;
    if remap[root] == UNSET {
      remap[root] := |newVerts|;
      newVerts' := newVerts + [vs[root]];
    }
    remap[i] := remap[root];
    assert forall j :: 0 <= j < |l| && j != i ==> remap[j] == if j < i then Rank(l, l[j]) else UNSET;
  }

  method Unnumbered(n: nat, ghost l: seq<nat>) returns (remap: array<nat>)
    requires n == |l| && Labelling(l)
    ensures fresh(remap) && Numbered(remap, l, 0)
  {
    remap := new nat[n](_ => UNSET);
  }

  /** The numbering loop: a new number for every vertex, and the vertices that are kept. */
  method NumberVertices(parent: array<nat>, vs: seq<Vec3>, ghost l: seq<nat>)
    returns (remap: array<nat>, newVerts: seq<Vec3>)
    requires parent.Length == |vs| == |l| <= UNSET && Labelled(parent, l)
    modifies parent
    ensures fresh(remap) && remap[..] == Renumbering(l) && newVerts == Kept(vs, l, |vs|)
  {
    remap := Unnumbered(|vs|, l);
    newVerts := [];
    var i := 0;
    while i < |vs|
      invariant 0 <= i <= |vs| && Labelled(parent, l) && Numbered(remap, l, i) && newVerts == Kept(vs, l, i)
    {
      newVerts := NumberVertex(parent, remap, vs, newVerts, i, l);
      i := i + 1;
    }
    AllNumbered(remap, l);
  }

  ghost predicate Degenerate(f: Face) {
    f.a == f.b || f.b == f.c || f.a == f.c
  }

  /** The images of the faces, without the degenerate ones. */
  ghost function Surviving(faces: seq<Face>, remap: seq<nat>): seq<Face>
    requires FacesIn(faces, |remap|)
  {
    if faces == [] then []
    else
      var f := MapFace(faces[|faces| - 1], remap);
      Surviving(faces[..|faces| - 1], remap) + if Degenerate(f) then [] else [f]
  }

  lemma {:induction false} SurvivingIn(faces: seq<Face>, remap: seq<nat>, n: nat)
    requires FacesIn(faces, |remap|) && Below(remap, n)
    ensures FacesIn(Surviving(faces, remap), n)
  {
    if faces != [] {
      SurvivingIn(faces[..|faces| - 1], remap, n);
      assert FaceIn(faces[|faces| - 1], |remap|);
    }
  }

  /** A surviving face is the image of a face whose corners stay apart. */
  lemma {:induction false} SurvivingAre(faces: seq<Face>, remap: seq<nat>, g: Face)
    requires FacesIn(faces, |remap|)
    ensures g in Surviving(faces, remap) <==> !Degenerate(g) && g in MapFaces(faces, remap)
  {
    if faces != [] {
      var front := faces[..|faces| - 1];
      SurvivingAre(front, remap, g);
      assert MapFaces(faces, remap) == MapFaces(front, remap) + [MapFace(faces[|faces| - 1], remap)];
    }
  }

  /** The loop that maps the faces and drops the degenerate ones. */
  method SurvivingFaces(faces: seq<Face>, remap: array<nat>) returns (newFaces: seq<Face>)
    requires FacesIn(faces, remap.Length)
    ensures newFaces == Surviving(faces, remap[..])
  {
    newFaces := [];
    var i := 0;
    while i < |faces|
      invariant 0 <= i <= |faces| && newFaces == Surviving(faces[..i], remap[..])
    {
      assert faces[..i + 1][..i] == faces[..i];
      assert FaceIn(faces[i], remap.Length);
      var a, b, c := remap[faces[i].a], remap[faces[i].b], remap[faces[i].c];
      if a != b && b != c && a != c {
        newFaces := newFaces + [Face(a, b, c)];
      }
      i := i + 1;
    }
    assert faces[..i] == faces;
  }

  /** The labelling of a mesh: every vertex carries the least vertex that short edges connect it to. */
  ghost function Clusters(vs: seq<Vec3>, faces: seq<Face>, threshold: real): (l: seq<nat>)
    requires FacesIn(faces, |vs|)
    ensures |l| == |vs| && Labelling(l)
  {
    var es := ShortEdges(Closer(vs, threshold * threshold), faces);
    ShortEdgesIn(Closer(vs, threshold * threshold), faces, |vs|);
    LabelsLabel(|vs|, es);
    Labels(|vs|, es)
  }

  lemma LabelsLabel(n: nat, es: seq<Edge>)
    requires EdgesBelow(es, n)
    ensures Labelling(Labels(n, es))
  {
    forall x | 0 <= x < n
      ensures Labels(n, es)[x] <= x && Labels(n, es)[Labels(n, es)[x]] == Labels(n, es)[x]
    {
      ConnectedSelf(es, x);
      LabelsAreClasses(n, es, x, x);
    }
  }

  /** Two vertices are merged exactly when short face edges connect them, into the least such vertex. */
  lemma ClustersAre(vs: seq<Vec3>, faces: seq<Face>, threshold: real, x: nat, y: nat)
    requires FacesIn(faces, |vs|) && x < |vs| && y < |vs|
    ensures var es := ShortEdges(Closer(vs, threshold * threshold), faces);
            var l := Clusters(vs, faces, threshold);
            && (l[x] == l[y] <==> Connected(es, x, y))
            && (Connected(es, x, y) ==> l[x] <= y)
  {
    var es := ShortEdges(Closer(vs, threshold * threshold), faces);
    ShortEdgesIn(Closer(vs, threshold * threshold), faces, |vs|);
    LabelsAreClasses(|vs|, es, x, y);
  }

  lemma RenumberingBelow(l: seq<nat>)
    requires Labelling(l)
    ensures Below(Renumbering(l), Rank(l, |l|))
    ensures Rank(l, |l|) <= |l|
  {
    forall x | 0 <= x < |l|
      ensures Rank(l, l[x]) < Rank(l, |l|)
    {
      RankGrows(l, l[x], |l|);
    }
  }

  /** The second half of collapse_short_edges: vertices, faces and edges are replaced. */
  method Replace(mesh: Mesh, remap: array<nat>, newVerts: seq<Vec3>, ghost l: seq<nat>)
    requires mesh.InRange() && Labelling(l) && |l| == |mesh.vertices|
    requires remap[..] == Renumbering(l) && newVerts == Kept(mesh.vertices, l, |l|)
    modifies mesh
    ensures mesh.InRange() && mesh.vertices == newVerts
    ensures FacesIn(Surviving(old(mesh.faces), Renumbering(l)), |l|)
    ensures mesh.faces == MapFaces(Surviving(old(mesh.faces), Renumbering(l)), Renumbering(l))
    ensures mesh.faces == Surviving(old(mesh.faces), Renumbering(l)) <==> FacesSettled(l, old(mesh.faces))
    ensures mesh.edges == MapEdges(old(mesh.edges), Renumbering(l))
  {
    SecondRenumbering(l, mesh.faces);
    RenumberingBelow(l);
    var n := |newVerts|;
    SurvivingIn(mesh.faces, remap[..], n);
    MapEdgesIn(mesh.edges, remap[..], n);
    mesh.vertices := newVerts;
    mesh.faces := SurvivingFaces(mesh.faces, remap);
    MapFacesIn(mesh.faces, remap[..], n);
    RemapMeshIndices(mesh, remap);
  }

  /**
   * collapse_short_edges. The vertices become one for each cluster, and the edges are renumbered.
   * The faces are renumbered, cleared of degenerate ones, and then renumbered once more, which
   * leaves them as they should be exactly when the corners of all surviving faces are settled.
   */
  method CollapseShortEdges(mesh: Mesh, threshold: real)
    requires mesh.InRange() && |mesh.vertices| <= UNSET
    modifies mesh
    ensures mesh.InRange()
    ensures var l := old(Clusters(mesh.vertices, mesh.faces, threshold));
            if old(mesh.faces) == [] || Rank(l, |l|) == |l|
            then mesh.vertices == old(mesh.vertices) && mesh.faces == old(mesh.faces) && mesh.edges == old(mesh.edges)
            else
              && mesh.vertices == Kept(old(mesh.vertices), l, |l|)
              && FacesIn(Surviving(old(mesh.faces), Renumbering(l)), |l|)
              && mesh.faces == MapFaces(Surviving(old(mesh.faces), Renumbering(l)), Renumbering(l))
              && (mesh.faces == Surviving(old(mesh.faces), Renumbering(l)) <==> FacesSettled(l, old(mesh.faces)))
              && mesh.edges == MapEdges(old(mesh.edges), Renumbering(l))
  {
    if |mesh.faces| == 0 {
      return;
    }
    var n := |mesh.vertices|;
    var parent := new nat[n](i => i);
    ghost var l := Clusters(mesh.vertices, mesh.faces, threshold);
    UniteShortEdges(parent, mesh.vertices, mesh.faces, threshold * threshold);
    var remap, newVerts := NumberVertices(parent, mesh.vertices, l);
    if |newVerts| == n {
      return;
    }
    Replace(mesh, remap, newVerts, l);
  }

  // --- The faces are renumbered twice ---

  /** Every vertex below k is a label: nothing is merged away before it. */
  ghost predicate NoGapBelow(l: seq<nat>, k: nat)
    requires k <= |l|
  {
    forall j :: 0 <= j < k ==> l[j] == j
  }

  lemma {:induction false} RankFull(l: seq<nat>, k: nat)
    requires k <= |l|
    ensures Rank(l, k) == k <==> NoGapBelow(l, k)
  {
    if k > 0 {
      RankFull(l, k - 1);
    }
  }

  /** Renumbering leaves the number of x alone exactly when nothing is merged away below x's label. */
  lemma FixedNumber(l: seq<nat>, x: nat)
    requires Labelling(l) && x < |l|
    ensures Renumbering(l)[x] < |l|
    ensures Renumbering(l)[Renumbering(l)[x]] == Renumbering(l)[x] <==> NoGapBelow(l, l[x])
  {
    var r := l[x];
    var k := Rank(l, r);
    RankFull(l, r);
    RankFull(l, k);
    if Rank(l, l[k]) == k {
      assert Rank(l, l[k]) <= l[k] <= k;
      assert l[k] == k;
      if k < r {
        RankGrows(l, k, r);
      }
    }
  }

  ghost predicate CornersSettled(l: seq<nat>, f: Face)
    requires Labelling(l) && FaceIn(f, |l|)
  {
    NoGapBelow(l, l[f.a]) && NoGapBelow(l, l[f.b]) && NoGapBelow(l, l[f.c])
  }

  /** The labels of the three corners differ. */
  ghost predicate StaysApart(l: seq<nat>, f: Face)
    requires FaceIn(f, |l|)
  {
    l[f.a] != l[f.b] && l[f.b] != l[f.c] && l[f.a] != l[f.c]
  }

  lemma MappedStaysApart(l: seq<nat>, f: Face)
    requires Labelling(l) && FaceIn(f, |l|)
    ensures !Degenerate(MapFace(f, Renumbering(l))) <==> StaysApart(l, f)
  {
    RenumberingOneToOne(l, f.a, f.b);
    RenumberingOneToOne(l, f.b, f.c);
    RenumberingOneToOne(l, f.a, f.c);
  }

  lemma RenumberingOneToOne(l: seq<nat>, x: nat, y: nat)
    requires Labelling(l) && x < |l| && y < |l|
    ensures Renumbering(l)[x] == Renumbering(l)[y] <==> l[x] == l[y]
  {
    if l[x] < l[y] {
      RankGrows(l, l[x], l[y]);
    } else if l[y] < l[x] {
      RankGrows(l, l[y], l[x]);
    }
  }

  /** The corners of every face that survives are settled. */
  ghost predicate FacesSettled(l: seq<nat>, faces: seq<Face>)
    requires Labelling(l) && FacesIn(faces, |l|)
  {
    forall i :: 0 <= i < |faces| && StaysApart(l, faces[i]) ==> CornersSettled(l, faces[i])
  }

  /**
   * Renumbering the surviving faces once more is harmless exactly when no vertex below the label
   * of a corner of a surviving face is merged away.
   */
  lemma SecondRenumbering(l: seq<nat>, faces: seq<Face>)
    requires Labelling(l) && FacesIn(faces, |l|)
    ensures FacesIn(Surviving(faces, Renumbering(l)), |l|)
    ensures MapFaces(Surviving(faces, Renumbering(l)), Renumbering(l)) == Surviving(faces, Renumbering(l))
            <==> FacesSettled(l, faces)
  {
    var rm := Renumbering(l);
    RenumberingBelow(l);
    SurvivingIn(faces, rm, |l|);
    var kept := Surviving(faces, rm);
    if FacesSettled(l, faces) {
      forall i | 0 <= i < |kept|
        ensures MapFace(kept[i], rm) == kept[i]
      {
        var j := Origin(l, faces, kept[i]);
        FixedFace(l, faces[j]);
      }
      assert MapFaces(kept, rm) == kept;
    }
    if MapFaces(kept, rm) == kept {
      forall j | 0 <= j < |faces| && StaysApart(l, faces[j])
        ensures CornersSettled(l, faces[j])
      {
        var g := MapFace(faces[j], rm);
        MappedStaysApart(l, faces[j]);
        assert MapFaces(faces, rm)[j] == g;
        SurvivingAre(faces, rm, g);
        var i :| 0 <= i < |kept| && kept[i] == g;
        assert MapFaces(kept, rm)[i] == MapFace(g, rm);
        FixedFace(l, faces[j]);
      }
    }
  }

  /** The face that a surviving face comes from. */
  lemma Origin(l: seq<nat>, faces: seq<Face>, g: Face) returns (j: nat)
    requires Labelling(l) && FacesIn(faces, |l|) && g in Surviving(faces, Renumbering(l))
    ensures j < |faces| && MapFace(faces[j], Renumbering(l)) == g && StaysApart(l, faces[j])
  {
    SurvivingAre(faces, Renumbering(l), g);
    j :| 0 <= j < |faces| && MapFaces(faces, Renumbering(l))[j] == g;
    MappedStaysApart(l, faces[j]);
  }

  lemma FixedFace(l: seq<nat>, f: Face)
    requires Labelling(l) && FaceIn(f, |l|)
    ensures FaceIn(MapFace(f, Renumbering(l)), |l|)
    ensures MapFace(MapFace(f, Renumbering(l)), Renumbering(l)) == MapFace(f, Renumbering(l)) <==> CornersSettled(l, f)
  {
    FixedNumber(l, f.a);
    FixedNumber(l, f.b);
    FixedNumber(l, f.c);
  }

  function Tetrahedron(): seq<Face> {
    [Face(0, 1, 2), Face(0, 3, 1), Face(0, 2, 3), Face(1, 3, 2)]
  }

  lemma TetrahedronPrefixes()
    ensures Tetrahedron()[..3] == [Face(0, 1, 2), Face(0, 3, 1), Face(0, 2, 3)]
    ensures Tetrahedron()[..3][..2] == [Face(0, 1, 2), Face(0, 3, 1)]
    ensures Tetrahedron()[..3][..2][..1] == [Face(0, 1, 2)]
    ensures Tetrahedron()[..3][..2][..1][..0] == []
  {
  }

  lemma TetrahedronShort(short: (nat, nat) -> bool)
    requires OnlyFirstEdge(short)
    ensures ShortEdges(short, Tetrahedron()) == [Edge(0, 1), Edge(1, 0)]
  {
    TetrahedronPrefixes();
    assert ShortOn(short, Face(0, 1, 2)) == [Edge(0, 1)];
    assert ShortOn(short, Face(0, 3, 1)) == [Edge(1, 0)];
    assert ShortOn(short, Face(0, 2, 3)) == [];
    assert ShortOn(short, Face(1, 3, 2)) == [];
    assert ShortEdges(short, Tetrahedron()[..3][..2][..1]) == [Edge(0, 1)];
    assert ShortEdges(short, Tetrahedron()[..3][..2]) == [Edge(0, 1), Edge(1, 0)];
    assert ShortEdges(short, Tetrahedron()[..3]) == [Edge(0, 1), Edge(1, 0)];
  }

  lemma TetrahedronLabels()
    ensures Labels(4, [Edge(0, 1), Edge(1, 0)]) == [0, 0, 2, 3]
  {
    var es := [Edge(0, 1), Edge(1, 0)];
    assert es[..1] == [Edge(0, 1)] && es[..1][..0] == [];
    assert Labels(4, []) == [0, 1, 2, 3];
    assert Labels(4, es[..1]) == [0, 0, 2, 3];
  }

  lemma TetrahedronNumbers()
    ensures Labelling([0, 0, 2, 3]) && Renumbering([0, 0, 2, 3]) == [0, 0, 1, 2]
  {
    var l: seq<nat> := [0, 0, 2, 3];
    assert Rank(l, 1) == 1 && Rank(l, 2) == 1 && Rank(l, 3) == 2;
  }

  lemma TetrahedronFaces()
    ensures Surviving(Tetrahedron(), [0, 0, 1, 2]) == [Face(0, 1, 2), Face(0, 2, 1)]
  {
    var rm: seq<nat> := [0, 0, 1, 2];
    TetrahedronPrefixes();
    assert Surviving(Tetrahedron()[..3][..2][..1], rm) == [];
    assert Surviving(Tetrahedron()[..3][..2], rm) == [];
    assert Surviving(Tetrahedron()[..3], rm) == [Face(0, 1, 2)];
  }

  function TetrahedronCorners(): seq<Vec3> {
    [Vec3(0.0, 0.0, 0.0), Vec3(0.01, 0.0, 0.0), Vec3(0.0, 0.0, 1.0), Vec3(0.0, 1.0, 0.0)]
  }

  ghost predicate OnlyFirstEdge(short: (nat, nat) -> bool) {
    forall a: nat, b: nat :: a < 4 && b < 4 && a != b ==> (short(a, b) <==> a + b == 1)
  }

  lemma TetrahedronDistances(vs: seq<Vec3>, a: nat, b: nat)
    requires vs == TetrahedronCorners() && a < 4 && b < 4 && a != b
    ensures Near(vs[a], vs[b], 0.0025) <==> a + b == 1
  {
    assert vs[0] == Vec3(0.0, 0.0, 0.0) && vs[1] == Vec3(0.01, 0.0, 0.0);
    assert vs[2] == Vec3(0.0, 0.0, 1.0) && vs[3] == Vec3(0.0, 1.0, 0.0);
  }

  lemma TetrahedronClusters()
    ensures FacesIn(Tetrahedron(), |TetrahedronCorners()|)
    ensures Clusters(TetrahedronCorners(), Tetrahedron(), 0.05) == [0, 0, 2, 3]
  {
    var short := Closer(TetrahedronCorners(), 0.05 * 0.05);
    forall a: nat, b: nat | a < 4 && b < 4 && a != b
      ensures short(a, b) <==> a + b == 1
    {
      TetrahedronDistances(TetrahedronCorners(), a, b);
    }
    TetrahedronShort(short);
    TetrahedronLabels();
  }

  /**
   * A tetrahedron whose first two corners are merged: two faces survive, as (0, 1, 2) and
   * (0, 2, 1), and the second renumbering makes both of them degenerate.
   */
  lemma TetrahedronBreaks()
    ensures FacesIn(Tetrahedron(), |TetrahedronCorners()|)
    ensures var rm := Renumbering(Clusters(TetrahedronCorners(), Tetrahedron(), 0.05));
            var kept := Surviving(Tetrahedron(), rm);
            && kept == [Face(0, 1, 2), Face(0, 2, 1)]
            && FacesIn(kept, |rm|)
            && MapFaces(kept, rm) == [Face(0, 0, 1), Face(0, 1, 0)]
  {
    TetrahedronClusters();
    TetrahedronNumbers();
    TetrahedronFaces();
  }
}
