/** finalize_result: what the four repair steps after a boolean operation make of a mesh. */
module Finalize {
  import opened Meshes
  import opened Orientation
  import opened Winding
  import opened Remap
  import opened Snap
  import opened Collapse
  import Retriangulation

  /** The contents of a mesh. */
  datatype Shape = Shape(vertices: seq<Vec3>, faces: seq<Face>, edges: seq<Edge>)

  ghost function ShapeOf(mesh: Mesh): Shape
    reads mesh
  {
    Shape(mesh.vertices, mesh.faces, mesh.edges)
  }

  ghost predicate InRange(a: Shape) {
    FacesIn(a.faces, |a.vertices|) && EdgesIn(a.edges, |a.vertices|)
  }

  /** Every vertex of a goes to a nearest input vertex or stays, and equal vertices become one. */
  ghost predicate Snaps(a: Shape, b: Shape, input: seq<Vec3>, tol: real) {
    exists snapped, renumbering :: SnapsBy(a, b, input, tol, snapped, renumbering)
  }

  ghost predicate SnapsBy(a: Shape, b: Shape, input: seq<Vec3>, tol: real, snapped: seq<Vec3>, renumbering: seq<nat>) {
    && |snapped| == |renumbering| == |a.vertices| && InRange(a)
    && (forall i :: 0 <= i < |snapped| ==> Snapped(input, a.vertices[i], tol, snapped[i]))
    && (b.vertices == Firsts(snapped) || (input == [] && b.vertices == snapped))
    && (forall i :: 0 <= i < |snapped| ==> renumbering[i] < |b.vertices| && b.vertices[renumbering[i]] == snapped[i])
    && b.faces == MapFaces(a.faces, renumbering)
    && b.edges == if |b.vertices| < |snapped| then MapEdges(a.edges, renumbering) else a.edges
  }

  /** The vertices of each cluster become one; faces are renumbered, cleared and renumbered again. */
  ghost predicate Collapses(a: Shape, b: Shape, threshold: real) {
    && InRange(a)
    && var l := Clusters(a.vertices, a.faces, threshold);
       if a.faces == [] || Rank(l, |l|) == |l| then b == a
       else
         && b.vertices == Kept(a.vertices, l, |l|)
         && FacesIn(Surviving(a.faces, Renumbering(l)), |l|)
         && b.faces == MapFaces(Surviving(a.faces, Renumbering(l)), Renumbering(l))
         && b.edges == MapEdges(a.edges, Renumbering(l))
  }

  /** Coplanar groups get new faces. */
  ghost predicate Retriangulates(a: Shape, b: Shape, tests: Retriangulation.Tests) {
    && b.vertices == a.vertices && b.edges == a.edges
    && exists removed, groups, patches ::
         Retriangulation.Retriangulated(a.vertices, a.faces, b.faces, tests, removed, groups, patches)
  }

  /** Faces are turned over so that they agree and the volume is not negative. */
  ghost predicate Rewinds(a: Shape, b: Shape) {
    && b.vertices == a.vertices && b.edges == a.edges && InRange(a) && InRange(b)
    && Reoriented(a.faces, b.faces) && (Consistent(b.faces) <==> Orientable(a.faces))
    && Volume(b.vertices, b.faces) >= 0.0
    && (Consistent(a.faces) && Volume(a.vertices, a.faces) >= 0.0 ==> b == a)
  }

  method SnapStep(mesh: Mesh, input: seq<Vec3>, tol: real, order: seq<nat>, hash: Vec3 -> int)
    requires mesh.InRange() && LeftToRight(order, input) && tol >= 0.0
    modifies mesh
    ensures mesh.InRange() && |mesh.vertices| <= |old(mesh.vertices)|
    ensures Snaps(old(ShapeOf(mesh)), ShapeOf(mesh), input, tol)
  {
    ghost var a := ShapeOf(mesh);
    ghost var snapped, renumbering := SnapToInputVertices(mesh, input, tol, order, hash);
    assert SnapsBy(a, ShapeOf(mesh), input, tol, snapped, renumbering);
  }

  method CollapseStep(mesh: Mesh, threshold: real)
    requires mesh.InRange() && |mesh.vertices| <= UNSET
    modifies mesh
    ensures mesh.InRange() && |mesh.vertices| <= |old(mesh.vertices)|
    ensures Collapses(old(ShapeOf(mesh)), ShapeOf(mesh), threshold)
  {
    CollapseShortEdges(mesh, threshold);
  }

  method RetriangulateStep(mesh: Mesh, tests: Retriangulation.Tests, orders: Retriangulation.Orders)
    requires mesh.InRange() && Retriangulation.InSomeOrder(orders)
    modifies mesh`faces
    ensures mesh.InRange() && Retriangulates(old(ShapeOf(mesh)), ShapeOf(mesh), tests)
  {
    ghost var removed, groups, patches := Retriangulation.RetriCoplanarPatches(mesh, tests, orders);
  }

  method RewindStep(mesh: Mesh)
    requires mesh.InRange()
    modifies mesh`faces
    ensures mesh.InRange() && Rewinds(old(ShapeOf(mesh)), ShapeOf(mesh))
  {
    ghost var taken := FixFaceWinding(mesh);
  }

  /**
   * finalize_result: snap, collapse, retriangulate and re-wind, in this order, each working on
   * what the one before has made.
   */
  method FinalizeResult(mesh: Mesh, input: seq<Vec3>, tol: real, order: seq<nat>, hash: Vec3 -> int,
                        tests: Retriangulation.Tests, orders: Retriangulation.Orders)
    returns (ghost snapped: Shape, ghost collapsed: Shape, ghost patched: Shape)
    requires mesh.InRange() && |mesh.vertices| <= UNSET && LeftToRight(order, input) && tol >= 0.0
    requires Retriangulation.InSomeOrder(orders)
    modifies mesh
    ensures Snaps(old(ShapeOf(mesh)), snapped, input, tol) && Collapses(snapped, collapsed, tol)
    ensures Retriangulates(collapsed, patched, tests) && Rewinds(patched, ShapeOf(mesh))
    ensures mesh.InRange() && |mesh.vertices| <= |old(mesh.vertices)| && Volume(mesh.vertices, mesh.faces) >= 0.0
    ensures Consistent(mesh.faces) <==> Orientable(mesh.faces)
  {
    SnapStep(mesh, input, tol, order, hash);
    snapped := ShapeOf(mesh);
    CollapseStep(mesh, tol);
    collapsed := ShapeOf(mesh);
    RetriangulateStep(mesh, tests, orders);
    patched := ShapeOf(mesh);
    RewindStep(mesh);
    RewoundAgrees(patched, ShapeOf(mesh));
  }

  /** After re-winding, a mesh that can be oriented at all is consistently wound. */
  lemma RewoundAgrees(a: Shape, b: Shape)
    requires Rewinds(a, b)
    ensures Consistent(b.faces) <==> Orientable(b.faces)
  {
    if Orientable(b.faces) {
      ReorientBack(a.faces, b.faces);
    }
    if Consistent(b.faces) {
      ConsistentOrientable(b.faces);
    }
  }

  lemma ConsistentOrientable(faces: seq<Face>)
    requires Consistent(faces)
    ensures Orientable(faces)
  {
    var none := seq(|faces|, _ => false);
    assert Orient(faces, none) == faces;
  }

  /** If the turned faces can be oriented, so can the faces they were turned from. */
  lemma ReorientBack(before: seq<Face>, after: seq<Face>)
    requires Reoriented(before, after) && Orientable(after)
    ensures Orientable(before)
  {
    var flips: seq<bool> :| |flips| == |before| && after == Orient(before, flips);
    var phi: seq<bool> :| |phi| == |after| && Consistent(Orient(after, phi));
    var both := seq(|before|, i requires 0 <= i < |before| => flips[i] != phi[i]);
    assert Orient(before, both) == Orient(after, phi);
  }
}
