/** Renumbering the vertices of a mesh. */
module Remap {
  import opened Distinctness
  import opened Meshes

  ghost function MapFace(f: Face, remap: seq<nat>): Face
    requires FaceIn(f, |remap|)
  {
    Face(remap[f.a], remap[f.b], remap[f.c])
  }

  ghost function MapFaces(faces: seq<Face>, remap: seq<nat>): (r: seq<Face>)
    requires FacesIn(faces, |remap|)
    ensures |r| == |faces|
  {
    seq(|faces|, i requires 0 <= i < |faces| => MapFace(faces[i], remap))
  }

  /** The images of the edges, without those whose ends fall together. */
  ghost function MapEdges(edges: seq<Edge>, remap: seq<nat>): seq<Edge>
    requires EdgesIn(edges, |remap|)
  {
    if edges == [] then []
    else
      var e := edges[|edges| - 1];
      MapEdges(edges[..|edges| - 1], remap)
      + if remap[e.from] != remap[e.to] then [Edge(remap[e.from], remap[e.to])] else []
  }

  lemma {:induction false} MapEdgesIn(edges: seq<Edge>, remap: seq<nat>, n: nat)
    requires EdgesIn(edges, |remap|) && Below(remap, n)
    ensures EdgesIn(MapEdges(edges, remap), n)
    ensures forall e :: e in MapEdges(edges, remap) ==> e.from != e.to
  {
    if edges != [] {
      MapEdgesIn(edges[..|edges| - 1], remap, n);
    }
  }

  lemma {:induction false} MapFacesIn(faces: seq<Face>, remap: seq<nat>, n: nat)
    requires FacesIn(faces, |remap|) && Below(remap, n)
    ensures FacesIn(MapFaces(faces, remap), n)
  {
    forall i | 0 <= i < |faces|
      ensures FaceIn(MapFaces(faces, remap)[i], n)
    {
      assert FaceIn(faces[i], |remap|);
    }
  }

  /** The face half of remap_mesh_indices. */
  method RemapFaces(mesh: Mesh, remap: array<nat>)
    requires FacesIn(mesh.faces, remap.Length)
    modifies mesh`faces
    ensures mesh.faces == MapFaces(old(mesh.faces), remap[..])
  {
    ghost var before := mesh.faces;
    var i := 0;
    while i < |mesh.faces|
      invariant 0 <= i <= |mesh.faces| == |before|
      invariant forall j :: 0 <= j < |before| ==>
        mesh.faces[j] == if j < i then MapFace(before[j], remap[..]) else before[j]
    {
      var f := mesh.faces[i];
      assert FaceIn(before[i], remap.Length);
      mesh.faces := mesh.faces[i := Face(remap[f.a], remap[f.b], remap[f.c])];
      i := i + 1;
    }
  }

  /** remap_mesh_indices: renumbers faces and edges, and drops edges whose ends fall together. */
  method RemapMeshIndices(mesh: Mesh, remap: array<nat>)
    requires FacesIn(mesh.faces, remap.Length) && EdgesIn(mesh.edges, remap.Length)
    modifies mesh`faces, mesh`edges
    ensures mesh.faces == MapFaces(old(mesh.faces), remap[..])
    ensures mesh.edges == MapEdges(old(mesh.edges), remap[..])
  {
    RemapFaces(mesh, remap);
    var validEdges: seq<Edge> := [];
    var i := 0;
    while i < |mesh.edges|
      invariant 0 <= i <= |mesh.edges|
      invariant validEdges == MapEdges(mesh.edges[..i], remap[..])
    {
      assert mesh.edges[..i + 1][..i] == mesh.edges[..i];
      var a, b := remap[mesh.edges[i].from], remap[mesh.edges[i].to];
      if a != b {
        validEdges := validEdges + [Edge(a, b)];
      }
      i := i + 1;
    }
    assert mesh.edges[..i] == mesh.edges;
    mesh.edges := validEdges;
  }
}
