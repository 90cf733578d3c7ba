/** fix_face_winding: a breadth-first sweep that orients every connected part of a mesh. */
module Winding {
  import opened Distinctness
  import opened Meshes
  import opened Orientation

  /** Six times the signed volume between a triangle and the origin. */
  function Det(p: Vec3, q: Vec3, r: Vec3): real {
    p.x * (q.y * r.z - r.y * q.z) - q.x * (p.y * r.z - r.y * p.z) + r.x * (p.y * q.z - q.y * p.z)
  }

  ghost function Volume(vertices: seq<Vec3>, faces: seq<Face>): real
    requires FacesIn(faces, |vertices|)
  {
    if faces == [] then 0.0
    else
      var f := faces[|faces| - 1];
      Volume(vertices, faces[..|faces| - 1]) + Det(vertices[f.a], vertices[f.b], vertices[f.c]) / 6.0
  }

  /** compute_signed_volume. */
  method SignedVolume(mesh: Mesh) returns (volume: real)
    requires FacesIn(mesh.faces, |mesh.vertices|)
    ensures volume == Volume(mesh.vertices, mesh.faces)
  {
    volume := 0.0;
    var i := 0;
    while i < |mesh.faces|
      invariant 0 <= i <= |mesh.faces|
      invariant volume == Volume(mesh.vertices, mesh.faces[..i])
    {
      assert mesh.faces[..i + 1][..i] == mesh.faces[..i];
      var f := mesh.faces[i];
      volume := volume + Det(mesh.vertices[f.a], mesh.vertices[f.b], mesh.vertices[f.c]) / 6.0;
      i := i + 1;
    }
    assert mesh.faces[..i] == mesh.faces;
  }

  ghost function FlipAll(faces: seq<Face>): (r: seq<Face>)
    ensures |r| == |faces|
  {
    seq(|faces|, i requires 0 <= i < |faces| => Flip(faces[i]))
  }

  /** Turning every face over negates the volume. */
  lemma {:induction false} FlipAllVolume(vertices: seq<Vec3>, faces: seq<Face>)
    requires FacesIn(faces, |vertices|)
    ensures FacesIn(FlipAll(faces), |vertices|)
    ensures Volume(vertices, FlipAll(faces)) == -Volume(vertices, faces)
  {
    if faces != [] {
      var front, f := faces[..|faces| - 1], faces[|faces| - 1];
      FlipAllVolume(vertices, front);
      assert FlipAll(faces)[..|faces| - 1] == FlipAll(front);
      DetSwap(vertices[f.a], vertices[f.b], vertices[f.c]);
    }
  }

  lemma DetSwap(p: Vec3, q: Vec3, r: Vec3)
    ensures Det(p, r, q) == -Det(p, q, r)
  {
  }

  /** Turning every face over keeps the mesh consistent. */
  lemma FlipAllConsistent(faces: seq<Face>)
    ensures Consistent(faces) <==> Consistent(FlipAll(faces))
  {
    forall i, j | 0 <= i < j < |faces|
      ensures Conflict(faces[i], faces[j]) <==> Conflict(FlipAll(faces)[i], FlipAll(faces)[j])
    {
      FlipBoth(faces[i], faces[j], false, false);
    }
  }

  ghost predicate NoFlips(phi: seq<bool>) {
    forall f :: 0 <= f < |phi| ==> !phi[f]
  }

  /**
   * How far the sweep has come: which faces are visited and flipped, the sign of the connected
   * part of each, the faces taken from the queue so far, those to do, and the sign of the latter.
   */
  datatype Sweep = Sweep(visited: seq<bool>, flipped: seq<bool>, sign: seq<bool>, order: seq<nat>, todo: seq<nat>,
                         c: bool)

  ghost predicate Sized(w: Sweep, n: nat) {
    |w.visited| == |w.flipped| == |w.sign| == n
  }

  /** All neighbours of face f are visited and carry its sign. */
  ghost predicate Settled(faces: seq<Face>, w: Sweep, f: nat)
    requires Sized(w, |faces|)
  {
    f < |faces| && w.visited[f]
    && forall g, k :: 0 <= g < |faces| && HasKey(faces[f], k) && HasKey(faces[g], k) ==>
         w.visited[g] && w.sign[g] == w.sign[f]
  }

  /**
   * The flips found so far differ from the consistent choice phi by the sign of the connected
   * part; a mesh that is consistent as it stands is not changed.
   */
  ghost predicate Follows(faces: seq<Face>, phi: seq<bool>, w: Sweep)
    requires Sized(w, |faces|) && |phi| == |faces|
  {
    && (Consistent(Orient(faces, phi)) ==>
          forall f :: 0 <= f < |faces| && w.visited[f] ==> w.flipped[f] == (phi[f] != w.sign[f]))
    && (NoFlips(phi) ==> !w.c && forall f :: 0 <= f < |faces| && w.visited[f] ==> !w.sign[f])
  }

  ghost predicate Sweeping(faces: seq<Face>, phi: seq<bool>, w: Sweep) {
    && |phi| == |faces| && Sized(w, |faces|)
    && Follows(faces, phi, w)
    && (forall f :: f in w.order ==> Settled(faces, w, f))
    && (forall f :: f in w.todo ==> f < |faces| && w.visited[f] && w.sign[f] == w.c)
    && Distinct(w.order + w.todo)
    && (forall f :: 0 <= f < |faces| && w.visited[f] ==> f in w.order || f in w.todo)
    && (forall f :: 0 <= f < |faces| && w.flipped[f] ==> w.visited[f])
  }

  /** The adjacency test: whether a face runs from u to v along one of its edges. */
  method SameDirection(f: Face, u: nat, v: nat) returns (r: bool)
    ensures r == Runs(f, u, v)
  {
    r := false;
    var i := 0;
    while i < 3
      invariant 0 <= i <= 3 && !r
      invariant i > 0 ==> !(f.a == u && f.b == v)
      invariant i > 1 ==> !(f.b == u && f.c == v)
      invariant i > 2 ==> !(f.c == u && f.a == v)
    {
      var from, to := if i == 0 then f.a else if i == 1 then f.b else f.c,
                      if i == 0 then f.b else if i == 1 then f.c else f.a;
      if from == u && to == v {
        return true;
      }
      i := i + 1;
    }
  }

  lemma NewFlip(faces: seq<Face>, phi: seq<bool>, cur: nat, adj: nat, flip: bool, c: bool, u: nat, v: nat)
    requires |phi| == |faces| && cur < |faces| && adj < |faces| && cur != adj
    requires Consistent(Orient(faces, phi)) && flip == (phi[cur] != c)
    requires Runs(Oriented(faces[cur], flip), u, v) && HasKey(faces[adj], Key(u, v))
    ensures Runs(faces[adj], u, v) == (phi[adj] != c)
  {
    var i, j := if cur < adj then cur else adj, if cur < adj then adj else cur;
    assert !Conflict(Orient(faces, phi)[i], Orient(faces, phi)[j]);
    Clash(Oriented(faces[cur], phi[cur]), Oriented(faces[adj], phi[adj]));
    FlipBoth(faces[cur], faces[adj], phi[cur], phi[adj]);
    NeighbourFlip(Oriented(faces[cur], flip), faces[adj], phi[adj] != c, u, v);
  }

  /** A neighbour of a face to do that is visited already carries the sign. */
  lemma AlreadyMet(faces: seq<Face>, phi: seq<bool>, w: Sweep, cur: nat, adj: nat, k: EdgeKey)
    requires Sweeping(faces, phi, w) && cur in w.todo
    requires adj < |faces| && w.visited[adj] && HasKey(faces[cur], k) && HasKey(faces[adj], k)
    ensures w.sign[adj] == w.c
  {
    if adj in w.order {
      assert Settled(faces, w, adj);
    }
  }

  ghost function Reached(w: Sweep, adj: nat, flip: bool): Sweep
    requires adj < |w.visited| && Sized(w, |w.visited|)
  {
    Sweep(w.visited[adj := true], w.flipped[adj := flip], w.sign[adj := w.c], w.order, w.todo + [adj], w.c)
  }

  lemma DistinctGrows(order: seq<nat>, todo: seq<nat>, x: nat)
    requires Distinct(order + todo) && x !in order && x !in todo
    ensures Distinct(order + (todo + [x]))
  {
    assert order + (todo + [x]) == (order + todo) + [x];
  }

  /** Visiting a new neighbour keeps the sweep in order. */
  lemma ReachKeeps(faces: seq<Face>, phi: seq<bool>, w: Sweep, cur: nat, adj: nat, u: nat, v: nat)
    requires Sweeping(faces, phi, w) && cur in w.todo && adj < |faces| && !w.visited[adj]
    requires Runs(Oriented(faces[cur], w.flipped[cur]), u, v) && HasKey(faces[adj], Key(u, v))
    ensures Sweeping(faces, phi, Reached(w, adj, Runs(faces[adj], u, v)))
  {
    var r := Reached(w, adj, Runs(faces[adj], u, v));
    if Consistent(Orient(faces, phi)) {
      NewFlip(faces, phi, cur, adj, w.flipped[cur], w.c, u, v);
    }
    forall f | f in w.order
      ensures f != adj
    {
      assert Settled(faces, w, f);
    }
    DistinctGrows(w.order, w.todo, adj);
    assert forall f :: f in r.todo <==> f in w.todo || f == adj;
    forall f | f in r.order
      ensures Settled(faces, r, f)
    {
      assert Settled(faces, w, f);
    }
  }

  /** The arrays hold what the sweep says, and the queue what is to do after `cur`. */
  ghost predicate Holds(w: Sweep, visited: array<bool>, flipped: array<bool>)
    reads visited, flipped
  {
    w.visited == visited[..] && w.flipped == flipped[..]
  }

  /** The sweep went on from w: what was visited stays as it was. */
  ghost predicate Later(w: Sweep, r: Sweep) {
    && Sized(w, |w.visited|) && Sized(r, |w.visited|) && r.order == w.order && r.c == w.c
    && forall f :: 0 <= f < |w.visited| && w.visited[f] ==>
      r.visited[f] && r.flipped[f] == w.flipped[f] && r.sign[f] == w.sign[f]
  }

  /** All faces with this edge are visited and carry the current sign. */
  ghost predicate EdgeMet(faces: seq<Face>, w: Sweep, k: EdgeKey) {
    Sized(w, |faces|) && forall g :: 0 <= g < |faces| && HasKey(faces[g], k) ==> w.visited[g] && w.sign[g] == w.c
  }

  /** One turn of the innermost loop. */
  method MeetFace(faces: seq<Face>, cur: nat, u: nat, v: nat, adj: nat, visited: array<bool>, flipped: array<bool>,
                  queue: seq<nat>, ghost phi: seq<bool>, ghost w: Sweep)
    returns (queue': seq<nat>, ghost r: Sweep)
    requires visited != flipped && Sweeping(faces, phi, w) && Holds(w, visited, flipped) && w.todo == [cur] + queue
    requires cur < |faces| && adj < |faces| && Runs(Oriented(faces[cur], flipped[cur]), u, v)
    requires HasKey(faces[adj], Key(u, v))
    modifies visited, flipped
    ensures Sweeping(faces, phi, r) && Holds(r, visited, flipped) && r.todo == [cur] + queue' && Later(w, r)
    ensures r.visited[adj] && r.sign[adj] == r.c
  {
    assert cur in w.todo;
    queue', r := queue, w;
    FlipKeys(faces[cur], flipped[cur], Key(u, v));
    KeyRuns(Oriented(faces[cur], flipped[cur]), u, v);
    if adj == cur || visited[adj] {
      AlreadyMet(faces, phi, w, cur, adj, Key(u, v));
      return;
    }
    visited[adj] := true;
    var same := SameDirection(faces[adj], u, v);
    ReachKeeps(faces, phi, w, cur, adj, u, v);
    flipped[adj] := same;
    queue' := queue + [adj];
    r := Reached(w, adj, same);
    assert r.visited == visited[..] && r.flipped == flipped[..];
  }

  /** The first i faces of a list are visited and carry the current sign. */
  ghost predicate ListMet(w: Sweep, list: seq<nat>, i: nat)
    requires i <= |list|
  {
    Sized(w, |w.visited|) && forall j :: 0 <= j < i ==>
      list[j] < |w.visited| && w.visited[list[j]] && w.sign[list[j]] == w.c
  }

  lemma ListGrows(w: Sweep, x: Sweep, r: Sweep, list: seq<nat>, i: nat)
    requires Later(w, x) && Later(x, r) && i < |list| && ListMet(x, list, i)
    requires list[i] < |r.visited| && r.visited[list[i]] && r.sign[list[i]] == r.c
    ensures Later(w, r) && ListMet(r, list, i + 1)
  {
  }

  /** The faces at one edge of the current face. */
  method MeetEdge(faces: seq<Face>, m: EdgeFaces, cur: nat, u: nat, v: nat, visited: array<bool>,
                  flipped: array<bool>, queue: seq<nat>, ghost phi: seq<bool>, ghost w: Sweep)
    returns (queue': seq<nat>, ghost r: Sweep)
    requires visited != flipped && Sweeping(faces, phi, w) && Holds(w, visited, flipped) && w.todo == [cur] + queue
    requires Lists(m, faces, |faces|) && cur < |faces| && Runs(Oriented(faces[cur], flipped[cur]), u, v)
    modifies visited, flipped
    ensures Sweeping(faces, phi, r) && Holds(r, visited, flipped) && r.todo == [cur] + queue' && Later(w, r)
    ensures EdgeMet(faces, r, Key(u, v))
  {
    queue', r := queue, w;
    assert cur in w.todo;
    var list := At(m, Key(u, v));
    var i := 0;
    while i < |list|
      invariant 0 <= i <= |list|
      invariant Sweeping(faces, phi, r) && Holds(r, visited, flipped) && r.todo == [cur] + queue' && Later(w, r)
      invariant ListMet(r, list, i)
    {
      assert Named(m, Key(u, v), list[i]);
      ghost var x := r;
      queue', r := MeetFace(faces, cur, u, v, list[i], visited, flipped, queue', phi, r);
      ListGrows(w, x, r, list, i);
      i := i + 1;
    }
    forall g | 0 <= g < |faces| && HasKey(faces[g], Key(u, v))
      ensures r.visited[g] && r.sign[g] == r.c
    {
      assert Named(m, Key(u, v), g);
    }
  }

  lemma EdgeStays(faces: seq<Face>, w: Sweep, r: Sweep, k: EdgeKey)
    requires EdgeMet(faces, w, k) && Later(w, r)
    ensures EdgeMet(faces, r, k)
  {
  }

  /** When all three edges of the first face to do are met, it is done. */
  lemma FaceDone(faces: seq<Face>, phi: seq<bool>, w: Sweep, cur: nat, queue: seq<nat>)
    requires Sweeping(faces, phi, w) && w.todo == [cur] + queue && cur < |faces|
    requires forall k :: HasKey(faces[cur], k) ==> EdgeMet(faces, w, k)
    ensures Sweeping(faces, phi, w.(order := w.order + [cur], todo := queue))
  {
    var r := w.(order := w.order + [cur], todo := queue);
    assert cur in w.todo;
    assert r.order + r.todo == w.order + w.todo;
    assert forall f :: f in w.todo <==> f == cur || f in queue;
    forall f | f in r.order
      ensures Settled(faces, r, f)
    {
      if f != cur {
        assert Settled(faces, w, f);
      }
    }
  }

  /** One turn of the queue loop: the three edges of the face taken from the queue. */
  method TakeFace(faces: seq<Face>, m: EdgeFaces, visited: array<bool>, flipped: array<bool>, queue: seq<nat>,
                  ghost phi: seq<bool>, ghost w: Sweep)
    returns (queue': seq<nat>, ghost r: Sweep)
    requires visited != flipped && Sweeping(faces, phi, w) && Holds(w, visited, flipped) && w.todo == queue
    requires queue != []
    requires Lists(m, faces, |faces|)
    modifies visited, flipped
    ensures Sweeping(faces, phi, r) && Holds(r, visited, flipped) && r.todo == queue' && r.order == w.order + [queue[0]]
    ensures forall f :: 0 <= f < |faces| && w.visited[f] ==> r.visited[f]
  {
    var cur := queue[0];
    assert cur in w.todo;
    queue' := queue[1..];
    assert queue == [cur] + queue';
    var face := Oriented(faces[cur], flipped[cur]);
    ghost var x, y;
    queue', x := MeetEdge(faces, m, cur, face.a, face.b, visited, flipped, queue', phi, w);
    queue', y := MeetEdge(faces, m, cur, face.b, face.c, visited, flipped, queue', phi, x);
    queue', r := MeetEdge(faces, m, cur, face.c, face.a, visited, flipped, queue', phi, y);
    EdgeStays(faces, x, y, Key(face.a, face.b));
    EdgeStays(faces, y, r, Key(face.a, face.b));
    EdgeStays(faces, y, r, Key(face.b, face.c));
    forall k | HasKey(faces[cur], k)
      ensures EdgeMet(faces, r, k)
    {
      FlipKeys(faces[cur], w.flipped[cur], k);
    }
    FaceDone(faces, phi, r, cur, queue');
    r := r.(order := r.order + [cur], todo := queue');
  }

  lemma OrderFits(faces: seq<Face>, phi: seq<bool>, w: Sweep)
    requires Sweeping(faces, phi, w)
    ensures Distinct(w.order) && Below(w.order, |faces|) && |w.order| <= |faces|
  {
    forall i | 0 <= i < |w.order|
      ensures w.order[i] < |faces|
    {
      assert Settled(faces, w, w.order[i]);
    }
    assert forall i :: 0 <= i < |w.order| ==> w.order[i] == (w.order + w.todo)[i];
    DistinctBound(w.order, |faces|);
  }

  /** A new connected part begins; its sign is that of its first face. */
  lemma Begins(faces: seq<Face>, phi: seq<bool>, w: Sweep, start: nat)
    requires Sweeping(faces, phi, w) && w.todo == [] && start < |faces| && !w.visited[start]
    ensures
      var r := Sweep(w.visited[start := true], w.flipped, w.sign[start := phi[start]], w.order, [start], phi[start]);
      Sweeping(faces, phi, r)
  {
    var r := Sweep(w.visited[start := true], w.flipped, w.sign[start := phi[start]], w.order, [start], phi[start]);
    forall f | f in w.order
      ensures f != start
    {
      assert Settled(faces, w, f);
    }
    DistinctGrows(w.order, [], start);
    assert [] + [start] == [start];
    forall f | f in r.order
      ensures Settled(faces, r, f)
    {
      assert Settled(faces, w, f);
    }
  }

  /** The queue loop: sweeps the connected part of one face. */
  method SweepPart(faces: seq<Face>, m: EdgeFaces, start: nat, visited: array<bool>, flipped: array<bool>,
                   ghost phi: seq<bool>, ghost w: Sweep)
    returns (ghost r: Sweep)
    requires visited != flipped && Sweeping(faces, phi, w) && Holds(w, visited, flipped) && w.todo == []
    requires Lists(m, faces, |faces|) && start < |faces| && !visited[start]
    modifies visited, flipped
    ensures Sweeping(faces, phi, r) && Holds(r, visited, flipped) && r.todo == []
    ensures w.order <= r.order && start in r.order
  {
    Begins(faces, phi, w, start);
    var queue := [start];
    visited[start] := true;
    r := Sweep(w.visited[start := true], w.flipped, w.sign[start := phi[start]], w.order, [start], phi[start]);
    assert r.visited == visited[..];
    while queue != []
      invariant Sweeping(faces, phi, r) && Holds(r, visited, flipped) && r.todo == queue
      invariant w.order <= r.order && r.visited[start]
      decreases |faces| - |r.order|
    {
      OrderFits(faces, phi, r);
      queue, r := TakeFace(faces, m, visited, flipped, queue, phi, r);
      OrderFits(faces, phi, r);
    }
  }

  ghost function Start(n: nat): Sweep {
    Sweep(seq(n, _ => false), seq(n, _ => false), seq(n, _ => false), [], [], false)
  }

  /** The sweep over all faces: which of them to flip, and the order in which they are taken. */
  method SweepAll(faces: seq<Face>, ghost phi: seq<bool>) returns (flipped: array<bool>, ghost r: Sweep)
    requires |phi| == |faces|
    ensures fresh(flipped) && flipped.Length == |faces| && r.flipped == flipped[..]
    ensures Sweeping(faces, phi, r) && r.todo == [] && forall f :: 0 <= f < |faces| ==> f in r.order
  {
    var m := BuildEdgeFaceMap(faces);
    var n := |faces|;
    var visited := new bool[n](_ => false);
    flipped := new bool[n](_ => false);
    r := Start(n);
    assert visited[..] == r.visited && flipped[..] == r.flipped;
    var start := 0;
    while start < n
      invariant 0 <= start <= n
      invariant Sweeping(faces, phi, r) && Holds(r, visited, flipped) && r.todo == []
      invariant forall f :: 0 <= f < start ==> f in r.order
    {
      if !visited[start] {
        ghost var before := r.order;
        r := SweepPart(faces, m, start, visited, flipped, phi, r);
        assert forall f :: f in before ==> f in r.order;
      }
      start := start + 1;
    }
  }

  lemma SweptConsistent(faces: seq<Face>, phi: seq<bool>, w: Sweep)
    requires Sweeping(faces, phi, w) && forall f :: 0 <= f < |faces| ==> f in w.order
    ensures Consistent(Orient(faces, phi)) ==> Consistent(Orient(faces, w.flipped))
    ensures NoFlips(phi) && Consistent(faces) ==> Orient(faces, w.flipped) == faces
  {
    forall f | 0 <= f < |faces|
      ensures Settled(faces, w, f)
    {
    }
    forall f, g, k | 0 <= f < |faces| && 0 <= g < |faces| && HasKey(faces[f], k) && HasKey(faces[g], k)
      ensures w.sign[f] == w.sign[g]
    {
      assert Settled(faces, w, f);
    }
    if Consistent(Orient(faces, phi)) {
      forall f | 0 <= f < |faces|
        ensures w.flipped[f] == (phi[f] != w.sign[f])
      {
        assert Settled(faces, w, f);
      }
      SignedFlips(faces, phi, w.flipped, w.sign);
    }
    if NoFlips(phi) {
      assert Orient(faces, phi) == faces;
    }
  }

  /** A consistent choice of flips: none, if the mesh is consistent as it stands. */
  ghost function Choice(faces: seq<Face>): (phi: seq<bool>)
    ensures |phi| == |faces|
    ensures Consistent(faces) ==> NoFlips(phi)
    ensures Orientable(faces) ==> Consistent(Orient(faces, phi))
  {
    var none := seq(|faces|, _ => false);
    assert Orient(faces, none) == faces;
    if Consistent(faces) || !Orientable(faces) then none
    else var phi: seq<bool> :| |phi| == |faces| && Consistent(Orient(faces, phi)); phi
  }

  /** The loop that swaps two corners of every flipped face. */
  method ApplyFlips(mesh: Mesh, flipped: array<bool>)
    requires flipped.Length == |mesh.faces|
    modifies mesh`faces
    ensures mesh.faces == Orient(old(mesh.faces), flipped[..])
  {
    ghost var before := mesh.faces;
    var i := 0;
    while i < |mesh.faces|
      invariant 0 <= i <= |mesh.faces| == |before|
      invariant forall j :: 0 <= j < |before| ==>
        mesh.faces[j] == if j < i then Oriented(before[j], flipped[j]) else before[j]
    {
      if flipped[i] {
        mesh.faces := mesh.faces[i := Flip(mesh.faces[i])];
      }
      i := i + 1;
    }
  }

  /** The final loop, which turns every face over. */
  method TurnOver(mesh: Mesh)
    modifies mesh`faces
    ensures mesh.faces == FlipAll(old(mesh.faces))
  {
    ghost var before := mesh.faces;
    var i := 0;
    while i < |mesh.faces|
      invariant 0 <= i <= |mesh.faces| == |before|
      invariant forall j :: 0 <= j < |before| ==> mesh.faces[j] == if j < i then Flip(before[j]) else before[j]
    {
      mesh.faces := mesh.faces[i := Flip(mesh.faces[i])];
      i := i + 1;
    }
  }

  ghost predicate Reoriented(before: seq<Face>, after: seq<Face>) {
    exists flips: seq<bool> :: |flips| == |before| && after == Orient(before, flips)
  }

  lemma FlipAllReorients(before: seq<Face>, flips: seq<bool>)
    requires |flips| == |before|
    ensures Reoriented(before, Orient(before, flips)) && Reoriented(before, FlipAll(Orient(before, flips)))
  {
    var turned := seq(|flips|, i requires 0 <= i < |flips| => !flips[i]);
    assert FlipAll(Orient(before, flips)) == Orient(before, turned);
  }

  lemma OrientIn(faces: seq<Face>, flips: seq<bool>, n: nat)
    requires |flips| == |faces| && FacesIn(faces, n)
    ensures FacesIn(Orient(faces, flips), n)
  {
  }

  /**
   * fix_face_winding. Every face is taken from the queue exactly once and at most turned over.
   * The mesh comes out consistent whenever some choice of flips makes it so, with a volume that
   * is not negative; a mesh that was so already is left alone.
   */
  method FixFaceWinding(mesh: Mesh) returns (ghost order: seq<nat>)
    requires FacesIn(mesh.faces, |mesh.vertices|)
    modifies mesh`faces
    ensures FacesIn(mesh.faces, |mesh.vertices|)
    ensures Reoriented(old(mesh.faces), mesh.faces)
    ensures Consistent(mesh.faces) <==> Orientable(old(mesh.faces))
    ensures Volume(mesh.vertices, mesh.faces) >= 0.0
    ensures old(Consistent(mesh.faces) && Volume(mesh.vertices, mesh.faces) >= 0.0) ==> mesh.faces == old(mesh.faces)
    ensures |order| == |mesh.faces| && Distinct(order) && forall f :: f in order <==> 0 <= f < |mesh.faces|
  {
    ghost var before := mesh.faces;
    ghost var phi := Choice(before);
    FlipAllReorients(before, phi);
    if |mesh.faces| == 0 {
      assert Orient(before, phi) == before;
      return [];
    }
    ghost var w;
    var flipped;
    flipped, w := SweepAll(mesh.faces, phi);
    order := w.order;
    OrderFits(before, phi, w);
    OrderComplete(order, |before|);
    SweptConsistent(before, phi, w);
    FlipAllReorients(before, w.flipped);
    OrientIn(before, w.flipped, |mesh.vertices|);
    ApplyFlips(mesh, flipped);
    var volume := SignedVolume(mesh);
    if volume < 0.0 {
      FlipAllVolume(mesh.vertices, mesh.faces);
      FlipAllConsistent(mesh.faces);
      TurnOver(mesh);
    }
  }
}
