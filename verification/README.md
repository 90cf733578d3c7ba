# Geometry, shutdown and cache kernel

A model of the parts of the viewer in which an error is silent: the polygon triangulator, the mesh
clean-up after boolean operations, the polygon tests, the main window's shutdown and import queue,
the metadata cache and the corpus sampler. Each is modelled in the form it has in the source: linked
rings, arrays and window fields are changed in place by methods that are proved against functions,
and the theorems are about these functions.

## What is modelled

- **Triangulation** (`Earcut`, `Rings`, `Filter`, `HoleBridge`, `Holes`, `EarTest`, `ZOrder`,
  `ZSort`, `Diagonals`, `Ledger`, `EarcutBinding`). Every step is booked in an account of signed
  areas; the account of a whole run balances. The hashed ear test is proved to answer like the plain
  one.
- **Joining a hole** (`Seams`, `LinkWalk`, `Reseal`, `Astray`, `Resume`, `LostRing`). eliminateHole
  filters the joined ring twice. The first call may drop the bridge from which the second one starts;
  the second one then walks on links that form no ring. What it does is followed turn by turn for
  arbitrary links, and its outcome is decided by the points beside the bridge, the seam.
- **Mesh clean-up** (`Meshes`, `Orientation`, `Winding`, `UnionFind`, `Collapse`, `Snap`, `Remap`,
  `HalfEdges`, `BoundaryLoops`, `Stokes`, `Patches`, `Retriangulation`, `FacingDown`, `Finalize`,
  `FeatureEdges`).
- **Polygon tests** (`Segments`, `GeomUtils`, `Shoelace`).
- **Window lifecycle** (`Lifecycle`, `LifecycleSafety`, `LifecycleClose`, `LifecycleQueue`,
  `LifecycleFlight`, `LifecycleLoss`, `LifecycleTrace`, `MainWindow`). The protocol is a function from
  a state and an event to the next state; the class changes its fields in place, records its run, and
  each of its entry points is proved to be one step of a run and to keep what every run keeps.
- **Metadata cache** (`LruCache`, `LruThreads`, `PdfMetadata`) and **sampler** (`Sampler`).

## Assumptions

- Callbacks of the window do not nest: an event is handled to its end before the next one begins.
  The results about the import queue rest on it.
- The environment reports once for each drain and each shutdown it was asked for, and once for each
  batch.
- Where the source iterates over a hash map or sorts with ties, the order is a parameter and the
  results hold for every order.

## Defects found

Each is proved on a concrete input and has an exact condition.

- A hole can strand the outer ring. When the first filterPoints call in eliminateHole drops the
  bridge and a neighbour of it, the second call may link vertices so that `next` and `prev` no longer
  agree; the loops that follow then need not end (`LostRing.NoRingLeft`, with
  `LostRing.BridgeComesAbout`). The ring of the first call comes back exactly when the seam closes
  (`Astray.GivesBackIff`); it is safe if nothing can be dropped at the doubled hole vertex, and for
  all input in general position whose holes have three vertices or more (`Earcut.Earcut.Triangulate`).
- Line 458 of boolean_ops.cpp renumbers faces that line 457 has stored renumbered already
  (`Collapse.TetrahedronBreaks`, `Collapse.SecondRenumbering`).
- A shutdown that is given up can resume a run of imports ahead of the completion it depends on; then
  two batches are under way and the second shutdown can lose one of them
  (`LifecycleTrace.SecondBatchIsLost`, `LifecycleLoss.RunDecides`).
- A final close that maintenance turns away is not posted again, and the window stays
  (`LifecycleClose.CloseIsTurnedAway`) until the user closes it once more
  (`LifecycleClose.StaysStep`). Between completion and the end the close is missing exactly if it was
  turned away (`LifecycleClose.FinalisedOnlyAfterAll`).
- New faces of a coplanar patch come back counter-clockwise in the projection whichever way the patch
  faced; only the later re-winding repairs this (`FacingDown.PatchTurnsOver`). They show the old side
  exactly if the patch did not face down (`Retriangulation.FacesUp`).
- stratified_sample returns one row when none are asked for (`Sampler.NoneAskedFor`). It keeps to the
  number asked for exactly if some are asked for or none is eligible (`Sampler.StratifiedSample`).

## Model

| member | source | states |
|---|---|---|
| Earcut.Earcut.Triangulate | cpp_extensions/src/earcut/earcut.hpp:180-230 | For every polygon the indices are triples of input vertices within a budget. Whenever it comes to the clipping, triangles, rings given up, holes left out and corners cut off add up to the outer ring less the holes. Without cuts every triangle is positively oriented; a ring is given up only if it has no ear and no valid diagonal, and a corner cut off only where edges cross. It does not come to the clipping only if three or fewer outer points enclose nothing, or if a hole strands a ring built of input points, which the second filterPoints call never gives back; with three outer points or more, holes of three or more, and no two points equal or three in line, neither happens. |
| Earcut.Earcut.EarcutLinked | cpp_extensions/src/earcut/earcut.hpp:293-332 | Clipping a ring, through all its passes and splits, adds exactly the ring's area to the account, and at most three indices for each triangle the ring has room for; it ends, as every hand-over makes the ring smaller or raises the pass. |
| Earcut.Earcut.ClipEars | cpp_extensions/src/earcut/earcut.hpp:293-332 | The loop ends with two vertices left or with a ring on which no vertex is an ear, and the account balances. |
| Earcut.Earcut.CureLoop | cpp_extensions/src/earcut/earcut.hpp:382-402 | After cureLocalIntersections no vertex but perhaps the first is left whose neighbours' edges cross, the account balances, and the z-order list stays in step. |
| Earcut.Earcut.FindSplit | cpp_extensions/src/earcut/earcut.hpp:403-425 | splitEarcut finds a pair exactly when some pair of vertices of the ring has a valid diagonal, and the pair it finds has one. |
| Earcut.Earcut.SplitEarcut | cpp_extensions/src/earcut/earcut.hpp:403-425 | From a ring without an ear, whether both sides of a diagonal are triangulated or the ring is given up, the account gains exactly the ring's area and the triangles fit the ring's budget. |
| Earcut.Earcut.SplitAndFilter | cpp_extensions/src/earcut/earcut.hpp:403-425 | After a diagonal is drawn and both sides are filtered there are two separate whole rings, each smaller than the one before, whose areas add up to its area and whose triangles fit its budget. |
| Earcut.Earcut.IndexCurve | cpp_extensions/src/earcut/earcut.hpp:515-532 | The z-order list holds exactly the ring's nodes, sorted by their codes, equal codes in ring order; stored codes are the nodes' own. |
| Earcut.Earcut.LinkedList | cpp_extensions/src/earcut/earcut.hpp:231-267 | The ring has the points in the direction asked for, listed from the vertex that is returned; the last is left out exactly if it repeats the first. So it has their area with the sign asked for, and every node is a vertex of its own. |
| Earcut.Earcut.FilterBridge | cpp_extensions/src/earcut/earcut.hpp:450-461 | After both filterPoints calls of eliminateHole there is a whole ring of the same area, or the ring of the first call is stranded: the second call never gives it back. It is whole if nothing can be dropped at the doubled hole vertex, where the first call starts. |
| Earcut.Earcut.EliminateHole | cpp_extensions/src/earcut/earcut.hpp:450-461 | A hole with an outer edge to its left is joined and its area added; a hole without one is left out and booked. The ring survives if no outer point is at the hole's first vertex or in line with it and the one before. |
| Earcut.Earcut.EliminateHoles | cpp_extensions/src/earcut/earcut.hpp:426-449 | All holes are joined from left to right: the area of the ring and of the holes left out is the outer ring's less the holes'; the ring survives if the points are in general position and every hole has three of them. |
| Earcut.Earcut.GeneralMisses | cpp_extensions/src/earcut/earcut.hpp:450-461 | In general position no point of one ring is in line with two vertices of another, so that no hole can strand the ring. |
| Resume.FilterDropped | cpp_extensions/src/earcut/earcut.hpp:268-292 | The second filterPoints call from a dropped bridge: if the seam, read beforehand, closes, it ends with the ring, its nodes and its area as the first call left them; if not, no number of turns gives that ring back, and its links and points are reported. |
| Astray.GivesBackIff | cpp_extensions/src/earcut/earcut.hpp:268-292 | For every whole and tidy ring with a dropped bridge, however the links of the dropped vertices lie: the loop of filterPoints, taken turn by turn, gives the ring back after some number of turns exactly when the seam closes. |
| Astray.NeverBack | cpp_extensions/src/earcut/earcut.hpp:268-292 | A walk gone astray has not given back the ring of the first call after any number of turns. |
| Reseal.Mends | cpp_extensions/src/earcut/earcut.hpp:268-292 | Where the moves at a seam end well the walk gives the ring back, and the number of turns is computed. |
| Seams.OneSided | cpp_extensions/src/earcut/earcut.hpp:450-461 | A seam where vertices were dropped on one side only, each next to the ring, always closes. |
| LostRing.NoRingLeft | cpp_extensions/src/earcut/earcut.hpp:450-461 | On the outer ring (0,1) (0,2) (1,2) (0,2) (0,1) (0,0) (1,1) with the hole (0,2) (0,1) (0,2) the two calls end after eighteen and six turns. The first leaves a ring of three whose seam does not close, and what the second leaves is no ring: next leads from 3 to 1 to 2 and back to 3, but prev leads from 2 to 4. |
| LostRing.BridgeComesAbout | cpp_extensions/src/earcut/earcut.hpp:462-509 | For this outer ring and hole, as linkedList and getLeftmost hand them on, the bridge goes to vertex 5 of the outer ring and to no other. |
| LostRing.RingComesAbout | cpp_extensions/src/earcut/earcut.hpp:450-461 | Joined there, they are the ring of eleven vertices at which the two calls are followed. |
| LostRing.SeamStaysOpen | cpp_extensions/src/earcut/earcut.hpp:450-461 | With the links that the first call leaves, the ring is tidy and its seam does not close. |
| Filter.FilterPoints | cpp_extensions/src/earcut/earcut.hpp:268-292 | The ring keeps its area and loses only vertices that are doubled or in line; what is left has no such vertex, unless one vertex is left or nothing was dropped before `end`; the gap around a watched node stays known. |
| Filter.DropTracked | cpp_extensions/src/earcut/earcut.hpp:268-292 | Dropping a vertex leaves a whole ring in step with its z-order list, and every vertex dropped before still points where it did and is pointed at by none of its neighbours. |
| EarTest.IsEar | cpp_extensions/src/earcut/earcut.hpp:333-350 | The answer is that the corner is convex and no reflex or straight vertex of the rest of the ring lies in its triangle. |
| EarTest.IsEarHashed | cpp_extensions/src/earcut/earcut.hpp:351-381 | The z-order scan gives the same answer as the scan of the whole ring, for every ring, list and grid. |
| ZOrder.ZCodeMonotone | cpp_extensions/src/earcut/earcut.hpp:603-617 | The z-order code never falls when both coordinates grow; this is why the two scans may stop at the codes of the box corners. |
| ZOrder.SpreadBits | cpp_extensions/src/earcut/earcut.hpp:603-617 | The shift-and-mask steps spread a 15-bit number over even bits only, so that the two halves of a code do not overlap. |
| EarGeometry.CodesEnclose | cpp_extensions/src/earcut/earcut.hpp:351-381 | The code of every point in a triangle lies between the codes of the triangle's box corners. |
| ZSort.SortLinked | cpp_extensions/src/earcut/earcut.hpp:533-602 | The merge sort on the linked list leaves a doubly linked list of the same nodes, sorted by code, equal codes in their old order. |
| ZSort.MergeStable | cpp_extensions/src/earcut/earcut.hpp:533-602 | Merging two sorted lists keeps, for every code, the nodes of the first before those of the second. |
| HoleBridge.FindHoleBridge | cpp_extensions/src/earcut/earcut.hpp:462-509 | No bridge exactly if the ring has no edge to the left of the hole; otherwise the left end of the nearest such edge or, if the hole point is not on it, the vertex at the flattest angle among those in the way. |
| HoleBridge.NearestEdge | cpp_extensions/src/earcut/earcut.hpp:462-509 | The first loop finds the first edge whose crossing with the leftward ray is nearest, and reports whether the hole point lies on it. |
| HoleBridge.FlattestVertex | cpp_extensions/src/earcut/earcut.hpp:462-509 | The second loop finds, among the visible vertices in the wedge, one at the flattest angle. |
| HoleBridge.GetLeftmost | cpp_extensions/src/earcut/earcut.hpp:618-630 | The vertex found has the least x, and the least y among those. |
| Holes.SortQueue | cpp_extensions/src/earcut/earcut.hpp:426-449 | The queue comes out sorted by x, and the rings of the holes move with their heads. |
| Diagonals.IsValidDiagonal | cpp_extensions/src/earcut/earcut.hpp:638-647 | The answer is that the ends are not neighbours, the segment meets no edge that does not touch it, it starts inside at both ends and its middle lies inside, or both ends are one point at two convex corners. |
| Diagonals.IntersectsPolygon | cpp_extensions/src/earcut/earcut.hpp:688-699 | The answer is that some edge of the ring away from both ends meets the segment. |
| Diagonals.MiddleInside | cpp_extensions/src/earcut/earcut.hpp:706-721 | The answer is that the ray from the middle crosses an odd number of edges. |
| Rings.SplitOneRing | cpp_extensions/src/earcut/earcut.hpp:722-738 | Splitting a ring between two vertices that are not neighbours gives two whole rings, with fresh copies of both ends. |
| Rings.BridgeTwoRings | cpp_extensions/src/earcut/earcut.hpp:722-738 | Splitting between two rings gives one whole ring of both. |
| Rings.RemoveNode | cpp_extensions/src/earcut/earcut.hpp:759-769 | The ring without its first node is whole, the node keeps its own links, and the z-order list stays in step. |
| Rings.InsertNode | cpp_extensions/src/earcut/earcut.hpp:739-758 | A node inserted after the last one gives a whole ring that ends with it. |
| Earcut.Earcut.FitGrid | cpp_extensions/src/earcut/earcut.hpp:180-230 | All ring points fall on the grid of the codes, also when the ring's box is a point. |
| Earcut.Earcut.CountDown | cpp_extensions/src/earcut/earcut.hpp:180-230 | Hashing is used exactly for more than 80 vertices in all rings together, although the countdown stops early. |
| EarcutBinding.EarcutTriangulate | cpp_extensions/src/module_earcut.cpp:11-82 | Each error exactly when the source raises it, in its order. Accepted input with fewer than three points has no triangles. Otherwise the triangulator's account holds for the rings that the hole indices cut, or the reason why there is none. |
| EarcutBinding.CheckHoles | cpp_extensions/src/module_earcut.cpp:16-57 | The validation loop gives the verdict on the first bad hole index, and on success the ring bounds. |
| EarcutBinding.CutRings | cpp_extensions/src/module_earcut.cpp:58-74 | The rings are the slices of the vertices between consecutive bounds. |
| EarcutBinding.FlattenRings | cpp_extensions/src/module_earcut.cpp:58-74 | The rings one after the other are the vertices again. |
| Winding.FixFaceWinding | cpp_extensions/src/boolean/boolean_ops.cpp:148-224 | Every face is taken from the queue exactly once. The result differs by turned faces only, is consistent exactly if some choice of turned faces is, and has no negative volume; a consistent mesh of non-negative volume is left alone. |
| Winding.SignedVolume | cpp_extensions/src/boolean/boolean_ops.cpp:64-78 | The sum is the signed volume of the faces as tetrahedra over the origin. |
| Orientation.SharedEdge | cpp_extensions/src/boolean/boolean_ops.cpp:148-224 | In a consistent mesh the two faces at an edge run along it in opposite directions and there is no third. |
| Meshes.BuildEdgeFaceMap | cpp_extensions/src/boolean/boolean_ops.cpp:117-128 | Every edge lists exactly the faces at it, in order. |
| Remap.RemapMeshIndices | cpp_extensions/src/boolean/boolean_ops.cpp:129-147 | Faces are renumbered one by one; edges too, without those whose ends fall together. |
| Snap.SnapToInputVertices | cpp_extensions/src/boolean/boolean_ops.cpp:287-386 | Every vertex ends on a nearest input vertex within the tolerance or stays; equal vertices are merged into their first occurrence whatever the hash function; faces and edges are renumbered to match. |
| Snap.WindowSuffices | cpp_extensions/src/boolean/boolean_ops.cpp:302-336 | The best of the window in x order is the best of all input vertices. |
| Snap.FindNearest | cpp_extensions/src/boolean/boolean_ops.cpp:302-336 | The window search finds a nearest input vertex closer than the tolerance, or nothing exactly if there is none. |
| Snap.Merge | cpp_extensions/src/boolean/boolean_ops.cpp:337-380 | With any hash function the list of kept vertices has each vertex once, in order of first occurrence, and every vertex is mapped to its equal. |
| UnionFind.Find | cpp_extensions/src/boolean/boolean_ops.cpp:387-459 | Path halving returns the root and changes no vertex's root. |
| UnionFind.Unite | cpp_extensions/src/boolean/boolean_ops.cpp:387-459 | Uniting joins the two classes and leaves the others. |
| UnionFind.LabelsAreClasses | cpp_extensions/src/boolean/boolean_ops.cpp:387-459 | Two vertices carry one label exactly when the edges connect them, and the label is the least of its class. |
| Collapse.CollapseShortEdges | cpp_extensions/src/boolean/boolean_ops.cpp:387-459 | Vertices become one for each cluster, edges are renumbered, faces are renumbered, cleared of degenerate ones and renumbered again; a mesh in which nothing merges is left alone. The faces come out right exactly when their corners are settled. |
| Collapse.ClustersAre | cpp_extensions/src/boolean/boolean_ops.cpp:396-411 | Two vertices are merged exactly when short face edges connect them, into the least such vertex. |
| Collapse.Quotient | cpp_extensions/src/boolean/boolean_ops.cpp:429-441 | Two vertices get one new number exactly when they carry one label, and the kept vertex of that number is the label's. |
| Collapse.QuotientOnto | cpp_extensions/src/boolean/boolean_ops.cpp:429-441 | Every new number is used. |
| Collapse.SecondRenumbering | cpp_extensions/src/boolean/boolean_ops.cpp:445-458 | Renumbering the surviving faces once more leaves them unchanged exactly when every vertex below the label of a surviving corner is its own label. |
| Collapse.TetrahedronBreaks | cpp_extensions/src/boolean/boolean_ops.cpp:445-458 | On a tetrahedron whose edge 0-1 is short (length 0.01, threshold 0.05) two faces survive as (0, 1, 2) and (0, 2, 1), and the renumbering of line 458 turns them into (0, 0, 1) and (0, 1, 0). |
| HalfEdges.BorderBalanced | cpp_extensions/src/boolean/boolean_ops.cpp:546-569 | In a group with distinct directed edges as many border edges begin at a vertex as end there. |
| HalfEdges.BorderPermutes | cpp_extensions/src/boolean/boolean_ops.cpp:546-569 | If no border vertex branches, the border of such a group is a permutation without cycles shorter than three. |
| BoundaryLoops.CollectHalfEdges | cpp_extensions/src/boolean/boolean_ops.cpp:546-553 | The half-edge map holds exactly the directed edges of the group. |
| BoundaryLoops.BoundaryNext | cpp_extensions/src/boolean/boolean_ops.cpp:554-569 | Whatever the hash order: the successor map of the border, or nothing if two border edges begin at one vertex. |
| BoundaryLoops.TraceLoops | cpp_extensions/src/boolean/boolean_ops.cpp:570-612 | Whatever the hash order: loops are found exactly if the successor map is a non-empty permutation without short cycles, and then they cover it, disjointly. |
| HalfEdges.ClosesUpPermutes | cpp_extensions/src/boolean/boolean_ops.cpp:554-612 | The successor map is a non-empty permutation without short cycles exactly if the border closes up in this sense: it is not empty, no two edges begin or end at one vertex, and each ends where one begins. |
| BoundaryLoops.LoopsPermute | cpp_extensions/src/boolean/boolean_ops.cpp:570-612 | Only such a permutation falls apart into loops. |
| Stokes.LoopsCoverBorder | cpp_extensions/src/boolean/boolean_ops.cpp:546-612 | The loops run along exactly the border edges. |
| Stokes.PatchIsLoops | cpp_extensions/src/boolean/boolean_ops.cpp:539-612 | The projected areas of the faces of a group with distinct directed edges add up to the areas of its border loops. |
| Shoelace.FanIsArea | cpp_extensions/src/boolean/boolean_ops.cpp:658-669 | The triangle fan sum of signed_area_2d is the shoelace area, whatever the base point. |
| Patches.BorderLoops | cpp_extensions/src/boolean/boolean_ops.cpp:546-612 | Loops are found exactly if there is a border, no two of its edges begin or end at one vertex, and each ends where one begins; for a group with distinct directed edges, exactly if there is a border and no vertex of it branches. |
| Patches.OuterLoop | cpp_extensions/src/boolean/boolean_ops.cpp:670-681 | The outer loop is one of largest absolute area. |
| Patches.TurnLoops | cpp_extensions/src/boolean/boolean_ops.cpp:682-691 | All loops are turned over if asked and none otherwise, which keeps the absolute values of their areas. |
| Patches.AssemblePolygon | cpp_extensions/src/boolean/boolean_ops.cpp:692-714 | The polygon is the outer loop and every other loop, each wound clockwise; its vertices in order are those of the index list, and the holes have the other loops' absolute areas. |
| Patches.RetriangulateLoops | cpp_extensions/src/boolean/boolean_ops.cpp:647-741 | The new triangles use mesh vertices; their projected areas and what the triangulator lost add up to the largest loop less the others; without cuts all of them are counter-clockwise in the projection. None come back only if the outer loop encloses nothing or a hole strands a ring of projected vertices. |
| Retriangulation.GroupFaces | cpp_extensions/src/boolean/boolean_ops.cpp:479-539 | The groups partition the faces; a group holds edge neighbours that pass the coplanarity tests against its seed, and all that pass. |
| Retriangulation.GrowGroup | cpp_extensions/src/boolean/boolean_ops.cpp:490-535 | Every face of the group passes the tests against the seed and is reached over edges; unless the seed is degenerate, every ungrouped neighbour that passes is taken in. |
| Retriangulation.RetriCoplanarPatches | cpp_extensions/src/boolean/boolean_ops.cpp:460-756 | Every group is tried or has a reason not to be: one face, a border that does not close up, or no vertex in line. Exactly the faces of groups with triangles go, their new faces come last, all others stay in order; for every group tried the areas of new faces, border loops and old faces agree. |
| Retriangulation.PatchKeepsArea | cpp_extensions/src/boolean/boolean_ops.cpp:460-756 | A consistently wound group whose attempt lost nothing keeps its projected area in absolute value, and all its new faces are counter-clockwise in the projection, whichever way the old ones faced. |
| Retriangulation.FacesUp | cpp_extensions/src/boolean/boolean_ops.cpp:460-756 | The new faces of such a group cover the absolute value of the old area; so the patch shows its old side exactly if it did not face down. |
| FacingDown.PatchIsTried | cpp_extensions/src/boolean/boolean_ops.cpp:539-646 | A patch of two faces that face down, with a vertex in the middle of a side, has none of the reasons to be left alone. |
| FacingDown.PatchTurnsOver | cpp_extensions/src/boolean/boolean_ops.cpp:647-741 | Its old faces have area -2 in the projection, it is clipped, and whatever faces come back have area 2, unless the triangulator gave up a ring or cut off a corner. |
| Finalize.FinalizeResult | cpp_extensions/src/boolean/boolean_ops.cpp:781-789 | The four steps work one on what the other has made; the vertices do not become more, all indices stay in range, and the result has no negative volume and is consistent exactly if it can be oriented. |
| GeomUtils.PolygonIsValid | cpp_extensions/src/geom_utils/geom_utils.cpp:45-90 | The answer is, for every point list, that there are at least three points, the area is not zero, neighbouring edges have length and meet only at their common point, and no other two edges meet. |
| GeomUtils.FoldsBackExact | cpp_extensions/src/geom_utils/geom_utils.cpp:51-66 | The corner test fails exactly at corners whose two edges overlap. |
| Segments.OnSegmentExact | cpp_extensions/src/geom_utils/geom_utils.cpp:67-72 | The on_segment test holds exactly for the points of the segment. |
| Segments.TestsExact | cpp_extensions/src/geom_utils/geom_utils.cpp:34-88 | The strict crossing test and the four end tests together hold exactly if the closed segments have a common point. |
| GeomUtils.SignedArea | cpp_extensions/src/geom_utils/geom_utils.cpp:106-119 | The sum is the shoelace sum of the points, so twice the area. |
| FeatureEdges.ExtractFeatureEdges | cpp_extensions/src/mesh/feature_edges.cpp:109-173 | Whatever the hash orders: exactly the border edges and the edges that bend by more than the threshold, each once; an invalid mesh has none. |
| FeatureEdges.CollectFeatures | cpp_extensions/src/mesh/feature_edges.cpp:120-170 | The loop over the half edges collects exactly the feature edges, whatever the order. |
| FeatureEdges.BorderIsFeature | cpp_extensions/src/mesh/feature_edges.cpp:109-173 | Every border edge is a feature at whatever threshold. |
| LifecycleSafety.RunSafe | ost_visualizer/presentation/main_window.py:2607-2724 | In every state of every run: one token of a pending shutdown, exclusive flags, achievements in order, one final close at most and only once the shutdown is complete, and a deferral table of deferrable callbacks only. |
| LifecycleClose.FinalisedOnlyAfterAll | ost_visualizer/presentation/main_window.py:2607-2724 | A close is finalised only when, in the same attempt, persistence was flushed, mutations were drained and collaboration was closed; pending, complete and failed exclude each other. Between completion and the end the final close is posted exactly if maintenance has not turned it away. |
| LifecycleClose.CloseIsTurnedAway | ost_visualizer/presentation/main_window.py:2607-2724 | A run of six steps after which the shutdown is complete, the window is not closed, and nothing is posted or due: maintenance had turned the final close away. |
| LifecycleClose.StaysStep | ost_visualizer/presentation/main_window.py:2607-2668 | From such a state the user's next close outside maintenance closes the window for good, and every other step leaves it as it is. |
| LifecycleClose.StaysOpen | ost_visualizer/presentation/main_window.py:2607-2668 | So without such a close by the user the window is never closed. |
| LifecycleSafety.NoActionAfterTheEnd | ost_visualizer/presentation/main_window.py:1337-1351 | Once complete or finalised, a run carries out no further deferrable action and stays so; a failure at the last stage is never left. |
| LifecycleQueue.RunConserved | ost_visualizer/presentation/main_window.py:877-1050 | In every run every import argument is waiting, on its way, delivered or lost, as often as it was enqueued. |
| LifecycleQueue.NoLostWakeup | ost_visualizer/presentation/main_window.py:899-918 | In every run, with arguments waiting, loading done, the window ready and no shutdown under way, a batch is running or a job that looks at the queue is posted, also after shutdowns that were given up. |
| LifecycleFlight.SecondFlight | ost_visualizer/presentation/main_window.py:920-963 | A step puts a second batch under way exactly when a posted run takes off while a batch or its completion is outstanding. |
| LifecycleFlight.OneBatchAtATime | ost_visualizer/presentation/main_window.py:920-1050 | If no shutdown that is given up holds a run ahead of a completion, at most one batch is under way in all states of the run and nothing is lost before the end. |
| LifecycleLoss.RunLossStep | ost_visualizer/presentation/main_window.py:1343-1351 | In every run, short of the end, a step loses arguments exactly when it holds a completion back while one with arguments is in the table. |
| LifecycleLoss.RunHoldsOne | ost_visualizer/presentation/main_window.py:1343-1351 | In every run the table holds one completion at most. |
| LifecycleLoss.RunDecides | ost_visualizer/presentation/main_window.py:1353-1371 | When the first shutdown is given up that holds back anything out of order: from there a second batch can come under way, before another one is given up, exactly when a run was held ahead of a completion; and arguments can be lost before the end exactly when, moreover, the shutdown has not failed at its last stage. |
| LifecycleLoss.AfterResume | ost_visualizer/presentation/main_window.py:1353-1371 | The same from every orderly state. |
| LifecycleTrace.SecondBatchIsLost | ost_visualizer/presentation/main_window.py:1343-1371 | A run of twenty-one steps in which two batches are under way after eighteen, and the second is lost although the window has not been closed. |
| MainWindow.MainWindow.constructor | ost_visualizer/presentation/main_window.py:157-166 | The window starts in the initial state, which has what every run keeps. |
| MainWindow.MainWindow.Arrives | ost_visualizer/presentation/main_window.py:899-903 | An arriving argument is one step of the run, and what every run keeps still holds. |
| MainWindow.MainWindow.UserCloses | ost_visualizer/presentation/main_window.py:2607-2668 | A close by the user is one step of the run; it is accepted only after a completed shutdown, flushed, drained and closed. |
| MainWindow.MainWindow.DrainReports | ost_visualizer/presentation/main_window.py:2688-2707 | The report of a drain that is due is one step of the run, and what every run keeps still holds. |
| MainWindow.MainWindow.ShutdownReports | ost_visualizer/presentation/main_window.py:2709-2724 | The report of collaboration that is due is one step of the run, and what every run keeps still holds. |
| MainWindow.MainWindow.BatchEnds | ost_visualizer/presentation/main_window.py:1025-1050 | The end of any batch under way is one step of the run, and what every run keeps still holds. |
| MainWindow.MainWindow.PostAction | ost_visualizer/presentation/main_window.py:1343-1351 | Posting any other deferrable action is one step of the run, and what every run keeps still holds. |
| MainWindow.MainWindow.DispatchNext | ost_visualizer/presentation/main_window.py:736-758 | Taking the next posted callback, whatever it is, is one step of the run, and what every run keeps still holds. |
| MainWindow.MainWindow.StoreDeferred | ost_visualizer/presentation/main_window.py:1343-1351 | A callback is entered in the place of one with its key, or last. |
| MainWindow.MainWindow.ResumeDeferred | ost_visualizer/presentation/main_window.py:1353-1371 | Loading and showing are posted first, then the rest in order, and the table is empty. |
| MainWindow.MainWindow.CloseWindow | ost_visualizer/presentation/main_window.py:2607-2668 | The close event, and that it is accepted exactly if no maintenance goes on and the close is finalised. |
| LruThreads.CacheIsExact | ost_visualizer/infrastructure/pdf_metadata_provider.py:87-132 | With any number of threads between lookup and store, in every run: the cache holds the last 512 distinct keys by order of use, with the reader's values, and every answer is the reader's. |
| LruCache.StoreHolds | ost_visualizer/infrastructure/pdf_metadata_provider.py:87-91 | Storing the reader's value for a key keeps the cache equal to the most recent keys of the touches, up to the capacity. |
| LruCache.CacheKeyOf | ost_visualizer/infrastructure/pdf_metadata_provider.py:78-85 | The key names the path, an empty one if it is missing, the signature, and the page, the first one if it is negative. |
| PdfMetadata.OrderedDict.StoreLru | ost_visualizer/infrastructure/pdf_metadata_provider.py:87-91 | The entry moves to the end and the oldest one beyond the capacity goes. |
| PdfMetadata.ValueCache.Get | ost_visualizer/infrastructure/pdf_metadata_provider.py:93-104 | The answer is the reader's, and the cache stays in order of use. |
| PdfMetadata.ListCache.Store | ost_visualizer/infrastructure/pdf_metadata_provider.py:106-132 | What the caller gets is a copy that the cache does not hold, and the cache holds one of its own. |
| PdfMetadata.ListCache.LookUp | ost_visualizer/infrastructure/pdf_metadata_provider.py:106-132 | A hit exactly if the key is cached, with a fresh copy of the reader's list, and the cache stays in order of use. |
| PdfMetadata.ListCache.CallerWrites | ost_visualizer/infrastructure/pdf_metadata_provider.py:106-132 | Whatever a caller does to a list it was given, the cache does not notice. |
| Sampler.StratifiedSample | tools/ai_takeoff_corpus.py:289-360 | Different eligible rows, at most the number asked for but at least one if there is one, the first a largest; fewer than asked for means all of them; a project gets a second row only when every project has one. No more come back than were asked for exactly if some were asked for or none is eligible. For all shuffles and ties. |
| Sampler.NoneAskedFor | tools/ai_takeoff_corpus.py:289-360 | With one eligible row and none asked for, that row comes back. |
| Sampler.Sample.TakeLarge | tools/ai_takeoff_corpus.py:304-318 | The first phase takes largest rows, at most one for each project, until the limit or until every project with rows is covered. |
| Sampler.Sample.Pass | tools/ai_takeoff_corpus.py:329-360 | A pass over the years takes a row, or every project is exhausted. |

## Left out

- Rounding, infinities, NaN and signed zero: coordinates are reals, and the finiteness tests always pass.
- Single precision in the snapping step, square roots, arc cosines and normalised vectors: the tolerance tests are parameters.
- Integer widths, except that vertex numbers stay below the marker for an unset one.
- The node pool and bit fields of the triangulator.
- Earcut.Earcut.Triangulate: does not follow a run beyond a hole that strands the ring, because the source goes on there on links that form no ring and need not end; it says which rings these are.
- Earcut.Earcut.EliminateHole: the condition on the points under which the ring survives is sufficient; the exact one is on the seam, which is known between the two calls (Astray.GivesBackIff).
- Astray.NeverBack: speaks of the ring of the first call; that the walk could end on a whole ring of other vertices is not excluded.
- LostRing.NoRingLeft: the two calls are followed on numbered links, one turn of the loop after the other (LinkWalk.Step), not by calling the methods on nodes.
- FacingDown.PatchTurnsOver: that the triangulator neither gives up a ring nor cuts off a corner there is a premise.
- Earcut.Earcut.CureLoop: the corner lost at a crossing is booked in the account, not shown to be small.
- Collapse.CollapseShortEdges: does not say that the result is a sensible mesh where corners are not settled, because it is none.
- Retriangulation.RetriCoplanarPatches: says nothing about what the coplanarity and collinearity tests measure.
- FeatureEdges.ExtractFeatureEdges: whether a mesh is valid is a parameter, as mesh_data.hpp is not part of this model.
- MainWindow.MainWindow.DispatchNext: the import itself is not modelled; it answers at once or later, as the event says.
- PdfMetadata.ValueCache.Get: the reader does not fail; reading files and locks are not modelled, and LruThreads has the threads.
- Sampler.StratifiedSample: shuffles are arbitrary orders, and the random generator is not modelled.
- The calls into the boolean engine, the drawing code, the windows' contents, dialogs and logging.
- Cleaning up the services after the last close, and exceptions in it.
