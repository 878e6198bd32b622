# Octree spatial partition, modelled in Dafny

This project models the spatial-partition engine of the point-cloud viewer in
`octree/src/lib.rs`. The engine has three parts:

- **Octree::new** builds a fixed tree over the box `[0, size]^3`: a root Cube, 8 Cubes, 64
  Spheres, and 512 leaf Spheres.
- **import** fans a whole point batch out to every node. At a childless Sphere, it appends each
  point that lies strictly inside that Sphere's window (centre ± radius on every axis).
- **export** flattens the tree depth-first, children in order 0..7. A Sphere's own points come
  out before its children's.

Coordinates are exact `real`s, so halving, thirds and strict comparisons are exact.

## How the model is organised

- `geometry.dfy` (`Geometry`) covers the 8-corner box layout (`gen_cube`), the box centre
  (`cube_middle`) and the octant split (`octree_divide_into_cube`). It also has lemmas that
  the octants are half-size cubes inside their parent and do not overlap.
- `nodes.dfy` (`OctreeNodes`) has the `OctreeNode` enum as the datatype `Node`, with
  `OctreeCube` and `OctreeSphere`.
  - Each node is owned by exactly one parent. So the `&mut self` operations (`set_nodes`,
    `add_data_point`, `divide_into_*`) are functions that return the updated node.
  - `OctreeNode::import` and `OctreeNode::export` are methods with the source's loops. They are
    proved against the functions `Imported` and `Flattened`.
- `partition.dfy` (`Partition`) counts how many leaf windows hold a point (`Hits`).
  - It proves that import followed by export yields each input occurrence `Hits` times.
  - In a tree whose boxes nest and do not overlap (`Partitioned`), `Hits` is at most 1.
- `octree.dfy` (`Octrees`) holds `struct Octree` as the class `Octree`, and the tree that
  `Octree::new` builds as the function `NewTree`.
  - The two nested loops of `Octree::new` are the methods `DivideLevels` (outer) and
    `DivideAll` (inner).
  - It proves the shape of the new tree (585 nodes, 512 leaves), that the new tree is empty,
    and that it is partitioned.
- `octree_import.dfy` (`OctreeImport`) proves what a single import into a new tree stores.
  - Every input occurrence is stored at most once.
  - It is stored exactly once when it lies in a leaf window, and otherwise not at all.

Two properties of the code's geometry shape what import keeps:

- **No point is stored twice.** Every leaf window (centre ± h/3 in an octant of edge h) lies
  strictly inside its own octant (`OctreeNodes.SphereChildWindow`, `Partition.HitsBound`).
- **Most of the volume is never stored.** A leaf accepts only the middle two thirds of its box
  on each axis. For example, for size 8 the points (0.1, 0.1, 0.1), (7.9, 7.9, 7.9) and
  (4, 4, 4) are all dropped (`OctreeImport.CornersAndCentreDropped`, stated for every positive
  size with the points scaled by size/8).

## Model

| member | source | states |
|---|---|---|
| Geometry.GenCube | octree/src/lib.rs:288-299 | the corners have origin (x, y, z) and edge size; corner i is the origin moved by the fixed table: 0 origin, 1 +y, 2 +x+y, 3 +x, and 4..7 are the same four moved by +z |
| Geometry.GenCubeIsCube | octree/src/lib.rs:288-299 | every gen_cube result is the cube its own origin and edge determine |
| Geometry.GenCubeCorners | octree/src/lib.rs:288-299 | corners 0 and 3 differ only in x, 0 and 1 only in y, 0 and 4 only in z, each by size; with size ≠ 0 the 8 corners are pairwise distinct |
| Geometry.CubeMiddle | octree/src/lib.rs:276-286 | cube_middle is the midpoint between corner 0 and the point one edge further along every axis |
| Geometry.CubeMiddleIsCentre | octree/src/lib.rs:276-286 | cube_middle of a cube is the midpoint of its diagonal (corners 0 and 6), and lies strictly inside the cube when the edge is positive |
| Geometry.DivideCorners | octree/src/lib.rs:373-394 | each of the 8 octants is a cube of half the parent's edge; octant i's origin is corner i of the half-size cube at the parent's origin |
| Geometry.DivideCornersListed | octree/src/lib.rs:373-394 | the octants are exactly the eight gen_cube calls of the source, each axis at start or middle, in the source's order |
| Geometry.OctantListed | octree/src/lib.rs:373-394 | octant i is the gen_cube of half the edge whose origin is corner i of the half-size cube at the parent origin |
| Geometry.OctantOrigin | octree/src/lib.rs:373-394 | octant i's origin is the parent origin moved by half the edge along the axes of corner i, and its edge is half the parent's |
| Geometry.OctantWithin | octree/src/lib.rs:373-394 | for a non-negative edge, every octant is a cube inside the parent, and all its corners lie in the parent's closed box |
| Geometry.OctantsApart | octree/src/lib.rs:373-394 | for a positive edge, two distinct octants are separated along some axis, and their origins differ |
| OctreeNodes.CubePoints | octree/src/lib.rs:102-111 | cube_points returns the box of the node, whether it is a Cube or a Sphere |
| OctreeNodes.NodesRef | octree/src/lib.rs:113-133 | nodes_ref and nodes_mut return the node's children, and each child is strictly smaller than the node, so the tree is finite |
| OctreeNodes.Child | octree/src/lib.rs:91-100 | node(i) returns child i; a node without children or an index out of range is excluded, as the source panics there |
| OctreeNodes.SetNodes | octree/src/lib.rs:135-144 | the children become the given array; kind, box, centre, radius and data are unchanged |
| OctreeNodes.AddDataPoint | octree/src/lib.rs:146-154 | a Sphere's data gains the point at the end; a Cube holds no data and gains none; children, box, centre and radius never change |
| OctreeNodes.SphereIsInside | octree/src/lib.rs:239-248 | a Sphere accepts a point exactly when the point is less than radius away from the centre on each of x, y and z |
| OctreeNodes.IsInside | octree/src/lib.rs:156-165 | only a Sphere can accept a point: is_inside on a Cube is false |
| OctreeNodes.InsideBoundary | octree/src/lib.rs:239-248 | the test is strict on each of x, y and z: the points centre ± radius along that axis are outside, and a point offset from the centre along that axis is inside exactly when the offset is below the radius |
| OctreeNodes.InsideWithinBox | octree/src/lib.rs:239-248 | a Sphere whose window lies within its box accepts only points strictly inside that box |
| OctreeNodes.CubeFromCluster | octree/src/lib.rs:261-273 | 8 childless Cubes, child i on octant i |
| OctreeNodes.SphereFromCluster | octree/src/lib.rs:213-237 | 8 empty, childless Spheres, child i on octant i, centred by cube_middle, all with radius \|y extent of octant 0's first edge\| / 3 |
| OctreeNodes.CubeIntoCluster | octree/src/lib.rs:256-259 | 8 childless Cubes, child i on octant i, each of half the parent's edge |
| OctreeNodes.SphereIntoCluster | octree/src/lib.rs:208-211 | 8 empty, childless Spheres, child i on octant i and centred at cube_middle of that octant |
| OctreeNodes.ClusterRadius | octree/src/lib.rs:213-214 | the radius read off octant 0's first edge is a sixth of the parent's edge, for either sign |
| OctreeNodes.SphereChildGeometry | octree/src/lib.rs:208-237 | Sphere child i of a box of edge e sits on octant i, has centre = octant origin + e/4 on every axis and radius \|e\|/6, and is empty and childless |
| OctreeNodes.SphereChildWindow | octree/src/lib.rs:213-214 | for a positive edge, child i's window lies strictly inside octant i on every axis |
| OctreeNodes.DivideIntoCubes | octree/src/lib.rs:77-83 | the node gets 8 childless Cube children on its octants, in order; its own fields are unchanged |
| OctreeNodes.DivideIntoSpheres | octree/src/lib.rs:85-89 | the node gets 8 empty, childless Sphere children on its octants, in order; its own fields are unchanged |
| OctreeNodes.Divide | octree/src/lib.rs:66-75 | the node gets 8 childless children of its own kind, child i on octant i of its box; its own fields are unchanged |
| OctreeNodes.Caught | octree/src/lib.rs:174-178 | the points a leaf accepts come from the batch and pass is_inside; a Cube accepts none |
| OctreeNodes.CaughtCount | octree/src/lib.rs:174-178 | each occurrence of a point in the batch is accepted exactly when is_inside holds for it |
| OctreeNodes.CaughtAllInside | octree/src/lib.rs:174-178 | when every point passes is_inside, the leaf accepts the whole batch in input order |
| OctreeNodes.CaughtAppend | octree/src/lib.rs:174-178 | accepting a concatenated batch accepts each part in turn, so input order is kept |
| OctreeNodes.Imported | octree/src/lib.rs:167-180 | import changes no box, centre, radius or child structure; a leaf's data grows by exactly the points it accepts, in input order; an inner node's own data is unchanged |
| OctreeNodes.ImportedAll | octree/src/lib.rs:169-172 | import on a child array keeps its length, and each child keeps its kind and its box |
| OctreeNodes.Import | octree/src/lib.rs:167-180 | the loop over the children, or over the batch at a leaf, computes Imported |
| OctreeNodes.ImportAll | octree/src/lib.rs:169-172 | the loop over the children, importing into each in place, computes ImportedAll |
| OctreeNodes.Export | octree/src/lib.rs:182-200 | the output keeps its prefix and gains the node's own data, then each child's export in order 0..7 |
| OctreeNodes.ExportAll | octree/src/lib.rs:185-197 | the loop over the children appends each child's export, in order 0..7, to the output |
| Partition.ImportCount | octree/src/lib.rs:167-180 | after import, export yields every point as often as before, plus (number of leaf windows holding it) × (its occurrences in the batch) |
| Partition.ImportCountAll | octree/src/lib.rs:169-172 | the same count over an array of children |
| Partition.HitsBound | octree/src/lib.rs:167-180 | in a tree whose boxes nest and do not overlap, at most one leaf window holds any point, and that point is strictly inside the root box |
| Partition.HitsAllBound | octree/src/lib.rs:169-172 | over non-overlapping siblings, at most one holds the point, and then the point is strictly inside that sibling's box |
| Partition.HitsAllOnly | octree/src/lib.rs:169-172 | a point strictly inside sibling i's box can be held by sibling i only |
| Partition.HitsDescend | octree/src/lib.rs:167-172 | a point strictly inside child i's box is held by the node exactly as child i holds it |
| Partition.HitsAllZero | octree/src/lib.rs:169-172 | if no child holds a point, neither does the parent |
| Partition.NothingHeld | octree/src/lib.rs:167-180 | an empty tree that holds none of the batch's points stays empty after importing it |
| Partition.ImportAtMostOnce | octree/src/lib.rs:167-180 | importing into a partitioned tree adds to export a sub-multiset of the batch, so the output grows by at most the batch length |
| Partition.ImportKeepsPartitioned | octree/src/lib.rs:167-180 | a partitioned tree stays partitioned after import, so repeated imports also store each occurrence at most once |
| Octrees.DivideEach | octree/src/lib.rs:39-41 | every box of the array divided into spheres, in order: the value the inner construction loop (DivideAll) produces |
| Octrees.NewTree | octree/src/lib.rs:31-51 | the tree Octree::new builds is a Cube on gen_cube(0, 0, 0, size) with children; its shape, emptiness and partition are the NewTree lemmas below |
| Octrees.DivideAll | octree/src/lib.rs:39-41 | the inner construction loop computes DivideEach |
| Octrees.DivideLevels | octree/src/lib.rs:36-42 | the outer construction loop divides each first-level box into spheres, then each new sphere again |
| Octrees.Octree.constructor | octree/src/lib.rs:31-51 | Octree::new builds NewTree(size): a root Cube on gen_cube(0, 0, 0, size) whose children are the divided first-level Cubes |
| Octrees.Octree.Import | octree/src/lib.rs:53-56 | the root becomes Imported(old root, batch), with the same skeleton |
| Octrees.Octree.Export | octree/src/lib.rs:58-62 | returns Flattened(root) without modifying the tree, so two successive exports are equal |
| Octrees.ShapedCounts | octree/src/lib.rs:31-51 | a complete 8-ary tree of L levels has FullNodes(L) nodes and FullLeaves(L) leaves |
| Octrees.DivideIntoSpheresShaped | octree/src/lib.rs:85-89 | divide_into_spheres gives a two-level tree whose 8 children are Sphere leaves |
| Octrees.DividedTwiceShaped | octree/src/lib.rs:36-42 | a first-level box after construction has 8 Sphere children, each with 8 Sphere leaves |
| Octrees.NewTreeShape | octree/src/lib.rs:31-51 | the new tree has levels Cube, Cube, Sphere, Sphere with 8 children per inner node: 585 nodes, 512 leaves |
| Octrees.DivideIntoSpheresEmpty | octree/src/lib.rs:85-89 | dividing an empty node into spheres leaves it holding no points |
| Octrees.DividedTwiceEmpty | octree/src/lib.rs:36-42 | a first-level box after construction holds no points |
| Octrees.NewTreeEmpty | octree/src/lib.rs:31-51 | export of a new tree is empty |
| Octrees.SetNodesPartitioned | octree/src/lib.rs:135-144 | a box of positive edge whose 8 children sit on its octants and are partitioned is itself partitioned |
| Octrees.DivideIntoSpheresPartitioned | octree/src/lib.rs:85-89 | dividing a box of positive edge into spheres gives a partitioned node, every leaf window inside its octant |
| Octrees.DividedTwicePartitioned | octree/src/lib.rs:36-42 | a first-level box of positive edge is partitioned after construction |
| Octrees.NewTreePartitioned | octree/src/lib.rs:31-51 | for a positive size, the boxes of the new tree nest and do not overlap |
| OctreeImport.ImportIntoNewTree | octree/src/lib.rs:53-62 | one import into a new tree followed by export yields a sub-multiset of the batch, no longer than the batch |
| OctreeImport.ImportIntoNewTreeCount | octree/src/lib.rs:53-62 | each point comes out exactly as often as it went in when a leaf window holds it, and not at all otherwise |
| OctreeImport.LeafBoxOrigin | octree/src/lib.rs:373-394 | the box of leaf (i, j, k) has edge size/8, and its origin is reached by corner offsets of size/2, size/4 and size/8 |
| OctreeImport.NewTreeLeafPath | octree/src/lib.rs:31-51 | a point strictly inside leaf box (i, j, k) is held by the tree exactly as that leaf holds it |
| OctreeImport.LeafWindow | octree/src/lib.rs:213-248 | the leaf Sphere on an octant of edge e holds a point exactly when it lies within (e/6, 5e/6) of the octant origin on every axis |
| OctreeImport.NewTreeLeafHits | octree/src/lib.rs:167-180 | a point strictly inside a leaf box of the new tree is held once if it lies in the middle two thirds of that box on every axis, and not at all otherwise |
| OctreeImport.MiddleOnOctantBoundary | octree/src/lib.rs:276-286 | the centre of a box lies in none of its open octants |
| OctreeImport.MiddleDropped | octree/src/lib.rs:167-180 | a partitioned node whose children sit on its octants holds nothing at its own centre |
| OctreeImport.NewTreeFirstLevel | octree/src/lib.rs:31-51 | the root of a new tree is gen_cube(0, 0, 0, size) with 8 children, and first-level node i sits on octant i of the root box |
| OctreeImport.CentreDropped | octree/src/lib.rs:31-51 | the centre of the root box is held by no leaf |
| OctreeImport.LeafCentreKept | octree/src/lib.rs:53-62 | the centre of leaf 0, (size/16, size/16, size/16), is held by exactly one leaf and comes out of export as often as it went in |
| OctreeImport.NearOriginDropped | octree/src/lib.rs:167-180 | the point a tenth of a leaf edge from the root origin is held by no leaf |
| OctreeImport.NearFarCornerDropped | octree/src/lib.rs:167-180 | the point a tenth of a leaf edge from the far root corner is held by no leaf |
| OctreeImport.CornersAndCentreDropped | octree/src/lib.rs:53-62 | importing those two points and the root centre into a new tree exports nothing |

## Left out

- `gen_sphere` and the `sphere_points` field (octree/src/lib.rs:301-371) are left out. They
  use `sin`/`cos` to build decorative vertices, and nothing in import, export or containment
  reads them.
- `f32` arithmetic and rounding are not modelled. Coordinates are exact reals, and the
  containment and disjointness lemmas hold under exact arithmetic. Non-finite coordinates
  (NaN, infinities) have no counterpart.
- In-place mutation through `&mut` borrows is modelled by values. Rust's ownership rules out
  aliasing between nodes, so no behaviour is lost. Only `Octree` is a class with a mutable
  `root`.
- The panics of `node(i)` and of `nodes_mut().unwrap()` in `Octree::new` are preconditions,
  not modelled failures. In `Octree::new` the unwrap always succeeds, because
  `divide_into_spheres` has just set the children.
- The theorems about the new tree assume a positive size. For size ≤ 0 the source builds
  degenerate boxes and windows, and the model only describes the tree it builds.
- The dropped-point lemmas (`OctreeImport.NearOriginDropped`, `NearFarCornerDropped`,
  `CornersAndCentreDropped`) are stated for every positive size, with the points scaled by
  size/8, and not at the literal size 8. Fixing the size to a literal makes the solver unfold
  the whole concrete tree.
- `las_viewer/src/main.rs` (window, camera, mesh and texture set-up over the rendering
  library) and the point-cloud loader are not part of this model.
- Concurrency is not modelled. The engine is single-threaded. The cost of re-passing the
  whole batch to every node is not modelled either, since it affects time, not results.
