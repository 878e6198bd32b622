/**
 * The Octree: a root Cube over [0, size]^3, pre-divided on construction into 8 Cubes, each
 * holding 8 Spheres, each holding 8 leaf Spheres. Points are imported into the leaf windows
 * that contain them and exported in tree order.
 */
module Octrees {
  import opened Geometry
  import opened OctreeNodes
  import opened Partition

  /** Every box of a batch divided into spheres, as the inner construction loop does. */
  function DivideEach(kids: seq<Node>): (r: seq<Node>)
    ensures |r| == |kids|
    ensures forall i | 0 <= i < |kids| :: r[i] == DivideIntoSpheres(kids[i])
  {
    seq(|kids|, i requires 0 <= i < |kids| => DivideIntoSpheres(kids[i]))
  }

  /** A first-level box after one pass of the outer construction loop. */
  function DividedTwice(n: Node): Node {
    var m := DivideIntoSpheres(n);
    SetNodes(m, DivideEach(NodesRef(m).nodes))
  }

  /** The tree Octree::new builds for an edge length. */
  function NewTree(size: real): (t: Node)
    ensures t.Cube? && CubePoints(t) == GenCube(0.0, 0.0, 0.0, size) && NodesRef(t).Children?
  {
    var corners := GenCube(0.0, 0.0, 0.0, size);
    var level1 := CubeIntoCluster(corners);
    Cube(OctreeCube(corners, Children(seq(8, i requires 0 <= i < 8 => DividedTwice(level1[i])))))
  }

  /** The inner construction loop: every node of the batch is divided into spheres, in place. */
  method DivideAll(kids: seq<Node>) returns (r: seq<Node>)
    ensures r == DivideEach(kids)
  {
    r := kids;
    for j := 0 to |kids|
      invariant |r| == |kids|
      invariant forall k | 0 <= k < j :: r[k] == DivideIntoSpheres(kids[k])
      invariant forall k | j <= k < |kids| :: r[k] == kids[k]
    {
      r := r[j := DivideIntoSpheres(r[j])];
    }
  }

  /** The outer construction loop: every first-level node is divided twice, in place. */
  method DivideLevels(level1: seq<Node>) returns (nodes: seq<Node>)
    ensures |nodes| == |level1|
    ensures forall k | 0 <= k < |level1| :: nodes[k] == DividedTwice(level1[k])
  {
    nodes := level1;
    for i := 0 to |level1|
      invariant |nodes| == |level1|
      invariant forall k | 0 <= k < i :: nodes[k] == DividedTwice(level1[k])
      invariant forall k | i <= k < |level1| :: nodes[k] == level1[k]
    {
      var node := DivideIntoSpheres(nodes[i]);
      var kids := DivideAll(NodesRef(node).nodes);
      node := SetNodes(node, kids);
      assert node == DividedTwice(level1[i]);
      nodes := nodes[i := node];
    }
  }

  class Octree {
    var root: Node

    /** Octree::new: the root box, its 8 first-level Cubes, and the two nested division loops. */
    constructor (size: real)
      ensures root == NewTree(size)
    {
      var corners := GenCube(0.0, 0.0, 0.0, size);
      var nodes := CubeIntoCluster(corners);
      ghost var level1 := nodes;
      nodes := DivideLevels(nodes);
      assert nodes == seq(8, i requires 0 <= i < 8 => DividedTwice(level1[i]));
      root := Cube(OctreeCube(corners, Children(nodes)));
    }

    /** Octree::import: the root imports the batch; the shape of the tree does not change. */
    method Import(data: seq<Point>)
      modifies this
      ensures root == Imported(old(root), data)
      ensures Skeleton(root) == Skeleton(old(root))
    {
      root := OctreeNodes.Import(root, data);
    }

    /** Octree::export: all stored points, in tree order, without changing the tree. */
    method Export() returns (output: seq<Point>)
      ensures output == Flattened(root)
    {
      output := OctreeNodes.Export(root, []);
    }
  }

  // ---------------------------------------------------------------------------------------
  // The shape of a new tree

  datatype Kind = CubeKind | SphereKind

  function KindOf(n: Node): Kind {
    if n.Cube? then CubeKind else SphereKind
  }

  /**
   * n is a complete tree with one level per entry of levels, every node on level k of kind
   * levels[k], and every inner node with exactly 8 children.
   */
  ghost predicate Shaped(n: Node, levels: seq<Kind>)
    decreases n
  {
    && |levels| > 0 && KindOf(n) == levels[0]
    && match NodesRef(n)
       case NoChildren => |levels| == 1
       case Children(kids) =>
         |levels| > 1 && |kids| == 8 && forall i | 0 <= i < 8 :: Shaped(kids[i], levels[1..])
  }

  /** The levels Octree::new builds: root Cube, 8 Cubes, 64 Spheres, 512 leaf Spheres. */
  const Levels: seq<Kind> := [CubeKind, CubeKind, SphereKind, SphereKind]

  function NodeCount(n: Node): nat
    decreases n, 1
  {
    1 + match NodesRef(n)
      case NoChildren => 0
      case Children(kids) => NodeCountAll(kids)
  }

  function NodeCountAll(kids: seq<Node>): nat
    decreases kids, 0
  {
    if kids == [] then 0 else NodeCountAll(kids[..|kids| - 1]) + NodeCount(kids[|kids| - 1])
  }

  function LeafCount(n: Node): nat
    decreases n, 1
  {
    match NodesRef(n)
    case NoChildren => 1
    case Children(kids) => LeafCountAll(kids)
  }

  function LeafCountAll(kids: seq<Node>): nat
    decreases kids, 0
  {
    if kids == [] then 0 else LeafCountAll(kids[..|kids| - 1]) + LeafCount(kids[|kids| - 1])
  }

  /** Nodes of a complete 8-ary tree with the given number of levels. */
  function FullNodes(levels: nat): nat {
    if levels <= 1 then levels else 1 + 8 * FullNodes(levels - 1)
  }

  /** Leaves of a complete 8-ary tree with the given (positive) number of levels. */
  function FullLeaves(levels: nat): nat {
    if levels <= 1 then 1 else 8 * FullLeaves(levels - 1)
  }

  /** A complete tree has the node and leaf count its number of levels gives. */
  lemma {:induction false} ShapedCounts(n: Node, levels: seq<Kind>)
    requires Shaped(n, levels)
    ensures NodeCount(n) == FullNodes(|levels|)
    ensures LeafCount(n) == FullLeaves(|levels|)
    decreases n, 1
  {
    match NodesRef(n)
    case NoChildren =>
    case Children(kids) =>
      ShapedCountsAll(kids, levels[1..], 8);
      assert kids[..8] == kids;
      assert |levels[1..]| == |levels| - 1;
  }

  lemma {:induction false} ShapedCountsAll(kids: seq<Node>, levels: seq<Kind>, k: nat)
    requires k <= |kids|
    requires forall i | 0 <= i < |kids| :: Shaped(kids[i], levels)
    ensures NodeCountAll(kids[..k]) == k * FullNodes(|levels|)
    ensures LeafCountAll(kids[..k]) == k * FullLeaves(|levels|)
    decreases kids, 0, k
  {
    if k == 0 {
      assert kids[..k] == [];
    } else {
      assert kids[..k][..k - 1] == kids[..k - 1];
      ShapedCountsAll(kids, levels, k - 1);
      ShapedCounts(kids[k - 1], levels);
      assert NodeCountAll(kids[..k]) == NodeCountAll(kids[..k - 1]) + NodeCount(kids[k - 1]);
      assert LeafCountAll(kids[..k]) == LeafCountAll(kids[..k - 1]) + LeafCount(kids[k - 1]);
      OneMore(k, FullNodes(|levels|));
      OneMore(k, FullLeaves(|levels|));
    }
  }

  /** The arithmetic step of ShapedCountsAll. */
  lemma OneMore(k: nat, f: nat)
    requires k > 0
    ensures (k - 1) * f + f == k * f
  {
  }

  /** The children DivideIntoSpheres gives are single-level sphere trees. */
  lemma {:induction false} DivideIntoSpheresShaped(n: Node)
    ensures Shaped(DivideIntoSpheres(n), [KindOf(n), SphereKind])
  {
    var r := DivideIntoSpheres(n);
    assert [KindOf(n), SphereKind][1..] == [SphereKind];
    forall i | 0 <= i < 8
      ensures Shaped(NodesRef(r).nodes[i], [SphereKind])
    {
    }
  }

  lemma {:induction false} DividedTwiceShaped(n: Node)
    ensures Shaped(DividedTwice(n), [KindOf(n), SphereKind, SphereKind])
  {
    var m := DivideIntoSpheres(n);
    var kids := DivideEach(NodesRef(m).nodes);
    assert [KindOf(n), SphereKind, SphereKind][1..] == [SphereKind, SphereKind];
    forall i | 0 <= i < 8
      ensures Shaped(kids[i], [SphereKind, SphereKind])
    {
      DivideIntoSpheresShaped(NodesRef(m).nodes[i]);
    }
  }

  /** Octree::new builds 4 levels: a root Cube, 8 Cubes, 64 Spheres and 512 leaf Spheres. */
  lemma {:induction false} NewTreeShape(size: real)
    ensures Shaped(NewTree(size), Levels)
    ensures NodeCount(NewTree(size)) == 585
    ensures LeafCount(NewTree(size)) == 512
  {
    var t := NewTree(size);
    var level1 := CubeIntoCluster(GenCube(0.0, 0.0, 0.0, size));
    assert Levels[1..] == [CubeKind, SphereKind, SphereKind];
    forall i | 0 <= i < 8
      ensures Shaped(NodesRef(t).nodes[i], Levels[1..])
    {
      DividedTwiceShaped(level1[i]);
    }
    ShapedCounts(t, Levels);
  }

  // ---------------------------------------------------------------------------------------
  // A new tree holds no points

  lemma {:induction false} EmptyAll(kids: seq<Node>)
    requires forall i | 0 <= i < |kids| :: Flattened(kids[i]) == []
    ensures FlattenedAll(kids) == []
    decreases |kids|
  {
    if kids != [] {
      EmptyAll(kids[..|kids| - 1]);
    }
  }

  lemma {:induction false} DivideIntoSpheresEmpty(n: Node)
    requires Data(n) == []
    ensures Flattened(DivideIntoSpheres(n)) == []
  {
    var kids := NodesRef(DivideIntoSpheres(n)).nodes;
    forall i | 0 <= i < |kids|
      ensures Flattened(kids[i]) == []
    {
    }
    EmptyAll(kids);
  }

  lemma {:induction false} DividedTwiceEmpty(n: Node)
    requires Data(n) == []
    ensures Flattened(DividedTwice(n)) == []
  {
    var m := DivideIntoSpheres(n);
    var kids := DivideEach(NodesRef(m).nodes);
    forall i | 0 <= i < |kids|
      ensures Flattened(kids[i]) == []
    {
      DivideIntoSpheresEmpty(NodesRef(m).nodes[i]);
    }
    EmptyAll(kids);
  }

  /** Exporting a new tree yields nothing. */
  lemma {:induction false} NewTreeEmpty(size: real)
    ensures Flattened(NewTree(size)) == []
  {
    var t := NewTree(size);
    var level1 := CubeIntoCluster(GenCube(0.0, 0.0, 0.0, size));
    var kids := NodesRef(t).nodes;
    forall i | 0 <= i < |kids|
      ensures Flattened(kids[i]) == []
    {
      DividedTwiceEmpty(level1[i]);
    }
    EmptyAll(kids);
  }

  // ---------------------------------------------------------------------------------------
  // A new tree of positive size is partitioned

  /** Giving a box children on its octants, each partitioned, leaves it partitioned. */
  lemma {:induction false} SetNodesPartitioned(n: Node, kids: seq<Node>)
    requires Edge(CubePoints(n)) > 0.0 && |kids| == 8
    requires forall i | 0 <= i < 8 ::
      CubePoints(kids[i]) == DivideCorners(CubePoints(n))[i] && Partitioned(kids[i])
    ensures Partitioned(SetNodes(n, kids))
  {
    var c := CubePoints(n);
    forall i | 0 <= i < 8
      ensures BoxWithin(CubePoints(kids[i]), c)
    {
      OctantWithin(c, i);
    }
    forall i, j | 0 <= i < j < 8
      ensures Apart(CubePoints(kids[i]), CubePoints(kids[j]))
    {
      OctantsApart(c, i, j);
    }
  }

  lemma {:induction false} DivideIntoSpheresPartitioned(n: Node)
    requires Edge(CubePoints(n)) > 0.0
    ensures Partitioned(DivideIntoSpheres(n))
  {
    var c := CubePoints(n);
    var kids := SphereIntoCluster(c);
    forall i | 0 <= i < 8
      ensures CubePoints(kids[i]) == DivideCorners(c)[i] && Partitioned(kids[i])
    {
      SphereChildGeometry(c, i);
      SphereChildWindow(c, i);
    }
    SetNodesPartitioned(n, kids);
  }

  lemma {:induction false} DividedTwicePartitioned(n: Node)
    requires Edge(CubePoints(n)) > 0.0
    ensures Partitioned(DividedTwice(n))
  {
    var c := CubePoints(n);
    var m := DivideIntoSpheres(n);
    var kids := DivideEach(NodesRef(m).nodes);
    forall i | 0 <= i < 8
      ensures CubePoints(kids[i]) == DivideCorners(c)[i] && Partitioned(kids[i])
    {
      OctantWithin(c, i);
      DivideIntoSpheresPartitioned(NodesRef(m).nodes[i]);
    }
    SetNodesPartitioned(m, kids);
  }

  /** The boxes of a new tree of positive size nest and do not overlap. */
  lemma {:induction false} NewTreePartitioned(size: real)
    requires size > 0.0
    ensures Partitioned(NewTree(size))
  {
    var corners := GenCube(0.0, 0.0, 0.0, size);
    var level1 := CubeIntoCluster(corners);
    var t := NewTree(size);
    var kids := NodesRef(t).nodes;
    forall i | 0 <= i < 8
      ensures CubePoints(kids[i]) == DivideCorners(corners)[i] && Partitioned(kids[i])
    {
      OctantWithin(corners, i);
      DividedTwicePartitioned(level1[i]);
    }
    SetNodesPartitioned(Cube(OctreeCube(corners, NoChildren)), kids);
  }
}
