/**
 * What one import into a new tree stores: each input occurrence at most once, exactly once when
 * it lies in a leaf window, and never when it lies outside every leaf window.
 */
module OctreeImport {
  import opened Geometry
  import opened OctreeNodes
  import opened Partition
  import opened Octrees

  /** One import into a new tree, then export: every input occurrence comes out at most once. */
  lemma {:induction false} ImportIntoNewTree(size: real, data: seq<Point>)
    requires size > 0.0
    ensures multiset(Flattened(Imported(NewTree(size), data))) <= multiset(data)
    ensures |Flattened(Imported(NewTree(size), data))| <= |data|
  {
    NewTreePartitioned(size);
    NewTreeEmpty(size);
    ImportAtMostOnce(NewTree(size), data);
  }

  /**
   * Exactly: a point comes out of a new tree as often as it went in when some leaf window holds
   * it, and not at all otherwise.
   */
  lemma {:induction false} ImportIntoNewTreeCount(size: real, data: seq<Point>, q: Point)
    requires size > 0.0
    ensures Hits(NewTree(size), q) <= 1
    ensures multiset(Flattened(Imported(NewTree(size), data)))[q]
         == if Hits(NewTree(size), q) == 1 then multiset(data)[q] else 0
  {
    var t := NewTree(size);
    NewTreePartitioned(size);
    NewTreeEmpty(size);
    ImportCount(t, data, q);
    HitsBound(t, q);
    OneOrNone(Hits(t, q), multiset(data)[q], multiset(Flattened(t))[q],
      multiset(Flattened(Imported(t, data)))[q]);
  }

  /** The arithmetic step of ImportIntoNewTreeCount. */
  lemma OneOrNone(h: nat, c: nat, x: nat, x': nat)
    requires h <= 1 && x == 0 && x' == x + h * c
    ensures x' == if h == 1 then c else 0
  {
  }

  /** The box of leaf k under sphere j under first-level box i of a new tree of the given size. */
  function LeafBox(size: real, i: nat, j: nat, k: nat): Corners
    requires i < 8 && j < 8 && k < 8
  {
    DivideCorners(DivideCorners(DivideCorners(GenCube(0.0, 0.0, 0.0, size))[i])[j])[k]
  }

  /** A point strictly inside a leaf box of a new tree is held exactly as that leaf holds it. */
  lemma {:induction false} NewTreeLeafPath(size: real, q: Point, i: nat, j: nat, k: nat)
    requires size > 0.0 && i < 8 && j < 8 && k < 8
    requires InOpenBox(q, LeafBox(size, i, j, k))
    ensures Hits(NewTree(size), q)
         == Hits(SphereIntoCluster(DivideCorners(DivideCorners(GenCube(0.0, 0.0, 0.0, size))[i])[j])[k], q)
  {
    var c0 := GenCube(0.0, 0.0, 0.0, size);
    var c1 := DivideCorners(c0)[i];
    var c2 := DivideCorners(c1)[j];
    var c3 := DivideCorners(c2)[k];
    OctantWithin(c0, i);
    OctantWithin(c1, j);
    OctantWithin(c2, k);
    OpenBoxWithin(q, c3, c2);
    OpenBoxWithin(q, c2, c1);
    var t := NewTree(size);
    NewTreePartitioned(size);
    var n1 := NodesRef(t).nodes[i];
    var m1 := DivideIntoSpheres(CubeIntoCluster(c0)[i]);
    assert n1 == SetNodes(m1, DivideEach(NodesRef(m1).nodes));
    assert CubePoints(n1) == c1;
    var n2 := NodesRef(n1).nodes[j];
    assert n2 == DivideIntoSpheres(NodesRef(m1).nodes[j]);
    assert CubePoints(n2) == c2;
    assert NodesRef(n2).nodes[k] == SphereIntoCluster(c2)[k];
    assert Partitioned(n1);
    assert Partitioned(n2);
    HitsDescend(t, q, i);
    HitsDescend(n1, q, j);
    HitsDescend(n2, q, k);
  }

  /**
   * The leaf sphere on octant k of a box of positive edge holds a point exactly when the point
   * lies in the middle two thirds of the octant on every axis.
   */
  lemma {:induction false} LeafWindow(c: Corners, k: nat, q: Point)
    requires Edge(c) > 0.0 && k < 8
    ensures var o, e := Origin(DivideCorners(c)[k]), Edge(c) / 2.0;
      Hits(SphereIntoCluster(c)[k], q)
      == if && o.x + e / 6.0 < q.x < o.x + 5.0 * e / 6.0
            && o.y + e / 6.0 < q.y < o.y + 5.0 * e / 6.0
            && o.z + e / 6.0 < q.z < o.z + 5.0 * e / 6.0
         then 1 else 0
  {
    SphereChildGeometry(c, k);
    var e := Edge(c) / 2.0;
    var s := SphereIntoCluster(c)[k].sphere;
    assert s.radius == e / 3.0;
  }

  /**
   * A point strictly inside a leaf box of a new tree is held once if it lies in the middle two
   * thirds of that box on every axis (the leaf's window), and not at all otherwise.
   */
  lemma {:induction false} NewTreeLeafHits(size: real, q: Point, i: nat, j: nat, k: nat)
    requires size > 0.0 && i < 8 && j < 8 && k < 8
    requires InOpenBox(q, LeafBox(size, i, j, k))
    ensures var o, e := Origin(LeafBox(size, i, j, k)), size / 8.0;
      Hits(NewTree(size), q)
      == if && o.x + e / 6.0 < q.x < o.x + 5.0 * e / 6.0
            && o.y + e / 6.0 < q.y < o.y + 5.0 * e / 6.0
            && o.z + e / 6.0 < q.z < o.z + 5.0 * e / 6.0
         then 1 else 0
  {
    var c0 := GenCube(0.0, 0.0, 0.0, size);
    var c1 := DivideCorners(c0)[i];
    var c2 := DivideCorners(c1)[j];
    OctantWithin(c0, i);
    OctantWithin(c1, j);
    NewTreeLeafPath(size, q, i, j, k);
    LeafWindow(c2, k, q);
  }

  /** The centre of a box of positive edge is strictly inside none of its octants. */
  lemma {:induction false} MiddleOnOctantBoundary(c: Corners, i: nat)
    requires Edge(c) > 0.0 && i < 8
    ensures !InOpenBox(CubeMiddle(c), DivideCorners(c)[i])
  {
    OctantWithin(c, i);
    assert Origin(DivideCorners(c)[i]) == Corner(Origin(c), i, Edge(c) / 2.0);
  }

  /** A partitioned node whose children sit on its octants holds nothing at its own centre. */
  lemma {:induction false} MiddleDropped(n: Node)
    requires Partitioned(n) && Edge(CubePoints(n)) > 0.0
    requires NodesRef(n).Children? && |NodesRef(n).nodes| == 8
    requires forall i | 0 <= i < 8 :: CubePoints(NodesRef(n).nodes[i]) == DivideCorners(CubePoints(n))[i]
    ensures Hits(n, CubeMiddle(CubePoints(n))) == 0
  {
    var q := CubeMiddle(CubePoints(n));
    var kids := NodesRef(n).nodes;
    forall i | 0 <= i < 8
      ensures Hits(kids[i], q) == 0
    {
      HitsBound(kids[i], q);
      MiddleOnOctantBoundary(CubePoints(n), i);
    }
    HitsAllZero(kids, q);
  }

  /** The root of a new tree is the box [0, size]^3, and first-level node i sits on its octant i. */
  lemma {:induction false} NewTreeFirstLevel(size: real)
    ensures CubePoints(NewTree(size)) == GenCube(0.0, 0.0, 0.0, size)
    ensures NodesRef(NewTree(size)).Children? && |NodesRef(NewTree(size)).nodes| == 8
    ensures forall i | 0 <= i < 8 ::
      CubePoints(NodesRef(NewTree(size)).nodes[i]) == DivideCorners(CubePoints(NewTree(size)))[i]
  {
    var kids := NodesRef(NewTree(size)).nodes;
    forall i | 0 <= i < 8
      ensures CubePoints(kids[i]) == DivideCorners(CubePoints(NewTree(size)))[i]
    {
      assert kids[i] == DividedTwice(CubeIntoCluster(GenCube(0.0, 0.0, 0.0, size))[i]);
    }
  }

  /** The centre of the root box lies on the boundary of all eight first-level boxes, so no leaf holds it. */
  lemma {:induction false} CentreDropped(size: real)
    requires size > 0.0
    ensures Hits(NewTree(size), Point(size / 2.0, size / 2.0, size / 2.0)) == 0
  {
    NewTreeFirstLevel(size);
    NewTreePartitioned(size);
    MiddleDropped(NewTree(size));
  }

  /**
   * The centre of leaf 0 of a new tree, (size/16, size/16, size/16), is held by exactly one leaf,
   * so export returns it exactly as often as it was imported.
   */
  lemma {:induction false} LeafCentreKept(size: real, data: seq<Point>)
    requires size > 0.0
    ensures Hits(NewTree(size), Point(size / 16.0, size / 16.0, size / 16.0)) == 1
    ensures var q := Point(size / 16.0, size / 16.0, size / 16.0);
      multiset(Flattened(Imported(NewTree(size), data)))[q] == multiset(data)[q]
  {
    var q := Point(size / 16.0, size / 16.0, size / 16.0);
    LeafBoxOrigin(size, 0, 0, 0);
    NewTreeLeafHits(size, q, 0, 0, 0);
    ImportIntoNewTreeCount(size, data, q);
  }

  /** The origin and edge of a leaf box of a new tree, by the corner offsets at each of the three levels. */
  lemma {:induction false} LeafBoxOrigin(size: real, i: nat, j: nat, k: nat)
    requires size >= 0.0 && i < 8 && j < 8 && k < 8
    ensures Origin(LeafBox(size, i, j, k))
         == Corner(Corner(Corner(Point(0.0, 0.0, 0.0), i, size / 2.0), j, size / 4.0), k, size / 8.0)
    ensures Edge(LeafBox(size, i, j, k)) == size / 8.0
  {
    var c0 := GenCube(0.0, 0.0, 0.0, size);
    var c1 := DivideCorners(c0)[i];
    var c2 := DivideCorners(c1)[j];
    var o1 := Corner(Point(0.0, 0.0, 0.0), i, size / 2.0);
    var o2 := Corner(o1, j, size / 4.0);
    OctantOrigin(c0, i);
    assert Origin(c1) == o1 && Edge(c1) == size / 2.0;
    OctantOrigin(c1, j);
    assert Edge(c1) / 2.0 == size / 4.0;
    assert Origin(c2) == o2 && Edge(c2) == size / 4.0;
    OctantOrigin(c2, k);
    assert Edge(c2) / 2.0 == size / 8.0;
  }

  /**
   * A point a tenth of a leaf edge from the root origin on every axis lies in leaf box 0 but
   * below that leaf's window, so no leaf holds it. For size 8 this is (0.1, 0.1, 0.1).
   */
  lemma {:induction false} NearOriginDropped(size: real)
    requires size > 0.0
    ensures Hits(NewTree(size), Point(size / 80.0, size / 80.0, size / 80.0)) == 0
  {
    LeafBoxOrigin(size, 0, 0, 0);
    NewTreeLeafHits(size, Point(size / 80.0, size / 80.0, size / 80.0), 0, 0, 0);
  }

  /**
   * A point a tenth of a leaf edge from the far corner of the root box lies in the last leaf box
   * but above that leaf's window, so no leaf holds it. For size 8 this is (7.9, 7.9, 7.9).
   */
  lemma {:induction false} NearFarCornerDropped(size: real)
    requires size > 0.0
    ensures Hits(NewTree(size), Point(79.0 * size / 80.0, 79.0 * size / 80.0, 79.0 * size / 80.0)) == 0
  {
    LeafBoxOrigin(size, 6, 6, 6);
    NewTreeLeafHits(size, Point(79.0 * size / 80.0, 79.0 * size / 80.0, 79.0 * size / 80.0), 6, 6, 6);
  }

  /**
   * Importing the two points above and the centre of the root box into a new tree stores none
   * of them, and export yields nothing. For size 8 the batch is (0.1, 0.1, 0.1), (7.9, 7.9, 7.9)
   * and (4, 4, 4).
   */
  lemma {:induction false} CornersAndCentreDropped(size: real)
    requires size > 0.0
    ensures var data := [Point(size / 80.0, size / 80.0, size / 80.0),
                         Point(79.0 * size / 80.0, 79.0 * size / 80.0, 79.0 * size / 80.0),
                         Point(size / 2.0, size / 2.0, size / 2.0)];
      Flattened(Imported(NewTree(size), data)) == []
  {
    NearOriginDropped(size);
    NearFarCornerDropped(size);
    CentreDropped(size);
    NewTreeEmpty(size);
    var data := [Point(size / 80.0, size / 80.0, size / 80.0),
                 Point(79.0 * size / 80.0, 79.0 * size / 80.0, 79.0 * size / 80.0),
                 Point(size / 2.0, size / 2.0, size / 2.0)];
    forall p | p in data
      ensures Hits(NewTree(size), p) == 0
    {
    }
    NothingHeld(NewTree(size), data);
  }
}
