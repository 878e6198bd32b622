/**
 * The two node kinds of the octree and their operations (octree/src/lib.rs: OctreeCube,
 * OctreeSphere, OctreeNode): building the 8 children of a box, containment, point
 * accumulation, and the recursive import and export.
 *
 * Every node is owned by exactly one parent, so nodes are values here: an operation that
 * updates a node in place returns the updated node.
 */
module OctreeNodes {
  import opened Geometry

  /** The optional array of children; where present it holds 8 nodes (see Octrees.Shaped). */
  datatype Children = NoChildren | Children(nodes: seq<Node>)

  /** A pure routing node: its box and its children. */
  datatype OctreeCube = OctreeCube(cubePoints: Corners, nodes: Children)

  /**
   * A data node: the box it was carved from, a centre and radius, the points it has accepted
   * in arrival order, and its children. The decorative 12-vertex skeleton is not modelled.
   */
  datatype OctreeSphere = OctreeSphere(
    middle: Point, radius: real, dataPoints: seq<Point>, cubePoints: Corners, nodes: Children)

  datatype Node = Cube(cube: OctreeCube) | Sphere(sphere: OctreeSphere)

  /** cube_points: the box of the node, whichever kind it is. */
  function CubePoints(n: Node): (c: Corners)
    ensures n.Cube? ==> c == n.cube.cubePoints
    ensures n.Sphere? ==> c == n.sphere.cubePoints
  {
    match n
    case Cube(c) => c.cubePoints
    case Sphere(s) => s.cubePoints
  }

  /** The children, as both nodes_ref and nodes_mut expose them. */
  function NodesRef(n: Node): (r: Children)
    ensures r.Children? ==> forall k | 0 <= k < |r.nodes| :: r.nodes[k] < n
  {
    match n
    case Cube(c) => c.nodes
    case Sphere(s) => s.nodes
  }

  /** The points stored at this node itself: a Sphere's data points, nothing for a Cube. */
  function Data(n: Node): seq<Point> {
    match n
    case Cube(_) => []
    case Sphere(s) => s.dataPoints
  }

  /** node(i): child i; the source panics when there are no children or i is out of range. */
  function Child(n: Node, i: nat): (r: Node)
    requires NodesRef(n).Children? && i < |NodesRef(n).nodes|
    ensures r == NodesRef(n).nodes[i]
  {
    NodesRef(n).nodes[i]
  }

  /** a and b agree on everything but their children: kind, box, and for spheres centre, radius, data. */
  ghost predicate SameExceptNodes(a: Node, b: Node) {
    && a.Cube? == b.Cube?
    && CubePoints(a) == CubePoints(b)
    && Data(a) == Data(b)
    && (a.Sphere? ==> a.sphere.middle == b.sphere.middle && a.sphere.radius == b.sphere.radius)
  }

  /** a and b agree on everything but their own data points. */
  ghost predicate SameExceptData(a: Node, b: Node) {
    && a.Cube? == b.Cube?
    && CubePoints(a) == CubePoints(b)
    && NodesRef(a) == NodesRef(b)
    && (a.Sphere? ==> a.sphere.middle == b.sphere.middle && a.sphere.radius == b.sphere.radius)
  }

  /** set_nodes: replace the children and nothing else. */
  function SetNodes(n: Node, kids: seq<Node>): (r: Node)
    ensures NodesRef(r) == Children(kids)
    ensures SameExceptNodes(r, n)
  {
    match n
    case Cube(c) => Cube(c.(nodes := Children(kids)))
    case Sphere(s) => Sphere(s.(nodes := Children(kids)))
  }

  /** add_data_point: a Sphere appends the point to its data; a Cube ignores it. */
  function AddDataPoint(n: Node, p: Point): (r: Node)
    ensures SameExceptData(r, n)
    ensures Data(r) == if n.Sphere? then Data(n) + [p] else []
  {
    match n
    case Cube(_) => n
    case Sphere(s) => Sphere(s.(dataPoints := s.dataPoints + [p]))
  }

  /** OctreeSphere::is_inside: every coordinate strictly within radius of the centre. */
  function SphereIsInside(s: OctreeSphere, p: Point): (r: bool)
    ensures r <==> Abs(p.x - s.middle.x) < s.radius && Abs(p.y - s.middle.y) < s.radius && Abs(p.z - s.middle.z) < s.radius
  {
    && p.x > s.middle.x - s.radius && p.x < s.middle.x + s.radius
    && p.y > s.middle.y - s.radius && p.y < s.middle.y + s.radius
    && p.z > s.middle.z - s.radius && p.z < s.middle.z + s.radius
  }

  /** OctreeNode::is_inside: a Cube never accepts a point. */
  function IsInside(n: Node, p: Point): (r: bool)
    ensures r ==> n.Sphere?
  {
    match n
    case Cube(_) => false
    case Sphere(s) => SphereIsInside(s, p)
  }

  /**
   * The window test is strict on every axis: a point exactly radius away from the centre along
   * one axis is outside, and a point offset from the centre along one axis is inside exactly when
   * the offset is less than the radius.
   */
  lemma InsideBoundary(s: OctreeSphere, d: real)
    requires s.radius > 0.0
    ensures !SphereIsInside(s, Point(s.middle.x + s.radius, s.middle.y, s.middle.z))
    ensures !SphereIsInside(s, Point(s.middle.x - s.radius, s.middle.y, s.middle.z))
    ensures SphereIsInside(s, Point(s.middle.x + d, s.middle.y, s.middle.z)) <==> -s.radius < d < s.radius
    ensures !SphereIsInside(s, Point(s.middle.x, s.middle.y + s.radius, s.middle.z))
    ensures !SphereIsInside(s, Point(s.middle.x, s.middle.y - s.radius, s.middle.z))
    ensures SphereIsInside(s, Point(s.middle.x, s.middle.y + d, s.middle.z)) <==> -s.radius < d < s.radius
    ensures !SphereIsInside(s, Point(s.middle.x, s.middle.y, s.middle.z + s.radius))
    ensures !SphereIsInside(s, Point(s.middle.x, s.middle.y, s.middle.z - s.radius))
    ensures SphereIsInside(s, Point(s.middle.x, s.middle.y, s.middle.z + d)) <==> -s.radius < d < s.radius
  {
  }

  /** The window of the sphere, centre plus or minus radius, lies within its box. */
  ghost predicate WindowWithin(s: OctreeSphere) {
    var c := s.cubePoints;
    && c[0].x <= s.middle.x - s.radius && s.middle.x + s.radius <= c[0].x + Edge(c)
    && c[0].y <= s.middle.y - s.radius && s.middle.y + s.radius <= c[0].y + Edge(c)
    && c[0].z <= s.middle.z - s.radius && s.middle.z + s.radius <= c[0].z + Edge(c)
  }

  /** A sphere whose window lies within its box accepts only points strictly inside that box. */
  lemma InsideWithinBox(s: OctreeSphere, p: Point)
    requires WindowWithin(s) && SphereIsInside(s, p)
    ensures InOpenBox(p, s.cubePoints)
  {
  }

  /** OctreeCube::from_cluster: one childless Cube per octant, in octant order. */
  function CubeFromCluster(octs: Octants): (kids: seq<Node>)
    ensures |kids| == 8
    ensures forall i | 0 <= i < 8 ::
      kids[i].Cube? && CubePoints(kids[i]) == octs[i] && NodesRef(kids[i]) == NoChildren
  {
    seq(8, i requires 0 <= i < 8 => Cube(OctreeCube(octs[i], NoChildren)))
  }

  /**
   * OctreeSphere::from_cluster: one childless, empty Sphere per octant, in octant order, centred
   * by CubeMiddle, all with the same radius: one third of the y extent of octant 0's first edge.
   */
  function SphereFromCluster(octs: Octants): (kids: seq<Node>)
    ensures |kids| == 8
    ensures forall i | 0 <= i < 8 ::
      && kids[i].Sphere? && CubePoints(kids[i]) == octs[i]
      && kids[i].sphere.middle == CubeMiddle(octs[i])
      && kids[i].sphere.radius == Abs(octs[0][1].y - octs[0][0].y) / 3.0
      && Data(kids[i]) == [] && NodesRef(kids[i]) == NoChildren
  {
    var size := Abs(octs[0][1].y - octs[0][0].y) / 3.0;
    seq(8, i requires 0 <= i < 8 => Sphere(OctreeSphere(CubeMiddle(octs[i]), size, [], octs[i], NoChildren)))
  }

  /** OctreeCube::into_cluster. */
  function CubeIntoCluster(c: Corners): (kids: seq<Node>)
    ensures |kids| == 8
    ensures forall i | 0 <= i < 8 ::
      && kids[i].Cube? && CubePoints(kids[i]) == DivideCorners(c)[i]
      && Edge(CubePoints(kids[i])) == Edge(c) / 2.0 && NodesRef(kids[i]) == NoChildren
  {
    CubeFromCluster(DivideCorners(c))
  }

  /** OctreeSphere::into_cluster. */
  function SphereIntoCluster(c: Corners): (kids: seq<Node>)
    ensures |kids| == 8
    ensures forall i | 0 <= i < 8 ::
      && kids[i].Sphere? && CubePoints(kids[i]) == DivideCorners(c)[i]
      && kids[i].sphere.middle == CubeMiddle(DivideCorners(c)[i])
      && Data(kids[i]) == [] && NodesRef(kids[i]) == NoChildren
  {
    SphereFromCluster(DivideCorners(c))
  }

  /**
   * Sphere child i of a box of edge e sits on octant i, is centred in it (octant origin plus e/4
   * on every axis), has radius |e|/6, and is empty and childless.
   */
  lemma {:induction false} SphereChildGeometry(c: Corners, i: nat)
    requires i < 8
    ensures var kid := SphereIntoCluster(c)[i];
      var h := Edge(c) / 2.0;
      var o := Corner(Origin(c), i, h);
      && kid.Sphere? && CubePoints(kid) == DivideCorners(c)[i]
      && Origin(CubePoints(kid)) == o && Edge(CubePoints(kid)) == h
      && kid.sphere.middle == Point(o.x + h / 2.0, o.y + h / 2.0, o.z + h / 2.0)
      && kid.sphere.radius == Abs(Edge(c)) / 6.0
      && Data(kid) == [] && NodesRef(kid) == NoChildren
  {
    var octs := DivideCorners(c);
    var h := Edge(c) / 2.0;
    var o := Corner(Origin(c), i, h);
    OctantOrigin(c, i);
    ClusterRadius(c);
    var kid := SphereIntoCluster(c)[i];
    assert kid == Sphere(OctreeSphere(CubeMiddle(octs[i]), Abs(Edge(c)) / 6.0, [], octs[i], NoChildren));
    assert CubeMiddle(octs[i]) == Point(o.x + h / 2.0, o.y + h / 2.0, o.z + h / 2.0);
  }

  /** The radius sphere_from_cluster reads off octant 0 is a sixth of the parent's edge. */
  lemma ClusterRadius(c: Corners)
    ensures Abs(DivideCorners(c)[0][1].y - DivideCorners(c)[0][0].y) / 3.0 == Abs(Edge(c)) / 6.0
  {
    OctantOrigin(c, 0);
    var h := Edge(c) / 2.0;
    var o := Corner(Origin(c), 0, h);
    assert DivideCorners(c)[0][1] == Corner(o, 1, h) && DivideCorners(c)[0][0] == Corner(o, 0, h);
  }

  /**
   * For a box of positive edge, the window of sphere child i (centre plus or minus radius) lies
   * strictly inside octant i: it spans the middle two thirds of the octant on every axis.
   */
  lemma {:induction false} SphereChildWindow(c: Corners, i: nat)
    requires i < 8 && Edge(c) > 0.0
    ensures var s := SphereIntoCluster(c)[i].sphere;
      var o := Origin(DivideCorners(c)[i]);
      var h := Edge(DivideCorners(c)[i]);
      && o.x < s.middle.x - s.radius && s.middle.x + s.radius < o.x + h
      && o.y < s.middle.y - s.radius && s.middle.y + s.radius < o.y + h
      && o.z < s.middle.z - s.radius && s.middle.z + s.radius < o.z + h
      && WindowWithin(s)
  {
    SphereChildGeometry(c, i);
    var s := SphereIntoCluster(c)[i].sphere;
    var h := Edge(c) / 2.0;
    assert s.radius == h / 3.0;
  }

  /** divide_into_cubes: the children become the 8 childless Cubes on the octants of the box. */
  function DivideIntoCubes(n: Node): (r: Node)
    ensures SameExceptNodes(r, n)
    ensures NodesRef(r).Children? && |NodesRef(r).nodes| == 8
    ensures forall i | 0 <= i < 8 ::
      var kid := NodesRef(r).nodes[i];
      kid.Cube? && CubePoints(kid) == DivideCorners(CubePoints(n))[i] && NodesRef(kid) == NoChildren
  {
    SetNodes(n, CubeIntoCluster(CubePoints(n)))
  }

  /** divide_into_spheres: the children become the 8 empty, childless Spheres on the octants of the box. */
  function DivideIntoSpheres(n: Node): (r: Node)
    ensures SameExceptNodes(r, n)
    ensures NodesRef(r).Children? && |NodesRef(r).nodes| == 8
    ensures forall i | 0 <= i < 8 ::
      var kid := NodesRef(r).nodes[i];
      && kid.Sphere? && CubePoints(kid) == DivideCorners(CubePoints(n))[i]
      && Data(kid) == [] && NodesRef(kid) == NoChildren
  {
    SetNodes(n, SphereIntoCluster(CubePoints(n)))
  }

  /** divide: a node gains 8 children of its own kind (Cube::divide, Sphere::divide). */
  function Divide(n: Node): (r: Node)
    ensures SameExceptNodes(r, n)
    ensures NodesRef(r).Children? && |NodesRef(r).nodes| == 8
    ensures forall i | 0 <= i < 8 :: NodesRef(r).nodes[i].Cube? == n.Cube?
    ensures forall i | 0 <= i < 8 ::
      CubePoints(NodesRef(r).nodes[i]) == DivideCorners(CubePoints(n))[i] && NodesRef(NodesRef(r).nodes[i]) == NoChildren
  {
    match n
    case Cube(_) => DivideIntoCubes(n)
    case Sphere(_) => DivideIntoSpheres(n)
  }

  /**
   * The points of data that n accepts, in input order: exactly the occurrences of the points
   * n's window contains.
   */
  function Caught(n: Node, data: seq<Point>): (r: seq<Point>)
    ensures forall p | p in r :: IsInside(n, p) && p in data
    ensures n.Cube? ==> r == []
    decreases |data|
  {
    if data == [] then []
    else
      var last := data[|data| - 1];
      assert data == data[..|data| - 1] + [last];
      Caught(n, data[..|data| - 1]) + if IsInside(n, last) then [last] else []
  }

  /** Caught keeps exactly the occurrences of the points n's window contains, and drops the others. */
  lemma {:induction false} CaughtCount(n: Node, data: seq<Point>, q: Point)
    ensures multiset(Caught(n, data))[q] == if IsInside(n, q) then multiset(data)[q] else 0
    decreases |data|
  {
    if data != [] {
      var init := data[..|data| - 1];
      assert data == init + [data[|data| - 1]];
      CaughtCount(n, init, q);
    }
  }

  /** When n's window contains every point of data, Caught is all of data, in the same order. */
  lemma {:induction false} CaughtAllInside(n: Node, data: seq<Point>)
    requires forall p | p in data :: IsInside(n, p)
    ensures Caught(n, data) == data
    decreases |data|
  {
    if data != [] {
      var init := data[..|data| - 1];
      assert data == init + [data[|data| - 1]];
      CaughtAllInside(n, init);
    }
  }

  /** Order is preserved piecewise: what is caught from a + b is what is caught from a, then from b. */
  lemma {:induction false} CaughtAppend(n: Node, a: seq<Point>, b: seq<Point>)
    ensures Caught(n, a + b) == Caught(n, a) + Caught(n, b)
    decreases |b|
  {
    if b != [] {
      var b' := b[..|b| - 1];
      var last := b[|b| - 1];
      assert (a + b)[..|a + b| - 1] == a + b';
      assert (a + b)[|a + b| - 1] == last;
      CaughtAppend(n, a, b');
      var tail := if IsInside(n, last) then [last] else [];
      assert Caught(n, a + b) == Caught(n, a + b') + tail;
      assert Caught(n, b) == Caught(n, b') + tail;
    } else {
      assert a + b == a;
    }
  }

  /** The node with every data point removed, at every depth: its geometry and structure. */
  ghost function Skeleton(n: Node): Node
    decreases n
  {
    var kids := match NodesRef(n)
      case NoChildren => NoChildren
      case Children(ks) => Children(seq(|ks|, i requires 0 <= i < |ks| => Skeleton(ks[i])));
    match n
    case Cube(c) => Cube(c.(nodes := kids))
    case Sphere(s) => Sphere(s.(dataPoints := [], nodes := kids))
  }

  /**
   * The effect of import: a childless node gains the points it accepts, in input order; a node
   * with children passes the whole batch to every child and keeps its own data. Geometry and
   * structure are unchanged at every depth.
   */
  function Imported(n: Node, data: seq<Point>): (r: Node)
    ensures Skeleton(r) == Skeleton(n)
    ensures SameExceptData(r, n) || NodesRef(n).Children?
    ensures NodesRef(n).NoChildren? ==> Data(r) == Data(n) + Caught(n, data)
    ensures NodesRef(n).Children? ==> SameExceptNodes(r, n)
    decreases n, 1
  {
    match NodesRef(n)
    case NoChildren =>
      if n.Sphere? then Sphere(n.sphere.(dataPoints := n.sphere.dataPoints + Caught(n, data))) else n
    case Children(kids) =>
      var r := SetNodes(n, ImportedAll(kids, data));
      assert NodesRef(Skeleton(r)) == NodesRef(Skeleton(n));
      r
  }

  /** import applied to every child. */
  function ImportedAll(kids: seq<Node>, data: seq<Point>): (r: seq<Node>)
    ensures |r| == |kids|
    ensures forall i | 0 <= i < |kids| :: r[i].Cube? == kids[i].Cube? && CubePoints(r[i]) == CubePoints(kids[i])
    decreases kids, 0
  {
    seq(|kids|, i requires 0 <= i < |kids| => Imported(kids[i], data))
  }

  /** OctreeNode::import, with its two loops: over the children, or over the points at a leaf. */
  method Import(n: Node, data: seq<Point>) returns (r: Node)
    ensures r == Imported(n, data)
    decreases n, 1
  {
    match NodesRef(n)
    case Children(kids) =>
      var updated := ImportAll(kids, data);
      r := SetNodes(n, updated);
    case NoChildren =>
      r := n;
      for i := 0 to |data|
        invariant r == Imported(n, data[..i])
      {
        assert data[..i + 1][..i] == data[..i];
        if IsInside(r, data[i]) {
          r := AddDataPoint(r, data[i]);
        }
      }
      assert data[..|data|] == data;
  }

  /** The loop of OctreeNode::import over the children, each updated in place. */
  method ImportAll(kids: seq<Node>, data: seq<Point>) returns (updated: seq<Node>)
    ensures updated == ImportedAll(kids, data)
    decreases kids, 0
  {
    updated := kids;
    for i := 0 to |kids|
      invariant |updated| == |kids|
      invariant forall k | 0 <= k < i :: updated[k] == Imported(kids[k], data)
      invariant forall k | i <= k < |kids| :: updated[k] == kids[k]
    {
      var child := Import(updated[i], data);
      updated := updated[i := child];
    }
  }

  /** The export order: a node's own data, then each child's export in child order 0..7. */
  function Flattened(n: Node): seq<Point>
    decreases n, 1
  {
    Data(n) + match NodesRef(n)
      case NoChildren => []
      case Children(kids) => FlattenedAll(kids)
  }

  function FlattenedAll(kids: seq<Node>): seq<Point>
    decreases kids, 0
  {
    if kids == [] then [] else FlattenedAll(kids[..|kids| - 1]) + Flattened(kids[|kids| - 1])
  }

  /** Flattening the first i + 1 children appends child i's export to that of the first i. */
  lemma FlattenedAllPrefix(kids: seq<Node>, i: nat)
    requires i < |kids|
    ensures FlattenedAll(kids[..i + 1]) == FlattenedAll(kids[..i]) + Flattened(kids[i])
  {
    assert kids[..i + 1][..i] == kids[..i];
  }

  /** OctreeNode::export: appends the node's points to output, which keeps its prefix. */
  method Export(n: Node, output: seq<Point>) returns (out: seq<Point>)
    ensures out == output + Flattened(n)
    decreases n, 1
  {
    out := output;
    if n.Sphere? {
      out := out + n.sphere.dataPoints;
    }
    assert out == output + Data(n);
    match NodesRef(n)
    case NoChildren =>
    case Children(kids) =>
      out := ExportAll(kids, out);
  }

  /** The loop of OctreeNode::export over the children, in child order. */
  method ExportAll(kids: seq<Node>, output: seq<Point>) returns (out: seq<Point>)
    ensures out == output + FlattenedAll(kids)
    decreases kids, 0
  {
    out := output;
    for i := 0 to |kids|
      invariant out == output + FlattenedAll(kids[..i])
    {
      FlattenedAllPrefix(kids, i);
      out := Export(kids[i], out);
    }
    assert kids[..|kids|] == kids;
  }
}
