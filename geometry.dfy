/**
 * Points, the fixed 8-corner box layout and the octant split used by the octree
 * (octree/src/lib.rs: gen_cube, cube_middle, octree_divide_into_cube).
 * Coordinates are exact reals, so halving and thirds are exact.
 */
module Geometry {

  datatype Point = Point(x: real, y: real, z: real)

  /** The 8 corners of a box, indexed positionally in the order GenCube lays them out. */
  type Corners = c: seq<Point> | |c| == 8 witness seq(8, _ => Point(0.0, 0.0, 0.0))

  /** The corner lists of the 8 octants of a box. */
  type Octants = s: seq<Corners> | |s| == 8 witness seq(8, _ => seq(8, _ => Point(0.0, 0.0, 0.0)))

  function Abs(r: real): real {
    if r < 0.0 then -r else r
  }

  // Corner layout: 0 origin, 1 +y, 2 +x+y, 3 +x, and 4..7 are 0..3 shifted by +z.
  // The offsets below say, per axis, whether corner i sits one edge away from the origin.

  function XOffset(i: nat, size: real): real {
    if i % 4 == 2 || i % 4 == 3 then size else 0.0
  }

  function YOffset(i: nat, size: real): real {
    if i % 4 == 1 || i % 4 == 2 then size else 0.0
  }

  function ZOffset(i: nat, size: real): real {
    if i >= 4 then size else 0.0
  }

  /** Corner i of the box with the given origin and edge, by the offset table above. */
  function Corner(origin: Point, i: nat, size: real): Point {
    Point(origin.x + XOffset(i, size), origin.y + YOffset(i, size), origin.z + ZOffset(i, size))
  }

  /** The box origin, corner 0. */
  function Origin(c: Corners): Point {
    c[0]
  }

  /** The edge length as the octree reads it: the x distance from corner 0 to corner 3. */
  function Edge(c: Corners): real {
    c[3].x - c[0].x
  }

  /** gen_cube: the 8 corners of the axis-aligned cube with origin (x, y, z) and edge size. */
  function GenCube(x: real, y: real, z: real, size: real): (c: Corners)
    ensures Origin(c) == Point(x, y, z)
    ensures Edge(c) == size
    ensures forall i | 0 <= i < 8 :: c[i] == Corner(Point(x, y, z), i, size)
  {
    [
      Point(x, y, z),
      Point(x, y + size, z),
      Point(x + size, y + size, z),
      Point(x + size, y, z),
      Point(x, y, z + size),
      Point(x, y + size, z + size),
      Point(x + size, y + size, z + size),
      Point(x + size, y, z + size)
    ]
  }

  function CubeAt(origin: Point, size: real): Corners {
    GenCube(origin.x, origin.y, origin.z, size)
  }

  /** The corners are those of a true cube: exactly what GenCube gives for its own origin and edge. */
  ghost predicate IsCube(c: Corners) {
    c == CubeAt(Origin(c), Edge(c))
  }

  lemma GenCubeIsCube(x: real, y: real, z: real, size: real)
    ensures IsCube(GenCube(x, y, z, size))
  {
  }

  /**
   * Corners 0 and 3 differ only in x, 0 and 1 only in y, 0 and 4 only in z, each by size;
   * with a non-zero size the 8 corners are pairwise distinct.
   */
  lemma {:induction false} GenCubeCorners(x: real, y: real, z: real, size: real)
    ensures var c := GenCube(x, y, z, size);
      && c[3] == Point(c[0].x + size, c[0].y, c[0].z)
      && c[1] == Point(c[0].x, c[0].y + size, c[0].z)
      && c[4] == Point(c[0].x, c[0].y, c[0].z + size)
    ensures size != 0.0 ==>
      forall i, j | 0 <= i < j < 8 :: GenCube(x, y, z, size)[i] != GenCube(x, y, z, size)[j]
  {
    var c := GenCube(x, y, z, size);
    if size != 0.0 {
      forall i, j | 0 <= i < j < 8 ensures c[i] != c[j] {
        OffsetsDiffer(i, j, size);
      }
    }
  }

  /** Two different corner indices differ in at least one axis offset. */
  lemma OffsetsDiffer(i: nat, j: nat, size: real)
    requires i < 8 && j < 8 && i != j && size != 0.0
    ensures XOffset(i, size) != XOffset(j, size)
         || YOffset(i, size) != YOffset(j, size)
         || ZOffset(i, size) != ZOffset(j, size)
  {
  }

  /** cube_middle: the origin moved by half the edge (corner 0 to corner 3) along every axis. */
  function CubeMiddle(c: Corners): (m: Point)
    ensures m == Midpoint(c[0], Point(c[0].x + Edge(c), c[0].y + Edge(c), c[0].z + Edge(c)))
  {
    var half := Edge(c) / 2.0;
    Point(c[0].x + half, c[0].y + half, c[0].z + half)
  }

  function Midpoint(p: Point, q: Point): Point {
    Point((p.x + q.x) / 2.0, (p.y + q.y) / 2.0, (p.z + q.z) / 2.0)
  }

  /** Strictly inside the box spanned from the origin by the edge on every axis. */
  ghost predicate InOpenBox(p: Point, c: Corners) {
    && c[0].x < p.x < c[0].x + Edge(c)
    && c[0].y < p.y < c[0].y + Edge(c)
    && c[0].z < p.z < c[0].z + Edge(c)
  }

  /** Inside or on the boundary of the box. */
  ghost predicate InClosedBox(p: Point, c: Corners) {
    && c[0].x <= p.x <= c[0].x + Edge(c)
    && c[0].y <= p.y <= c[0].y + Edge(c)
    && c[0].z <= p.z <= c[0].z + Edge(c)
  }

  /** Box a lies within box b. */
  ghost predicate BoxWithin(a: Corners, b: Corners) {
    && b[0].x <= a[0].x && a[0].x + Edge(a) <= b[0].x + Edge(b)
    && b[0].y <= a[0].y && a[0].y + Edge(a) <= b[0].y + Edge(b)
    && b[0].z <= a[0].z && a[0].z + Edge(a) <= b[0].z + Edge(b)
  }

  /** The two boxes are separated along some axis, so their interiors do not meet. */
  ghost predicate Apart(a: Corners, b: Corners) {
    || a[0].x + Edge(a) <= b[0].x || b[0].x + Edge(b) <= a[0].x
    || a[0].y + Edge(a) <= b[0].y || b[0].y + Edge(b) <= a[0].y
    || a[0].z + Edge(a) <= b[0].z || b[0].z + Edge(b) <= a[0].z
  }

  /** The middle of a cube is the midpoint of its diagonal (corners 0 and 6), strictly inside it. */
  lemma CubeMiddleIsCentre(c: Corners)
    requires IsCube(c)
    ensures CubeMiddle(c) == Midpoint(c[0], c[6])
    ensures Edge(c) > 0.0 ==> InOpenBox(CubeMiddle(c), c)
  {
    assert c[6] == Corner(Origin(c), 6, Edge(c));
  }

  /** A point strictly inside a box that lies within another is strictly inside that one too. */
  lemma OpenBoxWithin(p: Point, a: Corners, b: Corners)
    requires BoxWithin(a, b) && InOpenBox(p, a)
    ensures InOpenBox(p, b)
  {
  }

  /** No point is strictly inside two boxes that are apart. */
  lemma ApartExclusive(p: Point, a: Corners, b: Corners)
    requires Apart(a, b)
    ensures !(InOpenBox(p, a) && InOpenBox(p, b))
  {
  }

  /**
   * octree_divide_into_cube: the 8 cubes of edge h = Edge(c) / 2 whose origins are the corners of
   * the cube of edge h at the parent's origin, that is {start, start + h} on every axis, in the
   * corner order (DivideCornersListed spells the list out).
   */
  function DivideCorners(c: Corners): (octs: Octants)
    ensures forall i | 0 <= i < 8 :: IsCube(octs[i]) && Edge(octs[i]) == Edge(c) / 2.0
    ensures forall i | 0 <= i < 8 :: Origin(octs[i]) == CubeAt(Origin(c), Edge(c) / 2.0)[i]
  {
    var start := c[0];
    var size := (c[3].x - start.x) / 2.0;
    seq(8, i requires 0 <= i < 8 => CubeAt(Corner(start, i, size), size))
  }

  /** The octants as octree_divide_into_cube lists them, each axis at the start or the middle of the box. */
  lemma DivideCornersListed(c: Corners)
    ensures var start, size := c[0], Edge(c) / 2.0;
      var middle := Point(start.x + size, start.y + size, start.z + size);
      DivideCorners(c) == [
        GenCube(start.x, start.y, start.z, size),
        GenCube(start.x, middle.y, start.z, size),
        GenCube(middle.x, middle.y, start.z, size),
        GenCube(middle.x, start.y, start.z, size),
        GenCube(start.x, start.y, middle.z, size),
        GenCube(start.x, middle.y, middle.z, size),
        GenCube(middle.x, middle.y, middle.z, size),
        GenCube(middle.x, start.y, middle.z, size)
      ]
  {
    var start, size := c[0], Edge(c) / 2.0;
    var middle := Point(start.x + size, start.y + size, start.z + size);
    OctantListed(c, 0, Point(start.x, start.y, start.z));
    OctantListed(c, 1, Point(start.x, middle.y, start.z));
    OctantListed(c, 2, Point(middle.x, middle.y, start.z));
    OctantListed(c, 3, Point(middle.x, start.y, start.z));
    OctantListed(c, 4, Point(start.x, start.y, middle.z));
    OctantListed(c, 5, Point(start.x, middle.y, middle.z));
    OctantListed(c, 6, Point(middle.x, middle.y, middle.z));
    OctantListed(c, 7, Point(middle.x, start.y, middle.z));
  }

  /** Octant i of the box is the gen_cube of half the edge at corner i of the half-size cube at the origin. */
  lemma OctantListed(c: Corners, i: nat, o: Point)
    requires i < 8 && o == Corner(c[0], i, Edge(c) / 2.0)
    ensures DivideCorners(c)[i] == GenCube(o.x, o.y, o.z, Edge(c) / 2.0)
  {
  }

  /** Octant i has half the edge of the box, and its origin is corner i of the half-size cube at the box origin. */
  lemma OctantOrigin(c: Corners, i: nat)
    requires i < 8
    ensures Origin(DivideCorners(c)[i]) == Corner(Origin(c), i, Edge(c) / 2.0)
    ensures Edge(DivideCorners(c)[i]) == Edge(c) / 2.0
    ensures DivideCorners(c)[i] == CubeAt(Corner(Origin(c), i, Edge(c) / 2.0), Edge(c) / 2.0)
  {
    assert CubeAt(Origin(c), Edge(c) / 2.0)[i] == Corner(Origin(c), i, Edge(c) / 2.0);
  }

  /** Octant i is a cube of half the parent's edge lying within the parent, and so is each of its corners. */
  lemma {:induction false} OctantWithin(c: Corners, i: nat)
    requires Edge(c) >= 0.0 && i < 8
    ensures IsCube(DivideCorners(c)[i]) && Edge(DivideCorners(c)[i]) == Edge(c) / 2.0
    ensures BoxWithin(DivideCorners(c)[i], c)
    ensures forall k | 0 <= k < 8 :: InClosedBox(DivideCorners(c)[i][k], c)
  {
    var h := Edge(c) / 2.0;
    var o := Corner(Origin(c), i, h);
    var oct := DivideCorners(c)[i];
    OctantOrigin(c, i);
    GenCubeIsCube(o.x, o.y, o.z, h);
    forall k | 0 <= k < 8
      ensures InClosedBox(oct[k], c)
    {
      assert oct[k] == Corner(o, k, h);
    }
  }

  /** Distinct octants of a box with positive edge are apart, and their origins differ. */
  lemma {:induction false} OctantsApart(c: Corners, i: nat, j: nat)
    requires Edge(c) > 0.0 && i < 8 && j < 8 && i != j
    ensures Apart(DivideCorners(c)[i], DivideCorners(c)[j])
    ensures Origin(DivideCorners(c)[i]) != Origin(DivideCorners(c)[j])
  {
    var h := Edge(c) / 2.0;
    OffsetsDiffer(i, j, h);
  }
}
