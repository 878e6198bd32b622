/**
 * How import shares points out among the leaves of a tree: a point is stored once for every
 * leaf window that contains it, and in a tree whose boxes nest and do not overlap, at most one
 * leaf window contains any point.
 */
module Partition {
  import opened Geometry
  import opened OctreeNodes

  /** The number of childless nodes of n whose window contains q (Cubes have no window). */
  function Hits(n: Node, q: Point): nat
    decreases n, 1
  {
    match NodesRef(n)
    case NoChildren => if IsInside(n, q) then 1 else 0
    case Children(kids) => HitsAll(kids, q)
  }

  function HitsAll(kids: seq<Node>, q: Point): nat
    decreases kids, 0
  {
    if kids == [] then 0 else HitsAll(kids[..|kids| - 1], q) + Hits(kids[|kids| - 1], q)
  }

  /**
   * Import followed by export: every occurrence of q in the batch comes out once per leaf
   * window containing q, on top of what the tree held before.
   */
  lemma {:induction false} ImportCount(n: Node, data: seq<Point>, q: Point)
    ensures multiset(Flattened(Imported(n, data)))[q]
         == multiset(Flattened(n))[q] + Hits(n, q) * multiset(data)[q]
    decreases n, 1
  {
    var r := Imported(n, data);
    match NodesRef(n)
    case NoChildren =>
      assert NodesRef(r).NoChildren?;
      assert Flattened(r) == Data(n) + Caught(n, data);
      assert Flattened(n) == Data(n) + [];
      assert multiset(Flattened(r)) == multiset(Data(n)) + multiset(Caught(n, data));
      CaughtCount(n, data, q);
      assert Hits(n, q) == if IsInside(n, q) then 1 else 0;
      LeafTimes(Hits(n, q), multiset(data)[q], multiset(Caught(n, data))[q]);
    case Children(kids) =>
      assert NodesRef(r) == Children(ImportedAll(kids, data));
      assert Flattened(r) == Data(n) + FlattenedAll(ImportedAll(kids, data));
      assert multiset(Flattened(r)) == multiset(Data(n)) + multiset(FlattenedAll(ImportedAll(kids, data)));
      assert multiset(Flattened(n)) == multiset(Data(n)) + multiset(FlattenedAll(kids));
      ImportCountAll(kids, data, q);
      assert Hits(n, q) == HitsAll(kids, q);
  }

  /** The arithmetic step of ImportCount at a leaf, which holds a point once or not at all. */
  lemma LeafTimes(h: nat, c: nat, x: nat)
    requires h <= 1 && x == (if h == 1 then c else 0)
    ensures x == h * c
  {
  }

  lemma {:induction false} ImportCountAll(kids: seq<Node>, data: seq<Point>, q: Point)
    ensures multiset(FlattenedAll(ImportedAll(kids, data)))[q]
         == multiset(FlattenedAll(kids))[q] + HitsAll(kids, q) * multiset(data)[q]
    decreases kids, 0
  {
    if kids == [] {
      assert ImportedAll(kids, data) == [];
      assert FlattenedAll(ImportedAll(kids, data)) == [] && FlattenedAll(kids) == [];
      assert HitsAll(kids, q) == 0;
    } else {
      var init := kids[..|kids| - 1];
      var last := kids[|kids| - 1];
      var imported := ImportedAll(kids, data);
      assert imported[..|imported| - 1] == ImportedAll(init, data);
      assert imported[|imported| - 1] == Imported(last, data);
      var before, after := FlattenedAll(init), FlattenedAll(ImportedAll(init, data));
      assert FlattenedAll(imported) == after + Flattened(Imported(last, data));
      assert FlattenedAll(kids) == before + Flattened(last);
      ImportCountAll(init, data, q);
      ImportCount(last, data, q);
      CountConcat(after, Flattened(Imported(last, data)), q);
      CountConcat(before, Flattened(last), q);
      assert HitsAll(kids, q) == HitsAll(init, q) + Hits(last, q);
      AddCounts(multiset(before)[q], multiset(Flattened(last))[q], HitsAll(init, q), Hits(last, q), multiset(data)[q],
        multiset(after)[q], multiset(Flattened(Imported(last, data)))[q], HitsAll(kids, q));
    }
  }

  /** The arithmetic step of ImportCountAll, kept apart so that the solver sees only these terms. */
  lemma AddCounts(x: nat, y: nat, a: nat, b: nat, c: nat, x': nat, y': nat, h: nat)
    requires x' == x + a * c && y' == y + b * c && h == a + b
    ensures x' + y' == x + y + h * c
  {
  }

  lemma CountConcat(s: seq<Point>, t: seq<Point>, q: Point)
    ensures multiset(s + t)[q] == multiset(s)[q] + multiset(t)[q]
  {
    assert multiset(s + t) == multiset(s) + multiset(t);
  }

  /**
   * The boxes of a tree nest and do not overlap: every child's box lies within its parent's,
   * sibling boxes are apart, and every leaf Sphere's window lies within its own box.
   */
  ghost predicate Partitioned(n: Node)
    decreases n
  {
    match NodesRef(n)
    case NoChildren => n.Sphere? ==> WindowWithin(n.sphere)
    case Children(kids) =>
      && (forall i | 0 <= i < |kids| :: Partitioned(kids[i]) && BoxWithin(CubePoints(kids[i]), CubePoints(n)))
      && (forall i, j | 0 <= i < j < |kids| :: Apart(CubePoints(kids[i]), CubePoints(kids[j])))
  }

  /** In a partitioned tree a point is in at most one leaf window, and then strictly inside the root box. */
  lemma {:induction false} HitsBound(n: Node, q: Point)
    requires Partitioned(n)
    ensures Hits(n, q) <= 1
    ensures Hits(n, q) == 1 ==> InOpenBox(q, CubePoints(n))
    decreases n, 1
  {
    match NodesRef(n)
    case NoChildren =>
      if IsInside(n, q) {
        InsideWithinBox(n.sphere, q);
      }
    case Children(kids) =>
      HitsAllBound(kids, q);
      if HitsAll(kids, q) == 1 {
        var i :| 0 <= i < |kids| && InOpenBox(q, CubePoints(kids[i]));
        OpenBoxWithin(q, CubePoints(kids[i]), CubePoints(n));
      }
  }

  lemma {:induction false} HitsAllBound(kids: seq<Node>, q: Point)
    requires forall i | 0 <= i < |kids| :: Partitioned(kids[i])
    requires forall i, j | 0 <= i < j < |kids| :: Apart(CubePoints(kids[i]), CubePoints(kids[j]))
    ensures HitsAll(kids, q) <= 1
    ensures HitsAll(kids, q) == 1 ==> exists i | 0 <= i < |kids| :: InOpenBox(q, CubePoints(kids[i]))
    decreases kids, 0
  {
    if kids != [] {
      var init := kids[..|kids| - 1];
      var last := kids[|kids| - 1];
      HitsAllBound(init, q);
      HitsBound(last, q);
      if Hits(last, q) == 1 {
        assert InOpenBox(q, CubePoints(kids[|kids| - 1]));
        if HitsAll(init, q) != 0 {
          var i :| 0 <= i < |init| && InOpenBox(q, CubePoints(init[i]));
          ApartExclusive(q, CubePoints(kids[i]), CubePoints(last));
          assert false;
        }
      } else if HitsAll(init, q) == 1 {
        var i :| 0 <= i < |init| && InOpenBox(q, CubePoints(init[i]));
        assert InOpenBox(q, CubePoints(kids[i]));
      }
    }
  }

  /** When q is strictly inside child i's box, only child i can hold q. */
  lemma {:induction false} HitsAllOnly(kids: seq<Node>, q: Point, i: nat)
    requires forall k | 0 <= k < |kids| :: Partitioned(kids[k])
    requires forall k, l | 0 <= k < l < |kids| :: Apart(CubePoints(kids[k]), CubePoints(kids[l]))
    requires i < |kids| && InOpenBox(q, CubePoints(kids[i]))
    ensures HitsAll(kids, q) == Hits(kids[i], q)
    decreases kids
  {
    var init := kids[..|kids| - 1];
    var last := kids[|kids| - 1];
    if i == |kids| - 1 {
      HitsAllBound(init, q);
      if HitsAll(init, q) != 0 {
        var k :| 0 <= k < |init| && InOpenBox(q, CubePoints(init[k]));
        ApartExclusive(q, CubePoints(kids[k]), CubePoints(last));
        assert false;
      }
    } else {
      HitsAllOnly(init, q, i);
      HitsBound(last, q);
      if Hits(last, q) != 0 {
        ApartExclusive(q, CubePoints(kids[i]), CubePoints(last));
        assert false;
      }
    }
  }

  /** In a partitioned node, a point strictly inside child i's box is held exactly as child i holds it. */
  lemma {:induction false} HitsDescend(n: Node, q: Point, i: nat)
    requires Partitioned(n) && NodesRef(n).Children?
    requires i < |NodesRef(n).nodes| && InOpenBox(q, CubePoints(NodesRef(n).nodes[i]))
    ensures Hits(n, q) == Hits(NodesRef(n).nodes[i], q)
  {
    HitsAllOnly(NodesRef(n).nodes, q, i);
  }

  /** If no child holds q, neither does the parent. */
  lemma {:induction false} HitsAllZero(kids: seq<Node>, q: Point)
    requires forall k | 0 <= k < |kids| :: Hits(kids[k], q) == 0
    ensures HitsAll(kids, q) == 0
    decreases kids
  {
    if kids != [] {
      HitsAllZero(kids[..|kids| - 1], q);
    }
  }

  /** An empty tree that holds none of the batch's points is still empty after importing it. */
  lemma {:induction false} NothingHeld(n: Node, data: seq<Point>)
    requires Flattened(n) == []
    requires forall p | p in data :: Hits(n, p) == 0
    ensures Flattened(Imported(n, data)) == []
  {
    var out := Flattened(Imported(n, data));
    forall q
      ensures multiset(out)[q] == 0
    {
      ImportCount(n, data, q);
      var h, c := Hits(n, q), multiset(data)[q];
      if q in data {
        assert h == 0;
      } else {
        assert c == 0;
      }
      NoneHeld(h, c, multiset(Flattened(n))[q], multiset(out)[q]);
    }
    assert multiset(out) == multiset{};
  }

  /** The arithmetic step of NothingHeld. */
  lemma NoneHeld(h: nat, c: nat, x: nat, x': nat)
    requires (h == 0 || c == 0) && x == 0 && x' == x + h * c
    ensures x' == 0
  {
  }

  /**
   * Importing into a partitioned tree stores each occurrence of the batch at most once: what
   * export yields afterwards is what it yielded before plus a sub-multiset of the batch.
   */
  lemma {:induction false} ImportAtMostOnce(n: Node, data: seq<Point>)
    requires Partitioned(n)
    ensures multiset(Flattened(Imported(n, data))) <= multiset(Flattened(n)) + multiset(data)
    ensures |Flattened(Imported(n, data))| <= |Flattened(n)| + |data|
  {
    var before, after := multiset(Flattened(n)), multiset(Flattened(Imported(n, data)));
    var bound := before + multiset(data);
    forall q
      ensures after[q] <= bound[q]
    {
      ImportCount(n, data, q);
      HitsBound(n, q);
      AtMostOnce(before[q], Hits(n, q), multiset(data)[q], after[q]);
    }
    SubMultisetSize(after, bound);
  }

  /** The arithmetic step of ImportAtMostOnce. */
  lemma AtMostOnce(x: nat, h: nat, c: nat, x': nat)
    requires x' == x + h * c && h <= 1
    ensures x' <= x + c
  {
  }

  lemma SubMultisetSize(a: multiset<Point>, b: multiset<Point>)
    requires forall q :: a[q] <= b[q]
    ensures a <= b && |a| <= |b|
  {
    var extra := b - a;
    assert b == a + extra;
  }

  /** Import changes no box, centre, radius or child list, so a partitioned tree stays partitioned. */
  lemma {:induction false} ImportKeepsPartitioned(n: Node, data: seq<Point>)
    requires Partitioned(n)
    ensures Partitioned(Imported(n, data))
    decreases n
  {
    var r := Imported(n, data);
    match NodesRef(n)
    case NoChildren =>
    case Children(kids) =>
      var kids' := NodesRef(r).nodes;
      assert kids' == ImportedAll(kids, data);
      forall i | 0 <= i < |kids'|
        ensures Partitioned(kids'[i]) && BoxWithin(CubePoints(kids'[i]), CubePoints(r))
      {
        ImportKeepsPartitioned(kids[i], data);
        SkeletonCubePoints(kids[i], kids'[i]);
      }
      forall i, j | 0 <= i < j < |kids'|
        ensures Apart(CubePoints(kids'[i]), CubePoints(kids'[j]))
      {
        SkeletonCubePoints(kids[i], kids'[i]);
        SkeletonCubePoints(kids[j], kids'[j]);
      }
  }

  /** Two nodes with the same skeleton have the same box. */
  lemma SkeletonCubePoints(a: Node, b: Node)
    requires Skeleton(a) == Skeleton(b)
    ensures CubePoints(a) == CubePoints(b)
  {
    assert CubePoints(Skeleton(a)) == CubePoints(a);
    assert CubePoints(Skeleton(b)) == CubePoints(b);
  }
}
