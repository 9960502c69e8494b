/**
 * The example grids of tests.mjs, and what the component partition that
 * findSignalRegions returns must look like on each of them.
 *
 * Every lemma here takes any family of regions meeting IsComponentPartition,
 * which FindSignalRegions ensures for a valid grid, so each one pins down the
 * regions that call returns (up to the order of points within a region).
 */
module Scenarios {
  import opened Wrappers
  import opened Cells
  import opened Grids
  import opened Centroids
  import opened Regions

  function N(v: real): Cell { Num(Finite(v)) }

  /** A run of distinct points has as many points as its set of points. */
  lemma {:induction false} DistinctCount(s: seq<Point>)
    requires Distinct(s)
    ensures |Elems(s)| == |s|
  {
    if s != [] {
      var init := s[..|s| - 1];
      assert Distinct(init);
      DistinctCount(init);
      assert Elems(s) == Elems(init) + {s[|s| - 1]};
      assert s[|s| - 1] !in Elems(init);
    }
  }

  /** In a run of distinct points each of its points occurs once. */
  lemma {:induction false} DistinctMultiplicity(s: seq<Point>, x: Point)
    requires Distinct(s)
    ensures multiset(s)[x] == if x in s then 1 else 0
  {
    if s != [] {
      var init := s[..|s| - 1];
      assert s == init + [s[|s| - 1]];
      assert Distinct(init);
      DistinctMultiplicity(init, x);
      assert x in s <==> x in init || x == s[|s| - 1];
    }
  }

  /** Two runs of distinct points with the same points are permutations of each other. */
  lemma SamePointsPermuted(s: seq<Point>, t: seq<Point>)
    requires Distinct(s) && Distinct(t) && Elems(s) == Elems(t)
    ensures multiset(s) == multiset(t)
  {
    forall x
      ensures multiset(s)[x] == multiset(t)[x]
    {
      DistinctMultiplicity(s, x);
      DistinctMultiplicity(t, x);
      assert x in s <==> x in Elems(s);
      assert x in t <==> x in Elems(t);
    }
  }

  /**
   * When the signal cells are exactly the points of one connected run, the
   * partition has exactly one region, and it holds every signal cell.
   */
  lemma OneComponent(g: Grid, threshold: real, rs: seq<Region>, path: seq<Point>)
    requires IsComponentPartition(g, threshold, rs)
    requires |path| > 0 && Connected(path)
    requires forall q :: IsSignal(g, threshold, q) <==> q in path
    ensures |rs| == 1
    ensures Elems(rs[0].points) == Elems(path)
  {
    assert Closed(g, threshold, path);
    assert path[0] in path && InSomeRegion(rs, path[0]);
    forall i | 0 <= i < |rs|
      ensures Elems(rs[i].points) == Elems(path) && path[0] in rs[i].points
    {
      var ps := rs[i].points;
      assert forall p :: p in ps ==> InSomeRegion(rs, p);
      assert ps[0] in ps;
      SameComponent(g, threshold, ps, path, ps[0]);
      assert path[0] in Elems(path);
    }
    if |rs| >= 2 {
      NotInBoth(rs, path[0]);
      assert false;
    }
  }

  /** Two disjoint regions do not share a point. */
  lemma NotInBoth(rs: seq<Region>, q: Point)
    requires PairwiseDisjoint(rs) && |rs| >= 2
    ensures q !in rs[0].points || q !in rs[1].points
  {
  }

  /** The first two points of a connected run are adjacent. */
  lemma FirstLink(ps: seq<Point>)
    requires Connected(ps) && |ps| > 1
    ensures IsNeighbour(ps[0], ps[1])
  {
    assert Linked(ps, 1);
  }

  /** connectivityGrid (tests.mjs:51-57): four signal corners, two steps apart from each other. */
  const ConnectivityGrid: Grid :=
    [[N(250.0), N(0.0), N(250.0)],
     [N(0.0), N(0.0), N(0.0)],
     [N(250.0), N(0.0), N(250.0)]]

  const Corners: seq<Point> := [Point(0, 0), Point(2, 0), Point(0, 2), Point(2, 2)]

  lemma ConnectivitySignals(q: Point)
    ensures IsSignal(ConnectivityGrid, 200.0, q) <==> q in Corners
  {
    if InGrid(ConnectivityGrid, q) {
      assert q.y == 0 || q.y == 1 || q.y == 2;
      assert q.x == 0 || q.x == 1 || q.x == 2;
    }
  }

  /**
   * With threshold 200 the connectivity grid has four regions, one per corner:
   * no two corners are adjacent, even diagonally.
   */
  lemma ConnectivityGridRegions(rs: seq<Region>)
    requires IsComponentPartition(ConnectivityGrid, 200.0, rs)
    ensures |rs| == 4
    ensures forall i :: 0 <= i < |rs| ==> |rs[i].points| == 1 && rs[i].points[0] in Corners
  {
    forall i | 0 <= i < |rs|
      ensures |rs[i].points| == 1 && rs[i].points[0] in Corners
    {
      var ps := rs[i].points;
      assert ps[0] in ps && InSomeRegion(rs, ps[0]);
      ConnectivitySignals(ps[0]);
      if |ps| > 1 {
        assert ps[1] in ps && InSomeRegion(rs, ps[1]);
        FirstLink(ps);
        ConnectivitySignals(ps[1]);
        assert false;
      }
    }
    var seeds := seq(|rs|, i requires 0 <= i < |rs| => rs[i].points[0]);
    forall i, j | 0 <= i < j < |rs|
      ensures seeds[i] != seeds[j]
    {
      assert seeds[i] in rs[i].points;
    }
    forall c | c in Corners
      ensures c in Elems(seeds)
    {
      ConnectivitySignals(c);
      var i :| 0 <= i < |rs| && c in rs[i].points;
      assert seeds[i] == c;
    }
    assert Elems(seeds) == Elems(Corners);
    DistinctCount(seeds);
    DistinctCount(Corners);
  }

  /** thresholdGrid (tests.mjs:28-31). */
  const ThresholdGrid: Grid :=
    [[N(200.0), N(201.0), N(199.0)],
     [N(198.0), N(200.0), N(202.0)]]

  /** The cells strictly above 199, in an order where each touches an earlier one. */
  const Above199: seq<Point> := [Point(0, 0), Point(1, 0), Point(1, 1), Point(2, 1)]

  /** The cells strictly above 200: 201 and 202, diagonal neighbours. */
  const Above200: seq<Point> := [Point(1, 0), Point(2, 1)]

  lemma ThresholdSignals(q: Point)
    ensures IsSignal(ThresholdGrid, 199.0, q) <==> q in Above199
    ensures IsSignal(ThresholdGrid, 200.0, q) <==> q in Above200
    ensures IsSignal(ThresholdGrid, 201.0, q) <==> q == Point(2, 1)
  {
    if InGrid(ThresholdGrid, q) {
      assert q.y == 0 || q.y == 1;
      assert q.x == 0 || q.x == 1 || q.x == 2;
    }
  }

  /** Threshold 199 (tests.mjs:34): the four cells above it hang together as one region. */
  lemma Threshold199Region(rs: seq<Region>)
    requires IsComponentPartition(ThresholdGrid, 199.0, rs)
    ensures |rs| == 1
    ensures Elems(rs[0].points) == {Point(0, 0), Point(1, 0), Point(1, 1), Point(2, 1)}
  {
    var P := Above199;
    assert Linked(P, 1) by { assert IsNeighbour(P[0], P[1]); }
    assert Linked(P, 2) by { assert IsNeighbour(P[1], P[2]); }
    assert Linked(P, 3) by { assert IsNeighbour(P[2], P[3]); }
    forall q
      ensures IsSignal(ThresholdGrid, 199.0, q) <==> q in P
    {
      ThresholdSignals(q);
    }
    OneComponent(ThresholdGrid, 199.0, rs, P);
    assert Elems(P) == {Point(0, 0), Point(1, 0), Point(1, 1), Point(2, 1)};
  }

  /**
   * Threshold 200 (tests.mjs:33): values equal to the threshold do not count,
   * and the two cells above it form one region whose centre of mass is
   * (605/403, 202/403), about (1.50, 0.50).
   */
  lemma Threshold200Region(rs: seq<Region>)
    requires IsComponentPartition(ThresholdGrid, 200.0, rs)
    ensures |rs| == 1
    ensures Elems(rs[0].points) == {Point(1, 0), Point(2, 1)}
    ensures RowsExist(ThresholdGrid, rs[0].points)
    ensures CenterOfMass(rs[0].points, ThresholdGrid) == Ok(Centroid(605.0 / 403.0, 202.0 / 403.0))
  {
    var P := Above200;
    assert Linked(P, 1) by { assert IsNeighbour(P[0], P[1]); }
    forall q
      ensures IsSignal(ThresholdGrid, 200.0, q) <==> q in P
    {
      ThresholdSignals(q);
    }
    OneComponent(ThresholdGrid, 200.0, rs, P);
    assert Elems(P) == {Point(1, 0), Point(2, 1)};
    SamePointsPermuted(P, rs[0].points);
    CenterOfMassOrderIndependent(P, rs[0].points, ThresholdGrid);
    ThresholdRegionCenterOfMass();
  }

  /** Threshold 201 (tests.mjs:35): only the 202 cell is above it. */
  lemma Threshold201Region(rs: seq<Region>)
    requires IsComponentPartition(ThresholdGrid, 201.0, rs)
    ensures |rs| == 1
    ensures rs[0].points == [Point(2, 1)]
  {
    var P := [Point(2, 1)];
    forall q
      ensures IsSignal(ThresholdGrid, 201.0, q) <==> q in P
    {
      ThresholdSignals(q);
    }
    OneComponent(ThresholdGrid, 201.0, rs, P);
    OnlyPoint(rs[0].points, Point(2, 1));
  }

  /** A run of distinct points whose only point is p is [p]. */
  lemma OnlyPoint(ps: seq<Point>, p: Point)
    requires Distinct(ps) && Elems(ps) == {p}
    ensures ps == [p]
  {
    DistinctCount(ps);
    assert ps[0] in Elems(ps);
  }

  /** The single-cell grid [[250]] (tests.mjs:70-74): one region holding its only cell. */
  lemma SingleCellRegion(rs: seq<Region>)
    requires IsComponentPartition([[N(250.0)]], 200.0, rs)
    ensures |rs| == 1
    ensures rs[0].points == [Point(0, 0)]
  {
    var P := [Point(0, 0)];
    forall q
      ensures IsSignal([[N(250.0)]], 200.0, q) <==> q in P
    {
    }
    OneComponent([[N(250.0)]], 200.0, rs, P);
    OnlyPoint(rs[0].points, Point(0, 0));
  }

  /** The grid with invalid values (tests.mjs:75-82). */
  const InvalidValuesGrid: Grid :=
    [[Num(NaN), N(250.0), Num(Infinity(false))],
     [N(250.0), Null, N(250.0)]]

  lemma InvalidValuesSignals(q: Point)
    ensures IsSignal(InvalidValuesGrid, 200.0, q) <==> q in [Point(1, 0), Point(0, 1), Point(2, 1)]
  {
    if InGrid(InvalidValuesGrid, q) {
      assert q.y == 0 || q.y == 1;
      assert q.x == 0 || q.x == 1 || q.x == 2;
    }
  }

  /**
   * NaN and Infinity never qualify and null counts as 0, so the three finite
   * 250 cells, diagonal neighbours of (1,0), make one region.
   */
  lemma InvalidValuesRegion(rs: seq<Region>)
    requires IsComponentPartition(InvalidValuesGrid, 200.0, rs)
    ensures |rs| == 1
    ensures Elems(rs[0].points) == {Point(1, 0), Point(0, 1), Point(2, 1)}
  {
    var P := [Point(1, 0), Point(0, 1), Point(2, 1)];
    assert Linked(P, 1) by { assert IsNeighbour(P[0], P[1]); }
    assert Linked(P, 2) by { assert IsNeighbour(P[0], P[2]); }
    forall q
      ensures IsSignal(InvalidValuesGrid, 200.0, q) <==> q in P
    {
      InvalidValuesSignals(q);
    }
    OneComponent(InvalidValuesGrid, 200.0, rs, P);
    assert Elems(P) == {Point(1, 0), Point(0, 1), Point(2, 1)};
  }

  /** mergingGrid (tests.mjs:117-121): an H of seven cells. */
  const MergingGrid: Grid :=
    [[N(250.0), N(250.0), N(250.0)],
     [N(0.0), N(250.0), N(0.0)],
     [N(250.0), N(250.0), N(250.0)]]

  /** The seven signal cells, in an order where each touches an earlier one. */
  const MergingPath: seq<Point> :=
    [Point(0, 0), Point(1, 0), Point(2, 0), Point(1, 1), Point(0, 2), Point(1, 2), Point(2, 2)]

  lemma MergingSignals(q: Point)
    ensures IsSignal(MergingGrid, 200.0, q) <==> q in MergingPath
  {
    if InGrid(MergingGrid, q) {
      assert q.y == 0 || q.y == 1 || q.y == 2;
      assert q.x == 0 || q.x == 1 || q.x == 2;
    }
  }

  /** The seven cells, each with value 250, balance around the middle cell. */
  lemma MergingPathCenterOfMass()
    ensures CenterOfMass(MergingPath, MergingGrid) == Ok(Centroid(1.0, 1.0))
  {
    var P := MergingPath;
    var g := MergingGrid;
    forall k | 0 < k < |P|
      ensures P[..k + 1][..k] == P[..k] && Weight(g, P[k]) == 250.0
    {
    }
    assert Sum(g, P[..1], Mass) == 250.0 && Sum(g, P[..1], MomentAlong(X)) == 0.0 && Sum(g, P[..1], MomentAlong(Y)) == 0.0;
    assert Sum(g, P[..2], Mass) == 500.0 && Sum(g, P[..2], MomentAlong(X)) == 250.0 && Sum(g, P[..2], MomentAlong(Y)) == 0.0;
    assert Sum(g, P[..3], Mass) == 750.0 && Sum(g, P[..3], MomentAlong(X)) == 750.0 && Sum(g, P[..3], MomentAlong(Y)) == 0.0;
    assert Sum(g, P[..4], Mass) == 1000.0 && Sum(g, P[..4], MomentAlong(X)) == 1000.0 && Sum(g, P[..4], MomentAlong(Y)) == 250.0;
    assert Sum(g, P[..5], Mass) == 1250.0 && Sum(g, P[..5], MomentAlong(X)) == 1000.0 && Sum(g, P[..5], MomentAlong(Y)) == 750.0;
    assert Sum(g, P[..6], Mass) == 1500.0 && Sum(g, P[..6], MomentAlong(X)) == 1250.0 && Sum(g, P[..6], MomentAlong(Y)) == 1250.0;
    assert Sum(g, P[..7], Mass) == 1750.0 && Sum(g, P[..7], MomentAlong(X)) == 1750.0 && Sum(g, P[..7], MomentAlong(Y)) == 1750.0;
    assert P[..7] == P;
  }

  /**
   * The merging grid is one region of all seven cells (the top and bottom bars
   * join through the middle cell), centred on (1, 1).
   */
  lemma MergingGridRegion(rs: seq<Region>)
    requires IsComponentPartition(MergingGrid, 200.0, rs)
    ensures |rs| == 1
    ensures Elems(rs[0].points) == Elems(MergingPath)
    ensures RowsExist(MergingGrid, rs[0].points)
    ensures CenterOfMass(rs[0].points, MergingGrid) == Ok(Centroid(1.0, 1.0))
  {
    var P := MergingPath;
    assert Linked(P, 1) by { assert IsNeighbour(P[0], P[1]); }
    assert Linked(P, 2) by { assert IsNeighbour(P[1], P[2]); }
    assert Linked(P, 3) by { assert IsNeighbour(P[2], P[3]); }
    assert Linked(P, 4) by { assert IsNeighbour(P[3], P[4]); }
    assert Linked(P, 5) by { assert IsNeighbour(P[4], P[5]); }
    assert Linked(P, 6) by { assert IsNeighbour(P[5], P[6]); }
    forall q
      ensures IsSignal(MergingGrid, 200.0, q) <==> q in P
    {
      MergingSignals(q);
    }
    OneComponent(MergingGrid, 200.0, rs, P);
    assert Distinct(P);
    SamePointsPermuted(P, rs[0].points);
    CenterOfMassOrderIndependent(P, rs[0].points, MergingGrid);
    MergingPathCenterOfMass();
  }

  /**
   * The empty grid (tests.mjs:65-69) and the irregular grid [[250], [250, 250]]
   * (tests.mjs:83-87) both give no regions.
   */
  method RejectedGrids() returns (empty: seq<Region>, irregular: seq<Region>)
    ensures empty == [] && irregular == []
  {
    empty := FindSignalRegions([], 200.0);
    var g := [[N(250.0)], [N(250.0), N(250.0)]];
    assert |g[1]| != |g[0]|;
    irregular := FindSignalRegions(g, 200.0);
  }

  /**
   * findSignalRegions on thresholdGrid at 200 (tests.mjs:33): one region of
   * (1,0) and (2,1), found from (1,0) first, with centre (605/403, 202/403).
   */
  method ThresholdGridAt200() returns (regions: seq<Region>)
    ensures |regions| == 1
    ensures regions[0].points == [Point(1, 0), Point(2, 1)]
    ensures regions[0].centerOfMass == Some(Centroid(605.0 / 403.0, 202.0 / 403.0))
  {
    assert ValidateGrid(ThresholdGrid);
    regions := FindSignalRegions(ThresholdGrid, 200.0);
    Threshold200Region(regions);
    var ps := regions[0].points;
    assert Point(1, 0) in Elems(ps) && Point(2, 1) in Elems(ps);
    DistinctCount(ps);
    assert |Elems(ps)| == 2;
    assert ps[0] == Point(1, 0) by {
      assert ps[0] in Elems(ps);
      assert Point(1, 0) in ps;
    }
    assert ps[1] in Elems(ps);
  }
}
