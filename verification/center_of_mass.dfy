/**
 * calculateCenterOfMass of utils.mjs: the value-weighted mean position of a
 * list of points, with its two failures (an invalid cell, a zero total weight).
 * Coordinates are exact quotients of reals.
 */
module Centroids {
  import opened Wrappers
  import opened Cells
  import opened Grids

  datatype Centroid = Centroid(x: real, y: real)

  /** The two errors the source throws. */
  datatype CentroidError = InvalidCellValue | InvalidTotalWeight

  datatype Axis = X | Y

  function Coord(p: Point, a: Axis): real
  {
    match a
    case X => p.x as real
    case Y => p.y as real
  }

  function CentroidCoord(c: Centroid, a: Axis): real
  {
    match a
    case X => c.x
    case Y => c.y
  }

  /** Every point's row exists, so reading grid[y][x] raises no TypeError. */
  predicate RowsExist(g: Grid, pts: seq<Point>)
  {
    forall p :: p in pts ==> 0 <= p.y < |g|
  }

  predicate AllValid(g: Grid, pts: seq<Point>)
    requires RowsExist(g, pts)
  {
    forall p :: p in pts ==> ValidateCell(CellAt(g, p))
  }

  /**
   * What one point adds to a running sum: its value, or a coordinate times its
   * value (the source's three accumulators), or its value times a constant
   * (used by the proofs below only).
   */
  datatype Quantity = Mass | MomentAlong(axis: Axis) | ScaledMass(factor: real)

  /** The value at a point as the sums use it; points without a valid cell add nothing. */
  function Weight(g: Grid, p: Point): real
  {
    if 0 <= p.y < |g| && ValidateCell(CellAt(g, p)) then Value(CellAt(g, p)) else 0.0
  }

  function Term(g: Grid, p: Point, k: Quantity): real
  {
    match k
    case Mass => Weight(g, p)
    case MomentAlong(a) => Coord(p, a) * Weight(g, p)
    case ScaledMass(f) => f * Weight(g, p)
  }

  /** The sum of a quantity over the points, accumulated from the first point on. */
  function Sum(g: Grid, pts: seq<Point>, k: Quantity): real
  {
    if pts == [] then 0.0
    else Sum(g, pts[..|pts| - 1], k) + Term(g, pts[|pts| - 1], k)
  }

  /**
   * The centre of mass (sum of x * value / total, sum of y * value / total),
   * or the error the source throws first: an invalid cell anywhere, else a
   * total weight of zero.
   */
  function CenterOfMass(pts: seq<Point>, g: Grid): Result<Centroid, CentroidError>
    requires RowsExist(g, pts)
  {
    if !AllValid(g, pts) then Err(InvalidCellValue)
    else
      var total := Sum(g, pts, Mass);
      if total == 0.0 then Err(InvalidTotalWeight)
      else Ok(Centroid(Sum(g, pts, MomentAlong(X)) / total, Sum(g, pts, MomentAlong(Y)) / total))
  }

  /** calculateCenterOfMass: one pass over the points, accumulating the three sums. */
  method CalculateCenterOfMass(pts: seq<Point>, g: Grid) returns (r: Result<Centroid, CentroidError>)
    requires RowsExist(g, pts)
    ensures r == CenterOfMass(pts, g)
  {
    var totalWeight, weightedSumX, weightedSumY := 0.0, 0.0, 0.0;
    for i := 0 to |pts|
      invariant RowsExist(g, pts[..i]) && AllValid(g, pts[..i])
      invariant totalWeight == Sum(g, pts[..i], Mass)
      invariant weightedSumX == Sum(g, pts[..i], MomentAlong(X))
      invariant weightedSumY == Sum(g, pts[..i], MomentAlong(Y))
    {
      var p := pts[i];
      var value := CellAt(g, p);
      if !ValidateCell(value) {
        assert p in pts;
        return Err(InvalidCellValue);
      }
      totalWeight := totalWeight + Value(value);
      weightedSumX := weightedSumX + p.x as real * Value(value);
      weightedSumY := weightedSumY + p.y as real * Value(value);
      assert pts[..i + 1][..i] == pts[..i];
    }
    assert pts[..|pts|] == pts;
    if totalWeight == 0.0 {
      return Err(InvalidTotalWeight);
    }
    return Ok(Centroid(weightedSumX / totalWeight, weightedSumY / totalWeight));
  }

  lemma {:induction false} SumAppend(g: Grid, a: seq<Point>, b: seq<Point>, k: Quantity)
    ensures Sum(g, a + b, k) == Sum(g, a, k) + Sum(g, b, k)
  {
    if b == [] {
      assert a + b == a;
    } else {
      var b' := b[..|b| - 1];
      assert (a + b)[..|a + b| - 1] == a + b';
      assert (a + b)[|a + b| - 1] == b[|b| - 1];
      SumAppend(g, a, b', k);
    }
  }

  /** Taking one point out of the list takes its term out of the sum. */
  lemma SumRemove(g: Grid, qs: seq<Point>, i: nat, k: Quantity)
    requires i < |qs|
    ensures Sum(g, qs, k) == Sum(g, qs[..i] + qs[i + 1..], k) + Sum(g, [qs[i]], k)
  {
    assert qs == qs[..i] + [qs[i]] + qs[i + 1..];
    SumAppend(g, qs[..i] + [qs[i]], qs[i + 1..], k);
    SumAppend(g, qs[..i], [qs[i]], k);
    SumAppend(g, qs[..i], qs[i + 1..], k);
  }

  lemma RemoveMultiset(qs: seq<Point>, i: nat)
    requires i < |qs|
    ensures multiset(qs[..i] + qs[i + 1..]) == multiset(qs) - multiset{qs[i]}
  {
    assert qs == qs[..i] + [qs[i]] + qs[i + 1..];
  }

  /** The order of the points does not matter: the sums depend on the multiset only. */
  lemma {:induction false} SumPermutation(g: Grid, pts: seq<Point>, qs: seq<Point>, k: Quantity)
    requires multiset(pts) == multiset(qs)
    ensures Sum(g, pts, k) == Sum(g, qs, k)
  {
    if pts == [] {
      assert |qs| == |multiset(qs)| == 0;
    } else {
      var n := |pts| - 1;
      var e := pts[n];
      assert e in multiset(qs);
      var i :| 0 <= i < |qs| && qs[i] == e;
      RemoveMultiset(pts, n);
      RemoveMultiset(qs, i);
      assert pts[..n] + pts[n + 1..] == pts[..n];
      SumPermutation(g, pts[..n], qs[..i] + qs[i + 1..], k);
      SumRemove(g, qs, i, k);
      SumRemove(g, pts, n, k);
    }
  }

  /** The centre of mass is the same whatever order the region's points are listed in. */
  lemma CenterOfMassOrderIndependent(pts: seq<Point>, qs: seq<Point>, g: Grid)
    requires multiset(pts) == multiset(qs)
    requires RowsExist(g, pts)
    ensures RowsExist(g, qs)
    ensures CenterOfMass(pts, g) == CenterOfMass(qs, g)
  {
    assert forall p :: p in qs <==> p in multiset(qs);
    assert forall p :: p in pts <==> p in multiset(pts);
    SumPermutation(g, pts, qs, Mass);
    SumPermutation(g, pts, qs, MomentAlong(X));
    SumPermutation(g, pts, qs, MomentAlong(Y));
  }

  /** Positive weights on a non-empty list give a positive total. */
  lemma {:induction false} TotalPositive(g: Grid, pts: seq<Point>)
    requires forall p :: p in pts ==> Weight(g, p) > 0.0
    requires pts != []
    ensures Sum(g, pts, Mass) > 0.0
  {
    var n := |pts| - 1;
    assert pts[n] in pts;
    if n > 0 {
      assert forall p :: p in pts[..n] ==> p in pts;
      TotalPositive(g, pts[..n]);
    }
  }

  lemma SumLast(g: Grid, pts: seq<Point>, k: Quantity)
    requires pts != []
    ensures Sum(g, pts, k) == Sum(g, pts[..|pts| - 1], k) + Term(g, pts[|pts| - 1], k)
  {
  }

  /** Scaling every value by f scales the total by f. */
  lemma {:induction false} ScaledTotal(g: Grid, pts: seq<Point>, f: real)
    ensures Sum(g, pts, ScaledMass(f)) == f * Sum(g, pts, Mass)
  {
    if pts != [] {
      var n := |pts| - 1;
      ScaledTotal(g, pts[..n], f);
      SumLast(g, pts, Mass);
      SumLast(g, pts, ScaledMass(f));
      Distribute(f, Sum(g, pts[..n], Mass), Weight(g, pts[n]), Sum(g, pts, Mass));
    }
  }

  lemma Distribute(f: real, total: real, w: real, total': real)
    requires total' == total + w
    ensures f * total' == f * total + f * w
  {
  }

  /** A sum of terms that each dominate another term dominates the other sum. */
  lemma {:induction false} SumDominates(g: Grid, pts: seq<Point>, k: Quantity, k': Quantity)
    requires forall i :: 0 <= i < |pts| ==> Term(g, pts[i], k) <= Term(g, pts[i], k')
    ensures Sum(g, pts, k) <= Sum(g, pts, k')
  {
    if pts != [] {
      var n := |pts| - 1;
      assert forall i :: 0 <= i < n ==> pts[..n][i] == pts[i];
      SumDominates(g, pts[..n], k, k');
      SumLast(g, pts, k);
      SumLast(g, pts, k');
    }
  }

  /** lo * value <= coordinate * value <= hi * value for a non-negative value. */
  lemma TermBounds(g: Grid, p: Point, a: Axis, lo: real, hi: real)
    requires Weight(g, p) >= 0.0 && lo <= Coord(p, a) <= hi
    ensures Term(g, p, ScaledMass(lo)) <= Term(g, p, MomentAlong(a)) <= Term(g, p, ScaledMass(hi))
  {
    var w, c := Weight(g, p), Coord(p, a);
    assert (c - lo) * w >= 0.0;
    assert (hi - c) * w >= 0.0;
  }

  /** With non-negative weights, lo * total <= moment <= hi * total when lo <= coordinate <= hi. */
  lemma MomentBounds(g: Grid, pts: seq<Point>, a: Axis, lo: real, hi: real)
    requires forall p :: p in pts ==> Weight(g, p) >= 0.0 && lo <= Coord(p, a) <= hi
    ensures lo * Sum(g, pts, Mass) <= Sum(g, pts, MomentAlong(a)) <= hi * Sum(g, pts, Mass)
  {
    forall i | 0 <= i < |pts|
      ensures Term(g, pts[i], ScaledMass(lo)) <= Term(g, pts[i], MomentAlong(a)) <= Term(g, pts[i], ScaledMass(hi))
    {
      assert pts[i] in pts;
      TermBounds(g, pts[i], a, lo, hi);
    }
    SumDominates(g, pts, ScaledMass(lo), MomentAlong(a));
    SumDominates(g, pts, MomentAlong(a), ScaledMass(hi));
    ScaledTotal(g, pts, lo);
    ScaledTotal(g, pts, hi);
  }

  /**
   * A centre of mass of points with positive values exists and lies in the
   * bounding box of the points, along either axis.
   */
  lemma CenterOfMassWithinBounds(pts: seq<Point>, g: Grid, a: Axis, lo: real, hi: real)
    requires RowsExist(g, pts) && pts != []
    requires forall p :: p in pts ==> Weight(g, p) > 0.0 && lo <= Coord(p, a) <= hi
    ensures CenterOfMass(pts, g).Ok?
    ensures lo <= CentroidCoord(CenterOfMass(pts, g).value, a) <= hi
  {
    var total := Sum(g, pts, Mass);
    var m := Sum(g, pts, MomentAlong(a));
    assert total > 0.0 && lo * total <= m <= hi * total by {
      TotalPositive(g, pts);
      MomentBounds(g, pts, a, lo, hi);
    }
    assert AllValid(g, pts);
    assert CentroidCoord(CenterOfMass(pts, g).value, a) == m / total;
    QuotientBounds(m, total, lo, hi);
  }

  /** Points that all carry a positive value have a centre of mass. */
  lemma PositiveValuesHaveCenter(pts: seq<Point>, g: Grid)
    requires RowsExist(g, pts) && pts != []
    requires forall p :: p in pts ==> Weight(g, p) > 0.0
    ensures CenterOfMass(pts, g).Ok?
  {
    TotalPositive(g, pts);
  }

  lemma QuotientBounds(m: real, total: real, lo: real, hi: real)
    requires total > 0.0 && lo * total <= m <= hi * total
    ensures lo <= m / total <= hi
  {
    var q := m / total;
    assert q * total == m;
  }

  /**
   * The region of the threshold-boundary grid in tests.mjs (values 201 at (1,0)
   * and 202 at (2,1)): its centre of mass is (605/403, 202/403).
   */
  lemma ThresholdRegionCenterOfMass()
    ensures var g := [[Num(Finite(200.0)), Num(Finite(201.0)), Num(Finite(199.0))],
                      [Num(Finite(198.0)), Num(Finite(200.0)), Num(Finite(202.0))]];
      CenterOfMass([Point(1, 0), Point(2, 1)], g) == Ok(Centroid(605.0 / 403.0, 202.0 / 403.0))
  {
    var g := [[Num(Finite(200.0)), Num(Finite(201.0)), Num(Finite(199.0))],
              [Num(Finite(198.0)), Num(Finite(200.0)), Num(Finite(202.0))]];
    var pts := [Point(1, 0), Point(2, 1)];
    assert pts[..1] == [Point(1, 0)] && pts[..1][..0] == [];
    assert Weight(g, pts[0]) == 201.0 && Weight(g, pts[1]) == 202.0;
    assert Sum(g, pts, Mass) == 403.0;
    assert Sum(g, pts, MomentAlong(X)) == 605.0;
    assert Sum(g, pts, MomentAlong(Y)) == 202.0;
  }

  /** Two cells with values 100 and 300 at (0,0) and (1,0): the centre of mass is (0.75, 0). */
  lemma TwoCellCenterOfMass()
    ensures CenterOfMass([Point(0, 0), Point(1, 0)], [[Num(Finite(100.0)), Num(Finite(300.0))]])
            == Ok(Centroid(0.75, 0.0))
  {
    var g := [[Num(Finite(100.0)), Num(Finite(300.0))]];
    var pts := [Point(0, 0), Point(1, 0)];
    assert pts[..1] == [Point(0, 0)] && pts[..1][..0] == [];
    assert Sum(g, pts, Mass) == 400.0;
    assert Sum(g, pts, MomentAlong(X)) == 300.0;
    assert Sum(g, pts, MomentAlong(Y)) == 0.0;
  }
}
