/**
 * The grid, its shape check and the 8-neighbour enumeration of utils.mjs.
 *
 * A grid is a sequence of rows; a point is (x, y) = (column, row).
 */
module Grids {
  import opened Cells

  type Grid = seq<seq<Cell>>

  datatype Point = Point(x: int, y: int)

  /** validateGrid: at least one row, and every row as long as the first one. */
  function ValidateGrid(g: Grid): (ok: bool)
    ensures ok <==> |g| > 0 && forall i, j :: 0 <= i < |g| && 0 <= j < |g| ==> |g[i]| == |g[j]|
  {
    |g| > 0 && forall row :: row in g ==> |row| == |g[0]|
  }

  predicate InBounds(p: Point, width: int, height: int)
  {
    0 <= p.x < width && 0 <= p.y < height
  }

  /** Inside the rectangle that the width of row 0 and the number of rows span. */
  predicate InGrid(g: Grid, p: Point)
  {
    |g| > 0 && InBounds(p, |g[0]|, |g|)
  }

  /**
   * grid[y][x]: reading past either end of an existing row gives undefined.
   * A missing row is a TypeError in JavaScript, so the row must exist.
   */
  function CellAt(g: Grid, p: Point): Cell
    requires 0 <= p.y < |g|
  {
    if 0 <= p.x < |g[p.y]| then g[p.y][p.x] else Undefined
  }

  /** 8-adjacency: a different cell at most one step away in each coordinate. */
  predicate IsNeighbour(p: Point, q: Point)
  {
    p != q && -1 <= q.x - p.x <= 1 && -1 <= q.y - p.y <= 1
  }

  lemma NeighbourSymmetric(p: Point, q: Point)
    ensures IsNeighbour(p, q) <==> IsNeighbour(q, p)
  {
  }

  /** The eight offsets, in the order the source lists them. */
  const Directions: seq<(int, int)> :=
    [(-1, -1), (-1, 0), (-1, 1), (0, -1), (0, 1), (1, -1), (1, 0), (1, 1)]

  function Shift(p: Point, d: (int, int)): Point
  {
    Point(p.x + d.0, p.y + d.1)
  }

  /** Maps the offsets to points and keeps those inside width x height, in order. */
  function InBoundsShifts(p: Point, dirs: seq<(int, int)>, width: int, height: int): (r: seq<Point>)
    ensures |r| <= |dirs|
    ensures forall q :: q in r <==> InBounds(q, width, height) && exists d :: d in dirs && q == Shift(p, d)
  {
    if dirs == [] then []
    else
      var q := Shift(p, dirs[0]);
      (if InBounds(q, width, height) then [q] else []) + InBoundsShifts(p, dirs[1..], width, height)
  }

  /** No element occurs twice. */
  predicate Distinct<T(==)>(s: seq<T>)
  {
    forall i, j :: 0 <= i < j < |s| ==> s[i] != s[j]
  }

  lemma {:induction false} InBoundsShiftsDistinct(p: Point, dirs: seq<(int, int)>, width: int, height: int)
    requires Distinct(dirs)
    ensures Distinct(InBoundsShifts(p, dirs, width, height))
  {
    if dirs != [] {
      InBoundsShiftsDistinct(p, dirs[1..], width, height);
      var rest := InBoundsShifts(p, dirs[1..], width, height);
      var q := Shift(p, dirs[0]);
      forall q' | q' in rest ensures q' != q {
        var d :| d in dirs[1..] && q' == Shift(p, d);
      }
      var head := if InBounds(q, width, height) then [q] else [];
      var r := head + rest;
      assert r == InBoundsShifts(p, dirs, width, height);
      forall i, j | 0 <= i < j < |r| ensures r[i] != r[j] {
        if i < |head| {
          assert r[j] == rest[j - |head|];
          assert r[j] in rest;
        } else {
          assert r[i] == rest[i - |head|] && r[j] == rest[j - |head|];
        }
      }
    }
  }

  lemma NeighbourIsDirection(p: Point, q: Point)
    ensures IsNeighbour(p, q) <==> exists d :: d in Directions && q == Shift(p, d)
  {
    if IsNeighbour(p, q) {
      var d := (q.x - p.x, q.y - p.y);
      assert q == Shift(p, d);
      assert d in Directions;
    }
  }

  /**
   * getAdjacentPoints: the neighbours of (x, y) that lie inside the grid's
   * rectangle, each once, at most eight of them.
   */
  function GetAdjacentPoints(x: int, y: int, g: Grid): (r: seq<Point>)
    requires |g| > 0
    ensures forall q :: q in r <==> InGrid(g, q) && IsNeighbour(Point(x, y), q)
    ensures Distinct(r)
    ensures |r| <= 8
  {
    var p := Point(x, y);
    InBoundsShiftsDistinct(p, Directions, |g[0]|, |g|);
    forall q ensures IsNeighbour(p, q) <==> exists d :: d in Directions && q == Shift(p, d) {
      NeighbourIsDirection(p, q);
    }
    InBoundsShifts(p, Directions, |g[0]|, |g|)
  }
}
