/**
 * exploreRegion and findSignalRegions of utils.mjs: the flood fill with an
 * explicit stack and the row-major scan that turns the grid into its signal
 * regions, each with its centre of mass.
 */
module Regions {
  import opened Wrappers
  import opened Cells
  import opened Grids
  import opened Centroids

  /**
   * The scan's visited Set, shared by the scan and every exploration and
   * updated in place. A point stands for the source's "x,y" string key.
   */
  class VisitedSet {
    var members: set<Point>

    constructor ()
      ensures members == {}
    {
      members := {};
    }
  }

  /** One region: its points in discovery order and its centre of mass, if that could be computed. */
  datatype Region = Region(points: seq<Point>, centerOfMass: Option<Centroid>)

  /** The cell at p exists in its row's range of rows and qualifies. */
  predicate QualifiesAt(g: Grid, threshold: real, p: Point)
  {
    0 <= p.y < |g| && Qualifies(CellAt(g, p), threshold)
  }

  /** A signal cell: inside the grid and qualifying. */
  predicate IsSignal(g: Grid, threshold: real, p: Point)
  {
    InGrid(g, p) && QualifiesAt(g, threshold, p)
  }

  /** The point at index i is adjacent to an earlier point. */
  ghost predicate Linked(ps: seq<Point>, i: int)
    requires 0 <= i < |ps|
  {
    exists j :: 0 <= j < i && IsNeighbour(ps[j], ps[i])
  }

  /** q is adjacent to one of the points. */
  ghost predicate Touches(ps: seq<Point>, q: Point)
  {
    exists j :: 0 <= j < |ps| && IsNeighbour(ps[j], q)
  }

  /** Each point after the first is adjacent to an earlier one, so all hang together. */
  ghost predicate Connected(ps: seq<Point>)
  {
    forall i :: 0 < i < |ps| ==> Linked(ps, i)
  }

  /** No signal cell adjacent to a point of ps lies outside ps. */
  ghost predicate Closed(g: Grid, threshold: real, ps: seq<Point>)
  {
    forall p, q :: p in ps && IsNeighbour(p, q) && IsSignal(g, threshold, q) ==> q in ps
  }

  ghost predicate InSomeRegion(rs: seq<Region>, q: Point)
  {
    exists i :: 0 <= i < |rs| && q in rs[i].points
  }

  ghost predicate PairwiseDisjoint(rs: seq<Region>)
  {
    forall i, j, q :: 0 <= i < j < |rs| && q in rs[i].points ==> q !in rs[j].points
  }

  /**
   * The regions are the 8-connected components of the signal cells: each is
   * non-empty, repeats no point, hangs together and is closed under adjacency
   * among signal cells; no two share a point; together they hold exactly the
   * signal cells.
   */
  ghost predicate IsComponentPartition(g: Grid, threshold: real, rs: seq<Region>)
  {
    && (forall i :: 0 <= i < |rs| ==>
          |rs[i].points| > 0 && Distinct(rs[i].points) && Connected(rs[i].points) && Closed(g, threshold, rs[i].points))
    && PairwiseDisjoint(rs)
    && (forall q :: InSomeRegion(rs, q) <==> IsSignal(g, threshold, q))
  }

  /** p comes before q in the scan: rows top to bottom, columns left to right within a row. */
  predicate RowMajorBefore(p: Point, q: Point)
  {
    p.y < q.y || (p.y == q.y && p.x < q.x)
  }

  ghost function Elems(s: seq<Point>): set<Point>
  {
    set q | q in s
  }

  /** The cells of the grid's rectangle. */
  ghost function Box(g: Grid): set<Point>
    requires |g| > 0
  {
    set x, y | 0 <= x < |g[0]| && 0 <= y < |g| :: Point(x, y)
  }

  lemma InBox(g: Grid, q: Point)
    requires InGrid(g, q)
    ensures q in Box(g)
  {
    assert q == Point(q.x, q.y);
  }

  /** The cells of the grid's rectangle adjacent to p. */
  ghost function Around(g: Grid, p: Point): set<Point>
    requires |g| > 0
  {
    set q | q in Box(g) && IsNeighbour(p, q)
  }

  lemma AroundMembers(g: Grid, p: Point)
    requires |g| > 0
    ensures forall q :: q in Around(g, p) <==> InGrid(g, q) && IsNeighbour(p, q)
  {
    forall q | InGrid(g, q)
      ensures q in Box(g)
    {
      InBox(g, q);
    }
  }

  /** Every cell of the grid's rectangle adjacent to some point of ps. */
  ghost function Fringe(g: Grid, ps: seq<Point>): set<Point>
    requires |g| > 0
  {
    if ps == [] then {} else Fringe(g, ps[..|ps| - 1]) + Around(g, ps[|ps| - 1])
  }

  lemma {:induction false} FringeMembers(g: Grid, ps: seq<Point>)
    requires |g| > 0
    ensures forall q :: q in Fringe(g, ps) <==> InGrid(g, q) && exists p :: p in ps && IsNeighbour(p, q)
  {
    if ps != [] {
      var n := |ps| - 1;
      FringeMembers(g, ps[..n]);
      AroundMembers(g, ps[n]);
      assert ps == ps[..n] + [ps[n]];
      forall q | InGrid(g, q) && (exists p :: p in ps && IsNeighbour(p, q))
        ensures q in Fringe(g, ps)
      {
        var p :| p in ps && IsNeighbour(p, q);
        if p != ps[n] {
          assert p in ps[..n];
        }
      }
    }
  }

  /** The filter of unvisited points applied to the neighbours before they are pushed. */
  function Unvisited(ps: seq<Point>, visited: set<Point>): (r: seq<Point>)
    ensures forall q :: q in r <==> q in ps && q !in visited
  {
    if ps == [] then []
    else (if ps[0] in visited then [] else [ps[0]]) + Unvisited(ps[1..], visited)
  }

  /*
   * What holds between two iterations of the exploration from seed, begun on
   * the visited set before, in four parts.
   */

  /** The pending points are the seed or grid cells; the visited and pending points are the old ones, the seed and the recorded points' neighbours. */
  ghost predicate ExploreFrame(g: Grid, seed: Point, before: set<Point>,
                               visited: set<Point>, stack: seq<Point>, points: seq<Point>)
  {
    && 0 <= seed.y < |g|
    && (forall q :: q in stack ==> q == seed || InGrid(g, q))
    && before <= visited
    && visited + Elems(stack) == before + {seed} + Fringe(g, points)
  }

  /** The recorded points are distinct, new, visited and qualifying, and they are all the qualifying points visited since. */
  ghost predicate ExploreRecord(g: Grid, threshold: real, seed: Point, before: set<Point>,
                                visited: set<Point>, points: seq<Point>)
  {
    && Distinct(points)
    && (forall p :: p in points ==>
          p in visited && p !in before && QualifiesAt(g, threshold, p) && (p == seed || InGrid(g, p)))
    && (forall q :: q in visited && q !in before && QualifiesAt(g, threshold, q) ==> q in points)
  }

  /** Until something is recorded, the seed is pending or has been rejected; afterwards it comes first. */
  ghost predicate ExploreStart(g: Grid, threshold: real, seed: Point, before: set<Point>,
                               visited: set<Point>, stack: seq<Point>, points: seq<Point>)
  {
    && (points == [] ==> stack == [] || (stack == [seed] && visited == before))
    && (points == [] && stack == [] ==> seed in before || !QualifiesAt(g, threshold, seed))
    && (points != [] ==> points[0] == seed)
  }

  /** The recorded points hang together, and each pending point is the seed or next to a recorded one. */
  ghost predicate ExploreLinks(seed: Point, stack: seq<Point>, points: seq<Point>)
  {
    && Connected(points)
    && (forall q :: q in stack ==> q == seed || Touches(points, q))
  }

  ghost predicate ExploreInv(g: Grid, threshold: real, seed: Point, before: set<Point>,
                             visited: set<Point>, stack: seq<Point>, points: seq<Point>)
  {
    && ExploreFrame(g, seed, before, visited, stack, points)
    && ExploreRecord(g, threshold, seed, before, visited, points)
    && ExploreStart(g, threshold, seed, before, visited, stack, points)
    && ExploreLinks(seed, stack, points)
  }

  /** Popping a point that is already visited. */
  lemma SkipStep(g: Grid, threshold: real, seed: Point, before: set<Point>,
                 visited: set<Point>, stack: seq<Point>, points: seq<Point>)
    requires ExploreInv(g, threshold, seed, before, visited, stack, points)
    requires stack != [] && stack[|stack| - 1] in visited
    ensures ExploreInv(g, threshold, seed, before, visited, stack[..|stack| - 1], points)
  {
    var rest, p := stack[..|stack| - 1], stack[|stack| - 1];
    assert stack == rest + [p];
    assert Elems(rest + [p]) == Elems(rest) + {p};
    assert forall q :: q in rest ==> q in rest + [p];
    assert rest + [p] == [seed] ==> rest == [];
  }

  /** Popping an unvisited point that does not qualify: it is only marked. */
  lemma MarkStep(g: Grid, threshold: real, seed: Point, before: set<Point>,
                 visited: set<Point>, stack: seq<Point>, points: seq<Point>)
    requires ExploreInv(g, threshold, seed, before, visited, stack, points)
    requires stack != [] && stack[|stack| - 1] !in visited && !QualifiesAt(g, threshold, stack[|stack| - 1])
    ensures ExploreInv(g, threshold, seed, before, visited + {stack[|stack| - 1]}, stack[..|stack| - 1], points)
  {
    var rest, p := stack[..|stack| - 1], stack[|stack| - 1];
    assert stack == rest + [p];
    assert Elems(rest + [p]) == Elems(rest) + {p};
    assert forall q :: q in rest ==> q in rest + [p];
    assert rest + [p] == [seed] ==> rest == [] && p == seed;
  }

  /** Popping an unvisited qualifying point: it is marked, recorded, and its unvisited neighbours are pushed. */
  lemma GrowStep(g: Grid, threshold: real, seed: Point, before: set<Point>,
                 visited: set<Point>, stack: seq<Point>, adjacent: seq<Point>, points: seq<Point>)
    requires ExploreInv(g, threshold, seed, before, visited, stack, points)
    requires stack != [] && stack[|stack| - 1] !in visited && QualifiesAt(g, threshold, stack[|stack| - 1])
    requires forall q :: q in adjacent <==> InGrid(g, q) && IsNeighbour(stack[|stack| - 1], q)
    ensures var p := stack[|stack| - 1];
      var stack' := stack[..|stack| - 1] + Unvisited(adjacent, visited + {p});
      && ExploreFrame(g, seed, before, visited + {p}, stack', points + [p])
      && ExploreRecord(g, threshold, seed, before, visited + {p}, points + [p])
      && ExploreStart(g, threshold, seed, before, visited + {p}, stack', points + [p])
      && ExploreLinks(seed, stack', points + [p])
  {
    var rest, p := stack[..|stack| - 1], stack[|stack| - 1];
    var pushed := Unvisited(adjacent, visited + {p});
    assert stack == rest + [p];
    assert p in rest + [p];
    assert forall q :: q in rest ==> q in rest + [p];
    assert ExploreFrame(g, seed, before, visited + {p}, rest + pushed, points + [p]) by {
      GrowFringe(g, before, seed, visited, rest, p, pushed, points);
    }
    GrowRecorded(g, threshold, seed, before, visited, points, p);
    assert points == [] ==> rest == [] && p == seed;
    assert (points + [p])[0] == seed;
    if points != [] {
      assert p != seed && Touches(points, p);
    }
    GrowConnected(points, p);
    GrowLinks(seed, rest, pushed, points, p);
  }

  /** The recorded points stay distinct, new, visited and qualifying, and remain all the qualifying visited points. */
  lemma GrowRecorded(g: Grid, threshold: real, seed: Point, before: set<Point>,
                     visited: set<Point>, points: seq<Point>, p: Point)
    requires before <= visited && p !in visited
    requires QualifiesAt(g, threshold, p) && (p == seed || InGrid(g, p))
    requires Distinct(points)
    requires forall q :: q in points ==>
      q in visited && q !in before && QualifiesAt(g, threshold, q) && (q == seed || InGrid(g, q))
    requires forall q :: q in visited && q !in before && QualifiesAt(g, threshold, q) ==> q in points
    ensures ExploreRecord(g, threshold, seed, before, visited + {p}, points + [p])
  {
    assert p !in points;
  }

  /** The visited-or-pending points grow by the new point's neighbourhood, as the fringe does. */
  lemma GrowFringe(g: Grid, before: set<Point>, seed: Point, visited: set<Point>,
                   rest: seq<Point>, p: Point, pushed: seq<Point>, points: seq<Point>)
    requires |g| > 0
    requires visited + Elems(rest + [p]) == before + {seed} + Fringe(g, points)
    requires forall q :: q in pushed <==> InGrid(g, q) && IsNeighbour(p, q) && q !in visited + {p}
    ensures visited + {p} + Elems(rest + pushed) == before + {seed} + Fringe(g, points + [p])
  {
    assert Elems(rest + [p]) == Elems(rest) + {p};
    assert Elems(rest + pushed) == Elems(rest) + Elems(pushed);
    assert Elems(pushed) == Around(g, p) - (visited + {p}) by {
      AroundMembers(g, p);
    }
    FringeSnoc(g, points, p);
    MarkAndPush(visited, before + {seed}, Elems(rest), Elems(pushed), Fringe(g, points), Around(g, p), p);
  }

  /** The set algebra of one growth step, on plain sets. */
  lemma MarkAndPush<T>(visited: set<T>, start: set<T>, rest: set<T>, pushed: set<T>, fringe: set<T>, around: set<T>, p: T)
    requires visited + (rest + {p}) == start + fringe
    requires pushed == around - (visited + {p})
    ensures visited + {p} + (rest + pushed) == start + (fringe + around)
  {
  }

  lemma FringeSnoc(g: Grid, ps: seq<Point>, p: Point)
    requires |g| > 0
    ensures Fringe(g, ps + [p]) == Fringe(g, ps) + Around(g, p)
  {
    assert (ps + [p])[..|ps|] == ps;
  }

  /** Appending a point next to an earlier one, or the first point, keeps the points hanging together. */
  lemma GrowConnected(points: seq<Point>, p: Point)
    requires Connected(points)
    requires points != [] ==> Touches(points, p)
    ensures Connected(points + [p])
  {
    var points' := points + [p];
    forall i | 0 < i < |points'|
      ensures Linked(points', i)
    {
      if i < |points| {
        assert Linked(points, i);
        var j :| 0 <= j < i && IsNeighbour(points[j], points[i]);
        assert points'[j] == points[j] && points'[i] == points[i];
      } else {
        var j :| 0 <= j < |points| && IsNeighbour(points[j], p);
        assert points'[j] == points[j] && points'[i] == p;
      }
    }
  }

  /** After a growth step every pending point is still the seed or next to a recorded point. */
  lemma GrowLinks(seed: Point, rest: seq<Point>, pushed: seq<Point>, points: seq<Point>, p: Point)
    requires forall q :: q in rest ==> q == seed || Touches(points, q)
    requires forall q :: q in pushed ==> IsNeighbour(p, q)
    ensures forall q :: q in rest + pushed ==> q == seed || Touches(points + [p], q)
  {
    var points' := points + [p];
    forall q | q in rest + pushed
      ensures q == seed || Touches(points', q)
    {
      if q in rest {
        if q != seed {
          assert Touches(points, q);
          var j :| 0 <= j < |points| && IsNeighbour(points[j], q);
          assert points'[j] == points[j];
        }
      } else {
        assert points'[|points|] == p;
      }
    }
  }

  /** Marking an unvisited point of the box leaves fewer unvisited points in it. */
  lemma MarkingShrinks(box: set<Point>, visited: set<Point>, p: Point)
    requires p in box && p !in visited
    ensures |box - (visited + {p})| < |box - visited|
  {
    assert box - (visited + {p}) == (box - visited) - {p};
  }

  /** The exploration's state before its first iteration. */
  lemma ExploreInit(g: Grid, threshold: real, seed: Point, before: set<Point>)
    requires 0 <= seed.y < |g|
    ensures ExploreFrame(g, seed, before, before, [seed], [])
    ensures ExploreRecord(g, threshold, seed, before, before, [])
    ensures ExploreStart(g, threshold, seed, before, before, [seed], [])
    ensures ExploreLinks(seed, [seed], [])
  {
    assert Elems([seed]) == {seed};
  }

  /** The exploration's promises, read off the state it ends in. */
  lemma ExploreDone(g: Grid, threshold: real, seed: Point, before: set<Point>,
                    visited: set<Point>, points: seq<Point>)
    requires ExploreInv(g, threshold, seed, before, visited, [], points)
    ensures ExploredFrom(g, threshold, seed, before, visited, points)
  {
    assert Elems([]) == {};
    FringeMembers(g, points);
  }

  /**
   * The outcome of exploring from seed, with the visited set going from
   * before to after: the points found are distinct, new and qualifying, the
   * seed first, each after the first next to an earlier one; they are all the
   * qualifying points newly visited; every signal cell next to one of them is
   * found or was visited before; and the newly visited points are the seed
   * and the grid cells next to a point found. Something is found exactly when
   * the seed qualifies and was not visited before.
   */
  ghost predicate ExploredFrom(g: Grid, threshold: real, seed: Point, before: set<Point>,
                               after: set<Point>, points: seq<Point>)
    requires |g| > 0
  {
    && after == before + {seed} + Fringe(g, points)
    && Distinct(points)
    && (forall p :: p in points ==> QualifiesAt(g, threshold, p) && p !in before && p in after)
    && (forall p :: p in points ==> p == seed || InGrid(g, p))
    && (forall q :: q in after && q !in before && QualifiesAt(g, threshold, q) ==> q in points)
    && (|points| > 0 <==> QualifiesAt(g, threshold, seed) && seed !in before)
    && (|points| > 0 ==> points[0] == seed)
    && Connected(points)
    && (forall p, q :: p in points && IsNeighbour(p, q) && IsSignal(g, threshold, q) ==>
          q in points || q in before)
  }

  /**
   * exploreRegion: depth-first search from (startX, startY) with an explicit
   * stack. A popped point already visited is skipped; otherwise it is marked
   * visited and, when it qualifies, recorded and its unvisited neighbours are
   * pushed. Non-qualifying neighbours are therefore also marked visited.
   */
  method ExploreRegion(g: Grid, startX: int, startY: int, threshold: real, visited: VisitedSet)
    returns (points: seq<Point>)
    requires 0 <= startY < |g|
    modifies visited
    ensures ExploredFrom(g, threshold, Point(startX, startY), old(visited.members), visited.members, points)
  {
    var seed := Point(startX, startY);
    var stack := [seed];
    points := [];
    ghost var before := visited.members;
    ghost var box := Box(g) + {seed};
    ExploreInit(g, threshold, seed, before);
    while |stack| > 0
      invariant ExploreFrame(g, seed, before, visited.members, stack, points)
      invariant ExploreRecord(g, threshold, seed, before, visited.members, points)
      invariant ExploreStart(g, threshold, seed, before, visited.members, stack, points)
      invariant ExploreLinks(seed, stack, points)
      decreases |box - visited.members|, |stack|
    {
      ghost var popped := stack;
      var p := stack[|stack| - 1];
      stack := stack[..|stack| - 1];
      if p in visited.members {
        SkipStep(g, threshold, seed, before, visited.members, popped, points);
        continue;
      }
      if p != seed {
        InBox(g, p);
      }
      MarkingShrinks(box, visited.members, p);
      ghost var marked := visited.members;
      visited.members := visited.members + {p};
      var value := CellAt(g, p);
      if ValidateCell(value) && Value(value) > threshold {
        var adjacent := GetAdjacentPoints(p.x, p.y, g);
        GrowStep(g, threshold, seed, before, marked, popped, adjacent, points);
        points := points + [p];
        stack := stack + Unvisited(adjacent, visited.members);
      } else {
        MarkStep(g, threshold, seed, before, marked, popped, points);
      }
    }
    ExploreDone(g, threshold, seed, before, visited.members, points);
  }

  /*
   * What holds between two cells of the scan, with the regions found so far,
   * the visited set and the next cell to look at, in parts.
   */

  /** The points of a recorded region: distinct signal cells hanging together from the first, which is their scan-earliest. */
  ghost predicate RegionShape(g: Grid, threshold: real, ps: seq<Point>)
  {
    && |ps| > 0
    && Distinct(ps)
    && Connected(ps)
    && (forall p :: p in ps ==> IsSignal(g, threshold, p))
    && (forall p :: p in ps ==> !RowMajorBefore(p, ps[0]))
  }

  /** A region's centre of mass is the one of its points, when there is one, and there is one when the threshold is not negative. */
  ghost predicate CentreOk(g: Grid, threshold: real, r: Region)
  {
    && RowsExist(g, r.points)
    && r.centerOfMass == CenterOfMass(r.points, g).ToOption()
    && (threshold >= 0.0 ==> r.centerOfMass.Some?)
  }

  /** A signal cell next to region i is in region i or in an earlier region. */
  ghost predicate WeaklyClosed(g: Grid, threshold: real, rs: seq<Region>)
  {
    forall i, p, q :: 0 <= i < |rs| && p in rs[i].points && IsNeighbour(p, q) && IsSignal(g, threshold, q) ==>
      q in rs[i].points || InSomeRegion(rs[..i], q)
  }

  /** The regions are listed in the scan order of their first points. */
  ghost predicate SeedsOrdered(rs: seq<Region>)
  {
    forall i, j :: 0 <= i < j < |rs| && |rs[i].points| > 0 && |rs[j].points| > 0 ==>
      RowMajorBefore(rs[i].points[0], rs[j].points[0])
  }

  ghost predicate ScanShape(g: Grid, threshold: real, rs: seq<Region>)
  {
    && (forall i :: 0 <= i < |rs| ==> RegionShape(g, threshold, rs[i].points))
    && PairwiseDisjoint(rs)
    && WeaklyClosed(g, threshold, rs)
    && SeedsOrdered(rs)
  }

  ghost predicate ScanCentres(g: Grid, threshold: real, rs: seq<Region>)
  {
    forall i :: 0 <= i < |rs| ==> CentreOk(g, threshold, rs[i])
  }

  /** The regions' points are visited, and every visited signal cell is in a region. */
  ghost predicate ScanVisited(g: Grid, threshold: real, rs: seq<Region>, visited: set<Point>)
  {
    && (forall i, q :: 0 <= i < |rs| && q in rs[i].points ==> q in visited)
    && (forall q :: q in visited && IsSignal(g, threshold, q) ==> InSomeRegion(rs, q))
  }

  /** Every grid cell before cur is visited, and every region started before cur. */
  ghost predicate ScanProgress(g: Grid, rs: seq<Region>, visited: set<Point>, cur: Point)
  {
    && (forall q :: InGrid(g, q) && RowMajorBefore(q, cur) ==> q in visited)
    && (forall i :: 0 <= i < |rs| && |rs[i].points| > 0 ==> RowMajorBefore(rs[i].points[0], cur))
  }

  ghost predicate ScanInv(g: Grid, threshold: real, rs: seq<Region>, visited: set<Point>, cur: Point)
  {
    && ScanShape(g, threshold, rs)
    && ScanCentres(g, threshold, rs)
    && ScanVisited(g, threshold, rs, visited)
    && ScanProgress(g, rs, visited, cur)
  }

  /** In a valid grid, the cell the scan reads at (x, y) is a signal cell exactly when it qualifies. */
  lemma CellIsSignal(g: Grid, threshold: real, x: int, y: int)
    requires ValidateGrid(g) && 0 <= y < |g| && 0 <= x < |g[0]|
    ensures IsSignal(g, threshold, Point(x, y)) <==> ValidateCell(g[y][x]) && Value(g[y][x]) > threshold
  {
    assert |g[y]| == |g[0]|;
  }

  lemma ScanInit(g: Grid, threshold: real)
    ensures ScanInv(g, threshold, [], {}, Point(0, 0))
  {
  }

  /** Passing over a cell that is already visited. */
  lemma PassVisited(g: Grid, threshold: real, rs: seq<Region>, visited: set<Point>, x: int, y: int)
    requires ScanInv(g, threshold, rs, visited, Point(x, y))
    requires Point(x, y) in visited
    ensures ScanInv(g, threshold, rs, visited, Point(x + 1, y))
  {
    ProgressPast(g, rs, visited, x, y);
  }

  /** Marking a cell that does not qualify. */
  lemma PassRejected(g: Grid, threshold: real, rs: seq<Region>, visited: set<Point>, x: int, y: int)
    requires ScanInv(g, threshold, rs, visited, Point(x, y))
    requires !IsSignal(g, threshold, Point(x, y))
    ensures ScanInv(g, threshold, rs, visited + {Point(x, y)}, Point(x + 1, y))
  {
    var visited' := visited + {Point(x, y)};
    assert ScanVisited(g, threshold, rs, visited') by {
      VisitRejected(g, threshold, rs, visited, Point(x, y));
    }
    assert ScanProgress(g, rs, visited', Point(x, y)) by {
      ProgressWider(g, rs, visited, visited', Point(x, y));
    }
    ProgressPast(g, rs, visited', x, y);
  }

  lemma VisitRejected(g: Grid, threshold: real, rs: seq<Region>, visited: set<Point>, p: Point)
    requires ScanVisited(g, threshold, rs, visited)
    requires !IsSignal(g, threshold, p)
    ensures ScanVisited(g, threshold, rs, visited + {p})
  {
  }

  lemma ProgressWider(g: Grid, rs: seq<Region>, visited: set<Point>, visited': set<Point>, cur: Point)
    requires ScanProgress(g, rs, visited, cur)
    requires visited <= visited'
    ensures ScanProgress(g, rs, visited', cur)
  {
  }

  /** Once the current cell is visited, the scan may move to the next one. */
  lemma ProgressPast(g: Grid, rs: seq<Region>, visited: set<Point>, x: int, y: int)
    requires ScanProgress(g, rs, visited, Point(x, y))
    requires Point(x, y) in visited
    ensures ScanProgress(g, rs, visited, Point(x + 1, y))
  {
  }

  /** A finished row: every cell of it is visited. */
  lemma RowDone(g: Grid, threshold: real, rs: seq<Region>, visited: set<Point>, y: int)
    requires |g| > 0
    requires ScanInv(g, threshold, rs, visited, Point(|g[0]|, y))
    ensures ScanInv(g, threshold, rs, visited, Point(0, y + 1))
  {
  }

  /** The points explored from seed have the shape of a region. */
  lemma NewRegionShape(g: Grid, threshold: real, before: set<Point>, seed: Point, points: seq<Point>)
    requires IsSignal(g, threshold, seed)
    requires forall q :: InGrid(g, q) && RowMajorBefore(q, seed) ==> q in before
    requires Distinct(points) && Connected(points) && |points| > 0 && points[0] == seed
    requires forall p :: p in points ==> QualifiesAt(g, threshold, p) && p !in before
    requires forall p :: p in points ==> p == seed || InGrid(g, p)
    ensures RegionShape(g, threshold, points)
  {
    forall p | p in points
      ensures IsSignal(g, threshold, p) && !RowMajorBefore(p, seed)
    {
    }
  }

  /** The centre of mass the scan records for qualifying points. */
  lemma NewRegionCentre(g: Grid, threshold: real, points: seq<Point>, centre: Option<Centroid>)
    requires |points| > 0
    requires forall p :: p in points ==> QualifiesAt(g, threshold, p)
    requires RowsExist(g, points) && centre == CenterOfMass(points, g).ToOption()
    ensures CentreOk(g, threshold, Region(points, centre))
  {
    if threshold >= 0.0 {
      forall p | p in points
        ensures Weight(g, p) > 0.0
      {
      }
      PositiveValuesHaveCenter(points, g);
    }
  }

  /** Appending a region whose points were all unvisited keeps the regions disjoint and weakly closed. */
  lemma AddRegionShape(g: Grid, threshold: real, rs: seq<Region>, before: set<Point>, r: Region)
    requires ScanShape(g, threshold, rs)
    requires ScanVisited(g, threshold, rs, before)
    requires RegionShape(g, threshold, r.points)
    requires forall i :: 0 <= i < |rs| && |rs[i].points| > 0 ==> RowMajorBefore(rs[i].points[0], r.points[0])
    requires forall p :: p in r.points ==> p !in before
    requires forall p, q :: p in r.points && IsNeighbour(p, q) && IsSignal(g, threshold, q) ==> q in r.points || q in before
    ensures ScanShape(g, threshold, rs + [r])
  {
    var rs' := rs + [r];
    assert rs'[..|rs|] == rs;
    assert forall i :: 0 <= i < |rs'| ==> RegionShape(g, threshold, rs'[i].points);
    assert PairwiseDisjoint(rs') by {
      forall i, j, q | 0 <= i < j < |rs'| && q in rs'[i].points
        ensures q !in rs'[j].points
      {
        if j == |rs| {
          assert q in before;
        }
      }
    }
    assert WeaklyClosed(g, threshold, rs') by {
      forall i, p, q | 0 <= i < |rs'| && p in rs'[i].points && IsNeighbour(p, q) && IsSignal(g, threshold, q)
        ensures q in rs'[i].points || InSomeRegion(rs'[..i], q)
      {
        if i < |rs| {
          assert rs'[..i] == rs[..i];
        } else if q !in r.points {
          assert InSomeRegion(rs, q);
        }
      }
    }
  }

  lemma AddRegionCentre(g: Grid, threshold: real, rs: seq<Region>, r: Region)
    requires ScanCentres(g, threshold, rs)
    requires CentreOk(g, threshold, r)
    ensures ScanCentres(g, threshold, rs + [r])
  {
  }

  /** After the exploration, the new region's points are visited and the visited signal cells are all in regions. */
  lemma AddRegionVisited(g: Grid, threshold: real, rs: seq<Region>, before: set<Point>, after: set<Point>, r: Region)
    requires ScanVisited(g, threshold, rs, before)
    requires before <= after
    requires forall p :: p in r.points ==> p in after
    requires forall q :: q in after && q !in before && QualifiesAt(g, threshold, q) ==> q in r.points
    ensures ScanVisited(g, threshold, rs + [r], after)
  {
    var rs' := rs + [r];
    forall q | q in after && IsSignal(g, threshold, q)
      ensures InSomeRegion(rs', q)
    {
      if q in before {
        var i :| 0 <= i < |rs| && q in rs[i].points;
        assert rs'[i] == rs[i];
      } else {
        assert rs'[|rs|] == r;
      }
    }
  }

  /** The seed and everything before it are visited, and the new region starts at the seed. */
  lemma AddRegionProgress(g: Grid, rs: seq<Region>, before: set<Point>, after: set<Point>, seed: Point, r: Region)
    requires ScanProgress(g, rs, before, seed)
    requires before <= after && seed in after
    requires |r.points| > 0 && r.points[0] == seed
    ensures ScanProgress(g, rs + [r], after, Point(seed.x + 1, seed.y))
  {
    var rs' := rs + [r];
    forall i | 0 <= i < |rs'| && |rs'[i].points| > 0
      ensures RowMajorBefore(rs'[i].points[0], Point(seed.x + 1, seed.y))
    {
      if i < |rs| {
        assert rs'[i] == rs[i];
      }
    }
  }

  /** Recording the non-empty result of the exploration from the unvisited signal cell seed. */
  lemma AddRegion(g: Grid, threshold: real, rs: seq<Region>, before: set<Point>, after: set<Point>,
                  seed: Point, points: seq<Point>, centre: Option<Centroid>)
    requires ScanInv(g, threshold, rs, before, seed)
    requires IsSignal(g, threshold, seed) && seed !in before
    requires ExploredFrom(g, threshold, seed, before, after, points)
    requires RowsExist(g, points) && centre == CenterOfMass(points, g).ToOption()
    ensures ScanInv(g, threshold, rs + [Region(points, centre)], after, Point(seed.x + 1, seed.y))
  {
    var region := Region(points, centre);
    NewRegionShape(g, threshold, before, seed, points);
    NewRegionCentre(g, threshold, points, centre);
    AddRegionShape(g, threshold, rs, before, region);
    AddRegionCentre(g, threshold, rs, region);
    AddRegionVisited(g, threshold, rs, before, after, region);
    AddRegionProgress(g, rs, before, after, seed, region);
  }

  /** A region closed up to earlier regions, in a disjoint family of signal regions, is closed. */
  lemma StrongClosure(g: Grid, threshold: real, rs: seq<Region>)
    requires ScanShape(g, threshold, rs)
    ensures forall i :: 0 <= i < |rs| ==> Closed(g, threshold, rs[i].points)
  {
    forall i, p, q | 0 <= i < |rs| && p in rs[i].points && IsNeighbour(p, q) && IsSignal(g, threshold, q)
      ensures q in rs[i].points
    {
      if q !in rs[i].points {
        assert InSomeRegion(rs[..i], q);
        var j :| 0 <= j < i && q in rs[..i][j].points;
        assert q in rs[j].points;
        NeighbourSymmetric(p, q);
        assert false;
      }
    }
  }

  /** The scan's promises, read off the state it ends in. */
  lemma ScanDone(g: Grid, threshold: real, rs: seq<Region>, visited: set<Point>)
    requires |g| > 0
    requires ScanInv(g, threshold, rs, visited, Point(0, |g|))
    ensures IsComponentPartition(g, threshold, rs)
    ensures forall i :: 0 <= i < |rs| ==> |rs[i].points| > 0
    ensures forall i :: 0 <= i < |rs| ==>
      RowsExist(g, rs[i].points) && rs[i].centerOfMass == CenterOfMass(rs[i].points, g).ToOption()
    ensures threshold >= 0.0 ==> forall i :: 0 <= i < |rs| ==> rs[i].centerOfMass.Some?
    ensures forall i, j :: 0 <= i < j < |rs| ==> RowMajorBefore(rs[i].points[0], rs[j].points[0])
    ensures forall i, q :: 0 <= i < |rs| && q in rs[i].points ==> !RowMajorBefore(q, rs[i].points[0])
  {
    assert forall i :: 0 <= i < |rs| ==> RegionShape(g, threshold, rs[i].points);
    assert forall i :: 0 <= i < |rs| ==> CentreOk(g, threshold, rs[i]);
    StrongClosure(g, threshold, rs);
    forall q
      ensures InSomeRegion(rs, q) <==> IsSignal(g, threshold, q)
    {
      if InSomeRegion(rs, q) {
        var i :| 0 <= i < |rs| && q in rs[i].points;
        assert RegionShape(g, threshold, rs[i].points);
      }
    }
  }

  /** Walking back along a connected run of signal cells never leaves a closed set: if some point is in it, so is the first. */
  lemma {:induction false} ReachesFirst(g: Grid, threshold: real, ps: seq<Point>, s: seq<Point>, k: nat)
    requires Connected(ps) && k < |ps| && ps[k] in s
    requires forall p :: p in ps ==> IsSignal(g, threshold, p)
    requires Closed(g, threshold, s)
    ensures ps[0] in s
    decreases k
  {
    if k > 0 {
      assert Linked(ps, k);
      var j :| 0 <= j < k && IsNeighbour(ps[j], ps[k]);
      NeighbourSymmetric(ps[j], ps[k]);
      assert ps[j] in ps;
      ReachesFirst(g, threshold, ps, s, j);
    }
  }

  /** Walking forward from the first point of a connected run of signal cells never leaves a closed set. */
  lemma {:induction false} StaysInside(g: Grid, threshold: real, ps: seq<Point>, s: seq<Point>, k: nat)
    requires Connected(ps) && k < |ps| && ps[0] in s
    requires forall p :: p in ps ==> IsSignal(g, threshold, p)
    requires Closed(g, threshold, s)
    ensures ps[k] in s
    decreases k
  {
    if k > 0 {
      assert Linked(ps, k);
      var j :| 0 <= j < k && IsNeighbour(ps[j], ps[k]);
      StaysInside(g, threshold, ps, s, j);
      assert ps[k] in ps;
    }
  }

  /** Two connected, closed runs of signal cells that share a point hold the same points. */
  lemma SameComponent(g: Grid, threshold: real, ps: seq<Point>, qs: seq<Point>, shared: Point)
    requires Connected(ps) && Closed(g, threshold, ps) && |ps| > 0
    requires Connected(qs) && Closed(g, threshold, qs) && |qs| > 0
    requires forall p :: p in ps ==> IsSignal(g, threshold, p)
    requires forall p :: p in qs ==> IsSignal(g, threshold, p)
    requires shared in ps && shared in qs
    ensures Elems(ps) == Elems(qs)
  {
    var a :| 0 <= a < |ps| && ps[a] == shared;
    var b :| 0 <= b < |qs| && qs[b] == shared;
    ReachesFirst(g, threshold, ps, qs, a);
    ReachesFirst(g, threshold, qs, ps, b);
    forall k | 0 <= k < |ps|
      ensures ps[k] in qs
    {
      StaysInside(g, threshold, ps, qs, k);
    }
    forall k | 0 <= k < |qs|
      ensures qs[k] in ps
    {
      StaysInside(g, threshold, qs, ps, k);
    }
  }

  /** Some region of ts holds exactly the points of ps. */
  ghost predicate HasRegionOf(ts: seq<Region>, ps: seq<Point>)
  {
    exists j :: 0 <= j < |ts| && Elems(ts[j].points) == Elems(ps)
  }

  /**
   * The component partition of the signal cells is unique: any two families
   * of regions meeting it have the same regions, as sets of points.
   */
  lemma PartitionUnique(g: Grid, threshold: real, rs: seq<Region>, ts: seq<Region>)
    requires IsComponentPartition(g, threshold, rs)
    requires IsComponentPartition(g, threshold, ts)
    ensures forall i :: 0 <= i < |rs| ==> HasRegionOf(ts, rs[i].points)
  {
    forall i | 0 <= i < |rs|
      ensures HasRegionOf(ts, rs[i].points)
    {
      var ps := rs[i].points;
      assert ps[0] in ps && InSomeRegion(rs, ps[0]);
      assert InSomeRegion(ts, ps[0]);
      var j :| 0 <= j < |ts| && ps[0] in ts[j].points;
      assert forall p :: p in ps ==> InSomeRegion(rs, p);
      assert forall p :: p in ts[j].points ==> InSomeRegion(ts, p);
      SameComponent(g, threshold, ps, ts[j].points, ps[0]);
    }
  }

  /** One pass of the inner loop of findSignalRegions, over row y. */
  method ScanRow(g: Grid, threshold: real, y: int, visited: VisitedSet, regions0: seq<Region>)
    returns (regions: seq<Region>)
    requires ValidateGrid(g) && 0 <= y < |g|
    requires ScanInv(g, threshold, regions0, visited.members, Point(0, y))
    modifies visited
    ensures ScanInv(g, threshold, regions, visited.members, Point(|g[0]|, y))
    ensures regions0 <= regions
    ensures old(visited.members) <= visited.members
  {
    regions := regions0;
    for x := 0 to |g[0]|
      invariant ScanInv(g, threshold, regions, visited.members, Point(x, y))
      invariant regions0 <= regions
      invariant old(visited.members) <= visited.members
    {
      if Point(x, y) in visited.members {
        PassVisited(g, threshold, regions, visited.members, x, y);
        continue;
      }
      CellIsSignal(g, threshold, x, y);
      var value := g[y][x];
      if ValidateCell(value) && Value(value) > threshold {
        ghost var before := visited.members;
        var points := ExploreRegion(g, x, y, threshold, visited);
        if |points| > 0 {
          var com := CalculateCenterOfMass(points, g);
          var region;
          match com {
            case Ok(c) => region := Region(points, Some(c));
            case Err(_) => region := Region(points, None);
          }
          AddRegion(g, threshold, regions, before, visited.members, Point(x, y), points, region.centerOfMass);
          regions := regions + [region];
        }
      } else {
        PassRejected(g, threshold, regions, visited.members, x, y);
        visited.members := visited.members + {Point(x, y)};
      }
    }
  }

  /**
   * findSignalRegions: an invalid grid gives no regions. Otherwise the cells
   * are scanned row by row; each unvisited qualifying cell starts an
   * exploration, whose non-empty result becomes a region with its centre of
   * mass, or none when that cannot be computed; an unvisited cell that does
   * not qualify is marked visited.
   */
  method FindSignalRegions(g: Grid, threshold: real) returns (regions: seq<Region>)
    ensures !ValidateGrid(g) ==> regions == []
    ensures ValidateGrid(g) ==> IsComponentPartition(g, threshold, regions)
    ensures forall i :: 0 <= i < |regions| ==> |regions[i].points| > 0
    ensures forall i :: 0 <= i < |regions| ==>
      RowsExist(g, regions[i].points) && regions[i].centerOfMass == CenterOfMass(regions[i].points, g).ToOption()
    ensures threshold >= 0.0 ==> forall i :: 0 <= i < |regions| ==> regions[i].centerOfMass.Some?
    ensures forall i, j :: 0 <= i < j < |regions| ==> RowMajorBefore(regions[i].points[0], regions[j].points[0])
    ensures forall i, q :: 0 <= i < |regions| && q in regions[i].points ==> !RowMajorBefore(q, regions[i].points[0])
  {
    if !ValidateGrid(g) {
      return [];
    }
    var visited := new VisitedSet();
    regions := [];
    ScanInit(g, threshold);
    for y := 0 to |g|
      invariant ScanInv(g, threshold, regions, visited.members, Point(0, y))
    {
      regions := ScanRow(g, threshold, y, visited, regions);
      RowDone(g, threshold, regions, visited.members, y);
    }
    ScanDone(g, threshold, regions, visited.members);
  }
}
