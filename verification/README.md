# Signal regions of a numeric grid

This project models `utils.mjs` of ActivTrack. That file finds the *signal
regions* of a rectangular grid of readings: the maximal 8-connected groups of
cells whose value is valid (finite) and strictly above a threshold. For each
region it also computes the weighted centre of mass. The model has five parts:

- `cells.dfy` (`Cells`): the values a cell can hold (a finite number, NaN,
  ±Infinity, `null`, `undefined`), JavaScript's numeric coercion of them, and
  `validateCell`.
- `grids.dfy` (`Grids`): the grid as a sequence of rows, `validateGrid`, and
  `getAdjacentPoints` with its eight offsets.
- `center_of_mass.dfy` (`Centroids`): `calculateCenterOfMass` as a loop
  over the points. It is proved equal to a specification function.
  Lemmas show that the centre does not depend on the order of the points, and
  that it lies inside the points' bounding box when all values are positive.
- `regions.dfy` (`Regions`): `exploreRegion` and `findSignalRegions` as
  imperative methods. They share a `VisitedSet` object that is updated in
  place. The main result is that `FindSignalRegions` returns exactly the
  8-connected components of the signal cells: each region is non-empty, has
  no repeated points, hangs together and is closed under adjacency; no two
  regions share a point; together they cover every signal cell. The lemma
  `PartitionUnique` shows that this partition is unique.
- `scenarios.dfy` (`Scenarios`): the example grids of `tests.mjs`. Each
  lemma says what any component partition of such a grid looks like, and so
  what `FindSignalRegions` returns for it.
- `wrappers.dfy` (`Wrappers`): `Option` and `Result`.

A point `(x, y)` stands for the source's `"x,y"` string key in the visited
set. Finite numbers are exact reals.

Three consequences of `utils.mjs` as written, which the model keeps:

- `exploreRegion` pushes every unvisited in-grid neighbour without checking
  whether it qualifies (`utils.mjs:130-132`). Such a neighbour is later popped
  and marked visited (`utils.mjs:124`) even when it does not qualify.
  `ExploreRegion` states this exactly: the visited set grows by the seed and
  by every in-grid neighbour of a recorded point.
- So a cell that does not qualify can be marked visited during an
  exploration, not only by the scan at `utils.mjs:106`.
- The guard `points.length > 0` (`utils.mjs:90`) always holds. The scan
  explores only from an unvisited qualifying cell, and `ExploredFrom` shows
  that such an exploration records that cell first.

## Model

| member | source | states |
|---|---|---|
| Cells.ValidateCell | utils.mjs:11-13 | A cell passes exactly when it coerces to a finite number: a finite number or `null`. NaN, ±Infinity and `undefined` fail, and the NaN test adds nothing to the finiteness test. |
| Grids.ValidateGrid | utils.mjs:2-8 | True exactly when there is at least one row and every two rows have the same length. |
| Grids.InBoundsShifts | utils.mjs:35-42 | The mapped and filtered offsets. A point is listed exactly when it is inside width × height and is the point shifted by one of the offsets. There are no more points than offsets. |
| Grids.InBoundsShiftsDistinct | utils.mjs:35-42 | Distinct offsets give distinct points. |
| Grids.NeighbourIsDirection | utils.mjs:24-33 | The eight offsets are exactly 8-adjacency: a different cell at most one step away in each coordinate, diagonals included. |
| Grids.GetAdjacentPoints | utils.mjs:16-43 | A point is listed exactly when it lies inside the rectangle spanned by row 0's length and the number of rows, and is an 8-neighbour of (x, y). It is never (x, y) itself. No point appears twice, and there are at most 8. |
| Centroids.CalculateCenterOfMass | utils.mjs:46-70 | The loop's three accumulators give `CenterOfMass`. That is `InvalidCellValue` if any point's cell is invalid; otherwise `InvalidTotalWeight` if the total is 0; otherwise (Σ x·v / Σ v, Σ y·v / Σ v). |
| Centroids.SumAppend | utils.mjs:51-60 | Accumulating over two runs of points one after the other gives the sum of the two runs. |
| Centroids.SumPermutation | utils.mjs:51-60 | Each accumulated sum depends only on the multiset of points, not on their order. |
| Centroids.CenterOfMassOrderIndependent | utils.mjs:46-70 | Listing the same points in another order gives the same result or error. |
| Centroids.TotalPositive | utils.mjs:57 | Values that are all positive give a positive total weight. |
| Centroids.MomentBounds | utils.mjs:57-59 | With non-negative values and lo ≤ coordinate ≤ hi, the moment lies between lo·total and hi·total. |
| Centroids.CenterOfMassWithinBounds | utils.mjs:46-70 | With positive values the computation succeeds, and each coordinate of the centre lies between the least and greatest coordinates of the points. |
| Centroids.PositiveValuesHaveCenter | utils.mjs:62-64 | A non-empty list of points with positive values never hits the zero-total error. |
| Centroids.ThresholdRegionCenterOfMass | tests.mjs:28-33 | In `thresholdGrid`, the points (1,0) and (2,1) have the centre (605/403, 202/403), about (1.50, 0.50). |
| Centroids.TwoCellCenterOfMass | utils.mjs:57-68 | The values 100 and 300 at (0,0) and (1,0) have the centre (0.75, 0). |
| Regions.VisitedSet.constructor | utils.mjs:78 | The scan's visited set starts empty. |
| Regions.Unvisited | utils.mjs:131 | A neighbour is kept exactly when it is listed and not visited. |
| Regions.SkipStep | utils.mjs:120-123 | Popping a point that is already visited keeps the exploration invariant. |
| Regions.MarkStep | utils.mjs:124-127 | Popping an unvisited point that does not qualify keeps the invariant once that point alone is marked visited. |
| Regions.GrowStep | utils.mjs:124-133 | Popping an unvisited qualifying point keeps the invariant after three changes: the point is marked visited, it is recorded, and its unvisited neighbours are pushed. |
| Regions.ExploreRegion | utils.mjs:115-137 | Starting from a visited set `before`:<br>• The returned points are distinct qualifying cells, none in `before`, all in the new visited set.<br>• The new visited set is `before` plus the seed plus every in-grid neighbour of a returned point.<br>• The result is non-empty exactly when the seed qualifies and was unvisited, and then it starts with the seed.<br>• Each returned point after the first is next to an earlier one.<br>• Every signal cell next to a returned point was returned or was in `before`. |
| Regions.CellIsSignal | utils.mjs:87-88 | In a valid grid, the scan's test on (x, y) holds exactly when (x, y) is a signal cell. |
| Regions.PassVisited | utils.mjs:84-85 | Passing over a visited cell keeps the scan invariant. |
| Regions.PassRejected | utils.mjs:105-107 | Marking a cell that does not qualify keeps the scan invariant for the next cell. |
| Regions.NewRegionCentre | utils.mjs:91-103 | A region's centre is the centre of mass of its points when that exists, and absent (the source's `null`) when the computation throws. With exact arithmetic and a threshold ≥ 0 it always exists; in the source a total that overflows to Infinity gives `null`. |
| Regions.AddRegion | utils.mjs:89-104 | Recording the exploration from an unvisited signal cell as a region keeps the scan invariant. The regions stay disjoint, distinct and connected, listed in scan order. Every signal cell next to a region is in that region or in an earlier one. |
| Regions.StrongClosure | utils.mjs:127-132 | In a disjoint family where each region is closed up to earlier regions, every region is closed. |
| Regions.ScanRow | utils.mjs:83-108 | One row of the scan keeps the scan invariant from the row's first cell to its end. The regions found before the row are kept as a prefix, and the visited set only grows. |
| Regions.ScanDone | utils.mjs:82-111 | At the end of the scan the regions are the 8-connected components of the signal cells, with the centres and order listed under `FindSignalRegions`. |
| Regions.FindSignalRegions | utils.mjs:73-112 | An invalid grid gives `[]`. Otherwise:<br>• The regions are the 8-connected components of the signal cells: non-empty, without repeated points, connected, closed under adjacency, pairwise disjoint, and covering exactly the cells that are valid and strictly above the threshold.<br>• Each region carries the centre of mass of its points, or none when that throws. With exact arithmetic a threshold ≥ 0 always yields a centre; in the source a total that overflows to Infinity gives `null`.<br>• Regions appear in row-major order of their first point, and each region's first point is its scan-earliest. |
| Regions.SameComponent | utils.mjs:115-137 | Two connected, adjacency-closed runs of signal cells that share a point hold the same points. |
| Regions.PartitionUnique | utils.mjs:73-112 | Any two component partitions of the signal cells have the same regions as sets of points, so the result is determined up to the order of regions and of points. |
| Scenarios.OneComponent | utils.mjs:73-112 | When the signal cells are the points of one connected run, there is exactly one region, and it holds them all. |
| Scenarios.ConnectivityGridRegions | tests.mjs:51-57 | `connectivityGrid` at threshold 200 has exactly four regions, each a single corner. |
| Scenarios.Threshold199Region | tests.mjs:28-34 | `thresholdGrid` at 199: one region of the four cells above 199. |
| Scenarios.Threshold200Region | tests.mjs:28-33 | `thresholdGrid` at 200: one region, {(1,0), (2,1)}, with centre (605/403, 202/403). The cells equal to 200 are excluded. |
| Scenarios.Threshold201Region | tests.mjs:28-35 | `thresholdGrid` at 201: one region, exactly [(2,1)]. |
| Scenarios.SingleCellRegion | tests.mjs:70-74 | `[[250]]` has one region, exactly [(0,0)]. |
| Scenarios.InvalidValuesRegion | tests.mjs:75-82 | With NaN, Infinity and null in the grid, the three finite 250 cells (1,0), (0,1) and (2,1) form the only region. |
| Scenarios.RejectedGrids | tests.mjs:64-88 | `FindSignalRegions` on the empty grid and on the irregular grid `[[250], [250, 250]]` returns `[]`. |
| Scenarios.ThresholdGridAt200 | tests.mjs:28-33 | `FindSignalRegions` on `thresholdGrid` at 200 returns one region, exactly [(1,0), (2,1)], with centre (605/403, 202/403). |
| Scenarios.MergingPathCenterOfMass | tests.mjs:117-121 | The seven signal cells of `mergingGrid` have the centre (1, 1). |
| Scenarios.MergingGridRegion | tests.mjs:117-123 | `mergingGrid` has exactly one region, all seven cells, with centre (1, 1). |

## Left out

- Centroids.CalculateCenterOfMass: the `toFixed(2)` rounding of each coordinate (`utils.mjs:67-68`) is not modelled. The centre is the exact real quotient.
- Centroids.CalculateCenterOfMass: floating-point arithmetic is not modelled. With exact reals, a sum of finite values is always finite, so the `!isFinite(totalWeight)` error (`utils.mjs:62`) cannot arise. Only the zero-total error remains.
- Regions.FindSignalRegions: the promise that a threshold ≥ 0 always yields a centre holds only with exact arithmetic. In the source, values such as `[[1e308, 1e308]]` make `totalWeight` overflow to Infinity (`utils.mjs:57`), the throw at `utils.mjs:62-63` fires, and the region gets `centerOfMass: null`.
- Regions.NewRegionCentre: the same exact-arithmetic assumption; an overflowing total, which gives `null` in the source, is not modelled.
- Regions.FindSignalRegions: the `console.warn` on a failed centre (`utils.mjs:98`) is output. Only its effect is modelled: a region recorded with no centre (`None`).
- Cells.ValidateCell: grid elements that are neither numbers, `null` nor `undefined` (strings, booleans, objects, which JavaScript would coerce) are not modelled.
- Grids.ValidateGrid: the checks that the grid and its rows are arrays (`utils.mjs:3`, `7`) are not modelled; the grid type is already a sequence of rows.
- Regions.ExploreRegion: reading a row index outside the grid throws a `TypeError` in JavaScript. The model requires the seed's row to exist, and proves that every other point it reads is inside the grid.
- The `"x,y"` string keys of the visited set are not modelled; points stand in for them. Two distinct points never share a key, so the sets agree.
- The console harness in tests.mjs and the printing in index.mjs are not modelled. The tests' grids appear only as the `Scenarios` lemmas and the concrete centre-of-mass lemmas.
