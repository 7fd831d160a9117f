# Grid-world sailing engine, modelled in Dafny

This project models the engine of a small grid-world sailing simulation and proves properties of it:

- **the grid store** (`grid/grid.py`): a table of cell records addressed by `(x, y)` and stored `[y][x]`. It provides bounds checks, a total navigability query, the four-neighbour enumeration, a navigable-cell count and the in-memory `save_json`/`from_json` pair;
- **the cell records** (`grid/grid_cells.py`): key/value maps that must carry `"navigable"`. They provide `get`/`set`/`in`/`save`/truthiness, the cellular-automaton terrain smoother and the default cell built from a landmass map;
- **the boat** (`nav/boat.py`): a mutable position, the eight-direction availability scan and the validated `move`;
- **the greedy navigator** (`nav/navigate.py`): each step takes the lowest-scoring unvisited available move, backtracks along its path when there is none, and stays put when the path is empty;
- **the earlier versions** of the grid (`grid.py`), of the cell record (`grid_cells.py`) and of the value record (`grid_value.py`).

One Dafny module stands for each source file:

| file | module | source |
|---|---|---|
| `common.dfy` | `Common` | values, errors, positions, the shared required-key check |
| `cells.dfy` | `Cells` | `grid/grid_cells.py` |
| `grid_store.dfy` | `GridStore` | `grid/grid.py` |
| `boats.dfy` | `Boats` | `nav/boat.py` |
| `navigation.dfy` | `Navigation` | `nav/navigate.py` |
| `legacy_grid.dfy` | `LegacyGrid` | `grid.py` |
| `legacy_cells.dfy` | `LegacyCells` | `grid_cells.py` |
| `grid_values.dfy` | `GridValues` | `grid_value.py` |

Objects the source updates in place are classes: the grids, the cell records, the boat and the navigator.

- Their methods state the whole new state.
- Pure queries are functions with named results.
- Loops the source runs are `while` loops proved against a specification function: the availability and shore scans, the best-move scan, the smoothing rounds, the neighbour enumeration and `from_json`.

Python values stored in cells are the `Value` datatype (bool, int, string, None). Python truthiness is `Truthy`.

Some conventions of the model:

- **Configuration is passed in.** `ROWS`, `COLS`, the target, the smoothing iteration count and the random initial landmass map are parameters.
- **Grid safety is a precondition.** The grid's bounds check tests `x < rows, y < cols`, but storage is `rows` lists of `cols` cells indexed `[y][x]`. `SafeAt(x, y)` is the exact condition under which an access does not raise IndexError. Accesses require it. `SquareIsSafe` and `NonSquareIsUnsafe` show that it holds everywhere exactly when the grid is square (or empty).
- **The boat works on a chart.** The boat keeps a ghost *chart*, the set of navigable positions of its grid. Its invariant `Sound` says the grid still has that chart and every stored `"navigable"` value is a bool. The boat's and the navigator's contracts are stated over the chart.
- **Distance is a function.** The distance is a function-valued parameter required to be Euclidean: non-negative, with its square equal to the squared distance. Symmetry and "zero exactly on equal points" are proved from that.

Facts about the code that the model keeps as they are:

- An out-of-bounds `get_cell` returns None and an out-of-bounds `set_cell` does nothing. Neither raises an error.
- The bounds check compares x with `rows`, not with `cols`.
- The navigator's tie-break follows the iteration order of a Python `set`. The model leaves it open.
- The navigator has no arrival state, and the engine has no global route search.

## Model

| member | source | states |
|---|---|---|
| Common.FindMissing | grid/grid_cells.py:12-14 | reports no key exactly when every required key is among the keywords; otherwise a reported key is required and absent |
| Cells.GridCells.constructor | grid/grid_cells.py:7-10 | stores the keywords as the mapping and mirrors `name` when it is given |
| Cells.GridCells.Create | grid/grid_cells.py:5-14 | fails exactly when `"navigable"` is missing, with a MissingKey naming it; on success it stores the keywords |
| Cells.GridCells.Bool | grid/grid_cells.py:17-18 | truthiness is the stored `"navigable"` flag when it is a bool, a TypeError otherwise |
| Cells.GridCells.Get | grid/grid_cells.py:26-27 | succeeds exactly on present keys, with the stored value; KeyError otherwise |
| Cells.GridCells.Set | grid/grid_cells.py:20-21 | afterwards `get(k)` returns the value and the key is contained; every other key reads as before; validity is kept |
| Cells.GridCells.Contains | grid/grid_cells.py:29-30 | true exactly when `get` succeeds |
| Cells.GridCells.Save | grid/grid_cells.py:32-33 | returns every stored key, extra ones included, each with the value `get` returns |
| Cells.GridCells.CountLandNeighbours | grid/grid_cells.py:41-50 | equals the in-bounds non-centre land count of the eight neighbours, at most 8 |
| Cells.LandNeighbours | grid/grid_cells.py:41-50 | the land-neighbour count lies in 0..8 |
| Cells.Step | grid/grid_cells.py:54-62 | one round yields a rows x cols map in which a land cell stays land iff it has at least 4 land neighbours and a water cell becomes land iff it has at least 5 |
| Cells.Smooth | grid/grid_cells.py:53-63 | n rounds keep the rows x cols shape |
| Cells.GridCells.SmoothRound | grid/grid_cells.py:54-62 | the nested loop fills a fresh map equal to one round computed from the previous snapshot |
| Cells.GridCells.GenerateLandmassMap | grid/grid_cells.py:36-63 | with the initial map given, the result is the iterated smoothing of it and has the map's shape |
| Cells.StepEq | grid/grid_cells.py:54-62 | a map that agrees with the rule on every cell is the smoothing round |
| Cells.AllWaterStaysWater | grid/grid_cells.py:48-61 | an all-water map stays all-water for any number of rounds |
| Cells.AllLandCornerErodes | grid/grid_cells.py:48-61 | in an all-land map of at least 2 x 2 a corner has 3 land neighbours and becomes water |
| Cells.AllLandNonCornerStays | grid/grid_cells.py:48-61 | every non-corner cell of an all-land map of at least 2 x 2 has at least 5 land neighbours and stays land |
| Cells.AllLandThinErodes | grid/grid_cells.py:48-61 | in a single-row or single-column all-land map every cell has at most 2 land neighbours and becomes water |
| Cells.GridCells.Default | grid/grid_cells.py:65-67 | the default cell is valid, navigable exactly where the transposed landmass map is water, and has `default = True` |
| GridStore.Around | grid/grid.py:79-80 | the four neighbour positions in offset order, pairwise distinct |
| GridStore.DictRows | grid/grid.py:74 | the table of attribute mappings has the grid's shape and each entry is its cell's mapping |
| GridStore.NavCount | grid/grid.py:85-86 | the navigable count never exceeds the number of cells |
| GridStore.RowNavCount | grid/grid.py:85-86 | a row's navigable count never exceeds its length |
| GridStore.Grid.constructor | grid/grid.py:6-10 | the grid has the given dimensions, is well shaped and safe; cell [i][j] is the default cell of the transposed smoothed map, so (x, y) is navigable exactly where that map is water at [x][y] |
| GridStore.Grid.BuildDefaultTable | grid/grid.py:10 | a rows x cols table of fresh cells, [i][j] built from landmass [j][i] |
| GridStore.Grid.BuildDefaultRow | grid/grid.py:10 | one row of fresh default cells, [j] built from landmass [j][i] |
| GridStore.Grid.FromJson | grid/grid.py:13-18 | fails with MissingKey("navigable") exactly when some cell mapping lacks it; on success `save_json` of the result gives back the input |
| GridStore.Grid.IsValidPosition | grid/grid.py:51-52 | on a well-shaped square grid every position the bounds check accepts names an entry of the [y][x] table |
| GridStore.Grid.SetCell | grid/grid.py:32-37 | in bounds replaces only cell [y][x], which reads back as the value; out of bounds the table is unchanged; rows, cols, shape and safety are kept |
| GridStore.Grid.GetCell | grid/grid.py:39-44 | a cell exactly for positions that pass the bounds check, namely the one at [y][x]; None otherwise |
| GridStore.Grid.IsNavigable | grid/grid.py:46-49 | false out of bounds; otherwise the truthiness of the stored `"navigable"` value |
| GridStore.Grid.Chart | grid/grid.py:46-52 | the set of exactly the positions `is_navigable` accepts |
| GridStore.Grid.IsNavigableAsWritten | grid/grid_cells.py:15 | the attribute actually read is truthy for every in-bounds cell, whatever its flag |
| GridStore.Grid.AsWrittenIgnoresFlag | grid/grid.py:46-49 | on a cell whose stored flag is false the as-written query says navigable and the corrected one does not |
| GridStore.Grid.SaveJson | grid/grid.py:70-75 | rows, cols and every cell's mapping at its [row][col] |
| GridStore.Grid.SavedGridLoads | grid/grid.py:13-18 | every mapping `save_json` emits for a grid of valid cells carries `"navigable"`, so `from_json` accepts it |
| GridStore.Grid.GetNavigableNeighbors | grid/grid.py:77-83 | the loop result is the navigable-neighbour sequence over all four offsets |
| GridStore.Grid.NavigableAround | grid/grid.py:77-83 | the navigable neighbours among the first k offsets number at most k |
| GridStore.Grid.NavigableAroundMembers | grid/grid.py:79-82 | a position is in the result exactly when it is one of the offset neighbours and is navigable |
| GridStore.Grid.NavigableAroundDistinct | grid/grid.py:77-83 | the result has no duplicates |
| GridStore.Grid.CountNavigableCells | grid/grid.py:85-86 | at most the number of cells, hence at most rows * cols on a well-shaped grid |
| GridStore.Grid.CountIsChart | grid/grid.py:85-86 | on a well-shaped square or empty grid the count equals the number of positions `is_navigable` accepts |
| GridStore.NavCountIsSetSize | grid/grid.py:86 | the count of a table equals the number of positions whose cell has a truthy flag |
| GridStore.NavSetSplit | grid/grid.py:86 | the truthy positions of a table are those of its earlier rows together with, disjoint from them, those of its last row |
| GridStore.RowCountIsSetSize | grid/grid.py:86 | a row's count equals the number of its positions whose cell has a truthy flag |
| GridStore.RowSetSplit | grid/grid.py:86 | a row's truthy positions are those of its earlier cells, plus the last cell's position when that cell is truthy |
| GridStore.Grid.CountNavigableCellsAsWritten | grid/grid.py:86 | the sum over the as-written attributes raises TypeError exactly when the table has a cell, and yields 0 otherwise |
| GridStore.Grid.AsWrittenCountFails | grid/grid.py:85-86 | on any non-empty table the as-written count fails while the corrected count is defined and bounded |
| GridStore.Grid.SquareIsSafe | grid/grid.py:10 | a well-shaped square or empty grid never indexes outside its table |
| GridStore.Grid.NonSquareIsUnsafe | grid/grid.py:51-52 | a well-shaped non-empty non-square grid has a position that passes the bounds check but lies outside the table |
| GridStore.TotalOfShape | grid/grid.py:10 | a table of rows rows of cols cells has rows * cols cells |
| GridStore.DictRowsOf | grid/grid.py:17 | a table whose mappings agree with the input entry by entry saves to exactly that input |
| GridStore.CountFullIffAllNavigable | grid/grid.py:85-86 | the count equals the number of cells exactly when every cell is navigable |
| GridStore.RowFullIffAllNavigable | grid/grid.py:86 | a row's count equals its length exactly when every cell of the row is navigable |
| GridStore.CountZeroIffNoneNavigable | grid/grid.py:85-86 | the count is zero exactly when no cell is navigable |
| GridStore.RowZeroIffNoneNavigable | grid/grid.py:86 | a row's count is zero exactly when none of its cells is navigable |
| Boats.MovesFrom | nav/boat.py:13-24 | a move is available exactly when it is one of the eight neighbourhood deltas and leads inside the bounds to a navigable position |
| Boats.MovesBounded | nav/boat.py:13-16 | the available moves are among the eight deltas, so there are at most 8 |
| Boats.MovesFromExt | nav/boat.py:11-28 | a set with exactly the available moves as members is the availability set |
| Boats.MovesStayInBounds | nav/boat.py:17-24 | every available move leads inside the bounds to a navigable position |
| Boats.Boat.constructor | nav/boat.py:6-8 | the boat is at the given position with no navigability check, and is valid on a sound grid of the configured size |
| Boats.Boat.GetAvailability | nav/boat.py:10-28 | with the bound corrected to `nx < ROWS`, the scan returns exactly the available moves |
| Boats.Boat.GetAvailabilityAsWritten | nav/boat.py:19-21 | with `nx <= ROWS` it raises AttributeError exactly when some delta reaches row ROWS (in particular whenever the boat is on the last row); otherwise it returns the available moves |
| Boats.Boat.GetNeighbors | nav/boat.py:32-33 | over the corrected scan: the number of available moves, at most 8 |
| Boats.Boat.GetNeighborsAsWritten | nav/boat.py:10-33 | raises AttributeError exactly when the as-written scan does, in particular on the last row; otherwise the number of available moves, at most 8 |
| Boats.Boat.Move | nav/boat.py:37-42 | moves and returns true exactly when the destination is inside the bounds and navigable; otherwise the position is unchanged |
| Navigation.SquaredDistance | nav/navigate.py:15-17 | non-negative, and zero exactly on equal positions |
| Navigation.DistanceSymmetric | nav/navigate.py:13-17 | the distance is symmetric |
| Navigation.DistanceZeroIffSame | nav/navigate.py:13-17 | the distance is zero exactly between equal positions |
| Navigation.OpenNeighbourhoodNotNearShore | nav/navigate.py:24-32 | a position whose in-bounds neighbours are all navigable is not near shore; out-of-bounds neighbours never count |
| Navigation.BlockedNeighbourNearShore | nav/navigate.py:28-31 | one non-navigable in-bounds neighbour makes a position near shore |
| Navigation.VisitOpen | nav/navigate.py:82 | marking an open position visited keeps every visited position open |
| Navigation.GreedyNavigate.constructor | nav/navigate.py:6-10 | nothing visited, an empty path, and the given boat and target |
| Navigation.GreedyNavigate.CalculateDistance | nav/navigate.py:12-17 | the non-negative square root of the squared distance, zero exactly on equal positions |
| Navigation.GreedyNavigate.IsNearShore | nav/navigate.py:19-32 | true exactly when some in-bounds neighbour is not navigable |
| Navigation.GreedyNavigate.ScoreOf | nav/navigate.py:53-58 | distance to the target plus 10 when near shore |
| Navigation.GreedyNavigate.PickBest | nav/navigate.py:44-62 | finds nothing exactly when every move leads to a visited position; otherwise picks an unvisited move whose score no other unvisited move beats |
| Navigation.GreedyNavigate.GetBestMove | nav/navigate.py:34-64 | None exactly when no available move leads to an unvisited position; otherwise an available, unvisited move of minimum score |
| Navigation.GreedyNavigate.Advance | nav/navigate.py:73-82 | pushes the old position, moves by the chosen move, adds the new position to `visited`, and keeps the invariant |
| Navigation.GreedyNavigate.Backtrack | nav/navigate.py:86-92 | pops exactly one entry, puts the boat there and leaves `visited` unchanged |
| Navigation.GreedyNavigate.Navigate | nav/navigate.py:66-94 | `visited` never shrinks. With a candidate it takes a best move, the path grows by the old position and the new position is visited. Without one it pops and returns to the last position. With an empty path as well nothing changes |
| LegacyGrid.Grid.constructor | grid.py:3-6 | the given dimensions, a table of max(rows, 0) x max(cols, 0) cells, every cell 0 |
| LegacyGrid.NewDefault | grid.py:3 | the default grid is 20 x 20, safe everywhere, and reads 0 at every in-bounds position |
| LegacyGrid.Grid.InBounds | grid.py:10-15 | on a square grid every position the check accepts lies inside the table |
| LegacyGrid.Grid.GetCell | grid.py:13-17 | the value at [y][x] exactly for in-bounds positions, None otherwise |
| LegacyGrid.Grid.SetCell | grid.py:8-11 | in bounds only cell [y][x] changes and reads back as the value; out of bounds nothing changes; every other position reads as before |
| LegacyGrid.Grid.SquareIsSafe | grid.py:6-16 | a square or empty grid never indexes outside its table |
| LegacyGrid.Grid.NonSquareIsUnsafe | grid.py:10-11 | a non-empty non-square grid has an in-bounds position outside its table |
| LegacyCells.GridCells.constructor | grid_cells.py:4-7 | stores the keywords and mirrors `name` when it is given |
| LegacyCells.GridCells.Create | grid_cells.py:2-10 | fails exactly when one of depth, value, wind, waves is missing, naming a missing one; extra keys are kept |
| LegacyCells.GridCells.Get | grid_cells.py:15-16 | succeeds exactly on present keys, KeyError otherwise |
| LegacyCells.GridCells.Set | grid_cells.py:12-13 | afterwards `get(k)` returns the value and the key is contained; other keys read as before |
| LegacyCells.GridCells.Contains | grid_cells.py:18-19 | true exactly when `get` succeeds |
| LegacyCells.GridCells.Save | grid_cells.py:21-22 | every stored key with the value `get` returns |
| LegacyCells.DefaultKwds | grid_cells.py:26 | the default keywords carry every required key and no name |
| LegacyCells.Default | grid_cells.py:25-26 | always succeeds, with every required key -1, `default = True` and no other key |
| GridValues.Create | grid_value.py:3-9 | succeeds exactly when depth, value, wind and waves are all present, keeping the keywords; otherwise names a missing one |
| GridValues.ModuleExample | grid_value.py:17 | `GridValue(depth=3, value=5)` fails, naming wind or waves |

## Left out

- File I/O: `Grid.load`/`Grid.save` (grid/grid.py:20-30, 62-68) and the module-level load and print at nav/boat.py:46-48 are not modelled. Only the in-memory `save_json`/`from_json` pair is.
- Randomness: the random initial landmass map (grid/grid_cells.py:38) is a parameter. The throwaway grid `from_json` builds with `cls()` (grid/grid.py:14) is replaced by an empty one, because every field of it is overwritten.
- Configuration: `ROWS`, `COLS`, `SMOOTHING_ITERATIONS`, `BOAT_STARTING_POS` and `BOAT_TARGET_POS` are parameters, not the values of the configuration module.
- Output: `print` diagnostics and the `__str__`/`__repr__` renderings are not modelled. The `__setitem__`/`__getitem__` aliases are the same members as `set_cell`/`get_cell`.
- `get_navigable` (grid/grid_cells.py:23-24) has an empty body and is not modelled. Neither is the unused class attribute `people` (grid.py:27) or the bare list literal at the end of grid_value.py.
- Floating point: `math.sqrt` and float addition are exact reals, with the distance a parameter satisfying the Euclidean law. `float('inf')` as the initial best score becomes a "nothing found yet" flag.
- Navigation.GreedyNavigate.GetBestMove: ties are not pinned to one candidate. The source keeps the first minimum in the iteration order of a Python `set`, which the model does not fix, so the contract promises some minimum-score candidate.
- Navigation.GreedyNavigate.GetBestMove: uses the availability scan with the corrected bound (see Findings). With the bound as written, a boat on the last row raises before any move is scored.
- Boats.Boat.Move: requires the grid's stored flags to be bools, because `__bool__` raises TypeError on any other value. A flag that is not a bool is not modelled as an error result.
- Boats.Boat.GetNeighbors: counts the corrected scan. As written, `get_neighbors` raises exactly when `GetAvailabilityAsWritten` does, which `GetNeighborsAsWritten` states.
- Boats.Boat.Valid: requires the grid to have exactly the configured `ROWS` and `COLS`. On a grid with more rows, `get_cell((ROWS, ny))` returns a cell, so the as-written scan considers that row instead of raising. That case is not modelled.
- Boats.Boat.GetAvailability: requires every stored flag to be a bool (the invariant `Sound` it shares with `Move`), although `.get("navigable")` accepts any value. Grids whose flags are not bools are outside the model.
- Boats.Boat.constructor: the chart is a ghost snapshot of the grid's navigable positions. Boat and navigator operations require the grid still to match it, so a grid edited while a boat sails on it is not modelled.
- GridStore.Grid.constructor: requires a square (or empty) grid, because the transposed landmass read `landmass_map[col][row]` raises IndexError otherwise.
- Aliasing: a cell object shared between two grids, or a grid edited through another reference during navigation, is not modelled beyond the frame conditions above. `save` returns the cell's own dict object, so the mappings `save_json` emits are live views of the cells. The model's `Save` and `SaveJson` return map values instead, so a later change to a cell does not show in a saved mapping.
- `navigate` is split into `GetBestMove` (with `PickBest` and `ScoreOf` for its loop), `Advance` and `Backtrack`. `Navigate` composes them in the source's order.
- LegacyGrid.Grid.constructor: cells hold the `Value` datatype rather than arbitrary Python objects. The source stores whatever `set_cell` is given.

## Findings

| source | as written | input that shows it | evidently intended | confidence | as-written member | corrected member |
|---|---|---|---|---|---|---|
| grid/grid_cells.py:15 | `self.navigable = dict["navigable"]` subscripts the builtin `dict` type, giving a truthy generic alias on Python 3.9+, so `is_navigable` ignores the cell | a land cell from `default` (`navigable=False`): `is_navigable` at its position is truthy | `self.navigable = kwds["navigable"]`, so `is_navigable` follows the stored flag | not executed | GridStore.Grid.IsNavigableAsWritten | GridStore.Grid.IsNavigable |
| grid/grid.py:86 | `sum(cell.navigable ...)` adds those generic aliases to 0 | any grid with at least one cell: the sum raises TypeError | the number of cells whose stored flag is true | not executed | GridStore.Grid.CountNavigableCellsAsWritten | GridStore.Grid.CountNavigableCells |
| nav/boat.py:19 | `0 <= nx <= constants.ROWS` admits nx == ROWS; `get_cell` then returns None and `.get` on it raises AttributeError | a boat at x = ROWS - 1, any in-bounds y: the move (1, 0) gives nx == ROWS | `0 <= nx < constants.ROWS`, as in `move` and the commented-out line above it | not executed | Boats.Boat.GetAvailabilityAsWritten | Boats.Boat.GetAvailability |
