# Battleship heat-map targeting and Tetris board features, in Dafny

This project models two pure integer computations from a course repository of game-playing agents.

1. **Battleship targeting.** `ProbabilisticAgent.makeMove` picks the next cell to attack.
   It reads the enemy board, where a cell is *eligible* if it is `UNKNOWN` or `HIT`.
   It also reads the number of ships of each type still afloat.
   For every eligible cell it measures two runs of eligible cells, each capped at 5: one going right, one going down.
   It then adds ship counts into a weight grid through five hard-coded branches, one per ship type.
   The whole scan repeats once for each ship type whose count is not zero.
   Finally a row-major scan with a strict `>` picks the heaviest cell, starting from maximum 0 at (0, 0).
2. **Tetris features.** Five helpers of `TetrisQAgent` compute statistics of an occupancy grid, with row 0 at the top:
   number of holes, bumpiness, maximum height, minimum height and total height.
   A column's height is `NUM_ROWS - (topmost occupied row)`, or 0 for an empty column.

Files:

- `grid.dfy` (module `Grid`): rectangular grids as `seq<seq<_>>`, the zero grid, and single-cell increments.
- `battleship.dfy` (module `Battleship`): the agent's loops and branches as recursive functions, one per loop.
- `battleship_lemmas.dfy` (module `BattleshipLemmas`): reference definitions and the proofs relating them to those loops.
  The reference definitions are the branch table, the weight one origin contributes, the weight one pass adds, and the first maximum in row-major order.
- `battleship_loops.dfy` (module `BattleshipLoops`): `makeMove` written loop for loop, with its `break`s and counters, proved to compute the same grid and move as the functions.
- `tetris.dfy` (module `TetrisFeatures`): column heights, hole counts and the five features as functions.
  The agent's nested loops are methods proved equal to those functions.
- `tetris_lemmas.dfy` (module `TetrisLemmas`): how the features relate to each other.

## Behaviour as written

The model follows the Java code, including the parts that look unintended:

- The horizontal branch does not credit the ship's placement span `(row, col) .. (row, col + size - 1)`.
  Its loop starts at the origin's row, adds the count to column `col`, and runs while the index is at most `col + 1` and inside the board.
  So it credits cells of the origin's own *column*, from the origin's row down to row `col + 1`.
  Consequence: every cell (a, b) with a > b + 1 ends with weight 0 (`HeatMapBelowSubdiagonalZero`).
- The vertical branches loop from `i = col` while `i < col`, so they never change the grid (`CreditAcross`).
- Horizontal tests use exact equality with the key size. Vertical tests use `>=`.
  So the weight an origin adds depends only on its exact horizontal run (`BranchTotal`):
  run 2 adds the patrol-boat count, run 3 the destroyer and submarine counts, run 4 the battleship count, and run 5 the carrier count.
  Run 1 adds nothing.
- The board does not change between passes of the outer loop.
  So the final grid is k times one pass, where k is the number of ship types with a non-zero count (`HeatMapIsScaledPass`).
- When no weight is positive, the agent attacks (0, 0), even when that cell is a miss (`FallbackIgnoresEligibility`).
- Example: on a 4x4 board with no misses and one patrol boat left, only column 2 gets weight, and the agent attacks (3, 2) (`OpenBoardPatrolOnly`).

A conventional placement-counting heuristic would do several things differently.
It would credit the full placement span in both orientations and derive the run cap from the largest surviving ship.
When all weights are zero, it would fall back to the first eligible cell, and it would report an error when no cell is eligible.
The code does none of these things, and the model follows the code.

The order in which `ships.keySet()` yields the ship types is not visible.
It is a parameter `order`. `HeatMap`, `MakeMove` and their loop versions accept any sequence of ship types.
The lemmas that need the real iteration order (`HeatMapIsScaledPass`, `HeatMapOrderIndependent`, `OpenBoardCell`, `OpenBoardPatrolOnly`) require `order` to list each key exactly once (`Enumerates`), and the heat map is proved not to depend on which such order is used (`HeatMapOrderIndependent`).
`NUM_ROWS`, `NUM_COLS` and the board's dimensions are parameters.

## Model

| member | source | states |
|---|---|---|
| `Grid.Zero` | cs440/src/pas/battleship/agents/ProbabilisticAgent.java:30 | the counter grid starts as `rows × columns` zeros |
| `Grid.AddAt` | cs440/src/pas/battleship/agents/ProbabilisticAgent.java:100 | `counter[i][j] += n` changes cell (i, j) by n and no other cell |
| `Battleship.Scan` | cs440/src/pas/battleship/agents/ProbabilisticAgent.java:68-79 | the run loop, resumed with some cells already counted, ends with the full capped run from where counting began |
| `Battleship.RunLength` | cs440/src/pas/battleship/agents/ProbabilisticAgent.java:62-93 | the run is the number of consecutive eligible cells, ended by the cap 5, the edge or an ineligible cell; from an eligible cell it lies in [1, min(5, remaining cells)] |
| `Battleship.Column` | cs440/src/pas/battleship/agents/ProbabilisticAgent.java:88 | the vertical scan reads `board[i][col]` for each row i |
| `BattleshipLemmas.RunUnique` | cs440/src/pas/battleship/agents/ProbabilisticAgent.java:68-79 | the conditions defining a run pin its length down uniquely |
| `BattleshipLemmas.HorizontalRunSpec` | cs440/src/pas/battleship/agents/ProbabilisticAgent.java:62-79 | at an eligible (row, col), `hori_combo` is the capped run of row `row` from `col`, in [1, min(5, columns − col)] |
| `BattleshipLemmas.VerticalRunSpec` | cs440/src/pas/battleship/agents/ProbabilisticAgent.java:82-93 | at an eligible (row, col), `vert_combo` is the capped run of column `col` from `row`, in [1, min(5, rows − row)], and all its cells are eligible |
| `BattleshipLemmas.OpenRunLength` | cs440/src/pas/battleship/agents/ProbabilisticAgent.java:68-79 | on a line with no ineligible cell the run is min(5, cells to the edge) |
| `BattleshipLemmas.CreditDownCell` | cs440/src/pas/battleship/agents/ProbabilisticAgent.java:98-102 | the horizontal credit loop (`CreditDown`) adds n to exactly the cells (a, col) with row ≤ a ≤ col + 1 (and a < rows) |
| `Battleship.CreditAcross` | cs440/src/pas/battleship/agents/ProbabilisticAgent.java:103-107 | the vertical credit loop started at `i = col` returns the grid unchanged |
| `BattleshipLemmas.ShipBranchCell` | cs440/src/pas/battleship/agents/ProbabilisticAgent.java:96-107 | a ship branch (`ShipBranch`) adds the type's count to (a, col), row ≤ a ≤ col + 1, exactly when the horizontal run equals its key size; nothing else changes |
| `BattleshipLemmas.BranchesCell` | cs440/src/pas/battleship/agents/ProbabilisticAgent.java:95-159 | the branches run in sequence (`Branches`) add the summed counts of the types keyed on the horizontal run, on the same cells |
| `BattleshipLemmas.BranchOrderTable` | cs440/src/pas/battleship/agents/ProbabilisticAgent.java:97-159 | the five hard-coded branches add: run 2 the patrol count, run 3 destroyer + submarine, run 4 battleship, run 5 carrier, any other run nothing |
| `BattleshipLemmas.OriginStepCell` | cs440/src/pas/battleship/agents/ProbabilisticAgent.java:62-160 | the cell-loop body (`OriginStep`) adds its origin's branch-table weight to its own column from its row to row col + 1, and an ineligible origin adds nothing |
| `BattleshipLemmas.PassColsCell` | cs440/src/pas/battleship/agents/ProbabilisticAgent.java:61-161 | the column loop of one row (`PassCols`) adds to (a, b) the weight of origin (row, b) when b is at or after the starting column and row ≤ a ≤ b + 1 |
| `BattleshipLemmas.PassRowsCell` | cs440/src/pas/battleship/agents/ProbabilisticAgent.java:60-162 | the row loop (`PassRows`) adds to (a, b) the weights of origins (r, b) from the starting row to a, provided a ≤ b + 1 |
| `BattleshipLemmas.PassCell` | cs440/src/pas/battleship/agents/ProbabilisticAgent.java:58-162 | one pass (`Pass`) adds the same closed-form weight to a cell whatever the grid held before |
| `BattleshipLemmas.AccumulateCell` | cs440/src/pas/battleship/agents/ProbabilisticAgent.java:53-163 | the outer loop (`Accumulate`) adds one pass's weight for each listed type with non-zero count and skips types with count 0 |
| `BattleshipLemmas.ActiveCountIsAfloat` | cs440/src/pas/battleship/agents/ProbabilisticAgent.java:53-56 | for a list without repeats, the number of passes run is the number of distinct listed types with non-zero count |
| `BattleshipLemmas.HeatMapIsScaledPass` | cs440/src/pas/battleship/agents/ProbabilisticAgent.java:53-163 | every final weight of `coord_counter` (`HeatMap`) is k times the weight one pass from zero gives, k = number of ship types afloat |
| `BattleshipLemmas.HeatMapOrderIndependent` | cs440/src/pas/battleship/agents/ProbabilisticAgent.java:53 | the order in which the map yields its ship types does not change the grid |
| `BattleshipLemmas.HeatMapBelowSubdiagonalZero` | cs440/src/pas/battleship/agents/ProbabilisticAgent.java:99-100 | every cell (a, b) with a > b + 1 ends with weight 0 |
| `BattleshipLemmas.HeatMapZeroInventory` | cs440/src/pas/battleship/agents/ProbabilisticAgent.java:53-56 | an inventory of all zeros leaves every weight 0 |
| `BattleshipLemmas.AccumulateMonotone` | cs440/src/pas/battleship/agents/ProbabilisticAgent.java:98-102 | with non-negative counts, a pass and the outer loop never lower a weight, and the final grid is non-negative |
| `BattleshipLemmas.SelectColsScans` | cs440/src/pas/battleship/agents/ProbabilisticAgent.java:169-174 | after the column loop of a row, the running maximum is the largest weight so far (or 0) and its coordinate is the first to reach it |
| `BattleshipLemmas.SelectRowsScans` | cs440/src/pas/battleship/agents/ProbabilisticAgent.java:168-175 | after the row loop, the same holds of the whole grid |
| `BattleshipLemmas.SelectSpec` | cs440/src/pas/battleship/agents/ProbabilisticAgent.java:165-175 | the selector returns the first cell in row-major order holding the maximum if some weight is positive, (0, 0) otherwise; in bounds when rows, columns ≥ 1 |
| `BattleshipLemmas.FirstMaxUnique` | cs440/src/pas/battleship/agents/ProbabilisticAgent.java:170 | with a strict `>`, at most one cell is the first maximum |
| `BattleshipLemmas.ColumnTwoRampSelect` | cs440/src/pas/battleship/agents/ProbabilisticAgent.java:165-175 | on the 4x4 grid holding a + 1 at (a, 2) and 0 elsewhere, the selector picks (3, 2) |
| `BattleshipLemmas.MakeMoveSpec` | cs440/src/pas/battleship/agents/ProbabilisticAgent.java:26-179 | the move is the first heaviest cell when some weight is positive, and (0, 0) when none is, which always happens with an all-zero inventory; in bounds on a non-empty board |
| `BattleshipLemmas.FallbackIgnoresEligibility` | cs440/src/pas/battleship/agents/ProbabilisticAgent.java:165-166 | on a 1x1 board whose cell is a miss, the agent still attacks (0, 0) |
| `BattleshipLemmas.OpenBoardPatrolOnly` | cs440/src/pas/battleship/agents/ProbabilisticAgent.java:53-175 | on a 4x4 board with no misses and one patrol boat left, only column 2 gets weight, (a, 2) gets a + 1, and the agent attacks (3, 2) |
| `BattleshipLoops.MeasureRun` | cs440/src/pas/battleship/agents/ProbabilisticAgent.java:68-79 | the run loop with its two `break`s (cap reached, ineligible cell) returns the capped run length |
| `BattleshipLoops.CreditDownLoop` | cs440/src/pas/battleship/agents/ProbabilisticAgent.java:98-102 | the horizontal credit `for` loop produces the same grid as `CreditDown` |
| `BattleshipLoops.VisitCell` | cs440/src/pas/battleship/agents/ProbabilisticAgent.java:62-160 | the cell-loop body, with both run loops and the five branches in source order (each with its horizontal and vertical half), produces the grid `OriginStep` describes |
| `BattleshipLoops.ScanBoard` | cs440/src/pas/battleship/agents/ProbabilisticAgent.java:60-162 | the nested row and column loops of one pass produce the grid `Pass` describes |
| `BattleshipLoops.BuildHeatMap` | cs440/src/pas/battleship/agents/ProbabilisticAgent.java:30-163 | starting from a zero `coord_counter`, the outer loop with its `continue` on count 0 produces `HeatMap` |
| `BattleshipLoops.PickTarget` | cs440/src/pas/battleship/agents/ProbabilisticAgent.java:165-175 | the selector loops with `max_count` and `max_coord` return the coordinate `Select` describes |
| `BattleshipLoops.ChooseTarget` | cs440/src/pas/battleship/agents/ProbabilisticAgent.java:26-179 | the loop version of `makeMove` returns the move `MakeMove` describes, and so inherits `MakeMoveSpec` |
| `TetrisFeatures.FirstOccupied` | cs440/src/pas/tetris/agents/TetrisQAgent.java:184-193 | the scan down a column stops at the topmost occupied cell at or below its start, or runs off the end when there is none |
| `TetrisFeatures.Height` | cs440/src/pas/tetris/agents/TetrisQAgent.java:186-190 | column height is `NUM_ROWS` minus the topmost occupied row, in [0, NUM_ROWS]; it is 0 exactly for an empty column |
| `TetrisFeatures.ScanColumn` | cs440/src/pas/tetris/agents/TetrisQAgent.java:165-170 | the inner loop with `break` finds an occupied cell iff the column has one, and then `NUM_ROWS - row` is the column height |
| `TetrisFeatures.NumberOfHoles` | cs440/src/pas/tetris/agents/TetrisQAgent.java:142-156 | `getNumberOfHoles` counts, over all columns, the empty cells with an occupied cell at a smaller row index |
| `TetrisFeatures.Bumpiness` | cs440/src/pas/tetris/agents/TetrisQAgent.java:158-179 | the sum of |h(c) − h(c − 1)| over neighbouring columns is non-negative |
| `TetrisFeatures.ComputeBumpiness` | cs440/src/pas/tetris/agents/TetrisQAgent.java:158-179 | `getBumpiness`, with its first-column flag, returns the sum of |h(c) − h(c − 1)| for c ≥ 1, empty columns counting as height 0 |
| `TetrisFeatures.MaxHeight` | cs440/src/pas/tetris/agents/TetrisQAgent.java:181-195 | the maximum height bounds every column's height and is attained by a column or is 0 |
| `TetrisFeatures.ComputeMaxHeight` | cs440/src/pas/tetris/agents/TetrisQAgent.java:181-195 | `getMaxHeight` returns the maximum column height, in [0, NUM_ROWS] |
| `TetrisFeatures.MinHeight` | cs440/src/pas/tetris/agents/TetrisQAgent.java:197-212 | the minimum height is at most `NUM_ROWS`, at most every non-empty column's height, and is `NUM_ROWS` or some non-empty column's height |
| `TetrisFeatures.ComputeMinHeight` | cs440/src/pas/tetris/agents/TetrisQAgent.java:197-212 | `getMinHeight` starts at `NUM_ROWS`, ignores empty columns and returns the least non-empty height, in [0, NUM_ROWS] |
| `TetrisFeatures.ComputeTotalHeight` | cs440/src/pas/tetris/agents/TetrisQAgent.java:214-228 | `getTotalHeight` returns the sum of the column heights |
| `TetrisLemmas.CoveredBelowTop` | cs440/src/pas/tetris/agents/TetrisQAgent.java:146-152 | `foundBlock` is set at a row exactly when the column's topmost block lies above that row |
| `TetrisLemmas.HolesPlusOccupiedUpTo` | cs440/src/pas/tetris/agents/TetrisQAgent.java:145-155 | over the first k rows of a column, holes plus occupied cells equal the rows counted from the topmost block |
| `TetrisLemmas.ColumnHolesPlusOccupied` | cs440/src/pas/tetris/agents/TetrisQAgent.java:142-156 | in each column, holes plus occupied cells equal the column height |
| `TetrisLemmas.BoardHolesPlusOccupied` | cs440/src/pas/tetris/agents/TetrisQAgent.java:142-228 | total holes plus total occupied cells equal `getTotalHeight` |
| `TetrisLemmas.BumpinessZeroIff` | cs440/src/pas/tetris/agents/TetrisQAgent.java:158-179 | bumpiness is 0 exactly when all column heights are equal |
| `TetrisLemmas.EmptyBoard` | cs440/src/pas/tetris/agents/TetrisQAgent.java:142-228 | on an empty board: no holes, total and maximum height 0, bumpiness 0, and minimum height `NUM_ROWS` |
| `TetrisLemmas.MinAtMostMax` | cs440/src/pas/tetris/agents/TetrisQAgent.java:181-212 | once any cell is occupied, the minimum height is at most the maximum height |
| `TetrisLemmas.MaxHeightBound` | cs440/src/pas/tetris/agents/TetrisQAgent.java:181-195 | no column is taller than `NUM_ROWS` |
| `TetrisLemmas.MaxAtMostTotal` | cs440/src/pas/tetris/agents/TetrisQAgent.java:181-228 | the maximum height is at most the total height |
| `TetrisLemmas.TotalHeightBound` | cs440/src/pas/tetris/agents/TetrisQAgent.java:214-228 | the total height is at most `NUM_COLS · NUM_ROWS` |

## Left out

- The `totalCombinations` computation (ProbabilisticAgent.java:33-51): its result is never used, and its product can overflow `int`.
- Logging (ProbabilisticAgent.java:22, 177) and the empty `afterGameEnds` (ProbabilisticAgent.java:182-183).
- The framework types `GameView`, `EnemyBoard`, `Coordinate` and `ShipType` are replaced by plain values.
  The board is a grid of `Outcome`, the ship counts are a map over the five ship types, and the move is a `Coordinate` datatype.
- A ship-count map that lacks one of the five types makes `ships.get(...)` unbox null and throw.
  The model requires all five entries (`Complete`) instead of modelling the exception.
- Negative board dimensions make `new int[rows][columns]` throw; dimensions are `nat`.
- Java's 32-bit `int` arithmetic on the weights is not modelled: weights are unbounded integers.
  Overflow needs ship counts far beyond any real game.
- The iteration order of `ships.keySet()` is not visible; it is the parameter `order`.
- `initQFunction`, `getQFunctionInput` and `trainQFunction` (TetrisQAgent.java): they call a neural-network and matrix library whose code is not part of this model.
- `shouldExplore` and `getExplorationMove`: they depend on `Random`.
- `getReward`: it uses floating-point arithmetic.
  Its height penalty `1 / (Board.NUM_ROWS - getMaxHeight(board))` (TetrisQAgent.java:390) is an integer division, and it is 0 whenever that difference is above 1.
- `getNextMino`: it returns an external enum's ordinal, and it throws on an empty list.
- The commented-out helpers (TetrisQAgent.java:230-278): dead code.
- `Board` itself is not modelled: the occupancy grid `b[col][row]` and `NUM_ROWS`, `NUM_COLS` are parameters.
