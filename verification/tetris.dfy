/**
 Board features of the Tetris Q-learning agent (`TetrisQAgent`): holes, bumpiness,
 maximum, minimum and total column height.

 A board is a sequence of columns, `b[col][row]` standing for
 `board.isCoordinateOccupied(col, row)`, with row 0 at the top. The board's
 dimensions `NUM_COLS` and `NUM_ROWS` are parameters.
 */
module TetrisFeatures {
  import opened Grid

  /** `b` has `numCols` columns of `numRows` cells, both positive. */
  predicate IsBoard(b: seq<seq<bool>>, numCols: nat, numRows: nat) {
    numCols > 0 && numRows > 0 && IsGrid(b, numCols, numRows)
  }

  /** Every column of `b` has `numRows` cells (also true of every prefix of a board). */
  predicate Columns(b: seq<seq<bool>>, numRows: nat) {
    forall c :: 0 <= c < |b| ==> |b[c]| == numRows
  }

  // ---------------------------------------------------------------------------
  // One column
  // ---------------------------------------------------------------------------

  /** Index of the topmost occupied cell at or below `row`, or `|column|` if none. */
  function FirstOccupied(column: seq<bool>, row: nat): (r: nat)
    requires row <= |column|
    ensures row <= r <= |column|
    ensures forall k :: row <= k < r ==> !column[k]
    ensures r < |column| ==> column[r]
    decreases |column| - row
  {
    if row == |column| then |column|
    else if column[row] then row
    else FirstOccupied(column, row + 1)
  }

  /** Column height: `NUM_ROWS - (topmost occupied row)`, 0 for an empty column. */
  function Height(column: seq<bool>): (h: nat)
    ensures h <= |column|
    ensures h == 0 <==> forall k :: 0 <= k < |column| ==> !column[k]
    ensures h > 0 ==> column[|column| - h]
    ensures forall k :: 0 <= k < |column| - h ==> !column[k]
  {
    |column| - FirstOccupied(column, 0)
  }

  /** Some cell above row `k` (a smaller index) is occupied. */
  predicate Covered(column: seq<bool>, k: nat)
    requires k <= |column|
  {
    exists r :: 0 <= r < k && column[r]
  }

  /** Number of empty cells among rows 0 .. k - 1 that lie below an occupied cell. */
  function HolesUpTo(column: seq<bool>, k: nat): nat
    requires k <= |column|
  {
    if k == 0 then 0
    else HolesUpTo(column, k - 1) + (if !column[k - 1] && Covered(column, k - 1) then 1 else 0)
  }

  /** Number of occupied cells among rows 0 .. k - 1. */
  function OccupiedUpTo(column: seq<bool>, k: nat): nat
    requires k <= |column|
  {
    if k == 0 then 0
    else OccupiedUpTo(column, k - 1) + (if column[k - 1] then 1 else 0)
  }

  function Holes(column: seq<bool>): nat {
    HolesUpTo(column, |column|)
  }

  function Occupied(column: seq<bool>): nat {
    OccupiedUpTo(column, |column|)
  }

  // ---------------------------------------------------------------------------
  // The whole board
  // ---------------------------------------------------------------------------

  /** Sum of `f` over the columns of `b`. */
  function SumColumns(b: seq<seq<bool>>, f: seq<bool> -> nat): int {
    if |b| == 0 then 0 else SumColumns(b[..|b| - 1], f) + f(b[|b| - 1])
  }

  /** Extending a prefix of the board by one column adds that column's value. */
  lemma SumColumnsStep(b: seq<seq<bool>>, k: nat, f: seq<bool> -> nat)
    requires k < |b|
    ensures SumColumns(b[..k + 1], f) == SumColumns(b[..k], f) + f(b[k])
  {
    assert b[..k + 1][..k] == b[..k];
  }

  function TotalHoles(b: seq<seq<bool>>): int {
    SumColumns(b, Holes)
  }

  function TotalHeight(b: seq<seq<bool>>): int {
    SumColumns(b, Height)
  }

  function TotalOccupied(b: seq<seq<bool>>): int {
    SumColumns(b, Occupied)
  }

  function Abs(x: int): nat {
    if x < 0 then -x else x
  }

  /** Sum of |h(c) - h(c - 1)| over adjacent columns. */
  function Bumpiness(b: seq<seq<bool>>): (r: int)
    ensures r >= 0
  {
    if |b| <= 1 then 0
    else Bumpiness(b[..|b| - 1]) + Abs(Height(b[|b| - 1]) - Height(b[|b| - 2]))
  }

  /** The tallest column's height, 0 when there is no column or none is occupied. */
  function MaxHeight(b: seq<seq<bool>>): (r: nat)
    ensures forall c :: 0 <= c < |b| ==> Height(b[c]) <= r
    ensures r == 0 || exists c :: 0 <= c < |b| && Height(b[c]) == r
  {
    if |b| == 0 then 0
    else
      var m := MaxHeight(b[..|b| - 1]);
      var h := Height(b[|b| - 1]);
      if h > m then h else m
  }

  /** The lowest height among occupied columns, `numRows` when none is lower. */
  function MinHeight(b: seq<seq<bool>>, numRows: nat): (r: nat)
    ensures r <= numRows
    ensures forall c :: 0 <= c < |b| && Height(b[c]) > 0 ==> r <= Height(b[c])
    ensures r == numRows || exists c :: 0 <= c < |b| && Height(b[c]) == r && r > 0
  {
    if |b| == 0 then numRows
    else
      var m := MinHeight(b[..|b| - 1], numRows);
      var h := Height(b[|b| - 1]);
      if h > 0 && h < m then h else m
  }

  lemma MinHeightStep(b: seq<seq<bool>>, k: nat, numRows: nat)
    requires k < |b|
    ensures var m := MinHeight(b[..k], numRows);
            MinHeight(b[..k + 1], numRows) == if 0 < Height(b[k]) < m then Height(b[k]) else m
  {
    assert b[..k + 1][..k] == b[..k];
  }

  // ---------------------------------------------------------------------------
  // The agent's helpers, loop for loop
  // ---------------------------------------------------------------------------

  /** The inner scan shared by the height helpers: walk down `column` and stop at
      the first occupied cell. */
  method ScanColumn(column: seq<bool>, numRows: nat) returns (found: bool, row: nat)
    requires |column| == numRows
    ensures found <==> exists k :: 0 <= k < numRows && column[k]
    ensures found ==> row < numRows && column[row] && numRows - row == Height(column)
    ensures !found ==> Height(column) == 0
  {
    found := false;
    row := 0;
    while row < numRows
      invariant 0 <= row <= numRows
      invariant forall k :: 0 <= k < row ==> !column[k]
    {
      if column[row] {
        found := true;
        break;
      }
      row := row + 1;
    }
    if found {
      assert FirstOccupied(column, 0) == row;
    }
  }

  /** `getNumberOfHoles`: per column, empty cells met after an occupied one. */
  method NumberOfHoles(b: seq<seq<bool>>, numCols: nat, numRows: nat) returns (holes: int)
    requires IsBoard(b, numCols, numRows)
    ensures holes == TotalHoles(b)
  {
    holes := 0;
    var col := 0;
    while col < numCols
      invariant 0 <= col <= numCols
      invariant holes == SumColumns(b[..col], Holes)
    {
      var column := b[col];
      var foundBlock := false;
      var row := 0;
      while row < numRows
        invariant 0 <= row <= numRows
        invariant foundBlock <==> Covered(column, row)
        invariant holes == SumColumns(b[..col], Holes) + HolesUpTo(column, row)
      {
        if column[row] {
          foundBlock := true;
        } else if foundBlock {
          holes := holes + 1;
        }
        row := row + 1;
      }
      SumColumnsStep(b, col, Holes);
      col := col + 1;
    }
    assert b[..numCols] == b;
  }

  /** `getBumpiness`: sum of height differences of neighbouring columns. */
  method ComputeBumpiness(b: seq<seq<bool>>, numCols: nat, numRows: nat) returns (bumpiness: int)
    requires IsBoard(b, numCols, numRows)
    ensures bumpiness == Bumpiness(b)
    ensures bumpiness >= 0
  {
    var lastHeight := 0;
    bumpiness := 0;
    var isFirstColumn := true;
    var col := 0;
    while col < numCols
      invariant 0 <= col <= numCols
      invariant isFirstColumn <==> col == 0
      invariant col > 0 ==> lastHeight == Height(b[col - 1])
      invariant bumpiness == Bumpiness(b[..col])
    {
      var currentHeight := 0;
      var found, row := ScanColumn(b[col], numRows);
      if found {
        currentHeight := numRows - row;
      }
      if !isFirstColumn {
        bumpiness := bumpiness + Abs(currentHeight - lastHeight);
      } else {
        isFirstColumn := false;
      }
      lastHeight := currentHeight;
      assert b[..col + 1][..col] == b[..col];
      col := col + 1;
    }
    assert b[..numCols] == b;
  }

  /** `getMaxHeight`: the tallest column, starting from 0. */
  method ComputeMaxHeight(b: seq<seq<bool>>, numCols: nat, numRows: nat) returns (maxHeight: int)
    requires IsBoard(b, numCols, numRows)
    ensures maxHeight == MaxHeight(b)
    ensures 0 <= maxHeight <= numRows
  {
    maxHeight := 0;
    var col := 0;
    while col < numCols
      invariant 0 <= col <= numCols
      invariant maxHeight == MaxHeight(b[..col])
      invariant maxHeight <= numRows
    {
      var found, row := ScanColumn(b[col], numRows);
      if found {
        var colHeight := numRows - row;
        maxHeight := if maxHeight >= colHeight then maxHeight else colHeight;
      }
      assert b[..col + 1][..col] == b[..col];
      col := col + 1;
    }
    assert b[..numCols] == b;
  }

  /** `getMinHeight`: the lowest occupied column, starting from `NUM_ROWS`. */
  method ComputeMinHeight(b: seq<seq<bool>>, numCols: nat, numRows: nat) returns (minHeight: int)
    requires IsBoard(b, numCols, numRows)
    ensures minHeight == MinHeight(b, numRows)
    ensures 0 <= minHeight <= numRows
  {
    minHeight := numRows;
    var col := 0;
    while col < numCols
      invariant 0 <= col <= numCols
      invariant minHeight == MinHeight(b[..col], numRows)
    {
      var found, row := ScanColumn(b[col], numRows);
      if found {
        var colHeight := numRows - row;
        minHeight := if minHeight <= colHeight then minHeight else colHeight;
      }
      MinHeightStep(b, col, numRows);
      col := col + 1;
    }
    assert b[..numCols] == b;
  }

  /** `getTotalHeight`: the sum of the column heights. */
  method ComputeTotalHeight(b: seq<seq<bool>>, numCols: nat, numRows: nat) returns (totalHeight: int)
    requires IsBoard(b, numCols, numRows)
    ensures totalHeight == TotalHeight(b)
  {
    totalHeight := 0;
    var col := 0;
    while col < numCols
      invariant 0 <= col <= numCols
      invariant totalHeight == SumColumns(b[..col], Height)
    {
      var found, row := ScanColumn(b[col], numRows);
      if found {
        totalHeight := totalHeight + (numRows - row);
      }
      SumColumnsStep(b, col, Height);
      col := col + 1;
    }
    assert b[..numCols] == b;
  }
}
