/**
 `ProbabilisticAgent.makeMove` written loop for loop, as the agent runs it, and
 proved to compute what the functional definitions of `Battleship` compute.
 */
module BattleshipLoops {
  import opened Grid
  import opened Battleship

  /** The run loop with its early exits: count eligible cells of `line` from `start`, stopping at the cap. */
  method MeasureRun(line: seq<Outcome>, start: nat) returns (combo: nat)
    requires start <= |line|
    ensures combo == RunLength(line, start)
  {
    combo := 0;
    var i := start;
    while i < |line|
      invariant start <= i <= |line| && combo == i - start && combo <= LargestBoatSize
      invariant forall k :: start <= k < i ==> Eligible(line[k])
      invariant Scan(line, i, combo) == RunLength(line, start)
      decreases |line| - i
    {
      if combo == LargestBoatSize {
        break;
      }
      if Eligible(line[i]) {
        combo := combo + 1;
      } else {
        break;
      }
      i := i + 1;
    }
  }

  /** The horizontal credit loop: add `n` to column `col` of each row from `row` down to
      row `col + 1`, stopping at the last row. */
  method CreditDownLoop(counter: seq<seq<int>>, rows: nat, cols: nat, row: nat, col: nat, n: int)
    returns (out: seq<seq<int>>)
    requires IsGrid(counter, rows, cols) && col < cols
    ensures out == CreditDown(counter, rows, cols, row, col, n)
  {
    out := counter;
    var i := row;
    while i <= col + 1 && i < rows
      invariant IsGrid(out, rows, cols)
      invariant CreditDown(out, rows, cols, i, col, n) == CreditDown(counter, rows, cols, row, col, n)
      decreases rows - i
    {
      out := AddAt(out, rows, cols, i, col, n);
      i := i + 1;
    }
  }

  /** The body of the cell loop: measure both runs, then run the five ship branches. */
  method VisitCell(board: seq<seq<Outcome>>, inv: Inventory, counter: seq<seq<int>>,
                   rows: nat, cols: nat, row: nat, col: nat) returns (out: seq<seq<int>>)
    requires ValidBoard(board, rows, cols) && IsGrid(counter, rows, cols) && Complete(inv)
    requires row < rows && col < cols
    ensures out == OriginStep(board, inv, counter, rows, cols, row, col)
  {
    out := counter;
    if Eligible(board[row][col]) {
      var horiCombo := MeasureRun(board[row], col);
      var vertCombo := MeasureRun(Column(board, rows, cols, col), row);
      var s := 0;
      while s < |BranchOrder|
        invariant 0 <= s <= |BranchOrder|
        invariant IsGrid(out, rows, cols)
        invariant Branches(out, rows, cols, inv, row, col, BranchOrder[s..], horiCombo, vertCombo)
                  == OriginStep(board, inv, counter, rows, cols, row, col)
      {
        var ship := BranchOrder[s];
        var num := inv[ship];
        var before := out;
        if horiCombo == BranchSize(ship) {
          out := CreditDownLoop(out, rows, cols, row, col, num);
        }
        // The vertical credit loop starts at `col` and runs only while below `col`,
        // so its body never runs; it is the function `CreditAcross`.
        if vertCombo >= BranchSize(ship) {
          out := CreditAcross(out, rows, cols, row, col, col, num);
        }
        assert out == ShipBranch(before, rows, cols, row, col, ship, num, horiCombo, vertCombo);
        assert BranchOrder[s..][1..] == BranchOrder[s + 1..];
        s := s + 1;
      }
    }
  }

  /** One scan of the whole board, row by row and column by column. */
  method ScanBoard(board: seq<seq<Outcome>>, inv: Inventory, counter: seq<seq<int>>, rows: nat, cols: nat)
    returns (out: seq<seq<int>>)
    requires ValidBoard(board, rows, cols) && IsGrid(counter, rows, cols) && Complete(inv)
    ensures out == Pass(board, inv, counter, rows, cols)
  {
    out := counter;
    var row := 0;
    while row < rows
      invariant 0 <= row <= rows
      invariant IsGrid(out, rows, cols)
      invariant PassRows(board, inv, out, rows, cols, row) == Pass(board, inv, counter, rows, cols)
    {
      var rowStart := out;
      var col := 0;
      while col < cols
        invariant 0 <= col <= cols
        invariant IsGrid(out, rows, cols)
        invariant PassCols(board, inv, out, rows, cols, row, col) == PassCols(board, inv, rowStart, rows, cols, row, 0)
      {
        out := VisitCell(board, inv, out, rows, cols, row, col);
        col := col + 1;
      }
      row := row + 1;
    }
  }

  /** The outer loop: one scan per ship type in `order` whose count is not zero. */
  method BuildHeatMap(board: seq<seq<Outcome>>, inv: Inventory, order: seq<ShipType>, rows: nat, cols: nat)
    returns (counter: seq<seq<int>>)
    requires ValidBoard(board, rows, cols) && Complete(inv)
    ensures counter == HeatMap(board, inv, order, rows, cols)
  {
    counter := Zero(rows, cols);
    var k := 0;
    while k < |order|
      invariant 0 <= k <= |order|
      invariant IsGrid(counter, rows, cols)
      invariant Accumulate(board, inv, order[k..], counter, rows, cols) == HeatMap(board, inv, order, rows, cols)
    {
      assert order[k..][1..] == order[k + 1..];
      if inv[order[k]] != 0 {
        counter := ScanBoard(board, inv, counter, rows, cols);
      }
      k := k + 1;
    }
  }

  /** The selector: row-major scan keeping the first strictly larger weight, from 0 at (0, 0). */
  method PickTarget(w: seq<seq<int>>, rows: nat, cols: nat) returns (target: Coordinate)
    requires IsGrid(w, rows, cols)
    ensures target == Select(w, rows, cols)
  {
    var maxCount := 0;
    target := Coordinate(0, 0);
    var row := 0;
    while row < rows
      invariant 0 <= row <= rows
      invariant SelectRows(w, rows, cols, row, Pick(maxCount, target)) == SelectRows(w, rows, cols, 0, Pick(0, Coordinate(0, 0)))
    {
      var rowStart := Pick(maxCount, target);
      var col := 0;
      while col < cols
        invariant 0 <= col <= cols
        invariant SelectCols(w, rows, cols, row, col, Pick(maxCount, target)) == SelectCols(w, rows, cols, row, 0, rowStart)
      {
        if w[row][col] > maxCount {
          maxCount := w[row][col];
          target := Coordinate(row, col);
        }
        col := col + 1;
      }
      row := row + 1;
    }
  }

  /** `makeMove`: build the heat map, then pick the first heaviest cell. */
  method ChooseTarget(board: seq<seq<Outcome>>, inv: Inventory, order: seq<ShipType>, rows: nat, cols: nat)
    returns (target: Coordinate)
    requires ValidBoard(board, rows, cols) && Complete(inv)
    ensures target == MakeMove(board, inv, order, rows, cols)
  {
    var counter := BuildHeatMap(board, inv, order, rows, cols);
    target := PickTarget(counter, rows, cols);
  }
}
