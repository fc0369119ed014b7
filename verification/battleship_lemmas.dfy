/**
 What the Battleship heat map and selector compute, in closed form.

 The loops of `Battleship` are related here to reference definitions: the
 branch table, the weight an origin contributes, the weight of one pass, and
 the row-major first maximum.
 */
module BattleshipLemmas {
  import opened Grid
  import opened Battleship

  // ---------------------------------------------------------------------------
  // Reference definitions
  // ---------------------------------------------------------------------------

  /** The branch table: which remaining counts an origin with horizontal run `h` adds. */
  function BranchTotal(inv: Inventory, h: nat): int
    requires Complete(inv)
  {
    if h == 2 then inv[PatrolBoat]
    else if h == 3 then inv[Destroyer] + inv[Submarine]
    else if h == 4 then inv[Battleship]
    else if h == 5 then inv[AircraftCarrier]
    else 0
  }

  /** Sum of the counts of the types in `ts` whose branch keys on run `h`. */
  function MatchingCount(inv: Inventory, ts: seq<ShipType>, h: nat): int
    requires Complete(inv)
    decreases |ts|
  {
    if |ts| == 0 then 0
    else (if BranchSize(ts[0]) == h then inv[ts[0]] else 0) + MatchingCount(inv, ts[1..], h)
  }

  /** What origin (r, c) adds to each cell it credits in one pass. */
  function OriginWeight(board: seq<seq<Outcome>>, inv: Inventory, rows: nat, cols: nat, r: nat, c: nat): int
    requires ValidBoard(board, rows, cols) && Complete(inv) && r < rows && c < cols
  {
    if Eligible(board[r][c]) then BranchTotal(inv, HorizontalRun(board, rows, cols, r, c)) else 0
  }

  /** Sum of the weights of origins (lo, c) .. (hi - 1, c). */
  function OriginSum(board: seq<seq<Outcome>>, inv: Inventory, rows: nat, cols: nat, lo: nat, hi: nat, c: nat): int
    requires ValidBoard(board, rows, cols) && Complete(inv) && hi <= rows && c < cols
    decreases hi - lo
  {
    if lo < hi then OriginWeight(board, inv, rows, cols, lo, c) + OriginSum(board, inv, rows, cols, lo + 1, hi, c)
    else 0
  }

  /** The weight one pass adds to cell (a, b): origins (r, b) with r <= a credit it,
      and only while a <= b + 1. */
  function PassWeight(board: seq<seq<Outcome>>, inv: Inventory, rows: nat, cols: nat, a: nat, b: nat): int
    requires ValidBoard(board, rows, cols) && Complete(inv) && a < rows && b < cols
  {
    if a <= b + 1 then OriginSum(board, inv, rows, cols, 0, a + 1, b) else 0
  }

  /** Number of entries of `order` whose remaining count is non-zero: the passes run. */
  function ActiveCount(inv: Inventory, order: seq<ShipType>): nat
    requires Complete(inv)
    decreases |order|
  {
    if |order| == 0 then 0
    else (if inv[order[0]] == 0 then 0 else 1) + ActiveCount(inv, order[1..])
  }

  /** The ship types with a non-zero remaining count, the test the outer loop makes
      (`== 0` skips a type); a negative count would also count here. */
  function AfloatTypes(inv: Inventory): set<ShipType> {
    set t | t in inv && inv[t] != 0
  }

  /** The distinct types listed in `order` whose count is non-zero. */
  function AfloatIn(inv: Inventory, order: seq<ShipType>): set<ShipType>
    requires Complete(inv)
  {
    set t | t in order && inv[t] != 0
  }

  /** `order` lists every key of `inv` exactly once, as iterating its key set does. */
  predicate Enumerates(order: seq<ShipType>, inv: Inventory) {
    && (forall i, j :: 0 <= i < j < |order| ==> order[i] != order[j])
    && (forall t :: t in inv <==> t in order)
  }

  predicate NonNegative(inv: Inventory) {
    forall t :: t in inv ==> inv[t] >= 0
  }

  // ---------------------------------------------------------------------------
  // Run scanner
  // ---------------------------------------------------------------------------

  /** A run is determined uniquely by its defining conditions. */
  lemma RunUnique(line: seq<Outcome>, start: nat, n: nat, m: nat)
    requires IsRun(line, start, n) && IsRun(line, start, m)
    ensures n == m
  {
  }

  /** The horizontal run at an eligible cell is the run of row `row` from `col`,
      between 1 and min(5, cols - col). */
  lemma HorizontalRunSpec(board: seq<seq<Outcome>>, rows: nat, cols: nat, row: nat, col: nat)
    requires ValidBoard(board, rows, cols) && row < rows && col < cols
    requires Eligible(board[row][col])
    ensures IsRun(board[row], col, HorizontalRun(board, rows, cols, row, col))
    ensures 1 <= HorizontalRun(board, rows, cols, row, col) <= LargestBoatSize
    ensures HorizontalRun(board, rows, cols, row, col) <= cols - col
  {
  }

  /** The vertical run at an eligible cell is the run of column `col` from `row`,
      between 1 and min(5, rows - row). */
  lemma VerticalRunSpec(board: seq<seq<Outcome>>, rows: nat, cols: nat, row: nat, col: nat)
    requires ValidBoard(board, rows, cols) && row < rows && col < cols
    requires Eligible(board[row][col])
    ensures IsRun(Column(board, rows, cols, col), row, VerticalRun(board, rows, cols, row, col))
    ensures 1 <= VerticalRun(board, rows, cols, row, col) <= LargestBoatSize
    ensures VerticalRun(board, rows, cols, row, col) <= rows - row
    ensures forall k :: row <= k < row + VerticalRun(board, rows, cols, row, col) ==> Eligible(board[k][col])
  {
  }

  // ---------------------------------------------------------------------------
  // Accumulator, one origin at a time
  // ---------------------------------------------------------------------------

  /** The horizontal credit loop adds `n` to cells (a, col) with i <= a <= col + 1, and to nothing else. */
  lemma {:induction false} CreditDownCell(g: seq<seq<int>>, rows: nat, cols: nat, i: nat, col: nat, n: int, a: nat, b: nat)
    requires IsGrid(g, rows, cols) && col < cols && a < rows && b < cols
    ensures CreditDown(g, rows, cols, i, col, n)[a][b]
            == g[a][b] + (if b == col && i <= a <= col + 1 then n else 0)
    decreases rows - i
  {
    if i <= col + 1 && i < rows {
      CreditDownCell(AddAt(g, rows, cols, i, col, n), rows, cols, i + 1, col, n, a, b);
    }
  }

  /** A ship branch adds the type's count to (a, col), row <= a <= col + 1, exactly
      when the horizontal run equals its key; its vertical half changes nothing. */
  lemma ShipBranchCell(g: seq<seq<int>>, rows: nat, cols: nat, row: nat, col: nat,
                       t: ShipType, n: int, h: nat, v: nat, a: nat, b: nat)
    requires IsGrid(g, rows, cols) && row < rows && col < cols && a < rows && b < cols
    ensures ShipBranch(g, rows, cols, row, col, t, n, h, v)[a][b]
            == g[a][b] + (if h == BranchSize(t) && b == col && row <= a <= col + 1 then n else 0)
  {
    CreditDownCell(g, rows, cols, row, col, n, a, b);
  }

  lemma {:induction false} BranchesCell(g: seq<seq<int>>, rows: nat, cols: nat, inv: Inventory, row: nat, col: nat,
                                        ts: seq<ShipType>, h: nat, v: nat, a: nat, b: nat)
    requires IsGrid(g, rows, cols) && row < rows && col < cols && Complete(inv) && a < rows && b < cols
    ensures Branches(g, rows, cols, inv, row, col, ts, h, v)[a][b]
            == g[a][b] + (if b == col && row <= a <= col + 1 then MatchingCount(inv, ts, h) else 0)
    decreases |ts|
  {
    if |ts| > 0 {
      var g1 := ShipBranch(g, rows, cols, row, col, ts[0], inv[ts[0]], h, v);
      ShipBranchCell(g, rows, cols, row, col, ts[0], inv[ts[0]], h, v, a, b);
      BranchesCell(g1, rows, cols, inv, row, col, ts[1..], h, v, a, b);
    }
  }

  /** The five hard-coded branches together add exactly the branch table's total. */
  lemma BranchOrderTable(inv: Inventory, h: nat)
    requires Complete(inv)
    ensures MatchingCount(inv, BranchOrder, h) == BranchTotal(inv, h)
  {
    var ts := BranchOrder;
    assert ts[1..][1..][1..][1..][1..] == [];
  }

  /** An origin credits its own column from its row down to row col + 1 with the
      branch-table total of its horizontal run (nothing when it is ineligible). */
  lemma OriginStepCell(board: seq<seq<Outcome>>, inv: Inventory, g: seq<seq<int>>,
                       rows: nat, cols: nat, row: nat, col: nat, a: nat, b: nat)
    requires ValidBoard(board, rows, cols) && IsGrid(g, rows, cols) && Complete(inv)
    requires row < rows && col < cols && a < rows && b < cols
    ensures OriginStep(board, inv, g, rows, cols, row, col)[a][b]
            == g[a][b] + (if b == col && row <= a <= col + 1 then OriginWeight(board, inv, rows, cols, row, col) else 0)
  {
    if Eligible(board[row][col]) {
      var h := HorizontalRun(board, rows, cols, row, col);
      BranchesCell(g, rows, cols, inv, row, col, BranchOrder, h, VerticalRun(board, rows, cols, row, col), a, b);
      BranchOrderTable(inv, h);
    }
  }

  // ---------------------------------------------------------------------------
  // One pass and the outer loop
  // ---------------------------------------------------------------------------

  lemma {:induction false} PassColsCell(board: seq<seq<Outcome>>, inv: Inventory, g: seq<seq<int>>,
                                        rows: nat, cols: nat, row: nat, col: nat, a: nat, b: nat)
    requires ValidBoard(board, rows, cols) && IsGrid(g, rows, cols) && Complete(inv)
    requires row < rows && a < rows && b < cols
    ensures PassCols(board, inv, g, rows, cols, row, col)[a][b]
            == g[a][b] + (if col <= b && row <= a <= b + 1 then OriginWeight(board, inv, rows, cols, row, b) else 0)
    decreases cols - col
  {
    if col < cols {
      var g1 := OriginStep(board, inv, g, rows, cols, row, col);
      OriginStepCell(board, inv, g, rows, cols, row, col, a, b);
      PassColsCell(board, inv, g1, rows, cols, row, col + 1, a, b);
    }
  }

  lemma {:induction false} PassRowsCell(board: seq<seq<Outcome>>, inv: Inventory, g: seq<seq<int>>,
                                        rows: nat, cols: nat, row: nat, a: nat, b: nat)
    requires ValidBoard(board, rows, cols) && IsGrid(g, rows, cols) && Complete(inv)
    requires a < rows && b < cols
    ensures PassRows(board, inv, g, rows, cols, row)[a][b]
            == g[a][b] + (if a <= b + 1 then OriginSum(board, inv, rows, cols, row, a + 1, b) else 0)
    decreases rows - row
  {
    if row < rows {
      var g1 := PassCols(board, inv, g, rows, cols, row, 0);
      PassColsCell(board, inv, g, rows, cols, row, 0, a, b);
      PassRowsCell(board, inv, g1, rows, cols, row + 1, a, b);
      if row > a {
        assert OriginSum(board, inv, rows, cols, row + 1, a + 1, b) == 0;
      }
    }
  }

  /** One pass adds `PassWeight` to every cell. */
  lemma PassCell(board: seq<seq<Outcome>>, inv: Inventory, g: seq<seq<int>>, rows: nat, cols: nat, a: nat, b: nat)
    requires ValidBoard(board, rows, cols) && IsGrid(g, rows, cols) && Complete(inv)
    requires a < rows && b < cols
    ensures Pass(board, inv, g, rows, cols)[a][b] == g[a][b] + PassWeight(board, inv, rows, cols, a, b)
  {
    PassRowsCell(board, inv, g, rows, cols, 0, a, b);
  }

  /** The outer loop adds `PassWeight` once per ship type with a non-zero count,
      because the board does not change between passes. */
  lemma {:induction false} AccumulateCell(board: seq<seq<Outcome>>, inv: Inventory, order: seq<ShipType>,
                                          g: seq<seq<int>>, rows: nat, cols: nat, a: nat, b: nat)
    requires ValidBoard(board, rows, cols) && IsGrid(g, rows, cols) && Complete(inv)
    requires a < rows && b < cols
    ensures Accumulate(board, inv, order, g, rows, cols)[a][b]
            == g[a][b] + ActiveCount(inv, order) * PassWeight(board, inv, rows, cols, a, b)
    decreases |order|
  {
    if |order| > 0 {
      var w := PassWeight(board, inv, rows, cols, a, b);
      if inv[order[0]] == 0 {
        AccumulateCell(board, inv, order[1..], g, rows, cols, a, b);
      } else {
        var g1 := Pass(board, inv, g, rows, cols);
        PassCell(board, inv, g, rows, cols, a, b);
        AccumulateCell(board, inv, order[1..], g1, rows, cols, a, b);
        assert ActiveCount(inv, order) * w == w + ActiveCount(inv, order[1..]) * w;
      }
    }
  }

  /** Counting the non-zero entries of an enumeration counts the ship types afloat. */
  lemma {:induction false} ActiveCountIsAfloat(inv: Inventory, order: seq<ShipType>)
    requires Complete(inv)
    requires forall i, j :: 0 <= i < j < |order| ==> order[i] != order[j]
    ensures ActiveCount(inv, order) == |AfloatIn(inv, order)|
    decreases |order|
  {
    if |order| > 0 {
      var rest := order[1..];
      ActiveCountIsAfloat(inv, rest);
      var s := AfloatIn(inv, rest);
      assert order[0] !in rest by {
        forall k | 0 <= k < |rest| ensures rest[k] != order[0] {
          assert rest[k] == order[k + 1];
        }
      }
      if inv[order[0]] == 0 {
        assert AfloatIn(inv, order) == s;
      } else {
        assert AfloatIn(inv, order) == s + {order[0]};
      }
    }
  }

  /** The final weight of every cell is k times what one pass from zero gives it,
      where k is the number of ship types afloat. */
  lemma HeatMapIsScaledPass(board: seq<seq<Outcome>>, inv: Inventory, order: seq<ShipType>,
                            rows: nat, cols: nat, a: nat, b: nat)
    requires ValidBoard(board, rows, cols) && Complete(inv) && Enumerates(order, inv)
    requires a < rows && b < cols
    ensures HeatMap(board, inv, order, rows, cols)[a][b]
            == |AfloatTypes(inv)| * Pass(board, inv, Zero(rows, cols), rows, cols)[a][b]
    ensures Pass(board, inv, Zero(rows, cols), rows, cols)[a][b] == PassWeight(board, inv, rows, cols, a, b)
  {
    AccumulateCell(board, inv, order, Zero(rows, cols), rows, cols, a, b);
    PassCell(board, inv, Zero(rows, cols), rows, cols, a, b);
    ActiveCountIsAfloat(inv, order);
    assert AfloatIn(inv, order) == AfloatTypes(inv);
  }

  /** The order in which the inventory yields its ship types does not matter. */
  lemma HeatMapOrderIndependent(board: seq<seq<Outcome>>, inv: Inventory, order1: seq<ShipType>, order2: seq<ShipType>,
                                rows: nat, cols: nat)
    requires ValidBoard(board, rows, cols) && Complete(inv)
    requires Enumerates(order1, inv) && Enumerates(order2, inv)
    ensures HeatMap(board, inv, order1, rows, cols) == HeatMap(board, inv, order2, rows, cols)
  {
    var w1 := HeatMap(board, inv, order1, rows, cols);
    var w2 := HeatMap(board, inv, order2, rows, cols);
    forall a | 0 <= a < rows ensures w1[a] == w2[a] {
      forall b | 0 <= b < cols ensures w1[a][b] == w2[a][b] {
        HeatMapIsScaledPass(board, inv, order1, rows, cols, a, b);
        HeatMapIsScaledPass(board, inv, order2, rows, cols, a, b);
      }
    }
  }

  /** Only cells with a <= b + 1 can receive weight. */
  lemma HeatMapBelowSubdiagonalZero(board: seq<seq<Outcome>>, inv: Inventory, order: seq<ShipType>,
                                    rows: nat, cols: nat, a: nat, b: nat)
    requires ValidBoard(board, rows, cols) && Complete(inv)
    requires a < rows && b < cols && a > b + 1
    ensures HeatMap(board, inv, order, rows, cols)[a][b] == 0
  {
    AccumulateCell(board, inv, order, Zero(rows, cols), rows, cols, a, b);
  }

  lemma {:induction false} ActiveCountZero(inv: Inventory, order: seq<ShipType>)
    requires Complete(inv)
    requires forall t :: t in inv ==> inv[t] == 0
    ensures ActiveCount(inv, order) == 0
    decreases |order|
  {
    if |order| > 0 {
      ActiveCountZero(inv, order[1..]);
    }
  }

  /** With every count zero, no pass runs and every weight stays zero. */
  lemma HeatMapZeroInventory(board: seq<seq<Outcome>>, inv: Inventory, order: seq<ShipType>,
                             rows: nat, cols: nat, a: nat, b: nat)
    requires ValidBoard(board, rows, cols) && Complete(inv)
    requires forall t :: t in inv ==> inv[t] == 0
    requires a < rows && b < cols
    ensures HeatMap(board, inv, order, rows, cols)[a][b] == 0
  {
    AccumulateCell(board, inv, order, Zero(rows, cols), rows, cols, a, b);
    ActiveCountZero(inv, order);
  }

  lemma {:induction false} OriginSumNonNegative(board: seq<seq<Outcome>>, inv: Inventory, rows: nat, cols: nat,
                                                lo: nat, hi: nat, c: nat)
    requires ValidBoard(board, rows, cols) && Complete(inv) && NonNegative(inv) && hi <= rows && c < cols
    ensures OriginSum(board, inv, rows, cols, lo, hi, c) >= 0
    decreases hi - lo
  {
    if lo < hi {
      OriginSumNonNegative(board, inv, rows, cols, lo + 1, hi, c);
    }
  }

  /** With non-negative counts a pass never lowers a weight, so the outer loop
      only increases weights and the heat map is non-negative. */
  lemma AccumulateMonotone(board: seq<seq<Outcome>>, inv: Inventory, order: seq<ShipType>,
                           g: seq<seq<int>>, rows: nat, cols: nat, a: nat, b: nat)
    requires ValidBoard(board, rows, cols) && IsGrid(g, rows, cols) && Complete(inv) && NonNegative(inv)
    requires a < rows && b < cols
    ensures Pass(board, inv, g, rows, cols)[a][b] >= g[a][b]
    ensures Accumulate(board, inv, order, g, rows, cols)[a][b] >= g[a][b]
    ensures HeatMap(board, inv, order, rows, cols)[a][b] >= 0
  {
    OriginSumNonNegative(board, inv, rows, cols, 0, a + 1, b);
    PassCell(board, inv, g, rows, cols, a, b);
    AccumulateCell(board, inv, order, g, rows, cols, a, b);
    AccumulateCell(board, inv, order, Zero(rows, cols), rows, cols, a, b);
  }

  // ---------------------------------------------------------------------------
  // Selector
  // ---------------------------------------------------------------------------

  /** Cell (a, b) comes before (row, col) in row-major order. */
  predicate Before(a: int, b: int, row: int, col: int) {
    a < row || (a == row && b < col)
  }

  predicate InBounds(c: Coordinate, rows: nat, cols: nat) {
    0 <= c.row < rows && 0 <= c.col < cols
  }

  /** `c` holds the largest weight of `w`, every earlier cell holds less, and that weight is positive. */
  predicate IsFirstMax(w: seq<seq<int>>, rows: nat, cols: nat, c: Coordinate)
    requires IsGrid(w, rows, cols)
  {
    && InBounds(c, rows, cols)
    && w[c.row][c.col] > 0
    && (forall a, b :: 0 <= a < rows && 0 <= b < cols ==> w[a][b] <= w[c.row][c.col])
    && (forall a, b :: 0 <= a < rows && 0 <= b < cols && Before(a, b, c.row, c.col) ==> w[a][b] < w[c.row][c.col])
  }

  /** The scan state after every cell before (row, col) has been compared. */
  predicate Scanned(w: seq<seq<int>>, rows: nat, cols: nat, row: nat, col: nat, p: Pick)
    requires IsGrid(w, rows, cols)
  {
    && p.best >= 0
    && (forall a, b :: 0 <= a < rows && 0 <= b < cols && Before(a, b, row, col) ==> w[a][b] <= p.best)
    && (p.best == 0 ==> p.at == Coordinate(0, 0))
    && (p.best > 0 ==>
          && InBounds(p.at, rows, cols)
          && Before(p.at.row, p.at.col, row, col)
          && w[p.at.row][p.at.col] == p.best
          && forall a, b :: 0 <= a < rows && 0 <= b < cols && Before(a, b, p.at.row, p.at.col) ==> w[a][b] < p.best)
  }

  lemma {:induction false} SelectColsScans(w: seq<seq<int>>, rows: nat, cols: nat, row: nat, col: nat, p: Pick)
    requires IsGrid(w, rows, cols) && row < rows && col <= cols
    requires Scanned(w, rows, cols, row, col, p)
    ensures Scanned(w, rows, cols, row + 1, 0, SelectCols(w, rows, cols, row, col, p))
    decreases cols - col
  {
    if col < cols {
      var p1 := if w[row][col] > p.best then Pick(w[row][col], Coordinate(row, col)) else p;
      assert Scanned(w, rows, cols, row, col + 1, p1);
      SelectColsScans(w, rows, cols, row, col + 1, p1);
    }
  }

  lemma {:induction false} SelectRowsScans(w: seq<seq<int>>, rows: nat, cols: nat, row: nat, p: Pick)
    requires IsGrid(w, rows, cols) && row <= rows
    requires Scanned(w, rows, cols, row, 0, p)
    ensures Scanned(w, rows, cols, rows, 0, SelectRows(w, rows, cols, row, p))
    decreases rows - row
  {
    if row < rows {
      SelectColsScans(w, rows, cols, row, 0, p);
      SelectRowsScans(w, rows, cols, row + 1, SelectCols(w, rows, cols, row, 0, p));
    }
  }

  /** The selector returns the first cell in row-major order holding the maximum
      when some weight is positive, and (0, 0) otherwise; either way in bounds on
      a non-empty grid. */
  lemma SelectSpec(w: seq<seq<int>>, rows: nat, cols: nat)
    requires IsGrid(w, rows, cols)
    ensures (exists a, b :: 0 <= a < rows && 0 <= b < cols && w[a][b] > 0) ==> IsFirstMax(w, rows, cols, Select(w, rows, cols))
    ensures (forall a, b :: 0 <= a < rows && 0 <= b < cols ==> w[a][b] <= 0) ==> Select(w, rows, cols) == Coordinate(0, 0)
    ensures rows >= 1 && cols >= 1 ==> InBounds(Select(w, rows, cols), rows, cols)
  {
    SelectRowsScans(w, rows, cols, 0, Pick(0, Coordinate(0, 0)));
  }

  /** The first maximum is unique: at most one cell satisfies `IsFirstMax`. */
  lemma FirstMaxUnique(w: seq<seq<int>>, rows: nat, cols: nat, c1: Coordinate, c2: Coordinate)
    requires IsGrid(w, rows, cols) && IsFirstMax(w, rows, cols, c1) && IsFirstMax(w, rows, cols, c2)
    ensures c1 == c2
  {
  }

  // ---------------------------------------------------------------------------
  // The whole move
  // ---------------------------------------------------------------------------

  /** `makeMove` attacks the first cell of greatest heat when some heat is positive,
      and (0, 0) otherwise, which is always the case when every count is zero. */
  lemma MakeMoveSpec(board: seq<seq<Outcome>>, inv: Inventory, order: seq<ShipType>, rows: nat, cols: nat)
    requires ValidBoard(board, rows, cols) && Complete(inv)
    ensures var w := HeatMap(board, inv, order, rows, cols);
            (exists a, b :: 0 <= a < rows && 0 <= b < cols && w[a][b] > 0) ==>
              IsFirstMax(w, rows, cols, MakeMove(board, inv, order, rows, cols))
    ensures var w := HeatMap(board, inv, order, rows, cols);
            (forall a, b :: 0 <= a < rows && 0 <= b < cols ==> w[a][b] <= 0) ==>
              MakeMove(board, inv, order, rows, cols) == Coordinate(0, 0)
    ensures (forall t :: t in inv ==> inv[t] == 0) ==> MakeMove(board, inv, order, rows, cols) == Coordinate(0, 0)
    ensures rows >= 1 && cols >= 1 ==> InBounds(MakeMove(board, inv, order, rows, cols), rows, cols)
  {
    var w := HeatMap(board, inv, order, rows, cols);
    SelectSpec(w, rows, cols);
    if forall t :: t in inv ==> inv[t] == 0 {
      forall a, b | 0 <= a < rows && 0 <= b < cols ensures w[a][b] <= 0 {
        HeatMapZeroInventory(board, inv, order, rows, cols, a, b);
      }
    }
  }

  /** The fallback does not look at the board: on a 1x1 board whose only cell is a
      miss, the agent still attacks (0, 0). */
  lemma FallbackIgnoresEligibility(inv: Inventory, order: seq<ShipType>)
    requires Complete(inv)
    ensures MakeMove([[Miss]], inv, order, 1, 1) == Coordinate(0, 0)
    ensures !Eligible([[Miss]][0][0])
  {
    var board := [[Miss]];
    var w := HeatMap(board, inv, order, 1, 1);
    AccumulateCell(board, inv, order, Zero(1, 1), 1, 1, 0, 0);
    assert PassWeight(board, inv, 1, 1, 0, 0) == 0;
    SelectSpec(w, 1, 1);
  }

  // ---------------------------------------------------------------------------
  // A worked board
  // ---------------------------------------------------------------------------

  /** On a line of eligible cells the run reaches the cap or the edge. */
  lemma OpenRunLength(line: seq<Outcome>, start: nat)
    requires start <= |line|
    requires forall k :: 0 <= k < |line| ==> Eligible(line[k])
    ensures RunLength(line, start) == if |line| - start < LargestBoatSize then |line| - start else LargestBoatSize
  {
    var n := if |line| - start < LargestBoatSize then |line| - start else LargestBoatSize;
    RunUnique(line, start, n, RunLength(line, start));
  }

  lemma {:induction false} OriginSumConstant(board: seq<seq<Outcome>>, inv: Inventory, rows: nat, cols: nat,
                                             lo: nat, hi: nat, c: nat, v: int)
    requires ValidBoard(board, rows, cols) && Complete(inv) && lo <= hi <= rows && c < cols
    requires forall r :: lo <= r < hi ==> OriginWeight(board, inv, rows, cols, r, c) == v
    ensures OriginSum(board, inv, rows, cols, lo, hi, c) == (hi - lo) * v
    decreases hi - lo
  {
    if lo < hi {
      OriginSumConstant(board, inv, rows, cols, lo + 1, hi, c, v);
    }
  }

  /** An n x n board with no miss or sunk cell. */
  predicate OpenBoard(board: seq<seq<Outcome>>, n: nat) {
    ValidBoard(board, n, n) && forall r, c :: 0 <= r < n && 0 <= c < n ==> Eligible(board[r][c])
  }

  /** One patrol boat is the only ship left. */
  predicate PatrolOnly(inv: Inventory) {
    && Complete(inv)
    && inv[PatrolBoat] == 1
    && inv[Destroyer] == 0 && inv[Submarine] == 0 && inv[Battleship] == 0 && inv[AircraftCarrier] == 0
  }

  lemma PatrolOnlyAfloat(inv: Inventory)
    requires PatrolOnly(inv)
    ensures |AfloatTypes(inv)| == 1
  {
    forall t: ShipType ensures t in AfloatTypes(inv) <==> t == PatrolBoat {
    }
    assert AfloatTypes(inv) == {PatrolBoat};
  }

  // The worked-board lemmas take the side length as a parameter `n` pinned by
  // `requires n == 4`: with a literal 4 the solver unfolds the recursive scans too far.

  lemma OpenBoardOriginWeight(board: seq<seq<Outcome>>, n: nat, inv: Inventory, r: nat, c: nat)
    requires n == 4 && OpenBoard(board, n) && PatrolOnly(inv) && r < n && c < n
    ensures OriginWeight(board, inv, n, n, r, c) == if c == 2 then 1 else 0
  {
    OpenRunLength(board[r], c);
  }

  lemma OpenBoardPassWeight(board: seq<seq<Outcome>>, n: nat, inv: Inventory, a: nat, b: nat)
    requires n == 4 && OpenBoard(board, n) && PatrolOnly(inv) && a < n && b < n
    ensures PassWeight(board, inv, n, n, a, b) == if b == 2 then a + 1 else 0
  {
    var v := if b == 2 then 1 else 0;
    forall r | 0 <= r < n ensures OriginWeight(board, inv, n, n, r, b) == v {
      OpenBoardOriginWeight(board, n, inv, r, b);
    }
    OriginSumConstant(board, inv, n, n, 0, a + 1, b, v);
  }

  lemma OpenBoardCell(board: seq<seq<Outcome>>, n: nat, inv: Inventory, order: seq<ShipType>, a: nat, b: nat)
    requires n == 4 && OpenBoard(board, n) && PatrolOnly(inv) && Enumerates(order, inv)
    requires a < n && b < n
    ensures HeatMap(board, inv, order, n, n)[a][b] == if b == 2 then a + 1 else 0
  {
    PatrolOnlyAfloat(inv);
    HeatMapIsScaledPass(board, inv, order, n, n, a, b);
    OpenBoardPassWeight(board, n, inv, a, b);
  }

  /** A 4x4 grid holding a + 1 at (a, 2) and 0 elsewhere has its first maximum at (3, 2). */
  lemma ColumnTwoRampSelect(w: seq<seq<int>>, n: nat)
    requires n == 4 && IsGrid(w, n, n)
    requires forall a, b :: 0 <= a < n && 0 <= b < n ==> w[a][b] == if b == 2 then a + 1 else 0
    ensures Select(w, n, n) == Coordinate(3, 2)
  {
    assert IsFirstMax(w, n, n, Coordinate(3, 2));
    SelectSpec(w, n, n);
    FirstMaxUnique(w, n, n, Select(w, n, n), Coordinate(3, 2));
  }

  /** On a 4x4 board with no miss or sunk cell and one patrol boat the only ship
      left, every origin has horizontal run 4 - col, so only column 2 gets weight:
      cell (a, 2) gets a + 1. The agent therefore attacks (3, 2). */
  lemma OpenBoardPatrolOnly(board: seq<seq<Outcome>>, n: nat, inv: Inventory, order: seq<ShipType>)
    requires n == 4 && OpenBoard(board, n) && PatrolOnly(inv) && Enumerates(order, inv)
    ensures forall a, b :: 0 <= a < n && 0 <= b < n ==>
              HeatMap(board, inv, order, n, n)[a][b] == if b == 2 then a + 1 else 0
    ensures MakeMove(board, inv, order, n, n) == Coordinate(3, 2)
  {
    var w := HeatMap(board, inv, order, n, n);
    forall a, b | 0 <= a < n && 0 <= b < n ensures w[a][b] == if b == 2 then a + 1 else 0 {
      OpenBoardCell(board, n, inv, order, a, b);
    }
    ColumnTwoRampSelect(w, n);
  }
}
