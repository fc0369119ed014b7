/**
 Heat-map targeting of the probabilistic Battleship agent (`ProbabilisticAgent.makeMove`).

 Each definition below follows one loop or branch of the agent, quirks included:
 the horizontal branch credits a column span bounded by `col + 1`, the vertical
 branches iterate over an empty range, and the whole scan is repeated once per
 ship type whose remaining count is non-zero.
 */
module Battleship {
  import opened Grid

  /** What the enemy board says about a cell. */
  datatype Outcome = Unknown | Hit | Miss | Sunk

  /** The five ship types of the game. */
  datatype ShipType = PatrolBoat | Destroyer | Submarine | Battleship | AircraftCarrier

  datatype Coordinate = Coordinate(row: int, col: int)

  /** Remaining number of ships of each type. */
  type Inventory = map<ShipType, int>

  /** Cap on every run the agent measures. */
  const LargestBoatSize: nat := 5

  /** A cell still counts toward a run iff it is unknown or a hit. */
  predicate Eligible(o: Outcome) {
    o == Unknown || o == Hit
  }

  /** Every ship type has an entry, so no lookup unboxes a missing value. */
  predicate Complete(inv: Inventory) {
    forall t: ShipType :: t in inv
  }

  predicate ValidBoard(board: seq<seq<Outcome>>, rows: nat, cols: nat) {
    IsGrid(board, rows, cols)
  }

  // ---------------------------------------------------------------------------
  // Run scanner
  // ---------------------------------------------------------------------------

  /** `n` is the run of eligible cells of `line` starting at `start`: all of them
      eligible, at most the cap, and ended by the cap, the edge or an ineligible cell. */
  predicate IsRun(line: seq<Outcome>, start: nat, n: nat) {
    && n <= LargestBoatSize
    && start + n <= |line|
    && (forall k :: start <= k < start + n ==> Eligible(line[k]))
    && (n == LargestBoatSize || start + n == |line| || !Eligible(line[start + n]))
  }

  /** The scanning loop, at index `i` with `count` cells counted so far. */
  function Scan(line: seq<Outcome>, i: nat, count: nat): (r: nat)
    requires i <= |line| && count <= i && count <= LargestBoatSize
    requires forall k :: i - count <= k < i ==> Eligible(line[k])
    ensures IsRun(line, i - count, r)
    decreases |line| - i
  {
    if i == |line| then count
    else if count == LargestBoatSize then count
    else if Eligible(line[i]) then Scan(line, i + 1, count + 1)
    else count
  }

  /** Length of the capped run of eligible cells of `line` from `start` onward. */
  function RunLength(line: seq<Outcome>, start: nat): (r: nat)
    requires start <= |line|
    ensures IsRun(line, start, r)
    ensures start < |line| && Eligible(line[start]) ==>
              1 <= r <= LargestBoatSize && r <= |line| - start
  {
    Scan(line, start, 0)
  }

  /** Column `c` of the board, read top to bottom. */
  function Column(board: seq<seq<Outcome>>, rows: nat, cols: nat, c: nat): (line: seq<Outcome>)
    requires ValidBoard(board, rows, cols) && c < cols
    ensures |line| == rows
    ensures forall k :: 0 <= k < rows ==> line[k] == board[k][c]
  {
    seq(rows, k requires 0 <= k < rows => board[k][c])
  }

  /** `hori_combo`: the run going rightward from (row, col). */
  function HorizontalRun(board: seq<seq<Outcome>>, rows: nat, cols: nat, row: nat, col: nat): nat
    requires ValidBoard(board, rows, cols) && row < rows && col < cols
  {
    RunLength(board[row], col)
  }

  /** `vert_combo`: the run going downward from (row, col). */
  function VerticalRun(board: seq<seq<Outcome>>, rows: nat, cols: nat, row: nat, col: nat): nat
    requires ValidBoard(board, rows, cols) && row < rows && col < cols
  {
    RunLength(Column(board, rows, cols, col), row)
  }

  // ---------------------------------------------------------------------------
  // Placement-weight accumulator
  // ---------------------------------------------------------------------------

  /** The run length each hard-coded ship branch keys on. */
  function BranchSize(t: ShipType): nat {
    match t
    case PatrolBoat => 2
    case AircraftCarrier => 5
    case Battleship => 4
    case Destroyer => 3
    case Submarine => 3
  }

  /** The ship branches in the order the agent runs them. */
  const BranchOrder: seq<ShipType> := [PatrolBoat, AircraftCarrier, Battleship, Destroyer, Submarine]

  /** Horizontal credit loop: from row `i` downward, while `i <= col + 1` and
      `i < rows`, add `n` to cell (i, col). */
  function CreditDown(g: seq<seq<int>>, rows: nat, cols: nat, i: nat, col: nat, n: int): (r: seq<seq<int>>)
    requires IsGrid(g, rows, cols) && col < cols
    ensures IsGrid(r, rows, cols)
    decreases rows - i
  {
    if i <= col + 1 && i < rows then CreditDown(AddAt(g, rows, cols, i, col, n), rows, cols, i + 1, col, n)
    else g
  }

  /** Vertical credit loop: from column `i` rightward, while `i <= col + 1` and
      `i < col`, add `n` to cell (row, i). The agent starts it at `i = col`. */
  function CreditAcross(g: seq<seq<int>>, rows: nat, cols: nat, row: nat, i: nat, col: nat, n: int): (r: seq<seq<int>>)
    requires IsGrid(g, rows, cols) && row < rows && col < cols
    ensures IsGrid(r, rows, cols)
    ensures i >= col ==> r == g
    decreases col - i
  {
    if i <= col + 1 && i < col then CreditAcross(AddAt(g, rows, cols, row, i, n), rows, cols, row, i + 1, col, n)
    else g
  }

  /** One ship branch at origin (row, col): the horizontal test on the exact run,
      then the vertical test on `vert_combo >= size`, both adding the type's count. */
  function ShipBranch(g: seq<seq<int>>, rows: nat, cols: nat, row: nat, col: nat,
                      t: ShipType, n: int, h: nat, v: nat): (r: seq<seq<int>>)
    requires IsGrid(g, rows, cols) && row < rows && col < cols
    ensures IsGrid(r, rows, cols)
  {
    var g1 := if h == BranchSize(t) then CreditDown(g, rows, cols, row, col, n) else g;
    if v >= BranchSize(t) then CreditAcross(g1, rows, cols, row, col, col, n) else g1
  }

  /** Runs the ship branches `ts` in order at origin (row, col). */
  function Branches(g: seq<seq<int>>, rows: nat, cols: nat, inv: Inventory, row: nat, col: nat,
                    ts: seq<ShipType>, h: nat, v: nat): (r: seq<seq<int>>)
    requires IsGrid(g, rows, cols) && row < rows && col < cols && Complete(inv)
    ensures IsGrid(r, rows, cols)
    decreases |ts|
  {
    if |ts| == 0 then g
    else Branches(ShipBranch(g, rows, cols, row, col, ts[0], inv[ts[0]], h, v), rows, cols, inv, row, col, ts[1..], h, v)
  }

  /** The body of the cell loop at origin (row, col). */
  function OriginStep(board: seq<seq<Outcome>>, inv: Inventory, g: seq<seq<int>>,
                      rows: nat, cols: nat, row: nat, col: nat): (r: seq<seq<int>>)
    requires ValidBoard(board, rows, cols) && IsGrid(g, rows, cols) && Complete(inv)
    requires row < rows && col < cols
    ensures IsGrid(r, rows, cols)
  {
    if Eligible(board[row][col]) then
      Branches(g, rows, cols, inv, row, col, BranchOrder,
               HorizontalRun(board, rows, cols, row, col), VerticalRun(board, rows, cols, row, col))
    else g
  }

  /** The column loop of one pass, over origins (row, col), (row, col + 1), ... */
  function PassCols(board: seq<seq<Outcome>>, inv: Inventory, g: seq<seq<int>>,
                    rows: nat, cols: nat, row: nat, col: nat): (r: seq<seq<int>>)
    requires ValidBoard(board, rows, cols) && IsGrid(g, rows, cols) && Complete(inv) && row < rows
    ensures IsGrid(r, rows, cols)
    decreases cols - col
  {
    if col < cols then PassCols(board, inv, OriginStep(board, inv, g, rows, cols, row, col), rows, cols, row, col + 1)
    else g
  }

  /** The row loop of one pass, over rows row, row + 1, ... */
  function PassRows(board: seq<seq<Outcome>>, inv: Inventory, g: seq<seq<int>>,
                    rows: nat, cols: nat, row: nat): (r: seq<seq<int>>)
    requires ValidBoard(board, rows, cols) && IsGrid(g, rows, cols) && Complete(inv)
    ensures IsGrid(r, rows, cols)
    decreases rows - row
  {
    if row < rows then PassRows(board, inv, PassCols(board, inv, g, rows, cols, row, 0), rows, cols, row + 1)
    else g
  }

  /** One full scan of the board, adding into `g`. */
  function Pass(board: seq<seq<Outcome>>, inv: Inventory, g: seq<seq<int>>, rows: nat, cols: nat): (r: seq<seq<int>>)
    requires ValidBoard(board, rows, cols) && IsGrid(g, rows, cols) && Complete(inv)
    ensures IsGrid(r, rows, cols)
  {
    PassRows(board, inv, g, rows, cols, 0)
  }

  /** The outer loop over the inventory's ship types, in the order `order`
      the map yields them; a type with count 0 is skipped. */
  function Accumulate(board: seq<seq<Outcome>>, inv: Inventory, order: seq<ShipType>,
                      g: seq<seq<int>>, rows: nat, cols: nat): (r: seq<seq<int>>)
    requires ValidBoard(board, rows, cols) && IsGrid(g, rows, cols) && Complete(inv)
    ensures IsGrid(r, rows, cols)
    decreases |order|
  {
    if |order| == 0 then g
    else if inv[order[0]] == 0 then Accumulate(board, inv, order[1..], g, rows, cols)
    else Accumulate(board, inv, order[1..], Pass(board, inv, g, rows, cols), rows, cols)
  }

  /** `coord_counter` after the outer loop, starting from all zeros. */
  function HeatMap(board: seq<seq<Outcome>>, inv: Inventory, order: seq<ShipType>,
                   rows: nat, cols: nat): (w: seq<seq<int>>)
    requires ValidBoard(board, rows, cols) && Complete(inv)
    ensures IsGrid(w, rows, cols)
  {
    Accumulate(board, inv, order, Zero(rows, cols), rows, cols)
  }

  // ---------------------------------------------------------------------------
  // Selector
  // ---------------------------------------------------------------------------

  /** The running maximum and its coordinate. */
  datatype Pick = Pick(best: int, at: Coordinate)

  /** The selector's inner loop over columns col, col + 1, ... of `row`. */
  function SelectCols(w: seq<seq<int>>, rows: nat, cols: nat, row: nat, col: nat, p: Pick): Pick
    requires IsGrid(w, rows, cols) && row < rows
    decreases cols - col
  {
    if col < cols then
      SelectCols(w, rows, cols, row, col + 1,
                 if w[row][col] > p.best then Pick(w[row][col], Coordinate(row, col)) else p)
    else p
  }

  /** The selector's outer loop over rows row, row + 1, ... */
  function SelectRows(w: seq<seq<int>>, rows: nat, cols: nat, row: nat, p: Pick): Pick
    requires IsGrid(w, rows, cols)
    decreases rows - row
  {
    if row < rows then SelectRows(w, rows, cols, row + 1, SelectCols(w, rows, cols, row, 0, p))
    else p
  }

  /** Row-major strict-maximum scan starting from maximum 0 at (0, 0). */
  function Select(w: seq<seq<int>>, rows: nat, cols: nat): Coordinate
    requires IsGrid(w, rows, cols)
  {
    SelectRows(w, rows, cols, 0, Pick(0, Coordinate(0, 0))).at
  }

  /** `makeMove`: the coordinate the agent attacks. */
  function MakeMove(board: seq<seq<Outcome>>, inv: Inventory, order: seq<ShipType>,
                    rows: nat, cols: nat): Coordinate
    requires ValidBoard(board, rows, cols) && Complete(inv)
  {
    Select(HeatMap(board, inv, order, rows, cols), rows, cols)
  }
}
