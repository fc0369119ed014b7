/** Relationships between the Tetris board features. */
module TetrisLemmas {
  import opened TetrisFeatures

  /** A row is below an occupied cell exactly when it lies below the column's top block. */
  lemma CoveredBelowTop(column: seq<bool>, k: nat)
    requires k <= |column|
    ensures Covered(column, k) <==> FirstOccupied(column, 0) < k
  {
    var t := FirstOccupied(column, 0);
    if t < k {
      assert column[t];
    }
  }

  /** Over the first k rows, holes plus occupied cells are the rows from the top block down. */
  lemma {:induction false} HolesPlusOccupiedUpTo(column: seq<bool>, k: nat)
    requires k <= |column|
    ensures var t := FirstOccupied(column, 0);
            HolesUpTo(column, k) + OccupiedUpTo(column, k) == if t < k then k - t else 0
  {
    if k > 0 {
      HolesPlusOccupiedUpTo(column, k - 1);
      CoveredBelowTop(column, k - 1);
    }
  }

  /** In each column, holes plus occupied cells equal the column height. */
  lemma ColumnHolesPlusOccupied(column: seq<bool>)
    ensures Holes(column) + Occupied(column) == Height(column)
  {
    HolesPlusOccupiedUpTo(column, |column|);
  }

  /** Over the board, total holes plus total occupied cells equal the total height. */
  lemma {:induction false} BoardHolesPlusOccupied(b: seq<seq<bool>>)
    ensures TotalHoles(b) + TotalOccupied(b) == TotalHeight(b)
  {
    if |b| > 0 {
      BoardHolesPlusOccupied(b[..|b| - 1]);
      ColumnHolesPlusOccupied(b[|b| - 1]);
    }
  }

  /** A sum of per-column values that are all zero is zero. */
  lemma {:induction false} SumColumnsZero(b: seq<seq<bool>>, f: seq<bool> -> nat)
    requires forall c :: 0 <= c < |b| ==> f(b[c]) == 0
    ensures SumColumns(b, f) == 0
  {
    if |b| > 0 {
      SumColumnsZero(b[..|b| - 1], f);
    }
  }

  /** Bumpiness is zero exactly when every column has the height of the first. */
  lemma {:induction false} BumpinessZeroIff(b: seq<seq<bool>>)
    requires |b| >= 1
    ensures Bumpiness(b) == 0 <==> forall c :: 0 <= c < |b| ==> Height(b[c]) == Height(b[0])
  {
    if |b| > 1 {
      var p := b[..|b| - 1];
      BumpinessZeroIff(p);
      assert p[0] == b[0];
      assert forall c :: 0 <= c < |p| ==> p[c] == b[c];
    }
  }

  /** On a board with no occupied cell: no holes, heights 0, bumpiness 0, and the
      minimum height reports `numRows`. */
  lemma EmptyBoard(b: seq<seq<bool>>, numRows: nat)
    requires Columns(b, numRows)
    requires forall c, r :: 0 <= c < |b| && 0 <= r < numRows ==> !b[c][r]
    ensures TotalHoles(b) == 0
    ensures TotalHeight(b) == 0
    ensures MaxHeight(b) == 0
    ensures MinHeight(b, numRows) == numRows
    ensures |b| >= 1 ==> Bumpiness(b) == 0
  {
    forall c | 0 <= c < |b| ensures Height(b[c]) == 0 && Holes(b[c]) == 0 {
      ColumnHolesPlusOccupied(b[c]);
    }
    SumColumnsZero(b, Height);
    SumColumnsZero(b, Holes);
    if |b| >= 1 {
      BumpinessZeroIff(b);
    }
  }

  /** Once any cell is occupied, the minimum height is at most the maximum height. */
  lemma MinAtMostMax(b: seq<seq<bool>>, numRows: nat, c: nat, r: nat)
    requires Columns(b, numRows)
    requires c < |b| && r < numRows && b[c][r]
    ensures MinHeight(b, numRows) <= MaxHeight(b)
  {
    assert Height(b[c]) > 0;
  }

  /** No column is taller than `NUM_ROWS`. */
  lemma MaxHeightBound(b: seq<seq<bool>>, numRows: nat)
    requires Columns(b, numRows)
    ensures MaxHeight(b) <= numRows
  {
  }

  /** The tallest column is at most the total height. */
  lemma {:induction false} MaxAtMostTotal(b: seq<seq<bool>>)
    ensures MaxHeight(b) <= TotalHeight(b)
  {
    if |b| > 0 {
      var p := b[..|b| - 1];
      MaxAtMostTotal(p);
      assert TotalHeight(b) == TotalHeight(p) + Height(b[|b| - 1]);
    }
  }

  /** The total height is at most `NUM_COLS * NUM_ROWS`. */
  lemma {:induction false} TotalHeightBound(b: seq<seq<bool>>, numRows: nat)
    requires Columns(b, numRows)
    ensures TotalHeight(b) <= |b| * numRows
  {
    if |b| > 0 {
      var p := b[..|b| - 1];
      assert Columns(p, numRows);
      TotalHeightBound(p, numRows);
      assert TotalHeight(b) == TotalHeight(p) + Height(b[|b| - 1]);
      assert |b| * numRows == |p| * numRows + numRows;
    }
  }
}
