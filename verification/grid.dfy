/** Rectangular grids stored row by row as sequences of sequences. */
module Grid {

  /** `g` has exactly `rows` rows, each of exactly `cols` cells. */
  predicate IsGrid<T>(g: seq<seq<T>>, rows: nat, cols: nat) {
    |g| == rows && forall i :: 0 <= i < rows ==> |g[i]| == cols
  }

  /** A `rows × cols` grid of zeros, as `new int[rows][cols]` allocates it. */
  function Zero(rows: nat, cols: nat): (z: seq<seq<int>>)
    ensures IsGrid(z, rows, cols)
    ensures forall i, j :: 0 <= i < rows && 0 <= j < cols ==> z[i][j] == 0
  {
    seq(rows, _ => seq(cols, _ => 0))
  }

  /** `g[i][j] += n`: cell (i, j) grows by `n` and no other cell changes. */
  function AddAt(g: seq<seq<int>>, rows: nat, cols: nat, i: nat, j: nat, n: int): (r: seq<seq<int>>)
    requires IsGrid(g, rows, cols) && i < rows && j < cols
    ensures IsGrid(r, rows, cols)
    ensures forall a, b :: 0 <= a < rows && 0 <= b < cols ==>
              r[a][b] == if a == i && b == j then g[a][b] + n else g[a][b]
  {
    g[i := g[i][j := g[i][j] + n]]
  }
}
