/**
 * The sandpile's `int matrix[nx][ny]` as an immutable value: `nx` rows of
 * `ny` cells each, with the grain count that the model conserves.
 */
module Grid {

  type Grid = seq<seq<int>>

  /** `g` has the shape of `new int[nx][ny]`. */
  predicate IsGrid(g: Grid, nx: int, ny: int) {
    |g| == nx && forall i :: 0 <= i < |g| ==> |g[i]| == ny
  }

  predicate InGrid(nx: int, ny: int, x: int, y: int) {
    0 <= x < nx && 0 <= y < ny
  }

  predicate NonNegative(g: Grid) {
    forall i, j :: 0 <= i < |g| && 0 <= j < |g[i]| ==> g[i][j] >= 0
  }

  /** Every cell holds at most `bound` grains. */
  predicate AtMost(g: Grid, bound: int) {
    forall i, j :: 0 <= i < |g| && 0 <= j < |g[i]| ==> g[i][j] <= bound
  }

  function RowSum(r: seq<int>): int {
    if |r| == 0 then 0 else RowSum(r[..|r| - 1]) + r[|r| - 1]
  }

  /** The number of grains on the whole grid. */
  function Total(g: Grid): int {
    if |g| == 0 then 0 else Total(g[..|g| - 1]) + RowSum(g[|g| - 1])
  }

  /** The freshly allocated matrix: Java zero-initialises `int` arrays. */
  function Zeros(nx: nat, ny: nat): (g: Grid)
    ensures IsGrid(g, nx, ny)
    ensures forall i, j :: InGrid(nx, ny, i, j) ==> g[i][j] == 0
    ensures Total(g) == 0
  {
    var g := seq(nx, i => seq(ny, j => 0));
    ZerosTotal(g, ny);
    g
  }

  lemma {:induction false} ZeroRowSum(r: seq<int>)
    requires forall j :: 0 <= j < |r| ==> r[j] == 0
    ensures RowSum(r) == 0
  {
    if |r| > 0 {
      ZeroRowSum(r[..|r| - 1]);
    }
  }

  lemma {:induction false} ZerosTotal(g: Grid, ny: nat)
    requires forall i :: 0 <= i < |g| ==> g[i] == seq(ny, j => 0)
    ensures Total(g) == 0
  {
    if |g| > 0 {
      ZerosTotal(g[..|g| - 1], ny);
      ZeroRowSum(g[|g| - 1]);
    }
  }

  /** Changing one entry of a row changes its sum by the difference. */
  lemma {:induction false} RowSumUpdate(r: seq<int>, j: int, v: int)
    requires 0 <= j < |r|
    ensures RowSum(r[j := v]) == RowSum(r) - r[j] + v
  {
    var n := |r|;
    if j < n - 1 {
      assert r[j := v][..n - 1] == r[..n - 1][j := v];
      RowSumUpdate(r[..n - 1], j, v);
    } else {
      assert r[j := v][..n - 1] == r[..n - 1];
    }
  }

  /** Replacing one row changes the total by the difference of row sums. */
  lemma {:induction false} TotalUpdate(g: Grid, i: int, row: seq<int>)
    requires 0 <= i < |g|
    ensures Total(g[i := row]) == Total(g) - RowSum(g[i]) + RowSum(row)
  {
    var n := |g|;
    if i < n - 1 {
      assert g[i := row][..n - 1] == g[..n - 1][i := row];
      TotalUpdate(g[..n - 1], i, row);
    } else {
      assert g[i := row][..n - 1] == g[..n - 1];
    }
  }

  /** `matrix[x][y] += d`: one cell changes by `d`, every other cell is untouched. */
  function AddAt(g: Grid, nx: int, ny: int, x: int, y: int, d: int): (r: Grid)
    requires IsGrid(g, nx, ny) && InGrid(nx, ny, x, y)
    ensures IsGrid(r, nx, ny)
    ensures forall i, j :: InGrid(nx, ny, i, j) ==>
              r[i][j] == g[i][j] + (if i == x && j == y then d else 0)
    ensures Total(r) == Total(g) + d
  {
    var row := g[x][y := g[x][y] + d];
    RowSumUpdate(g[x], y, g[x][y] + d);
    TotalUpdate(g, x, row);
    g[x := row]
  }
}
