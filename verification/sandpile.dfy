/**
 * The Bak-Tang-Wiesenfeld sandpile of `btw.BTWModel`: an `nx`-by-`ny`
 * integer matrix with periodic (torus) wrap-around, grains dropped on a
 * fixed cell, and a depth-bounded recursive relaxation.
 */
module Sandpile {
  import opened Wrappers
  import opened JavaInt
  import opened Grid

  /** A cell holding more than this many grains topples. */
  const Threshold: int := 4

  /** Depth at which the recursive relaxation gives up (`maxRecursionOrder`). */
  const MaxRecursionOrder: int := 600

  datatype BTWModel = BTWModel(nx: int, ny: int, matrix: Grid, cx: int, cy: int)

  /** The Java exceptions the constructor and `Update` can raise. */
  datatype Error = NegativeArraySize | IndexOutOfBounds

  /** Result of the recursive relaxation; `capHit` records whether the
      "Maximum recursion order exceeded" diagnostic was emitted. */
  datatype Relaxed = Relaxed(grid: Grid, capHit: bool)

  /** Result of one grain drop. */
  datatype Dropped = Dropped(model: BTWModel, capHit: bool)

  predicate Valid(m: BTWModel) {
    IsGrid(m.matrix, m.nx, m.ny)
  }

  /** No cell holds more than `Threshold` grains. */
  predicate Stable(g: Grid) {
    AtMost(g, Threshold)
  }

  /** Stable except for cell (x, y), which holds at most one grain too many. */
  predicate NearlyStable(g: Grid, nx: int, ny: int, x: int, y: int)
    requires IsGrid(g, nx, ny) && InGrid(nx, ny, x, y)
  {
    && g[x][y] <= Threshold + 1
    && forall i, j :: 0 <= i < nx && 0 <= j < ny && (i, j) != (x, y) ==> g[i][j] <= Threshold
  }

  /** The "central" coordinate `(n - 1) / 2 + 1`, with Java's division. */
  function Centre(n: int): int {
    Half(n - 1) + 1
  }

  /** The centre lies inside a dimension of size `n` exactly when `n >= 2`. */
  lemma CentreInBounds(n: int)
    requires n >= 0
    ensures 0 <= Centre(n) < n <==> n >= 2
  {
  }

  /** The constructor `BTWModel(nx, ny)`. */
  function New(nx: int, ny: int): (r: Result<BTWModel, Error>)
    ensures r.Failure? <==> nx < 0 || ny < 0
    ensures r.Failure? ==> r.error == NegativeArraySize
    ensures r.Success? ==>
              && Valid(r.value)
              && r.value.nx == nx && r.value.ny == ny
              && (forall i, j :: InGrid(nx, ny, i, j) ==> r.value.matrix[i][j] == 0)
              && Total(r.value.matrix) == 0
              && r.value.cx == Centre(nx) && r.value.cy == Centre(ny)
  {
    if nx < 0 || ny < 0 then Failure(NegativeArraySize)
    else Success(BTWModel(nx, ny, Zeros(nx, ny), Centre(nx), Centre(ny)))
  }

  /** Depth measure of the recursion: the distance to the cap. */
  function Headroom(order: int): nat {
    if order < MaxRecursionOrder then MaxRecursionOrder - order else 0
  }

  /**
   * The private recursive `update(x, y, recursionOrder)`. A cell above the
   * threshold loses four grains; each of its four wrapped neighbours in turn
   * gains one grain and is relaxed one level deeper.
   */
  function Relax(g: Grid, nx: int, ny: int, x: int, y: int, order: int): (r: Relaxed)
    requires IsGrid(g, nx, ny) && InGrid(nx, ny, x, y)
    ensures IsGrid(r.grid, nx, ny)
    ensures Total(r.grid) == Total(g)
    ensures NonNegative(g) ==> NonNegative(r.grid)
    ensures NearlyStable(g, nx, ny, x, y) && !r.capHit ==> Stable(r.grid)
    ensures order >= MaxRecursionOrder ==> r == Relaxed(g, true)
    ensures order < MaxRecursionOrder && g[x][y] <= Threshold ==> r == Relaxed(g, false)
    decreases Headroom(order), 0
  {
    if order >= MaxRecursionOrder then
      Relaxed(g, true)
    else if g[x][y] <= Threshold then
      Relaxed(g, false)
    else
      var g0 := AddAt(g, nx, ny, x, y, -4);
      assert NearlyStable(g, nx, ny, x, y) ==> Stable(g0);
      Scatter(g0, nx, ny, x, y, order + 1)
  }

  /**
   * The four recursive calls of `update`, in the source's order: one grain
   * to each wrapped neighbour (y + 1, y - 1, x + 1, x - 1), each relaxed at
   * the next recursion order.
   */
  function Scatter(g: Grid, nx: int, ny: int, x: int, y: int, order: int): (r: Relaxed)
    requires IsGrid(g, nx, ny) && InGrid(nx, ny, x, y)
    ensures IsGrid(r.grid, nx, ny)
    ensures Total(r.grid) == Total(g) + 4
    ensures NonNegative(g) ==> NonNegative(r.grid)
    ensures Stable(g) && !r.capHit ==> Stable(r.grid)
    decreases Headroom(order), 2
  {
    var xp1, xm1 := Next(x, nx), Prev(x, nx);
    var yp1, ym1 := Next(y, ny), Prev(y, ny);
    var r1 := Feed(g, nx, ny, x, yp1, order);
    var r2 := Feed(r1.grid, nx, ny, x, ym1, order);
    var r3 := Feed(r2.grid, nx, ny, xp1, y, order);
    var r4 := Feed(r3.grid, nx, ny, xm1, y, order);
    Relaxed(r4.grid, r1.capHit || r2.capHit || r3.capHit || r4.capHit)
  }

  /** `matrix[x][y]++; update(x, y, order)`: one grain arrives and is relaxed. */
  function Feed(g: Grid, nx: int, ny: int, x: int, y: int, order: int): (r: Relaxed)
    requires IsGrid(g, nx, ny) && InGrid(nx, ny, x, y)
    ensures IsGrid(r.grid, nx, ny)
    ensures Total(r.grid) == Total(g) + 1
    ensures NonNegative(g) ==> NonNegative(r.grid)
    ensures Stable(g) && !r.capHit ==> Stable(r.grid)
    ensures order >= MaxRecursionOrder ==> r.capHit
    ensures order < MaxRecursionOrder && g[x][y] < Threshold ==>
              r == Relaxed(AddAt(g, nx, ny, x, y, 1), false)
    decreases Headroom(order), 1
  {
    var g1 := AddAt(g, nx, ny, x, y, 1);
    assert Stable(g) ==> NearlyStable(g1, nx, ny, x, y);
    Relax(g1, nx, ny, x, y, order)
  }

  /** The public `Update()`: drop one grain on the centre, then relax it. */
  function Update(m: BTWModel): (r: Result<Dropped, Error>)
    requires Valid(m)
    ensures r.Failure? <==> !InGrid(m.nx, m.ny, m.cx, m.cy)
    ensures r.Failure? ==> r.error == IndexOutOfBounds
    ensures r.Success? ==>
              && Valid(r.value.model)
              && r.value.model == m.(matrix := r.value.model.matrix)
              && Total(r.value.model.matrix) == Total(m.matrix) + 1
    ensures r.Success? && NonNegative(m.matrix) ==> NonNegative(r.value.model.matrix)
    ensures r.Success? && Stable(m.matrix) && !r.value.capHit ==> Stable(r.value.model.matrix)
    ensures r.Success? && m.matrix[m.cx][m.cy] < Threshold ==>
              && r.value.model.matrix == AddAt(m.matrix, m.nx, m.ny, m.cx, m.cy, 1)
              && !r.value.capHit
  {
    if !InGrid(m.nx, m.ny, m.cx, m.cy) then
      Failure(IndexOutOfBounds)
    else
      var r := Feed(m.matrix, m.nx, m.ny, m.cx, m.cy, 0);
      Success(Dropped(m.(matrix := r.grid), r.capHit))
  }

  /** How many of the four wrapped neighbours of (x, y) are the cell (i, j). */
  function Hits(nx: int, ny: int, x: int, y: int, i: int, j: int): (n: int)
    requires InGrid(nx, ny, x, y)
    ensures 0 <= n <= 4
  {
    (if i == x && j == Next(y, ny) then 1 else 0)
    + (if i == x && j == Prev(y, ny) then 1 else 0)
    + (if i == Next(x, nx) && j == y then 1 else 0)
    + (if i == Prev(x, nx) && j == y then 1 else 0)
  }

  /**
   * One toppling of (x, y) on its own, without the recursive relaxation of
   * the neighbours: four grains leave the cell and one reaches each wrapped
   * neighbour, in the order `update` hands them out.
   */
  function Topple(g: Grid, nx: int, ny: int, x: int, y: int): (r: Grid)
    requires IsGrid(g, nx, ny) && InGrid(nx, ny, x, y)
    ensures IsGrid(r, nx, ny)
    ensures forall i, j :: InGrid(nx, ny, i, j) ==>
              r[i][j] == g[i][j] - (if i == x && j == y then 4 else 0) + Hits(nx, ny, x, y, i, j)
    ensures Total(r) == Total(g)
  {
    var xp1, xm1 := Next(x, nx), Prev(x, nx);
    var yp1, ym1 := Next(y, ny), Prev(y, ny);
    var g0 := AddAt(g, nx, ny, x, y, -4);
    var g1 := AddAt(g0, nx, ny, x, yp1, 1);
    var g2 := AddAt(g1, nx, ny, x, ym1, 1);
    var g3 := AddAt(g2, nx, ny, xp1, y, 1);
    var g4 := AddAt(g3, nx, ny, xm1, y, 1);
    forall i, j | InGrid(nx, ny, i, j)
      ensures g4[i][j] == g[i][j] - (if i == x && j == y then 4 else 0) + Hits(nx, ny, x, y, i, j)
    {
      assert g4[i][j] == g3[i][j] + (if i == xm1 && j == y then 1 else 0);
      assert g3[i][j] == g2[i][j] + (if i == xp1 && j == y then 1 else 0);
      assert g2[i][j] == g1[i][j] + (if i == x && j == ym1 then 1 else 0);
      assert g1[i][j] == g0[i][j] + (if i == x && j == yp1 then 1 else 0);
    }
    g4
  }

  /** On a grid at least 3 wide each way, the four neighbours are four distinct
      other cells, so a toppling moves exactly four grains off (x, y). */
  lemma NeighboursDistinct(nx: int, ny: int, x: int, y: int)
    requires nx >= 3 && ny >= 3 && InGrid(nx, ny, x, y)
    ensures Hits(nx, ny, x, y, x, y) == 0
    ensures forall i, j :: InGrid(nx, ny, i, j) ==> Hits(nx, ny, x, y, i, j) <= 1
  {
  }

  /** On a torus two cells wide, both x-neighbours of a cell are the same
      other cell, so a toppling hands that cell two grains. */
  lemma TwoWideDoubleFeed(g: Grid, ny: int, x: int, y: int)
    requires IsGrid(g, 2, ny) && ny >= 3 && InGrid(2, ny, x, y)
    ensures Next(x, 2) == Prev(x, 2) == 1 - x
    ensures Topple(g, 2, ny, x, y)[1 - x][y] == g[1 - x][y] + 2
    ensures Topple(g, 2, ny, x, y)[x][y] == g[x][y] - 4
  {
  }

  /**
   * When no neighbour overflows, the recursive relaxation of an unstable
   * cell is exactly one toppling, and the cap is not hit.
   */
  lemma SingleTopple(g: Grid, nx: int, ny: int, x: int, y: int, order: int)
    requires IsGrid(g, nx, ny) && InGrid(nx, ny, x, y)
    requires 0 <= order && order + 1 < MaxRecursionOrder
    requires g[x][y] > Threshold
    requires var t := Topple(g, nx, ny, x, y);
             && t[x][Next(y, ny)] <= Threshold && t[x][Prev(y, ny)] <= Threshold
             && t[Next(x, nx)][y] <= Threshold && t[Prev(x, nx)][y] <= Threshold
    ensures Relax(g, nx, ny, x, y, order) == Relaxed(Topple(g, nx, ny, x, y), false)
  {
    var xp1, xm1 := Next(x, nx), Prev(x, nx);
    var yp1, ym1 := Next(y, ny), Prev(y, ny);
    var g0 := AddAt(g, nx, ny, x, y, -4);
    var g1 := AddAt(g0, nx, ny, x, yp1, 1);
    var g2 := AddAt(g1, nx, ny, x, ym1, 1);
    var g3 := AddAt(g2, nx, ny, xp1, y, 1);
    var g4 := AddAt(g3, nx, ny, xm1, y, 1);
    assert g4 == Topple(g, nx, ny, x, y);
    // A grain only ever arrives after the one being relaxed, so no
    // neighbour is fuller part-way through than at the end.
    assert g1[x][yp1] <= g2[x][yp1] <= g3[x][yp1] <= g4[x][yp1];
    assert g2[x][ym1] <= g3[x][ym1] <= g4[x][ym1];
    assert g3[xp1][y] <= g4[xp1][y];
    assert Feed(g0, nx, ny, x, yp1, order + 1) == Relaxed(g1, false);
    assert Feed(g1, nx, ny, x, ym1, order + 1) == Relaxed(g2, false);
    assert Feed(g2, nx, ny, xp1, y, order + 1) == Relaxed(g3, false);
    assert Feed(g3, nx, ny, xm1, y, order + 1) == Relaxed(g4, false);
  }

  /**
   * The driver loop `for (iter = 0; iter < MAX_ITERATIONS; iter++) model.Update();`
   * on a freshly constructed model. `capHit` reports whether any drop hit
   * the recursion cap.
   */
  method Simulate(nx: int, ny: int, iterations: nat) returns (r: Result<BTWModel, Error>, capHit: bool)
    ensures r.Failure? <==> nx < 0 || ny < 0 || (iterations > 0 && (nx < 2 || ny < 2))
    ensures r.Success? ==> Valid(r.value) && r.value.nx == nx && r.value.ny == ny
    ensures r.Success? ==> Total(r.value.matrix) == iterations && NonNegative(r.value.matrix)
    ensures r.Success? && !capHit ==> Stable(r.value.matrix)
    ensures r.Success? && iterations <= Threshold ==>
              && !capHit
              && forall i, j :: InGrid(nx, ny, i, j) ==>
                   r.value.matrix[i][j] == if (i, j) == (r.value.cx, r.value.cy) then iterations else 0
  {
    var created := New(nx, ny);
    capHit := false;
    if created.Failure? {
      return Failure(created.error), capHit;
    }
    var m := created.value;
    CentreInBounds(nx);
    CentreInBounds(ny);
    var i := 0;
    while i < iterations
      invariant 0 <= i <= iterations
      invariant Valid(m) && m.nx == nx && m.ny == ny && m.cx == Centre(nx) && m.cy == Centre(ny)
      invariant i > 0 ==> nx >= 2 && ny >= 2
      invariant Total(m.matrix) == i
      invariant NonNegative(m.matrix)
      invariant !capHit ==> Stable(m.matrix)
      invariant i <= Threshold ==>
                  && !capHit
                  && forall a, b :: InGrid(nx, ny, a, b) ==>
                       m.matrix[a][b] == if (a, b) == (m.cx, m.cy) then i else 0
    {
      var dropped := Update(m);
      if dropped.Failure? {
        return Failure(dropped.error), capHit;
      }
      m := dropped.value.model;
      capHit := capHit || dropped.value.capHit;
      i := i + 1;
    }
    r := Success(m);
  }
}
