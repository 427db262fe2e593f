/** Character grids as the days build them with numpy: `np.array` of the
    input's lines, one character per cell.  numpy refuses rows of different
    lengths, so a grid is rectangular. */
module Grids {
  /** A two-dimensional array of characters, as its rows. */
  type Grid = seq<string>

  function Width(g: Grid): nat { if g == [] then 0 else |g[0]| }

  /** Every row has the same length, as in a numpy array. */
  predicate Rectangular(g: Grid) {
    forall i :: 0 <= i < |g| ==> |g[i]| == Width(g)
  }

  /** `g.size == 0`: the array has no cell.  `np.nditer` without the
      `zerosize_ok` flag refuses such an array with a ValueError. */
  predicate ZeroSize(g: Grid) {
    |g| == 0 || Width(g) == 0
  }

  /** `g[::, j]`: column `j`, top to bottom. */
  function Column(g: Grid, j: nat): (c: string)
    requires Rectangular(g) && j < Width(g)
    ensures |c| == |g| && forall i :: 0 <= i < |g| ==> c[i] == g[i][j]
  {
    seq(|g|, i requires 0 <= i < |g| => g[i][j])
  }

  /** `g.T` as its rows: the columns of `g`, left to right. */
  function Columns(g: Grid): (cs: seq<string>)
    requires Rectangular(g)
    ensures |cs| == Width(g) && forall j :: 0 <= j < Width(g) ==> cs[j] == Column(g, j)
  {
    seq(Width(g), j requires 0 <= j < Width(g) => Column(g, j))
  }

  // ---------------------------------------------------------------------------
  // Sums over the cells of a grid

  /** `f` summed over the first `w` cells of row `y`. */
  function RowSum(f: (nat, nat) -> int, y: nat, w: nat): int {
    if w == 0 then 0 else RowSum(f, y, w - 1) + f(y, w - 1)
  }

  /** `f` summed over an `h` by `w` grid, row by row. */
  function RowMajorSum(f: (nat, nat) -> int, h: nat, w: nat): int {
    if h == 0 then 0 else RowMajorSum(f, h - 1, w) + RowSum(f, h - 1, w)
  }

  /** `f` summed down column `x`, from row `lo` to row `h - 1`. */
  function ColumnSum(f: (nat, nat) -> int, x: nat, lo: nat, h: nat): int
    decreases h - lo
  {
    if lo >= h then 0 else f(lo, x) + ColumnSum(f, x, lo + 1, h)
  }

  /** `f` summed over an `h` by `w` grid, column by column. */
  function ColumnMajorSum(f: (nat, nat) -> int, h: nat, w: nat): int {
    if w == 0 then 0 else ColumnMajorSum(f, h, w - 1) + ColumnSum(f, w - 1, 0, h)
  }

  lemma {:induction false} ColumnSumLast(f: (nat, nat) -> int, x: nat, lo: nat, h: nat)
    requires lo <= h
    ensures ColumnSum(f, x, lo, h + 1) == ColumnSum(f, x, lo, h) + f(h, x)
    decreases h - lo
  {
    if lo < h {
      ColumnSumLast(f, x, lo + 1, h);
    }
  }

  /** Adding a row at the bottom adds that row's sum to every column order. */
  lemma {:induction false} ColumnMajorLastRow(f: (nat, nat) -> int, h: nat, w: nat)
    ensures ColumnMajorSum(f, h + 1, w) == ColumnMajorSum(f, h, w) + RowSum(f, h, w)
  {
    if w > 0 {
      ColumnMajorLastRow(f, h, w - 1);
      ColumnSumLast(f, w - 1, 0, h);
    }
  }

  lemma {:induction false} ColumnMajorNoRows(f: (nat, nat) -> int, w: nat)
    ensures ColumnMajorSum(f, 0, w) == 0
  {
    if w > 0 {
      ColumnMajorNoRows(f, w - 1);
    }
  }

  /** The order in which the cells are visited does not change the sum. */
  lemma {:induction false} SumsInterchange(f: (nat, nat) -> int, h: nat, w: nat)
    ensures RowMajorSum(f, h, w) == ColumnMajorSum(f, h, w)
  {
    if h == 0 {
      ColumnMajorNoRows(f, w);
    } else {
      SumsInterchange(f, h - 1, w);
      ColumnMajorLastRow(f, h - 1, w);
    }
  }

  /** Two grids whose columns have equal sums have equal column-major sums. */
  lemma {:induction false} ColumnMajorPointwise(f: (nat, nat) -> int, h: nat, g: (nat, nat) -> int, k: nat, w: nat)
    requires forall x :: 0 <= x < w ==> ColumnSum(f, x, 0, h) == ColumnSum(g, x, 0, k)
    ensures ColumnMajorSum(f, h, w) == ColumnMajorSum(g, k, w)
  {
    if w > 0 {
      ColumnMajorPointwise(f, h, g, k, w - 1);
    }
  }
}
