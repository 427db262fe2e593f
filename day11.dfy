/** Day 11: cosmic expansion (adventofcode2023/days/day11.py).  The universe is
    a rectangular grid of `.` and `#`.  Part one doubles every all-`.` row and
    then every all-`.` column of the grid and sums the Manhattan distances over
    all pairs of `#` cells; part two leaves the grid alone and instead moves
    every galaxy by a fixed increment per empty row above it and per empty
    column left of it. */
module Day11 {
  import opened Wrappers
  import Text
  import opened Grids

  datatype Point = Point(x: int, y: int)

  function Abs(n: int): nat { if n < 0 then -n else n }

  /** `manhattan(a, b)`. */
  function Manhattan(a: Point, b: Point): (d: nat)
    ensures d == 0 <==> a == b
  {
    Abs(b.x - a.x) + Abs(b.y - a.y)
  }

  /** The distance is a metric on points: symmetric, zero exactly between equal
      points, and obeying the triangle inequality. */
  lemma ManhattanIsMetric(a: Point, b: Point, c: Point)
    ensures Manhattan(a, b) == Manhattan(b, a)
    ensures Manhattan(a, b) == 0 <==> a == b
    ensures Manhattan(a, c) <= Manhattan(a, b) + Manhattan(b, c)
  {
  }

  // ---------------------------------------------------------------------------
  // The grid

  /** `all(c == '.' for c in line)`. */
  predicate Blank(line: string) {
    forall k :: 0 <= k < |line| ==> line[k] == '.'
  }

  /** `all(c == '.' for c in universe.T[j])`: column `j` holds only dots. */
  predicate BlankColumn(g: Grid, j: nat) {
    forall i :: 0 <= i < |g| ==> j < |g[i]| && g[i][j] == '.'
  }

  function Dots(n: nat): (s: string)
    ensures |s| == n && Blank(s)
  {
    seq(n, _ => '.')
  }

  lemma BlankIsDots(line: string)
    requires Blank(line)
    ensures line == Dots(|line|)
  {
  }

  /** `np.array([list(s) for s in input.split('\n')])`: numpy refuses rows of
      different lengths with a ValueError. */
  function Universe(input: string): (r: Result<Grid>)
    ensures r.Ok? <==> Rectangular(Text.Split(input, "\n"))
    ensures r.Ok? ==> r.value == Text.Split(input, "\n") && |r.value| > 0
    ensures r.Err? ==> r.failure == ValueError
  {
    var rows := Text.Split(input, "\n");
    if Rectangular(rows) then Ok(rows) else Err(ValueError)
  }

  // ---------------------------------------------------------------------------
  // Expanding the grid (part one)

  /** `expand_row(universe, idx)`: a row of dots inserted before row `idx`. */
  function ExpandRow(g: Grid, idx: nat): (h: Grid)
    requires Rectangular(g) && idx <= |g|
    ensures Rectangular(h) && |h| == |g| + 1 && Width(h) == Width(g)
  {
    g[..idx] + [Dots(Width(g))] + g[idx..]
  }

  /** `expand_column(universe, idx)`: a dot inserted before column `idx` of
      every row. */
  function ExpandColumn(g: Grid, idx: nat): (h: Grid)
    requires Rectangular(g) && idx <= Width(g)
    ensures Rectangular(h) && |h| == |g| && (g != [] ==> Width(h) == Width(g) + 1)
  {
    var h := seq(|g|, i requires 0 <= i < |g| => g[i][..idx] + "." + g[i][idx..]);
    assert g != [] ==> Width(h) == Width(g) + 1 by {
      if g != [] { assert |h[0]| == |g[0]| + 1; }
    }
    h
  }

  /** `get_expanded_universe(universe, idx, row_or_column)`: the rows phase
      (`byColumn` false) walks the rows from `idx`, inserting a row of dots after
      every blank row and skipping the inserted row; at the last row it starts
      the columns phase at column 0, which does the same with columns. */
  function ExpandedUniverse(g: Grid, idx: nat, byColumn: bool): (h: Grid)
    requires Rectangular(g)
    requires idx <= if byColumn then Width(g) else |g|
    decreases if byColumn then 0 else 1, (if byColumn then Width(g) else |g|) - idx
  {
    if byColumn && idx == Width(g) then g
    else if !byColumn && idx == |g| then ExpandedUniverse(g, 0, true)
    else if !byColumn then
      if Blank(g[idx]) then ExpandedUniverse(ExpandRow(g, idx + 1), idx + 2, false)
      else ExpandedUniverse(g, idx + 1, false)
    else
      if BlankColumn(g, idx) then ExpandedUniverse(ExpandColumn(g, idx + 1), idx + 2, true)
      else ExpandedUniverse(g, idx + 1, true)
  }

  /** The indexes of the blank rows, in order:
      `[idx for idx, row in enumerate(universe) if all(c == '.' for c in row)]`. */
  function BlankRows(g: Grid): seq<int> {
    if g == [] then [] else BlankRows(g[..|g| - 1]) + (if Blank(g[|g| - 1]) then [|g| - 1] else [])
  }

  /** The indexes of the blank columns among the first `n`, in order. */
  function BlankColumnsUpTo(g: Grid, n: nat): seq<int> {
    if n == 0 then [] else BlankColumnsUpTo(g, n - 1) + (if BlankColumn(g, n - 1) then [n - 1] else [])
  }

  /** `[idx for idx, column in enumerate(universe.T) if all(c == '.' for c in column)]`. */
  function BlankColumns(g: Grid): seq<int> {
    BlankColumnsUpTo(g, Width(g))
  }

  /** A blank row followed by its copy, any other row alone. */
  function Copies(line: string): seq<string> {
    if Blank(line) then [line, line] else [line]
  }

  /** The rows of `g` with every blank row doubled. */
  function DoubledRows(g: Grid): (h: Grid)
    ensures |h| == |g| + |BlankRows(g)|
  {
    if g == [] then [] else DoubledRows(g[..|g| - 1]) + Copies(g[|g| - 1])
  }

  /** The first `n` characters of `line` with the character in every blank
      column of `g` doubled. */
  function SpreadUpTo(line: string, g: Grid, n: nat): (s: string)
    requires n <= |line|
    ensures |s| == n + |BlankColumnsUpTo(g, n)|
  {
    if n == 0 then []
    else SpreadUpTo(line, g, n - 1) + (if BlankColumn(g, n - 1) then [line[n - 1], line[n - 1]] else [line[n - 1]])
  }

  /** The expanded universe as an independent definition: every blank row
      doubled, and in every row the character of every blank column doubled. */
  function Expanded(g: Grid): (h: Grid)
    requires Rectangular(g)
  {
    DoubledRowsShape(g);
    var d := DoubledRows(g);
    seq(|d|, i requires 0 <= i < |d| => SpreadUpTo(d[i], g, Width(g)))
  }

  /** Doubling the blank rows neither adds nor loses a row value. */
  lemma {:induction false} DoubledRowsAreRows(g: Grid)
    ensures forall r :: r in DoubledRows(g) <==> r in g
    ensures g != [] ==> DoubledRows(g)[0] == g[0]
  {
    if g != [] {
      var init := g[..|g| - 1];
      DoubledRowsAreRows(init);
      assert g == init + [g[|g| - 1]];
      if init == [] {
        assert DoubledRows(init) == [];
      } else {
        assert init[0] == g[0];
      }
    }
  }

  lemma DoubledRowsShape(g: Grid)
    requires Rectangular(g)
    ensures Rectangular(DoubledRows(g)) && Width(DoubledRows(g)) == Width(g)
  {
    var d := DoubledRows(g);
    DoubledRowsAreRows(g);
    forall i | 0 <= i < |d|
      ensures |d[i]| == Width(g)
    {
      assert d[i] in d;
    }
  }

  /** The rows phase has doubled the blank rows among the first `k`. */
  function RowsDone(g: Grid, k: nat): Grid
    requires k <= |g|
  {
    DoubledRows(g[..k]) + g[k..]
  }

  lemma RowsDoneShape(g: Grid, k: nat)
    requires Rectangular(g) && k <= |g|
    ensures Rectangular(RowsDone(g, k)) && Width(RowsDone(g, k)) == Width(g)
  {
    var h := RowsDone(g, k);
    DoubledRowsAreRows(g[..k]);
    forall i | 0 <= i < |h|
      ensures h[i] in g
    {
      if i < |DoubledRows(g[..k])| {
        assert h[i] in DoubledRows(g[..k]);
      } else {
        assert h[i] == g[i - |DoubledRows(g[..k])| + k];
      }
    }
    if g != [] {
      assert h[0] in g;
    }
  }

  /** One step of the rows phase: row `k` of the grid sits right after the
      doubled rows before it; a blank one gets its copy, another is skipped. */
  lemma RowsStep(g: Grid, k: nat)
    requires Rectangular(g) && k < |g|
    ensures Rectangular(RowsDone(g, k))
    ensures RowsDone(g, k)[|DoubledRows(g[..k])|] == g[k]
    ensures Blank(g[k]) ==> (|DoubledRows(g[..k + 1])| == |DoubledRows(g[..k])| + 2
      && ExpandRow(RowsDone(g, k), |DoubledRows(g[..k])| + 1) == RowsDone(g, k + 1))
    ensures !Blank(g[k]) ==> (|DoubledRows(g[..k + 1])| == |DoubledRows(g[..k])| + 1
      && RowsDone(g, k) == RowsDone(g, k + 1))
  {
    RowsDoneShape(g, k);
    var d := DoubledRows(g[..k]);
    assert g[..k + 1][..k] == g[..k];
    assert DoubledRows(g[..k + 1]) == d + Copies(g[k]);
    assert g[k..] == [g[k]] + g[k + 1..];
    var h := RowsDone(g, k);
    assert h == (d + [g[k]]) + g[k + 1..];
    if Blank(g[k]) {
      BlankIsDots(g[k]);
      assert Width(h) == |g[k]|;
      assert h[..|d| + 1] == d + [g[k]];
      assert h[|d| + 1..] == g[k + 1..];
    }
  }

  /** The rows phase of `get_expanded_universe`, from any point on, ends with
      every blank row doubled and then runs the columns phase. */
  lemma {:induction false} RowsPhase(g: Grid, k: nat)
    requires Rectangular(g) && k <= |g|
    ensures Rectangular(RowsDone(g, k)) && Rectangular(DoubledRows(g))
    ensures ExpandedUniverse(RowsDone(g, k), |DoubledRows(g[..k])|, false) == ExpandedUniverse(DoubledRows(g), 0, true)
    decreases |g| - k
  {
    RowsDoneShape(g, k);
    RowsDoneShape(g, |g|);
    assert g[..|g|] == g;
    if k == |g| {
      assert RowsDone(g, k) == DoubledRows(g);
    } else {
      RowsPhaseStep(g, k);
      RowsPhase(g, k + 1);
    }
  }

  /** `get_expanded_universe` moves from row `k` of the grid to row `k + 1`. */
  lemma RowsPhaseStep(g: Grid, k: nat)
    requires Rectangular(g) && k < |g|
    ensures Rectangular(RowsDone(g, k)) && Rectangular(RowsDone(g, k + 1))
    ensures ExpandedUniverse(RowsDone(g, k), |DoubledRows(g[..k])|, false)
         == ExpandedUniverse(RowsDone(g, k + 1), |DoubledRows(g[..k + 1])|, false)
  {
    RowsDoneShape(g, k);
    RowsDoneShape(g, k + 1);
    RowsStep(g, k);
  }

  /** The columns phase has doubled the blank columns among the first `k`. */
  function ColumnsDone(g: Grid, k: nat): (h: Grid)
    requires Rectangular(g) && k <= Width(g)
    ensures |h| == |g|
  {
    seq(|g|, i requires 0 <= i < |g| => SpreadUpTo(g[i], g, k) + g[i][k..])
  }

  lemma ColumnsDoneShape(g: Grid, k: nat)
    requires Rectangular(g) && k <= Width(g)
    ensures Rectangular(ColumnsDone(g, k))
    ensures g != [] ==> Width(ColumnsDone(g, k)) == Width(g) + |BlankColumnsUpTo(g, k)|
  {
  }

  /** The columns phase of `get_expanded_universe`, from any point on, ends with
      every blank column doubled. */
  lemma ColumnsDoneNone(g: Grid)
    requires Rectangular(g)
    ensures ColumnsDone(g, 0) == g
  {
    var h := ColumnsDone(g, 0);
    forall i | 0 <= i < |g|
      ensures h[i] == g[i]
    {
      assert SpreadUpTo(g[i], g, 0) == [];
      assert g[i][0..] == g[i];
    }
  }

  /** One step of the columns phase on one row: the processed prefix is
      followed by the row's character in column `k`. */
  lemma ColumnsStepRow(g: Grid, k: nat, i: nat)
    requires Rectangular(g) && k < Width(g) && i < |g|
    ensures var idx := k + |BlankColumnsUpTo(g, k)|;
            var row := ColumnsDone(g, k)[i];
            idx < |row| && row[idx] == g[i][k]
            && ColumnsDone(g, k + 1)[i]
               == if BlankColumn(g, k) then row[..idx + 1] + "." + row[idx + 1..] else row
  {
    var idx := k + |BlankColumnsUpTo(g, k)|;
    var row := ColumnsDone(g, k)[i];
    var spread := SpreadUpTo(g[i], g, k);
    assert g[i][k..] == [g[i][k]] + g[i][k + 1..];
    assert row == (spread + [g[i][k]]) + g[i][k + 1..];
    if BlankColumn(g, k) {
      assert row[..idx + 1] == spread + [g[i][k]];
      assert row[idx + 1..] == g[i][k + 1..];
    }
  }

  /** One step of the columns phase: column `k` of the grid sits at `idx`,
      right after the doubled columns before it. */
  lemma ColumnsStepFinds(g: Grid, k: nat, idx: nat)
    requires Rectangular(g) && g != [] && k < Width(g) && idx == k + |BlankColumnsUpTo(g, k)|
    ensures Rectangular(ColumnsDone(g, k)) && idx < Width(ColumnsDone(g, k))
    ensures BlankColumn(ColumnsDone(g, k), idx) <==> BlankColumn(g, k)
  {
    ColumnsDoneShape(g, k);
    var h := ColumnsDone(g, k);
    forall i | 0 <= i < |g|
      ensures idx < |h[i]| && h[i][idx] == g[i][k]
    {
      ColumnsStepRow(g, k, i);
    }
  }

  /** A blank column `k` gets a column of dots after it. */
  lemma ColumnsStepBlank(g: Grid, k: nat, idx: nat)
    requires Rectangular(g) && g != [] && k < Width(g) && idx == k + |BlankColumnsUpTo(g, k)|
    requires BlankColumn(g, k)
    ensures Rectangular(ColumnsDone(g, k)) && idx < Width(ColumnsDone(g, k))
    ensures ExpandColumn(ColumnsDone(g, k), idx + 1) == ColumnsDone(g, k + 1)
  {
    ColumnsDoneShape(g, k);
    var h := ColumnsDone(g, k);
    var e := ExpandColumn(h, idx + 1);
    var next := ColumnsDone(g, k + 1);
    forall i | 0 <= i < |g|
      ensures e[i] == next[i]
    {
      ColumnsStepRow(g, k, i);
    }
    assert e == next;
  }

  /** Any other column is skipped. */
  lemma ColumnsStepOther(g: Grid, k: nat)
    requires Rectangular(g) && k < Width(g)
    requires !BlankColumn(g, k)
    ensures ColumnsDone(g, k) == ColumnsDone(g, k + 1)
  {
    var h := ColumnsDone(g, k);
    var next := ColumnsDone(g, k + 1);
    forall i | 0 <= i < |g|
      ensures h[i] == next[i]
    {
      ColumnsStepRow(g, k, i);
    }
  }

  /** The columns phase of `get_expanded_universe`, from any point on, ends with
      every blank column doubled. */
  lemma {:induction false} ColumnsPhase(g: Grid, k: nat)
    requires Rectangular(g) && k <= Width(g)
    ensures ColumnsFrom(g, k) == ColumnsDone(g, Width(g))
    decreases Width(g) - k
  {
    if g == [] {
      ColumnsDoneShape(g, Width(g));
    } else if k < Width(g) {
      ColumnsPhaseStep(g, k);
      ColumnsPhase(g, k + 1);
    } else {
      ColumnsPhaseDone(g);
    }
  }

  /** What the columns phase returns from column `k` of the original grid
      on, after the blank columns before it have been doubled. */
  function ColumnsFrom(g: Grid, k: nat): Grid
    requires Rectangular(g) && k <= Width(g)
  {
    ColumnsDoneShape(g, k);
    if g == [] then [] else ExpandedUniverse(ColumnsDone(g, k), k + |BlankColumnsUpTo(g, k)|, true)
  }

  /** After the last column the phase returns the grid. */
  lemma ColumnsPhaseDone(g: Grid)
    requires Rectangular(g) && g != []
    ensures Rectangular(ColumnsDone(g, Width(g)))
    ensures Width(g) + |BlankColumnsUpTo(g, Width(g))| == Width(ColumnsDone(g, Width(g)))
    ensures ExpandedUniverse(ColumnsDone(g, Width(g)), Width(g) + |BlankColumnsUpTo(g, Width(g))|, true) == ColumnsDone(g, Width(g))
  {
    ColumnsDoneShape(g, Width(g));
  }

  /** `get_expanded_universe` moves from column `k` of the grid to column
      `k + 1`. */
  lemma ColumnsPhaseStep(g: Grid, k: nat)
    requires Rectangular(g) && g != [] && k < Width(g)
    ensures Rectangular(ColumnsDone(g, k)) && Rectangular(ColumnsDone(g, k + 1))
    ensures k + |BlankColumnsUpTo(g, k)| <= Width(ColumnsDone(g, k))
    ensures k + 1 + |BlankColumnsUpTo(g, k + 1)| <= Width(ColumnsDone(g, k + 1))
    ensures ExpandedUniverse(ColumnsDone(g, k), k + |BlankColumnsUpTo(g, k)|, true)
         == ExpandedUniverse(ColumnsDone(g, k + 1), k + 1 + |BlankColumnsUpTo(g, k + 1)|, true)
  {
    ColumnsDoneShape(g, k);
    ColumnsDoneShape(g, k + 1);
    var h := ColumnsDone(g, k);
    var idx := k + |BlankColumnsUpTo(g, k)|;
    ColumnsStepFinds(g, k, idx);
    if BlankColumn(g, k) {
      ColumnsStepBlank(g, k, idx);
    } else {
      ColumnsStepOther(g, k);
    }
  }

  /** A row of doubled rows blanks the same columns as the original grid. */
  lemma SameBlankColumns(g: Grid, d: Grid, j: nat)
    requires forall r :: r in d <==> r in g
    ensures BlankColumn(d, j) <==> BlankColumn(g, j)
  {
    if BlankColumn(g, j) {
      forall i | 0 <= i < |d|
        ensures j < |d[i]| && d[i][j] == '.'
      {
        assert d[i] in g;
      }
    }
    if BlankColumn(d, j) {
      forall i | 0 <= i < |g|
        ensures j < |g[i]| && g[i][j] == '.'
      {
        assert g[i] in d;
      }
    }
  }

  lemma {:induction false} SpreadSameColumns(line: string, d: Grid, g: Grid, n: nat)
    requires n <= |line|
    requires forall j: nat :: j < n ==> (BlankColumn(d, j) <==> BlankColumn(g, j))
    ensures SpreadUpTo(line, d, n) == SpreadUpTo(line, g, n)
  {
    if n > 0 {
      SpreadSameColumns(line, d, g, n - 1);
    }
  }

  /** The rows phase of `get_expanded_universe` hands the grid with every
      blank row doubled to the columns phase. */
  lemma RowsPhaseHandsOver(g: Grid)
    requires Rectangular(g)
    ensures Rectangular(DoubledRows(g))
    ensures ExpandedUniverse(g, 0, false) == ExpandedUniverse(DoubledRows(g), 0, true)
  {
    DoubledRowsShape(g);
    assert g[..0] == [] && RowsDone(g, 0) == g;
    RowsPhase(g, 0);
  }

  /** The columns phase from the first column doubles every blank column. */
  lemma ColumnsPhaseWhole(d: Grid)
    requires Rectangular(d)
    ensures ExpandedUniverse(d, 0, true) == ColumnsDone(d, Width(d))
  {
    ColumnsDoneNone(d);
    ColumnsPhase(d, 0);
    if d != [] {
      assert ColumnsFrom(d, 0) == ExpandedUniverse(d, 0, true);
    }
  }

  /** Doubling the blank columns of the grid with doubled blank rows gives
      the reference expansion: the rows' blank columns are the grid's. */
  lemma DoubledColumnsExpand(g: Grid)
    requires Rectangular(g)
    ensures Rectangular(DoubledRows(g))
    ensures ColumnsDone(DoubledRows(g), Width(DoubledRows(g))) == Expanded(g)
  {
    var d := DoubledRows(g);
    DoubledRowsShape(g);
    DoubledRowsAreRows(g);
    forall j: nat | j < Width(g)
      ensures BlankColumn(d, j) <==> BlankColumn(g, j)
    {
      SameBlankColumns(g, d, j);
    }
    var e := Expanded(g);
    var c := ColumnsDone(d, Width(d));
    forall i | 0 <= i < |d|
      ensures c[i] == e[i]
    {
      SpreadSameColumns(d[i], d, g, Width(g));
    }
    assert c == e;
  }

  /** `get_expanded_universe(universe, 0, 0)` doubles every blank row and then
      every blank column, and leaves every other row and column as it was. */
  lemma ExpandedUniverseDoubles(g: Grid)
    requires Rectangular(g)
    ensures ExpandedUniverse(g, 0, false) == Expanded(g)
  {
    RowsPhaseHandsOver(g);
    ColumnsPhaseWhole(DoubledRows(g));
    DoubledColumnsExpand(g);
  }

  /** The expanded universe has one more row per blank row and one more column
      per blank column; it stays rectangular. */
  lemma ExpandedShape(g: Grid)
    requires Rectangular(g) && g != []
    ensures Rectangular(ExpandedUniverse(g, 0, false))
    ensures |ExpandedUniverse(g, 0, false)| == |g| + |BlankRows(g)|
    ensures Width(ExpandedUniverse(g, 0, false)) == Width(g) + |BlankColumns(g)|
  {
    ExpandedUniverseDoubles(g);
    DoubledRowsAreRows(g);
    var h := Expanded(g);
    forall i | 0 <= i < |h|
      ensures |h[i]| == Width(g) + |BlankColumns(g)|
    {
      assert DoubledRows(g)[i] in g;
    }
  }

  /** The grid of the tests, and the blank columns in it. */
  lemma ExampleColumns(g: Grid)
    requires g == [".#..", "..#.", "...."]
    ensures BlankColumn(g, 0) && !BlankColumn(g, 1) && !BlankColumn(g, 2) && BlankColumn(g, 3)
  {
    assert g[0][1] == '#' && g[1][2] == '#';
  }

  lemma ExampleSpread(g: Grid, line: string)
    requires g == [".#..", "..#.", "...."] && |line| == 4
    ensures SpreadUpTo(line, g, 4) == [line[0], line[0], line[1], line[2], line[3], line[3]]
  {
    ExampleColumns(g);
    assert SpreadUpTo(line, g, 1) == [line[0], line[0]];
    assert SpreadUpTo(line, g, 2) == [line[0], line[0], line[1]];
    assert SpreadUpTo(line, g, 3) == [line[0], line[0], line[1], line[2]];
  }

  lemma ExampleRows(g: Grid)
    requires g == [".#..", "..#.", "...."]
    ensures DoubledRows(g) == [".#..", "..#.", "....", "...."]
  {
    assert !Blank(g[0]) by { assert g[0][1] == '#'; }
    assert !Blank(g[1]) by { assert g[1][2] == '#'; }
    assert g[..1] == [".#.."] && g[..2] == [".#..", "..#."] && g[..2][..1] == g[..1];
    assert g[..1][..0] == [];
    assert DoubledRows(g[..1]) == [".#.."];
    assert DoubledRows(g[..2]) == [".#..", "..#."];
  }

  lemma ExampleExpanded(g: Grid)
    requires g == [".#..", "..#.", "...."]
    ensures Expanded(g) == ["..#...", "...#..", "......", "......"]
  {
    ExampleRows(g);
    var e := Expanded(g);
    assert e[0] == "..#..." by { ExampleSpread(g, ".#.."); }
    assert e[1] == "...#.." by { ExampleSpread(g, "..#."); }
    assert e[2] == e[3] == "......" by { ExampleSpread(g, "...."); }
  }

  /** The example of the tests: a 3×4 grid with one blank row and two blank
      columns becomes a 4×6 grid. */
  lemma ExpandedExample()
    ensures ExpandedUniverse([".#..", "..#.", "...."], 0, false)
         == ["..#...", "...#..", "......", "......"]
  {
    var g := [".#..", "..#.", "...."];
    ExpandedUniverseDoubles(g);
    ExampleExpanded(g);
  }

  // ---------------------------------------------------------------------------
  // Galaxies

  /** The `#` cells among the first `n` characters of row `r`, as
      `(row, column)`, left to right. */
  function RowGalaxies(line: string, r: nat, n: nat): seq<(nat, nat)>
    requires n <= |line|
  {
    if n == 0 then []
    else RowGalaxies(line, r, n - 1) + (if line[n - 1] == '#' then [(r, n - 1)] else [])
  }

  /** The `#` cells of the grid in the order `np.nditer` visits them, as
      `(row, column)` (its `multi_index`). */
  function Galaxies(g: Grid): seq<(nat, nat)> {
    if g == [] then []
    else Galaxies(g[..|g| - 1]) + RowGalaxies(g[|g| - 1], |g| - 1, |g[|g| - 1]|)
  }

  predicate IsGalaxy(g: Grid, r: nat, c: nat) {
    r < |g| && c < |g[r]| && g[r][c] == '#'
  }

  /** Row-major order: an earlier row, or the same row and an earlier column. */
  predicate RowMajorBefore(a: (nat, nat), b: (nat, nat)) {
    a.0 < b.0 || (a.0 == b.0 && a.1 < b.1)
  }

  predicate RowMajor(cells: seq<(nat, nat)>) {
    forall i, j :: 0 <= i < j < |cells| ==> RowMajorBefore(cells[i], cells[j])
  }

  lemma {:induction false} RowGalaxiesAreHashes(line: string, r: nat, n: nat)
    requires n <= |line|
    ensures forall c: nat :: (r, c) in RowGalaxies(line, r, n) <==> c < n && line[c] == '#'
    ensures forall cell :: cell in RowGalaxies(line, r, n) ==> cell.0 == r
    ensures forall i, j :: 0 <= i < j < |RowGalaxies(line, r, n)| ==> RowGalaxies(line, r, n)[i].1 < RowGalaxies(line, r, n)[j].1 < n
  {
    if n > 0 {
      RowGalaxiesAreHashes(line, r, n - 1);
      var prev := RowGalaxies(line, r, n - 1);
      var last: seq<(nat, nat)> := if line[n - 1] == '#' then [(r, n - 1)] else [];
      assert RowGalaxies(line, r, n) == prev + last;
      forall c: nat
        ensures (r, c) in RowGalaxies(line, r, n) <==> c < n && line[c] == '#'
      {
        assert (r, c) in prev + last <==> (r, c) in prev || (r, c) in last;
      }
    }
  }

  /** The scan finds exactly the `#` cells, each once, in row-major order. */
  lemma {:induction false} GalaxiesAreHashes(g: Grid)
    ensures forall r: nat, c: nat :: (r, c) in Galaxies(g) <==> IsGalaxy(g, r, c)
    ensures forall cell :: cell in Galaxies(g) ==> cell.0 < |g|
    ensures RowMajor(Galaxies(g))
  {
    if g != [] {
      var n := |g| - 1;
      var init := g[..n];
      GalaxiesAreHashes(init);
      RowGalaxiesAreHashes(g[n], n, |g[n]|);
      var a, b := Galaxies(init), RowGalaxies(g[n], n, |g[n]|);
      assert Galaxies(g) == a + b;
      forall r: nat, c: nat
        ensures (r, c) in a + b <==> IsGalaxy(g, r, c)
      {
        if r < n {
          assert (r, c) !in b;
          assert IsGalaxy(init, r, c) <==> IsGalaxy(g, r, c);
        }
      }
      forall i, j | 0 <= i < j < |a + b|
        ensures RowMajorBefore((a + b)[i], (a + b)[j])
      {
        if i < |a| && j >= |a| {
          assert (a + b)[i] in a;
          assert (a + b)[j] == b[j - |a|];
        } else if i >= |a| {
          assert (a + b)[i] == b[i - |a|] && (a + b)[j] == b[j - |a|];
          assert b[i - |a|] in b && b[j - |a|] in b;
        }
      }
    }
  }

  /** The `np.nditer` loop shared by `get_point_combinations` and
      `get_galaxy_locations`: every `#` cell is appended as it is met.  An
      array without cells makes `np.nditer` raise ValueError first. */
  method ScanGalaxies(g: Grid) returns (r: Result<seq<(nat, nat)>>)
    ensures r.Err? <==> ZeroSize(g)
    ensures r.Err? ==> r.failure == ValueError
    ensures r.Ok? ==> r.value == Galaxies(g)
  {
    if ZeroSize(g) {
      return Err(ValueError);
    }
    var cells := [];
    for r := 0 to |g|
      invariant cells == Galaxies(g[..r])
    {
      for c := 0 to |g[r]|
        invariant cells == Galaxies(g[..r]) + RowGalaxies(g[r], r, c)
      {
        if g[r][c] == '#' {
          cells := cells + [(r, c)];
        }
      }
      assert g[..r + 1][..r] == g[..r];
    }
    assert g[..|g|] == g;
    r := Ok(cells);
  }

  /** Part one names the `multi_index` `(x, y)`: x is the row, y the column. */
  function RowColumnPoints(cells: seq<(nat, nat)>): (ps: seq<Point>)
    ensures |ps| == |cells|
  {
    seq(|cells|, i requires 0 <= i < |cells| => Point(cells[i].0, cells[i].1))
  }

  /** Part two names it `(y, x)`: x is the column, y the row. */
  function ColumnRowPoints(cells: seq<(nat, nat)>): (ps: seq<Point>)
    ensures |ps| == |cells|
  {
    seq(|cells|, i requires 0 <= i < |cells| => Point(cells[i].1, cells[i].0))
  }

  /** `get_galaxy_locations(universe)`: the `#` cells as `Point(x=column,
      y=row)`, in row-major order; ValueError for an array without cells. */
  method GalaxyLocations(g: Grid) returns (r: Result<seq<Point>>)
    ensures r.Err? <==> ZeroSize(g)
    ensures r.Err? ==> r.failure == ValueError
    ensures r.Ok? ==> r.value == ColumnRowPoints(Galaxies(g))
    ensures r.Ok? ==> forall p :: p in r.value <==> p.x >= 0 && p.y >= 0 && IsGalaxy(g, p.y, p.x)
  {
    var scan := ScanGalaxies(g);
    if scan.Err? {
      return Err(scan.failure);
    }
    var cells := scan.value;
    var points := ColumnRowPoints(cells);
    GalaxiesAreHashes(g);
    forall p | p in points
      ensures p.x >= 0 && p.y >= 0 && IsGalaxy(g, p.y, p.x)
    {
      var i :| 0 <= i < |points| && points[i] == p;
      assert cells[i] in cells;
    }
    forall p: Point | p.x >= 0 && p.y >= 0 && IsGalaxy(g, p.y, p.x)
      ensures p in points
    {
      assert (p.y, p.x) in cells;
      var i :| 0 <= i < |cells| && cells[i] == (p.y, p.x);
      assert points[i] == p;
    }
    r := Ok(points);
  }

  // ---------------------------------------------------------------------------
  // Pairs and distances

  /** `combinations(xs, 2)`: every `(xs[i], xs[j])` with `i < j`, ordered by
      `i` and then `j`. */
  function Pairs<T>(xs: seq<T>): seq<(T, T)> {
    if xs == [] then [] else WithFirst(xs[0], xs[1..]) + Pairs(xs[1..])
  }

  /** `x` paired with every element of `rest`, in order. */
  function WithFirst<T>(x: T, rest: seq<T>): (ps: seq<(T, T)>)
    ensures |ps| == |rest|
  {
    seq(|rest|, k requires 0 <= k < |rest| => (x, rest[k]))
  }

  /** There are n·(n−1)/2 pairs. */
  lemma {:induction false} PairsCount<T>(xs: seq<T>)
    ensures 2 * |Pairs(xs)| == |xs| * (|xs| - 1)
  {
    if xs != [] {
      var n := |xs|;
      PairsCount(xs[1..]);
      assert 2 * |Pairs(xs)| == 2 * (n - 1) + (n - 1) * (n - 2);
    }
  }

  /** `p` is the pair of positions `i < j`. */
  ghost predicate PairAt<T>(xs: seq<T>, p: (T, T), i: nat, j: nat) {
    i < j < |xs| && p == (xs[i], xs[j])
  }

  /** The pairs are exactly the pairs of positions `i < j`. */
  lemma {:induction false} PairsAreCombinations<T>(xs: seq<T>)
    ensures forall p :: p in Pairs(xs) ==> exists i: nat, j: nat :: PairAt(xs, p, i, j)
    ensures forall p, i: nat, j: nat :: PairAt(xs, p, i, j) ==> p in Pairs(xs)
  {
    if xs != [] {
      var n := |xs|;
      var tail := xs[1..];
      PairsAreCombinations(tail);
      var first := WithFirst(xs[0], tail);
      forall p | p in Pairs(xs)
        ensures exists i: nat, j: nat :: PairAt(xs, p, i, j)
      {
        if p in first {
          var k :| 0 <= k < n - 1 && first[k] == p;
          assert tail[k] == xs[k + 1];
          assert PairAt(xs, p, 0, k + 1);
        } else {
          assert p in Pairs(tail);
          var i: nat, j: nat :| PairAt(tail, p, i, j);
          assert PairAt(xs, p, i + 1, j + 1);
        }
      }
      forall p, i: nat, j: nat | PairAt(xs, p, i, j)
        ensures p in Pairs(xs)
      {
        if i == 0 {
          assert first[j - 1] == p;
        } else {
          assert PairAt(tail, p, i - 1, j - 1);
        }
      }
    }
  }

  /** `sum(manhattan(*pair) for pair in pairs)`. */
  function TotalDistance(pairs: seq<(Point, Point)>): nat {
    if pairs == [] then 0
    else TotalDistance(pairs[..|pairs| - 1]) + Manhattan(pairs[|pairs| - 1].0, pairs[|pairs| - 1].1)
  }

  // ---------------------------------------------------------------------------
  // Moving the galaxies (part two)

  /** The coordinate on the axis being expanded: x for columns, y for rows. */
  function Coord(p: Point, byColumn: bool): int {
    if byColumn then p.x else p.y
  }

  function WithCoord(p: Point, byColumn: bool, v: int): (q: Point)
    ensures Coord(q, byColumn) == v && Coord(q, !byColumn) == Coord(p, !byColumn)
  {
    if byColumn then p.(x := v) else p.(y := v)
  }

  /** The loop of `get_expanded_points` for one expansion index `t`: every
      point whose coordinate lies beyond `t` moves on by `incr`. */
  function MovePast(points: seq<Point>, t: int, incr: int, byColumn: bool): (moved: seq<Point>)
    ensures |moved| == |points|
  {
    seq(|points|, k requires 0 <= k < |points| =>
      if Coord(points[k], byColumn) > t then WithCoord(points[k], byColumn, Coord(points[k], byColumn) + incr)
      else points[k])
  }

  /** `[i if i < t else i + incr for i in indexes]`. */
  function ShiftIndexes(indexes: seq<int>, t: int, incr: int): (shifted: seq<int>)
    ensures |shifted| == |indexes|
  {
    seq(|indexes|, k requires 0 <= k < |indexes| => if indexes[k] < t then indexes[k] else indexes[k] + incr)
  }

  /** `get_expanded_points(points, incr, idx, row_indexes, column_indexes,
      row_or_column)` on values: the rows phase moves the points past each
      remaining row index and shifts the indexes, then the columns phase does
      the same with the column indexes. */
  function ExpandedPoints(points: seq<Point>, incr: int, idx: nat, rows: seq<int>, cols: seq<int>, byColumn: bool): seq<Point>
    requires idx <= if byColumn then |cols| else |rows|
    decreases if byColumn then 0 else 1, (if byColumn then |cols| else |rows|) - idx
  {
    if byColumn && idx == |cols| then points
    else if !byColumn && idx == |rows| then ExpandedPoints(points, incr, 0, rows, cols, true)
    else if !byColumn then
      ExpandedPoints(MovePast(points, rows[idx], incr, false), incr, idx + 1, ShiftIndexes(rows, rows[idx], incr), cols, false)
    else
      ExpandedPoints(MovePast(points, cols[idx], incr, true), incr, idx + 1, rows, ShiftIndexes(cols, cols[idx], incr), true)
  }

  /** How many of `indexes` lie below `v`. */
  function CountBelow(indexes: seq<int>, v: int): (n: nat)
    ensures n <= |indexes|
  {
    if indexes == [] then 0
    else CountBelow(indexes[..|indexes| - 1], v) + (if indexes[|indexes| - 1] < v then 1 else 0)
  }

  lemma {:induction false} CountBelowAll(indexes: seq<int>, v: int)
    requires forall k :: 0 <= k < |indexes| ==> indexes[k] < v
    ensures CountBelow(indexes, v) == |indexes|
  {
    if indexes != [] {
      CountBelowAll(indexes[..|indexes| - 1], v);
    }
  }

  /** The independent description of the expansion on one axis: every point
      moves by `incr` per index below its coordinate. */
  function Displaced(points: seq<Point>, indexes: seq<int>, incr: int, byColumn: bool): (moved: seq<Point>)
    ensures |moved| == |points|
  {
    seq(|points|, k requires 0 <= k < |points| =>
      WithCoord(points[k], byColumn, Coord(points[k], byColumn) + incr * CountBelow(indexes, Coord(points[k], byColumn))))
  }

  predicate Increasing(xs: seq<int>) {
    forall i, j :: 0 <= i < j < |xs| ==> xs[i] < xs[j]
  }

  function Min(a: nat, b: nat): nat { if a < b then a else b }

  /** The indexes after the first `idx` steps of a phase: each earlier step
      shifted its own index and every later one by `incr`. */
  function ShiftedAfter(indexes: seq<int>, incr: int, idx: nat): (shifted: seq<int>)
    ensures |shifted| == |indexes|
  {
    seq(|indexes|, k requires 0 <= k < |indexes| => indexes[k] + incr * Min(k + 1, idx))
  }

  lemma MulMonotone(incr: int, a: int, b: int)
    requires incr >= 0 && a <= b
    ensures incr * a <= incr * b
  {
  }

  lemma MulSucc(incr: int, a: int)
    ensures incr * a + incr == incr * (a + 1)
  {
  }

  /** One step of a phase: the point at coordinate `v`, already moved past the
      first `idx` indexes, lies beyond the shifted index `idx` exactly when `v`
      lies beyond the original one. */
  lemma StepMovesPoint(p: Point, indexes: seq<int>, incr: int, idx: nat, byColumn: bool)
    requires Increasing(indexes) && incr >= 0 && idx < |indexes|
    ensures var v := Coord(p, byColumn);
            var c := CountBelow(indexes[..idx], v);
            var t := indexes[idx] + incr * idx;
            (v + incr * c > t <==> indexes[idx] < v)
            && CountBelow(indexes[..idx + 1], v) == c + (if indexes[idx] < v then 1 else 0)
  {
    var v := Coord(p, byColumn);
    var c := CountBelow(indexes[..idx], v);
    assert indexes[..idx + 1][..idx] == indexes[..idx];
    if indexes[idx] < v {
      CountBelowAll(indexes[..idx], v);
    } else {
      MulMonotone(incr, c, idx);
    }
  }

  lemma {:induction false} PhaseStep(points: seq<Point>, indexes: seq<int>, incr: int, idx: nat, byColumn: bool)
    requires Increasing(indexes) && incr >= 0 && idx < |indexes|
    ensures ShiftedAfter(indexes, incr, idx)[idx] == indexes[idx] + incr * idx
    ensures MovePast(Displaced(points, indexes[..idx], incr, byColumn), indexes[idx] + incr * idx, incr, byColumn)
         == Displaced(points, indexes[..idx + 1], incr, byColumn)
    ensures ShiftIndexes(ShiftedAfter(indexes, incr, idx), indexes[idx] + incr * idx, incr)
         == ShiftedAfter(indexes, incr, idx + 1)
  {
    var t := indexes[idx] + incr * idx;
    var before := Displaced(points, indexes[..idx], incr, byColumn);
    var after := MovePast(before, t, incr, byColumn);
    forall k | 0 <= k < |points|
      ensures after[k] == Displaced(points, indexes[..idx + 1], incr, byColumn)[k]
    {
      var v := Coord(points[k], byColumn);
      StepMovesPoint(points[k], indexes, incr, idx, byColumn);
      MulSucc(incr, CountBelow(indexes[..idx], v));
    }
    var shifted := ShiftIndexes(ShiftedAfter(indexes, incr, idx), t, incr);
    forall k | 0 <= k < |indexes|
      ensures shifted[k] == ShiftedAfter(indexes, incr, idx + 1)[k]
    {
      if k < idx {
        MulMonotone(incr, k + 1, idx);
      } else {
        MulSucc(incr, idx);
      }
    }
  }

  lemma ShiftedAfterNone(indexes: seq<int>, incr: int)
    ensures ShiftedAfter(indexes, incr, 0) == indexes
  {
  }

  lemma DisplacedByNone(points: seq<Point>, incr: int, byColumn: bool)
    ensures Displaced(points, [], incr, byColumn) == points
  {
  }

  /** The columns phase, from any step on, moves every point by `incr` per
      column index left of it. */
  lemma {:induction false} ColumnsPhaseMoves(points: seq<Point>, incr: int, idx: nat, rows: seq<int>, cols: seq<int>)
    requires Increasing(cols) && incr >= 0 && idx <= |cols|
    ensures ExpandedPoints(Displaced(points, cols[..idx], incr, true), incr, idx, rows, ShiftedAfter(cols, incr, idx), true)
         == Displaced(points, cols, incr, true)
    decreases |cols| - idx
  {
    if idx == |cols| {
      assert cols[..idx] == cols;
    } else {
      PhaseStep(points, cols, incr, idx, true);
      ColumnsPhaseMoves(points, incr, idx + 1, rows, cols);
    }
  }

  /** The rows phase, from any step on, moves every point by `incr` per row
      index above it, and the columns phase that follows by `incr` per column
      index left of it. */
  lemma {:induction false} RowsPhaseMoves(points: seq<Point>, incr: int, idx: nat, rows: seq<int>, cols: seq<int>)
    requires Increasing(rows) && Increasing(cols) && incr >= 0 && idx <= |rows|
    ensures ExpandedPoints(Displaced(points, rows[..idx], incr, false), incr, idx, ShiftedAfter(rows, incr, idx), cols, false)
         == Displaced(Displaced(points, rows, incr, false), cols, incr, true)
    decreases |rows| - idx
  {
    if idx == |rows| {
      assert rows[..idx] == rows;
      var moved := Displaced(points, rows, incr, false);
      ShiftedAfterNone(cols, incr);
      DisplacedByNone(moved, incr, true);
      assert cols[..0] == [];
      ColumnsPhaseMoves(moved, incr, 0, ShiftedAfter(rows, incr, idx), cols);
    } else {
      PhaseStep(points, rows, incr, idx, false);
      RowsPhaseMoves(points, incr, idx + 1, rows, cols);
    }
  }

  /** `get_expanded_points(points, incr, 0, rows, columns, 0)` with increasing
      index lists moves every point down by `incr` per row index above it and
      right by `incr` per column index left of it; it keeps the number and the
      order of the points. */
  lemma ExpandedPointsDisplace(points: seq<Point>, incr: int, rows: seq<int>, cols: seq<int>)
    requires Increasing(rows) && Increasing(cols) && incr >= 0
    ensures ExpandedPoints(points, incr, 0, rows, cols, false)
         == Displaced(Displaced(points, rows, incr, false), cols, incr, true)
    ensures |ExpandedPoints(points, incr, 0, rows, cols, false)| == |points|
  {
    ShiftedAfterNone(rows, incr);
    DisplacedByNone(points, incr, false);
    assert rows[..0] == [];
    RowsPhaseMoves(points, incr, 0, rows, cols);
  }

  /** `get_expanded_points` as the source runs it: the list of points is
      updated in place, one point at a time, on every step of both phases. */
  method ExpandPoints(points: array<Point>, incr: int, idx: nat, rows: seq<int>, cols: seq<int>, byColumn: bool)
    requires idx <= if byColumn then |cols| else |rows|
    modifies points
    ensures points[..] == ExpandedPoints(old(points[..]), incr, idx, rows, cols, byColumn)
    decreases if byColumn then 0 else 1, (if byColumn then |cols| else |rows|) - idx
  {
    if byColumn && idx == |cols| {
      return;
    }
    if !byColumn && idx == |rows| {
      ExpandPoints(points, incr, 0, rows, cols, true);
      return;
    }
    var t := if byColumn then cols[idx] else rows[idx];
    MovePastInPlace(points, t, incr, byColumn);
    if byColumn {
      ExpandPoints(points, incr, idx + 1, rows, ShiftIndexes(cols, t, incr), true);
    } else {
      ExpandPoints(points, incr, idx + 1, ShiftIndexes(rows, t, incr), cols, false);
    }
  }

  /** The loop `for i, p in enumerate(points): if p.y > t: points[i] = ...`
      (or with `x` for columns). */
  method MovePastInPlace(points: array<Point>, t: int, incr: int, byColumn: bool)
    modifies points
    ensures points[..] == MovePast(old(points[..]), t, incr, byColumn)
  {
    ghost var before := points[..];
    ghost var moved := MovePast(before, t, incr, byColumn);
    for i := 0 to points.Length
      invariant forall k :: 0 <= k < i ==> points[k] == moved[k]
      invariant forall k :: i <= k < points.Length ==> points[k] == before[k]
    {
      var p := points[i];
      if Coord(p, byColumn) > t {
        points[i] := WithCoord(p, byColumn, Coord(p, byColumn) + incr);
      }
    }
    assert points[..] == moved;
  }

  lemma {:induction false} BlankRowsIncreasing(g: Grid)
    ensures Increasing(BlankRows(g))
    ensures forall k :: 0 <= k < |BlankRows(g)| ==> 0 <= BlankRows(g)[k] < |g|
  {
    if g != [] {
      BlankRowsIncreasing(g[..|g| - 1]);
    }
  }

  lemma {:induction false} BlankColumnsIncreasing(g: Grid, n: nat)
    ensures Increasing(BlankColumnsUpTo(g, n))
    ensures forall k :: 0 <= k < |BlankColumnsUpTo(g, n)| ==> 0 <= BlankColumnsUpTo(g, n)[k] < n
  {
    if n > 0 {
      BlankColumnsIncreasing(g, n - 1);
    }
  }

  // ---------------------------------------------------------------------------
  // The two parts

  /** Part one: expand the grid and sum the distances over all pairs of
      galaxies, with the points named `(x=row, y=column)`. */
  function PartOne(input: string): Result<nat> {
    match Universe(input)
    case Err(e) => Err(e)
    case Ok(g) =>
      var u := ExpandedUniverse(g, 0, false);
      if ZeroSize(u) then Err(ValueError)
      else Ok(TotalDistance(Pairs(RowColumnPoints(Galaxies(u)))))
  }

  /** `get_point_combinations(universe)`: the scan, then every pair of the
      `#` cells found, n·(n−1)/2 of them for n cells; ValueError for an array
      without cells. */
  method PointCombinations(g: Grid) returns (r: Result<seq<(Point, Point)>>)
    ensures r.Err? <==> ZeroSize(g)
    ensures r.Err? ==> r.failure == ValueError
    ensures r.Ok? ==> r.value == Pairs(RowColumnPoints(Galaxies(g)))
    ensures r.Ok? ==> 2 * |r.value| == |Galaxies(g)| * (|Galaxies(g)| - 1)
  {
    var scan := ScanGalaxies(g);
    if scan.Err? {
      return Err(scan.failure);
    }
    r := Ok(Pairs(RowColumnPoints(scan.value)));
    PairsCount(RowColumnPoints(scan.value));
  }

  /** `solve_part_one`. */
  method SolvePartOne(input: string) returns (r: Result<nat>)
    ensures r == PartOne(input)
  {
    var u := Universe(input);
    if u.Err? {
      return Err(u.failure);
    }
    var universe := ExpandedUniverse(u.value, 0, false);
    var pairs := PointCombinations(universe);
    if pairs.Err? {
      return Err(pairs.failure);
    }
    r := Ok(TotalDistance(pairs.value));
  }

  /** The expanded universe has a cell exactly when the universe has one. */
  lemma ExpandedZeroSize(g: Grid)
    requires Rectangular(g) && g != []
    ensures ZeroSize(ExpandedUniverse(g, 0, false)) <==> ZeroSize(g)
  {
    ExpandedShape(g);
  }

  /** Part one sums the distances between the galaxies of the grid with every
      blank row and every blank column doubled, and raises ValueError for a
      grid without cells. */
  lemma PartOneOnExpanded(input: string)
    requires Universe(input).Ok?
    ensures ZeroSize(Universe(input).value) ==> PartOne(input) == Err(ValueError)
    ensures !ZeroSize(Universe(input).value) ==>
              PartOne(input) == Ok(TotalDistance(Pairs(RowColumnPoints(Galaxies(Expanded(Universe(input).value))))))
  {
    ExpandedUniverseDoubles(Universe(input).value);
    ExpandedZeroSize(Universe(input).value);
  }

  const Increment := 1000000 - 1

  /** Part two on values: move the galaxies past the blank rows and columns,
      `int(1e6) - 1` further per blank line, and sum the distances over all
      pairs. */
  function PartTwo(input: string): Result<nat> {
    match Universe(input)
    case Err(e) => Err(e)
    case Ok(g) =>
      if ZeroSize(g) then Err(ValueError)
      else Ok(TotalDistance(Pairs(ExpandedPoints(ColumnRowPoints(Galaxies(g)), Increment, 0, BlankRows(g), BlankColumns(g), false))))
  }

  /** Part two moves every galaxy a million rows down per blank row above it
      and a million columns right per blank column left of it, counting the
      blank line itself; a grid without cells raises ValueError. */
  lemma PartTwoDisplaces(input: string)
    requires Universe(input).Ok?
    ensures ZeroSize(Universe(input).value) ==> PartTwo(input) == Err(ValueError)
    ensures var g := Universe(input).value;
            !ZeroSize(g) ==> PartTwo(input) == Ok(TotalDistance(Pairs(
              Displaced(Displaced(ColumnRowPoints(Galaxies(g)), BlankRows(g), Increment, false), BlankColumns(g), Increment, true))))
  {
    var g := Universe(input).value;
    BlankRowsIncreasing(g);
    BlankColumnsIncreasing(g, Width(g));
    ExpandedPointsDisplace(ColumnRowPoints(Galaxies(g)), Increment, BlankRows(g), BlankColumns(g));
  }

  /** An empty input is one row with no cell: `np.nditer` refuses it in both
      parts. */
  lemma EmptyInputRaises()
    ensures PartOne("") == Err(ValueError)
    ensures PartTwo("") == Err(ValueError)
  {
    Text.SplitWithoutChar("", '\n');
    assert Universe("") == Ok([""]);
    ExpandedZeroSize([""]);
  }

  /** `solve_part_two`, with the points held in a list updated in place. */
  method SolvePartTwo(input: string) returns (r: Result<nat>)
    ensures r == PartTwo(input)
  {
    var u := Universe(input);
    if u.Err? {
      return Err(u.failure);
    }
    var g := u.value;
    var locations := GalaxyLocations(g);
    if locations.Err? {
      return Err(locations.failure);
    }
    var located := locations.value;
    var points := new Point[|located|](i requires 0 <= i < |located| => located[i]);
    assert points[..] == located;
    ExpandPoints(points, Increment, 0, BlankRows(g), BlankColumns(g), false);
    r := Ok(TotalDistance(Pairs(points[..])));
  }
}
