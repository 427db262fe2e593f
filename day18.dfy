/** Day 18: a dig plan traced as a polyline on a grid, a parity test for
    points inside the trench, and a flood fill of the lagoon
    (adventofcode2023/days/day18.py). */
module Day18 {
  import opened Wrappers
  import Text
  import Sums
  import opened Grids

  datatype Direction = Right | Left | Up | Down

  /** The letter a direction is written as in the plan. */
  function Letter(d: Direction): (s: string)
    ensures |s| == 1 && s[0] != ' '
  {
    match d {
      case Right => "R"
      case Left => "L"
      case Up => "U"
      case Down => "D"
    }
  }

  /** One line of the dig plan. */
  datatype DigOperation = DigOperation(dir: Direction, meters: int, color: string)

  datatype Point = Point(x: int, y: int)

  // ---------------------------------------------------------------------------
  // The polyline

  /** The point one operation leads to from `p`. */
  function Move(p: Point, op: DigOperation): Point
  {
    match op.dir {
      case Left => Point(p.x - op.meters, p.y)
      case Right => Point(p.x + op.meters, p.y)
      case Up => Point(p.x, p.y - op.meters)
      case Down => Point(p.x, p.y + op.meters)
    }
  }

  /** The corners of the trench: the origin, then one point per operation. */
  function Polyline(ops: seq<DigOperation>): (points: seq<Point>)
    ensures |points| == |ops| + 1
  {
    if ops == [] then [Point(0, 0)]
    else
      var init := Polyline(ops[..|ops| - 1]);
      init + [Move(init[|init| - 1], ops[|ops| - 1])]
  }

  /** The polyline starts at the origin and each operation moves from one
      corner to the next. */
  lemma {:induction false} PolylineSteps(ops: seq<DigOperation>)
    ensures Polyline(ops)[0] == Point(0, 0)
    ensures forall k :: 0 <= k < |ops| ==> Polyline(ops)[k + 1] == Move(Polyline(ops)[k], ops[k])
  {
    if ops != [] {
      var init := ops[..|ops| - 1];
      PolylineSteps(init);
      assert forall k :: 0 <= k < |init| ==> init[k] == ops[k];
    }
  }

  /** `get_grid_points`: one appended point per operation. */
  method GridPoints(ops: seq<DigOperation>) returns (points: seq<Point>)
    ensures points == Polyline(ops)
  {
    var p := Point(0, 0);
    points := [p];
    for k := 0 to |ops|
      invariant points == Polyline(ops[..k]) && p == points[k]
    {
      p := Move(p, ops[k]);
      assert ops[..k + 1][..k] == ops[..k];
      points := points + [p];
    }
    assert ops[..|ops|] == ops;
  }

  /** The corners of the plan `L 4, D 5, R 2, U 8`. */
  lemma PolylineExample()
    ensures Polyline([DigOperation(Left, 4, ""), DigOperation(Down, 5, ""), DigOperation(Right, 2, ""), DigOperation(Up, 8, "")])
            == [Point(0, 0), Point(-4, 0), Point(-4, 5), Point(-2, 5), Point(-2, -3)]
  {
    var ops := [DigOperation(Left, 4, ""), DigOperation(Down, 5, ""), DigOperation(Right, 2, ""), DigOperation(Up, 8, "")];
    assert ops[..3][..2] == ops[..2] && ops[..2][..1] == ops[..1] && ops[..1][..0] == [];
    assert Polyline(ops[..1]) == [Point(0, 0), Point(-4, 0)];
    assert Polyline(ops[..2]) == [Point(0, 0), Point(-4, 0), Point(-4, 5)];
    assert Polyline(ops[..3]) == [Point(0, 0), Point(-4, 0), Point(-4, 5), Point(-2, 5)];
  }

  // ---------------------------------------------------------------------------
  // Digging the trench

  /** A numpy integer index into an axis of length `n`: negative indexes
      count from the end. */
  function Index(i: int, n: nat): (r: nat)
    requires 0 <= i + n && i < n
    ensures r < n && (0 <= i ==> r == i)
  {
    if i < 0 then i + n else i
  }

  /** Whether the integer index of one operation's slice assignment lies in
      the grid: the row for a horizontal operation, the column for a
      vertical one. */
  predicate IndexValid(op: DigOperation, p: Point, h: nat, w: nat)
  {
    if Horizontal(op) then 0 <= p.y + h && p.y < h else 0 <= p.x + w && p.x < w
  }

  predicate Horizontal(op: DigOperation)
  {
    op.dir == Left || op.dir == Right
  }

  /** The row (horizontal operation) or column (vertical one) that one
      operation's slice assignment marks. */
  function Line(op: DigOperation, p: Point, h: nat, w: nat): (r: nat)
    requires IndexValid(op, p, h, w)
    ensures if Horizontal(op) then r < h else r < w
  {
    if Horizontal(op) then Index(p.y, h) else Index(p.x, w)
  }

  /** The slice bounds of one operation from corner `p`, normalised as
      numpy does: `L` marks `x-m .. x+1`, `R` `x .. x+m`, `U` `y-m .. y+1`
      and `D` `y .. y+m`, each up to but excluding the upper bound. */
  function Span(op: DigOperation, p: Point, h: nat, w: nat): (r: (nat, nat))
    ensures Horizontal(op) ==> r.1 <= w
    ensures !Horizontal(op) ==> r.1 <= h
  {
    match op.dir {
      case Left => (Text.SliceBound(p.x - op.meters, w), Text.SliceBound(p.x + 1, w))
      case Right => (Text.SliceBound(p.x, w), Text.SliceBound(p.x + op.meters, w))
      case Up => (Text.SliceBound(p.y - op.meters, h), Text.SliceBound(p.y + 1, h))
      case Down => (Text.SliceBound(p.y, h), Text.SliceBound(p.y + op.meters, h))
    }
  }

  /** Whether the slice assignment of one operation marks cell `(i, j)`. */
  predicate Covers(op: DigOperation, p: Point, h: nat, w: nat, i: nat, j: nat)
    requires IndexValid(op, p, h, w)
  {
    var span := Span(op, p, h, w);
    if Horizontal(op) then i == Line(op, p, h, w) && span.0 <= j < span.1
    else j == Line(op, p, h, w) && span.0 <= i < span.1
  }

  /** How many (operation, corner) pairs `zip(operations, points[:-1])`
      gives. */
  function Zipped(points: seq<Point>, ops: seq<DigOperation>): (n: nat)
    ensures n <= |ops| && n <= |points|
  {
    if |points| == 0 then 0 else if |ops| < |points| - 1 then |ops| else |points| - 1
  }

  /** Cell `(i, j)` after the first `n` slice assignments: `#` when one of
      them covers it, `.` otherwise. */
  function DugCell(points: seq<Point>, ops: seq<DigOperation>, n: nat, h: nat, w: nat, i: nat, j: nat): char
    requires n <= |ops| && n <= |points|
    requires forall k :: 0 <= k < n ==> IndexValid(ops[k], points[k], h, w)
  {
    if n == 0 then '.'
    else if Covers(ops[n - 1], points[n - 1], h, w, i, j) then '#'
    else DugCell(points, ops, n - 1, h, w, i, j)
  }

  /** A cell is dug exactly when some operation covers it, and every other
      cell keeps the fill value `.`. */
  lemma {:induction false} DugCellCovered(points: seq<Point>, ops: seq<DigOperation>, n: nat, h: nat, w: nat, i: nat, j: nat)
    requires n <= |ops| && n <= |points|
    requires forall k :: 0 <= k < n ==> IndexValid(ops[k], points[k], h, w)
    ensures DugCell(points, ops, n, h, w, i, j) == '#' <==> exists k :: 0 <= k < n && Covers(ops[k], points[k], h, w, i, j)
    ensures DugCell(points, ops, n, h, w, i, j) in {'#', '.'}
  {
    if n > 0 {
      DugCellCovered(points, ops, n - 1, h, w, i, j);
    }
  }

  /** The trench as a grid of `h` rows of `w` cells. */
  function Dug(h: nat, w: nat, points: seq<Point>, ops: seq<DigOperation>): (g: Grid)
    requires forall k :: 0 <= k < Zipped(points, ops) ==> IndexValid(ops[k], points[k], h, w)
    ensures |g| == h && forall i :: 0 <= i < h ==> |g[i]| == w
  {
    seq(h, i requires 0 <= i < h =>
      seq(w, j requires 0 <= j < w => DugCell(points, ops, Zipped(points, ops), h, w, i, j)))
  }

  /** `get_grid`: a negative shape raises ValueError, an operation whose
      row or column index lies outside the grid raises IndexError, and
      otherwise the grid is the trench. */
  function DigPlan(height: int, width: int, points: seq<Point>, ops: seq<DigOperation>): (r: Result<Grid>)
    ensures r == Err(ValueError) <==> height < 0 || width < 0
    ensures r == Err(IndexError) <==>
      (height >= 0 && width >= 0 && exists k :: 0 <= k < Zipped(points, ops) && !IndexValid(ops[k], points[k], height, width))
    ensures r.Ok? ==> height >= 0 && width >= 0 && |r.value| == height
    ensures r.Ok? ==> forall k :: 0 <= k < Zipped(points, ops) ==> IndexValid(ops[k], points[k], height, width)
    ensures r.Ok? ==> forall i :: 0 <= i < height ==> |r.value[i]| == width
    ensures r.Ok? ==> forall i, j :: 0 <= i < height && 0 <= j < width ==>
      (r.value[i][j] == '#' <==> exists k :: 0 <= k < Zipped(points, ops) && Covers(ops[k], points[k], height, width, i, j))
  {
    if height < 0 || width < 0 then Err(ValueError)
    else if !forall k :: 0 <= k < Zipped(points, ops) ==> IndexValid(ops[k], points[k], height, width) then Err(IndexError)
    else
      var g := Dug(height, width, points, ops);
      assert forall i, j :: 0 <= i < height && 0 <= j < width ==>
        (g[i][j] == '#' <==> exists k :: 0 <= k < Zipped(points, ops) && Covers(ops[k], points[k], height, width, i, j)) by {
        forall i, j | 0 <= i < height && 0 <= j < width
          ensures g[i][j] == '#' <==> exists k :: 0 <= k < Zipped(points, ops) && Covers(ops[k], points[k], height, width, i, j)
        {
          DugCellCovered(points, ops, Zipped(points, ops), height, width, i, j);
        }
      }
      Ok(g)
  }

  /** The cells of an array, row by row. */
  function Cells(grid: array2<char>): (g: Grid)
    reads grid
    ensures |g| == grid.Length0 && Rectangular(g)
    ensures forall i :: 0 <= i < grid.Length0 ==> |g[i]| == grid.Length1
    ensures forall i, j :: 0 <= i < grid.Length0 && 0 <= j < grid.Length1 ==> g[i][j] == grid[i, j]
  {
    seq(grid.Length0, i requires 0 <= i < grid.Length0 reads grid =>
      seq(grid.Length1, j requires 0 <= j < grid.Length1 reads grid => grid[i, j]))
  }

  /** A dug grid has the requested shape. */
  lemma DigPlanShape(height: int, width: int, points: seq<Point>, ops: seq<DigOperation>, grid: array2<char>)
    requires DigPlan(height, width, points, ops) == Ok(Cells(grid))
    ensures grid.Length0 == height && (height > 0 ==> grid.Length1 == width)
  {
    if height > 0 {
      assert |Cells(grid)[0]| == grid.Length1;
    }
  }

  /** Two grids with the same shape and cells are equal. */
  lemma SameGrid(a: Grid, b: Grid)
    requires |a| == |b| && forall i :: 0 <= i < |a| ==> |a[i]| == |b[i]|
    requires forall i, j :: 0 <= i < |a| && 0 <= j < |a[i]| ==> a[i][j] == b[i][j]
    ensures a == b
  {
    forall i | 0 <= i < |a|
      ensures a[i] == b[i]
    {
    }
  }

  /** `grid[row, lo:hi] = '#'` for normalised bounds. */
  method MarkRow(grid: array2<char>, row: nat, lo: nat, hi: nat)
    requires row < grid.Length0 && hi <= grid.Length1
    modifies grid
    ensures forall i, j :: 0 <= i < grid.Length0 && 0 <= j < grid.Length1 ==>
      grid[i, j] == if i == row && lo <= j < hi then '#' else old(grid[i, j])
  {
    var c := lo;
    while c < hi
      invariant lo <= c && (c == lo || c <= hi)
      invariant forall i, j :: 0 <= i < grid.Length0 && 0 <= j < grid.Length1 ==>
        grid[i, j] == if i == row && lo <= j < c then '#' else old(grid[i, j])
    {
      grid[row, c] := '#';
      c := c + 1;
    }
  }

  /** `grid[lo:hi, column] = '#'` for normalised bounds. */
  method MarkColumn(grid: array2<char>, column: nat, lo: nat, hi: nat)
    requires column < grid.Length1 && hi <= grid.Length0
    modifies grid
    ensures forall i, j :: 0 <= i < grid.Length0 && 0 <= j < grid.Length1 ==>
      grid[i, j] == if j == column && lo <= i < hi then '#' else old(grid[i, j])
  {
    var c := lo;
    while c < hi
      invariant lo <= c && (c == lo || c <= hi)
      invariant forall i, j :: 0 <= i < grid.Length0 && 0 <= j < grid.Length1 ==>
        grid[i, j] == if j == column && lo <= i < c then '#' else old(grid[i, j])
    {
      grid[c, column] := '#';
      c := c + 1;
    }
  }

  /** `get_grid` as the source runs it: a grid of `.`, then one slice
      assignment of `#` per operation. */
  method GetGrid(height: int, width: int, points: seq<Point>, ops: seq<DigOperation>) returns (r: Result<array2<char>>)
    ensures r.Err? ==> DigPlan(height, width, points, ops) == Err(r.failure)
    ensures r.Ok? ==> fresh(r.value) && DigPlan(height, width, points, ops) == Ok(Cells(r.value))
  {
    if height < 0 || width < 0 {
      return Err(ValueError);
    }
    var h: nat, w: nat := height, width;
    var grid := new char[h, w]((i, j) => '.');
    var n := Zipped(points, ops);
    for k := 0 to n
      invariant grid.Length0 == h && grid.Length1 == w
      invariant forall k' :: 0 <= k' < k ==> IndexValid(ops[k'], points[k'], h, w)
      invariant forall i, j :: 0 <= i < h && 0 <= j < w ==> grid[i, j] == DugCell(points, ops, k, h, w, i, j)
    {
      var op, p := ops[k], points[k];
      if !IndexValid(op, p, h, w) {
        return Err(IndexError);
      }
      var span := Span(op, p, h, w);
      if Horizontal(op) {
        MarkRow(grid, Line(op, p, h, w), span.0, span.1);
      } else {
        MarkColumn(grid, Line(op, p, h, w), span.0, span.1);
      }
    }
    SameGrid(Cells(grid), Dug(h, w, points, ops));
    return Ok(grid);
  }

  /** With both corners inside the grid, each operation marks exactly its
      segment: `R` the cells `x .. x+m-1` of row `y`, `L` the cells
      `x-m .. x`, `U` the rows `y-m .. y` of column `x`, `D` the rows
      `y .. y+m-1`. */
  lemma SegmentCells(op: DigOperation, p: Point, h: nat, w: nat, i: nat, j: nat)
    requires 0 <= p.x < w && 0 <= p.y < h
    requires 0 <= Move(p, op).x < w && 0 <= Move(p, op).y < h
    ensures IndexValid(op, p, h, w)
    ensures Covers(op, p, h, w, i, j) <==> match op.dir {
      case Right => i == p.y && p.x <= j < p.x + op.meters
      case Left => i == p.y && p.x - op.meters <= j <= p.x
      case Up => j == p.x && p.y - op.meters <= i <= p.y
      case Down => j == p.x && p.y <= i < p.y + op.meters
    }
  {
  }

  // ---------------------------------------------------------------------------
  // Inside the trench

  /** `np.count_nonzero(grid[a:b, x] == '#')` for normalised bounds. */
  function ColumnHashes(g: Grid, x: nat, a: nat, b: nat): nat
    requires Rectangular(g) && x < Width(g)
    decreases b
  {
    if b <= a then 0
    else ColumnHashes(g, x, a, b - 1) + if b - 1 < |g| && g[b - 1][x] == '#' then 1 else 0
  }

  /** `np.count_nonzero(grid[y, a:b] == '#')` for normalised bounds. */
  function RowHashes(g: Grid, y: nat, a: nat, b: nat): nat
    requires Rectangular(g) && y < |g|
    decreases b
  {
    if b <= a then 0
    else RowHashes(g, y, a, b - 1) + if b - 1 < Width(g) && g[y][b - 1] == '#' then 1 else 0
  }

  /** Counting a column is the number of its `#` cells in the range. */
  lemma {:induction false} ColumnHashesCount(g: Grid, x: nat, a: nat, b: nat)
    requires Rectangular(g) && x < Width(g) && b <= |g|
    ensures ColumnHashes(g, x, a, b) == |set i | a <= i < b && g[i][x] == '#'|
    decreases b
  {
    if b > a {
      ColumnHashesCount(g, x, a, b - 1);
      var before := set i | a <= i < b - 1 && g[i][x] == '#';
      if g[b - 1][x] == '#' {
        assert (set i | a <= i < b && g[i][x] == '#') == before + {b - 1};
      } else {
        assert (set i | a <= i < b && g[i][x] == '#') == before;
      }
    }
  }

  /** Counting a row is the number of its `#` cells in the range. */
  lemma {:induction false} RowHashesCount(g: Grid, y: nat, a: nat, b: nat)
    requires Rectangular(g) && y < |g| && b <= Width(g)
    ensures RowHashes(g, y, a, b) == |set j | a <= j < b && g[y][j] == '#'|
    decreases b
  {
    if b > a {
      RowHashesCount(g, y, a, b - 1);
      var before := set j | a <= j < b - 1 && g[y][j] == '#';
      if g[y][b - 1] == '#' {
        assert (set j | a <= j < b && g[y][j] == '#') == before + {b - 1};
      } else {
        assert (set j | a <= j < b && g[y][j] == '#') == before;
      }
    }
  }

  /** `inside_trench`: the `#` counts on the four rays from `p` (up, down,
      left, right, each including `p`) must all be odd, and the test stops at
      the first even count.  Column `p.x` is indexed first and row `p.y` only
      for the left ray, so an index outside the grid raises IndexError only
      when the test gets that far; negative indexes count from the end and
      slice bounds are clamped, as numpy does. */
  function InsideTrench(g: Grid, p: Point): (r: Result<bool>)
    requires Rectangular(g)
    ensures r.Err? ==> r.failure == IndexError && !InGrid(g, p)
    ensures r == Ok(true) ==> 0 <= p.x + Width(g) && p.x < Width(g) && 0 <= p.y + |g| && p.y < |g|
  {
    var h, w := |g|, Width(g);
    if !(0 <= p.x + w && p.x < w) then Err(IndexError)
    else
      var x := Index(p.x, w);
      if ColumnHashes(g, x, 0, Text.SliceBound(p.y + 1, h)) % 2 != 1 then Ok(false)
      else if ColumnHashes(g, x, Text.SliceBound(p.y, h), h) % 2 != 1 then Ok(false)
      else if !(0 <= p.y + h && p.y < h) then Err(IndexError)
      else
        var y := Index(p.y, h);
        Ok(RowHashes(g, y, 0, Text.SliceBound(p.x + 1, w)) % 2 == 1 &&
           RowHashes(g, y, Text.SliceBound(p.x, w), w) % 2 == 1)
  }

  predicate InGrid(g: Grid, p: Point)
  {
    0 <= p.y < |g| && 0 <= p.x < Width(g)
  }

  /** For a point of the grid the test is exactly the parity of the four
      rays. */
  lemma InsideTrenchInGrid(g: Grid, p: Point)
    requires Rectangular(g) && InGrid(g, p)
    ensures InsideTrench(g, p) == Ok(
      |set i | 0 <= i <= p.y && g[i][p.x] == '#'| % 2 == 1 &&
      |set i | p.y <= i < |g| && g[i][p.x] == '#'| % 2 == 1 &&
      |set j | 0 <= j <= p.x && g[p.y][j] == '#'| % 2 == 1 &&
      |set j | p.x <= j < Width(g) && g[p.y][j] == '#'| % 2 == 1)
  {
    ColumnHashesCount(g, p.x, 0, p.y + 1);
    ColumnHashesCount(g, p.x, p.y, |g|);
    RowHashesCount(g, p.y, 0, p.x + 1);
    RowHashesCount(g, p.y, p.x, Width(g));
    assert (set i | 0 <= i < p.y + 1 && g[i][p.x] == '#') == (set i | 0 <= i <= p.y && g[i][p.x] == '#');
    assert (set j | 0 <= j < p.x + 1 && g[p.y][j] == '#') == (set j | 0 <= j <= p.x && g[p.y][j] == '#');
  }

  /** A point just above, just below or just left of the grid is never
      inside: one of its rays is empty.  A point just right of it makes the
      column index fail. */
  lemma BesideGrid(g: Grid, p: Point)
    requires Rectangular(g) && |g| > 0 && Width(g) > 0
    requires -1 <= p.x <= Width(g) && -1 <= p.y <= |g| && !InGrid(g, p)
    ensures InsideTrench(g, p) == if p.x == Width(g) then Err(IndexError) else Ok(false)
  {
    var h, w := |g|, Width(g);
    if p.x < w {
      if p.y != -1 && p.y != h {
        assert p.x == -1;
      }
    }
  }

  // ---------------------------------------------------------------------------
  // A starting point inside

  /** `product([1, 0, -1], repeat=2)`, in order. */
  const Offsets: seq<(int, int)> := [(1, 1), (1, 0), (1, -1), (0, 1), (0, 0), (0, -1), (-1, 1), (-1, 0), (-1, -1)]

  function Candidate(p: Point, k: nat): Point
    requires k < |Offsets|
  {
    Point(p.x + Offsets[k].0, p.y + Offsets[k].1)
  }

  /** The test on each candidate, in order. */
  function Tests(g: Grid, p: Point): (r: seq<Result<bool>>)
    requires Rectangular(g)
    ensures |r| == |Offsets|
    ensures forall i :: 0 <= i < |r| ==> r[i] == InsideTrench(g, Candidate(p, i)) && r[i] != Err(ValueError)
  {
    seq(|Offsets|, i requires 0 <= i < |Offsets| => InsideTrench(g, Candidate(p, i)))
  }

  /** From test `k` on: the index of the first test that accepts, the
      exception of the first test that raises, or ValueError when every
      test rejects. */
  function FirstAccepted(tests: seq<Result<bool>>, k: nat): (r: Result<nat>)
    requires k <= |tests|
    ensures r.Ok? ==> (k <= r.value < |tests| && tests[r.value] == Ok(true) &&
      forall i :: k <= i < r.value ==> tests[i] == Ok(false))
    ensures (forall i :: k <= i < |tests| ==> tests[i] == Ok(false)) ==> r == Err(ValueError)
    ensures r.Err? && (exists i :: k <= i < |tests| && tests[i] != Ok(false)) ==>
      exists j :: (k <= j < |tests| && tests[j] == Err(r.failure) && forall i :: k <= i < j ==> tests[i] == Ok(false))
    decreases |tests| - k
  {
    if k == |tests| then Err(ValueError)
    else match tests[k] {
      case Err(e) => Err(e)
      case Ok(inside) => if inside then Ok(k) else FirstAccepted(tests, k + 1)
    }
  }

  /** `get_point_inside` from offset `k` on: the first candidate the test
      accepts, the exception of the first test that raises, or ValueError
      when the test rejects every candidate. */
  function FirstInside(g: Grid, p: Point, k: nat): (r: Result<Point>)
    requires Rectangular(g) && k <= |Offsets|
    ensures r.Ok? ==> exists j :: (k <= j < |Offsets| && r.value == Candidate(p, j) &&
      InsideTrench(g, r.value) == Ok(true) && forall i :: k <= i < j ==> InsideTrench(g, Candidate(p, i)) == Ok(false))
    ensures r == Err(ValueError) <==> forall i :: k <= i < |Offsets| ==> InsideTrench(g, Candidate(p, i)) == Ok(false)
    ensures r.Err? && r.failure != ValueError ==> exists j :: (k <= j < |Offsets| &&
      InsideTrench(g, Candidate(p, j)) == Err(r.failure) && forall i :: k <= i < j ==> InsideTrench(g, Candidate(p, i)) == Ok(false))
  {
    match FirstAccepted(Tests(g, p), k) {
      case Ok(j) => Ok(Candidate(p, j))
      case Err(e) => Err(e)
    }
  }

  /** `get_point_inside` as the source runs it: a loop over the offsets that
      returns at the first accepted candidate. */
  method PointInside(grid: array2<char>, p: Point) returns (r: Result<Point>)
    ensures r == FirstInside(Cells(grid), p, 0)
  {
    var g := Cells(grid);
    ghost var tests := Tests(g, p);
    for k := 0 to |Offsets|
      invariant FirstAccepted(tests, 0) == FirstAccepted(tests, k)
    {
      var candidate := Candidate(p, k);
      var inside := InsideTrench(g, candidate);
      if inside.Err? {
        return Err(inside.failure);
      }
      if inside.value {
        return Ok(candidate);
      }
    }
    return Err(ValueError);
  }

  /** From a point of the grid, an accepted candidate lies in the grid too. */
  lemma FirstInsideInGrid(g: Grid, p: Point)
    requires Rectangular(g) && InGrid(g, p)
    ensures FirstInside(g, p, 0).Ok? ==> InGrid(g, FirstInside(g, p, 0).value)
  {
    var r := FirstInside(g, p, 0);
    if r.Ok? {
      var j :| 0 <= j < |Offsets| && r.value == Candidate(p, j) && InsideTrench(g, r.value) == Ok(true);
      var q := r.value;
      assert -1 <= q.x <= Width(g) && -1 <= q.y <= |g| by {
        assert -1 <= Offsets[j].0 <= 1 && -1 <= Offsets[j].1 <= 1;
      }
      if !InGrid(g, q) {
        BesideGrid(g, q);
      }
    }
  }

  /** A plan that starts on the right edge of its grid: the first candidate
      lies one column past the edge, and the test raises IndexError before
      any candidate inside the grid is tried. */
  lemma RightEdgeStartRaises()
    ensures FirstInside(["###", "#.#", "###"], Point(2, 1), 0) == Err(IndexError)
  {
    var g := ["###", "#.#", "###"];
    assert Candidate(Point(2, 1), 0) == Point(3, 2);
  }

  // ---------------------------------------------------------------------------
  // The flood fill

  /** The four neighbours in the order `fill_grid` looks at them: left,
      right, up, down. */
  function Neighbours(p: Point): seq<Point>
  {
    [Point(p.x - 1, p.y), Point(p.x + 1, p.y), Point(p.x, p.y - 1), Point(p.x, p.y + 1)]
  }

  /** A cell of the grid holding `.`. */
  predicate Open(g: Grid, p: Point)
    requires Rectangular(g)
  {
    InGrid(g, p) && g[p.y][p.x] == '.'
  }

  /** A path from `s` that steps between neighbours through `.` cells (the
      first cell may hold anything). */
  ghost predicate Path(g: Grid, s: Point, path: seq<Point>)
    requires Rectangular(g)
  {
    |path| >= 1 && path[0] == s &&
    forall i :: 1 <= i < |path| ==> Open(g, path[i]) && path[i] in Neighbours(path[i - 1])
  }

  ghost predicate Reaches(g: Grid, s: Point, p: Point)
    requires Rectangular(g)
  {
    exists path :: Path(g, s, path) && path[|path| - 1] == p
  }

  /** The cells of the grid that a path from `s` reaches. */
  ghost function Filled(g: Grid, s: Point): set<Point>
    requires Rectangular(g)
  {
    set x, y | 0 <= y < |g| && 0 <= x < Width(g) && Reaches(g, s, Point(x, y)) :: Point(x, y)
  }

  /** No `.` neighbour of a member of `S` lies outside `S`. */
  ghost predicate Closed(g: Grid, S: set<Point>)
    requires Rectangular(g)
  {
    forall p, k :: p in S && 0 <= k < 4 && Open(g, Neighbours(p)[k]) ==> Neighbours(p)[k] in S
  }

  /** `R` holds `s`, is closed, and lies within every closed set that holds
      `s`. */
  ghost predicate Least(g: Grid, s: Point, R: set<Point>)
    requires Rectangular(g)
  {
    s in R && Closed(g, R) && forall S :: s in S && Closed(g, S) ==> R <= S
  }

  /** Extending a path by an open neighbour of its end. */
  lemma PathExtends(g: Grid, s: Point, path: seq<Point>, n: Point)
    requires Rectangular(g) && Path(g, s, path)
    requires Open(g, n) && n in Neighbours(path[|path| - 1])
    ensures Path(g, s, path + [n])
  {
    var longer := path + [n];
    forall i | 1 <= i < |longer|
      ensures Open(g, longer[i]) && longer[i] in Neighbours(longer[i - 1])
    {
      if i < |path| {
        assert longer[i] == path[i] && longer[i - 1] == path[i - 1];
      }
    }
  }

  /** The reached cells form a closed set. */
  lemma FilledIsClosed(g: Grid, s: Point)
    requires Rectangular(g)
    ensures Closed(g, Filled(g, s))
  {
    forall p, k | p in Filled(g, s) && 0 <= k < 4 && Open(g, Neighbours(p)[k])
      ensures Neighbours(p)[k] in Filled(g, s)
    {
      var n := Neighbours(p)[k];
      var path :| Path(g, s, path) && path[|path| - 1] == p;
      PathExtends(g, s, path, n);
      assert Reaches(g, s, n) by {
        assert (path + [n])[|path + [n]| - 1] == n;
      }
      assert n == Point(n.x, n.y);
    }
  }

  /** Every path from `s` stays within a closed set that holds `s`. */
  lemma {:induction false} PathStaysIn(g: Grid, s: Point, S: set<Point>, path: seq<Point>)
    requires Rectangular(g) && s in S && Closed(g, S) && Path(g, s, path)
    ensures path[|path| - 1] in S
    decreases |path|
  {
    if |path| > 1 {
      var init := path[..|path| - 1];
      assert Path(g, s, init) by {
        assert forall i :: 0 <= i < |init| ==> init[i] == path[i];
      }
      PathStaysIn(g, s, S, init);
      var last := path[|path| - 1];
      var k :| 0 <= k < 4 && Neighbours(path[|path| - 2])[k] == last;
    }
  }

  /** The least closed set that holds `s` is the set of cells the paths from
      `s` reach. */
  lemma LeastIsFilled(g: Grid, s: Point, R: set<Point>)
    requires Rectangular(g) && InGrid(g, s) && Least(g, s, R)
    requires forall p :: p in R ==> InGrid(g, p)
    ensures R == Filled(g, s)
  {
    assert s in Filled(g, s) by {
      assert Path(g, s, [s]);
      assert s == Point(s.x, s.y);
    }
    FilledIsClosed(g, s);
    forall p | p in Filled(g, s)
      ensures p in R
    {
      var path :| Path(g, s, path) && path[|path| - 1] == p;
      PathStaysIn(g, s, R, path);
    }
  }

  /** The `.` neighbours of `p` not yet expanded, in the order
      `fill_grid` puts them on the queue. */
  function Pushed(g: Grid, V: set<Point>, p: Point): seq<Point>
    requires Rectangular(g)
  {
    Keep(g, V, Neighbours(p)[0]) + Keep(g, V, Neighbours(p)[1]) + Keep(g, V, Neighbours(p)[2]) + Keep(g, V, Neighbours(p)[3])
  }

  function Keep(g: Grid, V: set<Point>, n: Point): seq<Point>
    requires Rectangular(g)
  {
    if Open(g, n) && n !in V then [n] else []
  }

  lemma PushedMembers(g: Grid, V: set<Point>, p: Point)
    requires Rectangular(g)
    ensures forall n :: n in Pushed(g, V, p) <==> exists k :: 0 <= k < 4 && n == Neighbours(p)[k] && Open(g, n) && n !in V
  {
  }

  /** Everything expanded or queued lies within every closed set that holds
      the start. */
  ghost predicate Leads(g: Grid, s: Point, V: set<Point>, q: seq<Point>)
    requires Rectangular(g)
  {
    forall S :: s in S && Closed(g, S) ==> V <= S && forall k :: 0 <= k < |q| ==> q[k] in S
  }

  /** Every `.` neighbour of an expanded cell is expanded or queued. */
  ghost predicate Frontier(g: Grid, V: set<Point>, q: seq<Point>)
    requires Rectangular(g)
  {
    forall p, k :: p in V && 0 <= k < 4 && Open(g, Neighbours(p)[k]) ==> Neighbours(p)[k] in V || Neighbours(p)[k] in q
  }

  /** The state of the fill: everything expanded or queued lies in the
      grid, the start is expanded or queued, and the invariants above hold. */
  ghost predicate Queued(g: Grid, s: Point, V: set<Point>, q: seq<Point>)
    requires Rectangular(g)
  {
    (forall p :: p in V ==> InGrid(g, p)) && (forall k :: 0 <= k < |q| ==> InGrid(g, q[k])) &&
    (s in V || s in q) && Leads(g, s, V, q) && Frontier(g, V, q)
  }

  /** Dropping an already expanded point from the queue keeps the state. */
  lemma SkipKeeps(g: Grid, s: Point, V: set<Point>, q: seq<Point>)
    requires Rectangular(g) && |q| > 0 && q[0] in V
    requires Queued(g, s, V, q)
    ensures Queued(g, s, V, q[1..])
  {
    forall p, k | p in V && 0 <= k < 4 && Open(g, Neighbours(p)[k])
      ensures Neighbours(p)[k] in V || Neighbours(p)[k] in q[1..]
    {
      var n := Neighbours(p)[k];
      if n !in V {
        var i :| 0 <= i < |q| && q[i] == n;
        assert q[1..][i - 1] == n;
      }
    }
    if s !in V {
      var i :| 0 <= i < |q| && q[i] == s;
      assert q[1..][i - 1] == s;
    }
  }

  lemma ExpandKeepsLeads(g: Grid, s: Point, V: set<Point>, q: seq<Point>)
    requires Rectangular(g) && |q| > 0
    requires Leads(g, s, V, q)
    ensures Leads(g, s, V + {q[0]}, q[1..] + Pushed(g, V, q[0]))
  {
    var p := q[0];
    var next := q[1..] + Pushed(g, V, p);
    PushedMembers(g, V, p);
    forall S | s in S && Closed(g, S)
      ensures V + {p} <= S && forall k :: 0 <= k < |next| ==> next[k] in S
    {
      assert p in S;
      forall k | 0 <= k < |next|
        ensures next[k] in S
      {
        if k < |q| - 1 {
          assert next[k] == q[k + 1];
        } else {
          assert next[k] in Pushed(g, V, p);
        }
      }
    }
  }

  lemma ExpandKeepsFrontier(g: Grid, V: set<Point>, q: seq<Point>)
    requires Rectangular(g) && |q| > 0
    requires Frontier(g, V, q)
    ensures Frontier(g, V + {q[0]}, q[1..] + Pushed(g, V, q[0]))
  {
    var p := q[0];
    var next := q[1..] + Pushed(g, V, p);
    PushedMembers(g, V, p);
    forall p', k | p' in V + {p} && 0 <= k < 4 && Open(g, Neighbours(p')[k])
      ensures Neighbours(p')[k] in V + {p} || Neighbours(p')[k] in next
    {
      var n := Neighbours(p')[k];
      if n !in V && n != p {
        if p' == p {
          assert n in Pushed(g, V, p);
          var i :| 0 <= i < |Pushed(g, V, p)| && Pushed(g, V, p)[i] == n;
          assert next[|q| - 1 + i] == n;
        } else {
          var i :| 0 <= i < |q| && q[i] == n;
          assert next[i - 1] == n;
        }
      }
    }
  }

  /** Expanding the head of the queue and queueing its `.` neighbours keeps
      the state. */
  lemma ExpandKeeps(g: Grid, s: Point, V: set<Point>, q: seq<Point>)
    requires Rectangular(g) && |q| > 0
    requires Queued(g, s, V, q)
    ensures Queued(g, s, V + {q[0]}, q[1..] + Pushed(g, V, q[0]))
  {
    var next := q[1..] + Pushed(g, V, q[0]);
    ExpandKeepsLeads(g, s, V, q);
    ExpandKeepsFrontier(g, V, q);
    PushedMembers(g, V, q[0]);
    forall k | 0 <= k < |next|
      ensures InGrid(g, next[k])
    {
      if k < |q| - 1 {
        assert next[k] == q[k + 1];
      } else {
        assert next[k] in Pushed(g, V, q[0]);
      }
    }
    if s !in V && s != q[0] {
      var i :| 0 <= i < |q| && q[i] == s;
      assert next[i - 1] == s;
    }
  }

  /** The points of the grid. */
  ghost function Positions(g: Grid): set<Point>
  {
    set x, y | 0 <= y < |g| && 0 <= x < Width(g) :: Point(x, y)
  }

  /** Expanding a new point of the grid leaves fewer points to expand. */
  lemma Fewer(g: Grid, V: set<Point>, p: Point)
    requires InGrid(g, p) && p !in V
    ensures |Positions(g) - (V + {p})| < |Positions(g) - V|
  {
    assert p == Point(p.x, p.y);
    assert Positions(g) - (V + {p}) == (Positions(g) - V) - {p};
  }

  /** `grid[p.y, p.x] = '#'`: the cell of `p` joins the expanded cells. */
  method Paint(grid: array2<char>, p: Point, ghost g0: Grid, ghost V: set<Point>)
    requires |g0| == grid.Length0 && Rectangular(g0) && InGrid(g0, p)
    requires forall i :: 0 <= i < |g0| ==> |g0[i]| == grid.Length1
    requires forall i, j :: 0 <= i < grid.Length0 && 0 <= j < grid.Length1 ==>
      grid[i, j] == if Point(j, i) in V then '#' else g0[i][j]
    modifies grid
    ensures forall i, j :: 0 <= i < grid.Length0 && 0 <= j < grid.Length1 ==>
      grid[i, j] == if Point(j, i) in V + {p} then '#' else g0[i][j]
  {
    grid[p.y, p.x] := '#';
  }

  /** The cells of a grid that holds `g0` painted. */
  lemma PaintedCells(grid: array2<char>, g0: Grid, V: set<Point>)
    requires |g0| == grid.Length0 && forall i :: 0 <= i < |g0| ==> |g0[i]| == grid.Length1
    requires Cells(grid) == Painted(g0, V)
    ensures forall i, j :: 0 <= i < grid.Length0 && 0 <= j < grid.Length1 ==>
      grid[i, j] == if Point(j, i) in V then '#' else g0[i][j]
  {
    forall i, j | 0 <= i < grid.Length0 && 0 <= j < grid.Length1
      ensures grid[i, j] == if Point(j, i) in V then '#' else g0[i][j]
    {
      assert grid[i, j] == Cells(grid)[i][j];
    }
  }

  /** Painting no cell leaves the grid as it is. */
  lemma PaintedNothing(g: Grid)
    ensures Painted(g, {}) == g
  {
    SameGrid(Painted(g, {}), g);
  }

  /** A grid whose expanded cells are `#` and whose others are as in `g0`
      holds `g0` painted. */
  lemma CellsPainted(grid: array2<char>, g0: Grid, V: set<Point>)
    requires |g0| == grid.Length0 && forall i :: 0 <= i < |g0| ==> |g0[i]| == grid.Length1
    requires forall i, j :: 0 <= i < grid.Length0 && 0 <= j < grid.Length1 ==>
      grid[i, j] == if Point(j, i) in V then '#' else g0[i][j]
    ensures Cells(grid) == Painted(g0, V)
  {
    SameGrid(Cells(grid), Painted(g0, V));
  }

  /** Appending a point not yet listed keeps the list free of repeats. */
  lemma DistinctSnoc(order: seq<Point>, V: set<Point>, p: Point)
    requires Distinct(order) && (forall x :: x in order <==> x in V) && p !in V
    ensures Distinct(order + [p]) && forall x :: x in order + [p] <==> x in V + {p}
  {
  }

  /** With the queue empty, the expanded points are exactly the reached
      cells. */
  lemma FillDone(g: Grid, s: Point, V: set<Point>)
    requires Rectangular(g) && InGrid(g, s) && Queued(g, s, V, [])
    ensures V == Filled(g, s)
  {
    assert Least(g, s, V);
    LeastIsFilled(g, s, V);
  }

  /** The neighbour tests of `fill_grid` on the current grid, whose
      expanded cells are `#` and whose other cells are as in `g0`: they
      give the `.` neighbours of `p` not yet expanded, in order. */
  method Spread(grid: array2<char>, p: Point, ghost g0: Grid, ghost V: set<Point>) returns (next: seq<Point>)
    requires |g0| == grid.Length0 && Rectangular(g0) && InGrid(g0, p)
    requires forall i :: 0 <= i < |g0| ==> |g0[i]| == grid.Length1
    requires forall i, j :: 0 <= i < grid.Length0 && 0 <= j < grid.Length1 ==>
      grid[i, j] == if Point(j, i) in V then '#' else g0[i][j]
    ensures next == Pushed(g0, V, p)
  {
    var h, w := grid.Length0, grid.Length1;
    next := [];
    if p.x > 0 && grid[p.y, p.x - 1] == '.' {
      next := next + [Point(p.x - 1, p.y)];
    }
    assert next == Keep(g0, V, Neighbours(p)[0]);
    if p.x < w - 1 && grid[p.y, p.x + 1] == '.' {
      next := next + [Point(p.x + 1, p.y)];
    }
    assert next == Keep(g0, V, Neighbours(p)[0]) + Keep(g0, V, Neighbours(p)[1]);
    if p.y > 0 && grid[p.y - 1, p.x] == '.' {
      next := next + [Point(p.x, p.y - 1)];
    }
    assert next == Keep(g0, V, Neighbours(p)[0]) + Keep(g0, V, Neighbours(p)[1]) + Keep(g0, V, Neighbours(p)[2]);
    if p.y < h - 1 && grid[p.y + 1, p.x] == '.' {
      next := next + [Point(p.x, p.y + 1)];
    }
  }

  /** The grid with the cells of `F` set to `#`. */
  function Painted(g: Grid, F: set<Point>): (r: Grid)
    ensures |r| == |g| && forall i :: 0 <= i < |g| ==> |r[i]| == |g[i]|
  {
    seq(|g|, i requires 0 <= i < |g| =>
      seq(|g[i]|, j requires 0 <= j < |g[i]| => if Point(j, i) in F then '#' else g[i][j]))
  }

  /** No point occurs twice. */
  predicate Distinct(order: seq<Point>)
  {
    forall i, j :: 0 <= i < j < |order| ==> order[i] != order[j]
  }

  /** One expansion of `fill_grid`: the head of the queue, not yet
      expanded, queues its `.` neighbours and is set to `#`. */
  method Expand(grid: array2<char>, q: seq<Point>, visited: set<Point>, ghost order: seq<Point>, ghost g0: Grid, ghost start: Point)
    returns (q': seq<Point>, visited': set<Point>, ghost order': seq<Point>)
    requires |g0| == grid.Length0 && Rectangular(g0) && forall i :: 0 <= i < |g0| ==> |g0[i]| == grid.Length1
    requires Cells(grid) == Painted(g0, visited)
    requires |q| > 0 && q[0] !in visited && Queued(g0, start, visited, q)
    requires Distinct(order) && forall p :: p in order <==> p in visited
    modifies grid
    ensures q' == q[1..] + Pushed(g0, visited, q[0]) && visited' == visited + {q[0]} && order' == order + [q[0]]
    ensures Cells(grid) == Painted(g0, visited')
    ensures Queued(g0, start, visited', q')
    ensures Distinct(order') && forall p :: p in order' <==> p in visited'
    ensures |Positions(g0) - visited'| < |Positions(g0) - visited|
  {
    var p := q[0];
    PaintedCells(grid, g0, visited);
    var next := Spread(grid, p, g0, visited);
    ExpandKeeps(g0, start, visited, q);
    Paint(grid, p, g0, visited);
    CellsPainted(grid, g0, visited + {p});
    Fewer(g0, visited, p);
    DistinctSnoc(order, visited, p);
    q', visited', order' := q[1..] + next, visited + {p}, order + [p];
  }

  /** `fill_grid`: a breadth-first fill from `start` with a FIFO queue and a
      set of expanded points.  Each point taken from the queue that was not
      yet expanded puts its `.` neighbours on the queue (left, right, up,
      down) and is set to `#`.  The grid ends with exactly the cells the
      paths from `start` reach set to `#` and every other cell unchanged;
      `order` lists the expanded points, each once. */
  method FillGrid(grid: array2<char>, start: Point) returns (ghost order: seq<Point>)
    requires 0 <= start.y < grid.Length0 && 0 <= start.x < grid.Length1
    modifies grid
    ensures Cells(grid) == Painted(old(Cells(grid)), Filled(old(Cells(grid)), start))
    ensures Distinct(order) && forall p :: p in order <==> p in Filled(old(Cells(grid)), start)
  {
    ghost var g0 := Cells(grid);
    var visited;
    visited, order := Drain(grid, start, g0);
    FillDone(g0, start, visited);
  }

  /** The queue loop of `fill_grid`, run until the queue is empty: the
      expanded points end up `#` in the grid, closed under `.` neighbours
      and within every closed set that holds the start. */
  method Drain(grid: array2<char>, start: Point, ghost g0: Grid) returns (visited: set<Point>, ghost order: seq<Point>)
    requires |g0| == grid.Length0 && Rectangular(g0) && forall i :: 0 <= i < |g0| ==> |g0[i]| == grid.Length1
    requires Cells(grid) == g0 && InGrid(g0, start)
    modifies grid
    ensures Cells(grid) == Painted(g0, visited)
    ensures Queued(g0, start, visited, [])
    ensures Distinct(order) && forall p :: p in order <==> p in visited
  {
    var q := [start];
    visited := {};
    order := [];
    PaintedNothing(g0);
    while |q| > 0
      invariant Cells(grid) == Painted(g0, visited)
      invariant Queued(g0, start, visited, q)
      invariant Distinct(order) && forall p :: p in order <==> p in visited
      decreases |Positions(g0) - visited|, |q|
    {
      if q[0] in visited {
        SkipKeeps(g0, start, visited, q);
        q := q[1..];
      } else {
        q, visited, order := Expand(grid, q, visited, order, g0, start);
      }
    }
  }

  // ---------------------------------------------------------------------------
  // Part one

  /** One line `D m (color)`: it must split at spaces into exactly three
      parts, the first must be one of `R`, `L`, `U`, `D` and the second an
      integer (ValueError otherwise); the color keeps its text without the
      first and last character. */
  function ParseOperation(line: string): (r: Result<DigOperation>)
    ensures r.Err? ==> r.failure == ValueError
    ensures r.Ok? ==> |Text.Split(line, " ")| == 3 &&
                      Text.Split(line, " ")[0] in {"R", "L", "U", "D"} &&
                      Text.ParseInt(Text.Split(line, " ")[1]) == Some(r.value.meters)
    ensures r.Ok? ==> Letter(r.value.dir) == Text.Split(line, " ")[0]
    ensures r.Ok? ==> r.value.color == Text.Slice(Text.Split(line, " ")[2], 1, -1)
  {
    var parts := Text.Split(line, " ");
    if |parts| != 3 then Err(ValueError)
    else
      var dir :=
        if parts[0] == "R" then Some(Right) else if parts[0] == "L" then Some(Left)
        else if parts[0] == "U" then Some(Up) else if parts[0] == "D" then Some(Down) else None;
      if dir.None? then Err(ValueError)
      else match Text.ParseInt(parts[1]) {
        case None => Err(ValueError)
        case Some(m) => Ok(DigOperation(dir.value, m, Text.Slice(parts[2], 1, -1)))
      }
  }

  /** One line of a plan: `R 6 (#70c710)`. */
  function PlanLine(op: DigOperation): string
    requires op.meters >= 0
  {
    Text.Join([Letter(op.dir), Text.NatToString(op.meters), "(" + op.color + ")"], " ")
  }

  /** Reading a written plan line gives the operation back, as long as the
      colour has no space in it. */
  lemma ParseOperationOfLine(op: DigOperation)
    requires op.meters >= 0 && ' ' !in op.color
    ensures ParseOperation(PlanLine(op)) == Ok(op)
  {
    var parts := [Letter(op.dir), Text.NatToString(op.meters), "(" + op.color + ")"];
    assert forall k, j :: 0 <= k < |parts| && 0 <= j < |parts[k]| ==> parts[k][j] != ' ' by {
      assert forall j :: 0 <= j < |parts[1]| ==> Text.IsDigit(parts[1][j]);
      assert forall j :: 0 <= j < |parts[2]| ==> parts[2][j] == '(' || parts[2][j] == ')' || parts[2][j] in op.color;
    }
    Text.SplitOfJoin(parts, ' ');
    Text.ParseIntNatToString(op.meters);
    var c := parts[2];
    assert c[1..|c| - 1] == op.color;
  }

  function ParseOperations(input: string): Result<seq<DigOperation>>
  {
    Sums.Collect(ParseOperation, Text.Split(input, "\n"))
  }

  /** `np.min` of one coordinate over the points. */
  function Lowest(xs: seq<int>): (r: int)
    requires |xs| > 0
    ensures (forall i :: 0 <= i < |xs| ==> r <= xs[i]) && exists i :: 0 <= i < |xs| && r == xs[i]
  {
    if |xs| == 1 then xs[0]
    else
      var rest := Lowest(xs[1..]);
      assert forall i :: 1 <= i < |xs| ==> xs[i] == xs[1..][i - 1];
      if xs[0] <= rest then xs[0] else rest
  }

  /** `np.max` of one coordinate over the points. */
  function Highest(xs: seq<int>): (r: int)
    requires |xs| > 0
    ensures (forall i :: 0 <= i < |xs| ==> xs[i] <= r) && exists i :: 0 <= i < |xs| && r == xs[i]
  {
    if |xs| == 1 then xs[0]
    else
      var rest := Highest(xs[1..]);
      assert forall i :: 1 <= i < |xs| ==> xs[i] == xs[1..][i - 1];
      if xs[0] >= rest then xs[0] else rest
  }

  function Xs(points: seq<Point>): (r: seq<int>)
    ensures |r| == |points| && forall i :: 0 <= i < |points| ==> r[i] == points[i].x
  {
    seq(|points|, i requires 0 <= i < |points| => points[i].x)
  }

  function Ys(points: seq<Point>): (r: seq<int>)
    ensures |r| == |points| && forall i :: 0 <= i < |points| ==> r[i] == points[i].y
  {
    seq(|points|, i requires 0 <= i < |points| => points[i].y)
  }

  /** The points moved by `(-dx, -dy)`. */
  function Shifted(points: seq<Point>, dx: int, dy: int): (r: seq<Point>)
    ensures |r| == |points| && forall i :: 0 <= i < |points| ==> r[i] == Point(points[i].x - dx, points[i].y - dy)
  {
    seq(|points|, i requires 0 <= i < |points| => Point(points[i].x - dx, points[i].y - dy))
  }

  /** The plan laid out on its grid: the corners moved so that the least
      coordinates are 0, and the grid shape that just holds them. */
  datatype Layout = Layout(height: int, width: int, corners: seq<Point>)

  function Lay(points: seq<Point>): Layout
    requires |points| > 0
  {
    var minX, minY := Lowest(Xs(points)), Lowest(Ys(points));
    var maxX, maxY := Highest(Xs(points)), Highest(Ys(points));
    Layout(maxY - minY + 1, maxX - minX + 1, Shifted(points, minX, minY))
  }

  /** After the shift every corner lies inside the grid shape. */
  lemma LayInGrid(points: seq<Point>)
    requires |points| > 0
    ensures Lay(points).height >= 1 && Lay(points).width >= 1
    ensures forall i :: 0 <= i < |points| ==>
      0 <= Lay(points).corners[i].x < Lay(points).width && 0 <= Lay(points).corners[i].y < Lay(points).height
  {
    var xs, ys := Xs(points), Ys(points);
    assert xs[0] == points[0].x && ys[0] == points[0].y;
  }

  /** Digging a laid-out plan never fails, and each operation marks its
      segment between two corners of the grid. */
  lemma LaidPlanDigs(ops: seq<DigOperation>)
    ensures DigPlan(Lay(Polyline(ops)).height, Lay(Polyline(ops)).width, Lay(Polyline(ops)).corners, ops).Ok?
  {
    var points := Polyline(ops);
    var lay := Lay(points);
    LayInGrid(points);
    PolylineSteps(ops);
    forall k | 0 <= k < Zipped(lay.corners, ops)
      ensures IndexValid(ops[k], lay.corners[k], lay.height, lay.width)
    {
      var p := lay.corners[k];
      assert 0 <= p.x < lay.width && 0 <= p.y < lay.height;
    }
  }

  /** Part one: the plan is dug on its grid, a starting point inside is
      found next to the first corner, the lagoon is filled from it, and the
      answer is the number of `#` cells. */
  ghost function PartOne(input: string): Result<int>
  {
    match ParseOperations(input) {
      case Err(e) => Err(e)
      case Ok(ops) =>
        var lay := Lay(Polyline(ops));
        match DigPlan(lay.height, lay.width, lay.corners, ops) {
          case Err(e) => Err(e)
          case Ok(g) => Lagoon(g, lay.corners[0])
        }
    }
  }

  /** The lagoon dug from a trench grid: a starting point inside next to
      `corner`, the fill from it, and the number of `#` cells. */
  ghost function Lagoon(g: Grid, corner: Point): Result<int>
    requires Rectangular(g)
  {
    match FirstInside(g, corner, 0) {
      case Err(e) => Err(e)
      case Ok(s) => Ok(Hashes(Painted(g, Filled(g, s))))
    }
  }

  /** `np.count_nonzero(grid == '#')`. */
  function Hashes(g: Grid): nat
  {
    |set i, j | 0 <= i < |g| && 0 <= j < |g[i]| && g[i][j] == '#' :: (i, j)|
  }

  /** `solve_part_one` as the source runs it. */
  method SolvePartOne(input: string) returns (r: Result<int>)
    ensures r == PartOne(input)
  {
    var parsed := ParseOperations(input);
    if parsed.Err? {
      return Err(parsed.failure);
    }
    var ops := parsed.value;
    var points := GridPoints(ops);
    assert |ops| + 1 == |points|;
    var lay := Lay(points);
    var dug := GetGrid(lay.height, lay.width, lay.corners, ops);
    if dug.Err? {
      return Err(dug.failure);
    }
    LayInGrid(points);
    DigPlanShape(lay.height, lay.width, lay.corners, ops, dug.value);
    r := DigLagoon(dug.value, lay.corners[0]);
  }

  /** The second half of `solve_part_one`, on the dug grid: find the start,
      fill, count. */
  method DigLagoon(grid: array2<char>, corner: Point) returns (r: Result<int>)
    requires 0 <= corner.y < grid.Length0 && 0 <= corner.x < grid.Length1
    modifies grid
    ensures r == Lagoon(old(Cells(grid)), corner)
  {
    var start := PointInside(grid, corner);
    if start.Err? {
      return Err(start.failure);
    }
    ghost var g := Cells(grid);
    FirstInsideInGrid(g, corner);
    ghost var order := FillGrid(grid, start.value);
    return Ok(Hashes(Cells(grid)));
  }
}
