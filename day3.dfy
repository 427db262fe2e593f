/** Day 3: the part numbers of an engine schematic, the numbers adjacent to a
    symbol (adventofcode2023/days/day3.py).  The grid is a list of rows, each
    row a mutable list of characters; reading a number overwrites its cells
    with `.` so that the next look-up does not read it again. */
module Day3 {
  import opened Wrappers
  import opened Text
  import Sums

  // ---------------------------------------------------------------------------
  // Digit runs in a row

  /** Where the leftward scan of `_parse_number_from_grid` stops: the first
      index at or below `i` that is not a digit, or -1. */
  function RunStart(row: seq<char>, i: int): (s: int)
    requires -1 <= i < |row|
    ensures -1 <= s <= i
    decreases i + 1
  {
    if i >= 0 && IsDigit(row[i]) then RunStart(row, i - 1) else i
  }

  /** Where the rightward scan stops: the first index at or above `j` that is
      not a digit, or the width. */
  function RunEnd(row: seq<char>, j: nat): (e: nat)
    requires j <= |row|
    ensures j <= e <= |row|
    decreases |row| - j
  {
    if j < |row| && IsDigit(row[j]) then RunEnd(row, j + 1) else j
  }

  /** `row[a..b]` is a maximal run of digits: a number as it is written. */
  predicate IsRun(row: seq<char>, a: nat, b: nat) {
    a < b <= |row| && (forall k :: a <= k < b ==> IsDigit(row[k])) &&
    (a == 0 || !IsDigit(row[a - 1])) && (b == |row| || !IsDigit(row[b]))
  }

  lemma {:induction false} RunStartInRun(row: seq<char>, a: nat, b: nat, i: int)
    requires IsRun(row, a, b) && a - 1 <= i < b
    ensures RunStart(row, i) == a - 1
    decreases i + 1
  {
    if i >= a {
      RunStartInRun(row, a, b, i - 1);
    }
  }

  lemma {:induction false} RunEndInRun(row: seq<char>, a: nat, b: nat, j: nat)
    requires IsRun(row, a, b) && a <= j <= b
    ensures RunEnd(row, j) == b
    decreases |row| - j
  {
    if j < b {
      RunEndInRun(row, a, b, j + 1);
    }
  }

  lemma {:induction false} RunStartDigits(row: seq<char>, i: int)
    requires -1 <= i < |row|
    ensures forall k :: RunStart(row, i) < k <= i ==> IsDigit(row[k])
    ensures RunStart(row, i) == -1 || !IsDigit(row[RunStart(row, i)])
    decreases i + 1
  {
    if i >= 0 && IsDigit(row[i]) {
      RunStartDigits(row, i - 1);
    }
  }

  lemma {:induction false} RunEndDigits(row: seq<char>, j: nat)
    requires j <= |row|
    ensures forall k :: j <= k < RunEnd(row, j) ==> IsDigit(row[k])
    ensures RunEnd(row, j) == |row| || !IsDigit(row[RunEnd(row, j)])
    decreases |row| - j
  {
    if j < |row| && IsDigit(row[j]) {
      RunEndDigits(row, j + 1);
    }
  }

  /** Every digit lies in exactly one maximal run: the one the two scans
      delimit. */
  lemma RunThrough(row: seq<char>, x: nat)
    requires x < |row| && IsDigit(row[x])
    ensures IsRun(row, RunStart(row, x) + 1, RunEnd(row, x))
    ensures RunStart(row, x) + 1 <= x < RunEnd(row, x)
  {
    RunStartDigits(row, x);
    RunEndDigits(row, x);
  }

  // ---------------------------------------------------------------------------
  // Reading one number

  /** `update_list_inplace(start, end)`: every index of `range(start, end)`
      becomes `.`; the index -1 is the last cell of the row. */
  function Erase(row: seq<char>, start: int, end: int): (r: seq<char>)
    requires -1 <= start && end <= |row|
    ensures |r| == |row|
  {
    seq(|row|, k requires 0 <= k < |row| =>
      if start <= k < end || (start < 0 && start < end && k == |row| - 1) then '.' else row[k])
  }

  /** The value of the decimal digits `row[a..b]`, read from the right. */
  function RunValue(row: seq<char>, a: nat, b: nat): int
    requires a <= b <= |row|
    decreases b - a
  {
    if b == a then 0 else 10 * RunValue(row, a, b - 1) + ((row[b - 1] as int) - ('0' as int))
  }

  /** `_parse_number_from_grid(chars, x)`: the number whose digits surround
      `x`, and the row after its cells are overwritten.  Between the two scans
      there are only digits, so `int` of them is their value, and `int('')`
      raises ValueError (`IntOfRun`, `IntOfNoRun`).  As written, the erased range
      starts at `start_idx`, the cell before the run; `fixed` selects the
      evidently intended range, which starts at the run itself. */
  function ParseNumber(row: seq<char>, x: nat, fixed: bool): Result<(int, seq<char>)>
    requires x < |row|
  {
    var start := RunStart(row, x);
    var end := RunEnd(row, x);
    if end <= start + 1 then Err(ValueError)
    else Ok((RunValue(row, start + 1, end), Erase(row, if fixed then start + 1 else start, end)))
  }

  lemma {:induction false} RunValueIsDigitsValue(row: seq<char>, a: nat, b: nat)
    requires a <= b <= |row| && AllDigits(row[a..b])
    ensures RunValue(row, a, b) == DigitsValue(row[a..b])
    decreases b - a
  {
    if b > a {
      var t, u := row[a..b], row[a..b - 1];
      assert t[..|t| - 1] == u;
      assert AllDigits(u) by {
        forall i | 0 <= i < |u|
          ensures IsDigit(u[i])
        {
          assert u[i] == t[i];
        }
      }
      RunValueIsDigitsValue(row, a, b - 1);
    }
  }

  /** `int` of the digits of a run is their value. */
  lemma IntOfRun(row: seq<char>, a: nat, b: nat)
    requires IsRun(row, a, b)
    ensures ParseInt(Slice(row, a, b)) == Some(RunValue(row, a, b))
  {
    var t := row[a..b];
    assert Slice(row, a, b) == t;
    assert ParseInt(t) == Some(DigitsValue(t)) by {
      assert AllDigits(t);
      ParseIntOfDigits(t);
    }
    assert RunValue(row, a, b) == DigitsValue(t) by {
      RunValueIsDigitsValue(row, a, b);
    }
  }

  /** Off a digit both scans stop at `x` and the slice between them is
      empty, so `int` raises ValueError. */
  lemma IntOfNoRun(row: seq<char>, x: nat, fixed: bool)
    requires x < |row| && !IsDigit(row[x])
    ensures RunStart(row, x) == x && RunEnd(row, x) == x
    ensures ParseInt(Slice(row, x + 1, x)) == None
    ensures ParseNumber(row, x, fixed) == Err(ValueError)
  {
    assert Slice(row, x + 1, x) == [];
    ParseIntOfEmpty();
  }

  /** On a digit, the value read is the number written in the maximal run of
      digits through `x`, so every index of a run reads the same number. */
  lemma ParseNumberReadsRun(row: seq<char>, a: nat, b: nat, x: nat, fixed: bool)
    requires IsRun(row, a, b) && a <= x < b
    ensures ParseNumber(row, x, fixed).Ok?
    ensures AllDigits(row[a..b]) && ParseNumber(row, x, fixed).value.0 == DigitsValue(row[a..b])
    ensures ParseNumber(row, x, fixed).value.1 == Erase(row, if fixed then a else a - 1, b)
  {
    RunStartInRun(row, a, b, x);
    RunEndInRun(row, a, b, x);
    assert AllDigits(row[a..b]);
    RunValueIsDigitsValue(row, a, b);
  }

  /** Two indexes of the same run read the same number. */
  lemma ParseNumberSameAcrossRun(row: seq<char>, a: nat, b: nat, x: nat, x': nat, fixed: bool)
    requires IsRun(row, a, b) && a <= x < b && a <= x' < b
    ensures ParseNumber(row, x, fixed).Ok? && ParseNumber(row, x', fixed).Ok?
    ensures ParseNumber(row, x, fixed).value.0 == ParseNumber(row, x', fixed).value.0
  {
    ParseNumberReadsRun(row, a, b, x, fixed);
    ParseNumberReadsRun(row, a, b, x', fixed);
  }

  /** As written, the call overwrites the run and the cell before it; when the
      run starts the row, the cell "before" it is index -1, the last cell. */
  lemma ParseNumberErasesAsWritten(row: seq<char>, a: nat, b: nat, x: nat)
    requires IsRun(row, a, b) && a <= x < b
    ensures ParseNumber(row, x, false).Ok?
    ensures var after := ParseNumber(row, x, false).value.1;
      |after| == |row| &&
      forall k :: 0 <= k < |row| ==>
        after[k] == if a - 1 <= k < b || (a == 0 && k == |row| - 1) then '.' else row[k]
  {
    ParseNumberReadsRun(row, a, b, x, false);
  }

  /** With the intended range only the digits of the run are overwritten: no
      other cell, in particular no symbol, changes. */
  lemma ParseNumberErasesOnlyTheRun(row: seq<char>, a: nat, b: nat, x: nat)
    requires IsRun(row, a, b) && a <= x < b
    ensures ParseNumber(row, x, true).Ok?
    ensures var after := ParseNumber(row, x, true).value.1;
      |after| == |row| &&
      (forall k :: 0 <= k < |row| ==> after[k] == if a <= k < b then '.' else row[k]) &&
      (forall k :: 0 <= k < |row| && !IsDigit(row[k]) ==> after[k] == row[k])
  {
    ParseNumberReadsRun(row, a, b, x, true);
  }

  /** The discrepancy on one row: reading the `1` of `#1` also wipes out the
      symbol `#`, where the intended range keeps it. */
  lemma EraseAsWrittenLosesSymbolBefore()
    ensures ParseNumber("#1", 1, false) == Ok((1, ".."))
    ensures ParseNumber("#1", 1, true) == Ok((1, "#."))
  {
    var row := "#1";
    assert IsRun(row, 1, 2);
    ParseNumberReadsRun(row, 1, 2, 1, false);
    ParseNumberReadsRun(row, 1, 2, 1, true);
    assert row[1..2] == "1";
    DigitsValueOne();
    assert Erase(row, 0, 2) == "..";
    assert Erase(row, 1, 2) == "#.";
  }

  /** Reading the `1` of `1.#` wipes out the `#` at the other end of the
      row: the cell before the run is index -1. */
  lemma EraseAsWrittenLosesLastCell()
    ensures ParseNumber("1.#", 0, false) == Ok((1, "..."))
    ensures ParseNumber("1.#", 0, true) == Ok((1, "..#"))
  {
    var row := "1.#";
    assert IsRun(row, 0, 1);
    ParseNumberReadsRun(row, 0, 1, 0, false);
    ParseNumberReadsRun(row, 0, 1, 0, true);
    assert row[0..1] == "1";
    DigitsValueOne();
    assert Erase(row, -1, 1) == "...";
    assert Erase(row, 0, 1) == "..#";
  }

  lemma DigitsValueOne()
    ensures AllDigits("1") && DigitsValue("1") == 1
  {
    assert ("1")[..0] == [];
  }

  /** The two rows of the unit tests: every index of a number reads all of
      it, whichever digit it is on. */
  lemma ParseNumberTestVectors()
    ensures forall x :: 0 <= x < 3 ==>
      ParseNumber("467..114..", x, false).Ok? && ParseNumber("467..114..", x, false).value.0 == 467
    ensures forall x :: 5 <= x < 10 ==>
      ParseNumber("467..11456", x, false).Ok? && ParseNumber("467..11456", x, false).value.0 == 11456
  {
    var r1, r2 := "467..114..", "467..11456";
    assert IsRun(r1, 0, 3);
    assert IsRun(r2, 5, 10);
    var d1, d2 := r1[0..3], r2[5..10];
    assert d1 == "467" && d2 == "11456";
    assert DigitsValue(d1[..1]) == 4 by { assert d1[..1][..0] == []; }
    assert DigitsValue(d1[..2]) == 46 by { assert d1[..2][..1] == d1[..1]; }
    assert DigitsValue(d1) == 467 by { assert d1[..|d1| - 1] == d1[..2]; }
    assert DigitsValue(d2[..1]) == 1 by { assert d2[..1][..0] == []; }
    assert DigitsValue(d2[..2]) == 11 by { assert d2[..2][..1] == d2[..1]; }
    assert DigitsValue(d2[..3]) == 114 by { assert d2[..3][..2] == d2[..2]; }
    assert DigitsValue(d2[..4]) == 1145 by { assert d2[..4][..3] == d2[..3]; }
    assert DigitsValue(d2) == 11456 by { assert d2[..|d2| - 1] == d2[..4]; }
    forall x | 0 <= x < 3
      ensures ParseNumber(r1, x, false).Ok? && ParseNumber(r1, x, false).value.0 == 467
    {
      ParseNumberReadsRun(r1, 0, 3, x, false);
    }
    forall x | 5 <= x < 10
      ensures ParseNumber(r2, x, false).Ok? && ParseNumber(r2, x, false).value.0 == 11456
    {
      ParseNumberReadsRun(r2, 5, 10, x, false);
    }
  }

  /** The scan and overwrite of `_parse_number_from_grid`, in place on the
      row. */
  method ParseNumberFromGrid(chars: array<char>, x: nat) returns (num: Result<int>)
    requires x < chars.Length
    modifies chars
    ensures ParseNumber(old(chars[..]), x, false).Ok? ==>
      num == Ok(ParseNumber(old(chars[..]), x, false).value.0) &&
      chars[..] == ParseNumber(old(chars[..]), x, false).value.1
    ensures ParseNumber(old(chars[..]), x, false).Err? ==>
      num == Err(ParseNumber(old(chars[..]), x, false).failure) && chars[..] == old(chars[..])
  {
    var start := ScanLeft(chars, x);
    var end := ScanRight(chars, x);
    var n := ParseInt(Slice(chars[..], start + 1, end));
    ghost var row := chars[..];
    if IsDigit(chars[x]) {
      assert ParseNumber(row, x, false).Ok? && n == Some(ParseNumber(row, x, false).value.0) &&
        ParseNumber(row, x, false).value.1 == Erase(row, start, end) by {
        RunThrough(row, x);
        IntOfRun(row, start + 1, end);
        ParseNumberReadsRun(row, start + 1, end, x, false);
      }
    } else {
      assert n == None && ParseNumber(row, x, false) == Err(ValueError) by {
        IntOfNoRun(row, x, false);
      }
    }
    if n.None? {
      return Err(ValueError);
    }
    UpdateListInPlace(chars, start, end);
    num := Ok(n.value);
  }

  /** The leftward scan: `start_idx` moves left while it is on a digit. */
  method ScanLeft(chars: array<char>, x: nat) returns (start: int)
    requires x < chars.Length
    ensures start == RunStart(chars[..], x)
  {
    start := x;
    while start >= 0 && IsDigit(chars[start])
      invariant -1 <= start <= x
      invariant RunStart(chars[..], start) == RunStart(chars[..], x)
      decreases start + 1
    {
      start := start - 1;
    }
  }

  /** The rightward scan: `end_idx` moves right while it is on a digit. */
  method ScanRight(chars: array<char>, x: nat) returns (end: nat)
    requires x < chars.Length
    ensures end == RunEnd(chars[..], x)
  {
    end := x;
    var width := chars.Length;
    while end < width && IsDigit(chars[end])
      invariant x <= end <= width
      invariant RunEnd(chars[..], end) == RunEnd(chars[..], x)
    {
      end := end + 1;
    }
  }

  /** `update_list_inplace(start_idx, end_idx)`: Python's index -1 writes the
      last cell. */
  method UpdateListInPlace(chars: array<char>, start: int, end: nat)
    requires -1 <= start <= end <= chars.Length && 0 < chars.Length
    modifies chars
    ensures chars[..] == Erase(old(chars[..]), start, end)
  {
    ghost var before := chars[..];
    for idx := start to end
      invariant chars[..] == Erase(before, start, idx)
    {
      if idx < 0 {
        chars[chars.Length - 1] := '.';
      } else {
        chars[idx] := '.';
      }
    }
  }

  // ---------------------------------------------------------------------------
  // The grid

  /** The schematic as rows of characters; rows may differ in length. */
  type Grid = seq<seq<char>>

  /** The lengths of the rows, which reading numbers never changes. */
  function Shape(g: Grid): (lengths: seq<nat>)
    ensures |lengths| == |g|
  {
    seq(|g|, i requires 0 <= i < |g| => |g[i]|)
  }

  /** `product([-1, 0, 1], repeat=2)` as `(x_incr, y_incr)` pairs, in the
      order it yields them. */
  const Offsets: seq<(int, int)> :=
    [(-1, -1), (-1, 0), (-1, 1), (0, -1), (0, 0), (0, 1), (1, -1), (1, 0), (1, 1)]

  /** Each offset moves at most one cell in each direction. */
  lemma OffsetInBlock(k: nat)
    requires k < 9
    ensures -1 <= Offsets[k].0 <= 1 && -1 <= Offsets[k].1 <= 1
  {
  }

  /** `_has_number_adjacent(grid, x, y)`: the numbers read around `(x, y)`,
      and the grid after their cells are overwritten.  The bounds are the
      width of the first row and the number of rows; a shorter row inside
      them raises IndexError. */
  function Adjacent(g: Grid, x: int, y: int, fixed: bool): (r: Result<(seq<int>, Grid)>)
    ensures r.Ok? ==> |r.value.0| <= 9 && Shape(r.value.1) == Shape(g)
  {
    if |g| == 0 || |g[0]| == 0 then Err(ValueError)
    else
      AdjacentFromShape(g, x, y, |g[0]|, 0, [], fixed);
      AdjacentFrom(g, x, y, |g[0]|, 0, [], fixed)
  }

  /** The loop over the offsets from the `k`-th on, with the numbers read so
      far in `nums`. */
  function AdjacentFrom(g: Grid, x: int, y: int, width: nat, k: nat, nums: seq<int>, fixed: bool)
    : (r: Result<(seq<int>, Grid)>)
    requires k <= 9
    ensures r.Ok? ==> |r.value.0| <= |nums| + 9 - k && |r.value.1| == |g|
    decreases 9 - k, 1
  {
    if k == 9 then Ok((nums, g)) else AdjacentAt(g, x, y, width, k, nums, fixed)
  }

  /** One turn of the loop: the cell at the `k`-th offset, when it is inside
      the bounds and holds a digit, gives its number and is erased. */
  function AdjacentAt(g: Grid, x: int, y: int, width: nat, k: nat, nums: seq<int>, fixed: bool)
    : (r: Result<(seq<int>, Grid)>)
    requires k < 9
    ensures r.Ok? ==> |r.value.0| <= |nums| + 9 - k && |r.value.1| == |g|
    decreases 9 - k, 0
  {
    var xc := x + Offsets[k].0;
    var yc := y + Offsets[k].1;
    if 0 <= xc < width && 0 <= yc < |g| then
      if xc >= |g[yc]| then Err(IndexError)
      else if IsDigit(g[yc][xc]) then
        match ParseNumber(g[yc], xc, fixed)
        case Err(e) => Err(e)
        case Ok(read) =>
          AdjacentFrom(g[yc := read.1], x, y, width, k + 1, nums + [read.0], fixed)
      else AdjacentFrom(g, x, y, width, k + 1, nums, fixed)
    else AdjacentFrom(g, x, y, width, k + 1, nums, fixed)
  }

  /** The loop over the offsets changes no row's length. */
  lemma {:induction false} AdjacentFromShape(g: Grid, x: int, y: int, width: nat, k: nat, nums: seq<int>, fixed: bool)
    requires k <= 9
    ensures var r := AdjacentFrom(g, x, y, width, k, nums, fixed);
      r.Ok? ==> Shape(r.value.1) == Shape(g)
    decreases 9 - k, 1
  {
    if k < 9 {
      var xc, yc := x + Offsets[k].0, y + Offsets[k].1;
      if 0 <= xc < width && 0 <= yc < |g| && xc < |g[yc]| && IsDigit(g[yc][xc]) {
        ParseNumberOfDigit(g[yc], xc, fixed);
        AdjacentFromShapeRead(g, x, y, width, k, nums, fixed, xc, yc, ParseNumber(g[yc], xc, fixed).value);
      } else if !(0 <= xc < width && 0 <= yc < |g|) || xc < |g[yc]| {
        AdjacentFromSkips(g, x, y, width, k, nums, fixed);
        AdjacentFromShape(g, x, y, width, k + 1, nums, fixed);
      }
    }
  }

  /** The `k`-th offset reads `read`. */
  lemma {:induction false} AdjacentFromShapeRead(g: Grid, x: int, y: int, width: nat, k: nat, nums: seq<int>, fixed: bool,
                                                 xc: nat, yc: nat, read: (int, seq<char>))
    requires k < 9 && xc == x + Offsets[k].0 && yc == y + Offsets[k].1
    requires xc < width && yc < |g| && xc < |g[yc]| && IsDigit(g[yc][xc])
    requires ParseNumber(g[yc], xc, fixed) == Ok(read)
    ensures var r := AdjacentFrom(g, x, y, width, k, nums, fixed);
      r.Ok? ==> Shape(r.value.1) == Shape(g)
    decreases 9 - k, 0
  {
    var g1 := g[yc := read.1];
    assert AdjacentFrom(g, x, y, width, k, nums, fixed) ==
      AdjacentFrom(g1, x, y, width, k + 1, nums + [read.0], fixed) by {
      AdjacentFromReadsAs(g, x, y, width, k, nums, fixed, xc, yc, read);
    }
    assert Shape(g1) == Shape(g) by {
      assert |read.1| == |g[yc]|;
    }
    AdjacentFromShape(g1, x, y, width, k + 1, nums + [read.0], fixed);
  }

  /** A digit always reads: the slice between the two scans is the run. */
  lemma ParseNumberOfDigit(row: seq<char>, x: nat, fixed: bool)
    requires x < |row| && IsDigit(row[x])
    ensures ParseNumber(row, x, fixed).Ok?
  {
    RunThrough(row, x);
    ParseNumberReadsRun(row, RunStart(row, x) + 1, RunEnd(row, x), x, fixed);
  }

  /** The cell at the `k`-th offset is outside the bounds or holds no
      digit: the loop passes over it. */
  predicate Skippable(g: Grid, x: int, y: int, width: nat, k: nat)
    requires k < 9
  {
    var xc, yc := x + Offsets[k].0, y + Offsets[k].1;
    !(0 <= xc < width && 0 <= yc < |g|) || (xc < |g[yc]| && !IsDigit(g[yc][xc]))
  }

  /** One step of the loop over the offsets when the cell is skipped. */
  lemma AdjacentFromSkips(g: Grid, x: int, y: int, width: nat, k: nat, nums: seq<int>, fixed: bool)
    requires k < 9 && Skippable(g, x, y, width, k)
    ensures AdjacentFrom(g, x, y, width, k, nums, fixed) == AdjacentFrom(g, x, y, width, k + 1, nums, fixed)
  {
  }

  /** Several steps over skipped cells. */
  lemma {:induction false} AdjacentFromSkipsTo(g: Grid, x: int, y: int, width: nat, from: nat, to: nat, nums: seq<int>, fixed: bool)
    requires from <= to <= 9
    requires forall j :: from <= j < to ==> Skippable(g, x, y, width, j)
    ensures AdjacentFrom(g, x, y, width, from, nums, fixed) == AdjacentFrom(g, x, y, width, to, nums, fixed)
    decreases 9 - from
  {
    if from < to {
      AdjacentFromSkips(g, x, y, width, from, nums, fixed);
      AdjacentFromSkipsTo(g, x, y, width, from + 1, to, nums, fixed);
    }
  }

  /** One step of the loop over the offsets when the cell holds a digit. */
  lemma AdjacentFromReads(g: Grid, x: int, y: int, width: nat, k: nat, nums: seq<int>, fixed: bool)
    requires k < 9
    requires var xc, yc := x + Offsets[k].0, y + Offsets[k].1;
      0 <= xc < width && 0 <= yc < |g| && xc < |g[yc]| && IsDigit(g[yc][xc])
    ensures var xc, yc := x + Offsets[k].0, y + Offsets[k].1;
      ParseNumber(g[yc], xc, fixed).Ok? &&
      AdjacentFrom(g, x, y, width, k, nums, fixed) ==
      AdjacentFrom(g[yc := ParseNumber(g[yc], xc, fixed).value.1], x, y, width, k + 1,
        nums + [ParseNumber(g[yc], xc, fixed).value.0], fixed)
  {
    ParseNumberOfDigit(g[y + Offsets[k].1], x + Offsets[k].0, fixed);
  }

  /** The same step, for a number already read as `read`. */
  lemma AdjacentFromReadsAs(g: Grid, x: int, y: int, width: nat, k: nat, nums: seq<int>, fixed: bool,
                            xc: nat, yc: nat, read: (int, seq<char>))
    requires k < 9 && xc == x + Offsets[k].0 && yc == y + Offsets[k].1
    requires xc < width && yc < |g| && xc < |g[yc]| && IsDigit(g[yc][xc])
    requires ParseNumber(g[yc], xc, fixed) == Ok(read)
    ensures AdjacentFrom(g, x, y, width, k, nums, fixed) ==
      AdjacentFrom(g[yc := read.1], x, y, width, k + 1, nums + [read.0], fixed)
  {
    AdjacentFromReads(g, x, y, width, k, nums, fixed);
  }

  /** `g2` is `g1` with some cells overwritten by `.`. */
  predicate OnlyDots(g1: Grid, g2: Grid) {
    |g2| == |g1| &&
    forall i :: 0 <= i < |g1| ==> (|g2[i]| == |g1[i]| &&
      forall j :: 0 <= j < |g1[i]| ==> g2[i][j] == g1[i][j] || g2[i][j] == '.')
  }

  /** `g2` is `g1` with some digits overwritten by `.`: no other cell changes. */
  predicate OnlyDigitsErased(g1: Grid, g2: Grid) {
    |g2| == |g1| &&
    forall i :: 0 <= i < |g1| ==> (|g2[i]| == |g1[i]| &&
      forall j :: 0 <= j < |g1[i]| ==> g2[i][j] == g1[i][j] || (IsDigit(g1[i][j]) && g2[i][j] == '.'))
  }

  /** Only the rows `y - 1` to `y + 1` of `g2` can differ from `g1`. */
  predicate SameFarRows(g1: Grid, g2: Grid, y: int) {
    |g2| == |g1| && forall i :: 0 <= i < |g1| && (i < y - 1 || y + 1 < i) ==> g2[i] == g1[i]
  }

  /** The cell at the `k`-th offset around `(x, y)`, when the loop would
      inspect it, holds no digit. */
  predicate Cleared(g: Grid, x: int, y: int, width: nat, k: nat)
    requires k < 9
  {
    var xc, yc := x + Offsets[k].0, y + Offsets[k].1;
    0 <= xc < width && 0 <= yc < |g| && xc < |g[yc]| ==> !IsDigit(g[yc][xc])
  }

  lemma OnlyDotsTransitive(g1: Grid, g2: Grid, g3: Grid)
    requires OnlyDots(g1, g2) && OnlyDots(g2, g3)
    ensures OnlyDots(g1, g3)
  {
  }

  lemma OnlyDigitsErasedTransitive(g1: Grid, g2: Grid, g3: Grid)
    requires OnlyDigitsErased(g1, g2) && OnlyDigitsErased(g2, g3)
    ensures OnlyDigitsErased(g1, g3)
  {
    forall i, j | 0 <= i < |g1| && 0 <= j < |g1[i]|
      ensures g3[i][j] == g1[i][j] || (IsDigit(g1[i][j]) && g3[i][j] == '.')
    {
      assert g2[i][j] == g1[i][j] || (IsDigit(g1[i][j]) && g2[i][j] == '.');
    }
  }

  /** A cell reads the same or `.` in a later grid, so a cleared cell stays
      cleared. */
  lemma ClearedStays(g1: Grid, g2: Grid, x: int, y: int, width: nat, k: nat)
    requires k < 9 && OnlyDots(g1, g2) && Cleared(g1, x, y, width, k)
    ensures Cleared(g2, x, y, width, k)
  {
  }

  /** Reading the number at `(xc, yc)` erases that cell and writes only `.`. */
  lemma ReadErasesCell(g: Grid, xc: nat, yc: nat, fixed: bool)
    requires yc < |g| && xc < |g[yc]| && IsDigit(g[yc][xc])
    ensures ParseNumber(g[yc], xc, fixed).Ok?
    ensures var g2 := g[yc := ParseNumber(g[yc], xc, fixed).value.1];
      OnlyDots(g, g2) && g2[yc][xc] == '.' &&
      (fixed ==> OnlyDigitsErased(g, g2))
  {
    var row := g[yc];
    RunThrough(row, xc);
    var a, b := RunStart(row, xc) + 1, RunEnd(row, xc);
    ParseNumberReadsRun(row, a, b, xc, fixed);
    if fixed {
      ParseNumberErasesOnlyTheRun(row, a, b, xc);
    }
  }

  lemma ClearsStep(g: Grid, g1: Grid, g2: Grid, x: int, y: int, width: nat, k: nat, fixed: bool)
    requires k < 9 && OnlyDots(g, g1) && OnlyDots(g1, g2) && Cleared(g1, x, y, width, k)
    requires fixed ==> OnlyDigitsErased(g, g1) && OnlyDigitsErased(g1, g2)
    requires SameFarRows(g, g1, y) && SameFarRows(g1, g2, y)
    requires forall j :: k + 1 <= j < 9 ==> Cleared(g2, x, y, width, j)
    ensures OnlyDots(g, g2) && (fixed ==> OnlyDigitsErased(g, g2)) && SameFarRows(g, g2, y)
    ensures forall j :: k <= j < 9 ==> Cleared(g2, x, y, width, j)
  {
    OnlyDotsTransitive(g, g1, g2);
    if fixed {
      OnlyDigitsErasedTransitive(g, g1, g2);
    }
    ClearedStays(g1, g2, x, y, width, k);
  }

  /** Once the loop over the offsets is done, no cell it inspected holds a
      digit, and the grid differs from the one before only by cells set to
      `.`: every digit next to `(x, y)` has been read, together with the rest
      of its number, so no number is read twice. */
  lemma {:induction false} AdjacentFromClears(g: Grid, x: int, y: int, width: nat, k: nat, nums: seq<int>, fixed: bool)
    requires k <= 9 && AdjacentFrom(g, x, y, width, k, nums, fixed).Ok?
    ensures var g2 := AdjacentFrom(g, x, y, width, k, nums, fixed).value.1;
      OnlyDots(g, g2) && (fixed ==> OnlyDigitsErased(g, g2)) && SameFarRows(g, g2, y) &&
      forall j :: k <= j < 9 ==> Cleared(g2, x, y, width, j)
    decreases 9 - k, 2
  {
    if k < 9 {
      var xc, yc := x + Offsets[k].0, y + Offsets[k].1;
      if 0 <= xc < width && 0 <= yc < |g| && xc < |g[yc]| && IsDigit(g[yc][xc]) {
        ParseNumberOfDigit(g[yc], xc, fixed);
        AdjacentFromClearsRead(g, x, y, width, k, nums, fixed, xc, yc, ParseNumber(g[yc], xc, fixed).value);
      } else {
        AdjacentFromSkips(g, x, y, width, k, nums, fixed);
        AdjacentFromClearsAfter(g, g, x, y, width, k, nums, nums, fixed);
      }
    }
  }

  /** The `k`-th offset reads a number. */
  lemma {:induction false} AdjacentFromClearsRead(g: Grid, x: int, y: int, width: nat, k: nat, nums: seq<int>, fixed: bool,
                                                  xc: nat, yc: nat, read: (int, seq<char>))
    requires k < 9 && AdjacentFrom(g, x, y, width, k, nums, fixed).Ok?
    requires xc == x + Offsets[k].0 && yc == y + Offsets[k].1
    requires xc < width && yc < |g| && xc < |g[yc]| && IsDigit(g[yc][xc])
    requires ParseNumber(g[yc], xc, fixed) == Ok(read)
    ensures var g2 := AdjacentFrom(g, x, y, width, k, nums, fixed).value.1;
      OnlyDots(g, g2) && (fixed ==> OnlyDigitsErased(g, g2)) && SameFarRows(g, g2, y) &&
      forall j :: k <= j < 9 ==> Cleared(g2, x, y, width, j)
    decreases 9 - k, 1
  {
    var g1 := g[yc := read.1];
    assert OnlyDots(g, g1) && g1[yc][xc] == '.' && (fixed ==> OnlyDigitsErased(g, g1)) by {
      ReadErasesCell(g, xc, yc, fixed);
    }
    assert AdjacentFrom(g, x, y, width, k, nums, fixed) ==
      AdjacentFrom(g1, x, y, width, k + 1, nums + [read.0], fixed) by {
      AdjacentFromReadsAs(g, x, y, width, k, nums, fixed, xc, yc, read);
    }
    assert SameFarRows(g, g1, y) by {
      OffsetInBlock(k);
    }
    AdjacentFromClearsAfter(g, g1, x, y, width, k, nums, nums + [read.0], fixed);
  }

  /** The rest of the loop after the `k`-th offset turned `g` into `g1`. */
  lemma {:induction false} AdjacentFromClearsAfter(g: Grid, g1: Grid, x: int, y: int, width: nat, k: nat,
                                                   nums: seq<int>, nums1: seq<int>, fixed: bool)
    requires k < 9 && AdjacentFrom(g, x, y, width, k, nums, fixed).Ok?
    requires AdjacentFrom(g, x, y, width, k, nums, fixed) == AdjacentFrom(g1, x, y, width, k + 1, nums1, fixed)
    requires OnlyDots(g, g1) && (fixed ==> OnlyDigitsErased(g, g1)) && Cleared(g1, x, y, width, k)
    requires SameFarRows(g, g1, y)
    ensures var g2 := AdjacentFrom(g, x, y, width, k, nums, fixed).value.1;
      OnlyDots(g, g2) && (fixed ==> OnlyDigitsErased(g, g2)) && SameFarRows(g, g2, y) &&
      forall j :: k <= j < 9 ==> Cleared(g2, x, y, width, j)
    decreases 9 - k, 0
  {
    AdjacentFromClears(g1, x, y, width, k + 1, nums1, fixed);
    ClearsStep(g, g1, AdjacentFrom(g1, x, y, width, k + 1, nums1, fixed).value.1, x, y, width, k, fixed);
  }


  /** `_has_number_adjacent` leaves no digit in the cells it inspects, only
      ever writes `.` and only in the rows `y - 1` to `y + 1`; with the
      intended erase range it erases digits alone. */
  lemma AdjacentClearsNeighbours(g: Grid, x: int, y: int, fixed: bool)
    requires Adjacent(g, x, y, fixed).Ok?
    ensures var g2 := Adjacent(g, x, y, fixed).value.1;
      OnlyDots(g, g2) && (fixed ==> OnlyDigitsErased(g, g2)) && SameFarRows(g, g2, y) &&
      forall k :: 0 <= k < 9 ==> Cleared(g2, x, y, |g[0]|, k)
  {
    AdjacentFromClears(g, x, y, |g[0]|, 0, [], fixed);
  }

  /** Every row is at least `width` long. */
  predicate WideRows(g: Grid, width: nat) {
    forall i :: 0 <= i < |g| ==> |g[i]| >= width
  }

  /** Inside the loop over the offsets the only exception is the IndexError
      of a row shorter than the first, and there is none when no row is. */
  lemma {:induction false} AdjacentFromFailures(g: Grid, x: int, y: int, width: nat, k: nat, nums: seq<int>, fixed: bool)
    requires k <= 9
    ensures AdjacentFrom(g, x, y, width, k, nums, fixed).Err? ==>
      AdjacentFrom(g, x, y, width, k, nums, fixed) == Err(IndexError)
    ensures WideRows(g, width) ==> AdjacentFrom(g, x, y, width, k, nums, fixed).Ok?
    decreases 9 - k, 1
  {
    if k < 9 {
      var xc, yc := x + Offsets[k].0, y + Offsets[k].1;
      if 0 <= xc < width && 0 <= yc < |g| && xc < |g[yc]| && IsDigit(g[yc][xc]) {
        AdjacentFromFailuresRead(g, x, y, width, k, nums, fixed);
      } else if !(0 <= xc < width && 0 <= yc < |g|) || xc < |g[yc]| {
        AdjacentFromSkips(g, x, y, width, k, nums, fixed);
        AdjacentFromFailures(g, x, y, width, k + 1, nums, fixed);
      }
    }
  }

  lemma {:induction false} AdjacentFromFailuresRead(g: Grid, x: int, y: int, width: nat, k: nat, nums: seq<int>, fixed: bool)
    requires k < 9
    requires var xc, yc := x + Offsets[k].0, y + Offsets[k].1;
      0 <= xc < width && 0 <= yc < |g| && xc < |g[yc]| && IsDigit(g[yc][xc])
    ensures AdjacentFrom(g, x, y, width, k, nums, fixed).Err? ==>
      AdjacentFrom(g, x, y, width, k, nums, fixed) == Err(IndexError)
    ensures WideRows(g, width) ==> AdjacentFrom(g, x, y, width, k, nums, fixed).Ok?
    decreases 9 - k, 0
  {
    var xc, yc := x + Offsets[k].0, y + Offsets[k].1;
    assert ParseNumber(g[yc], xc, fixed).Ok? by {
      ParseNumberOfDigit(g[yc], xc, fixed);
    }
    var read := ParseNumber(g[yc], xc, fixed).value;
    var g1 := g[yc := read.1];
    assert AdjacentFrom(g, x, y, width, k, nums, fixed) ==
      AdjacentFrom(g1, x, y, width, k + 1, nums + [read.0], fixed) by {
      AdjacentFromReads(g, x, y, width, k, nums, fixed);
    }
    assert WideRows(g, width) ==> WideRows(g1, width) by {
      assert |read.1| == |g[yc]|;
    }
    AdjacentFromFailures(g1, x, y, width, k + 1, nums + [read.0], fixed);
  }

  /** `_has_number_adjacent` raises ValueError exactly on a grid with no
      rows or an empty first row; otherwise its only exception is an
      IndexError, which a grid whose rows are all as wide as the first
      never raises. */
  lemma AdjacentFailures(g: Grid, x: int, y: int, fixed: bool)
    ensures Adjacent(g, x, y, fixed) == Err(ValueError) <==> |g| == 0 || |g[0]| == 0
    ensures Adjacent(g, x, y, fixed).Err? && |g| > 0 && |g[0]| > 0 ==>
      Adjacent(g, x, y, fixed) == Err(IndexError)
    ensures |g| > 0 && |g[0]| > 0 && WideRows(g, |g[0]|) ==> Adjacent(g, x, y, fixed).Ok?
  {
    if |g| > 0 && |g[0]| > 0 {
      AdjacentFromFailures(g, x, y, |g[0]|, 0, [], fixed);
    }
  }

  /** The row-major scan of `solve_part_one` from `(x, y)` on, with the
      numbers collected so far in `nums`: every cell that is neither a digit
      nor `.` collects the numbers adjacent to it.  Each cell is looked at as
      it is when the scan reaches it, after the erasures before it. */
  function ScanFrom(g: Grid, y: nat, x: nat, nums: seq<int>, fixed: bool): Result<seq<int>>
    requires y <= |g| && (y < |g| ==> x <= |g[y]|)
    decreases |g| - y, if y < |g| then |g[y]| - x else 0
  {
    if y == |g| then Ok(nums)
    else if x == |g[y]| then ScanFrom(g, y + 1, 0, nums, fixed)
    else if !IsDigit(g[y][x]) && g[y][x] != '.' then
      match Adjacent(g, x, y, fixed)
      case Err(e) => Err(e)
      case Ok(found) =>
        assert |found.1| == |g| && |found.1[y]| == |g[y]| by {
          assert Shape(found.1)[y] == Shape(g)[y];
        }
        ScanFrom(found.1, y, x + 1, nums + found.0, fixed)
    else ScanFrom(g, y, x + 1, nums, fixed)
  }

  /** Every cell is a digit or `.`: there is no symbol. */
  predicate NoSymbols(g: Grid) {
    forall i, j :: 0 <= i < |g| && 0 <= j < |g[i]| ==> IsDigit(g[i][j]) || g[i][j] == '.'
  }

  /** Without a symbol the scan collects nothing. */
  lemma {:induction false} ScanFromNoSymbols(g: Grid, y: nat, x: nat, nums: seq<int>, fixed: bool)
    requires y <= |g| && (y < |g| ==> x <= |g[y]|) && NoSymbols(g)
    ensures ScanFrom(g, y, x, nums, fixed) == Ok(nums)
    decreases |g| - y, if y < |g| then |g[y]| - x else 0
  {
    if y < |g| {
      if x == |g[y]| {
        ScanFromNoSymbols(g, y + 1, 0, nums, fixed);
      } else {
        ScanFromNoSymbols(g, y, x + 1, nums, fixed);
      }
    }
  }

  /** One step of the scan on a digit or `.`: nothing is collected. */
  lemma ScanFromSkips(g: Grid, y: nat, x: nat, nums: seq<int>, fixed: bool)
    requires y < |g| && x < |g[y]| && (IsDigit(g[y][x]) || g[y][x] == '.')
    ensures ScanFrom(g, y, x, nums, fixed) == ScanFrom(g, y, x + 1, nums, fixed)
  {
  }

  /** One step of the scan on a symbol: the numbers around it are collected
      and the scan goes on over the grid they were erased from. */
  lemma ScanFromVisits(g: Grid, y: nat, x: nat, nums: seq<int>, fixed: bool, found: seq<int>, g2: Grid)
    requires y < |g| && x < |g[y]| && !IsDigit(g[y][x]) && g[y][x] != '.'
    requires Adjacent(g, x, y, fixed) == Ok((found, g2))
    ensures |g2| == |g| && |g2[y]| == |g[y]|
    ensures ScanFrom(g, y, x, nums, fixed) == ScanFrom(g2, y, x + 1, nums + found, fixed)
  {
    assert Shape(g2)[y] == Shape(g)[y];
  }

  // ---------------------------------------------------------------------------
  // The erase range: as written against as intended, on a whole schematic

  /** `*` at the top left of `*.` / `#1` / `2.` reads the `1` of `#1`: as
      written the `#` is erased with it, with the intended range it stays. */
  lemma AdjacentExample(fixed: bool)
    ensures Adjacent(["*.", "#1", "2."], 0, 0, fixed) ==
      Ok(([1], ["*.", if fixed then "#." else "..", "2."]))
  {
    var g := ["*.", "#1", "2."];
    ExampleReadsOne(g, fixed);
    assert AdjacentFrom(g, 0, 0, 2, 0, [], fixed) == AdjacentFrom(g, 0, 0, 2, 8, [], fixed) by {
      ExampleSkips(g);
      AdjacentFromSkipsTo(g, 0, 0, 2, 0, 8, [], fixed);
    }
  }

  lemma ExampleReadsOne(g: Grid, fixed: bool)
    requires g == ["*.", "#1", "2."]
    ensures AdjacentFrom(g, 0, 0, 2, 8, [], fixed) == Ok(([1], ["*.", if fixed then "#." else "..", "2."]))
  {
    var row1 := if fixed then "#." else "..";
    assert ParseNumber(g[1], 1, fixed) == Ok((1, row1)) by {
      EraseAsWrittenLosesSymbolBefore();
    }
    assert Offsets[8] == (1, 1);
    AdjacentFromReads(g, 0, 0, 2, 8, [], fixed);
    assert [] + [1] == [1];
    assert g[1 := row1] == ["*.", row1, "2."];
  }

  /** Around the top-left corner of `*.` / `#1` / `2.` only the last offset
      finds a digit. */
  lemma ExampleSkips(g: Grid)
    requires g == ["*.", "#1", "2."]
    ensures forall j :: 0 <= j < 8 ==> Skippable(g, 0, 0, 2, j)
  {
    forall j | 0 <= j < 8
      ensures Skippable(g, 0, 0, 2, j)
    {
      assert j in {0, 1, 2, 3, 4, 5, 6, 7};
    }
  }

  lemma ReadTwo()
    ensures ParseNumber("2.", 0, true) == Ok((2, ".."))
  {
    var row := "2.";
    assert IsRun(row, 0, 1);
    ParseNumberReadsRun(row, 0, 1, 0, true);
    assert row[0..1] == "2";
    assert ("2")[..0] == [];
    assert Erase(row, 0, 1) == "..";
  }

  /** The `#` that stayed then reads the `2` below it. */
  lemma AdjacentExampleKeptSymbol()
    ensures Adjacent(["*.", "#.", "2."], 0, 1, true) == Ok(([2], ["*.", "#.", ".."]))
  {
    var g := ["*.", "#.", "2."];
    var g2 := ["*.", "#.", ".."];
    assert AdjacentFrom(g2, 0, 1, 2, 6, [2], true) == Ok(([2], g2)) by {
      assert Skippable(g2, 0, 1, 2, 6) && Skippable(g2, 0, 1, 2, 7) && Skippable(g2, 0, 1, 2, 8);
      AdjacentFromSkipsTo(g2, 0, 1, 2, 6, 9, [2], true);
    }
    assert AdjacentFrom(g, 0, 1, 2, 5, [], true) == AdjacentFrom(g2, 0, 1, 2, 6, [2], true) by {
      ReadTwo();
      assert Offsets[5] == (0, 1);
      AdjacentFromReads(g, 0, 1, 2, 5, [], true);
      assert [] + [2] == [2];
      assert g[2 := ".."] == g2;
    }
    assert AdjacentFrom(g, 0, 1, 2, 0, [], true) == AdjacentFrom(g, 0, 1, 2, 5, [], true) by {
      forall j | 0 <= j < 5
        ensures Skippable(g, 0, 1, 2, j)
      {
        assert j in {0, 1, 2, 3, 4};
      }
      AdjacentFromSkipsTo(g, 0, 1, 2, 0, 5, [], true);
    }
  }

  /** As written, the schematic `*.` / `#1` / `2.` adds up to 1: the `2`
      next to `#` is lost because reading the `1` erased the `#`. */
  lemma ScanAsWrittenLosesPartNumber()
    ensures ScanFrom(["*.", "#1", "2."], 0, 0, [], false) == Ok([1])
    ensures Sums.Sum([1]) == 1
  {
    var g1 := ["*.", "..", "2."];
    ScanFromSkips(g1, 2, 1, [1], false);
    ScanFromSkips(g1, 2, 0, [1], false);
    ScanFromSkips(g1, 1, 1, [1], false);
    ScanFromSkips(g1, 1, 0, [1], false);
    ScanFromSkips(g1, 0, 1, [1], false);
    AdjacentExample(false);
    ScanFromVisits(["*.", "#1", "2."], 0, 0, [], false, [1], g1);
    assert [] + [1] == [1];
  }

  /** With the intended erase range the same schematic adds up to 3, both
      of its part numbers. */
  lemma ScanFixedKeepsPartNumber()
    ensures ScanFrom(["*.", "#1", "2."], 0, 0, [], true) == Ok([1, 2])
    ensures Sums.Sum([1, 2]) == 3
  {
    var g1 := ["*.", "#.", "2."];
    var g2 := ["*.", "#.", ".."];
    ScanFromSkips(g2, 2, 1, [1, 2], true);
    ScanFromSkips(g2, 2, 0, [1, 2], true);
    ScanFromSkips(g2, 1, 1, [1, 2], true);
    AdjacentExampleKeptSymbol();
    ScanFromVisits(g1, 1, 0, [1], true, [2], g2);
    assert [1] + [2] == [1, 2];
    ScanFromSkips(g1, 0, 1, [1], true);
    AdjacentExample(true);
    ScanFromVisits(["*.", "#1", "2."], 0, 0, [], true, [1], g1);
    assert [] + [1] == [1];
  }

  /** `solve_part_one`: the sum of the part numbers of the schematic. */
  function PartOne(input: string, fixed: bool): Result<int> {
    match ScanFrom(Split(input, "\n"), 0, 0, [], fixed)
    case Err(e) => Err(e)
    case Ok(nums) => Ok(Sums.Sum(nums))
  }

  /** A schematic without symbols has no part numbers. */
  lemma PartOneWithoutSymbols(input: string, fixed: bool)
    requires NoSymbols(Split(input, "\n"))
    ensures PartOne(input, fixed) == Ok(0)
  {
    ScanFromNoSymbols(Split(input, "\n"), 0, 0, [], fixed);
  }

  // ---------------------------------------------------------------------------
  // The grid as mutable rows

  /** The rows as they are now. */
  function Snapshot(grid: seq<array<char>>): (g: Grid)
    reads set i | 0 <= i < |grid| :: grid[i]
    ensures |g| == |grid|
  {
    seq(|grid|, i requires 0 <= i < |grid| reads set j | 0 <= j < |grid| :: grid[j] => grid[i][..])
  }

  /** No two rows are the same list, so writing one leaves the others. */
  predicate DistinctRows(grid: seq<array<char>>) {
    forall i, j :: 0 <= i < j < |grid| ==> grid[i] != grid[j]
  }

  /** `_puzzle_input_to_grid`: one fresh list of characters per line. */
  method ToGrid(lines: seq<string>) returns (grid: seq<array<char>>)
    ensures Snapshot(grid) == lines && DistinctRows(grid)
    ensures forall i :: 0 <= i < |grid| ==> fresh(grid[i])
  {
    grid := [];
    for i := 0 to |lines|
      invariant |grid| == i && DistinctRows(grid)
      invariant forall j :: 0 <= j < i ==> fresh(grid[j]) && grid[j][..] == lines[j]
    {
      var line := lines[i];
      var row := new char[|line|](k requires 0 <= k < |line| => line[k]);
      assert row[..] == line;
      grid := grid + [row];
    }
  }

  /** `_has_number_adjacent`, in place on the rows of the grid. */
  method HasNumberAdjacent(grid: seq<array<char>>, x: int, y: int) returns (r: Result<seq<int>>)
    requires DistinctRows(grid)
    modifies set i | 0 <= i < |grid| :: grid[i]
    ensures Adjacent(old(Snapshot(grid)), x, y, false).Ok? ==>
      r == Ok(Adjacent(old(Snapshot(grid)), x, y, false).value.0) &&
      Snapshot(grid) == Adjacent(old(Snapshot(grid)), x, y, false).value.1
    ensures Adjacent(old(Snapshot(grid)), x, y, false).Err? ==>
      r == Err(Adjacent(old(Snapshot(grid)), x, y, false).failure)
  {
    if |grid| == 0 || grid[0].Length == 0 {
      return Err(ValueError);
    }
    var width := grid[0].Length;
    var height := |grid|;
    var numbers: seq<int> := [];
    ghost var g0 := Snapshot(grid);
    for k := 0 to 9
      invariant AdjacentFrom(g0, x, y, width, 0, [], false) ==
        AdjacentFrom(Snapshot(grid), x, y, width, k, numbers, false)
    {
      var step := VisitOffset(grid, x, y, width, k, numbers);
      if step.Err? {
        return Err(step.failure);
      }
      numbers := step.value;
    }
    r := Ok(numbers);
  }

  /** `_parse_number_from_grid(grid[y_check], x_check)` on a digit, seen
      from the whole grid: the row is read and erased, the other rows stay. */
  method ParseNumberFromRow(grid: seq<array<char>>, xc: nat, yc: nat) returns (num: int)
    requires DistinctRows(grid) && yc < |grid| && xc < grid[yc].Length && IsDigit(grid[yc][xc])
    modifies grid[yc]
    ensures ParseNumber(old(grid[yc][..]), xc, false) == Ok((num, grid[yc][..]))
    ensures Snapshot(grid) == old(Snapshot(grid))[yc := grid[yc][..]]
  {
    ParseNumberOfDigit(grid[yc][..], xc, false);
    var r := ParseNumberFromGrid(grid[yc], xc);
    num := r.value;
    forall i | 0 <= i < |grid|
      ensures Snapshot(grid)[i] == old(Snapshot(grid))[yc := grid[yc][..]][i]
    {
      assert i != yc ==> grid[i] != grid[yc];
    }
  }

  /** One turn of the loop over the offsets: the cell at the `k`-th offset,
      when it is inside the bounds and holds a digit, gives its number. */
  method VisitOffset(grid: seq<array<char>>, x: int, y: int, width: nat, k: nat, numbers: seq<int>)
    returns (r: Result<seq<int>>)
    requires DistinctRows(grid) && k < 9
    modifies set i | 0 <= i < |grid| :: grid[i]
    ensures r.Err? ==> AdjacentFrom(old(Snapshot(grid)), x, y, width, k, numbers, false) == Err(r.failure)
    ensures r.Ok? ==>
      AdjacentFrom(old(Snapshot(grid)), x, y, width, k, numbers, false) ==
      AdjacentFrom(Snapshot(grid), x, y, width, k + 1, r.value, false)
  {
    var xc := x + Offsets[k].0;
    var yc := y + Offsets[k].1;
    if 0 <= xc < width && 0 <= yc < |grid| {
      if xc >= grid[yc].Length {
        return Err(IndexError);
      }
      if IsDigit(grid[yc][xc]) {
        ghost var g := Snapshot(grid);
        assert g[yc] == grid[yc][..];
        var num := ParseNumberFromRow(grid, xc, yc);
        AdjacentFromReadsAs(g, x, y, width, k, numbers, false, xc, yc, (num, grid[yc][..]));
        return Ok(numbers + [num]);
      }
    }
    AdjacentFromSkips(Snapshot(grid), x, y, width, k, numbers, false);
    r := Ok(numbers);
  }

  /** `solve_part_one`, scanning and erasing the rows in place. */
  method SolvePartOne(input: string) returns (r: Result<int>)
    ensures r == PartOne(input, false)
  {
    var grid := ToGrid(Split(input, "\n"));
    ghost var g0 := Snapshot(grid);
    var numbers: seq<int> := [];
    for y := 0 to |grid|
      invariant Shape(Snapshot(grid)) == Shape(g0)
      invariant ScanFrom(g0, 0, 0, [], false) == ScanFrom(Snapshot(grid), y, 0, numbers, false)
    {
      var row := grid[y];
      for x := 0 to row.Length
        invariant Shape(Snapshot(grid)) == Shape(g0)
        invariant ScanFrom(g0, 0, 0, [], false) == ScanFrom(Snapshot(grid), y, x, numbers, false)
      {
        var c := row[x];
        if !IsDigit(c) && c != '.' {
          var nums := HasNumberAdjacent(grid, x, y);
          if nums.Err? {
            return Err(nums.failure);
          }
          numbers := numbers + nums.value;
        }
      }
    }
    r := Ok(Sums.Sum(numbers));
  }
}
