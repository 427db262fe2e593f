/** Day 14: parabolic reflector dish (adventofcode2023/days/day14.py).  The
    platform is a grid of round rocks `O`, cube rocks `#` and empty cells `.`.
    Tilted north, every round rock rolls up until it meets a cube rock or
    another round rock.  The source does not move the rocks: it makes one
    group per cube rock, holding the round rocks that will come to rest
    below it, and scores each group from the cube rock's row.  A row of cube
    rocks put on top of the platform gives the rocks that reach the north
    edge a group of their own. */
module Day14 {
  import opened Wrappers
  import Text
  import opened Grids

  datatype Point = Point(x: int, y: int)

  /** A cube rock at `location` and the number of round rocks that roll
      against it. */
  datatype RockGroup = RockGroup(location: Point, rollingStones: nat)

  // ---------------------------------------------------------------------------
  // The score of a group

  /** Python's `sum(range(lo, hi))`: `lo + (lo + 1) + ... + (hi - 1)`, and 0
      for an empty range. */
  function SumRange(lo: int, hi: int): int
    decreases hi - lo
  {
    if lo >= hi then 0 else lo + SumRange(lo + 1, hi)
  }

  /** `top + (top - 1) + ...`: the `k` consecutive integers ending at `top`. */
  function Countdown(top: int, k: nat): int
    decreases k
  {
    if k == 0 then 0 else top + Countdown(top - 1, k - 1)
  }

  /** `RockGroup.score(max_y)`: the loads `max_y - y`, `max_y - y - 1`, ...
      of as many rows as the group has round rocks. */
  function Score(g: RockGroup, maxY: int): (s: int)
    ensures s == Countdown(maxY - g.location.y, g.rollingStones)
    ensures g.rollingStones == 0 ==> s == 0
  {
    var maxScore := maxY - g.location.y;
    SumRangeIsCountdown(maxScore, g.rollingStones);
    SumRange(maxScore - g.rollingStones + 1, maxScore + 1)
  }

  lemma {:induction false} SumRangeLast(lo: int, hi: int)
    requires lo < hi
    ensures SumRange(lo, hi) == SumRange(lo, hi - 1) + (hi - 1)
    decreases hi - lo
  {
    if lo + 1 < hi {
      SumRangeLast(lo + 1, hi);
    }
  }

  lemma {:induction false} SumRangeIsCountdown(top: int, k: nat)
    ensures SumRange(top - k + 1, top + 1) == Countdown(top, k)
    decreases k
  {
    if k > 0 {
      SumRangeLast(top - k + 1, top + 1);
      SumRangeIsCountdown(top - 1, k - 1);
    }
  }

  lemma {:induction false} CountdownClosedForm(top: int, k: nat)
    ensures 2 * Countdown(top, k) == k * (2 * top - k + 1)
    decreases k
  {
    if k > 0 {
      CountdownClosedForm(top - 1, k - 1);
      assert 2 * Countdown(top, k) == 2 * top + (k - 1) * (2 * top - k);
    }
  }

  /** The round rocks of a group, packed below its cube rock, are worth
      `max_y - y`, one less, one less again, and so on: the score is the sum
      of `rolling_stones` consecutive integers ending at `max_y - y`, and a
      group without round rocks scores 0. */
  lemma ScoreIsConsecutiveSum(g: RockGroup, maxY: int)
    ensures Score(g, maxY) == Countdown(maxY - g.location.y, g.rollingStones)
    ensures 2 * Score(g, maxY) == g.rollingStones * (2 * (maxY - g.location.y) - g.rollingStones + 1)
    ensures g.rollingStones == 0 ==> Score(g, maxY) == 0
  {
    CountdownClosedForm(maxY - g.location.y, g.rollingStones);
  }

  // ---------------------------------------------------------------------------
  // Counting the round rocks below a cube rock

  /** `np.count_nonzero(s == 'O')`. */
  function CountO(s: string): (n: nat)
    ensures n <= |s|
  {
    if s == [] then 0 else (if s[0] == 'O' then 1 else 0) + CountO(s[1..])
  }

  lemma {:induction false} CountOAppend(a: string, b: string)
    ensures CountO(a + b) == CountO(a) + CountO(b)
  {
    if a == [] {
      assert a + b == b;
    } else {
      assert (a + b)[1..] == a[1..] + b;
      CountOAppend(a[1..], b);
    }
  }

  /** The first element of `np.where(s == '#')[0]`, or `None` when that
      array is empty. */
  function FindCube(s: string): (r: Option<nat>)
    ensures r.Some? ==> r.value < |s| && s[r.value] == '#'
    ensures r.Some? ==> forall i :: 0 <= i < r.value ==> s[i] != '#'
    ensures r.None? ==> forall i :: 0 <= i < |s| ==> s[i] != '#'
  {
    if s == [] then None
    else if s[0] == '#' then Some(0)
    else match FindCube(s[1..])
      case None => None
      case Some(k) => Some(k + 1)
  }

  /** The `rolling_stones` of the cube rock at row `y` of `column`: the round
      rocks of `column[y + 1:]`, up to the next cube rock if there is one. */
  function Rolling(column: string, y: nat): nat
    requires y < |column|
  {
    var stoneGroup := column[y + 1..];
    match FindCube(stoneGroup)
    case None => CountO(stoneGroup)
    case Some(next) => CountO(stoneGroup[..next])
  }

  /** The row of the next cube rock below row `y`, or the length of the
      column when there is none. */
  function NextCube(column: string, y: nat): (e: nat)
    requires y < |column|
    ensures y < e <= |column| && (e == |column| || column[e] == '#')
    ensures forall i :: y < i < e ==> column[i] != '#'
  {
    match FindCube(column[y + 1..])
    case None => |column|
    case Some(k) => y + 1 + k
  }

  /** A group holds the round rocks strictly between its cube rock and the
      next cube rock below it, or the end of the column. */
  lemma RollingStopsAtNextCube(column: string, y: nat, e: nat)
    requires y < e <= |column|
    requires forall i :: y < i < e ==> column[i] != '#'
    requires e == |column| || column[e] == '#'
    ensures Rolling(column, y) == CountO(column[y + 1..e])
  {
    var stoneGroup := column[y + 1..];
    match FindCube(stoneGroup)
    case None =>
      assert stoneGroup == column[y + 1..e];
    case Some(k) =>
      assert column[y + 1 + k] == '#';
      assert stoneGroup[..k] == column[y + 1..e];
  }

  // ---------------------------------------------------------------------------
  // The groups of a platform

  /** The group of the cube rock at row `y`, column `x`. */
  function Group(p: Grid, y: nat, x: nat): RockGroup
    requires Rectangular(p) && y < |p| && x < Width(p)
  {
    RockGroup(Point(x, y), Rolling(Column(p, x), y))
  }

  /** The groups of the cube rocks among the first `n` cells of row `y`, left
      to right. */
  function RowGroups(p: Grid, y: nat, n: nat): seq<RockGroup>
    requires Rectangular(p) && y < |p| && n <= Width(p)
  {
    if n == 0 then []
    else RowGroups(p, y, n - 1) + (if p[y][n - 1] == '#' then [Group(p, y, n - 1)] else [])
  }

  /** The groups of the cube rocks in the first `m` rows, in the order
      `np.nditer` visits the cells. */
  function RowsGroups(p: Grid, m: nat): seq<RockGroup>
    requires Rectangular(p) && m <= |p|
  {
    if m == 0 then [] else RowsGroups(p, m - 1) + RowGroups(p, m - 1, Width(p))
  }

  function RockGroups(p: Grid): seq<RockGroup>
    requires Rectangular(p)
  {
    RowsGroups(p, |p|)
  }

  /** `get_rock_groups(platform)`: visits the cells in row-major order and
      appends a group for every cube rock.  A platform without cells makes
      `np.nditer` raise ValueError first. */
  method GetRockGroups(platform: Grid) returns (r: Result<seq<RockGroup>>)
    requires Rectangular(platform)
    ensures r.Err? <==> ZeroSize(platform)
    ensures r.Err? ==> r.failure == ValueError
    ensures r.Ok? ==> r.value == RockGroups(platform)
  {
    if ZeroSize(platform) {
      return Err(ValueError);
    }
    var rockgroups := [];
    for y := 0 to |platform|
      invariant rockgroups == RowsGroups(platform, y)
    {
      for x := 0 to Width(platform)
        invariant rockgroups == RowsGroups(platform, y) + RowGroups(platform, y, x)
      {
        if platform[y][x] == '#' {
          var column := Column(platform, x);
          var stoneGroup := column[y + 1..];
          var nextCubedStone := FindCube(stoneGroup);
          var rollingStones;
          if nextCubedStone.None? {
            rollingStones := CountO(stoneGroup);
          } else {
            rollingStones := CountO(stoneGroup[..nextCubedStone.value]);
          }
          rockgroups := rockgroups + [RockGroup(Point(x, y), rollingStones)];
        }
      }
    }
    r := Ok(rockgroups);
  }

  /** Row-major order of cells: an earlier row, or the same row and an
      earlier column. */
  predicate Before(a: Point, b: Point) {
    a.y < b.y || (a.y == b.y && a.x < b.x)
  }

  predicate IsCube(p: Grid, y: int, x: int) {
    0 <= y < |p| && 0 <= x < |p[y]| && p[y][x] == '#'
  }

  lemma {:induction false} RowGroupsAreCubes(p: Grid, y: nat, n: nat)
    requires Rectangular(p) && y < |p| && n <= Width(p)
    ensures forall g :: g in RowGroups(p, y, n) ==>
      g.location.y == y && 0 <= g.location.x < n && IsCube(p, y, g.location.x) && g == Group(p, y, g.location.x)
    ensures forall x :: 0 <= x < n && IsCube(p, y, x) ==> Group(p, y, x) in RowGroups(p, y, n)
    ensures forall i, j :: 0 <= i < j < |RowGroups(p, y, n)| ==>
      RowGroups(p, y, n)[i].location.x < RowGroups(p, y, n)[j].location.x
  {
    if n > 0 {
      RowGroupsAreCubes(p, y, n - 1);
    }
  }

  predicate InRowMajorOrder(groups: seq<RockGroup>) {
    forall i, j :: 0 <= i < j < |groups| ==> Before(groups[i].location, groups[j].location)
  }

  lemma AppendRow(a: seq<RockGroup>, b: seq<RockGroup>, m: int)
    requires InRowMajorOrder(a) && forall g :: g in a ==> g.location.y < m
    requires forall g :: g in b ==> g.location.y == m
    requires forall i, j :: 0 <= i < j < |b| ==> b[i].location.x < b[j].location.x
    ensures InRowMajorOrder(a + b)
  {
    forall i, j | 0 <= i < j < |a + b|
      ensures Before((a + b)[i].location, (a + b)[j].location)
    {
      if i < |a| && j >= |a| {
        assert (a + b)[i] in a;
        assert (a + b)[j] in b;
      } else if i >= |a| {
        assert (a + b)[i] == b[i - |a|] && (a + b)[j] == b[j - |a|];
        assert b[i - |a|] in b && b[j - |a|] in b;
      }
    }
  }

  /** The group `g` sits on a cube rock of the first `m` rows and is that
      rock's group. */
  predicate Placed(p: Grid, m: nat, g: RockGroup)
    requires Rectangular(p)
  {
    0 <= g.location.y < m && 0 <= g.location.x && IsCube(p, g.location.y, g.location.x) &&
    g == Group(p, g.location.y, g.location.x)
  }

  lemma RowsGroupsMembersStep(p: Grid, k: nat, m: nat)
    requires Rectangular(p) && m == k + 1 && m <= |p|
    requires forall g :: g in RowsGroups(p, k) ==> Placed(p, k, g)
    ensures forall g :: g in RowsGroups(p, m) ==> Placed(p, m, g)
  {
    RowGroupsAreCubes(p, m - 1, Width(p));
    var a: seq<RockGroup>, b: seq<RockGroup> := RowsGroups(p, m - 1), RowGroups(p, m - 1, Width(p));
    assert RowsGroups(p, m) == a + b;
    forall g | g in a + b
      ensures Placed(p, m, g)
    {
      if g in a {
        assert Placed(p, m - 1, g);
      } else {
        assert g in b;
      }
    }
  }

  /** Every group of the first `m` rows sits on a cube rock of those rows
      and is that rock's group. */
  lemma {:induction false} RowsGroupsMembers(p: Grid, m: nat)
    requires Rectangular(p) && m <= |p|
    ensures forall g :: g in RowsGroups(p, m) ==> Placed(p, m, g)
  {
    if m > 0 {
      RowsGroupsMembers(p, m - 1);
      RowsGroupsMembersStep(p, m - 1, m);
    }
  }

  lemma RowsGroupsCoverStep(p: Grid, k: nat, m: nat)
    requires Rectangular(p) && m == k + 1 && m <= |p|
    requires forall y, x :: 0 <= y < k && IsCube(p, y, x) ==> Group(p, y, x) in RowsGroups(p, k)
    ensures forall y, x :: 0 <= y < m && IsCube(p, y, x) ==> Group(p, y, x) in RowsGroups(p, m)
  {
    RowGroupsAreCubes(p, k, Width(p));
    var a: seq<RockGroup>, b: seq<RockGroup> := RowsGroups(p, k), RowGroups(p, k, Width(p));
    assert RowsGroups(p, m) == a + b;
    forall y, x | 0 <= y < m && IsCube(p, y, x)
      ensures Group(p, y, x) in a + b
    {
      if y < k {
        assert Group(p, y, x) in a;
      } else {
        assert Group(p, y, x) in b;
      }
    }
  }

  /** Every cube rock of the first `m` rows has its group among them. */
  lemma {:induction false} RowsGroupsCover(p: Grid, m: nat)
    requires Rectangular(p) && m <= |p|
    ensures forall y, x :: 0 <= y < m && IsCube(p, y, x) ==> Group(p, y, x) in RowsGroups(p, m)
  {
    if m > 0 {
      RowsGroupsCover(p, m - 1);
      RowsGroupsCoverStep(p, m - 1, m);
    }
  }

  lemma RowsGroupsOrderedStep(p: Grid, k: nat, m: nat)
    requires Rectangular(p) && m == k + 1 && m <= |p|
    requires InRowMajorOrder(RowsGroups(p, k))
    requires forall g :: g in RowsGroups(p, k) ==> Placed(p, k, g)
    ensures InRowMajorOrder(RowsGroups(p, m))
  {
    RowGroupsAreCubes(p, k, Width(p));
    var a: seq<RockGroup>, b: seq<RockGroup> := RowsGroups(p, k), RowGroups(p, k, Width(p));
    assert RowsGroups(p, m) == a + b;
    AppendRow(a, b, k);
  }

  /** The groups of the first `m` rows come in row-major order. */
  lemma {:induction false} RowsGroupsOrdered(p: Grid, m: nat)
    requires Rectangular(p) && m <= |p|
    ensures InRowMajorOrder(RowsGroups(p, m))
  {
    if m > 0 {
      RowsGroupsOrdered(p, m - 1);
      RowsGroupsMembers(p, m - 1);
      RowsGroupsOrderedStep(p, m - 1, m);
    }
  }

  /** `get_rock_groups` yields one group per cube rock, in row-major order:
      every group sits on a cube rock and counts the round rocks below it in
      its column, every cube rock has its group, and the locations strictly
      increase, so no cube rock has two. */
  lemma {:induction false} RockGroupsAreCubes(p: Grid)
    requires Rectangular(p)
    ensures forall g :: g in RockGroups(p) ==>
      IsCube(p, g.location.y, g.location.x) &&
      g.rollingStones == Rolling(Column(p, g.location.x), g.location.y)
    ensures forall y, x :: IsCube(p, y, x) ==>
      RockGroup(Point(x, y), Rolling(Column(p, x), y)) in RockGroups(p)
    ensures InRowMajorOrder(RockGroups(p))
  {
    RowsGroupsMembers(p, |p|);
    RowsGroupsCover(p, |p|);
    RowsGroupsOrdered(p, |p|);
    forall y, x | IsCube(p, y, x)
      ensures RockGroup(Point(x, y), Rolling(Column(p, x), y)) in RockGroups(p)
    {
      assert Group(p, y, x) in RowsGroups(p, |p|);
    }
  }

  // ---------------------------------------------------------------------------
  // The platform and its sentinel row

  /** `np.array` of the input's lines, one character per cell; numpy refuses
      lines of different lengths. */
  function Platform(input: string): (r: Result<Grid>)
    ensures r.Ok? ==> Rectangular(r.value) && |r.value| >= 1
    ensures r.Err? <==> !Rectangular(Text.Split(input, "\n"))
  {
    var rows := Text.Split(input, "\n");
    if Rectangular(rows) then Ok(rows) else Err(ValueError)
  }

  /** An empty input is a platform of one row and no cell. */
  lemma EmptyPlatform()
    ensures Platform("") == Ok([""])
    ensures ZeroSize(Platform("").value)
  {
    Text.SplitWithoutChar("", '\n');
  }

  /** `np.insert(platform, 0, ('#',) * width, axis=0)`: a row of cube rocks
      on top. */
  function WithSentinel(p: Grid): (q: Grid)
    requires Rectangular(p)
    ensures Rectangular(q) && |q| == |p| + 1 && Width(q) == Width(p)
    ensures q[1..] == p && forall x :: 0 <= x < Width(p) ==> q[0][x] == '#'
  {
    [seq(Width(p), _ => '#')] + p
  }

  /** Every column of the new platform starts with a cube rock above the old
      column. */
  lemma SentinelColumn(p: Grid, x: nat)
    requires Rectangular(p) && x < Width(p)
    ensures Column(WithSentinel(p), x) == ['#'] + Column(p, x)
  {
    var q := WithSentinel(p);
    var c, d := Column(q, x), ['#'] + Column(p, x);
    forall i | 0 <= i < |c|
      ensures c[i] == d[i]
    {
      if i > 0 {
        assert q[i] == q[1..][i - 1];
      }
    }
  }

  // ---------------------------------------------------------------------------
  // Sums over the groups

  /** `sum(w(group) for group in groups)`. */
  function SumOf(groups: seq<RockGroup>, w: RockGroup -> int): int {
    if groups == [] then 0 else SumOf(groups[..|groups| - 1], w) + w(groups[|groups| - 1])
  }

  lemma {:induction false} SumOfAppend(a: seq<RockGroup>, b: seq<RockGroup>, w: RockGroup -> int)
    ensures SumOf(a + b, w) == SumOf(a, w) + SumOf(b, w)
  {
    if b == [] {
      assert a + b == a;
    } else {
      assert (a + b)[..|a + b| - 1] == a + b[..|b| - 1];
      SumOfAppend(a, b[..|b| - 1], w);
    }
  }

  function RollingWeight(g: RockGroup): int {
    g.rollingStones
  }

  function ScoreAt(maxY: int): RockGroup -> int {
    g => Score(g, maxY)
  }

  /** `sum(group.score(max_y) for group in rockgroups)`. */
  function TotalScore(groups: seq<RockGroup>, maxY: int): int {
    SumOf(groups, ScoreAt(maxY))
  }

  /** Weight `w` of the group at each cube rock, 0 at every other cell. */
  function CubeWeights(p: Grid, w: RockGroup -> int): (nat, nat) -> int
    requires Rectangular(p)
  {
    (y: nat, x: nat) => if y < |p| && x < Width(p) && p[y][x] == '#' then w(Group(p, y, x)) else 0
  }

  lemma {:induction false} RowGroupsSum(p: Grid, y: nat, n: nat, w: RockGroup -> int)
    requires Rectangular(p) && y < |p| && n <= Width(p)
    ensures SumOf(RowGroups(p, y, n), w) == RowSum(CubeWeights(p, w), y, n)
  {
    if n > 0 {
      RowGroupsSum(p, y, n - 1, w);
      var last := if p[y][n - 1] == '#' then [Group(p, y, n - 1)] else [];
      SumOfAppend(RowGroups(p, y, n - 1), last, w);
      assert SumOf(last, w) == CubeWeights(p, w)(y, n - 1) by {
        if last != [] {
          assert last[..0] == [];
        }
      }
    }
  }

  /** Summing over the groups is summing the cube rocks' weights row by row. */
  lemma {:induction false} RowsGroupsSum(p: Grid, m: nat, w: RockGroup -> int)
    requires Rectangular(p) && m <= |p|
    ensures SumOf(RowsGroups(p, m), w) == RowMajorSum(CubeWeights(p, w), m, Width(p))
  {
    if m > 0 {
      RowsGroupsSum(p, m - 1, w);
      RowGroupsSum(p, m - 1, Width(p), w);
      SumOfAppend(RowsGroups(p, m - 1), RowGroups(p, m - 1, Width(p)), w);
    }
  }

  /** The weights of the groups of the cube rocks at rows `y` and below of
      `column`, for a column at `x`. */
  function CubeSum(column: string, x: nat, y: nat, w: RockGroup -> int): int
    requires y <= |column|
    decreases |column| - y
  {
    if y == |column| then 0
    else
      (if column[y] == '#' then w(RockGroup(Point(x, y), Rolling(column, y))) else 0)
      + CubeSum(column, x, y + 1, w)
  }

  lemma {:induction false} ColumnOfWeights(p: Grid, x: nat, lo: nat, w: RockGroup -> int)
    requires Rectangular(p) && x < Width(p) && lo <= |p|
    ensures ColumnSum(CubeWeights(p, w), x, lo, |p|) == CubeSum(Column(p, x), x, lo, w)
    decreases |p| - lo
  {
    if lo < |p| {
      ColumnOfWeights(p, x, lo + 1, w);
      assert Column(p, x)[lo] == p[lo][x];
      assert CubeWeights(p, w)(lo, x) == if p[lo][x] == '#' then w(Group(p, lo, x)) else 0;
    }
  }

  /** Rows `y` to `e - 1` hold no cube rock and add nothing. */
  lemma {:induction false} SkipOpenCells(column: string, x: nat, y: nat, e: nat, w: RockGroup -> int)
    requires y <= e <= |column|
    requires forall i :: y <= i < e ==> column[i] != '#'
    ensures CubeSum(column, x, y, w) == CubeSum(column, x, e, w)
    decreases e - y
  {
    if y < e {
      SkipOpenCells(column, x, y + 1, e, w);
    }
  }

  /** Below a cube rock, every round rock of the column is in exactly one
      group: the counts of the groups at and below row `y` add up to the
      round rocks at and below it. */
  lemma {:induction false} ColumnStonesCounted(column: string, x: nat, y: nat)
    requires y <= |column| && (y == |column| || column[y] == '#')
    ensures CubeSum(column, x, y, RollingWeight) == CountO(column[y..])
    decreases |column| - y
  {
    if y < |column| {
      var e := NextCube(column, y);
      RollingStopsAtNextCube(column, y, e);
      SkipOpenCells(column, x, y + 1, e, RollingWeight);
      ColumnStonesCounted(column, x, e);
      assert column[y..] == column[y..y + 1] + column[y + 1..e] + column[e..];
      CountOAppend(column[y..y + 1] + column[y + 1..e], column[e..]);
      CountOAppend(column[y..y + 1], column[y + 1..e]);
    }
  }

  /** The round rocks of the platform, row by row. */
  function Stones(p: Grid): nat {
    if p == [] then 0 else Stones(p[..|p| - 1]) + CountO(p[|p| - 1])
  }

  function IsStone(p: Grid): (nat, nat) -> int
    requires Rectangular(p)
  {
    (y: nat, x: nat) => if y < |p| && x < Width(p) && p[y][x] == 'O' then 1 else 0
  }

  lemma {:induction false} RowStones(p: Grid, y: nat, n: nat)
    requires Rectangular(p) && y < |p| && n <= Width(p)
    ensures RowSum(IsStone(p), y, n) == CountO(p[y][..n])
  {
    if n == 0 {
      assert p[y][..0] == [];
    } else {
      RowStones(p, y, n - 1);
      assert p[y][..n] == p[y][..n - 1] + [p[y][n - 1]];
      CountOAppend(p[y][..n - 1], [p[y][n - 1]]);
    }
  }

  lemma {:induction false} GridStones(p: Grid, m: nat)
    requires Rectangular(p) && m <= |p|
    ensures RowMajorSum(IsStone(p), m, Width(p)) == Stones(p[..m])
  {
    if m > 0 {
      GridStones(p, m - 1);
      RowStones(p, m - 1, Width(p));
      assert p[..m][..m - 1] == p[..m - 1];
      assert p[m - 1][..Width(p)] == p[m - 1];
    }
  }

  lemma {:induction false} ColumnStones(p: Grid, x: nat, lo: nat)
    requires Rectangular(p) && x < Width(p) && lo <= |p|
    ensures ColumnSum(IsStone(p), x, lo, |p|) == CountO(Column(p, x)[lo..])
    decreases |p| - lo
  {
    if lo < |p| {
      ColumnStones(p, x, lo + 1);
      assert Column(p, x)[lo..][1..] == Column(p, x)[lo + 1..];
    }
  }

  /** The columns' round rocks, summed over the first `n` columns. */
  /** One column: with the sentinel on top, its groups hold its round rocks. */
  lemma ColumnCounted(p: Grid, x: nat)
    requires Rectangular(p) && x < Width(p)
    ensures ColumnSum(CubeWeights(WithSentinel(p), RollingWeight), x, 0, |p| + 1)
         == ColumnSum(IsStone(p), x, 0, |p|)
  {
    var q := WithSentinel(p);
    var c := Column(q, x);
    ColumnOfWeights(q, x, 0, RollingWeight);
    SentinelColumn(p, x);
    ColumnStonesCounted(c, x, 0);
    ColumnStones(p, x, 0);
    assert c[0..] == ['#'] + Column(p, x);
    CountOAppend(['#'], Column(p, x));
    assert Column(p, x)[0..] == Column(p, x);
  }

  /** With the sentinel row on top every round rock of the platform belongs
      to exactly one group: the groups' `rolling_stones` add up to the number
      of round rocks. */
  lemma StonesConserved(p: Grid)
    requires Rectangular(p)
    ensures SumOf(RockGroups(WithSentinel(p)), RollingWeight) == Stones(p)
  {
    var q := WithSentinel(p);
    RowsGroupsSum(q, |q|, RollingWeight);
    SumsInterchange(CubeWeights(q, RollingWeight), |q|, Width(q));
    forall x | 0 <= x < Width(p)
      ensures ColumnSum(CubeWeights(q, RollingWeight), x, 0, |q|) == ColumnSum(IsStone(p), x, 0, |p|)
    {
      ColumnCounted(p, x);
    }
    ColumnMajorPointwise(CubeWeights(q, RollingWeight), |q|, IsStone(p), |p|, Width(p));
    SumsInterchange(IsStone(p), |p|, Width(p));
    GridStones(p, |p|);
    assert p[..|p|] == p;
  }

  // ---------------------------------------------------------------------------
  // Tilting north, the reference the scores are measured against

  function Repeat(c: char, n: nat): (s: string)
    ensures |s| == n && forall i :: 0 <= i < n ==> s[i] == c
  {
    seq(n, _ => c)
  }

  /** A stretch without cube rocks after tilting north: its round rocks on
      top, empty cells below. */
  function Packed(segment: string): (t: string)
    ensures |t| == |segment|
  {
    Repeat('O', CountO(segment)) + Repeat('.', |segment| - CountO(segment))
  }

  /** A column, north first, after tilting the platform north: the cube
      rocks stay, and the round rocks between two cube rocks gather under
      the upper one. */
  function Tilt(s: string): (t: string)
    ensures |t| == |s|
    decreases |s|
  {
    match FindCube(s)
    case None => Packed(s)
    case Some(k) => Packed(s[..k]) + "#" + Tilt(s[k + 1..])
  }

  lemma {:induction false} CountORepeat(c: char, n: nat)
    ensures CountO(Repeat(c, n)) == if c == 'O' then n else 0
  {
    if n > 0 {
      assert Repeat(c, n)[1..] == Repeat(c, n - 1);
      CountORepeat(c, n - 1);
    }
  }

  lemma PackedKeepsRocks(segment: string)
    requires forall i :: 0 <= i < |segment| ==> segment[i] != '#'
    ensures CountO(Packed(segment)) == CountO(segment)
    ensures forall i :: 0 <= i < |segment| ==> Packed(segment)[i] != '#'
  {
    var k := CountO(segment);
    var stones, empty := Repeat('O', k), Repeat('.', |segment| - k);
    CountOAppend(stones, empty);
    CountORepeat('O', k);
    CountORepeat('.', |segment| - k);
    forall i | 0 <= i < |segment|
      ensures Packed(segment)[i] != '#'
    {
      if i < k {
        assert Packed(segment)[i] == stones[i];
      } else {
        assert Packed(segment)[i] == empty[i - k];
      }
    }
  }

  /** The cells of a column split at a cube rock. */
  lemma AroundCube(a: string, b: string, i: nat)
    requires i < |a| + 1 + |b|
    ensures (a + "#" + b)[i] == if i < |a| then a[i] else if i == |a| then '#' else b[i - |a| - 1]
  {
  }

  lemma TiltAtCube(s: string, k: nat)
    requires FindCube(s) == Some(k)
    ensures s == s[..k] + "#" + s[k + 1..]
    ensures Tilt(s) == Packed(s[..k]) + "#" + Tilt(s[k + 1..])
  {
  }

  /** Tilting moves no cube rock. */
  lemma {:induction false} TiltKeepsCubes(s: string)
    ensures forall i :: 0 <= i < |s| ==> (Tilt(s)[i] == '#' <==> s[i] == '#')
    decreases |s|
  {
    match FindCube(s)
    case None =>
      PackedKeepsRocks(s);
    case Some(k) =>
      var a, rest := s[..k], s[k + 1..];
      TiltKeepsCubes(rest);
      PackedKeepsRocks(a);
      TiltAtCube(s, k);
      forall i | 0 <= i < |s|
        ensures Tilt(s)[i] == '#' <==> s[i] == '#'
      {
        AroundCube(Packed(a), Tilt(rest), i);
        AroundCube(a, rest, i);
      }
  }

  /** Tilting loses no round rock. */
  lemma {:induction false} TiltKeepsStones(s: string)
    ensures CountO(Tilt(s)) == CountO(s)
    decreases |s|
  {
    match FindCube(s)
    case None =>
      PackedKeepsRocks(s);
    case Some(k) =>
      var a, rest := s[..k], s[k + 1..];
      TiltKeepsStones(rest);
      PackedKeepsRocks(a);
      TiltAtCube(s, k);
      CountOAppend(Packed(a) + "#", Tilt(rest));
      CountOAppend(Packed(a), "#");
      CountOAppend(a + "#", rest);
      CountOAppend(a, "#");
  }

  lemma PackedSettled(segment: string, i: nat)
    requires 0 < i < |segment| && Packed(segment)[i] == 'O'
    ensures Packed(segment)[i - 1] == 'O'
  {
    var k := CountO(segment);
    assert i < k;
  }

  /** After tilting no round rock has an empty cell right above it. */
  lemma {:induction false} TiltSettles(s: string)
    ensures forall i :: 0 < i < |s| && Tilt(s)[i] == 'O' ==> Tilt(s)[i - 1] != '.'
    decreases |s|
  {
    match FindCube(s)
    case None =>
      forall i | 0 < i < |s| && Tilt(s)[i] == 'O'
        ensures Tilt(s)[i - 1] != '.'
      {
        PackedSettled(s, i);
      }
    case Some(k) =>
      var a, rest := s[..k], s[k + 1..];
      TiltSettles(rest);
      TiltAtCube(s, k);
      forall i | 0 < i < |s| && Tilt(s)[i] == 'O'
        ensures Tilt(s)[i - 1] != '.'
      {
        AroundCube(Packed(a), Tilt(rest), i);
        AroundCube(Packed(a), Tilt(rest), i - 1);
        if i < k {
          PackedSettled(a, i);
        }
      }
  }

  /** The load of the cells of `t` placed from row `row` down, on a platform
      of `m` rows: each round rock counts the rows from it to the south edge. */
  function LoadFrom(t: string, m: int, row: int): int {
    if t == [] then 0 else (if t[0] == 'O' then m - row else 0) + LoadFrom(t[1..], m, row + 1)
  }

  /** The load of a whole column. */
  function Load(t: string): int {
    LoadFrom(t, |t|, 0)
  }

  lemma {:induction false} LoadFromAppend(a: string, b: string, m: int, row: int)
    ensures LoadFrom(a + b, m, row) == LoadFrom(a, m, row) + LoadFrom(b, m, row + |a|)
  {
    if a == [] {
      assert a + b == b;
    } else {
      assert (a + b)[1..] == a[1..] + b;
      LoadFromAppend(a[1..], b, m, row + 1);
    }
  }

  lemma {:induction false} LoadFromEmptyCells(d: nat, m: int, row: int)
    ensures LoadFrom(Repeat('.', d), m, row) == 0
  {
    if d > 0 {
      assert Repeat('.', d)[1..] == Repeat('.', d - 1);
      LoadFromEmptyCells(d - 1, m, row + 1);
    }
  }

  /** `k` round rocks packed from row `row` down weigh the `k` consecutive
      integers ending at `m - row`. */
  lemma {:induction false} LoadFromPacked(k: nat, d: nat, m: int, row: int)
    ensures LoadFrom(Repeat('O', k) + Repeat('.', d), m, row) == Countdown(m - row, k)
  {
    if k == 0 {
      assert Repeat('O', k) + Repeat('.', d) == Repeat('.', d);
      LoadFromEmptyCells(d, m, row);
    } else {
      assert (Repeat('O', k) + Repeat('.', d))[1..] == Repeat('O', k - 1) + Repeat('.', d);
      LoadFromPacked(k - 1, d, m, row + 1);
    }
  }

  /** The scores from row `y` down: the group of the cube rock at `y`, then
      those from the next cube rock `e` down. */
  lemma CubeSumStep(column: string, x: nat, y: nat, e: nat, m: int)
    requires y < |column| && column[y] == '#' && e == NextCube(column, y)
    ensures CubeSum(column, x, y, ScoreAt(m))
         == Countdown(m - y, CountO(column[y + 1..e])) + CubeSum(column, x, e, ScoreAt(m))
  {
    RollingStopsAtNextCube(column, y, e);
    SkipOpenCells(column, x, y + 1, e, ScoreAt(m));
    SumRangeIsCountdown(m - y, Rolling(column, y));
  }

  /** Tilted, a stretch without cube rocks weighs its packed round rocks. */
  lemma TiltedLoadNone(s: string, m: int, y: int)
    requires FindCube(s).None?
    ensures LoadFrom(Tilt(s), m, y) == Countdown(m - y, CountO(s))
  {
    LoadFromPacked(CountO(s), |s| - CountO(s), m, y);
  }

  /** Tilted, a stretch whose first cube rock is at `k` weighs the round
      rocks packed above it, then the tilted rest below it. */
  lemma TiltedLoadSome(s: string, k: nat, m: int, y: int)
    requires FindCube(s) == Some(k)
    ensures LoadFrom(Tilt(s), m, y)
         == Countdown(m - y, CountO(s[..k])) + LoadFrom(Tilt(s[k + 1..]), m, y + k + 1)
  {
    var a := s[..k];
    TiltAtCube(s, k);
    LoadFromAppend(Packed(a) + "#", Tilt(s[k + 1..]), m, y);
    LoadFromAppend(Packed(a), "#", m, y);
    LoadFromPacked(CountO(a), |a| - CountO(a), m, y);
  }

  /** Below the cube rock at row `y` (counted with the sentinel row as 0),
      the groups' scores with `max_y = m` are the load of the tilted rest of
      the column. */
  lemma {:induction false} CubeScoresAreLoad(column: string, x: nat, y: nat, m: int)
    requires y < |column| && column[y] == '#'
    ensures CubeSum(column, x, y, ScoreAt(m)) == LoadFrom(Tilt(column[y + 1..]), m, y)
    decreases |column| - y
  {
    var s := column[y + 1..];
    var e := NextCube(column, y);
    CubeSumStep(column, x, y, e, m);
    match FindCube(s)
    case None =>
      TiltedLoadNone(s, m, y);
      assert e == |column| && s == column[y + 1..e];
      assert CubeSum(column, x, e, ScoreAt(m)) == 0;
    case Some(k) =>
      TiltedLoadSome(s, k, m, y);
      assert e == y + k + 1;
      assert s[..k] == column[y + 1..e];
      assert s[k + 1..] == column[e + 1..];
      CubeScoresAreLoad(column, x, e, m);
      assert CubeSum(column, x, e, ScoreAt(m)) == LoadFrom(Tilt(s[k + 1..]), m, y + k + 1);
  }

  /** Each cell of the platform tilted north: the load of the round rock
      there, counted in rows from it to the south edge, or 0. */
  function TiltedCells(p: Grid): (nat, nat) -> int
    requires Rectangular(p)
  {
    (y: nat, x: nat) => if y < |p| && x < Width(p) && Tilt(Column(p, x))[y] == 'O' then |p| - y else 0
  }

  /** The total load on the north support beams after tilting north. */
  function TiltedLoad(p: Grid): int
    requires Rectangular(p)
  {
    ColumnMajorSum(TiltedCells(p), |p|, Width(p))
  }

  lemma {:induction false} TiltedColumn(p: Grid, x: nat, lo: nat)
    requires Rectangular(p) && x < Width(p) && lo <= |p|
    ensures ColumnSum(TiltedCells(p), x, lo, |p|) == LoadFrom(Tilt(Column(p, x))[lo..], |p|, lo)
    decreases |p| - lo
  {
    if lo < |p| {
      TiltedColumn(p, x, lo + 1);
      var t := Tilt(Column(p, x));
      assert t[lo..][1..] == t[lo + 1..];
      assert TiltedCells(p)(lo, x) == if t[lo] == 'O' then |p| - lo else 0;
    }
  }

  /** The scores of one column of the platform with its sentinel row are the
      load of that column of the input, tilted. */
  lemma ColumnLoaded(p: Grid, x: nat)
    requires Rectangular(p) && x < Width(p)
    ensures ColumnSum(CubeWeights(WithSentinel(p), ScoreAt(|p|)), x, 0, |p| + 1)
         == ColumnSum(TiltedCells(p), x, 0, |p|)
  {
    var q := WithSentinel(p);
    var c := Column(q, x);
    ColumnOfWeights(q, x, 0, ScoreAt(|p|));
    SentinelColumn(p, x);
    CubeScoresAreLoad(c, x, 0, |p|);
    assert c[1..] == Column(p, x);
    TiltedColumn(p, x, 0);
    assert Tilt(Column(p, x))[0..] == Tilt(Column(p, x));
  }

  // ---------------------------------------------------------------------------
  // The total load

  /** The sum `solve_part_one` prints, as written: the groups of the platform
      with the sentinel row, scored with `max_y = platform.shape[1]`, the
      number of columns. */
  function PrintedLoad(p: Grid): int
    requires Rectangular(p)
  {
    var platform := WithSentinel(p);
    TotalScore(RockGroups(platform), Width(platform))
  }

  /** The same sum scored with `max_y` the number of rows of the input,
      which the scores are measured from. */
  function NorthLoad(p: Grid): int
    requires Rectangular(p)
  {
    var platform := WithSentinel(p);
    TotalScore(RockGroups(platform), |platform| - 1)
  }

  /** Scoring every group with the input's row count gives the load after
      tilting north. */
  lemma NorthLoadIsTiltedLoad(p: Grid)
    requires Rectangular(p)
    ensures NorthLoad(p) == TiltedLoad(p)
  {
    var q := WithSentinel(p);
    RowsGroupsSum(q, |q|, ScoreAt(|p|));
    SumsInterchange(CubeWeights(q, ScoreAt(|p|)), |q|, Width(q));
    forall x | 0 <= x < Width(p)
      ensures ColumnSum(CubeWeights(q, ScoreAt(|p|)), x, 0, |q|) == ColumnSum(TiltedCells(p), x, 0, |p|)
    {
      ColumnLoaded(p, x);
    }
    ColumnMajorPointwise(CubeWeights(q, ScoreAt(|p|)), |q|, TiltedCells(p), |p|, Width(p));
  }

  /** On a square platform, such as the one in the source's example, the
      printed sum is the load. */
  lemma PrintedLoadOnSquare(p: Grid)
    requires Rectangular(p) && |p| == Width(p)
    ensures PrintedLoad(p) == TiltedLoad(p)
  {
    NorthLoadIsTiltedLoad(p);
  }

  /** The platform of one round rock above an empty cell has one group: the
      sentinel cube rock with that round rock. */
  lemma TallPlatformGroups()
    ensures Rectangular(["O", "."])
    ensures RockGroups(WithSentinel(["O", "."])) == [RockGroup(Point(0, 0), 1)]
  {
    var p: Grid := ["O", "."];
    var q := WithSentinel(p);
    assert q[0] == "#";
    assert q == ["#", "O", "."];
    assert Column(q, 0) == "#O.";
    assert FindCube("O.") == None;
    assert Rolling("#O.", 0) == 1;
    assert RowGroups(q, 0, 1) == [RockGroup(Point(0, 0), 1)];
    assert q[1][0] == 'O' && q[2][0] == '.';
    assert RowGroups(q, 1, 0) == [] && RowGroups(q, 2, 0) == [];
    assert RowGroups(q, 1, 1) == [] && RowGroups(q, 2, 1) == [];
    assert RowsGroups(q, 1) == [RockGroup(Point(0, 0), 1)];
    assert RowsGroups(q, 2) == [RockGroup(Point(0, 0), 1)];
  }

  /** On a platform taller than it is wide the printed sum is short: one
      round rock in a column of two cells weighs 2 once tilted, and the
      printed sum gives it 1. */
  lemma PrintedLoadMissesTallPlatform()
    ensures Rectangular(["O", "."])
    ensures PrintedLoad(["O", "."]) == 1
    ensures TiltedLoad(["O", "."]) == 2
  {
    var p: Grid := ["O", "."];
    var g := RockGroup(Point(0, 0), 1);
    TallPlatformGroups();
    assert [g][..0] == [];
    assert PrintedLoad(p) == Score(g, 1);
    assert NorthLoad(p) == Score(g, 2);
    NorthLoadIsTiltedLoad(p);
  }

  /** Lines 111-117 of `solve_part_one`: parse the platform, put the sentinel
      row on top, make the groups and add up their scores.  The source prints
      this number and returns the base class's result.  A platform without
      cells keeps none after the sentinel row is added, and the scan raises
      ValueError. */
  method PrintedTotal(input: string) returns (r: Result<int>)
    ensures Platform(input).Err? ==> r == Err(ValueError)
    ensures Platform(input).Ok? && ZeroSize(Platform(input).value) ==> r == Err(ValueError)
    ensures Platform(input).Ok? && !ZeroSize(Platform(input).value) ==> r == Ok(PrintedLoad(Platform(input).value))
  {
    match Platform(input)
    case Err(f) =>
      r := Err(f);
    case Ok(p) =>
      var platform := WithSentinel(p);
      var groups := GetRockGroups(platform);
      if groups.Err? {
        return Err(groups.failure);
      }
      var rockgroups := groups.value;
      var total := 0;
      for i := 0 to |rockgroups|
        invariant total == TotalScore(rockgroups[..i], Width(platform))
      {
        assert rockgroups[..i + 1][..i] == rockgroups[..i];
        total := total + Score(rockgroups[i], Width(platform));
      }
      assert rockgroups[..|rockgroups|] == rockgroups;
      r := Ok(total);
  }
}
