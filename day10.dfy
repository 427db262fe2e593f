/** Day 10: the loop of pipes through the start tile `S`, explored breadth
    first to find the tile farthest from the start
    (adventofcode2023/days/day10.py). */
module Day10 {
  import opened Wrappers
  import Text

  /** A position `(x, y)`: column, then row. */
  type Pos = (int, int)

  /** A queued position with its distance from the start. */
  type Item = (nat, Pos)

  function Add(p: Pos, d: Pos): Pos
  {
    (p.0 + d.0, p.1 + d.1)
  }

  // ---------------------------------------------------------------------------
  // Finding the start

  /** Whether `row.find('S')` counts as a find.  The source tests `x > 0`,
      which also rejects an `S` in column 0; `fixed` selects `x >= 0`, the
      test for "the row has an `S`". */
  predicate Found(x: int, fixed: bool)
  {
    if fixed then x >= 0 else x > 0
  }

  /** The rows from `y` on: the first whose `S` is found. */
  function StartFrom(rows: seq<string>, y: nat, fixed: bool): (r: Result<Pos>)
    requires y <= |rows|
    ensures r.Err? ==> r.failure == ValueError
    decreases |rows| - y
  {
    if y == |rows| then Err(ValueError)
    else
      var x := Text.FindChar(rows[y], 'S');
      if Found(x, fixed) then Ok((x, y)) else StartFrom(rows, y + 1, fixed)
  }

  /** `find_start_coordinates` over the lines of the input. */
  function FindStart(input: string, fixed: bool): Result<Pos>
  {
    StartFrom(Text.Split(input, "\n"), 0, fixed)
  }

  /** The search answers `(x, y)` exactly when row `y` is the first row whose
      first `S` is found, at column `x`; it raises ValueError exactly when no
      row's `S` is found. */
  lemma {:induction false} StartFromIsFirst(rows: seq<string>, y: nat, fixed: bool, p: Pos)
    requires y <= |rows|
    ensures StartFrom(rows, y, fixed) == Ok(p) <==>
            y <= p.1 < |rows| && p.0 == Text.FindChar(rows[p.1], 'S') && Found(p.0, fixed) &&
            forall j :: y <= j < p.1 ==> !Found(Text.FindChar(rows[j], 'S'), fixed)
    ensures StartFrom(rows, y, fixed).Err? <==> forall j :: y <= j < |rows| ==> !Found(Text.FindChar(rows[j], 'S'), fixed)
    decreases |rows| - y
  {
    if y < |rows| {
      StartFromIsFirst(rows, y + 1, fixed, p);
    }
  }

  /** With the corrected test the start is the first `S` of the first row
      that has one. */
  lemma StartIsFirstS(rows: seq<string>, p: Pos)
    requires StartFrom(rows, 0, true) == Ok(p)
    ensures 0 <= p.1 < |rows| && 0 <= p.0 < |rows[p.1]| && rows[p.1][p.0] == 'S'
    ensures forall i :: 0 <= i < p.0 ==> rows[p.1][i] != 'S'
    ensures forall j, i :: 0 <= j < p.1 && 0 <= i < |rows[j]| ==> rows[j][i] != 'S'
  {
    StartFromIsFirst(rows, 0, true, p);
  }

  /** As written, an `S` in column 0 is skipped: a grid whose only `S` is in
      column 0 has no start. */
  lemma StartAsWrittenMissesColumnZero()
    ensures StartFrom(["S7", "LJ"], 0, false) == Err(ValueError)
    ensures StartFrom(["S7", "LJ"], 0, true) == Ok((0, 0))
  {
    assert Text.FindChar("S7", 'S') == 0;
    assert Text.FindChar("LJ", 'S') == -1;
  }

  /** The first test grid starts at (1, 1). */
  lemma StartExampleOne()
    ensures StartFrom([".....", ".S-7.", ".|.|.", ".L-J.", "....."], 0, false) == Ok((1, 1))
  {
    assert Text.FindChar(".....", 'S') == -1;
    assert Text.FindChar(".S-7.", 'S') == 1;
  }

  /** The second test grid starts at (3, 3). */
  lemma StartExampleTwo()
    ensures StartFrom([".....", ".F-7.", ".|.|.", ".L-S.", "....."], 0, false) == Ok((3, 3))
  {
    var rows := [".....", ".F-7.", ".|.|.", ".L-S.", "....."];
    assert Text.FindChar(".....", 'S') == -1;
    assert Text.FindChar(".F-7.", 'S') == -1;
    assert Text.FindChar(".|.|.", 'S') == -1;
    assert Text.FindChar(".L-S.", 'S') == 3;
    assert StartFrom(rows, 3, false) == Ok((3, 3));
    assert StartFrom(rows, 1, false) == StartFrom(rows, 3, false);
  }

  /** `find_start_coordinates` as the source runs it: row by row. */
  method FindStartCoordinates(input: string, fixed: bool) returns (r: Result<Pos>)
    ensures r == FindStart(input, fixed)
  {
    var rows := Text.Split(input, "\n");
    for y := 0 to |rows|
      invariant StartFrom(rows, 0, fixed) == StartFrom(rows, y, fixed)
    {
      var x := Text.FindChar(rows[y], 'S');
      if Found(x, fixed) {
        return Ok((x, y));
      }
    }
    return Err(ValueError);
  }

  // ---------------------------------------------------------------------------
  // Pipes

  /** `pipe_ends`: the two offsets each pipe connects; no other tile is a
      pipe. */
  function Ends(c: char): Option<seq<Pos>>
  {
    match c {
      case '|' => Some([(0, -1), (0, 1)])
      case '-' => Some([(-1, 0), (1, 0)])
      case 'L' => Some([(0, -1), (1, 0)])
      case 'J' => Some([(0, -1), (-1, 0)])
      case '7' => Some([(-1, 0), (0, 1)])
      case 'F' => Some([(1, 0), (0, 1)])
      case _ => None
    }
  }

  /** A unit step to a horizontal or vertical neighbour. */
  predicate Unit(d: Pos)
  {
    d in {(0, -1), (0, 1), (-1, 0), (1, 0)}
  }

  /** Exactly the six pipe symbols are pipes, and each connects two
      different neighbours. */
  lemma PipesConnectTwoNeighbours(c: char)
    ensures Ends(c).Some? <==> c in "|-LJ7F"
    ensures Ends(c).Some? ==> |Ends(c).value| == 2 && Ends(c).value[0] != Ends(c).value[1] &&
                              Unit(Ends(c).value[0]) && Unit(Ends(c).value[1])
  {
  }

  /** The tile at `p` with Python's indexing `grid[y][x]`: a negative index
      counts from the end, anything else outside the grid raises
      IndexError. */
  function Cell(grid: seq<string>, p: Pos): (r: Result<char>)
    ensures r.Err? ==> r.failure == IndexError
  {
    match Text.At(grid, p.1) {
      case None => Err(IndexError)
      case Some(row) =>
        match Text.At(row, p.0) {
          case None => Err(IndexError)
          case Some(c) => Ok(c)
        }
    }
  }

  /** The ends of the pipe at `p`, when there is a pipe there. */
  function PipeAt(grid: seq<string>, p: Pos): Option<seq<Pos>>
  {
    match Cell(grid, p) {
      case Err(_) => None
      case Ok(c) => Ends(c)
    }
  }

  /** The pipe at `q` has an end at `p`. */
  predicate Linked(grid: seq<string>, q: Pos, p: Pos)
  {
    PipeAt(grid, q).Some? &&
    exists j :: 0 <= j < |PipeAt(grid, q).value| && Add(q, PipeAt(grid, q).value[j]) == p
  }

  // ---------------------------------------------------------------------------
  // The tiles next to the start

  /** The neighbours of the start, in the order the source tries them. */
  const Directions: seq<Pos> := [(-1, 0), (1, 0), (0, 1), (0, -1)]

  /** One queued entry, at distance 1, for each end of `ends` (the pipe one
      step `dir` away from the start) that leads back to the start. */
  function Backs(ends: seq<Pos>, dir: Pos, p: Pos): (r: seq<Item>)
    ensures forall i :: 0 <= i < |r| ==> r[i] == (1, p)
    ensures |r| > 0 <==> exists j :: 0 <= j < |ends| && Add(dir, ends[j]) == (0, 0)
  {
    if ends == [] then []
    else
      var n := |ends| - 1;
      Backs(ends[..n], dir, p) + (if Add(dir, ends[n]) == (0, 0) then [(1, p)] else [])
  }

  lemma BacksStep(ends: seq<Pos>, j: nat, dir: Pos, p: Pos)
    requires j < |ends|
    ensures Backs(ends[..j + 1], dir, p) ==
            Backs(ends[..j], dir, p) + (if Add(dir, ends[j]) == (0, 0) then [(1, p)] else [])
  {
    assert ends[..j + 1][..j] == ends[..j];
  }

  /** The entries the tile `c`, one step `dir` away from the start, adds. */
  function BacksOf(c: char, dir: Pos, p: Pos): seq<Item>
  {
    if Ends(c).Some? then Backs(Ends(c).value, dir, p) else []
  }

  /** One more direction of the start queue. */
  lemma SeedsStep(grid: seq<string>, s: Pos, k: nat, q: seq<Item>, c: char)
    requires k < |Directions| && SeedsUpTo(grid, s, k) == Ok(q)
    requires Cell(grid, Add(s, Directions[k])) == Ok(c)
    ensures SeedsUpTo(grid, s, k + 1) == Ok(q + BacksOf(c, Directions[k], Add(s, Directions[k])))
  {
  }

  lemma SeedsStepFails(grid: seq<string>, s: Pos, k: nat, q: seq<Item>)
    requires k < |Directions| && SeedsUpTo(grid, s, k) == Ok(q)
    requires Cell(grid, Add(s, Directions[k])).Err?
    ensures SeedsUpTo(grid, s, k + 1) == Err(IndexError)
  {
  }

  /** The pipe one step `dir` away from `s` has an end at `s`. */
  predicate PointsBack(grid: seq<string>, s: Pos, dir: Pos)
  {
    Linked(grid, Add(s, dir), s)
  }

  /** The start queue after the first `k` directions: the neighbours whose
      pipe leads back to `s`; a neighbour outside the grid raises
      IndexError. */
  function SeedsUpTo(grid: seq<string>, s: Pos, k: nat): (r: Result<seq<Item>>)
    requires k <= |Directions|
    ensures r.Err? ==> r.failure == IndexError
  {
    if k == 0 then Ok([])
    else match SeedsUpTo(grid, s, k - 1) {
      case Err(e) => Err(e)
      case Ok(q) =>
        var p := Add(s, Directions[k - 1]);
        match Cell(grid, p) {
          case Err(e) => Err(e)
          case Ok(c) => Ok(q + BacksOf(c, Directions[k - 1], p))
        }
    }
  }

  /** `p` is one step from `s` and its pipe leads back to `s`. */
  predicate IsSeed(grid: seq<string>, s: Pos, p: Pos)
  {
    exists k :: 0 <= k < |Directions| && p == Add(s, Directions[k]) && PointsBack(grid, s, Directions[k])
  }

  lemma LinkedBack(grid: seq<string>, s: Pos, dir: Pos)
    ensures PointsBack(grid, s, dir) <==>
            PipeAt(grid, Add(s, dir)).Some? &&
            exists j :: 0 <= j < |PipeAt(grid, Add(s, dir)).value| && Add(dir, PipeAt(grid, Add(s, dir)).value[j]) == (0, 0)
  {
    var p := Add(s, dir);
    if PipeAt(grid, p).Some? {
      var es := PipeAt(grid, p).value;
      assert forall j :: 0 <= j < |es| ==> (Add(p, es[j]) == s <==> Add(dir, es[j]) == (0, 0));
    }
  }

  /** The tile one step `dir` from the start adds entries, all for itself
      at distance 1, exactly when its pipe leads back to the start. */
  lemma BacksOfMeans(grid: seq<string>, s: Pos, dir: Pos, c: char)
    requires Cell(grid, Add(s, dir)) == Ok(c)
    ensures forall i :: 0 <= i < |BacksOf(c, dir, Add(s, dir))| ==> BacksOf(c, dir, Add(s, dir))[i] == (1, Add(s, dir))
    ensures |BacksOf(c, dir, Add(s, dir))| > 0 <==> PointsBack(grid, s, dir)
  {
    LinkedBack(grid, s, dir);
  }

  /** The start queue holds, at distance 1, exactly the neighbours of the
      start whose pipe leads back to it. */
  lemma SeedsPointBack(grid: seq<string>, s: Pos, k: nat)
    requires k <= |Directions| && SeedsUpTo(grid, s, k).Ok?
    ensures forall i :: 0 <= i < |SeedsUpTo(grid, s, k).value| ==>
              SeedsUpTo(grid, s, k).value[i].0 == 1 && IsSeed(grid, s, SeedsUpTo(grid, s, k).value[i].1)
    ensures forall d :: 0 <= d < k && PointsBack(grid, s, Directions[d]) ==>
              exists i :: 0 <= i < |SeedsUpTo(grid, s, k).value| && SeedsUpTo(grid, s, k).value[i].1 == Add(s, Directions[d])
  {
    SeedsAreSeeds(grid, s, k);
    SeedsCover(grid, s, k);
  }

  lemma {:induction false} SeedsAreSeeds(grid: seq<string>, s: Pos, k: nat)
    requires k <= |Directions| && SeedsUpTo(grid, s, k).Ok?
    ensures forall i :: 0 <= i < |SeedsUpTo(grid, s, k).value| ==>
              SeedsUpTo(grid, s, k).value[i].0 == 1 && IsSeed(grid, s, SeedsUpTo(grid, s, k).value[i].1)
  {
    if k > 0 {
      SeedsAreSeeds(grid, s, k - 1);
      var q := SeedsUpTo(grid, s, k - 1).value;
      var dir := Directions[k - 1];
      var p := Add(s, dir);
      var c := Cell(grid, p).value;
      SeedsStep(grid, s, k - 1, q, c);
      BacksOfMeans(grid, s, dir, c);
      var more := BacksOf(c, dir, p);
      var r := q + more;
      forall i | 0 <= i < |r| ensures r[i].0 == 1 && IsSeed(grid, s, r[i].1) {
        if i < |q| {
          assert r[i] == q[i];
        } else {
          assert r[i] == more[i - |q|];
          assert p == Add(s, Directions[k - 1]) && PointsBack(grid, s, Directions[k - 1]);
        }
      }
    }
  }

  lemma {:induction false} SeedsCover(grid: seq<string>, s: Pos, k: nat)
    requires k <= |Directions| && SeedsUpTo(grid, s, k).Ok?
    ensures forall d :: 0 <= d < k && PointsBack(grid, s, Directions[d]) ==>
              exists i :: 0 <= i < |SeedsUpTo(grid, s, k).value| && SeedsUpTo(grid, s, k).value[i].1 == Add(s, Directions[d])
  {
    if k > 0 {
      SeedsCover(grid, s, k - 1);
      var q := SeedsUpTo(grid, s, k - 1).value;
      var dir := Directions[k - 1];
      var p := Add(s, dir);
      var c := Cell(grid, p).value;
      SeedsStep(grid, s, k - 1, q, c);
      BacksOfMeans(grid, s, dir, c);
      var more := BacksOf(c, dir, p);
      var r := q + more;
      forall d | 0 <= d < k && PointsBack(grid, s, Directions[d])
        ensures exists i :: 0 <= i < |r| && r[i].1 == Add(s, Directions[d])
      {
        if d < k - 1 {
          var i :| 0 <= i < |q| && q[i].1 == Add(s, Directions[d]);
          assert r[i] == q[i];
        } else {
          assert r[|q|] == more[0];
        }
      }
    }
  }

  /** A failing neighbour fails the whole start queue. */
  lemma {:induction false} SeedsFail(grid: seq<string>, s: Pos, k: nat, n: nat)
    requires k <= n <= |Directions| && SeedsUpTo(grid, s, k).Err?
    ensures SeedsUpTo(grid, s, n) == SeedsUpTo(grid, s, k)
    decreases n - k
  {
    if k < n {
      SeedsFail(grid, s, k, n - 1);
    }
  }

  /** Queueing the tile `p` once for each end of its pipe that leads back to
      the start. */
  method EnqueueBacks(q: seq<Item>, ends: seq<Pos>, dir: Pos, p: Pos) returns (r: seq<Item>)
    ensures r == q + Backs(ends, dir, p)
  {
    r := q;
    for j := 0 to |ends|
      invariant r == q + Backs(ends[..j], dir, p)
    {
      BacksStep(ends, j, dir, p);
      if Add(dir, ends[j]) == (0, 0) {
        r := r + [(1, p)];
      }
    }
    assert ends[..|ends|] == ends;
  }

  /** The start queue as the source builds it: the four neighbours in turn,
      and for each the ends of its pipe in turn. */
  method LoadSeeds(grid: seq<string>, s: Pos) returns (r: Result<seq<Item>>)
    ensures r == SeedsUpTo(grid, s, |Directions|)
  {
    var q: seq<Item> := [];
    for k := 0 to |Directions|
      invariant SeedsUpTo(grid, s, k) == Ok(q)
    {
      var next := LoadDirection(grid, s, k, q);
      if next.Err? {
        SeedsFail(grid, s, k + 1, |Directions|);
        return next;
      }
      q := next.value;
    }
    return Ok(q);
  }

  /** One direction of the start queue: the neighbour's tile, and an entry
      for each end of its pipe that leads back to the start. */
  method LoadDirection(grid: seq<string>, s: Pos, k: nat, q: seq<Item>) returns (r: Result<seq<Item>>)
    requires k < |Directions| && SeedsUpTo(grid, s, k) == Ok(q)
    ensures r == SeedsUpTo(grid, s, k + 1)
  {
    var dir := Directions[k];
    var p := Add(s, dir);
    var c := Cell(grid, p);
    if c.Err? {
      SeedsStepFails(grid, s, k, q);
      return Err(c.failure);
    }
    SeedsStep(grid, s, k, q, c.value);
    var ends := Ends(c.value);
    if ends.Some? {
      var more := EnqueueBacks(q, ends.value, dir, p);
      return Ok(more);
    }
    assert q + BacksOf(c.value, dir, p) == q;
    return Ok(q);
  }

  // ---------------------------------------------------------------------------
  // Exploring the loop

  /** The recorded distance of `p` is explained by the exploration: the
      start has distance 0, a neighbour of the start that leads back to it
      has distance 1, and any other tile is one step further than a recorded
      pipe (other than the start) that has an end at it. */
  predicate Explained(grid: seq<string>, s: Pos, dist: map<Pos, nat>, d: nat, p: Pos)
  {
    (d == 1 && IsSeed(grid, s, p)) ||
    exists q :: q in dist && q != s && dist[q] + 1 == d && Linked(grid, q, p)
  }

  /** Every recorded pipe other than the start has each of its ends
      recorded, and so has every queued seed. */
  predicate Closed(grid: seq<string>, s: Pos, dist: map<Pos, nat>)
  {
    forall p :: p in dist && p != s ==>
      PipeAt(grid, p).Some? && forall j :: 0 <= j < |PipeAt(grid, p).value| ==> Add(p, PipeAt(grid, p).value[j]) in dist
  }

  /** The distance map the exploration ends with: the start at distance 0;
      every other recorded tile a pipe, with a distance explained by a
      recorded neighbour; every seed recorded; every end of every recorded
      pipe recorded. */
  ghost predicate LoopMap(grid: seq<string>, s: Pos, seeds: seq<Item>, dist: map<Pos, nat>)
  {
    s in dist && dist[s] == 0 &&
    (forall p :: p in dist && p != s ==> Explained(grid, s, dist, dist[p], p)) &&
    (forall i :: 0 <= i < |seeds| ==> seeds[i].1 in dist) &&
    Closed(grid, s, dist) &&
    Shortest(grid, s, dist)
  }

  /** No distance is larger than it must be: every neighbour of the start
      that leads back to it is recorded at distance at most 1, and a tile
      at an end of a recorded pipe (other than the start) is at most one
      step further than the pipe. */
  ghost predicate Shortest(grid: seq<string>, s: Pos, dist: map<Pos, nat>)
  {
    (forall p :: IsSeed(grid, s, p) ==> p in dist && dist[p] <= 1) &&
    (forall p, q :: p in dist && q in dist && p != s && Linked(grid, p, q) ==> dist[q] <= dist[p] + 1)
  }

  /** The positions still waiting in the queue. */
  function Pending(queue: seq<Item>): set<Pos>
  {
    set i | 0 <= i < |queue| :: queue[i].1
  }

  lemma PendingPop(queue: seq<Item>)
    requires queue != []
    ensures Pending(queue) == Pending(queue[1..]) + {queue[0].1}
  {
    forall p | p in Pending(queue) ensures p in Pending(queue[1..]) + {queue[0].1} {
      var i :| 0 <= i < |queue| && queue[i].1 == p;
      if i > 0 {
        assert queue[1..][i - 1] == queue[i];
      }
    }
    forall p | p in Pending(queue[1..]) ensures p in Pending(queue) {
      var i :| 0 <= i < |queue[1..]| && queue[1..][i].1 == p;
      assert queue[i + 1] == queue[1..][i];
    }
  }

  lemma PendingAppend(a: seq<Item>, b: seq<Item>)
    ensures Pending(a + b) == Pending(a) + Pending(b)
  {
    var r := a + b;
    forall p | p in Pending(r) ensures p in Pending(a) + Pending(b) {
      var i :| 0 <= i < |r| && r[i].1 == p;
      if i < |a| {
        assert r[i] == a[i];
      } else {
        assert r[i] == b[i - |a|];
      }
    }
    forall p | p in Pending(a) ensures p in Pending(r) {
      var i :| 0 <= i < |a| && a[i].1 == p;
      assert r[i] == a[i];
    }
    forall p | p in Pending(b) ensures p in Pending(r) {
      var i :| 0 <= i < |b| && b[i].1 == p;
      assert r[|a| + i] == b[i];
    }
  }

  /** The longest row. */
  function Width(grid: seq<string>): (w: nat)
    ensures forall y :: 0 <= y < |grid| ==> |grid[y]| <= w
  {
    if grid == [] then 0
    else var w := Width(grid[1..]); if |grid[0]| > w then |grid[0]| else w
  }

  /** The positions Python indexing accepts, and the start. */
  function Box(grid: seq<string>, s: Pos): set<Pos>
  {
    var w: int := Width(grid);
    var h: int := |grid|;
    (set x: int, y: int | -w <= x < w && -h <= y < h :: (x, y)) + {s}
  }

  lemma CellInBox(grid: seq<string>, s: Pos, p: Pos)
    requires Cell(grid, p).Ok?
    ensures p in Box(grid, s)
  {
    var row := Text.At(grid, p.1).value;
    assert -|grid| <= p.1 < |grid|;
    assert |row| <= Width(grid);
  }

  /** What holds before each step of the exploration: the start recorded
      at distance 0, every recorded tile inside the grid and explained,
      every queued entry explained, and every seed and every end of every
      recorded pipe recorded or still queued. */
  predicate Exploring(grid: seq<string>, s: Pos, seeds: seq<Item>, dist: map<Pos, nat>, queue: seq<Item>)
  {
    s in dist && dist[s] == 0 && dist.Keys <= Box(grid, s) &&
    (forall p :: p in dist && p != s ==> Explained(grid, s, dist, dist[p], p)) &&
    (forall i :: 0 <= i < |queue| ==> Explained(grid, s, dist, queue[i].0, queue[i].1)) &&
    (forall i :: 0 <= i < |seeds| ==> seeds[i].1 in dist || seeds[i].1 in Pending(queue)) &&
    (forall p :: p in dist && p != s ==>
       PipeAt(grid, p).Some? && forall j :: 0 <= j < |PipeAt(grid, p).value| ==>
         Add(p, PipeAt(grid, p).value[j]) in dist || Add(p, PipeAt(grid, p).value[j]) in Pending(queue))
  }

  /** The entries queued for the ends of the pipe at `p`, one step further
      than `p`'s distance `d`. */
  function Pushes(d: nat, p: Pos, ends: seq<Pos>): (r: seq<Item>)
    ensures |r| == |ends| && forall i :: 0 <= i < |ends| ==> r[i] == (d + 1, Add(p, ends[i]))
  {
    if ends == [] then [] else Pushes(d, p, ends[..|ends| - 1]) + [(d + 1, Add(p, ends[|ends| - 1]))]
  }

  lemma PushesStep(d: nat, p: Pos, ends: seq<Pos>, j: nat)
    requires j < |ends|
    ensures Pushes(d, p, ends[..j + 1]) == Pushes(d, p, ends[..j]) + [(d + 1, Add(p, ends[j]))]
  {
    assert ends[..j + 1][..j] == ends[..j];
  }

  lemma ExploringStarts(grid: seq<string>, s: Pos, seeds: seq<Item>)
    requires SeedsUpTo(grid, s, |Directions|) == Ok(seeds)
    ensures Exploring(grid, s, seeds, map[s := 0], seeds)
  {
    SeedsPointBack(grid, s, |Directions|);
    forall i | 0 <= i < |seeds| ensures seeds[i].1 in Pending(seeds) {
    }
  }

  /** Taking an entry whose tile is recorded changes nothing else. */
  lemma ExploringSkips(grid: seq<string>, s: Pos, seeds: seq<Item>, dist: map<Pos, nat>, queue: seq<Item>)
    requires Exploring(grid, s, seeds, dist, queue) && queue != [] && queue[0].1 in dist
    ensures Exploring(grid, s, seeds, dist, queue[1..])
  {
    PendingPop(queue);
  }

  /** Recording a new tile keeps every explanation of the others. */
  lemma ExplainedGrows(grid: seq<string>, s: Pos, dist: map<Pos, nat>, dist2: map<Pos, nat>, p: Pos, d: nat, e: nat, t: Pos)
    requires p !in dist && dist2 == dist[p := d] && Explained(grid, s, dist, e, t)
    ensures Explained(grid, s, dist2, e, t)
  {
    if !(e == 1 && IsSeed(grid, s, t)) {
      var q :| q in dist && q != s && dist[q] + 1 == e && Linked(grid, q, t);
      assert q in dist2 && dist2[q] == dist[q];
    }
  }

  lemma RecordExplains(grid: seq<string>, s: Pos, seeds: seq<Item>, dist: map<Pos, nat>, queue: seq<Item>,
                       dist2: map<Pos, nat>, queue2: seq<Item>)
    requires Exploring(grid, s, seeds, dist, queue) && queue != [] && queue[0].1 !in dist
    requires PipeAt(grid, queue[0].1).Some?
    requires dist2 == dist[queue[0].1 := queue[0].0]
    requires queue2 == queue[1..] + Pushes(queue[0].0, queue[0].1, PipeAt(grid, queue[0].1).value)
    ensures forall t :: t in dist2 && t != s ==> Explained(grid, s, dist2, dist2[t], t)
    ensures forall i :: 0 <= i < |queue2| ==> Explained(grid, s, dist2, queue2[i].0, queue2[i].1)
  {
    var (d, p) := queue[0];
    var ends := PipeAt(grid, p).value;
    var pushed := Pushes(d, p, ends);
    forall t | t in dist2 && t != s ensures Explained(grid, s, dist2, dist2[t], t) {
      if t == p {
        ExplainedGrows(grid, s, dist, dist2, p, d, d, p);
      } else {
        ExplainedGrows(grid, s, dist, dist2, p, d, dist[t], t);
      }
    }
    forall i | 0 <= i < |queue2| ensures Explained(grid, s, dist2, queue2[i].0, queue2[i].1) {
      if i < |queue| - 1 {
        assert queue2[i] == queue[i + 1];
        ExplainedGrows(grid, s, dist, dist2, p, d, queue[i + 1].0, queue[i + 1].1);
      } else {
        var j := i - (|queue| - 1);
        assert queue2[i] == pushed[j];
        assert Linked(grid, p, Add(p, ends[j]));
      }
    }
  }

  lemma RecordKeepsPending(grid: seq<string>, s: Pos, seeds: seq<Item>, dist: map<Pos, nat>, queue: seq<Item>,
                           dist2: map<Pos, nat>, queue2: seq<Item>)
    requires Exploring(grid, s, seeds, dist, queue) && queue != [] && queue[0].1 !in dist
    requires PipeAt(grid, queue[0].1).Some?
    requires dist2 == dist[queue[0].1 := queue[0].0]
    requires queue2 == queue[1..] + Pushes(queue[0].0, queue[0].1, PipeAt(grid, queue[0].1).value)
    ensures forall i :: 0 <= i < |seeds| ==> seeds[i].1 in dist2 || seeds[i].1 in Pending(queue2)
    ensures forall t :: t in dist2 && t != s ==>
       PipeAt(grid, t).Some? && forall j :: 0 <= j < |PipeAt(grid, t).value| ==>
         Add(t, PipeAt(grid, t).value[j]) in dist2 || Add(t, PipeAt(grid, t).value[j]) in Pending(queue2)
  {
    var (d, p) := queue[0];
    var ends := PipeAt(grid, p).value;
    var pushed := Pushes(d, p, ends);
    PendingPop(queue);
    PendingAppend(queue[1..], pushed);
    assert Pending(queue) <= dist2.Keys + Pending(queue2);
    forall t | t in dist2 && t != s
      ensures PipeAt(grid, t).Some? && forall j :: 0 <= j < |PipeAt(grid, t).value| ==>
         Add(t, PipeAt(grid, t).value[j]) in dist2 || Add(t, PipeAt(grid, t).value[j]) in Pending(queue2)
    {
      if t == p {
        forall j | 0 <= j < |ends| ensures Add(p, ends[j]) in Pending(pushed) {
          assert pushed[j].1 == Add(p, ends[j]);
        }
      }
    }
  }

  lemma ExploringRecords(grid: seq<string>, s: Pos, seeds: seq<Item>, dist: map<Pos, nat>, queue: seq<Item>,
                         dist2: map<Pos, nat>, queue2: seq<Item>)
    requires Exploring(grid, s, seeds, dist, queue) && queue != [] && queue[0].1 !in dist
    requires Cell(grid, queue[0].1).Ok? && PipeAt(grid, queue[0].1).Some?
    requires dist2 == dist[queue[0].1 := queue[0].0]
    requires queue2 == queue[1..] + Pushes(queue[0].0, queue[0].1, PipeAt(grid, queue[0].1).value)
    ensures Exploring(grid, s, seeds, dist2, queue2)
    ensures |Box(grid, s) - dist2.Keys| < |Box(grid, s) - dist.Keys|
  {
    var p := queue[0].1;
    CellInBox(grid, s, p);
    RecordExplains(grid, s, seeds, dist, queue, dist2, queue2);
    RecordKeepsPending(grid, s, seeds, dist, queue, dist2, queue2);
    var rest := Box(grid, s) - dist.Keys;
    assert Box(grid, s) - dist2.Keys == rest - {p};
    assert p in rest;
    assert |rest - {p}| == |rest| - 1;
  }

  /** When the queue is empty the exploration is complete. */
  lemma ExploringDone(grid: seq<string>, s: Pos, seeds: seq<Item>, dist: map<Pos, nat>, level: nat)
    requires Exploring(grid, s, seeds, dist, []) && Ordered(grid, s, dist, [], level)
    ensures LoopMap(grid, s, seeds, dist)
  {
    forall p, q | p in dist && q in dist && p != s && Linked(grid, p, q)
      ensures dist[q] <= dist[p] + 1
    {
      var ends := PipeAt(grid, p).value;
      var j :| 0 <= j < |ends| && Add(p, ends[j]) == q;
      assert Within(dist, [], Add(p, ends[j]), dist[p] + 1);
    }
  }

  // ---------------------------------------------------------------------------
  // The distances are the lengths of the shortest walks

  /** `w` walks from the start to `t`: first to a neighbour whose pipe leads
      back to the start, then from pipe to pipe along their ends, never
      through the start again. */
  ghost predicate WalkTo(grid: seq<string>, s: Pos, w: seq<Pos>, t: Pos)
  {
    |w| >= 2 && w[0] == s && IsSeed(grid, s, w[1]) && w[|w| - 1] == t &&
    forall i :: 1 <= i < |w| - 1 ==> w[i] != s && Linked(grid, w[i], w[i + 1])
  }

  lemma WalkFront(grid: seq<string>, s: Pos, w: seq<Pos>, t: Pos)
    requires WalkTo(grid, s, w, t) && |w| > 2
    ensures WalkTo(grid, s, w[..|w| - 1], w[|w| - 2])
    ensures w[|w| - 2] != s && Linked(grid, w[|w| - 2], t)
  {
    var front := w[..|w| - 1];
    forall i | 1 <= i < |front| - 1
      ensures front[i] != s && Linked(grid, front[i], front[i + 1])
    {
      assert front[i] == w[i] && front[i + 1] == w[i + 1];
    }
  }

  lemma WalkOn(grid: seq<string>, s: Pos, v: seq<Pos>, q: Pos, p: Pos)
    requires WalkTo(grid, s, v, q) && q != s && Linked(grid, q, p)
    ensures WalkTo(grid, s, v + [p], p)
  {
    var w := v + [p];
    forall i | 1 <= i < |w| - 1
      ensures w[i] != s && Linked(grid, w[i], w[i + 1])
    {
      assert w[i] == v[i];
      if i < |v| - 1 {
        assert w[i + 1] == v[i + 1];
      }
    }
  }

  /** Every walk from the start ends on a recorded tile, and is at least as
      long as its recorded distance. */
  lemma {:induction false} WalkIsNoShorter(grid: seq<string>, s: Pos, dist: map<Pos, nat>, w: seq<Pos>, t: Pos)
    requires Closed(grid, s, dist) && Shortest(grid, s, dist) && WalkTo(grid, s, w, t)
    ensures t in dist && dist[t] <= |w| - 1
    decreases |w|
  {
    if |w| > 2 {
      var p := w[|w| - 2];
      WalkFront(grid, s, w, t);
      WalkIsNoShorter(grid, s, dist, w[..|w| - 1], p);
      var ends := PipeAt(grid, p).value;
      var j :| 0 <= j < |ends| && Add(p, ends[j]) == t;
    }
  }

  /** Every recorded tile other than the start ends a walk exactly as long
      as its recorded distance. */
  lemma {:induction false} DistanceIsWalked(grid: seq<string>, s: Pos, dist: map<Pos, nat>, p: Pos)
    requires forall t :: t in dist && t != s ==> Explained(grid, s, dist, dist[t], t)
    requires p in dist && p != s
    ensures exists w :: WalkTo(grid, s, w, p) && |w| == dist[p] + 1
    decreases dist[p]
  {
    if dist[p] == 1 && IsSeed(grid, s, p) {
      assert WalkTo(grid, s, [s, p], p);
    } else {
      assert Explained(grid, s, dist, dist[p], p);
      var q :| q in dist && q != s && dist[q] + 1 == dist[p] && Linked(grid, q, p);
      DistanceIsWalked(grid, s, dist, q);
      var v :| WalkTo(grid, s, v, q) && |v| == dist[q] + 1;
      WalkOn(grid, s, v, q, p);
      assert |v + [p]| == dist[p] + 1;
    }
  }

  /** The map the exploration ends with records the length of the shortest
      walk from the start: every walk ends on a recorded tile no shorter
      than its distance, and some walk is exactly that long. */
  lemma LoopMapIsShortest(grid: seq<string>, s: Pos, seeds: seq<Item>, dist: map<Pos, nat>, p: Pos)
    requires LoopMap(grid, s, seeds, dist) && p in dist && p != s
    ensures exists w :: WalkTo(grid, s, w, p) && |w| - 1 == dist[p]
    ensures forall w :: WalkTo(grid, s, w, p) ==> dist[p] <= |w| - 1
  {
    DistanceIsWalked(grid, s, dist, p);
    forall w | WalkTo(grid, s, w, p)
      ensures dist[p] <= |w| - 1
    {
      WalkIsNoShorter(grid, s, dist, w, p);
    }
  }

  // ---------------------------------------------------------------------------
  // The queue is first in, first out

  /** The positions queued at distance at most `e`. */
  function Upto(queue: seq<Item>, e: nat): set<Pos>
  {
    set i | 0 <= i < |queue| && queue[i].0 <= e :: queue[i].1
  }

  /** `q` is recorded at distance at most `e`, or queued at most that far. */
  predicate Within(dist: map<Pos, nat>, queue: seq<Item>, q: Pos, e: nat)
  {
    if q in dist then dist[q] <= e else q in Upto(queue, e)
  }

  predicate Sorted(queue: seq<Item>)
  {
    forall i, j :: 0 <= i <= j < |queue| ==> queue[i].0 <= queue[j].0
  }

  /** What the first-in, first-out order keeps before each step, `level`
      being the distance last taken from the queue: no recorded distance
      above it; the queue sorted, between `level` and `level + 1`; and
      every neighbour of the start leading back to it, and every end of a
      recorded pipe, recorded or queued no further than one step past it. */
  ghost predicate Ordered(grid: seq<string>, s: Pos, dist: map<Pos, nat>, queue: seq<Item>, level: nat)
  {
    (forall p :: p in dist ==> dist[p] <= level) &&
    (forall i :: 0 <= i < |queue| ==> level <= queue[i].0 <= level + 1) &&
    Sorted(queue) &&
    (forall p :: IsSeed(grid, s, p) ==> Within(dist, queue, p, 1)) &&
    (forall p :: p in dist && p != s && PipeAt(grid, p).Some? ==>
       forall j :: 0 <= j < |PipeAt(grid, p).value| ==> Within(dist, queue, Add(p, PipeAt(grid, p).value[j]), dist[p] + 1))
  }

  lemma UptoPop(queue: seq<Item>, e: nat, q: Pos)
    requires queue != [] && q in Upto(queue, e) && q != queue[0].1
    ensures q in Upto(queue[1..], e)
  {
    var i :| 0 <= i < |queue| && queue[i].0 <= e && queue[i].1 == q;
    assert queue[1..][i - 1] == queue[i];
  }

  lemma UptoAppend(a: seq<Item>, b: seq<Item>, e: nat, q: Pos)
    requires q in Upto(a, e) || q in Upto(b, e)
    ensures q in Upto(a + b, e)
  {
    if q in Upto(a, e) {
      var i :| 0 <= i < |a| && a[i].0 <= e && a[i].1 == q;
      assert (a + b)[i] == a[i];
    } else {
      var i :| 0 <= i < |b| && b[i].0 <= e && b[i].1 == q;
      assert (a + b)[|a| + i] == b[i];
    }
  }

  /** In a sorted queue, the first entry is no further than any other. */
  lemma UptoHead(queue: seq<Item>, e: nat, q: Pos)
    requires Sorted(queue) && q in Upto(queue, e)
    ensures queue[0].0 <= e
  {
    var i :| 0 <= i < |queue| && queue[i].0 <= e && queue[i].1 == q;
  }

  /** Taking a recorded entry off the queue keeps `Within`. */
  lemma WithinSkip(dist: map<Pos, nat>, queue: seq<Item>, q: Pos, e: nat)
    requires queue != [] && queue[0].1 in dist && Within(dist, queue, q, e)
    ensures Within(dist, queue[1..], q, e)
  {
    if q !in dist {
      UptoPop(queue, e, q);
    }
  }

  /** Recording the first entry and queueing more keeps `Within`. */
  lemma WithinRecord(dist: map<Pos, nat>, queue: seq<Item>, pushed: seq<Item>, q: Pos, e: nat)
    requires queue != [] && queue[0].1 !in dist && Sorted(queue) && Within(dist, queue, q, e)
    ensures Within(dist[queue[0].1 := queue[0].0], queue[1..] + pushed, q, e)
  {
    if q == queue[0].1 {
      UptoHead(queue, e, q);
    } else if q !in dist {
      UptoPop(queue, e, q);
      UptoAppend(queue[1..], pushed, e, q);
    }
  }

  lemma OrderedStarts(grid: seq<string>, s: Pos, seeds: seq<Item>)
    requires SeedsUpTo(grid, s, |Directions|) == Ok(seeds)
    ensures Ordered(grid, s, map[s := 0], seeds, 0)
  {
    SeedsPointBack(grid, s, |Directions|);
    forall p | IsSeed(grid, s, p)
      ensures Within(map[s := 0], seeds, p, 1)
    {
      var k :| 0 <= k < |Directions| && p == Add(s, Directions[k]) && PointsBack(grid, s, Directions[k]);
      var i :| 0 <= i < |seeds| && seeds[i].1 == p;
      assert seeds[i].0 == 1;
    }
  }

  lemma OrderedSkips(grid: seq<string>, s: Pos, dist: map<Pos, nat>, queue: seq<Item>, level: nat)
    requires Ordered(grid, s, dist, queue, level) && queue != [] && queue[0].1 in dist
    ensures Ordered(grid, s, dist, queue[1..], queue[0].0)
  {
    forall p | IsSeed(grid, s, p)
      ensures Within(dist, queue[1..], p, 1)
    {
      WithinSkip(dist, queue, p, 1);
    }
    forall p, j | p in dist && p != s && PipeAt(grid, p).Some? && 0 <= j < |PipeAt(grid, p).value|
      ensures Within(dist, queue[1..], Add(p, PipeAt(grid, p).value[j]), dist[p] + 1)
    {
      WithinSkip(dist, queue, Add(p, PipeAt(grid, p).value[j]), dist[p] + 1);
    }
  }

  /** The queue after recording the first entry stays sorted, within one
      step of the new level. */
  lemma OrderedQueue(queue: seq<Item>, level: nat, pushed: seq<Item>)
    requires queue != [] && Sorted(queue)
    requires forall i :: 0 <= i < |queue| ==> level <= queue[i].0 <= level + 1
    requires forall i :: 0 <= i < |pushed| ==> pushed[i].0 == queue[0].0 + 1
    ensures forall i :: 0 <= i < |queue[1..] + pushed| ==> queue[0].0 <= (queue[1..] + pushed)[i].0 <= queue[0].0 + 1
    ensures Sorted(queue[1..] + pushed)
  {
  }

  lemma OrderedRecords(grid: seq<string>, s: Pos, dist: map<Pos, nat>, queue: seq<Item>, level: nat)
    requires Ordered(grid, s, dist, queue, level) && queue != [] && queue[0].1 !in dist
    requires PipeAt(grid, queue[0].1).Some?
    ensures Ordered(grid, s, dist[queue[0].1 := queue[0].0],
                    queue[1..] + Pushes(queue[0].0, queue[0].1, PipeAt(grid, queue[0].1).value), queue[0].0)
  {
    var (d, x) := queue[0];
    var ends := PipeAt(grid, x).value;
    var pushed := Pushes(d, x, ends);
    var dist2 := dist[x := d];
    var queue2 := queue[1..] + pushed;
    OrderedQueue(queue, level, pushed);
    forall p | IsSeed(grid, s, p)
      ensures Within(dist2, queue2, p, 1)
    {
      WithinRecord(dist, queue, pushed, p, 1);
    }
    forall p, j | p in dist2 && p != s && PipeAt(grid, p).Some? && 0 <= j < |PipeAt(grid, p).value|
      ensures Within(dist2, queue2, Add(p, PipeAt(grid, p).value[j]), dist2[p] + 1)
    {
      var q := Add(p, PipeAt(grid, p).value[j]);
      if p == x {
        if q !in dist2 {
          assert pushed[j] == (d + 1, q);
          assert q in Upto(pushed, d + 1);
          UptoAppend(queue[1..], pushed, d + 1, q);
        }
      } else {
        WithinRecord(dist, queue, pushed, q, dist[p] + 1);
      }
    }
  }

  /** Queueing each end of the pipe at `p` in turn, one step further than
      `p`'s distance `d`. */
  method Enqueue(queue: seq<Item>, d: nat, p: Pos, ends: seq<Pos>) returns (r: seq<Item>)
    ensures r == queue + Pushes(d, p, ends)
  {
    r := queue;
    for j := 0 to |ends|
      invariant r == queue + Pushes(d, p, ends[..j])
    {
      PushesStep(d, p, ends, j);
      r := r + [(d + 1, Add(p, ends[j]))];
    }
    assert ends[..|ends|] == ends;
  }

  /** Some walk from the start ends on `t`. */
  ghost predicate Reached(grid: seq<string>, s: Pos, t: Pos)
  {
    exists w :: WalkTo(grid, s, w, t)
  }

  /** The pipes lead from the start to a tile the exploration cannot follow:
      one outside the grid or one that holds no pipe. */
  ghost predicate Broken(grid: seq<string>, s: Pos)
  {
    exists t :: Reached(grid, s, t) && t != s && PipeAt(grid, t).None?
  }

  /** A tile at an end of a recorded pipe other than the start is reached
      by a walk from the start. */
  lemma LinkedIsReached(grid: seq<string>, s: Pos, dist: map<Pos, nat>, q: Pos, p: Pos)
    requires forall t :: t in dist && t != s ==> Explained(grid, s, dist, dist[t], t)
    requires q in dist && q != s && Linked(grid, q, p)
    ensures Reached(grid, s, p)
  {
    DistanceIsWalked(grid, s, dist, q);
    var v :| WalkTo(grid, s, v, q) && |v| == dist[q] + 1;
    WalkOn(grid, s, v, q, p);
    assert WalkTo(grid, s, v + [p], p);
  }

  /** A tile whose distance `d` is explained by the recorded tiles is reached
      by a walk from the start. */
  lemma ExplainedIsReached(grid: seq<string>, s: Pos, dist: map<Pos, nat>, d: nat, p: Pos)
    requires forall t :: t in dist && t != s ==> Explained(grid, s, dist, dist[t], t)
    requires Explained(grid, s, dist, d, p)
    ensures Reached(grid, s, p)
  {
    if d == 1 && IsSeed(grid, s, p) {
      assert WalkTo(grid, s, [s, p], p);
    } else {
      var q :| q in dist && q != s && dist[q] + 1 == d && Linked(grid, q, p);
      LinkedIsReached(grid, s, dist, q, p);
    }
  }

  /** The entry at the head of the queue, when its tile is not recorded yet,
      is a tile some walk from the start reaches. */
  lemma QueuedIsReached(grid: seq<string>, s: Pos, seeds: seq<Item>, dist: map<Pos, nat>, queue: seq<Item>)
    requires Exploring(grid, s, seeds, dist, queue) && queue != [] && queue[0].1 !in dist
    ensures Reached(grid, s, queue[0].1) && queue[0].1 != s
  {
    ExplainedIsReached(grid, s, dist, queue[0].0, queue[0].1);
  }

  /** A complete loop map leaves no reached tile unexplored, so every tile
      the pipes lead to is a pipe inside the grid. */
  lemma LoopMapUnbroken(grid: seq<string>, s: Pos, seeds: seq<Item>, dist: map<Pos, nat>)
    requires LoopMap(grid, s, seeds, dist)
    ensures !Broken(grid, s)
  {
    forall t | Reached(grid, s, t) && t != s
      ensures PipeAt(grid, t).Some?
    {
      var w :| WalkTo(grid, s, w, t);
      WalkIsNoShorter(grid, s, dist, w, t);
    }
  }

  /** The breadth-first exploration of `solve_part_one`: take the first
      queued entry; skip it when its tile is recorded; otherwise record its
      distance and queue each end of its pipe one step further.  A tile
      outside the grid raises IndexError and a tile that is not a pipe
      raises KeyError. */
  method Explore(grid: seq<string>, s: Pos, seeds: seq<Item>) returns (r: Result<map<Pos, nat>>)
    requires SeedsUpTo(grid, s, |Directions|) == Ok(seeds)
    ensures r.Ok? ==> LoopMap(grid, s, seeds, r.value)
    ensures r.Err? <==> Broken(grid, s)
    ensures r.Err? ==> r.failure == IndexError || r.failure == KeyError
    ensures r == Err(IndexError) ==> exists t :: Reached(grid, s, t) && t != s && Cell(grid, t).Err?
    ensures r == Err(KeyError) ==>
              exists t :: Reached(grid, s, t) && t != s && Cell(grid, t).Ok? && Ends(Cell(grid, t).value).None?
  {
    var queue := seeds;
    var dist: map<Pos, nat> := map[s := 0];
    ghost var level: nat := 0;
    ExploringStarts(grid, s, seeds);
    OrderedStarts(grid, s, seeds);
    while queue != []
      invariant Exploring(grid, s, seeds, dist, queue)
      invariant Ordered(grid, s, dist, queue, level)
      decreases |Box(grid, s) - dist.Keys|, |queue|
    {
      ghost var queue0 := queue;
      ghost var dist0 := dist;
      ghost var level0 := level;
      var (d, p) := queue[0];
      queue := queue[1..];
      level := d;
      if p in dist {
        ExploringSkips(grid, s, seeds, dist, queue0);
        OrderedSkips(grid, s, dist, queue0, level0);
        continue;
      }
      dist := dist[p := d];
      var c := Cell(grid, p);
      if c.Err? {
        QueuedIsReached(grid, s, seeds, dist0, queue0);
        return Err(IndexError);
      }
      var ends := Ends(c.value);
      if ends.None? {
        QueuedIsReached(grid, s, seeds, dist0, queue0);
        return Err(KeyError);
      }
      queue := Enqueue(queue, d, p, ends.value);
      ExploringRecords(grid, s, seeds, dist0, queue0, dist, queue);
      OrderedRecords(grid, s, dist0, queue0, level0);
    }
    ExploringDone(grid, s, seeds, dist, level);
    LoopMapUnbroken(grid, s, seeds, dist);
    return Ok(dist);
  }

  /** Python's `max(dist.values())`. */
  method MaxDistance(dist: map<Pos, nat>) returns (m: nat)
    requires dist != map[]
    ensures m in dist.Values && forall v :: v in dist.Values ==> v <= m
  {
    var keys := dist.Keys;
    var k :| k in keys;
    m := dist[k];
    keys := keys - {k};
    while keys != {}
      invariant keys <= dist.Keys && m in dist.Values
      invariant forall p :: p in dist && p !in keys ==> dist[p] <= m
      decreases |keys|
    {
      var q :| q in keys;
      if dist[q] > m {
        m := dist[q];
      }
      keys := keys - {q};
    }
  }

  /** The grid the exploration reads: the input's lines, stripped. */
  function Grid(input: string): seq<string>
  {
    var rows := Text.Split(input, "\n");
    seq(|rows|, i requires 0 <= i < |rows| => Text.Strip(rows[i]))
  }

  /** `solve_part_one`: find the start, queue its two connected neighbours
      (exactly two, or AssertionError), explore the loop, and answer the
      largest recorded distance.  `loop` is the distance map the exploration
      ends with. */
  method SolvePartOne(input: string, fixed: bool) returns (r: Result<nat>, ghost loop: map<Pos, nat>)
    ensures FindStart(input, fixed).Err? ==> r == Err(ValueError)
    ensures FindStart(input, fixed).Ok? && SeedsUpTo(Grid(input), FindStart(input, fixed).value, |Directions|).Err? ==>
              r == Err(IndexError)
    ensures FindStart(input, fixed).Ok? && SeedsUpTo(Grid(input), FindStart(input, fixed).value, |Directions|).Ok? &&
            |SeedsUpTo(Grid(input), FindStart(input, fixed).value, |Directions|).value| != 2 ==>
              r == Err(AssertionError)
    ensures r.Ok? ==>
              FindStart(input, fixed).Ok? &&
              SeedsUpTo(Grid(input), FindStart(input, fixed).value, |Directions|).Ok? &&
              |SeedsUpTo(Grid(input), FindStart(input, fixed).value, |Directions|).value| == 2 &&
              LoopMap(Grid(input), FindStart(input, fixed).value,
                      SeedsUpTo(Grid(input), FindStart(input, fixed).value, |Directions|).value, loop) &&
              r.value in loop.Values && forall v :: v in loop.Values ==> v <= r.value
    ensures FindStart(input, fixed).Ok? && SeedsUpTo(Grid(input), FindStart(input, fixed).value, |Directions|).Ok? &&
            |SeedsUpTo(Grid(input), FindStart(input, fixed).value, |Directions|).value| == 2 ==>
              (r.Ok? <==> !Broken(Grid(input), FindStart(input, fixed).value))
    ensures FindStart(input, fixed).Ok? && SeedsUpTo(Grid(input), FindStart(input, fixed).value, |Directions|).Ok? &&
            |SeedsUpTo(Grid(input), FindStart(input, fixed).value, |Directions|).value| == 2 &&
            Broken(Grid(input), FindStart(input, fixed).value) ==>
              r == Err(IndexError) || r == Err(KeyError)
  {
    loop := map[];
    var start := FindStartCoordinates(input, fixed);
    if start.Err? {
      return Err(start.failure), loop;
    }
    var rows := Text.Split(input, "\n");
    var grid := seq(|rows|, i requires 0 <= i < |rows| => Text.Strip(rows[i]));
    var seeds := LoadSeeds(grid, start.value);
    if seeds.Err? {
      return Err(seeds.failure), loop;
    }
    if |seeds.value| != 2 {
      return Err(AssertionError), loop;
    }
    var dist := Explore(grid, start.value, seeds.value);
    if dist.Err? {
      return Err(dist.failure), loop;
    }
    loop := dist.value;
    var m := MaxDistance(dist.value);
    return Ok(m), loop;
  }
}
