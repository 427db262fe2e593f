/** Day 16: the floor will be lava (adventofcode2023/days/day16.py).  A beam
    of light enters a grid of empty cells `.`, splitters `|` and `-` and
    mirrors `\` and `/`, and travels cell by cell; a tile is energized when
    a beam passes over it.  The source follows every beam with a queue and
    never expands the same position and direction twice; the tiles it
    counts are exactly the positions reachable from the starting beam. */
module Day16 {
  import opened Wrappers
  import Text
  import opened Grids

  datatype Point = Point(x: int, y: int)

  function Add(a: Point, b: Point): Point {
    Point(a.x + b.x, a.y + b.y)
  }

  /** A location and a direction. */
  datatype Beam = Beam(p: Point, d: Point)

  const Up := Point(0, -1)
  const Down := Point(0, 1)
  const Left := Point(-1, 0)
  const Right := Point(1, 0)

  predicate IsDirection(d: Point) {
    d == Up || d == Down || d == Left || d == Right
  }

  /** `_outside_of_grid(grid, p)`, with `rows, cols = grid.shape`: a point
      that is not outside names a cell of a rectangular grid. */
  function OutsideOfGrid(grid: Grid, p: Point): (o: bool)
    ensures !o && Rectangular(grid) ==> 0 <= p.y < |grid| && 0 <= p.x < |grid[p.y]|
  {
    p.x < 0 || p.y < 0 || p.y >= |grid| || p.x >= Width(grid)
  }

  // ---------------------------------------------------------------------------
  // Tiles

  /** The `directions` table of `get_energized_tiles`: the direction a beam
      leaves a mirror in; a direction the table lacks raises KeyError. */
  function Reflect(mirror: char, d: Point): Option<Point> {
    if mirror == '\\' then
      if d == Right then Some(Down)
      else if d == Left then Some(Up)
      else if d == Down then Some(Right)
      else if d == Up then Some(Left)
      else None
    else if mirror == '/' then
      if d == Right then Some(Up)
      else if d == Left then Some(Down)
      else if d == Down then Some(Left)
      else if d == Up then Some(Right)
      else None
    else None
  }

  /** `\` swaps the two coordinates of the direction and `/` swaps and
      negates them, so each mirror undoes itself: a beam sent back the way
      it left comes out the way it came. */
  lemma MirrorsSwapAxes(d: Point)
    requires IsDirection(d)
    ensures Reflect('\\', d) == Some(Point(d.y, d.x))
    ensures Reflect('/', d) == Some(Point(-d.y, -d.x))
    ensures Reflect('\\', Reflect('\\', d).value) == Some(d)
    ensures Reflect('/', Reflect('/', d).value) == Some(d)
  {
  }

  /** The beams tile `c` puts on the queue for `beam`: `.` passes it on;
      `|` passes UP and DOWN and splits LEFT and RIGHT into UP and DOWN;
      `-` passes LEFT and RIGHT and splits UP and DOWN into LEFT and RIGHT;
      a mirror turns it; any other character puts nothing. */
  function Successors(c: char, beam: Beam): Result<seq<Beam>> {
    var straight := Beam(Add(beam.p, beam.d), beam.d);
    match c
    case '.' => Ok([straight])
    case '|' =>
      if beam.d in [Up, Down] then Ok([straight])
      else Ok([Beam(Add(beam.p, Up), Up), Beam(Add(beam.p, Down), Down)])
    case '-' =>
      if beam.d in [Left, Right] then Ok([straight])
      else Ok([Beam(Add(beam.p, Left), Left), Beam(Add(beam.p, Right), Right)])
    case '\\' | '/' =>
      (match Reflect(c, beam.d)
       case None => Err(KeyError)
       case Some(direction) => Ok([Beam(Add(beam.p, direction), direction)]))
    case _ => Ok([])
  }

  /** Every beam a tile puts on the queue moves one step in its own
      direction, which is the incoming one or one of the four; only a
      mirror meeting a direction outside its table fails. */
  lemma SuccessorsStep(c: char, beam: Beam)
    ensures Successors(c, beam).Ok? ==> forall b :: b in Successors(c, beam).value ==>
      b.p == Add(beam.p, b.d) && (b.d == beam.d || IsDirection(b.d))
    ensures Successors(c, beam).Err? <==> (c == '\\' || c == '/') && !IsDirection(beam.d)
  {
  }

  /** With a unit direction no tile sends a beam back where it came from;
      beams leave a `|` vertically and a `-` horizontally. */
  lemma SuccessorsNeverReverse(c: char, beam: Beam)
    requires IsDirection(beam.d)
    ensures Successors(c, beam).Ok?
    ensures forall b :: b in Successors(c, beam).value ==>
      IsDirection(b.d) && b.d != Point(-beam.d.x, -beam.d.y)
    ensures c == '|' ==> forall b :: b in Successors(c, beam).value ==> b.d.x == 0
    ensures c == '-' ==> forall b :: b in Successors(c, beam).value ==> b.d.y == 0
    ensures c == '|' && beam.d.y == 0 ==> |Successors(c, beam).value| == 2
    ensures c == '-' && beam.d.x == 0 ==> |Successors(c, beam).value| == 2
  {
  }

  // ---------------------------------------------------------------------------
  // Where a beam can get to

  predicate Inside(grid: Grid, p: Point) {
    !OutsideOfGrid(grid, p)
  }

  /** The tile under a beam inside the grid. */
  function TileAt(grid: Grid, p: Point): char
    requires Rectangular(grid) && Inside(grid, p)
  {
    grid[p.y][p.x]
  }

  /** Beam `a`, inside the grid, puts beam `b` on the queue. */
  predicate Step(grid: Grid, a: Beam, b: Beam)
    requires Rectangular(grid)
  {
    Inside(grid, a.p) && Successors(TileAt(grid, a.p), a).Ok? && b in Successors(TileAt(grid, a.p), a).value
  }

  /** A run of beams inside the grid, each put on the queue by the one
      before. */
  predicate IsPath(grid: Grid, path: seq<Beam>)
    requires Rectangular(grid)
  {
    |path| >= 1 &&
    (forall i :: 0 <= i < |path| ==> Inside(grid, path[i].p)) &&
    (forall i :: 0 <= i < |path| - 1 ==> Step(grid, path[i], path[i + 1]))
  }

  ghost predicate Reaches(grid: Grid, start: Beam, b: Beam)
    requires Rectangular(grid)
  {
    exists path :: IsPath(grid, path) && path[0] == start && path[|path| - 1] == b
  }

  /** The cells of the grid. */
  function Cells(grid: Grid): set<Point> {
    set x: int, y: int | 0 <= y < |grid| && 0 <= x < Width(grid) :: Point(x, y)
  }

  /** The tiles energized from `start`: the cells some reachable beam is on. */
  ghost function Energized(grid: Grid, start: Beam): set<Point>
    requires Rectangular(grid)
  {
    set p | p in Cells(grid) && exists d :: Reaches(grid, start, Beam(p, d))
  }

  lemma ReachesStart(grid: Grid, start: Beam)
    requires Rectangular(grid) && Inside(grid, start.p)
    ensures Reaches(grid, start, start)
  {
    assert IsPath(grid, [start]);
  }

  lemma ReachesStep(grid: Grid, start: Beam, a: Beam, b: Beam)
    requires Rectangular(grid) && Reaches(grid, start, a) && Step(grid, a, b) && Inside(grid, b.p)
    ensures Reaches(grid, start, b)
  {
    var path :| IsPath(grid, path) && path[0] == start && path[|path| - 1] == a;
    var longer := path + [b];
    assert forall i :: 0 <= i < |path| ==> longer[i] == path[i];
    assert IsPath(grid, longer);
  }

  /** A reachable beam is inside the grid. */
  lemma ReachesInside(grid: Grid, start: Beam, b: Beam)
    requires Rectangular(grid) && Reaches(grid, start, b)
    ensures Inside(grid, b.p) && Inside(grid, start.p)
  {
  }

  /** Beams from which the beams inside the grid they queue are all in the
      set. */
  ghost predicate ClosedUnderSteps(grid: Grid, beams: set<Beam>)
    requires Rectangular(grid)
  {
    forall a, b :: a in beams && Step(grid, a, b) && Inside(grid, b.p) ==> b in beams
  }

  /** A set holding the start and closed under steps holds every reachable
      beam. */
  lemma ClosedHoldsReachable(grid: Grid, start: Beam, beams: set<Beam>, b: Beam)
    requires Rectangular(grid) && ClosedUnderSteps(grid, beams) && start in beams
    requires Reaches(grid, start, b)
    ensures b in beams
  {
    var path :| IsPath(grid, path) && path[0] == start && path[|path| - 1] == b;
    var i := 0;
    while i < |path| - 1
      invariant 0 <= i < |path| && path[i] in beams
    {
      assert Step(grid, path[i], path[i + 1]);
      i := i + 1;
    }
  }

  /** Energized tiles lie in the grid; none when the start is outside it,
      and at least the start's own tile when it is inside. */
  lemma EnergizedBounds(grid: Grid, start: Beam)
    requires Rectangular(grid)
    ensures Energized(grid, start) <= Cells(grid)
    ensures OutsideOfGrid(grid, start.p) ==> Energized(grid, start) == {}
    ensures Inside(grid, start.p) ==> start.p in Energized(grid, start)
  {
    if Inside(grid, start.p) {
      ReachesStart(grid, start);
      assert start == Beam(start.p, start.d);
    } else {
      assert forall p :: p !in Energized(grid, start);
    }
  }

  // ---------------------------------------------------------------------------
  // The search

  /** The directions a beam from `start` can have: its own and the four. */
  function Dirs(d0: Point): set<Point> {
    {d0, Up, Down, Left, Right}
  }

  /** The beams inside the grid with one of those directions. */
  function AllBeams(grid: Grid, d0: Point): set<Beam> {
    set p, d | p in Cells(grid) && d in Dirs(d0) :: Beam(p, d)
  }

  /** A queued beam is the start or was put on the queue by a visited beam. */
  ghost predicate Queued(grid: Grid, start: Beam, visited: set<Beam>, b: Beam)
    requires Rectangular(grid)
  {
    b == start || exists a :: a in visited && Step(grid, a, b)
  }

  /** The visited beams are inside the grid, and every queued beam has one
      of the directions a beam from the start can have. */
  predicate Bounded(grid: Grid, start: Beam, visited: set<Beam>, queue: seq<Beam>) {
    visited <= AllBeams(grid, start.d) &&
    forall i :: 0 <= i < |queue| ==> queue[i].d in Dirs(start.d)
  }

  /** Every visited beam is reachable, and every queued one is the start
      or was put on the queue by a visited beam. */
  ghost predicate Sound(grid: Grid, start: Beam, visited: set<Beam>, queue: seq<Beam>)
    requires Rectangular(grid)
  {
    (forall b :: b in visited ==> Reaches(grid, start, b)) &&
    (forall i :: 0 <= i < |queue| ==> Queued(grid, start, visited, queue[i]))
  }

  /** The start, and every beam inside the grid that a visited beam puts on
      the queue, is visited or still queued. */
  ghost predicate Covered(grid: Grid, start: Beam, visited: set<Beam>, queue: seq<Beam>)
    requires Rectangular(grid)
  {
    (Inside(grid, start.p) ==> start in visited || start in queue) &&
    (forall a, b :: a in visited && Step(grid, a, b) && Inside(grid, b.p) ==> b in visited || b in queue)
  }

  /** What holds before each turn of the loop: the three above, and the
      energized tiles are the visited beams' positions. */
  ghost predicate Exploring(grid: Grid, start: Beam, visited: set<Beam>, queue: seq<Beam>, tiles: set<Point>)
    requires Rectangular(grid)
  {
    Bounded(grid, start, visited, queue) &&
    Sound(grid, start, visited, queue) &&
    Covered(grid, start, visited, queue) &&
    tiles == (set b | b in visited :: b.p)
  }

  lemma ExploringStarts(grid: Grid, start: Beam)
    requires Rectangular(grid)
    ensures Exploring(grid, start, {}, [start], {})
  {
  }

  /** A beam outside the grid, or visited before, is dropped. */
  lemma ExploringSkips(grid: Grid, start: Beam, visited: set<Beam>, queue: seq<Beam>, tiles: set<Point>)
    requires Rectangular(grid) && Exploring(grid, start, visited, queue, tiles)
    requires queue != [] && (OutsideOfGrid(grid, queue[0].p) || queue[0] in visited)
    ensures Exploring(grid, start, visited, queue[1..], tiles)
  {
    var rest := queue[1..];
    forall a, b | a in visited && Step(grid, a, b) && Inside(grid, b.p)
      ensures b in visited || b in rest
    {
      if b !in visited {
        StillQueued(queue, [], b);
      }
    }
    if Inside(grid, start.p) && start !in visited {
      StillQueued(queue, [], start);
    }
  }

  /** A queued beam other than the first stays queued once the first is
      taken off and `next` is put on. */
  lemma StillQueued(queue: seq<Beam>, next: seq<Beam>, b: Beam)
    requires b in queue && b != queue[0]
    ensures b in queue[1..] && b in queue[1..] + next
  {
    var i :| 0 <= i < |queue| && queue[i] == b;
    assert queue[1..][i - 1] == b;
    assert (queue[1..] + next)[i - 1] == b;
  }

  lemma ExpandsBounded(grid: Grid, start: Beam, visited: set<Beam>, queue: seq<Beam>, next: seq<Beam>)
    requires Rectangular(grid) && Bounded(grid, start, visited, queue)
    requires queue != [] && Inside(grid, queue[0].p)
    requires Successors(TileAt(grid, queue[0].p), queue[0]) == Ok(next)
    ensures Bounded(grid, start, visited + {queue[0]}, queue[1..] + next)
  {
    var beam := queue[0];
    var queue' := queue[1..] + next;
    assert beam.p in Cells(grid);
    assert beam in AllBeams(grid, start.d);
    SuccessorsStep(TileAt(grid, beam.p), beam);
    forall i | 0 <= i < |queue'|
      ensures queue'[i].d in Dirs(start.d)
    {
      if i < |queue| - 1 {
        assert queue'[i] == queue[i + 1];
      } else {
        assert queue'[i] in next;
      }
    }
  }

  lemma ExpandsSound(grid: Grid, start: Beam, visited: set<Beam>, queue: seq<Beam>, next: seq<Beam>)
    requires Rectangular(grid) && Sound(grid, start, visited, queue)
    requires queue != [] && Inside(grid, queue[0].p)
    requires Successors(TileAt(grid, queue[0].p), queue[0]) == Ok(next)
    ensures Sound(grid, start, visited + {queue[0]}, queue[1..] + next)
  {
    var beam := queue[0];
    var visited', queue' := visited + {beam}, queue[1..] + next;
    if beam != start {
      assert Queued(grid, start, visited, beam);
      var a :| a in visited && Step(grid, a, beam);
      ReachesStep(grid, start, a, beam);
    } else {
      ReachesStart(grid, start);
    }
    forall i | 0 <= i < |queue'|
      ensures Queued(grid, start, visited', queue'[i])
    {
      if i < |queue| - 1 {
        assert queue'[i] == queue[i + 1];
        assert Queued(grid, start, visited, queue[i + 1]);
      } else {
        assert queue'[i] in next;
        assert Step(grid, beam, queue'[i]);
      }
    }
  }

  lemma ExpandsCovered(grid: Grid, start: Beam, visited: set<Beam>, queue: seq<Beam>, next: seq<Beam>)
    requires Rectangular(grid) && Covered(grid, start, visited, queue)
    requires queue != [] && Inside(grid, queue[0].p)
    requires Successors(TileAt(grid, queue[0].p), queue[0]) == Ok(next)
    ensures Covered(grid, start, visited + {queue[0]}, queue[1..] + next)
  {
    var beam := queue[0];
    var visited', queue' := visited + {beam}, queue[1..] + next;
    forall a, b | a in visited' && Step(grid, a, b) && Inside(grid, b.p)
      ensures b in visited' || b in queue'
    {
      if a == beam {
        assert b in next;
      } else if b !in visited' {
        StillQueued(queue, next, b);
      }
    }
    if Inside(grid, start.p) && start !in visited' {
      StillQueued(queue, next, start);
    }
  }

  /** A new beam inside the grid is visited, its tile energized, and the
      beams its tile sends are queued. */
  lemma ExploringExpands(grid: Grid, start: Beam, visited: set<Beam>, queue: seq<Beam>, tiles: set<Point>, next: seq<Beam>)
    requires Rectangular(grid) && Exploring(grid, start, visited, queue, tiles)
    requires queue != [] && Inside(grid, queue[0].p) && queue[0] !in visited
    requires Successors(TileAt(grid, queue[0].p), queue[0]) == Ok(next)
    ensures Exploring(grid, start, visited + {queue[0]}, queue[1..] + next, tiles + {queue[0].p})
  {
    ExpandsBounded(grid, start, visited, queue, next);
    ExpandsSound(grid, start, visited, queue, next);
    ExpandsCovered(grid, start, visited, queue, next);
  }

  /** Only a start outside the four directions can bring a mirror a
      direction its table lacks. */
  lemma ExploringFails(grid: Grid, start: Beam, visited: set<Beam>, queue: seq<Beam>, tiles: set<Point>)
    requires Rectangular(grid) && Exploring(grid, start, visited, queue, tiles)
    requires queue != [] && Inside(grid, queue[0].p)
    requires Successors(TileAt(grid, queue[0].p), queue[0]).Err?
    ensures !IsDirection(start.d)
  {
    var beam := queue[0];
    SuccessorsStep(TileAt(grid, beam.p), beam);
    assert beam.d in Dirs(start.d);
  }

  /** With the queue empty the visited beams are exactly the reachable ones,
      and the energized tiles are theirs. */
  lemma ExploringDone(grid: Grid, start: Beam, visited: set<Beam>, tiles: set<Point>)
    requires Rectangular(grid) && Exploring(grid, start, visited, [], tiles)
    ensures tiles == Energized(grid, start)
  {
    forall p | p in Energized(grid, start)
      ensures p in tiles
    {
      var d :| Reaches(grid, start, Beam(p, d));
      ReachesInside(grid, start, Beam(p, d));
      ClosedHoldsReachable(grid, start, visited, Beam(p, d));
    }
    forall p | p in tiles
      ensures p in Energized(grid, start)
    {
      var b :| b in visited && b.p == p;
      assert b in AllBeams(grid, start.d);
      assert Reaches(grid, start, Beam(p, b.d));
    }
  }

  /** `get_energized_tiles(grid, starting_beam)`: take the first queued beam;
      drop it when it is outside the grid or visited; otherwise queue what
      its tile sends, energize its tile and mark it visited.  The count is
      the number of energized tiles; only a mirror meeting a direction
      outside its table (KeyError) stops the search.  Every beam is expanded
      at most once, so a start with one of the four directions expands at
      most `4 * rows * cols` beams. */
  method GetEnergizedTiles(grid: Grid, startingBeam: Beam) returns (r: Result<nat>, ghost expansions: nat)
    requires Rectangular(grid)
    ensures r.Ok? ==> r.value == |Energized(grid, startingBeam)|
    ensures r.Err? ==> r.failure == KeyError && !IsDirection(startingBeam.d)
    ensures IsDirection(startingBeam.d) ==> r.Ok? && expansions <= 4 * |grid| * Width(grid)
  {
    var beamsVisited: set<Beam> := {};
    var tilesEnergized: set<Point> := {};
    var queue := [startingBeam];
    expansions := 0;
    ExploringStarts(grid, startingBeam);
    while queue != []
      invariant Exploring(grid, startingBeam, beamsVisited, queue, tilesEnergized)
      invariant expansions == |beamsVisited|
      decreases |AllBeams(grid, startingBeam.d) - beamsVisited|, |queue|
    {
      var beam := queue[0];
      if OutsideOfGrid(grid, beam.p) || beam in beamsVisited {
        ExploringSkips(grid, startingBeam, beamsVisited, queue, tilesEnergized);
        queue := queue[1..];
        continue;
      }
      var c := grid[beam.p.y][beam.p.x];
      var next := Successors(c, beam);
      if next.Err? {
        ExploringFails(grid, startingBeam, beamsVisited, queue, tilesEnergized);
        return Err(KeyError), expansions;
      }
      ExploringExpands(grid, startingBeam, beamsVisited, queue, tilesEnergized, next.value);
      BeamLeavesUnvisited(AllBeams(grid, startingBeam.d), beamsVisited, beam);
      queue := queue[1..] + next.value;
      tilesEnergized := tilesEnergized + {beam.p};
      beamsVisited := beamsVisited + {beam};
      expansions := expansions + 1;
    }
    ExploringDone(grid, startingBeam, beamsVisited, tilesEnergized);
    if IsDirection(startingBeam.d) {
      UnitBeamsCount(grid, startingBeam.d);
      assert |beamsVisited| <= |AllBeams(grid, startingBeam.d)|;
    }
    return Ok(|tilesEnergized|), expansions;
  }

  lemma BeamLeavesUnvisited(all: set<Beam>, visited: set<Beam>, b: Beam)
    requires b in all && b !in visited
    ensures |all - (visited + {b})| < |all - visited|
  {
    assert all - (visited + {b}) == (all - visited) - {b};
  }

  // ---------------------------------------------------------------------------
  // Counting cells and beams

  function RowCells(y: int, w: nat): set<Point> {
    set x: int | 0 <= x < w :: Point(x, y)
  }

  function BoxCells(h: nat, w: nat): set<Point> {
    set x: int, y: int | 0 <= y < h && 0 <= x < w :: Point(x, y)
  }

  lemma {:induction false} RowCellsCount(y: int, w: nat)
    ensures |RowCells(y, w)| == w
  {
    if w > 0 {
      RowCellsCount(y, w - 1);
      assert RowCells(y, w) == RowCells(y, w - 1) + {Point(w - 1, y)};
    }
  }

  lemma {:induction false} BoxCellsCount(h: nat, w: nat)
    ensures |BoxCells(h, w)| == h * w
  {
    if h == 0 {
      assert BoxCells(h, w) == {};
    } else {
      var above, row := BoxCells(h - 1, w), RowCells(h - 1, w);
      BoxCellsCount(h - 1, w);
      RowCellsCount(h - 1, w);
      assert |BoxCells(h, w)| == |above| + |row| by {
        forall q | q in BoxCells(h, w)
          ensures q in above + row
        {
          if q.y < h - 1 {
            assert q == Point(q.x, q.y);
          }
        }
        assert BoxCells(h, w) == above + row;
        assert above * row == {};
      }
      assert h * w == (h - 1) * w + w;
    }
  }

  /** A grid has `rows * cols` cells. */
  lemma CellsCount(grid: Grid)
    ensures |Cells(grid)| == |grid| * Width(grid)
  {
    assert Cells(grid) == BoxCells(|grid|, Width(grid));
    BoxCellsCount(|grid|, Width(grid));
  }

  function Along(cells: set<Point>, d: Point): set<Beam> {
    set p | p in cells :: Beam(p, d)
  }

  lemma {:induction false} AlongCount(cells: set<Point>, d: Point)
    ensures |Along(cells, d)| == |cells|
    decreases |cells|
  {
    if cells != {} {
      var p :| p in cells;
      AlongCount(cells - {p}, d);
      assert Along(cells, d) == Along(cells - {p}, d) + {Beam(p, d)};
    }
  }

  lemma SubsetCount<T>(a: set<T>, b: set<T>)
    requires a <= b
    ensures |a| <= |b|
  {
    assert b == a + (b - a);
  }

  lemma UnionCount<T>(a: set<T>, b: set<T>)
    ensures |a + b| <= |a| + |b|
  {
    assert a + b == a + (b - a);
  }

  /** Every beam of `AllBeams` has one of the four directions when the
      start has one. */
  lemma UnitBeamsAlong(grid: Grid, d0: Point)
    requires IsDirection(d0)
    ensures AllBeams(grid, d0) <= Along(Cells(grid), Up) + Along(Cells(grid), Down) + Along(Cells(grid), Left) + Along(Cells(grid), Right)
  {
    forall b | b in AllBeams(grid, d0)
      ensures b in Along(Cells(grid), b.d)
    {
    }
  }

  /** With one of the four directions to start from there are at most
      `4 * rows * cols` beams to expand. */
  lemma UnitBeamsCount(grid: Grid, d0: Point)
    requires IsDirection(d0)
    ensures |AllBeams(grid, d0)| <= 4 * |grid| * Width(grid)
  {
    var cells := Cells(grid);
    var u, dn, l, rt := Along(cells, Up), Along(cells, Down), Along(cells, Left), Along(cells, Right);
    UnitBeamsAlong(grid, d0);
    SubsetCount(AllBeams(grid, d0), u + dn + l + rt);
    AlongCount(cells, Up);
    AlongCount(cells, Down);
    AlongCount(cells, Left);
    AlongCount(cells, Right);
    CellsCount(grid);
    UnionCount(u, dn);
    UnionCount(u + dn, l);
    UnionCount(u + dn + l, rt);
  }

  /** The energized tiles number at most `rows * cols`, and at least one when
      the start is inside the grid. */
  lemma EnergizedCount(grid: Grid, start: Beam)
    requires Rectangular(grid)
    ensures |Energized(grid, start)| <= |grid| * Width(grid)
    ensures Inside(grid, start.p) ==> |Energized(grid, start)| >= 1
    ensures OutsideOfGrid(grid, start.p) ==> |Energized(grid, start)| == 0
  {
    EnergizedBounds(grid, start);
    CellsCount(grid);
    SubsetCount(Energized(grid, start), Cells(grid));
    if Inside(grid, start.p) {
      SubsetCount({start.p}, Energized(grid, start));
    }
  }

  // ---------------------------------------------------------------------------
  // The puzzle answers

  /** `np.array([list(x) for x in input.split('\n')], dtype="U1")`: lines of
      different lengths make numpy raise ValueError. */
  function ParseGrid(input: string): (r: Result<Grid>)
    ensures r.Ok? ==> Rectangular(r.value) && |r.value| >= 1
    ensures r.Err? <==> !Rectangular(Text.Split(input, "\n"))
    ensures r.Err? ==> r.failure == ValueError
  {
    var rows := Text.Split(input, "\n");
    if Rectangular(rows) then Ok(rows) else Err(ValueError)
  }

  /** `solve_part_one`: the beam enters at the top-left corner heading
      right. */
  method SolvePartOne(input: string) returns (r: Result<nat>)
    ensures ParseGrid(input).Err? ==> r == Err(ValueError)
    ensures ParseGrid(input).Ok? ==> r == Ok(|Energized(ParseGrid(input).value, Beam(Point(0, 0), Right))|)
  {
    var grid := ParseGrid(input);
    if grid.Err? {
      return Err(ValueError);
    }
    ghost var expansions;
    r, expansions := GetEnergizedTiles(grid.value, Beam(Point(0, 0), Right));
  }

  /** The largest energized count over `beams`, the value Python's `max`
      returns for them. */
  ghost function Best(grid: Grid, beams: seq<Beam>): nat
    requires Rectangular(grid) && beams != []
    decreases |beams|
  {
    var e := |Energized(grid, beams[|beams| - 1])|;
    if |beams| == 1 then e
    else
      var m := Best(grid, beams[..|beams| - 1]);
      if e > m then e else m
  }

  /** No beam energizes more tiles than `Best`. */
  lemma {:induction false} BestIsUpper(grid: Grid, beams: seq<Beam>)
    requires Rectangular(grid) && beams != []
    ensures forall i :: 0 <= i < |beams| ==> |Energized(grid, beams[i])| <= Best(grid, beams)
    decreases |beams|
  {
    var n := |beams| - 1;
    if n > 0 {
      var front := beams[..n];
      BestIsUpper(grid, front);
      forall i | 0 <= i < n
        ensures |Energized(grid, beams[i])| <= Best(grid, beams)
      {
        assert beams[i] == front[i];
      }
    }
  }

  /** `Best` is the count of one of the beams. */
  lemma {:induction false} BestIsAttained(grid: Grid, beams: seq<Beam>)
    requires Rectangular(grid) && beams != []
    ensures exists i :: 0 <= i < |beams| && |Energized(grid, beams[i])| == Best(grid, beams)
    decreases |beams|
  {
    var n := |beams| - 1;
    var last := |Energized(grid, beams[n])|;
    if n == 0 {
      assert last == Best(grid, beams);
    } else {
      var front := beams[..n];
      BestIsAttained(grid, front);
      var m := Best(grid, front);
      var j :| 0 <= j < n && |Energized(grid, front[j])| == m;
      if last <= m {
        assert beams[j] == front[j];
        assert |Energized(grid, beams[j])| == Best(grid, beams);
      } else {
        assert last == Best(grid, beams);
      }
    }
  }

  /** `Best` is the count of one of the beams and no beam has a larger one. */
  lemma BestIsMax(grid: Grid, beams: seq<Beam>)
    requires Rectangular(grid) && beams != []
    ensures forall i :: 0 <= i < |beams| ==> |Energized(grid, beams[i])| <= Best(grid, beams)
    ensures exists i :: 0 <= i < |beams| && |Energized(grid, beams[i])| == Best(grid, beams)
  {
    BestIsUpper(grid, beams);
    BestIsAttained(grid, beams);
  }

  /** `max(self.get_energized_tiles(grid, beam) for beam in beams)`:
      `max` of nothing raises ValueError, and a failing search's error
      propagates. */
  method BestEnergized(grid: Grid, beams: seq<Beam>) returns (r: Result<nat>)
    requires Rectangular(grid)
    ensures beams == [] ==> r == Err(ValueError)
    ensures r.Ok? ==> beams != [] && r.value == Best(grid, beams)
    ensures beams != [] && (forall i :: 0 <= i < |beams| ==> IsDirection(beams[i].d)) ==> r.Ok?
    ensures r.Err? && beams != [] ==> r.failure == KeyError && exists i :: 0 <= i < |beams| && !IsDirection(beams[i].d)
  {
    if beams == [] {
      return Err(ValueError);
    }
    ghost var expansions;
    var e;
    e, expansions := GetEnergizedTiles(grid, beams[0]);
    if e.Err? {
      return Err(e.failure);
    }
    var best := e.value;
    var i := 1;
    while i < |beams|
      invariant 1 <= i <= |beams|
      invariant best == Best(grid, beams[..i])
    {
      e, expansions := GetEnergizedTiles(grid, beams[i]);
      if e.Err? {
        return Err(e.failure);
      }
      assert beams[..i + 1][..i] == beams[..i];
      if e.value > best {
        best := e.value;
      }
      i := i + 1;
    }
    assert beams[..i] == beams;
    return Ok(best);
  }

  /** The beams `solve_part_two` tries, as written: `columns` beams down the
      left side, `rows` along the top, `columns` up the right side, and
      `rows` beams at `Point(rows, x)` heading up for the bottom. */
  function AsWrittenEdgeBeams(rows: nat, columns: nat): seq<Beam> {
    seq(columns, (y: int) => Beam(Point(0, y), Right)) +
    seq(rows, (x: int) => Beam(Point(x, 0), Down)) +
    seq(columns, (y: int) => Beam(Point(columns - 1, y), Left)) +
    seq(rows, (x: int) => Beam(Point(rows, x), Up))
  }

  /** The beams entering from each border cell: one per row on the left and
      right sides, one per column on the top and bottom. */
  function EdgeBeams(rows: nat, columns: nat): seq<Beam> {
    seq(rows, (y: int) => Beam(Point(0, y), Right)) +
    seq(columns, (x: int) => Beam(Point(x, 0), Down)) +
    seq(rows, (y: int) => Beam(Point(columns - 1, y), Left)) +
    seq(columns, (x: int) => Beam(Point(x, rows - 1), Up))
  }

  /** A beam on a border cell of a `rows` by `columns` grid heading into the
      grid. */
  predicate EntersFromEdge(rows: nat, columns: nat, b: Beam) {
    0 <= b.p.x < columns && 0 <= b.p.y < rows &&
    ((b.p.x == 0 && b.d == Right) || (b.p.y == 0 && b.d == Down) ||
     (b.p.x == columns - 1 && b.d == Left) || (b.p.y == rows - 1 && b.d == Up))
  }

  /** The corrected list holds every beam entering from the border, and, on
      a grid with a cell, nothing else. */
  lemma EdgeBeamsEnterFromEdges(rows: nat, columns: nat)
    ensures forall b :: EntersFromEdge(rows, columns, b) ==> b in EdgeBeams(rows, columns)
    ensures rows >= 1 && columns >= 1 ==>
      forall b :: b in EdgeBeams(rows, columns) ==> EntersFromEdge(rows, columns, b)
    ensures forall b :: b in EdgeBeams(rows, columns) ==> IsDirection(b.d)
    ensures rows >= 1 ==> EdgeBeams(rows, columns) != []
  {
    var left := seq(rows, (y: int) => Beam(Point(0, y), Right));
    var top := seq(columns, (x: int) => Beam(Point(x, 0), Down));
    var right := seq(rows, (y: int) => Beam(Point(columns - 1, y), Left));
    var bottom := seq(columns, (x: int) => Beam(Point(x, rows - 1), Up));
    assert EdgeBeams(rows, columns) == left + top + right + bottom;
    forall b | EntersFromEdge(rows, columns, b)
      ensures b in EdgeBeams(rows, columns)
    {
      if b.p.x == 0 && b.d == Right {
        assert b == left[b.p.y];
      } else if b.p.y == 0 && b.d == Down {
        assert b == top[b.p.x];
      } else if b.p.x == columns - 1 && b.d == Left {
        assert b == right[b.p.y];
      } else {
        assert b == bottom[b.p.x];
      }
    }
  }

  /** Every as-written beam heads in a direction of the table, and the list
      is empty only for a grid with no row. */
  lemma AsWrittenEdgeBeamsHeadInto(rows: nat, columns: nat)
    ensures forall b :: b in AsWrittenEdgeBeams(rows, columns) ==> IsDirection(b.d)
    ensures rows >= 1 ==> AsWrittenEdgeBeams(rows, columns) != []
  {
    var left := seq(columns, (y: int) => Beam(Point(0, y), Right));
    var top := seq(rows, (x: int) => Beam(Point(x, 0), Down));
    var right := seq(columns, (y: int) => Beam(Point(columns - 1, y), Left));
    var bottom := seq(rows, (x: int) => Beam(Point(rows, x), Up));
    assert AsWrittenEdgeBeams(rows, columns) == left + top + right + bottom;
    if rows >= 1 {
      assert top[0] in AsWrittenEdgeBeams(rows, columns);
    }
  }

  /** The beams part two tries: as written in `solve_part_two`, or the
      corrected list of every beam entering from the border. */
  function PartTwoBeams(rows: nat, columns: nat, fixed: bool): seq<Beam> {
    if fixed then EdgeBeams(rows, columns) else AsWrittenEdgeBeams(rows, columns)
  }

  /** `solve_part_two`: the most tiles any of the tried beams energizes;
      with `fixed`, the beams are every beam entering from the border. */
  method SolvePartTwo(input: string, fixed: bool) returns (r: Result<nat>)
    ensures ParseGrid(input).Err? ==> r == Err(ValueError)
    ensures ParseGrid(input).Ok? ==>
      var g := ParseGrid(input).value;
      PartTwoBeams(|g|, Width(g), fixed) != [] && r == Ok(Best(g, PartTwoBeams(|g|, Width(g), fixed)))
  {
    var grid := ParseGrid(input);
    if grid.Err? {
      return Err(ValueError);
    }
    var g := grid.value;
    EdgeBeamsEnterFromEdges(|g|, Width(g));
    AsWrittenEdgeBeamsHeadInto(|g|, Width(g));
    var beams := if fixed then EdgeBeams(|g|, Width(g)) else AsWrittenEdgeBeams(|g|, Width(g));
    assert beams == PartTwoBeams(|g|, Width(g), fixed);
    assert forall i :: 0 <= i < |beams| ==> IsDirection(beams[i].d) by {
      forall i | 0 <= i < |beams|
        ensures IsDirection(beams[i].d)
      {
        assert beams[i] in beams;
      }
    }
    r := BestEnergized(g, beams);
  }

  /** Every beam entering from the border energizes at most the part-two
      answer. */
  lemma PartTwoCoversEveryEntry(grid: Grid, b: Beam)
    requires Rectangular(grid) && |grid| >= 1 && EntersFromEdge(|grid|, Width(grid), b)
    ensures EdgeBeams(|grid|, Width(grid)) != []
    ensures |Energized(grid, b)| <= Best(grid, EdgeBeams(|grid|, Width(grid)))
  {
    var beams := EdgeBeams(|grid|, Width(grid));
    EdgeBeamsEnterFromEdges(|grid|, Width(grid));
    BestIsMax(grid, beams);
    var i :| 0 <= i < |beams| && beams[i] == b;
  }

  /** As written, on a grid at least as tall as it is wide, no beam enters
      upward from the bottom row: the bottom-side beams start in column
      `rows`, outside the grid, and energize nothing. */
  lemma AsWrittenMissesBottomEdge(grid: Grid)
    requires Rectangular(grid) && 1 <= Width(grid) <= |grid|
    ensures EntersFromEdge(|grid|, Width(grid), Beam(Point(0, |grid| - 1), Up))
    ensures forall b :: EntersFromEdge(|grid|, Width(grid), b) && b.d == Up ==>
      b !in AsWrittenEdgeBeams(|grid|, Width(grid))
    ensures forall b :: b in AsWrittenEdgeBeams(|grid|, Width(grid)) && b.d == Up ==>
      OutsideOfGrid(grid, b.p) && |Energized(grid, b)| == 0
  {
    var rows, columns := |grid|, Width(grid);
    var left := seq(columns, (y: int) => Beam(Point(0, y), Right));
    var top := seq(rows, (x: int) => Beam(Point(x, 0), Down));
    var right := seq(columns, (y: int) => Beam(Point(columns - 1, y), Left));
    var bottom := seq(rows, (x: int) => Beam(Point(rows, x), Up));
    assert AsWrittenEdgeBeams(rows, columns) == left + top + right + bottom;
    forall b | b in AsWrittenEdgeBeams(rows, columns) && b.d == Up
      ensures OutsideOfGrid(grid, b.p) && |Energized(grid, b)| == 0
    {
      assert b in bottom;
      EnergizedBounds(grid, b);
    }
  }

  /** A set of beams that holds the start and is closed under steps bounds
      the energized tiles by its beams' positions. */
  lemma ClosedBound(grid: Grid, start: Beam, beams: set<Beam>)
    requires Rectangular(grid) && ClosedUnderSteps(grid, beams) && start in beams
    ensures Energized(grid, start) <= set b | b in beams :: b.p
  {
    forall p | p in Energized(grid, start)
      ensures p in set b | b in beams :: b.p
    {
      var d :| Reaches(grid, start, Beam(p, d));
      ClosedHoldsReachable(grid, start, beams, Beam(p, d));
    }
  }

  /** A tile that lets a beam heading `d` straight through. */
  predicate PassesThrough(c: char, d: Point) {
    c == '.' || (c == '-' && (d == Left || d == Right)) || (c == '|' && (d == Up || d == Down))
  }

  /** Such a tile sends the beam one step ahead ... */
  lemma PassesThroughAhead(c: char, a: Beam)
    requires PassesThrough(c, a.d)
    ensures Successors(c, a).Ok? && Beam(Add(a.p, a.d), a.d) in Successors(c, a).value
  {
  }

  /** ... and nothing else. */
  lemma PassesThroughOnly(c: char, a: Beam, b: Beam)
    requires PassesThrough(c, a.d) && Successors(c, a).Ok? && b in Successors(c, a).value
    ensures b == Beam(Add(a.p, a.d), a.d)
  {
  }

  /** `-` met vertically sends the beam both ways sideways ... */
  lemma SplitsSideways(c: char, a: Beam)
    requires c == '-' && (a.d == Up || a.d == Down)
    ensures Successors(c, a).Ok?
    ensures Beam(Add(a.p, Left), Left) in Successors(c, a).value
    ensures Beam(Add(a.p, Right), Right) in Successors(c, a).value
  {
  }

  /** ... and nothing else. */
  lemma SplitsSidewaysOnly(c: char, a: Beam, b: Beam)
    requires c == '-' && (a.d == Up || a.d == Down) && Successors(c, a).Ok? && b in Successors(c, a).value
    ensures b == Beam(Add(a.p, Left), Left) || b == Beam(Add(a.p, Right), Right)
  {
  }

  /** Two beams inside the grid that queue, inside the grid, only each
      other or themselves energize at most two tiles from the first. */
  lemma PairBound(grid: Grid, s: Beam, t: Beam)
    requires Rectangular(grid) && Inside(grid, s.p) && Inside(grid, t.p)
    requires forall b :: Step(grid, s, b) && Inside(grid, b.p) ==> b == s || b == t
    requires forall b :: Step(grid, t, b) && Inside(grid, b.p) ==> b == s || b == t
    ensures |Energized(grid, s)| <= 2
  {
    ClosedBound(grid, s, {s, t});
    assert (set b | b in {s, t} :: b.p) == {s.p, t.p};
    SubsetCount(Energized(grid, s), {s.p, t.p});
  }

  /** A beam that crosses two cells straight and leaves the grid energizes
      at most those two. */
  lemma StraightOut(grid: Grid, s: Beam)
    requires Rectangular(grid) && Inside(grid, s.p) && Inside(grid, Add(s.p, s.d))
    requires OutsideOfGrid(grid, Add(Add(s.p, s.d), s.d))
    requires PassesThrough(TileAt(grid, s.p), s.d) && PassesThrough(TileAt(grid, Add(s.p, s.d)), s.d)
    ensures |Energized(grid, s)| <= 2
  {
    var t := Beam(Add(s.p, s.d), s.d);
    forall b | Step(grid, s, b) && Inside(grid, b.p)
      ensures b == s || b == t
    {
      PassesThroughOnly(TileAt(grid, s.p), s, b);
    }
    forall b | Step(grid, t, b)
      ensures !Inside(grid, b.p)
    {
      PassesThroughOnly(TileAt(grid, t.p), t, b);
    }
    PairBound(grid, s, t);
  }

  /** A beam inside the grid that reaches two more beams, step after step,
      on two more tiles energizes at least three tiles. */
  lemma ThreeTiles(grid: Grid, b0: Beam, b1: Beam, b2: Beam)
    requires Rectangular(grid) && Inside(grid, b0.p) && Inside(grid, b1.p) && Inside(grid, b2.p)
    requires Step(grid, b0, b1) && Step(grid, b1, b2)
    requires b0.p != b1.p && b1.p != b2.p && b0.p != b2.p
    ensures |Energized(grid, b0)| >= 3
  {
    ReachesStart(grid, b0);
    ReachesStep(grid, b0, b0, b1);
    ReachesStep(grid, b0, b1, b2);
    var tiles := {b0.p, b1.p, b2.p};
    forall p | p in tiles
      ensures p in Energized(grid, b0)
    {
      if p == b0.p {
        assert Reaches(grid, b0, Beam(p, b0.d));
      } else if p == b1.p {
        assert Reaches(grid, b0, Beam(p, b1.d));
      } else {
        assert Reaches(grid, b0, Beam(p, b2.d));
      }
    }
    assert |tiles| == 3;
    SubsetCount(tiles, Energized(grid, b0));
  }

  /** A two by two grid with a splitter `-` in its top-left corner and
      empty cells elsewhere. */
  predicate IsSplitterCorner(g: Grid) {
    Rectangular(g) && |g| == 2 && Width(g) == 2 &&
    g[0][0] == '-' && g[0][1] == '.' && g[1][0] == '.' && g[1][1] == '.'
  }

  const SplitterCorner: Grid := ["-.", ".."]

  lemma SplitterCornerIs()
    ensures IsSplitterCorner(SplitterCorner)
  {
    var g := SplitterCorner;
    assert |g| == 2 && g[0] == "-." && g[1] == "..";
  }

  /** The tiles of such a grid, and which nearby points lie outside it. */
  lemma SplitterCornerTiles(g: Grid)
    requires IsSplitterCorner(g)
    ensures Inside(g, Point(0, 0)) && TileAt(g, Point(0, 0)) == '-'
    ensures Inside(g, Point(1, 0)) && TileAt(g, Point(1, 0)) == '.'
    ensures Inside(g, Point(0, 1)) && TileAt(g, Point(0, 1)) == '.'
    ensures Inside(g, Point(1, 1)) && TileAt(g, Point(1, 1)) == '.'
    ensures OutsideOfGrid(g, Point(-1, 0)) && OutsideOfGrid(g, Point(-1, 1))
    ensures OutsideOfGrid(g, Point(2, 0)) && OutsideOfGrid(g, Point(2, 1)) && OutsideOfGrid(g, Point(1, 2))
  {
  }

  /** From the bottom-left cell a beam heading up climbs to the splitter. */
  lemma SplitterCornerClimbs(g: Grid)
    requires IsSplitterCorner(g)
    ensures Step(g, Beam(Point(0, 1), Up), Beam(Point(0, 0), Up))
  {
    PassesThroughAhead(TileAt(g, Point(0, 1)), Beam(Point(0, 1), Up));
  }

  /** The splitter turns it right, among others. */
  lemma SplitterCornerSplits(g: Grid)
    requires IsSplitterCorner(g)
    ensures Step(g, Beam(Point(0, 0), Up), Beam(Point(1, 0), Right))
  {
    SplitsSideways(TileAt(g, Point(0, 0)), Beam(Point(0, 0), Up));
  }

  /** Entering upward at the bottom-left cell, the beam climbs to the
      splitter, which sends it right: three tiles. */
  lemma SplitterCornerFromBelow(g: Grid)
    requires IsSplitterCorner(g)
    ensures |Energized(g, Beam(Point(0, 1), Up))| >= 3
  {
    SplitterCornerTiles(g);
    SplitterCornerClimbs(g);
    SplitterCornerSplits(g);
    ThreeTiles(g, Beam(Point(0, 1), Up), Beam(Point(0, 0), Up), Beam(Point(1, 0), Right));
  }

  /** Entering downward at the splitter, the beam is split; the left half
      leaves the grid and the right half crosses one cell and leaves. */
  lemma SplitterCornerDownAtSplitter(g: Grid)
    requires IsSplitterCorner(g)
    ensures |Energized(g, Beam(Point(0, 0), Down))| <= 2
  {
    SplitterCornerTiles(g);
    var s, t := Beam(Point(0, 0), Down), Beam(Point(1, 0), Right);
    forall b | Step(g, s, b) && Inside(g, b.p)
      ensures b == s || b == t
    {
      SplitsSidewaysOnly(TileAt(g, s.p), s, b);
    }
    forall b | Step(g, t, b)
      ensures !Inside(g, b.p)
    {
      PassesThroughOnly(TileAt(g, t.p), t, b);
    }
    PairBound(g, s, t);
  }

  lemma SplitterCornerAsWrittenBeams()
    ensures AsWrittenEdgeBeams(2, 2) ==
      [Beam(Point(0, 0), Right), Beam(Point(0, 1), Right), Beam(Point(0, 0), Down), Beam(Point(1, 0), Down),
       Beam(Point(1, 0), Left), Beam(Point(1, 1), Left), Beam(Point(2, 0), Up), Beam(Point(2, 1), Up)]
  {
  }

  /** The beams the as-written part two tries on the grid energize at most
      two tiles each. */
  lemma SplitterCornerAtMostTwo(g: Grid, b: Beam)
    requires IsSplitterCorner(g)
    requires b in [Beam(Point(0, 0), Right), Beam(Point(0, 1), Right), Beam(Point(0, 0), Down), Beam(Point(1, 0), Down),
                   Beam(Point(1, 0), Left), Beam(Point(1, 1), Left), Beam(Point(2, 0), Up), Beam(Point(2, 1), Up)]
    ensures |Energized(g, b)| <= 2
  {
    if b.p.x == 2 {
      assert OutsideOfGrid(g, b.p) by { SplitterCornerTiles(g); }
      EnergizedBounds(g, b);
    } else if b == Beam(Point(0, 0), Down) {
      SplitterCornerDownAtSplitter(g);
    } else if b == Beam(Point(0, 0), Right) {
      assert |Energized(g, b)| <= 2 by { SplitterCornerTiles(g); StraightOut(g, b); }
    } else if b == Beam(Point(0, 1), Right) {
      assert |Energized(g, b)| <= 2 by { SplitterCornerTiles(g); StraightOut(g, b); }
    } else if b == Beam(Point(1, 0), Down) {
      assert |Energized(g, b)| <= 2 by { SplitterCornerTiles(g); StraightOut(g, b); }
    } else if b == Beam(Point(1, 0), Left) {
      assert |Energized(g, b)| <= 2 by { SplitterCornerTiles(g); StraightOut(g, b); }
    } else {
      assert |Energized(g, b)| <= 2 by { SplitterCornerTiles(g); StraightOut(g, b); }
    }
  }

  /** On `SplitterCorner` the as-written part two answers 2, while the beam
      entering upward at the bottom-left cell energizes 3 tiles. */
  lemma AsWrittenMissesBestStart()
    ensures AsWrittenEdgeBeams(2, 2) != [] && Best(SplitterCorner, AsWrittenEdgeBeams(2, 2)) <= 2
    ensures EdgeBeams(2, 2) != [] && Best(SplitterCorner, EdgeBeams(2, 2)) >= 3
  {
    var g := SplitterCorner;
    SplitterCornerIs();
    var beams := AsWrittenEdgeBeams(2, 2);
    BestIsMax(g, beams);
    var i :| 0 <= i < |beams| && |Energized(g, beams[i])| == Best(g, beams);
    SplitterCornerAsWrittenBeams();
    SplitterCornerAtMostTwo(g, beams[i]);
    SplitterCornerFromBelow(g);
    PartTwoCoversEveryEntry(g, Beam(Point(0, 1), Up));
  }
}
