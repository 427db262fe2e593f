/** Day 13: point of incidence (adventofcode2023/days/day13.py).  A pattern is a
    rectangular grid of `.` and `#`; a line of reflection lies between two
    adjacent columns (or rows) when the pattern folded along it matches as far
    as it reaches.  The source has one search over columns and a copy of it
    over rows; here the search is written once over a sequence of lines and
    used on the columns and on the rows. */
module Day13 {
  import opened Wrappers
  import Text
  import opened Sums
  import opened Grids

  // ---------------------------------------------------------------------------
  // The search, over any sequence of lines

  /** `np.flip` along the line axis. */
  function Reverse<T>(s: seq<T>): (r: seq<T>)
    ensures |r| == |s| && forall k :: 0 <= k < |s| ==> r[k] == s[|s| - 1 - k]
  {
    seq(|s|, k requires 0 <= k < |s| => s[|s| - 1 - k])
  }

  /** `is_mirror(p, lo, hi)`: lines `lo` to `hi` read the same in reverse. */
  predicate IsMirror<T(==)>(ls: seq<T>, lo: nat, hi: nat)
    requires lo <= hi < |ls|
  {
    Reverse(ls[lo..hi + 1]) == ls[lo..hi + 1]
  }

  /** The window the source checks for the pair `i`, `i + 1` of `n` lines:
      from the start to `2i + 1` before the middle, from
      `n - 2(n - i - 1)` to the end from the middle on. */
  function Window(n: nat, i: nat): (w: (nat, nat))
    requires i + 1 < n
    ensures w.0 <= i && i + 1 <= w.1 < n && w.0 + w.1 == 2 * i + 1
    ensures w.0 == 0 || w.1 == n - 1
  {
    if i >= n / 2 then (n - (n - i - 1) * 2, n - 1) else (0, i * 2 + 1)
  }

  /** The loop of `get_reflection_point_vert` from pair `i` on: the first
      pair of equal lines whose window is a mirror gives `i + 1`. */
  function SearchFrom<T(==)>(ls: seq<T>, i: nat): Option<nat>
    decreases |ls| - i
  {
    if i + 1 >= |ls| then None
    else if ls[i] == ls[i + 1] && IsMirror(ls, Window(|ls|, i).0, Window(|ls|, i).1) then Some(i + 1)
    else SearchFrom(ls, i + 1)
  }

  /** The reflection point of a sequence of lines, or None. */
  function ReflectionPoint<T(==)>(ls: seq<T>): Option<nat> {
    SearchFrom(ls, 0)
  }

  /** The fold between lines `i` and `i + 1` matches: every line `j` above
      the fold equals its mirror image `2i + 1 - j` below it, as long as that
      line exists. */
  predicate Reflects<T(==)>(ls: seq<T>, i: nat) {
    i + 1 < |ls| && forall j :: 0 <= j <= i && 2 * i + 1 - j < |ls| ==> ls[j] == ls[2 * i + 1 - j]
  }

  lemma MirrorPointwise<T>(ls: seq<T>, lo: nat, hi: nat)
    requires lo <= hi < |ls|
    ensures IsMirror(ls, lo, hi) <==> forall k :: lo <= k <= hi ==> ls[k] == ls[lo + hi - k]
  {
    var w := ls[lo..hi + 1];
    if forall k :: lo <= k <= hi ==> ls[k] == ls[lo + hi - k] {
      forall k | 0 <= k < |w| ensures Reverse(w)[k] == w[k] {
        assert w[k] == ls[lo + k] && Reverse(w)[k] == ls[hi - k];
      }
    }
    if IsMirror(ls, lo, hi) {
      forall k | lo <= k <= hi ensures ls[k] == ls[lo + hi - k] {
        assert Reverse(w)[k - lo] == w[k - lo];
      }
    }
  }

  /** The source's check, an equal pair whose window is a mirror, is the fold
      matching. */
  lemma WindowCheckIsReflection<T>(ls: seq<T>, i: nat)
    requires i + 1 < |ls|
    ensures (ls[i] == ls[i + 1] && IsMirror(ls, Window(|ls|, i).0, Window(|ls|, i).1)) <==> Reflects(ls, i)
  {
    var n := |ls|;
    var (lo, hi) := Window(n, i);
    MirrorPointwise(ls, lo, hi);
    if Reflects(ls, i) {
      assert ls[i] == ls[2 * i + 1 - i];
      forall k | lo <= k <= hi ensures ls[k] == ls[lo + hi - k] {
        if k > i {
          assert ls[lo + hi - k] == ls[2 * i + 1 - (lo + hi - k)];
        }
      }
    }
    if ls[i] == ls[i + 1] && IsMirror(ls, lo, hi) {
      forall j | 0 <= j <= i && 2 * i + 1 - j < n ensures ls[j] == ls[2 * i + 1 - j] {
        assert lo <= j;
      }
    }
  }

  /** A search from pair `i` that finds `k` found the first pair from `i` on
      whose fold matches. */
  lemma {:induction false} SearchFromFinds<T>(ls: seq<T>, i: nat)
    requires SearchFrom(ls, i).Some?
    ensures i < SearchFrom(ls, i).value < |ls|
    ensures Reflects(ls, SearchFrom(ls, i).value - 1)
    ensures forall j :: i <= j < SearchFrom(ls, i).value - 1 ==> !Reflects(ls, j)
    decreases |ls| - i
  {
    WindowCheckIsReflection(ls, i);
    if !(ls[i] == ls[i + 1] && IsMirror(ls, Window(|ls|, i).0, Window(|ls|, i).1)) {
      SearchFromFinds(ls, i + 1);
    }
  }

  /** A search from pair `i` that finds nothing: no fold from `i` on matches. */
  lemma {:induction false} SearchFromNone<T>(ls: seq<T>, i: nat)
    requires SearchFrom(ls, i).None?
    ensures forall j :: i <= j ==> !Reflects(ls, j)
    decreases |ls| - i
  {
    if i + 1 < |ls| {
      WindowCheckIsReflection(ls, i);
      SearchFromNone(ls, i + 1);
    }
  }

  /** The reflection point is the smallest `k` whose fold between lines
      `k - 1` and `k` matches; it lies between 1 and `n - 1`, and it is None
      exactly when no fold matches. */
  lemma ReflectionPointIsFirst<T>(ls: seq<T>)
    ensures ReflectionPoint(ls).Some? ==>
              var k := ReflectionPoint(ls).value;
              1 <= k <= |ls| - 1 && Reflects(ls, k - 1) && forall j :: 0 <= j < k - 1 ==> !Reflects(ls, j)
    ensures ReflectionPoint(ls).None? <==> forall j :: !Reflects(ls, j)
  {
    if ReflectionPoint(ls).Some? {
      SearchFromFinds(ls, 0);
    } else {
      SearchFromNone(ls, 0);
    }
  }

  /** Conversely, the first matching fold is the reflection point. */
  lemma FirstReflectionIsPoint<T>(ls: seq<T>, k: nat)
    requires 1 <= k && Reflects(ls, k - 1) && forall j :: 0 <= j < k - 1 ==> !Reflects(ls, j)
    ensures ReflectionPoint(ls) == Some(k)
  {
    ReflectionPointIsFirst(ls);
  }

  // ---------------------------------------------------------------------------
  // Columns and rows

  /** `get_reflection_point_vert(p)`: the search over the columns; a result
      `k` puts `k` columns left of the line. */
  function Vertical(p: Grid): (r: Option<nat>)
    requires Rectangular(p)
    ensures r.Some? ==> 1 <= r.value < Width(p) && Reflects(Columns(p), r.value - 1)
    ensures r.None? ==> forall j :: !Reflects(Columns(p), j)
  {
    ReflectionPointIsFirst(Columns(p));
    ReflectionPoint(Columns(p))
  }

  /** `get_reflection_point_hori(p)`: the search over the rows; a result `k`
      puts `k` rows above the line. */
  function Horizontal(p: Grid): (r: Option<nat>)
    ensures r.Some? ==> 1 <= r.value < |p| && Reflects(p, r.value - 1)
    ensures r.None? ==> forall j :: !Reflects(p, j)
  {
    ReflectionPointIsFirst(p);
    ReflectionPoint(p)
  }

  /** A vertical line after column `k - 1` is a fold of every row: each cell
      left of it equals its mirror image `2k - 1 - j` right of it, as far as
      the row reaches. */
  lemma VerticalFoldsEveryRow(p: Grid)
    requires Rectangular(p) && Vertical(p).Some?
    ensures var k := Vertical(p).value;
            1 <= k < Width(p)
            && forall r, j :: 0 <= r < |p| && 0 <= j < k && 2 * k - 1 - j < Width(p) ==> p[r][j] == p[r][2 * k - 1 - j]
  {
    var cs := Columns(p);
    ReflectionPointIsFirst(cs);
    var k := Vertical(p).value;
    forall r, j | 0 <= r < |p| && 0 <= j < k && 2 * k - 1 - j < Width(p)
      ensures p[r][j] == p[r][2 * k - 1 - j]
    {
      assert cs[j] == cs[2 * (k - 1) + 1 - j];
      assert cs[j][r] == p[r][j];
    }
  }

  /** The tests' second pattern: the line of reflection lies below row 4, and
      no vertical line exists. */
  lemma SecondPatternExample()
    ensures var p := ["#...##..#", "#....#..#", "..##..###", "#####.##.", "#####.##.", "..##..###", "#....#..#"];
            Rectangular(p) && Vertical(p) == None && Horizontal(p) == Some(4)
  {
    SecondPatternColumns();
    SecondPatternNoFold();
    SecondPatternFold();
  }

  /** The search over the second pattern's rows stops at the fold below
      row 4. */
  lemma SecondPatternFold()
    ensures ReflectionPoint(["#...##..#", "#....#..#", "..##..###", "#####.##.", "#####.##.", "..##..###", "#....#..#"]) == Some(4)
  {
    var p := ["#...##..#", "#....#..#", "..##..###", "#####.##.", "#####.##.", "..##..###", "#....#..#"];
    assert p[0][4] != p[1][4] && p[1][0] != p[2][0] && p[2][0] != p[3][0];
    assert !Reflects(p, 0) && !Reflects(p, 1) && !Reflects(p, 2);
    assert Reflects(p, 3) by {
      assert p[1] == p[6] && p[2] == p[5] && p[3] == p[4];
      forall j | 0 <= j <= 3 && 2 * 3 + 1 - j < 7 ensures p[j] == p[2 * 3 + 1 - j] {
        if j == 1 {} else if j == 2 {} else { assert j == 3; }
      }
    }
    forall j | 0 <= j < 3 ensures !Reflects(p, j) {
      if j == 0 {} else if j == 1 {} else { assert j == 2; }
    }
    FirstReflectionIsPoint(p, 4);
  }

  /** The columns of the tests' second pattern. */
  lemma SecondPatternColumns()
    ensures var p := ["#...##..#", "#....#..#", "..##..###", "#####.##.", "#####.##.", "..##..###", "#....#..#"];
            Rectangular(p)
            && Columns(p) == ["##.##.#", "...##..", "..####.", "..####.", "#..##..", "##....#", "..####.", "..####.", "###..##"]
  {
    var p := ["#...##..#", "#....#..#", "..##..###", "#####.##.", "#####.##.", "..##..###", "#....#..#"];
    var expected := ["##.##.#", "...##..", "..####.", "..####.", "#..##..", "##....#", "..####.", "..####.", "###..##"];
    assert Rectangular(p);
    forall j | 0 <= j < 9 ensures Columns(p)[j] == expected[j] {
      assert |Column(p, j)| == 7;
    }
  }

  /** No fold of the second pattern's columns matches: the two pairs of
      equal columns each have a differing pair just outside them. */
  lemma SecondPatternNoFold()
    ensures ReflectionPoint(["##.##.#", "...##..", "..####.", "..####.", "#..##..", "##....#", "..####.", "..####.", "###..##"]) == None
  {
    var cs := ["##.##.#", "...##..", "..####.", "..####.", "#..##..", "##....#", "..####.", "..####.", "###..##"];
    assert cs[0][0] != cs[1][0] && cs[1][2] != cs[2][2] && cs[1][0] != cs[4][0] && cs[3][0] != cs[4][0];
    assert cs[4][1] != cs[5][1] && cs[5][0] != cs[6][0] && cs[5][2] != cs[8][2] && cs[7][0] != cs[8][0];
    forall j ensures !Reflects(cs, j) {
      if j == 2 {
        assert cs[1] != cs[2 * 2 + 1 - 1];
      } else if j == 6 {
        assert cs[5] != cs[2 * 6 + 1 - 5];
      }
    }
    ReflectionPointIsFirst(cs);
  }

  /** The columns of the tests' first pattern. */
  lemma FirstPatternColumns()
    ensures var p := ["#.##..##.", "..#.##.#.", "##......#", "##......#", "..#.##.#.", "..##..##.", "#.#.##.#."];
            Rectangular(p)
            && Columns(p) == ["#.##..#", "..##...", "##..###", "#....#.", ".#..#.#", ".#..#.#", "#....#.", "##..###", "..##..."]
  {
    var p := ["#.##..##.", "..#.##.#.", "##......#", "##......#", "..#.##.#.", "..##..##.", "#.#.##.#."];
    var expected := ["#.##..#", "..##...", "##..###", "#....#.", ".#..#.#", ".#..#.#", "#....#.", "##..###", "..##..."];
    assert Rectangular(p);
    forall j | 0 <= j < 9 ensures Columns(p)[j] == expected[j] {
      assert |Column(p, j)| == 7;
    }
  }

  /** The tests' first pattern: the line of reflection lies right of
      column 5. */
  lemma FirstPatternExample()
    ensures var p := ["#.##..##.", "..#.##.#.", "##......#", "##......#", "..#.##.#.", "..##..##.", "#.#.##.#."];
            Rectangular(p) && Vertical(p) == Some(5) && Horizontal(p) == None
  {
    FirstPatternColumns();
    FirstPatternFold();
    FirstPatternNoFold();
  }

  /** No fold between the first pattern's rows reflects. */
  lemma FirstPatternNoFold()
    ensures ReflectionPoint(["#.##..##.", "..#.##.#.", "##......#", "##......#", "..#.##.#.", "..##..##.", "#.#.##.#."]) == None
  {
    var rs := ["#.##..##.", "..#.##.#.", "##......#", "##......#", "..#.##.#.", "..##..##.", "#.#.##.#."];
    assert rs[0][0] != rs[1][0] && rs[1][0] != rs[2][0] && rs[0][0] != rs[5][0];
    assert rs[3][0] != rs[4][0] && rs[4][3] != rs[5][3] && rs[5][0] != rs[6][0];
    forall j ensures !Reflects(rs, j) {
      if j == 2 {
        assert rs[0] != rs[2 * 2 + 1 - 0];
      }
    }
    ReflectionPointIsFirst(rs);
  }

  /** The search over the first pattern's columns stops at the fold after
      column 5. */
  lemma FirstPatternFold()
    ensures ReflectionPoint(["#.##..#", "..##...", "##..###", "#....#.", ".#..#.#", ".#..#.#", "#....#.", "##..###", "..##..."]) == Some(5)
  {
    var cs := ["#.##..#", "..##...", "##..###", "#....#.", ".#..#.#", ".#..#.#", "#....#.", "##..###", "..##..."];
    assert cs[0][0] != cs[1][0] && cs[1][0] != cs[2][0] && cs[2][1] != cs[3][1] && cs[3][0] != cs[4][0];
    assert !Reflects(cs, 0) && !Reflects(cs, 1) && !Reflects(cs, 2);
    assert cs[3] != cs[2 * 3 + 1 - 3];
    assert !Reflects(cs, 3);
    assert Reflects(cs, 4) by {
      assert cs[1] == cs[8] && cs[2] == cs[7] && cs[3] == cs[6] && cs[4] == cs[5];
      forall j | 0 <= j <= 4 && 2 * 4 + 1 - j < 9 ensures cs[j] == cs[2 * 4 + 1 - j] {
        if j == 1 {} else if j == 2 {} else if j == 3 {} else { assert j == 4; }
      }
    }
    forall j | 0 <= j < 4 ensures !Reflects(cs, j) {
      if j == 0 {} else if j == 1 {} else if j == 2 {} else { assert j == 3; }
    }
    FirstReflectionIsPoint(cs, 5);
  }

  // ---------------------------------------------------------------------------
  // Part one

  /** `np.array([list(s) for s in pattern.split('\n')])`: numpy raises
      ValueError for rows of different lengths. */
  function Pattern(text: string): (r: Result<Grid>)
    ensures r.Ok? <==> Rectangular(Text.Split(text, "\n"))
    ensures r.Ok? ==> r.value == Text.Split(text, "\n")
    ensures r.Err? ==> r.failure == ValueError
  {
    var rows := Text.Split(text, "\n");
    if Rectangular(rows) then Ok(rows) else Err(ValueError)
  }

  /** The note of one pattern: the columns left of a vertical line, or else
      100 times the rows above a horizontal one; an AssertionError when the
      pattern has neither. */
  function Note(text: string): (r: Result<int>)
    ensures r.Ok? ==> Rectangular(Text.Split(text, "\n"))
    ensures r.Ok? ==> var p := Text.Split(text, "\n");
                      match Vertical(p) {
                        case Some(a) => r.value == a
                        case None => Horizontal(p).Some? && r.value == 100 * Horizontal(p).value
                      }
    ensures r.Err? ==> r.failure == ValueError || r.failure == AssertionError
  {
    match Pattern(text) {
      case Err(e) => Err(e)
      case Ok(p) =>
        var a := Vertical(p);
        var b := Horizontal(p);
        if a.None? && b.None? then Err(AssertionError)
        else if a.None? then Ok(100 * b.value)
        else Ok(a.value)
    }
  }

  /** A pattern with a line of reflection gets a positive note. */
  lemma NotePositive(text: string)
    requires Note(text).Ok?
    ensures Note(text).value >= 1
  {
    var p := Text.Split(text, "\n");
    ReflectionPointIsFirst(Columns(p));
    ReflectionPointIsFirst(p);
  }

  /** `solve_part_one`: the sum of the notes of the patterns separated by blank
      lines, failing at the first pattern that fails. */
  function PartOne(input: string): Result<int> {
    Total(Map(Note, Text.Split(input, "\n\n")))
  }

  /** `solve_part_one` as the source runs it: a loop adding each pattern's
      note to the summary, stopping at the first exception. */
  method SolvePartOne(input: string) returns (r: Result<int>)
    ensures r == PartOne(input)
  {
    r := TotalEach(Note, Text.Split(input, "\n\n"));
  }
}
