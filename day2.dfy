/** Day 2: games of cubes drawn from a bag; which games are possible with 12
    red, 13 green and 14 blue cubes, and the fewest cubes each game needs
    (adventofcode2023/days/day2.py). */
module Day2 {
  import opened Wrappers
  import opened Text
  import opened Sums

  /** The colour dictionaries of the source, keyed by colour name. */
  type Counts = map<string, int>

  const Colours: seq<string> := ["red", "green", "blue"]

  /** `{'red': 0, 'green': 0, 'blue': 0}`. */
  const Zero: Counts := map["red" := 0, "green" := 0, "blue" := 0]

  /** `max_colors`. */
  const Limits: Counts := map["red" := 12, "green" := 13, "blue" := 14]

  /** One roll such as `" 3 blue"`: stripped, split on a single space into
      exactly two pieces (else ValueError), and the first piece read with
      `int` (else ValueError). */
  function ParseRoll(roll: string): Result<(int, string)> {
    var pieces := Split(Strip(roll), " ");
    if |pieces| != 2 then Err(ValueError)
    else match ParseInt(pieces[0]) {
      case None => Err(ValueError)
      case Some(n) => Ok((n, pieces[1]))
    }
  }

  /** A roll as read: its number and colour, or the error reading it raises. */
  type Roll = Result<(int, string)>

  /** Every roll read on its own; an error is raised only when the loop of the
      source reaches that roll. */
  function ParseAll(rolls: seq<string>): (r: seq<Roll>)
    ensures |r| == |rolls| && forall k :: 0 <= k < |rolls| ==> r[k] == ParseRoll(rolls[k])
  {
    seq(|rolls|, k requires 0 <= k < |rolls| => ParseRoll(rolls[k]))
  }

  // ---------------------------------------------------------------------------
  // Part one

  /** The counts of one draw: each roll adds its number to its colour; a colour
      that is not a key of the dictionary raises KeyError. */
  function AddRolls(counts: Counts, rolls: seq<Roll>): (r: Result<Counts>)
    ensures r.Ok? ==> r.value.Keys == counts.Keys
  {
    if rolls == [] then Ok(counts)
    else match AddRoll(counts, rolls[0]) {
      case Err(e) => Err(e)
      case Ok(next) => AddRolls(next, rolls[1..])
    }
  }

  /** One roll of part one: its number is added to its colour. */
  function AddRoll(counts: Counts, roll: Roll): (r: Result<Counts>)
    ensures r.Ok? ==> r.value.Keys == counts.Keys
  {
    if roll.Err? then Err(roll.failure)
    else
      var (n, c) := roll.value;
      if c !in counts then Err(KeyError) else Ok(counts[c := counts[c] + n])
  }

  /** The total the rolls give colour `c`: the numbers of its well-formed
      rolls of that colour, added up. */
  function ColourTotal(rolls: seq<Roll>, c: string): int {
    if rolls == [] then 0
    else
      (match rolls[0] {
         case Ok((n, c')) => if c' == c then n else 0
         case Err(_) => 0
       }) + ColourTotal(rolls[1..], c)
  }

  /** Within one draw the counts are summed per colour. */
  lemma {:induction false} AddRollsSumsPerColour(counts: Counts, rolls: seq<Roll>)
    requires AddRolls(counts, rolls).Ok?
    ensures forall c :: c in counts ==> AddRolls(counts, rolls).value[c] == counts[c] + ColourTotal(rolls, c)
  {
    if rolls != [] {
      var (n, c) := rolls[0].value;
      AddRollsSumsPerColour(counts[c := counts[c] + n], rolls[1..]);
    }
  }

  /** Some colour of the draw exceeds its limit. */
  predicate Exceeds(counts: Counts)
    requires counts.Keys == Limits.Keys
  {
    exists k :: k in Limits && counts[k] > Limits[k]
  }

  function DrawCounts(draw: string): (r: Result<Counts>)
    ensures r.Ok? ==> r.value.Keys == Limits.Keys
  {
    AddRolls(Zero, ParseAll(Split(draw, ",")))
  }

  /** The draws are checked in order and the check stops at the first draw
      that exceeds a limit; a draw after it is never read. */
  function Possible(draws: seq<string>): Result<bool> {
    if draws == [] then Ok(true)
    else match DrawCounts(draws[0]) {
      case Err(e) => Err(e)
      case Ok(counts) => if Exceeds(counts) then Ok(false) else Possible(draws[1..])
    }
  }

  /** A game is possible iff every draw can be read and none exceeds the limits. */
  lemma {:induction false} PossibleIffNoDrawExceeds(draws: seq<string>)
    ensures Possible(draws) == Ok(true) <==>
      forall k :: 0 <= k < |draws| ==> DrawCounts(draws[k]).Ok? && !Exceeds(DrawCounts(draws[k]).value)
    ensures Possible(draws) == Ok(false) ==>
      exists k :: 0 <= k < |draws| && DrawCounts(draws[k]).Ok? && Exceeds(DrawCounts(draws[k]).value)
  {
    if draws != [] {
      var tail := draws[1..];
      PossibleIffNoDrawExceeds(tail);
      var first := DrawCounts(draws[0]);
      assert forall k :: 1 <= k < |draws| ==> draws[k] == tail[k - 1];
      if first.Ok? && !Exceeds(first.value) {
        assert Possible(draws) == Possible(tail);
        if Possible(tail) == Ok(false) {
          var k :| 0 <= k < |tail| && DrawCounts(tail[k]).Ok? && Exceeds(DrawCounts(tail[k]).value);
          assert draws[k + 1] == tail[k];
        }
      }
    }
  }

  /** The checking loop of part one over the draws of one game, which stops
      at the first draw over the limits. */
  method GameIsPossible(cubes: string) returns (r: Result<bool>)
    ensures r == Possible(Split(cubes, ";"))
  {
    var draws := Split(cubes, ";");
    var gameIsPossible := true;
    var i := 0;
    while i < |draws|
      invariant 0 <= i <= |draws|
      invariant Possible(draws) == Possible(draws[i..])
    {
      assert draws[i..][1..] == draws[i + 1..];
      var startColors := CountDraw(Zero, Split(draws[i], ","));
      if startColors.Err? {
        return Err(startColors.failure);
      }
      if Exceeds(startColors.value) {
        gameIsPossible := false;
        break;
      }
      i := i + 1;
    }
    r := Ok(gameIsPossible);
  }

  /** The inner loop of part one: the counts of one draw in `start_colors`. */
  method CountDraw(start: Counts, rolls: seq<string>) returns (r: Result<Counts>)
    ensures r == AddRolls(start, ParseAll(rolls))
  {
    var startColors := start;
    ghost var parsed := ParseAll(rolls);
    for j := 0 to |rolls|
      invariant startColors.Keys == start.Keys
      invariant AddRolls(start, parsed) == AddRolls(startColors, parsed[j..])
    {
      AddRollsStep(startColors, parsed, j);
      var roll := ParseRoll(rolls[j]);
      if roll.Err? {
        return Err(roll.failure);
      }
      var (num, color) := roll.value;
      if color !in startColors {
        return Err(KeyError);
      }
      AddRollsTaken(startColors, parsed, j, num, color);
      startColors := startColors[color := startColors[color] + num];
    }
    assert parsed[|rolls|..] == [];
    r := Ok(startColors);
  }

  /** Adding the rolls from position `j` on: the roll at `j` first. */
  lemma AddRollsStep(counts: Counts, rolls: seq<Roll>, j: int)
    requires 0 <= j < |rolls|
    ensures rolls[j].Err? ==> AddRolls(counts, rolls[j..]) == Err(rolls[j].failure)
    ensures rolls[j].Ok? && rolls[j].value.1 !in counts ==> AddRolls(counts, rolls[j..]) == Err(KeyError)
    ensures rolls[j].Ok? && rolls[j].value.1 in counts ==>
      AddRolls(counts, rolls[j..]) ==
      AddRolls(counts[rolls[j].value.1 := counts[rolls[j].value.1] + rolls[j].value.0], rolls[j + 1..])
  {
    assert rolls[j..][0] == rolls[j];
    assert rolls[j..][1..] == rolls[j + 1..];
  }

  lemma AddRollsTaken(counts: Counts, rolls: seq<Roll>, j: int, n: int, c: string)
    requires 0 <= j < |rolls| && rolls[j] == Ok((n, c)) && c in counts
    ensures AddRolls(counts, rolls[j..]) == AddRolls(counts[c := counts[c] + n], rolls[j + 1..])
  {
    AddRollsStep(counts, rolls, j);
  }

  /** The id of a game: the last space-separated piece of `Game <id>`. */
  function GameId(gameConf: string): Result<int> {
    var pieces := Split(gameConf, " ");
    match ParseInt(pieces[|pieces| - 1]) {
      case None => Err(ValueError)
      case Some(id) => Ok(id)
    }
  }

  /** One line of part one: the id when the game is possible, else 0.  The
      line must hold exactly one `:` (else ValueError). */
  function PossibleId(line: string): Result<int> {
    var halves := Split(line, ":");
    if |halves| != 2 then Err(ValueError)
    else match GameId(halves[0]) {
      case Err(e) => Err(e)
      case Ok(id) =>
        match Possible(Split(halves[1], ";")) {
          case Err(e) => Err(e)
          case Ok(possible) => Ok(if possible then id else 0)
        }
    }
  }

  // ---------------------------------------------------------------------------
  // Part two

  /** The rolls of every grab of a game, in order. */
  function AllRolls(grabs: seq<string>): seq<string> {
    if grabs == [] then [] else Split(grabs[0], ",") + AllRolls(grabs[1..])
  }

  /** `fewest_colors`: each roll raises its colour to its number when that is
      larger; a colour that is not a key raises KeyError. */
  function MaxRolls(counts: Counts, rolls: seq<Roll>): (r: Result<Counts>)
    ensures r.Ok? ==> r.value.Keys == counts.Keys
  {
    if rolls == [] then Ok(counts)
    else match RaiseRoll(counts, rolls[0]) {
      case Err(e) => Err(e)
      case Ok(next) => MaxRolls(next, rolls[1..])
    }
  }

  /** One roll of part two: its colour is raised to its number. */
  function RaiseRoll(counts: Counts, roll: Roll): (r: Result<Counts>)
    ensures r.Ok? ==> r.value.Keys == counts.Keys
  {
    if roll.Err? then Err(roll.failure)
    else
      var (n, c) := roll.value;
      if c !in counts then Err(KeyError)
      else Ok(if n > counts[c] then counts[c := n] else counts)
  }

  /** Raising by the rolls from position `j` on: the roll at `j` first. */
  lemma MaxRollsStep(counts: Counts, rolls: seq<Roll>, j: int)
    requires 0 <= j < |rolls|
    ensures MaxRolls(counts, rolls[j..]) ==
      match RaiseRoll(counts, rolls[j]) {
        case Err(e) => Err(e)
        case Ok(next) => MaxRolls(next, rolls[j + 1..])
      }
  {
    assert rolls[j..][0] == rolls[j];
    assert rolls[j..][1..] == rolls[j + 1..];
  }

  /** Each colour ends at the largest of its start value and the numbers of
      its rolls. */
  lemma {:induction false} MaxRollsIsMaximum(counts: Counts, rolls: seq<Roll>)
    requires MaxRolls(counts, rolls).Ok?
    ensures forall k :: 0 <= k < |rolls| ==> rolls[k].Ok? && rolls[k].value.1 in counts
    ensures forall c :: c in counts ==> MaxRolls(counts, rolls).value[c] >= counts[c]
    ensures forall k :: 0 <= k < |rolls| ==>
      MaxRolls(counts, rolls).value[rolls[k].value.1] >= rolls[k].value.0
    ensures forall c :: c in counts ==>
      MaxRolls(counts, rolls).value[c] == counts[c] ||
      exists k :: 0 <= k < |rolls| && rolls[k].value == (MaxRolls(counts, rolls).value[c], c)
  {
    if rolls != [] {
      var (n, c) := rolls[0].value;
      var next := if n > counts[c] then counts[c := n] else counts;
      var tail := rolls[1..];
      MaxRollsIsMaximum(next, tail);
      var m := MaxRolls(counts, rolls).value;
      assert m == MaxRolls(next, tail).value;
      forall k | 1 <= k < |rolls|
        ensures rolls[k].Ok? && rolls[k].value.1 in counts
        ensures m[rolls[k].value.1] >= rolls[k].value.0
      {
        assert rolls[k] == tail[k - 1];
      }
      forall c' | c' in counts && m[c'] != counts[c']
        ensures exists k :: 0 <= k < |rolls| && rolls[k].value == (m[c'], c')
      {
        if m[c'] == next[c'] {
          assert rolls[0].value == (m[c'], c');
        } else {
          var k :| 0 <= k < |tail| && tail[k].value == (m[c'], c');
          assert rolls[k + 1] == tail[k];
        }
      }
    }
  }

  /** The power of a set of cubes: the product of the three counts. */
  function Power(counts: Counts): int
    requires counts.Keys == Zero.Keys
  {
    counts["red"] * counts["green"] * counts["blue"]
  }

  /** A colour that no roll of the game names keeps its count 0, so the power
      of that game is 0. */
  lemma PowerZeroWithoutColour(rolls: seq<Roll>, c: string)
    requires c in Zero
    requires MaxRolls(Zero, rolls).Ok?
    requires forall k :: 0 <= k < |rolls| ==> rolls[k].Ok? && rolls[k].value.1 != c
    ensures Power(MaxRolls(Zero, rolls).value) == 0
  {
    MaxRollsIsMaximum(Zero, rolls);
    var m := MaxRolls(Zero, rolls).value;
    assert m[c] == 0;
    if c == "red" {
      assert m["red"] == 0;
    } else if c == "green" {
      assert m["green"] == 0;
    } else {
      assert m["blue"] == 0;
    }
  }

  /** One line of part two: the power of the fewest cubes.  The line must hold
      exactly one `:` (else ValueError). */
  function LinePower(line: string): Result<int> {
    var halves := Split(line, ":");
    if |halves| != 2 then Err(ValueError)
    else match MaxRolls(Zero, ParseAll(AllRolls(Split(halves[1], ";")))) {
      case Err(e) => Err(e)
      case Ok(fewest) => Ok(Power(fewest))
    }
  }

  /** The loops of part two for one game: over the grabs, then over the cubes
      of each grab. */
  method FewestColours(grabs: string) returns (r: Result<Counts>)
    ensures r == MaxRolls(Zero, ParseAll(AllRolls(Split(grabs, ";"))))
  {
    var draws := Split(grabs, ";");
    var fewestColors := Zero;
    for i := 0 to |draws|
      invariant fewestColors.Keys == Zero.Keys
      invariant MaxRolls(Zero, ParseAll(AllRolls(draws))) == MaxRolls(fewestColors, ParseAll(AllRolls(draws[i..])))
    {
      var cubes := Split(draws[i], ",");
      assert draws[i..][1..] == draws[i + 1..];
      assert AllRolls(draws[i..]) == cubes + AllRolls(draws[i + 1..]);
      ParseAllAppend(cubes, AllRolls(draws[i + 1..]));
      MaxRollsAppend(fewestColors, ParseAll(cubes), ParseAll(AllRolls(draws[i + 1..])));
      var raised := RaiseFewest(fewestColors, cubes);
      if raised.Err? {
        return Err(raised.failure);
      }
      fewestColors := raised.value;
    }
    r := Ok(fewestColors);
  }

  /** The inner loop of part two: the cubes of one grab raise `fewest_colors`. */
  method RaiseFewest(fewest: Counts, cubes: seq<string>) returns (r: Result<Counts>)
    ensures r == MaxRolls(fewest, ParseAll(cubes))
  {
    var fewestColors := fewest;
    ghost var parsed := ParseAll(cubes);
    for j := 0 to |cubes|
      invariant fewestColors.Keys == fewest.Keys
      invariant MaxRolls(fewest, parsed) == MaxRolls(fewestColors, parsed[j..])
    {
      MaxRollsStep(fewestColors, parsed, j);
      var cube := ParseRoll(cubes[j]);
      if cube.Err? {
        return Err(cube.failure);
      }
      var (num, color) := cube.value;
      if color !in fewestColors {
        return Err(KeyError);
      }
      if num > fewestColors[color] {
        fewestColors := fewestColors[color := num];
      }
    }
    assert parsed[|cubes|..] == [];
    r := Ok(fewestColors);
  }

  /** Reading two runs of rolls one after the other. */
  lemma {:induction false} MaxRollsAppend(counts: Counts, a: seq<Roll>, b: seq<Roll>)
    ensures MaxRolls(counts, a + b) ==
      match MaxRolls(counts, a) {
        case Err(e) => Err(e)
        case Ok(m) => MaxRolls(m, b)
      }
  {
    if a == [] {
      assert a + b == b;
    } else {
      assert (a + b)[0] == a[0];
      assert (a + b)[1..] == a[1..] + b;
      if RaiseRoll(counts, a[0]).Ok? {
        MaxRollsAppend(RaiseRoll(counts, a[0]).value, a[1..], b);
      }
    }
  }

  lemma ParseAllAppend(a: seq<string>, b: seq<string>)
    ensures ParseAll(a + b) == ParseAll(a) + ParseAll(b)
  {
    assert |ParseAll(a + b)| == |ParseAll(a) + ParseAll(b)|;
    forall k | 0 <= k < |a + b| ensures ParseAll(a + b)[k] == (ParseAll(a) + ParseAll(b))[k] {
      if k >= |a| {
        assert (a + b)[k] == b[k - |a|];
      }
    }
  }

  // ---------------------------------------------------------------------------
  // Both parts

  /** The answer of either part. */
  function Solve(input: string, partTwo: bool): Result<int> {
    var lines := Split(input, "\n");
    Total(if partTwo then Map(LinePower, lines) else Map(PossibleId, lines))
  }

  /** The line of part one: split off the id, then run the checking loop. */
  method PossibleIdOf(line: string) returns (r: Result<int>)
    ensures r == PossibleId(line)
  {
    var halves := Split(line, ":");
    if |halves| != 2 {
      return Err(ValueError);
    }
    var gameId := GameId(halves[0]);
    if gameId.Err? {
      return Err(gameId.failure);
    }
    var gameIsPossible := GameIsPossible(halves[1]);
    if gameIsPossible.Err? {
      return Err(gameIsPossible.failure);
    }
    r := Ok(if gameIsPossible.value then gameId.value else 0);
  }

  /** The line of part two: the power of the fewest cubes. */
  method LinePowerOf(line: string) returns (r: Result<int>)
    ensures r == LinePower(line)
  {
    var halves := Split(line, ":");
    if |halves| != 2 {
      return Err(ValueError);
    }
    var fewestColors := FewestColours(halves[1]);
    if fewestColors.Err? {
      return Err(fewestColors.failure);
    }
    r := Ok(Power(fewestColors.value));
  }

  method IdAt(lines: seq<string>, k: nat) returns (v: Result<int>)
    requires k < |lines|
    ensures v == Map(PossibleId, lines)[k]
  {
    v := PossibleIdOf(lines[k]);
    MapAt(PossibleId, lines, k);
  }

  method PowerAt(lines: seq<string>, k: nat) returns (v: Result<int>)
    requires k < |lines|
    ensures v == Map(LinePower, lines)[k]
  {
    v := LinePowerOf(lines[k]);
    MapAt(LinePower, lines, k);
  }

  /** `solve_part_one`: the loop over the lines, collecting the ids of the
      possible games and summing them. */
  method SolvePartOne(input: string) returns (r: Result<int>)
    ensures r == Solve(input, false)
  {
    var lines := Split(input, "\n");
    ghost var values := Map(PossibleId, lines);
    var total := 0;
    for k := 0 to |lines|
      invariant Total(values) == AddTo(total, Total(values[k..]))
    {
      var v := IdAt(lines, k);
      TotalStep(values, k, total, v);
      if v.Err? {
        return Err(v.failure);
      }
      total := total + v.value;
    }
    TotalDone(values, total);
    r := Ok(total);
  }

  /** `solve_part_two`: the loop over the lines, summing the powers. */
  method SolvePartTwo(input: string) returns (r: Result<int>)
    ensures r == Solve(input, true)
  {
    var lines := Split(input, "\n");
    ghost var values := Map(LinePower, lines);
    var total := 0;
    for k := 0 to |lines|
      invariant Total(values) == AddTo(total, Total(values[k..]))
    {
      var v := PowerAt(lines, k);
      TotalStep(values, k, total, v);
      if v.Err? {
        return Err(v.failure);
      }
      total := total + v.value;
    }
    TotalDone(values, total);
    r := Ok(total);
  }
}
