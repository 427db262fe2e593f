/** Day 6: counting the button-hold times that beat a race record
    (adventofcode2023/days/day6.py). */
module Day6 {
  import opened Wrappers
  import Text

  /** Holding the button `h` ms in a race of `t` ms travels `h * (t - h)` mm. */
  predicate Beats(t: int, d: int, h: int) {
    h * (t - h) > d
  }

  /** The number of hold times among `1..k` that beat record `d`. */
  function CountBeating(t: int, d: int, k: int): nat
    decreases if k > 0 then k else 0
  {
    if k <= 0 then 0 else CountBeating(t, d, k - 1) + (if Beats(t, d, k) then 1 else 0)
  }

  /** The number of ways to win a race: the hold times `1..t` that beat `d`. */
  function WaysToWin(t: int, d: int): nat {
    CountBeating(t, d, t)
  }

  /** The winning hold times among `1..k`, as a set. */
  ghost function Winning(t: int, d: int, k: int): set<int> {
    set h | 1 <= h <= k && Beats(t, d, h)
  }

  /** The count is the size of the set of winning hold times. */
  lemma {:induction false} CountIsNumberOfWinningHolds(t: int, d: int, k: int)
    ensures CountBeating(t, d, k) == |Winning(t, d, k)|
    decreases if k > 0 then k else 0
  {
    if k <= 0 {
      assert Winning(t, d, k) == {};
    } else {
      CountIsNumberOfWinningHolds(t, d, k - 1);
      if Beats(t, d, k) {
        assert Winning(t, d, k) == Winning(t, d, k - 1) + {k};
      } else {
        assert Winning(t, d, k) == Winning(t, d, k - 1);
      }
    }
  }

  /** At most `k` of the hold times `1..k` win. */
  lemma {:induction false} CountBeatingBound(t: int, d: int, k: int)
    ensures CountBeating(t, d, k) <= if k > 0 then k else 0
    decreases if k > 0 then k else 0
  {
    if k > 0 {
      CountBeatingBound(t, d, k - 1);
    }
  }

  /** There are at most `t` ways to win, and with a non-negative record holding
      the button for the whole race never wins, so at most `t - 1`. */
  lemma WaysToWinBound(t: int, d: int)
    ensures WaysToWin(t, d) <= if t > 0 then t else 0
    ensures d >= 0 && t >= 1 ==> !Beats(t, d, t) && WaysToWin(t, d) <= t - 1
  {
    CountBeatingBound(t, d, t);
    if d >= 0 && t >= 1 {
      CountBeatingBound(t, d, t - 1);
    }
  }

  /** The distance is a concave function of the hold time, so the winning hold
      times form one interval: anything between two winners wins. */
  lemma WinnersFormInterval(t: int, d: int, h1: int, h2: int, h3: int)
    requires h1 <= h2 <= h3
    requires Beats(t, d, h1) && Beats(t, d, h3)
    ensures Beats(t, d, h2)
  {
    // h2(t - h2) - h1(t - h1) == (h2 - h1)(t - h1 - h2)
    // h2(t - h2) - h3(t - h3) == (h3 - h2)(h2 + h3 - t)
    assert h2 * (t - h2) - h1 * (t - h1) == (h2 - h1) * (t - h1 - h2);
    assert h2 * (t - h2) - h3 * (t - h3) == (h3 - h2) * (h2 + h3 - t);
    if t - h1 - h2 >= 0 {
      assert (h2 - h1) * (t - h1 - h2) >= 0;
    } else {
      assert (h3 - h2) * (h2 + h3 - t) >= 0;
    }
  }

  /** The inner counting loop: `num_ways` goes up by one for every hold time
      `1..lasts` that travels further than the record. */
  method CountWays(lasts: int, distance: int) returns (numWays: nat)
    ensures numWays == WaysToWin(lasts, distance)
    ensures numWays == |Winning(lasts, distance, lasts)|
  {
    numWays := 0;
    var hold := 1;
    while hold <= lasts
      invariant 1 <= hold <= if lasts >= 0 then lasts + 1 else 1
      invariant numWays == CountBeating(lasts, distance, hold - 1)
      decreases lasts - hold
    {
      var msLeft := lasts - hold;
      var mmTraveled := hold * msLeft;
      assert mmTraveled > distance <==> Beats(lasts, distance, hold);
      if mmTraveled > distance {
        numWays := numWays + 1;
      }
      hold := hold + 1;
    }
    if lasts <= 0 {
      assert numWays == CountBeating(lasts, distance, 0) == 0;
      assert CountBeating(lasts, distance, lasts) == 0;
    } else {
      assert hold == lasts + 1;
    }
    CountIsNumberOfWinningHolds(lasts, distance, lasts);
  }

  // ---------------------------------------------------------------------------
  // Parsing and both parts

  /** A race: how long it lasts and the record distance. */
  datatype Race = Race(lasts: int, distance: int)

  /** `row.split(':')[1].split()` as integers. */
  function ParseRow(row: string): (r: Result<seq<int>>)
    ensures r.Err? ==> r.failure in {IndexError, ValueError}
  {
    var pieces := Text.Split(row, ":");
    if |pieces| < 2 then Err(IndexError)
    else match Text.ParseInts(Text.SplitWs(pieces[1])) {
      case None => Err(ValueError)
      case Some(v) => Ok(v)
    }
  }

  /** Part two: `[int(''.join(row.split(':')[1].split()))]`. */
  function ParseRowJoined(row: string): (r: Result<seq<int>>)
    ensures r.Err? ==> r.failure in {IndexError, ValueError}
    ensures r.Ok? ==> |r.value| == 1
  {
    var pieces := Text.Split(row, ":");
    if |pieces| < 2 then Err(IndexError)
    else match Text.ParseInt(Text.Concat(Text.SplitWs(pieces[1]))) {
      case None => Err(ValueError)
      case Some(v) => Ok([v])
    }
  }

  /** The row parser of part one, or of part two when `joined`. */
  function ParseRowOf(row: string, joined: bool): Result<seq<int>> {
    if joined then ParseRowJoined(row) else ParseRow(row)
  }

  /** The list comprehension over the input's lines: every line parses, and
      entry `i` is what line `i` reads as; the first line that fails decides
      the error. */
  function ParseMatrix(rows: seq<string>, joined: bool): (r: Result<seq<seq<int>>>)
    ensures r.Ok? <==> forall i :: 0 <= i < |rows| ==> ParseRowOf(rows[i], joined).Ok?
    ensures r.Err? ==> r.failure in {IndexError, ValueError}
    ensures r.Ok? ==> |r.value| == |rows|
    ensures r.Ok? ==> forall i :: 0 <= i < |rows| ==> ParseRowOf(rows[i], joined) == Ok(r.value[i])
  {
    if rows == [] then Ok([])
    else
      match (ParseRowOf(rows[0], joined), ParseMatrix(rows[1..], joined)) {
        case (Err(e), _) => Err(e)
        case (_, Err(e)) => Err(e)
        case (Ok(v), Ok(rest)) => Ok([v] + rest)
      }
  }

  /** `np.transpose(matrix)` followed by `lasts, distance = race` for every
      column: a ragged matrix cannot be transposed, and unpacking a column
      needs exactly two rows.  A matrix without columns holds no race. */
  function Races(matrix: seq<seq<int>>): (r: Result<seq<Race>>)
    requires |matrix| >= 1
    ensures r.Err? ==> r.failure == ValueError
    ensures r.Ok? ==> |r.value| == |matrix[0]|
    ensures r.Ok? && |r.value| > 0 ==>
      |matrix| == 2 && |matrix[1]| == |matrix[0]| &&
      forall i :: 0 <= i < |r.value| ==> r.value[i] == Race(matrix[0][i], matrix[1][i])
  {
    if exists k :: 0 <= k < |matrix| && |matrix[k]| != |matrix[0]| then Err(ValueError)
    else if |matrix[0]| == 0 then Ok([])
    else if |matrix| != 2 then Err(ValueError)
    else Ok(seq(|matrix[0]|, i requires 0 <= i < |matrix[0]| => Race(matrix[0][i], matrix[1][i])))
  }

  function ProductOfWays(races: seq<Race>): int {
    if races == [] then 1 else WaysToWin(races[0].lasts, races[0].distance) * ProductOfWays(races[1..])
  }

  /** Both parts: collapse runs of spaces, split into rows, read the races and
      multiply the numbers of ways to win them.  The only failures are a line
      without a colon, a non-number and a matrix that does not transpose into
      pairs. */
  function Solve(input: string, joined: bool): (r: Result<int>)
    ensures r.Err? ==> r.failure in {IndexError, ValueError}
  {
    var rows := Text.Split(Text.CollapseSpaces(input), "\n");
    match ParseMatrix(rows, joined) {
      case Err(e) => Err(e)
      case Ok(matrix) =>
        match Races(matrix) {
          case Err(e) => Err(e)
          case Ok(races) => Ok(ProductOfWays(races))
        }
    }
  }

  // ---------------------------------------------------------------------------
  // Reading back what was written

  /** A heading such as `Time` or `Distance`: no colon, space or line break. */
  predicate Label(h: string) {
    forall j :: 0 <= j < |h| ==> h[j] != ':' && h[j] != ' ' && h[j] != '\n'
  }

  /** A row as it reads once runs of spaces are collapsed: the heading, a
      colon, and the numbers each after a single space. */
  function RowLine(h: string, ns: seq<int>): string
    requires |ns| >= 1 && forall i :: 0 <= i < |ns| ==> ns[i] >= 0
  {
    h + ":" + (" " + Text.Join(Text.Numerals(ns), " "))
  }

  /** The input of both parts: the times row above the records row. */
  function Table(ts: seq<int>, ds: seq<int>): string
    requires |ts| >= 1 && forall i :: 0 <= i < |ts| ==> ts[i] >= 0
    requires |ds| >= 1 && forall i :: 0 <= i < |ds| ==> ds[i] >= 0
  {
    RowLine("Time", ts) + "\n" + RowLine("Distance", ds)
  }

  /** The numerals of `ns` written one after another, as `''.join` does. */
  function JoinedDigits(ns: seq<int>): (s: string)
    requires forall i :: 0 <= i < |ns| ==> ns[i] >= 0
    ensures s == Text.Concat(Text.Numerals(ns))
    ensures Text.AllDigits(s) && (|ns| > 0 ==> |s| > 0)
  {
    if ns == [] then []
    else
      assert Text.Numerals(ns)[1..] == Text.Numerals(ns[1..]);
      Text.AllDigitsAppend(Text.NatToString(ns[0]), JoinedDigits(ns[1..]));
      Text.NatToString(ns[0]) + JoinedDigits(ns[1..])
  }

  /** The numbers part of a row holds no character other than digits and
      spaces. */
  lemma TailLacks(ns: seq<int>, c: char)
    requires |ns| >= 1 && forall i :: 0 <= i < |ns| ==> ns[i] >= 0
    requires !Text.IsDigit(c) && c != ' '
    ensures forall j :: 0 <= j < |" " + Text.Join(Text.Numerals(ns), " ")| ==>
      (" " + Text.Join(Text.Numerals(ns), " "))[j] != c
  {
    var t := Text.Join(Text.Numerals(ns), " ");
    Text.JoinedNumeralsLack(ns, c);
    forall j | 0 <= j < |" " + t| ensures (" " + t)[j] != c {
      if j > 0 {
        assert (" " + t)[j] == t[j - 1];
      }
    }
  }

  /** A row splits at its colon into the heading and the numbers part, and
      the numbers part splits on whitespace into the numerals. */
  lemma RowLineSplits(h: string, ns: seq<int>)
    requires Label(h)
    requires |ns| >= 1 && forall i :: 0 <= i < |ns| ==> ns[i] >= 0
    ensures Text.Split(RowLine(h, ns), ":") == [h, " " + Text.Join(Text.Numerals(ns), " ")]
    ensures Text.SplitWs(" " + Text.Join(Text.Numerals(ns), " ")) == Text.Numerals(ns)
  {
    var t := Text.Join(Text.Numerals(ns), " ");
    TailLacks(ns, ':');
    Text.SplitAtOnlyChar(h, " " + t, ':');
    assert (" " + t)[1..] == t;
    Text.NumeralsAreWords(ns);
    Text.SplitWsOfJoin(Text.Numerals(ns));
  }

  /** Part one reads a row back as the numbers written into it. */
  lemma ParseRowOfLine(h: string, ns: seq<int>)
    requires Label(h)
    requires |ns| >= 1 && forall i :: 0 <= i < |ns| ==> ns[i] >= 0
    ensures ParseRow(RowLine(h, ns)) == Ok(ns)
  {
    RowLineSplits(h, ns);
    Text.ParseIntsNumerals(ns);
  }

  /** Part two reads a row back as the one number whose digits are those of
      the numbers written into it, one after another. */
  lemma ParseRowJoinedOfLine(h: string, ns: seq<int>)
    requires Label(h)
    requires |ns| >= 1 && forall i :: 0 <= i < |ns| ==> ns[i] >= 0
    ensures ParseRowJoined(RowLine(h, ns)) == Ok([Text.DigitsValue(JoinedDigits(ns))])
  {
    RowLineSplits(h, ns);
    Text.ParseIntOfDigits(JoinedDigits(ns));
  }

  /** A row has no two spaces in a row and no line break. */
  lemma RowLineShape(h: string, ns: seq<int>)
    requires Label(h)
    requires |ns| >= 1 && forall i :: 0 <= i < |ns| ==> ns[i] >= 0
    ensures Text.NoDoubleSpace(RowLine(h, ns))
    ensures forall j :: 0 <= j < |RowLine(h, ns)| ==> RowLine(h, ns)[j] != '\n'
  {
    var t := Text.Join(Text.Numerals(ns), " ");
    Text.JoinedNumerals(ns);
    assert Text.NoDoubleSpace(h);
    Text.NoDoubleSpaceAppend(h, ":");
    Text.NoDoubleSpaceAppend(" ", t);
    Text.NoDoubleSpaceAppend(h + ":", " " + t);
    TailLacks(ns, '\n');
    var s := RowLine(h, ns);
    forall j | 0 <= j < |s| ensures s[j] != '\n' {
      if j < |h| {
        assert s[j] == h[j];
      } else if j > |h| {
        assert s[j] == (" " + t)[j - |h| - 1];
      }
    }
  }

  /** The table is its own collapsed form and splits into its two rows. */
  lemma TableRows(ts: seq<int>, ds: seq<int>)
    requires |ts| >= 1 && forall i :: 0 <= i < |ts| ==> ts[i] >= 0
    requires |ds| >= 1 && forall i :: 0 <= i < |ds| ==> ds[i] >= 0
    ensures Text.Split(Text.CollapseSpaces(Table(ts, ds)), "\n") == [RowLine("Time", ts), RowLine("Distance", ds)]
  {
    var a, b := RowLine("Time", ts), RowLine("Distance", ds);
    RowLineShape("Time", ts);
    RowLineShape("Distance", ds);
    Text.NoDoubleSpaceAppend(a, "\n");
    Text.NoDoubleSpaceAppend(a + "\n", b);
    Text.CollapseSpacesKeeps(Table(ts, ds));
    Text.SplitAtOnlyChar(a, b, '\n');
  }

  /** Two lines that each parse give the two-row matrix of their values. */
  lemma ParseTwoRows(a: string, b: string, joined: bool, va: seq<int>, vb: seq<int>)
    requires ParseRowOf(a, joined) == Ok(va) && ParseRowOf(b, joined) == Ok(vb)
    ensures ParseMatrix([a, b], joined) == Ok([va, vb])
  {
    assert [b][1..] == [] && ParseMatrix([b][1..], joined) == Ok([]);
    assert [vb] + [] == [vb];
    assert [a, b][1..] == [b] && ParseMatrix([a, b][1..], joined) == Ok([vb]);
    assert [va] + [vb] == [va, vb];
  }

  /** The races of a times row and an equally long records row, column by
      column. */
  function Pairs(ts: seq<int>, ds: seq<int>): (r: seq<Race>)
    requires |ds| == |ts|
    ensures |r| == |ts| && forall i :: 0 <= i < |ts| ==> r[i] == Race(ts[i], ds[i])
  {
    seq(|ts|, i requires 0 <= i < |ts| => Race(ts[i], ds[i]))
  }

  /** Two rows of the same positive length transpose into their pairs. */
  lemma RacesOfRows(ts: seq<int>, ds: seq<int>)
    requires |ts| >= 1 && |ds| == |ts|
    ensures Races([ts, ds]) == Ok(Pairs(ts, ds))
  {
    var m := [ts, ds];
    assert forall k :: 0 <= k < |m| ==> |m[k]| == |m[0]|;
  }

  /** `Solve` is its three steps put together. */
  lemma SolveSteps(input: string, joined: bool, rows: seq<string>, matrix: seq<seq<int>>, races: seq<Race>)
    requires Text.Split(Text.CollapseSpaces(input), "\n") == rows
    requires ParseMatrix(rows, joined) == Ok(matrix) && |matrix| >= 1 && Races(matrix) == Ok(races)
    ensures Solve(input, joined) == Ok(ProductOfWays(races))
  {
  }

  /** Part one on a table of times and records is the product of the ways
      to win the races they pair up. */
  lemma {:induction false} SolveTable(ts: seq<int>, ds: seq<int>)
    requires |ts| >= 1 && forall i :: 0 <= i < |ts| ==> ts[i] >= 0
    requires |ds| == |ts| && forall i :: 0 <= i < |ds| ==> ds[i] >= 0
    ensures Solve(Table(ts, ds), false) ==
      Ok(ProductOfWays(Pairs(ts, ds)))
  {
    TableRows(ts, ds);
    ParseRowOfLine("Time", ts);
    ParseRowOfLine("Distance", ds);
    ParseTwoRows(RowLine("Time", ts), RowLine("Distance", ds), false, ts, ds);
    RacesOfRows(ts, ds);
    SolveSteps(Table(ts, ds), false, [RowLine("Time", ts), RowLine("Distance", ds)], [ts, ds], Pairs(ts, ds));
  }

  /** Part two on the same table is the number of ways to win the one race
      whose time and record are the rows' digits run together. */
  lemma {:induction false} SolveTableJoined(ts: seq<int>, ds: seq<int>)
    requires |ts| >= 1 && forall i :: 0 <= i < |ts| ==> ts[i] >= 0
    requires |ds| >= 1 && forall i :: 0 <= i < |ds| ==> ds[i] >= 0
    ensures Solve(Table(ts, ds), true) ==
      Ok(WaysToWin(Text.DigitsValue(JoinedDigits(ts)), Text.DigitsValue(JoinedDigits(ds))))
  {
    TableRows(ts, ds);
    ParseRowJoinedOfLine("Time", ts);
    ParseRowJoinedOfLine("Distance", ds);
    var t, d := Text.DigitsValue(JoinedDigits(ts)), Text.DigitsValue(JoinedDigits(ds));
    ParseTwoRows(RowLine("Time", ts), RowLine("Distance", ds), true, [t], [d]);
    RacesOfRows([t], [d]);
    assert Pairs([t], [d]) == [Race(t, d)];
    SolveSteps(Table(ts, ds), true, [RowLine("Time", ts), RowLine("Distance", ds)], [[t], [d]], [Race(t, d)]);
    assert ProductOfWays([Race(t, d)]) == WaysToWin(t, d) * ProductOfWays([]);
  }

  /** The loop over the races: each count is appended to
      `num_ways_to_beat_record`, whose product is the answer. */
  method WaysProduct(races: seq<Race>) returns (p: int)
    ensures p == ProductOfWays(races)
  {
    var numWaysToBeatRecord: seq<nat> := [];
    for i := 0 to |races|
      invariant |numWaysToBeatRecord| == i
      invariant forall j :: 0 <= j < i ==> numWaysToBeatRecord[j] == WaysToWin(races[j].lasts, races[j].distance)
    {
      var n := CountWays(races[i].lasts, races[i].distance);
      numWaysToBeatRecord := numWaysToBeatRecord + [n];
    }
    p := Product(numWaysToBeatRecord);
    ProductMatches(races, numWaysToBeatRecord);
  }

  function Product(ns: seq<nat>): int {
    if ns == [] then 1 else ns[0] * Product(ns[1..])
  }

  lemma {:induction false} ProductMatches(races: seq<Race>, ns: seq<nat>)
    requires |ns| == |races|
    requires forall j :: 0 <= j < |races| ==> ns[j] == WaysToWin(races[j].lasts, races[j].distance)
    ensures Product(ns) == ProductOfWays(races)
  {
    if races != [] {
      ProductMatches(races[1..], ns[1..]);
    }
  }

  /** A race nobody can win makes the product 0. */
  lemma {:induction false} UnwinnableRaceZeroesProduct(races: seq<Race>, i: int)
    requires 0 <= i < |races| && WaysToWin(races[i].lasts, races[i].distance) == 0
    ensures ProductOfWays(races) == 0
  {
    if i > 0 {
      UnwinnableRaceZeroesProduct(races[1..], i - 1);
    }
  }
}
