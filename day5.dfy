/** Day 5: an almanac of seeds and seven lists of range mappings.  Every seed
    is walked through the lists (soil, fertilizer, water, light, temperature,
    humidity, location): in each list the first mapping whose source range
    holds the current value moves it by the offset between the ranges, and a
    value no mapping holds passes through unchanged.  Part one looks for the
    seed with the lowest location; part two reads the seed line as pairs
    (start, length) of seed ranges and returns the lowest location. */
module Day5 {
  import opened Wrappers
  import opened Text
  import opened Sums

  // ---------------------------------------------------------------------------
  // Ranges and mappings

  /** Both ends are part of the range. */
  datatype Range = Range(min: int, max: int)

  predicate Contains(r: Range, v: int) {
    r.min <= v <= r.max
  }

  /** A destination range and a source range of the same length. */
  datatype Mapping = Mapping(dst: Range, src: Range)

  predicate WellFormed(m: Mapping) {
    m.dst.max - m.dst.min == m.src.max - m.src.min
  }

  /** The numbers on a mapping line, read as `int`s of its words. */
  function MappingNumbers(line: string): Option<seq<int>> {
    ParseInts(SplitWs(Strip(line)))
  }

  /** `Mapping.from_line`: the line "d s n" gives the `n` values from `d` on
      as destination and the `n` values from `s` on as source; a word that is
      no integer, or a number of words other than three, raises ValueError. */
  function MappingFromLine(line: string): (r: Result<Mapping>)
    ensures r.Err? ==> r.failure == ValueError
    ensures r.Ok? ==> WellFormed(r.value)
  {
    match MappingNumbers(line) {
      case None => Err(ValueError)
      case Some(ns) =>
        if |ns| != 3 then Err(ValueError)
        else
          var length := ns[2] - 1;
          Ok(Mapping(Range(ns[0], ns[0] + length), Range(ns[1], ns[1] + length)))
    }
  }

  /** A mapping is read exactly from a line of three integers "d s n", and
      then its ranges hold the `n` values from `d` on and from `s` on. */
  lemma MappingFromLineMeaning(line: string)
    ensures MappingFromLine(line).Ok? <==>
      MappingNumbers(line).Some? && |MappingNumbers(line).value| == 3
    ensures MappingFromLine(line).Ok? ==>
      var m := MappingFromLine(line).value;
      var ns := MappingNumbers(line).value;
      m.dst.min == ns[0] && m.src.min == ns[1] &&
      (forall v :: Contains(m.dst, v) <==> ns[0] <= v < ns[0] + ns[2]) &&
      (forall v :: Contains(m.src, v) <==> ns[1] <= v < ns[1] + ns[2])
  {
  }

  /** A line whose words are three integers is the mapping they describe. */
  lemma MappingFromNumbers(line: string, d: int, s: int, n: int)
    requires MappingNumbers(line) == Some([d, s, n])
    ensures MappingFromLine(line) == Ok(Mapping(Range(d, d + n - 1), Range(s, s + n - 1)))
  {
  }

  /** Natural numbers written with single spaces are read back as numbers. */
  lemma MappingNumbersOfNumerals(ns: seq<int>)
    requires |ns| >= 1 && forall i :: 0 <= i < |ns| ==> ns[i] >= 0
    ensures MappingNumbers(Join(Numerals(ns), " ")) == Some(ns)
  {
    SplitWsNumerals(ns);
    ParseIntsNumerals(ns);
  }

  /** Three natural numbers written with single spaces are read back as the
      mapping they describe. */
  lemma MappingFromLineReads(d: int, s: int, n: int)
    requires d >= 0 && s >= 0 && n >= 0
    ensures MappingFromLine(Join(Numerals([d, s, n]), " ")) ==
      Ok(Mapping(Range(d, d + n - 1), Range(s, s + n - 1)))
  {
    MappingNumbersOfNumerals([d, s, n]);
    MappingFromNumbers(Join(Numerals([d, s, n]), " "), d, s, n);
  }

  /** The line of the module's own check: "50 98 2" maps 98..99 to 50..51. */
  lemma ExampleMapping()
    ensures MappingFromLine("50 98 2") == Ok(Mapping(Range(50, 51), Range(98, 99)))
  {
    assert NatToString(50) == "50";
    assert NatToString(98) == "98";
    assert NatToString(2) == "2";
    assert Join(Numerals([50, 98, 2]), " ") == "50 98 2";
    MappingFromLineReads(50, 98, 2);
  }

  // ---------------------------------------------------------------------------
  // One list of mappings

  /** The position of the first mapping whose source range holds `v`. */
  function FirstContaining(ms: seq<Mapping>, v: int): (r: Option<nat>)
    ensures r.Some? ==> r.value < |ms| && Contains(ms[r.value].src, v)
    ensures r.Some? ==> forall j :: 0 <= j < r.value ==> !Contains(ms[j].src, v)
    ensures r.None? ==> forall j :: 0 <= j < |ms| ==> !Contains(ms[j].src, v)
  {
    if ms == [] then None
    else if Contains(ms[0].src, v) then Some(0)
    else
      match FirstContaining(ms[1..], v) {
        case None => None
        case Some(i) => Some(i + 1)
      }
  }

  /** The value a mapping gives to a value of its source range. */
  function Apply(m: Mapping, v: int): int {
    m.dst.min + (v - m.src.min)
  }

  /** One list applied to `v`. */
  function Stage(ms: seq<Mapping>, v: int): int {
    match FirstContaining(ms, v) {
      case None => v
      case Some(i) => Apply(ms[i], v)
    }
  }

  /** A value that some mapping of the list holds lands in that mapping's
      destination range, at the same offset from its start; any other value
      is kept. */
  lemma StageInDestination(ms: seq<Mapping>, v: int)
    requires forall j :: 0 <= j < |ms| ==> WellFormed(ms[j])
    ensures (forall j :: 0 <= j < |ms| ==> !Contains(ms[j].src, v)) ==> Stage(ms, v) == v
    ensures forall i :: 0 <= i < |ms| && Contains(ms[i].src, v) &&
                        (forall j :: 0 <= j < i ==> !Contains(ms[j].src, v)) ==>
      Contains(ms[i].dst, Stage(ms, v)) && Stage(ms, v) - ms[i].dst.min == v - ms[i].src.min
  {
    forall i | 0 <= i < |ms| && Contains(ms[i].src, v) && (forall j :: 0 <= j < i ==> !Contains(ms[j].src, v))
      ensures FirstContaining(ms, v) == Some(i)
    {
    }
  }

  /** The inner loop of `get_seed_mappings`: the mappings of one list are
      tried in order and the first whose source range holds `v` moves it. */
  method MapValue(ms: seq<Mapping>, v: int) returns (w: int)
    ensures w == Stage(ms, v)
  {
    for i := 0 to |ms|
      invariant forall j :: 0 <= j < i ==> !Contains(ms[j].src, v)
    {
      if Contains(ms[i].src, v) {
        return Apply(ms[i], v);
      }
    }
    return v;
  }

  // ---------------------------------------------------------------------------
  // One seed through all lists

  const MappingTypes: seq<string> :=
    ["soil", "fertitilizer", "water", "light", "temperature", "humidity", "location"]

  /** `{ k: 0 for k in mapping_types }`. */
  function Zeros(): (m: map<string, int>)
    ensures forall i :: 0 <= i < |MappingTypes| ==> MappingTypes[i] in m && m[MappingTypes[i]] == 0
  {
    map k | k in MappingTypes :: 0
  }

  /** The value after each list in turn. */
  function Through(v: int, stages: seq<seq<Mapping>>): int
    decreases |stages|
  {
    if stages == [] then v else Through(Stage(stages[0], v), stages[1..])
  }

  /** The record of a seed's walk: `types` and `stages` are taken pairwise
      as `zip` does, stopping at the shorter, and each type records the value
      after its list. */
  function Fill(m: map<string, int>, types: seq<string>, v: int, stages: seq<seq<Mapping>>): (r: map<string, int>)
    ensures m.Keys <= r.Keys
    decreases |types|
  {
    if types == [] || stages == [] then m
    else
      var w := Stage(stages[0], v);
      Fill(m[types[0] := w], types[1..], w, stages[1..])
  }

  /** The dictionary `get_seed_mappings` builds for one seed. */
  function SeedMapping(seed: int, mappings: seq<seq<Mapping>>): (r: map<string, int>)
    ensures forall i :: 0 <= i < |MappingTypes| ==> MappingTypes[i] in r
  {
    Fill(Zeros(), MappingTypes, seed, mappings)
  }

  /** The seed's location entry: the seed taken through the first seven
      lists, or 0, its starting entry, when the almanac has fewer lists. */
  function Location(seed: int, mappings: seq<seq<Mapping>>): (r: int)
    ensures r == if |mappings| >= 7 then Through(seed, mappings[..7]) else 0
  {
    assert MappingTypes[6] == "location";
    LocationOfSeed(seed, mappings);
    SeedMapping(seed, mappings)["location"]
  }

  /** The last type, when it occurs only once, records the value after as
      many lists as there are types, or keeps its old entry when there are
      fewer lists than types. */
  lemma {:induction false} FillLast(m: map<string, int>, types: seq<string>, v: int, stages: seq<seq<Mapping>>)
    requires |types| >= 1 && types[|types| - 1] in m
    requires forall i :: 0 <= i < |types| - 1 ==> types[i] != types[|types| - 1]
    ensures Fill(m, types, v, stages)[types[|types| - 1]] ==
      if |stages| >= |types| then Through(v, stages[..|types|]) else m[types[|types| - 1]]
    decreases |types|
  {
    var last := types[|types| - 1];
    if stages != [] {
      var w := Stage(stages[0], v);
      if |types| == 1 {
        assert stages[..1][1..] == [];
      } else {
        var rest := types[1..];
        assert rest[|rest| - 1] == last;
        FillLast(m[types[0] := w], rest, w, stages[1..]);
        if |stages| >= |types| {
          assert stages[..|types|][1..] == stages[1..][..|rest|];
        }
      }
    }
  }

  /** The location entry of a seed's dictionary. */
  lemma LocationOfSeed(seed: int, mappings: seq<seq<Mapping>>)
    ensures "location" in SeedMapping(seed, mappings)
    ensures SeedMapping(seed, mappings)["location"] == if |mappings| >= 7 then Through(seed, mappings[..7]) else 0
  {
    assert MappingTypes[6] == "location";
    assert forall i :: 0 <= i < 6 ==> MappingTypes[i] != MappingTypes[6] by {
      assert MappingTypes[0][0] != MappingTypes[6][0];
      assert MappingTypes[1][0] != MappingTypes[6][0];
      assert MappingTypes[2][0] != MappingTypes[6][0];
      assert MappingTypes[3][1] != MappingTypes[6][1];
      assert MappingTypes[4][0] != MappingTypes[6][0];
      assert MappingTypes[5][0] != MappingTypes[6][0];
    }
    FillLast(Zeros(), MappingTypes, seed, mappings);
  }

  /** The body of the seed loop of `get_seed_mappings`. */
  method SeedMappingOf(seed: int, mappings: seq<seq<Mapping>>) returns (seedMapping: map<string, int>)
    ensures seedMapping == SeedMapping(seed, mappings)
  {
    seedMapping := Zeros();
    var v := seed;
    var n := if |mappings| < |MappingTypes| then |mappings| else |MappingTypes|;
    for k := 0 to n
      invariant Fill(seedMapping, MappingTypes[k..], v, mappings[k..]) == SeedMapping(seed, mappings)
    {
      assert MappingTypes[k..][1..] == MappingTypes[k + 1..];
      assert mappings[k..][1..] == mappings[k + 1..];
      v := MapValue(mappings[k], v);
      seedMapping := seedMapping[MappingTypes[k] := v];
    }
    assert MappingTypes[n..] == [] || mappings[n..] == [];
  }

  datatype SeedResult = SeedResult(number: int, result: map<string, int>)

  /** `get_seed_mappings`: one result per seed, in the order of the seeds. */
  method GetSeedMappings(seeds: seq<int>, mappings: seq<seq<Mapping>>) returns (seedResults: seq<SeedResult>)
    ensures |seedResults| == |seeds|
    ensures forall i :: 0 <= i < |seeds| ==>
      seedResults[i] == SeedResult(seeds[i], SeedMapping(seeds[i], mappings))
  {
    seedResults := [];
    for k := 0 to |seeds|
      invariant |seedResults| == k
      invariant forall i :: 0 <= i < k ==>
        seedResults[i] == SeedResult(seeds[i], SeedMapping(seeds[i], mappings))
    {
      var seedMapping := SeedMappingOf(seeds[k], mappings);
      seedResults := seedResults + [SeedResult(seeds[k], seedMapping)];
    }
  }

  // ---------------------------------------------------------------------------
  // Lowest locations

  function Locations(seeds: seq<int>, mappings: seq<seq<Mapping>>): (r: seq<int>)
    ensures |r| == |seeds|
    ensures forall i :: 0 <= i < |seeds| ==> r[i] == Location(seeds[i], mappings)
  {
    seq(|seeds|, i requires 0 <= i < |seeds| => Location(seeds[i], mappings))
  }

  /** The running minimum of `get_lowest_location`: None before the first
      value, and replaced only by a strictly smaller value. */
  function Lowest(locs: seq<int>): Option<int> {
    if locs == [] then None
    else
      var previous := Lowest(locs[..|locs| - 1]);
      var x := locs[|locs| - 1];
      if previous.None? || x < previous.value then Some(x) else previous
  }

  /** The running minimum is the least of the values, and None only when
      there are none. */
  lemma {:induction false} LowestIsMinimum(locs: seq<int>)
    ensures Lowest(locs).None? <==> locs == []
    ensures Lowest(locs).Some? ==>
      (exists i :: 0 <= i < |locs| && locs[i] == Lowest(locs).value) &&
      forall i :: 0 <= i < |locs| ==> Lowest(locs).value <= locs[i]
  {
    if locs != [] {
      var init := locs[..|locs| - 1];
      LowestIsMinimum(init);
      assert forall i :: 0 <= i < |init| ==> init[i] == locs[i];
    }
  }

  /** Python's `min` with a key: the position of the first least value. */
  function FirstMin(locs: seq<int>): (i: nat)
    requires |locs| > 0
    ensures i < |locs|
    ensures forall j :: 0 <= j < |locs| ==> locs[i] <= locs[j]
    ensures forall j :: 0 <= j < i ==> locs[i] < locs[j]
  {
    if |locs| == 1 then 0
    else
      var init := locs[..|locs| - 1];
      var j := FirstMin(init);
      assert forall k :: 0 <= k < |init| ==> init[k] == locs[k];
      if locs[|locs| - 1] < locs[j] then |locs| - 1 else j
  }

  /** `min(results, key=location)` followed by `.number` (`fixed` false), or
      by the location (`fixed` true); `min` of no results raises
      ValueError. */
  function Answer(seeds: seq<int>, mappings: seq<seq<Mapping>>, fixed: bool): Result<int> {
    if seeds == [] then Err(ValueError)
    else
      var locs := Locations(seeds, mappings);
      var i := FirstMin(locs);
      Ok(if fixed then locs[i] else seeds[i])
  }

  /** Python's `min` and the running minimum agree on the least value. */
  lemma FirstMinIsLowest(locs: seq<int>)
    requires |locs| > 0
    ensures Lowest(locs) == Some(locs[FirstMin(locs)])
  {
    LowestIsMinimum(locs);
    var k :| 0 <= k < |locs| && locs[k] == Lowest(locs).value;
    assert locs[FirstMin(locs)] <= locs[k];
  }

  /** With the location taken, part one's answer is the lowest location, the
      same value part two's running minimum finds. */
  lemma AnswerIsLowestLocation(seeds: seq<int>, mappings: seq<seq<Mapping>>)
    ensures Answer(seeds, mappings, true).Ok? <==> seeds != []
    ensures seeds != [] ==> Answer(seeds, mappings, true) == Ok(Lowest(Locations(seeds, mappings)).value)
  {
    if seeds != [] {
      FirstMinIsLowest(Locations(seeds, mappings));
    }
  }

  /** The almanac of one seed, 79, whose first list maps 79 to 0. */
  function ExampleMappings(): seq<seq<Mapping>> {
    [[Mapping(Range(0, 0), Range(79, 79))], [], [], [], [], [], []]
  }

  /** As written, part one reports the seed number of the seed with the
      lowest location: here 79, while the lowest location is 0. */
  lemma AnswerAsWrittenReportsSeed()
    ensures Locations([79], ExampleMappings()) == [0]
    ensures Answer([79], ExampleMappings(), false) == Ok(79)
    ensures Answer([79], ExampleMappings(), true) == Ok(0)
  {
    var ms := ExampleMappings();
    LocationOfSeed(79, ms);
    assert ms[..7] == ms;
    assert Stage(ms[0], 79) == 0;
    assert Through(79, ms) == Through(0, ms[1..]);
    assert Location(79, ms) == 0;
  }

  /** The loop of `get_lowest_location`. */
  method GetLowestLocation(seeds: seq<int>, mappings: seq<seq<Mapping>>) returns (lowest: Option<int>)
    ensures lowest == Lowest(Locations(seeds, mappings))
  {
    ghost var locs := Locations(seeds, mappings);
    lowest := None;
    for k := 0 to |seeds|
      invariant lowest == Lowest(locs[..k])
    {
      var seedMapping := SeedMappingOf(seeds[k], mappings);
      var location := seedMapping["location"];
      assert locs[..k + 1][..k] == locs[..k];
      if lowest.None? || location < lowest.value {
        lowest := Some(location);
      }
    }
    assert locs[..|seeds|] == locs;
  }

  // ---------------------------------------------------------------------------
  // Parsing

  datatype Almanac = Almanac(seeds: seq<int>, mappings: seq<seq<Mapping>>)

  /** `SeedMapper._parse_seeds`: the integers after the colon of the seed
      line, one per single space. */
  function SeedNumbers(line: string): (r: Result<seq<int>>)
    ensures r.Err? ==> r.failure == ValueError
  {
    var halves := Split(line, ":");
    if |halves| != 2 then Err(ValueError)
    else
      match ParseInts(Split(Strip(halves[1]), " ")) {
        case None => Err(ValueError)
        case Some(ns) => Ok(ns)
      }
  }

  /** A seed line as the puzzle writes it. */
  function SeedLine(ns: seq<int>): string
    requires |ns| >= 1 && forall i :: 0 <= i < |ns| ==> ns[i] >= 0
  {
    "seeds" + ":" + (" " + Join(Numerals(ns), " "))
  }

  /** The heading of the seed line has no colon. */
  lemma HeadingLacksColon()
    ensures forall j :: 0 <= j < |"seeds"| ==> "seeds"[j] != ':'
  {
    var head := "seeds";
    assert head[0] == 's' && head[1] == 'e' && head[2] == 'e' && head[3] == 'd' && head[4] == 's';
  }

  /** The numbers of the seed line, after their leading space, have no
      colon. */
  lemma NumbersLackColon(ns: seq<int>)
    requires |ns| >= 1 && forall i :: 0 <= i < |ns| ==> ns[i] >= 0
    ensures forall j :: 0 <= j < |" " + Join(Numerals(ns), " ")| ==> (" " + Join(Numerals(ns), " "))[j] != ':'
  {
    var numbers := Join(Numerals(ns), " ");
    var rest := " " + numbers;
    JoinedNumeralsLack(ns, ':');
    assert forall j :: 1 <= j < |rest| ==> rest[j] == numbers[j - 1];
  }

  /** The seed line splits at its colon into the heading and the numbers. */
  lemma SeedLineSplits(ns: seq<int>)
    requires |ns| >= 1 && forall i :: 0 <= i < |ns| ==> ns[i] >= 0
    ensures Split(SeedLine(ns), ":") == ["seeds", " " + Join(Numerals(ns), " ")]
  {
    NumbersLackColon(ns);
    HeadingLacksColon();
    SplitAtOnlyChar("seeds", " " + Join(Numerals(ns), " "), ':');
  }

  /** Reading a written seed line gives its numbers back. */
  lemma SeedNumbersOfLine(ns: seq<int>)
    requires |ns| >= 1 && forall i :: 0 <= i < |ns| ==> ns[i] >= 0
    ensures SeedNumbers(SeedLine(ns)) == Ok(ns)
  {
    SeedLineSplits(ns);
    StripSpacedNumerals(ns);
    SplitNumerals(ns);
    ParseIntsNumerals(ns);
  }

  /** `[start, start + length)` as `range` gives it. */
  function RangeOf(start: int, length: int): (r: seq<int>)
    ensures forall x :: x in r <==> start <= x < start + length
  {
    var n := if length > 0 then length else 0;
    var r := seq(n, i requires 0 <= i < n => start + i);
    assert forall x :: start <= x < start + length ==> x in r by {
      forall x | start <= x < start + length ensures x in r {
        assert r[x - start] == x;
      }
    }
    r
  }

  /** The `k`-th (start, length) pair holds `x`. */
  predicate InPair(ns: seq<int>, k: nat, x: int)
    requires 2 * k + 1 < |ns|
  {
    ns[2 * k] <= x < ns[2 * k] + ns[2 * k + 1]
  }

  /** The ranges of consecutive (start, length) pairs, one after the other. */
  function Expand(ns: seq<int>): seq<int>
    requires |ns| % 2 == 0
  {
    if ns == [] then [] else RangeOf(ns[0], ns[1]) + Expand(ns[2..])
  }

  /** A seed of part two lies in one of the pairs' ranges, and every value of
      every pair's range is a seed. */
  lemma {:induction false} ExpandMembers(ns: seq<int>)
    requires |ns| % 2 == 0
    ensures forall x :: x in Expand(ns) <==> exists k :: 0 <= k < |ns| / 2 && InPair(ns, k, x)
  {
    if ns != [] {
      var tail := ns[2..];
      ExpandMembers(tail);
      assert Expand(ns) == RangeOf(ns[0], ns[1]) + Expand(tail);
      forall x ensures x in Expand(ns) <==> exists k :: 0 <= k < |ns| / 2 && InPair(ns, k, x) {
        if x in RangeOf(ns[0], ns[1]) {
          assert InPair(ns, 0, x);
        }
        if x in Expand(tail) {
          var k :| 0 <= k < |tail| / 2 && InPair(tail, k, x);
          assert InPair(ns, k + 1, x);
        }
        if exists k :: 0 <= k < |ns| / 2 && InPair(ns, k, x) {
          var k :| 0 <= k < |ns| / 2 && InPair(ns, k, x);
          if k > 0 {
            assert InPair(tail, k - 1, x);
          } else {
            assert x in RangeOf(ns[0], ns[1]);
          }
        }
      }
    }
  }

  /** `BonusSeedMapper._parse_seeds`: an odd count of numbers fails the
      `assert`; otherwise the pairs' ranges in order. */
  function BonusSeeds(line: string): (r: Result<seq<int>>)
    ensures r.Err? ==> r.failure == ValueError || r.failure == AssertionError
    ensures r.Err? && r.failure == AssertionError <==>
      SeedNumbers(line).Ok? && |SeedNumbers(line).value| % 2 != 0
    ensures r.Ok? ==> SeedNumbers(line).Ok? && r.value == Expand(SeedNumbers(line).value)
  {
    match SeedNumbers(line) {
      case Err(e) => Err(e)
      case Ok(ns) => if |ns| % 2 != 0 then Err(AssertionError) else Ok(Expand(ns))
    }
  }

  /** `_parse_part`: every line after the heading is a mapping. */
  function MappingList(part: string): (r: Result<seq<Mapping>>)
    ensures r.Err? ==> r.failure == ValueError
    ensures r.Ok? ==> forall j :: 0 <= j < |r.value| ==> WellFormed(r.value[j])
  {
    Collect(MappingFromLine, Split(part, "\n")[1..])
  }

  /** The mapping lists of the blocks after the seed block. */
  function MappingLists(blocks: seq<string>): (r: Result<seq<seq<Mapping>>>)
    ensures r.Err? ==> r.failure == ValueError
    ensures r.Ok? ==> |r.value| == |blocks|
    ensures r.Ok? ==> forall i, j :: 0 <= i < |r.value| && 0 <= j < |r.value[i]| ==>
      WellFormed(r.value[i][j])
  {
    match Collect(MappingList, blocks) {
      case Err(e) =>
        var i :| 0 <= i < |blocks| && MappingList(blocks[i]) == Err(e) &&
          forall j :: 0 <= j < i ==> MappingList(blocks[j]).Ok?;
        Err(e)
      case Ok(ms) =>
        assert forall i :: 0 <= i < |blocks| ==> MappingList(blocks[i]) == Ok(ms[i]);
        Ok(ms)
    }
  }

  /** `from_string` of either mapper: the blocks are separated by blank
      lines, the first holds the seeds (read as `bonus` says) and every
      other block is a list of mappings. */
  function AlmanacOf(input: string, bonus: bool): (r: Result<Almanac>)
    ensures r.Err? ==> r.failure == ValueError || (bonus && r.failure == AssertionError)
    ensures r.Ok? ==> |r.value.mappings| == |Split(input, "\n\n")| - 1
    ensures r.Ok? ==> forall i, j :: 0 <= i < |r.value.mappings| && 0 <= j < |r.value.mappings[i]| ==>
      WellFormed(r.value.mappings[i][j])
  {
    var parts := Split(input, "\n\n");
    var seeds := if bonus then BonusSeeds(parts[0]) else SeedNumbers(parts[0]);
    match seeds {
      case Err(e) => Err(e)
      case Ok(ss) =>
        match MappingLists(parts[1..]) {
          case Err(e) => Err(e)
          case Ok(ms) => Ok(Almanac(ss, ms))
        }
    }
  }

  // ---------------------------------------------------------------------------
  // Parts

  /** `solve_part_one`, as written (`fixed` false) or reporting the location
      (`fixed` true). */
  function PartOne(input: string, fixed: bool): Result<int> {
    match AlmanacOf(input, false) {
      case Err(e) => Err(e)
      case Ok(a) => Answer(a.seeds, a.mappings, fixed)
    }
  }

  /** `solve_part_two`: the lowest location of the expanded seeds, None when
      there are none. */
  function PartTwo(input: string): Result<Option<int>> {
    match AlmanacOf(input, true) {
      case Err(e) => Err(e)
      case Ok(a) => Ok(Lowest(Locations(a.seeds, a.mappings)))
    }
  }

  /** Part one as written: the seed of the first result with the least
      location. */
  method SolvePartOne(input: string) returns (r: Result<int>)
    ensures r == PartOne(input, false)
  {
    var almanac := AlmanacOf(input, false);
    if almanac.Err? {
      return Err(almanac.failure);
    }
    var a := almanac.value;
    var results := GetSeedMappings(a.seeds, a.mappings);
    if |results| == 0 {
      return Err(ValueError);
    }
    var locs := seq(|results|, i requires 0 <= i < |results| => results[i].result["location"]);
    assert forall i :: 0 <= i < |results| ==> locs[i] == Location(a.seeds[i], a.mappings);
    assert locs == Locations(a.seeds, a.mappings);
    r := Ok(results[FirstMin(locs)].number);
  }

  method SolvePartTwo(input: string) returns (r: Result<Option<int>>)
    ensures r == PartTwo(input)
  {
    var almanac := AlmanacOf(input, true);
    if almanac.Err? {
      return Err(almanac.failure);
    }
    var lowest := GetLowestLocation(almanac.value.seeds, almanac.value.mappings);
    r := Ok(lowest);
  }
}
