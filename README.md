# Advent of Code 2023 solvers, modelled in Dafny

This project models the puzzle solvers of the `adventofcode2023` package:
one Dafny module per day (`Day1` … `Day16`, `Day18`, `Day19`, `Day20`, in
`day1.dfy` … `day20.dfy`), each holding the parsing, the per-day data
structures and the `solve_part_one` / `solve_part_two` computations of
`adventofcode2023/days/dayN.py`, and the properties those computations
promise.  Shared modules hold what several days use:

- `Wrappers` (`wrappers.dfy`): `Option` and a `Result` whose failure names
  the Python exception the source raises on that path (`ValueError`,
  `KeyError`, `IndexError`, `TypeError`, …).  `OutOfFuel` is the one
  failure that is not a Python exception: loops the source runs without a
  bound (day 4's card queue, day 8's walk, day 19's workflow machine,
  day 20's pulse queue and its button presses) take a `fuel` parameter and
  report `OutOfFuel` when it runs out.
- `Text` (`text.dfy`): the Python string operations the solvers use, with
  Python's semantics (`split`, `strip`, `find`, slicing and indexing with
  negative bounds, `re.sub(' +', ' ', s)`, `int()` on ASCII digits).
- `Sums` (`sums.dfy`): a loop over the lines that adds each line's value and
  stops at the first exception, proved against `Sum` of a mapped list.
- `Grids` (`grids.dfy`): character grids as numpy arrays of the input lines.
- `Sorting` (`sorting.dfy`): `sorted(..., key=cmp_to_key(cmp))` with a
  comparison that may raise, as day 7 uses it.

Where the source loops and updates variables the model is a `method` proved
against a specification function; where the source mutates objects
(day 18's grid, day 19's `WorkflowHandler`, day 20's modules and
`ModuleManager`) the model is a `class` or an `array2` with `modifies`
clauses.  Reading the puzzle input from a file (`adventofcode2023/day.py`)
is left out: every solver takes its input as a string parameter.

## Model

| member | source | states |
|---|---|---|
| Day1.WordsMatchAtMostOnce | adventofcode2023/days/day1.py:6 | no two of the nine digit words can start at the same index of a line |
| Day1.FirstWordMatchIsFirst | adventofcode2023/days/day1.py:61-66 | the word the breaking loop finds at an index is the first digit word occurring there, and when it finds none no digit word occurs there |
| Day1.LastWordMatchIsLast | adventofcode2023/days/day1.py:79-82 | the loop without a `break` keeps the last digit word occurring at the index, and keeps none exactly when none occurs |
| Day1.FirstAndLastWordMatchAgree | adventofcode2023/days/day1.py:79-82 | stopping at the first matching word and keeping the last one read the same word, so the missing `break` does not change the digit |
| Day1.Hit | adventofcode2023/days/day1.py:55-66 | what is read at an index is always a digit: the character when it is one, otherwise (only in part two) the value of a digit word starting there |
| Day1.FirstHitIsFirst | adventofcode2023/days/day1.py:55-69 | the first hit is the first index from which a digit is read; when there is none, no index reads one |
| Day1.LastHitBelowIsLast | adventofcode2023/days/day1.py:75-82 | the last hit below a bound is the last index that reads a digit; when there is none, no index below the bound reads one |
| Day1.LineValueIsFirstAndLast | adventofcode2023/days/day1.py:86-98 | a line's calibration value is ten times its first digit plus the last digit of the whole line |
| Day1.FindFirstDigit | adventofcode2023/days/day1.py:44-71 | returns the first index reading a digit character or word and that digit, or `(None, None)` |
| Day1.MatchWordAt | adventofcode2023/days/day1.py:61-66 | the inner loop with `break` yields the first digit word at the index |
| Day1.FindSecondDigit | adventofcode2023/days/day1.py:73-84 | returns the digit read at the last hit of the string, or None |
| Day1.LastWordAt | adventofcode2023/days/day1.py:79-82 | the inner loop without `break` yields the last digit word at the index |
| Day1.LineValuePartOne | adventofcode2023/days/day1.py:22-40 | one line of part one: first and last digit character as a number, AssertionError when the line has no digit |
| Day1.LineValuePartTwo | adventofcode2023/days/day1.py:88-98 | one line of part two: first digit, then the last in the rest or the first again; TypeError when the line has no digit |
| Day1.SolvePartOne | adventofcode2023/days/day1.py:15-42 | the sum of the part-one line values, or the error of the first line that fails |
| Day1.SolvePartTwo | adventofcode2023/days/day1.py:86-100 | the sum of the part-two line values, or the error of the first line that fails |
| Day1.WordShape | adventofcode2023/days/day1.py:6 | every digit word has at least three letters and starts with one of `o t f s e n` |
| Day1.FirstDigitExamples | adventofcode2023/tests/test_day1.py:12-21 | `two1nine` gives `('2', 0)` and `4nineeightseven2` gives `('4', 0)` |
| Day1.SecondDigitExampleOne | adventofcode2023/tests/test_day1.py:27 | the last digit of `two1nine` is `9` |
| Day1.SecondDigitExampleTwo | adventofcode2023/tests/test_day1.py:28 | the last digit of `4nineeightseven2` is `2` |
| Day2.AddRolls | adventofcode2023/days/day2.py:29-35 | adding a draw's rolls keeps the three colour keys; a colour that is not a key raises KeyError |
| Day2.AddRollsSumsPerColour | adventofcode2023/days/day2.py:29-35 | within one draw each colour's count is its start value plus the numbers of the rolls of that colour |
| Day2.PossibleIffNoDrawExceeds | adventofcode2023/days/day2.py:27-39 | a game is possible exactly when every draw can be read and no draw exceeds 12 red, 13 green, 14 blue; when it is not, some draw exceeds them |
| Day2.GameIsPossible | adventofcode2023/days/day2.py:25-39 | the loop over the draws, stopping at the first draw over the limits, decides the game as the reference definition does |
| Day2.CountDraw | adventofcode2023/days/day2.py:29-35 | the inner loop yields the colour counts of the draw, or the error of the first bad roll |
| Day2.MaxRollsIsMaximum | adventofcode2023/days/day2.py:53-62 | when every roll reads, each colour ends at the largest of its start value and the numbers rolled of it, and is one of them |
| Day2.PowerZeroWithoutColour | adventofcode2023/days/day2.py:53-64 | a colour that no roll of the game names stays 0, so the game's power is 0 |
| Day2.FewestColours | adventofcode2023/days/day2.py:53-62 | the loops over grabs and cubes raise each colour to its largest roll over the whole game |
| Day2.RaiseFewest | adventofcode2023/days/day2.py:56-62 | the inner loop raises each colour of one grab to the largest roll |
| Day2.MaxRollsAppend | adventofcode2023/days/day2.py:54-62 | raising by two runs of rolls one after the other is raising by their concatenation |
| Day2.PossibleIdOf | adventofcode2023/days/day2.py:21-42 | one line of part one: the game id when the game is possible, 0 otherwise, or the line's error |
| Day2.LinePowerOf | adventofcode2023/days/day2.py:51-64 | one line of part two: the product of the fewest cubes of each colour |
| Day2.SolvePartOne | adventofcode2023/days/day2.py:14-44 | the sum of the ids of the possible games, or the error of the first line that fails |
| Day2.SolvePartTwo | adventofcode2023/days/day2.py:47-66 | the sum of the games' powers, or the error of the first line that fails |
| Day3.RunStartDigits | adventofcode2023/days/day3.py:37-39 | the leftward scan passes only digits and stops on a non-digit or at -1 |
| Day3.RunEndDigits | adventofcode2023/days/day3.py:41-44 | the rightward scan passes only digits and stops on a non-digit or at the width |
| Day3.RunThrough | adventofcode2023/days/day3.py:37-44 | on a digit the two scans delimit the one maximal run of digits that holds it |
| Day3.Erase | adventofcode2023/days/day3.py:32-35 | overwriting a range keeps the row's length; index -1 is the row's last cell |
| Day3.IntOfRun | adventofcode2023/days/day3.py:46 | `int` of the joined digits of a run is the number they write |
| Day3.IntOfNoRun | adventofcode2023/days/day3.py:37-46 | off a digit both scans stop at `x`, the slice is empty and `int` raises ValueError |
| Day3.ParseNumberReadsRun | adventofcode2023/days/day3.py:21-48 | on a digit the number read is the whole maximal run through it, and the range erased is the run plus the cell before it as written, the run alone as intended |
| Day3.ParseNumberSameAcrossRun | adventofcode2023/days/day3.py:21-48 | any two indexes of the same run read the same number |
| Day3.ParseNumberErasesAsWritten | adventofcode2023/days/day3.py:47 | as written, the run and the cell before it become `.`, and for a run at the start of the row that cell is the last one of the row |
| Day3.ParseNumberErasesOnlyTheRun | adventofcode2023/days/day3.py:32-35 | with the intended range only the run's digits become `.`; no other cell changes |
| Day3.EraseAsWrittenLosesSymbolBefore | adventofcode2023/days/day3.py:47 | reading the `1` of `#1` as written erases the `#` too; the intended range keeps it |
| Day3.EraseAsWrittenLosesLastCell | adventofcode2023/days/day3.py:32-35 | reading the `1` of `1.#` as written erases the `#` at the far end of the row |
| Day3.ParseNumberTestVectors | adventofcode2023/tests/test_day3.py:11-29 | every index of `467` and of `11456` in the test rows reads the whole number |
| Day3.ParseNumberFromGrid | adventofcode2023/days/day3.py:21-48 | the in-place scan and overwrite return the run's number and leave the row as the reference definition erases it, or raise its ValueError |
| Day3.ScanLeft | adventofcode2023/days/day3.py:37-39 | the left loop stops where the reference scan does |
| Day3.ScanRight | adventofcode2023/days/day3.py:41-44 | the right loop stops where the reference scan does |
| Day3.UpdateListInPlace | adventofcode2023/days/day3.py:32-35 | the row becomes the reference erasure of the range |
| Day3.AdjacentFromClears | adventofcode2023/days/day3.py:70-79 | after the loop over the offsets every neighbour is cleared of digits, only `.` is written, and with the intended range only digits are overwritten, so no number is read twice |
| Day3.AdjacentClearsNeighbours | adventofcode2023/days/day3.py:51-81 | after `_has_number_adjacent` no neighbour of the cell holds a digit and only `.` was written |
| Day3.AdjacentFromFailures | adventofcode2023/days/day3.py:70-79 | inside the loop the only exception is the IndexError of a row shorter than the first, and there is none when no row is |
| Day3.AdjacentFailures | adventofcode2023/days/day3.py:63-81 | ValueError exactly for an empty grid or first row; otherwise only IndexError from a short row, and none when every row is as wide as the first |
| Day3.ScanFromNoSymbols | adventofcode2023/days/day3.py:86-92 | a scan over cells that are all digits or `.` collects nothing |
| Day3.ScanFromVisits | adventofcode2023/days/day3.py:90-92 | a symbol collects the numbers around it and the scan continues over the grid they were erased from |
| Day3.AdjacentExample | adventofcode2023/days/day3.py:51-81 | `*` at the top left of `*.`/`#1`/`2.` reads the `1`, erasing the `#` as written and keeping it with the intended range |
| Day3.AdjacentExampleKeptSymbol | adventofcode2023/days/day3.py:51-81 | the `#` that stayed then reads the `2` below it |
| Day3.ScanAsWrittenLosesPartNumber | adventofcode2023/days/day3.py:83-94 | as written, the schematic `*.`/`#1`/`2.` sums to 1: the part number 2 is lost |
| Day3.ScanFixedKeepsPartNumber | adventofcode2023/days/day3.py:83-94 | with the intended range the same schematic sums to 3 |
| Day3.PartOneWithoutSymbols | adventofcode2023/days/day3.py:83-94 | a schematic without symbols sums to 0 |
| Day3.ToGrid | adventofcode2023/days/day3.py:14-18 | one fresh, separate character list per line, holding that line |
| Day3.HasNumberAdjacent | adventofcode2023/days/day3.py:51-81 | the in-place neighbour loop returns the numbers and leaves the rows as the reference definition does, or raises its error |
| Day3.ParseNumberFromRow | adventofcode2023/days/day3.py:78 | reading one row of the grid erases that row as the reference does and leaves the other rows |
| Day3.VisitOffset | adventofcode2023/days/day3.py:71-79 | one turn of the loop over the offsets matches one step of the reference loop |
| Day3.SolvePartOne | adventofcode2023/days/day3.py:83-94 | the in-place scan computes the reference part-one sum, code as written |
| Day4.NumberList | adventofcode2023/days/day4.py:21-22 | reading a list of numbers fails only with ValueError |
| Day4.CardFromLine | adventofcode2023/days/day4.py:15-24 | `Card.from_line` fails only with ValueError (a missing or extra `:` or `\|`, a bad number) or IndexError (no card number) |
| Day4.CardLineRoundTrip | adventofcode2023/days/day4.py:15-24 | every card with natural numbers and two non-empty lists, written out as a card line, is read back as the same card |
| Day4.CardFromCollapsedLine | adventofcode2023/days/day4.py:16 | only the line with its runs of spaces collapsed matters, so aligned lines read like single-spaced ones |
| Day4.MatchingMembers | adventofcode2023/days/day4.py:26-27 | a number is a match exactly when it is one of yours and a winning one |
| Day4.MatchingAppend | adventofcode2023/days/day4.py:26-27 | the filter keeps your order: matches of two runs are the matches of each, concatenated |
| Day4.MatchingCount | adventofcode2023/days/day4.py:26-27 | there are at most as many matches as your numbers, and exactly as many when all of yours are winning |
| Day4.ScoreDoubles | adventofcode2023/days/day4.py:54-55 | no match scores 0, the first scores 1 and each further match doubles the points |
| Day4.LinePointsOfCard | adventofcode2023/days/day4.py:45-55 | part one reads a line as `Card.from_line` does, and its points are the score of that card's matches |
| Day4.LinePointsOf | adventofcode2023/days/day4.py:45-55 | one line of the loop: its error, nothing appended without a match, or the points of its matches |
| Day4.SolvePartOne | adventofcode2023/days/day4.py:38-57 | the sum of the points of the cards with a match, or the error of the first bad line |
| Day4.Copies | adventofcode2023/days/day4.py:76-77 | the copies won are `hi - lo` cards, and the only failure is IndexError |
| Day4.CopiesOfNumberedDeck | adventofcode2023/days/day4.py:73-77 | in a deck numbered 1, 2, 3, ... a card wins the next cards by number, never an earlier one |
| Day4.CopiesFromDeck | adventofcode2023/days/day4.py:76-77 | the copies won are always cards of the deck |
| Day4.CardsFromLines | adventofcode2023/days/day4.py:61 | the list of cards has one card per line read by `from_line`, or the error of a line that fails |
| Day4.ProcessKeepsKeys | adventofcode2023/days/day4.py:67-79 | the queue loop only updates existing keys |
| Day4.ProcessNeverKeyError | adventofcode2023/days/day4.py:79 | every card in the queue comes from the deck, so `instances[card.number] += 1` never raises KeyError |
| Day4.ProcessCountsTurns | adventofcode2023/days/day4.py:67-81 | every turn adds exactly one instance: the counts grow by the number of turns, and every queued card takes one |
| Day4.ProcessFirstCard | adventofcode2023/days/day4.py:67-79 | in a numbered deck no card wins a copy of card 1, so it is counted once per time it is queued |
| Day4.PartTwoNeverKeyError | adventofcode2023/days/day4.py:60-81 | part two never raises KeyError |
| Day4.PartTwoCountsTurns | adventofcode2023/days/day4.py:60-81 | part two's answer is the number of turns of the queue loop, at least one per card |
| Day4.FirstCardOnce | adventofcode2023/days/day4.py:60-81 | in a numbered deck card 1 ends with exactly one instance |
| Day4.AppendWon | adventofcode2023/days/day4.py:70-77 | the inner loop appends the copies won to the back of the queue, nothing without a match |
| Day4.CountInstances | adventofcode2023/days/day4.py:66-79 | the queue loop, bounded by `fuel` turns, ends with the counts of the reference process |
| Day4.SolvePartTwo | adventofcode2023/days/day4.py:60-81 | the sum of the instance counts, as the reference definition gives it |
| Day5.MappingFromLine | adventofcode2023/days/day5.py:22-30 | reading a mapping fails only with ValueError, and a mapping read always has ranges of equal length |
| Day5.MappingFromLineMeaning | adventofcode2023/days/day5.py:22-30 | a mapping is read exactly from a line of three integers `d s n`, and its ranges then hold the `n` values from `d` and from `s` on |
| Day5.MappingFromLineReads | adventofcode2023/days/day5.py:22-30 | three natural numbers written with single spaces are read back as the mapping they describe |
| Day5.ExampleMapping | adventofcode2023/days/day5.py:32 | `50 98 2` maps 98..99 to 50..51 |
| Day5.FirstContaining | adventofcode2023/days/day5.py:113-120 | the mapping chosen is the first whose source range holds the value; none is chosen exactly when none holds it |
| Day5.StageInDestination | adventofcode2023/days/day5.py:111-123 | a value held by the first matching mapping lands in its destination range at the same offset; a value no mapping holds is kept |
| Day5.MapValue | adventofcode2023/days/day5.py:113-123 | the inner loop with `break` moves the value as the reference stage does |
| Day5.FillLast | adventofcode2023/days/day5.py:106-123 | after `zip` over the types and lists the location entry is the value after the seventh list, or stays 0 when there are fewer lists |
| Day5.Location | adventofcode2023/days/day5.py:95-125 | a seed's location is the seed taken through the first seven lists, or 0 when the almanac has fewer |
| Day5.LocationOfSeed | adventofcode2023/days/day5.py:106-123 | the dictionary built for a seed has a `location` entry, the value after the seventh list, or its starting 0 when there are fewer lists |
| Day5.SeedMappingOf | adventofcode2023/days/day5.py:97-125 | the loop body builds the reference dictionary for the seed |
| Day5.GetSeedMappings | adventofcode2023/days/day5.py:90-127 | one result per seed, in the seeds' order, each holding the seed and its dictionary |
| Day5.LowestIsMinimum | adventofcode2023/days/day5.py:225-226 | the running minimum is the least location and one of them, and None only when there are no seeds |
| Day5.FirstMin | adventofcode2023/days/day5.py:243 | `min` with a key picks the first position of the least value |
| Day5.FirstMinIsLowest | adventofcode2023/days/day5.py:243 | `min` and the running minimum agree on the least value |
| Day5.AnswerIsLowestLocation | adventofcode2023/days/day5.py:243 | with the location taken, part one answers the lowest location, the value part two's running minimum finds, and fails exactly when there are no seeds |
| Day5.AnswerAsWrittenReportsSeed | adventofcode2023/days/day5.py:243 | as written, one seed 79 whose location is 0 gives the answer 79 instead of 0 |
| Day5.GetLowestLocation | adventofcode2023/days/day5.py:190-228 | the loop yields the running minimum of the locations, None without seeds |
| Day5.SeedNumbers | adventofcode2023/days/day5.py:56-61 | reading the seed line fails only with ValueError |
| Day5.SeedNumbersOfLine | adventofcode2023/days/day5.py:56-61 | a written seed line is read back as its numbers |
| Day5.RangeOf | adventofcode2023/days/day5.py:158 | `range(start, start + length)` holds exactly the values from start below start plus length |
| Day5.ExpandMembers | adventofcode2023/days/day5.py:157-161 | a part-two seed lies in one of the pairs' ranges, and every value of every pair's range is a seed |
| Day5.BonusSeeds | adventofcode2023/days/day5.py:147-161 | AssertionError exactly for an odd count of numbers; otherwise the pairs' ranges expanded in order, or ValueError |
| Day5.MappingList | adventofcode2023/days/day5.py:64-71 | every line after the heading is a well-formed mapping, or ValueError |
| Day5.MappingLists | adventofcode2023/days/day5.py:78-81 | one list of well-formed mappings per block after the seeds, or ValueError |
| Day5.AlmanacOf | adventofcode2023/days/day5.py:74-82 | the almanac has one mapping list per block after the first; its failures are ValueError, or AssertionError in part two |
| Day5.SolvePartOne | adventofcode2023/days/day5.py:240-243 | part one as written: the seed number of the first result with the least location, ValueError without seeds |
| Day5.SolvePartTwo | adventofcode2023/days/day5.py:245-247 | the lowest location over the expanded seeds, None when there are none |
| Day6.CountIsNumberOfWinningHolds | adventofcode2023/days/day6.py:54-59 | the number of hold times counted is the number of hold times in `1..lasts` that beat the record |
| Day6.CountBeatingBound | adventofcode2023/days/day6.py:55-59 | no more hold times win than are tried |
| Day6.WaysToWinBound | adventofcode2023/days/day6.py:55-59 | at most `lasts` ways win, and with a non-negative record holding for the whole race never wins |
| Day6.WinnersFormInterval | adventofcode2023/days/day6.py:56-58 | the distance travelled is concave in the hold time, so any hold time between two winners also wins |
| Day6.CountWays | adventofcode2023/days/day6.py:54-59 | the counting loop counts exactly the winning hold times |
| Day6.ParseRow | adventofcode2023/days/day6.py:43-44 | a row without `:` raises IndexError and a non-number ValueError; no other failure |
| Day6.ParseRowJoined | adventofcode2023/days/day6.py:69 | part two reads exactly one number per row, and fails only with IndexError or ValueError |
| Day6.ParseMatrix | adventofcode2023/days/day6.py:41-47 | the input parses exactly when every line does; entry `i` is what line `i` reads as, and the only failures are IndexError and ValueError |
| Day6.ParseRowOfLine | adventofcode2023/days/day6.py:43-44 | a row written as a heading, a colon and the numbers each after one space reads back as those numbers |
| Day6.ParseRowJoinedOfLine | adventofcode2023/days/day6.py:69 | part two reads the same row back as the one number whose digits are those of the numbers written one after another |
| Day6.Solve | adventofcode2023/days/day6.py:39-63 | the only failures of either part are IndexError (a line without `:`) and ValueError (a non-number, or rows that do not transpose into time and record pairs) |
| Day6.SolveTable | adventofcode2023/days/day6.py:39-63 | part one on a `Time:` row above an equally long `Distance:` row is the product of the ways to win the races the columns pair up |
| Day6.SolveTableJoined | adventofcode2023/days/day6.py:66-87 | part two on the same kind of input is the number of ways to win the one race whose time and record are each row's digits run together |
| Day6.Races | adventofcode2023/days/day6.py:48-52 | transposing gives one race per column, each pairing the first row's time with the second row's record; any other shape with races is refused |
| Day6.WaysProduct | adventofcode2023/days/day6.py:50-63 | the loop's answer is the product of the numbers of ways to win the races |
| Day6.ProductMatches | adventofcode2023/days/day6.py:61-63 | multiplying the collected counts equals the product of the ways to win |
| Day6.UnwinnableRaceZeroesProduct | adventofcode2023/days/day6.py:63 | one race that cannot be won makes the answer 0 |
| Day7.Strength | adventofcode2023/days/day7.py:18-19 | a type's strength lies between 1 and 7 |
| Day7.StrengthRanks | adventofcode2023/days/day7.py:18-23 | five of a kind is 7 and high card 1, strength falls strictly along the declaration, and no two types share one |
| Day7.Distinct | adventofcode2023/days/day7.py:34-37 | the different cards of a hand, each once: a card is among them exactly when it is in the hand |
| Day7.SizesOf | adventofcode2023/days/day7.py:37 | each group is as large as its card's count in the hand |
| Day7.Sizes | adventofcode2023/days/day7.py:34-37 | sorting and `groupby` give one non-empty group per different card |
| Day7.SizesSum | adventofcode2023/days/day7.py:34-37 | the groups together hold every card of the hand |
| Day7.MinOf | adventofcode2023/days/day7.py:38-43 | the first group once sorted by size is the smallest and is one of the groups |
| Day7.MaxOf | adventofcode2023/days/day7.py:45 | the last group once sorted by size is the largest and is one of the groups |
| Day7.GroupsByLargest | adventofcode2023/days/day7.py:39-52 | for group sizes adding up to five, the constructor's branches decide the same type as the number of groups and the largest group |
| Day7.TypeOf | adventofcode2023/days/day7.py:31-52 | the type `__post_init__` assigns to five cards is the puzzle's type, fixed by the number of different cards and the largest count |
| Day7.TypeOfByLargestGroup | adventofcode2023/days/day7.py:39-52 | the constructor's branches on the group sizes of five cards decide the type fixed by the number of groups and the largest one |
| Day7.Classify | adventofcode2023/days/day7.py:31-52 | a hand that is not five cards raises AssertionError and nothing else fails; a hand of five cards gets the type fixed by its number of different cards and its largest group |
| Day7.MostCommonIndex | adventofcode2023/days/day7.py:64-71 | `most_common` skipping `J` picks a card other than `J` of the greatest count, the first seen among ties, and none when the hand is all jokers |
| Day7.JokerCard | adventofcode2023/days/day7.py:60-75 | the card jokers copy is never `J`; it is `2` for a hand of jokers and otherwise a most common other card of the hand |
| Day7.ReplaceChar | adventofcode2023/days/day7.py:88 | `str.replace` of one card changes exactly the places holding it |
| Day7.BonusClassify | adventofcode2023/days/day7.py:78-108 | a bonus hand that is not five cards raises AssertionError and nothing else fails; otherwise the type is fixed by the number of different cards and the largest group of the hand with its jokers turned into the card they copy |
| Day7.GroupCount | adventofcode2023/days/day7.py:37 | the number of groups is the number of different cards |
| Day7.ReplaceCount | adventofcode2023/days/day7.py:86-88 | replacing the jokers moves their count onto the copied card |
| Day7.LargestGroupHolds | adventofcode2023/days/day7.py:38-45 | the largest group is at least as large as any card's count |
| Day7.LargestGroupIsACount | adventofcode2023/days/day7.py:38-45 | the largest group is the count of a card of the hand |
| Day7.ReplaceCardSet | adventofcode2023/days/day7.py:86-88 | after the jokers are replaced by a card of the hand, its cards are the old ones without `J` |
| Day7.ReplaceGroupCount | adventofcode2023/days/day7.py:86-93 | merging the jokers into another group leaves one group fewer |
| Day7.ReplaceLargestGroup | adventofcode2023/days/day7.py:86-94 | merging the jokers into another group never shrinks the largest group |
| Day7.StrengthMonotone | adventofcode2023/days/day7.py:95-108 | fewer groups and a largest group no smaller never give a weaker type |
| Day7.OneCardOnly | adventofcode2023/days/day7.py:39-40 | five equal cards are five of a kind |
| Day7.JokerNeverWeakens | adventofcode2023/days/day7.py:78-108 | jokers never make a hand weaker than the same cards in part one |
| Day7.AllJokers | adventofcode2023/days/day7.py:73-75 | five jokers are read as `22222`, five of a kind |
| Day7.StrengthsKeys | adventofcode2023/days/day7.py:125-126 | the strength table holds exactly the thirteen cards |
| Day7.StrengthsInverse | adventofcode2023/days/day7.py:126 | each card's strength is its place counted from the weakest end of the order |
| Day7.StrengthsInjective | adventofcode2023/days/day7.py:126 | no two cards share a strength |
| Day7.CompareCards | adventofcode2023/days/day7.py:142-149 | the card loop answers 1 or -1 at the first different card, None when all agree, and KeyError for a card outside the table |
| Day7.Compare | adventofcode2023/days/day7.py:132-149 | comparing two hands fails only with KeyError |
| Day7.CompareHands | adventofcode2023/days/day7.py:132-149 | the loop over the zipped cards compares as the reference comparison |
| Day7.CardsKey | adventofcode2023/days/day7.py:142-149 | the cards read as a base-13 numeral of their strengths stay below 13 to the number of cards |
| Day7.CompareCardsByKey | adventofcode2023/days/day7.py:142-149 | the card loop orders hands as their numerals do, and only equal cards read as the same numeral |
| Day7.CompareByKey | adventofcode2023/days/day7.py:132-149 | the comparison orders well-formed hands by type and then numeral, and returns None exactly for the same hand |
| Day7.CompareAntisymmetric | adventofcode2023/days/day7.py:132-149 | swapping two well-formed hands negates the answer, and None comes only for the same hand |
| Day7.Below | adventofcode2023/days/day7.py:162 | `cmp_to_key`'s `<` fails only with KeyError, or TypeError when the comparison gave None |
| Day7.BelowRanks | adventofcode2023/days/day7.py:162 | on well-formed hands that `<` answers by rank and raises TypeError exactly for two entries with the same hand |
| Day7.DistinctRanksAreDistinctHands | adventofcode2023/days/day7.py:162 | well-formed entries have different ranks exactly when they hold different hands |
| Sorting.InsertRising | adventofcode2023/days/day7.py:162 | inserting an entry of a rank not yet present keeps the list rising and adds exactly that entry |
| Sorting.InsertRepeated | adventofcode2023/days/day7.py:162 | inserting an entry whose rank is present raises TypeError |
| Sorting.SortRising | adventofcode2023/days/day7.py:162 | entries of different ranks sort without error into rising rank, as a permutation of the input |
| Sorting.SortRepeated | adventofcode2023/days/day7.py:162 | two entries of the same rank make the sort raise TypeError |
| Sorting.RisingUnique | adventofcode2023/days/day7.py:162 | only one arrangement of the entries rises strictly, so every correct sort gives the same order |
| Day7.TotalWinnings | adventofcode2023/days/day7.py:161-166 | the loop over the ranked hands sums rank times bid |
| Day7.WinningsOfRaisedBids | adventofcode2023/days/day7.py:161-166 | raising every bid by one adds 1 + 2 + ... + n to the winnings |
| Day7.ParseEntry | adventofcode2023/days/day7.py:155-159 | a line fails only with ValueError or AssertionError, and an entry read holds five cards |
| Day7.ParseEntryOfLine | adventofcode2023/days/day7.py:155-159 | five cards, a space and a bid read back as that hand, with its type, and that bid |
| Day7.AnswerIsWinningsOfRanking | adventofcode2023/days/day7.py:152-187 | with well-formed, pairwise different hands the answer is the winnings of the hands in rising rank, whatever correct sort ordered them |
| Day7.AnswerRejectsRepeatedHand | adventofcode2023/days/day7.py:162 | two lines holding the same hand make the answer raise TypeError |
| Day7.Solve | adventofcode2023/days/day7.py:152-187 | reading, sorting and the ranking loop give the reference answer |
| Day7.SolvePartOne | adventofcode2023/days/day7.py:152-168 | part one is the answer with plain hands |
| Day7.SolvePartTwo | adventofcode2023/days/day7.py:171-187 | part two is the answer with joker hands |
| Day8.ParseNode | adventofcode2023/days/day8.py:20-27 | a node line fails only with ValueError, when it does not split into two halves or its neighbours into two names |
| Day8.ParseNodeLine | adventofcode2023/days/day8.py:20-27 | the line `KEY = (LEFT, RIGHT)` of a node reads back as that node |
| Day8.NetworkOfLookup | adventofcode2023/days/day8.py:18-27 | a key is in the dictionary exactly when some line names it, and it holds the neighbours of the last such line |
| Day8.ReadInput | adventofcode2023/days/day8.py:14-29 | the loop of dictionary assignments builds the reference network |
| Day8.ParseInputText | adventofcode2023/days/day8.py:14-29 | reading a puzzle text gives back its instructions and the dictionary of its nodes |
| Day8.Next | adventofcode2023/days/day8.py:39-40 | one move takes the right neighbour on `R` and the left one otherwise, and raises KeyError exactly when the node is missing from the network |
| Day8.Position | adventofcode2023/days/day8.py:37 | the instruction followed by a move lies within the instructions, going round again after the last |
| Day8.StepsFrom | adventofcode2023/days/day8.py:32-51 | an answer is a count of moves beyond those already taken, within the fuel; the failures are KeyError or running out of fuel |
| Day8.StepsToEndIsFirstArrival | adventofcode2023/days/day8.py:31-51 | the answer is `s` exactly when move `s` is the first to land on `ZZZ` and lies within the fuel |
| Day8.PartOneIsFirstArrival | adventofcode2023/days/day8.py:31-54 | part one answers `s` exactly when the input reads, has instructions, and move `s` from `AAA` is the first to land on `ZZZ`, within the fuel |
| Day8.StepsToEndMissesNode | adventofcode2023/days/day8.py:39 | KeyError is raised exactly when the walk from `AAA` meets a node missing from the network before it reaches `ZZZ` |
| Day8.EmptyInstructionsNeverEnd | adventofcode2023/days/day8.py:34-49 | with no instructions the outer loop never ends |
| Day8.GetStepsToEnd | adventofcode2023/days/day8.py:31-51 | the nested loops with `break` count the moves as the reference walk does |
| Day8.StepsExamples | adventofcode2023/days/day8.py:31-51 | the two example networks take 2 and 6 moves |
| Day9.ComputeGcd | adventofcode2023/days/day9.py:7-20 | the loop computes the reference gcd, and returns `a` unchanged when `b` is not positive |
| Day9.GcdIsGreatestCommonDivisor | adventofcode2023/days/day9.py:8 | for natural numbers not both zero the result is positive, divides both, and every common divisor divides it |
| Day9.NextValue | adventofcode2023/days/day9.py:33-37 | a sequence of zeros predicts 0, and a sequence of one value predicts that value |
| Day9.DifferencesAppend | adventofcode2023/days/day9.py:37 | appending a value appends one difference, that value minus the old last |
| Day9.ExtrapolationExtendsTable | adventofcode2023/days/day9.py:33-37 | appending the prediction extends the difference row by that row's own prediction, so the table stays consistent |
| Day9.ConstantPredictsItself | adventofcode2023/days/day9.py:33-37 | a sequence of equal values predicts that value |
| Day9.ProgressionPredictsNextTerm | adventofcode2023/days/day9.py:33-37 | an arithmetic progression predicts its next term |
| Day9.NextValueExampleOne | adventofcode2023/tests/test_day9.py:18 | `0 3 6 9 12 15` predicts 18 |
| Day9.NextValueExampleTwo | adventofcode2023/tests/test_day9.py:19 | `1 3 6 10 15 21` predicts 28 |
| Day9.NextValueExampleThree | adventofcode2023/tests/test_day9.py:20 | `10 13 16 21 30 45` predicts 68 |
| Day9.Reverse | adventofcode2023/days/day9.py:54 | `seq[::-1]` holds the same values in the opposite order |
| Day9.ReversedProgressionPredictsPreviousTerm | adventofcode2023/days/day9.py:54 | part two on a progression predicts the term before the first |
| Day9.ParseSequences | adventofcode2023/days/day9.py:40-43 | ValueError exactly when some non-empty line holds a word that is not an integer; otherwise at most one sequence per line, empty lines dropped |
| Day9.Solve | adventofcode2023/days/day9.py:39-54 | either part fails only with ValueError |
| Day9.ParseSequencesOfLines | adventofcode2023/days/day9.py:40-43 | sequences of natural numbers written one per line, separated by single spaces, read back as the same sequences |
| Day9.SolveOfLines | adventofcode2023/days/day9.py:39-54 | on such a text either part is the sum of the predictions of the written sequences |
| Day9.SumNextAppend | adventofcode2023/days/day9.py:45 | the sum over the sequences is the sum of each one's prediction |
| Day10.StartFrom | adventofcode2023/days/day10.py:16-22 | looking for the start fails only with ValueError |
| Day10.StartFromIsFirst | adventofcode2023/days/day10.py:17-22 | the start is the `S` of the first row whose `S` passes the column test, and ValueError comes exactly when no row's does |
| Day10.StartIsFirstS | adventofcode2023/days/day10.py:17-20 | with the column test corrected, the start is the first `S` of the first row that has one |
| Day10.StartAsWrittenMissesColumnZero | adventofcode2023/days/day10.py:19 | as written, a grid whose only `S` is in column 0 raises ValueError; corrected, it starts at (0, 0) |
| Day10.StartExampleOne | adventofcode2023/tests/test_day10.py:10-18 | the first test grid starts at (1, 1) |
| Day10.StartExampleTwo | adventofcode2023/tests/test_day10.py:21-29 | the second test grid starts at (3, 3) |
| Day10.FindStartCoordinates | adventofcode2023/days/day10.py:16-22 | the loop over the rows finds the reference start |
| Day10.PipesConnectTwoNeighbours | adventofcode2023/days/day10.py:36-43 | exactly the six pipe symbols have ends, and each connects two different neighbouring tiles |
| Day10.Cell | adventofcode2023/days/day10.py:52 | reading a tile fails only with IndexError |
| Day10.Backs | adventofcode2023/days/day10.py:54-62 | the tile next to the start is queued at distance 1 once for each of its ends that leads back to the start, and only then |
| Day10.SeedsUpTo | adventofcode2023/days/day10.py:50-62 | building the start queue fails only with IndexError |
| Day10.BacksOfMeans | adventofcode2023/days/day10.py:51-62 | a neighbour of the start adds entries, all for itself at distance 1, exactly when its pipe leads back to the start |
| Day10.SeedsPointBack | adventofcode2023/days/day10.py:50-62 | the start queue holds, at distance 1, exactly the neighbours whose pipe leads back to the start |
| Day10.EnqueueBacks | adventofcode2023/days/day10.py:54-62 | the inner loop queues the reference entries |
| Day10.LoadSeeds | adventofcode2023/days/day10.py:50-62 | the loops over the four directions build the reference start queue |
| Day10.LoadDirection | adventofcode2023/days/day10.py:52-62 | one direction adds the reference entries for that neighbour |
| Day10.Width | adventofcode2023/days/day10.py:33 | no row is longer than the width |
| Day10.Pushes | adventofcode2023/days/day10.py:85-86 | each end of a pipe is queued one step further than the pipe |
| Day10.Enqueue | adventofcode2023/days/day10.py:85-86 | the loop over a pipe's ends queues the reference entries |
| Day10.ExploringRecords | adventofcode2023/days/day10.py:72-86 | recording a new tile keeps the exploration's invariant and leaves fewer tiles of the bounding box unrecorded |
| Day10.ExploringDone | adventofcode2023/days/day10.py:72 | when the queue is empty the distances form a complete loop map: closed under pipe ends, every tile explained by a walk, none longer than needed |
| Day10.WalkIsNoShorter | adventofcode2023/days/day10.py:71-86 | every walk along the pipes from the start ends on a recorded tile and is at least its recorded distance long |
| Day10.DistanceIsWalked | adventofcode2023/days/day10.py:71-86 | every recorded tile other than the start ends a walk exactly its recorded distance long |
| Day10.LoopMapIsShortest | adventofcode2023/days/day10.py:71-86 | the recorded distance of a tile is the length of its shortest walk from the start |
| Day10.OrderedQueue | adventofcode2023/days/day10.py:74-86 | the first-in-first-out queue stays sorted by distance, within one step of the entry taken |
| Day10.Explore | adventofcode2023/days/day10.py:71-86 | the breadth-first loop fails exactly when some walk along the pipes from the start reaches a tile outside the grid or without a pipe; IndexError only when a reached tile lies outside the grid, KeyError only when one holds no pipe; otherwise it ends with a loop map |
| Day10.QueuedIsReached | adventofcode2023/days/day10.py:71-86 | every tile taken off the queue and not yet recorded is reached by a walk from the start |
| Day10.LoopMapUnbroken | adventofcode2023/days/day10.py:71-86 | once the loop map is complete every tile a walk from the start reaches is a pipe inside the grid |
| Day10.MaxDistance | adventofcode2023/days/day10.py:88 | `max(dist.values())` is a recorded distance no smaller than any other |
| Day10.SolvePartOne | adventofcode2023/days/day10.py:25-88 | ValueError without a start, IndexError reading outside the grid, AssertionError unless exactly two entries are queued; after that an answer comes exactly when no walk from the start reaches a tile outside the grid or without a pipe, and it is the largest distance of a loop map |
| Day11.Manhattan | adventofcode2023/days/day11.py:12-22 | the distance between two points is zero exactly when they are the same point |
| Day11.ManhattanIsMetric | adventofcode2023/days/day11.py:12-22 | the distance is symmetric, zero exactly between equal points, and obeys the triangle inequality |
| Day11.ExpandRow | adventofcode2023/days/day11.py:40-43 | inserting a row of dots keeps the grid rectangular and as wide, with one more row |
| Day11.ExpandColumn | adventofcode2023/days/day11.py:35-38 | inserting a column of dots keeps the grid rectangular and as tall, one wider |
| Day11.DoubledRowsAreRows | adventofcode2023/days/day11.py:52-57 | doubling the blank rows neither adds nor loses a row value |
| Day11.RowsStep | adventofcode2023/days/day11.py:52-57 | at each step of the rows phase the next row of the grid sits at the index reached; a blank one gets a copy after it, another is skipped |
| Day11.RowsPhase | adventofcode2023/days/day11.py:49-57 | the rows phase, from any row on, doubles the remaining blank rows and hands over to the columns phase |
| Day11.ColumnsStepFinds | adventofcode2023/days/day11.py:59 | at each step of the columns phase the index reached holds the next column of the grid, blank exactly when that column was |
| Day11.ColumnsStepBlank | adventofcode2023/days/day11.py:59-61 | a blank column gets a column of dots after it |
| Day11.ColumnsPhase | adventofcode2023/days/day11.py:46-63 | the columns phase, from any column on, ends with every blank column doubled |
| Day11.RowsPhaseHandsOver | adventofcode2023/days/day11.py:49-50 | the rows phase hands the grid with every blank row doubled to the columns phase |
| Day11.DoubledColumnsExpand | adventofcode2023/days/day11.py:59-63 | the blank columns of the row-doubled grid are the original's, so doubling them gives the reference expansion |
| Day11.ExpandedUniverseDoubles | adventofcode2023/days/day11.py:45-63 | the recursion doubles every blank row and then every blank column, and leaves the rest as it was |
| Day11.ExpandedShape | adventofcode2023/days/day11.py:45-63 | the expanded grid stays rectangular with one more row per blank row and one more column per blank column |
| Day11.ExpandedExample | adventofcode2023/tests/test_day11.py:12-28 | the test's 3×4 grid expands to the expected 4×6 grid |
| Day11.GalaxiesAreHashes | adventofcode2023/days/day11.py:69-73 | the `nditer` scan finds exactly the `#` cells, each once, in row-major order |
| Day11.ScanGalaxies | adventofcode2023/days/day11.py:68-73 | ValueError exactly for an array without cells; otherwise the scanning loop collects the reference list of cells |
| Day11.GalaxyLocations | adventofcode2023/days/day11.py:89-98 | ValueError exactly for an array without cells; otherwise the galaxies as `Point(x=column, y=row)`, in row-major order, exactly the `#` cells |
| Day11.PairsCount | adventofcode2023/days/day11.py:75 | `combinations(points, 2)` has n·(n−1)/2 pairs |
| Day11.PairsAreCombinations | adventofcode2023/days/day11.py:75 | the pairs are exactly the elements at positions `i < j`, earlier first |
| Day11.PointCombinations | adventofcode2023/days/day11.py:66-75 | ValueError exactly for an array without cells; otherwise every pair of the `#` cells found, n·(n−1)/2 of them |
| Day11.MovePast | adventofcode2023/days/day11.py:108-111 | one step moves the points, one for one |
| Day11.ShiftIndexes | adventofcode2023/days/day11.py:114 | one step shifts the indexes, one for one |
| Day11.StepMovesPoint | adventofcode2023/days/day11.py:107-115 | a point beyond a shifted blank index moves by `incr`, and its new coordinate still lies beyond the next shifted index exactly when the original did |
| Day11.ColumnsPhaseMoves | adventofcode2023/days/day11.py:116-122 | the columns phase, from any step on, moves every point by `incr` per blank column left of it |
| Day11.RowsPhaseMoves | adventofcode2023/days/day11.py:104-115 | the rows phase, from any step on, moves every point by `incr` per blank row above it, then runs the columns phase |
| Day11.ExpandedPointsDisplace | adventofcode2023/days/day11.py:100-122 | `get_expanded_points` moves every point by `incr` per blank line before it on each axis, keeping the order and number of points |
| Day11.ExpandPoints | adventofcode2023/days/day11.py:100-122 | the recursion updating the list in place leaves it holding the reference expansion |
| Day11.MovePastInPlace | adventofcode2023/days/day11.py:108-111 | the loop rewriting `points[i]` leaves the list holding the moved points |
| Day11.BlankRowsIncreasing | adventofcode2023/days/day11.py:135 | the blank rows are listed in increasing order, within the grid |
| Day11.BlankColumnsIncreasing | adventofcode2023/days/day11.py:136 | the blank columns are listed in increasing order, within the grid |
| Day11.SolvePartOne | adventofcode2023/days/day11.py:79-87 | part one as the source runs it gives the reference answer, including its ValueError for a grid without cells |
| Day11.PartOneOnExpanded | adventofcode2023/days/day11.py:79-87 | part one raises ValueError for a grid without cells, and otherwise sums the distances between all pairs of galaxies of the grid with every blank row and column doubled |
| Day11.ExpandedZeroSize | adventofcode2023/days/day11.py:45-63 | the expanded grid has a cell exactly when the grid has one |
| Day11.EmptyInputRaises | adventofcode2023/days/day11.py:79-92 | the empty input is one row without cells, and both parts raise ValueError on it |
| Day11.PartTwoDisplaces | adventofcode2023/days/day11.py:125-139 | part two raises ValueError for a grid without cells, and otherwise sums the distances between the galaxies moved 999999 further per blank row above and per blank column left of them |
| Day11.SolvePartTwo | adventofcode2023/days/day11.py:125-139 | part two with the list updated in place gives the reference answer, including its ValueError for a grid without cells |
| Day12.Product | adventofcode2023/days/day12.py:43 | `product('#.', repeat=k)` has 2^k strings, each of length k |
| Day12.ProductIsAllChoices | adventofcode2023/days/day12.py:43 | the product holds every string of `k` resolved springs and nothing else |
| Day12.ProductNoRepeats | adventofcode2023/days/day12.py:43 | no string occurs twice in the product |
| Day12.ProductEnds | adventofcode2023/days/day12.py:43 | the product starts with all `#` and ends with all `.` |
| Day12.ProductThree | adventofcode2023/tests/test_day12.py:19-28 | the product of length three comes in the order the test lists |
| Day12.FillRow | adventofcode2023/days/day12.py:45-50 | the inner loop overwrites the row's `?`, left to right, with the combination's characters |
| Day12.FilledMatches | adventofcode2023/days/day12.py:45-50 | filling the `?` with resolved springs gives a resolution of the row |
| Day12.ChoicesFill | adventofcode2023/days/day12.py:45-50 | every resolution of the row is the row filled with some combination |
| Day12.ChoicesOfFilled | adventofcode2023/days/day12.py:45-50 | a filled row gives back the combination it was filled with |
| Day12.PossibleRows | adventofcode2023/days/day12.py:39-54 | AssertionError exactly when the row holds a character other than `?#.`; otherwise 2^(number of `?`) candidates |
| Day12.PossibleRowsAreResolutions | adventofcode2023/days/day12.py:17-54 | the candidates are exactly the resolutions of the row |
| Day12.PossibleRowsNoRepeats | adventofcode2023/days/day12.py:17-54 | no candidate occurs twice |
| Day12.PossibleRowsEnds | adventofcode2023/days/day12.py:43-52 | the first candidate puts `#` at every `?` and the last puts `.` |
| Day12.GetPossibleRows | adventofcode2023/days/day12.py:17-54 | the loop over the product appends the reference candidates |
| Day12.PossibleRowsExample | adventofcode2023/tests/test_day12.py:16-44 | `???.###` gives the eight rows of the test, in its order |
| Day12.GroupsSpell | adventofcode2023/days/day12.py:62 | the runs `groupby` yields spell the row |
| Day12.GroupsMaximal | adventofcode2023/days/day12.py:62 | neighbouring runs hold different characters |
| Day12.MaximalRunsAreGroups | adventofcode2023/days/day12.py:62 | any list of maximal runs spelling the row is what `groupby` yields |
| Day12.SizesFound | adventofcode2023/days/day12.py:61-66 | the loop over the runs collects the sizes of the damaged groups |
| Day12.DamagedSizesExample | adventofcode2023/tests/test_day12.py:52-63 | the damaged groups of `#.#.###` have sizes 1, 1 and 3 |
| Day12.PassedKeepsMatching | adventofcode2023/days/day12.py:57-72 | a row is kept exactly when it is a candidate whose damaged groups have the given sizes |
| Day12.PassedNoRepeats | adventofcode2023/days/day12.py:57-72 | the kept rows have no repeats when the candidates have none |
| Day12.RowsPassed | adventofcode2023/days/day12.py:57-72 | the loop keeps the reference rows, in order |
| Day12.ArrangementsCount | adventofcode2023/days/day12.py:76-83 | a line's count is the number of distinct resolutions of its row with the given group sizes |
| Day12.Arrangements | adventofcode2023/days/day12.py:76-83 | a line fails only with ValueError or AssertionError; a count is read only from a line of two pieces and is at most 2 to the number of `?` in its row |
| Day12.LineArrangements | adventofcode2023/days/day12.py:77-83 | one line: ValueError unless it splits into two pieces of which the second is integers; otherwise the count of kept rows |
| Day12.SolvePartOne | adventofcode2023/days/day12.py:74-85 | the loop over the lines sums the lines' counts, failing at the first line that fails |
| Day13.Window | adventofcode2023/days/day13.py:27-35 | the window checked for a pair of equal lines is centred on the pair and reaches the first or the last line |
| Day13.MirrorPointwise | adventofcode2023/days/day13.py:17-19 | `is_mirror` holds exactly when each line of the window equals its opposite |
| Day13.WindowCheckIsReflection | adventofcode2023/days/day13.py:25-35 | an equal pair whose window is a mirror is exactly a fold every line of which matches its image |
| Day13.SearchFromFinds | adventofcode2023/days/day13.py:24-35 | a search that returns `k` found the first matching fold from its starting pair on |
| Day13.ReflectionPointIsFirst | adventofcode2023/days/day13.py:24-35 | the reflection point is the smallest `k` between 1 and n−1 whose fold matches, and None exactly when none does |
| Day13.FirstReflectionIsPoint | adventofcode2023/days/day13.py:24-35 | the first matching fold is the reflection point |
| Day13.VerticalFoldsEveryRow | adventofcode2023/days/day13.py:15-35 | a vertical line after column k−1 mirrors every row, as far as the row reaches |
| Day13.Vertical | adventofcode2023/days/day13.py:15-35 | a vertical line found lies after a column `k−1`, `1 ≤ k < width`, whose fold matches; None exactly when no fold of the columns matches |
| Day13.Horizontal | adventofcode2023/days/day13.py:37-57 | a horizontal line found lies below a row `k−1`, `1 ≤ k < height`, whose fold matches; None exactly when no fold of the rows matches |
| Day13.FirstPatternExample | adventofcode2023/tests/test_day13.py:17-26 | the first test pattern has its vertical line after column 5 and no horizontal line |
| Day13.SecondPatternExample | adventofcode2023/tests/test_day13.py:28-37 | the second test pattern has no vertical line and its horizontal line below row 4 |
| Day13.Note | adventofcode2023/days/day13.py:67-74 | a note is the columns left of the vertical line, or else 100 times the rows above the horizontal one; AssertionError when there is neither |
| Day13.NotePositive | adventofcode2023/days/day13.py:67-74 | a pattern with a line of reflection gets a positive note |
| Day13.SolvePartOne | adventofcode2023/days/day13.py:59-76 | the loop over the patterns sums their notes, failing at the first pattern that fails |
| Day14.Score | adventofcode2023/days/day14.py:39-50 | a group scores the loads of as many consecutive rows as it has round rocks, counting down from `max_y − y`; 0 without round rocks |
| Day14.ScoreIsConsecutiveSum | adventofcode2023/days/day14.py:39-50 | a group scores the `k` consecutive loads ending at `max_y − y`, which is k·(2(max_y − y) − k + 1)/2, and 0 without round rocks |
| Day14.CountO | adventofcode2023/days/day14.py:98 | no more round rocks than cells |
| Day14.FindCube | adventofcode2023/days/day14.py:96-97 | the first cube rock of a stretch, or None exactly when the stretch has none |
| Day14.NextCube | adventofcode2023/days/day14.py:94-100 | the next cube rock below a row, or the end of the column, with no cube rock between |
| Day14.RollingStopsAtNextCube | adventofcode2023/days/day14.py:94-100 | a group holds the round rocks strictly between its cube rock and the next cube rock below, or the end of the column |
| Day14.GetRockGroups | adventofcode2023/days/day14.py:87-104 | ValueError exactly for a platform without cells; otherwise the scan appends the reference groups |
| Day14.EmptyPlatform | adventofcode2023/days/day14.py:111 | the empty input is a platform of one row and no cell |
| Day14.RockGroupsAreCubes | adventofcode2023/days/day14.py:87-104 | there is exactly one group per cube rock, located at it and holding its rolling rocks, in row-major order |
| Day14.WithSentinel | adventofcode2023/days/day14.py:113-114 | a row of cube rocks is added on top and the platform is otherwise unchanged |
| Day14.StonesConserved | adventofcode2023/days/day14.py:113-115 | with the sentinel row, the groups together hold every round rock of the platform, each once |
| Day14.Tilt | adventofcode2023/days/day14.py:66-69 | tilting a column north keeps its length |
| Day14.TiltKeepsCubes | adventofcode2023/days/day14.py:66-69 | tilting moves no cube rock |
| Day14.TiltKeepsStones | adventofcode2023/days/day14.py:66-69 | tilting loses no round rock |
| Day14.TiltSettles | adventofcode2023/days/day14.py:66-69 | after tilting no round rock has an empty cell right above it |
| Day14.CubeScoresAreLoad | adventofcode2023/days/day14.py:66-77 | the scores of the groups from a cube rock down equal the load of that stretch of the column after tilting |
| Day14.ColumnLoaded | adventofcode2023/days/day14.py:113-117 | one column's group scores, with the sentinel on top, are the load of that column tilted north |
| Day14.NorthLoadIsTiltedLoad | adventofcode2023/days/day14.py:113-117 | scoring every group with the platform's row count gives the total load after tilting north |
| Day14.PrintedLoadOnSquare | adventofcode2023/days/day14.py:117 | on a square platform the printed sum is that load |
| Day14.PrintedLoadMissesTallPlatform | adventofcode2023/days/day14.py:117 | as written, `O` above `.` prints 1 while its tilted load is 2 |
| Day14.PrintedTotal | adventofcode2023/days/day14.py:106-118 | ValueError for a ragged platform and for one without cells; otherwise the number the source prints |
| Day15.HashStep | adventofcode2023/days/day15.py:7-9 | one step keeps the value within 0..255 |
| Day15.HashFromAppend | adventofcode2023/days/day15.py:4-10 | hashing `s + t` is hashing `s` and then carrying on over `t` with that value |
| Day15.Hash | adventofcode2023/days/day15.py:4-10 | every hash lies in 0..255, and the empty string hashes to 0 |
| Day15.ComputeHash | adventofcode2023/days/day15.py:4-10 | the loop over the characters computes the reference hash, a value below 256 |
| Day15.HashExamples | adventofcode2023/tests/test_day15.py:7-8 | `rn=1` hashes to 30 and `cm-` to 253 |
| Day15.SumHashesAppend | adventofcode2023/days/day15.py:22 | the sum over the steps is additive: each step contributes its own hash |
| Day15.SumHashesBound | adventofcode2023/days/day15.py:22 | the sum is at most 255 per step |
| Day15.PartOne | adventofcode2023/days/day15.py:21-22 | part one is at most 255 times the number of comma-separated steps |
| Day15.PartOneOfSteps | adventofcode2023/days/day15.py:21-22 | on steps without commas joined by commas, part one is the sum of the steps' hashes |
| Day15.PartOneOfTwoSteps | adventofcode2023/days/day15.py:21-22 | `rn=1,cm-` sums to 30 + 253 = 283 |
| Day16.MirrorsSwapAxes | adventofcode2023/days/day16.py:46-59 | `\` turns a direction (x, y) into (y, x) and `/` into (−y, −x), and meeting the same mirror again turns the beam back the way it came |
| Day16.SuccessorsStep | adventofcode2023/days/day16.py:83-105 | every beam a tile sends leaves from the tile one step ahead in its own direction; only a mirror meeting a direction outside its table fails |
| Day16.SuccessorsNeverReverse | adventofcode2023/days/day16.py:84-105 | with one of the four directions no tile sends a beam straight back; `|` sends beams vertically, `-` horizontally, and a splitter met across splits in two |
| Day16.ClosedHoldsReachable | adventofcode2023/days/day16.py:60-108 | a set holding the start and closed under steps holds every reachable beam |
| Day16.OutsideOfGrid | adventofcode2023/days/day16.py:39-43 | a point not reported outside a rectangular grid indexes one of its cells |
| Day16.EnergizedBounds | adventofcode2023/days/day16.py:39-43 | energized tiles lie in the grid; none when the start is outside it, and the start's own tile when it is inside |
| Day16.ExploringExpands | adventofcode2023/days/day16.py:72-108 | a new beam inside the grid is visited, its tile energized, and the beams its tile sends queued, keeping the exploration's invariant |
| Day16.ExploringSkips | adventofcode2023/days/day16.py:75-81 | a beam outside the grid or seen before is dropped and nothing else changes |
| Day16.ExploringDone | adventofcode2023/days/day16.py:70-110 | when the queue is empty the energized tiles are exactly the tiles of the reachable beams |
| Day16.GetEnergizedTiles | adventofcode2023/days/day16.py:45-110 | the breadth-first loop counts the tiles of the beams reachable from the start, expanding at most 4·rows·cols beams; KeyError only for a start direction a mirror's table lacks |
| Day16.CellsCount | adventofcode2023/days/day16.py:39-43 | a grid has rows·cols cells |
| Day16.UnitBeamsCount | adventofcode2023/days/day16.py:62-108 | with one of the four directions to start from there are at most 4·rows·cols beams to expand |
| Day16.EnergizedCount | adventofcode2023/days/day16.py:66-110 | at most rows·cols tiles are energized, at least one when the start is inside the grid and none otherwise |
| Day16.SolvePartOne | adventofcode2023/days/day16.py:112-119 | the tiles energized by the beam entering at the top-left heading right |
| Day16.BestIsMax | adventofcode2023/days/day16.py:137 | `max` over the beams is the count of one of them, and no beam has a larger one |
| Day16.BestEnergized | adventofcode2023/days/day16.py:137 | ValueError for an empty list of beams, KeyError for a beam whose direction a mirror's table lacks; otherwise the largest count |
| Day16.EdgeBeamsEnterFromEdges | adventofcode2023/days/day16.py:127-136 | the corrected list holds every beam entering the grid from its border heading inward, and nothing else |
| Day16.AsWrittenEdgeBeamsHeadInto | adventofcode2023/days/day16.py:127-136 | every beam of the list as written has one of the four directions, and the list is empty only for a grid with no row |
| Day16.SolvePartTwo | adventofcode2023/days/day16.py:121-137 | ValueError for a ragged grid; otherwise the most tiles any listed beam energizes, over the list as written or, corrected, over every beam entering from the border |
| Day16.PartTwoCoversEveryEntry | adventofcode2023/days/day16.py:121-137 | corrected, no beam entering from the border energizes more tiles than the answer |
| Day16.AsWrittenMissesBottomEdge | adventofcode2023/days/day16.py:133-135 | as written, on a grid at least as tall as wide, no listed upward beam enters the grid, though the bottom row admits one |
| Day16.SplitterCornerFromBelow | adventofcode2023/days/day16.py:89-101 | on `-.` over `..` the beam entering upward at the bottom-left energizes at least three tiles |
| Day16.SplitterCornerAtMostTwo | adventofcode2023/days/day16.py:127-136 | on that grid every beam the list as written tries energizes at most two tiles |
| Day16.AsWrittenMissesBestStart | adventofcode2023/days/day16.py:127-137 | on that grid part two as written answers at most 2 while the corrected one answers at least 3 |
| Day18.PolylineSteps | adventofcode2023/days/day18.py:36-58 | the corners start at the origin and each operation moves from one corner to the next by its meters in its direction |
| Day18.GridPoints | adventofcode2023/days/day18.py:36-58 | the loop appends one corner per operation, giving the reference polyline |
| Day18.PolylineExample | adventofcode2023/tests/test_day18.py:14-32 | the plan `L 4, D 5, R 2, U 8` has the corners the test lists |
| Day18.Index | adventofcode2023/days/day18.py:69-78 | a numpy index into an axis lands inside it, and a non-negative index stays as it is |
| Day18.Span | adventofcode2023/days/day18.py:69-78 | a slice's bounds, once normalised, stay within the axis |
| Day18.DugCellCovered | adventofcode2023/days/day18.py:62-80 | a cell is `#` exactly when the slice of some zipped operation covers it, and `.` otherwise |
| Day18.Dug | adventofcode2023/days/day18.py:62 | the dug grid has the requested shape |
| Day18.DigPlan | adventofcode2023/days/day18.py:60-80 | ValueError exactly for a negative shape, IndexError exactly when an operation's row or column lies outside the grid; otherwise a grid of that shape in which a cell is `#` exactly when some zipped operation's slice covers it |
| Day18.SegmentCells | adventofcode2023/days/day18.py:64-78 | with the corner inside the grid, `L m` covers `x−m .. x`, `R m` covers `x .. x+m−1`, `U m` covers `y−m .. y` and `D m` covers `y .. y+m−1` |
| Day18.MarkRow | adventofcode2023/days/day18.py:69-72 | a row slice assignment sets exactly its cells to `#` and leaves the rest |
| Day18.MarkColumn | adventofcode2023/days/day18.py:75-78 | a column slice assignment sets exactly its cells to `#` and leaves the rest |
| Day18.GetGrid | adventofcode2023/days/day18.py:60-80 | the slice assignments on a fresh array give the reference grid, or its failure |
| Day18.LaidPlanDigs | adventofcode2023/days/day18.py:168-180 | digging a plan on the grid laid out from its own corners never fails |
| Day18.LayInGrid | adventofcode2023/days/day18.py:171-179 | after the shift every corner lies inside a grid of at least one row and one column |
| Day18.Lowest | adventofcode2023/days/day18.py:171 | `np.min` is one of the values and no larger than any |
| Day18.Highest | adventofcode2023/days/day18.py:172 | `np.max` is one of the values and no smaller than any |
| Day18.ColumnHashesCount | adventofcode2023/days/day18.py:106-107 | counting a column slice counts the `#` cells in its range |
| Day18.RowHashesCount | adventofcode2023/days/day18.py:108-109 | counting a row slice counts the `#` cells in its range |
| Day18.InsideTrench | adventofcode2023/days/day18.py:82-110 | the test fails only with IndexError and never for a point of the grid; it accepts a point only when both its indexes are valid numpy indexes |
| Day18.InsideTrenchInGrid | adventofcode2023/days/day18.py:82-110 | for a point of the grid the test is whether each of the four rays through it, the point included, crosses an odd number of `#` cells |
| Day18.BesideGrid | adventofcode2023/days/day18.py:105-110 | a point outside the grid reads as not inside, except that a column index equal to the width raises IndexError |
| Day18.FirstAccepted | adventofcode2023/days/day18.py:113-120 | the first candidate the test accepts is returned; ValueError when it rejects them all; a failing test stops the search |
| Day18.FirstInside | adventofcode2023/days/day18.py:112-120 | the first of the nine neighbours, in `product([1, 0, -1], repeat=2)` order, that lies inside the trench; ValueError exactly when none does |
| Day18.PointInside | adventofcode2023/days/day18.py:112-120 | the loop returning at the first accepted candidate gives the reference point |
| Day18.FirstInsideInGrid | adventofcode2023/days/day18.py:112-120 | from a point of the grid an accepted candidate lies in the grid too |
| Day18.RightEdgeStartRaises | adventofcode2023/days/day18.py:106-113 | a start on the right edge raises IndexError before any candidate inside the grid is tried |
| Day18.FilledIsClosed | adventofcode2023/days/day18.py:123-150 | the cells reached from the start form a set closed under `.` neighbours |
| Day18.LeastIsFilled | adventofcode2023/days/day18.py:123-150 | the least closed set holding the start is exactly the cells the paths from it reach |
| Day18.ExpandKeeps | adventofcode2023/days/day18.py:131-148 | expanding the head of the queue and queueing its `.` neighbours keeps the fill's invariant |
| Day18.Spread | adventofcode2023/days/day18.py:135-145 | the four tests queue the `.` neighbours of the point not yet expanded, in the source's order |
| Day18.Expand | adventofcode2023/days/day18.py:131-148 | one expansion sets the point to `#`, queues its neighbours, keeps the invariant and leaves fewer points to expand |
| Day18.Drain | adventofcode2023/days/day18.py:129-148 | the loop empties the queue with the expanded points painted and lying within every closed set that holds the start |
| Day18.FillGrid | adventofcode2023/days/day18.py:123-150 | the fill paints exactly the cells reachable from the start, each expanded once |
| Day18.ParseOperation | adventofcode2023/days/day18.py:161-167 | a line fails only with ValueError; a line read has three parts, its direction is the one the first part's letter names, its meters the number written and its colour the third part without its first and last character |
| Day18.ParseOperationOfLine | adventofcode2023/days/day18.py:161-167 | a line `D m (color)` with a colour free of spaces reads back as that operation |
| Day18.SolvePartOne | adventofcode2023/days/day18.py:154-187 | part one as the source runs it: the number of `#` cells after digging the plan and filling from the first point inside |
| Day18.DigLagoon | adventofcode2023/days/day18.py:183-187 | on the dug grid: find the start, fill, count the `#` cells |
| Day19.SplitAtAngles | adventofcode2023/days/day19.py:58 | `re.split(r'<\|>', s)` always gives at least one piece |
| Day19.SplitAtAnglesOne | adventofcode2023/days/day19.py:58 | a condition with one angle bracket splits into the two sides of it |
| Day19.Rule | adventofcode2023/days/day19.py:56-87 | an instruction without `:` sends the rating to the name it is; only a conditional instruction can fail, with ValueError or AttributeError, and one that sends the rating on sends it to the text after its one `:` |
| Day19.Jump | adventofcode2023/days/day19.py:69-86 | `R` rejects, `A` accepts, any other name starts that workflow at its first instruction, and KeyError exactly when no such workflow exists |
| Day19.ConditionalPasses | adventofcode2023/days/day19.py:56-78 | `name<n:goto` sends the rating to `goto` exactly when its `name` value is below `n`, and `name>n:goto` exactly when it is above; otherwise the next instruction is taken |
| Day19.ConditionalParts | adventofcode2023/days/day19.py:56-57 | a conditional instruction holds a `:` and splits at it into the condition and the target |
| Day19.UnconditionalPasses | adventofcode2023/days/day19.py:79-87 | an instruction without `:` always sends the rating to the workflow it names |
| Day19.WorkflowHandler.constructor | adventofcode2023/days/day19.py:29-36 | a new handler holds the workflows and starts in START, with no workflow and index 0 |
| Day19.WorkflowHandler.Reset | adventofcode2023/days/day19.py:38-39 | `_reset` puts the handler back in its initial state |
| Day19.WorkflowHandler.Process | adventofcode2023/days/day19.py:41-90 | `process` answers the state machine's verdict; after a verdict the handler is reset, after a failure it keeps the state the failure left |
| Day19.Execute | adventofcode2023/days/day19.py:41-90 | a run fails only by running out of passes or with KeyError, AssertionError, IndexError, ValueError or AttributeError |
| Day19.ExecuteStops | adventofcode2023/days/day19.py:41-90 | a run ends where a pass decides or raises: its verdict is the decision of the pass from the fields it ends with, and any exception other than running out of passes is the one that pass raises |
| Day19.NeverAsserts | adventofcode2023/days/day19.py:48-53 | the `assert` never fails: START sets a workflow and every later pass keeps one |
| Day19.InitialNeverAsserts | adventofcode2023/days/day19.py:41-90 | a handler in its initial state never fails its `assert` |
| Day19.ExecuteFollows | adventofcode2023/days/day19.py:52-87 | inside a workflow the machine reaches the verdict of following the rule lists whenever it finishes within its passes |
| Day19.FollowExecutes | adventofcode2023/days/day19.py:52-87 | whenever following the rule lists reaches a verdict, so does the machine, given enough passes |
| Day19.AcceptsIsDecide | adventofcode2023/days/day19.py:41-90 | `process` from the initial state decides as following the rules from `in` does, whenever either finishes |
| Day19.ParseWorkflows | adventofcode2023/days/day19.py:104-112 | a name is a key of the workflows exactly when some line's key is that name |
| Day19.ReadWorkflows | adventofcode2023/days/day19.py:104-112 | the loop of dictionary assignments builds the reference workflows |
| Day19.WorkflowsOfLookup | adventofcode2023/days/day19.py:105-110 | a name is in the dictionary exactly when some line names it, and it holds the workflow of the last such line |
| Day19.ParseWorkflowLineOf | adventofcode2023/days/day19.py:107-109 | a workflow line reads back as its name and instructions |
| Day19.ParseRatings | adventofcode2023/days/day19.py:115-125 | one rating per line, each the rating its line reads as; failures are ValueError or TypeError |
| Day19.ReadRatings | adventofcode2023/days/day19.py:115-125 | the loop appending one rating per line builds the reference ratings |
| Day19.ComponentValueOf | adventofcode2023/days/day19.py:120 | a component `c=n` reads back as `n` |
| Day19.ParseRatingLine | adventofcode2023/days/day19.py:117-123 | the line of a rating reads back as that rating, its values in the order `x`, `m`, `a`, `s` |
| Day19.ParseRatingsOfLines | adventofcode2023/days/day19.py:115-125 | ratings written one per line read back as the same ratings, in order |
| Day19.ScoreRatings | adventofcode2023/days/day19.py:135-137 | the loop over the ratings with one handler sums the scores, as every rating meets a handler in its initial state |
| Day19.SolvePartOne | adventofcode2023/days/day19.py:127-137 | part one as the source runs it gives the reference answer |
| Day19.PartOneSumsAccepted | adventofcode2023/days/day19.py:137 | when every rating gets a verdict the answer is the summed `x+m+a+s` of exactly the ratings the rules accept |
| Day20.SamePulseUpToSender | adventofcode2023/days/day20.py:43-45 | two pulses compare equal exactly when they differ at most in their sender; the comparison is reflexive, symmetric and transitive |
| Day20.Respond | adventofcode2023/days/day20.py:209-276 | a reaction keeps the module's key, inputs and destinations, and sends nothing for a high pulse to a flip-flop and one pulse per destination otherwise |
| Day20.RespondKeeps | adventofcode2023/days/day20.py:209-276 | reacting to a pulse never changes a module's key, inputs, destinations or kind |
| Day20.FlipFlopIgnoresHigh | adventofcode2023/days/day20.py:209-211 | a flip-flop that receives a high pulse changes nothing and sends nothing |
| Day20.FlipFlopToggles | adventofcode2023/days/day20.py:212-224 | on a low pulse a flip-flop switches over and sends each destination, in order, a pulse that is high exactly when it is now on |
| Day20.FlipFlopTwiceRestores | adventofcode2023/days/day20.py:212-224 | two low pulses bring a flip-flop back to the state it started in |
| Day20.ConjunctionRemembers | adventofcode2023/days/day20.py:249-260 | a conjunction first records the received level for the sender, then sends each destination a low pulse when every remembered level is high and a high pulse otherwise |
| Day20.BroadcasterForwards | adventofcode2023/days/day20.py:272-276 | the broadcaster sends the level it received to each destination in order and does not change |
| Day20.Sources | adventofcode2023/days/day20.py:80-82 | the senders registered for a module are exactly the keys of the given modules that list it as a destination |
| Day20.RegisteredInputs | adventofcode2023/days/day20.py:73-82 | registering appends those senders to the inputs and keeps key and destinations; a conjunction also remembers a low pulse for each new sender, any other module keeps its state |
| Day20.Module.constructor | adventofcode2023/days/day20.py:52-56 | a new module holds its key, no inputs, its destinations and its initial state |
| Day20.Module.RegisterInputs | adventofcode2023/days/day20.py:243-247 | the module object's new value is its old value registered against the other modules' links |
| Day20.Module.Receive | adventofcode2023/days/day20.py:209-276 | the module object's new value and the pulses it sends are the pure reaction of its old value to the pulse |
| Day20.TallyAppend | adventofcode2023/days/day20.py:176-179 | counting pulses of a level over two traces in a row adds the two counts |
| Day20.Drain | adventofcode2023/days/day20.py:169-183 | the queue loop takes at most `fuel` pulses, stops short of the queue emptying only after taking exactly `fuel`, and takes at least one pulse off a non-empty queue it empties |
| Day20.Press | adventofcode2023/days/day20.py:155-183 | a press takes at most `fuel` pulses, exactly `fuel` when it runs out of steps, and at least the button's pulse when its queue empties |
| Day20.DrainStep | adventofcode2023/days/day20.py:169-183 | one turn of the queue loop counts and delivers the head and goes on with the rest of the queue followed by what the head caused |
| Day20.DeliverKeeps | adventofcode2023/days/day20.py:181-183 | delivering a pulse changes only the modules and keeps every key |
| Day20.AccountedStep | adventofcode2023/days/day20.py:169-179 | counting one more pulse in front of a run keeps the run's counters equal to the counts of its trace |
| Day20.DrainCounts | adventofcode2023/days/day20.py:169-183 | after the queue loop the low and high counters grew by exactly the low and high pulses taken off the queue, presses and keys are unchanged, the found flag is set exactly when the pulse looked for came off the queue, and no counted pulse was that pulse |
| Day20.DrainFifo | adventofcode2023/days/day20.py:169-171 | the pulses already queued come off the queue first, in their order, before any pulse they cause |
| Day20.UnknownReceiver | adventofcode2023/days/day20.py:181 | a pulse to a key no module has is counted and causes nothing |
| Day20.PressCounts | adventofcode2023/days/day20.py:155-168 | a press adds one to the presses, and a press with steps to spare starts with the button's low pulse to the broadcaster, which is counted |
| Day20.PressesCounts | adventofcode2023/days/day20.py:155-183 | after any number of presses the low and high counters equal their start plus the low and high pulses of all the presses, the presses grew by that number, and a found flag stays set |
| Day20.Kind | adventofcode2023/days/day20.py:127-137 | a line describes a module exactly when it starts with `%`, `&` or `broadcaster`, and the prefix gives a flip-flop that is off, a conjunction that remembers nothing, or the broadcaster |
| Day20.ParseLine | adventofcode2023/days/day20.py:125-137 | a line with no registered prefix is skipped, and a line with one raises ValueError exactly when `->` does not split it in two |
| Day20.ParseLineOfModule | adventofcode2023/days/day20.py:125-137 | a line `%k -> d1, d2` or `&k -> d1, d2` reads back as module `k` with no inputs, those destinations and its prefix's initial state |
| Day20.ParseLineOfBroadcaster | adventofcode2023/days/day20.py:125-137 | `broadcaster -> d1, d2` reads back as the broadcaster with those destinations |
| Day20.ParseLineFresh | adventofcode2023/days/day20.py:125-137 | a line with no registered prefix is skipped; a module read from a line has no inputs, the initial state of its prefix, and is the broadcaster exactly when the line starts with `broadcaster` |
| Day20.Put | adventofcode2023/days/day20.py:137 | storing under a key keeps the dictionary's keys distinct, leaves their order alone for a key already there and appends a new key last, and gives that key the new entry |
| Day20.Read | adventofcode2023/days/day20.py:124-137 | a dictionary read from the lines has distinct keys in insertion order, exactly the keys with an entry |
| Day20.ReadKeepsOrder | adventofcode2023/days/day20.py:124-137 | the keys read from the first lines come first, in the same order, in the keys read from all of them |
| Day20.ReadKeepsError | adventofcode2023/days/day20.py:130 | once a line raises, the lines after it do not change the outcome |
| Day20.Links | adventofcode2023/days/day20.py:140-142 | the links are exactly the keys and destinations of the entries under the dictionary keys other than the excluded one |
| Day20.LinkedFromOther | adventofcode2023/days/day20.py:139-142 | every registered sender is the key of a module under another dictionary key that lists the receiver |
| Day20.OtherLinked | adventofcode2023/days/day20.py:139-142 | every module under another dictionary key that lists the receiver is registered as a sender |
| Day20.LinkedFrom | adventofcode2023/days/day20.py:139-142 | the registered senders are exactly the keys of the modules under other dictionary keys that list the receiver |
| Day20.ConfigureRegisters | adventofcode2023/days/day20.py:123-144 | after configuration a module's inputs are exactly the keys of the other modules that list it as a destination, and its key, destinations and, for a non-conjunction, its state are as its line gave them |
| Day20.ConfigureConjunction | adventofcode2023/days/day20.py:243-247 | a configured conjunction remembers a low pulse for exactly its inputs |
| Day20.Others | adventofcode2023/days/day20.py:140-142 | the modules under the other keys are modules of the dictionary |
| Day20.OthersLinks | adventofcode2023/days/day20.py:140-142 | the module objects under the other keys carry the links of the dictionary's entries under those keys |
| Day20.ReadModules | adventofcode2023/days/day20.py:124-137 | the loop over the lines fills a dictionary of fresh, distinct module objects whose values are the dictionary the lines describe, or stops with the first line's error |
| Day20.Enter | adventofcode2023/days/day20.py:137 | storing a fresh module object under a key changes the dictionary's values as storing its value would |
| Day20.PartlyStep | adventofcode2023/days/day20.py:139-142 | registering one more module's inputs changes that module's value only |
| Day20.RegisterOne | adventofcode2023/days/day20.py:140-142 | one module registers its inputs among the others and every other module keeps its value |
| Day20.RegisterAll | adventofcode2023/days/day20.py:139-142 | after the loop every module's value is its value registered against the modules under the other keys |
| Day20.ModuleManager.constructor | adventofcode2023/days/day20.py:108-113 | a new manager holds the modules with all counters at zero and nothing found |
| Day20.ModuleManager.FromConfiguration | adventofcode2023/days/day20.py:123-144 | the manager built from a configuration holds fresh modules whose values are the configured dictionary, counters at zero, or the error reading the lines raises |
| Day20.ModuleManager.Take | adventofcode2023/days/day20.py:171-183 | taking one pulse off the queue counts it and lets the module with the receiver's key react; the manager's new state and the pulses sent are the pure step's |
| Day20.ModuleManager.PressButton | adventofcode2023/days/day20.py:155-183 | a press over the module objects leaves the manager in the state the pure press gives, so its counters obey DrainCounts and PressCounts |
| Day20.PressesLowBound | adventofcode2023/days/day20.py:163-168 | every finished press counts at least the button's low pulse, so `n` presses count at least `n` low pulses |
| Day20.PartOneProduct | adventofcode2023/days/day20.py:288-293 | part one is the number of low pulses times the number of high pulses of the 1000 presses, with at least 1000 low pulses |
| Day20.SolvePartOne | adventofcode2023/days/day20.py:288-293 | the imperative loop of 1000 presses gives the part one answer, whose meaning PartOneProduct states |
| Day20.PressesStuck | adventofcode2023/days/day20.py:290-291 | once a press runs out of steps no later press happens |
| Day20.PressesFront | adventofcode2023/days/day20.py:290-291 | presses in a row are one press followed by the rest from where it left off |
| Day20.FirstFoundNow | adventofcode2023/days/day20.py:297-298 | a first press that finds the pulse looked for is the first to find it |
| Day20.FirstFoundLater | adventofcode2023/days/day20.py:297-298 | a first press that does not find it delays the first that does by one |
| Day20.SearchFindsFirst | adventofcode2023/days/day20.py:295-302 | part two answers the number of the first press during which a low pulse to `rx` came off the queue: that many presses find it, no fewer do, and it is within the limit |
| Day20.SolvePartTwo | adventofcode2023/days/day20.py:295-302 | the imperative loop of presses gives the part two answer, whose meaning SearchFindsFirst states |
| Text.ParseIntReadsNumeral | adventofcode2023/days/day18.py:162 | `int` reads a number exactly when the text, once its surrounding whitespace is stripped, is one digit or sign followed only by digits, with at least one digit; a negative number comes only from a leading `-` |
| Text.ParseIntNatToString | adventofcode2023/days/day18.py:162 | `int(str(n)) == n` for every natural number |

## Left out

- Reading the puzzle input from a package resource (`adventofcode2023/day.py`): every solver takes its input as a string.
- Day 17 (`adventofcode2023/days/day17.py`) is not part of this model.
- The `if __name__ == '__main__'` blocks of every day (for example day16.py:140-154): they only print example answers.
- `print` and `pprint` output: day 14 prints the rock groups and the load (day14.py:116-117), day 20's part two prints every 5000th press count (day20.py:299-300); nothing is printed in the model.
- Day14.PrintedTotal: `solve_part_one` prints the load sum and then returns the abstract base's result, None (day14.py:116-118); the model returns the printed number instead, since None carries no property worth proving.
- The part twos that are stubs and compute nothing: day3.py:96-97, day12.py:87-88, day13.py:78-79, day14.py:120-121, day15.py:24-25, day18.py:189-190 and day19.py:139-140 return the abstract base's None, and day8.py:56-57 and day10.py:90-91 return the constant 1.
- Text.ParseInt: Python's `int()` also accepts `_` between digits, non-ASCII Unicode digits and non-ASCII whitespace around the number; the model strips only ASCII whitespace (as `Text.IsSpace` below) and then accepts an optional sign and ASCII digits only, so those inputs give ValueError in the model where Python gives a number.
- Text.IsDigit: Python's `str.isdigit` also holds for non-ASCII digits such as `²` (on which `int()` then raises ValueError, as in day 1 and day 3); the model treats every non-ASCII character as a non-digit.
- Text.IsSpace: Python's `str.isspace`, `split()` and `strip()` also treat `\x85`, `\xa0`, U+1680, U+2000 to U+200A, U+2028, U+2029, U+202F, U+205F and U+3000 as whitespace; the model knows only the ASCII whitespace (`\t` to `\r`, `\x1c` to `\x1f`, space).
- Sorting.SortRising: the model sorts by insertion, Python's `sorted` by timsort; when a comparison raises only for some pairs (an unknown card label in day 7 raises KeyError), which exception is raised, and whether one is, can depend on the order of comparisons.  When every comparison succeeds and ranks strictly the two orders agree (`Sorting.RisingUnique`).  Two equal hands make the insertion sort raise TypeError (`Sorting.SortRepeated`); that timsort raises as well is not proved.
- Day11.ExpandedUniverse: `get_expanded_universe` recurses once per row and column (day11.py:45-62) and hits Python's recursion limit (1000 frames by default) on large inputs, raising RecursionError; the model has no such limit.
- Integer widths: numpy arrays of day 18 points are int64 and can overflow on huge plans, and so can day 6's races (next line); Python integers elsewhere are unbounded, as in the model.
- Day6.CountWays: `np.transpose` (day6.py:48, 72) makes `lasts` and `distance` numpy int64, so `ms_left` and `mm_traveled = hold_button_ms * ms_left` (day6.py:56-57, 80-81) are int64 and wrap around once the product passes 2^63 - 1, which happens for races longer than about 6.07 * 10^9 ms, a length the joined numbers of part two can reach; the model multiplies unbounded integers, so on such races it counts the hold times that truly win where numpy may count differently.
- Day18.FillGrid requires a start inside the grid: called directly with a start outside it, `fill_grid` would index with a wrapped-around negative index or raise IndexError; every start `get_point_inside` finds lies inside the grid (`Day18.FirstInsideInGrid`), which is how `solve_part_one` calls it.
- Day18.DigPlan: numpy gives a grid with zero rows a width; the model's grid is its rows, so an empty plan's grid has no width of its own.
- Day19.Category: `rating.__getattribute__(left)` on the `Rating` named tuple also finds the tuple's methods (`count`, `index`, `_asdict`, …), and comparing one with an integer raises TypeError; the model raises AttributeError for every name other than `x`, `m`, `a` and `s`.
- Day19.WorkflowHandler.Process: when `process` raises part way, the handler keeps its fields unreset (day19.py:89 is never reached); the model keeps them too, but a rating processed after such an exception is not modelled since `solve_part_one` stops at the first exception.
- Fuel bounds (`Day4.CountInstances`, `Day8.StepsToEnd`, `Day19.WorkflowHandler.Process`, `Day20.ModuleManager.PressButton`, `Day20.SolvePartTwo`): the source loops until done and never stops on a cycle; the model stops with `OutOfFuel` after the given number of steps and says nothing about inputs that need more.
- Day20: the `register` class decorator's assert (day20.py:116-120) and `prefix()`'s NotImplementedError (day20.py:68-71) are not modelled: the three registered classes all set a prefix and `prefix()` is never called.
- Day20.ParseLine: the broadcaster is stored under the dictionary key its line spells (`broadcaster` plus anything before `->`), while the module's own key is always `broadcaster`; the model keeps both as the source does, and delivers pulses by dictionary key (day20.py:181).
- Read-back lemmas (`Day5.SeedNumbersOfLine`, `Day6.ParseRowOfLine`, `Day9.ParseSequencesOfLines`, `Day18.ParseOperationOfLine`, `Day19.ParseRatingsOfLines` and the like) write numbers with `Text.NatToString`, so they cover natural numbers only; a text holding a negative number is read by `Text.ParseInt`, whose contract covers a leading `-`, but no lemma writes one and reads it back.
- Test vectors that are not proved as example lemmas, because evaluating their literal inputs exceeds the verifier's resource budget; the general contracts named cover what they check:
  - the module-level asserts of day7.py:111-117 (`Day7.TypeOfByLargestGroup`, `Day7.GroupsByLargest`);
  - the `Card.from_line` vector of tests/test_day4.py:7-14 (`Day4.CardLineRoundTrip`, `Day4.CardFromCollapsedLine`);
  - the day 8 `parse_input` vector of tests/test_day8.py:11-40 (`Day8.ParseInputText`; the two walks of tests/test_day8.py:43-69 are `Day8.StepsExamples`);
  - the day 9 example input of tests/test_day9.py:27-30;
  - the day 12 example total of 21 (tests/test_day12.py:91-110) and the `get_rows_passed` vectors other than the group sizes (tests/test_day12.py:66-87);
  - the day 13 patterns from tests/test_day13.py:39 onward, such as `(None, 10)` and `(None, 2)`;
  - day 18's `get_grid` (tests/test_day18.py:35-75), `inside_trench` (tests/test_day18.py:94-120) and `fill_grid` (tests/test_day18.py:124-160) vectors.

## Findings

| source | as written | input that shows it | evidently intended | confidence | as-written member | corrected member |
|---|---|---|---|---|---|---|
| adventofcode2023/days/day3.py:32-47 | after reading a number, `update_list_inplace(start_idx, end_idx)` overwrites the cell before the digits too, and when the number starts the row `start_idx` is -1 and nothing before it is touched while `chars[-1]`, the row's last cell, is overwritten | the schematic `*.` / `#1` / `2.`: reading `1` erases `#`, so the part number `2` is lost and the sum is 1 | erase only the digits (`start_idx + 1` to `end_idx`), giving the sum 3 | not executed | Day3.ScanAsWrittenLosesPartNumber | Day3.ScanFixedKeepsPartNumber |
| adventofcode2023/days/day5.py:243 | `solve_part_one` returns `.number`, the seed whose location is lowest | one seed, 79, mapped to location 0: the answer is 79 | the lowest location, 0 | not executed | Day5.AnswerAsWrittenReportsSeed | Day5.AnswerIsLowestLocation |
| adventofcode2023/days/day10.py:19 | the test `x > 0` skips an `S` found in column 0 | the grid `S7` / `LJ` raises ValueError | `x >= 0`, giving the start (0, 0) | not executed | Day10.StartAsWrittenMissesColumnZero | Day10.StartIsFirstS |
| adventofcode2023/days/day14.py:117 | the load is scored with `platform.shape[1]`, the width, as the height of the platform | the platform `O` / `.`: the printed load is 1 | the number of rows, giving the load 2 of the tilted platform | not executed | Day14.PrintedLoadMissesTallPlatform | Day14.NorthLoadIsTiltedLoad |
| adventofcode2023/days/day16.py:127-136 | the edge beams take `range(columns)` for the left and right sides, `range(rows)` for the top, and start the bottom beams at `Point(rows, x)`, in column `rows`: outside the grid when it has at least as many rows as columns, while on a wider grid these beams start at cells inside it | the grid `-.` / `..`: the answer is at most 2 | one beam into every border cell, so the beam entering upward at the bottom-left cell gives at least 3 | not executed | Day16.AsWrittenMissesBestStart | Day16.PartTwoCoversEveryEntry |
