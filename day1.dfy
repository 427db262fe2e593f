/** Day 1: calibration values built from the first and last digit of each
    line, where part two also reads the spelled-out words `one`..`nine`
    (adventofcode2023/days/day1.py). */
module Day1 {
  import opened Wrappers
  import opened Text
  import opened Sums

  /** `DIGITS`: the word at index `d` spells the digit `d + 1`. */
  const Words: seq<string> := ["one", "two", "three", "four", "five", "six", "seven", "eight", "nine"]

  // ---------------------------------------------------------------------------
  // What counts as a digit at a position

  /** The first of `Words[..k]` that occurs at index `i` of `line`, by its index
      (`line[i:i+len(w)] == w` is `OccursAt`, slices being clipped at the end). */
  function FirstWordMatch(line: string, i: nat, k: nat): (r: Option<nat>)
    requires k <= |Words|
    ensures r.Some? ==> r.value < k && OccursAt(line, Words[r.value], i)
  {
    if k == 0 then None
    else match FirstWordMatch(line, i, k - 1) {
      case Some(d) => Some(d)
      case None => if OccursAt(line, Words[k - 1], i) then Some(k - 1) else None
    }
  }

  /** No word before the one found occurs at `i`, and when none is found no
      word of `Words[..k]` occurs there. */
  lemma {:induction false} FirstWordMatchIsFirst(line: string, i: nat, k: nat)
    requires k <= |Words|
    ensures FirstWordMatch(line, i, k).Some? ==>
      forall d :: 0 <= d < FirstWordMatch(line, i, k).value ==> !OccursAt(line, Words[d], i)
    ensures FirstWordMatch(line, i, k).None? ==> forall d :: 0 <= d < k ==> !OccursAt(line, Words[d], i)
  {
    if k > 0 {
      FirstWordMatchIsFirst(line, i, k - 1);
    }
  }

  /** The last of `Words[..k]` that occurs at index `i`: what a loop over the
      words without a `break` keeps. */
  function LastWordMatch(line: string, i: nat, k: nat): (r: Option<nat>)
    requires k <= |Words|
    ensures r.Some? ==> r.value < k && OccursAt(line, Words[r.value], i)
  {
    if k == 0 then None
    else if OccursAt(line, Words[k - 1], i) then Some(k - 1)
    else LastWordMatch(line, i, k - 1)
  }

  /** No word after the one kept occurs at `i`, and when none is kept no word
      of `Words[..k]` occurs there. */
  lemma {:induction false} LastWordMatchIsLast(line: string, i: nat, k: nat)
    requires k <= |Words|
    ensures LastWordMatch(line, i, k).Some? ==>
      forall d :: LastWordMatch(line, i, k).value < d < k ==> !OccursAt(line, Words[d], i)
    ensures LastWordMatch(line, i, k).None? ==> forall d :: 0 <= d < k ==> !OccursAt(line, Words[d], i)
  {
    if k > 0 {
      LastWordMatchIsLast(line, i, k - 1);
    }
  }

  /** No two digit words can start at the same index: their first two letters
      already tell them apart. */
  lemma WordsMatchAtMostOnce(line: string, i: nat, a: nat, b: nat)
    requires a < |Words| && b < |Words|
    requires OccursAt(line, Words[a], i) && OccursAt(line, Words[b], i)
    ensures a == b
  {
    assert line[i] == Words[a][0] == Words[b][0] by {
      assert line[i..i + |Words[a]|][0] == line[i];
      assert line[i..i + |Words[b]|][0] == line[i];
    }
    assert line[i + 1] == Words[a][1] == Words[b][1] by {
      assert line[i..i + |Words[a]|][1] == line[i + 1];
      assert line[i..i + |Words[b]|][1] == line[i + 1];
    }
  }

  /** So a scan that stops at the first matching word and one that keeps the
      last matching word find the same word. */
  lemma FirstAndLastWordMatchAgree(line: string, i: nat)
    ensures FirstWordMatch(line, i, |Words|) == LastWordMatch(line, i, |Words|)
  {
    var f, l := FirstWordMatch(line, i, |Words|), LastWordMatch(line, i, |Words|);
    FirstWordMatchIsFirst(line, i, |Words|);
    LastWordMatchIsLast(line, i, |Words|);
    if f.Some? && l.Some? {
      WordsMatchAtMostOnce(line, i, f.value, l.value);
    }
  }

  /** The digit read at index `i`: the character itself when it is a digit,
      else (when `words` is set) the value of a digit word starting there. */
  function Hit(line: string, i: nat, words: bool): (r: Option<char>)
    requires i < |line|
    ensures r.Some? ==> IsDigit(r.value)
    ensures IsDigit(line[i]) ==> r == Some(line[i])
    ensures !words ==> (r.Some? <==> IsDigit(line[i]))
  {
    if IsDigit(line[i]) then Some(line[i])
    else if !words then None
    else match FirstWordMatch(line, i, |Words|) {
      case None => None
      case Some(d) => Some(DigitChar(d + 1))
    }
  }

  /** The first index at or after `from` where a digit is read. */
  function FirstHit(line: string, from: nat, words: bool): (r: Option<nat>)
    ensures r.Some? ==> from <= r.value < |line| && Hit(line, r.value, words).Some?
    decreases |line| - from
  {
    if from >= |line| then None
    else if Hit(line, from, words).Some? then Some(from)
    else FirstHit(line, from + 1, words)
  }

  /** No digit is read between `from` and the first hit, nor anywhere from
      `from` on when there is none. */
  lemma {:induction false} FirstHitIsFirst(line: string, from: nat, words: bool)
    ensures FirstHit(line, from, words).Some? ==>
      forall j :: from <= j < FirstHit(line, from, words).value ==> Hit(line, j, words).None?
    ensures FirstHit(line, from, words).None? ==> forall j :: from <= j < |line| ==> Hit(line, j, words).None?
    decreases |line| - from
  {
    if from < |line| && Hit(line, from, words).None? {
      FirstHitIsFirst(line, from + 1, words);
    }
  }

  /** The last index below `k` where a digit is read. */
  function LastHitBelow(line: string, k: nat, words: bool): (r: Option<nat>)
    requires k <= |line|
    ensures r.Some? ==> r.value < k && Hit(line, r.value, words).Some?
  {
    if k == 0 then None
    else if Hit(line, k - 1, words).Some? then Some(k - 1)
    else LastHitBelow(line, k - 1, words)
  }

  /** No digit is read between the last hit and `k`, nor anywhere below `k`
      when there is none. */
  lemma {:induction false} LastHitBelowIsLast(line: string, k: nat, words: bool)
    requires k <= |line|
    ensures LastHitBelow(line, k, words).Some? ==>
      forall j :: LastHitBelow(line, k, words).value < j < k ==> Hit(line, j, words).None?
    ensures LastHitBelow(line, k, words).None? ==> forall j :: 0 <= j < k ==> Hit(line, j, words).None?
  {
    if k > 0 && Hit(line, k - 1, words).None? {
      LastHitBelowIsLast(line, k - 1, words);
    }
  }

  /** The digit read at the last hit below `k`, if there is one. */
  function LastHitDigit(line: string, k: nat, words: bool): Option<char>
    requires k <= |line|
  {
    match LastHitBelow(line, k, words) {
      case None => None
      case Some(j) => Hit(line, j, words)
    }
  }

  // ---------------------------------------------------------------------------
  // A line's calibration value

  /** One line: the first digit read, then the last digit read strictly after
      it (or the first again), as a two-digit number.  Without a digit part
      one fails its `assert`, and part two adds `None + 1` (a TypeError). */
  function LineValue(line: string, words: bool): Result<nat> {
    match FirstHit(line, 0, words) {
      case None => Err(if words then TypeError else AssertionError)
      case Some(i) => Ok(ValueFrom(line, i, words))
    }
  }

  /** The two-digit number made of the digit read at `i` and the last digit
      read after `i`, or the digit at `i` twice when there is none after it. */
  function ValueFrom(line: string, i: nat, words: bool): nat
    requires i < |line| && Hit(line, i, words).Some?
  {
    var first := Hit(line, i, words).value;
    var rest := line[i + 1..];
    var last := match LastHitDigit(rest, |rest|, words) {
      case None => first
      case Some(c) => c
    };
    10 * DigitValue(first) + DigitValue(last)
  }

  lemma ValueFromUnfold(line: string, i: nat, words: bool)
    requires i < |line| && Hit(line, i, words).Some?
    ensures LastHitDigit(line[i + 1..], |line| - (i + 1), words).None? ==>
      ValueFrom(line, i, words) == 11 * DigitValue(Hit(line, i, words).value)
    ensures LastHitDigit(line[i + 1..], |line| - (i + 1), words).Some? ==>
      ValueFrom(line, i, words) == 10 * DigitValue(Hit(line, i, words).value)
        + DigitValue(LastHitDigit(line[i + 1..], |line| - (i + 1), words).value)
  {
  }

  /** A suffix reads the same digits as the line it was cut from. */
  lemma HitInSuffix(line: string, s: nat, j: nat, words: bool)
    requires s <= |line| && j < |line| - s
    ensures Hit(line[s..], j, words) == Hit(line, s + j, words)
  {
    var rest := line[s..];
    assert rest[j] == line[s + j];
    WordMatchInSuffix(line, s, j, |Words|);
  }

  lemma {:induction false} WordMatchInSuffix(line: string, s: nat, j: nat, k: nat)
    requires s <= |line| && k <= |Words|
    ensures FirstWordMatch(line[s..], j, k) == FirstWordMatch(line, s + j, k)
  {
    if k > 0 {
      WordMatchInSuffix(line, s, j, k - 1);
      OccursAtInSuffix(line, Words[k - 1], s, j);
    }
  }

  /** The last hit of a suffix is the last hit of the line, when that lies in
      the suffix. */
  lemma LastHitInSuffix(line: string, s: nat, words: bool)
    requires s <= |line|
    ensures LastHitBelow(line[s..], |line| - s, words) ==
      match LastHitBelow(line, |line|, words) {
        case None => None
        case Some(l) => if l >= s then Some(l - s) else None
      }
  {
    var rest := line[s..];
    forall j | 0 <= j < |rest| ensures Hit(rest, j, words) == Hit(line, s + j, words) {
      HitInSuffix(line, s, j, words);
    }
    var m := LastHitBelow(rest, |rest|, words);
    var l := LastHitBelow(line, |line|, words);
    LastHitBelowIsLast(rest, |rest|, words);
    LastHitBelowIsLast(line, |line|, words);
    assert l.None? || l.value < s || m.Some? by {
      if l.Some? && l.value >= s {
        assert Hit(rest, l.value - s, words).Some?;
      }
    }
    if m.Some? {
      assert Hit(line, s + m.value, words).Some?;
      assert l.Some? && l.value >= s + m.value;
      assert Hit(rest, l.value - s, words).Some?;
    }
  }

  /** The calibration value is made of the first digit of the line and the last
      digit of the whole line. */
  lemma LineValueIsFirstAndLast(line: string, words: bool)
    requires FirstHit(line, 0, words).Some?
    ensures LastHitBelow(line, |line|, words).Some?
    ensures LineValue(line, words) ==
      Ok(10 * DigitValue(Hit(line, FirstHit(line, 0, words).value, words).value)
         + DigitValue(LastHitDigit(line, |line|, words).value))
  {
    var i := FirstHit(line, 0, words).value;
    LastDigitOfRest(line, i, words);
  }

  /** The last digit after the first hit `i` is the last digit of the line, if
      there is one after `i`; otherwise the last digit is the one at `i`. */
  lemma LastDigitOfRest(line: string, i: nat, words: bool)
    requires i < |line| && Hit(line, i, words).Some?
    ensures LastHitBelow(line, |line|, words).Some?
    ensures ValueFrom(line, i, words) ==
      10 * DigitValue(Hit(line, i, words).value) + DigitValue(LastHitDigit(line, |line|, words).value)
  {
    var l := LastHitBelow(line, |line|, words);
    assert l.Some? && l.value >= i by {
      LastHitBelowIsLast(line, |line|, words);
    }
    var rest := line[i + 1..];
    var first := Hit(line, i, words).value;
    ValueFromUnfold(line, i, words);
    if l.value == i {
      assert LastHitDigit(rest, |rest|, words).None? by {
        LastHitDigitInSuffix(line, i + 1, words);
      }
      assert ValueFrom(line, i, words) == 11 * DigitValue(first);
      assert LastHitDigit(line, |line|, words) == Some(first);
    } else {
      assert LastHitDigit(rest, |rest|, words) == LastHitDigit(line, |line|, words) by {
        LastHitDigitInSuffix(line, i + 1, words);
      }
    }
  }

  /** The last digit of a suffix is the last digit of the line, when that lies
      in the suffix, and there is none otherwise. */
  lemma LastHitDigitInSuffix(line: string, s: nat, words: bool)
    requires s <= |line|
    ensures LastHitBelow(line, |line|, words).Some? && LastHitBelow(line, |line|, words).value >= s ==>
      LastHitDigit(line[s..], |line| - s, words) == LastHitDigit(line, |line|, words)
    ensures LastHitBelow(line, |line|, words).None? || LastHitBelow(line, |line|, words).value < s ==>
      LastHitDigit(line[s..], |line| - s, words).None?
  {
    LastHitInSuffix(line, s, words);
    var l := LastHitBelow(line, |line|, words);
    if l.Some? && l.value >= s {
      HitInSuffix(line, s, l.value - s, words);
    }
  }

  // ---------------------------------------------------------------------------
  // The scans of the source

  /** `_find_first_digit`: the first digit (character or word) and its index,
      or `(None, None)`. */
  method FindFirstDigit(line: string) returns (d1: Option<char>, idx1: Option<nat>)
    ensures idx1 == FirstHit(line, 0, true)
    ensures idx1.Some? ==> d1 == Hit(line, idx1.value, true)
    ensures idx1.None? ==> d1.None?
  {
    var idx := 0;
    while idx < |line|
      invariant 0 <= idx <= |line|
      invariant forall j :: 0 <= j < idx ==> Hit(line, j, true).None?
    {
      if IsDigit(line[idx]) {
        FirstHitIs(line, 0, idx, true);
        return Some(line[idx]), Some(idx);
      }
      var w := MatchWordAt(line, idx);
      if w.Some? {
        FirstHitIs(line, 0, idx, true);
        return Some(DigitChar(w.value + 1)), Some(idx);
      }
      idx := idx + 1;
    }
    return None, None;
  }

  /** The loop over `DIGITS` in `_find_first_digit`, which stops at the first
      word found at `idx`. */
  method MatchWordAt(line: string, idx: nat) returns (w: Option<nat>)
    ensures w == FirstWordMatch(line, idx, |Words|)
  {
    for d := 0 to |Words|
      invariant FirstWordMatch(line, idx, d).None?
    {
      if OccursAt(line, Words[d], idx) {
        assert FirstWordMatch(line, idx, d + 1) == Some(d);
        FirstWordMatchExtends(line, idx, d + 1, |Words|);
        return Some(d);
      }
    }
    return None;
  }

  /** A hit with no hit before it (from `from` on) is the first hit. */
  lemma FirstHitIs(line: string, from: nat, i: nat, words: bool)
    requires from <= i < |line| && Hit(line, i, words).Some?
    requires forall j :: from <= j < i ==> Hit(line, j, words).None?
    ensures FirstHit(line, from, words) == Some(i)
    decreases i - from
  {
    if from < i {
      FirstHitIs(line, from + 1, i, words);
    }
  }

  /** Once a word is found among the first `k`, looking at more words keeps it. */
  lemma {:induction false} FirstWordMatchExtends(line: string, i: nat, k: nat, n: nat)
    requires k <= n <= |Words|
    requires FirstWordMatch(line, i, k).Some?
    ensures FirstWordMatch(line, i, n) == FirstWordMatch(line, i, k)
    decreases n - k
  {
    if k < n {
      FirstWordMatchExtends(line, i, k, n - 1);
    }
  }

  /** `_find_second_digit`: the last digit (character or word) of the string,
      or None. */
  method FindSecondDigit(lineIncr: string) returns (d1: Option<char>)
    ensures d1 == LastHitDigit(lineIncr, |lineIncr|, true)
  {
    d1 := None;
    for idx := 0 to |lineIncr|
      invariant d1 == LastHitDigit(lineIncr, idx, true)
    {
      LastHitDigitStep(lineIncr, idx, true);
      if IsDigit(lineIncr[idx]) {
        d1 := Some(lineIncr[idx]);
      } else {
        var w := LastWordAt(lineIncr, idx);
        FirstAndLastWordMatchAgree(lineIncr, idx);
        if w.Some? {
          d1 := Some(DigitChar(w.value + 1));
        }
      }
    }
  }

  /** The loop over `DIGITS` in `_find_second_digit`, which has no `break` and
      so keeps the last word found at `idx`. */
  method LastWordAt(line: string, idx: nat) returns (w: Option<nat>)
    ensures w == LastWordMatch(line, idx, |Words|)
  {
    w := None;
    for d := 0 to |Words|
      invariant w == LastWordMatch(line, idx, d)
    {
      if OccursAt(line, Words[d], idx) {
        w := Some(d);
      }
    }
  }

  lemma LastHitDigitStep(line: string, k: nat, words: bool)
    requires k < |line|
    ensures LastHitDigit(line, k + 1, words) ==
      if Hit(line, k, words).Some? then Hit(line, k, words) else LastHitDigit(line, k, words)
  {
  }

  /** One line of part one: the first digit character, asserted to exist, and
      the last digit character after it. */
  method LineValuePartOne(line: string) returns (r: Result<nat>)
    ensures r == LineValue(line, false)
  {
    var idx1: Option<nat> := None;
    var idx := 0;
    while idx < |line|
      invariant 0 <= idx <= |line|
      invariant idx1.None? ==> forall j :: 0 <= j < idx ==> !IsDigit(line[j])
      invariant idx1.Some? ==> idx1 == Some(idx) && idx < |line| && IsDigit(line[idx])
    {
      if IsDigit(line[idx]) {
        idx1 := Some(idx);
        break;
      }
      idx := idx + 1;
    }
    if idx1.None? {
      return Err(AssertionError);
    }
    var i := idx1.value;
    FirstHitIs(line, 0, i, false);
    var rest := line[i + 1..];
    var idx2: Option<nat> := None;
    for k := 0 to |rest|
      invariant idx2 == match LastHitBelow(rest, k, false) {
        case None => None
        case Some(j) => Some(j + i + 1)
      }
    {
      if IsDigit(rest[k]) {
        idx2 := Some(k + i + 1);
      }
    }
    var j := if idx2.None? then i else idx2.value;
    r := Ok(10 * DigitValue(line[i]) + DigitValue(line[j]));
  }

  /** One line of part two: the first digit or word, then the last one in the
      rest of the line, falling back to the first. */
  method LineValuePartTwo(line: string) returns (r: Result<nat>)
    ensures r == LineValue(line, true)
  {
    var d1, startIdx := FindFirstDigit(line);
    if startIdx.None? {
      return Err(TypeError);
    }
    var lineIncr := line[startIdx.value + 1..];
    var d2 := FindSecondDigit(lineIncr);
    if d2.None? {
      d2 := d1;
    }
    r := Ok(10 * DigitValue(d1.value) + DigitValue(d2.value));
    ValueFromUnfold(line, startIdx.value, true);
  }

  // ---------------------------------------------------------------------------
  // Both parts

  /** The value a line adds in each part. */
  function PartOneValue(line: string): Result<int> {
    LineValue(line, false)
  }

  function PartTwoValue(line: string): Result<int> {
    LineValue(line, true)
  }

  /** The answer of either part: the sum of the line values, failing at the
      first line that fails. */
  function Solve(input: string, words: bool): Result<int> {
    var lines := Split(input, "\n");
    Total(if words then Map(PartTwoValue, lines) else Map(PartOneValue, lines))
  }

  method PartOneValueAt(lines: seq<string>, k: nat) returns (v: Result<int>)
    requires k < |lines|
    ensures v == Map(PartOneValue, lines)[k]
  {
    v := LineValuePartOne(lines[k]);
    MapAt(PartOneValue, lines, k);
  }

  method PartTwoValueAt(lines: seq<string>, k: nat) returns (v: Result<int>)
    requires k < |lines|
    ensures v == Map(PartTwoValue, lines)[k]
  {
    v := LineValuePartTwo(lines[k]);
    MapAt(PartTwoValue, lines, k);
  }

  /** `solve_part_one`: the loop over the lines, collecting and summing the
      calibration values. */
  method SolvePartOne(input: string) returns (r: Result<int>)
    ensures r == Solve(input, false)
  {
    var lines := Split(input, "\n");
    ghost var values := Map(PartOneValue, lines);
    var total := 0;
    for k := 0 to |lines|
      invariant Total(values) == AddTo(total, Total(values[k..]))
    {
      var v := PartOneValueAt(lines, k);
      TotalStep(values, k, total, v);
      if v.Err? {
        return Err(v.failure);
      }
      total := total + v.value;
    }
    TotalDone(values, total);
    r := Ok(total);
  }

  /** `solve_part_two`: the same loop with the digit words. */
  method SolvePartTwo(input: string) returns (r: Result<int>)
    ensures r == Solve(input, true)
  {
    var lines := Split(input, "\n");
    ghost var values := Map(PartTwoValue, lines);
    var total := 0;
    for k := 0 to |lines|
      invariant Total(values) == AddTo(total, Total(values[k..]))
    {
      var v := PartTwoValueAt(lines, k);
      TotalStep(values, k, total, v);
      if v.Err? {
        return Err(v.failure);
      }
      total := total + v.value;
    }
    TotalDone(values, total);
    r := Ok(total);
  }

  /** Every digit word has at least three letters and starts with one of
      `o t f s e n`. */
  lemma WordShape()
    ensures forall d :: 0 <= d < |Words| ==> |Words[d]| >= 3 && Words[d][0] in "otfsen"
  {
  }

  /** The cases of the test suite. */
  lemma FirstDigitExamples()
    ensures FirstHit("two1nine", 0, true) == Some(0) && Hit("two1nine", 0, true) == Some('2')
    ensures FirstHit("4nineeightseven2", 0, true) == Some(0) && Hit("4nineeightseven2", 0, true) == Some('4')
  {
    var s := "two1nine";
    assert s[0..3] == Words[1];
    assert !OccursAt(s, Words[0], 0) by { assert s[0..3][0] != Words[0][0]; }
    assert FirstWordMatch(s, 0, 2) == Some(1);
    FirstWordMatchExtends(s, 0, 2, |Words|);
  }

  lemma SecondDigitExampleTwo()
    ensures LastHitDigit("4nineeightseven2", 16, true) == Some('2')
  {
  }

  lemma SecondDigitExampleOne()
    ensures LastHitDigit("two1nine", 8, true) == Some('9')
  {
    var s := "two1nine";
    WordShape();
    assert s[4..8] == Words[8];
    assert forall d :: 0 <= d < 8 ==> !OccursAt(s, Words[d], 4);
    assert FirstWordMatch(s, 4, |Words|) == Some(8);
    assert forall j, d :: 4 < j < 8 && 0 <= d < |Words| ==> !OccursAt(s, Words[d], j);
    assert LastHitBelow(s, 8, true) == Some(4);
  }
}
