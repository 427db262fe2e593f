/** Day 9: extrapolating sequences through their difference tables, and the
    Euclidean gcd helper (adventofcode2023/days/day9.py). */
module Day9 {
  import opened Wrappers
  import Text

  // ---------------------------------------------------------------------------
  // gcd

  /** Euclid's algorithm as a recursive definition: while `b > 0` replace
      `(a, b)` by `(b, a % b)`.  For `b > 0` Python's `%` agrees with Dafny's. */
  function Gcd(a: int, b: int): int
    decreases if b > 0 then b else 0
  {
    if b > 0 then Gcd(b, a % b) else a
  }

  /** `gcd` as the source computes it, with a loop over two variables. */
  method ComputeGcd(a0: int, b0: int) returns (r: int)
    ensures r == Gcd(a0, b0)
    ensures b0 <= 0 ==> r == a0
  {
    var a, b := a0, b0;
    while b > 0
      invariant Gcd(a, b) == Gcd(a0, b0)
      decreases if b > 0 then b else 0
    {
      a, b := b, a % b;
    }
    r := a;
  }

  function Mul(x: int, y: int): int { x * y }

  /** `d` divides `n`: `n` is an integer multiple of `d`. */
  ghost predicate Divides(d: int, n: int) {
    exists k :: Mul(d, k) == n
  }

  /** A multiple of `d` plus a multiple of `d` is a multiple of `d`. */
  lemma DividesCombination(d: int, x: int, y: int, q: int)
    requires Divides(d, x) && Divides(d, y)
    ensures Divides(d, q * x + y)
  {
    var kx :| Mul(d, kx) == x;
    var ky :| Mul(d, ky) == y;
    assert q * x == d * (q * kx);
    assert Mul(d, q * kx + ky) == q * x + y;
  }

  /** For non-negative `a`, `b` that are not both zero, `gcd(a, b)` is the greatest
      common divisor: it is positive, divides both, and every common divisor
      divides it. */
  lemma {:induction false} GcdIsGreatestCommonDivisor(a: int, b: int)
    requires a >= 0 && b >= 0 && (a > 0 || b > 0)
    ensures Gcd(a, b) > 0
    ensures Divides(Gcd(a, b), a) && Divides(Gcd(a, b), b)
    ensures forall d :: Divides(d, a) && Divides(d, b) ==> Divides(d, Gcd(a, b))
    decreases b
  {
    if b > 0 {
      var q, r := a / b, a % b;
      var g := Gcd(b, r);
      GcdIsGreatestCommonDivisor(b, r);
      assert a == q * b + r;
      DividesCombination(g, b, r, q);
      forall d | Divides(d, a) && Divides(d, b)
        ensures Divides(d, g)
      {
        DividesCombination(d, b, a, -q);
        assert r == -q * b + a;
      }
    } else {
      assert Mul(a, 1) == a;
      assert Mul(a, 0) == 0;
    }
  }

  // ---------------------------------------------------------------------------
  // Difference tables

  /** The differences of neighbouring elements; empty for a sequence of
      fewer than two elements (`range(len(seq) - 1)` is empty then). */
  function Differences(s: seq<int>): (d: seq<int>)
    ensures |d| == if |s| == 0 then 0 else |s| - 1
    ensures forall i :: 0 <= i < |d| ==> d[i] == s[i + 1] - s[i]
  {
    if |s| <= 1 then [] else seq(|s| - 1, i requires 0 <= i < |s| - 1 => s[i + 1] - s[i])
  }

  predicate AllZero(s: seq<int>) {
    forall i :: 0 <= i < |s| ==> s[i] == 0
  }

  /** `get_last_value`: 0 for an empty or all-zero sequence, otherwise the last
      element plus the prediction for the difference sequence, which is one
      element shorter. */
  function NextValue(s: seq<int>): (v: int)
    ensures AllZero(s) ==> v == 0
    ensures |s| == 1 ==> v == s[0]
    decreases |s|
  {
    if AllZero(s) then 0 else s[|s| - 1] + NextValue(Differences(s))
  }

  /** The prediction extends the difference table consistently: the differences
      of `s` followed by its prediction are the differences of `s` followed by
      their own prediction. */
  lemma ExtrapolationExtendsTable(s: seq<int>)
    requires |s| >= 1
    ensures Differences(s + [NextValue(s)]) == Differences(s) + [NextValue(Differences(s))]
  {
    var d := Differences(s);
    var m := NextValue(d);
    var n := NextValue(s);
    if AllZero(s) {
      assert AllZero(d);
      assert s[|s| - 1] == 0;
    }
    assert n - s[|s| - 1] == m;
    AppendDifference(s, n, m);
  }

  /** Appending `x` appends the difference `y` when `y` is `x` minus the old
      last element. */
  lemma AppendDifference(s: seq<int>, x: int, y: int)
    requires |s| >= 1 && x - s[|s| - 1] == y
    ensures Differences(s + [x]) == Differences(s) + [y]
  {
    DifferencesAppend(s, x);
  }

  /** Appending `x` appends one difference, `x` minus the old last element. */
  lemma DifferencesAppend(s: seq<int>, x: int)
    requires |s| >= 1
    ensures Differences(s + [x]) == Differences(s) + [x - s[|s| - 1]]
  {
    var t := s + [x];
    var lhs, rhs := Differences(t), Differences(s) + [x - s[|s| - 1]];
    forall i | 0 <= i < |lhs| ensures lhs[i] == rhs[i] {
      assert t[i] == s[i];
      if i < |s| - 1 {
        assert t[i + 1] == s[i + 1];
      }
    }
  }

  /** A sequence of `n >= 1` copies of `c` predicts `c`. */
  lemma ConstantPredictsItself(s: seq<int>, c: int)
    requires |s| >= 1 && forall i :: 0 <= i < |s| ==> s[i] == c
    ensures NextValue(s) == c
  {
    if c != 0 {
      assert !AllZero(s) by { assert s[0] != 0; }
      assert AllZero(Differences(s));
    }
  }

  /** An arithmetic progression of at least two elements predicts the next term
      of the progression. */
  lemma ProgressionPredictsNextTerm(s: seq<int>, step: int)
    requires |s| >= 2 && forall i :: 0 <= i < |s| - 1 ==> s[i + 1] - s[i] == step
    ensures NextValue(s) == s[|s| - 1] + step
  {
    ConstantPredictsItself(Differences(s), step);
    if AllZero(s) {
      assert step == s[1] - s[0] == 0;
    }
  }

  /** The three sequences of the test suite. */
  lemma NextValueExampleOne()
    ensures NextValue([0, 3, 6, 9, 12, 15]) == 18
  {
    ProgressionPredictsNextTerm([0, 3, 6, 9, 12, 15], 3);
  }

  lemma NextValueExampleTwo()
    ensures NextValue([1, 3, 6, 10, 15, 21]) == 28
  {
    var b := [1, 3, 6, 10, 15, 21];
    var b1 := [2, 3, 4, 5, 6];
    assert Differences(b) == b1;
    ProgressionPredictsNextTerm(b1, 1);
    assert !AllZero(b) by { assert b[0] != 0; }
  }

  lemma NextValueExampleThree()
    ensures NextValue([10, 13, 16, 21, 30, 45]) == 68
  {
    var c := [10, 13, 16, 21, 30, 45];
    var c1 := [3, 3, 5, 9, 15];
    assert Differences(c) == c1;
    SecondRowOfExampleThree();
    assert !AllZero(c) by { assert c[0] != 0; }
  }

  lemma SecondRowOfExampleThree()
    ensures NextValue([3, 3, 5, 9, 15]) == 23
  {
    var c1 := [3, 3, 5, 9, 15];
    var c2 := [0, 2, 4, 6];
    assert Differences(c1) == c2;
    ProgressionPredictsNextTerm(c2, 2);
    assert !AllZero(c1) by { assert c1[0] != 0; }
  }

  // ---------------------------------------------------------------------------
  // Both parts

  function Reverse(s: seq<int>): (r: seq<int>)
    ensures |r| == |s| && forall i :: 0 <= i < |s| ==> r[i] == s[|s| - 1 - i]
  {
    if s == [] then [] else Reverse(s[1..]) + [s[0]]
  }

  /** Part two predicts backwards: for a progression the value before the
      first term. */
  lemma ReversedProgressionPredictsPreviousTerm(s: seq<int>, step: int)
    requires |s| >= 2 && forall i :: 0 <= i < |s| - 1 ==> s[i + 1] - s[i] == step
    ensures NextValue(Reverse(s)) == s[0] - step
  {
    var r := Reverse(s);
    forall i | 0 <= i < |r| - 1 ensures r[i + 1] - r[i] == -step {
      assert r[i] == s[|s| - 1 - i];
      assert r[i + 1] == s[|s| - 1 - i - 1];
    }
    ProgressionPredictsNextTerm(r, -step);
  }

  /** The non-empty lines of the input, each split on whitespace and parsed;
      a non-empty line holding something other than numbers raises
      ValueError. */
  function ParseSequences(lines: seq<string>): (r: Result<seq<seq<int>>>)
    ensures r.Ok? ==> |r.value| <= |lines|
    ensures r.Err? <==> exists i :: 0 <= i < |lines| && lines[i] != [] && Text.ParseInts(Text.SplitWs(lines[i])).None?
    ensures r.Err? ==> r.failure == ValueError
  {
    if lines == [] then Ok([])
    else if lines[0] == [] then ParseSequences(lines[1..])
    else match (Text.ParseInts(Text.SplitWs(lines[0])), ParseSequences(lines[1..])) {
      case (None, _) => Err(ValueError)
      case (_, Err(e)) => Err(e)
      case (Some(s), Ok(rest)) => Ok([s] + rest)
    }
  }

  function SumNext(seqs: seq<seq<int>>, backwards: bool): int {
    if seqs == [] then 0
    else NextValue(if backwards then Reverse(seqs[0]) else seqs[0]) + SumNext(seqs[1..], backwards)
  }

  /** Part one sums the predictions of every sequence; part two sums the
      predictions of every reversed sequence. */
  function Solve(input: string, backwards: bool): (r: Result<int>)
    ensures r.Err? ==> r.failure == ValueError
  {
    match ParseSequences(Text.Split(input, "\n")) {
      case Err(e) => Err(e)
      case Ok(seqs) => Ok(SumNext(seqs, backwards))
    }
  }

  /** Each sequence contributes its own prediction: the sum over a list of
      sequences is the sum over its halves. */
  lemma {:induction false} SumNextAppend(a: seq<seq<int>>, b: seq<seq<int>>, backwards: bool)
    ensures SumNext(a + b, backwards) == SumNext(a, backwards) + SumNext(b, backwards)
  {
    if a != [] {
      assert (a + b)[0] == a[0];
      assert (a + b)[1..] == a[1..] + b;
      SumNextAppend(a[1..], b, backwards);
    } else {
      assert a + b == b;
    }
  }

  // ---------------------------------------------------------------------------
  // Reading back what was written

  /** A sequence of natural numbers written as its numerals separated by
      single spaces. */
  function Line(s: seq<int>): string
    requires |s| >= 1 && forall j :: 0 <= j < |s| ==> s[j] >= 0
  {
    Text.Join(Text.Numerals(s), " ")
  }

  /** Sequences that can be written as lines: none empty, no number negative. */
  predicate Writable(seqs: seq<seq<int>>) {
    forall i :: 0 <= i < |seqs| ==> |seqs[i]| >= 1 && forall j :: 0 <= j < |seqs[i]| ==> seqs[i][j] >= 0
  }

  /** The line of each sequence, in order. */
  function Lines(seqs: seq<seq<int>>): (r: seq<string>)
    requires Writable(seqs)
    ensures |r| == |seqs| && forall i :: 0 <= i < |seqs| ==> r[i] == Line(seqs[i])
  {
    seq(|seqs|, i requires 0 <= i < |seqs| => Line(seqs[i]))
  }

  /** A written line is not empty, holds no line break, and splits and
      parses back into its sequence. */
  lemma ReadLine(s: seq<int>)
    requires |s| >= 1 && forall j :: 0 <= j < |s| ==> s[j] >= 0
    ensures |Line(s)| > 0
    ensures forall j :: 0 <= j < |Line(s)| ==> Line(s)[j] != '\n'
    ensures Text.ParseInts(Text.SplitWs(Line(s))) == Some(s)
  {
    Text.JoinedNumerals(s);
    Text.JoinedNumeralsLack(s, '\n');
    Text.NumeralsAreWords(s);
    Text.SplitWsOfJoin(Text.Numerals(s));
    Text.ParseIntsNumerals(s);
  }

  /** The written lines parse back into the sequences. */
  lemma {:induction false} ParseSequencesOfLines(seqs: seq<seq<int>>)
    requires Writable(seqs)
    ensures ParseSequences(Lines(seqs)) == Ok(seqs)
  {
    if seqs != [] {
      ReadLine(seqs[0]);
      assert Lines(seqs)[1..] == Lines(seqs[1..]);
      ParseSequencesOfLines(seqs[1..]);
      assert seqs == [seqs[0]] + seqs[1..];
    }
  }

  /** Both parts on the written lines sum the predictions of the sequences
      written, read forwards or backwards. */
  lemma SolveOfLines(seqs: seq<seq<int>>, backwards: bool)
    requires |seqs| >= 1 && Writable(seqs)
    ensures Solve(Text.Join(Lines(seqs), "\n"), backwards) == Ok(SumNext(seqs, backwards))
  {
    var ls := Lines(seqs);
    forall k, j | 0 <= k < |ls| && 0 <= j < |ls[k]| ensures ls[k][j] != '\n' {
      ReadLine(seqs[k]);
    }
    Text.SplitOfJoin(ls, '\n');
    ParseSequencesOfLines(seqs);
  }
}
