/** Day 15: the rolling hash of the steps of an initialisation sequence
    (adventofcode2023/days/day15.py). */
module Day15 {
  import Text

  /** One step of the hash: add the character code, multiply by 17 and keep
      the remainder modulo 256. */
  function HashStep(v: nat, c: char): (r: nat)
    ensures r < 256
  {
    ((v + c as int) * 17) % 256
  }

  /** The hash of `s` continued from the value `v`: a left fold of HashStep
      over the characters of `s`. */
  function HashFrom(v: nat, s: string): nat
    decreases s
  {
    if s == [] then v else HashFrom(HashStep(v, s[0]), s[1..])
  }

  /** `hash_(s)`: the fold started from 0.  Every hash lies in 0..255, and
      the empty string hashes to 0. */
  function Hash(s: string): (h: nat)
    ensures h < 256
    ensures s == [] ==> h == 0
  {
    HashFromBound(0, s);
    HashFrom(0, s)
  }

  /** Hashing `s + t` is hashing `s` and then continuing the fold over `t`. */
  lemma {:induction false} HashFromAppend(v: nat, s: string, t: string)
    ensures HashFrom(v, s + t) == HashFrom(HashFrom(v, s), t)
    decreases s
  {
    if s != [] {
      assert (s + t)[0] == s[0];
      assert (s + t)[1..] == s[1..] + t;
      HashFromAppend(HashStep(v, s[0]), s[1..], t);
    } else {
      assert s + t == t;
    }
  }

  /** Every hash started from a byte value is a byte value. */
  lemma {:induction false} HashFromBound(v: nat, s: string)
    requires v < 256
    ensures HashFrom(v, s) < 256
    decreases s
  {
    if s != [] {
      HashFromBound(HashStep(v, s[0]), s[1..]);
    }
  }

  /** `hash_` as the source computes it: one accumulator updated per character. */
  method ComputeHash(s: string) returns (v: nat)
    ensures v == Hash(s)
    ensures v < 256
  {
    v := 0;
    for i := 0 to |s|
      invariant v == HashFrom(0, s[..i])
      invariant v < 256
    {
      HashFromAppend(0, s[..i], [s[i]]);
      assert s[..i + 1] == s[..i] + [s[i]];
      v := v + s[i] as int;
      v := v * 17;
      v := v % 256;
    }
    assert s[..|s|] == s;
  }

  /** The hashes of the test cases. */
  lemma HashExamples()
    ensures Hash("rn=1") == 30
    ensures Hash("cm-") == 253
  {
    assert HashStep(0, 'r') == 146;
    assert HashStep(146, 'n') == 0;
    assert HashStep(0, '=') == 13;
    assert HashStep(13, '1') == 30;
    assert HashFrom(30, []) == 30;
    assert HashFrom(13, "1") == 30;
    assert HashFrom(0, "=1") == 30;
    assert HashFrom(146, "n=1") == 30;
    assert HashFrom(0, "rn=1") == 30;
    assert HashStep(0, 'c') == 147;
    assert HashStep(147, 'm') == 0;
    assert HashStep(0, '-') == 253;
    assert HashFrom(253, []) == 253;
    assert HashFrom(0, "-") == 253;
    assert HashFrom(147, "m-") == 253;
    assert HashFrom(0, "cm-") == 253;
  }

  function SumHashes(steps: seq<string>): nat
  {
    if steps == [] then 0 else Hash(steps[0]) + SumHashes(steps[1..])
  }

  /** Part one: the sum of the hashes of the comma-separated steps, at most
      255 per step. */
  function PartOne(input: string): (r: nat)
    ensures r <= 255 * |Text.Split(input, ",")|
  {
    SumHashesBound(Text.Split(input, ","));
    SumHashes(Text.Split(input, ","))
  }

  /** Each step adds at most 255, so the sum is bounded by the number of steps. */
  lemma {:induction false} SumHashesBound(steps: seq<string>)
    ensures SumHashes(steps) <= 255 * |steps|
  {
    if steps != [] {
      SumHashesBound(steps[1..]);
    }
  }

  /** Each step contributes its own hash: the sum over two runs of steps is
      the sum of their sums. */
  lemma {:induction false} SumHashesAppend(a: seq<string>, b: seq<string>)
    ensures SumHashes(a + b) == SumHashes(a) + SumHashes(b)
  {
    if a == [] {
      assert a + b == b;
    } else {
      assert (a + b)[1..] == a[1..] + b;
      SumHashesAppend(a[1..], b);
    }
  }

  /** Part one on steps written with commas between them is the sum of
      their hashes. */
  lemma PartOneOfSteps(steps: seq<string>)
    requires |steps| >= 1
    requires forall k, j :: 0 <= k < |steps| && 0 <= j < |steps[k]| ==> steps[k][j] != ','
    ensures PartOne(Text.Join(steps, ",")) == SumHashes(steps)
  {
    Text.SplitOfJoin(steps, ',');
  }

  /** The first two steps of the example sequence, `rn=1,cm-`, sum to
      30 + 253. */
  lemma PartOneOfTwoSteps()
    ensures PartOne("rn=1,cm-") == 283
  {
    var steps := ["rn=1", "cm-"];
    assert Text.Join(steps, ",") == "rn=1,cm-";
    PartOneOfSteps(steps);
    assert steps[1..] == ["cm-"];
    assert SumHashes(steps) == Hash("rn=1") + Hash("cm-") + SumHashes([]);
    HashExamples();
  }
}
