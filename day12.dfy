/** Day 12: hot springs (adventofcode2023/days/day12.py).  A row of springs is
    a string over `?`, `#` and `.`; every way of resolving the `?` into `#` or
    `.` is generated, and the arrangements kept are those whose runs of `#`,
    from left to right, have the listed sizes. */
module Day12 {
  import opened Wrappers
  import Text
  import opened Sums

  predicate IsSpring(c: char) { c == '?' || c == '#' || c == '.' }

  /** A resolved spring: damaged `#` or operational `.`. */
  predicate Known(c: char) { c == '#' || c == '.' }

  /** `all(c in '?#.' for c in row)`. */
  predicate AllSprings(row: string) { forall i :: 0 <= i < |row| ==> IsSpring(row[i]) }

  predicate AllKnown(s: string) { forall i :: 0 <= i < |s| ==> Known(s[i]) }

  /** `Counter(row)['?']`. */
  function Unknowns(row: string): (n: nat)
    ensures n <= |row|
  {
    if row == [] then 0 else Unknowns(row[..|row| - 1]) + (if row[|row| - 1] == '?' then 1 else 0)
  }

  lemma {:induction false} UnknownsOfPrefix(row: string, i: nat)
    requires i <= |row|
    ensures Unknowns(row[..i]) <= Unknowns(row)
    decreases |row| - i
  {
    if i < |row| {
      UnknownsOfPrefix(row, i + 1);
      assert row[..i + 1][..i] == row[..i];
    } else {
      assert row[..i] == row;
    }
  }

  function Pow2(k: nat): (p: nat)
    ensures p >= 1
  {
    if k == 0 then 1 else 2 * Pow2(k - 1)
  }

  // ---------------------------------------------------------------------------
  // The candidate rows

  /** `c` put in front of every string of `xs`. */
  function Prefixed(c: char, xs: seq<string>): (ys: seq<string>)
    ensures |ys| == |xs|
  {
    seq(|xs|, i requires 0 <= i < |xs| => [c] + xs[i])
  }

  /** `product('#.', repeat=k)`: every string of `k` characters over `#` and
      `.`, the first character varying slowest and `#` before `.`. */
  function Product(k: nat): (cs: seq<string>)
    ensures |cs| == Pow2(k)
    ensures forall i :: 0 <= i < |cs| ==> |cs[i]| == k
  {
    if k == 0 then [""] else Prefixed('#', Product(k - 1)) + Prefixed('.', Product(k - 1))
  }

  /** Membership in a prefixed list: a string starting with `c` whose tail
      is in the list. */
  lemma InPrefixed(c: char, xs: seq<string>, s: string)
    ensures s in Prefixed(c, xs) <==> |s| > 0 && s[0] == c && s[1..] in xs
  {
    if |s| > 0 && s[0] == c && s[1..] in xs {
      var i :| 0 <= i < |xs| && xs[i] == s[1..];
      assert Prefixed(c, xs)[i] == s;
    }
    if s in Prefixed(c, xs) {
      var i :| 0 <= i < |xs| && Prefixed(c, xs)[i] == s;
      assert s[1..] == xs[i];
    }
  }

  /** Every member of the product is a resolved string of length `k`. */
  lemma {:induction false} ProductMembers(k: nat, s: string)
    requires s in Product(k)
    ensures |s| == k && AllKnown(s)
  {
    if k > 0 {
      var p := Product(k - 1);
      InPrefixed('#', p, s);
      InPrefixed('.', p, s);
      ProductMembers(k - 1, s[1..]);
      assert forall i :: 1 <= i < |s| ==> s[i] == s[1..][i - 1];
    }
  }

  /** Every resolved string of length `k` is in the product. */
  lemma {:induction false} ProductComplete(k: nat, s: string)
    requires |s| == k && AllKnown(s)
    ensures s in Product(k)
  {
    if k > 0 {
      var p := Product(k - 1);
      assert forall i :: 0 <= i < |s[1..]| ==> s[1..][i] == s[i + 1];
      ProductComplete(k - 1, s[1..]);
      InPrefixed(s[0], p, s);
    }
  }

  /** The product holds every resolved string of length `k` and nothing else. */
  lemma ProductIsAllChoices(k: nat)
    ensures forall s :: s in Product(k) ==> |s| == k && AllKnown(s)
    ensures forall s :: |s| == k && AllKnown(s) ==> s in Product(k)
  {
    forall s | s in Product(k) ensures |s| == k && AllKnown(s) { ProductMembers(k, s); }
    forall s | |s| == k && AllKnown(s) ensures s in Product(k) { ProductComplete(k, s); }
  }

  /** `k` copies of `c`. */
  function AllOf(c: char, k: nat): (s: string)
    ensures |s| == k
  {
    seq(k, _ => c)
  }

  /** The product starts with all `#` and ends with all `.`. */
  lemma {:induction false} ProductEnds(k: nat)
    ensures Product(k)[0] == AllOf('#', k)
    ensures Product(k)[Pow2(k) - 1] == AllOf('.', k)
  {
    if k > 0 {
      ProductEnds(k - 1);
      var p := Product(k - 1);
      assert Product(k)[0] == ['#'] + p[0];
      assert Product(k)[Pow2(k) - 1] == ['.'] + p[|p| - 1];
    }
  }

  /** No string occurs twice. */
  predicate NoRepeats(xs: seq<string>)
  {
    forall i, j :: 0 <= i < j < |xs| ==> xs[i] != xs[j]
  }

  /** A list without repeats has as many elements as its set of members. */
  lemma {:induction false} NoRepeatsCount(xs: seq<string>)
    requires NoRepeats(xs)
    ensures |set r | r in xs| == |xs|
  {
    if xs != [] {
      var n := |xs| - 1;
      var front := xs[..n];
      assert NoRepeats(front) by {
        forall i, j | 0 <= i < j < |front| ensures front[i] != front[j] {
          assert front[i] == xs[i] && front[j] == xs[j];
        }
      }
      NoRepeatsCount(front);
      assert xs[n] !in front by {
        forall i | 0 <= i < |front| ensures front[i] != xs[n] {
          assert front[i] == xs[i];
        }
      }
      assert (set r | r in xs) == (set r | r in front) + {xs[n]} by {
        assert xs == front + [xs[n]];
      }
    }
  }

  /** The same tail after the same first character: the same string. */
  lemma PrefixedApart(c: char, xs: seq<string>, i: nat, j: nat)
    requires i < |xs| && j < |xs| && xs[i] != xs[j]
    ensures Prefixed(c, xs)[i] != Prefixed(c, xs)[j]
  {
    assert Prefixed(c, xs)[i][1..] == xs[i];
    assert Prefixed(c, xs)[j][1..] == xs[j];
  }

  /** No combination of the product occurs twice. */
  lemma {:induction false} ProductNoRepeats(k: nat)
    ensures NoRepeats(Product(k))
  {
    if k > 0 {
      var p := Product(k - 1);
      ProductNoRepeats(k - 1);
      var hs, ds := Prefixed('#', p), Prefixed('.', p);
      assert Product(k) == hs + ds;
      forall i, j | 0 <= i < j < |Product(k)|
        ensures Product(k)[i] != Product(k)[j]
      {
        if j < |p| {
          PrefixedApart('#', p, i, j);
        } else if i >= |p| {
          PrefixedApart('.', p, i - |p|, j - |p|);
        } else {
          assert Product(k)[i][0] == '#' && Product(k)[j][0] == '.';
        }
      }
    }
  }

  /** `row` with its `?`, left to right, replaced by the characters of
      `choice`. */
  function Filled(row: string, choice: string): (r: string)
    requires |choice| == Unknowns(row)
    ensures |r| == |row|
  {
    if row == [] then []
    else if row[|row| - 1] == '?' then Filled(row[..|row| - 1], choice[..|choice| - 1]) + [choice[|choice| - 1]]
    else Filled(row[..|row| - 1], choice) + [row[|row| - 1]]
  }

  /** One more character of the row: the count of `?` grows by one at a
      `?`. */
  lemma UnknownsStep(row: string, idx: nat)
    requires idx < |row|
    ensures Unknowns(row[..idx + 1]) == Unknowns(row[..idx]) + (if row[idx] == '?' then 1 else 0)
    ensures Unknowns(row[..idx + 1]) <= Unknowns(row)
  {
    assert row[..idx + 1][..idx] == row[..idx];
    UnknownsOfPrefix(row, idx + 1);
  }

  /** One more character of the row: the filled prefix grows by the chosen
      or the original character. */
  lemma FillStep(row: string, choice: string, idx: nat, u: nat, u': nat)
    requires idx < |row| && u' <= |choice|
    requires u == Unknowns(row[..idx]) && u' == Unknowns(row[..idx + 1])
    requires u' == u + (if row[idx] == '?' then 1 else 0)
    ensures Filled(row[..idx + 1], choice[..u'])
         == Filled(row[..idx], choice[..u]) + [if row[idx] == '?' then choice[u] else row[idx]]
  {
    var pre := row[..idx];
    assert row[..idx + 1] == pre + [row[idx]];
    FilledSnoc(pre, row[idx], choice[..u']);
    assert choice[..u'][..u] == choice[..u];
  }

  /** A sequence split at position `|done|`, the element there taken out. */
  lemma SplitAround<T>(done: seq<T>, rest: seq<T>)
    requires rest != []
    ensures (done + rest)[..|done|] == done && (done + rest)[|done| + 1..] == rest[1..]
    ensures done + rest == done + [rest[0]] + rest[1..]
  {
  }

  /** The inner loop of `_get_possible_rows`: a copy of the row in which
      every `?` is overwritten with the next character of the combination. */
  method FillRow(row: string, choice: string) returns (r: string)
    requires |choice| == Unknowns(row)
    ensures r == Filled(row, choice)
  {
    r := row;
    var u := 0;
    for idx := 0 to |row|
      invariant u == Unknowns(row[..idx]) && u <= |choice|
      invariant r == Filled(row[..idx], choice[..u]) + row[idx..]
    {
      UnknownsStep(row, idx);
      ghost var u' := if row[idx] == '?' then u + 1 else u;
      FillStep(row, choice, idx, u, u');
      ghost var done := Filled(row[..idx], choice[..u]);
      SplitAround(done, row[idx..]);
      assert row[idx..][0] == row[idx] && row[idx..][1..] == row[idx + 1..];
      if row[idx] == '?' {
        r := r[..idx] + [choice[u]] + r[idx + 1..];
        u := u + 1;
      }
    }
    assert row[..|row|] == row;
    assert choice[..u] == choice;
  }

  /** A resolution of `row`: the same length, a resolved spring at every `?`,
      and the same character everywhere else. */
  predicate Matches(row: string, r: string) {
    |r| == |row| && forall i :: 0 <= i < |row| ==> if row[i] == '?' then Known(r[i]) else r[i] == row[i]
  }

  lemma MatchesPrefix(row: string, r: string)
    requires Matches(row, r) && row != []
    ensures Matches(row[..|row| - 1], r[..|r| - 1])
  {
  }

  /** Filling in resolved springs gives a resolution. */
  lemma {:induction false} FilledMatches(row: string, choice: string)
    requires |choice| == Unknowns(row) && AllKnown(choice)
    ensures Matches(row, Filled(row, choice))
  {
    if row != [] {
      var init := row[..|row| - 1];
      if row[|row| - 1] == '?' {
        FilledMatches(init, choice[..|choice| - 1]);
      } else {
        FilledMatches(init, choice);
      }
    }
  }

  /** The characters of `r` at the `?` positions of `row`. */
  function Choices(row: string, r: string): (c: string)
    requires |r| == |row|
    ensures |c| == Unknowns(row)
  {
    if row == [] then []
    else if row[|row| - 1] == '?' then Choices(row[..|row| - 1], r[..|r| - 1]) + [r[|r| - 1]]
    else Choices(row[..|row| - 1], r[..|r| - 1])
  }

  /** Every resolution is the row filled with its own choices. */
  lemma {:induction false} ChoicesFill(row: string, r: string)
    requires Matches(row, r)
    ensures AllKnown(Choices(row, r)) && Filled(row, Choices(row, r)) == r
  {
    if row != [] {
      var n := |row| - 1;
      MatchesPrefix(row, r);
      ChoicesFill(row[..n], r[..n]);
      var c := Choices(row, r);
      if row[n] == '?' {
        assert c[..|c| - 1] == Choices(row[..n], r[..n]);
      }
      assert r == r[..n] + [r[n]];
    }
  }

  /** A filled row gives back the combination it was filled with. */
  lemma {:induction false} ChoicesOfFilled(row: string, choice: string)
    requires |choice| == Unknowns(row)
    ensures Choices(row, Filled(row, choice)) == choice
  {
    if row != [] {
      var n := |row| - 1;
      var f := Filled(row, choice);
      if row[n] == '?' {
        var m := |choice| - 1;
        ChoicesOfFilled(row[..n], choice[..m]);
        assert f[..n] == Filled(row[..n], choice[..m]);
        assert choice == choice[..m] + [choice[m]];
      } else {
        ChoicesOfFilled(row[..n], choice);
        assert f[..n] == Filled(row[..n], choice);
      }
    }
  }

  /** Every candidate row filled with the combinations in `choices`. */
  function FilledAll(row: string, choices: seq<string>): (rows: seq<string>)
    requires forall i :: 0 <= i < |choices| ==> |choices[i]| == Unknowns(row)
    ensures |rows| == |choices|
  {
    seq(|choices|, i requires 0 <= i < |choices| => Filled(row, choices[i]))
  }

  /** `_get_possible_rows(row)`: an AssertionError unless the row holds only
      springs, otherwise the row filled with every combination of the
      product, in the product's order. */
  function PossibleRows(row: string): (r: Result<seq<string>>)
    ensures r.Err? <==> !AllSprings(row)
    ensures r.Err? ==> r.failure == AssertionError
    ensures r.Ok? ==> |r.value| == Pow2(Unknowns(row))
  {
    if !AllSprings(row) then Err(AssertionError)
    else Ok(FilledAll(row, Product(Unknowns(row))))
  }

  /** The candidates are exactly the resolutions of the row. */
  lemma PossibleRowsAreResolutions(row: string)
    requires AllSprings(row)
    ensures forall r :: r in PossibleRows(row).value ==> Matches(row, r)
    ensures forall r :: Matches(row, r) ==> r in PossibleRows(row).value
  {
    var k := Unknowns(row);
    var rows := PossibleRows(row).value;
    ProductIsAllChoices(k);
    forall r | r in rows
      ensures Matches(row, r)
    {
      var i :| 0 <= i < |rows| && rows[i] == r;
      assert Product(k)[i] in Product(k);
      FilledMatches(row, Product(k)[i]);
    }
    forall r | Matches(row, r)
      ensures r in rows
    {
      ChoicesFill(row, r);
      var c := Choices(row, r);
      assert c in Product(k);
      var i :| 0 <= i < |Product(k)| && Product(k)[i] == c;
      assert rows[i] == r;
    }
  }

  /** Two different combinations fill two different rows, so no candidate
      occurs twice. */
  lemma PossibleRowsNoRepeats(row: string)
    requires AllSprings(row)
    ensures NoRepeats(PossibleRows(row).value)
  {
    var k := Unknowns(row);
    var rows := PossibleRows(row).value;
    ProductNoRepeats(k);
    forall i, j | 0 <= i < j < |rows|
      ensures rows[i] != rows[j]
    {
      ChoicesOfFilled(row, Product(k)[i]);
      ChoicesOfFilled(row, Product(k)[j]);
    }
  }

  /** `row` with every `?` replaced by `c`. */
  function Resolved(row: string, c: char): (r: string)
    ensures |r| == |row|
  {
    seq(|row|, i requires 0 <= i < |row| => if row[i] == '?' then c else row[i])
  }

  lemma {:induction false} FilledAllOf(row: string, c: char)
    ensures Filled(row, AllOf(c, Unknowns(row))) == Resolved(row, c)
  {
    if row != [] {
      var n := |row| - 1;
      FilledAllOf(row[..n], c);
      var k := Unknowns(row);
      if row[n] == '?' {
        assert AllOf(c, k)[..k - 1] == AllOf(c, k - 1);
      }
    }
  }

  /** The first candidate puts `#` at every `?`, the last puts `.`. */
  lemma PossibleRowsEnds(row: string)
    requires AllSprings(row)
    ensures PossibleRows(row).value[0] == Resolved(row, '#')
    ensures PossibleRows(row).value[Pow2(Unknowns(row)) - 1] == Resolved(row, '.')
  {
    ProductEnds(Unknowns(row));
    FilledAllOf(row, '#');
    FilledAllOf(row, '.');
  }

  /** `_get_possible_rows` as the source runs it: a loop over the product,
      appending one filled row per combination. */
  method GetPossibleRows(row: string) returns (r: Result<seq<string>>)
    ensures r == PossibleRows(row)
  {
    if !AllSprings(row) {
      return Err(AssertionError);
    }
    var combinations := Product(Unknowns(row));
    var rows: seq<string> := [];
    for i := 0 to |combinations|
      invariant rows == FilledAll(row, combinations[..i])
    {
      var filled := FillRow(row, combinations[i]);
      rows := rows + [filled];
    }
    assert combinations[..|combinations|] == combinations;
    r := Ok(rows);
  }

  /** One character appended to the row: one unfolding of `Filled`. */
  lemma FilledSnoc(row: string, ch: char, choice: string)
    requires |choice| == Unknowns(row + [ch])
    ensures Unknowns(row + [ch]) == Unknowns(row) + (if ch == '?' then 1 else 0)
    ensures Filled(row + [ch], choice)
         == Filled(row, choice[..Unknowns(row)]) + [if ch == '?' then choice[|choice| - 1] else ch]
  {
    assert (row + [ch])[..|row|] == row;
    if ch != '?' {
      assert choice[..Unknowns(row)] == choice;
    }
  }

  /** Springs with no `?` appended to a row are copied unchanged after the
      filled row. */
  lemma {:induction false} FilledKnownSuffix(a: string, b: string, ca: string)
    requires |ca| == Unknowns(a)
    requires forall i :: 0 <= i < |b| ==> b[i] != '?'
    ensures Unknowns(a + b) == Unknowns(a) && Filled(a + b, ca) == Filled(a, ca) + b
  {
    if b == [] {
      assert a + b == a;
    } else {
      var b', x := b[..|b| - 1], b[|b| - 1];
      FilledKnownSuffix(a, b', ca);
      var ab := a + b';
      assert a + b == ab + [x];
      FilledSnoc(ab, x, ca);
      assert ca[..Unknowns(ab)] == ca;
      InitLast(b);
    }
  }

  /** A row of `?` only is filled with the combination itself. */
  lemma {:induction false} FilledAllUnknown(row: string, choice: string)
    requires forall i :: 0 <= i < |row| ==> row[i] == '?'
    requires |choice| == |row|
    ensures Unknowns(row) == |row| && Filled(row, choice) == choice
  {
    if row != [] {
      var n := |row| - 1;
      FilledAllUnknown(row[..n], choice[..n]);
      assert choice == choice[..n] + [choice[n]];
    }
  }

  lemma PrefixedIs(c: char, xs: seq<string>, ys: seq<string>)
    requires |ys| == |xs| && forall i :: 0 <= i < |xs| ==> ys[i] == [c] + xs[i]
    ensures Prefixed(c, xs) == ys
  {
  }

  /** The product of length three, in the order the tests list. */
  lemma ProductThree()
    ensures Product(3) == ["###", "##.", "#.#", "#..", ".##", ".#.", "..#", "..."]
  {
    PrefixedIs('#', [""], ["#"]);
    PrefixedIs('.', [""], ["."]);
    assert Product(1) == ["#", "."];
    PrefixedIs('#', ["#", "."], ["##", "#."]);
    PrefixedIs('.', ["#", "."], [".#", ".."]);
    assert Product(2) == ["##", "#.", ".#", ".."];
    PrefixedIs('#', ["##", "#.", ".#", ".."], ["###", "##.", "#.#", "#.."]);
    PrefixedIs('.', ["##", "#.", ".#", ".."], [".##", ".#.", "..#", "..."]);
  }

  /** Every candidate of `???.###` is a combination followed by `.###`. */
  lemma ExampleCandidates()
    ensures AllSprings("???.###") && Unknowns("???.###") == 3
    ensures var rows := PossibleRows("???.###").value;
            |rows| == 8 && forall i :: 0 <= i < 8 ==> rows[i] == Product(3)[i] + ".###"
  {
    var row := "???.###";
    assert row == "???" + ".###";
    assert AllSprings(row);
    assert Pow2(3) == 8;
    FilledAllUnknown("???", "###");
    FilledKnownSuffix("???", ".###", "###");
    var p := Product(3);
    forall i | 0 <= i < 8
      ensures PossibleRows(row).value[i] == p[i] + ".###"
    {
      FilledAllUnknown("???", p[i]);
      FilledKnownSuffix("???", ".###", p[i]);
    }
  }

  /** The rows of the tests' first example, in the product's order. */
  lemma PossibleRowsExample()
    ensures PossibleRows("???.###")
         == Ok(["###.###", "##..###", "#.#.###", "#...###", ".##.###", ".#..###", "..#.###", "....###"])
  {
    ExampleCandidates();
    ProductThree();
    var rows := PossibleRows("???.###").value;
    var expected := ["###.###", "##..###", "#.#.###", "#...###", ".##.###", ".#..###", "..#.###", "....###"];
    forall i | 0 <= i < 8
      ensures rows[i] == expected[i]
    {
      assert Product(3)[i] + ".###" == expected[i];
    }
    assert rows == expected;
  }

  // ---------------------------------------------------------------------------
  // Runs of damaged springs

  /** One step of `groupby`: the character `c` extends the last run when it
      holds `c`, and starts a run of its own otherwise. */
  function Merge(gs: seq<(char, nat)>, c: char): (r: seq<(char, nat)>)
    ensures r != [] && r[|r| - 1].0 == c
  {
    if gs != [] && gs[|gs| - 1].0 == c then gs[..|gs| - 1] + [(c, gs[|gs| - 1].1 + 1)]
    else gs + [(c, 1)]
  }

  /** `groupby(s)`: the runs of equal characters, left to right, as
      `(character, length)`. */
  function Groups(s: string): (gs: seq<(char, nat)>)
    ensures s == [] <==> gs == []
  {
    if s == [] then [] else Merge(Groups(s[..|s| - 1]), s[|s| - 1])
  }

  lemma GroupsSnoc(s: string, c: char)
    ensures Groups(s + [c]) == Merge(Groups(s), c)
  {
    assert (s + [c])[..|s|] == s;
  }

  /** The string a list of runs stands for. */
  function Ungroup(gs: seq<(char, nat)>): string {
    if gs == [] then [] else Ungroup(gs[..|gs| - 1]) + AllOf(gs[|gs| - 1].0, gs[|gs| - 1].1)
  }

  /** Runs that cannot be merged or split: none is empty and neighbours hold
      different characters. */
  predicate Maximal(gs: seq<(char, nat)>) {
    (forall i :: 0 <= i < |gs| ==> gs[i].1 > 0)
    && (forall i :: 0 <= i < |gs| - 1 ==> gs[i].0 != gs[i + 1].0)
  }

  lemma UngroupAppend(gs: seq<(char, nat)>, c: char, n: nat)
    ensures Ungroup(gs + [(c, n)]) == Ungroup(gs) + AllOf(c, n)
  {
    assert (gs + [(c, n)])[..|gs|] == gs;
  }

  /** A merge spells one more `c`. */
  lemma MergeUngroup(gs: seq<(char, nat)>, c: char)
    ensures Ungroup(Merge(gs, c)) == Ungroup(gs) + [c]
  {
    if gs != [] && gs[|gs| - 1].0 == c {
      var front, n := gs[..|gs| - 1], gs[|gs| - 1].1;
      assert gs == front + [(c, n)];
      UngroupAppend(front, c, n);
      UngroupAppend(front, c, n + 1);
      assert AllOf(c, n + 1) == AllOf(c, n) + [c];
    } else {
      UngroupAppend(gs, c, 1);
    }
  }

  /** A merge keeps the runs maximal. */
  lemma MergeMaximal(gs: seq<(char, nat)>, c: char)
    requires Maximal(gs)
    ensures Maximal(Merge(gs, c))
  {
  }

  /** A non-empty sequence is its front followed by its last element. */
  lemma InitLast<T>(s: seq<T>)
    requires s != []
    ensures s[..|s| - 1] + [s[|s| - 1]] == s
  {
  }

  /** `groupby` loses no character: its runs spell the string. */
  lemma {:induction false} GroupsSpell(s: string)
    ensures Ungroup(Groups(s)) == s
  {
    if s != [] {
      var init := s[..|s| - 1];
      GroupsSpell(init);
      MergeUngroup(Groups(init), s[|s| - 1]);
      InitLast(s);
    }
  }

  /** `groupby` yields maximal runs. */
  lemma {:induction false} GroupsMaximal(s: string)
    ensures Maximal(Groups(s))
  {
    if s != [] {
      GroupsMaximal(s[..|s| - 1]);
      MergeMaximal(Groups(s[..|s| - 1]), s[|s| - 1]);
    }
  }

  /** The runs with their last character taken away. */
  function Shrink(gs: seq<(char, nat)>): seq<(char, nat)>
    requires gs != []
  {
    var front, c, n := gs[..|gs| - 1], gs[|gs| - 1].0, gs[|gs| - 1].1;
    if n <= 1 then front else front + [(c, n - 1)]
  }

  /** Taking the last character away keeps the runs maximal. */
  lemma ShrinkMaximal(gs: seq<(char, nat)>)
    requires Maximal(gs) && gs != []
    ensures Maximal(Shrink(gs))
  {
  }

  /** Merging the last character back into shrunk maximal runs gives the
      runs again. */
  lemma ShrinkMerge(gs: seq<(char, nat)>)
    requires Maximal(gs) && gs != []
    ensures Merge(Shrink(gs), gs[|gs| - 1].0) == gs
  {
    var front, c, n := gs[..|gs| - 1], gs[|gs| - 1].0, gs[|gs| - 1].1;
    InitLast(gs);
    if n == 1 {
      assert front != [] ==> front[|front| - 1].0 != c;
    } else {
      assert (front + [(c, n - 1)])[..|front|] == front;
    }
  }

  lemma AllOfSnoc(c: char, n: nat)
    ensures AllOf(c, n + 1) == AllOf(c, n) + [c]
  {
  }

  /** A run of `c` one shorter spells one `c` fewer. */
  lemma ShorterRun(front: seq<(char, nat)>, c: char, n: nat)
    requires n > 1
    ensures Ungroup(front + [(c, n - 1)]) + [c] == Ungroup(front) + AllOf(c, n)
  {
    UngroupAppend(front, c, n - 1);
    AllOfSnoc(c, n - 1);
  }

  /** Shrunk runs spell the string without its last character. */
  lemma ShrinkUngroup(gs: seq<(char, nat)>)
    requires gs != [] && gs[|gs| - 1].1 > 0
    ensures Ungroup(Shrink(gs)) + [gs[|gs| - 1].0] == Ungroup(gs)
  {
    var front, c, n := gs[..|gs| - 1], gs[|gs| - 1].0, gs[|gs| - 1].1;
    assert Ungroup(gs) == Ungroup(front) + AllOf(c, n);
    if n == 1 {
      assert AllOf(c, 1) == [c];
    } else {
      ShorterRun(front, c, n);
    }
  }

  /** Maximal runs are unique: any maximal list of runs spelling `s` is
      `groupby(s)`. */
  lemma {:induction false} MaximalRunsAreGroups(gs: seq<(char, nat)>, s: string)
    requires Maximal(gs) && Ungroup(gs) == s
    ensures gs == Groups(s)
    decreases |s|
  {
    if gs != [] {
      var c := gs[|gs| - 1].0;
      ShrinkMaximal(gs);
      ShrinkMerge(gs);
      ShrinkUngroup(gs);
      var init := Ungroup(Shrink(gs));
      MaximalRunsAreGroups(Shrink(gs), init);
      GroupsSnoc(init, c);
    }
  }

  lemma HashSizesSnoc(gs: seq<(char, nat)>, g: (char, nat))
    ensures HashSizes(gs + [g]) == HashSizes(gs) + (if g.0 == '#' then [g.1 as int] else [])
  {
    assert (gs + [g])[..|gs|] == gs;
  }

  /** The lengths of the runs of `#`, left to right. */
  function HashSizes(gs: seq<(char, nat)>): seq<int> {
    if gs == [] then []
    else HashSizes(gs[..|gs| - 1]) + (if gs[|gs| - 1].0 == '#' then [gs[|gs| - 1].1 as int] else [])
  }

  /** The sizes of the groups of damaged springs in a row. */
  function DamagedSizes(row: string): seq<int> {
    HashSizes(Groups(row))
  }

  /** The loop over `groupby(row)` in `_get_rows_passed`: the length of every
      run of `#` is appended. */
  method SizesFound(row: string) returns (sizes: seq<int>)
    ensures sizes == DamagedSizes(row)
  {
    var groups := Groups(row);
    sizes := [];
    for k := 0 to |groups|
      invariant sizes == HashSizes(groups[..k])
    {
      assert groups[..k + 1][..k] == groups[..k];
      var (type_, n) := groups[k];
      if type_ == '#' {
        sizes := sizes + [n];
      }
    }
    assert groups[..|groups|] == groups;
  }

  /** The rows, in order, whose damaged groups have the given sizes. */
  function Passed(rows: seq<string>, sizes: seq<int>): (kept: seq<string>)
    ensures |kept| <= |rows|
  {
    if rows == [] then []
    else Passed(rows[..|rows| - 1], sizes) + (if DamagedSizes(rows[|rows| - 1]) == sizes then [rows[|rows| - 1]] else [])
  }

  /** A row is kept exactly when it is a candidate with the given sizes. */
  lemma {:induction false} PassedKeepsMatching(rows: seq<string>, sizes: seq<int>)
    ensures forall r :: r in Passed(rows, sizes) <==> r in rows && DamagedSizes(r) == sizes
  {
    if rows != [] {
      PassedKeepsMatching(rows[..|rows| - 1], sizes);
      assert rows == rows[..|rows| - 1] + [rows[|rows| - 1]];
    }
  }

  /** Keeping some of the rows keeps them free of repeats. */
  lemma {:induction false} PassedNoRepeats(rows: seq<string>, sizes: seq<int>)
    requires NoRepeats(rows)
    ensures NoRepeats(Passed(rows, sizes))
  {
    if rows != [] {
      var n := |rows| - 1;
      var front := rows[..n];
      assert NoRepeats(front) by {
        forall i, j | 0 <= i < j < |front| ensures front[i] != front[j] {
          assert front[i] == rows[i] && front[j] == rows[j];
        }
      }
      PassedNoRepeats(front, sizes);
      var kept := Passed(front, sizes);
      assert rows[n] !in kept by {
        PassedKeepsMatching(front, sizes);
        forall i | 0 <= i < |front| ensures front[i] != rows[n] {
          assert front[i] == rows[i];
        }
      }
    }
  }

  /** `_get_rows_passed(possible_rows, group_sizes)`. */
  method RowsPassed(rows: seq<string>, sizes: seq<int>) returns (kept: seq<string>)
    ensures kept == Passed(rows, sizes)
  {
    kept := [];
    for k := 0 to |rows|
      invariant kept == Passed(rows[..k], sizes)
    {
      assert rows[..k + 1][..k] == rows[..k];
      var found := SizesFound(rows[k]);
      if sizes == found {
        kept := kept + [rows[k]];
      }
    }
    assert rows[..|rows|] == rows;
  }

  /** The runs of `#.#.`: four runs of one. */
  lemma GroupsExampleFront()
    ensures Groups("#.#.") == [('#', 1), ('.', 1), ('#', 1), ('.', 1)]
  {
    var s1: string := ['#'];
    var s2 := s1 + ['.'];
    var s3 := s2 + ['#'];
    assert s3 + ['.'] == "#.#.";
    assert s1 == [] + ['#'];
    GroupsSnoc([], '#');
    GroupsSnoc(s1, '.');
    GroupsSnoc(s2, '#');
    GroupsSnoc(s3, '.');
  }

  /** The runs of `#.#.###`: the last run has three `#`. */
  lemma GroupsExample()
    ensures Groups("#.#.###") == [('#', 1), ('.', 1), ('#', 1), ('.', 1), ('#', 3)]
  {
    var s4: string := "#.#.";
    var s5 := s4 + ['#'];
    var s6 := s5 + ['#'];
    assert s6 + ['#'] == "#.#.###";
    GroupsExampleFront();
    GroupsSnoc(s4, '#');
    GroupsSnoc(s5, '#');
    GroupsSnoc(s6, '#');
  }

  /** The damaged groups of `#.#.###` have sizes 1, 1 and 3. */
  lemma DamagedSizesExample()
    ensures DamagedSizes("#.#.###") == [1, 1, 3]
  {
    GroupsExample();
    var g1: seq<(char, nat)> := [('#', 1)];
    var g2 := g1 + [('.', 1)];
    var g3 := g2 + [('#', 1)];
    var g4 := g3 + [('.', 1)];
    assert Groups("#.#.###") == g4 + [('#', 3)];
    assert g1 == [] + [('#', 1)];
    HashSizesSnoc([], ('#', 1));
    HashSizesSnoc(g1, ('.', 1));
    HashSizesSnoc(g2, ('#', 1));
    HashSizesSnoc(g3, ('.', 1));
    HashSizesSnoc(g4, ('#', 3));
  }

  // ---------------------------------------------------------------------------
  // Part one

  /** The number of arrangements of one input line `row sizes`: unpacking
      `line.split(' ')` into two names raises ValueError unless there are
      exactly two pieces, and so does a size that is not an integer. */
  function Arrangements(line: string): (r: Result<int>)
    ensures r.Err? ==> r.failure in {ValueError, AssertionError}
    ensures r.Ok? ==> |Text.Split(line, " ")| == 2 && 0 <= r.value <= Pow2(Unknowns(Text.Split(line, " ")[0]))
  {
    var parts := Text.Split(line, " ");
    if |parts| != 2 then Err(ValueError)
    else match Text.ParseInts(Text.Split(parts[1], ",")) {
      case None => Err(ValueError)
      case Some(sizes) =>
        match PossibleRows(parts[0]) {
          case Err(e) => Err(e)
          case Ok(rows) => Ok(|Passed(rows, sizes)|)
        }
    }
  }

  /** For a line with a valid row and sizes, the arrangements are the
      candidates that are resolutions of the row with those group sizes. */
  lemma ArrangementsCount(line: string)
    requires Arrangements(line).Ok?
    ensures var parts := Text.Split(line, " ");
            var sizes := Text.ParseInts(Text.Split(parts[1], ",")).value;
            var kept := Passed(PossibleRows(parts[0]).value, sizes);
            Arrangements(line) == Ok(|kept|)
            && (forall r :: r in kept <==> Matches(parts[0], r) && DamagedSizes(r) == sizes)
            && NoRepeats(kept) && |set r | r in kept| == |kept|
  {
    var parts := Text.Split(line, " ");
    var sizes := Text.ParseInts(Text.Split(parts[1], ",")).value;
    PossibleRowsAreResolutions(parts[0]);
    PassedKeepsMatching(PossibleRows(parts[0]).value, sizes);
    PossibleRowsNoRepeats(parts[0]);
    PassedNoRepeats(PossibleRows(parts[0]).value, sizes);
    NoRepeatsCount(Passed(PossibleRows(parts[0]).value, sizes));
  }

  /** `solve_part_one`: the sum of the arrangements of the lines, failing at
      the first line that fails. */
  function PartOne(input: string): Result<int> {
    Total(Map(Arrangements, Text.Split(input, "\n")))
  }

  method LineArrangements(line: string) returns (r: Result<int>)
    ensures r == Arrangements(line)
  {
    var parts := Text.Split(line, " ");
    if |parts| != 2 {
      return Err(ValueError);
    }
    var sizes := Text.ParseInts(Text.Split(parts[1], ","));
    if sizes.None? {
      return Err(ValueError);
    }
    var possible := GetPossibleRows(parts[0]);
    if possible.Err? {
      return Err(possible.failure);
    }
    var kept := RowsPassed(possible.value, sizes.value);
    r := Ok(|kept|);
  }

  /** `solve_part_one` as the source runs it: a loop over the lines appending
      each line's count, then the sum. */
  method SolvePartOne(input: string) returns (r: Result<int>)
    ensures r == PartOne(input)
  {
    var lines := Text.Split(input, "\n");
    ghost var values := Map(Arrangements, lines);
    var total := 0;
    for k := 0 to |lines|
      invariant Total(values) == AddTo(total, Total(values[k..]))
    {
      var v := LineArrangements(lines[k]);
      MapAt(Arrangements, lines, k);
      TotalStep(values, k, total, v);
      if v.Err? {
        return Err(v.failure);
      }
      total := total + v.value;
    }
    TotalDone(values, total);
    r := Ok(total);
  }
}
