/** Day 4: scratchcards.  Each card lists winning numbers and the numbers
    you have; part one scores the matches of every card, part two wins
    copies of the cards that follow and counts every instance processed
    (adventofcode2023/days/day4.py). */
module Day4 {
  import opened Wrappers
  import opened Text
  import opened Sums

  /** `Card`: its number, the winning numbers and your numbers. */
  datatype Card = Card(number: int, winning: seq<int>, yours: seq<int>)

  /** `[int(n) for n in s.strip().split(' ')]`, or ValueError. */
  function NumberList(s: string): (r: Result<seq<int>>)
    ensures r.Err? ==> r.failure == ValueError
  {
    match ParseInts(Split(Strip(s), " ")) {
      case None => Err(ValueError)
      case Some(ns) => Ok(ns)
    }
  }

  /** `Card.from_line`: runs of spaces collapse to one; the line splits into
      exactly two parts at `:` and the part after it into exactly two lists
      at `|` (ValueError otherwise); the card number is the second
      space-separated piece of the first part (IndexError when there is
      none). */
  function CardFromLine(line: string): (r: Result<Card>)
    ensures r.Err? ==> r.failure == ValueError || r.failure == IndexError
  {
    var halves := Split(CollapseSpaces(line), ":");
    if |halves| != 2 then Err(ValueError)
    else
      var conf := Split(halves[0], " ");
      if |conf| < 2 then Err(IndexError)
      else match ParseInt(conf[1]) {
        case None => Err(ValueError)
        case Some(number) =>
          var lists := Split(halves[1], "|");
          if |lists| != 2 then Err(ValueError)
          else match NumberList(lists[0]) {
            case Err(e) => Err(e)
            case Ok(winning) =>
              match NumberList(lists[1]) {
                case Err(e) => Err(e)
                case Ok(yours) => Ok(Card(number, winning, yours))
              }
          }
      }
  }

  /** A card that can be written out: natural numbers and two non-empty
      lists (an empty list reads as `int('')`, which raises ValueError). */
  predicate Writable(card: Card) {
    card.number >= 0 && |card.winning| >= 1 && |card.yours| >= 1 &&
    (forall i :: 0 <= i < |card.winning| ==> card.winning[i] >= 0) &&
    (forall i :: 0 <= i < |card.yours| ==> card.yours[i] >= 0)
  }

  /** The line of a card, numbers separated by single spaces. */
  function CardLine(card: Card): string
    requires Writable(card)
  {
    ("Card " + NatToString(card.number)) + ":" + (" " + Join(Numerals(card.winning), " ") + " | " + Join(Numerals(card.yours), " "))
  }

  /** Digits and single spaces, starting and ending with a digit: a list
      of numbers as written on a card. */
  predicate NumberText(s: string) {
    |s| > 0 && IsDigit(s[0]) && IsDigit(s[|s| - 1]) && NoDoubleSpace(s) &&
    forall j :: 0 <= j < |s| ==> IsDigit(s[j]) || s[j] == ' '
  }

  /** `Card.from_line` reads back every card written out. */
  lemma CardLineRoundTrip(card: Card)
    requires Writable(card)
    ensures CardFromLine(CardLine(card)) == Ok(card)
  {
    var n := NatToString(card.number);
    var w := Join(Numerals(card.winning), " ");
    var y := Join(Numerals(card.yours), " ");
    JoinedNumerals(card.winning);
    JoinedNumerals(card.yours);
    CardLineCollapses(n, w, y);
    HeadSplits(n);
    TailSplits(w, y);
    LineSplits("Card " + n, " " + w + " | " + y);
    ParseIntNatToString(card.number);
    NumberListOfNumerals(card.winning, " " + w + " ", true);
    assert " " + y == " " + y + "";
    NumberListOfNumerals(card.yours, " " + y, false);
    CardFromParts(CardLine(card), "Card " + n, " " + w + " | " + y, n, " " + w + " ", " " + y, card);
  }

  /** The steps of `Card.from_line` on a line, put together. */
  lemma CardFromParts(line: string, head: string, tail: string, n: string, left: string, right: string, card: Card)
    requires CollapseSpaces(line) == line && Split(line, ":") == [head, tail]
    requires Split(head, " ") == ["Card", n] && ParseInt(n) == Some(card.number)
    requires Split(tail, "|") == [left, right]
    requires NumberList(left) == Ok(card.winning) && NumberList(right) == Ok(card.yours)
    ensures CardFromLine(line) == Ok(card)
  {
  }

  /** A card line is its own collapsed form. */
  lemma CardLineCollapses(n: string, w: string, y: string)
    requires |n| > 0 && AllDigits(n)
    requires NumberText(w) && NumberText(y)
    ensures CollapseSpaces(("Card " + n) + ":" + (" " + w + " | " + y)) == ("Card " + n) + ":" + (" " + w + " | " + y)
  {
    CardLineSpaced(n, w, y);
    CollapseSpacesKeeps(("Card " + n) + ":" + (" " + w + " | " + y));
  }

  /** A card line has no two spaces in a row. */
  lemma CardLineSpaced(n: string, w: string, y: string)
    requires |n| > 0 && AllDigits(n)
    requires NumberText(w) && NumberText(y)
    ensures NoDoubleSpace(("Card " + n) + ":" + (" " + w + " | " + y))
  {
    assert NoDoubleSpace(n) by { assert forall j :: 0 <= j < |n| ==> IsDigit(n[j]); }
    NoDoubleSpaceAppend("Card ", n);
    var head := "Card " + n;
    NoDoubleSpaceAppend(head, ":");
    NoDoubleSpaceAppend(" ", w);
    NoDoubleSpaceAppend(" " + w, " | ");
    NoDoubleSpaceAppend(" " + w + " | ", y);
    NoDoubleSpaceAppend(head + ":", " " + w + " | " + y);
  }

  /** The part before the colon splits into the word `Card` and the number. */
  lemma HeadSplits(n: string)
    requires |n| > 0 && AllDigits(n)
    ensures forall j :: 0 <= j < |"Card " + n| ==> ("Card " + n)[j] != ':'
    ensures Split("Card " + n, " ") == ["Card", n]
  {
    var head := "Card " + n;
    forall j | 0 <= j < |head| ensures head[j] != ':' {
      if j >= 5 { assert head[j] == n[j - 5]; }
    }
    assert Join(["Card", n], " ") == head;
    assert forall j :: 0 <= j < |n| ==> IsDigit(n[j]);
    SplitOfJoin(["Card", n], ' ');
  }

  /** The part after the colon splits at the bar into the two padded lists. */
  lemma TailSplits(w: string, y: string)
    requires NumberText(w) && NumberText(y)
    ensures forall j :: 0 <= j < |" " + w + " | " + y| ==> (" " + w + " | " + y)[j] != ':'
    ensures Split(" " + w + " | " + y, "|") == [" " + w + " ", " " + y]
  {
    var left := " " + w + " ";
    var right := " " + y;
    var tail := " " + w + " | " + y;
    assert tail == left + "|" + right;
    forall j | 0 <= j < |left| ensures left[j] != '|' && left[j] != ':' {
      if 1 <= j < 1 + |w| { assert left[j] == w[j - 1]; }
    }
    forall j | 0 <= j < |right| ensures right[j] != '|' && right[j] != ':' {
      if j >= 1 { assert right[j] == y[j - 1]; }
    }
    forall j | 0 <= j < |tail| ensures tail[j] != ':' {
      if j < |left| { assert tail[j] == left[j]; }
      else if j > |left| { assert tail[j] == right[j - |left| - 1]; }
    }
    assert Join([left, right], "|") == tail;
    SplitOfJoin([left, right], '|');
  }

  /** A line with one colon splits into the parts around it. */
  lemma LineSplits(head: string, tail: string)
    requires forall j :: 0 <= j < |head| ==> head[j] != ':'
    requires forall j :: 0 <= j < |tail| ==> tail[j] != ':'
    ensures Split(head + ":" + tail, ":") == [head, tail]
  {
    assert Join([head, tail], ":") == head + ":" + tail;
    SplitOfJoin([head, tail], ':');
  }

  /** The numbers of a list written with single spaces and padded by a
      space are read back. */
  lemma NumberListOfNumerals(ns: seq<int>, s: string, padRight: bool)
    requires |ns| >= 1 && forall i :: 0 <= i < |ns| ==> ns[i] >= 0
    requires s == " " + Join(Numerals(ns), " ") + (if padRight then " " else "")
    ensures NumberList(s) == Ok(ns)
  {
    var parts := Numerals(ns);
    var w := Join(parts, " ");
    StripPaddedNumerals(ns, padRight);
    SplitNumerals(ns);
    ParseIntsNumerals(ns);
    NumberListOfParts(s, w, parts, ns);
  }

  lemma StripPaddedNumerals(ns: seq<int>, padRight: bool)
    requires |ns| >= 1 && forall i :: 0 <= i < |ns| ==> ns[i] >= 0
    ensures Strip(" " + Join(Numerals(ns), " ") + (if padRight then " " else "")) == Join(Numerals(ns), " ")
  {
    JoinedNumerals(ns);
    StripPadded(Join(Numerals(ns), " "), padRight);
  }

  lemma NumberListOfParts(s: string, w: string, parts: seq<string>, ns: seq<int>)
    requires Strip(s) == w && Split(w, " ") == parts && ParseInts(parts) == Some(ns)
    ensures NumberList(s) == Ok(ns)
  {
  }

  /** Only the line with its runs of spaces collapsed matters, so the
      aligned lines of the puzzle read like their single-spaced forms. */
  lemma CardFromCollapsedLine(line: string)
    ensures CardFromLine(CollapseSpaces(line)) == CardFromLine(line)
  {
    CollapseSpacesIdempotent(line);
  }

  /** `get_matching_numbers`: your numbers that are winning numbers, in
      your order and with your repetitions. */
  function Matching(yours: seq<int>, winning: seq<int>): seq<int> {
    if yours == [] then []
    else if yours[0] in winning then [yours[0]] + Matching(yours[1..], winning)
    else Matching(yours[1..], winning)
  }

  /** A number is a match exactly when it is one of yours and a winning one. */
  lemma {:induction false} MatchingMembers(yours: seq<int>, winning: seq<int>)
    ensures forall n :: n in Matching(yours, winning) <==> n in yours && n in winning
  {
    if yours != [] {
      MatchingMembers(yours[1..], winning);
      assert yours == [yours[0]] + yours[1..];
    }
  }

  /** Filtering keeps the order: the matches of two runs of numbers are the
      matches of the first followed by those of the second. */
  lemma {:induction false} MatchingAppend(a: seq<int>, b: seq<int>, winning: seq<int>)
    ensures Matching(a + b, winning) == Matching(a, winning) + Matching(b, winning)
  {
    if a == [] {
      assert a + b == b;
    } else {
      assert (a + b)[0] == a[0];
      assert (a + b)[1..] == a[1..] + b;
      MatchingAppend(a[1..], b, winning);
    }
  }

  /** There are never more matches than numbers of yours, and as many
      exactly when every number of yours is a winning one. */
  lemma {:induction false} MatchingCount(yours: seq<int>, winning: seq<int>)
    ensures |Matching(yours, winning)| <= |yours|
    ensures |Matching(yours, winning)| == |yours| <==> forall i :: 0 <= i < |yours| ==> yours[i] in winning
  {
    if yours != [] {
      MatchingCount(yours[1..], winning);
      assert forall i :: 1 <= i < |yours| ==> yours[i] == yours[1..][i - 1];
    }
  }

  // ---------------------------------------------------------------------------
  // Part one

  function Pow2(n: nat): (p: nat)
    ensures p >= 1
  {
    if n == 0 then 1 else 2 * Pow2(n - 1)
  }

  /** The points of a card with `k` matches: `2 ** (k - 1)`, or nothing
      without a match. */
  function Score(k: nat): nat {
    if k == 0 then 0 else Pow2(k - 1)
  }

  /** The first match is worth one point and every further match doubles
      the points. */
  lemma ScoreDoubles(k: nat)
    ensures Score(0) == 0 && Score(1) == 1
    ensures k >= 1 ==> Score(k + 1) == 2 * Score(k)
  {
  }

  /** One line of `solve_part_one`: spaces collapsed, split at `:` and `|`
      (ValueError unless each gives exactly two parts), the two lists read
      and the matches scored.  The card number is not read. */
  function LinePoints(line: string): Result<int> {
    var halves := Split(CollapseSpaces(line), ":");
    if |halves| != 2 then Err(ValueError)
    else
      var lists := Split(halves[1], "|");
      if |lists| != 2 then Err(ValueError)
      else match NumberList(lists[0]) {
        case Err(e) => Err(e)
        case Ok(winning) =>
          match NumberList(lists[1]) {
            case Err(e) => Err(e)
            case Ok(yours) => Ok(Score(|Matching(yours, winning)|))
          }
      }
  }

  /** Part one reads a card as `Card.from_line` does: whenever a line gives
      a card, its points are the score of that card's matches. */
  lemma LinePointsOfCard(line: string)
    requires CardFromLine(line).Ok?
    ensures var card := CardFromLine(line).value;
      LinePoints(line) == Ok(Score(|Matching(card.yours, card.winning)|))
  {
  }

  /** The answer of part one. */
  function PartOne(input: string): Result<int> {
    Total(Map(LinePoints, Split(input, "\n")))
  }

  /** The body of the loop of `solve_part_one` for one line: `None` when the
      line has no match and nothing is appended. */
  method LinePointsOf(line: string) returns (r: Result<Option<int>>)
    ensures LinePoints(line).Err? ==> r == Err(LinePoints(line).failure)
    ensures LinePoints(line).Ok? ==>
      r.Ok? && (if LinePoints(line).value == 0 then r.value == None else r.value == Some(LinePoints(line).value))
  {
    var cleaned := CollapseSpaces(line);
    var halves := Split(cleaned, ":");
    if |halves| != 2 {
      return Err(ValueError);
    }
    var lists := Split(halves[1], "|");
    if |lists| != 2 {
      return Err(ValueError);
    }
    var winningNumbers := NumberList(lists[0]);
    if winningNumbers.Err? {
      return Err(winningNumbers.failure);
    }
    var yourNumbers := NumberList(lists[1]);
    if yourNumbers.Err? {
      return Err(yourNumbers.failure);
    }
    var yourWinningNumbers := Matching(yourNumbers.value, winningNumbers.value);
    if |yourWinningNumbers| > 0 {
      r := Ok(Some(Pow2(|yourWinningNumbers| - 1)));
    } else {
      r := Ok(None);
    }
  }

  method PointsAt(lines: seq<string>, k: nat) returns (v: Result<Option<int>>)
    requires k < |lines|
    ensures Map(LinePoints, lines)[k].Err? ==> v == Err(Map(LinePoints, lines)[k].failure)
    ensures Map(LinePoints, lines)[k].Ok? ==>
      v.Ok? && (if Map(LinePoints, lines)[k].value == 0 then v.value == None
                else v.value == Some(Map(LinePoints, lines)[k].value))
  {
    v := LinePointsOf(lines[k]);
    MapAt(LinePoints, lines, k);
  }

  /** `solve_part_one`: the points of the cards with a match are collected
      in a list, which is summed at the end. */
  method SolvePartOne(input: string) returns (r: Result<int>)
    ensures r == PartOne(input)
  {
    var lines := Split(input, "\n");
    ghost var values := Map(LinePoints, lines);
    var sumWinningNumbers: seq<int> := [];
    for k := 0 to |lines|
      invariant Total(values) == AddTo(Sum(sumWinningNumbers), Total(values[k..]))
    {
      var v := PointsAt(lines, k);
      TotalStep(values, k, Sum(sumWinningNumbers), values[k]);
      if v.Err? {
        return Err(v.failure);
      }
      if v.value.Some? {
        SumAppend(sumWinningNumbers, v.value.value);
        sumWinningNumbers := sumWinningNumbers + [v.value.value];
      }
    }
    TotalDone(values, Sum(sumWinningNumbers));
    r := Ok(Sum(sumWinningNumbers));
  }

  lemma {:induction false} SumAppend(xs: seq<int>, x: int)
    ensures Sum(xs + [x]) == Sum(xs) + x
  {
    if xs == [] {
      assert [] + [x] == [x];
    } else {
      assert (xs + [x])[1..] == xs[1..] + [x];
      SumAppend(xs[1..], x);
    }
  }

  // ---------------------------------------------------------------------------
  // Part two

  /** `cards[card_num - 1]` for every `card_num` in `range(lo, hi)`, in
      order; an index outside the list raises IndexError (negative indexes
      count from the end). */
  function Copies(cards: seq<Card>, lo: int, hi: int): (r: Result<seq<Card>>)
    ensures r.Ok? ==> |r.value| == (if lo < hi then hi - lo else 0)
    ensures r.Err? ==> r.failure == IndexError
    decreases hi - lo
  {
    if lo >= hi then Ok([])
    else match At(cards, lo - 1) {
      case None => Err(IndexError)
      case Some(c) =>
        match Copies(cards, lo + 1, hi) {
          case Err(e) => Err(e)
          case Ok(rest) => Ok([c] + rest)
        }
    }
  }

  /** `Copies(cards, lo, hi)` with `prefix` put in front, failures kept. */
  function Prepend(prefix: seq<Card>, r: Result<seq<Card>>): Result<seq<Card>> {
    match r {
      case Err(e) => Err(e)
      case Ok(rest) => Ok(prefix + rest)
    }
  }

  lemma PrependTwice(a: seq<Card>, b: seq<Card>, r: Result<seq<Card>>)
    ensures Prepend(a, Prepend(b, r)) == Prepend(a + b, r)
  {
    if r.Ok? {
      assert a + (b + r.value) == (a + b) + r.value;
    }
  }

  /** In a deck numbered 1, 2, 3, ... from the top, the copies won from
      `lo` on are numbered `lo`, `lo + 1`, ..., so a card only ever wins
      later cards. */
  lemma {:induction false} CopiesOfNumberedDeck(cards: seq<Card>, lo: int, hi: int)
    requires WellNumbered(cards)
    requires lo >= 1
    requires Copies(cards, lo, hi).Ok?
    ensures var copies := Copies(cards, lo, hi).value;
      forall i :: 0 <= i < |copies| ==> copies[i].number == lo + i
    decreases hi - lo
  {
    if lo < hi {
      CopiesOfNumberedDeck(cards, lo + 1, hi);
      var rest := Copies(cards, lo + 1, hi).value;
      var all := Copies(cards, lo, hi).value;
      assert all == [cards[lo - 1]] + rest;
      forall i | 0 <= i < |all| ensures all[i].number == lo + i {
        if i > 0 {
          assert all[i] == rest[i - 1];
        }
      }
    }
  }

  /** The copies won are always cards of the deck. */
  lemma {:induction false} CopiesFromDeck(cards: seq<Card>, lo: int, hi: int)
    requires Copies(cards, lo, hi).Ok?
    ensures forall c :: c in Copies(cards, lo, hi).value ==> c in cards
    decreases hi - lo
  {
    if lo < hi {
      CopiesFromDeck(cards, lo + 1, hi);
    }
  }

  /** Cards numbered 1, 2, 3, ... from the top, as in a puzzle input. */
  predicate WellNumbered(cards: seq<Card>) {
    forall i :: 0 <= i < |cards| ==> cards[i].number == i + 1
  }

  /** The number of cards won by `card`: `range(number + 1, number + 1 + k)`
      for its `k` matches. */
  function Won(cards: seq<Card>, card: Card): Result<seq<Card>> {
    var k := |Matching(card.yours, card.winning)|;
    Copies(cards, card.number + 1, card.number + 1 + k)
  }

  /** The queue loop of `solve_part_two` with at most `fuel` turns left:
      each turn takes the first card of the queue, appends the copies won
      by its matches and adds one to its instance count (KeyError for a
      number that is not a key).  The model stops with `OutOfFuel` when
      the turns run out, since the loop need not end: a card whose number
      is not its place in the deck can win a copy of itself. */
  function Process(cards: seq<Card>, queue: seq<Card>, instances: map<int, int>, fuel: nat)
    : Result<map<int, int>>
    decreases fuel
  {
    if queue == [] then Ok(instances)
    else if fuel == 0 then Err(OutOfFuel)
    else
      var card := queue[0];
      match Won(cards, card) {
        case Err(e) => Err(e)
        case Ok(copies) =>
          if card.number !in instances then Err(KeyError)
          else Process(cards, queue[1..] + copies, instances[card.number := instances[card.number] + 1], fuel - 1)
      }
  }

  /** One turn of the loop, for a card whose copies are found and whose
      number is a key. */
  lemma ProcessTurn(cards: seq<Card>, queue: seq<Card>, instances: map<int, int>, fuel: nat, copies: seq<Card>)
    requires queue != [] && fuel > 0
    requires Won(cards, queue[0]) == Ok(copies) && queue[0].number in instances
    ensures Process(cards, queue, instances, fuel) ==
      Process(cards, queue[1..] + copies, instances[queue[0].number := instances[queue[0].number] + 1], fuel - 1)
  {
  }

  /** The number of turns the loop takes before it stops. */
  function Turns(cards: seq<Card>, queue: seq<Card>, instances: map<int, int>, fuel: nat): nat
    decreases fuel
  {
    if queue == [] || fuel == 0 then 0
    else
      var card := queue[0];
      match Won(cards, card) {
        case Err(_) => 0
        case Ok(copies) =>
          if card.number !in instances then 0
          else 1 + Turns(cards, queue[1..] + copies, instances[card.number := instances[card.number] + 1], fuel - 1)
      }
  }

  /** The dictionary `{c.number: 0 for c in cards}`. */
  function ZeroCounts(cards: seq<Card>): (m: map<int, int>)
    ensures forall i :: 0 <= i < |cards| ==> cards[i].number in m && m[cards[i].number] == 0
    ensures forall n :: n in m ==> m[n] == 0
    ensures forall n :: n in m ==> exists i :: 0 <= i < |cards| && cards[i].number == n
  {
    map c | c in cards :: c.number := 0
  }

  /** The keys of that dictionary in insertion order: each card number at
      its first occurrence that is not in `seen`. */
  function Numbers(cards: seq<Card>, seen: set<int>): (ns: seq<int>)
    ensures forall i, j :: 0 <= i < j < |ns| ==> ns[i] != ns[j]
    ensures forall i :: 0 <= i < |ns| ==> ns[i] !in seen
    ensures forall i :: 0 <= i < |ns| ==> exists j :: 0 <= j < |cards| && cards[j].number == ns[i]
    ensures forall j :: 0 <= j < |cards| && cards[j].number !in seen ==> cards[j].number in ns
  {
    if cards == [] then []
    else
      var rest := Numbers(cards[1..], seen + {cards[0].number});
      assert forall i :: 0 <= i < |rest| ==> exists j :: 0 <= j < |cards| && cards[j].number == rest[i] by {
        forall i | 0 <= i < |rest| ensures exists j :: 0 <= j < |cards| && cards[j].number == rest[i] {
          var j :| 0 <= j < |cards[1..]| && cards[1..][j].number == rest[i];
          assert cards[j + 1].number == rest[i];
        }
      }
      assert forall j :: 1 <= j < |cards| ==> cards[j] == cards[1..][j - 1];
      if cards[0].number in seen then rest
      else [cards[0].number] + rest
  }

  /** `sum(instances.values())`, the values taken in the order of `keys`. */
  function SumValues(keys: seq<int>, m: map<int, int>): int
    requires forall i :: 0 <= i < |keys| ==> keys[i] in m
  {
    if keys == [] then 0 else m[keys[0]] + SumValues(keys[1..], m)
  }

  /** Adding one to the count of a key adds one to the sum. */
  lemma {:induction false} SumValuesIncrement(keys: seq<int>, m: map<int, int>, n: int)
    requires forall i, j :: 0 <= i < j < |keys| ==> keys[i] != keys[j]
    requires forall i :: 0 <= i < |keys| ==> keys[i] in m
    requires n in keys
    ensures SumValues(keys, m[n := m[n] + 1]) == SumValues(keys, m) + 1
  {
    if keys[0] == n {
      assert forall i :: 0 <= i < |keys[1..]| ==> keys[1..][i] != n;
      SumValuesUnchanged(keys[1..], m, n, m[n] + 1);
    } else {
      SumValuesIncrement(keys[1..], m, n);
    }
  }

  /** Changing the value of a key not summed leaves the sum alone. */
  lemma {:induction false} SumValuesUnchanged(keys: seq<int>, m: map<int, int>, n: int, v: int)
    requires forall i :: 0 <= i < |keys| ==> keys[i] in m && keys[i] != n
    ensures SumValues(keys, m[n := v]) == SumValues(keys, m)
  {
    if keys != [] {
      SumValuesUnchanged(keys[1..], m, n, v);
    }
  }

  /** The counts start at zero. */
  lemma {:induction false} SumValuesOfZeros(keys: seq<int>, m: map<int, int>)
    requires forall i :: 0 <= i < |keys| ==> keys[i] in m && m[keys[i]] == 0
    ensures SumValues(keys, m) == 0
  {
    if keys != [] {
      SumValuesOfZeros(keys[1..], m);
    }
  }

  /** `[Card.from_line(line) for line in lines]`: the first line that fails
      raises. */
  function CardsFromLines(lines: seq<string>): (r: Result<seq<Card>>)
    ensures r.Ok? ==> |r.value| == |lines|
    ensures r.Ok? ==> forall i :: 0 <= i < |lines| ==> CardFromLine(lines[i]) == Ok(r.value[i])
    ensures r.Err? ==> exists i :: 0 <= i < |lines| && CardFromLine(lines[i]) == Err(r.failure)
    ensures r.Err? ==> r.failure == ValueError || r.failure == IndexError
  {
    if lines == [] then Ok([])
    else match CardFromLine(lines[0]) {
      case Err(e) => Err(e)
      case Ok(card) =>
        var rest := CardsFromLines(lines[1..]);
        assert forall i :: 1 <= i < |lines| ==> lines[i] == lines[1..][i - 1];
        match rest {
          case Err(e) => Err(e)
          case Ok(cs) => Ok([card] + cs)
        }
    }
  }

  /** `solve_part_two` with at most `fuel` turns of its queue loop: the
      queue starts with every card, each count at zero, and the answer is
      the sum of the counts. */
  function PartTwo(input: string, fuel: nat): Result<int> {
    match CardsFromLines(Split(input, "\n")) {
      case Err(e) => Err(e)
      case Ok(cards) =>
        match Process(cards, cards, ZeroCounts(cards), fuel) {
          case Err(e) => Err(e)
          case Ok(instances) =>
            ProcessKeepsKeys(cards, cards, ZeroCounts(cards), fuel);
            Ok(SumValues(Numbers(cards, {}), instances))
        }
    }
  }

  /** The loop only ever updates existing keys. */
  lemma {:induction false} ProcessKeepsKeys(cards: seq<Card>, queue: seq<Card>, instances: map<int, int>, fuel: nat)
    requires Process(cards, queue, instances, fuel).Ok?
    ensures Process(cards, queue, instances, fuel).value.Keys == instances.Keys
    decreases fuel
  {
    if queue != [] {
      var card := queue[0];
      var copies := Won(cards, card).value;
      ProcessKeepsKeys(cards, queue[1..] + copies, instances[card.number := instances[card.number] + 1], fuel - 1);
    }
  }

  /** Every card in the queue comes from the deck, whose numbers are all
      keys, so `instances[card.number] += 1` never raises KeyError. */
  lemma {:induction false} ProcessNeverKeyError(cards: seq<Card>, queue: seq<Card>, instances: map<int, int>, fuel: nat)
    requires forall c :: c in queue ==> c in cards
    requires forall c :: c in cards ==> c.number in instances
    ensures Process(cards, queue, instances, fuel) != Err(KeyError)
    decreases fuel
  {
    if queue != [] && fuel > 0 && Won(cards, queue[0]).Ok? {
      var card := queue[0];
      var copies := Won(cards, card).value;
      CopiesFromDeck(cards, card.number + 1, card.number + 1 + |Matching(card.yours, card.winning)|);
      assert card.number in instances;
      var next := instances[card.number := instances[card.number] + 1];
      assert forall c :: c in queue[1..] + copies ==> c in cards by {
        forall c | c in queue[1..] + copies ensures c in cards {
          if c in queue[1..] {
            assert c in queue;
          }
        }
      }
      ProcessNeverKeyError(cards, queue[1..] + copies, next, fuel - 1);
    }
  }

  /** Every turn adds exactly one instance: the sum of the counts grows by
      the number of turns, and every card of the queue takes a turn. */
  lemma {:induction false} ProcessCountsTurns(cards: seq<Card>, queue: seq<Card>, instances: map<int, int>,
                                              fuel: nat, keys: seq<int>)
    requires forall i, j :: 0 <= i < j < |keys| ==> keys[i] != keys[j]
    requires forall i :: 0 <= i < |keys| ==> keys[i] in instances
    requires forall n :: n in instances ==> n in keys
    requires Process(cards, queue, instances, fuel).Ok?
    ensures (forall i :: 0 <= i < |keys| ==> keys[i] in Process(cards, queue, instances, fuel).value) &&
      SumValues(keys, Process(cards, queue, instances, fuel).value) ==
        SumValues(keys, instances) + Turns(cards, queue, instances, fuel)
    ensures Turns(cards, queue, instances, fuel) >= |queue|
    decreases fuel
  {
    ProcessKeepsKeys(cards, queue, instances, fuel);
    if queue != [] {
      var card := queue[0];
      var copies := Won(cards, card).value;
      var next := instances[card.number := instances[card.number] + 1];
      assert next.Keys == instances.Keys;
      ProcessCountsTurns(cards, queue[1..] + copies, next, fuel - 1, keys);
      assert card.number in keys;
      SumValuesIncrement(keys, instances, card.number);
      assert Turns(cards, queue, instances, fuel) == 1 + Turns(cards, queue[1..] + copies, next, fuel - 1);
    }
  }

  /** The number of cards numbered 1 in a queue. */
  function FirstCards(queue: seq<Card>): nat {
    if queue == [] then 0 else (if queue[0].number == 1 then 1 else 0) + FirstCards(queue[1..])
  }

  lemma {:induction false} FirstCardsAppend(a: seq<Card>, b: seq<Card>)
    ensures FirstCards(a + b) == FirstCards(a) + FirstCards(b)
  {
    if a == [] {
      assert a + b == b;
    } else {
      assert (a + b)[1..] == a[1..] + b;
      FirstCardsAppend(a[1..], b);
    }
  }

  lemma {:induction false} FirstCardsNone(a: seq<Card>)
    requires forall i :: 0 <= i < |a| ==> a[i].number >= 2
    ensures FirstCards(a) == 0
  {
    if a != [] {
      FirstCardsNone(a[1..]);
    }
  }

  /** In a deck numbered 1, 2, 3, ... no card wins a copy of card 1, so
      card 1 is counted once for each time it is in the queue. */
  lemma {:induction false} ProcessFirstCard(cards: seq<Card>, queue: seq<Card>, instances: map<int, int>, fuel: nat)
    requires WellNumbered(cards)
    requires forall i :: 0 <= i < |queue| ==> queue[i].number >= 1
    requires 1 in instances
    requires Process(cards, queue, instances, fuel).Ok?
    ensures 1 in Process(cards, queue, instances, fuel).value
    ensures Process(cards, queue, instances, fuel).value[1] == instances[1] + FirstCards(queue)
    decreases fuel
  {
    if queue != [] {
      var card := queue[0];
      var copies := Won(cards, card).value;
      CopiesOfNumberedDeck(cards, card.number + 1, card.number + 1 + |Matching(card.yours, card.winning)|);
      FirstCardsNone(copies);
      FirstCardsAppend(queue[1..], copies);
      var next := instances[card.number := instances[card.number] + 1];
      ProcessFirstCard(cards, queue[1..] + copies, next, fuel - 1);
    }
  }

  /** The cards are always found among the keys: part two never raises
      KeyError. */
  lemma PartTwoNeverKeyError(input: string, fuel: nat)
    ensures PartTwo(input, fuel) != Err(KeyError)
  {
    var parsed := CardsFromLines(Split(input, "\n"));
    if parsed.Ok? {
      var cards := parsed.value;
      assert Process(cards, cards, ZeroCounts(cards), fuel) != Err(KeyError) by {
        ProcessNeverKeyError(cards, cards, ZeroCounts(cards), fuel);
      }
    }
  }

  /** Part two counts one instance for every turn of the queue loop, and
      at least one for every card. */
  lemma PartTwoCountsTurns(input: string, fuel: nat)
    requires PartTwo(input, fuel).Ok?
    ensures var cards := CardsFromLines(Split(input, "\n")).value;
      PartTwo(input, fuel).value == Turns(cards, cards, ZeroCounts(cards), fuel) &&
      PartTwo(input, fuel).value >= |cards|
  {
    var cards := CardsFromLines(Split(input, "\n")).value;
    var zero := ZeroCounts(cards);
    var keys := Numbers(cards, {});
    assert forall i :: 0 <= i < |keys| ==> keys[i] in zero;
    assert forall n :: n in zero ==> n in keys;
    ProcessCountsTurns(cards, cards, zero, fuel, keys);
    SumValuesOfZeros(keys, zero);
  }

  /** In a deck numbered 1, 2, 3, ... card 1 ends with exactly one
      instance: no card wins a copy of it. */
  lemma FirstCardOnce(cards: seq<Card>, fuel: nat)
    requires WellNumbered(cards) && |cards| > 0
    requires Process(cards, cards, ZeroCounts(cards), fuel).Ok?
    ensures 1 in Process(cards, cards, ZeroCounts(cards), fuel).value
    ensures Process(cards, cards, ZeroCounts(cards), fuel).value[1] == 1
  {
    assert cards[0].number == 1;
    ProcessFirstCard(cards, cards, ZeroCounts(cards), fuel);
    FirstCardsNone(cards[1..]);
  }

  /** The copies won by `card`, appended to `queue` one by one as the inner
      loop of `solve_part_two` does; nothing is appended without a match. */
  method AppendWon(cards: seq<Card>, card: Card, queue: seq<Card>) returns (r: Result<seq<Card>>)
    ensures r == Prepend(queue, Won(cards, card))
  {
    var matchingNumbers := Matching(card.yours, card.winning);
    var q := queue;
    if |matchingNumbers| > 0 {
      var startingNumber := card.number + 1;
      var endingNumber := startingNumber + |matchingNumbers|;
      for cardNum := startingNumber to endingNumber
        invariant Prepend(queue, Won(cards, card)) == Prepend(q, Copies(cards, cardNum, endingNumber))
      {
        var c := At(cards, cardNum - 1);
        if c.None? {
          return Err(IndexError);
        }
        assert Copies(cards, cardNum, endingNumber) == Prepend([c.value], Copies(cards, cardNum + 1, endingNumber));
        PrependTwice(q, [c.value], Copies(cards, cardNum + 1, endingNumber));
        q := q + [c.value];
      }
    }
    assert q + [] == q;
    r := Ok(q);
  }

  /** The queue loop of `solve_part_two`, taking at most `fuel` turns. */
  method CountInstances(cards: seq<Card>, fuel: nat) returns (r: Result<map<int, int>>)
    ensures r == Process(cards, cards, ZeroCounts(cards), fuel)
  {
    var instances := ZeroCounts(cards);
    var dqCardsToCheck := cards;
    var turnsLeft: nat := fuel;
    ghost var result := Process(cards, cards, instances, fuel);
    while |dqCardsToCheck| > 0
      invariant Process(cards, dqCardsToCheck, instances, turnsLeft) == result
      decreases turnsLeft
    {
      if turnsLeft == 0 {
        return Err(OutOfFuel);
      }
      var card := dqCardsToCheck[0];
      var appended := AppendWon(cards, card, dqCardsToCheck[1..]);
      if appended.Err? {
        return Err(appended.failure);
      }
      if card.number !in instances {
        return Err(KeyError);
      }
      ghost var copies := Won(cards, card).value;
      assert appended.value == dqCardsToCheck[1..] + copies;
      var counted := instances[card.number := instances[card.number] + 1];
      assert Process(cards, appended.value, counted, turnsLeft - 1) == result by {
        ProcessTurn(cards, dqCardsToCheck, instances, turnsLeft, copies);
      }
      dqCardsToCheck := appended.value;
      instances := counted;
      turnsLeft := turnsLeft - 1;
    }
    r := Ok(instances);
  }

  /** `solve_part_two`, its queue loop taking at most `fuel` turns. */
  method SolvePartTwo(input: string, fuel: nat) returns (r: Result<int>)
    ensures r == PartTwo(input, fuel)
  {
    var parsed := CardsFromLines(Split(input, "\n"));
    if parsed.Err? {
      return Err(parsed.failure);
    }
    var cards := parsed.value;
    var instances := CountInstances(cards, fuel);
    if instances.Err? {
      return Err(instances.failure);
    }
    ProcessKeepsKeys(cards, cards, ZeroCounts(cards), fuel);
    r := Ok(SumValues(Numbers(cards, {}), instances.value));
  }
}
