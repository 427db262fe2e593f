/** Day 7: hands of five cards with a bid each.  A hand's type is decided by
    how its cards fall into groups of equal cards; hands are ranked by type
    strength and then card by card, and the winnings are the sum of rank
    times bid.  In part two every joker `J` counts as the most common other
    card of the hand when the type is decided. */
module Day7 {
  import opened Wrappers
  import opened Text
  import opened Sums
  import opened Sorting

  // ---------------------------------------------------------------------------
  // Hand types

  /** The types in the order they are declared, strongest first. */
  datatype HandType =
    | FiveOfAKind
    | FourOfAKind
    | FullHouse
    | ThreeOfAKind
    | TwoPair
    | OnePair
    | HighCard

  /** The value `auto()` gives each type: its place in the declaration,
      counting from 1. */
  function Value(t: HandType): nat {
    match t
    case FiveOfAKind => 1
    case FourOfAKind => 2
    case FullHouse => 3
    case ThreeOfAKind => 4
    case TwoPair => 5
    case OnePair => 6
    case HighCard => 7
  }

  const TypeCount: nat := 7

  /** `HandType.strength`: the number of types minus the value, plus one. */
  function Strength(t: HandType): (s: int)
    ensures 1 <= s <= 7
  {
    TypeCount - Value(t) + 1
  }

  /** Strength falls strictly along the declaration: 7 for five of a kind
      down to 1 for high card. */
  lemma StrengthRanks()
    ensures Strength(FiveOfAKind) == 7 && Strength(HighCard) == 1
    ensures Strength(FiveOfAKind) > Strength(FourOfAKind) > Strength(FullHouse) >
      Strength(ThreeOfAKind) > Strength(TwoPair) > Strength(OnePair) > Strength(HighCard)
    ensures forall t, u :: Strength(t) == Strength(u) ==> t == u
  {
  }

  // ---------------------------------------------------------------------------
  // Groups of equal cards

  /** The different cards of `s`, each once, in the order they first occur. */
  function Distinct(s: string): (d: string)
    ensures forall i, j :: 0 <= i < j < |d| ==> d[i] != d[j]
    ensures forall c :: c in d <==> c in s
    ensures |d| <= |s|
  {
    if s == [] then []
    else
      var p := s[..|s| - 1];
      var prev := Distinct(p);
      var x := s[|s| - 1];
      assert s == p + [x];
      if x in prev then prev else prev + [x]
  }

  /** The number of times each card of `d` occurs in `s`. */
  function SizesOf(d: string, s: string): (r: seq<nat>)
    ensures |r| == |d|
    ensures forall i :: 0 <= i < |d| ==> r[i] == multiset(s)[d[i]]
  {
    if d == [] then [] else [multiset(s)[d[0]]] + SizesOf(d[1..], s)
  }

  /** The sizes of the groups of equal cards that sorting and `groupby` make:
      one group per different card, as large as that card's count. */
  function Sizes(s: string): (r: seq<nat>)
    ensures |r| == |Distinct(s)|
    ensures forall i :: 0 <= i < |r| ==> r[i] >= 1
  {
    var d := Distinct(s);
    var r := SizesOf(d, s);
    assert forall i :: 0 <= i < |r| ==> r[i] >= 1 by {
      forall i | 0 <= i < |r| ensures r[i] >= 1 {
        assert d[i] in d;
      }
    }
    r
  }

  /** One more card in `s` adds one to the count of its group, if `d` has it. */
  lemma {:induction false} SizesOfAppendCard(d: string, s: string, x: char)
    requires forall i, j :: 0 <= i < j < |d| ==> d[i] != d[j]
    ensures Sum(SizesOf(d, s + [x])) == Sum(SizesOf(d, s)) + (if x in d then 1 else 0)
  {
    if d != [] {
      assert multiset(s + [x]) == multiset(s) + multiset{x};
      assert x in d <==> x == d[0] || x in d[1..];
      SizesOfAppendCard(d[1..], s, x);
    }
  }

  /** One more group adds its count. */
  lemma {:induction false} SizesOfAppendGroup(d: string, s: string, y: char)
    ensures Sum(SizesOf(d + [y], s)) == Sum(SizesOf(d, s)) + multiset(s)[y]
  {
    if d != [] {
      assert (d + [y])[1..] == d[1..] + [y];
      SizesOfAppendGroup(d[1..], s, y);
    }
  }

  /** The groups together hold every card. */
  lemma {:induction false} SizesSum(s: string)
    ensures Sum(Sizes(s)) == |s|
  {
    if s != [] {
      var p := s[..|s| - 1];
      var x := s[|s| - 1];
      assert s == p + [x];
      var d := Distinct(p);
      SizesSum(p);
      if x in d {
        SizesOfAppendCard(d, p, x);
      } else {
        assert x !in p;
        SizesOfAppendCard(d, p, x);
        SizesOfAppendGroup(d, s, x);
        assert multiset(s)[x] == 1;
      }
    }
  }

  /** The smallest of some sizes: the first group once sorted by size. */
  function MinOf(xs: seq<nat>): (m: nat)
    requires |xs| > 0
    ensures forall i :: 0 <= i < |xs| ==> m <= xs[i]
    ensures exists i :: 0 <= i < |xs| && m == xs[i]
  {
    if |xs| == 1 then xs[0]
    else
      var m := MinOf(xs[1..]);
      assert forall i :: 1 <= i < |xs| ==> xs[i] == xs[1..][i - 1];
      if xs[0] <= m then xs[0] else m
  }

  /** The largest of some sizes: the last group once sorted by size. */
  function MaxOf(xs: seq<nat>): (m: nat)
    requires |xs| > 0
    ensures forall i :: 0 <= i < |xs| ==> xs[i] <= m
    ensures exists i :: 0 <= i < |xs| && m == xs[i]
  {
    if |xs| == 1 then xs[0]
    else
      var m := MaxOf(xs[1..]);
      assert forall i :: 1 <= i < |xs| ==> xs[i] == xs[1..][i - 1];
      if xs[0] >= m then xs[0] else m
  }

  /** The type `__post_init__` assigns to five cards. */
  function TypeOf(cards: string): (t: HandType)
    requires |cards| == 5
    ensures t == TypeByLargestGroup(|Sizes(cards)|, MaxOf(Sizes(cards)))
  {
    TypeOfByLargestGroup(cards);
    TypeOfGroups(Sizes(cards))
  }

  /** The branches of `__post_init__` on the group sizes: the number of
      groups, and the smallest or the largest group where two or three
      groups need telling apart. */
  function TypeOfGroups(sizes: seq<nat>): HandType {
    if |sizes| == 1 then FiveOfAKind
    else if |sizes| == 2 && MinOf(sizes) == 1 then FourOfAKind
    else if |sizes| == 2 && MinOf(sizes) == 2 then FullHouse
    else if |sizes| == 3 && MaxOf(sizes) == 3 then ThreeOfAKind
    else if |sizes| == 3 then TwoPair
    else if |sizes| == 4 then OnePair
    else HighCard
  }

  /** The types as the puzzle lists them, strongest first, told apart by
      the size of the largest group and the number of groups. */
  function TypeByLargestGroup(groups: nat, largest: nat): HandType {
    if largest >= 5 then FiveOfAKind
    else if largest == 4 then FourOfAKind
    else if largest == 3 && groups == 2 then FullHouse
    else if largest == 3 then ThreeOfAKind
    else if largest == 2 && groups == 3 then TwoPair
    else if largest == 2 then OnePair
    else HighCard
  }

  /** Deciding by the number of groups and the smallest group for two
      groups, as the constructor does, gives the puzzle's type. */
  lemma TypeOfByLargestGroup(cards: string)
    requires |cards| == 5
    ensures TypeOfGroups(Sizes(cards)) == TypeByLargestGroup(|Sizes(cards)|, MaxOf(Sizes(cards)))
  {
    var xs := Sizes(cards);
    SizesSum(cards);
    SumAtLeastLength(xs);
    GroupsByLargest(xs);
  }

  /** Group sizes of five cards decide the same type by the branches of the
      constructor and by the largest group. */
  lemma GroupsByLargest(xs: seq<nat>)
    requires 0 < |xs| <= 5 && Sum(xs) == 5 && forall i :: 0 <= i < |xs| ==> xs[i] >= 1
    ensures TypeOfGroups(xs) == TypeByLargestGroup(|xs|, MaxOf(xs))
  {
    if |xs| == 1 {
      GroupsOfOne(xs);
    } else if |xs| == 2 {
      GroupsOfTwo(xs);
    } else if |xs| == 3 {
      GroupsOfThree(xs);
    } else if |xs| == 4 {
      GroupsOfFour(xs);
    } else {
      GroupsOfFive(xs);
    }
  }

  lemma GroupsOfOne(xs: seq<nat>)
    requires |xs| == 1 && Sum(xs) == 5
    ensures MaxOf(xs) == 5
  {
    assert Sum(xs) == xs[0] + Sum(xs[1..]);
  }

  lemma GroupsOfThree(xs: seq<nat>)
    requires |xs| == 3 && Sum(xs) == 5 && forall i :: 0 <= i < 3 ==> xs[i] >= 1
    ensures MaxOf(xs) == 2 || MaxOf(xs) == 3
  {
    SumOfThree(xs);
  }

  lemma GroupsOfFour(xs: seq<nat>)
    requires |xs| == 4 && Sum(xs) == 5 && forall i :: 0 <= i < 4 ==> xs[i] >= 1
    ensures MaxOf(xs) == 2
  {
    SumOfFour(xs);
  }

  lemma GroupsOfFive(xs: seq<nat>)
    requires |xs| == 5 && Sum(xs) == 5 && forall i :: 0 <= i < 5 ==> xs[i] >= 1
    ensures MaxOf(xs) == 1
  {
    SumAtLeastLength(xs);
  }

  lemma GroupsOfTwo(xs: seq<nat>)
    requires |xs| == 2 && Sum(xs) == 5 && xs[0] >= 1 && xs[1] >= 1
    ensures MinOf(xs) == 1 <==> MaxOf(xs) == 4
    ensures MinOf(xs) == 2 <==> MaxOf(xs) == 3
    ensures MinOf(xs) == 1 || MinOf(xs) == 2
  {
    assert xs[1..] == [xs[1]];
    assert MinOf(xs[1..]) == xs[1] && MaxOf(xs[1..]) == xs[1];
    assert Sum(xs[1..]) == xs[1] + Sum(xs[1..][1..]);
  }

  lemma SumOfThree(xs: seq<nat>)
    requires |xs| == 3
    ensures Sum(xs) == xs[0] + xs[1] + xs[2]
  {
    var t := xs[1..];
    var u := t[1..];
    assert u[1..] == [];
    assert Sum(u) == xs[2] + Sum(u[1..]);
    assert Sum(t) == xs[1] + Sum(u);
  }

  lemma SumOfFour(xs: seq<nat>)
    requires |xs| == 4
    ensures Sum(xs) == xs[0] + xs[1] + xs[2] + xs[3]
  {
    SumOfThree(xs[1..]);
    assert Sum(xs) == xs[0] + Sum(xs[1..]);
  }

  lemma {:induction false} SumAtLeastLength(xs: seq<nat>)
    requires forall i :: 0 <= i < |xs| ==> xs[i] >= 1
    ensures Sum(xs) >= |xs|
    ensures Sum(xs) == |xs| ==> forall i :: 0 <= i < |xs| ==> xs[i] == 1
  {
    if xs != [] {
      SumAtLeastLength(xs[1..]);
      assert forall i :: 1 <= i < |xs| ==> xs[i] == xs[1..][i - 1];
    }
  }

  /** `HandOfCards`: the constructor asserts five cards, and the type it
      gives them is the one the number of different cards and the largest
      count fix. */
  function Classify(cards: string): (r: Result<HandType>)
    ensures r.Err? <==> |cards| != 5
    ensures r.Err? ==> r.failure == AssertionError
    ensures r.Ok? ==> |Sizes(cards)| == |Distinct(cards)| > 0
    ensures r.Ok? ==> r.value == TypeByLargestGroup(|Distinct(cards)|, MaxOf(Sizes(cards)))
  {
    if |cards| != 5 then Err(AssertionError)
    else
      Ok(TypeOf(cards))
  }


  // ---------------------------------------------------------------------------
  // Jokers

  /** The position in `d` of the card `Counter(s).most_common()` lists first
      among the cards other than `J`: the largest count, and of equal counts
      the card seen first. */
  function MostCommonIndex(d: string, s: string): (r: Option<nat>)
    ensures r.None? <==> forall i :: 0 <= i < |d| ==> d[i] == 'J'
    ensures r.Some? ==> r.value < |d| && d[r.value] != 'J'
    ensures r.Some? ==> forall i :: 0 <= i < |d| && d[i] != 'J' ==>
      multiset(s)[d[i]] <= multiset(s)[d[r.value]]
    ensures r.Some? ==> forall i :: 0 <= i < r.value && d[i] != 'J' ==>
      multiset(s)[d[i]] < multiset(s)[d[r.value]]
  {
    if d == [] then None
    else
      var init := d[..|d| - 1];
      var best := MostCommonIndex(init, s);
      var x := d[|d| - 1];
      assert forall i :: 0 <= i < |init| ==> init[i] == d[i];
      if x == 'J' then best
      else if best.None? || multiset(s)[x] > multiset(s)[d[best.value]] then Some(|d| - 1)
      else best
  }

  /** `_get_most_common_card`: the most common card other than `J`, or `2`
      when the hand holds only jokers. */
  function JokerCard(cards: string): (c: char)
    ensures c != 'J'
    ensures (forall i :: 0 <= i < |cards| ==> cards[i] == 'J') ==> c == '2'
    ensures (exists i :: 0 <= i < |cards| && cards[i] != 'J') ==>
      c in cards && forall i :: 0 <= i < |cards| && cards[i] != 'J' ==> multiset(cards)[cards[i]] <= multiset(cards)[c]
  {
    var d := Distinct(cards);
    match MostCommonIndex(d, cards)
    case None =>
      assert forall i :: 0 <= i < |cards| ==> cards[i] == 'J' by {
        forall i | 0 <= i < |cards| ensures cards[i] == 'J' {
          assert cards[i] in d;
        }
      }
      '2'
    case Some(k) =>
      assert d[k] in cards;
      assert forall i :: 0 <= i < |cards| && cards[i] != 'J' ==> multiset(cards)[cards[i]] <= multiset(cards)[d[k]] by {
        forall i | 0 <= i < |cards| && cards[i] != 'J'
          ensures multiset(cards)[cards[i]] <= multiset(cards)[d[k]]
        {
          assert cards[i] in d;
          var j :| 0 <= j < |d| && d[j] == cards[i];
        }
      }
      d[k]
  }

  /** `str.replace(a, b)` for single characters. */
  function ReplaceChar(s: string, a: char, b: char): (r: string)
    ensures |r| == |s|
    ensures forall i :: 0 <= i < |s| ==> r[i] == if s[i] == a then b else s[i]
  {
    if s == [] then [] else [if s[0] == a then b else s[0]] + ReplaceChar(s[1..], a, b)
  }

  /** The type of a part-two hand: its jokers count as `JokerCard` when it
      has any. */
  function BonusTypeOf(cards: string): HandType
    requires |cards| == 5
  {
    if 'J' in cards then TypeOf(ReplaceChar(cards, 'J', JokerCard(cards))) else TypeOf(cards)
  }

  /** `BonusHandOfCards`: the constructor asserts five cards, and types
      them as `HandOfCards` does once every joker is replaced by the most
      common other card. */
  function BonusClassify(cards: string): (r: Result<HandType>)
    ensures r.Err? <==> |cards| != 5
    ensures r.Err? ==> r.failure == AssertionError
    ensures r.Ok? ==>
      var played := if 'J' in cards then ReplaceChar(cards, 'J', JokerCard(cards)) else cards;
      |Sizes(played)| == |Distinct(played)| > 0 &&
      r.value == TypeByLargestGroup(|Distinct(played)|, MaxOf(Sizes(played)))
  {
    if |cards| != 5 then Err(AssertionError)
    else
      var played := if 'J' in cards then ReplaceChar(cards, 'J', JokerCard(cards)) else cards;
      assert TypeOf(played) == BonusTypeOf(cards);
      Ok(BonusTypeOf(cards))
  }

  /** The different cards of a hand, as a set. */
  function CardSet(s: string): set<char> {
    set c | c in s
  }

  /** A sequence without repeats has as many elements as its set. */
  lemma {:induction false} DistinctCardinality(d: string)
    requires forall i, j :: 0 <= i < j < |d| ==> d[i] != d[j]
    ensures |CardSet(d)| == |d|
  {
    if d != [] {
      var rest := d[1..];
      DistinctCardinality(rest);
      assert d[0] !in rest;
      assert CardSet(d) == {d[0]} + CardSet(rest);
    }
  }

  /** The number of groups is the number of different cards. */
  lemma GroupCount(s: string)
    ensures |Sizes(s)| == |CardSet(s)|
  {
    var d := Distinct(s);
    DistinctCardinality(d);
    assert CardSet(d) == CardSet(s);
  }

  lemma MultisetOfFirst(s: string, c: char)
    requires s != []
    ensures multiset(s)[c] == (if s[0] == c then 1 else 0) + multiset(s[1..])[c]
  {
    assert s == [s[0]] + s[1..];
    assert multiset(s) == multiset{s[0]} + multiset(s[1..]);
  }

  /** Replacing `a` by another card `b` moves the count of `a` onto `b`. */
  lemma {:induction false} ReplaceCount(s: string, a: char, b: char, c: char)
    requires a != b
    ensures multiset(ReplaceChar(s, a, b))[c] ==
      if c == a then 0 else if c == b then multiset(s)[a] + multiset(s)[b] else multiset(s)[c]
  {
    if s != [] {
      var r := ReplaceChar(s, a, b);
      ReplaceCount(s[1..], a, b, c);
      assert r[1..] == ReplaceChar(s[1..], a, b);
      MultisetOfFirst(r, c);
      MultisetOfFirst(s, a);
      MultisetOfFirst(s, b);
      MultisetOfFirst(s, c);
    }
  }

  /** The largest group is as large as the count of any card of the hand. */
  lemma LargestGroupHolds(s: string, c: char)
    requires c in s
    ensures MaxOf(Sizes(s)) >= multiset(s)[c]
  {
    var d := Distinct(s);
    var i :| 0 <= i < |d| && d[i] == c;
    assert Sizes(s)[i] == multiset(s)[c];
  }

  /** The largest group is the count of some card of the hand. */
  lemma LargestGroupIsACount(s: string) returns (c: char)
    requires |s| > 0
    ensures c in s && MaxOf(Sizes(s)) == multiset(s)[c]
  {
    var d := Distinct(s);
    var sizes := Sizes(s);
    assert s[0] in d;
    assert |sizes| == |d|;
    var i :| 0 <= i < |sizes| && MaxOf(sizes) == sizes[i];
    c := d[i];
    assert sizes[i] == multiset(s)[c];
  }

  lemma {:induction false} SumAtMost(xs: seq<nat>, m: nat)
    requires forall i :: 0 <= i < |xs| ==> xs[i] <= m
    ensures Sum(xs) <= |xs| * m
  {
    if xs != [] {
      SumAtMost(xs[1..], m);
      assert forall i :: 1 <= i < |xs| ==> xs[i] == xs[1..][i - 1];
    }
  }

  lemma {:induction false} SumAtLeastOnePlusRest(xs: seq<nat>, k: nat)
    requires k < |xs| && forall i :: 0 <= i < |xs| ==> xs[i] >= 1
    ensures Sum(xs) >= xs[k] + |xs| - 1
  {
    var rest := xs[1..];
    assert forall i :: 0 <= i < |rest| ==> rest[i] == xs[i + 1];
    if k == 0 {
      SumAtLeastLength(rest);
    } else {
      SumAtLeastOnePlusRest(rest, k - 1);
    }
  }

  /** What five cards allow: `groups` groups of at least one card whose
      largest has `largest` cards. */
  predicate Feasible(groups: nat, largest: nat) {
    1 <= groups && 1 <= largest && groups * largest >= 5 && largest + groups - 1 <= 5
  }

  lemma FeasibleHand(cards: string)
    requires |cards| == 5
    ensures Feasible(|Sizes(cards)|, MaxOf(Sizes(cards)))
  {
    var xs := Sizes(cards);
    SizesSum(cards);
    SumAtMost(xs, MaxOf(xs));
    var k :| 0 <= k < |xs| && MaxOf(xs) == xs[k];
    SumAtLeastOnePlusRest(xs, k);
  }

  /** One group fewer and a largest group at least as large never gives a
      weaker type. */
  lemma StrengthMonotone(groups: nat, largest: nat, groups2: nat, largest2: nat)
    requires Feasible(groups, largest) && Feasible(groups2, largest2)
    requires groups2 == groups - 1 && largest2 >= largest
    ensures Strength(TypeByLargestGroup(groups2, largest2)) >= Strength(TypeByLargestGroup(groups, largest))
  {
    assert groups <= 5 && largest <= 5;
  }

  /** A hand whose cards are all the same card is five of a kind. */
  lemma OneCardOnly(s: string)
    requires |s| == 5 && forall i :: 0 <= i < 5 ==> s[i] == s[0]
    ensures TypeOf(s) == FiveOfAKind
  {
    assert CardSet(s) == {s[0]};
    GroupCount(s);
  }

  /** Replacing every joker by a card of the hand removes the jokers' group
      and leaves the other cards. */
  lemma ReplaceCardSet(cards: string, x: char)
    requires 'J' in cards && x in cards && x != 'J'
    ensures CardSet(ReplaceChar(cards, 'J', x)) == CardSet(cards) - {'J'}
  {
    var t := ReplaceChar(cards, 'J', x);
    forall c ensures c in CardSet(t) <==> c in CardSet(cards) && c != 'J' {
      ReplaceCount(cards, 'J', x, c);
      assert c in t <==> multiset(t)[c] > 0;
      assert c in cards <==> multiset(cards)[c] > 0;
    }
  }

  /** Merging the jokers into another group leaves one group fewer. */
  lemma ReplaceGroupCount(cards: string, x: char)
    requires 'J' in cards && x in cards && x != 'J'
    ensures |Sizes(ReplaceChar(cards, 'J', x))| == |Sizes(cards)| - 1
  {
    var t := ReplaceChar(cards, 'J', x);
    ReplaceCardSet(cards, x);
    GroupCount(t);
    GroupCount(cards);
    assert 'J' in CardSet(cards);
    assert |CardSet(cards) - {'J'}| == |CardSet(cards)| - 1;
  }

  /** Merging the jokers into another group never shrinks the largest group. */
  lemma ReplaceLargestGroup(cards: string, x: char)
    requires |cards| > 0 && x in cards && x != 'J'
    ensures MaxOf(Sizes(ReplaceChar(cards, 'J', x))) >= MaxOf(Sizes(cards))
  {
    var t := ReplaceChar(cards, 'J', x);
    var c := LargestGroupIsACount(cards);
    var c2 := if c == 'J' then x else c;
    ReplaceCount(cards, 'J', x, c2);
    LargestGroupHolds(t, c2);
  }

  /** Jokers never make a hand weaker: the part-two type is at least as
      strong as the part-one type of the same cards. */
  lemma JokerNeverWeakens(cards: string)
    requires |cards| == 5
    ensures Strength(BonusTypeOf(cards)) >= Strength(TypeOf(cards))
  {
    if 'J' in cards {
      var x := JokerCard(cards);
      var t := ReplaceChar(cards, 'J', x);
      if forall i :: 0 <= i < 5 ==> cards[i] == 'J' {
        OneCardOnly(t);
      } else {
        ReplaceGroupCount(cards, x);
        ReplaceLargestGroup(cards, x);
        FeasibleHand(cards);
        FeasibleHand(t);
        StrengthMonotone(|Sizes(cards)|, MaxOf(Sizes(cards)), |Sizes(t)|, MaxOf(Sizes(t)));
      }
    }
  }

  /** A hand of five jokers counts as `22222`: five of a kind. */
  lemma AllJokers(cards: string)
    requires |cards| == 5 && forall i :: 0 <= i < 5 ==> cards[i] == 'J'
    ensures JokerCard(cards) == '2'
    ensures forall i :: 0 <= i < 5 ==> ReplaceChar(cards, 'J', JokerCard(cards))[i] == '2'
    ensures BonusTypeOf(cards) == FiveOfAKind
  {
    assert cards[0] == 'J';
    OneCardOnly(ReplaceChar(cards, 'J', '2'));
  }


  // ---------------------------------------------------------------------------
  // Comparing hands

  /** The cards from strongest to weakest, as `Day7` lists them. */
  const CardOrder: string := "AKQJT98765432"

  /** `_strengths`: each card's place in the reversed order, so `2` is 0 and
      `A` is 12.  Both parts use it, so in part two `J` still ranks between
      `Q` and `T`. */
  const Strengths: map<char, nat> :=
    map['2' := 0, '3' := 1, '4' := 2, '5' := 3, '6' := 4, '7' := 5, '8' := 6,
        '9' := 7, 'T' := 8, 'J' := 9, 'Q' := 10, 'K' := 11, 'A' := 12]

  /** The map holds exactly the thirteen cards of the order. */
  lemma StrengthsKeys()
    ensures Strengths.Keys == set c | c in CardOrder
  {
  }

  /** Each card's strength is its place counted from the weakest end of the
      order, as enumerating the reversed order gives. */
  lemma StrengthsInverse()
    ensures forall c :: c in Strengths ==> Strengths[c] < 13 && CardOrder[12 - Strengths[c]] == c
  {
  }

  lemma StrengthBelow13(c: char)
    requires c in Strengths
    ensures Strengths[c] < 13
  {
    StrengthsInverse();
  }

  /** No two cards share a strength. */
  lemma StrengthsInjective(c: char, d: char)
    requires c in Strengths && d in Strengths && Strengths[c] == Strengths[d]
    ensures c == d
  {
    StrengthsInverse();
  }

  /** A hand with the type `HandOfCards` or `BonusHandOfCards` gave it. */
  datatype Hand = Hand(kind: HandType, cards: string)

  /** A line of the input: the (hand, bid) pair the source sorts. */
  datatype Entry = Entry(hand: Hand, bid: int)

  /** The `zip` loop of `sort_hands_on_strength`: the first pair of differing
      cards decides; looking up a card missing from `_strengths` raises
      KeyError, the left card first; when no pair differs the loop ends and
      the comparison returns None. */
  function CompareCards(x: string, y: string): (r: Result<Option<int>>)
    ensures r.Err? ==> r.failure == KeyError
    ensures r.Ok? && r.value.Some? ==> r.value.value == 1 || r.value.value == -1
    decreases |x|
  {
    if x == [] || y == [] then Ok(None)
    else if x[0] == y[0] then CompareCards(x[1..], y[1..])
    else if x[0] !in Strengths || y[0] !in Strengths then Err(KeyError)
    else if Strengths[x[0]] > Strengths[y[0]] then Ok(Some(1))
    else Ok(Some(-1))
  }

  /** `sort_hands_on_strength` on the two hands (the bids play no part): the
      stronger type first, then the cards. */
  function Compare(left: Hand, right: Hand): (r: Result<Option<int>>)
    ensures r.Err? ==> r.failure == KeyError
  {
    if Strength(left.kind) > Strength(right.kind) then Ok(Some(1))
    else if Strength(left.kind) < Strength(right.kind) then Ok(Some(-1))
    else CompareCards(left.cards, right.cards)
  }

  /** `sort_hands_on_strength` with its loop over the zipped cards. */
  method CompareHands(left: Hand, right: Hand) returns (r: Result<Option<int>>)
    ensures r == Compare(left, right)
  {
    if Strength(left.kind) > Strength(right.kind) {
      return Ok(Some(1));
    } else if Strength(left.kind) < Strength(right.kind) {
      return Ok(Some(-1));
    }
    var n := if |left.cards| < |right.cards| then |left.cards| else |right.cards|;
    for i := 0 to n
      invariant CompareCards(left.cards[i..], right.cards[i..]) == Compare(left, right)
    {
      var x, y := left.cards[i], right.cards[i];
      assert left.cards[i..][1..] == left.cards[i + 1..];
      assert right.cards[i..][1..] == right.cards[i + 1..];
      if x == y {
        continue;
      }
      if x !in Strengths || y !in Strengths {
        return Err(KeyError);
      }
      if Strengths[x] > Strengths[y] {
        return Ok(Some(1));
      } else {
        return Ok(Some(-1));
      }
    }
    assert left.cards[n..] == [] || right.cards[n..] == [];
    return Ok(None);
  }

  // ---------------------------------------------------------------------------
  // The order behind the comparison

  function Pow13(n: nat): (p: nat)
    ensures p >= 1
  {
    if n == 0 then 1 else 13 * Pow13(n - 1)
  }

  /** Every card is one `_strengths` knows. */
  predicate KnownCards(s: string) {
    forall i :: 0 <= i < |s| ==> s[i] in Strengths
  }

  /** A well-formed hand: five known cards. */
  predicate ValidHand(h: Hand) {
    |h.cards| == 5 && KnownCards(h.cards)
  }

  /** The cards read as a base-13 numeral whose digits are the strengths. */
  function CardsKey(s: string): (k: nat)
    requires KnownCards(s)
    ensures k < Pow13(|s|)
  {
    if s == [] then 0
    else
      StrengthBelow13(s[0]);
      var d := Strengths[s[0]];
      var rest := CardsKey(s[1..]);
      DigitFirst(d, 12, Pow13(|s| - 1), rest, Pow13(|s| - 1));
      d * Pow13(|s| - 1) + rest
  }

  /** The number of five-card numerals, 13 to the 5th. */
  const HandSpan: nat := 371293

  lemma HandSpanIsPow13()
    ensures Pow13(5) == HandSpan
  {
  }

  /** A hand's rank as one number: the type strength is the leading digit
      before the five card digits. */
  function Key(h: Hand): nat
    requires ValidHand(h)
  {
    Strength(h.kind) * HandSpan + CardsKey(h.cards)
  }

  /** `-1`, `0` (None) or `1` as `a` is below, equal to or above `b`. */
  function ThreeWay(a: int, b: int): Result<Option<int>> {
    if a < b then Ok(Some(-1)) else if a > b then Ok(Some(1)) else Ok(None)
  }

  /** A smaller leading digit makes a smaller number whatever follows. */
  lemma DigitFirst(a: nat, b: nat, p: nat, r: nat, s: nat)
    requires a < b + 1 && r < p
    ensures a * p + r < b * p + p
  {
    assert (b + 1 - a) * p >= p by {
      assert (b + 1 - a) * p == (b - a) * p + p;
    }
  }

  /** A leading digit decides the order of two numbers with the same number
      of places. */
  lemma LeadingDigit(a: nat, b: nat, p: nat, r: nat, s: nat)
    requires a < b && r < p
    ensures a * p + r < b * p + s
  {
    DigitFirst(a, b - 1, p, r, s);
  }

  /** The card loop compares the cards' numerals, and only equal cards read
      as the same numeral. */
  lemma {:induction false} CompareCardsByKey(x: string, y: string)
    requires KnownCards(x) && KnownCards(y) && |x| == |y|
    ensures CompareCards(x, y) == ThreeWay(CardsKey(x), CardsKey(y))
    ensures CardsKey(x) == CardsKey(y) ==> x == y
  {
    if x != [] {
      var p := Pow13(|x| - 1);
      CompareCardsByKey(x[1..], y[1..]);
      var a, b := Strengths[x[0]], Strengths[y[0]];
      assert CardsKey(x) == a * p + CardsKey(x[1..]);
      assert CardsKey(y) == b * p + CardsKey(y[1..]);
      if a < b {
        LeadingDigit(a, b, p, CardsKey(x[1..]), CardsKey(y[1..]));
      } else if b < a {
        LeadingDigit(b, a, p, CardsKey(y[1..]), CardsKey(x[1..]));
      } else {
        StrengthsInjective(x[0], y[0]);
        assert x == [x[0]] + x[1..];
        assert y == [y[0]] + y[1..];
      }
    }
  }

  /** `sort_hands_on_strength` on well-formed hands compares their keys:
      `-1` when the left hand ranks lower, `1` when higher, and None exactly
      when the two hands are the same. */
  lemma CompareByKey(left: Hand, right: Hand)
    requires ValidHand(left) && ValidHand(right)
    ensures Compare(left, right) == ThreeWay(Key(left), Key(right))
    ensures Key(left) == Key(right) <==> left == right
  {
    var p := HandSpan;
    HandSpanIsPow13();
    var a, b := Strength(left.kind), Strength(right.kind);
    CompareCardsByKey(left.cards, right.cards);
    if a < b {
      LeadingDigit(a, b, p, CardsKey(left.cards), CardsKey(right.cards));
    } else if b < a {
      LeadingDigit(b, a, p, CardsKey(right.cards), CardsKey(left.cards));
    } else {
      StrengthRanks();
    }
  }

  // ---------------------------------------------------------------------------
  // Sorting the hands

  /** `cmp_to_key`'s `<` on two entries: the comparison's result is compared
      with 0, which raises TypeError when the comparison returned None. */
  function Below(a: Entry, b: Entry): (r: Result<bool>)
    ensures r.Err? ==> r.failure == KeyError || r.failure == TypeError
  {
    match Compare(a.hand, b.hand)
    case Err(e) => Err(e)
    case Ok(None) => Err(TypeError)
    case Ok(Some(c)) => Ok(c < 0)
  }

  /** `sorted(hands, key=cmp_to_key(sort_hands_on_strength))`. */
  function SortEntries(entries: seq<Entry>): Result<seq<Entry>> {
    Sort(Below, entries)
  }

  /** An entry whose hand is well formed. */
  predicate ValidEntry(e: Entry) {
    ValidHand(e.hand)
  }

  /** An entry's place in the order: its hand's key when well formed. */
  function Rank(e: Entry): int {
    if ValidHand(e.hand) then Key(e.hand) else -1
  }

  /** No two entries hold the same hand. */
  predicate DistinctHands(es: seq<Entry>) {
    forall i, j :: 0 <= i < j < |es| ==> es[i].hand != es[j].hand
  }

  /** On well-formed hands the `<` of `cmp_to_key` answers by rank, and
      raises TypeError exactly for two entries with the same hand. */
  lemma BelowRanks()
    ensures RankedBy(Below, Rank, ValidEntry)
  {
    forall a, b | ValidEntry(a) && ValidEntry(b)
      ensures Below(a, b) == if Rank(a) == Rank(b) then Err(TypeError) else Ok(Rank(a) < Rank(b))
    {
      CompareByKey(a.hand, b.hand);
    }
  }

  /** Well-formed entries have different ranks exactly when they hold
      different hands. */
  lemma DistinctRanksAreDistinctHands(es: seq<Entry>)
    requires AllOk(ValidEntry, es)
    ensures DistinctRanks(Rank, es) <==> DistinctHands(es)
  {
    forall i, j | 0 <= i < j < |es|
      ensures Rank(es[i]) == Rank(es[j]) <==> es[i].hand == es[j].hand
    {
      assert ValidEntry(es[i]) && ValidEntry(es[j]);
      CompareByKey(es[i].hand, es[j].hand);
    }
  }

  // ---------------------------------------------------------------------------
  // Winnings

  /** The sum of rank times bid, the rank counting from 1 for the weakest
      hand. */
  function Winnings(ranked: seq<Entry>): int {
    if ranked == [] then 0
    else Winnings(ranked[..|ranked| - 1]) + |ranked| * ranked[|ranked| - 1].bid
  }

  /** The loop over `enumerate` of the sorted hands. */
  method TotalWinnings(ranked: seq<Entry>) returns (total: int)
    ensures total == Winnings(ranked)
  {
    total := 0;
    for idx := 0 to |ranked|
      invariant total == Winnings(ranked[..idx])
    {
      var rank := idx + 1;
      assert ranked[..idx + 1][..idx] == ranked[..idx];
      total := total + rank * ranked[idx].bid;
    }
    assert ranked[..|ranked|] == ranked;
  }

  /** Every bid raised by one. */
  function RaiseBids(ranked: seq<Entry>): (r: seq<Entry>)
    ensures |r| == |ranked|
    ensures forall i :: 0 <= i < |r| ==> r[i] == Entry(ranked[i].hand, ranked[i].bid + 1)
  {
    if ranked == [] then [] else RaiseBids(ranked[..|ranked| - 1]) + [Entry(ranked[|ranked| - 1].hand, ranked[|ranked| - 1].bid + 1)]
  }

  lemma RaisedStep(w: int, raised: int, n: int, b: int)
    requires 2 * raised == 2 * w + (n - 1) * n
    ensures 2 * (raised + n * (b + 1)) == 2 * (w + n * b) + n * (n + 1)
  {
    assert n * (b + 1) == n * b + n;
    assert n * (n + 1) == (n - 1) * n + 2 * n;
  }

  /** Raising every bid by one adds the sum of the ranks, 1 + 2 + ... + n:
      each hand wins its rank once more. */
  lemma {:induction false} WinningsOfRaisedBids(ranked: seq<Entry>)
    ensures 2 * Winnings(RaiseBids(ranked)) == 2 * Winnings(ranked) + |ranked| * (|ranked| + 1)
  {
    if ranked != [] {
      var n := |ranked|;
      var init := ranked[..n - 1];
      var b := ranked[n - 1].bid;
      var raised := RaiseBids(ranked);
      WinningsOfRaisedBids(init);
      assert raised[..n - 1] == RaiseBids(init);
      assert raised[n - 1].bid == b + 1;
      RaisedStep(Winnings(init), Winnings(RaiseBids(init)), n, b);
    }
  }


  /** The comparison is antisymmetric on well-formed hands: swapping the
      hands negates a -1 or 1, and it returns None only for the same hand. */
  lemma CompareAntisymmetric(left: Hand, right: Hand)
    requires ValidHand(left) && ValidHand(right)
    ensures Compare(left, right).Ok? && Compare(right, left).Ok?
    ensures Compare(left, right).value.None? <==> left == right
    ensures Compare(left, right).value.Some? ==>
      Compare(right, left).value.Some? && Compare(right, left).value.value == -Compare(left, right).value.value
  {
    CompareByKey(left, right);
    CompareByKey(right, left);
  }

  // ---------------------------------------------------------------------------
  // Reading the input and the answers

  /** One line of the input: `cards, bid = line.split()` raises ValueError
      unless there are exactly two words, `int(bid)` raises ValueError, and
      the hand's constructor raises AssertionError unless there are five
      cards.  `bonus` picks `BonusHandOfCards` over `HandOfCards`. */
  function ParseEntry(line: string, bonus: bool): (r: Result<Entry>)
    ensures r.Err? ==> r.failure == ValueError || r.failure == AssertionError
    ensures r.Ok? ==> |r.value.hand.cards| == 5
  {
    var words := SplitWs(line);
    if |words| != 2 then Err(ValueError)
    else match ParseInt(words[1])
      case None => Err(ValueError)
      case Some(bid) =>
        var cards := words[0];
        match if bonus then BonusClassify(cards) else Classify(cards)
        case Err(e) => Err(e)
        case Ok(t) => Ok(Entry(Hand(t, cards), bid))
  }

  /** A line of five cards, a space and a bid reads back as that hand, with
      the type its constructor decides, and that bid. */
  lemma ParseEntryOfLine(cards: string, bid: nat, bonus: bool)
    requires |cards| == 5 && forall i :: 0 <= i < 5 ==> !IsSpace(cards[i])
    ensures ParseEntry(cards + " " + NatToString(bid), bonus) ==
      Ok(Entry(Hand(if bonus then BonusTypeOf(cards) else TypeOf(cards), cards), bid))
  {
    var parts := [cards, NatToString(bid)];
    assert Join(parts, " ") == cards + " " + NatToString(bid);
    assert forall j :: 0 <= j < |parts[1]| ==> IsDigit(parts[1][j]);
    SplitWsOfJoin(parts);
    ParseIntNatToString(bid);
  }

  /** `ParseEntry` for one of the two parts, as a function value. */
  function EntryParser(bonus: bool): string -> Result<Entry> {
    line => ParseEntry(line, bonus)
  }

  /** The hands and bids of every line of the input. */
  function Entries(input: string, bonus: bool): Result<seq<Entry>> {
    Collect(EntryParser(bonus), Split(input, "\n"))
  }

  /** `solve_part_one` (`bonus` false) and `solve_part_two` (`bonus` true):
      the winnings of the hands sorted by the comparison. */
  function Answer(input: string, bonus: bool): Result<int> {
    match Entries(input, bonus)
    case Err(e) => Err(e)
    case Ok(entries) =>
      match SortEntries(entries)
      case Err(e) => Err(e)
      case Ok(ranked) => Ok(Winnings(ranked))
  }

  /** With well-formed, pairwise different hands the answer is the winnings
      of the hands in rising rank, whichever correct sort put them there. */
  lemma AnswerIsWinningsOfRanking(input: string, bonus: bool, ranked: seq<Entry>)
    requires Entries(input, bonus).Ok?
    requires AllOk(ValidEntry, Entries(input, bonus).value) && DistinctHands(Entries(input, bonus).value)
    requires Rising(Rank, ranked) && multiset(ranked) == multiset(Entries(input, bonus).value)
    ensures Answer(input, bonus) == Ok(Winnings(ranked))
  {
    var entries := Entries(input, bonus).value;
    BelowRanks();
    DistinctRanksAreDistinctHands(entries);
    SortRising(Below, Rank, ValidEntry, entries);
    RisingUnique(Rank, SortEntries(entries).value, ranked);
  }

  /** Two lines with the same well-formed hand make the answer raise
      TypeError: their comparison returns None. */
  lemma AnswerRejectsRepeatedHand(input: string, bonus: bool)
    requires Entries(input, bonus).Ok?
    requires AllOk(ValidEntry, Entries(input, bonus).value) && !DistinctHands(Entries(input, bonus).value)
    ensures Answer(input, bonus) == Err(TypeError)
  {
    var entries := Entries(input, bonus).value;
    BelowRanks();
    DistinctRanksAreDistinctHands(entries);
    SortRepeated(Below, Rank, ValidEntry, entries);
  }

  /** Reading the hands, the sort, and the loop over the ranks. */
  method Solve(input: string, bonus: bool) returns (r: Result<int>)
    ensures r == Answer(input, bonus)
  {
    var entries := CollectEach(EntryParser(bonus), Split(input, "\n"));
    if entries.Err? {
      return Err(entries.failure);
    }
    var sorted := SortEntries(entries.value);
    if sorted.Err? {
      return Err(sorted.failure);
    }
    var total := TotalWinnings(sorted.value);
    return Ok(total);
  }

  method SolvePartOne(input: string) returns (r: Result<int>)
    ensures r == Answer(input, false)
  {
    r := Solve(input, false);
  }

  method SolvePartTwo(input: string) returns (r: Result<int>)
    ensures r == Answer(input, true)
  {
    r := Solve(input, true);
  }
}

