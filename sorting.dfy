/** Sorting with a comparison that may raise, as `sorted(xs,
    key=cmp_to_key(cmp))` does: the result of `cmp` is compared with 0, so a
    comparison that fails or returns None raises.  The comparisons here are
    those of an insertion sort; any correct sort gives the same order when
    the comparison ranks the elements strictly (`RisingUnique`). */
module Sorting {
  import opened Wrappers

  /** Puts `x` in front of the first element it is less than. */
  function Insert<T>(less: (T, T) -> Result<bool>, x: T, sorted: seq<T>): Result<seq<T>> {
    if sorted == [] then Ok([x])
    else match less(x, sorted[0])
      case Err(f) => Err(f)
      case Ok(true) => Ok([x] + sorted)
      case Ok(false) =>
        match Insert(less, x, sorted[1..])
        case Err(f) => Err(f)
        case Ok(rest) => Ok([sorted[0]] + rest)
  }

  /** Inserts the elements one by one, the first one first. */
  function Sort<T>(less: (T, T) -> Result<bool>, xs: seq<T>): Result<seq<T>> {
    if xs == [] then Ok([])
    else match Sort(less, xs[..|xs| - 1])
      case Err(f) => Err(f)
      case Ok(sorted) => Insert(less, xs[|xs| - 1], sorted)
  }

  /** On elements that satisfy `ok`, `less` answers by `rank`, and raises
      TypeError for two elements of the same rank. */
  ghost predicate RankedBy<T(!new)>(less: (T, T) -> Result<bool>, rank: T -> int, ok: T -> bool) {
    forall a, b :: ok(a) && ok(b) ==>
      less(a, b) == if rank(a) == rank(b) then Err(TypeError) else Ok(rank(a) < rank(b))
  }

  predicate AllOk<T>(ok: T -> bool, xs: seq<T>) {
    forall i :: 0 <= i < |xs| ==> ok(xs[i])
  }

  /** Strictly rising rank. */
  predicate Rising<T>(rank: T -> int, xs: seq<T>) {
    forall i, j :: 0 <= i < j < |xs| ==> rank(xs[i]) < rank(xs[j])
  }

  /** No two elements share a rank. */
  predicate DistinctRanks<T>(rank: T -> int, xs: seq<T>) {
    forall i, j :: 0 <= i < j < |xs| ==> rank(xs[i]) != rank(xs[j])
  }

  lemma MultisetOfCons<T>(x: T, s: seq<T>)
    ensures multiset([x] + s) == multiset{x} + multiset(s)
  {
  }

  lemma MultisetOfTail<T>(s: seq<T>)
    requires s != []
    ensures multiset(s[1..]) == multiset(s) - multiset{s[0]}
  {
    assert s == [s[0]] + s[1..];
    MultisetOfCons(s[0], s[1..]);
  }

  /** Where an element went in a permutation. */
  lemma PlaceInPermutation<T>(a: seq<T>, b: seq<T>, i: nat) returns (k: nat)
    requires multiset(a) == multiset(b) && i < |a|
    ensures k < |b| && b[k] == a[i]
  {
    assert a[i] in multiset(b);
    k :| 0 <= k < |b| && b[k] == a[i];
  }

  lemma AllOkOfPermutation<T>(ok: T -> bool, a: seq<T>, b: seq<T>)
    requires multiset(a) == multiset(b) && AllOk(ok, a)
    ensures AllOk(ok, b)
  {
    forall k | 0 <= k < |b|
      ensures ok(b[k])
    {
      var i := PlaceInPermutation(b, a, k);
    }
  }

  lemma RisingTail<T>(rank: T -> int, s: seq<T>)
    requires Rising(rank, s) && s != []
    ensures Rising(rank, s[1..])
  {
    assert forall i :: 0 <= i < |s| - 1 ==> s[1..][i] == s[i + 1];
  }

  /** An element ranked below everything in a rising sequence can go in
      front of it. */
  lemma RisingCons<T>(rank: T -> int, x: T, s: seq<T>)
    requires Rising(rank, s) && forall y :: y in s ==> rank(x) < rank(y)
    ensures Rising(rank, [x] + s)
  {
    var t := [x] + s;
    forall i, j | 0 <= i < j < |t|
      ensures rank(t[i]) < rank(t[j])
    {
      if i == 0 {
        assert t[j] in s;
      } else {
        assert t[i] == s[i - 1] && t[j] == s[j - 1];
      }
    }
  }

  /** The first element of a rising sequence ranks below the others. */
  lemma HeadBelowTail<T>(rank: T -> int, s: seq<T>)
    requires Rising(rank, s) && s != []
    ensures forall y :: y in s[1..] ==> rank(s[0]) < rank(y)
  {
    forall y | y in s[1..]
      ensures rank(s[0]) < rank(y)
    {
      var i :| 0 <= i < |s| - 1 && s[1..][i] == y;
      assert s[i + 1] == y;
    }
  }

  /** Below the first element of a rising sequence is below all of it. */
  lemma BelowAll<T>(rank: T -> int, x: T, s: seq<T>)
    requires Rising(rank, s) && s != [] && rank(x) < rank(s[0])
    ensures forall y :: y in s ==> rank(x) < rank(y)
  {
    HeadBelowTail(rank, s);
    forall y | y in s
      ensures rank(x) < rank(y)
    {
      if y != s[0] {
        assert s == [s[0]] + s[1..];
        assert y in s[1..];
      }
    }
  }

  /** Below the inserted element and the rest is below the whole result. */
  lemma BelowInserted<T>(rank: T -> int, h: T, rest: seq<T>, tail: seq<T>, x: T)
    requires multiset(rest) == multiset(tail) + multiset{x}
    requires rank(h) < rank(x) && forall y :: y in tail ==> rank(h) < rank(y)
    ensures forall y :: y in rest ==> rank(h) < rank(y)
  {
    forall y | y in rest
      ensures rank(h) < rank(y)
    {
      assert y in multiset(rest);
      if y != x {
        assert y in multiset(tail);
      }
    }
  }

  /** Inserting an element of a rank not yet present keeps the sequence
      rising and adds exactly that element. */
  lemma {:induction false} InsertRising<T(!new)>(less: (T, T) -> Result<bool>, rank: T -> int, ok: T -> bool, x: T, s: seq<T>)
    requires RankedBy(less, rank, ok) && ok(x) && AllOk(ok, s) && Rising(rank, s)
    requires forall i :: 0 <= i < |s| ==> rank(s[i]) != rank(x)
    ensures Insert(less, x, s).Ok?
    ensures Rising(rank, Insert(less, x, s).value)
    ensures multiset(Insert(less, x, s).value) == multiset(s) + multiset{x}
  {
    if s != [] {
      var h, tail := s[0], s[1..];
      assert ok(h) && rank(h) != rank(x);
      if rank(x) < rank(h) {
        assert Insert(less, x, s) == Ok([x] + s);
        MultisetOfCons(x, s);
        BelowAll(rank, x, s);
        RisingCons(rank, x, s);
      } else {
        RisingTail(rank, s);
        assert forall i :: 0 <= i < |tail| ==> tail[i] == s[i + 1];
        InsertRising(less, rank, ok, x, tail);
        var rest := Insert(less, x, tail).value;
        assert Insert(less, x, s) == Ok([h] + rest);
        MultisetOfCons(h, rest);
        MultisetOfTail(s);
        HeadBelowTail(rank, s);
        BelowInserted(rank, h, rest, tail, x);
        RisingCons(rank, h, rest);
      }
    }
  }

  /** Inserting an element whose rank is already present raises TypeError:
      the comparison with the element of that rank raises. */
  lemma {:induction false} InsertRepeated<T(!new)>(less: (T, T) -> Result<bool>, rank: T -> int, ok: T -> bool, x: T, s: seq<T>, k: nat)
    requires RankedBy(less, rank, ok) && ok(x) && AllOk(ok, s) && Rising(rank, s)
    requires k < |s| && rank(s[k]) == rank(x)
    ensures Insert(less, x, s) == Err(TypeError)
  {
    assert ok(s[0]);
    if k > 0 {
      var tail := s[1..];
      assert rank(s[0]) < rank(s[k]);
      assert tail[k - 1] == s[k];
      assert forall i :: 0 <= i < |tail| ==> tail[i] == s[i + 1];
      InsertRepeated(less, rank, ok, x, tail, k - 1);
    }
  }

  /** Dropping the last element keeps the elements acceptable and their
      ranks different, and a rank not repeated among all elements differs
      from every earlier one. */
  lemma PrefixKeeps<T>(rank: T -> int, ok: T -> bool, xs: seq<T>)
    requires xs != []
    ensures AllOk(ok, xs) ==> AllOk(ok, xs[..|xs| - 1]) && ok(xs[|xs| - 1])
    ensures DistinctRanks(rank, xs) ==> DistinctRanks(rank, xs[..|xs| - 1])
    ensures DistinctRanks(rank, xs) ==> forall j :: 0 <= j < |xs| - 1 ==> rank(xs[j]) != rank(xs[|xs| - 1])
  {
  }

  /** A rank missing from a sequence is missing from its permutations. */
  lemma PermutedMiss<T>(rank: T -> int, a: seq<T>, b: seq<T>, r: int)
    requires multiset(a) == multiset(b)
    requires forall j :: 0 <= j < |a| ==> rank(a[j]) != r
    ensures forall i :: 0 <= i < |b| ==> rank(b[i]) != r
  {
    forall i | 0 <= i < |b|
      ensures rank(b[i]) != r
    {
      var j := PlaceInPermutation(b, a, i);
    }
  }

  /** Elements of different ranks sort without error into rising rank, and
      the result is a permutation of the input. */
  lemma {:induction false} SortRising<T(!new)>(less: (T, T) -> Result<bool>, rank: T -> int, ok: T -> bool, xs: seq<T>)
    requires RankedBy(less, rank, ok) && AllOk(ok, xs) && DistinctRanks(rank, xs)
    ensures Sort(less, xs).Ok?
    ensures Rising(rank, Sort(less, xs).value)
    ensures multiset(Sort(less, xs).value) == multiset(xs)
  {
    if xs != [] {
      var n := |xs|;
      var init, last := xs[..n - 1], xs[n - 1];
      PrefixKeeps(rank, ok, xs);
      SortRising(less, rank, ok, init);
      var sorted := Sort(less, init).value;
      assert forall j :: 0 <= j < n - 1 ==> init[j] == xs[j];
      PermutedMiss(rank, init, sorted, rank(last));
      AllOkOfPermutation(ok, init, sorted);
      InsertRising(less, rank, ok, last, sorted);
      assert xs == init + [last];
    }
  }

  /** When the first elements have different ranks but all do not, the last
      rank repeats an earlier one. */
  lemma RepeatOfLast<T>(rank: T -> int, xs: seq<T>) returns (i: nat)
    requires xs != [] && !DistinctRanks(rank, xs) && DistinctRanks(rank, xs[..|xs| - 1])
    ensures i < |xs| - 1 && rank(xs[i]) == rank(xs[|xs| - 1])
  {
    var init := xs[..|xs| - 1];
    assert forall a, b :: 0 <= a < b < |xs| - 1 ==> init[a] == xs[a] && init[b] == xs[b];
    assert forall a, b :: 0 <= a < b < |xs| - 1 ==> rank(xs[a]) != rank(xs[b]);
    var j: nat;
    i, j :| 0 <= i < j < |xs| && rank(xs[i]) == rank(xs[j]);
  }

  /** Two elements of the same rank make the sort raise TypeError. */
  lemma {:induction false} SortRepeated<T(!new)>(less: (T, T) -> Result<bool>, rank: T -> int, ok: T -> bool, xs: seq<T>)
    requires RankedBy(less, rank, ok) && AllOk(ok, xs) && !DistinctRanks(rank, xs)
    ensures Sort(less, xs) == Err(TypeError)
  {
    var n := |xs|;
    var init, last := xs[..n - 1], xs[n - 1];
    PrefixKeeps(rank, ok, xs);
    if !DistinctRanks(rank, init) {
      SortRepeated(less, rank, ok, init);
    } else {
      var i := RepeatOfLast(rank, xs);
      SortRising(less, rank, ok, init);
      var sorted := Sort(less, init).value;
      AllOkOfPermutation(ok, init, sorted);
      var k := PlaceInPermutation(init, sorted, i);
      InsertRepeated(less, rank, ok, last, sorted, k);
    }
  }

  /** Only one arrangement of a collection rises strictly in rank, so every
      correct sort agrees with `Sort`. */
  lemma {:induction false} RisingUnique<T>(rank: T -> int, a: seq<T>, b: seq<T>)
    requires Rising(rank, a) && Rising(rank, b) && multiset(a) == multiset(b)
    ensures a == b
  {
    if a != [] {
      SameFirst(rank, a, b);
      MultisetOfTail(a);
      MultisetOfTail(b);
      RisingTail(rank, a);
      RisingTail(rank, b);
      RisingUnique(rank, a[1..], b[1..]);
      SameParts(a, b);
    }
  }

  /** Two rising permutations of the same elements start alike. */
  lemma SameFirst<T>(rank: T -> int, a: seq<T>, b: seq<T>)
    requires Rising(rank, a) && Rising(rank, b) && multiset(a) == multiset(b) && a != []
    ensures b != [] && a[0] == b[0]
  {
    assert a[0] in multiset(b);
    var i := PlaceInPermutation(b, a, 0);
    var j := PlaceInPermutation(a, b, 0);
    assert i == 0 || j == 0;
  }

  lemma SameParts<T>(a: seq<T>, b: seq<T>)
    requires a != [] && b != [] && a[0] == b[0] && a[1..] == b[1..]
    ensures a == b
  {
    assert a == [a[0]] + a[1..];
    assert b == [b[0]] + b[1..];
  }

}
