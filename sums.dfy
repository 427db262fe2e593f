/** Summing per-line values the way the solvers do: a loop over the lines
    adds the value of each line to a running total, and the first line that
    raises an exception ends the loop with that exception. */
module Sums {
  import opened Wrappers

  /** Python's `sum` of a list of integers. */
  function Sum(xs: seq<int>): int {
    if xs == [] then 0 else xs[0] + Sum(xs[1..])
  }

  /** `f` applied to every line, in order: the list a solver's loop builds
      one line at a time.  `Map`, `MapCons` and `MapFirst` are one recursive
      definition in three steps: the verifier unfolds a recursive definition
      at most two steps deep on its own, so a proof that mentions `Map` does
      not reach `f` (whose definition can be large) unless it asks for an
      element with `MapAt`. */
  function Map<A, B>(f: A -> B, xs: seq<A>): (r: seq<B>)
    ensures |r| == |xs|
    decreases |xs|, 2
  {
    if xs == [] then [] else MapCons(f, xs)
  }

  function MapCons<A, B>(f: A -> B, xs: seq<A>): (r: seq<B>)
    requires xs != []
    ensures |r| == |xs|
    decreases |xs|, 1
  {
    MapFirst(f, xs) + Map(f, xs[1..])
  }

  /** `[f(xs[0])]`, reached through a recursion on the first element alone. */
  function MapFirst<A, B>(f: A -> B, xs: seq<A>): (r: seq<B>)
    requires xs != []
    ensures |r| == 1
    decreases |xs|, 0
  {
    if |xs| == 1 then [f(xs[0])] else MapFirst(f, xs[..1])
  }

  /** The `k`-th value is `f` of the `k`-th line. */
  lemma {:induction false} MapAt<A, B>(f: A -> B, xs: seq<A>, k: nat)
    requires k < |xs|
    ensures Map(f, xs)[k] == f(xs[k])
  {
    assert MapFirst(f, xs) == [f(xs[0])];
    if k > 0 {
      MapAt(f, xs[1..], k - 1);
    }
  }

  /** The sum of the values of the lines, failing at the first line that
      fails. */
  function Total(values: seq<Result<int>>): Result<int> {
    if values == [] then Ok(0)
    else match values[0] {
      case Err(e) => Err(e)
      case Ok(v) => AddTo(v, Total(values[1..]))
    }
  }

  function AddTo(total: int, r: Result<int>): Result<int> {
    match r {
      case Err(e) => Err(e)
      case Ok(v) => Ok(total + v)
    }
  }

  /** The values of lines that all succeeded. */
  function Values(values: seq<Result<int>>): (xs: seq<int>)
    requires forall k :: 0 <= k < |values| ==> values[k].Ok?
    ensures |xs| == |values| && forall k :: 0 <= k < |values| ==> xs[k] == values[k].value
  {
    seq(|values|, k requires 0 <= k < |values| => values[k].value)
  }

  /** Summing from position `k` on: the value at `k` first.  The loops of
      the solvers keep `Total(values) == AddTo(total, Total(values[k..]))`,
      and this lemma carries it over one line. */
  lemma TotalStep(values: seq<Result<int>>, k: nat, total: int, v: Result<int>)
    requires k < |values| && v == values[k]
    requires Total(values) == AddTo(total, Total(values[k..]))
    ensures v.Err? ==> Total(values) == Err(v.failure)
    ensures !v.Err? ==> Total(values) == AddTo(total + v.value, Total(values[k + 1..]))
  {
    assert values[k..][1..] == values[k + 1..];
  }

  /** When the loop has passed every line the running total is the answer. */
  lemma TotalDone(values: seq<Result<int>>, total: int)
    requires Total(values) == AddTo(total, Total(values[|values|..]))
    ensures Total(values) == Ok(total)
  {
    assert values[|values|..] == [];
  }

  /** The sum fails exactly when some line fails, and then with the
      exception of the first line that fails. */
  lemma {:induction false} TotalFailsAtFirstError(values: seq<Result<int>>)
    ensures Total(values).Err? <==> exists k :: 0 <= k < |values| && values[k].Err?
    ensures Total(values).Err? ==>
      exists k :: 0 <= k < |values| && values[k].Err? && Total(values) == values[k] &&
        forall j :: 0 <= j < k ==> values[j].Ok?
  {
    if values != [] {
      var tail := values[1..];
      TotalFailsAtFirstError(tail);
      assert forall j :: 1 <= j < |values| ==> values[j] == tail[j - 1];
      if values[0].Ok? && Total(tail).Err? {
        var k :| 0 <= k < |tail| && tail[k].Err? && Total(tail) == tail[k] && forall j :: 0 <= j < k ==> tail[j].Ok?;
        assert values[k + 1] == tail[k];
        assert forall j :: 1 <= j < k + 1 ==> values[j] == tail[j - 1];
      }
    }
  }

  /** When every line succeeds the answer is the sum of their values. */
  lemma {:induction false} TotalOfSuccesses(values: seq<Result<int>>)
    requires forall k :: 0 <= k < |values| ==> values[k].Ok?
    ensures Total(values) == Ok(Sum(Values(values)))
  {
    if values != [] {
      var tail := values[1..];
      assert forall k :: 0 <= k < |tail| ==> tail[k] == values[k + 1];
      TotalOfSuccesses(tail);
      assert Values(values)[1..] == Values(tail);
    }
  }

  /** A Python list comprehension `[f(x) for x in xs]` whose `f` may raise:
      every value when each call succeeds, otherwise the exception of the
      first call that raises. */
  function Collect<A, B>(f: A -> Result<B>, xs: seq<A>): (r: Result<seq<B>>)
    ensures r.Ok? ==> |r.value| == |xs|
    ensures r.Ok? ==> forall i :: 0 <= i < |xs| ==> f(xs[i]) == Ok(r.value[i])
    ensures r.Err? ==> exists i :: 0 <= i < |xs| && f(xs[i]) == Err(r.failure) &&
                                   forall j :: 0 <= j < i ==> f(xs[j]).Ok?
  {
    if xs == [] then Ok([])
    else match f(xs[0]) {
      case Err(e) => Err(e)
      case Ok(y) =>
        var rest := Collect(f, xs[1..]);
        assert forall i :: 1 <= i < |xs| ==> xs[i] == xs[1..][i - 1];
        match rest {
          case Err(e) =>
            var i :| 0 <= i < |xs| - 1 && f(xs[1..][i]) == Err(e) &&
              forall j :: 0 <= j < i ==> f(xs[1..][j]).Ok?;
            assert f(xs[i + 1]) == Err(e);
            assert forall j :: 1 <= j < i + 1 ==> f(xs[j]).Ok?;
            Err(e)
          case Ok(ys) => Ok([y] + ys)
        }
    }
  }

  /** Every call succeeds exactly when the comprehension does. */
  lemma {:induction false} CollectOk<A, B>(f: A -> Result<B>, xs: seq<A>)
    ensures Collect(f, xs).Ok? <==> forall i :: 0 <= i < |xs| ==> f(xs[i]).Ok?
  {
    if xs != [] && f(xs[0]).Ok? {
      CollectOk(f, xs[1..]);
      assert forall i :: 1 <= i < |xs| ==> xs[i] == xs[1..][i - 1];
    }
  }

  /** A comprehension whose calls all succeed gives their values. */
  lemma CollectAllOk<A, B>(f: A -> Result<B>, xs: seq<A>, ys: seq<B>)
    requires |ys| == |xs| && forall i :: 0 <= i < |xs| ==> f(xs[i]) == Ok(ys[i])
    ensures Collect(f, xs) == Ok(ys)
  {
    assert forall i :: 0 <= i < |xs| ==> f(xs[i]).Ok?;
    CollectOk(f, xs);
    var r := Collect(f, xs).value;
    assert forall i :: 0 <= i < |xs| ==> f(xs[i]) == Ok(r[i]) && r[i] == ys[i];
    assert r == ys;
  }

  /** A comprehension raises the exception of its first failing call. */
  lemma CollectFirstError<A, B>(f: A -> Result<B>, xs: seq<A>, k: nat)
    requires k < |xs| && f(xs[k]).Err? && forall j :: 0 <= j < k ==> f(xs[j]).Ok?
    ensures Collect(f, xs) == Err(f(xs[k]).failure)
  {
    CollectOk(f, xs);
  }

  /** A loop that adds `f(x)` for each `x` in turn to a running total and
      stops at the first exception: `Total(Map(f, xs))` step by step. */
  method TotalEach<A>(f: A -> Result<int>, xs: seq<A>) returns (r: Result<int>)
    ensures r == Total(Map(f, xs))
  {
    ghost var values := Map(f, xs);
    var total := 0;
    for k := 0 to |xs|
      invariant Total(values) == AddTo(total, Total(values[k..]))
    {
      var v := f(xs[k]);
      MapAt(f, xs, k);
      TotalStep(values, k, total, v);
      if v.Err? {
        return Err(v.failure);
      }
      total := total + v.value;
    }
    TotalDone(values, total);
    r := Ok(total);
  }

  /** A loop that appends `f(x)` for each `x` in turn and stops at the first
      exception: the comprehension `Collect` written out step by step. */
  method CollectEach<A, B>(f: A -> Result<B>, xs: seq<A>) returns (r: Result<seq<B>>)
    ensures r == Collect(f, xs)
  {
    var ys: seq<B> := [];
    for k := 0 to |xs|
      invariant |ys| == k
      invariant forall i :: 0 <= i < k ==> f(xs[i]) == Ok(ys[i])
    {
      var y := f(xs[k]);
      if y.Err? {
        CollectFirstError(f, xs, k);
        return Err(y.failure);
      }
      ys := ys + [y.value];
    }
    CollectAllOk(f, xs, ys);
    return Ok(ys);
  }
}

