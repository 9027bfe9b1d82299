/** The consistency figures of the interval test, over the joined pairs: per
    worker the mean absolute difference of Likert scores and the rate of
    changed Best-Worst picks, and over all workers the mean of each. Python's
    float division is stated over Dafny's exact reals. */
module Metrics {
  import opened Primitives
  import opened Join

  function Abs(x: int): nat {
    if x < 0 then -x else x
  }

  /** The running total `tmp_diff_sum` of `abs(orig - redo)` over the pairs. */
  function SumAbsDiff(pairs: seq<(int, int)>): nat {
    if pairs == [] then 0
    else SumAbsDiff(pairs[..|pairs| - 1]) + Abs(pairs[|pairs| - 1].0 - pairs[|pairs| - 1].1)
  }

  /** The running count of pairs whose two picks differ. */
  function Mismatches<V(==)>(pairs: seq<(V, V)>): nat {
    if pairs == [] then 0
    else Mismatches(pairs[..|pairs| - 1]) + (if pairs[|pairs| - 1].0 != pairs[|pairs| - 1].1 then 1 else 0)
  }

  /** `tmp_diff_sum / len(pairs)` for Likert scores; a ZeroDivisionError for
      a worker without pairs. */
  function MeanAbsDiff(pairs: seq<(int, int)>): Result<real> {
    if |pairs| == 0 then Err(ZeroDivisionError)
    else Ok(SumAbsDiff(pairs) as real / |pairs| as real)
  }

  /** The same for Best-Worst picks, counting the changed ones. */
  function MismatchRate<V(==)>(pairs: seq<(V, V)>): Result<real> {
    if |pairs| == 0 then Err(ZeroDivisionError)
    else Ok(Mismatches(pairs) as real / |pairs| as real)
  }

  predicate AllAgree<V(==)>(pairs: seq<(V, V)>) {
    forall k | 0 <= k < |pairs| :: pairs[k].0 == pairs[k].1
  }

  predicate AllDiffer<V(==)>(pairs: seq<(V, V)>) {
    forall k | 0 <= k < |pairs| :: pairs[k].0 != pairs[k].1
  }

  lemma {:induction false} SumAbsDiffZero(pairs: seq<(int, int)>)
    ensures SumAbsDiff(pairs) == 0 <==> AllAgree(pairs)
  {
    if pairs != [] {
      var init := pairs[..|pairs| - 1];
      SumAbsDiffZero(init);
      assert forall k | 0 <= k < |init| :: init[k] == pairs[k];
    }
  }

  lemma {:induction false} MismatchesBounds<V>(pairs: seq<(V, V)>)
    ensures Mismatches(pairs) <= |pairs|
    ensures Mismatches(pairs) == 0 <==> AllAgree(pairs)
    ensures Mismatches(pairs) == |pairs| <==> AllDiffer(pairs)
  {
    if pairs != [] {
      var init := pairs[..|pairs| - 1];
      MismatchesBounds(init);
      assert forall k | 0 <= k < |init| :: init[k] == pairs[k];
    }
  }

  /** A worker's Likert figure exists exactly when they have pairs; it is
      never negative and it is zero exactly when every redo score equals the
      original one. */
  lemma MeanAbsDiffMeaning(pairs: seq<(int, int)>)
    ensures MeanAbsDiff(pairs).Ok? <==> |pairs| > 0
    ensures MeanAbsDiff(pairs).Err? ==> MeanAbsDiff(pairs).error == ZeroDivisionError
    ensures MeanAbsDiff(pairs).Ok? ==> MeanAbsDiff(pairs).value >= 0.0
    ensures MeanAbsDiff(pairs).Ok? ==> (MeanAbsDiff(pairs).value == 0.0 <==> AllAgree(pairs))
  {
    SumAbsDiffZero(pairs);
    if |pairs| > 0 {
      var s, n := SumAbsDiff(pairs) as real, |pairs| as real;
      assert s / n * n == s;
    }
  }

  /** A worker's Best-Worst figure exists exactly when they have pairs; it
      lies in [0, 1], is 0 exactly when no pick changed and 1 exactly when
      every pick changed. */
  lemma MismatchRateMeaning<V>(pairs: seq<(V, V)>)
    ensures MismatchRate(pairs).Ok? <==> |pairs| > 0
    ensures MismatchRate(pairs).Err? ==> MismatchRate(pairs).error == ZeroDivisionError
    ensures MismatchRate(pairs).Ok? ==> 0.0 <= MismatchRate(pairs).value <= 1.0
    ensures MismatchRate(pairs).Ok? ==> (MismatchRate(pairs).value == 0.0 <==> AllAgree(pairs))
    ensures MismatchRate(pairs).Ok? ==> (MismatchRate(pairs).value == 1.0 <==> AllDiffer(pairs))
  {
    MismatchesBounds(pairs);
    if |pairs| > 0 {
      var s, n := Mismatches(pairs) as real, |pairs| as real;
      assert s / n * n == s;
    }
  }

  /** The inner loop of the Likert figure for one worker. */
  method LikertUserDiff(pairs: seq<(int, int)>) returns (r: Result<real>)
    ensures r == MeanAbsDiff(pairs)
  {
    var total := 0;
    var k := 0;
    while k < |pairs|
      invariant k <= |pairs|
      invariant total == SumAbsDiff(pairs[..k])
    {
      assert pairs[..k + 1][..k] == pairs[..k];
      total := total + Abs(pairs[k].0 - pairs[k].1);
      k := k + 1;
    }
    assert pairs[..k] == pairs;
    if |pairs| == 0 {
      return Err(ZeroDivisionError);
    }
    return Ok(total as real / |pairs| as real);
  }

  /** The inner loop of the Best-Worst figure for one worker. */
  method BwsUserDiff<V(==)>(pairs: seq<(V, V)>) returns (r: Result<real>)
    ensures r == MismatchRate(pairs)
  {
    var total := 0;
    var k := 0;
    while k < |pairs|
      invariant k <= |pairs|
      invariant total == Mismatches(pairs[..k])
    {
      assert pairs[..k + 1][..k] == pairs[..k];
      if pairs[k].0 != pairs[k].1 {
        total := total + 1;
      }
      k := k + 1;
    }
    assert pairs[..k] == pairs;
    if |pairs| == 0 {
      return Err(ZeroDivisionError);
    }
    return Ok(total as real / |pairs| as real);
  }

  /** The per-worker dictionary of figures, filled for the workers `users[i..]`
      in order; the first worker without pairs stops it. */
  function AveragesGo<P>(pairs: map<string, seq<P>>, users: seq<string>, metric: seq<P> -> Result<real>,
                         acc: map<string, real>, i: nat): Result<map<string, real>>
    requires forall k | 0 <= k < |users| :: users[k] in pairs
    decreases |users| - i
  {
    if i >= |users| then Ok(acc)
    else
      match metric(pairs[users[i]])
      case Err(e) => Err(e)
      case Ok(v) => AveragesGo(pairs, users, metric, acc[users[i] := v], i + 1)
  }

  function LikertMetric(): seq<(int, int)> -> Result<real> {
    (pairs: seq<(int, int)>) => MeanAbsDiff(pairs)
  }

  function BwsMetric(): seq<(string, string)> -> Result<real> {
    (pairs: seq<(string, string)>) => MismatchRate(pairs)
  }

  /** `likert_average_diff`: the loop over the workers of the Likert join. */
  method LikertAverages(j: Joined<int>) returns (res: Result<map<string, real>>)
    requires ListsKeys(j.users, j.pairs)
    ensures res == AveragesGo(j.pairs, j.users, LikertMetric(), map[], 0)
  {
    var acc := map[];
    var i := 0;
    while i < |j.users|
      invariant i <= |j.users|
      invariant AveragesGo(j.pairs, j.users, LikertMetric(), acc, i) == AveragesGo(j.pairs, j.users, LikertMetric(), map[], 0)
    {
      var user := j.users[i];
      var v := LikertUserDiff(j.pairs[user]);
      if v.Err? {
        return Err(v.error);
      }
      acc := acc[user := v.value];
      i := i + 1;
    }
    return Ok(acc);
  }

  /** `bws_average_diff`: the loop over the workers of the Best-Worst join. */
  method BwsAverages(j: Joined<string>) returns (res: Result<map<string, real>>)
    requires ListsKeys(j.users, j.pairs)
    ensures res == AveragesGo(j.pairs, j.users, BwsMetric(), map[], 0)
  {
    var acc := map[];
    var i := 0;
    while i < |j.users|
      invariant i <= |j.users|
      invariant AveragesGo(j.pairs, j.users, BwsMetric(), acc, i) == AveragesGo(j.pairs, j.users, BwsMetric(), map[], 0)
    {
      var user := j.users[i];
      var v := BwsUserDiff(j.pairs[user]);
      if v.Err? {
        return Err(v.error);
      }
      acc := acc[user := v.value];
      i := i + 1;
    }
    return Ok(acc);
  }

  lemma {:induction false} AveragesGoMeaning<P>(pairs: map<string, seq<P>>, users: seq<string>,
                                                metric: seq<P> -> Result<real>, acc: map<string, real>, i: nat)
    requires forall k | 0 <= k < |users| :: users[k] in pairs
    ensures var r := AveragesGo(pairs, users, metric, acc, i);
      && (r.Ok? <==> forall k | i <= k < |users| :: metric(pairs[users[k]]).Ok?)
      && (r.Ok? ==> forall u :: u in r.value <==> u in acc || exists k | i <= k < |users| :: users[k] == u)
      && (r.Ok? ==> forall u | u in acc && (forall k | i <= k < |users| :: users[k] != u) :: r.value[u] == acc[u])
      && (r.Ok? && Distinct(users) ==> forall k | i <= k < |users| :: r.value[users[k]] == metric(pairs[users[k]]).value)
    decreases |users| - i
  {
    if i < |users| && metric(pairs[users[i]]).Ok? {
      var acc' := acc[users[i] := metric(pairs[users[i]]).value];
      AveragesGoMeaning(pairs, users, metric, acc', i + 1);
      var r := AveragesGo(pairs, users, metric, acc, i);
      if r.Ok? && Distinct(users) {
        assert forall k | i < k < |users| :: users[k] != users[i];
      }
    }
  }

  /** The per-worker figures exist exactly when every worker of the join has
      at least one pair (a ZeroDivisionError otherwise); the dictionary then
      holds one figure per worker, computed from that worker's pairs. */
  lemma AveragesMeaning<V>(j: Joined<V>, metric: seq<(V, V)> -> Result<real>)
    requires ListsKeys(j.users, j.pairs)
    requires forall ps :: metric(ps).Ok? <==> |ps| > 0
    ensures var r := AveragesGo(j.pairs, j.users, metric, map[], 0);
      && (r.Ok? <==> forall u | u in j.pairs :: |j.pairs[u]| > 0)
      && (r.Ok? ==> r.value.Keys == j.pairs.Keys)
      && (r.Ok? ==> forall u | u in j.pairs :: r.value[u] == metric(j.pairs[u]).value)
  {
    AveragesGoMeaning(j.pairs, j.users, metric, map[], 0);
    var r := AveragesGo(j.pairs, j.users, metric, map[], 0);
    if r.Ok? {
      forall u | u in j.pairs ensures u in r.value && r.value[u] == metric(j.pairs[u]).value {
        var k :| 0 <= k < |j.users| && j.users[k] == u;
      }
    } else {
      var k :| 0 <= k < |j.users| && metric(j.pairs[j.users[k]]).Err?;
      assert j.users[k] in j.pairs && |j.pairs[j.users[k]]| == 0;
    }
  }

  function Sum(xs: seq<real>): real {
    if xs == [] then 0.0 else Sum(xs[..|xs| - 1]) + xs[|xs| - 1]
  }

  /** `sum(values) / len(values)`; a ZeroDivisionError for no values. */
  function Mean(xs: seq<real>): Result<real> {
    if |xs| == 0 then Err(ZeroDivisionError) else Ok(Sum(xs) / |xs| as real)
  }

  lemma {:induction false} SumAtLeast(xs: seq<real>, lo: real)
    requires forall k | 0 <= k < |xs| :: lo <= xs[k]
    ensures |xs| as real * lo <= Sum(xs)
  {
    if xs != [] {
      var init := xs[..|xs| - 1];
      assert forall k | 0 <= k < |init| :: init[k] == xs[k];
      SumAtLeast(init, lo);
    }
  }

  lemma {:induction false} SumAtMost(xs: seq<real>, hi: real)
    requires forall k | 0 <= k < |xs| :: xs[k] <= hi
    ensures Sum(xs) <= |xs| as real * hi
  {
    if xs != [] {
      var init := xs[..|xs| - 1];
      assert forall k | 0 <= k < |init| :: init[k] == xs[k];
      SumAtMost(init, hi);
    }
  }

  /** The mean of values no smaller than `lo` is no smaller than `lo`. */
  lemma MeanAtLeast(xs: seq<real>, lo: real)
    requires forall k | 0 <= k < |xs| :: lo <= xs[k]
    ensures Mean(xs).Ok? <==> |xs| > 0
    ensures Mean(xs).Err? ==> Mean(xs).error == ZeroDivisionError
    ensures Mean(xs).Ok? ==> lo <= Mean(xs).value
  {
    if |xs| > 0 {
      SumAtLeast(xs, lo);
      var n := |xs| as real;
      assert Sum(xs) / n * n == Sum(xs);
    }
  }

  /** The mean of values that all lie in [lo, hi] lies in [lo, hi] too. */
  lemma MeanBounds(xs: seq<real>, lo: real, hi: real)
    requires forall k | 0 <= k < |xs| :: lo <= xs[k] <= hi
    ensures Mean(xs).Ok? ==> lo <= Mean(xs).value <= hi
  {
    if |xs| > 0 {
      MeanAtLeast(xs, lo);
      SumAtMost(xs, hi);
      var n := |xs| as real;
      assert Sum(xs) / n * n == Sum(xs);
    }
  }

  /** The values of the per-worker dictionary in its insertion order. */
  function Figures(avg: map<string, real>, users: seq<string>): (xs: seq<real>)
    requires forall k | 0 <= k < |users| :: users[k] in avg
    ensures |xs| == |users| && forall k | 0 <= k < |users| :: xs[k] == avg[users[k]]
  {
    seq(|users|, k requires 0 <= k < |users| => avg[users[k]])
  }
}
