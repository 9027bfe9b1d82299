/** The interval test as a whole, with the join as intended (`Join.JoinRounds`,
    see its module for the join as written): both joins, both per-worker
    dictionaries and both overall figures, in the order the script computes
    them. */
module Consistency {
  import opened Primitives
  import opened Join
  import opened Metrics

  /** `likert_average_diff`, `bws_average_diff` and the two overall means. */
  datatype Report = Report(likert: map<string, real>, bws: map<string, real>, likertOverall: real, bwsOverall: real)

  lemma LikertMetricDefined()
    ensures forall ps :: LikertMetric()(ps).Ok? <==> |ps| > 0
  {
    forall ps ensures LikertMetric()(ps).Ok? <==> |ps| > 0 {
      MeanAbsDiffMeaning(ps);
    }
  }

  lemma BwsMetricDefined()
    ensures forall ps :: BwsMetric()(ps).Ok? <==> |ps| > 0
  {
    forall ps ensures BwsMetric()(ps).Ok? <==> |ps| > 0 {
      MismatchRateMeaning(ps);
    }
  }

  /** The per-worker dictionary of one protocol's figures. */
  function Averages<V>(j: Joined<V>, metric: seq<(V, V)> -> Result<real>): Result<map<string, real>>
    requires ListsKeys(j.users, j.pairs)
  {
    AveragesGo(j.pairs, j.users, metric, map[], 0)
  }

  /** `sum(d.values()) / len(d.values())` over the per-worker dictionary,
      whose values come in the order the workers were inserted. */
  function Overall(avg: map<string, real>, users: seq<string>): Result<real>
    requires forall k | 0 <= k < |users| :: users[k] in avg
  {
    Mean(Figures(avg, users))
  }

  /** A successful join records its workers in order of insertion. */
  lemma JoinListsKeys<V>(orig: Round<V>, redo: seq<Answer<V>>)
    ensures JoinRounds(orig, redo).Ok? ==> ListsKeys(JoinRounds(orig, redo).value.users, JoinRounds(orig, redo).value.pairs)
  {
    JoinMeaning(orig, redo);
  }

  /** A per-worker dictionary that exists has a figure for every worker. */
  lemma AveragesCoverUsers<V>(j: Joined<V>, metric: seq<(V, V)> -> Result<real>)
    requires ListsKeys(j.users, j.pairs)
    requires forall ps :: metric(ps).Ok? <==> |ps| > 0
    ensures Averages(j, metric).Ok? ==> forall k | 0 <= k < |j.users| :: j.users[k] in Averages(j, metric).value
  {
    AveragesMeaning(j, metric);
  }

  /** The script on the original and redo rounds of both protocols, with the
      join as intended in place of the join as written. */
  function ReportSpec(likertOrig: Round<int>, likertRedo: seq<Answer<int>>,
                      bwsOrig: Round<string>, bwsRedo: seq<Answer<string>>): Result<Report>
  {
    var lj :- JoinRounds(likertOrig, likertRedo);
    var bj :- JoinRounds(bwsOrig, bwsRedo);
    JoinListsKeys(likertOrig, likertRedo);
    JoinListsKeys(bwsOrig, bwsRedo);
    var la :- Averages(lj, LikertMetric());
    var ba :- Averages(bj, BwsMetric());
    LikertMetricDefined();
    BwsMetricDefined();
    AveragesCoverUsers(lj, LikertMetric());
    AveragesCoverUsers(bj, BwsMetric());
    var lo :- Overall(la, lj.users);
    var bo :- Overall(ba, bj.users);
    Ok(Report(la, ba, lo, bo))
  }

  /** The script's steps in its own order, with the join as intended. */
  method Run(likertOrig: Round<int>, likertRedo: seq<Answer<int>>,
             bwsOrig: Round<string>, bwsRedo: seq<Answer<string>>) returns (res: Result<Report>)
    ensures res == ReportSpec(likertOrig, likertRedo, bwsOrig, bwsRedo)
  {
    var lj := JoinByWorker(likertOrig, likertRedo);
    if lj.Err? {
      return Err(lj.error);
    }
    var bj := JoinByWorker(bwsOrig, bwsRedo);
    if bj.Err? {
      return Err(bj.error);
    }
    JoinListsKeys(likertOrig, likertRedo);
    JoinListsKeys(bwsOrig, bwsRedo);
    var la := LikertAverages(lj.value);
    if la.Err? {
      return Err(la.error);
    }
    var ba := BwsAverages(bj.value);
    if ba.Err? {
      return Err(ba.error);
    }
    LikertMetricDefined();
    BwsMetricDefined();
    AveragesCoverUsers(lj.value, LikertMetric());
    AveragesCoverUsers(bj.value, BwsMetric());
    var lo := Overall(la.value, lj.value.users);
    if lo.Err? {
      return Err(lo.error);
    }
    var bo := Overall(ba.value, bj.value.users);
    if bo.Err? {
      return Err(bo.error);
    }
    return Ok(Report(la.value, ba.value, lo.value, bo.value));
  }

  /** For a join as intended, every worker of the Likert join has a figure
      computed from exactly their pairs and never negative, and the overall
      figure exists exactly when some worker has pairs and is never negative. */
  lemma LikertFigures(j: Joined<int>)
    requires ListsKeys(j.users, j.pairs) && (forall u | u in j.pairs :: j.pairs[u] != [])
    ensures Averages(j, LikertMetric()).Ok?
    ensures var avg := Averages(j, LikertMetric()).value;
      && avg.Keys == j.pairs.Keys
      && (forall u | u in j.pairs :: MeanAbsDiff(j.pairs[u]) == Ok(avg[u]) && avg[u] >= 0.0)
      && (Overall(avg, j.users).Ok? <==> j.pairs != map[])
      && (Overall(avg, j.users).Ok? ==> Overall(avg, j.users).value >= 0.0)
  {
    LikertMetricDefined();
    AveragesMeaning(j, LikertMetric());
    var avg := Averages(j, LikertMetric()).value;
    forall u | u in j.pairs ensures MeanAbsDiff(j.pairs[u]) == Ok(avg[u]) && avg[u] >= 0.0 {
      MeanAbsDiffMeaning(j.pairs[u]);
    }
    MeanAtLeast(Figures(avg, j.users), 0.0);
    if j.pairs != map[] {
      var u :| u in j.pairs;
    }
  }

  /** The same for the Best-Worst join, with figures in [0, 1]. */
  lemma BwsFigures(j: Joined<string>)
    requires ListsKeys(j.users, j.pairs) && (forall u | u in j.pairs :: j.pairs[u] != [])
    ensures Averages(j, BwsMetric()).Ok?
    ensures var avg := Averages(j, BwsMetric()).value;
      && avg.Keys == j.pairs.Keys
      && (forall u | u in j.pairs :: MismatchRate(j.pairs[u]) == Ok(avg[u]) && 0.0 <= avg[u] <= 1.0)
      && (Overall(avg, j.users).Ok? <==> j.pairs != map[])
      && (Overall(avg, j.users).Ok? ==> 0.0 <= Overall(avg, j.users).value <= 1.0)
  {
    BwsMetricDefined();
    AveragesMeaning(j, BwsMetric());
    var avg := Averages(j, BwsMetric()).value;
    forall u | u in j.pairs ensures MismatchRate(j.pairs[u]) == Ok(avg[u]) && 0.0 <= avg[u] <= 1.0 {
      MismatchRateMeaning(j.pairs[u]);
    }
    MeanAtLeast(Figures(avg, j.users), 0.0);
    MeanBounds(Figures(avg, j.users), 0.0, 1.0);
    if j.pairs != map[] {
      var u :| u in j.pairs;
    }
  }

  /** With the join as intended, the script fails only with a KeyError for
      a redo task missing from its original round (JoinMeaning), or with a
      ZeroDivisionError when a join pairs no answer at all; otherwise the
      report holds one figure per worker of each join, computed from exactly
      that worker's pairs, an overall Likert figure that is never negative
      and an overall Best-Worst figure in [0, 1]. */
  lemma ReportMeaning(likertOrig: Round<int>, likertRedo: seq<Answer<int>>,
                      bwsOrig: Round<string>, bwsRedo: seq<Answer<string>>)
    ensures var r, lr, br := ReportSpec(likertOrig, likertRedo, bwsOrig, bwsRedo),
                             JoinRounds(likertOrig, likertRedo), JoinRounds(bwsOrig, bwsRedo);
      && (r.Ok? <==> lr.Ok? && br.Ok? && lr.value.pairs != map[] && br.value.pairs != map[])
      && (r.Err? ==> r.error in {KeyError, ZeroDivisionError})
      && (r.Ok? ==>
            && r.value.likert.Keys == lr.value.pairs.Keys
            && r.value.bws.Keys == br.value.pairs.Keys
            && (forall u | u in lr.value.pairs :: MeanAbsDiff(lr.value.pairs[u]) == Ok(r.value.likert[u]))
            && (forall u | u in br.value.pairs :: MismatchRate(br.value.pairs[u]) == Ok(r.value.bws[u]))
            && r.value.likertOverall >= 0.0
            && 0.0 <= r.value.bwsOverall <= 1.0)
  {
    JoinMeaning(likertOrig, likertRedo);
    JoinMeaning(bwsOrig, bwsRedo);
    var lr, br := JoinRounds(likertOrig, likertRedo), JoinRounds(bwsOrig, bwsRedo);
    if lr.Ok? && br.Ok? {
      LikertFigures(lr.value);
      BwsFigures(br.value);
    }
  }

  /** As written, the worker of EmptyListExample keeps an empty list, and the
      Likert figures then stop with a ZeroDivisionError; the join as
      intended gives that worker no list. */
  lemma EmptyListFailsExample()
    ensures var orig: Round<int> := map["9" := map[]];
      var redo := [Answer("9", "bart", "A", 3)];
      && JoinAsWritten(orig, redo) == Ok(Joined(map["A" := []], ["A"]))
      && Averages(Joined(map["A" := []], ["A"]), LikertMetric()) == Err(ZeroDivisionError)
      && JoinRounds(orig, redo) == Ok(Joined(map[], []))
  {
    EmptyListExample();
    var orig: Round<int> := map["9" := map[]];
    var redo := [Answer("9", "bart", "A", 3)];
    assert JoinGo(orig, Joined(map[], []), redo, 1) == Ok(Joined(map[], []));
  }
}
