/** The join of the interval test: every answer of the redo round is paired
    with the same worker's answer to the same question in the original
    round, giving each worker a list of (original, redo) pairs. The Likert
    join pairs scores per (task, model); the Best-Worst join pairs system
    names per (task, category); both are the same code over a value type V. */
module Join {
  import opened Primitives

  /** task -> model or category -> (worker, value) pairs, as a round's JSON
      file holds them. */
  type Round<V> = map<string, map<string, seq<(string, V)>>>

  /** One (worker, value) pair of the redo round together with the task and
      the model or category it sits under; the redo round is given as these
      answers in the iteration order of its nested dictionaries. */
  datatype Answer<V> = Answer(task: string, group: string, worker: string, value: V)

  /** The per-worker pair lists and the workers in order of insertion. */
  datatype Joined<V> = Joined(pairs: map<string, seq<(V, V)>>, users: seq<string>)

  /** The pair list of worker `u`; an absent worker has none. */
  function PairsOf<V>(j: Joined<V>, u: string): seq<(V, V)> {
    if u in j.pairs then j.pairs[u] else []
  }

  /** The position of the first pair of `group` from `from` on whose worker
      is `worker`. */
  function FirstIndex<V>(group: seq<(string, V)>, worker: string, from: nat): (r: Option<nat>)
    ensures r.Some? ==> from <= r.value < |group| && group[r.value].0 == worker
    ensures forall k | from <= k < |group| && (r.None? || k < r.value) :: group[k].0 != worker
    decreases |group| - from
  {
    if from >= |group| then None
    else if group[from].0 == worker then Some(from)
    else FirstIndex(group, worker, from + 1)
  }

  /** The value of the first pair of `group` by `worker`: what the search
      loop with `break` assigns to the original score. */
  function OriginalOf<V>(group: seq<(string, V)>, worker: string): Option<V> {
    match FirstIndex(group, worker, 0)
    case None => None
    case Some(k) => Some(group[k].1)
  }

  /** The search loop over the original group: the first matching pair wins. */
  method FindOriginal<V>(group: seq<(string, V)>, worker: string) returns (found: Option<V>)
    ensures found == OriginalOf(group, worker)
  {
    found := None;
    var k := 0;
    while k < |group|
      invariant k <= |group|
      invariant FirstIndex(group, worker, k) == FirstIndex(group, worker, 0)
    {
      if group[k].0 == worker {
        found := Some(group[k].1);
        return;
      }
      k := k + 1;
    }
  }

  /** Appends `p` to the list of worker `u`, creating the list if needed. */
  function Append<V>(j: Joined<V>, u: string, p: (V, V)): Joined<V> {
    Joined(j.pairs[u := PairsOf(j, u) + [p]], if u in j.pairs then j.users else j.users + [u])
  }

  /** The pair one redo answer contributes: none when its group is absent
      from the original task or the worker gave no original answer there. */
  function Contribution<V>(orig: Round<V>, e: Answer<V>): Option<(V, V)>
    requires e.task in orig
  {
    if e.group !in orig[e.task] then None
    else match OriginalOf(orig[e.task][e.group], e.worker)
      case None => None
      case Some(o) => Some((o, e.value))
  }

  // ---------------------------------------------------------------------
  // The join as written: the worker's list is created before the group is
  // looked up, and the variable holding the original answer keeps its value
  // from earlier answers when the search finds nothing (a NameError when it
  // was never assigned).
  // ---------------------------------------------------------------------

  /** The join state as written: the lists and the last original answer found. */
  datatype Stale<V> = Stale(joined: Joined<V>, last: Option<V>)

  function StaleStep<V>(orig: Round<V>, st: Stale<V>, e: Answer<V>): Result<Stale<V>> {
    var j := if e.worker in st.joined.pairs then st.joined
             else Joined(st.joined.pairs[e.worker := []], st.joined.users + [e.worker]);
    if e.task !in orig then Err(KeyError)
    else if e.group !in orig[e.task] then Ok(Stale(j, st.last))
    else
      var found := OriginalOf(orig[e.task][e.group], e.worker);
      var last := if found.Some? then found else st.last;
      if last.None? then Err(NameError)
      else Ok(Stale(Append(j, e.worker, (last.value, e.value)), last))
  }

  function StaleGo<V>(orig: Round<V>, st: Stale<V>, redo: seq<Answer<V>>, i: nat): Result<Stale<V>>
    decreases |redo| - i
  {
    if i >= |redo| then Ok(st)
    else
      match StaleStep(orig, st, redo[i])
      case Err(e) => Err(e)
      case Ok(st') => StaleGo(orig, st', redo, i + 1)
  }

  /** The lists the join as written leaves behind. */
  function JoinAsWritten<V>(orig: Round<V>, redo: seq<Answer<V>>): Result<Joined<V>> {
    var st :- StaleGo(orig, Stale(Joined(map[], []), None), redo, 0);
    Ok(st.joined)
  }

  /** Worker B answered only in the redo round, after worker A: as written,
      B is given A's original score. */
  lemma StaleScoreExample()
    ensures var orig: Round<int> := map["1" := map["bart" := [("A", 3)]]];
      var redo := [Answer("1", "bart", "A", 3), Answer("1", "bart", "B", 7)];
      && JoinAsWritten(orig, redo).Ok?
      && PairsOf(JoinAsWritten(orig, redo).value, "B") == [(3, 7)]
      && JoinRounds(orig, redo).Ok?
      && "B" !in JoinRounds(orig, redo).value.pairs
  {
    var orig: Round<int> := map["1" := map["bart" := [("A", 3)]]];
    var a, b := Answer("1", "bart", "A", 3), Answer("1", "bart", "B", 7);
    assert FirstIndex(orig["1"]["bart"], "A", 0) == Some(0);
    assert FirstIndex(orig["1"]["bart"], "B", 1) == None;
    assert FirstIndex(orig["1"]["bart"], "B", 0) == None;
    var s1 := StaleStep(orig, Stale(Joined(map[], []), None), a).value;
    assert s1.last == Some(3);
    assert StaleGo(orig, s1, [a, b], 1) == StaleGo(orig, StaleStep(orig, s1, b).value, [a, b], 2);
    var j1 := Append(Joined(map[], []), "A", (3, 3));
    assert JoinGo(orig, Joined(map[], []), [a, b], 0) == JoinGo(orig, j1, [a, b], 1);
    assert JoinGo(orig, j1, [a, b], 1) == Ok(j1);
  }

  /** A redo worker with no original answer anywhere before: as written the
      original-score variable was never assigned. */
  lemma UnboundScoreExample()
    ensures var orig: Round<int> := map["1" := map["bart" := [("A", 3)]]];
      JoinAsWritten(orig, [Answer("1", "bart", "B", 7)]) == Err(NameError)
  {
    var orig: Round<int> := map["1" := map["bart" := [("A", 3)]]];
    assert FirstIndex(orig["1"]["bart"], "B", 1) == None;
    assert FirstIndex(orig["1"]["bart"], "B", 0) == None;
  }

  /** A redo answer under a model the original task lacks: as written the
      worker still gets a list, an empty one. */
  lemma EmptyListExample()
    ensures var orig: Round<int> := map["9" := map[]];
      JoinAsWritten(orig, [Answer("9", "bart", "A", 3)]) == Ok(Joined(map["A" := []], ["A"]))
  {
    var orig: Round<int> := map["9" := map[]];
    var redo := [Answer("9", "bart", "A", 3)];
    var s1 := Stale(Joined(map["A" := []], ["A"]), None);
    var empty: map<string, seq<(int, int)>> := map[];
    assert empty["A" := []] == map["A" := []];
    assert [] + ["A"] == ["A"];
    assert StaleStep(orig, Stale(Joined(map[], []), None), redo[0]) == Ok(s1);
    assert StaleGo(orig, s1, redo, 1) == Ok(s1);
  }

  // ---------------------------------------------------------------------
  // The join as intended: a redo answer is paired only with that worker's
  // own original answer, and a worker gets a list only with a first pair.
  // ---------------------------------------------------------------------

  /** One redo answer: a KeyError for a task the original round lacks,
      otherwise the answer's contribution, if any, is appended. */
  function JoinStep<V>(orig: Round<V>, j: Joined<V>, e: Answer<V>): Result<Joined<V>> {
    if e.task !in orig then Err(KeyError)
    else
      match Contribution(orig, e)
      case None => Ok(j)
      case Some(p) => Ok(Append(j, e.worker, p))
  }

  function JoinGo<V>(orig: Round<V>, j: Joined<V>, redo: seq<Answer<V>>, i: nat): Result<Joined<V>>
    decreases |redo| - i
  {
    if i >= |redo| then Ok(j)
    else
      match JoinStep(orig, j, redo[i])
      case Err(e) => Err(e)
      case Ok(j') => JoinGo(orig, j', redo, i + 1)
  }

  /** The per-worker lists of (original, redo) pairs. */
  function JoinRounds<V>(orig: Round<V>, redo: seq<Answer<V>>): Result<Joined<V>> {
    JoinGo(orig, Joined(map[], []), redo, 0)
  }

  /** The join loop over the redo answers. */
  method JoinByWorker<V>(orig: Round<V>, redo: seq<Answer<V>>) returns (res: Result<Joined<V>>)
    ensures res == JoinRounds(orig, redo)
  {
    var j := Joined(map[], []);
    var i := 0;
    while i < |redo|
      invariant i <= |redo|
      invariant JoinGo(orig, j, redo, i) == JoinRounds(orig, redo)
    {
      var e := redo[i];
      if e.task !in orig {
        return Err(KeyError);
      }
      if e.group in orig[e.task] {
        var found := FindOriginal(orig[e.task][e.group], e.worker);
        if found.Some? {
          j := Append(j, e.worker, (found.value, e.value));
        }
      }
      i := i + 1;
    }
    return Ok(j);
  }

  /** The pairs worker `u` should get from the redo answers `i..`: one for
      each of their answers whose group the original task has and in which
      they answered originally, in redo order. */
  function MatchedFrom<V>(orig: Round<V>, redo: seq<Answer<V>>, i: nat, u: string): seq<(V, V)>
    requires forall k | 0 <= k < |redo| :: redo[k].task in orig
    decreases |redo| - i
  {
    if i >= |redo| then []
    else
      var c := Contribution(orig, redo[i]);
      (if redo[i].worker == u && c.Some? then [c.value] else []) + MatchedFrom(orig, redo, i + 1, u)
  }

  lemma {:induction false} JoinGoFails<V>(orig: Round<V>, j: Joined<V>, redo: seq<Answer<V>>, i: nat)
    ensures JoinGo(orig, j, redo, i).Ok? <==> forall k | i <= k < |redo| :: redo[k].task in orig
    ensures JoinGo(orig, j, redo, i).Err? ==> JoinGo(orig, j, redo, i).error == KeyError
    decreases |redo| - i
  {
    if i < |redo| && redo[i].task in orig {
      JoinGoFails(orig, JoinStep(orig, j, redo[i]).value, redo, i + 1);
    }
  }

  /** One appended pair keeps the worker list a record of the keys, and no
      list empty. */
  lemma AppendKeeps<V>(j: Joined<V>, u: string, p: (V, V))
    requires ListsKeys(j.users, j.pairs) && (forall w | w in j.pairs :: j.pairs[w] != [])
    ensures var j' := Append(j, u, p);
      && ListsKeys(j'.users, j'.pairs) && (forall w | w in j'.pairs :: j'.pairs[w] != [])
      && (forall w :: PairsOf(j', w) == PairsOf(j, w) + (if w == u then [p] else []))
  {
    if u !in j.pairs {
      assert forall k | 0 <= k < |j.users| :: j.users[k] != u;
    }
  }

  /** One redo answer appends its contribution, if any, to its worker's list. */
  lemma JoinStepKeeps<V>(orig: Round<V>, j: Joined<V>, e: Answer<V>)
    requires ListsKeys(j.users, j.pairs) && (forall u | u in j.pairs :: j.pairs[u] != [])
    requires e.task in orig
    ensures var c, j' := Contribution(orig, e), JoinStep(orig, j, e).value;
      && ListsKeys(j'.users, j'.pairs) && (forall u | u in j'.pairs :: j'.pairs[u] != [])
      && (forall u :: PairsOf(j', u) == PairsOf(j, u) + (if e.worker == u && c.Some? then [c.value] else []))
  {
    var c := Contribution(orig, e);
    if c.Some? {
      AppendKeeps(j, e.worker, c.value);
    }
  }

  lemma {:induction false} JoinGoKeeps<V>(orig: Round<V>, j: Joined<V>, redo: seq<Answer<V>>, i: nat)
    requires ListsKeys(j.users, j.pairs) && (forall u | u in j.pairs :: j.pairs[u] != [])
    requires forall k | 0 <= k < |redo| :: redo[k].task in orig
    ensures JoinGo(orig, j, redo, i).Ok?
    ensures var r := JoinGo(orig, j, redo, i).value;
      ListsKeys(r.users, r.pairs) && (forall u | u in r.pairs :: r.pairs[u] != [])
    decreases |redo| - i
  {
    if i < |redo| {
      JoinStepKeeps(orig, j, redo[i]);
      JoinGoKeeps(orig, JoinStep(orig, j, redo[i]).value, redo, i + 1);
    }
  }

  lemma {:induction false} JoinGoPairs<V>(orig: Round<V>, j: Joined<V>, redo: seq<Answer<V>>, i: nat, u: string)
    requires forall k | 0 <= k < |redo| :: redo[k].task in orig
    requires JoinGo(orig, j, redo, i).Ok?
    ensures PairsOf(JoinGo(orig, j, redo, i).value, u) == PairsOf(j, u) + MatchedFrom(orig, redo, i, u)
    decreases |redo| - i
  {
    if i < |redo| {
      var e := redo[i];
      var c := Contribution(orig, e);
      var j' := JoinStep(orig, j, e).value;
      var here := if e.worker == u && c.Some? then [c.value] else [];
      assert JoinGo(orig, j, redo, i) == JoinGo(orig, j', redo, i + 1);
      assert PairsOf(j', u) == PairsOf(j, u) + here;
      JoinGoPairs(orig, j', redo, i + 1, u);
      assert MatchedFrom(orig, redo, i, u) == here + MatchedFrom(orig, redo, i + 1, u);
    }
  }

  /** The join succeeds exactly when every redo task is in the original
      round (a KeyError otherwise); each worker's list is then exactly the
      pairs the reference assigns them, in redo order, the worker list names
      each worker with pairs once, and no list is empty. */
  lemma JoinMeaning<V>(orig: Round<V>, redo: seq<Answer<V>>)
    ensures JoinRounds(orig, redo).Ok? <==> forall k | 0 <= k < |redo| :: redo[k].task in orig
    ensures JoinRounds(orig, redo).Err? ==> JoinRounds(orig, redo).error == KeyError
    ensures JoinRounds(orig, redo).Ok? ==>
      var r := JoinRounds(orig, redo).value;
      && ListsKeys(r.users, r.pairs)
      && (forall u | u in r.pairs :: r.pairs[u] != [])
      && (forall u :: PairsOf(r, u) == MatchedFrom(orig, redo, 0, u))
  {
    JoinGoFails(orig, Joined(map[], []), redo, 0);
    if JoinRounds(orig, redo).Ok? {
      JoinGoKeeps(orig, Joined(map[], []), redo, 0);
      forall u ensures PairsOf(JoinRounds(orig, redo).value, u) == MatchedFrom(orig, redo, 0, u) {
        JoinGoPairs(orig, Joined(map[], []), redo, 0, u);
      }
    }
  }
}
