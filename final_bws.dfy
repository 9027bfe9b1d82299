/** The final-result script for Best-Worst Scaling: shuffle map, decoding of
    the annotation files, the drop-first repair of the pick lists and the
    export of ranks 4 (best), 1 (worst) and 2 (neither). */
module FinalBws {
  import opened Primitives
  import opened Shuffle
  import opened RawRows
  import opened BwsDecode
  import opened Export

  /** A pick list the repair accepts: three picks, or four of which the
      first is dropped. */
  predicate Repairable<T>(xs: seq<T>) {
    |xs| == 3 || |xs| == 4
  }

  /** The repair of one list: kept when it holds three picks, otherwise its
      first pick is dropped and the rest must hold three (AssertionError,
      the debugger escape of the script, otherwise). */
  function RepairList<T>(xs: seq<T>): (r: Result<seq<T>>)
    ensures r.Ok? <==> Repairable(xs)
    ensures r.Err? ==> r.error == AssertionError
    ensures r.Ok? ==> |r.value| == 3 && r.value == xs[|xs| - 3..]
    ensures |xs| == 3 ==> r == Ok(xs)
  {
    if |xs| == 3 then Ok(xs)
    else
      var rest := Drop(xs, 1);
      if |rest| == 3 then Ok(rest) else Err(AssertionError)
  }

  /** The repair of one document: its `best` list, then its `worst` list. */
  function RepairPicks<T>(p: Picks<T>): (r: Result<Picks<T>>)
    ensures r.Ok? <==> Repairable(p.best) && Repairable(p.worst)
    ensures r.Err? ==> r.error == AssertionError
    ensures r.Ok? ==> r.value == Picks(RepairList(p.best).value, RepairList(p.worst).value)
  {
    var best :- RepairList(p.best);
    var worst :- RepairList(p.worst);
    Ok(Picks(best, worst))
  }

  /** The repair pass over the documents of `docs` from position `i` on. */
  function RepairGo<T>(table: PickTable<T>, docs: seq<int>, i: nat): Result<PickTable<T>>
    requires forall k | 0 <= k < |docs| :: docs[k] in table
    decreases |docs| - i
  {
    if i >= |docs| then Ok(table)
    else
      match RepairPicks(table[docs[i]])
      case Err(e) => Err(e)
      case Ok(p) => RepairGo(table[docs[i] := p], docs, i + 1)
  }

  /** The repair loop over the dictionary in key order `docs`, updating it
      in place. */
  method RepairTable<T>(table0: PickTable<T>, docs: seq<int>) returns (res: Result<PickTable<T>>)
    requires forall k | 0 <= k < |docs| :: docs[k] in table0
    ensures res == RepairGo(table0, docs, 0)
  {
    var table := table0;
    var i := 0;
    while i < |docs|
      invariant i <= |docs|
      invariant table.Keys == table0.Keys
      invariant RepairGo(table, docs, i) == RepairGo(table0, docs, 0)
    {
      var key := docs[i];
      var repaired := RepairPicks(table[key]);
      if repaired.Err? {
        return Err(repaired.error);
      }
      table := table[key := repaired.value];
      i := i + 1;
    }
    return Ok(table);
  }

  /** Over distinct documents the pass succeeds exactly when every list from
      position `i` on is repairable, and fails with an AssertionError
      otherwise. */
  lemma {:induction false} RepairGoFails<T>(table: PickTable<T>, docs: seq<int>, i: nat)
    requires Distinct(docs) && (forall k | 0 <= k < |docs| :: docs[k] in table) && i <= |docs|
    ensures RepairGo(table, docs, i).Ok? <==> forall k | i <= k < |docs| :: RepairPicks(table[docs[k]]).Ok?
    ensures RepairGo(table, docs, i).Err? ==> RepairGo(table, docs, i).error == AssertionError
    decreases |docs| - i
  {
    if i < |docs| {
      var key := docs[i];
      if RepairPicks(table[key]).Ok? {
        var t' := table[key := RepairPicks(table[key]).value];
        assert forall k | i < k < |docs| :: t'[docs[k]] == table[docs[k]];
        RepairGoFails(t', docs, i + 1);
      }
    }
  }

  /** A successful pass keeps the documents of the dictionary. */
  lemma {:induction false} RepairGoKeys<T>(table: PickTable<T>, docs: seq<int>, i: nat)
    requires (forall k | 0 <= k < |docs| :: docs[k] in table) && RepairGo(table, docs, i).Ok?
    ensures RepairGo(table, docs, i).value.Keys == table.Keys
    decreases |docs| - i
  {
    if i < |docs| {
      RepairGoKeys(table[docs[i] := RepairPicks(table[docs[i]]).value], docs, i + 1);
    }
  }

  /** A successful pass over distinct documents replaces the entry of a
      document listed from position `i` on by its repaired form and leaves
      the entry of any other document alone. */
  lemma {:induction false} RepairGoEntry<T>(table: PickTable<T>, docs: seq<int>, i: nat, d: int)
    requires Distinct(docs) && (forall k | 0 <= k < |docs| :: docs[k] in table) && i <= |docs|
    requires RepairGo(table, docs, i).Ok? && d in table
    ensures var r := RepairGo(table, docs, i).value;
      d in r && if d in docs[i..] then RepairPicks(table[d]) == Ok(r[d]) else r[d] == table[d]
    decreases |docs| - i
  {
    RepairGoKeys(table, docs, i);
    if i < |docs| {
      var key := docs[i];
      var t' := table[key := RepairPicks(table[key]).value];
      assert docs[i..] == [key] + docs[i + 1..];
      if d == key {
        assert key !in docs[i + 1..] by {
          forall k | i + 1 <= k < |docs| ensures docs[k] != key {
          }
        }
      }
      RepairGoEntry(t', docs, i + 1, d);
    }
  }

  /** When `docs` is the key order, the whole pass succeeds exactly when
      every list of every document holds three or four picks, and then every
      list holds exactly three: the last three of the list read. */
  lemma RepairMeaning<T>(table: PickTable<T>, docs: seq<int>)
    requires ListsKeys(docs, table)
    ensures var r := RepairGo(table, docs, 0);
      && (r.Ok? <==> forall d | d in table :: Repairable(table[d].best) && Repairable(table[d].worst))
      && (r.Err? ==> r.error == AssertionError)
      && (r.Ok? ==> r.value.Keys == table.Keys)
      && (r.Ok? ==> forall d | d in table ::
            && r.value[d].best == table[d].best[|table[d].best| - 3..]
            && r.value[d].worst == table[d].worst[|table[d].worst| - 3..]
            && |r.value[d].best| == 3 && |r.value[d].worst| == 3)
  {
    RepairGoFails(table, docs, 0);
    var r := RepairGo(table, docs, 0);
    if r.Ok? {
      RepairGoKeys(table, docs, 0);
      forall d | d in table
        ensures Repairable(table[d].best) && Repairable(table[d].worst)
        ensures r.value[d] == RepairPicks(table[d]).value
      {
        assert docs[0..] == docs;
        RepairGoEntry(table, docs, 0, d);
      }
    } else {
      var k :| 0 <= k < |docs| && RepairPicks(table[docs[k]]).Err?;
      var d := docs[k];
      assert d in table && !(Repairable(table[d].best) && Repairable(table[d].worst));
      assert !(forall d' | d' in table :: Repairable(table[d'].best) && Repairable(table[d'].worst));
    }
  }

  /** `4 if system == best, elif system == worst 1, else 2`. */
  function Rank(best: string, worst: string, system: string): (r: int)
    ensures r == 4 <==> system == best
    ensures r == 1 <==> system != best && system == worst
    ensures r == 2 <==> system != best && system != worst
  {
    if system == best then 4 else if system == worst then 1 else 2
  }

  /** Among four distinct names with distinct best and worst picks exactly
      one ranks 4, exactly one ranks 1 and the other two rank 2; with the
      same name as both, it ranks 4 and none ranks 1. */
  lemma RankCounts(names: seq<string>, best: string, worst: string)
    requires |names| == 4 && Distinct(names)
    requires best in names && worst in names
    ensures best != worst ==>
      && (set s | s in names && Rank(best, worst, s) == 4) == {best}
      && (set s | s in names && Rank(best, worst, s) == 1) == {worst}
      && |set s | s in names && Rank(best, worst, s) == 2| == 2
    ensures best == worst ==>
      && (set s | s in names && Rank(best, worst, s) == 4) == {best}
      && (set s | s in names && Rank(best, worst, s) == 1) == {}
  {
    var fours := set s | s in names && Rank(best, worst, s) == 4;
    var ones := set s | s in names && Rank(best, worst, s) == 1;
    var twos := set s | s in names && Rank(best, worst, s) == 2;
    assert fours == {best};
    if best != worst {
      assert ones == {worst};
      var all := {names[0], names[1], names[2], names[3]};
      assert |all| == 4;
      assert twos == all - {best, worst};
    } else {
      assert ones == {};
    }
  }

  /** The same for the four systems of the export. */
  lemma RankUniqueness(best: string, worst: string)
    requires best in Systems && worst in Systems
    ensures best != worst ==>
      && (set s | s in Systems && Rank(best, worst, s) == 4) == {best}
      && (set s | s in Systems && Rank(best, worst, s) == 1) == {worst}
      && |set s | s in Systems && Rank(best, worst, s) == 2| == 2
    ensures best == worst ==>
      && (set s | s in Systems && Rank(best, worst, s) == 4) == {best}
      && (set s | s in Systems && Rank(best, worst, s) == 1) == {}
  {
    NamesMatchExportOrder();
    RankCounts(Systems, best, worst);
  }

  /** The export lookup: annotator `a`'s best and worst picks of `document`
      (KeyError for an unknown document, IndexError for a short list), then
      the rank of `system`. */
  function BwsScore(table: PickTable<string>, a: nat, document: int, system: string): (r: Result<int>)
    ensures r.Ok? <==> document in table && a < |table[document].best| && a < |table[document].worst|
    ensures r.Err? ==> r.error == (if document in table then IndexError else KeyError)
    ensures r.Ok? ==> r.value == Rank(table[document].best[a], table[document].worst[a], system)
  {
    if document !in table then Err(KeyError)
    else if a >= |table[document].best| || a >= |table[document].worst| then Err(IndexError)
    else Ok(Rank(table[document].best[a], table[document].worst[a], system))
  }

  function BwsScorer(table: PickTable<string>): Scorer {
    (a: nat, d: int, s: string) => BwsScore(table, a, d, s)
  }

  /** How the final-result Best-Worst script decodes: no worker column, the
      system name alone is appended. */
  function Config(): BwsConfig<string> {
    BwsConfig(false, (w: string, name: string) => name, (name: string) => name)
  }

  /** What the script leaves behind: the repaired pick dictionary and the
      final-result file. */
  datatype BwsOutcome = BwsOutcome(picks: PickTable<string>, written: Written)

  /** The whole script on the mapping rows and the annotation files. */
  function RunSpec(mappingRows: seq<seq<string>>, files: seq<CsvFile>, corpus: string): Result<BwsOutcome> {
    var mp :- BuildSpec(mappingRows, true);
    if !Complete(mp.slots) then Err(KeyError)
    else
      var decoded :- DecodeSpec(Config(), mp.slots, EmptyPicks(mp), files);
      // never taken: decoding keeps the documents of the map (DecodeKeepsDocuments)
      if exists k | 0 <= k < |mp.docs| :: mp.docs[k] !in decoded then Err(KeyError)
      else
        var repaired :- RepairGo(decoded, mp.docs, 0);
        Ok(BwsOutcome(repaired, ExportSpec(corpus, BwsScorer(repaired), Chunks())))
  }

  method Run(mappingRows: seq<seq<string>>, files: seq<CsvFile>, corpus: string) returns (res: Result<BwsOutcome>)
    ensures res == RunSpec(mappingRows, files, corpus)
  {
    var built := BuildShuffleMap(mappingRows, true);
    if built.Err? {
      return Err(built.error);
    }
    var mp := built.value;
    BuildOrdered(mappingRows, true);
    var probe := ProbeComplete(mp);
    if probe.Err? {
      return Err(probe.error);
    }
    var decoded := DecodeFiles(Config(), mp.slots, EmptyPicks(mp), files);
    if decoded.Err? {
      return Err(decoded.error);
    }
    DecodeKeepsDocuments(Config(), mp.slots, EmptyPicks(mp), files);
    var repaired := RepairTable(decoded.value, mp.docs);
    if repaired.Err? {
      return Err(repaired.error);
    }
    var written := WriteRecords(corpus, BwsScorer(repaired.value), Chunks());
    return Ok(BwsOutcome(repaired.value, written));
  }

  /** Every line the export writes from a repaired dictionary carries rank
      4, 1 or 2; when documents 1..100 all have entries every lookup
      succeeds and all 1200 lines are written. */
  lemma RepairedTableExports(table: PickTable<string>, corpus: string)
    requires forall d | d in table :: |table[d].best| == 3 && |table[d].worst| == 3
    ensures var out := ExportSpec(corpus, BwsScorer(table), Chunks());
      && (forall k | 0 <= k < |out.rows| :: out.rows[k].score in {1, 2, 4})
      && ((forall d | 1 <= d <= 100 :: d in table) ==> out.failure.None? && |out.rows| == 1200)
  {
    ExportOfDocuments(corpus, BwsScorer(table));
    ChunksOfDocuments();
    ExportLayout(corpus, BwsScorer(table), Chunks());
  }

  /** The repair keeps only picks that were read, so picks naming the four
      systems still do after it. */
  lemma RepairKeepsKnown(table: PickTable<string>, docs: seq<int>)
    requires ListsKeys(docs, table) && PicksKnown(Config(), table)
    requires RepairGo(table, docs, 0).Ok?
    ensures PicksKnown(Config(), RepairGo(table, docs, 0).value)
  {
    RepairMeaning(table, docs);
    var r := RepairGo(table, docs, 0).value;
    forall d | d in r
      ensures forall k | 0 <= k < |r[d].best| :: r[d].best[k] in Systems
      ensures forall k | 0 <= k < |r[d].worst| :: r[d].worst[k] in Systems
    {
      var p := table[d];
      assert r[d].best == p.best[|p.best| - 3..];
      assert r[d].worst == p.worst[|p.worst| - 3..];
    }
  }

  /** After a successful run every document of the shuffle map has exactly
      three best and three worst picks, each naming one of the four systems
      (so that RankUniqueness applies to every annotator), every line written
      carries rank 4, 1 or 2, and when documents 1..100 all have entries all
      1200 lines are written. */
  lemma RunOutcome(mappingRows: seq<seq<string>>, files: seq<CsvFile>, corpus: string)
    requires RunSpec(mappingRows, files, corpus).Ok?
    ensures var o := RunSpec(mappingRows, files, corpus).value;
      && o.picks.Keys == BuildSpec(mappingRows, true).value.slots.Keys
      && (forall d | d in o.picks :: |o.picks[d].best| == 3 && |o.picks[d].worst| == 3)
      && (forall d, a | d in o.picks && 0 <= a < 3 :: o.picks[d].best[a] in Systems && o.picks[d].worst[a] in Systems)
      && (forall k | 0 <= k < |o.written.rows| :: o.written.rows[k].score in {1, 2, 4})
      && ((forall d | 1 <= d <= 100 :: d in o.picks) ==> o.written.failure.None? && |o.written.rows| == 1200)
  {
    var mp := BuildSpec(mappingRows, true).value;
    BuildOrdered(mappingRows, true);
    DecodeKeepsDocuments(Config(), mp.slots, EmptyPicks(mp), files);
    var decoded := DecodeSpec(Config(), mp.slots, EmptyPicks(mp), files).value;
    RepairMeaning(decoded, mp.docs);
    RepairKeepsKnown(decoded, mp.docs);
    var repaired := RepairGo(decoded, mp.docs, 0).value;
    assert RunSpec(mappingRows, files, corpus).value == BwsOutcome(repaired, ExportSpec(corpus, BwsScorer(repaired), Chunks()));
    RepairedTableExports(repaired, corpus);
  }
}
