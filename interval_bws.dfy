/** The interval-test reader for Best-Worst Scaling: the same shuffle map
    and decoding as the final-result script, but every pick is stored
    together with the worker id of its row, and nothing is repaired. */
module IntervalBws {
  import opened Primitives
  import opened Shuffle
  import opened RawRows
  import opened BwsDecode

  /** `(turker_id, summary_name)`. */
  type Pick = (string, string)

  /** The worker id column read, (worker, system name) pairs appended. */
  function Config(): BwsConfig<Pick> {
    BwsConfig(true, (w: string, name: string) => (w, name), (p: Pick) => p.1)
  }

  /** The whole reader on the mapping rows and the annotation files. */
  function RunSpec(mappingRows: seq<seq<string>>, files: seq<CsvFile>): Result<PickTable<Pick>> {
    var mp :- BuildSpec(mappingRows, true);
    if !Complete(mp.slots) then Err(KeyError)
    else DecodeSpec(Config(), mp.slots, EmptyPicks(mp), files)
  }

  method Run(mappingRows: seq<seq<string>>, files: seq<CsvFile>) returns (res: Result<PickTable<Pick>>)
    ensures res == RunSpec(mappingRows, files)
  {
    var built := BuildShuffleMap(mappingRows, true);
    if built.Err? {
      return Err(built.error);
    }
    var mp := built.value;
    BuildOrdered(mappingRows, true);
    var probe := ProbeComplete(mp);
    if probe.Err? {
      return Err(probe.error);
    }
    res := DecodeFiles(Config(), mp.slots, EmptyPicks(mp), files);
  }

  /** After a successful run the dictionary has one entry per document of
      the shuffle map, and every (worker, system) pair in it names one of the
      four systems. */
  lemma RunOutcome(mappingRows: seq<seq<string>>, files: seq<CsvFile>)
    requires RunSpec(mappingRows, files).Ok?
    ensures var t := RunSpec(mappingRows, files).value;
      && t.Keys == BuildSpec(mappingRows, true).value.slots.Keys
      && (forall d, k | d in t && 0 <= k < |t[d].best| :: t[d].best[k].1 in Systems)
      && (forall d, k | d in t && 0 <= k < |t[d].worst| :: t[d].worst[k].1 in Systems)
  {
    var mp := BuildSpec(mappingRows, true).value;
    DecodeKeepsDocuments(Config(), mp.slots, EmptyPicks(mp), files);
  }
}
