/** The interval-test reader for Likert ratings: the same shuffle map and
    decoding as the final-result script, but every score is stored together
    with the worker id of its row. */
module IntervalLikert {
  import opened Primitives
  import opened Shuffle
  import opened RawRows
  import opened LikertDecode

  /** `(turker_id, int(value))`. */
  type Rating = (string, int)

  /** Width-detecting trim, the worker id column read, blanks recorded in
      the missing set, (worker, score) pairs appended. */
  function Config(): LikertConfig<Rating> {
    LikertConfig(WidthDetect, true, true, (w: string, v: int) => (w, v))
  }

  /** The whole reader on the mapping rows and the annotation files: the
      score dictionary and the files with a blank answer. */
  function RunSpec(mappingRows: seq<seq<string>>, files: seq<CsvFile>): Result<LikertState<Rating>> {
    var mp :- BuildSpec(mappingRows, true);
    if !Complete(mp.slots) then Err(KeyError)
    else DecodeSpec(Config(), mp.slots, LikertState(EmptyScores(mp), {}), files)
  }

  method Run(mappingRows: seq<seq<string>>, files: seq<CsvFile>) returns (res: Result<LikertState<Rating>>)
    ensures res == RunSpec(mappingRows, files)
  {
    var built := BuildShuffleMap(mappingRows, true);
    if built.Err? {
      return Err(built.error);
    }
    var mp := built.value;
    BuildOrdered(mappingRows, true);
    var probe := ProbeComplete(mp);
    if probe.Err? {
      return Err(probe.error);
    }
    res := DecodeFiles(Config(), mp.slots, LikertState(EmptyScores(mp), {}), files);
  }

  /** After a successful run the dictionary has one entry per document of
      the shuffle map, filed under known system names only, and the shuffle
      map it was decoded with is complete. */
  lemma RunOutcome(mappingRows: seq<seq<string>>, files: seq<CsvFile>)
    requires RunSpec(mappingRows, files).Ok?
    ensures BuildSpec(mappingRows, true).Ok? && Complete(BuildSpec(mappingRows, true).value.slots)
    ensures RunSpec(mappingRows, files).value.table.Keys == BuildSpec(mappingRows, true).value.slots.Keys
    ensures NamesKnown(RunSpec(mappingRows, files).value.table)
  {
    var mp := BuildSpec(mappingRows, true).value;
    DecodeGrows(Config(), mp.slots, LikertState(EmptyScores<Rating>(mp), {}), files);
  }
}
