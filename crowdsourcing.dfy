/** The crowdsourcing reader: a shuffle map that converts every cell,
    including blank ones, followed without a completeness probe by a
    Likert-style decoding of `row[2:]` that skips blank answers silently. */
module Crowdsourcing {
  import opened Primitives
  import opened Shuffle
  import opened RawRows
  import opened LikertDecode

  /** Always `row[2:]`, no worker id, blanks not recorded, bare scores. */
  function Config(): LikertConfig<int> {
    LikertConfig(AfterTwo, false, false, (w: string, v: int) => v)
  }

  /** The whole reader on the mapping rows and the annotation files. */
  function RunSpec(mappingRows: seq<seq<string>>, files: seq<CsvFile>): Result<ScoreTable<int>> {
    var mp :- BuildSpec(mappingRows, false);
    var st :- DecodeSpec(Config(), mp.slots, LikertState(EmptyScores(mp), {}), files);
    Ok(st.table)
  }

  method Run(mappingRows: seq<seq<string>>, files: seq<CsvFile>) returns (res: Result<ScoreTable<int>>)
    ensures res == RunSpec(mappingRows, files)
  {
    var built := BuildShuffleMap(mappingRows, false);
    if built.Err? {
      return Err(built.error);
    }
    var mp := built.value;
    var decoded := DecodeFiles(Config(), mp.slots, LikertState(EmptyScores(mp), {}), files);
    if decoded.Err? {
      return Err(decoded.error);
    }
    return Ok(decoded.value.table);
  }

  /** A blank cell in a data row of the mapping file is a ValueError here:
      the reader stops at it unless an earlier cell has already failed. */
  lemma BlankMappingCellFails(mp: Mapping, r: nat, c: nat)
    requires r > 0
    ensures CellStep(mp, r, c, "", false) == Err(ValueError)
  {
    assert Strip("") == "";
  }

  /** After a successful run the dictionary has one entry per document of
      the shuffle map, filed under known system names only. */
  lemma RunOutcome(mappingRows: seq<seq<string>>, files: seq<CsvFile>)
    requires RunSpec(mappingRows, files).Ok?
    ensures RunSpec(mappingRows, files).value.Keys == BuildSpec(mappingRows, false).value.slots.Keys
    ensures NamesKnown(RunSpec(mappingRows, files).value)
  {
    var mp := BuildSpec(mappingRows, false).value;
    DecodeGrows(Config(), mp.slots, LikertState(EmptyScores<int>(mp), {}), files);
  }
}
