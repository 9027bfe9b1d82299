/** The final-result script for Likert ratings: shuffle map, decoding of the
    annotation files, the 4-systems-by-3-scores validation and the export. */
module FinalLikert {
  import opened Primitives
  import opened Shuffle
  import opened RawRows
  import opened LikertDecode
  import opened Export

  /** A document entry that fails validation: not exactly four systems, or
      some system without exactly three scores. */
  predicate IsBad<T>(entry: map<string, seq<T>>) {
    |entry| != 4 || exists n | n in entry :: |entry[n]| != 3
  }

  /** The documents of `docs` whose entry fails validation, in order: the
      keys the validation prints. */
  function BadIn<T>(table: ScoreTable<T>, docs: seq<int>): seq<int> {
    if docs == [] then []
    else (if docs[0] in table && IsBad(table[docs[0]]) then [docs[0]] else []) + BadIn(table, docs[1..])
  }

  /** The documents of the dictionary that fail validation. */
  function BadDocs<T>(table: ScoreTable<T>): set<int> {
    set d | d in table && IsBad(table[d])
  }

  lemma {:induction false} BadInMembers<T>(table: ScoreTable<T>, docs: seq<int>)
    ensures forall d :: d in BadIn(table, docs) <==> d in docs && d in table && IsBad(table[d])
  {
    if docs != [] {
      BadInMembers(table, docs[1..]);
      assert forall d :: d in docs <==> d == docs[0] || d in docs[1..];
    }
  }

  lemma {:induction false} BadInSize<T>(table: ScoreTable<T>, docs: seq<int>)
    requires Distinct(docs)
    ensures |BadIn(table, docs)| == |set d | d in docs && d in table && IsBad(table[d])|
  {
    if docs != [] {
      var rest := docs[1..];
      assert Distinct(rest) by {
        forall i, j | 0 <= i < j < |rest| ensures rest[i] != rest[j] {
          assert rest[i] == docs[i + 1] && rest[j] == docs[j + 1];
        }
      }
      BadInSize(table, rest);
      var here := set d | d in docs && d in table && IsBad(table[d]);
      var there := set d | d in rest && d in table && IsBad(table[d]);
      assert docs[0] !in rest by {
        forall k | 0 <= k < |rest| ensures rest[k] != docs[0] {
          assert rest[k] == docs[k + 1];
        }
      }
      assert forall d :: d in docs <==> d == docs[0] || d in rest;
      if docs[0] in table && IsBad(table[docs[0]]) {
        assert here == there + {docs[0]};
      } else {
        assert here == there;
      }
    }
  }

  /** When `docs` is the key order of the dictionary, the validation prints
      exactly the documents that fail it, each once, and `bad` counts them. */
  lemma BadInCountsBadDocs<T>(table: ScoreTable<T>, docs: seq<int>)
    requires ListsKeys(docs, table)
    ensures forall d :: d in BadIn(table, docs) <==> d in BadDocs(table)
    ensures |BadIn(table, docs)| == |BadDocs(table)|
  {
    BadInMembers(table, docs);
    BadInSize(table, docs);
    assert (set d | d in docs && d in table && IsBad(table[d])) == BadDocs(table);
  }

  /** The validation loop over the dictionary in key order `docs`: the keys
      it prints and the `bad` counter. */
  method Validate<T>(table: ScoreTable<T>, docs: seq<int>) returns (bad: nat, printed: seq<int>)
    requires forall k | 0 <= k < |docs| :: docs[k] in table
    ensures printed == BadIn(table, docs)
    ensures bad == |printed|
  {
    bad := 0;
    printed := [];
    var i := 0;
    while i < |docs|
      invariant i <= |docs|
      invariant printed + BadIn(table, docs[i..]) == BadIn(table, docs)
      invariant bad == |printed|
    {
      var key := docs[i];
      assert docs[i..][1..] == docs[i + 1..];
      if IsBad(table[key]) {
        printed := printed + [key];
        bad := bad + 1;
      }
      i := i + 1;
    }
    assert docs[i..] == [];
  }

  /** `article_to_summary_scores[document][system][annotator]`. */
  function LikertScore(table: ScoreTable<int>, a: nat, d: int, s: string): (r: Result<int>)
    ensures r.Ok? <==> d in table && s in table[d] && a < |table[d][s]|
    ensures r.Ok? ==> r.value == table[d][s][a]
    ensures r.Err? ==> r.error == (if d in table && s in table[d] then IndexError else KeyError)
  {
    if d !in table || s !in table[d] then Err(KeyError)
    else if a >= |table[d][s]| then Err(IndexError)
    else Ok(table[d][s][a])
  }

  function LikertScorer(table: ScoreTable<int>): Scorer {
    (a: nat, d: int, s: string) => LikertScore(table, a, d, s)
  }

  /** An entry naming only known systems, four of them, names them all. */
  lemma FourKnownNamesAreAll<T>(entry: map<string, seq<T>>)
    requires forall n | n in entry :: n in Systems
    requires |entry| == 4
    ensures forall n | n in Systems :: n in entry
  {
    NamesMatchExportOrder();
    var all := {Systems[0], Systems[1], Systems[2], Systems[3]};
    assert |all| == 4;
    assert entry.Keys <= all;
    SubsetSameSize(entry.Keys, all);
  }

  /** A dictionary that passes validation for documents 1..100 answers every
      lookup of the export: local annotators 0..2 of every system. */
  lemma ValidTableExports(table: ScoreTable<int>)
    requires NamesKnown(table)
    requires forall d | 1 <= d <= 100 :: d in table && !IsBad(table[d])
    ensures forall a: nat, d, s | a < 3 && 1 <= d <= 100 && s in Systems :: LikertScore(table, a, d, s).Ok?
  {
    forall a: nat, d, s | a < 3 && 1 <= d <= 100 && s in Systems ensures LikertScore(table, a, d, s).Ok? {
      FourKnownNamesAreAll(table[d]);
    }
  }

  /** With no document failing validation and documents 1..100 present, the
      export writes all 1200 lines. */
  lemma CleanTableWritesAll(table: ScoreTable<int>, corpus: string)
    requires NamesKnown(table) && |BadDocs(table)| == 0
    requires forall d | 1 <= d <= 100 :: d in table
    ensures ExportSpec(corpus, LikertScorer(table), Chunks()).failure.None?
    ensures |ExportSpec(corpus, LikertScorer(table), Chunks()).rows| == 1200
  {
    assert BadDocs(table) == {};
    forall d | 1 <= d <= 100 ensures !IsBad(table[d]) {
      assert d !in BadDocs(table);
    }
    ValidTableExports(table);
    ChunksOfDocuments();
    ExportLayout(corpus, LikertScorer(table), Chunks());
  }

  /** How the final-result Likert script decodes: width-detecting trim, no
      worker column, blanks recorded in the missing set, bare scores. */
  function Config(): LikertConfig<int> {
    LikertConfig(WidthDetect, false, true, (w: string, v: int) => v)
  }

  /** What the script leaves behind: the score dictionary, the files with a
      blank answer, the printed bad documents and their count, and the
      final-result file. */
  datatype LikertOutcome = LikertOutcome(
    scores: ScoreTable<int>, missing: set<string>, badDocs: seq<int>, bad: nat, written: Written)

  /** The whole script on the mapping rows and the annotation files. */
  function RunSpec(mappingRows: seq<seq<string>>, files: seq<CsvFile>, corpus: string): Result<LikertOutcome> {
    var mp :- BuildSpec(mappingRows, true);
    if !Complete(mp.slots) then Err(KeyError)
    else
      var st :- DecodeSpec(Config(), mp.slots, LikertState(EmptyScores(mp), {}), files);
      var badDocs := BadIn(st.table, mp.docs);
      Ok(LikertOutcome(st.table, st.missing, badDocs, |badDocs|, ExportSpec(corpus, LikertScorer(st.table), Chunks())))
  }

  method Run(mappingRows: seq<seq<string>>, files: seq<CsvFile>, corpus: string) returns (res: Result<LikertOutcome>)
    ensures res == RunSpec(mappingRows, files, corpus)
  {
    var built := BuildShuffleMap(mappingRows, true);
    if built.Err? {
      return Err(built.error);
    }
    var mp := built.value;
    BuildOrdered(mappingRows, true);
    var probe := ProbeComplete(mp);
    if probe.Err? {
      return Err(probe.error);
    }
    var st0 := LikertState(EmptyScores(mp), {});
    var decoded := DecodeFiles(Config(), mp.slots, st0, files);
    if decoded.Err? {
      return Err(decoded.error);
    }
    var st := decoded.value;
    DecodeGrows(Config(), mp.slots, st0, files);
    var bad, printed := Validate(st.table, mp.docs);
    var written := WriteRecords(corpus, LikertScorer(st.table), Chunks());
    return Ok(LikertOutcome(st.table, st.missing, printed, bad, written));
  }

  /** After a successful run the dictionary has one entry per document of
      the shuffle map, under known system names only; `bad` counts exactly
      the documents that fail validation; and when none fails and documents
      1..100 all have entries, the export writes all 1200 lines. */
  lemma RunOutcome(mappingRows: seq<seq<string>>, files: seq<CsvFile>, corpus: string)
    requires RunSpec(mappingRows, files, corpus).Ok?
    ensures var o := RunSpec(mappingRows, files, corpus).value;
      && o.scores.Keys == BuildSpec(mappingRows, true).value.slots.Keys
      && NamesKnown(o.scores)
      && (forall d :: d in o.badDocs <==> d in BadDocs(o.scores))
      && o.bad == |BadDocs(o.scores)|
      && (o.bad == 0 && (forall d | 1 <= d <= 100 :: d in o.scores) ==>
            o.written.failure.None? && |o.written.rows| == 1200)
  {
    var mp := BuildSpec(mappingRows, true).value;
    BuildOrdered(mappingRows, true);
    var st0 := LikertState(EmptyScores<int>(mp), {});
    DecodeGrows(Config(), mp.slots, st0, files);
    var o := RunSpec(mappingRows, files, corpus).value;
    BadInCountsBadDocs(o.scores, mp.docs);
    if o.bad == 0 && (forall d | 1 <= d <= 100 :: d in o.scores) {
      CleanTableWritesAll(o.scores, corpus);
    }
  }
}
