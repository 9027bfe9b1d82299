/** Decoding of Likert annotation files, shared by the scripts that read
    them: every non-empty answer field becomes one score appended to the
    list of the document and system it rates. */
module LikertDecode {
  import opened Primitives
  import opened Shuffle
  import opened RawRows

  /** document -> system name -> scores in the order they were read. */
  type ScoreTable<T> = map<int, map<string, seq<T>>>

  /** The score dictionary and the set of files with a blank answer. */
  datatype LikertState<T> = LikertState(table: ScoreTable<T>, missing: set<string>)

  /** What differs between the scripts that decode Likert files. */
  datatype LikertConfig<T> = LikertConfig(
    layout: Layout,
    /** the worker id column `row[1]` is read (and must exist) */
    readsWorker: bool,
    /** a blank answer adds the file name to the missing set */
    recordsMissing: bool,
    /** what is appended for a score: the score alone or (worker, score) */
    wrap: (string, int) -> T)

  /** The text in front of the start offset in a Likert file name. */
  const Marker: string := "Likert "

  /** The scores of system `name` for document `doc`; an absent list is empty. */
  function ScoresOf<T>(t: ScoreTable<T>, doc: int, name: string): seq<T> {
    if doc in t && name in t[doc] then t[doc][name] else []
  }

  /** Every system entry of the dictionary is one of the four systems. */
  predicate NamesKnown<T>(t: ScoreTable<T>) {
    forall d, n | d in t && n in t[d] :: n in Systems
  }

  /** The score dictionary as the header row leaves it: one empty entry per
      document of the shuffle map. */
  function EmptyScores<T>(mp: Mapping): (t: ScoreTable<T>)
    ensures t.Keys == mp.slots.Keys
    ensures forall d | d in t :: t[d] == map[]
  {
    map d | d in mp.slots :: map[]
  }

  /** Answer field `i` rates document `start + i // 4` ... */
  function LikertDoc(start: int, i: nat): int {
    start + i / 4
  }

  /** ... in answer slot `i % 4 + 1`, always one of the four slots. */
  function LikertSlot(i: nat): (s: int)
    ensures 1 <= s <= 4
  {
    i % 4 + 1
  }

  /** Field positions and (document, slot) pairs correspond one to one: the
      field is recovered from its document and slot ... */
  lemma LikertPositionInverse(start: int, i: nat)
    ensures i == (LikertDoc(start, i) - start) * 4 + LikertSlot(i) - 1
  {
  }

  /** ... and every slot of every document from `start` on has a field. */
  lemma LikertPositionOnto(start: int, doc: int, slot: int)
    requires start <= doc && 1 <= slot <= 4
    ensures var i := (doc - start) * 4 + slot - 1;
      i >= 0 && LikertDoc(start, i) == doc && LikertSlot(i) == slot
  {
  }

  /** One answer field. A blank one changes only the missing set. Otherwise
      the field fails with a KeyError when its slot cannot be resolved to a
      system or its document has no score entry, then with a ValueError when
      it is not a number; when it succeeds exactly one list, that of the
      resolved document and system, grows, by exactly the value read. */
  function LikertCell<T>(cfg: LikertConfig<T>, m: ShuffleMap, st: LikertState<T>, file: string,
                         start: int, worker: string, i: nat, value: string): (r: Result<LikertState<T>>)
    ensures value == "" ==>
      && r.Ok? && r.value.table == st.table
      && r.value.missing == (if cfg.recordsMissing then st.missing + {file} else st.missing)
    ensures value != "" ==>
      (r.Ok? <==> Resolve(m, LikertDoc(start, i), LikertSlot(i)).Ok? && LikertDoc(start, i) in st.table && ParseInt(value).Ok?)
    ensures value != "" && r.Err? ==>
      r.error == (if Resolve(m, LikertDoc(start, i), LikertSlot(i)).Ok? && LikertDoc(start, i) in st.table then ValueError else KeyError)
    ensures r.Ok? ==> r.value.table.Keys == st.table.Keys
    ensures r.Ok? && NamesKnown(st.table) ==> NamesKnown(r.value.table)
    ensures r.Ok? && value != "" ==> r.value.missing == st.missing
    ensures r.Ok? && value != "" ==>
      var doc, name := LikertDoc(start, i), Resolve(m, LikertDoc(start, i), LikertSlot(i)).value;
      forall d, n :: ScoresOf(r.value.table, d, n) ==
        if d == doc && n == name then ScoresOf(st.table, d, n) + [cfg.wrap(worker, ParseInt(value).value)]
        else ScoresOf(st.table, d, n)
    ensures r.Ok? && value != "" ==>
      var doc, name := LikertDoc(start, i), Resolve(m, LikertDoc(start, i), LikertSlot(i)).value;
      && r.value.table[doc].Keys == st.table[doc].Keys + {name}
      && forall d | d in st.table && d != doc :: r.value.table[d] == st.table[d]
  {
    if value == "" then
      Ok(if cfg.recordsMissing then st.(missing := st.missing + {file}) else st)
    else
      var doc := LikertDoc(start, i);
      var name :- Resolve(m, doc, LikertSlot(i));
      if doc !in st.table then Err(KeyError)
      else
        var v :- ParseInt(value);
        Ok(st.(table := st.table[doc := st.table[doc][name := ScoresOf(st.table, doc, name) + [cfg.wrap(worker, v)]]]))
  }

  /** The answer fields `row[base + i ..]` of one row, from field `i` on. */
  function CellsGo<T>(cfg: LikertConfig<T>, m: ShuffleMap, st: LikertState<T>, file: string, start: int,
                      worker: string, row: seq<string>, base: nat, count: nat, i: nat): Result<LikertState<T>>
    requires base + count <= |row|
    decreases count - i
  {
    if i >= count then Ok(st)
    else
      match LikertCell(cfg, m, st, file, start, worker, i, row[base + i])
      case Err(e) => Err(e)
      case Ok(st') => CellsGo(cfg, m, st', file, start, worker, row, base, count, i + 1)
  }

  /** The worker id the script reads for a row ("" when it reads none). */
  function RowWorker<T>(cfg: LikertConfig<T>, row: seq<string>): Result<string> {
    if cfg.readsWorker then WorkerId(row) else Ok("")
  }

  /** One data row: its worker id, then its answer fields. */
  function RowGo<T>(cfg: LikertConfig<T>, m: ShuffleMap, st: LikertState<T>, file: string, start: int,
                    row: seq<string>): Result<LikertState<T>>
  {
    var worker :- RowWorker(cfg, row);
    var (base, count) := Window(row, cfg.layout);
    CellsGo(cfg, m, st, file, start, worker, row, base, count, 0)
  }

  /** The rows of a file from row `r` on. */
  function RowsGo<T>(cfg: LikertConfig<T>, m: ShuffleMap, st: LikertState<T>, file: string, start: int,
                     rows: seq<seq<string>>, r: nat): Result<LikertState<T>>
    decreases |rows| - r
  {
    if r >= |rows| then Ok(st)
    else
      match RowGo(cfg, m, st, file, start, rows[r])
      case Err(e) => Err(e)
      case Ok(st') => RowsGo(cfg, m, st', file, start, rows, r + 1)
  }

  /** One file: ignored unless its name ends in ".csv"; otherwise its start
      offset is read from the name and its rows after the header are decoded. */
  function FileGo<T>(cfg: LikertConfig<T>, m: ShuffleMap, st: LikertState<T>, file: CsvFile): Result<LikertState<T>> {
    if !EndsWith(file.name, ".csv") then Ok(st)
    else
      var start :- StartOffset(file.name, Marker);
      RowsGo(cfg, m, st, file.name, start, file.rows, 1)
  }

  /** The files from file `f` on, in listing order. */
  function FilesGo<T>(cfg: LikertConfig<T>, m: ShuffleMap, st: LikertState<T>, files: seq<CsvFile>, f: nat): Result<LikertState<T>>
    decreases |files| - f
  {
    if f >= |files| then Ok(st)
    else
      match FileGo(cfg, m, st, files[f])
      case Err(e) => Err(e)
      case Ok(st') => FilesGo(cfg, m, st', files, f + 1)
  }

  /** What decoding all the annotation files yields. */
  function DecodeSpec<T>(cfg: LikertConfig<T>, m: ShuffleMap, st: LikertState<T>, files: seq<CsvFile>): Result<LikertState<T>> {
    FilesGo(cfg, m, st, files, 0)
  }

  /** The loop over the answer fields of one data row. */
  method DecodeCells<T>(cfg: LikertConfig<T>, m: ShuffleMap, st0: LikertState<T>, file: string, start: int,
                        worker: string, row: seq<string>, base: nat, count: nat) returns (res: Result<LikertState<T>>)
    requires base + count <= |row|
    ensures res == CellsGo(cfg, m, st0, file, start, worker, row, base, count, 0)
  {
    var st := st0;
    var index := 0;
    while index < count
      invariant index <= count
      invariant CellsGo(cfg, m, st, file, start, worker, row, base, count, index) == CellsGo(cfg, m, st0, file, start, worker, row, base, count, 0)
    {
      var step := LikertCell(cfg, m, st, file, start, worker, index, row[base + index]);
      if step.Err? {
        return Err(step.error);
      }
      st := step.value;
      index := index + 1;
    }
    return Ok(st);
  }

  /** One data row: the worker id first, then the answer fields. */
  method DecodeRow<T>(cfg: LikertConfig<T>, m: ShuffleMap, st0: LikertState<T>, file: string, start: int,
                      row: seq<string>) returns (res: Result<LikertState<T>>)
    ensures res == RowGo(cfg, m, st0, file, start, row)
  {
    var worker := RowWorker(cfg, row);
    if worker.Err? {
      return Err(worker.error);
    }
    var (base, count) := Window(row, cfg.layout);
    res := DecodeCells(cfg, m, st0, file, start, worker.value, row, base, count);
  }

  /** The loop over the rows of one file from row 1 on; row 0 is the header. */
  method DecodeRows<T>(cfg: LikertConfig<T>, m: ShuffleMap, st0: LikertState<T>, file: string, start: int,
                       rows: seq<seq<string>>) returns (res: Result<LikertState<T>>)
    ensures res == RowsGo(cfg, m, st0, file, start, rows, 1)
  {
    var st := st0;
    var rowNumber := 1;
    while rowNumber < |rows|
      invariant 1 <= rowNumber
      invariant RowsGo(cfg, m, st, file, start, rows, rowNumber) == RowsGo(cfg, m, st0, file, start, rows, 1)
    {
      var next := DecodeRow(cfg, m, st, file, start, rows[rowNumber]);
      if next.Err? {
        return Err(next.error);
      }
      st := next.value;
      rowNumber := rowNumber + 1;
    }
    return Ok(st);
  }

  /** One file: skipped unless it is a ".csv" file, then its start offset,
      then its rows. */
  method DecodeFile<T>(cfg: LikertConfig<T>, m: ShuffleMap, st0: LikertState<T>, file: CsvFile)
    returns (res: Result<LikertState<T>>)
    ensures res == FileGo(cfg, m, st0, file)
  {
    if !EndsWith(file.name, ".csv") {
      return Ok(st0);
    }
    var start := StartOffset(file.name, Marker);
    if start.Err? {
      return Err(start.error);
    }
    res := DecodeRows(cfg, m, st0, file.name, start.value, file.rows);
  }

  /** The loop over the annotation files. */
  method DecodeFiles<T>(cfg: LikertConfig<T>, m: ShuffleMap, st0: LikertState<T>, files: seq<CsvFile>)
    returns (res: Result<LikertState<T>>)
    ensures res == DecodeSpec(cfg, m, st0, files)
  {
    var st := st0;
    var f := 0;
    while f < |files|
      invariant f <= |files|
      invariant FilesGo(cfg, m, st, files, f) == DecodeSpec(cfg, m, st0, files)
    {
      var next := DecodeFile(cfg, m, st, files[f]);
      if next.Err? {
        return Err(next.error);
      }
      st := next.value;
      f := f + 1;
    }
    return Ok(st);
  }

  /** What a decoding step may do to the state: keep the documents, only add
      files to the missing set, and none at all when blanks are not recorded. */
  predicate Grows<T>(cfg: LikertConfig<T>, st: LikertState<T>, st': LikertState<T>) {
    && st'.table.Keys == st.table.Keys
    && st.missing <= st'.missing
    && (!cfg.recordsMissing ==> st'.missing == st.missing)
    && (NamesKnown(st.table) ==> NamesKnown(st'.table))
  }

  lemma {:induction false} CellsGoGrows<T>(cfg: LikertConfig<T>, m: ShuffleMap, st: LikertState<T>, file: string,
                                           start: int, worker: string, row: seq<string>, base: nat, count: nat, i: nat)
    requires base + count <= |row|
    requires CellsGo(cfg, m, st, file, start, worker, row, base, count, i).Ok?
    ensures Grows(cfg, st, CellsGo(cfg, m, st, file, start, worker, row, base, count, i).value)
    decreases count - i
  {
    if i < count {
      var st' := LikertCell(cfg, m, st, file, start, worker, i, row[base + i]).value;
      CellsGoGrows(cfg, m, st', file, start, worker, row, base, count, i + 1);
    }
  }

  lemma {:induction false} RowsGoGrows<T>(cfg: LikertConfig<T>, m: ShuffleMap, st: LikertState<T>, file: string,
                                          start: int, rows: seq<seq<string>>, r: nat)
    requires RowsGo(cfg, m, st, file, start, rows, r).Ok?
    ensures Grows(cfg, st, RowsGo(cfg, m, st, file, start, rows, r).value)
    decreases |rows| - r
  {
    if r < |rows| {
      var row := rows[r];
      var worker := RowWorker(cfg, row).value;
      var (base, count) := Window(row, cfg.layout);
      CellsGoGrows(cfg, m, st, file, start, worker, row, base, count, 0);
      RowsGoGrows(cfg, m, RowGo(cfg, m, st, file, start, row).value, file, start, rows, r + 1);
    }
  }

  lemma {:induction false} FilesGoGrows<T>(cfg: LikertConfig<T>, m: ShuffleMap, st: LikertState<T>, files: seq<CsvFile>, f: nat)
    requires FilesGo(cfg, m, st, files, f).Ok?
    ensures Grows(cfg, st, FilesGo(cfg, m, st, files, f).value)
    decreases |files| - f
  {
    if f < |files| {
      var file := files[f];
      if EndsWith(file.name, ".csv") {
        RowsGoGrows(cfg, m, st, file.name, StartOffset(file.name, Marker).value, file.rows, 1);
      }
      FilesGoGrows(cfg, m, FileGo(cfg, m, st, file).value, files, f + 1);
    }
  }

  /** Decoding never adds or removes a document of the score dictionary,
      files entries only under the four system names, only adds to the
      missing set, and leaves it alone in a script that does not record
      blanks. */
  lemma DecodeGrows<T>(cfg: LikertConfig<T>, m: ShuffleMap, st: LikertState<T>, files: seq<CsvFile>)
    requires DecodeSpec(cfg, m, st, files).Ok?
    ensures Grows(cfg, st, DecodeSpec(cfg, m, st, files).value)
  {
    FilesGoGrows(cfg, m, st, files, 0);
  }
}
