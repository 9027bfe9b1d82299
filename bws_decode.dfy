/** Decoding of Best-Worst Scaling annotation files, shared by the scripts
    that read them: answer fields come in (best, worst) pairs per document,
    each naming the slot it picks by its last character. */
module BwsDecode {
  import opened Primitives
  import opened Shuffle
  import opened RawRows

  /** The `{"best": [...], "worst": [...]}` entry of one document. */
  datatype Picks<T> = Picks(best: seq<T>, worst: seq<T>)

  /** document -> its best and worst picks in the order they were read. */
  type PickTable<T> = map<int, Picks<T>>

  /** What differs between the scripts that decode Best-Worst files. */
  datatype BwsConfig<!T> = BwsConfig(
    /** the worker id column `row[1]` is read (and must exist) */
    readsWorker: bool,
    /** what is appended for a pick: the system name or (worker, name) */
    wrap: (string, string) -> T,
    /** the system name inside an appended pick */
    nameOf: T -> string)

  /** `nameOf` recovers the name `wrap` put into a pick. */
  ghost predicate Labels<T>(cfg: BwsConfig<T>) {
    forall w, n :: cfg.nameOf(cfg.wrap(w, n)) == n
  }

  /** Every pick of the dictionary names one of the four systems. */
  predicate PicksKnown<T>(cfg: BwsConfig<T>, t: PickTable<T>) {
    forall d | d in t ::
      && (forall k | 0 <= k < |t[d].best| :: cfg.nameOf(t[d].best[k]) in Systems)
      && (forall k | 0 <= k < |t[d].worst| :: cfg.nameOf(t[d].worst[k]) in Systems)
  }

  /** The text in front of the start offset in a Best-Worst file name. */
  const Marker: string := "BWS "

  /** The pick dictionary as the header row leaves it: empty best and worst
      lists for every document of the shuffle map. */
  function EmptyPicks<T>(mp: Mapping): (t: PickTable<T>)
    ensures t.Keys == mp.slots.Keys
    ensures forall d | d in t :: t[d] == Picks([], [])
  {
    map d | d in mp.slots :: Picks([], [])
  }

  /** Answer field `i` belongs to document `start + i // 2` ... */
  function BwsDoc(start: int, i: nat): int {
    start + i / 2
  }

  /** ... and is its best pick when `i` is even, its worst pick when odd. */
  predicate IsBest(i: nat) {
    i % 2 == 0
  }

  /** Each document owns exactly two consecutive fields, best first. */
  lemma BwsPositions(start: int, doc: int)
    requires start <= doc
    ensures var i := (doc - start) * 2;
      && BwsDoc(start, i) == doc && IsBest(i)
      && BwsDoc(start, i + 1) == doc && !IsBest(i + 1)
  {
  }

  lemma BwsDocOwners(start: int, i: nat, j: nat)
    requires BwsDoc(start, i) == BwsDoc(start, j) && IsBest(i) == IsBest(j)
    ensures i == j
  {
  }

  /** `int(value[-1])`: the slot named by the last character; an IndexError
      for a blank field, a ValueError when that character is not a digit. */
  function LastDigit(value: string): (r: Result<int>)
    ensures value == "" ==> r == Err(IndexError)
    ensures value != "" ==> (r.Ok? <==> IsDigit(value[|value| - 1]))
    ensures value != "" && r.Err? ==> r.error == ValueError
    ensures r.Ok? ==> r.value == DigitValue(value[|value| - 1])
  {
    if value == "" then Err(IndexError)
    else
      var c := value[|value| - 1];
      ParseIntOneChar(c);
      ParseInt([c])
  }

  /** One answer field. The document must be in the shuffle map (KeyError);
      the slot is read from the last character (IndexError on a blank field,
      ValueError on a non-digit), resolved to a system (KeyError), and the
      system is appended to the best or the worst list of that one document
      (KeyError when it has no entry). */
  function BwsCell<T>(cfg: BwsConfig<T>, m: ShuffleMap, st: PickTable<T>, start: int, worker: string,
                      i: nat, value: string): (r: Result<PickTable<T>>)
    ensures BwsDoc(start, i) !in m ==> r == Err(KeyError)
    ensures BwsDoc(start, i) in m ==>
      (r.Ok? <==> LastDigit(value).Ok? && Resolve(m, BwsDoc(start, i), LastDigit(value).value).Ok? && BwsDoc(start, i) in st)
    ensures BwsDoc(start, i) in m && r.Err? ==>
      r.error == (if LastDigit(value).Err? then LastDigit(value).error else KeyError)
    ensures r.Ok? ==> r.value.Keys == st.Keys
    ensures r.Ok? ==> forall d | d in st && d != BwsDoc(start, i) :: r.value[d] == st[d]
    ensures r.Ok? ==>
      var doc := BwsDoc(start, i);
      var x := cfg.wrap(worker, Resolve(m, doc, LastDigit(value).value).value);
      r.value[doc] == if IsBest(i) then Picks(st[doc].best + [x], st[doc].worst) else Picks(st[doc].best, st[doc].worst + [x])
    ensures r.Ok? && Labels(cfg) && PicksKnown(cfg, st) ==> PicksKnown(cfg, r.value)
  {
    var doc := BwsDoc(start, i);
    if doc !in m then Err(KeyError)
    else
      var slot :- LastDigit(value);
      var name :- Resolve(m, doc, slot);
      if doc !in st then Err(KeyError)
      else
        var x := cfg.wrap(worker, name);
        var p := st[doc];
        Ok(st[doc := if IsBest(i) then p.(best := p.best + [x]) else p.(worst := p.worst + [x])])
  }

  /** The answer fields `row[base + i ..]` of one row, from field `i` on. */
  function CellsGo<T>(cfg: BwsConfig<T>, m: ShuffleMap, st: PickTable<T>, start: int, worker: string,
                      row: seq<string>, base: nat, count: nat, i: nat): Result<PickTable<T>>
    requires base + count <= |row|
    decreases count - i
  {
    if i >= count then Ok(st)
    else
      match BwsCell(cfg, m, st, start, worker, i, row[base + i])
      case Err(e) => Err(e)
      case Ok(st') => CellsGo(cfg, m, st', start, worker, row, base, count, i + 1)
  }

  /** The worker id the script reads for a row ("" when it reads none). */
  function RowWorker<T>(cfg: BwsConfig<T>, row: seq<string>): Result<string> {
    if cfg.readsWorker then WorkerId(row) else Ok("")
  }

  /** One data row: its worker id, then the fields of `row[3:-1]`. */
  function RowGo<T>(cfg: BwsConfig<T>, m: ShuffleMap, st: PickTable<T>, start: int, row: seq<string>): Result<PickTable<T>> {
    var worker :- RowWorker(cfg, row);
    var (base, count) := Window(row, TrimOnly);
    CellsGo(cfg, m, st, start, worker, row, base, count, 0)
  }

  /** The rows of a file from row `r` on. */
  function RowsGo<T>(cfg: BwsConfig<T>, m: ShuffleMap, st: PickTable<T>, start: int,
                     rows: seq<seq<string>>, r: nat): Result<PickTable<T>>
    decreases |rows| - r
  {
    if r >= |rows| then Ok(st)
    else
      match RowGo(cfg, m, st, start, rows[r])
      case Err(e) => Err(e)
      case Ok(st') => RowsGo(cfg, m, st', start, rows, r + 1)
  }

  /** One file: ignored unless its name ends in ".csv"; otherwise its start
      offset is read from the name and its rows after the header are decoded. */
  function FileGo<T>(cfg: BwsConfig<T>, m: ShuffleMap, st: PickTable<T>, file: CsvFile): Result<PickTable<T>> {
    if !EndsWith(file.name, ".csv") then Ok(st)
    else
      var start :- StartOffset(file.name, Marker);
      RowsGo(cfg, m, st, start, file.rows, 1)
  }

  /** The files from file `f` on, in listing order. */
  function FilesGo<T>(cfg: BwsConfig<T>, m: ShuffleMap, st: PickTable<T>, files: seq<CsvFile>, f: nat): Result<PickTable<T>>
    decreases |files| - f
  {
    if f >= |files| then Ok(st)
    else
      match FileGo(cfg, m, st, files[f])
      case Err(e) => Err(e)
      case Ok(st') => FilesGo(cfg, m, st', files, f + 1)
  }

  /** What decoding all the annotation files yields. */
  function DecodeSpec<T>(cfg: BwsConfig<T>, m: ShuffleMap, st: PickTable<T>, files: seq<CsvFile>): Result<PickTable<T>> {
    FilesGo(cfg, m, st, files, 0)
  }

  /** The loop over the answer fields of one data row. */
  method DecodeCells<T>(cfg: BwsConfig<T>, m: ShuffleMap, st0: PickTable<T>, start: int, worker: string,
                        row: seq<string>, base: nat, count: nat) returns (res: Result<PickTable<T>>)
    requires base + count <= |row|
    ensures res == CellsGo(cfg, m, st0, start, worker, row, base, count, 0)
  {
    var st := st0;
    var index := 0;
    while index < count
      invariant index <= count
      invariant CellsGo(cfg, m, st, start, worker, row, base, count, index) == CellsGo(cfg, m, st0, start, worker, row, base, count, 0)
    {
      var step := BwsCell(cfg, m, st, start, worker, index, row[base + index]);
      if step.Err? {
        return Err(step.error);
      }
      st := step.value;
      index := index + 1;
    }
    return Ok(st);
  }

  /** One data row: the worker id first, then the answer fields. */
  method DecodeRow<T>(cfg: BwsConfig<T>, m: ShuffleMap, st0: PickTable<T>, start: int, row: seq<string>)
    returns (res: Result<PickTable<T>>)
    ensures res == RowGo(cfg, m, st0, start, row)
  {
    var worker := RowWorker(cfg, row);
    if worker.Err? {
      return Err(worker.error);
    }
    var (base, count) := Window(row, TrimOnly);
    res := DecodeCells(cfg, m, st0, start, worker.value, row, base, count);
  }

  /** The loop over the rows of one file from row 1 on; row 0 is the header. */
  method DecodeRows<T>(cfg: BwsConfig<T>, m: ShuffleMap, st0: PickTable<T>, start: int,
                       rows: seq<seq<string>>) returns (res: Result<PickTable<T>>)
    ensures res == RowsGo(cfg, m, st0, start, rows, 1)
  {
    var st := st0;
    var rowNumber := 1;
    while rowNumber < |rows|
      invariant 1 <= rowNumber
      invariant RowsGo(cfg, m, st, start, rows, rowNumber) == RowsGo(cfg, m, st0, start, rows, 1)
    {
      var next := DecodeRow(cfg, m, st, start, rows[rowNumber]);
      if next.Err? {
        return Err(next.error);
      }
      st := next.value;
      rowNumber := rowNumber + 1;
    }
    return Ok(st);
  }

  /** One file: skipped unless it is a ".csv" file, then its start offset,
      then its rows. */
  method DecodeFile<T>(cfg: BwsConfig<T>, m: ShuffleMap, st0: PickTable<T>, file: CsvFile)
    returns (res: Result<PickTable<T>>)
    ensures res == FileGo(cfg, m, st0, file)
  {
    if !EndsWith(file.name, ".csv") {
      return Ok(st0);
    }
    var start := StartOffset(file.name, Marker);
    if start.Err? {
      return Err(start.error);
    }
    res := DecodeRows(cfg, m, st0, start.value, file.rows);
  }

  /** The loop over the annotation files. */
  method DecodeFiles<T>(cfg: BwsConfig<T>, m: ShuffleMap, st0: PickTable<T>, files: seq<CsvFile>)
    returns (res: Result<PickTable<T>>)
    ensures res == DecodeSpec(cfg, m, st0, files)
  {
    var st := st0;
    var f := 0;
    while f < |files|
      invariant f <= |files|
      invariant FilesGo(cfg, m, st, files, f) == DecodeSpec(cfg, m, st0, files)
    {
      var next := DecodeFile(cfg, m, st, files[f]);
      if next.Err? {
        return Err(next.error);
      }
      st := next.value;
      f := f + 1;
    }
    return Ok(st);
  }

  /** What a decoding step may do to the dictionary: keep its documents,
      and append only picks that name one of the four systems. */
  ghost predicate Keeps<T>(cfg: BwsConfig<T>, st: PickTable<T>, st': PickTable<T>) {
    && st'.Keys == st.Keys
    && (Labels(cfg) && PicksKnown(cfg, st) ==> PicksKnown(cfg, st'))
  }

  lemma {:induction false} CellsGoKeeps<T>(cfg: BwsConfig<T>, m: ShuffleMap, st: PickTable<T>, start: int, worker: string,
                                          row: seq<string>, base: nat, count: nat, i: nat)
    requires base + count <= |row|
    requires CellsGo(cfg, m, st, start, worker, row, base, count, i).Ok?
    ensures Keeps(cfg, st, CellsGo(cfg, m, st, start, worker, row, base, count, i).value)
    decreases count - i
  {
    if i < count {
      var st' := BwsCell(cfg, m, st, start, worker, i, row[base + i]).value;
      CellsGoKeeps(cfg, m, st', start, worker, row, base, count, i + 1);
    }
  }

  lemma {:induction false} RowsGoKeeps<T>(cfg: BwsConfig<T>, m: ShuffleMap, st: PickTable<T>, start: int,
                                         rows: seq<seq<string>>, r: nat)
    requires RowsGo(cfg, m, st, start, rows, r).Ok?
    ensures Keeps(cfg, st, RowsGo(cfg, m, st, start, rows, r).value)
    decreases |rows| - r
  {
    if r < |rows| {
      var row := rows[r];
      var (base, count) := Window(row, TrimOnly);
      CellsGoKeeps(cfg, m, st, start, RowWorker(cfg, row).value, row, base, count, 0);
      RowsGoKeeps(cfg, m, RowGo(cfg, m, st, start, row).value, start, rows, r + 1);
    }
  }

  lemma {:induction false} FilesGoKeeps<T>(cfg: BwsConfig<T>, m: ShuffleMap, st: PickTable<T>, files: seq<CsvFile>, f: nat)
    requires FilesGo(cfg, m, st, files, f).Ok?
    ensures Keeps(cfg, st, FilesGo(cfg, m, st, files, f).value)
    decreases |files| - f
  {
    if f < |files| {
      var file := files[f];
      if EndsWith(file.name, ".csv") {
        RowsGoKeeps(cfg, m, st, StartOffset(file.name, Marker).value, file.rows, 1);
      }
      FilesGoKeeps(cfg, m, FileGo(cfg, m, st, file).value, files, f + 1);
    }
  }

  /** Decoding never adds or removes a document of the pick dictionary, and
      every pick it appends names one of the four systems. */
  lemma DecodeKeepsDocuments<T>(cfg: BwsConfig<T>, m: ShuffleMap, st: PickTable<T>, files: seq<CsvFile>)
    requires DecodeSpec(cfg, m, st, files).Ok?
    ensures Keeps(cfg, st, DecodeSpec(cfg, m, st, files).value)
  {
    FilesGoKeeps(cfg, m, st, files, 0);
  }
}
