/** The shuffle-order mapping: which summarisation system sits in which answer
    slot of each document, read from a header row of document numbers and one
    row per slot. Shared by every script. */
module Shuffle {
  import opened Primitives

  /** document -> (slot -> system number); sparse while it is being built. */
  type ShuffleMap = map<int, map<int, int>>

  /** The mapping dictionary together with its keys in insertion order. */
  datatype Mapping = Mapping(slots: ShuffleMap, docs: seq<int>)

  predicate Ordered(mp: Mapping) {
    ListsKeys(mp.docs, mp.slots)
  }

  /** `summary_number_to_name`: system numbers 1..4 to system names. */
  const NumberToName: map<int, string> :=
    map[1 := "pegasus", 2 := "prophetnet", 3 := "bart", 4 := "bertextabs"]

  /** `ids`: the fixed order in which the exports list the systems. */
  const Systems: seq<string> := ["pegasus", "prophetnet", "bart", "bertextabs"]

  /** The name dictionary and the export order agree: system number k is the
      k-th entry of `ids`, and the four names are distinct. */
  lemma NamesMatchExportOrder()
    ensures NumberToName.Keys == {1, 2, 3, 4}
    ensures forall k | k in NumberToName :: NumberToName[k] == Systems[k - 1]
    ensures Distinct(Systems)
  {
  }

  /** `summary_number_to_name[k]`. */
  function SystemName(k: int): (r: Option<string>)
    ensures r.Some? <==> 1 <= k <= 4
    ensures r.Some? ==> r.value == Systems[k - 1] && r.value in Systems
  {
    if k in NumberToName then Some(NumberToName[k]) else None
  }

  /** One header cell: `map[int(value)] = {}`; a new key goes last in the
      iteration order, a repeated one keeps its place and is emptied. */
  function HeaderCell(mp: Mapping, cell: string): (r: Result<Mapping>)
    ensures r.Ok? <==> ParseInt(cell).Ok?
    ensures r.Err? ==> r.error == ValueError
    ensures r.Ok? ==> r.value.slots.Keys == mp.slots.Keys + {ParseInt(cell).value}
    ensures r.Ok? ==> r.value.slots[ParseInt(cell).value] == map[]
    ensures r.Ok? ==> forall d | d in mp.slots && d != ParseInt(cell).value :: r.value.slots[d] == mp.slots[d]
  {
    var d :- ParseInt(cell);
    Ok(Mapping(mp.slots[d := map[]], if d in mp.slots then mp.docs else mp.docs + [d]))
  }

  /** The data cell in column `c` (1-based, the label column being 0) of row
      `r`: `map[index + 1][r] = int(value)` where `index + 1 == c`, so it is
      keyed by the column position rather than by the header's value. An
      empty cell is skipped when `skipEmpty`. The value is converted before
      the dictionary is looked up, so a bad number is a ValueError even in a
      column with no document. */
  function DataCell(mp: Mapping, r: nat, c: nat, cell: string, skipEmpty: bool): (res: Result<Mapping>)
    ensures skipEmpty && cell == "" ==> res == Ok(mp)
    ensures !(skipEmpty && cell == "") ==>
      && (ParseInt(cell).Err? ==> res == Err(ValueError))
      && (ParseInt(cell).Ok? && c !in mp.slots ==> res == Err(KeyError))
    ensures res.Ok? ==> res.value.docs == mp.docs && res.value.slots.Keys == mp.slots.Keys
    ensures res.Ok? && !(skipEmpty && cell == "") ==> res.value.slots[c] == mp.slots[c][r := ParseInt(cell).value]
    ensures res.Ok? ==> forall d | d in mp.slots && d != c :: res.value.slots[d] == mp.slots[d]
  {
    if skipEmpty && cell == "" then Ok(mp)
    else
      var v :- ParseInt(cell);
      if c !in mp.slots then Err(KeyError)
      else Ok(mp.(slots := mp.slots[c := mp.slots[c][r := v]]))
  }

  /** A header cell keeps the key order a faithful record of the dictionary:
      each document listed once, in order of first appearance. */
  lemma HeaderCellOrdered(mp: Mapping, cell: string)
    requires Ordered(mp) && HeaderCell(mp, cell).Ok?
    ensures Ordered(HeaderCell(mp, cell).value)
    ensures HeaderCell(mp, cell).value.docs ==
      if ParseInt(cell).value in mp.slots then mp.docs else mp.docs + [ParseInt(cell).value]
  {
  }

  /** Column `c` of row `r`; row 0 is the header. */
  function CellStep(mp: Mapping, r: nat, c: nat, cell: string, skipEmpty: bool): Result<Mapping> {
    if r == 0 then HeaderCell(mp, cell) else DataCell(mp, r, c, cell, skipEmpty)
  }

  /** Row `r` from column `c` on (the loop over `row[1:]` starts at 1). */
  function CellsGo(mp: Mapping, r: nat, row: seq<string>, c: nat, skipEmpty: bool): Result<Mapping>
    decreases |row| - c
  {
    if c >= |row| then Ok(mp)
    else
      match CellStep(mp, r, c, row[c], skipEmpty)
      case Err(e) => Err(e)
      case Ok(mp') => CellsGo(mp', r, row, c + 1, skipEmpty)
  }

  /** The rows from row `r` on. */
  function RowsGo(mp: Mapping, rows: seq<seq<string>>, r: nat, skipEmpty: bool): Result<Mapping>
    decreases |rows| - r
  {
    if r >= |rows| then Ok(mp)
    else
      match CellsGo(mp, r, rows[r], 1, skipEmpty)
      case Err(e) => Err(e)
      case Ok(mp') => RowsGo(mp', rows, r + 1, skipEmpty)
  }

  /** What reading the whole mapping file yields. */
  function BuildSpec(rows: seq<seq<string>>, skipEmpty: bool): Result<Mapping> {
    RowsGo(Mapping(map[], []), rows, 0, skipEmpty)
  }

  /** The inner loop over one row's cells after the label column. */
  method ReadMappingRow(mp0: Mapping, rowNumber: nat, row: seq<string>, skipEmpty: bool) returns (res: Result<Mapping>)
    ensures res == CellsGo(mp0, rowNumber, row, 1, skipEmpty)
  {
    var mp := mp0;
    var column := 1;
    while column < |row|
      invariant 1 <= column
      invariant CellsGo(mp, rowNumber, row, column, skipEmpty) == CellsGo(mp0, rowNumber, row, 1, skipEmpty)
    {
      var step := CellStep(mp, rowNumber, column, row[column], skipEmpty);
      if step.Err? {
        return Err(step.error);
      }
      mp := step.value;
      column := column + 1;
    }
    return Ok(mp);
  }

  /** The loop over the rows of the mapping file. */
  method BuildShuffleMap(rows: seq<seq<string>>, skipEmpty: bool) returns (res: Result<Mapping>)
    ensures res == BuildSpec(rows, skipEmpty)
  {
    var mp := Mapping(map[], []);
    var rowNumber := 0;
    while rowNumber < |rows|
      invariant rowNumber <= |rows|
      invariant RowsGo(mp, rows, rowNumber, skipEmpty) == BuildSpec(rows, skipEmpty)
    {
      var next := ReadMappingRow(mp, rowNumber, rows[rowNumber], skipEmpty);
      if next.Err? {
        return Err(next.error);
      }
      mp := next.value;
      rowNumber := rowNumber + 1;
    }
    return Ok(mp);
  }

  lemma {:induction false} CellsGoOrdered(mp: Mapping, r: nat, row: seq<string>, c: nat, skipEmpty: bool)
    requires Ordered(mp) && CellsGo(mp, r, row, c, skipEmpty).Ok?
    ensures Ordered(CellsGo(mp, r, row, c, skipEmpty).value)
    decreases |row| - c
  {
    if c < |row| {
      var step := CellStep(mp, r, c, row[c], skipEmpty);
      if r == 0 {
        HeaderCellOrdered(mp, row[c]);
      }
      CellsGoOrdered(step.value, r, row, c + 1, skipEmpty);
    }
  }

  lemma {:induction false} RowsGoOrdered(mp: Mapping, rows: seq<seq<string>>, r: nat, skipEmpty: bool)
    requires Ordered(mp) && RowsGo(mp, rows, r, skipEmpty).Ok?
    ensures Ordered(RowsGo(mp, rows, r, skipEmpty).value)
    decreases |rows| - r
  {
    if r < |rows| {
      CellsGoOrdered(mp, r, rows[r], 1, skipEmpty);
      RowsGoOrdered(CellsGo(mp, r, rows[r], 1, skipEmpty).value, rows, r + 1, skipEmpty);
    }
  }

  /** The key order the build reports lists the mapping's documents once each. */
  lemma BuildOrdered(rows: seq<seq<string>>, skipEmpty: bool)
    requires BuildSpec(rows, skipEmpty).Ok?
    ensures Ordered(BuildSpec(rows, skipEmpty).value)
  {
    RowsGoOrdered(Mapping(map[], []), rows, 0, skipEmpty);
  }

  /** Every document known to the map has all four slots. */
  predicate Complete(m: ShuffleMap) {
    forall d | d in m :: forall s | 1 <= s <= 4 :: s in m[d]
  }

  /** The completeness probe: look up slots 1..4 of every document, in key
      order; the first absent one raises a KeyError. */
  method ProbeComplete(mp: Mapping) returns (res: Result<()>)
    requires Ordered(mp)
    ensures res.Ok? <==> Complete(mp.slots)
    ensures res.Err? ==> res.error == KeyError
  {
    var i := 0;
    while i < |mp.docs|
      invariant i <= |mp.docs|
      invariant forall k | 0 <= k < i :: forall s | 1 <= s <= 4 :: s in mp.slots[mp.docs[k]]
    {
      var key := mp.docs[i];
      var rowNum := 1;
      while rowNum < 5
        invariant 1 <= rowNum <= 5
        invariant forall s | 1 <= s < rowNum :: s in mp.slots[key]
      {
        if rowNum !in mp.slots[key] {
          return Err(KeyError);
        }
        rowNum := rowNum + 1;
      }
      i := i + 1;
    }
    forall d | d in mp.slots ensures forall s | 1 <= s <= 4 :: s in mp.slots[d] {
      var k :| 0 <= k < |mp.docs| && mp.docs[k] == d;
    }
    return Ok(());
  }

  /** `summary_number_to_name[map[doc][slot]]`, with the KeyErrors of the
      three lookups. */
  function Resolve(m: ShuffleMap, doc: int, slot: int): (r: Result<string>)
    ensures r.Ok? <==> doc in m && slot in m[doc] && 1 <= m[doc][slot] <= 4
    ensures r.Ok? ==> r.value == Systems[m[doc][slot] - 1]
    ensures r.Err? ==> r.error == KeyError
  {
    if doc !in m || slot !in m[doc] then Err(KeyError)
    else match SystemName(m[doc][slot])
      case None => Err(KeyError)
      case Some(name) => Ok(name)
  }

  /** The four slots of `doc` hold the four system numbers, each once. */
  predicate IsPermutation(m: ShuffleMap, doc: int)
    requires doc in m && Complete(m)
  {
    && (forall s | 1 <= s <= 4 :: 1 <= m[doc][s] <= 4)
    && (forall s, t | 1 <= s < t <= 4 :: m[doc][s] != m[doc][t])
  }

  lemma SubsetNoLarger<T>(a: set<T>, b: set<T>)
    requires a <= b
    ensures |a| <= |b|
    decreases b
  {
    if x :| x in a {
      SubsetNoLarger(a - {x}, b - {x});
    }
  }

  lemma SubsetSameSize<T>(a: set<T>, b: set<T>)
    requires a <= b && |a| == |b|
    ensures a == b
  {
    if x :| x in b && x !in a {
      SubsetNoLarger(a, b - {x});
    }
  }

  /** Resolving the four slots of a document whose slots are a permutation
      of the system numbers names every system exactly once. */
  lemma {:induction false} ResolveIsBijection(m: ShuffleMap, doc: int)
    requires doc in m && Complete(m) && IsPermutation(m, doc)
    ensures forall s | 1 <= s <= 4 :: Resolve(m, doc, s).Ok?
    ensures forall s, t | 1 <= s < t <= 4 :: Resolve(m, doc, s) != Resolve(m, doc, t)
    ensures forall n | n in Systems :: exists s | 1 <= s <= 4 :: Resolve(m, doc, s) == Ok(n)
  {
    var nums := {m[doc][1], m[doc][2], m[doc][3], m[doc][4]};
    assert |nums| == 4;
    SubsetSameSize(nums, {1, 2, 3, 4});
    forall n | n in Systems ensures exists s | 1 <= s <= 4 :: Resolve(m, doc, s) == Ok(n) {
      var k :| 0 <= k < 4 && Systems[k] == n;
      assert k + 1 in nums;
      var s :| 1 <= s <= 4 && m[doc][s] == k + 1;
      assert Resolve(m, doc, s) == Ok(n);
    }
  }
}
