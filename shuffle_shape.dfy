/** The shape of a shuffle map read in full: its documents are the values of
    the header row, and the slots of document `d` are the rows with a cell
    in column `d`, holding the numbers those cells spell. */
module ShuffleShape {
  import opened Primitives
  import opened Shuffle

  /** The documents the header cells `row[c..]` name. */
  function HeaderDocsFrom(row: seq<string>, c: nat): set<int> {
    set k | c <= k < |row| && ParseInt(row[k]).Ok? :: ParseInt(row[k]).value
  }

  /** Row `r` of the mapping file has a cell in column `d` that the build
      stores (it is not a skipped empty cell). */
  predicate Present(rows: seq<seq<string>>, r: int, d: int, skipEmpty: bool) {
    1 <= r < |rows| && 1 <= d < |rows[r]| && !(skipEmpty && rows[r][d] == "")
  }

  /** The map holds exactly the stored cells before row `r`, and those of row
      `r` before column `c`, each at `m[column][row]`. */
  ghost predicate Filled(m: ShuffleMap, rows: seq<seq<string>>, skipEmpty: bool, r: nat, c: nat) {
    forall d, r' | d in m ::
      && (r' in m[d] <==> Present(rows, r', d, skipEmpty) && (r' < r || (r' == r && d < c)))
      && (r' in m[d] ==> 1 <= r' < |rows| && 1 <= d < |rows[r']| && ParseInt(rows[r'][d]) == Ok(m[d][r']))
  }

  lemma {:induction false} HeaderShape(mp: Mapping, row: seq<string>, c: nat, skipEmpty: bool)
    requires CellsGo(mp, 0, row, c, skipEmpty).Ok?
    ensures var m := CellsGo(mp, 0, row, c, skipEmpty).value.slots;
      && m.Keys == mp.slots.Keys + HeaderDocsFrom(row, c)
      && (forall d | d in m :: m[d] == if d in HeaderDocsFrom(row, c) then map[] else mp.slots[d])
    decreases |row| - c
  {
    if c < |row| {
      var mp' := HeaderCell(mp, row[c]).value;
      HeaderShape(mp', row, c + 1, skipEmpty);
      assert HeaderDocsFrom(row, c) == {ParseInt(row[c]).value} + HeaderDocsFrom(row, c + 1);
    } else {
      assert HeaderDocsFrom(row, c) == {};
    }
  }

  lemma DataCellFills(mp: Mapping, rows: seq<seq<string>>, r: nat, c: nat, skipEmpty: bool)
    requires 1 <= r < |rows| && 1 <= c < |rows[r]|
    requires Filled(mp.slots, rows, skipEmpty, r, c)
    requires DataCell(mp, r, c, rows[r][c], skipEmpty).Ok?
    ensures Filled(DataCell(mp, r, c, rows[r][c], skipEmpty).value.slots, rows, skipEmpty, r, c + 1)
  {
    var m := DataCell(mp, r, c, rows[r][c], skipEmpty).value.slots;
    forall d, r' | d in m
      ensures r' in m[d] <==> Present(rows, r', d, skipEmpty) && (r' < r || (r' == r && d < c + 1))
      ensures r' in m[d] ==> 1 <= r' < |rows| && 1 <= d < |rows[r']| && ParseInt(rows[r'][d]) == Ok(m[d][r'])
    {
      if d != c {
        assert m[d] == mp.slots[d];
      }
    }
  }

  lemma {:induction false} DataCellsFill(mp: Mapping, rows: seq<seq<string>>, r: nat, c: nat, skipEmpty: bool)
    requires 1 <= r < |rows| && 1 <= c
    requires Filled(mp.slots, rows, skipEmpty, r, c)
    requires CellsGo(mp, r, rows[r], c, skipEmpty).Ok?
    ensures Filled(CellsGo(mp, r, rows[r], c, skipEmpty).value.slots, rows, skipEmpty, r + 1, 1)
    ensures CellsGo(mp, r, rows[r], c, skipEmpty).value.slots.Keys == mp.slots.Keys
    decreases |rows[r]| - c
  {
    if c < |rows[r]| {
      DataCellFills(mp, rows, r, c, skipEmpty);
      DataCellsFill(DataCell(mp, r, c, rows[r][c], skipEmpty).value, rows, r, c + 1, skipEmpty);
    } else {
      forall d, r' | d in mp.slots
        ensures r' in mp.slots[d] <==> Present(rows, r', d, skipEmpty) && (r' < r + 1 || (r' == r + 1 && d < 1))
      {
      }
    }
  }

  lemma {:induction false} DataRowsFill(mp: Mapping, rows: seq<seq<string>>, r: nat, skipEmpty: bool)
    requires 1 <= r
    requires Filled(mp.slots, rows, skipEmpty, r, 1)
    requires RowsGo(mp, rows, r, skipEmpty).Ok?
    ensures Filled(RowsGo(mp, rows, r, skipEmpty).value.slots, rows, skipEmpty, |rows|, 1)
    ensures RowsGo(mp, rows, r, skipEmpty).value.slots.Keys == mp.slots.Keys
    decreases |rows| - r
  {
    if r < |rows| {
      DataCellsFill(mp, rows, r, 1, skipEmpty);
      DataRowsFill(CellsGo(mp, r, rows[r], 1, skipEmpty).value, rows, r + 1, skipEmpty);
    }
  }

  /** A successful read of the mapping file gives one document per header
      value, with an empty entry for none other; document `d` holds slot `r`
      exactly when data row `r` has a stored cell in column `d` (keyed by
      the column position, not by the header's value), and the slot holds
      the number that cell spells. */
  lemma BuildShape(rows: seq<seq<string>>, skipEmpty: bool)
    requires BuildSpec(rows, skipEmpty).Ok?
    ensures var m := BuildSpec(rows, skipEmpty).value.slots;
      && m.Keys == (if |rows| == 0 then {} else HeaderDocsFrom(rows[0], 1))
      && (forall d, r | d in m :: r in m[d] <==> Present(rows, r, d, skipEmpty))
      && (forall d, r | d in m && r in m[d] :: ParseInt(rows[r][d]) == Ok(m[d][r]))
  {
    if |rows| > 0 {
      var empty := Mapping(map[], []);
      HeaderShape(empty, rows[0], 1, skipEmpty);
      var mp := CellsGo(empty, 0, rows[0], 1, skipEmpty).value;
      assert Filled(mp.slots, rows, skipEmpty, 1, 1);
      DataRowsFill(mp, rows, 1, skipEmpty);
    }
  }
}
