/** What the decoders take from an annotation file before any lookup: the
    start offset in its name, the worker column and the window of answer
    fields in a row. */
module RawRows {
  import opened Primitives

  /** One annotation file: its name and its rows as the CSV reader yields
      them, the header row first. */
  datatype CsvFile = CsvFile(name: string, rows: seq<seq<string>>)

  /** How a script cuts the answer fields out of a row. */
  datatype Layout =
    /** `row[3:-1]`, or `row[2:]` when that slice has exactly 18 fields. */
    | WidthDetect
    /** Always `row[3:-1]`. */
    | TrimOnly
    /** Always `row[2:]`. */
    | AfterTwo

  /** The answer fields of `row` are `row[base..base + count]`; the decoders
      index the row directly so that no intermediate list is built. */
  function Window(row: seq<string>, layout: Layout): (w: (nat, nat))
    ensures w.0 + w.1 <= |row|
  {
    match layout
    case WidthDetect =>
      if |row| == 22 then (2, 20) else if |row| <= 4 then (0, 0) else (3, |row| - 4)
    case TrimOnly => if |row| <= 4 then (0, 0) else (3, |row| - 4)
    case AfterTwo => if |row| <= 2 then (0, 0) else (2, |row| - 2)
  }

  /** The window is exactly the slice the script takes: `row[3:-1]` unless it
      holds 18 fields, in which case `row[2:]`. */
  lemma WindowIsSlice(row: seq<string>, layout: Layout)
    ensures var (base, count) := Window(row, layout);
      row[base..base + count] ==
        match layout
        case WidthDetect =>
          if |TrimMetadata(row)| == 18 then Drop(row, 2) else TrimMetadata(row)
        case TrimOnly => TrimMetadata(row)
        case AfterTwo => Drop(row, 2)
  {
    var (base, count) := Window(row, layout);
    var fields := match layout
      case WidthDetect =>
        if |TrimMetadata(row)| == 18 then Drop(row, 2) else TrimMetadata(row)
      case TrimOnly => TrimMetadata(row)
      case AfterTwo => Drop(row, 2);
    assert |fields| == count;
    assert forall i | 0 <= i < count :: row[base..base + count][i] == fields[i];
  }

  /** A surveyed row of the width-detecting layout has 22 columns: the width
      check then keeps one more leading column and the trailing one. */
  lemma WideRowKeepsEnds(row: seq<string>)
    requires |row| == 22
    ensures var (base, count) := Window(row, WidthDetect);
      base == 2 && count == 20 && row[base] == row[2] && row[base + count - 1] == row[21]
  {
  }

  /** `int(file.split(marker)[1].split("-")[0])`: the number between the
      first `marker` and the next `-` of the file name. */
  function StartOffset(name: string, marker: string): (r: Result<int>)
    requires |marker| > 0
    ensures r.Err? ==> r.error == IndexError || r.error == ValueError
    ensures (forall k: nat :: !OccursAt(name, marker, k)) ==> r == Err(IndexError)
    ensures (exists k: nat :: OccursAt(name, marker, k)) && r.Err? ==> r.error == ValueError
  {
    var part :- SplitSecond(name, marker);
    ParseInt(SplitFirst(part, "-"))
  }

  /** `marker` cannot start inside `digits + "-"`. */
  lemma NotAtDigits(name: string, marker: string, digits: string, k: nat)
    requires |marker| > 0 && !IsDigit(marker[0]) && marker[0] != '-'
    requires AllDigits(digits)
    requires |marker| + |digits| < |name|
    requires name[|marker|..|marker| + |digits| + 1] == digits + "-"
    requires |marker| <= k <= |marker| + |digits|
    ensures !OccursAt(name, marker, k)
  {
    assert name[k] == (digits + "-")[k - |marker|];
  }

  /** After a leading `marker`, `split(marker)[1]` is a prefix of the rest
      that runs at least to the first place the marker could start again. */
  lemma SecondPartAfterPrefix(marker: string, tail: string, len: nat)
    requires |marker| > 0 && len < |tail|
    requires forall k: nat | |marker| <= k <= |marker| + len :: !OccursAt(marker + tail, marker, k)
    ensures SplitSecond(marker + tail, marker).Ok?
    ensures var part := SplitSecond(marker + tail, marker).value;
      len < |part| <= |tail| && part == tail[..|part|]
  {
    var name := marker + tail;
    assert name[..|marker|] == marker;
    assert OccursAt(name, marker, 0);
    assert FindFrom(name, marker, 0) == Some(0);
    assert name[|marker|..] == tail;
    var part := SplitFirst(tail, marker);
    assert SplitSecond(name, marker) == Ok(part);
    if |part| < |tail| {
      assert OccursAt(tail, marker, |part|);
      assert tail[|part|..|part| + |marker|] == name[|marker| + |part|..|marker| + |part| + |marker|];
      assert OccursAt(name, marker, |marker| + |part|);
    }
  }

  /** `split("-")[0]` of a string that starts with digits and a dash. */
  lemma FirstPartIsDigits(part: string, digits: string)
    requires AllDigits(digits) && |digits| < |part| && part[..|digits| + 1] == digits + "-"
    ensures SplitFirst(part, "-") == digits
  {
    assert OccursAt(part, "-", |digits|);
    forall k: nat | k < |digits| ensures !OccursAt(part, "-", k) {
      assert part[k] == digits[k];
    }
  }

  /** A name of the form `marker + str(n) + "-" + rest` yields `n`, whatever
      `rest` holds, when the marker cannot start inside the number. */
  lemma StartOffsetOfName(marker: string, n: nat, rest: string)
    requires |marker| > 0 && !IsDigit(marker[0]) && marker[0] != '-'
    ensures StartOffset(marker + NatToString(n) + "-" + rest, marker) == Ok(n)
  {
    var digits := NatToString(n);
    var tail := digits + "-" + rest;
    var name := marker + tail;
    assert marker + NatToString(n) + "-" + rest == name;
    assert name[|marker|..|marker| + |digits| + 1] == digits + "-";
    forall k: nat | |marker| <= k <= |marker| + |digits|
      ensures !OccursAt(name, marker, k)
    {
      NotAtDigits(name, marker, digits, k);
    }
    SecondPartAfterPrefix(marker, tail, |digits|);
    var part := SplitSecond(name, marker).value;
    assert part[..|digits| + 1] == tail[..|digits| + 1];
    FirstPartIsDigits(part, digits);
    ParseIntOfNatToString(n);
  }

  /** `row[1].strip()`: the worker id column, an IndexError on a shorter row. */
  function WorkerId(row: seq<string>): (r: Result<string>)
    ensures r.Err? <==> |row| < 2
    ensures r.Err? ==> r.error == IndexError
    ensures r.Ok? ==> r.value == Strip(row[1])
  {
    if |row| < 2 then Err(IndexError) else Ok(Strip(row[1]))
  }
}
