# FactualEval-protocols: de-shuffling and realignment, modelled in Dafny

The repository collects crowdsourced ratings of four summarisation systems
(pegasus, prophetnet, bart, bertextabs). Workers rate the systems either on
a Likert scale or by Best-Worst Scaling. In each question the four summaries
come in a shuffled order. Six Python scripts undo the shuffle:

- they read a shuffle-order mapping file of the form document → answer slot
  1..4 → system number 1..4;
- they decode each annotation file by the start offset in its name, the
  answer-column arithmetic and the mapping;
- they collect per-document lists of scores or of best and worst picks;
- the final-result scripts validate or repair those lists and export one
  line per (annotator, document, system);
- the interval test joins a redo round to the original round worker by
  worker, and measures each worker's consistency.

Every script is a sequence of loops that fill dictionaries in place. Each
loop becomes a Dafny `method` with local `map`/`seq` variables and loop
invariants. Each method is proved equal to a tail-recursive specification
function. The properties are lemmas about those functions.

Modules, from the bottom up:

- `Primitives`:
  - Python exceptions as a `Result`;
  - `str.strip`, `int(str)`, slicing and `str.split`.
- `Shuffle` and `ShuffleShape`:
  - building the mapping;
  - the completeness probe;
  - resolution of a slot to a system.
- `RawRows`: the start offset in a file name, the worker column and the
  answer window of a row.
- `LikertDecode` and `BwsDecode`: the two decoders. Each is parameterised by
  what differs between the scripts: the trim, whether the worker column is
  read, whether blanks are recorded, and what is appended.
- `Export`: `divide_chunks` and the chunk → annotator → document → system
  export.
- `FinalLikert`, `FinalBws`, `IntervalLikert`, `IntervalBws` and
  `Crowdsourcing`: one module per script.
- `Join`, `Metrics` and `Consistency`: the interval test.

## Model

| member | source | states |
|---|---|---|
| Primitives.StripLeft | interval_test/read_likert.py:42 | `lstrip`: drops leading whitespace one character at a time; its contract is Primitives.StripLeftSpec |
| Primitives.StripRight | interval_test/read_likert.py:42 | `rstrip`: drops trailing whitespace one character at a time; its contract is Primitives.StripRightSpec |
| Primitives.Strip | interval_test/read_likert.py:42 | `strip`: `rstrip` after `lstrip`; its contract is Primitives.StripSpec |
| Primitives.StripLeftSpec | interval_test/read_likert.py:42 | `lstrip` removes exactly a leading run of whitespace and stops at a non-space character |
| Primitives.StripRightSpec | interval_test/read_likert.py:42 | `rstrip` removes exactly a trailing run of whitespace and stops at a non-space character |
| Primitives.StripSpec | interval_test/read_likert.py:42 | `strip` keeps a contiguous middle of the string: whitespace only is dropped on either side, and the result is empty or starts and ends with non-space |
| Primitives.StripNoSpace | interval_test/read_likert.py:42 | a worker id without whitespace is kept as it is |
| Primitives.ParseInt | get_final_result/read_csv_likert.py:29 | `int(value)` fails only with a ValueError |
| Primitives.ParseIntOfNatToString | get_final_result/read_csv_likert.py:43 | `int(str(n)) == n` for every natural number, so the digits of a file name give back their number |
| Primitives.ParseIntOneChar | get_final_result/read_csv_bws.py:57 | `int` of one character succeeds exactly on a digit and gives its value |
| Primitives.DigitsValueOfNatToString | get_final_result/read_csv_likert.py:43 | the decimal digits of `n` spell `n` |
| Primitives.NatToString | get_final_result/read_csv_likert.py:43 | `str(n)` is a non-empty digit string |
| Primitives.Drop | get_final_result/read_csv_bws.py:73 | `row[k:]`: the length is clipped at 0 and element `i` is `row[k + i]` |
| Primitives.TrimMetadata | get_final_result/read_csv_likert.py:52 | `row[3:-1]`: the length is `len - 4` (0 for short rows) and element `i` is `row[3 + i]` |
| Primitives.FindFrom | get_final_result/read_csv_likert.py:43 | gives the first occurrence of the separator at or after a position, or none when there is none |
| Primitives.SplitFirst | get_final_result/read_csv_likert.py:43 | `split(sep)[0]` is the longest prefix without the separator, ending where the first separator starts |
| Primitives.SplitSecond | get_final_result/read_csv_likert.py:43 | `split(sep)[1]` exists exactly when the separator occurs; otherwise an IndexError |
| Primitives.SplitSecondFound | get_final_result/read_csv_likert.py:43 | when the search finds the separator first at k, that is its first occurrence and `split(sep)[1]` is `split(sep)[0]` of the text after it |
| Primitives.SplitSecondMeaning | get_final_result/read_csv_likert.py:43 | when `split(sep)[1]` exists, the separator occurs first at some k, and the piece is `split(sep)[0]` of the text after that occurrence: the text up to the next separator, or to the end |
| Shuffle.CellStep | get_final_result/read_csv_likert.py:22-29 | one cell of the mapping file: a header cell in row 0, a data cell after it; its contracts are those of Shuffle.HeaderCell and Shuffle.DataCell |
| Shuffle.BuildSpec | get_final_result/read_csv_likert.py:17-30 | the whole build as a fold over the rows from an empty mapping; its shape is stated by ShuffleShape.BuildShape and its key order by Shuffle.BuildOrdered |
| Shuffle.NamesMatchExportOrder | get_final_result/read_csv_likert.py:37 | the name dictionary has keys 1..4, number k names the k-th entry of `ids`, and the names are distinct |
| Shuffle.SystemName | get_final_result/read_csv_likert.py:63 | `summary_number_to_name[k]` exists exactly for k in 1..4 and is the k-th system |
| Shuffle.HeaderCell | get_final_result/read_csv_likert.py:22-23 | a header cell adds `int(value)` to the documents with an empty slot map and leaves every other document alone; a non-number is a ValueError |
| Shuffle.DataCell | get_final_result/read_csv_likert.py:26-29 | a skipped blank cell leaves the map unchanged; otherwise a bad number is a ValueError before a column without a document is a KeyError; on success only `map[column][row]` changes, to the cell's number, keyed by the column position |
| Shuffle.HeaderCellOrdered | get_final_result/read_csv_likert.py:22-23 | the recorded key order stays the dictionary's insertion order: a new document goes last, a repeated one keeps its place |
| Shuffle.ReadMappingRow | get_final_result/read_csv_likert.py:22-29 | the loop over one row's cells after the label column computes the cell-by-cell fold and stops at the first error |
| Shuffle.BuildShuffleMap | get_final_result/read_csv_likert.py:17-30 | the row loop computes the whole build |
| Shuffle.CellsGoOrdered | get_final_result/read_csv_likert.py:22-29 | one row keeps the key order a faithful list of the documents |
| Shuffle.RowsGoOrdered | get_final_result/read_csv_likert.py:20-30 | the remaining rows keep the key order a faithful list of the documents |
| Shuffle.BuildOrdered | get_final_result/read_csv_likert.py:17-30 | the built mapping lists each of its documents once, in insertion order |
| Shuffle.ProbeComplete | get_final_result/read_csv_likert.py:33-35 | the probe succeeds exactly when every document has slots 1..4; otherwise it is a KeyError |
| Shuffle.Resolve | get_final_result/read_csv_likert.py:62-63 | a slot resolves exactly when its document and slot are mapped to a number in 1..4, and it gives that system; otherwise a KeyError |
| Shuffle.ResolveIsBijection | get_final_result/read_csv_likert.py:62-63 | when a document's four slots hold the four numbers, the slots resolve to four distinct systems and every system is reached |
| ShuffleShape.HeaderShape | get_final_result/read_csv_likert.py:22-23 | the header row's documents are exactly its parsed values, each with an empty slot map |
| ShuffleShape.DataCellFills | get_final_result/read_csv_likert.py:26-29 | one data cell extends "the map holds exactly the stored cells read so far" by that cell |
| ShuffleShape.DataCellsFill | get_final_result/read_csv_likert.py:26-29 | one data row stores exactly its non-skipped cells and adds no document |
| ShuffleShape.DataRowsFill | get_final_result/read_csv_likert.py:20-30 | the data rows store exactly their non-skipped cells and add no document |
| ShuffleShape.BuildShape | get_final_result/read_csv_likert.py:17-30 | after a successful build: the documents are the header values; `r in map[d]` exactly when data row r has a stored cell in column d; and that slot holds the cell's number |
| RawRows.Window | get_final_result/read_csv_likert.py:52-54 | the answer window lies inside the row |
| RawRows.WindowIsSlice | get_final_result/read_csv_likert.py:52-54 | the window is `row[3:-1]`, or `row[2:]` exactly when that slice has 18 fields; `row[2:]` always in the crowdsourcing layout |
| RawRows.WideRowKeepsEnds | get_final_result/read_csv_likert.py:52-54 | a 22-column row keeps the 20 fields from column 2 on |
| RawRows.StartOffset | get_final_result/read_csv_likert.py:43 | a name without the marker is an IndexError; a name with the marker fails, if at all, with a ValueError |
| RawRows.StartOffsetOfName | get_final_result/read_csv_likert.py:43 | a name `marker + str(n) + "-" + rest` yields n |
| RawRows.NotAtDigits | get_final_result/read_csv_likert.py:43 | the marker cannot start inside the offset's digits and dash |
| RawRows.SecondPartAfterPrefix | get_final_result/read_csv_likert.py:43 | after a leading marker, `split(marker)[1]` starts with the rest of the name |
| RawRows.FirstPartIsDigits | get_final_result/read_csv_likert.py:43 | `split("-")[0]` of digits followed by a dash is those digits |
| RawRows.WorkerId | interval_test/read_likert.py:42 | `row[1].strip()`, and an IndexError exactly when the row has fewer than two columns |
| LikertDecode.EmptyScores | get_final_result/read_csv_likert.py:24 | one empty score entry per document of the mapping |
| LikertDecode.LikertSlot | get_final_result/read_csv_likert.py:62 | `i % 4 + 1` is always a slot in 1..4 |
| LikertDecode.LikertPositionInverse | get_final_result/read_csv_likert.py:61-62 | the field position is recovered from its (document, slot) |
| LikertDecode.LikertPositionOnto | get_final_result/read_csv_likert.py:61-62 | every slot of every document from the start offset on has exactly one field |
| LikertDecode.LikertCell | get_final_result/read_csv_likert.py:55-71 | a blank field only adds the file to the missing set (when the script records it); otherwise an unresolvable slot or a document without an entry is a KeyError, then a bad number is a ValueError; on success exactly one list, that of the resolved document and system, grows by exactly the value read, every other list is unchanged, the document's entry gains only that system's key, every other document's entry is unchanged, and no document is added |
| LikertDecode.DecodeCells | get_final_result/read_csv_likert.py:55-71 | the field loop of one row computes the field-by-field fold |
| LikertDecode.DecodeRow | interval_test/read_likert.py:42-59 | one data row reads the worker id (in the interval reader), then its window of fields |
| LikertDecode.DecodeRows | get_final_result/read_csv_likert.py:47-73 | the row loop of one file skips the header row and decodes the other rows in order, stopping at the first error |
| LikertDecode.DecodeFile | get_final_result/read_csv_likert.py:42-73 | a file not ending in ".csv" is ignored; otherwise it yields its start offset, skips its header row and decodes every other row |
| LikertDecode.DecodeFiles | get_final_result/read_csv_likert.py:40-73 | the file loop computes the decoding of all files in listing order |
| LikertDecode.CellsGoGrows | get_final_result/read_csv_likert.py:55-71 | the fields of a row keep the documents and the known names, and only add to the missing set |
| LikertDecode.RowsGoGrows | get_final_result/read_csv_likert.py:47-73 | the same for the rows of a file |
| LikertDecode.FilesGoGrows | get_final_result/read_csv_likert.py:40-73 | the same for the remaining files |
| LikertDecode.DecodeGrows | get_final_result/read_csv_likert.py:40-73 | decoding keeps exactly the documents of the dictionary and files scores only under the four system names; it only adds to the missing set, and not at all in a script that does not record blanks |
| BwsDecode.EmptyPicks | get_final_result/read_csv_bws.py:24 | one entry with empty best and worst lists per document of the mapping |
| BwsDecode.BwsPositions | get_final_result/read_csv_bws.py:56-62 | each document owns the two fields `2(d - start)` and the next one, best first |
| BwsDecode.BwsDocOwners | get_final_result/read_csv_bws.py:56-62 | two fields with the same document and the same role are the same field |
| BwsDecode.LastDigit | get_final_result/read_csv_bws.py:57 | `int(value[-1])`: an IndexError on a blank field, a ValueError on a non-digit, else the digit's value |
| BwsDecode.BwsCell | get_final_result/read_csv_bws.py:52-62 | a document missing from the mapping is a KeyError; then the last-character error; then an unresolvable slot or a document without an entry is a KeyError; on success exactly one list of one document grows by one pick, best for even fields and worst for odd, and nothing else changes |
| BwsDecode.DecodeCells | get_final_result/read_csv_bws.py:52-62 | the field loop of one row computes the field-by-field fold |
| BwsDecode.DecodeRow | interval_test/read_bws.py:45-56 | one data row reads the worker id (in the interval reader), then the fields of `row[3:-1]` |
| BwsDecode.DecodeRows | get_final_result/read_csv_bws.py:48-63 | the row loop of one file skips the header row and decodes the other rows in order, stopping at the first error |
| BwsDecode.DecodeFile | get_final_result/read_csv_bws.py:42-63 | a file not ending in ".csv" is ignored; otherwise it yields its start offset, skips its header row and decodes every other row |
| BwsDecode.DecodeFiles | get_final_result/read_csv_bws.py:40-63 | the file loop computes the decoding of all files in listing order |
| BwsDecode.CellsGoKeeps | get_final_result/read_csv_bws.py:52-62 | the fields of a row keep the documents and, when the labels are faithful, the known system names |
| BwsDecode.RowsGoKeeps | get_final_result/read_csv_bws.py:48-63 | the same for the rows of a file |
| BwsDecode.FilesGoKeeps | get_final_result/read_csv_bws.py:40-63 | the same for the remaining files |
| BwsDecode.DecodeKeepsDocuments | get_final_result/read_csv_bws.py:40-63 | decoding keeps exactly the documents of the pick dictionary, and every pick names one of the four systems |
| Export.DivideChunks | get_final_result/read_csv_likert.py:95-97 | `[l[i:i + n] for i in range(0, len(l), n)]` as a recursion on the list; its contracts are Export.ChunksPartition, Export.ChunkContents and Export.ChunkCount |
| Export.ChunksPartition | get_final_result/read_csv_likert.py:95-97 | the chunks concatenate back to the list, none is empty, and all but the last have exactly n elements |
| Export.ChunkContents | get_final_result/read_csv_likert.py:95-97 | chunk c is `l[c*n : c*n + n]`, clipped at the end |
| Export.ChunkCount | get_final_result/read_csv_likert.py:95-97 | a list of m·n elements gives m chunks |
| Export.ChunksOfDocuments | get_final_result/read_csv_likert.py:99-100 | documents 1..100 give 20 chunks of 5, and chunk c holds 5c+1..5c+5 in order |
| Export.AnnotatorIdRange | get_final_result/read_csv_likert.py:113 | `chunk*3 + a + 1` lies in 1..60 and determines chunk and local annotator |
| Export.WriteSystems | get_final_result/read_csv_likert.py:112-116 | the system loop computes its fold |
| Export.WriteDocuments | get_final_result/read_csv_likert.py:109-116 | the document loop computes its fold |
| Export.WriteAnnotators | get_final_result/read_csv_likert.py:108-116 | the annotator loop computes its fold |
| Export.WriteRecords | get_final_result/read_csv_likert.py:105-116 | the chunk loop computes the whole export, stopping at the first lookup that raises |
| Export.EmitWritesPlan | get_final_result/read_csv_likert.py:105-116 | writing a plan gives the planned lines in order, each with its looked-up score, up to the first lookup that fails, and records that failure |
| Export.EmitComplete | get_final_result/read_csv_likert.py:105-116 | when every lookup succeeds, every planned line is written and nothing fails |
| Export.SystemsGoEmits | get_final_result/read_csv_likert.py:112-116 | the system loop writes its part of the plan |
| Export.DocsGoEmits | get_final_result/read_csv_likert.py:109-116 | the document loop writes its part of the plan |
| Export.AnnotatorsGoEmits | get_final_result/read_csv_likert.py:108-116 | the annotator loop writes its part of the plan |
| Export.ChunksGoEmits | get_final_result/read_csv_likert.py:107-116 | the chunk loop writes its part of the plan |
| Export.ExportEmitsPlan | get_final_result/read_csv_likert.py:105-116 | the nested loops write the chunk → annotator → document → system plan line by line |
| Export.ExportLayout | get_final_result/read_csv_likert.py:105-116 | for chunks of five, line k has chunk k/60, local annotator k%60/20, document k%20/4 of the chunk and system k%4; writing stops exactly at the first failing lookup; 60 lines per chunk are written exactly when none fails |
| Export.ExportOfDocuments | get_final_result/read_csv_likert.py:99-116 | over documents 1..100, line k has annotator id 3(k/60) + k%60/20 + 1 in 1..60, document 5(k/60) + k%20/4 + 1 and system `ids[k%4]`; its score is the lookup's value; all 1200 lines are written exactly when no lookup fails |
| FinalLikert.IsBad | get_final_result/read_csv_likert.py:80-82 | the validation test: an entry fails unless it has four systems with three scores each |
| FinalLikert.BadIn | get_final_result/read_csv_likert.py:78-85 | the keys the validation prints, in the order given; its contracts are FinalLikert.BadInMembers and FinalLikert.BadInSize |
| FinalLikert.BadInMembers | get_final_result/read_csv_likert.py:78-85 | the printed keys are exactly the listed documents whose entry does not have four systems with three scores each |
| FinalLikert.BadInSize | get_final_result/read_csv_likert.py:78-85 | over distinct keys, the number printed is the number of failing documents |
| FinalLikert.BadInCountsBadDocs | get_final_result/read_csv_likert.py:75-85 | over the dictionary's key order, the printed keys are the failing documents, and `bad` counts exactly them |
| FinalLikert.Validate | get_final_result/read_csv_likert.py:75-85 | the validation loop prints the failing documents in key order, and `bad` is their number |
| FinalLikert.LikertScore | get_final_result/read_csv_likert.py:114 | the export lookup gives the a-th score; a missing document or system is a KeyError and a short list an IndexError |
| FinalLikert.FourKnownNamesAreAll | get_final_result/read_csv_likert.py:80 | four entries under known system names cover every system |
| FinalLikert.ValidTableExports | get_final_result/read_csv_likert.py:112-114 | a dictionary validating for documents 1..100 answers every lookup of the export |
| FinalLikert.CleanTableWritesAll | get_final_result/read_csv_likert.py:104-116 | with no failing document and documents 1..100 present, all 1200 lines are written |
| FinalLikert.Run | get_final_result/read_csv_likert.py:17-116 | the script computes the modelled pipeline |
| FinalLikert.RunOutcome | get_final_result/read_csv_likert.py:17-116 | after a successful run: one entry per mapping document, known names only, and `bad` counts exactly the failing documents; with none failing and 1..100 present, 1200 lines are written |
| FinalBws.RepairList | get_final_result/read_csv_bws.py:69-74 | a list survives the repair exactly when it has three picks, or four of which the first is dropped; it is then its last three picks; any other list is an AssertionError |
| FinalBws.RepairPicks | get_final_result/read_csv_bws.py:69-74 | a document survives exactly when both its lists do, and each is repaired on its own |
| FinalBws.RepairTable | get_final_result/read_csv_bws.py:67-77 | the repair loop computes the repair pass in key order |
| FinalBws.RepairGo | get_final_result/read_csv_bws.py:67-77 | the repair pass over the keys from position i, replacing each entry by its repaired form and stopping at the first failure; its contracts are FinalBws.RepairGoFails, FinalBws.RepairGoKeys and FinalBws.RepairGoEntry |
| FinalBws.RepairGoFails | get_final_result/read_csv_bws.py:67-77 | over distinct keys, the pass succeeds exactly when every remaining document is repairable; otherwise it is an AssertionError |
| FinalBws.RepairGoKeys | get_final_result/read_csv_bws.py:67-77 | a successful pass keeps the documents of the dictionary |
| FinalBws.RepairGoEntry | get_final_result/read_csv_bws.py:67-77 | over distinct keys, a successful pass replaces the entry of each remaining document by its repaired form and leaves every other entry alone |
| FinalBws.RepairMeaning | get_final_result/read_csv_bws.py:67-77 | over the key order, the repair succeeds exactly when every document of the dictionary is repairable, and then every entry is its repaired form |
| FinalBws.RepairKeepsKnown | get_final_result/read_csv_bws.py:67-77 | the repair keeps only picks that were read, so they still name known systems |
| FinalBws.Rank | get_final_result/read_csv_bws.py:98-103 | 4 exactly for the best pick; otherwise 1 exactly for the worst pick; else 2 (best takes precedence) |
| FinalBws.RankCounts | get_final_result/read_csv_bws.py:98-103 | over four distinct names with distinct best and worst, exactly one ranks 4, exactly one ranks 1 and two rank 2; with best equal to worst, it ranks 4 and none ranks 1 |
| FinalBws.RankUniqueness | get_final_result/read_csv_bws.py:94-103 | the same over `ids` |
| FinalBws.BwsScore | get_final_result/read_csv_bws.py:96-103 | the export lookup ranks the system against annotator a's best and worst picks; a missing document is a KeyError and a short list an IndexError |
| FinalBws.Run | get_final_result/read_csv_bws.py:17-105 | the script computes the modelled pipeline |
| FinalBws.RepairedTableExports | get_final_result/read_csv_bws.py:88-105 | with lists of three, every written line ranks 4, 1 or 2, and with 1..100 present all 1200 lines are written |
| FinalBws.RunOutcome | get_final_result/read_csv_bws.py:17-105 | after a successful run: one entry per mapping document with three best and three worst picks, all known systems; every written rank is 4, 1 or 2; with 1..100 present, 1200 lines are written |
| IntervalLikert.Run | interval_test/read_likert.py:8-61 | the reader computes the modelled pipeline |
| IntervalLikert.RunOutcome | interval_test/read_likert.py:8-61 | after a successful run the mapping was complete, the dictionary has one entry per mapping document, and all names are known |
| IntervalBws.Run | interval_test/read_bws.py:9-57 | the reader computes the modelled pipeline |
| IntervalBws.RunOutcome | interval_test/read_bws.py:9-57 | after a successful run there is one entry per mapping document, and every (worker, system) pick names a known system |
| Crowdsourcing.Run | crowdsourcing/read_csv_bws.py:8-54 | the reader computes the modelled pipeline with no completeness probe |
| Crowdsourcing.BlankMappingCellFails | crowdsourcing/read_csv_bws.py:17-18 | a blank data cell of the mapping is a ValueError in this reader |
| Crowdsourcing.RunOutcome | crowdsourcing/read_csv_bws.py:8-54 | after a successful run there is one entry per mapping document, and all names are known |
| Join.FirstIndex | interval_test/test.py:35-38 | gives the first pair by the worker at or after a position, or none when there is none |
| Join.FindOriginal | interval_test/test.py:35-38 | the search loop returns the first original answer by the worker |
| Join.JoinByWorker | interval_test/test.py:20-40 | the join loop computes the join as intended |
| Join.JoinGoFails | interval_test/test.py:22-33 | the join succeeds exactly when every redo task is in the original round; otherwise a KeyError |
| Join.AppendKeeps | interval_test/test.py:26-40 | appending a pair keeps the worker list a record of the keys, with no list empty |
| Join.JoinStepKeeps | interval_test/test.py:26-40 | one redo answer appends its contribution, if any, to its own worker's list only |
| Join.JoinGoKeeps | interval_test/test.py:22-40 | the remaining answers keep the worker list faithful and every list non-empty |
| Join.JoinGoPairs | interval_test/test.py:22-40 | worker u's list grows by exactly the pairs u's later answers contribute, in redo order |
| Join.JoinMeaning | interval_test/test.py:20-65 | the join succeeds exactly when every redo task is in the original round, failing otherwise with a KeyError; every worker's list is then exactly their (own original, redo) pairs in redo order, and no list is empty |
| Join.StaleStep | interval_test/test.py:26-40 | one redo answer of the join as written: the worker's list is created first, a missing task is a KeyError, a missing model adds nothing, and otherwise the pair takes the last score found, a NameError when none was ever found |
| Join.JoinAsWritten | interval_test/test.py:20-40 | the join as written, as a fold of that step over the redo answers; how it differs from the join as intended is shown by Join.StaleScoreExample, Join.UnboundScoreExample and Join.EmptyListExample |
| Join.StaleScoreExample | interval_test/test.py:35-40 | as written, a worker missing from the original group gets an earlier worker's score; as intended, they get no pair |
| Join.UnboundScoreExample | interval_test/test.py:35-40 | as written, a first redo answer with no original match is a NameError |
| Join.EmptyListExample | interval_test/test.py:26-33 | as written, an answer under a missing model leaves its worker an empty list |
| Metrics.SumAbsDiffZero | interval_test/test.py:74-76 | the total absolute difference is 0 exactly when every pair agrees |
| Metrics.MismatchesBounds | interval_test/test.py:88-91 | the mismatch count lies in 0..n; it is 0 exactly when all pairs agree and n exactly when all differ |
| Metrics.MeanAbsDiff | interval_test/test.py:72-77 | the Likert figure: the total absolute difference divided by the number of pairs; its contract is Metrics.MeanAbsDiffMeaning |
| Metrics.MismatchRate | interval_test/test.py:86-93 | the Best-Worst figure: the number of changed picks divided by the number of pairs; its contract is Metrics.MismatchRateMeaning |
| Metrics.MeanAbsDiffMeaning | interval_test/test.py:72-77 | the Likert figure exists exactly for a non-empty list (else a ZeroDivisionError); it is ≥ 0, and 0 exactly when every pair agrees |
| Metrics.MismatchRateMeaning | interval_test/test.py:86-93 | the Best-Worst figure exists exactly for a non-empty list (else a ZeroDivisionError); it lies in [0, 1], with 0 exactly when all agree and 1 exactly when all differ |
| Metrics.LikertUserDiff | interval_test/test.py:74-77 | the running-total loop computes the Likert figure |
| Metrics.BwsUserDiff | interval_test/test.py:88-93 | the counting loop computes the Best-Worst figure |
| Metrics.LikertAverages | interval_test/test.py:72-77 | the loop over workers computes the per-worker Likert dictionary |
| Metrics.BwsAverages | interval_test/test.py:86-93 | the loop over workers computes the per-worker Best-Worst dictionary |
| Metrics.AveragesGoMeaning | interval_test/test.py:72-77 | the remaining workers succeed exactly when each has a defined figure, and each then gets it |
| Metrics.AveragesMeaning | interval_test/test.py:72-93 | the per-worker dictionary exists exactly when no worker's list is empty; its keys are the join's workers and each value is the figure of exactly that worker's pairs |
| Metrics.SumAtLeast | interval_test/test.py:105 | n values of at least lo sum to at least n·lo |
| Metrics.SumAtMost | interval_test/test.py:106 | n values of at most hi sum to at most n·hi |
| Metrics.MeanAtLeast | interval_test/test.py:105 | the overall mean exists exactly for a non-empty list (else a ZeroDivisionError) and is at least any lower bound of the values |
| Metrics.MeanBounds | interval_test/test.py:106 | the mean of values in [lo, hi] lies in [lo, hi] |
| Metrics.Figures | interval_test/test.py:105 | the dictionary's values in insertion order |
| Consistency.LikertMetricDefined | interval_test/test.py:77 | the Likert figure is defined exactly for non-empty lists |
| Consistency.BwsMetricDefined | interval_test/test.py:93 | the Best-Worst figure is defined exactly for non-empty lists |
| Consistency.JoinListsKeys | interval_test/test.py:20-65 | a successful join records each of its workers once, in insertion order |
| Consistency.AveragesCoverUsers | interval_test/test.py:72-93 | a per-worker dictionary that exists has a figure for every worker of the join |
| Consistency.Run | interval_test/test.py:20-106 | with the join as intended (## Findings), the script computes the joins, the figures and the overall means in its own order |
| Consistency.LikertFigures | interval_test/test.py:72-105 | for a join as intended, every worker's Likert figure exists, comes from exactly their pairs and is ≥ 0; the overall figure exists exactly when some worker has pairs, and is ≥ 0 |
| Consistency.BwsFigures | interval_test/test.py:86-106 | the same for Best-Worst, with the figures in [0, 1] |
| Consistency.ReportMeaning | interval_test/test.py:20-106 | with the join as intended (## Findings), the report exists exactly when both joins succeed and each pairs some answer; the only failures are a KeyError and a ZeroDivisionError; on success there is one figure per worker, computed from exactly that worker's pairs, the overall Likert figure is ≥ 0 and the overall Best-Worst figure lies in [0, 1] |
| Consistency.EmptyListFailsExample | interval_test/test.py:26-77 | as written, an empty worker list makes the Likert figures a ZeroDivisionError; as intended, the join has no such list |

## Left out

- Every `Run` starts from the contents of the files, never from the file
  system:
  - `os.walk`, `open` and `csv.reader`: the mapping file is given as its
    rows, and the annotation files as (name, rows) pairs in listing order;
  - CSV quoting and the `quotechar` settings are not modelled;
  - the output file is the sequence of records written.
- `json.dump` and `json.load` in the interval test: the join takes the
  original round as a map keyed by strings. The redo round is a sequence of
  answers, in the order in which the three nested loops visit the JSON
  dictionaries. Nothing connects the readers' integer document keys to the
  JSON string keys.
- `print` calls: the validation's printed keys are returned as a sequence,
  and every other print is dropped.
- The `pdb.set_trace` debugger escape in the repair pass is modelled as the
  end of the run with an AssertionError. Continuing the debugger session,
  which would go on to the next document, is not modelled.
- The floating-point divisions of the interval test are stated over `real`.
- Commented-out debugging code and hard-coded paths are not modelled. The
  corpus name is a parameter.
- `assert value is not None` in the Best-Worst decoders always holds for CSV
  fields and is not modelled.
- Primitives.ParseInt: does not accept the underscores or non-ASCII digits
  that Python's `int` allows. Whitespace is ASCII only, and a Unicode space
  is not stripped.
- Primitives.Strip: strips ASCII whitespace only, not Unicode spaces.
- Export.DivideChunks: requires a step n > 0. Python raises a ValueError for
  step 0, and the scripts always pass 5.
- IntervalLikert.RunOutcome: states nothing about the missing-file set
  beyond what LikertDecode.DecodeGrows gives (it only grows).
- FinalBws.RunSpec: checks that every document of the map is still in the
  pick dictionary before the repair. The repair walks the dictionary in the
  map's key order, which is the same because the header row fills both
  dictionaries together. The check never fires, because decoding keeps
  every document of the map (BwsDecode.DecodeKeepsDocuments).
- Consistency.Run: runs the interval test with the join as intended
  (Join.JoinRounds), not the join as written (Join.JoinAsWritten). The join
  as written and the failures it leads to are under ## Findings.
- Errors end a run with the exception's class. The partial state left behind
  at that point is not modelled, except for the partially written export.

## Findings

| source | as written | input that shows it | evidently intended | confidence | as-written member | corrected member |
|---|---|---|---|---|---|---|
| interval_test/test.py:35-40 | `orig_score` (and `orig_rank` at lines 60-65) is assigned only when the search finds the worker. A redo worker missing from the original group is paired with the value found for an earlier answer, or gets a NameError when nothing was ever found | original `{"1": {"bart": [("A", 3)]}}`, redo answers A = 3 then B = 7 for task 1, bart: B gets the pair (3, 7) | a redo answer is paired only with that worker's own original answer, and skipped when there is none | not executed | Join.StaleScoreExample | Join.JoinMeaning |
| interval_test/test.py:26-33 | the worker's list is created before the model check. A worker whose every redo answer falls under a model the original task lacks keeps an empty list, and line 77 divides by its length 0 | original `{"9": {}}`, redo answer A = 3 for task 9, bart | a worker gets a list only with a first pair, so every per-worker figure exists | not executed | Consistency.EmptyListFailsExample | Consistency.ReportMeaning |
