/** The final-result export shared by the Likert and the Best-Worst scripts:
    documents 1..100 in chunks of five, three annotators per chunk numbered
    globally, one record per (annotator, document, system). */
module Export {
  import opened Primitives
  import opened Shuffle

  /** `divide_chunks(l, n)`: consecutive slices `l[i:i + n]` for
      `i = 0, n, 2n, ...`; the last one may be shorter. */
  function DivideChunks<T>(l: seq<T>, n: nat): seq<seq<T>>
    requires n > 0
    decreases |l|
  {
    if l == [] then []
    else if |l| <= n then [l]
    else [l[..n]] + DivideChunks(l[n..], n)
  }

  function Flatten<T>(cs: seq<seq<T>>): seq<T> {
    if cs == [] then [] else cs[0] + Flatten(cs[1..])
  }

  function Min(a: int, b: int): int {
    if a <= b then a else b
  }

  /** The chunks put back together give the list again; none is empty or
      longer than `n`, and all but the last are exactly `n` long. */
  lemma {:induction false} ChunksPartition<T>(l: seq<T>, n: nat)
    requires n > 0
    ensures var cs := DivideChunks(l, n);
      && Flatten(cs) == l
      && (forall c | 0 <= c < |cs| :: 0 < |cs[c]| <= n)
      && (forall c | 0 <= c < |cs| - 1 :: |cs[c]| == n)
    decreases |l|
  {
    if |l| > n {
      ChunksPartition(l[n..], n);
      var cs := DivideChunks(l, n);
      assert cs[1..] == DivideChunks(l[n..], n);
      assert l == l[..n] + l[n..];
    }
  }

  /** Chunk `c` is exactly `l[c*n .. min(c*n + n, |l|)]`. */
  lemma {:induction false} ChunkContents<T>(l: seq<T>, n: nat, c: nat)
    requires n > 0 && c * n < |l|
    ensures c < |DivideChunks(l, n)|
    ensures DivideChunks(l, n)[c] == l[c * n .. Min(c * n + n, |l|)]
    decreases c
  {
    if c > 0 {
      var lo, lo' := c * n, (c - 1) * n;
      MulPred(c, n);
      var hi, hi' := Min(lo + n, |l|), Min(lo' + n, |l| - n);
      assert hi == hi' + n;
      var rest := l[n..];
      ChunkContents(rest, n, c - 1);
      assert DivideChunks(l, n)[c] == DivideChunks(rest, n)[c - 1];
      assert rest[lo'..hi'] == l[lo..hi];
    }
  }

  lemma MulPred(c: nat, n: nat)
    requires c > 0
    ensures (c - 1) * n + n == c * n && n <= c * n
  {
  }

  /** A list of `m * n` elements gives exactly `m` chunks. */
  lemma {:induction false} ChunkCount<T>(l: seq<T>, n: nat, m: nat)
    requires n > 0 && |l| == m * n
    ensures |DivideChunks(l, n)| == m
    decreases m
  {
    if m > 1 {
      assert |l[n..]| == (m - 1) * n;
      ChunkCount(l[n..], n, m - 1);
    }
  }

  /** `list(range(1, 101))`. */
  function Documents(): seq<int> {
    seq(100, i => i + 1)
  }

  /** `list(divide_chunks(examples, 5))`. */
  function Chunks(): seq<seq<int>> {
    DivideChunks(Documents(), 5)
  }

  /** Twenty chunks of five: chunk `c` holds documents `5c + 1 .. 5c + 5`. */
  lemma ChunksOfDocuments()
    ensures |Chunks()| == 20
    ensures forall c | 0 <= c < 20 :: |Chunks()[c]| == 5
    ensures forall c, j | 0 <= c < 20 && 0 <= j < 5 :: Chunks()[c][j] == 5 * c + j + 1
  {
    ChunkCount(Documents(), 5, 20);
    forall c | 0 <= c < 20 ensures |Chunks()[c]| == 5 && forall j | 0 <= j < 5 :: Chunks()[c][j] == 5 * c + j + 1 {
      ChunkContents(Documents(), 5, c);
    }
  }

  /** One written line of the final-result file. */
  datatype Record = Record(annotator: int, document: int, system: string, corpus: string, score: int)

  /** What the writer has left in the file: the rows written so far and the
      exception that stopped the export, if any. */
  datatype Written = Written(rows: seq<Record>, failure: Option<Error>)

  /** `score(a, document, system)`: the value exported for local annotator
      `a` of a chunk, or the exception looking it up raises. */
  type Scorer = (nat, int, string) -> Result<int>

  /** `chunk_count * 3 + annotator + 1`. */
  function AnnotatorId(chunk: nat, a: nat): int {
    chunk * 3 + a + 1
  }

  /** Over the twenty chunks the ids run through 1..60 and tell chunk and
      local annotator apart. */
  lemma AnnotatorIdRange(chunk: nat, a: nat, chunk': nat, a': nat)
    requires chunk < 20 && a < 3 && a' < 3
    ensures 1 <= AnnotatorId(chunk, a) <= 60
    ensures AnnotatorId(chunk, a) == AnnotatorId(chunk', a') ==> chunk == chunk' && a == a'
  {
  }

  /** One planned line: chunk number, local annotator, document and system. */
  datatype Slot = Slot(chunk: nat, annotator: nat, document: int, system: string)

  function Lookup(score: Scorer, slot: Slot): Result<int> {
    score(slot.annotator, slot.document, slot.system)
  }

  /** `rec` is the line written for `slot`, with the score looked up. */
  predicate RowAt(corpus: string, score: Scorer, rec: Record, slot: Slot) {
    && rec == Record(AnnotatorId(slot.chunk, slot.annotator), slot.document, slot.system, corpus, rec.score)
    && Lookup(score, slot) == Ok(rec.score)
  }

  /** One `writer.writerow`, after the score lookup that may raise. */
  function Put(corpus: string, score: Scorer, acc: Written, chunk: nat, a: nat, document: int, system: string): Written {
    match score(a, document, system)
    case Err(e) => Written(acc.rows, Some(e))
    case Ok(v) => Written(acc.rows + [Record(AnnotatorId(chunk, a), document, system, corpus, v)], None)
  }

  function SystemsGo(corpus: string, score: Scorer, chunk: nat, a: nat, document: int, acc: Written, s: nat): Written
    decreases |Systems| - s
  {
    if acc.failure.Some? || s >= |Systems| then acc
    else SystemsGo(corpus, score, chunk, a, document, Put(corpus, score, acc, chunk, a, document, Systems[s]), s + 1)
  }

  function DocsGo(corpus: string, score: Scorer, chunk: nat, a: nat, docs: seq<int>, acc: Written, j: nat): Written
    decreases |docs| - j
  {
    if acc.failure.Some? || j >= |docs| then acc
    else DocsGo(corpus, score, chunk, a, docs, SystemsGo(corpus, score, chunk, a, docs[j], acc, 0), j + 1)
  }

  function AnnotatorsGo(corpus: string, score: Scorer, chunk: nat, docs: seq<int>, acc: Written, a: nat): Written
    decreases 3 - a
  {
    if acc.failure.Some? || a >= 3 then acc
    else AnnotatorsGo(corpus, score, chunk, docs, DocsGo(corpus, score, chunk, a, docs, acc, 0), a + 1)
  }

  function ChunksGo(corpus: string, score: Scorer, chunks: seq<seq<int>>, acc: Written, c: nat): Written
    decreases |chunks| - c
  {
    if acc.failure.Some? || c >= |chunks| then acc
    else ChunksGo(corpus, score, chunks, AnnotatorsGo(corpus, score, c, chunks[c], acc, 0), c + 1)
  }

  /** What the export writes for the given chunks. */
  function ExportSpec(corpus: string, score: Scorer, chunks: seq<seq<int>>): Written {
    ChunksGo(corpus, score, chunks, Written([], None), 0)
  }

  /** `for system in ids`: the lines of one annotator and document. */
  method WriteSystems(corpus: string, score: Scorer, chunk: nat, a: nat, document: int, acc: Written) returns (out: Written)
    ensures out == SystemsGo(corpus, score, chunk, a, document, acc, 0)
  {
    out := acc;
    var s := 0;
    while s < |Systems| && out.failure.None?
      invariant s <= |Systems|
      invariant SystemsGo(corpus, score, chunk, a, document, out, s) == SystemsGo(corpus, score, chunk, a, document, acc, 0)
    {
      out := Put(corpus, score, out, chunk, a, document, Systems[s]);
      s := s + 1;
    }
  }

  /** `for document in chunk`. */
  method WriteDocuments(corpus: string, score: Scorer, chunk: nat, a: nat, docs: seq<int>, acc: Written) returns (out: Written)
    ensures out == DocsGo(corpus, score, chunk, a, docs, acc, 0)
  {
    out := acc;
    var j := 0;
    while j < |docs| && out.failure.None?
      invariant j <= |docs|
      invariant DocsGo(corpus, score, chunk, a, docs, out, j) == DocsGo(corpus, score, chunk, a, docs, acc, 0)
    {
      out := WriteSystems(corpus, score, chunk, a, docs[j], out);
      j := j + 1;
    }
  }

  /** `for annotator in range(3)`. */
  method WriteAnnotators(corpus: string, score: Scorer, chunk: nat, docs: seq<int>, acc: Written) returns (out: Written)
    ensures out == AnnotatorsGo(corpus, score, chunk, docs, acc, 0)
  {
    out := acc;
    var a := 0;
    while a < 3 && out.failure.None?
      invariant a <= 3
      invariant AnnotatorsGo(corpus, score, chunk, docs, out, a) == AnnotatorsGo(corpus, score, chunk, docs, acc, 0)
    {
      out := WriteDocuments(corpus, score, chunk, a, docs, out);
      a := a + 1;
    }
  }

  /** `for chunk_count, chunk in enumerate(chunks)`: the whole export, from
      an empty file. */
  method WriteRecords(corpus: string, score: Scorer, chunks: seq<seq<int>>) returns (out: Written)
    ensures out == ExportSpec(corpus, score, chunks)
  {
    out := Written([], None);
    var c := 0;
    while c < |chunks| && out.failure.None?
      invariant c <= |chunks|
      invariant ChunksGo(corpus, score, chunks, out, c) == ExportSpec(corpus, score, chunks)
    {
      out := WriteAnnotators(corpus, score, c, chunks[c], out);
      c := c + 1;
    }
  }

  /** Writing `plan` line by line until the first lookup that raises. */
  function Emit(corpus: string, score: Scorer, plan: seq<Slot>): Written {
    if plan == [] then Written([], None)
    else
      match Lookup(score, plan[0])
      case Err(e) => Written([], Some(e))
      case Ok(v) =>
        var rest := Emit(corpus, score, plan[1..]);
        var slot := plan[0];
        Written([Record(AnnotatorId(slot.chunk, slot.annotator), slot.document, slot.system, corpus, v)] + rest.rows, rest.failure)
  }

  /** What the file holds after writing `first`, then `second`. */
  function Then(first: Written, second: Written): Written {
    if first.failure.Some? then first else Written(first.rows + second.rows, second.failure)
  }

  /** The rows written are the planned lines in order, each with its looked-up
      score; the export stops short exactly when a lookup raises, and the
      exception reported is the one of the first slot not written. */
  lemma {:induction false} EmitWritesPlan(corpus: string, score: Scorer, plan: seq<Slot>)
    ensures var out := Emit(corpus, score, plan);
      && |out.rows| <= |plan|
      && (forall k | 0 <= k < |out.rows| :: RowAt(corpus, score, out.rows[k], plan[k]))
      && (out.failure.None? <==> |out.rows| == |plan|)
      && (out.failure.Some? ==> Lookup(score, plan[|out.rows|]) == Err(out.failure.value))
  {
    if plan != [] && Lookup(score, plan[0]).Ok? {
      EmitWritesPlan(corpus, score, plan[1..]);
    }
  }

  /** When every planned lookup succeeds, every planned line is written. */
  lemma EmitComplete(corpus: string, score: Scorer, plan: seq<Slot>)
    requires forall k | 0 <= k < |plan| :: Lookup(score, plan[k]).Ok?
    ensures Emit(corpus, score, plan).failure.None?
    ensures |Emit(corpus, score, plan).rows| == |plan|
  {
    EmitWritesPlan(corpus, score, plan);
  }

  lemma ThenAssoc(x: Written, y: Written, z: Written)
    ensures Then(Then(x, y), z) == Then(x, Then(y, z))
  {
    if x.failure.None? && y.failure.None? {
      assert x.rows + y.rows + z.rows == x.rows + (y.rows + z.rows);
    }
  }

  lemma {:induction false} EmitAppend(corpus: string, score: Scorer, xs: seq<Slot>, ys: seq<Slot>)
    ensures Emit(corpus, score, xs + ys) == Then(Emit(corpus, score, xs), Emit(corpus, score, ys))
  {
    if xs == [] {
      assert xs + ys == ys;
    } else {
      assert (xs + ys)[0] == xs[0] && (xs + ys)[1..] == xs[1..] + ys;
      EmitAppend(corpus, score, xs[1..], ys);
    }
  }

  /** The lines of one (chunk, annotator, document), systems from `s` on. */
  function SystemsPlan(chunk: nat, a: nat, document: int, s: nat): seq<Slot>
    decreases |Systems| - s
  {
    if s >= |Systems| then [] else [Slot(chunk, a, document, Systems[s])] + SystemsPlan(chunk, a, document, s + 1)
  }

  function DocsPlan(chunk: nat, a: nat, docs: seq<int>, j: nat): seq<Slot>
    decreases |docs| - j
  {
    if j >= |docs| then [] else SystemsPlan(chunk, a, docs[j], 0) + DocsPlan(chunk, a, docs, j + 1)
  }

  function AnnotatorsPlan(chunk: nat, docs: seq<int>, a: nat): seq<Slot>
    decreases 3 - a
  {
    if a >= 3 then [] else DocsPlan(chunk, a, docs, 0) + AnnotatorsPlan(chunk, docs, a + 1)
  }

  function ChunksPlan(chunks: seq<seq<int>>, c: nat): seq<Slot>
    decreases |chunks| - c
  {
    if c >= |chunks| then [] else AnnotatorsPlan(c, chunks[c], 0) + ChunksPlan(chunks, c + 1)
  }

  /** The lines in chunk -> annotator -> document -> system order. */
  function Plan(chunks: seq<seq<int>>): seq<Slot> {
    ChunksPlan(chunks, 0)
  }

  lemma {:induction false} SystemsGoEmits(corpus: string, score: Scorer, chunk: nat, a: nat, document: int, acc: Written, s: nat)
    ensures SystemsGo(corpus, score, chunk, a, document, acc, s) == Then(acc, Emit(corpus, score, SystemsPlan(chunk, a, document, s)))
    decreases |Systems| - s
  {
    if acc.failure.None? && s < |Systems| {
      var slot := Slot(chunk, a, document, Systems[s]);
      var rest := SystemsPlan(chunk, a, document, s + 1);
      var put := Put(corpus, score, acc, chunk, a, document, Systems[s]);
      SystemsGoEmits(corpus, score, chunk, a, document, put, s + 1);
      assert [slot][1..] == [];
      assert put == Then(acc, Emit(corpus, score, [slot]));
      ThenAssoc(acc, Emit(corpus, score, [slot]), Emit(corpus, score, rest));
      EmitAppend(corpus, score, [slot], rest);
    }
  }

  lemma {:induction false} DocsGoEmits(corpus: string, score: Scorer, chunk: nat, a: nat, docs: seq<int>, acc: Written, j: nat)
    ensures DocsGo(corpus, score, chunk, a, docs, acc, j) == Then(acc, Emit(corpus, score, DocsPlan(chunk, a, docs, j)))
    decreases |docs| - j
  {
    if acc.failure.None? && j < |docs| {
      var here := SystemsPlan(chunk, a, docs[j], 0);
      var rest := DocsPlan(chunk, a, docs, j + 1);
      var mid := SystemsGo(corpus, score, chunk, a, docs[j], acc, 0);
      SystemsGoEmits(corpus, score, chunk, a, docs[j], acc, 0);
      DocsGoEmits(corpus, score, chunk, a, docs, mid, j + 1);
      ThenAssoc(acc, Emit(corpus, score, here), Emit(corpus, score, rest));
      EmitAppend(corpus, score, here, rest);
    }
  }

  lemma {:induction false} AnnotatorsGoEmits(corpus: string, score: Scorer, chunk: nat, docs: seq<int>, acc: Written, a: nat)
    ensures AnnotatorsGo(corpus, score, chunk, docs, acc, a) == Then(acc, Emit(corpus, score, AnnotatorsPlan(chunk, docs, a)))
    decreases 3 - a
  {
    if acc.failure.None? && a < 3 {
      var here := DocsPlan(chunk, a, docs, 0);
      var rest := AnnotatorsPlan(chunk, docs, a + 1);
      var mid := DocsGo(corpus, score, chunk, a, docs, acc, 0);
      DocsGoEmits(corpus, score, chunk, a, docs, acc, 0);
      AnnotatorsGoEmits(corpus, score, chunk, docs, mid, a + 1);
      ThenAssoc(acc, Emit(corpus, score, here), Emit(corpus, score, rest));
      EmitAppend(corpus, score, here, rest);
    }
  }

  lemma {:induction false} ChunksGoEmits(corpus: string, score: Scorer, chunks: seq<seq<int>>, acc: Written, c: nat)
    ensures ChunksGo(corpus, score, chunks, acc, c) == Then(acc, Emit(corpus, score, ChunksPlan(chunks, c)))
    decreases |chunks| - c
  {
    if acc.failure.None? && c < |chunks| {
      var here := AnnotatorsPlan(c, chunks[c], 0);
      var rest := ChunksPlan(chunks, c + 1);
      var mid := AnnotatorsGo(corpus, score, c, chunks[c], acc, 0);
      AnnotatorsGoEmits(corpus, score, c, chunks[c], acc, 0);
      ChunksGoEmits(corpus, score, chunks, mid, c + 1);
      ThenAssoc(acc, Emit(corpus, score, here), Emit(corpus, score, rest));
      EmitAppend(corpus, score, here, rest);
    }
  }

  /** The nested export loops write the plan line by line. */
  lemma ExportEmitsPlan(corpus: string, score: Scorer, chunks: seq<seq<int>>)
    ensures ExportSpec(corpus, score, chunks) == Emit(corpus, score, Plan(chunks))
  {
    ChunksGoEmits(corpus, score, chunks, Written([], None), 0);
    assert [] + Emit(corpus, score, Plan(chunks)).rows == Emit(corpus, score, Plan(chunks)).rows;
  }

  lemma Div4Step(k: int)
    requires k >= 4
    ensures (k - 4) / 4 + 1 == k / 4 && (k - 4) % 4 == k % 4
  {
  }

  lemma Div4Small(k: int)
    requires 0 <= k < 4
    ensures k / 4 == 0 && k % 4 == k
  {
  }

  lemma Div20Small(k: int)
    requires 0 <= k < 20
    ensures k / 20 == 0 && k % 20 == k
  {
  }

  lemma Div20Step(k: int)
    requires k >= 20
    ensures (k - 20) / 20 + 1 == k / 20 && (k - 20) % 20 == k % 20 && (k - 20) % 4 == k % 4
  {
  }

  lemma Div60Step(k: int)
    requires k >= 60
    ensures (k - 60) / 60 + 1 == k / 60 && (k - 60) % 60 == k % 60 && (k - 60) % 20 == k % 20 && (k - 60) % 4 == k % 4
  {
  }

  lemma Div60Small(k: int)
    requires 0 <= k < 60
    ensures k / 60 == 0 && k % 60 == k
  {
  }

  lemma SystemsPlanLayout(chunk: nat, a: nat, document: int)
    ensures |SystemsPlan(chunk, a, document, 0)| == 4
    ensures forall t | 0 <= t < 4 :: SystemsPlan(chunk, a, document, 0)[t] == Slot(chunk, a, document, Systems[t])
  {
    assert SystemsPlan(chunk, a, document, 4) == [];
    assert SystemsPlan(chunk, a, document, 3) == [Slot(chunk, a, document, Systems[3])];
    assert |SystemsPlan(chunk, a, document, 2)| == 2;
    assert |SystemsPlan(chunk, a, document, 1)| == 3;
  }

  lemma DocsPlanJoin(chunk: nat, a: nat, docs: seq<int>, j: nat, here: seq<Slot>, rest: seq<Slot>)
    requires j < |docs|
    requires |here| == 4 && forall t | 0 <= t < 4 :: here[t] == Slot(chunk, a, docs[j], Systems[t])
    requires |rest| == 4 * (|docs| - (j + 1))
    requires forall i | 0 <= i < |rest| :: j + 1 + i / 4 < |docs| && rest[i] == Slot(chunk, a, docs[j + 1 + i / 4], Systems[i % 4])
    ensures forall i | 0 <= i < |here + rest| :: j + i / 4 < |docs| && (here + rest)[i] == Slot(chunk, a, docs[j + i / 4], Systems[i % 4])
  {
    forall i | 0 <= i < |here + rest|
      ensures j + i / 4 < |docs| && (here + rest)[i] == Slot(chunk, a, docs[j + i / 4], Systems[i % 4])
    {
      if i < 4 {
        Div4Small(i);
        assert (here + rest)[i] == here[i];
      } else {
        Div4Step(i);
        assert (here + rest)[i] == rest[i - 4];
      }
    }
  }

  lemma {:induction false} DocsPlanLayout(chunk: nat, a: nat, docs: seq<int>, j: nat)
    requires j <= |docs|
    ensures |DocsPlan(chunk, a, docs, j)| == 4 * (|docs| - j)
    ensures forall i | 0 <= i < 4 * (|docs| - j) ::
      j + i / 4 < |docs| && DocsPlan(chunk, a, docs, j)[i] == Slot(chunk, a, docs[j + i / 4], Systems[i % 4])
    decreases |docs| - j
  {
    if j < |docs| {
      SystemsPlanLayout(chunk, a, docs[j]);
      DocsPlanLayout(chunk, a, docs, j + 1);
      DocsPlanJoin(chunk, a, docs, j, SystemsPlan(chunk, a, docs[j], 0), DocsPlan(chunk, a, docs, j + 1));
    }
  }

  lemma AnnotatorsPlanJoin(chunk: nat, docs: seq<int>, a: nat, here: seq<Slot>, rest: seq<Slot>)
    requires a < 3 && |docs| == 5
    requires |here| == 20 && forall i | 0 <= i < 20 :: here[i] == Slot(chunk, a, docs[0 + i / 4], Systems[i % 4])
    requires |rest| == 20 * (3 - (a + 1))
    requires forall i | 0 <= i < |rest| ::
      a + 1 + i / 20 < 3 && rest[i] == Slot(chunk, a + 1 + i / 20, docs[i % 20 / 4], Systems[i % 4])
    ensures forall i | 0 <= i < |here + rest| ::
      a + i / 20 < 3 && (here + rest)[i] == Slot(chunk, a + i / 20, docs[i % 20 / 4], Systems[i % 4])
  {
    forall i | 0 <= i < |here + rest|
      ensures a + i / 20 < 3 && (here + rest)[i] == Slot(chunk, a + i / 20, docs[i % 20 / 4], Systems[i % 4])
    {
      if i < 20 {
        Div20Small(i);
        assert (here + rest)[i] == here[i];
      } else {
        Div20Step(i);
        assert (here + rest)[i] == rest[i - 20];
      }
    }
  }

  lemma {:induction false} AnnotatorsPlanLayout(chunk: nat, docs: seq<int>, a: nat)
    requires a <= 3 && |docs| == 5
    ensures |AnnotatorsPlan(chunk, docs, a)| == 20 * (3 - a)
    ensures forall i | 0 <= i < 20 * (3 - a) ::
      a + i / 20 < 3 && AnnotatorsPlan(chunk, docs, a)[i] == Slot(chunk, a + i / 20, docs[i % 20 / 4], Systems[i % 4])
    decreases 3 - a
  {
    if a < 3 {
      DocsPlanLayout(chunk, a, docs, 0);
      AnnotatorsPlanLayout(chunk, docs, a + 1);
      AnnotatorsPlanJoin(chunk, docs, a, DocsPlan(chunk, a, docs, 0), AnnotatorsPlan(chunk, docs, a + 1));
    }
  }

  lemma ChunkPlanJoin(chunks: seq<seq<int>>, c: nat, here: seq<Slot>, rest: seq<Slot>)
    requires c < |chunks| && forall k | 0 <= k < |chunks| :: |chunks[k]| == 5
    requires |here| == 60 && forall i | 0 <= i < 60 :: here[i] == Slot(c, 0 + i / 20, chunks[c][i % 20 / 4], Systems[i % 4])
    requires |rest| == 60 * (|chunks| - (c + 1))
    requires forall i | 0 <= i < |rest| ::
      c + 1 + i / 60 < |chunks| && rest[i] == Slot(c + 1 + i / 60, i % 60 / 20, chunks[c + 1 + i / 60][i % 20 / 4], Systems[i % 4])
    ensures forall i | 0 <= i < |here + rest| ::
      c + i / 60 < |chunks| && (here + rest)[i] == Slot(c + i / 60, i % 60 / 20, chunks[c + i / 60][i % 20 / 4], Systems[i % 4])
  {
    forall i | 0 <= i < |here + rest|
      ensures c + i / 60 < |chunks|
      ensures (here + rest)[i] == Slot(c + i / 60, i % 60 / 20, chunks[c + i / 60][i % 20 / 4], Systems[i % 4])
    {
      if i < 60 {
        Div60Small(i);
        assert (here + rest)[i] == here[i];
      } else {
        Div60Step(i);
        assert (here + rest)[i] == rest[i - 60];
      }
    }
  }

  lemma {:induction false} ChunksPlanLayout(chunks: seq<seq<int>>, c: nat)
    requires c <= |chunks| && forall k | 0 <= k < |chunks| :: |chunks[k]| == 5
    ensures |ChunksPlan(chunks, c)| == 60 * (|chunks| - c)
    ensures forall i | 0 <= i < 60 * (|chunks| - c) ::
      c + i / 60 < |chunks| && ChunksPlan(chunks, c)[i] == Slot(c + i / 60, i % 60 / 20, chunks[c + i / 60][i % 20 / 4], Systems[i % 4])
    decreases |chunks| - c
  {
    if c < |chunks| {
      AnnotatorsPlanLayout(c, chunks[c], 0);
      ChunksPlanLayout(chunks, c + 1);
      var here, rest := AnnotatorsPlan(c, chunks[c], 0), ChunksPlan(chunks, c + 1);
      assert ChunksPlan(chunks, c) == here + rest;
      ChunkPlanJoin(chunks, c, here, rest);
    }
  }

  /** For chunks of five the export writes, in this order, line `k` for
      chunk `k / 60`, local annotator `k % 60 / 20`, document
      `k % 20 / 4` of the chunk and system `k % 4`, and stops exactly at the
      first lookup that raises; when none raises it writes `60` lines per
      chunk. */
  lemma ExportLayout(corpus: string, score: Scorer, chunks: seq<seq<int>>)
    requires forall k | 0 <= k < |chunks| :: |chunks[k]| == 5
    ensures var out := ExportSpec(corpus, score, chunks);
      && |out.rows| <= 60 * |chunks|
      && (forall k | 0 <= k < |out.rows| ::
            RowAt(corpus, score, out.rows[k], Slot(k / 60, k % 60 / 20, chunks[k / 60][k % 20 / 4], Systems[k % 4])))
      && (out.failure.None? <==> |out.rows| == 60 * |chunks|)
      && (out.failure.Some? ==>
            var k := |out.rows|;
            score(k % 60 / 20, chunks[k / 60][k % 20 / 4], Systems[k % 4]) == Err(out.failure.value))
  {
    ExportEmitsPlan(corpus, score, chunks);
    ChunksPlanLayout(chunks, 0);
    EmitWritesPlan(corpus, score, Plan(chunks));
  }

  /** The export over documents 1..100: at most 1200 lines, line `k` for
      annotator `3 * (k / 60) + k % 60 / 20 + 1` (between 1 and 60),
      document `5 * (k / 60) + k % 20 / 4 + 1` and system `k % 4`; all 1200
      are written exactly when no lookup raises. */
  lemma ExportOfDocuments(corpus: string, score: Scorer)
    ensures var out := ExportSpec(corpus, score, Chunks());
      && |out.rows| <= 1200
      && (forall k | 0 <= k < |out.rows| ::
            && out.rows[k].annotator == 3 * (k / 60) + k % 60 / 20 + 1
            && 1 <= out.rows[k].annotator <= 60
            && out.rows[k].document == 5 * (k / 60) + k % 20 / 4 + 1
            && out.rows[k].system == Systems[k % 4]
            && out.rows[k].corpus == corpus
            && score(k % 60 / 20, out.rows[k].document, out.rows[k].system) == Ok(out.rows[k].score))
      && (out.failure.None? <==> |out.rows| == 1200)
  {
    ChunksOfDocuments();
    ExportLayout(corpus, score, Chunks());
    var out := ExportSpec(corpus, score, Chunks());
    forall k | 0 <= k < |out.rows|
      ensures 1 <= 3 * (k / 60) + k % 60 / 20 + 1 <= 60
      ensures Chunks()[k / 60][k % 20 / 4] == 5 * (k / 60) + k % 20 / 4 + 1
    {
      AnnotatorIdRange(k / 60, k % 60 / 20, 0, 0);
    }
  }
}
