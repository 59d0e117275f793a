/** The pure logic of the ingestion and chat pipeline in rag.py: the
    fixed-window chunker, the record batch handed to the vector store, the
    joining of retrieved texts, the prompt template and the in-band error
    string. Embedding, the vector store and the language model are external;
    their results enter as parameters. */
module Rag {
  import opened Py

  /** Default window and overlap of `chunk_text` (rag.py:18-19). */
  const ChunkSize: int := 500
  const ChunkOverlap: int := 100

  /** `max_length` of the `text` field of the collection schema (rag.py:39). */
  const TextMaxLength: nat := 2048

  // ---------------------------------------------------------------------
  // Chunker
  // ---------------------------------------------------------------------

  /** The chunks `chunk_text` still emits once its cursor stands at `start`:
      none when the cursor has reached the end of the text, otherwise the
      window `text[start:min(start + chunkSize, len(text))]` followed by the
      chunks from `start + (chunkSize - overlap)`. Total only when the step
      is positive or the loop is already over. */
  function ChunksFrom(text: string, chunkSize: int, overlap: int, start: int): seq<string>
    requires start >= |text| || overlap < chunkSize
    decreases |text| - start
  {
    if start >= |text| then []
    else [Slice(text, start, Min(start + chunkSize, |text|))]
         + ChunksFrom(text, chunkSize, overlap, start + (chunkSize - overlap))
  }

  /** The chunk list `chunk_text(text, chunkSize, overlap)` returns. */
  function Chunking(text: string, chunkSize: int, overlap: int): seq<string>
    requires text == [] || overlap < chunkSize
  {
    ChunksFrom(text, chunkSize, overlap, 0)
  }

  /** `chunk_text` (rag.py:58-65). The source does not check its
      configuration: with a non-empty text and `overlap >= chunkSize` the loop
      never ends (see `NonPositiveStepNeverStops`), so that is excluded here. */
  method ChunkText(text: string, chunkSize: int, overlap: int) returns (chunks: seq<string>)
    requires text == [] || overlap < chunkSize
    ensures chunks == Chunking(text, chunkSize, overlap)
  {
    chunks := [];
    var start := 0;
    while start < |text|
      invariant start >= |text| || overlap < chunkSize
      invariant chunks + ChunksFrom(text, chunkSize, overlap, start) == Chunking(text, chunkSize, overlap)
      invariant start == CursorAfter(chunkSize - overlap, |chunks|)
      decreases |text| - start
    {
      var end := Min(start + chunkSize, |text|);
      ghost var rest := ChunksFrom(text, chunkSize, overlap, start + (chunkSize - overlap));
      assert ChunksFrom(text, chunkSize, overlap, start) == [Slice(text, start, end)] + rest;
      assert chunks + ([Slice(text, start, end)] + rest) == (chunks + [Slice(text, start, end)]) + rest;
      chunks := chunks + [Slice(text, start, end)];
      start := start + (chunkSize - overlap);
    }
  }

  /** The cursor of `chunk_text` after `k` turns of its loop, counted from
      where it started. */
  function CursorAfter(step: int, k: nat): int
  {
    if k == 0 then 0 else CursorAfter(step, k - 1) + step
  }

  /** A positive step moves the cursor strictly forward on every turn, to
      `k * step` after `k` turns. */
  lemma {:induction false} CursorAdvances(step: int, k: nat)
    requires step > 0
    ensures CursorAfter(step, k) == k * step
    ensures 0 <= CursorAfter(step, k) < CursorAfter(step, k + 1)
  {
    if k > 0 {
      CursorAdvances(step, k - 1);
      assert (k - 1) * step + step == k * step;
    }
  }

  /** Chunk `i` of the chunks from `start` is the window of the text that
      begins where the cursor stands after `i` more turns. */
  lemma {:induction false} ChunksFromAt(text: string, chunkSize: int, overlap: int, start: int, i: nat)
    requires 0 < chunkSize && overlap < chunkSize && 0 <= start
    requires i < |ChunksFrom(text, chunkSize, overlap, start)|
    ensures var a := start + CursorAfter(chunkSize - overlap, i);
      0 <= a < |text| &&
      ChunksFrom(text, chunkSize, overlap, start)[i] == text[a..Min(a + chunkSize, |text|)]
    decreases i
  {
    var step := chunkSize - overlap;
    if i > 0 {
      var rest := ChunksFrom(text, chunkSize, overlap, start + step);
      assert ChunksFrom(text, chunkSize, overlap, start)[1..] == rest;
      ChunksFromAt(text, chunkSize, overlap, start + step, i - 1);
      assert start + CursorAfter(step, i) == start + step + CursorAfter(step, i - 1);
    }
  }

  /** The number of chunks from `start` is the number of turns after which
      the cursor first reaches the end of the text. */
  lemma {:induction false} ChunksFromCount(text: string, chunkSize: int, overlap: int, start: int)
    requires overlap < chunkSize && 0 <= start
    ensures var k, step := |ChunksFrom(text, chunkSize, overlap, start)|, chunkSize - overlap;
      start + CursorAfter(step, k) >= |text| && (k > 0 ==> start + CursorAfter(step, k - 1) < |text|)
    decreases |text| - start
  {
    var step := chunkSize - overlap;
    if start < |text| {
      ChunksFromCount(text, chunkSize, overlap, start + step);
      var k' := |ChunksFrom(text, chunkSize, overlap, start + step)|;
      CursorShift(step, k');
      if k' > 0 {
        CursorShift(step, k' - 1);
      }
    }
  }

  /** One turn first and `k` after it is `k + 1` turns. */
  lemma {:induction false} CursorShift(step: int, k: nat)
    ensures CursorAfter(step, k + 1) == step + CursorAfter(step, k)
  {
  }

  /** `ceil(n / d)` for `d > 0`, as Python's `math.ceil(n / d)` on naturals. */
  function CeilDiv(n: nat, d: nat): nat
    requires d > 0
  {
    (n + d - 1) / d
  }

  /** The least `k` with `k * d >= n` is `ceil(n / d)`. */
  lemma CeilDivUnique(n: nat, d: nat, k: nat)
    requires d > 0
    requires k * d >= n && (k > 0 ==> (k - 1) * d < n)
    ensures k == CeilDiv(n, d)
  {
    var m := n + d - 1;
    if k == 0 {
      assert n == 0;
    } else {
      assert k * d <= m by { assert (k - 1) * d + d == k * d; }
      assert m < k * d + d;
      DivBetween(m, d, k);
    }
  }

  /** Euclidean division: `m / d` is the `k` with `k * d <= m < k * d + d`. */
  lemma DivBetween(m: nat, d: nat, k: nat)
    requires d > 0 && k * d <= m < k * d + d
    ensures m / d == k
  {
    var q, r := m / d, m % d;
    assert m == q * d + r && 0 <= r < d;
    if q < k {
      MulMono(q + 1, k, d);
      assert false;
    } else if q > k {
      MulMono(k + 1, q, d);
      assert false;
    }
  }

  lemma MulMono(a: nat, b: nat, d: nat)
    requires a <= b
    ensures a * d <= b * d
  {
    assert b * d == a * d + (b - a) * d;
  }

  /** The chunk count of the code is `ceil(len(text) / (chunkSize - overlap))`,
      zero for the empty text. */
  lemma ChunkCount(text: string, chunkSize: int, overlap: int)
    requires overlap < chunkSize
    ensures |Chunking(text, chunkSize, overlap)| == CeilDiv(|text|, chunkSize - overlap)
    ensures text == [] <==> Chunking(text, chunkSize, overlap) == []
  {
    var step, k := chunkSize - overlap, |Chunking(text, chunkSize, overlap)|;
    ChunksFromCount(text, chunkSize, overlap, 0);
    CursorAdvances(step, k);
    if k > 0 {
      CursorAdvances(step, k - 1);
    }
    CeilDivUnique(|text|, step, k);
  }

  /** Chunk `i` is exactly `text[i*step : min(i*step + chunkSize, len(text))]`,
      hence non-empty and at most `chunkSize` long. */
  lemma ChunkAt(text: string, chunkSize: int, overlap: int, i: nat)
    requires 0 < chunkSize && overlap < chunkSize
    requires i < |Chunking(text, chunkSize, overlap)|
    ensures var a := i * (chunkSize - overlap);
      0 <= a < |text| &&
      Chunking(text, chunkSize, overlap)[i] == text[a..Min(a + chunkSize, |text|)] &&
      0 < |Chunking(text, chunkSize, overlap)[i]| <= chunkSize
  {
    ChunksFromAt(text, chunkSize, overlap, 0, i);
    CursorAdvances(chunkSize - overlap, i);
  }

  /** With a non-negative overlap the last chunk ends at the end of the text. */
  lemma LastChunkReachesEnd(text: string, chunkSize: int, overlap: int)
    requires 0 <= overlap < chunkSize && text != []
    ensures var chunks := Chunking(text, chunkSize, overlap);
      |chunks| > 0 && 0 <= (|chunks| - 1) * (chunkSize - overlap) < |text| &&
      chunks[|chunks| - 1] == text[(|chunks| - 1) * (chunkSize - overlap)..]
  {
    var chunks := Chunking(text, chunkSize, overlap);
    var step := chunkSize - overlap;
    ChunksFromCount(text, chunkSize, overlap, 0);
    var k := |chunks|;
    ChunksFromAt(text, chunkSize, overlap, 0, k - 1);
    CursorAdvances(step, k - 1);
  }

  /** Consecutive chunks agree on their overlap: what chunk `i` holds past its
      first `step` characters is the prefix of chunk `i + 1` of that length. */
  lemma ChunksOverlap(text: string, chunkSize: int, overlap: int, i: nat)
    requires 0 <= overlap < chunkSize
    requires i + 1 < |Chunking(text, chunkSize, overlap)|
    ensures var chunks, step := Chunking(text, chunkSize, overlap), chunkSize - overlap;
      step <= |chunks[i]| && |chunks[i]| - step <= |chunks[i + 1]| &&
      chunks[i][step..] == chunks[i + 1][..|chunks[i]| - step]
  {
    ChunksFromOverlap(text, chunkSize, overlap, 0, i);
  }

  lemma {:induction false} ChunksFromOverlap(text: string, chunkSize: int, overlap: int, start: nat, i: nat)
    requires 0 <= overlap < chunkSize
    requires i + 1 < |ChunksFrom(text, chunkSize, overlap, start)|
    ensures var chunks, step := ChunksFrom(text, chunkSize, overlap, start), chunkSize - overlap;
      step <= |chunks[i]| && |chunks[i]| - step <= |chunks[i + 1]| &&
      chunks[i][step..] == chunks[i + 1][..|chunks[i]| - step]
    decreases i
  {
    var step := chunkSize - overlap;
    var chunks := ChunksFrom(text, chunkSize, overlap, start);
    var rest := ChunksFrom(text, chunkSize, overlap, start + step);
    assert chunks[1..] == rest;
    if i == 0 {
      assert rest != [] && start + step < |text|;
      assert chunks[0] == text[start..Min(start + chunkSize, |text|)];
      assert rest[0] == text[start + step..Min(start + step + chunkSize, |text|)];
      WindowsOverlap(text, start, step, chunkSize);
    } else {
      ChunksFromOverlap(text, chunkSize, overlap, start + step, i - 1);
      assert chunks[i] == rest[i - 1] && chunks[i + 1] == rest[i];
    }
  }

  /** Two windows of width `width` that start `step <= width` apart, the
      second still inside the text, share the text between them. */
  lemma WindowsOverlap(text: string, a: nat, step: int, width: int)
    requires 0 < step <= width && a + step < |text|
    ensures var w, w' := text[a..Min(a + width, |text|)], text[a + step..Min(a + step + width, |text|)];
      step <= |w| && |w| - step <= |w'| && w[step..] == w'[..|w| - step]
  {
    var e, e' := Min(a + width, |text|), Min(a + step + width, |text|);
    assert text[a..e][step..] == text[a + step..e];
    assert text[a + step..e'][..e - a - step] == text[a + step..e];
  }

  /** The first `min(step, len(chunk))` characters of every chunk, concatenated:
      the part each window contributes before the next one starts. */
  function Stitch(chunks: seq<string>, step: int): string
  {
    if chunks == [] then []
    else chunks[0][..Min(if step < 0 then 0 else step, |chunks[0]|)] + Stitch(chunks[1..], step)
  }

  lemma {:induction false} StitchFrom(text: string, chunkSize: int, overlap: int, start: nat)
    requires 0 <= overlap < chunkSize && start <= |text|
    ensures Stitch(ChunksFrom(text, chunkSize, overlap, start), chunkSize - overlap) == text[start..]
    decreases |text| - start
  {
    var step := chunkSize - overlap;
    if start < |text| {
      var next := start + step;
      var chunks := ChunksFrom(text, chunkSize, overlap, start);
      assert chunks[1..] == ChunksFrom(text, chunkSize, overlap, next);
      assert chunks[0] == text[start..Min(start + chunkSize, |text|)];
      assert chunks[0][..Min(step, |chunks[0]|)] == text[start..Min(next, |text|)];
      assert Stitch(chunks, step) == chunks[0][..Min(step, |chunks[0]|)] + Stitch(chunks[1..], step);
      if next < |text| {
        StitchFrom(text, chunkSize, overlap, next);
        assert text[start..next] + text[next..] == text[start..];
      } else {
        assert ChunksFrom(text, chunkSize, overlap, next) == [];
      }
    }
  }

  /** Lossless reconstruction: with `0 <= overlap < chunkSize` the windows,
      each cut to the part before the next one starts, give back the text. */
  lemma ChunkingReconstructs(text: string, chunkSize: int, overlap: int)
    requires 0 <= overlap < chunkSize
    ensures Stitch(Chunking(text, chunkSize, overlap), chunkSize - overlap) == text
  {
    StitchFrom(text, chunkSize, overlap, 0);
  }

  /** With the defaults 500/100 a 1200-character text gives three chunks of
      lengths 500, 500 and 400 at offsets 0, 400 and 800: the last window
      starts at 800 and runs to the end of the text. */
  lemma DefaultsOn1200Chars(text: string)
    requires |text| == 1200
    ensures var chunks := Chunking(text, ChunkSize, ChunkOverlap);
      |chunks| == 3 &&
      chunks[0] == text[0..500] && chunks[1] == text[400..900] && chunks[2] == text[800..1200] &&
      |chunks[0]| == 500 && |chunks[1]| == 500 && |chunks[2]| == 400
  {
    ChunkCount(text, ChunkSize, ChunkOverlap);
    ChunkAt(text, ChunkSize, ChunkOverlap, 0);
    ChunkAt(text, ChunkSize, ChunkOverlap, 1);
    ChunkAt(text, ChunkSize, ChunkOverlap, 2);
  }

  /** With the defaults a 450-character text gives two chunks: the whole text
      and then `text[400:450]`, which lies wholly inside the first. The count
      `ceil((n - overlap) / step)` would be 1 here. */
  lemma DefaultsOn450Chars(text: string)
    requires |text| == 450
    ensures var chunks := Chunking(text, ChunkSize, ChunkOverlap);
      |chunks| == 2 && chunks[0] == text && chunks[1] == text[400..] && chunks[1] == chunks[0][400..]
    ensures CeilDiv(450 - ChunkOverlap, ChunkSize - ChunkOverlap) == 1
  {
    ChunkCount(text, ChunkSize, ChunkOverlap);
    ChunkAt(text, ChunkSize, ChunkOverlap, 0);
    ChunkAt(text, ChunkSize, ChunkOverlap, 1);
  }

  /** With `overlap >= chunkSize` and a non-empty text the loop condition
      `start < len(text)` holds after every number of turns: the loop never
      stops. */
  lemma {:induction false} NonPositiveStepNeverStops(text: string, chunkSize: int, overlap: int, k: nat)
    requires text != [] && chunkSize <= overlap
    ensures CursorAfter(chunkSize - overlap, k) <= 0 < |text|
  {
    if k > 0 {
      NonPositiveStepNeverStops(text, chunkSize, overlap, k - 1);
    }
  }

  // ---------------------------------------------------------------------
  // Record batch of ingest_pdf
  // ---------------------------------------------------------------------

  /** The column-wise batch `ingest_pdf` inserts: ids, vectors, texts and
      source-file names, one row per chunk. `V` stands for an embedding. */
  datatype RecordBatch<V> = RecordBatch(ids: seq<string>, vectors: seq<V>, texts: seq<string>, sourceFiles: seq<string>)

  /** The batch of rag.py:73-77. `uuidAt(k)` is the k-th identifier `uuid4`
      produces and `embed` the embedding model, both external. */
  function BuildRecordBatch<V>(chunks: seq<string>, uuidAt: nat -> string, embed: string -> V, baseName: string): (b: RecordBatch<V>)
    ensures |b.ids| == |b.vectors| == |b.texts| == |b.sourceFiles| == |chunks|
    ensures b.texts == chunks
    ensures forall k :: 0 <= k < |chunks| ==>
      b.ids[k] == uuidAt(k) && b.vectors[k] == embed(chunks[k]) && b.sourceFiles[k] == baseName
  {
    RecordBatch(
      seq(|chunks|, k requires 0 <= k => uuidAt(k)),
      seq(|chunks|, k requires 0 <= k < |chunks| => embed(chunks[k])),
      chunks,
      seq(|chunks|, _ => baseName))
  }

  /** What `ingest_pdf` stores for an extracted text under the default
      configuration: `ceil(len(text) / 400)` rows, each text non-empty and at
      most 500 characters (within the 2048 of the `text` field), all under the
      same source name, and the texts give back the whole document. */
  lemma IngestBatchFaithful<V>(text: string, uuidAt: nat -> string, embed: string -> V, baseName: string)
    ensures var b := BuildRecordBatch(Chunking(text, ChunkSize, ChunkOverlap), uuidAt, embed, baseName);
      |b.ids| == CeilDiv(|text|, ChunkSize - ChunkOverlap) &&
      (forall k :: 0 <= k < |b.texts| ==> 0 < |b.texts[k]| <= ChunkSize <= TextMaxLength) &&
      (forall k :: 0 <= k < |b.sourceFiles| ==> b.sourceFiles[k] == baseName) &&
      Stitch(b.texts, ChunkSize - ChunkOverlap) == text
  {
    var chunks := Chunking(text, ChunkSize, ChunkOverlap);
    ChunkCount(text, ChunkSize, ChunkOverlap);
    forall k | 0 <= k < |chunks| ensures 0 < |chunks[k]| <= ChunkSize {
      ChunkAt(text, ChunkSize, ChunkOverlap, k);
    }
    ChunkingReconstructs(text, ChunkSize, ChunkOverlap);
  }

  // ---------------------------------------------------------------------
  // Prompt assembly and the chat turn
  // ---------------------------------------------------------------------

  /** Separator between retrieved texts (rag.py:92). */
  const ContextSeparator := "\n\n"

  /** The context `retrieve_context` returns for the texts of the hits, in
      the order the store returned them. */
  function ContextOf(hits: seq<string>): string
  {
    Join(ContextSeparator, hits)
  }

  /** No hits give an empty context. */
  lemma ContextOfNoHits()
    ensures ContextOf([]) == ""
  {
  }

  /** Hit `i` appears verbatim in the context at its offset, after the
      texts of the hits before it and their separators. */
  lemma ContextKeepsHitOrder(hits: seq<string>, i: nat)
    requires i < |hits|
    ensures JoinOffset(ContextSeparator, hits, i) + |hits[i]| <= |ContextOf(hits)|
    ensures ContextOf(hits)[JoinOffset(ContextSeparator, hits, i)..JoinOffset(ContextSeparator, hits, i) + |hits[i]|] == hits[i]
    ensures i + 1 < |hits| ==>
      JoinOffset(ContextSeparator, hits, i + 1) == JoinOffset(ContextSeparator, hits, i) + |hits[i]| + 2 &&
      JoinOffset(ContextSeparator, hits, i + 1) <= |ContextOf(hits)| &&
      ContextOf(hits)[JoinOffset(ContextSeparator, hits, i) + |hits[i]|..JoinOffset(ContextSeparator, hits, i + 1)] == ContextSeparator
    ensures i + 1 == |hits| ==> JoinOffset(ContextSeparator, hits, i) + |hits[i]| == |ContextOf(hits)|
  {
    JoinPartAt(ContextSeparator, hits, i);
    if i + 1 < |hits| {
      JoinSeparatorAt(ContextSeparator, hits, i);
    }
  }

  /** The fixed instruction that opens every prompt (rag.py:106-107). */
  const Instruction := "You are a helpful AI assistant. Use the context to answer questions. "
                     + "If you don't know the answer, just say so. Do not hallucinate.\n\n"
  const ContextLabel := "Context:\n"
  const UserLabel := "\n\nUser: "

  /** The prompt of rag.py:105-109: the instruction, "Context:\n", the
      context, "\n\nUser: " and the message, each found at its own place. */
  function Prompt(context: string, message: string): (p: string)
    ensures var c := |Instruction| + |ContextLabel|;
      |p| == c + |context| + |UserLabel| + |message| &&
      p[..|Instruction|] == Instruction &&
      p[|Instruction|..c] == ContextLabel &&
      p[c..c + |context|] == context &&
      p[c + |context|..c + |context| + |UserLabel|] == UserLabel &&
      p[c + |context| + |UserLabel|..] == message
  {
    Instruction + ContextLabel + context + UserLabel + message
  }

  /** What the language model does with a prompt: text, or an exception whose
      `str(e)` is `error` (raised by `generate_content` or `response.text`). */
  datatype Generation = Generated(text: string) | GenerationFailed(error: string)

  const ErrorPrefix := "Error: "

  /** The string `Chatbot.chat` returns for a generation outcome
      (rag.py:110-114): the text itself, or the exception wrapped in band. */
  function ReplyText(g: Generation): (r: string)
    ensures g.Generated? ==> r == g.text
    ensures g.GenerationFailed? ==> |r| >= |ErrorPrefix| && r[..|ErrorPrefix|] == ErrorPrefix && r[|ErrorPrefix|..] == g.error
  {
    match g
    case Generated(text) => text
    case GenerationFailed(error) => ErrorPrefix + error
  }

  /** A caller cannot tell a failure from an answer that happens to start
      with "Error: ": the two replies below are the same string. */
  lemma InBandErrorIsAmbiguous(error: string)
    ensures ReplyText(Generated(ErrorPrefix + error)) == ReplyText(GenerationFailed(error))
  {
  }

  /** One turn of `Chatbot.chat` (rag.py:103-114). `retrieval` is the outcome
      of embedding the message and searching the store: its failure is outside
      the `try` and propagates. `generate` is the language model. */
  function Chat(message: string, retrieval: Outcome<seq<string>>, generate: string -> Generation): (r: Outcome<string>)
    ensures retrieval.Raised? ==> r == Raised(retrieval.error)
    ensures retrieval.Returned? ==>
      var g := generate(Prompt(ContextOf(retrieval.value), message));
      r.Returned? &&
      (g.Generated? ==> r.value == g.text) &&
      (g.GenerationFailed? ==> |r.value| >= |ErrorPrefix| && r.value[..|ErrorPrefix|] == ErrorPrefix && r.value[|ErrorPrefix|..] == g.error)
  {
    match retrieval
    case Raised(error) => Raised(error)
    case Returned(hits) => Returned(ReplyText(generate(Prompt(ContextOf(hits), message))))
  }
}
