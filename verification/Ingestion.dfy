/**
 Ingesting documents: reading a file into blocks, chunking, embedding in batches, and replacing the stored
 document under the checksum of its bytes and of the index pipeline.
 */
module Ingestion {
  import opened Wrappers
  import opened TextTools
  import opened MarkdownParser
  import opened Chunking
  import opened KnowledgeStore

  /** The provider's batch call. */
  type Embedder = seq<string> -> Result<seq<Vector>, string>

  // ----- Batches -----

  function Contents(chunks: seq<Chunk>): seq<string> {
    seq(|chunks|, i requires 0 <= i < |chunks| => chunks[i].content)
  }

  function WithEmbeddings(chunks: seq<Chunk>, vectors: seq<Vector>, model: string): seq<Draft>
    requires |vectors| == |chunks|
  {
    seq(|chunks|, i requires 0 <= i < |chunks| => Draft(chunks[i], Some(Embedding(vectors[i], model))))
  }

  function EmbedBatch(chunks: seq<Chunk>, embed: Embedder, model: string): Result<seq<Draft>, IngestError> {
    var vectors := embed(Contents(chunks));
    if vectors.Failure? then Failure(ProviderFailed(vectors.error))
    else if |vectors.value| != |chunks| then Failure(CountMismatch)
    else Success(WithEmbeddings(chunks, vectors.value, model))
  }

  /** Batch after batch; the first error ends it. */
  function EmbedBatches(chunks: seq<Chunk>, embed: Embedder, model: string, size: nat): Result<seq<Draft>, IngestError>
    requires size >= 1
    decreases |chunks|
  {
    if chunks == [] then Success([]) else
    var n := if size < |chunks| then size else |chunks|;
    var first := EmbedBatch(chunks[..n], embed, model);
    if first.Failure? then first else
    var rest := EmbedBatches(chunks[n..], embed, model, size);
    if rest.Failure? then rest else Success(first.value + rest.value)
  }

  /** What the batching loop computes: a negative batch size embeds nothing. */
  function EmbedAll(chunks: seq<Chunk>, embed: Embedder, model: string, batchSize: int): Result<seq<Draft>, IngestError> {
    if batchSize == 0 then Failure(BadBatchSize)
    else if batchSize < 0 then Success([])
    else EmbedBatches(chunks, embed, model, batchSize)
  }

  /** What is embedded so far, put before the outcome of the rest. */
  function After(embedded: seq<Draft>, rest: Result<seq<Draft>, IngestError>): Result<seq<Draft>, IngestError> {
    if rest.Failure? then rest else Success(embedded + rest.value)
  }

  lemma NextBatch(embedded: seq<Draft>, chunks: seq<Chunk>, embed: Embedder, model: string, size: nat)
    requires size >= 1 && chunks != []
    ensures var n := if size < |chunks| then size else |chunks|;
            var first := EmbedBatch(chunks[..n], embed, model);
            After(embedded, EmbedBatches(chunks, embed, model, size))
            == if first.Failure? then first
               else After(embedded + first.value, EmbedBatches(chunks[n..], embed, model, size))
  {
    hide EmbedBatch;
    var n := if size < |chunks| then size else |chunks|;
    var first := EmbedBatch(chunks[..n], embed, model);
    var rest := EmbedBatches(chunks[n..], embed, model, size);
    if first.Success? && rest.Success? { Regroup(embedded, first.value, rest.value); }
  }

  method EmbedDrafts(chunks: seq<Chunk>, embed: Embedder, model: string, batchSize: int)
    returns (r: Result<seq<Draft>, IngestError>)
    ensures r == EmbedAll(chunks, embed, model, batchSize)
  {
    hide EmbedBatches, WithEmbeddings;
    if batchSize == 0 { return Failure(BadBatchSize); }
    var embedded: seq<Draft> := [];
    var offset := 0;
    if batchSize > 0 { NothingYet(chunks, embed, model, batchSize); }
    while batchSize > 0 && offset < |chunks|
      invariant 0 <= offset <= |chunks| && (batchSize < 0 ==> embedded == [])
      invariant batchSize > 0 ==>
                  EmbedBatches(chunks, embed, model, batchSize)
                  == After(embedded, EmbedBatches(chunks[offset..], embed, model, batchSize))
      decreases |chunks| - offset
    {
      var stop := if offset + batchSize < |chunks| then offset + batchSize else |chunks|;
      var batch := chunks[offset..stop];
      assert batch == chunks[offset..][..stop - offset] && chunks[offset..][stop - offset..] == chunks[stop..];
      NextBatch(embedded, chunks[offset..], embed, model, batchSize);
      var vectors := embed(Contents(batch));
      if vectors.Failure? { return Failure(ProviderFailed(vectors.error)); }
      if |vectors.value| != |batch| { return Failure(CountMismatch); }
      embedded := embedded + WithEmbeddings(batch, vectors.value, model);
      offset := stop;
    }
    if batchSize > 0 { NothingLeft(embedded, chunks, embed, model, batchSize); }
    return Success(embedded);
  }

  lemma NothingYet(chunks: seq<Chunk>, embed: Embedder, model: string, size: nat)
    requires size >= 1
    ensures EmbedBatches(chunks, embed, model, size) == After([], EmbedBatches(chunks[0..], embed, model, size))
  {
    assert chunks[0..] == chunks;
    var all := EmbedBatches(chunks, embed, model, size);
    if all.Success? { assert [] + all.value == all.value; }
  }

  lemma NothingLeft(embedded: seq<Draft>, chunks: seq<Chunk>, embed: Embedder, model: string, size: nat)
    requires size >= 1
    ensures After(embedded, EmbedBatches(chunks[|chunks|..], embed, model, size)) == Success(embedded)
  {
    assert embedded + [] == embedded;
  }

  /** A provider that embeds each text on its own. */
  ghost predicate Pointwise(embed: Embedder, one: string -> Vector) {
    forall texts :: embed(texts) == Success(seq(|texts|, i requires 0 <= i < |texts| => one(texts[i])))
  }

  function EmbedEach(chunks: seq<Chunk>, one: string -> Vector, model: string): seq<Draft> {
    seq(|chunks|, i requires 0 <= i < |chunks| => Draft(chunks[i], Some(Embedding(one(chunks[i].content), model))))
  }

  lemma BatchIsPointwise(chunks: seq<Chunk>, embed: Embedder, one: string -> Vector, model: string)
    requires Pointwise(embed, one)
    ensures EmbedBatch(chunks, embed, model) == Success(EmbedEach(chunks, one, model))
  {
    var texts := Contents(chunks);
    assert embed(texts) == Success(seq(|texts|, i requires 0 <= i < |texts| => one(texts[i])));
    assert EmbedBatch(chunks, embed, model).value == EmbedEach(chunks, one, model);
  }

  lemma NothingToEmbed(one: string -> Vector, model: string)
    ensures EmbedEach([], one, model) == []
  {
  }

  lemma EmbedInParts(chunks: seq<Chunk>, n: nat, one: string -> Vector, model: string)
    requires n <= |chunks|
    ensures EmbedEach(chunks[..n], one, model) + EmbedEach(chunks[n..], one, model) == EmbedEach(chunks, one, model)
  {
  }

  /** With such a provider the batch size does not matter: chunk i gets the vector of its own text. */
  lemma BatchingIsInvisible(chunks: seq<Chunk>, embed: Embedder, one: string -> Vector, model: string, size: nat)
    requires size >= 1 && Pointwise(embed, one)
    ensures var r := EmbedBatches(chunks, embed, model, size);
            && r.Success? && |r.value| == |chunks|
            && forall i :: 0 <= i < |chunks| ==>
                 && r.value[i].chunk == chunks[i]
                 && r.value[i].embedding == Some(Embedding(one(chunks[i].content), model))
  {
    BatchesEmbedEach(chunks, embed, one, model, size);
  }

  lemma {:induction false} BatchesEmbedEach(chunks: seq<Chunk>, embed: Embedder, one: string -> Vector, model: string,
                                            size: nat)
    requires size >= 1 && Pointwise(embed, one)
    ensures EmbedBatches(chunks, embed, model, size) == Success(EmbedEach(chunks, one, model))
    decreases |chunks|
  {
    hide EmbedBatch, EmbedEach, Pointwise;
    if chunks == [] {
      NothingToEmbed(one, model);
    } else {
      var n := if size < |chunks| then size else |chunks|;
      BatchesEmbedEach(chunks[n..], embed, one, model, size);
      BatchIsPointwise(chunks[..n], embed, one, model);
      EmbedInParts(chunks, n, one, model);
    }
  }

  /** Batch k: `size` chunks from the k-th multiple of the size on, fewer at the end, none behind it. */
  function BatchAt(chunks: seq<Chunk>, size: nat, k: nat): seq<Chunk> {
    var from := k * size;
    if from >= |chunks| then [] else if from + size <= |chunks| then chunks[from..from + size] else chunks[from..]
  }

  /** The provider answers a batch with a vector for each text. */
  predicate Answered(embed: Embedder, batch: seq<Chunk>) {
    var vectors := embed(Contents(batch));
    vectors.Success? && |vectors.value| == |batch|
  }

  function WhyNot(embed: Embedder, batch: seq<Chunk>): IngestError {
    var vectors := embed(Contents(batch));
    if vectors.Failure? then ProviderFailed(vectors.error) else CountMismatch
  }

  /** The error is that of batch k, the first one left unanswered. */
  ghost predicate StopsAt(chunks: seq<Chunk>, embed: Embedder, size: nat, k: nat, error: IngestError) {
    && BatchAt(chunks, size, k) != [] && !Answered(embed, BatchAt(chunks, size, k))
    && error == WhyNot(embed, BatchAt(chunks, size, k))
    && forall j: nat :: j < k ==> Answered(embed, BatchAt(chunks, size, j))
  }

  /** Chunk j of batch k goes out with vector j of the answer to batch k. */
  predicate GoesOut(chunks: seq<Chunk>, embed: Embedder, model: string, size: nat, drafts: seq<Draft>, k: nat, j: nat) {
    var batch := BatchAt(chunks, size, k);
    j < |batch| && Answered(embed, batch) ==>
      k * size + j < |drafts|
      && drafts[k * size + j] == Draft(batch[j], Some(Embedding(embed(Contents(batch)).value[j], model)))
  }

  lemma LaterBatch(chunks: seq<Chunk>, size: nat, k: nat)
    requires 1 <= size
    ensures BatchAt(chunks, size, k + 1) == if size < |chunks| then BatchAt(chunks[size..], size, k) else []
    ensures (k + 1) * size == k * size + size
  {
  }

  lemma FirstBatch(chunks: seq<Chunk>, size: nat)
    ensures BatchAt(chunks, size, 0) == chunks[..if size < |chunks| then size else |chunks|]
  {
  }

  /** For any provider: all goes out exactly when every batch is answered, each chunk with its own vector;
      otherwise the first batch left unanswered gives the error. */
  lemma {:induction false} EachBatchIsAsked(chunks: seq<Chunk>, embed: Embedder, model: string, size: nat)
    requires size >= 1
    ensures var r := EmbedBatches(chunks, embed, model, size);
            && (r.Success? ==>
                  && |r.value| == |chunks|
                  && (forall k: nat :: BatchAt(chunks, size, k) != [] ==> Answered(embed, BatchAt(chunks, size, k)))
                  && (forall k: nat, j: nat :: GoesOut(chunks, embed, model, size, r.value, k, j)))
            && (r.Failure? ==> exists k: nat :: StopsAt(chunks, embed, size, k, r.error))
    decreases |chunks|
  {
    hide BatchAt, Answered, EmbedBatch, GoesOut, StopsAt;
    if chunks == [] {
      NothingGoesOut(embed, model, size);
    } else {
      var n := if size < |chunks| then size else |chunks|;
      FirstBatch(chunks, size);
      FirstGoesOut(chunks[..n], embed, model);
      var r, first := EmbedBatches(chunks, embed, model, size), EmbedBatch(chunks[..n], embed, model);
      if first.Failure? {
        StopsAtOnce(chunks, embed, size, r.error);
      } else {
        EachBatchIsAsked(chunks[n..], embed, model, size);
        var rest := EmbedBatches(chunks[n..], embed, model, size);
        if rest.Failure? {
          var k: nat :| StopsAt(chunks[n..], embed, size, k, rest.error);
          AnErrorComesOfSomething(chunks[n..], embed, size, k, rest.error);
          StopsLater(chunks, embed, size, k, rest.error);
        } else {
          AllGoesOut(chunks, embed, model, size, first.value, rest.value);
        }
      }
    }
  }

  lemma NothingGoesOut(embed: Embedder, model: string, size: nat)
    ensures forall k: nat :: BatchAt([], size, k) == []
    ensures forall k: nat, j: nat :: GoesOut([], embed, model, size, [], k, j)
  {
  }

  lemma FirstGoesOut(batch: seq<Chunk>, embed: Embedder, model: string)
    ensures var first := EmbedBatch(batch, embed, model);
            && (first.Success? <==> Answered(embed, batch))
            && (first.Failure? ==> first.error == WhyNot(embed, batch))
            && (first.Success? ==>
                  && |first.value| == |batch|
                  && forall j :: 0 <= j < |batch| ==>
                       first.value[j] == Draft(batch[j], Some(Embedding(embed(Contents(batch)).value[j], model))))
  {
  }

  lemma StopsAtOnce(chunks: seq<Chunk>, embed: Embedder, size: nat, error: IngestError)
    requires BatchAt(chunks, size, 0) != [] && !Answered(embed, BatchAt(chunks, size, 0))
    requires error == WhyNot(embed, BatchAt(chunks, size, 0))
    ensures StopsAt(chunks, embed, size, 0, error)
  {
  }

  lemma AnErrorComesOfSomething(chunks: seq<Chunk>, embed: Embedder, size: nat, k: nat, error: IngestError)
    requires StopsAt(chunks, embed, size, k, error)
    ensures chunks != []
  {
  }

  lemma AllGoesOut(chunks: seq<Chunk>, embed: Embedder, model: string, size: nat, first: seq<Draft>, rest: seq<Draft>)
    requires size >= 1 && chunks != []
    requires var n, batch := if size < |chunks| then size else |chunks|, BatchAt(chunks, size, 0);
             && Answered(embed, batch) && |batch| == n == |first|
             && (forall j :: 0 <= j < n ==>
                   first[j] == Draft(batch[j], Some(Embedding(embed(Contents(batch)).value[j], model))))
             && (forall k: nat :: BatchAt(chunks[n..], size, k) != [] ==> Answered(embed, BatchAt(chunks[n..], size, k)))
             && (forall k: nat, j: nat :: GoesOut(chunks[n..], embed, model, size, rest, k, j))
    ensures forall k: nat :: BatchAt(chunks, size, k) != [] ==> Answered(embed, BatchAt(chunks, size, k))
    ensures forall k: nat, j: nat :: GoesOut(chunks, embed, model, size, first + rest, k, j)
  {
    hide BatchAt, Answered, Contents;
    forall k: nat | BatchAt(chunks, size, k) != [] ensures Answered(embed, BatchAt(chunks, size, k)) {
      if k > 0 { LaterBatch(chunks, size, k - 1); }
    }
    forall k: nat, j: nat ensures GoesOut(chunks, embed, model, size, first + rest, k, j) {
      if k > 0 {
        LaterBatch(chunks, size, k - 1);
        if size < |chunks| { assert GoesOut(chunks[size..], embed, model, size, rest, k - 1, j); }
      }
    }
  }

  lemma StopsLater(chunks: seq<Chunk>, embed: Embedder, size: nat, k: nat, error: IngestError)
    requires 1 <= size < |chunks| && StopsAt(chunks[size..], embed, size, k, error)
    requires Answered(embed, BatchAt(chunks, size, 0))
    ensures StopsAt(chunks, embed, size, k + 1, error)
  {
    hide BatchAt, Answered;
    LaterBatch(chunks, size, k);
    forall j: nat | j < k + 1 ensures Answered(embed, BatchAt(chunks, size, j)) {
      if j > 0 { LaterBatch(chunks, size, j - 1); }
    }
  }

  // ----- The checksum -----

  /** Pipeline version, model name and dimensions, joined; none of them contains a NUL. */
  type Fingerprint = s: string | forall i :: 0 <= i < |s| ==> s[i] != '\0' witness ""

  /** A document's bytes and the fingerprint of the index pipeline. */
  datatype Source = Source(bytes: string, fingerprint: Fingerprint)

  /** What is hashed: the bytes, a NUL, the fingerprint. */
  function Hashed(source: Source): string { source.bytes + "\0" + source.fingerprint }

  lemma LongerDiffers(a: Source, b: Source)
    requires |a.bytes| < |b.bytes|
    ensures Hashed(a) != Hashed(b)
  {
    var n := |b.bytes|;
    if n < |Hashed(a)| {
      assert Hashed(b)[n] == '\0';
      assert Hashed(a)[n] == a.fingerprint[n - |a.bytes| - 1];
    }
  }

  /** The hashed text determines both its parts, although the bytes may contain NULs themselves. */
  lemma HashedSeparates(a: Source, b: Source)
    ensures Hashed(a) == Hashed(b) <==> a == b
  {
    if Hashed(a) == Hashed(b) {
      if |a.bytes| < |b.bytes| { LongerDiffers(a, b); }
      if |b.bytes| < |a.bytes| { LongerDiffers(b, a); }
      var n := |a.bytes|;
      assert Hashed(a)[..n] == a.bytes && Hashed(b)[..n] == b.bytes;
      assert Hashed(a)[n + 1..] == a.fingerprint && Hashed(b)[n + 1..] == b.fingerprint;
    }
  }

  // ----- One document -----

  /** How a document's bytes are read: as lines of text, or as pages of a PDF; either may fail. */
  datatype Reader = Reader(lines: string -> Result<seq<string>, string>, pages: string -> Result<seq<string>, string>)

  function PageBlocks(pages: seq<string>): seq<Block> {
    seq(|pages|, i requires 0 <= i < |pages| => Block(None, Some(i + 1), pages[i]))
  }

  function BlocksOf(reader: Reader, bytes: string, kind: SourceType): Result<seq<Block>, IngestError> {
    if kind.Markdown? then
      var lines := reader.lines(bytes);
      if lines.Failure? then Failure(Unreadable(lines.error)) else Success(BlocksFrom(Classified(lines.value), 0))
    else
      var pages := reader.pages(bytes);
      if pages.Failure? then Failure(Unreadable(pages.error)) else Success(PageBlocks(pages.value))
  }

  const MAX_CHARS := 700
  const OVERLAP_CHARS := 100

  /** What one ingest has to do with: the document, the pipeline of the moment, and the provider. */
  datatype Ingest = Ingest(
    key: string, info: Info, source: Source, embed: Embedder, model: string, batchSize: int)

  function ChunksOf(blocks: seq<Block>): seq<Chunk> { Numbered(Pieces(blocks, MAX_CHARS, OVERLAP_CHARS)) }

  function Embed(i: Ingest, blocks: seq<Block>): Result<seq<Draft>, IngestError> {
    if ChunksOf(blocks) == [] then Failure(NoIndexableText)
    else EmbedAll(ChunksOf(blocks), i.embed, i.model, i.batchSize)
  }

  function DraftsOf(reader: Reader, i: Ingest): Result<seq<Draft>, IngestError> {
    var blocks := BlocksOf(reader, i.source.bytes, i.info.sourceType);
    if blocks.Failure? then Failure(blocks.error) else Embed(i, blocks.value)
  }

  function IngestOne(reader: Reader, hash: string -> string, s: Store, i: Ingest): (Store, Result<Document, IngestError>) {
    var drafts := DraftsOf(reader, i);
    if drafts.Failure? then (s, Failure(drafts.error))
    else Replace(s, i.key, i.info, hash(Hashed(i.source)), drafts.value)
  }

  class DocumentIngestionService {
    const repository: KnowledgeRepository
    const reader: Reader
    const hash: string -> string

    constructor (repository: KnowledgeRepository, reader: Reader, hash: string -> string)
      ensures this.repository == repository && this.reader == reader && this.hash == hash
    {
      this.repository, this.reader, this.hash := repository, reader, hash;
    }

    /** Either kind of document, read into blocks and handed on. */
    method IngestDocument(i: Ingest) returns (r: Result<Document, IngestError>)
      modifies repository
      ensures (repository.View(), r) == IngestOne(reader, hash, old(repository.View()), i)
    {
      hide BlocksFrom, Classified, Replace, Hashed, Embed;
      var blocks: seq<Block>;
      if i.info.sourceType.Markdown? {
        var lines := reader.lines(i.source.bytes);
        if lines.Failure? { return Failure(Unreadable(lines.error)); }
        blocks := ParseMarkdown(lines.value);
      } else {
        var pages := reader.pages(i.source.bytes);
        if pages.Failure? { return Failure(Unreadable(pages.error)); }
        blocks := [];
        for n := 0 to |pages.value|
          invariant blocks == PageBlocks(pages.value[..n])
        {
          blocks := blocks + [Block(None, Some(n + 1), pages.value[n])];
        }
        assert pages.value[..|pages.value|] == pages.value;
      }
      r := IngestBlocks(i, blocks);
    }

    method IngestBlocks(i: Ingest, blocks: seq<Block>) returns (r: Result<Document, IngestError>)
      modifies repository
      ensures (repository.View(), r)
              == if Embed(i, blocks).Failure? then (old(repository.View()), Failure(Embed(i, blocks).error))
                 else Replace(old(repository.View()), i.key, i.info, hash(Hashed(i.source)), Embed(i, blocks).value)
    {
      hide Pieces, Numbered, EmbedAll, Replace, Hashed;
      var drafts := ChunkBlocks(blocks, MAX_CHARS, OVERLAP_CHARS);
      if drafts.value == [] { return Failure(NoIndexableText); }
      var embedded := EmbedDrafts(drafts.value, i.embed, i.model, i.batchSize);
      if embedded.Failure? { return Failure(embedded.error); }
      r := repository.ReplaceDocument(i.key, i.info, hash(Hashed(i.source)), embedded.value);
    }
  }

  // ----- Runs of ingestion -----

  /** A reader and a hash; the hash is taken as injective. */
  datatype Pipeline = Pipeline(reader: Reader, hash: string -> string) {
    function Checksum(i: Ingest): string { hash(Hashed(i.source)) }
  }

  ghost predicate PipelineOk(p: Pipeline) {
    forall s, t :: p.hash(s) == p.hash(t) ==> s == t
  }

  /** The ingest reaches the repository. */
  predicate Taken(p: Pipeline, i: Ingest) { DraftsOf(p.reader, i).Success? }

  function IngestAll(p: Pipeline, ingests: seq<Ingest>): Store {
    if ingests == [] then Store(map[], map[], 0)
    else IngestOne(p.reader, p.hash, IngestAll(p, ingests[..|ingests| - 1]), ingests[|ingests| - 1]).0
  }

  /** The latest ingest of a key that was taken. */
  function Latest(p: Pipeline, ingests: seq<Ingest>, key: string): Option<Ingest> {
    if ingests == [] then None else
    var last := ingests[|ingests| - 1];
    if last.key == key && Taken(p, last) then Some(last) else Latest(p, ingests[..|ingests| - 1], key)
  }

  /** A taken ingest of the document and pipeline that are stored already: its rows are not used. */
  predicate Kept(p: Pipeline, before: seq<Ingest>, i: Ingest) {
    var latest := Latest(p, before, i.key);
    Taken(p, i) && latest.Some? && latest.value.source == i.source
  }

  /** The ingest whose rows are stored: the latest taken one that was not kept. */
  function Storing(p: Pipeline, ingests: seq<Ingest>, key: string): Option<Ingest> {
    if ingests == [] then None else
    var before, last := ingests[..|ingests| - 1], ingests[|ingests| - 1];
    if last.key == key && Taken(p, last) && !Kept(p, before, last) then Some(last) else Storing(p, before, key)
  }

  /** How often the document or pipeline of a key changed, the first time included. */
  function Changes(p: Pipeline, ingests: seq<Ingest>, key: string): nat {
    if ingests == [] then 0 else
    var before, last := ingests[..|ingests| - 1], ingests[|ingests| - 1];
    Changes(p, before, key) + if last.key == key && Taken(p, last) && !Kept(p, before, last) then 1 else 0
  }

  /** How one document stands: its rows are those of one ingest, its count and description those of another of
      the same document and pipeline. */
  predicate Stands(p: Pipeline, s: Store, key: string, storing: Ingest, latest: Ingest, version: nat) {
    && key in s.documents && Taken(p, storing) && Taken(p, latest) && storing.source == latest.source
    && s.documents[key].checksum == p.Checksum(latest) && s.documents[key].indexed
    && s.documents[key].info == latest.info
    && RowsOf(s, s.documents[key].id) == DraftsOf(p.reader, storing).value
    && s.documents[key].chunkCount == |DraftsOf(p.reader, latest).value|
    && s.documents[key].version == version
  }

  lemma {:induction false} BatchesAreEmbedded(chunks: seq<Chunk>, embed: Embedder, model: string, size: nat)
    requires size >= 1 && EmbedBatches(chunks, embed, model, size).Success?
    ensures Embedded(EmbedBatches(chunks, embed, model, size).value)
    ensures |EmbedBatches(chunks, embed, model, size).value| == |chunks|
    ensures forall i :: 0 <= i < |chunks| ==> EmbedBatches(chunks, embed, model, size).value[i].chunk == chunks[i]
    decreases |chunks|
  {
    if chunks != [] {
      var n := if size < |chunks| then size else |chunks|;
      var first := EmbedBatch(chunks[..n], embed, model);
      BatchesAreEmbedded(chunks[n..], embed, model, size);
      var rest := EmbedBatches(chunks[n..], embed, model, size);
      BatchIsEmbedded(chunks[..n], embed, model);
      assert EmbedBatches(chunks, embed, model, size).value == first.value + rest.value;
    }
  }

  lemma BatchIsEmbedded(chunks: seq<Chunk>, embed: Embedder, model: string)
    requires EmbedBatch(chunks, embed, model).Success?
    ensures Embedded(EmbedBatch(chunks, embed, model).value)
    ensures |EmbedBatch(chunks, embed, model).value| == |chunks|
    ensures forall i :: 0 <= i < |chunks| ==> EmbedBatch(chunks, embed, model).value[i].chunk == chunks[i]
  {
  }

  lemma DraftsAreEmbedded(reader: Reader, i: Ingest)
    requires DraftsOf(reader, i).Success?
    ensures Embedded(DraftsOf(reader, i).value)
  {
    hide ChunksOf, BlocksOf;
    if i.batchSize >= 1 {
      BatchesAreEmbedded(ChunksOf(BlocksOf(reader, i.source.bytes, i.info.sourceType).value), i.embed, i.model, i.batchSize);
    }
  }

  lemma IngestStands(p: Pipeline, s: Store, i: Ingest, key: string, latest: Option<Ingest>, storing: Ingest, version: nat)
    requires PipelineOk(p) && StoreOk(s) && Taken(p, i)
    requires key in s.documents <==> latest.Some?
    requires if latest.Some? then Stands(p, s, key, storing, latest.value, version) else version == 0
    ensures var s' := IngestOne(p.reader, p.hash, s, i).0;
            && StoreOk(s')
            && (i.key == key ==>
                  if latest.Some? && latest.value.source == i.source then Stands(p, s', key, storing, i, version)
                  else Stands(p, s', key, i, i, version + 1))
            && (i.key != key ==>
                  && (key in s'.documents <==> latest.Some?)
                  && (latest.Some? ==> Stands(p, s', key, storing, latest.value, version)))
  {
    hide DraftsOf, Hashed, StoreOk, Embedded, Replace;
    DraftsAreEmbedded(p.reader, i);
    ReplaceIsIdempotent(s, i.key, i.info, p.Checksum(i), DraftsOf(p.reader, i).value);
    ReplaceCounts(s, i.key, i.info, p.Checksum(i), DraftsOf(p.reader, i).value);
    if latest.Some? { HashedSeparates(latest.value.source, i.source); }
  }

  lemma ReplaceCounts(s: Store, key: string, info: Info, checksum: string, drafts: seq<Draft>)
    requires Embedded(drafts)
    ensures var r := Replace(s, key, info, checksum, drafts).1;
            r.Success? && r.value.chunkCount == |drafts| && r.value.indexed
  {
  }

  /** After any run, a document exists for exactly the keys taken in. Its checksum, description and count are
      those of the latest ingest taken, its rows those of the latest one that was not kept, which had the same
      bytes and pipeline, and its version counts the changes of bytes or pipeline. */
  lemma {:induction false} StoreFollowsIngests(p: Pipeline, ingests: seq<Ingest>, key: string)
    requires PipelineOk(p)
    ensures StoreOk(IngestAll(p, ingests))
    ensures key in IngestAll(p, ingests).documents <==> Latest(p, ingests, key).Some?
    ensures Latest(p, ingests, key).Some? ==>
              && Storing(p, ingests, key).Some?
              && Stands(p, IngestAll(p, ingests), key, Storing(p, ingests, key).value, Latest(p, ingests, key).value,
                        Changes(p, ingests, key))
    ensures Latest(p, ingests, key).None? ==> Changes(p, ingests, key) == 0
  {
    if ingests == [] {
      EmptyStoreIsOk();
    } else {
      hide StoreOk, Stands, IngestOne, PipelineOk, DraftsOf, Taken;
      var n := |ingests| - 1;
      StoreFollowsIngests(p, ingests[..n], key);
      if Taken(p, ingests[n]) {
        var storing := Storing(p, ingests[..n], key);
        IngestStands(p, IngestAll(p, ingests[..n]), ingests[n], key, Latest(p, ingests[..n], key),
                     if storing.Some? then storing.value else ingests[n], Changes(p, ingests[..n], key));
        StandsMeansStored(p, IngestAll(p, ingests), key);
      } else {
        RefusedChangesNothing(p, IngestAll(p, ingests[..n]), ingests[n]);
      }
    }
  }

  lemma EmptyStoreIsOk()
    ensures StoreOk(Store(map[], map[], 0))
  {
  }

  lemma RefusedChangesNothing(p: Pipeline, s: Store, i: Ingest)
    requires !Taken(p, i)
    ensures IngestOne(p.reader, p.hash, s, i).0 == s
  {
  }

  lemma StandsMeansStored(p: Pipeline, s: Store, key: string)
    ensures forall storing, latest, version :: Stands(p, s, key, storing, latest, version) ==> key in s.documents
  {
  }

  // ----- The text and its rows -----

  /** The text of a document's pages, each under its number, from 1 on. */
  function TaggedPages(pages: seq<string>): seq<Tagged> {
    if pages == [] then []
    else TaggedPages(pages[..|pages| - 1]) + Tag(Spelled(pages[|pages| - 1], true), None, Some(|pages|))
  }

  lemma {:induction false} PagesKeepTheirNumbers(pages: seq<string>)
    ensures TaggedBlocks(PageBlocks(pages)) == TaggedPages(pages)
  {
    if pages != [] {
      hide Spelled, Tag;
      var n := |pages| - 1;
      PagesKeepTheirNumbers(pages[..n]);
      assert PageBlocks(pages) == PageBlocks(pages[..n]) + [Block(None, Some(n + 1), pages[n])];
      TaggedBlocksAppend(PageBlocks(pages[..n]), Block(None, Some(n + 1), pages[n]));
    }
  }

  /** What a document says: the characters and gaps of its text lines under their headings and page markers, or
      of its pages under their numbers. */
  function TextOf(reader: Reader, bytes: string, kind: SourceType): Result<seq<Tagged>, string> {
    if kind.Markdown? then
      var lines := reader.lines(bytes);
      if lines.Failure? then Failure(lines.error) else Success(TaggedLines(Classified(lines.value), 0))
    else
      var pages := reader.pages(bytes);
      if pages.Failure? then Failure(pages.error) else Success(TaggedPages(pages.value))
  }

  lemma BlocksHoldTheText(reader: Reader, bytes: string, kind: SourceType)
    ensures var text, blocks := TextOf(reader, bytes, kind), BlocksOf(reader, bytes, kind);
            && (text.Failure? ==> blocks == Failure(Unreadable(text.error)))
            && (text.Success? ==> blocks.Success? && TaggedBlocks(blocks.value) == text.value)
  {
    hide TaggedBlocks, TaggedLines, TaggedPages, Classified, BlocksFrom, PageBlocks;
    if kind.Markdown? && reader.lines(bytes).Success? { BlocksConserve(Classified(reader.lines(bytes).value), 0); }
    if kind.Pdf? && reader.pages(bytes).Success? { PagesKeepTheirNumbers(reader.pages(bytes).value); }
  }

  function ChunksIn(drafts: seq<Draft>): seq<Chunk> {
    seq(|drafts|, i requires 0 <= i < |drafts| => drafts[i].chunk)
  }

  lemma ChunksComeBack(chunks: seq<Chunk>, embed: Embedder, model: string, size: nat)
    requires size >= 1 && EmbedBatches(chunks, embed, model, size).Success?
    ensures ChunksIn(EmbedBatches(chunks, embed, model, size).value) == chunks
    ensures Embedded(EmbedBatches(chunks, embed, model, size).value)
  {
    hide EmbedBatches, Embedded;
    BatchesAreEmbedded(chunks, embed, model, size);
  }

  /** From the bytes to the rows. An unreadable document, one that says nothing and a batch size of 0 each have
      their error. With a positive size the rows of a document taken in say what the document says, each repeating
      at most 100 characters of the one before under the same tags, and every row has its embedding; with a
      negative one there are no rows. */
  lemma RowsSayTheDocument(reader: Reader, i: Ingest) returns (seams: seq<Seam>)
    ensures var text, drafts := TextOf(reader, i.source.bytes, i.info.sourceType), DraftsOf(reader, i);
            && (text.Failure? ==> drafts == Failure(Unreadable(text.error)))
            && (text == Success([]) ==> drafts == Failure(NoIndexableText))
            && (text.Success? && text.value != [] && i.batchSize == 0 ==> drafts == Failure(BadBatchSize))
            && (text.Success? && text.value != [] && i.batchSize < 0 ==> drafts == Success([]))
            && (drafts.Success? ==> text.Success? && text.value != [] && Embedded(drafts.value))
            && (drafts.Success? && i.batchSize > 0 ==>
                  var chunks := ChunksIn(drafts.value);
                  && WellNumbered(chunks) && Repeats(PiecesOf(chunks), seams, 100)
                  && TaggedPieces(PiecesOf(chunks), seams) == text.value)
  {
    hide TextOf, BlocksOf, Pieces, Numbered, Repeats, TaggedPieces, TaggedBlocks, WellNumbered, PiecesOf, Embedded,
         EmbedBatches, ChunksIn;
    var kind := i.info.sourceType;
    BlocksHoldTheText(reader, i.source.bytes, kind);
    seams := [];
    var read := BlocksOf(reader, i.source.bytes, kind);
    if read.Success? {
      var pieces := Pieces(read.value, MAX_CHARS, OVERLAP_CHARS);
      seams := BlocksSurvive(read.value, MAX_CHARS, OVERLAP_CHARS);
      NoPiecesIff(read.value, MAX_CHARS, OVERLAP_CHARS);
      NumberedLength(pieces);
      NumberedWell(pieces);
      NothingIsEmbedded();
      if i.batchSize > 0 && DraftsOf(reader, i).Success? {
        ChunksComeBack(Numbered(pieces), i.embed, i.model, i.batchSize);
      }
    }
  }

  lemma NothingIsEmbedded()
    ensures Embedded([])
  {
  }

  // ----- When the count is that of the rows -----

  predicate CountAgrees(s: Store, key: string) {
    key in s.documents ==> s.documents[key].chunkCount == |RowsOf(s, s.documents[key].id)|
  }

  /** Ingest n of a run was kept for its key but came with another number of chunks than the rows stored. */
  predicate KeptWithOtherCount(p: Pipeline, ingests: seq<Ingest>, key: string, n: nat)
    requires n < |ingests|
  {
    var before, i := ingests[..n], ingests[n];
    && i.key == key && Kept(p, before, i)
    && Storing(p, before, key).Some? && Taken(p, Storing(p, before, key).value)
    && |DraftsOf(p.reader, i).value| != |DraftsOf(p.reader, Storing(p, before, key).value).value|
  }

  lemma CountAgreesNow(p: Pipeline, ingests: seq<Ingest>, key: string)
    requires PipelineOk(p)
    ensures Latest(p, ingests, key).Some? ==>
              && Storing(p, ingests, key).Some?
              && Taken(p, Latest(p, ingests, key).value) && Taken(p, Storing(p, ingests, key).value)
    ensures CountAgrees(IngestAll(p, ingests), key)
            <==> (Latest(p, ingests, key).Some? ==>
                    |DraftsOf(p.reader, Latest(p, ingests, key).value).value|
                    == |DraftsOf(p.reader, Storing(p, ingests, key).value).value|)
  {
    hide DraftsOf, Hashed, StoreOk, IngestAll, Latest, Storing, Changes;
    StoreFollowsIngests(p, ingests, key);
  }

  /** Throughout a run the count of a key is that of its rows if and only if no kept ingest of the key came with
      another number of chunks than the rows stored. */
  lemma {:induction false} CountAlwaysAgreesIff(p: Pipeline, ingests: seq<Ingest>, key: string)
    requires PipelineOk(p)
    ensures (forall m: nat :: m <= |ingests| ==> CountAgrees(IngestAll(p, ingests[..m]), key))
            <==> (forall n: nat :: n < |ingests| ==> !KeptWithOtherCount(p, ingests, key, n))
  {
    hide DraftsOf, IngestAll, CountAgrees;
    if ingests == [] {
      CountAgreesNow(p, ingests[..0], key);
    } else {
      var n := |ingests| - 1;
      var before := ingests[..n];
      CountAlwaysAgreesIff(p, before, key);
      CountAgreesNow(p, before, key);
      CountAgreesNow(p, ingests, key);
      assert ingests[..n + 1] == ingests;
      assert forall m: nat :: m <= n ==> before[..m] == ingests[..m];
      assert forall k: nat :: k < n ==> (KeptWithOtherCount(p, before, key, k) <==> KeptWithOtherCount(p, ingests, key, k)) by {
        assert forall k: nat :: k < n ==> before[..k] == ingests[..k] && before[k] == ingests[k];
      }
      LastStep(p, ingests, key);
    }
  }

  /** One more ingest: if the count agreed before, it agrees now unless a kept ingest brought another count. */
  lemma LastStep(p: Pipeline, ingests: seq<Ingest>, key: string)
    requires PipelineOk(p) && ingests != []
    ensures var n := |ingests| - 1;
            CountAgrees(IngestAll(p, ingests[..n]), key) ==>
              (CountAgrees(IngestAll(p, ingests), key) <==> !KeptWithOtherCount(p, ingests, key, n))
  {
    hide DraftsOf, IngestAll, CountAgrees;
    var n := |ingests| - 1;
    CountAgreesNow(p, ingests[..n], key);
    CountAgreesNow(p, ingests, key);
  }

  /** How many rows an ingest of some blocks makes, once it is taken. */
  function DraftCount(i: Ingest, blocks: seq<Block>): nat { if i.batchSize > 0 then |ChunksOf(blocks)| else 0 }

  /** The chunks of the drafts depend on the document's bytes and on how they are read, not on the provider. */
  lemma DraftsAreOfTheText(i: Ingest, blocks: seq<Block>)
    requires Embed(i, blocks).Success?
    ensures |Embed(i, blocks).value| == DraftCount(i, blocks) && ChunksOf(blocks) != []
    ensures forall k :: 0 <= k < DraftCount(i, blocks) ==> Embed(i, blocks).value[k].chunk == ChunksOf(blocks)[k]
  {
    hide ChunksOf, EmbedBatches;
    if i.batchSize > 0 { BatchesAreEmbedded(ChunksOf(blocks), i.embed, i.model, i.batchSize); }
  }

  /** Of a key always ingested as one kind of document, count and rows agree if and only if the ingest that stored
      the rows and the latest one both embedded their chunks or both, with a negative batch size, embedded none. */
  lemma OneKindAgreesIff(p: Pipeline, ingests: seq<Ingest>, key: string, kind: SourceType)
    requires PipelineOk(p)
    requires forall k :: 0 <= k < |ingests| && ingests[k].key == key ==> ingests[k].info.sourceType == kind
    ensures Latest(p, ingests, key).Some? ==> Storing(p, ingests, key).Some?
    ensures CountAgrees(IngestAll(p, ingests), key)
            <==> (Latest(p, ingests, key).Some? ==>
                    (Latest(p, ingests, key).value.batchSize > 0 <==> Storing(p, ingests, key).value.batchSize > 0))
  {
    hide Embed, BlocksOf, ChunksOf, IngestAll, CountAgrees;
    CountAgreesNow(p, ingests, key);
    StoreFollowsIngests(p, ingests, key);
    if Latest(p, ingests, key).Some? {
      var latest, storing := Latest(p, ingests, key).value, Storing(p, ingests, key).value;
      FromTheRun(p, ingests, key);
      var blocks := BlocksOf(p.reader, latest.source.bytes, kind).value;
      DraftsAreOfTheText(latest, blocks);
      DraftsAreOfTheText(storing, blocks);
    }
  }

  /** A key that is always ingested as one kind of document, with one batch size of whatever sign, keeps count and
      rows in step. */
  lemma OneKindAlwaysAgrees(p: Pipeline, ingests: seq<Ingest>, key: string, kind: SourceType, batchSize: int)
    requires PipelineOk(p)
    requires forall k :: 0 <= k < |ingests| && ingests[k].key == key ==>
               ingests[k].info.sourceType == kind && ingests[k].batchSize == batchSize
    ensures CountAgrees(IngestAll(p, ingests), key)
  {
    hide PipelineOk, CountAgrees, Latest, Storing;
    OneKindAgreesIff(p, ingests, key, kind);
    FromTheRun(p, ingests, key);
  }

  lemma {:induction false} FromTheRun(p: Pipeline, ingests: seq<Ingest>, key: string)
    ensures Latest(p, ingests, key).Some? ==> Latest(p, ingests, key).value in ingests && Latest(p, ingests, key).value.key == key
    ensures Storing(p, ingests, key).Some? ==>
              Storing(p, ingests, key).value in ingests && Storing(p, ingests, key).value.key == key
  {
    hide Taken, Kept;
    if ingests != [] {
      var n := |ingests| - 1;
      FromTheRun(p, ingests[..n], key);
      assert forall i: Ingest :: i in ingests[..n] ==> i in ingests;
    }
  }

  /** The failing family: the same bytes taken in first as one kind of document and then as the other. The
      checksum does not tell them apart, so the first rows stay under the second count. */
  lemma TwoKindsDisagree(p: Pipeline, a: Ingest, b: Ingest)
    requires Taken(p, a) && Taken(p, b) && a.key == b.key && a.source == b.source
    ensures var s := IngestAll(p, [a, b]);
            && a.key in s.documents
            && RowsOf(s, s.documents[a.key].id) == DraftsOf(p.reader, a).value
            && s.documents[a.key].chunkCount == |DraftsOf(p.reader, b).value|
            && s.documents[a.key].version == 1
            && s.documents[a.key].info.sourceType == b.info.sourceType
  {
    hide DraftsOf, Hashed, Embedded, Pages;
    DraftsAreEmbedded(p.reader, a);
    DraftsAreEmbedded(p.reader, b);
    assert [a, b][..1] == [a] && [a][..0] == [];
    assert IngestAll(p, []) == Store(map[], map[], 0);
    assert IngestAll(p, [a]) == IngestOne(p.reader, p.hash, IngestAll(p, []), a).0;
    assert IngestAll(p, [a, b]) == IngestOne(p.reader, p.hash, IngestAll(p, [a]), b).0;
  }

  /** Bytes ingested first as lines of text and then as pages: count and rows agree if and only if the two readings
      make equally many chunks. */
  lemma TwoReadingsAgreeIff(p: Pipeline, a: Ingest, b: Ingest, lines: seq<string>, pages: seq<string>)
    requires Taken(p, a) && Taken(p, b) && a.key == b.key && a.source == b.source
    requires a.info.sourceType == Markdown && p.reader.lines(a.source.bytes) == Success(lines)
    requires b.info.sourceType == Pdf && p.reader.pages(b.source.bytes) == Success(pages)
    ensures var s := IngestAll(p, [a, b]);
            && a.key in s.documents
            && |RowsOf(s, s.documents[a.key].id)| == DraftCount(a, BlocksFrom(Classified(lines), 0))
            && s.documents[a.key].chunkCount == DraftCount(b, PageBlocks(pages))
            && (CountAgrees(s, a.key)
                <==> DraftCount(a, BlocksFrom(Classified(lines), 0)) == DraftCount(b, PageBlocks(pages)))
  {
    hide BlocksFrom, Classified, PageBlocks, Embed, DraftCount, IngestAll;
    TwoKindsDisagree(p, a, b);
    DraftsAreOfTheText(a, BlocksFrom(Classified(lines), 0));
    DraftsAreOfTheText(b, PageBlocks(pages));
  }

  // ----- An input on which they differ -----

  /** A text that is not blank and no longer than a window is one chunk. */
  lemma ShortTextIsOnePiece(b: Block)
    requires |b.text| <= MAX_CHARS && !Blank(b.text)
    ensures |BlockPieces(b, MAX_CHARS, OVERLAP_CHARS)| == 1
  {
    hide WindowsFrom, Words, Join, NonSpace, Tidy;
    NormalizeKeeps(b.text);
    NonSpaceBlank(b.text);
    NothingToSay();
    JoinedWordsAreShort(b.text);
    var content := Normalize(b.text);
    assert content != "";
    Unfold(content, 0, MAX_CHARS, OVERLAP_CHARS);
  }

  lemma NothingToSay()
    ensures NonSpace("") == ""
  {
  }

  /** A line of text that is neither blank nor indented, no heading and no comment. */
  predicate Plain(line: string) {
    line != "" && !IsSpace(line[0]) && line[0] != '#' && !("<!--" <= line)
  }

  lemma PlainIsText(line: string)
    requires Plain(line)
    ensures Classify(line) == TextLine(line)
  {
    hide IsSpace, PageComment, StripRight;
    StripRightIsPrefix(line);
    assert Strip(line) == StripRight(line);
    if |Strip(line)| >= 4 { assert Strip(line)[..4] == line[..4]; }
  }

  lemma {:induction false} AllTextIsOneRun(doc: seq<Line>, i: nat)
    requires i <= |doc| && AllText(doc, 0, |doc|)
    ensures RunEnd(doc, i) == |doc|
    decreases |doc| - i
  {
    if i < |doc| { AllTextIsOneRun(doc, i + 1); }
  }

  lemma PlainLinesAreOneChunk(lines: seq<string>)
    requires lines != [] && (forall k :: 0 <= k < |lines| ==> Plain(lines[k])) && |Join(lines, "\n")| <= MAX_CHARS
    ensures |ChunksOf(BlocksFrom(Classified(lines), 0))| == 1
  {
    hide Plain, Classify, Strip, NonSpace, Join, Numbered, BlockPieces;
    var doc := Classified(lines);
    forall k | 0 <= k < |lines| ensures doc[k] == TextLine(lines[k]) { PlainIsText(lines[k]); }
    AllTextIsOneRun(doc, 0);
    assert Texts(doc, 0, |doc|) == lines;
    PlainLinesSpeak(lines);
    var text := Join(lines, "\n");
    StripKeeps(text);
    StripIsShorter(text);
    NonSpaceBlank(text);
    NonSpaceBlank(Strip(text));
    var b := Block(None, None, Strip(text));
    assert BlocksFrom(doc, 0) == [b] + BlocksFrom(doc, |doc|);
    assert BlocksFrom(doc, 0) == [b];
    OneBlock(b);
  }

  lemma OneBlock(b: Block)
    requires |b.text| <= MAX_CHARS && !Blank(b.text)
    ensures |ChunksOf([b])| == 1
  {
    hide Numbered, BlockPieces;
    ShortTextIsOnePiece(b);
    assert [b][..0] == [];
    assert Pieces([b], MAX_CHARS, OVERLAP_CHARS)
      == Pieces([], MAX_CHARS, OVERLAP_CHARS) + BlockPieces(b, MAX_CHARS, OVERLAP_CHARS);
    NumberedLength(Pieces([b], MAX_CHARS, OVERLAP_CHARS));
  }

  lemma StripIsShorter(s: string)
    ensures |Strip(s)| <= |s|
  {
  }

  lemma PlainLinesSpeak(lines: seq<string>)
    requires lines != [] && Plain(lines[0])
    ensures !Blank(Join(lines, "\n"))
  {
    var text := Join(lines, "\n");
    assert text[0] == lines[0][0];
  }

  predicate ShortPage(page: string) { |page| <= MAX_CHARS && !Blank(page) }

  lemma {:induction false} EachPageIsAChunk(pages: seq<string>)
    requires forall k :: 0 <= k < |pages| ==> ShortPage(pages[k])
    ensures |Pieces(PageBlocks(pages), MAX_CHARS, OVERLAP_CHARS)| == |pages|
  {
    hide BlockPieces;
    if pages != [] {
      var n := |pages| - 1;
      EachPageIsAChunk(pages[..n]);
      assert PageBlocks(pages)[..n] == PageBlocks(pages[..n]);
      ShortTextIsOnePiece(PageBlocks(pages)[n]);
    }
  }

  /** A small PDF of plain ASCII lines whose pages each have a little text, ingested once as Markdown and then as
      PDF: its lines are one chunk, its pages one each, so with two pages or more the one row stays stored under the
      number of pages. */
  lemma ASmallPdf(p: Pipeline, a: Ingest, b: Ingest, lines: seq<string>, pages: seq<string>)
    requires a.key == b.key && a.source == b.source && a.batchSize > 0 && b.batchSize > 0
    requires a.info.sourceType == Markdown && p.reader.lines(a.source.bytes) == Success(lines)
    requires b.info.sourceType == Pdf && p.reader.pages(b.source.bytes) == Success(pages)
    requires |lines| > 1 && "%PDF-" <= lines[0] && |Join(lines, "\n")| <= MAX_CHARS
    requires forall k :: 0 <= k < |lines| ==> Plain(lines[k])
    requires forall k :: 0 <= k < |pages| ==> ShortPage(pages[k])
    ensures |ChunksOf(BlocksFrom(Classified(lines), 0))| == 1 && |ChunksOf(PageBlocks(pages))| == |pages|
    ensures Taken(p, a) && Taken(p, b) ==>
              var s := IngestAll(p, [a, b]);
              && a.key in s.documents && |RowsOf(s, s.documents[a.key].id)| == 1
              && s.documents[a.key].chunkCount == |pages|
              && (CountAgrees(s, a.key) <==> |pages| == 1)
  {
    hide BlocksFrom, Classified, Numbered, IngestAll, PageBlocks, Plain, ShortPage, Taken, CountAgrees;
    if Taken(p, a) && Taken(p, b) { TwoReadingsAgreeIff(p, a, b, lines, pages); }
    PlainLinesAreOneChunk(lines);
    EachPageIsAChunk(pages);
    NumberedLength(Pieces(PageBlocks(pages), MAX_CHARS, OVERLAP_CHARS));
  }
}
