/** The stored documents and their chunk rows, replaced idempotently and versioned. */
module KnowledgeStore {
  import opened Wrappers
  import opened Chunking

  type Vector = seq<real>

  datatype Embedding = Embedding(vector: Vector, model: string)

  /** A chunk with its embedding, once it has one. */
  datatype Draft = Draft(chunk: Chunk, embedding: Option<Embedding>)

  datatype IngestError =
    | NoIndexableText | CountMismatch | ProviderFailed(reason: string) | BadBatchSize | MissingEmbedding
    | Unreadable(reason: string)

  datatype SourceType = Markdown | Pdf

  datatype Info = Info(title: string, description: string, sourceType: SourceType, sourceUri: Option<string>)

  datatype Document = Document(
    id: nat, info: Info, checksum: string, indexed: bool, version: nat, pageCount: nat, chunkCount: nat)

  /** Documents by source key, chunk rows by document id, and the ids not used yet. */
  datatype Store = Store(documents: map<string, Document>, rows: map<nat, seq<Draft>>, nextId: nat)

  function Pages(drafts: seq<Draft>): set<nat> {
    set d | d in drafts && d.chunk.page.Some? :: d.chunk.page.value
  }

  predicate Embedded(drafts: seq<Draft>) { forall d :: d in drafts ==> d.embedding.Some? }

  function RowsOf(s: Store, id: nat): seq<Draft> { if id in s.rows then s.rows[id] else [] }

  /** One transaction; an error rolls everything back. */
  function Replace(s: Store, key: string, info: Info, checksum: string, drafts: seq<Draft>)
    : (Store, Result<Document, IngestError>)
  {
    if key in s.documents && s.documents[key].checksum == checksum && s.documents[key].indexed then
      var d := s.documents[key].(info := info, pageCount := |Pages(drafts)|, chunkCount := |drafts|);
      (s.(documents := s.documents[key := d]), Success(d))
    else if !Embedded(drafts) then (s, Failure(MissingEmbedding))
    else
      var isNew := key !in s.documents;
      var id := if isNew then s.nextId else s.documents[key].id;
      var version := if isNew then 1 else s.documents[key].version + 1;
      var d := Document(id, info, checksum, true, version, |Pages(drafts)|, |drafts|);
      (Store(s.documents[key := d], s.rows[id := drafts], if isNew then s.nextId + 1 else s.nextId), Success(d))
  }

  class KnowledgeRepository {
    var documents: map<string, Document>
    var rows: map<nat, seq<Draft>>
    var nextId: nat

    constructor ()
      ensures View() == Store(map[], map[], 0)
    {
      documents, rows, nextId := map[], map[], 0;
    }

    function View(): Store
      reads this
    {
      Store(documents, rows, nextId)
    }

    method ReplaceDocument(key: string, info: Info, checksum: string, drafts: seq<Draft>)
      returns (r: Result<Document, IngestError>)
      modifies this
      ensures (View(), r) == Replace(old(View()), key, info, checksum, drafts)
    {
      var pageCount := |Pages(drafts)|;
      if key in documents && documents[key].checksum == checksum && documents[key].indexed {
        var kept := documents[key].(info := info, pageCount := pageCount, chunkCount := |drafts|);
        documents := documents[key := kept];
        return Success(kept);
      }
      ghost var start := View();
      var savedRows, savedNextId := rows, nextId;
      var id, version := nextId, 1;
      if key in documents {
        id, version := documents[key].id, documents[key].version + 1;
      } else {
        nextId := nextId + 1;
      }
      rows := rows[id := []];
      for n := 0 to |drafts|
        invariant rows == start.rows[id := drafts[..n]]
        invariant forall i :: 0 <= i < n ==> drafts[i].embedding.Some?
        invariant documents == start.documents
        invariant nextId == if key in start.documents then start.nextId else start.nextId + 1
      {
        if drafts[n].embedding.None? {
          rows, nextId := savedRows, savedNextId;
          return Failure(MissingEmbedding);
        }
        rows := rows[id := rows[id] + [drafts[n]]];
        assert drafts[..n + 1] == drafts[..n] + [drafts[n]];
      }
      assert drafts[..|drafts|] == drafts;
      var d := Document(id, info, checksum, true, version, pageCount, |drafts|);
      documents := documents[key := d];
      return Success(d);
    }
  }

  /** Documents own their rows. */
  predicate StoreOk(s: Store) {
    && (forall k | k in s.documents :: s.documents[k].id < s.nextId && s.documents[k].id in s.rows)
    && (forall k, k' | k in s.documents && k' in s.documents && k != k' :: s.documents[k].id != s.documents[k'].id)
  }

  /** Re-sending the stored checksum keeps identity, version and rows; anything else leaves exactly the new rows
      under the next version. Other documents are untouched. */
  lemma ReplaceIsIdempotent(s: Store, key: string, info: Info, checksum: string, drafts: seq<Draft>)
    requires StoreOk(s) && Embedded(drafts)
    ensures var (s', r) := Replace(s, key, info, checksum, drafts);
            && r.Success? && StoreOk(s') && s'.documents.Keys == s.documents.Keys + {key}
            && s'.documents[key] == r.value && r.value.checksum == checksum && r.value.info == info && r.value.indexed
            && r.value.chunkCount == |drafts|
            && r.value.pageCount == |set d | d in drafts && d.chunk.page.Some? :: d.chunk.page.value|
            && (forall k | k in s.documents && k != key ::
                  s'.documents[k] == s.documents[k] && RowsOf(s', s.documents[k].id) == RowsOf(s, s.documents[k].id))
            && (key in s.documents && s.documents[key].indexed && s.documents[key].checksum == checksum ==>
                  && r.value.id == s.documents[key].id && r.value.version == s.documents[key].version && s'.rows == s.rows
                  && Replace(s', key, info, checksum, drafts) == (s', r))
            && (key in s.documents && !(s.documents[key].indexed && s.documents[key].checksum == checksum) ==>
                  && r.value.id == s.documents[key].id && r.value.version == s.documents[key].version + 1
                  && RowsOf(s', r.value.id) == drafts)
            && (key !in s.documents ==> r.value.version == 1 && RowsOf(s', r.value.id) == drafts)
  {
    hide Embedded, Pages, StoreOk;
    PagesAre(drafts);
    ReplaceKeepsOthers(s, key, info, checksum, drafts);
    if key in s.documents && s.documents[key].indexed && s.documents[key].checksum == checksum {
      KeptTwice(s, key, info, checksum, drafts);
    }
  }

  lemma ReplaceKeepsOthers(s: Store, key: string, info: Info, checksum: string, drafts: seq<Draft>)
    requires StoreOk(s)
    ensures var s' := Replace(s, key, info, checksum, drafts).0;
            && StoreOk(s')
            && (forall k | k in s.documents && k != key ::
                  && k in s'.documents && s'.documents[k] == s.documents[k]
                  && RowsOf(s', s.documents[k].id) == RowsOf(s, s.documents[k].id))
  {
    hide Embedded, Pages;
  }

  lemma PagesAre(drafts: seq<Draft>)
    ensures Pages(drafts) == set d | d in drafts && d.chunk.page.Some? :: d.chunk.page.value
  {
  }

  lemma KeptTwice(s: Store, key: string, info: Info, checksum: string, drafts: seq<Draft>)
    requires key in s.documents && s.documents[key].indexed && s.documents[key].checksum == checksum
    ensures var (s', r) := Replace(s, key, info, checksum, drafts);
            Replace(s', key, info, checksum, drafts) == (s', r)
  {
    hide Pages;
    var (s', r) := Replace(s, key, info, checksum, drafts);
    assert s'.documents[key := r.value] == s'.documents;
  }

  /** A replace is refused exactly when rows would have to be written and one lacks its embedding; then nothing
      changes. */
  lemma RefusedIff(s: Store, key: string, info: Info, checksum: string, drafts: seq<Draft>)
    ensures var (s', r) := Replace(s, key, info, checksum, drafts);
            && (r.Failure?
                <==> && (exists d :: d in drafts && d.embedding.None?)
                     && !(key in s.documents && s.documents[key].indexed && s.documents[key].checksum == checksum))
            && (r.Failure? ==> r.error == MissingEmbedding && s' == s)
  {
  }
}
