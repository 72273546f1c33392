/**
 * The document processor of the embedding module: it cuts documents into chunks with
 * a text splitter, stamps every chunk with a chunk id, its index and its document's
 * id, and hands the chunks to a vector store after asking the store to drop any
 * chunks already stored under the same ids.
 *
 * The splitter (a recursive character splitter) and the vector store are external
 * libraries: the splitter is a function parameter, the store an object that records
 * the requests it receives and whose failures are fixed when it is created.
 */
module Embedding {
  import PyText

  /** A metadata value: the module stores strings and integers. */
  datatype MetaValue = Str(s: string) | Int(i: int)

  /** `str(v)`, as an f-string renders a metadata value. */
  function Render(v: MetaValue): string {
    match v
    case Str(s) => s
    case Int(i) => PyText.IntToString(i)
  }

  /** A text with its metadata dictionary. */
  datatype Document = Document(pageContent: string, metadata: map<string, MetaValue>)

  /** What the splitter is built with. */
  datatype SplitterConfig = SplitterConfig(chunkSize: int, chunkOverlap: int, separators: seq<string>)

  /** The separators the splitter tries, coarsest first. */
  const Separators: seq<string> := ["\n\n", "\n", "。", ".", " ", ""]

  const DefaultChunkSize: int := 500
  const DefaultChunkOverlap: int := 50

  /** The splitting algorithm: the texts of the chunks of one document's content.
      Each chunk starts with a copy of its document's metadata. */
  type Splitter = (SplitterConfig, string) -> seq<string>

  /** The id of a document as its chunks record it: its metadata "id", or else
      "doc_" followed by the number of chunks emitted before it. */
  function OriginalId(doc: Document, emitted: nat): (r: MetaValue)
    ensures "id" in doc.metadata ==> r == doc.metadata["id"]
    ensures "id" !in doc.metadata ==> r == Str("doc_" + PyText.NatToString(emitted))
  {
    if "id" in doc.metadata then doc.metadata["id"] else Str("doc_" + PyText.NatToString(emitted))
  }

  /** `f"{original_id}_{i}"`. */
  function ChunkId(originalId: MetaValue, i: nat): string {
    Render(originalId) + "_" + PyText.NatToString(i)
  }

  /** Chunk i of a document, with its metadata updated. */
  function Tagged(doc: Document, text: string, i: nat, originalId: MetaValue): Document {
    Document(text, doc.metadata + map["chunk_id" := Str(ChunkId(originalId, i)), "chunk_index" := Int(i), "original_id" := originalId])
  }

  /** A stamped chunk keeps its text and every metadata entry of its document except
      the three it sets: its chunk id, its index and its document's id. */
  lemma TaggedMetadata(doc: Document, text: string, i: nat, originalId: MetaValue)
    ensures var c := Tagged(doc, text, i, originalId);
      && c.pageContent == text
      && c.metadata.Keys == doc.metadata.Keys + {"chunk_id", "chunk_index", "original_id"}
      && c.metadata["chunk_id"] == Str(ChunkId(originalId, i))
      && c.metadata["chunk_index"] == Int(i)
      && c.metadata["original_id"] == originalId
      && forall k :: k in doc.metadata && k != "chunk_id" && k != "chunk_index" && k != "original_id" ==> c.metadata[k] == doc.metadata[k]
  {
  }

  /** All chunks of one document, in the splitter's order. */
  function TagChunks(doc: Document, texts: seq<string>, originalId: MetaValue): (r: seq<Document>)
    ensures |r| == |texts|
    ensures forall i :: 0 <= i < |texts| ==> r[i] == Tagged(doc, texts[i], i, originalId)
  {
    seq(|texts|, i requires 0 <= i < |texts| => Tagged(doc, texts[i], i, originalId))
  }

  /** Stamping one more chunk extends the stamped prefix by that chunk. */
  lemma TagChunksStep(doc: Document, texts: seq<string>, n: nat, originalId: MetaValue)
    requires n < |texts|
    ensures TagChunks(doc, texts[..n], originalId) + [Tagged(doc, texts[n], n, originalId)] == TagChunks(doc, texts[..n + 1], originalId)
  {
    var a := TagChunks(doc, texts[..n], originalId) + [Tagged(doc, texts[n], n, originalId)];
    var b := TagChunks(doc, texts[..n + 1], originalId);
    assert |a| == |b|;
    forall k | 0 <= k < |a| ensures a[k] == b[k] {
      if k < n {
        assert a[k] == TagChunks(doc, texts[..n], originalId)[k];
      }
    }
  }

  /** Stamping the whole of texts is stamping its full prefix. */
  lemma TagChunksWhole(doc: Document, texts: seq<string>, originalId: MetaValue)
    ensures TagChunks(doc, texts[..|texts|], originalId) == TagChunks(doc, texts, originalId)
  {
    assert texts[..|texts|] == texts;
  }

  /** The number of chunks the splitter makes of the first n documents. */
  function ChunksBefore(split: Splitter, cfg: SplitterConfig, docs: seq<Document>, n: nat): nat
    requires n <= |docs|
  {
    if n == 0 then 0 else ChunksBefore(split, cfg, docs, n - 1) + |split(cfg, docs[n - 1].pageContent)|
  }

  /** The total number of chunks the splitter makes of docs. */
  function ChunkTotal(split: Splitter, cfg: SplitterConfig, docs: seq<Document>): nat {
    ChunksBefore(split, cfg, docs, |docs|)
  }

  /** The chunks of the first n documents, as the loop has them after n rounds. */
  function ChunkedUpTo(split: Splitter, cfg: SplitterConfig, docs: seq<Document>, n: nat): (r: seq<Document>)
    requires n <= |docs|
    ensures |r| == ChunksBefore(split, cfg, docs, n)
    ensures forall k :: 0 <= k < |r| ==> "chunk_id" in r[k].metadata && r[k].metadata["chunk_id"].Str?
  {
    if n == 0 then []
    else
      var pre := ChunkedUpTo(split, cfg, docs, n - 1);
      var doc := docs[n - 1];
      pre + TagChunks(doc, split(cfg, doc.pageContent), OriginalId(doc, |pre|))
  }

  /** What `chunk_documents` returns: each document's chunks, documents in input order. */
  function Chunked(split: Splitter, cfg: SplitterConfig, docs: seq<Document>): (r: seq<Document>)
    ensures |r| == ChunkTotal(split, cfg, docs)
    ensures forall k :: 0 <= k < |r| ==> "chunk_id" in r[k].metadata && r[k].metadata["chunk_id"].Str?
  {
    ChunkedUpTo(split, cfg, docs, |docs|)
  }

  /** Chunk i of document j sits after the chunks of the documents before j; it has
      index i, records its document's id (the fallback counting the chunks before it)
      and is identified as that id followed by "_" and i. */
  lemma ChunkedAt(split: Splitter, cfg: SplitterConfig, docs: seq<Document>, j: nat, i: nat)
    requires j < |docs| && i < |split(cfg, docs[j].pageContent)|
    ensures var before := ChunksBefore(split, cfg, docs, j);
      && before + i < |Chunked(split, cfg, docs)|
      && Chunked(split, cfg, docs)[before + i]
         == Tagged(docs[j], split(cfg, docs[j].pageContent)[i], i, OriginalId(docs[j], before))
  {
    ChunkedUpToAt(split, cfg, docs, |docs|, j, i);
  }

  lemma {:induction false} ChunkedUpToAt(split: Splitter, cfg: SplitterConfig, docs: seq<Document>, n: nat, j: nat, i: nat)
    requires j < n <= |docs| && i < |split(cfg, docs[j].pageContent)|
    ensures var before := ChunksBefore(split, cfg, docs, j);
      && before + i < |ChunkedUpTo(split, cfg, docs, n)|
      && ChunkedUpTo(split, cfg, docs, n)[before + i]
         == Tagged(docs[j], split(cfg, docs[j].pageContent)[i], i, OriginalId(docs[j], before))
  {
    if n == j + 1 {
      ChunkedUpToLast(split, cfg, docs, j, i);
    } else {
      ChunkedUpToAt(split, cfg, docs, n - 1, j, i);
      ChunkedUpToPrefix(split, cfg, docs, n - 1, n);
      var k := ChunksBefore(split, cfg, docs, j) + i;
      assert ChunkedUpTo(split, cfg, docs, n)[k] == ChunkedUpTo(split, cfg, docs, n - 1)[k];
    }
  }

  /** Round j + 1 appends the chunks of document j in the splitter's order. */
  lemma ChunkedUpToLast(split: Splitter, cfg: SplitterConfig, docs: seq<Document>, j: nat, i: nat)
    requires j < |docs| && i < |split(cfg, docs[j].pageContent)|
    ensures var before := ChunksBefore(split, cfg, docs, j);
      && before + i < |ChunkedUpTo(split, cfg, docs, j + 1)|
      && ChunkedUpTo(split, cfg, docs, j + 1)[before + i] == Tagged(docs[j], split(cfg, docs[j].pageContent)[i], i, OriginalId(docs[j], before))
  {
    var pre := ChunkedUpTo(split, cfg, docs, j);
    var tail := TagChunks(docs[j], split(cfg, docs[j].pageContent), OriginalId(docs[j], |pre|));
    assert ChunkedUpTo(split, cfg, docs, j + 1) == pre + tail;
    assert (pre + tail)[|pre| + i] == tail[i];
  }

  /** Rounds only append: the chunks after m documents are a prefix of those after n. */
  lemma {:induction false} ChunkedUpToPrefix(split: Splitter, cfg: SplitterConfig, docs: seq<Document>, m: nat, n: nat)
    requires m <= n <= |docs|
    ensures ChunkedUpTo(split, cfg, docs, m) <= ChunkedUpTo(split, cfg, docs, n)
  {
    if m < n {
      ChunkedUpToPrefix(split, cfg, docs, m, n - 1);
    }
  }

  /** The first n rounds see only the first n documents. */
  lemma {:induction false} ChunkedUpToSlice(split: Splitter, cfg: SplitterConfig, docs: seq<Document>, j: nat, n: nat)
    requires n <= j <= |docs|
    ensures ChunkedUpTo(split, cfg, docs[..j], n) == ChunkedUpTo(split, cfg, docs, n)
  {
    if n > 0 {
      ChunkedUpToSlice(split, cfg, docs, j, n - 1);
      assert docs[..j][n - 1] == docs[n - 1];
    }
  }

  /** Chunked output grows by appending: the chunks of a prefix of the documents are
      a prefix of the chunks of all of them. */
  lemma ChunkedPrefix(split: Splitter, cfg: SplitterConfig, docs: seq<Document>, j: nat)
    requires j <= |docs|
    ensures Chunked(split, cfg, docs[..j]) <= Chunked(split, cfg, docs)
  {
    ChunkedUpToSlice(split, cfg, docs, j, j);
    ChunkedUpToPrefix(split, cfg, docs, j, |docs|);
  }

  /** Two chunks of one document never share a chunk id. */
  lemma ChunkIdsDistinct(originalId: MetaValue, i: nat, k: nat)
    requires ChunkId(originalId, i) == ChunkId(originalId, k)
    ensures i == k
  {
    var p := Render(originalId) + "_";
    assert ChunkId(originalId, i) == p + PyText.NatToString(i);
    assert PyText.NatToString(i) == ChunkId(originalId, i)[|p|..];
    assert PyText.NatToString(k) == ChunkId(originalId, k)[|p|..];
    PyText.NatToStringInjective(i, k);
  }

  /** `[doc.metadata["chunk_id"] for doc in chunks]`. */
  function ChunkIds(chunks: seq<Document>): (ids: seq<string>)
    requires forall k :: 0 <= k < |chunks| ==> "chunk_id" in chunks[k].metadata && chunks[k].metadata["chunk_id"].Str?
    ensures |ids| == |chunks|
    ensures forall i :: 0 <= i < |chunks| ==> Str(ids[i]) == chunks[i].metadata["chunk_id"]
  {
    seq(|chunks|, i requires 0 <= i < |chunks| => chunks[i].metadata["chunk_id"].s)
  }

  /** A request the vector store received. */
  datatype StoreRequest = DeleteRequest(ids: seq<string>) | AddRequest(documents: seq<Document>, ids: seq<string>)

  /** The vector store as seen by the processor: the requests it has received, in order.
      Whether its delete or add requests fail is fixed when it is created. */
  class VectorStore {
    var requests: seq<StoreRequest>
    const deleteFails: bool
    const addFails: bool

    constructor (deleteFails: bool, addFails: bool)
      ensures requests == [] && this.deleteFails == deleteFails && this.addFails == addFails
    {
      this.deleteFails := deleteFails;
      this.addFails := addFails;
      requests := [];
    }

    /** `delete(ids=...)`; false when the store raises. */
    method Delete(ids: seq<string>) returns (ok: bool)
      modifies this
      ensures requests == old(requests) + [DeleteRequest(ids)]
      ensures ok == !deleteFails
    {
      requests := requests + [DeleteRequest(ids)];
      ok := !deleteFails;
    }

    /** `add_documents(documents=..., ids=...)`; false when the store raises. */
    method AddDocuments(documents: seq<Document>, ids: seq<string>) returns (ok: bool)
      modifies this
      ensures requests == old(requests) + [AddRequest(documents, ids)]
      ensures ok == !addFails
    {
      requests := requests + [AddRequest(documents, ids)];
      ok := !addFails;
    }
  }

  /** How `process_and_store` ends: the number of chunks stored, or an exception. */
  datatype StoreOutcome = Stored(count: nat) | Raised

  class DocumentProcessor {
    const chunkSize: int
    const chunkOverlap: int

    constructor (chunkSize: int := DefaultChunkSize, chunkOverlap: int := DefaultChunkOverlap)
      ensures this.chunkSize == chunkSize && this.chunkOverlap == chunkOverlap
    {
      this.chunkSize := chunkSize;
      this.chunkOverlap := chunkOverlap;
    }

    /** The splitter this processor builds. */
    function Config(): (cfg: SplitterConfig)
      ensures cfg.chunkSize == chunkSize && cfg.chunkOverlap == chunkOverlap && cfg.separators == Separators
    {
      SplitterConfig(chunkSize, chunkOverlap, Separators)
    }

    /** `chunk_documents`: split every document and stamp each chunk. */
    method ChunkDocuments(documents: seq<Document>, split: Splitter) returns (chunked: seq<Document>)
      ensures chunked == Chunked(split, Config(), documents)
    {
      var cfg := SplitterConfig(chunkSize, chunkOverlap, Separators);
      chunked := [];
      var j := 0;
      while j < |documents|
        invariant j <= |documents|
        invariant chunked == ChunkedUpTo(split, cfg, documents, j)
      {
        var doc := documents[j];
        var chunks := split(cfg, doc.pageContent);
        var stamped: seq<Document> := [];
        var i := 0;
        while i < |chunks|
          invariant i <= |chunks|
          invariant stamped == TagChunks(doc, chunks[..i], OriginalId(doc, |chunked|))
        {
          var originalId := if "id" in doc.metadata then doc.metadata["id"]
                            else Str("doc_" + PyText.NatToString(|chunked|));
          var update := map["chunk_id" := Str(Render(originalId) + "_" + PyText.NatToString(i)),
                            "chunk_index" := Int(i),
                            "original_id" := originalId];
          assert Document(chunks[i], doc.metadata + update) == Tagged(doc, chunks[i], i, OriginalId(doc, |chunked|));
          TagChunksStep(doc, chunks, i, OriginalId(doc, |chunked|));
          stamped := stamped + [Document(chunks[i], doc.metadata + update)];
          i := i + 1;
        }
        TagChunksWhole(doc, chunks, OriginalId(doc, |chunked|));
        chunked := chunked + stamped;
        j := j + 1;
      }
    }

    /** `process_and_store`: chunk the documents, ask the store to delete their chunk
        ids (a failure there is ignored), then add the chunks under those ids; a failure
        of the add is raised, otherwise the number of chunks is returned. */
    method ProcessAndStore(documents: seq<Document>, store: VectorStore, split: Splitter) returns (outcome: StoreOutcome)
      modifies store
      ensures var chunks := Chunked(split, Config(), documents);
        store.requests == old(store.requests) + [DeleteRequest(ChunkIds(chunks)), AddRequest(chunks, ChunkIds(chunks))]
      ensures outcome == if store.addFails then Raised else Stored(ChunkTotal(split, Config(), documents))
    {
      var chunked := ChunkDocuments(documents, split);
      var newIds := seq(|chunked|, i requires 0 <= i < |chunked| => chunked[i].metadata["chunk_id"].s);
      assert newIds == ChunkIds(chunked);
      var _ := store.Delete(newIds);
      var added := store.AddDocuments(chunked, newIds);
      if !added {
        return Raised;
      }
      return Stored(|chunked|);
    }
  }
}
