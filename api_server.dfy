/**
 * The API server's state and handlers: the knowledge-base ("dataset") endpoints, the
 * document endpoints with their background processing job, and the asynchronous chat
 * endpoints with their background worker.
 *
 * The server keeps three dictionaries: `knowledge_bases`, `documents_storage` and
 * `chat_tasks`. A handler answers with a body holding a code; here an answer is
 * `Ok(data)` for code 0 and `Fail(code)` otherwise. Background jobs that a handler
 * schedules are returned to the caller as a job value and run later by calling
 * the job's method; what they see of the outside world (the file read back, the
 * retrieval stack's outcome, the clock) is passed to them.
 */
module ApiServer {
  import opened Options
  import PyText
  import PyDict
  import Embedding
  import CsvIngest
  import opened Datasets
  import opened ChatTasks

  /** A handler's answer: code 0 with its data, or an error code. */
  datatype Reply<T> = Ok(data: T) | Fail(code: int)

  /** The body of a list endpoint: one page and the size of the whole list. */
  datatype Listing<T> = Listing(data: seq<T>, total: nat, page: int, pageSize: int)

  /** `process_uploaded_document(doc_id, file_path, kb_id)`, as scheduled. */
  datatype UploadJob = UploadJob(docId: string, filePath: string, kbId: string)

  /** The answer of the chat endpoint. */
  datatype Ticket = Ticket(taskId: string, status: TaskStatus, pollUrl: string)

  /** `process_chat_task(task_id, question, model)`, as scheduled. */
  datatype ChatJob = ChatJob(taskId: string, question: string, model: string)

  /** The answer of a task lookup: 404 (unknown or expired) or the task record. */
  datatype TaskLookup = TaskNotFound | TaskExpired | TaskFound(task: ChatTask)

  /** The body of the task listing. */
  datatype TaskList = TaskList(total: nat, tasks: seq<TaskSummary>)

  const DefaultKbId: string := "default_kb"
  const CsvDocId: string := "csv_data"
  const PollPrefix: string := "/api/v1/chats_openai/task/"

  /** The base that startup creates for the bundled CSV data. */
  function DefaultKnowledgeBase(csvRecords: nat, now: int): KnowledgeBase {
    KnowledgeBase(DefaultKbId, "现代汽车主知识库", "包含现有CSV数据的知识库", "naive", 512, 50, 1, csvRecords, "active", now)
  }

  /** The record startup creates for the bundled CSV data. */
  function CsvRecord(csvRecords: nat, now: int): StoredDocument {
    StoredDocument(CsvDocId, "dev_csv(1).csv", DefaultKbId, None, PyText.NatToString(csvRecords) + " 条记录",
                   DocStatus.Completed, csvRecords, now, "csv")
  }

  /** What `DocumentProcessor()` splits with: the default chunk size and overlap. */
  function ProcessorConfig(): (cfg: Embedding.SplitterConfig)
    ensures cfg.chunkSize == 500 && cfg.chunkOverlap == 50 && cfg.separators == Embedding.Separators
  {
    Embedding.SplitterConfig(Embedding.DefaultChunkSize, Embedding.DefaultChunkOverlap, Embedding.Separators)
  }

  /** The requests a default processor sends the store for docs: delete the chunk ids,
      then add the chunks under the same ids. */
  function StoreCalls(split: Embedding.Splitter, docs: seq<Embedding.Document>): (calls: seq<Embedding.StoreRequest>)
    ensures |calls| == 2 && calls[0].DeleteRequest? && calls[1].AddRequest?
    ensures calls[0].ids == calls[1].ids && calls[1].documents == Embedding.Chunked(split, ProcessorConfig(), docs)
    ensures |calls[1].ids| == Embedding.ChunkTotal(split, ProcessorConfig(), docs)
  {
    var chunks := Embedding.Chunked(split, ProcessorConfig(), docs);
    [Embedding.DeleteRequest(Embedding.ChunkIds(chunks)), Embedding.AddRequest(chunks, Embedding.ChunkIds(chunks))]
  }

  /** The document made of an uploaded text file. */
  function TextDocument(content: string, filePath: string, kbId: string): Embedding.Document {
    Embedding.Document(content, map["source" := Embedding.Str(filePath), "kb_id" := Embedding.Str(kbId),
                                    "type" := Embedding.Str("text")])
  }

  /** A text file's document carries no "id", so its chunks are named after the
      fallback "doc_0": any two text uploads the splitter cuts into equally many chunks
      send the same ids, and the second upload's delete removes the first one's vectors. */
  lemma TextUploadsShareChunkIds(split: Embedding.Splitter, c1: string, p1: string, kb1: string,
                                 c2: string, p2: string, kb2: string)
    requires |split(ProcessorConfig(), c1)| == |split(ProcessorConfig(), c2)|
    ensures var ids := StoreCalls(split, [TextDocument(c1, p1, kb1)])[0].ids;
      && ids == StoreCalls(split, [TextDocument(c2, p2, kb2)])[0].ids
      && forall i :: 0 <= i < |ids| ==> ids[i] == "doc_0_" + PyText.NatToString(i)
  {
    var ids1 := StoreCalls(split, [TextDocument(c1, p1, kb1)])[0].ids;
    var ids2 := StoreCalls(split, [TextDocument(c2, p2, kb2)])[0].ids;
    forall i | 0 <= i < |ids1|
      ensures ids1[i] == "doc_0_" + PyText.NatToString(i) && ids2[i] == ids1[i]
    {
      UnnamedChunkId(split, TextDocument(c1, p1, kb1), i);
      UnnamedChunkId(split, TextDocument(c2, p2, kb2), i);
    }
  }

  /** Chunk i of a lone document without "id" is stored as "doc_0_" and i. */
  lemma UnnamedChunkId(split: Embedding.Splitter, doc: Embedding.Document, i: nat)
    requires "id" !in doc.metadata && i < |split(ProcessorConfig(), doc.pageContent)|
    ensures var ids := StoreCalls(split, [doc])[0].ids;
      && |ids| == |split(ProcessorConfig(), doc.pageContent)| && ids[i] == "doc_0_" + PyText.NatToString(i)
  {
    var chunks := Embedding.Chunked(split, ProcessorConfig(), [doc]);
    LoneDocumentChunk(split, ProcessorConfig(), doc, i);
    assert Embedding.Str(StoreCalls(split, [doc])[0].ids[i]) == chunks[i].metadata["chunk_id"];
  }

  /** Chunk i of a lone document records chunk id "doc_0_" and i when the document has no "id". */
  lemma LoneDocumentChunk(split: Embedding.Splitter, cfg: Embedding.SplitterConfig, doc: Embedding.Document, i: nat)
    requires "id" !in doc.metadata && i < |split(cfg, doc.pageContent)|
    ensures var chunks := Embedding.Chunked(split, cfg, [doc]);
      && |chunks| == |split(cfg, doc.pageContent)| && chunks[i].metadata["chunk_id"] == Embedding.Str("doc_0_" + PyText.NatToString(i))
  {
    assert Embedding.ChunksBefore(split, cfg, [doc], 1) == |split(cfg, doc.pageContent)|;
    Embedding.ChunkedAt(split, cfg, [doc], 0, i);
    FirstFallbackId(doc, i);
    Embedding.TaggedMetadata(doc, split(cfg, doc.pageContent)[i], i, Embedding.Str("doc_0"));
  }

  /** The fallback id of a first document is "doc_0", which its chunk i extends by "_" and i. */
  lemma FirstFallbackId(doc: Embedding.Document, i: nat)
    requires "id" !in doc.metadata
    ensures Embedding.OriginalId(doc, 0) == Embedding.Str("doc_0")
    ensures Embedding.ChunkId(Embedding.Str("doc_0"), i) == "doc_0_" + PyText.NatToString(i)
  {
    assert PyText.NatToString(0) == "0";
  }

  /** The chunk number recorded for a text file: one per started 500 characters, plus one. */
  function EstimatedChunks(content: string): (n: nat)
    ensures n >= 1 && (n - 1) * 500 <= |content| < n * 500
  {
    |content| / 500 + 1
  }

  /** The loop of the batch delete over a snapshot docs0 of the documents: delete every
      listed id that still names a document of kb, counting the deletions and summing
      the chunk numbers they free. */
  method DeleteListed(docs0: PyDict.Dict<StoredDocument>, kb: string, ids: seq<string>)
    returns (docs: PyDict.Dict<StoredDocument>, deleted: nat, freed: int)
    requires PyDict.Valid(docs0)
    ensures DeleteState(docs, deleted, freed) == BatchDelete(docs0, kb, ids)
  {
    docs, deleted, freed := docs0, 0, 0;
    var i := 0;
    while i < |ids|
      invariant i <= |ids|
      invariant DeleteState(docs, deleted, freed) == BatchDelete(docs0, kb, ids[..i])
    {
      var docId := ids[i];
      assert ids[..i + 1][..i] == ids[..i];
      if docId in docs.entries && docs.entries[docId].kbId == kb {
        freed := freed + docs.entries[docId].chunkNum;
        docs := PyDict.Remove(docs, docId);
        deleted := deleted + 1;
      }
      i := i + 1;
    }
    assert ids[..i] == ids;
  }

  class Server {
    var knowledgeBases: PyDict.Dict<KnowledgeBase>
    var documentsStorage: PyDict.Dict<StoredDocument>
    var chatTasks: PyDict.Dict<ChatTask>

    /** Whether the retrieval modules could be imported. */
    const ragAvailable: bool
    /** The hexadecimal MD5 digest of a text. */
    const digest: string -> string
    /** The text splitter of the processing library. */
    const split: Embedding.Splitter
    /** The vector store. */
    const store: Embedding.VectorStore
    /** The demo answer for a question. */
    const demoAnswer: string -> string

    /** The dictionaries are well formed and the two data dictionaries agree. */
    ghost predicate Valid()
      reads this
    {
      Consistent(knowledgeBases, documentsStorage) && PyDict.Valid(chatTasks)
    }

    /** No base counts fewer chunks than its documents record. */
    ghost predicate ChunksAccounted()
      reads this
    {
      PyDict.Valid(documentsStorage) && ChunksCovered(knowledgeBases, documentsStorage)
    }

    /** `initialize_system`: with the retrieval stack, the default base and the record
        of the bundled CSV data, whose chunk count is its number of records; without
        it, nothing. */
    constructor (ragAvailable: bool, digest: string -> string, split: Embedding.Splitter,
                 store: Embedding.VectorStore, demoAnswer: string -> string, csvRecords: nat, now: int)
      ensures Valid() && ChunksAccounted()
      ensures this.ragAvailable == ragAvailable && this.digest == digest && this.split == split
      ensures this.store == store && this.demoAnswer == demoAnswer
      ensures chatTasks.keys == []
      ensures ragAvailable ==> knowledgeBases.keys == [DefaultKbId] && documentsStorage.keys == [CsvDocId]
      ensures ragAvailable ==> knowledgeBases.entries[DefaultKbId] == DefaultKnowledgeBase(csvRecords, now)
                               && documentsStorage.entries[CsvDocId] == CsvRecord(csvRecords, now)
      ensures !ragAvailable ==> knowledgeBases.keys == [] && documentsStorage.keys == []
    {
      this.ragAvailable := ragAvailable;
      this.digest := digest;
      this.split := split;
      this.store := store;
      this.demoAnswer := demoAnswer;
      chatTasks := PyDict.Empty();
      var kbs: PyDict.Dict<KnowledgeBase> := PyDict.Empty();
      var docs: PyDict.Dict<StoredDocument> := PyDict.Empty();
      if ragAvailable {
        kbs := PyDict.Put(kbs, DefaultKbId, DefaultKnowledgeBase(csvRecords, now));
        docs := PyDict.Put(docs, CsvDocId, CsvRecord(csvRecords, now));
        var record := [CsvRecord(csvRecords, now)];
        assert PyDict.Values(docs) == record && record[1..] == [];
        assert CountIn(record, DefaultKbId) == 1 && ChunksIn(record, DefaultKbId) == csvRecords;
      }
      knowledgeBases := kbs;
      documentsStorage := docs;
    }

    // -------------------------------------------------------------------------
    // Knowledge bases
    // -------------------------------------------------------------------------

    /** `GET /api/v1/datasets`: the requested page of the bases in creation order,
        with the number of all bases. */
    function GetDatasets(page: int, pageSize: int): (r: Listing<KnowledgeBase>)
      reads this
      requires Valid()
      ensures r.total == |knowledgeBases.keys| && r.page == page && r.pageSize == pageSize
      ensures page >= 1 && pageSize >= 0 ==>
                IsWindow(r.data, PyDict.Values(knowledgeBases), (page - 1) * pageSize, pageSize)
    {
      var all := PyDict.Values(knowledgeBases);
      var r := Listing(Page(all, page, pageSize), |all|, page, pageSize);
      if page >= 1 && pageSize >= 0 then PageWindow(all, page, pageSize); r else r
    }

    /** `POST /api/v1/datasets`: a name whose id is taken is refused with 400 and
        nothing changes; otherwise the new base, with empty counters, is stored. */
    method CreateDataset(request: CreateRequest, now: int) returns (r: Reply<KnowledgeBase>)
      requires Valid()
      modifies this
      ensures Valid()
      ensures old(ChunksAccounted()) ==> ChunksAccounted()
      ensures documentsStorage == old(documentsStorage) && chatTasks == old(chatTasks)
      ensures var id := KbId(digest, request.name);
        if id in old(knowledgeBases.entries) then r == Fail(400) && knowledgeBases == old(knowledgeBases)
        else r == Ok(NewKnowledgeBase(id, request, now))
             && knowledgeBases == PyDict.Put(old(knowledgeBases), id, NewKnowledgeBase(id, request, now))
    {
      var kbId := KbId(digest, request.name);
      if kbId in knowledgeBases.entries {
        return Fail(400);
      }
      var kb := NewKnowledgeBase(kbId, request, now);
      knowledgeBases := PyDict.Put(knowledgeBases, kbId, kb);
      CreateKeepsConsistent(old(knowledgeBases), documentsStorage, kbId, kb, knowledgeBases);
      r := Ok(kb);
    }

    /** `DELETE /api/v1/datasets/{id}`: an unknown base gives 404 and nothing changes;
        otherwise the base and exactly its documents are removed, the other documents
        keeping their records and their order. */
    method DeleteDataset(datasetId: string) returns (r: Reply<()>)
      requires Valid()
      modifies this
      ensures Valid()
      ensures old(ChunksAccounted()) ==> ChunksAccounted()
      ensures chatTasks == old(chatTasks)
      ensures datasetId !in old(knowledgeBases.entries) ==>
                r == Fail(404) && knowledgeBases == old(knowledgeBases) && documentsStorage == old(documentsStorage)
      ensures datasetId in old(knowledgeBases.entries) ==>
                r == Ok(()) && knowledgeBases == PyDict.Remove(old(knowledgeBases), datasetId)
                && documentsStorage == DropOwned(old(documentsStorage), datasetId)
    {
      if datasetId !in knowledgeBases.entries {
        return Fail(404);
      }
      ghost var kbs0, docs0 := knowledgeBases, documentsStorage;
      DropDocuments(datasetId);
      DeleteBaseKeepsConsistent(kbs0, docs0, datasetId);
      knowledgeBases := PyDict.Remove(knowledgeBases, datasetId);
      r := Ok(());
    }

    /** The loop over `docs_to_delete`: delete, one by one and in storage order, the
        documents of the base; the other bases' tallies stay as they were. */
    method DropDocuments(datasetId: string)
      requires PyDict.Valid(documentsStorage)
      modifies this
      ensures documentsStorage == DropOwned(old(documentsStorage), datasetId)
      ensures knowledgeBases == old(knowledgeBases) && chatTasks == old(chatTasks)
      ensures forall k :: k != datasetId ==>
                CountIn(PyDict.Values(documentsStorage), k) == CountIn(PyDict.Values(old(documentsStorage)), k)
                && ChunksIn(PyDict.Values(documentsStorage), k) == ChunksIn(PyDict.Values(old(documentsStorage)), k)
    {
      ghost var docs0 := documentsStorage;
      var docs := documentsStorage;
      var toDelete := OwnedInOrder(docs.keys, docs.entries, datasetId);
      OwnedInOrderDistinct(docs.keys, docs.entries, datasetId);
      DroppedNoPrefix(docs, toDelete);
      var i := 0;
      while i < |toDelete|
        invariant 0 <= i <= |toDelete|
        invariant unchanged(this)
        invariant docs == Dropped(docs0, toDelete[..i])
      {
        DroppedStep(docs0, toDelete, i, datasetId);
        docs := PyDict.Remove(docs, toDelete[i]);
        i := i + 1;
      }
      DroppedAllOwned(docs0, datasetId);
      documentsStorage := docs;
    }

    // -------------------------------------------------------------------------
    // Documents
    // -------------------------------------------------------------------------

    /** The documents of a base in storage order, filtered by the keyword unless it is
        empty. */
    function Matching(datasetId: string, keywords: string): (r: seq<StoredDocument>)
      reads this
      requires Valid()
      ensures forall d :: d in r <==>
                d in PyDict.Values(documentsStorage) && d.kbId == datasetId && NameMatches(d.name, keywords)
      ensures keywords == "" ==> |r| == CountIn(PyDict.Values(documentsStorage), datasetId)
    {
      var own := InKb(PyDict.Values(documentsStorage), datasetId);
      if keywords == "" then EmptyKeywordKeepsAll(own); own
      else WithKeyword(own, keywords)
    }

    /** `GET /api/v1/datasets/{id}/documents`: 404 exactly for an unknown base;
        otherwise the requested page of the matching documents, each of that base and
        matching the keyword, with the number of all matching documents. */
    function GetDocuments(datasetId: string, page: int, pageSize: int, keywords: string): (r: Reply<Listing<StoredDocument>>)
      reads this
      requires Valid()
      ensures r.Fail? <==> datasetId !in knowledgeBases.entries
      ensures r.Fail? ==> r.code == 404
      ensures r.Ok? ==> r.data.total == |Matching(datasetId, keywords)| && r.data.page == page && r.data.pageSize == pageSize
      ensures r.Ok? ==> forall d :: d in r.data.data ==>
                d in PyDict.Values(documentsStorage) && d.kbId == datasetId && NameMatches(d.name, keywords)
      ensures r.Ok? && page >= 1 && pageSize >= 0 ==>
                IsWindow(r.data.data, Matching(datasetId, keywords), (page - 1) * pageSize, pageSize)
    {
      if datasetId !in knowledgeBases.entries then Fail(404)
      else
        var matching := Matching(datasetId, keywords);
        var shown := Page(matching, page, pageSize);
        assert forall d :: d in shown ==> d in multiset(shown) && d in multiset(matching);
        var r := Ok(Listing(shown, |matching|, page, pageSize));
        if page >= 1 && pageSize >= 0 then PageWindow(matching, page, pageSize); r else r
    }

    /** `POST /api/v1/datasets/{id}/documents`: 404 for an unknown base, 400 for an
        extension outside the allow-list, 500 when the file cannot be written (always
        so when the name ends in '/' or "/.", which makes the saved path a directory);
        otherwise the record is stored under the id derived from the file name
        (replacing an earlier upload of that name), the base's document count grows by
        one, and with the retrieval stack a processing job is scheduled. */
    method UploadDocument(datasetId: string, filename: string, size: nat, writeFails: bool, now: int)
      returns (r: Reply<StoredDocument>, job: Option<UploadJob>)
      requires Valid()
      modifies this
      ensures Valid()
      ensures old(ChunksAccounted()) ==> ChunksAccounted()
      ensures chatTasks == old(chatTasks)
      ensures r.Fail? ==> job.None? && knowledgeBases == old(knowledgeBases) && documentsStorage == old(documentsStorage)
      ensures datasetId !in old(knowledgeBases.entries) ==> r == Fail(404)
      ensures datasetId in old(knowledgeBases.entries) && Extension(filename) !in AllowedExtensions ==> r == Fail(400)
      ensures datasetId in old(knowledgeBases.entries) && Extension(filename) in AllowedExtensions ==>
                (writeFails || !PyText.EndsInName(DataDir + filename) ==> r == Fail(500))
      ensures datasetId in old(knowledgeBases.entries) && Extension(filename) in AllowedExtensions && !writeFails && PyText.EndsInName(DataDir + filename) ==>
        var doc := UploadedRecord(digest, datasetId, filename, size, now);
        var kb := old(knowledgeBases.entries[datasetId]);
        && r == Ok(doc)
        && documentsStorage == PyDict.Put(old(documentsStorage), doc.id, doc)
        && knowledgeBases == PyDict.Put(old(knowledgeBases), datasetId, kb.(documentCount := kb.documentCount + 1))
        && (job.Some? <==> ragAvailable)
        && (job.Some? ==> job.value == UploadJob(doc.id, DataDir + filename, datasetId))
    {
      job := None;
      if datasetId !in knowledgeBases.entries {
        return Fail(404), None;
      }
      var extension := Extension(filename);
      if extension !in AllowedExtensions {
        return Fail(400), None;
      }
      var filePath := DataDir + filename;
      if writeFails || PyText.NameEnd(filePath) != |filePath| {
        return Fail(500), None;
      }
      var doc := UploadedRecord(digest, datasetId, filename, size, now);
      AddRecord(datasetId, doc);
      if ragAvailable {
        job := Some(UploadJob(doc.id, filePath, datasetId));
      }
      r := Ok(doc);
    }

    /** The bookkeeping of an accepted upload: store the record under its id and count
        one more document for its base. */
    method AddRecord(datasetId: string, doc: StoredDocument)
      requires Consistent(knowledgeBases, documentsStorage) && datasetId in knowledgeBases.entries
      requires doc.kbId == datasetId && doc.chunkNum == 0
      modifies this
      ensures Consistent(knowledgeBases, documentsStorage)
      ensures old(ChunksCovered(knowledgeBases, documentsStorage)) ==> ChunksCovered(knowledgeBases, documentsStorage)
      ensures chatTasks == old(chatTasks)
      ensures var kb := old(knowledgeBases.entries[datasetId]);
        && documentsStorage == PyDict.Put(old(documentsStorage), doc.id, doc)
        && knowledgeBases == PyDict.Put(old(knowledgeBases), datasetId, kb.(documentCount := kb.documentCount + 1))
    {
      var kb := knowledgeBases.entries[datasetId];
      knowledgeBases, documentsStorage := PyDict.Put(knowledgeBases, datasetId, kb.(documentCount := kb.documentCount + 1)),
                                          PyDict.Put(documentsStorage, doc.id, doc);
      UploadKeepsConsistent(old(knowledgeBases), old(documentsStorage), datasetId, doc, knowledgeBases, documentsStorage);
    }

    /** The last step of a processing run: record its outcome. */
    method Settle(docId: string, kbId: string, result: RunResult)
      requires Valid()
      modifies this
      ensures Valid()
      ensures old(ChunksAccounted()) && (docId in old(documentsStorage.entries) ==> old(documentsStorage.entries[docId].kbId) == kbId)
              ==> ChunksAccounted()
      ensures chatTasks == old(chatTasks)
      ensures documentsStorage == SettleDocs(old(knowledgeBases), old(documentsStorage), docId, kbId, result)
      ensures knowledgeBases == SettleKbs(old(knowledgeBases), old(documentsStorage), docId, kbId, result)
    {
      SettleKeepsConsistent(knowledgeBases, documentsStorage, docId, kbId, result);
      if ChunksAccounted() && (docId in documentsStorage.entries ==> documentsStorage.entries[docId].kbId == kbId) {
        SettleKeepsChunksCovered(knowledgeBases, documentsStorage, docId, kbId, result);
      }
      var kbs := SettleKbs(knowledgeBases, documentsStorage, docId, kbId, result);
      documentsStorage := SettleDocs(knowledgeBases, documentsStorage, docId, kbId, result);
      knowledgeBases := kbs;
    }

    /** `process_csv_to_vector_store`: table is what reading the file gives, None when
        reading raises. Without the retrieval stack, or when the file cannot be read, or
        when no row holds a value, the answer is false and the store sees nothing;
        otherwise the row documents go through a default processor and the answer is
        whether the store accepted the chunks. */
    method ProcessCsvToVectorStore(csvPath: string, kbId: string, table: Option<CsvIngest.Table>) returns (ok: bool)
      modifies store
      ensures ok ==> ragAvailable && table.Some? && !store.addFails
      ensures !ragAvailable || table.None? ==> !ok && store.requests == old(store.requests)
      ensures ragAvailable && table.Some? ==>
        var docs := CsvIngest.RowDocuments(table.value.columns, table.value.rows, csvPath, kbId);
        if docs == [] then !ok && store.requests == old(store.requests)
        else ok == !store.addFails && store.requests == old(store.requests) + StoreCalls(split, docs)
    {
      if !ragAvailable {
        return false;
      }
      if table.None? {
        return false;
      }
      var processor := new Embedding.DocumentProcessor();
      var documents := CsvIngest.CsvDocuments(table.value, csvPath, kbId);
      if documents == [] {
        return false;
      }
      var outcome := processor.ProcessAndStore(documents, store, split);
      ok := outcome.Stored?;
    }

    /** `process_uploaded_document`, scheduled by an upload: a ".csv" file goes through
        the CSV ingestion and then records its number of rows; a ".txt" file is sent to
        the store as one document and records the estimate of its chunks; any other
        file records one chunk. A run that fails marks the document failed. table is
        what reading the CSV file gives and text what reading the text file gives
        (None when these raise). */
    method ProcessUploadedDocument(docId: string, filePath: string, kbId: string,
                                   table: Option<CsvIngest.Table>, text: Option<string>)
      returns (result: RunResult)
      requires Valid()
      modifies this, store
      ensures Valid()
      ensures old(ChunksAccounted()) && (docId in old(documentsStorage.entries) ==> old(documentsStorage.entries[docId].kbId) == kbId)
              ==> ChunksAccounted()
      ensures chatTasks == old(chatTasks)
      ensures documentsStorage == SettleDocs(old(knowledgeBases), old(documentsStorage), docId, kbId, result)
      ensures knowledgeBases == SettleKbs(old(knowledgeBases), old(documentsStorage), docId, kbId, result)
      ensures Extension(filePath) == ".csv" ==>
        if ragAvailable && table.Some? && CsvIngest.RowDocuments(table.value.columns, table.value.rows, filePath, kbId) != []
        then store.requests == old(store.requests)
                               + StoreCalls(split, CsvIngest.RowDocuments(table.value.columns, table.value.rows, filePath, kbId))
             && result == (if store.addFails then Raised else Settled(|table.value.rows|))
        else store.requests == old(store.requests) && result == Raised
      ensures Extension(filePath) == ".txt" ==>
        if ragAvailable && text.Some?
        then store.requests == old(store.requests) + StoreCalls(split, [TextDocument(text.value, filePath, kbId)])
             && result == (if store.addFails then Raised else Settled(EstimatedChunks(text.value)))
        else store.requests == old(store.requests) && result == Raised
      ensures Extension(filePath) != ".csv" && Extension(filePath) != ".txt" ==>
        store.requests == old(store.requests) && result == Settled(1)
    {
      result := RunProcessing(filePath, kbId, table, text);
      Settle(docId, kbId, result);
    }

    /** The work of a processing run before its outcome is recorded: what the store is
        sent for each kind of file, and how the run ends. */
    method RunProcessing(filePath: string, kbId: string, table: Option<CsvIngest.Table>, text: Option<string>)
      returns (result: RunResult)
      modifies store
      ensures Extension(filePath) == ".csv" ==>
        if ragAvailable && table.Some? && CsvIngest.RowDocuments(table.value.columns, table.value.rows, filePath, kbId) != []
        then store.requests == old(store.requests)
                               + StoreCalls(split, CsvIngest.RowDocuments(table.value.columns, table.value.rows, filePath, kbId))
             && result == (if store.addFails then Raised else Settled(|table.value.rows|))
        else store.requests == old(store.requests) && result == Raised
      ensures Extension(filePath) == ".txt" ==>
        if ragAvailable && text.Some?
        then store.requests == old(store.requests) + StoreCalls(split, [TextDocument(text.value, filePath, kbId)])
             && result == (if store.addFails then Raised else Settled(EstimatedChunks(text.value)))
        else store.requests == old(store.requests) && result == Raised
      ensures Extension(filePath) != ".csv" && Extension(filePath) != ".txt" ==>
        store.requests == old(store.requests) && result == Settled(1)
    {
      var extension := Extension(filePath);
      if extension == ".csv" {
        var success := ProcessCsvToVectorStore(filePath, kbId, table);
        if success {
          result := Settled(|table.value.rows|);
        } else {
          result := Raised;
        }
      } else if extension == ".txt" {
        if !ragAvailable || text.None? {
          // without the retrieval stack the processor class is not defined
          result := Raised;
        } else {
          var document := TextDocument(text.value, filePath, kbId);
          var processor := new Embedding.DocumentProcessor();
          var outcome := processor.ProcessAndStore([document], store, split);
          if outcome.Raised? {
            result := Raised;
          } else {
            result := Settled(EstimatedChunks(text.value));
          }
        }
      } else {
        result := Settled(1);
      }
    }

    /** `DELETE /api/v1/datasets/{id}/documents`: an unknown base gives 404 and nothing
        changes; otherwise every listed id that names a document of the base is
        deleted (ids of other bases, unknown ids and repeats are skipped), the base
        loses one document and the document's chunks per deletion, and the answer is
        the number deleted. */
    method DeleteDocuments(datasetId: string, ids: seq<string>) returns (r: Reply<nat>)
      requires Valid()
      modifies this
      ensures Valid()
      ensures old(ChunksAccounted()) ==> ChunksAccounted()
      ensures chatTasks == old(chatTasks)
      ensures datasetId !in old(knowledgeBases.entries) ==>
                r == Fail(404) && knowledgeBases == old(knowledgeBases) && documentsStorage == old(documentsStorage)
      ensures datasetId in old(knowledgeBases.entries) ==>
                && r == Ok(BatchDelete(old(documentsStorage), datasetId, ids).deleted)
                && documentsStorage == BatchDelete(old(documentsStorage), datasetId, ids).docs
                && knowledgeBases == PyDict.Put(old(knowledgeBases), datasetId,
                     Discounted(old(knowledgeBases.entries[datasetId]), BatchDelete(old(documentsStorage), datasetId, ids).deleted,
                                BatchDelete(old(documentsStorage), datasetId, ids).freed))
    {
      if datasetId !in knowledgeBases.entries {
        return Fail(404);
      }
      ghost var docs0 := documentsStorage;
      var docs, deleted, freed := DeleteListed(documentsStorage, datasetId, ids);
      BatchDeleteTallies(docs0, datasetId, ids);
      DeleteDocsKeepsConsistent(knowledgeBases, docs0, docs, datasetId, deleted, freed);
      if ChunksAccounted() {
        DeleteDocsKeepsCovered(knowledgeBases, docs0, docs, datasetId, deleted, freed);
      }
      var kb := knowledgeBases.entries[datasetId];
      knowledgeBases := PyDict.Put(knowledgeBases, datasetId, Discounted(kb, deleted, freed));
      documentsStorage := docs;
      r := Ok(deleted);
    }

    // -------------------------------------------------------------------------
    // Chat tasks
    // -------------------------------------------------------------------------

    /** `POST /api/v1/chats_openai/{chat_id}/chat/completions`: without a user message
        the request fails (the 400 raised inside is caught and re-raised as 500) and
        nothing changes; otherwise a processing task for the last user message is
        stored under the fresh id taskId, a worker job is scheduled and the ticket
        points to the poll path. */
    method ChatCompletions(messages: seq<ChatMessage>, model: string, taskId: string, now: int)
      returns (r: Reply<Ticket>, job: Option<ChatJob>)
      requires Valid()
      modifies this
      ensures Valid()
      ensures knowledgeBases == old(knowledgeBases) && documentsStorage == old(documentsStorage)
      ensures LastUserQuestion(messages).None? ==> r == Fail(500) && job.None? && chatTasks == old(chatTasks)
      ensures LastUserQuestion(messages).Some? ==>
        var q := LastUserQuestion(messages).value;
        && r == Ok(Ticket(taskId, TaskStatus.Processing, PollPrefix + taskId))
        && job == Some(ChatJob(taskId, q, model))
        && chatTasks == PyDict.Put(old(chatTasks), taskId, NewTask(q, now))
    {
      var question := LastUserQuestion(messages);
      if question.None? {
        return Fail(500), None;
      }
      chatTasks := PyDict.Put(chatTasks, taskId, NewTask(question.value, now));
      job := Some(ChatJob(taskId, question.value, model));
      r := Ok(Ticket(taskId, TaskStatus.Processing, PollPrefix + taskId));
    }

    /** `process_chat_task`, the worker: run stands for what the retrieval and the
        generation do. trace logs the status the task holds right after each write to the
        dictionary; the log is Trace, and the task ends as Finish describes; a task that
        is gone is recreated as failed. */
    method ProcessChatTask(taskId: string, question: string, model: string, run: RagRun, now: int)
      returns (trace: seq<TaskStatus>)
      requires Valid()
      modifies this
      ensures Valid()
      ensures knowledgeBases == old(knowledgeBases) && documentsStorage == old(documentsStorage)
      ensures trace == Trace(taskId in old(chatTasks.entries), ragAvailable, run)
      ensures taskId in old(chatTasks.entries) && old(chatTasks.entries[taskId].status) == TaskStatus.Processing ==>
                Lifecycle([TaskStatus.Processing] + trace)
      ensures chatTasks == PyDict.Put(old(chatTasks), taskId,
                 Finish(PyDict.Get(old(chatTasks), taskId), taskId, question, model, ragAvailable, run, demoAnswer(question), now))
    {
      if taskId !in chatTasks.entries {
        var e := KeyErrorText(taskId);
        chatTasks := PyDict.Put(chatTasks, taskId, ChatTask(TaskStatus.Failed, None, None, None, Some(SystemError(e)), None, Some(now), Some(e)));
        trace := [chatTasks.entries[taskId].status];
        return;
      }
      ghost var tasks0 := chatTasks;
      var prior := chatTasks.entries[taskId];
      chatTasks := PyDict.Put(chatTasks, taskId, prior.(status := Retrieving, message := Some(Searching)));
      trace := [chatTasks.entries[taskId].status];
      var task := chatTasks.entries[taskId];
      if !ragAvailable {
        var answer := demoAnswer(question);
        task := task.(status := TaskStatus.Completed, message := Some(AnsweredInDemo),
                      result := Some(MakeCompletion(taskId, model, question, answer, now)), completedAt := Some(now));
      } else if run.RetrievalFails? {
        task := task.(status := TaskStatus.Failed, message := Some(ProcessingFailed(run.error)), error := Some(run.error), failedAt := Some(now));
      } else {
        chatTasks := PyDict.Put(chatTasks, taskId, task.(status := Generating, message := Some(Composing)));
        PyDict.PutPut(tasks0, taskId, task, task.(status := Generating, message := Some(Composing)));
        trace := trace + [chatTasks.entries[taskId].status];
        task := chatTasks.entries[taskId];
        if run.GenerationFails? {
          task := task.(status := TaskStatus.Failed, message := Some(ProcessingFailed(run.error)), error := Some(run.error), failedAt := Some(now));
        } else {
          task := task.(status := TaskStatus.Completed, message := Some(Answered),
                        result := Some(MakeCompletion(taskId, model, question, run.text, now)), completedAt := Some(now));
        }
      }
      PyDict.PutPut(tasks0, taskId, chatTasks.entries[taskId], task);
      chatTasks := PyDict.Put(chatTasks, taskId, task);
      trace := trace + [chatTasks.entries[taskId].status];
    }

    /** `GET /api/v1/chats_openai/task/{id}` (and its alias `/api/v1/tasks/{id}`): an
        unknown task is not found; a finished task whose finish lies more than an hour
        back is deleted and reported expired; any other task is returned as stored. */
    method GetChatTask(taskId: string, now: int) returns (r: TaskLookup)
      requires Valid()
      modifies this
      ensures Valid()
      ensures knowledgeBases == old(knowledgeBases) && documentsStorage == old(documentsStorage)
      ensures taskId !in old(chatTasks.entries) ==> r == TaskNotFound && chatTasks == old(chatTasks)
      ensures taskId in old(chatTasks.entries) && Expired(old(chatTasks.entries[taskId]), now) ==>
                r == TaskExpired && chatTasks == PyDict.Remove(old(chatTasks), taskId)
      ensures taskId in old(chatTasks.entries) && !Expired(old(chatTasks.entries[taskId]), now) ==>
                r == TaskFound(old(chatTasks.entries[taskId])) && chatTasks == old(chatTasks)
    {
      if taskId !in chatTasks.entries {
        return TaskNotFound;
      }
      var task := chatTasks.entries[taskId];
      if Terminal(task.status) {
        var finished := FinishedAt(task);
        if finished.Some? && now - finished.value > OneHour {
          chatTasks := PyDict.Remove(chatTasks, taskId);
          return TaskExpired;
        }
      }
      r := TaskFound(task);
    }

    /** `GET /api/v1/chats_openai/tasks`: the number of all tasks, and the summaries of
        the newest `[:limit]` tasks, newest first. */
    function ListChatTasks(limit: int): (r: TaskList)
      reads this
      requires Valid()
      ensures r.total == |chatTasks.keys|
      ensures 0 <= limit ==> |r.tasks| == if limit <= |chatTasks.keys| then limit else |chatTasks.keys|
      ensures forall i, j :: 0 <= i < j < |r.tasks| ==> KeyAtLeast(r.tasks[i].createdAt, r.tasks[j].createdAt)
      ensures forall i :: 0 <= i < |r.tasks| ==> r.tasks[i] in Summaries(PyDict.Items(chatTasks))
      ensures limit >= |chatTasks.keys| ==> forall e :: e in PyDict.Items(chatTasks) ==> Summarize(e) in r.tasks
    {
      var items := PyDict.Items(chatTasks);
      ListingFacts(items, limit);
      TaskList(|chatTasks.keys|, ChatTasks.Listing(items, limit))
    }
  }
}