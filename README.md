# Knowledge-base customer-service API server, modelled in Dafny

This project models the back end of a retrieval-augmented customer-service
assistant. The server is a FastAPI application (`api_server.py`). It keeps three
in-memory dictionaries:

- `knowledge_bases`: the knowledge-base ("dataset") records;
- `documents_storage`: the records of uploaded documents;
- `chat_tasks`: the asynchronous chat tasks.

The server's handlers do the following:

- list, create and delete knowledge bases;
- list, upload and batch-delete documents;
- run a background job that pushes an uploaded file into the vector store and records its chunk count;
- accept a chat request as a task that a background worker moves through `processing → retrieving → generating → completed | failed`;
- return and list tasks, dropping a finished task an hour after it ended.

The document processor of `rag_doc_vect_embedding_csv.py` does two things:

- it splits documents into chunks, stamping each chunk with `chunk_id`, `chunk_index` and `original_id`;
- it writes the chunks to the vector store after asking the store to delete the same ids.

## Modules

| file | module | what it holds |
|---|---|---|
| `options.dfy` | `Options` | `Option` |
| `py_text.dfy` | `PyText` | Python slicing, `lower`, the `in` substring test, `strip`, `str(int)`, `Path.name`/`.suffix` |
| `py_dict.dfy` | `PyDict` | an insertion-ordered `dict` with string keys: put, delete, `values()`, `items()` |
| `embedding.dfy` | `Embedding` | `DocumentProcessor` and the vector store it writes to |
| `datasets.dfy` | `Datasets` | knowledge-base and document records, ids, the extension allow-list, paging, keyword filter, the batch-delete specification, the counters' consistency |
| `chat_tasks.dfy` | `ChatTasks` | task records, the status lifecycle, completion records, expiry, the newest-first listing |
| `csv_ingest.dfy` | `CsvIngest` | the CSV row → document builder |
| `api_server.dfy` | `ApiServer` | class `Server`: the three dictionaries as fields and every handler and background job as a method |

## How the model is built

- Handlers that change the dictionaries are methods of `ApiServer.Server`. Each has `modifies this` and states the whole new state in terms of the old one.
- The read-only handlers, `GetDatasets`, `GetDocuments` and `ListChatTasks`, are functions that read the object.
- `Server.Valid()` is preserved by every handler. It says:
  - every record sits under its own id;
  - every document belongs to an existing base and holds a non-negative `chunk_num`;
  - no base's `document_count` is below the number of documents it owns.
- `Server.ChunksAccounted()` says no base's `chunk_count` is below the sum of its documents' `chunk_num`. It is preserved by every handler and by every processing run for the base the document still belongs to.
- Loops of the source are `while` loops proved against specification functions:
  - the batch delete against `Datasets.BatchDelete`;
  - the dataset cascade against `Datasets.DropOwned`;
  - the chunking against `Embedding.Chunked`;
  - the CSV row loop against `CsvIngest.RowDocuments`.
- Lemmas relate these functions to what the source promises.
- Outside inputs are parameters:
  - the clock, `now`, is microseconds;
  - the MD5 digest and the fresh task UUID are uninterpreted;
  - the text splitter is a function;
  - the vector store records the requests it receives, and whether it fails is fixed when it is created;
  - what reading an uploaded file yields, with `None` when reading raises;
  - what the retriever and the LLM chain do, as `RagRun`;
  - whether the retrieval stack could be imported, as `ragAvailable`.
- A background job scheduled by a handler is returned to the caller as a value (`UploadJob`, `ChatJob`). The caller runs it by calling `ProcessUploadedDocument` or `ProcessChatTask`. A job therefore runs whole between two handler calls, and those are the interleavings the model covers.

Where the code does something unexpected, the model follows the code:

- A re-upload of the same file name overwrites the record but still increments `document_count`. `Consistent` therefore asks for `>=` and not `==`.
- In `chat_completions` the 400 for "no user message" is caught by the handler's own `except Exception` and re-raised as a 500.
- Without the retrieval stack, a `.txt` upload's processing raises because `DocumentProcessor` was never imported (api_server.py:20-33). The document is then marked failed.
- When the document's base is deleted before its processing run, deleting the base also removed the document. The run then finds no record and changes nothing.
- If the same file name was re-uploaded to another base in between, the record survives the delete. The run then writes `chunk_num` and marks the document failed, because the `knowledge_bases[kb_id]` update raises after the document update.
- A `.txt` document carries no `id` metadata, so its chunks are always named `doc_0_0`, `doc_0_1`, …. Any two text uploads that split into equally many chunks send the same ids, so the later upload's delete removes the earlier upload's vectors (`ApiServer.TextUploadsShareChunkIds`).
- The `chunk_num` a `.csv` upload records is the number of table rows, including empty rows that gave no document.

## Model

| member | source | states |
|---|---|---|
| ApiServer.Server.constructor | api_server.py:75-120 | with the retrieval stack, exactly the default base (one document, as many chunks as bundled CSV records, status active) and the CSV record; without it, all three dictionaries empty; both invariants hold |
| ApiServer.Server.GetDatasets | api_server.py:234-259 | `total` is the number of all bases, counted before paging; `data` is the window of `(page-1)*page_size` … `+page_size` over the bases in creation order |
| ApiServer.Server.CreateDataset | api_server.py:261-303 | a name whose id exists gives 400 and changes nothing; otherwise the new base is stored under `kb_` + digest with zeroed counters and status `active`; documents and tasks untouched; both invariants preserved |
| ApiServer.Server.DeleteDataset | api_server.py:305-341 | unknown id gives 404 and no change; otherwise the base is removed and exactly its documents go, the others keep their records and order; tasks untouched; invariants preserved |
| ApiServer.Server.DropDocuments | api_server.py:316-322 | the cascade loop leaves exactly the documents of other bases, in order, and leaves every other base's tallies unchanged |
| ApiServer.Server.Matching | api_server.py:355-361 | a document is listed iff it is stored, belongs to the base and its name contains the keyword ignoring case; with an empty keyword, all of the base's documents |
| ApiServer.Server.GetDocuments | api_server.py:343-382 | 404 exactly for an unknown base; otherwise every listed document belongs to the base and matches the keyword, `total` counts all matches before paging, and `data` is the requested window |
| ApiServer.Server.UploadDocument | api_server.py:384-450 | 404 for an unknown base; 400 for an extension outside {.pdf,.docx,.txt,.csv,.xlsx}; 500 on a failed write, which is always the case when the name ends in `/` or `/.` (the saved path is then a directory); a failure changes nothing; otherwise the record is stored under `doc_` + digest with status processing and chunk_num 0, `document_count` grows by one, and a job is scheduled iff the retrieval stack is present |
| ApiServer.Server.AddRecord | api_server.py:428-435 | storing the record and counting one more document keeps both invariants, even when it overwrites an earlier upload |
| ApiServer.Server.Settle | api_server.py:466-509 | a run's outcome: chunk_num and completed (failed if the base is gone) plus the base's chunk_count, or failed on an exception; a vanished document stays vanished; invariants preserved |
| ApiServer.Server.ProcessCsvToVectorStore | api_server.py:130-187 | false without the retrieval stack, when the file cannot be read, or when no row yields a document, with no store traffic then; otherwise the row documents go through a default processor and the answer is whether the store's add succeeded |
| ApiServer.Server.RunProcessing | api_server.py:457-500 | the store traffic and outcome of a run per extension: csv sends the row documents and settles with the row count unless reading, the stack or the add fails; txt sends one text document and settles with `len//500+1` unless the stack or the add fails; any other type sends nothing and settles with 1 |
| ApiServer.Server.ProcessUploadedDocument | api_server.py:452-509 | per extension: csv records the row count or fails; txt sends one text document and records `len//500+1`, or fails (add failure, or no retrieval stack); any other type records 1 chunk; the state change is `Settle`'s |
| ApiServer.Server.DeleteDocuments | api_server.py:511-549 | 404 and no change for an unknown base; otherwise the documents left and the deleted count are those of `BatchDelete`, and the base's two counters drop by the deleted count and by the freed chunks; invariants preserved |
| ApiServer.DeleteListed | api_server.py:522-537 | the deletion loop computes exactly `BatchDelete` of the ids |
| ApiServer.Server.ChatCompletions | api_server.py:552-587 | no user message gives 500 and no change; otherwise a task for the last user message is stored with status processing and its creation time, a worker job is scheduled, and the ticket points to `/api/v1/chats_openai/task/<id>` |
| ApiServer.Server.ProcessChatTask | api_server.py:589-715 | `trace` logs the status stored right after each write, and that log is `Trace`, a forward-only lifecycle from processing; the final record is `Finish`, which keeps the question and created_at; a vanished task is recreated as failed |
| ApiServer.Server.GetChatTask | api_server.py:717-748 | unknown gives not-found and no change; a task finished strictly more than one hour ago is deleted and reported expired; any other task is returned unchanged |
| ApiServer.Server.ListChatTasks | api_server.py:750-777 | `total` is the number of tasks; at most `limit` lines, newest first, each the summary of a stored task, and every task listed when the limit covers them all |
| ApiServer.ProcessorConfig | rag_doc_vect_embedding_csv.py:70-80 | `DocumentProcessor()` splits with chunk size 500, overlap 50 and the separators `\n\n`, `\n`, `。`, `.`, space, empty |
| ApiServer.StoreCalls | rag_doc_vect_embedding_csv.py:94-111 | a default processor sends a delete and then an add with the same ids, one per chunk, the add carrying the chunks |
| ApiServer.TextUploadsShareChunkIds | api_server.py:476-490 | two text uploads that split into equally many chunks send identical ids, `doc_0_` followed by the chunk index, whatever their paths and bases |
| ApiServer.UnnamedChunkId | rag_doc_vect_embedding_csv.py:85-87 | chunk i of a lone document without `id` is stored under `doc_0_` and i |
| ApiServer.EstimatedChunks | api_server.py:492-494 | the estimate n is at least 1 and satisfies `(n-1)*500 <= len < n*500` |
| Datasets.DefaultRequest | api_server.py:62-67 | the request model's defaults: empty description, "naive", 512, 50 |
| Datasets.NewKnowledgeBase | api_server.py:276-289 | the new record copies the request, has zero documents and chunks, status active, created now |
| Datasets.UploadedRecord | api_server.py:414-425 | the record of an upload: digest id, saved under `./data/`, size in bytes, status processing, chunk_num 0, type the extension without its dot |
| Datasets.KbId | api_server.py:122-124 | ids are `kb_` followed by at most 8 characters |
| Datasets.DocId | api_server.py:126-128 | ids are `doc_` followed by at most 8 characters |
| Datasets.Extension | api_server.py:396-397 | the lower-cased suffix is empty or a dot followed by at least one character |
| Datasets.ExtensionIsLowerCase | api_server.py:397 | the extension holds no upper-case letter, so `.PDF` and `.pdf` are checked alike |
| Datasets.SavedFileKeepsExtension | api_server.py:408 | for any name with a final component (every accepted name has one), the path the job recomputes the extension from gives the extension the upload checked |
| Datasets.TrailingSeparatorKeepsExtension | api_server.py:397-412 | a name with a trailing separator, such as `a.pdf/`, has extension `.pdf` and passes the check, but its saved path does not end in a file name |
| Datasets.AllowedNeedsSuffix | api_server.py:396-404 | an accepted name has a real suffix: names without one, and dot-files like ".txt", are refused |
| Datasets.InKb | api_server.py:355-356 | the base's documents in storage order; their number is the base's document tally |
| Datasets.WithKeyword | api_server.py:358-361 | keeps exactly the documents whose name contains the keyword ignoring case, in order |
| Datasets.EmptyKeywordKeepsAll | api_server.py:358-361 | the empty keyword would match every document, so skipping the filter for it changes nothing |
| Datasets.PageWindow | api_server.py:363-366 | for page ≥ 1 and size ≥ 0 a page is exactly the window at `(page-1)*size` of that size, clipped to the list |
| Datasets.PageZeroIsEmpty | api_server.py:363-366 | page 0 is always empty |
| Datasets.PagesTile | api_server.py:363-366 | pages 1..n together are exactly the first n·size items: nothing is skipped or repeated |
| Datasets.OwnedInOrder | api_server.py:316-317 | the ids of a base's documents, in storage order |
| Datasets.DropOwned | api_server.py:316-322 | after the cascade, a document remains iff it belonged to another base, with its record and order unchanged |
| Datasets.DroppedOwned | api_server.py:316-322 | deleting the listed ids one by one is dropping the base's documents |
| Datasets.DroppedElsewhere | api_server.py:316-322 | deleting a base's documents leaves every other base's tallies alone |
| Datasets.Requested | api_server.py:522-523 | the ids that pass the loop's test: listed, stored and of this base |
| Datasets.BatchDelete | api_server.py:522-537 | what remains is a sub-dictionary of the original, and at most one deletion is counted per listed id |
| Datasets.BatchDeleteRemovesRequested | api_server.py:522-542 | the batch delete removes exactly the requested documents, and `deleted_count` is their number, so repeated, unknown and foreign ids are not counted |
| Datasets.BatchDeleteTallies | api_server.py:531-536 | the base's document tally drops by `deleted_count` and its chunk tally by the freed chunks; other bases are unaffected |
| Datasets.Discounted | api_server.py:531-533 | only the two counters of the record change, each lowered by the given amount |
| Datasets.SettleDocs | api_server.py:466-509 | only the processed document changes: chunk_num and completed, failed if its base is gone, or failed on an exception |
| Datasets.SettleKbs | api_server.py:466-502 | only the job's base changes, gaining the recorded chunks, and only when the run settled for a document that still exists |
| Datasets.SettleKeepsConsistent | api_server.py:452-509 | a processing run keeps the records consistent |
| Datasets.SettleKeepsChunksCovered | api_server.py:452-509 | a run for the document's own base keeps chunk_count at or above its documents' chunks |
| Datasets.CreateKeepsConsistent | api_server.py:276-291 | a new base with zeroed counters owns no document, so consistency and chunk coverage are kept |
| Datasets.UploadKeepsConsistent | api_server.py:428-435 | an upload keeps consistency, including an overwrite of a record of any base |
| Datasets.DeleteDocsKeepsConsistent | api_server.py:522-537 | lowering the document counter by exactly what left the document tally keeps consistency |
| Datasets.DeleteDocsKeepsCovered | api_server.py:522-537 | lowering the chunk counter by exactly the freed chunks keeps chunk coverage |
| Datasets.DeleteBaseKeepsConsistent | api_server.py:316-325 | removing a base after its documents keeps consistency and chunk coverage |
| Datasets.TallyPut | api_server.py:428 | overwriting a record moves tallies only by the record replaced and the record stored |
| Datasets.TallyRemove | api_server.py:536 | deleting a record takes exactly its share off its base's tallies |
| ChatTasks.LifecycleMovesForward | api_server.py:589-715 | along a lifecycle no status comes back and a terminal status is last |
| ChatTasks.LastUserQuestion | api_server.py:557-561 | None iff no message has role user; otherwise the content of the last such message |
| ChatTasks.NewTask | api_server.py:567-572 | status processing, the question, created now, nothing else set |
| ChatTasks.Trace | api_server.py:589-715 | the worker's statuses, after the initial processing, form a lifecycle ending in a terminal status: retrieving→generating→completed or failed with the retrieval stack, retrieving→completed in demo mode, failed alone for a vanished task |
| ChatTasks.Finish | api_server.py:617-715 | the final record keeps created_at and the question; completed carries the answer (or the demo answer) and completed_at; failed carries the error and failed_at; a vanished task comes back bare with the KeyError text |
| ChatTasks.MakeCompletion | api_server.py:620-641 | id `chatcmpl-` + first 10 characters of the task id, created in whole seconds, the answer as content, token numbers by whitespace word count, total the sum |
| ChatTasks.NoWordsIffBlank | api_server.py:638-639 | the word count is zero exactly for a whitespace-only text |
| ChatTasks.FinishedAt | api_server.py:728 | the finish time is completed_at if set, else failed_at |
| ChatTasks.ExpiryBoundary | api_server.py:726-733 | a finished task expires exactly when now is strictly more than one hour past its finish; an unfinished task never expires |
| ChatTasks.ExpiredStaysExpired | api_server.py:726-733 | waiting longer never un-expires a task |
| ChatTasks.SortNewestFirst | api_server.py:755-759 | the sorted entries are a permutation of the items, newest created_at first, a missing one last |
| ChatTasks.SortKeepsKeyOrder | api_server.py:755-759 | the sort is stable: tasks with equal created_at keep their insertion order, which decides which tied tasks `[:limit]` keeps |
| ChatTasks.InsertKeepsKeyOrder | api_server.py:755-759 | inserting one entry into a sorted list puts it after the entries with its key |
| ChatTasks.Preview | api_server.py:767 | a question over 50 characters is shown as its first 50 and "..."; others unchanged |
| ChatTasks.Summarize | api_server.py:763-769 | a line carries the task id, status, preview, created_at and message of its task |
| ChatTasks.ListingPrefix | api_server.py:771 | the listing is the first `[:limit]` of the sorted tasks with Python's slice semantics; for limit ≥ 0 its length is min(limit, n) |
| ChatTasks.ListingNewestFirst | api_server.py:755-771 | the listed lines are newest first |
| ChatTasks.ListingFromEntries | api_server.py:755-771 | every line summarizes some stored task |
| ChatTasks.ListingComplete | api_server.py:755-771 | with a limit of at least the number of tasks, every task is listed |
| ChatTasks.ListingFacts | api_server.py:755-771 | the listing's length, order, provenance and completeness together |
| CsvIngest.BuildRowContent | api_server.py:147-157 | the loop builds exactly the row's text: title line, description line, then every other valued column in order |
| CsvIngest.RowContentBlank | api_server.py:159 | a row's text strips to nothing exactly when no column of the row holds a value |
| CsvIngest.CsvDocuments | api_server.py:145-173 | the row loop yields exactly `RowDocuments` of the table |
| CsvIngest.RowDocuments | api_server.py:145-173 | at most one document per row, each with non-blank text and a row id and without an `id` |
| CsvIngest.RowDocumentsFromRows | api_server.py:159-171 | every document is the stripped text of the row its `row_id` names, with source, kb_id and type csv_row |
| CsvIngest.RowDocumentsCount | api_server.py:145-173 | there is exactly one document per row that holds some value |
| CsvIngest.MadeFromValuedRow | api_server.py:159 | a document with text comes from a row with a value |
| Embedding.OriginalId | rag_doc_vect_embedding_csv.py:85 | the document's own `id` if it has one, otherwise `doc_` + the number of chunks emitted before the document |
| Embedding.TagChunks | rag_doc_vect_embedding_csv.py:83-90 | chunk i of a document is its i-th split text, stamped with index i |
| Embedding.TagChunksStep | rag_doc_vect_embedding_csv.py:83-90 | stamping one more split text appends exactly that chunk |
| Embedding.ChunkedUpTo | rag_doc_vect_embedding_csv.py:82-91 | after n documents, the output holds as many chunks as their split texts, each with a string chunk_id |
| Embedding.Chunked | rag_doc_vect_embedding_csv.py:74-92 | one chunk per split text over all documents, every chunk carrying a string chunk_id |
| Embedding.ChunkedAt | rag_doc_vect_embedding_csv.py:82-91 | chunk i of document j sits right after the chunks of the earlier documents, has index i and id `<original id>_i` |
| Embedding.ChunkedPrefix | rag_doc_vect_embedding_csv.py:82-91 | chunks are only appended: the chunks of a prefix of the documents are a prefix of the output |
| Embedding.ChunkIdsDistinct | rag_doc_vect_embedding_csv.py:87 | two chunks of one document never share a chunk id |
| Embedding.ChunkIds | rag_doc_vect_embedding_csv.py:98 | one id per chunk, its `chunk_id`, in chunk order |
| Embedding.DocumentProcessor.constructor | rag_doc_vect_embedding_csv.py:70-72 | chunk size and overlap default to 500 and 50 |
| Embedding.DocumentProcessor.Config | rag_doc_vect_embedding_csv.py:76-80 | the splitter takes the processor's size, overlap and the fixed separators |
| Embedding.DocumentProcessor.ChunkDocuments | rag_doc_vect_embedding_csv.py:74-92 | the nested loop computes exactly `Chunked` |
| Embedding.DocumentProcessor.ProcessAndStore | rag_doc_vect_embedding_csv.py:94-117 | the store receives a delete and then an add of the chunks under the same ids; a failed delete is ignored, a failed add is raised, otherwise the chunk count is returned |
| Embedding.VectorStore.Delete | rag_doc_vect_embedding_csv.py:102 | records the delete request; fails as the store is set up to |
| Embedding.VectorStore.AddDocuments | rag_doc_vect_embedding_csv.py:108-111 | records the add request; fails as the store is set up to |
| PyText.Slice | api_server.py:243 | Python's `s[a:b]`, with negative bounds counted from the end and clamping: a sub-multiset of s, never longer |
| PyText.SliceWindow | api_server.py:366 | for non-negative bounds a slice holds exactly the existing positions a..b-1 |
| PyText.Take | api_server.py:124 | `s[:n]` is the prefix of length min(n, len) |
| PyText.Lower | api_server.py:361 | `lower()` maps every ASCII capital to its small letter, position by position |
| PyText.Contains | api_server.py:361 | `needle in hay` holds iff needle occurs at some position |
| PyText.Strip | api_server.py:159 | `strip()` yields a piece of s with only whitespace before and after it, that neither starts nor ends with whitespace, and is empty iff s is all whitespace |
| PyText.NatToStringInjective | rag_doc_vect_embedding_csv.py:87 | different numbers print differently |
| PyText.DigitsRoundTrip | rag_doc_vect_embedding_csv.py:87 | reading back `str(n)` gives n |
| PyText.Suffix | api_server.py:397 | `Path.suffix`: from the last dot, unless that dot is first or last in the name; empty exactly when no such dot exists |
| PyText.BaseName | api_server.py:397 | `Path.name`: the final component once trailing separators and `.` parts are dropped, between a separator (or the start) and a separator (or the end), with only separators and dots after it; never contains `/` and is never `.`; empty only for a path made of separators and dots |
| PyText.BaseNameUnderDirectory | api_server.py:408 | a file saved under a directory keeps its name |
| PyDict.Put | api_server.py:428 | `d[k] = v` keeps a present key's position and appends a new key |
| PyDict.Remove | api_server.py:535 | `del d[k]` removes k and keeps the order of the rest |
| PyDict.ValuesPutPresent | api_server.py:428 | overwriting a present key replaces its value in place in `values()` |
| PyDict.ValuesPutNew | api_server.py:428 | a new key's value is appended to `values()` |
| PyDict.ValuesRemove | api_server.py:535 | deleting a key removes exactly its value from `values()` |

## Left out

- The HTTP layer: FastAPI routing, request parsing, and response bodies beyond the code and the data that matters. A reply is `Ok(data)` for code 0 and `Fail(code)` otherwise; message strings and log lines are not modelled.
- File-system effects: `os.makedirs`, writing the upload, `os.remove` of a deleted document's file, and reading files back. A failed upload write is the `writeFails` parameter. Reading a CSV or text file is a parameter whose `None` means it raised. The second `pd.read_csv` in `process_uploaded_document` is taken to give the same table as the first.
- `ApiServer.Server.DeleteDocuments`: an `os.remove` that raises part-way through the loop leaves the earlier deletions done and answers 500. The model takes file removal to succeed.
- The catch-all `except Exception` 500 branches of `get_datasets`, `get_documents`, `create_dataset` and `delete_dataset`, and the `{"total": 0, "tasks": []}` fallback of `list_chat_tasks`. Nothing in the modelled inputs can raise there.
- Concurrency: `BackgroundTasks` and `asyncio` executors are modelled as jobs run later, one whole call at a time. A handler call cannot fall between two writes of one worker run. For example, a `get_chat_task` poll at that point would see `retrieving` or `generating`; in the model those statuses appear only in the worker's `trace`.
- `Embedding.VectorStore`: whether its delete and add requests fail is fixed when the store is created. A store that fails one request and accepts a later one is not modelled.
- The retriever, the LLM chain, the text-splitting algorithm and the vector store's contents are external. They are `RagRun`, the `Splitter` function and a store that records requests.
- `ChatTasks.MakeCompletion`: `completion_tokens` is 50 when the chain returns a non-string. The model's chain always answers with a string.
- The demo-mode answer text and the two-second `asyncio.sleep`: the answer is the `demoAnswer` function of the question, and time does not pass during a call.
- The progress messages a task carries: their wording is abstracted as `TaskMessage` constructors.
- `datetime` and ISO strings: times are integers (microseconds), and an ISO string is taken to order as its instant does.
- `generate_kb_id`/`generate_doc_id`: MD5 is an uninterpreted function, so two names can collide. That is why `CreateDataset`'s 400 branch and the re-upload overwrite are modelled rather than ruled out.
- `PyText.Lower`: only ASCII capitals are lowered, not the full Unicode mapping of `str.lower`.
- `ApiServer.Server.ChunksAccounted` holds after a processing run only when the document still belongs to the job's base. If the file name was re-uploaded to another base in between, the job adds chunks to its original base while the record moves. The invariant is therefore not part of `Valid()`.
- `ApiServer.Server.constructor`: the number of bundled CSV records is a parameter (`len(df_csv)`, 0 when that table was never loaded).
- `initialize_system`'s `init_directories()` and the exception it swallows: directories are file-system effects.
- The other endpoints (`system_status`, `test_retriever`, `get_vector_stats`, `send_message`, `health_check`, `get_system_info`), the module-level code of `rag_doc_vect_embedding_csv.py` (loading the CSV, building the embeddings and the store, `check_ollama_service`), `rag_doc_vect_agent_main.py`, `rag_doc_vect_retriever.py` and the duplicate copy of the server file are not part of this model. They are I/O around the core.
