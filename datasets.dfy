/**
 * Knowledge bases ("datasets") and the records of uploaded documents, as the API
 * server keeps them in its `knowledge_bases` and `documents_storage` dictionaries:
 * the records, the ids the server derives from names, the allow-list of file
 * extensions, the per-base tallies the counters are measured against, and the
 * filtering and paging of the list endpoints.
 */
module Datasets {
  import opened Options
  import PyText
  import PyDict

  datatype KnowledgeBase = KnowledgeBase(
    id: string,
    name: string,
    description: string,
    chunkMethod: string,
    chunkSize: int,
    chunkOverlap: int,
    documentCount: int,
    chunkCount: int,
    status: string,
    createdAt: int)

  /** The body of a create request, after the request model has filled in its defaults. */
  datatype CreateRequest = CreateRequest(
    name: string,
    description: string,
    chunkMethod: string,
    chunkSize: int,
    chunkOverlap: int)

  /** The request model's defaults for the optional fields. */
  function DefaultRequest(name: string): (r: CreateRequest)
    ensures r.name == name && r.description == "" && r.chunkMethod == "naive"
    ensures r.chunkSize == 512 && r.chunkOverlap == 50
  {
    CreateRequest(name, "", "naive", 512, 50)
  }

  /** The record a create request adds: empty counters, status "active". */
  function NewKnowledgeBase(id: string, request: CreateRequest, now: int): (kb: KnowledgeBase)
    ensures kb.id == id && kb.name == request.name && kb.description == request.description
    ensures kb.chunkMethod == request.chunkMethod && kb.chunkSize == request.chunkSize && kb.chunkOverlap == request.chunkOverlap
    ensures kb.documentCount == 0 && kb.chunkCount == 0 && kb.status == "active" && kb.createdAt == now
  {
    KnowledgeBase(id, request.name, request.description, request.chunkMethod, request.chunkSize, request.chunkOverlap, 0, 0, "active", now)
  }

  datatype DocStatus = Processing | Completed | Failed

  datatype StoredDocument = StoredDocument(
    id: string,
    name: string,
    kbId: string,
    filePath: Option<string>,
    size: string,
    status: DocStatus,
    chunkNum: int,
    createdAt: int,
    fileType: string)

  /** The record an accepted upload stores: saved under the data directory, waiting
      for processing, with no chunks yet. */
  function UploadedRecord(digest: string -> string, kbId: string, filename: string, size: nat, now: int): (d: StoredDocument)
    ensures d.id == DocId(digest, filename) && d.name == filename && d.kbId == kbId
    ensures d.filePath == Some(DataDir + filename) && d.size == PyText.NatToString(size) + " bytes"
    ensures d.status == Processing && d.chunkNum == 0 && d.createdAt == now
    ensures Extension(filename) != "" ==> "." + d.fileType == Extension(filename)
  {
    var ext := Extension(filename);
    StoredDocument(DocId(digest, filename), filename, kbId, Some(DataDir + filename), PyText.NatToString(size) + " bytes",
                   Processing, 0, now, if ext == "" then "" else ext[1..])
  }

  /** The upload endpoint's allow-list, compared against the lower-cased extension. */
  const AllowedExtensions: set<string> := {".pdf", ".docx", ".txt", ".csv", ".xlsx"}

  /** Where uploads are saved. */
  const DataDir: string := "./data/"

  /** `generate_kb_id`: "kb_" and the first 8 characters of the hex digest of the name. */
  function KbId(digest: string -> string, name: string): (id: string)
    ensures 3 <= |id| <= 11 && id[..3] == "kb_"
  {
    "kb_" + PyText.Take(digest(name), 8)
  }

  /** `generate_doc_id`: "doc_" and the first 8 characters of the hex digest of the file name. */
  function DocId(digest: string -> string, filename: string): (id: string)
    ensures 4 <= |id| <= 12 && id[..4] == "doc_"
  {
    "doc_" + PyText.Take(digest(filename), 8)
  }

  /** `Path(filename).suffix.lower()`. */
  function Extension(filename: string): (ext: string)
    ensures ext == "" || (|ext| >= 2 && ext[0] == '.')
  {
    PyText.Lower(PyText.Suffix(PyText.BaseName(filename)))
  }

  /** The extension holds no upper-case letter, so the allow-list check ignores case. */
  lemma ExtensionIsLowerCase(filename: string)
    ensures forall i :: 0 <= i < |Extension(filename)| ==> !PyText.IsUpper(Extension(filename)[i])
  {
  }

  /** The background step recomputes the extension from the saved path and finds the
      one the upload checked, for any name with a final component (every accepted name
      has one). */
  lemma {:induction false} SavedFileKeepsExtension(filename: string)
    requires PyText.BaseName(filename) != ""
    ensures Extension(DataDir + filename) == Extension(filename)
  {
    PyText.BaseNameUnderDirectory(DataDir, filename);
  }

  /** A name with a trailing separator still has its extension, as `Path` drops the
      separator, but the path it is saved under names a directory. */
  lemma TrailingSeparatorKeepsExtension()
    ensures Extension("a.pdf/") == ".pdf"
    ensures !PyText.EndsInName(DataDir + "a.pdf/")
  {
    var f := "a.pdf/";
    assert PyText.LastBefore(f, 5, '/') == -1;
    assert PyText.EndBefore(f, 6) == 5;
    assert PyText.NameStart(f) == 0;
    assert PyText.BaseName(f) == "a.pdf";
    assert PyText.Suffix("a.pdf") == ".pdf";
    SavedFileKeepsExtension(f);
    PyText.EndBeforeUnderDirectory(DataDir, f, |f|);
  }

  /** An upload is accepted exactly when its lower-cased extension is on the allow-list;
      a name without an extension (or a dot-file such as ".txt") never is. */
  lemma AllowedNeedsSuffix(filename: string)
    requires Extension(filename) in AllowedExtensions
    ensures PyText.Suffix(PyText.BaseName(filename)) != ""
  {
  }

  // ---------------------------------------------------------------------------
  // Tallies of the documents that belong to one knowledge base
  // ---------------------------------------------------------------------------

  /** How many of the documents belong to kb. */
  function CountIn(s: seq<StoredDocument>, kb: string): nat {
    if s == [] then 0 else (if s[0].kbId == kb then 1 else 0) + CountIn(s[1..], kb)
  }

  /** The sum of the chunk numbers of the documents that belong to kb. */
  function ChunksIn(s: seq<StoredDocument>, kb: string): int {
    if s == [] then 0 else (if s[0].kbId == kb then s[0].chunkNum else 0) + ChunksIn(s[1..], kb)
  }

  lemma {:induction false} TallyConcat(a: seq<StoredDocument>, b: seq<StoredDocument>, kb: string)
    ensures CountIn(a + b, kb) == CountIn(a, kb) + CountIn(b, kb)
    ensures ChunksIn(a + b, kb) == ChunksIn(a, kb) + ChunksIn(b, kb)
  {
    if a != [] {
      assert (a + b)[0] == a[0] && (a + b)[1..] == a[1..] + b;
      TallyConcat(a[1..], b, kb);
    } else {
      assert a + b == b;
    }
  }

  /** Replacing the document at position j moves its share of the tallies from its
      old base to its new one. */
  lemma TallyUpdate(s: seq<StoredDocument>, j: nat, d: StoredDocument, kb: string)
    requires j < |s|
    ensures CountIn(s[j := d], kb) == CountIn(s, kb) - (if s[j].kbId == kb then 1 else 0) + (if d.kbId == kb then 1 else 0)
    ensures ChunksIn(s[j := d], kb) == ChunksIn(s, kb) - (if s[j].kbId == kb then s[j].chunkNum else 0) + (if d.kbId == kb then d.chunkNum else 0)
  {
    assert s == s[..j] + ([s[j]] + s[j + 1..]);
    assert s[j := d] == s[..j] + ([d] + s[j + 1..]);
    TallyConcat(s[..j], [s[j]] + s[j + 1..], kb);
    TallyConcat([s[j]], s[j + 1..], kb);
    TallyConcat(s[..j], [d] + s[j + 1..], kb);
    TallyConcat([d], s[j + 1..], kb);
  }

  /** Removing the document at position j takes its share off its base's tallies. */
  lemma TallyRemoveAt(s: seq<StoredDocument>, j: nat, kb: string)
    requires j < |s|
    ensures CountIn(s[..j] + s[j + 1..], kb) == CountIn(s, kb) - (if s[j].kbId == kb then 1 else 0)
    ensures ChunksIn(s[..j] + s[j + 1..], kb) == ChunksIn(s, kb) - (if s[j].kbId == kb then s[j].chunkNum else 0)
  {
    assert s == s[..j] + ([s[j]] + s[j + 1..]);
    TallyConcat(s[..j], [s[j]] + s[j + 1..], kb);
    TallyConcat([s[j]], s[j + 1..], kb);
    TallyConcat(s[..j], s[j + 1..], kb);
  }

  /** A base that owns none of the documents has empty tallies. */
  lemma {:induction false} TallyNone(s: seq<StoredDocument>, kb: string)
    requires forall i :: 0 <= i < |s| ==> s[i].kbId != kb
    ensures CountIn(s, kb) == 0 && ChunksIn(s, kb) == 0
  {
    if s != [] {
      TallyNone(s[1..], kb);
    }
  }

  // ---------------------------------------------------------------------------
  // Filtering and paging of the list endpoints
  // ---------------------------------------------------------------------------

  /** The documents of kb, in storage order. Their number is the base's document tally. */
  function InKb(s: seq<StoredDocument>, kb: string): (r: seq<StoredDocument>)
    ensures forall d :: d in r <==> d in s && d.kbId == kb
    ensures |r| == CountIn(s, kb)
  {
    if s == [] then []
    else (if s[0].kbId == kb then [s[0]] else []) + InKb(s[1..], kb)
  }

  /** Whether a document name matches a keyword, ignoring case. */
  predicate NameMatches(name: string, keywords: string) {
    PyText.Contains(PyText.Lower(name), PyText.Lower(keywords))
  }

  /** The documents whose name contains the keyword, ignoring case, in their order. */
  function WithKeyword(s: seq<StoredDocument>, keywords: string): (r: seq<StoredDocument>)
    ensures forall d :: d in r <==> d in s && NameMatches(d.name, keywords)
    ensures |r| <= |s|
  {
    if s == [] then []
    else (if NameMatches(s[0].name, keywords) then [s[0]] else []) + WithKeyword(s[1..], keywords)
  }

  /** The empty keyword matches every name, so filtering by it keeps everything. */
  lemma {:induction false} EmptyKeywordKeepsAll(s: seq<StoredDocument>)
    ensures WithKeyword(s, "") == s
  {
    if s != [] {
      PyText.EmptyIsContained(PyText.Lower(s[0].name));
      EmptyKeywordKeepsAll(s[1..]);
    }
  }

  /** `items[(page - 1) * page_size : (page - 1) * page_size + page_size]`. */
  function Page<T>(items: seq<T>, page: int, pageSize: int): seq<T> {
    var start := (page - 1) * pageSize;
    PyText.Slice(items, start, start + pageSize)
  }

  /** r holds exactly the items of the window of the given size starting at position
      start that exist, in their order. */
  ghost predicate IsWindow<T>(r: seq<T>, items: seq<T>, start: int, size: int) {
    && |r| == (if start <= |items| then (if start + size <= |items| then start + size else |items|) - start else 0)
    && forall k :: 0 <= k < |r| ==> 0 <= start + k < |items| && r[k] == items[start + k]
  }

  lemma SliceIsWindow<T>(items: seq<T>, start: int, size: int)
    requires start >= 0 && size >= 0
    ensures IsWindow(PyText.Slice(items, start, start + size), items, start, size)
  {
    PyText.SliceWindow(items, start, start + size);
  }

  /** For page >= 1 and a non-negative page size, page p of a list is the window of
      that size starting at (p - 1) * size. */
  lemma PageWindow<T>(items: seq<T>, page: int, pageSize: int)
    requires page >= 1 && pageSize >= 0
    ensures IsWindow(Page(items, page, pageSize), items, (page - 1) * pageSize, pageSize)
  {
    var start := (page - 1) * pageSize;
    MulNonNegative(page - 1, pageSize);
    SliceIsWindow(items, start, pageSize);
    assert Page(items, page, pageSize) == PyText.Slice(items, start, start + pageSize);
  }

  lemma MulNonNegative(a: int, b: int)
    requires a >= 0 && b >= 0
    ensures a * b >= 0
  {
  }

  /** Page 0 is always empty: its slice ends at position 0. */
  lemma PageZeroIsEmpty<T>(items: seq<T>, pageSize: int)
    requires pageSize >= 0
    ensures Page(items, 0, pageSize) == []
  {
  }

  /** Consecutive pages tile the list: together pages 1..n hold its first n * size items. */
  lemma {:induction false} PagesTile<T>(items: seq<T>, n: nat, pageSize: nat)
    requires n * pageSize <= |items|
    ensures Pages(items, n, pageSize) == items[..n * pageSize]
  {
    if n > 0 {
      assert (n - 1) * pageSize == n * pageSize - pageSize;
      PagesTile(items, n - 1, pageSize);
      PageWindow(items, n, pageSize);
      var p := Page(items, n, pageSize);
      assert |p| == pageSize;
      assert p == items[(n - 1) * pageSize..n * pageSize];
      assert items[..n * pageSize] == items[..(n - 1) * pageSize] + items[(n - 1) * pageSize..n * pageSize];
    }
  }

  /** Pages 1..n of the list, concatenated. */
  function Pages<T>(items: seq<T>, n: nat, pageSize: int): seq<T> {
    if n == 0 then [] else Pages(items, n - 1, pageSize) + Page(items, n, pageSize)
  }

  // ---------------------------------------------------------------------------
  // Tallies over the documents dictionary
  // ---------------------------------------------------------------------------

  /** Storing d under id k moves the tallies by the record it replaces and by d. */
  lemma TallyPut(docs: PyDict.Dict<StoredDocument>, k: string, d: StoredDocument, kb: string)
    requires PyDict.Valid(docs)
    ensures var vs, ws := PyDict.Values(docs), PyDict.Values(PyDict.Put(docs, k, d));
      var gone := k in docs.entries && docs.entries[k].kbId == kb;
      && CountIn(ws, kb) == CountIn(vs, kb) - (if gone then 1 else 0) + (if d.kbId == kb then 1 else 0)
      && ChunksIn(ws, kb) == ChunksIn(vs, kb) - (if gone then docs.entries[k].chunkNum else 0) + (if d.kbId == kb then d.chunkNum else 0)
  {
    var vs := PyDict.Values(docs);
    if k in docs.entries {
      PyDict.ValuesPutPresent(docs, k, d);
      TallyUpdate(vs, PyDict.IndexOf(docs.keys, k), d, kb);
    } else {
      PyDict.ValuesPutNew(docs, k, d);
      TallyConcat(vs, [d], kb);
      assert [d][1..] == [];
    }
  }

  /** Deleting the record under k takes its share off its base's tallies. */
  lemma TallyRemove(docs: PyDict.Dict<StoredDocument>, k: string, kb: string)
    requires PyDict.Valid(docs) && k in docs.entries
    ensures var vs, ws := PyDict.Values(docs), PyDict.Values(PyDict.Remove(docs, k));
      && CountIn(ws, kb) == CountIn(vs, kb) - (if docs.entries[k].kbId == kb then 1 else 0)
      && ChunksIn(ws, kb) == ChunksIn(vs, kb) - (if docs.entries[k].kbId == kb then docs.entries[k].chunkNum else 0)
  {
    PyDict.ValuesRemove(docs, k);
    TallyRemoveAt(PyDict.Values(docs), PyDict.IndexOf(docs.keys, k), kb);
  }

  /** Tallies of documents with non-negative chunk numbers are non-negative. */
  lemma {:induction false} ChunksInNonNegative(s: seq<StoredDocument>, kb: string)
    requires forall i :: 0 <= i < |s| ==> s[i].chunkNum >= 0
    ensures ChunksIn(s, kb) >= 0
  {
    if s != [] {
      ChunksInNonNegative(s[1..], kb);
    }
  }

  // ---------------------------------------------------------------------------
  // Deleting a knowledge base's documents
  // ---------------------------------------------------------------------------

  /** The ids of the documents that belong to kb. */
  function Owned(docs: map<string, StoredDocument>, kb: string): set<string> {
    set k | k in docs && docs[k].kbId == kb
  }

  /** `[doc_id for doc_id, doc in documents_storage.items() if doc["kb_id"] == kb]`:
      the ids, in storage order, of the documents that belong to kb. */
  function OwnedInOrder(keys: seq<string>, docs: map<string, StoredDocument>, kb: string): (r: seq<string>)
    requires forall k :: k in keys ==> k in docs
    ensures forall k :: k in r <==> k in keys && docs[k].kbId == kb
  {
    if keys == [] then []
    else (if docs[keys[0]].kbId == kb then [keys[0]] else []) + OwnedInOrder(keys[1..], docs, kb)
  }

  /** Filtering a duplicate-free key order leaves it duplicate-free, so every id the
      cascade deletes is still present when its turn comes. */
  lemma {:induction false} OwnedInOrderDistinct(keys: seq<string>, docs: map<string, StoredDocument>, kb: string)
    requires forall k :: k in keys ==> k in docs
    requires PyDict.Distinct(keys)
    ensures PyDict.Distinct(OwnedInOrder(keys, docs, kb))
  {
    if keys != [] {
      OwnedInOrderDistinct(keys[1..], docs, kb);
      var rest := OwnedInOrder(keys[1..], docs, kb);
      if docs[keys[0]].kbId == kb {
        assert ([keys[0]] + rest)[1..] == rest;
      } else {
        assert [] + rest == rest;
      }
    }
  }

  /** The documents dictionary without the documents of kb; the others keep their
      records and their order. */
  function DropOwned(docs: PyDict.Dict<StoredDocument>, kb: string): (r: PyDict.Dict<StoredDocument>)
    requires PyDict.Valid(docs)
    ensures PyDict.Valid(r)
    ensures forall k :: k in r.entries <==> k in docs.entries && docs.entries[k].kbId != kb
    ensures forall k :: k in r.entries ==> r.entries[k] == docs.entries[k]
    ensures r.keys == PyDict.Without(docs.keys, Owned(docs.entries, kb))
  {
    PyDict.WithoutDistinct(docs.keys, Owned(docs.entries, kb));
    PyDict.Dict(PyDict.Without(docs.keys, Owned(docs.entries, kb)), docs.entries - Owned(docs.entries, kb))
  }

  /** The documents dictionary after deleting the given ids. */
  function Dropped(docs: PyDict.Dict<StoredDocument>, ids: seq<string>): (r: PyDict.Dict<StoredDocument>)
    requires PyDict.Valid(docs)
    ensures PyDict.Valid(r)
    ensures forall k :: k in r.entries <==> k in docs.entries && k !in ids
  {
    PyDict.DropKeys(docs, PyDict.Elements(ids))
  }

  lemma DroppedNone(docs: PyDict.Dict<StoredDocument>)
    requires PyDict.Valid(docs)
    ensures Dropped(docs, []) == docs
  {
    assert PyDict.Elements([]) == {};
    PyDict.DropKeysNone(docs);
  }

  /** Deleting the next id of a duplicate-free list of ids of kb's documents: the id is
      still there, and its removal extends the deleted prefix by one. */
  lemma DroppedStep(docs: PyDict.Dict<StoredDocument>, ids: seq<string>, j: nat, kb: string)
    requires PyDict.Valid(docs) && PyDict.Distinct(ids) && j < |ids|
    requires forall x :: x in ids ==> x in docs.entries && docs.entries[x].kbId == kb
    ensures ids[j] in Dropped(docs, ids[..j]).entries && Dropped(docs, ids[..j]).entries[ids[j]].kbId == kb
    ensures PyDict.Remove(Dropped(docs, ids[..j]), ids[j]) == Dropped(docs, ids[..j + 1])
  {
    var x := ids[j];
    forall i | 0 <= i < j ensures ids[i] != x {
      PyDict.DistinctAt(ids, i, j);
    }
    assert x !in ids[..j];
    PyDict.RemoveAfterDropKeys(docs, PyDict.Elements(ids[..j]), x);
    PyDict.ElementsSnoc(ids, j);
  }

  /** Deleting one of kb's documents leaves every other base's tallies alone. */
  lemma TallyRemoveElsewhere(docs: PyDict.Dict<StoredDocument>, x: string, kb: string)
    requires PyDict.Valid(docs) && x in docs.entries && docs.entries[x].kbId == kb
    ensures forall k :: k != kb ==>
      CountIn(PyDict.Values(PyDict.Remove(docs, x)), k) == CountIn(PyDict.Values(docs), k)
      && ChunksIn(PyDict.Values(PyDict.Remove(docs, x)), k) == ChunksIn(PyDict.Values(docs), k)
  {
    forall k | k != kb
      ensures CountIn(PyDict.Values(PyDict.Remove(docs, x)), k) == CountIn(PyDict.Values(docs), k)
      ensures ChunksIn(PyDict.Values(PyDict.Remove(docs, x)), k) == ChunksIn(PyDict.Values(docs), k)
    {
      TallyRemove(docs, x, k);
    }
  }

  /** Deleting any prefix of a duplicate-free list of ids of kb's documents leaves
      every other base's tallies alone. */
  lemma {:induction false} DroppedElsewhere(docs: PyDict.Dict<StoredDocument>, ids: seq<string>, j: nat, kb: string)
    requires PyDict.Valid(docs) && PyDict.Distinct(ids) && j <= |ids|
    requires forall x :: x in ids ==> x in docs.entries && docs.entries[x].kbId == kb
    ensures forall k :: k != kb ==>
      CountIn(PyDict.Values(Dropped(docs, ids[..j])), k) == CountIn(PyDict.Values(docs), k)
      && ChunksIn(PyDict.Values(Dropped(docs, ids[..j])), k) == ChunksIn(PyDict.Values(docs), k)
  {
    if j == 0 {
      assert ids[..0] == [];
      DroppedNone(docs);
    } else {
      DroppedElsewhere(docs, ids, j - 1, kb);
      DroppedStep(docs, ids, j - 1, kb);
      TallyRemoveElsewhere(Dropped(docs, ids[..j - 1]), ids[j - 1], kb);
    }
  }

  /** Deleting the ids of kb's documents is dropping kb's documents. */
  lemma DroppedOwned(docs: PyDict.Dict<StoredDocument>, kb: string)
    requires PyDict.Valid(docs)
    ensures Dropped(docs, OwnedInOrder(docs.keys, docs.entries, kb)) == DropOwned(docs, kb)
  {
    assert PyDict.Elements(OwnedInOrder(docs.keys, docs.entries, kb)) == Owned(docs.entries, kb);
  }

  /** Before the first deletion nothing is dropped. */
  lemma DroppedNoPrefix(docs: PyDict.Dict<StoredDocument>, ids: seq<string>)
    requires PyDict.Valid(docs)
    ensures Dropped(docs, ids[..0]) == docs
  {
    assert ids[..0] == [];
    DroppedNone(docs);
  }

  /** Deleting, one by one, all ids of kb's documents drops kb's documents and leaves
      every other base's tallies alone. */
  lemma DroppedAllOwned(docs: PyDict.Dict<StoredDocument>, kb: string)
    requires PyDict.Valid(docs)
    ensures var ids := OwnedInOrder(docs.keys, docs.entries, kb);
      && Dropped(docs, ids[..|ids|]) == DropOwned(docs, kb)
      && forall k :: k != kb ==>
           CountIn(PyDict.Values(DropOwned(docs, kb)), k) == CountIn(PyDict.Values(docs), k)
           && ChunksIn(PyDict.Values(DropOwned(docs, kb)), k) == ChunksIn(PyDict.Values(docs), k)
  {
    var ids := OwnedInOrder(docs.keys, docs.entries, kb);
    OwnedInOrderDistinct(docs.keys, docs.entries, kb);
    assert ids[..|ids|] == ids;
    DroppedElsewhere(docs, ids, |ids|, kb);
    DroppedOwned(docs, kb);
  }

  /** The ids of a batch delete that name a document of kb. */
  function Requested(docs: map<string, StoredDocument>, kb: string, ids: seq<string>): (r: set<string>)
    ensures forall x :: x in r <==> x in ids && x in docs && docs[x].kbId == kb
  {
    set x | x in ids && x in docs && docs[x].kbId == kb
  }

  /** The state of the batch delete's loop: the documents left, how many were deleted,
      and the sum of the chunk numbers the deleted documents held. */
  datatype DeleteState = DeleteState(docs: PyDict.Dict<StoredDocument>, deleted: nat, freed: int)

  /** The batch delete's loop after the ids: each id that still names a document of kb
      deletes it, counts it and frees its chunks; any other id changes nothing. */
  function BatchDelete(docs0: PyDict.Dict<StoredDocument>, kb: string, ids: seq<string>): (s: DeleteState)
    requires PyDict.Valid(docs0)
    ensures PyDict.Valid(s.docs)
    ensures forall k :: k in s.docs.entries ==> k in docs0.entries && s.docs.entries[k] == docs0.entries[k]
    ensures s.deleted <= |ids|
  {
    if ids == [] then DeleteState(docs0, 0, 0)
    else
      var s := BatchDelete(docs0, kb, ids[..|ids| - 1]);
      var x := ids[|ids| - 1];
      if x in s.docs.entries && s.docs.entries[x].kbId == kb
      then DeleteState(PyDict.Remove(s.docs, x), s.deleted + 1, s.freed + s.docs.entries[x].chunkNum)
      else s
  }

  /** The batch delete removes exactly the requested documents and counts them. */
  lemma {:induction false} BatchDeleteRemovesRequested(docs0: PyDict.Dict<StoredDocument>, kb: string, ids: seq<string>)
    requires PyDict.Valid(docs0)
    ensures BatchDelete(docs0, kb, ids).docs == PyDict.DropKeys(docs0, Requested(docs0.entries, kb, ids))
    ensures BatchDelete(docs0, kb, ids).deleted == |Requested(docs0.entries, kb, ids)|
  {
    if ids == [] {
      assert Requested(docs0.entries, kb, ids) == {};
      PyDict.DropKeysNone(docs0);
    } else {
      var init, x := ids[..|ids| - 1], ids[|ids| - 1];
      assert ids == init + [x];
      BatchDeleteRemovesRequested(docs0, kb, init);
      var s := BatchDelete(docs0, kb, init);
      var gone := Requested(docs0.entries, kb, init);
      if x in s.docs.entries && s.docs.entries[x].kbId == kb {
        assert x !in gone;
        assert Requested(docs0.entries, kb, ids) == gone + {x};
        PyDict.RemoveAfterDropKeys(docs0, gone, x);
      } else {
        assert Requested(docs0.entries, kb, ids) == gone;
      }
    }
  }

  /** The batch delete lowers kb's tallies by the documents it counts and the chunks it
      frees, and leaves every other base's tallies alone. */
  lemma {:induction false} BatchDeleteTallies(docs0: PyDict.Dict<StoredDocument>, kb: string, ids: seq<string>)
    requires PyDict.Valid(docs0)
    ensures var s := BatchDelete(docs0, kb, ids);
      && CountIn(PyDict.Values(s.docs), kb) + s.deleted == CountIn(PyDict.Values(docs0), kb)
      && ChunksIn(PyDict.Values(s.docs), kb) + s.freed == ChunksIn(PyDict.Values(docs0), kb)
    ensures forall k :: k != kb ==>
      CountIn(PyDict.Values(BatchDelete(docs0, kb, ids).docs), k) == CountIn(PyDict.Values(docs0), k)
      && ChunksIn(PyDict.Values(BatchDelete(docs0, kb, ids).docs), k) == ChunksIn(PyDict.Values(docs0), k)
  {
    if ids != [] {
      var init, x := ids[..|ids| - 1], ids[|ids| - 1];
      BatchDeleteTallies(docs0, kb, init);
      var s := BatchDelete(docs0, kb, init);
      if x in s.docs.entries && s.docs.entries[x].kbId == kb {
        TallyRemove(s.docs, x, kb);
        TallyRemoveElsewhere(s.docs, x, kb);
      }
    }
  }

  /** A base's record with both counters lowered. */
  function Discounted(kb: KnowledgeBase, documents: int, chunks: int): (r: KnowledgeBase)
    ensures r.documentCount == kb.documentCount - documents && r.chunkCount == kb.chunkCount - chunks
    ensures r.id == kb.id && r.(documentCount := kb.documentCount, chunkCount := kb.chunkCount) == kb
  {
    kb.(documentCount := kb.documentCount - documents, chunkCount := kb.chunkCount - chunks)
  }

  // ---------------------------------------------------------------------------
  // What a background processing run records
  // ---------------------------------------------------------------------------

  /** How a processing run ends: with a chunk number to record, or by raising. */
  datatype RunResult = Settled(chunks: nat) | Raised

  /** The documents after a run for docId under kbId. A settled run records the chunk
      number and marks the document completed, or failed when kbId is gone by then; a
      raising run marks it failed. A document that is gone is left so. */
  function SettleDocs(kbs: PyDict.Dict<KnowledgeBase>, docs: PyDict.Dict<StoredDocument>, docId: string, kbId: string, result: RunResult): (r: PyDict.Dict<StoredDocument>)
    requires PyDict.Valid(docs)
    ensures PyDict.Valid(r)
    ensures r.keys == docs.keys && r.entries.Keys == docs.entries.Keys
    ensures forall k :: k in docs.entries && k != docId ==> r.entries[k] == docs.entries[k]
    ensures docId in docs.entries ==> r.entries[docId] == match result
      case Settled(n) => docs.entries[docId].(chunkNum := n, status := if kbId in kbs.entries then Completed else Failed)
      case Raised => docs.entries[docId].(status := Failed)
  {
    if docId !in docs.entries then docs
    else
      var d := docs.entries[docId];
      match result
      case Settled(n) => PyDict.Put(docs, docId, d.(chunkNum := n, status := if kbId in kbs.entries then Completed else Failed))
      case Raised => PyDict.Put(docs, docId, d.(status := Failed))
  }

  /** The knowledge bases after such a run: only a settled run for a document that is
      still there adds its chunk number to kbId's chunk count. */
  function SettleKbs(kbs: PyDict.Dict<KnowledgeBase>, docs: PyDict.Dict<StoredDocument>, docId: string, kbId: string, result: RunResult): (r: PyDict.Dict<KnowledgeBase>)
    requires PyDict.Valid(kbs)
    ensures PyDict.Valid(r)
    ensures r.keys == kbs.keys && r.entries.Keys == kbs.entries.Keys
    ensures forall k :: k in kbs.entries && k != kbId ==> r.entries[k] == kbs.entries[k]
    ensures kbId in kbs.entries ==>
      r.entries[kbId] == (if result.Settled? && docId in docs.entries
                          then kbs.entries[kbId].(chunkCount := kbs.entries[kbId].chunkCount + result.chunks)
                          else kbs.entries[kbId])
  {
    if result.Settled? && docId in docs.entries && kbId in kbs.entries
    then PyDict.Put(kbs, kbId, kbs.entries[kbId].(chunkCount := kbs.entries[kbId].chunkCount + result.chunks))
    else kbs
  }

  // ---------------------------------------------------------------------------
  // The consistency the handlers maintain between the two dictionaries
  // ---------------------------------------------------------------------------

  /** Every record is stored under its own id, every document belongs to a base that
      exists and has a non-negative chunk number, and no base counts fewer documents
      than it owns (a re-upload of the same file name is counted again, so the counter
      can exceed the number of documents, never fall below it). */
  ghost predicate Consistent(kbs: PyDict.Dict<KnowledgeBase>, docs: PyDict.Dict<StoredDocument>) {
    && PyDict.Valid(kbs) && PyDict.Valid(docs)
    && (forall k :: k in kbs.entries ==> kbs.entries[k].id == k)
    && (forall k :: k in docs.entries ==>
          docs.entries[k].id == k && docs.entries[k].kbId in kbs.entries && docs.entries[k].chunkNum >= 0)
    && (forall k {:trigger CountIn(PyDict.Values(docs), k)} :: k in kbs.entries ==> kbs.entries[k].documentCount >= CountIn(PyDict.Values(docs), k))
  }

  /** No base counts fewer chunks than its documents hold. */
  ghost predicate ChunksCovered(kbs: PyDict.Dict<KnowledgeBase>, docs: PyDict.Dict<StoredDocument>)
    requires PyDict.Valid(docs)
  {
    forall k {:trigger ChunksIn(PyDict.Values(docs), k)} :: k in kbs.entries ==> kbs.entries[k].chunkCount >= ChunksIn(PyDict.Values(docs), k)
  }

  /** A processing run keeps the dictionaries consistent: it changes no document's
      base, and the chunk numbers it records are non-negative. */
  lemma SettleKeepsConsistent(kbs: PyDict.Dict<KnowledgeBase>, docs: PyDict.Dict<StoredDocument>, docId: string, kbId: string, result: RunResult)
    requires Consistent(kbs, docs)
    ensures Consistent(SettleKbs(kbs, docs, docId, kbId, result), SettleDocs(kbs, docs, docId, kbId, result))
  {
    var kbs', docs' := SettleKbs(kbs, docs, docId, kbId, result), SettleDocs(kbs, docs, docId, kbId, result);
    forall k | k in docs'.entries
      ensures docs'.entries[k].id == k && docs'.entries[k].kbId in kbs'.entries && docs'.entries[k].chunkNum >= 0
    {
      assert docs'.entries[k].id == docs.entries[k].id && docs'.entries[k].kbId == docs.entries[k].kbId;
    }
    if docId in docs.entries {
      assert docs' == PyDict.Put(docs, docId, docs'.entries[docId]);
      forall k | k in kbs'.entries ensures kbs'.entries[k].documentCount >= CountIn(PyDict.Values(docs'), k) {
        TallyPut(docs, docId, docs'.entries[docId], k);
      }
    }
  }

  /** It also keeps every base's chunk count at or above its documents' chunks, as long
      as the run is for the base the document belongs to: the count grows by the
      number recorded, which replaces a non-negative one. */
  lemma SettleKeepsChunksCovered(kbs: PyDict.Dict<KnowledgeBase>, docs: PyDict.Dict<StoredDocument>, docId: string, kbId: string, result: RunResult)
    requires Consistent(kbs, docs) && ChunksCovered(kbs, docs)
    requires docId in docs.entries ==> docs.entries[docId].kbId == kbId
    ensures ChunksCovered(SettleKbs(kbs, docs, docId, kbId, result), SettleDocs(kbs, docs, docId, kbId, result))
  {
    var kbs', docs' := SettleKbs(kbs, docs, docId, kbId, result), SettleDocs(kbs, docs, docId, kbId, result);
    if docId in docs.entries {
      assert docs' == PyDict.Put(docs, docId, docs'.entries[docId]);
      forall k | k in kbs'.entries ensures kbs'.entries[k].chunkCount >= ChunksIn(PyDict.Values(docs'), k) {
        TallyPut(docs, docId, docs'.entries[docId], k);
      }
    }
  }

  /** Adding a base that owns no document, with empty counters, keeps the dictionaries
      consistent and the chunk counts covered. */
  lemma CreateKeepsConsistent(kbs: PyDict.Dict<KnowledgeBase>, docs: PyDict.Dict<StoredDocument>, id: string, kb: KnowledgeBase,
                              kbs': PyDict.Dict<KnowledgeBase>)
    requires Consistent(kbs, docs) && id !in kbs.entries && kb.id == id
    requires kb.documentCount == 0 && kb.chunkCount == 0
    requires kbs' == PyDict.Put(kbs, id, kb)
    ensures Consistent(kbs', docs)
    ensures ChunksCovered(kbs, docs) ==> ChunksCovered(kbs', docs)
  {
    var vs := PyDict.Values(docs);
    // no document can belong to a base that does not exist
    TallyNone(vs, id);
  }

  /** Storing a record for base kb and counting one more document for kb keeps the
      dictionaries consistent, and keeps the chunk counts covered when the record
      holds no chunks yet; a record it replaces, of any base, only lowers tallies. */
  lemma UploadKeepsConsistent(kbs: PyDict.Dict<KnowledgeBase>, docs: PyDict.Dict<StoredDocument>, kb: string, doc: StoredDocument,
                              kbs': PyDict.Dict<KnowledgeBase>, docs': PyDict.Dict<StoredDocument>)
    requires Consistent(kbs, docs) && kb in kbs.entries
    requires doc.kbId == kb && doc.chunkNum >= 0
    requires kbs' == PyDict.Put(kbs, kb, kbs.entries[kb].(documentCount := kbs.entries[kb].documentCount + 1))
    requires docs' == PyDict.Put(docs, doc.id, doc)
    ensures Consistent(kbs', docs')
    ensures ChunksCovered(kbs, docs) && doc.chunkNum == 0 ==> ChunksCovered(kbs', docs')
  {
    forall k | k in kbs'.entries
      ensures kbs'.entries[k].documentCount >= CountIn(PyDict.Values(docs'), k)
      ensures ChunksCovered(kbs, docs) && doc.chunkNum == 0 ==> kbs'.entries[k].chunkCount >= ChunksIn(PyDict.Values(docs'), k)
    {
      TallyPut(docs, doc.id, doc, k);
    }
  }

  /** Deleting some of kb's documents and lowering kb's counters by exactly what left
      its tallies keeps the dictionaries consistent. */
  lemma DeleteDocsKeepsConsistent(kbs: PyDict.Dict<KnowledgeBase>, docs: PyDict.Dict<StoredDocument>,
                                  docs': PyDict.Dict<StoredDocument>, kb: string, n: int, c: int)
    requires Consistent(kbs, docs) && kb in kbs.entries && PyDict.Valid(docs')
    requires forall k :: k in docs'.entries ==> k in docs.entries && docs'.entries[k] == docs.entries[k]
    requires forall k :: k != kb ==> CountIn(PyDict.Values(docs'), k) == CountIn(PyDict.Values(docs), k)
    requires n == CountIn(PyDict.Values(docs), kb) - CountIn(PyDict.Values(docs'), kb)
    ensures Consistent(PyDict.Put(kbs, kb, Discounted(kbs.entries[kb], n, c)), docs')
  {
    var kbs' := PyDict.Put(kbs, kb, Discounted(kbs.entries[kb], n, c));
    var vs, ws := PyDict.Values(docs), PyDict.Values(docs');
    forall k | k in kbs'.entries
      ensures kbs'.entries[k].documentCount >= CountIn(ws, k)
    {
      assert kbs.entries[k].documentCount >= CountIn(vs, k);
    }
  }

  /** The same deletion keeps the chunk counts covered. */
  lemma DeleteDocsKeepsCovered(kbs: PyDict.Dict<KnowledgeBase>, docs: PyDict.Dict<StoredDocument>,
                               docs': PyDict.Dict<StoredDocument>, kb: string, n: int, c: int)
    requires PyDict.Valid(kbs) && PyDict.Valid(docs) && PyDict.Valid(docs') && kb in kbs.entries && ChunksCovered(kbs, docs)
    requires forall k :: k != kb ==> ChunksIn(PyDict.Values(docs'), k) == ChunksIn(PyDict.Values(docs), k)
    requires c == ChunksIn(PyDict.Values(docs), kb) - ChunksIn(PyDict.Values(docs'), kb)
    ensures ChunksCovered(PyDict.Put(kbs, kb, Discounted(kbs.entries[kb], n, c)), docs')
  {
    var kbs' := PyDict.Put(kbs, kb, Discounted(kbs.entries[kb], n, c));
    var vs, ws := PyDict.Values(docs), PyDict.Values(docs');
    forall k | k in kbs'.entries
      ensures kbs'.entries[k].chunkCount >= ChunksIn(ws, k)
    {
      assert kbs.entries[k].chunkCount >= ChunksIn(vs, k);
    }
  }

  /** Removing a base after its documents keeps the dictionaries consistent, given that
      dropping its documents left the other bases' tallies as they were. */
  lemma DeleteBaseKeepsConsistent(kbs: PyDict.Dict<KnowledgeBase>, docs: PyDict.Dict<StoredDocument>, kb: string)
    requires Consistent(kbs, docs) && kb in kbs.entries
    requires forall k :: k != kb ==>
               CountIn(PyDict.Values(DropOwned(docs, kb)), k) == CountIn(PyDict.Values(docs), k)
               && ChunksIn(PyDict.Values(DropOwned(docs, kb)), k) == ChunksIn(PyDict.Values(docs), k)
    ensures Consistent(PyDict.Remove(kbs, kb), DropOwned(docs, kb))
    ensures ChunksCovered(kbs, docs) ==> ChunksCovered(PyDict.Remove(kbs, kb), DropOwned(docs, kb))
  {
    var kbs', docs' := PyDict.Remove(kbs, kb), DropOwned(docs, kb);
    forall k | k in kbs'.entries
      ensures kbs'.entries[k].documentCount >= CountIn(PyDict.Values(docs'), k)
      ensures ChunksCovered(kbs, docs) ==> kbs'.entries[k].chunkCount >= ChunksIn(PyDict.Values(docs'), k)
    {
      assert k != kb && kbs'.entries[k] == kbs.entries[k];
      assert kbs.entries[k].documentCount >= CountIn(PyDict.Values(docs), k);
      if ChunksCovered(kbs, docs) {
        assert kbs.entries[k].chunkCount >= ChunksIn(PyDict.Values(docs), k);
      }
    }
  }
}
