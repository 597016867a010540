/**
 * The ChromaDB collections that both copies of utils/vector_store.py write
 * to, kept in memory: records with an id, a document, metadata and an
 * embedding; composite record ids; the filename dedup before an insert,
 * and the batch of records an insert builds from processed documents.
 */
module Chroma {
  import opened Wrappers
  import opened Text

  type Embedding = seq<real>

  /**
   * The metadata the writers attach: `filename` ("" when absent),
   * `chunk_index` and, for the chat variant, `doc_index`.
   */
  datatype Metadata = Metadata(filename: string, chunkIndex: nat, docIndex: Option<nat>)

  datatype Record = Record(id: string, document: string, metadata: Metadata, embedding: Embedding)

  /** A query hit as the engine returns it: document, metadata and distance. */
  datatype Candidate = Candidate(document: string, metadata: Metadata, distance: real)

  /** The nearest-neighbour query: the collection, the query text and `n_results`; `None` when it raises. */
  type QueryEngine = (seq<Record>, string, int) -> Option<seq<Candidate>>

  /** The sentence-transformer's `encode` over a batch of texts; `None` when it raises. */
  type Embedder = seq<string> -> Option<seq<Embedding>>

  /** The cross-encoder's `predict` over (query, document) pairs; `None` when it raises. */
  type Reranker = seq<(string, string)> -> Option<seq<real>>

  // ------------------------------------------------------------ ids

  /** `f"doc_{doc}_chunk_{chunk}"`. */
  function IdOf(doc: nat, chunk: nat): string {
    "doc_" + NatToString(doc) + "_chunk_" + NatToString(chunk)
  }

  /** The first index at or after `i` holding '_', or `|s|`. */
  function UnderscoreFrom(s: string, i: nat): (k: nat)
    requires i <= |s|
    ensures i <= k <= |s|
    decreases |s| - i
  {
    if i == |s| then |s| else if s[i] == '_' then i else UnderscoreFrom(s, i + 1)
  }

  lemma {:induction false} UnderscoreAfterDigits(s: string, i: nat, n: nat)
    requires i + n < |s| && s[i + n] == '_'
    requires forall k :: i <= k < i + n ==> IsDigit(s[k])
    ensures UnderscoreFrom(s, i) == i + n
    decreases n
  {
    if n > 0 {
      assert IsDigit(s[i]);
      UnderscoreAfterDigits(s, i + 1, n - 1);
    }
  }

  /** Where the two numbers sit in an id: the first '_' after "doc_" ends the document number. */
  lemma IdParts(d: nat, c: nat)
    ensures var s, a, b := IdOf(d, c), NatToString(d), NatToString(c);
      4 + |a| + 7 <= |s| && UnderscoreFrom(s, 4) == 4 + |a|
      && s[4..4 + |a|] == a && s[4 + |a| + 7..] == b
  {
    var a, b := NatToString(d), NatToString(c);
    var s := IdOf(d, c);
    assert s == "doc_" + a + "_chunk_" + b;
    assert s[4 + |a|] == '_';
    assert forall k :: 4 <= k < 4 + |a| ==> s[k] == a[k - 4];
    UnderscoreAfterDigits(s, 4, |a|);
    assert s[4..4 + |a|] == a;
    assert s[4 + |a| + 7..] == b;
  }

  /** Distinct (document, chunk) pairs give distinct ids. */
  lemma IdOfInjective(d1: nat, c1: nat, d2: nat, c2: nat)
    ensures IdOf(d1, c1) == IdOf(d2, c2) ==> d1 == d2 && c1 == c2
  {
    if IdOf(d1, c1) == IdOf(d2, c2) {
      IdParts(d1, c1);
      IdParts(d2, c2);
      NatToStringInjective(d1, d2);
      NatToStringInjective(c1, c2);
    }
  }

  /** Every record id of the form `doc_{d}_chunk_{c}` has `d < bound`. */
  ghost predicate IdsBelow(records: seq<Record>, bound: nat) {
    forall i, d: nat, c: nat {:trigger records[i], IdOf(d, c)} ::
      0 <= i < |records| && records[i].id == IdOf(d, c) ==> d < bound
  }

  // ------------------------------------------------------------ dedup

  /** The last '/' of a path, or -1. */
  function LastSlash(p: string): (k: int)
    ensures -1 <= k < |p|
    ensures k >= 0 ==> p[k] == '/'
    ensures forall j :: k < j < |p| ==> p[j] != '/'
  {
    if p == [] then -1 else if p[|p| - 1] == '/' then |p| - 1 else LastSlash(p[..|p| - 1])
  }

  /** `os.path.basename`: the part after the last '/'. */
  function Basename(p: string): (r: string)
    ensures EndsWith(p, r)
    ensures forall j :: 0 <= j < |r| ==> r[j] != '/'
    ensures (forall j :: 0 <= j < |p| ==> p[j] != '/') ==> r == p
  {
    p[LastSlash(p) + 1..]
  }

  /** `_get_existing_files`: the non-empty filenames in the collection's metadata. */
  function ExistingFiles(records: seq<Record>): set<string> {
    set i | 0 <= i < |records| && records[i].metadata.filename != "" :: records[i].metadata.filename
  }

  /** The paths whose basename is not already a filename of the collection, in order. */
  function FilesToAdd(paths: seq<string>, existing: set<string>): seq<string> {
    if paths == [] then []
    else
      var p := paths[|paths| - 1];
      FilesToAdd(paths[..|paths| - 1], existing) + (if Basename(p) !in existing then [p] else [])
  }

  /** `kept` holds exactly the paths of `paths` whose basename is not in `existing`. */
  ghost predicate KeepsExactly(kept: seq<string>, paths: seq<string>, existing: set<string>) {
    forall p :: p in kept <==> p in paths && Basename(p) !in existing
  }

  lemma KeepsExactlySnoc(kept: seq<string>, paths: seq<string>, existing: set<string>, last: string)
    requires KeepsExactly(kept, paths, existing)
    ensures KeepsExactly(kept + (if Basename(last) !in existing then [last] else []), paths + [last], existing)
  {
  }

  /**
   * A path is kept exactly when its basename is not an existing filename;
   * the check is against the collection only, so repeats within the list
   * are all kept.
   */
  lemma {:induction false} FilesToAddExactly(paths: seq<string>, existing: set<string>)
    ensures KeepsExactly(FilesToAdd(paths, existing), paths, existing)
    ensures |FilesToAdd(paths, existing)| <= |paths|
  {
    if paths != [] {
      var init := paths[..|paths| - 1];
      var last := paths[|paths| - 1];
      FilesToAddExactly(init, existing);
      KeepsExactlySnoc(FilesToAdd(init, existing), init, existing, last);
      assert paths == init + [last];
    }
  }

  /** With every basename already present, nothing is kept. */
  lemma {:induction false} FilesToAddNone(paths: seq<string>, existing: set<string>)
    requires forall i :: 0 <= i < |paths| ==> Basename(paths[i]) in existing
    ensures FilesToAdd(paths, existing) == []
  {
    if paths != [] {
      var init := paths[..|paths| - 1];
      forall i | 0 <= i < |init|
        ensures Basename(init[i]) in existing
      {
        assert init[i] == paths[i];
      }
      FilesToAddNone(init, existing);
    }
  }

  /** With no basename already present, every path is kept, repeats included. */
  lemma {:induction false} FilesToAddKeepsAll(paths: seq<string>, existing: set<string>)
    requires forall i :: 0 <= i < |paths| ==> Basename(paths[i]) !in existing
    ensures FilesToAdd(paths, existing) == paths
  {
    if paths != [] {
      var init := paths[..|paths| - 1];
      forall i | 0 <= i < |init|
        ensures Basename(init[i]) !in existing
      {
        assert init[i] == paths[i];
      }
      FilesToAddKeepsAll(init, existing);
      assert Basename(paths[|paths| - 1]) !in existing;
      assert paths == init + [paths[|paths| - 1]];
    }
  }

  lemma ExistingFilesExactly(records: seq<Record>, f: string)
    ensures f in ExistingFiles(records) <==> f != "" && exists i :: 0 <= i < |records| && records[i].metadata.filename == f
  {
  }

  // ------------------------------------------------------------ insert batches

  /** A processed file: its basename and its chunk texts. */
  datatype DocumentData = DocumentData(filename: string, chunks: seq<string>)

  /** One record to insert, before its embedding is computed. */
  datatype Entry = Entry(id: string, chunk: string, metadata: Metadata)

  /** The entries of `chunks[..upTo]` of document number `docNum`: blank chunks are skipped, keeping their index. */
  function ChunkEntries(filename: string, docNum: nat, chunks: seq<string>, upTo: nat): seq<Entry>
    requires upTo <= |chunks|
  {
    if upTo == 0 then []
    else
      ChunkEntries(filename, docNum, chunks, upTo - 1)
      + (if !IsBlank(chunks[upTo - 1]) then [Entry(IdOf(docNum, upTo - 1), chunks[upTo - 1], Metadata(filename, upTo - 1, None))] else [])
  }

  /** The entries of `docs[..m]`, the k-th document being numbered `offset + k`. */
  function BatchEntries(docs: seq<DocumentData>, offset: nat, m: nat): seq<Entry>
    requires m <= |docs|
  {
    if m == 0 then []
    else BatchEntries(docs, offset, m - 1) + ChunkEntries(docs[m - 1].filename, offset + (m - 1), docs[m - 1].chunks, |docs[m - 1].chunks|)
  }

  /** The (document number, chunk index) of each entry, in the same order. */
  ghost function ChunkKeys(docNum: nat, chunks: seq<string>, upTo: nat): seq<(nat, nat)>
    requires upTo <= |chunks|
  {
    if upTo == 0 then []
    else ChunkKeys(docNum, chunks, upTo - 1) + (if !IsBlank(chunks[upTo - 1]) then [(docNum, upTo - 1)] else [])
  }

  ghost function BatchKeys(docs: seq<DocumentData>, offset: nat, m: nat): seq<(nat, nat)>
    requires m <= |docs|
  {
    if m == 0 then []
    else BatchKeys(docs, offset, m - 1) + ChunkKeys(offset + (m - 1), docs[m - 1].chunks, |docs[m - 1].chunks|)
  }

  predicate KeyLess(a: (nat, nat), b: (nat, nat)) {
    a.0 < b.0 || (a.0 == b.0 && a.1 < b.1)
  }

  /** What each entry of a batch is, given by its key. */
  ghost predicate EntriesMatchKeys(es: seq<Entry>, keys: seq<(nat, nat)>, docs: seq<DocumentData>, offset: nat) {
    |es| == |keys|
    && forall i :: 0 <= i < |es| ==> EntryMatchesKey(es[i], keys[i], docs, offset)
  }

  ghost predicate EntryMatchesKey(e: Entry, key: (nat, nat), docs: seq<DocumentData>, offset: nat) {
    var (d, c) := key;
    offset <= d < offset + |docs| && c < |docs[d - offset].chunks|
    && e == Entry(IdOf(d, c), docs[d - offset].chunks[c], Metadata(docs[d - offset].filename, c, None))
    && !IsBlank(docs[d - offset].chunks[c])
  }

  lemma EntriesMatchAppend(a: seq<Entry>, ka: seq<(nat, nat)>, b: seq<Entry>, kb: seq<(nat, nat)>, docs: seq<DocumentData>, offset: nat)
    requires EntriesMatchKeys(a, ka, docs, offset) && EntriesMatchKeys(b, kb, docs, offset)
    ensures EntriesMatchKeys(a + b, ka + kb, docs, offset)
  {
    forall i | 0 <= i < |a + b|
      ensures EntryMatchesKey((a + b)[i], (ka + kb)[i], docs, offset)
    {
      if i < |a| {
        assert (a + b)[i] == a[i] && (ka + kb)[i] == ka[i];
      } else {
        assert (a + b)[i] == b[i - |a|] && (ka + kb)[i] == kb[i - |a|];
      }
    }
  }

  lemma {:induction false} ChunkEntriesKeys(docs: seq<DocumentData>, offset: nat, k: nat, docNum: nat, upTo: nat)
    requires k < |docs| && upTo <= |docs[k].chunks| && docNum == offset + k
    ensures EntriesMatchKeys(ChunkEntries(docs[k].filename, docNum, docs[k].chunks, upTo),
      ChunkKeys(docNum, docs[k].chunks, upTo), docs, offset)
    ensures forall i :: 0 <= i < |ChunkKeys(docNum, docs[k].chunks, upTo)| ==>
      ChunkKeys(docNum, docs[k].chunks, upTo)[i].0 == docNum && ChunkKeys(docNum, docs[k].chunks, upTo)[i].1 < upTo
    ensures forall i, j :: 0 <= i < j < |ChunkKeys(docNum, docs[k].chunks, upTo)| ==>
      ChunkKeys(docNum, docs[k].chunks, upTo)[i].1 < ChunkKeys(docNum, docs[k].chunks, upTo)[j].1
  {
    if upTo > 0 {
      ChunkEntriesKeys(docs, offset, k, docNum, upTo - 1);
      var c := upTo - 1;
      var d := docs[k];
      if !IsBlank(d.chunks[c]) {
        var e := Entry(IdOf(docNum, c), d.chunks[c], Metadata(d.filename, c, None));
        assert EntryMatchesKey(e, (docNum, c), docs, offset);
        EntriesMatchAppend(ChunkEntries(d.filename, docNum, d.chunks, c), ChunkKeys(docNum, d.chunks, c),
          [e], [(docNum, c)], docs, offset);
      }
    }
  }

  /**
   * The entries of a batch are, in order, the non-blank chunks of each
   * document, with id `doc_{offset + k}_chunk_{c}` for chunk `c` of document
   * `k` and metadata {filename, chunk_index: c}.
   */
  lemma {:induction false} BatchEntriesKeys(docs: seq<DocumentData>, offset: nat, m: nat)
    requires m <= |docs|
    ensures EntriesMatchKeys(BatchEntries(docs, offset, m), BatchKeys(docs, offset, m), docs, offset)
    ensures forall i :: 0 <= i < |BatchKeys(docs, offset, m)| ==> BatchKeys(docs, offset, m)[i].0 < offset + m
  {
    if m > 0 {
      BatchEntriesKeys(docs, offset, m - 1);
      ChunkEntriesKeys(docs, offset, m - 1, offset + (m - 1), |docs[m - 1].chunks|);
      var d := docs[m - 1];
      var a := BatchKeys(docs, offset, m - 1);
      var b := ChunkKeys(offset + (m - 1), d.chunks, |d.chunks|);
      EntriesMatchAppend(BatchEntries(docs, offset, m - 1), a,
        ChunkEntries(d.filename, offset + (m - 1), d.chunks, |d.chunks|), b, docs, offset);
      assert BatchKeys(docs, offset, m) == a + b;
      forall i | 0 <= i < |a + b|
        ensures (a + b)[i].0 < offset + m
      {
        if i < |a| {
          assert (a + b)[i] == a[i];
        } else {
          assert (a + b)[i] == b[i - |a|];
        }
      }
    }
  }

  /** The keys of a batch strictly increase: documents in order, chunks in order within each. */
  lemma {:induction false} BatchKeysIncrease(docs: seq<DocumentData>, offset: nat, m: nat)
    requires m <= |docs|
    ensures forall i, j :: 0 <= i < j < |BatchKeys(docs, offset, m)| ==>
      KeyLess(BatchKeys(docs, offset, m)[i], BatchKeys(docs, offset, m)[j])
  {
    if m > 0 {
      BatchKeysIncrease(docs, offset, m - 1);
      BatchEntriesKeys(docs, offset, m - 1);
      ChunkEntriesKeys(docs, offset, m - 1, offset + (m - 1), |docs[m - 1].chunks|);
      var a := BatchKeys(docs, offset, m - 1);
      var b := ChunkKeys(offset + (m - 1), docs[m - 1].chunks, |docs[m - 1].chunks|);
      assert BatchKeys(docs, offset, m) == a + b;
      forall i, j | 0 <= i < j < |a + b|
        ensures KeyLess((a + b)[i], (a + b)[j])
      {
        if j < |a| {
          assert (a + b)[i] == a[i] && (a + b)[j] == a[j];
          assert KeyLess(a[i], a[j]);
        } else if i < |a| {
          assert (a + b)[i] == a[i] && (a + b)[j] == b[j - |a|];
          assert a[i].0 < offset + (m - 1) == b[j - |a|].0;
        } else {
          assert (a + b)[i] == b[i - |a|] && (a + b)[j] == b[j - |a|];
          assert b[i - |a|].0 == offset + (m - 1) == b[j - |a|].0;
          assert b[i - |a|].1 < b[j - |a|].1;
        }
      }
    }
  }

  /** The ids of one batch are pairwise distinct. */
  lemma BatchIdsDistinct(docs: seq<DocumentData>, offset: nat)
    ensures forall i, j :: 0 <= i < j < |BatchEntries(docs, offset, |docs|)| ==>
      BatchEntries(docs, offset, |docs|)[i].id != BatchEntries(docs, offset, |docs|)[j].id
  {
    BatchEntriesKeys(docs, offset, |docs|);
    BatchKeysIncrease(docs, offset, |docs|);
    var es := BatchEntries(docs, offset, |docs|);
    var keys := BatchKeys(docs, offset, |docs|);
    forall i, j | 0 <= i < j < |es|
      ensures es[i].id != es[j].id
    {
      assert EntryMatchesKey(es[i], keys[i], docs, offset) && EntryMatchesKey(es[j], keys[j], docs, offset);
      assert KeyLess(keys[i], keys[j]);
      IdOfInjective(keys[i].0, keys[i].1, keys[j].0, keys[j].1);
    }
  }

  /** A chunk of a document that is not blank is in the batch. */
  lemma {:induction false} ChunkEntriesComplete(filename: string, docNum: nat, chunks: seq<string>, upTo: nat, c: nat)
    requires c < upTo <= |chunks| && !IsBlank(chunks[c])
    ensures Entry(IdOf(docNum, c), chunks[c], Metadata(filename, c, None)) in ChunkEntries(filename, docNum, chunks, upTo)
  {
    if c < upTo - 1 {
      ChunkEntriesComplete(filename, docNum, chunks, upTo - 1, c);
    }
  }

  lemma {:induction false} BatchEntriesComplete(docs: seq<DocumentData>, offset: nat, m: nat, k: nat, c: nat)
    requires k < m <= |docs| && c < |docs[k].chunks| && !IsBlank(docs[k].chunks[c])
    ensures Entry(IdOf(offset + k, c), docs[k].chunks[c], Metadata(docs[k].filename, c, None)) in BatchEntries(docs, offset, m)
  {
    if k < m - 1 {
      BatchEntriesComplete(docs, offset, m - 1, k, c);
    } else {
      ChunkEntriesComplete(docs[k].filename, offset + k, docs[k].chunks, |docs[k].chunks|, c);
    }
  }

  predicate HasContent(d: DocumentData) {
    exists c :: 0 <= c < |d.chunks| && !IsBlank(d.chunks[c])
  }

  lemma {:induction false} BatchEntriesCount(docs: seq<DocumentData>, offset: nat, m: nat)
    requires m <= |docs|
    requires forall k :: 0 <= k < |docs| ==> HasContent(docs[k])
    ensures |BatchEntries(docs, offset, m)| >= m
  {
    if m > 0 {
      BatchEntriesCount(docs, offset, m - 1);
      var d := docs[m - 1];
      var c :| 0 <= c < |d.chunks| && !IsBlank(d.chunks[c]);
      ChunkEntriesComplete(d.filename, offset + (m - 1), d.chunks, |d.chunks|, c);
    }
  }

  /** The records an insert adds: each entry with its embedding. */
  function ToRecords(es: seq<Entry>, embeddings: seq<Embedding>): (r: seq<Record>)
    requires |es| == |embeddings|
    ensures |r| == |es|
    ensures forall i :: 0 <= i < |r| ==> r[i] == Record(es[i].id, es[i].chunk, es[i].metadata, embeddings[i])
  {
    seq(|es|, i requires 0 <= i < |es| => Record(es[i].id, es[i].chunk, es[i].metadata, embeddings[i]))
  }

  /** Entry `j` has the id of key `j`, whose document number lies in `lo..hi`. */
  ghost predicate KeyedIds(es: seq<Entry>, keys: seq<(nat, nat)>, lo: nat, hi: nat) {
    |es| == |keys|
    && forall j :: 0 <= j < |es| ==> es[j].id == IdOf(keys[j].0, keys[j].1) && lo <= keys[j].0 < hi
  }

  lemma BatchKeyedIds(docs: seq<DocumentData>, offset: nat)
    ensures KeyedIds(BatchEntries(docs, offset, |docs|), BatchKeys(docs, offset, |docs|), offset, offset + |docs|)
  {
    var es := BatchEntries(docs, offset, |docs|);
    var keys := BatchKeys(docs, offset, |docs|);
    BatchEntriesKeys(docs, offset, |docs|);
    forall j | 0 <= j < |es|
      ensures es[j].id == IdOf(keys[j].0, keys[j].1) && offset <= keys[j].0 < offset + |docs|
    {
      assert EntryMatchesKey(es[j], keys[j], docs, offset);
    }
  }

  /** Ids numbered from `|records|` on are not ids of `records`. */
  lemma KeyedIdsFresh(records: seq<Record>, es: seq<Entry>, keys: seq<(nat, nat)>, hi: nat)
    requires IdsBelow(records, |records|) && KeyedIds(es, keys, |records|, hi)
    ensures forall i, j :: 0 <= i < |records| && 0 <= j < |es| ==> records[i].id != es[j].id
  {
    forall i, j | 0 <= i < |records| && 0 <= j < |es|
      ensures records[i].id != es[j].id
    {
      assert es[j].id == IdOf(keys[j].0, keys[j].1);
    }
  }

  /** Appending records numbered below `hi <= |records + added|` keeps the id bound. */
  lemma KeyedIdsBelow(records: seq<Record>, es: seq<Entry>, keys: seq<(nat, nat)>, hi: nat, embeddings: seq<Embedding>)
    requires IdsBelow(records, |records|) && KeyedIds(es, keys, |records|, hi)
    requires |embeddings| == |es| && hi <= |records| + |es|
    ensures IdsBelow(records + ToRecords(es, embeddings), |records| + |es|)
  {
    var added := records + ToRecords(es, embeddings);
    forall i, d: nat, c: nat | 0 <= i < |added| && added[i].id == IdOf(d, c)
      ensures d < |added|
    {
      if i >= |records| {
        var j := i - |records|;
        assert added[i].id == es[j].id == IdOf(keys[j].0, keys[j].1);
        IdOfInjective(d, c, keys[j].0, keys[j].1);
      } else {
        assert added[i] == records[i];
      }
    }
  }

  /**
   * Numbering documents from the record count keeps ids fresh: when every
   * earlier id `doc_{d}_...` has `d` below the record count and every new
   * document has a non-blank chunk, no new id equals an old one, and the
   * bound again holds after the insert.
   */
  lemma BatchIdsFresh(records: seq<Record>, docs: seq<DocumentData>, embeddings: seq<Embedding>)
    requires IdsBelow(records, |records|)
    requires forall k :: 0 <= k < |docs| ==> HasContent(docs[k])
    requires |embeddings| == |BatchEntries(docs, |records|, |docs|)|
    ensures forall i, j :: 0 <= i < |records| && 0 <= j < |BatchEntries(docs, |records|, |docs|)| ==>
      records[i].id != BatchEntries(docs, |records|, |docs|)[j].id
    ensures IdsBelow(records + ToRecords(BatchEntries(docs, |records|, |docs|), embeddings),
      |records| + |BatchEntries(docs, |records|, |docs|)|)
  {
    var offset := |records|;
    var es := BatchEntries(docs, offset, |docs|);
    var keys := BatchKeys(docs, offset, |docs|);
    BatchKeyedIds(docs, offset);
    BatchEntriesCount(docs, offset, |docs|);
    KeyedIdsFresh(records, es, keys, offset + |docs|);
    KeyedIdsBelow(records, es, keys, offset + |docs|, embeddings);
  }

  /** The three parallel lists hold the chunk, the metadata and the id of each entry of `es`, in order. */
  predicate Mirrors(allChunks: seq<string>, metadatas: seq<Metadata>, ids: seq<string>, es: seq<Entry>) {
    |allChunks| == |es| && |metadatas| == |es| && |ids| == |es|
    && forall i :: 0 <= i < |es| ==> allChunks[i] == es[i].chunk && metadatas[i] == es[i].metadata && ids[i] == es[i].id
  }

  lemma MirrorsSnoc(allChunks: seq<string>, metadatas: seq<Metadata>, ids: seq<string>, es: seq<Entry>, e: Entry)
    requires Mirrors(allChunks, metadatas, ids, es)
    ensures Mirrors(allChunks + [e.chunk], metadatas + [e.metadata], ids + [e.id], es + [e])
  {
  }

  /** `_add_documents_to_collection`'s loop: the parallel chunk, metadata and id lists. */
  method BuildBatch(docs: seq<DocumentData>, offset: nat) returns (allChunks: seq<string>, metadatas: seq<Metadata>, ids: seq<string>)
    ensures Mirrors(allChunks, metadatas, ids, BatchEntries(docs, offset, |docs|))
  {
    allChunks, metadatas, ids := [], [], [];
    for docIdx := 0 to |docs|
      invariant Mirrors(allChunks, metadatas, ids, BatchEntries(docs, offset, docIdx))
    {
      allChunks, metadatas, ids := AppendDocEntries(docs[docIdx].filename, offset + docIdx, docs[docIdx].chunks,
                                                     allChunks, metadatas, ids, BatchEntries(docs, offset, docIdx));
    }
  }

  /** The inner loop over one document's chunks: its non-blank chunks, numbered `docNum`, are appended. */
  method AppendDocEntries(filename: string, docNum: nat, chunks: seq<string>,
                          allChunks0: seq<string>, metadatas0: seq<Metadata>, ids0: seq<string>, ghost es: seq<Entry>)
      returns (allChunks: seq<string>, metadatas: seq<Metadata>, ids: seq<string>)
    requires Mirrors(allChunks0, metadatas0, ids0, es)
    ensures Mirrors(allChunks, metadatas, ids, es + ChunkEntries(filename, docNum, chunks, |chunks|))
  {
    allChunks, metadatas, ids := allChunks0, metadatas0, ids0;
    for chunkIdx := 0 to |chunks|
      invariant Mirrors(allChunks, metadatas, ids, es + ChunkEntries(filename, docNum, chunks, chunkIdx))
    {
      var chunk := chunks[chunkIdx];
      if !IsBlank(chunk) {
        var meta := Metadata(filename, chunkIdx, None);
        var id := "doc_" + NatToString(docNum) + "_chunk_" + NatToString(chunkIdx);
        MirrorsSnoc(allChunks, metadatas, ids, es + ChunkEntries(filename, docNum, chunks, chunkIdx), Entry(id, chunk, meta));
        assert es + ChunkEntries(filename, docNum, chunks, chunkIdx + 1)
            == es + ChunkEntries(filename, docNum, chunks, chunkIdx) + [Entry(id, chunk, meta)];
        allChunks := allChunks + [chunk];
        metadatas := metadatas + [meta];
        ids := ids + [id];
      } else {
        assert ChunkEntries(filename, docNum, chunks, chunkIdx + 1) == ChunkEntries(filename, docNum, chunks, chunkIdx);
      }
    }
  }

  // ------------------------------------------------------------ collection operations

  /** The dimension a collection's records share, if it has any. */
  predicate SameDimension(records: seq<Record>, added: seq<Record>) {
    forall i, j :: 0 <= i < |records + added| && 0 <= j < |records + added| ==>
      |(records + added)[i].embedding| == |(records + added)[j].embedding|
  }

  /** Some record of `records` has the id `id`. */
  predicate Stored(records: seq<Record>, id: string) {
    exists i :: 0 <= i < |records| && records[i].id == id
  }

  /** No two records share an id. */
  predicate DistinctIds(records: seq<Record>) {
    forall i, j :: 0 <= i < j < |records| ==> records[i].id != records[j].id
  }

  /** The records of `added` whose id is not yet stored in `records`, in order. */
  function Unstored(records: seq<Record>, added: seq<Record>): (r: seq<Record>)
    ensures |r| <= |added|
  {
    if added == [] then []
    else
      var last := added[|added| - 1];
      Unstored(records, added[..|added| - 1]) + (if Stored(records, last.id) then [] else [last])
  }

  /**
   * `collection.add`: ChromaDB keeps one record per id, so a record whose
   * id is already stored is skipped and the others are appended in order;
   * the call raises when the batch repeats an id or the embeddings do not
   * all have the collection's dimension.
   */
  function CollectionAdd(records: seq<Record>, added: seq<Record>): (r: Option<seq<Record>>)
    ensures r.Some? <==> SameDimension(records, added) && DistinctIds(added)
    ensures r.Some? ==> |records| <= |r.value| <= |records| + |added| && r.value[..|records|] == records
  {
    if SameDimension(records, added) && DistinctIds(added) then Some(records + Unstored(records, added)) else None
  }

  /** The records kept are exactly those of `added` whose id is not stored. */
  lemma {:induction false} UnstoredExactly(records: seq<Record>, added: seq<Record>)
    ensures forall x :: x in Unstored(records, added) ==> x in added && !Stored(records, x.id)
    ensures forall j :: 0 <= j < |added| && !Stored(records, added[j].id) ==> added[j] in Unstored(records, added)
  {
    if added != [] {
      var init := added[..|added| - 1];
      UnstoredExactly(records, init);
      assert forall j :: 0 <= j < |init| ==> added[j] == init[j];
    }
  }

  /** A kept record, found in the batch. */
  lemma UnstoredFrom(records: seq<Record>, added: seq<Record>, m: nat) returns (i: nat)
    requires m < |Unstored(records, added)|
    ensures i < |added| && Unstored(records, added)[m] == added[i] && !Stored(records, added[i].id)
  {
    UnstoredExactly(records, added);
    assert Unstored(records, added)[m] in Unstored(records, added);
    i :| 0 <= i < |added| && added[i] == Unstored(records, added)[m];
  }

  /** A batch record with an unstored id, found among the kept ones. */
  lemma UnstoredKeeps(records: seq<Record>, added: seq<Record>, i: nat) returns (m: nat)
    requires i < |added| && !Stored(records, added[i].id)
    ensures m < |Unstored(records, added)| && Unstored(records, added)[m] == added[i]
  {
    UnstoredExactly(records, added);
    m :| 0 <= m < |Unstored(records, added)| && Unstored(records, added)[m] == added[i];
  }

  /** When no id of `added` is stored, nothing is skipped. */
  lemma {:induction false} UnstoredAllFresh(records: seq<Record>, added: seq<Record>)
    requires forall i, j :: 0 <= i < |records| && 0 <= j < |added| ==> records[i].id != added[j].id
    ensures Unstored(records, added) == added
  {
    if added != [] {
      var init := added[..|added| - 1];
      assert forall j :: 0 <= j < |init| ==> init[j] == added[j];
      UnstoredAllFresh(records, init);
      assert !Stored(records, added[|added| - 1].id);
      assert init + [added[|added| - 1]] == added;
    }
  }

  /** The kept records have pairwise distinct ids when the batch has, and none of them is stored. */
  lemma {:induction false} UnstoredDistinct(records: seq<Record>, added: seq<Record>)
    requires DistinctIds(added)
    ensures DistinctIds(Unstored(records, added))
    ensures forall k :: 0 <= k < |Unstored(records, added)| ==> !Stored(records, Unstored(records, added)[k].id)
  {
    UnstoredExactly(records, added);
    if added != [] {
      var init := added[..|added| - 1];
      var last := added[|added| - 1];
      assert DistinctIds(init) by {
        assert forall i :: 0 <= i < |init| ==> init[i] == added[i];
      }
      UnstoredDistinct(records, init);
      UnstoredExactly(records, init);
      var u := Unstored(records, init);
      forall x | x in u
        ensures x.id != last.id
      {
        var j :| 0 <= j < |init| && init[j] == x;
        assert added[j] == x;
      }
    }
  }

  /**
   * ChromaDB never holds two records under one id: an add to a collection
   * with distinct ids leaves the ids distinct.
   */
  lemma CollectionAddKeepsIdsDistinct(records: seq<Record>, added: seq<Record>)
    requires DistinctIds(records) && CollectionAdd(records, added).Some?
    ensures DistinctIds(CollectionAdd(records, added).value)
  {
    UnstoredDistinct(records, added);
    AppendFreshKeepsIdsDistinct(records, Unstored(records, added));
  }

  /** Appending records with distinct ids, none of them stored, keeps the ids distinct. */
  lemma AppendFreshKeepsIdsDistinct(records: seq<Record>, newer: seq<Record>)
    requires DistinctIds(records) && DistinctIds(newer)
    requires forall k :: 0 <= k < |newer| ==> !Stored(records, newer[k].id)
    ensures DistinctIds(records + newer)
  {
    var r := records + newer;
    forall i, j | 0 <= i < j < |r|
      ensures r[i].id != r[j].id
    {
      if j >= |records| {
        if i < |records| {
          assert !Stored(records, newer[j - |records|].id);
          assert r[i] == records[i];
        } else {
          assert r[i] == newer[i - |records|] && r[j] == newer[j - |records|];
        }
      }
    }
  }

  /** A record whose id is already stored is not stored again: re-adding it changes nothing. */
  lemma CollectionAddSkipsStored(records: seq<Record>, x: Record)
    requires Stored(records, x.id) && SameDimension(records, [x])
    ensures CollectionAdd(records, [x]) == Some(records)
  {
    assert [x][..0] == [];
    assert Unstored(records, [x]) == Unstored(records, []) + [];
    assert records + [] == records;
  }

  /** `get_or_create_collection`: the collection, created empty when missing. */
  function GetOrCreate(collections: map<string, seq<Record>>, name: string): (r: map<string, seq<Record>>)
    ensures name in r && r.Keys == collections.Keys + {name}
    ensures name in collections ==> r == collections
    ensures name !in collections ==> r[name] == []
    ensures forall other :: other in collections && other != name ==> r[other] == collections[other]
  {
    if name in collections then collections else collections[name := []]
  }
}
