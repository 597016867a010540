/**
 * The `VectorStore` class of utils/vector_store.py and of
 * Betty/utils/vector_store.py. Both keep named ChromaDB collections and
 * share everything but `search_collection`: the first creates a missing
 * collection and re-sorts the engine's candidates deterministically, the
 * second leaves a missing collection missing and keeps the engine's order.
 *
 * A collection is its sequence of records; the embedding model, the
 * nearest-neighbour query, the cross-encoder and the file system are
 * parameters of the object.
 */
module VectorStore {
  import opened Wrappers
  import opened Text
  import opened PySeq
  import opened Chroma
  import opened Ranking
  import opened Ingest
  import Sorting

  type Collections = map<string, seq<Record>>

  /** Which of the two files the object comes from. */
  datatype Variant = Root | Betty

  // ------------------------------------------------------------ adding documents

  function EntryChunks(es: seq<Entry>): (r: seq<string>)
    ensures |r| == |es| && forall i :: 0 <= i < |es| ==> r[i] == es[i].chunk
  {
    seq(|es|, i requires 0 <= i < |es| => es[i].chunk)
  }

  /**
   * `_add_documents_to_collection` on the records of the target collection:
   * the records after the insert, or `None` when it returns False (no
   * non-blank chunk, the embedding model fails or returns the wrong number
   * of vectors, or the collection rejects the vectors' dimension).
   */
  function AddBatch(records: seq<Record>, docs: seq<DocumentData>, embed: Embedder): Option<seq<Record>> {
    var es := BatchEntries(docs, |records|, |docs|);
    if es == [] then None
    else
      match embed(EntryChunks(es))
      case None => None
      case Some(embeddings) =>
        if |embeddings| != |es| then None
        else CollectionAdd(records, ToRecords(es, embeddings))
  }

  /** What `add_documents_from_files` returns and the collections after it. */
  datatype AddOutcome = AddOutcome(ok: bool, collections: Collections)

  /** The paths `add_documents_from_files` processes: those not already in the collection. */
  function PendingFiles(cols: Collections, name: string, paths: seq<string>): seq<string> {
    FilesToAdd(paths, ExistingFiles(GetOrCreate(cols, name)[name]))
  }

  /** The documents `add_documents_from_files` inserts. */
  function PendingDocuments(cols: Collections, name: string, paths: seq<string>, read: FileReader, ch: Chunking): seq<DocumentData> {
    ProcessFiles(read, ch, PendingFiles(cols, name, paths))
  }

  function AddFromFiles(cols: Collections, name: string, paths: seq<string>, read: FileReader, ch: Chunking, embed: Embedder): AddOutcome {
    var base := GetOrCreate(cols, name);
    var pending := PendingFiles(cols, name, paths);
    if pending == [] then AddOutcome(true, base)
    else
      var docs := ProcessFiles(read, ch, pending);
      if docs == [] then AddOutcome(false, base)
      else
        match AddBatch(base[name], docs, embed)
        case None => AddOutcome(false, base)
        case Some(records) => AddOutcome(true, base[name := records])
  }

  // ------------------------------------------------------------ searching

  /** Betty's result list: the engine's candidates in engine order, as `{content, metadata}`. */
  function EngineHits(cands: seq<Candidate>): (r: seq<Hit>)
    ensures |r| == |cands|
    ensures forall i :: 0 <= i < |cands| ==> r[i] == Hit(cands[i].document, cands[i].metadata, None)
  {
    seq(|cands|, i requires 0 <= i < |cands| => Hit(cands[i].document, cands[i].metadata, None))
  }

  /**
   * `search_collection`; `None` from the engine stands for any exception
   * of the query or of the embedding model, which the method turns into [].
   */
  function SearchResults(variant: Variant, cols: Collections, name: string, query: string, nResults: int,
                         maxSearchResults: int, engine: QueryEngine): seq<Hit> {
    var n := OrElse(nResults, maxSearchResults);
    match variant
    case Root =>
      var records := GetOrCreate(cols, name)[name];
      if records == [] then []
      else
        (match engine(records, query, Min(n * 2, 20))
         case None => []
         case Some(cands) => RankCandidates(cands, n))
    case Betty =>
      if name !in cols then []
      else
        (match engine(cols[name], query, n)
         case None => []
         case Some(cands) => EngineHits(cands))
  }

  /** The collections after `search_collection`: only the root variant creates a missing one. */
  function SearchState(variant: Variant, cols: Collections, name: string): Collections {
    if variant == Root then GetOrCreate(cols, name) else cols
  }

  /** `search_collection_with_reranking`. */
  function RerankedSearch(variant: Variant, cols: Collections, name: string, query: string, nResults: int,
                          multiplier: int, maxSearchResults: int, engine: QueryEngine,
                          useReranking: bool, reranker: Option<Reranker>): seq<Hit> {
    var n := OrElse(nResults, maxSearchResults);
    if !useReranking || reranker.None? then SearchResults(variant, cols, name, query, n, maxSearchResults, engine)
    else
      var initial := SearchResults(variant, cols, name, query, Min(n * multiplier, 20), maxSearchResults, engine);
      if |initial| <= n then initial
      else
        match RerankHits(query, initial, n, reranker.value)
        case None => SearchResults(variant, cols, name, query, n, maxSearchResults, engine)
        case Some(reranked) => reranked
  }

  // ------------------------------------------------------------ properties of adding

  /** A record of the batch: chunk `c` of document `k`, numbered from `offset`. */
  predicate ChunkRecord(r: Record, offset: nat, docs: seq<DocumentData>, k: nat, c: nat) {
    k < |docs| && c < |docs[k].chunks| && !IsBlank(docs[k].chunks[c])
    && r.id == IdOf(offset + k, c) && r.document == docs[k].chunks[c]
    && r.metadata == Metadata(docs[k].filename, c, None)
  }

  /** The record is one of the batch's chunks. */
  predicate FromBatch(r: Record, offset: nat, docs: seq<DocumentData>) {
    exists k: nat, c: nat :: k < |docs| && c < |docs[k].chunks| && ChunkRecord(r, offset, docs, k, c)
  }

  /**
   * A successful insert appends, in order, the records of the batch's
   * entries, one embedding each, whose id the collection does not hold yet.
   */
  lemma AddBatchValue(records: seq<Record>, docs: seq<DocumentData>, embed: Embedder)
    requires AddBatch(records, docs, embed).Some?
    ensures embed(EntryChunks(BatchEntries(docs, |records|, |docs|))).Some?
    ensures |embed(EntryChunks(BatchEntries(docs, |records|, |docs|))).value| == |BatchEntries(docs, |records|, |docs|)|
    ensures AddBatch(records, docs, embed).value
      == records + Unstored(records, ToRecords(BatchEntries(docs, |records|, |docs|),
                                               embed(EntryChunks(BatchEntries(docs, |records|, |docs|))).value))
  {
  }

  /** Every non-blank chunk of the batch has a record. */
  lemma BatchRecordComplete(docs: seq<DocumentData>, offset: nat, embeddings: seq<Embedding>, k: nat, c: nat)
    requires |embeddings| == |BatchEntries(docs, offset, |docs|)|
    requires k < |docs| && c < |docs[k].chunks| && !IsBlank(docs[k].chunks[c])
    ensures exists j :: 0 <= j < |BatchEntries(docs, offset, |docs|)|
                        && ChunkRecord(ToRecords(BatchEntries(docs, offset, |docs|), embeddings)[j], offset, docs, k, c)
  {
    var es := BatchEntries(docs, offset, |docs|);
    BatchEntriesComplete(docs, offset, |docs|, k, c);
    var e := Entry(IdOf(offset + k, c), docs[k].chunks[c], Metadata(docs[k].filename, c, None));
    var i :| 0 <= i < |es| && es[i] == e;
    assert ChunkRecord(ToRecords(es, embeddings)[i], offset, docs, k, c);
  }

  /** Every record of the batch is a non-blank chunk. */
  lemma BatchRecordSound(docs: seq<DocumentData>, offset: nat, embeddings: seq<Embedding>, j: nat)
    requires j < |embeddings| == |BatchEntries(docs, offset, |docs|)|
    ensures FromBatch(ToRecords(BatchEntries(docs, offset, |docs|), embeddings)[j], offset, docs)
  {
    var es := BatchEntries(docs, offset, |docs|);
    BatchEntriesKeys(docs, offset, |docs|);
    var keys := BatchKeys(docs, offset, |docs|);
    assert EntryMatchesKey(es[j], keys[j], docs, offset);
    var (d, c) := keys[j];
    assert ChunkRecord(ToRecords(es, embeddings)[j], offset, docs, d - offset, c);
  }

  /**
   * A successful insert keeps the old records in front and appends one
   * record per non-blank chunk whose id `doc_{offset+k}_chunk_{c}` is not
   * stored yet, with its filename and index; every new record is such a
   * chunk, and no new record has a stored id.
   */
  lemma AddBatchContents(records: seq<Record>, docs: seq<DocumentData>, embed: Embedder, r: seq<Record>)
    requires AddBatch(records, docs, embed) == Some(r)
    ensures |r| >= |records| && r[..|records|] == records
    ensures forall k, c :: 0 <= k < |docs| && 0 <= c < |docs[k].chunks| && !IsBlank(docs[k].chunks[c])
                           && !Stored(records, IdOf(|records| + k, c)) ==>
      exists j :: |records| <= j < |r| && ChunkRecord(r[j], |records|, docs, k, c)
    ensures forall j :: |records| <= j < |r| ==> FromBatch(r[j], |records|, docs) && !Stored(records, r[j].id)
  {
    AddBatchValue(records, docs, embed);
    AddBatchComplete(records, docs, embed, r);
    AddBatchSound(records, docs, embed, r);
  }

  /** Every non-blank chunk of the batch whose id is not stored yet has its record among the new ones. */
  lemma AddBatchComplete(records: seq<Record>, docs: seq<DocumentData>, embed: Embedder, r: seq<Record>)
    requires AddBatch(records, docs, embed) == Some(r)
    ensures forall k, c :: 0 <= k < |docs| && 0 <= c < |docs[k].chunks| && !IsBlank(docs[k].chunks[c])
                           && !Stored(records, IdOf(|records| + k, c)) ==>
      exists j :: |records| <= j < |r| && ChunkRecord(r[j], |records|, docs, k, c)
  {
    forall k, c | 0 <= k < |docs| && 0 <= c < |docs[k].chunks| && !IsBlank(docs[k].chunks[c])
                  && !Stored(records, IdOf(|records| + k, c))
      ensures exists j :: |records| <= j < |r| && ChunkRecord(r[j], |records|, docs, k, c)
    {
      AddBatchCompleteOne(records, docs, embed, r, k, c);
    }
  }

  /** One chunk of `AddBatchComplete`. */
  lemma AddBatchCompleteOne(records: seq<Record>, docs: seq<DocumentData>, embed: Embedder, r: seq<Record>, k: nat, c: nat)
    requires AddBatch(records, docs, embed) == Some(r)
    requires k < |docs| && c < |docs[k].chunks| && !IsBlank(docs[k].chunks[c])
    requires !Stored(records, IdOf(|records| + k, c))
    ensures exists j :: |records| <= j < |r| && ChunkRecord(r[j], |records|, docs, k, c)
  {
    var offset := |records|;
    var es := BatchEntries(docs, offset, |docs|);
    AddBatchValue(records, docs, embed);
    var embeddings := embed(EntryChunks(es)).value;
    var added := ToRecords(es, embeddings);
    var u := Unstored(records, added);
    assert r == records + u;
    BatchRecordComplete(docs, offset, embeddings, k, c);
    var i :| 0 <= i < |es| && ChunkRecord(added[i], offset, docs, k, c);
    var m := UnstoredKeeps(records, added, i);
    assert r[offset + m] == u[m];
  }

  /** Every new record is the record of a non-blank chunk of the batch, under an id not stored before. */
  lemma AddBatchSound(records: seq<Record>, docs: seq<DocumentData>, embed: Embedder, r: seq<Record>)
    requires AddBatch(records, docs, embed) == Some(r)
    ensures forall j :: |records| <= j < |r| ==> FromBatch(r[j], |records|, docs) && !Stored(records, r[j].id)
  {
    forall j | |records| <= j < |r|
      ensures FromBatch(r[j], |records|, docs) && !Stored(records, r[j].id)
    {
      AddBatchSoundOne(records, docs, embed, r, j);
    }
  }

  /** One record of `AddBatchSound`. */
  lemma AddBatchSoundOne(records: seq<Record>, docs: seq<DocumentData>, embed: Embedder, r: seq<Record>, j: nat)
    requires AddBatch(records, docs, embed) == Some(r)
    requires |records| <= j < |r|
    ensures FromBatch(r[j], |records|, docs) && !Stored(records, r[j].id)
  {
    var offset := |records|;
    var es := BatchEntries(docs, offset, |docs|);
    AddBatchValue(records, docs, embed);
    var embeddings := embed(EntryChunks(es)).value;
    var added := ToRecords(es, embeddings);
    var u := Unstored(records, added);
    assert r == records + u;
    assert r[j] == u[j - offset];
    var i := UnstoredFrom(records, added, j - offset);
    BatchRecordSound(docs, offset, embeddings, i);
  }

  /**
   * Numbering the batch from the record count keeps ids fresh: when every
   * stored id `doc_{d}_...` has `d` below the record count and every new
   * document has a non-blank chunk, no new id equals a stored one, so every
   * record of the batch is appended, and the bound holds again afterwards.
   */
  lemma AddBatchKeepsIdsFresh(records: seq<Record>, docs: seq<DocumentData>, embed: Embedder)
    requires IdsBelow(records, |records|)
    requires forall k :: 0 <= k < |docs| ==> HasContent(docs[k])
    requires AddBatch(records, docs, embed).Some?
    ensures AddBatch(records, docs, embed).value
      == records + ToRecords(BatchEntries(docs, |records|, |docs|),
                             embed(EntryChunks(BatchEntries(docs, |records|, |docs|))).value)
    ensures IdsBelow(AddBatch(records, docs, embed).value, |AddBatch(records, docs, embed).value|)
    ensures forall i, j :: 0 <= i < |records| <= j < |AddBatch(records, docs, embed).value| ==>
      records[i].id != AddBatch(records, docs, embed).value[j].id
  {
    var offset := |records|;
    var es := BatchEntries(docs, offset, |docs|);
    AddBatchValue(records, docs, embed);
    var embeddings := embed(EntryChunks(es)).value;
    var added := ToRecords(es, embeddings);
    BatchIdsFresh(records, docs, embeddings);
    AddBatchAppendsAll(records, added, es);
  }

  /** When no new id is stored, the collection appends every record of the batch, and the old ids stay apart from the new. */
  lemma AddBatchAppendsAll(records: seq<Record>, added: seq<Record>, es: seq<Entry>)
    requires |added| == |es| && forall j :: 0 <= j < |added| ==> added[j].id == es[j].id
    requires forall i, j :: 0 <= i < |records| && 0 <= j < |es| ==> records[i].id != es[j].id
    ensures Unstored(records, added) == added
    ensures forall i, j :: 0 <= i < |records| <= j < |records + added| ==> records[i].id != (records + added)[j].id
  {
    forall i, j | 0 <= i < |records| && 0 <= j < |added|
      ensures records[i].id != added[j].id
    {
      assert added[j].id == es[j].id;
    }
    UnstoredAllFresh(records, added);
    forall i, j | 0 <= i < |records| <= j < |records + added|
      ensures records[i].id != (records + added)[j].id
    {
      assert (records + added)[j] == added[j - |records|];
    }
  }

  /** A collection whose ids are distinct keeps them distinct through an insert. */
  lemma AddBatchKeepsIdsDistinct(records: seq<Record>, docs: seq<DocumentData>, embed: Embedder)
    requires DistinctIds(records) && AddBatch(records, docs, embed).Some?
    ensures DistinctIds(AddBatch(records, docs, embed).value)
  {
    var es := BatchEntries(docs, |records|, |docs|);
    var embeddings := embed(EntryChunks(es)).value;
    CollectionAddKeepsIdsDistinct(records, ToRecords(es, embeddings));
  }

  /**
   * With every path's basename already stored, nothing is processed: the
   * result is True and the only change is the get-or-create.
   */
  lemma AddFromFilesUpToDate(cols: Collections, name: string, paths: seq<string>, read: FileReader, ch: Chunking, embed: Embedder)
    requires forall i :: 0 <= i < |paths| ==> Basename(paths[i]) in ExistingFiles(GetOrCreate(cols, name)[name])
    ensures AddFromFiles(cols, name, paths, read, ch, embed) == AddOutcome(true, GetOrCreate(cols, name))
  {
    FilesToAddNone(paths, ExistingFiles(GetOrCreate(cols, name)[name]));
  }

  /**
   * When none of the pending files yields a document (unreadable, of type
   * md, csv or xlsx, or blank), the result is False and only the
   * get-or-create happened.
   */
  lemma AddFromFilesNothingUsable(cols: Collections, name: string, paths: seq<string>, read: FileReader, ch: Chunking, embed: Embedder)
    requires PendingFiles(cols, name, paths) != []
    requires forall i :: 0 <= i < |PendingFiles(cols, name, paths)| ==> ProcessFile(read, ch, PendingFiles(cols, name, paths)[i]).None?
    ensures AddFromFiles(cols, name, paths, read, ch, embed) == AddOutcome(false, GetOrCreate(cols, name))
  {
    ProcessFilesNone(read, ch, PendingFiles(cols, name, paths));
  }

  /**
   * `add_documents_from_files` either leaves the collections as the
   * get-or-create made them, or returns True after inserting the pending
   * documents into the target collection.
   */
  lemma AddFromFilesCases(cols: Collections, name: string, paths: seq<string>, read: FileReader, ch: Chunking, embed: Embedder)
    ensures AddFromFiles(cols, name, paths, read, ch, embed).collections == GetOrCreate(cols, name)
      || (AddBatch(GetOrCreate(cols, name)[name], PendingDocuments(cols, name, paths, read, ch), embed).Some?
          && AddFromFiles(cols, name, paths, read, ch, embed) == AddOutcome(true, GetOrCreate(cols, name)[name :=
               AddBatch(GetOrCreate(cols, name)[name], PendingDocuments(cols, name, paths, read, ch), embed).value]))
    ensures !AddFromFiles(cols, name, paths, read, ch, embed).ok ==>
      AddFromFiles(cols, name, paths, read, ch, embed).collections == GetOrCreate(cols, name)
  {
  }

  /**
   * `add_documents_from_files` touches only the target collection, keeps
   * its records in front, and changes nothing but the get-or-create when
   * it returns False.
   */
  lemma AddFromFilesFrame(cols: Collections, name: string, paths: seq<string>, read: FileReader, ch: Chunking, embed: Embedder)
    ensures AddFromFiles(cols, name, paths, read, ch, embed).collections.Keys == cols.Keys + {name}
    ensures forall other :: other in cols && other != name ==>
      AddFromFiles(cols, name, paths, read, ch, embed).collections[other] == cols[other]
    ensures |GetOrCreate(cols, name)[name]| <= |AddFromFiles(cols, name, paths, read, ch, embed).collections[name]|
    ensures AddFromFiles(cols, name, paths, read, ch, embed).collections[name][..|GetOrCreate(cols, name)[name]|]
      == GetOrCreate(cols, name)[name]
    ensures !AddFromFiles(cols, name, paths, read, ch, embed).ok ==>
      AddFromFiles(cols, name, paths, read, ch, embed).collections == GetOrCreate(cols, name)
  {
    var base := GetOrCreate(cols, name);
    var docs := PendingDocuments(cols, name, paths, read, ch);
    var after := AddFromFiles(cols, name, paths, read, ch, embed).collections;
    AddFromFilesCases(cols, name, paths, read, ch, embed);
    if after != base {
      var r := AddBatch(base[name], docs, embed).value;
      AddBatchContents(base[name], docs, embed, r);
      assert after == base[name := r];
    }
  }

  /**
   * Dedup by basename: every record the call adds carries the basename of
   * one of the given paths, and none of an already stored filename.
   */
  lemma AddedFilesAreNew(cols: Collections, name: string, paths: seq<string>, read: FileReader, ch: Chunking, embed: Embedder, j: nat)
    requires |GetOrCreate(cols, name)[name]| <= j < |AddFromFiles(cols, name, paths, read, ch, embed).collections[name]|
    ensures AddFromFiles(cols, name, paths, read, ch, embed).collections[name][j].metadata.filename
      !in ExistingFiles(GetOrCreate(cols, name)[name])
    ensures exists i :: 0 <= i < |paths|
                        && Basename(paths[i]) == AddFromFiles(cols, name, paths, read, ch, embed).collections[name][j].metadata.filename
  {
    var base := GetOrCreate(cols, name);
    var existing := ExistingFiles(base[name]);
    var pending := PendingFiles(cols, name, paths);
    var docs := PendingDocuments(cols, name, paths, read, ch);
    AddFromFilesCases(cols, name, paths, read, ch, embed);
    var r := AddBatch(base[name], docs, embed).value;
    assert AddFromFiles(cols, name, paths, read, ch, embed).collections[name] == r;
    AddBatchContents(base[name], docs, embed, r);
    assert FromBatch(r[j], |base[name]|, docs);
    var k: nat, c: nat :| k < |docs| && c < |docs[k].chunks| && ChunkRecord(r[j], |base[name]|, docs, k, c);
    assert docs[k] in docs;
    ProcessFilesSound(read, ch, pending, docs[k]);
    var i :| 0 <= i < |pending| && ProcessFile(read, ch, pending[i]) == Some(docs[k]);
    ProcessFileExactly(read, ch, pending[i]);
    assert docs[k].filename == Basename(pending[i]);
    FilesToAddExactly(paths, existing);
    assert pending[i] in pending;
    var i' :| 0 <= i' < |paths| && paths[i'] == pending[i];
  }

  /**
   * Over the whole call: when the stored ids are numbered below the record
   * count and every pending document has a non-blank chunk, the ids stay
   * so numbered and none of the new ids was stored before.
   */
  lemma AddFromFilesKeepsIdsFresh(cols: Collections, name: string, paths: seq<string>, read: FileReader, ch: Chunking, embed: Embedder)
    requires IdsBelow(GetOrCreate(cols, name)[name], |GetOrCreate(cols, name)[name]|)
    requires forall k :: 0 <= k < |PendingDocuments(cols, name, paths, read, ch)| ==> HasContent(PendingDocuments(cols, name, paths, read, ch)[k])
    ensures IdsBelow(AddFromFiles(cols, name, paths, read, ch, embed).collections[name],
                     |AddFromFiles(cols, name, paths, read, ch, embed).collections[name]|)
    ensures forall i, j :: 0 <= i < |GetOrCreate(cols, name)[name]| <= j < |AddFromFiles(cols, name, paths, read, ch, embed).collections[name]| ==>
      GetOrCreate(cols, name)[name][i].id != AddFromFiles(cols, name, paths, read, ch, embed).collections[name][j].id
  {
    var base := GetOrCreate(cols, name);
    var docs := PendingDocuments(cols, name, paths, read, ch);
    var after := AddFromFiles(cols, name, paths, read, ch, embed).collections;
    AddFromFilesCases(cols, name, paths, read, ch, embed);
    if after != base {
      AddBatchKeepsIdsFresh(base[name], docs, embed);
      assert after[name] == AddBatch(base[name], docs, embed).value;
    }
  }

  // ------------------------------------------------------------ properties of searching

  /** ChromaDB's query never returns more than `n_results` candidates. */
  ghost predicate ReturnsAtMost(engine: QueryEngine) {
    forall records, query, k :: engine(records, query, k).Some? ==> |engine(records, query, k).value| <= Max(k, 0)
  }

  /**
   * A missing collection yields no results in both variants; the root
   * variant creates it empty, Betty's leaves the collections unchanged.
   */
  lemma SearchMissingCollection(variant: Variant, cols: Collections, name: string, query: string, nResults: int,
                                maxSearchResults: int, engine: QueryEngine)
    requires name !in cols
    ensures SearchResults(variant, cols, name, query, nResults, maxSearchResults, engine) == []
    ensures variant == Root ==> SearchState(variant, cols, name) == cols[name := []]
    ensures variant == Betty ==> SearchState(variant, cols, name) == cols
  {
  }

  /**
   * The root variant's results: the engine's `min(2n, 20)` candidates
   * sorted by (rounded distance, filename, length), stably and as a
   * permutation, of which the first `min(n, |candidates|)` are kept as
   * `{content, metadata}`; no dropped candidate has a smaller key.
   */
  lemma RootSearchRanked(cols: Collections, name: string, query: string, nResults: int, maxSearchResults: int,
                         engine: QueryEngine, cands: seq<Candidate>)
    requires OrElse(nResults, maxSearchResults) >= 0
    requires GetOrCreate(cols, name)[name] != []
    requires engine(GetOrCreate(cols, name)[name], query, Min(OrElse(nResults, maxSearchResults) * 2, 20)) == Some(cands)
    ensures |SearchResults(Root, cols, name, query, nResults, maxSearchResults, engine)| == Min(OrElse(nResults, maxSearchResults), |cands|)
    ensures forall i :: 0 <= i < |SearchResults(Root, cols, name, query, nResults, maxSearchResults, engine)| ==>
      SearchResults(Root, cols, name, query, nResults, maxSearchResults, engine)[i] == HitOf(Ranked(cands)[i])
    ensures Sorting.Sorted(Ranked(cands), KeyLe) && multiset(Ranked(cands)) == multiset(Formats(cands))
    ensures forall i, j :: 0 <= i < |SearchResults(Root, cols, name, query, nResults, maxSearchResults, engine)| <= j < |cands| ==>
      KeyLe(Ranked(cands)[i], Ranked(cands)[j])
  {
    RankCandidatesSpec(cands, OrElse(nResults, maxSearchResults));
  }

  /** Betty's results are the engine's candidates, in the engine's order. */
  lemma BettySearchEngineOrder(cols: Collections, name: string, query: string, nResults: int, maxSearchResults: int,
                               engine: QueryEngine, cands: seq<Candidate>)
    requires name in cols && engine(cols[name], query, OrElse(nResults, maxSearchResults)) == Some(cands)
    ensures |SearchResults(Betty, cols, name, query, nResults, maxSearchResults, engine)| == |cands|
    ensures forall i :: 0 <= i < |cands| ==>
      SearchResults(Betty, cols, name, query, nResults, maxSearchResults, engine)[i].content == cands[i].document
      && SearchResults(Betty, cols, name, query, nResults, maxSearchResults, engine)[i].metadata == cands[i].metadata
  {
  }

  /**
   * At most `n` results: by the cut in the root variant, and because
   * ChromaDB returns at most `n_results` in Betty's.
   */
  lemma SearchBound(variant: Variant, cols: Collections, name: string, query: string, nResults: int,
                    maxSearchResults: int, engine: QueryEngine)
    requires OrElse(nResults, maxSearchResults) >= 0
    requires variant == Betty ==> ReturnsAtMost(engine)
    ensures |SearchResults(variant, cols, name, query, nResults, maxSearchResults, engine)| <= OrElse(nResults, maxSearchResults)
  {
    var n := OrElse(nResults, maxSearchResults);
    var records := GetOrCreate(cols, name)[name];
    if variant == Root && records != [] && engine(records, query, Min(n * 2, 20)).Some? {
      RankCandidatesSpec(engine(records, query, Min(n * 2, 20)).value, n);
    }
  }

  /** Searching again sees the state the first search left and returns the same results. */
  lemma SearchRepeatable(variant: Variant, cols: Collections, name: string, query: string, nResults: int,
                         maxSearchResults: int, engine: QueryEngine)
    ensures SearchState(variant, SearchState(variant, cols, name), name) == SearchState(variant, cols, name)
    ensures SearchResults(variant, SearchState(variant, cols, name), name, query, nResults, maxSearchResults, engine)
      == SearchResults(variant, cols, name, query, nResults, maxSearchResults, engine)
  {
  }

  /** With reranking off or no cross-encoder, the reranking search is the plain search. */
  lemma RerankPassThrough(variant: Variant, cols: Collections, name: string, query: string, nResults: int, multiplier: int,
                          maxSearchResults: int, engine: QueryEngine, useReranking: bool, reranker: Option<Reranker>)
    requires !useReranking || reranker.None?
    ensures RerankedSearch(variant, cols, name, query, nResults, multiplier, maxSearchResults, engine, useReranking, reranker)
      == SearchResults(variant, cols, name, query, nResults, maxSearchResults, engine)
  {
    OrElseIdempotent(nResults, maxSearchResults);
  }

  /** When the wider search finds no more than `n` hits, they are returned as they are. */
  lemma RerankFewUnchanged(variant: Variant, cols: Collections, name: string, query: string, nResults: int, multiplier: int,
                           maxSearchResults: int, engine: QueryEngine, reranker: Reranker)
    requires |SearchResults(variant, cols, name, query, Min(OrElse(nResults, maxSearchResults) * multiplier, 20),
                            maxSearchResults, engine)| <= OrElse(nResults, maxSearchResults)
    ensures RerankedSearch(variant, cols, name, query, nResults, multiplier, maxSearchResults, engine, true, Some(reranker))
      == SearchResults(variant, cols, name, query, Min(OrElse(nResults, maxSearchResults) * multiplier, 20), maxSearchResults, engine)
  {
  }

  /** When the cross-encoder fails, the plain search of `n` is returned. */
  lemma RerankFallback(variant: Variant, cols: Collections, name: string, query: string, nResults: int, multiplier: int,
                       maxSearchResults: int, engine: QueryEngine, reranker: Reranker, initial: seq<Hit>)
    requires initial == SearchResults(variant, cols, name, query, Min(OrElse(nResults, maxSearchResults) * multiplier, 20),
                                      maxSearchResults, engine)
    requires |initial| > OrElse(nResults, maxSearchResults) && reranker(QueryPairs(query, initial)).None?
    ensures RerankedSearch(variant, cols, name, query, nResults, multiplier, maxSearchResults, engine, true, Some(reranker))
      == SearchResults(variant, cols, name, query, nResults, maxSearchResults, engine)
  {
    OrElseIdempotent(nResults, maxSearchResults);
  }

  /**
   * Otherwise the result is the top `n` of the wider search by descending
   * cross-encoder score, ties in search order, each hit carrying the score
   * of its own (query, content) pair; no dropped hit scores higher than a
   * kept one.
   */
  lemma RerankTop(variant: Variant, cols: Collections, name: string, query: string, nResults: int, multiplier: int,
                  maxSearchResults: int, engine: QueryEngine, reranker: Reranker, initial: seq<Hit>, scores: seq<real>)
    requires OrElse(nResults, maxSearchResults) >= 0
    requires initial == SearchResults(variant, cols, name, query, Min(OrElse(nResults, maxSearchResults) * multiplier, 20),
                                      maxSearchResults, engine)
    requires |initial| > OrElse(nResults, maxSearchResults) && reranker(QueryPairs(query, initial)) == Some(scores)
    ensures |RerankedSearch(variant, cols, name, query, nResults, multiplier, maxSearchResults, engine, true, Some(reranker))|
      == Min(OrElse(nResults, maxSearchResults), Min(|initial|, |scores|))
    ensures forall i :: 0 <= i < |RerankedSearch(variant, cols, name, query, nResults, multiplier, maxSearchResults, engine, true, Some(reranker))| ==>
      RerankedSearch(variant, cols, name, query, nResults, multiplier, maxSearchResults, engine, true, Some(reranker))[i]
        == WithScore(ScoreOrder(initial, scores)[i])
    ensures forall i, j :: 0 <= i < j < |RerankedSearch(variant, cols, name, query, nResults, multiplier, maxSearchResults, engine, true, Some(reranker))| ==>
      ScoreOrder(initial, scores)[i].1 >= ScoreOrder(initial, scores)[j].1
    ensures forall i, j :: 0 <= i < |RerankedSearch(variant, cols, name, query, nResults, multiplier, maxSearchResults, engine, true, Some(reranker))|
                           <= j < |ScoreOrder(initial, scores)| ==>
      ScoreOrder(initial, scores)[i].1 >= ScoreOrder(initial, scores)[j].1
    ensures multiset(ScoreOrder(initial, scores)) == multiset(Zip(initial, scores))
  {
    RerankSpec(query, initial, OrElse(nResults, maxSearchResults), reranker);
  }

  /** The reranking search also returns at most `n` hits. */
  lemma RerankBound(variant: Variant, cols: Collections, name: string, query: string, nResults: int, multiplier: int,
                    maxSearchResults: int, engine: QueryEngine, useReranking: bool, reranker: Option<Reranker>)
    requires OrElse(nResults, maxSearchResults) >= 0
    requires variant == Betty ==> ReturnsAtMost(engine)
    ensures |RerankedSearch(variant, cols, name, query, nResults, multiplier, maxSearchResults, engine, useReranking, reranker)|
      <= OrElse(nResults, maxSearchResults)
  {
    var n := OrElse(nResults, maxSearchResults);
    if !useReranking || reranker.None? {
      OrElseIdempotent(nResults, maxSearchResults);
      SearchBound(variant, cols, name, query, n, maxSearchResults, engine);
    } else {
      var initial := SearchResults(variant, cols, name, query, Min(n * multiplier, 20), maxSearchResults, engine);
      if |initial| > n {
        match RerankHits(query, initial, n, reranker.value)
        case None =>
          OrElseIdempotent(nResults, maxSearchResults);
          SearchBound(variant, cols, name, query, n, maxSearchResults, engine);
        case Some(_) =>
          RerankHitsBound(query, initial, n, reranker.value);
      }
    }
  }

  // ------------------------------------------------------------ the object

  class VectorStore {
    var collections: Collections
    const variant: Variant
    const embed: Embedder
    const engine: QueryEngine
    /** `self.reranker`: `None` when reranking is off or the model failed to load. */
    const reranker: Option<Reranker>
    const useReranking: bool
    const maxSearchResults: int
    const chunking: Chunking
    const read: FileReader

    constructor(variant: Variant, embed: Embedder, engine: QueryEngine, reranker: Option<Reranker>, useReranking: bool,
                maxSearchResults: int, chunking: Chunking, read: FileReader, collections: Collections)
      ensures this.variant == variant && this.embed == embed && this.engine == engine
      ensures this.reranker == reranker && this.useReranking == useReranking
      ensures this.maxSearchResults == maxSearchResults && this.chunking == chunking && this.read == read
      ensures this.collections == collections
    {
      this.variant := variant;
      this.embed := embed;
      this.engine := engine;
      this.reranker := reranker;
      this.useReranking := useReranking;
      this.maxSearchResults := maxSearchResults;
      this.chunking := chunking;
      this.read := read;
      this.collections := collections;
    }

    method AddDocumentsToCollection(name: string, documentsData: seq<DocumentData>) returns (ok: bool)
      requires name in collections
      modifies this
      ensures ok == AddBatch(old(collections)[name], documentsData, embed).Some?
      ensures collections == if ok then old(collections)[name := AddBatch(old(collections)[name], documentsData, embed).value]
                             else old(collections)
    {
      var records := collections[name];
      var docOffset := |records|;
      var allChunks, metadatas, ids := BuildBatch(documentsData, docOffset);
      ghost var es := BatchEntries(documentsData, docOffset, |documentsData|);
      if allChunks == [] {
        return false;
      }
      assert allChunks == EntryChunks(es);
      var embeddings := embed(allChunks);
      if embeddings.None? || |embeddings.value| != |allChunks| {
        return false;
      }
      var added := seq(|allChunks|, i requires 0 <= i < |allChunks| => Record(ids[i], allChunks[i], metadatas[i], embeddings.value[i]));
      assert added == ToRecords(es, embeddings.value);
      var result := CollectionAdd(records, added);
      if result.None? {
        return false;
      }
      collections := collections[name := result.value];
      ok := true;
    }

    method AddDocumentsFromFiles(name: string, filePaths: seq<string>) returns (ok: bool)
      modifies this
      ensures AddOutcome(ok, collections) == AddFromFiles(old(collections), name, filePaths, read, chunking, embed)
    {
      collections := GetOrCreate(collections, name);
      var existingFiles := ExistingFiles(collections[name]);
      var filesToAdd := FilesToAdd(filePaths, existingFiles);
      if filesToAdd == [] {
        return true;
      }
      var documentsData := ProcessFilesForCollection(read, chunking, filesToAdd);
      if documentsData == [] {
        return false;
      }
      ok := AddDocumentsToCollection(name, documentsData);
    }

    /** The root variant's formatting, sort and cut: the loop that keeps the first `n`. */
    static method RankAndCut(cands: seq<Candidate>, n: int) returns (finalResults: seq<Hit>)
      ensures finalResults == RankCandidates(cands, n)
    {
      var formattedResults := Formats(cands);
      formattedResults := Sorting.Sort(formattedResults, KeyLe);
      var kept := Take(formattedResults, n);
      finalResults := [];
      var i := 0;
      while i < |kept|
        invariant i <= |kept|
        invariant |finalResults| == i
        invariant forall k :: 0 <= k < i ==> finalResults[k] == HitOf(kept[k])
      {
        finalResults := finalResults + [HitOf(kept[i])];
        i := i + 1;
      }
    }

    method SearchCollection(name: string, query: string, nResults: int) returns (results: seq<Hit>)
      modifies this
      ensures results == SearchResults(variant, old(collections), name, query, nResults, maxSearchResults, engine)
      ensures collections == SearchState(variant, old(collections), name)
    {
      var n := OrElse(nResults, maxSearchResults);
      if variant == Root {
        collections := GetOrCreate(collections, name);
        var records := collections[name];
        if records == [] {
          return [];
        }
        var found := engine(records, query, Min(n * 2, 20));
        if found.None? {
          return [];
        }
        results := RankAndCut(found.value, n);
      } else {
        if name !in collections {
          return [];
        }
        var found := engine(collections[name], query, n);
        if found.None? {
          return [];
        }
        results := EngineHits(found.value);
      }
    }

    /** The reranking loop: the top `n` scored hits, each with its score. */
    static method TopScored(scoredResults: seq<(Hit, real)>, n: int) returns (reranked: seq<Hit>)
      ensures reranked == WithScores(Take(scoredResults, n))
    {
      var top := Take(scoredResults, n);
      reranked := [];
      var i := 0;
      while i < |top|
        invariant i <= |top|
        invariant |reranked| == i
        invariant forall k :: 0 <= k < i ==> reranked[k] == WithScore(top[k])
      {
        var (doc, score) := top[i];
        reranked := reranked + [doc.(relevanceScore := Some(score))];
        i := i + 1;
      }
    }

    method SearchCollectionWithReranking(name: string, query: string, nResults: int, initialResultsMultiplier: int)
      returns (results: seq<Hit>)
      modifies this
      ensures results == RerankedSearch(variant, old(collections), name, query, nResults, initialResultsMultiplier,
                                        maxSearchResults, engine, useReranking, reranker)
      ensures collections == SearchState(variant, old(collections), name)
    {
      var n := OrElse(nResults, maxSearchResults);
      if !useReranking || reranker.None? {
        results := SearchCollection(name, query, n);
        return;
      }
      var initialN := Min(n * initialResultsMultiplier, 20);
      var initialResults := SearchCollection(name, query, initialN);
      if |initialResults| <= n {
        return initialResults;
      }
      var pairs := QueryPairs(query, initialResults);
      var scores := reranker.value(pairs);
      if scores.None? {
        results := SearchCollection(name, query, n);
        return;
      }
      var scoredResults := Zip(initialResults, scores.value);
      scoredResults := Sorting.Sort(scoredResults, ScoreGe);
      results := TopScored(scoredResults, n);
    }

    method DeleteCollection(name: string) returns (ok: bool)
      modifies this
      ensures ok <==> name in old(collections)
      ensures collections == old(collections) - {name}
    {
      if name !in collections {
        return false;
      }
      collections := collections - {name};
      ok := true;
    }

    method ResetCollectionForEmbeddingModel(name: string) returns (ok: bool)
      modifies this
      ensures ok
      ensures collections == old(collections)[name := []]
    {
      if name in collections {
        collections := collections - {name};
      }
      collections := GetOrCreate(collections, name);
      ok := true;
    }
  }
}
