/**
 * chat/rag/retriever.py's `DocumentRetriever`: `retrieve` (threshold
 * filtering, rank numbering, optional re-ranking and truncation),
 * `_rerank_results` (the ordering and renumbering around a composite score),
 * the outcome logic of `add_document` and the status rule of
 * `health_check`.
 *
 * The vector store's search, the store's `add_chunks`, the document parser
 * and the composite scoring formula are parameters.
 */
module RagRetriever {
  import opened Wrappers
  import opened Text
  import opened PySeq
  import opened RagChunker
  import opened RagChunkText
  import Sorting

  /** `ChatConfig.DEFAULT_N_RESULTS`. */
  const DefaultNResults := 5
  /** `ChatConfig.SIMILARITY_THRESHOLD`. */
  const SimilarityThreshold: real := 0.1
  /** `min(n_results * 2, 50)`: the cap on the candidates asked of the store. */
  const MaxCandidates := 50

  /**
   * A result's metadata dictionary: the store's string fields, plus the
   * `_composite_score` entry that re-ranking writes into it.
   */
  datatype ResultMeta = ResultMeta(fields: map<string, string>, compositeScore: Option<real>)

  /** One entry of the store's search results. */
  datatype StoreHit = StoreHit(content: string, metadata: ResultMeta, similarity: real, distance: real)

  /** `RetrievalResult`. */
  datatype RetrievalResult = RetrievalResult(content: string, metadata: ResultMeta, similarity: real,
                                             distance: real, rank: int)

  /**
   * `vector_store.search(collection_name, query, n_results, filter_metadata)`;
   * `Err` is the `VectorStoreError` (or any other exception) it raises.
   */
  type StoreSearch = (string, string, int, Option<map<string, string>>) -> Result<seq<StoreHit>, string>

  /** The composite score `_rerank_results` computes for a result and a query. */
  type CompositeScore = (string, RetrievalResult) -> real

  /** Python's `x or d` on a float: 0.0 (or None) falls back to `d`. */
  function RealOrElse(x: real, d: real): real {
    if x == 0.0 then d else x
  }

  // ------------------------------------------------------------ retrieve

  /** The list comprehension keeping the hits whose similarity reaches the threshold. */
  function AboveThreshold(hits: seq<StoreHit>, threshold: real): (r: seq<StoreHit>)
    ensures |r| <= |hits|
  {
    if hits == [] then []
    else
      var last := hits[|hits| - 1];
      AboveThreshold(hits[..|hits| - 1], threshold) + (if last.similarity >= threshold then [last] else [])
  }

  /** A hit becomes a `RetrievalResult` with the given rank. */
  function ResultOf(h: StoreHit, rank: int): RetrievalResult {
    RetrievalResult(h.content, h.metadata, h.similarity, h.distance, rank)
  }

  /** The conversion loop: the hits in order, ranked 1, 2, ... */
  function Numbered(hits: seq<StoreHit>): (r: seq<RetrievalResult>)
    ensures |r| == |hits| && forall i :: 0 <= i < |hits| ==> r[i] == ResultOf(hits[i], i + 1)
  {
    seq(|hits|, i requires 0 <= i < |hits| => ResultOf(hits[i], i + 1))
  }

  /** `DocumentRetriever.retrieve`; `Err` is the `RetrievalError` it raises. */
  function RetrieveSpec(search: StoreSearch, score: CompositeScore, collectionName: string, query: string,
                        nResults: int, similarityThreshold: real, metadataFilter: Option<map<string, string>>,
                        rerank: bool): Result<seq<RetrievalResult>, string>
  {
    if IsBlank(query) then Ok([])
    else
      var n := OrElse(nResults, DefaultNResults);
      var threshold := RealOrElse(similarityThreshold, SimilarityThreshold);
      match search(collectionName, query, Min(n * 2, MaxCandidates), metadataFilter)
      case Err(e) => Err("Retrieval failed: " + e)
      case Ok(raw) =>
        if raw == [] then Ok([])
        else
          var filtered := AboveThreshold(raw, threshold);
          if filtered == [] then Ok([])
          else
            Ok(Take(RankedResults(query, filtered, score, rerank), n))
  }

  /** The surviving hits numbered, then re-ranked when asked and there is more than one. */
  function RankedResults(query: string, filtered: seq<StoreHit>, score: CompositeScore, rerank: bool): (r: seq<RetrievalResult>)
    ensures |r| == |filtered|
  {
    var results := Numbered(filtered);
    if rerank && |results| > 1 then Rerank(query, results, score) else results
  }

  method Retrieve(search: StoreSearch, score: CompositeScore, collectionName: string, query: string,
                  nResults: int, similarityThreshold: real, metadataFilter: Option<map<string, string>>,
                  rerank: bool) returns (r: Result<seq<RetrievalResult>, string>)
    ensures r == RetrieveSpec(search, score, collectionName, query, nResults, similarityThreshold, metadataFilter, rerank)
  {
    if IsBlank(query) {
      return Ok([]);
    }
    var n := OrElse(nResults, DefaultNResults);
    var threshold := RealOrElse(similarityThreshold, SimilarityThreshold);
    var raw := search(collectionName, query, Min(n * 2, MaxCandidates), metadataFilter);
    if raw.Err? {
      return Err("Retrieval failed: " + raw.error);
    }
    var rawResults := raw.value;
    if rawResults == [] {
      return Ok([]);
    }
    var filteredResults: seq<StoreHit> := [];
    var i := 0;
    while i < |rawResults|
      invariant i <= |rawResults|
      invariant filteredResults == AboveThreshold(rawResults[..i], threshold)
    {
      assert rawResults[..i + 1][..i] == rawResults[..i];
      if rawResults[i].similarity >= threshold {
        filteredResults := filteredResults + [rawResults[i]];
      }
      i := i + 1;
    }
    assert rawResults[..i] == rawResults;
    if filteredResults == [] {
      return Ok([]);
    }
    var retrievalResults: seq<RetrievalResult> := [];
    i := 0;
    while i < |filteredResults|
      invariant i <= |filteredResults| && |retrievalResults| == i
      invariant forall k :: 0 <= k < i ==> retrievalResults[k] == ResultOf(filteredResults[k], k + 1)
    {
      var result := filteredResults[i];
      retrievalResults := retrievalResults + [RetrievalResult(result.content, result.metadata, result.similarity,
                                                              result.distance, i + 1)];
      i := i + 1;
    }
    assert retrievalResults == Numbered(filteredResults);
    if rerank && |retrievalResults| > 1 {
      retrievalResults := RerankResults(query, retrievalResults, score);
    }
    r := Ok(Take(retrievalResults, n));
  }

  // ------------------------------------------------------------ _rerank_results

  /** A result with `_composite_score` written into its metadata. */
  function WithComposite(r: RetrievalResult, s: real): RetrievalResult {
    r.(metadata := r.metadata.(compositeScore := Some(s)))
  }

  /** The scoring loop: every result carries its own composite score. */
  function Scored(query: string, results: seq<RetrievalResult>, score: CompositeScore): (r: seq<RetrievalResult>)
    ensures |r| == |results|
    ensures forall i :: 0 <= i < |results| ==> r[i] == WithComposite(results[i], score(query, results[i]))
  {
    seq(|results|, i requires 0 <= i < |results| => WithComposite(results[i], score(query, results[i])))
  }

  /** `x.metadata.get('_composite_score', x.similarity)`. */
  function SortKey(r: RetrievalResult): real {
    match r.metadata.compositeScore
    case Some(s) => s
    case None => r.similarity
  }

  /** `sorted(..., key=SortKey, reverse=True)` compares by descending key. */
  predicate KeyGe(x: RetrievalResult, y: RetrievalResult) {
    SortKey(x) >= SortKey(y)
  }

  /** The renumbering loop: position `i` gets rank `i + 1`. */
  function Renumbered(results: seq<RetrievalResult>): (r: seq<RetrievalResult>)
    ensures |r| == |results| && forall i :: 0 <= i < |results| ==> r[i] == results[i].(rank := i + 1)
  {
    seq(|results|, i requires 0 <= i < |results| => results[i].(rank := i + 1))
  }

  function Rerank(query: string, results: seq<RetrievalResult>, score: CompositeScore): seq<RetrievalResult> {
    Renumbered(Sorting.Sort(Scored(query, results, score), KeyGe))
  }

  method RerankResults(query: string, results: seq<RetrievalResult>, score: CompositeScore)
      returns (rankedResults: seq<RetrievalResult>)
    ensures rankedResults == Rerank(query, results, score)
  {
    var scored := results;
    var i := 0;
    while i < |scored|
      invariant i <= |scored| == |results|
      invariant forall k :: 0 <= k < i ==> scored[k] == WithComposite(results[k], score(query, results[k]))
      invariant forall k :: i <= k < |scored| ==> scored[k] == results[k]
    {
      var compositeScore := score(query, scored[i]);
      scored := scored[i := WithComposite(scored[i], compositeScore)];
      i := i + 1;
    }
    assert scored == Scored(query, results, score);
    rankedResults := Sorting.Sort(scored, KeyGe);
    i := 0;
    ghost var sorted := rankedResults;
    while i < |rankedResults|
      invariant i <= |rankedResults| == |sorted|
      invariant forall k :: 0 <= k < i ==> rankedResults[k] == sorted[k].(rank := k + 1)
      invariant forall k :: i <= k < |rankedResults| ==> rankedResults[k] == sorted[k]
    {
      rankedResults := rankedResults[i := rankedResults[i].(rank := i + 1)];
      i := i + 1;
    }
    assert rankedResults == Renumbered(sorted);
  }

  lemma KeyGeTotalPreorder()
    ensures Sorting.Total(KeyGe) && Sorting.Transitive(KeyGe)
  {
  }

  /**
   * Re-ranking keeps every result, each now carrying its own composite
   * score, orders them by descending score with ties in their original
   * order, and renumbers the ranks 1..k.
   */
  lemma RerankSpec(query: string, results: seq<RetrievalResult>, score: CompositeScore)
    ensures var scored := Scored(query, results, score);
      var order := Sorting.Sort(scored, KeyGe);
      var r := Rerank(query, results, score);
      |r| == |results|
      && multiset(order) == multiset(scored)
      && (forall y :: Sorting.Class(order, y, KeyGe) == Sorting.Class(scored, y, KeyGe))
      && (forall i :: 0 <= i < |r| ==> r[i] == order[i].(rank := i + 1) && r[i].rank == i + 1)
      && (forall i :: 0 <= i < |r| ==> r[i].metadata.compositeScore.Some?)
      && (forall i, j :: 0 <= i < j < |r| ==> r[i].metadata.compositeScore.value >= r[j].metadata.compositeScore.value)
  {
    var scored := Scored(query, results, score);
    var order := Sorting.Sort(scored, KeyGe);
    KeyGeTotalPreorder();
    Sorting.SortSorted(scored, KeyGe);
    forall y {
      Sorting.SortStable(scored, y, KeyGe);
    }
    SortKeepsScored(scored, order);
    ScoredOrderDescending(order);
  }

  /** Every result carries a composite score. */
  predicate AllScored(s: seq<RetrievalResult>) {
    forall i :: 0 <= i < |s| ==> s[i].metadata.compositeScore.Some?
  }

  /** A reordering of scored results is scored. */
  lemma SortKeepsScored(scored: seq<RetrievalResult>, order: seq<RetrievalResult>)
    requires AllScored(scored) && multiset(order) == multiset(scored)
    ensures AllScored(order)
  {
    forall i | 0 <= i < |order|
      ensures order[i].metadata.compositeScore.Some?
    {
      assert order[i] in multiset(scored);
    }
  }

  /** Scored results sorted by descending key have descending composite scores. */
  lemma ScoredOrderDescending(order: seq<RetrievalResult>)
    requires AllScored(order) && Sorting.Sorted(order, KeyGe)
    ensures forall i, j :: 0 <= i < j < |order| ==>
      order[i].metadata.compositeScore.value >= order[j].metadata.compositeScore.value
  {
    forall i, j | 0 <= i < j < |order|
      ensures order[i].metadata.compositeScore.value >= order[j].metadata.compositeScore.value
    {
      assert KeyGe(order[i], order[j]);
    }
  }

  /** Each re-ranked result is an input result with its own composite score and a new rank. */
  lemma RerankFrom(query: string, results: seq<RetrievalResult>, score: CompositeScore, i: nat)
    requires i < |results|
    ensures exists k :: (0 <= k < |results|
      && Rerank(query, results, score)[i] == WithComposite(results[k], score(query, results[k])).(rank := i + 1))
  {
    var scored := Scored(query, results, score);
    var order := Sorting.Sort(scored, KeyGe);
    assert order[i] in multiset(scored);
    var k :| 0 <= k < |scored| && scored[k] == order[i];
  }

  // ------------------------------------------------------------ properties of retrieve

  /** The filter keeps exactly the hits whose similarity reaches the threshold. */
  lemma {:induction false} AboveThresholdSpec(hits: seq<StoreHit>, threshold: real)
    ensures forall h :: h in AboveThreshold(hits, threshold) <==> h in hits && h.similarity >= threshold
  {
    if hits != [] {
      var init := hits[..|hits| - 1];
      AboveThresholdSpec(init, threshold);
      assert hits == init + [hits[|hits| - 1]];
    }
  }

  /** A blank query returns no results, whatever the store would have answered. */
  lemma RetrieveBlankQuery(search: StoreSearch, score: CompositeScore, collectionName: string, query: string,
                           nResults: int, similarityThreshold: real, metadataFilter: Option<map<string, string>>,
                           rerank: bool)
    requires IsBlank(query)
    ensures RetrieveSpec(search, score, collectionName, query, nResults, similarityThreshold, metadataFilter, rerank) == Ok([])
  {
  }

  /**
   * Retrieval asks the store once, for `min(2n, 50)` candidates with `n`
   * defaulting to 5: two stores that answer that one request alike give
   * the same outcome.
   */
  lemma RetrieveAsksOnce(search1: StoreSearch, search2: StoreSearch, score: CompositeScore, collectionName: string,
                         query: string, nResults: int, similarityThreshold: real,
                         metadataFilter: Option<map<string, string>>, rerank: bool)
    requires var n := OrElse(nResults, DefaultNResults);
      search1(collectionName, query, Min(n * 2, MaxCandidates), metadataFilter)
      == search2(collectionName, query, Min(n * 2, MaxCandidates), metadataFilter)
    ensures RetrieveSpec(search1, score, collectionName, query, nResults, similarityThreshold, metadataFilter, rerank)
         == RetrieveSpec(search2, score, collectionName, query, nResults, similarityThreshold, metadataFilter, rerank)
  {
  }

  /** A non-blank query fails exactly when the store fails, with the store's message behind a prefix. */
  lemma RetrieveFails(search: StoreSearch, score: CompositeScore, collectionName: string, query: string,
                      nResults: int, similarityThreshold: real, metadataFilter: Option<map<string, string>>,
                      rerank: bool)
    requires !IsBlank(query)
    ensures var n := OrElse(nResults, DefaultNResults);
      var answer := search(collectionName, query, Min(n * 2, MaxCandidates), metadataFilter);
      var r := RetrieveSpec(search, score, collectionName, query, nResults, similarityThreshold, metadataFilter, rerank);
      (r.Err? <==> answer.Err?) && (r.Err? ==> r.error == "Retrieval failed: " + answer.error)
  {
  }

  /** The result of retrieval is the same hit with its store fields, up to the composite score and the rank. */
  predicate FromHit(r: RetrievalResult, h: StoreHit) {
    r.content == h.content && r.similarity == h.similarity && r.distance == h.distance
    && r.metadata.fields == h.metadata.fields
  }

  /**
   * Retrieval returns at most `n` results (for a non-negative `n`), ranked
   * 1..k, each one of the store's hits whose similarity reaches the
   * threshold (0.1 when none is given).
   */
  lemma RetrieveResults(search: StoreSearch, score: CompositeScore, collectionName: string, query: string,
                        nResults: int, similarityThreshold: real, metadataFilter: Option<map<string, string>>,
                        rerank: bool)
    requires !IsBlank(query)
    requires RetrieveSpec(search, score, collectionName, query, nResults, similarityThreshold, metadataFilter, rerank).Ok?
    ensures var n := OrElse(nResults, DefaultNResults);
      var threshold := RealOrElse(similarityThreshold, SimilarityThreshold);
      var raw := search(collectionName, query, Min(n * 2, MaxCandidates), metadataFilter).value;
      var rs := RetrieveSpec(search, score, collectionName, query, nResults, similarityThreshold, metadataFilter, rerank).value;
      (n >= 0 ==> |rs| <= n)
      && (forall i :: 0 <= i < |rs| ==> rs[i].rank == i + 1)
      && (forall i :: 0 <= i < |rs| ==>
            (rs[i].similarity >= threshold && exists k :: 0 <= k < |raw| && FromHit(rs[i], raw[k])))
  {
    var n := OrElse(nResults, DefaultNResults);
    var threshold := RealOrElse(similarityThreshold, SimilarityThreshold);
    var raw := search(collectionName, query, Min(n * 2, MaxCandidates), metadataFilter).value;
    var rs := RetrieveSpec(search, score, collectionName, query, nResults, similarityThreshold, metadataFilter, rerank).value;
    if raw != [] {
      var filtered := AboveThreshold(raw, threshold);
      AboveThresholdSpec(raw, threshold);
      if filtered != [] {
        var ranked := RankedResults(query, filtered, score, rerank);
        assert rs == Take(ranked, n);
        forall i | 0 <= i < |rs|
          ensures rs[i].rank == i + 1 && rs[i].similarity >= threshold
          ensures exists k :: 0 <= k < |raw| && FromHit(rs[i], raw[k])
        {
          var j := RankedFrom(query, filtered, score, rerank, i);
          assert filtered[j] in raw;
          var k :| 0 <= k < |raw| && raw[k] == filtered[j];
          assert FromHit(rs[i], raw[k]);
        }
      }
    }
  }

  /** Each ranked result is one of the surviving hits, ranked by its position. */
  lemma RankedFrom(query: string, filtered: seq<StoreHit>, score: CompositeScore, rerank: bool, i: nat) returns (j: nat)
    requires i < |filtered|
    ensures j < |filtered|
    ensures RankedResults(query, filtered, score, rerank)[i].rank == i + 1
    ensures FromHit(RankedResults(query, filtered, score, rerank)[i], filtered[j])
  {
    var results := Numbered(filtered);
    j := i;
    if rerank && |results| > 1 {
      RerankFrom(query, results, score, i);
      var k :| 0 <= k < |results|
        && Rerank(query, results, score)[i] == WithComposite(results[k], score(query, results[k])).(rank := i + 1);
      j := k;
    }
  }

  /** Without re-ranking (or with a single result) the results keep the store's order. */
  lemma RetrieveStoreOrder(search: StoreSearch, score: CompositeScore, collectionName: string, query: string,
                           nResults: int, similarityThreshold: real, metadataFilter: Option<map<string, string>>,
                           rerank: bool)
    requires !IsBlank(query)
    requires RetrieveSpec(search, score, collectionName, query, nResults, similarityThreshold, metadataFilter, rerank).Ok?
    requires var n := OrElse(nResults, DefaultNResults);
      var threshold := RealOrElse(similarityThreshold, SimilarityThreshold);
      var raw := search(collectionName, query, Min(n * 2, MaxCandidates), metadataFilter).value;
      !rerank || |AboveThreshold(raw, threshold)| <= 1
    ensures var n := OrElse(nResults, DefaultNResults);
      var threshold := RealOrElse(similarityThreshold, SimilarityThreshold);
      var filtered := AboveThreshold(search(collectionName, query, Min(n * 2, MaxCandidates), metadataFilter).value, threshold);
      var rs := RetrieveSpec(search, score, collectionName, query, nResults, similarityThreshold, metadataFilter, rerank).value;
      |rs| <= |filtered| && forall i :: 0 <= i < |rs| ==> rs[i] == ResultOf(filtered[i], i + 1)
  {
  }

  /**
   * With re-ranking and more than one surviving hit, every result carries
   * its composite score and the scores never increase down the list.
   */
  lemma RetrieveRerankOrder(search: StoreSearch, score: CompositeScore, collectionName: string, query: string,
                            nResults: int, similarityThreshold: real, metadataFilter: Option<map<string, string>>)
    requires !IsBlank(query)
    requires RetrieveSpec(search, score, collectionName, query, nResults, similarityThreshold, metadataFilter, true).Ok?
    requires var n := OrElse(nResults, DefaultNResults);
      var threshold := RealOrElse(similarityThreshold, SimilarityThreshold);
      var raw := search(collectionName, query, Min(n * 2, MaxCandidates), metadataFilter).value;
      |AboveThreshold(raw, threshold)| > 1
    ensures var rs := RetrieveSpec(search, score, collectionName, query, nResults, similarityThreshold, metadataFilter, true).value;
      (forall i :: 0 <= i < |rs| ==> rs[i].metadata.compositeScore.Some?)
      && (forall i, j :: 0 <= i < j < |rs| ==> rs[i].metadata.compositeScore.value >= rs[j].metadata.compositeScore.value)
  {
    var n := OrElse(nResults, DefaultNResults);
    var threshold := RealOrElse(similarityThreshold, SimilarityThreshold);
    var raw := search(collectionName, query, Min(n * 2, MaxCandidates), metadataFilter).value;
    RerankSpec(query, Numbered(AboveThreshold(raw, threshold)), score);
  }

  // ------------------------------------------------------------ add_document

  /** The `stats` dictionary of a successful `add_document`. */
  datatype DocumentStats = DocumentStats(filename: string, fileHash: string, contentLength: nat,
                                         chunksCreated: nat, chunkStats: Option<ChunkStats>, uploadDate: string)

  /** The `(success, message, stats)` triple; `None` is the empty dictionary. */
  datatype AddResult = AddResult(success: bool, message: string, stats: Option<DocumentStats>)

  /** `file_type`: the lower-cased text after the last '.', or "unknown" without one. */
  function FileType(name: string): string {
    if Contains(name, ".") then
      var parts := SplitOn(name, ".");
      Lower(parts[|parts| - 1])
    else "unknown"
  }

  /** `doc_metadata`: the file's fields, overridden by the caller's metadata. */
  function DocumentMetadata(name: string, fileHash: string, content: string, uploadDate: string,
                            metadata: map<string, string>): map<string, string> {
    map["filename" := name, "file_hash" := fileHash, "file_type" := FileType(name),
        "upload_date" := uploadDate, "file_size" := NatToString(|content|)] + metadata
  }

  /** The chunker `add_document` uses: a fresh one when a size or overlap is given. */
  function DocumentChunker(defaultChunker: Chunker, chunkSize: int, overlap: int): Result<Chunker, string> {
    if chunkSize != 0 || overlap != 0 then
      NewChunker(OrElse(chunkSize, defaultChunker.chunkSize), OrElse(overlap, defaultChunker.overlap),
                 defaultChunker.strategy)
    else Ok(defaultChunker)
  }

  /**
   * `add_document(collection_name, uploaded_file, chunk_size, overlap,
   * metadata)`. `parsed` is what the parser's `process_uploaded_file`
   * returns, the content and the file hash, or the message of the
   * exception it raises; `addChunks` is the store's `add_chunks` on the
   * collection, `Err` being a `VectorStoreError`; `uploadDate` is the
   * current time; `depth` is the nesting the recursion limit leaves
   * `_split_text`. Sizes of 0 stand for `None`.
   */
  function AddDocument(name: string, parsed: Result<(string, string), string>, uploadDate: string,
                       chunkSize: int, overlap: int, metadata: map<string, string>,
                       defaultChunker: Chunker, addChunks: seq<Chunk> -> Result<bool, string>, depth: nat): (r: AddResult)
    requires ValidChunker(defaultChunker)
    ensures r.success <==> r.stats.Some?
    ensures r.success ==> r.stats.value.chunksCreated >= 1 && r.message == "Successfully processed " + name
  {
    match parsed
    case Err(e) => AddResult(false, "Processing failed: " + e, None)
    case Ok((content, fileHash)) =>
      var docMetadata := DocumentMetadata(name, fileHash, content, uploadDate, metadata);
      match DocumentChunker(defaultChunker, chunkSize, overlap)
      case Err(e) => AddResult(false, "Processing failed: " + e, None)
      case Ok(chunker) =>
        DocumentChunkerValid(defaultChunker, chunkSize, overlap);
        match ChunkTextResult(chunker, content, docMetadata, depth)
        case Err(e) => AddResult(false, "Text chunking failed: " + e, None)
        case Ok(chunks) =>
          if chunks == [] then AddResult(false, "No valid chunks generated from document", None)
          else
            match addChunks(chunks)
            case Err(e) => AddResult(false, "Vector store error: " + e, None)
            case Ok(success) =>
              if !success then AddResult(false, "Failed to add chunks to vector store", None)
              else
                AddResult(true, "Successfully processed " + name,
                          Some(DocumentStats(name, fileHash, |content|, |chunks|,
                                             GetChunkStats(chunker, chunks), uploadDate)))
  }

  /** A file that cannot be parsed, or sizes the chunker rejects, fail the whole call. */
  lemma AddDocumentProcessingFailed(name: string, parsed: Result<(string, string), string>, uploadDate: string,
                                    chunkSize: int, overlap: int, metadata: map<string, string>,
                                    defaultChunker: Chunker, addChunks: seq<Chunk> -> Result<bool, string>, depth: nat)
    requires ValidChunker(defaultChunker)
    requires parsed.Err? || DocumentChunker(defaultChunker, chunkSize, overlap).Err?
    ensures var r := AddDocument(name, parsed, uploadDate, chunkSize, overlap, metadata, defaultChunker, addChunks, depth);
      !r.success && r.stats == None
      && r.message == "Processing failed: "
           + (if parsed.Err? then parsed.error else DocumentChunker(defaultChunker, chunkSize, overlap).error)
  {
  }

  /** What `add_document` chunks with: the chunker it builds and the document's metadata. */
  function ChunkedDocument(name: string, parsed: Result<(string, string), string>, uploadDate: string,
                           chunkSize: int, overlap: int, metadata: map<string, string>,
                           defaultChunker: Chunker, depth: nat): Result<seq<Chunk>, string>
    requires ValidChunker(defaultChunker)
    requires parsed.Ok? && DocumentChunker(defaultChunker, chunkSize, overlap).Ok?
  {
    var chunker := DocumentChunker(defaultChunker, chunkSize, overlap).value;
    DocumentChunkerValid(defaultChunker, chunkSize, overlap);
    var content := parsed.value.0;
    ChunkTextResult(chunker, content, DocumentMetadata(name, parsed.value.1, content, uploadDate, metadata), depth)
  }

  /** Every chunker `add_document` builds satisfies the constructor's invariant. */
  lemma DocumentChunkerValid(defaultChunker: Chunker, chunkSize: int, overlap: int)
    requires ValidChunker(defaultChunker) && DocumentChunker(defaultChunker, chunkSize, overlap).Ok?
    ensures ValidChunker(DocumentChunker(defaultChunker, chunkSize, overlap).value)
  {
    if chunkSize != 0 || overlap != 0 {
      NewChunkerClamps(OrElse(chunkSize, defaultChunker.chunkSize), OrElse(overlap, defaultChunker.overlap),
                       defaultChunker.strategy);
    }
  }

  /**
   * Once the file is parsed and the chunker built, `add_document` succeeds
   * exactly when chunking yields chunks and the store accepts them, and a
   * chunking failure is reported as such.
   */
  lemma AddDocumentSucceeds(name: string, parsed: Result<(string, string), string>, uploadDate: string,
                            chunkSize: int, overlap: int, metadata: map<string, string>,
                            defaultChunker: Chunker, addChunks: seq<Chunk> -> Result<bool, string>, depth: nat)
    requires ValidChunker(defaultChunker)
    requires parsed.Ok? && DocumentChunker(defaultChunker, chunkSize, overlap).Ok?
    ensures var r := AddDocument(name, parsed, uploadDate, chunkSize, overlap, metadata, defaultChunker, addChunks, depth);
      var chunked := ChunkedDocument(name, parsed, uploadDate, chunkSize, overlap, metadata, defaultChunker, depth);
      (r.success <==> chunked.Ok? && addChunks(chunked.value) == Ok(true))
      && (chunked.Err? ==> r.message == "Text chunking failed: " + chunked.error)
  {
    DocumentChunkerValid(defaultChunker, chunkSize, overlap);
  }

  /**
   * A successful `add_document` reports the file, the content length, the
   * number of chunks (at least one) and their statistics. The "no valid
   * chunks" branch is unreachable, since `chunk_text` raises instead of
   * returning nothing.
   */
  lemma AddDocumentStats(name: string, parsed: Result<(string, string), string>, uploadDate: string,
                         chunkSize: int, overlap: int, metadata: map<string, string>,
                         defaultChunker: Chunker, addChunks: seq<Chunk> -> Result<bool, string>, depth: nat)
    requires ValidChunker(defaultChunker)
    requires parsed.Ok? && DocumentChunker(defaultChunker, chunkSize, overlap).Ok?
    requires AddDocument(name, parsed, uploadDate, chunkSize, overlap, metadata, defaultChunker, addChunks, depth).success
    ensures var chunked := ChunkedDocument(name, parsed, uploadDate, chunkSize, overlap, metadata, defaultChunker, depth);
      var chunker := DocumentChunker(defaultChunker, chunkSize, overlap).value;
      chunked.Ok? && |chunked.value| >= 1
      && AddDocument(name, parsed, uploadDate, chunkSize, overlap, metadata, defaultChunker, addChunks, depth).stats
         == Some(DocumentStats(name, parsed.value.1, |parsed.value.0|, |chunked.value|,
                               GetChunkStats(chunker, chunked.value), uploadDate))
  {
    DocumentChunkerValid(defaultChunker, chunkSize, overlap);
  }

  // ------------------------------------------------------------ health_check

  /** The `health` dictionary; the counts are `None` when their check failed. */
  datatype Health = Health(status: string, vectorStore: string, documentParser: string, chunker: string,
                           errors: seq<string>, collectionsCount: Option<nat>, storedDocumentsCount: Option<nat>)

  /** `any("error" in str(error) for error in errors)`. */
  predicate AnyMentionsError(errors: seq<string>) {
    exists i :: 0 <= i < |errors| && Contains(errors[i], "error")
  }

  /** The message recorded for a failed check of `subject`. */
  function Problem(subject: string, e: string): string {
    subject + " error: " + e
  }

  /** The messages of the failed checks, in the order the checks run. */
  function HealthErrors(collections: Result<nat, string>, storedDocuments: Result<nat, string>,
                        chunked: Result<seq<Chunk>, string>): seq<string> {
    (if collections.Err? then [Problem("Vector store", collections.error)] else [])
    + (if storedDocuments.Err? then [Problem("Document parser", storedDocuments.error)] else [])
    + (if chunked.Err? then [Problem("Chunker", chunked.error)] else [])
  }

  /** The overall status rule over the recorded messages. */
  function StatusOf(errors: seq<string>): string {
    if errors == [] then "healthy" else if AnyMentionsError(errors) then "error" else "warning"
  }

  /**
   * `health_check()`. `collections` and `storedDocuments` are the number
   * of collections the store lists and of documents the parser has
   * stored, and `chunked` what the chunker returns for the test sentence,
   * each the message of the exception raised instead.
   */
  method HealthCheck(collections: Result<nat, string>, storedDocuments: Result<nat, string>,
                     chunked: Result<seq<Chunk>, string>) returns (health: Health)
    ensures health.errors == HealthErrors(collections, storedDocuments, chunked)
    ensures health.status == StatusOf(health.errors)
    ensures health.vectorStore == (if collections.Ok? then "healthy" else "error")
      && health.documentParser == (if storedDocuments.Ok? then "healthy" else "error")
      && health.chunker == (if chunked.Err? then "error" else if chunked.value != [] then "healthy" else "warning")
      && health.collectionsCount == (if collections.Ok? then Some(collections.value) else None)
      && health.storedDocumentsCount == (if storedDocuments.Ok? then Some(storedDocuments.value) else None)
  {
    health := Health("unknown", "unknown", "unknown", "unknown", [], None, None);
    if collections.Ok? {
      health := health.(vectorStore := "healthy", collectionsCount := Some(collections.value));
    } else {
      health := health.(vectorStore := "error", errors := health.errors + [Problem("Vector store", collections.error)]);
    }
    if storedDocuments.Ok? {
      health := health.(documentParser := "healthy", storedDocumentsCount := Some(storedDocuments.value));
    } else {
      health := health.(documentParser := "error",
                        errors := health.errors + [Problem("Document parser", storedDocuments.error)]);
    }
    if chunked.Ok? {
      health := health.(chunker := if chunked.value != [] then "healthy" else "warning");
    } else {
      health := health.(chunker := "error", errors := health.errors + [Problem("Chunker", chunked.error)]);
    }
    var status := OverallStatus(health.errors);
    health := health.(status := status);
  }

  /** The overall status computed step by step. */
  method OverallStatus(errors: seq<string>) returns (status: string)
    ensures status == StatusOf(errors)
  {
    if errors == [] {
      status := "healthy";
    } else if AnyMentionsError(errors) {
      status := "error";
    } else {
      status := "warning";
    }
  }

  /** Every recorded message mentions "error". */
  lemma ProblemMentionsError(subject: string, e: string)
    ensures Contains(Problem(subject, e), "error")
  {
    ContainsMiddle(subject + " ", "error", ": " + e);
    assert Problem(subject, e) == subject + " " + "error" + (": " + e);
  }

  /**
   * The status is "healthy" exactly when every check passed, and "error"
   * otherwise: every message mentions "error", so "warning" is never
   * reported.
   */
  lemma HealthStatus(collections: Result<nat, string>, storedDocuments: Result<nat, string>,
                     chunked: Result<seq<Chunk>, string>)
    ensures var status := StatusOf(HealthErrors(collections, storedDocuments, chunked));
      (status == "healthy" <==> collections.Ok? && storedDocuments.Ok? && chunked.Ok?)
      && (status != "healthy" ==> status == "error")
  {
    var errors := HealthErrors(collections, storedDocuments, chunked);
    if errors != [] {
      if collections.Err? {
        ProblemMentionsError("Vector store", collections.error);
      } else if storedDocuments.Err? {
        ProblemMentionsError("Document parser", storedDocuments.error);
      } else {
        ProblemMentionsError("Chunker", chunked.error);
      }
      assert Contains(errors[0], "error");
    }
  }
}
