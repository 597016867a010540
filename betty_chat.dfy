/**
 * The Betty chat page, Betty/streamlit/chat/chat.py: adding uploaded texts
 * to a collection through temporary files, and searching the active
 * collection. Sanitising names, the active collection, the feedback
 * lookup and the diagram rendering of this page are in `ChatCommon` and
 * `Mermaid`.
 *
 * The page works through a shared `VectorStore.VectorStore` object. The
 * names `tempfile` gives the files it writes are a parameter.
 */
module BettyChat {
  import opened Wrappers
  import opened Text
  import opened PySeq
  import opened Ranking
  import VectorStore

  // ------------------------------------------------------------ add_to_collection

  /** No text of `documents` has anything but whitespace. */
  predicate AllBlank(documents: seq<(string, string)>) {
    forall i :: 0 <= i < |documents| ==> Strip(documents[i].1) == ""
  }

  /**
   * The temporary files `add_to_collection` writes: one per document whose
   * text is not blank, the `k`-th created one named `tempName(k)`.
   */
  function TempFiles(documents: seq<(string, string)>, tempName: nat -> string): (r: seq<string>)
    ensures forall i :: 0 <= i < |r| ==> r[i] == tempName(i)
  {
    if documents == [] then []
    else
      var init := TempFiles(documents[..|documents| - 1], tempName);
      init + (if Strip(documents[|documents| - 1].1) != "" then [tempName(|init|)] else [])
  }

  /** No file is written exactly when every text is blank (or there are no documents). */
  lemma {:induction false} TempFilesEmpty(documents: seq<(string, string)>, tempName: nat -> string)
    ensures TempFiles(documents, tempName) == [] <==> AllBlank(documents)
  {
    if documents != [] {
      var init := documents[..|documents| - 1];
      TempFilesEmpty(init, tempName);
      assert forall i :: 0 <= i < |init| ==> init[i] == documents[i];
    }
  }

  /** The `for filename, text in documents` loop: one temporary file per text that is not blank. */
  method WriteTempFiles(documents: seq<(string, string)>, tempName: nat -> string) returns (tempFiles: seq<string>)
    ensures tempFiles == TempFiles(documents, tempName)
  {
    tempFiles := [];
    for k := 0 to |documents|
      invariant tempFiles == TempFiles(documents[..k], tempName)
    {
      assert documents[..k + 1][..k] == documents[..k];
      var (filename, text) := documents[k];
      if Strip(text) != "" {
        tempFiles := tempFiles + [tempName(|tempFiles|)];
      }
    }
    assert documents[..|documents|] == documents;
  }

  /**
   * `add_to_collection`: `None` when there are no documents or every text
   * is blank (nothing is stored then); otherwise the store adds the
   * temporary files, and the collection's name is returned exactly when
   * it reports success.
   */
  method AddToCollection(store: VectorStore.VectorStore, collectionName: string, documents: seq<(string, string)>,
                         tempName: nat -> string)
      returns (r: Option<string>)
    modifies store
    ensures AllBlank(documents) ==> r == None && store.collections == old(store.collections)
    ensures !AllBlank(documents) ==>
      VectorStore.AddOutcome(r.Some?, store.collections)
        == VectorStore.AddFromFiles(old(store.collections), collectionName, TempFiles(documents, tempName),
                                    store.read, store.chunking, store.embed)
    ensures r.Some? ==> r.value == collectionName && collectionName in store.collections
  {
    TempFilesEmpty(documents, tempName);
    if documents == [] {
      return None;
    }
    var tempFiles := WriteTempFiles(documents, tempName);
    if tempFiles == [] {
      return None;
    }
    VectorStore.AddFromFilesFrame(store.collections, collectionName, tempFiles, store.read, store.chunking, store.embed);
    var success := store.AddDocumentsFromFiles(collectionName, tempFiles);
    if success {
      // `get_or_create_collection` finds the collection the add created or extended
      r := Some(collectionName);
    } else {
      r := None;
    }
  }

  // ------------------------------------------------------------ search_knowledge_base

  /** A search result of this page: the store's hit with the distance the page adds. */
  datatype ChatHit = ChatHit(hit: Hit, distance: real)

  /** `[{**result, "distance": 0.0} for result in results]`. */
  function WithZeroDistance(hits: seq<Hit>): (r: seq<ChatHit>)
    ensures |r| == |hits|
    ensures forall i :: 0 <= i < |hits| ==> r[i].hit == hits[i] && r[i].distance == 0.0
  {
    seq(|hits|, i requires 0 <= i < |hits| => ChatHit(hits[i], 0.0))
  }

  /** The relevance the page displays for a result: `1 - distance`. */
  function Relevance(h: ChatHit): real {
    1.0 - h.distance
  }

  /**
   * `search_knowledge_base`: [] without an active collection; otherwise
   * the store's search with `n_results or` the session's default, each
   * result marked with distance 0.0.
   */
  method SearchKnowledgeBase(store: VectorStore.VectorStore, collection: Option<string>, query: string,
                             nResults: int, sessionNResults: int)
      returns (r: seq<ChatHit>)
    modifies store
    ensures collection.None? ==> r == [] && store.collections == old(store.collections)
    ensures collection.Some? ==>
      r == WithZeroDistance(VectorStore.SearchResults(store.variant, old(store.collections), collection.value, query,
                                                      OrElse(nResults, sessionNResults), store.maxSearchResults,
                                                      store.engine))
      && store.collections == VectorStore.SearchState(store.variant, old(store.collections), collection.value)
  {
    if collection.None? {
      return [];
    }
    var n := OrElse(nResults, sessionNResults);
    var results := store.SearchCollection(collection.value, query, n);
    r := seq(|results|, i requires 0 <= i < |results| => ChatHit(results[i], 0.0));
  }

  /** Every result this page shows is displayed with relevance 1.00, whatever the engine's distance. */
  lemma DisplayedRelevanceIsOne(hits: seq<Hit>)
    ensures forall h :: h in WithZeroDistance(hits) ==> Relevance(h) == 1.0
  {
    forall h | h in WithZeroDistance(hits)
      ensures Relevance(h) == 1.0
    {
      var i :| 0 <= i < |hits| && WithZeroDistance(hits)[i] == h;
    }
  }
}
