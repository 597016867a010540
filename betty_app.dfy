/**
 * The rules of the main page, betty_app.py: the knowledge-base rebuild
 * decision of `initialize_knowledge_base`, the search dispatch, the rule
 * that decides whether to answer, the feedback pairing of an answer with
 * its question, and the context and sources handed to the language model.
 * The diagram rendering of the page is in `Mermaid`.
 *
 * The environment variables, the directory walk and the deployment
 * detection are parameters; the page works through a shared
 * `VectorStore.VectorStore` object.
 */
module BettyApp {
  import opened Wrappers
  import opened Text
  import opened PySeq
  import opened Ranking
  import opened ChatCommon
  import opened Chroma
  import opened Ingest
  import DocumentProcessor
  import VectorStore

  // ------------------------------------------------------------ initialize_knowledge_base

  /** `os.getenv("FORCE_REINDEX", "").lower() in ["true", "1", "yes"]`. */
  predicate ForceReindex(env: string) {
    Lower(env) in ["true", "1", "yes"]
  }

  lemma LowerIdempotent(s: string)
    ensures Lower(Lower(s)) == Lower(s)
  {
    assert forall i :: 0 <= i < |s| ==> LowerChar(LowerChar(s[i])) == LowerChar(s[i]);
  }

  /** The flag ignores case: a value and its lower-cased form agree. */
  lemma ForceReindexIgnoresCase(env: string)
    ensures ForceReindex(env) <==> ForceReindex(Lower(env))
  {
    LowerIdempotent(env);
  }

  /** The suffixes the directory walk collects, compared case-insensitively. */
  predicate IsDocFile(file: string) {
    var lower := Lower(file);
    EndsWith(lower, ".pdf") || EndsWith(lower, ".docx") || EndsWith(lower, ".txt")
    || EndsWith(lower, ".md") || EndsWith(lower, ".csv") || EndsWith(lower, ".xlsx")
  }

  /** The walk collects exactly the files the document processor gives a type. */
  lemma IsDocFileHasType(file: string)
    ensures IsDocFile(file) <==> DocumentProcessor.GetFileType(file).Some?
  {
  }

  /** The walked files that are kept, in walk order. */
  function DocFiles(files: seq<string>): (r: seq<string>)
    ensures |r| <= |files|
    ensures forall f :: f in r <==> f in files && IsDocFile(f)
  {
    if files == [] then []
    else DocFiles(files[..|files| - 1]) + (if IsDocFile(files[|files| - 1]) then [files[|files| - 1]] else [])
  }

  /** The loop over the walked files. */
  method CollectDocFiles(files: seq<string>) returns (docFiles: seq<string>)
    ensures docFiles == DocFiles(files)
  {
    docFiles := [];
    var k := 0;
    while k < |files|
      invariant k <= |files|
      invariant docFiles == DocFiles(files[..k])
    {
      assert files[..k + 1][..k] == files[..k];
      if IsDocFile(files[k]) {
        docFiles := docFiles + [files[k]];
      }
      k := k + 1;
    }
    assert files[..k] == files;
  }

  /**
   * `needs_update and doc_files`: whether the knowledge base is rebuilt
   * from the documents folder, given whether the collection exists, its
   * record count, the deployment, the number of files found and the count
   * the session stored.
   */
  function Rebuild(present: bool, count: nat, isLocal: bool, nDocFiles: nat, storedFiles: nat): bool {
    var needsUpdate := !present || count == 0;
    var decided :=
      if present && count > 50 then false
      else if isLocal && nDocFiles > 0 then
        (if nDocFiles != storedFiles || count < 50 then true else needsUpdate)
      else false;
    decided && nDocFiles > 0
  }

  /**
   * The decision in one rule: only a local deployment with documents
   * rebuilds, never over a collection of more than 50 records, and then
   * when the collection is missing, the number of files changed, or it
   * holds fewer than 50 records.
   */
  lemma RebuildIff(present: bool, count: nat, isLocal: bool, nDocFiles: nat, storedFiles: nat)
    requires !present ==> count == 0
    ensures Rebuild(present, count, isLocal, nDocFiles, storedFiles)
        <==> (isLocal && nDocFiles > 0 && !(present && count > 50)
              && (!present || nDocFiles != storedFiles || count < 50))
  {
  }

  /**
   * What the initialisation leaves: whether it marked the knowledge base
   * ready, the file count it stored, and the collections.
   */
  datatype InitOutcome = InitOutcome(initialized: bool, filesCount: nat, collections: VectorStore.Collections)

  /** The collections after the forced reindex: the collection is deleted when requested. */
  function Reindexed(cols: VectorStore.Collections, name: string, force: bool): VectorStore.Collections {
    if force && name in cols then cols - {name} else cols
  }

  /**
   * The body of `initialize_knowledge_base` when the session has not been
   * initialised: a rebuild loads the files and marks the knowledge base
   * ready with their number only when the load succeeds; without a
   * rebuild the knowledge base is marked ready either way, with the number
   * of files found when a non-empty collection exists and 0 otherwise.
   */
  function InitSpec(cols: VectorStore.Collections, name: string, docFiles: seq<string>, isLocal: bool, force: bool,
                    storedFiles: nat, read: FileReader, ch: Chunking,
                    embed: Embedder): InitOutcome {
    var cols1 := Reindexed(cols, name, force);
    var present := name in cols1;
    var count := if present then |cols1[name]| else 0;
    if Rebuild(present, count, isLocal, |docFiles|, storedFiles) then
      var out := VectorStore.AddFromFiles(cols1, name, docFiles, read, ch, embed);
      InitOutcome(out.ok, if out.ok then |docFiles| else storedFiles, out.collections)
    else if present && count > 0 then InitOutcome(true, |docFiles|, cols1)
    else InitOutcome(true, 0, cols1)
  }

  /** A pre-populated collection of more than 50 records is used as it is, on any deployment. */
  lemma InitKeepsLargeCollection(cols: VectorStore.Collections, name: string, docFiles: seq<string>, isLocal: bool,
                                 storedFiles: nat, read: FileReader, ch: Chunking,
                                 embed: Embedder)
    requires name in cols && |cols[name]| > 50
    ensures InitSpec(cols, name, docFiles, isLocal, false, storedFiles, read, ch, embed)
      == InitOutcome(true, |docFiles|, cols)
  {
    RebuildIff(true, |cols[name]|, isLocal, |docFiles|, storedFiles);
  }

  /**
   * A cloud deployment never writes to the store: the collections are those
   * after the forced delete, and the knowledge base is marked ready, with
   * the number of files found when a non-empty collection is left and 0
   * otherwise.
   */
  lemma InitCloudReadsOnly(cols: VectorStore.Collections, name: string, docFiles: seq<string>, force: bool,
                           storedFiles: nat, read: FileReader, ch: Chunking,
                           embed: Embedder)
    ensures var cols1 := Reindexed(cols, name, force);
      InitSpec(cols, name, docFiles, false, force, storedFiles, read, ch, embed)
        == InitOutcome(true, if name in cols1 && |cols1[name]| > 0 then |docFiles| else 0, cols1)
  {
    var cols1 := Reindexed(cols, name, force);
    var count := if name in cols1 then |cols1[name]| else 0;
    RebuildIff(name in cols1, count, false, |docFiles|, storedFiles);
  }

  /**
   * The knowledge base is left unmarked, so that the next run tries again,
   * exactly when a rebuild was decided and loading the files failed; the
   * stored file count is then unchanged.
   */
  lemma InitRetriesOnlyFailedLoad(cols: VectorStore.Collections, name: string, docFiles: seq<string>, isLocal: bool,
                                  force: bool, storedFiles: nat, read: FileReader, ch: Chunking,
                                  embed: Embedder)
    ensures var cols1 := Reindexed(cols, name, force);
      var count := if name in cols1 then |cols1[name]| else 0;
      var r := InitSpec(cols, name, docFiles, isLocal, force, storedFiles, read, ch, embed);
      (!r.initialized <==>
        Rebuild(name in cols1, count, isLocal, |docFiles|, storedFiles)
        && !VectorStore.AddFromFiles(cols1, name, docFiles, read, ch, embed).ok)
      && (!r.initialized ==> r.filesCount == storedFiles)
  {
  }

  /** The session state `initialize_knowledge_base` reads and writes. */
  class AppSession {
    var knowledgeBaseInitialized: bool
    var knowledgeFilesCount: nat
    var messages: seq<Message>

    constructor()
      ensures !knowledgeBaseInitialized && knowledgeFilesCount == 0 && messages == []
    {
      knowledgeBaseInitialized := false;
      knowledgeFilesCount := 0;
      messages := [];
    }

    /**
     * `initialize_knowledge_base`: once the knowledge base is marked ready
     * nothing happens; otherwise the optional forced delete, the rebuild
     * decision, and the load of `docFiles` when it says so. Only a failed
     * load leaves the knowledge base unmarked.
     */
    method InitializeKnowledgeBase(store: VectorStore.VectorStore, collectionName: string, docFiles: seq<string>,
                                   isLocal: bool, forceReindex: bool)
      modifies this, store
      ensures old(knowledgeBaseInitialized) ==>
        knowledgeBaseInitialized && knowledgeFilesCount == old(knowledgeFilesCount)
        && store.collections == old(store.collections)
      ensures !old(knowledgeBaseInitialized) ==>
        InitOutcome(knowledgeBaseInitialized, knowledgeFilesCount, store.collections)
          == InitSpec(old(store.collections), collectionName, docFiles, isLocal, forceReindex,
                      old(knowledgeFilesCount), store.read, store.chunking, store.embed)
      ensures messages == old(messages)
    {
      if knowledgeBaseInitialized {
        return;
      }
      if forceReindex {
        if collectionName in store.collections {
          var _ := store.DeleteCollection(collectionName);
        }
      }
      var collectionExists := collectionName in store.collections;
      var currentDocCount := 0;
      if collectionExists {
        currentDocCount := |store.collections[collectionName]|;
      }
      var needsUpdate := !collectionExists || currentDocCount == 0;
      if collectionExists && currentDocCount > 50 {
        needsUpdate := false;
      } else if isLocal && docFiles != [] {
        if |docFiles| != knowledgeFilesCount || currentDocCount < 50 {
          needsUpdate := true;
        }
      } else {
        needsUpdate := false;
      }
      if needsUpdate && docFiles != [] {
        var success := store.AddDocumentsFromFiles(collectionName, docFiles);
        if success {
          knowledgeBaseInitialized := true;
          knowledgeFilesCount := |docFiles|;
        }
      } else if collectionExists && currentDocCount > 0 {
        knowledgeBaseInitialized := true;
        knowledgeFilesCount := |docFiles|;
      } else {
        // no documents found
        knowledgeBaseInitialized := true;
        knowledgeFilesCount := 0;
      }
    }
  }

  // ------------------------------------------------------------ search_knowledge_base

  /**
   * `search_knowledge_base`: `n_results or MAX_SEARCH_RESULTS` results,
   * through the reranking search exactly when reranking is configured.
   */
  method SearchKnowledgeBase(store: VectorStore.VectorStore, query: string, collectionName: string, nResults: int,
                             useReranking: bool, maxSearchResults: int)
      returns (results: seq<Hit>)
    modifies store
    ensures var n := OrElse(nResults, maxSearchResults);
      results == if useReranking
        then VectorStore.RerankedSearch(store.variant, old(store.collections), collectionName, query, n, 3,
                                        store.maxSearchResults, store.engine, store.useReranking, store.reranker)
        else VectorStore.SearchResults(store.variant, old(store.collections), collectionName, query, n,
                                       store.maxSearchResults, store.engine)
    ensures store.collections == VectorStore.SearchState(store.variant, old(store.collections), collectionName)
  {
    var n := OrElse(nResults, maxSearchResults);
    if useReranking {
      results := store.SearchCollectionWithReranking(collectionName, query, n, 3);
    } else {
      results := store.SearchCollection(collectionName, query, n);
    }
  }

  // ------------------------------------------------------------ answering

  /**
   * Whether the page generates an answer: the last message is from the
   * user, and there are fewer than two messages or an odd number of them.
   */
  predicate NeedsResponse(messages: seq<Message>) {
    messages != [] && messages[|messages| - 1].role == "user"
    && (|messages| < 2 || |messages| % 2 != 0)
  }

  /** The page answers exactly when the last message is the user's and the count is odd. */
  lemma NeedsResponseIff(messages: seq<Message>)
    ensures NeedsResponse(messages)
        <==> messages != [] && messages[|messages| - 1].role == "user" && |messages| % 2 == 1
  {
  }

  /** The index of the nearest message before `i` that is from the user, or -1. */
  function LastUserBefore(messages: seq<Message>, i: nat): (r: int)
    requires i <= |messages|
    ensures -1 <= r < i
    ensures r >= 0 ==> messages[r].role == "user"
    ensures forall j :: r < j < i ==> messages[j].role != "user"
  {
    if i == 0 then -1
    else if messages[i - 1].role == "user" then i - 1
    else LastUserBefore(messages, i - 1)
  }

  /** The backwards loop that finds the question an answer is paired with for feedback. */
  method NearestUserMessage(messages: seq<Message>, i: nat) returns (userMessage: Option<string>)
    requires i < |messages|
    ensures var j := LastUserBefore(messages, i);
      userMessage == if j < 0 then None else Some(messages[j].content)
  {
    userMessage := None;
    var j: int := i - 1;
    while j >= 0
      invariant -1 <= j < i
      invariant forall k :: j < k < i ==> messages[k].role != "user"
      decreases j
    {
      if messages[j].role == "user" {
        userMessage := Some(messages[j].content);
        LastUserBeforeUnique(messages, i, j);
        return;
      }
      j := j - 1;
    }
    LastUserBeforeNone(messages, i);
  }

  lemma {:induction false} LastUserBeforeUnique(messages: seq<Message>, i: nat, j: nat)
    requires j < i <= |messages| && messages[j].role == "user"
    requires forall k :: j < k < i ==> messages[k].role != "user"
    ensures LastUserBefore(messages, i) == j
    decreases i
  {
    if i - 1 != j {
      LastUserBeforeUnique(messages, i - 1, j);
    }
  }

  lemma {:induction false} LastUserBeforeNone(messages: seq<Message>, i: nat)
    requires i <= |messages|
    requires forall k :: 0 <= k < i ==> messages[k].role != "user"
    ensures LastUserBefore(messages, i) == -1
  {
    if i > 0 {
      LastUserBeforeNone(messages, i - 1);
    }
  }

  /** The feedback buttons are shown when the paired question is truthy. */
  predicate ShowsFeedback(userMessage: Option<string>) {
    userMessage.Some? && userMessage.value != ""
  }

  /**
   * Where the message just before an answer is the user's, the main page
   * pairs the answer with the same question as the chat page does.
   */
  lemma NearestAgreesWithPreceding(messages: seq<Message>, i: nat)
    requires 0 < i < |messages| && messages[i - 1].role == "user"
    ensures LastUserBefore(messages, i) == i - 1
    ensures messages[LastUserBefore(messages, i)].content == PrecedingUserMessage(messages, i)
  {
  }

  /**
   * The two pages differ after two answers in a row: the main page pairs
   * the second with the earlier question, the chat page with nothing.
   */
  lemma PairingDiffersAfterTwoAnswers()
    ensures var ms := [Message("user", "q"), Message("assistant", "a1"), Message("assistant", "a2")];
      LastUserBefore(ms, 2) == 0 && PrecedingUserMessage(ms, 2) == ""
  {
    var ms := [Message("user", "q"), Message("assistant", "a1"), Message("assistant", "a2")];
    assert ms[1].role != "user";
    assert ms[0].role == "user";
  }

  // ------------------------------------------------------------ context for the model

  /** One retrieved document as the model sees it. */
  function Block(doc: Hit): string {
    "Document: " + doc.metadata.filename + "\nContent: " + doc.content
  }

  function Blocks(docs: seq<Hit>): (r: seq<string>)
    ensures |r| == |docs| && forall i :: 0 <= i < |docs| ==> r[i] == Block(docs[i])
  {
    seq(|docs|, i requires 0 <= i < |docs| => Block(docs[i]))
  }

  /** The retrieved documents' blocks, separated by a blank line. */
  function Context(docs: seq<Hit>): string {
    Join("\n\n", Blocks(docs))
  }

  lemma {:induction false} ContainsAfter(a: string, t: string, sub: string)
    requires Contains(t, sub)
    ensures Contains(a + t, sub)
    decreases |a|
  {
    if a != [] {
      assert (a + t)[1..] == a[1..] + t;
      ContainsAfter(a[1..], t, sub);
    } else {
      assert a + t == t;
    }
  }

  lemma {:induction false} JoinContainsPart(sep: string, parts: seq<string>, i: nat)
    requires i < |parts|
    ensures Contains(Join(sep, parts), parts[i])
    decreases |parts|
  {
    if |parts| == 1 {
      ContainsMiddle("", parts[0], "");
      assert "" + parts[0] + "" == parts[0];
    } else if i == 0 {
      ContainsMiddle("", parts[0], sep + Join(sep, parts[1..]));
      assert "" + parts[0] + (sep + Join(sep, parts[1..])) == Join(sep, parts);
    } else {
      JoinContainsPart(sep, parts[1..], i - 1);
      assert Join(sep, parts) == (parts[0] + sep) + Join(sep, parts[1..]);
      ContainsAfter(parts[0] + sep, Join(sep, parts[1..]), parts[i]);
    }
  }

  /** Every retrieved document reaches the model, labelled with its filename. */
  lemma ContextHasEveryDocument(docs: seq<Hit>, i: nat)
    requires i < |docs|
    ensures Contains(Context(docs), "Document: " + docs[i].metadata.filename + "\nContent: " + docs[i].content)
  {
    JoinContainsPart("\n\n", Blocks(docs), i);
  }

  /** `set(doc['metadata']['filename'] for doc in relevant_docs)`. */
  function SourceFiles(docs: seq<Hit>): (r: set<string>)
    ensures |r| <= |docs|
  {
    if docs == [] then {}
    else SourceFiles(docs[..|docs| - 1]) + {docs[|docs| - 1].metadata.filename}
  }

  /** Some document of `docs` comes from file `f`. */
  predicate FromFile(docs: seq<Hit>, f: string) {
    exists i :: 0 <= i < |docs| && docs[i].metadata.filename == f
  }

  /** The cited sources are exactly the filenames of the retrieved documents. */
  lemma {:induction false} SourceFilesExactly(docs: seq<Hit>)
    ensures forall f :: f in SourceFiles(docs) <==> FromFile(docs, f)
  {
    if docs != [] {
      var init := docs[..|docs| - 1];
      var last := docs[|docs| - 1].metadata.filename;
      SourceFilesExactly(init);
      forall f
        ensures f in SourceFiles(docs) <==> FromFile(docs, f)
      {
        if FromFile(init, f) {
          var i :| 0 <= i < |init| && init[i].metadata.filename == f;
          assert docs[i] == init[i];
        }
        if FromFile(docs, f) && f != last {
          var i :| 0 <= i < |docs| && docs[i].metadata.filename == f;
          assert init[i] == docs[i];
        }
        if f == last {
          assert docs[|docs| - 1].metadata.filename == f;
        }
      }
    }
  }
}
