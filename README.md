# Betty for Molex — a Dafny model of the knowledge-base core

Betty is a Streamlit chat assistant that answers questions from a
knowledge base of uploaded documents (retrieval-augmented generation).
This project models the part of the repository that turns documents into
searchable chunks and answers searches over them, together with the
small pure pieces of the chat pages that surround it:

- `Normalizer`, `TokenChunker`, `Extractors`, `DocumentProcessor` — the
  document processor of utils/document_processor.py: text extraction from
  PDF pages, DOCX paragraphs and tables, CSV rows and XLSX sheets; text
  cleaning; token-window and sentence-packing chunking; file types and
  uploads.
- `Chroma`, `Ingest`, `Ranking`, `VectorStore` — the vector store of
  utils/vector_store.py and its Betty variant Betty/utils/vector_store.py:
  named collections holding sequences of records, incremental adds from
  files, plain and reranked searches, deleting and resetting collections.
- `RagChunker`, `RagChunkText`, `RagRetriever` — the chunker and the
  retriever of chat/rag/: chunk validation, recursive, fixed and semantic
  chunking, chunk statistics, retrieval with a similarity threshold and
  cross-encoder reranking, document adds and the health check.
- `Settings`, `BettySettings` — configuration validation and environment
  flags of config/settings.py and Betty/config/settings.py.
- `ChatCommon`, `StreamlitChat`, `BettyChat`, `Mermaid`, `BettyApp` — the
  chat pages streamlit/chat/chat.py, Betty/streamlit/chat/chat.py and the
  main page betty_app.py: collection names, adding chat uploads and
  searching, the active collection, feedback pairing, diagram rendering,
  knowledge-base initialisation, response gating and the prompt context.
- `Evaluation`, `Feedback` — the rubric scores of
  evaluation/run_evaluation.py and the answer-quality analysis of
  utils/feedback_manager.py.
- `Wrappers`, `Text`, `PySeq`, `Sorting` — Option and Result, and the
  Python built-ins the code relies on (`str.strip`, `str.split`,
  `str.lower`, `str.splitlines`, slicing, `x or default`, the stable
  `sorted`).

Engines the code calls but does not define — the tokenizer, sentence
splitter, embedding model, vector index, cross-encoder, file parsers and
the temporary-file namer — are parameters of the model (function-typed
values), so every property holds for any behaviour of them. Python's
`x or default` is `PySeq.OrElse`; exceptions the code catches are
`None`/`Failure` results.

Where the written description of the system and the code differ, the
model follows the code:

- chat/rag/chunker.py turns every newline into a space before
  splitting, so the semantic strategy always sees one paragraph
  (`RagChunker.SemanticSingleParagraph`).
- The Betty chat page shows every search result with relevance 1.00,
  because it sets each distance to 0.0 (`BettyChat.DisplayedRelevanceIsOne`).
- The feedback lookup on betty_app.py pairs an answer with the nearest
  earlier user message. The chat page pairs it with the message just
  before it, and only if that message is the user's; otherwise it sends
  an empty question. The two differ once the history holds two answers
  in a row (`BettyApp.PairingDiffersAfterTwoAnswers`).

## Model

| member | source | states |
|---|---|---|
| Normalizer.SpaceAfterPunctPositionwise | utils/document_processor.py:351 | the left-to-right substitution equals its position-by-position reference: every character is kept in order, and exactly one space follows each '.' or ',' that is directly followed by an ASCII letter, nowhere else |
| Normalizer.SpaceAfterPunctLength | utils/document_processor.py:351 | the first substitution lengthens the text by exactly the number of '.'/','-letter pairs |
| Normalizer.SpaceAfterPunctKeeps | utils/document_processor.py:351 | the first substitution only inserts spaces: with spaces removed, the result is the input with spaces removed |
| Normalizer.SpaceAfterPunctSeparates | utils/document_processor.py:351 | after the first substitution no '.' or ',' is directly followed by an ASCII letter (the invariant; the content is stated by the three rows above) |
| Normalizer.SpaceAfterPunctNoop | utils/document_processor.py:351 | text with no '.'/',' before a letter passes the first substitution unchanged |
| Normalizer.CollapseBlankLines | utils/document_processor.py:352 | replacing each `\n\s*\n` match (greedy, left to right) by two newlines keeps the empty text empty and the first character in place |
| Normalizer.CollapseBlankLinesKeepsPairs | utils/document_processor.py:352 | the blank-line substitution creates no forbidden pair of characters that ignores newlines |
| Normalizer.CollapseBlankLinesStep | utils/document_processor.py:352 | each step of the `\n\s*\n` substitution emits the first character, one newline, or two newlines for a blank-line run, and resumes later in the text |
| Normalizer.CollapseBlankLinesNoop | utils/document_processor.py:352 | text in which every newline is followed by a non-blank character passes the blank-line substitution unchanged |
| Normalizer.CollapseSpacesRuns | utils/document_processor.py:353 | `re.sub(r' +', ' ')` equals its run-by-run reference: each maximal run of spaces becomes exactly one space and every other character is kept in order |
| Normalizer.CollapseSpacesLength | utils/document_processor.py:353 | collapsing shortens the text by exactly the number of adjacent space pairs: each run of spaces becomes one space |
| Normalizer.CollapseSpacesKeeps | utils/document_processor.py:353 | collapsing only removes spaces: with spaces removed, the result is the input with spaces removed |
| Normalizer.CollapseSpacesSeparates | utils/document_processor.py:353 | after collapsing no two spaces are adjacent, and no forbidden pair is created (the invariant; the content is stated by the two rows above) |
| Normalizer.CollapseSpacesNoop | utils/document_processor.py:353 | text without two adjacent spaces is unchanged by collapsing |
| Normalizer.SplitLines | utils/document_processor.py:356 | `str.splitlines` yields lines that hold no line boundary ("\r\n" counts once) |
| Normalizer.SplitLinesPairs | utils/document_processor.py:356 | splitting into lines creates no forbidden pair |
| Normalizer.StripKeeps | utils/document_processor.py:356 | a stripped line of normalised text is empty or a good line (no edge whitespace, no boundary, no double space, no '.'/',' before a letter) |
| Normalizer.CleanLinesGood | utils/document_processor.py:356-357 | the kept stripped lines are all good lines |
| Normalizer.CleanLinesNoop | utils/document_processor.py:356-357 | stripping and filtering good lines changes nothing |
| Normalizer.JoinPairFree | utils/document_processor.py:357 | joining lines with "\n" creates no forbidden pair that ignores newlines |
| Normalizer.JoinNewlineThenText | utils/document_processor.py:357 | after joining good lines, every newline is followed by text |
| Normalizer.SplitJoin | utils/document_processor.py:356-357 | splitting the join of good lines gives back the same lines (the join/split round trip) |
| Normalizer.SplitAtNewline | utils/document_processor.py:356-357 | a line without a break followed by "\n" is split off as the first line, the rest split as before |
| Normalizer.JoinGoodLines | utils/document_processor.py:351-357 | the join of good lines passes all three substitutions' invariants and splits back into the same lines |
| Normalizer.CleanTextLines | utils/document_processor.py:338-357 | `clean_text` returns the "\n"-join of a list of good lines |
| Normalizer.CleanTextNormalizes | utils/document_processor.py:338-357 | the cleaned text is its own lines joined by "\n", each line good, with no double space and no '.'/',' before a letter anywhere, and its non-whitespace characters are exactly those of the input, in order |
| Normalizer.SpaceAfterPunctVisible | utils/document_processor.py:351 | the first substitution keeps the non-whitespace characters, in order |
| Normalizer.CollapseBlankLinesVisible | utils/document_processor.py:352 | the blank-line substitution replaces only whitespace: the non-whitespace characters are kept, in order |
| Normalizer.CollapseSpacesVisible | utils/document_processor.py:353 | collapsing spaces keeps the non-whitespace characters, in order |
| Normalizer.SplitLinesVisible | utils/document_processor.py:356 | `splitlines` drops only line boundaries: the lines' non-whitespace characters, one line after the other, are those of the text |
| Normalizer.CleanLinesVisible | utils/document_processor.py:356-357 | stripping lines and dropping the empty ones removes only whitespace |
| Normalizer.VisibleJoin | utils/document_processor.py:357 | joining lines with "\n" adds only whitespace |
| Normalizer.CleanTextVisible | utils/document_processor.py:338-357 | `clean_text` keeps every non-whitespace character of its input, in order, and adds none |
| Normalizer.CleanTextExample | Betty/test_improvements.py:54-56 | the repository's cleaning example: `"  This   is\n\na\n  test.\n\n  "` cleans to `"This is\na\ntest."` |
| Normalizer.CleanTextIdempotent | utils/document_processor.py:338-357 | cleaning cleaned text changes nothing |
| TokenChunker.WindowParamsGuard | utils/document_processor.py:375-381 | a zero size or overlap takes the configured value, an overlap at least the size becomes a quarter of it, and a positive size leaves a positive step |
| TokenChunker.ChunkText | utils/document_processor.py:359-398 | the window loop returns exactly the decoded non-blank windows, or `[text]` when the tokenizer raises |
| TokenChunker.DecodeWindows | utils/document_processor.py:385-394 | the `range(0, len(tokens), step)` loop returns the decoded non-blank windows in order, or the exception a decode raises |
| TokenChunker.DecodedStep | utils/document_processor.py:387-392 | one window: a raising decode makes the whole loop raise, otherwise its non-blank text is appended and the loop moves on by `step` |
| TokenChunker.DecodeKeepStep | utils/document_processor.py:387-392 | decoding from position i is the window at i, kept when non-blank, followed by the windows from i + step |
| TokenChunker.WindowCount | utils/document_processor.py:387 | `range(start, n, step)` gives ceil((n − start)/step) windows |
| TokenChunker.WindowContent | utils/document_processor.py:387-388 | window k holds the tokens from start + k·step up to start + k·step + size, cut at the end |
| TokenChunker.WindowPair | utils/document_processor.py:387-388 | consecutive windows k and k + 1 start `step` tokens apart, both inside the token sequence |
| TokenChunker.WindowOverlap | utils/document_processor.py:387-388 | each window is non-empty and at most `chunk_size` tokens, and a full window shares its last `overlap` tokens with the next window's first |
| TokenChunker.WindowsReassemble | utils/document_processor.py:387-388 | the windows, with each later window's overlap dropped, concatenate to exactly the token sequence |
| TokenChunker.DropOverlapsTail | utils/document_processor.py:387-388 | the windows from position j, each with its first `overlap` tokens dropped, concatenate to the tokens from j + overlap on |
| TokenChunker.TokenChunksFallback | utils/document_processor.py:383-398 | a raising tokenizer gives `[text]`; otherwise the chunks are the decoded windows |
| TokenChunker.DecodeKeepNonBlank | utils/document_processor.py:389-392 | every kept chunk is non-blank |
| TokenChunker.SeedStart | utils/document_processor.py:437-451 | the overlap walk from the last piece backwards takes pieces while their token total stays within `overlap`: the first piece taken is at most one past the start and the final total lies between the starting total and `overlap` |
| TokenChunker.ComputeSeed | utils/document_processor.py:437-451 | the backwards loop computes the overlap seed text the walk defines |
| TokenChunker.PackStepMethod | utils/document_processor.py:430-460 | one sentence of the packing loop: close the chunk and seed the next with the overlap, or append the sentence |
| TokenChunker.PackLoop | utils/document_processor.py:422-466 | the sentence loop returns the packing of all sentences, or the raised exception |
| TokenChunker.PackNoneStays | utils/document_processor.py:422-471 | once a tokenizer call raises, the whole loop ends in the exception |
| TokenChunker.SemanticChunkText | utils/document_processor.py:400-471 | `semantic_chunk_text` returns the sentence packing, with `[text]` for no chunk and `chunk_text`'s result when semantic chunking is off, NLTK is missing or an exception is raised |
| TokenChunker.PackFits | utils/document_processor.py:429-460 | sentences whose tokens fit together in one chunk are never split and form one dotted chunk |
| TokenChunker.PackChunkCount | utils/document_processor.py:433-434 | the packing loop closes at most one chunk per sentence after the first |
| TokenChunker.SemanticChunksShape | utils/document_processor.py:422-466 | a successful sentence path yields at least one and at most as many chunks as sentences, and one chunk when all sentences fit |
| TokenChunker.SemanticDelegates | utils/document_processor.py:416-417 | with semantic chunking off, NLTK missing or a raising sentence path, the result is `chunk_text`'s |
| DocumentProcessor.GetFileTypeIff | utils/document_processor.py:473-497 | a name has type t exactly when its lower-cased form ends with t's extension (the tests' order does not matter) |
| DocumentProcessor.GetFileTypeNone | utils/document_processor.py:473-497 | a name has no type exactly when it ends with none of the six extensions |
| DocumentProcessor.ProcessUploadedFileRejects | utils/document_processor.py:508-520 | a missing, oversized or unsupported upload gives "" |
| DocumentProcessor.ProcessUploadedAccepted | utils/document_processor.py:522-538 | an accepted upload gives the cleaned output of its type's extractor |
| DocumentProcessor.ProcessUploadedMarkdown | utils/document_processor.py:529-530 | an accepted ".md" file is read by the plain-text reader and cleaned |
| DocumentProcessor.ProcessedIsClean | utils/document_processor.py:499-538 | whatever `process_uploaded_file` returns is already clean |
| DocumentProcessor.DefaultSizeLimit | utils/document_processor.py:508-524 | with the default `MAX_FILE_SIZE_MB` of 10 (config/settings.py:32), an upload of a supported type of exactly 10 485 760 bytes is extracted and cleaned, and one of 10 485 761 bytes or more gives "" |
| DocumentProcessor.ValidConfigWindows | config/settings.py:58-67 | a configuration `validate_config` accepts keeps its overlap in `chunk_text` and steps by a positive `CHUNK_SIZE - CHUNK_OVERLAP` |
| Settings.ValidateConfig | config/settings.py:56-67 | valid exactly when the OpenAI key is truthy and 0 <= overlap < size |
| Settings.DefaultsChunkConstraints | config/settings.py:16-24 | the default chunk settings meet every chunk constraint, but the missing key fails validation |
| BettySettings.EnvFlag | Betty/config/settings.py:54-55 | `bool(os.getenv(name, "True"))` is false only for the empty string |
| BettySettings.ValidateConfig | Betty/config/settings.py:70-86 | valid exactly when the chosen provider's key is truthy (and the provider is "claude" or "openai") and 0 <= overlap < size |
| BettySettings.FlagsAndDefaults | Betty/config/settings.py:30-55 | "False" or "0" still enable a flag, unset enables it, only "" disables it; the defaults meet the chunk constraints |
| Extractors.ExtractPdf | utils/document_processor.py:55-81 | the page loop returns the PDF text: the non-blank page texts joined by "\n", skipping pages that raise, "" when the reader raises |
| Extractors.KeptPagesExactly | utils/document_processor.py:68-75 | a text is kept exactly when some page yields it and it is not blank |
| Extractors.PdfTextEmptyIff | utils/document_processor.py:64-77 | the PDF text is empty exactly when no page yields non-blank text, and it holds exactly those pages |
| Extractors.RenderParagraph | utils/document_processor.py:97-119 | one paragraph's part as the loop body builds it agrees with the paragraph rule |
| Extractors.ParagraphPartShape | utils/document_processor.py:97-119 | a paragraph contributes nothing exactly when its text is blank, otherwise a part holding its stripped text; "Heading N" gives min(N, 6) hashes |
| Extractors.RenderParagraphs | utils/document_processor.py:97-119 | the paragraph loop returns the parts of all paragraphs in order |
| Extractors.RenderTable | utils/document_processor.py:123-136 | one table gives its non-empty rows' stripped non-blank cells joined by " \| ", framed by table markers, or nothing when no row has a cell |
| Extractors.RenderTables | utils/document_processor.py:122-136 | the table loop returns the parts of all tables in order |
| Extractors.ExtractDocx | utils/document_processor.py:83-142 | the DOCX text is the paragraph parts followed by the table parts, joined by "\n"; "" when the reader raises |
| Extractors.NearbyScores | utils/document_processor.py:227-232 | the inner loop collects the score-like values of the neighbouring columns |
| Extractors.ScoresExactly | utils/document_processor.py:228-232 | the scan up to column k reports exactly the stripped non-blank score-like values of columns `max(0, j-2)..k-1` other than j |
| Extractors.NearbyScoresExactly | utils/document_processor.py:228-232 | the scores for column j are exactly the stripped non-blank score-like values of columns j−2..j+2 other than j |
| Extractors.ScanCell | utils/document_processor.py:223-234 | one cell adds a "PROJECT: … has impact scores" line for each known project it names that has scores |
| Extractors.RowFieldsKeep | utils/document_processor.py:217-219 | a non-blank cell adds " header: value," to the row text |
| Extractors.RowFieldsSkip | utils/document_processor.py:218 | a blank cell adds nothing to the row text |
| Extractors.AddRowField | utils/document_processor.py:218-219 | the loop body adds exactly column n's field |
| Extractors.RenderFullRow | utils/document_processor.py:216-220 | a full-width row renders as "Row i:" and its fields, with the trailing commas stripped |
| Extractors.RenderCsvRow | utils/document_processor.py:214-242 | a data row gives its row line (full or comma-joined), its project lines, and a blank line after every tenth row |
| Extractors.RenderLatin1 | utils/document_processor.py:246-256 | the Latin-1 fallback joins each row's cells with ", " and the rows with "\n" |
| Extractors.ExtractCsv | utils/document_processor.py:166-263 | the CSV text: the header block and the data blocks joined by "\n", "" with no rows, the Latin-1 fallback on a decode error |
| Extractors.CsvLayout | utils/document_processor.py:200-220 | a non-empty table's text starts with the column line and a blank line; a full-width row's line starts with "Row i:" and never ends with a comma |
| Extractors.HeadersUpTo | utils/document_processor.py:299-302 | there is one header per column |
| Extractors.SheetFieldsStep | utils/document_processor.py:312-321 | one more column adds its field exactly when its cell has a non-blank value |
| Extractors.RowHasDataStep | utils/document_processor.py:321-323 | a row has data up to column c exactly when it has data before c or at c |
| Extractors.RenderSheetRow | utils/document_processor.py:308-324 | a row gets a line exactly when one of its cells has a non-blank value; the line is "Row r-1:" and its fields with trailing commas stripped |
| Extractors.RenderHeaders | utils/document_processor.py:299-302 | the header loop returns the header of every column |
| Extractors.RenderSheetRows | utils/document_processor.py:308-328 | the row loop returns the lines of all data rows with a blank line after every tenth |
| Extractors.RenderSheet | utils/document_processor.py:284-330 | one sheet gives its title, "(Empty sheet)" or its columns line and rows, and a closing blank line |
| Extractors.ExtractXlsx | utils/document_processor.py:265-336 | the XLSX text is the sheets' parts joined by "\n"; "" without openpyxl or when loading raises |
| Extractors.SheetRowShape | utils/document_processor.py:299-328 | a row line appears only for a row with data (or the tenth-row blank line), never ends with a comma, and an empty header cell is named "Column" and its number |
| Chroma.UnderscoreAfterDigits | utils/vector_store.py:454 | in an id `doc_{d}_chunk_{c}` the '_' after the digits of d is the first underscore found |
| Chroma.IdParts | utils/vector_store.py:454 | in `doc_{d}_chunk_{c}` the first underscore after "doc_" ends the digits of d, which are followed by "_chunk_" and the digits of c |
| Chroma.IdOfInjective | utils/vector_store.py:454 | distinct (document number, chunk index) pairs give distinct ids |
| Chroma.LastSlash | utils/vector_store.py:383 | the index of the last '/' of a path, or −1 when there is none |
| Chroma.Basename | utils/vector_store.py:383 | `os.path.basename` is a suffix of the path with no '/', and a path with no '/' is its own basename |
| Chroma.FilesToAddExactly | utils/vector_store.py:204-207 | a path is kept exactly when its basename is not yet stored; repeats within the list are all kept |
| Chroma.KeepsExactlySnoc | utils/vector_store.py:204-207 | one more path keeps the kept list exact: it is appended exactly when its basename is not yet stored |
| Chroma.FilesToAddNone | utils/vector_store.py:204-212 | when every basename is already stored, nothing is kept (the collection is up to date) |
| Chroma.FilesToAddKeepsAll | utils/vector_store.py:204-207 | when no basename is stored, every path is kept, in order |
| Chroma.ExistingFilesExactly | utils/vector_store.py:366-376 | the existing files are exactly the non-empty filenames in the records' metadata |
| Chroma.ChunkEntriesKeys | utils/vector_store.py:445-454 | one document's entries are its non-blank chunks in order, with ids carrying its document number and increasing chunk indexes |
| Chroma.BatchEntriesKeys | utils/vector_store.py:441-454 | a batch's entries are, in order, each document's non-blank chunks with id `doc_{offset+k}_chunk_{c}` and metadata {filename, chunk_index c} |
| Chroma.BatchKeysIncrease | utils/vector_store.py:441-454 | the (document, chunk) keys of a batch strictly increase |
| Chroma.BatchIdsDistinct | utils/vector_store.py:441-454 | the ids of one batch are pairwise distinct |
| Chroma.ChunkEntriesComplete | utils/vector_store.py:445-454 | every non-blank chunk of a document is in its entries |
| Chroma.BatchEntriesComplete | utils/vector_store.py:441-454 | every non-blank chunk of every document of the batch is in the batch |
| Chroma.BatchEntriesCount | utils/vector_store.py:441-457 | when every document has a non-blank chunk, the batch has at least one entry per document |
| Chroma.ToRecords | utils/vector_store.py:460-470 | the records an insert adds are the entries, each with its embedding, in order |
| Chroma.BatchIdsFresh | utils/vector_store.py:439-454 | numbering documents from the collection's record count gives ids that clash with no stored id, and keeps the bound for the next add |
| Chroma.BatchKeyedIds | utils/vector_store.py:441-454 | each id of a batch is that of its (document, chunk) key, with the document number in offset..offset+len(documents) |
| Chroma.KeyedIdsFresh | utils/vector_store.py:439-454 | ids whose document number is at least the record count clash with no stored id |
| Chroma.KeyedIdsBelow | utils/vector_store.py:439-470 | after appending them, every id's document number is again below the record count |
| Chroma.BuildBatch | utils/vector_store.py:435-454 | the loop builds parallel chunk, metadata and id lists holding exactly the batch's entries |
| Chroma.AppendDocEntries | utils/vector_store.py:445-454 | the inner loop appends exactly one document's non-blank chunks, with their metadata and ids, to the three lists |
| Chroma.CollectionAdd | utils/vector_store.py:465-470 | `collection.add` succeeds exactly when the embeddings have the collection's dimension and the new ids are pairwise distinct, and raises otherwise; on success the stored records stay in front and at most one record per new one is appended |
| Chroma.UnstoredExactly | utils/vector_store.py:465-470 | what an add appends is exactly the new records whose id is not already stored: each appended record is one of them, and each of them is appended |
| Chroma.UnstoredAllFresh | utils/vector_store.py:465-470 | when no new id is stored, the add appends every new record, in order |
| Chroma.UnstoredDistinct | utils/vector_store.py:465-470 | the appended records have pairwise distinct ids, none of them already stored |
| Chroma.CollectionAddKeepsIdsDistinct | utils/vector_store.py:465-470 | a collection that never holds two records under one id keeps that property through an add |
| Chroma.CollectionAddSkipsStored | utils/vector_store.py:465-470 | adding a record whose id is already stored leaves the collection unchanged (it is not stored twice) |
| Chroma.GetOrCreate | utils/vector_store.py:168-181 | the named collection exists afterwards, an existing one is untouched, a missing one is created empty, and no other collection changes |
| Ingest.ProcessFilesForCollection | utils/vector_store.py:378-425 | the file loop returns the documents of the files that yield one, in order |
| Ingest.StoreExtractTypes | utils/vector_store.py:397-404 | only PDF, DOCX and TXT files have an extractor in the store |
| Ingest.ProcessFileExactly | utils/vector_store.py:382-419 | a file yields a document exactly when it can be read, its type has a store extractor and its text is not blank; the document is its basename and the chunks of the cleaned text |
| Ingest.ProcessFileNoExtractor | utils/vector_store.py:403-404 | a file of a type without a store extractor yields nothing |
| Ingest.ProcessFileSkipsOtherTypes | utils/vector_store.py:390-404 | Markdown, CSV and XLSX files, which `get_file_type` accepts, are skipped by the store |
| Ingest.ProcessFilesNone | utils/vector_store.py:382-425 | when no file yields a document the list is empty |
| Ingest.ProcessFilesLength | utils/vector_store.py:382-425 | at most one document per path |
| Ingest.ProcessFilesSound | utils/vector_store.py:382-425 | every document comes from one of the paths |
| Ingest.ProcessFilesComplete | utils/vector_store.py:382-425 | every path that yields a document contributes it |
| Sorting.Insert | utils/vector_store.py:288-292 | inserting into the sorted prefix adds exactly one element and keeps the multiset |
| Sorting.Sort | utils/vector_store.py:288-292 | `list.sort` returns a permutation of its input |
| Sorting.SortSorted | utils/vector_store.py:288-292 | under a total preorder the sorted list is ordered |
| Sorting.SortStable | utils/vector_store.py:288-292 | sorting keeps the relative order of every class of equal keys (Python's sort is stable) |
| Ranking.StrLeTotal | utils/vector_store.py:290 | Python's string `<=` is total |
| Ranking.StrLeTransitive | utils/vector_store.py:290 | Python's string `<=` is transitive |
| Ranking.StrLeAntisymmetric | utils/vector_store.py:290 | Python's string `<=` is antisymmetric |
| Ranking.RoundedDistanceMonotone | utils/vector_store.py:289 | rounding the distance keeps its order |
| Ranking.Format | utils/vector_store.py:279-285 | a formatted result holds the document, metadata, distance, filename and content length of its candidate |
| Ranking.Formats | utils/vector_store.py:275-285 | every candidate is formatted, in engine order |
| Ranking.KeyLeTotalPreorder | utils/vector_store.py:288-292 | the key (rounded distance, filename, content length) is a total preorder |
| Ranking.HitsOf | utils/vector_store.py:295-300 | the kept results are reduced to content and metadata, in order |
| Ranking.RankCandidatesSpec | utils/vector_store.py:274-302 | the ranked results are a permutation of the candidates in key order with ties in engine order; the first `min(n, count)` are kept and none is ranked after a dropped one |
| Ranking.Zip | utils/vector_store.py:346-349 | `zip` pairs elements up to the shorter length |
| Ranking.ScoreGeTotalPreorder | utils/vector_store.py:350 | descending score is a total preorder |
| Ranking.QueryPairs | utils/vector_store.py:340 | the cross-encoder gets the pair (query, content) of every hit, in order |
| Ranking.WithScores | utils/vector_store.py:353-357 | each kept hit is copied with its score as `relevance_score` |
| Ranking.RerankSpec | utils/vector_store.py:339-359 | a successful pass returns `min(n, count)` input hits, each with its own score, in descending score order with ties in input order, and no dropped hit scores higher than a kept one |
| Ranking.RerankHitsBound | utils/vector_store.py:339-359 | a successful reranking pass keeps at most `n` hits |
| Ranking.ScoreOrderPairs | utils/vector_store.py:346-350 | every ranked pair is an input hit with the score given at its own position |
| VectorStore.EntryChunks | utils/vector_store.py:460-463 | the texts handed to the embedder are the batch's chunks, in order |
| VectorStore.EngineHits | Betty/utils/vector_store.py:170-179 | Betty's results are the engine's candidates in engine order, reduced to content and metadata |
| VectorStore.AddBatchValue | utils/vector_store.py:456-478 | a successful insert embeds every chunk once, one embedding per entry, and appends the records of the entries whose id is not already stored, each with its own embedding |
| VectorStore.BatchRecordComplete | utils/vector_store.py:441-470 | every non-blank chunk of the batch gets a record |
| VectorStore.BatchRecordSound | utils/vector_store.py:441-470 | every record of the batch is a non-blank chunk of one of the documents, under its id, filename and index |
| VectorStore.AddBatchContents | utils/vector_store.py:427-482 | a successful insert keeps the old records in front; every non-blank chunk whose id `doc_{offset+k}_chunk_{c}` is not already stored gets its record with its filename and index, and every appended record is such a chunk's record |
| VectorStore.AddBatchComplete | utils/vector_store.py:427-482 | every non-blank chunk of the batch whose id is not already stored has its record, with its id, text and metadata, among the appended ones |
| VectorStore.AddBatchSound | utils/vector_store.py:427-482 | every appended record is the record of some non-blank chunk of the batch, under an id not already stored |
| VectorStore.AddBatchKeepsIdsFresh | utils/vector_store.py:439-470 | when the stored ids are numbered below the record count and every document has a chunk, no new id is stored yet, so every entry's record is appended; new ids differ from stored ones and the numbering bound holds again afterwards |
| VectorStore.AddBatchKeepsIdsDistinct | utils/vector_store.py:439-470 | a collection without two records under one id keeps that property through an insert |
| VectorStore.AddFromFilesUpToDate | utils/vector_store.py:204-212 | when every basename is already stored the call returns True and only the get-or-create happened |
| VectorStore.AddFromFilesNothingUsable | utils/vector_store.py:214-227 | when no pending file yields a document the call returns False and only the get-or-create happened |
| VectorStore.AddFromFilesCases | utils/vector_store.py:183-236 | the call either leaves the collections as the get-or-create made them, or returns True after inserting the pending documents into the target collection |
| VectorStore.AddFromFilesFrame | utils/vector_store.py:183-236 | only the target collection changes, its old records stay in front, and False means nothing but the get-or-create happened |
| VectorStore.AddedFilesAreNew | utils/vector_store.py:203-207 | every record the call adds carries the basename of a given path that was not already stored |
| VectorStore.AddFromFilesKeepsIdsFresh | utils/vector_store.py:183-236 | over the whole call, stored ids stay numbered below the record count and no new id was stored before |
| VectorStore.SearchMissingCollection | utils/vector_store.py:256-262 | a missing collection gives no results in both variants; the root variant creates it empty, Betty's leaves the store unchanged |
| VectorStore.RootSearchRanked | utils/vector_store.py:254-302 | the root search asks for `min(2n, 20)` candidates, sorts them stably by (rounded distance, filename, length) and keeps the first `min(n, count)`; no dropped one has a smaller key |
| VectorStore.BettySearchEngineOrder | Betty/utils/vector_store.py:159-179 | Betty's search returns the engine's candidates in engine order |
| VectorStore.SearchBound | utils/vector_store.py:296 | a search returns at most `n` results |
| VectorStore.SearchRepeatable | utils/vector_store.py:238-306 | searching again sees the state the first search left and returns the same results |
| VectorStore.RerankPassThrough | utils/vector_store.py:328-329 | with reranking off or no cross-encoder, the reranking search is the plain search |
| VectorStore.RerankFewUnchanged | utils/vector_store.py:333-337 | when the wider search finds at most `n` hits they are returned unchanged |
| VectorStore.RerankFallback | utils/vector_store.py:361-364 | when the cross-encoder raises, the plain search of `n` is returned |
| VectorStore.RerankTop | utils/vector_store.py:331-359 | otherwise the result is the top `n` of the wider search by descending score, ties in search order, each with its own score; no dropped hit scores higher |
| VectorStore.RerankBound | utils/vector_store.py:308-364 | the reranking search also returns at most `n` hits |
| VectorStore.VectorStore.constructor | utils/vector_store.py:168 | a store over the given collections and engines |
| VectorStore.VectorStore.AddDocumentsToCollection | utils/vector_store.py:427-482 | returns True exactly when the insert succeeds, and then replaces only the target collection by the appended records |
| VectorStore.VectorStore.AddDocumentsFromFiles | utils/vector_store.py:183-236 | the outcome and new collections are those of the add-from-files specification |
| VectorStore.VectorStore.RankAndCut | utils/vector_store.py:274-302 | the format, sort and cut loop returns the ranked candidates |
| VectorStore.VectorStore.SearchCollection | utils/vector_store.py:238-306 | the results and new state are those of the search specification of the store's variant |
| VectorStore.VectorStore.TopScored | utils/vector_store.py:352-357 | the loop returns the top `n` scored hits, each with its score |
| VectorStore.VectorStore.SearchCollectionWithReranking | utils/vector_store.py:308-364 | the results and new state are those of the reranking specification |
| VectorStore.VectorStore.DeleteCollection | utils/vector_store.py:492-506 | returns True exactly when the collection existed, and removes it |
| VectorStore.VectorStore.ResetCollectionForEmbeddingModel | utils/vector_store.py:508-531 | the collection is afterwards present and empty, whatever it held; other collections are untouched |
| RagChunker.FloorDivSpec | chat/rag/chunker.py:50 | Python's `//` rounds toward minus infinity |
| RagChunker.ValidateIff | chat/rag/chunker.py:28-36 | a chunk is valid exactly when its stripped content has at least 20 characters and its raw content at most 2000 |
| RagChunker.NewChunkerClamps | chat/rag/chunker.py:45-58 | the size is clamped to 20..2000, the overlap to 0..`chunk_size // 2` of the raw size, and every constructed chunker has overlap below size |
| RagChunker.NewChunkerFailsIff | chat/rag/chunker.py:49-58 | the constructor raises exactly when the overlap is at least 2000 and the raw size at least 4000 |
| RagChunker.DefaultChunker | chat/rag/chunker.py:45-51 | `TextChunker()` is size 1000, overlap 200, recursive |
| RagChunker.SpaceRun | chat/rag/chunker.py:130 | the leading whitespace run of a text, maximal |
| RagChunker.SqueezeSpaces | chat/rag/chunker.py:130 | `re.sub(r'\s+', ' ')` keeps the empty text empty and turns a leading whitespace character into a space |
| RagChunker.SqueezeSpacesShape | chat/rag/chunker.py:130 | after the substitution the only whitespace is single spaces |
| RagChunker.SqueezeSpacesNonBlank | chat/rag/chunker.py:130 | a non-blank text stays non-blank |
| RagChunker.CharRun | chat/rag/chunker.py:136 | the leading run of one character, maximal |
| RagChunker.CollapsePunct | chat/rag/chunker.py:136 | every run of three or more of the same '.', '!' or '?' becomes one, runs of two stay, and no triple remains |
| RagChunker.CollapsePunctKeepsChars | chat/rag/chunker.py:136 | collapsing only removes characters |
| RagChunker.CollapsePunctNoDoubleSpace | chat/rag/chunker.py:136 | collapsing creates no double space |
| RagChunker.CollapsePunctNonBlank | chat/rag/chunker.py:136 | a non-blank text stays non-blank |
| RagChunker.PreprocessBlankLineStepNoop | chat/rag/chunker.py:130-133 | once whitespace is squeezed, the blank-line substitution finds nothing to do |
| RagChunker.CollapsedShape | chat/rag/chunker.py:130-136 | before the final strip the text has only single spaces and no punctuation runs |
| RagChunker.PreprocessStripped | chat/rag/chunker.py:138 | the preprocessed text has no leading or trailing whitespace |
| RagChunker.PreprocessShape | chat/rag/chunker.py:127-138 | the preprocessed text holds no whitespace but single spaces and no run of three same '.', '!' or '?' |
| RagChunker.SpacesOnlyNoNewline | chat/rag/chunker.py:130 | a text whose only whitespace is spaces has no newline |
| RagChunker.PreprocessNonBlank | chat/rag/chunker.py:71-75 | a non-blank text is non-empty after preprocessing |
| RagChunker.RFindSpace | chat/rag/chunker.py:199 | `rfind(' ', lo, hi)` is the last space in the range, or −1 |
| RagChunker.FixedEnd | chat/rag/chunker.py:194-201 | a window ends after its start, within the text, at most `chunk_size` characters on |
| RagChunker.FixedEndSpec | chat/rag/chunker.py:194-201 | a window that stops short of the end and has a space beyond `start + chunk_size // 2` ends just past the last such space; otherwise it is `chunk_size` long or reaches the end |
| RagChunker.FixedNext | chat/rag/chunker.py:208-212 | the next start lies after the old start and no later than the end, so the loop progresses |
| RagChunker.WindowEnd | chat/rag/chunker.py:194-201 | the loop's window end agrees with the window rule |
| RagChunker.WindowPiece | chat/rag/chunker.py:203-205 | the stripped window becomes a triple unless it is empty |
| RagChunker.NextStart | chat/rag/chunker.py:208-212 | the loop's next start agrees with the step rule |
| RagChunker.FixedChunk | chat/rag/chunker.py:188-214 | `_fixed_chunk` returns the triples of the fixed-window specification |
| RagChunker.FixedHeadWindow | chat/rag/chunker.py:193-205 | the triple of the window at `start` is a fixed window starting there |
| RagChunker.FixedChunksPieces | chat/rag/chunker.py:188-214 | every triple is the non-empty stripped slice of a window of at most `chunk_size` characters inside the text, ending where the window rule says |
| RagChunker.FindAll | chat/rag/chunker.py:156-157 | `re.finditer` reports only positions where the pattern occurs, from the scan start on |
| RagChunker.PickBest | chat/rag/chunker.py:159-165 | a chosen split lies strictly inside the window `(size − overlap, size + overlap)` |
| RagChunker.PickBestFinds | chat/rag/chunker.py:159-168 | a sentence split is found exactly when some candidate lies in the window |
| RagChunker.PickBestIsBest | chat/rag/chunker.py:159-165 | the split found is the first candidate of minimal distance to `chunk_size` in the window |
| RagChunker.BestKeptSnoc | chat/rag/chunker.py:159-165 | a later candidate outside the window, or no closer to `chunk_size`, leaves the best split where it was |
| RagChunker.BestNewSnoc | chat/rag/chunker.py:159-165 | a later candidate in the window that is closer than every earlier one in it becomes the best split |
| RagChunker.SentenceSplit | chat/rag/chunker.py:152-165 | the best sentence boundary lies in the window |
| RagChunker.WordSplit | chat/rag/chunker.py:168-173 | the word fallback cuts just past the last complete word, never at 0 |
| RagChunker.SplitPoint | chat/rag/chunker.py:152-173 | `_split_text` always cuts past position 0 |
| RagChunker.RecursiveShort | chat/rag/chunker.py:147-149 | a text of at most `chunk_size` characters is one chunk |
| RagChunker.SplitHeadSlice | chat/rag/chunker.py:176-177 | the head triple is the slice of the text from the offset to the split |
| RagChunker.SplitTextLast | chat/rag/chunker.py:176-180 | a split reaching the end of the part leaves the head as the last triple |
| RagChunker.SplitTextEndless | chat/rag/chunker.py:180-183 | a remainder that would restart at the same place recurses until Python's recursion limit, which the model reports as None at every depth |
| RagChunker.SplitTextRest | chat/rag/chunker.py:176-183 | otherwise the head comes before the triples of the remainder from `split − overlap` on |
| RagChunker.SplitTextShort | chat/rag/chunker.py:147-149 | a part of at most `chunk_size` characters is one triple |
| RagChunker.SplitTextPieces | chat/rag/chunker.py:146-183 | the triples of `_split_text` form a chain of slices of the text, each overlapping its successor |
| RagChunker.RecursiveChunksPieces | chat/rag/chunker.py:140-186 | the triples of `_recursive_chunk` are slices that start at 0, end at the end of the text and overlap their successor |
| RagChunker.FindAllM | chat/rag/chunker.py:156-157 | the scanning loop finds the same occurrences as the specification |
| RagChunker.FindAllStep | chat/rag/chunker.py:156-157 | one scan step: an occurrence at the position is recorded and the scan resumes past it, otherwise the scan moves on by one character |
| RagChunker.ScanPositions | chat/rag/chunker.py:159-165 | the inner loop keeps the best split of the positions seen |
| RagChunker.ChooseSentenceSplit | chat/rag/chunker.py:155-165 | the two loops over splitters and positions return the best sentence boundary |
| RagChunker.ChooseSplit | chat/rag/chunker.py:152-173 | the split chosen is the sentence boundary, else the word boundary |
| RagChunker.SplitPart | chat/rag/chunker.py:146-183 | `_split_text` with `depth` frames left returns the triples of the specification, and None where the recursion would go deeper than that (the `RecursionError`) |
| RagChunker.SplitAt | chat/rag/chunker.py:157-183 | once the split is chosen, the head and the recursive call on the remainder agree with the specification at the same depth |
| RagChunker.SplitRemainder | chat/rag/chunker.py:176-183 | the head followed by the remainder's triples from `max(0, split − overlap)` on, or None when the remainder recursion runs out of depth |
| RagChunker.RecursiveChunk | chat/rag/chunker.py:140-186 | `_recursive_chunk` returns the triples of the specification at the given recursion limit, None when the limit is exceeded |
| RagChunker.SplitTextDepthBound | chat/rag/chunker.py:146-183 | a call that finishes within `depth` nested calls yields at most `depth + 1` triples, one per call |
| RagChunker.SplitTextMoreDepth | chat/rag/chunker.py:146-183 | a call that finishes within a limit gives the same triples under any larger limit |
| RagChunker.RecursiveChunksLimit | chat/rag/chunker.py:88-91 | a text whose chunking needs more than `depth + 1` triples raises the recursion error (None) under a limit of `depth` |
| RagChunker.SplitTextTooDeep | chat/rag/chunker.py:146-183 | with no frame left, a part longer than `chunk_size` that is split fails with the recursion error |
| RagChunker.ParaSplit | chat/rag/chunker.py:222 | `re.split(r'\n\s*\n')` yields at least one paragraph |
| RagChunker.ParaSplitNoNewline | chat/rag/chunker.py:222 | a text without a newline is a single paragraph |
| RagChunker.Shift | chat/rag/chunker.py:243-244 | a long paragraph's triples are shifted by the paragraph's position |
| RagChunker.ParaChunksWithin | chat/rag/chunker.py:242 | the recursive chunks of a paragraph lie within it |
| RagChunker.SemStepBounds | chat/rag/chunker.py:228-259 | one paragraph keeps every triple within the position, which advances by the stripped length plus 2 |
| RagChunker.SemFoldBounds | chat/rag/chunker.py:228-259 | the loop keeps every triple within the position reached |
| RagChunker.SemanticChunksBounds | chat/rag/chunker.py:216-265 | every triple of `_semantic_chunk` starts at or after 0, ends no earlier than it starts, and ends at or before the final position |
| RagChunker.SemanticSingleParagraph | chat/rag/chunker.py:222-263 | a preprocessed text is one paragraph and one triple whose end lies two characters past the end of the text |
| RagChunker.SemFoldNone | chat/rag/chunker.py:228-259 | once a recursive cut fails the loop stays failed |
| RagChunker.SemStepBlank | chat/rag/chunker.py:229-232 | a blank paragraph only advances the position by 2 |
| RagChunker.SemStepCases | chat/rag/chunker.py:235-259 | a paragraph that is not long closes the current chunk when it would overflow, or is appended with "\n\n", or starts the chunk |
| RagChunker.SemStepLong | chat/rag/chunker.py:237-247 | a long paragraph that closes the current chunk adds its recursive triples shifted to its position |
| RagChunker.SemLongParagraph | chat/rag/chunker.py:237-247 | the long-paragraph branch agrees with the step rule |
| RagChunker.SemParagraph | chat/rag/chunker.py:229-259 | one paragraph of the loop agrees with the step rule |
| RagChunker.SemanticChunk | chat/rag/chunker.py:216-265 | `_semantic_chunk` returns the triples of the specification |
| RagChunkText.ChunkText | chat/rag/chunker.py:60-125 | `chunk_text`, under a recursion limit, returns the outcome of its specification: an error for blank text or no valid chunk, otherwise the validated numbered chunks, taken from `_fixed_chunk` when the strategy raises (including the recursion error) |
| RagChunkText.NumberAndValidate | chat/rag/chunker.py:94-119 | the numbering loop keeps exactly the valid numbered chunks, in order |
| RagChunkText.ValidatedChunksExactly | chat/rag/chunker.py:97-119 | the kept chunks are exactly the numbered chunks that pass validation, with strictly increasing indexes |
| RagChunkText.ValidatedSnoc | chat/rag/chunker.py:97-119 | one more triple keeps the kept list exact: its numbered chunk is appended exactly when it passes validation, and the indices still increase |
| RagChunkText.ChunkTextOutcome | chat/rag/chunker.py:60-125 | blank text raises; otherwise the call raises exactly when no triple passes validation, and returns 1..k valid chunks with increasing indexes, the triple's content and the full metadata |
| RagChunkText.ChunkTextFallback | chat/rag/chunker.py:78-91 | when the strategy raises, the triples of `_fixed_chunk` are numbered instead (and the strategy was not "fixed") |
| RagChunkText.ChunkTextTooDeep | chat/rag/chunker.py:78-91 | a recursive chunking that needs more nested calls than the limit allows falls back to `_fixed_chunk` |
| RagChunkText.Lengths | chat/rag/chunker.py:272 | the lengths of the chunks' contents, in order |
| RagChunkText.MinOf | chat/rag/chunker.py:278 | `min` is an element no greater than any other |
| RagChunkText.MaxOf | chat/rag/chunker.py:279 | `max` is an element no smaller than any other |
| RagChunkText.SumBounds | chat/rag/chunker.py:276 | a sum lies between the count times the least and the count times the greatest element |
| RagChunkText.ChunkStatsSpec | chat/rag/chunker.py:267-283 | no chunks give `{}`; otherwise the count, the least and greatest lengths (attained and bounding), the total between count·min and count·max, the average between min and max, and the configuration |
| RagChunkText.AverageBetween | chat/rag/chunker.py:277 | the average lies between the least and greatest length |
| RagChunkText.OptimizeParameters | chat/rag/chunker.py:285-314 | the suggested size is clamped to 20..2000 with a target, at most half the text and 500 for a short text, 2000 for a long one, the current size otherwise; the overlap is at most 300 and a fifth of the size, and the pair builds a chunker |
| RagRetriever.AboveThreshold | chat/rag/retriever.py:163-166 | the filter keeps no more than the hits it is given |
| RagRetriever.AboveThresholdSpec | chat/rag/retriever.py:163-166 | the filter keeps exactly the hits whose similarity reaches the threshold |
| RagRetriever.Numbered | chat/rag/retriever.py:173-181 | the conversion keeps the hits in order, ranked 1, 2, … |
| RagRetriever.RankedResults | chat/rag/retriever.py:173-185 | numbering and re-ranking keep one result per surviving hit |
| RagRetriever.Retrieve | chat/rag/retriever.py:121-198 | `retrieve` returns the outcome of the retrieval specification |
| RagRetriever.Scored | chat/rag/retriever.py:207-243 | every result carries its own composite score |
| RagRetriever.Renumbered | chat/rag/retriever.py:251-252 | position i gets rank i + 1 |
| RagRetriever.RerankResults | chat/rag/retriever.py:200-254 | `_rerank_results` returns the re-ranking specification |
| RagRetriever.KeyGeTotalPreorder | chat/rag/retriever.py:246-248 | descending composite score is a total preorder |
| RagRetriever.RerankSpec | chat/rag/retriever.py:200-254 | re-ranking keeps every result with its own composite score, as a permutation, in descending score with ties in original order, ranked 1..k |
| RagRetriever.SortKeepsScored | chat/rag/retriever.py:200-254 | reordering the scored results loses no composite score: every result of the reordering carries one |
| RagRetriever.ScoredOrderDescending | chat/rag/retriever.py:200-254 | results sorted by descending key have non-increasing composite scores |
| RagRetriever.RerankFrom | chat/rag/retriever.py:200-254 | each re-ranked result is an input result with its own score and a new rank |
| RagRetriever.RetrieveBlankQuery | chat/rag/retriever.py:142-144 | a blank query returns no results whatever the store answers |
| RagRetriever.RetrieveAsksOnce | chat/rag/retriever.py:146-156 | retrieval asks the store once, for `min(2n, 50)` candidates with `n` defaulting to 5 |
| RagRetriever.RetrieveFails | chat/rag/retriever.py:149-198 | a non-blank query fails exactly when the store fails, with "Retrieval failed: " and the store's message |
| RagRetriever.RetrieveResults | chat/rag/retriever.py:146-191 | at most `n` results, ranked 1..k, each a store hit whose similarity reaches the threshold (0.1 by default) |
| RagRetriever.RankedFrom | chat/rag/retriever.py:173-185 | each ranked result is one of the surviving hits, ranked by its position |
| RagRetriever.RetrieveStoreOrder | chat/rag/retriever.py:173-188 | without re-ranking (or with one survivor) the results are the surviving hits in the store's order |
| RagRetriever.RetrieveRerankOrder | chat/rag/retriever.py:184-188 | with re-ranking and more than one survivor the composite scores never increase down the list |
| RagRetriever.AddDocument | chat/rag/retriever.py:49-119 | `add_document` succeeds exactly when it reports statistics, then with at least one chunk and "Successfully processed" and the name |
| RagRetriever.AddDocumentProcessingFailed | chat/rag/retriever.py:61-82 | an unparsable file or sizes the chunker rejects fail with "Processing failed: " and the message |
| RagRetriever.DocumentChunkerValid | chat/rag/retriever.py:77-84 | every chunker `add_document` builds has overlap below size |
| RagRetriever.AddDocumentSucceeds | chat/rag/retriever.py:87-115 | once parsed and with a chunker, the call succeeds exactly when chunking succeeds and the store accepts the chunks; a chunking failure reads "Text chunking failed: " |
| RagRetriever.AddDocumentStats | chat/rag/retriever.py:105-115 | a success reports the file, hash, content length, chunk count (at least one), chunk statistics and upload date |
| RagRetriever.HealthCheck | chat/rag/retriever.py:318-363 | each component is "healthy" or "error" as its probe succeeds, the chunker "warning" for no chunks, the counts when known, and the status from the errors |
| RagRetriever.OverallStatus | chat/rag/retriever.py:356-361 | the status loop agrees with the status rule |
| RagRetriever.ProblemMentionsError | chat/rag/retriever.py:335-353 | every recorded message contains "error" |
| RagRetriever.HealthStatus | chat/rag/retriever.py:328-361 | the status is "healthy" exactly when every probe succeeded and "error" otherwise; "warning" is never reported |
| ChatCommon.SanitizeChar | streamlit/chat/chat.py:108 | a character outside `[a-zA-Z0-9._-]` becomes '_', an allowed one stays |
| ChatCommon.SanitizeCollectionName | streamlit/chat/chat.py:103-116 | the result is "" exactly when the name's length is outside 3..63; otherwise it has the same length with every character sanitised, and is a valid name |
| ChatCommon.SanitizeFixpoints | Betty/streamlit/chat/chat.py:103-117 | the names the sanitiser returns unchanged are exactly the valid names |
| ChatCommon.SanitizeIdempotent | Betty/streamlit/chat/chat.py:103-117 | sanitising twice is sanitising once |
| ChatCommon.PrecedingUserMessage | Betty/streamlit/chat/chat.py:485-487 | the feedback text is the previous message's content when that one is from the user, "" otherwise |
| ChatCommon.ChatSession.constructor | Betty/streamlit/chat/chat.py:309-321 | a fresh session has no messages, no active collection and no feedback |
| ChatCommon.ChatSession.SetActiveCollection | Betty/streamlit/chat/chat.py:309-321 | a truthy name the client can load becomes active in both fields; a falsy name or a failed load clears both; nothing else changes |
| ChatCommon.ChatSession.HandleFeedback | Betty/streamlit/chat/chat.py:243-262 | the feedback is remembered for the message only when the feedback store accepted it; nothing else changes |
| StreamlitChat.DecodeAllSpec | streamlit/chat/chat.py:96-99 | every window is decoded, blank or not, and the call fails exactly when some decode raises |
| StreamlitChat.ChunkTextSpec | streamlit/chat/chat.py:87-101 | a raising tokenizer or a zero step (`range` raises) gives no result; a negative step gives no windows |
| StreamlitChat.ChunkText | streamlit/chat/chat.py:87-101 | the window loop computes the chunking specification |
| StreamlitChat.DecodeAllWindows | streamlit/chat/chat.py:96-99 | the window loop decodes every window in order, and fails when a decode raises |
| StreamlitChat.AllDecodedStep | streamlit/chat/chat.py:96-99 | a decoded window is appended and the loop moves on by one step, keeping the loop invariant |
| StreamlitChat.AllDecodedFail | streamlit/chat/chat.py:96-99 | a window whose decode raises makes the whole chunking fail |
| StreamlitChat.ChunkTextWindows | streamlit/chat/chat.py:93-101 | with a positive size and step, chunk k decodes tokens `[k·step, k·step + size)`, there are ceil(n/step) chunks and none is dropped |
| StreamlitChat.LiteralBreaksNoop | streamlit/chat/chat.py:126 | text without a backslash-n pair passes the (literal) blank-line substitution unchanged |
| StreamlitChat.StripAll | streamlit/chat/chat.py:130 | every line stripped, blank lines kept |
| StreamlitChat.CleanTextAsWrittenOneLine | streamlit/chat/chat.py:118-131 | as written, `clean_text` returns a single line with no line-break character |
| StreamlitChat.CleanTextAsWrittenLosesLetters | streamlit/chat/chat.py:124 | as written, "a.b" becomes `a\1 \2`, losing the '.' and the 'b' |
| StreamlitChat.CleanTextIntendedSpaces | streamlit/chat/chat.py:124 | the intended cleaner turns "a.b" into "a. b" |
| StreamlitChat.CleanTextIntendedSeparates | streamlit/chat/chat.py:118-131 | the intended cleaner leaves no '.'/',' before a letter and no double space |
| StreamlitChat.CleanTextAsWrittenGluesLines | streamlit/chat/chat.py:131 | as written, "a\nb" becomes "a", backslash, "n", "b" |
| StreamlitChat.CleanTextIntendedKeepsLines | streamlit/chat/chat.py:131 | the intended cleaner keeps "a\nb" as two lines |
| StreamlitChat.ChunkDocuments | streamlit/chat/chat.py:145-147 | one chunk list per document, with its filename, blank texts giving none; a raising `chunk_text` fails the call |
| StreamlitChat.WithDocIndex | streamlit/chat/chat.py:151-155 | each entry gets its `doc_index` and keeps everything else |
| StreamlitChat.ChunkEntriesShape | streamlit/chat/chat.py:148-156 | each entry of a document is a non-blank chunk under `doc_{d}_chunk_{c}` with its filename |
| StreamlitChat.ChatEntriesAreBatchEntries | streamlit/chat/chat.py:144-156 | the page's entries are the vector store's batch entries with `doc_index` added |
| StreamlitChat.ChatEntriesDocIndex | streamlit/chat/chat.py:151-156 | every `doc_index` is `offset + k` for its document k, and the id is `doc_{doc_index}_chunk_{chunk_index}` |
| StreamlitChat.ChatEntriesDistinct | streamlit/chat/chat.py:144-156 | the ids of one call are pairwise distinct |
| StreamlitChat.AddToCollectionAppends | streamlit/chat/chat.py:133-171 | no documents change nothing; otherwise only the named collection changes (created when missing), and only by appending records |
| StreamlitChat.AddToCollectionIds | streamlit/chat/chat.py:139-171 | when records are appended the collection is returned, the new ids are distinct, and each carries a `doc_index` counted from the record count before the call, from which its id is built |
| StreamlitChat.AddedRecords | streamlit/chat/chat.py:139-168 | a call with documents appends one block of records (possibly empty) whose ids are distinct, built from their `doc_index` and chunk index, and not already stored (ChromaDB skips those); a non-empty block means the collection is returned |
| StreamlitChat.AddToCollectionIdCollision | streamlit/chat/chat.py:141-156 | ids are numbered from the record count, not the document count: a first upload of a blank and a one-chunk document stores `doc_1_chunk_0`, and a second upload of one document builds `doc_1_chunk_0` again, so its chunk is silently not stored |
| StreamlitChat.AddToCollectionKeepsIdsDistinct | streamlit/chat/chat.py:133-171 | a collection whose ids are distinct keeps them distinct |
| StreamlitChat.BuildChatBatch | streamlit/chat/chat.py:144-156 | the document loop builds parallel lists holding exactly the page's entries, or reports that `chunk_text` raised |
| StreamlitChat.AppendDocument | streamlit/chat/chat.py:145-156 | one more document's entries are appended to the parallel lists, which then hold the entries of all documents so far |
| StreamlitChat.AppendChunks | streamlit/chat/chat.py:148-156 | the chunk loop appends exactly the document's non-blank chunks, with their metadata and ids |
| StreamlitChat.ChunkDocument | streamlit/chat/chat.py:146-147 | a blank text gives no chunks; any other gives those of `chunk_text` |
| StreamlitChat.ChatStore.constructor | streamlit/chat/chat.py:133-171 | a store over the given collections and engines |
| StreamlitChat.ChatStore.AddToCollection | streamlit/chat/chat.py:133-171 | the result and new collections are those of the add specification, whose properties the lemmas above state |
| StreamlitChat.ChatStore.SearchKnowledgeBase | streamlit/chat/chat.py:173-195 | the results are those of the search specification on the session's collection |
| StreamlitChat.Zipped | streamlit/chat/chat.py:185-192 | each candidate becomes a result with its content, metadata and distance, in order |
| StreamlitChat.SearchKnowledgeBaseResults | streamlit/chat/chat.py:173-195 | no collection or a failing query give []; otherwise the results are the engine's candidates one for one, in order |
| BettyChat.TempFiles | Betty/streamlit/chat/chat.py:134-140 | the k-th temporary file written is named by the namer's k-th name |
| BettyChat.TempFilesEmpty | Betty/streamlit/chat/chat.py:134-149 | no file is written exactly when every text is blank |
| BettyChat.WriteTempFiles | Betty/streamlit/chat/chat.py:132-140 | the loop writes exactly the temporary files of the specification: one per non-blank text, in order |
| BettyChat.AddToCollection | Betty/streamlit/chat/chat.py:123-157 | all-blank documents give None and change nothing; otherwise the store adds the temporary files, and the collection's name is returned exactly when that reports success |
| BettyChat.WithZeroDistance | Betty/streamlit/chat/chat.py:172 | every result is kept, in order, with distance 0.0 |
| BettyChat.SearchKnowledgeBase | Betty/streamlit/chat/chat.py:159-175 | no collection gives [] and changes nothing; otherwise the store's search with `n_results or` the session value, each result with distance 0.0 |
| BettyChat.DisplayedRelevanceIsOne | Betty/streamlit/chat/chat.py:549 | every result the page shows has relevance 1.00 |
| Mermaid.DiagramsNonEmpty | betty_app.py:368-378 | at most one diagram per match, and none of them empty |
| Mermaid.PartsNonEmpty | betty_app.py:368-374 | the text collected before each match is never empty |
| Mermaid.Remaining | betty_app.py:368-402 | the parts before the matches and after the last one are never empty |
| Mermaid.AsDiagrams | betty_app.py:376-381 | each diagram code is drawn as a diagram, in order |
| Mermaid.AsMarkdown | betty_app.py:405-407 | each part is drawn as markdown, in order |
| Mermaid.Drawable | betty_app.py:405-407 | the final loop draws at most the collected parts |
| Mermaid.DetectAndRenderMermaid | betty_app.py:345-409 | the renderer's result and what it draws are those of the rendering specification |
| Mermaid.ScanMatches | betty_app.py:368-402 | the match loop and the tail: found iff some diagram is drawn, the diagrams in order, and the outside parts |
| Mermaid.ScanLoop | betty_app.py:368-396 | the `for match` loop draws the diagrams in order, collects the parts before each match, and ends at the last match's end |
| Mermaid.ScanStep | betty_app.py:368-396 | one pass of the loop on a match keeps the loop state equal to that of one more match |
| Mermaid.CollectBefore | betty_app.py:370-374 | the stripped text between the previous match and this one is collected exactly when it is not blank |
| Mermaid.CollectDiagram | betty_app.py:376-394 | the stripped body is drawn, and the found flag set, exactly when it is not empty |
| Mermaid.DiagramsThenMarkdown | betty_app.py:376-407 | in a rendering made of diagrams followed by markdown, no markdown block precedes a diagram |
| Mermaid.ShowParts | betty_app.py:405-407 | the final loop draws each non-blank part as markdown |
| Mermaid.DrawableKeepsStripped | betty_app.py:405-407 | parts that are stripped and non-empty are all drawn |
| Mermaid.PartsStripped | betty_app.py:370-374 | every collected part is already stripped |
| Mermaid.RemainingAllDrawn | betty_app.py:368-407 | the final blank filter removes nothing the loops collected |
| Mermaid.DiagramsExist | betty_app.py:376-382 | some diagram is drawn exactly when some match has a non-blank body |
| Mermaid.RenderFound | betty_app.py:350-409 | True exactly when the renderer is available and some match has a non-blank body; a failed render still counts |
| Mermaid.RenderDiagramsFirst | betty_app.py:368-407 | every diagram is drawn before every markdown block |
| Mermaid.PartsOutside | betty_app.py:370-374 | every collected part is the stripped text of a stretch that overlaps no match |
| Mermaid.MatchesOrdered | betty_app.py:362-396 | for matches in order and not overlapping, every earlier match ends by the loop's `last_end` and before the next match starts |
| Mermaid.RemainingOutside | betty_app.py:368-402 | every markdown block is the stripped text of a stretch of the message that overlaps no diagram match |
| Mermaid.BlankDiagramsShowTextTwice | betty_app.py:1350-1355 | when every matched body is blank, the text before the first match is drawn and then the whole message again |
| Mermaid.PartsFirst | betty_app.py:370-374 | the text before the first match is the first collected part |
| BettyApp.LowerIdempotent | betty_app.py:61 | lower-casing twice is lower-casing once |
| BettyApp.ForceReindexIgnoresCase | betty_app.py:61 | the FORCE_REINDEX flag ignores case |
| BettyApp.IsDocFileHasType | betty_app.py:85 | the walk keeps exactly the files the document processor gives a type |
| BettyApp.DocFiles | betty_app.py:83-86 | the kept files are exactly the walked files with a document extension |
| BettyApp.CollectDocFiles | betty_app.py:83-86 | the walk loop keeps the document files in walk order |
| BettyApp.RebuildIff | betty_app.py:89-112 | only a local deployment with documents rebuilds, never over more than 50 records, and then when the collection is missing, the file count changed or it holds fewer than 50 records |
| BettyApp.InitKeepsLargeCollection | betty_app.py:98-102 | a collection of more than 50 records is used as it is, on any deployment: the store is unchanged and the knowledge base is ready |
| BettyApp.InitCloudReadsOnly | betty_app.py:95-146 | a cloud deployment never writes: the store is as the forced delete left it, the knowledge base is always marked ready, with the number of files when a non-empty collection is left and 0 otherwise |
| BettyApp.AppSession.constructor | betty_app.py:54 | a fresh session is not initialised, has no counted files and no messages |
| BettyApp.AppSession.InitializeKnowledgeBase | betty_app.py:52-146 | once ready nothing happens; otherwise the outcome of the initialisation specification; the messages are untouched |
| BettyApp.InitRetriesOnlyFailedLoad | betty_app.py:113-146 | the knowledge base stays unready exactly when a rebuild was needed and loading the files failed, and then the stored file count is kept |
| BettyApp.SearchKnowledgeBase | betty_app.py:337-343 | `n_results or MAX_SEARCH_RESULTS` results, through the reranking search exactly when reranking is configured |
| BettyApp.NeedsResponseIff | betty_app.py:1389-1401 | the page answers exactly when the last message is the user's and the count is odd |
| BettyApp.LastUserBefore | betty_app.py:1367-1371 | the nearest earlier user message, or −1 when there is none |
| BettyApp.NearestUserMessage | betty_app.py:1366-1371 | the backwards loop returns the content of the nearest earlier user message, or none |
| BettyApp.LastUserBeforeUnique | betty_app.py:1367-1371 | a user message with no user message after it before i is the one found |
| BettyApp.LastUserBeforeNone | betty_app.py:1367-1371 | with no earlier user message, none is found |
| BettyApp.NearestAgreesWithPreceding | betty_app.py:1366-1374 | when the message just before an answer is the user's, the main page pairs it with the same question as the chat page |
| BettyApp.PairingDiffersAfterTwoAnswers | betty_app.py:1366-1374 | after two answers in a row, the main page pairs the second with the earlier question and the chat page with nothing |
| BettyApp.Blocks | betty_app.py:1424-1427 | each document becomes its "Document: …\nContent: …" block, in order |
| BettyApp.JoinContainsPart | betty_app.py:1424 | a joined string contains each of its parts |
| BettyApp.ContextHasEveryDocument | betty_app.py:1424-1428 | every retrieved document reaches the prompt, labelled with its filename |
| BettyApp.SourceFiles | betty_app.py:1431 | there are no more cited sources than retrieved documents |
| BettyApp.SourceFilesExactly | betty_app.py:1431 | a filename is cited exactly when some retrieved document comes from it |
| Evaluation.ExactMatch | evaluation/run_evaluation.py:110-112 | the exact match is 0 or 1 |
| Evaluation.ExactMatchSymmetric | evaluation/run_evaluation.py:110-112 | the exact match is symmetric and a text matches itself |
| Evaluation.ExactMatchIgnoresSpace | evaluation/run_evaluation.py:110-112 | surrounding whitespace does not affect the exact match |
| Evaluation.LengthScore | evaluation/run_evaluation.py:139-148 | the length part is at most 3 |
| Evaluation.LengthScoreMonotone | evaluation/run_evaluation.py:139-148 | a larger difference in word count never scores higher |
| Evaluation.ConceptScore | evaluation/run_evaluation.py:150-165 | the concept part is at most 3 |
| Evaluation.LengthPart | evaluation/run_evaluation.py:131-143 | the length part of two texts, from their word counts, is at most 3 |
| Evaluation.ConceptPart | evaluation/run_evaluation.py:145-161 | the concept part of two texts, from their lower-cased keyword sets, is at most 3 |
| Evaluation.PrecisionRange | evaluation/run_evaluation.py:126-168 | the precision is at most 3, is 3 exactly when both parts are 3, and does not depend on the target |
| Evaluation.PrecisionSelf | evaluation/run_evaluation.py:126-168 | an answer equal to an expected text with keywords scores 3 |
| Evaluation.PrecisionEmptyExpected | evaluation/run_evaluation.py:126-168 | an empty expected answer caps the precision at 1 |
| Evaluation.AdherenceScore | evaluation/run_evaluation.py:208-217 | the adherence score is at most 3 |
| Evaluation.Adherence | evaluation/run_evaluation.py:170-217 | the rule checks count the violations and map them to the score |
| Evaluation.AdherenceNeverZero | evaluation/run_evaluation.py:170-217 | at most three rules can be broken, so the score is never 0; only an outcome rewrite falls to 1, a classification scores at least 2 and other categories 3 |
| Evaluation.AdherenceLowest | evaluation/run_evaluation.py:170-217 | an outcome rewrite scores 1 exactly when it is long, has a digit and uses a how-verb |
| Evaluation.ExplanationRange | evaluation/run_evaluation.py:219-265 | the explanation is at most 3; the two answer modes score at least 1 and 3 for at most 15 words; elsewhere 0 means no reasoning or evidence word and at most 10 words |
| Feedback.AnalyzeResponseQuality | utils/feedback_manager.py:71-117 | the length of the answer, and each flag is set exactly when one of its indicators occurs in the lower-cased answer |
| Feedback.ObtScoreValues | utils/feedback_manager.py:95-104 | the compliance score is one of 0, 0.3, 0.4, 0.6, 0.7, 1.0; 1.0 exactly with all three groups and 0 with none |
| Feedback.QualityScoreRange | utils/feedback_manager.py:106-117 | the quality lies in 0.5..1.0, the cap never bites, and it is 1.0 exactly for a long answer with all three groups |
| Feedback.ShortPlainAnswer | utils/feedback_manager.py:71-117 | a short answer with no indicator scores 0.5 quality and 0 compliance |

## Left out

- File parsing: PyPDF2, python-docx, openpyxl, the csv module's dialect sniffing and quoting, and the UTF-8/Latin-1 decoding are foreign libraries. The renderers work on pages, paragraphs, tables, rows and grids that are already parsed; a parse that raises is an absent document.
- Tokenizer and sentence splitter: tiktoken and NLTK are function parameters, and any of their calls may fail. Nothing is assumed about decoding a partial window of tokens.
- Embeddings, nearest-neighbour search and the cross-encoder: the embedding model, the candidates ChromaDB returns (with their order and distances) and the cross-encoder's scores are inputs. A collection is its in-memory sequence of records; model loading and caching are not part of this model.
- Floating point: distances and scores are reals. `round(d, 6)` becomes a monotone integer key (`Ranking.RoundedDistance`). Ratios in the rubrics are compared by integer cross-multiplication, and feedback scores are kept in integer tenths.
- The retriever's composite score (similarity, recency from the clock, keyword overlap) is a parameter. Only the ordering, renumbering and truncation around it are modelled.
- The regular-expression search for Mermaid blocks is an input: its matches, in order and not overlapping. Rendering with `st_mermaid` is modelled only as the sequence of diagrams and markdown blocks a page emits; the expanders, code views and error messages are not.
- Lower-casing, `isdigit` and `re.IGNORECASE` are modelled on ASCII only. There is no Unicode case folding.
- Streamlit UI and the messages it shows (`st.warning`, `st.error`, spinners, layout, HTML and scripts) are not part of this model. The values the pages keep in `st.session_state` are arguments or fields of a session object.
- The language-model calls, the prompt text, the SQLite storage of feedback, hashing and `datetime.now()` are I/O and are not part of this model. `query_betty` in evaluation/run_evaluation.py is not part of this model either.
- Environment and deployment: environment variables and the cloud/local detection are parameters (`isLocal`). The sqlite3 module swap is not part of this model, and `os.walk` is replaced by the list of walked files.
- `BettyChat.AddToCollection`: the temporary files get their names from a `tempName` parameter, and writing and deleting them is not modelled. The link between a file's text and what the store later reads back from it is the store's `read` parameter.
- `BettyApp.SourceFiles`: the sources are modelled as a set. The order Python's `list(set(...))` happens to give them is not modelled.
- `RagRetriever.HealthCheck`: the outcome of the chunker's own self-test is a parameter.
- `RagChunker.RecursiveChunk`: Python's recursion limit is not a fixed number of `_split_text` calls (it depends on the frames already on the stack when `chunk_text` runs), so the model takes it as a parameter `depth`, the number of nested calls still allowed. A chunking that needs more nested calls gives None, which the strategy fallback of `chunk_text` handles like the `RecursionError` Python raises (`RagChunker.RecursiveChunksLimit`, `RagChunkText.ChunkTextTooDeep`). The endless recursion of the word-boundary fallback, when the split is not beyond the overlap, is None at every depth (`RagChunker.SplitTextEndless`).
- `BettyApp.AppSession.InitializeKnowledgeBase`: the store's calls (`list_collections`, `get_or_create_collection`, `count`, `delete_collection`) are total in the model, so the `except` branch of `initialize_knowledge_base` (betty_app.py:148-150), which marks the knowledge base ready without recording a file count, is not modelled; loading the files reports failure through its result, as `add_documents_from_files` does.
- `Chroma.CollectionAdd`: ChromaDB is not part of this model; `collection.add` is modelled as ChromaDB behaves, raising on a batch that repeats an id and skipping records whose id is already stored, so a collection never holds two records under one id.
- The uploading form of streamlit/chat/chat.py (its size check, MIME dispatch and the call to `clean_text`) is UI glue and is not modelled. The documents given to `add_to_collection` are its inputs.
- Scripts (`force_reindex.py`, `fix_embedding_dimensions.py`), the configuration module of chat/config/ that creates directories at import, re-export modules and test scripts are not part of this model.

## Findings

| source | as written | input that shows it | evidently intended | confidence | as-written member | corrected member |
|---|---|---|---|---|---|---|
| streamlit/chat/chat.py:124 | the replacement `r'\\1 \\2'` is the literal text backslash, '1', space, backslash, '2', so the punctuation mark and the letter are replaced by it | "a.b" becomes `a\1 \2` | a space inserted after the mark: "a. b" | not executed | StreamlitChat.CleanTextAsWrittenLosesLetters | StreamlitChat.CleanTextIntendedSpaces |
| streamlit/chat/chat.py:131 | `"\\n".join` joins the lines with the two characters backslash and 'n' | "a\nb" becomes `a\nb` written as four characters, a single line | the lines joined with a newline: "a", newline, "b" | not executed | StreamlitChat.CleanTextAsWrittenGluesLines | StreamlitChat.CleanTextIntendedKeepsLines |
