/**
 * `_process_files_for_collection`, identical in utils/vector_store.py and
 * Betty/utils/vector_store.py: read each file, keep the PDF, DOCX and TXT
 * ones with non-blank text, clean the text and chunk it.
 */
module Ingest {
  import opened Wrappers
  import opened Text
  import opened Normalizer
  import opened Extractors
  import opened DocumentProcessor
  import opened TokenChunker
  import opened Chroma

  /** The chunking collaborators and `AppConfig`'s chunk settings. */
  datatype Chunking = Chunking(tok: Tokenizer, split: SentenceSplitter, nltkAvailable: bool, cfg: ChunkConfig)

  /** Opening and parsing the file at a path; `None` when opening it raises. */
  type FileReader = string -> Option<ParsedContent>

  /** The extractor the store uses for a type: PDF, DOCX and TXT only. */
  function StoreExtract(t: FileType, c: ParsedContent): Option<string> {
    match t
    case Pdf => Some(PdfText(c.pdf))
    case Docx => Some(DocxText(c.docx))
    case Txt => Some(TxtText(c.text))
    case _ => None
  }

  /** `semantic_chunk_text` or `chunk_text` with default arguments, by `USE_SEMANTIC_CHUNKING`. */
  function ChunkCleaned(ch: Chunking, cleaned: string): seq<string> {
    if ch.cfg.useSemanticChunking then SemanticChunks(ch.tok, ch.split, ch.nltkAvailable, ch.cfg, cleaned, 0, 0)
    else TokenChunks(ch.tok, ch.cfg, cleaned, 0, 0)
  }

  /** One iteration of the loop: the document a path yields, or `None` when it is skipped. */
  function ProcessFile(read: FileReader, ch: Chunking, path: string): Option<DocumentData> {
    var filename := Basename(path);
    match read(path)
    case None => None
    case Some(content) =>
      match GetFileType(filename)
      case None => None
      case Some(t) =>
        match StoreExtract(t, content)
        case None => None
        case Some(text) =>
          if IsBlank(text) then None
          else Some(DocumentData(filename, ChunkCleaned(ch, CleanText(text))))
  }

  function ProcessFiles(read: FileReader, ch: Chunking, paths: seq<string>): seq<DocumentData> {
    if paths == [] then []
    else
      var d := ProcessFile(read, ch, paths[|paths| - 1]);
      ProcessFiles(read, ch, paths[..|paths| - 1]) + (if d.Some? then [d.value] else [])
  }

  method ProcessFilesForCollection(read: FileReader, ch: Chunking, filePaths: seq<string>) returns (documentsData: seq<DocumentData>)
    ensures documentsData == ProcessFiles(read, ch, filePaths)
  {
    documentsData := [];
    var i := 0;
    while i < |filePaths|
      invariant i <= |filePaths|
      invariant documentsData == ProcessFiles(read, ch, filePaths[..i])
    {
      assert filePaths[..i + 1][..i] == filePaths[..i];
      var filePath := filePaths[i];
      var filename := Basename(filePath);
      var fileBytes := read(filePath);
      if fileBytes.Some? {
        var fileType := GetFileType(filename);
        if fileType.Some? {
          var text := StoreExtract(fileType.value, fileBytes.value);
          if text.Some? && !IsBlank(text.value) {
            var cleanedText := CleanText(text.value);
            var chunks := ChunkCleaned(ch, cleanedText);
            documentsData := documentsData + [DocumentData(filename, chunks)];
          }
        }
      }
      i := i + 1;
    }
    assert filePaths[..i] == filePaths;
  }

  /** Only PDF, DOCX and TXT files have a store extractor. */
  lemma StoreExtractTypes(t: FileType, c: ParsedContent)
    ensures StoreExtract(t, c).Some? <==> t == Pdf || t == Docx || t == Txt
  {
  }

  /**
   * A file yields a document exactly when it can be read, has a type with a
   * store extractor, and its text is not blank; the document carries its
   * basename and the chunks of the cleaned text.
   */
  lemma ProcessFileExactly(read: FileReader, ch: Chunking, path: string)
    ensures ProcessFile(read, ch, path).Some? ==>
      read(path).Some? && GetFileType(Basename(path)).Some?
      && StoreExtract(GetFileType(Basename(path)).value, read(path).value).Some?
      && !IsBlank(StoreExtract(GetFileType(Basename(path)).value, read(path).value).value)
    ensures read(path).Some? && GetFileType(Basename(path)).Some?
      && StoreExtract(GetFileType(Basename(path)).value, read(path).value).Some?
      && !IsBlank(StoreExtract(GetFileType(Basename(path)).value, read(path).value).value)
      ==> ProcessFile(read, ch, path).Some?
    ensures ProcessFile(read, ch, path).Some? ==>
      ProcessFile(read, ch, path).value == DocumentData(Basename(path),
        ChunkCleaned(ch, CleanText(StoreExtract(GetFileType(Basename(path)).value, read(path).value).value)))
  {
  }

  /** A file whose type has no store extractor yields nothing. */
  lemma ProcessFileNoExtractor(read: FileReader, ch: Chunking, path: string, t: FileType)
    requires GetFileType(Basename(path)) == Some(t) && (t == Md || t == Csv || t == Xlsx)
    ensures ProcessFile(read, ch, path).None?
  {
  }

  /** Markdown, CSV and XLSX files, which `get_file_type` accepts, are skipped. */
  lemma ProcessFileSkipsOtherTypes(read: FileReader, ch: Chunking, path: string)
    requires EndsWith(Lower(Basename(path)), ".md") || EndsWith(Lower(Basename(path)), ".csv")
      || EndsWith(Lower(Basename(path)), ".xlsx")
    ensures ProcessFile(read, ch, path).None?
  {
    var filename := Basename(path);
    var t := if EndsWith(Lower(filename), ".md") then Md
      else if EndsWith(Lower(filename), ".csv") then Csv
      else Xlsx;
    assert EndsWith(Lower(filename), Extension(t));
    GetFileTypeIff(filename, t);
    ProcessFileNoExtractor(read, ch, path, t);
  }

  /** One step of `ProcessFiles`: the documents of all but the last path, then the last one's. */
  lemma ProcessFilesUnfold(read: FileReader, ch: Chunking, paths: seq<string>)
    requires paths != []
    ensures var last := ProcessFile(read, ch, paths[|paths| - 1]);
      ProcessFiles(read, ch, paths) == ProcessFiles(read, ch, paths[..|paths| - 1]) + (if last.Some? then [last.value] else [])
  {
  }

  /** When no path yields a document, there are none. */
  lemma {:induction false} ProcessFilesNone(read: FileReader, ch: Chunking, paths: seq<string>)
    requires forall i :: 0 <= i < |paths| ==> ProcessFile(read, ch, paths[i]).None?
    ensures ProcessFiles(read, ch, paths) == []
  {
    if paths != [] {
      var init := paths[..|paths| - 1];
      forall i | 0 <= i < |init|
        ensures ProcessFile(read, ch, init[i]).None?
      {
        assert init[i] == paths[i];
      }
      ProcessFilesNone(read, ch, init);
    }
  }

  /** At most one document per path. */
  lemma {:induction false} ProcessFilesLength(read: FileReader, ch: Chunking, paths: seq<string>)
    ensures |ProcessFiles(read, ch, paths)| <= |paths|
  {
    if paths != [] {
      ProcessFilesLength(read, ch, paths[..|paths| - 1]);
    }
  }

  /** Every document comes from one of the paths. */
  lemma {:induction false} ProcessFilesSound(read: FileReader, ch: Chunking, paths: seq<string>, d: DocumentData)
    requires d in ProcessFiles(read, ch, paths)
    ensures exists i :: 0 <= i < |paths| && ProcessFile(read, ch, paths[i]) == Some(d)
  {
    var init := paths[..|paths| - 1];
    var last := ProcessFile(read, ch, paths[|paths| - 1]);
    var before := ProcessFiles(read, ch, init);
    ProcessFilesUnfold(read, ch, paths);
    assert ProcessFiles(read, ch, paths) == before + (if last.Some? then [last.value] else []);
    if d in before {
      ProcessFilesSound(read, ch, init, d);
      var i :| 0 <= i < |init| && ProcessFile(read, ch, init[i]) == Some(d);
      assert init[i] == paths[i];
    } else {
      assert last == Some(d);
    }
  }

  /** Every path that yields a document contributes it. */
  lemma {:induction false} ProcessFilesComplete(read: FileReader, ch: Chunking, paths: seq<string>, i: nat)
    requires i < |paths| && ProcessFile(read, ch, paths[i]).Some?
    ensures ProcessFile(read, ch, paths[i]).value in ProcessFiles(read, ch, paths)
  {
    var init := paths[..|paths| - 1];
    var last := ProcessFile(read, ch, paths[|paths| - 1]);
    var before := ProcessFiles(read, ch, init);
    var tail := if last.Some? then [last.value] else [];
    ProcessFilesUnfold(read, ch, paths);
    assert ProcessFiles(read, ch, paths) == before + tail;
    var d := ProcessFile(read, ch, paths[i]).value;
    if i < |init| {
      assert init[i] == paths[i];
      ProcessFilesComplete(read, ch, init, i);
      assert d in before;
      assert d in before + tail;
    } else {
      assert i == |paths| - 1;
      assert tail == [d];
      assert d in before + tail;
    }
  }
}
