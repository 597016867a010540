/**
 * `get_file_type` and the `process_uploaded_file` dispatch of
 * utils/document_processor.py.
 */
module DocumentProcessor {
  import opened Wrappers
  import opened Text
  import opened Normalizer
  import opened Extractors
  import Settings
  import TokenChunker

  datatype FileType = Pdf | Docx | Txt | Md | Csv | Xlsx

  function Extension(t: FileType): string {
    match t
    case Pdf => ".pdf"
    case Docx => ".docx"
    case Txt => ".txt"
    case Md => ".md"
    case Csv => ".csv"
    case Xlsx => ".xlsx"
  }

  /** `get_file_type`: the type named by the file's suffix, compared case-insensitively. */
  function GetFileType(filename: string): Option<FileType> {
    var lower := Lower(filename);
    if EndsWith(lower, ".pdf") then Some(Pdf)
    else if EndsWith(lower, ".docx") then Some(Docx)
    else if EndsWith(lower, ".txt") then Some(Txt)
    else if EndsWith(lower, ".md") then Some(Md)
    else if EndsWith(lower, ".csv") then Some(Csv)
    else if EndsWith(lower, ".xlsx") then Some(Xlsx)
    else None
  }

  /** Two suffixes that differ in their `k`-th character from the end cannot both end a string. */
  lemma NotBoth(s: string, a: string, b: string, k: nat)
    requires 1 <= k <= |a| && k <= |b| && a[|a| - k] != b[|b| - k]
    ensures !(EndsWith(s, a) && EndsWith(s, b))
  {
    if EndsWith(s, a) {
      assert s[|s| - |a|..][|a| - k] == s[|s| - k];
    }
    if EndsWith(s, b) {
      assert s[|s| - |b|..][|b| - k] == s[|s| - k];
    }
  }

  /**
   * A name has a type exactly when its lower-cased form ends with that
   * type's extension: no name ends with two of them, so the order of the
   * tests does not matter.
   */
  lemma GetFileTypeIff(filename: string, t: FileType)
    ensures GetFileType(filename) == Some(t) <==> EndsWith(Lower(filename), Extension(t))
  {
    var s := Lower(filename);
    match t
    case Pdf =>
    case Docx =>
      NotBoth(s, ".pdf", ".docx", 1);
    case Txt =>
      NotBoth(s, ".pdf", ".txt", 1);
      NotBoth(s, ".docx", ".txt", 1);
    case Md =>
      NotBoth(s, ".pdf", ".md", 1);
      NotBoth(s, ".docx", ".md", 1);
      NotBoth(s, ".txt", ".md", 1);
    case Csv =>
      NotBoth(s, ".pdf", ".csv", 1);
      NotBoth(s, ".docx", ".csv", 1);
      NotBoth(s, ".txt", ".csv", 1);
      NotBoth(s, ".md", ".csv", 1);
    case Xlsx =>
      NotBoth(s, ".pdf", ".xlsx", 1);
      NotBoth(s, ".docx", ".xlsx", 2);
      NotBoth(s, ".txt", ".xlsx", 1);
      NotBoth(s, ".md", ".xlsx", 1);
      NotBoth(s, ".csv", ".xlsx", 1);
  }

  /** A name has no type exactly when it ends with none of the extensions. */
  lemma GetFileTypeNone(filename: string)
    ensures GetFileType(filename).None? <==> forall u: FileType :: !EndsWith(Lower(filename), Extension(u))
  {
    forall u: FileType {
      GetFileTypeIff(filename, u);
    }
  }

  /**
   * What the parsing libraries make of an upload's bytes.  Each reader's
   * failure is `None`; `text` is the UTF-8 or else Latin-1 decoding.
   */
  datatype ParsedContent = ParsedContent(
    pdf: Option<seq<Option<string>>>,
    docx: Option<DocxDocument>,
    text: Option<string>,
    csv: Option<CsvContent>,
    workbook: Option<seq<Sheet>>,
    openpyxlAvailable: bool)

  /** An uploaded file: its name, its size in bytes and its parsed content. */
  datatype UploadedFile = UploadedFile(name: string, size: int, content: ParsedContent)

  /** `extract_text_from_txt`. */
  function TxtText(text: Option<string>): string {
    match text
    case Some(t) => t
    case None => ""
  }

  /** The raw text the extractor for `t` produces. */
  function ExtractedText(t: FileType, c: ParsedContent): string {
    match t
    case Pdf => PdfText(c.pdf)
    case Docx => DocxText(c.docx)
    case Txt => TxtText(c.text)
    case Md => TxtText(c.text)
    case Csv => CsvText(c.csv)
    case Xlsx => XlsxText(c.openpyxlAvailable, c.workbook)
  }

  function SizeLimit(maxFileSizeMb: int): int {
    maxFileSizeMb * 1024 * 1024
  }

  /** `process_uploaded_file`; `maxFileSizeMb` is `AppConfig.MAX_FILE_SIZE_MB`. */
  function ProcessUploadedFile(file: Option<UploadedFile>, maxFileSizeMb: int): string {
    match file
    case None => ""
    case Some(f) =>
      if f.size > SizeLimit(maxFileSizeMb) then ""
      else
        match GetFileType(f.name)
        case None => ""
        case Some(t) => CleanText(ExtractedText(t, f.content))
  }

  /** A missing, oversized or unsupported upload gives "". */
  lemma ProcessUploadedFileRejects(file: Option<UploadedFile>, maxFileSizeMb: int)
    requires file.None? || file.value.size > SizeLimit(maxFileSizeMb) || GetFileType(file.value.name).None?
    ensures ProcessUploadedFile(file, maxFileSizeMb) == ""
  {
  }

  /** An upload within the limit whose name has a type is cleaned text of that type's extractor. */
  lemma ProcessUploadedAccepted(f: UploadedFile, maxFileSizeMb: int, t: FileType)
    requires f.size <= SizeLimit(maxFileSizeMb) && GetFileType(f.name) == Some(t)
    ensures ProcessUploadedFile(Some(f), maxFileSizeMb) == CleanText(ExtractedText(t, f.content))
  {
  }

  /** An accepted Markdown file is read by the plain-text reader, and the result is cleaned. */
  lemma ProcessUploadedMarkdown(f: UploadedFile, maxFileSizeMb: int)
    requires f.size <= SizeLimit(maxFileSizeMb) && EndsWith(Lower(f.name), ".md")
    ensures ProcessUploadedFile(Some(f), maxFileSizeMb) == CleanText(TxtText(f.content.text))
  {
    GetFileTypeIff(f.name, Md);
    ProcessUploadedAccepted(f, maxFileSizeMb, Md);
    assert ExtractedText(Md, f.content) == TxtText(f.content.text);
  }

  /** Whatever `process_uploaded_file` returns is already clean: cleaning it again changes nothing. */
  lemma ProcessedIsClean(file: Option<UploadedFile>, maxFileSizeMb: int)
    ensures CleanText(ProcessUploadedFile(file, maxFileSizeMb)) == ProcessUploadedFile(file, maxFileSizeMb)
  {
    var r := ProcessUploadedFile(file, maxFileSizeMb);
    if file.Some? && file.value.size <= SizeLimit(maxFileSizeMb) && GetFileType(file.value.name).Some? {
      var raw := ExtractedText(GetFileType(file.value.name).value, file.value.content);
      assert r == CleanText(raw);
      CleanTextIdempotent(raw);
    } else {
      assert r == "";
    }
  }

  /**
   * With the default limit of 10 MB, an upload of a supported type is
   * extracted up to and including 10 485 760 bytes, and gives "" from one
   * byte more on.
   */
  lemma DefaultSizeLimit(f: UploadedFile, t: FileType)
    requires GetFileType(f.name) == Some(t)
    ensures f.size <= 10485760 ==>
      ProcessUploadedFile(Some(f), Settings.Defaults.maxFileSizeMb) == CleanText(ExtractedText(t, f.content))
    ensures f.size >= 10485761 ==> ProcessUploadedFile(Some(f), Settings.Defaults.maxFileSizeMb) == ""
  {
    assert SizeLimit(Settings.Defaults.maxFileSizeMb) == 10485760;
    if f.size <= 10485760 {
      ProcessUploadedAccepted(f, Settings.Defaults.maxFileSizeMb, t);
    } else {
      ProcessUploadedFileRejects(Some(f), Settings.Defaults.maxFileSizeMb);
    }
  }

  /**
   * A configuration that passes `validate_config` keeps its overlap when it
   * is used by `chunk_text` with zero arguments: the windows advance by
   * `CHUNK_SIZE - CHUNK_OVERLAP`, a positive step.
   */
  lemma ValidConfigWindows(c: Settings.AppConfig, useSemantic: bool)
    requires Settings.ValidateConfig(c)
    ensures var cfg := TokenChunker.ChunkConfig(c.chunkSize, c.chunkOverlap, useSemantic);
      TokenChunker.WindowParams(cfg, 0, 0) == (c.chunkSize, c.chunkOverlap)
      && c.chunkSize - c.chunkOverlap > 0
  {
  }
}
