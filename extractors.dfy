/**
 * The text renderers of utils/document_processor.py, over documents the
 * parsing libraries (PyPDF2, python-docx, the csv module, openpyxl) have
 * already read.  A parse that raises is an absent document; each renderer
 * then returns "".
 */
module Extractors {
  import opened Wrappers
  import opened Text
  import opened PySeq

  // ------------------------------------------------------------ PDF

  /** The kept page texts: those that were extracted and are not blank. */
  function KeptPages(pages: seq<Option<string>>): seq<string> {
    if pages == [] then []
    else
      var last := pages[|pages| - 1];
      KeptPages(pages[..|pages| - 1]) + (if last.Some? && !IsBlank(last.value) then [last.value] else [])
  }

  /** `extract_text_from_pdf`: a page whose extraction raised or yields `None` is `None`. */
  function PdfText(pdf: Option<seq<Option<string>>>): string {
    match pdf
    case None => ""
    case Some(pages) => Join("\n", KeptPages(pages))
  }

  method ExtractPdf(pdf: Option<seq<Option<string>>>) returns (text: string)
    ensures text == PdfText(pdf)
  {
    if pdf.None? {
      return "";
    }
    var pages := pdf.value;
    var pagesText: seq<string> := [];
    var i := 0;
    while i < |pages|
      invariant i <= |pages|
      invariant pagesText == KeptPages(pages[..i])
    {
      assert pages[..i + 1][..i] == pages[..i];
      var page := pages[i];
      if page.Some? && !IsBlank(page.value) {
        pagesText := pagesText + [page.value];
      }
      i := i + 1;
    }
    assert pages[..i] == pages;
    return Join("\n", pagesText);
  }

  lemma {:induction false} KeptPagesExactly(pages: seq<Option<string>>)
    ensures forall t :: t in KeptPages(pages) <==> exists i :: 0 <= i < |pages| && pages[i] == Some(t) && !IsBlank(t)
  {
    if pages != [] {
      var init := pages[..|pages| - 1];
      KeptPagesExactly(init);
      forall t
        ensures t in KeptPages(pages) <==> exists i :: 0 <= i < |pages| && pages[i] == Some(t) && !IsBlank(t)
      {
        if t in KeptPages(init) {
          var i :| 0 <= i < |init| && init[i] == Some(t) && !IsBlank(t);
          assert pages[i] == Some(t);
        }
        if exists i :: 0 <= i < |pages| && pages[i] == Some(t) && !IsBlank(t) {
          var i :| 0 <= i < |pages| && pages[i] == Some(t) && !IsBlank(t);
          if i < |init| {
            assert init[i] == Some(t);
          }
        }
      }
    }
  }

  lemma JoinEmptyIff(sep: string, parts: seq<string>)
    requires forall i :: 0 <= i < |parts| ==> parts[i] != []
    ensures Join(sep, parts) == [] <==> parts == []
  {
    if |parts| >= 2 {
      assert |Join(sep, parts)| >= |parts[0]|;
    }
  }

  /**
   * The PDF text holds exactly the pages with non-blank text, in order, and
   * is empty exactly when no page has any.
   */
  lemma PdfTextEmptyIff(pages: seq<Option<string>>)
    ensures PdfText(Some(pages)) == [] <==> forall i :: 0 <= i < |pages| ==> pages[i].None? || IsBlank(pages[i].value)
    ensures forall t :: t in KeptPages(pages) <==> exists i :: 0 <= i < |pages| && pages[i] == Some(t) && !IsBlank(t)
  {
    KeptPagesExactly(pages);
    var kept := KeptPages(pages);
    assert forall i :: 0 <= i < |kept| ==> kept[i] != [] by {
      forall i | 0 <= i < |kept|
        ensures kept[i] != []
      {
        assert kept[i] in kept;
      }
    }
    JoinEmptyIff("\n", kept);
    if kept == [] {
      forall i | 0 <= i < |pages| && pages[i].Some?
        ensures IsBlank(pages[i].value)
      {
        var t := pages[i].value;
        assert pages[i] == Some(t);
        assert t !in kept;
      }
    } else {
      assert kept[0] in kept;
    }
  }

  // ------------------------------------------------------------ DOCX

  /** A paragraph with its style name; "" stands for a missing style or name. */
  datatype Paragraph = Paragraph(text: string, style: string)

  /** Paragraphs, then tables as rows of cell texts. */
  datatype DocxDocument = DocxDocument(paragraphs: seq<Paragraph>, tables: seq<seq<seq<string>>>)

  function Hashes(n: nat): (r: string)
    ensures |r| == n && forall i :: 0 <= i < n ==> r[i] == '#'
  {
    seq(n, i => '#')
  }

  /** The level of a "Heading N" style: the style with "Heading " removed, if it is all digits. */
  function HeadingLevel(style: string): Option<nat> {
    var level := ReplaceAll(style, "Heading ", "");
    if IsDigits(level) then Some(DigitsValue(level)) else None
  }

  /** The part a paragraph contributes, or `None` when it is blank. */
  function ParagraphPart(p: Paragraph): Option<string> {
    var text := Strip(p.text);
    if text == [] then None
    else if StartsWith(p.style, "Heading") then
      match HeadingLevel(p.style)
      case Some(level) => Some("\n" + Hashes(Min(level, 6)) + " " + text + "\n")
      case None => Some("\n## " + text + "\n")
    else if StartsWith(p.style, "List") then Some("• " + text)
    else Some(text)
  }

  function ParagraphParts(ps: seq<Paragraph>): seq<string> {
    if ps == [] then []
    else
      var part := ParagraphPart(ps[|ps| - 1]);
      ParagraphParts(ps[..|ps| - 1]) + (if part.Some? then [part.value] else [])
  }

  /** The stripped, non-empty cell texts of a table row. */
  function RowCells(cells: seq<string>): seq<string> {
    if cells == [] then []
    else
      var t := Strip(cells[|cells| - 1]);
      RowCells(cells[..|cells| - 1]) + (if t != [] then [t] else [])
  }

  function TableContent(rows: seq<seq<string>>): seq<string> {
    if rows == [] then []
    else
      var kept := RowCells(rows[|rows| - 1]);
      TableContent(rows[..|rows| - 1]) + (if kept != [] then [Join(" | ", kept)] else [])
  }

  /** A table with content is bracketed by table markers; an empty one adds nothing. */
  function TableParts(rows: seq<seq<string>>): seq<string> {
    var content := TableContent(rows);
    if content == [] then [] else ["\n--- Table ---"] + content + ["--- End Table ---\n"]
  }

  function TablesParts(tables: seq<seq<seq<string>>>): seq<string> {
    if tables == [] then []
    else TablesParts(tables[..|tables| - 1]) + TableParts(tables[|tables| - 1])
  }

  /** `extract_text_from_docx`. */
  function DocxText(docx: Option<DocxDocument>): string {
    match docx
    case None => ""
    case Some(d) => Join("\n", ParagraphParts(d.paragraphs) + TablesParts(d.tables))
  }

  method RenderParagraph(p: Paragraph) returns (part: Option<string>)
    ensures part == ParagraphPart(p)
  {
    var text := Strip(p.text);
    if text == [] {
      return None;
    }
    var styleName := p.style;
    if StartsWith(styleName, "Heading") {
      var level := ReplaceAll(styleName, "Heading ", "");
      if IsDigits(level) {
        var headingLevel := DigitsValue(level);
        var prefix := Hashes(Min(headingLevel, 6));
        return Some("\n" + prefix + " " + text + "\n");
      } else {
        return Some("\n## " + text + "\n");
      }
    } else if StartsWith(styleName, "List") {
      return Some("• " + text);
    } else {
      return Some(text);
    }
  }

  lemma RowCellsSnoc(cells: seq<string>, c: nat)
    requires c < |cells|
    ensures var t := Strip(cells[c]);
      RowCells(cells[..c + 1]) == RowCells(cells[..c]) + (if t != [] then [t] else [])
  {
    assert cells[..c + 1][..c] == cells[..c];
  }

  lemma TableContentSnoc(rows: seq<seq<string>>, r: nat)
    requires r < |rows|
    ensures var kept := RowCells(rows[r]);
      TableContent(rows[..r + 1]) == TableContent(rows[..r]) + (if kept != [] then [Join(" | ", kept)] else [])
  {
    assert rows[..r + 1][..r] == rows[..r];
  }

  method RenderTable(rows: seq<seq<string>>) returns (parts: seq<string>)
    ensures parts == TableParts(rows)
  {
    var tableContent: seq<string> := [];
    var r := 0;
    while r < |rows|
      invariant r <= |rows|
      invariant tableContent == TableContent(rows[..r])
    {
      TableContentSnoc(rows, r);
      var cells := rows[r];
      var rowCells: seq<string> := [];
      var c := 0;
      while c < |cells|
        invariant c <= |cells|
        invariant rowCells == RowCells(cells[..c])
      {
        RowCellsSnoc(cells, c);
        var cellText := Strip(cells[c]);
        if cellText != [] {
          rowCells := rowCells + [cellText];
        }
        c := c + 1;
      }
      assert cells[..c] == cells;
      if rowCells != [] {
        tableContent := tableContent + [Join(" | ", rowCells)];
      }
      r := r + 1;
    }
    assert rows[..r] == rows;
    if tableContent == [] {
      return [];
    }
    return ["\n--- Table ---"] + tableContent + ["--- End Table ---\n"];
  }

  lemma ParagraphPartsSnoc(ps: seq<Paragraph>, i: nat)
    requires i < |ps|
    ensures var part := ParagraphPart(ps[i]);
      ParagraphParts(ps[..i + 1]) == ParagraphParts(ps[..i]) + (if part.Some? then [part.value] else [])
  {
    assert ps[..i + 1][..i] == ps[..i];
  }

  method RenderParagraphs(ps: seq<Paragraph>) returns (parts: seq<string>)
    ensures parts == ParagraphParts(ps)
  {
    parts := [];
    var i := 0;
    while i < |ps|
      invariant i <= |ps|
      invariant parts == ParagraphParts(ps[..i])
    {
      ParagraphPartsSnoc(ps, i);
      var part := RenderParagraph(ps[i]);
      if part.Some? {
        parts := parts + [part.value];
      }
      i := i + 1;
    }
    assert ps[..i] == ps;
  }

  lemma TablesPartsSnoc(tables: seq<seq<seq<string>>>, t: nat)
    requires t < |tables|
    ensures TablesParts(tables[..t + 1]) == TablesParts(tables[..t]) + TableParts(tables[t])
  {
    assert tables[..t + 1][..t] == tables[..t];
  }

  method RenderTables(tables: seq<seq<seq<string>>>) returns (parts: seq<string>)
    ensures parts == TablesParts(tables)
  {
    parts := [];
    var t := 0;
    while t < |tables|
      invariant t <= |tables|
      invariant parts == TablesParts(tables[..t])
    {
      TablesPartsSnoc(tables, t);
      var tableParts := RenderTable(tables[t]);
      parts := parts + tableParts;
      t := t + 1;
    }
    assert tables[..t] == tables;
  }

  method ExtractDocx(docx: Option<DocxDocument>) returns (text: string)
    ensures text == DocxText(docx)
  {
    if docx.None? {
      return "";
    }
    var paragraphParts := RenderParagraphs(docx.value.paragraphs);
    var tableParts := RenderTables(docx.value.tables);
    return Join("\n", paragraphParts + tableParts);
  }

  /**
   * A paragraph contributes nothing exactly when its text is blank, and
   * otherwise a part holding its stripped text; a "Heading N" style gives
   * min(N, 6) hashes.
   */
  lemma ParagraphPartShape(p: Paragraph)
    ensures ParagraphPart(p).None? <==> IsBlank(p.text)
    ensures ParagraphPart(p).Some? ==> Contains(ParagraphPart(p).value, Strip(p.text))
    ensures StartsWith(p.style, "Heading") && HeadingLevel(p.style).Some? && !IsBlank(p.text) ==>
      StartsWith(ParagraphPart(p).value, "\n" + Hashes(Min(HeadingLevel(p.style).value, 6)) + " ")
  {
    StripEmptyIffBlank(p.text);
    var t := Strip(p.text);
    if t != [] {
      if StartsWith(p.style, "Heading") {
        match HeadingLevel(p.style)
        case Some(level) =>
          var pre := "\n" + Hashes(Min(level, 6)) + " ";
          ContainsMiddle(pre, t, "\n");
          assert ParagraphPart(p).value == pre + t + "\n";
          assert (pre + t + "\n")[..|pre|] == pre;
        case None =>
          ContainsMiddle("\n## ", t, "\n");
      } else if StartsWith(p.style, "List") {
        ContainsMiddle("• ", t, "");
        assert "• " + t + "" == "• " + t;
      } else {
        ContainsMiddle("", t, "");
        assert "" + t + "" == t;
      }
    }
  }

  // ------------------------------------------------------------ CSV

  /** Rows as the csv module yields them, and which decoding succeeded. */
  datatype CsvContent = Utf8Rows(rows: seq<seq<string>>) | Latin1Rows(rows: seq<seq<string>>)

  const KnownProjects: seq<string> := [
    "Digital Twin Implementation", "Advanced Analytics Platform", "Customer Experience Platform",
    "AI-Powered Predictive Maintenance", "Smart Manufacturing Systems", "Quality Management System",
    "Green Operations Initiative", "Blockchain Integration"
  ]

  predicate ScoreChar(c: char) {
    c == '%' || c == '0' || c == '1' || c == '2' || c == '3'
  }

  /** A value that looks like an impact score: shorter than 10 characters, with one of `%0123`. */
  predicate IsScoreValue(v: string) {
    (exists i :: 0 <= i < |v| && ScoreChar(v[i])) && |v| < 10
  }

  /** A cell next to column `j` (within two columns) that counts as one of its scores. */
  predicate IsNearbyScore(row: seq<string>, j: nat, k: nat)
    requires k < |row|
  {
    k != j && !IsBlank(row[k]) && IsScoreValue(Strip(row[k]))
  }

  /** The scores found in columns `[max(0, j - 2), k)`. */
  function ScoresUpTo(row: seq<string>, j: nat, k: nat): seq<string>
    requires k <= |row|
  {
    if k <= Max(0, j - 2) then []
    else ScoresUpTo(row, j, k - 1) + (if IsNearbyScore(row, j, k - 1) then [Strip(row[k - 1])] else [])
  }

  /** The scores of column `j`: `range(max(0, j - 2), min(len(row), j + 3))`. */
  function Scores(row: seq<string>, j: nat): seq<string> {
    ScoresUpTo(row, j, Min(|row|, j + 3))
  }

  function ProjectLine(project: string, scores: seq<string>): string {
    "PROJECT: " + project + " has impact scores: " + Join(", ", scores)
  }

  /** The project lines of cell `j`, over the first `q` known projects. */
  function CellProjectLines(row: seq<string>, j: nat, q: nat): seq<string>
    requires j < |row| && q <= |KnownProjects|
  {
    if q == 0 then []
    else
      var project := KnownProjects[q - 1];
      var scores := Scores(row, j);
      CellProjectLines(row, j, q - 1)
      + (if Contains(Lower(row[j]), Lower(project)) && scores != [] then [ProjectLine(project, scores)] else [])
  }

  function RowProjectLines(row: seq<string>, m: nat): seq<string>
    requires m <= |row|
  {
    if m == 0 then [] else RowProjectLines(row, m - 1) + CellProjectLines(row, m - 1, |KnownProjects|)
  }

  /** The " header: value," fields of the first `n` columns. */
  function RowFields(headers: seq<string>, row: seq<string>, n: nat): string
    requires n <= |row| == |headers|
  {
    if n == 0 then ""
    else
      RowFields(headers, row, n - 1)
      + (if !IsBlank(row[n - 1]) then " " + headers[n - 1] + ": " + Strip(row[n - 1]) + "," else "")
  }

  function FullRowLine(headers: seq<string>, row: seq<string>, i: nat): string
    requires |row| == |headers|
  {
    RStripChar("Row " + NatToString(i) + ":" + RowFields(headers, row, |row|), ',')
  }

  /** Everything data row `i` contributes, the spacer after every 10th row included. */
  function RowBlock(headers: seq<string>, row: seq<string>, i: nat): seq<string> {
    (if |row| == |headers| then [FullRowLine(headers, row, i)] + RowProjectLines(row, |row|)
     else ["Row " + NatToString(i) + ": " + Join(", ", row)])
    + (if i % 10 == 0 then [""] else [])
  }

  /** The blocks of data rows `1..m-1`. */
  function DataBlocks(rows: seq<seq<string>>, m: nat): seq<string>
    requires 1 <= m <= |rows|
  {
    if m == 1 then [] else DataBlocks(rows, m - 1) + RowBlock(rows[0], rows[m - 1], m - 1)
  }

  function CsvHeader(headers: seq<string>): seq<string> {
    if headers == [] then [] else ["CSV Data with columns: " + Join(", ", headers), ""]
  }

  function JoinRows(rows: seq<seq<string>>): seq<string> {
    if rows == [] then [] else JoinRows(rows[..|rows| - 1]) + [Join(", ", rows[|rows| - 1])]
  }

  /** `extract_text_from_csv`. */
  function CsvText(csv: Option<CsvContent>): string {
    match csv
    case None => ""
    case Some(Utf8Rows(rows)) =>
      if rows == [] then "" else Join("\n", CsvHeader(rows[0]) + DataBlocks(rows, |rows|))
    case Some(Latin1Rows(rows)) => Join("\n", JoinRows(rows))
  }

  method NearbyScores(row: seq<string>, j: nat) returns (scores: seq<string>)
    ensures scores == Scores(row, j)
  {
    scores := [];
    var lo := Max(0, j - 2);
    var hi := Min(|row|, j + 3);
    var k := lo;
    if hi < lo {
      return;
    }
    while k < hi
      invariant lo <= k <= hi
      invariant scores == ScoresUpTo(row, j, k)
    {
      if k != j && !IsBlank(row[k]) {
        var val := Strip(row[k]);
        if IsScoreValue(val) {
          scores := scores + [val];
        }
      }
      k := k + 1;
    }
  }

  method ScanCell(row: seq<string>, j: nat) returns (lines: seq<string>)
    requires j < |row|
    ensures lines == CellProjectLines(row, j, |KnownProjects|)
  {
    lines := [];
    var q := 0;
    while q < |KnownProjects|
      invariant q <= |KnownProjects|
      invariant lines == CellProjectLines(row, j, q)
    {
      var project := KnownProjects[q];
      if Contains(Lower(row[j]), Lower(project)) {
        var scores := NearbyScores(row, j);
        if scores != [] {
          lines := lines + [ProjectLine(project, scores)];
        }
      }
      q := q + 1;
    }
  }

  /** A non-blank cell adds its field to `RowFields`. */
  lemma RowFieldsKeep(headers: seq<string>, row: seq<string>, n: nat)
    requires n < |row| == |headers| && !IsBlank(row[n])
    ensures RowFields(headers, row, n + 1) == RowFields(headers, row, n) + (" " + headers[n] + ": " + Strip(row[n]) + ",")
  {
  }

  /** A blank cell adds nothing to `RowFields`. */
  lemma RowFieldsSkip(headers: seq<string>, row: seq<string>, n: nat)
    requires n < |row| == |headers| && IsBlank(row[n])
    ensures RowFields(headers, row, n + 1) == RowFields(headers, row, n)
  {
  }

  /** The loop body of the full-row rendering: column `n`'s field, if its cell is not blank. */
  method AddRowField(headers: seq<string>, row: seq<string>, n: nat, fields: string) returns (next: string)
    requires n < |row| == |headers| && fields == RowFields(headers, row, n)
    ensures next == RowFields(headers, row, n + 1)
  {
    next := fields;
    if !IsBlank(row[n]) {
      RowFieldsKeep(headers, row, n);
      next := fields + (" " + headers[n] + ": " + Strip(row[n]) + ",");
    } else {
      RowFieldsSkip(headers, row, n);
    }
  }

  method RenderFullRow(headers: seq<string>, row: seq<string>, i: nat) returns (line: string)
    requires |row| == |headers|
    ensures line == FullRowLine(headers, row, i)
  {
    var fields := "";
    var n := 0;
    while n < |row|
      invariant n <= |row|
      invariant fields == RowFields(headers, row, n)
    {
      fields := AddRowField(headers, row, n, fields);
      n := n + 1;
    }
    return RStripChar("Row " + NatToString(i) + ":" + fields, ',');
  }

  method RenderCsvRow(headers: seq<string>, row: seq<string>, i: nat) returns (block: seq<string>)
    ensures block == RowBlock(headers, row, i)
  {
    if |row| == |headers| {
      var line := RenderFullRow(headers, row, i);
      var projectLines: seq<string> := [];
      var j := 0;
      while j < |row|
        invariant j <= |row|
        invariant projectLines == RowProjectLines(row, j)
      {
        var cellLines := ScanCell(row, j);
        projectLines := projectLines + cellLines;
        j := j + 1;
      }
      block := [line] + projectLines;
    } else {
      block := ["Row " + NatToString(i) + ": " + Join(", ", row)];
    }
    if i % 10 == 0 {
      block := block + [""];
    }
  }

  method RenderLatin1(rows: seq<seq<string>>) returns (lines: seq<string>)
    ensures lines == JoinRows(rows)
  {
    lines := [];
    var r := 0;
    while r < |rows|
      invariant r <= |rows|
      invariant lines == JoinRows(rows[..r])
    {
      assert rows[..r + 1][..r] == rows[..r];
      lines := lines + [Join(", ", rows[r])];
      r := r + 1;
    }
    assert rows[..r] == rows;
  }

  method ExtractCsv(csv: Option<CsvContent>) returns (text: string)
    ensures text == CsvText(csv)
  {
    if csv.None? {
      return "";
    }
    if csv.value.Latin1Rows? {
      var lines := RenderLatin1(csv.value.rows);
      return Join("\n", lines);
    }
    var rows := csv.value.rows;
    if rows == [] {
      return "";
    }
    var headers := rows[0];
    var header: seq<string> := [];
    if headers != [] {
      header := ["CSV Data with columns: " + Join(", ", headers), ""];
    }
    var blocks: seq<string> := [];
    var i := 1;
    while i < |rows|
      invariant 1 <= i <= |rows|
      invariant blocks == DataBlocks(rows, i)
    {
      var block := RenderCsvRow(headers, rows[i], i);
      blocks := blocks + block;
      i := i + 1;
    }
    return Join("\n", header + blocks);
  }

  /**
   * The scan reports, for column `j`, exactly the stripped non-blank values
   * of columns `j-2..j+2` other than `j` that look like scores.
   */
  lemma {:induction false} ScoresExactly(row: seq<string>, j: nat, k: nat)
    requires k <= |row|
    ensures forall v :: v in ScoresUpTo(row, j, k) <==>
      exists m :: Max(0, j - 2) <= m < k && IsNearbyScore(row, j, m) && v == Strip(row[m])
  {
    if k > Max(0, j - 2) {
      ScoresExactly(row, j, k - 1);
    }
  }

  lemma NearbyScoresExactly(row: seq<string>, j: nat)
    ensures forall v :: v in Scores(row, j) <==>
      exists m :: Max(0, j - 2) <= m < Min(|row|, j + 3) && m != j && !IsBlank(row[m])
        && IsScoreValue(Strip(row[m])) && v == Strip(row[m])
  {
    ScoresExactly(row, j, Min(|row|, j + 3));
  }

  /**
   * The CSV text of a non-empty table begins with the header line and a
   * blank line when the header row is not empty; a full-width row's line
   * begins with "Row i:" and never ends with a comma.
   */
  lemma CsvLayout(rows: seq<seq<string>>, i: nat)
    requires rows != [] && rows[0] != []
    requires 1 <= i < |rows| && |rows[i]| == |rows[0]|
    ensures var parts := CsvHeader(rows[0]) + DataBlocks(rows, |rows|);
      parts[0] == "CSV Data with columns: " + Join(", ", rows[0]) && parts[1] == ""
    ensures var line := FullRowLine(rows[0], rows[i], i);
      StartsWith(line, "Row " + NatToString(i) + ":") && !EndsWith(line, ",")
  {
    var pre := "Row " + NatToString(i) + ":";
    var full := pre + RowFields(rows[0], rows[i], |rows[i]|);
    var line := FullRowLine(rows[0], rows[i], i);
    assert full[|pre| - 1] == ':';
    assert line[..|pre|] == full[..|pre|] == pre;
  }

  // ------------------------------------------------------------ XLSX

  /** A worksheet: its name, dimensions and the value shown in each cell (`str(value)`). */
  datatype Sheet = Sheet(name: string, maxRow: nat, maxCol: nat, cell: (nat, nat) -> Option<string>)

  function HeaderOf(sh: Sheet, col: nat): string {
    match sh.cell(1, col)
    case Some(v) => v
    case None => "Column" + NatToString(col)
  }

  /** The headers of columns `1..c`. */
  function HeadersUpTo(sh: Sheet, c: nat): (r: seq<string>)
    ensures |r| == c
  {
    if c == 0 then [] else HeadersUpTo(sh, c - 1) + [HeaderOf(sh, c)]
  }

  predicate HasValue(sh: Sheet, r: nat, c: nat) {
    sh.cell(r, c).Some? && !IsBlank(sh.cell(r, c).value)
  }

  /** The " header: value," fields of columns `1..c` of row `r`. */
  function SheetFields(sh: Sheet, headers: seq<string>, r: nat, c: nat): string
    requires c <= |headers|
  {
    if c == 0 then ""
    else
      SheetFields(sh, headers, r, c - 1)
      + (if HasValue(sh, r, c) then " " + headers[c - 1] + ": " + Strip(sh.cell(r, c).value) + "," else "")
  }

  predicate RowHasData(sh: Sheet, r: nat, c: nat) {
    exists k :: 1 <= k <= c && HasValue(sh, r, k)
  }

  function SheetRowBlock(sh: Sheet, headers: seq<string>, r: nat): seq<string>
    requires r >= 1
  {
    (if RowHasData(sh, r, |headers|)
     then [RStripChar("Row " + NatToString(r - 1) + ":" + SheetFields(sh, headers, r, |headers|), ',')]
     else [])
    + (if (r - 1) % 10 == 0 && r > 2 then [""] else [])
  }

  /** The blocks of rows `2..m`. */
  function SheetRows(sh: Sheet, headers: seq<string>, m: nat): seq<string> {
    if m < 2 then [] else SheetRows(sh, headers, m - 1) + SheetRowBlock(sh, headers, m)
  }

  function SheetParts(sh: Sheet): seq<string> {
    ["\n=== Sheet: " + sh.name + " ===\n"]
    + if sh.maxRow == 0 || sh.maxCol == 0 then ["(Empty sheet)"]
      else
        var headers := HeadersUpTo(sh, sh.maxCol);
        ["Columns: " + Join(", ", headers), ""] + SheetRows(sh, headers, sh.maxRow) + [""]
  }

  function WorkbookParts(sheets: seq<Sheet>): seq<string> {
    if sheets == [] then [] else WorkbookParts(sheets[..|sheets| - 1]) + SheetParts(sheets[|sheets| - 1])
  }

  /** `extract_text_from_xlsx`; without openpyxl the result is "". */
  function XlsxText(openpyxlAvailable: bool, workbook: Option<seq<Sheet>>): string {
    if !openpyxlAvailable then ""
    else
      match workbook
      case None => ""
      case Some(sheets) => Join("\n", WorkbookParts(sheets))
  }

  /** The field a non-blank cell of column `c` adds to its row line. */
  function SheetField(sh: Sheet, headers: seq<string>, r: nat, c: nat): string
    requires 1 <= c <= |headers| && HasValue(sh, r, c)
  {
    " " + headers[c - 1] + ": " + Strip(sh.cell(r, c).value) + ","
  }

  /** One more column of `SheetFields`, as the row loop extends it. */
  lemma SheetFieldsStep(sh: Sheet, headers: seq<string>, r: nat, c: nat, pre: string)
    requires 1 <= c <= |headers|
    ensures HasValue(sh, r, c) <==> sh.cell(r, c).Some? && Strip(sh.cell(r, c).value) != []
    ensures HasValue(sh, r, c) ==>
      pre + SheetFields(sh, headers, r, c) == pre + SheetFields(sh, headers, r, c - 1) + SheetField(sh, headers, r, c)
    ensures !HasValue(sh, r, c) ==> SheetFields(sh, headers, r, c) == SheetFields(sh, headers, r, c - 1)
  {
    if sh.cell(r, c).Some? {
      StripEmptyIffBlank(sh.cell(r, c).value);
    }
    if HasValue(sh, r, c) {
      var before := SheetFields(sh, headers, r, c - 1);
      var f := SheetField(sh, headers, r, c);
      assert SheetFields(sh, headers, r, c) == before + f;
      assert pre + (before + f) == pre + before + f;
    }
  }

  /** One more column of `RowHasData`. */
  lemma RowHasDataStep(sh: Sheet, r: nat, c: nat)
    requires 1 <= c
    ensures RowHasData(sh, r, c) <==> RowHasData(sh, r, c - 1) || HasValue(sh, r, c)
  {
    if RowHasData(sh, r, c) {
      var k :| 1 <= k <= c && HasValue(sh, r, k);
      if k < c {
        assert 1 <= k <= c - 1 && HasValue(sh, r, k);
      }
    }
    if RowHasData(sh, r, c - 1) {
      var k :| 1 <= k <= c - 1 && HasValue(sh, r, k);
      assert 1 <= k <= c && HasValue(sh, r, k);
    }
  }

  method RenderSheetRow(sh: Sheet, headers: seq<string>, r: nat) returns (line: Option<string>)
    requires r >= 1
    ensures RowHasData(sh, r, |headers|) <==> line.Some?
    ensures line.Some? ==>
      line.value == RStripChar("Row " + NatToString(r - 1) + ":" + SheetFields(sh, headers, r, |headers|), ',')
  {
    var pre := "Row " + NatToString(r - 1) + ":";
    var rowText := pre;
    var rowData: seq<string> := [];
    var c := 1;
    while c <= |headers|
      invariant 1 <= c <= |headers| + 1
      invariant rowText == pre + SheetFields(sh, headers, r, c - 1)
      invariant rowData != [] <==> RowHasData(sh, r, c - 1)
    {
      SheetFieldsStep(sh, headers, r, c, pre);
      RowHasDataStep(sh, r, c);
      var cellValue := sh.cell(r, c);
      if cellValue.Some? {
        var valueStr := Strip(cellValue.value);
        if valueStr != [] {
          rowText := rowText + (" " + headers[c - 1] + ": " + valueStr + ",");
          rowData := rowData + [valueStr];
        }
      }
      c := c + 1;
    }
    if rowData != [] {
      return Some(RStripChar(rowText, ','));
    }
    return None;
  }

  method RenderHeaders(sh: Sheet) returns (headers: seq<string>)
    ensures headers == HeadersUpTo(sh, sh.maxCol)
  {
    headers := [];
    var col := 1;
    while col <= sh.maxCol
      invariant 1 <= col <= sh.maxCol + 1
      invariant headers == HeadersUpTo(sh, col - 1)
    {
      var cellValue := sh.cell(1, col);
      headers := headers + [if cellValue.Some? then cellValue.value else "Column" + NatToString(col)];
      col := col + 1;
    }
  }

  method RenderSheetRows(sh: Sheet, headers: seq<string>) returns (lines: seq<string>)
    ensures lines == SheetRows(sh, headers, sh.maxRow)
  {
    lines := [];
    if sh.maxRow < 2 {
      return;
    }
    var rowNum := 2;
    while rowNum <= sh.maxRow
      invariant 2 <= rowNum <= sh.maxRow + 1
      invariant lines == SheetRows(sh, headers, rowNum - 1)
    {
      var line := RenderSheetRow(sh, headers, rowNum);
      var block := if line.Some? then [line.value] else [];
      if (rowNum - 1) % 10 == 0 && rowNum > 2 {
        block := block + [""];
      }
      lines := lines + block;
      rowNum := rowNum + 1;
    }
  }

  method RenderSheet(sh: Sheet) returns (parts: seq<string>)
    ensures parts == SheetParts(sh)
  {
    var title := "\n=== Sheet: " + sh.name + " ===\n";
    if sh.maxRow == 0 || sh.maxCol == 0 {
      return [title] + ["(Empty sheet)"];
    }
    var headers := RenderHeaders(sh);
    var rowLines := RenderSheetRows(sh, headers);
    return [title] + (["Columns: " + Join(", ", headers), ""] + rowLines + [""]);
  }

  method ExtractXlsx(openpyxlAvailable: bool, workbook: Option<seq<Sheet>>) returns (text: string)
    ensures text == XlsxText(openpyxlAvailable, workbook)
  {
    if !openpyxlAvailable || workbook.None? {
      return "";
    }
    var sheets := workbook.value;
    var textParts: seq<string> := [];
    var s := 0;
    while s < |sheets|
      invariant s <= |sheets|
      invariant textParts == WorkbookParts(sheets[..s])
    {
      assert sheets[..s + 1][..s] == sheets[..s];
      var sheetParts := RenderSheet(sheets[s]);
      textParts := textParts + sheetParts;
      s := s + 1;
    }
    assert sheets[..s] == sheets;
    return Join("\n", textParts);
  }

  /**
   * Row `r` of a sheet gets a line exactly when one of its cells has a
   * non-blank value, and that line never ends with a comma; the header of an
   * empty header cell is "Column" followed by its column number.
   */
  lemma SheetRowShape(sh: Sheet, headers: seq<string>, r: nat, c: nat)
    requires r >= 1 && 1 <= c <= sh.maxCol
    ensures |SheetRowBlock(sh, headers, r)| >= 1 ==> RowHasData(sh, r, |headers|) || ((r - 1) % 10 == 0 && r > 2)
    ensures RowHasData(sh, r, |headers|) ==> !EndsWith(SheetRowBlock(sh, headers, r)[0], ",")
    ensures HeadersUpTo(sh, sh.maxCol)[c - 1] == if sh.cell(1, c).None? then "Column" + NatToString(c) else sh.cell(1, c).value
  {
    HeadersIndex(sh, sh.maxCol, c);
  }

  lemma {:induction false} HeadersIndex(sh: Sheet, n: nat, c: nat)
    requires 1 <= c <= n
    ensures HeadersUpTo(sh, n)[c - 1] == HeaderOf(sh, c)
  {
    if c < n {
      HeadersIndex(sh, n - 1, c);
    }
  }
}
