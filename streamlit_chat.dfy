/**
 * The document logic of the first chat front end, streamlit/chat/chat.py:
 * its own token-window chunker, its own `clean_text`, the way
 * `add_to_collection` numbers and inserts chunks, and
 * `search_knowledge_base`. The tokenizer, the embedding model and the
 * nearest-neighbour query are parameters; the values the page keeps in
 * `st.session_state` (chunk size, overlap, result count) are arguments.
 */
module StreamlitChat {
  import opened Wrappers
  import opened Text
  import opened PySeq
  import TokenChunker
  import opened Chroma
  import opened Normalizer
  import VectorStore

  // ------------------------------------------------------------ chunk_text

  /** Decodes every window, blank or not; `None` if a decode raises. */
  function DecodeAll(tok: TokenChunker.Tokenizer, windows: seq<seq<int>>): Option<seq<string>>
  {
    if windows == [] then Some([])
    else
      match tok.decode(windows[0])
      case None => None
      case Some(t) => TokenChunker.Prepend([t], DecodeAll(tok, windows[1..]))
  }

  /** The decoding fails exactly when some window's decode raises; otherwise chunk `k` is window `k` decoded. */
  lemma {:induction false} DecodeAllSpec(tok: TokenChunker.Tokenizer, windows: seq<seq<int>>)
    ensures var r := DecodeAll(tok, windows);
      (r.Some? <==> forall k :: 0 <= k < |windows| ==> tok.decode(windows[k]).Some?)
      && (r.Some? ==> (|r.value| == |windows|
            && forall k :: 0 <= k < |windows| ==> tok.decode(windows[k]) == Some(r.value[k])))
  {
    if windows != [] {
      DecodeAllSpec(tok, windows[1..]);
      assert forall k :: 1 <= k < |windows| ==> windows[k] == windows[1..][k - 1];
    }
  }

  /**
   * `chunk_text`: `None` when the tokenizer raises or when the step
   * `chunk_size - overlap` is 0 (`range` raises); no windows at all when
   * the step is negative.
   */
  function ChunkTextSpec(tok: TokenChunker.Tokenizer, text: string, chunkSize: int, overlap: int,
                         sessionChunkSize: int, sessionOverlap: int): (r: Option<seq<string>>)
    ensures tok.encode(text).None? ==> r.None?
    ensures OrElse(chunkSize, sessionChunkSize) == OrElse(overlap, sessionOverlap) ==> r.None?
    ensures OrElse(chunkSize, sessionChunkSize) < OrElse(overlap, sessionOverlap) && tok.encode(text).Some? ==> r == Some([])
  {
    var cs := OrElse(chunkSize, sessionChunkSize);
    var ov := OrElse(overlap, sessionOverlap);
    match tok.encode(text)
    case None => None
    case Some(tokens) =>
      var step := cs - ov;
      if step == 0 then None
      else if step < 0 then Some([])
      else DecodeAll(tok, TokenChunker.WindowsFrom(tokens, cs, step, 0))
  }

  method ChunkText(tok: TokenChunker.Tokenizer, text: string, chunkSize: int, overlap: int,
                   sessionChunkSize: int, sessionOverlap: int) returns (r: Option<seq<string>>)
    ensures r == ChunkTextSpec(tok, text, chunkSize, overlap, sessionChunkSize, sessionOverlap)
  {
    var cs := OrElse(chunkSize, sessionChunkSize);
    var ov := OrElse(overlap, sessionOverlap);
    var encoded := tok.encode(text);
    if encoded.None? {
      return None;
    }
    var tokens := encoded.value;
    var step := cs - ov;
    if step == 0 {
      return None;
    }
    if step < 0 {
      return Some([]);
    }
    r := DecodeAllWindows(tok, tokens, cs, step);
  }

  /** The `for i in range(0, len(tokens), step)` loop; `None` when a decode raises. */
  method DecodeAllWindows(tok: TokenChunker.Tokenizer, tokens: seq<int>, cs: int, step: int)
      returns (r: Option<seq<string>>)
    requires step > 0
    ensures r == DecodeAll(tok, TokenChunker.WindowsFrom(tokens, cs, step, 0))
  {
    var chunks: seq<string> := [];
    var i: nat := 0;
    AllDecodedStart(tok, tokens, cs, step);
    while i < |tokens|
      invariant AllDecoded(tok, tokens, cs, step, i, chunks)
      decreases |tokens| - i
    {
      var decoded := tok.decode(Slice(tokens, i, i + cs));
      if decoded.None? {
        AllDecodedFail(tok, tokens, cs, step, i, chunks);
        return None;
      }
      AllDecodedStep(tok, tokens, cs, step, i, chunks, decoded.value);
      chunks := chunks + [decoded.value];
      i := i + step;
    }
    AllDecodedDone(tok, tokens, cs, step, i, chunks);
    r := Some(chunks);
  }

  /** The loop's invariant: the chunks so far, followed by the decoding of the windows from `i`, make the whole. */
  predicate AllDecoded(tok: TokenChunker.Tokenizer, tokens: seq<int>, cs: int, step: int, i: nat, chunks: seq<string>)
    requires step > 0
  {
    DecodeAll(tok, TokenChunker.WindowsFrom(tokens, cs, step, 0))
      == TokenChunker.Prepend(chunks, DecodeAll(tok, TokenChunker.WindowsFrom(tokens, cs, step, i)))
  }

  lemma AllDecodedStart(tok: TokenChunker.Tokenizer, tokens: seq<int>, cs: int, step: int)
    requires step > 0
    ensures AllDecoded(tok, tokens, cs, step, 0, [])
  {
    var r := DecodeAll(tok, TokenChunker.WindowsFrom(tokens, cs, step, 0));
    if r.Some? {
      assert [] + r.value == r.value;
    }
  }

  lemma AllDecodedDone(tok: TokenChunker.Tokenizer, tokens: seq<int>, cs: int, step: int, i: nat, chunks: seq<string>)
    requires step > 0 && i >= |tokens| && AllDecoded(tok, tokens, cs, step, i, chunks)
    ensures DecodeAll(tok, TokenChunker.WindowsFrom(tokens, cs, step, 0)) == Some(chunks)
  {
    assert TokenChunker.WindowsFrom(tokens, cs, step, i) == [];
    assert chunks + [] == chunks;
  }

  /** One window: a decode that raises ends the loop with the exception. */
  lemma AllDecodedFail(tok: TokenChunker.Tokenizer, tokens: seq<int>, cs: int, step: int, i: nat, chunks: seq<string>)
    requires step > 0 && i < |tokens| && AllDecoded(tok, tokens, cs, step, i, chunks)
    requires tok.decode(Slice(tokens, i, i + cs)).None?
    ensures DecodeAll(tok, TokenChunker.WindowsFrom(tokens, cs, step, 0)).None?
  {
    var ws := TokenChunker.WindowsFrom(tokens, cs, step, i);
    assert ws[0] == Slice(tokens, i, i + cs);
  }

  /** One window decoded to `d`: the invariant moves on to the next window with `d` appended. */
  lemma AllDecodedStep(tok: TokenChunker.Tokenizer, tokens: seq<int>, cs: int, step: int, i: nat, chunks: seq<string>,
                       d: string)
    requires step > 0 && i < |tokens| && AllDecoded(tok, tokens, cs, step, i, chunks)
    requires tok.decode(Slice(tokens, i, i + cs)) == Some(d)
    ensures AllDecoded(tok, tokens, cs, step, i + step, chunks + [d])
  {
    var ws := TokenChunker.WindowsFrom(tokens, cs, step, i);
    assert ws[0] == Slice(tokens, i, i + cs) && ws[1..] == TokenChunker.WindowsFrom(tokens, cs, step, i + step);
    TokenChunker.PrependAssoc(chunks, [d], DecodeAll(tok, ws[1..]));
  }

  /**
   * With a positive chunk size and step: chunk `k` is the decoding of tokens
   * `[k·step, k·step + cs)` cut at the end, there are ceil(n / step) chunks,
   * and none is dropped for being blank.
   */
  lemma ChunkTextWindows(tok: TokenChunker.Tokenizer, text: string, chunkSize: int, overlap: int,
                         sessionChunkSize: int, sessionOverlap: int, k: nat)
    requires tok.encode(text).Some?
    requires var cs := OrElse(chunkSize, sessionChunkSize); cs > 0 && cs - OrElse(overlap, sessionOverlap) > 0
    requires ChunkTextSpec(tok, text, chunkSize, overlap, sessionChunkSize, sessionOverlap).Some?
    ensures var tokens := tok.encode(text).value;
      var cs := OrElse(chunkSize, sessionChunkSize);
      var step := cs - OrElse(overlap, sessionOverlap);
      var chunks := ChunkTextSpec(tok, text, chunkSize, overlap, sessionChunkSize, sessionOverlap).value;
      (chunks == [] <==> tokens == [])
      && (tokens != [] ==> (|chunks| - 1) * step < |tokens| <= |chunks| * step)
      && (k < |chunks| ==> (k * step < |tokens|
          && tok.decode(tokens[k * step..Min(k * step + cs, |tokens|)]) == Some(chunks[k])))
  {
    var tokens := tok.encode(text).value;
    var cs := OrElse(chunkSize, sessionChunkSize);
    var step := cs - OrElse(overlap, sessionOverlap);
    TokenChunker.WindowCount(tokens, cs, step, 0);
    DecodeAllSpec(tok, TokenChunker.WindowsFrom(tokens, cs, step, 0));
    if k < |TokenChunker.WindowsFrom(tokens, cs, step, 0)| {
      TokenChunker.WindowContent(tokens, cs, step, 0, k);
    }
  }

  // ------------------------------------------------------------ clean_text as written

  /**
   * Step 1 as written: the doubly escaped template `r'\\1 \\2'` puts the
   * five characters `\1 \2` in place of each '.' or ',' followed by an
   * ASCII letter.
   */
  function EscapedTemplate(s: string): (r: string)
    decreases |s|
  {
    if |s| >= 2 && PunctLetter(s[0], s[1]) then "\\1 \\2" + EscapedTemplate(s[2..])
    else if s == [] then []
    else [s[0]] + EscapedTemplate(s[1..])
  }

  /** The first index at or after `i` that is not the letter 's', or `|s|`. */
  function LetterSRunEnd(s: string, i: nat): (j: nat)
    requires i <= |s|
    ensures i <= j <= |s|
    decreases |s| - i
  {
    if i < |s| && s[i] == 's' then LetterSRunEnd(s, i + 1) else i
  }

  /**
   * Step 2 as written: the pattern `r'\\n\\s*\\n'` matches the literal text
   * backslash, 'n', backslash, a run of the letter 's', backslash, 'n'; each
   * match becomes two newline characters (the replacement's `\n` escapes
   * are interpreted).
   */
  function LiteralBreaks(s: string): (r: string)
    decreases |s|
  {
    if s == [] then []
    else if |s| >= 3 && s[0] == '\\' && s[1] == 'n' && s[2] == '\\'
         && LetterSRunEnd(s, 3) + 2 <= |s| && s[LetterSRunEnd(s, 3)] == '\\' && s[LetterSRunEnd(s, 3) + 1] == 'n' then
      "\n\n" + LiteralBreaks(s[LetterSRunEnd(s, 3) + 2..])
    else [s[0]] + LiteralBreaks(s[1..])
  }

  /** A backslash directly followed by 'n', where every literal match starts. */
  predicate BackslashN(a: char, b: char) {
    a == '\\' && b == 'n'
  }

  lemma {:induction false} LiteralBreaksNoop(s: string)
    requires PairFree(s, BackslashN)
    ensures LiteralBreaks(s) == s
    decreases |s|
  {
    if s != [] {
      PairFreeSlice(s, 1, |s|, BackslashN);
      LiteralBreaksNoop(s[1..]);
    }
  }

  /** Every line stripped, blank lines kept. */
  function StripAll(lines: seq<string>): (r: seq<string>)
    ensures |r| == |lines| && forall i :: 0 <= i < |lines| ==> r[i] == Strip(lines[i])
  {
    seq(|lines|, i requires 0 <= i < |lines| => Strip(lines[i]))
  }

  /**
   * streamlit/chat/chat.py's `clean_text` as written: after the three
   * substitutions the stripped lines are joined with the two characters
   * backslash and 'n'.
   */
  function CleanTextAsWritten(text: string): string {
    if text == "" then ""
    else Join("\\n", StripAll(SplitLines(CollapseSpaces(LiteralBreaks(EscapedTemplate(text))))))
  }

  lemma {:induction false} JoinNoLineBreak(sep: string, ls: seq<string>)
    requires NoLineBreak(sep)
    requires forall i :: 0 <= i < |ls| ==> NoLineBreak(ls[i])
    ensures NoLineBreak(Join(sep, ls))
  {
    if |ls| >= 2 {
      JoinNoLineBreak(sep, ls[1..]);
      var rest := Join(sep, ls[1..]);
      var s := ls[0] + sep + rest;
      forall i | 0 <= i < |s|
        ensures !IsLineBreak(s[i])
      {
        if i < |ls[0]| {
          assert s[i] == ls[0][i];
        } else if i < |ls[0]| + |sep| {
          assert s[i] == sep[i - |ls[0]|];
        } else {
          assert s[i] == rest[i - |ls[0]| - |sep|];
        }
      }
    }
  }

  lemma StrippedLinesNoLineBreak(lines: seq<string>)
    requires forall i :: 0 <= i < |lines| ==> NoLineBreak(lines[i])
    ensures forall i :: 0 <= i < |lines| ==> NoLineBreak(StripAll(lines)[i])
  {
    forall i | 0 <= i < |lines|
      ensures NoLineBreak(StripAll(lines)[i])
    {
      var lo, hi := StripIsSlice(lines[i]);
      NoLineBreakSlice(lines[i], lo, hi);
    }
  }

  /** As written, the result is a single line: it holds no line-break character at all. */
  lemma CleanTextAsWrittenOneLine(text: string)
    ensures NoLineBreak(CleanTextAsWritten(text))
  {
    if text != "" {
      var lines := SplitLines(CollapseSpaces(LiteralBreaks(EscapedTemplate(text))));
      StrippedLinesNoLineBreak(lines);
      JoinNoLineBreak("\\n", StripAll(lines));
    }
  }

  // ------------------------------------------------------------ clean_text as intended

  /**
   * The evidently intended `clean_text`: the templates `\1 \2` and `\n\s*\n`
   * read as regular expressions, and the stripped lines joined with a
   * newline; unlike utils/document_processor.py it keeps blank lines.
   */
  function CleanTextIntended(text: string): string {
    if text == "" then "" else Join("\n", StripAll(SplitLines(Substitute(text))))
  }

  /**
   * The intended cleaner leaves no '.' or ',' directly before an ASCII
   * letter and no run of two spaces, and every line it returns is stripped.
   */
  lemma CleanTextIntendedSeparates(text: string)
    ensures PairFree(CleanTextIntended(text), PunctLetter)
    ensures PairFree(CleanTextIntended(text), DoubleSpace)
  {
    if text != "" {
      var c := Substitute(text);
      SpaceAfterPunctSeparates(text);
      CollapseBlankLinesKeepsPairs(SpaceAfterPunct(text), PunctLetter);
      CollapseSpacesSeparates(CollapseBlankLines(SpaceAfterPunct(text)), PunctLetter);
      SplitLinesPairs(c, PunctLetter);
      SplitLinesPairs(c, DoubleSpace);
      var lines := SplitLines(c);
      forall i | 0 <= i < |lines|
        ensures PairFree(StripAll(lines)[i], PunctLetter) && PairFree(StripAll(lines)[i], DoubleSpace)
      {
        var lo, hi := StripIsSlice(lines[i]);
        PairFreeSlice(lines[i], lo, hi, PunctLetter);
        PairFreeSlice(lines[i], lo, hi, DoubleSpace);
      }
      JoinPairFree(StripAll(lines), PunctLetter);
      JoinPairFree(StripAll(lines), DoubleSpace);
    }
  }

  /**
   * As written, "a.b" comes back as "a\\1 \\2": the '.' and the 'b' are
   * replaced by the literal template text.
   */
  lemma CleanTextAsWrittenLosesLetters(text: string)
    requires text == "a.b"
    ensures CleanTextAsWritten(text) == "a\\1 \\2"
  {
    var t := EscapedTemplate(text);
    assert t == "a\\1 \\2" by {
      var u := text[1..];
      assert |u| == 2 && u[0] == '.' && u[1] == 'b' && !PunctLetter(text[0], text[1]);
      assert EscapedTemplate(u[2..]) == [];
      assert EscapedTemplate(u) == "\\1 \\2";
    }
    LiteralBreaksNoop(t);
    OneLineUnchanged(t);
  }

  /**
   * A single line with stripped ends and no double space survives the
   * space collapse, the line split and the line stripping unchanged.
   */
  lemma OneLineUnchanged(t: string)
    requires t != [] && !IsSpace(t[0]) && !IsSpace(t[|t| - 1])
    requires NoLineBreak(t) && PairFree(t, DoubleSpace)
    ensures CollapseSpaces(t) == t && SplitLines(t) == [t] && StripAll([t]) == [t]
  {
    CollapseSpacesNoop(t);
    FirstBreakAt(t, |t|);
    assert t[..|t|] == t;
    StripNoop(t);
  }

  /** The intended cleaner turns "a.b" into "a. b". */
  lemma CleanTextIntendedSpaces(text: string)
    requires text == "a.b"
    ensures CleanTextIntended(text) == "a. b"
  {
    var t := SpaceAfterPunct(text);
    assert t == "a. b" by {
      var u := text[1..];
      assert |u| == 2 && u[0] == '.' && u[1] == 'b' && !PunctLetter(text[0], text[1]);
      assert SpaceAfterPunct(u[2..]) == [];
      assert SpaceAfterPunct(u) == ". b";
    }
    CollapseBlankLinesNoop(t);
    OneLineUnchanged(t);
  }

  /** As written, the two lines of "a\nb" are glued with the two characters backslash and 'n'. */
  lemma CleanTextAsWrittenGluesLines(text: string)
    requires text == "a\nb"
    ensures CleanTextAsWritten(text) == "a\\nb"
  {
    assert EscapedTemplate(text) == text by {
      var u, v := text[1..], text[2..];
      assert |v| == 1 && v[1..] == [] && u[1..] == v;
      assert EscapedTemplate(v) == v;
      assert EscapedTemplate(u) == u;
    }
    LiteralBreaksNoop(text);
    TwoLinesUnchanged(text);
  }

  /** The intended cleaner keeps the two lines of "a\nb" apart with a newline. */
  lemma CleanTextIntendedKeepsLines(text: string)
    requires text == "a\nb"
    ensures CleanTextIntended(text) == text
  {
    SpaceAfterPunctNoop(text);
    CollapseBlankLinesNoop(text);
    TwoLinesUnchanged(text);
  }

  /** "a\nb" survives the space collapse, splits into "a" and "b", and its lines are stripped already. */
  lemma TwoLinesUnchanged(t: string)
    requires t == "a\nb"
    ensures CollapseSpaces(t) == t
    ensures SplitLines(t) == [t[..1], t[2..]]
    ensures StripAll(SplitLines(t)) == SplitLines(t)
    ensures Join("\n", SplitLines(t)) == t && Join("\\n", SplitLines(t)) == "a\\nb"
  {
    TwoLinesSplit(t);
    TwoLinesJoin(t);
  }

  /** "a\nb" survives the space collapse and splits into the stripped lines "a" and "b". */
  lemma TwoLinesSplit(t: string)
    requires t == "a\nb"
    ensures CollapseSpaces(t) == t
    ensures SplitLines(t) == [t[..1], t[2..]]
    ensures StripAll([t[..1], t[2..]]) == [t[..1], t[2..]]
  {
    CollapseSpacesNoop(t);
    FirstBreakAt(t, 1);
    var a, b := t[..1], t[2..];
    OneLineUnchanged(b);
    OneLineUnchanged(a);
  }

  /** The lines "a" and "b" joined with a newline give "a\nb" back, and joined with a backslash and an 'n' they give "a\\nb". */
  lemma TwoLinesJoin(t: string)
    requires t == "a\nb"
    ensures Join("\n", [t[..1], t[2..]]) == t && Join("\\n", [t[..1], t[2..]]) == "a\\nb"
  {
    assert t[..1] + "\n" + t[2..] == t;
  }

  // ------------------------------------------------------------ add_to_collection

  /**
   * The chunks of each document, in order: a blank text is skipped (no
   * chunks, its index still consumed); `None` when `chunk_text` raises for
   * some document.
   */
  function ChunkDocuments(tok: TokenChunker.Tokenizer, documents: seq<(string, string)>,
                          sessionChunkSize: int, sessionOverlap: int): (r: Option<seq<DocumentData>>)
    ensures r.Some? ==> (|r.value| == |documents|
      && forall k :: 0 <= k < |documents| ==> r.value[k].filename == documents[k].0)
    decreases |documents|
  {
    if documents == [] then Some([])
    else
      var last := documents[|documents| - 1];
      match ChunkDocuments(tok, documents[..|documents| - 1], sessionChunkSize, sessionOverlap)
      case None => None
      case Some(done) =>
        match DocumentChunks(tok, last.1, sessionChunkSize, sessionOverlap)
        case None => None
        case Some(chunks) => Some(done + [DocumentData(last.0, chunks)])
  }

  /** The chunks of one document: none for a blank text, else those of `chunk_text(text)`. */
  function DocumentChunks(tok: TokenChunker.Tokenizer, text: string, sessionChunkSize: int, sessionOverlap: int)
    : Option<seq<string>>
  {
    if IsBlank(text) then Some([]) else ChunkTextSpec(tok, text, 0, 0, sessionChunkSize, sessionOverlap)
  }

  /** Entries with their `doc_index` metadata set to `d`. */
  function WithDocIndex(es: seq<Entry>, d: nat): (r: seq<Entry>)
    ensures |r| == |es|
    ensures forall i :: 0 <= i < |es| ==>
      r[i] == Entry(es[i].id, es[i].chunk, Metadata(es[i].metadata.filename, es[i].metadata.chunkIndex, Some(d)))
  {
    seq(|es|, i requires 0 <= i < |es| =>
      Entry(es[i].id, es[i].chunk, Metadata(es[i].metadata.filename, es[i].metadata.chunkIndex, Some(d))))
  }

  /** The entries of `docs[..m]`: non-blank chunks, document `k` numbered `offset + k`. */
  function ChatEntries(docs: seq<DocumentData>, offset: nat, m: nat): seq<Entry>
    requires m <= |docs|
  {
    if m == 0 then []
    else
      var d := docs[m - 1];
      ChatEntries(docs, offset, m - 1)
      + WithDocIndex(ChunkEntries(d.filename, offset + (m - 1), d.chunks, |d.chunks|), offset + (m - 1))
  }

  /** Each entry of one document carries the document number in its id. */
  lemma {:induction false} ChunkEntriesShape(filename: string, docNum: nat, chunks: seq<string>, upTo: nat)
    requires upTo <= |chunks|
    ensures forall i :: 0 <= i < |ChunkEntries(filename, docNum, chunks, upTo)| ==>
      var e := ChunkEntries(filename, docNum, chunks, upTo)[i];
      e.id == IdOf(docNum, e.metadata.chunkIndex) && e.metadata.chunkIndex < upTo
      && e.chunk == chunks[e.metadata.chunkIndex] && !IsBlank(e.chunk) && e.metadata.filename == filename
  {
    if upTo > 0 {
      ChunkEntriesShape(filename, docNum, chunks, upTo - 1);
    }
  }

  /**
   * The page's entries are the vector store's batch entries with
   * `doc_index` added, so they share their ids, chunks and positions.
   */
  lemma {:induction false} ChatEntriesAreBatchEntries(docs: seq<DocumentData>, offset: nat, m: nat)
    requires m <= |docs|
    ensures var c := ChatEntries(docs, offset, m);
      var b := BatchEntries(docs, offset, m);
      |c| == |b|
      && forall i :: 0 <= i < |c| ==> (c[i].id == b[i].id && c[i].chunk == b[i].chunk
           && c[i].metadata.filename == b[i].metadata.filename
           && c[i].metadata.chunkIndex == b[i].metadata.chunkIndex)
  {
    if m > 0 {
      ChatEntriesAreBatchEntries(docs, offset, m - 1);
      var d := docs[m - 1];
      var ce := ChatEntries(docs, offset, m - 1);
      var be := BatchEntries(docs, offset, m - 1);
      var es := ChunkEntries(d.filename, offset + (m - 1), d.chunks, |d.chunks|);
      var w := WithDocIndex(es, offset + (m - 1));
      var c := ce + w;
      var b := be + es;
      forall i | 0 <= i < |c|
        ensures c[i].id == b[i].id && c[i].chunk == b[i].chunk
          && c[i].metadata.filename == b[i].metadata.filename
          && c[i].metadata.chunkIndex == b[i].metadata.chunkIndex
      {
        if i < |ce| {
          assert c[i] == ce[i] && b[i] == be[i];
        } else {
          assert c[i] == w[i - |ce|] && b[i] == es[i - |ce|];
        }
      }
    }
  }

  /**
   * Every entry's `doc_index` is `offset + k` for its document `k`, and its
   * id is `doc_{doc_index}_chunk_{chunk_index}`.
   */
  lemma {:induction false} ChatEntriesDocIndex(docs: seq<DocumentData>, offset: nat, m: nat)
    requires m <= |docs|
    ensures forall i :: 0 <= i < |ChatEntries(docs, offset, m)| ==>
      var e := ChatEntries(docs, offset, m)[i];
      e.metadata.docIndex.Some? && offset <= e.metadata.docIndex.value < offset + m
      && e.id == IdOf(e.metadata.docIndex.value, e.metadata.chunkIndex)
  {
    if m > 0 {
      ChatEntriesDocIndex(docs, offset, m - 1);
      var d := docs[m - 1];
      var ce := ChatEntries(docs, offset, m - 1);
      var es := ChunkEntries(d.filename, offset + (m - 1), d.chunks, |d.chunks|);
      ChunkEntriesShape(d.filename, offset + (m - 1), d.chunks, |d.chunks|);
      var w := WithDocIndex(es, offset + (m - 1));
      var c := ce + w;
      forall i | 0 <= i < |c|
        ensures c[i].metadata.docIndex.Some? && offset <= c[i].metadata.docIndex.value < offset + m
          && c[i].id == IdOf(c[i].metadata.docIndex.value, c[i].metadata.chunkIndex)
      {
        if i < |ce| {
          assert c[i] == ce[i];
        } else {
          assert c[i] == w[i - |ce|];
        }
      }
    }
  }

  /** The ids of one call are pairwise distinct. */
  lemma ChatEntriesDistinct(docs: seq<DocumentData>, offset: nat)
    ensures forall i, j :: 0 <= i < j < |ChatEntries(docs, offset, |docs|)| ==>
      ChatEntries(docs, offset, |docs|)[i].id != ChatEntries(docs, offset, |docs|)[j].id
  {
    ChatEntriesAreBatchEntries(docs, offset, |docs|);
    BatchIdsDistinct(docs, offset);
  }

  /** What `add_to_collection` returns: a collection (by name), `None`, or an exception from `chunk_text`. */
  datatype AddResult = Returned(collection: Option<string>) | Raised

  datatype AddOutcome = AddOutcome(result: AddResult, collections: map<string, seq<Record>>)

  /** `add_to_collection` on the client's collections. */
  function AddToCollectionSpec(cols: map<string, seq<Record>>, name: string, documents: seq<(string, string)>,
                               tok: TokenChunker.Tokenizer, embed: Embedder,
                               sessionChunkSize: int, sessionOverlap: int): AddOutcome {
    if documents == [] then AddOutcome(Returned(None), cols)
    else
      var base := GetOrCreate(cols, name);
      match ChunkDocuments(tok, documents, sessionChunkSize, sessionOverlap)
      case None => AddOutcome(Raised, base)
      case Some(docs) =>
        var es := ChatEntries(docs, |base[name]|, |docs|);
        if es == [] then AddOutcome(Returned(Some(name)), base)
        else
          match embed(VectorStore.EntryChunks(es))
          case None => AddOutcome(Returned(None), base)
          case Some(embeddings) =>
            if |embeddings| != |es| then AddOutcome(Returned(None), base)
            else
              match CollectionAdd(base[name], ToRecords(es, embeddings))
              case None => AddOutcome(Returned(None), base)
              case Some(records) => AddOutcome(Returned(Some(name)), base[name := records])
  }

  /**
   * Without documents nothing changes; otherwise only the named collection
   * changes (it is created when missing), and only by appending.
   */
  lemma AddToCollectionAppends(cols: map<string, seq<Record>>, name: string, documents: seq<(string, string)>,
                               tok: TokenChunker.Tokenizer, embed: Embedder, sessionChunkSize: int, sessionOverlap: int)
    ensures var out := AddToCollectionSpec(cols, name, documents, tok, embed, sessionChunkSize, sessionOverlap);
      var old_ := if name in cols then cols[name] else [];
      (documents == [] ==> out.collections == cols)
      && (documents != [] ==> (name in out.collections && out.collections.Keys == cols.Keys + {name}
          && (forall other :: other in cols && other != name ==> out.collections[other] == cols[other])
          && |old_| <= |out.collections[name]| && out.collections[name][..|old_|] == old_))
  {
    if documents != [] {
      var out := AddToCollectionSpec(cols, name, documents, tok, embed, sessionChunkSize, sessionOverlap);
      var base := GetOrCreate(cols, name);
      var old_ := base[name];
      var added := AddedRecords(cols, name, documents, tok, embed, sessionChunkSize, sessionOverlap);
      assert out.collections == base[name := old_ + added];
      assert (old_ + added)[..|old_|] == old_;
    }
  }

  /**
   * Ids collide across calls: the document number counts from the record
   * count, but a document without chunks takes a number and adds no record.
   * Adding `("a", "")` and `("b", "t")` stores `doc_1_chunk_0`; adding
   * `("c", "m")` afterwards numbers its chunk `doc_1_chunk_0` too, so the
   * collection keeps the first record and the second call stores nothing,
   * while still returning the collection.
   */
  lemma AddToCollectionIdCollision(tok: TokenChunker.Tokenizer, embed: Embedder, sessionChunkSize: int,
                                   sessionOverlap: int, e1: Embedding, e2: Embedding)
    requires DocumentChunks(tok, "t", sessionChunkSize, sessionOverlap) == Some(["t"])
    requires DocumentChunks(tok, "m", sessionChunkSize, sessionOverlap) == Some(["m"])
    requires embed(["t"]) == Some([e1]) && embed(["m"]) == Some([e2]) && |e1| == |e2|
    ensures var first := AddToCollectionSpec(map[], "kb", [("a", ""), ("b", "t")], tok, embed, sessionChunkSize, sessionOverlap);
      first == AddOutcome(Returned(Some("kb")), map["kb" := [Record(IdOf(1, 0), "t", Metadata("b", 0, Some(1)), e1)]])
      && AddToCollectionSpec(first.collections, "kb", [("c", "m")], tok, embed, sessionChunkSize, sessionOverlap)
         == AddOutcome(Returned(Some("kb")), first.collections)
  {
    CollisionFirstCall(tok, embed, sessionChunkSize, sessionOverlap, e1);
    CollisionSecondCall(tok, embed, sessionChunkSize, sessionOverlap, Record(IdOf(1, 0), "t", Metadata("b", 0, Some(1)), e1), e2);
  }

  /** The first call of `AddToCollectionIdCollision`: the empty document is number 0, `("b", "t")` number 1. */
  lemma CollisionFirstCall(tok: TokenChunker.Tokenizer, embed: Embedder, sessionChunkSize: int,
                           sessionOverlap: int, e1: Embedding)
    requires DocumentChunks(tok, "t", sessionChunkSize, sessionOverlap) == Some(["t"])
    requires embed(["t"]) == Some([e1])
    ensures AddToCollectionSpec(map[], "kb", [("a", ""), ("b", "t")], tok, embed, sessionChunkSize, sessionOverlap)
      == AddOutcome(Returned(Some("kb")), map["kb" := [Record(IdOf(1, 0), "t", Metadata("b", 0, Some(1)), e1)]])
  {
    var x := Record(IdOf(1, 0), "t", Metadata("b", 0, Some(1)), e1);
    CollisionFirstChunks(tok, sessionChunkSize, sessionOverlap);
    SecondDocumentEntries("a", "b", "t");
    AddOneToEmpty(x);
    SingleRecordAdd(map[], "kb", [("a", ""), ("b", "t")], tok, embed, sessionChunkSize, sessionOverlap,
                    [DocumentData("a", []), DocumentData("b", ["t"])],
                    Entry(IdOf(1, 0), "t", Metadata("b", 0, Some(1))), e1, [x]);
    FreshCollectionSet("kb", [x]);
  }

  /** One record added to an empty collection is stored. */
  lemma AddOneToEmpty(x: Record)
    ensures CollectionAdd([], [x]) == Some([x])
  {
    assert [x][..0] == [];
    assert !Stored([], x.id);
    assert Unstored([], [x]) == [x];
  }

  /** Creating a collection and then setting it is setting it on no collections. */
  lemma FreshCollectionSet(name: string, records: seq<Record>)
    ensures GetOrCreate(map[], name)[name := records] == map[name := records]
  {
  }

  /**
   * A call whose documents give exactly one chunk: `add_to_collection`
   * embeds it alone and returns the collection with what the add keeps.
   */
  lemma SingleRecordAdd(cols: map<string, seq<Record>>, name: string, documents: seq<(string, string)>,
                        tok: TokenChunker.Tokenizer, embed: Embedder, sessionChunkSize: int, sessionOverlap: int,
                        docs: seq<DocumentData>, e: Entry, emb: Embedding, records: seq<Record>)
    requires documents != []
    requires ChunkDocuments(tok, documents, sessionChunkSize, sessionOverlap) == Some(docs)
    requires ChatEntries(docs, |GetOrCreate(cols, name)[name]|, |docs|) == [e]
    requires embed([e.chunk]) == Some([emb])
    requires CollectionAdd(GetOrCreate(cols, name)[name], [Record(e.id, e.chunk, e.metadata, emb)]) == Some(records)
    ensures AddToCollectionSpec(cols, name, documents, tok, embed, sessionChunkSize, sessionOverlap)
      == AddOutcome(Returned(Some(name)), GetOrCreate(cols, name)[name := records])
  {
    assert VectorStore.EntryChunks([e]) == [e.chunk];
    assert ToRecords([e], [emb]) == [Record(e.id, e.chunk, e.metadata, emb)];
  }

  /** The entries of two documents, the first without chunks and the second with one non-blank chunk. */
  lemma SecondDocumentEntries(f0: string, f1: string, t: string)
    requires !IsBlank(t)
    ensures ChatEntries([DocumentData(f0, []), DocumentData(f1, [t])], 0, 2) == [Entry(IdOf(1, 0), t, Metadata(f1, 0, Some(1)))]
  {
    var d := [DocumentData(f0, []), DocumentData(f1, [t])];
    assert ChatEntries(d, 0, 1) == [];
    assert ChunkEntries(f1, 1, [t], 1) == [Entry(IdOf(1, 0), t, Metadata(f1, 0, None))];
  }

  /** The entries of one document with one non-blank chunk, numbered `n`. */
  lemma OneDocumentEntries(f: string, t: string, n: nat)
    requires !IsBlank(t)
    ensures ChatEntries([DocumentData(f, [t])], n, 1) == [Entry(IdOf(n, 0), t, Metadata(f, 0, Some(n)))]
  {
    assert ChunkEntries(f, n, [t], 1) == [Entry(IdOf(n, 0), t, Metadata(f, 0, None))];
  }

  /** The documents of the first call of `AddToCollectionIdCollision`, chunked. */
  lemma CollisionFirstChunks(tok: TokenChunker.Tokenizer, sessionChunkSize: int, sessionOverlap: int)
    requires DocumentChunks(tok, "t", sessionChunkSize, sessionOverlap) == Some(["t"])
    ensures ChunkDocuments(tok, [("a", ""), ("b", "t")], sessionChunkSize, sessionOverlap)
      == Some([DocumentData("a", []), DocumentData("b", ["t"])])
    ensures !IsBlank("t")
  {
    var docs1: seq<(string, string)> := [("a", ""), ("b", "t")];
    assert IsBlank("");
    assert !IsSpace("t"[0]);
    assert DocumentChunks(tok, "", sessionChunkSize, sessionOverlap) == Some([]);
    var a: seq<(string, string)> := [("a", "")];
    assert a[..0] == [] && a[|a| - 1] == ("a", "");
    assert ChunkDocuments(tok, a[..0], sessionChunkSize, sessionOverlap) == Some([]);
    assert [] + [DocumentData("a", [])] == [DocumentData("a", [])];
    assert ChunkDocuments(tok, a, sessionChunkSize, sessionOverlap) == Some([DocumentData("a", [])]);
    assert docs1[..1] == a && docs1[|docs1| - 1] == ("b", "t");
    assert [DocumentData("a", [])] + [DocumentData("b", ["t"])] == [DocumentData("a", []), DocumentData("b", ["t"])];
  }

  /** The document of the second call of `AddToCollectionIdCollision`, chunked. */
  lemma CollisionSecondChunks(tok: TokenChunker.Tokenizer, sessionChunkSize: int, sessionOverlap: int)
    requires DocumentChunks(tok, "m", sessionChunkSize, sessionOverlap) == Some(["m"])
    ensures ChunkDocuments(tok, [("c", "m")], sessionChunkSize, sessionOverlap) == Some([DocumentData("c", ["m"])])
    ensures !IsBlank("m")
  {
    assert !IsSpace("m"[0]);
    var docs2: seq<(string, string)> := [("c", "m")];
    assert docs2[..0] == [] && docs2[|docs2| - 1] == ("c", "m");
    assert ChunkDocuments(tok, docs2[..0], sessionChunkSize, sessionOverlap) == Some([]);
    assert [] + [DocumentData("c", ["m"])] == [DocumentData("c", ["m"])];
  }

  /** The second call of `AddToCollectionIdCollision`: its one chunk is numbered `doc_1_chunk_0` and skipped. */
  lemma CollisionSecondCall(tok: TokenChunker.Tokenizer, embed: Embedder, sessionChunkSize: int,
                            sessionOverlap: int, x: Record, e2: Embedding)
    requires DocumentChunks(tok, "m", sessionChunkSize, sessionOverlap) == Some(["m"])
    requires embed(["m"]) == Some([e2]) && |x.embedding| == |e2| && x.id == IdOf(1, 0)
    ensures AddToCollectionSpec(map["kb" := [x]], "kb", [("c", "m")], tok, embed, sessionChunkSize, sessionOverlap)
      == AddOutcome(Returned(Some("kb")), map["kb" := [x]])
  {
    var cols1 := map["kb" := [x]];
    CollisionSecondChunks(tok, sessionChunkSize, sessionOverlap);
    OneDocumentEntries("c", "m", 1);
    var y := Record(IdOf(1, 0), "m", Metadata("c", 0, Some(1)), e2);
    assert Stored([x], y.id) by { assert [x][0].id == y.id; }
    CollectionAddSkipsStored([x], y);
    SingleRecordAdd(cols1, "kb", [("c", "m")], tok, embed, sessionChunkSize, sessionOverlap,
                    [DocumentData("c", ["m"])], Entry(IdOf(1, 0), "m", Metadata("c", 0, Some(1))), e2, [x]);
    assert cols1["kb" := [x]] == cols1;
  }

  /** The ids of `records` from index `lo` on are pairwise distinct. */
  predicate IdsDistinctFrom(records: seq<Record>, lo: nat) {
    forall i, j :: lo <= i < j < |records| ==> records[i].id != records[j].id
  }

  /** The record holds a `doc_index` of at least `lo`, and its id is built from that index and its chunk index. */
  predicate CarriesDocIndex(r: Record, lo: nat) {
    r.metadata.docIndex.Some? && lo <= r.metadata.docIndex.value
    && r.id == IdOf(r.metadata.docIndex.value, r.metadata.chunkIndex)
  }

  /**
   * When a call appends records, it returns the collection's name, the new
   * ids are distinct, and each holds its `doc_index` and chunk index, with
   * `doc_index` counting from the record count before the call.
   */
  lemma AddToCollectionIds(cols: map<string, seq<Record>>, name: string, documents: seq<(string, string)>,
                           tok: TokenChunker.Tokenizer, embed: Embedder, sessionChunkSize: int, sessionOverlap: int)
    requires documents != []
    ensures var out := AddToCollectionSpec(cols, name, documents, tok, embed, sessionChunkSize, sessionOverlap);
      var old_ := if name in cols then cols[name] else [];
      var records := out.collections[name];
      records != old_ ==>
        out.result == Returned(Some(name)) && IdsDistinctFrom(records, |old_|)
        && forall i :: |old_| <= i < |records| ==> CarriesDocIndex(records[i], |old_|)
  {
    var old_ := if name in cols then cols[name] else [];
    var added := AddedRecords(cols, name, documents, tok, embed, sessionChunkSize, sessionOverlap);
    var records := old_ + added;
    assert records != old_ ==> added != [];
  }

  /**
   * What a call with documents appends to the named collection (possibly
   * nothing): records with distinct ids, none of them stored before, that
   * carry their `doc_index`, counted from the record count before the call.
   */
  lemma AddedRecords(cols: map<string, seq<Record>>, name: string, documents: seq<(string, string)>,
                     tok: TokenChunker.Tokenizer, embed: Embedder, sessionChunkSize: int, sessionOverlap: int)
      returns (added: seq<Record>)
    requires documents != []
    ensures var base := GetOrCreate(cols, name);
      var out := AddToCollectionSpec(cols, name, documents, tok, embed, sessionChunkSize, sessionOverlap);
      out.collections == base[name := base[name] + added]
      && (added != [] ==> out.result == Returned(Some(name)))
    ensures var old_ := if name in cols then cols[name] else [];
      AddToCollectionSpec(cols, name, documents, tok, embed, sessionChunkSize, sessionOverlap).collections[name] == old_ + added
    ensures IdsDistinctFrom(added, 0)
    ensures forall i :: 0 <= i < |added| ==> CarriesDocIndex(added[i], |GetOrCreate(cols, name)[name]|)
    ensures forall i :: 0 <= i < |added| ==> !Stored(GetOrCreate(cols, name)[name], added[i].id)
  {
    var base := GetOrCreate(cols, name);
    var old_ := base[name];
    var out := AddToCollectionSpec(cols, name, documents, tok, embed, sessionChunkSize, sessionOverlap);
    var docs := ChunkDocuments(tok, documents, sessionChunkSize, sessionOverlap);
    if docs.Some? {
      var es := ChatEntries(docs.value, |old_|, |docs.value|);
      var embeddings := embed(VectorStore.EntryChunks(es));
      if es != [] && embeddings.Some? && |embeddings.value| == |es| && CollectionAdd(old_, ToRecords(es, embeddings.value)).Some? {
        added := Unstored(old_, ToRecords(es, embeddings.value));
        assert out == AddOutcome(Returned(Some(name)), base[name := old_ + added]);
        UnstoredChatRecords(old_, docs.value, embeddings.value);
        return;
      }
    }
    added := [];
    assert out.collections == base;
    assert old_ + added == old_;
    assert base[name := old_ + added] == base;
  }

  /** The chat batch's records that a collection keeps have distinct, unstored ids carrying their `doc_index`. */
  lemma UnstoredChatRecords(old_: seq<Record>, docs: seq<DocumentData>, embeddings: seq<Embedding>)
    requires |embeddings| == |ChatEntries(docs, |old_|, |docs|)|
    requires DistinctIds(ToRecords(ChatEntries(docs, |old_|, |docs|), embeddings))
    ensures var added := Unstored(old_, ToRecords(ChatEntries(docs, |old_|, |docs|), embeddings));
      IdsDistinctFrom(added, 0)
      && (forall i :: 0 <= i < |added| ==> CarriesDocIndex(added[i], |old_|))
      && (forall i :: 0 <= i < |added| ==> !Stored(old_, added[i].id))
  {
    var es := ChatEntries(docs, |old_|, |docs|);
    ChatEntriesDocIndex(docs, |old_|, |docs|);
    var batch := ToRecords(es, embeddings);
    var added := Unstored(old_, batch);
    UnstoredDistinct(old_, batch);
    UnstoredExactly(old_, batch);
    forall i | 0 <= i < |added|
      ensures CarriesDocIndex(added[i], |old_|)
    {
      assert added[i] in added;
      var j :| 0 <= j < |batch| && batch[j] == added[i];
      assert batch[j].metadata == es[j].metadata && batch[j].id == es[j].id;
    }
  }

  /** As in ChromaDB, a collection whose ids are distinct keeps them distinct through `add_to_collection`. */
  lemma AddToCollectionKeepsIdsDistinct(cols: map<string, seq<Record>>, name: string, documents: seq<(string, string)>,
                                        tok: TokenChunker.Tokenizer, embed: Embedder, sessionChunkSize: int, sessionOverlap: int)
    requires name in cols ==> DistinctIds(cols[name])
    ensures var out := AddToCollectionSpec(cols, name, documents, tok, embed, sessionChunkSize, sessionOverlap);
      name in out.collections ==> DistinctIds(out.collections[name])
  {
    var old_ := GetOrCreate(cols, name)[name];
    if documents != [] {
      var added := AddedRecords(cols, name, documents, tok, embed, sessionChunkSize, sessionOverlap);
      assert DistinctIds(added) by {
        assert IdsDistinctFrom(added, 0);
      }
      AppendFreshKeepsIdsDistinct(old_, added);
    }
  }

  /** One more document: the chunks of a prefix of the documents extended by the next one. */
  lemma ChunkDocumentsStep(tok: TokenChunker.Tokenizer, documents: seq<(string, string)>,
                           sessionChunkSize: int, sessionOverlap: int, k: nat, done: seq<DocumentData>)
    requires k < |documents|
    requires ChunkDocuments(tok, documents[..k], sessionChunkSize, sessionOverlap) == Some(done)
    ensures ChunkDocuments(tok, documents[..k + 1], sessionChunkSize, sessionOverlap)
      == match DocumentChunks(tok, documents[k].1, sessionChunkSize, sessionOverlap)
         case None => None
         case Some(chunks) => Some(done + [DocumentData(documents[k].0, chunks)])
  {
    assert documents[..k + 1][..k] == documents[..k];
  }

  /** The document loop of `add_to_collection`: the parallel chunk, metadata and id lists, or `raised`. */
  method BuildChatBatch(tok: TokenChunker.Tokenizer, documents: seq<(string, string)>, docOffset: nat,
                        sessionChunkSize: int, sessionOverlap: int)
      returns (raised: bool, allChunks: seq<string>, metadatas: seq<Metadata>, ids: seq<string>)
    ensures raised <==> ChunkDocuments(tok, documents, sessionChunkSize, sessionOverlap).None?
    ensures !raised ==>
      Mirrors(allChunks, metadatas, ids,
              ChatEntries(ChunkDocuments(tok, documents, sessionChunkSize, sessionOverlap).value, docOffset, |documents|))
  {
    allChunks, metadatas, ids := [], [], [];
    ghost var docs: seq<DocumentData> := [];
    var docIdx := 0;
    while docIdx < |documents|
      invariant docIdx <= |documents|
      invariant ChunkDocuments(tok, documents[..docIdx], sessionChunkSize, sessionOverlap) == Some(docs)
      invariant |docs| == docIdx
      invariant Mirrors(allChunks, metadatas, ids, ChatEntries(docs, docOffset, |docs|))
    {
      var (filename, text) := documents[docIdx];
      ChunkDocumentsStep(tok, documents, sessionChunkSize, sessionOverlap, docIdx, docs);
      var chunked := ChunkDocument(tok, text, sessionChunkSize, sessionOverlap);
      if chunked.None? {
        ChunkDocumentsNoneStays(tok, documents, sessionChunkSize, sessionOverlap, docIdx + 1);
        return true, [], [], [];
      }
      var d := DocumentData(filename, chunked.value);
      allChunks, metadatas, ids := AppendDocument(docs, d, docOffset, docOffset + docIdx, allChunks, metadatas, ids);
      docs := docs + [d];
      docIdx := docIdx + 1;
    }
    assert documents[..docIdx] == documents;
    raised := false;
  }

  /** A blank text is skipped; any other is chunked with the session's settings. */
  method ChunkDocument(tok: TokenChunker.Tokenizer, text: string, sessionChunkSize: int, sessionOverlap: int)
      returns (chunks: Option<seq<string>>)
    ensures chunks == DocumentChunks(tok, text, sessionChunkSize, sessionOverlap)
    ensures chunks.Some? && IsBlank(text) ==> chunks.value == []
  {
    if IsBlank(text) {
      return Some([]);
    }
    chunks := ChunkText(tok, text, 0, 0, sessionChunkSize, sessionOverlap);
  }

  /** One more document `d`, the one after `docs`: its entries are appended to the parallel lists. */
  method AppendDocument(ghost docs: seq<DocumentData>, d: DocumentData, docOffset: nat, docNum: nat,
                        allChunks0: seq<string>, metadatas0: seq<Metadata>, ids0: seq<string>)
      returns (allChunks: seq<string>, metadatas: seq<Metadata>, ids: seq<string>)
    requires docNum == docOffset + |docs|
    requires Mirrors(allChunks0, metadatas0, ids0, ChatEntries(docs, docOffset, |docs|))
    ensures Mirrors(allChunks, metadatas, ids, ChatEntries(docs + [d], docOffset, |docs + [d]|))
  {
    ghost var es;
    allChunks, metadatas, ids, es := AppendChunks(d.filename, docNum, d.chunks, allChunks0, metadatas0, ids0,
                                                  ChatEntries(docs, docOffset, |docs|));
    ChatEntriesStep(docs, d, docOffset, ChatEntries(docs, docOffset, |docs|), es);
  }

  /** The chunk loop of `add_to_collection` for document number `docNum`. */
  method AppendChunks(filename: string, docNum: nat, chunks: seq<string>,
                      allChunks0: seq<string>, metadatas0: seq<Metadata>, ids0: seq<string>, ghost es0: seq<Entry>)
      returns (allChunks: seq<string>, metadatas: seq<Metadata>, ids: seq<string>, ghost es: seq<Entry>)
    requires Mirrors(allChunks0, metadatas0, ids0, es0)
    ensures es == es0 + WithDocIndex(ChunkEntries(filename, docNum, chunks, |chunks|), docNum)
    ensures Mirrors(allChunks, metadatas, ids, es)
  {
    allChunks, metadatas, ids, es := allChunks0, metadatas0, ids0, es0;
    var chunkIdx := 0;
    while chunkIdx < |chunks|
      invariant chunkIdx <= |chunks|
      invariant es == es0 + WithDocIndex(ChunkEntries(filename, docNum, chunks, chunkIdx), docNum)
      invariant Mirrors(allChunks, metadatas, ids, es)
    {
      var chunk := chunks[chunkIdx];
      if !IsBlank(chunk) {
        var meta := Metadata(filename, chunkIdx, Some(docNum));
        var id := "doc_" + NatToString(docNum) + "_chunk_" + NatToString(chunkIdx);
        MirrorsSnoc(allChunks, metadatas, ids, es, Entry(id, chunk, meta));
        allChunks := allChunks + [chunk];
        metadatas := metadatas + [meta];
        ids := ids + [id];
        es := es + [Entry(id, chunk, meta)];
      }
      chunkIdx := chunkIdx + 1;
    }
  }

  /**
   * The client and the engines `add_to_collection` and
   * `search_knowledge_base` use.
   */
  class ChatStore {
    var collections: map<string, seq<Record>>
    const tok: TokenChunker.Tokenizer
    const embed: Embedder
    const engine: QueryEngine

    constructor(tok: TokenChunker.Tokenizer, embed: Embedder, engine: QueryEngine, collections: map<string, seq<Record>>)
      ensures this.tok == tok && this.embed == embed && this.engine == engine
      ensures this.collections == collections
    {
      this.tok := tok;
      this.embed := embed;
      this.engine := engine;
      this.collections := collections;
    }

    /** `add_to_collection`. */
    method AddToCollection(name: string, documents: seq<(string, string)>, sessionChunkSize: int, sessionOverlap: int)
      returns (r: AddResult)
      modifies this
      ensures AddOutcome(r, collections)
           == AddToCollectionSpec(old(collections), name, documents, tok, embed, sessionChunkSize, sessionOverlap)
    {
      if documents == [] {
        return Returned(None);
      }
      collections := GetOrCreate(collections, name);
      var docOffset := |collections[name]|;
      var raised, allChunks, metadatas, ids := BuildChatBatch(tok, documents, docOffset, sessionChunkSize, sessionOverlap);
      if raised {
        return Raised;
      }
      ghost var es := ChatEntries(ChunkDocuments(tok, documents, sessionChunkSize, sessionOverlap).value, docOffset, |documents|);
      if allChunks == [] {
        return Returned(Some(name));
      }
      assert allChunks == VectorStore.EntryChunks(es);
      var embeddings := embed(allChunks);
      if embeddings.None? || |embeddings.value| != |allChunks| {
        return Returned(None);
      }
      var added := seq(|allChunks|, i requires 0 <= i < |allChunks| => Record(ids[i], allChunks[i], metadatas[i], embeddings.value[i]));
      assert added == ToRecords(es, embeddings.value);
      var result := CollectionAdd(collections[name], added);
      if result.None? {
        return Returned(None);
      }
      collections := collections[name := result.value];
      r := Returned(Some(name));
    }

    /** `search_knowledge_base`, on the collection object held by the session (`None` if none). */
    method SearchKnowledgeBase(collection: Option<string>, query: string, nResults: int, sessionNResults: int)
      returns (r: seq<ChatHit>)
      ensures r == SearchKnowledgeBaseSpec(if collection.Some? && collection.value in collections
                                           then Some(collections[collection.value]) else None,
                                           collection.Some?, query, nResults, sessionNResults, engine)
    {
      if collection.None? {
        return [];
      }
      var n := OrElse(nResults, sessionNResults);
      if collection.value !in collections {
        return [];
      }
      var results := engine(collections[collection.value], query, n);
      if results.None? {
        return [];
      }
      r := Zipped(results.value);
    }
  }

  lemma {:induction false} ChunkDocumentsNoneStays(tok: TokenChunker.Tokenizer, documents: seq<(string, string)>,
                                                   sessionChunkSize: int, sessionOverlap: int, k: nat)
    requires k <= |documents|
    requires ChunkDocuments(tok, documents[..k], sessionChunkSize, sessionOverlap).None?
    ensures ChunkDocuments(tok, documents, sessionChunkSize, sessionOverlap).None?
    decreases |documents| - k
  {
    if k < |documents| {
      assert documents[..k + 1][..k] == documents[..k];
      ChunkDocumentsNoneStays(tok, documents, sessionChunkSize, sessionOverlap, k + 1);
    } else {
      assert documents[..k] == documents;
    }
  }

  /** The entries after one more document are those before it followed by its own. */
  lemma ChatEntriesStep(docs: seq<DocumentData>, d: DocumentData, offset: nat, es0: seq<Entry>, es: seq<Entry>)
    requires es0 == ChatEntries(docs, offset, |docs|)
    requires es == es0 + WithDocIndex(ChunkEntries(d.filename, offset + |docs|, d.chunks, |d.chunks|), offset + |docs|)
    ensures es == ChatEntries(docs + [d], offset, |docs + [d]|)
  {
    ChatEntriesPrefix(docs, d, offset);
  }

  lemma ChatEntriesPrefix(docs: seq<DocumentData>, d: DocumentData, offset: nat)
    ensures ChatEntries(docs + [d], offset, |docs| + 1)
         == ChatEntries(docs, offset, |docs|)
            + WithDocIndex(ChunkEntries(d.filename, offset + |docs|, d.chunks, |d.chunks|), offset + |docs|)
  {
    ChatEntriesOfPrefix(docs + [d], docs, offset, |docs|);
  }

  lemma {:induction false} ChatEntriesOfPrefix(docs: seq<DocumentData>, prefix: seq<DocumentData>, offset: nat, m: nat)
    requires m <= |prefix| <= |docs| && prefix == docs[..|prefix|]
    ensures ChatEntries(docs, offset, m) == ChatEntries(prefix, offset, m)
  {
    if m > 0 {
      ChatEntriesOfPrefix(docs, prefix, offset, m - 1);
      assert docs[m - 1] == prefix[m - 1];
    }
  }

  // ------------------------------------------------------------ search_knowledge_base

  /** One result as the page shows it. */
  datatype ChatHit = ChatHit(content: string, metadata: Metadata, distance: real)

  function Zipped(cands: seq<Candidate>): (r: seq<ChatHit>)
    ensures |r| == |cands|
    ensures forall i :: 0 <= i < |cands| ==> r[i] == ChatHit(cands[i].document, cands[i].metadata, cands[i].distance)
  {
    seq(|cands|, i requires 0 <= i < |cands| => ChatHit(cands[i].document, cands[i].metadata, cands[i].distance))
  }

  /**
   * `search_knowledge_base`: [] without a collection object (`hasCollection`
   * false), when the collection is gone (`records` is `None`) or when the
   * query raises; otherwise the engine's documents, metadatas and distances
   * zipped in engine order, `n_results` defaulting to the session value.
   */
  function SearchKnowledgeBaseSpec(records: Option<seq<Record>>, hasCollection: bool, query: string, nResults: int,
                                   sessionNResults: int, engine: QueryEngine): seq<ChatHit> {
    if !hasCollection || records.None? then []
    else
      match engine(records.value, query, OrElse(nResults, sessionNResults))
      case None => []
      case Some(cands) => Zipped(cands)
  }

  /**
   * The results are the engine's candidates one for one, in engine order,
   * or [] when there is nothing to search or the query fails.
   */
  lemma SearchKnowledgeBaseResults(records: Option<seq<Record>>, hasCollection: bool, query: string, nResults: int,
                                   sessionNResults: int, engine: QueryEngine)
    ensures var r := SearchKnowledgeBaseSpec(records, hasCollection, query, nResults, sessionNResults, engine);
      (!hasCollection || records.None? ==> r == [])
      && (hasCollection && records.Some? ==>
          match engine(records.value, query, OrElse(nResults, sessionNResults))
          case None => r == []
          case Some(cands) => (|r| == |cands|
            && forall i :: 0 <= i < |r| ==> (r[i].content == cands[i].document
                 && r[i].metadata == cands[i].metadata && r[i].distance == cands[i].distance)))
  {
  }
}
