/**
 * chat/rag/chunker.py: the character-based `TextChunker` of the chat RAG
 * system, with its `RAGConfig` limits (chat/config/settings.py): parameter
 * clamping, `_preprocess_text`, the fixed, recursive and paragraph
 * strategies, `Chunk.validate` and the `chunk_text` driver.
 */
module RagChunker {
  import opened Wrappers
  import opened Text
  import opened PySeq
  import opened Normalizer

  // ------------------------------------------------------------ RAGConfig

  const MinChunkChars := 20
  const MaxChunkChars := 2000
  /** A sentence splitter: a non-empty literal string. */
  type Pattern = s: string | |s| > 0 witness "."

  const SentenceSplitters: seq<Pattern> := [". ", "! ", "? ", "\n\n", "\n"]

  /** Python's `a // b`, which rounds toward negative infinity. */
  function FloorDiv(a: int, b: int): int
    requires b != 0
  {
    if b > 0 then a / b else (-a) / (-b)
  }

  lemma FloorDivSpec(a: int, b: int)
    requires b != 0
    ensures FloorDiv(a, b) * b <= a < FloorDiv(a, b) * b + (if b > 0 then b else -b) || b < 0
    ensures b < 0 ==> FloorDiv(a, b) * b >= a > FloorDiv(a, b) * b + b
  {
  }

  // ------------------------------------------------------------ Chunk

  /** The chunk metadata: the document's own entries, then the five chunk keys, which take precedence. */
  datatype ChunkMetadata = ChunkMetadata(base: map<string, string>, chunkMethod: string, chunkIndex: nat,
                                         totalChunks: nat, chunkSizeConfig: int, overlapConfig: int)

  datatype Chunk = Chunk(content: string, index: nat, startChar: int, endChar: int, metadata: ChunkMetadata)

  /** `Chunk.validate`. */
  predicate Validate(c: Chunk) {
    if c.content == [] || IsBlank(c.content) then false
    else if |Strip(c.content)| < MinChunkChars then false
    else if |c.content| > MaxChunkChars then false
    else true
  }

  /** A chunk is valid exactly when its stripped content has 20 characters or more and its raw content at most 2000. */
  lemma ValidateIff(c: Chunk)
    ensures Validate(c) <==> MinChunkChars <= |Strip(c.content)| && |c.content| <= MaxChunkChars
  {
    StripEmptyIffBlank(c.content);
  }

  // ------------------------------------------------------------ TextChunker.__init__

  /**
   * A text chunker; `strategy` is the `method` argument, kept as given, and
   * `splitters` the sentence splitters it copies from `RAGConfig`.
   */
  datatype Chunker = Chunker(chunkSize: int, overlap: int, strategy: string, splitters: seq<Pattern>)

  /** The configuration every constructed chunker has. */
  predicate ValidChunker(c: Chunker) {
    MinChunkChars <= c.chunkSize <= MaxChunkChars && 0 <= c.overlap < c.chunkSize
  }

  /**
   * `TextChunker(chunk_size, overlap, method)`: the size is clamped to
   * [20, 2000] and the overlap to [0, chunk_size // 2] of the RAW size;
   * `Err` is the `ChunkingError` raised when the clamped size does not
   * exceed the clamped overlap.
   */
  function NewChunker(chunkSize: int, overlap: int, strategy: string): Result<Chunker, string> {
    var size := Max(MinChunkChars, Min(chunkSize, MaxChunkChars));
    var ov := Max(0, Min(overlap, FloorDiv(chunkSize, 2)));
    if size <= ov then Err("Chunk size must be greater than overlap")
    else Ok(Chunker(size, ov, strategy, SentenceSplitters))
  }

  /** The clamped values, and that every constructed chunker is valid. */
  lemma NewChunkerClamps(chunkSize: int, overlap: int, strategy: string)
    requires NewChunker(chunkSize, overlap, strategy).Ok?
    ensures var c := NewChunker(chunkSize, overlap, strategy).value;
      ValidChunker(c) && c.strategy == strategy && c.splitters == SentenceSplitters
      && (chunkSize < MinChunkChars ==> c.chunkSize == MinChunkChars)
      && (MinChunkChars <= chunkSize <= MaxChunkChars ==> c.chunkSize == chunkSize)
      && (chunkSize > MaxChunkChars ==> c.chunkSize == MaxChunkChars)
      && c.overlap == (if overlap < 0 then 0 else if overlap <= FloorDiv(chunkSize, 2) then overlap
                       else Max(0, FloorDiv(chunkSize, 2)))
  {
  }

  /**
   * The constructor raises exactly when the overlap is 2000 or more and the
   * raw size 4000 or more: the overlap is bounded by half the raw size, so
   * it can reach the clamped size only when the raw size is large.
   */
  lemma NewChunkerFailsIff(chunkSize: int, overlap: int, strategy: string)
    ensures NewChunker(chunkSize, overlap, strategy).Err? <==> overlap >= MaxChunkChars && chunkSize >= 2 * MaxChunkChars
  {
  }

  /** The default `TextChunker()` is size 1000, overlap 200, recursive. */
  lemma DefaultChunker()
    ensures NewChunker(1000, 200, "recursive") == Ok(Chunker(1000, 200, "recursive", SentenceSplitters))
  {
  }

  // ------------------------------------------------------------ _preprocess_text

  /** The length of the leading whitespace run of `s`. */
  function SpaceRun(s: string): (k: nat)
    ensures k <= |s|
    ensures forall i :: 0 <= i < k ==> IsSpace(s[i])
    ensures k < |s| ==> !IsSpace(s[k])
  {
    if s != [] && IsSpace(s[0]) then 1 + SpaceRun(s[1..]) else 0
  }

  /** `re.sub(r'\s+', ' ', s)`: each maximal whitespace run becomes one space. */
  function SqueezeSpaces(s: string): (r: string)
    ensures s == [] <==> r == []
    ensures s != [] ==> r[0] == (if IsSpace(s[0]) then ' ' else s[0])
    decreases |s|
  {
    if s == [] then []
    else if IsSpace(s[0]) then
      var k := SpaceRun(s);
      " " + SqueezeSpaces(s[k..])
    else [s[0]] + SqueezeSpaces(s[1..])
  }

  /** The only whitespace character is the plain space. */
  predicate SpacesOnly(s: string) {
    forall i :: 0 <= i < |s| && IsSpace(s[i]) ==> s[i] == ' '
  }

  lemma {:induction false} SqueezeSpacesShape(s: string)
    ensures SpacesOnly(SqueezeSpaces(s)) && PairFree(SqueezeSpaces(s), DoubleSpace)
    decreases |s|
  {
    if s != [] {
      if IsSpace(s[0]) {
        var k := SpaceRun(s);
        SqueezeSpacesShape(s[k..]);
        PairFreeConcat(" ", SqueezeSpaces(s[k..]), DoubleSpace);
      } else {
        SqueezeSpacesShape(s[1..]);
        PairFreeConcat([s[0]], SqueezeSpaces(s[1..]), DoubleSpace);
      }
    }
  }

  /** A non-blank input keeps a non-space character. */
  lemma {:induction false} SqueezeSpacesNonBlank(s: string)
    requires !IsBlank(s)
    ensures !IsBlank(SqueezeSpaces(s))
    decreases |s|
  {
    if IsSpace(s[0]) {
      var k := SpaceRun(s);
      assert !IsBlank(s[k..]) by {
        var j :| 0 <= j < |s| && !IsSpace(s[j]);
        assert s[k..][j - k] == s[j];
      }
      SqueezeSpacesNonBlank(s[k..]);
      var t := SqueezeSpaces(s[k..]);
      var j :| 0 <= j < |t| && !IsSpace(t[j]);
      assert (" " + t)[j + 1] == t[j];
    }
  }

  predicate IsPunct(c: char) {
    c == '.' || c == '!' || c == '?'
  }

  /** The length of the leading run of `c` in `s`. */
  function CharRun(s: string, c: char): (k: nat)
    ensures k <= |s|
    ensures forall i :: 0 <= i < k ==> s[i] == c
    ensures k < |s| ==> s[k] != c
  {
    if s != [] && s[0] == c then 1 + CharRun(s[1..], c) else 0
  }

  /** A run of three or more copies of one of '.', '!', '?' starts at `i`. */
  predicate TripleAt(s: string, i: int) {
    0 <= i && i + 2 < |s| && IsPunct(s[i]) && s[i + 1] == s[i] && s[i + 2] == s[i]
  }

  /**
   * `re.sub(r'([.!?])\1{2,}', r'\1', s)`: every run of three or more of the
   * same '.', '!' or '?' becomes one; runs of two are kept.
   */
  function CollapsePunct(s: string): (r: string)
    ensures s == [] <==> r == []
    ensures |r| <= |s|
    ensures s != [] ==> r[0] == s[0]
    ensures |r| >= 2 && r[1] == r[0] ==> s[1] == s[0] && !TripleAt(s, 0)
    ensures forall i :: !TripleAt(r, i)
    decreases |s|
  {
    if s == [] then []
    else if TripleAt(s, 0) then
      var k := CharRun(s, s[0]);
      var rest := CollapsePunct(s[k..]);
      assert forall i :: !TripleAt([s[0]] + rest, i) by {
        forall i | 0 <= i
          ensures !TripleAt([s[0]] + rest, i)
        {
          if i >= 1 {
            assert !TripleAt(rest, i - 1);
          }
        }
      }
      [s[0]] + rest
    else
      var rest := CollapsePunct(s[1..]);
      assert forall i :: !TripleAt([s[0]] + rest, i) by {
        forall i | 0 <= i
          ensures !TripleAt([s[0]] + rest, i)
        {
          if i >= 1 {
            assert !TripleAt(rest, i - 1);
          }
        }
      }
      [s[0]] + rest
  }

  /** Collapsing removes characters only, so any property of every character survives. */
  lemma {:induction false} CollapsePunctKeepsChars(s: string, p: char -> bool)
    requires forall i :: 0 <= i < |s| ==> p(s[i])
    ensures forall i :: 0 <= i < |CollapsePunct(s)| ==> p(CollapsePunct(s)[i])
    decreases |s|
  {
    if s != [] {
      var k := if TripleAt(s, 0) then CharRun(s, s[0]) else 1;
      assert forall i :: 0 <= i < |s[k..]| ==> p(s[k..][i]) by {
        forall i | 0 <= i < |s[k..]|
          ensures p(s[k..][i])
        {
          assert s[k..][i] == s[i + k];
        }
      }
      CollapsePunctKeepsChars(s[k..], p);
    }
  }

  /** Collapsing keeps a space-only string free of double spaces. */
  lemma {:induction false} CollapsePunctNoDoubleSpace(s: string)
    requires PairFree(s, DoubleSpace)
    ensures PairFree(CollapsePunct(s), DoubleSpace)
    decreases |s|
  {
    if s != [] {
      if TripleAt(s, 0) {
        var k := CharRun(s, s[0]);
        PairFreeSlice(s, k, |s|, DoubleSpace);
        CollapsePunctNoDoubleSpace(s[k..]);
        PairFreeConcat([s[0]], CollapsePunct(s[k..]), DoubleSpace);
      } else {
        PairFreeSlice(s, 1, |s|, DoubleSpace);
        CollapsePunctNoDoubleSpace(s[1..]);
        PairFreeConcat([s[0]], CollapsePunct(s[1..]), DoubleSpace);
      }
    }
  }

  /** A non-blank input stays non-blank: every run keeps its first character. */
  lemma {:induction false} CollapsePunctNonBlank(s: string)
    requires !IsBlank(s)
    ensures !IsBlank(CollapsePunct(s))
    decreases |s|
  {
    if !IsSpace(s[0]) {
      assert !IsSpace(CollapsePunct(s)[0]);
    } else {
      assert !TripleAt(s, 0);
      assert !IsBlank(s[1..]) by {
        var j :| 0 <= j < |s| && !IsSpace(s[j]);
        assert s[1..][j - 1] == s[j];
      }
      CollapsePunctNonBlank(s[1..]);
      var t := CollapsePunct(s[1..]);
      var j :| 0 <= j < |t| && !IsSpace(t[j]);
      assert CollapsePunct(s)[j + 1] == t[j];
    }
  }

  /** `_preprocess_text`: whitespace runs, then blank lines, then punctuation runs, then `strip()`. */
  function Preprocess(text: string): string {
    Strip(CollapsePunct(CollapseBlankLines(SqueezeSpaces(text))))
  }

  /** With every whitespace run already a single space, the blank-line step finds no newline. */
  lemma PreprocessBlankLineStepNoop(text: string)
    ensures CollapseBlankLines(SqueezeSpaces(text)) == SqueezeSpaces(text)
  {
    var s := SqueezeSpaces(text);
    SqueezeSpacesShape(text);
    SpacesOnlyNoNewline(s);
    assert NewlineThenText(s);
    CollapseBlankLinesNoop(s);
  }

  /** No '.', '!' or '?' occurs three or more times in a row. */
  predicate NoPunctRuns(s: string) {
    forall i :: 0 <= i < |s| ==> !TripleAt(s, i)
  }

  /** The text before the final `strip()`: space-only, without double spaces or punctuation runs. */
  lemma CollapsedShape(text: string)
    ensures var p := CollapsePunct(CollapseBlankLines(SqueezeSpaces(text)));
      SpacesOnly(p) && PairFree(p, DoubleSpace) && NoPunctRuns(p)
  {
    var s := SqueezeSpaces(text);
    PreprocessBlankLineStepNoop(text);
    SqueezeSpacesShape(text);
    CollapsePunctKeepsChars(s, (ch: char) => IsSpace(ch) ==> ch == ' ');
    CollapsePunctNoDoubleSpace(s);
  }

  /** A slice keeps the three shape properties. */
  lemma SliceShape(p: string, lo: nat, hi: nat)
    requires lo <= hi <= |p|
    requires SpacesOnly(p) && PairFree(p, DoubleSpace) && NoPunctRuns(p)
    ensures var t := p[lo..hi];
      SpacesOnly(t) && PairFree(t, DoubleSpace) && NoPunctRuns(t)
  {
    var t := p[lo..hi];
    PairFreeSlice(p, lo, hi, DoubleSpace);
    forall i | 0 <= i < |t|
      ensures (IsSpace(t[i]) ==> t[i] == ' ') && !TripleAt(t, i)
    {
      assert t[i] == p[lo + i];
      assert !TripleAt(p, lo + i);
      if i + 2 < |t| {
        assert t[i + 1] == p[lo + i + 1] && t[i + 2] == p[lo + i + 2];
      }
    }
  }

  /** The preprocessed text is stripped. */
  lemma PreprocessStripped(text: string)
    ensures var t := Preprocess(text);
      t == [] || (!IsSpace(t[0]) && !IsSpace(t[|t| - 1]))
  {
    StripEnds(CollapsePunct(CollapseBlankLines(SqueezeSpaces(text))));
  }

  /**
   * The preprocessed text contains no whitespace but single spaces and has
   * no run of three of the same '.', '!', '?'.
   */
  lemma PreprocessShape(text: string)
    ensures SpacesOnly(Preprocess(text)) && PairFree(Preprocess(text), DoubleSpace) && NoPunctRuns(Preprocess(text))
  {
    var p := CollapsePunct(CollapseBlankLines(SqueezeSpaces(text)));
    CollapsedShape(text);
    var lo, hi := StripIsSlice(p);
    SliceShape(p, lo, hi);
  }

  /** A space-only text has no newline, so it is a single paragraph. */
  lemma SpacesOnlyNoNewline(t: string)
    requires SpacesOnly(t)
    ensures forall i :: 0 <= i < |t| ==> t[i] != '\n'
  {
    assert IsSpace('\n');
  }

  /** A text that is not blank stays non-empty. */
  lemma PreprocessNonBlank(text: string)
    requires !IsBlank(text)
    ensures Preprocess(text) != []
  {
    var s := SqueezeSpaces(text);
    PreprocessBlankLineStepNoop(text);
    SqueezeSpacesNonBlank(text);
    CollapsePunctNonBlank(s);
    StripEmptyIffBlank(CollapsePunct(s));
  }

  // ------------------------------------------------------------ _fixed_chunk

  /** A `(content, start_char, end_char)` triple produced by a strategy. */
  datatype Piece = Piece(content: string, startChar: int, endChar: int)

  /** `text.rfind(' ', lo, hi)`: the last index in [lo, hi) holding a space, or -1. */
  function RFindSpace(text: string, lo: nat, hi: nat): (k: int)
    requires lo <= hi <= |text|
    ensures k == -1 || (lo <= k < hi && text[k] == ' ')
    ensures forall m :: (if k < 0 then lo else k + 1) <= m < hi ==> text[m] != ' '
    decreases hi - lo
  {
    if lo == hi then -1
    else if text[hi - 1] == ' ' then hi - 1
    else RFindSpace(text, lo, hi - 1)
  }

  /** The end of the window starting at `start`: `chunk_size` on, or just past an earlier space. */
  function FixedEnd(c: Chunker, text: string, start: nat): (e: nat)
    requires ValidChunker(c) && start < |text|
    ensures start < e <= |text| && e - start <= c.chunkSize
  {
    var e := Min(start + c.chunkSize, |text|);
    if e < |text| then
      var wordEnd := RFindSpace(text, start, e);
      if wordEnd > start + c.chunkSize / 2 then wordEnd + 1 else e
    else e
  }

  /**
   * The window is cut back when it stops short of the end of the text and
   * has a space beyond `start + chunk_size // 2`: it then ends just past the
   * last such space; otherwise it is `chunk_size` long or reaches the end.
   */
  lemma FixedEndSpec(c: Chunker, text: string, start: nat)
    requires ValidChunker(c) && start < |text|
    ensures var e0 := Min(start + c.chunkSize, |text|);
      var e := FixedEnd(c, text, start);
      if e0 < |text| && exists k :: start + c.chunkSize / 2 < k < e0 && text[k] == ' ' then
        start + c.chunkSize / 2 < e - 1 && text[e - 1] == ' ' && forall m :: e <= m < e0 ==> text[m] != ' '
      else e == e0
  {
    var e0 := Min(start + c.chunkSize, |text|);
    if e0 < |text| {
      var w := RFindSpace(text, start, e0);
      if exists k :: start + c.chunkSize / 2 < k < e0 && text[k] == ' ' {
        var k :| start + c.chunkSize / 2 < k < e0 && text[k] == ' ';
        assert w >= k;
      }
    }
  }

  lemma FixedEndUnfold(c: Chunker, text: string, start: nat)
    requires ValidChunker(c) && start < |text|
    ensures var e0 := Min(start + c.chunkSize, |text|);
      FixedEnd(c, text, start)
      == if e0 < |text| && RFindSpace(text, start, e0) > start + c.chunkSize / 2 then RFindSpace(text, start, e0) + 1 else e0
  {
  }

  /** The next start: `overlap` characters before the end, but at least one past the old start. */
  function FixedNext(c: Chunker, start: nat, end: nat): (n: nat)
    requires start < end
    ensures start < n <= end
  {
    var n := Max(start + 1, end - c.overlap);
    if n >= end then end else n
  }

  lemma FixedNextUnfold(c: Chunker, start: nat, end: nat)
    requires start < end
    ensures FixedNext(c, start, end) == if Max(start + 1, end - c.overlap) >= end then end else Max(start + 1, end - c.overlap)
  {
  }

  /** The triples `_fixed_chunk` emits from `start` on. */
  function FixedFrom(c: Chunker, text: string, start: nat): seq<Piece>
    requires ValidChunker(c) && start <= |text|
    decreases |text| - start
  {
    if start == |text| then []
    else
      var end := FixedEnd(c, text, start);
      FixedHead(text, start, end) + FixedFrom(c, text, FixedNext(c, start, end))
  }

  /** The triple of the window `[start, end)`, unless its stripped slice is empty. */
  function FixedHead(text: string, start: nat, end: nat): seq<Piece>
    requires start <= end <= |text|
  {
    var chunk := Strip(text[start..end]);
    if chunk != [] then [Piece(chunk, start, end)] else []
  }

  function FixedChunks(c: Chunker, text: string): seq<Piece>
    requires ValidChunker(c)
  {
    FixedFrom(c, text, 0)
  }

  /** One window of `FixedFrom`: its triple, if the stripped slice is not empty, then the rest. */
  lemma FixedFromStep(c: Chunker, text: string, start: nat)
    requires ValidChunker(c) && start < |text|
    ensures FixedFrom(c, text, start)
      == FixedHead(text, start, FixedEnd(c, text, start)) + FixedFrom(c, text, FixedNext(c, start, FixedEnd(c, text, start)))
  {
  }

  lemma AppendAssoc<T>(a: seq<T>, b: seq<T>, d: seq<T>)
    ensures a + (b + d) == (a + b) + d
  {
  }

  lemma FixedLoopStep(c: Chunker, text: string, start: nat, chunks: seq<Piece>, all: seq<Piece>)
    requires ValidChunker(c) && start < |text| && all == chunks + FixedFrom(c, text, start)
    ensures all == (chunks + FixedHead(text, start, FixedEnd(c, text, start)))
                   + FixedFrom(c, text, FixedNext(c, start, FixedEnd(c, text, start)))
  {
    FixedFromStep(c, text, start);
    AppendAssoc(chunks, FixedHead(text, start, FixedEnd(c, text, start)),
                FixedFrom(c, text, FixedNext(c, start, FixedEnd(c, text, start))));
  }

  /** The end of the window at `start`, cut back to just past its last space when that lies in its second half. */
  method WindowEnd(c: Chunker, text: string, start: nat) returns (end: nat)
    requires ValidChunker(c) && start < |text|
    ensures end == FixedEnd(c, text, start)
  {
    end := Min(start + c.chunkSize, |text|);
    if end < |text| {
      var wordEnd := RFindSpace(text, start, end);
      if wordEnd > start + c.chunkSize / 2 {
        end := wordEnd + 1;
      }
    }
    FixedEndUnfold(c, text, start);
  }

  /** `_fixed_chunk`. */
  method FixedChunk(c: Chunker, text: string) returns (chunks: seq<Piece>)
    requires ValidChunker(c)
    ensures chunks == FixedChunks(c, text)
  {
    chunks := [];
    var start := 0;
    ghost var all := FixedChunks(c, text);
    while start < |text|
      invariant 0 <= start <= |text|
      invariant all == chunks + FixedFrom(c, text, start)
      decreases |text| - start
    {
      var end := WindowEnd(c, text, start);
      var piece := WindowPiece(text, start, end);
      FixedLoopStep(c, text, start, chunks, all);
      chunks := chunks + piece;
      start := NextStart(c, start, end);
    }
  }

  /** The triple of the window, or none when its stripped slice is empty. */
  method WindowPiece(text: string, start: nat, end: nat) returns (piece: seq<Piece>)
    requires start <= end <= |text|
    ensures piece == FixedHead(text, start, end)
  {
    var chunkText := Strip(text[start..end]);
    piece := if chunkText != [] then [Piece(chunkText, start, end)] else [];
  }

  /** The next window starts `overlap` before the end, but past the old start and no later than the end. */
  method NextStart(c: Chunker, start: nat, end: nat) returns (next: nat)
    requires start < end
    ensures next == FixedNext(c, start, end)
  {
    FixedNextUnfold(c, start, end);
    next := Max(start + 1, end - c.overlap);
    if next >= end {
      next := end;
    }
  }

  /** A fixed window: in bounds, at most `chunk_size` long, its content the non-empty stripped slice. */
  predicate FixedPiece(c: Chunker, text: string, p: Piece)
    requires ValidChunker(c)
  {
    0 <= p.startChar < p.endChar <= |text| && p.endChar == FixedEnd(c, text, p.startChar)
    && p.endChar - p.startChar <= c.chunkSize
    && p.content == Strip(text[p.startChar..p.endChar]) && p.content != []
  }

  /** Every triple is a fixed window at or after `start`, with strictly increasing starts. */
  /** Fixed windows starting at `start` or later, with strictly increasing starts. */
  predicate FixedWindows(c: Chunker, text: string, r: seq<Piece>, start: int)
    requires ValidChunker(c)
  {
    (forall i :: 0 <= i < |r| ==> start <= r[i].startChar && FixedPiece(c, text, r[i]))
    && (forall i, j :: 0 <= i < j < |r| ==> r[i].startChar < r[j].startChar)
  }

  /** The window at `start` is a fixed window, if it has a triple. */
  lemma FixedHeadWindow(c: Chunker, text: string, start: nat)
    requires ValidChunker(c) && start < |text|
    ensures var head := FixedHead(text, start, FixedEnd(c, text, start));
      FixedWindows(c, text, head, start) && forall i :: 0 <= i < |head| ==> head[i].startChar == start
  {
    var end := FixedEnd(c, text, start);
    var chunk := Strip(text[start..end]);
    var head := FixedHead(text, start, end);
    if chunk != [] {
      var p := Piece(chunk, start, end);
      assert head == [p];
      assert FixedPiece(c, text, p);
    } else {
      assert head == [];
    }
  }

  lemma FixedWindowsConcat(c: Chunker, text: string, head: seq<Piece>, rest: seq<Piece>, start: int, next: int)
    requires ValidChunker(c) && start < next
    requires FixedWindows(c, text, head, start) && FixedWindows(c, text, rest, next)
    requires forall i :: 0 <= i < |head| ==> head[i].startChar < next
    ensures FixedWindows(c, text, head + rest, start)
  {
    var r := head + rest;
    forall i | 0 <= i < |r|
      ensures start <= r[i].startChar && FixedPiece(c, text, r[i])
    {
      if i >= |head| {
        assert r[i] == rest[i - |head|];
      }
    }
    forall i, j | 0 <= i < j < |r|
      ensures r[i].startChar < r[j].startChar
    {
      if i >= |head| {
        assert r[i] == rest[i - |head|] && r[j] == rest[j - |head|];
      } else if j >= |head| {
        assert r[j] == rest[j - |head|];
      }
    }
  }

  lemma {:induction false} FixedFromPieces(c: Chunker, text: string, start: nat)
    requires ValidChunker(c) && start <= |text|
    ensures FixedWindows(c, text, FixedFrom(c, text, start), start)
    decreases |text| - start
  {
    if start < |text| {
      var end := FixedEnd(c, text, start);
      var next := FixedNext(c, start, end);
      FixedFromStep(c, text, start);
      FixedFromPieces(c, text, next);
      FixedHeadWindow(c, text, start);
      FixedWindowsConcat(c, text, FixedHead(text, start, end), FixedFrom(c, text, next), start, next);
    }
  }

  /**
   * The triples of `_fixed_chunk`, over a whole text: each is a window of
   * at most `chunk_size` characters inside the text, ending where
   * `FixedEnd` says, with the non-empty stripped slice as its content, and
   * the starts strictly increase.
   */
  lemma FixedChunksPieces(c: Chunker, text: string)
    requires ValidChunker(c)
    ensures FixedWindows(c, text, FixedChunks(c, text), 0)
  {
    FixedFromPieces(c, text, 0);
  }

  // ------------------------------------------------------------ _recursive_chunk

  /** The start indices of the non-overlapping occurrences of `pat` that `re.finditer` reports from `from` on. */
  function FindAll(s: string, pat: string, from: nat): (r: seq<nat>)
    requires |pat| > 0
    ensures forall i :: 0 <= i < |r| ==> from <= r[i] && OccursAt(s, pat, r[i])
    decreases |s| - from
  {
    if from + |pat| > |s| then []
    else if OccursAt(s, pat, from) then [from] + FindAll(s, pat, from + |pat|)
    else FindAll(s, pat, from + 1)
  }

  /** `split_positions`: the index just past each occurrence of the splitter. */
  function Positions(part: string, splitter: Pattern): (r: seq<int>)
  {
    var ms := FindAll(part, splitter, 0);
    seq(|ms|, i requires 0 <= i < |ms| => ms[i] + |splitter|)
  }

  /** The positions of the first `n` splitters in turn, in the order the loops visit them. */
  function SplitterPositions(splitters: seq<Pattern>, part: string, n: nat): seq<int>
    requires n <= |splitters|
  {
    if n == 0 then []
    else SplitterPositions(splitters, part, n - 1) + Positions(part, splitters[n - 1])
  }

  function Dist(pos: int, size: int): nat {
    if pos >= size then pos - size else size - pos
  }

  /** A split strictly between `chunk_size - overlap` and `chunk_size + overlap`. */
  predicate InWindow(c: Chunker, pos: int) {
    c.chunkSize - c.overlap < pos < c.chunkSize + c.overlap
  }

  /**
   * One step of the scan: `pos` replaces the best split when it lies in the
   * window and its score `1 - |pos - size| / size` beats the best score,
   * which starts at 0; the scores compare as the distances do.
   */
  function Consider(c: Chunker, best: Option<int>, pos: int): Option<int> {
    if InWindow(c, pos) && Dist(pos, c.chunkSize) < (if best.None? then c.chunkSize else Dist(best.value, c.chunkSize))
    then Some(pos)
    else best
  }

  function PickBest(c: Chunker, cands: seq<int>): (r: Option<int>)
    ensures r.Some? ==> InWindow(c, r.value)
  {
    if cands == [] then None
    else Consider(c, PickBest(c, cands[..|cands| - 1]), cands[|cands| - 1])
  }

  lemma PickBestSnoc(c: Chunker, cands: seq<int>, x: int)
    ensures PickBest(c, cands + [x]) == Consider(c, PickBest(c, cands), x)
  {
    assert (cands + [x])[..|cands|] == cands;
  }

  /** `cands[i]` lies in the window, no candidate is closer to the size, and every earlier one is farther. */
  predicate BestAt(c: Chunker, cands: seq<int>, i: int) {
    0 <= i < |cands| && InWindow(c, cands[i])
    && (forall j :: 0 <= j < |cands| && InWindow(c, cands[j]) ==> Dist(cands[i], c.chunkSize) <= Dist(cands[j], c.chunkSize))
    && (forall j :: 0 <= j < i && InWindow(c, cands[j]) ==> Dist(cands[i], c.chunkSize) < Dist(cands[j], c.chunkSize))
  }

  /** The scan finds a split exactly when some candidate lies in the window. */
  lemma {:induction false} PickBestFinds(c: Chunker, cands: seq<int>)
    requires ValidChunker(c)
    ensures PickBest(c, cands).Some? <==> exists i :: 0 <= i < |cands| && InWindow(c, cands[i])
  {
    if cands != [] {
      var init := cands[..|cands| - 1];
      PickBestFinds(c, init);
      if exists i :: 0 <= i < |init| && InWindow(c, init[i]) {
        var i :| 0 <= i < |init| && InWindow(c, init[i]);
        assert cands[i] == init[i];
      }
      if exists i :: 0 <= i < |cands| && InWindow(c, cands[i]) {
        var i :| 0 <= i < |cands| && InWindow(c, cands[i]);
        if i < |init| {
          assert init[i] == cands[i];
        }
      }
    }
  }

  /** A later candidate outside the window or no closer leaves the best split where it was. */
  lemma BestKeptSnoc(c: Chunker, cands: seq<int>, i: int, x: int)
    requires BestAt(c, cands, i)
    requires !InWindow(c, x) || Dist(cands[i], c.chunkSize) <= Dist(x, c.chunkSize)
    ensures BestAt(c, cands + [x], i)
  {
    forall j | 0 <= j < |cands|
      ensures (cands + [x])[j] == cands[j]
    {
    }
  }

  /** A later candidate in the window and closer than every earlier one in it becomes the best split. */
  lemma BestNewSnoc(c: Chunker, cands: seq<int>, x: int)
    requires InWindow(c, x)
    requires forall j :: 0 <= j < |cands| && InWindow(c, cands[j]) ==> Dist(x, c.chunkSize) < Dist(cands[j], c.chunkSize)
    ensures BestAt(c, cands + [x], |cands|)
  {
    forall j | 0 <= j < |cands|
      ensures (cands + [x])[j] == cands[j]
    {
    }
  }

  /** The split found is the first candidate of minimal distance in the window. */
  lemma {:induction false} PickBestIsBest(c: Chunker, cands: seq<int>)
    requires ValidChunker(c) && PickBest(c, cands).Some?
    ensures exists i :: BestAt(c, cands, i) && cands[i] == PickBest(c, cands).value
  {
    var init := cands[..|cands| - 1];
    var x := cands[|cands| - 1];
    assert cands == init + [x];
    var prev := PickBest(c, init);
    if prev.Some? {
      PickBestIsBest(c, init);
      var i :| BestAt(c, init, i) && init[i] == prev.value;
      if PickBest(c, cands) == prev {
        BestKeptSnoc(c, init, i, x);
      } else {
        BestNewSnoc(c, init, x);
        assert BestAt(c, cands, |init|);
      }
    } else {
      PickBestFinds(c, init);
      BestNewSnoc(c, init, x);
      assert BestAt(c, cands, |init|);
    }
  }

  /** The best sentence boundary of `text_part`, if any. */
  function SentenceSplit(c: Chunker, part: string): (r: Option<int>)
    ensures r.Some? ==> InWindow(c, r.value)
  {
    PickBest(c, SplitterPositions(c.splitters, part, |c.splitters|))
  }

  /** The word-boundary fallback: just past the last complete word of the first `chunk_size` characters. */
  function WordSplit(c: Chunker, part: string): (w: int)
    ensures c.chunkSize >= 1 ==> w >= 1
  {
    var words := Words(Take(part, c.chunkSize));
    if |words| > 1 then |Join(" ", words[..|words| - 1])| + 1 else c.chunkSize
  }

  /** Where `_split_text` cuts: the best sentence boundary, else the word boundary; always past 0. */
  function SplitPoint(c: Chunker, part: string): (p: int)
    ensures ValidChunker(c) ==> p >= 1
  {
    match SentenceSplit(c, part)
    case Some(p) => p
    case None => WordSplit(c, part)
  }

  /** The split rule of a chunker, as a function of the part. */
  function Splitter(c: Chunker): string -> int {
    (part: string) => SplitPoint(c, part)
  }

  /**
   * `_split_text(text_part, start_offset)` with the split rule `at`: the
   * triples it appends, or `None` for the `RecursionError` it raises.
   * `depth` is the number of nested calls the interpreter's recursion limit
   * still allows (CPython's default limit is 1000 frames, less those of
   * the callers); a part that needs one more nested call than that raises.
   * When the remainder restarts at 0 it is `text_part` itself with the
   * same offset, so the recursion repeats until the limit is reached.
   */
  function SplitText(c: Chunker, at: string -> int, part: string, offset: int, depth: nat): Option<seq<Piece>>
    requires ValidChunker(c)
    decreases depth
  {
    if |part| <= c.chunkSize then Some([Piece(part, offset, offset + |part|)])
    else
      var split := at(part);
      var first := Take(part, split);
      var head := Piece(first, offset, offset + |first|);
      if |part| > split then
        var overlapStart := Max(0, split - c.overlap);
        if depth == 0 then None
        else
          match SplitText(c, at, part[overlapStart..], offset + overlapStart, depth - 1)
          case None => None
          case Some(rest) => Some([head] + rest)
      else Some([head])
  }

  /** `_recursive_chunk(text)`, with `depth` nested calls of `_split_text` allowed. */
  function RecursiveChunks(c: Chunker, text: string, depth: nat): Option<seq<Piece>>
    requires ValidChunker(c)
  {
    SplitText(c, Splitter(c), text, 0, depth)
  }

  /** A text of at most `chunk_size` characters is one chunk, at any depth. */
  lemma RecursiveShort(c: Chunker, text: string, depth: nat)
    requires ValidChunker(c) && |text| <= c.chunkSize
    ensures RecursiveChunks(c, text, depth) == Some([Piece(text, 0, |text|)])
  {
  }

  /**
   * Slices of `text` in order from `offset`: the first starts at `offset`,
   * the last ends at the end of `text`, and each next one starts `overlap`
   * characters before the end of the one before it.
   */
  predicate SliceChain(c: Chunker, text: string, r: seq<Piece>, offset: nat) {
    |r| >= 1 && r[0].startChar == offset && r[|r| - 1].endChar == |text|
    && (forall i :: 0 <= i < |r| ==> offset <= r[i].startChar <= r[i].endChar <= |text|
                                     && r[i].content == text[r[i].startChar..r[i].endChar])
    && (forall i :: 0 <= i < |r| - 1 ==> r[i + 1].startChar == r[i].endChar - c.overlap > r[i].startChar)
  }

  lemma SliceChainCons(c: Chunker, text: string, head: Piece, rest: seq<Piece>, offset: nat, next: nat)
    requires offset < next && SliceChain(c, text, rest, next)
    requires head.startChar == offset <= head.endChar <= |text| && head.content == text[offset..head.endChar]
    requires next == head.endChar - c.overlap
    ensures SliceChain(c, text, [head] + rest, offset)
  {
    var r := [head] + rest;
    forall i | 0 <= i < |r|
      ensures offset <= r[i].startChar <= r[i].endChar <= |text| && r[i].content == text[r[i].startChar..r[i].endChar]
    {
      if i > 0 {
        assert r[i] == rest[i - 1];
      }
    }
    forall i | 0 <= i < |r| - 1
      ensures r[i + 1].startChar == r[i].endChar - c.overlap > r[i].startChar
    {
      if i > 0 {
        assert r[i] == rest[i - 1] && r[i + 1] == rest[i];
      }
    }
  }

  /** The head triple is the slice of `text` from `offset` to the split, or to the end. */
  lemma SplitHeadSlice(c: Chunker, at: string -> int, text: string, offset: nat, part: string)
    requires ValidChunker(c) && offset <= |text| && part == text[offset..] && at(part) >= 0
    ensures var h := SplitHead(c, at, part, offset);
      var e := offset + Min(at(part), |part|);
      h.startChar == offset && h.endChar == e && e <= |text| && h.content == text[offset..e]
  {
    var split := at(part);
    var first := Take(part, split);
    assert first == part[..Min(split, |part|)];
  }

  /** A chain for the remainder extends to a chain for the part, with the head triple in front. */
  lemma SplitChainStep(c: Chunker, at: string -> int, text: string, offset: nat, os: nat, depth: nat)
    requires ValidChunker(c) && offset <= |text| && |text[offset..]| > c.chunkSize && depth > 0
    requires |text[offset..]| > at(text[offset..]) && os == at(text[offset..]) - c.overlap > 0
    requires SplitText(c, at, text[offset..], offset, depth).Some?
    requires SplitText(c, at, text[offset + os..], offset + os, depth - 1).Some?
    requires SliceChain(c, text, SplitText(c, at, text[offset + os..], offset + os, depth - 1).value, offset + os)
    ensures SliceChain(c, text, SplitText(c, at, text[offset..], offset, depth).value, offset)
  {
    var part := text[offset..];
    assert text[offset + os..] == part[os..];
    SplitHeadSlice(c, at, text, offset, part);
    SplitTextRest(c, at, part, offset, os, depth);
    SliceChainCons(c, text, SplitHead(c, at, part, offset),
                   SplitText(c, at, part[os..], offset + os, depth - 1).value, offset, offset + os);
  }

  /** A part of at most `chunk_size` characters is one slice reaching the end. */
  lemma SplitChainShort(c: Chunker, at: string -> int, text: string, offset: nat, depth: nat)
    requires ValidChunker(c) && offset <= |text| && |text[offset..]| <= c.chunkSize
    ensures SplitText(c, at, text[offset..], offset, depth).Some?
    ensures SliceChain(c, text, SplitText(c, at, text[offset..], offset, depth).value, offset)
  {
    var part := text[offset..];
    assert SplitText(c, at, part, offset, depth).value == [Piece(part, offset, offset + |part|)];
  }

  /** A split at or past the end of the part leaves the head as the one slice. */
  lemma SplitChainLast(c: Chunker, at: string -> int, text: string, offset: nat, depth: nat)
    requires ValidChunker(c) && offset <= |text| && |text[offset..]| > c.chunkSize
    requires |text[offset..]| <= at(text[offset..])
    ensures SplitText(c, at, text[offset..], offset, depth).Some?
    ensures SliceChain(c, text, SplitText(c, at, text[offset..], offset, depth).value, offset)
  {
    var part := text[offset..];
    SplitHeadSlice(c, at, text, offset, part);
    SplitTextLast(c, at, part, offset, depth);
  }

  /** The triples of `_split_text(text[offset:], offset)` form a chain of slices of `text`. */
  lemma {:induction false} SplitTextPieces(c: Chunker, at: string -> int, text: string, offset: nat, depth: nat)
    requires ValidChunker(c) && offset <= |text| && SplitText(c, at, text[offset..], offset, depth).Some?
    ensures SliceChain(c, text, SplitText(c, at, text[offset..], offset, depth).value, offset)
    decreases depth
  {
    var part := text[offset..];
    if |part| <= c.chunkSize {
      SplitChainShort(c, at, text, offset, depth);
    } else if |part| <= at(part) {
      SplitChainLast(c, at, text, offset, depth);
    } else if depth == 0 {
      SplitTextTooDeep(c, at, part, offset);
    } else if at(part) - c.overlap > 0 {
      var os := at(part) - c.overlap;
      SplitTextRest(c, at, part, offset, os, depth);
      assert text[offset + os..] == part[os..];
      SplitTextPieces(c, at, text, offset + os, depth - 1);
      SplitChainStep(c, at, text, offset, os, depth);
    } else {
      SplitTextEndless(c, at, part, offset, depth);
    }
  }

  /**
   * The triples of `_recursive_chunk` are slices of the text that start at
   * 0, end at its end, and overlap their successor by `overlap` characters.
   */
  lemma RecursiveChunksPieces(c: Chunker, text: string, depth: nat)
    requires ValidChunker(c) && RecursiveChunks(c, text, depth).Some?
    ensures SliceChain(c, text, RecursiveChunks(c, text, depth).value, 0)
  {
    assert text[0..] == text;
    SplitTextPieces(c, Splitter(c), text, 0, depth);
  }

  /** Each triple but the last takes one nested call: a result never has more than `depth + 1` triples. */
  lemma {:induction false} SplitTextDepthBound(c: Chunker, at: string -> int, part: string, offset: int, depth: nat)
    requires ValidChunker(c) && SplitText(c, at, part, offset, depth).Some?
    ensures |SplitText(c, at, part, offset, depth).value| <= depth + 1
    decreases depth
  {
    if |part| > c.chunkSize && |part| > at(part) && depth > 0 {
      var os := Max(0, at(part) - c.overlap);
      SplitTextDepthBound(c, at, part[os..], offset + os, depth - 1);
    }
  }

  /** A cut that succeeds within the limit gives the same triples under any larger limit. */
  lemma {:induction false} SplitTextMoreDepth(c: Chunker, at: string -> int, part: string, offset: int,
                                              depth: nat, more: nat)
    requires ValidChunker(c) && depth <= more && SplitText(c, at, part, offset, depth).Some?
    ensures SplitText(c, at, part, offset, more) == SplitText(c, at, part, offset, depth)
    decreases depth
  {
    if |part| > c.chunkSize && |part| > at(part) && depth > 0 {
      var os := Max(0, at(part) - c.overlap);
      SplitTextMoreDepth(c, at, part[os..], offset + os, depth - 1, more - 1);
    }
  }

  /**
   * A text whose recursive cut needs more triples than the limit allows
   * raises `RecursionError`: `_recursive_chunk` then gives no triples.
   */
  lemma RecursiveChunksLimit(c: Chunker, text: string, depth: nat, more: nat)
    requires ValidChunker(c) && depth <= more && RecursiveChunks(c, text, more).Some?
    ensures |RecursiveChunks(c, text, more).value| > depth + 1 ==> RecursiveChunks(c, text, depth).None?
  {
    if RecursiveChunks(c, text, depth).Some? {
      SplitTextMoreDepth(c, Splitter(c), text, 0, depth, more);
      SplitTextDepthBound(c, Splitter(c), text, 0, depth);
    }
  }

  /** Non-overlapping occurrences of `pat`, scanning from `from`. */
  method FindAllM(s: string, pat: string) returns (r: seq<nat>)
    requires |pat| > 0
    ensures r == FindAll(s, pat, 0)
  {
    r := [];
    var from: nat := 0;
    while from + |pat| <= |s|
      invariant r + FindAll(s, pat, from) == FindAll(s, pat, 0)
      decreases |s| - from
    {
      FindAllStep(s, pat, from, r);
      if OccursAt(s, pat, from) {
        r := r + [from];
        from := from + |pat|;
      } else {
        from := from + 1;
      }
    }
    assert FindAll(s, pat, from) == [];
  }

  /** One step of the scan, with the occurrences found so far in front. */
  lemma FindAllStep(s: string, pat: string, from: nat, r: seq<nat>)
    requires |pat| > 0 && from + |pat| <= |s|
    ensures r + FindAll(s, pat, from) ==
      if OccursAt(s, pat, from) then (r + [from]) + FindAll(s, pat, from + |pat|)
      else r + FindAll(s, pat, from + 1)
  {
    if OccursAt(s, pat, from) {
      var rest := FindAll(s, pat, from + |pat|);
      assert r + ([from] + rest) == (r + [from]) + rest;
    }
  }

  /** The inner loop of `_split_text` over the positions of one splitter. */
  method ScanPositions(c: Chunker, best: Option<int>, ghost outer: seq<int>, splitPositions: seq<int>) returns (bestSplit: Option<int>)
    requires best == PickBest(c, outer)
    ensures bestSplit == PickBest(c, outer + splitPositions)
  {
    bestSplit := best;
    var j := 0;
    assert outer + splitPositions[..0] == outer;
    while j < |splitPositions|
      invariant j <= |splitPositions|
      invariant bestSplit == PickBest(c, outer + splitPositions[..j])
    {
      PickBestSnoc(c, outer + splitPositions[..j], splitPositions[j]);
      assert outer + splitPositions[..j + 1] == (outer + splitPositions[..j]) + [splitPositions[j]];
      bestSplit := Consider(c, bestSplit, splitPositions[j]);
      j := j + 1;
    }
    assert splitPositions[..j] == splitPositions;
  }

  lemma SplitterPositionsNext(splitters: seq<Pattern>, part: string, k: nat)
    requires k < |splitters|
    ensures SplitterPositions(splitters, part, k + 1) == SplitterPositions(splitters, part, k) + Positions(part, splitters[k])
  {
  }

  /** The two loops of `_split_text` over the splitters and their positions. */
  method ChooseSentenceSplit(c: Chunker, part: string) returns (bestSplit: Option<int>)
    ensures bestSplit == SentenceSplit(c, part)
  {
    bestSplit := None;
    var k := 0;
    while k < |c.splitters|
      invariant k <= |c.splitters|
      invariant bestSplit == PickBest(c, SplitterPositions(c.splitters, part, k))
    {
      var splitPositions := Positions(part, c.splitters[k]);
      SplitterPositionsNext(c.splitters, part, k);
      bestSplit := ScanPositions(c, bestSplit, SplitterPositions(c.splitters, part, k), splitPositions);
      k := k + 1;
    }
  }

  /** The head triple of `_split_text` on a part longer than `chunk_size`. */
  function SplitHead(c: Chunker, at: string -> int, part: string, offset: int): Piece {
    var first := Take(part, at(part));
    Piece(first, offset, offset + |first|)
  }

  /** The split reaches the end of the part: the head is the last triple. */
  lemma SplitTextLast(c: Chunker, at: string -> int, part: string, offset: int, depth: nat)
    requires ValidChunker(c) && |part| > c.chunkSize && |part| <= at(part)
    ensures SplitText(c, at, part, offset, depth) == Some([SplitHead(c, at, part, offset)])
  {
  }

  /** A remainder is left but no nested call is allowed: `RecursionError`. */
  lemma SplitTextTooDeep(c: Chunker, at: string -> int, part: string, offset: int)
    requires ValidChunker(c) && |part| > c.chunkSize && |part| > at(part)
    ensures SplitText(c, at, part, offset, 0) == None
  {
  }

  /**
   * The remainder would restart at 0: the call repeats itself with the
   * same arguments until the limit is reached, whatever the limit.
   */
  lemma {:induction false} SplitTextEndless(c: Chunker, at: string -> int, part: string, offset: int, depth: nat)
    requires ValidChunker(c) && |part| > c.chunkSize && |part| > at(part)
    requires at(part) - c.overlap <= 0
    ensures SplitText(c, at, part, offset, depth) == None
    decreases depth
  {
    if depth > 0 {
      assert part[Max(0, at(part) - c.overlap)..] == part;
      SplitTextEndless(c, at, part, offset, depth - 1);
    }
  }

  /** Otherwise the head comes before the triples of the remainder, cut one level deeper. */
  lemma SplitTextRest(c: Chunker, at: string -> int, part: string, offset: int, os: int, depth: nat)
    requires ValidChunker(c) && |part| > c.chunkSize && |part| > at(part) && depth > 0
    requires os == Max(0, at(part) - c.overlap)
    ensures SplitText(c, at, part, offset, depth) ==
      var rest := SplitText(c, at, part[os..], offset + os, depth - 1);
      if rest.None? then None else Some([SplitHead(c, at, part, offset)] + rest.value)
  {
  }

  /** The same, with the remainder's outcome `rest` given. */
  lemma SplitTextRestIs(c: Chunker, at: string -> int, part: string, offset: int, os: int, depth: nat,
                        rest: Option<seq<Piece>>)
    requires ValidChunker(c) && |part| > c.chunkSize && |part| > at(part) && depth > 0
    requires os == Max(0, at(part) - c.overlap)
    requires rest == SplitText(c, at, part[os..], offset + os, depth - 1)
    ensures SplitText(c, at, part, offset, depth) ==
      if rest.None? then None else Some([SplitHead(c, at, part, offset)] + rest.value)
  {
    SplitTextRest(c, at, part, offset, os, depth);
  }

  /** A part of at most `chunk_size` characters is one triple. */
  lemma SplitTextShort(c: Chunker, at: string -> int, part: string, offset: int, depth: nat)
    requires ValidChunker(c) && |part| <= c.chunkSize
    ensures SplitText(c, at, part, offset, depth) == Some([Piece(part, offset, offset + |part|)])
  {
  }

  /** The split rule is the sentence boundary found, else the word boundary. */
  lemma SplitterIs(c: Chunker, part: string, best: Option<int>)
    requires best == SentenceSplit(c, part)
    ensures Splitter(c)(part) == if best.Some? then best.value else WordSplit(c, part)
  {
  }

  /** Where `_split_text` cuts a part longer than `chunk_size`. */
  method ChooseSplit(c: Chunker, part: string) returns (split: int)
    ensures split == Splitter(c)(part)
  {
    var bestSplit := ChooseSentenceSplit(c, part);
    SplitterIs(c, part, bestSplit);
    if bestSplit.Some? {
      split := bestSplit.value;
    } else {
      split := WordSplit(c, part);
    }
  }

  /**
   * `_split_text`, recursing on the remainder; `None` for the
   * `RecursionError` raised when a nested call exceeds `depth`.
   */
  method SplitPart(c: Chunker, part: string, offset: int, depth: nat) returns (chunks: Option<seq<Piece>>)
    requires ValidChunker(c)
    ensures chunks == SplitText(c, Splitter(c), part, offset, depth)
    decreases depth, 2
  {
    if |part| <= c.chunkSize {
      SplitTextShort(c, Splitter(c), part, offset, depth);
      return Some([Piece(part, offset, offset + |part|)]);
    }
    var split := ChooseSplit(c, part);
    chunks := SplitAt(c, part, offset, split, depth);
  }

  /** The rest of `_split_text` for a part longer than `chunk_size`, once the split is chosen. */
  method SplitAt(c: Chunker, part: string, offset: int, split: int, depth: nat) returns (chunks: Option<seq<Piece>>)
    requires ValidChunker(c) && |part| > c.chunkSize && split == Splitter(c)(part)
    ensures chunks == SplitText(c, Splitter(c), part, offset, depth)
    decreases depth, 1
  {
    var firstChunk := Take(part, split);
    var head := Piece(firstChunk, offset, offset + |firstChunk|);
    assert head == SplitHead(c, Splitter(c), part, offset);
    if |part| <= split {
      SplitTextLast(c, Splitter(c), part, offset, depth);
      return Some([head]);
    }
    var overlapStart := Max(0, split - c.overlap);
    chunks := SplitRemainder(c, part, offset, split, head, overlapStart, depth);
  }

  /** The head, then the chunks of the remainder from `overlapStart` on, one call deeper. */
  method SplitRemainder(c: Chunker, part: string, offset: int, split: int, head: Piece, overlapStart: int,
                        depth: nat)
    returns (chunks: Option<seq<Piece>>)
    requires ValidChunker(c) && |part| > c.chunkSize && split == Splitter(c)(part) && |part| > split
    requires overlapStart == Max(0, split - c.overlap)
    requires head == SplitHead(c, Splitter(c), part, offset)
    ensures chunks == SplitText(c, Splitter(c), part, offset, depth)
    decreases depth, 0
  {
    if depth == 0 {
      SplitTextTooDeep(c, Splitter(c), part, offset);
      return None;
    }
    assert 0 <= overlapStart < |part|;
    var rest := SplitPart(c, part[overlapStart..], offset + overlapStart, depth - 1);
    SplitTextRestIs(c, Splitter(c), part, offset, overlapStart, depth, rest);
    chunks := if rest.None? then None else Some([head] + rest.value);
  }

  /** `_recursive_chunk`, with `depth` nested calls of `_split_text` allowed. */
  method RecursiveChunk(c: Chunker, text: string, depth: nat) returns (chunks: Option<seq<Piece>>)
    requires ValidChunker(c)
    ensures chunks == RecursiveChunks(c, text, depth)
  {
    chunks := SplitPart(c, text, 0, depth);
  }

  // ------------------------------------------------------------ _semantic_chunk

  /**
   * `re.split(r'\n\s*\n', text)`: the pieces between the matches, scanning
   * left to right; a match starting at a '\n' ends at the last '\n' of the
   * whitespace run that follows it.
   */
  function ParaSplit(s: string): (r: seq<string>)
    ensures |r| >= 1
    decreases |s|
  {
    if s == [] then [""]
    else if s[0] == '\n' && LastNewline(s, 1, SpaceRunEnd(s, 1)) >= 1 then
      [""] + ParaSplit(s[LastNewline(s, 1, SpaceRunEnd(s, 1)) + 1..])
    else
      var rest := ParaSplit(s[1..]);
      [[s[0]] + rest[0]] + rest[1..]
  }

  /** A text without a newline is a single paragraph. */
  lemma {:induction false} ParaSplitNoNewline(s: string)
    requires forall i :: 0 <= i < |s| ==> s[i] != '\n'
    ensures ParaSplit(s) == [s]
    decreases |s|
  {
    if s != [] {
      assert forall i :: 0 <= i < |s[1..]| ==> s[1..][i] == s[i + 1];
      ParaSplitNoNewline(s[1..]);
      assert s == [s[0]] + s[1..];
    }
  }

  /** The state of the paragraph loop: the triples so far, `current_chunk`, `chunk_start` and `text_position`. */
  datatype SemState = SemState(chunks: seq<Piece>, current: string, chunkStart: int, pos: int)

  /** The triples of a paragraph relative to `text_position`. */
  function Shift(ps: seq<Piece>, delta: int): (r: seq<Piece>)
    ensures |r| == |ps|
    ensures forall i :: 0 <= i < |ps| ==>
      r[i] == Piece(ps[i].content, delta + ps[i].startChar, delta + ps[i].endChar)
  {
    seq(|ps|, i requires 0 <= i < |ps| => Piece(ps[i].content, delta + ps[i].startChar, delta + ps[i].endChar))
  }

  /** `_recursive_chunk` as the paragraph loop applies it to a long paragraph. */
  function ParaChunks(c: Chunker, depth: nat): string -> Option<seq<Piece>> {
    (para: string) => if ValidChunker(c) then RecursiveChunks(c, para, depth) else None
  }

  /**
   * One paragraph of the loop, with `rec` cutting long paragraphs. A blank
   * paragraph only advances the position by 2. A paragraph that does not
   * fit beside a non-empty current chunk closes it, and then either starts
   * the next one or, when longer than `chunk_size`, is cut by `rec` (`None`
   * when that fails). Otherwise the paragraph joins the current chunk after
   * a blank line, or starts it.
   */
  function SemStep(c: Chunker, rec: string -> Option<seq<Piece>>, st: SemState, paragraph: string): Option<SemState> {
    var para := Strip(paragraph);
    if para == [] then Some(st.(pos := st.pos + 2))
    else if |st.current| + |para| + 2 > c.chunkSize && st.current != [] then
      var closed := st.chunks + [Piece(Strip(st.current), st.chunkStart, st.pos)];
      if |para| > c.chunkSize then
        match rec(para)
        case None => None
        case Some(ps) =>
          var next := st.pos + |para| + 2;
          Some(SemState(closed + Shift(ps, st.pos), "", next, next))
      else Some(SemState(closed, para, st.pos, st.pos + |para| + 2))
    else if st.current != [] then
      Some(st.(current := st.current + "\n\n" + para, pos := st.pos + |para| + 2))
    else Some(st.(current := para, chunkStart := st.pos, pos := st.pos + |para| + 2))
  }

  /** The loop over the first paragraphs, from the empty state. */
  function SemFold(c: Chunker, rec: string -> Option<seq<Piece>>, paras: seq<string>): Option<SemState> {
    if paras == [] then Some(SemState([], "", 0, 0))
    else
      match SemFold(c, rec, paras[..|paras| - 1])
      case None => None
      case Some(st) => SemStep(c, rec, st, paras[|paras| - 1])
  }

  /** The triples of a final state: the current chunk is added when it is not blank. */
  function SemClose(st: SemState): seq<Piece> {
    if !IsBlank(st.current) then st.chunks + [Piece(Strip(st.current), st.chunkStart, st.pos)]
    else st.chunks
  }

  /** `_semantic_chunk`; `None` when a paragraph's recursive chunking raises `RecursionError`. */
  function SemanticChunks(c: Chunker, text: string, depth: nat): Option<seq<Piece>> {
    match SemFold(c, ParaChunks(c, depth), ParaSplit(text))
    case None => None
    case Some(st) => Some(SemClose(st))
  }

  /** Every triple starts at or after 0, ends no earlier than it starts, and ends at or before `hi`. */
  predicate Within(ps: seq<Piece>, hi: int) {
    forall i :: 0 <= i < |ps| ==> 0 <= ps[i].startChar <= ps[i].endChar <= hi
  }

  lemma WithinConcat(a: seq<Piece>, b: seq<Piece>, hi: int)
    requires Within(a, hi) && Within(b, hi)
    ensures Within(a + b, hi)
  {
    forall i | |a| <= i < |a + b|
      ensures (a + b)[i] == b[i - |a|]
    {
    }
  }

  lemma ShiftWithin(ps: seq<Piece>, delta: nat, n: int)
    requires Within(ps, n)
    ensures Within(Shift(ps, delta), delta + n)
  {
  }

  /** The paragraph cutter keeps its triples inside the paragraph. */
  ghost predicate KeepsWithin(rec: string -> Option<seq<Piece>>) {
    forall para :: rec(para).Some? ==> Within(rec(para).value, |para|)
  }

  lemma ParaChunksWithin(c: Chunker, depth: nat)
    ensures KeepsWithin(ParaChunks(c, depth))
  {
    forall para | ParaChunks(c, depth)(para).Some?
      ensures Within(ParaChunks(c, depth)(para).value, |para|)
    {
      RecursiveChunksPieces(c, para, depth);
    }
  }

  /** The chunk start lies at or before the position, and so do the triples. */
  predicate SemBounds(st: SemState) {
    0 <= st.chunkStart <= st.pos && Within(st.chunks, st.pos)
  }

  lemma SemStepBounds(c: Chunker, rec: string -> Option<seq<Piece>>, st: SemState, paragraph: string)
    requires KeepsWithin(rec) && SemBounds(st) && SemStep(c, rec, st, paragraph).Some?
    ensures var r := SemStep(c, rec, st, paragraph).value;
      SemBounds(r) && r.pos == st.pos + |Strip(paragraph)| + 2
  {
    var para := Strip(paragraph);
    if para != [] && |st.current| + |para| + 2 > c.chunkSize && st.current != [] {
      var closed := st.chunks + [Piece(Strip(st.current), st.chunkStart, st.pos)];
      WithinConcat(st.chunks, [Piece(Strip(st.current), st.chunkStart, st.pos)], st.pos);
      var next := st.pos + |para| + 2;
      if |para| > c.chunkSize {
        var ps := rec(para).value;
        ShiftWithin(ps, st.pos, |para|);
        assert Within(closed, next) && Within(Shift(ps, st.pos), next);
        WithinConcat(closed, Shift(ps, st.pos), next);
      } else {
        assert Within(closed, next);
      }
    }
  }

  /** The total of `len(para.strip()) + 2` over the paragraphs: the final `text_position`. */
  function Advance(paras: seq<string>): int {
    if paras == [] then 0 else Advance(paras[..|paras| - 1]) + |Strip(paras[|paras| - 1])| + 2
  }

  lemma {:induction false} SemFoldBounds(c: Chunker, rec: string -> Option<seq<Piece>>, paras: seq<string>)
    requires KeepsWithin(rec) && SemFold(c, rec, paras).Some?
    ensures SemBounds(SemFold(c, rec, paras).value) && SemFold(c, rec, paras).value.pos == Advance(paras)
  {
    if paras != [] {
      SemFoldBounds(c, rec, paras[..|paras| - 1]);
      SemStepBounds(c, rec, SemFold(c, rec, paras[..|paras| - 1]).value, paras[|paras| - 1]);
    }
  }

  /**
   * Every triple of `_semantic_chunk` starts at or after 0, ends no earlier
   * than it starts, and ends at or before the final position, the sum of
   * the stripped paragraph lengths plus 2 per paragraph.
   */
  lemma SemanticChunksBounds(c: Chunker, text: string, depth: nat)
    requires ValidChunker(c) && SemanticChunks(c, text, depth).Some?
    ensures Within(SemanticChunks(c, text, depth).value, Advance(ParaSplit(text)))
  {
    var st := SemFold(c, ParaChunks(c, depth), ParaSplit(text)).value;
    ParaChunksWithin(c, depth);
    SemFoldBounds(c, ParaChunks(c, depth), ParaSplit(text));
    assert SemanticChunks(c, text, depth).value == SemClose(st);
    if !IsBlank(st.current) {
      WithinConcat(st.chunks, [Piece(Strip(st.current), st.chunkStart, st.pos)], st.pos);
    }
  }

  /**
   * A stripped, non-empty text without a newline is one paragraph and one
   * triple, whose end lies two characters past the end of the text.
   */
  lemma SemanticSingleParagraph(c: Chunker, text: string, depth: nat)
    requires text != [] && !IsSpace(text[0]) && !IsSpace(text[|text| - 1])
    requires forall i :: 0 <= i < |text| ==> text[i] != '\n'
    ensures SemanticChunks(c, text, depth) == Some([Piece(text, 0, |text| + 2)])
  {
    ParaSplitNoNewline(text);
    StripNoop(text);
    assert [text][..0] == [];
    var st := SemState([], text, 0, |text| + 2);
    assert SemStep(c, ParaChunks(c, depth), SemState([], "", 0, 0), text) == Some(st);
    assert SemFold(c, ParaChunks(c, depth), [text]) == Some(st);
    assert !IsBlank(text) by {
      assert !IsSpace(text[0]);
    }
    assert SemClose(st) == [Piece(text, 0, |text| + 2)];
  }

  /** Once the loop fails it stays failed. */
  lemma {:induction false} SemFoldNone(c: Chunker, rec: string -> Option<seq<Piece>>, paras: seq<string>, n: nat)
    requires n <= |paras| && SemFold(c, rec, paras[..n]) == None
    ensures SemFold(c, rec, paras) == None
    decreases |paras| - n
  {
    if n < |paras| {
      assert paras[..n + 1][..n] == paras[..n];
      SemFoldNone(c, rec, paras, n + 1);
    } else {
      assert paras[..n] == paras;
    }
  }

  lemma SemFoldSnoc(c: Chunker, rec: string -> Option<seq<Piece>>, paras: seq<string>, i: nat, st: SemState, next: Option<SemState>)
    requires i < |paras| && SemFold(c, rec, paras[..i]) == Some(st) && next == SemStep(c, rec, st, paras[i])
    ensures SemFold(c, rec, paras[..i + 1]) == next
  {
    assert paras[..i + 1][..i] == paras[..i];
  }

  /** A blank paragraph only advances the position. */
  lemma SemStepBlank(c: Chunker, rec: string -> Option<seq<Piece>>, st: SemState, paragraph: string)
    requires Strip(paragraph) == []
    ensures SemStep(c, rec, st, paragraph) == Some(st.(pos := st.pos + 2))
  {
  }

  /** The cases of `SemStep` for a non-blank paragraph that is not cut, each with the state it yields. */
  lemma SemStepCases(c: Chunker, rec: string -> Option<seq<Piece>>, st: SemState, paragraph: string)
    requires Strip(paragraph) != []
    requires !(|st.current| + |Strip(paragraph)| + 2 > c.chunkSize && st.current != [] && |Strip(paragraph)| > c.chunkSize)
    ensures var para := Strip(paragraph);
      var next := st.pos + |para| + 2;
      SemStep(c, rec, st, paragraph)
      == if |st.current| + |para| + 2 > c.chunkSize && st.current != [] then
           Some(SemState(st.chunks + [Piece(Strip(st.current), st.chunkStart, st.pos)], para, st.pos, next))
         else if st.current != [] then Some(st.(current := st.current + "\n\n" + para, pos := next))
         else Some(st.(current := para, chunkStart := st.pos, pos := next))
  {
  }

  /** A long paragraph that closes the current chunk adds its cut triples, shifted to its position. */
  lemma SemStepLong(c: Chunker, rec: string -> Option<seq<Piece>>, st: SemState, paragraph: string, cut: Option<seq<Piece>>)
    requires Strip(paragraph) != [] && st.current != []
    requires |st.current| + |Strip(paragraph)| + 2 > c.chunkSize && |Strip(paragraph)| > c.chunkSize
    requires cut == rec(Strip(paragraph))
    ensures var next := st.pos + |Strip(paragraph)| + 2;
      var closed := st.chunks + [Piece(Strip(st.current), st.chunkStart, st.pos)];
      SemStep(c, rec, st, paragraph) == if cut.None? then None else Some(SemState(closed + Shift(cut.value, st.pos), "", next, next))
  {
  }

  /** A long paragraph closing the current chunk is cut by `_recursive_chunk`. */
  method SemLongParagraph(c: Chunker, st: SemState, paragraph: string, depth: nat) returns (r: Option<SemState>)
    requires ValidChunker(c) && Strip(paragraph) != [] && st.current != []
    requires |st.current| + |Strip(paragraph)| + 2 > c.chunkSize && |Strip(paragraph)| > c.chunkSize
    ensures r == SemStep(c, ParaChunks(c, depth), st, paragraph)
  {
    var para := Strip(paragraph);
    var closed := st.chunks + [Piece(Strip(st.current), st.chunkStart, st.pos)];
    var paraChunks := RecursiveChunk(c, para, depth);
    SemStepLong(c, ParaChunks(c, depth), st, paragraph, paraChunks);
    if paraChunks.None? {
      r := None;
    } else {
      var next := st.pos + |para| + 2;
      r := Some(SemState(closed + Shift(paraChunks.value, st.pos), "", next, next));
    }
  }

  /** One paragraph of `_semantic_chunk`'s loop. */
  method SemParagraph(c: Chunker, st: SemState, paragraph: string, depth: nat) returns (r: Option<SemState>)
    requires ValidChunker(c)
    ensures r == SemStep(c, ParaChunks(c, depth), st, paragraph)
  {
    var para := Strip(paragraph);
    if para == [] {
      SemStepBlank(c, ParaChunks(c, depth), st, paragraph);
      return Some(st.(pos := st.pos + 2));
    }
    if |st.current| + |para| + 2 > c.chunkSize && st.current != [] && |para| > c.chunkSize {
      r := SemLongParagraph(c, st, paragraph, depth);
      return;
    }
    SemStepCases(c, ParaChunks(c, depth), st, paragraph);
    if |st.current| + |para| + 2 > c.chunkSize && st.current != [] {
      var closed := st.chunks + [Piece(Strip(st.current), st.chunkStart, st.pos)];
      r := Some(SemState(closed, para, st.pos, st.pos + |para| + 2));
    } else if st.current != [] {
      r := Some(st.(current := st.current + "\n\n" + para, pos := st.pos + |para| + 2));
    } else {
      r := Some(st.(current := para, chunkStart := st.pos, pos := st.pos + |para| + 2));
    }
  }

  /** `_semantic_chunk`. */
  method SemanticChunk(c: Chunker, text: string, depth: nat) returns (chunks: Option<seq<Piece>>)
    requires ValidChunker(c)
    ensures chunks == SemanticChunks(c, text, depth)
  {
    var paragraphs := ParaSplit(text);
    var st := SemState([], "", 0, 0);
    var i := 0;
    while i < |paragraphs|
      invariant i <= |paragraphs|
      invariant SemFold(c, ParaChunks(c, depth), paragraphs[..i]) == Some(st)
    {
      var next := SemParagraph(c, st, paragraphs[i], depth);
      SemFoldSnoc(c, ParaChunks(c, depth), paragraphs, i, st, next);
      if next.None? {
        SemFoldNone(c, ParaChunks(c, depth), paragraphs, i + 1);
        return None;
      }
      st := next.value;
      i := i + 1;
    }
    assert paragraphs[..i] == paragraphs;
    chunks := Some(SemClose(st));
  }
}
