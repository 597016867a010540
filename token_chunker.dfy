/**
 * The two token-based chunkers of utils/document_processor.py:
 * `chunk_text` (fixed windows of tokens with an overlap) and
 * `semantic_chunk_text` (sentences packed into chunks of at most
 * `chunk_size` tokens, each new chunk seeded with the tail of the previous
 * one).  The tokenizer and the sentence splitter are external libraries and
 * are parameters; any of their calls may raise, which is an absent value.
 */
module TokenChunker {
  import opened Wrappers
  import opened Text
  import opened PySeq

  /** tiktoken's `encode` and `decode`; `None` is a raised exception. */
  datatype Tokenizer = Tokenizer(encode: string -> Option<seq<int>>, decode: seq<int> -> Option<string>)

  /** NLTK's `sent_tokenize`; `None` is a raised exception. */
  type SentenceSplitter = string -> Option<seq<string>>

  /** The configuration values the chunkers fall back to. */
  datatype ChunkConfig = ChunkConfig(chunkSize: int, chunkOverlap: int, useSemanticChunking: bool)

  // ------------------------------------------------------------ chunk_text

  /** Window size and overlap after defaulting and the overlap guard. */
  function WindowParams(cfg: ChunkConfig, chunkSize: int, overlap: int): (int, int) {
    var cs := OrElse(chunkSize, cfg.chunkSize);
    var ov := OrElse(overlap, cfg.chunkOverlap);
    if ov >= cs then (cs, cs / 4) else (cs, ov)
  }

  /**
   * A zero size or overlap takes the configured value; an overlap that is at
   * least the size becomes a quarter of it, so any positive size leaves a
   * positive step between windows.
   */
  lemma WindowParamsGuard(cfg: ChunkConfig, chunkSize: int, overlap: int)
    ensures var (cs, ov) := WindowParams(cfg, chunkSize, overlap);
      cs == (if chunkSize == 0 then cfg.chunkSize else chunkSize)
      && (var raw := if overlap == 0 then cfg.chunkOverlap else overlap;
          ov == (if raw < cs then raw else cs / 4))
      && (cs >= 1 ==> 0 < cs - ov)
      && (cs >= 1 && ov >= 0 ==> ov < cs)
  {
  }

  /** The windows `tokens[i:i + cs]` for `i` in `range(start, len(tokens), step)`. */
  function WindowsFrom(tokens: seq<int>, cs: int, step: int, start: nat): seq<seq<int>>
    requires step > 0
    decreases |tokens| - start
  {
    if start >= |tokens| then []
    else [Slice(tokens, start, start + cs)] + WindowsFrom(tokens, cs, step, start + step)
  }

  /** Decodes every window and keeps the texts that are not blank; `None` if a decode raises. */
  function DecodeKeep(tok: Tokenizer, windows: seq<seq<int>>): Option<seq<string>> {
    if windows == [] then Some([])
    else
      match tok.decode(windows[0])
      case None => None
      case Some(t) =>
        match DecodeKeep(tok, windows[1..])
        case None => None
        case Some(rest) => Some((if IsBlank(t) then [] else [t]) + rest)
  }

  /** `DocumentProcessor.chunk_text`. */
  function TokenChunks(tok: Tokenizer, cfg: ChunkConfig, text: string, chunkSize: int, overlap: int): seq<string> {
    var (cs, ov) := WindowParams(cfg, chunkSize, overlap);
    match tok.encode(text)
    case None => [text]
    case Some(tokens) =>
      var step := cs - ov;
      if step == 0 then [text]
      else if step < 0 then []
      else
        match DecodeKeep(tok, WindowsFrom(tokens, cs, step, 0))
        case None => [text]
        case Some(chunks) => chunks
  }

  function Prepend(pre: seq<string>, r: Option<seq<string>>): Option<seq<string>> {
    match r
    case None => None
    case Some(rest) => Some(pre + rest)
  }

  lemma PrependAssoc(a: seq<string>, b: seq<string>, r: Option<seq<string>>)
    ensures Prepend(a, Prepend(b, r)) == Prepend(a + b, r)
  {
    if r.Some? {
      assert a + (b + r.value) == (a + b) + r.value;
    }
  }

  method ChunkText(tok: Tokenizer, cfg: ChunkConfig, text: string, chunkSize: int, overlap: int)
    returns (chunks: seq<string>)
    ensures chunks == TokenChunks(tok, cfg, text, chunkSize, overlap)
  {
    var cs := OrElse(chunkSize, cfg.chunkSize);
    var ov := OrElse(overlap, cfg.chunkOverlap);
    if ov >= cs {
      ov := cs / 4;
    }
    var encoded := tok.encode(text);
    if encoded.None? {
      return [text];
    }
    var step := cs - ov;
    if step == 0 {
      return [text];
    }
    if step < 0 {
      return [];
    }
    var decoded := DecodeWindows(tok, encoded.value, cs, step);
    chunks := if decoded.None? then [text] else decoded.value;
  }

  /** The `for i in range(0, len(tokens), step)` loop; `None` when a decode raises. */
  method DecodeWindows(tok: Tokenizer, tokens: seq<int>, cs: int, step: int) returns (r: Option<seq<string>>)
    requires step > 0
    ensures r == DecodeKeep(tok, WindowsFrom(tokens, cs, step, 0))
  {
    var chunks := [];
    var i := 0;
    DecodedStart(tok, tokens, cs, step);
    while i < |tokens|
      invariant Decoded(tok, tokens, cs, step, i, chunks)
      decreases |tokens| - i
    {
      var decoded := tok.decode(Slice(tokens, i, i + cs));
      DecodedStep(tok, tokens, cs, step, i, chunks);
      if decoded.None? {
        return None;
      }
      var piece := decoded.value;
      chunks := chunks + (if IsBlank(piece) then [] else [piece]);
      i := i + step;
    }
    DecodedDone(tok, tokens, cs, step, i, chunks);
    r := Some(chunks);
  }

  /** The loop's invariant: the chunks so far, followed by the decoding of the windows from `i`, make the whole. */
  predicate Decoded(tok: Tokenizer, tokens: seq<int>, cs: int, step: int, i: nat, chunks: seq<string>)
    requires step > 0
  {
    DecodeKeep(tok, WindowsFrom(tokens, cs, step, 0)) == Prepend(chunks, DecodeKeep(tok, WindowsFrom(tokens, cs, step, i)))
  }

  lemma DecodedStart(tok: Tokenizer, tokens: seq<int>, cs: int, step: int)
    requires step > 0
    ensures Decoded(tok, tokens, cs, step, 0, [])
  {
    var r := DecodeKeep(tok, WindowsFrom(tokens, cs, step, 0));
    if r.Some? {
      assert [] + r.value == r.value;
    }
  }

  lemma DecodedDone(tok: Tokenizer, tokens: seq<int>, cs: int, step: int, i: nat, chunks: seq<string>)
    requires step > 0 && i >= |tokens| && Decoded(tok, tokens, cs, step, i, chunks)
    ensures DecodeKeep(tok, WindowsFrom(tokens, cs, step, 0)) == Some(chunks)
  {
    assert WindowsFrom(tokens, cs, step, i) == [];
    assert chunks + [] == chunks;
  }

  /** One window: a decode that raises ends the loop with the exception, otherwise the invariant moves on. */
  lemma DecodedStep(tok: Tokenizer, tokens: seq<int>, cs: int, step: int, i: nat, chunks: seq<string>)
    requires step > 0 && i < |tokens| && Decoded(tok, tokens, cs, step, i, chunks)
    ensures var t := tok.decode(Slice(tokens, i, i + cs));
      && (t.None? ==> DecodeKeep(tok, WindowsFrom(tokens, cs, step, 0)).None?)
      && (t.Some? ==> Decoded(tok, tokens, cs, step, i + step, chunks + (if IsBlank(t.value) then [] else [t.value])))
  {
    var t := tok.decode(Slice(tokens, i, i + cs));
    DecodeKeepStep(tok, tokens, cs, step, i);
    if t.Some? {
      PrependAssoc(chunks, if IsBlank(t.value) then [] else [t.value], DecodeKeep(tok, WindowsFrom(tokens, cs, step, i + step)));
    }
  }

  /** Decoding the windows from `i` on: the window at `i`, then the rest. */
  lemma DecodeKeepStep(tok: Tokenizer, tokens: seq<int>, cs: int, step: int, i: nat)
    requires step > 0 && i < |tokens|
    ensures var t := tok.decode(Slice(tokens, i, i + cs));
      var rest := DecodeKeep(tok, WindowsFrom(tokens, cs, step, i + step));
      DecodeKeep(tok, WindowsFrom(tokens, cs, step, i))
        == if t.None? then None else Prepend(if IsBlank(t.value) then [] else [t.value], rest)
  {
    var ws := WindowsFrom(tokens, cs, step, i);
    assert ws[0] == Slice(tokens, i, i + cs) && ws[1..] == WindowsFrom(tokens, cs, step, i + step);
  }

  // ------------------------------------------------------------ window geometry

  /** The number of windows starting at `start` is ceil((n - start) / step). */
  lemma {:induction false} WindowCount(tokens: seq<int>, cs: int, step: int, start: nat)
    requires step > 0
    ensures var c := |WindowsFrom(tokens, cs, step, start)|;
      if start >= |tokens| then c == 0
      else (c - 1) * step < |tokens| - start <= c * step
    decreases |tokens| - start
  {
    if start < |tokens| {
      WindowCount(tokens, cs, step, start + step);
      var c' := |WindowsFrom(tokens, cs, step, start + step)|;
      assert (c' + 1 - 1) * step == c' * step;
      assert (c' + 1) * step == c' * step + step;
    }
  }

  lemma MulSucc(k: nat, step: int)
    ensures (k + 1) * step == k * step + step
    ensures step > 0 ==> k * step >= 0
  {
  }

  /** Window `k` covers tokens `[start + k·step, start + k·step + cs)`, cut at the end. */
  lemma {:induction false} WindowContent(tokens: seq<int>, cs: int, step: int, start: nat, k: nat)
    requires step > 0 && cs > 0
    requires k < |WindowsFrom(tokens, cs, step, start)|
    ensures start + k * step < |tokens|
    ensures WindowsFrom(tokens, cs, step, start)[k]
         == tokens[start + k * step..Min(start + k * step + cs, |tokens|)]
    decreases k
  {
    var ws := WindowsFrom(tokens, cs, step, start);
    if k > 0 {
      WindowContent(tokens, cs, step, start + step, k - 1);
      MulSucc(k - 1, step);
      assert ws[k] == WindowsFrom(tokens, cs, step, start + step)[k - 1];
    } else {
      assert ws[0] == Slice(tokens, start, start + cs);
    }
  }

  /** Two windows `cs - overlap` apart: the first is non-empty, and when full it ends with the next one's first `overlap` tokens. */
  lemma SliceOverlap(tokens: seq<int>, a: nat, cs: int, overlap: int)
    requires 0 <= overlap < cs && a + (cs - overlap) < |tokens|
    ensures var x := tokens[a..Min(a + cs, |tokens|)];
      var b := a + (cs - overlap);
      var y := tokens[b..Min(b + cs, |tokens|)];
      0 < |x| <= cs && (|x| == cs ==> overlap <= |y| && x[cs - overlap..] == y[..overlap])
  {
  }

  /**
   * With `0 <= overlap < cs` and `step = cs - overlap`: each window is
   * non-empty and holds at most `cs` tokens, and a full window shares its
   * last `overlap` tokens with the first `overlap` tokens of the next one.
   */
  lemma WindowOverlap(tokens: seq<int>, cs: int, overlap: int, k: nat)
    requires 0 <= overlap < cs
    requires k + 1 < |WindowsFrom(tokens, cs, cs - overlap, 0)|
    ensures var w := WindowsFrom(tokens, cs, cs - overlap, 0);
      0 < |w[k]| <= cs
      && (|w[k]| == cs ==> overlap <= |w[k + 1]| && w[k][cs - overlap..] == w[k + 1][..overlap])
  {
    WindowPair(tokens, cs, cs - overlap, k);
    SliceOverlap(tokens, k * (cs - overlap), cs, overlap);
  }

  /** Windows `k` and `k + 1` of a split from 0, as slices of the tokens. */
  lemma WindowPair(tokens: seq<int>, cs: int, step: int, k: nat)
    requires step > 0 && cs > 0
    requires k + 1 < |WindowsFrom(tokens, cs, step, 0)|
    ensures var a, n := k * step, |tokens|;
      var w := WindowsFrom(tokens, cs, step, 0);
      0 <= a && a + step < n
      && w[k] == tokens[a..Min(a + cs, n)] && w[k + 1] == tokens[a + step..Min(a + step + cs, n)]
  {
    WindowContent(tokens, cs, step, 0, k);
    WindowContent(tokens, cs, step, 0, k + 1);
    MulSucc(k, step);
  }

  /** Concatenation of the windows with the first `overlap` tokens of each later one removed. */
  function DropOverlaps(windows: seq<seq<int>>, overlap: nat): seq<int> {
    if windows == [] then []
    else windows[0][Min(overlap, |windows[0]|)..] + DropOverlaps(windows[1..], overlap)
  }

  function Stitch(windows: seq<seq<int>>, overlap: nat): seq<int> {
    if windows == [] then [] else windows[0] + DropOverlaps(windows[1..], overlap)
  }

  lemma {:induction false} DropOverlapsTail(tokens: seq<int>, cs: int, overlap: nat, j: nat)
    requires overlap < cs
    ensures DropOverlaps(WindowsFrom(tokens, cs, cs - overlap, j), overlap)
         == tokens[Min(j + overlap, |tokens|)..]
    decreases |tokens| - j
  {
    var step := cs - overlap;
    if j < |tokens| {
      var ws := WindowsFrom(tokens, cs, step, j);
      DropOverlapsTail(tokens, cs, overlap, j + step);
      var hi := Min(j + cs, |tokens|);
      assert ws[0] == tokens[j..hi];
      assert ws[1..] == WindowsFrom(tokens, cs, step, j + step);
      assert ws[0][Min(overlap, |ws[0]|)..] == tokens[Min(j + overlap, |tokens|)..hi];
      SliceJoin(tokens, Min(j + overlap, |tokens|), hi);
    }
  }

  lemma SliceJoin(s: seq<int>, a: nat, b: nat)
    requires a <= b <= |s|
    ensures s[a..b] + s[b..] == s[a..]
  {
  }

  /** The windows cover the token sequence exactly once their overlaps are removed. */
  lemma WindowsReassemble(tokens: seq<int>, cs: int, overlap: nat)
    requires overlap < cs
    ensures Stitch(WindowsFrom(tokens, cs, cs - overlap, 0), overlap) == tokens
  {
    var step := cs - overlap;
    if |tokens| > 0 {
      var ws := WindowsFrom(tokens, cs, step, 0);
      assert ws[1..] == WindowsFrom(tokens, cs, step, step);
      DropOverlapsTail(tokens, cs, overlap, step);
      assert ws[0] == tokens[..Min(cs, |tokens|)];
    }
  }

  /** A failing tokenizer, and a size equal to the overlap, give back the text itself. */
  lemma TokenChunksFallback(tok: Tokenizer, cfg: ChunkConfig, text: string, chunkSize: int, overlap: int)
    ensures tok.encode(text).None? ==> TokenChunks(tok, cfg, text, chunkSize, overlap) == [text]
    ensures OrElse(chunkSize, cfg.chunkSize) >= 1 && tok.encode(text).Some? ==>
      var (cs, ov) := WindowParams(cfg, chunkSize, overlap);
      var r := TokenChunks(tok, cfg, text, chunkSize, overlap);
      (forall d :: 0 <= d < |r| ==> !IsBlank(r[d])) || r == [text]
  {
    var (cs, ov) := WindowParams(cfg, chunkSize, overlap);
    if cs >= 1 && tok.encode(text).Some? {
      WindowParamsGuard(cfg, chunkSize, overlap);
      DecodeKeepNonBlank(tok, WindowsFrom(tok.encode(text).value, cs, cs - ov, 0));
    }
  }

  lemma {:induction false} DecodeKeepNonBlank(tok: Tokenizer, windows: seq<seq<int>>)
    ensures DecodeKeep(tok, windows).Some? ==>
      forall d :: 0 <= d < |DecodeKeep(tok, windows).value| ==> !IsBlank(DecodeKeep(tok, windows).value[d])
  {
    if windows != [] {
      DecodeKeepNonBlank(tok, windows[1..]);
    }
  }

  // ------------------------------------------------------------ semantic_chunk_text

  function TokenCount(tok: Tokenizer, s: string): Option<nat> {
    match tok.encode(s)
    case None => None
    case Some(t) => Some(|t|)
  }

  /** Each piece followed by ". ", concatenated. */
  function Dotted(pieces: seq<string>): string {
    if pieces == [] then "" else pieces[0] + ". " + Dotted(pieces[1..])
  }

  /**
   * The overlap seed: walking `pieces` from index `i` down to 0, pieces are
   * taken while the token total `acc` of the taken ones (each with ". "
   * appended) stays within `overlap`.  The result is the index of the first
   * piece taken, so the seed is `pieces[start..]`, and the final total.
   */
  function SeedStart(tok: Tokenizer, pieces: seq<string>, i: int, acc: nat, overlap: int): (r: Option<(nat, nat)>)
    requires -1 <= i < |pieces|
    requires acc <= overlap
    ensures r.Some? ==> r.value.0 <= i + 1 && acc <= r.value.1 <= overlap
    decreases i + 1
  {
    if i < 0 then Some((0, acc))
    else
      match TokenCount(tok, pieces[i] + ". ")
      case None => None
      case Some(c) =>
        if acc + c <= overlap then SeedStart(tok, pieces, i - 1, acc + c, overlap)
        else Some((i + 1, acc))
  }

  datatype PackState = PackState(chunks: seq<string>, current: string, tokens: int)

  /** One sentence of the packing loop. */
  function PackStep(tok: Tokenizer, cs: int, ov: int, st: PackState, sentence: string): Option<PackState> {
    match TokenCount(tok, sentence)
    case None => None
    case Some(n) =>
      if st.tokens + n > cs && st.current != "" then
        var chunks := st.chunks + [Strip(st.current)];
        if ov > 0 then
          var pieces := SplitOn(st.current, ". ");
          match SeedText(tok, pieces, ov)
          case None => None
          case Some(seed) =>
            var current := seed + sentence + ". ";
            match TokenCount(tok, current)
            case None => None
            case Some(t) => Some(PackState(chunks, current, t))
        else Some(PackState(chunks, sentence + ". ", n))
      else Some(PackState(st.chunks, st.current + sentence + ". ", st.tokens + n))
  }

  /** The packing loop over `sentences`; `None` if a tokenizer call raises. */
  function Pack(tok: Tokenizer, cs: int, ov: int, sentences: seq<string>): Option<PackState>
    decreases |sentences|
  {
    if sentences == [] then Some(PackState([], "", 0))
    else
      match Pack(tok, cs, ov, sentences[..|sentences| - 1])
      case None => None
      case Some(st) => PackStep(tok, cs, ov, st, sentences[|sentences| - 1])
  }

  /** The chunks once the last partial chunk is flushed. */
  function Flush(st: PackState): seq<string> {
    if Strip(st.current) != [] then st.chunks + [Strip(st.current)] else st.chunks
  }

  /** The `try` block of `semantic_chunk_text`; `None` when it raises. */
  function PackSentences(tok: Tokenizer, split: SentenceSplitter, cs: int, ov: int, text: string)
    : Option<seq<string>>
  {
    match split(text)
    case None => None
    case Some(sentences) =>
      match Pack(tok, cs, ov, sentences)
      case None => None
      case Some(st) => var chunks := Flush(st); Some(if chunks == [] then [text] else chunks)
  }

  /** `DocumentProcessor.semantic_chunk_text`. */
  function SemanticChunks(tok: Tokenizer, split: SentenceSplitter, nltkAvailable: bool, cfg: ChunkConfig,
                          text: string, chunkSize: int, overlap: int): seq<string>
  {
    if !cfg.useSemanticChunking || !nltkAvailable then TokenChunks(tok, cfg, text, chunkSize, overlap)
    else
      var cs := OrElse(chunkSize, cfg.chunkSize);
      var ov := OrElse(overlap, cfg.chunkOverlap);
      match PackSentences(tok, split, cs, ov, text)
      case None => TokenChunks(tok, cfg, text, cs, ov)
      case Some(chunks) => chunks
  }

  lemma DottedCons(pieces: seq<string>, i: nat)
    requires i < |pieces|
    ensures Dotted(pieces[i..]) == pieces[i] + ". " + Dotted(pieces[i + 1..])
  {
    assert pieces[i..][1..] == pieces[i + 1..];
  }

  /** The seed text when the walk from the last piece succeeds. */
  function SeedText(tok: Tokenizer, pieces: seq<string>, overlap: int): Option<string>
    requires overlap >= 0
  {
    match SeedStart(tok, pieces, |pieces| - 1, 0, overlap)
    case None => None
    case Some(p) => Some(Dotted(pieces[p.0..]))
  }

  method ComputeSeed(tok: Tokenizer, pieces: seq<string>, ov: int) returns (r: Option<string>)
    requires ov >= 0
    ensures r == SeedText(tok, pieces, ov)
  {
    var text := "";
    var acc: nat := 0;
    var i := |pieces| - 1;
    while i >= 0
      invariant -1 <= i < |pieces| && acc <= ov
      invariant text == Dotted(pieces[i + 1..])
      invariant SeedStart(tok, pieces, |pieces| - 1, 0, ov) == SeedStart(tok, pieces, i, acc, ov)
      decreases i
    {
      var c := TokenCount(tok, pieces[i] + ". ");
      if c.None? {
        return None;
      }
      if acc + c.value <= ov {
        DottedCons(pieces, i);
        text := pieces[i] + ". " + text;
        acc := acc + c.value;
        i := i - 1;
      } else {
        assert SeedStart(tok, pieces, i, acc, ov) == Some((i + 1, acc));
        return Some(text);
      }
    }
    assert SeedStart(tok, pieces, i, acc, ov) == Some((0, acc));
    return Some(text);
  }

  method PackStepMethod(tok: Tokenizer, cs: int, ov: int, st: PackState, sentence: string)
    returns (r: Option<PackState>)
    ensures r == PackStep(tok, cs, ov, st, sentence)
  {
    var n := TokenCount(tok, sentence);
    if n.None? {
      return None;
    }
    if st.tokens + n.value > cs && st.current != "" {
      var chunks := st.chunks + [Strip(st.current)];
      if ov > 0 {
        var pieces := SplitOn(st.current, ". ");
        var seed := ComputeSeed(tok, pieces, ov);
        if seed.None? {
          return None;
        }
        var current := seed.value + sentence + ". ";
        var t := TokenCount(tok, current);
        if t.None? {
          return None;
        }
        return Some(PackState(chunks, current, t.value));
      } else {
        return Some(PackState(chunks, sentence + ". ", n.value));
      }
    } else {
      return Some(PackState(st.chunks, st.current + sentence + ". ", st.tokens + n.value));
    }
  }

  method PackLoop(tok: Tokenizer, split: SentenceSplitter, cs: int, ov: int, text: string)
    returns (r: Option<seq<string>>)
    ensures r == PackSentences(tok, split, cs, ov, text)
  {
    var split_ := split(text);
    if split_.None? {
      return None;
    }
    var sentences := split_.value;
    var st := PackState([], "", 0);
    var k := 0;
    while k < |sentences|
      invariant k <= |sentences|
      invariant Pack(tok, cs, ov, sentences[..k]) == Some(st)
    {
      assert sentences[..k + 1][..k] == sentences[..k];
      var next := PackStepMethod(tok, cs, ov, st, sentences[k]);
      if next.None? {
        PackNoneStays(tok, cs, ov, sentences, k + 1);
        return None;
      }
      st := next.value;
      k := k + 1;
    }
    assert sentences[..k] == sentences;
    var flushed := if Strip(st.current) != [] then st.chunks + [Strip(st.current)] else st.chunks;
    return Some(if flushed == [] then [text] else flushed);
  }

  /** Once a tokenizer call raises, the loop's outcome is the exception. */
  lemma {:induction false} PackNoneStays(tok: Tokenizer, cs: int, ov: int, sentences: seq<string>, k: nat)
    requires k <= |sentences| && Pack(tok, cs, ov, sentences[..k]).None?
    ensures Pack(tok, cs, ov, sentences).None?
    decreases |sentences| - k
  {
    if k < |sentences| {
      assert sentences[..k + 1][..k] == sentences[..k];
      PackNoneStays(tok, cs, ov, sentences, k + 1);
    } else {
      assert sentences[..k] == sentences;
    }
  }

  method SemanticChunkText(tok: Tokenizer, split: SentenceSplitter, nltkAvailable: bool, cfg: ChunkConfig,
                           text: string, chunkSize: int, overlap: int)
    returns (chunks: seq<string>)
    ensures chunks == SemanticChunks(tok, split, nltkAvailable, cfg, text, chunkSize, overlap)
  {
    if !cfg.useSemanticChunking || !nltkAvailable {
      chunks := ChunkText(tok, cfg, text, chunkSize, overlap);
      return;
    }
    var cs := OrElse(chunkSize, cfg.chunkSize);
    var ov := OrElse(overlap, cfg.chunkOverlap);
    var packed := PackLoop(tok, split, cs, ov, text);
    if packed.None? {
      chunks := ChunkText(tok, cfg, text, cs, ov);
    } else {
      chunks := packed.value;
    }
  }

  // ------------------------------------------------------------ packing properties

  /** Sum of the token counts of `sentences`, if none raises. */
  function TotalTokens(tok: Tokenizer, sentences: seq<string>): Option<nat>
    decreases |sentences|
  {
    if sentences == [] then Some(0)
    else
      match TotalTokens(tok, sentences[..|sentences| - 1])
      case None => None
      case Some(t) =>
        match TokenCount(tok, sentences[|sentences| - 1])
        case None => None
        case Some(c) => Some(t + c)
  }

  /** Sentences that fit together in one chunk are never split. */
  lemma {:induction false} PackFits(tok: Tokenizer, cs: int, ov: int, sentences: seq<string>)
    requires TotalTokens(tok, sentences).Some? && TotalTokens(tok, sentences).value <= cs
    ensures Pack(tok, cs, ov, sentences) == Some(PackState([], Dotted(sentences), TotalTokens(tok, sentences).value))
    decreases |sentences|
  {
    if sentences != [] {
      var init := sentences[..|sentences| - 1];
      var last := sentences[|sentences| - 1];
      PackFits(tok, cs, ov, init);
      DottedSnoc(init, last);
      assert sentences == init + [last];
    }
  }

  lemma {:induction false} DottedSnoc(pieces: seq<string>, x: string)
    ensures Dotted(pieces + [x]) == Dotted(pieces) + x + ". "
  {
    if pieces != [] {
      assert (pieces + [x])[1..] == pieces[1..] + [x];
      DottedSnoc(pieces[1..], x);
    }
  }

  /** The packing loop closes at most one chunk per sentence after the first. */
  lemma {:induction false} PackChunkCount(tok: Tokenizer, cs: int, ov: int, sentences: seq<string>)
    requires Pack(tok, cs, ov, sentences).Some?
    ensures var st := Pack(tok, cs, ov, sentences).value;
      |st.chunks| <= (if sentences == [] then 0 else |sentences| - 1)
      && (sentences != [] ==> st.current != "")
    decreases |sentences|
  {
    if sentences != [] {
      PackChunkCount(tok, cs, ov, sentences[..|sentences| - 1]);
    }
  }

  /**
   * When the sentence path succeeds, `semantic_chunk_text` yields at least
   * one chunk and no more chunks than there are sentences; if every
   * sentence fits in one chunk, the result is that one chunk.
   */
  lemma SemanticChunksShape(tok: Tokenizer, split: SentenceSplitter, cs: int, ov: int, text: string)
    requires PackSentences(tok, split, cs, ov, text).Some?
    ensures var r := PackSentences(tok, split, cs, ov, text).value;
      var sentences := split(text).value;
      1 <= |r| <= (if sentences == [] then 1 else |sentences|)
      && ((TotalTokens(tok, sentences).Some? && TotalTokens(tok, sentences).value <= cs
           && Strip(Dotted(sentences)) != []) ==> r == [Strip(Dotted(sentences))])
  {
    var sentences := split(text).value;
    PackChunkCount(tok, cs, ov, sentences);
    if TotalTokens(tok, sentences).Some? && TotalTokens(tok, sentences).value <= cs {
      PackFits(tok, cs, ov, sentences);
    }
  }

  /** Turning semantic chunking off, or lacking NLTK, makes it `chunk_text`; so does a raised exception. */
  lemma SemanticDelegates(tok: Tokenizer, split: SentenceSplitter, nltkAvailable: bool, cfg: ChunkConfig,
                          text: string, chunkSize: int, overlap: int)
    ensures !cfg.useSemanticChunking || !nltkAvailable
      || PackSentences(tok, split, OrElse(chunkSize, cfg.chunkSize), OrElse(overlap, cfg.chunkOverlap), text).None?
      ==> SemanticChunks(tok, split, nltkAvailable, cfg, text, chunkSize, overlap)
          == TokenChunks(tok, cfg, text, chunkSize, overlap)
  {
  }
}
