/**
 * The driver of chat/rag/chunker.py's `TextChunker`: `chunk_text`, which
 * preprocesses, applies the strategy (falling back to fixed windows when it
 * raises), numbers and validates the chunks; `get_chunk_stats` and
 * `optimize_parameters`.
 */
module RagChunkText {
  import opened Wrappers
  import opened Text
  import opened PySeq
  import opened RagChunker

  // ------------------------------------------------------------ chunk_text

  /**
   * The triples of the chunker's strategy on preprocessed text: "fixed",
   * "semantic", and "recursive" for "recursive" and every unknown name.
   * `None` is the exception a strategy raises.
   */
  function StrategyChunks(c: Chunker, text: string, depth: nat): Option<seq<Piece>>
    requires ValidChunker(c)
  {
    if c.strategy == "fixed" then Some(FixedChunks(c, text))
    else if c.strategy == "semantic" then SemanticChunks(c, text, depth)
    else RecursiveChunks(c, text, depth)
  }

  /** The triples `chunk_text` numbers: the strategy's, or `_fixed_chunk`'s when the strategy raises. */
  function ChunkPieces(c: Chunker, text: string, depth: nat): seq<Piece>
    requires ValidChunker(c)
  {
    match StrategyChunks(c, text, depth)
    case Some(ps) => ps
    case None => FixedChunks(c, text)
  }

  /** The chunk built from triple `i`, numbered and counted before validation. */
  function NumberedChunk(c: Chunker, base: map<string, string>, ps: seq<Piece>, i: nat): Chunk
    requires i < |ps|
  {
    Chunk(ps[i].content, i, ps[i].startChar, ps[i].endChar,
          ChunkMetadata(base, c.strategy, i, |ps|, c.chunkSize, c.overlap))
  }

  /** The chunks of the first `upTo` triples that pass `Chunk.validate`. */
  function ValidatedChunks(c: Chunker, base: map<string, string>, ps: seq<Piece>, upTo: nat): seq<Chunk>
    requires upTo <= |ps|
  {
    if upTo == 0 then []
    else
      var ch := NumberedChunk(c, base, ps, upTo - 1);
      ValidatedChunks(c, base, ps, upTo - 1) + (if Validate(ch) then [ch] else [])
  }

  /**
   * `TextChunker.chunk_text(text, document_metadata)`, with `None` metadata
   * passed as the empty map; `Err` is the `ChunkingError` it raises.
   */
  function ChunkTextResult(c: Chunker, text: string, base: map<string, string>, depth: nat): Result<seq<Chunk>, string>
    requires ValidChunker(c)
  {
    if IsBlank(text) then Err("Cannot chunk empty or whitespace-only text")
    else
      var ps := ChunkPieces(c, Preprocess(text), depth);
      var vs := ValidatedChunks(c, base, ps, |ps|);
      if vs == [] then Err("No valid chunks generated from text") else Ok(vs)
  }

  method ChunkText(c: Chunker, text: string, documentMetadata: map<string, string>, depth: nat) returns (r: Result<seq<Chunk>, string>)
    requires ValidChunker(c)
    ensures r == ChunkTextResult(c, text, documentMetadata, depth)
  {
    if IsBlank(text) {
      return Err("Cannot chunk empty or whitespace-only text");
    }
    var t := Preprocess(text);
    var chunks: Option<seq<Piece>>;
    if c.strategy == "recursive" {
      chunks := RecursiveChunk(c, t, depth);
    } else if c.strategy == "fixed" {
      var fixed := FixedChunk(c, t);
      chunks := Some(fixed);
    } else if c.strategy == "semantic" {
      chunks := SemanticChunk(c, t, depth);
    } else {
      chunks := RecursiveChunk(c, t, depth);
    }
    var pieces: seq<Piece>;
    if chunks.None? {
      pieces := FixedChunk(c, t);
    } else {
      pieces := chunks.value;
    }
    var validatedChunks := NumberAndValidate(c, documentMetadata, pieces);
    if validatedChunks == [] {
      return Err("No valid chunks generated from text");
    }
    r := Ok(validatedChunks);
  }

  /** The loop of `chunk_text` that wraps each triple in a numbered `Chunk` and keeps the valid ones. */
  method NumberAndValidate(c: Chunker, documentMetadata: map<string, string>, pieces: seq<Piece>)
      returns (validatedChunks: seq<Chunk>)
    ensures validatedChunks == ValidatedChunks(c, documentMetadata, pieces, |pieces|)
  {
    validatedChunks := [];
    var i := 0;
    while i < |pieces|
      invariant i <= |pieces|
      invariant validatedChunks == ValidatedChunks(c, documentMetadata, pieces, i)
    {
      var meta := ChunkMetadata(documentMetadata, c.strategy, i, |pieces|, c.chunkSize, c.overlap);
      var chunk := Chunk(pieces[i].content, i, pieces[i].startChar, pieces[i].endChar, meta);
      if Validate(chunk) {
        validatedChunks := validatedChunks + [chunk];
      }
      i := i + 1;
    }
  }

  /** Every chunk of `vs` is a valid numbered chunk of a triple below `upTo`. */
  predicate NumberedBelow(c: Chunker, base: map<string, string>, ps: seq<Piece>, upTo: nat, vs: seq<Chunk>)
    requires upTo <= |ps|
  {
    forall k :: 0 <= k < |vs| ==>
      vs[k].index < upTo && Validate(vs[k]) && vs[k] == NumberedChunk(c, base, ps, vs[k].index)
  }

  /** The indices of `vs` strictly increase. */
  predicate IndicesIncrease(vs: seq<Chunk>) {
    forall k, l :: 0 <= k < l < |vs| ==> vs[k].index < vs[l].index
  }

  /** Every numbered chunk below `upTo` that passes validation is in `vs`. */
  predicate KeepsAllValid(c: Chunker, base: map<string, string>, ps: seq<Piece>, upTo: nat, vs: seq<Chunk>)
    requires upTo <= |ps|
  {
    forall i :: 0 <= i < upTo && Validate(NumberedChunk(c, base, ps, i)) ==> NumberedChunk(c, base, ps, i) in vs
  }

  /** `vs` holds, in order of index, exactly the numbered chunks below `upTo` that pass validation. */
  predicate ExactlyValidated(c: Chunker, base: map<string, string>, ps: seq<Piece>, upTo: nat, vs: seq<Chunk>)
    requires upTo <= |ps|
  {
    |vs| <= upTo && NumberedBelow(c, base, ps, upTo, vs) && IndicesIncrease(vs) && KeepsAllValid(c, base, ps, upTo, vs)
  }

  /** One more triple keeps the property: its chunk is appended when valid. */
  lemma ValidatedSnoc(c: Chunker, base: map<string, string>, ps: seq<Piece>, n: nat)
    requires 0 < n <= |ps|
    requires ExactlyValidated(c, base, ps, n - 1, ValidatedChunks(c, base, ps, n - 1))
    ensures ExactlyValidated(c, base, ps, n, ValidatedChunks(c, base, ps, n))
  {
    var prev := ValidatedChunks(c, base, ps, n - 1);
    var ch := NumberedChunk(c, base, ps, n - 1);
    var vs := ValidatedChunks(c, base, ps, n);
    assert vs == prev + (if Validate(ch) then [ch] else []);
    SnocNumbered(c, base, ps, n, prev, vs);
    SnocKeepsAll(c, base, ps, n, prev, vs);
  }

  /** Appending the chunk of triple `n - 1` when it is valid keeps the chunks numbered, valid and in order. */
  lemma SnocNumbered(c: Chunker, base: map<string, string>, ps: seq<Piece>, n: nat, prev: seq<Chunk>, vs: seq<Chunk>)
    requires 0 < n <= |ps| && |prev| <= n - 1
    requires NumberedBelow(c, base, ps, n - 1, prev) && IndicesIncrease(prev)
    requires var ch := NumberedChunk(c, base, ps, n - 1); vs == prev + (if Validate(ch) then [ch] else [])
    ensures |vs| <= n && NumberedBelow(c, base, ps, n, vs) && IndicesIncrease(vs)
  {
  }

  /** Appending the chunk of triple `n - 1` when it is valid keeps every valid chunk below `n`. */
  lemma SnocKeepsAll(c: Chunker, base: map<string, string>, ps: seq<Piece>, n: nat, prev: seq<Chunk>, vs: seq<Chunk>)
    requires 0 < n <= |ps| && KeepsAllValid(c, base, ps, n - 1, prev)
    requires var ch := NumberedChunk(c, base, ps, n - 1); vs == prev + (if Validate(ch) then [ch] else [])
    ensures KeepsAllValid(c, base, ps, n, vs)
  {
    forall i | 0 <= i < n && Validate(NumberedChunk(c, base, ps, i))
      ensures NumberedChunk(c, base, ps, i) in vs
    {
      if i < n - 1 {
        assert NumberedChunk(c, base, ps, i) in prev;
      }
    }
  }

  /**
   * The validated chunks are, in order, exactly the numbered chunks that
   * pass validation: their indices strictly increase (with gaps where a
   * chunk was dropped) and each carries the count of triples before
   * validation.
   */
  lemma {:induction false} ValidatedChunksExactly(c: Chunker, base: map<string, string>, ps: seq<Piece>, upTo: nat)
    requires upTo <= |ps|
    ensures ExactlyValidated(c, base, ps, upTo, ValidatedChunks(c, base, ps, upTo))
  {
    if upTo > 0 {
      ValidatedChunksExactly(c, base, ps, upTo - 1);
      ValidatedSnoc(c, base, ps, upTo);
    }
  }

  /**
   * `chunk_text` raises on blank text, and otherwise exactly when no
   * triple passes validation. What it returns are valid chunks with
   * strictly increasing indices below the number of triples, each with
   * that number as `total_chunks`, its own index as `chunk_index`, the
   * chunker's method and parameters, and the document metadata.
   */
  lemma ChunkTextOutcome(c: Chunker, text: string, base: map<string, string>, depth: nat)
    requires ValidChunker(c)
    ensures IsBlank(text) ==> ChunkTextResult(c, text, base, depth).Err?
    ensures !IsBlank(text) ==>
      var ps := ChunkPieces(c, Preprocess(text), depth);
      (ChunkTextResult(c, text, base, depth).Err? <==> forall i :: 0 <= i < |ps| ==> !Validate(NumberedChunk(c, base, ps, i)))
    ensures ChunkTextResult(c, text, base, depth).Ok? ==>
      var ps := ChunkPieces(c, Preprocess(text), depth);
      var vs := ChunkTextResult(c, text, base, depth).value;
      1 <= |vs| <= |ps|
      && (forall k :: 0 <= k < |vs| ==>
            MinChunkChars <= |Strip(vs[k].content)| && |vs[k].content| <= MaxChunkChars
            && vs[k].index < |ps| && vs[k].content == ps[vs[k].index].content
            && vs[k].metadata == ChunkMetadata(base, c.strategy, vs[k].index, |ps|, c.chunkSize, c.overlap))
      && (forall k, l :: 0 <= k < l < |vs| ==> vs[k].index < vs[l].index)
  {
    if !IsBlank(text) {
      var ps := ChunkPieces(c, Preprocess(text), depth);
      var vs := ValidatedChunks(c, base, ps, |ps|);
      ValidatedChunksExactly(c, base, ps, |ps|);
      forall k | 0 <= k < |vs|
        ensures MinChunkChars <= |Strip(vs[k].content)| && |vs[k].content| <= MaxChunkChars
      {
        ValidateIff(vs[k]);
      }
      if vs != [] {
        assert Validate(NumberedChunk(c, base, ps, vs[0].index));
      }
    }
  }

  /** When the strategy raises, `chunk_text` numbers the triples of `_fixed_chunk` instead. */
  lemma ChunkTextFallback(c: Chunker, text: string, base: map<string, string>, depth: nat)
    requires ValidChunker(c) && !IsBlank(text) && StrategyChunks(c, Preprocess(text), depth).None?
    ensures c.strategy != "fixed"
    ensures ChunkPieces(c, Preprocess(text), depth) == FixedChunks(c, Preprocess(text))
  {
  }

  /**
   * A "recursive" chunker on a text whose cut needs more nested calls of
   * `_split_text` than the interpreter allows (`RecursionError`) numbers
   * the triples of `_fixed_chunk` instead.
   */
  lemma ChunkTextTooDeep(c: Chunker, text: string, depth: nat, more: nat)
    requires ValidChunker(c) && c.strategy == "recursive" && depth <= more
    requires RecursiveChunks(c, Preprocess(text), more).Some?
    requires |RecursiveChunks(c, Preprocess(text), more).value| > depth + 1
    ensures ChunkPieces(c, Preprocess(text), depth) == FixedChunks(c, Preprocess(text))
  {
    RecursiveChunksLimit(c, Preprocess(text), depth, more);
  }

  // ------------------------------------------------------------ get_chunk_stats

  datatype ChunkStats = ChunkStats(totalChunks: nat, totalCharacters: nat, avgChunkSize: real,
                                   minChunkSize: nat, maxChunkSize: nat, chunkingMethod: string,
                                   configChunkSize: int, configOverlap: int)

  function Lengths(chunks: seq<Chunk>): (r: seq<nat>)
    ensures |r| == |chunks| && forall i :: 0 <= i < |chunks| ==> r[i] == |chunks[i].content|
  {
    seq(|chunks|, i requires 0 <= i < |chunks| => |chunks[i].content|)
  }

  function Sum(xs: seq<nat>): nat {
    if xs == [] then 0 else Sum(xs[..|xs| - 1]) + xs[|xs| - 1]
  }

  /** Python's `min` of a non-empty list. */
  function MinOf(xs: seq<nat>): (m: nat)
    requires xs != []
    ensures m in xs && forall i :: 0 <= i < |xs| ==> m <= xs[i]
  {
    if |xs| == 1 then xs[0]
    else
      var m := MinOf(xs[..|xs| - 1]);
      assert forall i :: 0 <= i < |xs| - 1 ==> xs[..|xs| - 1][i] == xs[i];
      if xs[|xs| - 1] < m then xs[|xs| - 1] else m
  }

  /** Python's `max` of a non-empty list. */
  function MaxOf(xs: seq<nat>): (m: nat)
    requires xs != []
    ensures m in xs && forall i :: 0 <= i < |xs| ==> xs[i] <= m
  {
    if |xs| == 1 then xs[0]
    else
      var m := MaxOf(xs[..|xs| - 1]);
      assert forall i :: 0 <= i < |xs| - 1 ==> xs[..|xs| - 1][i] == xs[i];
      if xs[|xs| - 1] > m then xs[|xs| - 1] else m
  }

  /** `get_chunk_stats`; `None` is the empty dictionary returned for no chunks. */
  function GetChunkStats(c: Chunker, chunks: seq<Chunk>): Option<ChunkStats> {
    if chunks == [] then None
    else
      var lengths := Lengths(chunks);
      Some(ChunkStats(|chunks|, Sum(lengths), Sum(lengths) as real / |lengths| as real,
                      MinOf(lengths), MaxOf(lengths), c.strategy, c.chunkSize, c.overlap))
  }

  /** A sum lies between the count times the least and the count times the greatest element. */
  lemma {:induction false} SumBounds(xs: seq<nat>, lo: nat, hi: nat)
    requires forall i :: 0 <= i < |xs| ==> lo <= xs[i] <= hi
    ensures |xs| * lo <= Sum(xs) <= |xs| * hi
  {
    if xs != [] {
      var init := xs[..|xs| - 1];
      assert forall i :: 0 <= i < |init| ==> init[i] == xs[i];
      SumBounds(init, lo, hi);
      var n := |init|;
      assert |xs| * lo == n * lo + lo && |xs| * hi == n * hi + hi;
      assert lo <= xs[n] <= hi;
    }
  }

  /**
   * No chunks give the empty dictionary. Otherwise the statistics count the
   * chunks, the least and greatest length are lengths of chunks bounding
   * every other, and the average lies between them.
   */
  lemma ChunkStatsSpec(c: Chunker, chunks: seq<Chunk>)
    ensures GetChunkStats(c, chunks).None? <==> chunks == []
    ensures chunks != [] ==>
      var s := GetChunkStats(c, chunks).value;
      s.totalChunks == |chunks|
      && (exists i :: 0 <= i < |chunks| && s.minChunkSize == |chunks[i].content|)
      && (exists i :: 0 <= i < |chunks| && s.maxChunkSize == |chunks[i].content|)
      && (forall i :: 0 <= i < |chunks| ==> s.minChunkSize <= |chunks[i].content| <= s.maxChunkSize)
      && |chunks| * s.minChunkSize <= s.totalCharacters <= |chunks| * s.maxChunkSize
      && s.minChunkSize as real <= s.avgChunkSize <= s.maxChunkSize as real
      && s.chunkingMethod == c.strategy && s.configChunkSize == c.chunkSize && s.configOverlap == c.overlap
  {
    if chunks != [] {
      var lengths := Lengths(chunks);
      SumBounds(lengths, MinOf(lengths), MaxOf(lengths));
      AverageBetween(|lengths|, Sum(lengths), MinOf(lengths), MaxOf(lengths));
    }
  }

  /** An average of `n` numbers summing to `sum`, each between `lo` and `hi`, lies between them. */
  lemma AverageBetween(n: nat, sum: nat, lo: nat, hi: nat)
    requires 0 < n && n * lo <= sum <= n * hi
    ensures lo as real <= sum as real / n as real <= hi as real
  {
    var r := sum as real / n as real;
    assert r * n as real == sum as real;
    assert (n * lo) as real == n as real * lo as real;
    assert (n * hi) as real == n as real * hi as real;
  }

  // ------------------------------------------------------------ optimize_parameters

  /**
   * `optimize_parameters(text, target_chunks)`: the suggested size and
   * overlap. A `target_chunks` of 0 stands for both 0 and `None`, which
   * Python treats alike.
   */
  function OptimizeParameters(c: Chunker, text: string, targetChunks: int): (r: (int, int))
    requires ValidChunker(c)
    ensures targetChunks != 0 ==> MinChunkChars <= r.0 <= MaxChunkChars
    ensures targetChunks == 0 && |text| < 2000 ==> 0 <= r.0 <= 500 && 2 * r.0 <= |text|
    ensures targetChunks == 0 && |text| > 50000 ==> r.0 == MaxChunkChars
    ensures targetChunks == 0 && 2000 <= |text| <= 50000 ==> r.0 == c.chunkSize
    ensures 0 <= r.1 <= 300 && 5 * r.1 <= r.0
    ensures NewChunker(r.0, r.1, c.strategy).Ok?
  {
    var textLength := |text|;
    var optimalSize :=
      if targetChunks != 0 then Max(MinChunkChars, Min(FloorDiv(textLength, targetChunks), MaxChunkChars))
      else if textLength < 2000 then Min(textLength / 2, 500)
      else if textLength > 50000 then 2000
      else c.chunkSize;
    (optimalSize, Min(optimalSize / 5, 300))
  }
}
