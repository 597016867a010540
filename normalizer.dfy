/**
 * `DocumentProcessor.clean_text` of utils/document_processor.py: the text
 * normaliser every extracted document passes before it is chunked.  Its
 * four steps are modelled one function each, in the order the source
 * applies them:
 *
 *   1. `re.sub(r'([.,])([a-zA-Z])', r'\1 \2', text)`   SpaceAfterPunct
 *   2. `re.sub(r'\n\s*\n', '\n\n', text)`              CollapseBlankLines
 *   3. `re.sub(r' +', ' ', text)`                      CollapseSpaces
 *   4. strip every line of `splitlines()`, drop the empty ones and join the
 *      rest with "\n"                                    CleanLines
 */
module Normalizer {
  import opened Text

  // ------------------------------------------------------------ adjacency

  /** No two adjacent characters of `s` form a `bad` pair. */
  predicate PairFree(s: string, bad: (char, char) -> bool) {
    forall i :: 0 <= i < |s| - 1 ==> !bad(s[i], s[i + 1])
  }

  /** A '.' or ',' directly followed by an ASCII letter. */
  predicate PunctLetter(a: char, b: char) {
    (a == '.' || a == ',') && IsAsciiLetter(b)
  }

  predicate DoubleSpace(a: char, b: char) {
    a == ' ' && b == ' '
  }

  /** A pair predicate that never involves a newline. */
  ghost predicate IgnoresNewline(bad: (char, char) -> bool) {
    forall c :: !bad(c, '\n') && !bad('\n', c)
  }

  lemma PairFreeSlice(s: string, lo: nat, hi: nat, bad: (char, char) -> bool)
    requires lo <= hi <= |s| && PairFree(s, bad)
    ensures PairFree(s[lo..hi], bad)
  {
    var t := s[lo..hi];
    forall i | 0 <= i < |t| - 1
      ensures !bad(t[i], t[i + 1])
    {
      assert t[i] == s[lo + i] && t[i + 1] == s[lo + i + 1];
    }
  }

  lemma PairFreeConcat(a: string, b: string, bad: (char, char) -> bool)
    requires PairFree(a, bad) && PairFree(b, bad)
    requires a == [] || b == [] || !bad(a[|a| - 1], b[0])
    ensures PairFree(a + b, bad)
  {
    var s := a + b;
    forall i | 0 <= i < |s| - 1
      ensures !bad(s[i], s[i + 1])
    {
      if i + 1 < |a| {
        assert s[i] == a[i] && s[i + 1] == a[i + 1];
      } else if i >= |a| {
        assert s[i] == b[i - |a|] && s[i + 1] == b[i + 1 - |a|];
      }
    }
  }

  // ------------------------------------------------------------ step 1

  /** Inserts a space between '.' or ',' and a following ASCII letter. */
  function SpaceAfterPunct(s: string): (r: string)
    ensures s == [] <==> r == []
    ensures s != [] ==> r[0] == s[0]
    decreases |s|
  {
    if |s| >= 2 && PunctLetter(s[0], s[1]) then [s[0], ' ', s[1]] + SpaceAfterPunct(s[2..])
    else if s == [] then []
    else [s[0]] + SpaceAfterPunct(s[1..])
  }

  /** After step 1 no '.' or ',' is directly followed by an ASCII letter. */
  lemma {:induction false} SpaceAfterPunctSeparates(s: string)
    ensures PairFree(SpaceAfterPunct(s), PunctLetter)
    decreases |s|
  {
    if |s| >= 2 && PunctLetter(s[0], s[1]) {
      SpaceAfterPunctSeparates(s[2..]);
      PairFreeConcat([s[0], ' ', s[1]], SpaceAfterPunct(s[2..]), PunctLetter);
    } else if s != [] {
      SpaceAfterPunctSeparates(s[1..]);
      PairFreeConcat([s[0]], SpaceAfterPunct(s[1..]), PunctLetter);
    }
  }

  lemma {:induction false} SpaceAfterPunctNoop(s: string)
    requires PairFree(s, PunctLetter)
    ensures SpaceAfterPunct(s) == s
    decreases |s|
  {
    if s != [] {
      PairFreeSlice(s, 1, |s|, PunctLetter);
      SpaceAfterPunctNoop(s[1..]);
    }
  }

  /**
   * Step 1 described position by position: every character is kept, and a
   * single space follows it exactly when it is '.' or ',' and the next
   * character is an ASCII letter.
   */
  function PunctSpaced(s: string): string
    decreases |s|
  {
    if s == [] then []
    else [s[0]] + (if |s| >= 2 && PunctLetter(s[0], s[1]) then " " else "") + PunctSpaced(s[1..])
  }

  /** The number of adjacent pairs of `s` that `bad` holds for. */
  function PairCount(s: string, bad: (char, char) -> bool): nat
    decreases |s|
  {
    if |s| < 2 then 0 else (if bad(s[0], s[1]) then 1 else 0) + PairCount(s[1..], bad)
  }

  /**
   * The left-to-right substitution inserts exactly one space per '.' or ','
   * followed by an ASCII letter and keeps every other character in place:
   * matches never overlap, because the letter that ends one cannot start
   * the next.
   */
  lemma {:induction false} SpaceAfterPunctPositionwise(s: string)
    ensures SpaceAfterPunct(s) == PunctSpaced(s)
    decreases |s|
  {
    if |s| >= 2 && PunctLetter(s[0], s[1]) {
      SpaceAfterPunctPositionwise(s[2..]);
      assert |s| >= 3 ==> !PunctLetter(s[1], s[2]) by { assert s[1] != '.' && s[1] != ','; }
      assert s[1..][1..] == s[2..];
      calc {
        PunctSpaced(s);
        [s[0]] + " " + PunctSpaced(s[1..]);
        [s[0]] + " " + ([s[1]] + "" + PunctSpaced(s[2..]));
        [s[0], ' ', s[1]] + SpaceAfterPunct(s[2..]);
      }
    } else if s != [] {
      SpaceAfterPunctPositionwise(s[1..]);
    }
  }

  /** Step 1 lengthens the text by the number of '.'/','-letter pairs. */
  lemma {:induction false} SpaceAfterPunctLength(s: string)
    ensures |SpaceAfterPunct(s)| == |s| + PairCount(s, PunctLetter)
    decreases |s|
  {
    SpaceAfterPunctPositionwise(s);
    PunctSpacedLength(s);
  }

  lemma {:induction false} PunctSpacedLength(s: string)
    ensures |PunctSpaced(s)| == |s| + PairCount(s, PunctLetter)
    decreases |s|
  {
    if s != [] {
      PunctSpacedLength(s[1..]);
    }
  }

  /** `s` with every ' ' removed. */
  function NonSpaces(s: string): (r: string)
    ensures |r| <= |s|
    decreases |s|
  {
    if s == [] then [] else (if s[0] == ' ' then [] else [s[0]]) + NonSpaces(s[1..])
  }

  lemma {:induction false} NonSpacesAppend(a: string, b: string)
    ensures NonSpaces(a + b) == NonSpaces(a) + NonSpaces(b)
    decreases |a|
  {
    if a != [] {
      assert (a + b)[1..] == a[1..] + b;
      NonSpacesAppend(a[1..], b);
    } else {
      assert a + b == b;
    }
  }

  /** Step 1 only adds spaces: every other character is kept, in order. */
  lemma {:induction false} SpaceAfterPunctKeeps(s: string)
    ensures NonSpaces(SpaceAfterPunct(s)) == NonSpaces(s)
    decreases |s|
  {
    if |s| >= 2 && PunctLetter(s[0], s[1]) {
      SpaceAfterPunctKeeps(s[2..]);
      NonSpacesAppend([s[0], ' ', s[1]], SpaceAfterPunct(s[2..]));
      NonSpacesAppend([s[0], s[1]], s[2..]);
      assert s == [s[0], s[1]] + s[2..];
      assert NonSpaces([s[0], ' ', s[1]]) == [s[0], s[1]] by {
        assert [s[0], ' ', s[1]][1..] == [' ', s[1]] && [' ', s[1]][1..] == [s[1]] && [s[1]][1..] == [];
      }
      assert NonSpaces([s[0], s[1]]) == [s[0], s[1]] by {
        assert [s[0], s[1]][1..] == [s[1]] && [s[1]][1..] == [];
      }
    } else if s != [] {
      SpaceAfterPunctKeeps(s[1..]);
    }
  }

  // ------------------------------------------------------------ step 2

  /** The first index at or after `i` that is not whitespace, or `|s|`. */
  function SpaceRunEnd(s: string, i: nat): (j: nat)
    requires i <= |s|
    ensures i <= j <= |s|
    ensures forall k :: i <= k < j ==> IsSpace(s[k])
    ensures j < |s| ==> !IsSpace(s[j])
    decreases |s| - i
  {
    if i < |s| && IsSpace(s[i]) then SpaceRunEnd(s, i + 1) else i
  }

  /** The last index in `[lo, hi)` holding '\n', or -1. */
  function LastNewline(s: string, lo: nat, hi: nat): (k: int)
    requires lo <= hi <= |s|
    ensures k == -1 || (lo <= k < hi && s[k] == '\n')
    ensures forall m :: (if k < 0 then lo else k + 1) <= m < hi ==> s[m] != '\n'
    decreases hi - lo
  {
    if lo == hi then -1
    else if s[hi - 1] == '\n' then hi - 1
    else LastNewline(s, lo, hi - 1)
  }

  /**
   * Replaces every match of `\n\s*\n` by two newlines, scanning left to
   * right; the greedy `\s*` makes a match starting at a '\n' end at the last
   * '\n' of the whitespace run that follows it.
   */
  function CollapseBlankLines(s: string): (r: string)
    ensures s == [] <==> r == []
    ensures s != [] ==> r[0] == s[0]
    decreases |s|
  {
    if s == [] then []
    else if s[0] == '\n' then
      var k := LastNewline(s, 1, SpaceRunEnd(s, 1));
      if k >= 1 then "\n\n" + CollapseBlankLines(s[k + 1..])
      else "\n" + CollapseBlankLines(s[1..])
    else [s[0]] + CollapseBlankLines(s[1..])
  }

  /** One step of the scan: what is emitted for the start of `s`, and where the scan resumes. */
  lemma CollapseBlankLinesStep(s: string) returns (pre: string, j: nat)
    requires s != []
    ensures 1 <= j <= |s| && CollapseBlankLines(s) == pre + CollapseBlankLines(s[j..])
    ensures (pre == [s[0]] && j == 1) || pre == "\n" || pre == "\n\n"
  {
    if s[0] == '\n' {
      var k := LastNewline(s, 1, SpaceRunEnd(s, 1));
      if k >= 1 {
        pre, j := "\n\n", k + 1;
      } else {
        pre, j := "\n", 1;
      }
    } else {
      pre, j := [s[0]], 1;
    }
  }

  lemma {:induction false} CollapseBlankLinesKeepsPairs(s: string, bad: (char, char) -> bool)
    requires IgnoresNewline(bad) && PairFree(s, bad)
    ensures PairFree(CollapseBlankLines(s), bad)
    decreases |s|
  {
    if s != [] {
      var pre, j := CollapseBlankLinesStep(s);
      PairFreeSlice(s, j, |s|, bad);
      CollapseBlankLinesKeepsPairs(s[j..], bad);
      PairFreeConcat(pre, CollapseBlankLines(s[j..]), bad);
    }
  }

  lemma {:induction false} SpaceRunEndAppend(a: string, b: string, i: nat)
    requires i <= |a| && (b == [] || !IsSpace(b[0]))
    ensures SpaceRunEnd(a + b, i) == SpaceRunEnd(a, i)
    decreases |a| - i
  {
    if i < |a| && IsSpace(a[i]) {
      SpaceRunEndAppend(a, b, i + 1);
    }
  }

  lemma {:induction false} LastNewlineAppend(a: string, b: string, lo: nat, hi: nat)
    requires lo <= hi <= |a|
    ensures LastNewline(a + b, lo, hi) == LastNewline(a, lo, hi)
    decreases hi - lo
  {
    if lo < hi && a[hi - 1] != '\n' {
      LastNewlineAppend(a, b, lo, hi - 1);
    }
  }

  /** Text ending before a non-whitespace character is scanned on its own. */
  lemma {:induction false} CollapseBlankLinesAppend(a: string, b: string)
    requires b == [] || !IsSpace(b[0])
    ensures CollapseBlankLines(a + b) == CollapseBlankLines(a) + CollapseBlankLines(b)
    decreases |a|
  {
    if a == [] {
      assert a + b == b;
    } else {
      var pre, j := CollapseBlankLinesHead(a, b);
      CollapseBlankLinesAppend(a[j..], b);
      ConcatAssoc(pre, CollapseBlankLines(a[j..]), CollapseBlankLines(b));
    }
  }

  /** The first step of the scan of `a + b` is the first step of the scan of `a`. */
  lemma CollapseBlankLinesHead(a: string, b: string) returns (pre: string, j: nat)
    requires a != [] && (b == [] || !IsSpace(b[0]))
    ensures 1 <= j <= |a|
    ensures CollapseBlankLines(a) == pre + CollapseBlankLines(a[j..])
    ensures CollapseBlankLines(a + b) == pre + CollapseBlankLines(a[j..] + b)
  {
    var s := a + b;
    assert s[0] == a[0];
    if a[0] != '\n' {
      pre, j := [a[0]], 1;
      DropAppend(a, b, 1);
    } else {
      pre, j := CollapseBlankLinesNewlineHead(a, b);
    }
  }

  /** `CollapseBlankLinesHead` when `a` starts with a newline: the whitespace run after it ends inside `a`. */
  lemma CollapseBlankLinesNewlineHead(a: string, b: string) returns (pre: string, j: nat)
    requires a != [] && a[0] == '\n' && (b == [] || !IsSpace(b[0]))
    ensures 1 <= j <= |a|
    ensures CollapseBlankLines(a) == pre + CollapseBlankLines(a[j..])
    ensures CollapseBlankLines(a + b) == pre + CollapseBlankLines(a[j..] + b)
  {
    var s := a + b;
    var e := SpaceRunEnd(a, 1);
    var k := LastNewline(a, 1, e);
    assert LastNewline(s, 1, SpaceRunEnd(s, 1)) == k by {
      SpaceRunEndAppend(a, b, 1);
      LastNewlineAppend(a, b, 1, e);
    }
    CollapseBlankLinesAtNewline(a, k);
    CollapseBlankLinesAtNewline(s, k);
    if k >= 1 {
      pre, j := "\n\n", k + 1;
    } else {
      pre, j := "\n", 1;
    }
    DropAppend(a, b, j);
  }

  /** Dropping a prefix of `a` from `a + b`. */
  lemma DropAppend(a: string, b: string, j: nat)
    requires j <= |a|
    ensures (a + b)[j..] == a[j..] + b
  {
  }

  /** The scan at a newline emits one or two newlines and resumes after the last newline of the whitespace run. */
  lemma CollapseBlankLinesAtNewline(s: string, k: int)
    requires s != [] && s[0] == '\n' && k == LastNewline(s, 1, SpaceRunEnd(s, 1))
    ensures k < |s|
    ensures CollapseBlankLines(s) == if k >= 1 then "\n\n" + CollapseBlankLines(s[k + 1..])
                                     else "\n" + CollapseBlankLines(s[1..])
  {
  }

  /** Every newline is followed by a non-whitespace character. */
  predicate NewlineThenText(s: string) {
    forall i :: 0 <= i < |s| && s[i] == '\n' ==> i + 1 < |s| && !IsSpace(s[i + 1])
  }

  lemma {:induction false} CollapseBlankLinesNoop(s: string)
    requires NewlineThenText(s)
    ensures CollapseBlankLines(s) == s
    decreases |s|
  {
    if s != [] {
      assert NewlineThenText(s[1..]) by {
        forall i | 0 <= i < |s[1..]| && s[1..][i] == '\n'
          ensures i + 1 < |s[1..]| && !IsSpace(s[1..][i + 1])
        {
          assert s[i + 1] == '\n';
        }
      }
      CollapseBlankLinesNoop(s[1..]);
      if s[0] == '\n' {
        assert SpaceRunEnd(s, 1) == 1;
      }
    }
  }

  // ------------------------------------------------------------ step 3

  /** Replaces every run of spaces by one space. */
  function CollapseSpaces(s: string): (r: string)
    ensures s == [] <==> r == []
    ensures s != [] ==> r[0] == s[0]
    decreases |s|
  {
    if |s| >= 2 && DoubleSpace(s[0], s[1]) then CollapseSpaces(s[1..])
    else if s == [] then []
    else [s[0]] + CollapseSpaces(s[1..])
  }

  lemma {:induction false} CollapseSpacesSeparates(s: string, bad: (char, char) -> bool)
    requires PairFree(s, bad)
    ensures PairFree(CollapseSpaces(s), bad)
    ensures PairFree(CollapseSpaces(s), DoubleSpace)
    decreases |s|
  {
    if s != [] {
      PairFreeSlice(s, 1, |s|, bad);
      CollapseSpacesSeparates(s[1..], bad);
      if !(|s| >= 2 && DoubleSpace(s[0], s[1])) {
        PairFreeConcat([s[0]], CollapseSpaces(s[1..]), bad);
        PairFreeConcat([s[0]], CollapseSpaces(s[1..]), DoubleSpace);
      }
    }
  }

  lemma {:induction false} CollapseSpacesNoop(s: string)
    requires PairFree(s, DoubleSpace)
    ensures CollapseSpaces(s) == s
    decreases |s|
  {
    if s != [] {
      PairFreeSlice(s, 1, |s|, DoubleSpace);
      CollapseSpacesNoop(s[1..]);
    }
  }

  /** The end of the run of ' ' starting at `i`. */
  function BlankRunEnd(s: string, i: nat): (j: nat)
    requires i <= |s|
    ensures i <= j <= |s|
    ensures forall k :: i <= k < j ==> s[k] == ' '
    ensures j < |s| ==> s[j] != ' '
    decreases |s| - i
  {
    if i < |s| && s[i] == ' ' then BlankRunEnd(s, i + 1) else i
  }

  /** Step 3 described run by run: each maximal run of spaces becomes one space. */
  function RunsCollapsed(s: string): string
    decreases |s|
  {
    if s == [] then []
    else if s[0] == ' ' then " " + RunsCollapsed(s[BlankRunEnd(s, 0)..])
    else [s[0]] + RunsCollapsed(s[1..])
  }

  /** A run of `j` spaces at the front of `s` leaves one space. */
  lemma {:induction false} CollapseSpacesRun(s: string, j: nat)
    requires 1 <= j <= |s| && forall k :: 0 <= k < j ==> s[k] == ' '
    requires j < |s| ==> s[j] != ' '
    ensures CollapseSpaces(s) == " " + CollapseSpaces(s[j..])
    decreases j
  {
    if j > 1 {
      CollapseSpacesRun(s[1..], j - 1);
      assert s[1..][j - 1..] == s[j..];
    }
  }

  /** `re.sub(r' +', ' ', ...)` replaces each run of spaces by a single space and keeps the rest. */
  lemma {:induction false} CollapseSpacesRuns(s: string)
    ensures CollapseSpaces(s) == RunsCollapsed(s)
    decreases |s|
  {
    if s != [] {
      if s[0] == ' ' {
        var j := BlankRunEnd(s, 0);
        CollapseSpacesRun(s, j);
        CollapseSpacesRuns(s[j..]);
      } else {
        CollapseSpacesRuns(s[1..]);
      }
    }
  }

  /** Text not ending in a space where the next starts with one is collapsed on its own. */
  lemma {:induction false} CollapseSpacesAppend(a: string, b: string)
    requires a == [] || b == [] || !DoubleSpace(a[|a| - 1], b[0])
    ensures CollapseSpaces(a + b) == CollapseSpaces(a) + CollapseSpaces(b)
    decreases |a|
  {
    if a == [] {
      assert a + b == b;
    } else {
      assert (a + b)[1..] == a[1..] + b;
      CollapseSpacesAppend(a[1..], b);
    }
  }

  /** Step 3 removes one character per pair of adjacent spaces. */
  lemma {:induction false} CollapseSpacesLength(s: string)
    ensures |CollapseSpaces(s)| + PairCount(s, DoubleSpace) == |s|
    decreases |s|
  {
    if s != [] {
      CollapseSpacesLength(s[1..]);
    }
  }

  /** Step 3 removes only spaces: every other character is kept, in order. */
  lemma {:induction false} CollapseSpacesKeeps(s: string)
    ensures NonSpaces(CollapseSpaces(s)) == NonSpaces(s)
    decreases |s|
  {
    if s != [] {
      CollapseSpacesKeeps(s[1..]);
    }
  }

  // ------------------------------------------------------------ step 4

  predicate NoLineBreak(s: string) {
    forall i :: 0 <= i < |s| ==> !IsLineBreak(s[i])
  }

  /** Index of the first line boundary of `s`, or `|s|`. */
  function FirstBreak(s: string): (k: nat)
    ensures k <= |s|
    ensures NoLineBreak(s[..k])
    ensures k < |s| ==> IsLineBreak(s[k])
  {
    if s == [] || IsLineBreak(s[0]) then 0
    else
      var k := 1 + FirstBreak(s[1..]);
      assert s[..k] == [s[0]] + s[1..][..k - 1];
      k
  }

  lemma FirstBreakAt(s: string, k: nat)
    requires k <= |s| && NoLineBreak(s[..k]) && (k < |s| ==> IsLineBreak(s[k]))
    ensures FirstBreak(s) == k
  {
    var f := FirstBreak(s);
    assert forall j :: 0 <= j < k ==> s[..k][j] == s[j];
    assert forall j :: 0 <= j < f ==> s[..f][j] == s[j];
  }

  /** Python's `str.splitlines()`: "\r\n" is one boundary, a final boundary adds no line. */
  function SplitLines(s: string): (r: seq<string>)
    ensures forall i :: 0 <= i < |r| ==> NoLineBreak(r[i])
    decreases |s|
  {
    if s == [] then []
    else
      var k := FirstBreak(s);
      if k == |s| then
        assert s[..k] == s;
        [s]
      else
        var next := if s[k] == '\r' && k + 1 < |s| && s[k + 1] == '\n' then k + 2 else k + 1;
        [s[..k]] + SplitLines(s[next..])
  }

  lemma {:induction false} SplitLinesPairs(s: string, bad: (char, char) -> bool)
    requires PairFree(s, bad)
    ensures forall i :: 0 <= i < |SplitLines(s)| ==> PairFree(SplitLines(s)[i], bad)
    decreases |s|
  {
    if s != [] {
      var k := FirstBreak(s);
      if k < |s| {
        var next := if s[k] == '\r' && k + 1 < |s| && s[k + 1] == '\n' then k + 2 else k + 1;
        PairFreeSlice(s, 0, k, bad);
        assert s[0..k] == s[..k];
        PairFreeSlice(s, next, |s|, bad);
        SplitLinesPairs(s[next..], bad);
      }
    }
  }

  /** A line as `clean_text` emits it. */
  predicate GoodLine(l: string) {
    l != [] && !IsSpace(l[0]) && !IsSpace(l[|l| - 1]) && NoLineBreak(l)
    && PairFree(l, PunctLetter) && PairFree(l, DoubleSpace)
  }

  /** Strips every line and keeps the non-empty ones. */
  function CleanLines(lines: seq<string>): seq<string> {
    if lines == [] then []
    else (if Strip(lines[0]) == [] then [] else [Strip(lines[0])]) + CleanLines(lines[1..])
  }

  lemma NoLineBreakSlice(s: string, lo: nat, hi: nat)
    requires lo <= hi <= |s| && NoLineBreak(s)
    ensures NoLineBreak(s[lo..hi])
  {
    var t := s[lo..hi];
    forall i | 0 <= i < |t|
      ensures !IsLineBreak(t[i])
    {
      assert t[i] == s[lo + i];
    }
  }

  lemma StripKeeps(l: string)
    requires NoLineBreak(l) && PairFree(l, PunctLetter) && PairFree(l, DoubleSpace)
    ensures Strip(l) == [] || GoodLine(Strip(l))
  {
    var lo, hi := StripIsSlice(l);
    StripEnds(l);
    PairFreeSlice(l, lo, hi, PunctLetter);
    PairFreeSlice(l, lo, hi, DoubleSpace);
    NoLineBreakSlice(l, lo, hi);
  }

  lemma {:induction false} CleanLinesGood(lines: seq<string>)
    requires forall i :: 0 <= i < |lines| ==>
      NoLineBreak(lines[i]) && PairFree(lines[i], PunctLetter) && PairFree(lines[i], DoubleSpace)
    ensures forall i :: 0 <= i < |CleanLines(lines)| ==> GoodLine(CleanLines(lines)[i])
  {
    if lines != [] {
      StripKeeps(lines[0]);
      CleanLinesGood(lines[1..]);
    }
  }

  lemma {:induction false} CleanLinesNoop(lines: seq<string>)
    requires forall i :: 0 <= i < |lines| ==> GoodLine(lines[i])
    ensures CleanLines(lines) == lines
  {
    if lines != [] {
      StripNoop(lines[0]);
      CleanLinesNoop(lines[1..]);
    }
  }

  lemma {:induction false} JoinPairFree(ls: seq<string>, bad: (char, char) -> bool)
    requires IgnoresNewline(bad)
    requires forall i :: 0 <= i < |ls| ==> PairFree(ls[i], bad)
    ensures PairFree(Join("\n", ls), bad)
  {
    if |ls| >= 2 {
      JoinPairFree(ls[1..], bad);
      var rest := Join("\n", ls[1..]);
      PairFreeConcat("\n", rest, bad);
      PairFreeConcat(ls[0], "\n" + rest, bad);
      assert ls[0] + "\n" + rest == ls[0] + ("\n" + rest);
    }
  }

  lemma {:induction false} JoinFirst(ls: seq<string>)
    requires forall i :: 0 <= i < |ls| ==> GoodLine(ls[i])
    ensures ls != [] && ls[0] != [] ==> Join("\n", ls) != [] && Join("\n", ls)[0] == ls[0][0]
  {
  }

  lemma {:induction false} JoinNewlineThenText(ls: seq<string>)
    requires forall i :: 0 <= i < |ls| ==> GoodLine(ls[i])
    ensures NewlineThenText(Join("\n", ls))
  {
    if |ls| == 1 {
      assert forall i :: 0 <= i < |ls[0]| ==> !IsLineBreak(ls[0][i]);
    } else if |ls| >= 2 {
      JoinNewlineThenText(ls[1..]);
      JoinFirst(ls[1..]);
      var rest := Join("\n", ls[1..]);
      var l := ls[0];
      var r := l + "\n" + rest;
      assert forall j :: 0 <= j < |l| ==> r[j] == l[j] && !IsLineBreak(l[j]);
      forall i | 0 <= i < |r| && r[i] == '\n'
        ensures i + 1 < |r| && !IsSpace(r[i + 1])
      {
        if i > |l| {
          assert r[i] == rest[i - |l| - 1];
          assert r[i + 1] == rest[i - |l|];
        } else {
          assert r[i + 1] == rest[0];
        }
      }
    }
  }

  /** A line without a break, then "\n": `splitlines` gives that line first and splits the rest. */
  lemma SplitAtNewline(l: string, rest: string)
    requires NoLineBreak(l)
    ensures SplitLines(l + "\n" + rest) == [l] + SplitLines(rest)
  {
    var r := l + "\n" + rest;
    assert r[..|l|] == l;
    FirstBreakAt(r, |l|);
    assert r[|l| + 1..] == rest;
  }

  lemma {:induction false} SplitJoin(ls: seq<string>)
    requires forall i :: 0 <= i < |ls| ==> GoodLine(ls[i])
    ensures SplitLines(Join("\n", ls)) == ls
  {
    if |ls| == 1 {
      assert ls[0][..|ls[0]|] == ls[0];
      FirstBreakAt(ls[0], |ls[0]|);
    } else if |ls| >= 2 {
      SplitJoin(ls[1..]);
      SplitAtNewline(ls[0], Join("\n", ls[1..]));
      assert ls == [ls[0]] + ls[1..];
    }
  }

  /** `splitlines` undoes joining lines by "\n" when the last line is not empty. */
  lemma {:induction false} SplitJoinLines(ls: seq<string>)
    requires ls != [] && ls[|ls| - 1] != []
    requires forall i :: 0 <= i < |ls| ==> NoLineBreak(ls[i])
    ensures SplitLines(Join("\n", ls)) == ls
  {
    if |ls| == 1 {
      assert ls[0][..|ls[0]|] == ls[0];
      FirstBreakAt(ls[0], |ls[0]|);
    } else {
      SplitJoinLines(ls[1..]);
      SplitAtNewline(ls[0], Join("\n", ls[1..]));
      assert ls == [ls[0]] + ls[1..];
    }
  }

  lemma JoinGoodLines(ls: seq<string>)
    requires forall i :: 0 <= i < |ls| ==> GoodLine(ls[i])
    ensures var r := Join("\n", ls);
      PairFree(r, PunctLetter) && PairFree(r, DoubleSpace) && NewlineThenText(r)
      && SplitLines(r) == ls
  {
    JoinPairFree(ls, PunctLetter);
    JoinPairFree(ls, DoubleSpace);
    JoinNewlineThenText(ls);
    SplitJoin(ls);
  }

  // ------------------------------------------------------------ clean_text

  /** The three regular-expression substitutions, in order. */
  function Substitute(text: string): string {
    CollapseSpaces(CollapseBlankLines(SpaceAfterPunct(text)))
  }

  /** `DocumentProcessor.clean_text`. */
  function CleanText(text: string): string {
    if text == [] then "" else Join("\n", CleanLines(SplitLines(Substitute(text))))
  }

  /** The lines `clean_text` keeps, all of which are good lines. */
  lemma CleanTextLines(text: string) returns (ls: seq<string>)
    ensures CleanText(text) == Join("\n", ls)
    ensures forall i :: 0 <= i < |ls| ==> GoodLine(ls[i])
  {
    if text == [] {
      ls := [];
    } else {
      var c := Substitute(text);
      SpaceAfterPunctSeparates(text);
      CollapseBlankLinesKeepsPairs(SpaceAfterPunct(text), PunctLetter);
      CollapseSpacesSeparates(CollapseBlankLines(SpaceAfterPunct(text)), PunctLetter);
      SplitLinesPairs(c, PunctLetter);
      SplitLinesPairs(c, DoubleSpace);
      ls := CleanLines(SplitLines(c));
      CleanLinesGood(SplitLines(c));
    }
  }

  /**
   * The output of `clean_text` is a sequence of non-empty lines joined by
   * "\n"; each line has no leading or trailing whitespace, no other line
   * boundary, no run of two spaces, and no '.' or ',' directly followed by
   * an ASCII letter; and its non-whitespace characters are those of the
   * text, in order.
   */
  lemma CleanTextNormalizes(text: string)
    ensures var r := CleanText(text);
      r == Join("\n", SplitLines(r))
      && (forall i :: 0 <= i < |SplitLines(r)| ==> GoodLine(SplitLines(r)[i]))
      && PairFree(r, PunctLetter) && PairFree(r, DoubleSpace)
      && Visible(r) == Visible(text)
  {
    var ls := CleanTextLines(text);
    JoinGoodLines(ls);
    CleanTextVisible(text);
  }

  /** Cleaning cleaned text changes nothing. */
  lemma CleanTextIdempotent(text: string)
    ensures CleanText(CleanText(text)) == CleanText(text)
  {
    var ls := CleanTextLines(text);
    var r := CleanText(text);
    JoinGoodLines(ls);
    if r != [] {
      SpaceAfterPunctNoop(r);
      CollapseBlankLinesNoop(r);
      CollapseSpacesNoop(r);
      CleanLinesNoop(ls);
    }
  }

  // ------------------------------------------------------------ what clean_text keeps

  /** `s` without its whitespace: the characters a reader sees, in order. */
  function Visible(s: string): (r: string)
    ensures |r| <= |s|
    decreases |s|
  {
    if s == [] then [] else (if IsSpace(s[0]) then [] else [s[0]]) + Visible(s[1..])
  }

  lemma {:induction false} VisibleAppend(a: string, b: string)
    ensures Visible(a + b) == Visible(a) + Visible(b)
    decreases |a|
  {
    if a == [] {
      assert a + b == b;
    } else {
      var head := if IsSpace(a[0]) then [] else [a[0]];
      assert (a + b)[0] == a[0];
      DropAppend(a, b, 1);
      assert Visible(a + b) == head + Visible(a[1..] + b);
      VisibleAppend(a[1..], b);
      ConcatAssoc(head, Visible(a[1..]), Visible(b));
    }
  }

  lemma ConcatAssoc(x: string, y: string, z: string)
    ensures x + (y + z) == (x + y) + z
  {
  }

  /** The newlines step 2 and the join emit are invisible. */
  lemma VisibleNewlines()
    ensures Visible("\n") == [] && Visible("\n\n") == []
  {
    assert IsSpace('\n');
    assert "\n\n"[1..] == "\n";
  }

  lemma {:induction false} VisibleOfBlank(s: string)
    requires IsBlank(s)
    ensures Visible(s) == []
    decreases |s|
  {
    if s != [] {
      assert IsBlank(s[1..]) by {
        forall i | 0 <= i < |s[1..]|
          ensures IsSpace(s[1..][i])
        {
          assert s[1..][i] == s[i + 1];
        }
      }
      VisibleOfBlank(s[1..]);
    }
  }

  /** A slice of whitespace characters is blank. */
  lemma BlankSlice(s: string, lo: nat, hi: nat)
    requires lo <= hi <= |s|
    requires forall i :: lo <= i < hi ==> IsSpace(s[i])
    ensures IsBlank(s[lo..hi])
  {
    var t := s[lo..hi];
    forall i | 0 <= i < |t|
      ensures IsSpace(t[i])
    {
      assert t[i] == s[lo + i];
    }
  }

  lemma VisibleSplit(s: string, i: nat)
    requires i <= |s|
    ensures Visible(s) == Visible(s[..i]) + Visible(s[i..])
  {
    assert s == s[..i] + s[i..];
    VisibleAppend(s[..i], s[i..]);
  }

  /** A whitespace-only prefix and suffix hide nothing. */
  lemma VisibleBetweenBlanks(s: string, lo: nat, hi: nat)
    requires lo <= hi <= |s|
    requires forall i :: 0 <= i < lo ==> IsSpace(s[i])
    requires forall i :: hi <= i < |s| ==> IsSpace(s[i])
    ensures Visible(s[lo..hi]) == Visible(s)
  {
    assert Visible(s[..lo]) == [] by {
      BlankSlice(s, 0, lo);
      SliceParts(s, lo, hi);
      VisibleOfBlank(s[..lo]);
    }
    assert Visible(s[hi..]) == [] by {
      BlankSlice(s, hi, |s|);
      SliceParts(s, lo, hi);
      VisibleOfBlank(s[hi..]);
    }
    assert Visible(s[lo..]) == Visible(s[lo..hi]) + Visible(s[hi..]) by {
      SliceParts(s, lo, hi);
      VisibleSplit(s[lo..], hi - lo);
    }
    VisibleSplit(s, lo);
  }

  /** The slices `s[lo..hi]` is made of, named in the ways the lemmas above use. */
  lemma SliceParts(s: string, lo: nat, hi: nat)
    requires lo <= hi <= |s|
    ensures s[0..lo] == s[..lo] && s[hi..|s|] == s[hi..]
    ensures s[lo..][..hi - lo] == s[lo..hi] && s[lo..][hi - lo..] == s[hi..]
  {
  }

  lemma {:induction false} VisibleNonSpaces(s: string)
    ensures Visible(NonSpaces(s)) == Visible(s)
    decreases |s|
  {
    if s != [] {
      VisibleNonSpaces(s[1..]);
      if s[0] != ' ' {
        VisibleAppend([s[0]], NonSpaces(s[1..]));
        assert [s[0]][1..] == [];
      } else {
        assert NonSpaces(s) == NonSpaces(s[1..]);
      }
    }
  }

  /** Step 1 only inserts spaces. */
  lemma SpaceAfterPunctVisible(s: string)
    ensures Visible(SpaceAfterPunct(s)) == Visible(s)
  {
    SpaceAfterPunctKeeps(s);
    VisibleNonSpaces(SpaceAfterPunct(s));
    VisibleNonSpaces(s);
  }

  /** Step 3 only removes spaces. */
  lemma CollapseSpacesVisible(s: string)
    ensures Visible(CollapseSpaces(s)) == Visible(s)
  {
    CollapseSpacesKeeps(s);
    VisibleNonSpaces(CollapseSpaces(s));
    VisibleNonSpaces(s);
  }

  /** What step 2 replaces at a newline is whitespace up to the last newline of the run. */
  lemma BlankLinesRunIsBlank(s: string, k: int)
    requires s != [] && s[0] == '\n' && k == LastNewline(s, 1, SpaceRunEnd(s, 1)) && k >= 1
    ensures IsBlank(s[..k + 1])
  {
    assert forall i :: 0 <= i < k + 1 ==> IsSpace(s[i]);
    BlankSlice(s, 0, k + 1);
    assert s[0..k + 1] == s[..k + 1];
  }

  /** Step 2 only replaces whitespace by newlines. */
  lemma {:induction false} CollapseBlankLinesVisible(s: string)
    ensures Visible(CollapseBlankLines(s)) == Visible(s)
    decreases |s|
  {
    if s != [] {
      var k := LastNewline(s, 1, SpaceRunEnd(s, 1));
      if s[0] == '\n' && k >= 1 {
        BlankRunVisible(s, k);
        CollapseBlankLinesVisible(s[k + 1..]);
      } else {
        FirstCharVisible(s);
        CollapseBlankLinesVisible(s[1..]);
      }
    }
  }

  /** A blank-line run and the two newlines that replace it are both invisible. */
  lemma BlankRunVisible(s: string, k: int)
    requires s != [] && s[0] == '\n' && k == LastNewline(s, 1, SpaceRunEnd(s, 1)) && k >= 1
    ensures k + 1 <= |s|
    ensures Visible(CollapseBlankLines(s)) == Visible(CollapseBlankLines(s[k + 1..]))
    ensures Visible(s) == Visible(s[k + 1..])
  {
    CollapseBlankLinesAtNewline(s, k);
    VisibleNewlines();
    VisibleAppend("\n\n", CollapseBlankLines(s[k + 1..]));
    BlankRunDropped(s, k);
  }

  lemma BlankRunDropped(s: string, k: int)
    requires s != [] && s[0] == '\n' && k == LastNewline(s, 1, SpaceRunEnd(s, 1)) && k >= 1
    ensures k + 1 <= |s| && Visible(s) == Visible(s[k + 1..])
  {
    BlankLinesRunIsBlank(s, k);
    VisibleOfBlank(s[..k + 1]);
    VisibleSplit(s, k + 1);
  }

  /** Outside a blank-line run step 2 copies the first character. */
  lemma FirstCharVisible(s: string)
    requires s != [] && !(s[0] == '\n' && LastNewline(s, 1, SpaceRunEnd(s, 1)) >= 1)
    ensures Visible(CollapseBlankLines(s)) == Visible([s[0]]) + Visible(CollapseBlankLines(s[1..]))
    ensures Visible(s) == Visible([s[0]]) + Visible(s[1..])
  {
    assert CollapseBlankLines(s) == [s[0]] + CollapseBlankLines(s[1..]);
    VisibleAppend([s[0]], CollapseBlankLines(s[1..]));
    VisibleSplit(s, 1);
    assert s[..1] == [s[0]];
  }

  /** The visible characters of each line, one line after the other. */
  function VisibleLines(ls: seq<string>): string {
    if ls == [] then [] else Visible(ls[0]) + VisibleLines(ls[1..])
  }

  /** `splitlines` at a boundary: the first line, then the lines after the boundary, which is whitespace. */
  lemma SplitLinesBreak(s: string) returns (next: nat)
    requires s != [] && FirstBreak(s) < |s|
    ensures FirstBreak(s) < next <= |s|
    ensures SplitLines(s) == [s[..FirstBreak(s)]] + SplitLines(s[next..])
    ensures forall i :: FirstBreak(s) <= i < next ==> IsSpace(s[i])
  {
    var k := FirstBreak(s);
    next := if s[k] == '\r' && k + 1 < |s| && s[k + 1] == '\n' then k + 2 else k + 1;
    forall i | k <= i < next
      ensures IsSpace(s[i])
    {
      if i == k {
        LineBreakIsSpace(s[k]);
      } else {
        assert s[i] == '\n';
      }
    }
  }

  /** `splitlines` drops only line boundaries, which are whitespace. */
  lemma {:induction false} SplitLinesVisible(s: string)
    ensures VisibleLines(SplitLines(s)) == Visible(s)
    decreases |s|
  {
    if s != [] {
      var k := FirstBreak(s);
      if k == |s| {
        assert s[..k] == s;
        assert SplitLines(s) == [s];
        assert VisibleLines([s]) == Visible(s) + VisibleLines([]);
      } else {
        var next := SplitLinesBreak(s);
        SplitLinesVisible(s[next..]);
        assert Visible(s[k..]) == Visible(s[next..]) by {
          SliceParts(s, k, next);
          BlankSlice(s, k, next);
          VisibleOfBlank(s[k..next]);
          VisibleSplit(s[k..], next - k);
        }
        var ls := SplitLines(s);
        assert VisibleLines(ls) == Visible(s[..k]) + VisibleLines(SplitLines(s[next..])) by {
          assert ls[0] == s[..k] && ls[1..] == SplitLines(s[next..]);
        }
        VisibleSplit(s, k);
      }
    }
  }

  /** Stripping and dropping empty lines removes only whitespace. */
  lemma {:induction false} CleanLinesVisible(ls: seq<string>)
    ensures VisibleLines(CleanLines(ls)) == VisibleLines(ls)
  {
    if ls != [] {
      CleanLinesVisible(ls[1..]);
      var lo, hi := StripIsSlice(ls[0]);
      VisibleBetweenBlanks(ls[0], lo, hi);
      var rest := CleanLines(ls[1..]);
      if Strip(ls[0]) == [] {
        assert CleanLines(ls) == rest;
      } else {
        var cl := [Strip(ls[0])] + rest;
        assert CleanLines(ls) == cl;
        assert cl[0] == Strip(ls[0]) && cl[1..] == rest;
      }
    }
  }

  /** Joining lines with "\n" adds only whitespace. */
  lemma {:induction false} VisibleJoin(ls: seq<string>)
    ensures Visible(Join("\n", ls)) == VisibleLines(ls)
  {
    if |ls| == 1 {
      assert VisibleLines(ls) == Visible(ls[0]) + VisibleLines([]);
    } else if |ls| >= 2 {
      VisibleJoin(ls[1..]);
      VisibleAppend(ls[0] + "\n", Join("\n", ls[1..]));
      VisibleAppend(ls[0], "\n");
      VisibleNewlines();
    }
  }

  /**
   * `clean_text` keeps every non-whitespace character of the text, in
   * order, and adds none: all it changes is whitespace.
   */
  lemma CleanTextVisible(text: string)
    ensures Visible(CleanText(text)) == Visible(text)
  {
    if text != [] {
      var a := SpaceAfterPunct(text);
      var b := CollapseBlankLines(a);
      var c := CollapseSpaces(b);
      SpaceAfterPunctVisible(text);
      CollapseBlankLinesVisible(a);
      CollapseSpacesVisible(b);
      SplitLinesVisible(c);
      CleanLinesVisible(SplitLines(c));
      VisibleJoin(CleanLines(SplitLines(c)));
    }
  }

  // ------------------------------------------------------------ an example

  /** Text without a newline is copied by step 2 up to where the next part starts. */
  lemma {:induction false} CollapseBlankLinesNoNewline(a: string, b: string)
    requires forall i :: 0 <= i < |a| ==> a[i] != '\n'
    ensures CollapseBlankLines(a + b) == a + CollapseBlankLines(b)
    decreases |a|
  {
    if a == [] {
      assert a + b == b;
    } else {
      assert (a + b)[1..] == a[1..] + b;
      CollapseBlankLinesNoNewline(a[1..], b);
    }
  }

  lemma {:induction false} CollapseSpacesNoSpace(s: string)
    requires forall i :: 0 <= i < |s| ==> s[i] != ' '
    ensures CollapseSpaces(s) == s
    decreases |s|
  {
    if s != [] {
      CollapseSpacesNoSpace(s[1..]);
    }
  }

  lemma PairFreeNoPunct(s: string)
    requires forall i :: 0 <= i < |s| ==> s[i] != '.' && s[i] != ','
    ensures PairFree(s, PunctLetter)
  {
  }

  /** Step 1 on the text of the repository's cleaning test: it has no '.' or ',' before a letter. */
  lemma SpaceAfterPunctExample()
    ensures SpaceAfterPunct("  This   is\n\na\n  test.\n\n  ") == "  This   is\n\na\n  test.\n\n  "
  {
    var a, b := "  This   is\n\na\n  test", ".\n\n  ";
    assert a + b == "  This   is\n\na\n  test.\n\n  ";
    PairFreeNoPunct(a);
    assert PairFree(b, PunctLetter);
    PairFreeConcat(a, b, PunctLetter);
    SpaceAfterPunctNoop(a + b);
  }

  /** Step 2 on the example: each blank-line match is already "\n\n". */
  lemma CollapseBlankLinesExample()
    ensures CollapseBlankLines("  This   is\n\na\n  test.\n\n  ") == "  This   is\n\na\n  test.\n\n  "
  {
    ExampleLineParts();
    ExampleBlankLines();
    ExampleNoNewline();
    CollapseBlankLinesLines("  This   is", "\n\n", "a", "\n  ", "test.", "\n\n  ");
  }

  /**
   * Three lines, each followed by a newline run that step 2 leaves alone,
   * are left alone when every line after the first starts with text.
   */
  lemma CollapseBlankLinesLines(l1: string, n1: string, l2: string, n2: string, l3: string, n3: string)
    requires forall i :: 0 <= i < |l1| ==> l1[i] != '\n'
    requires forall i :: 0 <= i < |l2| ==> l2[i] != '\n'
    requires forall i :: 0 <= i < |l3| ==> l3[i] != '\n'
    requires l2 != [] && !IsSpace(l2[0]) && l3 != [] && !IsSpace(l3[0])
    requires CollapseBlankLines(n1) == n1 && CollapseBlankLines(n2) == n2 && CollapseBlankLines(n3) == n3
    ensures CollapseBlankLines(l1 + (n1 + (l2 + (n2 + (l3 + n3))))) == l1 + (n1 + (l2 + (n2 + (l3 + n3))))
  {
    CollapseBlankLinesNoNewline(l3, n3);
    CollapseBlankLinesAppend(n2, l3 + n3);
    CollapseBlankLinesNoNewline(l2, n2 + (l3 + n3));
    CollapseBlankLinesAppend(n1, l2 + (n2 + (l3 + n3)));
    CollapseBlankLinesNoNewline(l1, n1 + (l2 + (n2 + (l3 + n3))));
  }

  /** The newline runs of the example are left as they are. */
  lemma ExampleBlankLines()
    ensures CollapseBlankLines("\n\n") == "\n\n"
    ensures CollapseBlankLines("\n  ") == "\n  "
    ensures CollapseBlankLines("\n\n  ") == "\n\n  "
  {
    var s := "\n\n  ";
    assert SpaceRunEnd(s, 1) == 4 && LastNewline(s, 1, 4) == 1 && s[2..] == "  ";
  }

  lemma ExampleNoNewline()
    ensures forall i :: 0 <= i < |"  This   is"| ==> "  This   is"[i] != '\n'
    ensures forall i :: 0 <= i < |"test."| ==> "test."[i] != '\n'
    ensures forall i :: 0 <= i < |"a"| ==> "a"[i] != '\n'
  {
  }

  /** The example cut at its newlines. */
  lemma ExampleLineParts()
    ensures "  This   is" + ("\n\n" + ("a" + ("\n  " + ("test." + "\n\n  ")))) == "  This   is\n\na\n  test.\n\n  "
  {
  }

  /** Step 3 on the example: each run of spaces becomes one space. */
  lemma CollapseSpacesExample()
    ensures CollapseSpaces("  This   is\n\na\n  test.\n\n  ") == " This is\n\na\n test.\n\n "
  {
    var p1, p2, p3, p4, p5, p6, p7 := "  ", "This", "   ", "is\n\na\n", "  ", "test.\n\n", "  ";
    ExampleSpaceParts();
    assert CollapseSpaces(p1) == " " && CollapseSpaces(p3) == " ";
    CollapseSpacesNoSpace(p2);
    CollapseSpacesNoSpace(p4);
    CollapseSpacesNoSpace(p6);
    CollapseSpacesAppend(p6, p7);
    CollapseSpacesAppend(p5, p6 + p7);
    CollapseSpacesAppend(p4, p5 + (p6 + p7));
    CollapseSpacesAppend(p3, p4 + (p5 + (p6 + p7)));
    CollapseSpacesAppend(p2, p3 + (p4 + (p5 + (p6 + p7))));
    CollapseSpacesAppend(p1, p2 + (p3 + (p4 + (p5 + (p6 + p7)))));
  }

  /** The example cut where step 3 treats the parts separately. */
  lemma ExampleSpaceParts()
    ensures "  " + ("This" + ("   " + ("is\n\na\n" + ("  " + ("test.\n\n" + "  ")))))
            == "  This   is\n\na\n  test.\n\n  "
    ensures " " + ("This" + (" " + ("is\n\na\n" + (" " + ("test.\n\n" + " ")))))
            == " This is\n\na\n test.\n\n "
  {
  }

  /** `splitlines` on the substituted example. */
  lemma SplitLinesExample()
    ensures SplitLines(" This is\n\na\n test.\n\n ") == [" This is", "", "a", " test.", "", " "]
  {
    var ls := [" This is", "", "a", " test.", "", " "];
    ExampleJoinedLines();
    ExampleLinesNoBreak();
    assert forall i :: 0 <= i < |ls| ==> NoLineBreak(ls[i]) by {
      assert ls[0] == " This is" && ls[1] == "" && ls[2] == "a" && ls[3] == " test." && ls[4] == "" && ls[5] == " ";
    }
    SplitJoinLines(ls);
  }

  /** The substituted example is its six lines joined by "\n". */
  lemma ExampleJoinedLines()
    ensures Join("\n", [" This is", "", "a", " test.", "", " "]) == " This is\n\na\n test.\n\n "
  {
  }

  /** None of the example's lines holds a line boundary. */
  lemma ExampleLinesNoBreak()
    ensures NoLineBreak(" This is") && NoLineBreak("") && NoLineBreak("a") && NoLineBreak(" test.") && NoLineBreak(" ")
  {
  }

  /** Stripping the lines of the example and dropping the empty ones. */
  lemma CleanLinesExample()
    ensures CleanLines([" This is", "", "a", " test.", "", " "]) == ["This is", "a", "test."]
  {
    StripExample();
  }

  lemma StripExample()
    ensures Strip(" This is") == "This is" && Strip(" test.") == "test."
    ensures Strip(" ") == "" && Strip("") == "" && Strip("a") == "a"
  {
    assert " This is"[1..] == "This is";
    assert " test."[1..] == "test.";
  }

  /**
   * The repository's cleaning test: leading, trailing and repeated spaces
   * go, blank lines go, and the three remaining lines are joined by "\n".
   */
  lemma CleanTextExample()
    ensures CleanText("  This   is\n\na\n  test.\n\n  ") == "This is\na\ntest."
  {
    SpaceAfterPunctExample();
    CollapseBlankLinesExample();
    CollapseSpacesExample();
    SplitLinesExample();
    CleanLinesExample();
    JoinExample();
  }

  lemma JoinExample()
    ensures Join("\n", ["This is", "a", "test."]) == "This is\na\ntest."
  {
  }
}
