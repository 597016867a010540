/**
 * `detect_and_render_mermaid`, identical in betty_app.py and
 * Betty/streamlit/chat/chat.py, and the way both pages display an
 * assistant message with it. The regular-expression search for
 * ```` ```mermaid\s*\n(.*?)\n``` ```` is an input: each match is given by
 * its span and its captured body. What the page draws is modelled as the
 * sequence of diagrams and markdown blocks it emits.
 */
module Mermaid {
  import opened Text
  import opened PySeq

  /** One match of the diagram pattern: `match.start()`, `match.end()` and `match.group(1)`. */
  datatype Match = Match(start: int, end: int, body: string)

  /** The spans `re.finditer` yields: inside the content, in order, not overlapping. */
  predicate WellFormed(content: string, ms: seq<Match>) {
    (forall i :: 0 <= i < |ms| ==> 0 <= ms[i].start <= ms[i].end <= |content|)
    && (forall i :: 0 < i < |ms| ==> ms[i - 1].end <= ms[i].start)
  }

  /** A block the page draws: a diagram (or its code, when rendering fails) or markdown text. */
  datatype Shown = Diagram(code: string) | Markdown(text: string)

  datatype Rendering = Rendering(found: bool, shown: seq<Shown>)

  /** `last_end` after the first `k` matches. */
  function EndAfter(ms: seq<Match>, k: nat): int
    requires k <= |ms|
  {
    if k == 0 then 0 else ms[k - 1].end
  }

  /** The stripped text before match `k`, "" when the match does not start after `last_end`. */
  function Before(content: string, ms: seq<Match>, k: nat): string
    requires k < |ms|
  {
    if ms[k].start > EndAfter(ms, k) then Strip(Slice(content, EndAfter(ms, k), ms[k].start)) else ""
  }

  /** The stripped text after the last match. */
  function After(content: string, ms: seq<Match>): string {
    var e := EndAfter(ms, |ms|);
    if e < |content| then Strip(Slice(content, e, |content|)) else ""
  }

  /** The diagram codes of the first `k` matches: stripped bodies, empty ones skipped. */
  function Diagrams(ms: seq<Match>, k: nat): seq<string>
    requires k <= |ms|
  {
    if k == 0 then []
    else Diagrams(ms, k - 1) + (if Strip(ms[k - 1].body) != "" then [Strip(ms[k - 1].body)] else [])
  }

  /** `remaining_parts` after the first `k` matches. */
  function Parts(content: string, ms: seq<Match>, k: nat): seq<string>
    requires k <= |ms|
  {
    if k == 0 then []
    else Parts(content, ms, k - 1) + (if Before(content, ms, k - 1) != "" then [Before(content, ms, k - 1)] else [])
  }

  function Remaining(content: string, ms: seq<Match>): (r: seq<string>)
    ensures forall i :: 0 <= i < |r| ==> r[i] != ""
  {
    PartsNonEmpty(content, ms, |ms|);
    Parts(content, ms, |ms|) + (if After(content, ms) != "" then [After(content, ms)] else [])
  }

  /** At most one diagram per match, and none of them empty. */
  lemma {:induction false} DiagramsNonEmpty(ms: seq<Match>, k: nat)
    requires k <= |ms|
    ensures |Diagrams(ms, k)| <= k
    ensures forall i :: 0 <= i < |Diagrams(ms, k)| ==> Diagrams(ms, k)[i] != ""
  {
    if k > 0 {
      DiagramsNonEmpty(ms, k - 1);
    }
  }

  /** The text collected before each match is never empty. */
  lemma {:induction false} PartsNonEmpty(content: string, ms: seq<Match>, k: nat)
    requires k <= |ms|
    ensures forall i :: 0 <= i < |Parts(content, ms, k)| ==> Parts(content, ms, k)[i] != ""
  {
    if k > 0 {
      PartsNonEmpty(content, ms, k - 1);
      var init := Parts(content, ms, k - 1);
      var b := Before(content, ms, k - 1);
      assert Parts(content, ms, k) == init + (if b != "" then [b] else []);
    }
  }

  function AsDiagrams(codes: seq<string>): (r: seq<Shown>)
    ensures |r| == |codes| && forall i :: 0 <= i < |codes| ==> r[i] == Diagram(codes[i])
  {
    if codes == [] then [] else AsDiagrams(codes[..|codes| - 1]) + [Diagram(codes[|codes| - 1])]
  }

  function AsMarkdown(parts: seq<string>): (r: seq<Shown>)
    ensures |r| == |parts| && forall i :: 0 <= i < |parts| ==> r[i] == Markdown(parts[i])
  {
    if parts == [] then [] else AsMarkdown(parts[..|parts| - 1]) + [Markdown(parts[|parts| - 1])]
  }

  /** The parts the final loop draws: those that are not blank. */
  function Drawable(parts: seq<string>): (r: seq<string>)
    ensures |r| <= |parts|
  {
    if parts == [] then []
    else (Drawable(parts[..|parts| - 1])
          + (if Strip(parts[|parts| - 1]) != "" then [parts[|parts| - 1]] else []))
  }

  /**
   * `detect_and_render_mermaid`: nothing is drawn and False is returned
   * when the renderer is unavailable or nothing matches; otherwise every
   * non-empty diagram is drawn, then the outside parts as markdown, and
   * the result says whether any diagram was drawn.
   */
  function RenderSpec(content: string, ms: seq<Match>, available: bool): Rendering {
    if !available || ms == [] then Rendering(false, [])
    else
      var codes := Diagrams(ms, |ms|);
      Rendering(codes != [], AsDiagrams(codes) + AsMarkdown(Drawable(Remaining(content, ms))))
  }

  method DetectAndRenderMermaid(content: string, matches: seq<Match>, available: bool)
      returns (diagramsFound: bool, shown: seq<Shown>)
    ensures Rendering(diagramsFound, shown) == RenderSpec(content, matches, available)
  {
    shown := [];
    if !available {
      return false, shown;
    }
    if matches == [] {
      return false, shown;
    }
    var remainingParts;
    diagramsFound, shown, remainingParts := ScanMatches(content, matches);
    var drawn := ShowParts(remainingParts);
    shown := shown + drawn;
  }

  /** The loop over the matches, then the text after the last one. */
  method ScanMatches(content: string, matches: seq<Match>)
      returns (diagramsFound: bool, shown: seq<Shown>, remainingParts: seq<string>)
    ensures diagramsFound <==> Diagrams(matches, |matches|) != []
    ensures shown == AsDiagrams(Diagrams(matches, |matches|))
    ensures remainingParts == Remaining(content, matches)
  {
    var lastEnd;
    diagramsFound, shown, remainingParts, lastEnd := ScanLoop(content, matches);
    if lastEnd < |content| {
      var textAfter := Strip(Slice(content, lastEnd, |content|));
      if textAfter != "" {
        remainingParts := remainingParts + [textAfter];
      }
    }
  }

  /** The loop's variables after the first `k` matches. */
  predicate Scanned(content: string, matches: seq<Match>, k: nat,
                    diagramsFound: bool, shown: seq<Shown>, remainingParts: seq<string>, lastEnd: int)
    requires k <= |matches|
  {
    && (diagramsFound <==> Diagrams(matches, k) != [])
    && shown == AsDiagrams(Diagrams(matches, k))
    && remainingParts == Parts(content, matches, k)
    && lastEnd == EndAfter(matches, k)
  }

  /** The `for match in matches` loop. */
  method ScanLoop(content: string, matches: seq<Match>)
      returns (diagramsFound: bool, shown: seq<Shown>, remainingParts: seq<string>, lastEnd: int)
    ensures Scanned(content, matches, |matches|, diagramsFound, shown, remainingParts, lastEnd)
  {
    diagramsFound, shown, remainingParts, lastEnd := false, [], [], 0;
    for k := 0 to |matches|
      invariant Scanned(content, matches, k, diagramsFound, shown, remainingParts, lastEnd)
    {
      diagramsFound, shown, remainingParts, lastEnd := ScanStep(content, matches, k, diagramsFound, shown, remainingParts, lastEnd);
    }
  }

  /** One iteration of the loop, on match `k`. */
  method ScanStep(content: string, matches: seq<Match>, k: nat,
                  found: bool, drawn: seq<Shown>, parts: seq<string>, end: int)
      returns (diagramsFound: bool, shown: seq<Shown>, remainingParts: seq<string>, lastEnd: int)
    requires k < |matches| && Scanned(content, matches, k, found, drawn, parts, end)
    ensures Scanned(content, matches, k + 1, diagramsFound, shown, remainingParts, lastEnd)
  {
    remainingParts := CollectBefore(content, matches, k, end, parts);
    diagramsFound, shown := CollectDiagram(matches, k, found, drawn);
    lastEnd := matches[k].end;
  }

  /** The stripped body of match `k`, drawn when it is not empty. */
  method CollectDiagram(matches: seq<Match>, k: nat, found: bool, drawn: seq<Shown>)
      returns (diagramsFound: bool, shown: seq<Shown>)
    requires k < |matches| && drawn == AsDiagrams(Diagrams(matches, k)) && (found <==> Diagrams(matches, k) != [])
    ensures shown == AsDiagrams(Diagrams(matches, k + 1))
    ensures diagramsFound <==> Diagrams(matches, k + 1) != []
  {
    diagramsFound, shown := found, drawn;
    var diagramCode := Strip(matches[k].body);
    if diagramCode != "" {
      AsDiagramsSnoc(Diagrams(matches, k), diagramCode);
      shown := shown + [Diagram(diagramCode)];
      diagramsFound := true;
    }
  }

  /** The text between `last_end` and match `k`, added to `remaining_parts` when it is not blank. */
  method CollectBefore(content: string, matches: seq<Match>, k: nat, lastEnd: int, parts: seq<string>)
      returns (remainingParts: seq<string>)
    requires k < |matches| && lastEnd == EndAfter(matches, k) && parts == Parts(content, matches, k)
    ensures remainingParts == Parts(content, matches, k + 1)
  {
    remainingParts := parts;
    var m := matches[k];
    if m.start > lastEnd {
      var textBefore := Strip(Slice(content, lastEnd, m.start));
      if textBefore != "" {
        remainingParts := remainingParts + [textBefore];
      }
    }
  }

  lemma AsDiagramsSnoc(codes: seq<string>, c: string)
    ensures AsDiagrams(codes + [c]) == AsDiagrams(codes) + [Diagram(c)]
  {
  }

  /** The final loop: each part that is not blank, as markdown. */
  method ShowParts(remainingParts: seq<string>) returns (shown: seq<Shown>)
    ensures shown == AsMarkdown(Drawable(remainingParts))
  {
    shown := [];
    var i := 0;
    while i < |remainingParts|
      invariant i <= |remainingParts|
      invariant shown == AsMarkdown(Drawable(remainingParts[..i]))
    {
      assert remainingParts[..i + 1][..i] == remainingParts[..i];
      if Strip(remainingParts[i]) != "" {
        shown := shown + [Markdown(remainingParts[i])];
      }
      i := i + 1;
    }
    assert remainingParts[..i] == remainingParts;
  }

  /** Parts that are stripped and not empty are all drawn. */
  lemma {:induction false} DrawableKeepsStripped(parts: seq<string>)
    requires AllStripped(parts) && forall i :: 0 <= i < |parts| ==> parts[i] != ""
    ensures Drawable(parts) == parts
  {
    if parts != [] {
      var init := parts[..|parts| - 1];
      assert forall i :: 0 <= i < |init| ==> init[i] == parts[i];
      DrawableKeepsStripped(init);
      assert parts == init + [parts[|parts| - 1]];
    }
  }

  /** Every element of `parts` is already stripped. */
  predicate AllStripped(parts: seq<string>) {
    forall i :: 0 <= i < |parts| ==> Strip(parts[i]) == parts[i]
  }

  lemma StrippedSnoc(parts: seq<string>, x: string)
    requires AllStripped(parts) && Strip(x) == x
    ensures AllStripped(parts + [x])
  {
  }

  lemma {:induction false} PartsStripped(content: string, ms: seq<Match>, k: nat)
    requires k <= |ms|
    ensures AllStripped(Parts(content, ms, k))
  {
    if k > 0 {
      PartsStripped(content, ms, k - 1);
      var b := Before(content, ms, k - 1);
      if b != "" {
        BeforeStripped(content, ms, k - 1);
        StrippedSnoc(Parts(content, ms, k - 1), b);
      }
    }
  }

  lemma BeforeStripped(content: string, ms: seq<Match>, k: nat)
    requires k < |ms| && Before(content, ms, k) != ""
    ensures Strip(Before(content, ms, k)) == Before(content, ms, k)
  {
    StripIdempotent(Slice(content, EndAfter(ms, k), ms[k].start));
  }

  /** Every outside part the loops collect is drawn: the final filter removes nothing. */
  lemma RemainingAllDrawn(content: string, ms: seq<Match>)
    ensures Drawable(Remaining(content, ms)) == Remaining(content, ms)
  {
    PartsStripped(content, ms, |ms|);
    if After(content, ms) != "" {
      StripIdempotent(Slice(content, EndAfter(ms, |ms|), |content|));
      StrippedSnoc(Parts(content, ms, |ms|), After(content, ms));
    }
    DrawableKeepsStripped(Remaining(content, ms));
  }

  /**
   * What a page shows for an assistant message: the renderer's blocks, and
   * the whole message as markdown when the renderer returned False.
   */
  function ShowAssistantMessage(content: string, ms: seq<Match>, available: bool): seq<Shown> {
    var r := RenderSpec(content, ms, available);
    if r.found then r.shown else r.shown + [Markdown(content)]
  }

  // ------------------------------------------------------------ properties

  /** Some match among the first `k` has a body that is not blank. */
  predicate SomeBody(ms: seq<Match>, k: nat)
    requires k <= |ms|
  {
    exists i :: 0 <= i < k && Strip(ms[i].body) != ""
  }

  lemma {:induction false} DiagramsExist(ms: seq<Match>, k: nat)
    requires k <= |ms|
    ensures Diagrams(ms, k) != [] <==> SomeBody(ms, k)
  {
    if k > 0 {
      DiagramsExist(ms, k - 1);
      SomeBodyStep(ms, k);
    }
  }

  lemma SomeBodyStep(ms: seq<Match>, k: nat)
    requires 0 < k <= |ms|
    ensures SomeBody(ms, k) <==> SomeBody(ms, k - 1) || Strip(ms[k - 1].body) != ""
  {
    if SomeBody(ms, k) && Strip(ms[k - 1].body) == "" {
      var i :| 0 <= i < k && Strip(ms[i].body) != "";
      assert i < k - 1;
    }
  }

  /**
   * True is returned exactly when the renderer is available and some match
   * has a body that is not blank; a failed render still counts, since the
   * renderer's outcome does not enter the result.
   */
  lemma RenderFound(content: string, ms: seq<Match>, available: bool)
    ensures RenderSpec(content, ms, available).found
        <==> available && exists i :: 0 <= i < |ms| && Strip(ms[i].body) != ""
  {
    DiagramsExist(ms, |ms|);
  }

  /** Diagrams followed by markdown: no markdown block comes before a diagram. */
  lemma DiagramsThenMarkdown(codes: seq<string>, parts: seq<string>)
    ensures var s := AsDiagrams(codes) + AsMarkdown(parts);
      forall i, j :: 0 <= i < j < |s| && s[j].Diagram? ==> s[i].Diagram?
  {
    var s := AsDiagrams(codes) + AsMarkdown(parts);
    assert forall k :: |codes| <= k < |s| ==> s[k] == AsMarkdown(parts)[k - |codes|];
  }

  /** Every diagram comes before every markdown block. */
  lemma RenderDiagramsFirst(content: string, ms: seq<Match>, available: bool)
    ensures var s := RenderSpec(content, ms, available).shown;
      forall i, j :: 0 <= i < j < |s| && s[j].Diagram? ==> s[i].Diagram?
  {
    if available && ms != [] {
      DiagramsThenMarkdown(Diagrams(ms, |ms|), Drawable(Remaining(content, ms)));
    }
  }

  /** The text between `lo` and `hi` overlaps no match of `ms`. */
  predicate Outside(ms: seq<Match>, lo: int, hi: int) {
    forall i :: 0 <= i < |ms| ==> hi <= ms[i].start || ms[i].end <= lo
  }

  /** `p` is the stripped text of a stretch of the message that overlaps no match. */
  predicate OutsidePiece(content: string, ms: seq<Match>, p: string) {
    exists lo, hi :: 0 <= lo <= hi <= |content| && Outside(ms, lo, hi) && p == Strip(content[lo..hi])
  }

  lemma {:induction false} PartsOutside(content: string, ms: seq<Match>, k: nat)
    requires WellFormed(content, ms) && k <= |ms|
    ensures forall p :: p in Parts(content, ms, k) ==> OutsidePiece(content, ms, p)
  {
    if k > 0 {
      PartsOutside(content, ms, k - 1);
      if Before(content, ms, k - 1) != "" {
        BeforeOutside(content, ms, k - 1);
      }
    }
  }

  lemma BeforeOutside(content: string, ms: seq<Match>, k: nat)
    requires WellFormed(content, ms) && k < |ms| && Before(content, ms, k) != ""
    ensures OutsidePiece(content, ms, Before(content, ms, k))
  {
    var lo := EndAfter(ms, k);
    var hi := ms[k].start;
    assert Outside(ms, lo, hi) by {
      forall i | 0 <= i < |ms|
        ensures hi <= ms[i].start || ms[i].end <= lo
      {
        MatchesOrdered(content, ms, i, k);
      }
    }
    assert Before(content, ms, k) == Strip(content[lo..hi]);
  }

  lemma {:induction false} MatchesOrdered(content: string, ms: seq<Match>, i: nat, k: nat)
    requires WellFormed(content, ms) && i < |ms| && k < |ms|
    ensures i < k ==> ms[i].end <= EndAfter(ms, k) && ms[i].end <= ms[k].start
    ensures i >= k ==> ms[k].start <= ms[i].start
    decreases if i < k then k - i else i - k
  {
    if i < k - 1 {
      MatchesOrdered(content, ms, i, k - 1);
    } else if i > k {
      MatchesOrdered(content, ms, i - 1, k);
    }
  }

  /**
   * Every markdown block the renderer emits is the stripped text of a
   * stretch of the message that overlaps no diagram match.
   */
  lemma RemainingOutside(content: string, ms: seq<Match>)
    requires WellFormed(content, ms)
    ensures forall p :: p in Remaining(content, ms) ==> OutsidePiece(content, ms, p)
  {
    PartsOutside(content, ms, |ms|);
    if After(content, ms) != "" {
      AfterOutside(content, ms);
    }
  }

  lemma AfterOutside(content: string, ms: seq<Match>)
    requires WellFormed(content, ms) && After(content, ms) != ""
    ensures OutsidePiece(content, ms, After(content, ms))
  {
    var lo := EndAfter(ms, |ms|);
    assert Outside(ms, lo, |content|) by {
      forall i | 0 <= i < |ms|
        ensures |content| <= ms[i].start || ms[i].end <= lo
      {
        MatchesOrdered(content, ms, i, |ms| - 1);
      }
    }
    assert After(content, ms) == Strip(content[lo..|content|]);
  }

  /**
   * When every matched diagram body is blank the renderer returns False
   * after drawing the outside text, and the page then draws the whole
   * message again: the text before the first match appears twice.
   */
  lemma BlankDiagramsShowTextTwice(content: string, ms: seq<Match>)
    requires ms != [] && forall i :: 0 <= i < |ms| ==> Strip(ms[i].body) == ""
    requires Before(content, ms, 0) != ""
    ensures var s := ShowAssistantMessage(content, ms, true);
      Markdown(Before(content, ms, 0)) in s && Markdown(content) in s
  {
    DiagramsExist(ms, |ms|);
    PartsFirst(content, ms, |ms|);
    RemainingAllDrawn(content, ms);
    var r := Remaining(content, ms);
    assert r[0] == Before(content, ms, 0);
    assert AsMarkdown(r)[0] == Markdown(Before(content, ms, 0));
  }

  lemma {:induction false} PartsFirst(content: string, ms: seq<Match>, k: nat)
    requires 0 < k <= |ms| && Before(content, ms, 0) != ""
    ensures Parts(content, ms, k) != [] && Parts(content, ms, k)[0] == Before(content, ms, 0)
  {
    if k > 1 {
      PartsFirst(content, ms, k - 1);
    }
  }
}
