/**
 * The ordering both VectorStore variants apply to query hits: the
 * deterministic re-sort of utils/vector_store.py's `search_collection`
 * (by rounded distance, then filename, then content length) and the
 * cross-encoder pass of `search_collection_with_reranking` (by descending
 * score, keeping the first `n`).
 */
module Ranking {
  import opened Wrappers
  import opened PySeq
  import opened Sorting
  import opened Chroma

  // ------------------------------------------------------------ Python string order

  /** Python's `a <= b` on strings: lexicographic by code point. */
  predicate StrLe(a: string, b: string) {
    if a == [] then true
    else if b == [] then false
    else if a[0] != b[0] then a[0] < b[0]
    else StrLe(a[1..], b[1..])
  }

  lemma {:induction false} StrLeTotal(a: string, b: string)
    ensures StrLe(a, b) || StrLe(b, a)
  {
    if a != [] && b != [] && a[0] == b[0] {
      StrLeTotal(a[1..], b[1..]);
    }
  }

  lemma {:induction false} StrLeTransitive(a: string, b: string, c: string)
    ensures StrLe(a, b) && StrLe(b, c) ==> StrLe(a, c)
  {
    if a != [] && b != [] && c != [] && a[0] == b[0] && b[0] == c[0] {
      StrLeTransitive(a[1..], b[1..], c[1..]);
    }
  }

  lemma {:induction false} StrLeAntisymmetric(a: string, b: string)
    ensures StrLe(a, b) && StrLe(b, a) ==> a == b
  {
    if a != [] && b != [] && a[0] == b[0] {
      StrLeAntisymmetric(a[1..], b[1..]);
      assert a == [a[0]] + a[1..] && b == [b[0]] + b[1..];
    }
  }

  // ------------------------------------------------------------ search re-sort

  /** `round(d, 6)` scaled by 10^6, rounding halves up. */
  function RoundedDistance(d: real): int {
    (d * 1000000.0 + 0.5).Floor
  }

  lemma RoundedDistanceMonotone(d1: real, d2: real)
    requires d1 <= d2
    ensures RoundedDistance(d1) <= RoundedDistance(d2)
  {
  }

  /** A formatted result: the hit and the fields of its sort key. */
  datatype Formatted = Formatted(content: string, metadata: Metadata, distance: real, filename: string, contentLength: nat)

  function Format(c: Candidate): (f: Formatted)
    ensures f.content == c.document && f.metadata == c.metadata && f.distance == c.distance
    ensures f.filename == c.metadata.filename && f.contentLength == |c.document|
  {
    Formatted(c.document, c.metadata, c.distance, c.metadata.filename, |c.document|)
  }

  function Formats(cs: seq<Candidate>): (r: seq<Formatted>)
    ensures |r| == |cs| && forall i :: 0 <= i < |cs| ==> r[i] == Format(cs[i])
  {
    seq(|cs|, i requires 0 <= i < |cs| => Format(cs[i]))
  }

  /** The tuple order on `(round(distance, 6), filename, content_length)`. */
  predicate KeyLe(x: Formatted, y: Formatted) {
    var dx, dy := RoundedDistance(x.distance), RoundedDistance(y.distance);
    dx < dy
    || (dx == dy && ((x.filename != y.filename && StrLe(x.filename, y.filename))
                     || (x.filename == y.filename && x.contentLength <= y.contentLength)))
  }

  lemma KeyLeTotalPreorder()
    ensures Total(KeyLe) && Transitive(KeyLe)
  {
    forall x: Formatted, y: Formatted
      ensures KeyLe(x, y) || KeyLe(y, x)
    {
      StrLeTotal(x.filename, y.filename);
    }
    forall x: Formatted, y: Formatted, z: Formatted | KeyLe(x, y) && KeyLe(y, z)
      ensures KeyLe(x, z)
    {
      StrLeTransitive(x.filename, y.filename, z.filename);
      StrLeAntisymmetric(x.filename, y.filename);
      StrLeAntisymmetric(y.filename, z.filename);
      StrLeAntisymmetric(x.filename, z.filename);
    }
  }

  /** The hit a formatted result is reduced to: `{content, metadata}`. */
  function HitOf(f: Formatted): Hit {
    Hit(f.content, f.metadata, None)
  }

  /** A search result; `relevanceScore` is set by the reranking pass only. */
  datatype Hit = Hit(content: string, metadata: Metadata, relevanceScore: Option<real>)

  function HitsOf(fs: seq<Formatted>): (r: seq<Hit>)
    ensures |r| == |fs| && forall i :: 0 <= i < |fs| ==> r[i] == HitOf(fs[i])
  {
    seq(|fs|, i requires 0 <= i < |fs| => HitOf(fs[i]))
  }

  /** The candidates in search order. */
  function Ranked(cands: seq<Candidate>): seq<Formatted> {
    Sort(Formats(cands), KeyLe)
  }

  /** The candidates re-sorted by key and cut to `n`, as `{content, metadata}`. */
  function RankCandidates(cands: seq<Candidate>, n: int): seq<Hit> {
    HitsOf(Take(Ranked(cands), n))
  }

  /**
   * The ranked candidates are a permutation of the formatted candidates in
   * key order, with equal keys in engine order; the result keeps the first
   * `min(n, |cands|)` of them, and each kept one has a key no greater than
   * any dropped one.
   */
  lemma RankCandidatesSpec(cands: seq<Candidate>, n: int)
    requires n >= 0
    ensures var ranked := Ranked(cands);
      Sorted(ranked, KeyLe)
      && multiset(ranked) == multiset(Formats(cands))
      && (forall y :: Class(ranked, y, KeyLe) == Class(Formats(cands), y, KeyLe))
    ensures var r := RankCandidates(cands, n);
      |r| == Min(n, |cands|)
      && (forall i :: 0 <= i < |r| ==> r[i] == HitOf(Ranked(cands)[i]))
      && (forall i, j :: 0 <= i < |r| <= j < |cands| ==> KeyLe(Ranked(cands)[i], Ranked(cands)[j]))
  {
    KeyLeTotalPreorder();
    SortSorted(Formats(cands), KeyLe);
    forall y {
      SortStable(Formats(cands), y, KeyLe);
    }
  }

  // ------------------------------------------------------------ reranking

  /** Python's `zip`: pairs up to the shorter length. */
  function Zip<A, B>(a: seq<A>, b: seq<B>): (r: seq<(A, B)>)
    ensures |r| == Min(|a|, |b|)
    ensures forall i :: 0 <= i < |r| ==> r[i] == (a[i], b[i])
  {
    seq(Min(|a|, |b|), i requires 0 <= i < Min(|a|, |b|) => (a[i], b[i]))
  }

  /** `sort(key=score, reverse=True)` compares by descending score. */
  predicate ScoreGe(x: (Hit, real), y: (Hit, real)) {
    x.1 >= y.1
  }

  lemma ScoreGeTotalPreorder()
    ensures Total(ScoreGe) && Transitive(ScoreGe)
  {
  }

  function QueryPairs(query: string, hits: seq<Hit>): (r: seq<(string, string)>)
    ensures |r| == |hits| && forall i :: 0 <= i < |hits| ==> r[i] == (query, hits[i].content)
  {
    seq(|hits|, i requires 0 <= i < |hits| => (query, hits[i].content))
  }

  function WithScore(p: (Hit, real)): Hit {
    p.0.(relevanceScore := Some(p.1))
  }

  function WithScores(ps: seq<(Hit, real)>): (r: seq<Hit>)
    ensures |r| == |ps| && forall i :: 0 <= i < |ps| ==> r[i] == WithScore(ps[i])
  {
    seq(|ps|, i requires 0 <= i < |ps| => WithScore(ps[i]))
  }

  /** The hits paired with their scores, in descending score order. */
  function ScoreOrder(hits: seq<Hit>, scores: seq<real>): seq<(Hit, real)> {
    Sort(Zip(hits, scores), ScoreGe)
  }

  /**
   * The cross-encoder pass: score each (query, content) pair, sort by
   * descending score and keep the first `n`, each with its score; `None`
   * when the cross-encoder raises.
   */
  function RerankHits(query: string, hits: seq<Hit>, n: int, predict: Reranker): Option<seq<Hit>> {
    match predict(QueryPairs(query, hits))
    case None => None
    case Some(scores) => Some(WithScores(Take(ScoreOrder(hits, scores), n)))
  }

  /**
   * A successful pass returns `min(n, |pairs|)` hits, each an input hit
   * carrying its own score, in descending score order with ties in input
   * order, and every dropped hit scores no higher than every kept one.
   */
  lemma RerankSpec(query: string, hits: seq<Hit>, n: int, predict: Reranker)
    requires n >= 0 && predict(QueryPairs(query, hits)).Some?
    ensures var scores := predict(QueryPairs(query, hits)).value;
      var order := ScoreOrder(hits, scores);
      var r := RerankHits(query, hits, n, predict).value;
      multiset(order) == multiset(Zip(hits, scores))
      && (forall y :: Class(order, y, ScoreGe) == Class(Zip(hits, scores), y, ScoreGe))
      && |r| == Min(n, Min(|hits|, |scores|))
      && (forall i :: 0 <= i < |r| ==> r[i] == WithScore(order[i]) && r[i].relevanceScore == Some(order[i].1))
      && (forall i, j :: 0 <= i < j < |r| ==> r[i].relevanceScore.value >= r[j].relevanceScore.value)
      && (forall i, j :: 0 <= i < |r| <= j < |order| ==> order[i].1 >= order[j].1)
  {
    var scores := predict(QueryPairs(query, hits)).value;
    ScoreGeTotalPreorder();
    SortSorted(Zip(hits, scores), ScoreGe);
    forall y {
      SortStable(Zip(hits, scores), y, ScoreGe);
    }
  }

  /** A successful pass keeps at most `n` hits. */
  lemma RerankHitsBound(query: string, hits: seq<Hit>, n: int, predict: Reranker)
    requires n >= 0 && predict(QueryPairs(query, hits)).Some?
    ensures |RerankHits(query, hits, n, predict).value| <= n
  {
    var scores := predict(QueryPairs(query, hits)).value;
    assert |Take(ScoreOrder(hits, scores), n)| <= n;
  }

  /** Every ranked pair is an input hit with the score given at its own position. */
  lemma ScoreOrderPairs(hits: seq<Hit>, scores: seq<real>, i: nat)
    requires i < |ScoreOrder(hits, scores)|
    ensures exists k :: 0 <= k < Min(|hits|, |scores|) && ScoreOrder(hits, scores)[i] == (hits[k], scores[k])
  {
    var order := ScoreOrder(hits, scores);
    var z := Zip(hits, scores);
    assert order[i] in multiset(order);
    assert order[i] in multiset(z);
    var k :| 0 <= k < |z| && z[k] == order[i];
  }
}
