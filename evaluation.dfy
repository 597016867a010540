/**
 * The rubric scores of evaluation/run_evaluation.py: exact match,
 * precision (length and keyword overlap), adherence to the answer-mode
 * rules, and explanation. Ratios compared with a threshold are compared
 * by cross-multiplication on integers; lower-casing and `isdigit` are
 * ASCII-only.
 */
module Evaluation {
  import opened Text

  // ------------------------------------------------------------ exact match

  /** `calculate_exact_match`: 1 when the stripped, lower-cased texts are equal, else 0. */
  function ExactMatch(expected: string, actual: string): (r: nat)
    ensures r <= 1
  {
    if Lower(Strip(expected)) == Lower(Strip(actual)) then 1 else 0
  }

  /** The exact match does not depend on the order of its arguments, and a text matches itself. */
  lemma ExactMatchSymmetric(a: string, b: string)
    ensures ExactMatch(a, b) == ExactMatch(b, a)
    ensures ExactMatch(a, a) == 1
  {
  }

  /** Surrounding whitespace does not matter: stripping either text first changes nothing. */
  lemma ExactMatchIgnoresSpace(a: string, b: string)
    ensures ExactMatch(Strip(a), b) == ExactMatch(a, b)
  {
    StripIdempotent(a);
  }

  // ------------------------------------------------------------ precision

  /** The length part of the precision score, from the difference in word counts. */
  function LengthScore(wordDiff: nat): (r: nat)
    ensures r <= 3
  {
    if wordDiff <= 2 then 3
    else if wordDiff <= 5 then 2
    else if wordDiff <= 15 then 1
    else 0
  }

  /** A larger difference in length never scores higher. */
  lemma LengthScoreMonotone(d1: nat, d2: nat)
    requires d1 <= d2
    ensures LengthScore(d2) <= LengthScore(d1)
  {
  }

  function Abs(x: int): nat {
    if x < 0 then -x else x
  }

  /** `set(text.lower().split())`. */
  function Keywords(s: string): set<string> {
    set w | w in Words(Lower(s))
  }

  /**
   * The concept part: 3, 2, 1 or 0 as the share of the expected keywords
   * found in the answer reaches 0.9, 0.7, 0.5 or none of them; 0 when the
   * expected text has no keyword.
   */
  function ConceptScore(expectedKeywords: set<string>, actualKeywords: set<string>): (r: nat)
    ensures r <= 3
  {
    var e := |expectedKeywords|;
    var common := |expectedKeywords * actualKeywords|;
    if e == 0 then 0
    else if 10 * common >= 9 * e then 3
    else if 10 * common >= 7 * e then 2
    else if 10 * common >= 5 * e then 1
    else 0
  }

  /** The length part, from the difference in word counts of the two texts. */
  function LengthPart(expected: string, actual: string): (r: nat)
    ensures r <= 3
  {
    var wordDiff := Abs(|Words(expected)| - |Words(actual)|);
    LengthScore(wordDiff)
  }

  /** The concept part, from the keywords of the two texts. */
  function ConceptPart(expected: string, actual: string): (r: nat)
    ensures r <= 3
  {
    ConceptScore(Keywords(expected), Keywords(actual))
  }

  /** `calculate_rubric_precision`: the floor of the mean of the two parts; `target` is unused. */
  function Precision(expected: string, actual: string, target: int): (r: nat)
  {
    (LengthPart(expected, actual) + ConceptPart(expected, actual)) / 2
  }

  /** The score is in 0..3, is 3 only when both parts are 3, and ignores the target. */
  lemma PrecisionRange(expected: string, actual: string, target: int, other: int)
    ensures Precision(expected, actual, target) <= 3
    ensures Precision(expected, actual, target) == 3 <==>
      LengthPart(expected, actual) == 3 && ConceptPart(expected, actual) == 3
    ensures Precision(expected, actual, target) == Precision(expected, actual, other)
  {
    HalfSum(LengthPart(expected, actual), ConceptPart(expected, actual));
  }

  /** The floor of the mean of two parts in 0..3 is in 0..3, and 3 only when both are. */
  lemma HalfSum(a: nat, b: nat)
    requires a <= 3 && b <= 3
    ensures (a + b) / 2 <= 3
    ensures (a + b) / 2 == 3 <==> a == 3 && b == 3
  {
  }

  /** An answer equal to a non-empty expected text scores 3. */
  lemma PrecisionSelf(s: string, target: int)
    requires Keywords(s) != {}
    ensures Precision(s, s, target) == 3
  {
    assert Keywords(s) * Keywords(s) == Keywords(s);
  }

  /** An empty expected answer caps the score at 1, even for an identical answer. */
  lemma PrecisionEmptyExpected(actual: string, target: int)
    ensures Precision("", actual, target) <= 1
  {
    assert Words(Lower("")) == [] by {
      WordsOfBlank(Lower(""));
    }
    assert Keywords("") == {};
  }

  // ------------------------------------------------------------ adherence

  const HowVerbs: seq<string> := ["implement", "deploy", "create", "build", "install", "configure"]

  /** Some character of `s` is a digit. */
  predicate HasDigit(s: string) {
    exists i :: 0 <= i < |s| && IsDigit(s[i])
  }

  /** The number of rule violations `calculate_rubric_adherence` counts. */
  function Violations(response: string, category: string): (r: nat)
  {
    var wordCount := |Words(response)|;
    var length :=
      if category == "outcome_rewriting" then (if wordCount > 15 then 1 else 0)
      else if category == "classification" then (if wordCount > 5 then 1 else 0)
      else 0;
    var digits := if category == "outcome_rewriting" && HasDigit(response) then 1 else 0;
    var how := if ContainsAny(Lower(response), HowVerbs) && category == "outcome_rewriting" then 1 else 0;
    length + digits + how
  }

  /** The score for a violation count: 3 for none, 2 up to two, 1 up to four, else 0. */
  function AdherenceScore(violations: nat): (r: nat)
    ensures r <= 3
  {
    if violations == 0 then 3
    else if violations <= 2 then 2
    else if violations <= 4 then 1
    else 0
  }

  /** `calculate_rubric_adherence`, counting violations as it goes. */
  method Adherence(response: string, category: string) returns (score: int)
    ensures score == AdherenceScore(Violations(response, category))
  {
    var violations := 0;
    if category == "outcome_rewriting" || category == "classification" {
      var wordCount := |Words(response)|;
      if category == "outcome_rewriting" {
        if wordCount > 15 {
          violations := violations + 1;
        }
      } else if category == "classification" {
        if wordCount > 5 {
          violations := violations + 1;
        }
      }
    }
    if category == "outcome_rewriting" {
      if HasDigit(response) {
        violations := violations + 1;
      }
    }
    var responseLower := Lower(response);
    if ContainsAny(responseLower, HowVerbs) && category == "outcome_rewriting" {
      violations := violations + 1;
    }
    if violations == 0 {
      score := 3;
    } else if violations <= 2 {
      score := 2;
    } else if violations <= 4 {
      score := 1;
    } else {
      score := 0;
    }
  }

  /**
   * At most three rules can be broken, so adherence is never 0; only an
   * outcome rewrite can fall to 1, a classification scores at least 2 and
   * every other category scores 3.
   */
  lemma AdherenceNeverZero(response: string, category: string)
    ensures Violations(response, category) <= 3
    ensures AdherenceScore(Violations(response, category)) >= 1
    ensures category != "outcome_rewriting" ==> AdherenceScore(Violations(response, category)) >= 2
    ensures category != "outcome_rewriting" && category != "classification" ==>
      AdherenceScore(Violations(response, category)) == 3
  {
  }

  /** An outcome rewrite scores 1 exactly when it is long, has a digit and uses a how-verb. */
  lemma AdherenceLowest(response: string)
    ensures AdherenceScore(Violations(response, "outcome_rewriting")) == 1 <==>
      |Words(response)| > 15 && HasDigit(response) && ContainsAny(Lower(response), HowVerbs)
  {
  }

  // ------------------------------------------------------------ explanation

  const ReasoningWords: seq<string> := ["because", "since", "therefore", "thus", "why"]
  const EvidenceWords: seq<string> := ["data", "source", "level", "measure", "evidence"]

  /** `calculate_rubric_explanation`. */
  function Explanation(response: string, category: string): (r: nat)
  {
    var wordCount := |Words(response)|;
    var hasReasoning := ContainsAny(Lower(response), ReasoningWords);
    var hasEvidence := ContainsAny(Lower(response), EvidenceWords);
    if category == "outcome_rewriting" || category == "classification" then
      if wordCount <= 15 then 3
      else if hasReasoning && hasEvidence then 2
      else 1
    else if hasReasoning && hasEvidence && wordCount > 20 then 3
    else if hasReasoning || hasEvidence then 2
    else if wordCount > 10 then 1
    else 0
  }

  /**
   * The score is in 0..3. The two answer modes score 3 whenever the answer
   * has at most 15 words and never below 1; elsewhere 0 means no reasoning
   * or evidence word and at most 10 words.
   */
  lemma ExplanationRange(response: string, category: string)
    ensures Explanation(response, category) <= 3
    ensures (category == "outcome_rewriting" || category == "classification") ==>
      Explanation(response, category) >= 1
      && (|Words(response)| <= 15 ==> Explanation(response, category) == 3)
    ensures category != "outcome_rewriting" && category != "classification" ==>
      (Explanation(response, category) == 0 <==>
        !ContainsAny(Lower(response), ReasoningWords) && !ContainsAny(Lower(response), EvidenceWords)
        && |Words(response)| <= 10)
  {
  }
}
