/**
 * `analyze_response_quality` of utils/feedback_manager.py: indicator flags
 * found in the lower-cased answer, the OBT compliance score and the
 * overall quality score. Scores are kept in integer tenths (4 stands for
 * 0.4); lower-casing is ASCII-only.
 */
module Feedback {
  import opened Text

  const OutcomeIndicators: seq<string> := ["outcome:", "what:", "result:", "achieve", "measured"]
  const KpiIndicators: seq<string> := ["kpi:", "goal:", "measurement:", "metric", "target"]
  const GpsIndicators: seq<string> := ["gps tier:", "destination", "highway", "main street", "county road"]

  datatype QualityMetrics = QualityMetrics(
    responseLength: nat,
    containsOutcome: bool,
    containsKpi: bool,
    containsGpsTier: bool,
    obtComplianceTenths: nat,
    responseQualityTenths: nat)

  function Weight(flag: bool, tenths: nat): nat {
    if flag then tenths else 0
  }

  /**
   * `analyze_response_quality`: the length of the answer, whether it holds
   * one of each group of indicators, 4 + 3 + 3 tenths of OBT compliance for
   * the three groups, and a quality of 5 tenths plus 2 for an answer longer
   * than 50 characters plus 1 per group, capped at 10.
   */
  function AnalyzeResponseQuality(response: string): (m: QualityMetrics)
    ensures m.responseLength == |response|
    ensures m.containsOutcome <==> exists i :: 0 <= i < |OutcomeIndicators| && Contains(Lower(response), OutcomeIndicators[i])
    ensures m.containsKpi <==> exists i :: 0 <= i < |KpiIndicators| && Contains(Lower(response), KpiIndicators[i])
    ensures m.containsGpsTier <==> exists i :: 0 <= i < |GpsIndicators| && Contains(Lower(response), GpsIndicators[i])
  {
    var responseLower := Lower(response);
    var outcome := ContainsAny(responseLower, OutcomeIndicators);
    var kpi := ContainsAny(responseLower, KpiIndicators);
    var gps := ContainsAny(responseLower, GpsIndicators);
    var obt := Weight(outcome, 4) + Weight(kpi, 3) + Weight(gps, 3);
    var quality := 5 + Weight(|response| > 50, 2) + Weight(outcome, 1) + Weight(kpi, 1) + Weight(gps, 1);
    QualityMetrics(|response|, outcome, kpi, gps, obt, Min(quality, 10))
  }

  function Min(a: nat, b: nat): nat {
    if a <= b then a else b
  }

  /** The OBT score is one of 0, 0.3, 0.4, 0.6, 0.7 and 1.0, and 1.0 exactly when all three groups appear. */
  lemma ObtScoreValues(response: string)
    ensures AnalyzeResponseQuality(response).obtComplianceTenths in {0, 3, 4, 6, 7, 10}
    ensures var m := AnalyzeResponseQuality(response);
      m.obtComplianceTenths == 10 <==> m.containsOutcome && m.containsKpi && m.containsGpsTier
    ensures var m := AnalyzeResponseQuality(response);
      m.obtComplianceTenths == 0 <==> !m.containsOutcome && !m.containsKpi && !m.containsGpsTier
  {
  }

  /**
   * The quality lies in 0.5..1.0, the cap never bites, and it is 1.0
   * exactly for a long answer with all three groups.
   */
  lemma QualityScoreRange(response: string)
    ensures var m := AnalyzeResponseQuality(response);
      5 <= m.responseQualityTenths <= 10
      && m.responseQualityTenths == 5 + Weight(m.responseLength > 50, 2)
           + Weight(m.containsOutcome, 1) + Weight(m.containsKpi, 1) + Weight(m.containsGpsTier, 1)
      && (m.responseQualityTenths == 10 <==> |response| > 50 && m.obtComplianceTenths == 10)
  {
  }

  /** A short answer with no indicator scores exactly 0.5 quality and 0 compliance. */
  lemma ShortPlainAnswer(response: string)
    requires |response| <= 50
    requires !ContainsAny(Lower(response), OutcomeIndicators)
    requires !ContainsAny(Lower(response), KpiIndicators)
    requires !ContainsAny(Lower(response), GpsIndicators)
    ensures AnalyzeResponseQuality(response).responseQualityTenths == 5
    ensures AnalyzeResponseQuality(response).obtComplianceTenths == 0
  {
  }
}
