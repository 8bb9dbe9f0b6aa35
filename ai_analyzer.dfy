/** The two rule-based parts of the AI analyzer: the severity number of an
    analysis, and the fallback analysis added to a scan report when the
    language model cannot be used. Reports and analyses are JSON values. */
module AiAnalyzer {
  import opened Common
  import Scoring

  /** A JSON value as `json.loads` returns it (numbers as integers). */
  datatype Json =
    | JNull
    | JBool(b: bool)
    | JNum(n: int)
    | JStr(s: string)
    | JArr(items: seq<Json>)
    | JObj(fields: map<string, Json>)

  /** Only lists and dictionaries cannot be dictionary keys. */
  predicate Hashable(v: Json) {
    !v.JArr? && !v.JObj?
  }

  // ---------------------------------------------------------------------
  // `_calculate_ai_severity`

  /** `severity_weights.get(analysis.get("risk_assessment", "LOW"), 1)`;
      None where the lookup raises because the value cannot be a key. */
  function AiSeverity(analysis: map<string, Json>): (r: Option<nat>)
    ensures r.None? <==> "risk_assessment" in analysis && !Hashable(analysis["risk_assessment"])
  {
    var v := if "risk_assessment" in analysis then analysis["risk_assessment"] else JStr("LOW");
    if !Hashable(v) then None
    else if v == JStr("CRITICAL") then Some(10)
    else if v == JStr("HIGH") then Some(7)
    else if v == JStr("MEDIUM") then Some(4)
    else if v == JStr("LOW") then Some(2)
    else Some(1)
  }

  /** The weight of each tier, whatever else the analysis holds; a missing
      assessment reads as LOW; any other value that can be a key weighs 1. */
  lemma AiSeverityTable(analysis: map<string, Json>)
    ensures "risk_assessment" !in analysis ==> AiSeverity(analysis) == Some(2)
    ensures "risk_assessment" in analysis && analysis["risk_assessment"] == JStr("CRITICAL") ==> AiSeverity(analysis) == Some(10)
    ensures "risk_assessment" in analysis && analysis["risk_assessment"] == JStr("HIGH") ==> AiSeverity(analysis) == Some(7)
    ensures "risk_assessment" in analysis && analysis["risk_assessment"] == JStr("MEDIUM") ==> AiSeverity(analysis) == Some(4)
    ensures "risk_assessment" in analysis && analysis["risk_assessment"] == JStr("LOW") ==> AiSeverity(analysis) == Some(2)
    ensures ("risk_assessment" in analysis && Hashable(analysis["risk_assessment"])
             && analysis["risk_assessment"] !in TierValues()) ==> AiSeverity(analysis) == Some(1)
  {
  }

  function TierValues(): set<Json> {
    {JStr("CRITICAL"), JStr("HIGH"), JStr("MEDIUM"), JStr("LOW")}
  }

  /** The weight of an assessment equal to the tier of a scan score. */
  function TierWeight(score: int): nat {
    AiSeverity(map["risk_assessment" := JStr(Scoring.RiskLevel(score))]).GetOr(0)
  }

  /** Read through the summary's risk tiers, the weights keep the order: a
      higher scan score never gives a lower weight, the tier of any score
      weighs at least 2, and only CRITICAL weighs 10. */
  lemma AiSeverityFollowsRisk(a: int, b: int)
    requires a <= b
    ensures 2 <= TierWeight(a) <= TierWeight(b) <= 10
    ensures TierWeight(b) == 10 <==> b >= 10
    ensures Scoring.RiskRank(Scoring.RiskLevel(a)) < Scoring.RiskRank(Scoring.RiskLevel(b)) ==> TierWeight(a) < TierWeight(b)
  {
  }

  // ---------------------------------------------------------------------
  // `_rule_based_analysis`

  const FallbackExplanation: string := "Automated scan completed. Review findings for security issues."

  function FallbackFixes(): Json {
    JArr([JStr("Review all HIGH/CRITICAL findings"), JStr("Implement fixes"), JStr("Rescan")])
  }

  /** `results["summary"]["risk_level"]`; None where the lookup raises. */
  function RiskLevelOf(results: map<string, Json>): Option<Json> {
    if "summary" in results && results["summary"].JObj? && "risk_level" in results["summary"].fields
    then Some(results["summary"].fields["risk_level"])
    else None
  }

  /** The fallback analysis. */
  function FallbackAnalysis(riskLevel: Json): map<string, Json> {
    map["risk_assessment" := riskLevel, "explanation" := JStr(FallbackExplanation),
        "prioritized_fixes" := FallbackFixes()]
  }

  /** `{**results, "ai_analysis": {...}}`; None where reading the risk tier
      raises. */
  function RuleBased(results: map<string, Json>): (r: Option<map<string, Json>>)
    ensures r.Some? <==> RiskLevelOf(results).Some?
  {
    match RiskLevelOf(results)
    case None => None
    case Some(level) => Some(results["ai_analysis" := JObj(FallbackAnalysis(level))])
  }

  /** The fallback keeps every entry of the report except a previous
      `ai_analysis`, which it replaces, and assesses the risk as the
      summary's tier. */
  lemma RuleBasedKeepsReport(results: map<string, Json>)
    requires RiskLevelOf(results).Some?
    ensures var r := RuleBased(results).value;
      && r.Keys == results.Keys + {"ai_analysis"}
      && (forall k :: k in results && k != "ai_analysis" ==> r[k] == results[k])
      && r["ai_analysis"].JObj?
      && r["ai_analysis"].fields.Keys == {"risk_assessment", "explanation", "prioritized_fixes"}
      && r["ai_analysis"].fields["risk_assessment"] == RiskLevelOf(results).value
  {
  }

  /** Applying the fallback twice gives the same report. */
  lemma RuleBasedIdempotent(results: map<string, Json>)
    requires RiskLevelOf(results).Some?
    ensures RuleBased(RuleBased(results).value) == RuleBased(results)
  {
    var level := RiskLevelOf(results).value;
    var r := RuleBased(results).value;
    assert "summary" != "ai_analysis";
    assert RiskLevelOf(r) == Some(level);
    assert r["ai_analysis" := JObj(FallbackAnalysis(level))] == r;
  }

  /** The fallback's assessment weighs what the summary's tier weighs: for a
      report whose summary went through the scoring, the weight follows the
      scan score. */
  lemma FallbackSeverity(results: map<string, Json>, score: int)
    requires RiskLevelOf(results) == Some(JStr(Scoring.RiskLevel(score)))
    ensures RuleBased(results).Some?
    ensures RuleBased(results).value["ai_analysis"].JObj?
    ensures AiSeverity(RuleBased(results).value["ai_analysis"].fields) == Some(TierWeight(score))
  {
    var analysis := RuleBased(results).value["ai_analysis"].fields;
    assert analysis["risk_assessment"] == JStr(Scoring.RiskLevel(score));
  }
}
