/** The aggregator: the report summary computed from the list of findings
    (severity weights, the weighted score, the risk tier and the per-severity
    breakdown), and what is proved about it. */
module Scoring {
  import opened Common

  /** The weight of a finding's severity; a finding without one reads as
      INFO, and a severity outside the table weighs nothing. */
  function Weight(severity: Option<string>): nat {
    var s := severity.GetOr("INFO");
    if s == "CRITICAL" then 4
    else if s == "HIGH" then 3
    else if s == "MEDIUM" then 2
    else if s == "LOW" then 1
    else 0
  }

  /** What is summed over the findings: their weights, or one for each
      finding of a given severity. */
  datatype Measure = SeverityWeight | CountOf(level: string)

  function Measured(m: Measure, f: Finding): nat {
    match m
    case SeverityWeight => Weight(f.severity)
    case CountOf(level) => if f.severity == Some(level) then 1 else 0
  }

  /** `sum(... for v in vulns)` */
  function Tally(vulns: seq<Finding>, m: Measure): nat {
    if vulns == [] then 0 else Measured(m, vulns[0]) + Tally(vulns[1..], m)
  }

  function Score(vulns: seq<Finding>): nat {
    Tally(vulns, SeverityWeight)
  }

  function Count(vulns: seq<Finding>, level: string): nat {
    Tally(vulns, CountOf(level))
  }

  /** The tiers of the breakdown; INFO is not among them. */
  const Tiers: seq<string> := ["CRITICAL", "HIGH", "MEDIUM", "LOW"]

  /** Risk tier of a score, as ranked from LOW (0) to CRITICAL (3). */
  function RiskLevel(score: int): (r: string)
    ensures r == "CRITICAL" <==> score >= 10
    ensures r == "HIGH" <==> 6 <= score < 10
    ensures r == "MEDIUM" <==> 3 <= score < 6
    ensures r == "LOW" <==> score < 3
  {
    if score >= 10 then "CRITICAL"
    else if score >= 6 then "HIGH"
    else if score >= 3 then "MEDIUM"
    else "LOW"
  }

  function RiskRank(level: string): nat {
    if level == "CRITICAL" then 3
    else if level == "HIGH" then 2
    else if level == "MEDIUM" then 1
    else 0
  }

  datatype Summary = Summary(
    totalVulnerabilities: nat,
    severityScore: nat,
    riskLevel: string,
    bySeverity: map<string, nat>)

  /** The summary of a findings list. */
  function Summarize(vulns: seq<Finding>): Summary {
    var score := Score(vulns);
    Summary(
      |vulns|,
      score,
      RiskLevel(score),
      map["CRITICAL" := Count(vulns, "CRITICAL"), "HIGH" := Count(vulns, "HIGH"),
          "MEDIUM" := Count(vulns, "MEDIUM"), "LOW" := Count(vulns, "LOW")])
  }

  /** The breakdown has exactly the four tiers, each counting its findings,
      and the total counts every finding, INFO ones included. */
  lemma SummaryShape(vulns: seq<Finding>)
    ensures Summarize(vulns).bySeverity.Keys == {"CRITICAL", "HIGH", "MEDIUM", "LOW"}
    ensures "INFO" !in Summarize(vulns).bySeverity
    ensures forall level :: level in Tiers ==> Summarize(vulns).bySeverity[level] == Count(vulns, level)
    ensures Summarize(vulns).totalVulnerabilities == |vulns|
  {
  }

  lemma {:induction false} TallyAppend(a: seq<Finding>, b: seq<Finding>, m: Measure)
    ensures Tally(a + b, m) == Tally(a, m) + Tally(b, m)
  {
    if a != [] {
      assert (a + b)[1..] == a[1..] + b;
      TallyAppend(a[1..], b, m);
    } else {
      assert a + b == b;
    }
  }

  /** Taking any one finding out of the sum. */
  lemma {:induction false} TallyRemove(s: seq<Finding>, i: nat, m: Measure)
    requires i < |s|
    ensures Tally(s, m) == Measured(m, s[i]) + Tally(s[..i] + s[i + 1..], m)
  {
    if i == 0 {
      assert s[..0] + s[1..] == s[1..];
    } else {
      TallyRemove(s[1..], i - 1, m);
      assert s[1..][..i - 1] + s[1..][i..] == (s[..i] + s[i + 1..])[1..];
    }
  }

  /** A sum over the findings does not depend on their order. */
  lemma {:induction false} TallyPermutation(a: seq<Finding>, b: seq<Finding>, m: Measure)
    requires multiset(a) == multiset(b)
    ensures Tally(a, m) == Tally(b, m)
  {
    if a == [] {
      assert |b| == |multiset(b)| == 0;
    } else {
      var i := IndexOf(b, a[0]);
      var b' := b[..i] + b[i + 1..];
      SameRest(a, b, i);
      TallyPermutation(a[1..], b', m);
      TallyRemove(b, i, m);
    }
  }

  lemma IndexOf<T>(s: seq<T>, x: T) returns (i: nat)
    requires x in multiset(s)
    ensures i < |s| && s[i] == x
  {
    i :| 0 <= i < |s| && s[i] == x;
  }

  /** Taking the same element out of two permutations of each other leaves
      permutations of each other. */
  lemma SameRest<T>(a: seq<T>, b: seq<T>, i: nat)
    requires multiset(a) == multiset(b) && a != [] && i < |b| && b[i] == a[0]
    ensures multiset(a[1..]) == multiset(b[..i] + b[i + 1..])
  {
    assert a == [a[0]] + a[1..];
    assert b == b[..i] + [b[i]] + b[i + 1..];
    calc {
      multiset(a[1..]);
      multiset(a) - multiset{a[0]};
      multiset(b) - multiset{b[i]};
      multiset(b[..i]) + multiset(b[i + 1..]);
      multiset(b[..i] + b[i + 1..]);
    }
  }

  /** The summary is the same for every ordering of the findings: detectors
      that finish in a different order produce the same summary. */
  lemma SummaryPermutationInvariant(a: seq<Finding>, b: seq<Finding>)
    requires multiset(a) == multiset(b)
    ensures Summarize(a) == Summarize(b)
  {
    assert |a| == |multiset(a)| == |multiset(b)| == |b|;
    TallyPermutation(a, b, SeverityWeight);
    TallyPermutation(a, b, CountOf("CRITICAL"));
    TallyPermutation(a, b, CountOf("HIGH"));
    TallyPermutation(a, b, CountOf("MEDIUM"));
    TallyPermutation(a, b, CountOf("LOW"));
  }

  /** The score is the weighted breakdown: 4, 3, 2 and 1 per CRITICAL, HIGH,
      MEDIUM and LOW finding; everything else adds nothing. */
  lemma {:induction false} ScoreFromCounts(vulns: seq<Finding>)
    ensures Score(vulns) == 4 * Count(vulns, "CRITICAL") + 3 * Count(vulns, "HIGH")
                          + 2 * Count(vulns, "MEDIUM") + Count(vulns, "LOW")
  {
    if vulns != [] {
      ScoreFromCounts(vulns[1..]);
    }
  }

  /** The four tiers together count at most every finding; what they miss is
      exactly the findings of any other severity (INFO, none, unknown). */
  lemma {:induction false} CountsWithinTotal(vulns: seq<Finding>)
    ensures Count(vulns, "CRITICAL") + Count(vulns, "HIGH") + Count(vulns, "MEDIUM")
            + Count(vulns, "LOW") <= |vulns|
  {
    if vulns != [] {
      CountsWithinTotal(vulns[1..]);
    }
  }

  lemma ScoreBound(vulns: seq<Finding>)
    ensures Score(vulns) <= 4 * |vulns|
  {
    ScoreFromCounts(vulns);
    CountsWithinTotal(vulns);
  }

  /** A higher score never gives a lower risk tier. */
  lemma RiskMonotone(a: int, b: int)
    requires a <= b
    ensures RiskRank(RiskLevel(a)) <= RiskRank(RiskLevel(b))
  {
  }

  /** Appending findings never lowers the risk tier. */
  lemma MoreFindingsNeverLowerRisk(a: seq<Finding>, b: seq<Finding>)
    ensures Score(a) <= Score(a + b)
    ensures RiskRank(Summarize(a).riskLevel) <= RiskRank(Summarize(a + b).riskLevel)
  {
    TallyAppend(a, b, SeverityWeight);
    RiskMonotone(Score(a), Score(a + b));
  }

  /** An INFO finding (such as NETWORK_ERROR) is counted in the total and
      changes nothing else in the summary. */
  lemma InfoFindingOnlyCounts(vulns: seq<Finding>, f: Finding)
    requires f.severity == Some("INFO")
    ensures Summarize(vulns + [f]) == Summarize(vulns).(totalVulnerabilities := |vulns| + 1)
  {
    TallyAppend(vulns, [f], SeverityWeight);
    TallyAppend(vulns, [f], CountOf("CRITICAL"));
    TallyAppend(vulns, [f], CountOf("HIGH"));
    TallyAppend(vulns, [f], CountOf("MEDIUM"));
    TallyAppend(vulns, [f], CountOf("LOW"));
  }

  /** Findings that weigh at least `w` in all push the tier up accordingly:
      a score of 10 or more is CRITICAL whatever else was found. */
  lemma CriticalOnceScoreReachesTen(a: seq<Finding>, b: seq<Finding>)
    requires Score(a) >= 10
    ensures Summarize(a + b).riskLevel == "CRITICAL"
  {
    TallyAppend(a, b, SeverityWeight);
  }
  /** A finding weighs into the score of every list that holds it. */
  lemma FindingWeighsIn(vulns: seq<Finding>, f: Finding)
    requires f in vulns
    ensures Weight(f.severity) <= Score(vulns)
  {
    var i :| 0 <= i < |vulns| && vulns[i] == f;
    TallyRemove(vulns, i, SeverityWeight);
  }

  /** Findings that all share one severity score its weight once each. */
  lemma {:induction false} UniformScore(vulns: seq<Finding>, level: string)
    requires forall f :: f in vulns ==> f.severity == Some(level)
    ensures Score(vulns) == Weight(Some(level)) * |vulns|
  {
    if vulns != [] {
      assert vulns[0] in vulns;
      UniformScore(vulns[1..], level);
    }
  }
}
