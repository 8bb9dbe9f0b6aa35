/** The scan orchestrator: the scanner object whose report it fills step by
    step (header check, authentication tests, crawl, JWT scan, IDOR scan of
    the crawled endpoints, summary), and the raw-request analysis. */
module Scanner {
  import opened Common
  import opened Text
  import Scoring
  import Headers
  import Auth
  import Jwt
  import Idor
  import Patterns

  const UnreachablePrefix: string := "Could not reach target: "

  /** The INFO finding recorded when the header check cannot fetch the
      target. */
  function NetworkError(error: string): Finding {
    Finding("NETWORK_ERROR", Some("INFO"), UnreachablePrefix + error, None, NoEvidence, [])
  }

  /** What `_scan_security_headers` appends for the reply to its GET. */
  function HeaderFindings(reply: Reply): seq<Finding> {
    match reply
    case Fail(e) => [NetworkError(e)]
    case Ok(_, headers, _) => Headers.ToFindings(Headers.Issues(Headers.Policy, headers))
  }

  /** What `_scan_idor_on_endpoints` appends: each endpoint's findings, in
      the order of the endpoint list. */
  function IdorFindings(endpoints: seq<string>, server: Server, tools: Idor.UrlTools): seq<Finding> {
    if endpoints == [] then []
    else IdorFindings(endpoints[..|endpoints| - 1], server, tools)
         + Idor.EndpointFindings(endpoints[|endpoints| - 1], server, tools)
  }

  lemma IdorFindingsSnoc(endpoints: seq<string>, k: nat, server: Server, tools: Idor.UrlTools)
    requires k < |endpoints|
    ensures IdorFindings(endpoints[..k + 1], server, tools)
         == IdorFindings(endpoints[..k], server, tools) + Idor.EndpointFindings(endpoints[k], server, tools)
  {
    assert endpoints[..k + 1][..k] == endpoints[..k];
  }

  /** The loop of `_scan_idor_on_endpoints`. */
  method ScanEndpoints(endpoints: seq<string>, server: Server, tools: Idor.UrlTools) returns (found: seq<Finding>)
    ensures found == IdorFindings(endpoints, server, tools)
  {
    found := [];
    for k := 0 to |endpoints|
      invariant found == IdorFindings(endpoints[..k], server, tools)
    {
      var idorResults := Idor.ScanEndpoint(endpoints[k], server, tools);
      IdorFindingsSnoc(endpoints, k, server, tools);
      found := found + idorResults;
    }
    assert endpoints[..|endpoints|] == endpoints;
  }

  /** The findings lists the four gathered tasks and the IDOR scan append. */
  datatype Parts = Parts(headers: seq<Finding>, auth: seq<Finding>, jwt: seq<Finding>, idor: seq<Finding>) {
    /** The lists appended in task order. */
    function Gathered(): seq<Finding> {
      headers + auth + jwt + idor
    }

    /** Everything but the header check's list. */
    function Detectors(): seq<Finding> {
      auth + jwt + idor
    }
  }

  /** What each task appends: the header check's list, the authentication
      tests, the JWT scan (nothing when its fetch raised, since the gather
      swallows the exception) and the IDOR scan of the endpoints. */
  function ScanParts(target: string, server: Server, decode: Jwt.Decoder,
                     endpoints: seq<string>, tools: Idor.UrlTools): Parts
  {
    Parts(HeaderFindings(server(Get(target))), Auth.ScanFindings(target, server),
          Jwt.ScanOutcome(target, server, decode).Yield(), IdorFindings(endpoints, server, tools))
  }

  /** `ScanParts(...).Gathered()` is the four tasks' lists in task order,
      as `scan_full` leaves them in the report. */
  lemma PartsInTaskOrder(before: seq<Finding>, target: string, server: Server, decode: Jwt.Decoder,
                         endpoints: seq<string>, tools: Idor.UrlTools)
    ensures before + ScanParts(target, server, decode, endpoints, tools).Gathered()
         == before + HeaderFindings(server(Get(target))) + Auth.ScanFindings(target, server)
            + Jwt.ScanOutcome(target, server, decode).Yield() + IdorFindings(endpoints, server, tools)
  {
    AppendParts(before, ScanParts(target, server, decode, endpoints, tools));
  }

  lemma AppendParts(before: seq<Finding>, p: Parts)
    ensures before + p.Gathered() == before + p.headers + p.auth + p.jwt + p.idor
  {
  }

  /** The report's header section after the header check. */
  function HeaderSection(reply: Reply, before: Option<Headers.Report>): Option<Headers.Report> {
    match reply
    case Fail(_) => before
    case Ok(_, headers, _) =>
      var present := Headers.CountPresent(Headers.Statuses(Headers.Policy, headers));
      Some(Headers.Report(Headers.Ratio(present, |Headers.Policy|),
                          Headers.ToFindings(Headers.Issues(Headers.Policy, headers)), present))
  }

  /** The scanner and the report it builds. `None` stands for the report's
      initial empty `summary` and `security_headers` dictionaries. */
  class SecurityScanner {
    const target: string
    var vulnerabilities: seq<Finding>
    var summary: Option<Scoring.Summary>
    var securityHeaders: Option<Headers.Report>
    var endpoints: seq<string>

    constructor(target: string)
      ensures this.target == target
      ensures vulnerabilities == [] && summary.None? && securityHeaders.None? && endpoints == []
    {
      this.target := target;
      vulnerabilities := [];
      summary := None;
      securityHeaders := None;
      endpoints := [];
    }

    /** `_scan_security_headers` */
    method ScanSecurityHeaders(server: Server)
      modifies this`vulnerabilities, this`securityHeaders
      ensures vulnerabilities == old(vulnerabilities) + HeaderFindings(server(Get(target)))
      ensures securityHeaders == HeaderSection(server(Get(target)), old(securityHeaders))
    {
      var resp := server(Get(target));
      if resp.Fail? {
        vulnerabilities := vulnerabilities + [NetworkError(resp.error)];
      } else {
        var headersResult := Headers.Analyze(resp.headers);
        securityHeaders := Some(headersResult);
        vulnerabilities := vulnerabilities + headersResult.issues;
      }
    }

    /** `_scan_auth_bypass` */
    method ScanAuthBypass(server: Server, authToken: Option<string>)
      modifies this`vulnerabilities
      ensures vulnerabilities == old(vulnerabilities) + Auth.ScanFindings(target, server)
    {
      var authResults := Auth.Scan(target, server, authToken);
      vulnerabilities := vulnerabilities + authResults;
    }

    /** `_crawl_and_scan`: the browser's discovered endpoints are an input;
        `None` when the browser raised, which the gather swallows. */
    method CrawlAndScan(crawled: Option<seq<string>>)
      modifies this`endpoints
      ensures endpoints == if crawled.Some? then crawled.value else old(endpoints)
    {
      if crawled.Some? {
        endpoints := crawled.value;
      }
    }

    /** `_scan_jwt_tokens`: an escaping exception adds nothing. */
    method ScanJwtTokens(server: Server, decode: Jwt.Decoder)
      modifies this`vulnerabilities
      ensures vulnerabilities == old(vulnerabilities) + Jwt.ScanOutcome(target, server, decode).Yield()
    {
      var jwtResults := Jwt.Scan(target, server, decode);
      if jwtResults.Completed? {
        vulnerabilities := vulnerabilities + jwtResults.findings;
      }
    }

    /** `_scan_idor_on_endpoints` */
    method ScanIdorOnEndpoints(server: Server, tools: Idor.UrlTools)
      modifies this`vulnerabilities
      ensures vulnerabilities == old(vulnerabilities) + IdorFindings(endpoints, server, tools)
    {
      var idorResults := ScanEndpoints(endpoints, server, tools);
      vulnerabilities := vulnerabilities + idorResults;
    }

    /** `_calculate_summary` */
    method CalculateSummary()
      modifies this`summary
      ensures summary == Some(Scoring.Summarize(vulnerabilities))
    {
      summary := Some(Scoring.Summarize(vulnerabilities));
    }

    /** The `asyncio.gather` of `scan_full`, with the four tasks taken in
        list order. */
    method Gather(server: Server, decode: Jwt.Decoder, crawled: Option<seq<string>>, authToken: Option<string>)
      modifies this`vulnerabilities, this`securityHeaders, this`endpoints
      ensures endpoints == if crawled.Some? then crawled.value else old(endpoints)
      ensures securityHeaders == HeaderSection(server(Get(target)), old(securityHeaders))
      ensures vulnerabilities == old(vulnerabilities) + HeaderFindings(server(Get(target)))
                                 + Auth.ScanFindings(target, server) + Jwt.ScanOutcome(target, server, decode).Yield()
    {
      ScanSecurityHeaders(server);
      ScanAuthBypass(server, authToken);
      CrawlAndScan(crawled);
      ScanJwtTokens(server, decode);
    }

    /** `scan_full` */
    method ScanFull(server: Server, decode: Jwt.Decoder, tools: Idor.UrlTools,
                    crawled: Option<seq<string>>, authToken: Option<string>)
      modifies this`vulnerabilities, this`securityHeaders, this`endpoints, this`summary
      ensures endpoints == if crawled.Some? then crawled.value else old(endpoints)
      ensures securityHeaders == HeaderSection(server(Get(target)), old(securityHeaders))
      ensures vulnerabilities == old(vulnerabilities) + HeaderFindings(server(Get(target)))
                                 + Auth.ScanFindings(target, server) + Jwt.ScanOutcome(target, server, decode).Yield()
                                 + IdorFindings(endpoints, server, tools)
      ensures summary == Some(Scoring.Summarize(vulnerabilities))
    {
      Gather(server, decode, crawled, authToken);
      ScanIdorOnEndpoints(server, tools);
      CalculateSummary();
    }

    /** `analyze_raw_request`, sharing the request with the IDOR test, which
        rewrites its URL: the caller's request ends with the rewritten URL
        exactly when the test got past its first send. */
    method AnalyzeRawRequest(req: Idor.RawRequest, send: Idor.RawServer) returns (o: Outcome)
      modifies req`url
      ensures o == RawAnalysis(req.httpMethod, old(req.url), req.headers, req.body, send)
      ensures req.url == if Idor.HasNumericId(old(req.url))
                            && send(Idor.Send(req.httpMethod, old(req.url), req.headers, req.body)).Ok?
                         then Idor.ModifiedUrl(old(req.url)) else old(req.url)
    {
      Idor.NumericIdIsIdMatch(req.url);
      if Patterns.HasDigitMatch(req.url, "id=") {
        var i := Patterns.FirstDigitMatch(req.url, "id=", 0).value;
        LowerKeepsLowercase(req.url, "id=", i);
      }
      o := Completed([]);
      if Contains(Lower(req.url), "id=") {
        o := Idor.TestRawRequest(req, send);
      }
    }
  }

  /** What `analyze_raw_request` returns: the raw IDOR test behind the
      `"id=" in url.lower()` gate. */
  function RawAnalysis(httpMethod: Option<string>, url: string, headers: HeaderList, body: Option<string>,
                       send: Idor.RawServer): Outcome
  {
    if Contains(Lower(url), "id=") then Idor.RawOutcome(httpMethod, url, headers, body, send)
    else Completed([])
  }

  /** The gate never changes the result: every URL the IDOR test would act
      on contains `id=`, and lower-casing keeps it. */
  lemma GateAddsNothing(httpMethod: Option<string>, url: string, headers: HeaderList, body: Option<string>,
                        send: Idor.RawServer)
    ensures RawAnalysis(httpMethod, url, headers, body, send) == Idor.RawOutcome(httpMethod, url, headers, body, send)
  {
    Idor.NumericIdIsIdMatch(url);
    if Patterns.HasDigitMatch(url, "id=") {
      var i := Patterns.FirstDigitMatch(url, "id=", 0).value;
      LowerKeepsLowercase(url, "id=", i);
    }
  }

  /** Where a lower-case literal occurs, it occurs in the lowered text. */
  lemma LowerKeepsLowercase(s: string, lit: string, i: nat)
    requires OccursAt(s, lit, i)
    requires forall k :: 0 <= k < |lit| ==> LowerChar(lit[k]) == lit[k]
    ensures OccursAt(Lower(s), lit, i) && Contains(Lower(s), lit)
  {
    assert forall k :: 0 <= k < |lit| ==> Lower(s)[i + k] == LowerChar(s[i + k]) == lit[k];
    assert Lower(s)[i..i + |lit|] == lit;
    assert OccursAt(Lower(s), lit, i);
  }

  // ---------------------------------------------------------------------
  // The summary of a full scan.

  /** The gathered tasks may append their lists in any order: the summary
      is the same for every order of the findings. */
  lemma SummaryIgnoresTaskOrder(p: Parts, vulns: seq<Finding>)
    requires multiset(vulns) == multiset(p.Gathered())
    ensures Scoring.Summarize(vulns) == Scoring.Summarize(p.Gathered())
  {
    Scoring.SummaryPermutationInvariant(vulns, p.Gathered());
  }

  /** An unreachable target adds one INFO finding, which only counts in the
      total. The JWT scan sends its own GET of the same URL; because the
      client is a function of the request, that GET fails too and the scan
      adds nothing. This half rests on identical requests getting identical
      replies: with a transient failure the two GETs could differ. */
  lemma UnreachableTarget(target: string, server: Server, decode: Jwt.Decoder,
                          endpoints: seq<string>, tools: Idor.UrlTools)
    requires server(Get(target)).Fail?
    ensures var p := ScanParts(target, server, decode, endpoints, tools);
      && p.headers == [NetworkError(server(Get(target)).error)]
      && p.jwt == []
      && Scoring.Summarize(p.Gathered()) == Scoring.Summarize(p.Detectors()).(totalVulnerabilities := |p.Detectors()| + 1)
  {
    var p := ScanParts(target, server, decode, endpoints, tools);
    assert Jwt.ScanOutcome(target, server, decode) == Raised;
    InfoHeadOnlyCounts(p);
  }

  lemma InfoHeadOnlyCounts(p: Parts)
    requires |p.headers| == 1 && p.headers[0].severity == Some("INFO")
    ensures Scoring.Summarize(p.Gathered()) == Scoring.Summarize(p.Detectors()).(totalVulnerabilities := |p.Detectors()| + 1)
  {
    var f, rest := p.headers[0], p.Detectors();
    assert p.headers == [f];
    assert p.Gathered() == [f] + rest;
    assert multiset([f] + rest) == multiset(rest + [f]);
    Scoring.SummaryPermutationInvariant([f] + rest, rest + [f]);
    Scoring.InfoFindingOnlyCounts(rest, f);
  }

  /** A reachable target that sends none of the policy's headers scores 8
      from the four missing headers alone, so one further finding of MEDIUM
      or above makes the scan CRITICAL. */
  lemma BareTargetTurnsCritical(target: string, server: Server, decode: Jwt.Decoder,
                                endpoints: seq<string>, tools: Idor.UrlTools, f: Finding)
    requires server(Get(target)).Ok? && server(Get(target)).headers == []
    requires f in ScanParts(target, server, decode, endpoints, tools).Detectors()
    requires Scoring.Weight(f.severity) >= 2
    ensures Scoring.Score(ScanParts(target, server, decode, endpoints, tools).headers) == 8
    ensures Scoring.Summarize(ScanParts(target, server, decode, endpoints, tools).Gathered()).riskLevel == "CRITICAL"
  {
    var p := ScanParts(target, server, decode, endpoints, tools);
    Headers.NoHeaders();
    assert |p.headers| == 4;
    MediumHeadsTurnCritical(p, f);
  }

  lemma MediumHeadsTurnCritical(p: Parts, f: Finding)
    requires |p.headers| == 4 && forall h :: h in p.headers ==> h.severity == Some("MEDIUM")
    requires f in p.Detectors() && Scoring.Weight(f.severity) >= 2
    ensures Scoring.Score(p.headers) == 8
    ensures Scoring.Summarize(p.Gathered()).riskLevel == "CRITICAL"
  {
    Scoring.UniformScore(p.headers, "MEDIUM");
    Scoring.FindingWeighsIn(p.Detectors(), f);
    assert p.Gathered() == p.headers + p.Detectors();
    Scoring.TallyAppend(p.headers, p.Detectors(), Scoring.SeverityWeight);
  }

  /** Header findings never exceed four and never pass MEDIUM, so the header
      check alone leaves the scan at HIGH at most. */
  lemma HeadersAloneAtMostHigh(reply: Reply)
    ensures |HeaderFindings(reply)| <= 4
    ensures Scoring.Score(HeaderFindings(reply)) <= 8
    ensures Scoring.RiskRank(Scoring.Summarize(HeaderFindings(reply)).riskLevel) <= 2
  {
    match reply
    case Fail(e) =>
      Scoring.ScoreBound(HeaderFindings(reply));
    case Ok(_, headers, _) =>
      Headers.AtMostFourIssues(headers);
      var fs := HeaderFindings(reply);
      Scoring.ScoreFromCounts(fs);
      Scoring.CountsWithinTotal(fs);
      HeaderFindingsAtMostMedium(headers);
  }

  lemma HeaderFindingsAtMostMedium(headers: HeaderList)
    ensures var fs := Headers.ToFindings(Headers.Issues(Headers.Policy, headers));
      Scoring.Count(fs, "CRITICAL") == 0 && Scoring.Count(fs, "HIGH") == 0
  {
    var fs := Headers.ToFindings(Headers.Issues(Headers.Policy, headers));
    assert forall f :: f in fs ==> f.severity == Some("MEDIUM") || f.severity == Some("LOW");
    NoneOfLevel(fs, "CRITICAL");
    NoneOfLevel(fs, "HIGH");
  }

  lemma {:induction false} NoneOfLevel(fs: seq<Finding>, level: string)
    requires forall f :: f in fs ==> f.severity != Some(level)
    ensures Scoring.Count(fs, level) == 0
  {
    if fs != [] {
      assert fs[0] in fs;
      NoneOfLevel(fs[1..], level);
    }
  }
}
