# Security scanner decision layer, in Dafny

This project models the decision layer of an asynchronous web-vulnerability
scanner and proves properties of it. The model covers:

- the orchestrator object (`SecurityScanner`), which fills a report step by
  step: the security-header check, the authentication-bypass tests, the
  crawl, the JWT scan, the IDOR scan of the crawled endpoints, and the
  severity summary;
- the raw-request IDOR analysis behind its `id=` gate;
- the four detectors: security headers, IDOR, authentication bypass and JWT
  misconfiguration;
- the two rule-based parts of the AI analyzer: the severity weight of an
  analysis and the fallback analysis.

Every network exchange is a parameter of the model. `Server`
(`Request -> Reply`) is the scanner's shared client. `RawServer`
(`Outgoing -> Reply`) is the raw request's own client. A `Reply` is either
`Ok(status, headers, body)` or `Fail(error)`, where `Fail` stands for an
exception raised by the client. The same request always gets the same
reply.

The URL library functions (`urlparse`, `parse_qs`, `urlencode`, `urljoin`)
are the parameter `UrlTools`. The JWT header decoder is the parameter
`Decoder`. The browser crawl's result is an input. Findings are the
`Finding` datatype: type, severity, description, endpoint, evidence and
fixes. A detector that can raise returns an `Outcome`, which is either
`Completed(findings)` or `Raised`.

Modules, one per source file:

| module | file | flavour |
|---|---|---|
| `Common` | shared | findings, requests, replies, outcomes |
| `Text` | shared | ASCII `lower`/`upper`, `int`/`str` of digit strings |
| `Patterns` | shared | the regular expressions used: `lit\d+`, the link pattern, the JWT pattern, `re.findall` |
| `Scoring` | `scanner/core.py` summary and risk tier | pure |
| `Headers` | `scanner/detectors/headers.py` | function with a loop: the loop is a method proved against the policy functions |
| `Idor` | `scanner/detectors/idor.py` | mixed: a request object whose URL is rewritten in place, plus loops over links |
| `Auth` | `scanner/detectors/auth.py` | loops over the probes of four sub-tests |
| `Jwt` | `scanner/detectors/jwt.py` | a loop over the tokens found |
| `AiAnalyzer` | `scanner/ai_analyzer.py` (two functions) | pure, over JSON values |
| `Scanner` | `scanner/core.py` | a class whose methods update the report |

## Model

| member | source | states |
|---|---|---|
| Scoring.RiskLevel | scanner/core.py:138-142 | The tier is CRITICAL exactly when the score is at least 10, HIGH for 6 to 9, MEDIUM for 3 to 5 and LOW below 3. The four cases are each stated as an if-and-only-if. |
| Scoring.SummaryShape | scanner/core.py:118-136 | The breakdown has exactly the keys CRITICAL, HIGH, MEDIUM and LOW, never INFO. Each key maps to the number of findings with that severity. The total is the number of findings. |
| Scoring.ScoreFromCounts | scanner/core.py:121-129 | The score is 4·CRITICAL + 3·HIGH + 2·MEDIUM + 1·LOW counts. INFO, a missing severity and an unknown severity all weigh 0. |
| Scoring.CountsWithinTotal | scanner/core.py:124-132 | The four tier counts add up to at most the total. |
| Scoring.ScoreBound | scanner/core.py:121-123 | The score is at most 4 times the number of findings. |
| Scoring.FindingWeighsIn | scanner/core.py:121-123 | Every finding's weight is at most the score. |
| Scoring.UniformScore | scanner/core.py:121-123 | When all findings share one severity, the score is that severity's weight times their number. |
| Scoring.SummaryPermutationInvariant | scanner/core.py:118-136 | Two finding lists with the same multiset have the same summary, so the order in which tasks append never matters. |
| Scoring.RiskMonotone | scanner/core.py:138-142 | A higher score never gives a lower tier. |
| Scoring.MoreFindingsNeverLowerRisk | scanner/core.py:118-142 | Appending findings never lowers the score or the tier. |
| Scoring.InfoFindingOnlyCounts | scanner/core.py:118-136 | Appending an INFO finding changes only the total, which grows by one. |
| Scoring.CriticalOnceScoreReachesTen | scanner/core.py:118-142 | Once the findings score 10, the report is CRITICAL whatever else is appended. |
| Headers.FindIsFirstMatch | scanner/detectors/headers.py:17-30 | The header found has the policy name up to letter case, and no earlier header has it. Nothing is found exactly when no header has the name. |
| Headers.Statuses | scanner/detectors/headers.py:16-18 | There is one presence entry per policy entry. |
| Headers.ToFindings | scanner/detectors/headers.py:20-42 | There is one finding dictionary per issue. |
| Headers.Analyze | scanner/detectors/headers.py:11-48 | By a loop over the policy: the issues are the policy's issues in policy order, `headers_present` is the number of policy headers present, and the overall score is that number divided by 7. Each value tested is the ", "-joined value of every line with that header name. |
| Headers.CheckEntry | scanner/detectors/headers.py:16-42 | One loop iteration: the issues of one policy entry and its presence entry. A required header is missing exactly when no line has its name, ignoring case. Otherwise the value tested is the ", "-join of all its lines, as `httpx.Headers` returns it. |
| Headers.LookupIsJoin | scanner/detectors/headers.py:29-31 | The value read for a header name is the ", "-join, in order, of every line whose name matches ignoring case, as `httpx.Headers` returns it (`scanner/core.py:49`). It is absent exactly when no line matches. |
| Headers.ValuesAreMatches | scanner/detectors/headers.py:29-30 | The values collected for a name are exactly those of the lines matching it, ignoring case. The first one belongs to the line `next(...)` picks. None are collected exactly when no line matches. |
| Headers.SingleValue | scanner/detectors/headers.py:29-30 | A name that occurs on one line only is looked up as that line's value. |
| Headers.JoinKeepsValues | scanner/detectors/headers.py:30-34 | A substring of any joined value is a substring of the joined value. |
| Headers.NosniffInAnyCopy | scanner/detectors/headers.py:28-42 | If any X-Content-Type-Options line contains `nosniff`, no wrong-value issue is raised. |
| Headers.RepeatedHeaderJoined | scanner/detectors/headers.py:28-42 | The lines `X-Content-Type-Options: foo` and `X-Content-Type-Options: nosniff` are read as "foo, nosniff", which raises no wrong-value issue. |
| Headers.PolicyIssues | scanner/detectors/headers.py:1-42 | The whole policy raises a missing issue for each absent header among HSTS, X-Frame-Options and Referrer-Policy. X-Content-Type-Options raises a missing issue when absent, or a wrong-value issue when its value lacks `nosniff`. The recommended entries raise nothing, and the HSTS minimum age is never consulted. |
| Headers.OptionalNeverReported | scanner/detectors/headers.py:1-27 | A not-required policy entry never raises an issue. |
| Headers.NoHeaders | scanner/detectors/headers.py:16-27 | With no headers, the check reports exactly four MEDIUM missing-header findings in policy order, and none is present. |
| Headers.WrongValueOnlyForNosniff | scanner/detectors/headers.py:28-42 | A wrong-value issue exists if and only if X-Content-Type-Options is present without `nosniff`. Such an issue carries the expected and the actual value and becomes a LOW INCORRECT_HEADER_VALUE finding. |
| Headers.MissingExactlyWhenAbsent | scanner/detectors/headers.py:16-27 | A header is reported missing if and only if it is one of the four required headers and it is absent. |
| Headers.AtMostFourIssues | scanner/detectors/headers.py:16-42 | The check raises at most four issues. |
| Headers.FullyCompliant | scanner/detectors/headers.py:11-48 | With all seven headers present and `nosniff` in X-Content-Type-Options, there are no issues and all seven count as present. |
| Headers.SameReport | scanner/detectors/headers.py:17-30 | Two header lists with the same policy lookups give the same issues and the same count. |
| Headers.CaseInsensitive | scanner/detectors/headers.py:17-30 | Renaming headers only in letter case changes nothing in the report. |
| Headers.UnrelatedHeaderIgnored | scanner/detectors/headers.py:16-47 | Inserting a header outside the policy, at any position, changes neither the issues nor the count. |
| Patterns.RunEnd | scanner/detectors/idor.py:79-81 | The greedy run of a character class ends at the first character outside it. |
| Patterns.FirstDigitMatch | scanner/detectors/idor.py:79-81 | This is the leftmost match of `lit\d+` at or after a position, with no match before it. None means that there is no match at all. |
| Patterns.SuffixLiteralMatches | scanner/detectors/idor.py:35 | Every match of `user_id=\d+` contains a match of `id=\d+`. |
| Patterns.MatchAt | scanner/detectors/jwt.py:14 | A match at a position ends after it and within the text. A link match is longer than `href="`. |
| Patterns.FindAll | scanner/detectors/idor.py:91 | `re.findall` returns real matches in ascending order and without overlap. No match is skipped before the first span, between spans or after the last. |
| Text.Lower | scanner/core.py:112 | Lower-casing keeps the length and lower-cases each ASCII letter. |
| Text.LowerIdempotent | scanner/detectors/headers.py:17 | Lower-casing twice is lower-casing once. |
| Text.Upper | scanner/detectors/idor.py:60 | Upper-casing keeps the length and upper-cases each ASCII letter. |
| Text.Decimal | scanner/detectors/idor.py:76 | `str(n)` is a non-empty digit string. |
| Text.ValueOfDecimal | scanner/detectors/idor.py:76 | `int(str(n)) == n`. |
| Text.DecimalOfValueNoLonger | scanner/detectors/idor.py:76 | `str(int(ds))` is never longer than `ds`. |
| Text.LeadingPartIsZeros | scanner/detectors/idor.py:76 | What `int` drops from the front of a digit string is zeros, and the rest has the same value. |
| Idor.Increment | scanner/detectors/idor.py:75-77 | The replacement keeps the literal and the dropped leading zeros, then writes `str(n + 1)`. The padding in the format adds nothing. |
| Idor.IncrementValue | scanner/detectors/idor.py:75-77 | The digits written in place of the match's digits are worth exactly one more. |
| Idor.ReplacementShape | scanner/detectors/idor.py:75-77 | The replacement is the literal followed by a digit string worth one more. |
| Idor.CarryExample | scanner/detectors/idor.py:75-77 | `id=99` becomes `id=100`. |
| Idor.LeadingZerosExample | scanner/detectors/idor.py:75-77 | `id=007` becomes `id=008`. |
| Idor.SubFirst | scanner/detectors/idor.py:79-81 | A pattern with no match leaves the URL unchanged. |
| Idor.SubFirstReplacesMatch | scanner/detectors/idor.py:79-81 | Only the first match is rewritten. Everything before it, its literal and everything after its greedy digit run are kept. Its digits become digits worth one more. |
| Idor.NoIdUnchanged | scanner/detectors/idor.py:79-81 | A URL without an `id=\d+` match is not modified by any of the three patterns. |
| Idor.UserIdTwiceExample | scanner/detectors/idor.py:79-81 | `?user_id=5` becomes `?user_id=7`. `id=(\d+)` first rewrites the tail of `user_id=5`, and the `user_id=` pattern then adds one again. |
| Idor.ModifyId | scanner/detectors/idor.py:70-84 | The request object's URL is rewritten in place to the modified URL, and the same object is returned. |
| Idor.Send | scanner/detectors/idor.py:56-68 | The URL and headers are sent unchanged. The verb is GET exactly when the method, defaulting to GET, upper-cases to GET. Otherwise the request is a POST with the body, defaulting to empty. |
| Idor.NumericIdIsIdMatch | scanner/detectors/idor.py:35 | `id=\d+\|user_id=\d+` matches exactly when `id=\d+` does. |
| Idor.TestRawRequest | scanner/detectors/idor.py:29-54 | The result is the raw IDOR outcome of the original URL. The request's URL is rewritten exactly when it was tested and the first send succeeded. |
| Idor.RawRule | scanner/detectors/idor.py:35-52 | There is at most one finding. A finding is made if and only if the URL has a numeric id and both sends answer 200. It names the original URL with statuses 200 and 200. |
| Idor.RawRuleIgnoresBodies | scanner/detectors/idor.py:41 | Two clients that agree on failures and statuses give the same outcome, whatever the bodies. |
| Idor.FirstMutable | scanner/detectors/idor.py:114-122 | This is the first parameter among `id`, `user_id` and `account_id` whose first value is all digits, with none such before it. None means that there is none at all. |
| Idor.MutationChangesFirstIdOnly | scanner/detectors/idor.py:114-122 | Only that first parameter changes, to the single value one more than it. Every other parameter is kept. Without one, there is no mutation. |
| Idor.MutateQuery | scanner/detectors/idor.py:112-122 | The loop with its early break computes that mutation, and `id_found` tells whether it exists. |
| Idor.TestSingleIdor | scanner/detectors/idor.py:101-155 | The method's result is the link rule; every exception gives no finding. |
| Idor.SingleIdorReportsExactly | scanner/detectors/idor.py:105-153 | A link is reported if and only if all of these hold: the first GET answers 200; an id was mutated; the mutated GET answers 200; the bodies differ; both bodies are longer than 100 characters. The finding names both URLs. |
| Idor.IdenticalBodiesNeverReport | scanner/detectors/idor.py:133-135 | Identical bodies are never reported. |
| Idor.IdLinks | scanner/detectors/idor.py:91 | There is one captured link per match of the link pattern. |
| Idor.LinksHaveNumericId | scanner/detectors/idor.py:91 | Every captured link contains an `id=\d+` match and no quote. |
| Idor.LinkFindings | scanner/detectors/idor.py:93-97 | There is at most one finding per tested link. |
| Idor.TestIdorPatterns | scanner/detectors/idor.py:86-99 | By a loop over the first three links, each joined to the endpoint: the result is their findings in link order. |
| Idor.FirstLinkReported | scanner/detectors/idor.py:93-97 | A first link that passes the rule heads the findings. |
| Idor.ScanEndpoint | scanner/detectors/idor.py:6-27 | The result is the endpoint's link findings, or nothing when its GET raises. |
| Idor.AtMostThreePerEndpoint | scanner/detectors/idor.py:86-99 | An endpoint yields at most three findings, all HIGH IDOR findings. |
| Idor.UnimportedUrljoinHidesIdor | scanner/detectors/idor.py:94 | As written, an endpoint never yields a finding. With `urljoin` imported, a page whose first id link passes the rule does yield one. |
| Auth.RStrip | scanner/detectors/auth.py:33 | `rstrip('/')` is a prefix that does not end in `/`, and everything it drops is `/`. |
| Auth.RStripIdempotent | scanner/detectors/auth.py:33 | Stripping twice is stripping once. |
| Auth.SplitPair | scanner/detectors/auth.py:83 | `dict([s.split("=")])` succeeds exactly when `s` has a single `=`, and the two parts joined by `=` give back `s`. |
| Auth.EscalationParams | scanner/detectors/auth.py:76-83 | The three escalation tests give the parameters `role=admin`, `permission=full` and `access_level=1`. |
| Auth.SubTestOf | scanner/detectors/auth.py:25-122 | The four sub-tests have 5, 4, 3 and 10 probes. Only the debug sub-test catches exceptions per probe. |
| Auth.RequestsAllBuilt | scanner/detectors/auth.py:76-87 | Every probe's request can be built. |
| Auth.RunTest | scanner/detectors/auth.py:32-45 | By a loop over the probes: the sub-test's outcome stops at the first exception that escapes. |
| Auth.RaisedIffSomeProbeAborts | scanner/detectors/auth.py:32-45 | A sub-test raises if and only if some probe raises uncaught. |
| Auth.StepShape | scanner/detectors/auth.py:36-43 | A probe reports its own finding exactly when its reply passes the sub-test's rule, and reports nothing otherwise. |
| Auth.ReportsExactlyFlagged | scanner/detectors/auth.py:32-45 | A completed sub-test's findings are exactly one finding per flagged probe, in probe order. A probe is flagged when its request is built, the client answers and the reply passes the rule. For the missing-auth test, that is one BROKEN_AUTH finding per admin path answering 200, in list order. Hence each finding comes from a flagged probe, every flagged probe is reported, and there is at most one finding per probe. |
| Auth.RaisesIffClientFails | scanner/detectors/auth.py:97-122 | The debug sub-test never raises. Each other sub-test raises exactly when the client raises on one of its probes. |
| Auth.Scan | scanner/detectors/auth.py:4-23 | By a loop over the four sub-tests: each completed sub-test's findings are appended, and a raising sub-test adds nothing. |
| Auth.ScanFindingsInOrder | scanner/detectors/auth.py:9-23 | The result is the four contributions in the order missing-auth, pollution, role, debug. |
| Auth.AtMostTwentyTwo | scanner/detectors/auth.py:4-122 | There are at most 22 findings. |
| Auth.DebugReportedTwice | scanner/detectors/auth.py:30-118 | Suppose every admin probe gets an answer and `/debug` answers 200. Then `/debug` is reported twice: once as BROKEN_AUTH and once as EXPOSED_DEBUG. |
| Jwt.Tokens | scanner/detectors/jwt.py:14-15 | There is one token per match of the JWT pattern. |
| Jwt.TokenShape | scanner/detectors/jwt.py:14 | Every token starts with `eyJ`, has exactly two dots and otherwise only base64url characters. Its last segment is as long as the page allows. |
| Jwt.RSplit | scanner/detectors/jwt.py:32 | `rsplit('.', 2)` has one to three parts. |
| Jwt.JoinRSplit | scanner/detectors/jwt.py:32-33 | Joining the parts with dots gives back the token. The parts after the first contain no dot, and with fewer than three parts the first contains none either. |
| Jwt.FoundTokenLosesSignature | scanner/detectors/jwt.py:32-33 | For every token found, the `none` token is the token without its signature, followed by two dots. |
| Jwt.SignatureIrrelevant | scanner/detectors/jwt.py:32-36 | The `none` token, and so the decoded header, does not depend on the signature. |
| Jwt.AnalyzeJwtRules | scanner/detectors/jwt.py:26-57 | A token raises at most one issue. CRITICAL JWT_NONE_ALG is raised exactly for `alg` none. HIGH JWT_WEAK_ALG is raised exactly for HS256, HS384 or HS512. Nothing is raised otherwise, including when decoding fails. |
| Jwt.Scan | scanner/detectors/jwt.py:6-24 | By a loop over the tokens: a failed GET raises, and otherwise the result is the tokens' issues in page order. |
| Jwt.TokenFindingsBound | scanner/detectors/jwt.py:17-19 | There is at most one finding per token, each either a CRITICAL none-algorithm finding or a HIGH weak-algorithm finding. |
| Jwt.NoTokenNoFinding | scanner/detectors/jwt.py:11-22 | A page with no token match gives no findings. |
| AiAnalyzer.AiSeverity | scanner/ai_analyzer.py:73-78 | The lookup fails exactly when the assessment is a list or a dictionary, which cannot be a key. |
| AiAnalyzer.AiSeverityTable | scanner/ai_analyzer.py:75-78 | For any analysis, whatever its other keys, a `risk_assessment` of CRITICAL weighs 10, HIGH 7, MEDIUM 4 and LOW 2. A missing assessment reads as LOW, and any other hashable value weighs 1. |
| AiAnalyzer.AiSeverityFollowsRisk | scanner/ai_analyzer.py:73-78 | Read through the scan's tiers, the weight is monotone in the score and lies between 2 and 10. It is 10 exactly at score 10 or above. A strictly higher tier weighs strictly more. |
| AiAnalyzer.RuleBased | scanner/ai_analyzer.py:80-89 | The fallback fails exactly when `results["summary"]["risk_level"]` cannot be read. |
| AiAnalyzer.RuleBasedKeepsReport | scanner/ai_analyzer.py:82-88 | The fallback keeps every other report entry, adds or replaces `ai_analysis` with the three fallback keys, and assesses the summary's tier. |
| AiAnalyzer.RuleBasedIdempotent | scanner/ai_analyzer.py:80-89 | Applying the fallback twice gives the result of applying it once. |
| AiAnalyzer.FallbackSeverity | scanner/ai_analyzer.py:73-88 | The fallback's assessment weighs what the summary's tier weighs. |
| Scanner.IdorFindingsSnoc | scanner/core.py:96-100 | The IDOR findings of one more endpoint are the previous ones with that endpoint's findings appended. |
| Scanner.ScanEndpoints | scanner/core.py:96-100 | By a loop over the endpoint list: the result is each endpoint's findings, in list order. |
| Scanner.SecurityScanner.constructor | scanner/core.py:10-21 | The report starts empty: no findings, no summary, no header section and no endpoints. |
| Scanner.SecurityScanner.ScanSecurityHeaders | scanner/core.py:45-57 | The header issues are appended, or one INFO NETWORK_ERROR finding if the GET raises. The header section is set only on success. |
| Scanner.SecurityScanner.ScanAuthBypass | scanner/core.py:59-62 | The authentication findings are appended. |
| Scanner.SecurityScanner.CrawlAndScan | scanner/core.py:64-79 | The endpoints become the crawl's result, and are kept when the crawl raises. |
| Scanner.SecurityScanner.ScanJwtTokens | scanner/core.py:102-105 | The JWT findings are appended, or nothing when the scan raises. |
| Scanner.SecurityScanner.ScanIdorOnEndpoints | scanner/core.py:96-100 | The IDOR findings of the current endpoints are appended. |
| Scanner.SecurityScanner.CalculateSummary | scanner/core.py:118-136 | The summary becomes the summary of the current findings. |
| Scanner.SecurityScanner.Gather | scanner/core.py:30-37 | The four tasks run; an exception in one is swallowed. Endpoints, header section and findings are updated accordingly. |
| Scanner.PartsInTaskOrder | scanner/core.py:30-42 | The parts the report lemmas below speak of, gathered, are exactly the four lists `scan_full` appends, in task order. |
| Scanner.SecurityScanner.ScanFull | scanner/core.py:28-43 | The findings become the old ones followed by the header, authentication, JWT and IDOR parts. The summary is that of the final findings. |
| Scanner.SecurityScanner.AnalyzeRawRequest | scanner/core.py:107-116 | The result is the raw IDOR test behind the `id=` gate. The caller's own request is shared with the test, so afterwards its URL is rewritten as in `Idor.TestRawRequest`: it is the modified URL exactly when the URL has a numeric id and the first send got a reply, and is unchanged otherwise. |
| Scanner.GateAddsNothing | scanner/core.py:112 | The gate never changes the result: every URL the raw test acts on contains `id=` after lower-casing. |
| Scanner.SummaryIgnoresTaskOrder | scanner/core.py:30-42 | Any interleaving of the tasks' appends gives the same summary as task order. |
| Scanner.UnreachableTarget | scanner/core.py:45-57 | If the target's GET raises, the report holds a NETWORK_ERROR finding. The summary is that of the other detectors, with one more finding in the total. It also holds no JWT findings, but only because the JWT scan's own GET (`scanner/detectors/jwt.py:11`) is assumed to get the same failed reply. |
| Scanner.BareTargetTurnsCritical | scanner/core.py:45-142 | A target answering without headers scores 8 from the header check alone. Any further finding of MEDIUM or higher makes the report CRITICAL. |
| Scanner.HeadersAloneAtMostHigh | scanner/core.py:45-57 | The header check alone adds at most four findings, scores at most 8, and never reaches CRITICAL. |
| Scanner.HeaderFindingsAtMostMedium | scanner/detectors/headers.py:20-42 | The header check never raises a CRITICAL or HIGH finding. |

## Left out

- I/O: network access, the `httpx` client, its timeouts (30 s, and 5 s in the debug sub-test), its connection limits and closing the client are not modelled. Every reply is a value the client parameter returns for a request.
- Repeated identical requests are assumed to get identical replies, because the client is a function of the request. Transient failures are not modelled: two GETs of the same URL, such as the header check's (`scanner/core.py:48`) and the JWT scan's (`scanner/detectors/jwt.py:11`), cannot differ. `Scanner.UnreachableTarget`'s claim about JWT findings rests on this.
- `_crawl_and_scan` / `_extract_endpoints`: Playwright, the browser, the request listener and the 5-second wait are not modelled. The crawl's endpoint list, or its exception, is an input of `CrawlAndScan`. `base_domain` is used only by that listener, so it is left out.
- `scan_date`: the clock is not modelled. The report's `target` is the object's `target`.
- `asyncio.gather`: the tasks run one after another in task order. The interleavings the event loop allows are covered by `Scanner.SummaryIgnoresTaskOrder`, which proves that the summary does not depend on the order in which findings are appended. The header section and the endpoints are each written by one task only.
- `Scanner.SecurityScanner.ScanIdorOnEndpoints`: the loop runs in the module-level method `Scanner.ScanEndpoints`, and the method appends its result once. The intermediate states of the report during the loop are not modelled.
- `overall_score` is a float in the source. It is kept as the exact fraction `Ratio(present, 7)`.
- Headers: the report's per-header `header_status` dictionary is not part of the result the source returns, so it is left out. Its presence bits feed `headers_present`, which is modelled.
- `headers={}` in `_test_missing_auth` and the expected value of each role test have no effect on the requests and are not modelled. The unused `auth_token` parameter is accepted and ignored.
- The unused `id_patterns` list in `scan_endpoint` is left out.
- String functions (`lower`, `upper`, `isdigit`, `\d`) are ASCII-only. Unicode case mapping and Unicode digits are not modelled.
- `urlparse`, `parse_qs`, `urlencode` and `urljoin` are the `UrlTools` parameter, and their own behaviour is not modelled. `jwt.get_unverified_header` is the `Decoder` parameter, and an exception from it is `None`.
- `_test_jwt_attacks` loops over three attack vectors without doing anything and returns an empty list. The model adds nothing for it.
- AI analyzer: only `_calculate_ai_severity` and `_rule_based_analysis` are modelled. The language-model call, prompt building and JSON parsing are not.
- JSON numbers in the AI analyzer are integers; floats are not modelled. A number or boolean assessment weighs 1, as any other non-tier value does.
- `reports/generator.py` and `app.py` are not part of this model.
- `Optional`: `_test_single_idor` is annotated with `Optional`, which `scanner/detectors/idor.py` never imports (line 3). As written, that module fails to import. The model departs from the code here: it assumes the annotation resolves.
- `allow_redirects=False`: `_test_single_idor` passes it (`scanner/detectors/idor.py:105`, `:130`). The model departs from the code here: it reads the argument as "do not follow redirects". The client is built with `follow_redirects=True` (`scanner/core.py:24`), which points to an `httpx` version that accepts only `follow_redirects`. On such a version the call raises instead, and that exception is swallowed into "no finding". That case is not modelled.
- `analyze_raw_request` called from `app.py`: it receives a request model object, but it calls `.get` on its argument. The model follows `scanner/core.py:107-116` as written for a dictionary.

## Where the model follows the code

- `SECURITY_HEADERS` marks four of its seven headers as required (`scanner/detectors/headers.py:1-9`). Content-Security-Policy is only recommended.
- The response headers are an `httpx.Headers` (`scanner/core.py:49`). Indexing it joins the values of repeated lines with ", ", so the model's lookup collects every line whose name matches, ignoring case.
- `_modify_id` bumps `user_id=5` to `user_id=7` (`Idor.UserIdTwiceExample`), because `id=(\d+)` also matches inside `user_id=`. The model keeps this behaviour. The raw IDOR rule decides on statuses only, so the bump size does not change its verdict.

## Findings

| source | as written | input that shows it | evidently intended | confidence | as-written member | corrected member |
|---|---|---|---|---|---|---|
| scanner/detectors/idor.py:94 | `urljoin` is called but never imported, so the first id link raises NameError. The bare `except` in `scan_endpoint` swallows it, and no endpoint ever yields an IDOR finding. | A page containing `href="/item?id=1"`, where the linked URL answers 200 with a body longer than 100 characters and its `id=2` variant answers 200 with a different body of the same kind. | Import `urljoin` from `urllib.parse`, so that each of the first three links is tested. Even then, the unimported `Optional` (idor.py:101) and `allow_redirects=False` (idor.py:105) can each still prevent a finding. | not executed | Idor.UnimportedUrljoinHidesIdor | Idor.ScanEndpoint |
