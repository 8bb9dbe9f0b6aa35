/** The authentication-bypass detector: four sub-tests, each a fixed list of
    probes through the shared client, each probe reported when its reply
    passes the sub-test's rule. An exception inside a sub-test discards that
    sub-test's findings; the debug sub-test catches them per probe. */
module Auth {
  import opened Common
  import opened Text

  // ---------------------------------------------------------------------
  // The probe lists.

  const AdminPaths: seq<string> := ["/admin", "/administrator", "/dashboard", "/api/admin", "/debug"]

  const PollutionCases: seq<(string, string)> :=
    [("admin", "true"), ("role", "admin"), ("user_type", "administrator"), ("debug", "1")]

  /** Each escalation test with the value it expects; the expected value is
      never consulted. */
  const EscalationTests: seq<(string, string)> :=
    [("role=admin", "user"), ("permission=full", "read"), ("access_level=1", "0")]

  const DebugPaths: seq<string> :=
    ["/debug", "/debug/console", "/_debug", "/debug.html",
     "/phpinfo.php", "/info.php", "/server-status",
     "/actuator", "/actuator/health", "/metrics"]

  const MissingAuthDescription: string := "Admin endpoint accessible without authentication: "
  const MissingAuthFix: string := "Implement proper authentication checks on admin endpoints"
  const PollutionDescription: string := "Authorization bypass via parameter pollution"
  const PollutionFix: string := "Properly validate all authorization parameters server-side"
  const EscalationDescription: string := "Vertical privilege escalation via "
  const EscalationFix: string := "Implement role-based access control (RBAC) with server-side validation"
  const DebugDescription: string := "Debug endpoint exposed: "
  const DebugFix: string := "Remove or properly secure debug endpoints in production"

  /** The sub-tests, in the order `scan` runs them. */
  datatype AuthTest = MissingAuth | ParameterPollution | RoleBypass | DebugEndpoints

  const Tests: seq<AuthTest> := [MissingAuth, ParameterPollution, RoleBypass, DebugEndpoints]

  function CaseCount(t: AuthTest): nat {
    match t
    case MissingAuth => |AdminPaths|
    case ParameterPollution => |PollutionCases|
    case RoleBypass => |EscalationTests|
    case DebugEndpoints => |DebugPaths|
  }

  // ---------------------------------------------------------------------
  // String operations the probes are built with.

  /** `s.rstrip('/')` */
  function RStrip(s: string): (r: string)
    ensures |r| <= |s| && r == s[..|r|]
    ensures r == [] || r[|r| - 1] != '/'
    ensures forall j :: |r| <= j < |s| ==> s[j] == '/'
  {
    if s != [] && s[|s| - 1] == '/' then RStrip(s[..|s| - 1]) else s
  }

  /** Stripping twice strips nothing more. */
  lemma RStripIdempotent(s: string)
    ensures RStrip(RStrip(s)) == RStrip(s)
  {
  }

  /** Index of the first `c` in `s` at or after `from`. */
  function IndexOf(s: string, c: char, from: nat): (r: Option<nat>)
    requires from <= |s|
    decreases |s| - from
    ensures r.Some? ==> from <= r.value < |s| && s[r.value] == c
    ensures r.Some? ==> forall j :: from <= j < r.value ==> s[j] != c
    ensures r.None? ==> forall j :: from <= j < |s| ==> s[j] != c
  {
    if from == |s| then None
    else if s[from] == c then Some(from)
    else IndexOf(s, c, from + 1)
  }

  /** `dict([s.split("=")])` with its one entry: it raises (None here)
      unless the split gives exactly two parts. */
  function SplitPair(s: string): (r: Option<(string, string)>)
    ensures r.Some? <==> exists i :: 0 <= i < |s| && s[i] == '='
                                     && forall j :: 0 <= j < |s| && j != i ==> s[j] != '='
    ensures r.Some? ==> s == r.value.0 + "=" + r.value.1
  {
    match IndexOf(s, '=', 0)
    case None => None
    case Some(i) =>
      if IndexOf(s, '=', i + 1).Some? then None
      else
        assert s == s[..i] + "=" + s[i + 1..];
        Some((s[..i], s[i + 1..]))
  }

  /** The three escalation tests each split into one parameter. */
  lemma EscalationParams()
    ensures SplitPair(EscalationTests[0].0) == Some(("role", "admin"))
    ensures SplitPair(EscalationTests[1].0) == Some(("permission", "full"))
    ensures SplitPair(EscalationTests[2].0) == Some(("access_level", "1"))
  {
    SplitRole();
    SplitPermission();
    SplitAccessLevel();
  }

  // Worked examples of `SplitPair` on the three escalation parameters,
  // one per entry of `EscalationTests`.

  lemma SplitRole()
    ensures SplitPair("role=admin") == Some(("role", "admin"))
  {
    SplitAt("role=admin", 4);
    assert "role=admin"[..4] == "role" && "role=admin"[5..] == "admin";
  }

  lemma SplitPermission()
    ensures SplitPair("permission=full") == Some(("permission", "full"))
  {
    SplitAt("permission=full", 10);
    assert "permission=full"[..10] == "permission" && "permission=full"[11..] == "full";
  }

  lemma SplitAccessLevel()
    ensures SplitPair("access_level=1") == Some(("access_level", "1"))
  {
    SplitAt("access_level=1", 12);
    assert "access_level=1"[..12] == "access_level" && "access_level=1"[13..] == "1";
  }

  lemma SplitAt(s: string, i: nat)
    requires i < |s| && s[i] == '='
    requires forall j :: 0 <= j < |s| && j != i ==> s[j] != '='
    ensures SplitPair(s) == Some((s[..i], s[i + 1..]))
  {
  }

  // ---------------------------------------------------------------------
  // A sub-test as data: its probes, its rule, and whether it catches the
  // client's exceptions per probe.

  /** When a reply is reported: a 200, and for the body rules one of the
      words in the lower-cased body. */
  datatype Rule = StatusOk | StatusOkMentioning(words: seq<string>)

  predicate Flagged(rule: Rule, status: int, body: string) {
    match rule
    case StatusOk => status == 200
    case StatusOkMentioning(words) =>
      status == 200 && exists k :: 0 <= k < |words| && Contains(Lower(body), words[k])
  }

  /** One probe: its request (None where building it raises) and the
      finding it reports. */
  datatype Probe = Probe(request: Option<Request>, finding: Finding)

  datatype SubTest = SubTest(probes: seq<Probe>, rule: Rule, catchesPerProbe: bool)

  /** What one probe contributes, or Abort for an exception that escapes. */
  datatype Step = Report(findings: seq<Finding>) | Abort

  function StepOf(st: SubTest, server: Server, i: nat): Step
    requires i < |st.probes|
  {
    match st.probes[i].request
    case None => Abort
    case Some(req) =>
      match server(req)
      case Fail(_) => if st.catchesPerProbe then Report([]) else Abort
      case Ok(status, _, body) =>
        if Flagged(st.rule, status, body) then Report([st.probes[i].finding]) else Report([])
  }

  /** The outcome of probes `i..`. */
  function RunFrom(st: SubTest, server: Server, i: nat): Outcome
    requires i <= |st.probes|
    decreases |st.probes| - i
  {
    if i == |st.probes| then Completed([])
    else match StepOf(st, server, i)
      case Abort => Raised
      case Report(fs) => Prepend(fs, RunFrom(st, server, i + 1))
  }

  function Run(st: SubTest, server: Server): Outcome {
    RunFrom(st, server, 0)
  }

  lemma PrependPrepend(a: seq<Finding>, b: seq<Finding>, o: Outcome)
    ensures Prepend(a, Prepend(b, o)) == Prepend(a + b, o)
  {
    if o.Completed? {
      Associative(a, b, o.findings);
    }
  }

  /** The loop of a sub-test over its probes, stopping at the first
      exception that escapes. */
  method RunTest(st: SubTest, server: Server) returns (o: Outcome)
    ensures o == Run(st, server)
  {
    var vulns: seq<Finding> := [];
    var i := 0;
    while i < |st.probes|
      invariant i <= |st.probes|
      invariant Run(st, server) == Prepend(vulns, RunFrom(st, server, i))
    {
      var step := ProbeStep(st, server, i);
      if step.Abort? {
        return Raised;
      }
      PrependPrepend(vulns, step.findings, RunFrom(st, server, i + 1));
      vulns := vulns + step.findings;
      i := i + 1;
    }
    assert vulns + [] == vulns;
    o := Completed(vulns);
  }

  /** One iteration of a sub-test's loop. */
  method ProbeStep(st: SubTest, server: Server, i: nat) returns (step: Step)
    requires i < |st.probes|
    ensures step == StepOf(st, server, i)
  {
    var req := st.probes[i].request;
    if req.None? {
      return Abort;
    }
    var resp := server(req.value);
    if resp.Fail? {
      step := if st.catchesPerProbe then Report([]) else Abort;
    } else if Flagged(st.rule, resp.status, resp.body) {
      step := Report([st.probes[i].finding]);
    } else {
      step := Report([]);
    }
  }

  /** A sub-test raises exactly when some probe aborts. */
  lemma {:induction false} RaisedIffSomeProbeAborts(st: SubTest, server: Server, i: nat)
    requires i <= |st.probes|
    ensures RunFrom(st, server, i).Raised? <==> exists j :: i <= j < |st.probes| && StepOf(st, server, j).Abort?
    decreases |st.probes| - i
  {
    if i < |st.probes| {
      RaisedIffSomeProbeAborts(st, server, i + 1);
    }
  }

  /** A probe aborts exactly when its request cannot be built, or the client
      raised and the sub-test does not catch it. */
  lemma AbortIff(st: SubTest, server: Server, i: nat)
    requires i < |st.probes|
    ensures StepOf(st, server, i).Abort? <==>
      st.probes[i].request.None? || (!st.catchesPerProbe && server(st.probes[i].request.value).Fail?)
  {
  }

  /** A probe that does not abort reports its finding exactly when its
      reply passes the rule, and otherwise nothing. */
  lemma StepShape(st: SubTest, server: Server, i: nat)
    requires i < |st.probes| && StepOf(st, server, i).Report?
    ensures StepOf(st, server, i) == Report([]) || StepOf(st, server, i) == Report([st.probes[i].finding])
    ensures StepOf(st, server, i) == Report([st.probes[i].finding]) <==>
      var reply := server(st.probes[i].request.value);
      reply.Ok? && Flagged(st.rule, reply.status, reply.body)
  {
  }

  /** A probe is flagged when its request is built, the client answers, and
      the reply passes the sub-test's rule. */
  predicate ProbeFlagged(st: SubTest, server: Server, j: nat)
    requires j < |st.probes|
  {
    st.probes[j].request.Some?
    && var reply := server(st.probes[j].request.value);
       reply.Ok? && Flagged(st.rule, reply.status, reply.body)
  }

  /** The findings of the flagged probes `i..`, one each, in probe order. */
  function FlaggedFindings(st: SubTest, server: Server, i: nat): seq<Finding>
    requires i <= |st.probes|
    decreases |st.probes| - i
  {
    if i == |st.probes| then []
    else (if ProbeFlagged(st, server, i) then [st.probes[i].finding] else []) + FlaggedFindings(st, server, i + 1)
  }

  /** A completed sub-test reports exactly its flagged probes: one finding
      per flagged probe, in probe order; each finding is some flagged
      probe's, and every flagged probe is reported. */
  lemma {:induction false} ReportsExactlyFlagged(st: SubTest, server: Server, i: nat)
    requires i <= |st.probes| && RunFrom(st, server, i).Completed?
    ensures RunFrom(st, server, i).findings == FlaggedFindings(st, server, i)
    ensures |RunFrom(st, server, i).findings| <= |st.probes| - i
    ensures forall f :: f in RunFrom(st, server, i).findings ==>
      exists j :: i <= j < |st.probes| && StepOf(st, server, j) == Report([f])
    ensures forall j :: i <= j < |st.probes| && StepOf(st, server, j) == Report([st.probes[j].finding]) ==>
      st.probes[j].finding in RunFrom(st, server, i).findings
    decreases |st.probes| - i
  {
    if i < |st.probes| {
      ReportsExactlyFlagged(st, server, i + 1);
      StepShape(st, server, i);
    }
  }

  lemma BoundOf(st: SubTest, server: Server)
    ensures |Run(st, server).Yield()| <= |st.probes|
  {
    if Run(st, server).Completed? {
      ReportsExactlyFlagged(st, server, 0);
    }
  }

  // ---------------------------------------------------------------------
  // The four sub-tests.

  function AdminProbe(target: string, path: string): Probe {
    var url := RStrip(target) + path;
    Probe(Some(Request(url, [], true)),
          Finding("BROKEN_AUTH", Some("HIGH"), MissingAuthDescription + path, Some(url), NoEvidence, [MissingAuthFix]))
  }

  function PollutionProbe(target: string, param: (string, string)): Probe {
    Probe(Some(Request(target, [param], true)),
          Finding("AUTH_BYPASS", Some("MEDIUM"), PollutionDescription, None, Parameters([param]), [PollutionFix]))
  }

  function EscalationProbe(target: string, testParam: string): Probe {
    var request := match SplitPair(testParam)
      case None => None
      case Some(param) => Some(Request(target, [param], true));
    Probe(request,
          Finding("PRIVILEGE_ESCALATION", Some("HIGH"), EscalationDescription + testParam, None, NoEvidence, [EscalationFix]))
  }

  function DebugProbe(target: string, path: string): Probe {
    var url := RStrip(target) + path;
    Probe(Some(Request(url, [], true)),
          Finding("EXPOSED_DEBUG", Some("HIGH"), DebugDescription + path, Some(url), NoEvidence, [DebugFix]))
  }

  /** `_test_missing_auth`, `_test_parameter_pollution`, `_test_role_bypass`
      and `_test_debug_endpoints` as sub-tests. */
  function SubTestOf(t: AuthTest, target: string): (st: SubTest)
    ensures |st.probes| == CaseCount(t)
    ensures st.catchesPerProbe <==> t.DebugEndpoints?
  {
    match t
    case MissingAuth =>
      SubTest(seq(|AdminPaths|, i requires 0 <= i < |AdminPaths| => AdminProbe(target, AdminPaths[i])),
              StatusOk, false)
    case ParameterPollution =>
      SubTest(seq(|PollutionCases|, i requires 0 <= i < |PollutionCases| => PollutionProbe(target, PollutionCases[i])),
              StatusOkMentioning(["admin"]), false)
    case RoleBypass =>
      SubTest(seq(|EscalationTests|, i requires 0 <= i < |EscalationTests| => EscalationProbe(target, EscalationTests[i].0)),
              StatusOkMentioning(["admin", "success", "granted"]), false)
    case DebugEndpoints =>
      SubTest(seq(|DebugPaths|, i requires 0 <= i < |DebugPaths| => DebugProbe(target, DebugPaths[i])),
              StatusOk, true)
  }

  /** Every probe's request can be built: the escalation tests each split
      into exactly one parameter. */
  lemma RequestsAllBuilt(t: AuthTest, target: string, i: nat)
    requires i < CaseCount(t)
    ensures SubTestOf(t, target).probes[i].request.Some?
  {
    if t.RoleBypass? {
      EscalationParams();
    }
  }

  /** The client raised on the probe's request. */
  predicate ClientFails(server: Server, p: Probe) {
    p.request.Some? && server(p.request.value).Fail?
  }

  /** The debug sub-test never raises, whatever the client does; each other
      sub-test raises exactly when the client raises on one of its
      probes. */
  lemma RaisesIffClientFails(t: AuthTest, target: string, server: Server)
    ensures Run(SubTestOf(t, target), server).Raised? <==>
      !t.DebugEndpoints? &&
      exists j :: 0 <= j < CaseCount(t) && ClientFails(server, SubTestOf(t, target).probes[j])
  {
    var st := SubTestOf(t, target);
    RaisedIffSomeProbeAborts(st, server, 0);
    forall j | 0 <= j < CaseCount(t)
      ensures StepOf(st, server, j).Abort? <==> !t.DebugEndpoints? && ClientFails(server, st.probes[j])
    {
      RequestsAllBuilt(t, target, j);
      AbortIff(st, server, j);
    }
  }

  // ---------------------------------------------------------------------
  // `scan`

  /** Every sub-test's findings, in order; a sub-test that raised
      contributes nothing. */
  function ScanFindings(target: string, server: Server): seq<Finding> {
    SumUpTo(target, server, |Tests|)
  }

  /** The findings of the first `k` sub-tests. */
  function SumUpTo(target: string, server: Server, k: nat): seq<Finding>
    requires k <= |Tests|
  {
    if k == 0 then [] else SumUpTo(target, server, k - 1) + Contribution(Tests[k - 1], target, server)
  }

  /** What sub-test `t` adds to `scan`'s list. */
  function Contribution(t: AuthTest, target: string, server: Server): seq<Finding> {
    Run(SubTestOf(t, target), server).Yield()
  }

  /** `scan(target, client, auth_token)`: the token is accepted and never
      used. */
  method Scan(target: string, server: Server, authToken: Option<string>) returns (vulns: seq<Finding>)
    ensures vulns == ScanFindings(target, server)
  {
    vulns := [];
    for k := 0 to |Tests|
      invariant vulns == SumUpTo(target, server, k)
    {
      var results := RunTest(SubTestOf(Tests[k], target), server);
      if results.Completed? {
        vulns := vulns + results.findings;
      }
    }
  }

  /** `scan` reports at most 5 + 4 + 3 + 10 findings. */
  lemma AtMostTwentyTwo(target: string, server: Server)
    ensures |ScanFindings(target, server)| <= 22
  {
    PrefixBound(target, server, |Tests|);
  }

  lemma {:induction false} PrefixBound(target: string, server: Server, k: nat)
    requires k <= |Tests|
    ensures |SumUpTo(target, server, k)| <= CaseCountUpTo(k)
  {
    if k > 0 {
      PrefixBound(target, server, k - 1);
      BoundOf(SubTestOf(Tests[k - 1], target), server);
    }
  }

  function CaseCountUpTo(k: nat): nat
    requires k <= |Tests|
  {
    if k == 0 then 0 else CaseCountUpTo(k - 1) + CaseCount(Tests[k - 1])
  }

  /** `/debug` is both an admin path and a debug path: where the client
      answers every admin probe and `/debug` with 200, it is reported twice,
      once as BROKEN_AUTH and once as EXPOSED_DEBUG. */
  lemma DebugReportedTwice(target: string, server: Server)
    requires forall i :: 0 <= i < |AdminPaths| ==> server(Request(RStrip(target) + AdminPaths[i], [], true)).Ok?
    requires server(Request(RStrip(target) + "/debug", [], true)).IsOk200()
    ensures AdminProbe(target, "/debug").finding in ScanFindings(target, server)
    ensures DebugProbe(target, "/debug").finding in ScanFindings(target, server)
    ensures AdminProbe(target, "/debug").finding.kind == "BROKEN_AUTH"
    ensures DebugProbe(target, "/debug").finding.kind == "EXPOSED_DEBUG"
  {
    AdminReportsDebug(target, server);
    DebugReportsDebug(target, server);
    ScanFindingsInOrder(target, server);
  }

  /** `scan`'s findings are the four sub-tests' contributions in order. */
  lemma ScanFindingsInOrder(target: string, server: Server)
    ensures ScanFindings(target, server) ==
      Contribution(MissingAuth, target, server) + Contribution(ParameterPollution, target, server)
      + Contribution(RoleBypass, target, server) + Contribution(DebugEndpoints, target, server)
  {
    assert SumUpTo(target, server, 1) == Contribution(MissingAuth, target, server);
    assert SumUpTo(target, server, 2) == SumUpTo(target, server, 1) + Contribution(ParameterPollution, target, server);
    assert SumUpTo(target, server, 3) == SumUpTo(target, server, 2) + Contribution(RoleBypass, target, server);
  }

  lemma AdminReportsDebug(target: string, server: Server)
    requires forall i :: 0 <= i < |AdminPaths| ==> server(Request(RStrip(target) + AdminPaths[i], [], true)).Ok?
    requires server(Request(RStrip(target) + "/debug", [], true)).IsOk200()
    ensures Run(SubTestOf(MissingAuth, target), server).Completed?
    ensures AdminProbe(target, "/debug").finding in Run(SubTestOf(MissingAuth, target), server).findings
  {
    var st := SubTestOf(MissingAuth, target);
    assert st.probes[4] == AdminProbe(target, "/debug");
    RaisesIffClientFails(MissingAuth, target, server);
    forall j | 0 <= j < |AdminPaths|
      ensures !ClientFails(server, st.probes[j])
    {
      assert st.probes[j].request == Some(Request(RStrip(target) + AdminPaths[j], [], true));
    }
    ReportsExactlyFlagged(st, server, 0);
  }

  lemma DebugReportsDebug(target: string, server: Server)
    requires server(Request(RStrip(target) + "/debug", [], true)).IsOk200()
    ensures Run(SubTestOf(DebugEndpoints, target), server).Completed?
    ensures DebugProbe(target, "/debug").finding in Run(SubTestOf(DebugEndpoints, target), server).findings
  {
    var st := SubTestOf(DebugEndpoints, target);
    assert st.probes[0] == DebugProbe(target, "/debug");
    RaisesIffClientFails(DebugEndpoints, target, server);
    ReportsExactlyFlagged(st, server, 0);
  }
}
