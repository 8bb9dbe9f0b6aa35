/** The security-header policy check: a fixed seven-entry policy compared
    with the response headers, names matched without regard to letter case. */
module Headers {
  import opened Common
  import opened Text

  /** One policy entry: whether the header is required, the minimum HSTS age
      the policy records (and the check never reads), and a value the header
      must contain. */
  datatype Rule = Rule(name: string, required: bool, minAge: Option<nat>, value: Option<string>)

  const HSTS := "Strict-Transport-Security"
  const XFrameOptions := "X-Frame-Options"
  const XContentTypeOptions := "X-Content-Type-Options"
  const ReferrerPolicy := "Referrer-Policy"

  /** `SECURITY_HEADERS`, in its order: four required entries, three
      recommended ones. */
  const Policy: seq<Rule> := [
    Rule(HSTS, true, Some(31536000), None),
    Rule(XFrameOptions, true, None, None),
    Rule(XContentTypeOptions, true, None, Some("nosniff")),
    Rule(ReferrerPolicy, true, None, None),
    Rule("Content-Security-Policy", false, None, None),
    Rule("Permissions-Policy", false, None, None),
    Rule("X-XSS-Protection", false, None, None)]

  /** Index of the first header whose name is `name` ignoring case. */
  function Find(headers: HeaderList, name: string): (r: Option<nat>)
    ensures r.Some? ==> r.value < |headers|
  {
    if headers == [] then None
    else if Lower(headers[0].0) == Lower(name) then Some(0)
    else match Find(headers[1..], name)
      case None => None
      case Some(i) => Some(i + 1)
  }

  /** `next(k for k in headers.keys() if k.lower() == name.lower())`: the
      found header has the name up to letter case and no earlier one does;
      nothing is found only when no header has the name. */
  lemma {:induction false} FindIsFirstMatch(headers: HeaderList, name: string)
    ensures Find(headers, name).Some? ==>
      var i := Find(headers, name).value;
      && Lower(headers[i].0) == Lower(name)
      && forall j :: 0 <= j < i ==> Lower(headers[j].0) != Lower(name)
    ensures Find(headers, name).None? <==> forall j :: 0 <= j < |headers| ==> Lower(headers[j].0) != Lower(name)
  {
    if headers != [] {
      FindIsFirstMatch(headers[1..], name);
      if Lower(headers[0].0) != Lower(name) {
        assert forall j :: 1 <= j < |headers| ==> headers[j] == headers[1..][j - 1];
      }
    }
  }

  /** The values of every header named `name` ignoring case, in order. */
  function Values(headers: HeaderList, name: string): seq<string> {
    if headers == [] then []
    else (if Lower(headers[0].0) == Lower(name) then [headers[0].1] else []) + Values(headers[1..], name)
  }

  /** `", ".join(values)` */
  function JoinValues(vs: seq<string>): string {
    if vs == [] then "" else if |vs| == 1 then vs[0] else vs[0] + ", " + JoinValues(vs[1..])
  }

  /** `headers[actual_header]` on the response's `httpx.Headers`, once the
      `next(...)` search has found a name, computed line by line: each
      matching line's value, then ", " and the join of the later matches.
      None when no header has the name. */
  function Lookup(headers: HeaderList, name: string): Option<string> {
    if headers == [] then None
    else
      var rest := Lookup(headers[1..], name);
      if Lower(headers[0].0) != Lower(name) then rest
      else if rest.None? then Some(headers[0].1)
      else Some(headers[0].1 + ", " + rest.value)
  }

  /** The lookup is the ", "-join of every matching line's value, and
      absent exactly when there is none. */
  lemma {:induction false} LookupIsJoin(headers: HeaderList, name: string)
    ensures Lookup(headers, name) ==
      if Values(headers, name) == [] then None else Some(JoinValues(Values(headers, name)))
  {
    if headers != [] {
      LookupIsJoin(headers[1..], name);
      var rv := Values(headers[1..], name);
      if Lower(headers[0].0) == Lower(name) {
        assert Values(headers, name) == [headers[0].1] + rv;
        assert ([headers[0].1] + rv)[1..] == rv;
      } else {
        assert Values(headers, name) == [] + rv == rv;
        assert Lookup(headers, name) == Lookup(headers[1..], name);
      }
    }
  }

  /** The values collected are exactly those of the matching headers; the
      first is the value of the header `Find` picks, and there is none
      exactly when `Find` finds nothing. */
  lemma {:induction false} ValuesAreMatches(headers: HeaderList, name: string)
    ensures forall v :: v in Values(headers, name) <==>
      exists k :: 0 <= k < |headers| && Lower(headers[k].0) == Lower(name) && headers[k].1 == v
    ensures Find(headers, name).None? <==> Values(headers, name) == []
    ensures Find(headers, name).Some? ==> Values(headers, name)[0] == headers[Find(headers, name).value].1
  {
    if headers != [] {
      ValuesAreMatches(headers[1..], name);
      assert forall k :: 1 <= k < |headers| ==> headers[k] == headers[1..][k - 1];
      forall v | v in Values(headers, name)
        ensures exists k :: 0 <= k < |headers| && Lower(headers[k].0) == Lower(name) && headers[k].1 == v
      {
        if Lower(headers[0].0) == Lower(name) && v == headers[0].1 {
        } else {
          var k :| 0 <= k < |headers[1..]| && Lower(headers[1..][k].0) == Lower(name) && headers[1..][k].1 == v;
          assert headers[k + 1] == headers[1..][k];
        }
      }
    }
  }


  /** Every joined value is a substring of the join. */
  lemma {:induction false} JoinKeepsValues(vs: seq<string>, v: string, sub: string)
    requires v in vs && Contains(v, sub)
    ensures Contains(JoinValues(vs), sub)
  {
    if |vs| > 1 {
      ContainsInConcat(vs[0] + ", ", JoinValues(vs[1..]), sub);
      ContainsInConcat(vs[0], ", ", sub);
      if v != vs[0] {
        JoinKeepsValues(vs[1..], v, sub);
      }
    }
  }

  /** A header name that occurs once (ignoring case) is looked up as its
      own value. */
  lemma SingleValue(headers: HeaderList, name: string)
    requires |Values(headers, name)| == 1
    ensures Find(headers, name).Some?
    ensures Lookup(headers, name) == Some(headers[Find(headers, name).value].1)
  {
    ValuesAreMatches(headers, name);
    LookupIsJoin(headers, name);
  }

  /** The two kinds of issue the check raises. */
  datatype Issue =
    | MissingHeader(name: string)
    | WrongValue(name: string, expected: string, actual: string)
  {
    /** The finding dictionary the check appends for the issue. */
    function ToFinding(): Finding {
      match this
      case MissingHeader(name) =>
        Finding("MISSING_SECURITY_HEADER", Some("MEDIUM"), "Missing required security header: " + name,
                None, HeaderName(name), ["Add " + name + " header with appropriate value"])
      case WrongValue(name, expected, actual) =>
        Finding("INCORRECT_HEADER_VALUE", Some("LOW"), "Security header " + name + " has incorrect value",
                None, ValueMismatch(expected, actual), ["Set " + name + ": " + expected])
    }
  }

  function ToFindings(issues: seq<Issue>): (r: seq<Finding>)
    ensures |r| == |issues|
  {
    seq(|issues|, k requires 0 <= k < |issues| => issues[k].ToFinding())
  }

  lemma ToFindingsAppend(a: seq<Issue>, b: seq<Issue>)
    ensures ToFindings(a + b) == ToFindings(a) + ToFindings(b)
  {
  }

  /** The issues one policy entry raises. */
  function Check(rule: Rule, headers: HeaderList): seq<Issue> {
    match Lookup(headers, rule.name)
    case None => if rule.required then [MissingHeader(rule.name)] else []
    case Some(actual) =>
      if rule.value.Some? && !Contains(actual, rule.value.value)
      then [WrongValue(rule.name, rule.value.value, actual)]
      else []
  }

  /** The issues of a list of policy entries, in policy order. */
  function Issues(rules: seq<Rule>, headers: HeaderList): seq<Issue> {
    if rules == [] then [] else Check(rules[0], headers) + Issues(rules[1..], headers)
  }

  /** One `header_status` entry. */
  datatype HeaderStatus = HeaderStatus(name: string, present: bool, value: Option<string>)

  function StatusOf(rule: Rule, headers: HeaderList): HeaderStatus {
    HeaderStatus(rule.name, Lookup(headers, rule.name).Some?, Lookup(headers, rule.name))
  }

  /** `header_status` in insertion order, which is policy order. */
  function Statuses(rules: seq<Rule>, headers: HeaderList): (r: seq<HeaderStatus>)
    ensures |r| == |rules|
  {
    seq(|rules|, k requires 0 <= k < |rules| => StatusOf(rules[k], headers))
  }

  /** `sum(1 for h in header_status.values() if h["present"])` */
  function CountPresent(status: seq<HeaderStatus>): nat {
    if status == [] then 0 else (if status[0].present then 1 else 0) + CountPresent(status[1..])
  }

  /** `overall_score` as the exact fraction `num / den`. */
  datatype Ratio = Ratio(num: nat, den: nat)

  datatype Report = Report(overallScore: Ratio, issues: seq<Finding>, headersPresent: nat)

  /** `analyze(headers)` */
  method Analyze(headers: HeaderList) returns (report: Report)
    ensures report.issues == ToFindings(Issues(Policy, headers))
    ensures report.headersPresent == CountPresent(Statuses(Policy, headers))
    ensures report.overallScore == Ratio(report.headersPresent, |Policy|)
  {
    var issues: seq<Finding> := [];
    var status: seq<HeaderStatus> := [];
    var i := 0;
    while i < |Policy|
      invariant 0 <= i <= |Policy|
      invariant issues == ToFindings(Issues(Policy[..i], headers))
      invariant status == Statuses(Policy[..i], headers)
    {
      var step, entry := CheckEntry(Policy[i], headers);
      Snoc(Policy, i, headers);
      ToFindingsAppend(Issues(Policy[..i], headers), Check(Policy[i], headers));
      issues := issues + step;
      status := status + [entry];
      i := i + 1;
    }
    assert Policy[..|Policy|] == Policy;
    var present := CountPresent(status);
    report := Report(Ratio(present, |Policy|), issues, present);
  }

  /** One turn of the loop of `analyze`: the findings the entry appends and
      the `header_status` entry it writes. */
  method CheckEntry(rule: Rule, headers: HeaderList) returns (step: seq<Finding>, entry: HeaderStatus)
    ensures step == ToFindings(Check(rule, headers))
    ensures entry == StatusOf(rule, headers)
  {
    var found := Find(headers, rule.name);
    ValuesAreMatches(headers, rule.name);
    LookupIsJoin(headers, rule.name);
    entry := HeaderStatus(rule.name, found.Some?, None);
    step := [];
    if found.None? && rule.required {
      step := [MissingHeader(rule.name).ToFinding()];
    } else if found.Some? {
      var actual := JoinValues(Values(headers, rule.name));
      entry := entry.(value := Some(actual));
      if rule.value.Some? && !Contains(actual, rule.value.value) {
        step := [WrongValue(rule.name, rule.value.value, actual).ToFinding()];
      }
    }
  }

  /** One more policy entry adds its own issues and status after the
      earlier ones. */
  lemma Snoc(rules: seq<Rule>, i: nat, headers: HeaderList)
    requires i < |rules|
    ensures Issues(rules[..i + 1], headers) == Issues(rules[..i], headers) + Check(rules[i], headers)
    ensures Statuses(rules[..i + 1], headers) == Statuses(rules[..i], headers) + [StatusOf(rules[i], headers)]
  {
    assert rules[..i + 1] == rules[..i] + [rules[i]];
    IssuesAppend(rules[..i], [rules[i]], headers);
    assert Issues([rules[i]], headers) == Check(rules[i], headers) + Issues([], headers);
  }

  lemma {:induction false} IssuesAppend(a: seq<Rule>, b: seq<Rule>, headers: HeaderList)
    ensures Issues(a + b, headers) == Issues(a, headers) + Issues(b, headers)
  {
    if a == [] {
      assert a + b == b;
    } else {
      assert (a + b)[1..] == a[1..] + b;
      IssuesAppend(a[1..], b, headers);
    }
  }

  function MissingIfAbsent(headers: HeaderList, name: string): seq<Issue> {
    if Lookup(headers, name).None? then [MissingHeader(name)] else []
  }

  function NosniffIssue(headers: HeaderList): seq<Issue> {
    match Lookup(headers, XContentTypeOptions)
    case None => [MissingHeader(XContentTypeOptions)]
    case Some(v) => if Contains(v, "nosniff") then [] else [WrongValue(XContentTypeOptions, "nosniff", v)]
  }

  /** The issues of the whole policy, entry by entry: a missing-header issue
      for each required header that is absent, and a wrong-value issue only
      for X-Content-Type-Options lacking the substring `nosniff`. Nothing
      else is ever reported: the recommended entries raise nothing, and
      HSTS's recorded minimum age is not consulted. */
  lemma PolicyIssues(headers: HeaderList)
    ensures Issues(Policy, headers) ==
      MissingIfAbsent(headers, HSTS) + MissingIfAbsent(headers, XFrameOptions)
      + NosniffIssue(headers) + MissingIfAbsent(headers, ReferrerPolicy)
  {
    var p := Policy;
    assert p[..4] + p[4..] == p;
    IssuesAppend(p[..4], p[4..], headers);
    QuietRules(p[4..], headers);
    FourRules(p[..4], headers);
    assert p[..4][0] == p[0] && p[..4][1] == p[1] && p[..4][2] == p[2] && p[..4][3] == p[3];
    RequiredEntry(p[0], headers);
    RequiredEntry(p[1], headers);
    NosniffEntry(p[2], headers);
    RequiredEntry(p[3], headers);
  }

  /** A required entry without a value constraint raises exactly a missing
      issue when absent. */
  lemma RequiredEntry(rule: Rule, headers: HeaderList)
    requires rule.required && rule.value.None?
    ensures Check(rule, headers) == MissingIfAbsent(headers, rule.name)
  {
  }

  lemma NosniffEntry(rule: Rule, headers: HeaderList)
    requires rule == Rule(XContentTypeOptions, true, None, Some("nosniff"))
    ensures Check(rule, headers) == NosniffIssue(headers)
  {
  }

  /** Entries that are neither required nor constrain a value raise nothing. */
  lemma {:induction false} QuietRules(rules: seq<Rule>, headers: HeaderList)
    requires forall k :: 0 <= k < |rules| ==> !rules[k].required && rules[k].value.None?
    ensures Issues(rules, headers) == []
  {
    if rules != [] {
      QuietRules(rules[1..], headers);
    }
  }

  lemma FourRules(rules: seq<Rule>, headers: HeaderList)
    requires |rules| == 4
    ensures Issues(rules, headers) ==
      Check(rules[0], headers) + Check(rules[1], headers) + Check(rules[2], headers) + Check(rules[3], headers)
  {
    var r1, r2, r3 := rules[1..], rules[2..], rules[3..];
    assert r1[1..] == r2 && r2[1..] == r3 && r3[1..] == [];
    assert Issues(r3, headers) == Check(rules[3], headers);
    assert Issues(r2, headers) == Check(rules[2], headers) + Issues(r3, headers);
    assert Issues(r1, headers) == Check(rules[1], headers) + Issues(r2, headers);
  }

  /** With no headers at all, exactly the four required headers are
      reported missing, in policy order, each as a MEDIUM finding, and none
      is counted present. */
  lemma NoHeaders()
    ensures Issues(Policy, []) ==
      [MissingHeader(HSTS), MissingHeader(XFrameOptions), MissingHeader(XContentTypeOptions),
       MissingHeader(ReferrerPolicy)]
    ensures forall f :: f in ToFindings(Issues(Policy, [])) ==>
      f.kind == "MISSING_SECURITY_HEADER" && f.severity == Some("MEDIUM")
    ensures CountPresent(Statuses(Policy, [])) == 0
  {
    PolicyIssues([]);
    CountNonePresent(Statuses(Policy, []));
  }

  lemma {:induction false} CountNonePresent(status: seq<HeaderStatus>)
    requires forall k :: 0 <= k < |status| ==> !status[k].present
    ensures CountPresent(status) == 0
  {
    if status != [] {
      CountNonePresent(status[1..]);
    }
  }

  /** A recommended entry never yields an issue, present or not. */
  lemma OptionalNeverReported(headers: HeaderList, k: nat)
    requires k < |Policy| && !Policy[k].required
    ensures Check(Policy[k], headers) == []
  {
  }

  /** A wrong-value issue is raised exactly when X-Content-Type-Options is
      present and its value does not contain `nosniff` (letter case
      counting); it is then the only issue for that header, at LOW. */
  lemma WrongValueOnlyForNosniff(headers: HeaderList)
    ensures (exists i :: i in Issues(Policy, headers) && i.WrongValue?)
        <==> (Lookup(headers, XContentTypeOptions).Some?
              && !Contains(Lookup(headers, XContentTypeOptions).value, "nosniff"))
    ensures forall i :: i in Issues(Policy, headers) && i.WrongValue? ==>
      i == WrongValue(XContentTypeOptions, "nosniff", Lookup(headers, XContentTypeOptions).value)
      && i.ToFinding().kind == "INCORRECT_HEADER_VALUE" && i.ToFinding().severity == Some("LOW")
  {
    PolicyIssues(headers);
    var missing := MissingIfAbsent(headers, HSTS) + MissingIfAbsent(headers, XFrameOptions)
                   + MissingIfAbsent(headers, ReferrerPolicy);
    assert forall i :: i in missing ==> i.MissingHeader?;
    var n := NosniffIssue(headers);
    assert forall i :: i in Issues(Policy, headers) ==> i in missing || i in n;
    match Lookup(headers, XContentTypeOptions)
    case None =>
      assert n == [MissingHeader(XContentTypeOptions)];
    case Some(v) =>
      if !Contains(v, "nosniff") {
        assert n[0] in Issues(Policy, headers);
      }
  }

  /** Repeated X-Content-Type-Options lines are read as one joined value,
      so `nosniff` in any of them is enough: no wrong-value issue. */
  lemma NosniffInAnyCopy(headers: HeaderList, k: nat)
    requires k < |headers| && Lower(headers[k].0) == Lower(XContentTypeOptions)
    requires Contains(headers[k].1, "nosniff")
    ensures forall i :: i in Issues(Policy, headers) ==> !i.WrongValue?
  {
    ValuesAreMatches(headers, XContentTypeOptions);
    LookupIsJoin(headers, XContentTypeOptions);
    JoinKeepsValues(Values(headers, XContentTypeOptions), headers[k].1, "nosniff");
    WrongValueOnlyForNosniff(headers);
  }

  /** A reply carrying `X-Content-Type-Options: foo` and then
      `X-Content-Type-Options: nosniff` is read as "foo, nosniff" and raises
      no wrong-value issue. */
  lemma RepeatedHeaderJoined()
    ensures var h := [(XContentTypeOptions, "foo"), (XContentTypeOptions, "nosniff")];
      && Lookup(h, XContentTypeOptions) == Some("foo, nosniff")
      && forall i :: i in Issues(Policy, h) ==> !i.WrongValue?
  {
    var h := [(XContentTypeOptions, "foo"), (XContentTypeOptions, "nosniff")];
    assert h[1..][1..] == [];
    assert Lookup(h[1..], XContentTypeOptions) == Some("nosniff");
    assert "foo" + ", " + "nosniff" == "foo, nosniff";
    assert "nosniff"[0..7] == "nosniff";
    assert OccursAt(h[1].1, "nosniff", 0);
    NosniffInAnyCopy(h, 1);
  }

  /** A missing-header issue names a required header and is raised exactly
      when that header is absent. */
  lemma MissingExactlyWhenAbsent(headers: HeaderList, name: string)
    ensures MissingHeader(name) in Issues(Policy, headers)
        <==> (name in [HSTS, XFrameOptions, XContentTypeOptions, ReferrerPolicy]
              && Lookup(headers, name).None?)
  {
    PolicyIssues(headers);
    MissingPiece(headers, HSTS, name);
    MissingPiece(headers, XFrameOptions, name);
    MissingPiece(headers, ReferrerPolicy, name);
    assert MissingHeader(name) in NosniffIssue(headers)
      <==> name == XContentTypeOptions && Lookup(headers, XContentTypeOptions).None?;
  }

  lemma MissingPiece(headers: HeaderList, header: string, name: string)
    ensures MissingHeader(name) in MissingIfAbsent(headers, header)
      <==> name == header && Lookup(headers, header).None?
  {
  }

  /** At most one issue per policy entry, hence at most four in all. */
  lemma {:induction false} AtMostOnePerEntry(rules: seq<Rule>, headers: HeaderList)
    ensures |Issues(rules, headers)| <= |rules|
  {
    if rules != [] {
      AtMostOnePerEntry(rules[1..], headers);
    }
  }

  lemma AtMostFourIssues(headers: HeaderList)
    ensures |Issues(Policy, headers)| <= 4
  {
    PolicyIssues(headers);
  }

  /** `headers_present` counts the policy entries present: between 0 and 7. */
  lemma {:induction false} PresentWithinPolicy(rules: seq<Rule>, headers: HeaderList)
    ensures CountPresent(Statuses(rules, headers)) <= |rules|
  {
    if rules != [] {
      assert Statuses(rules, headers)[1..] == Statuses(rules[1..], headers);
      PresentWithinPolicy(rules[1..], headers);
    }
  }

  /** Every policy header present and X-Content-Type-Options carrying
      `nosniff`: no issue, and a full score of 7 out of 7. */
  lemma FullyCompliant(headers: HeaderList)
    requires forall k :: 0 <= k < |Policy| ==> Lookup(headers, Policy[k].name).Some?
    requires Lookup(headers, XContentTypeOptions).Some?
    requires Contains(Lookup(headers, XContentTypeOptions).value, "nosniff")
    ensures Issues(Policy, headers) == []
    ensures CountPresent(Statuses(Policy, headers)) == |Policy|
  {
    assert Policy[0].name == HSTS && Policy[1].name == XFrameOptions && Policy[3].name == ReferrerPolicy;
    PolicyIssues(headers);
    CountAllPresent(Statuses(Policy, headers));
  }

  lemma {:induction false} CountAllPresent(status: seq<HeaderStatus>)
    requires forall k :: 0 <= k < |status| ==> status[k].present
    ensures CountPresent(status) == |status|
  {
    if status != [] {
      CountAllPresent(status[1..]);
    }
  }

  /** The report depends on the headers only through what `Lookup` finds for
      the policy's names. */
  predicate SameLookups(h1: HeaderList, h2: HeaderList) {
    forall k :: 0 <= k < |Policy| ==> Lookup(h1, Policy[k].name) == Lookup(h2, Policy[k].name)
  }

  lemma {:induction false} LookupsDecide(rules: seq<Rule>, h1: HeaderList, h2: HeaderList)
    requires forall k :: 0 <= k < |rules| ==> Lookup(h1, rules[k].name) == Lookup(h2, rules[k].name)
    ensures Issues(rules, h1) == Issues(rules, h2)
    ensures Statuses(rules, h1) == Statuses(rules, h2)
  {
    if rules != [] {
      LookupsDecide(rules[1..], h1, h2);
    }
  }

  lemma SameReport(h1: HeaderList, h2: HeaderList)
    requires SameLookups(h1, h2)
    ensures Issues(Policy, h1) == Issues(Policy, h2)
    ensures CountPresent(Statuses(Policy, h1)) == CountPresent(Statuses(Policy, h2))
  {
    LookupsDecide(Policy, h1, h2);
  }

  /** Renaming headers to other letter cases of the same names changes
      nothing. */
  lemma {:induction false} FindIgnoresCase(h1: HeaderList, h2: HeaderList, name: string)
    requires |h1| == |h2|
    requires forall k :: 0 <= k < |h1| ==> Lower(h1[k].0) == Lower(h2[k].0) && h1[k].1 == h2[k].1
    ensures Find(h1, name) == Find(h2, name)
    ensures Lookup(h1, name) == Lookup(h2, name)
  {
    if h1 != [] {
      FindIgnoresCase(h1[1..], h2[1..], name);
    }
  }

  lemma CaseInsensitive(h1: HeaderList, h2: HeaderList)
    requires |h1| == |h2|
    requires forall k :: 0 <= k < |h1| ==> Lower(h1[k].0) == Lower(h2[k].0) && h1[k].1 == h2[k].1
    ensures Issues(Policy, h1) == Issues(Policy, h2)
    ensures CountPresent(Statuses(Policy, h1)) == CountPresent(Statuses(Policy, h2))
  {
    forall k | 0 <= k < |Policy| ensures Lookup(h1, Policy[k].name) == Lookup(h2, Policy[k].name) {
      FindIgnoresCase(h1, h2, Policy[k].name);
    }
    SameReport(h1, h2);
  }

  /** A header whose name is not a policy name, inserted anywhere, changes
      nothing. */
  lemma {:induction false} LookupSkipsOther(h: HeaderList, j: nat, x: (string, string), name: string)
    requires j <= |h| && Lower(x.0) != Lower(name)
    ensures Lookup(h[..j] + [x] + h[j..], name) == Lookup(h, name)
  {
    var h' := h[..j] + [x] + h[j..];
    if j == 0 {
      assert h'[1..] == h;
    } else {
      LookupSkipsOther(h[1..], j - 1, x, name);
      assert h'[1..] == h[1..][..j - 1] + [x] + h[1..][j - 1..];
    }
  }

  lemma UnrelatedHeaderIgnored(h: HeaderList, j: nat, x: (string, string))
    requires j <= |h|
    requires forall k :: 0 <= k < |Policy| ==> Lower(x.0) != Lower(Policy[k].name)
    ensures Issues(Policy, h[..j] + [x] + h[j..]) == Issues(Policy, h)
    ensures CountPresent(Statuses(Policy, h[..j] + [x] + h[j..])) == CountPresent(Statuses(Policy, h))
  {
    forall k | 0 <= k < |Policy| ensures Lookup(h[..j] + [x] + h[j..], Policy[k].name) == Lookup(h, Policy[k].name) {
      LookupSkipsOther(h, j, x, Policy[k].name);
    }
    SameReport(h[..j] + [x] + h[j..], h);
  }
}
