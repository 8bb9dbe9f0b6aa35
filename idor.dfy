/** The IDOR detector: rewriting the numeric id in a URL, mutating the first
    numeric id parameter of a query, the report rule for a crawled link, the
    three-link cap per endpoint, and the status-only rule for a raw
    request. */
module Idor {
  import opened Common
  import opened Text
  import opened Patterns

  // ---------------------------------------------------------------------
  // `_modify_id`: three first-match substitutions, each adding one to the
  // digits after its literal.

  /** The text `replacer` returns for a match `lit + ds`: the match with
      its last `len(str(int(ds)))` characters replaced by `str(int(ds) + 1)`
      (the padding in the format never adds anything, since the kept part
      already has the requested width). */
  function Replacement(lit: string, ds: string): string
    requires IsDigits(ds)
  {
    DecimalOfValueNoLonger(ds);
    Cut(lit + ds, |Decimal(Value(ds))|, Decimal(Value(ds) + 1))
  }

  /** The match `g0` without its last `m` characters, followed by `next`. */
  function Cut(g0: string, m: nat, next: string): string
    requires m <= |g0|
  {
    g0[..|g0| - m] + next
  }

  lemma CutShape(lit: string, ds: string, m: nat, next: string)
    requires m <= |ds|
    ensures Cut(lit + ds, m, next) == lit + ds[..|ds| - m] + next
  {
    DropTail(lit, ds, m);
  }

  /** The zeros `int` drops from the front of a digit string. */
  function LeadingZeros(ds: string): string
    requires IsDigits(ds)
  {
    DecimalOfValueNoLonger(ds);
    ds[..|ds| - |Decimal(Value(ds))|]
  }

  /** The replacement keeps the literal and whatever leading zeros `int`
      dropped, then writes the successor of the matched number. */
  lemma Increment(lit: string, ds: string)
    requires IsDigits(ds)
    ensures AllZeros(LeadingZeros(ds))
    ensures Replacement(lit, ds) == lit + LeadingZeros(ds) + Decimal(Value(ds) + 1)
  {
    LeadingPartIsZeros(ds);
    KeptPart(lit, ds);
  }

  lemma KeptPart(lit: string, ds: string)
    requires IsDigits(ds)
    ensures Replacement(lit, ds) == lit + LeadingZeros(ds) + Decimal(Value(ds) + 1)
  {
    ReplacementIsCut(lit, ds);
    LeadingZerosAreCut(ds);
    CutShape(lit, ds, |Decimal(Value(ds))|, Decimal(Value(ds) + 1));
  }

  lemma ReplacementIsCut(lit: string, ds: string)
    requires IsDigits(ds)
    ensures |Decimal(Value(ds))| <= |ds|
    ensures Replacement(lit, ds) == Cut(lit + ds, |Decimal(Value(ds))|, Decimal(Value(ds) + 1))
  {
    DecimalOfValueNoLonger(ds);
  }

  lemma LeadingZerosAreCut(ds: string)
    requires IsDigits(ds)
    ensures |Decimal(Value(ds))| <= |ds|
    ensures LeadingZeros(ds) == ds[..|ds| - |Decimal(Value(ds))|]
  {
    DecimalOfValueNoLonger(ds);
  }

  /** The digits written in place of `ds` are worth one more. */
  lemma IncrementValue(ds: string)
    requires IsDigits(ds)
    ensures AllDigits(LeadingZeros(ds) + Decimal(Value(ds) + 1))
    ensures Value(LeadingZeros(ds) + Decimal(Value(ds) + 1)) == Value(ds) + 1
  {
    LeadingPartIsZeros(ds);
    ZerosValue(LeadingZeros(ds), Decimal(Value(ds) + 1));
    ValueOfDecimal(Value(ds) + 1);
  }

  /** The substitution of the match of `lit(\d+)` at `i`, with its greedy
      digit run. */
  function SubAt(s: string, lit: string, i: nat): string
    requires DigitMatchAt(s, lit, i)
  {
    var e := RunEnd(s, i + |lit|, Digit);
    s[..i] + Replacement(lit, s[i + |lit|..e]) + s[e..]
  }

  /** `re.sub(lit + r'(\d+)', replacer, s, count=1)`: only the leftmost
      match is replaced. */
  function SubFirst(s: string, lit: string): (r: string)
    ensures FirstDigitMatch(s, lit, 0).None? ==> r == s
  {
    match FirstDigitMatch(s, lit, 0)
    case None => s
    case Some(i) => SubAt(s, lit, i)
  }

  /** The patterns of `_modify_id`, in the order they are applied. */
  const IdPatterns: seq<string> := ["id=", "user_id=", "account_id="]

  /** The URL after applying the first `k` patterns in turn. */
  function SubAll(pats: seq<string>, url: string): string {
    if pats == [] then url else SubFirst(SubAll(pats[..|pats| - 1], url), pats[|pats| - 1])
  }

  function ModifiedUrl(url: string): string {
    SubAll(IdPatterns, url)
  }

  /** The request dictionary of a raw request; `req["url"]` is the only
      field `_modify_id` writes. An absent URL reads as the empty string,
      which is how every caller reads it. */
  class RawRequest {
    var httpMethod: Option<string>
    var url: string
    var headers: HeaderList
    var body: Option<string>

    constructor(httpMethod: Option<string>, url: string, headers: HeaderList, body: Option<string>)
      ensures this.httpMethod == httpMethod && this.url == url && this.headers == headers && this.body == body
    {
      this.httpMethod := httpMethod;
      this.url := url;
      this.headers := headers;
      this.body := body;
    }
  }

  /** `_modify_id(req)`: rewrites `req["url"]` in place and returns the same
      dictionary. */
  method ModifyId(req: RawRequest) returns (same: RawRequest)
    modifies req`url
    ensures same == req
    ensures req.url == ModifiedUrl(old(req.url))
  {
    var url := req.url;
    for k := 0 to |IdPatterns|
      invariant url == SubAll(IdPatterns[..k], old(req.url))
    {
      assert IdPatterns[..k + 1][..k] == IdPatterns[..k];
      url := SubFirst(url, IdPatterns[k]);
    }
    assert IdPatterns[..|IdPatterns|] == IdPatterns;
    req.url := url;
    same := req;
  }

  /** What the substitution writes in place of the digits `ds`. */
  function NewDigits(ds: string): string
    requires IsDigits(ds)
  {
    LeadingZeros(ds) + Decimal(Value(ds) + 1)
  }

  /** The replacement of a match `lit + ds` is the literal followed by
      digits worth one more than `ds`. */
  lemma ReplacementShape(lit: string, ds: string)
    requires IsDigits(ds)
    ensures Replacement(lit, ds) == lit + NewDigits(ds)
    ensures AllDigits(NewDigits(ds)) && Value(NewDigits(ds)) == Value(ds) + 1
  {
    Increment(lit, ds);
    IncrementValue(ds);
    Associative(lit, LeadingZeros(ds), Decimal(Value(ds) + 1));
  }

  /** Where `lit(\d+)` first matches at `i`, with its greedy digit run
      ending at `e`, the substitution keeps everything outside `i..e` and
      the literal, and writes digits worth one more than those it read. */
  lemma SubFirstReplacesMatch(s: string, lit: string, i: nat, e: nat)
    requires FirstDigitMatch(s, lit, 0) == Some(i)
    requires e == RunEnd(s, i + |lit|, Digit)
    ensures i + |lit| < e && IsDigits(s[i + |lit|..e])
    ensures e == |s| || !IsDigit(s[e])
    ensures SubFirst(s, lit) == s[..i] + lit + NewDigits(s[i + |lit|..e]) + s[e..]
  {
    var ds := s[i + |lit|..e];
    assert IsDigits(ds);
    ReplacementShape(lit, ds);
    assert SubFirst(s, lit) == SubAt(s, lit, i);
    Associative(s[..i], lit, NewDigits(ds));
  }

  /** Patterns that do not match leave the URL as it is. */
  lemma {:induction false} NoMatchNoChange(pats: seq<string>, url: string)
    requires forall k :: 0 <= k < |pats| ==> !HasDigitMatch(url, pats[k])
    ensures SubAll(pats, url) == url
  {
    if pats != [] {
      NoMatchNoChange(pats[..|pats| - 1], url);
    }
  }

  /** A URL with no `id=` followed by a digit is returned unchanged: no
      pattern can match, since each longer literal ends in `id=`. */
  lemma NoIdUnchanged(url: string)
    requires !HasDigitMatch(url, "id=")
    ensures ModifiedUrl(url) == url
  {
    NoLongerMatch(url, "user_", IdPatterns[1]);
    NoLongerMatch(url, "account_", IdPatterns[2]);
    NoMatchNoChange(IdPatterns, url);
  }

  lemma NoLongerMatch(url: string, pre: string, lit: string)
    requires !HasDigitMatch(url, "id=") && lit == pre + "id="
    ensures !HasDigitMatch(url, lit)
  {
    if HasDigitMatch(url, lit) {
      SuffixLiteralMatches(url, pre, "id=", FirstDigitMatch(url, lit, 0).value);
      assert false;
    }
  }

  /** `id=99` becomes `id=100`: the numeral grows by a digit. */
  lemma CarryExample()
    ensures Replacement("id=", "99") == "id=100"
  {
    assert Value("99") == 99 by {
      assert "99"[..1] == "9";
    }
    assert Decimal(100) == "100";
    ReplacementShape("id=", "99");
    assert LeadingZeros("99") == "";
  }

  /** `id=007` becomes `id=008`: the leading zeros `int` dropped are kept. */
  lemma LeadingZerosExample()
    ensures Replacement("id=", "007") == "id=008"
  {
    assert "007" == "00" + "7";
    ZerosValue("00", "7");
    assert Decimal(7) == "7";
    assert Decimal(8) == "8";
    ReplacementShape("id=", "007");
    assert LeadingZeros("007") == "00";
  }

  /** A match whose literal's first character occurs nowhere before it is
      the leftmost one. */
  lemma {:induction false} FirstByInitial(s: string, lit: string, from: nat, i: nat)
    requires lit != [] && from <= i && DigitMatchAt(s, lit, i)
    requires forall j :: from <= j < i ==> s[j] != lit[0]
    ensures FirstDigitMatch(s, lit, from) == Some(i)
    decreases i - from
  {
    if from < i {
      assert s[from..from + |lit|][0] == s[from];
      FirstByInitial(s, lit, from + 1, i);
    }
  }

  /** `?user_id=5` becomes `?user_id=7`: `id=\d+` first matches inside
      `user_id=5`, and `user_id=\d+` then matches the bumped value again. */
  lemma UserIdTwiceExample()
    ensures ModifiedUrl("?user_id=5") == "?user_id=7"
  {
    IdInsideUserId();
    UserIdAgain();
    NoAccountId();
    assert IdPatterns[..1] == ["id="] && IdPatterns[..2] == ["id=", "user_id="];
    assert SubAll(IdPatterns[..1], "?user_id=5") == "?user_id=6";
    assert SubAll(IdPatterns[..2], "?user_id=5") == "?user_id=7";
  }

  lemma IdInsideUserId()
    ensures SubFirst("?user_id=5", "id=") == "?user_id=6"
  {
    var s := "?user_id=5";
    assert DigitMatchAt(s, "id=", 6);
    FirstByInitial(s, "id=", 0, 6);
    assert RunEnd(s, 9, Digit) == 10;
    SubFirstReplacesMatch(s, "id=", 6, 10);
    assert s[9..10] == "5";
    NewDigitsOfOneDigit('5');
  }

  lemma UserIdAgain()
    ensures SubFirst("?user_id=6", "user_id=") == "?user_id=7"
  {
    var s := "?user_id=6";
    assert DigitMatchAt(s, "user_id=", 1);
    FirstByInitial(s, "user_id=", 0, 1);
    assert RunEnd(s, 9, Digit) == 10;
    SubFirstReplacesMatch(s, "user_id=", 1, 10);
    assert s[9..10] == "6";
    NewDigitsOfOneDigit('6');
  }

  /** A single digit below 9 is replaced by the next digit. */
  lemma NewDigitsOfOneDigit(c: char)
    requires '0' <= c < '9'
    ensures NewDigits([c]) == [(c as int + 1) as char]
  {
    var d := DigitValue(c);
    assert Value([c]) == d by {
      assert [c][..0] == [];
    }
    assert Decimal(d) == [c];
    assert Decimal(d + 1) == [(c as int + 1) as char];
  }

  lemma NoAccountId()
    ensures SubFirst("?user_id=7", "account_id=") == "?user_id=7"
  {
    var s := "?user_id=7";
    assert forall j :: 0 <= j < |s| ==> s[j] != 'a';
    NothingByInitial(s, "account_id=", 0);
  }

  /** A literal whose first character does not occur never matches. */
  lemma {:induction false} NothingByInitial(s: string, lit: string, from: nat)
    requires lit != [] && from <= |s|
    requires forall j :: from <= j < |s| ==> s[j] != lit[0]
    ensures FirstDigitMatch(s, lit, from).None?
    decreases |s| - from
  {
    if from + |lit| < |s| {
      assert s[from..from + |lit|][0] == s[from];
      NothingByInitial(s, lit, from + 1);
    }
  }

  // ---------------------------------------------------------------------
  // `test_raw_request`: the status-only rule over the raw request's own
  // client.

  /** What `_send_raw_request` puts on the wire. */
  datatype Outgoing = Outgoing(verb: string, url: string, headers: HeaderList, body: string)

  /** The raw request's own client; redirects are not followed. */
  type RawServer = Outgoing -> Reply

  /** `_send_raw_request`: GET when the method (default GET) upper-cases to
      GET, otherwise POST with the body (default empty). */
  function Send(httpMethod: Option<string>, url: string, headers: HeaderList, body: Option<string>): (o: Outgoing)
    ensures o.url == url && o.headers == headers
    ensures o.verb == "GET" <==> Upper(httpMethod.GetOr("GET")) == "GET"
    ensures o.verb == "GET" ==> o.body == ""
    ensures o.verb != "GET" ==> o.verb == "POST" && o.body == body.GetOr("")
  {
    if Upper(httpMethod.GetOr("GET")) == "GET" then Outgoing("GET", url, headers, "")
    else Outgoing("POST", url, headers, body.GetOr(""))
  }

  /** `re.search(r'id=\d+|user_id=\d+', url)` */
  predicate HasNumericId(url: string) {
    HasDigitMatch(url, "id=") || HasDigitMatch(url, "user_id=")
  }

  /** The second alternative adds nothing: the expression matches exactly
      when `id=\d+` does. */
  lemma NumericIdIsIdMatch(url: string)
    ensures HasNumericId(url) <==> HasDigitMatch(url, "id=")
  {
    if HasDigitMatch(url, "user_id=") {
      var i := FirstDigitMatch(url, "user_id=", 0).value;
      SuffixLiteralMatches(url, "user_", "id=", i);
      assert DigitMatchAt(url, "id=", i + 5);
    }
  }

  const RawDescription: string := "IDOR detected - changing ID parameter returns different user data"
  const RawFix: string := "Implement proper authorization checks for object access"

  function RawIdorFinding(url: string, originalStatus: int, modifiedStatus: int): Finding {
    Finding("IDOR", Some("HIGH"), RawDescription, Some(url), StatusPair(originalStatus, modifiedStatus), [RawFix])
  }

  /** `test_raw_request(raw_req)`: a failed send escapes as an exception. */
  function RawOutcome(httpMethod: Option<string>, url: string, headers: HeaderList, body: Option<string>,
                      send: RawServer): Outcome
  {
    if !HasNumericId(url) then Completed([])
    else
      var original := send(Send(httpMethod, url, headers, body));
      if original.Fail? then Raised
      else
        var modified := send(Send(httpMethod, ModifiedUrl(url), headers, body));
        if modified.Fail? then Raised
        else if original.status == 200 && modified.status == 200 then
          Completed([RawIdorFinding(url, original.status, modified.status)])
        else Completed([])
  }

  method TestRawRequest(req: RawRequest, send: RawServer) returns (o: Outcome)
    modifies req`url
    ensures o == RawOutcome(req.httpMethod, old(req.url), req.headers, req.body, send)
    ensures req.url == if HasNumericId(old(req.url))
                          && send(Send(req.httpMethod, old(req.url), req.headers, req.body)).Ok?
                       then ModifiedUrl(old(req.url)) else old(req.url)
  {
    var url := req.url;
    if !HasNumericId(url) {
      return Completed([]);
    }
    var original := send(Send(req.httpMethod, req.url, req.headers, req.body));
    if original.Fail? {
      return Raised;
    }
    var modifiedReq := ModifyId(req);
    var modified := send(Send(modifiedReq.httpMethod, modifiedReq.url, modifiedReq.headers, modifiedReq.body));
    if modified.Fail? {
      return Raised;
    }
    if original.status == 200 && modified.status == 200 {
      o := Completed([RawIdorFinding(url, original.status, modified.status)]);
    } else {
      o := Completed([]);
    }
  }

  /** The raw rule reports at most once, only for a URL with a numeric id
      and both statuses 200, naming the original URL. */
  lemma RawRule(httpMethod: Option<string>, url: string, headers: HeaderList, body: Option<string>, send: RawServer)
    ensures var o := RawOutcome(httpMethod, url, headers, body, send);
      o.Completed? ==> |o.findings| <= 1
    ensures var o := RawOutcome(httpMethod, url, headers, body, send);
      (o.Completed? && |o.findings| == 1) <==>
        (&& HasDigitMatch(url, "id=")
         && send(Send(httpMethod, url, headers, body)).IsOk200()
         && send(Send(httpMethod, ModifiedUrl(url), headers, body)).IsOk200())
    ensures var o := RawOutcome(httpMethod, url, headers, body, send);
      o.Completed? && |o.findings| == 1 ==>
        o.findings[0] == RawIdorFinding(url, 200, 200)
  {
    NumericIdIsIdMatch(url);
  }

  /** The raw rule compares no bodies: two clients that agree on which
      requests fail and on every status give the same outcome. */
  lemma RawRuleIgnoresBodies(httpMethod: Option<string>, url: string, headers: HeaderList, body: Option<string>,
                             s1: RawServer, s2: RawServer)
    requires forall o: Outgoing :: s1(o).Ok? == s2(o).Ok? && (s1(o).Ok? ==> s1(o).status == s2(o).status)
    ensures RawOutcome(httpMethod, url, headers, body, s1) == RawOutcome(httpMethod, url, headers, body, s2)
  {
  }

  // ---------------------------------------------------------------------
  // `_test_single_idor`: mutate the first numeric id parameter.

  /** `urlparse(url)`, without the `params` and `fragment` parts the new URL
      drops. */
  datatype ParsedUrl = ParsedUrl(scheme: string, netloc: string, path: string, query: string)

  /** `parse_qs(...)`: each name with its values, in first-appearance order. */
  type Query = seq<(string, seq<string>)>

  /** The URL library functions the detector calls. */
  datatype UrlTools = UrlTools(
    urljoin: (string, string) -> string,
    urlparse: string -> ParsedUrl,
    parseQs: string -> Query,
    urlencode: Query -> string)

  const IdParams: seq<string> := ["id", "user_id", "account_id"]

  /** A parameter `_test_single_idor` may mutate. */
  predicate Mutable(entry: (string, seq<string>)) {
    entry.0 in IdParams && |entry.1| > 0 && IsDigits(entry.1[0])
  }

  /** Index of the first mutable parameter at or after `from`. */
  function FirstMutable(q: Query, from: nat): (r: Option<nat>)
    requires from <= |q|
    decreases |q| - from
    ensures r.Some? ==> from <= r.value < |q| && Mutable(q[r.value])
    ensures r.Some? ==> forall j :: from <= j < r.value ==> !Mutable(q[j])
    ensures r.None? ==> forall j :: from <= j < |q| ==> !Mutable(q[j])
  {
    if from == |q| then None
    else if Mutable(q[from]) then Some(from)
    else FirstMutable(q, from + 1)
  }

  /** The query with its first mutable parameter set to `[str(int(v) + 1)]`. */
  function MutatedQuery(q: Query): Option<Query> {
    match FirstMutable(q, 0)
    case None => None
    case Some(k) => Some(q[k := (q[k].0, [Decimal(Value(q[k].1[0]) + 1)])])
  }

  /** Only the first of `id`, `user_id`, `account_id` (in query order) whose
      first value is all digits changes, to the single value one more than
      it; every other parameter keeps its values. Without such a parameter
      there is no mutation. */
  lemma MutationChangesFirstIdOnly(q: Query)
    ensures MutatedQuery(q).None? <==> forall j :: 0 <= j < |q| ==> !Mutable(q[j])
    ensures MutatedQuery(q).Some? ==>
      var q' := MutatedQuery(q).value;
      exists k ::
        && 0 <= k < |q| && Mutable(q[k]) && (forall j :: 0 <= j < k ==> !Mutable(q[j]))
        && |q'| == |q| && q'[k].0 == q[k].0 && |q'[k].1| == 1 && IsDigits(q'[k].1[0])
        && Value(q'[k].1[0]) == Value(q[k].1[0]) + 1
        && (forall j :: 0 <= j < |q| && j != k ==> q'[j] == q[j])
  {
    if FirstMutable(q, 0).Some? {
      var k := FirstMutable(q, 0).value;
      ValueOfDecimal(Value(q[k].1[0]) + 1);
    }
  }

  /** The loop of `_test_single_idor` over the query, with its `break`. */
  method MutateQuery(q: Query) returns (query: Query, idFound: bool)
    ensures idFound <==> MutatedQuery(q).Some?
    ensures query == if idFound then MutatedQuery(q).value else q
  {
    query := q;
    idFound := false;
    var k := 0;
    while k < |q|
      invariant 0 <= k <= |q|
      invariant !idFound ==> query == q && FirstMutable(q, 0) == FirstMutable(q, k)
      invariant idFound ==> MutatedQuery(q) == Some(query)
      decreases if idFound then 0 else |q| - k + 1
    {
      var param := q[k];
      if param.0 in IdParams {
        var ids := param.1;
        if |ids| > 0 && IsDigits(ids[0]) {
          var newId := Decimal(Value(ids[0]) + 1);
          query := query[k := (param.0, [newId])];
          idFound := true;
          break;
        }
      }
      k := k + 1;
    }
  }

  /** `f"{scheme}://{netloc}{path}?{new_query}"` */
  function NewUrl(p: ParsedUrl, encodedQuery: string): string {
    p.scheme + "://" + p.netloc + p.path + "?" + encodedQuery
  }

  /** A request through the shared client that does not follow redirects. */
  function NoRedirect(url: string): Request {
    Request(url, [], false)
  }

  const LinkDescription: string := "Insecure Direct Object Reference - user can access other users' data by modifying ID parameter"
  const LinkFixes: seq<string> := ["Implement proper object-level authorization checks",
             "Use indirect references (UUIDs, hashes) instead of sequential IDs",
             "Validate user ownership before serving object data"]
  function LinkIdorFinding(url: string, newUrl: string): Finding {
    Finding("IDOR", Some("HIGH"), LinkDescription, Some(url), ProofOfConcept(url, newUrl, 200, 200), LinkFixes)
  }

  /** The mutated URL of `url`, when it has a mutable id parameter. */
  function MutatedUrl(url: string, tools: UrlTools): Option<string> {
    var parsed := tools.urlparse(url);
    match MutatedQuery(tools.parseQs(parsed.query))
    case None => None
    case Some(q) => Some(NewUrl(parsed, tools.urlencode(q)))
  }

  /** `_test_single_idor(url)`: every exception is swallowed into "no
      finding". */
  function SingleIdor(url: string, server: Server, tools: UrlTools): Option<Finding> {
    var first := server(NoRedirect(url));
    if !first.IsOk200() then None
    else match MutatedUrl(url, tools)
      case None => None
      case Some(newUrl) =>
        var second := server(NoRedirect(newUrl));
        if second.IsOk200() && first.body != second.body && |first.body| > 100 && |second.body| > 100
        then Some(LinkIdorFinding(url, newUrl))
        else None
  }

  method TestSingleIdor(url: string, server: Server, tools: UrlTools) returns (vuln: Option<Finding>)
    ensures vuln == SingleIdor(url, server, tools)
  {
    var resp1 := server(NoRedirect(url));
    if resp1.Fail? || resp1.status != 200 {
      return None;
    }
    var parsed := tools.urlparse(url);
    var query, idFound := MutateQuery(tools.parseQs(parsed.query));
    if !idFound {
      return None;
    }
    var newUrl := NewUrl(parsed, tools.urlencode(query));
    var resp2 := server(NoRedirect(newUrl));
    if resp2.Fail? {
      return None;
    }
    if resp2.status == 200 && resp1.body != resp2.body && |resp1.body| > 100 && |resp2.body| > 100 {
      vuln := Some(LinkIdorFinding(url, newUrl));
    } else {
      vuln := None;
    }
  }

  /** A link is reported exactly when the first answer is 200, an id was
      mutated, the second answer is 200, the bodies differ and both are
      longer than 100 characters. */
  lemma SingleIdorReportsExactly(url: string, server: Server, tools: UrlTools)
    ensures SingleIdor(url, server, tools).Some? <==>
      && server(NoRedirect(url)).IsOk200()
      && MutatedUrl(url, tools).Some?
      && var first, second := server(NoRedirect(url)), server(NoRedirect(MutatedUrl(url, tools).value));
         && second.IsOk200() && first.body != second.body && |first.body| > 100 && |second.body| > 100
    ensures SingleIdor(url, server, tools).Some? ==>
      SingleIdor(url, server, tools).value == LinkIdorFinding(url, MutatedUrl(url, tools).value)
  {
  }

  /** A server that answers the original and the mutated URL with the same
      body is never reported, whatever the statuses. */
  lemma IdenticalBodiesNeverReport(url: string, server: Server, tools: UrlTools)
    requires MutatedUrl(url, tools).Some?
    requires server(NoRedirect(url)).Ok? && server(NoRedirect(MutatedUrl(url, tools).value)).Ok?
    requires server(NoRedirect(url)).body == server(NoRedirect(MutatedUrl(url, tools).value)).body
    ensures SingleIdor(url, server, tools).None?
  {
  }

  // ---------------------------------------------------------------------
  // `_test_idor_patterns` and `scan_endpoint`.

  /** The captured group of a link match: the text between `href="` and
      the closing quote. */
  function LinkText(text: string, span: (nat, nat)): string
    requires span.0 + 6 < span.1 <= |text|
  {
    text[span.0 + 6..span.1 - 1]
  }

  /** `re.findall(r'href="([^"]*id=\d+[^"]*)"', text)` */
  function IdLinks(text: string): (links: seq<string>)
    ensures |links| == |FindAll(IdLink, text)|
  {
    var spans := FindAll(IdLink, text);
    seq(|spans|, k requires 0 <= k < |spans| => LinkText(text, spans[k]))
  }

  /** Every link found has no quote in it and holds `id=` and a digit. */
  lemma LinksHaveNumericId(text: string)
    ensures forall k :: 0 <= k < |IdLinks(text)| ==>
      HasDigitMatch(IdLinks(text)[k], "id=") && forall j :: 0 <= j < |IdLinks(text)[k]| ==> IdLinks(text)[k][j] != '"'
  {
    var spans := FindAll(IdLink, text);
    forall k | 0 <= k < |spans|
      ensures HasDigitMatch(IdLinks(text)[k], "id=")
      ensures forall j :: 0 <= j < |IdLinks(text)[k]| ==> IdLinks(text)[k][j] != '"'
    {
      LinkOfMatch(text, spans[k].0, spans[k].1);
    }
  }

  lemma LinkOfMatch(text: string, i: nat, end: nat)
    requires MatchAt(IdLink, text, i) == Some(end)
    ensures i + 6 < end <= |text|
    ensures HasDigitMatch(LinkText(text, (i, end)), "id=")
    ensures forall j :: 0 <= j < |LinkText(text, (i, end))| ==> LinkText(text, (i, end))[j] != '"'
  {
    var q := RunEnd(text, i + 6, NotQuote);
    assert end == q + 1;
    assert LinkText(text, (i, end)) == text[i + 6..q];
  }

  /** The findings of the tested links, in link order. */
  function LinkFindings(endpoint: string, links: seq<string>, server: Server, tools: UrlTools): (r: seq<Finding>)
    ensures |r| <= |links|
  {
    if links == [] then []
    else
      LinkFindings(endpoint, links[..|links| - 1], server, tools)
      + match SingleIdor(tools.urljoin(endpoint, links[|links| - 1]), server, tools)
        case None => []
        case Some(f) => [f]
  }

  function Min(a: nat, b: nat): nat {
    if a <= b then a else b
  }

  /** `_test_idor_patterns(endpoint, response_text)`: only the first three
      links are tested. */
  function PatternFindings(endpoint: string, text: string, server: Server, tools: UrlTools): seq<Finding> {
    var links := IdLinks(text);
    LinkFindings(endpoint, links[..Min(3, |links|)], server, tools)
  }

  method TestIdorPatterns(endpoint: string, responseText: string, server: Server, tools: UrlTools)
    returns (vulns: seq<Finding>)
    ensures vulns == PatternFindings(endpoint, responseText, server, tools)
  {
    var idMatches := IdLinks(responseText);
    var tested := idMatches[..Min(3, |idMatches|)];
    vulns := [];
    for k := 0 to |tested|
      invariant vulns == LinkFindings(endpoint, tested[..k], server, tools)
    {
      var fullUrl := tools.urljoin(endpoint, tested[k]);
      var vuln := TestSingleIdor(fullUrl, server, tools);
      LinkFindingsStep(endpoint, tested, k, server, tools);
      if vuln.Some? {
        vulns := vulns + [vuln.value];
      }
    }
    assert tested[..|tested|] == tested;
  }

  lemma LinkFindingsStep(endpoint: string, links: seq<string>, k: nat, server: Server, tools: UrlTools)
    requires k < |links|
    ensures LinkFindings(endpoint, links[..k + 1], server, tools)
         == LinkFindings(endpoint, links[..k], server, tools)
            + match SingleIdor(tools.urljoin(endpoint, links[k]), server, tools)
              case None => []
              case Some(f) => [f]
  {
    assert links[..k + 1][..k] == links[..k];
  }

  /** `scan_endpoint(endpoint)`: a failed fetch yields no findings. */
  function EndpointFindings(endpoint: string, server: Server, tools: UrlTools): seq<Finding> {
    match server(Get(endpoint))
    case Fail(_) => []
    case Ok(_, _, body) => PatternFindings(endpoint, body, server, tools)
  }

  method ScanEndpoint(endpoint: string, server: Server, tools: UrlTools) returns (vulnerabilities: seq<Finding>)
    ensures vulnerabilities == EndpointFindings(endpoint, server, tools)
  {
    vulnerabilities := [];
    var resp := server(Get(endpoint));
    if resp.Ok? {
      var vulns := TestIdorPatterns(endpoint, resp.body, server, tools);
      vulnerabilities := vulnerabilities + vulns;
    }
  }

  /** At most three findings per endpoint, each an IDOR finding. */
  lemma AtMostThreePerEndpoint(endpoint: string, server: Server, tools: UrlTools)
    ensures |EndpointFindings(endpoint, server, tools)| <= 3
    ensures forall f :: f in EndpointFindings(endpoint, server, tools) ==> f.kind == "IDOR" && f.severity == Some("HIGH")
  {
    match server(Get(endpoint))
    case Fail(_) =>
    case Ok(_, _, body) =>
      var links := IdLinks(body);
      LinkFindingsAreIdor(endpoint, links[..Min(3, |links|)], server, tools);
  }

  lemma {:induction false} LinkFindingsAreIdor(endpoint: string, links: seq<string>, server: Server, tools: UrlTools)
    ensures forall f :: f in LinkFindings(endpoint, links, server, tools) ==> f.kind == "IDOR" && f.severity == Some("HIGH")
  {
    if links != [] {
      LinkFindingsAreIdor(endpoint, links[..|links| - 1], server, tools);
    }
  }

  // ---------------------------------------------------------------------
  // `_test_idor_patterns` as written: `urljoin` is called but never imported

  /** As written, the first tested link makes `urljoin` raise NameError;
      a page without links completes with no findings. */
  function PatternOutcomeAsWritten(text: string): Outcome {
    if IdLinks(text) == [] then Completed([]) else Raised
  }

  /** `scan_endpoint` as written: the bare `except` swallows the NameError. */
  function EndpointFindingsAsWritten(endpoint: string, server: Server): seq<Finding> {
    match server(Get(endpoint))
    case Fail(_) => []
    case Ok(_, _, body) => PatternOutcomeAsWritten(body).Yield()
  }

  /** As written, no endpoint ever reports an IDOR finding, while with
      `urljoin` imported a page whose first id link answers the IDOR test
      is reported. */
  lemma UnimportedUrljoinHidesIdor(endpoint: string, server: Server, tools: UrlTools)
    ensures EndpointFindingsAsWritten(endpoint, server) == []
    ensures (server(Get(endpoint)).Ok? && IdLinks(server(Get(endpoint)).body) != []
             && SingleIdor(tools.urljoin(endpoint, IdLinks(server(Get(endpoint)).body)[0]), server, tools).Some?)
            ==> EndpointFindings(endpoint, server, tools) != []
  {
    var resp := server(Get(endpoint));
    if resp.Ok? && IdLinks(resp.body) != [] {
      var links := IdLinks(resp.body);
      var tested := links[..Min(3, |links|)];
      assert tested[0] == links[0];
      if SingleIdor(tools.urljoin(endpoint, tested[0]), server, tools).Some? {
        FirstLinkReported(endpoint, tested, server, tools);
      }
    }
  }

  /** A first link that answers the IDOR test heads the findings. */
  lemma {:induction false} FirstLinkReported(endpoint: string, links: seq<string>, server: Server, tools: UrlTools)
    requires links != [] && SingleIdor(tools.urljoin(endpoint, links[0]), server, tools).Some?
    ensures LinkFindings(endpoint, links, server, tools) != []
    ensures LinkFindings(endpoint, links, server, tools)[0] == SingleIdor(tools.urljoin(endpoint, links[0]), server, tools).value
  {
    if |links| > 1 {
      var init := links[..|links| - 1];
      assert init[0] == links[0];
      FirstLinkReported(endpoint, init, server, tools);
    }
  }
}
