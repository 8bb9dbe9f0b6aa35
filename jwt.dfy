/** The JWT detector: tokens found in the target's page, the header of the
    token re-assembled without its signature, and the algorithm rules. */
module Jwt {
  import opened Common
  import opened Patterns

  // ---------------------------------------------------------------------
  // Tokens in a page.

  /** `re.findall(r'eyJ[A-Za-z0-9-_]+?\.[A-Za-z0-9-_]*?\.[A-Za-z0-9-_]*', text)` */
  function Tokens(text: string): (tokens: seq<string>)
    ensures |tokens| == |FindAll(JwtToken, text)|
  {
    var spans := FindAll(JwtToken, text);
    seq(|spans|, k requires 0 <= k < |spans| => text[spans[k].0..spans[k].1])
  }

  /** `t` is `eyJ`, base64url characters with exactly two dots, at `a` and
      `b`, and at least one character between `eyJ` and the first dot. */
  predicate TwoDots(t: string, a: nat, b: nat) {
    && 3 < a < b < |t| && t[..3] == "eyJ" && t[a] == '.' && t[b] == '.'
    && forall j :: 0 <= j < |t| && j != a && j != b ==> InClass(t[j], Base64Url)
  }

  /** Every token found has the shape of a JWT, and its last segment is as
      long as the page allows. */
  lemma TokenShape(text: string, k: nat)
    requires k < |FindAll(JwtToken, text)|
    ensures exists a, b :: TwoDots(Tokens(text)[k], a, b)
    ensures var e := FindAll(JwtToken, text)[k].1; e == |text| || !InClass(text[e], Base64Url)
  {
    var span := FindAll(JwtToken, text)[k];
    assert Tokens(text)[k] == text[span.0..span.1];
    MatchShape(text, span.0, span.1);
  }

  lemma MatchShape(text: string, i: nat, e: nat)
    requires MatchAt(JwtToken, text, i) == Some(e)
    ensures i < e <= |text|
    ensures exists a, b :: TwoDots(text[i..e], a, b)
    ensures e == |text| || !InClass(text[e], Base64Url)
  {
    var a := RunEnd(text, i + 3, Base64Url);
    var b := RunEnd(text, a + 1, Base64Url);
    assert e == RunEnd(text, b + 1, Base64Url);
    var t := text[i..e];
    assert t[..3] == text[i..i + 3] == "eyJ";
    forall j | 0 <= j < |t| && j != a - i && j != b - i
      ensures InClass(t[j], Base64Url)
    {
      assert t[j] == text[i + j];
      if j < 3 {
        assert t[j] == "eyJ"[j];
      }
    }
    assert TwoDots(t, a - i, b - i);
  }

  // ---------------------------------------------------------------------
  // The token without its signature.

  /** Index of the last `c` in `s`. */
  function LastIndex(s: string, c: char): (r: Option<nat>)
    ensures r.Some? ==> r.value < |s| && s[r.value] == c && forall j :: r.value < j < |s| ==> s[j] != c
    ensures r.None? ==> forall j :: 0 <= j < |s| ==> s[j] != c
  {
    if s == [] then None
    else if s[|s| - 1] == c then Some(|s| - 1)
    else LastIndex(s[..|s| - 1], c)
  }

  /** `s.rsplit('.', 2)` */
  function RSplit(s: string): (parts: seq<string>)
    ensures 1 <= |parts| <= 3
  {
    match LastIndex(s, '.')
    case None => [s]
    case Some(j) =>
      match LastIndex(s[..j], '.')
      case None => [s[..j], s[j + 1..]]
      case Some(i) => [s[..i], s[i + 1..j], s[j + 1..]]
  }

  /** `'.'.join(parts)` */
  function Join(parts: seq<string>): string {
    if parts == [] then "" else if |parts| == 1 then parts[0] else parts[0] + "." + Join(parts[1..])
  }

  lemma JoinThree(x: string, y: string, z: string)
    ensures Join([x, y, z]) == x + "." + y + "." + z
  {
    assert [x, y, z][1..] == [y, z];
    assert [y, z][1..] == [z];
    assert Join([z]) == z;
    assert Join([y, z]) == y + "." + z;
    assert Join([x, y, z]) == x + "." + (y + "." + z);
    Associative(x + ".", y + ".", z);
    Associative(x + ".", y, ".");
  }

  /** Splitting from the right and joining again gives the text back; the
      trailing parts hold no dot, and neither does the first part unless
      there are three parts. */
  lemma JoinRSplit(s: string)
    ensures Join(RSplit(s)) == s
    ensures forall k :: 1 <= k < |RSplit(s)| ==> forall j :: 0 <= j < |RSplit(s)[k]| ==> RSplit(s)[k][j] != '.'
    ensures |RSplit(s)| < 3 ==> forall j :: 0 <= j < |RSplit(s)[0]| ==> RSplit(s)[0][j] != '.'
  {
    match LastIndex(s, '.')
    case None =>
    case Some(j) =>
      assert s == s[..j] + "." + s[j + 1..];
      match LastIndex(s[..j], '.')
      case None =>
        assert [s[..j], s[j + 1..]][1..] == [s[j + 1..]];
      case Some(i) =>
        assert s[..j] == s[..i] + "." + s[i + 1..j];
        JoinThree(s[..i], s[i + 1..j], s[j + 1..]);
  }

  /** `'.'.join(token.rsplit('.', 2)[:2] + ['.'])` */
  function NoneToken(token: string): string {
    var parts := RSplit(token);
    Join(parts[..if |parts| < 2 then |parts| else 2] + ["."])
  }

  /** With two dots or more, the token loses what follows its last dot and
      ends in two dots instead. */
  lemma NoneTokenDropsSignature(t: string, a: nat, b: nat)
    requires a < b < |t| && t[a] == '.' && t[b] == '.'
    requires forall j :: a < j < |t| && j != b ==> t[j] != '.'
    ensures NoneToken(t) == t[..b] + ".."
  {
    assert LastIndex(t, '.') == Some(b);
    assert LastIndex(t[..b], '.') == Some(a);
    assert RSplit(t) == [t[..a], t[a + 1..b], t[b + 1..]];
    assert RSplit(t)[..2] + ["."] == [t[..a], t[a + 1..b], "."];
    JoinThree(t[..a], t[a + 1..b], ".");
    assert t[..b] == t[..a] + "." + t[a + 1..b];
  }

  /** A JWT-shaped token reaches the decoder as its header and payload
      followed by two dots: its signature is cut off. */
  lemma ShapedTokenLosesSignature(t: string, a: nat, b: nat)
    requires TwoDots(t, a, b)
    ensures NoneToken(t) == t[..b] + ".."
  {
    forall j | a < j < |t| && j != b
      ensures t[j] != '.'
    {
      assert InClass(t[j], Base64Url);
    }
    NoneTokenDropsSignature(t, a, b);
  }

  /** So does every token found in a page. */
  lemma FoundTokenLosesSignature(text: string, k: nat)
    requires k < |FindAll(JwtToken, text)|
    ensures exists a: nat, b: nat :: TwoDots(Tokens(text)[k], a, b) && NoneToken(Tokens(text)[k]) == Tokens(text)[k][..b] + ".."
  {
    TokenShape(text, k);
    var t := Tokens(text)[k];
    var a, b :| TwoDots(t, a, b);
    ShapedTokenLosesSignature(t, a, b);
  }

  /** Any two tokens that differ only in their signature analyse alike: the
      signature never reaches the header decoder. */
  lemma SignatureIrrelevant(head: string, payload: string, sig1: string, sig2: string)
    requires forall j :: 0 <= j < |payload| ==> payload[j] != '.'
    requires forall j :: 0 <= j < |sig1| ==> sig1[j] != '.'
    requires forall j :: 0 <= j < |sig2| ==> sig2[j] != '.'
    ensures NoneToken(head + "." + payload + "." + sig1) == head + "." + payload + ".."
    ensures NoneToken(head + "." + payload + "." + sig1) == NoneToken(head + "." + payload + "." + sig2)
  {
    Dropped(head, payload, sig1);
    Dropped(head, payload, sig2);
  }

  lemma Dropped(head: string, payload: string, sig: string)
    requires forall j :: 0 <= j < |payload| ==> payload[j] != '.'
    requires forall j :: 0 <= j < |sig| ==> sig[j] != '.'
    ensures NoneToken(head + "." + payload + "." + sig) == head + "." + payload + ".."
  {
    var t := head + "." + payload + "." + sig;
    var a, b := |head|, |head| + 1 + |payload|;
    assert t[..b] == head + "." + payload;
    forall j | a < j < |t| && j != b
      ensures t[j] != '.'
    {
      if j < b {
        assert t[j] == payload[j - a - 1];
      } else {
        assert t[j] == sig[j - b - 1];
      }
    }
    NoneTokenDropsSignature(t, a, b);
  }

  // ---------------------------------------------------------------------
  // The algorithm rules.

  /** What `jwt.get_unverified_header` yields that the rules read: the
      `alg` entry when it is a string. */
  datatype JoseHeader = JoseHeader(alg: Option<string>)

  /** The header decoder; None where it raises. */
  type Decoder = string -> Option<JoseHeader>

  const WeakAlgorithms: seq<string> := ["HS256", "HS384", "HS512"]

  const NoneAlgDescription: string := "JWT uses 'none' algorithm - completely insecure"
  const NoneAlgFix: string := "Never allow 'none' algorithm. Validate JWT signature"
  const WeakAlgPrefix: string := "JWT uses symmetric algorithm ("
  const WeakAlgSuffix: string := ") - vulnerable to secret extraction"
  const WeakAlgFix: string := "Use asymmetric algorithms (RS256, ES256) with proper key management"

  function NoneAlgFinding(): Finding {
    Finding("JWT_NONE_ALG", Some("CRITICAL"), NoneAlgDescription, None, NoEvidence, [NoneAlgFix])
  }

  function WeakAlgFinding(alg: string): Finding {
    Finding("JWT_WEAK_ALG", Some("HIGH"), WeakAlgPrefix + alg + WeakAlgSuffix, None, NoEvidence, [WeakAlgFix])
  }

  /** `_analyze_jwt(token)`: a decoding failure yields no issue. */
  function AnalyzeJwt(token: string, decode: Decoder): seq<Finding> {
    match decode(NoneToken(token))
    case None => []
    case Some(header) =>
      (if header.alg == Some("none") then [NoneAlgFinding()] else [])
      + (if header.alg.Some? && header.alg.value in WeakAlgorithms then [WeakAlgFinding(header.alg.value)] else [])
  }

  /** A token raises at most one issue: CRITICAL exactly for `none`, HIGH
      exactly for the three HMAC algorithms, nothing otherwise. */
  lemma AnalyzeJwtRules(token: string, decode: Decoder)
    ensures |AnalyzeJwt(token, decode)| <= 1
    ensures AnalyzeJwt(token, decode) == [NoneAlgFinding()] <==>
      decode(NoneToken(token)).Some? && decode(NoneToken(token)).value.alg == Some("none")
    ensures (exists alg :: AnalyzeJwt(token, decode) == [WeakAlgFinding(alg)]) <==>
      && decode(NoneToken(token)).Some? && decode(NoneToken(token)).value.alg.Some?
      && decode(NoneToken(token)).value.alg.value in WeakAlgorithms
    ensures AnalyzeJwt(token, decode) == [] <==>
      decode(NoneToken(token)).None? || var alg := decode(NoneToken(token)).value.alg;
        alg.None? || (alg.value != "none" && alg.value !in WeakAlgorithms)
  {
    match decode(NoneToken(token))
    case None =>
    case Some(header) =>
      assert NoneAlgFinding() != WeakAlgFinding(header.alg.GetOr(""));
      if header.alg.Some? && header.alg.value in WeakAlgorithms {
        assert AnalyzeJwt(token, decode) == [WeakAlgFinding(header.alg.value)];
      }
  }

  // ---------------------------------------------------------------------
  // `scan`

  /** The issues of the token list, in token order. */
  function TokenFindings(tokens: seq<string>, decode: Decoder): seq<Finding> {
    if tokens == [] then []
    else TokenFindings(tokens[..|tokens| - 1], decode) + AnalyzeJwt(tokens[|tokens| - 1], decode)
  }

  lemma TokenFindingsSnoc(tokens: seq<string>, k: nat, decode: Decoder)
    requires k < |tokens|
    ensures TokenFindings(tokens[..k + 1], decode) == TokenFindings(tokens[..k], decode) + AnalyzeJwt(tokens[k], decode)
  {
    assert tokens[..k + 1][..k] == tokens[..k];
  }

  /** `scan(target, client)`: a failed fetch escapes; `_test_jwt_attacks`
      adds nothing, since its loop body is empty. */
  function ScanOutcome(target: string, server: Server, decode: Decoder): Outcome {
    match server(Get(target))
    case Fail(_) => Raised
    case Ok(_, _, body) => Completed(TokenFindings(Tokens(body), decode))
  }

  method Scan(target: string, server: Server, decode: Decoder) returns (o: Outcome)
    ensures o == ScanOutcome(target, server, decode)
  {
    var resp := server(Get(target));
    if resp.Fail? {
      return Raised;
    }
    var jwtMatches := Tokens(resp.body);
    var vulns: seq<Finding> := [];
    for k := 0 to |jwtMatches|
      invariant vulns == TokenFindings(jwtMatches[..k], decode)
    {
      var issues := AnalyzeJwt(jwtMatches[k], decode);
      TokenFindingsSnoc(jwtMatches, k, decode);
      vulns := vulns + issues;
    }
    assert jwtMatches[..|jwtMatches|] == jwtMatches;
    o := Completed(vulns);
  }

  /** At most one issue per token and every issue is one of the two
      algorithm findings. */
  lemma {:induction false} TokenFindingsBound(tokens: seq<string>, decode: Decoder)
    ensures |TokenFindings(tokens, decode)| <= |tokens|
    ensures forall f :: f in TokenFindings(tokens, decode) ==>
      (f.kind == "JWT_NONE_ALG" && f.severity == Some("CRITICAL")) || (f.kind == "JWT_WEAK_ALG" && f.severity == Some("HIGH"))
  {
    if tokens != [] {
      TokenFindingsBound(tokens[..|tokens| - 1], decode);
      AnalyzeJwtRules(tokens[|tokens| - 1], decode);
    }
  }

  /** A page without `eyJ` holds no token, so the scan reports nothing. */
  lemma NoTokenNoFinding(target: string, server: Server, decode: Decoder)
    requires server(Get(target)).Ok?
    requires forall i :: 0 <= i < |server(Get(target)).body| ==> MatchAt(JwtToken, server(Get(target)).body, i).None?
    ensures ScanOutcome(target, server, decode) == Completed([])
  {
    var body := server(Get(target)).body;
    if FindAll(JwtToken, body) != [] {
      FirstSpanMatches(body);
      assert false;
    }
  }

  lemma FirstSpanMatches(text: string)
    requires FindAll(JwtToken, text) != []
    ensures MatchAt(JwtToken, text, FindAll(JwtToken, text)[0].0).Some?
  {
  }
}
