/** The evidence model shared by every detector: findings, probe outcomes, and
    the HTTP request/reply values that stand in for the scanner's network
    traffic. Replies are inputs to the model, never effects. */
module Common {

  datatype Option<+T> = None | Some(value: T) {
    function GetOr(default: T): T {
      match this
      case Some(v) => v
      case None => default
    }
  }

  /** Structured proof-of-concept data attached to a finding; one variant per
      shape of extra keys the detectors put into their finding dictionaries. */
  datatype Evidence =
    | NoEvidence
      /** MISSING_SECURITY_HEADER: the "header" key */
    | HeaderName(header: string)
      /** INCORRECT_HEADER_VALUE: the "expected" and "actual" keys */
    | ValueMismatch(expected: string, actual: string)
      /** AUTH_BYPASS: the "parameters" key */
    | Parameters(params: seq<(string, string)>)
      /** IDOR on a raw request: the "evidence" key */
    | StatusPair(originalStatus: int, modifiedStatus: int)
      /** IDOR on a crawled link: the "proof_of_concept" key */
    | ProofOfConcept(original: string, modified: string, originalStatus: int, modifiedStatus: int)

  /** One finding dictionary. `severity` is optional because the summary reads
      it with a default; every detector sets it. `fix` is empty when the
      dictionary has no fix key, one element for "fix", several for
      "fix_recommendations". */
  datatype Finding = Finding(
    kind: string,
    severity: Option<string>,
    description: string,
    endpoint: Option<string>,
    evidence: Evidence,
    fix: seq<string>)

  /** What a detector (or one of its sub-tests) yields: its findings, or an
      exception that escaped it. */
  datatype Outcome = Completed(findings: seq<Finding>) | Raised {
    /** What an outcome contributes when the caller swallows the exception. */
    function Yield(): seq<Finding> {
      if Completed? then findings else []
    }
  }

  /** Prefixes findings to an outcome; an exception stays an exception. */
  function Prepend(xs: seq<Finding>, o: Outcome): (r: Outcome)
    ensures r.Raised? <==> o.Raised?
    ensures r.Completed? ==> r.findings == xs + o.findings
  {
    match o
    case Raised => Raised
    case Completed(fs) => Completed(xs + fs)
  }

  type HeaderList = seq<(string, string)>

  /** A GET issued through the scanner's shared client: URL, query parameters
      added by the client, and whether redirects are followed. */
  datatype Request = Request(url: string, params: seq<(string, string)>, followRedirects: bool)

  /** The client's answer: a response, or the exception the client raised
      (unreachable host, timeout, TLS failure). */
  datatype Reply = Ok(status: int, headers: HeaderList, body: string) | Fail(error: string) {
    predicate IsOk200() {
      Ok? && status == 200
    }
  }

  /** The server as the scanner sees it: a reply for every request. */
  type Server = Request -> Reply

  /** A plain GET through the shared client, which follows redirects. */
  function Get(url: string): Request {
    Request(url, [], true)
  }

  lemma Associative<T>(a: seq<T>, b: seq<T>, c: seq<T>)
    ensures a + (b + c) == a + b + c
  {
  }

  lemma DropTail<T>(a: seq<T>, b: seq<T>, m: nat)
    requires m <= |b|
    ensures (a + b)[..|a + b| - m] == a + b[..|b| - m]
  {
  }
}
