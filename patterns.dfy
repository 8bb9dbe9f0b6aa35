/** The regular expressions of the detectors, modelled on their matching
    semantics: where a match starts, how far it extends, and how `re.findall`
    and `re.search`/`re.sub(..., count=1)` pick matches (leftmost first,
    non-overlapping, left to right). */
module Patterns {
  import opened Common
  import opened Text

  /** Character classes used by the expressions. */
  datatype CharClass =
    | Digit      // \d (ASCII)
    | Base64Url  // [A-Za-z0-9-_]: after the range 0-9 the '-' is a literal
    | NotQuote   // [^"]

  predicate InClass(c: char, cls: CharClass) {
    match cls
    case Digit => IsDigit(c)
    case Base64Url => 'A' <= c <= 'Z' || 'a' <= c <= 'z' || '0' <= c <= '9' || c == '-' || c == '_'
    case NotQuote => c != '"'
  }

  /** End of the longest run of `cls` characters starting at `i`. */
  function RunEnd(text: string, i: nat, cls: CharClass): (e: nat)
    requires i <= |text|
    decreases |text| - i
    ensures i <= e <= |text|
    ensures forall j :: i <= j < e ==> InClass(text[j], cls)
    ensures e == |text| || !InClass(text[e], cls)
  {
    if i == |text| || !InClass(text[i], cls) then i else RunEnd(text, i + 1, cls)
  }

  /** `lit(\d+)` can match at `i`: the literal, then at least one digit. */
  predicate DigitMatchAt(s: string, lit: string, i: nat) {
    i + |lit| < |s| && s[i..i + |lit|] == lit && IsDigit(s[i + |lit|])
  }

  /** Start of the leftmost match of `lit(\d+)` at or after `from`. */
  function FirstDigitMatch(s: string, lit: string, from: nat): (r: Option<nat>)
    requires from <= |s|
    decreases |s| - from
    ensures r.Some? ==> from <= r.value && DigitMatchAt(s, lit, r.value)
    ensures r.Some? ==> forall j :: from <= j < r.value ==> !DigitMatchAt(s, lit, j)
    ensures r.None? ==> forall j :: from <= j ==> !DigitMatchAt(s, lit, j)
  {
    if from + |lit| >= |s| then None
    else if DigitMatchAt(s, lit, from) then Some(from)
    else FirstDigitMatch(s, lit, from + 1)
  }

  /** `re.search(lit + r'\d+', s)` succeeds. */
  predicate HasDigitMatch(s: string, lit: string) {
    FirstDigitMatch(s, lit, 0).Some?
  }

  /** A longer literal ending in `lit` can only match where `lit` matches:
      every match of `user_id=\d+` contains a match of `id=\d+`. */
  lemma SuffixLiteralMatches(s: string, pre: string, lit: string, i: nat)
    requires DigitMatchAt(s, pre + lit, i)
    ensures DigitMatchAt(s, lit, i + |pre|)
  {
    assert s[i + |pre|..i + |pre| + |lit|] == s[i..i + |pre| + |lit|][|pre|..];
  }

  /** The two expressions whose matches `re.findall` collects. */
  datatype Pattern =
    | JwtToken  // eyJ[A-Za-z0-9-_]+?\.[A-Za-z0-9-_]*?\.[A-Za-z0-9-_]*
    | IdLink    // href="([^"]*id=\d+[^"]*)"

  /** End of the match of `p` that starts at `i`, if one does. Both lazy
      quantifiers of the token expression are forced to stop at the first
      dot, because the dot is outside their class; the last segment is
      greedy. The link expression can only close at the first quote after
      `href="`, and the quoted text must hold `id=` followed by a digit. */
  function MatchAt(p: Pattern, text: string, i: nat): (r: Option<nat>)
    ensures r.Some? ==> i < r.value <= |text|
    ensures p.IdLink? && r.Some? ==> i + 6 < r.value
  {
    match p
    case JwtToken =>
      if i + 3 <= |text| && text[i..i + 3] == "eyJ" then
        var a := RunEnd(text, i + 3, Base64Url);
        if a > i + 3 && a < |text| && text[a] == '.' then
          var b := RunEnd(text, a + 1, Base64Url);
          if b < |text| && text[b] == '.' then Some(RunEnd(text, b + 1, Base64Url)) else None
        else None
      else None
    case IdLink =>
      if i + 6 <= |text| && text[i..i + 6] == "href=\"" then
        var q := RunEnd(text, i + 6, NotQuote);
        if q < |text| && HasDigitMatch(text[i + 6..q], "id=") then Some(q + 1) else None
      else None
  }

  /** Where each match of `p` in `text` ends, indexed by its start. */
  function MatchTable(p: Pattern, text: string): (t: seq<Option<nat>>)
    ensures |t| == |text|
    ensures forall i :: 0 <= i < |text| ==> t[i] == MatchAt(p, text, i)
    ensures Table(t)
  {
    seq(|text|, i requires 0 <= i < |text| => MatchAt(p, text, i))
  }

  /** A match table: every match ends after its start and within the text. */
  predicate Table(t: seq<Option<nat>>) {
    forall i :: 0 <= i < |t| && t[i].Some? ==> i < t[i].value <= |t|
  }

  predicate NoMatchIn(t: seq<Option<nat>>, a: nat, b: nat) {
    forall i :: a <= i < b && i < |t| ==> t[i].None?
  }

  /** Every span is a match inside t[from..]. */
  predicate AreMatches(t: seq<Option<nat>>, from: nat, spans: seq<(nat, nat)>) {
    forall k :: 0 <= k < |spans| ==>
      from <= spans[k].0 < spans[k].1 <= |t| && t[spans[k].0] == Some(spans[k].1)
  }

  /** Spans are in left-to-right order and do not overlap. */
  predicate Ascending(spans: seq<(nat, nat)>) {
    forall k :: 0 <= k < |spans| - 1 ==> spans[k].1 <= spans[k + 1].0
  }

  /** No match starts at a position the scan steps over: before the first
      span, between two spans, or after the last one. */
  predicate Leftmost(t: seq<Option<nat>>, from: nat, spans: seq<(nat, nat)>) {
    && NoMatchIn(t, from, if spans == [] then |t| else spans[0].0)
    && (forall k :: 0 <= k < |spans| - 1 ==> NoMatchIn(t, spans[k].1, spans[k + 1].0))
    && (spans != [] ==> NoMatchIn(t, spans[|spans| - 1].1, |t|))
  }

  /** The scan of `re.findall` over a match table: try each position from
      `from`; on a match, record it and resume where it ends. */
  function Spans(t: seq<Option<nat>>, from: nat): (spans: seq<(nat, nat)>)
    requires Table(t) && from <= |t|
    decreases |t| - from
    ensures AreMatches(t, from, spans)
    ensures Ascending(spans)
    ensures Leftmost(t, from, spans)
  {
    if from == |t| then []
    else match t[from]
      case Some(e) =>
        var rest := Spans(t, e);
        TakeMatch(t, from, e, rest);
        [(from, e)] + rest
      case None =>
        var rest := Spans(t, from + 1);
        rest
  }

  lemma TakeMatch(t: seq<Option<nat>>, from: nat, e: nat, rest: seq<(nat, nat)>)
    requires from < e <= |t| && t[from] == Some(e)
    requires AreMatches(t, e, rest) && Ascending(rest) && Leftmost(t, e, rest)
    ensures AreMatches(t, from, [(from, e)] + rest)
    ensures Ascending([(from, e)] + rest)
    ensures Leftmost(t, from, [(from, e)] + rest)
  {
    var spans := [(from, e)] + rest;
    forall k | 1 <= k < |spans| - 1 ensures NoMatchIn(t, spans[k].1, spans[k + 1].0) {
      assert spans[k] == rest[k - 1] && spans[k + 1] == rest[k];
    }
  }

  /** `re.findall(p, text)` as (start, end) spans of the whole matches. */
  function FindAll(p: Pattern, text: string): (spans: seq<(nat, nat)>)
    ensures forall k :: 0 <= k < |spans| ==>
      spans[k].0 < spans[k].1 <= |text| && MatchAt(p, text, spans[k].0) == Some(spans[k].1)
    ensures Ascending(spans)
    ensures Leftmost(MatchTable(p, text), 0, spans)
  {
    Spans(MatchTable(p, text), 0)
  }
}
