/**
 * The request checks of pkg/httpclient/secure_client.go. `url.Parse` is an
 * input (its parsed scheme, host and hostname, or None when it fails), and so
 * is the outcome of `http.Client.Do`. `http.Header.Set` stores each key in the
 * canonical form of Go's net/textproto (`CanonicalMIMEHeaderKey`), which is
 * modelled because it decides which caller header a fixed default overwrites.
 */
module SecureClient {
  import opened Common

  const MaxHeaderKeyLength: nat := 100
  const MaxHeaderValueLength: nat := 1000
  const UserAgentKey := "User-Agent"
  const UserAgentValue := "DroneDispatch/1.0"
  const AcceptKey := "Accept"
  const AcceptValue := "application/json"

  datatype ParsedUrl = ParsedUrl(scheme: string, host: string, hostname: string)

  datatype ClientError =
    | UrlParseFailed
    | UnsupportedScheme(scheme: string)
    | EmptyHost
    | InvalidMethod(verb: string)
    | HeaderInjection
    | HeaderTooLong
    | TransportFailed

  /** The request handed to the transport. */
  datatype Request = Request(verb: string, url: ParsedUrl, header: map<string, string>)

  // ---------------------------------------------------------------------------
  // validateHeader

  predicate HasLineBreak(s: string) {
    '\r' in s || '\n' in s
  }

  /** `validateHeader`: no CR or LF anywhere, key at most 100 bytes, value at most 1000. */
  function ValidateHeader(key: string, value: string): (r: Outcome<ClientError>)
    ensures r.Pass? <==> !HasLineBreak(key) && !HasLineBreak(value) &&
                         |key| <= MaxHeaderKeyLength && |value| <= MaxHeaderValueLength
    ensures HasLineBreak(key) || HasLineBreak(value) ==> r == Fail(HeaderInjection)
  {
    if HasLineBreak(key) || HasLineBreak(value) then Fail(HeaderInjection)
    else if |key| > MaxHeaderKeyLength || |value| > MaxHeaderValueLength then Fail(HeaderTooLong)
    else Pass
  }

  // ---------------------------------------------------------------------------
  // isPrivateIP

  /** The prefix list of `isPrivateIP`, in its order. */
  const PrivateRanges: seq<string> := [
    "127.",
    "10.",
    "172.16.", "172.17.", "172.18.", "172.19.",
    "172.20.", "172.21.", "172.22.", "172.23.",
    "172.24.", "172.25.", "172.26.", "172.27.",
    "172.28.", "172.29.", "172.30.", "172.31.",
    "192.168.",
    "localhost"
  ]

  /** Reference definition: the host starts with one of the listed prefixes. */
  predicate PrivateHost(host: string) {
    exists i | 0 <= i < |PrivateRanges| :: PrivateRanges[i] <= host
  }

  /** `isPrivateIP`: a linear search of the prefix list. */
  method IsPrivateIP(host: string) returns (r: bool)
    ensures r == PrivateHost(host)
  {
    for i := 0 to |PrivateRanges|
      invariant forall j | 0 <= j < i :: !(PrivateRanges[j] <= host)
    {
      if PrivateRanges[i] <= host {
        return true;
      }
    }
    return false;
  }

  /** 172.16.0.0/12 is covered, its neighbours and other public addresses are not. */
  lemma PrivateHostExamples()
    ensures PrivateHost("172.31.0.1")
    ensures PrivateHost("localhost.example.com")
    ensures !PrivateHost("172.15.0.1")
    ensures !PrivateHost("100.1.1.1")
  {
    assert PrivateRanges[17] <= "172.31.0.1";
    assert PrivateRanges[19] <= "localhost.example.com";
    var a := "172.15.0.1";
    forall i | 0 <= i < |PrivateRanges| ensures !(PrivateRanges[i] <= a) {
      var p := PrivateRanges[i];
      if i < 2 || i == 18 || i == 19 {
        assert p[0] != a[0] || p[1] != a[1];
      } else {
        assert p[4] != a[4] || p[5] != a[5];
      }
    }
    var b := "100.1.1.1";
    forall i | 0 <= i < |PrivateRanges| ensures !(PrivateRanges[i] <= b) {
      var p := PrivateRanges[i];
      if i == 1 {
        assert p[2] != b[2];
      } else {
        assert p[0] != b[0] || p[1] != b[1];
      }
    }
  }

  // ---------------------------------------------------------------------------
  // validateURL

  /**
   * `validateURL` on the result of `url.Parse`. The private-address test of
   * the source is evaluated and its result discarded, so it is absent here.
   */
  function ValidateURL(parsed: Option<ParsedUrl>): (r: Outcome<ClientError>)
    ensures r.Pass? <==> parsed.Some? && (parsed.value.scheme == "http" || parsed.value.scheme == "https") &&
                         parsed.value.host != ""
    ensures parsed.None? ==> r == Fail(UrlParseFailed)
  {
    match parsed
    case None => Fail(UrlParseFailed)
    case Some(u) =>
      if u.scheme != "https" && u.scheme != "http" then Fail(UnsupportedScheme(u.scheme))
      else if u.host == "" then Fail(EmptyHost)
      else Pass
  }

  /** The hostname never influences the verdict, so a private address is accepted like any other. */
  lemma PrivateHostAccepted(scheme: string, host: string, hostname: string, other: string)
    ensures ValidateURL(Some(ParsedUrl(scheme, host, hostname))) == ValidateURL(Some(ParsedUrl(scheme, host, other)))
    ensures ValidateURL(Some(ParsedUrl("http", "127.0.0.1:8080", "127.0.0.1"))).Pass? && PrivateHost("127.0.0.1")
  {
    assert PrivateRanges[0] <= "127.0.0.1";
  }

  // ---------------------------------------------------------------------------
  // Header canonicalisation (net/textproto CanonicalMIMEHeaderKey)

  /** The token characters of RFC 7230, section 3.2.6. */
  predicate IsTokenChar(c: char) {
    ('a' <= c <= 'z') || ('A' <= c <= 'Z') || ('0' <= c <= '9') ||
    c in {'!', '#', '$', '%', '&', '\'', '*', '+', '-', '.', '^', '_', '`', '|', '~'}
  }

  predicate AllTokenChars(s: string) {
    forall i | 0 <= i < |s| :: IsTokenChar(s[i])
  }

  function ToUpper(c: char): char {
    if 'a' <= c <= 'z' then (c as int - 32) as char else c
  }

  function ToLower(c: char): char {
    if 'A' <= c <= 'Z' then (c as int + 32) as char else c
  }

  /** Upper-case the first letter and every letter after '-', lower-case the rest. */
  function CanonicalCase(s: string, upper: bool): (r: string)
    ensures |r| == |s|
  {
    if s == "" then ""
    else [if upper then ToUpper(s[0]) else ToLower(s[0])] + CanonicalCase(s[1..], s[0] == '-')
  }

  /** `CanonicalMIMEHeaderKey`: a key with a non-token byte is kept as it is. */
  function CanonicalHeaderKey(key: string): (r: string)
    ensures |r| == |key|
    ensures AllTokenChars(r) <==> AllTokenChars(key)
    ensures !AllTokenChars(key) ==> r == key
  {
    if AllTokenChars(key) then CanonicalCaseKeepsTokens(key, true); CanonicalCase(key, true) else key
  }

  lemma {:induction false} CanonicalCaseKeepsTokens(s: string, upper: bool)
    requires AllTokenChars(s)
    ensures AllTokenChars(CanonicalCase(s, upper))
    decreases |s|
  {
    if s != "" {
      CanonicalCaseKeepsTokens(s[1..], s[0] == '-');
      var r := CanonicalCase(s, upper);
      forall i | 0 <= i < |r| ensures IsTokenChar(r[i]) {
        if i > 0 {
          assert r[i] == CanonicalCase(s[1..], s[0] == '-')[i - 1];
        }
      }
    }
  }

  lemma {:induction false} CanonicalCaseIdempotent(s: string, upper: bool)
    ensures CanonicalCase(CanonicalCase(s, upper), upper) == CanonicalCase(s, upper)
    decreases |s|
  {
    if s != "" {
      var r := CanonicalCase(s, upper);
      var c := if upper then ToUpper(s[0]) else ToLower(s[0]);
      assert r[0] == c && r[1..] == CanonicalCase(s[1..], s[0] == '-');
      assert (c == '-') == (s[0] == '-');
      CanonicalCaseIdempotent(s[1..], s[0] == '-');
    }
  }

  /** Canonicalising a canonical key changes nothing. */
  lemma CanonicalKeyIdempotent(key: string)
    ensures CanonicalHeaderKey(CanonicalHeaderKey(key)) == CanonicalHeaderKey(key)
  {
    if AllTokenChars(key) {
      CanonicalCaseKeepsTokens(key, true);
      CanonicalCaseIdempotent(key, true);
    }
  }

  /** The key that is stored is as safe as the key that was checked. */
  lemma CanonicalKeyKeepsValidity(key: string, value: string)
    requires ValidateHeader(key, value).Pass?
    ensures ValidateHeader(CanonicalHeaderKey(key), value).Pass?
  {
    if AllTokenChars(key) {
      CanonicalCaseKeepsTokens(key, true);
    }
  }

  /** `s` is its own canonical case: each letter is upper-case exactly at the start of a word. */
  predicate CaseFixed(s: string, upper: bool) {
    forall i | 0 <= i < |s| :: s[i] == (if StartsWord(s, i, upper) then ToUpper(s[i]) else ToLower(s[i]))
  }

  /** Position `i` begins a word: the first position when `upper`, or the one after a '-'. */
  predicate StartsWord(s: string, i: nat, upper: bool)
    requires i < |s|
  {
    if i == 0 then upper else s[i - 1] == '-'
  }

  lemma {:induction false} CaseFixedUnchanged(s: string, upper: bool)
    requires CaseFixed(s, upper)
    ensures CanonicalCase(s, upper) == s
    decreases |s|
  {
    if s != "" {
      assert StartsWord(s, 0, upper) == upper;
      assert CaseFixed(s[1..], s[0] == '-') by {
        forall i | 0 <= i < |s[1..]| ensures s[1..][i] == s[i + 1] && StartsWord(s[1..], i, s[0] == '-') == StartsWord(s, i + 1, upper) { }
      }
      CaseFixedUnchanged(s[1..], s[0] == '-');
      assert s == [s[0]] + s[1..];
    }
  }

  /** A key already in canonical form is stored under itself. */
  lemma CanonicalFormIsFixed(key: string)
    requires AllTokenChars(key) && CaseFixed(key, true)
    ensures CanonicalHeaderKey(key) == key
  {
    CaseFixedUnchanged(key, true);
  }

  /** Each character of the canonical case is upper-cased exactly where a word starts. */
  lemma {:induction false} CanonicalCaseAt(s: string, upper: bool, i: nat)
    requires i < |s|
    ensures CanonicalCase(s, upper)[i] == if StartsWord(s, i, upper) then ToUpper(s[i]) else ToLower(s[i])
    decreases i
  {
    if i > 0 {
      CanonicalCaseAt(s[1..], s[0] == '-', i - 1);
      assert StartsWord(s[1..], i - 1, s[0] == '-') == StartsWord(s, i, upper);
    }
  }

  lemma UserAgentCase()
    ensures CanonicalCase("user-agent", true) == UserAgentKey
  {
    var s := "user-agent";
    forall i | 0 <= i < |s| ensures CanonicalCase(s, true)[i] == UserAgentKey[i] {
      CanonicalCaseAt(s, true, i);
    }
  }

  /** Any spelling of the defaults is caught by the overwrite. */
  lemma UserAgentKeyCanonical()
    ensures CanonicalHeaderKey("user-agent") == UserAgentKey
  {
    assert AllTokenChars("user-agent");
    UserAgentCase();
  }

  lemma AcceptCase()
    ensures CanonicalCase("ACCEPT", true) == AcceptKey
  {
    var s := "ACCEPT";
    forall i | 0 <= i < |s| ensures CanonicalCase(s, true)[i] == AcceptKey[i] {
      CanonicalCaseAt(s, true, i);
    }
  }

  lemma AcceptKeyCanonical()
    ensures CanonicalHeaderKey("ACCEPT") == AcceptKey
  {
    assert AllTokenChars("ACCEPT");
    AcceptCase();
  }

  // ---------------------------------------------------------------------------
  // DoRequest

  /** The method check of `http.NewRequestWithContext`: "" means GET, otherwise a non-empty token. */
  predicate ValidMethod(verb: string) {
    verb == "" || AllTokenChars(verb)
  }

  /** Every caller header passes `validateHeader`. */
  predicate AllHeadersValid(headers: map<string, string>) {
    forall k | k in headers :: ValidateHeader(k, headers[k]).Pass?
  }

  /** The keys `Header.Set` produces for the caller's headers. */
  function CallerKeys(headers: map<string, string>): set<string> {
    set k | k in headers :: CanonicalHeaderKey(k)
  }

  /** When every caller key is already canonical, `Header.Set` stores each header under its own key. */
  lemma HeadersKeptWhenCanonical(headers: map<string, string>, header: map<string, string>)
    requires forall k | k in headers :: CanonicalHeaderKey(k) == k
    requires header.Keys == CallerKeys(headers)
    requires forall key | key in header :: exists k | k in headers :: CanonicalHeaderKey(k) == key && header[key] == headers[k]
    ensures header == headers
  {
    assert header.Keys == headers.Keys;
  }

  /**
   * The header loop of `DoRequest`. Go visits the caller's headers in an
   * unspecified order, so the loop picks any remaining key; when two caller
   * keys have the same canonical form the value kept is that of one of them.
   * The first header that fails validation stops the loop with its error.
   */
  method SetHeaders(headers: map<string, string>) returns (header: map<string, string>, failed: Option<ClientError>)
    ensures failed.None? <==> forall k | k in headers :: ValidateHeader(k, headers[k]).Pass?
    ensures failed.Some? ==> exists k | k in headers :: ValidateHeader(k, headers[k]) == Fail(failed.value)
    ensures failed.None? ==> header.Keys == CallerKeys(headers)
    ensures failed.None? ==> forall key | key in header ::
              exists k | k in headers :: CanonicalHeaderKey(k) == key && header[key] == headers[k]
  {
    header := map[];
    var remaining := headers.Keys;
    while remaining != {}
      invariant remaining <= headers.Keys
      invariant forall k | k in headers.Keys - remaining :: ValidateHeader(k, headers[k]).Pass?
      invariant header.Keys == set k | k in headers.Keys - remaining :: CanonicalHeaderKey(k)
      invariant forall key | key in header ::
                  exists k | k in headers.Keys - remaining :: CanonicalHeaderKey(k) == key && header[key] == headers[k]
      decreases remaining
    {
      var k :| k in remaining;
      var verdict := ValidateHeader(k, headers[k]);
      if verdict.Fail? {
        return header, Some(verdict.error);
      }
      header := header[CanonicalHeaderKey(k) := headers[k]];
      remaining := remaining - {k};
    }
    assert headers.Keys - remaining == headers.Keys;
    failed := None;
  }

  /**
   * `DoRequest`. `transport` is the outcome of `http.Client.Do`; `sent` is
   * the request passed to it, if any.
   */
  method DoRequest<R>(verb: string, parsed: Option<ParsedUrl>, headers: map<string, string>, transport: Option<R>)
    returns (r: Result<R, ClientError>, sent: Option<Request>)
    ensures sent.Some? <==> ValidateURL(parsed).Pass? && ValidMethod(verb) &&
                            forall k | k in headers :: ValidateHeader(k, headers[k]).Pass?
    ensures ValidateURL(parsed).Fail? ==> r == Err(ValidateURL(parsed).error)
    ensures ValidateURL(parsed).Pass? && !ValidMethod(verb) ==> r == Err(InvalidMethod(verb))
    ensures ValidateURL(parsed).Pass? && ValidMethod(verb) && sent.None? ==>
              r.Err? && exists k | k in headers :: ValidateHeader(k, headers[k]) == Fail(r.error)
    ensures sent.Some? ==> r == (if transport.Some? then Ok(transport.value) else Err(TransportFailed))
    ensures sent.Some? ==> sent.value.url == parsed.value &&
                           sent.value.verb == (if verb == "" then "GET" else verb)
    ensures sent.Some? ==> sent.value.header.Keys == CallerKeys(headers) + {UserAgentKey, AcceptKey}
    ensures sent.Some? ==> sent.value.header[UserAgentKey] == UserAgentValue && sent.value.header[AcceptKey] == AcceptValue
    ensures sent.Some? ==> forall key | key in sent.value.header && key != UserAgentKey && key != AcceptKey ::
              exists k | k in headers :: CanonicalHeaderKey(k) == key && sent.value.header[key] == headers[k]
    ensures sent.Some? && (forall k | k in headers :: CanonicalHeaderKey(k) == k) ==>
              sent.value.header == headers[UserAgentKey := UserAgentValue][AcceptKey := AcceptValue]
  {
    var checked := ValidateURL(parsed);
    if checked.Fail? {
      return Err(checked.error), None;
    }
    if !ValidMethod(verb) {
      return Err(InvalidMethod(verb)), None;
    }
    var header, failed := SetHeaders(headers);
    if failed.Some? {
      return Err(failed.value), None;
    }
    if forall k | k in headers :: CanonicalHeaderKey(k) == k {
      HeadersKeptWhenCanonical(headers, header);
    }
    header := header[UserAgentKey := UserAgentValue][AcceptKey := AcceptValue];
    var request := Request(if verb == "" then "GET" else verb, parsed.value, header);
    sent := Some(request);
    if transport.None? {
      return Err(TransportFailed), sent;
    }
    r := Ok(transport.value);
  }
}
