/**
 * RequestValidationService: character-class and length checks on the parts of a gateway
 * request. The private validators append messages to a shared error list; the public entry
 * points throw a ValidationException carrying that list when it is not empty.
 */
module RequestValidation {
  import opened Wrappers
  import opened JavaString

  const MaxServiceNameLength: int := 50
  const MaxPathLength: int := 500
  const MaxQueryParams: int := 100
  const MaxKeyLength: int := 100
  const MaxQueryValueLength: int := 1000
  const MaxHeaderSize: int := 8192

  // ---------------------------------------------------------------------------
  // The patterns
  // ---------------------------------------------------------------------------

  predicate AsciiAlnum(c: char) {
    ('a' <= c <= 'z') || ('A' <= c <= 'Z') || ('0' <= c <= '9')
  }

  /** `[a-zA-Z0-9-_]` */
  predicate ServiceNameChar(c: char) {
    AsciiAlnum(c) || c == '-' || c == '_'
  }

  /** `[a-zA-Z0-9/_.-]` */
  predicate PathChar(c: char) {
    AsciiAlnum(c) || c == '/' || c == '_' || c == '.' || c == '-'
  }

  /** `[a-zA-Z0-9.-]`, the host part of a URL. */
  predicate HostChar(c: char) {
    AsciiAlnum(c) || c == '.' || c == '-'
  }

  predicate Digit(c: char) {
    '0' <= c <= '9'
  }

  /** `^[a-zA-Z0-9-_]+$` */
  predicate ServiceNamePattern(s: string) {
    |s| >= 1 && forall i :: 0 <= i < |s| ==> ServiceNameChar(s[i])
  }

  /** `^/[a-zA-Z0-9/_.-]*$` */
  predicate PathPattern(s: string) {
    |s| >= 1 && s[0] == '/' && forall i :: 1 <= i < |s| ==> PathChar(s[i])
  }

  /** The seven names of `^(GET|POST|PUT|DELETE|PATCH|HEAD|OPTIONS)$`. */
  predicate MethodName(s: string) {
    s == "GET" || s == "POST" || s == "PUT" || s == "DELETE" || s == "PATCH" || s == "HEAD" || s == "OPTIONS"
  }

  /** The length of the longest prefix made of `[a-zA-Z0-9.-]`. */
  function HostRun(s: string): (n: nat)
    ensures n <= |s|
  {
    if s != [] && HostChar(s[0]) then 1 + HostRun(s[1..]) else 0
  }

  lemma {:induction false} HostRunChars(s: string)
    ensures forall i :: 0 <= i < HostRun(s) ==> HostChar(s[i])
  {
    if s != [] && HostChar(s[0]) {
      HostRunChars(s[1..]);
      assert forall i :: 1 <= i < HostRun(s) ==> s[i] == s[1..][i - 1];
    }
  }

  /** The length of the longest prefix of digits. */
  function DigitRun(s: string): (n: nat)
    ensures n <= |s|
  {
    if s != [] && Digit(s[0]) then 1 + DigitRun(s[1..]) else 0
  }

  lemma {:induction false} DigitRunChars(s: string)
    ensures forall i :: 0 <= i < DigitRun(s) ==> Digit(s[i])
  {
    if s != [] && Digit(s[0]) {
      DigitRunChars(s[1..]);
      assert forall i :: 1 <= i < DigitRun(s) ==> s[i] == s[1..][i - 1];
    }
  }

  /** `(?:/.*)?$`: nothing, or '/' followed by characters other than line terminators. */
  predicate PathTail(t: string) {
    t == [] || (t[0] == '/' && forall i :: 1 <= i < |t| ==> !IsLineTerminator(t[i]))
  }

  /** `\:[0-9]+(?:/.*)?$`, taking the longest digit run as the matcher must. */
  predicate PortThenTail(t: string) {
    t != [] && t[0] == ':' && DigitRun(t[1..]) >= 1 && PathTail(t[1..][DigitRun(t[1..])..])
  }

  /** `(?:\:[0-9]+)?(?:/.*)?$` */
  predicate AfterHost(t: string) {
    PathTail(t) || PortThenTail(t)
  }

  /** `[a-zA-Z0-9.-]+(?:\:[0-9]+)?(?:/.*)?$`, taking the longest host as the matcher must. */
  predicate HostThenRest(s: string) {
    HostRun(s) >= 1 && AfterHost(s[HostRun(s)..])
  }

  /** The length of the `https?://` prefix, or 0 when there is none. */
  function SchemeLength(u: string): (n: nat)
    ensures n <= |u|
  {
    if StartsWith(u, "http://") then 7 else if StartsWith(u, "https://") then 8 else 0
  }

  /** `^https?://[a-zA-Z0-9.-]+(?:\:[0-9]+)?(?:/.*)?$`, read left to right. */
  predicate UrlPattern(u: string) {
    SchemeLength(u) > 0 && HostThenRest(u[SchemeLength(u)..])
  }

  predicate HostPart(host: string) {
    |host| >= 1 && forall i :: 0 <= i < |host| ==> HostChar(host[i])
  }

  predicate PortPart(port: string) {
    port == [] || (|port| >= 2 && port[0] == ':' && forall i :: 1 <= i < |port| ==> Digit(port[i]))
  }

  /** The regular expression's reading of a URL: scheme, host, optional port, optional path. */
  predicate UrlParts(scheme: string, host: string, port: string, tail: string) {
    (scheme == "http://" || scheme == "https://") && HostPart(host) && PortPart(port) && PathTail(tail)
  }

  // ---------------------------------------------------------------------------
  // The predicates
  // ---------------------------------------------------------------------------

  /** `isValidServiceName` */
  predicate IsValidServiceName(name: Option<string>) {
    HasText(name) && Utf16Length(name.value) <= MaxServiceNameLength && ServiceNamePattern(name.value)
  }

  /** `isValidPath` */
  predicate IsValidPath(path: Option<string>) {
    HasText(path) && Utf16Length(path.value) <= MaxPathLength && PathPattern(path.value)
  }

  /** `isValidHttpMethod`: the method is upper-cased before matching. */
  predicate IsValidHttpMethod(verb: Option<string>) {
    HasText(verb) && MethodName(ToUpper(verb.value))
  }

  /** `isValidUrl` */
  predicate IsValidUrl(url: Option<string>) {
    HasText(url) && UrlPattern(url.value)
  }

  /** The left-to-right reading of the URL pattern accepts exactly the URLs the regular expression splits into parts. */
  lemma UrlPatternIffParts(u: string)
    ensures UrlPattern(u) <==> exists scheme, host, port, tail :: u == scheme + host + port + tail && UrlParts(scheme, host, port, tail)
  {
    if UrlPattern(u) {
      var scheme, host, port, tail := UrlPatternGivesParts(u);
    }
    if exists scheme, host, port, tail :: u == scheme + host + port + tail && UrlParts(scheme, host, port, tail) {
      var scheme, host, port, tail :| u == scheme + host + port + tail && UrlParts(scheme, host, port, tail);
      PartsGiveUrlPattern(u, scheme, host, port, tail);
    }
  }

  lemma UrlPatternGivesParts(u: string) returns (scheme: string, host: string, port: string, tail: string)
    requires UrlPattern(u)
    ensures u == scheme + host + port + tail && UrlParts(scheme, host, port, tail)
  {
    var n := SchemeLength(u);
    scheme := u[..n];
    assert scheme == "http://" || scheme == "https://" by { SchemePrefix(u); }
    var rest := u[n..];
    assert HostThenRest(rest);
    host, port, tail := HostThenRestGivesParts(rest);
    calc {
      u;
      scheme + rest;
      scheme + ((host + port) + tail);
      { AppendAssoc(scheme, host + port, tail); }
      (scheme + (host + port)) + tail;
      { AppendAssoc(scheme, host, port); }
      ((scheme + host) + port) + tail;
    }
  }

  lemma SchemePrefix(u: string)
    requires SchemeLength(u) > 0
    ensures u[..SchemeLength(u)] == "http://" || u[..SchemeLength(u)] == "https://"
  {
  }

  lemma HostThenRestGivesParts(s: string) returns (host: string, port: string, tail: string)
    requires HostThenRest(s)
    ensures s == host + port + tail && HostPart(host) && PortPart(port) && PathTail(tail)
  {
    var h := HostRun(s);
    HostRunChars(s);
    host := s[..h];
    port, tail := AfterHostGivesParts(s[h..]);
    assert s == host + s[h..];
  }

  lemma AfterHostGivesParts(t: string) returns (port: string, tail: string)
    requires AfterHost(t)
    ensures t == port + tail && PortPart(port) && PathTail(tail)
  {
    if PathTail(t) {
      port, tail := [], t;
    } else {
      var d := DigitRun(t[1..]);
      DigitRunChars(t[1..]);
      port := t[..d + 1];
      tail := t[d + 1..];
      assert t[1..][d..] == tail;
      assert forall i :: 1 <= i < |port| ==> port[i] == t[1..][i - 1];
    }
  }

  lemma PartsGiveUrlPattern(u: string, scheme: string, host: string, port: string, tail: string)
    requires u == scheme + host + port + tail && UrlParts(scheme, host, port, tail)
    ensures UrlPattern(u)
  {
    var rest := host + port + tail;
    SchemeOf(scheme, rest);
    assert u == scheme + rest;
    HostOfParts(host, port, tail);
  }

  lemma SchemeOf(scheme: string, rest: string)
    requires scheme == "http://" || scheme == "https://"
    ensures SchemeLength(scheme + rest) == |scheme| && (scheme + rest)[|scheme|..] == rest
  {
    var u := scheme + rest;
    assert u[..|scheme|] == scheme;
    if scheme == "https://" {
      assert u[4] == 's';
    }
  }

  lemma HostOfParts(host: string, port: string, tail: string)
    requires HostPart(host) && PortPart(port) && PathTail(tail)
    ensures HostThenRest(host + port + tail)
  {
    var after := port + tail;
    assert after == [] || after[0] == ':' || after[0] == '/' by {
      if port != [] { assert after[0] == port[0]; } else { assert after == tail; }
    }
    RunOfPrefix(host, after);
    assert host + port + tail == host + after;
    assert (host + after)[|host|..] == after;
    AfterHostOfParts(port, tail);
  }

  lemma AfterHostOfParts(port: string, tail: string)
    requires PortPart(port) && PathTail(tail)
    ensures AfterHost(port + tail)
  {
    if port == [] {
      assert port + tail == tail;
    } else {
      var t := port + tail;
      var digits := port[1..];
      assert t[1..] == digits + tail;
      DigitRunOfPrefix(digits, tail);
      assert t[1..][|digits|..] == tail;
      assert PortThenTail(t);
    }
  }

  lemma {:induction false} RunOfPrefix(host: string, rest: string)
    requires forall i :: 0 <= i < |host| ==> HostChar(host[i])
    requires rest == [] || rest[0] == ':' || rest[0] == '/'
    ensures HostRun(host + rest) == |host|
    decreases |host|
  {
    if host == [] {
      assert host + rest == rest;
    } else {
      assert (host + rest)[1..] == host[1..] + rest;
      RunOfPrefix(host[1..], rest);
    }
  }

  lemma {:induction false} DigitRunOfPrefix(digits: string, rest: string)
    requires forall i :: 0 <= i < |digits| ==> Digit(digits[i])
    requires rest == [] || rest[0] == '/'
    ensures DigitRun(digits + rest) == |digits|
    decreases |digits|
  {
    if digits == [] {
      assert digits + rest == rest;
    } else {
      assert (digits + rest)[1..] == digits[1..] + rest;
      DigitRunOfPrefix(digits[1..], rest);
    }
  }

  lemma LocalhostParts()
    ensures HostPart("localhost") && PortPart(":8080") && PathTail("/api")
  {
    assert HostPart("localhost");
    assert PortPart(":8080");
  }

  /** A host with a port and a path is a valid URL. */
  lemma UrlWithPortIsValid()
    ensures IsValidUrl(Some("http://" + "localhost" + ":8080" + "/api"))
  {
    var u := "http://" + "localhost" + ":8080" + "/api";
    LocalhostParts();
    PartsGiveUrlPattern(u, "http://", "localhost", ":8080", "/api");
    assert u[0] == 'h';
  }

  /** A scheme other than http or https is refused. */
  lemma FtpUrlIsInvalid()
    ensures !IsValidUrl(Some("ftp://example.com"))
  {
    var u := "ftp://example.com";
    assert u[..7] != "http://" by { assert u[0] == 'f'; }
    assert u[..8] != "https://" by { assert u[0] == 'f'; }
  }

  /** A port that is not a number is refused. */
  lemma NamedPortIsInvalid()
    ensures !IsValidUrl(Some("http://host:port"))
  {
    var u := "http://host:port";
    assert SchemeLength(u) == 7 && u[7..] == "host:port" by {
      assert u[..7] == "http://";
    }
    assert !HostThenRest("host:port") by {
      NamedPortHost();
    }
  }

  /** The host run of "host:port" stops at ':', and what follows is not a port. */
  lemma NamedPortHost()
    ensures !HostThenRest("host:port")
  {
    var rest := "host:port";
    assert HostRun(rest) == 4 by {
      assert rest == "host" + ":port";
      RunOfPrefix("host", ":port");
    }
    assert rest[4..] == ":port";
    assert !AfterHost(":port") by {
      assert ":port"[1..] == "port";
      assert DigitRun("port") == 0;
    }
  }

  /** The method check is case-insensitive: "get" passes, because it is upper-cased first. */
  lemma MethodCaseInsensitive()
    ensures IsValidHttpMethod(Some("get")) && IsValidHttpMethod(Some("Patch"))
    ensures !IsValidHttpMethod(Some("TRACE")) && !IsValidHttpMethod(Some(""))
  {
    assert ToUpper("get") == "GET";
    assert ToUpper("Patch") == "PATCH";
    assert ToUpper("TRACE") == "TRACE";
    assert !IsWhitespace('g') && !IsWhitespace('P');
    assert "get"[0] == 'g' && "Patch"[0] == 'P';
  }

  // ---------------------------------------------------------------------------
  // The messages each validator appends
  // ---------------------------------------------------------------------------

  const ServiceNameRequired: string := "Service name is required"
  const ServiceNameTooLong: string := "Service name must not exceed 50 characters"
  const ServiceNameBadChars: string := "Service name must contain only alphanumeric characters, hyphens, and underscores"
  const PathRequired: string := "Path is required"
  const PathTooLong: string := "Path must not exceed 500 characters"
  const PathBadChars: string := "Path must start with / and contain only valid path characters"
  const MethodRequired: string := "HTTP method is required"
  const MethodUnknown: string := "HTTP method must be one of: GET, POST, PUT, DELETE, PATCH, HEAD, OPTIONS"
  const TooManyQueryParams: string := "Too many query parameters. Maximum allowed: 100"
  const QueryKeyEmpty: string := "Query parameter key cannot be empty"
  const HeaderNameEmpty: string := "Header name cannot be empty"

  /** The errors `validateServiceName` adds: none exactly for a valid name, only "required" for a missing one. */
  function ServiceNameErrors(name: Option<string>): (errs: seq<string>)
    ensures errs == [] <==> IsValidServiceName(name)
    ensures !HasText(name) ==> errs == [ServiceNameRequired]
    ensures |errs| <= 2
  {
    if !HasText(name) then [ServiceNameRequired]
    else (if Utf16Length(name.value) > MaxServiceNameLength then [ServiceNameTooLong] else [])
         + (if !ServiceNamePattern(name.value) then [ServiceNameBadChars] else [])
  }

  /** The errors `validatePath` adds. */
  function PathErrors(path: Option<string>): (errs: seq<string>)
    ensures errs == [] <==> IsValidPath(path)
    ensures !HasText(path) ==> errs == [PathRequired]
    ensures |errs| <= 2
  {
    if !HasText(path) then [PathRequired]
    else (if Utf16Length(path.value) > MaxPathLength then [PathTooLong] else [])
         + (if !PathPattern(path.value) then [PathBadChars] else [])
  }

  /** The errors `validateMethod` adds. */
  function MethodErrors(verb: Option<string>): (errs: seq<string>)
    ensures errs == [] <==> IsValidHttpMethod(verb)
    ensures !HasText(verb) ==> errs == [MethodRequired]
    ensures |errs| <= 1
  {
    if !HasText(verb) then [MethodRequired]
    else if !MethodName(ToUpper(verb.value)) then [MethodUnknown]
    else []
  }

  /** The two maps the request carries, whose entries are checked the same way with different limits and words. */
  datatype MapKind = QueryParams | Headers

  function EmptyKeyMessage(kind: MapKind): string {
    if kind == QueryParams then QueryKeyEmpty else HeaderNameEmpty
  }

  /** The longest value an entry may carry: 1000 characters for a query parameter, MAX_HEADER_SIZE for a header. */
  function ValueLimit(kind: MapKind): nat {
    if kind == QueryParams then MaxQueryValueLength else MaxHeaderSize
  }

  function KeyTooLongMessage(kind: MapKind, key: string): string {
    if kind == QueryParams then "Query parameter key '" + key + "' exceeds maximum length of 100 characters"
    else "Header name '" + key + "' exceeds maximum length of 100 characters"
  }

  function ValueTooLongMessage(kind: MapKind, key: string): string {
    if kind == QueryParams then "Query parameter value for '" + key + "' exceeds maximum length of 1000 characters"
    else "Header value for '" + key + "' exceeds maximum size of 8192 bytes"
  }

  /** The errors for one entry with a non-null key, in the order the lambda adds them. */
  function EntryErrors(kind: MapKind, key: string, value: Option<string>): (errs: seq<string>)
    ensures errs == [] <==>
              HasText(Some(key)) && Utf16Length(key) <= MaxKeyLength && (value.Some? ==> Utf16Length(value.value) <= ValueLimit(kind))
    ensures |errs| <= 3
  {
    (if !HasText(Some(key)) then [EmptyKeyMessage(kind)] else [])
    + (if Utf16Length(key) > MaxKeyLength then [KeyTooLongMessage(kind, key)] else [])
    + (if value.Some? && Utf16Length(value.value) > ValueLimit(kind) then [ValueTooLongMessage(kind, key)] else [])
  }

  /**
   * The limits count UTF-16 code units: a query value of more than 500 supplementary characters
   * (an emoji each, say) is too long, though it holds at most 1000 characters.
   */
  lemma SupplementaryValueCountsTwice(key: string, value: string)
    requires forall i :: 0 <= i < |value| ==> Supplementary(value[i])
    requires |value| > MaxQueryValueLength / 2
    ensures ValueTooLongMessage(QueryParams, key) in EntryErrors(QueryParams, key, Some(value))
  {
    var errs := EntryErrors(QueryParams, key, Some(value));
    assert Utf16Length(value) > ValueLimit(QueryParams);
    assert errs[|errs| - 1] == ValueTooLongMessage(QueryParams, key);
  }

  /**
   * One call of the `forEach` lambda: a null key adds its "empty" message and then throws at
   * `key.length()`, any other key adds EntryErrors.
   */
  function EntryStep(kind: MapKind, entry: (Option<string>, Option<string>)): (errs: seq<string>)
    ensures entry.0.None? ==> errs == [EmptyKeyMessage(kind)]
  {
    match entry.0
    case None => [EmptyKeyMessage(kind)]
    case Some(key) => EntryErrors(kind, key, entry.1)
  }

  /** Whether a null key among the first `n` entries stops the `forEach` with a NullPointerException. */
  predicate Throws(entries: seq<(Option<string>, Option<string>)>, n: nat)
    requires n <= |entries|
  {
    n > 0 && (Throws(entries, n - 1) || entries[n - 1].0.None?)
  }

  /** The errors the `forEach` appends while it walks the first `n` entries, in iteration order. */
  function WalkErrors(kind: MapKind, entries: seq<(Option<string>, Option<string>)>, n: nat): seq<string>
    requires n <= |entries|
  {
    if n == 0 then []
    else if Throws(entries, n - 1) then WalkErrors(kind, entries, n - 1)
    else WalkErrors(kind, entries, n - 1) + EntryStep(kind, entries[n - 1])
  }

  /** The `forEach` over all of a map's entries: the errors appended, and whether it threw. */
  function ForEachErrors(kind: MapKind, entries: seq<(Option<string>, Option<string>)>): (r: (seq<string>, bool)) {
    (WalkErrors(kind, entries, |entries|), Throws(entries, |entries|))
  }

  /** The walk over the first `n` entries throws exactly when one of them has a null key. */
  lemma {:induction false} NullKeyThrows(entries: seq<(Option<string>, Option<string>)>, n: nat)
    requires n <= |entries|
    ensures Throws(entries, n) <==> exists i :: 0 <= i < n && entries[i].0.None?
    decreases n
  {
    if n > 0 {
      NullKeyThrows(entries, n - 1);
      if exists i :: 0 <= i < n && entries[i].0.None? {
        var i :| 0 <= i < n && entries[i].0.None?;
        if i < n - 1 {
          assert Throws(entries, n - 1);
        }
      }
    }
  }

  /** `validateQueryParams`: a null map adds nothing; too many entries adds one message before the per-entry ones. */
  function QueryParamErrors(params: Option<seq<(Option<string>, Option<string>)>>): (r: (seq<string>, bool))
    ensures params.None? ==> r == ([], false)
  {
    if params.None? then ([], false)
    else
      var run := ForEachErrors(QueryParams, params.value);
      ((if |params.value| > MaxQueryParams then [TooManyQueryParams] else []) + run.0, run.1)
  }

  /** `validateHeaders`: a null map adds nothing. */
  function HeaderErrors(headers: Option<seq<(Option<string>, Option<string>)>>): (r: (seq<string>, bool))
    ensures headers.None? ==> r == ([], false)
  {
    if headers.None? then ([], false) else ForEachErrors(Headers, headers.value)
  }

  /** No message of one entry is the "too many" message: each starts with "Query" or "Header". */
  lemma EntryStepIsNotTooMany(kind: MapKind, entry: (Option<string>, Option<string>))
    ensures TooManyQueryParams !in EntryStep(kind, entry)
  {
    assert EmptyKeyMessage(kind)[0] != 'T';
    if entry.0.Some? {
      var key := entry.0.value;
      assert KeyTooLongMessage(kind, key)[0] != 'T';
      assert ValueTooLongMessage(kind, key)[0] != 'T';
    }
  }

  lemma {:induction false} EntryMessagesAreNotTooMany(kind: MapKind, entries: seq<(Option<string>, Option<string>)>, n: nat)
    requires n <= |entries|
    ensures TooManyQueryParams !in WalkErrors(kind, entries, n)
    decreases n
  {
    if n > 0 {
      var before := WalkErrors(kind, entries, n - 1);
      var step := EntryStep(kind, entries[n - 1]);
      EntryMessagesAreNotTooMany(kind, entries, n - 1);
      EntryStepIsNotTooMany(kind, entries[n - 1]);
      assert WalkErrors(kind, entries, n) == before || WalkErrors(kind, entries, n) == before + step;
    }
  }

  /** More than 100 query parameters gives exactly one "too many" message, at the head of the map's errors. */
  lemma TooManyOnce(params: seq<(Option<string>, Option<string>)>)
    requires |params| > MaxQueryParams
    ensures var errs := QueryParamErrors(Some(params)).0;
            errs != [] && errs[0] == TooManyQueryParams && TooManyQueryParams !in errs[1..]
  {
    EntryMessagesAreNotTooMany(QueryParams, params, |params|);
    var errs := QueryParamErrors(Some(params)).0;
    assert errs[1..] == ForEachErrors(QueryParams, params).0;
  }

  // ---------------------------------------------------------------------------
  // The imperative validators
  // ---------------------------------------------------------------------------

  /** The `ArrayList<String>` the validators append to. */
  class ErrorList {
    var items: seq<string>

    constructor()
      ensures items == []
    {
      items := [];
    }

    method Add(message: string)
      modifies this
      ensures items == old(items) + [message]
    {
      items := items + [message];
    }
  }

  method AddServiceNameErrors(name: Option<string>, errors: ErrorList)
    modifies errors
    ensures errors.items == old(errors.items) + ServiceNameErrors(name)
  {
    if !HasText(name) {
      errors.Add(ServiceNameRequired);
      return;
    }
    if Utf16Length(name.value) > MaxServiceNameLength {
      errors.Add(ServiceNameTooLong);
    }
    if !ServiceNamePattern(name.value) {
      errors.Add(ServiceNameBadChars);
    }
  }

  method AddPathErrors(path: Option<string>, errors: ErrorList)
    modifies errors
    ensures errors.items == old(errors.items) + PathErrors(path)
  {
    if !HasText(path) {
      errors.Add(PathRequired);
      return;
    }
    if Utf16Length(path.value) > MaxPathLength {
      errors.Add(PathTooLong);
    }
    if !PathPattern(path.value) {
      errors.Add(PathBadChars);
    }
  }

  method AddMethodErrors(verb: Option<string>, errors: ErrorList)
    modifies errors
    ensures errors.items == old(errors.items) + MethodErrors(verb)
  {
    if !HasText(verb) {
      errors.Add(MethodRequired);
      return;
    }
    if !MethodName(ToUpper(verb.value)) {
      errors.Add(MethodUnknown);
    }
  }

  /** Appending to an error list in two steps appends the two parts joined. */
  lemma AppendAssociates(start: seq<string>, first: seq<string>, second: seq<string>)
    ensures (start + first) + second == start + (first + second)
  {
  }

  /** A list holding the walk's errors so far, extended by one more entry's step, holds the longer walk's errors. */
  lemma WalkStep(kind: MapKind, entries: seq<(Option<string>, Option<string>)>, i: nat, start: seq<string>, items: seq<string>)
    requires i < |entries| && !Throws(entries, i)
    requires items == start + WalkErrors(kind, entries, i)
    ensures items + EntryStep(kind, entries[i]) == start + WalkErrors(kind, entries, i + 1)
    ensures Throws(entries, i + 1) <==> entries[i].0.None?
  {
    AppendAssociates(start, WalkErrors(kind, entries, i), EntryStep(kind, entries[i]));
  }

  /** Once a null key has stopped the walk, the entries after it add nothing. */
  lemma {:induction false} WalkStopped(kind: MapKind, entries: seq<(Option<string>, Option<string>)>, i: nat, n: nat)
    requires i <= n <= |entries| && Throws(entries, i)
    ensures Throws(entries, n) && WalkErrors(kind, entries, n) == WalkErrors(kind, entries, i)
    decreases n
  {
    if i < n {
      WalkStopped(kind, entries, i, n - 1);
    }
  }

  /** The body of the `forEach` lambda for an entry whose key is not null. */
  method AddEntryMessages(kind: MapKind, key: string, value: Option<string>, errors: ErrorList)
    modifies errors
    ensures errors.items == old(errors.items) + EntryErrors(kind, key, value)
  {
    ghost var empty := if !HasText(Some(key)) then [EmptyKeyMessage(kind)] else [];
    ghost var long := if Utf16Length(key) > MaxKeyLength then [KeyTooLongMessage(kind, key)] else [];
    ghost var big := if value.Some? && Utf16Length(value.value) > ValueLimit(kind) then [ValueTooLongMessage(kind, key)] else [];
    if !HasText(Some(key)) {
      errors.Add(EmptyKeyMessage(kind));
    } else {
      assert old(errors.items) + empty == old(errors.items);
    }
    ghost var afterEmpty := errors.items;
    if Utf16Length(key) > MaxKeyLength {
      errors.Add(KeyTooLongMessage(kind, key));
    } else {
      assert afterEmpty + long == afterEmpty;
    }
    ghost var afterLong := errors.items;
    if value.Some? && Utf16Length(value.value) > ValueLimit(kind) {
      errors.Add(ValueTooLongMessage(kind, key));
    } else {
      assert afterLong + big == afterLong;
    }
    AppendAssociates(old(errors.items), empty, long);
    AppendAssociates(old(errors.items), empty + long, big);
  }

  /** One call of the lambda; reports the NullPointerException of a null key. */
  method AddEntry(kind: MapKind, entry: (Option<string>, Option<string>), errors: ErrorList) returns (nullKey: bool)
    modifies errors
    ensures errors.items == old(errors.items) + EntryStep(kind, entry)
    ensures nullKey <==> entry.0.None?
  {
    if entry.0.None? {
      errors.Add(EmptyKeyMessage(kind));
      return true;
    }
    AddEntryMessages(kind, entry.0.value, entry.1, errors);
    return false;
  }

  /** The `forEach` over one map: appends each entry's messages; a null key ends it with a NullPointerException. */
  method AddEntryErrors(kind: MapKind, entries: seq<(Option<string>, Option<string>)>, errors: ErrorList)
    returns (nullKey: bool)
    modifies errors
    ensures errors.items == old(errors.items) + ForEachErrors(kind, entries).0
    ensures nullKey == ForEachErrors(kind, entries).1
  {
    ghost var start := errors.items;
    var i := 0;
    nullKey := false;
    while i < |entries| && !nullKey
      invariant 0 <= i <= |entries|
      invariant nullKey <==> Throws(entries, i)
      invariant errors.items == start + WalkErrors(kind, entries, i)
    {
      ghost var before := errors.items;
      nullKey := AddEntry(kind, entries[i], errors);
      WalkStep(kind, entries, i, start, before);
      i := i + 1;
    }
    if nullKey {
      WalkStopped(kind, entries, i, |entries|);
    }
  }

  method AddQueryParamErrors(params: Option<seq<(Option<string>, Option<string>)>>, errors: ErrorList)
    returns (nullKey: bool)
    modifies errors
    ensures errors.items == old(errors.items) + QueryParamErrors(params).0
    ensures nullKey == QueryParamErrors(params).1
  {
    if params.None? {
      return false;
    }
    ghost var tooMany := if |params.value| > MaxQueryParams then [TooManyQueryParams] else [];
    if |params.value| > MaxQueryParams {
      errors.Add(TooManyQueryParams);
    } else {
      assert old(errors.items) + tooMany == old(errors.items);
    }
    AppendAssociates(old(errors.items), tooMany, ForEachErrors(QueryParams, params.value).0);
    nullKey := AddEntryErrors(QueryParams, params.value, errors);
  }

  method AddHeaderErrors(headers: Option<seq<(Option<string>, Option<string>)>>, errors: ErrorList)
    returns (nullKey: bool)
    modifies errors
    ensures errors.items == old(errors.items) + HeaderErrors(headers).0
    ensures nullKey == HeaderErrors(headers).1
  {
    if headers.None? {
      return false;
    }
    nullKey := AddEntryErrors(Headers, headers.value, errors);
  }

  // ---------------------------------------------------------------------------
  // The public entry points
  // ---------------------------------------------------------------------------

  /** The request fields the gateway validates (the map entries keep their iteration order). */
  datatype GatewayRequest = GatewayRequest(
    service: Option<string>,
    path: Option<string>,
    verb: Option<string>,
    queryParams: Option<seq<(Option<string>, Option<string>)>>,
    headers: Option<seq<(Option<string>, Option<string>)>>)

  /** What a validation call throws. */
  datatype Failure =
    | ValidationException(message: string, errors: seq<string>)
    | NullPointerException

  /** The error list of a request, or None when a null map key makes the validation throw NullPointerException. */
  function RequestErrors(req: GatewayRequest): Option<seq<string>> {
    var fields := ServiceNameErrors(req.service) + PathErrors(req.path) + MethodErrors(req.verb);
    var q := QueryParamErrors(req.queryParams);
    var h := HeaderErrors(req.headers);
    if q.1 || h.1 then None else Some(fields + q.0 + h.0)
  }

  /** `validateGatewayRequest`: collects every error in field order and throws exactly when there is one. */
  method ValidateGatewayRequest(req: GatewayRequest) returns (r: Result<(), Failure>)
    ensures RequestErrors(req).None? <==> r == Err(NullPointerException)
    ensures RequestErrors(req) == Some([]) <==> r.Ok?
    ensures RequestErrors(req).Some? && RequestErrors(req).value != [] ==>
              r == Err(ValidationException("Request validation failed", RequestErrors(req).value))
  {
    var errors := new ErrorList();
    AddServiceNameErrors(req.service, errors);
    assert errors.items == ServiceNameErrors(req.service);
    AddPathErrors(req.path, errors);
    AddMethodErrors(req.verb, errors);
    ghost var fields := ServiceNameErrors(req.service) + PathErrors(req.path) + MethodErrors(req.verb);
    assert errors.items == fields;
    var npe := AddQueryParamErrors(req.queryParams, errors);
    if npe {
      return Err(NullPointerException);
    }
    npe := AddHeaderErrors(req.headers, errors);
    if npe {
      return Err(NullPointerException);
    }
    assert errors.items == fields + QueryParamErrors(req.queryParams).0 + HeaderErrors(req.headers).0;
    if errors.items != [] {
      return Err(ValidationException("Request validation failed", errors.items));
    }
    return Ok(());
  }

  /** A request whose fields are all valid and that carries no maps passes. */
  lemma ValidFieldsPass(req: GatewayRequest)
    requires IsValidServiceName(req.service) && IsValidPath(req.path) && IsValidHttpMethod(req.verb)
    requires req.queryParams.None? && req.headers.None?
    ensures RequestErrors(req) == Some([])
  {
  }

  /** The service-name errors always come first, then the path's, then the method's. */
  lemma ErrorOrder(req: GatewayRequest)
    requires RequestErrors(req).Some?
    ensures var errs := RequestErrors(req).value;
            var n1, n2 := |ServiceNameErrors(req.service)|, |PathErrors(req.path)|;
            |errs| >= n1 + n2 + |MethodErrors(req.verb)|
            && errs[..n1] == ServiceNameErrors(req.service)
            && errs[n1..n1 + n2] == PathErrors(req.path)
            && errs[n1 + n2..n1 + n2 + |MethodErrors(req.verb)|] == MethodErrors(req.verb)
  {
    var q, h := QueryParamErrors(req.queryParams), HeaderErrors(req.headers);
    ThreeThenRest(ServiceNameErrors(req.service), PathErrors(req.path), MethodErrors(req.verb), q.0, h.0);
  }

  /** Where three leading pieces of a concatenation sit. */
  lemma ThreeThenRest<T>(a: seq<T>, b: seq<T>, c: seq<T>, d: seq<T>, e: seq<T>)
    ensures var s := a + b + c + d + e;
            s[..|a|] == a && s[|a|..|a| + |b|] == b && s[|a| + |b|..|a| + |b| + |c|] == c
  {
    var s := a + b + c + d + e;
    assert s[..|a|] == a;
    assert s[|a|..|a| + |b|] == b;
    assert s[|a| + |b|..|a| + |b| + |c|] == c;
  }

  /** `validateServiceName(String)`: throws "Invalid service name" with the errors, if any. */
  method ValidateServiceName(name: Option<string>) returns (r: Result<(), Failure>)
    ensures r.Ok? <==> IsValidServiceName(name)
    ensures r.Err? ==> r.error == ValidationException("Invalid service name", ServiceNameErrors(name))
  {
    var errors := new ErrorList();
    AddServiceNameErrors(name, errors);
    if errors.items != [] {
      return Err(ValidationException("Invalid service name", errors.items));
    }
    return Ok(());
  }

  /** `validatePath(String)`: throws "Invalid path" with the errors, if any. */
  method ValidatePath(path: Option<string>) returns (r: Result<(), Failure>)
    ensures r.Ok? <==> IsValidPath(path)
    ensures r.Err? ==> r.error == ValidationException("Invalid path", PathErrors(path))
  {
    var errors := new ErrorList();
    AddPathErrors(path, errors);
    if errors.items != [] {
      return Err(ValidationException("Invalid path", errors.items));
    }
    return Ok(());
  }

  /** `validateHttpMethod(String)`: throws "Invalid HTTP method" with the errors, if any. */
  method ValidateHttpMethod(verb: Option<string>) returns (r: Result<(), Failure>)
    ensures r.Ok? <==> IsValidHttpMethod(verb)
    ensures r.Err? ==> r.error == ValidationException("Invalid HTTP method", MethodErrors(verb))
  {
    var errors := new ErrorList();
    AddMethodErrors(verb, errors);
    if errors.items != [] {
      return Err(ValidationException("Invalid HTTP method", errors.items));
    }
    return Ok(());
  }
}
