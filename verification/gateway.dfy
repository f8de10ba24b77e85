/**
 * GatewayService: the gate in front of every forward (403, then 400, then the executor), the
 * query-parameter filter, the HTTP method dispatch and the assembly of multipart bodies.
 * RestTemplate is the oracle `upstream`: a function from the exchange it is asked to perform
 * to the upstream body or the exception it raises.
 */
module Gateway {
  import opened Wrappers
  import opened JavaString
  import opened Whitelist

  datatype HttpMethod = GET | POST | PUT | DELETE

  /** The URL handed to RestTemplate: the target URL and the query parameters appended to it. */
  datatype FinalUrl = FinalUrl(base: string, query: seq<(string, string)>)

  /** One value of a multipart body: a form field, or an uploaded file named by its original name. */
  datatype Part = Field(value: Option<string>) | FilePart(filename: Option<string>)

  /** A LinkedMultiValueMap: keys in insertion order, each with its values in insertion order. */
  type MultiMap = seq<(string, seq<Part>)>

  /** What travels with the request. */
  datatype Outgoing = NoEntity | Entity(body: Option<string>) | MultipartEntity(parts: MultiMap)

  /** One call on RestTemplate. */
  datatype Exchange = Exchange(url: FinalUrl, verb: HttpMethod, entity: Outgoing)

  /** The exceptions that leave a forward. */
  datatype Exception =
    | PatternSyntaxException(regex: string)
    | IllegalArgumentException(message: string)
    | RuntimeException(message: string)
    | RestClientException(message: string)

  datatype Response = Response(status: int, body: Option<string>)

  type Outcome = Result<Response, Exception>

  /** RestTemplate: the upstream body, or the exception it throws. */
  type Upstream = Exchange -> Result<Option<string>, Exception>

  /** A MultipartFile: its original name, its size, and whether reading its bytes fails. */
  datatype Upload = Upload(originalFilename: Option<string>, size: nat, readFails: bool)

  const AccessDenied: string := "Access denied: Path not whitelisted"
  const InvalidServicePath: string := "Invalid service path"

  // ---------------------------------------------------------------------------
  // The gate
  // ---------------------------------------------------------------------------

  /**
   * `validateAndExecute`: 403 unless the whitelist allows the request, 400 unless the service
   * has a target URL, otherwise the executor's outcome. The executor is given the target URL
   * (the Java executor looks it up again and gets the same value).
   */
  function ValidateAndExecute(props: WhitelistProperties, service: Option<string>, path: string,
                              executor: string -> Outcome): (r: Outcome)
    requires SafeTable(props)
    ensures IsRequestAllowed(props, service, path).Err? ==>
              r == Err(PatternSyntaxException(IsRequestAllowed(props, service, path).error.regex))
    ensures IsRequestAllowed(props, service, path) == Ok(false) ==> r == Ok(Response(403, Some(AccessDenied)))
    ensures IsRequestAllowed(props, service, path) == Ok(true) && TargetUrl(props, service, path).None? ==>
              r == Ok(Response(400, Some(InvalidServicePath)))
    ensures IsRequestAllowed(props, service, path) == Ok(true) && TargetUrl(props, service, path).Some? ==>
              r == executor(TargetUrl(props, service, path).value)
  {
    match IsRequestAllowed(props, service, path)
    case Err(e) => Err(PatternSyntaxException(e.regex))
    case Ok(allowed) =>
      if !allowed then Ok(Response(403, Some(AccessDenied)))
      else
        match TargetUrl(props, service, path)
        case None => Ok(Response(400, Some(InvalidServicePath)))
        case Some(url) => executor(url)
  }

  /** A request that is refused (403, 400 or a pattern error) never reaches the executor. */
  lemma RefusedIgnoresExecutor(props: WhitelistProperties, service: Option<string>, path: string,
                               ex1: string -> Outcome, ex2: string -> Outcome)
    requires SafeTable(props)
    requires ValidateAndExecute(props, service, path, ex1) != ValidateAndExecute(props, service, path, ex2)
    ensures IsRequestAllowed(props, service, path) == Ok(true)
    ensures ServiceByName(props, service).Some?
  {
  }

  /** With the whitelist off, an unknown service passes the first check and is refused with 400. */
  lemma DisabledUnknownServiceIs400(props: WhitelistProperties, service: Option<string>, path: string,
                                    executor: string -> Outcome)
    requires SafeTable(props) && !props.enabled && ServiceByName(props, service).None?
    ensures ValidateAndExecute(props, service, path, executor) == Ok(Response(400, Some(InvalidServicePath)))
  {
  }

  /** With the whitelist on, an allowed request always has a target URL, so the 400 answer cannot arise. */
  lemma EnabledAllowedHasTarget(props: WhitelistProperties, service: Option<string>, path: string)
    requires SafeTable(props) && props.enabled
    requires IsRequestAllowed(props, service, path) == Ok(true)
    ensures TargetUrl(props, service, path).Some?
  {
  }

  // ---------------------------------------------------------------------------
  // Query parameters
  // ---------------------------------------------------------------------------

  /** A value kept by the filter: non-null, and not empty after `trim`. */
  predicate KeptValue(v: Option<string>) {
    v.Some? && Trim(v.value) != []
  }

  /** The entries the filter keeps, in map iteration order. */
  function KeptParams(params: seq<(string, Option<string>)>): (kept: seq<(string, string)>)
    ensures |kept| <= |params|
    ensures forall i :: 0 <= i < |kept| ==> (kept[i].0, Some(kept[i].1)) in params && Trim(kept[i].1) != []
    ensures forall p :: p in params && KeptValue(p.1) ==> (p.0, p.1.value) in kept
  {
    if params == [] then []
    else
      var rest := KeptParams(params[1..]);
      var kept := if KeptValue(params[0].1) then [(params[0].0, params[0].1.value)] + rest else rest;
      KeptParamsStep(params, rest, kept);
      kept
  }

  /** One step of the filter keeps the properties KeptParams promises. */
  lemma KeptParamsStep(params: seq<(string, Option<string>)>, rest: seq<(string, string)>, kept: seq<(string, string)>)
    requires params != []
    requires |rest| <= |params| - 1
    requires forall i :: 0 <= i < |rest| ==> (rest[i].0, Some(rest[i].1)) in params[1..] && Trim(rest[i].1) != []
    requires forall p :: p in params[1..] && KeptValue(p.1) ==> (p.0, p.1.value) in rest
    requires kept == if KeptValue(params[0].1) then [(params[0].0, params[0].1.value)] + rest else rest
    ensures |kept| <= |params|
    ensures forall i :: 0 <= i < |kept| ==> (kept[i].0, Some(kept[i].1)) in params && Trim(kept[i].1) != []
    ensures forall p :: p in params && KeptValue(p.1) ==> (p.0, p.1.value) in kept
  {
    forall i | 0 <= i < |kept|
      ensures (kept[i].0, Some(kept[i].1)) in params && Trim(kept[i].1) != []
    {
      if KeptValue(params[0].1) && i == 0 {
        assert (kept[0].0, Some(kept[0].1)) == params[0];
      } else {
        var r := if KeptValue(params[0].1) then i - 1 else i;
        assert kept[i] == rest[r];
        assert (rest[r].0, Some(rest[r].1)) in params[1..];
      }
    }
    forall p | p in params && KeptValue(p.1)
      ensures (p.0, p.1.value) in kept
    {
      if p != params[0] {
        assert p in params[1..];
      }
    }
  }

  /** The filter keeps entries in their iteration order: it distributes over concatenation. */
  lemma {:induction false} KeptParamsConcat(a: seq<(string, Option<string>)>, b: seq<(string, Option<string>)>)
    ensures KeptParams(a + b) == KeptParams(a) + KeptParams(b)
    decreases |a|
  {
    if a == [] {
      assert a + b == b;
    } else {
      assert (a + b)[1..] == a[1..] + b;
      KeptParamsConcat(a[1..], b);
    }
  }

  lemma KeptParamsSnoc(entries: seq<(string, Option<string>)>, i: nat)
    requires i < |entries|
    ensures KeptParams(entries[..i + 1]) ==
            KeptParams(entries[..i]) + (if KeptValue(entries[i].1) then [(entries[i].0, entries[i].1.value)] else [])
  {
    var e := entries[i];
    assert entries[..i + 1] == entries[..i] + [e];
    KeptParamsConcat(entries[..i], [e]);
    KeptParamsOne(e);
  }

  lemma KeptParamsOne(e: (string, Option<string>))
    ensures KeptParams([e]) == if KeptValue(e.1) then [(e.0, e.1.value)] else []
  {
    assert [e][1..] == [];
  }

  // ---------------------------------------------------------------------------
  // The URL builder
  // ---------------------------------------------------------------------------

  /** The length of the longest prefix of `s` whose characters all satisfy `p`. */
  function Run(s: string, p: char -> bool): (n: nat)
    ensures n <= |s|
    ensures forall i :: 0 <= i < n ==> p(s[i])
    ensures n < |s| ==> !p(s[n])
  {
    if s == [] || !p(s[0]) then 0
    else
      var n := Run(s[1..], p);
      assert forall i :: 1 <= i < |s| ==> s[i] == s[1..][i - 1];
      1 + n
  }

  /** `[\p{XDigit}:.]`, the first run inside a bracketed IPv6 host. */
  predicate HexOrSep(c: char) {
    '0' <= c <= '9' || 'a' <= c <= 'f' || 'A' <= c <= 'F' || c == ':' || c == '.'
  }

  /** `[%\p{Alnum}]`, the zone run inside a bracketed IPv6 host. */
  predicate ZoneChar(c: char) {
    c == '%' || '0' <= c <= '9' || 'a' <= c <= 'z' || 'A' <= c <= 'Z'
  }

  /** A bracketed IPv6 host at the head of `s`: '[', hex digits, ':' and '.', then a zone, then ']'. */
  predicate BracketHost(s: string) {
    s != [] && s[0] == '[' &&
    var a := Run(s[1..], HexOrSep);
    var b := Run(s[1 + a..], ZoneChar);
    1 + a + b < |s| && s[1 + a + b] == ']'
  }

  /** A user-info character: anything but `@[/?#`. */
  predicate UserInfoChar(c: char) {
    c !in "@[/?#"
  }

  /**
   * The authority after `//` names a host: user info is skipped when a '@' ends the first run of
   * user-info characters, and the host after it is a bracketed IPv6 host or starts with a
   * character other than `/?#:`.
   */
  predicate HostFollows(a: string) {
    var k := Run(a, UserInfoChar);
    var h := if k < |a| && a[k] == '@' then k + 1 else 0;
    h < |a| && (if a[h] == '[' then BracketHost(a[h..]) else a[h] !in "/?#:")
  }

  /** Where the scheme `http:` or `https:`, in any letter case, ends; 0 when neither starts the URL. */
  function SchemeEnd(url: string): (n: nat)
    ensures n <= |url|
    ensures n > 0 ==> n == 5 || n == 6
  {
    if |url| >= 5 && EqualsIgnoreCase(url[..5], "http:") then 5
    else if |url| >= 6 && EqualsIgnoreCase(url[..6], "https:") then 6
    else 0
  }

  /** What follows the scheme: `//` and an authority that names a host. */
  predicate AuthorityWithHost(t: string) {
    |t| >= 2 && t[..2] == "//" && HostFollows(t[2..])
  }

  predicate NotHash(c: char) {
    c != '#'
  }

  /** The fragment, from the first '#' on, holds no line terminator, since `(#(.*))?` must reach the end. */
  predicate FragmentOk(url: string) {
    var h := Run(url, NotHash);
    forall j :: h < j < |url| ==> !IsLineTerminator(url[j])
  }

  /**
   * `UriComponentsBuilder.fromHttpUrl` accepts the URL: it starts with `http:` or `https:` in any
   * letter case and its fragment is a single line. The host is checked only when the scheme as
   * written starts with lower-case "http": then `//` and a non-empty host must follow.
   */
  predicate HttpUrl(url: string) {
    && SchemeEnd(url) > 0
    && FragmentOk(url)
    && (url[..4] == "http" ==> AuthorityWithHost(url[SchemeEnd(url)..]))
  }

  /** The message of the IllegalArgumentException `fromHttpUrl` throws. */
  function InvalidHttpUrl(url: string): string {
    "[" + url + "] is not a valid HTTP URL"
  }

  /** `buildUrlWithQueryParams` as a value, which the forwards use. */
  function FinalUrlOf(url: string, queryParams: Option<seq<(string, Option<string>)>>): Result<FinalUrl, Exception> {
    if queryParams.None? || queryParams.value == [] then Ok(FinalUrl(url, []))
    else if !HttpUrl(url) then Err(IllegalArgumentException(InvalidHttpUrl(url)))
    else Ok(FinalUrl(url, KeptParams(queryParams.value)))
  }

  /**
   * `buildUrlWithQueryParams`: a null or empty map leaves the URL alone. Otherwise `fromHttpUrl`
   * refuses a URL that is not http(s) with a host, and only the kept entries are added.
   */
  method BuildUrlWithQueryParams(url: string, queryParams: Option<seq<(string, Option<string>)>>)
    returns (r: Result<FinalUrl, Exception>)
    ensures queryParams.None? || queryParams.value == [] ==> r == Ok(FinalUrl(url, []))
    ensures queryParams.Some? && queryParams.value != [] && !HttpUrl(url) ==>
              r == Err(IllegalArgumentException(InvalidHttpUrl(url)))
    ensures queryParams.Some? && queryParams.value != [] && HttpUrl(url) ==>
              r == Ok(FinalUrl(url, KeptParams(queryParams.value)))
  {
    if queryParams.None? || queryParams.value == [] {
      return Ok(FinalUrl(url, []));
    }
    if !HttpUrl(url) {
      return Err(IllegalArgumentException(InvalidHttpUrl(url)));
    }
    var query := AddQueryParams(queryParams.value);
    return Ok(FinalUrl(url, query));
  }

  /** The stream over the map's entries: `queryParam` for each entry whose value is kept, in order. */
  method AddQueryParams(entries: seq<(string, Option<string>)>) returns (query: seq<(string, string)>)
    ensures query == KeptParams(entries)
  {
    query := [];
    var i := 0;
    while i < |entries|
      invariant 0 <= i <= |entries|
      invariant query == KeptParams(entries[..i])
    {
      var entry := entries[i];
      KeptParamsSnoc(entries, i);
      if entry.1.Some? && Trim(entry.1.value) != [] {
        query := query + [(entry.0, entry.1.value)];
      }
      i := i + 1;
    }
    assert entries[..i] == entries;
  }

  /** `fromHttpUrl` accepts `http://` followed by a host name and a port, path, query or fragment. */
  lemma HttpHostAccepted(host: string, rest: string)
    requires host != [] && host[0] !in "[/?#:"
    requires '@' !in host + rest
    requires forall i :: 0 <= i < |host + rest| ==> !IsLineTerminator((host + rest)[i])
    ensures HttpUrl("http://" + host + rest)
  {
    var url := "http://" + host + rest;
    assert url[..5] == "http:";
    assert SchemeEnd(url) == 5;
    assert url[..4] == "http";
    var t := url[5..];
    assert t[..2] == "//";
    var a := t[2..];
    assert a == host + rest;
    var k := Run(a, UserInfoChar);
    assert k < |a| ==> a[k] != '@' by {
      if k < |a| {
        assert a[k] in host + rest;
      }
    }
    assert a[0] == host[0];
    SingleLineFragmentOk("http://", host + rest);
  }

  /** A URL whose characters after a prefix are all off the line-terminator list has a single-line fragment. */
  lemma SingleLineFragmentOk(prefix: string, tail: string)
    requires forall i :: 0 <= i < |prefix| ==> !IsLineTerminator(prefix[i])
    requires forall i :: 0 <= i < |tail| ==> !IsLineTerminator(tail[i])
    ensures FragmentOk(prefix + tail)
  {
    var url := prefix + tail;
    forall j | 0 <= j < |url|
      ensures !IsLineTerminator(url[j])
    {
      if j >= |prefix| {
        assert url[j] == tail[j - |prefix|];
      }
    }
  }

  /** A lower-case scheme needs a host: `http:///x` is refused. */
  lemma EmptyHostRefused(rest: string)
    ensures !HttpUrl("http:///" + rest)
  {
    var url := "http:///" + rest;
    assert url[..4] == "http";
    assert url[..5] == "http:";
    assert SchemeEnd(url) == 5;
    assert url[5..][2..] == "/" + rest;
  }

  /** The host check is made only for a scheme written with lower-case "http": `HTTP:///x` is accepted. */
  lemma UpperCaseSchemeSkipsHostCheck(rest: string)
    requires forall i :: 0 <= i < |rest| ==> !IsLineTerminator(rest[i])
    ensures HttpUrl("HTTP:///" + rest)
  {
    var url := "HTTP:///" + rest;
    assert url[..5] == "HTTP:";
    assert ToUpper("HTTP:") == ToUpper("http:");
    assert SchemeEnd(url) == 5;
    assert url[..4] != "http" by {
      assert url[0] != 'h';
    }
    SingleLineFragmentOk("HTTP:///", rest);
  }

  /** A service without a base URL has the target "null" + path, which `fromHttpUrl` refuses. */
  lemma NullTargetIsNotHttp(path: string)
    ensures !HttpUrl("null" + path)
  {
    var url := "null" + path;
    assert url[0] == 'n';
    if |url| >= 5 {
      assert ToUpper(url[..5])[0] == 'N';
    }
    if |url| >= 6 {
      assert ToUpper(url[..6])[0] == 'N';
    }
  }

  // ---------------------------------------------------------------------------
  // Method dispatch
  // ---------------------------------------------------------------------------

  /** The switch of `makeRequest` on the upper-cased method name. */
  function DispatchMethod(verb: string): (m: Option<HttpMethod>)
    ensures m == Some(GET) <==> EqualsIgnoreCase(verb, "GET")
    ensures m == Some(POST) <==> EqualsIgnoreCase(verb, "POST")
    ensures m == Some(PUT) <==> EqualsIgnoreCase(verb, "PUT")
    ensures m == Some(DELETE) <==> EqualsIgnoreCase(verb, "DELETE")
  {
    UpperLiteral();
    var upper := ToUpper(verb);
    if upper == "GET" then Some(GET)
    else if upper == "POST" then Some(POST)
    else if upper == "PUT" then Some(PUT)
    else if upper == "DELETE" then Some(DELETE)
    else None
  }

  lemma UpperLiteral()
    ensures ToUpper("GET") == "GET" && ToUpper("POST") == "POST"
    ensures ToUpper("PUT") == "PUT" && ToUpper("DELETE") == "DELETE"
  {
  }

  /** `makeRequest`: GET sends no body, the others send the request body; anything else is refused. */
  function MakeRequest(verb: string, url: FinalUrl, body: Option<string>, upstream: Upstream): (r: Result<Option<string>, Exception>)
    ensures DispatchMethod(verb).None? ==> r == Err(IllegalArgumentException("Unsupported method: " + verb))
    ensures DispatchMethod(verb) == Some(GET) ==> r == upstream(Exchange(url, GET, NoEntity))
    ensures DispatchMethod(verb).Some? && DispatchMethod(verb) != Some(GET) ==>
              r == upstream(Exchange(url, DispatchMethod(verb).value, Entity(body)))
  {
    match DispatchMethod(verb)
    case None => Err(IllegalArgumentException("Unsupported method: " + verb))
    case Some(GET) => upstream(Exchange(url, GET, NoEntity))
    case Some(m) => upstream(Exchange(url, m, Entity(body)))
  }

  /** PATCH, HEAD and OPTIONS pass validation but are not forwarded; case does not matter for the rest. */
  lemma DispatchExamples()
    ensures DispatchMethod("PATCH").None? && DispatchMethod("HEAD").None? && DispatchMethod("OPTIONS").None?
    ensures DispatchMethod("get") == Some(GET) && DispatchMethod("Delete") == Some(DELETE)
  {
    assert ToUpper("PATCH") == "PATCH";
    assert ToUpper("HEAD") == "HEAD";
    assert ToUpper("OPTIONS") == "OPTIONS";
    assert ToUpper("get") == "GET";
    assert ToUpper("Delete") == "DELETE";
  }

  /** The multipart verb: PUT when the method equals "PUT" ignoring case, POST for anything else. */
  function MultipartMethod(verb: string): (m: HttpMethod)
    ensures m == PUT <==> DispatchMethod(verb) == Some(PUT)
    ensures m != PUT ==> m == POST
  {
    if EqualsIgnoreCase("PUT", verb) then PUT else POST
  }

  // ---------------------------------------------------------------------------
  // Multipart bodies
  // ---------------------------------------------------------------------------

  /** The keys of a multi-value map, in insertion order. */
  function Keys(m: MultiMap): seq<string> {
    if m == [] then [] else [m[0].0] + Keys(m[1..])
  }

  /** The values stored under `k` (empty when `k` is absent). */
  function ValuesOf(m: MultiMap, k: string): seq<Part> {
    if m == [] then []
    else if m[0].0 == k then m[0].1
    else ValuesOf(m[1..], k)
  }

  /** No string occurs twice. */
  predicate NoDup(s: seq<string>) {
    s == [] || (s[0] !in s[1..] && NoDup(s[1..]))
  }

  /** `add(k, v)`: appends `v` to the list of `k`, creating the key at the end if it is new. */
  function Add(m: MultiMap, k: string, v: Part): MultiMap {
    if m == [] then [(k, [v])]
    else if m[0].0 == k then [(k, m[0].1 + [v])] + m[1..]
    else [m[0]] + Add(m[1..], k, v)
  }

  /** `add` appends to the list of its own key and leaves every other list alone. */
  lemma {:induction false} AddValues(m: MultiMap, k: string, v: Part, k': string)
    ensures ValuesOf(Add(m, k, v), k') == ValuesOf(m, k') + (if k' == k then [v] else [])
  {
    if m == [] {
      assert ValuesOf([(k, [v])], k') == if k' == k then [v] else [];
    } else if m[0].0 == k {
      var r := [(k, m[0].1 + [v])] + m[1..];
      assert r[0] == (k, m[0].1 + [v]) && r[1..] == m[1..];
    } else {
      var rest := Add(m[1..], k, v);
      var r := [m[0]] + rest;
      assert r[0] == m[0] && r[1..] == rest;
      AddValues(m[1..], k, v, k');
    }
  }

  /** `add` keeps the key order and puts a new key last. */
  lemma {:induction false} AddKeys(m: MultiMap, k: string, v: Part)
    ensures Keys(Add(m, k, v)) == if k in Keys(m) then Keys(m) else Keys(m) + [k]
  {
    if m == [] {
      assert Keys([(k, [v])]) == [k];
    } else if m[0].0 == k {
      var r := [(k, m[0].1 + [v])] + m[1..];
      assert r[0].0 == k && r[1..] == m[1..];
      assert k in Keys(m) by { assert Keys(m)[0] == k; }
    } else {
      var rest := Add(m[1..], k, v);
      var r := [m[0]] + rest;
      assert r[0] == m[0] && r[1..] == rest;
      AddKeys(m[1..], k, v);
      assert Keys(m) == [m[0].0] + Keys(m[1..]);
      assert k in Keys(m) <==> k in Keys(m[1..]);
    }
  }

  /** The keys of a form map, in iteration order. */
  function FormKeys(form: seq<(string, Option<string>)>): seq<string> {
    if form == [] then [] else [form[0].0] + FormKeys(form[1..])
  }

  /** The values the form holds under `k`, in iteration order. */
  function FormValues(form: seq<(string, Option<string>)>, k: string): seq<Part> {
    if form == [] then []
    else (if form[0].0 == k then [Field(form[0].1)] else []) + FormValues(form[1..], k)
  }

  /** A file the loop attaches: present and not empty. */
  predicate Attached(f: Option<Upload>) {
    f.Some? && f.value.size > 0
  }

  /** The file parts, one per attached file, in array order. */
  function FileParts(files: seq<Option<Upload>>): seq<Part> {
    if files == [] then []
    else (if Attached(files[0]) then [FilePart(files[0].value.originalFilename)] else []) + FileParts(files[1..])
  }

  /** The first attached file whose bytes cannot be read, if any. */
  function FirstUnreadable(files: seq<Option<Upload>>): Option<Upload> {
    if files == [] then None
    else if Attached(files[0]) && files[0].value.readFails then Some(files[0].value)
    else FirstUnreadable(files[1..])
  }

  /** `form.forEach(multipartBody::add)`. */
  function AddForm(m: MultiMap, form: seq<(string, Option<string>)>): MultiMap
    decreases |form|
  {
    if form == [] then m else AddForm(Add(m, form[0].0, Field(form[0].1)), form[1..])
  }

  /** The file loop, once every attached file has been read. */
  function AddFiles(m: MultiMap, files: seq<Option<Upload>>): MultiMap
    decreases |files|
  {
    if files == [] then m
    else AddFiles(if Attached(files[0]) then Add(m, "file", FilePart(files[0].value.originalFilename)) else m, files[1..])
  }

  /** The multipart body as a value: the form then the files, or the failure to read a file. */
  function MultipartBody(form: Option<seq<(string, Option<string>)>>, files: Option<seq<Option<Upload>>>): Result<MultiMap, Exception>
  {
    var fm := if form.Some? then form.value else [];
    var fs := if files.Some? then files.value else [];
    match FirstUnreadable(fs)
    case Some(f) => Err(RuntimeException("Failed to read uploaded file: " + ConcatNullable(f.originalFilename, "")))
    case None => Ok(AddFiles(AddForm([], fm), fs))
  }

  /** The form loop appends each field's value to its key's list, in form order. */
  lemma AddFormValues(m: MultiMap, form: seq<(string, Option<string>)>)
    ensures forall k :: ValuesOf(AddForm(m, form), k) == ValuesOf(m, k) + FormValues(form, k)
  {
    forall k ensures ValuesOf(AddForm(m, form), k) == ValuesOf(m, k) + FormValues(form, k) {
      AddFormValuesAt(m, form, k);
    }
  }

  lemma {:induction false} AddFormValuesAt(m: MultiMap, form: seq<(string, Option<string>)>, k: string)
    ensures ValuesOf(AddForm(m, form), k) == ValuesOf(m, k) + FormValues(form, k)
    decreases |form|
  {
    if form == [] {
      assert ValuesOf(m, k) + [] == ValuesOf(m, k);
    } else {
      var k0, v0, rest := form[0].0, Field(form[0].1), form[1..];
      var m1 := Add(m, k0, v0);
      var added := if k == k0 then [v0] else [];
      calc {
        ValuesOf(AddForm(m, form), k);
        ValuesOf(AddForm(m1, rest), k);
        { AddFormValuesAt(m1, rest, k); }
        ValuesOf(m1, k) + FormValues(rest, k);
        { AddValues(m, k0, v0, k); }
        (ValuesOf(m, k) + added) + FormValues(rest, k);
        { AppendAssoc(ValuesOf(m, k), added, FormValues(rest, k)); }
        ValuesOf(m, k) + (added + FormValues(rest, k));
        ValuesOf(m, k) + FormValues(form, k);
      }
    }
  }

  /** With keys that stay unique, the form loop adds the form's keys after the map's, in order. */
  lemma {:induction false} AddFormKeys(m: MultiMap, form: seq<(string, Option<string>)>)
    requires NoDup(Keys(m) + FormKeys(form))
    ensures Keys(AddForm(m, form)) == Keys(m) + FormKeys(form)
    decreases |form|
  {
    if form == [] {
      assert Keys(m) + FormKeys(form) == Keys(m);
    } else {
      var k0, rest := form[0].0, form[1..];
      var m1 := Add(m, k0, Field(form[0].1));
      assert FormKeys(form) == [k0] + FormKeys(rest);
      assert k0 !in Keys(m) by { NoDupSplit(Keys(m), FormKeys(form)); }
      assert Keys(m1) == Keys(m) + [k0] by { AddKeys(m, k0, Field(form[0].1)); }
      assert Keys(m1) + FormKeys(rest) == Keys(m) + FormKeys(form);
      AddFormKeys(m1, rest);
    }
  }

  /** A duplicate-free concatenation has no key in both halves. */
  lemma {:induction false} NoDupSplit(a: seq<string>, b: seq<string>)
    requires NoDup(a + b)
    ensures b != [] ==> b[0] !in a
    decreases |a|
  {
    if a != [] {
      assert (a + b)[1..] == a[1..] + b;
      if b != [] {
        assert b[0] in (a + b)[1..];
        NoDupSplit(a[1..], b);
      }
    }
  }

  /** The file loop appends one part per attached file to the list under "file". */
  lemma AddFilesValues(m: MultiMap, files: seq<Option<Upload>>)
    ensures forall k :: ValuesOf(AddFiles(m, files), k) == ValuesOf(m, k) + (if k == "file" then FileParts(files) else [])
  {
    forall k ensures ValuesOf(AddFiles(m, files), k) == ValuesOf(m, k) + (if k == "file" then FileParts(files) else []) {
      AddFilesValuesAt(m, files, k);
    }
  }

  lemma {:induction false} AddFilesValuesAt(m: MultiMap, files: seq<Option<Upload>>, k: string)
    ensures ValuesOf(AddFiles(m, files), k) == ValuesOf(m, k) + (if k == "file" then FileParts(files) else [])
    decreases |files|
  {
    if files == [] {
      assert ValuesOf(m, k) + [] == ValuesOf(m, k);
    } else {
      var f, rest := files[0], files[1..];
      var part := if Attached(f) then [FilePart(f.value.originalFilename)] else [];
      var m1 := if Attached(f) then Add(m, "file", FilePart(f.value.originalFilename)) else m;
      var added := if k == "file" then part else [];
      var tail := if k == "file" then FileParts(rest) else [];
      calc {
        ValuesOf(AddFiles(m, files), k);
        ValuesOf(AddFiles(m1, rest), k);
        { AddFilesValuesAt(m1, rest, k); }
        ValuesOf(m1, k) + tail;
        { if Attached(f) { AddValues(m, "file", FilePart(f.value.originalFilename), k); } }
        (ValuesOf(m, k) + added) + tail;
        { AppendAssoc(ValuesOf(m, k), added, tail); }
        ValuesOf(m, k) + (added + tail);
        { assert FileParts(files) == part + FileParts(rest); }
        ValuesOf(m, k) + (if k == "file" then FileParts(files) else []);
      }
    }
  }

  /** The file loop adds the key "file" last, once, when it attaches a file and the key is new. */
  lemma {:induction false} AddFilesKeys(m: MultiMap, files: seq<Option<Upload>>)
    ensures Keys(AddFiles(m, files)) == Keys(m) + (if "file" in Keys(m) || FileParts(files) == [] then [] else ["file"])
    decreases |files|
  {
    if files == [] {
      assert Keys(m) + [] == Keys(m);
    } else {
      var f, rest := files[0], files[1..];
      var m1 := if Attached(f) then Add(m, "file", FilePart(f.value.originalFilename)) else m;
      assert AddFiles(m, files) == AddFiles(m1, rest);
      assert FileParts(files) == (if Attached(f) then [FilePart(f.value.originalFilename)] else []) + FileParts(rest);
      AddFilesKeys(m1, rest);
      if Attached(f) {
        assert Keys(m1) == if "file" in Keys(m) then Keys(m) else Keys(m) + ["file"] by {
          AddKeys(m, "file", FilePart(f.value.originalFilename));
        }
        assert "file" in Keys(m1) by {
          if "file" !in Keys(m) { assert Keys(m1)[|Keys(m)|] == "file"; }
        }
      }
    }
  }

  /** The form keys stay unique, with "file" added after them only if some file was attached to a new key. */
  lemma MultipartBodyContents(form: Option<seq<(string, Option<string>)>>, files: Option<seq<Option<Upload>>>)
    requires form.Some? ==> NoDup(FormKeys(form.value))
    ensures var fs := if files.Some? then files.value else [];
            MultipartBody(form, files).Err? <==> FirstUnreadable(fs).Some?
    ensures var fm := if form.Some? then form.value else [];
            var fs := if files.Some? then files.value else [];
            var r := MultipartBody(form, files);
            r.Ok? ==> (
              && (forall k :: ValuesOf(r.value, k) == FormValues(fm, k) + (if k == "file" then FileParts(fs) else []))
              && Keys(r.value) == FormKeys(fm) + (if "file" in FormKeys(fm) || FileParts(fs) == [] then [] else ["file"]))
  {
    var fm := if form.Some? then form.value else [];
    var fs := if files.Some? then files.value else [];
    AddFormValues([], fm);
    assert [] + FormKeys(fm) == FormKeys(fm);
    if form.Some? {
      AddFormKeys([], fm);
    }
    assert forall k :: ValuesOf([], k) + FormValues(fm, k) == FormValues(fm, k);
    AddFilesValues(AddForm([], fm), fs);
    AddFilesKeys(AddForm([], fm), fs);
  }

  lemma {:induction false} AddFormSnoc(m: MultiMap, form: seq<(string, Option<string>)>, i: nat)
    requires i < |form|
    ensures AddForm(m, form[..i + 1]) == Add(AddForm(m, form[..i]), form[i].0, Field(form[i].1))
    decreases i
  {
    if i > 0 {
      assert form[..i + 1][1..] == form[1..][..i];
      assert form[..i][1..] == form[1..][..i - 1];
      AddFormSnoc(Add(m, form[0].0, Field(form[0].1)), form[1..], i - 1);
    } else {
      assert form[..1][1..] == [];
    }
  }

  lemma {:induction false} AddFilesSnoc(m: MultiMap, files: seq<Option<Upload>>, i: nat)
    requires i < |files|
    ensures AddFiles(m, files[..i + 1]) ==
            if Attached(files[i]) then Add(AddFiles(m, files[..i]), "file", FilePart(files[i].value.originalFilename))
            else AddFiles(m, files[..i])
    ensures FirstUnreadable(files[..i]).None? ==>
              FirstUnreadable(files[..i + 1]) == if Attached(files[i]) && files[i].value.readFails then Some(files[i].value) else None
    ensures FirstUnreadable(files[..i]).Some? ==> FirstUnreadable(files[..i + 1]) == FirstUnreadable(files[..i])
    decreases i
  {
    if i > 0 {
      assert files[..i + 1][1..] == files[1..][..i];
      assert files[..i][1..] == files[1..][..i - 1];
      var m1 := if Attached(files[0]) then Add(m, "file", FilePart(files[0].value.originalFilename)) else m;
      AddFilesSnoc(m1, files[1..], i - 1);
    } else {
      assert files[..1][1..] == [];
    }
  }

  /** Once a prefix holds an unreadable attached file, so does every longer prefix and the whole list. */
  lemma {:induction false} FirstUnreadableExtends(files: seq<Option<Upload>>, n: nat)
    requires n <= |files|
    ensures FirstUnreadable(files[..n]).Some? ==> FirstUnreadable(files) == FirstUnreadable(files[..n])
    decreases |files| - n
  {
    if n < |files| {
      AddFilesSnoc([], files, n);
      FirstUnreadableExtends(files, n + 1);
    } else {
      assert files[..n] == files;
    }
  }

  /**
   * `buildMultipartBody`: every form entry first, in map order, then one "file" part per
   * attached file in array order. Reading an attached file's bytes may fail, which ends the
   * build with a RuntimeException naming the file.
   */
  method BuildMultipartBody(form: Option<seq<(string, Option<string>)>>, files: Option<seq<Option<Upload>>>)
    returns (r: Result<MultiMap, Exception>)
    ensures r == MultipartBody(form, files)
  {
    var body: MultiMap := [];
    var fm := if form.Some? then form.value else [];
    var fs := if files.Some? then files.value else [];
    var i := 0;
    while i < |fm|
      invariant 0 <= i <= |fm|
      invariant body == AddForm([], fm[..i])
    {
      AddFormSnoc([], fm, i);
      body := Add(body, fm[i].0, Field(fm[i].1));
      i := i + 1;
    }
    assert fm[..i] == fm;
    var j := 0;
    while j < |fs|
      invariant 0 <= j <= |fs|
      invariant FirstUnreadable(fs[..j]).None?
      invariant body == AddFiles(AddForm([], fm), fs[..j])
    {
      AddFilesSnoc(AddForm([], fm), fs, j);
      var file := fs[j];
      if file.Some? && file.value.size > 0 {
        if file.value.readFails {
          FirstUnreadableExtends(fs, j + 1);
          return Err(RuntimeException("Failed to read uploaded file: " + ConcatNullable(file.value.originalFilename, "")));
        }
        body := Add(body, "file", FilePart(file.value.originalFilename));
      }
      j := j + 1;
    }
    assert fs[..j] == fs;
    return Ok(body);
  }

  // ---------------------------------------------------------------------------
  // Forwarding
  // ---------------------------------------------------------------------------

  /** A successful upstream answer is always wrapped as 200 with the upstream body. */
  function Wrap(r: Result<Option<string>, Exception>): (o: Outcome)
    ensures r.Ok? ==> o == Ok(Response(200, r.value))
    ensures r.Err? ==> o == Err(r.error)
  {
    match r
    case Ok(b) => Ok(Response(200, b))
    case Err(e) => Err(e)
  }

  /** `forwardRequest`. */
  function ForwardRequest(props: WhitelistProperties, service: Option<string>, path: string, verb: string,
                          queryParams: Option<seq<(string, Option<string>)>>, body: Option<string>,
                          upstream: Upstream): Outcome
    requires SafeTable(props)
  {
    ValidateAndExecute(props, service, path,
      url =>
        match FinalUrlOf(url, queryParams)
        case Err(e) => Err(e)
        case Ok(finalUrl) => Wrap(MakeRequest(verb, finalUrl, body, upstream)))
  }

  /** `forwardMultipartRequest`: PUT or POST with the multipart entity, wrapped as 200. */
  function ForwardMultipartRequest(props: WhitelistProperties, service: Option<string>, path: string, verb: string,
                                   queryParams: Option<seq<(string, Option<string>)>>,
                                   form: Option<seq<(string, Option<string>)>>, files: Option<seq<Option<Upload>>>,
                                   upstream: Upstream): Outcome
    requires SafeTable(props)
  {
    ValidateAndExecute(props, service, path,
      url =>
        match FinalUrlOf(url, queryParams)
        case Err(e) => Err(e)
        case Ok(finalUrl) =>
          match MultipartBody(form, files)
          case Err(e) => Err(e)
          case Ok(parts) => Wrap(upstream(Exchange(finalUrl, MultipartMethod(verb), MultipartEntity(parts)))))
  }

  /** The query map is non-empty, so the target URL goes through `fromHttpUrl`. */
  predicate HasParams(queryParams: Option<seq<(string, Option<string>)>>) {
    queryParams.Some? && queryParams.value != []
  }

  /**
   * A forward reaches RestTemplate only for an allowed request to a known service whose URL the
   * builder accepts, and then with the dispatched method, the base URL followed by the path, and
   * the kept query entries.
   */
  lemma ForwardContract(props: WhitelistProperties, service: Option<string>, path: string, verb: string,
                        queryParams: Option<seq<(string, Option<string>)>>, body: Option<string>, upstream: Upstream)
    requires SafeTable(props)
    ensures var r := ForwardRequest(props, service, path, verb, queryParams, body, upstream);
            IsRequestAllowed(props, service, path) == Ok(false) ==> r == Ok(Response(403, Some(AccessDenied)))
    ensures var r := ForwardRequest(props, service, path, verb, queryParams, body, upstream);
            IsRequestAllowed(props, service, path) == Ok(true) && ServiceByName(props, service).Some? ==>
              var target := ConcatNullable(ServiceByName(props, service).value.baseUrl, path);
              HasParams(queryParams) && !HttpUrl(target) ==> r == Err(IllegalArgumentException(InvalidHttpUrl(target)))
    ensures var r := ForwardRequest(props, service, path, verb, queryParams, body, upstream);
            IsRequestAllowed(props, service, path) == Ok(true) && ServiceByName(props, service).Some? ==>
              var target := ConcatNullable(ServiceByName(props, service).value.baseUrl, path);
              var url := FinalUrl(target, if queryParams.Some? then KeptParams(queryParams.value) else []);
              !(HasParams(queryParams) && !HttpUrl(target)) ==>
                match DispatchMethod(verb)
                case None => r == Err(IllegalArgumentException("Unsupported method: " + verb))
                case Some(m) => r == Wrap(upstream(Exchange(url, m, if m == GET then NoEntity else Entity(body))))
  {
    if IsRequestAllowed(props, service, path) == Ok(true) && ServiceByName(props, service).Some? {
      var target := ConcatNullable(ServiceByName(props, service).value.baseUrl, path);
      assert TargetUrl(props, service, path) == Some(target);
    }
  }

  /**
   * A multipart forward reaches RestTemplate only for an allowed request to a known service whose
   * URL the builder accepts, and then, unless reading a file fails, with PUT or POST, the same
   * URL, and the built body. The URL is built before the files are read.
   */
  lemma ForwardMultipartContract(props: WhitelistProperties, service: Option<string>, path: string, verb: string,
                                 queryParams: Option<seq<(string, Option<string>)>>,
                                 form: Option<seq<(string, Option<string>)>>, files: Option<seq<Option<Upload>>>,
                                 upstream: Upstream)
    requires SafeTable(props)
    ensures var r := ForwardMultipartRequest(props, service, path, verb, queryParams, form, files, upstream);
            IsRequestAllowed(props, service, path) == Ok(false) ==> r == Ok(Response(403, Some(AccessDenied)))
    ensures var r := ForwardMultipartRequest(props, service, path, verb, queryParams, form, files, upstream);
            IsRequestAllowed(props, service, path) == Ok(true) && ServiceByName(props, service).Some? ==>
              var target := ConcatNullable(ServiceByName(props, service).value.baseUrl, path);
              HasParams(queryParams) && !HttpUrl(target) ==> r == Err(IllegalArgumentException(InvalidHttpUrl(target)))
    ensures var r := ForwardMultipartRequest(props, service, path, verb, queryParams, form, files, upstream);
            IsRequestAllowed(props, service, path) == Ok(true) && ServiceByName(props, service).Some? ==>
              var target := ConcatNullable(ServiceByName(props, service).value.baseUrl, path);
              var url := FinalUrl(target, if queryParams.Some? then KeptParams(queryParams.value) else []);
              !(HasParams(queryParams) && !HttpUrl(target)) ==>
                match MultipartBody(form, files)
                case Err(e) => r == Err(e)
                case Ok(parts) => r == Wrap(upstream(Exchange(url, MultipartMethod(verb), MultipartEntity(parts))))
  {
    if IsRequestAllowed(props, service, path) == Ok(true) && ServiceByName(props, service).Some? {
      var target := ConcatNullable(ServiceByName(props, service).value.baseUrl, path);
      assert TargetUrl(props, service, path) == Some(target);
      var r := ForwardMultipartRequest(props, service, path, verb, queryParams, form, files, upstream);
      assert r == match FinalUrlOf(target, queryParams)
                  case Err(e) => Err(e)
                  case Ok(finalUrl) =>
                    match MultipartBody(form, files)
                    case Err(e) => Err(e)
                    case Ok(parts) => Wrap(upstream(Exchange(finalUrl, MultipartMethod(verb), MultipartEntity(parts))));
    }
  }

  /**
   * A service configured without a base URL forwards to "null" + path; with query parameters
   * the builder refuses that URL before any method is dispatched.
   */
  lemma NullBaseUrlWithParamsFails(props: WhitelistProperties, service: Option<string>, path: string, verb: string,
                                   queryParams: Option<seq<(string, Option<string>)>>, body: Option<string>,
                                   upstream: Upstream)
    requires SafeTable(props) && IsRequestAllowed(props, service, path) == Ok(true)
    requires ServiceByName(props, service).Some? && ServiceByName(props, service).value.baseUrl.None?
    requires HasParams(queryParams)
    ensures ForwardRequest(props, service, path, verb, queryParams, body, upstream) ==
            Err(IllegalArgumentException(InvalidHttpUrl("null" + path)))
  {
    NullTargetIsNotHttp(path);
    ForwardContract(props, service, path, verb, queryParams, body, upstream);
  }

  /** A multipart forward uses PUT only for "PUT" in any case; every other method, PATCH included, is sent as POST. */
  lemma MultipartMethodExamples()
    ensures MultipartMethod("put") == PUT && MultipartMethod("PUT") == PUT
    ensures MultipartMethod("PATCH") == POST && MultipartMethod("GET") == POST && MultipartMethod("") == POST
  {
    assert ToUpper("put") == "PUT";
    assert ToUpper("PATCH") == "PATCH";
  }
}
