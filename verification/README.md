# feign-gateway core, modelled in Dafny

This project models the deciding parts of a Spring Boot API gateway that forwards
`/api/execution/{service}/**` calls to whitelisted upstream services. Each part is modelled and proved
against a specification:

- **Whitelist and route resolution.** `WhitelistService` and its duplicate in `CacheService`. An
  endpoint pattern is rewritten by four chained `String.replace` calls and then anchored. The resulting
  regular expression is parsed into atoms (literal, `.`, `[^/]*`) and matched against the whole path.
  An unbalanced `{`/`}` is a `PatternSyntaxException`, modelled as an error result.
- **Per-service circuit breaker.** `CircuitBreakerService` is a class per breaker plus a registry class
  whose map holds breaker objects. The time is a `now` parameter.
- **Forwarding decision.** `GatewayService` answers 403, then 400, and otherwise runs the executor. It
  also covers the query-parameter filter, the method dispatch and the multipart body. `RestTemplate` is
  an oracle function `Upstream`.
- **Request validation.** `RequestValidationService` has character-class and length predicates. A
  length is Java's `length()`, the number of UTF-16 code units. Its error accumulators are methods that
  append to an `ErrorList` object.
- **Metrics.** `PerformanceMetricsService` keeps per-service counters in `ServiceMetrics` objects and two
  gateway-wide totals. Between resets, each total equals the sum of the matching per-service counters.
- **Path and service-name extraction.** `SimpleGatewayController.extractPathInService` and
  `StructuredLoggingAspect.extractServiceName`, with the aspect's metrics recording.

Modules: `Wrappers` (Option, Result), `JavaString` (the `java.lang.String` operations the code uses),
`PathRegex` (the regex fragment and its matcher), `Whitelist`, `Cache`, `CircuitBreaker`, `Gateway`,
`RequestValidation`, `Metrics`, `Controller` and `LoggingAspect`.

Where the code and its documentation or tests disagree, the model follows the code:
- A `**` in an endpoint does not span segments. The second `replace` rewrites the `*` of `.*`, so `**`
  becomes `.[^/]*` (Whitelist.DoubleStarNotDeeper). The comment at WhitelistService.java:60 says
  otherwise.
- `recordFailure` on a service that was never queried is a no-op, and successes are ignored while a
  breaker is OPEN. CircuitBreakerServiceTest.java:40-47 and 53-69 expect the opposite.
- The HTTP method is upper-cased before it is checked, so `"get"` is valid
  (RequestValidation.MethodCaseInsensitive). RequestValidationServiceTest.java:303 expects a rejection.
- The reported minimum is 0 while the stored minimum is Long.MAX_VALUE, and the maximum starts at 0
  (Metrics.MaxValueReportsMinZero, Metrics.NegativeTimeKeepsMaxAtZero). PerformanceMetricsServiceTest.java
  lines 268 and 298 expect other values.

## Model

| member | source | states |
|---|---|---|
| JavaString.Trim | src/main/java/com/example/feigngateway/service/GatewayService.java:77 | `trim` never lengthens, and a non-empty result starts and ends with a character above U+0020 |
| JavaString.ReplaceCharConcat | src/main/java/com/example/feigngateway/service/WhitelistService.java:61-63 | replacing a one-character target works piece by piece over a concatenation |
| JavaString.TrimEmptyIffAllTrimmed | src/main/java/com/example/feigngateway/service/GatewayService.java:77 | `value.trim().isEmpty()` holds exactly when every character is at most U+0020 |
| JavaString.ToUpper | src/main/java/com/example/feigngateway/service/RequestValidationService.java:106 | upper-casing keeps the length and maps each character on its own (ASCII letters to capitals, others kept) |
| JavaString.Utf16Length | src/main/java/com/example/feigngateway/service/RequestValidationService.java:76 | `length()` counts one unit per character and two per character above U+FFFF, so it lies between the number of characters and twice that |
| JavaString.SplitAllJoin | src/main/java/com/example/feigngateway/aspect/StructuredLoggingAspect.java:133 | joining the pieces of a split with the separator gives the text back |
| JavaString.SplitAllAllEmpty | src/main/java/com/example/feigngateway/aspect/StructuredLoggingAspect.java:133 | every piece is empty exactly when the text holds only separators |
| JavaString.Split | src/main/java/com/example/feigngateway/aspect/StructuredLoggingAspect.java:133 | `split` returns the text alone when the separator is absent, and otherwise drops the trailing empty pieces |
| JavaString.DropTrailingEmpty | src/main/java/com/example/feigngateway/aspect/StructuredLoggingAspect.java:133 | the result is a prefix that does not end with an empty piece, and every piece dropped is empty |
| PathRegex.LiteralsThen | src/main/java/com/example/feigngateway/service/WhitelistService.java:73 | literal atoms followed by a pattern match a string exactly when the string starts with the literal text and the rest matches the pattern |
| PathRegex.LiteralsExactly | src/main/java/com/example/feigngateway/service/WhitelistService.java:73 | literal atoms match only their own text |
| PathRegex.RunMatchesNoSlash | src/main/java/com/example/feigngateway/service/WhitelistService.java:61 | `[^/]*` matches exactly the strings without '/' |
| PathRegex.AnyThenRun | src/main/java/com/example/feigngateway/service/WhitelistService.java:60-61 | `.[^/]*` matches a non-empty string whose first character is not a line terminator and whose rest has no '/' |
| Whitelist.ReplaceChainIsTokenwise | src/main/java/com/example/feigngateway/service/WhitelistService.java:59-63 | the four chained replaces equal one left-to-right translation: `**` to `.[^/]*`, `*` to `[^/]*`, `{` to `(`, `}` to `)` |
| Whitelist.TokensHaveNoAnchors | src/main/java/com/example/feigngateway/service/WhitelistService.java:59-71 | a translated safe endpoint holds no `$` and does not start with `^`, so both anchors are always added |
| Whitelist.EndpointRegexShape | src/main/java/com/example/feigngateway/service/WhitelistService.java:66-71 | the anchored regex is `^`, the translation, then `$` |
| Whitelist.ParseTranslated | src/main/java/com/example/feigngateway/service/WhitelistService.java:59-73 | at any group depth, the translation compiles to the endpoint's glob atoms exactly when its braces balance from that depth |
| Whitelist.CompileEndpoint | src/main/java/com/example/feigngateway/service/WhitelistService.java:59-73 | the endpoint's regex compiles to its glob atoms when its braces balance, and fails to compile otherwise |
| Whitelist.EndpointMatch | src/main/java/com/example/feigngateway/service/WhitelistService.java:59-75 | `Pattern.matches` is the glob match for a balanced endpoint and a PatternSyntaxException carrying the regex otherwise |
| Whitelist.FirstNamed | src/main/java/com/example/feigngateway/service/WhitelistService.java:43-47 | the index of the first entry with an equal name, with every earlier name different |
| Whitelist.ServiceByName | src/main/java/com/example/feigngateway/service/WhitelistService.java:38-49 | a null list or a null name gives null. Otherwise the result is the first entry in list order with an equal name, and null means no entry has that name |
| Whitelist.MatchAnyTrue | src/main/java/com/example/feigngateway/service/WhitelistService.java:56-75 | a true answer comes from a balanced endpoint whose glob matches the path |
| Whitelist.MatchAnyBalanced | src/main/java/com/example/feigngateway/service/WhitelistService.java:56-78 | with balanced endpoints, the loop answers whether some endpoint matches |
| Whitelist.MatchAnyErr | src/main/java/com/example/feigngateway/service/WhitelistService.java:56-75 | an exception comes from an unbalanced endpoint, and every endpoint before it is balanced and does not match (the first hit decides) |
| Whitelist.IsPathMatched | src/main/java/com/example/feigngateway/service/WhitelistService.java:51-54 | a null or empty endpoint list matches nothing |
| Whitelist.IsRequestAllowed | src/main/java/com/example/feigngateway/service/WhitelistService.java:16-27 | a disabled whitelist allows everything, and an enabled one denies an unknown service |
| Whitelist.TargetUrl | src/main/java/com/example/feigngateway/service/WhitelistService.java:29-36 | a URL exists exactly for a known service, and it is the base URL followed by the path |
| Whitelist.AllowedIffSomeEndpointMatches | src/main/java/com/example/feigngateway/service/WhitelistService.java:16-78 | over balanced tables: allowed exactly when disabled, or when the service is known and one of its endpoints matches the path |
| Whitelist.DisabledAllowsEverything | src/main/java/com/example/feigngateway/service/WhitelistService.java:16-19 | when disabled, every service and path is allowed, unknown ones included |
| Whitelist.NoEndpointsDeniesAll | src/main/java/com/example/feigngateway/service/WhitelistService.java:51-54 | a known service with a null or empty endpoint list denies every path |
| Whitelist.TargetUrlIgnoresEnabled | src/main/java/com/example/feigngateway/service/WhitelistService.java:29-36 | the target URL does not depend on the enabled flag |
| Whitelist.LaterEntriesIgnored | src/main/java/com/example/feigngateway/service/WhitelistService.java:43-47 | entries after the first one with the name never change the lookup (later duplicates are shadowed) |
| Whitelist.LoneStarSuffix | src/main/java/com/example/feigngateway/service/WhitelistService.java:61 | `w*` matches exactly the paths that start with `w` and have no '/' after it |
| Whitelist.DoubleStarSuffix | src/main/java/com/example/feigngateway/service/WhitelistService.java:60-61 | `w**` matches exactly the paths that start with `w` and continue with one non-terminator character and then no '/' |
| Whitelist.BraceGroupIsLiteral | src/main/java/com/example/feigngateway/service/WhitelistService.java:62-63 | an endpoint `w1{v}w2` over literal text is balanced and matches only the path `w1 v w2`: the braces become a group and vanish |
| Whitelist.DoubleStarOneSegment | src/main/java/com/example/feigngateway/service/WhitelistService.java:60-61 | `/api/**` matches `/api/users` |
| Whitelist.DoubleStarNotDeeper | src/main/java/com/example/feigngateway/service/WhitelistService.java:60-61 | `/api/**` does not match `/api/users/1` |
| Whitelist.DoubleStarNotEmpty | src/main/java/com/example/feigngateway/service/WhitelistService.java:60-61 | `/api/**` does not match `/api/` |
| Whitelist.LoneStarExamples | src/main/java/com/example/feigngateway/service/WhitelistService.java:61 | `/api/*` matches `/api/` and `/api/a`, but not `/api/a/b` |
| Whitelist.BraceExamples | src/main/java/com/example/feigngateway/service/WhitelistService.java:62-63 | `/users/{id}` matches `/users/id` and not `/users/42` |
| Cache.Named | src/main/java/com/example/feigngateway/service/CacheService.java:35-37 | the filter keeps exactly the entries with an equal name, in list order, so `findFirst` is the first such entry |
| Cache.CachedServiceConfig | src/main/java/com/example/feigngateway/service/CacheService.java:27-39 | a null list or a null name gives null, and any result has the name asked for |
| Cache.CachedConfigIsServiceByName | src/main/java/com/example/feigngateway/service/CacheService.java:30-38 | the stream lookup returns the same entry as the whitelist's loop |
| Cache.CompiledPattern | src/main/java/com/example/feigngateway/service/CacheService.java:42-61 | compiling succeeds exactly for balanced endpoints, and gives the same atoms (and the same exception) as the whitelist translation |
| Cache.IsPathMatchedCached | src/main/java/com/example/feigngateway/service/CacheService.java:79-82 | a null or empty endpoint list matches nothing |
| Cache.PathMatchedAgrees | src/main/java/com/example/feigngateway/service/CacheService.java:79-92 | the cached path match equals the whitelist's path match for every endpoint list |
| Cache.IsRequestAllowedCached | src/main/java/com/example/feigngateway/service/CacheService.java:64-77 | disabled allows everything, and an unknown service is denied |
| Cache.CachedAgreesWithWhitelist | src/main/java/com/example/feigngateway/service/CacheService.java:63-92 | the cached check equals `WhitelistService.isRequestAllowed` for every service and path |
| Cache.CacheService.constructor | src/main/java/com/example/feigngateway/service/CacheService.java:18-24 | the service holds the whitelist properties it is given |
| Cache.CacheService.GetCacheStats | src/main/java/com/example/feigngateway/service/CacheService.java:112-117 | both cache sizes are always 0, because neither map is ever written |
| Cache.CacheService.WarmUpCaches | src/main/java/com/example/feigngateway/service/CacheService.java:95-109 | warming succeeds exactly when every endpoint's braces balance. Otherwise it throws the PatternSyntaxException of the first unbalanced endpoint in service-then-endpoint order, and it changes no state |
| Cache.FirstUnbalancedUnique | src/main/java/com/example/feigngateway/service/CacheService.java:98-105 | at most one endpoint is the first unbalanced one, so the exception WarmUpCaches throws is determined |
| CircuitBreaker.AfterSuccess | src/main/java/com/example/feigngateway/service/CircuitBreakerService.java:38-50 | a success keeps the breaker invariant and never touches the last failure time |
| CircuitBreaker.AfterFailure | src/main/java/com/example/feigngateway/service/CircuitBreakerService.java:52-60 | a failure counts one more failure at `now`, keeps the success count, and keeps the invariant |
| CircuitBreaker.AfterAttempt | src/main/java/com/example/feigngateway/service/CircuitBreakerService.java:62-83 | an attempt is allowed exactly when the breaker is not OPEN or the 60 s timeout has passed, and it keeps the failure count, the last failure time and the invariant |
| CircuitBreaker.RunKeepsInv | src/main/java/com/example/feigngateway/service/CircuitBreakerService.java:30-83 | every sequence of calls keeps: CLOSED implies fewer than 5 failures, not HALF_OPEN implies no successes, HALF_OPEN implies fewer than 3 successes |
| CircuitBreaker.ReachableKeepsInv | src/main/java/com/example/feigngateway/service/CircuitBreakerService.java:24-32 | every breaker reachable from a new one satisfies the invariant |
| CircuitBreaker.OpenStaysOpenWithoutAttempts | src/main/java/com/example/feigngateway/service/CircuitBreakerService.java:38-60 | successes and failures alone never move a breaker out of OPEN |
| CircuitBreaker.FailuresFromClosed | src/main/java/com/example/feigngateway/service/CircuitBreakerService.java:52-60 | failures on a CLOSED breaker add up, and it opens exactly when the count reaches 5 |
| CircuitBreaker.FailuresKeepState | src/main/java/com/example/feigngateway/service/CircuitBreakerService.java:52-60 | failures while OPEN or HALF_OPEN never change the state, and restart the wait from the last one |
| CircuitBreaker.SuccessesFromHalfOpen | src/main/java/com/example/feigngateway/service/CircuitBreakerService.java:38-46 | successes while HALF_OPEN are counted, and the third one closes the breaker with both counters reset |
| CircuitBreaker.SuccessesFromClosed | src/main/java/com/example/feigngateway/service/CircuitBreakerService.java:47-49 | a success while CLOSED zeroes the failure count |
| CircuitBreaker.SuccessesIgnoredWhenOpen | src/main/java/com/example/feigngateway/service/CircuitBreakerService.java:38-50 | successes while OPEN change nothing |
| CircuitBreaker.FullCycle | src/main/java/com/example/feigngateway/service/CircuitBreakerService.java:30-83 | five failures open a new breaker. Before the timeout it refuses; after it, the breaker goes HALF_OPEN, and three successes close it |
| CircuitBreaker.CircuitBreakerState.constructor | src/main/java/com/example/feigngateway/service/CircuitBreakerService.java:24-27 | a new breaker is CLOSED with zero counters |
| CircuitBreaker.CircuitBreakerState.GetState | src/main/java/com/example/feigngateway/service/CircuitBreakerService.java:34-36 | returns the current state |
| CircuitBreaker.CircuitBreakerState.RecordSuccess | src/main/java/com/example/feigngateway/service/CircuitBreakerService.java:38-50 | the fields become AfterSuccess of the old ones, and the invariant is kept |
| CircuitBreaker.CircuitBreakerState.RecordFailure | src/main/java/com/example/feigngateway/service/CircuitBreakerService.java:52-60 | the fields become AfterFailure of the old ones at `now`, and the invariant is kept |
| CircuitBreaker.CircuitBreakerState.ShouldAttemptRequest | src/main/java/com/example/feigngateway/service/CircuitBreakerService.java:62-83 | the answer and the new fields are AfterAttempt of the old ones at `now` |
| CircuitBreaker.CircuitBreakerService.constructor | src/main/java/com/example/feigngateway/service/CircuitBreakerService.java:15 | the registry starts empty |
| CircuitBreaker.CircuitBreakerService.IsRequestAllowed | src/main/java/com/example/feigngateway/service/CircuitBreakerService.java:86-91 | creates a CLOSED breaker for an unseen name, then attempts on it. Only that name's entry changes |
| CircuitBreaker.CircuitBreakerService.Register | src/main/java/com/example/feigngateway/service/CircuitBreakerService.java:87-88 | `computeIfAbsent`: a fresh breaker for an unseen name, and every other entry unchanged |
| CircuitBreaker.CircuitBreakerService.Attempt | src/main/java/com/example/feigngateway/service/CircuitBreakerService.java:90 | the named breaker takes the AfterAttempt step, and every other entry is unchanged |
| CircuitBreaker.CircuitBreakerService.RecordSuccess | src/main/java/com/example/feigngateway/service/CircuitBreakerService.java:93-98 | an unknown name changes nothing. Otherwise only that breaker takes the success step |
| CircuitBreaker.CircuitBreakerService.RecordFailure | src/main/java/com/example/feigngateway/service/CircuitBreakerService.java:100-105 | an unknown name changes nothing. Otherwise only that breaker takes the failure step |
| CircuitBreaker.CircuitBreakerService.GetCircuitState | src/main/java/com/example/feigngateway/service/CircuitBreakerService.java:107-110 | the breaker's state, or CLOSED for an unknown name, without adding an entry |
| Gateway.ValidateAndExecute | src/main/java/com/example/feigngateway/service/GatewayService.java:105-117 | a whitelist exception propagates. Denied gives 403 "Access denied: Path not whitelisted"; allowed without a target gives 400 "Invalid service path"; otherwise the result is the executor's on the target URL |
| Gateway.RefusedIgnoresExecutor | src/main/java/com/example/feigngateway/service/GatewayService.java:107-114 | the executor can only matter when the request is allowed and the service is known |
| Gateway.DisabledUnknownServiceIs400 | src/main/java/com/example/feigngateway/service/GatewayService.java:111-114 | with the whitelist disabled, an unknown service gets 400 |
| Gateway.EnabledAllowedHasTarget | src/main/java/com/example/feigngateway/service/GatewayService.java:107-114 | with the whitelist enabled, an allowed request always has a target URL |
| Gateway.KeptParams | src/main/java/com/example/feigngateway/service/GatewayService.java:76-78 | every entry kept is an input entry with a value that is non-blank after trim, and every such input entry is kept |
| Gateway.KeptParamsConcat | src/main/java/com/example/feigngateway/service/GatewayService.java:76-78 | the filter works entry by entry in iteration order |
| Gateway.BuildUrlWithQueryParams | src/main/java/com/example/feigngateway/service/GatewayService.java:72-80 | a null or empty map returns the URL unchanged. Otherwise a URL that `fromHttpUrl` refuses throws IllegalArgumentException "[url] is not a valid HTTP URL", and an accepted one gets exactly the kept entries in order |
| Gateway.AddQueryParams | src/main/java/com/example/feigngateway/service/GatewayService.java:76-78 | the stream adds exactly the entries KeptParams keeps, in iteration order |
| Gateway.HttpHostAccepted | src/main/java/com/example/feigngateway/service/GatewayService.java:75 | `http://` followed by a host, with no '@' and no line terminator, is accepted |
| Gateway.EmptyHostRefused | src/main/java/com/example/feigngateway/service/GatewayService.java:75 | with a lower-case scheme an empty host is refused: `http:///x` throws |
| Gateway.UpperCaseSchemeSkipsHostCheck | src/main/java/com/example/feigngateway/service/GatewayService.java:75 | the host is checked only for a scheme written with lower-case "http": `HTTP:///x` is accepted |
| Gateway.NullTargetIsNotHttp | src/main/java/com/example/feigngateway/service/GatewayService.java:75 | the target "null" + path of a service without a base URL is refused |
| Gateway.DispatchMethod | src/main/java/com/example/feigngateway/service/GatewayService.java:56-68 | GET, POST, PUT and DELETE are chosen exactly for those names in any letter case |
| Gateway.MakeRequest | src/main/java/com/example/feigngateway/service/GatewayService.java:55-70 | GET goes without a body, POST, PUT and DELETE carry the body, and anything else is an IllegalArgumentException "Unsupported method: " + method |
| Gateway.DispatchExamples | src/main/java/com/example/feigngateway/service/GatewayService.java:56-68 | PATCH, HEAD and OPTIONS are refused, and `get` and `Delete` are dispatched |
| Gateway.MultipartMethod | src/main/java/com/example/feigngateway/service/GatewayService.java:48 | PUT exactly for "PUT" in any case, and POST otherwise |
| Gateway.MultipartMethodExamples | src/main/java/com/example/feigngateway/service/GatewayService.java:48 | `put` is PUT, while PATCH, GET and "" are POST |
| Gateway.AddValues | src/main/java/com/example/feigngateway/service/GatewayService.java:85 | `LinkedMultiValueMap.add` appends the value to its key's list and leaves the other keys' lists alone |
| Gateway.AddKeys | src/main/java/com/example/feigngateway/service/GatewayService.java:85 | `add` appends a new key at the end of the key order and keeps the order otherwise |
| Gateway.AddFormValues | src/main/java/com/example/feigngateway/service/GatewayService.java:85 | adding the form appends each key's form values after what the key already holds |
| Gateway.AddFormKeys | src/main/java/com/example/feigngateway/service/GatewayService.java:85 | adding a form with new distinct keys appends them in form order |
| Gateway.AddFilesValues | src/main/java/com/example/feigngateway/service/GatewayService.java:87-100 | the file loop appends one "file" part per attached file, in array order, and touches no other key |
| Gateway.AddFilesKeys | src/main/java/com/example/feigngateway/service/GatewayService.java:87-100 | the "file" key is added last, and only when some file is attached |
| Gateway.MultipartBodyContents | src/main/java/com/example/feigngateway/service/GatewayService.java:82-103 | the build fails exactly when an attached file cannot be read. Otherwise the form fields come first in form order, then one "file" part per attached file |
| Gateway.BuildMultipartBody | src/main/java/com/example/feigngateway/service/GatewayService.java:82-103 | the loops over the form and the files build exactly the body described by MultipartBodyContents, or stop at the first unreadable attached file with the RuntimeException "Failed to read uploaded file: " + its name |
| Gateway.Wrap | src/main/java/com/example/feigngateway/service/GatewayService.java:32 | an upstream answer is wrapped as 200 with its body, and an exception propagates |
| Gateway.ForwardContract | src/main/java/com/example/feigngateway/service/GatewayService.java:26-34 | a denied request gets 403. For an allowed request to a known service with a non-empty query map, a target URL that `fromHttpUrl` refuses throws before any dispatch. Otherwise the request goes to the base URL plus path with the kept query entries, and is dispatched or refused by method |
| Gateway.ForwardMultipartContract | src/main/java/com/example/feigngateway/service/GatewayService.java:36-53 | a denied request gets 403. A refused target URL with a non-empty query map throws before any file is read. Otherwise the built body is sent with PUT or POST to the same URL, unless a file cannot be read |
| Gateway.NullBaseUrlWithParamsFails | src/main/java/com/example/feigngateway/service/GatewayService.java:30-31 | an allowed request with query parameters to a service without a base URL throws IllegalArgumentException for the URL "null" + path |
| RequestValidation.UrlPatternIffParts | src/main/java/com/example/feigngateway/service/RequestValidationService.java:22 | a URL matches exactly when it splits into an http/https scheme, a host over `[A-Za-z0-9.-]`, an optional `:digits` port and an optional `/...` tail |
| RequestValidation.UrlWithPortIsValid | src/main/java/com/example/feigngateway/service/RequestValidationService.java:168-170 | `http://localhost:8080/api` is valid |
| RequestValidation.FtpUrlIsInvalid | src/main/java/com/example/feigngateway/service/RequestValidationService.java:168-170 | an ftp URL is invalid |
| RequestValidation.NamedPortIsInvalid | src/main/java/com/example/feigngateway/service/RequestValidationService.java:168-170 | a non-numeric port is invalid |
| RequestValidation.MethodCaseInsensitive | src/main/java/com/example/feigngateway/service/RequestValidationService.java:163-166 | `get` and `Patch` are valid, while TRACE and the empty method are not |
| RequestValidation.ServiceNameErrors | src/main/java/com/example/feigngateway/service/RequestValidationService.java:70-83 | no error exactly when `isValidServiceName` holds. A blank name gets only "Service name is required" |
| RequestValidation.PathErrors | src/main/java/com/example/feigngateway/service/RequestValidationService.java:85-98 | no error exactly when `isValidPath` holds. A blank path gets only "Path is required" |
| RequestValidation.MethodErrors | src/main/java/com/example/feigngateway/service/RequestValidationService.java:100-109 | no error exactly when `isValidHttpMethod` holds. A blank method gets only "HTTP method is required" |
| RequestValidation.EntryErrors | src/main/java/com/example/feigngateway/service/RequestValidationService.java:121-129 | an entry adds no error exactly when its key has text and at most 100 UTF-16 units, and its value is within the limit (1000 units for parameters, 8192 for headers) |
| RequestValidation.SupplementaryValueCountsTwice | src/main/java/com/example/feigngateway/service/RequestValidationService.java:127-128 | a value of more than 500 characters that all lie above U+FFFF exceeds the 1000-unit limit |
| RequestValidation.EntryStep | src/main/java/com/example/feigngateway/service/RequestValidationService.java:121-124 | a null key adds its "empty" message and nothing else before the NullPointerException |
| RequestValidation.NullKeyThrows | src/main/java/com/example/feigngateway/service/RequestValidationService.java:120-130 | the walk throws exactly when some visited entry has a null key |
| RequestValidation.QueryParamErrors | src/main/java/com/example/feigngateway/service/RequestValidationService.java:111-114 | a null map adds nothing |
| RequestValidation.HeaderErrors | src/main/java/com/example/feigngateway/service/RequestValidationService.java:133-136 | a null map adds nothing |
| RequestValidation.EntryMessagesAreNotTooMany | src/main/java/com/example/feigngateway/service/RequestValidationService.java:120-130 | no per-entry message is the "Too many" message |
| RequestValidation.TooManyOnce | src/main/java/com/example/feigngateway/service/RequestValidationService.java:116-118 | more than 100 parameters give exactly one "Too many" message, and it comes first |
| RequestValidation.ErrorList.Add | src/main/java/com/example/feigngateway/service/RequestValidationService.java:72 | `errors.add` appends one message at the end |
| RequestValidation.AddServiceNameErrors | src/main/java/com/example/feigngateway/service/RequestValidationService.java:70-83 | appends exactly ServiceNameErrors to the list |
| RequestValidation.AddPathErrors | src/main/java/com/example/feigngateway/service/RequestValidationService.java:85-98 | appends exactly PathErrors to the list |
| RequestValidation.AddMethodErrors | src/main/java/com/example/feigngateway/service/RequestValidationService.java:100-109 | appends exactly MethodErrors to the list |
| RequestValidation.AddEntryMessages | src/main/java/com/example/feigngateway/service/RequestValidationService.java:121-129 | the lambda body appends exactly EntryErrors |
| RequestValidation.AddEntry | src/main/java/com/example/feigngateway/service/RequestValidationService.java:120-130 | one lambda call appends EntryStep and reports a null key |
| RequestValidation.AddEntryErrors | src/main/java/com/example/feigngateway/service/RequestValidationService.java:120-130 | the `forEach` appends the walk's messages in iteration order and stops at the first null key |
| RequestValidation.AddQueryParamErrors | src/main/java/com/example/feigngateway/service/RequestValidationService.java:111-131 | appends QueryParamErrors: the "Too many" message first when needed, then the entries' messages |
| RequestValidation.AddHeaderErrors | src/main/java/com/example/feigngateway/service/RequestValidationService.java:133-149 | appends HeaderErrors |
| RequestValidation.ValidateGatewayRequest | src/main/java/com/example/feigngateway/service/RequestValidationService.java:29-41 | returns normally exactly when no error was collected. Otherwise it throws ValidationException with every error, or the NullPointerException of a null key |
| RequestValidation.ValidFieldsPass | src/main/java/com/example/feigngateway/service/RequestValidationService.java:29-41 | valid fields and no maps give no error |
| RequestValidation.ErrorOrder | src/main/java/com/example/feigngateway/service/RequestValidationService.java:32-36 | the errors come in the order service name, path, method, then the maps |
| RequestValidation.ValidateServiceName | src/main/java/com/example/feigngateway/service/RequestValidationService.java:43-50 | succeeds exactly for a valid name, and otherwise throws "Invalid service name" with its errors |
| RequestValidation.ValidatePath | src/main/java/com/example/feigngateway/service/RequestValidationService.java:52-59 | succeeds exactly for a valid path, and otherwise throws "Invalid path" with its errors |
| RequestValidation.ValidateHttpMethod | src/main/java/com/example/feigngateway/service/RequestValidationService.java:61-68 | succeeds exactly for a valid method, and otherwise throws "Invalid HTTP method" with its errors |
| Metrics.AfterRequest | src/main/java/com/example/feigngateway/service/PerformanceMetricsService.java:32-47 | a request counts one more request and adds its time and bytes. The minimum can only fall and the maximum only rise, each to the old value or the new time |
| Metrics.AfterError | src/main/java/com/example/feigngateway/service/PerformanceMetricsService.java:49-51 | an error counts one more error and changes nothing else |
| Metrics.ReportedMin | src/main/java/com/example/feigngateway/service/PerformanceMetricsService.java:66-69 | the reported minimum is 0 while the sentinel Long.MAX_VALUE is stored, and the stored value otherwise |
| Metrics.ReplayCounters | src/main/java/com/example/feigngateway/service/PerformanceMetricsService.java:28-47 | after any requests, the minimum is a recorded time or the sentinel, and the maximum is a recorded time or 0. Every recorded time lies between them |
| Metrics.ReportedMinIsLeast | src/main/java/com/example/feigngateway/service/PerformanceMetricsService.java:38-41 | once a time below Long.MAX_VALUE is recorded, the reported minimum is the least recorded time |
| Metrics.NegativeTimeKeepsMaxAtZero | src/main/java/com/example/feigngateway/service/PerformanceMetricsService.java:29 | a single time of -100 is reported as the minimum, while the maximum stays 0 |
| Metrics.MaxValueReportsMinZero | src/main/java/com/example/feigngateway/service/PerformanceMetricsService.java:66-69 | recording only Long.MAX_VALUE reports a minimum of 0 |
| Metrics.WithRequest | src/main/java/com/example/feigngateway/service/PerformanceMetricsService.java:85-89 | the service's entry is created if missing and takes AfterRequest. The total request count rises by one, and every other service is unchanged |
| Metrics.WithError | src/main/java/com/example/feigngateway/service/PerformanceMetricsService.java:91-95 | the service's entry is created if missing and takes AfterError with its request count untouched. The total error count rises by one, and every other service is unchanged |
| Metrics.RecordRequestKeepsSums | src/main/java/com/example/feigngateway/service/PerformanceMetricsService.java:85-89 | a request keeps both totals equal to the per-service sums |
| Metrics.RecordErrorKeepsSums | src/main/java/com/example/feigngateway/service/PerformanceMetricsService.java:91-95 | an error keeps both totals equal to the per-service sums |
| Metrics.TotalsAreSums | src/main/java/com/example/feigngateway/service/PerformanceMetricsService.java:14-16 | after any sequence of requests, errors and resets, the totals equal the sums of the per-service counts |
| Metrics.StartedIsSummed | src/main/java/com/example/feigngateway/service/PerformanceMetricsService.java:145-149 | an empty registry with zero totals satisfies the sums |
| Metrics.OtherServicesUntouched | src/main/java/com/example/feigngateway/service/PerformanceMetricsService.java:85-95 | an update for one service never changes another service's counters |
| Metrics.ServiceMetrics.constructor | src/main/java/com/example/feigngateway/service/PerformanceMetricsService.java:25-30 | new counters are zero, with the minimum at Long.MAX_VALUE and the maximum at 0 |
| Metrics.ServiceMetrics.RecordRequest | src/main/java/com/example/feigngateway/service/PerformanceMetricsService.java:32-47 | the fields become AfterRequest of the old ones |
| Metrics.ServiceMetrics.RecordError | src/main/java/com/example/feigngateway/service/PerformanceMetricsService.java:49-51 | the fields become AfterError of the old ones |
| Metrics.ServiceMetrics.GetMinResponseTime | src/main/java/com/example/feigngateway/service/PerformanceMetricsService.java:66-69 | returns ReportedMin of the fields |
| Metrics.PerformanceMetricsService.constructor | src/main/java/com/example/feigngateway/service/PerformanceMetricsService.java:14-17 | no service, zero totals, and the start time is `now` |
| Metrics.PerformanceMetricsService.RecordRequest | src/main/java/com/example/feigngateway/service/PerformanceMetricsService.java:85-89 | the registry becomes WithRequest of the old one, and distinct names keep distinct objects |
| Metrics.PerformanceMetricsService.RecordError | src/main/java/com/example/feigngateway/service/PerformanceMetricsService.java:91-95 | the registry becomes WithError of the old one |
| Metrics.PerformanceMetricsService.ForName | src/main/java/com/example/feigngateway/service/PerformanceMetricsService.java:87 | `computeIfAbsent`: the name's object, new with fresh counters if it was missing. Nothing else changes |
| Metrics.PerformanceMetricsService.GetServiceMetrics | src/main/java/com/example/feigngateway/service/PerformanceMetricsService.java:97-99 | the name's counters, or all-zero counters for an unknown name, without inserting an entry |
| Metrics.PerformanceMetricsService.ResetMetrics | src/main/java/com/example/feigngateway/service/PerformanceMetricsService.java:145-151 | empties the map, zeroes both totals and restarts the clock at `now` |
| Controller.StripAtoms | src/main/java/com/example/feigngateway/controller/SimpleGatewayController.java:194 | the regex `^/api/execution/` + service compiles to the prefix's literals followed by one atom per character of the name |
| Controller.ExtractPathInService | src/main/java/com/example/feigngateway/controller/SimpleGatewayController.java:193-195 | the URI is returned unchanged, or with a prefix of exactly the pattern's length removed. A URI not starting with `/api/execution/` is unchanged |
| Controller.StripRemovesAMatch | src/main/java/com/example/feigngateway/controller/SimpleGatewayController.java:194 | the removed text matches the pattern, and any match at the start gives this same result |
| Controller.PlainNameStripsLiteralPrefix | src/main/java/com/example/feigngateway/controller/SimpleGatewayController.java:194 | for a name without '.', the call removes the literal prefix once if present and otherwise changes nothing |
| Controller.StripRoundTrip | src/main/java/com/example/feigngateway/controller/SimpleGatewayController.java:193-195 | `/api/execution/` + service + path gives back the path |
| Controller.UserServiceExample | src/main/java/com/example/feigngateway/controller/SimpleGatewayController.java:194 | `/api/execution/user-service/users/1` becomes `/users/1` |
| Controller.DotMatchesAnyChar | src/main/java/com/example/feigngateway/controller/SimpleGatewayController.java:194 | a '.' in the service name matches any character of the URI |
| Controller.HandlersAuthoriseStrippedPath | src/main/java/com/example/feigngateway/controller/SimpleGatewayController.java:81 | both forwarding handlers answer as the gateway does for the stripped path, so a whitelist refusal is a 403 |
| LoggingAspect.ExtractServiceName | src/main/java/com/example/feigngateway/aspect/StructuredLoggingAspect.java:131-141 | the tag is never more than one path segment |
| LoggingAspect.ExecutionUriNamesService | src/main/java/com/example/feigngateway/aspect/StructuredLoggingAspect.java:133-135 | a URI `/api/execution/` + segment + rest is tagged with that segment, unless only '/' follows the prefix, which gives "unknown" |
| LoggingAspect.NamedTagComesFromExecutionUri | src/main/java/com/example/feigngateway/aspect/StructuredLoggingAspect.java:133-136 | a tag other than "unknown" follows `/api/execution/` in the URI, after the first segment and before the end or a '/' |
| LoggingAspect.OtherMappingIsUnknown | src/main/java/com/example/feigngateway/aspect/StructuredLoggingAspect.java:134-140 | a URI whose third segment is not "execution" is tagged "unknown" |
| LoggingAspect.BarePrefixIsUnknown | src/main/java/com/example/feigngateway/aspect/StructuredLoggingAspect.java:133-140 | `/api/execution/` is tagged "unknown", because the split drops trailing empty parts |
| LoggingAspect.EmptySegmentIsEmptyName | src/main/java/com/example/feigngateway/aspect/StructuredLoggingAspect.java:133-135 | an empty segment before a non-empty path gives the tag "" |
| LoggingAspect.DoubleSlashExample | src/main/java/com/example/feigngateway/aspect/StructuredLoggingAspect.java:133-135 | `/api/execution//x` is tagged "" |
| LoggingAspect.UserServiceTagExample | src/main/java/com/example/feigngateway/aspect/StructuredLoggingAspect.java:133-135 | `/api/execution/user-service/users/1` is tagged "user-service" |
| LoggingAspect.ControllerCallTaggedByService | src/main/java/com/example/feigngateway/aspect/StructuredLoggingAspect.java:50 | a controller call for a plain service name is tagged with that name, and the controller hands on the path after it |
| LoggingAspect.StructuredLoggingAspect.RecordMetrics | src/main/java/com/example/feigngateway/aspect/StructuredLoggingAspect.java:119-129 | success records a request with the duration and 0 bytes, and failure records an error |
| LoggingAspect.StructuredLoggingAspect.LogRequest | src/main/java/com/example/feigngateway/aspect/StructuredLoggingAspect.java:37-83 | without a request only `proceed` runs. With one, a return is recorded as a request and an Exception as an error under the URI's tag; an Error is not recorded. Whatever was thrown is rethrown |

## Left out

- HTTP transport, `RestTemplate`, the percent-encoding of `UriComponentsBuilder.toUriString` and the servlet request are left out. The upstream is a function parameter, and the final URL is a value (base URL plus the kept entries).
- Gateway.BuildUrlWithQueryParams: its test `HttpUrl` follows the `fromHttpUrl` of Spring 6.0 and 6.1 (the pattern `HTTP_URL_PATTERN` and the host check). A URI-template port such as `:{p#q}` that holds a '#' is not modelled: the fragment is taken to start at the first '#'. The stricter parser of Spring 6.2 is not modelled.
- Concurrency is left out. `ConcurrentHashMap`, `LongAdder`, `AtomicLong`, compare-and-set retries and `volatile` are modelled as sequential updates, so interleavings are not captured.
- `@Cacheable` is left out: every call recomputes. No `@EnableCaching` appears in FeignGatewayApplication.java, so the annotations have no effect and the methods run on every call. Were caching enabled, the key `#serviceName + ':' + #pathInService` (CacheService.java:63) would give ("a:b", "/x") and ("a", "b:/x") the same entry, and the second call would get the first one's answer; that is not modelled.
- `System.currentTimeMillis()` becomes a `now` or `duration` parameter. The MDC, UUIDs and log output are not modelled.
- Floating-point averages and rates, `getOverallStats`, `getServiceStats` and `getCircuitBreakerStats` are left out: they only format numbers.
- The controller's handler for `StreamingService` is left out (the streaming body is I/O), as are `AsyncGatewayService`, `GlobalExceptionHandler` and the configuration beans.
- Metrics: counters and totals are unbounded integers, and Java's 64-bit wrap-around is not modelled. For the counts it takes 2^63 calls. `totalResponseTime` and `totalBytesTransferred` add the recorded values, so two records of Long.MAX_VALUE already wrap (PerformanceMetricsService.java:27, 30, 34-35).
- CircuitBreaker.Inv: states `failureCount >= 0`, but `failureCount` is an `AtomicInteger` (CircuitBreakerService.java:25). It keeps counting while the breaker is OPEN or HALF_OPEN and would turn negative after 2^31 failures without a success; the model's count is unbounded.
- JavaString.ToUpper: maps only ASCII letters. The non-ASCII case mappings of `String.toUpperCase` (for example U+017F to 'S') are not modelled.
- Whitelist.IsRequestAllowed: requires endpoints over letters, digits and `/ _ - . { } *`, so that the four replaces yield only the regex fragment the matcher models. Endpoints with other regex metacharacters are not modelled.
- Controller.ExtractPathInService: requires a service name over letters, digits, `_`, `-` and `.`, for the same reason. A name carrying other regex metacharacters is spliced into the regex and is not modelled.
- LoggingAspect.StructuredLoggingAspect.RecordMetrics: the `catch` of metrics exceptions is not modelled, because the modelled metrics calls never throw. A null request URI is not modelled either.
- LoggingAspect.StructuredLoggingAspect.LogRequest: the handler's result and what it threw are reduced to three outcomes (returned, threw an Exception, threw anything else). The logging calls are assumed not to throw.
- RequestValidation: the DTO's map fields keep their iteration order as a sequence of entries. A null value in a query-parameter map passed to the gateway is kept as a null entry and filtered out.
