/**
 * StructuredLoggingAspect: the around-advice on every controller method. Besides logging, it
 * tags the call with a service name taken from the request URI and records the call's
 * outcome in the performance metrics under that name.
 */
module LoggingAspect {
  import opened Wrappers
  import opened JavaString
  import opened Metrics
  import Controller

  /** The tag of a URI that does not name a service. */
  const Unknown: string := "unknown"

  /**
   * `extractServiceName`: the fourth piece of `requestUri.split("/")` when the second and
   * third are "api" and "execution", and "unknown" otherwise. The name is one path segment.
   */
  function ExtractServiceName(requestUri: string): (name: string)
    ensures '/' !in name
  {
    var parts := Split(requestUri, '/');
    if |parts| >= 4 && parts[1] == "api" && parts[2] == "execution" then parts[3] else Unknown
  }

  /** Two separator-free segments after a leading '/' become the pieces "", p1, p2 before those of the rest. */
  lemma LeadingPieces(p1: string, p2: string, x: string)
    requires '/' !in p1 && '/' !in p2
    ensures SplitAll("/" + p1 + "/" + p2 + "/" + x, '/') == ["", p1, p2] + SplitAll(x, '/')
  {
    var s2 := p2 + "/" + x;
    var s1 := p1 + "/" + s2;
    calc {
      SplitAll("/" + p1 + "/" + p2 + "/" + x, '/');
      { assert "/" + p1 + "/" + p2 + "/" + x == [] + ['/'] + s1; }
      SplitAll([] + ['/'] + s1, '/');
      { SplitAllSep([], '/', s1); }
      [""] + SplitAll(s1, '/');
      { SplitAllSep(p1, '/', s2); }
      [""] + ([p1] + SplitAll(s2, '/'));
      { SplitAllSep(p2, '/', x); }
      [""] + ([p1] + ([p2] + SplitAll(x, '/')));
      ["", p1, p2] + SplitAll(x, '/');
    }
  }

  lemma ExecutionPrefixSegments()
    ensures Controller.ExecutionPrefix == "/" + "api" + "/" + "execution" + "/"
    ensures '/' !in "api" && '/' !in "execution"
  {
  }

  /** A segment ended by the end of the text or by a '/' is the first piece. */
  lemma FirstPiece(svc: string, rest: string)
    requires '/' !in svc && (rest == [] || rest[0] == '/')
    ensures SplitAll(svc + rest, '/')[0] == svc
  {
    if rest == [] {
      assert svc + rest == svc;
      SplitAllNoSep(svc, '/');
    } else {
      assert svc + rest == svc + ['/'] + rest[1..];
      SplitAllSep(svc, '/', rest[1..]);
    }
  }

  /** The pieces of an execution URI: an empty piece, "api", "execution", then those of the rest. */
  lemma ExecutionPieces(x: string)
    ensures SplitAll(Controller.ExecutionPrefix + x, '/') == ["", "api", "execution"] + SplitAll(x, '/')
  {
    ExecutionPrefixSegments();
    assert Controller.ExecutionPrefix + x == "/" + "api" + "/" + "execution" + "/" + x;
    LeadingPieces("api", "execution", x);
  }

  /** Dropping trailing empty pieces keeps index k exactly when some piece from k on is non-empty. */
  lemma DropKeepsIndex(parts: seq<string>, k: nat)
    requires k <= |parts|
    ensures |DropTrailingEmpty(parts)| > k <==> !AllEmpty(parts[k..])
  {
    var r := DropTrailingEmpty(parts);
    if |r| > k {
      assert r[|r| - 1] == parts[|r| - 1];
      assert parts[k..][|r| - 1 - k] == parts[|r| - 1];
    } else {
      forall i | 0 <= i < |parts[k..]| ensures parts[k..][i] == [] {
        assert parts[k..][i] == parts[k + i];
      }
    }
  }

  /** Whether some character after the execution prefix is not a separator. */
  predicate NamesSomething(svc: string, rest: string) {
    !OnlySep(svc + rest, '/')
  }

  /**
   * A URI under the execution mapping is tagged with the segment after `/api/execution/`;
   * only when nothing but separators follows the prefix does it fall back to "unknown".
   */
  lemma ExecutionUriNamesService(svc: string, rest: string)
    requires '/' !in svc && (rest == [] || rest[0] == '/')
    ensures ExtractServiceName(Controller.ExecutionPrefix + svc + rest) == if NamesSomething(svc, rest) then svc else Unknown
  {
    var x := svc + rest;
    var uri := Controller.ExecutionPrefix + x;
    assert Controller.ExecutionPrefix + svc + rest == uri;
    var all, tail := SplitAll(uri, '/'), SplitAll(x, '/');
    assert all == ["", "api", "execution"] + tail by { ExecutionPieces(x); }
    assert tail[0] == svc by { FirstPiece(svc, rest); }
    assert '/' in uri by { assert uri[0] == '/'; }
    var parts := DropTrailingEmpty(all);
    assert Split(uri, '/') == parts;
    assert all[3..] == tail;
    assert |parts| > 3 <==> NamesSomething(svc, rest) by {
      DropKeepsIndex(all, 3);
      SplitAllAllEmpty(x, '/');
    }
    if |parts| > 3 {
      assert parts[1] == all[1] && parts[2] == all[2] && parts[3] == all[3];
    }
  }

  /** Consecutive pieces of a join: the first, the separator, then the join of the rest. */
  lemma JoinCons(parts: seq<string>, sep: char)
    requires |parts| >= 2
    ensures Join(parts, sep) == parts[0] + [sep] + Join(parts[1..], sep)
  {
  }

  /** The join of four or more pieces, with the first three and their separators written out. */
  lemma JoinThree(parts: seq<string>, sep: char)
    requires |parts| >= 4
    ensures Join(parts, sep) == parts[0] + ([sep] + ((parts[1] + [sep]) + (parts[2] + [sep]))) + Join(parts[3..], sep)
  {
    var a, x, y, w := parts[0], parts[1], parts[2], Join(parts[3..], sep);
    var s := [sep];
    assert parts[1..][1..] == parts[2..] && parts[2..][1..] == parts[3..];
    JoinCons(parts, sep);
    JoinCons(parts[1..], sep);
    JoinCons(parts[2..], sep);
    calc {
      Join(parts, sep);
      (a + s) + ((x + s) + ((y + s) + w));
      { AppendAssoc(x + s, y + s, w); }
      (a + s) + (((x + s) + (y + s)) + w);
      { AppendAssoc(a + s, (x + s) + (y + s), w); }
      ((a + s) + ((x + s) + (y + s))) + w;
      { AppendAssoc(a, s, (x + s) + (y + s)); }
      (a + (s + ((x + s) + (y + s)))) + w;
    }
  }

  /** What follows the fourth piece in the join: nothing, or a separator and the join of the rest. */
  function After(parts: seq<string>, k: nat, sep: char): (tail: string)
    requires k < |parts|
    ensures tail == [] || tail[0] == sep
  {
    if k + 1 == |parts| then [] else [sep] + Join(parts[k + 1..], sep)
  }

  lemma JoinAt(parts: seq<string>, k: nat, sep: char)
    requires k < |parts|
    ensures Join(parts[k..], sep) == parts[k] + After(parts, k, sep)
  {
    if k + 1 < |parts| {
      JoinCons(parts[k..], sep);
      assert parts[k..][1..] == parts[k + 1..];
    } else {
      assert parts[k..] == [parts[k]];
    }
  }

  lemma ExecutionPrefixJoined()
    ensures ['/'] + (("api" + ['/']) + ("execution" + ['/'])) == Controller.ExecutionPrefix
  {
  }

  /** Pieces "api" and "execution" at indexes 1 and 2 join around the execution prefix. */
  lemma JoinExecution(all: seq<string>)
    requires |all| >= 4 && all[1] == "api" && all[2] == "execution"
    ensures Join(all, '/') == all[0] + Controller.ExecutionPrefix + all[3] + After(all, 3, '/')
  {
    var a, p, n, t := all[0], Controller.ExecutionPrefix, all[3], After(all, 3, '/');
    ExecutionPrefixJoined();
    JoinThree(all, '/');
    JoinAt(all, 3, '/');
    assert Join(all, '/') == a + p + (n + t);
    AppendAssoc(a + p, n, t);
  }

  /** A tag other than "unknown" is the fourth of all pieces, after "api" and "execution". */
  lemma NamedTagPieces(requestUri: string)
    requires ExtractServiceName(requestUri) != Unknown
    ensures var all := SplitAll(requestUri, '/');
            |all| >= 4 && all[1] == "api" && all[2] == "execution" && all[3] == ExtractServiceName(requestUri)
  {
    assert '/' in requestUri;
    var all := SplitAll(requestUri, '/');
    var parts := DropTrailingEmpty(all);
    assert parts == all[..|parts|];
  }

  /**
   * Conversely, a tag other than "unknown" is a segment that follows `/api/execution/` in the
   * URI, after a first segment and before the end or a '/'.
   */
  lemma NamedTagComesFromExecutionUri(requestUri: string)
    requires ExtractServiceName(requestUri) != Unknown
    ensures exists head, tail :: requestUri == head + Controller.ExecutionPrefix + ExtractServiceName(requestUri) + tail
              && '/' !in head && (tail == [] || tail[0] == '/')
  {
    var all := SplitAll(requestUri, '/');
    NamedTagPieces(requestUri);
    SplitAllJoin(requestUri, '/');
    JoinExecution(all);
    var head, tail := all[0], After(all, 3, '/');
    assert requestUri == head + Controller.ExecutionPrefix + ExtractServiceName(requestUri) + tail;
    assert '/' !in head;
  }

  /**
   * A call the controller serves under `/api/execution/<service><path>` is tagged with that
   * service, and the controller hands the gateway that path.
   */
  lemma ControllerCallTaggedByService(svc: string, path: string)
    requires Controller.PlainName(svc) && svc != [] && (path == [] || path[0] == '/')
    ensures Controller.NameText(svc)
    ensures ExtractServiceName(Controller.ExecutionPrefix + svc + path) == svc
    ensures Controller.ExtractPathInService(Controller.ExecutionPrefix + svc + path, svc) == path
  {
    assert '/' !in svc by {
      forall i | 0 <= i < |svc| ensures svc[i] != '/' {
      }
    }
    assert NamesSomething(svc, path) by {
      assert (svc + path)[0] == svc[0] && svc[0] in svc;
    }
    ExecutionUriNamesService(svc, path);
    Controller.StripRoundTrip(svc, path);
  }

  /** URIs of other mappings, such as the performance endpoints, are counted as "unknown". */
  lemma OtherMappingIsUnknown(segment: string, x: string)
    requires '/' !in segment && segment != "execution"
    ensures ExtractServiceName("/" + "api" + "/" + segment + "/" + x) == Unknown
  {
    var uri := "/" + "api" + "/" + segment + "/" + x;
    var all := SplitAll(uri, '/');
    assert '/' !in "api";
    assert all == ["", "api", segment] + SplitAll(x, '/') by { LeadingPieces("api", segment, x); }
    assert '/' in uri by { assert uri[0] == '/'; }
    var parts := DropTrailingEmpty(all);
    if |parts| >= 4 {
      assert parts[2] == all[2] == segment;
    }
  }

  /** The bare prefix names no service. */
  lemma BarePrefixIsUnknown()
    ensures ExtractServiceName(Controller.ExecutionPrefix) == Unknown
  {
    var e: string := [];
    assert Controller.ExecutionPrefix + e + e == Controller.ExecutionPrefix;
    assert !NamesSomething(e, e);
    ExecutionUriNamesService(e, e);
  }

  /** An empty segment before a path is taken as the name "", which the metrics then record. */
  lemma EmptySegmentIsEmptyName(path: string)
    requires path != [] && path[0] == '/' && !OnlySep(path, '/')
    ensures ExtractServiceName(Controller.ExecutionPrefix + path) == ""
  {
    var e: string := [];
    assert Controller.ExecutionPrefix + e + path == Controller.ExecutionPrefix + path;
    assert e + path == path;
    ExecutionUriNamesService(e, path);
  }

  /** `/api/execution//x` is tagged with the empty name. */
  lemma DoubleSlashExample()
    ensures ExtractServiceName(Controller.ExecutionPrefix + "/x") == ""
  {
    var path := "/x";
    assert !OnlySep(path, '/') by { assert path[1] != '/'; }
    EmptySegmentIsEmptyName(path);
  }

  /** `/api/execution/user-service/users/1` is tagged "user-service". */
  lemma UserServiceTagExample()
    ensures ExtractServiceName(Controller.ExecutionPrefix + "user-service" + "/users/1") == "user-service"
  {
    var svc, path := "user-service", "/users/1";
    assert Controller.PlainName(svc);
    ControllerCallTaggedByService(svc, path);
  }

  /** How `joinPoint.proceed()` ended: it returned, threw an Exception, or threw anything else. */
  datatype Proceeded = Returned | ThrewException | ThrewError

  /** The aspect, with the metrics service it records into. */
  class StructuredLoggingAspect {
    const metricsService: PerformanceMetricsService

    constructor(metricsService: PerformanceMetricsService)
      ensures this.metricsService == metricsService
    {
      this.metricsService := metricsService;
    }

    /**
     * `recordMetrics`: a success is a request of `duration` milliseconds and unknown (0) bytes,
     * a failure an error. The metrics service does not throw, so the guarding catch never runs.
     */
    method RecordMetrics(serviceName: string, duration: Long, success: bool)
      requires metricsService.Valid()
      modifies metricsService, metricsService.Objects()
      ensures metricsService.Valid()
      ensures metricsService.Value() ==
              if success then WithRequest(old(metricsService.Value()), serviceName, duration, 0)
              else WithError(old(metricsService.Value()), serviceName)
    {
      if success {
        metricsService.RecordRequest(serviceName, duration, 0);
      } else {
        metricsService.RecordError(serviceName);
      }
    }

    /**
     * `logRequest`: with no current request the call proceeds unrecorded; otherwise it is
     * recorded under the URI's tag, as a request when the controller returned and as an error
     * when it threw an Exception. A java.lang.Error (or any other Throwable that is not an
     * Exception) escapes the `catch` and is not recorded. Whatever was thrown is passed on.
     */
    method LogRequest(request: Option<string>, proceeded: Proceeded, duration: Long) returns (threw: bool)
      requires metricsService.Valid()
      modifies metricsService, metricsService.Objects()
      ensures threw == !proceeded.Returned? && metricsService.Valid()
      ensures request.None? || proceeded.ThrewError? ==> metricsService.Value() == old(metricsService.Value())
      ensures request.Some? && proceeded.Returned? ==>
                metricsService.Value() == WithRequest(old(metricsService.Value()), ExtractServiceName(request.value), duration, 0)
      ensures request.Some? && proceeded.ThrewException? ==>
                metricsService.Value() == WithError(old(metricsService.Value()), ExtractServiceName(request.value))
    {
      if request.Some? && !proceeded.ThrewError? {
        var serviceName := ExtractServiceName(request.value);
        RecordMetrics(serviceName, duration, proceeded.Returned?);
      }
      return !proceeded.Returned?;
    }
  }
}
