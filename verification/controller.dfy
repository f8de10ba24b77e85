/**
 * SimpleGatewayController: the handlers mapped under `/api/execution/{service}/` hand the
 * gateway the request URI with `^/api/execution/` + service removed by `replaceFirst`.
 * The service name is spliced into that regular expression unescaped, so the regex text is
 * compiled with the same fragment of java.util.regex as endpoint patterns (PathRegex).
 */
module Controller {
  import opened Wrappers
  import opened JavaString
  import opened PathRegex
  import opened Whitelist
  import Gateway

  /** The controller's mapping `/api/execution` followed by the '/' before `{service}`. */
  const ExecutionPrefix: string := "/api/execution/"

  /**
   * The service names modelled: one path segment (no '/') of letters, digits, '_', '-' and
   * '.', so that the only regex metacharacter a name can carry is '.'.
   */
  predicate NameText(service: string) {
    forall i :: 0 <= i < |service| ==> (LiteralChar(service[i]) && service[i] != '/') || service[i] == '.'
  }

  /** A name without '.', which the regex reads literally. */
  predicate PlainName(service: string) {
    forall i :: 0 <= i < |service| ==> LiteralChar(service[i]) && service[i] != '/'
  }

  /** The regex text handed to `replaceFirst`. */
  function StripRegex(service: string): string {
    "^" + ExecutionPrefix + service
  }

  /** What regex text in literals and '.' stands for: '.' any character, the rest themselves. */
  function TextAtoms(s: string): (p: seq<Atom>)
    ensures |p| == |s|
    ensures forall i :: 0 <= i < |s| ==> p[i] == if s[i] == '.' then AnyChar else Lit(s[i])
  {
    seq(|s|, i requires 0 <= i < |s| => if s[i] == '.' then AnyChar else Lit(s[i]))
  }

  lemma TextAtomsCons(c: char, x: string)
    ensures TextAtoms([c] + x) == [if c == '.' then AnyChar else Lit(c)] + TextAtoms(x)
  {
    var s := [c] + x;
    assert forall i :: 1 <= i < |s| ==> s[i] == x[i - 1];
  }

  /** Regex text over literals and '.' compiles to its TextAtoms. */
  lemma {:induction false} ParsePlainText(s: string)
    requires forall i :: 0 <= i < |s| ==> LiteralChar(s[i]) || s[i] == '.'
    ensures ParseBody(s, 0) == Some(TextAtoms(s))
    decreases |s|
  {
    if s != [] {
      var c, x := s[0], s[1..];
      assert s == [c] + x;
      ParsePlainText(x);
      if c == '.' {
        assert [c] == ".";
        ParseAnyStep(x, 0);
      } else {
        ParseLitStep(c, x, 0);
      }
      TextAtomsCons(c, x);
    }
  }

  lemma ExecutionPrefixIsLiteral()
    ensures LiteralText(ExecutionPrefix)
  {
  }

  lemma TextAtomsConcat(a: string, b: string)
    ensures TextAtoms(a + b) == TextAtoms(a) + TextAtoms(b)
  {
  }

  lemma TextAtomsOfLiteral(w: string)
    requires LiteralText(w)
    ensures TextAtoms(w) == Literals(w)
  {
  }

  /** The compiled strip pattern: the prefix's literals, then one atom per character of the name. */
  function StripAtoms(service: string): (p: seq<Atom>)
    requires NameText(service)
    ensures Parse(StripRegex(service)) == Some(p)
    ensures p == Literals(ExecutionPrefix) + TextAtoms(service)
    ensures NonSlashRun !in p
  {
    var t := ExecutionPrefix + service;
    ExecutionPrefixIsLiteral();
    assert forall i :: 0 <= i < |t| ==> LiteralChar(t[i]) || t[i] == '.' by {
      forall i | 0 <= i < |t| ensures LiteralChar(t[i]) || t[i] == '.' {
        if i >= |ExecutionPrefix| {
          assert t[i] == service[i - |ExecutionPrefix|];
        } else {
          assert t[i] == ExecutionPrefix[i];
        }
      }
    }
    ParsePlainText(t);
    assert StripRegex(service) == "^" + t;
    assert StripRegex(service)[1..] == t;
    TextAtomsConcat(ExecutionPrefix, service);
    TextAtomsOfLiteral(ExecutionPrefix);
    TextAtoms(t)
  }

  /** Atoms that each take one character only match strings of their own length. */
  lemma {:induction false} FixedWidth(p: seq<Atom>, t: string)
    requires NonSlashRun !in p
    ensures Matches(p, t) ==> |t| == |p|
    decreases |p|
  {
    if p != [] && Matches(p, t) {
      assert p[0] in p;
      assert forall a :: a in p[1..] ==> a in p;
      FixedWidth(p[1..], t[1..]);
    }
  }

  /**
   * `requestPath.replaceFirst("^/api/execution/" + service, "")`: the anchor lets the match
   * start only at index 0, and the atoms fix its length, so either that prefix is removed
   * once or the path is returned unchanged.
   */
  function ExtractPathInService(requestPath: string, service: string): (r: string)
    requires NameText(service)
    ensures r == requestPath ||
            (|requestPath| - |r| == |ExecutionPrefix| + |service| && r == requestPath[|requestPath| - |r|..])
    ensures !StartsWith(requestPath, ExecutionPrefix) ==> r == requestPath
  {
    var p := StripAtoms(service);
    var head := if |p| <= |requestPath| then requestPath[..|p|] else requestPath;
    LiteralsThen(ExecutionPrefix, TextAtoms(service), head);
    if |p| <= |requestPath| && Matches(p, requestPath[..|p|]) then requestPath[|p|..] else requestPath
  }

  /** The removed text is exactly a match of the pattern, and no other length could have matched. */
  lemma StripRemovesAMatch(requestPath: string, service: string)
    requires NameText(service)
    ensures var r := ExtractPathInService(requestPath, service);
            var k := |requestPath| - |r|;
            r != requestPath ==> Matches(StripAtoms(service), requestPath[..k])
    ensures forall k :: 0 <= k <= |requestPath| && Matches(StripAtoms(service), requestPath[..k]) ==>
              ExtractPathInService(requestPath, service) == requestPath[k..]
  {
    var p := StripAtoms(service);
    forall k | 0 <= k <= |requestPath| && Matches(p, requestPath[..k])
      ensures ExtractPathInService(requestPath, service) == requestPath[k..]
    {
      FixedWidth(p, requestPath[..k]);
    }
  }

  /** For a name without '.', stripping is removing the literal text `/api/execution/` + service. */
  lemma PlainNameStripsLiteralPrefix(requestPath: string, service: string)
    requires PlainName(service)
    ensures NameText(service)
    ensures ExtractPathInService(requestPath, service) ==
            if StartsWith(requestPath, ExecutionPrefix + service) then requestPath[|ExecutionPrefix + service|..]
            else requestPath
  {
    var w := ExecutionPrefix + service;
    assert LiteralText(w) by {
      forall i | 0 <= i < |w| ensures LiteralChar(w[i]) {
        if i >= |ExecutionPrefix| {
          assert w[i] == service[i - |ExecutionPrefix|];
        }
      }
    }
    var p := StripAtoms(service);
    assert TextAtoms(service) == Literals(service);
    assert p == Literals(w);
    if |p| <= |requestPath| {
      LiteralsExactly(w, requestPath[..|p|]);
    }
  }

  /** Round trip: the controller recovers the path that followed the service segment. */
  lemma StripRoundTrip(service: string, path: string)
    requires PlainName(service)
    ensures NameText(service)
    ensures ExtractPathInService(ExecutionPrefix + service + path, service) == path
  {
    var uri := ExecutionPrefix + service + path;
    PlainNameStripsLiteralPrefix(uri, service);
    assert uri[..|ExecutionPrefix + service|] == ExecutionPrefix + service;
    assert uri[|ExecutionPrefix + service|..] == path;
  }

  lemma UserServiceExample()
    ensures ExtractPathInService("/api/execution/user-service/users/1", "user-service") == "/users/1"
  {
    assert PlainName("user-service");
    assert "/api/execution/user-service/users/1" == ExecutionPrefix + "user-service" + "/users/1";
    StripRoundTrip("user-service", "/users/1");
  }

  /** A '.' in the name matches any character of the URI. */
  lemma DotMatchesAnyChar()
    ensures ExtractPathInService("/api/execution/aXb/y", "a.b") == "/y"
  {
    var uri := "/api/execution/aXb/y";
    var p := StripAtoms("a.b");
    assert TextAtoms("a.b") == [Lit('a'), AnyChar, Lit('b')];
    LiteralsThen(ExecutionPrefix, TextAtoms("a.b"), uri[..|p|]);
    assert uri[..|p|][|ExecutionPrefix|..] == "aXb";
    assert Matches([Lit('a'), AnyChar, Lit('b')], "aXb") by {
      assert [Lit('a'), AnyChar, Lit('b')][1..] == [AnyChar, Lit('b')];
      assert [AnyChar, Lit('b')][1..] == [Lit('b')];
      assert "aXb"[1..] == "Xb" && "Xb"[1..] == "b";
    }
  }

  // ---------------------------------------------------------------------------
  // The handlers that forward through the gateway
  // ---------------------------------------------------------------------------

  /** `execute`: the universal handler forwards the stripped URI as the path in the service. */
  function Execute(props: WhitelistProperties, service: string, requestUri: string, verb: string,
                   queryParams: Option<seq<(string, Option<string>)>>, body: Option<string>,
                   upstream: Gateway.Upstream): Gateway.Outcome
    requires SafeTable(props) && NameText(service)
  {
    Gateway.ForwardRequest(props, Some(service), ExtractPathInService(requestUri, service), verb, queryParams, body, upstream)
  }

  /** `uploadMultipart`: the multipart handler, with the same stripped path. */
  function UploadMultipart(props: WhitelistProperties, service: string, requestUri: string, verb: string,
                           queryParams: Option<seq<(string, Option<string>)>>,
                           form: Option<seq<(string, Option<string>)>>, files: Option<seq<Option<Gateway.Upload>>>,
                           upstream: Gateway.Upstream): Gateway.Outcome
    requires SafeTable(props) && NameText(service)
  {
    Gateway.ForwardMultipartRequest(props, Some(service), ExtractPathInService(requestUri, service), verb,
                                    queryParams, form, files, upstream)
  }

  /**
   * A request to `/api/execution/<service><path>` is authorised on `<path>`: both handlers
   * answer exactly as the gateway does for that path, so a whitelist refusal is a 403.
   */
  lemma HandlersAuthoriseStrippedPath(props: WhitelistProperties, service: string, path: string, verb: string,
                                      queryParams: Option<seq<(string, Option<string>)>>, body: Option<string>,
                                      form: Option<seq<(string, Option<string>)>>,
                                      files: Option<seq<Option<Gateway.Upload>>>, upstream: Gateway.Upstream)
    requires SafeTable(props) && PlainName(service)
    ensures NameText(service)
    ensures Execute(props, service, ExecutionPrefix + service + path, verb, queryParams, body, upstream) ==
            Gateway.ForwardRequest(props, Some(service), path, verb, queryParams, body, upstream)
    ensures UploadMultipart(props, service, ExecutionPrefix + service + path, verb, queryParams, form, files, upstream) ==
            Gateway.ForwardMultipartRequest(props, Some(service), path, verb, queryParams, form, files, upstream)
    ensures IsRequestAllowed(props, Some(service), path) == Ok(false) ==>
              Execute(props, service, ExecutionPrefix + service + path, verb, queryParams, body, upstream) ==
              Ok(Gateway.Response(403, Some(Gateway.AccessDenied)))
  {
    StripRoundTrip(service, path);
    Gateway.ForwardContract(props, Some(service), path, verb, queryParams, body, upstream);
  }
}
