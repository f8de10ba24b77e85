/**
 * WhitelistService: decides whether a (service, path) pair may be forwarded and where to.
 * The route table is the shape of GatewayWhitelistProperties. Endpoint patterns are
 * turned into regular expressions by four chained `String.replace` calls and then matched
 * against the whole path; the translation is modelled literally (EndpointRegex) and its
 * meaning is proved to be the atom list Glob(e).
 */
module Whitelist {
  import opened Wrappers
  import opened JavaString
  import opened PathRegex

  /** One entry of the whitelist: every field may be null. */
  datatype ServiceConfig = ServiceConfig(
    name: Option<string>,
    baseUrl: Option<string>,
    endpoints: Option<seq<string>>)

  /** GatewayWhitelistProperties: the enabled flag and a nullable list of services. */
  datatype WhitelistProperties = WhitelistProperties(
    enabled: bool,
    services: Option<seq<ServiceConfig>>)

  /** The properties before any configuration is bound: enabled, no services. */
  const DefaultProperties: WhitelistProperties := WhitelistProperties(true, None)

  /** The thrown java.util.regex.PatternSyntaxException, carrying the offending regex. */
  datatype PatternError = PatternSyntax(regex: string)

  // ---------------------------------------------------------------------------
  // Endpoint patterns
  // ---------------------------------------------------------------------------

  /** The characters endpoint patterns are written in: letters, digits and / _ - . { } * */
  predicate SafeEndpointChar(c: char) {
    ('a' <= c <= 'z') || ('A' <= c <= 'Z') || ('0' <= c <= '9')
    || c == '/' || c == '_' || c == '-' || c == '.' || c == '{' || c == '}' || c == '*'
  }

  predicate SafeEndpoint(e: string) {
    forall i :: 0 <= i < |e| ==> SafeEndpointChar(e[i])
  }

  /** Characters that stand for themselves both in an endpoint and in the regex made from it. */
  predicate LiteralChar(c: char) {
    SafeEndpointChar(c) && c != '.' && c != '{' && c != '}' && c != '*'
  }

  predicate LiteralText(w: string) {
    forall i :: 0 <= i < |w| ==> LiteralChar(w[i])
  }

  /** Every endpoint of every configured service is written in the endpoint alphabet. */
  predicate SafeTable(props: WhitelistProperties) {
    props.services.Some? ==>
      forall c :: c in props.services.value ==>
        c.endpoints.Some? ==> forall e :: e in c.endpoints.value ==> SafeEndpoint(e)
  }

  /** The replace chain: `**` -> `.*`, then `*` -> `[^/]*`, `{` -> `(`, `}` -> `)`. */
  function TranslateWildcards(e: string): string {
    Replace(Replace(Replace(Replace(e, "**", ".*"), "*", NonSlashClass), "{", "("), "}", ")")
  }

  /** `^` is added in front unless present, `$` at the end unless present. */
  function Anchor(regex: string): string {
    var front := if StartsWith(regex, "^") then regex else "^" + regex;
    if EndsWith(front, "$") then front else front + "$"
  }

  /** The regex text built for one endpoint (WhitelistService and CacheService alike). */
  function EndpointRegex(e: string): string {
    Anchor(TranslateWildcards(e))
  }

  /** The translation read token by token: what the replace chain does to each piece of `e`. */
  function Tokens(e: string): string
    decreases |e|
  {
    if e == [] then []
    else if |e| >= 2 && e[..2] == "**" then "." + NonSlashClass + Tokens(e[2..])
    else if e[0] == '*' then NonSlashClass + Tokens(e[1..])
    else if e[0] == '{' then "(" + Tokens(e[1..])
    else if e[0] == '}' then ")" + Tokens(e[1..])
    else [e[0]] + Tokens(e[1..])
  }

  /**
   * What an endpoint in the safe alphabet means once translated: `**` is one arbitrary
   * character followed by a run without '/', a lone `*` is a run without '/', `.` is any
   * character, braces only group, and every other character is itself.
   */
  function Glob(e: string): seq<Atom>
    decreases |e|
  {
    if e == [] then []
    else if |e| >= 2 && e[..2] == "**" then [AnyChar, NonSlashRun] + Glob(e[2..])
    else if e[0] == '*' then [NonSlashRun] + Glob(e[1..])
    else if e[0] == '{' || e[0] == '}' then Glob(e[1..])
    else if e[0] == '.' then [AnyChar] + Glob(e[1..])
    else [Lit(e[0])] + Glob(e[1..])
  }

  /** Braces balance when starting with `depth` of them open (so the groups compile). */
  predicate BalancedFrom(e: string, depth: nat)
    decreases |e|
  {
    if e == [] then depth == 0
    else if e[0] == '{' then BalancedFrom(e[1..], depth + 1)
    else if e[0] == '}' then depth > 0 && BalancedFrom(e[1..], depth - 1)
    else BalancedFrom(e[1..], depth)
  }

  predicate Balanced(e: string) {
    BalancedFrom(e, 0)
  }

  /** Whether the endpoint's meaning accepts the whole path. */
  predicate GlobMatches(e: string, path: string) {
    Matches(Glob(e), path)
  }

  /** The last three replacements of the chain, which each touch one character. */
  function ReplaceSingles(x: string): string {
    Replace(Replace(Replace(x, "*", NonSlashClass), "{", "("), "}", ")")
  }

  lemma ReplaceSinglesConcat(a: string, b: string)
    ensures ReplaceSingles(a + b) == ReplaceSingles(a) + ReplaceSingles(b)
  {
    ReplaceCharConcat(a, b, '*', NonSlashClass);
    var a1, b1 := Replace(a, "*", NonSlashClass), Replace(b, "*", NonSlashClass);
    ReplaceCharConcat(a1, b1, '{', "(");
    var a2, b2 := Replace(a1, "{", "("), Replace(b1, "{", "(");
    ReplaceCharConcat(a2, b2, '}', ")");
  }

  /** The first replacement, one step: a leading `**` becomes `.*`, anything else is kept. */
  lemma DoubleStarStep(e: string)
    requires e != []
    ensures |e| >= 2 && e[..2] == "**" ==> Replace(e, "**", ".*") == ".*" + Replace(e[2..], "**", ".*")
    ensures !(|e| >= 2 && e[..2] == "**") ==> Replace(e, "**", ".*") == [e[0]] + Replace(e[1..], "**", ".*")
  {
    if |e| < 2 {
      assert e == [e[0]];
    }
  }

  /** The translation of an endpoint is the translation of its first token followed by the rest's. */
  lemma TranslateHead(e: string)
    requires e != []
    ensures |e| >= 2 && e[..2] == "**" ==> TranslateWildcards(e) == "." + NonSlashClass + TranslateWildcards(e[2..])
    ensures !(|e| >= 2 && e[..2] == "**") && e[0] == '*' ==> TranslateWildcards(e) == NonSlashClass + TranslateWildcards(e[1..])
    ensures e[0] == '{' ==> TranslateWildcards(e) == "(" + TranslateWildcards(e[1..])
    ensures e[0] == '}' ==> TranslateWildcards(e) == ")" + TranslateWildcards(e[1..])
    ensures e[0] !in "*{}" ==> TranslateWildcards(e) == [e[0]] + TranslateWildcards(e[1..])
  {
    DoubleStarStep(e);
    if |e| >= 2 && e[..2] == "**" {
      ReplaceSinglesConcat(".*", Replace(e[2..], "**", ".*"));
      ReplaceSinglesConcat(".", "*");
      assert ".*" == "." + "*";
      ReplaceSinglesDot();
      ReplaceSinglesStar();
    } else {
      ReplaceSinglesConcat([e[0]], Replace(e[1..], "**", ".*"));
      if e[0] == '*' {
        ReplaceSinglesStar();
      } else if e[0] == '{' {
        assert [e[0]] == "{";
        ReplaceSinglesOpen();
      } else if e[0] == '}' {
        assert [e[0]] == "}";
        ReplaceSinglesClose();
      } else {
        ReplaceCharAbsent([e[0]], '*', NonSlashClass);
        ReplaceCharAbsent([e[0]], '{', "(");
        ReplaceCharAbsent([e[0]], '}', ")");
      }
    }
  }

  lemma ReplaceSinglesDot()
    ensures ReplaceSingles(".") == "."
  {
    ReplaceCharAbsent(".", '*', NonSlashClass);
    ReplaceCharAbsent(".", '{', "(");
    ReplaceCharAbsent(".", '}', ")");
  }

  lemma ReplaceSinglesStar()
    ensures ReplaceSingles("*") == NonSlashClass
  {
    assert "*"[..1] == "*";
    assert Replace("*", "*", NonSlashClass) == NonSlashClass + Replace([], "*", NonSlashClass);
    assert NonSlashClass + [] == NonSlashClass;
    ReplaceCharAbsent(NonSlashClass, '{', "(");
    ReplaceCharAbsent(NonSlashClass, '}', ")");
  }

  lemma ReplaceSinglesOpen()
    ensures ReplaceSingles("{") == "("
  {
    ReplaceCharAbsent("{", '*', NonSlashClass);
    assert Replace("{", "{", "(") == "(" + Replace([], "{", "(");
    ReplaceCharAbsent("(", '}', ")");
  }

  lemma ReplaceSinglesClose()
    ensures ReplaceSingles("}") == ")"
  {
    ReplaceCharAbsent("}", '*', NonSlashClass);
    ReplaceCharAbsent("}", '{', "(");
    assert Replace("}", "}", ")") == ")" + Replace([], "}", ")");
  }

  /** The four chained replacements act token by token on the endpoint. */
  lemma {:induction false} ReplaceChainIsTokenwise(e: string)
    ensures TranslateWildcards(e) == Tokens(e)
    decreases |e|
  {
    if e != [] {
      TranslateHead(e);
      if |e| >= 2 && e[..2] == "**" {
        ReplaceChainIsTokenwise(e[2..]);
      } else {
        ReplaceChainIsTokenwise(e[1..]);
      }
    } else {
      assert TranslateWildcards([]) == [];
    }
  }

  /** The translation never holds `$` and never starts with `^`, so both anchors are always added. */
  lemma {:induction false} TokensHaveNoAnchors(e: string)
    requires SafeEndpoint(e)
    ensures '$' !in Tokens(e)
    ensures Tokens(e) != [] ==> Tokens(e)[0] != '^'
    decreases |e|
  {
    if e != [] {
      if |e| >= 2 && e[..2] == "**" {
        TokensHaveNoAnchors(e[2..]);
      } else {
        assert SafeEndpointChar(e[0]);
        TokensHaveNoAnchors(e[1..]);
      }
    }
  }

  /** For an endpoint in the safe alphabet the regex is `^`, the translation, then `$`. */
  lemma EndpointRegexShape(e: string)
    requires SafeEndpoint(e)
    ensures EndpointRegex(e) == "^" + Tokens(e) + "$"
  {
    ReplaceChainIsTokenwise(e);
    TokensHaveNoAnchors(e);
    var t := Tokens(e);
    assert !StartsWith(t, "^");
    var front := "^" + t;
    assert front[|front| - 1] != '$';
    assert !EndsWith(front, "$");
  }

  lemma ParseRunStep(x: string, d: nat)
    ensures ParseBody(NonSlashClass + x, d) == Cons(NonSlashRun, ParseBody(x, d))
  {
    var s := NonSlashClass + x;
    assert StartsWith(s, NonSlashClass) && s[|NonSlashClass|..] == x;
  }

  lemma ParseAnyRunStep(x: string, d: nat)
    ensures ParseBody("." + NonSlashClass + x, d) == Cons(AnyChar, Cons(NonSlashRun, ParseBody(x, d)))
  {
    var s := "." + NonSlashClass + x;
    assert s[0] == '.' && s[1..] == NonSlashClass + x;
    assert !StartsWith(s, NonSlashClass);
    ParseRunStep(x, d);
  }

  lemma ParseGroupStep(open: bool, x: string, d: nat)
    ensures open ==> ParseBody("(" + x, d) == ParseBody(x, d + 1)
    ensures !open ==> ParseBody(")" + x, d) == if d == 0 then None else ParseBody(x, d - 1)
  {
    assert ("(" + x)[1..] == x && (")" + x)[1..] == x;
  }

  lemma ParseLitStep(c: char, x: string, d: nat)
    requires LiteralChar(c)
    ensures ParseBody([c] + x, d) == Cons(Lit(c), ParseBody(x, d))
  {
    var s := [c] + x;
    assert s[1..] == x && s[0] == c;
    assert NonSlashClass[0] == '[';
    assert s != "$" && !StartsWith(s, NonSlashClass);
  }

  lemma ParseAnyStep(x: string, d: nat)
    ensures ParseBody("." + x, d) == Cons(AnyChar, ParseBody(x, d))
  {
    var s := "." + x;
    assert s[1..] == x && s[0] == '.';
    assert NonSlashClass[0] == '[';
    assert !StartsWith(s, NonSlashClass);
  }

  /** Compiling the translated text of the endpoint gives Glob(e), or fails on unbalanced braces. */
  lemma {:induction false} ParseTranslated(e: string, d: nat)
    requires SafeEndpoint(e)
    ensures ParseBody(Tokens(e) + "$", d) == if BalancedFrom(e, d) then Some(Glob(e)) else None
    decreases |e|, 1
  {
    if e == [] {
      assert Tokens(e) + "$" == "$";
    } else if |e| >= 2 && e[..2] == "**" {
      ParseDoubleStarToken(e, d);
    } else if e[0] == '*' {
      ParseStarToken(e, d);
    } else if e[0] == '{' {
      ParseOpenToken(e, d);
    } else if e[0] == '}' {
      ParseCloseToken(e, d);
    } else {
      ParseCharToken(e, d);
    }
  }

  /** The ParseTranslated case of `**`. */
  lemma {:induction false} ParseDoubleStarToken(e: string, d: nat)
    requires SafeEndpoint(e) && |e| >= 2 && e[..2] == "**"
    ensures ParseBody(Tokens(e) + "$", d) == if BalancedFrom(e, d) then Some(Glob(e)) else None
    decreases |e|, 0
  {
    var t := e[2..];
    var x := Tokens(t) + "$";
    assert Tokens(e) + "$" == "." + NonSlashClass + x;
    assert Glob(e) == [AnyChar, NonSlashRun] + Glob(t);
    assert BalancedFrom(e, d) == BalancedFrom(t, d) by {
      assert e[0] == '*' && e[1] == '*' && e[1..][1..] == t;
    }
    assert ParseBody("." + NonSlashClass + x, d) == Cons(AnyChar, Cons(NonSlashRun, ParseBody(x, d))) by {
      ParseAnyRunStep(x, d);
    }
    assert SafeEndpoint(t);
    assert ParseBody(x, d) == (if BalancedFrom(t, d) then Some(Glob(t)) else None) by {
      ParseTranslated(t, d);
    }
    assert [AnyChar] + ([NonSlashRun] + Glob(t)) == [AnyChar, NonSlashRun] + Glob(t);
  }

  /** The ParseTranslated case of a lone `*`. */
  lemma {:induction false} ParseStarToken(e: string, d: nat)
    requires SafeEndpoint(e) && e != [] && e[0] == '*' && !(|e| >= 2 && e[..2] == "**")
    ensures ParseBody(Tokens(e) + "$", d) == if BalancedFrom(e, d) then Some(Glob(e)) else None
    decreases |e|, 0
  {
    var t := e[1..];
    var x := Tokens(t) + "$";
    assert Tokens(e) + "$" == NonSlashClass + x;
    assert Glob(e) == [NonSlashRun] + Glob(t) && BalancedFrom(e, d) == BalancedFrom(t, d);
    assert ParseBody(NonSlashClass + x, d) == Cons(NonSlashRun, ParseBody(x, d)) by { ParseRunStep(x, d); }
    assert SafeEndpoint(t);
    assert ParseBody(x, d) == (if BalancedFrom(t, d) then Some(Glob(t)) else None) by {
      ParseTranslated(t, d);
    }
  }

  /** One step of Tokens, Glob and BalancedFrom at a character other than '*'. */
  lemma UnfoldHead(e: string, d: nat)
    requires e != [] && e[0] != '*'
    ensures Tokens(e) == (if e[0] == '{' then "(" else if e[0] == '}' then ")" else [e[0]]) + Tokens(e[1..])
    ensures Glob(e) == (if e[0] == '{' || e[0] == '}' then [] else if e[0] == '.' then [AnyChar] else [Lit(e[0])]) + Glob(e[1..])
    ensures BalancedFrom(e, d) == if e[0] == '{' then BalancedFrom(e[1..], d + 1)
                                  else if e[0] == '}' then d > 0 && BalancedFrom(e[1..], d - 1)
                                  else BalancedFrom(e[1..], d)
  {
    assert !(|e| >= 2 && e[..2] == "**") by {
      if |e| >= 2 { assert e[..2][0] == e[0]; }
    }
  }

  /** The translation of a brace is one parenthesis followed by the translation of the rest. */
  lemma BraceTokens(e: string, d: nat)
    requires e != [] && (e[0] == '{' || e[0] == '}')
    ensures var s := Tokens(e) + "$";
            s != [] && s[0] == (if e[0] == '{' then '(' else ')') && s[1..] == Tokens(e[1..]) + "$"
    ensures Glob(e) == Glob(e[1..])
    ensures BalancedFrom(e, d) == if e[0] == '{' then BalancedFrom(e[1..], d + 1) else d > 0 && BalancedFrom(e[1..], d - 1)
  {
    UnfoldHead(e, d);
    assert [] + Glob(e[1..]) == Glob(e[1..]);
  }

  /** The ParseTranslated case of '{', which opens a group. */
  lemma {:induction false} ParseOpenToken(e: string, d: nat)
    requires SafeEndpoint(e) && e != [] && e[0] == '{'
    ensures ParseBody(Tokens(e) + "$", d) == if BalancedFrom(e, d) then Some(Glob(e)) else None
    decreases |e|, 0
  {
    var t := e[1..];
    var s, x := Tokens(e) + "$", Tokens(t) + "$";
    assert s != [] && s[0] == '(' && s[1..] == x && Glob(e) == Glob(t) && BalancedFrom(e, d) == BalancedFrom(t, d + 1) by {
      BraceTokens(e, d);
    }
    assert ParseBody(s, d) == ParseBody(x, d + 1);
    assert SafeEndpoint(t);
    assert ParseBody(x, d + 1) == (if BalancedFrom(t, d + 1) then Some(Glob(t)) else None) by {
      ParseTranslated(t, d + 1);
    }
  }

  /** The ParseTranslated case of '}', which closes a group. */
  lemma {:induction false} ParseCloseToken(e: string, d: nat)
    requires SafeEndpoint(e) && e != [] && e[0] == '}'
    ensures ParseBody(Tokens(e) + "$", d) == if BalancedFrom(e, d) then Some(Glob(e)) else None
    decreases |e|, 0
  {
    var t := e[1..];
    var s, x := Tokens(e) + "$", Tokens(t) + "$";
    assert s != [] && s[0] == ')' && s[1..] == x && Glob(e) == Glob(t) && BalancedFrom(e, d) == (d > 0 && BalancedFrom(t, d - 1)) by {
      BraceTokens(e, d);
    }
    assert ParseBody(s, d) == if d == 0 then None else ParseBody(x, d - 1);
    if d > 0 {
      assert SafeEndpoint(t);
      assert ParseBody(x, d - 1) == (if BalancedFrom(t, d - 1) then Some(Glob(t)) else None) by {
        ParseTranslated(t, d - 1);
      }
    }
  }

  /** The ParseTranslated case of '.' or a literal character. */
  lemma {:induction false} ParseCharToken(e: string, d: nat)
    requires SafeEndpoint(e) && e != [] && e[0] != '*' && e[0] != '{' && e[0] != '}'
    ensures ParseBody(Tokens(e) + "$", d) == if BalancedFrom(e, d) then Some(Glob(e)) else None
    decreases |e|, 0
  {
    var c, t := e[0], e[1..];
    var x := Tokens(t) + "$";
    assert SafeEndpointChar(c) && SafeEndpoint(t);
    assert Tokens(e) == [c] + Tokens(t) && BalancedFrom(e, d) == BalancedFrom(t, d) &&
           Glob(e) == (if c == '.' then [AnyChar] else [Lit(c)]) + Glob(t) by {
      UnfoldHead(e, d);
    }
    assert ParseBody(x, d) == (if BalancedFrom(t, d) then Some(Glob(t)) else None) by {
      ParseTranslated(t, d);
    }
    assert Tokens(e) + "$" == [c] + x;
    if c == '.' {
      assert ParseBody("." + x, d) == Cons(AnyChar, ParseBody(x, d)) by { ParseAnyStep(x, d); }
    } else {
      assert LiteralChar(c);
      assert ParseBody([c] + x, d) == Cons(Lit(c), ParseBody(x, d)) by { ParseLitStep(c, x, d); }
    }
  }

  /**
   * Compiling an endpoint's regex (`Pattern.compile`) succeeds exactly when its braces
   * balance, and then yields Glob(e).
   */
  lemma CompileEndpoint(e: string)
    requires SafeEndpoint(e)
    ensures Parse(EndpointRegex(e)) == if Balanced(e) then Some(Glob(e)) else None
  {
    EndpointRegexShape(e);
    ParseTranslated(e, 0);
    var re := EndpointRegex(e);
    assert re[1..] == Tokens(e) + "$";
  }

  /** `Pattern.matches(regex, path)` for one endpoint. */
  function EndpointMatch(e: string, path: string): (r: Result<bool, PatternError>)
    requires SafeEndpoint(e)
    ensures Balanced(e) ==> r == Ok(GlobMatches(e, path))
    ensures !Balanced(e) ==> r == Err(PatternSyntax(EndpointRegex(e)))
  {
    CompileEndpoint(e);
    match Parse(EndpointRegex(e))
    case None => Err(PatternSyntax(EndpointRegex(e)))
    case Some(atoms) => Ok(Matches(atoms, path))
  }

  // ---------------------------------------------------------------------------
  // Route lookup and authorisation
  // ---------------------------------------------------------------------------

  /** The index of the first entry whose name equals `name` (|services| when there is none). */
  function FirstNamed(services: seq<ServiceConfig>, name: string): (i: nat)
    ensures i <= |services|
    ensures i < |services| ==> services[i].name == Some(name)
    ensures forall j :: 0 <= j < i ==> services[j].name != Some(name)
  {
    if services == [] then 0
    else if services[0].name == Some(name) then 0
    else 1 + FirstNamed(services[1..], name)
  }

  /** `getServiceByName`: the first entry, in list order, whose name equals the argument. */
  function ServiceByName(props: WhitelistProperties, name: Option<string>): (r: Option<ServiceConfig>)
    ensures props.services.None? || name.None? ==> r.None?
    ensures r.None? && props.services.Some? && name.Some? ==>
              forall c :: c in props.services.value ==> c.name != name
    ensures r.Some? ==> props.services.Some? && name.Some? && r.value.name == name
    ensures r.Some? ==> exists i :: (0 <= i < |props.services.value| && props.services.value[i] == r.value
              && forall j :: 0 <= j < i ==> props.services.value[j].name != name)
  {
    if props.services.None? || name.None? then None
    else
      var i := FirstNamed(props.services.value, name.value);
      if i < |props.services.value| then Some(props.services.value[i]) else None
  }

  /** `isPathMatched`'s loop: endpoints are tried in order and the first match returns. */
  function MatchAny(path: string, eps: seq<string>): (r: Result<bool, PatternError>)
    requires forall e :: e in eps ==> SafeEndpoint(e)
    ensures eps == [] ==> r == Ok(false)
  {
    if eps == [] then Ok(false)
    else
      match EndpointMatch(eps[0], path)
      case Err(err) => Err(err)
      case Ok(hit) => if hit then Ok(true) else MatchAny(path, eps[1..])
  }

  /** A `true` answer comes from an endpoint that compiles and matches the whole path. */
  lemma {:induction false} MatchAnyTrue(path: string, eps: seq<string>)
    requires forall e :: e in eps ==> SafeEndpoint(e)
    ensures MatchAny(path, eps) == Ok(true) ==>
              exists i :: 0 <= i < |eps| && Balanced(eps[i]) && GlobMatches(eps[i], path)
  {
    if eps != [] && MatchAny(path, eps) == Ok(true) && !(Balanced(eps[0]) && GlobMatches(eps[0], path)) {
      assert forall e :: e in eps[1..] ==> e in eps;
      MatchAnyTrue(path, eps[1..]);
      var i :| 0 <= i < |eps[1..]| && Balanced(eps[1..][i]) && GlobMatches(eps[1..][i], path);
      assert eps[i + 1] == eps[1..][i];
    }
  }

  /** Over endpoints that all compile, the loop answers whether SOME endpoint matches. */
  lemma {:induction false} MatchAnyBalanced(path: string, eps: seq<string>)
    requires forall e :: e in eps ==> SafeEndpoint(e) && Balanced(e)
    ensures MatchAny(path, eps) == Ok(exists i :: 0 <= i < |eps| && GlobMatches(eps[i], path))
  {
    if eps != [] {
      assert eps[0] in eps;
      assert forall e :: e in eps[1..] ==> e in eps;
      MatchAnyBalanced(path, eps[1..]);
      if !GlobMatches(eps[0], path) {
        if exists i :: 0 <= i < |eps| && GlobMatches(eps[i], path) {
          var i :| 0 <= i < |eps| && GlobMatches(eps[i], path);
          assert eps[1..][i - 1] == eps[i];
        }
        if exists i :: 0 <= i < |eps[1..]| && GlobMatches(eps[1..][i], path) {
          var i :| 0 <= i < |eps[1..]| && GlobMatches(eps[1..][i], path);
          assert eps[i + 1] == eps[1..][i];
        }
      }
    }
  }

  /** One step of the loop over the endpoints, stated through Balanced and GlobMatches. */
  lemma MatchAnyStep(path: string, eps: seq<string>)
    requires eps != [] && forall e :: e in eps ==> SafeEndpoint(e)
    ensures forall e :: e in eps[1..] ==> SafeEndpoint(e)
    ensures !Balanced(eps[0]) ==> MatchAny(path, eps) == Err(PatternSyntax(EndpointRegex(eps[0])))
    ensures Balanced(eps[0]) && GlobMatches(eps[0], path) ==> MatchAny(path, eps) == Ok(true)
    ensures Balanced(eps[0]) && !GlobMatches(eps[0], path) ==> MatchAny(path, eps) == MatchAny(path, eps[1..])
  {
    assert eps[0] in eps;
    assert forall e :: e in eps[1..] ==> e in eps;
  }

  /** The endpoint an error names: the first that does not compile, after endpoints that all missed. */
  predicate ErrorAt(path: string, eps: seq<string>, err: PatternError, i: int)
    requires forall e :: e in eps ==> SafeEndpoint(e)
  {
    0 <= i < |eps| && !Balanced(eps[i]) && err == PatternSyntax(EndpointRegex(eps[i]))
    && forall j :: 0 <= j < i ==> Balanced(eps[j]) && !GlobMatches(eps[j], path)
  }

  /**
   * An exception comes from the first endpoint that does not compile, reached only because
   * every endpoint before it compiled and did not match.
   */
  lemma {:induction false} MatchAnyErr(path: string, eps: seq<string>)
    requires forall e :: e in eps ==> SafeEndpoint(e)
    ensures MatchAny(path, eps).Err? ==> exists i :: ErrorAt(path, eps, MatchAny(path, eps).error, i)
  {
    if eps != [] && MatchAny(path, eps).Err? {
      var r, rest := MatchAny(path, eps), eps[1..];
      MatchAnyStep(path, eps);
      if !Balanced(eps[0]) {
        assert ErrorAt(path, eps, r.error, 0);
      } else {
        assert r == MatchAny(path, rest);
        assert exists i :: ErrorAt(path, rest, r.error, i) by { MatchAnyErr(path, rest); }
        var i :| ErrorAt(path, rest, r.error, i);
        ErrorAtShift(path, eps, r.error, i);
      }
    }
  }

  /** An error named at index i of the tail is named at index i + 1 after a missed endpoint. */
  lemma ErrorAtShift(path: string, eps: seq<string>, err: PatternError, i: int)
    requires eps != [] && forall e :: e in eps ==> SafeEndpoint(e)
    requires forall e :: e in eps[1..] ==> SafeEndpoint(e)
    requires Balanced(eps[0]) && !GlobMatches(eps[0], path)
    requires ErrorAt(path, eps[1..], err, i)
    ensures ErrorAt(path, eps, err, i + 1)
  {
    assert eps[i + 1] == eps[1..][i];
    forall j | 0 <= j < i + 1
      ensures Balanced(eps[j]) && !GlobMatches(eps[j], path)
    {
      if j > 0 {
        assert eps[j] == eps[1..][j - 1];
      }
    }
  }

  /** `isPathMatched`: a null or empty endpoint list matches nothing. */
  function IsPathMatched(path: string, endpoints: Option<seq<string>>): (r: Result<bool, PatternError>)
    requires endpoints.Some? ==> forall e :: e in endpoints.value ==> SafeEndpoint(e)
    ensures endpoints.None? || endpoints == Some([]) ==> r == Ok(false)
  {
    if endpoints.None? || endpoints.value == [] then Ok(false)
    else MatchAny(path, endpoints.value)
  }

  /** `isRequestAllowed`. */
  function IsRequestAllowed(props: WhitelistProperties, service: Option<string>, path: string): (r: Result<bool, PatternError>)
    requires SafeTable(props)
    ensures !props.enabled ==> r == Ok(true)
    ensures props.enabled && ServiceByName(props, service).None? ==> r == Ok(false)
  {
    if !props.enabled then Ok(true)
    else
      match ServiceByName(props, service)
      case None => Ok(false)
      case Some(c) =>
        IsPathMatched(path, c.endpoints)
  }

  /** `getTargetUrl`: base URL followed by the path, for a known service; the enabled flag is not read. */
  function TargetUrl(props: WhitelistProperties, service: Option<string>, path: string): (r: Option<string>)
    ensures r.Some? <==> ServiceByName(props, service).Some?
    ensures r.Some? ==> EndsWith(r.value, path)
    ensures r.Some? && ServiceByName(props, service).value.baseUrl.Some? ==>
              var base := ServiceByName(props, service).value.baseUrl.value;
              StartsWith(r.value, base) && r.value[|base|..] == path
  {
    match ServiceByName(props, service)
    case None => None
    case Some(c) => Some(ConcatNullable(c.baseUrl, path))
  }

  // ---------------------------------------------------------------------------
  // Properties
  // ---------------------------------------------------------------------------

  /** The endpoints of every configured service have balanced braces (so no compile error can arise). */
  predicate BalancedTable(props: WhitelistProperties) {
    props.services.Some? ==>
      forall c :: c in props.services.value ==>
        c.endpoints.Some? ==> forall e :: e in c.endpoints.value ==> Balanced(e)
  }

  /**
   * Over a table whose braces balance, access is granted exactly when the whitelist is off, or
   * the service is configured and some endpoint pattern matches the whole path.
   */
  lemma AllowedIffSomeEndpointMatches(props: WhitelistProperties, service: Option<string>, path: string)
    requires SafeTable(props) && BalancedTable(props)
    ensures IsRequestAllowed(props, service, path) ==
            Ok(!props.enabled ||
               (ServiceByName(props, service).Some? &&
                ServiceByName(props, service).value.endpoints.Some? &&
                exists e :: e in ServiceByName(props, service).value.endpoints.value && GlobMatches(e, path)))
  {
    var c := ServiceByName(props, service);
    if props.enabled && c.Some? && c.value.endpoints.Some? {
      var eps := c.value.endpoints.value;
      assert c.value in props.services.value;
      assert forall i :: 0 <= i < |eps| ==> eps[i] in eps;
      MatchAnyBalanced(path, eps);
      if exists e :: e in eps && GlobMatches(e, path) {
        var e :| e in eps && GlobMatches(e, path);
        var i :| 0 <= i < |eps| && eps[i] == e;
        assert GlobMatches(eps[i], path);
      }
    }
  }

  /** Disabled whitelist: every service and path passes, configured or not. */
  lemma DisabledAllowsEverything(props: WhitelistProperties, service: Option<string>, path: string)
    requires SafeTable(props) && !props.enabled
    ensures IsRequestAllowed(props, service, path) == Ok(true)
  {
  }

  /** A configured service with a null or empty endpoint list is denied every path. */
  lemma NoEndpointsDeniesAll(props: WhitelistProperties, service: Option<string>, path: string)
    requires SafeTable(props) && props.enabled
    requires ServiceByName(props, service).Some?
    requires ServiceByName(props, service).value.endpoints in {None, Some([])}
    ensures IsRequestAllowed(props, service, path) == Ok(false)
  {
  }

  /** The destination does not depend on the enabled flag. */
  lemma TargetUrlIgnoresEnabled(props: WhitelistProperties, service: Option<string>, path: string, on: bool)
    ensures TargetUrl(props.(enabled := on), service, path) == TargetUrl(props, service, path)
  {
  }

  /** Only the entries up to the first one with the name matter: what follows it can be anything. */
  lemma LaterEntriesIgnored(props: WhitelistProperties, name: string, i: nat, rest: seq<ServiceConfig>)
    requires props.services.Some? && i < |props.services.value|
    requires props.services.value[i].name == Some(name)
    ensures ServiceByName(props.(services := Some(props.services.value[..i + 1] + rest)), Some(name))
            == ServiceByName(props, Some(name))
  {
    var a := props.services.value;
    var b := a[..i + 1] + rest;
    assert b[i] == a[i];
    var f, g := FirstNamed(a, name), FirstNamed(b, name);
    assert f <= i && g <= i;
    assert b[f] == a[f] && b[g] == a[g];
  }

  // Pattern meaning, stated for a literal prefix w (letters, digits, '/', '_', '-').

  /** One step of Glob on a character other than '*'. */
  lemma GlobStep(c: char, x: string)
    requires c != '*'
    ensures Glob([c] + x) == (if c == '{' || c == '}' then [] else if c == '.' then [AnyChar] else [Lit(c)]) + Glob(x)
  {
    var e := [c] + x;
    assert e[0] == c && e[1..] == x;
    assert |e| >= 2 ==> e[..2][0] == c;
  }

  /** One step of BalancedFrom. */
  lemma BalancedStep(c: char, x: string, d: nat)
    ensures BalancedFrom([c] + x, d) ==
            if c == '{' then BalancedFrom(x, d + 1) else if c == '}' then d > 0 && BalancedFrom(x, d - 1)
            else BalancedFrom(x, d)
  {
    var e := [c] + x;
    assert e[0] == c && e[1..] == x;
  }

  lemma {:induction false} GlobLiteralPrefix(w: string, x: string)
    requires LiteralText(w)
    ensures Glob(w + x) == Literals(w) + Glob(x)
    decreases |w|
  {
    if w == [] {
      assert w + x == x;
    } else {
      var c, t := w[0], w[1..];
      assert LiteralChar(c) && LiteralText(t);
      calc {
        Glob(w + x);
        { assert w + x == [c] + (t + x); }
        Glob([c] + (t + x));
        { GlobStep(c, t + x); }
        [Lit(c)] + Glob(t + x);
        { GlobLiteralPrefix(t, x); }
        [Lit(c)] + (Literals(t) + Glob(x));
        { AppendAssoc([Lit(c)], Literals(t), Glob(x)); }
        ([Lit(c)] + Literals(t)) + Glob(x);
        { assert Literals(w) == [Lit(c)] + Literals(t); }
        Literals(w) + Glob(x);
      }
    }
  }

  lemma {:induction false} BalancedLiteralPrefix(w: string, x: string, d: nat)
    requires LiteralText(w)
    ensures BalancedFrom(w + x, d) == BalancedFrom(x, d)
    decreases |w|
  {
    if w == [] {
      assert w + x == x;
    } else {
      var c, t := w[0], w[1..];
      assert LiteralChar(c) && LiteralText(t);
      assert w + x == [c] + (t + x);
      assert BalancedFrom([c] + (t + x), d) == BalancedFrom(t + x, d) by { BalancedStep(c, t + x, d); }
      BalancedLiteralPrefix(t, x, d);
    }
  }

  lemma SafeConcat(a: string, b: string)
    requires SafeEndpoint(a) && SafeEndpoint(b)
    ensures SafeEndpoint(a + b)
  {
    assert forall i :: |a| <= i < |a + b| ==> (a + b)[i] == b[i - |a|];
  }

  /** `w*` accepts exactly the paths that are `w` followed by a run without '/'. */
  lemma LoneStarSuffix(w: string, path: string)
    requires LiteralText(w)
    ensures SafeEndpoint(w + "*")
    ensures EndpointMatch(w + "*", path) == Ok(StartsWith(path, w) && '/' !in path[|w|..])
  {
    SafeConcat(w, "*");
    GlobStar();
    assert Glob(w + "*") == Literals(w) + [NonSlashRun] by { GlobLiteralPrefix(w, "*"); }
    assert Balanced(w + "*") by {
      BalancedLiteralPrefix(w, "*", 0);
      BalancedStep('*', [], 0);
    }
    assert Matches(Literals(w) + [NonSlashRun], path) <==> StartsWith(path, w) && '/' !in path[|w|..] by {
      LiteralsThen(w, [NonSlashRun], path);
      if StartsWith(path, w) {
        RunMatchesNoSlash(path[|w|..]);
      }
    }
  }

  lemma GlobStar()
    ensures Glob("*") == [NonSlashRun] && Glob("**") == [AnyChar, NonSlashRun]
  {
    assert "*"[1..] == [];
    assert "**"[..2] == "**" && "**"[2..] == [];
  }

  /**
   * `w**` accepts exactly `w` followed by ONE character other than a line terminator and then
   * a run without '/': the second replacement rewrites the `*` of `.*`, so `**` does not
   * cross segments.
   */
  lemma DoubleStarSuffix(w: string, path: string)
    requires LiteralText(w)
    ensures SafeEndpoint(w + "**")
    ensures EndpointMatch(w + "**", path) ==
            Ok(StartsWith(path, w) && |path| > |w| && !IsLineTerminator(path[|w|]) && '/' !in path[|w| + 1..])
  {
    SafeConcat(w, "**");
    GlobStar();
    assert Glob(w + "**") == Literals(w) + [AnyChar, NonSlashRun] by { GlobLiteralPrefix(w, "**"); }
    assert Balanced(w + "**") by {
      BalancedLiteralPrefix(w, "**", 0);
      assert "**" == ['*'] + "*";
      BalancedStep('*', "*", 0);
      BalancedStep('*', [], 0);
    }
    assert Matches(Literals(w) + [AnyChar, NonSlashRun], path) <==>
           StartsWith(path, w) && |path| > |w| && !IsLineTerminator(path[|w|]) && '/' !in path[|w| + 1..] by {
      LiteralsThen(w, [AnyChar, NonSlashRun], path);
      if StartsWith(path, w) {
        AnyThenRun(path[|w|..]);
      }
    }
  }

  lemma LiteralsConcat(a: string, b: string)
    ensures Literals(a + b) == Literals(a) + Literals(b)
  {
  }

  lemma BraceGroupSafe(v: string, w2: string)
    requires LiteralText(v) && LiteralText(w2)
    ensures SafeEndpoint("{" + v + "}" + w2)
  {
    var e := "{" + v + "}" + w2;
    forall i | 0 <= i < |e| ensures SafeEndpointChar(e[i]) {
      if i == 0 {
      } else if i <= |v| {
        assert e[i] == v[i - 1];
      } else if i > |v| + 1 {
        assert e[i] == w2[i - |v| - 2];
      }
    }
  }

  /** `{v}w2` means the literal text `v` followed by `w2`. */
  lemma BraceGroupGlob(v: string, w2: string)
    requires LiteralText(v) && LiteralText(w2)
    ensures Glob("{" + v + "}" + w2) == Literals(v + w2)
  {
    var z := "}" + w2;
    var y := v + z;
    assert "{" + v + "}" + w2 == ['{'] + y;
    assert Glob(['{'] + y) == Glob(y) by { GlobStep('{', y); }
    assert Glob(y) == Literals(v) + Glob(z) by { GlobLiteralPrefix(v, z); }
    assert Glob(z) == Glob(w2) by { GlobStep('}', w2); }
    assert Glob(w2) == Literals(w2) by { GlobLiteralPrefix(w2, []); assert w2 + [] == w2; }
    LiteralsConcat(v, w2);
  }

  /** The braces of `{v}w2` balance. */
  lemma BraceGroupBalanced(v: string, w2: string)
    requires LiteralText(v) && LiteralText(w2)
    ensures Balanced("{" + v + "}" + w2)
  {
    var z := "}" + w2;
    var y := v + z;
    assert "{" + v + "}" + w2 == ['{'] + y;
    BalancedStep('{', y, 0);
    BalancedLiteralPrefix(v, z, 1);
    BalancedStep('}', w2, 1);
    BalancedLiteralPrefix(w2, [], 0);
    assert w2 + [] == w2;
  }

  /** `{name}` is a group around the literal text `name`: it matches only that text. */
  lemma BraceGroupIsLiteral(w1: string, v: string, w2: string, path: string)
    requires LiteralText(w1) && LiteralText(v) && LiteralText(w2)
    ensures SafeEndpoint(w1 + "{" + v + "}" + w2)
    ensures EndpointMatch(w1 + "{" + v + "}" + w2, path) == Ok(path == w1 + v + w2)
  {
    var g := "{" + v + "}" + w2;
    assert w1 + "{" + v + "}" + w2 == w1 + g;
    assert SafeEndpoint(w1 + g) by {
      BraceGroupSafe(v, w2);
      SafeConcat(w1, g);
    }
    assert Balanced(w1 + g) by {
      BraceGroupBalanced(v, w2);
      BalancedLiteralPrefix(w1, g, 0);
    }
    assert Glob(w1 + g) == Literals(w1 + v + w2) by {
      BraceGroupGlob(v, w2);
      GlobLiteralPrefix(w1, g);
      LiteralsConcat(w1, v + w2);
      assert w1 + (v + w2) == w1 + v + w2;
    }
    LiteralsExactly(w1 + v + w2, path);
  }

  // The pattern "/api/" followed by two stars accepts a single segment after the prefix,
  // and neither a deeper path nor an empty one.
  lemma DoubleStarOneSegment()
    ensures EndpointMatch("/api/**", "/api/users") == Ok(true)
  {
    var w := "/api/";
    assert LiteralText(w);
    assert "/api/**" == w + "**";
    var path := "/api/users";
    assert StartsWith(path, w) && |path| > |w| && !IsLineTerminator(path[|w|]);
    assert '/' !in path[|w| + 1..] by {
      assert path[|w| + 1..] == "sers";
      assert forall i :: 0 <= i < 4 ==> "sers"[i] != '/';
    }
    DoubleStarSuffix(w, path);
  }

  lemma DoubleStarNotDeeper()
    ensures EndpointMatch("/api/**", "/api/users/1") == Ok(false)
  {
    var w := "/api/";
    assert LiteralText(w);
    assert "/api/**" == w + "**";
    DoubleStarSuffix(w, "/api/users/1");
    assert "/api/users/1"[6..][4] == '/';
  }

  lemma DoubleStarNotEmpty()
    ensures EndpointMatch("/api/**", "/api/") == Ok(false)
  {
    var w := "/api/";
    assert LiteralText(w);
    assert "/api/**" == w + "**";
    DoubleStarSuffix(w, "/api/");
  }

  lemma LoneStarExamples()
    ensures EndpointMatch("/api/*", "/api/") == Ok(true)
    ensures EndpointMatch("/api/*", "/api/a") == Ok(true)
    ensures EndpointMatch("/api/*", "/api/a/b") == Ok(false)
  {
    var w := "/api/";
    assert LiteralText(w);
    assert "/api/*" == w + "*";
    assert EndpointMatch("/api/*", "/api/") == Ok(true) by {
      LoneStarSuffix(w, "/api/");
      assert "/api/"[..5] == w;
    }
    assert EndpointMatch("/api/*", "/api/a") == Ok(true) by {
      LoneStarSuffix(w, "/api/a");
      assert "/api/a"[..5] == w && "/api/a"[5..] == "a";
    }
    assert EndpointMatch("/api/*", "/api/a/b") == Ok(false) by {
      LoneStarSuffix(w, "/api/a/b");
      assert "/api/a/b"[5..][1] == '/';
    }
  }

  lemma BraceExamples()
    ensures EndpointMatch("/users/{id}", "/users/id") == Ok(true)
    ensures EndpointMatch("/users/{id}", "/users/42") == Ok(false)
  {
    var w, v := "/users/", "id";
    assert LiteralText(w) && LiteralText(v) && LiteralText("");
    assert "/users/{id}" == w + "{" + v + "}" + "";
    assert w + v + "" == "/users/id";
    assert EndpointMatch("/users/{id}", "/users/id") == Ok(true) by {
      BraceGroupIsLiteral(w, v, "", "/users/id");
    }
    assert EndpointMatch("/users/{id}", "/users/42") == Ok(false) by {
      BraceGroupIsLiteral(w, v, "", "/users/42");
    }
  }
}
