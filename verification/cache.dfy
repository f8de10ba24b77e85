/**
 * CacheService: a second copy of the whitelist decision, written with stream filters and a
 * separate compile step. The Spring memoisation is not modelled: every call recomputes.
 */
module Cache {
  import opened Wrappers
  import opened PathRegex
  import opened Whitelist

  /** The entries whose name equals `name`, in list order (`stream().filter(...)`). */
  function Named(services: seq<ServiceConfig>, name: string): (r: seq<ServiceConfig>)
    ensures forall c :: c in r ==> c in services && c.name == Some(name)
    ensures forall c :: c in services && c.name == Some(name) ==> c in r
    ensures r != [] ==> FirstNamed(services, name) < |services| && r[0] == services[FirstNamed(services, name)]
  {
    if services == [] then []
    else if services[0].name == Some(name) then [services[0]] + Named(services[1..], name)
    else Named(services[1..], name)
  }

  /** `getCachedServiceConfig`: `findFirst` over the filtered stream. */
  function CachedServiceConfig(props: WhitelistProperties, name: Option<string>): (r: Option<ServiceConfig>)
    ensures props.services.None? || name.None? ==> r.None?
    ensures r.Some? ==> r.value in props.services.value && r.value.name == name
  {
    if props.services.None? then None
    else
      var matching := if name.None? then [] else Named(props.services.value, name.value);
      if matching == [] then None else Some(matching[0])
  }

  /** The stream lookup and WhitelistService's loop pick the same entry. */
  lemma CachedConfigIsServiceByName(props: WhitelistProperties, name: Option<string>)
    ensures CachedServiceConfig(props, name) == ServiceByName(props, name)
  {
    if props.services.Some? && name.Some? {
      var s := props.services.value;
      var i := FirstNamed(s, name.value);
      if i < |s| {
        assert s[i] in s;
        assert s[i] in Named(s, name.value);
      }
    }
  }

  /**
   * `getCompiledPattern`: the same four replacements in the same order and the same
   * conditional anchoring (so the regex text is EndpointRegex), then `Pattern.compile`.
   */
  function CompiledPattern(endpoint: string): (r: Result<seq<Atom>, PatternError>)
    requires SafeEndpoint(endpoint)
    ensures r.Ok? <==> Balanced(endpoint)
    ensures r.Ok? ==> r.value == Glob(endpoint)
    ensures r.Err? ==> r.error == PatternSyntax(EndpointRegex(endpoint))
  {
    CompileEndpoint(endpoint);
    match Parse(EndpointRegex(endpoint))
    case Some(atoms) => Ok(atoms)
    case None => Err(PatternSyntax(EndpointRegex(endpoint)))
  }

  /** `isPathMatchedCached`: compile each endpoint in order, return at the first match. */
  function IsPathMatchedCached(path: string, endpoints: Option<seq<string>>): (r: Result<bool, PatternError>)
    requires endpoints.Some? ==> forall e :: e in endpoints.value ==> SafeEndpoint(e)
    ensures endpoints.None? || endpoints == Some([]) ==> r == Ok(false)
    decreases if endpoints.Some? then |endpoints.value| else 0
  {
    if endpoints.None? || endpoints.value == [] then Ok(false)
    else
      var eps := endpoints.value;
      match CompiledPattern(eps[0])
      case Err(err) => Err(err)
      case Ok(atoms) =>
        if Matches(atoms, path) then Ok(true)
        else
          assert forall e :: e in eps[1..] ==> e in eps;
          IsPathMatchedCached(path, Some(eps[1..]))
  }

  /** `isRequestAllowedCached`. */
  function IsRequestAllowedCached(props: WhitelistProperties, service: Option<string>, path: string): (r: Result<bool, PatternError>)
    requires SafeTable(props)
    ensures !props.enabled ==> r == Ok(true)
    ensures props.enabled && CachedServiceConfig(props, service).None? ==> r == Ok(false)
  {
    if !props.enabled then Ok(true)
    else
      match CachedServiceConfig(props, service)
      case None => Ok(false)
      case Some(c) => IsPathMatchedCached(path, c.endpoints)
  }

  /** The cached path check answers exactly as WhitelistService's, exceptions included. */
  lemma {:induction false} PathMatchedAgrees(path: string, endpoints: Option<seq<string>>)
    requires endpoints.Some? ==> forall e :: e in endpoints.value ==> SafeEndpoint(e)
    ensures IsPathMatchedCached(path, endpoints) == IsPathMatched(path, endpoints)
    decreases if endpoints.Some? then |endpoints.value| else 0
  {
    if endpoints.Some? && endpoints.value != [] {
      var eps := endpoints.value;
      assert forall e :: e in eps[1..] ==> e in eps;
      PathMatchedAgrees(path, Some(eps[1..]));
    }
  }

  /** Both services give the same answer for every service and path over the same properties. */
  lemma CachedAgreesWithWhitelist(props: WhitelistProperties, service: Option<string>, path: string)
    requires SafeTable(props)
    ensures IsRequestAllowedCached(props, service, path) == IsRequestAllowed(props, service, path)
  {
    CachedConfigIsServiceByName(props, service);
    var c := ServiceByName(props, service);
    if props.enabled && c.Some? {
      assert c.value in props.services.value;
      PathMatchedAgrees(path, c.value.endpoints);
    }
  }

  /**
   * Endpoint `j` of service `i` is the first unbalanced endpoint in service-then-endpoint order:
   * every endpoint of the services before `i`, and of service `i` before `j`, is balanced.
   */
  predicate FirstUnbalanced(services: seq<ServiceConfig>, i: int, j: int) {
    && 0 <= i < |services|
    && services[i].endpoints.Some?
    && 0 <= j < |services[i].endpoints.value|
    && !Balanced(services[i].endpoints.value[j])
    && (forall k :: 0 <= k < i && services[k].endpoints.Some? ==>
          forall e :: e in services[k].endpoints.value ==> Balanced(e))
    && (forall m :: 0 <= m < j ==> Balanced(services[i].endpoints.value[m]))
  }

  /** There is at most one first unbalanced endpoint, so WarmUpCaches' error is determined. */
  lemma FirstUnbalancedUnique(services: seq<ServiceConfig>, i: int, j: int, i2: int, j2: int)
    requires FirstUnbalanced(services, i, j) && FirstUnbalanced(services, i2, j2)
    ensures i == i2 && j == j2
  {
  }

  /** `CacheStats`: the sizes of the two in-memory maps. */
  datatype CacheStats = CacheStats(patternCacheSize: nat, serviceConfigCacheSize: nat)

  /** The bean: the bound properties and two maps that no operation ever writes. */
  class CacheService {
    const whitelistProperties: WhitelistProperties
    const patternCache: map<string, seq<Atom>> := map[]
    const serviceConfigCache: map<string, ServiceConfig> := map[]

    constructor(props: WhitelistProperties)
      ensures whitelistProperties == props
    {
      whitelistProperties := props;
    }

    /** `getCacheStats`: both maps are always empty. */
    function GetCacheStats(): (stats: CacheStats)
      ensures stats.patternCacheSize == 0 && stats.serviceConfigCacheSize == 0
    {
      CacheStats(|patternCache|, |serviceConfigCache|)
    }

    /**
     * `warmUpCaches`: looks up every configured service and compiles every endpoint, in order.
     * It writes nothing; the only effect is the PatternSyntaxException of an endpoint that
     * does not compile.
     */
    method WarmUpCaches() returns (r: Result<(), PatternError>)
      requires SafeTable(whitelistProperties)
      ensures r.Ok? <==> BalancedTable(whitelistProperties)
      ensures r.Err? ==> exists c, e :: (c in whitelistProperties.services.value && c.endpoints.Some?
                && e in c.endpoints.value && !Balanced(e) && r.error == PatternSyntax(EndpointRegex(e)))
      ensures r.Err? ==> exists i, j :: (FirstUnbalanced(whitelistProperties.services.value, i, j)
                && r.error == PatternSyntax(EndpointRegex(whitelistProperties.services.value[i].endpoints.value[j])))
    {
      var props := whitelistProperties;
      if props.services.None? {
        return Ok(());
      }
      var services := props.services.value;
      var i := 0;
      while i < |services|
        invariant 0 <= i <= |services|
        invariant forall k :: 0 <= k < i && services[k].endpoints.Some? ==>
                    forall e :: e in services[k].endpoints.value ==> Balanced(e)
      {
        var c := services[i];
        assert c in services;
        var _ := CachedServiceConfig(props, c.name);
        if c.endpoints.Some? {
          var eps := c.endpoints.value;
          var j := 0;
          while j < |eps|
            invariant 0 <= j <= |eps|
            invariant forall m :: 0 <= m < j ==> Balanced(eps[m])
          {
            assert eps[j] in eps;
            var compiled := CompiledPattern(eps[j]);
            if compiled.Err? {
              assert FirstUnbalanced(services, i, j);
              return Err(compiled.error);
            }
            j := j + 1;
          }
          assert forall e :: e in eps ==> Balanced(e);
        }
        i := i + 1;
      }
      forall c | c in services && c.endpoints.Some?
        ensures forall e :: e in c.endpoints.value ==> Balanced(e)
      {
        var k :| 0 <= k < |services| && services[k] == c;
      }
      return Ok(());
    }
  }
}
