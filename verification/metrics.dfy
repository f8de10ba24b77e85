/**
 * PerformanceMetricsService: per-service request and error counters, response-time and byte
 * totals, the least and greatest response time, and the gateway-wide request and error totals.
 * Only the sequential behaviour is modelled; the counters are unbounded integers.
 */
module Metrics {
  const LongMin: int := -0x8000_0000_0000_0000
  const LongMax: int := 0x7FFF_FFFF_FFFF_FFFF

  /** A Java `long`. */
  newtype Long = x: int | LongMin <= x <= LongMax

  /** The values held by one `ServiceMetrics` object. */
  datatype Counters = Counters(
    requestCount: nat,
    errorCount: nat,
    totalResponseTime: int,
    minResponseTime: Long,
    maxResponseTime: Long,
    totalBytesTransferred: int)

  /** A new `ServiceMetrics`: the minimum starts at Long.MAX_VALUE and the maximum at 0. */
  const Fresh: Counters := Counters(0, 0, 0, LongMax as Long, 0, 0)

  /** `ServiceMetrics.recordRequest`, with the compare-and-set loops run without interference. */
  function AfterRequest(m: Counters, responseTimeMs: Long, bytesTransferred: Long): (r: Counters)
    ensures r.requestCount == m.requestCount + 1 && r.errorCount == m.errorCount
    ensures r.totalResponseTime == m.totalResponseTime + responseTimeMs as int
    ensures r.totalBytesTransferred == m.totalBytesTransferred + bytesTransferred as int
    ensures r.minResponseTime <= m.minResponseTime && r.minResponseTime <= responseTimeMs
    ensures r.maxResponseTime >= m.maxResponseTime && r.maxResponseTime >= responseTimeMs
    ensures r.minResponseTime == m.minResponseTime || r.minResponseTime == responseTimeMs
    ensures r.maxResponseTime == m.maxResponseTime || r.maxResponseTime == responseTimeMs
  {
    m.(requestCount := m.requestCount + 1,
       totalResponseTime := m.totalResponseTime + responseTimeMs as int,
       totalBytesTransferred := m.totalBytesTransferred + bytesTransferred as int,
       minResponseTime := if responseTimeMs < m.minResponseTime then responseTimeMs else m.minResponseTime,
       maxResponseTime := if responseTimeMs > m.maxResponseTime then responseTimeMs else m.maxResponseTime)
  }

  /** `ServiceMetrics.recordError`: only the error count moves. */
  function AfterError(m: Counters): (r: Counters)
    ensures r.errorCount == m.errorCount + 1
    ensures r.(errorCount := m.errorCount) == m
  {
    m.(errorCount := m.errorCount + 1)
  }

  /** `getMinResponseTime`: the sentinel is reported as 0. */
  function ReportedMin(m: Counters): (r: int)
    ensures r == 0 <==> m.minResponseTime as int == LongMax || m.minResponseTime == 0
    ensures r != 0 ==> r == m.minResponseTime as int
  {
    if m.minResponseTime as int == LongMax then 0 else m.minResponseTime as int
  }

  /** The counters of a fresh `ServiceMetrics` after the given `(responseTimeMs, bytesTransferred)` records, in order. */
  function Replay(calls: seq<(Long, Long)>): Counters {
    if calls == [] then Fresh
    else AfterRequest(Replay(calls[..|calls| - 1]), calls[|calls| - 1].0, calls[|calls| - 1].1)
  }

  /**
   * After a run of records: one request per record, no errors, the minimum is the least time
   * recorded (or the sentinel if none is below it) and the maximum is the greatest of 0 and the
   * times recorded.
   */
  lemma {:induction false} ReplayCounters(calls: seq<(Long, Long)>)
    ensures var r := Replay(calls);
            && r.requestCount == |calls| && r.errorCount == 0
            && (forall i :: 0 <= i < |calls| ==> r.minResponseTime <= calls[i].0 <= r.maxResponseTime)
            && (r.minResponseTime as int == LongMax || exists i :: 0 <= i < |calls| && r.minResponseTime == calls[i].0)
            && r.maxResponseTime >= 0
            && (r.maxResponseTime == 0 || exists i :: 0 <= i < |calls| && r.maxResponseTime == calls[i].0)
  {
    if calls != [] {
      var init := calls[..|calls| - 1];
      ReplayCounters(init);
      var last := |calls| - 1;
      assert forall i :: 0 <= i < last ==> calls[i] == init[i];
      var p := Replay(init);
      var r := Replay(calls);
      if r.minResponseTime != calls[last].0 && r.minResponseTime as int != LongMax {
        var i :| 0 <= i < |init| && p.minResponseTime == init[i].0;
        assert r.minResponseTime == calls[i].0;
      }
      if r.maxResponseTime != calls[last].0 && r.maxResponseTime != 0 {
        var i :| 0 <= i < |init| && p.maxResponseTime == init[i].0;
        assert r.maxResponseTime == calls[i].0;
      }
    }
  }

  /** Once some time below Long.MAX_VALUE is recorded, the reported minimum is the least time recorded. */
  lemma ReportedMinIsLeast(calls: seq<(Long, Long)>, j: int)
    requires 0 <= j < |calls| && calls[j].0 as int < LongMax
    ensures exists i :: 0 <= i < |calls| && ReportedMin(Replay(calls)) == calls[i].0 as int
    ensures forall i :: 0 <= i < |calls| ==> ReportedMin(Replay(calls)) <= calls[i].0 as int
  {
    ReplayCounters(calls);
  }

  /** A single negative time is the reported minimum, but the maximum stays at its starting 0. */
  lemma NegativeTimeKeepsMaxAtZero()
    ensures ReportedMin(Replay([(-100, 1024)])) == -100
    ensures Replay([(-100, 1024)]).maxResponseTime == 0
  {
    assert [(-100 as Long, 1024 as Long)][..0] == [];
  }

  /** Recording only Long.MAX_VALUE leaves the minimum at the sentinel, which is reported as 0. */
  lemma MaxValueReportsMinZero()
    ensures ReportedMin(Replay([(LongMax as Long, 1024)])) == 0
    ensures Replay([(LongMax as Long, 1024)]).maxResponseTime as int == LongMax
  {
    assert [(LongMax as Long, 1024 as Long)][..0] == [];
  }

  // ---------------------------------------------------------------------------
  // Sums over the per-service map
  // ---------------------------------------------------------------------------

  /** The sum of a map's values. */
  ghost function Total(m: map<string, nat>): nat {
    TotalOn(m, m.Keys)
  }

  /** The sum of a map's values over the given keys. */
  ghost function TotalOn(m: map<string, nat>, keys: set<string>): nat
    requires keys <= m.Keys
    decreases keys
  {
    if keys == {} then 0
    else
      var k := SomeKey(keys);
      m[k] + TotalOn(m, keys - {k})
  }

  ghost function SomeKey(keys: set<string>): (k: string)
    requires keys != {}
    ensures k in keys
  {
    var k :| k in keys; k
  }

  /** The sum does not depend on which key is taken first. */
  lemma {:induction false} TotalOnRemove(m: map<string, nat>, keys: set<string>, k: string)
    requires keys <= m.Keys && k in keys
    ensures TotalOn(m, keys) == m[k] + TotalOn(m, keys - {k})
    decreases keys
  {
    var j := SomeKey(keys);
    if j != k {
      TotalOnRemove(m, keys - {j}, k);
      TotalOnRemove(m, keys - {k}, j);
      assert keys - {j} - {k} == keys - {k} - {j};
    }
  }

  /** The sum over some keys sees only the values at those keys. */
  lemma {:induction false} TotalOnSameValues(m: map<string, nat>, n: map<string, nat>, keys: set<string>)
    requires keys <= m.Keys && keys <= n.Keys
    requires forall k :: k in keys ==> m[k] == n[k]
    ensures TotalOn(m, keys) == TotalOn(n, keys)
    decreases keys
  {
    if keys != {} {
      TotalOnSameValues(m, n, keys - {SomeKey(keys)});
    }
  }

  /** Setting one key changes the sum by the difference at that key. */
  lemma TotalUpdate(m: map<string, nat>, k: string, v: nat)
    ensures Total(m[k := v]) == Total(m) - (if k in m then m[k] else 0) + v
  {
    var n := m[k := v];
    var rest := m.Keys - {k};
    TotalOnRemove(n, n.Keys, k);
    assert n.Keys - {k} == rest;
    TotalOnSameValues(m, n, rest);
    if k in m {
      TotalOnRemove(m, m.Keys, k);
    } else {
      assert m.Keys == rest;
    }
  }

  function RequestCounts(view: map<string, Counters>): map<string, nat> {
    map k | k in view :: view[k].requestCount
  }

  function ErrorCounts(view: map<string, Counters>): map<string, nat> {
    map k | k in view :: view[k].errorCount
  }

  /** The entry for `name`, or the counters of a new `ServiceMetrics`. */
  function OrFresh(view: map<string, Counters>, name: string): Counters {
    if name in view then view[name] else Fresh
  }

  /** Updating one service's counters moves each gateway-wide sum by that service's change alone. */
  lemma TotalsAfterUpdate(view: map<string, Counters>, name: string, c: Counters)
    ensures Total(RequestCounts(view[name := c])) ==
              Total(RequestCounts(view)) - OrFresh(view, name).requestCount + c.requestCount
    ensures Total(ErrorCounts(view[name := c])) ==
              Total(ErrorCounts(view)) - OrFresh(view, name).errorCount + c.errorCount
  {
    assert RequestCounts(view[name := c]) == RequestCounts(view)[name := c.requestCount];
    assert ErrorCounts(view[name := c]) == ErrorCounts(view)[name := c.errorCount];
    TotalUpdate(RequestCounts(view), name, c.requestCount);
    TotalUpdate(ErrorCounts(view), name, c.errorCount);
  }

  /** The value of the whole service: the per-service counters and the gateway-wide totals. */
  datatype Registry = Registry(services: map<string, Counters>, totalRequests: nat, totalErrors: nat, startTime: int)

  /** A service created, or reset, at `now`. */
  function Started(now: int): Registry {
    Registry(map[], 0, 0, now)
  }

  /** `recordRequest`: bumps the request total and records on the service's entry, creating it if missing. */
  function WithRequest(r: Registry, name: string, responseTimeMs: Long, bytesTransferred: Long): (r': Registry)
    ensures name in r'.services && r'.services.Keys == r.services.Keys + {name}
    ensures r'.services[name] == AfterRequest(OrFresh(r.services, name), responseTimeMs, bytesTransferred)
    ensures forall k :: k in r.services && k != name ==> r'.services[k] == r.services[k]
    ensures r'.totalRequests == r.totalRequests + 1 && r'.totalErrors == r.totalErrors
  {
    r.(services := r.services[name := AfterRequest(OrFresh(r.services, name), responseTimeMs, bytesTransferred)],
       totalRequests := r.totalRequests + 1)
  }

  /** `recordError`: bumps the error total and the service's error count, creating the entry if missing. */
  function WithError(r: Registry, name: string): (r': Registry)
    ensures name in r'.services && r'.services.Keys == r.services.Keys + {name}
    ensures r'.services[name] == AfterError(OrFresh(r.services, name))
    ensures r'.services[name].requestCount == OrFresh(r.services, name).requestCount
    ensures forall k :: k in r.services && k != name ==> r'.services[k] == r.services[k]
    ensures r'.totalErrors == r.totalErrors + 1 && r'.totalRequests == r.totalRequests
  {
    r.(services := r.services[name := AfterError(OrFresh(r.services, name))],
       totalErrors := r.totalErrors + 1)
  }

  lemma UpdateTwice(view: map<string, Counters>, name: string, a: Counters, b: Counters)
    ensures view[name := a][name := b] == view[name := b]
  {
  }

  /** The gateway-wide totals are the sums of the per-service counts. */
  ghost predicate Summed(r: Registry) {
    r.totalRequests == Total(RequestCounts(r.services)) && r.totalErrors == Total(ErrorCounts(r.services))
  }

  lemma RecordRequestKeepsSums(r: Registry, name: string, responseTimeMs: Long, bytesTransferred: Long)
    requires Summed(r)
    ensures Summed(WithRequest(r, name, responseTimeMs, bytesTransferred))
  {
    TotalsAfterUpdate(r.services, name, AfterRequest(OrFresh(r.services, name), responseTimeMs, bytesTransferred));
  }

  lemma RecordErrorKeepsSums(r: Registry, name: string)
    requires Summed(r)
    ensures Summed(WithError(r, name))
  {
    TotalsAfterUpdate(r.services, name, AfterError(OrFresh(r.services, name)));
  }

  /** The operations that change the service. */
  datatype MetricsCall =
    | Request(name: string, responseTimeMs: Long, bytesTransferred: Long)
    | Error(name: string)
    | Reset(now: int)

  function Apply(r: Registry, c: MetricsCall): Registry {
    match c
    case Request(name, t, b) => WithRequest(r, name, t, b)
    case Error(name) => WithError(r, name)
    case Reset(now) => Started(now)
  }

  function ApplyAll(r: Registry, calls: seq<MetricsCall>): Registry
    decreases |calls|
  {
    if calls == [] then r else ApplyAll(Apply(r, calls[0]), calls[1..])
  }

  /** From creation on, through any records and resets, each total is the sum of the per-service counts. */
  lemma {:induction false} TotalsAreSums(r: Registry, calls: seq<MetricsCall>)
    requires Summed(r)
    ensures Summed(ApplyAll(r, calls))
    decreases |calls|
  {
    if calls != [] {
      match calls[0] {
        case Request(name, t, b) => RecordRequestKeepsSums(r, name, t, b);
        case Error(name) => RecordErrorKeepsSums(r, name);
        case Reset(now) => StartedIsSummed(now);
      }
      TotalsAreSums(Apply(r, calls[0]), calls[1..]);
    }
  }

  lemma StartedIsSummed(now: int)
    ensures Summed(Started(now))
  {
    assert RequestCounts(map[]) == map[] && ErrorCounts(map[]) == map[];
  }

  /** A call about one service leaves every other service's counters as they were. */
  lemma OtherServicesUntouched(r: Registry, c: MetricsCall, other: string)
    requires !c.Reset? && other != c.name && other in r.services
    ensures other in Apply(r, c).services && Apply(r, c).services[other] == r.services[other]
  {
  }

  // ---------------------------------------------------------------------------
  // The objects
  // ---------------------------------------------------------------------------

  /** `PerformanceMetricsService.ServiceMetrics` */
  class ServiceMetrics {
    var requestCount: nat
    var errorCount: nat
    var totalResponseTime: int
    var minResponseTime: Long
    var maxResponseTime: Long
    var totalBytesTransferred: int

    function Value(): Counters
      reads this
    {
      Counters(requestCount, errorCount, totalResponseTime, minResponseTime, maxResponseTime, totalBytesTransferred)
    }

    constructor()
      ensures Value() == Fresh
    {
      requestCount, errorCount, totalResponseTime := 0, 0, 0;
      minResponseTime, maxResponseTime := LongMax as Long, 0;
      totalBytesTransferred := 0;
    }

    method RecordRequest(responseTimeMs: Long, bytesTransferred: Long)
      modifies this
      ensures Value() == AfterRequest(old(Value()), responseTimeMs, bytesTransferred)
    {
      requestCount := requestCount + 1;
      totalResponseTime := totalResponseTime + responseTimeMs as int;
      totalBytesTransferred := totalBytesTransferred + bytesTransferred as int;
      if responseTimeMs < minResponseTime {
        minResponseTime := responseTimeMs;
      }
      if responseTimeMs > maxResponseTime {
        maxResponseTime := responseTimeMs;
      }
    }

    method RecordError()
      modifies this
      ensures Value() == AfterError(old(Value()))
    {
      errorCount := errorCount + 1;
    }

    /** `getMinResponseTime` */
    function GetMinResponseTime(): (r: int)
      reads this
      ensures r == ReportedMin(Value())
    {
      if minResponseTime as int == LongMax then 0 else minResponseTime as int
    }
  }

  /** `PerformanceMetricsService`: the per-service map and the two gateway-wide totals. */
  class PerformanceMetricsService {
    var serviceMetrics: map<string, ServiceMetrics>
    var totalRequests: nat
    var totalErrors: nat
    var startTime: int

    function Objects(): set<ServiceMetrics>
      reads `serviceMetrics
    {
      set name | name in serviceMetrics :: serviceMetrics[name]
    }

    /** Each known service with its counters. */
    function View(): map<string, Counters>
      reads `serviceMetrics, Objects()
    {
      map name | name in serviceMetrics :: serviceMetrics[name].Value()
    }

    function Value(): Registry
      reads this, Objects()
    {
      Registry(View(), totalRequests, totalErrors, startTime)
    }

    /** Distinct names own distinct objects. */
    predicate Valid()
      reads this
    {
      forall a, b :: a in serviceMetrics && b in serviceMetrics && a != b ==> serviceMetrics[a] != serviceMetrics[b]
    }

    constructor(now: int)
      ensures Valid() && Value() == Started(now)
    {
      serviceMetrics := map[];
      totalRequests, totalErrors := 0, 0;
      startTime := now;
    }

    method RecordRequest(name: string, responseTimeMs: Long, bytesTransferred: Long)
      requires Valid()
      modifies this, Objects()
      ensures Valid()
      ensures Value() == WithRequest(old(Value()), name, responseTimeMs, bytesTransferred)
    {
      ghost var r0, v0 := Value(), View();
      ghost var c := AfterRequest(OrFresh(v0, name), responseTimeMs, bytesTransferred);
      totalRequests := totalRequests + 1;
      assert View() == v0;
      var m := ForName(name);
      ghost var v1 := View();
      assert v1 == v0[name := OrFresh(v0, name)] && m.Value() == OrFresh(v0, name);
      RequestOn(name, m, responseTimeMs, bytesTransferred);
      assert View() == v1[name := c];
      assert View() == v0[name := c] by {
        UpdateTwice(v0, name, OrFresh(v0, name), c);
      }
      assert Value() == Registry(v0[name := c], r0.totalRequests + 1, r0.totalErrors, r0.startTime);
    }

    method RecordError(name: string)
      requires Valid()
      modifies this, Objects()
      ensures Valid()
      ensures Value() == WithError(old(Value()), name)
    {
      ghost var r0, v0 := Value(), View();
      ghost var c := AfterError(OrFresh(v0, name));
      totalErrors := totalErrors + 1;
      assert View() == v0;
      var m := ForName(name);
      ghost var v1 := View();
      assert v1 == v0[name := OrFresh(v0, name)] && m.Value() == OrFresh(v0, name);
      ErrorOn(name, m);
      assert View() == v1[name := c];
      assert View() == v0[name := c] by {
        UpdateTwice(v0, name, OrFresh(v0, name), c);
      }
      assert Value() == Registry(v0[name := c], r0.totalRequests, r0.totalErrors + 1, r0.startTime);
    }

    /** `computeIfAbsent(name, k -> new ServiceMetrics())` */
    method ForName(name: string) returns (m: ServiceMetrics)
      modifies this
      ensures name in serviceMetrics && serviceMetrics[name] == m
      ensures m.Value() == OrFresh(old(View()), name)
      ensures View() == old(View())[name := OrFresh(old(View()), name)]
      ensures old(Valid()) ==> Valid()
      ensures fresh(m) || m in old(Objects())
      ensures totalRequests == old(totalRequests) && totalErrors == old(totalErrors) && startTime == old(startTime)
    {
      if name in serviceMetrics {
        m := serviceMetrics[name];
        assert serviceMetrics == old(serviceMetrics)[name := m];
      } else {
        m := new ServiceMetrics();
        serviceMetrics := serviceMetrics[name := m];
      }
    }

    /** The `recordRequest` call on the entry of `name`, which no other name shares. */
    method RequestOn(name: string, m: ServiceMetrics, responseTimeMs: Long, bytesTransferred: Long)
      requires Valid() && name in serviceMetrics && serviceMetrics[name] == m
      modifies m
      ensures View() == old(View())[name := AfterRequest(old(m.Value()), responseTimeMs, bytesTransferred)]
    {
      m.RecordRequest(responseTimeMs, bytesTransferred);
      assert forall k :: k in serviceMetrics && k != name ==> serviceMetrics[k] != m;
    }

    /** The `recordError` call on the entry of `name`, which no other name shares. */
    method ErrorOn(name: string, m: ServiceMetrics)
      requires Valid() && name in serviceMetrics && serviceMetrics[name] == m
      modifies m
      ensures View() == old(View())[name := AfterError(old(m.Value()))]
    {
      m.RecordError();
      assert forall k :: k in serviceMetrics && k != name ==> serviceMetrics[k] != m;
    }

    /** `getServiceMetrics`: an unknown name gets fresh, all-zero counters and is not added. */
    method GetServiceMetrics(name: string) returns (m: ServiceMetrics)
      ensures m.Value() == OrFresh(View(), name)
      ensures name !in View() ==> m.requestCount == 0 && m.errorCount == 0 && ReportedMin(m.Value()) == 0 && m.maxResponseTime == 0
    {
      if name in serviceMetrics {
        m := serviceMetrics[name];
      } else {
        m := new ServiceMetrics();
      }
    }

    /** `resetMetrics`: forgets every service and zeroes the totals; the clock restarts at `now`. */
    method ResetMetrics(now: int)
      modifies this
      ensures Valid() && Value() == Started(now)
    {
      serviceMetrics := map[];
      totalRequests := 0;
      totalErrors := 0;
      startTime := now;
    }
  }
}
