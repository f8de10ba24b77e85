/**
 * CircuitBreakerService: one breaker per service name, each a three-state machine driven by
 * recorded successes and failures and by the question whether a request may be attempted.
 * `System.currentTimeMillis()` is the parameter `now`.
 */
module CircuitBreaker {

  datatype CircuitState = CLOSED | OPEN | HALF_OPEN

  /** The hard-coded thresholds of every breaker. */
  const FailureThreshold: int := 5
  const TimeoutDuration: int := 60000
  const SuccessThreshold: int := 3

  /** The value held by one breaker. */
  datatype Breaker = Breaker(state: CircuitState, failureCount: int, successCount: int, lastFailureTime: int)

  /** A freshly created breaker: CLOSED, no failures, no successes, last failure at time 0. */
  const Initial: Breaker := Breaker(CLOSED, 0, 0, 0)

  /**
   * What the transitions maintain: a CLOSED breaker has fewer failures than the threshold,
   * successes are only counted while HALF_OPEN, and a HALF_OPEN breaker has not yet reached
   * the success threshold. Counters are never negative.
   */
  predicate Inv(b: Breaker) {
    && b.failureCount >= 0
    && (b.state == CLOSED ==> b.failureCount < FailureThreshold)
    && (b.state != HALF_OPEN ==> b.successCount == 0)
    && (b.state == HALF_OPEN ==> 0 <= b.successCount < SuccessThreshold)
  }

  /** `recordSuccess` on one breaker. */
  function AfterSuccess(b: Breaker): (r: Breaker)
    ensures Inv(b) ==> Inv(r)
    ensures r.lastFailureTime == b.lastFailureTime
  {
    if b.state == HALF_OPEN then
      var success := b.successCount + 1;
      if success >= SuccessThreshold then b.(state := CLOSED, failureCount := 0, successCount := 0)
      else b.(successCount := success)
    else if b.state == CLOSED then b.(failureCount := 0)
    else b
  }

  /** `recordFailure` on one breaker, at time `now`. */
  function AfterFailure(b: Breaker, now: int): (r: Breaker)
    ensures Inv(b) ==> Inv(r)
    ensures r.failureCount == b.failureCount + 1 && r.lastFailureTime == now
    ensures r.successCount == b.successCount
  {
    var failures := b.failureCount + 1;
    var b' := b.(failureCount := failures, lastFailureTime := now);
    if b.state == CLOSED && failures >= FailureThreshold then b'.(state := OPEN) else b'
  }

  /** `shouldAttemptRequest` on one breaker, at time `now`: the answer and the new value. */
  function AfterAttempt(b: Breaker, now: int): (r: (bool, Breaker))
    ensures Inv(b) ==> Inv(r.1)
    ensures r.0 <==> b.state != OPEN || now - b.lastFailureTime >= TimeoutDuration
    ensures r.1.failureCount == b.failureCount && r.1.lastFailureTime == b.lastFailureTime
  {
    if b.state == CLOSED then (true, b)
    else if b.state == OPEN then
      if now - b.lastFailureTime >= TimeoutDuration then (true, b.(state := HALF_OPEN, successCount := 0))
      else (false, b)
    else (true, b)
  }

  // ---------------------------------------------------------------------------
  // Sequences of calls on one breaker
  // ---------------------------------------------------------------------------

  datatype Call = Success | Failure(at: int) | Attempt(at: int)

  function Step(b: Breaker, c: Call): Breaker {
    match c
    case Success => AfterSuccess(b)
    case Failure(now) => AfterFailure(b, now)
    case Attempt(now) => AfterAttempt(b, now).1
  }

  /** The breaker after the calls, applied first to last. */
  function Run(b: Breaker, calls: seq<Call>): Breaker
    decreases |calls|
  {
    if calls == [] then b else Run(Step(b, calls[0]), calls[1..])
  }

  /** Every sequence of calls, from any breaker satisfying Inv, keeps Inv. */
  lemma {:induction false} RunKeepsInv(b: Breaker, calls: seq<Call>)
    requires Inv(b)
    ensures Inv(Run(b, calls))
    decreases |calls|
  {
    if calls != [] {
      RunKeepsInv(Step(b, calls[0]), calls[1..]);
    }
  }

  /** Every breaker that can ever be observed satisfies Inv. */
  lemma ReachableKeepsInv(calls: seq<Call>)
    ensures Inv(Run(Initial, calls))
  {
    RunKeepsInv(Initial, calls);
  }

  predicate IsAttempt(c: Call) {
    c.Attempt?
  }

  /** Only `shouldAttemptRequest` can take a breaker out of OPEN: successes and failures never do. */
  lemma {:induction false} OpenStaysOpenWithoutAttempts(b: Breaker, calls: seq<Call>)
    requires b.state == OPEN
    requires forall i :: 0 <= i < |calls| ==> !IsAttempt(calls[i])
    ensures Run(b, calls).state == OPEN
    decreases |calls|
  {
    if calls != [] {
      assert !IsAttempt(calls[0]);
      OpenStaysOpenWithoutAttempts(Step(b, calls[0]), calls[1..]);
    }
  }

  /** `n` failures in a row, at the given times. */
  function Failures(times: seq<int>): (calls: seq<Call>)
    ensures |calls| == |times|
    ensures forall i :: 0 <= i < |times| ==> calls[i] == Failure(times[i])
  {
    seq(|times|, i requires 0 <= i < |times| => Failure(times[i]))
  }

  /**
   * Consecutive failures on a CLOSED breaker add up; it opens exactly when the count reaches
   * the threshold, and the last failure time is the time of the last one.
   */
  lemma {:induction false} FailuresFromClosed(b: Breaker, times: seq<int>)
    requires Inv(b) && b.state == CLOSED && times != []
    ensures Run(b, Failures(times)).failureCount == b.failureCount + |times|
    ensures Run(b, Failures(times)).state == if b.failureCount + |times| >= FailureThreshold then OPEN else CLOSED
    ensures Run(b, Failures(times)).lastFailureTime == times[|times| - 1]
    decreases |times|
  {
    var b1 := AfterFailure(b, times[0]);
    assert Failures(times)[1..] == Failures(times[1..]);
    if |times| > 1 {
      if b1.state == CLOSED {
        FailuresFromClosed(b1, times[1..]);
      } else {
        FailuresKeepState(b1, times[1..]);
      }
    }
  }

  /** Failures on an OPEN or HALF_OPEN breaker count, and move the last failure time, but never change the state. */
  lemma {:induction false} FailuresKeepState(b: Breaker, times: seq<int>)
    requires b.state != CLOSED && times != []
    ensures Run(b, Failures(times)).state == b.state
    ensures Run(b, Failures(times)).failureCount == b.failureCount + |times|
    ensures Run(b, Failures(times)).successCount == b.successCount
    ensures Run(b, Failures(times)).lastFailureTime == times[|times| - 1]
    decreases |times|
  {
    assert Failures(times)[1..] == Failures(times[1..]);
    if |times| > 1 {
      FailuresKeepState(AfterFailure(b, times[0]), times[1..]);
    }
  }

  /** `n` successes in a row. */
  function Successes(n: nat): (calls: seq<Call>)
    ensures |calls| == n
    ensures forall i :: 0 <= i < n ==> calls[i] == Success
  {
    seq(n, i => Success)
  }

  /**
   * A HALF_OPEN breaker closes, with both counters reset, exactly on the success that brings
   * its count to the threshold; before that it stays HALF_OPEN counting successes.
   */
  lemma {:induction false} SuccessesFromHalfOpen(b: Breaker, n: nat)
    requires Inv(b) && b.state == HALF_OPEN
    ensures b.successCount + n < SuccessThreshold ==>
              Run(b, Successes(n)) == b.(successCount := b.successCount + n)
    ensures b.successCount + n >= SuccessThreshold ==>
              Run(b, Successes(n)).state == CLOSED && Run(b, Successes(n)).failureCount == 0
              && Run(b, Successes(n)).successCount == 0
    decreases n
  {
    if n > 0 {
      var b1 := AfterSuccess(b);
      assert Successes(n)[1..] == Successes(n - 1);
      if b1.state == HALF_OPEN {
        SuccessesFromHalfOpen(b1, n - 1);
      } else {
        SuccessesFromClosed(b1, n - 1);
      }
    }
  }

  /** Successes on a CLOSED breaker leave it CLOSED with no failures counted. */
  lemma {:induction false} SuccessesFromClosed(b: Breaker, n: nat)
    requires Inv(b) && b.state == CLOSED
    ensures Run(b, Successes(n)).state == CLOSED && Run(b, Successes(n)).successCount == 0
    ensures n > 0 ==> Run(b, Successes(n)).failureCount == 0
    ensures n == 0 ==> Run(b, Successes(n)) == b
    decreases n
  {
    if n > 0 {
      assert Successes(n)[1..] == Successes(n - 1);
      SuccessesFromClosed(AfterSuccess(b), n - 1);
    }
  }

  /** Successes while OPEN are ignored entirely. */
  lemma {:induction false} SuccessesIgnoredWhenOpen(b: Breaker, n: nat)
    requires b.state == OPEN
    ensures Run(b, Successes(n)) == b
    decreases n
  {
    if n > 0 {
      assert Successes(n)[1..] == Successes(n - 1);
      SuccessesIgnoredWhenOpen(b, n - 1);
    }
  }

  /**
   * The full cycle: five failures open a fresh breaker, requests are refused until the
   * timeout has passed since the last failure, the first request after it is let through
   * (HALF_OPEN), and three successes close the breaker again.
   */
  lemma FullCycle(t: int, now: int)
    ensures var tripped := Run(Initial, Failures([t, t, t, t, t]));
            tripped.state == OPEN
            && (now - t < TimeoutDuration ==> AfterAttempt(tripped, now) == (false, tripped))
            && (now - t >= TimeoutDuration ==>
                  var (ok, half) := AfterAttempt(tripped, now);
                  ok && half.state == HALF_OPEN && half.successCount == 0
                  && Run(half, Successes(3)).state == CLOSED)
  {
    FailuresFromClosed(Initial, [t, t, t, t, t]);
    var tripped := Run(Initial, Failures([t, t, t, t, t]));
    RunKeepsInv(Initial, Failures([t, t, t, t, t]));
    if now - t >= TimeoutDuration {
      var half := AfterAttempt(tripped, now).1;
      SuccessesFromHalfOpen(half, 3);
    }
  }

  // ---------------------------------------------------------------------------
  // The mutable objects
  // ---------------------------------------------------------------------------

  /** `CircuitBreakerState`: one breaker whose fields the operations update in place. */
  class CircuitBreakerState {
    var state: CircuitState
    var failureCount: int
    var successCount: int
    var lastFailureTime: int

    /** The breaker's current value. */
    function Value(): Breaker
      reads this
    {
      Breaker(state, failureCount, successCount, lastFailureTime)
    }

    predicate Valid()
      reads this
    {
      Inv(Value())
    }

    constructor()
      ensures Value() == Initial && Valid()
    {
      state := CLOSED;
      failureCount := 0;
      successCount := 0;
      lastFailureTime := 0;
    }

    function GetState(): (s: CircuitState)
      reads this
      ensures s == Value().state
    {
      state
    }

    method RecordSuccess()
      modifies this
      ensures Value() == AfterSuccess(old(Value()))
      ensures old(Valid()) ==> Valid()
    {
      if state == HALF_OPEN {
        successCount := successCount + 1;
        var success := successCount;
        if success >= SuccessThreshold {
          state := CLOSED;
          failureCount := 0;
          successCount := 0;
        }
      } else if state == CLOSED {
        failureCount := 0;
      }
    }

    method RecordFailure(now: int)
      modifies this
      ensures Value() == AfterFailure(old(Value()), now)
      ensures old(Valid()) ==> Valid()
    {
      failureCount := failureCount + 1;
      var failures := failureCount;
      lastFailureTime := now;
      if state == CLOSED && failures >= FailureThreshold {
        state := OPEN;
      }
    }

    method ShouldAttemptRequest(now: int) returns (attempt: bool)
      modifies this
      ensures (attempt, Value()) == AfterAttempt(old(Value()), now)
      ensures old(Valid()) ==> Valid()
    {
      if state == CLOSED {
        return true;
      }
      if state == OPEN {
        var timeSinceLastFailure := now - lastFailureTime;
        if timeSinceLastFailure >= TimeoutDuration {
          state := HALF_OPEN;
          successCount := 0;
          return true;
        }
        return false;
      }
      return true;
    }
  }

  /** The breaker a registry would use for a name: its own, or a fresh one. */
  function BreakerOrInitial(m: map<string, Breaker>, name: string): Breaker {
    if name in m then m[name] else Initial
  }

  /** Distinct names own distinct breakers. */
  predicate Injective(m: map<string, CircuitBreakerState>) {
    forall a, b :: a in m && b in m && a != b ==> m[a] != m[b]
  }

  /** Registering a breaker no other name owns keeps the names' breakers distinct. */
  lemma InjectiveAdd(m: map<string, CircuitBreakerState>, name: string, cb: CircuitBreakerState)
    requires Injective(m) && name !in m && cb !in m.Values
    ensures Injective(m[name := cb])
  {
    var m' := m[name := cb];
    forall a, b | a in m' && b in m' && a != b
      ensures m'[a] != m'[b]
    {
      if a == name {
        assert m[b] in m.Values;
      } else if b == name {
        assert m[a] in m.Values;
      }
    }
  }

  /** `CircuitBreakerService`: the registry from service name to breaker. */
  class CircuitBreakerService {
    var circuitBreakers: map<string, CircuitBreakerState>

    /** The breaker objects held by the registry. */
    function Breakers(): set<CircuitBreakerState>
      reads this
    {
      circuitBreakers.Values
    }

    /** Distinct names own distinct breakers, and every breaker keeps Inv. */
    predicate Valid()
      reads this, Breakers()
    {
      && Injective(circuitBreakers)
      && (forall name :: name in circuitBreakers ==> circuitBreakers[name].Valid())
    }

    /** The registry's value: each known name with its breaker's value. */
    function View(): map<string, Breaker>
      reads this, Breakers()
    {
      map name | name in circuitBreakers :: circuitBreakers[name].Value()
    }

    constructor()
      ensures Valid() && View() == map[]
    {
      circuitBreakers := map[];
    }

    /**
     * `isRequestAllowed`: creates a CLOSED breaker for an unseen name, then asks it. Only the
     * entry for `name` changes.
     */
    method IsRequestAllowed(name: string, now: int) returns (allowed: bool)
      requires Valid()
      modifies this, Breakers()
      ensures Valid() && name in View()
      ensures (allowed, View()[name]) == AfterAttempt(BreakerOrInitial(old(View()), name), now)
      ensures View() == old(View())[name := AfterAttempt(BreakerOrInitial(old(View()), name), now).1]
    {
      Register(name);
      allowed := Attempt(name, now);
    }

    /** `computeIfAbsent(name, k -> new CircuitBreakerState())`: a CLOSED breaker for an unseen name. */
    method Register(name: string)
      requires Valid()
      modifies this
      ensures Valid() && name in View()
      ensures View() == old(View())[name := BreakerOrInitial(old(View()), name)]
      ensures forall b :: b in Breakers() ==> b in old(Breakers()) || fresh(b)
    {
      if name !in circuitBreakers {
        var cb := new CircuitBreakerState();
        ghost var known := circuitBreakers;
        circuitBreakers := circuitBreakers[name := cb];
        InjectiveAdd(known, name, cb);
        assert forall k :: k in known ==> circuitBreakers[k] == known[k] && circuitBreakers[k].Value() == old(known[k].Value());
        assert View() == old(View())[name := Initial];
      }
    }

    /** `shouldAttemptRequest` on the breaker registered under `name`. */
    method Attempt(name: string, now: int) returns (allowed: bool)
      requires Valid() && name in View()
      modifies Breakers()
      ensures Valid()
      ensures (allowed, View()[name]) == AfterAttempt(old(View())[name], now)
      ensures View() == old(View())[name := AfterAttempt(old(View())[name], now).1]
    {
      var cb := circuitBreakers[name];
      allowed := cb.ShouldAttemptRequest(now);
      assert forall k :: k in circuitBreakers && k != name ==>
        circuitBreakers[k].Value() == old(circuitBreakers[k].Value());
    }

    /** `recordSuccess`: a no-op for an unknown name, otherwise that breaker's transition. */
    method RecordSuccess(name: string)
      requires Valid()
      modifies Breakers()
      ensures Valid()
      ensures View() == if name in old(View()) then old(View())[name := AfterSuccess(old(View())[name])] else old(View())
    {
      if name in circuitBreakers {
        var cb := circuitBreakers[name];
        cb.RecordSuccess();
        assert forall k :: k in circuitBreakers && k != name ==>
          circuitBreakers[k].Value() == old(circuitBreakers[k].Value());
      }
    }

    /** `recordFailure`: a no-op for an unknown name, otherwise that breaker's transition. */
    method RecordFailure(name: string, now: int)
      requires Valid()
      modifies Breakers()
      ensures Valid()
      ensures View() == if name in old(View()) then old(View())[name := AfterFailure(old(View())[name], now)] else old(View())
    {
      if name in circuitBreakers {
        var cb := circuitBreakers[name];
        cb.RecordFailure(now);
        assert forall k :: k in circuitBreakers && k != name ==>
          circuitBreakers[k].Value() == old(circuitBreakers[k].Value());
      }
    }

    /** `getCircuitState`: CLOSED for an unknown name, which is not added. */
    method GetCircuitState(name: string) returns (s: CircuitState)
      requires Valid()
      ensures s == BreakerOrInitial(View(), name).state
    {
      if name in circuitBreakers {
        s := circuitBreakers[name].GetState();
      } else {
        s := CLOSED;
      }
    }
  }
}
