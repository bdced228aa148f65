/**
 * A circuit breaker: Closed lets every call through and counts outcomes;
 * Open rejects calls until its timeout has elapsed; HalfOpen admits a
 * limited number of probes, closing on a success and reopening on a
 * failure. Time is an integer count of nanoseconds passed in by the caller.
 */
module CircuitBreaker {
  import opened Common

  type uint32 = x: int | 0 <= x < 0x1_0000_0000

  const Second: int := 1_000_000_000
  const Minute: int := 60 * Second

  datatype State = Closed | Open | HalfOpen

  datatype Metrics = Metrics(
    requests: int,
    successes: int,
    failures: int,
    consecutiveFailures: int,
    lastFailureTime: int)

  const ZeroMetrics := Metrics(0, 0, 0, 0, 0)

  /** The configuration as the caller gives it: zero durations and an absent trip rule mean "use the default". */
  datatype Config = Config(
    maxRequests: uint32,
    interval: int,
    timeout: int,
    operationTimeout: int,
    readyToTrip: Option<Metrics -> bool>,
    notifies: bool)

  /** The configuration in force after NewCircuitBreaker filled in the defaults. */
  datatype Settings = Settings(
    maxRequests: uint32,
    interval: int,
    timeout: int,
    operationTimeout: int,
    readyToTrip: Metrics -> bool,
    notifies: bool)

  /**
   * The default trip rule: at least 20 requests and a failure ratio of at
   * least one half (the ratio test written 2 * failures >= requests).
   */
  predicate DefaultReadyToTrip(m: Metrics)
  {
    m.requests >= 20 && 2 * m.failures >= m.requests
  }

  function WithDefaults(c: Config): (s: Settings)
    ensures s.maxRequests >= 1 && s.interval != 0 && s.timeout != 0 && s.operationTimeout != 0
  {
    Settings(
      if c.maxRequests == 0 then 1 else c.maxRequests,
      if c.interval == 0 then Minute else c.interval,
      if c.timeout == 0 then 30 * Second else c.timeout,
      if c.operationTimeout == 0 then Second else c.operationTimeout,
      match c.readyToTrip case Some(f) => f case None => DefaultReadyToTrip,
      c.notifies)
  }

  /** The zero configuration gets MaxRequests 1, Interval 1 min, Timeout 30 s, OperationTimeout 1 s and the default rule. */
  lemma ZeroConfigDefaults(notifies: bool)
    ensures var s := WithDefaults(Config(0, 0, 0, 0, None, notifies));
      s.maxRequests == 1 && s.interval == Minute && s.timeout == 30 * Second && s.operationTimeout == Second &&
      forall m :: s.readyToTrip(m) <==> m.requests >= 20 && 2 * m.failures >= m.requests
  {
  }

  /** Values given explicitly are kept. */
  lemma ExplicitConfigKept(c: Config)
    requires c.maxRequests != 0 && c.interval != 0 && c.timeout != 0 && c.operationTimeout != 0 && c.readyToTrip.Some?
    ensures var s := WithDefaults(c);
      s.maxRequests == c.maxRequests && s.interval == c.interval && s.timeout == c.timeout &&
      s.operationTimeout == c.operationTimeout && s.readyToTrip == c.readyToTrip.value
  {
  }

  /** The breaker's mutable fields. */
  datatype Snapshot = Snapshot(
    state: State,
    metrics: Metrics,
    lastStateChange: int,
    halfOpenRequests: uint32,
    halfOpenSuccess: uint32,
    windowStart: int)

  /** The callback setState hands back: nothing to do, or OnStateChange(from, to). */
  datatype Notice = Silent | Notify(from: State, to: State)

  datatype BreakerError = ErrCircuitBreakerOpen | ErrTooManyRequests

  /** The counters agree with each other, and HalfOpen never admits more than MaxRequests probes. */
  predicate Valid(c: Settings, s: Snapshot)
  {
    s.metrics.requests == s.metrics.successes + s.metrics.failures
    && 0 <= s.metrics.consecutiveFailures <= s.metrics.failures
    && 0 <= s.metrics.successes
    && (s.state == HalfOpen ==> s.halfOpenRequests <= c.maxRequests)
  }

  function Initial(now: int): (s: Snapshot)
  {
    Snapshot(Closed, ZeroMetrics, now, 0, 0, now)
  }

  /** resetMetrics */
  function AfterReset(s: Snapshot, now: int): Snapshot
  {
    s.(metrics := ZeroMetrics, halfOpenRequests := 0, halfOpenSuccess := 0, windowStart := now)
  }

  /** setState */
  function AfterSetState(c: Settings, s: Snapshot, newState: State, now: int): (Snapshot, Notice)
  {
    if s.state == newState then (s, Silent)
    else
      var moved := s.(state := newState, lastStateChange := now);
      var closed := if newState == Closed then AfterReset(moved, now) else moved;
      var probing := if newState == HalfOpen then closed.(halfOpenRequests := 0, halfOpenSuccess := 0) else closed;
      (probing, if c.notifies then Notify(s.state, newState) else Silent)
  }

  /** isReady: strictly more than Timeout since the last state change. */
  predicate IsReady(c: Settings, s: Snapshot, now: int)
  {
    now - s.lastStateChange > c.timeout
  }

  /** shouldTrip */
  predicate ShouldTrip(c: Settings, s: Snapshot)
  {
    c.readyToTrip(s.metrics)
  }

  /** canExecute */
  function AfterCanExecute(c: Settings, s: Snapshot, now: int): (Snapshot, Notice, Option<BreakerError>)
  {
    match s.state
    case HalfOpen =>
      if s.halfOpenRequests >= c.maxRequests then (s, Silent, Some(ErrTooManyRequests))
      else (s.(halfOpenRequests := s.halfOpenRequests + 1), Silent, None)
    case Open =>
      if IsReady(c, s, now) then
        var (after, notice) := AfterSetState(c, s, HalfOpen, now);
        (after, notice, None)
      else (s, Silent, Some(ErrCircuitBreakerOpen))
    case Closed => (s, Silent, None)
  }

  /** checkWindow: a Closed breaker starts a fresh window once more than Interval has passed. */
  function AfterCheckWindow(c: Settings, s: Snapshot, now: int): Snapshot
  {
    if s.state == Closed && now - s.windowStart > c.interval then AfterReset(s, now) else s
  }

  /** recordSuccess */
  function AfterSuccess(c: Settings, s: Snapshot, now: int): (Snapshot, Notice)
  {
    var w := AfterCheckWindow(c, s, now);
    var m := w.metrics.(requests := w.metrics.requests + 1, successes := w.metrics.successes + 1, consecutiveFailures := 0);
    var counted := w.(metrics := m);
    if counted.state == HalfOpen then
      AfterSetState(c, counted.(halfOpenSuccess := if counted.halfOpenSuccess < 0xFFFF_FFFF then counted.halfOpenSuccess + 1 else 0), Closed, now)
    else (counted, Silent)
  }

  /** recordFailure */
  function AfterFailure(c: Settings, s: Snapshot, now: int): (Snapshot, Notice)
  {
    var w := AfterCheckWindow(c, s, now);
    var m := w.metrics.(requests := w.metrics.requests + 1, failures := w.metrics.failures + 1,
                        consecutiveFailures := w.metrics.consecutiveFailures + 1, lastFailureTime := now);
    var counted := w.(metrics := m);
    if counted.state == HalfOpen then AfterSetState(c, counted.(halfOpenSuccess := 0), Open, now)
    else if ShouldTrip(c, counted) then AfterSetState(c, counted, Open, now)
    else (counted, Silent)
  }

  // ---------------------------------------------------------------------
  // Properties of the transitions
  // ---------------------------------------------------------------------

  /** Setting the current state changes nothing and notifies nobody. */
  lemma SetSameStateIsNoOp(c: Settings, s: Snapshot, now: int)
    ensures AfterSetState(c, s, s.state, now) == (s, Silent)
  {
  }

  /** A real change stamps the time and notifies (from, to) exactly when a callback is configured. */
  lemma SetStateNotifiesOnChange(c: Settings, s: Snapshot, t: State, now: int)
    requires s.state != t
    ensures var (after, notice) := AfterSetState(c, s, t, now);
      after.state == t && after.lastStateChange == now &&
      (notice == if c.notifies then Notify(s.state, t) else Silent) &&
      (t == Closed ==> after.metrics == ZeroMetrics && after.halfOpenRequests == 0 && after.windowStart == now) &&
      (t != Closed ==> after.metrics == s.metrics)
  {
  }

  /** In Closed every call is permitted and nothing changes. */
  lemma ClosedAlwaysPermits(c: Settings, s: Snapshot, now: int)
    requires s.state == Closed
    ensures AfterCanExecute(c, s, now) == (s, Silent, None)
  {
  }

  /** In HalfOpen a probe is admitted, and counted, exactly while fewer than MaxRequests are out. */
  lemma HalfOpenAdmitsUpToMax(c: Settings, s: Snapshot, now: int)
    requires s.state == HalfOpen
    ensures var (after, _, err) := AfterCanExecute(c, s, now);
      (err.None? <==> s.halfOpenRequests < c.maxRequests) &&
      (err.None? ==> after == s.(halfOpenRequests := s.halfOpenRequests + 1)) &&
      (err.Some? ==> after == s && err == Some(ErrTooManyRequests))
  {
  }

  /**
   * In Open a call is permitted exactly when more than Timeout has passed;
   * the breaker is then HalfOpen with both probe counters at zero, and the
   * permitted call is not counted as a probe.
   */
  lemma OpenWaitsForTimeout(c: Settings, s: Snapshot, now: int)
    requires s.state == Open
    ensures var (after, _, err) := AfterCanExecute(c, s, now);
      (err.None? <==> now - s.lastStateChange > c.timeout) &&
      (err.None? ==> after.state == HalfOpen && after.halfOpenRequests == 0 && after.halfOpenSuccess == 0 && after.metrics == s.metrics) &&
      (err.Some? ==> after == s && err == Some(ErrCircuitBreakerOpen))
  {
  }

  /** A success is counted and clears the failure streak; in HalfOpen it closes the breaker and zeroes the metrics. */
  lemma SuccessCounts(c: Settings, s: Snapshot, now: int)
    ensures var w := AfterCheckWindow(c, s, now);
      var (after, _) := AfterSuccess(c, s, now);
      if s.state == HalfOpen then after.state == Closed && after.metrics == ZeroMetrics
      else after.state == s.state &&
           after.metrics == w.metrics.(requests := w.metrics.requests + 1, successes := w.metrics.successes + 1, consecutiveFailures := 0)
  {
  }

  /**
   * A failure is counted and extends the streak, without resetting the
   * metrics; from HalfOpen the breaker reopens, otherwise it opens exactly
   * when the trip rule holds for the new metrics.
   */
  lemma FailureCountsAndTrips(c: Settings, s: Snapshot, now: int)
    ensures var w := AfterCheckWindow(c, s, now);
      var m := w.metrics.(requests := w.metrics.requests + 1, failures := w.metrics.failures + 1,
                          consecutiveFailures := w.metrics.consecutiveFailures + 1, lastFailureTime := now);
      var (after, _) := AfterFailure(c, s, now);
      after.metrics == m &&
      (s.state == HalfOpen ==> after.state == Open) &&
      (s.state == Closed ==> (after.state == Open <==> c.readyToTrip(m)))
  {
  }

  /**
   * The window resets the metrics of a Closed breaker only, and only after
   * more than Interval; a Closed breaker past Interval does reset, and its
   * window restarts at now.
   */
  lemma WindowResetsOnlyClosed(c: Settings, s: Snapshot, now: int)
    ensures var after := AfterCheckWindow(c, s, now);
      after.state == s.state &&
      (after != s ==> s.state == Closed && now - s.windowStart > c.interval && after.metrics == ZeroMetrics) &&
      (s.state == Closed && now - s.windowStart > c.interval ==> after.metrics == ZeroMetrics && after.windowStart == now)
  {
  }

  /** Every transition keeps the counters consistent. */
  lemma TransitionsKeepValid(c: Settings, s: Snapshot, t: State, now: int)
    requires Valid(c, s)
    ensures Valid(c, AfterSetState(c, s, t, now).0)
    ensures Valid(c, AfterCanExecute(c, s, now).0)
    ensures Valid(c, AfterCheckWindow(c, s, now))
    ensures Valid(c, AfterSuccess(c, s, now).0)
    ensures Valid(c, AfterFailure(c, s, now).0)
  {
  }

  /** What Call reports: an expired context, a rejection, or the operation's own outcome. */
  datatype CallResult = ContextDone | Rejected(err: BreakerError) | Succeeded | Failed

  function AfterCall(c: Settings, s: Snapshot, contextDone: bool, now: int, succeeded: bool, later: int): (Snapshot, CallResult, seq<Notice>)
  {
    if contextDone then (s, ContextDone, [])
    else
      var (admitted, n1, err) := AfterCanExecute(c, s, now);
      if err.Some? then (admitted, Rejected(err.value), [])
      else if succeeded then
        var (after, n2) := AfterSuccess(c, admitted, later);
        (after, Succeeded, [n1, n2])
      else
        var (after, n2) := AfterFailure(c, admitted, later);
        (after, Failed, [n1, n2])
  }

  /** A call never breaks the counters, and a rejected call changes nothing. */
  lemma CallKeepsValid(c: Settings, s: Snapshot, contextDone: bool, now: int, succeeded: bool, later: int)
    requires Valid(c, s)
    ensures var (after, result, _) := AfterCall(c, s, contextDone, now, succeeded, later);
      Valid(c, after) && (result.Rejected? || result.ContextDone? ==> after == s)
  {
    TransitionsKeepValid(c, s, HalfOpen, now);
    var (admitted, _, _) := AfterCanExecute(c, s, now);
    TransitionsKeepValid(c, admitted, HalfOpen, later);
  }

  // ---------------------------------------------------------------------
  // The breaker object
  // ---------------------------------------------------------------------

  class Breaker {
    const config: Settings
    var state: State
    var metrics: Metrics
    var lastStateChange: int
    var halfOpenRequests: uint32
    var halfOpenSuccess: uint32
    var windowStart: int

    function Snap(): Snapshot
      reads this
    {
      Snapshot(state, metrics, lastStateChange, halfOpenRequests, halfOpenSuccess, windowStart)
    }

    /** NewCircuitBreaker */
    constructor (c: Config, now: int)
      ensures config == WithDefaults(c) && Snap() == Initial(now) && Valid(config, Snap())
    {
      config := WithDefaults(c);
      state, metrics, lastStateChange := Closed, ZeroMetrics, now;
      halfOpenRequests, halfOpenSuccess, windowStart := 0, 0, now;
    }

    method ResetMetrics(now: int)
      modifies this
      ensures Snap() == AfterReset(old(Snap()), now)
    {
      metrics := ZeroMetrics;
      halfOpenRequests := 0;
      halfOpenSuccess := 0;
      windowStart := now;
    }

    method SetState(newState: State, now: int) returns (notice: Notice)
      modifies this
      ensures (Snap(), notice) == AfterSetState(config, old(Snap()), newState, now)
    {
      notice := Silent;
      if state != newState {
        var oldState := state;
        state := newState;
        lastStateChange := now;
        if newState == Closed {
          ResetMetrics(now);
        }
        if newState == HalfOpen {
          halfOpenRequests := 0;
          halfOpenSuccess := 0;
        }
        if config.notifies {
          notice := Notify(oldState, newState);
        }
      }
    }

    method CanExecute(now: int) returns (notice: Notice, err: Option<BreakerError>)
      modifies this
      ensures (Snap(), notice, err) == AfterCanExecute(config, old(Snap()), now)
    {
      match state {
        case HalfOpen =>
          if halfOpenRequests >= config.maxRequests {
            return Silent, Some(ErrTooManyRequests);
          }
          halfOpenRequests := halfOpenRequests + 1;
          return Silent, None;
        case Open =>
          if IsReady(config, Snap(), now) {
            notice := SetState(HalfOpen, now);
            return notice, None;
          }
          return Silent, Some(ErrCircuitBreakerOpen);
        case Closed =>
          return Silent, None;
      }
    }

    method CheckWindow(now: int)
      modifies this
      ensures Snap() == AfterCheckWindow(config, old(Snap()), now)
    {
      if state == Closed && now - windowStart > config.interval {
        ResetMetrics(now);
      }
    }

    method RecordSuccess(now: int) returns (notice: Notice)
      modifies this
      ensures (Snap(), notice) == AfterSuccess(config, old(Snap()), now)
    {
      CheckWindow(now);
      metrics := metrics.(requests := metrics.requests + 1, successes := metrics.successes + 1, consecutiveFailures := 0);
      if state == HalfOpen {
        halfOpenSuccess := if halfOpenSuccess < 0xFFFF_FFFF then halfOpenSuccess + 1 else 0;
        notice := SetState(Closed, now);
        return;
      }
      return Silent;
    }

    method RecordFailure(now: int) returns (notice: Notice)
      modifies this
      ensures (Snap(), notice) == AfterFailure(config, old(Snap()), now)
    {
      CheckWindow(now);
      metrics := metrics.(requests := metrics.requests + 1, failures := metrics.failures + 1,
                          consecutiveFailures := metrics.consecutiveFailures + 1, lastFailureTime := now);
      if state == HalfOpen {
        halfOpenSuccess := 0;
        notice := SetState(Open, now);
        return;
      }
      if ShouldTrip(config, Snap()) {
        notice := SetState(Open, now);
        return;
      }
      return Silent;
    }

    /**
     * Call, without the operation timeout and the mutex: permission is
     * asked at `now`, the operation's outcome is `succeeded`, and it is
     * recorded at `later`. The notices are the callbacks run, in order.
     */
    method Call(contextDone: bool, now: int, succeeded: bool, later: int) returns (result: CallResult, notices: seq<Notice>)
      modifies this
      ensures (Snap(), result, notices) == AfterCall(config, old(Snap()), contextDone, now, succeeded, later)
    {
      if contextDone {
        return ContextDone, [];
      }
      var n1, err := CanExecute(now);
      if err.Some? {
        return Rejected(err.value), [];
      }
      if succeeded {
        var n2 := RecordSuccess(later);
        return Succeeded, [n1, n2];
      }
      var n2 := RecordFailure(later);
      return Failed, [n1, n2];
    }
  }
}
