/** The circuit breaker and the rate limiter of `src/mcp.rs`. Instants are nanoseconds on a monotone clock. */
module McpPrimitives {
  import opened Wrappers

  const NANOS_PER_SEC: nat := 1_000_000_000
  const WINDOW: nat := 60 * NANOS_PER_SEC
  const U32_MAX: nat := 0xFFFF_FFFF

  function SaturatingInc(n: nat): nat {
    if n >= U32_MAX then n else n + 1
  }

  function Max(a: nat, b: nat): nat {
    if a < b then b else a
  }

  // ----- circuit breaker: one value per locked state, one function per lock region -----

  datatype Breaker = Breaker(threshold: nat, cooldown: nat, failures: nat, openUntil: Option<nat>)

  function NewBreaker(threshold: nat, cooldownSecs: nat): Breaker {
    Breaker(threshold, Max(cooldownSecs, 1) * NANOS_PER_SEC, 0, None)
  }

  /** The new state, whether the call may go on, and the seconds to wait when it may not. */
  function CheckReady(b: Breaker, now: nat): (Breaker, Result<(), nat>) {
    if b.threshold == 0 || b.openUntil.None? then (b, Ok(()))
    else if now < b.openUntil.value then (b, Err(Max((b.openUntil.value - now) / NANOS_PER_SEC, 1)))
    else (b.(openUntil := None, failures := 0), Ok(()))
  }

  function RecordSuccess(b: Breaker): Breaker {
    b.(failures := 0, openUntil := None)
  }

  /** The new state and whether this failure opened the circuit. */
  function RecordFailure(b: Breaker, now: nat): (Breaker, bool) {
    if b.threshold == 0 then (b, false)
    else if SaturatingInc(b.failures) >= b.threshold then
      (b.(failures := 0, openUntil := Some(now + b.cooldown)), true)
    else (b.(failures := SaturatingInc(b.failures)), false)
  }

  class CircuitBreakerState {
    const threshold: nat
    const cooldown: nat
    var consecutiveFailures: nat
    var openUntil: Option<nat>

    function State(): Breaker
      reads this
    {
      Breaker(threshold, cooldown, consecutiveFailures, openUntil)
    }

    constructor (threshold: nat, cooldownSecs: nat)
      ensures State() == NewBreaker(threshold, cooldownSecs)
    {
      this.threshold := threshold;
      this.cooldown := Max(cooldownSecs, 1) * NANOS_PER_SEC;
      consecutiveFailures := 0;
      openUntil := None;
    }

    method CheckReadyAt(now: nat) returns (r: Result<(), nat>)
      modifies this
      ensures (State(), r) == CheckReady(old(State()), now)
    {
      if threshold == 0 { return Ok(()); }
      if openUntil.Some? {
        if now < openUntil.value {
          return Err(Max((openUntil.value - now) / NANOS_PER_SEC, 1));
        }
        openUntil := None;
        consecutiveFailures := 0;
      }
      return Ok(());
    }

    method RecordSuccessNow()
      modifies this
      ensures State() == RecordSuccess(old(State()))
    {
      consecutiveFailures := 0;
      openUntil := None;
    }

    method RecordFailureAt(now: nat) returns (tripped: bool)
      modifies this
      ensures (State(), tripped) == RecordFailure(old(State()), now)
    {
      if threshold == 0 { return false; }
      consecutiveFailures := SaturatingInc(consecutiveFailures);
      if consecutiveFailures >= threshold {
        openUntil := Some(now + cooldown);
        consecutiveFailures := 0;
        return true;
      }
      return false;
    }
  }

  // ----- breaker safety over every history of lock regions -----

  /** What one lock region on the breaker did, and when. */
  datatype BreakerEvent =
    | Admitted(at: nat, cooledDown: bool)
    | Refused(at: nat, retryAfter: nat)
    | Succeeded(at: nat)
    | Failed(at: nat, tripped: bool)

  /** A success, a trip and a finished cooldown all restart the count of failures. */
  predicate Restarts(e: BreakerEvent) {
    e.Succeeded? || (e.Failed? && e.tripped) || (e.Admitted? && e.cooledDown)
  }

  /** Failures recorded since the count last restarted. */
  function FailuresInRow(log: seq<BreakerEvent>): nat {
    if log == [] then 0
    else
      var last := log[|log| - 1];
      if Restarts(last) then 0
      else FailuresInRow(log[..|log| - 1]) + (if last.Failed? then 1 else 0)
  }

  predicate SuccessAfter(log: seq<BreakerEvent>, i: nat) {
    exists k :: i < k < |log| && log[k].Succeeded?
  }

  ghost predicate TripHolds(b: Breaker, log: seq<BreakerEvent>, clock: nat, i: nat)
    requires i < |log|
  {
    log[i].Failed? && log[i].tripped && !SuccessAfter(log, i) ==>
      || log[i].at + b.cooldown <= clock
      || (b.openUntil.Some? && log[i].at + b.cooldown <= b.openUntil.value)
  }

  /** No admission inside the cooldown of an earlier trip, unless a success came in between. */
  ghost predicate AdmissionSafe(cooldown: nat, log: seq<BreakerEvent>, i: nat, j: nat)
    requires i < j < |log|
  {
    log[i].Failed? && log[i].tripped && log[j].Admitted? && log[j].at < log[i].at + cooldown ==>
      SuccessAfter(log[..j], i)
  }

  /** A failure trips the breaker exactly when it is the `threshold`-th in a row. */
  ghost predicate TripExact(threshold: nat, log: seq<BreakerEvent>, j: nat)
    requires j < |log|
  {
    log[j].Failed? ==> (log[j].tripped <==> FailuresInRow(log[..j]) + 1 == threshold)
  }

  /** The trip at `i` keeps the circuit open at `at`, and `secs` is the rest of the cooldown in whole seconds, at
      least one. */
  ghost predicate OpenFrom(cooldown: nat, log: seq<BreakerEvent>, i: nat, at: nat, secs: nat)
    requires i < |log|
  {
    && log[i].Failed? && log[i].tripped && !SuccessAfter(log, i) && at < log[i].at + cooldown
    && (secs == 1 || (secs > 1 && at + secs * NANOS_PER_SEC <= log[i].at + cooldown))
    && log[i].at + cooldown < at + (secs + 1) * NANOS_PER_SEC
  }

  /** A check is refused only inside the cooldown of an earlier trip, without a success in between. */
  ghost predicate RefusalMeans(cooldown: nat, log: seq<BreakerEvent>, j: nat)
    requires j < |log|
  {
    log[j].Refused? ==> exists i :: 0 <= i < j && OpenFrom(cooldown, log[..j], i, log[j].at, log[j].retryAfter)
  }

  ghost predicate BreakerSafe(threshold: nat, cooldown: nat, log: seq<BreakerEvent>) {
    && (forall i, j :: 0 <= i < j < |log| ==> AdmissionSafe(cooldown, log, i, j))
    && (forall j :: 0 <= j < |log| ==> TripExact(threshold, log, j))
    && (forall j :: 0 <= j < |log| ==> RefusalMeans(cooldown, log, j))
  }

  /** An open circuit was opened by a trip after which no success came. */
  ghost predicate OpenedBy(b: Breaker, log: seq<BreakerEvent>, i: nat)
    requires i < |log|
  {
    log[i].Failed? && log[i].tripped && !SuccessAfter(log, i) && b.openUntil == Some(log[i].at + b.cooldown)
  }

  /** The breaker state and its log agree, at a clock no earlier than any event. */
  ghost predicate BreakerInv(b: Breaker, log: seq<BreakerEvent>, clock: nat) {
    && 0 < b.threshold <= U32_MAX
    && b.failures == FailuresInRow(log) < b.threshold
    && BreakerSafe(b.threshold, b.cooldown, log)
    && (forall i :: 0 <= i < |log| ==> log[i].at <= clock)
    && (forall i :: 0 <= i < |log| ==> TripHolds(b, log, clock, i))
    && (b.openUntil.Some? ==> exists i :: 0 <= i < |log| && OpenedBy(b, log, i))
  }

  function CheckEvent(b: Breaker, now: nat): BreakerEvent {
    var (b', r) := CheckReady(b, now);
    if r.Ok? then Admitted(now, b'.openUntil.None? && b.openUntil.Some?) else Refused(now, r.error)
  }

  lemma SuccessAfterAppend(log: seq<BreakerEvent>, e: BreakerEvent, i: nat)
    requires i < |log|
    ensures SuccessAfter(log + [e], i) <==> SuccessAfter(log, i) || e.Succeeded?
  {
    var log' := log + [e];
    assert log'[|log|] == e;
    if SuccessAfter(log, i) {
      var k :| i < k < |log| && log[k].Succeeded?;
      assert log'[k].Succeeded?;
    }
  }

  ghost predicate CooledDown(cooldown: nat, log: seq<BreakerEvent>, at: nat, i: nat)
    requires i < |log|
  {
    log[i].Failed? && log[i].tripped && at < log[i].at + cooldown ==> SuccessAfter(log, i)
  }

  /** Appending one event keeps safety when the event itself is safe. */
  lemma SafeAppend(threshold: nat, cooldown: nat, log: seq<BreakerEvent>, e: BreakerEvent)
    requires BreakerSafe(threshold, cooldown, log)
    requires e.Admitted? ==> forall i :: 0 <= i < |log| ==> CooledDown(cooldown, log, e.at, i)
    requires e.Failed? ==> (e.tripped <==> FailuresInRow(log) + 1 == threshold)
    requires e.Refused? ==> exists i :: 0 <= i < |log| && OpenFrom(cooldown, log, i, e.at, e.retryAfter)
    ensures BreakerSafe(threshold, cooldown, log + [e])
  {
    var log' := log + [e];
    assert log'[..|log|] == log;
    forall i, j | 0 <= i < j < |log'|
      ensures AdmissionSafe(cooldown, log', i, j)
    {
      if j < |log| {
        assert log'[..j] == log[..j];
        assert AdmissionSafe(cooldown, log, i, j);
      } else if e.Admitted? {
        assert CooledDown(cooldown, log, e.at, i);
      }
    }
    forall j | 0 <= j < |log'|
      ensures TripExact(threshold, log', j)
    {
      if j < |log| {
        assert log'[..j] == log[..j];
        assert TripExact(threshold, log, j);
      }
    }
    forall j | 0 <= j < |log'|
      ensures RefusalMeans(cooldown, log', j)
    {
      if j < |log| {
        assert log'[..j] == log[..j];
        assert RefusalMeans(cooldown, log, j);
      }
    }
  }

  /** The seconds a refused check reports. */
  lemma {:induction false} ReportedWait(b: Breaker, log: seq<BreakerEvent>, now: nat, i: nat)
    requires i < |log| && OpenedBy(b, log, i) && CheckReady(b, now).1.Err?
    ensures OpenFrom(b.cooldown, log, i, now, CheckReady(b, now).1.error)
  {
    var left := b.openUntil.value - now;
    assert left == left / NANOS_PER_SEC * NANOS_PER_SEC + left % NANOS_PER_SEC;
  }

  /** The opening survives an event that is no success and leaves it in place. */
  lemma {:induction false} StaysOpened(b: Breaker, b': Breaker, log: seq<BreakerEvent>, e: BreakerEvent)
    requires b.openUntil.Some? ==> exists i :: 0 <= i < |log| && OpenedBy(b, log, i)
    requires b'.openUntil == b.openUntil && b'.cooldown == b.cooldown && !e.Succeeded?
    ensures b'.openUntil.Some? ==> exists i :: 0 <= i < |log + [e]| && OpenedBy(b', log + [e], i)
  {
    if b.openUntil.Some? {
      var i :| 0 <= i < |log| && OpenedBy(b, log, i);
      SuccessAfterAppend(log, e, i);
      assert OpenedBy(b', log + [e], i);
    }
  }

  lemma {:induction false} BreakerStart(threshold: nat, cooldownSecs: nat, clock: nat)
    requires 0 < threshold <= U32_MAX
    ensures BreakerInv(NewBreaker(threshold, cooldownSecs), [], clock)
  {
  }

  lemma BreakerClock(b: Breaker, log: seq<BreakerEvent>, clock: nat, now: nat)
    requires BreakerInv(b, log, clock) && clock <= now
    ensures BreakerInv(b, log, now)
  {
    forall i | 0 <= i < |log|
      ensures TripHolds(b, log, now, i)
    {
      assert TripHolds(b, log, clock, i);
    }
  }

  /** Every lock region keeps the invariant: the check. */
  lemma CheckKeepsInv(b: Breaker, log: seq<BreakerEvent>, clock: nat, now: nat)
    requires BreakerInv(b, log, clock) && clock <= now
    ensures BreakerInv(CheckReady(b, now).0, log + [CheckEvent(b, now)], now)
  {
    var b', e := CheckReady(b, now).0, CheckEvent(b, now);
    var log' := log + [e];
    assert log'[..|log|] == log;
    if e.Admitted? {
      forall i | 0 <= i < |log|
        ensures CooledDown(b.cooldown, log, now, i)
      {
        assert TripHolds(b, log, clock, i);
      }
    } else {
      var i :| 0 <= i < |log| && OpenedBy(b, log, i);
      ReportedWait(b, log, now, i);
    }
    if b'.openUntil.Some? { StaysOpened(b, b', log, e); }
    SafeAppend(b.threshold, b.cooldown, log, e);
    forall i | 0 <= i < |log'|
      ensures TripHolds(b', log', now, i)
    {
      if i < |log| {
        SuccessAfterAppend(log, e, i);
        assert TripHolds(b, log, clock, i);
      }
    }
  }

  /** Every lock region keeps the invariant: a recorded success. */
  lemma SuccessKeepsInv(b: Breaker, log: seq<BreakerEvent>, clock: nat, now: nat)
    requires BreakerInv(b, log, clock) && clock <= now
    ensures BreakerInv(RecordSuccess(b), log + [Succeeded(now)], now)
  {
    var log' := log + [Succeeded(now)];
    assert log'[..|log|] == log;
    SafeAppend(b.threshold, b.cooldown, log, Succeeded(now));
    forall i | 0 <= i < |log'|
      ensures TripHolds(RecordSuccess(b), log', now, i)
    {
      if i < |log| { SuccessAfterAppend(log, Succeeded(now), i); }
    }
  }

  /** Every lock region keeps the invariant: a recorded failure. */
  lemma FailureKeepsInv(b: Breaker, log: seq<BreakerEvent>, clock: nat, now: nat)
    requires BreakerInv(b, log, clock) && clock <= now
    ensures BreakerInv(RecordFailure(b, now).0, log + [Failed(now, RecordFailure(b, now).1)], now)
  {
    var (b', tripped) := RecordFailure(b, now);
    var log' := log + [Failed(now, tripped)];
    assert log'[..|log|] == log;
    SafeAppend(b.threshold, b.cooldown, log, Failed(now, tripped));
    if tripped {
      assert OpenedBy(b', log', |log|);
    } else {
      StaysOpened(b, b', log, Failed(now, tripped));
    }
    forall i | 0 <= i < |log'|
      ensures TripHolds(b', log', now, i)
    {
      if i < |log| {
        SuccessAfterAppend(log, Failed(now, tripped), i);
        assert TripHolds(b, log, clock, i);
      }
    }
  }

  // ----- fixed-window rate limiter -----

  datatype Limiter = Limiter(limit: nat, windowStart: nat, used: nat)

  function NewLimiter(limit: nat, now: nat): Limiter {
    Limiter(limit, now, 0)
  }

  /** `duration_since` saturates at zero. */
  function Since(now: nat, earlier: nat): nat {
    if earlier <= now then now - earlier else 0
  }

  function Rolled(l: Limiter, now: nat): Limiter {
    if Since(now, l.windowStart) >= WINDOW then l.(windowStart := now, used := 0) else l
  }

  /** The new state, and the seconds to wait when the window is full. */
  function Consume(l: Limiter, now: nat): (Limiter, Result<(), nat>) {
    if l.limit == 0 then (l, Ok(()))
    else
      var w := Rolled(l, now);
      if w.used < w.limit then (w.(used := SaturatingInc(w.used)), Ok(()))
      else
        var elapsed := Since(now, w.windowStart);
        (w, Err(Max((if elapsed <= WINDOW then WINDOW - elapsed else 0) / NANOS_PER_SEC, 1)))
  }

  class FixedWindowRateLimiter {
    const limitPerMinute: nat
    var windowStartedAt: nat
    var usedInWindow: nat

    function State(): Limiter
      reads this
    {
      Limiter(limitPerMinute, windowStartedAt, usedInWindow)
    }

    constructor (limitPerMinute: nat, now: nat)
      ensures State() == NewLimiter(limitPerMinute, now)
    {
      this.limitPerMinute := limitPerMinute;
      windowStartedAt := now;
      usedInWindow := 0;
    }

    method ConsumeOrRetryAfterSecs(now: nat) returns (r: Result<(), nat>)
      modifies this
      ensures (State(), r) == Consume(old(State()), now)
    {
      if limitPerMinute == 0 { return Ok(()); }
      if Since(now, windowStartedAt) >= WINDOW {
        windowStartedAt := now;
        usedInWindow := 0;
      }
      if usedInWindow < limitPerMinute {
        usedInWindow := SaturatingInc(usedInWindow);
        return Ok(());
      }
      var elapsed := Since(now, windowStartedAt);
      return Err(Max((if elapsed <= WINDOW then WINDOW - elapsed else 0) / NANOS_PER_SEC, 1));
    }
  }

  /** The times at which the limiter let a call through. */
  function CountIn(admitted: seq<nat>, from: nat): nat {
    if admitted == [] then 0
    else
      var t := admitted[|admitted| - 1];
      CountIn(admitted[..|admitted| - 1], from) + (if from <= t < from + WINDOW then 1 else 0)
  }

  /** Where the current window lies decides how much of the interval at `from` is used up. */
  ghost predicate IntervalBound(l: Limiter, admitted: seq<nat>, from: nat) {
    var n := CountIn(admitted, from);
    if l.windowStart < from then n <= l.used
    else if l.windowStart < from + WINDOW then n <= l.limit + l.used
    else n <= 2 * l.limit
  }

  ghost predicate LimiterInv(l: Limiter, admitted: seq<nat>, clock: nat) {
    && 0 < l.limit <= U32_MAX && l.used <= l.limit && l.windowStart <= clock
    && (forall i :: 0 <= i < |admitted| ==> admitted[i] <= clock && admitted[i] < l.windowStart + WINDOW)
    && (forall from: nat :: IntervalBound(l, admitted, from))
    && l.used == CountIn(admitted, l.windowStart)
  }

  lemma LimiterStart(limit: nat, now: nat)
    requires 0 < limit <= U32_MAX
    ensures LimiterInv(NewLimiter(limit, now), [], now)
  {
  }

  lemma {:induction false} NoneLaterThan(admitted: seq<nat>, from: nat)
    requires forall i :: 0 <= i < |admitted| ==> admitted[i] < from
    ensures CountIn(admitted, from) == 0
  {
    if admitted != [] { NoneLaterThan(admitted[..|admitted| - 1], from); }
  }

  lemma RolledKeepsBound(l: Limiter, admitted: seq<nat>, clock: nat, now: nat, from: nat)
    requires LimiterInv(l, admitted, clock) && clock <= now
    ensures IntervalBound(Rolled(l, now), admitted, from)
  {
    assert IntervalBound(l, admitted, from);
    if Rolled(l, now) != l && now < from { NoneLaterThan(admitted, from); }
  }

  lemma LimiterClock(l: Limiter, admitted: seq<nat>, clock: nat, now: nat)
    requires LimiterInv(l, admitted, clock) && clock <= now
    ensures LimiterInv(l, admitted, now)
  {
  }

  function AdmittedBy(l: Limiter, admitted: seq<nat>, now: nat): seq<nat> {
    if Consume(l, now).1.Ok? then admitted + [now] else admitted
  }

  lemma ConsumeKeepsInv(l: Limiter, admitted: seq<nat>, clock: nat, now: nat)
    requires LimiterInv(l, admitted, clock) && clock <= now
    ensures LimiterInv(Consume(l, now).0, AdmittedBy(l, admitted, now), now)
  {
    forall from: nat
      ensures IntervalBound(Consume(l, now).0, AdmittedBy(l, admitted, now), from)
    {
      RolledKeepsBound(l, admitted, clock, now, from);
      assert (admitted + [now])[..|admitted|] == admitted;
    }
    assert (admitted + [now])[..|admitted|] == admitted;
    if Rolled(l, now) != l { NoneLaterThan(admitted, now); }
  }

  /** A call is refused only in a window in which as many calls as the limit were let through already; so every
      call that starts a new window is let through. */
  lemma {:induction false} RefusedWhenFull(l: Limiter, admitted: seq<nat>, clock: nat, now: nat)
    requires LimiterInv(l, admitted, clock) && clock <= now
    ensures Consume(l, now).1.Err? <==> now < l.windowStart + WINDOW && CountIn(admitted, l.windowStart) == l.limit
  {
  }

  /** A full window reports a wait of one to sixty seconds. Its window has run out once the caller
      waits one second more than reported; the reported wait alone is enough exactly when the rest
      of the window is a whole number of seconds or less than one. */
  lemma RetryDelay(l: Limiter, now: nat, later: nat)
    requires l.windowStart <= now && Consume(l, now).1.Err?
    ensures var r, w := Consume(l, now).1.error, Consume(l, now).0.windowStart;
            && 1 <= r <= 60
            && (later >= now + (r + 1) * NANOS_PER_SEC ==> later - w >= WINDOW)
            && (now + r * NANOS_PER_SEC - w >= WINDOW <==>
                (w + WINDOW - now) % NANOS_PER_SEC == 0 || w + WINDOW - now < NANOS_PER_SEC)
  {
    var w := Consume(l, now).0.windowStart;
    var left := w + WINDOW - now;
    assert 0 < left <= WINDOW;
    var q := left / NANOS_PER_SEC;
    assert left == q * NANOS_PER_SEC + left % NANOS_PER_SEC;
  }

  /** A run of the limiter at the given times. */
  function Admissions(l: Limiter, times: seq<nat>): seq<nat>
    decreases |times|
  {
    if times == [] then []
    else
      var (l', r) := Consume(l, times[0]);
      (if r.Ok? then [times[0]] else []) + Admissions(l', times[1..])
  }

  function Repeat(t: nat, n: nat): seq<nat> {
    if n == 0 then [] else [t] + Repeat(t, n - 1)
  }

  /** The bound of twice the limit is reached: a full window just before its end, and the next at once. */
  lemma {:induction false} BoundIsReached(limit: nat, start: nat)
    requires 0 < limit <= U32_MAX
    ensures var late := start + WINDOW - 1;
            Admissions(NewLimiter(limit, start), Repeat(late, limit) + Repeat(start + WINDOW, limit))
            == Repeat(late, limit) + Repeat(start + WINDOW, limit)
  {
    var late, next := start + WINDOW - 1, start + WINDOW;
    FillsWindow(Limiter(limit, start, 0), late, limit, Repeat(next, limit));
    var full := Limiter(limit, start, limit);
    assert Repeat(next, limit) == [next] + Repeat(next, limit - 1);
    FillsWindow(Limiter(limit, next, 1), next, limit - 1, []);
    assert Repeat(next, limit - 1) + [] == Repeat(next, limit - 1);
    AdmissionsStep(full, next, Repeat(next, limit - 1));
  }

  lemma RepeatStep(t: nat, n: nat, rest: seq<nat>)
    requires n > 0
    ensures Repeat(t, n) + rest == [t] + (Repeat(t, n - 1) + rest)
  {
    assert Repeat(t, n) == [t] + Repeat(t, n - 1);
  }

  lemma AdmissionsStep(l: Limiter, t: nat, rest: seq<nat>)
    requires Consume(l, t).1.Ok?
    ensures Admissions(l, [t] + rest) == [t] + Admissions(Consume(l, t).0, rest)
  {
    assert ([t] + rest)[1..] == rest;
  }

  lemma {:induction false} FillsWindow(l: Limiter, t: nat, n: nat, rest: seq<nat>)
    requires 0 < l.limit <= U32_MAX && l.used + n <= l.limit && l.windowStart <= t < l.windowStart + WINDOW
    ensures Admissions(l, Repeat(t, n) + rest) == Repeat(t, n) + Admissions(l.(used := l.used + n), rest)
    decreases n
  {
    if n == 0 {
      assert Repeat(t, n) + rest == rest;
    } else {
      var l', todo := l.(used := l.used + 1), Repeat(t, n - 1) + rest;
      RepeatStep(t, n, rest);
      AdmissionsStep(l, t, todo);
      assert Consume(l, t).0 == l';
      FillsWindow(l', t, n - 1, rest);
      RepeatStep(t, n, Admissions(l.(used := l.used + n), rest));
      assert l'.(used := l'.used + (n - 1)) == l.(used := l.used + n);
    }
  }
}
