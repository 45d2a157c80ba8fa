/** `McpServer::call_tool` of `src/mcp.rs`: concurrent callers that share one rate limiter, one bulkhead
    and one circuit breaker. Every lock region is one atomic step. */
module McpServer {
  import opened Wrappers
  import opened McpPrimitives

  // ----- the retry loop of one call -----

  /** What one attempt of a tool call comes back with. */
  datatype Attempt = Success | Failure(retryable: bool)

  predicate RetriesAfter(outcome: Attempt, attempt: nat, maxRetries: nat) {
    outcome.Failure? && attempt < maxRetries && outcome.retryable
  }

  /** Every outcome but the last is a failure that is retried, and the last one is not. */
  predicate Ends(outcomes: seq<Attempt>, maxRetries: nat) {
    && outcomes != [] && AllRetried(outcomes[..|outcomes| - 1], maxRetries)
    && !RetriesAfter(outcomes[|outcomes| - 1], |outcomes| - 1, maxRetries)
  }

  predicate AllRetried(outcomes: seq<Attempt>, maxRetries: nat) {
    forall k :: 0 <= k < |outcomes| ==> RetriesAfter(outcomes[k], k, maxRetries)
  }

  /** The wait before the next attempt, in milliseconds. */
  function BackoffMs(attempt: nat): nat {
    200 * Pow2(if attempt < 8 then attempt else 8)
  }

  function Pow2(n: nat): nat {
    if n == 0 then 1 else 2 * Pow2(n - 1)
  }

  /** The call's answer is the first outcome that is not retried, after at most `maxRetries + 1` attempts.
      The waits double until the ninth, then stay the same. */
  method RetryLoop(outcomes: nat -> Attempt, maxRetries: nat) returns (result: Attempt, tried: nat, waitedMs: nat)
    ensures 1 <= tried <= maxRetries + 1
    ensures result == outcomes(tried - 1) && !RetriesAfter(result, tried - 1, maxRetries)
    ensures forall k :: 0 <= k < tried - 1 ==> RetriesAfter(outcomes(k), k, maxRetries)
    ensures Ends(seq(tried, k requires 0 <= k < tried => outcomes(k)), maxRetries)
    ensures waitedMs == (if tried <= 10 then 200 * (Pow2(tried - 1) - 1) else 102_200 + 51_200 * (tried - 10))
  {
    var attempt := 0;
    waitedMs := 0;
    while true
      invariant attempt <= maxRetries
      invariant forall k :: 0 <= k < attempt ==> RetriesAfter(outcomes(k), k, maxRetries)
      invariant waitedMs == (if attempt <= 9 then 200 * (Pow2(attempt) - 1) else 102_200 + 51_200 * (attempt - 9))
      decreases maxRetries - attempt
    {
      result := outcomes(attempt);
      if !RetriesAfter(result, attempt, maxRetries) {
        return result, attempt + 1, waitedMs;
      }
      if attempt >= 8 { PowerEight(); }
      waitedMs := waitedMs + BackoffMs(attempt);
      attempt := attempt + 1;
    }
  }

  lemma PowerEight()
    ensures Pow2(8) == 256 && Pow2(9) == 512
  {
    assert Pow2(4) == 16;
  }

  // ----- the interleaved system -----

  datatype Outcome = RateLimited(secs: nat) | Busy | CircuitOpen(secs: nat) | Finished(ok: bool) | Dropped

  /** Where a caller stands between two atomic steps. */
  datatype Phase =
    | Idle
    | Waiting                  // past the rate limiter, queueing for a permit
    | Holding                  // has a permit, breaker not yet asked
    | Calling(attempt: nat)    // has a permit, `attempt` attempts failed so far
    | Released(ok: bool)       // permit dropped, outcome not yet recorded
    | Done(outcome: Outcome)

  predicate HasPermit(p: Phase) {
    p.Holding? || p.Calling?
  }

  /** A mark in a caller's own history. */
  datatype Mark = Passed | GotPermit | Cleared | Tried

  datatype Action =
    | Limit(c: nat, at: nat)
    | Acquire(c: nat)
    | QueueTimeout(c: nat)
    | Check(c: nat, at: nat)
    | Try(c: nat, outcome: Attempt)
    | Record(c: nat, at: nat)
    | Drop(c: nat)             // the caller's future is dropped at an await point

  /** The shared state, and a log of what happened to it. */
  datatype Server = Server(
    limiter: Limiter, breaker: Breaker, permits: nat,
    maxConcurrent: nat, maxRetries: nat,
    callers: map<nat, Phase>, clock: nat,
    admitted: seq<nat>, passers: seq<nat>,                                 // when a call passed the limiter, and whose
    breakerLog: seq<BreakerEvent>, writers: seq<nat>,  // who logged each event of the breaker
    marks: map<nat, seq<Mark>>, attempts: map<nat, seq<Attempt>>)

  function NewServer(rateLimit: nat, maxConcurrent: nat, threshold: nat, cooldownSecs: nat, maxRetries: nat,
                     now: nat): Server {
    var n := Max(maxConcurrent, 1);
    Server(NewLimiter(rateLimit, now), NewBreaker(threshold, cooldownSecs), n, n, maxRetries,
           map[], now, [], [], [], [], map[], map[])
  }

  function PhaseOf(s: Server, c: nat): Phase {
    if c in s.callers then s.callers[c] else Idle
  }

  function MarksOf(s: Server, c: nat): seq<Mark> {
    if c in s.marks then s.marks[c] else []
  }

  /** What the attempts of a caller came back with. */
  function AttemptsOf(s: Server, c: nat): seq<Attempt> {
    if c in s.attempts then s.attempts[c] else []
  }

  function Attempts(s: Server, c: nat, outcome: Attempt): Server {
    s.(attempts := s.attempts[c := AttemptsOf(s, c) + [outcome]])
  }

  /** The caller `c` leaves the breaker in state `b` and an event in its log. */
  function Logged(s: Server, c: nat, at: nat, b: Breaker, e: BreakerEvent): Server {
    s.(breaker := b, clock := at, breakerLog := s.breakerLog + [e], writers := s.writers + [c])
  }

  function Move(s: Server, c: nat, p: Phase): Server {
    s.(callers := s.callers[c := p])
  }

  function MoveMarked(s: Server, c: nat, p: Phase, m: Mark): Server {
    s.(callers := s.callers[c := p], marks := s.marks[c := MarksOf(s, c) + [m]])
  }

  /** One atomic step, or `None` when the action is not possible in this state. */
  function Step(s: Server, a: Action): Option<Server> {
    var p := PhaseOf(s, a.c);
    match a
    case Limit(c, at) =>
      if p != Idle || at < s.clock then None
      else
        var (l, r) := Consume(s.limiter, at);
        var s' := s.(limiter := l, clock := at, admitted := AdmittedBy(s.limiter, s.admitted, at),
                     passers := if r.Ok? then s.passers + [c] else s.passers);
        Some(match r
             case Ok(_) => MoveMarked(s', c, Waiting, Passed)
             case Err(secs) => Move(s', c, Done(RateLimited(secs))))
    case Acquire(c) =>
      if p != Waiting || s.permits == 0 then None
      else Some(MoveMarked(s.(permits := s.permits - 1), c, Holding, GotPermit))
    case QueueTimeout(c) =>
      if p != Waiting then None else Some(Move(s, c, Done(Busy)))
    case Check(c, at) =>
      if p != Holding || at < s.clock then None
      else
        var (b, r) := CheckReady(s.breaker, at);
        var s' := Logged(s, c, at, b, CheckEvent(s.breaker, at));
        Some(match r
             case Ok(_) => MoveMarked(s', c, Calling(0), Cleared)
             case Err(secs) => Move(s'.(permits := s.permits + 1), c, Done(CircuitOpen(secs))))
    case Try(c, outcome) =>
      if !p.Calling? then None
      else if RetriesAfter(outcome, p.attempt, s.maxRetries) then
        Some(MoveMarked(Attempts(s, c, outcome), c, Calling(p.attempt + 1), Tried))
      else
        Some(MoveMarked(Attempts(s, c, outcome).(permits := s.permits + 1), c, Released(outcome.Success?), Tried))
    case Record(c, at) =>
      if !p.Released? || at < s.clock then None
      else if p.ok then
        Some(Move(Logged(s, c, at, RecordSuccess(s.breaker), Succeeded(at)), c, Done(Finished(true))))
      else
        var (b, tripped) := RecordFailure(s.breaker, at);
        Some(Move(Logged(s, c, at, b, Failed(at, tripped)), c, Done(Finished(false))))
    case Drop(c) =>
      if p.Waiting? then Some(Move(s, c, Done(Dropped)))
      else if p.Calling? then Some(Move(s.(permits := s.permits + 1), c, Done(Dropped)))
      else None
  }

  /** All the actions in order, or `None` when one of them is not possible. */
  function Run(s: Server, actions: seq<Action>): Option<Server>
    decreases |actions|
  {
    if actions == [] then Some(s)
    else
      var next := Step(s, actions[0]);
      if next.None? then None else Run(next.value, actions[1..])
  }

  // ----- the invariant -----

  ghost function PermitHolders(callers: map<nat, Phase>): set<nat> {
    set c | c in callers && HasPermit(callers[c])
  }

  /** `[Passed, GotPermit, Cleared]` and then `n` attempts. */
  function Attempted(n: nat): seq<Mark> {
    if n == 0 then [Passed, GotPermit, Cleared] else Attempted(n - 1) + [Tried]
  }

  /** A caller's history in a phase: rate limiter, then permit, then breaker, then the attempts. */
  ghost predicate HistoryFits(p: Phase, marks: seq<Mark>, maxRetries: nat) {
    match p
    case Idle => marks == []
    case Waiting => marks == [Passed]
    case Holding => marks == [Passed, GotPermit]
    case Calling(n) => n <= maxRetries && marks == Attempted(n)
    case Released(_) => exists n :: 1 <= n <= maxRetries + 1 && marks == Attempted(n)
    case Done(o) =>
      match o
      case RateLimited(_) => marks == []
      case Busy => marks == [Passed]
      case CircuitOpen(_) => marks == [Passed, GotPermit]
      case Finished(_) => exists n :: 1 <= n <= maxRetries + 1 && marks == Attempted(n)
      case Dropped => marks == [Passed] || exists n: nat :: n <= maxRetries && marks == Attempted(n)
  }

  ghost predicate GuardsHold(s: Server) {
    && (s.limiter.limit > 0 ==> LimiterInv(s.limiter, s.admitted, s.clock))
    && (s.breaker.threshold > 0 ==> BreakerInv(s.breaker, s.breakerLog, s.clock))
  }

  ghost predicate PermitsConserved(s: Server) {
    s.permits + |PermitHolders(s.callers)| == s.maxConcurrent
  }

  ghost predicate HistoriesFit(s: Server) {
    forall c :: HistoryFits(PhaseOf(s, c), MarksOf(s, c), s.maxRetries)
  }

  /** The phase of a caller fits what its attempts came back with. */
  ghost predicate AttemptsFit(p: Phase, marks: seq<Mark>, outcomes: seq<Attempt>, maxRetries: nat) {
    && (outcomes != [] ==> |marks| > 3)
    && match p
       case Calling(n) => n == |outcomes| && AllRetried(outcomes, maxRetries)
       case Released(ok) => Ends(outcomes, maxRetries) && ok == outcomes[|outcomes| - 1].Success?
       case Done(Finished(ok)) => Ends(outcomes, maxRetries) && ok == outcomes[|outcomes| - 1].Success?
       case Done(Dropped) => AllRetried(outcomes, maxRetries)
       case _ => outcomes == []
  }

  ghost predicate AllAttemptsFit(s: Server) {
    forall c :: AttemptsFit(PhaseOf(s, c), MarksOf(s, c), AttemptsOf(s, c), s.maxRetries)
  }

  predicate Records(e: BreakerEvent) {
    e.Succeeded? || e.Failed?
  }

  /** The event was logged by a caller that has finished as the event says. */
  ghost predicate WrittenByFinished(s: Server, j: nat)
    requires j < |s.breakerLog| && j < |s.writers|
  {
    Records(s.breakerLog[j]) ==> PhaseOf(s, s.writers[j]) == Done(Finished(s.breakerLog[j].Succeeded?))
  }

  /** The caller logged an outcome. */
  ghost predicate HasRecorded(s: Server, c: nat)
    requires |s.writers| == |s.breakerLog|
  {
    exists j :: 0 <= j < |s.writers| && s.writers[j] == c && Records(s.breakerLog[j])
  }

  /** The outcomes in the breaker's log are those of the finished callers, one each. */
  ghost predicate LogIsHonest(s: Server) {
    && |s.writers| == |s.breakerLog|
    && (forall j :: 0 <= j < |s.breakerLog| ==> WrittenByFinished(s, j))
    && (forall i, j :: 0 <= i < j < |s.breakerLog| && Records(s.breakerLog[i]) && Records(s.breakerLog[j]) ==>
          s.writers[i] != s.writers[j])
    && (forall c :: HasFinished(PhaseOf(s, c)) ==> HasRecorded(s, c))
  }

  /** The breaker let the caller through. */
  ghost predicate WasAdmitted(s: Server, c: nat)
    requires |s.writers| == |s.breakerLog|
  {
    exists j :: 0 <= j < |s.writers| && s.writers[j] == c && s.breakerLog[j].Admitted?
  }

  /** The logs have every call that passed: those of the limiter each caller once, that of the breaker the callers
      that went on to their attempts. */
  ghost predicate TracesFit(s: Server) {
    && |s.passers| == |s.admitted| && |s.writers| == |s.breakerLog|
    && (forall i, j :: 0 <= i < j < |s.passers| ==> s.passers[i] != s.passers[j])
    && (forall c :: MarksOf(s, c) != [] <==> c in s.passers)
    && (forall c :: |MarksOf(s, c)| >= 3 <==> WasAdmitted(s, c))
  }

  /** The breaker turned the caller away with this wait. */
  ghost predicate RefusedWith(s: Server, c: nat, secs: nat)
    requires |s.writers| == |s.breakerLog|
  {
    exists j :: 0 <= j < |s.writers| && s.writers[j] == c && s.breakerLog[j].Refused? &&
        s.breakerLog[j].retryAfter == secs
  }

  ghost predicate AnswerFits(s: Server, c: nat)
    requires |s.writers| == |s.breakerLog|
  {
    match PhaseOf(s, c)
    case Done(CircuitOpen(secs)) => RefusedWith(s, c, secs)
    case Done(RateLimited(secs)) => 1 <= secs <= 60
    case _ => true
  }

  ghost predicate AnswersFit(s: Server) {
    |s.writers| == |s.breakerLog| && forall c :: AnswerFits(s, c)
  }

  ghost predicate ServerInv(s: Server) {
    && GuardsHold(s) && PermitsConserved(s) && HistoriesFit(s) && AllAttemptsFit(s)
    && LogIsHonest(s) && TracesFit(s) && AnswersFit(s)
  }

  lemma HoldersAfterMove(callers: map<nat, Phase>, c: nat, p: Phase)
    ensures var had := c in callers && HasPermit(callers[c]);
            |PermitHolders(callers[c := p])| ==
            |PermitHolders(callers)| - (if had then 1 else 0) + (if HasPermit(p) then 1 else 0)
  {
    var holders, holders' := PermitHolders(callers), PermitHolders(callers[c := p]);
    if HasPermit(p) {
      assert holders' == holders + {c};
    } else {
      assert holders' == holders - {c};
    }
  }

  lemma StepKeepsPermits(s: Server, a: Action)
    requires PermitsConserved(s) && Step(s, a).Some?
    ensures PermitsConserved(Step(s, a).value)
  {
    var s' := Step(s, a).value;
    assert s'.callers == s.callers[a.c := PhaseOf(s', a.c)];
    HoldersAfterMove(s.callers, a.c, PhaseOf(s', a.c));
  }

  /** A step is about one caller only. */
  lemma {:induction false} OthersStay(s: Server, a: Action, c: nat)
    requires Step(s, a).Some? && c != a.c
    ensures var s' := Step(s, a).value;
            PhaseOf(s', c) == PhaseOf(s, c) && MarksOf(s', c) == MarksOf(s, c) && AttemptsOf(s', c) == AttemptsOf(s, c)
  {
  }

  lemma {:induction false} RetriesStay(s: Server, a: Action)
    requires Step(s, a).Some?
    ensures Step(s, a).value.maxRetries == s.maxRetries
  {
  }

  lemma {:induction false} OwnHistoryFits(s: Server, a: Action)
    requires Step(s, a).Some? && HistoryFits(PhaseOf(s, a.c), MarksOf(s, a.c), s.maxRetries)
    ensures var s' := Step(s, a).value; HistoryFits(PhaseOf(s', a.c), MarksOf(s', a.c), s.maxRetries)
  {
    if a.Try? { assert MarksOf(Step(s, a).value, a.c) == Attempted(PhaseOf(s, a.c).attempt + 1); }
  }

  lemma StepKeepsHistories(s: Server, a: Action)
    requires HistoriesFit(s) && Step(s, a).Some?
    ensures HistoriesFit(Step(s, a).value)
  {
    var s' := Step(s, a).value;
    RetriesStay(s, a);
    forall c
      ensures HistoryFits(PhaseOf(s', c), MarksOf(s', c), s'.maxRetries)
    {
      assert HistoryFits(PhaseOf(s, c), MarksOf(s, c), s.maxRetries);
      if c == a.c { OwnHistoryFits(s, a); } else { OthersStay(s, a, c); }
    }
  }

  lemma {:induction false} TryFits(n: nat, marks: seq<Mark>, outcomes: seq<Attempt>, outcome: Attempt, maxRetries: nat)
    requires HistoryFits(Calling(n), marks, maxRetries) && AttemptsFit(Calling(n), marks, outcomes, maxRetries)
    ensures var p := if RetriesAfter(outcome, n, maxRetries) then Calling(n + 1) else Released(outcome.Success?);
            AttemptsFit(p, marks + [Tried], outcomes + [outcome], maxRetries)
  {
    AttemptedShape(n);
    var after := outcomes + [outcome];
    assert after[..|after| - 1] == outcomes;
  }

  lemma {:induction false} OwnAttemptsFit(s: Server, a: Action)
    requires Step(s, a).Some? && HistoryFits(PhaseOf(s, a.c), MarksOf(s, a.c), s.maxRetries)
    requires AttemptsFit(PhaseOf(s, a.c), MarksOf(s, a.c), AttemptsOf(s, a.c), s.maxRetries)
    ensures var s' := Step(s, a).value;
            AttemptsFit(PhaseOf(s', a.c), MarksOf(s', a.c), AttemptsOf(s', a.c), s.maxRetries)
  {
    if a.Try? {
      TryFits(PhaseOf(s, a.c).attempt, MarksOf(s, a.c), AttemptsOf(s, a.c), a.outcome, s.maxRetries);
    } else {
      assert AttemptsOf(Step(s, a).value, a.c) == AttemptsOf(s, a.c);
    }
  }

  lemma {:induction false} StepKeepsAttempts(s: Server, a: Action)
    requires AllAttemptsFit(s) && HistoriesFit(s) && Step(s, a).Some?
    ensures AllAttemptsFit(Step(s, a).value)
  {
    var s' := Step(s, a).value;
    RetriesStay(s, a);
    forall c
      ensures AttemptsFit(PhaseOf(s', c), MarksOf(s', c), AttemptsOf(s', c), s'.maxRetries)
    {
      assert AttemptsFit(PhaseOf(s, c), MarksOf(s, c), AttemptsOf(s, c), s.maxRetries);
      assert HistoryFits(PhaseOf(s, c), MarksOf(s, c), s.maxRetries);
      if c == a.c { OwnAttemptsFit(s, a); } else { OthersStay(s, a, c); }
    }
  }

  predicate HasFinished(p: Phase) {
    p.Done? && p.outcome.Finished?
  }

  /** What a step adds to the log of the breaker: nothing, or one event by its caller, which is an outcome exactly when
      the caller finishes. */
  lemma {:induction false} StepLogs(s: Server, a: Action) returns (added: seq<BreakerEvent>)
    requires Step(s, a).Some?
    ensures var s' := Step(s, a).value;
            && s'.breakerLog == s.breakerLog + added && |added| <= 1
            && s'.writers == s.writers + seq(|added|, _ => a.c)
            && !HasFinished(PhaseOf(s, a.c))
            && (HasFinished(PhaseOf(s', a.c)) <==> added != [] && Records(added[0]))
            && (added != [] && Records(added[0]) ==> PhaseOf(s', a.c) == Done(Finished(added[0].Succeeded?)))
  {
    var s' := Step(s, a).value;
    added := s'.breakerLog[|s.breakerLog|..];
  }

  /** A step that logs so keeps the log honest. */
  lemma {:induction false} StepKeepsLog(s: Server, a: Action)
    requires LogIsHonest(s) && Step(s, a).Some?
    ensures LogIsHonest(Step(s, a).value)
  {
    var added := StepLogs(s, a);
    forall c | c != a.c
      ensures PhaseOf(Step(s, a).value, c) == PhaseOf(s, c)
    {
      OthersStay(s, a, c);
    }
    LogStaysHonest(s, Step(s, a).value, a.c, added);
  }

  lemma {:induction false} LogStaysHonest(s: Server, s': Server, c: nat, added: seq<BreakerEvent>)
    requires LogIsHonest(s) && |added| <= 1
    requires s'.breakerLog == s.breakerLog + added && s'.writers == s.writers + seq(|added|, _ => c)
    requires !HasFinished(PhaseOf(s, c))
    requires HasFinished(PhaseOf(s', c)) <==> added != [] && Records(added[0])
    requires added != [] && Records(added[0]) ==> PhaseOf(s', c) == Done(Finished(added[0].Succeeded?))
    requires forall d :: d != c ==> PhaseOf(s', d) == PhaseOf(s, d)
    ensures LogIsHonest(s')
  {
    forall j | 0 <= j < |s'.breakerLog|
      ensures WrittenByFinished(s', j)
    {
      if j < |s.breakerLog| { assert WrittenByFinished(s, j); }
    }
    forall i, j | 0 <= i < j < |s'.breakerLog| && Records(s'.breakerLog[i]) && Records(s'.breakerLog[j])
      ensures s'.writers[i] != s'.writers[j]
    {
      assert WrittenByFinished(s, i);
    }
    forall d | HasFinished(PhaseOf(s', d))
      ensures HasRecorded(s', d)
    {
      if d == c {
        assert s'.writers[|s.writers|] == c;
      } else {
        var j :| 0 <= j < |s.writers| && s.writers[j] == d && Records(s.breakerLog[j]);
        assert s'.writers[j] == d && s'.breakerLog[j] == s.breakerLog[j];
      }
    }
  }

  /** What a step adds to the other logs. */
  lemma {:induction false} StepTraces(s: Server, a: Action, added: seq<BreakerEvent>) returns (passed: seq<nat>)
    requires Step(s, a).Some? && Step(s, a).value.breakerLog == s.breakerLog + added && |added| <= 1
    requires HistoryFits(PhaseOf(s, a.c), MarksOf(s, a.c), s.maxRetries)
    ensures var s', before, after := Step(s, a).value, MarksOf(s, a.c), MarksOf(Step(s, a).value, a.c);
            && s'.passers == s.passers + passed && |passed| <= 1 && |s'.admitted| == |s.admitted| + |passed|
            && (passed != [] ==> passed[0] == a.c && before == [])
            && (after != [] <==> before != [] || passed != [])
            && (|after| >= 3 <==> |before| >= 3 || (added != [] && added[0].Admitted?))
  {
    var s' := Step(s, a).value;
    if a.Try? { AttemptedShape(PhaseOf(s, a.c).attempt); }
    if added != [] { assert added[0] == s'.breakerLog[|s.breakerLog|]; }
    passed := s'.passers[|s.passers|..];
  }

  lemma {:induction false} StepKeepsTraces(s: Server, a: Action)
    requires TracesFit(s) && HistoriesFit(s) && Step(s, a).Some?
    ensures TracesFit(Step(s, a).value)
  {
    assert HistoryFits(PhaseOf(s, a.c), MarksOf(s, a.c), s.maxRetries);
    var added := StepLogs(s, a);
    var passed := StepTraces(s, a, added);
    forall c | c != a.c
      ensures MarksOf(Step(s, a).value, c) == MarksOf(s, c)
    {
      OthersStay(s, a, c);
    }
    TracesStayFit(s, Step(s, a).value, a.c, added, passed);
  }

  lemma {:induction false} TracesStayFit(s: Server, s': Server, c: nat, added: seq<BreakerEvent>, passed: seq<nat>)
    requires TracesFit(s) && |added| <= 1 && |passed| <= 1
    requires s'.breakerLog == s.breakerLog + added && s'.writers == s.writers + seq(|added|, _ => c)
    requires s'.passers == s.passers + passed && |s'.admitted| == |s.admitted| + |passed|
    requires passed != [] ==> passed[0] == c && MarksOf(s, c) == []
    requires MarksOf(s', c) != [] <==> MarksOf(s, c) != [] || passed != []
    requires |MarksOf(s', c)| >= 3 <==> |MarksOf(s, c)| >= 3 || (added != [] && added[0].Admitted?)
    requires forall d :: d != c ==> MarksOf(s', d) == MarksOf(s, d)
    ensures TracesFit(s')
  {
    forall d
      ensures |MarksOf(s', d)| >= 3 <==> WasAdmitted(s', d)
    {
      AdmittedAfter(s, s', c, added, d);
    }
  }

  lemma {:induction false} AdmittedAfter(s: Server, s': Server, c: nat, added: seq<BreakerEvent>, d: nat)
    requires |s.writers| == |s.breakerLog| && |added| <= 1
    requires s'.breakerLog == s.breakerLog + added && s'.writers == s.writers + seq(|added|, _ => c)
    ensures WasAdmitted(s', d) <==> WasAdmitted(s, d) || (d == c && added != [] && added[0].Admitted?)
  {
    if WasAdmitted(s, d) {
      var j :| 0 <= j < |s.writers| && s.writers[j] == d && s.breakerLog[j].Admitted?;
      assert s'.writers[j] == d && s'.breakerLog[j].Admitted?;
    } else if d == c && added != [] && added[0].Admitted? {
      assert s'.writers[|s.writers|] == d && s'.breakerLog[|s.writers|].Admitted?;
    }
  }

  lemma {:induction false} OwnAnswerFits(s: Server, a: Action)
    requires |s.writers| == |s.breakerLog| && GuardsHold(s) && Step(s, a).Some?
    ensures var s' := Step(s, a).value; |s'.writers| == |s'.breakerLog| && AnswerFits(s', a.c)
  {
    var s' := Step(s, a).value;
    if a.Limit? && PhaseOf(s', a.c).Done? { RetryDelay(s.limiter, a.at, a.at); }
    if a.Check? { assert s'.writers[|s.writers|] == a.c; }
  }

  lemma {:induction false} StepKeepsAnswers(s: Server, a: Action)
    requires AnswersFit(s) && GuardsHold(s) && Step(s, a).Some?
    ensures AnswersFit(Step(s, a).value)
  {
    var s' := Step(s, a).value;
    var added := StepLogs(s, a);
    OwnAnswerFits(s, a);
    forall c | c != a.c
      ensures AnswerFits(s', c)
    {
      OthersStay(s, a, c);
      assert AnswerFits(s, c);
      AnswerStays(s, s', c);
    }
  }

  lemma {:induction false} AnswerStays(s: Server, s': Server, c: nat)
    requires |s.writers| == |s.breakerLog| && |s'.writers| == |s'.breakerLog| && AnswerFits(s, c)
    requires s.writers <= s'.writers && s.breakerLog <= s'.breakerLog && PhaseOf(s', c) == PhaseOf(s, c)
    ensures AnswerFits(s', c)
  {
    var p := PhaseOf(s, c);
    if p.Done? && p.outcome.CircuitOpen? {
      var j :| 0 <= j < |s.writers| && s.writers[j] == c && s.breakerLog[j].Refused? &&
          s.breakerLog[j].retryAfter == p.outcome.secs;
      assert s'.writers[j] == c;
    }
  }

  lemma StepKeepsGuards(s: Server, a: Action)
    requires GuardsHold(s) && Step(s, a).Some?
    ensures GuardsHold(Step(s, a).value)
  {
    match a
    case Limit(_, at) =>
      if s.limiter.limit > 0 { ConsumeKeepsInv(s.limiter, s.admitted, s.clock, at); }
      if s.breaker.threshold > 0 { BreakerClock(s.breaker, s.breakerLog, s.clock, at); }
    case Check(_, at) =>
      if s.limiter.limit > 0 { LimiterClock(s.limiter, s.admitted, s.clock, at); }
      if s.breaker.threshold > 0 { CheckKeepsInv(s.breaker, s.breakerLog, s.clock, at); }
    case Record(c, at) =>
      if s.limiter.limit > 0 { LimiterClock(s.limiter, s.admitted, s.clock, at); }
      if s.breaker.threshold > 0 {
        if PhaseOf(s, c).ok {
          SuccessKeepsInv(s.breaker, s.breakerLog, s.clock, at);
        } else {
          FailureKeepsInv(s.breaker, s.breakerLog, s.clock, at);
        }
      }
    case _ =>
  }

  /** The invariant holds after every possible run, in every interleaving of the callers. */
  lemma {:induction false} RunKeepsInv(s: Server, actions: seq<Action>)
    requires ServerInv(s) && Run(s, actions).Some?
    ensures ServerInv(Run(s, actions).value)
    decreases |actions|
  {
    if actions != [] {
      StepKeepsGuards(s, actions[0]);
      StepKeepsPermits(s, actions[0]);
      StepKeepsHistories(s, actions[0]);
      StepKeepsAttempts(s, actions[0]);
      StepKeepsLog(s, actions[0]);
      StepKeepsTraces(s, actions[0]);
      StepKeepsAnswers(s, actions[0]);
      RunKeepsInv(Step(s, actions[0]).value, actions[1..]);
    }
  }

  lemma {:induction false} RunKeepsSettings(s: Server, actions: seq<Action>)
    requires Run(s, actions).Some?
    ensures var s' := Run(s, actions).value;
            && s'.limiter.limit == s.limiter.limit && s'.maxConcurrent == s.maxConcurrent
            && s'.breaker.threshold == s.breaker.threshold && s'.breaker.cooldown == s.breaker.cooldown
            && s'.maxRetries == s.maxRetries
    decreases |actions|
  {
    if actions != [] { RunKeepsSettings(Step(s, actions[0]).value, actions[1..]); }
  }

  // ----- main results -----

  /** The state after any run of a freshly connected server. */
  ghost predicate Reached(rateLimit: nat, maxConcurrent: nat, threshold: nat, cooldownSecs: nat,
                          maxRetries: nat, now: nat, actions: seq<Action>, s: Server)
  {
    && rateLimit <= U32_MAX && threshold <= U32_MAX
    && Run(NewServer(rateLimit, maxConcurrent, threshold, cooldownSecs, maxRetries, now), actions) == Some(s)
  }

  lemma ReachedInv(rateLimit: nat, maxConcurrent: nat, threshold: nat, cooldownSecs: nat,
                   maxRetries: nat, now: nat, actions: seq<Action>, s: Server)
    requires Reached(rateLimit, maxConcurrent, threshold, cooldownSecs, maxRetries, now, actions, s)
    ensures ServerInv(s)
    ensures s.limiter.limit == rateLimit && s.maxConcurrent == Max(maxConcurrent, 1)
    ensures s.breaker.threshold == threshold && s.breaker.cooldown == Max(cooldownSecs, 1) * NANOS_PER_SEC
    ensures s.maxRetries == maxRetries
  {
    var s0 := NewServer(rateLimit, maxConcurrent, threshold, cooldownSecs, maxRetries, now);
    if rateLimit > 0 { LimiterStart(rateLimit, now); }
    if threshold > 0 { BreakerStart(threshold, cooldownSecs, now); }
    assert PermitHolders(s0.callers) == {};
    RunKeepsInv(s0, actions);
    RunKeepsSettings(s0, actions);
  }

  /** Any half-open interval of sixty seconds sees at most twice the limit pass the rate limiter. */
  lemma SlidingBound(rateLimit: nat, maxConcurrent: nat, threshold: nat, cooldownSecs: nat,
                     maxRetries: nat, now: nat, actions: seq<Action>, s: Server, from: nat)
    requires Reached(rateLimit, maxConcurrent, threshold, cooldownSecs, maxRetries, now, actions, s)
    requires rateLimit > 0
    ensures CountIn(s.admitted, from) <= 2 * rateLimit
  {
    ReachedInv(rateLimit, maxConcurrent, threshold, cooldownSecs, maxRetries, now, actions, s);
    assert IntervalBound(s.limiter, s.admitted, from);
  }

  /** Breaker safety in every interleaving: after a trip no call is admitted inside the cooldown unless
      a success was recorded in between, and a trip happens exactly at the `threshold`-th failure in a row. */
  lemma BreakerSafety(rateLimit: nat, maxConcurrent: nat, threshold: nat, cooldownSecs: nat,
                      maxRetries: nat, now: nat, actions: seq<Action>, s: Server, i: nat, j: nat)
    requires Reached(rateLimit, maxConcurrent, threshold, cooldownSecs, maxRetries, now, actions, s)
    requires threshold > 0 && j < |s.breakerLog|
    ensures s.breaker.failures == FailuresInRow(s.breakerLog) < threshold
    ensures s.breakerLog[j].Failed? ==>
              (s.breakerLog[j].tripped <==> FailuresInRow(s.breakerLog[..j]) + 1 == threshold)
    ensures i < j && s.breakerLog[i].Failed? && s.breakerLog[i].tripped && s.breakerLog[j].Admitted?
            && s.breakerLog[j].at < s.breakerLog[i].at + Max(cooldownSecs, 1) * NANOS_PER_SEC ==>
              exists k :: i < k < j && s.breakerLog[k].Succeeded?
  {
    ReachedInv(rateLimit, maxConcurrent, threshold, cooldownSecs, maxRetries, now, actions, s);
    assert TripExact(threshold, s.breakerLog, j);
    if i < j {
      assert AdmissionSafe(s.breaker.cooldown, s.breakerLog, i, j);
      if SuccessAfter(s.breakerLog[..j], i) {
        var k :| i < k < j && s.breakerLog[..j][k].Succeeded?;
        assert s.breakerLog[k].Succeeded?;
      }
    }
  }

  /** The logs are complete: a call has passed the limiter exactly when it is in its log, once, and it has been let
      through by the breaker exactly when the breaker's log says so. */
  lemma {:induction false} LogsAreComplete(rateLimit: nat, maxConcurrent: nat, threshold: nat, cooldownSecs: nat,
                                           maxRetries: nat, now: nat, actions: seq<Action>, s: Server, c: nat)
    requires Reached(rateLimit, maxConcurrent, threshold, cooldownSecs, maxRetries, now, actions, s)
    ensures |s.passers| == |s.admitted| && |s.writers| == |s.breakerLog|
    ensures Passed in MarksOf(s, c) <==> c in s.passers
    ensures Cleared in MarksOf(s, c) <==> WasAdmitted(s, c)
    ensures AttemptsOf(s, c) != [] ==> WasAdmitted(s, c)
    ensures forall i, j :: 0 <= i < j < |s.passers| ==> s.passers[i] != s.passers[j]
  {
    ReachedInv(rateLimit, maxConcurrent, threshold, cooldownSecs, maxRetries, now, actions, s);
    assert HistoryFits(PhaseOf(s, c), MarksOf(s, c), s.maxRetries);
    assert AttemptsFit(PhaseOf(s, c), MarksOf(s, c), AttemptsOf(s, c), s.maxRetries);
    MarksInOrder(PhaseOf(s, c), MarksOf(s, c), s.maxRetries);
  }

  lemma {:induction false} MarksInOrder(p: Phase, marks: seq<Mark>, maxRetries: nat)
    requires HistoryFits(p, marks, maxRetries)
    ensures Passed in marks <==> marks != []
    ensures Cleared in marks <==> |marks| >= 3
  {
    if exists n: nat :: marks == Attempted(n) {
      var n: nat :| marks == Attempted(n);
      AttemptedShape(n);
      assert marks[0] == Passed && marks[2] == Cleared;
    }
  }

  /** The wait in an answer is between 1 and 60 seconds from the limiter, and what the breaker reported. */
  lemma {:induction false} AnswersMean(rateLimit: nat, maxConcurrent: nat, threshold: nat, cooldownSecs: nat,
                                       maxRetries: nat, now: nat, actions: seq<Action>, s: Server, c: nat, secs: nat)
    requires Reached(rateLimit, maxConcurrent, threshold, cooldownSecs, maxRetries, now, actions, s)
    ensures |s.writers| == |s.breakerLog|
    ensures PhaseOf(s, c) == Done(RateLimited(secs)) ==> 1 <= secs <= 60
    ensures PhaseOf(s, c) == Done(CircuitOpen(secs)) ==> RefusedWith(s, c, secs)
  {
    ReachedInv(rateLimit, maxConcurrent, threshold, cooldownSecs, maxRetries, now, actions, s);
    assert AnswerFits(s, c);
  }

  /** A check of the breaker is refused exactly inside the cooldown of an earlier trip without a success in between;
      the wait it reports is the rest of the cooldown in whole seconds, at least one. */
  lemma {:induction false} RefusedExactlyWhileOpen(rateLimit: nat, maxConcurrent: nat, threshold: nat,
                                                   cooldownSecs: nat,
                                                   maxRetries: nat, now: nat, actions: seq<Action>, s: Server, j: nat)
    requires Reached(rateLimit, maxConcurrent, threshold, cooldownSecs, maxRetries, now, actions, s)
    requires threshold > 0 && j < |s.breakerLog| && !Records(s.breakerLog[j])
    ensures var cooldown, e := Max(cooldownSecs, 1) * NANOS_PER_SEC, s.breakerLog[j];
            && (e.Refused? <==> exists i :: 0 <= i < j && StillOpen(cooldown, s.breakerLog[..j], i, e.at))
            && (e.Refused? ==> exists i :: 0 <= i < j && OpenFrom(cooldown, s.breakerLog[..j], i, e.at, e.retryAfter))
  {
    ReachedInv(rateLimit, maxConcurrent, threshold, cooldownSecs, maxRetries, now, actions, s);
    var log, cooldown := s.breakerLog, s.breaker.cooldown;
    if log[j].Refused? {
      assert RefusalMeans(cooldown, log, j);
      var i :| 0 <= i < j && OpenFrom(cooldown, log[..j], i, log[j].at, log[j].retryAfter);
      assert StillOpen(cooldown, log[..j], i, log[j].at);
    } else {
      forall i | 0 <= i < j
        ensures !StillOpen(cooldown, log[..j], i, log[j].at)
      {
        assert AdmissionSafe(cooldown, log, i, j);
      }
    }
  }

  /** The trip at `i` keeps the circuit open at `at`. */
  ghost predicate StillOpen(cooldown: nat, log: seq<BreakerEvent>, i: nat, at: nat)
    requires i < |log|
  {
    log[i].Failed? && log[i].tripped && at < log[i].at + cooldown && !SuccessAfter(log, i)
  }

  /** A caller finishes well exactly when its last attempt succeeded, all attempts before it having failed and been
      retried, as in `RetryLoop`. */
  lemma {:induction false} FinishedMeans(rateLimit: nat, maxConcurrent: nat, threshold: nat, cooldownSecs: nat,
                                         maxRetries: nat, now: nat, actions: seq<Action>, s: Server, c: nat, ok: bool)
    requires Reached(rateLimit, maxConcurrent, threshold, cooldownSecs, maxRetries, now, actions, s)
    requires PhaseOf(s, c) == Done(Finished(ok))
    ensures Ends(AttemptsOf(s, c), maxRetries)
    ensures ok <==> AttemptsOf(s, c)[|AttemptsOf(s, c)| - 1].Success?
    ensures |s.writers| == |s.breakerLog| && HasRecorded(s, c)
  {
    ReachedInv(rateLimit, maxConcurrent, threshold, cooldownSecs, maxRetries, now, actions, s);
    assert AttemptsFit(PhaseOf(s, c), MarksOf(s, c), AttemptsOf(s, c), s.maxRetries);
  }

  /** Every outcome in the breaker's log is that of the last attempt of the caller that logged it, and no caller
      logs two. */
  lemma {:induction false} RecordedMeans(rateLimit: nat, maxConcurrent: nat, threshold: nat, cooldownSecs: nat,
                                         maxRetries: nat, now: nat, actions: seq<Action>, s: Server, j: nat)
    requires Reached(rateLimit, maxConcurrent, threshold, cooldownSecs, maxRetries, now, actions, s)
    requires j < |s.breakerLog| && Records(s.breakerLog[j])
    ensures |s.writers| == |s.breakerLog|
    ensures var outcomes := AttemptsOf(s, s.writers[j]);
            Ends(outcomes, maxRetries) && (s.breakerLog[j].Succeeded? <==> outcomes[|outcomes| - 1].Success?)
    ensures forall i :: 0 <= i < |s.breakerLog| && i != j && Records(s.breakerLog[i]) ==> s.writers[i] != s.writers[j]
  {
    ReachedInv(rateLimit, maxConcurrent, threshold, cooldownSecs, maxRetries, now, actions, s);
    var c := s.writers[j];
    assert WrittenByFinished(s, j);
    assert AttemptsFit(PhaseOf(s, c), MarksOf(s, c), AttemptsOf(s, c), s.maxRetries);
    forall i | 0 <= i < |s.breakerLog| && i != j && Records(s.breakerLog[i])
      ensures s.writers[i] != s.writers[j]
    {
      assert WrittenByFinished(s, i);
    }
  }

  /** At most `maxConcurrent` callers hold a permit, and no permit is ever lost. Each caller passes the
      rate limiter, the bulkhead and the breaker in this order before its first attempt, and makes at
      most `maxRetries + 1` attempts. */
  lemma BulkheadAndOrder(rateLimit: nat, maxConcurrent: nat, threshold: nat, cooldownSecs: nat,
                         maxRetries: nat, now: nat, actions: seq<Action>, s: Server, c: nat)
    requires Reached(rateLimit, maxConcurrent, threshold, cooldownSecs, maxRetries, now, actions, s)
    ensures s.permits + |PermitHolders(s.callers)| == Max(maxConcurrent, 1)
    ensures MarksOf(s, c) <= [Passed, GotPermit, Cleared]
            || exists n :: 1 <= n <= maxRetries + 1 && MarksOf(s, c) == [Passed, GotPermit, Cleared] + Tries(n)
  {
    ReachedInv(rateLimit, maxConcurrent, threshold, cooldownSecs, maxRetries, now, actions, s);
    assert HistoryFits(PhaseOf(s, c), MarksOf(s, c), s.maxRetries);
    if exists n: nat :: n <= maxRetries + 1 && MarksOf(s, c) == Attempted(n) {
      var n: nat :| n <= maxRetries + 1 && MarksOf(s, c) == Attempted(n);
      AttemptedShape(n);
    }
  }

  function Tries(n: nat): seq<Mark> {
    seq(n, _ => Tried)
  }

  lemma {:induction false} AttemptedShape(n: nat)
    ensures Attempted(n) == [Passed, GotPermit, Cleared] + Tries(n)
  {
    if n > 0 {
      AttemptedShape(n - 1);
      assert Tries(n) == Tries(n - 1) + [Tried];
    }
  }
}
