/** Conservation of the retry metrics, and bounds on attempts and waiting, over every run. */
module CommandRetryAccounting {
  import opened Basics
  import opened RetryErrors
  import opened CommandRetry

  // ------------------------------------------------------------ what each call contributes

  predicate IsLateSuccess(c: Call) {
    c.event.Some? && c.pc.Ended? && c.pc.how.Returned? && StatsOf(c.log).starts > 1
  }

  /** Used up all attempts, the last of them failing in a retryable way. */
  predicate IsExhausted(max: int, c: Call) {
    && c.event.Some? && c.pc.Ended? && c.pc.how.Raised? && IsRetryable(c.pc.how.error)
    && StatsOf(c.log).starts == max
    && c.log != [] && c.log[|c.log| - 1] == Finished(Failure(c.pc.how.error))
  }

  /** The metrics a single call accounts for, read off its log and its ending. */
  function Share(max: int, c: Call): Metrics {
    var t := StatsOf(c.log);
    Metrics(t.waits, One(IsLateSuccess(c)), One(IsExhausted(max, c)), t.recoveryWaits, t.recoveryTimeouts, 0)
  }

  function Plus(m: Metrics, n: Metrics): Metrics {
    Metrics(m.totalRetries + n.totalRetries, m.successfulRetries + n.successfulRetries,
            m.exhaustedRetries + n.exhaustedRetries, m.recoveryWaits + n.recoveryWaits,
            m.recoveryWaitTimeouts + n.recoveryWaitTimeouts, m.cancelledRetries + n.cancelledRetries)
  }

  function Shares(max: int, cs: seq<Call>): seq<Metrics> {
    seq(|cs|, i requires 0 <= i < |cs| => Share(max, cs[i]))
  }

  function Total(ms: seq<Metrics>): Metrics {
    if ms == [] then ZERO_METRICS else Plus(Total(ms[..|ms| - 1]), ms[|ms| - 1])
  }

  lemma {:induction false} TotalUpdate(ms: seq<Metrics>, i: nat, m: Metrics)
    requires i < |ms|
    ensures Plus(Total(ms[i := m]), ms[i]) == Plus(Total(ms), m)
  {
    var n := |ms| - 1;
    if i != n {
      TotalUpdate(ms[..n], i, m);
    }
  }

  // ------------------------------------------------------------ the invariant

  predicate CallOk(max: int, c: Call) {
    var t := StatsOf(c.log);
    && t.starts >= 1
    && t.waits == t.starts - 1 + t.fruitless
    && t.recoveryTimeouts <= t.recoveryWaits <= t.waits
    && (c.event.None? ==> t.starts == 1 && t.waits == 0 && !c.pc.Sleeping? && !c.pc.AwaitingRecovery?)
    && (c.event.Some? ==> t.starts <= max && t.waits < max)
    && (c.pc.InOperation? ==> c.pc.attempt == t.starts && t.fruitless == 0)
    && (c.pc.Sleeping? || c.pc.AwaitingRecovery? ==> c.pc.attempt == t.starts < max && t.fruitless == 1)
    && (c.pc.AwaitingRecovery? ==> t.recoveryTimeouts < t.recoveryWaits)
  }

  ghost predicate Accounted(max: int, s: State) {
    && (forall i | 0 <= i < |s.calls| :: CallOk(max, s.calls[i]))
    && s.metrics.(cancelledRetries := 0) == Total(Shares(max, s.calls))
  }

  /** Call `c` becomes `d` while the metrics go from `m` to `n` by exactly the same amounts. */
  predicate Balanced(max: int, m: Metrics, n: Metrics, c: Call, d: Call) {
    && CallOk(max, d)
    && Plus(n, Share(max, c)) == Plus(m, Share(max, d))
  }

  lemma BalancedKeeps(max: int, s: State, t: State, c: nat)
    requires Accounted(max, s) && c < |s.calls| && TouchesOnly(s, t, c)
    requires Balanced(max, s.metrics, t.metrics, s.calls[c], t.calls[c])
    ensures Accounted(max, t)
  {
    assert Shares(max, t.calls) == Shares(max, s.calls)[c := Share(max, t.calls[c])];
    TotalUpdate(Shares(max, s.calls), c, Share(max, t.calls[c]));
  }

  /** A call that ends with its operation changes its share only in how it ended. */
  lemma EndBooked(max: int, c: Call, result: OpResult, d: Call)
    requires CallOk(max, c) && c.pc.InOperation? && d.event == c.event && d.log == c.log + [Finished(result)]
    requires d.pc == Ended(if result.Value? then Returned(result.v) else Raised(result.error))
    ensures CallOk(max, d)
    ensures Share(max, d) == Share(max, c).(
      successfulRetries := One(c.event.Some? && result.Value? && c.pc.attempt > 1),
      exhaustedRetries := One(c.event.Some? && result.Failure? && IsRetryable(result.error) && c.pc.attempt == max))
  {
    Snoc(c.log, Finished(result));
  }

  lemma ValueBalanced(cfg: Config, s: State, c: nat, v: int, jitter: real)
    requires c < |s.calls| && CallOk(cfg.maxAttempts, s.calls[c]) && s.calls[c].pc.InOperation?
    ensures var t := FinishOperation(cfg, s, c, Value(v), jitter);
            Balanced(cfg.maxAttempts, s.metrics, t.metrics, s.calls[c], t.calls[c])
  {
    EndBooked(cfg.maxAttempts, s.calls[c], Value(v), FinishOperation(cfg, s, c, Value(v), jitter).calls[c]);
  }

  lemma RaiseBalanced(cfg: Config, s: State, c: nat, e: Error, jitter: real)
    requires c < |s.calls| && CallOk(cfg.maxAttempts, s.calls[c]) && s.calls[c].pc.InOperation?
    requires s.calls[c].event.None? || !IsRetryable(e) || s.calls[c].pc.attempt >= cfg.maxAttempts
    ensures var t := FinishOperation(cfg, s, c, Failure(e), jitter);
            Balanced(cfg.maxAttempts, s.metrics, t.metrics, s.calls[c], t.calls[c])
  {
    EndBooked(cfg.maxAttempts, s.calls[c], Failure(e), FinishOperation(cfg, s, c, Failure(e), jitter).calls[c]);
  }

  lemma WaitBooked(max: int, m: Metrics, c: Call, result: OpResult, wait: Event, d: Call)
    requires CallOk(max, c) && c.pc.InOperation? && c.event.Some? && c.pc.attempt < max
    requires d.log == c.log + [Finished(result)] + [wait] && d.event == c.event
    requires wait.SleepBegan? ==> d.pc == Sleeping(c.pc.attempt) || d.pc == Ended(SupersededError)
    requires !wait.SleepBegan? ==> wait.RecoveryBegan? && d.pc.AwaitingRecovery? && d.pc.attempt == c.pc.attempt
    ensures Balanced(max, m, m.(totalRetries := m.totalRetries + 1,
                                recoveryWaits := m.recoveryWaits + One(wait.RecoveryBegan?)), c, d)
  {
    Snoc(c.log, Finished(result));
  }

  lemma WaitBalanced(cfg: Config, s: State, c: nat, e: Error, jitter: real)
    requires c < |s.calls| && CallOk(cfg.maxAttempts, s.calls[c]) && s.calls[c].pc.InOperation?
    requires s.calls[c].event.Some? && IsRetryable(e) && s.calls[c].pc.attempt < cfg.maxAttempts
    ensures var t := FinishOperation(cfg, s, c, Failure(e), jitter);
            Balanced(cfg.maxAttempts, s.metrics, t.metrics, s.calls[c], t.calls[c])
  {
    var wait := if e.cls == NoConnection then RecoveryBegan(cfg.recoveryWait)
                else SleepBegan(Delay(cfg, s.calls[c].pc.attempt, e, jitter));
    WaitBooked(cfg.maxAttempts, s.metrics, s.calls[c], Failure(e), wait,
               FinishOperation(cfg, s, c, Failure(e), jitter).calls[c]);
  }

  lemma TimeoutBooked(max: int, m: Metrics, c: Call, d: Call)
    requires CallOk(max, c) && c.pc.AwaitingRecovery? && d.event == c.event
    requires d.log == c.log + [RecoveryTimedOut] && d.pc == Ended(Raised(c.pc.error))
    ensures Balanced(max, m, m.(recoveryWaitTimeouts := m.recoveryWaitTimeouts + 1), c, d)
  {
  }

  lemma AbandonBalanced(max: int, s: State, c: nat, how: Ending)
    requires c < |s.calls| && CallOk(max, s.calls[c]) && (s.calls[c].pc.Sleeping? || s.calls[c].pc.AwaitingRecovery?)
    requires how == SupersededError || how == TaskCancelled
    ensures Balanced(max, s.metrics, End(s, c, how).metrics, s.calls[c], End(s, c, how).calls[c])
  {
  }

  lemma RecoveryWaitOverBalanced(max: int, s: State, c: nat)
    requires c < |s.calls| && CallOk(max, s.calls[c]) && s.calls[c].pc.AwaitingRecovery?
    ensures var t := EndRecoveryWait(s, c);
            Balanced(max, s.metrics, t.metrics, s.calls[c], t.calls[c])
  {
    if Cancelled(s, s.calls[c]) {
      AbandonBalanced(max, s, c, SupersededError);
    } else if s.calls[c].pc.recovered {
      NextBalanced(max, s, c);
    } else {
      TimeoutBooked(max, s.metrics, s.calls[c], EndRecoveryWait(s, c).calls[c]);
    }
  }

  lemma NextBalanced(max: int, s: State, c: nat)
    requires c < |s.calls| && CallOk(max, s.calls[c]) && (s.calls[c].pc.Sleeping? || s.calls[c].pc.AwaitingRecovery?)
    ensures var t := NextAttempt(s, c, s.calls[c].pc.attempt + 1);
            Balanced(max, s.metrics, t.metrics, s.calls[c], t.calls[c])
  {
    Snoc(s.calls[c].log, Started);
  }

  lemma NewCallAccounted(max: int, s: State, t: State, c: Call)
    requires Accounted(max, s) && t.calls == s.calls + [c] && CallOk(max, c) && Share(max, c) == ZERO_METRICS
    requires t.metrics.(cancelledRetries := 0) == s.metrics.(cancelledRetries := 0)
    ensures Accounted(max, t)
  {
    assert Shares(max, t.calls) == Shares(max, s.calls) + [Share(max, c)];
  }

  lemma BeginAccounted(cfg: Config, s: State, key: DataPointKey, retry: bool)
    requires Accounted(cfg.maxAttempts, s)
    ensures Accounted(cfg.maxAttempts, BeginCall(cfg, s, key, retry))
  {
    var t := BeginCall(cfg, s, key, retry);
    NewCallAccounted(cfg.maxAttempts, s, t, t.calls[|s.calls|]);
  }

  lemma RecoveryAccounted(cfg: Config, s: State, interfaceId: Option<string>)
    requires Accounted(cfg.maxAttempts, s)
    ensures Accounted(cfg.maxAttempts, DeliverRecovery(cfg, s, interfaceId))
  {
    var t := DeliverRecovery(cfg, s, interfaceId);
    forall i | 0 <= i < |s.calls|
      ensures Share(cfg.maxAttempts, s.calls[i]) == Share(cfg.maxAttempts, t.calls[i])
      ensures CallOk(cfg.maxAttempts, t.calls[i])
    {
    }
    assert Shares(cfg.maxAttempts, t.calls) == Shares(cfg.maxAttempts, s.calls);
  }

  lemma FinishAccounted(cfg: Config, s: State, c: nat, result: OpResult, jitter: real)
    requires Accounted(cfg.maxAttempts, s) && c < |s.calls| && s.calls[c].pc.InOperation?
    ensures Accounted(cfg.maxAttempts, FinishOperation(cfg, s, c, result, jitter))
  {
    match result {
      case Value(v) => ValueBalanced(cfg, s, c, v, jitter);
      case Failure(e) =>
        if s.calls[c].event.None? || !IsRetryable(e) || s.calls[c].pc.attempt >= cfg.maxAttempts {
          RaiseBalanced(cfg, s, c, e, jitter);
        } else {
          WaitBalanced(cfg, s, c, e, jitter);
        }
    }
    BalancedKeeps(cfg.maxAttempts, s, FinishOperation(cfg, s, c, result, jitter), c);
  }

  lemma AbandonAccounted(max: int, s: State, c: nat, how: Ending)
    requires Accounted(max, s) && c < |s.calls| && (s.calls[c].pc.Sleeping? || s.calls[c].pc.AwaitingRecovery?)
    requires how == SupersededError || how == TaskCancelled
    ensures Accounted(max, End(s, c, how))
  {
    AbandonBalanced(max, s, c, how);
    BalancedKeeps(max, s, End(s, c, how), c);
  }

  lemma StepAccounted(cfg: Config, s: State, a: Action)
    requires Accounted(cfg.maxAttempts, s) && Enabled(s, a)
    ensures Accounted(cfg.maxAttempts, Step(cfg, s, a))
  {
    var max := cfg.maxAttempts;
    match a
    case Begin(key, retry) => BeginAccounted(cfg, s, key, retry);
    case OperationDone(c, result, jitter) => FinishAccounted(cfg, s, c, result, jitter);
    case DelayElapsed(c) =>
      NextBalanced(max, s, c);
      BalancedKeeps(max, s, Step(cfg, s, a), c);
    case DelayInterrupted(c) => AbandonAccounted(max, s, c, SupersededError);
    case RecoveryWaitOver(c) =>
      RecoveryWaitOverBalanced(max, s, c);
      BalancedKeeps(max, s, Step(cfg, s, a), c);
    case RecoveryCompleted(i) => RecoveryAccounted(cfg, s, i);
    case CancelTask(c) => AbandonAccounted(max, s, c, TaskCancelled);
    case _ =>
  }

  lemma {:induction false} ExecAccounted(cfg: Config, s: State, acts: seq<Action>)
    requires Accounted(cfg.maxAttempts, s) && Runs(cfg, s, acts)
    ensures Accounted(cfg.maxAttempts, Exec(cfg, s, acts))
    decreases |acts|
  {
    if acts != [] {
      StepAccounted(cfg, s, acts[0]);
      ExecAccounted(cfg, Step(cfg, s, acts[0]), acts[1..]);
    }
  }

  // ------------------------------------------------------------ conservation of retries

  /** Operation starts beyond each call's first. */
  function Restarts(cs: seq<Call>): int {
    if cs == [] then 0 else Restarts(cs[..|cs| - 1]) + StatsOf(cs[|cs| - 1].log).starts - 1
  }

  /** Waits that led to no further start. */
  function FruitlessWaits(cs: seq<Call>): nat {
    if cs == [] then 0 else FruitlessWaits(cs[..|cs| - 1]) + StatsOf(cs[|cs| - 1].log).fruitless
  }

  lemma {:induction false} TotalSplits(max: int, cs: seq<Call>)
    requires forall i | 0 <= i < |cs| :: CallOk(max, cs[i])
    ensures var m := Total(Shares(max, cs));
            && m.totalRetries == Restarts(cs) + FruitlessWaits(cs)
            && m.recoveryWaitTimeouts <= m.recoveryWaits <= m.totalRetries
  {
    if cs != [] {
      assert Shares(max, cs)[..|cs| - 1] == Shares(max, cs[..|cs| - 1]);
      TotalSplits(max, cs[..|cs| - 1]);
    }
  }

  /** Attempts and retries are conserved: no call starts its operation more than max_attempts
      times; total_retries is the starts beyond each call's first plus the waits that led to no
      further start; timeouts, recovery waits and retries are ordered; and every counter equals
      the sum of the calls' shares, so success and exhaustion count exactly the calls that
      ended that way. */
  lemma RetriesAreConserved(cfg: Config, acts: seq<Action>)
    requires Runs(cfg, INITIAL, acts)
    ensures
      var s := Exec(cfg, INITIAL, acts);
      && (forall i | 0 <= i < |s.calls| ::
            1 <= StatsOf(s.calls[i].log).starts <= (if s.calls[i].event.Some? then cfg.maxAttempts else 1))
      && s.metrics.totalRetries == Restarts(s.calls) + FruitlessWaits(s.calls)
      && s.metrics.recoveryWaitTimeouts <= s.metrics.recoveryWaits <= s.metrics.totalRetries
      && s.metrics.(cancelledRetries := 0) == Total(Shares(cfg.maxAttempts, s.calls))
  {
    ExecAccounted(cfg, INITIAL, acts);
    var s := Exec(cfg, INITIAL, acts);
    TotalSplits(cfg.maxAttempts, s.calls);
    forall i | 0 <= i < |s.calls|
      ensures 1 <= StatsOf(s.calls[i].log).starts <= (if s.calls[i].event.Some? then cfg.maxAttempts else 1)
    {
    }
  }

  // ------------------------------------------------------------ cancellations

  predicate SupersedesOne(cfg: Config, s: State, a: Action) {
    a.Begin? && a.retry && cfg.maxAttempts > 0 && a.key in s.active
  }

  /** How many of the calls begun in a run superseded an older one. */
  function Supersedes(cfg: Config, s: State, acts: seq<Action>): nat
    requires Runs(cfg, s, acts)
    decreases |acts|
  {
    if acts == [] then 0
    else One(SupersedesOne(cfg, s, acts[0])) + Supersedes(cfg, Step(cfg, s, acts[0]), acts[1..])
  }

  /** The sum of the counts returned by all cancel methods called in a run. */
  function ReturnedCounts(cfg: Config, s: State, acts: seq<Action>): nat
    requires Runs(cfg, s, acts)
    decreases |acts|
  {
    if acts == [] then 0
    else |Targets(s, acts[0])| + ReturnedCounts(cfg, Step(cfg, s, acts[0]), acts[1..])
  }

  lemma StepCancels(cfg: Config, s: State, a: Action)
    requires Enabled(s, a)
    ensures Step(cfg, s, a).metrics.cancelledRetries ==
            s.metrics.cancelledRetries + One(SupersedesOne(cfg, s, a)) + |Targets(s, a)|
  {
  }

  /** cancelled_retries grows by the supersedes of the run plus the counts its cancels returned. */
  lemma {:induction false} CancellationsAreConserved(cfg: Config, s: State, acts: seq<Action>)
    requires Runs(cfg, s, acts)
    ensures Exec(cfg, s, acts).metrics.cancelledRetries ==
            s.metrics.cancelledRetries + Supersedes(cfg, s, acts) + ReturnedCounts(cfg, s, acts)
    decreases |acts|
  {
    if acts != [] {
      StepCancels(cfg, s, acts[0]);
      CancellationsAreConserved(cfg, Step(cfg, s, acts[0]), acts[1..]);
    }
  }

  // ------------------------------------------------------------ waiting time

  predicate SaneDelays(cfg: Config) {
    && cfg.baseDelay >= 0.0 && cfg.maxDelay >= 0.0 && cfg.backoff >= 1.0
    && cfg.dutyCycleDelay >= 0.0 && cfg.pendingDelay >= 0.0 && cfg.recoveryWait >= 0.0
  }

  /** The longest single wait a call can ask for. */
  function LongestWait(cfg: Config): real {
    Max(Max(1.2 * cfg.maxDelay, cfg.dutyCycleDelay), Max(cfg.pendingDelay, cfg.recoveryWait))
  }

  lemma {:induction false} PowerIsPositive(b: real, n: nat)
    requires b >= 1.0
    ensures Power(b, n) > 0.0
  {
    if n > 0 { PowerIsPositive(b, n - 1); }
  }

  lemma PowerGrows(a: real, b: real, n: nat)
    requires a >= 0.0 && b >= 1.0
    ensures 0.0 <= a * Power(b, n) <= a * Power(b, n + 1)
  {
    var p := Power(b, n);
    PowerIsPositive(b, n);
  }

  lemma BackoffStep(cfg: Config, attempt: pos)
    requires SaneDelays(cfg)
    ensures 0.0 <= Backoff(cfg, attempt) <= Backoff(cfg, attempt + 1) <= cfg.maxDelay
  {
    PowerGrows(cfg.baseDelay, cfg.backoff, attempt - 1);
  }

  /** Exponential backoff: the first delay is the base delay, every further one the backoff factor
      times the one before, and none exceeds the cap. */
  lemma BackoffIsExponential(cfg: Config, attempt: pos)
    requires SaneDelays(cfg)
    ensures Backoff(cfg, 1) == if cfg.baseDelay <= cfg.maxDelay then cfg.baseDelay else cfg.maxDelay
    ensures var next := cfg.backoff * Backoff(cfg, attempt);
            Backoff(cfg, attempt + 1) == if next <= cfg.maxDelay then next else cfg.maxDelay
  {
    assert Power(cfg.backoff, 0) == 1.0;
    NextBackoff(cfg, attempt);
  }

  lemma NextBackoff(cfg: Config, attempt: pos)
    requires cfg.backoff >= 1.0 && cfg.maxDelay >= 0.0
    ensures Backoff(cfg, attempt + 1) == Min(cfg.backoff * Backoff(cfg, attempt), cfg.maxDelay)
  {
    var f, p := cfg.backoff, Power(cfg.backoff, attempt - 1);
    CappedStep(f, cfg.baseDelay, p, cfg.maxDelay);
    assert Power(f, attempt) == f * p;
    assert Backoff(cfg, attempt) == Min(cfg.baseDelay * p, cfg.maxDelay);
    assert Backoff(cfg, attempt + 1) == Min(cfg.baseDelay * (f * p), cfg.maxDelay);
  }

  lemma CappedStep(f: real, base: real, p: real, cap: real)
    requires f >= 1.0 && cap >= 0.0
    ensures Min(base * (f * p), cap) == Min(f * Min(base * p, cap), cap)
  {
    Regroup(f, base, p);
    if base * p > cap { Scaled(f, cap, base * p); }
  }

  lemma Regroup(f: real, base: real, p: real)
    ensures base * (f * p) == f * (base * p)
  {
  }

  lemma Scaled(f: real, low: real, high: real)
    requires f >= 1.0 && 0.0 <= low < high
    ensures low <= f * low < f * high
  {
    assert f * low == low + (f - 1.0) * low;
    assert f * high == f * low + f * (high - low);
  }

  /** Backoff before jitter never decreases with the attempt and never exceeds the cap. */
  lemma BackoffIsMonotone(cfg: Config, attempt: pos, later: pos)
    requires SaneDelays(cfg) && attempt <= later
    ensures 0.0 <= Backoff(cfg, attempt) <= Backoff(cfg, later) <= cfg.maxDelay
  {
    BackoffStep(cfg, attempt);
    for k := attempt to later
      invariant Backoff(cfg, attempt) <= Backoff(cfg, k) <= cfg.maxDelay
    {
      BackoffStep(cfg, k);
    }
  }

  lemma JitterIsSmall(d: real, j: real)
    requires d >= 0.0 && JitterInRange(j)
    ensures 0.0 <= 0.8 * d <= Jittered(d, j) <= 1.2 * d && Jittered(d, j) == d * (1.0 + j)
  {
  }

  /** Jitter moves the backoff by at most a fifth; the two fixed delays ignore it; no delay is
      negative or longer than the longest wait. */
  lemma {:induction false} DelayIsBounded(cfg: Config, attempt: pos, e: Error, jitter: real)
    requires SaneDelays(cfg) && JitterInRange(jitter)
    ensures 0.0 <= Delay(cfg, attempt, e, jitter) <= LongestWait(cfg)
    ensures FaultCode(e) == Some(FAULT_DUTY_CYCLE) || FaultCode(e) == Some(FAULT_TRANSMISSION_PENDING)
            || (&& 0.8 * Backoff(cfg, attempt) <= Delay(cfg, attempt, e, jitter) <= 1.2 * Backoff(cfg, attempt)
                && Delay(cfg, attempt, e, jitter) == Backoff(cfg, attempt) * (1.0 + jitter))
  {
    BackoffIsMonotone(cfg, attempt, attempt);
    JitterIsSmall(Backoff(cfg, attempt), jitter);
  }

  /** n * b, as a sum. */
  function Times(n: nat, b: real): real { if n == 0 then 0.0 else Times(n - 1, b) + b }

  lemma {:induction false} TimesGrows(m: nat, n: nat, b: real)
    requires m <= n && b >= 0.0
    ensures Times(m, b) <= Times(n, b)
  {
    if m < n { TimesGrows(m, n - 1, b); }
  }

  lemma {:induction false} TimesIsProduct(n: nat, b: real)
    ensures Times(n, b) == n as real * b
  {
    if n > 0 {
      TimesIsProduct(n - 1, b);
    }
  }

  predicate WaitsBounded(cfg: Config, log: seq<Event>) {
    Waited(log) <= Times(StatsOf(log).waits, LongestWait(cfg))
  }

  lemma WaitSnoc(cfg: Config, log: seq<Event>, e: Event)
    requires WaitsBounded(cfg, log)
    requires e.SleepBegan? || e.RecoveryBegan? ==> e.seconds <= LongestWait(cfg)
    ensures WaitsBounded(cfg, log + [e])
  {
  }

  /** The log of a call that has finished its operation, and perhaps begun to wait. */
  lemma FinishedLog(cfg: Config, s: State, c: nat, result: OpResult, jitter: real)
    requires c < |s.calls| && s.calls[c].pc.InOperation?
    ensures
      var log, after := s.calls[c].log + [Finished(result)], FinishOperation(cfg, s, c, result, jitter).calls[c].log;
      || after == log || after == log + [RecoveryBegan(cfg.recoveryWait)]
      || (result.Failure? && after == log + [SleepBegan(Delay(cfg, s.calls[c].pc.attempt, result.error, jitter))])
  {
  }

  lemma FinishBounded(cfg: Config, s: State, c: nat, result: OpResult, jitter: real)
    requires SaneDelays(cfg) && JitterInRange(jitter)
    requires c < |s.calls| && s.calls[c].pc.InOperation? && WaitsBounded(cfg, s.calls[c].log)
    ensures WaitsBounded(cfg, FinishOperation(cfg, s, c, result, jitter).calls[c].log)
  {
    var log, attempt := s.calls[c].log + [Finished(result)], s.calls[c].pc.attempt;
    FinishedLog(cfg, s, c, result, jitter);
    WaitSnoc(cfg, s.calls[c].log, Finished(result));
    WaitSnoc(cfg, log, RecoveryBegan(cfg.recoveryWait));
    if result.Failure? {
      DelayIsBounded(cfg, attempt, result.error, jitter);
      WaitSnoc(cfg, log, SleepBegan(Delay(cfg, attempt, result.error, jitter)));
    }
  }

  ghost predicate AllBounded(cfg: Config, s: State) {
    forall i | 0 <= i < |s.calls| :: WaitsBounded(cfg, s.calls[i].log)
  }

  lemma NextBounded(cfg: Config, s: State, c: nat, attempt: pos)
    requires c < |s.calls| && WaitsBounded(cfg, s.calls[c].log)
    ensures WaitsBounded(cfg, NextAttempt(s, c, attempt).calls[c].log)
  {
    WaitSnoc(cfg, s.calls[c].log, Started);
  }

  lemma RecoveryBounded(cfg: Config, s: State, c: nat)
    requires c < |s.calls| && s.calls[c].pc.AwaitingRecovery? && WaitsBounded(cfg, s.calls[c].log)
    ensures WaitsBounded(cfg, EndRecoveryWait(s, c).calls[c].log)
  {
    NextBounded(cfg, s, c, s.calls[c].pc.attempt + 1);
    WaitSnoc(cfg, s.calls[c].log, RecoveryTimedOut);
  }

  lemma TouchBounded(cfg: Config, s: State, t: State, c: nat)
    requires AllBounded(cfg, s) && c < |s.calls| && TouchesOnly(s, t, c) && WaitsBounded(cfg, t.calls[c].log)
    ensures AllBounded(cfg, t)
  {
  }

  lemma BeginBounded(cfg: Config, s: State, key: DataPointKey, retry: bool)
    requires AllBounded(cfg, s)
    ensures AllBounded(cfg, BeginCall(cfg, s, key, retry))
  {
    WaitSnoc(cfg, [], Started);
    assert [] + [Started] == [Started];
  }

  lemma {:induction false} StepBounded(cfg: Config, s: State, a: Action)
    requires SaneDelays(cfg) && Enabled(s, a) && AllBounded(cfg, s)
    ensures AllBounded(cfg, Step(cfg, s, a))
  {
    match a
    case Begin(key, retry) => BeginBounded(cfg, s, key, retry);
    case OperationDone(c, result, jitter) =>
      FinishBounded(cfg, s, c, result, jitter);
      TouchBounded(cfg, s, Step(cfg, s, a), c);
    case DelayElapsed(c) =>
      NextBounded(cfg, s, c, s.calls[c].pc.attempt + 1);
      TouchBounded(cfg, s, Step(cfg, s, a), c);
    case RecoveryWaitOver(c) =>
      RecoveryBounded(cfg, s, c);
      TouchBounded(cfg, s, Step(cfg, s, a), c);
    case _ =>
  }

  lemma {:induction false} ExecBounded(cfg: Config, s: State, acts: seq<Action>)
    requires SaneDelays(cfg) && Runs(cfg, s, acts) && AllBounded(cfg, s)
    ensures AllBounded(cfg, Exec(cfg, s, acts))
    decreases |acts|
  {
    if acts != [] {
      StepBounded(cfg, s, acts[0]);
      ExecBounded(cfg, Step(cfg, s, acts[0]), acts[1..]);
    }
  }

  lemma AtMost(waited: real, waits: nat, n: nat, b: real)
    requires waited <= Times(waits, b) && waits <= n && b >= 0.0
    ensures waited <= n as real * b
  {
    TimesGrows(waits, n, b);
    TimesIsProduct(n, b);
  }

  /** At most max_attempts - 1 times the longest wait, and no wait at all for a call that bypasses
      the retry logic. */
  predicate WithinBound(max: int, longest: real, c: Call) {
    && (c.event.Some? ==> max >= 1 && Waited(c.log) <= (max - 1) as real * longest)
    && (c.event.None? ==> Waited(c.log) <= 0.0)
  }

  lemma CallBounded(max: int, longest: real, c: Call)
    requires longest >= 0.0 && CallOk(max, c) && Waited(c.log) <= Times(StatsOf(c.log).waits, longest)
    ensures WithinBound(max, longest, c)
  {
    if c.event.Some? {
      AtMost(Waited(c.log), StatsOf(c.log).waits, max - 1, longest);
    }
  }

  lemma LongestWaitIsNoDebt(cfg: Config)
    requires SaneDelays(cfg)
    ensures LongestWait(cfg) >= 0.0
  {
  }

  /** In every run the total waiting any call has asked for is within that bound. */
  lemma {:induction false} TotalWaitingIsBounded(cfg: Config, acts: seq<Action>, i: nat)
    requires SaneDelays(cfg) && Runs(cfg, INITIAL, acts) && i < |Exec(cfg, INITIAL, acts).calls|
    ensures WithinBound(cfg.maxAttempts, LongestWait(cfg), Exec(cfg, INITIAL, acts).calls[i])
  {
    ExecAccounted(cfg, INITIAL, acts);
    ExecBounded(cfg, INITIAL, acts);
    LongestWaitIsNoDebt(cfg);
    CallBounded(cfg.maxAttempts, LongestWait(cfg), Exec(cfg, INITIAL, acts).calls[i]);
  }
}
