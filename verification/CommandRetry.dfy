/**
  The command retry protocol as a transition system.

  Every live `execute_with_retry` is a small program counter (`Pc`); it can be interleaved
  with anything else exactly where the coroutine awaits: inside the operation, inside the
  interruptible sleep and inside the recovery wait.  An `Action` is one uninterrupted stretch
  between two awaits, or one call of a synchronous cancel method, or one event-bus delivery.
  asyncio.Event objects are numbered in order of creation; `fired` holds the ones that are set.
 */
module CommandRetry {
  import opened Basics
  import opened RetryErrors

  datatype DataPointKey = DataPointKey(interfaceId: string, channelAddress: string,
                                       paramsetKey: string, parameter: string)

  datatype Config = Config(interfaceId: string, maxAttempts: int,
                           baseDelay: real, maxDelay: real, backoff: real,
                           dutyCycleDelay: real, pendingDelay: real, recoveryWait: real)

  /** Attempt numbers start at 1. */
  type pos = n: nat | n >= 1 witness 1

  datatype OpResult = Value(v: int) | Failure(error: Error)

  /** How a call leaves `execute_with_retry`: by return, by an exception of its operation,
      by CommandSupersededError, or because its coroutine was cancelled from outside. */
  datatype Ending = Returned(v: int) | Raised(error: Error) | SupersededError | TaskCancelled

  datatype Pc =
    | InOperation(attempt: pos)
    | Sleeping(attempt: pos)
    | AwaitingRecovery(attempt: pos, error: Error, recovered: bool)
    | Ended(how: Ending)

  /** What an observer of one call sees, in order. */
  datatype Event =
    | Started
    | Finished(result: OpResult)
    | SleepBegan(seconds: real)
    | RecoveryBegan(seconds: real)
    | RecoveryTimedOut

  /** `event` is None for a call that bypasses the retry logic. */
  datatype Call = Call(key: DataPointKey, event: Option<nat>, pc: Pc, log: seq<Event>)

  datatype Metrics = Metrics(totalRetries: nat, successfulRetries: nat, exhaustedRetries: nat,
                             recoveryWaits: nat, recoveryWaitTimeouts: nat, cancelledRetries: nat)

  /** `owner` is a history variable: the call that created each event. */
  datatype State = State(active: map<DataPointKey, nat>, fired: set<nat>, owner: seq<nat>,
                         calls: seq<Call>, metrics: Metrics)

  const ZERO_METRICS := Metrics(0, 0, 0, 0, 0, 0)
  const INITIAL := State(map[], {}, [], [], ZERO_METRICS)

  datatype Action =
    | Begin(key: DataPointKey, retry: bool)
    | OperationDone(c: nat, result: OpResult, jitter: real)
    | DelayElapsed(c: nat)
    | DelayInterrupted(c: nat)
    | RecoveryWaitOver(c: nat)
    | RecoveryCompleted(interfaceId: Option<string>)
    | CancelTask(c: nat)
    | CancelKey(key: DataPointKey)
    | CancelDevice(deviceAddress: string)
    | CancelInterface

  // ---------------------------------------------------------------- delays

  function Power(b: real, n: nat): real {
    if n == 0 then 1.0 else b * Power(b, n - 1)
  }

  function Min(a: real, b: real): real { if a <= b then a else b }
  function Max(a: real, b: real): real { if a >= b then a else b }

  /** Exponential backoff before jitter. */
  function Backoff(cfg: Config, attempt: pos): real
  {
    Min(cfg.baseDelay * Power(cfg.backoff, attempt - 1), cfg.maxDelay)
  }

  /** `jitter` is the value drawn by random.uniform. */
  function Delay(cfg: Config, attempt: pos, e: Error, jitter: real): real
  {
    if FaultCode(e) == Some(FAULT_DUTY_CYCLE) then cfg.dutyCycleDelay
    else if FaultCode(e) == Some(FAULT_TRANSMISSION_PENDING) then cfg.pendingDelay
    else Jittered(Backoff(cfg, attempt), jitter)
  }

  function Jittered(d: real, jitter: real): real {
    Max(0.0, d + d * jitter)
  }

  predicate JitterInRange(j: real) { -0.2 <= j <= 0.2 }

  // ---------------------------------------------------------------- steps

  predicate Live(c: Call) { c.event.Some? && !c.pc.Ended? }

  predicate Cancelled(s: State, c: Call) { c.event.Some? && c.event.value in s.fired }

  /** `t` differs from `s` at most in call `c`, in registrations and in metrics; the call
      keeps its key and its event, and no event is set or cleared. */
  ghost predicate TouchesOnly(s: State, t: State, c: nat)
    requires c < |s.calls|
  {
    && |t.calls| == |s.calls|
    && (forall i | 0 <= i < |s.calls| && i != c :: t.calls[i] == s.calls[i])
    && t.calls[c].key == s.calls[c].key && t.calls[c].event == s.calls[c].event
    && t.fired == s.fired && t.owner == s.owner
  }

  function SetCall(s: State, c: nat, call: Call): State
    requires c < |s.calls|
  {
    s.(calls := s.calls[c := call])
  }

  /** The `finally` block: deregister only if this call's event is still the registered one. */
  function Deregister(s: State, call: Call): State {
    if call.event.Some? && call.key in s.active && s.active[call.key] == call.event.value
    then s.(active := s.active - {call.key}) else s
  }

  function End(s: State, c: nat, how: Ending): (t: State)
    requires c < |s.calls|
    ensures TouchesOnly(s, t, c)
  {
    SetCall(Deregister(s, s.calls[c]), c, s.calls[c].(pc := Ended(how)))
  }

  /** The head of the attempt loop: check the event, then start the next operation. */
  function NextAttempt(s: State, c: nat, attempt: pos): (t: State)
    requires c < |s.calls|
    ensures TouchesOnly(s, t, c)
  {
    if Cancelled(s, s.calls[c]) then End(s, c, SupersededError)
    else SetCall(s, c, s.calls[c].(pc := InOperation(attempt), log := s.calls[c].log + [Started]))
  }

  function Register(s: State, key: DataPointKey): State {
    var event := |s.owner|;
    var superseding := key in s.active;
    s.(active := s.active[key := event],
       fired := if superseding then s.fired + {s.active[key]} else s.fired,
       owner := s.owner + [|s.calls|],
       metrics := if superseding then s.metrics.(cancelledRetries := s.metrics.cancelledRetries + 1) else s.metrics)
  }

  function BeginCall(cfg: Config, s: State, key: DataPointKey, retry: bool): State {
    if !retry || cfg.maxAttempts <= 0 then
      s.(calls := s.calls + [Call(key, None, InOperation(1), [Started])])
    else
      Register(s, key).(calls := s.calls + [Call(key, Some(|s.owner|), InOperation(1), [Started])])
  }

  function AfterValue(s: State, c: nat, attempt: pos, v: int): (t: State)
    requires c < |s.calls|
    ensures TouchesOnly(s, t, c)
  {
    End(if attempt > 1 then s.(metrics := s.metrics.(successfulRetries := s.metrics.successfulRetries + 1)) else s,
        c, Returned(v))
  }

  function AfterFailure(cfg: Config, s: State, c: nat, attempt: pos, e: Error, jitter: real): (t: State)
    requires c < |s.calls|
    ensures TouchesOnly(s, t, c)
  {
    if !IsRetryable(e) then End(s, c, Raised(e))
    else if attempt >= cfg.maxAttempts then
      End(s.(metrics := s.metrics.(exhaustedRetries := s.metrics.exhaustedRetries + 1)), c, Raised(e))
    else
      var call := s.calls[c];
      var m := s.metrics.(totalRetries := s.metrics.totalRetries + 1);
      if e.cls == NoConnection then
        SetCall(s.(metrics := m.(recoveryWaits := m.recoveryWaits + 1)), c,
                call.(pc := AwaitingRecovery(attempt, e, false), log := call.log + [RecoveryBegan(cfg.recoveryWait)]))
      else
        var s' := SetCall(s.(metrics := m), c,
                          call.(pc := Sleeping(attempt),
                                log := call.log + [SleepBegan(Delay(cfg, attempt, e, jitter))]));
        // Event.wait() returns at once, without suspending, when the event is already set
        if Cancelled(s', s'.calls[c]) then End(s', c, SupersededError) else s'
  }

  function FinishOperation(cfg: Config, s: State, c: nat, result: OpResult, jitter: real): (t: State)
    requires c < |s.calls| && s.calls[c].pc.InOperation?
    ensures TouchesOnly(s, t, c)
  {
    var call := s.calls[c];
    var s' := SetCall(s, c, call.(log := call.log + [Finished(result)]));
    if call.event.None? then
      End(s', c, if result.Value? then Returned(result.v) else Raised(result.error))
    else match result
      case Value(v) => AfterValue(s', c, call.pc.attempt, v)
      case Failure(e) => AfterFailure(cfg, s', c, call.pc.attempt, e, jitter)
  }

  /** After asyncio.wait and gather: cancellation wins over recovery, recovery over timeout. */
  function EndRecoveryWait(s: State, c: nat): (t: State)
    requires c < |s.calls| && s.calls[c].pc.AwaitingRecovery?
    ensures TouchesOnly(s, t, c)
  {
    var call := s.calls[c];
    if Cancelled(s, call) then End(s, c, SupersededError)
    else if call.pc.recovered then NextAttempt(s, c, call.pc.attempt + 1)
    else
      End(SetCall(s.(metrics := s.metrics.(recoveryWaitTimeouts := s.metrics.recoveryWaitTimeouts + 1)), c,
                  call.(log := call.log + [RecoveryTimedOut])),
          c, Raised(call.pc.error))
  }

  function MarkRecovered(call: Call): Call {
    if call.pc.AwaitingRecovery? then call.(pc := call.pc.(recovered := true)) else call
  }

  function DeliverRecovery(cfg: Config, s: State, interfaceId: Option<string>): State {
    if interfaceId.None? || interfaceId.value == cfg.interfaceId
    then s.(calls := seq(|s.calls|, i requires 0 <= i < |s.calls| => MarkRecovered(s.calls[i])))
    else s
  }

  /** Cancel every registered retry whose key is in `keys`, all at once. */
  function CancelAll(s: State, keys: set<DataPointKey>): State
    requires keys <= s.active.Keys
  {
    s.(active := s.active - keys,
       fired := s.fired + set k | k in keys :: s.active[k],
       metrics := s.metrics.(cancelledRetries := s.metrics.cancelledRetries + |keys|))
  }

  predicate OnDevice(key: DataPointKey, deviceAddress: string) {
    key.channelAddress == deviceAddress || deviceAddress + ":" <= key.channelAddress
  }

  /** The keys a cancel action hits; the cancel methods return how many there are. */
  function Targets(s: State, a: Action): set<DataPointKey> {
    match a
    case CancelKey(key) => set k | k in s.active && k == key
    case CancelDevice(d) => set k | k in s.active && OnDevice(k, d)
    case CancelInterface => s.active.Keys
    case _ => {}
  }

  predicate Enabled(s: State, a: Action) {
    match a
    case OperationDone(c, _, jitter) => c < |s.calls| && s.calls[c].pc.InOperation? && JitterInRange(jitter)
    case DelayElapsed(c) => c < |s.calls| && s.calls[c].pc.Sleeping?
    case DelayInterrupted(c) => c < |s.calls| && s.calls[c].pc.Sleeping? && Cancelled(s, s.calls[c])
    case RecoveryWaitOver(c) => c < |s.calls| && s.calls[c].pc.AwaitingRecovery?
    case CancelTask(c) => c < |s.calls| && (s.calls[c].pc.Sleeping? || s.calls[c].pc.AwaitingRecovery?)
    case _ => true
  }

  function Step(cfg: Config, s: State, a: Action): State
    requires Enabled(s, a)
  {
    match a
    case Begin(key, retry) => BeginCall(cfg, s, key, retry)
    case OperationDone(c, result, jitter) => FinishOperation(cfg, s, c, result, jitter)
    case DelayElapsed(c) => NextAttempt(s, c, s.calls[c].pc.attempt + 1)
    case DelayInterrupted(c) => End(s, c, SupersededError)
    case RecoveryWaitOver(c) => EndRecoveryWait(s, c)
    case RecoveryCompleted(i) => DeliverRecovery(cfg, s, i)
    case CancelTask(c) => End(s, c, TaskCancelled)
    case CancelKey(_) => CancelAll(s, Targets(s, a))
    case CancelDevice(_) => CancelAll(s, Targets(s, a))
    case CancelInterface => CancelAll(s, Targets(s, a))
  }

  // ---------------------------------------------------------------- runs

  predicate Runs(cfg: Config, s: State, acts: seq<Action>)
    decreases |acts|
  {
    acts == [] ||
    (Enabled(s, acts[0]) && Runs(cfg, Step(cfg, s, acts[0]), acts[1..]))
  }

  function Exec(cfg: Config, s: State, acts: seq<Action>): State
    requires Runs(cfg, s, acts)
    decreases |acts|
  {
    if acts == [] then s
    else Exec(cfg, Step(cfg, s, acts[0]), acts[1..])
  }

  // ---------------------------------------------------------------- observers of a call's log

  /** Counts over a call's log: operation starts, waits of either kind, recovery waits, recovery
      waits that timed out, and `fruitless`: 1 if the last wait has not been followed by another
      start, else 0. */
  datatype Stats = Stats(starts: nat, waits: nat, recoveryWaits: nat, recoveryTimeouts: nat, fruitless: nat)

  function Observe(t: Stats, e: Event): Stats {
    match e
    case Started => t.(starts := t.starts + 1, fruitless := 0)
    case Finished(_) => t
    case SleepBegan(_) => t.(waits := t.waits + 1, fruitless := 1)
    case RecoveryBegan(_) => t.(waits := t.waits + 1, recoveryWaits := t.recoveryWaits + 1, fruitless := 1)
    case RecoveryTimedOut => t.(recoveryTimeouts := t.recoveryTimeouts + 1)
  }

  function StatsOf(log: seq<Event>): Stats {
    if log == [] then Stats(0, 0, 0, 0, 0) else Observe(StatsOf(log[..|log| - 1]), log[|log| - 1])
  }

  lemma Snoc(log: seq<Event>, e: Event)
    ensures StatsOf(log + [e]) == Observe(StatsOf(log), e)
  {
  }

  /** Total waiting time the call has asked for. */
  function Waited(log: seq<Event>): real {
    if log == [] then 0.0
    else Waited(log[..|log| - 1]) + Seconds(log[|log| - 1])
  }

  function Seconds(e: Event): real {
    if e.SleepBegan? || e.RecoveryBegan? then e.seconds else 0.0
  }
}
