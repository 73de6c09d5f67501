/** Safety of the retry protocol over every interleaving. */
module CommandRetrySafety {
  import opened Basics
  import opened RetryErrors
  import opened CommandRetry

  // ------------------------------------------------------------ registration

  predicate Registered(s: State, c: Call) {
    c.event.Some? && c.key in s.active && s.active[c.key] == c.event.value
  }

  ghost predicate EventsOwned(s: State) {
    && (forall e | e in s.fired :: e < |s.owner|)
    && (forall i | 0 <= i < |s.calls| && s.calls[i].event.Some? ::
          s.calls[i].event.value < |s.owner| && s.owner[s.calls[i].event.value] == i)
  }

  ghost predicate LiveExact(s: State) {
    forall i | 0 <= i < |s.calls| && Live(s.calls[i]) ::
      !Cancelled(s, s.calls[i]) <==> Registered(s, s.calls[i])
  }

  predicate Holds(s: State, k: DataPointKey, i: nat) {
    i < |s.calls| && Live(s.calls[i]) && s.calls[i].key == k && k in s.active && s.calls[i].event == Some(s.active[k])
  }

  ghost predicate ActiveOwned(s: State) {
    forall k | k in s.active :: s.active[k] < |s.owner| && Holds(s, k, s.owner[s.active[k]])
  }

  /** The inductive invariant of the protocol. */
  ghost predicate Inv(s: State) {
    EventsOwned(s) && LiveExact(s) && ActiveOwned(s)
  }

  /** Only the running call `c` has changed, and it is deregistered exactly if it has ended. */
  ghost predicate Tidy(s: State, t: State, c: nat) {
    && c < |s.calls| && !s.calls[c].pc.Ended? && TouchesOnly(s, t, c)
    && t.active == if t.calls[c].pc.Ended? then Deregister(s, s.calls[c]).active else s.active
  }

  lemma TidyKeeps(s: State, t: State, c: nat)
    requires Inv(s) && Tidy(s, t, c)
    ensures Inv(t)
  {
  }

  lemma EndIsTidy(s: State, c: nat, how: Ending)
    requires c < |s.calls| && !s.calls[c].pc.Ended?
    ensures Tidy(s, End(s, c, how), c)
  {
  }

  lemma NextAttemptIsTidy(s: State, c: nat, attempt: pos)
    requires c < |s.calls| && !s.calls[c].pc.Ended?
    ensures Tidy(s, NextAttempt(s, c, attempt), c)
  {
  }

  /** The operation failed in a way that is worth another attempt, and one is left. */
  predicate WillWait(cfg: Config, call: Call, result: OpResult)
    requires call.pc.InOperation?
  {
    call.event.Some? && result.Failure? && IsRetryable(result.error) && call.pc.attempt < cfg.maxAttempts
  }

  lemma LastFinishIsTidy(cfg: Config, s: State, c: nat, result: OpResult, jitter: real)
    requires c < |s.calls| && s.calls[c].pc.InOperation? && !WillWait(cfg, s.calls[c], result)
    ensures Tidy(s, FinishOperation(cfg, s, c, result, jitter), c)
  {
  }

  lemma WaitIsTidy(cfg: Config, s: State, c: nat, result: OpResult, jitter: real)
    requires c < |s.calls| && s.calls[c].pc.InOperation? && WillWait(cfg, s.calls[c], result)
    ensures Tidy(s, FinishOperation(cfg, s, c, result, jitter), c)
  {
  }

  lemma FinishIsTidy(cfg: Config, s: State, c: nat, result: OpResult, jitter: real)
    requires c < |s.calls| && s.calls[c].pc.InOperation?
    ensures Tidy(s, FinishOperation(cfg, s, c, result, jitter), c)
  {
    if WillWait(cfg, s.calls[c], result) {
      WaitIsTidy(cfg, s, c, result, jitter);
    } else {
      LastFinishIsTidy(cfg, s, c, result, jitter);
    }
  }

  lemma RecoveryWaitOverIsTidy(s: State, c: nat)
    requires c < |s.calls| && s.calls[c].pc.AwaitingRecovery?
    ensures Tidy(s, EndRecoveryWait(s, c), c)
  {
  }

  lemma BypassKeeps(s: State, key: DataPointKey)
    requires Inv(s)
    ensures Inv(s.(calls := s.calls + [Call(key, None, InOperation(1), [Started])]))
  {
  }

  function Registering(s: State, key: DataPointKey): State {
    Register(s, key).(calls := s.calls + [Call(key, Some(|s.owner|), InOperation(1), [Started])])
  }

  lemma RegisterOwns(s: State, key: DataPointKey)
    requires Inv(s)
    ensures EventsOwned(Registering(s, key)) && ActiveOwned(Registering(s, key))
  {
  }

  lemma RegisterIsExact(s: State, key: DataPointKey)
    requires Inv(s)
    ensures LiveExact(Registering(s, key))
  {
  }

  lemma BeginKeeps(cfg: Config, s: State, key: DataPointKey, retry: bool)
    requires Inv(s)
    ensures Inv(BeginCall(cfg, s, key, retry))
  {
    if !retry || cfg.maxAttempts <= 0 {
      BypassKeeps(s, key);
    } else {
      RegisterOwns(s, key);
      RegisterIsExact(s, key);
    }
  }

  lemma CancelAllKeeps(s: State, keys: set<DataPointKey>)
    requires Inv(s) && keys <= s.active.Keys
    ensures Inv(CancelAll(s, keys))
  {
  }

  lemma RecoveryKeeps(cfg: Config, s: State, interfaceId: Option<string>)
    requires Inv(s)
    ensures Inv(DeliverRecovery(cfg, s, interfaceId))
  {
  }

  /** Every action that runs a coroutine is tidy about it. */
  lemma SubjectIsTidy(cfg: Config, s: State, a: Action)
    requires Enabled(s, a) && Subject(a).Some?
    ensures Tidy(s, Step(cfg, s, a), Subject(a).value)
  {
    match a
    case OperationDone(c, result, jitter) => FinishIsTidy(cfg, s, c, result, jitter);
    case DelayElapsed(c) => NextAttemptIsTidy(s, c, s.calls[c].pc.attempt + 1);
    case DelayInterrupted(c) => EndIsTidy(s, c, SupersededError);
    case RecoveryWaitOver(c) => RecoveryWaitOverIsTidy(s, c);
    case CancelTask(c) => EndIsTidy(s, c, TaskCancelled);
    case _ =>
  }

  lemma {:induction false} StepKeepsInv(cfg: Config, s: State, a: Action)
    requires Inv(s) && Enabled(s, a)
    ensures Inv(Step(cfg, s, a))
  {
    if Subject(a).Some? {
      SubjectIsTidy(cfg, s, a);
      TidyKeeps(s, Step(cfg, s, a), Subject(a).value);
    } else {
      match a
      case Begin(key, retry) => BeginKeeps(cfg, s, key, retry);
      case RecoveryCompleted(i) => RecoveryKeeps(cfg, s, i);
      case _ => CancelAllKeeps(s, Targets(s, a));
    }
  }

  lemma {:induction false} ExecKeepsInv(cfg: Config, s: State, acts: seq<Action>)
    requires Inv(s) && Runs(cfg, s, acts)
    ensures Inv(Exec(cfg, s, acts))
    decreases |acts|
  {
    if acts != [] {
      StepKeepsInv(cfg, s, acts[0]);
      ExecKeepsInv(cfg, Step(cfg, s, acts[0]), acts[1..]);
    }
  }

  /** In every run: a live retry is uncancelled exactly when its event is the registered one;
      at most one uncancelled retry exists per key; every registered event belongs to exactly
      one live call; and nothing is registered once no call is live. */
  lemma RegistrationIsExact(cfg: Config, acts: seq<Action>)
    requires Runs(cfg, INITIAL, acts)
    ensures
      var s := Exec(cfg, INITIAL, acts);
      && (forall i | 0 <= i < |s.calls| && Live(s.calls[i]) ::
            !Cancelled(s, s.calls[i]) <==> Registered(s, s.calls[i]))
      && (forall i, j | 0 <= i < |s.calls| && 0 <= j < |s.calls|
                        && Live(s.calls[i]) && Live(s.calls[j]) && s.calls[i].key == s.calls[j].key
                        && !Cancelled(s, s.calls[i]) && !Cancelled(s, s.calls[j]) :: i == j)
      && (forall k | k in s.active ::
            exists i ::
              Holds(s, k, i) && forall j | 0 <= j < |s.calls| && s.calls[j].event == Some(s.active[k]) :: j == i)
      && ((forall i | 0 <= i < |s.calls| :: !Live(s.calls[i])) ==> s.active == map[])
  {
    var s := Exec(cfg, INITIAL, acts);
    ExecKeepsInv(cfg, INITIAL, acts);
    forall k | k in s.active
      ensures exists i ::
        Holds(s, k, i) && forall j | 0 <= j < |s.calls| && s.calls[j].event == Some(s.active[k]) :: j == i
    {
    }
  }

  // ------------------------------------------------------------ cancellation

  /** The only ways a call that is cancelled while in `pc` may leave the handler. */
  predicate ProperEnding(before: Call, after: Call) {
    after.pc.Ended? &&
    match after.pc.how
    case SupersededError => true
    case TaskCancelled => true
    case Returned(v) => before.pc.InOperation? && after.log == before.log + [Finished(Value(v))]
    case Raised(e) => before.pc.InOperation? && after.log == before.log + [Finished(Failure(e))]
  }

  /** Not ended yet: still where it was (a recovery event may have been noted meanwhile), or
      gone from its operation into a recovery wait, which does not look at the event on entry. */
  predicate StillPending(before: Call, after: Call) {
    || (after.log == before.log && (after.pc == before.pc || after.pc == MarkRecovered(before).pc))
    || (before.pc.InOperation? && after.pc.AwaitingRecovery?)
  }

  /** The call whose coroutine runs in an action. */
  function Subject(a: Action): Option<nat> {
    if a.OperationDone? || a.DelayElapsed? || a.DelayInterrupted? || a.RecoveryWaitOver? || a.CancelTask?
    then Some(a.c) else None
  }

  /** An action leaves every call but its subject alone, and never clears an event. */
  lemma Frame(cfg: Config, s: State, a: Action, c: nat)
    requires Enabled(s, a) && c < |s.calls|
    ensures |s.calls| <= |Step(cfg, s, a).calls|
    ensures s.fired <= Step(cfg, s, a).fired
    ensures Step(cfg, s, a).calls[c].event == s.calls[c].event && Step(cfg, s, a).calls[c].key == s.calls[c].key
    ensures Subject(a) != Some(c) ==>
              Step(cfg, s, a).calls[c] in {s.calls[c], MarkRecovered(s.calls[c])}
  {
  }

  /** The end of an operation adds its result to the log, and then at most the start of a wait. */
  predicate FinishShape(cfg: Config, before: Call, cancelled: bool, result: OpResult, after: Call)
    requires before.pc.InOperation?
  {
    var log := before.log + [Finished(result)];
    if !WillWait(cfg, before, result) then
      after.log == log && after.pc == Ended(if result.Value? then Returned(result.v) else Raised(result.error))
    else if result.error.cls == NoConnection then
      && after.log == log + [RecoveryBegan(cfg.recoveryWait)]
      && after.pc == AwaitingRecovery(before.pc.attempt, result.error, false)
    else
      && |after.log| == |log| + 1 && after.log == log + [after.log[|log|]] && after.log[|log|].SleepBegan?
      && after.pc == if cancelled then Ended(SupersededError) else Sleeping(before.pc.attempt)
  }

  lemma FinishHasShape(cfg: Config, s: State, c: nat, result: OpResult, jitter: real)
    requires c < |s.calls| && s.calls[c].pc.InOperation?
    ensures FinishShape(cfg, s.calls[c], Cancelled(s, s.calls[c]), result,
                        FinishOperation(cfg, s, c, result, jitter).calls[c])
  {
    if WillWait(cfg, s.calls[c], result) {
      WaitHasShape(cfg, s, c, result, jitter);
    } else {
      LastFinishHasShape(cfg, s, c, result, jitter);
    }
  }

  lemma LastFinishHasShape(cfg: Config, s: State, c: nat, result: OpResult, jitter: real)
    requires c < |s.calls| && s.calls[c].pc.InOperation? && !WillWait(cfg, s.calls[c], result)
    ensures FinishShape(cfg, s.calls[c], Cancelled(s, s.calls[c]), result,
                        FinishOperation(cfg, s, c, result, jitter).calls[c])
  {
  }

  lemma WaitHasShape(cfg: Config, s: State, c: nat, result: OpResult, jitter: real)
    requires c < |s.calls| && s.calls[c].pc.InOperation? && WillWait(cfg, s.calls[c], result)
    ensures FinishShape(cfg, s.calls[c], Cancelled(s, s.calls[c]), result,
                        FinishOperation(cfg, s, c, result, jitter).calls[c])
  {
  }

  lemma ShapeStartsNothing(cfg: Config, before: Call, cancelled: bool, result: OpResult, after: Call)
    requires before.pc.InOperation? && FinishShape(cfg, before, cancelled, result, after)
    ensures StatsOf(after.log).starts == StatsOf(before.log).starts
  {
    var log := before.log + [Finished(result)];
    Snoc(before.log, Finished(result));
    if WillWait(cfg, before, result) {
      Snoc(log, after.log[|log|]);
    }
  }

  lemma {:induction false} StepOnCancelled(cfg: Config, s: State, a: Action, c: nat)
    requires Enabled(s, a) && c < |s.calls| && Live(s.calls[c]) && Cancelled(s, s.calls[c])
    ensures
      var t := Step(cfg, s, a);
      && c < |t.calls| && t.calls[c].event == s.calls[c].event
      && StatsOf(t.calls[c].log).starts == StatsOf(s.calls[c].log).starts
      && s.fired <= t.fired
      && (StillPending(s.calls[c], t.calls[c]) || ProperEnding(s.calls[c], t.calls[c]))
  {
    Frame(cfg, s, a, c);
    if a.OperationDone? && a.c == c {
      FinishHasShape(cfg, s, c, a.result, a.jitter);
      ShapeStartsNothing(cfg, s.calls[c], true, a.result, Step(cfg, s, a).calls[c]);
    }
  }

  lemma {:induction false} EndedStaysEnded(cfg: Config, s: State, acts: seq<Action>, c: nat)
    requires Runs(cfg, s, acts) && c < |s.calls| && s.calls[c].pc.Ended?
    ensures var t := Exec(cfg, s, acts); c < |t.calls| && t.calls[c] == s.calls[c]
    decreases |acts|
  {
    if acts != [] {
      EndedStaysEnded(cfg, Step(cfg, s, acts[0]), acts[1..], c);
    }
  }

  /** From any state on, however the run continues: a cancelled call starts no further
      operation, and it can only end superseded, externally cancelled, or with the outcome of
      the operation that was in flight when it was cancelled. */
  lemma {:induction false} CancelledStartsNothing(cfg: Config, s: State, acts: seq<Action>, c: nat)
    requires Runs(cfg, s, acts) && c < |s.calls| && Live(s.calls[c]) && Cancelled(s, s.calls[c])
    ensures
      var t := Exec(cfg, s, acts);
      && c < |t.calls|
      && StatsOf(t.calls[c].log).starts == StatsOf(s.calls[c].log).starts
      && (StillPending(s.calls[c], t.calls[c]) || ProperEnding(s.calls[c], t.calls[c]))
    decreases |acts|
  {
    if acts != [] {
      var t := Step(cfg, s, acts[0]);
      StepOnCancelled(cfg, s, acts[0], c);
      if t.calls[c].pc.Ended? {
        EndedStaysEnded(cfg, t, acts[1..], c);
      } else {
        CancelledStartsNothing(cfg, t, acts[1..], c);
      }
    }
  }

  /** A cancelled call that is waiting can always be woken, and being woken, for whatever
      reason the wait is over, ends it with CommandSupersededError. */
  lemma CancelledWaiterEndsSuperseded(cfg: Config, s: State, c: nat, a: Action)
    requires c < |s.calls| && Live(s.calls[c]) && Cancelled(s, s.calls[c]) && !s.calls[c].pc.InOperation?
    requires a in {DelayElapsed(c), DelayInterrupted(c), RecoveryWaitOver(c)}
    ensures Enabled(s, DelayInterrupted(c)) || Enabled(s, RecoveryWaitOver(c))
    ensures Enabled(s, a) ==> Step(cfg, s, a).calls[c].pc == Ended(SupersededError)
  {
  }

  /** Every route into cancellation: a newer call for the key, or a cancel method that hits it. */
  lemma CancellationReachesTheHolder(cfg: Config, s: State, a: Action, c: nat)
    requires Inv(s) && Enabled(s, a) && c < |s.calls| && Live(s.calls[c]) && !Cancelled(s, s.calls[c])
    ensures
      var t := Step(cfg, s, a);
      t.calls[c].pc.Ended? ||
      (Cancelled(t, t.calls[c]) <==>
        || a == CancelKey(s.calls[c].key) || a == CancelInterface
        || (a.CancelDevice? &&
             (s.calls[c].key.channelAddress == a.deviceAddress ||
              a.deviceAddress + ":" <= s.calls[c].key.channelAddress))
        || (a.Begin? && a.retry && cfg.maxAttempts > 0 && a.key == s.calls[c].key))
  {
  }

  /** The part of an address before its first colon. */
  function DevicePart(address: string): string {
    if address == "" || address[0] == ':' then "" else [address[0]] + DevicePart(address[1..])
  }

  lemma {:induction false} DevicePartOf(device: string, channel: string)
    requires ':' !in device
    ensures DevicePart(device + ":" + channel) == device
  {
    if device != "" {
      assert (device + ":" + channel)[1..] == device[1..] + ":" + channel;
      DevicePartOf(device[1..], channel);
    }
  }

  lemma {:induction false} DevicePartIsFront(address: string)
    ensures address == DevicePart(address) || DevicePart(address) + ":" <= address
    ensures ':' !in address ==> DevicePart(address) == address
  {
    if address != "" && address[0] != ':' {
      DevicePartIsFront(address[1..]);
    }
  }

  /** A device purge hits a key exactly if its address is that of the device or of one of its
      channels, and never that of a device whose address merely begins with the same characters. */
  lemma {:induction false} PurgeHitsOneDevice(key: DataPointKey, device: string)
    requires ':' !in device
    ensures OnDevice(key, device) <==> DevicePart(key.channelAddress) == device
  {
    var a := key.channelAddress;
    DevicePartIsFront(a);
    if device + ":" <= a {
      assert a == device + ":" + a[|device| + 1..];
      DevicePartOf(device, a[|device| + 1..]);
    }
  }
}
