/** Why calls end the way they do: every ending is justified by what the call went through. */
module CommandRetryEndings {
  import opened Basics
  import opened RetryErrors
  import opened CommandRetry
  import opened CommandRetrySafety

  predicate EndsWith(log: seq<Event>, e: Event) { log != [] && log[|log| - 1] == e }

  /** The log ends with a failed operation followed by a recovery wait. */
  predicate AwaitedRecovery(log: seq<Event>, e: Error) {
    |log| >= 2 && log[|log| - 1].RecoveryBegan? && log[|log| - 2] == Finished(Failure(e))
    && e.cls == NoConnection
  }

  /** A recovery wait after that failure has timed out. */
  predicate RecoveryFailed(log: seq<Event>, e: Error) {
    EndsWith(log, RecoveryTimedOut) && AwaitedRecovery(log[..|log| - 1], e)
  }

  /** A value is returned only if the last operation produced it; an error is raised only if the
      last operation raised it and retrying was off, pointless or used up, or if the recovery
      awaited after it did not come; CommandSupersededError only if the call was cancelled. */
  predicate Justified(max: int, fired: set<nat>, c: Call) {
    match c.pc
    case InOperation(a) => EndsWith(c.log, Started) && a == StatsOf(c.log).starts
    case Sleeping(a) => c.event.Some? && c.log != [] && c.log[|c.log| - 1].SleepBegan? && a == StatsOf(c.log).starts
    case AwaitingRecovery(a, e, _) => c.event.Some? && AwaitedRecovery(c.log, e) && a == StatsOf(c.log).starts
    case Ended(Returned(v)) => EndsWith(c.log, Finished(Value(v)))
    case Ended(Raised(e)) =>
      || (EndsWith(c.log, Finished(Failure(e)))
          && (c.event.None? || !IsRetryable(e) || StatsOf(c.log).starts >= max))
      || RecoveryFailed(c.log, e)
    case Ended(SupersededError) => c.event.Some? && c.event.value in fired
    case Ended(TaskCancelled) => c.log != [] && (c.log[|c.log| - 1].SleepBegan? || c.log[|c.log| - 1].RecoveryBegan?)
  }

  ghost predicate AllJustified(max: int, s: State) {
    forall i | 0 <= i < |s.calls| :: Justified(max, s.fired, s.calls[i])
  }

  lemma FinishJustified(cfg: Config, s: State, c: nat, result: OpResult, jitter: real)
    requires c < |s.calls| && s.calls[c].pc.InOperation? && Justified(cfg.maxAttempts, s.fired, s.calls[c])
    ensures Justified(cfg.maxAttempts, s.fired, FinishOperation(cfg, s, c, result, jitter).calls[c])
  {
    var before, after := s.calls[c], FinishOperation(cfg, s, c, result, jitter).calls[c];
    FinishHasShape(cfg, s, c, result, jitter);
    ShapeJustified(cfg, s.fired, before, Cancelled(s, before), result, after);
  }

  lemma ShapeJustified(cfg: Config, fired: set<nat>, before: Call, cancelled: bool, result: OpResult, after: Call)
    requires before.pc.InOperation? && Justified(cfg.maxAttempts, fired, before) && after.event == before.event
    requires FinishShape(cfg, before, cancelled, result, after)
    requires cancelled ==> before.event.Some? && before.event.value in fired
    ensures Justified(cfg.maxAttempts, fired, after)
  {
    Snoc(before.log, Finished(result));
    if WillWait(cfg, before, result) {
      WaitJustified(cfg, fired, before, cancelled, result, after);
    }
  }

  lemma WaitJustified(cfg: Config, fired: set<nat>, before: Call, cancelled: bool, result: OpResult, after: Call)
    requires before.pc.InOperation? && Justified(cfg.maxAttempts, fired, before) && after.event == before.event
    requires FinishShape(cfg, before, cancelled, result, after) && WillWait(cfg, before, result)
    requires cancelled ==> before.event.Some? && before.event.value in fired
    ensures Justified(cfg.maxAttempts, fired, after)
  {
    var log := before.log + [Finished(result)];
    Snoc(before.log, Finished(result));
    Snoc(log, after.log[|log|]);
  }

  lemma NextJustified(max: int, s: State, c: nat)
    requires c < |s.calls| && Justified(max, s.fired, s.calls[c])
    requires s.calls[c].pc.Sleeping? || s.calls[c].pc.AwaitingRecovery?
    ensures Justified(max, s.fired, NextAttempt(s, c, s.calls[c].pc.attempt + 1).calls[c])
  {
  }

  lemma {:induction false} RecoveryWaitJustified(max: int, s: State, c: nat)
    requires c < |s.calls| && Justified(max, s.fired, s.calls[c]) && s.calls[c].pc.AwaitingRecovery?
    ensures Justified(max, s.fired, EndRecoveryWait(s, c).calls[c])
  {
    var log := s.calls[c].log;
    assert (log + [RecoveryTimedOut])[..|log + [RecoveryTimedOut]| - 1] == log;
  }

  lemma {:induction false} SubjectJustified(cfg: Config, s: State, a: Action, c: nat)
    requires Enabled(s, a) && Subject(a) == Some(c) && Justified(cfg.maxAttempts, s.fired, s.calls[c])
    ensures c < |Step(cfg, s, a).calls|
    ensures Justified(cfg.maxAttempts, s.fired, Step(cfg, s, a).calls[c])
  {
    match a
    case OperationDone(_, result, jitter) =>
      FinishJustified(cfg, s, c, result, jitter);
    case DelayElapsed(_) => NextJustified(cfg.maxAttempts, s, c);
    case RecoveryWaitOver(_) => RecoveryWaitJustified(cfg.maxAttempts, s, c);
    case _ =>
  }

  lemma {:induction false} StepJustified(cfg: Config, s: State, a: Action)
    requires Enabled(s, a) && AllJustified(cfg.maxAttempts, s)
    ensures AllJustified(cfg.maxAttempts, Step(cfg, s, a))
  {
    var t := Step(cfg, s, a);
    forall i | 0 <= i < |t.calls| ensures Justified(cfg.maxAttempts, t.fired, t.calls[i]) {
      if i < |s.calls| && Subject(a) == Some(i) {
        SubjectJustified(cfg, s, a, i);
      }
    }
  }

  /** In every run every ended call ended for a reason its history shows. */
  lemma {:induction false} EndingsAreJustified(cfg: Config, s: State, acts: seq<Action>)
    requires AllJustified(cfg.maxAttempts, s) && Runs(cfg, s, acts)
    ensures AllJustified(cfg.maxAttempts, Exec(cfg, s, acts))
    decreases |acts|
  {
    if acts != [] {
      StepJustified(cfg, s, acts[0]);
      EndingsAreJustified(cfg, Step(cfg, s, acts[0]), acts[1..]);
    }
  }

  // ------------------------------------------------------------ recovery waits

  predicate Announces(cfg: Config, a: Action) {
    a.RecoveryCompleted? && (a.interfaceId.None? || a.interfaceId.value == cfg.interfaceId)
  }

  predicate Announced(cfg: Config, acts: seq<Action>) {
    exists i | 0 <= i < |acts| :: Announces(cfg, acts[i])
  }

  predicate Resumes(acts: seq<Action>, c: nat) {
    exists i | 0 <= i < |acts| :: Subject(acts[i]) == Some(c)
  }

  lemma {:induction false} RecoveryIsNoticed(cfg: Config, s: State, acts: seq<Action>, c: nat)
    requires Runs(cfg, s, acts) && c < |s.calls| && s.calls[c].pc.AwaitingRecovery? && !Resumes(acts, c)
    ensures var t := Exec(cfg, s, acts);
      && c < |t.calls| && t.calls[c].event == s.calls[c].event && t.calls[c].log == s.calls[c].log
      && t.calls[c].pc == s.calls[c].pc.(recovered := s.calls[c].pc.recovered || Announced(cfg, acts))
    decreases |acts|
  {
    if acts != [] {
      var t := Step(cfg, s, acts[0]);
      forall i | 0 <= i < |acts| - 1 ensures acts[1..][i] == acts[i + 1] {}
      RecoveryIsNoticed(cfg, t, acts[1..], c);
    }
  }

  /** A recovery wait that is not cancelled leads to the next attempt exactly if recovery of this
      interface, or of all, was announced while it lasted; otherwise the error is raised again. */
  lemma RecoveryDecides(cfg: Config, s: State, acts: seq<Action>, c: nat)
    requires Runs(cfg, s, acts) && c < |s.calls| && s.calls[c].pc.AwaitingRecovery? && !s.calls[c].pc.recovered
    requires !Resumes(acts, c) && c < |Exec(cfg, s, acts).calls|
    requires !Cancelled(Exec(cfg, s, acts), Exec(cfg, s, acts).calls[c])
    ensures Enabled(Exec(cfg, s, acts), RecoveryWaitOver(c))
    ensures Step(cfg, Exec(cfg, s, acts), RecoveryWaitOver(c)).calls[c].pc ==
            if Announced(cfg, acts) then InOperation(s.calls[c].pc.attempt + 1) else Ended(Raised(s.calls[c].pc.error))
  {
    RecoveryIsNoticed(cfg, s, acts, c);
  }

  // ------------------------------------------------------------ errors

  /** The nearest proper cause that carries a fault code carries `code`. */
  predicate NearestFault(e: Error, k: nat, code: int) {
    && k >= 1 && Carries(e, k) && CauseAt(e, k).value.faultCode == Some(code)
    && forall j: nat | 1 <= j < k :: !Carries(e, j)
  }

  /** Some proper cause of the exception carries a fault code, and the nearest one carries this one. */
  ghost predicate Wraps(e: Error, code: int) { exists k: nat :: NearestFault(e, k, code) }

  lemma {:induction false} WrapsIsFaultCode(e: Error, code: int)
    ensures Wraps(e, code) <==> FaultCode(e) == Some(code)
  {
    FaultCodeIsNearest(e);
    if FaultCode(e).Some? {
      var m: nat :| m >= 1 && Carries(e, m) && CauseAt(e, m).value.faultCode == FaultCode(e)
                    && forall j: nat | 1 <= j < m :: !Carries(e, j);
      assert NearestFault(e, m, FaultCode(e).value);
    }
  }

  /** Retryability and delay as decided by class and nearest fault code: permanent errors are never
      retried, whatever they wrap; other Homematic errors exactly if they wrap one of the four
      transient codes; duty-cycle and pending faults have fixed delays that ignore attempt and
      jitter, every other error, with or without a code, the jittered backoff. */
  lemma {:induction false} WrappedFaults(cfg: Config, e: Error, attempt: pos, jitter: real)
    ensures e.cls in {AuthFailure, CircuitBreakerOpen, Superseded, Unsupported, Validation, Foreign} ==> !IsRetryable(e)
    ensures e.cls in {Timeout, NoConnection, InternalBackend} ==> IsRetryable(e)
    ensures e.cls == OtherHomematic ==>
              (IsRetryable(e) <==> Wraps(e, -1) || Wraps(e, -8) || Wraps(e, -9) || Wraps(e, -10))
    ensures Delay(cfg, attempt, e, jitter) ==
              if Wraps(e, -8) then cfg.dutyCycleDelay
              else if Wraps(e, -10) then cfg.pendingDelay
              else Jittered(Backoff(cfg, attempt), jitter)
  {
    WrapsIsFaultCode(e, -1);
    WrapsIsFaultCode(e, -8);
    WrapsIsFaultCode(e, -9);
    WrapsIsFaultCode(e, -10);
  }
}
