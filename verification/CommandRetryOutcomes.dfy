/** What every call makes of its results: which calls are retried at all, when a call goes on, for
    how long it waits before it does, and how it ends, read off its own history. */
module CommandRetryOutcomes {
  import opened Basics
  import opened RetryErrors
  import opened CommandRetry
  import opened CommandRetrySafety
  import opened CommandRetryEndings

  // ------------------------------------------------------------ runs in parts

  lemma {:induction false} RunInParts(cfg: Config, s: State, acts: seq<Action>, n: nat)
    requires Runs(cfg, s, acts) && n <= |acts|
    ensures Runs(cfg, s, acts[..n]) && Runs(cfg, Exec(cfg, s, acts[..n]), acts[n..])
    ensures Exec(cfg, s, acts) == Exec(cfg, Exec(cfg, s, acts[..n]), acts[n..])
    decreases n
  {
    if n == 0 {
      assert acts[..n] == [] && acts[n..] == acts;
    } else {
      RunInParts(cfg, Step(cfg, s, acts[0]), acts[1..], n - 1);
      assert acts[..n][0] == acts[0] && acts[..n][1..] == acts[1..][..n - 1];
      assert acts[1..][n - 1..] == acts[n..];
    }
  }

  lemma {:induction false} CallsKeepTheirEvent(cfg: Config, s: State, acts: seq<Action>, c: nat)
    requires Runs(cfg, s, acts) && c < |s.calls|
    ensures var t := Exec(cfg, s, acts);
            c < |t.calls| && t.calls[c].key == s.calls[c].key && t.calls[c].event == s.calls[c].event
    decreases |acts|
  {
    if acts != [] {
      Frame(cfg, s, acts[0], c);
      CallsKeepTheirEvent(cfg, Step(cfg, s, acts[0]), acts[1..], c);
    }
  }

  // ------------------------------------------------------------ which calls are retried

  lemma BeginRegisters(cfg: Config, s: State, key: DataPointKey, retry: bool)
    requires Inv(s)
    ensures
      var t, c := Step(cfg, s, Begin(key, retry)), |s.calls|;
      && |t.calls| == c + 1 && t.calls[..c] == s.calls
      && t.calls[c].key == key && t.calls[c].pc == InOperation(1) && t.calls[c].log == [Started]
      && if retry && cfg.maxAttempts > 0 then
           && key in t.active && t.calls[c].event == Some(t.active[key]) && t.active[key] !in t.fired
           && t.active - {key} == s.active - {key}
           && t.fired == s.fired + if key in s.active then {s.active[key]} else {}
         else
           t.calls[c].event.None? && t.active == s.active && t.fired == s.fired
  {
  }

  /** In every run: the call begun by action `n` keeps its key, and is subject to retrying exactly if
      it asked for it and max_attempts is positive; then the event it holds ever after is the one that
      was registered for its key when it began, unset and new. */
  lemma {:induction false} BegunCallsAreRegistered(cfg: Config, acts: seq<Action>, n: nat)
    requires Runs(cfg, INITIAL, acts) && n < |acts| && acts[n].Begin?
    ensures Runs(cfg, INITIAL, acts[..n]) && Enabled(Exec(cfg, INITIAL, acts[..n]), acts[n])
    ensures
      var before := Exec(cfg, INITIAL, acts[..n]);
      var begun, end := Step(cfg, before, acts[n]), Exec(cfg, INITIAL, acts);
      var c, key := |before.calls|, acts[n].key;
      && c < |end.calls| && end.calls[c].key == key
      && (end.calls[c].event.Some? <==> acts[n].retry && cfg.maxAttempts > 0)
      && (end.calls[c].event.Some? ==>
            key in begun.active && end.calls[c].event == Some(begun.active[key]) && begun.active[key] !in begun.fired)
  {
    RunInParts(cfg, INITIAL, acts, n);
    var before := Exec(cfg, INITIAL, acts[..n]);
    assert acts[n..][0] == acts[n];
    ExecKeepsInv(cfg, INITIAL, acts[..n]);
    BeginRegisters(cfg, before, acts[n].key, acts[n].retry);
    CallsKeepTheirEvent(cfg, Step(cfg, before, acts[n]), acts[n..][1..], |before.calls|);
  }

  // ------------------------------------------------------------ results

  /** The results of the operations a call has run, in order. */
  function Results(log: seq<Event>): seq<OpResult> {
    if log == [] then []
    else if log[|log| - 1].Finished? then Results(log[..|log| - 1]) + [log[|log| - 1].result]
    else Results(log[..|log| - 1])
  }

  lemma ResultsNext(log: seq<Event>, e: Event)
    ensures Results(log + [e]) == if e.Finished? then Results(log) + [e.result] else Results(log)
  {
    assert (log + [e])[..|log|] == log;
  }

  /** Result number `i` is worth another attempt, and one is left. */
  predicate WorthRetrying(max: int, retry: bool, i: nat, r: OpResult) {
    retry && r.Failure? && IsRetryable(r.error) && i + 1 < max
  }

  /** The call went on after a result exactly if that was worth it, and its ending is decided by its
      last result: a value is returned, an error raised if it was not worth another attempt or if the
      recovery awaited after it did not come. */
  predicate Decided(max: int, retry: bool, c: Call) {
    var rs := Results(c.log);
    var n := |rs| - 1;
    && (forall i | 0 <= i < n :: WorthRetrying(max, retry, i, rs[i]))
    && (c.pc.InOperation? ==> (rs != [] ==> WorthRetrying(max, retry, n, rs[n])) && c.pc.attempt == |rs| + 1)
    && (c.pc.Sleeping? || c.pc.AwaitingRecovery? ==>
          rs != [] && WorthRetrying(max, retry, n, rs[n]) && c.pc.attempt == |rs|)
    && (c.pc.AwaitingRecovery? ==> rs[n] == Failure(c.pc.error))
    && ((c.pc.Ended? && c.pc.how.Returned?) <==> (rs != [] && rs[n].Value?))
    && (c.pc.Ended? && c.pc.how.Returned? ==> rs[n] == Value(c.pc.how.v))
    && ((c.pc.Ended? && c.pc.how.Raised?) <==>
          (rs != [] && rs[n].Failure? && (!WorthRetrying(max, retry, n, rs[n]) || EndsWith(c.log, RecoveryTimedOut))))
    && (c.pc.Ended? && c.pc.how.Raised? ==> rs[n] == Failure(c.pc.how.error))
  }

  ghost predicate AllDecided(max: int, s: State) {
    forall i | 0 <= i < |s.calls| :: Decided(max, s.calls[i].event.Some?, s.calls[i])
  }

  lemma FinishDecides(cfg: Config, before: Call, cancelled: bool, result: OpResult, after: Call)
    requires before.pc.InOperation? && Decided(cfg.maxAttempts, before.event.Some?, before)
    requires after.event == before.event && FinishShape(cfg, before, cancelled, result, after)
    ensures Decided(cfg.maxAttempts, after.event.Some?, after)
  {
    var log := before.log + [Finished(result)];
    ResultsNext(before.log, Finished(result));
    if WillWait(cfg, before, result) {
      ResultsNext(log, after.log[|log|]);
    }
  }

  lemma NextDecides(max: int, s: State, c: nat)
    requires c < |s.calls| && Decided(max, s.calls[c].event.Some?, s.calls[c])
    requires !EndsWith(s.calls[c].log, RecoveryTimedOut)
    requires s.calls[c].pc.Sleeping? || s.calls[c].pc.AwaitingRecovery?
    ensures Decided(max, s.calls[c].event.Some?, NextAttempt(s, c, s.calls[c].pc.attempt + 1).calls[c])
  {
    ResultsNext(s.calls[c].log, Started);
  }

  lemma TimeoutDecides(max: int, before: Call, after: Call)
    requires before.pc.AwaitingRecovery? && Decided(max, before.event.Some?, before) && after.event == before.event
    requires after.log == before.log + [RecoveryTimedOut] && after.pc == Ended(Raised(before.pc.error))
    ensures Decided(max, after.event.Some?, after)
  {
    ResultsNext(before.log, RecoveryTimedOut);
  }

  lemma AbandonDecides(max: int, before: Call, how: Ending)
    requires (before.pc.Sleeping? || before.pc.AwaitingRecovery?) && Decided(max, before.event.Some?, before)
    requires !EndsWith(before.log, RecoveryTimedOut) && (how == SupersededError || how == TaskCancelled)
    ensures Decided(max, before.event.Some?, before.(pc := Ended(how)))
  {
  }

  lemma RecoveryWaitDecides(max: int, s: State, c: nat)
    requires c < |s.calls| && Decided(max, s.calls[c].event.Some?, s.calls[c]) && s.calls[c].pc.AwaitingRecovery?
    requires !EndsWith(s.calls[c].log, RecoveryTimedOut)
    ensures Decided(max, s.calls[c].event.Some?, EndRecoveryWait(s, c).calls[c])
  {
    if Cancelled(s, s.calls[c]) {
      AbandonDecides(max, s.calls[c], SupersededError);
    } else if s.calls[c].pc.recovered {
      NextDecides(max, s, c);
    } else {
      TimeoutDecides(max, s.calls[c], EndRecoveryWait(s, c).calls[c]);
    }
  }

  lemma {:induction false} SubjectDecides(cfg: Config, s: State, a: Action, c: nat)
    requires Enabled(s, a) && Subject(a) == Some(c) && Decided(cfg.maxAttempts, s.calls[c].event.Some?, s.calls[c])
    requires Justified(cfg.maxAttempts, s.fired, s.calls[c])
    ensures c < |Step(cfg, s, a).calls| && Decided(cfg.maxAttempts, s.calls[c].event.Some?, Step(cfg, s, a).calls[c])
  {
    var max := cfg.maxAttempts;
    match a
    case OperationDone(_, result, jitter) =>
      FinishHasShape(cfg, s, c, result, jitter);
      FinishDecides(cfg, s.calls[c], Cancelled(s, s.calls[c]), result, Step(cfg, s, a).calls[c]);
    case DelayElapsed(_) => NextDecides(max, s, c);
    case DelayInterrupted(_) => AbandonDecides(max, s.calls[c], SupersededError);
    case RecoveryWaitOver(_) => RecoveryWaitDecides(max, s, c);
    case CancelTask(_) => AbandonDecides(max, s.calls[c], TaskCancelled);
    case _ =>
  }

  lemma FreshIsDecided(max: int, c: Call)
    requires c.pc == InOperation(1) && c.log == [Started]
    ensures Decided(max, c.event.Some?, c)
  {
    assert [] + [Started] == [Started];
    ResultsNext([], Started);
  }

  lemma {:induction false} StepDecides(cfg: Config, s: State, a: Action)
    requires Enabled(s, a) && AllDecided(cfg.maxAttempts, s) && AllJustified(cfg.maxAttempts, s)
    ensures AllDecided(cfg.maxAttempts, Step(cfg, s, a))
  {
    var t := Step(cfg, s, a);
    forall i | 0 <= i < |t.calls| ensures Decided(cfg.maxAttempts, t.calls[i].event.Some?, t.calls[i]) {
      if i >= |s.calls| {
        FreshIsDecided(cfg.maxAttempts, t.calls[i]);
      } else if Subject(a) == Some(i) {
        SubjectDecides(cfg, s, a, i);
      } else {
        Frame(cfg, s, a, i);
        assert Decided(cfg.maxAttempts, s.calls[i].event.Some?, s.calls[i]);
      }
    }
  }

  lemma {:induction false} ExecDecides(cfg: Config, s: State, acts: seq<Action>)
    requires AllDecided(cfg.maxAttempts, s) && AllJustified(cfg.maxAttempts, s) && Runs(cfg, s, acts)
    ensures AllDecided(cfg.maxAttempts, Exec(cfg, s, acts))
    decreases |acts|
  {
    if acts != [] {
      StepDecides(cfg, s, acts[0]);
      StepJustified(cfg, s, acts[0]);
      ExecDecides(cfg, Step(cfg, s, acts[0]), acts[1..]);
    }
  }

  /** In every run the call begun by action `n` is decided by its results and by nothing else: it goes
      on after a result exactly if it asked to be retried, the result is a retryable error and fewer
      than max_attempts operations have run; it returns exactly if its last result is a value; it
      raises exactly if its last result is an error not worth another attempt, or the recovery awaited
      after that error did not come. */
  lemma {:induction false} ResultsDecide(cfg: Config, acts: seq<Action>, n: nat)
    requires Runs(cfg, INITIAL, acts) && n < |acts| && acts[n].Begin?
    ensures Runs(cfg, INITIAL, acts[..n]) && |Exec(cfg, INITIAL, acts[..n]).calls| < |Exec(cfg, INITIAL, acts).calls|
    ensures var c := |Exec(cfg, INITIAL, acts[..n]).calls|;
            Decided(cfg.maxAttempts, acts[n].retry, Exec(cfg, INITIAL, acts).calls[c])
  {
    BegunCallsAreRegistered(cfg, acts, n);
    ExecDecides(cfg, INITIAL, acts);
    var c := Exec(cfg, INITIAL, acts).calls[|Exec(cfg, INITIAL, acts[..n]).calls|];
    SameDecision(cfg.maxAttempts, c.event.Some?, acts[n].retry, c);
  }

  lemma SameDecision(max: int, a: bool, b: bool, c: Call)
    requires Decided(max, a, c) && (a <==> b && max > 0)
    ensures Decided(max, b, c)
  {
    assert forall i: nat, r :: WorthRetrying(max, a, i, r) == WorthRetrying(max, b, i, r);
  }

  // ------------------------------------------------------------ waits

  predicate IsWait(e: Event) { e.SleepBegan? || e.RecoveryBegan? }

  ghost predicate SleepsFor(cfg: Config, attempt: pos, e: Error, seconds: real) {
    exists jitter: real :: JitterInRange(jitter) && seconds == Delay(cfg, attempt, e, jitter)
  }

  /** The wait at place `k` of a log comes right after an error: a lost connection is awaited for the
      configured time, every other error slept on for the delay of that error and attempt. */
  ghost predicate RightWait(cfg: Config, log: seq<Event>, k: nat)
    requires k < |log|
  {
    var attempt := |Results(log[..k])|;
    && k > 0 && attempt > 0 && log[k - 1].Finished? && log[k - 1].result.Failure?
    && var e := log[k - 1].result.error;
       if e.cls == NoConnection then log[k] == RecoveryBegan(cfg.recoveryWait)
       else log[k].SleepBegan? && SleepsFor(cfg, attempt, e, log[k].seconds)
  }

  ghost predicate RightWaits(cfg: Config, log: seq<Event>) {
    forall k: nat | k < |log| && IsWait(log[k]) :: RightWait(cfg, log, k)
  }

  lemma RightWaitsNext(cfg: Config, log: seq<Event>, e: Event)
    requires RightWaits(cfg, log) && (IsWait(e) ==> RightWait(cfg, log + [e], |log|))
    ensures RightWaits(cfg, log + [e])
  {
    forall k: nat | k < |log| && IsWait(log[k]) ensures RightWait(cfg, log + [e], k) {
      assert RightWait(cfg, log, k);
      assert (log + [e])[..k] == log[..k];
    }
  }

  lemma FinishWaitsRight(cfg: Config, s: State, c: nat, result: OpResult, jitter: real)
    requires c < |s.calls| && s.calls[c].pc.InOperation? && JitterInRange(jitter)
    requires RightWaits(cfg, s.calls[c].log) && s.calls[c].pc.attempt == |Results(s.calls[c].log)| + 1
    ensures RightWaits(cfg, FinishOperation(cfg, s, c, result, jitter).calls[c].log)
  {
    var before, after := s.calls[c], FinishOperation(cfg, s, c, result, jitter).calls[c];
    var log := before.log + [Finished(result)];
    RightWaitsNext(cfg, before.log, Finished(result));
    ResultsNext(before.log, Finished(result));
    FinishHasShape(cfg, s, c, result, jitter);
    if WillWait(cfg, before, result) {
      WaitIsRight(cfg, log, before.pc.attempt, result.error, jitter);
      assert after.log == log + [WaitFor(cfg, before.pc.attempt, result.error, jitter)];
    }
  }

  /** The wait the handler begins after an error. */
  function WaitFor(cfg: Config, attempt: pos, e: Error, jitter: real): Event {
    if e.cls == NoConnection then RecoveryBegan(cfg.recoveryWait) else SleepBegan(Delay(cfg, attempt, e, jitter))
  }

  lemma WaitIsRight(cfg: Config, log: seq<Event>, attempt: pos, e: Error, jitter: real)
    requires RightWaits(cfg, log) && JitterInRange(jitter) && |Results(log)| == attempt
    requires EndsWith(log, Finished(Failure(e)))
    ensures RightWaits(cfg, log + [WaitFor(cfg, attempt, e, jitter)])
  {
    var wait := WaitFor(cfg, attempt, e, jitter);
    assert (log + [wait])[..|log|] == log;
    assert wait.SleepBegan? ==> SleepsFor(cfg, attempt, e, wait.seconds);
    RightWaitsNext(cfg, log, wait);
  }

  ghost predicate AllWaitsRight(cfg: Config, s: State) {
    forall i | 0 <= i < |s.calls| :: RightWaits(cfg, s.calls[i].log)
  }

  lemma {:induction false} SubjectWaitsRight(cfg: Config, s: State, a: Action, c: nat)
    requires Enabled(s, a) && Subject(a) == Some(c) && RightWaits(cfg, s.calls[c].log)
    requires Decided(cfg.maxAttempts, s.calls[c].event.Some?, s.calls[c])
    ensures c < |Step(cfg, s, a).calls| && RightWaits(cfg, Step(cfg, s, a).calls[c].log)
  {
    var log := s.calls[c].log;
    RightWaitsNext(cfg, log, Started);
    RightWaitsNext(cfg, log, RecoveryTimedOut);
    if a.OperationDone? {
      FinishWaitsRight(cfg, s, c, a.result, a.jitter);
    } else {
      assert Step(cfg, s, a).calls[c].log in {log, log + [Started], log + [RecoveryTimedOut]};
    }
  }

  lemma {:induction false} StepWaitsRight(cfg: Config, s: State, a: Action)
    requires Enabled(s, a) && AllWaitsRight(cfg, s) && AllDecided(cfg.maxAttempts, s)
    ensures AllWaitsRight(cfg, Step(cfg, s, a))
  {
    var t := Step(cfg, s, a);
    forall i | 0 <= i < |t.calls| ensures RightWaits(cfg, t.calls[i].log) {
      if i >= |s.calls| {
        assert t.calls[i].log == [Started];
      } else if Subject(a) == Some(i) {
        SubjectWaitsRight(cfg, s, a, i);
      } else {
        Frame(cfg, s, a, i);
        assert RightWaits(cfg, s.calls[i].log);
      }
    }
  }

  /** In every run every wait of every call is the right one for the error before it. */
  lemma {:induction false} WaitsAreRight(cfg: Config, s: State, acts: seq<Action>)
    requires AllWaitsRight(cfg, s) && AllDecided(cfg.maxAttempts, s) && AllJustified(cfg.maxAttempts, s)
    requires Runs(cfg, s, acts)
    ensures AllWaitsRight(cfg, Exec(cfg, s, acts))
    decreases |acts|
  {
    if acts != [] {
      StepWaitsRight(cfg, s, acts[0]);
      StepDecides(cfg, s, acts[0]);
      StepJustified(cfg, s, acts[0]);
      WaitsAreRight(cfg, Step(cfg, s, acts[0]), acts[1..]);
    }
  }

  // ------------------------------------------------------------ waking up

  /** A sleep that is over leads to the next attempt unless the call was cancelled meanwhile. */
  lemma SleepLeadsOn(cfg: Config, s: State, c: nat)
    requires c < |s.calls| && s.calls[c].pc.Sleeping?
    ensures
      var woken := Step(cfg, s, DelayElapsed(c)).calls[c];
      if Cancelled(s, s.calls[c]) then woken.pc == Ended(SupersededError) && woken.log == s.calls[c].log
      else woken.pc == InOperation(s.calls[c].pc.attempt + 1) && woken.log == s.calls[c].log + [Started]
  {
  }

  /** In every run a call ends because its coroutine was cancelled exactly if that happened to it
      while it was waiting. */
  lemma {:induction false} TaskCancelledIff(cfg: Config, s: State, acts: seq<Action>, c: nat)
    requires Runs(cfg, s, acts) && c < |s.calls| && !s.calls[c].pc.Ended?
    ensures c < |Exec(cfg, s, acts).calls|
    ensures Exec(cfg, s, acts).calls[c].pc == Ended(TaskCancelled) <==> CancelTask(c) in acts
    decreases |acts|
  {
    if acts != [] {
      var a, t := acts[0], Step(cfg, s, acts[0]);
      StepTaskCancelled(cfg, s, a, c);
      assert CancelTask(c) in acts <==> a == CancelTask(c) || CancelTask(c) in acts[1..];
      if t.calls[c].pc.Ended? {
        EndedStaysEnded(cfg, t, acts[1..], c);
        EndedIsLeftAlone(cfg, t, acts[1..], c);
      } else {
        TaskCancelledIff(cfg, t, acts[1..], c);
      }
    }
  }

  lemma StepTaskCancelled(cfg: Config, s: State, a: Action, c: nat)
    requires Enabled(s, a) && c < |s.calls| && !s.calls[c].pc.Ended?
    ensures c < |Step(cfg, s, a).calls| && (Step(cfg, s, a).calls[c].pc == Ended(TaskCancelled) <==> a == CancelTask(c))
  {
    Frame(cfg, s, a, c);
    if a.OperationDone? && a.c == c {
      FinishHasShape(cfg, s, c, a.result, a.jitter);
    }
  }

  lemma {:induction false} EndedIsLeftAlone(cfg: Config, s: State, acts: seq<Action>, c: nat)
    requires Runs(cfg, s, acts) && c < |s.calls| && s.calls[c].pc.Ended?
    ensures CancelTask(c) !in acts
    decreases |acts|
  {
    if acts != [] {
      Frame(cfg, s, acts[0], c);
      EndedIsLeftAlone(cfg, Step(cfg, s, acts[0]), acts[1..], c);
    }
  }
}
