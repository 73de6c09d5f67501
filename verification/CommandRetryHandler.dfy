/**
  The handler object.  Its synchronous methods, and each stretch of its coroutine between two
  awaits, are proved to perform exactly one step of the protocol in module CommandRetry, and the
  coroutine as a whole to perform a run of it; so everything proved about runs holds of the object.
 */
module CommandRetryHandler {
  import opened Basics
  import opened RetryErrors
  import opened CommandRetry
  import opened CommandRetrySafety
  import opened CommandRetryOutcomes

  class Handler {
    const cfg: Config
    var activeRetries: map<DataPointKey, nat>
    var firedEvents: set<nat>
    var calls: seq<Call>
    var metrics: Metrics
    var owners: seq<nat>  // the call that created each event; its length numbers the next one

    function View(): State
      reads this
    {
      State(activeRetries, firedEvents, owners, calls, metrics)
    }

    constructor (cfg: Config)
      ensures View() == INITIAL && this.cfg == cfg
    {
      this.cfg := cfg;
      activeRetries, firedEvents, calls := map[], {}, [];
      metrics, owners := ZERO_METRICS, [];
    }

    /** Register a fresh event for the key; the event registered before, if any, is set. */
    method RegisterRetry(dpk: DataPointKey) returns (event: nat)
      modifies this
      ensures View() == Register(old(View()), dpk)
      ensures event == |old(owners)|
    {
      if dpk in activeRetries {
        firedEvents := firedEvents + {activeRetries[dpk]};
        metrics := metrics.(cancelledRetries := metrics.cancelledRetries + 1);
      }
      event := |owners|;
      owners := owners + [|calls|];
      activeRetries := activeRetries[dpk := event];
    }

    method CancelRetryForDpk(dpk: DataPointKey) returns (count: nat)
      modifies this
      ensures View() == CancelAll(old(View()), Targets(old(View()), CancelKey(dpk)))
      ensures count == |Targets(old(View()), CancelKey(dpk))|
    {
      if dpk in activeRetries {
        OneTarget(View(), dpk);
        firedEvents := firedEvents + {activeRetries[dpk]};
        activeRetries := activeRetries - {dpk};
        metrics := metrics.(cancelledRetries := metrics.cancelledRetries + 1);
        return 1;
      }
      assert Targets(View(), CancelKey(dpk)) == {};
      CancelNothing(View());
      return 0;
    }

    /** Cancelling keys one by one amounts to cancelling them all at once. */
    method CancelEach(keys: set<DataPointKey>) returns (count: nat)
      requires keys <= activeRetries.Keys
      modifies this
      ensures View() == CancelAll(old(View()), keys) && count == |keys|
    {
      var todo := keys;
      ghost var start, done := View(), {};
      count := 0;
      CancelNothing(start);
      while todo != {}
        invariant todo !! done && todo + done == keys
        invariant View() == CancelAll(start, done) && count == |done|
        decreases |todo|
      {
        var k :| k in todo;
        var n := CancelAnother(k, start, done);
        count, todo, done := count + n, todo - {k}, done + {k};
      }
    }

    method CancelAnother(k: DataPointKey, ghost start: State, ghost done: set<DataPointKey>) returns (count: nat)
      requires done <= start.active.Keys && k in start.active && k !in done && View() == CancelAll(start, done)
      modifies this
      ensures View() == CancelAll(start, done + {k}) && |done + {k}| == |done| + count
    {
      CancelOneMore(start, done, k);
      OneTarget(View(), k);
      count := CancelRetryForDpk(k);
    }

    /** Purge of one device: its own address and every channel of it. */
    method CancelRetriesForDevice(deviceAddress: string) returns (count: nat)
      modifies this
      ensures View() == Step(cfg, old(View()), CancelDevice(deviceAddress))
      ensures count == |Targets(old(View()), CancelDevice(deviceAddress))|
    {
      var toCancel := set k | k in activeRetries && OnDevice(k, deviceAddress);
      count := CancelEach(toCancel);
    }

    /** Purge of the whole interface; nothing stays registered. */
    method CancelRetriesForInterface() returns (count: nat)
      modifies this
      ensures activeRetries == map[]
      ensures View() == Step(cfg, old(View()), CancelInterface)
      ensures count == |old(activeRetries).Keys|
    {
      count := CancelEach(activeRetries.Keys);
    }

    // ---------------------------------------------------------- the coroutine

    /** The `finally` block, and the exit of the coroutine with `how`. */
    method Leave(me: nat, how: Ending)
      requires me < |calls|
      modifies this
      ensures View() == End(old(View()), me, how)
    {
      var call := calls[me];
      if call.event.Some? && call.key in activeRetries && activeRetries[call.key] == call.event.value {
        activeRetries := activeRetries - {call.key};
      }
      calls := calls[me := call.(pc := Ended(how))];
    }

    /** From the call to the first await: register, check the fresh event, start the operation. */
    method Enter(dpk: DataPointKey, retry: bool) returns (me: nat)
      modifies this
      ensures View() == Step(cfg, old(View()), Begin(dpk, retry)) && me == |old(calls)|
    {
      me := |calls|;
      if !retry || cfg.maxAttempts <= 0 {
        calls := calls + [Call(dpk, None, InOperation(1), [Started])];
      } else {
        var event := RegisterRetry(dpk);
        calls := calls + [Call(dpk, Some(event), InOperation(1), [Started])];
      }
    }

    /** From the end of the operation to the next await, or to the end of the call. */
    method AfterOperation(me: nat, result: OpResult, jitter: real)
      requires Enabled(View(), OperationDone(me, result, jitter))
      modifies this
      ensures View() == Step(cfg, old(View()), OperationDone(me, result, jitter))
    {
      var attempt := calls[me].pc.attempt;
      calls := calls[me := calls[me].(log := calls[me].log + [Finished(result)])];
      if calls[me].event.None? {
        Leave(me, if result.Value? then Returned(result.v) else Raised(result.error));
      } else if result.Value? {
        if attempt > 1 {
          metrics := metrics.(successfulRetries := metrics.successfulRetries + 1);
        }
        Leave(me, Returned(result.v));
      } else if !IsRetryable(result.error) {
        Leave(me, Raised(result.error));
      } else if attempt >= cfg.maxAttempts {
        metrics := metrics.(exhaustedRetries := metrics.exhaustedRetries + 1);
        Leave(me, Raised(result.error));
      } else {
        BeginWait(me, attempt, result.error, jitter);
      }
    }

    /** The part of the exception handler that prepares the next attempt. */
    method BeginWait(me: nat, attempt: pos, e: Error, jitter: real)
      requires me < |calls| && IsRetryable(e) && attempt < cfg.maxAttempts
      modifies this
      ensures View() == AfterFailure(cfg, old(View()), me, attempt, e, jitter)
    {
      var delay := Delay(cfg, attempt, e, jitter);
      metrics := metrics.(totalRetries := metrics.totalRetries + 1);
      if e.cls == NoConnection {
        metrics := metrics.(recoveryWaits := metrics.recoveryWaits + 1);
        calls := calls[me := calls[me].(pc := AwaitingRecovery(attempt, e, false),
                                        log := calls[me].log + [RecoveryBegan(cfg.recoveryWait)])];
      } else {
        calls := calls[me := calls[me].(pc := Sleeping(attempt), log := calls[me].log + [SleepBegan(delay)])];
        if calls[me].event.Some? && calls[me].event.value in firedEvents {
          Leave(me, SupersededError);
        }
      }
    }

    /** The head of the attempt loop. */
    method TryAgain(me: nat, attempt: pos)
      requires me < |calls|
      modifies this
      ensures View() == NextAttempt(old(View()), me, attempt)
    {
      if calls[me].event.Some? && calls[me].event.value in firedEvents {
        Leave(me, SupersededError);
      } else {
        calls := calls[me := calls[me].(pc := InOperation(attempt), log := calls[me].log + [Started])];
      }
    }

    /** From the end of the recovery wait to the next operation, or to the end of the call. */
    method AfterRecoveryWait(me: nat)
      requires Enabled(View(), RecoveryWaitOver(me))
      modifies this
      ensures View() == Step(cfg, old(View()), RecoveryWaitOver(me))
    {
      var pc := calls[me].pc;
      if calls[me].event.Some? && calls[me].event.value in firedEvents {
        Leave(me, SupersededError);
      } else if pc.recovered {
        TryAgain(me, pc.attempt + 1);
      } else {
        metrics := metrics.(recoveryWaitTimeouts := metrics.recoveryWaitTimeouts + 1);
        calls := calls[me := calls[me].(log := calls[me].log + [RecoveryTimedOut])];
        Leave(me, Raised(pc.error));
      }
    }

    /** What other coroutines and the event bus do while call `me` is suspended: any of the
        given actions that is possible and does not resume `me`. */
    method Interfere(me: nat, acts: seq<Action>) returns (ghost done: seq<Action>)
      requires me < |calls|
      modifies this
      ensures Leads(cfg, old(View()), done, View())
      ensures me < |calls| && calls[me].key == old(calls[me].key) && calls[me].event == old(calls[me].event)
      ensures calls[me].pc in {old(calls[me].pc), MarkRecovered(old(calls[me])).pc}
      ensures calls[me].log == old(calls[me].log)
    {
      ghost var start := View();
      done := [];
      for i := 0 to |acts|
        invariant Leads(cfg, start, done, View())
        invariant me < |calls| && calls[me].key == start.calls[me].key && calls[me].event == start.calls[me].event
        invariant calls[me].pc in {start.calls[me].pc, MarkRecovered(start.calls[me]).pc}
        invariant calls[me].log == start.calls[me].log
      {
        if Enabled(View(), acts[i]) && Subject(acts[i]) != Some(me) {
          Frame(cfg, View(), acts[i], me);
          LeadsOn(cfg, start, done, View(), acts[i]);
          done := done + [acts[i]];
          Perform(acts[i]);
        }
      }
    }

    method Perform(a: Action)
      requires Enabled(View(), a)
      modifies this
      ensures View() == Step(cfg, old(View()), a)
    {
      var t := Step(cfg, View(), a);
      activeRetries, firedEvents, owners, calls, metrics := t.active, t.fired, t.owner, t.calls, t.metrics;
    }

    /** `result := await operation()` and the code up to the next await. */
    method AwaitOperation(me: nat, turn: Turn, ghost start: State, ghost before: seq<Action>)
        returns (ghost trace: seq<Action>)
      requires me < |calls| && calls[me].pc.InOperation? && JitterInRange(turn.jitter)
      requires Leads(cfg, start, before, View())
      modifies this
      ensures Leads(cfg, start, trace, View()) && before <= trace
      ensures me < |calls| && calls[me].key == old(calls[me].key)
      ensures calls[me].pc.Ended? || WaitsAfter(cfg, old(calls[me].pc.attempt), calls[me])
      ensures calls[me].pc != Ended(TaskCancelled)
      ensures Results(calls[me].log) == Results(old(calls[me].log)) + [turn.result]
    {
      ghost var done := Interfere(me, turn.meanwhile);
      LeadsFurther(cfg, start, before, done, View());
      LeadsOn(cfg, start, before + done, View(), OperationDone(me, turn.result, turn.jitter));
      FinishWaits(cfg, View(), me, turn.result, turn.jitter);
      FinishAddsResult(cfg, View(), me, turn.result, turn.jitter);
      trace := before + done + [OperationDone(me, turn.result, turn.jitter)];
      AfterOperation(me, turn.result, turn.jitter);
    }

    /** The sleep or the recovery wait, and the code up to the next operation. */
    method AwaitRetry(me: nat, turn: Turn, ghost start: State, ghost before: seq<Action>)
        returns (ghost trace: seq<Action>)
      requires me < |calls| && (calls[me].pc.Sleeping? || calls[me].pc.AwaitingRecovery?)
      requires Leads(cfg, start, before, View())
      modifies this
      ensures Leads(cfg, start, trace, View()) && before <= trace
      ensures me < |calls| && calls[me].key == old(calls[me].key) && calls[me].event == old(calls[me].event)
      ensures calls[me].pc.Ended? || calls[me].pc == InOperation(old(calls[me].pc.attempt) + 1)
      ensures calls[me].pc == Ended(TaskCancelled) <==> turn.wait == CancelledOutside
      ensures Results(calls[me].log) == Results(old(calls[me].log))
    {
      ghost var done := Interfere(me, turn.meanwhile);
      LeadsFurther(cfg, start, before, done, View());
      ghost var wake := WakeUp(View(), me, turn.wait);
      ResultsNext(calls[me].log, Started);
      ResultsNext(calls[me].log, RecoveryTimedOut);
      LeadsOn(cfg, start, before + done, View(), wake);
      trace := before + done + [wake];
      if turn.wait == CancelledOutside {
        Leave(me, TaskCancelled);
      } else if calls[me].pc.AwaitingRecovery? {
        AfterRecoveryWait(me);
      } else if turn.wait == Interrupted && calls[me].event.Some? && calls[me].event.value in firedEvents {
        Leave(me, SupersededError);
      } else {
        TryAgain(me, calls[me].pc.attempt + 1);
      }
    }

    /** `execute_with_retry` as one loop.  `script` says, for each await, what happens elsewhere
        meanwhile and how the await ends.  Whatever the script, the loop performs a run of the
        protocol in which this call ends, with the results the script gives its operations, and
        returns how it ended; cancelled from outside exactly if the script says so of its last wait. */
    method ExecuteWithRetry(dpk: DataPointKey, retry: bool, script: nat -> Turn)
        returns (ending: Ending, ghost trace: seq<Action>)
      requires forall k: nat :: JitterInRange(script(k).jitter)
      modifies this
      ensures Leads(cfg, old(View()), trace, View())
      ensures |old(calls)| < |calls| && calls[|old(calls)|].key == dpk && calls[|old(calls)|].pc == Ended(ending)
      ensures trace != [] && trace[0] == Begin(dpk, retry)
      ensures Follows(script, Results(calls[|old(calls)|].log), ending)
    {
      ghost var start := View();
      LeadsNowhere(cfg, start);
      LeadsOn(cfg, start, [], start, Begin(dpk, retry));
      var me := Enter(dpk, retry);
      trace := [Begin(dpk, retry)];
      assert [] + [Begin(dpk, retry)] == trace;
      var turn, attempt := 0, 1;
      while true
        invariant Leads(cfg, start, trace, View()) && me == |start.calls| < |calls|
        invariant calls[me].key == dpk && calls[me].pc.InOperation? && calls[me].pc.attempt == attempt
        invariant calls[me].event.Some? ==> attempt <= cfg.maxAttempts
        invariant trace != [] && trace[0] == Begin(dpk, retry)
        invariant turn == 2 * (attempt - 1) && GoesOn(script, Results(calls[me].log), attempt - 1)
        decreases cfg.maxAttempts - attempt
      {
        ghost var rs := Results(calls[me].log);
        trace := AwaitOperation(me, script(turn), start, trace);
        if calls[me].pc.Ended? {
          TurnsEnd(script, rs, script(turn).result, calls[me].pc.how);
          return calls[me].pc.how, trace;
        }
        trace := AwaitRetry(me, script(turn + 1), start, trace);
        if calls[me].pc.Ended? {
          TurnsEnd(script, rs, script(turn).result, calls[me].pc.how);
          return calls[me].pc.how, trace;
        }
        TurnsGoOn(script, rs, script(turn).result);
        turn, attempt := turn + 2, attempt + 1;
      }
    }
  }

  /** What ends a wait: its time or its recovery, the cancel event, or cancellation of the coroutine
      itself.  A delay that is both interrupted and over may resume either way. */
  datatype WaitEnd = Over | Interrupted | CancelledOutside

  /** How one await ends: by `result` if it is the operation, else by `wait`. */
  datatype Turn = Turn(meanwhile: seq<Action>, result: OpResult, jitter: real, wait: WaitEnd)

  /** The first `n` operations ended as the script says, and the waits after them led on. */
  predicate GoesOn(script: nat -> Turn, rs: seq<OpResult>, n: nat) {
    && |rs| == n && (forall k | 0 <= k < n :: rs[k] == script(2 * k).result)
    && (forall k | 0 <= k < n :: script(2 * k + 1).wait != CancelledOutside)
  }

  /** All operations ended as the script says; all waits but perhaps the last led on. */
  predicate Follows(script: nat -> Turn, rs: seq<OpResult>, ending: Ending) {
    && rs != [] && GoesOn(script, rs[..|rs| - 1], |rs| - 1) && rs[|rs| - 1] == script(2 * |rs| - 2).result
    && (ending == TaskCancelled ==> script(2 * |rs| - 1).wait == CancelledOutside)
  }

  lemma TurnsGoOn(script: nat -> Turn, rs: seq<OpResult>, r: OpResult)
    requires GoesOn(script, rs, |rs|) && r == script(2 * |rs|).result
    requires script(2 * |rs| + 1).wait != CancelledOutside
    ensures GoesOn(script, rs + [r], |rs| + 1)
  {
  }

  lemma TurnsEnd(script: nat -> Turn, rs: seq<OpResult>, r: OpResult, ending: Ending)
    requires GoesOn(script, rs, |rs|) && r == script(2 * |rs|).result
    requires ending == TaskCancelled ==> script(2 * |rs| + 1).wait == CancelledOutside
    ensures Follows(script, rs + [r], ending)
  {
    assert (rs + [r])[..|rs|] == rs;
  }

  lemma FinishAddsResult(cfg: Config, s: State, c: nat, result: OpResult, jitter: real)
    requires c < |s.calls| && s.calls[c].pc.InOperation?
    ensures var d := FinishOperation(cfg, s, c, result, jitter).calls[c];
            Results(d.log) == Results(s.calls[c].log) + [result] && d.pc != Ended(TaskCancelled)
  {
    FinishHasShape(cfg, s, c, result, jitter);
    var log, after := s.calls[c].log + [Finished(result)], FinishOperation(cfg, s, c, result, jitter).calls[c].log;
    ResultsNext(s.calls[c].log, Finished(result));
    if WillWait(cfg, s.calls[c], result) {
      ResultsNext(log, after[|log|]);
    }
  }

  predicate Leads(cfg: Config, s: State, acts: seq<Action>, t: State) {
    Runs(cfg, s, acts) && Exec(cfg, s, acts) == t
  }

  lemma LeadsNowhere(cfg: Config, s: State)
    ensures Leads(cfg, s, [], s)
  {
  }

  lemma {:induction false} LeadsFurther(cfg: Config, s: State, acts: seq<Action>, more: seq<Action>, u: State)
    requires Runs(cfg, s, acts) && Leads(cfg, Exec(cfg, s, acts), more, u)
    ensures Leads(cfg, s, acts + more, u)
    decreases |acts|
  {
    if acts == [] {
      assert acts + more == more;
    } else {
      LeadsFurther(cfg, Step(cfg, s, acts[0]), acts[1..], more, u);
      assert (acts + more)[1..] == acts[1..] + more;
    }
  }

  lemma LeadsOn(cfg: Config, s: State, acts: seq<Action>, t: State, a: Action)
    requires Leads(cfg, s, acts, t) && Enabled(t, a)
    ensures Leads(cfg, s, acts + [a], Step(cfg, t, a))
  {
    var u := Step(cfg, t, a);
    LeadsNowhere(cfg, u);
    assert [a][0] == a && [a][1..] == [];
    assert Runs(cfg, t, [a]);
    assert Exec(cfg, t, [a]) == u;
    LeadsFurther(cfg, s, acts, [a], u);
  }

  /** Suspended again, with at least one attempt left after number `attempt`. */
  predicate WaitsAfter(cfg: Config, attempt: pos, c: Call) {
    c.event.Some? && (c.pc.Sleeping? || c.pc.AwaitingRecovery?) && c.pc.attempt == attempt < cfg.maxAttempts
  }

  lemma FinishWaits(cfg: Config, s: State, c: nat, result: OpResult, jitter: real)
    requires c < |s.calls| && s.calls[c].pc.InOperation?
    ensures var d := FinishOperation(cfg, s, c, result, jitter).calls[c];
            d.pc.Ended? || WaitsAfter(cfg, s.calls[c].pc.attempt, d)
  {
  }

  /** The action that resumes a waiting call. */
  function WakeUp(s: State, me: nat, wait: WaitEnd): Action
    requires me < |s.calls|
  {
    if wait == CancelledOutside then CancelTask(me)
    else if s.calls[me].pc.AwaitingRecovery? then RecoveryWaitOver(me)
    else if wait == Interrupted && Cancelled(s, s.calls[me]) then DelayInterrupted(me)
    else DelayElapsed(me)
  }

  lemma CancelNothing(s: State)
    ensures CancelAll(s, {}) == s
  {
  }

  lemma CancelOneMore(s: State, done: set<DataPointKey>, k: DataPointKey)
    requires done <= s.active.Keys && k in s.active && k !in done
    ensures CancelAll(CancelAll(s, done), {k}) == CancelAll(s, done + {k})
    ensures |done + {k}| == |done| + 1
  {
    assert (s.active - done) - {k} == s.active - (done + {k});
    assert (set x | x in done + {k} :: s.active[x]) == (set x | x in done :: s.active[x]) + {s.active[k]};
  }

  lemma OneTarget(s: State, k: DataPointKey)
    requires k in s.active
    ensures Targets(s, CancelKey(k)) == {k}
  {
  }
}
