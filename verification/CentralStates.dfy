/** The central state machine: validated transitions with a bounded history. */
module CentralStates {
  import opened Basics

  datatype CentralState = Starting | Initializing | Running | Degraded | Recovering | Failed | Stopped

  datatype FailureReason = NoFailure | Auth | Network | Internal | TimedOut | CircuitBreakerOpen | Unknown

  function Successors(s: CentralState): set<CentralState> {
    match s
    case Starting => {Initializing, Stopped}
    case Initializing => {Running, Degraded, Failed, Stopped}
    case Running => {Degraded, Recovering, Stopped}
    case Degraded => {Running, Recovering, Failed, Stopped}
    case Recovering => {Running, Degraded, Failed, Stopped}
    case Failed => {Recovering, Stopped}
    case Stopped => {}
  }

  predicate CanMove(from: CentralState, to: CentralState) { to in Successors(from) }

  /** The arguments of one `transition_to`, and the clock reading it takes. */
  datatype Request = Request(target: CentralState, reason: string, failureReason: FailureReason,
                             failureInterface: Option<string>, degraded: map<string, FailureReason>, at: int)

  datatype Entry = Entry(at: int, from: CentralState, to: CentralState, reason: string)

  datatype Failure = Failure(reason: FailureReason, message: string, interfaceId: Option<string>)

  datatype Machine = Machine(state: CentralState, failure: Failure, degraded: map<string, FailureReason>,
                             history: seq<Entry>)

  const NO_FAILURE := Failure(NoFailure, "", None)
  const INITIAL := Machine(Starting, NO_FAILURE, map[], [])
  const HISTORY_LIMIT: nat := 100

  function LastOf<T>(s: seq<T>, n: nat): seq<T> {
    if |s| <= n then s else s[|s| - n..]
  }

  /** What a transition does once it has been accepted. */
  function Moved(m: Machine, r: Request): Machine {
    Machine(
      r.target,
      if r.target == Failed then Failure(r.failureReason, r.reason, r.failureInterface)
      else if r.target == Running then NO_FAILURE else m.failure,
      if r.target == Degraded then r.degraded
      else if r.target == Failed || r.target == Running then map[] else m.degraded,
      LastOf(m.history + [Entry(r.at, m.state, r.target, r.reason)], HISTORY_LIMIT))
  }

  /** An unforced transition; an illegal one raises and changes nothing. */
  function Transition(m: Machine, r: Request): Machine {
    if CanMove(m.state, r.target) then Moved(m, r) else m
  }

  function Replay(rs: seq<Request>): Machine {
    if rs == [] then INITIAL else Transition(Replay(rs[..|rs| - 1]), rs[|rs| - 1])
  }

  // ------------------------------------------------------------ the object

  class CentralStateMachine {
    var state: CentralState
    var failure: Failure
    var degradedInterfaces: map<string, FailureReason>
    var stateHistory: seq<Entry>

    function View(): Machine
      reads this
    {
      Machine(state, failure, degradedInterfaces, stateHistory)
    }

    constructor ()
      ensures View() == INITIAL
    {
      state, failure, degradedInterfaces, stateHistory := Starting, NO_FAILURE, map[], [];
    }

    method CanTransitionTo(target: CentralState) returns (ok: bool)
      ensures ok <==> CanMove(state, target)
    {
      ok := target in Successors(state);
    }

    /** `accepted` is false where the source raises InvalidCentralStateTransitionError. */
    method TransitionTo(r: Request, force: bool) returns (accepted: bool)
      modifies this
      ensures accepted <==> force || CanMove(old(state), r.target)
      ensures View() == if accepted then Moved(old(View()), r) else old(View())
    {
      var legal := CanTransitionTo(r.target);
      if !force && !legal {
        return false;
      }
      var oldState := state;
      state := r.target;
      if r.target == Failed {
        failure := Failure(r.failureReason, r.reason, r.failureInterface);
        degradedInterfaces := map[];
      } else if r.target == Degraded {
        degradedInterfaces := r.degraded;
      } else if r.target == Running {
        failure := NO_FAILURE;
        degradedInterfaces := map[];
      }
      stateHistory := stateHistory + [Entry(r.at, oldState, r.target, r.reason)];
      if |stateHistory| > 100 {
        stateHistory := stateHistory[|stateHistory| - 100..];
      }
      return true;
    }
  }

  // ------------------------------------------------------------ the full log

  /** An accepted request together with the state it was made in. */
  datatype Accepted = Accepted(from: CentralState, r: Request)

  /** Every accepted request so far, nothing forgotten. */
  function FullLog(rs: seq<Request>): seq<Accepted> {
    if rs == [] then []
    else
      var before := rs[..|rs| - 1];
      var s := Replay(before).state;
      if CanMove(s, rs[|rs| - 1].target) then FullLog(before) + [Accepted(s, rs[|rs| - 1])] else FullLog(before)
  }

  function ToEntry(a: Accepted): Entry { Entry(a.r.at, a.from, a.r.target, a.r.reason) }

  function Entries(log: seq<Accepted>): seq<Entry> {
    seq(|log|, i requires 0 <= i < |log| => ToEntry(log[i]))
  }

  /** The log starts at STARTING, ends at `s`, and follows legal edges all the way. */
  predicate Chain(log: seq<Accepted>, s: CentralState) {
    && (log == [] ==> s == Starting)
    && (log != [] ==> log[0].from == Starting && log[|log| - 1].r.target == s)
    && (forall i | 0 <= i < |log| :: CanMove(log[i].from, log[i].r.target))
    && (forall i | 0 < i < |log| :: log[i - 1].r.target == log[i].from)
  }

  predicate IsLast(log: seq<Accepted>, i: int, targets: set<CentralState>) {
    && -1 <= i < |log| && (i >= 0 ==> log[i].r.target in targets)
    && forall j | i < j < |log| :: log[j].r.target !in targets
  }

  /** The failure a log implies: that of its last FAILED entry, unless RUNNING came later. */
  ghost predicate FailureFrom(log: seq<Accepted>, f: Failure) {
    exists i :: IsLast(log, i, {Failed, Running}) &&
      f == if i >= 0 && log[i].r.target == Failed
           then Failure(log[i].r.failureReason, log[i].r.reason, log[i].r.failureInterface) else NO_FAILURE
  }

  /** The degraded interfaces a log implies: those of its last DEGRADED entry, unless FAILED or
      RUNNING came later. */
  ghost predicate DegradedFrom(log: seq<Accepted>, d: map<string, FailureReason>) {
    exists i :: IsLast(log, i, {Failed, Running, Degraded}) &&
      d == if i >= 0 && log[i].r.target == Degraded then log[i].r.degraded else map[]
  }

  lemma ExtendLast(log: seq<Accepted>, a: Accepted, i: int, targets: set<CentralState>)
    requires IsLast(log, i, targets)
    ensures IsLast(log + [a], if a.r.target in targets then |log| else i, targets)
  {
  }

  lemma FieldsExtend(m: Machine, log: seq<Accepted>, r: Request)
    requires FailureFrom(log, m.failure) && DegradedFrom(log, m.degraded)
    ensures FailureFrom(log + [Accepted(m.state, r)], Moved(m, r).failure)
    ensures DegradedFrom(log + [Accepted(m.state, r)], Moved(m, r).degraded)
  {
    var a := Accepted(m.state, r);
    var i :| IsLast(log, i, {Failed, Running}) &&
      m.failure == if i >= 0 && log[i].r.target == Failed
                   then Failure(log[i].r.failureReason, log[i].r.reason, log[i].r.failureInterface) else NO_FAILURE;
    ExtendLast(log, a, i, {Failed, Running});
    var j :| IsLast(log, j, {Failed, Running, Degraded}) &&
      m.degraded == if j >= 0 && log[j].r.target == Degraded then log[j].r.degraded else map[];
    ExtendLast(log, a, j, {Failed, Running, Degraded});
  }

  ghost predicate Faithful(m: Machine, log: seq<Accepted>) {
    && m.history == LastOf(Entries(log), 100)
    && Chain(log, m.state)
    && FailureFrom(log, m.failure)
    && DegradedFrom(log, m.degraded)
  }

  lemma FaithfulExtends(m: Machine, log: seq<Accepted>, r: Request)
    requires Faithful(m, log) && CanMove(m.state, r.target)
    ensures Faithful(Moved(m, r), log + [Accepted(m.state, r)])
  {
    FieldsExtend(m, log, r);
    ChainExtends(m, log, r);
    HistoryExtends(m, log, r);
  }

  lemma ChainExtends(m: Machine, log: seq<Accepted>, r: Request)
    requires Chain(log, m.state) && CanMove(m.state, r.target)
    ensures Chain(log + [Accepted(m.state, r)], r.target)
  {
  }

  lemma HistoryExtends(m: Machine, log: seq<Accepted>, r: Request)
    requires m.history == LastOf(Entries(log), 100)
    ensures Moved(m, r).history == LastOf(Entries(log + [Accepted(m.state, r)]), 100)
  {
    var a := Accepted(m.state, r);
    assert Entries(log + [a]) == Entries(log) + [ToEntry(a)];
    LastOfSnoc(Entries(log), ToEntry(a), 100);
  }

  /** After any requests, legal or not: the stored history is exactly the last 100 entries of the
      full log; the log chains legal edges from STARTING to the current state; and the failure
      and degraded fields are those the whole log implies, even where the entries they stem
      from have been truncated away. */
  lemma {:induction false} HistoryIsFaithful(rs: seq<Request>)
    ensures Faithful(Replay(rs), FullLog(rs))
  {
    if rs == [] {
      assert IsLast([], -1, {Failed, Running}) && IsLast([], -1, {Failed, Running, Degraded});
    } else {
      var before, r := rs[..|rs| - 1], rs[|rs| - 1];
      HistoryIsFaithful(before);
      if CanMove(Replay(before).state, r.target) {
        FaithfulExtends(Replay(before), FullLog(before), r);
      }
    }
  }

  lemma LastOfSnoc<T>(s: seq<T>, x: T, n: nat)
    requires n > 0
    ensures LastOf(LastOf(s, n) + [x], n) == LastOf(s + [x], n)
  {
  }

  /** STOPPED is absorbing: nothing requested afterwards changes anything. */
  lemma {:induction false} StoppedIsAbsorbing(rs: seq<Request>, more: seq<Request>)
    requires Replay(rs).state == Stopped
    ensures Replay(rs + more) == Replay(rs)
  {
    if more == [] {
      assert rs + more == rs;
    } else {
      StoppedIsAbsorbing(rs, more[..|more| - 1]);
      assert (rs + more)[..|rs + more| - 1] == rs + more[..|more| - 1];
    }
  }

  /** STARTING is never re-entered and INITIALIZING is entered at most once. */
  lemma InitialisesOnce(rs: seq<Request>, i: nat, j: nat)
    requires i < |FullLog(rs)| && j < |FullLog(rs)|
    ensures FullLog(rs)[i].r.target != Starting
    ensures FullLog(rs)[i].r.target == Initializing && FullLog(rs)[j].r.target == Initializing ==> i == j
  {
    HistoryIsFaithful(rs);
    InitialisesFirst(FullLog(rs), Replay(rs).state, i);
    InitialisesFirst(FullLog(rs), Replay(rs).state, j);
  }

  lemma InitialisesFirst(log: seq<Accepted>, s: CentralState, i: nat)
    requires Chain(log, s) && i < |log|
    ensures log[i].r.target != Starting && (log[i].r.target == Initializing ==> i == 0)
  {
    if i > 0 {
      assert CanMove(log[i - 1].from, log[i - 1].r.target);
    }
  }

  // ------------------------------------------------------------ what can happen

  function Plain(target: CentralState): Request { Request(target, "", NoFailure, None, map[], 0) }

  lemma ReplayNext(rs: seq<Request>, r: Request)
    ensures Replay(rs + [r]) == Transition(Replay(rs), r)
    ensures CanMove(Replay(rs).state, r.target) ==> FullLog(rs + [r]) == FullLog(rs) + [Accepted(Replay(rs).state, r)]
  {
    assert (rs + [r])[..|rs|] == rs;
  }

  lemma GoOn(rs: seq<Request>, target: CentralState) returns (more: seq<Request>)
    requires CanMove(Replay(rs).state, target)
    ensures Replay(more).state == target
  {
    more := rs + [Plain(target)];
    ReplayNext(rs, Plain(target));
  }

  lemma EveryStateIsReached(s: CentralState) returns (rs: seq<Request>)
    ensures Replay(rs).state == s
  {
    rs := [];
    if s == Stopped {
      rs := GoOn(rs, Stopped);
    } else if s != Starting {
      rs := GoOn(rs, Initializing);
      if s == Recovering {
        rs := GoOn(rs, Failed);
      }
      if s != Initializing {
        rs := GoOn(rs, s);
      }
    }
  }

  /** Some history, of whatever requests, contains the step from `a` to `b`. */
  ghost predicate Happens(a: CentralState, b: CentralState) {
    exists rs: seq<Request>, i: nat :: i < |FullLog(rs)| && FullLog(rs)[i].from == a && FullLog(rs)[i].r.target == b
  }

  /** `can_transition_to` answers yes exactly for the steps that occur in some history. */
  lemma CanMoveIffItHappens(a: CentralState, b: CentralState)
    ensures CanMove(a, b) <==> Happens(a, b)
  {
    if CanMove(a, b) {
      var rs := EveryStateIsReached(a);
      ReplayNext(rs, Plain(b));
      var last := FullLog(rs + [Plain(b)])[|FullLog(rs)|];
      assert last.from == a && last.r.target == b;
    }
    if Happens(a, b) {
      var rs: seq<Request>, i: nat :| i < |FullLog(rs)| && FullLog(rs)[i].from == a && FullLog(rs)[i].r.target == b;
      HistoryIsFaithful(rs);
    }
  }

  /** The transition graph, by the states each state can be entered from. */
  lemma StatesInto(s: CentralState)
    ensures !CanMove(s, Starting)
    ensures CanMove(s, Initializing) <==> s == Starting
    ensures CanMove(s, Running) <==> s == Initializing || s == Degraded || s == Recovering
    ensures CanMove(s, Degraded) <==> s == Initializing || s == Running || s == Recovering
    ensures CanMove(s, Recovering) <==> s == Running || s == Degraded || s == Failed
    ensures CanMove(s, Failed) <==> s == Initializing || s == Degraded || s == Recovering
    ensures CanMove(s, Stopped) <==> s != Stopped
  {
  }
}
