/** How the central unit derives its own state from the states of its clients. */
module CentralEvaluation {
  import opened Basics
  import opened CentralStates
  import CL = ClientStates

  datatype Client = Client(iid: string, state: CL.ClientState, failureReason: FailureReason)

  /** What an evaluation reads. */
  datatype Scene = Scene(clients: seq<Client>, inRecovery: bool,
                         lastFailureReason: FailureReason, lastFailureInterface: Option<string>)

  predicate AllConnected(cs: seq<Client>) {
    cs != [] && forall i | 0 <= i < |cs| :: cs[i].state == CL.Connected
  }

  predicate AnyConnected(cs: seq<Client>) {
    exists i | 0 <= i < |cs| :: cs[i].state == CL.Connected
  }

  function Join(words: seq<string>): string {
    if words == [] then "" else if |words| == 1 then words[0] else words[0] + ", " + Join(words[1..])
  }

  /** The interfaces that are not connected, in client order. */
  function Unconnected(cs: seq<Client>): seq<string> {
    if cs == [] then []
    else Unconnected(cs[..|cs| - 1]) + if cs[|cs| - 1].state == CL.Connected then [] else [cs[|cs| - 1].iid]
  }

  function DegradedMap(cs: seq<Client>): map<string, FailureReason> {
    if cs == [] then map[]
    else
      var c := cs[|cs| - 1];
      var m := DegradedMap(cs[..|cs| - 1]);
      if c.state == CL.Connected then m
      else m[c.iid := if c.failureReason != NoFailure then c.failureReason else Unknown]
  }

  /** The first failed client that knows why it failed, if there is one. */
  function FailureInfo(cs: seq<Client>): (FailureReason, Option<string>) {
    if cs == [] then (Network, None)
    else if cs[0].state == CL.Failed && cs[0].failureReason != NoFailure then (cs[0].failureReason, Some(cs[0].iid))
    else FailureInfo(cs[1..])
  }

  /** The transition an evaluation attempts, if any. */
  function Decide(s: CentralState, scene: Scene, fromStart: bool, trigger: string, now: int): Option<Request> {
    var cs := scene.clients;
    if AllConnected(cs) && (fromStart || !scene.inRecovery) && CanMove(s, Running) then
      Some(Request(Running, "all clients connected (" + trigger + ")", NoFailure, None, map[], now))
    else if AnyConnected(cs) && !AllConnected(cs) && (fromStart || s == Running) && CanMove(s, Degraded) then
      Some(Request(Degraded, "clients not connected: " + Join(Unconnected(cs)), NoFailure, None, DegradedMap(cs), now))
    else if !AnyConnected(cs) && (fromStart || s == Running || s == Degraded) && CanMove(s, Failed) then
      var (reason, iid) := if fromStart then (scene.lastFailureReason, scene.lastFailureInterface) else FailureInfo(cs);
      Some(Request(Failed, "no clients connected (" + trigger + ")", reason, iid, map[], now))
    else None
  }

  function Evaluated(m: Machine, scene: Scene, fromStart: bool, trigger: string, now: int): Machine {
    match Decide(m.state, scene, fromStart, trigger, now)
    case None => m
    case Some(r) => Transition(m, r)
  }

  // ------------------------------------------------------------ the object

  class CentralUnit {
    const machine: CentralStateMachine
    var clients: seq<Client>
    var inRecovery: bool
    var lastFailureReason: FailureReason
    var lastFailureInterface: Option<string>

    function SceneNow(): Scene
      reads this
    {
      Scene(clients, inRecovery, lastFailureReason, lastFailureInterface)
    }

    constructor (machine: CentralStateMachine)
      ensures this.machine == machine && SceneNow() == Scene([], false, NoFailure, None)
    {
      this.machine := machine;
      clients, inRecovery, lastFailureReason, lastFailureInterface := [], false, NoFailure, None;
    }

    method BuildDegradedInterfacesMap() returns (degraded: map<string, FailureReason>)
      ensures degraded == DegradedMap(clients)
    {
      degraded := map[];
      for i := 0 to |clients|
        invariant degraded == DegradedMap(clients[..i])
      {
        assert clients[..i + 1][..i] == clients[..i];
        var c := clients[i];
        if c.state != CL.Connected {
          degraded := degraded[c.iid := if c.failureReason != NoFailure then c.failureReason else Unknown];
        }
      }
      assert clients[..|clients|] == clients;
    }

    method DetermineFailureInfo() returns (reason: FailureReason, iid: Option<string>)
      ensures (reason, iid) == FailureInfo(clients)
    {
      for i := 0 to |clients|
        invariant FailureInfo(clients) == FailureInfo(clients[i..])
      {
        if clients[i].state == CL.Failed && clients[i].failureReason != NoFailure {
          return clients[i].failureReason, Some(clients[i].iid);
        }
        assert clients[i..][1..] == clients[i + 1..];
      }
      return Network, None;
    }

    /** `accepted` is false only if the state machine raised. */
    method EvaluateCentralState(trigger: string, fromStart: bool, now: int) returns (accepted: bool)
      modifies machine
      ensures accepted
      ensures machine.View() == Evaluated(old(machine.View()), old(SceneNow()), fromStart, trigger, now)
    {
      accepted := true;
      var current := machine.state;
      var toRunning := machine.CanTransitionTo(Running);
      var toDegraded := machine.CanTransitionTo(Degraded);
      var toFailed := machine.CanTransitionTo(Failed);
      if AllConnected(clients) && (fromStart || !inRecovery) && toRunning {
        accepted := machine.TransitionTo(
          Request(Running, "all clients connected (" + trigger + ")", NoFailure, None, map[], now), false);
      } else if AnyConnected(clients) && !AllConnected(clients) && (fromStart || current == Running) && toDegraded {
        var degraded := BuildDegradedInterfacesMap();
        var reason := "clients not connected: " + Join(Unconnected(clients));
        accepted := machine.TransitionTo(Request(Degraded, reason, NoFailure, None, degraded, now), false);
      } else if !AnyConnected(clients) && (fromStart || current in {Running, Degraded}) && toFailed {
        var reason, iid := lastFailureReason, lastFailureInterface;
        if !fromStart {
          reason, iid := DetermineFailureInfo();
        }
        accepted := machine.TransitionTo(
          Request(Failed, "no clients connected (" + trigger + ")", reason, iid, map[], now), false);
      }
    }
  }

  // ------------------------------------------------------------ what an evaluation does

  /** The exact table of transitions.  FAILED is reachable from an event only out of DEGRADED:
      the transition graph has no edge from RUNNING. */
  lemma EvaluationTable(s: CentralState, scene: Scene, fromStart: bool, trigger: string, now: int)
    ensures
      var d := Decide(s, scene, fromStart, trigger, now);
      var cs := scene.clients;
      && (d.Some? && d.value.target == Running <==>
            AllConnected(cs) && (fromStart || !scene.inRecovery) && s in {Initializing, Degraded, Recovering})
      && (d.Some? && d.value.target == Degraded <==>
            AnyConnected(cs) && !AllConnected(cs) && (s == Running || (fromStart && s in {Initializing, Recovering})))
      && (d.Some? && d.value.target == Failed <==>
            !AnyConnected(cs) && (s == Degraded || (fromStart && s in {Initializing, Recovering})))
      && (d.Some? ==> d.value.target in {Running, Degraded, Failed})
  {
    if AllConnected(scene.clients) { AllImpliesAny(scene.clients); }
    match s
    case Starting =>
    case Initializing =>
    case Running =>
    case Degraded =>
    case Recovering =>
    case Failed =>
    case Stopped =>
  }

  lemma AllImpliesAny(cs: seq<Client>)
    requires AllConnected(cs)
    ensures AnyConnected(cs)
  {
    assert cs[0].state == CL.Connected;
  }

  /** Evaluating again in the same scene changes nothing. */
  lemma EvaluationSettles(m: Machine, scene: Scene, fromStart: bool, again: bool,
                          trigger: string, t2: string, now: int, later: int)
    requires fromStart || !again
    ensures var n := Evaluated(m, scene, fromStart, trigger, now); Evaluated(n, scene, again, t2, later) == n
  {
  }

  predicate DownAt(cs: seq<Client>, iid: string, i: int) {
    0 <= i < |cs| && cs[i].iid == iid && cs[i].state != CL.Connected
  }

  /** Exactly the unconnected interfaces, each with a real reason. */
  ghost predicate NamesUnconnected(m: map<string, FailureReason>, cs: seq<Client>) {
    && (forall iid :: iid in m <==> exists i :: DownAt(cs, iid, i))
    && (forall iid | iid in m :: m[iid] != NoFailure)
  }

  /** The degraded map names exactly the unconnected interfaces, each with a real reason: the
      client's own if it has one, else UNKNOWN. */
  lemma {:induction false} DegradedMapIsExact(cs: seq<Client>)
    ensures NamesUnconnected(DegradedMap(cs), cs)
    ensures forall i | 0 <= i < |cs| && cs[i].state != CL.Connected && IsLastOf(cs, i) ::
              cs[i].iid in DegradedMap(cs) && DegradedMap(cs)[cs[i].iid] == ReasonOf(cs[i])
  {
    if cs != [] {
      var n := |cs| - 1;
      DegradedMapIsExact(cs[..n]);
      forall iid ensures iid in DegradedMap(cs) <==> exists i :: DownAt(cs, iid, i) {
        if i :| DownAt(cs[..n], iid, i) {
          assert DownAt(cs, iid, i);
        }
        if i :| DownAt(cs, iid, i) {
          assert i == n || DownAt(cs[..n], iid, i);
        }
        assert DownAt(cs, iid, n) <==> cs[n].iid == iid && cs[n].state != CL.Connected;
      }
      forall i | 0 <= i < |cs| && cs[i].state != CL.Connected && IsLastOf(cs, i)
        ensures cs[i].iid in DegradedMap(cs) && DegradedMap(cs)[cs[i].iid] == ReasonOf(cs[i])
      {
        if i < n { assert cs[..n][i] == cs[i] && IsLastOf(cs[..n], i) && cs[n].iid != cs[i].iid; }
      }
    }
  }

  /** The last client of its interface; there is only one in practice. */
  predicate IsLastOf(cs: seq<Client>, i: nat)
    requires i < |cs|
  {
    forall j | i < j < |cs| :: cs[j].iid != cs[i].iid
  }

  function ReasonOf(c: Client): FailureReason {
    match c.failureReason
    case NoFailure => Unknown
    case reason => reason
  }

  /** The failure reported is that of a failed client that knows its reason; without one it is a
      network failure of no particular interface. */
  lemma {:induction false} FailureInfoIsFirst(cs: seq<Client>)
    ensures
      var (reason, iid) := FailureInfo(cs);
      if iid.None? then
        reason == Network && forall i | 0 <= i < |cs| :: !KnowsWhy(cs[i])
      else
        exists i :: 0 <= i < |cs| && KnowsWhy(cs[i]) && cs[i].iid == iid.value && cs[i].failureReason == reason
          && forall j | 0 <= j < i :: !KnowsWhy(cs[j])
  {
    if cs != [] && !KnowsWhy(cs[0]) {
      FailureInfoIsFirst(cs[1..]);
      if FailureInfo(cs).1.Some? {
        var i :| 0 <= i < |cs[1..]| && KnowsWhy(cs[1..][i]) && cs[1..][i].iid == FailureInfo(cs).1.value
                 && cs[1..][i].failureReason == FailureInfo(cs).0 && forall j | 0 <= j < i :: !KnowsWhy(cs[1..][j]);
        forall j | 0 <= j < i + 1 ensures !KnowsWhy(cs[j]) {
          if j > 0 { assert cs[j] == cs[1..][j - 1]; }
        }
      } else {
        forall i | 0 <= i < |cs| ensures !KnowsWhy(cs[i]) {
          if i > 0 { assert cs[i] == cs[1..][i - 1]; }
        }
      }
    }
  }

  predicate KnowsWhy(c: Client) { c.state == CL.Failed && c.failureReason != NoFailure }

  // ------------------------------------------------------------ whole lives

  /** Everything that may happen to a central: its clients and its recovery change, client events
      arrive, start() and stop() run through their state steps, and the recovery coordinator
      makes its own guarded requests. */
  datatype Action =
    | SceneChanges(scene: Scene)
    | ClientEvent(iid: string, at: int)
    | StartBegins(at: int)
    | ServerFails(message: string, at: int)
    | StartCompletes(at: int)
    | StopCompletes(at: int)
    | CoordinatorRequests(r: Request)

  datatype Central = Central(m: Machine, scene: Scene)

  /** The request an action makes of the state machine, if it makes one. */
  function Attempt(c: Central, a: Action): Option<Request> {
    match a
    case SceneChanges(_) => None
    case ClientEvent(iid, at) =>
      if c.m.state in {Starting, Stopped} then None else Decide(c.m.state, c.scene, false, "triggered by " + iid, at)
    case StartBegins(at) =>
      if CanMove(c.m.state, Initializing)
      then Some(Request(Initializing, "start() called", NoFailure, None, map[], at)) else None
    case ServerFails(message, at) =>
      if CanMove(c.m.state, Failed)
      then Some(Request(Failed, "XML-RPC server failed: " + message, Internal, None, map[], at)) else None
    case StartCompletes(at) => Decide(c.m.state, c.scene, true, "start() completed", at)
    case StopCompletes(at) =>
      if CanMove(c.m.state, Stopped)
      then Some(Request(Stopped, "stop() completed", NoFailure, None, map[], at)) else None
    case CoordinatorRequests(r) => if CanMove(c.m.state, r.target) then Some(r) else None
  }

  function Act(c: Central, a: Action): Central {
    if a.SceneChanges? then c.(scene := a.scene)
    else match Attempt(c, a)
      case None => c
      case Some(r) => c.(m := Transition(c.m, r))
  }

  function Live(c: Central, acts: seq<Action>): Central {
    if acts == [] then c else Act(Live(c, acts[..|acts| - 1]), acts[|acts| - 1])
  }

  predicate ByEvaluator(a: Action) { a.ClientEvent? || a.StartCompletes? }

  /** In every life, at every step: no illegal transition is attempted; the evaluator enters
      RUNNING only with a non-empty, fully connected client set and, outside start(), no
      recovery in progress; it enters DEGRADED only with some but not all clients connected,
      recording exactly the unconnected interfaces, none of them without a reason; it enters
      FAILED only with no client connected. */
  lemma EveryLifeIsSound(c: Central, acts: seq<Action>, n: nat)
    requires n < |acts|
    ensures
      var before := Live(c, acts[..n]);
      var after := Live(c, acts[..n + 1]);
      var attempt := Attempt(before, acts[n]);
      var cs := before.scene.clients;
      && (attempt.Some? ==> CanMove(before.m.state, attempt.value.target) && after.m == Moved(before.m, attempt.value))
      && (attempt.None? ==> after.m == before.m)
      && (ByEvaluator(acts[n]) && attempt.Some? ==>
            && attempt.value.target in {Running, Degraded, Failed}
            && (after.m.state == Running ==>
                  && cs != [] && (forall i | 0 <= i < |cs| :: cs[i].state == CL.Connected)
                  && (acts[n].StartCompletes? || !before.scene.inRecovery))
            && (after.m.state == Degraded ==>
                  && (exists i :: 0 <= i < |cs| && cs[i].state == CL.Connected)
                  && (exists i :: 0 <= i < |cs| && cs[i].state != CL.Connected)
                  && NamesUnconnected(after.m.degraded, cs))
            && (after.m.state == Failed ==> forall i | 0 <= i < |cs| :: cs[i].state != CL.Connected))
  {
    assert acts[..n + 1][..n] == acts[..n];
    var before := Live(c, acts[..n]);
    DegradedMapIsExact(before.scene.clients);
    match acts[n]
    case ClientEvent(iid, at) => EvaluationTable(before.m.state, before.scene, false, "triggered by " + iid, at);
    case StartCompletes(at) => EvaluationTable(before.m.state, before.scene, true, "start() completed", at);
    case _ =>
  }

  /** The reason and interface of the first failed client that has a reason, or a network failure of
      no interface if there is none. */
  ghost predicate FirstFailureIs(cs: seq<Client>, reason: FailureReason, iid: Option<string>) {
    || (exists i :: 0 <= i < |cs| && IsFirstFailure(cs, i) && reason == cs[i].failureReason && iid == Some(cs[i].iid))
    || ((forall i | 0 <= i < |cs| :: !(cs[i].state == CL.Failed && cs[i].failureReason != NoFailure))
        && reason == Network && iid == None)
  }

  predicate IsFirstFailure(cs: seq<Client>, i: nat) {
    && i < |cs| && cs[i].state == CL.Failed && cs[i].failureReason != NoFailure
    && forall j | 0 <= j < i :: !(cs[j].state == CL.Failed && cs[j].failureReason != NoFailure)
  }

  lemma FailureInfoIs(cs: seq<Client>)
    ensures FirstFailureIs(cs, FailureInfo(cs).0, FailureInfo(cs).1)
  {
    FailureInfoIsFirst(cs);
    if FailureInfo(cs).1.Some? {
      var i :| 0 <= i < |cs| && KnowsWhy(cs[i]) && cs[i].iid == FailureInfo(cs).1.value
               && cs[i].failureReason == FailureInfo(cs).0 && forall j | 0 <= j < i :: !KnowsWhy(cs[j]);
      assert IsFirstFailure(cs, i);
    } else {
      forall i | 0 <= i < |cs| ensures !(cs[i].state == CL.Failed && cs[i].failureReason != NoFailure) {
        assert !KnowsWhy(cs[i]);
      }
    }
  }

  /** What an evaluation that changed the machine has recorded in its fields. */
  ghost predicate RightRecord(before: Central, a: Action, m: Machine) {
    match m.state
    case Failed =>
      && m.degraded == map[]
      && if a.StartCompletes? then
           && m.failure.reason == before.scene.lastFailureReason
           && m.failure.interfaceId == before.scene.lastFailureInterface
         else FirstFailureIs(before.scene.clients, m.failure.reason, m.failure.interfaceId)
    case Degraded => m.failure == before.m.failure && NamesUnconnected(m.degraded, before.scene.clients)
    case Running => m.failure == Failure(NoFailure, "", None) && m.degraded == map[]
    case _ => false
  }

  /** The request of an evaluation carries the failure or the degraded interfaces it will record. */
  lemma AttemptCarries(c: Central, a: Action, r: Request)
    requires ByEvaluator(a) && Attempt(c, a) == Some(r)
    ensures CanMove(c.m.state, r.target) && r.target in {Failed, Degraded, Running}
    ensures r.target == Degraded ==> r.degraded == DegradedMap(c.scene.clients)
    ensures r.target == Failed && a.StartCompletes? ==>
              r.failureReason == c.scene.lastFailureReason && r.failureInterface == c.scene.lastFailureInterface
    ensures r.target == Failed && !a.StartCompletes? ==>
              (r.failureReason, r.failureInterface) == FailureInfo(c.scene.clients)
  {
  }

  lemma ActRecords(c: Central, a: Action)
    requires ByEvaluator(a)
    ensures Act(c, a).m == c.m || RightRecord(c, a, Act(c, a).m)
  {
    match Attempt(c, a)
    case None =>
    case Some(r) =>
      AttemptCarries(c, a, r);
      if r.target == Degraded { DegradedMapIsExact(c.scene.clients); }
      if r.target == Failed { FailureInfoIs(c.scene.clients); }
  }

  /** In every life, whatever the evaluator enters, it leaves the right record: after a client event
      FAILED names the first failed client that has a reason, or a network failure; after start() it
      names the failure the coordinator remembers; DEGRADED names exactly the unconnected interfaces
      and keeps the failure recorded before, RUNNING clears both. */
  lemma EvaluationsLeaveTheRightRecord(c: Central, acts: seq<Action>, n: nat)
    requires n < |acts| && ByEvaluator(acts[n])
    ensures var before, after := Live(c, acts[..n]), Live(c, acts[..n + 1]);
            after.m == before.m || RightRecord(before, acts[n], after.m)
  {
    assert acts[..n + 1] == acts[..n] + [acts[n]];
    LiveOn(c, acts[..n], acts[n]);
    ActRecords(Live(c, acts[..n]), acts[n]);
  }

  /** The history entry of an evaluation that changed the machine. */
  predicate RightEntry(before: Central, a: Action, m: Machine)
    requires ByEvaluator(a)
  {
    var trigger := if a.StartCompletes? then "start() completed" else "triggered by " + a.iid;
    && m.history != []
    && var e := m.history[|m.history| - 1];
       && e.at == a.at && e.from == before.m.state && e.to == m.state
       && (e.to == Running ==> e.reason == "all clients connected (" + trigger + ")")
       && (e.to == Failed ==> e.reason == "no clients connected (" + trigger + ")")
       && (e.to == Degraded ==> e.reason == "clients not connected: " + Join(Unconnected(before.scene.clients)))
  }

  lemma ActIsLogged(c: Central, a: Action)
    requires ByEvaluator(a)
    ensures Act(c, a).m == c.m || RightEntry(c, a, Act(c, a).m)
  {
  }

  /** In every life every transition of the evaluator is logged with its time, the states it led from
      and to, and a reason that names what triggered it or which clients are missing. */
  lemma EvaluationsAreLogged(c: Central, acts: seq<Action>, n: nat)
    requires n < |acts| && ByEvaluator(acts[n])
    ensures var before, after := Live(c, acts[..n]), Live(c, acts[..n + 1]);
            after.m == before.m || RightEntry(before, acts[n], after.m)
  {
    assert acts[..n + 1] == acts[..n] + [acts[n]];
    LiveOn(c, acts[..n], acts[n]);
    ActIsLogged(Live(c, acts[..n]), acts[n]);
  }

  /** The clients named in that reason are those that are not connected, in order. */
  lemma {:induction false} UnconnectedOneByOne(before: seq<Client>, c: Client, after: seq<Client>)
    ensures Unconnected(before + [c] + after) ==
            Unconnected(before) + (if c.state == CL.Connected then [] else [c.iid]) + Unconnected(after)
    ensures Unconnected([]) == []
  {
    UnconnectedConcat(before + [c], after);
    UnconnectedConcat(before, [c]);
    assert [c][..0] == [];
  }

  lemma {:induction false} UnconnectedConcat(a: seq<Client>, b: seq<Client>)
    ensures Unconnected(a + b) == Unconnected(a) + Unconnected(b)
  {
    if b == [] {
      assert a + b == a;
    } else {
      assert (a + b)[..|a + b| - 1] == a + b[..|b| - 1];
      UnconnectedConcat(a, b[..|b| - 1]);
    }
  }

  /** The names are joined by commas. */
  lemma {:induction false} JoinNext(words: seq<string>, w: string)
    ensures Join(words + [w]) == if words == [] then w else Join(words) + ", " + w
  {
    if |words| == 1 {
      assert (words + [w])[1..] == [w];
    } else if |words| > 1 {
      JoinNext(words[1..], w);
      assert (words + [w])[1..] == words[1..] + [w];
      assert words[0] + ", " + (Join(words[1..]) + ", " + w) == words[0] + ", " + Join(words[1..]) + ", " + w;
    }
  }

  /** A legal request of the coordinator is always granted, an illegal one never made. */
  lemma CoordinatorIsHeard(c: Central, acts: seq<Action>, r: Request)
    ensures Live(c, acts + [CoordinatorRequests(r)]).m ==
            if CanMove(Live(c, acts).m.state, r.target) then Moved(Live(c, acts).m, r) else Live(c, acts).m
    ensures Live(c, acts + [CoordinatorRequests(r)]).scene == Live(c, acts).scene
  {
    LiveOn(c, acts, CoordinatorRequests(r));
  }

  /** Once stopped, a central stays as it is. */
  lemma {:induction false} StoppedForGood(c: Central, acts: seq<Action>)
    requires c.m.state == Stopped
    ensures Live(c, acts).m == c.m
  {
    if acts != [] {
      StoppedForGood(c, acts[..|acts| - 1]);
    }
  }

  lemma LiveOn(c: Central, acts: seq<Action>, a: Action)
    ensures Live(c, acts + [a]) == Act(Live(c, acts), a)
  {
    assert (acts + [a])[..|acts|] == acts;
  }

  lemma ActsOfStartAndStop(c: Central, at: int, message: string)
    ensures Act(c, StopCompletes(at)).m.state == Stopped
    ensures c.m.state == Starting ==> Act(c, StartBegins(at)).m.state == Initializing
    ensures c.m.state == Initializing ==>
      var m := Act(c, ServerFails(message, at)).m;
      m.state == Failed && m.failure.reason == Internal && m.failure.interfaceId == None
  {
    StatesInto(c.m.state);
  }

  /** stop() ends every life in STOPPED, start() takes one that has not begun to INITIALIZING, and a
      server that fails to start takes one that is initializing to FAILED, as an internal failure. */
  lemma StartAndStop(c: Central, acts: seq<Action>, at: int, message: string)
    ensures Live(c, acts + [StopCompletes(at)]).m.state == Stopped
    ensures Live(c, acts).m.state == Starting ==> Live(c, acts + [StartBegins(at)]).m.state == Initializing
    ensures Live(c, acts).m.state == Initializing ==>
      var m := Live(c, acts + [ServerFails(message, at)]).m;
      m.state == Failed && m.failure.reason == Internal && m.failure.interfaceId == None
  {
    ActsOfStartAndStop(Live(c, acts), at, message);
    LiveOn(c, acts, StopCompletes(at));
    LiveOn(c, acts, StartBegins(at));
    LiveOn(c, acts, ServerFails(message, at));
  }

  // ------------------------------------------------------------ lives are replays

  /** All requests made of the state machine in a life, in order. */
  function Attempts(c: Central, acts: seq<Action>): seq<Request> {
    if acts == [] then []
    else
      var before := acts[..|acts| - 1];
      match Attempt(Live(c, before), acts[|acts| - 1])
      case None => Attempts(c, before)
      case Some(r) => Attempts(c, before) + [r]
  }

  /** In every life of a fresh central its machine is the replay of the requests made of it, and
      every one of them was accepted; so everything proved about histories holds of lives. */
  lemma {:induction false} LivesAreReplays(scene: Scene, acts: seq<Action>)
    ensures
      var c := Central(INITIAL, scene);
      && Live(c, acts).m == Replay(Attempts(c, acts))
      && |FullLog(Attempts(c, acts))| == |Attempts(c, acts)|
      && Faithful(Live(c, acts).m, FullLog(Attempts(c, acts)))
  {
    var c := Central(INITIAL, scene);
    HistoryIsFaithful(Attempts(c, acts));
    if acts != [] {
      var before := acts[..|acts| - 1];
      LivesAreReplays(scene, before);
      var attempt := Attempt(Live(c, before), acts[|acts| - 1]);
      if attempt.Some? {
        AttemptsAreLegal(Live(c, before), acts[|acts| - 1]);
        ReplayNext(Attempts(c, before), attempt.value);
      }
    }
  }

  lemma AttemptsAreLegal(c: Central, a: Action)
    requires Attempt(c, a).Some?
    ensures CanMove(c.m.state, Attempt(c, a).value.target) && !a.SceneChanges?
  {
  }

  // ------------------------------------------------------------ settled lives

  /** The machine says of the clients what an evaluation can make it say.  RUNNING without any
      connected client and FAILED with all of them connected remain possible. */
  predicate Settled(c: Central) {
    var cs := c.scene.clients;
    c.m.state in {Starting, Stopped} ||
    (&& (AllConnected(cs) && !c.scene.inRecovery ==> c.m.state in {Running, Failed})
     && (AnyConnected(cs) && !AllConnected(cs) ==> c.m.state != Running)
     && (!AnyConnected(cs) ==> c.m.state != Degraded))
  }

  /** Nothing that changes the clients, starts the central or is asked for by the coordinator. */
  predicate Quiet(a: Action) { a.ClientEvent? || a.ServerFails? || a.StartCompletes? || a.StopCompletes? }

  lemma EventSettles(c: Central, a: Action)
    requires a.ClientEvent? || (Quiet(a) && Settled(c))
    ensures Settled(Act(c, a))
  {
    match a
    case ClientEvent(iid, at) => EvaluationTable(c.m.state, c.scene, false, "triggered by " + iid, at);
    case StartCompletes(at) => EvaluationTable(c.m.state, c.scene, true, "start() completed", at);
    case _ =>
  }

  lemma LiveNext(c: Central, acts: seq<Action>)
    requires acts != []
    ensures Live(c, acts) == Act(Live(c, acts[..|acts| - 1]), acts[|acts| - 1])
  {
  }

  /** In every life, from the first client event handled after the last change of the clients or of
      the recovery on, the central's state fits its clients: fully connected it is RUNNING, unless
      FAILED, which needs the recovery coordinator; partly connected it is not RUNNING; without any
      connected client it is not DEGRADED. */
  lemma {:induction false} SettledAfterEvent(c: Central, acts: seq<Action>, n: nat)
    requires n < |acts| && acts[n].ClientEvent? && forall i | n < i < |acts| :: Quiet(acts[i])
    ensures Settled(Live(c, acts))
  {
    var m := |acts| - 1;
    var before := acts[..m];
    LiveNext(c, acts);
    if n < m {
      SettledAfterEvent(c, before, n);
    }
    EventSettles(Live(c, before), acts[m]);
  }
}
