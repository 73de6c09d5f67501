/**
  Forced availability of devices under client-state events that may be handled late and out
  of order.  Each client makes legal transitions and emits one event per transition; events
  wait in `pending` until the central's handler takes one of them.
 */
module DeviceAvailability {
  import opened ClientStates

  datatype Forced = NotSet | ForceFalse

  datatype Event = Event(from: ClientState, to: ClientState)

  predicate Down(s: ClientState) { s == Disconnected || s == Failed }

  /** An event that ends in CONNECTED, coming from a state in which devices may be forced. */
  predicate Resets(e: Event) {
    e.to == Connected && e.from in {Connecting, Disconnected, Failed, Reconnecting}
  }

  /** What handling `e` does to a device of its interface; `seen` is the client state the handler
      works with: the current one, or the event's own if the client is not registered. */
  function Handled(e: Event, seen: ClientState, before: Forced): Forced {
    var mid := if Down(e.to) && Down(seen) then ForceFalse else before;
    if Resets(e) then NotSet else mid
  }

  // ------------------------------------------------------------ the handler

  class Device {
    const interfaceId: string
    var forced: Forced

    constructor (interfaceId: string)
      ensures this.interfaceId == interfaceId && forced == NotSet
    {
      this.interfaceId, forced := interfaceId, NotSet;
    }
  }

  method SetForced(devices: seq<Device>, iid: string, forced: Forced)
    modifies devices
    ensures forall d | d in devices :: d.forced == if d.interfaceId == iid then forced else old(d.forced)
  {
    for i := 0 to |devices|
      invariant forall d | d in devices :: d.forced == old(d.forced) || (d.interfaceId == iid && d.forced == forced)
      invariant forall j | 0 <= j < i :: devices[j].interfaceId == iid ==> devices[j].forced == forced
    {
      if devices[i].interfaceId == iid {
        devices[i].forced := forced;
      }
    }
  }

  /** The availability part of the handler: `current` is the registered client's state, if found. */
  method OnSystemStatusEvent(devices: seq<Device>, iid: string, e: Event, found: bool, current: ClientState)
    modifies devices
    ensures forall d | d in devices ::
      d.forced ==
        if d.interfaceId == iid then Handled(e, if found then current else e.to, old(d.forced)) else old(d.forced)
    ensures forall d | d in devices && d.interfaceId == iid ::
      d.forced ==
        if e.to == Connected && e.from in {Connecting, Disconnected, Failed, Reconnecting} then NotSet
        else if e.to in {Disconnected, Failed} && (!found || current in {Disconnected, Failed}) then ForceFalse
        else old(d.forced)
  {
    var seen := if found then current else e.to;
    if e.to in {Disconnected, Failed} {
      if seen in {Disconnected, Failed} {
        SetForced(devices, iid, ForceFalse);
      }
    }
    if e.to == Connected && e.from in {Connecting, Disconnected, Failed, Reconnecting} {
      SetForced(devices, iid, NotSet);
    }
  }

  // ------------------------------------------------------------ all interfaces together

  /** One interface: its client's state, whether the client is registered, and the events not
      handled yet. */
  datatype Link = Link(state: ClientState, registered: bool, pending: seq<Event>)

  datatype State = State(links: map<string, Link>, owner: map<string, string>, forced: map<string, Forced>)

  datatype Action =
    | Transition(iid: string, target: ClientState)
    | Deliver(iid: string, k: nat)
    | SetRegistered(iid: string, registered: bool)

  predicate WellFormed(s: State) { s.forced.Keys == s.owner.Keys }

  /** `owner` maps each device to its interface. */
  predicate Initial(s: State) {
    && WellFormed(s)
    && (forall iid | iid in s.links :: s.links[iid].state == Created && s.links[iid].pending == [])
    && (forall d | d in s.forced :: s.forced[d] == NotSet)
  }

  predicate Enabled(s: State, a: Action) {
    && a.iid in s.links
    && match a
       case Transition(iid, target) => target in Successors(s.links[iid].state)
       case Deliver(iid, k) => k < |s.links[iid].pending|
       case SetRegistered(_, _) => true
  }

  function Without(es: seq<Event>, k: nat): seq<Event>
    requires k < |es|
  {
    es[..k] + es[k + 1..]
  }

  /** One event as it was handled: the client's state at that time, and whether the client was found. */
  datatype Handling = Handling(event: Event, state: ClientState, registered: bool)

  function Seen(h: Handling): ClientState { if h.registered then h.state else h.event.to }

  function HandlingOf(l: Link, k: nat): Handling
    requires k < |l.pending|
  {
    Handling(l.pending[k], l.state, l.registered)
  }

  function Step(s: State, a: Action): State
    requires WellFormed(s) && Enabled(s, a)
  {
    var l := s.links[a.iid];
    match a
    case Transition(iid, target) =>
      s.(links := s.links[iid := l.(state := target, pending := l.pending + [Event(l.state, target)])])
    case Deliver(iid, k) =>
      var h := HandlingOf(l, k);
      s.(links := s.links[iid := l.(pending := Without(l.pending, k))],
         forced := map d | d in s.forced ::
           if s.owner[d] == iid then Handled(h.event, Seen(h), s.forced[d]) else s.forced[d])
    case SetRegistered(iid, r) => s.(links := s.links[iid := l.(registered := r)])
  }

  predicate Runs(s: State, acts: seq<Action>)
    requires WellFormed(s)
    decreases |acts|
  {
    acts == [] || (Enabled(s, acts[0]) && Runs(Step(s, acts[0]), acts[1..]))
  }

  function Exec(s: State, acts: seq<Action>): (t: State)
    requires WellFormed(s) && Runs(s, acts)
    ensures WellFormed(t) && t.links.Keys == s.links.Keys && t.owner == s.owner
    decreases |acts|
  {
    if acts == [] then s else Exec(Step(s, acts[0]), acts[1..])
  }

  /** The events of one interface handled by an action: one or none. */
  function HandledBy(s: State, a: Action, iid: string): seq<Handling>
    requires WellFormed(s) && Enabled(s, a)
  {
    if a.Deliver? && a.iid == iid then [HandlingOf(s.links[iid], a.k)] else []
  }

  /** The events of one interface handled in a run, in the order of handling. */
  function Handlings(s: State, acts: seq<Action>, iid: string): seq<Handling>
    requires WellFormed(s) && Runs(s, acts)
    decreases |acts|
  {
    if acts == [] then [] else HandledBy(s, acts[0], iid) + Handlings(Step(s, acts[0]), acts[1..], iid)
  }

  lemma HandlingsNext(s: State, acts: seq<Action>, iid: string, hs: seq<Handling>)
    requires WellFormed(s) && Runs(s, acts) && acts != []
    ensures hs + Handlings(s, acts, iid) ==
            (hs + HandledBy(s, acts[0], iid)) + Handlings(Step(s, acts[0]), acts[1..], iid)
  {
  }

  // ------------------------------------------------------------ forced exactly when

  /** What is asked of a handling: that it forces, or that its event says down and it did not find
      the client, or just that its event says down. */
  datatype Mark = Forcing | Blind | DownEvent

  predicate Marked(m: Mark, h: Handling) {
    match m
    case Forcing => h.event.to in {Disconnected, Failed} && (!h.registered || h.state in {Disconnected, Failed})
    case Blind => h.event.to in {Disconnected, Failed} && !h.registered
    case DownEvent => h.event.to in {Disconnected, Failed}
  }

  /** No event from number `i` on says that the client has come to CONNECTED out of trouble. */
  predicate NoResetFrom(hs: seq<Handling>, i: nat) {
    forall j | i <= j < |hs| ::
      !(hs[j].event.to == Connected && hs[j].event.from in {Connecting, Disconnected, Failed, Reconnecting})
  }

  /** Some marked event was handled, and no reset after it. */
  predicate Stands(hs: seq<Handling>, m: Mark) {
    exists i | 0 <= i < |hs| :: Marked(m, hs[i]) && NoResetFrom(hs, i + 1)
  }

  lemma StandsNext(hs: seq<Handling>, h: Handling, m: Mark)
    ensures Stands(hs + [h], m) <==> Marked(m, h) || (Stands(hs, m) && !Resets(h.event))
    ensures NoResetFrom(hs + [h], 0) <==> NoResetFrom(hs, 0) && !Resets(h.event)
  {
    var all := hs + [h];
    assert all[|hs|] == h;
    assert forall j | 0 <= j < |hs| :: all[j] == hs[j];
    if Marked(m, h) {
      assert NoResetFrom(all, |hs| + 1);
    } else if Stands(hs, m) && !Resets(h.event) {
      var i :| 0 <= i < |hs| && Marked(m, hs[i]) && NoResetFrom(hs, i + 1);
      assert Marked(m, all[i]) && NoResetFrom(all, i + 1);
    }
  }

  /** Device `d`, forced at the start or not, is forced now exactly as the handlings `hs` say. */
  predicate Reflects(s: State, d: string, was: bool, hs: seq<Handling>)
    requires d in s.forced
  {
    s.forced[d] == ForceFalse <==> Stands(hs, Forcing) || (was && NoResetFrom(hs, 0))
  }

  lemma StepReflects(s: State, a: Action, d: string, was: bool, hs: seq<Handling>)
    requires WellFormed(s) && Enabled(s, a) && d in s.owner && Reflects(s, d, was, hs)
    ensures Reflects(Step(s, a), d, was, hs + HandledBy(s, a, s.owner[d]))
  {
    if a.Deliver? && a.iid == s.owner[d] {
      StandsNext(hs, HandlingOf(s.links[a.iid], a.k), Forcing);
    } else {
      assert hs + [] == hs;
    }
  }

  lemma {:induction false} ExecReflects(s: State, acts: seq<Action>, d: string, was: bool, hs: seq<Handling>)
    requires WellFormed(s) && Runs(s, acts) && d in s.owner && Reflects(s, d, was, hs)
    ensures Reflects(Exec(s, acts), d, was, hs + Handlings(s, acts, s.owner[d]))
    decreases |acts|
  {
    if acts == [] {
      assert hs + [] == hs;
    } else {
      var h := HandledBy(s, acts[0], s.owner[d]);
      StepReflects(s, acts[0], d, was, hs);
      ExecReflects(Step(s, acts[0]), acts[1..], d, was, hs + h);
      HandlingsNext(s, acts, s.owner[d], hs);
    }
  }

  /** In every run, whatever the order of delivery and whoever is registered, a device is forced
      unavailable exactly if some down event that found the client down was handled without a reset
      handled after it, or the device was forced at the start and no reset was handled at all. */
  lemma ForcedExactlyWhen(s: State, acts: seq<Action>, d: string)
    requires WellFormed(s) && Runs(s, acts) && d in s.owner
    ensures
      var hs := Handlings(s, acts, s.owner[d]);
      Exec(s, acts).forced[d] == ForceFalse <==>
        Stands(hs, Forcing) || (s.forced[d] == ForceFalse && NoResetFrom(hs, 0))
  {
    ExecReflects(s, acts, d, s.forced[d] == ForceFalse, []);
    assert [] + Handlings(s, acts, s.owner[d]) == Handlings(s, acts, s.owner[d]);
  }

  // ------------------------------------------------------------ clients at rest

  predicate ResetPending(l: Link) { exists k | 0 <= k < |l.pending| :: Resets(l.pending[k]) }

  predicate DownPending(l: Link) { exists k | 0 <= k < |l.pending| :: Down(l.pending[k].to) }

  /** Once the reset of a connected client has been handled, only blind handlings force; once the
      event of a client that went down has been handled, what was seen of it no longer matters. */
  predicate Settled(l: Link, hs: seq<Handling>) {
    && (l.state == Connected ==> ResetPending(l) || (Stands(hs, Forcing) <==> Stands(hs, Blind)))
    && (Down(l.state) ==> DownPending(l) || (Stands(hs, Forcing) <==> Stands(hs, DownEvent)))
  }

  lemma PendingSurvives(l: Link, k: nat)
    requires k < |l.pending|
    ensures ResetPending(l) && !Resets(l.pending[k]) ==> ResetPending(l.(pending := Without(l.pending, k)))
    ensures DownPending(l) && !Down(l.pending[k].to) ==> DownPending(l.(pending := Without(l.pending, k)))
  {
    var p := Without(l.pending, k);
    forall j | 0 <= j < |l.pending| && j != k ensures l.pending[j] in p {
      assert p[if j < k then j else j - 1] == l.pending[j];
    }
  }

  lemma DeliverySettles(l: Link, k: nat, hs: seq<Handling>)
    requires k < |l.pending| && Settled(l, hs)
    ensures Settled(l.(pending := Without(l.pending, k)), hs + [HandlingOf(l, k)])
  {
    PendingSurvives(l, k);
    StandsNext(hs, HandlingOf(l, k), Forcing);
    StandsNext(hs, HandlingOf(l, k), Blind);
    StandsNext(hs, HandlingOf(l, k), DownEvent);
  }

  lemma TransitionSettles(l: Link, target: ClientState, hs: seq<Handling>)
    requires target in Successors(l.state)
    ensures Settled(l.(state := target, pending := l.pending + [Event(l.state, target)]), hs)
  {
    var p := l.pending + [Event(l.state, target)];
    assert p[|p| - 1] == Event(l.state, target);
  }

  lemma StepSettles(s: State, a: Action, iid: string, hs: seq<Handling>)
    requires WellFormed(s) && Enabled(s, a) && iid in s.links && Settled(s.links[iid], hs)
    ensures Settled(Step(s, a).links[iid], hs + HandledBy(s, a, iid))
  {
    assert hs + [] == hs;
    if a.iid == iid {
      match a
      case Transition(_, target) => TransitionSettles(s.links[iid], target, hs);
      case Deliver(_, k) => DeliverySettles(s.links[iid], k, hs);
      case SetRegistered(_, _) =>
    }
  }

  lemma {:induction false} ExecSettles(s: State, acts: seq<Action>, iid: string, hs: seq<Handling>)
    requires WellFormed(s) && Runs(s, acts) && iid in s.links && Settled(s.links[iid], hs)
    ensures Settled(Exec(s, acts).links[iid], hs + Handlings(s, acts, iid))
    decreases |acts|
  {
    if acts == [] {
      assert hs + [] == hs;
    } else {
      var h := HandledBy(s, acts[0], iid);
      StepSettles(s, acts[0], iid, hs);
      ExecSettles(Step(s, acts[0]), acts[1..], iid, hs + h);
      HandlingsNext(s, acts, iid, hs);
    }
  }

  /** For any delivery order: once every event of an interface has been handled and its client is
      CONNECTED, a device of that interface is left forced unavailable exactly if a down event was
      handled without finding the client, and no reset after it. */
  lemma ConnectedAtRest(s: State, acts: seq<Action>, iid: string, d: string)
    requires Initial(s) && Runs(s, acts) && iid in s.links && d in s.owner && s.owner[d] == iid
    requires var l := Exec(s, acts).links[iid]; l.pending == [] && l.state == Connected
    ensures Exec(s, acts).forced[d] == ForceFalse <==> Stands(Handlings(s, acts, iid), Blind)
  {
    ForcedExactlyWhen(s, acts, d);
    ExecSettles(s, acts, iid, []);
    assert [] + Handlings(s, acts, iid) == Handlings(s, acts, iid);
  }

  /** For any delivery order: a client at rest in DISCONNECTED or FAILED has the devices of its
      interface forced unavailable exactly if, of all its down events and resets, a down event was
      handled last; what the handler saw of the client does not matter. */
  lemma DownAtRest(s: State, acts: seq<Action>, iid: string, d: string)
    requires Initial(s) && Runs(s, acts) && iid in s.links && d in s.owner && s.owner[d] == iid
    requires var l := Exec(s, acts).links[iid]; l.pending == [] && l.state in {Disconnected, Failed}
    ensures Exec(s, acts).forced[d] == ForceFalse <==> Stands(Handlings(s, acts, iid), DownEvent)
  {
    ForcedExactlyWhen(s, acts, d);
    ExecSettles(s, acts, iid, []);
    assert [] + Handlings(s, acts, iid) == Handlings(s, acts, iid);
  }

  // ------------------------------------------------------------ registered clients

  predicate AlwaysRegistered(s: State, acts: seq<Action>, iid: string) {
    iid in s.links && s.links[iid].registered && SetRegistered(iid, false) !in acts
  }

  lemma {:induction false} AlwaysFound(s: State, acts: seq<Action>, iid: string)
    requires WellFormed(s) && Runs(s, acts) && AlwaysRegistered(s, acts, iid)
    ensures forall i | 0 <= i < |Handlings(s, acts, iid)| :: Handlings(s, acts, iid)[i].registered
    decreases |acts|
  {
    if acts != [] {
      AlwaysFound(Step(s, acts[0]), acts[1..], iid);
    }
  }

  /** While the client stays registered, in any delivery order, no device of a connected
      interface is left forced unavailable. */
  lemma ReconnectionClearsAll(s: State, acts: seq<Action>, iid: string, d: string)
    requires Initial(s) && Runs(s, acts) && AlwaysRegistered(s, acts, iid) && d in s.owner && s.owner[d] == iid
    requires var l := Exec(s, acts).links[iid]; l.pending == [] && l.state == Connected
    ensures Exec(s, acts).forced[d] == NotSet
  {
    ConnectedAtRest(s, acts, iid, d);
    AlwaysFound(s, acts, iid);
  }

  // ------------------------------------------------------------ in-order delivery

  predicate InOrder(acts: seq<Action>, iid: string) {
    forall i | 0 <= i < |acts| && acts[i].Deliver? && acts[i].iid == iid :: acts[i].k == 0
  }

  /** The newest event, handled or not, carries the client's current state. */
  predicate Tracks(l: Link, hs: seq<Handling>) {
    if l.pending != [] then l.pending[|l.pending| - 1].to == l.state
    else if hs != [] then hs[|hs| - 1].event.to == l.state
    else l.state == Created
  }

  lemma DeliveryTracks(l: Link, hs: seq<Handling>)
    requires l.pending != [] && Tracks(l, hs)
    ensures Tracks(l.(pending := Without(l.pending, 0)), hs + [HandlingOf(l, 0)])
  {
    assert Without(l.pending, 0) == l.pending[1..];
  }

  lemma TransitionTracks(l: Link, target: ClientState, hs: seq<Handling>)
    ensures Tracks(l.(state := target, pending := l.pending + [Event(l.state, target)]), hs)
  {
  }

  lemma StepTracks(s: State, a: Action, iid: string, hs: seq<Handling>)
    requires WellFormed(s) && Enabled(s, a) && iid in s.links && Tracks(s.links[iid], hs)
    requires a.Deliver? && a.iid == iid ==> a.k == 0
    ensures Tracks(Step(s, a).links[iid], hs + HandledBy(s, a, iid))
  {
    assert hs + [] == hs;
    if a.iid == iid {
      match a
      case Transition(_, target) => TransitionTracks(s.links[iid], target, hs);
      case Deliver(_, _) => DeliveryTracks(s.links[iid], hs);
      case SetRegistered(_, _) =>
    }
  }

  lemma {:induction false} ExecTracks(s: State, acts: seq<Action>, iid: string, hs: seq<Handling>)
    requires WellFormed(s) && Runs(s, acts) && InOrder(acts, iid) && iid in s.links && Tracks(s.links[iid], hs)
    ensures Tracks(Exec(s, acts).links[iid], hs + Handlings(s, acts, iid))
    decreases |acts|
  {
    if acts == [] {
      assert hs + [] == hs;
    } else {
      var h := HandledBy(s, acts[0], iid);
      StepTracks(s, acts[0], iid, hs);
      ExecTracks(Step(s, acts[0]), acts[1..], iid, hs + h);
      HandlingsNext(s, acts, iid, hs);
    }
  }

  /** Under in-order delivery a client at rest in DISCONNECTED or FAILED has every device of its
      interface forced unavailable. */
  lemma DownAtRestForcesAll(s: State, acts: seq<Action>, iid: string, d: string)
    requires Initial(s) && Runs(s, acts) && InOrder(acts, iid) && iid in s.links && d in s.owner && s.owner[d] == iid
    requires var l := Exec(s, acts).links[iid]; l.pending == [] && l.state in {Disconnected, Failed}
    ensures Exec(s, acts).forced[d] == ForceFalse
  {
    var hs := Handlings(s, acts, iid);
    DownAtRest(s, acts, iid, d);
    ExecTracks(s, acts, iid, []);
    assert [] + hs == hs;
    assert Marked(DownEvent, hs[|hs| - 1]) && NoResetFrom(hs, |hs| - 1 + 1);
  }

  // ------------------------------------------------------------ order and registration matter

  /** A system of one interface and one device, and what may happen to it, without naming either. */
  datatype Pair = Pair(l: Link, forced: Forced)
  datatype Move = To(target: ClientState) | Take(k: nat)

  function Single(iid: string, d: string, p: Pair): State {
    State(map[iid := p.l], map[d := iid], map[d := p.forced])
  }

  function Named(iid: string, m: Move): Action {
    if m.To? then Transition(iid, m.target) else Deliver(iid, m.k)
  }

  predicate Leads(p: Pair, m: Move, q: Pair) {
    match m
    case To(target) =>
      && target in Successors(p.l.state)
      && q == Pair(Link(target, p.l.registered, p.l.pending + [Event(p.l.state, target)]), p.forced)
    case Take(k) =>
      && k < |p.l.pending|
      && q == Pair(p.l.(pending := Without(p.l.pending, k)),
                   Handled(p.l.pending[k], Seen(HandlingOf(p.l, k)), p.forced))
  }

  lemma LeadsSteps(iid: string, d: string, p: Pair, m: Move, q: Pair)
    requires Leads(p, m, q)
    ensures Enabled(Single(iid, d, p), Named(iid, m)) && Step(Single(iid, d, p), Named(iid, m)) == Single(iid, d, q)
  {
    assert Step(Single(iid, d, p), Named(iid, m)).forced == map[d := q.forced];
  }

  function AllNamed(iid: string, ms: seq<Move>): seq<Action> {
    seq(|ms|, i requires 0 <= i < |ms| => Named(iid, ms[i]))
  }

  predicate IsPath(ps: seq<Pair>, ms: seq<Move>) {
    |ps| == |ms| + 1 && forall i | 0 <= i < |ms| :: Leads(ps[i], ms[i], ps[i + 1])
  }

  lemma {:induction false} PathRuns(iid: string, d: string, ps: seq<Pair>, ms: seq<Move>)
    requires IsPath(ps, ms)
    ensures Runs(Single(iid, d, ps[0]), AllNamed(iid, ms))
    ensures Exec(Single(iid, d, ps[0]), AllNamed(iid, ms)) == Single(iid, d, ps[|ms|])
    decreases |ms|
  {
    if ms != [] {
      LeadsSteps(iid, d, ps[0], ms[0], ps[1]);
      PathRuns(iid, d, ps[1..], ms[1..]);
      assert AllNamed(iid, ms)[1..] == AllNamed(iid, ms[1..]);
    }
  }

  lemma JoinPaths(ps: seq<Pair>, ms: seq<Move>, qs: seq<Pair>, ns: seq<Move>) returns (rs: seq<Pair>)
    requires IsPath(ps, ms) && IsPath(qs, ns) && ps[|ms|] == qs[0]
    ensures IsPath(rs, ms + ns) && rs[0] == ps[0] && rs[|ms + ns|] == qs[|ns|]
  {
    rs := ps + qs[1..];
    forall i | 0 <= i < |ms + ns| ensures Leads(rs[i], (ms + ns)[i], rs[i + 1]) {
      if i >= |ms| {
        assert rs[i] == qs[i - |ms|] && rs[i + 1] == qs[i - |ms| + 1];
      }
    }
  }

  /** The moves lead a fresh system of one interface and one device to `end`. */
  predicate Arrives(iid: string, d: string, registered: bool, ms: seq<Move>, end: Pair) {
    var s := Single(iid, d, Pair(Link(Created, registered, []), NotSet));
    Initial(s) && Runs(s, AllNamed(iid, ms)) && Exec(s, AllNamed(iid, ms)) == Single(iid, d, end)
  }

  const START_UP := [To(Initializing), Take(0), To(Initialized), Take(0), To(Connecting), Take(0)]
  const UP_AND_DOWN := [To(Connected), Take(0), To(Disconnected), Take(0)]

  lemma StartUpPath() returns (ps: seq<Pair>)
    ensures IsPath(ps, START_UP) && ps[0] == Pair(Link(Created, true, []), NotSet)
    ensures ps[6] == Pair(Link(Connecting, true, []), NotSet)
  {
    ps := [
      Pair(Link(Created, true, []), NotSet), Pair(Link(Initializing, true, [Event(Created, Initializing)]), NotSet),
      Pair(Link(Initializing, true, []), NotSet),
      Pair(Link(Initialized, true, [Event(Initializing, Initialized)]), NotSet),
      Pair(Link(Initialized, true, []), NotSet), Pair(Link(Connecting, true, [Event(Initialized, Connecting)]), NotSet),
      Pair(Link(Connecting, true, []), NotSet)];
  }

  lemma UpAndDownPath() returns (ps: seq<Pair>)
    ensures IsPath(ps, UP_AND_DOWN) && ps[0] == Pair(Link(Connecting, true, []), NotSet)
    ensures ps[4] == Pair(Link(Disconnected, true, []), ForceFalse)
  {
    ps := [
      Pair(Link(Connecting, true, []), NotSet), Pair(Link(Connected, true, [Event(Connecting, Connected)]), NotSet),
      Pair(Link(Connected, true, []), NotSet), Pair(Link(Disconnected, true, [Event(Connected, Disconnected)]), NotSet),
      Pair(Link(Disconnected, true, []), ForceFalse)];
  }

  /** The ordinary course: a registered client connects and disconnects, and each of its events is
      handled before the next; its device ends forced unavailable. */
  lemma DisconnectForcesTheDevice(iid: string, d: string)
    ensures Arrives(iid, d, true, START_UP + UP_AND_DOWN, Pair(Link(Disconnected, true, []), ForceFalse))
  {
    var up := StartUpPath();
    var down := UpAndDownPath();
    var ps := JoinPaths(up, START_UP, down, UP_AND_DOWN);
    PathRuns(iid, d, ps, START_UP + UP_AND_DOWN);
  }

  const LATE_RESET := [To(Initializing), Take(0), To(Failed), Take(0), To(Connecting), Take(0),
                       To(Connected), To(Disconnected), Take(1), Take(0)]

  lemma LateResetPath() returns (ps: seq<Pair>)
    ensures IsPath(ps, LATE_RESET) && ps[0] == Pair(Link(Created, true, []), NotSet)
    ensures ps[10] == Pair(Link(Disconnected, true, []), NotSet)
  {
    var up, down := Event(Connecting, Connected), Event(Connected, Disconnected);
    ps := [
      Pair(Link(Created, true, []), NotSet), Pair(Link(Initializing, true, [Event(Created, Initializing)]), NotSet),
      Pair(Link(Initializing, true, []), NotSet), Pair(Link(Failed, true, [Event(Initializing, Failed)]), NotSet),
      Pair(Link(Failed, true, []), ForceFalse), Pair(Link(Connecting, true, [Event(Failed, Connecting)]), ForceFalse),
      Pair(Link(Connecting, true, []), ForceFalse), Pair(Link(Connected, true, [up]), ForceFalse),
      Pair(Link(Disconnected, true, [up, down]), ForceFalse), Pair(Link(Disconnected, true, [up]), ForceFalse),
      Pair(Link(Disconnected, true, []), NotSet)];
    assert Without([up, down], 1) == [up];
  }

  /** Order matters for a client that is down: a reset handled after the disconnect that followed it
      leaves the device of a disconnected, registered client available. */
  lemma LateResetHidesTheDisconnect(iid: string, d: string)
    ensures Arrives(iid, d, true, LATE_RESET, Pair(Link(Disconnected, true, []), NotSet))
  {
    var ps := LateResetPath();
    PathRuns(iid, d, ps, LATE_RESET);
  }

  const FAIL_UNSEEN := [To(Initializing), Take(0), To(Failed), To(Connecting)]
  const CONNECT_UNSEEN := [Take(1), To(Connected), Take(1), Take(0)]

  lemma FailUnseenPath() returns (ps: seq<Pair>)
    ensures IsPath(ps, FAIL_UNSEEN) && ps[0] == Pair(Link(Created, false, []), NotSet)
    ensures ps[4] == Pair(Link(Connecting, false, [Event(Initializing, Failed), Event(Failed, Connecting)]), NotSet)
  {
    ps := [
      Pair(Link(Created, false, []), NotSet), Pair(Link(Initializing, false, [Event(Created, Initializing)]), NotSet),
      Pair(Link(Initializing, false, []), NotSet), Pair(Link(Failed, false, [Event(Initializing, Failed)]), NotSet),
      Pair(Link(Connecting, false, [Event(Initializing, Failed), Event(Failed, Connecting)]), NotSet)];
  }

  lemma ConnectUnseenPath() returns (ps: seq<Pair>)
    ensures IsPath(ps, CONNECT_UNSEEN) && ps[4] == Pair(Link(Connected, false, []), ForceFalse)
    ensures ps[0] == Pair(Link(Connecting, false, [Event(Initializing, Failed), Event(Failed, Connecting)]), NotSet)
  {
    var down, up := Event(Initializing, Failed), Event(Connecting, Connected);
    ps := [
      Pair(Link(Connecting, false, [down, Event(Failed, Connecting)]), NotSet),
      Pair(Link(Connecting, false, [down]), NotSet), Pair(Link(Connected, false, [down, up]), NotSet),
      Pair(Link(Connected, false, [down]), NotSet), Pair(Link(Connected, false, []), ForceFalse)];
  }

  /** Registration matters for a client that is up: a failure handled after the reset that followed
      it, while the client cannot be found, leaves the device of a connected client forced. */
  lemma BlindFailureHidesTheReset(iid: string, d: string)
    ensures Arrives(iid, d, false, FAIL_UNSEEN + CONNECT_UNSEEN, Pair(Link(Connected, false, []), ForceFalse))
  {
    var fail := FailUnseenPath();
    var connect := ConnectUnseenPath();
    var ps := JoinPaths(fail, FAIL_UNSEEN, connect, CONNECT_UNSEEN);
    PathRuns(iid, d, ps, FAIL_UNSEEN + CONNECT_UNSEEN);
  }
}
