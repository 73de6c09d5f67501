/** Several breakers that report under one interface id, as the read and the write proxy of one
    client do. */
module CircuitBreakersShared {
  import opened Basics
  import CS = ConnectionState
  import opened CircuitBreaker
  import opened CircuitBreakerTraces

  /** The breakers and the connection state they all notify. */
  datatype Team = Team(cores: seq<Core>, issues: CS.Issues)

  /** Something that happens to breaker number `k`. */
  datatype Event = Event(k: nat, op: Op)

  /** The breakers may differ in their thresholds, not in id and transport. */
  predicate OneId(cfgs: seq<Config>, iid: string, issuer: CS.Transport) {
    forall i | 0 <= i < |cfgs| :: cfgs[i].iid == iid && cfgs[i].issuer == issuer
  }

  predicate Addressed(cfgs: seq<Config>, trace: seq<Event>) { forall i | 0 <= i < |trace| :: trace[i].k < |cfgs| }

  function Step(cfgs: seq<Config>, t: Team, e: Event): Team
    requires e.k < |cfgs| == |t.cores|
  {
    var s := Apply(cfgs[e.k], System(t.cores[e.k], t.issues), e.op);
    Team(t.cores[e.k := s.b], s.issues)
  }

  function AfterAll(cfgs: seq<Config>, trace: seq<Event>): (t: Team)
    requires Addressed(cfgs, trace)
    ensures |t.cores| == |cfgs|
  {
    if trace == [] then Team(seq(|cfgs|, _ => FRESH), CS.NO_ISSUES)
    else Step(cfgs, AfterAll(cfgs, trace[..|trace| - 1]), trace[|trace| - 1])
  }

  predicate Lists(t: Team, iid: string, issuer: CS.Transport) { iid in CS.Listed(t.issues, issuer) }

  /** The event makes its breaker trip: out of CLOSED or HALF_OPEN into OPEN. */
  predicate Trips(cfgs: seq<Config>, t: Team, e: Event)
    requires e.k < |cfgs| == |t.cores|
  {
    t.cores[e.k].mode != Open && Step(cfgs, t, e).cores[e.k].mode == Open
  }

  /** The event is the success that closes its breaker after a trial. */
  predicate Recovers(cfgs: seq<Config>, t: Team, e: Event)
    requires e.k < |cfgs| == |t.cores|
  {
    e.op.Success? && t.cores[e.k].mode == HalfOpen && Step(cfgs, t, e).cores[e.k].mode == Closed
  }

  // ------------------------------------------------------------ one list for all

  /** The events about the id alternate, and the list says which one came last. */
  ghost predicate Coherent(t: Team, iid: string, issuer: CS.Transport) {
    && Alternates(t.issues.log, iid)
    && CS.Listed(t.issues, issuer) == if |t.issues.log| % 2 == 1 then [iid] else []
  }

  lemma StepLists(cfgs: seq<Config>, t: Team, e: Event, iid: string, issuer: CS.Transport)
    requires e.k < |cfgs| == |t.cores| && OneId(cfgs, iid, issuer) && Coherent(t, iid, issuer)
    ensures Coherent(Step(cfgs, t, e), iid, issuer)
    ensures Lists(Step(cfgs, t, e), iid, issuer) <==>
              Trips(cfgs, t, e) || (Lists(t, iid, issuer) && !Recovers(cfgs, t, e))
  {
  }

  /** In every run of any number of breakers the published events strictly alternate. */
  lemma {:induction false} SharedEventsAlternate(cfgs: seq<Config>, trace: seq<Event>, iid: string,
                                                 issuer: CS.Transport)
    requires OneId(cfgs, iid, issuer) && Addressed(cfgs, trace)
    ensures Coherent(AfterAll(cfgs, trace), iid, issuer)
  {
    if trace != [] {
      var n := |trace| - 1;
      SharedEventsAlternate(cfgs, trace[..n], iid, issuer);
      StepLists(cfgs, AfterAll(cfgs, trace[..n]), trace[n], iid, issuer);
    }
  }

  /** The team after the first `n` events. */
  function At(cfgs: seq<Config>, trace: seq<Event>, n: nat): (t: Team)
    requires Addressed(cfgs, trace) && n <= |trace|
    ensures |t.cores| == |cfgs|
  {
    AfterAll(cfgs, trace[..n])
  }

  lemma AtPrefix(cfgs: seq<Config>, trace: seq<Event>, m: nat, n: nat)
    requires Addressed(cfgs, trace) && n <= m <= |trace|
    ensures At(cfgs, trace[..m], n) == At(cfgs, trace, n)
  {
    assert trace[..m][..n] == trace[..n];
  }

  predicate TripsAt(cfgs: seq<Config>, trace: seq<Event>, i: nat)
    requires Addressed(cfgs, trace) && i < |trace|
  {
    Trips(cfgs, At(cfgs, trace, i), trace[i])
  }

  predicate RecoversAt(cfgs: seq<Config>, trace: seq<Event>, i: nat)
    requires Addressed(cfgs, trace) && i < |trace|
  {
    Recovers(cfgs, At(cfgs, trace, i), trace[i])
  }

  /** Of all trips and recoveries of all breakers, the latest is the trip number `i`. */
  ghost predicate LatestIsTrip(cfgs: seq<Config>, trace: seq<Event>, i: nat)
    requires Addressed(cfgs, trace)
  {
    i < |trace| && TripsAt(cfgs, trace, i) && forall j: nat | i < j < |trace| :: !RecoversAt(cfgs, trace, j)
  }

  ghost predicate TrippedLatest(cfgs: seq<Config>, trace: seq<Event>)
    requires Addressed(cfgs, trace)
  {
    exists i: nat :: LatestIsTrip(cfgs, trace, i)
  }

  lemma LatestIsTripNext(cfgs: seq<Config>, trace: seq<Event>, n: nat, i: nat)
    requires Addressed(cfgs, trace) && n == |trace| - 1
    ensures LatestIsTrip(cfgs, trace, i) <==>
      (i == n && TripsAt(cfgs, trace, n)) || (LatestIsTrip(cfgs, trace[..n], i) && !RecoversAt(cfgs, trace, n))
  {
    forall j: nat | j < n
      ensures TripsAt(cfgs, trace[..n], j) == TripsAt(cfgs, trace, j)
      ensures RecoversAt(cfgs, trace[..n], j) == RecoversAt(cfgs, trace, j)
    {
      AtPrefix(cfgs, trace, n, j);
    }
  }

  lemma TrippedLatestNext(cfgs: seq<Config>, trace: seq<Event>, n: nat)
    requires Addressed(cfgs, trace) && n == |trace| - 1
    ensures TrippedLatest(cfgs, trace) <==>
      TripsAt(cfgs, trace, n) || (TrippedLatest(cfgs, trace[..n]) && !RecoversAt(cfgs, trace, n))
  {
    LatestIsTripNext(cfgs, trace, n, n);
    if i: nat :| LatestIsTrip(cfgs, trace, i) {
      LatestIsTripNext(cfgs, trace, n, i);
    }
    if i: nat :| LatestIsTrip(cfgs, trace[..n], i) {
      LatestIsTripNext(cfgs, trace, n, i);
    }
  }

  /** In every run, resets included, whichever breakers they hit: the id is listed exactly if the
      latest trip or recovery of any of them was a trip. */
  lemma {:induction false} ListedExactlyByLatest(cfgs: seq<Config>, trace: seq<Event>, iid: string,
                                                 issuer: CS.Transport)
    requires OneId(cfgs, iid, issuer) && Addressed(cfgs, trace)
    ensures Lists(AfterAll(cfgs, trace), iid, issuer) <==> TrippedLatest(cfgs, trace)
  {
    if trace != [] {
      var n := |trace| - 1;
      ListedExactlyByLatest(cfgs, trace[..n], iid, issuer);
      SharedEventsAlternate(cfgs, trace[..n], iid, issuer);
      StepLists(cfgs, AfterAll(cfgs, trace[..n]), trace[n], iid, issuer);
      TrippedLatestNext(cfgs, trace, n);
    }
  }

  // ------------------------------------------------------------ one recovery can hide another's trouble

  predicate Troubled(t: Team) { exists j | 0 <= j < |t.cores| :: t.cores[j].mode != Closed }

  /** The list is right about the team: listed exactly while some breaker is not CLOSED. */
  predicate Right(t: Team, iid: string, issuer: CS.Transport) { Lists(t, iid, issuer) <==> Troubled(t) }

  /** A breaker recovers while another one is not CLOSED. */
  predicate Hides(cfgs: seq<Config>, t: Team, e: Event)
    requires e.k < |cfgs| == |t.cores|
  {
    Recovers(cfgs, t, e) && exists j | 0 <= j < |t.cores| :: j != e.k && t.cores[j].mode != Closed
  }

  lemma TroubleAfter(cfgs: seq<Config>, t: Team, e: Event)
    requires e.k < |cfgs| == |t.cores| && !e.op.Reset?
    ensures Troubled(Step(cfgs, t, e)) <==>
      if Recovers(cfgs, t, e) then Hides(cfgs, t, e) else Trips(cfgs, t, e) || Troubled(t)
  {
    var t' := Step(cfgs, t, e);
    assert forall j | 0 <= j < |t.cores| && j != e.k :: t'.cores[j] == t.cores[j];
    if Recovers(cfgs, t, e) {
      assert t'.cores[e.k].mode == Closed;
    } else if Trips(cfgs, t, e) {
      assert t'.cores[e.k].mode != Closed;
    } else {
      assert t'.cores[e.k].mode == Closed <==> t.cores[e.k].mode == Closed;
      if Troubled(t) {
        var j :| 0 <= j < |t.cores| && t.cores[j].mode != Closed;
        assert t'.cores[j].mode != Closed;
      }
    }
  }

  /** A step other than a reset leaves a right list wrong exactly if it hides another breaker. */
  lemma StepStaysRightIff(cfgs: seq<Config>, t: Team, e: Event, iid: string, issuer: CS.Transport)
    requires e.k < |cfgs| == |t.cores| && OneId(cfgs, iid, issuer) && Coherent(t, iid, issuer)
    requires !e.op.Reset? && Right(t, iid, issuer)
    ensures Right(Step(cfgs, t, e), iid, issuer) <==> !Hides(cfgs, t, e)
  {
    StepLists(cfgs, t, e, iid, issuer);
    TroubleAfter(cfgs, t, e);
  }

  predicate NoResets(trace: seq<Event>) { forall i | 0 <= i < |trace| :: !trace[i].op.Reset? }

  ghost predicate AlwaysRight(cfgs: seq<Config>, trace: seq<Event>, iid: string, issuer: CS.Transport)
    requires Addressed(cfgs, trace)
  {
    forall n: nat | n <= |trace| :: Right(At(cfgs, trace, n), iid, issuer)
  }

  predicate HidesAt(cfgs: seq<Config>, trace: seq<Event>, n: nat)
    requires Addressed(cfgs, trace) && n < |trace|
  {
    Hides(cfgs, At(cfgs, trace, n), trace[n])
  }

  ghost predicate NeverHides(cfgs: seq<Config>, trace: seq<Event>)
    requires Addressed(cfgs, trace)
  {
    forall n: nat | n < |trace| :: !HidesAt(cfgs, trace, n)
  }

  lemma AlwaysRightNext(cfgs: seq<Config>, trace: seq<Event>, m: nat, iid: string, issuer: CS.Transport)
    requires Addressed(cfgs, trace) && m == |trace| - 1
    ensures AlwaysRight(cfgs, trace, iid, issuer) <==>
              AlwaysRight(cfgs, trace[..m], iid, issuer) && Right(At(cfgs, trace, m + 1), iid, issuer)
  {
    forall n: nat | n <= m ensures At(cfgs, trace[..m], n) == At(cfgs, trace, n) { AtPrefix(cfgs, trace, m, n); }
  }

  lemma NeverHidesNext(cfgs: seq<Config>, trace: seq<Event>, m: nat)
    requires Addressed(cfgs, trace) && m == |trace| - 1
    ensures NeverHides(cfgs, trace) <==> NeverHides(cfgs, trace[..m]) && !HidesAt(cfgs, trace, m)
  {
    forall n: nat | n < m ensures HidesAt(cfgs, trace[..m], n) == HidesAt(cfgs, trace, n) {
      AtPrefix(cfgs, trace, m, n);
    }
  }

  lemma AtNext(cfgs: seq<Config>, trace: seq<Event>, n: nat)
    requires Addressed(cfgs, trace) && n < |trace|
    ensures At(cfgs, trace, n + 1) == Step(cfgs, At(cfgs, trace, n), trace[n])
  {
    assert trace[..n + 1][..n] == trace[..n];
  }

  /** In every run without resets the list is right at all times exactly if no breaker ever recovers
      while another one sharing its id is not CLOSED. */
  lemma {:induction false} AlwaysRightIff(cfgs: seq<Config>, trace: seq<Event>, iid: string, issuer: CS.Transport)
    requires OneId(cfgs, iid, issuer) && Addressed(cfgs, trace) && NoResets(trace)
    ensures AlwaysRight(cfgs, trace, iid, issuer) <==> NeverHides(cfgs, trace)
  {
    if trace != [] {
      var m := |trace| - 1;
      AlwaysRightIff(cfgs, trace[..m], iid, issuer);
      AlwaysRightNext(cfgs, trace, m, iid, issuer);
      NeverHidesNext(cfgs, trace, m);
      if AlwaysRight(cfgs, trace[..m], iid, issuer) {
        assert Right(At(cfgs, trace[..m], m), iid, issuer);
        AtPrefix(cfgs, trace, m, m);
        AtNext(cfgs, trace, m);
        SharedEventsAlternate(cfgs, trace[..m], iid, issuer);
        StepStaysRightIff(cfgs, At(cfgs, trace, m), trace[m], iid, issuer);
      }
    }
  }

  lemma AtStart(cfgs: seq<Config>, trace: seq<Event>)
    requires Addressed(cfgs, trace)
    ensures forall i | 0 <= i < |cfgs| :: At(cfgs, trace, 0).cores[i] == FRESH
  {
    assert trace[..0] == [];
  }

  lemma FirstFailureTrips(cfgs: seq<Config>, t: Team, k: nat, now: real)
    requires k < |cfgs| == |t.cores| && t.cores[k] == FRESH && cfgs[k].failureThreshold == 1
    ensures Step(cfgs, t, Event(k, Failure(now))).cores == t.cores[k := Core(Open, 1, 0, 1, Some(now))]
  {
  }

  lemma FirstSuccessRecovers(cfgs: seq<Config>, t: Team, k: nat, later: real)
    requires k < |cfgs| == |t.cores| && t.cores[k].mode == Open && cfgs[k].successThreshold == 1
    requires t.cores[k].lastFailure.Some? && later - t.cores[k].lastFailure.value >= cfgs[k].recoveryTimeout
    ensures var u := Step(cfgs, t, Event(k, Query(later)));
            && Recovers(cfgs, u, Event(k, Success))
            && forall j | 0 <= j < |t.cores| && j != k :: Step(cfgs, u, Event(k, Success)).cores[j] == t.cores[j]
  {
  }

  function Outage(down: real, later: real): seq<Event> {
    [Event(0, Failure(down)), Event(1, Failure(down)), Event(0, Query(later)), Event(0, Success)]
  }

  lemma BothTrip(a: Config, b: Config, down: real, later: real)
    requires a.failureThreshold == b.failureThreshold == 1
    ensures var open := Core(Open, 1, 0, 1, Some(down));
            At([a, b], Outage(down, later), 2).cores == [open, open]
  {
    AtStart([a, b], Outage(down, later));
    AtNext([a, b], Outage(down, later), 0);
    FirstFailureTrips([a, b], At([a, b], Outage(down, later), 0), 0, down);
    AtNext([a, b], Outage(down, later), 1);
    FirstFailureTrips([a, b], At([a, b], Outage(down, later), 1), 1, down);
  }

  /** It does happen: both proxies trip at their first failure, the first one recovers, and the id
      is no longer listed although the second breaker is still OPEN. */
  lemma RecoveryHidesTheOther(a: Config, b: Config, down: real, later: real)
    requires a.iid == b.iid && a.issuer == b.issuer
    requires a.failureThreshold == b.failureThreshold == a.successThreshold == 1
    requires later - down >= a.recoveryTimeout
    ensures
      var t := At([a, b], Outage(down, later), 4);
      t.cores[1].mode == Open && !Lists(t, b.iid, b.issuer)
  {
    var cfgs, trace := [a, b], Outage(down, later);
    BothTrip(a, b, down, later);
    AtNext(cfgs, trace, 2);
    AtNext(cfgs, trace, 3);
    FirstSuccessRecovers(cfgs, At(cfgs, trace, 2), 0, later);
    SharedEventsAlternate(cfgs, trace[..3], b.iid, b.issuer);
    StepLists(cfgs, At(cfgs, trace, 3), trace[3], b.iid, b.issuer);
  }
}
