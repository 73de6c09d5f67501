/** The breaker against its trace: what every run of successes, failures, queries and resets keeps. */
module CircuitBreakerTraces {
  import opened Basics
  import CS = ConnectionState
  import opened CircuitBreaker

  // ------------------------------------------------------------ notions about the trace alone

  /** Length of the current uninterrupted run of failures; queries do not interrupt it. */
  function FailureRun(trace: seq<Op>): nat {
    if trace == [] then 0
    else match trace[|trace| - 1]
      case Failure(_) => FailureRun(trace[..|trace| - 1]) + 1
      case Query(_) => FailureRun(trace[..|trace| - 1])
      case _ => 0
  }

  /** When the latest failure since the last reset happened. */
  function LatestFailure(trace: seq<Op>): Option<real> {
    if trace == [] then None
    else match trace[|trace| - 1]
      case Failure(now) => Some(now)
      case Reset => None
      case _ => LatestFailure(trace[..|trace| - 1])
  }

  function Successes(trace: seq<Op>): nat {
    if trace == [] then 0 else Successes(trace[..|trace| - 1]) + if trace[|trace| - 1].Success? then 1 else 0
  }

  predicate OnlySuccessesAndQueries(trace: seq<Op>) {
    forall i | 0 <= i < |trace| :: trace[i].Success? || trace[i].Query?
  }

  function ModeAt(cfg: Config, trace: seq<Op>, n: nat): Mode
    requires n <= |trace|
  {
    After(cfg, trace[..n]).b.mode
  }

  lemma AfterNext(cfg: Config, trace: seq<Op>, n: nat)
    requires n < |trace|
    ensures trace[..n + 1] == trace[..n] + [trace[n]]
    ensures trace[..n + 1][..n] == trace[..n]
    ensures After(cfg, trace[..n + 1]) == Apply(cfg, After(cfg, trace[..n]), trace[n])
  {
  }

  // ------------------------------------------------------------ CLOSED and OPEN

  /** While CLOSED the failure count is the current failure run, and it is below the threshold;
      outside CLOSED a failure has been seen, and the stored time is that of the latest one. */
  lemma {:induction false} CountsTheRun(cfg: Config, trace: seq<Op>)
    ensures
      var b := After(cfg, trace).b;
      && b.lastFailure == LatestFailure(trace)
      && (b.mode == Closed ==>
            b.failures == FailureRun(trace) && (b.failures == 0 || b.failures < cfg.failureThreshold))
      && (b.mode != Closed ==> b.lastFailure.Some?)
  {
    if trace != [] {
      CountsTheRun(cfg, trace[..|trace| - 1]);
    }
  }

  /** Requests recorded since the last reset; queries do not count. */
  function Requests(trace: seq<Op>): nat {
    if trace == [] then 0
    else match trace[|trace| - 1]
      case Reset => 0
      case Query(_) => Requests(trace[..|trace| - 1])
      case _ => Requests(trace[..|trace| - 1]) + 1
  }

  lemma {:induction false} CountsRequests(cfg: Config, trace: seq<Op>)
    ensures After(cfg, trace).b.requests == Requests(trace)
  {
    if trace != [] {
      CountsRequests(cfg, trace[..|trace| - 1]);
    }
  }

  /** Failures since the breaker last closed, was reset, or had a success while CLOSED. */
  function FailureCount(cfg: Config, trace: seq<Op>): nat {
    if trace == [] then 0
    else
      var n := |trace| - 1;
      match trace[n]
      case Failure(_) => FailureCount(cfg, trace[..n]) + 1
      case Query(_) => FailureCount(cfg, trace[..n])
      case Reset => 0
      case Success => if After(cfg, trace).b.mode == Closed then 0 else FailureCount(cfg, trace[..n])
  }

  /** The failure count in every state, and the success count outside a trial. */
  lemma {:induction false} CountersInEveryState(cfg: Config, trace: seq<Op>)
    ensures After(cfg, trace).b.failures == FailureCount(cfg, trace)
    ensures After(cfg, trace).b.mode != HalfOpen ==> After(cfg, trace).b.successes == 0
  {
    if trace != [] {
      CountersInEveryState(cfg, trace[..|trace| - 1]);
    }
  }

  /** From CLOSED the breaker can only open, and it opens exactly at a failure that brings the
      uninterrupted failure run up to the threshold. */
  lemma OpensExactlyAtThreshold(cfg: Config, trace: seq<Op>, n: nat)
    requires n < |trace| && ModeAt(cfg, trace, n) == Closed
    ensures ModeAt(cfg, trace, n + 1) != HalfOpen
    ensures ModeAt(cfg, trace, n + 1) == Open <==>
              trace[n].Failure? && FailureRun(trace[..n + 1]) >= cfg.failureThreshold
  {
    AfterNext(cfg, trace, n);
    CountsTheRun(cfg, trace[..n]);
  }

  /** A query is refused exactly in OPEN with less than the recovery timeout elapsed since the
      latest failure; answering it moves the breaker out of OPEN exactly when it is granted. */
  lemma {:induction false} RefusedExactlyWhileCooling(cfg: Config, trace: seq<Op>, now: real)
    ensures
      var s := After(cfg, trace);
      && (!Available(cfg, s, now) <==>
            s.b.mode == Open && LatestFailure(trace).Some? && now - LatestFailure(trace).value < cfg.recoveryTimeout)
      && (After(cfg, trace + [Query(now)]).b.mode == Open <==> !Available(cfg, s, now))
  {
    CountsTheRun(cfg, trace);
  }

  /** The breaker never trips early: whenever it is not CLOSED, some earlier failure ended a run
      of at least `failureThreshold` uninterrupted failures. */
  lemma {:induction false} TripsOnlyAfterARun(cfg: Config, trace: seq<Op>)
    requires After(cfg, trace).b.mode != Closed
    ensures exists m: nat ::
      1 <= m <= |trace| && trace[m - 1].Failure? && FailureRun(trace[..m]) >= cfg.failureThreshold
  {
    var n := |trace| - 1;
    assert trace[..n + 1] == trace;
    if ModeAt(cfg, trace, n) == Closed {
      OpensExactlyAtThreshold(cfg, trace, n);
    } else {
      TripsOnlyAfterARun(cfg, trace[..n]);
      var m: nat :| 1 <= m <= n && trace[..n][m - 1].Failure? && FailureRun(trace[..n][..m]) >= cfg.failureThreshold;
      assert trace[..n][..m] == trace[..m];
    }
  }

  // ------------------------------------------------------------ HALF_OPEN

  /** A trial: entered at the query number `e`, made late enough after the latest failure, and
      running ever since with nothing but successes and queries, too few successes to close. */
  ghost predicate Trial(cfg: Config, trace: seq<Op>, e: nat) {
    && e < |trace| && trace[e].Query? && LatestFailure(trace[..e]).Some?
    && trace[e].now - LatestFailure(trace[..e]).value >= cfg.recoveryTimeout
    && ModeAt(cfg, trace, e) == Open
    && OnlySuccessesAndQueries(trace[e + 1..])
    && (Successes(trace[e + 1..]) == 0 || Successes(trace[e + 1..]) < cfg.successThreshold)
  }

  lemma TrialGoesOn(cfg: Config, trace: seq<Op>, n: nat, e: nat)
    requires n == |trace| - 1 && Trial(cfg, trace[..n], e) && (trace[n].Success? || trace[n].Query?)
    requires trace[n].Success? ==> Successes(trace[..n][e + 1..]) + 1 < cfg.successThreshold
    ensures Trial(cfg, trace, e)
    ensures Successes(trace[e + 1..]) == Successes(trace[..n][e + 1..]) + if trace[n].Success? then 1 else 0
  {
    assert trace[..n][..e] == trace[..e];
    assert trace[e + 1..] == trace[..n][e + 1..] + [trace[n]];
  }

  /** HALF_OPEN is always such a trial, and the success count counts the successes since entry. */
  lemma {:induction false} HalfOpenIsATrial(cfg: Config, trace: seq<Op>) returns (e: nat)
    requires After(cfg, trace).b.mode == HalfOpen
    ensures Trial(cfg, trace, e) && After(cfg, trace).b.successes == Successes(trace[e + 1..])
  {
    var n := |trace| - 1;
    var before := After(cfg, trace[..n]);
    if before.b.mode == HalfOpen {
      e := HalfOpenIsATrial(cfg, trace[..n]);
      TrialGoesOn(cfg, trace, n, e);
    } else {
      e := n;
      CountsTheRun(cfg, trace[..n]);
    }
  }

  /** A trial ends exactly as documented: it closes at the success that completes
      `successThreshold` successes since entry (or at a reset), it reopens at any failure, and
      otherwise it goes on. */
  lemma TrialEnds(cfg: Config, trace: seq<Op>, n: nat) returns (e: nat)
    requires n < |trace| && ModeAt(cfg, trace, n) == HalfOpen
    ensures e < n && Trial(cfg, trace[..n], e)
    ensures ModeAt(cfg, trace, n + 1) == Closed <==>
              trace[n].Reset? || (trace[n].Success? && Successes(trace[e + 1..n + 1]) >= cfg.successThreshold)
    ensures ModeAt(cfg, trace, n + 1) == Open <==> trace[n].Failure?
  {
    AfterNext(cfg, trace, n);
    e := HalfOpenIsATrial(cfg, trace[..n]);
    assert trace[e + 1..n + 1] == trace[..n][e + 1..] + [trace[n]];
  }

  /** OPEN ends in no other way than documented: it closes exactly at a reset and turns HALF_OPEN
      exactly at a query made late enough after the latest failure; successes and failures leave it. */
  lemma OpenEnds(cfg: Config, trace: seq<Op>, n: nat)
    requires n < |trace| && ModeAt(cfg, trace, n) == Open
    ensures LatestFailure(trace[..n]).Some?
    ensures ModeAt(cfg, trace, n + 1) == Closed <==> trace[n].Reset?
    ensures ModeAt(cfg, trace, n + 1) == HalfOpen <==>
              trace[n].Query? && trace[n].now - LatestFailure(trace[..n]).value >= cfg.recoveryTimeout
  {
    AfterNext(cfg, trace, n);
    CountsTheRun(cfg, trace[..n]);
  }

  // ------------------------------------------------------------ the issue list

  predicate IsListed(cfg: Config, s: System) {
    cfg.iid in CS.Listed(s.issues, cfg.issuer)
  }

  predicate Agrees(cfg: Config, s: System) {
    IsListed(cfg, s) <==> s.b.mode != Closed
  }

  /** Strictly alternating events about one interface, the first one a disconnect. */
  predicate Alternates(log: seq<CS.Notice>, iid: string) {
    forall i | 0 <= i < |log| :: log[i] == CS.Notice(iid, i % 2 == 1)
  }

  ghost predicate Solo(cfg: Config, s: System) {
    && Alternates(s.issues.log, cfg.iid)
    && CS.Listed(s.issues, cfg.issuer) == if |s.issues.log| % 2 == 1 then [cfg.iid] else []
  }

  /** In every run, resets included, the events of a breaker that alone uses its id strictly
      alternate, starting with a disconnect, and the id is listed exactly between a disconnect
      and the next connect. */
  lemma {:induction false} EventsAlternate(cfg: Config, trace: seq<Op>)
    ensures Solo(cfg, After(cfg, trace))
  {
    if trace != [] {
      EventsAlternate(cfg, trace[..|trace| - 1]);
    }
  }

  predicate NoReset(trace: seq<Op>) {
    forall i | 0 <= i < |trace| :: !trace[i].Reset?
  }

  /** In every run without reset the id is listed exactly while the breaker is not CLOSED. */
  lemma {:induction false} ListedExactlyWhileNotClosed(cfg: Config, trace: seq<Op>)
    requires NoReset(trace)
    ensures Agrees(cfg, After(cfg, trace))
  {
    if trace != [] {
      ListedExactlyWhileNotClosed(cfg, trace[..|trace| - 1]);
      EventsAlternate(cfg, trace[..|trace| - 1]);
    }
  }

  /** With resets agreement can fail: trip a breaker with threshold 1 and reset it. */
  lemma ResetLeavesAStaleIssue(cfg: Config, now: real)
    requires cfg.failureThreshold == 1
    ensures !Agrees(cfg, After(cfg, [Failure(now), Reset]))
  {
    var trace := [Failure(now), Reset];
    assert After(cfg, []) == INITIAL;
  }

  /** A reset breaks agreement exactly when it hits a breaker that is not CLOSED. */
  lemma ResetKeepsAgreementIff(cfg: Config, s: System)
    requires Agrees(cfg, s)
    ensures Agrees(cfg, Apply(cfg, s, Reset)) <==> s.b.mode == Closed
  {
  }

  /** The breaker has tripped, and has not closed through successes since. */
  ghost predicate TrippedSinceRecovery(cfg: Config, trace: seq<Op>) {
    exists i: nat :: i < |trace| && ModeAt(cfg, trace, i) != Open && ModeAt(cfg, trace, i + 1) == Open
      && NoRecoveryFrom(cfg, trace, i)
  }

  ghost predicate NoRecoveryFrom(cfg: Config, trace: seq<Op>, i: nat) {
    forall j: nat | i <= j < |trace| ::
      !(trace[j].Success? && ModeAt(cfg, trace, j) == HalfOpen && ModeAt(cfg, trace, j + 1) == Closed)
  }

  lemma PrefixModes(cfg: Config, trace: seq<Op>, n: nat)
    requires n <= |trace|
    ensures forall j: nat | j <= n :: ModeAt(cfg, trace[..n], j) == ModeAt(cfg, trace, j)
  {
    forall j: nat | j <= n ensures ModeAt(cfg, trace[..n], j) == ModeAt(cfg, trace, j) {
      assert trace[..n][..j] == trace[..j];
    }
  }

  lemma ExtendNoRecovery(cfg: Config, trace: seq<Op>, n: nat, i: nat)
    requires n == |trace| - 1 && i <= n
    ensures NoRecoveryFrom(cfg, trace, i) <==>
      NoRecoveryFrom(cfg, trace[..n], i) &&
      !(trace[n].Success? && ModeAt(cfg, trace, n) == HalfOpen && ModeAt(cfg, trace, n + 1) == Closed)
  {
    PrefixModes(cfg, trace, n);
  }

  lemma ExtendTripped(cfg: Config, trace: seq<Op>, n: nat)
    requires n == |trace| - 1
    ensures TrippedSinceRecovery(cfg, trace) <==>
      || (ModeAt(cfg, trace, n) != Open && ModeAt(cfg, trace, n + 1) == Open)
      || (TrippedSinceRecovery(cfg, trace[..n]) &&
          !(trace[n].Success? && ModeAt(cfg, trace, n) == HalfOpen && ModeAt(cfg, trace, n + 1) == Closed))
  {
    forall i: nat | i <= n { ExtendNoRecovery(cfg, trace, n, i); }
    PrefixModes(cfg, trace, n);
  }

  /** In every run, resets included: listed exactly when tripped and not recovered since. */
  lemma {:induction false} ListedExactlySinceTrip(cfg: Config, trace: seq<Op>)
    ensures IsListed(cfg, After(cfg, trace)) <==> TrippedSinceRecovery(cfg, trace)
    ensures After(cfg, trace).b.mode != Closed ==> IsListed(cfg, After(cfg, trace))
  {
    if trace != [] {
      var n := |trace| - 1;
      assert trace[..n + 1] == trace;
      ListedExactlySinceTrip(cfg, trace[..n]);
      ExtendTripped(cfg, trace, n);
      EventsAlternate(cfg, trace[..n]);
    }
  }
}
