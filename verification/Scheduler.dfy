/** The background scheduler: interval arithmetic and gating on connection issues.
    Times are integers in microseconds. */
module Scheduler {
  import opened Basics

  const CHECK := "_check_connection"
  const ONE_SECOND := 1_000_000
  const LOOP_SLEEP := 5_000_000
  const NOT_STARTED_SLEEP := 10_000_000

  /** `firstRun`, `executions`, `skips` and `cancellations` are history variables. */
  datatype Job = Job(name: string, interval: int, nextRun: int, firstRun: int,
                     executions: nat, skips: nat, cancellations: nat)

  /** How a job's task ends.  `Cancelled` stands for asyncio.CancelledError, thrown into the loop by
      stop() or raised by the task itself; it is no subclass of Exception. */
  datatype Outcome = Ran | RaisedException | Cancelled

  /** What the loop observes around one job: whether the scheduler is active, the clock at the
      first and second look at `ready`, and how the task ends if it is run. */
  datatype Reading = Reading(active: bool, now: int, again: int, outcome: Outcome)

  /** A started run: which job, on which of its slots, when that was due, when the run started,
      whether the pass had sampled a connection issue, and whether the run was cancelled. */
  datatype Run = Run(job: nat, slot: nat, due: int, at: int, issue: bool, cancelled: bool)

  function Slots(j: Job): nat { j.executions + j.skips }

  function Advance(j: Job): Job { j.(nextRun := j.nextRun + j.interval) }

  predicate Ready(j: Job, now: int) { j.nextRun < now }

  predicate Eligible(j: Job, issue: bool) { !issue || j.name == CHECK }

  predicate Executes(j: Job, issue: bool, r: Reading) {
    r.active && Ready(j, r.now) && Eligible(j, issue)
  }

  /** The run leaves the `for` loop, and the scheduler loop with it. */
  predicate Stops(j: Job, issue: bool, r: Reading) { Executes(j, issue, r) && r.outcome == Cancelled }

  function Executed(j: Job, o: Outcome): Job {
    match o
    case Ran => Advance(j).(executions := j.executions + 1)
    case RaisedException => Advance(j).(executions := j.executions + 1)
    case Cancelled => j.(cancellations := j.cancellations + 1)
  }

  function Visit(j: Job, issue: bool, r: Reading): Job {
    if !r.active || !Ready(j, r.now) then j
    else if !Eligible(j, issue) then
      if Ready(j, r.again) then Advance(j).(skips := j.skips + 1) else j
    else Executed(j, r.outcome)
  }

  /** One pass over the jobs, in order; readings behind a cancelled run are never taken. */
  datatype Pass = Pass(issue: bool, readings: seq<Reading>)

  datatype Sched = Sched(jobs: seq<Job>, runs: seq<Run>, clock: int)

  function RunOf(j: Job, i: nat, issue: bool, r: Reading): Run {
    Run(i, Slots(j), j.nextRun, r.now, issue, r.outcome == Cancelled)
  }

  function VisitOne(s: Sched, p: Pass, i: nat): Sched
    requires i < |s.jobs| == |p.readings|
  {
    var j, r := s.jobs[i], p.readings[i];
    Sched(s.jobs[i := Visit(j, p.issue, r)],
          if Executes(j, p.issue, r) then s.runs + [RunOf(j, i, p.issue, r)] else s.runs,
          r.again)
  }

  /** How far a pass has come, and whether a cancelled run has ended it. */
  datatype Progress = Progress(s: Sched, stopped: bool)

  function Upto(s: Sched, p: Pass, n: nat): (e: Progress)
    requires n <= |s.jobs| == |p.readings|
    ensures |e.s.jobs| == |s.jobs|
  {
    if n == 0 then Progress(s, false)
    else
      var e := Upto(s, p, n - 1);
      if e.stopped then e
      else Progress(VisitOne(e.s, p, n - 1), Stops(e.s.jobs[n - 1], p.issue, p.readings[n - 1]))
  }

  function WholePass(s: Sched, p: Pass): (e: Progress)
    requires |s.jobs| == |p.readings|
    ensures |e.s.jobs| == |s.jobs|
  {
    Upto(s, p, |s.jobs|)
  }

  /** The clock never runs backwards. */
  predicate Monotone(clock: int, rs: seq<Reading>) {
    && (forall i | 0 <= i < |rs| :: clock <= rs[i].now <= rs[i].again)
    && (forall i, j | 0 <= i < j < |rs| :: rs[i].again <= rs[j].now)
  }

  predicate Possible(s: Sched, p: Pass) { |p.readings| == |s.jobs| && Monotone(s.clock, p.readings) }

  /** Any passes, of one loop or of several started one after the other. */
  predicate Runs(s: Sched, ps: seq<Pass>)
    decreases |ps|
  {
    ps == [] || (Possible(s, ps[0]) && Runs(WholePass(s, ps[0]).s, ps[1..]))
  }

  function Exec(s: Sched, ps: seq<Pass>): (t: Sched)
    requires Runs(s, ps)
    ensures |t.jobs| == |s.jobs|
    decreases |ps|
  {
    if ps == [] then s else Exec(WholePass(s, ps[0]).s, ps[1..])
  }

  // ------------------------------------------------------------ the objects

  class SchedulerJob {
    const name: string
    const interval: int
    const firstRun: int
    var nextRun: int
    ghost var executions: nat
    ghost var skips: nat
    ghost var cancellations: nat

    ghost function View(): Job
      reads this
    {
      Job(name, interval, nextRun, firstRun, executions, skips, cancellations)
    }

    constructor (name: string, interval: int, firstRun: int)
      ensures View() == Job(name, interval, firstRun, firstRun, 0, 0, 0)
    {
      this.name, this.interval, this.firstRun := name, interval, firstRun;
      nextRun, executions, skips, cancellations := firstRun, 0, 0, 0;
    }

    method ScheduleNextExecution()
      modifies this`nextRun
      ensures nextRun == old(nextRun) + interval
    {
      nextRun := nextRun + interval;
    }
  }

  ghost function Views(jobs: seq<SchedulerJob>): seq<Job>
    reads jobs
  {
    seq(|jobs|, i requires 0 <= i < |jobs| reads jobs => jobs[i].View())
  }

  predicate Distinct(jobs: seq<SchedulerJob>) {
    forall i, j | 0 <= i < j < |jobs| :: jobs[i] != jobs[j]
  }

  /** The `for` loop of one iteration, updating the jobs in place.  `cancelled` says that
      CancelledError leaves it; then nothing behind it in the iteration happens. */
  method RunReadyJobs(jobs: seq<SchedulerJob>, p: Pass, ghost s: Sched)
      returns (anyExecuted: bool, cancelled: bool, ghost t: Sched)
    requires Distinct(jobs) && |p.readings| == |jobs| && s.jobs == Views(jobs)
    modifies jobs
    ensures Views(jobs) == t.jobs && Progress(t, cancelled) == WholePass(s, p)
    ensures !cancelled ==> (anyExecuted <==> t.runs != s.runs)
  {
    anyExecuted, cancelled, t := false, false, s;
    for i := 0 to |jobs|
      invariant Views(jobs) == t.jobs && !cancelled && Progress(t, false) == Upto(s, p, i)
      invariant s.runs <= t.runs && (anyExecuted <==> s.runs < t.runs)
    {
      assert jobs[i].View() == t.jobs[i];
      t := VisitOne(t, p, i);
      var executed;
      executed, cancelled := VisitJob(jobs[i], p.issue, p.readings[i]);
      assert Views(jobs) == t.jobs;
      if cancelled {
        StoppedEarly(s, p, i + 1, |jobs|);
        return;
      }
      anyExecuted := anyExecuted || executed;
    }
  }

  /** The body of that loop: an exception is caught and logged, CancelledError is not. */
  method VisitJob(job: SchedulerJob, issue: bool, r: Reading) returns (executed: bool, cancelled: bool)
    modifies job
    ensures job.View() == Visit(old(job.View()), issue, r)
    ensures cancelled <==> Stops(old(job.View()), issue, r)
    ensures executed <==> Executes(old(job.View()), issue, r) && !cancelled
  {
    executed, cancelled := false, false;
    if !r.active || !(job.nextRun < r.now) {
      return;
    }
    if issue && job.name != CHECK {
      if job.nextRun < r.again {
        job.ScheduleNextExecution();
        job.skips := job.skips + 1;
      }
      return;
    }
    match r.outcome {
      case Cancelled =>
        job.cancellations := job.cancellations + 1;
        return false, true;
      case RaisedException =>
      case Ran =>
    }
    job.ScheduleNextExecution();
    job.executions := job.executions + 1;
    executed := true;
  }

  lemma {:induction false} StoppedEarly(s: Sched, p: Pass, n: nat, m: nat)
    requires n <= m <= |s.jobs| == |p.readings| && Upto(s, p, n).stopped
    ensures Upto(s, p, m) == Upto(s, p, n)
  {
    if n < m {
      StoppedEarly(s, p, n, m - 1);
    }
  }

  /** How long the loop sleeps after a pass. */
  method SleepTime(jobs: seq<SchedulerJob>, issue: bool, anyExecuted: bool, now: int) returns (sleep: int)
    ensures sleep == SleepFor(Views(jobs), issue, anyExecuted, now)
  {
    if anyExecuted {
      return LOOP_SLEEP;
    }
    var due: Option<int> := None;
    for i := 0 to |jobs|
      invariant due == EarliestDue(Views(jobs)[..i], issue)
    {
      var job := jobs[i];
      assert Views(jobs)[..i + 1][..i] == Views(jobs)[..i];
      assert Views(jobs)[..i + 1][i] == job.View();
      if !issue || job.name == CHECK {
        due := if due.None? || job.nextRun < due.value then Some(job.nextRun) else due;
      }
    }
    assert Views(jobs)[..|jobs|] == Views(jobs);
    if due.None? {
      return LOOP_SLEEP;
    }
    var delay := if due.value - now > 0 then due.value - now else 0;
    return if delay < ONE_SECOND then delay else ONE_SECOND;
  }

  function EarliestDue(jobs: seq<Job>, issue: bool): Option<int> {
    if jobs == [] then None
    else
      var due, j := EarliestDue(jobs[..|jobs| - 1], issue), jobs[|jobs| - 1];
      if !Eligible(j, issue) then due
      else if due.None? || j.nextRun < due.value then Some(j.nextRun) else due
  }

  function SleepFor(jobs: seq<Job>, issue: bool, anyExecuted: bool, now: int): int {
    var due := EarliestDue(jobs, issue);
    if anyExecuted || due.None? then LOOP_SLEEP
    else
      var delay := if due.value - now > 0 then due.value - now else 0;
      if delay < ONE_SECOND then delay else ONE_SECOND
  }

  /** One iteration of the outer loop: whether the scheduler is active at its top, whether the
      central is operational, the pass over the jobs, whether the scheduler is still active after
      it, and the clock when the sleep is computed. */
  datatype Iteration = Iteration(active: bool, operational: bool, pass: Pass, activeAfter: bool, now: int)

  /** What the loop leaves behind: the jobs, the runs it started and the sleeps it began. */
  datatype Trace = Trace(s: Sched, sleeps: seq<int>)

  predicate Fits(s: Sched, script: seq<Iteration>) {
    forall i | 0 <= i < |script| :: |script[i].pass.readings| == |s.jobs|
  }

  /** The sleep after a pass that led from `s` to `t`. */
  function SleepAfter(s: Sched, t: Sched, it: Iteration): int {
    SleepFor(t.jobs, it.pass.issue, t.runs != s.runs, it.now)
  }

  /** A script that ends stands for a loop cancelled in its last sleep. */
  function Loop(t: Trace, script: seq<Iteration>): Trace
    requires Fits(t.s, script)
    decreases |script|
  {
    if script == [] || !script[0].active then t
    else if !script[0].operational then Loop(t.(sleeps := t.sleeps + [NOT_STARTED_SLEEP]), script[1..])
    else
      var e := WholePass(t.s, script[0].pass);
      if e.stopped || !script[0].activeAfter then Trace(e.s, t.sleeps)
      else Loop(Trace(e.s, t.sleeps + [SleepAfter(t.s, e.s, script[0])]), script[1..])
  }

  /** The passes a script makes the loop perform. */
  function Passes(s: Sched, script: seq<Iteration>): seq<Pass>
    requires Fits(s, script)
    decreases |script|
  {
    if script == [] || !script[0].active then []
    else if !script[0].operational then Passes(s, script[1..])
    else
      var e := WholePass(s, script[0].pass);
      if e.stopped || !script[0].activeAfter then [script[0].pass]
      else [script[0].pass] + Passes(e.s, script[1..])
  }

  /** `_run_scheduler_loop`, for as long as the script lasts. */
  method RunSchedulerLoop(jobs: seq<SchedulerJob>, script: seq<Iteration>, ghost s: Sched)
      returns (sleeps: seq<int>, ghost t: Sched)
    requires Distinct(jobs) && s.jobs == Views(jobs) && Fits(s, script)
    modifies jobs
    ensures Views(jobs) == t.jobs && Trace(t, sleeps) == Loop(Trace(s, []), script)
  {
    sleeps, t := [], s;
    var n := 0;
    while n < |script| && script[n].active
      invariant 0 <= n <= |script| && Views(jobs) == t.jobs
      invariant Loop(Trace(t, sleeps), script[n..]) == Loop(Trace(s, []), script)
    {
      var it := script[n];
      assert script[n..][0] == it && script[n..][1..] == script[n + 1..];
      n := n + 1;
      if !it.operational {
        sleeps := sleeps + [NOT_STARTED_SLEEP];
        continue;
      }
      var anyExecuted, cancelled;
      anyExecuted, cancelled, t := RunReadyJobs(jobs, it.pass, t);
      if cancelled || !it.activeAfter {
        return;
      }
      var sleep := SleepTime(jobs, it.pass.issue, anyExecuted, it.now);
      sleeps := sleeps + [sleep];
    }
  }

  /** The loop does nothing to the jobs but perform its passes, so what holds of every sequence of
      passes holds of every loop. */
  lemma {:induction false} LoopPerformsPasses(t: Trace, script: seq<Iteration>)
    requires Fits(t.s, script) && Runs(t.s, Passes(t.s, script))
    ensures Loop(t, script).s == Exec(t.s, Passes(t.s, script))
    decreases |script|
  {
    if script != [] && script[0].active {
      if !script[0].operational {
        LoopPerformsPasses(t.(sleeps := t.sleeps + [NOT_STARTED_SLEEP]), script[1..]);
      } else {
        var e := WholePass(t.s, script[0].pass);
        if !e.stopped && script[0].activeAfter {
          LoopPerformsPasses(Trace(e.s, t.sleeps + [SleepAfter(t.s, e.s, script[0])]), script[1..]);
        }
      }
    }
  }

  /** After `k` iterations the loop has slept `k` times, so it goes on. */
  predicate Going(t: Trace, script: seq<Iteration>, k: nat)
    requires Fits(t.s, script) && k <= |script|
  {
    |Loop(t, script[..k]).sleeps| == |t.sleeps| + k
  }

  lemma {:induction false} LoopShape(t: Trace, script: seq<Iteration>)
    requires Fits(t.s, script)
    ensures |Loop(t, script).s.jobs| == |t.s.jobs| && |t.sleeps| <= |Loop(t, script).sleeps| <= |t.sleeps| + |script|
    decreases |script|
  {
    if script != [] && script[0].active {
      var e := WholePass(t.s, script[0].pass);
      if !script[0].operational {
        LoopShape(t.(sleeps := t.sleeps + [NOT_STARTED_SLEEP]), script[1..]);
      } else if !e.stopped && script[0].activeAfter {
        LoopShape(Trace(e.s, t.sleeps + [SleepAfter(t.s, e.s, script[0])]), script[1..]);
      }
    }
  }

  /** One iteration, whatever came before: an inactive scheduler does nothing; while the central is
      not operational it only sleeps ten seconds; otherwise it makes its pass and, unless a run was
      cancelled or the scheduler stopped meanwhile, sleeps as the new jobs require. */
  predicate Iterates(before: Trace, it: Iteration, after: Trace)
    requires |it.pass.readings| == |before.s.jobs|
  {
    if !it.active then after == before
    else if !it.operational then after == Trace(before.s, before.sleeps + [10_000_000])
    else
      var e := WholePass(before.s, it.pass);
      var sleep := SleepFor(e.s.jobs, it.pass.issue, |e.s.runs| > |before.s.runs|, it.now);
      after == Trace(e.s, if e.stopped || !it.activeAfter then before.sleeps else before.sleeps + [sleep])
  }

  lemma {:induction false} EveryIterationDoesItsPart(t: Trace, script: seq<Iteration>, k: nat)
    requires Fits(t.s, script) && k < |script| && Going(t, script, k)
    ensures |Loop(t, script[..k]).s.jobs| == |t.s.jobs|
    ensures Iterates(Loop(t, script[..k]), script[k], Loop(t, script[..k + 1]))
    decreases k
  {
    LoopShape(t, script[..k]);
    if k == 0 {
      assert script[..1][0] == script[0] && script[..1][1..] == [];
      FirstIteration(t, script[..1]);
    } else {
      var it, e := script[0], WholePass(t.s, script[0].pass);
      assert script[..k][0] == it && script[..k + 1][0] == it;
      assert script[..k][1..] == script[1..][..k - 1] && script[..k + 1][1..] == script[1..][..k];
      var next := if !it.operational then t.(sleeps := t.sleeps + [NOT_STARTED_SLEEP])
                  else Trace(e.s, t.sleeps + [SleepAfter(t.s, e.s, it)]);
      assert it.active && (it.operational ==> !e.stopped && it.activeAfter);
      assert script[1..][k - 1] == script[k];
      EveryIterationDoesItsPart(next, script[1..], k - 1);
    }
  }

  lemma FirstIteration(t: Trace, script: seq<Iteration>)
    requires Fits(t.s, script) && |script| == 1
    ensures Iterates(t, script[0], Loop(t, script))
  {
    PassCancelsLast(t.s, script[0].pass, |t.s.jobs|);
  }

  /** Once the loop has ended, the rest of the script does not happen. */
  lemma {:induction false} EndedForGood(t: Trace, script: seq<Iteration>, k: nat)
    requires Fits(t.s, script) && k <= |script| && !Going(t, script, k)
    ensures Loop(t, script) == Loop(t, script[..k])
    decreases k
  {
    if k > 0 && script[0].active {
      var it, e := script[0], WholePass(t.s, script[0].pass);
      assert script[..k][0] == it && script[..k][1..] == script[1..][..k - 1];
      if !it.operational {
        EndedForGood(t.(sleeps := t.sleeps + [NOT_STARTED_SLEEP]), script[1..], k - 1);
      } else if !e.stopped && it.activeAfter {
        EndedForGood(Trace(e.s, t.sleeps + [SleepAfter(t.s, e.s, it)]), script[1..], k - 1);
      }
    }
  }

  // ------------------------------------------------------------ how runs end

  predicate StopsAt(s: Sched, p: Pass, k: nat)
    requires |s.jobs| == |p.readings|
  {
    k < |s.jobs| && Stops(s.jobs[k], p.issue, p.readings[k])
  }

  /** No earlier job of the pass was cancelled. */
  predicate Reached(s: Sched, p: Pass, i: nat)
    requires |s.jobs| == |p.readings|
  {
    forall k: nat | k < i :: !StopsAt(s, p, k)
  }

  /** A pass visits a job exactly if no run before it in the pass was cancelled; every job that is
      visited is visited once, as it was before the pass, and every other job stays as it was.  The
      pass ends the loop exactly if some run in it was cancelled. */
  lemma {:induction false} VisitedExactlyIfReached(s: Sched, p: Pass, n: nat)
    requires n <= |s.jobs| == |p.readings|
    ensures Upto(s, p, n).stopped <==> !Reached(s, p, n)
    ensures forall i | 0 <= i < |s.jobs| ::
      Upto(s, p, n).s.jobs[i] ==
        if i < n && Reached(s, p, i) then Visit(s.jobs[i], p.issue, p.readings[i]) else s.jobs[i]
  {
    if n > 0 {
      VisitedExactlyIfReached(s, p, n - 1);
      if Upto(s, p, n - 1).stopped {
        var k: nat :| k < n - 1 && StopsAt(s, p, k);
      } else {
        assert Upto(s, p, n).stopped <==> StopsAt(s, p, n - 1);
      }
    }
  }

  /** Some run of job `i` is among the runs numbered from `k` on. */
  ghost predicate RunsFrom(runs: seq<Run>, k: nat, i: nat) { exists j :: k <= j < |runs| && runs[j].job == i }

  lemma {:induction false} RunsUpto(s: Sched, p: Pass, n: nat, i: nat)
    requires n <= |s.jobs| == |p.readings| && i < |s.jobs|
    ensures s.runs <= Upto(s, p, n).s.runs
    ensures RunsFrom(Upto(s, p, n).s.runs, |s.runs|, i) <==>
              i < n && Reached(s, p, i) && Executes(s.jobs[i], p.issue, p.readings[i])
  {
    if n > 0 {
      var e, f := Upto(s, p, n - 1), Upto(s, p, n);
      RunsUpto(s, p, n - 1, i);
      VisitedExactlyIfReached(s, p, n - 1);
      if e.stopped {
        assert !Reached(s, p, n - 1);
      } else if f.s.runs != e.s.runs {
        OneMoreRun(e.s.runs, f.s.runs[|e.s.runs|], |s.runs|, i);
      }
    }
  }

  lemma OneMoreRun(runs: seq<Run>, r: Run, k: nat, i: nat)
    requires k <= |runs|
    ensures RunsFrom(runs + [r], k, i) <==> RunsFrom(runs, k, i) || r.job == i
  {
    var all := runs + [r];
    assert all[|runs|] == r;
    if RunsFrom(runs, k, i) {
      var j :| k <= j < |runs| && runs[j].job == i;
      assert all[j].job == i;
    }
  }

  /** A pass runs a job exactly if it reaches it with the scheduler active and the job due, and either
      no connection issue was sampled or the job is the connection check. */
  lemma PassRunsExactly(s: Sched, p: Pass, i: nat)
    requires |s.jobs| == |p.readings| && i < |s.jobs|
    ensures RunsFrom(WholePass(s, p).s.runs, |s.runs|, i) <==>
      && Reached(s, p, i) && p.readings[i].active && s.jobs[i].nextRun < p.readings[i].now
      && (p.issue ==> s.jobs[i].name == "_check_connection")
  {
    RunsUpto(s, p, |s.jobs|, i);
  }

  /** The same but for jobs that raise instead of returning, or the other way round. */
  predicate Alike(p: Pass, q: Pass) {
    && p.issue == q.issue && |p.readings| == |q.readings|
    && forall i | 0 <= i < |p.readings| ::
         && p.readings[i] == q.readings[i].(outcome := p.readings[i].outcome)
         && (p.readings[i].outcome == Cancelled <==> q.readings[i].outcome == Cancelled)
  }

  lemma {:induction false} ExceptionsAreContained(s: Sched, p: Pass, q: Pass, n: nat)
    requires n <= |s.jobs| == |p.readings| && Alike(p, q)
    ensures Upto(s, p, n) == Upto(s, q, n)
  {
    if n > 0 {
      ExceptionsAreContained(s, p, q, n - 1);
    }
  }

  predicate AlikeScripts(a: seq<Iteration>, b: seq<Iteration>) {
    |a| == |b| && forall i | 0 <= i < |a| :: Alike(a[i].pass, b[i].pass) && a[i] == b[i].(pass := a[i].pass)
  }

  /** Whichever jobs raise, at whichever passes: the whole loop advances, runs and sleeps exactly as
      if they had returned. */
  lemma {:induction false} FailuresDoNotMatter(t: Trace, a: seq<Iteration>, b: seq<Iteration>)
    requires Fits(t.s, a) && AlikeScripts(a, b)
    ensures Fits(t.s, b) && Loop(t, a) == Loop(t, b)
    decreases |a|
  {
    forall i | 0 <= i < |b| ensures |b[i].pass.readings| == |t.s.jobs| {
      assert Alike(a[i].pass, b[i].pass);
    }
    if a != [] && a[0].active {
      assert a[0] == b[0].(pass := a[0].pass);
      if !a[0].operational {
        FailuresDoNotMatter(t.(sleeps := t.sleeps + [NOT_STARTED_SLEEP]), a[1..], b[1..]);
      } else {
        ExceptionsAreContained(t.s, a[0].pass, b[0].pass, |t.s.jobs|);
        var e := WholePass(t.s, a[0].pass);
        if !e.stopped && a[0].activeAfter {
          FailuresDoNotMatter(Trace(e.s, t.sleeps + [SleepAfter(t.s, e.s, a[0])]), a[1..], b[1..]);
        }
      }
    }
  }

  /** A cancelled run ends the loop: its job keeps its time and stays due, the jobs behind it are
      not visited, and nothing more of the script happens, not even a sleep. */
  lemma CancellationEndsTheLoop(t: Trace, script: seq<Iteration>, k: nat)
    requires Fits(t.s, script) && script != [] && script[0].active && script[0].operational
    requires Reached(t.s, script[0].pass, k) && StopsAt(t.s, script[0].pass, k)
    ensures
      var end, p := Loop(t, script), script[0].pass;
      && end == Trace(WholePass(t.s, p).s, t.sleeps)
      && end.s.jobs[k] == t.s.jobs[k].(cancellations := t.s.jobs[k].cancellations + 1)
      && (forall i | k < i < |t.s.jobs| :: end.s.jobs[i] == t.s.jobs[i])
      && (forall i | 0 <= i < k :: end.s.jobs[i] == Visit(t.s.jobs[i], p.issue, p.readings[i]))
  {
    var p := script[0].pass;
    VisitedExactlyIfReached(t.s, p, |t.s.jobs|);
    assert !Reached(t.s, p, |t.s.jobs|);
    forall i: nat | k < i < |t.s.jobs| ensures !Reached(t.s, p, i) {}
  }

  /** Runs `a` extended by runs of which only the last can have been cancelled. */
  predicate CancelledOnlyLast(a: seq<Run>, b: seq<Run>, stopped: bool) {
    && a <= b && (stopped ==> |a| < |b| && b[|b| - 1].cancelled)
    && forall i | |a| <= i < |b| :: b[i].cancelled ==> stopped && i == |b| - 1
  }

  lemma {:induction false} PassCancelsLast(s: Sched, p: Pass, n: nat)
    requires n <= |s.jobs| == |p.readings|
    ensures CancelledOnlyLast(s.runs, Upto(s, p, n).s.runs, Upto(s, p, n).stopped)
  {
    if n > 0 {
      PassCancelsLast(s, p, n - 1);
    }
  }

  /** Of all runs a loop starts, only the very last can have been cancelled. */
  lemma {:induction false} OnlyTheLastRunIsCancelled(t: Trace, script: seq<Iteration>)
    requires Fits(t.s, script)
    ensures var all := Loop(t, script).s.runs;
            t.s.runs <= all && forall i | |t.s.runs| <= i < |all| - 1 :: !all[i].cancelled
    decreases |script|
  {
    if script != [] && script[0].active {
      if !script[0].operational {
        OnlyTheLastRunIsCancelled(t.(sleeps := t.sleeps + [NOT_STARTED_SLEEP]), script[1..]);
      } else {
        PassCancelsLast(t.s, script[0].pass, |t.s.jobs|);
        var e := WholePass(t.s, script[0].pass);
        if !e.stopped && script[0].activeAfter {
          OnlyTheLastRunIsCancelled(Trace(e.s, t.sleeps + [SleepAfter(t.s, e.s, script[0])]), script[1..]);
        }
      }
    }
  }

  // ------------------------------------------------------------ every run

  /** Drift-free: the next run is first_run plus one interval per execution or skip, and the slot
      consumed last lay in the past. */
  predicate OnGrid(j: Job, clock: int) {
    && j.nextRun == SlotTime(j, Slots(j))
    && (Slots(j) > 0 ==> j.nextRun - j.interval < clock)
  }

  /** When slot number `k` falls due: first_run + k * interval. */
  function SlotTime(j: Job, k: nat): int {
    if k == 0 then j.firstRun else SlotTime(j, k - 1) + j.interval
  }

  lemma {:induction false} SlotTimeIsProduct(j: Job, k: nat)
    ensures SlotTime(j, k) == j.firstRun + k * j.interval
  {
    if k > 0 { SlotTimeIsProduct(j, k - 1); }
  }

  lemma {:induction false} SameSlots(j: Job, v: Job, k: nat)
    requires v.firstRun == j.firstRun && v.interval == j.interval
    ensures SlotTime(v, k) == SlotTime(j, k)
  {
    if k > 0 { SameSlots(j, v, k - 1); }
  }

  /** The first slot of its job a run leaves to later ones. */
  function NextSlot(r: Run): nat { if r.cancelled then r.slot else r.slot + 1 }

  /** A run that was started in order: due before it started, allowed to, and on a slot of its job. */
  predicate Proper(jobs: seq<Job>, r: Run) {
    && r.job < |jobs| && r.due < r.at
    && (r.issue ==> jobs[r.job].name == CHECK)
    && r.due == SlotTime(jobs[r.job], r.slot) && NextSlot(r) <= Slots(jobs[r.job])
  }

  function Started(runs: seq<Run>, i: nat): nat {
    if runs == [] then 0 else Started(runs[..|runs| - 1], i) + One(runs[|runs| - 1].job == i)
  }

  predicate AllOnGrid(s: Sched) { forall i | 0 <= i < |s.jobs| :: OnGrid(s.jobs[i], s.clock) }

  predicate AllProper(s: Sched) { forall i | 0 <= i < |s.runs| :: Proper(s.jobs, s.runs[i]) }

  /** Every started run was an execution or was cancelled. */
  predicate AllCounted(s: Sched) {
    forall i | 0 <= i < |s.jobs| :: Started(s.runs, i) == s.jobs[i].executions + s.jobs[i].cancellations
  }

  /** A slot is run again only after a cancelled run. */
  predicate NoSlotTwice(runs: seq<Run>) {
    forall a, b | 0 <= a < b < |runs| && runs[a].job == runs[b].job :: NextSlot(runs[a]) <= runs[b].slot
  }

  predicate Sound(s: Sched) { AllOnGrid(s) && AllProper(s) && AllCounted(s) && NoSlotTwice(s.runs) }

  predicate Fresh(s: Sched) {
    s.runs == [] && forall i | 0 <= i < |s.jobs| ::
      && s.jobs[i].nextRun == s.jobs[i].firstRun
      && s.jobs[i].executions == 0 && s.jobs[i].skips == 0 && s.jobs[i].cancellations == 0
  }

  lemma VisitKeepsGrid(j: Job, issue: bool, r: Reading, clock: int)
    requires OnGrid(j, clock) && clock <= r.now <= r.again
    ensures OnGrid(Visit(j, issue, r), r.again)
  {
    SameSlots(j, Visit(j, issue, r), Slots(j));
  }

  lemma VisitCounts(j: Job, issue: bool, r: Reading)
    ensures var v := Visit(j, issue, r);
            && v.name == j.name && v.interval == j.interval && v.firstRun == j.firstRun && Slots(j) <= Slots(v)
            && (Executes(j, issue, r) ==> NextSlot(RunOf(j, 0, issue, r)) <= Slots(v))
            && v.executions + v.cancellations == j.executions + j.cancellations + One(Executes(j, issue, r))
  {
  }

  lemma VisitKeepsGrids(s: Sched, p: Pass, i: nat)
    requires i < |s.jobs| == |p.readings| && AllOnGrid(s) && s.clock <= p.readings[i].now <= p.readings[i].again
    ensures AllOnGrid(VisitOne(s, p, i))
  {
    VisitKeepsGrid(s.jobs[i], p.issue, p.readings[i], s.clock);
  }

  lemma ProperLasts(s: Sched, p: Pass, i: nat, r: Run)
    requires i < |s.jobs| == |p.readings| && Proper(s.jobs, r)
    ensures Proper(VisitOne(s, p, i).jobs, r)
  {
    SameSlots(s.jobs[r.job], VisitOne(s, p, i).jobs[r.job], r.slot);
    VisitCounts(s.jobs[i], p.issue, p.readings[i]);
  }

  lemma NewRunIsProper(s: Sched, p: Pass, i: nat)
    requires i < |s.jobs| == |p.readings| && OnGrid(s.jobs[i], s.clock) && Executes(s.jobs[i], p.issue, p.readings[i])
    ensures Proper(VisitOne(s, p, i).jobs, RunOf(s.jobs[i], i, p.issue, p.readings[i]))
  {
    SameSlots(s.jobs[i], VisitOne(s, p, i).jobs[i], Slots(s.jobs[i]));
    VisitCounts(s.jobs[i], p.issue, p.readings[i]);
  }

  lemma VisitKeepsProper(s: Sched, p: Pass, i: nat)
    requires i < |s.jobs| == |p.readings| && AllOnGrid(s) && AllProper(s)
    ensures AllProper(VisitOne(s, p, i))
  {
    forall k | 0 <= k < |s.runs| ensures Proper(VisitOne(s, p, i).jobs, s.runs[k]) {
      ProperLasts(s, p, i, s.runs[k]);
    }
    if Executes(s.jobs[i], p.issue, p.readings[i]) {
      NewRunIsProper(s, p, i);
    }
  }

  lemma VisitKeepsCounts(s: Sched, p: Pass, i: nat)
    requires i < |s.jobs| == |p.readings| && AllCounted(s)
    ensures AllCounted(VisitOne(s, p, i))
  {
    var t := VisitOne(s, p, i);
    VisitCounts(s.jobs[i], p.issue, p.readings[i]);
    if t.runs != s.runs {
      assert t.runs[..|t.runs| - 1] == s.runs;
    }
  }

  lemma VisitRunsNoSlotTwice(s: Sched, p: Pass, i: nat)
    requires i < |s.jobs| == |p.readings| && AllProper(s) && NoSlotTwice(s.runs)
    ensures NoSlotTwice(VisitOne(s, p, i).runs)
  {
    forall a | 0 <= a < |s.runs| && s.runs[a].job == i ensures NextSlot(s.runs[a]) <= Slots(s.jobs[i]) {
      assert Proper(s.jobs, s.runs[a]);
    }
  }

  lemma VisitIsSound(s: Sched, p: Pass, i: nat)
    requires i < |s.jobs| == |p.readings| && Sound(s) && s.clock <= p.readings[i].now <= p.readings[i].again
    ensures Sound(VisitOne(s, p, i))
  {
    VisitKeepsGrids(s, p, i);
    VisitKeepsProper(s, p, i);
    VisitKeepsCounts(s, p, i);
    VisitRunsNoSlotTwice(s, p, i);
  }

  lemma PassIsSound(s: Sched, p: Pass)
    requires Sound(s) && Possible(s, p)
    ensures Sound(WholePass(s, p).s)
  {
    var t, stopped := s, false;
    for n := 0 to |s.jobs|
      invariant Progress(t, stopped) == Upto(s, p, n)
      invariant Sound(t)
      invariant forall i | n <= i < |s.jobs| :: t.clock <= p.readings[i].now
    {
      if !stopped {
        VisitIsSound(t, p, n);
        t, stopped := VisitOne(t, p, n), Stops(t.jobs[n], p.issue, p.readings[n]);
      }
    }
  }

  lemma {:induction false} PassesAreSound(s: Sched, ps: seq<Pass>)
    requires Sound(s) && Runs(s, ps)
    ensures Sound(Exec(s, ps))
    decreases |ps|
  {
    if ps != [] {
      PassIsSound(s, ps[0]);
      PassesAreSound(WholePass(s, ps[0]).s, ps[1..]);
    }
  }

  /** Over any sequence of passes with a clock that never runs backwards: every job stays on the
      grid first_run + k * interval with k = executions + skips, its last consumed slot lies in
      the past, every run started after it was due and on a slot of its job, a slot is run again
      only if its earlier run was cancelled, started runs are executions plus cancellations, and
      under a sampled connection issue only the connection check ran. */
  lemma SchedulesAreSound(s: Sched, ps: seq<Pass>)
    requires Sound(s) && Runs(s, ps)
    ensures Sound(Exec(s, ps))
    ensures forall i | 0 <= i < |s.jobs| ::
      var j := Exec(s, ps).jobs[i]; j.nextRun == j.firstRun + Slots(j) * j.interval
  {
    PassesAreSound(s, ps);
    forall i | 0 <= i < |s.jobs| ensures var j := Exec(s, ps).jobs[i]; j.nextRun == j.firstRun + Slots(j) * j.interval {
      assert OnGrid(Exec(s, ps).jobs[i], Exec(s, ps).clock);
      SlotTimeIsProduct(Exec(s, ps).jobs[i], Slots(Exec(s, ps).jobs[i]));
    }
  }

  /** k - 1 intervals never exceed the time elapsed since first_run. */
  lemma SlotsFitElapsedTime(s: Sched, ps: seq<Pass>, i: nat)
    requires Fresh(s) && Runs(s, ps) && i < |Exec(s, ps).jobs|
    ensures var t := Exec(s, ps); var j := t.jobs[i];
            Slots(j) > 0 ==> (Slots(j) - 1) * j.interval < t.clock - j.firstRun
  {
    PassesAreSound(s, ps);
    if Slots(Exec(s, ps).jobs[i]) > 0 { GridFits(Exec(s, ps).jobs[i], Exec(s, ps).clock); }
  }

  lemma GridFits(j: Job, clock: int)
    requires OnGrid(j, clock) && Slots(j) > 0
    ensures (Slots(j) - 1) * j.interval < clock - j.firstRun
  {
    SlotTimeIsProduct(j, Slots(j) - 1);
  }

  /** The pass reaches the job while the scheduler is active and the job is due, and does not
      cancel it. */
  predicate Serves(s: Sched, p: Pass, i: nat)
    requires |s.jobs| == |p.readings| && i < |s.jobs|
  {
    Reached(s, p, i) && p.readings[i].active && Ready(s.jobs[i], p.readings[i].now) && !StopsAt(s, p, i)
  }

  function TimesServed(s: Sched, ps: seq<Pass>, i: nat): nat
    requires Runs(s, ps) && i < |s.jobs|
    decreases |ps|
  {
    if ps == [] then 0 else One(Serves(s, ps[0], i)) + TimesServed(WholePass(s, ps[0]).s, ps[1..], i)
  }

  /** Nothing is lost and nothing is made up: over any passes a job consumes exactly one slot for
      each pass that serves it, whether that pass ran it or skipped it. */
  lemma {:induction false} OneSlotPerServedPass(s: Sched, ps: seq<Pass>, i: nat)
    requires Runs(s, ps) && i < |s.jobs|
    ensures Slots(Exec(s, ps).jobs[i]) == Slots(s.jobs[i]) + TimesServed(s, ps, i)
    decreases |ps|
  {
    if ps != [] {
      VisitedExactlyIfReached(s, ps[0], |s.jobs|);
      assert ps[0].readings[i].now <= ps[0].readings[i].again;
      OneSlotPerServedPass(WholePass(s, ps[0]).s, ps[1..], i);
    }
  }

  // ------------------------------------------------------------ sleeping

  lemma {:induction false} EarliestDueIsEarliest(jobs: seq<Job>, issue: bool)
    ensures var due := EarliestDue(jobs, issue);
      && (due.None? <==> forall i | 0 <= i < |jobs| :: !Eligible(jobs[i], issue))
      && (due.Some? ==> exists i :: 0 <= i < |jobs| && Eligible(jobs[i], issue) && jobs[i].nextRun == due.value)
      && (due.Some? ==> forall i | 0 <= i < |jobs| && Eligible(jobs[i], issue) :: due.value <= jobs[i].nextRun)
  {
    if jobs != [] {
      var n := |jobs| - 1;
      EarliestDueIsEarliest(jobs[..n], issue);
      var due := EarliestDue(jobs, issue);
      if due.Some? && !(Eligible(jobs[n], issue) && jobs[n].nextRun == due.value) {
        var i :| 0 <= i < n && Eligible(jobs[..n][i], issue) && jobs[..n][i].nextRun == due.value;
      }
    }
  }

  /** A job the scheduler would run in its present state: any without a connection issue, else only
      the connection check. */
  predicate MayRun(j: Job, issue: bool) { issue ==> j.name == "_check_connection" }

  /** An idle scheduler with an eligible job sleeps until the earliest eligible job falls due, but at
      most one second, and not at all if one is due; without any eligible job, and after a pass that
      ran one, it sleeps five seconds. */
  lemma IdleSleepIsShort(jobs: seq<Job>, issue: bool, now: int)
    ensures SleepFor(jobs, issue, true, now) == 5_000_000
    ensures
      var sleep := SleepFor(jobs, issue, false, now);
      if exists i :: 0 <= i < |jobs| && MayRun(jobs[i], issue) then
        && 0 <= sleep <= 1_000_000
        && (forall i | 0 <= i < |jobs| && MayRun(jobs[i], issue) :: sleep == 0 || now + sleep <= jobs[i].nextRun)
        && (sleep < 1_000_000 ==>
              exists i :: 0 <= i < |jobs| && MayRun(jobs[i], issue) && jobs[i].nextRun <= now + sleep)
      else sleep == 5_000_000
  {
    EarliestDueIsEarliest(jobs, issue);
    forall i | 0 <= i < |jobs| ensures MayRun(jobs[i], issue) <==> Eligible(jobs[i], issue) {}
    if i :| 0 <= i < |jobs| && MayRun(jobs[i], issue) {
      assert EarliestDue(jobs, issue).Some?;
      var k :| 0 <= k < |jobs| && Eligible(jobs[k], issue) && jobs[k].nextRun == EarliestDue(jobs, issue).value;
      assert MayRun(jobs[k], issue);
    }
  }
}
