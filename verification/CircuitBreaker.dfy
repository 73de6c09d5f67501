/** The circuit breaker of one interface, together with the issue list it reports to. */
module CircuitBreaker {
  import opened Basics
  import CS = ConnectionState

  datatype Mode = Closed | Open | HalfOpen

  datatype Config = Config(failureThreshold: int, recoveryTimeout: real, successThreshold: int,
                           iid: string, issuer: CS.Transport)

  datatype Core = Core(mode: Mode, failures: nat, successes: nat, requests: nat, lastFailure: Option<real>)

  /** The breaker and the connection state it notifies. */
  datatype System = System(b: Core, issues: CS.Issues)

  /** What happens to a breaker; `now` is the clock reading the code takes. */
  datatype Op = Success | Failure(now: real) | Query(now: real) | Reset

  const FRESH := Core(Closed, 0, 0, 0, None)
  const INITIAL := System(FRESH, CS.NO_ISSUES)

  // ------------------------------------------------------------ transitions

  function Moved(cfg: Config, s: System, target: Mode): System {
    if s.b.mode == target then s
    else match target
      case Closed => System(s.b.(mode := Closed, failures := 0, successes := 0),
                            CS.WithoutIssue(s.issues, cfg.issuer, cfg.iid))
      case Open => System(s.b.(mode := Open, successes := 0), CS.WithIssue(s.issues, cfg.issuer, cfg.iid))
      case HalfOpen => s.(b := s.b.(mode := HalfOpen, successes := 0))
  }

  function Failed(cfg: Config, s: System, now: real): System {
    var s' := s.(b := s.b.(failures := s.b.failures + 1, requests := s.b.requests + 1, lastFailure := Some(now)));
    if (s.b.mode == Closed && s'.b.failures >= cfg.failureThreshold) || s.b.mode == HalfOpen
    then Moved(cfg, s', Open) else s'
  }

  function Succeeded(cfg: Config, s: System): System {
    var s' := s.(b := s.b.(requests := s.b.requests + 1));
    match s.b.mode
    case Closed => s'.(b := s'.b.(failures := 0))
    case HalfOpen =>
      var s'' := s'.(b := s'.b.(successes := s'.b.successes + 1));
      if s''.b.successes >= cfg.successThreshold then Moved(cfg, s'', Closed) else s''
    case Open => s'
  }

  /** The answer of `is_available`, which may also move the breaker to HALF_OPEN. */
  predicate Available(cfg: Config, s: System, now: real) {
    s.b.mode != Open || (s.b.lastFailure.Some? && now - s.b.lastFailure.value >= cfg.recoveryTimeout)
  }

  function AfterQuery(cfg: Config, s: System, now: real): System {
    if s.b.mode == Open && Available(cfg, s, now) then Moved(cfg, s, HalfOpen) else s
  }

  function Apply(cfg: Config, s: System, op: Op): System {
    match op
    case Success => Succeeded(cfg, s)
    case Failure(now) => Failed(cfg, s, now)
    case Query(now) => AfterQuery(cfg, s, now)
    case Reset => s.(b := FRESH)
  }

  function After(cfg: Config, trace: seq<Op>): System {
    if trace == [] then INITIAL else Apply(cfg, After(cfg, trace[..|trace| - 1]), trace[|trace| - 1])
  }

  // ------------------------------------------------------------ the object

  class Breaker {
    const cfg: Config
    const connection: CS.CentralConnectionState
    var mode: Mode
    var failureCount: nat
    var successCount: nat
    var totalRequests: nat
    var lastFailureTime: Option<real>

    ghost function View(): System
      reads this, connection
    {
      System(Core(mode, failureCount, successCount, totalRequests, lastFailureTime), connection.View())
    }

    constructor (cfg: Config, connection: CS.CentralConnectionState)
      ensures this.cfg == cfg && this.connection == connection && View() == System(FRESH, connection.View())
    {
      this.cfg, this.connection := cfg, connection;
      mode, failureCount, successCount, totalRequests, lastFailureTime := Closed, 0, 0, 0, None;
    }

    method TransitionTo(target: Mode)
      modifies this, connection
      ensures View() == Moved(cfg, old(View()), target)
    {
      if mode == target {
        return;
      }
      mode := target;
      match target {
        case Closed =>
          failureCount, successCount := 0, 0;
          var _ := connection.RemoveIssue(cfg.issuer, cfg.iid);
        case Open =>
          successCount := 0;
          var _ := connection.AddIssue(cfg.issuer, cfg.iid);
        case HalfOpen =>
          successCount := 0;
      }
    }

    method IsAvailable(now: real) returns (available: bool)
      modifies this, connection
      ensures available == Available(cfg, old(View()), now)
      ensures View() == Apply(cfg, old(View()), Query(now))
    {
      if mode == Closed {
        return true;
      }
      if mode == Open {
        if lastFailureTime.Some? && now - lastFailureTime.value >= cfg.recoveryTimeout {
          TransitionTo(HalfOpen);
          return true;
        }
        return false;
      }
      return true;
    }

    method RecordFailure(now: real)
      modifies this, connection
      ensures View() == Apply(cfg, old(View()), Failure(now))
    {
      failureCount := failureCount + 1;
      totalRequests := totalRequests + 1;
      lastFailureTime := Some(now);
      if mode == Closed {
        if failureCount >= cfg.failureThreshold {
          TransitionTo(Open);
        }
      } else if mode == HalfOpen {
        TransitionTo(Open);
      }
    }

    method RecordSuccess()
      modifies this, connection
      ensures View() == Apply(cfg, old(View()), Success)
    {
      totalRequests := totalRequests + 1;
      if mode == Closed {
        failureCount := 0;
      } else if mode == HalfOpen {
        successCount := successCount + 1;
        if successCount >= cfg.successThreshold {
          TransitionTo(Closed);
        }
      }
    }

    /** Does not tell the connection state. */
    method ResetBreaker()
      modifies this
      ensures View() == Apply(cfg, old(View()), Reset)
    {
      mode, failureCount, successCount, totalRequests, lastFailureTime := Closed, 0, 0, 0, None;
    }
  }
}
