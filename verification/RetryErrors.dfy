/**
  Exceptions as the retry handler sees them: which class they belong to, whether they
  carry an XML-RPC fault code, and which exception caused them.
 */
module RetryErrors {

  import opened Basics

  /** The exception classes the handler tells apart.  `OtherHomematic` stands for the
      remaining subclasses of BaseHomematicException, `Foreign` for everything outside that
      hierarchy except TimeoutError (asyncio.CancelledError included). */
  datatype ErrorClass =
    | Timeout | NoConnection | InternalBackend
    | AuthFailure | CircuitBreakerOpen | Superseded | Unsupported | Validation
    | OtherHomematic | Foreign

  datatype Error = Error(cls: ErrorClass, faultCode: Option<int>, cause: Option<Error>)

  const FAULT_DUTY_CYCLE := -8
  const FAULT_TRANSMISSION_PENDING := -10

  predicate RetryableFault(code: int) {
    code in {-1, -8, -9, -10}
  }

  /** The k-th exception of the cause chain; the exception itself is number 0. */
  function CauseAt(e: Error, k: nat): Option<Error>
    decreases k
  {
    if k == 0 then Some(e)
    else match e.cause
      case None => None
      case Some(c) => CauseAt(c, k - 1)
  }

  /** The fault code of the nearest proper cause that carries one. */
  function FaultCode(e: Error): Option<int> {
    match e.cause
    case None => None
    case Some(c) => if c.faultCode.Some? then c.faultCode else FaultCode(c)
  }

  predicate Carries(e: Error, k: nat) {
    CauseAt(e, k).Some? && CauseAt(e, k).value.faultCode.Some?
  }

  /** A code is found exactly when some proper cause carries one, and the nearest such cause
      supplies it; a code on the exception itself is never looked at. */
  lemma {:induction false} FaultCodeIsNearest(e: Error)
    ensures FaultCode(e).None? <==> forall k: nat | k >= 1 :: !Carries(e, k)
    ensures FaultCode(e).Some? ==>
              exists k: nat :: k >= 1 && Carries(e, k) && CauseAt(e, k).value.faultCode == FaultCode(e)
                    && forall j: nat | 1 <= j < k :: !Carries(e, j)
    decreases e
  {
    match e.cause
    case None =>
      forall k: nat | k >= 1 ensures !Carries(e, k) {}
    case Some(c) =>
      FaultCodeIsNearest(c);
      assert Carries(e, 1) <==> c.faultCode.Some? by { assert CauseAt(e, 1) == CauseAt(c, 0); }
      forall k: nat | k >= 1 ensures CauseAt(e, k + 1) == CauseAt(c, k) && Carries(e, k + 1) == Carries(c, k) {}
      if c.faultCode.Some? {
      } else if FaultCode(e).Some? {
        var k: nat :| k >= 1 && Carries(c, k) && CauseAt(c, k).value.faultCode == FaultCode(c)
                      && forall j: nat | 1 <= j < k :: !Carries(c, j);
        forall j: nat | 1 <= j < k + 1 ensures !Carries(e, j) {
          if j >= 2 { assert Carries(e, j - 1 + 1) == Carries(c, j - 1); }
        }
      } else {
        forall k: nat | k >= 1 ensures !Carries(e, k) {
          if k >= 2 { assert Carries(e, k - 1 + 1) == Carries(c, k - 1); }
        }
      }
  }

  /** The read-only walk along the cause chain. */
  method GetFaultCode(e: Error) returns (code: Option<int>)
    ensures code == FaultCode(e)
  {
    var cause := e.cause;
    while cause.Some?
      invariant FaultCode(e) == (if cause.None? then None
                                 else if cause.value.faultCode.Some? then cause.value.faultCode
                                 else FaultCode(cause.value))
      decreases cause
    {
      if cause.value.faultCode.Some? {
        return cause.value.faultCode;
      }
      cause := cause.value.cause;
    }
    code := None;
  }

  predicate IsRetryable(e: Error) {
    if e.cls in {AuthFailure, CircuitBreakerOpen, Superseded, Unsupported, Validation} then false
    else if e.cls in {Timeout, NoConnection, InternalBackend} then true
    else e.cls == OtherHomematic && FaultCode(e).Some? && RetryableFault(FaultCode(e).value)
  }
}
