# Verified model of aiohomematic's resilience stack

aiohomematic talks to Homematic backends over connections that come and go. This project models
the code that keeps commands, connections and the overall state coherent while failures,
cancellations and late events interleave, and proves what that code keeps in every run. It also
models five self-contained algorithms of the repository whose loops or recursion carry a real
correctness argument.

Every theorem quantifies over all inputs, all interleavings or all event sequences. Where the code
updates an object in place the model has a class whose methods are proved against functions on
values; the theorems about runs are about those functions and so hold of the objects.

## What is proved

* **Command retry** (`CommandRetry*.dfy`, `RetryErrors.dfy`). Each `execute_with_retry` is a program
  counter that can be interleaved at its awaits: the operation, the interruptible sleep and the
  recovery wait. Superseding, purging, recovery events and cancellation of the coroutine from
  outside are separate steps. Over every interleaving: a live retry is uncancelled exactly when its
  event is the registered one; a cancelled retry never starts another operation; every ending is
  justified by the call's own history and decided by its results; every metric is conserved. The handler class contains the
  coroutine as a loop, and the loop is proved to perform a run of the protocol whatever happens
  during its awaits.
* **Circuit breaker and connection issues** (`CircuitBreaker*.dfy`, `ConnectionState.dfy`). The
  breaker is related to the trace of successes, failures, queries and resets it has seen, and its
  issue-list entry and published events are related to its state; so are any number of breakers
  that share one interface id.
* **Central state** (`CentralStates.dfy`, `CentralEvaluation.dfy`, `ClientStates.dfy`,
  `DeviceAvailability.dfy`). Validated transitions with a truncated history, the evaluator that
  derives the central state from the clients over whole lives of a central, and exactly when a
  device is forced unavailable under client events that are handled late and out of order.
* **Scheduler** (`Scheduler.dfy`). Drift-free interval arithmetic, gating on connection issues, what a
  raising and what a cancelled job do to the pass and the loop, sleeping.
* **Class member reordering and classification** (`ClassMembers*.dfy`, `Strings.dfy`), **ReGa header fixing**
  (`RegaScripts*.dfy`), **system.multicall** (`Multicall.dfy`), **subclass worklist**
  (`Inheritance.dfy`) and the **memoised parameter query** (`ParameterQuery.dfy`).

## Modelling decisions

* asyncio is single-threaded, so an action is one uninterrupted stretch between two awaits.
  asyncio.Event objects are numbered in order of creation. A sleep that is interrupted and over at
  the same moment may resume either way; both ways are in the model. A cancellation from outside
  that reaches a call inside its operation is an outcome of that operation, usually a foreign error.
* Client states and their legal transitions are those of `aiohomematic/client/state_machine.py:48-97`;
  the code never forces a transition.
* Operations, clock readings, jitter, handler answers and lookups are parameters or
  nondeterministic steps. Seconds are reals, scheduler times are integer microseconds. Published
  events are appended to a log; handlers do not re-enter the publisher.
* A scheduler job returns, raises an exception, or ends with asyncio.CancelledError, which
  `except Exception` does not catch. Passes behind a cancelled one are those of a scheduler started again.
* The clients of a central have distinct interface ids, as the keys of the coordinator's dict do.
* History variables (call logs, event owners, counts of executions, skips and cancellations) only observe.

Where the code and its documentation disagree the model follows the code:

* `command_retry_max_attempts` is documented as the number of retries; the code counts the first
  attempt too (`aiohomematic/const.py:144-149`, `aiohomematic/client/command_retry.py:261-285`).
* HALF_OPEN is commented as letting one request through; the code lets any number through
  (`aiohomematic/client/circuit_breaker.py:177-178`).
* `reset()` of a breaker does not remove its connection issue
  (`aiohomematic/client/circuit_breaker.py:224-234`); `CircuitBreakerTraces.ResetKeepsAgreementIff`
  gives the exact condition under which that is harmless.
* The evaluator is documented as entering FAILED from RUNNING or DEGRADED; the transition graph has
  no edge from RUNNING, so losing every client at once leaves the central RUNNING
  (`aiohomematic/central/state_machine.py:80-86`, `aiohomematic/central/central_unit.py:858-876`);
  `CentralEvaluation.EvaluationTable` gives the exact condition for FAILED.
* The handler of client events is commented as coping with events out of order; a late reset can still
  leave the devices of a client that is down available, and a client that is not found can leave
  devices forced (`aiohomematic/central/central_unit.py:909-954`). `DeviceAvailability.DownAtRest` and
  `DeviceAvailability.ConnectedAtRest` give the exact conditions, two further lemmas the inputs.
* Two breakers under one interface id share one entry in the issue list, so the recovery of one hides
  that the other is still open (`aiohomematic/client/circuit_breaker.py:440-453`,
  `aiohomematic/client/__init__.py:120-132`); `CircuitBreakersShared.AlwaysRightIff` gives the exact
  condition.
* The scheduler's idle sleep is capped at one second only while some job is eligible; without one,
  and after every pass that ran a job, it sleeps five seconds
  (`aiohomematic/central/scheduler.py:853-869`).

## Model

| member | source | states |
|---|---|---|
| `RetryErrors.FaultCodeIsNearest` | aiohomematic/client/command_retry.py:101-109 | a fault code is found exactly when some proper cause carries one, and it is that of the nearest such cause |
| `RetryErrors.GetFaultCode` | aiohomematic/client/command_retry.py:101-109 | the loop along the cause chain returns the nearest code or none |
| `CommandRetryEndings.WrappedFaults` | aiohomematic/client/command_retry.py:49-98 | for every error: permanent and foreign classes are never retryable whatever they wrap, transient classes always, other Homematic errors exactly if the nearest coded cause carries -1, -8, -9 or -10; -8 and -10 have fixed delays, all others, uncoded ones included, the jittered backoff |
| `CommandRetrySafety.RegistrationIsExact` | aiohomematic/client/command_retry.py:255-378 | in every run a live retry is uncancelled exactly when its event is registered for its key, at most one uncancelled retry per key, each registered event belongs to exactly one live call, and the map is empty when no call is live |
| `CommandRetrySafety.StepKeepsInv` | aiohomematic/client/command_retry.py:255-378 | every step of every coroutine, every cancel and every event keeps the registration invariant |
| `CommandRetrySafety.CancellationReachesTheHolder` | aiohomematic/client/command_retry.py:347-378 | an uncancelled live retry becomes cancelled in a step exactly if a newer call takes its key, its key is cancelled, its device is purged, or everything is |
| `CommandRetrySafety.PurgeHitsOneDevice` | aiohomematic/client/command_retry.py:203-213 | a device purge hits a key exactly if the part of its address before the first colon is that device, never one whose address merely begins the same |
| `CommandRetrySafety.CancelledStartsNothing` | aiohomematic/client/command_retry.py:261-307 | however a run continues, a cancelled retry starts no further operation and ends superseded, externally cancelled, or with the outcome of the operation that was in flight |
| `CommandRetrySafety.CancelledWaiterEndsSuperseded` | aiohomematic/client/command_retry.py:355-364 | a cancelled waiting call can always be woken, and ends with CommandSupersededError even if its delay or recovery completes at that moment |
| `CommandRetrySafety.EndedStaysEnded` | aiohomematic/client/command_retry.py:323-326 | nothing happens to a call after its finally block |
| `CommandRetryEndings.EndingsAreJustified` | aiohomematic/client/command_retry.py:261-326 | in every run a value is returned only if the last operation produced it, an error raised only if it was the last one and retrying was off, pointless or used up or recovery timed out, CommandSupersededError only if cancelled |
| `CommandRetryOutcomes.BegunCallsAreRegistered` | aiohomematic/client/command_retry.py:249-256 | in every run a call is subject to retrying exactly if it asked for it and max_attempts is positive, and the event it holds ever after is the new, unset one registered for its key when it began |
| `CommandRetryOutcomes.ResultsDecide` | aiohomematic/client/command_retry.py:258-318 | in every run a call goes on after a result exactly if it asked to be retried, the result is a retryable error and fewer than max_attempts operations have run; it returns exactly if its last result is a value, and raises exactly if that is an error not worth another attempt or the recovery awaited after it did not come |
| `CommandRetryOutcomes.WaitsAreRight` | aiohomematic/client/command_retry.py:287-307 | in every run every wait directly follows an error: a lost connection is awaited for the configured time, every other error slept on for the delay of that error and attempt |
| `CommandRetryOutcomes.SleepLeadsOn` | aiohomematic/client/command_retry.py:261-267 | a sleep that is over leads to the next attempt exactly if the call is not cancelled |
| `CommandRetryOutcomes.TaskCancelledIff` | aiohomematic/client/command_retry.py:307-326 | in every run a call ends by cancellation of its coroutine exactly if that happened to it |
| `CommandRetryEndings.RecoveryDecides` | aiohomematic/client/command_retry.py:380-428 | an uncancelled recovery wait leads to the next attempt exactly if recovery of this interface or of all was announced during the wait, else the error is raised again |
| `CommandRetryAccounting.RetriesAreConserved` | aiohomematic/client/command_retry.py:249-326 | at most max_attempts starts per call; total_retries is the starts beyond each first plus the waits without a further start; timeouts <= recovery waits <= retries; success and exhaustion counters count exactly the calls that ended that way |
| `CommandRetryAccounting.CancellationsAreConserved` | aiohomematic/client/command_retry.py:203-224 | cancelled_retries grows by the supersedes of a run plus the sum of the counts its cancel calls returned |
| `CommandRetryAccounting.BackoffIsMonotone` | aiohomematic/client/command_retry.py:341-343 | the delay before jitter is nondecreasing in the attempt and capped |
| `CommandRetryAccounting.BackoffIsExponential` | aiohomematic/client/command_retry.py:341-343 | the first delay before jitter is the base delay, each further one the factor times the one before, all of them capped |
| `CommandRetryAccounting.DelayIsBounded` | aiohomematic/client/command_retry.py:328-345 | the jittered delay is the backoff times one plus the jitter, so within a fifth of it, never negative, never longer than the longest configured wait |
| `CommandRetryAccounting.TotalWaitingIsBounded` | aiohomematic/client/command_retry.py:287-307 | in every run a call's total requested waiting is at most max_attempts - 1 times the longest of 1.2 max_delay, the two fixed delays and the recovery wait; none for a bypassing call |
| `CommandRetryHandler.Handler.RegisterRetry` | aiohomematic/client/command_retry.py:366-378 | sets the event registered before, if any, counts it as cancelled, and registers a fresh event |
| `CommandRetryHandler.Handler.CancelRetryForDpk` | aiohomematic/client/command_retry.py:347-353 | deregisters, fires and counts the retry of one key, and returns how many that was |
| `CommandRetryHandler.Handler.CancelRetriesForDevice` | aiohomematic/client/command_retry.py:203-213 | cancelling one by one equals cancelling at once every retry on the device or one of its channels; returns their number |
| `CommandRetryHandler.Handler.CancelRetriesForInterface` | aiohomematic/client/command_retry.py:219-224 | cancels every registered retry, leaves the map empty, returns their number |
| `CommandRetryHandler.Handler.Leave` | aiohomematic/client/command_retry.py:323-326 | deregisters only if this call's event is still the registered one |
| `CommandRetryHandler.Handler.AfterOperation` | aiohomematic/client/command_retry.py:266-318 | the code from the end of an operation to the next await performs exactly the protocol's step |
| `CommandRetryHandler.Handler.BeginWait` | aiohomematic/client/command_retry.py:287-307 | counts the retry and starts the recovery wait or the sleep, which ends at once if already cancelled |
| `CommandRetryHandler.Handler.AfterRecoveryWait` | aiohomematic/client/command_retry.py:417-428 | cancellation wins over recovery, recovery over timeout |
| `CommandRetryHandler.Handler.ExecuteWithRetry` | aiohomematic/client/command_retry.py:226-326 | whatever happens elsewhere during its awaits, and also if the coroutine itself is cancelled in a wait, the loop terminates, performs a run of the protocol that begins with this call, uses exactly the results its operations gave, and returns how the call ended |
| `ConnectionState.IssuesAreConserved` | aiohomematic/central/connection_state.py:58-146 | over every operation sequence the lists are duplicate-free, disconnected minus connected events equals the issue count, and per id the number of transports listing it |
| `ConnectionState.OperationsListExactly` | aiohomematic/central/connection_state.py:58-146 | in every history adding lists the id, removing unlists it, clearing unlists everything, and nothing else changes on either transport |
| `ConnectionState.OperationsPublishExactly` | aiohomematic/central/connection_state.py:58-146 | in every history ids are listed in order of addition, and each operation publishes exactly the events of its changes, clearing those of the JSON client first |
| `ConnectionState.CentralConnectionState.AddIssue` | aiohomematic/central/connection_state.py:58-72 | adds and publishes exactly if the transport does not list the id yet |
| `ConnectionState.CentralConnectionState.RemoveIssue` | aiohomematic/central/connection_state.py:132-146 | removes and publishes exactly if the transport lists the id |
| `ConnectionState.CentralConnectionState.ClearAllIssues` | aiohomematic/central/connection_state.py:74-87 | empties both lists, publishes one connected event per entry in order, returns the count |
| `CircuitBreaker.Breaker.TransitionTo` | aiohomematic/client/circuit_breaker.py:389-453 | the whole new state of breaker and issue list for each target |
| `CircuitBreaker.Breaker.IsAvailable` | aiohomematic/client/circuit_breaker.py:155-178 | the answer, and the move to HALF_OPEN that a granted query in OPEN makes |
| `CircuitBreaker.Breaker.RecordFailure` | aiohomematic/client/circuit_breaker.py:180-199 | the new state of breaker and issue list after a failure |
| `CircuitBreaker.Breaker.RecordSuccess` | aiohomematic/client/circuit_breaker.py:205-222 | the new state of breaker and issue list after a success |
| `CircuitBreaker.Breaker.ResetBreaker` | aiohomematic/client/circuit_breaker.py:224-234 | everything back to the start, the issue list untouched |
| `CircuitBreakerTraces.CountsTheRun` | aiohomematic/client/circuit_breaker.py:180-222 | in CLOSED the failure count is the current uninterrupted failure run and below the threshold; the stored time is that of the latest failure |
| `CircuitBreakerTraces.CountersInEveryState` | aiohomematic/client/circuit_breaker.py:180-222 | in every state the failure count is the failures since the breaker last closed, was reset or succeeded while CLOSED; outside HALF_OPEN the success count is zero |
| `CircuitBreakerTraces.CountsRequests` | aiohomematic/client/circuit_breaker.py:180-222 | total_requests counts the successes and failures since the last reset |
| `CircuitBreakerTraces.OpensExactlyAtThreshold` | aiohomematic/client/circuit_breaker.py:191-193 | from CLOSED it opens exactly at a failure that brings the run to the threshold |
| `CircuitBreakerTraces.RefusedExactlyWhileCooling` | aiohomematic/client/circuit_breaker.py:155-178 | a query is refused exactly in OPEN with less than recovery_timeout since the latest failure |
| `CircuitBreakerTraces.TripsOnlyAfterARun` | aiohomematic/client/circuit_breaker.py:180-196 | whenever it is not CLOSED, some earlier failure ended a run of at least failure_threshold failures |
| `CircuitBreakerTraces.HalfOpenIsATrial` | aiohomematic/client/circuit_breaker.py:168-222 | HALF_OPEN was entered by a late enough query and has since seen only queries and fewer than success_threshold successes, which the success count counts |
| `CircuitBreakerTraces.TrialEnds` | aiohomematic/client/circuit_breaker.py:194-222 | HALF_OPEN closes exactly at the success completing success_threshold since entry (or a reset) and reopens exactly at a failure |
| `CircuitBreakerTraces.OpenEnds` | aiohomematic/client/circuit_breaker.py:155-234 | OPEN closes exactly at a reset and turns HALF_OPEN exactly at a query at least recovery_timeout after the latest failure; nothing else leaves it |
| `CircuitBreakerTraces.EventsAlternate` | aiohomematic/client/circuit_breaker.py:440-453 | in every run the breaker's events strictly alternate starting with a disconnect, and the id is listed exactly between a disconnect and the next connect |
| `CircuitBreakerTraces.ListedExactlyWhileNotClosed` | aiohomematic/client/circuit_breaker.py:440-453 | in every run without reset the id is listed exactly while the breaker is not CLOSED |
| `CircuitBreakerTraces.ResetLeavesAStaleIssue` | aiohomematic/client/circuit_breaker.py:224-234 | one failure at threshold 1 and a reset leave the id listed on a CLOSED breaker |
| `CircuitBreakerTraces.ResetKeepsAgreementIff` | aiohomematic/client/circuit_breaker.py:224-234 | a reset keeps list and state in agreement exactly if the breaker was CLOSED |
| `CircuitBreakerTraces.ListedExactlySinceTrip` | aiohomematic/client/circuit_breaker.py:224-234 | in every run, resets included, the id is listed exactly if the breaker tripped and has not recovered through successes since |
| `CircuitBreakersShared.SharedEventsAlternate` | aiohomematic/client/circuit_breaker.py:440-453 | in every run of any number of breakers under one id the published events strictly alternate and say what the list says |
| `CircuitBreakersShared.ListedExactlyByLatest` | aiohomematic/client/circuit_breaker.py:440-453 | in every such run, resets included, the id is listed exactly if the latest trip or recovery of any of them was a trip |
| `CircuitBreakersShared.StepStaysRightIff` | aiohomematic/client/circuit_breaker.py:440-453 | a step that is no reset leaves a right list wrong exactly if a breaker recovers while another is not CLOSED |
| `CircuitBreakersShared.AlwaysRightIff` | aiohomematic/client/circuit_breaker.py:440-453 | in every run without resets the id is listed exactly while some breaker is not CLOSED, at all times, exactly if no breaker recovers while another is not CLOSED |
| `CircuitBreakersShared.RecoveryHidesTheOther` | aiohomematic/client/__init__.py:120-132 | two breakers trip, one recovers, and the id is not listed although the other is OPEN |
| `CentralStates.CentralStateMachine.TransitionTo` | aiohomematic/central/state_machine.py:296-326 | accepts exactly forced or legal transitions, with the whole new state; a refused one changes nothing |
| `CentralStates.CanMoveIffItHappens` | aiohomematic/central/state_machine.py:246-257 | can_transition_to says yes exactly for the steps that occur in the history of some sequence of requests |
| `CentralStates.StatesInto` | aiohomematic/central/state_machine.py:62-114 | from which states each state can be entered |
| `CentralStates.HistoryIsFaithful` | aiohomematic/central/state_machine.py:296-326 | after any requests the history is the last 100 entries of the full log, the log chains legal edges from STARTING to the current state, and failure and degraded fields are those the whole log implies even after truncation |
| `CentralStates.StoppedIsAbsorbing` | aiohomematic/central/state_machine.py:112-114 | nothing requested after STOPPED changes anything |
| `CentralStates.InitialisesOnce` | aiohomematic/central/state_machine.py:62-78 | STARTING is never re-entered, INITIALIZING entered at most once |
| `CentralEvaluation.EveryLifeIsSound` | aiohomematic/central/central_unit.py:809-876 | at every step of every life no illegal transition is attempted; the evaluator enters RUNNING only with a non-empty fully connected client set and, outside start, no recovery; DEGRADED only with some but not all connected, recording exactly the unconnected interfaces with real reasons; FAILED only with none connected |
| `CentralEvaluation.EvaluationTable` | aiohomematic/central/central_unit.py:831-876 | exactly when an evaluation enters RUNNING, DEGRADED or FAILED |
| `CentralEvaluation.EvaluationSettles` | aiohomematic/central/central_unit.py:809-876 | evaluating again with the same clients changes nothing |
| `CentralEvaluation.EvaluationsLeaveTheRightRecord` | aiohomematic/central/central_unit.py:839-876 | in every life: FAILED after a client event names the first failed client that has a reason, or a network failure of no interface, FAILED after start() the failure the coordinator remembers; DEGRADED names exactly the unconnected interfaces and keeps the failure, RUNNING clears both |
| `CentralEvaluation.EvaluationsAreLogged` | aiohomematic/central/central_unit.py:839-876 | in every life every transition of the evaluator is the newest history entry, with its time, states and reason text |
| `CentralEvaluation.UnconnectedOneByOne` | aiohomematic/central/central_unit.py:853-857 | the interfaces named in the DEGRADED reason are the unconnected ones in client order |
| `CentralEvaluation.StartAndStop` | aiohomematic/central/central_unit.py:603-642 | stop() ends every life in STOPPED, start() begins a fresh one, a failing server ends initialization as an internal failure |
| `CentralEvaluation.CoordinatorIsHeard` | aiohomematic/central/state_machine.py:296-326 | a legal request of the recovery coordinator is always granted |
| `CentralEvaluation.LivesAreReplays` | aiohomematic/central/central_unit.py:603-876 | in every life of a fresh central its machine is the replay of the requests made of it, none was refused, and history, chain and both fields are faithful to the full log |
| `CentralEvaluation.SettledAfterEvent` | aiohomematic/central/central_unit.py:956-960 | in every life, once a client event has been handled after the last change: fully connected and not recovering means RUNNING or FAILED, partly connected means not RUNNING, unconnected means not DEGRADED |
| `CentralEvaluation.DegradedMapIsExact` | aiohomematic/central/central_unit.py:790-800 | the map names exactly the unconnected interfaces, each with the reason of its client, or UNKNOWN, never NONE |
| `CentralEvaluation.FailureInfoIsFirst` | aiohomematic/central/central_unit.py:802-807 | the reported failure is that of the first failed client with a reason, else a network failure of no interface |
| `CentralEvaluation.StoppedForGood` | aiohomematic/central/central_unit.py:956-960 | a stopped central keeps its machine whatever happens |
| `CentralEvaluation.CentralUnit.EvaluateCentralState` | aiohomematic/central/central_unit.py:809-876 | the method performs exactly the decided transition and is never refused |
| `CentralEvaluation.CentralUnit.BuildDegradedInterfacesMap` | aiohomematic/central/central_unit.py:790-800 | the loop builds the degraded map |
| `CentralEvaluation.CentralUnit.DetermineFailureInfo` | aiohomematic/central/central_unit.py:802-807 | the scan finds the failure info |
| `DeviceAvailability.OnSystemStatusEvent` | aiohomematic/central/central_unit.py:909-954 | what handling one event does to every device, devices of other interfaces untouched |
| `DeviceAvailability.SetForced` | aiohomematic/central/central_unit.py:922-924 | exactly the devices of the interface get the value |
| `DeviceAvailability.ForcedExactlyWhen` | aiohomematic/central/central_unit.py:909-954 | in every run, for any delivery order and any registration, a device is forced exactly if a down event that found the client down was handled with no reset after it, or it was forced at the start and no reset was handled |
| `DeviceAvailability.ConnectedAtRest` | aiohomematic/central/central_unit.py:909-954 | for any delivery order, with all events handled and the client CONNECTED, a device is forced exactly if a down event was handled without finding the client and no reset after it |
| `DeviceAvailability.ReconnectionClearsAll` | aiohomematic/central/central_unit.py:909-954 | so for a client that stays registered no device of its interface is left forced |
| `DeviceAvailability.DownAtRest` | aiohomematic/central/central_unit.py:909-954 | for any delivery order, with all events handled and the client DISCONNECTED or FAILED, its devices are forced exactly if of all its down events and resets a down event was handled last |
| `DeviceAvailability.DownAtRestForcesAll` | aiohomematic/central/central_unit.py:918-924 | so under in-order delivery all its devices are forced |
| `DeviceAvailability.DisconnectForcesTheDevice` | aiohomematic/central/central_unit.py:918-924 | a run from the start in which a registered client connects and disconnects, events handled in order, ends with its device forced |
| `DeviceAvailability.LateResetHidesTheDisconnect` | aiohomematic/central/central_unit.py:939-950 | a run from the start, delivered out of order, after which a registered, disconnected client's device is not forced |
| `DeviceAvailability.BlindFailureHidesTheReset` | aiohomematic/central/central_unit.py:911-924 | a run from the start after which a connected client that was never found has its device forced |
| `Scheduler.SchedulesAreSound` | aiohomematic/central/scheduler.py:825-847 | over any passes every job is on first_run + (executions + skips) * interval, its last slot in the past, every run started after it was due on a slot of its job, no slot run again unless cancelled, started runs are executions plus cancellations, and under a connection issue only the connection check ran |
| `Scheduler.SlotsFitElapsedTime` | aiohomematic/central/scheduler.py:100-102 | k - 1 intervals are less than the time since first_run |
| `Scheduler.OneSlotPerServedPass` | aiohomematic/central/scheduler.py:827-846 | over any passes a job consumes exactly one slot for each pass that reaches it active and due and does not cancel it |
| `Scheduler.VisitedExactlyIfReached` | aiohomematic/central/scheduler.py:826-847 | a pass visits a job exactly if no earlier run of the pass was cancelled, leaves all others as they were, and ends the loop exactly if some run was cancelled |
| `Scheduler.PassRunsExactly` | aiohomematic/central/scheduler.py:826-847 | a pass runs a job exactly if it reaches it active and due, and no connection issue was sampled or the job is _check_connection |
| `Scheduler.FailuresDoNotMatter` | aiohomematic/central/scheduler.py:838-847 | jobs that raise instead of returning, at any passes, change nothing about the jobs, runs and sleeps of the whole loop |
| `Scheduler.CancellationEndsTheLoop` | aiohomematic/central/scheduler.py:838-847 | a cancelled job keeps its next_run, the jobs behind it stay unvisited, and nothing more of the loop happens |
| `Scheduler.OnlyTheLastRunIsCancelled` | aiohomematic/central/scheduler.py:275-279 | of all runs a loop starts only the very last can have been cancelled |
| `Scheduler.IdleSleepIsShort` | aiohomematic/central/scheduler.py:852-869 | an idle scheduler sleeps until the earliest eligible job is due, at most one second and not at all if one is due; without an eligible job, or after a pass that ran one, five seconds |
| `Scheduler.RunReadyJobs` | aiohomematic/central/scheduler.py:825-847 | the loop performs the pass in place up to the first cancelled run, and reports that run and whether anything executed |
| `Scheduler.VisitJob` | aiohomematic/central/scheduler.py:828-847 | what one visit does to a job for each way its task may end, and whether it executes or is cancelled |
| `Scheduler.SleepTime` | aiohomematic/central/scheduler.py:852-869 | the loop computes the sleep from the earliest eligible due time |
| `Scheduler.RunSchedulerLoop` | aiohomematic/central/scheduler.py:794-869 | the outer loop's jobs, runs and sleeps are those of its iterations, ended by stop() or by a cancelled run |
| `Scheduler.LoopPerformsPasses` | aiohomematic/central/scheduler.py:794-869 | the outer loop does nothing to the jobs but its passes |
| `Scheduler.EveryIterationDoesItsPart` | aiohomematic/central/scheduler.py:794-869 | each iteration of a loop that has gone on so far: ten seconds of sleep while the central is not operational, else one pass and, unless cancelled or stopped, one sleep computed from the jobs after it |
| `Scheduler.EndedForGood` | aiohomematic/central/scheduler.py:794-869 | once a loop has ended, nothing more of it happens |
| `ClassMembersProofs.ReorderingPermutesIff` | script/sort_class_members.py:343-409 | the result is a permutation of the input exactly if every named property method is a getter, setter or deleter |
| `ClassMembersProofs.ReorderingIsIdempotent` | script/sort_class_members.py:343-409 | for every member list reordering twice is reordering once |
| `ClassMembersProofs.PropertiesAreContiguous` | script/sort_class_members.py:364-401 | all members of a property stand together as sorted getters, setters, deleters, and nowhere else |
| `ClassMembersOrder.EveryTwoMembers` | script/sort_class_members.py:358-409 | for any two members of the result: the eleven groups in their documented order, names ascending within a group, properties by the decorator of their primary getter and then by name, getters before setters before deleters |
| `ClassMembersOrder.PriorityIsKind` | script/sort_class_members.py:358-372 | the priority of a property is decided by its primary getter, the first in the class with the smallest name: `property`, then `hm_property`, then everything else |
| `Strings.LeqIsLexicographic` | script/sort_class_members.py:379-392 | names are compared lexicographically |
| `ClassMembersProofs.PropertyOrder` | script/sort_class_members.py:360-381 | property groups are ordered by the kind of their first getter, then by name |
| `ClassMembersProofs.AlphaIsStable` | script/sort_class_members.py:391-392 | sorting by name keeps the order of equal names |
| `ClassMembersScript.CollectedIsWellFormed` | script/sort_class_members.py:269-335 | every collected property method is a getter, setter or deleter, and a getter's property has its own name |
| `ClassMembersScript.ClassificationOfMethods` | script/sort_class_members.py:269-320 | every method is classified by its first getter decorator, else by its first setter or deleter decorator, else by classmethod, staticmethod and the underscores of its name |
| `ClassMembersScript.CollectedStatementByStatement` | script/sort_class_members.py:227-335 | the members are the methods and property assignments of the class body, statement by statement and in order |
| `ClassMembersScript.ReorderingAClass` | script/sort_class_members.py:412-413 | for every class body reordering is an idempotent permutation |
| `ClassMembersScript.CollectMembers` | script/sort_class_members.py:227-335 | the loop collects the sortable statements in order |
| `ClassMembersScript.GroupByProperty` | script/sort_class_members.py:347-351 | the dict holds each property's members in order, its keys in order of first occurrence |
| `ClassMembersScript.ReorderMethods` | script/sort_class_members.py:343-409 | the procedure computes the reordered members |
| `RegaScriptsProofs.FixedPassesIff` | script/lint_rega_scripts.py:117-182 | for every script the fixed content passes every check exactly if the file name has no line break in it and no space at its ends |
| `RegaScriptsChecks.AcceptedIff` | script/lint_rega_scripts.py:117-182 | a script is accepted exactly if its last declared name is the file name, its declared parameters are the used ones, it begins with a name line, and its parameter lines directly follow that |
| `RegaScriptsChecks.ReportedIff` | script/lint_rega_scripts.py:139-173 | for every complaint exactly when it is reported: a wrong name, each used parameter that is undeclared, each declared one that is unused, a script not beginning with its name, and misplaced parameters only if nothing else is wrong |
| `RegaScriptsChecks.ReportedInOrder` | script/lint_rega_scripts.py:139-173 | complaints come in a fixed order, parameters ascending, none twice |
| `RegaScriptsChecks.NameOfIsLast` | script/lint_rega_scripts.py:51-54 | the parsed name is the one the last name line declares |
| `RegaScriptsChecks.ParamsOfAreDeclared` | script/lint_rega_scripts.py:55-57 | the parsed parameters are exactly those some line declares |
| `RegaScriptsChecks.OtherLinesAre` | script/lint_rega_scripts.py:58-59 | the other lines are exactly the lines that declare nothing, in order |
| `RegaScriptsChecks.HeaderLinesUseNothing` | script/lint_rega_scripts.py:135-137 | header lines do not count as using parameters |
| `RegaScriptsChecks.SplitAtBreak` | script/lint_rega_scripts.py:46 | a break ends a line |
| `RegaScriptsChecks.SplitAtCrLf` | script/lint_rega_scripts.py:46 | a carriage return and the line feed after it are one break |
| `RegaScriptsChecks.StripRemovesOuterSpaces` | script/lint_rega_scripts.py:53 | stripping removes the spaces at both ends and nothing else |
| `RegaScriptsChecks.CharacterTables` | script/lint_rega_scripts.py:23-28 | which characters are breaks, spaces and identifier characters |
| `RegaScriptsProofs.FixingKeepsTheBody` | script/lint_rega_scripts.py:64-84 | fixing keeps all non-header lines in order apart from leading blanks |
| `RegaScriptsProofs.FixingIsIdempotent` | script/lint_rega_scripts.py:64-84 | fixing a fixed script gives identical content |
| `RegaScriptsProofs.FixedLayout` | script/lint_rega_scripts.py:70-84 | name line, ascending parameter lines, then the body after exactly one empty line unless it is empty or opens with a comment |
| `RegaScriptsProofs.ParseFixed` | script/lint_rega_scripts.py:36-84 | parsing a generated script finds the file name, exactly the used parameters and the body |
| `RegaScriptsProofs.SplitJoin` | script/lint_rega_scripts.py:46-84 | joining break-free lines and splitting again gives the lines back |
| `RegaScriptsProofs.FoundOccur` | script/lint_rega_scripts.py:31-33 | only parameters that occur in the text are found |
| `RegaScriptsProofs.FirstIsFound` | script/lint_rega_scripts.py:31-33 | the first parameter of a text is found and the search goes on behind it |
| `RegaScripts.ParseScript` | script/lint_rega_scripts.py:36-61 | the loop yields the last declared name, the declared parameters and the other lines |
| `RegaScripts.GenerateFixedContent` | script/lint_rega_scripts.py:64-84 | header, optional separator and trimmed body, joined |
| `RegaScripts.CheckHeaderOrder` | script/lint_rega_scripts.py:87-114 | true exactly if the first line declares a name and exactly the expected number of parameter lines follows it directly |
| `RegaScripts.SortParams` | script/lint_rega_scripts.py:72-73 | the ascending enumeration of a set, which is unique |
| `RegaScripts.CheckScript` | script/lint_rega_scripts.py:117-182 | reports all complaints in order, or with fix rewrites exactly the scripts that have any |
| `Multicall.HandlersRunInOrder` | aiohomematic/central/rpc_server.py:157-193 | over arbitrarily nested calls the ordinary handlers are invoked in exactly the left-to-right order of the flattened tree, whatever they answer |
| `Multicall.OneResultPerCall` | aiohomematic/central/rpc_server.py:175-193 | a multicall raises exactly if an entry is not a dict or its method name is unhashable; otherwise one result per call in order, each that of the call executed after everything before it |
| `Multicall.ResultsInPlace` | aiohomematic/central/rpc_server.py:175-193 | in any multicall each ordinary call gets its own result in its own place: a fault for an unknown name or a failing handler, True for None, the handler asked after exactly the flattened calls before it |
| `Multicall.NestedResultsInPlace` | aiohomematic/central/rpc_server.py:175-193 | a multicall inside a multicall gets, in its own place, the wrapped list of its own calls' results in order, or one fault if one of its entries cannot be dispatched |
| `Multicall.OddNames` | aiohomematic/central/rpc_server.py:176-182 | a missing method name counts as the empty one, a name that is no string as unknown |
| `Multicall.CallableIs` | aiohomematic/central/rpc_server.py:175-180 | which entries can be dispatched at all |
| `Multicall.SystemMulticall` | aiohomematic/central/rpc_server.py:157-193 | the loop, recursing through the method table, terminates and computes that meaning |
| `Inheritance.GetAllSubclasses` | script/lint_delegated_property.py:450-462 | terminates on any map, cyclic ones included, and returns exactly the classes reachable in one or more subclass steps |
| `Inheritance.BuildInheritanceMap` | script/lint_delegated_property.py:432-447 | the map is the reverse of all base lists with multiplicities, later definitions replacing earlier ones |
| `Inheritance.LastDefinitionCounts` | script/lint_delegated_property.py:432-447 | a class has the bases of its last definition |
| `Inheritance.SubclassesInFiles` | script/lint_delegated_property.py:432-462 | together they find exactly the classes from which the given class is reachable in one or more base-class steps |
| `ParameterQuery.GetParameters` | aiohomematic/central/query_facade.py:301-373 | the memoised, bitmask-filtered query returns exactly the naive comprehension: the texts of the parameters that have every bit of every requested operation and are not ruled out as candidates |
| `ParameterQuery.NaiveIsOffered` | aiohomematic/central/query_facade.py:332-373 | the naive comprehension, parameter by parameter: operations bit by bit, candidate rule, text |
| `ParameterQuery.HasIsBitsWithin` | aiohomematic/central/query_facade.py:345-347 | an operation is contained exactly if all its bits are set |
| `ParameterQuery.DigitsReadBack` | aiohomematic/central/query_facade.py:366-371 | a channel number is written with its own digits, without leading zeros |
| `ParameterQuery.MaskTestsEach` | aiohomematic/central/query_facade.py:318-347 | the mask test is the conjunction of the tests of all requested operations, for integers of any sign |
| `ParameterQuery.BitwiseOperations` | aiohomematic/central/query_facade.py:318-347 | the modelled `&` and `\|` are bitwise in two's complement |
| `ParameterQuery.ResolveChannelRepr` | aiohomematic/central/query_facade.py:98-112 | the cached channel number is the one a fresh lookup gives |

## Left out

- Network, HTTP, XML and JSON parsing, server lifecycle, file access: I/O.
- Logging, translations, metrics emission and incident recording: not observable in any property above.
- EventBus dispatch, recovery coordinator, client start-up, command throttle: they appear only as steps that may happen at any time.
- A cyclic `__cause__` chain, on which the fault code loop of the source would not end: cause chains are finite here.
- A circuit breaker created without a connection state.
- The second writer of forced availability, `_mark_all_devices_forced_availability` in `aiohomematic/client/interface_client.py`.
- Locals that only decide what is logged, such as `connection_issue_logged` in the scheduler loop.
- XML-RPC structs with members other than methodName and params, and argument-count errors of ordinary handlers, which count as answers of the handler.
- `_rewrite_class` and `process_file` of the member sorter, which splice text by line offsets; a member's text and lines are one opaque string here.
- `_system_multicall` error texts raised by Python itself are shortened.
- `aiohomematic/converter.py` and `script/normalize_changelog.py`: truncated floating point and text rewriting without a round trip.
- Configuration, registries, property descriptors, context variables, translation and easymode lookups: single-branch facts that would only add easy members.
