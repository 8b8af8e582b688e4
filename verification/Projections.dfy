/**
 The server's in-memory projections (ox-server/src/projections.rs): the runner pool, the executions
 with their step attempts, and the secrets, all folded from ox events. Executions and secrets are a
 function of the log; the pool is not, because freeing a runner takes the first match of a hash map.
 */
module Projections {
  import opened Prelude
  import opened Events

  datatype RunnerStatus = Idle | Assigned | Executing | Drained

  datatype RunnerState = RunnerState(
    environment: string,
    status: RunnerStatus,
    currentStep: Option<AttemptId>,
    registeredAt: int,
    dispatchedAt: Option<int>,
    stepTimeoutSecs: Option<nat>)

  datatype StepStatus = Dispatched | InProgress | Finished | Confirmed | Failed

  datatype StepError = Reported(text: string) | TimedOut(secs: nat)

  datatype Attempt = Attempt(
    step: string,
    attempt: nat,
    runner: Option<string>,
    status: StepStatus,
    output: Option<string>,
    signals: seq<string>,
    error: Option<StepError>,
    transition: Option<string>,
    connectAddr: Option<string>,
    startedAt: int,
    completedAt: Option<int>)

  datatype Execution = Execution(
    workflow: string,
    status: ExecutionStatus,
    vars: map<string, string>,
    origin: Origin,
    attempts: seq<Attempt>,
    currentStep: Option<string>,
    currentAttempt: nat,
    createdAt: int)

  type Pool = map<string, RunnerState>
  type Executions = map<string, Execution>

  datatype State = State(pool: Pool, executions: Executions, secrets: map<string, string>)

  const EMPTY := State(map[], map[], map[])

  // ── Attempts ────────────────────────────────────────────────────────

  predicate IsAttempt(a: Attempt, step: string, attempt: nat) {
    a.step == step && a.attempt == attempt
  }

  /** The last attempt entry with this step and number. */
  function LastPosition(attempts: seq<Attempt>, step: string, attempt: nat): (r: Option<nat>)
    ensures r.Some? ==> r.value < |attempts| && IsAttempt(attempts[r.value], step, attempt)
    ensures forall i | (if r.Some? then r.value + 1 else 0) <= i < |attempts| :: !IsAttempt(attempts[i], step, attempt)
  {
    if attempts == [] then None
    else if IsAttempt(attempts[|attempts| - 1], step, attempt) then Some(|attempts| - 1)
    else LastPosition(attempts[..|attempts| - 1], step, attempt)
  }

  function Synthetic(step: string, attempt: nat, ts: int): Attempt {
    Attempt(step, attempt, None, Dispatched, None, [], None, None, None, ts, None)
  }

  /** What a step event does to its attempt entry. */
  datatype Change =
    | ToDispatched(runner: string)
    | ToRunning(addr: Option<string>)
    | ToDone(result: string)
    | Signalled(found: seq<string>)
    | ToConfirmed
    | ToFailed(why: StepError)

  function Changed(a: Attempt, change: Change, ts: int): (r: Attempt)
    ensures IsAttempt(r, a.step, a.attempt)
  {
    match change
    case ToDispatched(runner) => Attempt(a.step, a.attempt, Some(runner), Dispatched, None, [], None, None, None, ts, None)
    case ToRunning(addr) => a.(status := InProgress, connectAddr := if addr.Some? then addr else a.connectAddr)
    case ToDone(result) => a.(status := Finished, output := Some(result))
    case Signalled(found) => a.(signals := found)
    case ToConfirmed => a.(status := Confirmed, completedAt := Some(ts))
    case ToFailed(why) => a.(status := Failed, error := Some(why), completedAt := Some(ts))
  }

  /** Changes the entry for (step, attempt), creating it first if the step was never dispatched. */
  function Update(attempts: seq<Attempt>, step: string, attempt: nat, ts: int, change: Change): seq<Attempt> {
    match LastPosition(attempts, step, attempt)
    case Some(i) => attempts[i := Changed(attempts[i], change, ts)]
    case None => attempts + [Changed(Synthetic(step, attempt, ts), change, ts)]
  }

  function LastOfStep(attempts: seq<Attempt>, step: string): (r: Option<nat>)
    ensures r.Some? ==> r.value < |attempts| && attempts[r.value].step == step
  {
    if attempts == [] then None
    else if attempts[|attempts| - 1].step == step then Some(|attempts| - 1)
    else LastOfStep(attempts[..|attempts| - 1], step)
  }

  function SetTransition(attempts: seq<Attempt>, fromStep: string, toStep: string): seq<Attempt> {
    match LastOfStep(attempts, fromStep)
    case Some(i) => attempts[i := attempts[i].(transition := Some(toStep))]
    case None => attempts
  }

  function SetStatus(executions: Executions, id: string, status: ExecutionStatus): Executions {
    if id in executions then executions[id := executions[id].(status := status)] else executions
  }

  // ── What each event changes ─────────────────────────────────────────

  /** The attempt a step event is about, and what it does to it. */
  function StepChange(e: Envelope): Option<(AttemptId, Change)> {
    if e.source != SOURCE_OX then None
    else match e.body
      case StepDispatched(at, runner, _) => Some((at, ToDispatched(runner)))
      case StepRunning(at, addr) => Some((at, ToRunning(addr)))
      case StepDone(at, output) => Some((at, ToDone(output)))
      case StepSignals(at, signals, _) => Some((at, Signalled(signals)))
      case StepConfirmed(at) => Some((at, ToConfirmed))
      case StepFailed(at, error) => Some((at, ToFailed(Reported(error))))
      case StepTimeout(at, secs) => Some((at, ToFailed(TimedOut(secs))))
      case _ => None
  }

  function ChangeAttempt(exec: Execution, at: AttemptId, change: Change, ts: int): Execution {
    exec.(attempts := Update(exec.attempts, at.step, at.attempt, ts, change),
          currentStep := if change.ToDispatched? then Some(at.step) else exec.currentStep,
          currentAttempt := if change.ToDispatched? then at.attempt else exec.currentAttempt)
  }

  function ApplyExecutions(executions: Executions, e: Envelope): Executions {
    match StepChange(e)
    case Some((at, change)) =>
      if at.execution in executions then
        executions[at.execution := ChangeAttempt(executions[at.execution], at, change, e.ts)]
      else executions
    case None => ApplyLifecycle(executions, e)
  }

  function ApplyLifecycle(executions: Executions, e: Envelope): Executions {
    if e.source != SOURCE_OX then executions
    else match e.body
      case StepAdvanced(id, fromStep, toStep) =>
        if id in executions then
          executions[id := executions[id].(attempts := SetTransition(executions[id].attempts, fromStep, toStep))]
        else executions
      case ExecutionCreated(id, workflow, vars, origin, _) =>
        executions[id := Execution(workflow, Running, vars, origin, [], None, 0, e.ts)]
      case ExecutionCompleted(id) => SetStatus(executions, id, Completed)
      case ExecutionEscalated(id) => SetStatus(executions, id, Escalated)
      case ExecutionCancelled(id) => SetStatus(executions, id, Cancelled)
      case _ => executions
  }

  function ApplySecrets(secrets: map<string, string>, e: Envelope): map<string, string> {
    if e.source != SOURCE_OX then secrets
    else match e.body
      case SecretSet(name, value) => secrets[name := value]
      case SecretDeleted(name) => secrets - {name}
      case _ => secrets
  }

  predicate Holds(runner: RunnerState, execution: string, step: string) {
    runner.currentStep.Some? && runner.currentStep.value.execution == execution && runner.currentStep.value.step == step
  }

  function Released(runner: RunnerState): RunnerState {
    runner.(status := Idle, currentStep := None, dispatchedAt := None, stepTimeoutSecs := None)
  }

  /** The first runner met that holds the step, in an arbitrary order, returns to idle. */
  ghost predicate Freed(before: Pool, after: Pool, execution: string, step: string) {
    if exists r :: r in before && Holds(before[r], execution, step) then
      exists r :: r in before && Holds(before[r], execution, step) && after == before[r := Released(before[r])]
    else after == before
  }

  /** The step whose holder an event frees: the attempt number is not compared. */
  function FreedBy(e: Envelope): Option<AttemptId> {
    if e.source != SOURCE_OX then None
    else match e.body
      case StepConfirmed(at) => Some(at)
      case StepFailed(at, _) => Some(at)
      case StepTimeout(at, _) => Some(at)
      case _ => None
  }

  /** The pool after an event that frees no runner. */
  function ApplyPool(pool: Pool, e: Envelope): Pool {
    if e.source != SOURCE_OX then pool
    else match e.body
      case RunnerRegistered(runner, environment) => pool[runner := RunnerState(environment, Idle, None, e.ts, None, None)]
      case RunnerDrained(runner) => if runner in pool then pool[runner := pool[runner].(status := Drained)] else pool
      case StepDispatched(at, runner, timeout) =>
        if runner in pool then
          pool[runner := pool[runner].(status := Executing, currentStep := Some(at), dispatchedAt := Some(e.ts),
                                       stepTimeoutSecs := timeout)]
        else pool
      case _ => pool
  }

  ghost predicate PoolAfter(before: Pool, e: Envelope, after: Pool) {
    match FreedBy(e)
    case Some(at) => Freed(before, after, at.execution, at.step)
    case None => after == ApplyPool(before, e)
  }

  ghost predicate Applies(before: State, e: Envelope, after: State) {
    && PoolAfter(before.pool, e, after.pool)
    && after.executions == ApplyExecutions(before.executions, e)
    && after.secrets == ApplySecrets(before.secrets, e)
  }

  /** `after` is a result of applying the events in order. */
  ghost predicate Folds(before: State, events: seq<Envelope>, after: State)
    decreases |events|, 0
  {
    if events == [] then after == before
    else FoldsThen(before, events[..|events| - 1], events[|events| - 1], after)
  }

  ghost predicate FoldsThen(before: State, events: seq<Envelope>, e: Envelope, after: State)
    decreases |events|, 1
  {
    exists mid :: Folds(before, events, mid) && Applies(mid, e, after)
  }

  lemma FoldsOneMore(before: State, events: seq<Envelope>, mid: State, e: Envelope, after: State)
    requires Folds(before, events, mid) && Applies(mid, e, after)
    ensures Folds(before, events + [e], after)
  {
    assert (events + [e])[..|events|] == events;
    assert FoldsThen(before, events, e, after);
  }

  /** Searches backwards, since recent attempts are at the end. */
  method FindLast(attempts: seq<Attempt>, step: string, attempt: nat) returns (found: Option<nat>)
    ensures found == LastPosition(attempts, step, attempt)
  {
    var i := |attempts|;
    assert attempts[..|attempts|] == attempts;
    while 0 < i && !IsAttempt(attempts[i - 1], step, attempt)
      invariant 0 <= i <= |attempts|
      invariant LastPosition(attempts, step, attempt) == LastPosition(attempts[..i], step, attempt)
    {
      i := i - 1;
      assert attempts[..i + 1][..i] == attempts[..i];
    }
    found := if i == 0 then None else Some(i - 1);
  }

  /** Folding one more event of a log. */
  lemma FoldsNext(log: seq<Envelope>, i: nat, mid: State, after: State)
    requires i < |log| && Folds(EMPTY, log[..i], mid) && Applies(mid, log[i], after)
    ensures Folds(EMPTY, log[..i + 1], after)
  {
    SliceOneMore([], log, 0, i);
    FoldsOneMore(EMPTY, log[..i], mid, log[i], after);
  }

  class Projections {
    var pool: Pool
    var executions: Executions
    var secrets: map<string, string>

    ghost function Value(): State
      reads this
    {
      State(pool, executions, secrets)
    }

    constructor ()
      ensures Value() == EMPTY
    {
      pool, executions, secrets := map[], map[], map[];
    }

    method ReturnRunner(execution: string, step: string)
      modifies this`pool
      ensures Freed(old(pool), pool, execution, step)
    {
      var ids := Keys(pool);
      for i := 0 to |ids|
        invariant pool == old(pool)
        invariant forall j :: 0 <= j < i ==> !Holds(pool[ids[j]], execution, step)
      {
        if Holds(pool[ids[i]], execution, step) {
          pool := pool[ids[i] := Released(pool[ids[i]])];
          return;
        }
      }
    }

    /** Changes one attempt entry in place, or creates it if missing. */
    method UpdateAttempt(at: AttemptId, change: Change, ts: int)
      requires at.execution in executions
      modifies this`executions
      ensures executions == old(executions)[at.execution := ChangeAttempt(old(executions)[at.execution], at, change, ts)]
    {
      var exec := executions[at.execution];
      var attempts := exec.attempts;
      var found := FindLast(attempts, at.step, at.attempt);
      if found.None? {
        attempts := attempts + [Changed(Synthetic(at.step, at.attempt, ts), change, ts)];
      } else {
        attempts := attempts[found.value := Changed(attempts[found.value], change, ts)];
      }
      if change.ToDispatched? {
        exec := exec.(currentStep := Some(at.step), currentAttempt := at.attempt);
      }
      executions := executions[at.execution := exec.(attempts := attempts)];
    }

    method Apply(e: Envelope)
      modifies this
      ensures Applies(old(Value()), e, Value())
    {
      var freed := FreedBy(e);
      if freed.Some? {
        ReturnRunner(freed.value.execution, freed.value.step);
      } else {
        pool := ApplyPool(pool, e);
      }
      var change := StepChange(e);
      if change.Some? && change.value.0.execution in executions {
        UpdateAttempt(change.value.0, change.value.1, e.ts);
      } else if change.None? {
        executions := ApplyLifecycle(executions, e);
      }
      secrets := ApplySecrets(secrets, e);
    }
  }

  // ── Attempts are unique ─────────────────────────────────────────────

  /** No two entries of an execution have the same step and number. */
  ghost predicate UniqueAttempts(attempts: seq<Attempt>) {
    forall i, j :: 0 <= i < j < |attempts| ==> !IsAttempt(attempts[i], attempts[j].step, attempts[j].attempt)
  }

  ghost predicate AllUnique(executions: Executions) {
    forall id :: id in executions ==> UniqueAttempts(executions[id].attempts)
  }

  lemma UpdateKeepsUnique(attempts: seq<Attempt>, step: string, attempt: nat, ts: int, change: Change)
    requires UniqueAttempts(attempts)
    ensures UniqueAttempts(Update(attempts, step, attempt, ts, change))
  {
  }

  /** Every event keeps the attempts of every execution unique, whatever the event. */
  lemma ApplyKeepsUnique(executions: Executions, e: Envelope)
    requires AllUnique(executions)
    ensures AllUnique(ApplyExecutions(executions, e))
  {
    match StepChange(e)
    case Some((at, change)) =>
      if at.execution in executions {
        UpdateKeepsUnique(executions[at.execution].attempts, at.step, at.attempt, e.ts, change);
      }
    case None => LifecycleKeepsUnique(executions, e);
  }

  lemma LifecycleKeepsUnique(executions: Executions, e: Envelope)
    requires AllUnique(executions)
    ensures AllUnique(ApplyLifecycle(executions, e))
  {
  }

  /** (step, attempt) names one entry of an execution after every sequence of events. */
  lemma {:induction false} AttemptsAlwaysUnique(before: State, events: seq<Envelope>, after: State)
    requires AllUnique(before.executions) && Folds(before, events, after)
    ensures AllUnique(after.executions)
  {
    if events != [] {
      var n := |events| - 1;
      var mid :| Folds(before, events[..n], mid) && Applies(mid, events[n], after);
      AttemptsAlwaysUnique(before, events[..n], mid);
      ApplyKeepsUnique(mid.executions, events[n]);
    }
  }
}
