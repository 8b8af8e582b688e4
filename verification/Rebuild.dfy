/**
 Rebuilding the projections from disk (ox-server/src/events.rs, EventBus::new). The log on disk keeps
 timestamps to the millisecond, so the live state can only come back truncated; and freeing a runner
 takes an arbitrary match, so the pool comes back only if there was never a choice.
 */
module Rebuild {
  import opened Prelude
  import opened Events
  import opened Projections
  import opened Leases

  /** Times are in nanoseconds. */
  const NANOS_PER_MILLI := 1_000_000

  function Trunc(ts: int): int {
    ts - ts % NANOS_PER_MILLI
  }

  function TruncOption(ts: Option<int>): Option<int> {
    match ts
    case Some(t) => Some(Trunc(t))
    case None => None
  }

  /** The envelope as it is read back from its row. */
  function OnDisk(e: Envelope): Envelope {
    e.(ts := Trunc(e.ts))
  }

  function LogOnDisk(log: seq<Envelope>): seq<Envelope> {
    seq(|log|, i requires 0 <= i < |log| => OnDisk(log[i]))
  }

  function TruncAttempt(a: Attempt): Attempt {
    a.(startedAt := Trunc(a.startedAt), completedAt := TruncOption(a.completedAt))
  }

  function TruncAttempts(attempts: seq<Attempt>): seq<Attempt> {
    seq(|attempts|, i requires 0 <= i < |attempts| => TruncAttempt(attempts[i]))
  }

  function TruncExecution(exec: Execution): Execution {
    exec.(attempts := TruncAttempts(exec.attempts), createdAt := Trunc(exec.createdAt))
  }

  function TruncExecutions(executions: Executions): Executions {
    map id | id in executions :: TruncExecution(executions[id])
  }

  function TruncRunner(r: RunnerState): RunnerState {
    r.(registeredAt := Trunc(r.registeredAt), dispatchedAt := TruncOption(r.dispatchedAt))
  }

  function TruncPool(pool: Pool): Pool {
    map r | r in pool :: TruncRunner(pool[r])
  }

  // ── Applying an event commutes with truncation ──────────────────────

  lemma {:induction false} PositionIgnoresTime(attempts: seq<Attempt>, step: string, attempt: nat)
    ensures LastPosition(TruncAttempts(attempts), step, attempt) == LastPosition(attempts, step, attempt)
  {
    if attempts != [] {
      PositionIgnoresTime(attempts[..|attempts| - 1], step, attempt);
      var truncated := TruncAttempts(attempts);
      assert truncated[..|attempts| - 1] == TruncAttempts(attempts[..|attempts| - 1]);
    }
  }

  lemma {:induction false} StepPositionIgnoresTime(attempts: seq<Attempt>, step: string)
    ensures LastOfStep(TruncAttempts(attempts), step) == LastOfStep(attempts, step)
  {
    if attempts != [] {
      StepPositionIgnoresTime(attempts[..|attempts| - 1], step);
      var truncated := TruncAttempts(attempts);
      assert truncated[..|attempts| - 1] == TruncAttempts(attempts[..|attempts| - 1]);
    }
  }

  lemma UpdateCommutes(attempts: seq<Attempt>, step: string, attempt: nat, ts: int, change: Change)
    ensures Update(TruncAttempts(attempts), step, attempt, Trunc(ts), change)
            == TruncAttempts(Update(attempts, step, attempt, ts, change))
  {
    PositionIgnoresTime(attempts, step, attempt);
  }

  lemma TransitionCommutes(attempts: seq<Attempt>, fromStep: string, toStep: string)
    ensures SetTransition(TruncAttempts(attempts), fromStep, toStep) == TruncAttempts(SetTransition(attempts, fromStep, toStep))
  {
    StepPositionIgnoresTime(attempts, fromStep);
  }

  lemma ExecutionsCommute(executions: Executions, e: Envelope)
    ensures ApplyExecutions(TruncExecutions(executions), OnDisk(e)) == TruncExecutions(ApplyExecutions(executions, e))
  {
    assert StepChange(OnDisk(e)) == StepChange(e);
    match StepChange(e)
    case Some((at, change)) =>
      if at.execution in executions {
        UpdateCommutes(executions[at.execution].attempts, at.step, at.attempt, e.ts, change);
      }
    case None => LifecycleCommutes(executions, e);
  }

  lemma StatusCommutes(executions: Executions, id: string, status: ExecutionStatus)
    ensures SetStatus(TruncExecutions(executions), id, status) == TruncExecutions(SetStatus(executions, id, status))
  {
  }

  lemma CreationCommutes(executions: Executions, id: string, workflow: string, vars: map<string, string>, origin: Origin, ts: int)
    ensures TruncExecutions(executions)[id := Execution(workflow, Running, vars, origin, [], None, 0, Trunc(ts))]
            == TruncExecutions(executions[id := Execution(workflow, Running, vars, origin, [], None, 0, ts)])
  {
    assert TruncAttempts([]) == [];
  }

  lemma LifecycleCommutes(executions: Executions, e: Envelope)
    ensures ApplyLifecycle(TruncExecutions(executions), OnDisk(e)) == TruncExecutions(ApplyLifecycle(executions, e))
  {
    if e.source == SOURCE_OX {
      match e.body
      case StepAdvanced(id, fromStep, toStep) =>
        if id in executions {
          TransitionCommutes(executions[id].attempts, fromStep, toStep);
        }
      case ExecutionCreated(id, workflow, vars, origin, _) => CreationCommutes(executions, id, workflow, vars, origin, e.ts);
      case ExecutionCompleted(id) => StatusCommutes(executions, id, Completed);
      case ExecutionEscalated(id) => StatusCommutes(executions, id, Escalated);
      case ExecutionCancelled(id) => StatusCommutes(executions, id, Cancelled);
      case _ =>
    }
  }

  lemma LogOnDiskSplits(log: seq<Envelope>)
    requires log != []
    ensures LogOnDisk(log)[..|log| - 1] == LogOnDisk(log[..|log| - 1])
    ensures LogOnDisk(log)[|log| - 1] == OnDisk(log[|log| - 1])
  {
  }

  /** A rebuilt server has the executions it had, up to truncation, and the secrets it had. */
  lemma {:induction false} RebuildRestoresExecutions(log: seq<Envelope>, live: State, rebuilt: State)
    requires Folds(EMPTY, log, live) && Folds(EMPTY, LogOnDisk(log), rebuilt)
    ensures rebuilt.executions == TruncExecutions(live.executions) && rebuilt.secrets == live.secrets
    decreases |log|
  {
    if log != [] {
      var n := |log| - 1;
      LogOnDiskSplits(log);
      var liveMid :| Folds(EMPTY, log[..n], liveMid) && Applies(liveMid, log[n], live);
      var mid :| Folds(EMPTY, LogOnDisk(log[..n]), mid) && Applies(mid, OnDisk(log[n]), rebuilt);
      RebuildRestoresExecutions(log[..n], liveMid, mid);
      ExecutionsCommute(liveMid.executions, log[n]);
    }
  }

  // ── The pool ────────────────────────────────────────────────────────

  /** A fold in which no two runners ever hold the same step before an event. */
  ghost predicate FoldsUniquely(events: seq<Envelope>, after: State)
    decreases |events|, 0
  {
    if events == [] then after == EMPTY
    else FoldsUniquelyThen(events[..|events| - 1], events[|events| - 1], after)
  }

  ghost predicate FoldsUniquelyThen(events: seq<Envelope>, e: Envelope, after: State)
    decreases |events|, 1
  {
    exists mid :: FoldsUniquely(events, mid) && UniqueHolders(mid.pool) && Applies(mid, e, after)
  }

  /** Where only one runner can hold a step, freeing it is releasing that runner. */
  lemma FreeingReleases(pool: Pool, at: AttemptId, after: Pool, r: string)
    requires r in pool && Holds(pool[r], at.execution, at.step) && Freed(pool, after, at.execution, at.step)
    requires forall q :: q in pool && Holds(pool[q], at.execution, at.step) ==> q == r
    ensures after == pool[r := Released(pool[r])]
  {
  }

  lemma FreeingCommutes(pool: Pool, at: AttemptId, after: Pool, truncated: Pool)
    requires UniqueHolders(pool)
    requires Freed(pool, after, at.execution, at.step) && Freed(TruncPool(pool), truncated, at.execution, at.step)
    ensures truncated == TruncPool(after)
  {
    var cut := TruncPool(pool);
    assert forall r :: r in pool ==> Holds(cut[r], at.execution, at.step) == Holds(pool[r], at.execution, at.step);
    if r :| r in pool && Holds(pool[r], at.execution, at.step) {
      forall q | q in pool && Holds(pool[q], at.execution, at.step) ensures q == r {
        HolderIsUnique(pool, q, r, at.execution, at.step);
      }
      FreeingReleases(pool, at, after, r);
      FreeingReleases(cut, at, truncated, r);
      assert Released(cut[r]) == TruncRunner(Released(pool[r]));
    }
  }

  lemma PoolCommutes(pool: Pool, e: Envelope, after: Pool, truncated: Pool)
    requires UniqueHolders(pool) && PoolAfter(pool, e, after) && PoolAfter(TruncPool(pool), OnDisk(e), truncated)
    ensures truncated == TruncPool(after)
  {
    assert FreedBy(OnDisk(e)) == FreedBy(e);
    match FreedBy(e)
    case Some(at) => FreeingCommutes(pool, at, after, truncated);
    case None => assert ApplyPool(TruncPool(pool), OnDisk(e)) == TruncPool(ApplyPool(pool, e));
  }

  /** The pool comes back too, when no two runners ever held the same step. */
  lemma {:induction false} RebuildRestoresPool(log: seq<Envelope>, live: State, rebuilt: State)
    requires FoldsUniquely(log, live) && Folds(EMPTY, LogOnDisk(log), rebuilt)
    ensures rebuilt.pool == TruncPool(live.pool)
    decreases |log|
  {
    if log != [] {
      var n := |log| - 1;
      LogOnDiskSplits(log);
      var liveMid :| FoldsUniquely(log[..n], liveMid) && UniqueHolders(liveMid.pool) && Applies(liveMid, log[n], live);
      var mid :| Folds(EMPTY, LogOnDisk(log[..n]), mid) && Applies(mid, OnDisk(log[n]), rebuilt);
      RebuildRestoresPool(log[..n], liveMid, mid);
      PoolCommutes(liveMid.pool, log[n], live.pool, rebuilt.pool);
    }
  }

  /** With two holders there is a choice: freeing the step has two different results exactly then. */
  lemma FreeingIsAmbiguousIff(pool: Pool, execution: string, step: string)
    ensures (exists a, b :: a != b && Freed(pool, a, execution, step) && Freed(pool, b, execution, step))
      <==> (exists q, r :: q in pool && r in pool && q != r && Holds(pool[q], execution, step) && Holds(pool[r], execution, step))
  {
    if q, r :| q in pool && r in pool && q != r && Holds(pool[q], execution, step) && Holds(pool[r], execution, step) {
      var a, b := pool[q := Released(pool[q])], pool[r := Released(pool[r])];
      assert a[q].currentStep.None? && b[q].currentStep.Some?;
      assert Freed(pool, a, execution, step) && Freed(pool, b, execution, step);
    }
  }
}
