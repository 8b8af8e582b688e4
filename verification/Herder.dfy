/**
 The herder (ox-herder/src/herder.rs): its local maps of runners and executions, the event handlers
 that update them, and the scheduler. Server calls are answered arbitrarily.
 */
module Herder {
  import opened Prelude
  import opened Events
  import opened Execution
  import opened Settling
  import Retry
  import W = Workflow

  datatype RunnerView = RunnerView(idle: bool, currentExecution: Option<string>, currentStep: Option<string>)

  const IDLE_RUNNER := RunnerView(true, None, None)

  type Runners = map<string, RunnerView>
  type Executions = map<string, ExecView>

  function Busy(execution: string, step: string): RunnerView {
    RunnerView(false, Some(execution), Some(step))
  }

  /** A runner is idle exactly when it has no current execution and no current step. */
  predicate Consistent(runners: Runners) {
    forall r :: r in runners ==>
      && (runners[r].idle <==> runners[r].currentExecution.None?)
      && (runners[r].idle <==> runners[r].currentStep.None?)
  }

  predicate Holds(runner: RunnerView, execution: string, step: string) {
    runner.currentExecution == Some(execution) && runner.currentStep == Some(step)
  }

  /** The first runner met that holds the step, in an arbitrary order, is made idle. */
  ghost predicate Freed(before: Runners, after: Runners, execution: string, step: string) {
    if exists r :: r in before && Holds(before[r], execution, step) then
      exists r :: r in before && Holds(before[r], execution, step) && after == before[r := IDLE_RUNNER]
    else after == before
  }

  /** The runner map after an ox event; freeing a runner picks any of the matching ones. */
  ghost predicate RunnersAfter(before: Runners, after: Runners, body: Body) {
    match body
    case RunnerRegistered(runner, _) => after == before[runner := IDLE_RUNNER]
    case RunnerDrained(runner) => after == before - {runner}
    case RunnerRecovered(runner) => after == if runner in before then before else before[runner := IDLE_RUNNER]
    case StepDispatched(at, runner, _) =>
      after == if runner in before then before[runner := Busy(at.execution, at.step)] else before
    case StepConfirmed(at) => Freed(before, after, at.execution, at.step)
    case StepFailed(at, _) => Freed(before, after, at.execution, at.step)
    case StepTimeout(at, _) => Freed(before, after, at.execution, at.step)
    case _ => after == before
  }

  lemma RunnersStayConsistent(before: Runners, after: Runners, body: Body)
    requires RunnersAfter(before, after, body)
    ensures Consistent(before) ==> Consistent(after)
  {
  }

  /** The execution map after an ox event. */
  function ExecutionsAfter(executions: Executions, engines: Engines, body: Body, replaying: bool): Executions {
    match body
    case ExecutionCreated(id, workflow, vars, origin, startStep) =>
      executions[id := Created(engines, workflow, vars, origin, startStep)]
    case ExecutionCompleted(id) => if id in executions then executions[id := OnTerminal(executions[id], Completed)] else executions
    case ExecutionEscalated(id) => if id in executions then executions[id := OnTerminal(executions[id], Escalated)] else executions
    case ExecutionCancelled(id) => if id in executions then executions[id := OnTerminal(executions[id], Cancelled)] else executions
    case HeartbeatMissed(_, orphan) =>
      if orphan.Some? && orphan.value.execution in executions then
        executions[orphan.value.execution := OnHeartbeatMissed(executions[orphan.value.execution], orphan.value)]
      else executions
    case StepDispatched(at, _, _) =>
      if at.execution in executions then executions[at.execution := OnDispatched(executions[at.execution], at.step, replaying)] else executions
    case StepDone(at, output) =>
      if at.execution in executions then executions[at.execution := OnDone(executions[at.execution], output)] else executions
    case StepConfirmed(at) =>
      if at.execution in executions then executions[at.execution := OnConfirmed(executions[at.execution], at.step)] else executions
    case StepSignals(at, _, matches) =>
      if at.execution in executions then executions[at.execution := executions[at.execution].(signals := matches)] else executions
    case StepFailed(at, error) =>
      if at.execution in executions then executions[at.execution := OnFailed(executions[at.execution], at.step, error)] else executions
    case StepTimeout(at, _) =>
      if at.execution in executions then executions[at.execution := OnTimeout(executions[at.execution], at)] else executions
    case _ => executions
  }

  // ── Triggers ────────────────────────────────────────────────────────

  datatype Trigger = Trigger(on: string, source: Option<string>, workflow: string)

  /**
   What happens once a trigger has matched the event's kind and source and is not suppressed: its
   where-clause may not hold, a variable may be missing, or the server is asked to create.
   */
  datatype Reply = WhereFails | MissingField | CreateFails | CreatedAs(id: string, vars: map<string, string>)

  function OriginOf(envelope: Envelope): Origin {
    FromEvent(envelope.source, KindOf(envelope.body), envelope.subjectId, envelope.seqNo)
  }

  predicate Active(exec: ExecView) {
    exec.status == Running || exec.status == Escalated
  }

  predicate OriginActive(executions: Executions, origin: Origin, workflow: string) {
    exists id :: id in executions && OriginsMatch(executions[id].origin, origin)
                 && executions[id].workflow == workflow && Active(executions[id])
  }

  predicate Eligible(trigger: Trigger, envelope: Envelope) {
    trigger.on == KindOf(envelope.body) && (trigger.source.Some? ==> trigger.source.value == envelope.source)
  }

  predicate Fires(executions: Executions, trigger: Trigger, envelope: Envelope, reply: Reply) {
    Eligible(trigger, envelope) && !OriginActive(executions, OriginOf(envelope), trigger.workflow) && reply.CreatedAs?
  }

  /** The optimistic local insert that makes the next dedup check see the new execution. */
  function Optimistic(vars: map<string, string>, origin: Origin, workflow: string): ExecView {
    ExecView(vars, origin, workflow, Running, AwaitingStep, map[], None, Retry.NEW_STATE, [])
  }

  function FireOne(executions: Executions, trigger: Trigger, envelope: Envelope, reply: Reply): Executions {
    if Fires(executions, trigger, envelope, reply) then
      executions[reply.id := Optimistic(reply.vars, OriginOf(envelope), trigger.workflow)]
    else executions
  }

  /** The execution map after offering the event to the first triggers, in order. */
  function FireAll(executions: Executions, triggers: seq<Trigger>, envelope: Envelope, replies: seq<Reply>): Executions
    requires |replies| == |triggers|
  {
    if triggers == [] then executions
    else
      var n := |triggers| - 1;
      FireOne(FireAll(executions, triggers[..n], envelope, replies[..n]), triggers[n], envelope, replies[n])
  }

  // ── Scheduler moves ─────────────────────────────────────────────────

  /** The view after as many scheduler moves as there are merge answers. */
  function Moved(engines: Engines, exec: ExecView, merges: seq<Result<(), string>>): ExecView {
    if merges == [] then exec
    else Process(engines, Moved(engines, exec, merges[..|merges| - 1]), merges[|merges| - 1]).0
  }

  /** Every execution is where scheduler moves from `was` can have taken it. */
  ghost predicate Reached(engines: Engines, was: Executions, now: Executions) {
    now.Keys == was.Keys && forall id :: id in now ==> ReachedOne(engines, was[id], now[id])
  }

  ghost predicate ReachedOne(engines: Engines, was: ExecView, now: ExecView) {
    exists merges :: now == Moved(engines, was, merges)
  }

  lemma ReachedAtFirst(engines: Engines, executions: Executions)
    ensures Reached(engines, executions, executions)
  {
    forall id | id in executions ensures ReachedOne(engines, executions[id], executions[id]) {
      assert executions[id] == Moved(engines, executions[id], []);
    }
  }

  lemma ReachedOneMore(engines: Engines, was: ExecView, now: ExecView, merged: Result<(), string>)
    requires ReachedOne(engines, was, now)
    ensures ReachedOne(engines, was, Process(engines, now, merged).0)
  {
    var merges :| now == Moved(engines, was, merges);
    assert (merges + [merged])[..|merges|] == merges;
    assert Process(engines, now, merged).0 == Moved(engines, was, merges + [merged]);
  }

  /** Running executions are of loaded workflows whose action steps form no cycle. */
  ghost predicate AllPlaced(engines: Engines, executions: Executions) {
    forall id :: id in executions ==> Placed(engines, executions[id])
  }

  ghost predicate AllSettled(engines: Engines, executions: Executions, ids: set<string>) {
    forall id :: id in ids && id in executions ==> Settled(engines, executions[id])
  }

  ghost predicate SettledUpTo(engines: Engines, executions: Executions, ids: seq<string>, n: nat) {
    n <= |ids| && forall i :: 0 <= i < n && ids[i] in executions ==> Settled(engines, executions[ids[i]])
  }

  ghost predicate MidSettle(engines: Engines, was: Executions, now: Executions) {
    Reached(engines, was, now) && AllPlaced(engines, now)
  }

  ghost function Listing(s: set<string>): (r: seq<string>)
    ensures Distinct(r) && forall x :: x in r <==> x in s
  {
    if s == {} then [] else var x :| x in s; [x] + Listing(s - {x})
  }

  ghost function TotalWork(engines: Engines, executions: Executions, ids: seq<string>): nat {
    if ids == [] then 0
    else (if ids[0] in executions then InlineWork(engines, executions[ids[0]]) else 0)
         + TotalWork(engines, executions, ids[1..])
  }

  lemma {:induction false} TotalWorkUntouched(
      engines: Engines, executions: Executions, ids: seq<string>, id: string, exec: ExecView)
    requires id !in ids
    ensures TotalWork(engines, executions[id := exec], ids) == TotalWork(engines, executions, ids)
  {
    if ids != [] {
      TotalWorkUntouched(engines, executions, ids[1..], id, exec);
    }
  }

  lemma {:induction false} TotalWorkOfUpdate(
      engines: Engines, executions: Executions, ids: seq<string>, id: string, exec: ExecView)
    requires Distinct(ids) && id in ids && id in executions
    ensures TotalWork(engines, executions[id := exec], ids) - InlineWork(engines, exec)
            == TotalWork(engines, executions, ids) - InlineWork(engines, executions[id])
  {
    if ids[0] == id {
      TotalWorkUntouched(engines, executions, ids[1..], id, exec);
    } else {
      TotalWorkOfUpdate(engines, executions, ids[1..], id, exec);
    }
  }

  // ── Dispatch ────────────────────────────────────────────────────────

  predicate ReadyForRunner(engines: Engines, exec: ExecView) {
    exec.status == Running && exec.phase.Ready? && !IsActionStep(engines, exec, exec.phase.step)
  }

  function ReadyIds(engines: Engines, executions: Executions): set<string> {
    set id | id in executions && ReadyForRunner(engines, executions[id])
  }

  function IdleIds(runners: Runners): set<string> {
    set r | r in runners && runners[r].idle
  }

  /** The executions in `started` await their step, and no other execution has changed. */
  ghost predicate ExecutionsAssigned(was: Executions, now: Executions, started: map<string, string>) {
    && started.Keys <= was.Keys
    && now == (map id | id in was :: if id in started then was[id].(phase := AwaitingStep) else was[id])
  }

  /** Each execution in `started` has a runner of its own, idle before; no other runner has changed. */
  ghost predicate RunnersAssigned(was: Runners, now: Runners, started: map<string, string>, steps: map<string, string>) {
    && started.Keys <= steps.Keys
    && (forall a, b :: a in started && b in started && started[a] == started[b] ==> a == b)
    && now.Keys == was.Keys
    && (forall id :: id in started ==> started[id] in was && was[started[id]].idle && now[started[id]] == Busy(id, steps[id]))
    && (forall r :: r in was && (forall id :: id in started ==> started[id] != r) ==> now[r] == was[r])
  }

  lemma RunnersAssignOneMore(was: Runners, now: Runners, started: map<string, string>, steps: map<string, string>,
                             id: string, r: string)
    requires RunnersAssigned(was, now, started, steps)
    requires id in steps && id !in started && r in now && now[r].idle
    ensures RunnersAssigned(was, now[r := Busy(id, steps[id])], started[id := r], steps)
  {
    assert forall k :: k in started ==> started[k] != r;
    var started' := started[id := r];
    forall x | x in was && (forall k :: k in started' ==> started'[k] != x)
      ensures now[r := Busy(id, steps[id])][x] == was[x]
    {
      assert started'[id] == r;
      assert forall k :: k in started ==> started'[k] == started[k];
    }
  }

  lemma OneIdleFewer(runners: Runners, r: string, execution: string, step: string)
    requires r in runners && runners[r].idle
    ensures |IdleIds(runners[r := Busy(execution, step)])| == |IdleIds(runners)| - 1
  {
    assert IdleIds(runners[r := Busy(execution, step)]) == IdleIds(runners) - {r};
  }

  function StepsOf(engines: Engines, executions: Executions): map<string, string> {
    map id | id in ReadyIds(engines, executions) :: executions[id].phase.step
  }

  ghost predicate Dispatched(was: Executions, wasRunners: Runners, now: Executions, nowRunners: Runners,
                             started: map<string, string>, steps: map<string, string>)
  {
    && ExecutionsAssigned(was, now, started)
    && RunnersAssigned(wasRunners, nowRunners, started, steps)
    && |IdleIds(nowRunners)| + |started| == |IdleIds(wasRunners)|
  }

  lemma DispatchedOneMore(was: Executions, wasRunners: Runners, now: Executions, nowRunners: Runners,
                          started: map<string, string>, steps: map<string, string>, id: string, r: string)
    requires Dispatched(was, wasRunners, now, nowRunners, started, steps)
    requires id in steps && id in was && id !in started && r in nowRunners && nowRunners[r].idle
    ensures Dispatched(was, wasRunners, now[id := was[id].(phase := AwaitingStep)],
                       nowRunners[r := Busy(id, steps[id])], started[id := r], steps)
  {
    RunnersAssignOneMore(wasRunners, nowRunners, started, steps, id, r);
    OneIdleFewer(nowRunners, r, id, steps[id]);
  }

  lemma SubsetOfSameSize(a: set<string>, b: set<string>)
    requires a <= b && |a| == |b|
    ensures a == b
  {
    assert |b - a| == |b| - |a|;
  }

  lemma ReadyAfter(engines: Engines, was: Executions, now: Executions, started: map<string, string>)
    requires ExecutionsAssigned(was, now, started)
    ensures ReadyIds(engines, now) == ReadyIds(engines, was) - started.Keys
  {
  }

  // ── Executions stay placed ────────────────────────────────────────

  /** The workflows triggers name have no cycle of action steps; they need not be loaded. */
  ghost predicate TriggersPlaced(engines: Engines, triggers: seq<Trigger>) {
    forall t :: t in triggers ==> Acyclic(engines, t.workflow)
  }

  /** No created execution has an action cycle, and no report of a step leaves its execution stuck. */
  ghost predicate EventPlaced(engines: Engines, executions: Executions, body: Body) {
    match body
    case ExecutionCreated(_, workflow, _, _, _) => Acyclic(engines, workflow)
    case StepConfirmed(at) =>
      at.execution in executions && executions[at.execution].status == Running ==> executions[at.execution].workflow in engines
    case StepFailed(at, _) =>
      at.execution in executions && executions[at.execution].status == Running ==>
        Lookup(engines, executions[at.execution].workflow, at.step).Some?
    case _ => true
  }

  lemma EventKeepsPlaced(engines: Engines, executions: Executions, body: Body, replaying: bool)
    requires AllPlaced(engines, executions) && EventPlaced(engines, executions, body)
    ensures AllPlaced(engines, ExecutionsAfter(executions, engines, body, replaying))
  {
  }

  lemma {:induction false} FiringKeepsPlaced(
      engines: Engines, executions: Executions, triggers: seq<Trigger>, envelope: Envelope, replies: seq<Reply>)
    requires |replies| == |triggers|
    requires AllPlaced(engines, executions) && TriggersPlaced(engines, triggers)
    ensures AllPlaced(engines, FireAll(executions, triggers, envelope, replies))
  {
    if triggers != [] {
      var n := |triggers| - 1;
      FiringKeepsPlaced(engines, executions, triggers[..n], envelope, replies[..n]);
      assert triggers[n] in triggers;
    }
  }

  lemma DispatchKeepsPlaced(engines: Engines, was: Executions, now: Executions, started: map<string, string>)
    requires AllPlaced(engines, was) && AllSettled(engines, was, was.Keys)
    requires ExecutionsAssigned(was, now, started) && started.Keys <= ReadyIds(engines, was)
    ensures AllPlaced(engines, now) && AllSettled(engines, now, now.Keys)
  {
  }

  class Herder {
    var runners: Runners
    var executions: Executions
    var engines: Engines
    var triggers: seq<Trigger>
    var pending: seq<Envelope>
    var lastSeq: nat
    var replaying: bool
    var replayTarget: nat

    constructor (engines: Engines, triggers: seq<Trigger>, replayTarget: nat)
      ensures runners == map[] && executions == map[] && this.engines == engines && this.triggers == triggers
      ensures pending == [] && lastSeq == 0 && replaying && this.replayTarget == replayTarget
    {
      this.engines, this.triggers, this.replayTarget := engines, triggers, replayTarget;
      runners, executions, pending, lastSeq, replaying := map[], map[], [], 0, true;
    }

    method FreeRunnerForStep(execution: string, step: string)
      modifies this`runners
      ensures Freed(old(runners), runners, execution, step)
    {
      var ids := Keys(runners);
      for i := 0 to |ids|
        invariant runners == old(runners)
        invariant forall j :: 0 <= j < i ==> !Holds(runners[ids[j]], execution, step)
      {
        if Holds(runners[ids[i]], execution, step) {
          runners := runners[ids[i] := IDLE_RUNNER];
          return;
        }
      }
    }

    /** The runner map's share of an ox event. */
    method UpdateRunners(body: Body)
      modifies this`runners
      ensures RunnersAfter(old(runners), runners, body)
    {
      match body {
        case RunnerRegistered(runner, _) => runners := runners[runner := IDLE_RUNNER];
        case RunnerDrained(runner) => runners := runners - {runner};
        case RunnerRecovered(runner) =>
          if runner !in runners {
            runners := runners[runner := IDLE_RUNNER];
          }
        case StepDispatched(at, runner, _) =>
          if runner in runners {
            runners := runners[runner := Busy(at.execution, at.step)];
          }
        case StepConfirmed(at) => FreeRunnerForStep(at.execution, at.step);
        case StepFailed(at, _) => FreeRunnerForStep(at.execution, at.step);
        case StepTimeout(at, _) => FreeRunnerForStep(at.execution, at.step);
        case _ =>
      }
    }

    /** State updates for one SSE message; an event that is not ox's own only feeds the triggers. */
    method ApplyMessage(envelope: Envelope)
      modifies this`runners, this`executions, this`pending, this`lastSeq
      ensures lastSeq == envelope.seqNo
      ensures pending == if replaying then old(pending) else old(pending) + [envelope]
      ensures envelope.source != SOURCE_OX ==> runners == old(runners) && executions == old(executions)
      ensures envelope.source == SOURCE_OX ==>
                && RunnersAfter(old(runners), runners, envelope.body)
                && executions == ExecutionsAfter(old(executions), engines, envelope.body, replaying)
      ensures old(Consistent(runners)) ==> Consistent(runners)
    {
      lastSeq := envelope.seqNo;
      if !replaying {
        pending := pending + [envelope];
      }
      if envelope.source != SOURCE_OX {
        return;
      }
      ghost var before := runners;
      UpdateRunners(envelope.body);
      RunnersStayConsistent(before, runners, envelope.body);
      executions := ExecutionsAfter(executions, engines, envelope.body, replaying);
    }

    method ProcessExecution(id: string) returns (changed: bool, ghost merged: Result<(), string>)
      requires id in executions
      modifies this`executions
      ensures executions == old(executions)[id := Process(engines, old(executions[id]), merged).0]
      ensures changed == Process(engines, old(executions[id]), merged).1
    {
      // The server's answer, should this be a merge.
      var answer: Result<(), string> := *;
      merged := answer;
      var exec := executions[id];
      match exec.phase {
        case NeedsAdvance(step) =>
          executions := executions[id := Advance(engines, exec, step)];
          changed := true;
        case NeedsFailure(step, _) =>
          executions := executions[id := Fail(engines, exec, step)];
          changed := true;
        case Ready(step, _) =>
          changed := IsActionStep(engines, exec, step);
          if changed {
            executions := executions[id := Act(engines, exec, step, answer)];
          } else {
            assert executions == executions[id := exec];
          }
        case _ =>
          changed := false;
          assert executions == executions[id := exec];
      }
    }

    /**
     Loop until stable. It terminates for every number of executions and all merge answers, each
     execution moves only by scheduler moves, and in the end none has a move left.
     */
    method Settle()
      requires AllPlaced(engines, executions)
      modifies this`executions
      ensures AllPlaced(engines, executions)
      ensures AllSettled(engines, executions, executions.Keys)
      ensures Reached(engines, old(executions), executions)
    {
      ReachedAtFirst(engines, executions);
      ghost var all := Listing(executions.Keys);
      var changed := true;
      while changed
        invariant MidSettle(engines, old(executions), executions)
        invariant !changed ==> AllSettled(engines, executions, executions.Keys)
        decreases TotalWork(engines, executions, all), changed
      {
        changed := Sweep(old(executions), all);
      }
    }

    /** One pass over the running executions; true if any of them moved. */
    method Sweep(ghost was: Executions, ghost all: seq<string>) returns (changed: bool)
      requires MidSettle(engines, was, executions)
      requires Distinct(all) && (forall id :: id in all <==> id in was)
      modifies this`executions
      ensures MidSettle(engines, was, executions)
      ensures changed ==> TotalWork(engines, executions, all) < TotalWork(engines, old(executions), all)
      ensures !changed ==> executions == old(executions) && AllSettled(engines, executions, executions.Keys)
    {
      changed := false;
      var ids := Keys(executions);
      for i := 0 to |ids|
        invariant MidSettle(engines, was, executions)
        invariant changed ==> TotalWork(engines, executions, all) < TotalWork(engines, old(executions), all)
        invariant !changed ==> executions == old(executions) && SettledUpTo(engines, executions, ids, i)
      {
        var moved := VisitOne(ids[i], was, all);
        changed := changed || moved;
      }
    }

    method VisitOne(id: string, ghost was: Executions, ghost all: seq<string>) returns (moved: bool)
      requires id in executions && MidSettle(engines, was, executions)
      requires Distinct(all) && (forall id :: id in all <==> id in was)
      modifies this`executions
      ensures MidSettle(engines, was, executions)
      ensures moved ==> TotalWork(engines, executions, all) < TotalWork(engines, old(executions), all)
      ensures !moved ==> executions == old(executions) && Settled(engines, executions[id])
    {
      if executions[id].status != Running {
        return false;
      }
      ghost var before := executions;
      var changed, merged := ProcessExecution(id);
      moved := changed;
      ProcessLosesInlineWork(engines, before[id], merged);
      ProcessKeepsWorkflow(engines, before[id], merged);
      TotalWorkOfUpdate(engines, before, all, id, executions[id]);
      ReachedOneMore(engines, was[id], before[id], merged);
      if !moved {
        assert executions == before;
      }
    }

    /** Marks the runner busy and asks the server; if the server refuses, the runner is restored. */
    method DispatchStep(id: string, runner: string) returns (ok: bool)
      requires Consistent(runners) && runner in runners && runners[runner].idle
      requires id in executions && executions[id].phase.Ready?
      modifies this`runners, this`executions
      ensures Consistent(runners)
      ensures ok ==>
                && runners == old(runners)[runner := Busy(id, old(executions)[id].phase.step)]
                && executions == old(executions)[id := old(executions)[id].(phase := AwaitingStep)]
      ensures !ok ==> runners == old(runners) && executions == old(executions)
    {
      runners := runners[runner := Busy(id, executions[id].phase.step)];
      ok := *;
      if ok {
        executions := executions[id := executions[id].(phase := AwaitingStep)];
      } else {
        runners := runners[runner := IDLE_RUNNER];
      }
    }

    /** One dispatch in the middle of matching. */
    method Offer(id: string, runner: string, ghost was: Executions, ghost wasRunners: Runners,
                 ghost started: map<string, string>, ghost steps: map<string, string>) returns (ok: bool)
      requires Dispatched(was, wasRunners, executions, runners, started, steps)
      requires Consistent(runners) && runner in runners && runners[runner].idle
      requires id in steps && id !in started && id in was && was[id].phase.Ready? && was[id].phase.step == steps[id]
      modifies this`runners, this`executions
      ensures Consistent(runners)
      ensures Dispatched(was, wasRunners, executions, runners, if ok then started[id := runner] else started, steps)
    {
      DispatchedOneMore(was, wasRunners, executions, runners, started, steps, id, runner);
      ok := DispatchStep(id, runner);
    }

    /** Matches the given executions, each ready for a runner, to idle runners until either runs out. */
    method MatchToIdle(ready: set<string>, ghost steps: map<string, string>)
      returns (ghost started: map<string, string>, ghost failed: nat)
      requires Consistent(runners)
      requires ready == steps.Keys && ready <= executions.Keys
      requires forall id :: id in ready ==> executions[id].phase.Ready? && executions[id].phase.step == steps[id]
      modifies this`runners, this`executions
      ensures Consistent(runners)
      ensures Dispatched(old(executions), old(runners), executions, runners, started, steps)
      ensures |started| + failed <= |ready|
      ensures |started| + failed == |ready| || IdleIds(runners) == {}
      ensures started.Keys <= ready
    {
      started, failed := map[], 0;
      var waiting := ready;
      while waiting != {}
        invariant waiting <= ready && started.Keys <= ready - waiting
        invariant |ready| == |waiting| + |started| + failed
        invariant Consistent(runners)
        invariant Dispatched(old(executions), old(runners), executions, runners, started, steps)
        decreases waiting
      {
        var id :| id in waiting;
        if runner :| runner in runners && runners[runner].idle {
          waiting := waiting - {id};
          var ok := Offer(id, runner, old(executions), old(runners), started, steps);
          if ok {
            started := started[id := runner];
          } else {
            failed := failed + 1;
          }
        } else {
          break;
        }
      }
    }

    /**
     Matches ready steps to idle runners. `started` pairs each execution dispatched with its runner,
     `failed` counts the dispatch calls the server refused.
     */
    method DispatchReadySteps() returns (ghost started: map<string, string>, ghost failed: nat)
      requires Consistent(runners)
      modifies this`runners, this`executions
      ensures Consistent(runners)
      ensures started.Keys <= ReadyIds(engines, old(executions))
      ensures ExecutionsAssigned(old(executions), executions, started)
      ensures RunnersAssigned(old(runners), runners, started, StepsOf(engines, old(executions)))
      ensures |started| + failed <= |ReadyIds(engines, old(executions))|
      ensures |started| + failed == |ReadyIds(engines, old(executions))| || IdleIds(runners) == {}
      ensures failed == 0 ==>
                && |started| == Min(|ReadyIds(engines, old(executions))|, |IdleIds(old(runners))|)
                && (ReadyIds(engines, executions) == {} || IdleIds(runners) == {})
    {
      var ready := ReadyIds(engines, executions);
      started, failed := MatchToIdle(ready, StepsOf(engines, executions));
      ReadyAfter(engines, old(executions), executions, started);
      if |started| == |ready| {
        SubsetOfSameSize(started.Keys, ready);
      }
    }

    /** Offers one event to every trigger in turn; each creation is inserted before the next check. */
    method EvaluateTriggersForEvent(envelope: Envelope) returns (ghost replies: seq<Reply>)
      modifies this`executions
      ensures |replies| == |triggers|
      ensures executions == FireAll(old(executions), triggers, envelope, replies)
    {
      replies := [];
      for i := 0 to |triggers|
        invariant |replies| == i
        invariant executions == FireAll(old(executions), triggers[..i], envelope, replies)
      {
        var trigger := triggers[i];
        var reply: Reply := *;
        ghost var before := executions;
        var origin := OriginOf(envelope);
        if Eligible(trigger, envelope) && !OriginActive(executions, origin, trigger.workflow) && reply.CreatedAs? {
          executions := executions[reply.id := Optimistic(reply.vars, origin, trigger.workflow)];
        }
        assert executions == FireOne(before, trigger, envelope, reply);
        assert triggers[..i + 1][..i] == triggers[..i] && (replies + [reply])[..i] == replies;
        replies := replies + [reply];
      }
      assert triggers[..|triggers|] == triggers;
    }

    method EvaluatePendingTriggers()
      requires AllPlaced(engines, executions) && TriggersPlaced(engines, triggers)
      modifies this`executions, this`pending
      ensures pending == [] && AllPlaced(engines, executions)
    {
      var events := pending;
      pending := [];
      for i := 0 to |events|
        invariant pending == [] && AllPlaced(engines, executions)
      {
        ghost var before := executions;
        var replies := EvaluateTriggersForEvent(events[i]);
        FiringKeepsPlaced(engines, before, triggers, events[i], replies);
      }
    }

    /** Triggers, then the phase machines until stable, then dispatch. */
    method Schedule() returns (ghost started: map<string, string>, ghost failed: nat)
      requires Consistent(runners) && AllPlaced(engines, executions) && TriggersPlaced(engines, triggers)
      modifies this`runners, this`executions, this`pending
      ensures pending == [] && Consistent(runners) && AllPlaced(engines, executions)
      ensures AllSettled(engines, executions, executions.Keys)
      ensures failed == 0 ==> ReadyIds(engines, executions) == {} || IdleIds(runners) == {}
    {
      EvaluatePendingTriggers();
      Settle();
      ghost var before := executions;
      started, failed := DispatchReadySteps();
      DispatchKeepsPlaced(engines, before, executions, started);
    }

    /**
     One SSE message, start to end. It keeps runners consistent and executions placed, and live it leaves
     nothing to do.
     */
    method HandleSseMessage(envelope: Envelope)
      requires Consistent(runners) && AllPlaced(engines, executions) && TriggersPlaced(engines, triggers)
      requires envelope.source == SOURCE_OX ==> EventPlaced(engines, executions, envelope.body)
      modifies this`runners, this`executions, this`pending, this`lastSeq, this`replaying
      ensures Consistent(runners) && AllPlaced(engines, executions)
      ensures lastSeq == envelope.seqNo
      ensures replaying <==> old(replaying) && lastSeq < replayTarget
      ensures !replaying ==> pending == [] && AllSettled(engines, executions, executions.Keys)
    {
      if envelope.source == SOURCE_OX {
        EventKeepsPlaced(engines, executions, envelope.body, replaying);
      }
      ApplyMessage(envelope);
      if !replaying {
        var started, failed := Schedule();
      }
      // The connection loop's check after each message.
      if replaying && lastSeq >= replayTarget {
        replaying := false;
        var started, failed := Schedule();
      }
    }
  }
}
