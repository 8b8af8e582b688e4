/**
 Bounded workflows (ox-core/src/workflow.rs and ox-herder/src/herder.rs): every execution of one ends,
 after an exact number of outcomes.
 */
module BoundedRuns {
  import opened Prelude
  import opened Events
  import opened Execution
  import Retry
  import W = Workflow

  // ── Bounded workflows ───────────────────────────────────────────────

  predicate GoodGoto(engine: W.Engine, goto: string) {
    goto == "complete" || goto == "escalate" || W.Declared(engine, goto)
  }

  predicate BoundedStep(engine: W.Engine, step: W.Step) {
    && step.maxVisits.Some? && step.maxVisitsGoto.None?
    && (forall t :: t in step.transitions ==> GoodGoto(engine, t.goto))
    && (step.onFail.Some? ==> step.onFail.value == "escalate" || W.Declared(engine, step.onFail.value))
    && step.name != "complete" && step.name != "escalate"
  }

  /** Every step has a visit limit that escalates, and every name used is declared or reserved. */
  ghost predicate Bounded(engine: W.Engine) {
    W.UniqueNames(engine.steps) && forall s :: s in engine.steps ==> BoundedStep(engine, s)
  }

  /** The largest effective retry budget of any step. */
  function MaxBudget(steps: seq<W.Step>): (r: nat)
    ensures forall s :: s in steps ==> Retry.Budget(s.maxRetries) <= r
  {
    if steps == [] then 0
    else
      var rest, own := MaxBudget(steps[1..]), Retry.Budget(steps[0].maxRetries);
      if own > rest then own else rest
  }

  function Remaining(step: W.Step, visits: W.Visits): nat {
    var max := if step.maxVisits.Some? then step.maxVisits.value else 0;
    if W.CountOf(visits, step.name) < max then max - W.CountOf(visits, step.name) else 0
  }

  /** Visits still allowed, over all steps. */
  function RemainingVisits(steps: seq<W.Step>, visits: W.Visits): nat {
    if steps == [] then 0 else Remaining(steps[0], visits) + RemainingVisits(steps[1..], visits)
  }

  lemma {:induction false} OtherVisitsUntouched(steps: seq<W.Step>, visits: W.Visits, name: string, count: nat)
    requires forall s :: s in steps ==> s.name != name
    ensures RemainingVisits(steps, visits[name := count]) == RemainingVisits(steps, visits)
  {
    if steps != [] {
      OtherVisitsUntouched(steps[1..], visits, name, count);
    }
  }

  /** A granted visit uses up exactly one of the remaining visits. */
  lemma {:induction false} GrantUsesOneVisit(steps: seq<W.Step>, visits: W.Visits, i: nat)
    requires W.UniqueNames(steps) && i < |steps|
    requires steps[i].maxVisits.Some? && W.CountOf(visits, steps[i].name) + 1 <= steps[i].maxVisits.value
    ensures var name := steps[i].name;
            RemainingVisits(steps, visits[name := W.CountOf(visits, name) + 1]) == RemainingVisits(steps, visits) - 1
  {
    if i == 0 {
      OtherVisitsUntouched(steps[1..], visits, steps[0].name, W.CountOf(visits, steps[0].name) + 1);
    } else {
      GrantUsesOneVisit(steps[1..], visits, i - 1);
    }
  }

  // ── The measure ─────────────────────────────────────────────────────

  /** Failures of `step` the tracker still holds against it. */
  function Burnt(retry: Retry.RetryState, step: string): nat {
    if retry.lastStep == Some(step) then Retry.CountOf(retry, step) else 0
  }

  /** `n` whole visits' worth of outcomes. */
  function VisitsWorth(n: nat, perVisit: nat): nat {
    if n == 0 then 0 else perVisit + VisitsWorth(n - 1, perVisit)
  }

  lemma {:induction false} VisitsWorthIsProduct(n: nat, perVisit: nat)
    ensures VisitsWorth(n, perVisit) == n * perVisit
  {
    if n > 0 {
      VisitsWorthIsProduct(n - 1, perVisit);
    }
  }

  function VisitsLeft(engine: W.Engine, visits: W.Visits): nat {
    VisitsWorth(RemainingVisits(engine.steps, visits), MaxBudget(engine.steps) + 1)
  }

  /** Outcomes the execution can still see: whole visits left, then attempts left in this one. */
  function Energy(engine: W.Engine, exec: ExecView, step: string): (e: nat)
    ensures e > 0
  {
    var r := MaxBudget(engine.steps);
    VisitsLeft(engine, exec.visits) + (r + 1 - Min(Burnt(exec.retry, step), r))
  }

  /** Scheduler moves left before the execution settles. */
  function Work(engines: Engines, exec: ExecView): nat {
    if exec.workflow !in engines then 0
    else
      var engine := engines[exec.workflow];
      match exec.phase
      case Ready(step, _) => 2 * Energy(engine, exec, step)
      case NeedsFailure(step, _) => 2 * Energy(engine, exec, step) - 1
      case NeedsAdvance(_) => 2 * VisitsLeft(engine, exec.visits) + 1
      case AwaitingStep => 0
      case Done => 0
  }

  /** The execution's workflow is loaded and bounded, and the step its phase names is declared. */
  ghost predicate WellPlaced(engines: Engines, exec: ExecView) {
    && (exec.phase.Done? <==> exec.status != Running)
    && (exec.status == Running ==>
          && exec.workflow in engines
          && Bounded(engines[exec.workflow])
          && (exec.phase.AwaitingStep? || W.Declared(engines[exec.workflow], exec.phase.step)))
  }

  lemma PickIsDeclared(engine: W.Engine, current: string, output: string)
    requires Bounded(engine)
    ensures var pick := W.PickNext(engine, current, output);
            pick.Primary? ==> W.Declared(engine, pick.target)
  {
    var at := W.IndexOf(engine.steps, current);
    if at.Some? {
      assert BoundedStep(engine, engine.steps[at.value]);
      if W.FirstMatch(engine.steps[at.value].transitions, output).None? && at.value + 1 < |engine.steps| {
        W.UniqueIndex(engine.steps, at.value + 1);
      }
    }
  }

  /** In a bounded workflow a counted pick either uses up a visit of its target or escalates. */
  lemma CountedPick(engine: W.Engine, target: string, visits: W.Visits)
    requires Bounded(engine) && W.Declared(engine, target)
    ensures var (advance, visits') := W.CheckVisits(engine, target, visits);
            && W.FailJump(engine, target, visits) == (advance, visits')
            && (advance == W.Goto(target) || advance == W.Escalate)
            && (advance == W.Goto(target) ==>
                  VisitsLeft(engine, visits) == VisitsLeft(engine, visits') + MaxBudget(engine.steps) + 1)
  {
    var i := W.IndexOf(engine.steps, target).value;
    assert BoundedStep(engine, engine.steps[i]);
    if W.CountOf(visits, target) + 1 <= engine.steps[i].maxVisits.value {
      GrantUsesOneVisit(engine.steps, visits, i);
    }
  }

  lemma AdvanceLosesWork(engines: Engines, exec: ExecView, step: string)
    requires WellPlaced(engines, exec) && exec.phase == NeedsAdvance(step)
    ensures WellPlaced(engines, Advance(engines, exec, step))
    ensures Work(engines, Advance(engines, exec, step)) < Work(engines, exec)
  {
    var engine := engines[exec.workflow];
    PickIsDeclared(engine, step, Output(exec));
    var pick := W.PickNext(engine, step, Output(exec));
    if pick.Primary? {
      CountedPick(engine, pick.target, exec.visits);
    }
  }

  lemma FailLosesWork(engines: Engines, exec: ExecView, step: string, error: string)
    requires WellPlaced(engines, exec) && exec.phase == NeedsFailure(step, error)
    ensures WellPlaced(engines, Fail(engines, exec, step))
    ensures Work(engines, Fail(engines, exec, step)) < Work(engines, exec)
  {
    var engine := engines[exec.workflow];
    var def := Lookup(engines, exec.workflow, step).value;
    assert def in engine.steps && BoundedStep(engine, def);
    var (retry, decision) := Retry.Record(exec.retry, step, def.maxRetries, ForceEscalate(exec));
    if decision.Exhausted? && def.onFail.Some? && def.onFail != Some("escalate") {
      CountedPick(engine, def.onFail.value, exec.visits);
    }
  }

  lemma ActLosesWork(engines: Engines, exec: ExecView, step: string, attempt: nat, merged: Result<(), string>)
    requires WellPlaced(engines, exec) && exec.phase == Ready(step, attempt) && IsActionStep(engines, exec, step)
    ensures WellPlaced(engines, Act(engines, exec, step, merged))
    ensures Work(engines, Act(engines, exec, step, merged)) < Work(engines, exec)
  {
  }

  /** Every change the scheduler reports leaves less work, and keeps every step name declared. */
  lemma ProcessLosesWork(engines: Engines, exec: ExecView, merged: Result<(), string>)
    requires WellPlaced(engines, exec)
    ensures WellPlaced(engines, Process(engines, exec, merged).0)
    ensures Process(engines, exec, merged).1 ==> Work(engines, Process(engines, exec, merged).0) < Work(engines, exec)
  {
    match exec.phase
    case NeedsAdvance(step) => AdvanceLosesWork(engines, exec, step);
    case NeedsFailure(step, error) => FailLosesWork(engines, exec, step, error);
    case Ready(step, attempt) =>
      if IsActionStep(engines, exec, step) {
        ActLosesWork(engines, exec, step, attempt, merged);
      }
    case _ =>
  }

  // ── A whole execution ───────────────────────────────────────────────

  lemma RunLosesWork(engines: Engines, exec: ExecView, outcome: Outcome)
    requires WellPlaced(engines, exec) && exec.phase.Ready? && !IsActionStep(engines, exec, exec.phase.step)
    ensures WellPlaced(engines, Reported(engines, exec, outcome))
    ensures Work(engines, Reported(engines, exec, outcome)) < Work(engines, exec)
  {
    var engine, step := engines[exec.workflow], exec.phase.step;
    var reported := Reported(engines, exec, outcome);
    assert reported.visits == exec.visits && reported.workflow == exec.workflow;
    if outcome.Passed? {
      assert reported.phase == NeedsAdvance(step);
    } else {
      assert reported.phase.NeedsFailure? && reported.phase.step == step && reported.retry == exec.retry;
      assert Energy(engine, reported, step) == Energy(engine, exec, step);
    }
  }

  lemma ReportedLosesWork(engines: Engines, exec: ExecView, outcome: Outcome)
    requires WellPlaced(engines, exec) && exec.phase.Ready?
    ensures var reported := Reported(engines, exec, outcome);
            && WellPlaced(engines, reported)
            && reported.workflow == exec.workflow
            && reported.status == Running
            && (reported.phase.NeedsAdvance? || reported.phase.NeedsFailure?)
            && Work(engines, reported) < Work(engines, exec)
  {
    if IsActionStep(engines, exec, exec.phase.step) {
      ActLosesWork(engines, exec, exec.phase.step, exec.phase.attempt, MergeResult(outcome));
    } else {
      RunLosesWork(engines, exec, outcome);
    }
  }

  lemma SettlesInOneMove(engines: Engines, exec: ExecView, merged: Result<(), string>)
    requires WellPlaced(engines, exec) && (exec.phase.NeedsAdvance? || exec.phase.NeedsFailure?)
    ensures var exec' := Process(engines, exec, merged).0;
            exec'.phase.Ready? || exec'.status in {Completed, Escalated}
  {
    if exec.phase.NeedsFailure? {
      var def := Lookup(engines, exec.workflow, exec.phase.step).value;
      if def.onFail.Some? {
        assert !W.FailJump(engines[exec.workflow], def.onFail.value, exec.visits).0.Complete?;
      }
    }
  }

  lemma ReadyHasWork(engines: Engines, exec: ExecView)
    requires WellPlaced(engines, exec) && exec.phase.Ready?
    ensures Work(engines, exec) > 0 && Work(engines, exec) % 2 == 0
  {
  }

  lemma AnswerLosesEnergy(engines: Engines, exec: ExecView, outcome: Outcome)
    requires WellPlaced(engines, exec) && exec.phase.Ready?
    ensures var exec' := Answer(engines, exec, outcome);
            && WellPlaced(engines, exec')
            && exec'.workflow == exec.workflow
            && (exec'.phase.Ready? || exec'.status in {Completed, Escalated})
            && (exec'.phase.Ready? ==> Work(engines, exec') <= Work(engines, exec) - 2)
  {
    var reported := Reported(engines, exec, outcome);
    ReportedLosesWork(engines, exec, outcome);
    ProcessLosesWork(engines, reported, MergeResult(outcome));
    ProcessKeepsWorkflow(engines, reported, MergeResult(outcome));
    SettlesInOneMove(engines, reported, MergeResult(outcome));
    var exec' := Answer(engines, exec, outcome);
    if exec'.phase.Ready? {
      ReadyHasWork(engines, exec);
      ReadyHasWork(engines, exec');
    }
  }

  lemma {:induction false} EndsWithinEnergy(engines: Engines, exec: ExecView, outcomes: seq<Outcome>)
    requires WellPlaced(engines, exec) && exec.phase.Ready?
    requires 2 * |outcomes| >= Work(engines, exec)
    ensures AnswerAll(engines, exec, outcomes).status in {Completed, Escalated}
    decreases |outcomes|
  {
    ReadyHasWork(engines, exec);
    AnswerLosesEnergy(engines, exec, outcomes[0]);
    var exec' := Answer(engines, exec, outcomes[0]);
    if exec'.phase.Ready? {
      EndsWithinEnergy(engines, exec', outcomes[1..]);
    }
  }

  function SumOfMaxVisits(steps: seq<W.Step>): nat {
    if steps == [] then 0
    else (if steps[0].maxVisits.Some? then steps[0].maxVisits.value else 0) + SumOfMaxVisits(steps[1..])
  }

  lemma {:induction false} AllVisitsRemainAtFirst(steps: seq<W.Step>)
    ensures RemainingVisits(steps, map[]) == SumOfMaxVisits(steps)
  {
    if steps != [] {
      AllVisitsRemainAtFirst(steps[1..]);
    }
  }

  function MaxOutcomes(engine: W.Engine): nat {
    (1 + SumOfMaxVisits(engine.steps)) * (MaxBudget(engine.steps) + 1)
  }

  lemma FreshExecutionEnds(engines: Engines, exec: ExecView, outcomes: seq<Outcome>)
    requires WellPlaced(engines, exec) && exec.phase.Ready?
    requires exec.visits == map[] && exec.retry == Retry.NEW_STATE
    requires |outcomes| >= MaxOutcomes(engines[exec.workflow])
    ensures AnswerAll(engines, exec, outcomes).status in {Completed, Escalated}
  {
    var engine := engines[exec.workflow];
    AllVisitsRemainAtFirst(engine.steps);
    VisitsWorthIsProduct(1 + SumOfMaxVisits(engine.steps), MaxBudget(engine.steps) + 1);
    assert VisitsWorth(1 + RemainingVisits(engine.steps, map[]), MaxBudget(engine.steps) + 1)
        == Energy(engine, exec, exec.phase.step);
    EndsWithinEnergy(engines, exec, outcomes);
  }

  /**
   A new execution of a bounded workflow is completed or escalated after at most
   (1 + sum of max_visits) * (R + 1) outcomes, whatever they are.
   */
  lemma BoundedExecutionEnds(engines: Engines, workflow: string, vars: map<string, string>, origin: Origin,
                             startStep: Option<string>, outcomes: seq<Outcome>)
    requires workflow in engines && Bounded(engines[workflow])
    requires W.Declared(engines[workflow], FirstStep(engines, workflow, startStep))
    requires |outcomes| >= MaxOutcomes(engines[workflow])
    ensures AnswerAll(engines, Created(engines, workflow, vars, origin, startStep), outcomes).status
            in {Completed, Escalated}
  {
    var exec := Created(engines, workflow, vars, origin, startStep);
    assert WellPlaced(engines, exec);
    FreshExecutionEnds(engines, exec, outcomes);
  }

  // ── The bound is exact ──────────────────────────────────────────────

  /** One step that loops to itself, with these limits. */
  function LoopEngine(maxVisits: nat, maxRetries: nat): W.Engine {
    W.Engine("w", [W.Step("s", None, [W.Transition("*", "s")], Some(maxRetries), Some(maxVisits), None, None)])
  }

  /** The loop's execution after `k` counted visits and `j` failures of the current one. */
  predicate InLoop(exec: ExecView, k: nat, j: nat) {
    && exec.workflow == "w" && exec.status == Running && exec.phase.Ready? && exec.phase.step == "s"
    && W.CountOf(exec.visits, "s") == k && exec.signals == []
    && (if exec.retry.lastStep == Some("s") then Retry.CountOf(exec.retry, "s") == j else exec.retry == Retry.NEW_STATE && j == 0)
  }

  /** Every visit fails as often as it may and then passes, until the visits are used up. */
  function SlowestFrom(maxVisits: nat, maxRetries: nat, k: nat, j: nat): (r: seq<Outcome>)
    requires k <= maxVisits && j <= maxRetries
    ensures |r| == VisitsWorth(maxVisits - k, maxRetries + 1) + maxRetries - j
    decreases maxVisits - k, maxRetries - j
  {
    if j < maxRetries then [FailedWith("", [])] + SlowestFrom(maxVisits, maxRetries, k, j + 1)
    else if k < maxVisits then [Passed("", [])] + SlowestFrom(maxVisits, maxRetries, k + 1, 0)
    else []
  }

  lemma LoopStepIsKnown(maxVisits: nat, maxRetries: nat)
    ensures var engine := LoopEngine(maxVisits, maxRetries);
            && W.IndexOf(engine.steps, "s") == Some(0)
            && W.PickNext(engine, "s", "") == W.Primary("s")
            && MaxOutcomes(engine) == (1 + maxVisits) * (maxRetries + 1) && Bounded(engine)
  {
    var engine := LoopEngine(maxVisits, maxRetries);
    assert engine.steps[1..] == [];
    assert W.TransitionMatches("*", "");
  }

  /** One outcome in the loop: a failure within budget is retried, a pass is a visit more. */
  lemma LoopAnswer(maxVisits: nat, maxRetries: nat, exec: ExecView, k: nat, j: nat, passed: bool, rest: seq<Outcome>)
    returns (exec': ExecView)
    requires InLoop(exec, k, j) && if passed then k < maxVisits else j < maxRetries
    ensures InLoop(exec', if passed then k + 1 else k, if passed then 0 else j + 1)
    ensures var engines := map["w" := LoopEngine(maxVisits, maxRetries)];
            AnswerAll(engines, exec, [if passed then Passed("", []) else FailedWith("", [])] + rest)
            == AnswerAll(engines, exec', rest)
  {
    var outcome := if passed then Passed("", []) else FailedWith("", []);
    LoopStepIsKnown(maxVisits, maxRetries);
    assert ([outcome] + rest)[1..] == rest;
    exec' := Answer(map["w" := LoopEngine(maxVisits, maxRetries)], exec, outcome);
  }

  lemma {:induction false} LoopStaysRunning(maxVisits: nat, maxRetries: nat, exec: ExecView, k: nat, j: nat)
    requires k <= maxVisits && j <= maxRetries && InLoop(exec, k, j)
    ensures AnswerAll(map["w" := LoopEngine(maxVisits, maxRetries)], exec, SlowestFrom(maxVisits, maxRetries, k, j)).status
            == Running
    decreases maxVisits - k, maxRetries - j
  {
    if j < maxRetries {
      var exec' := LoopAnswer(maxVisits, maxRetries, exec, k, j, false, SlowestFrom(maxVisits, maxRetries, k, j + 1));
      LoopStaysRunning(maxVisits, maxRetries, exec', k, j + 1);
    } else if k < maxVisits {
      var exec' := LoopAnswer(maxVisits, maxRetries, exec, k, j, true, SlowestFrom(maxVisits, maxRetries, k + 1, 0));
      LoopStaysRunning(maxVisits, maxRetries, exec', k + 1, 0);
    }
  }

  lemma SlowestLength(maxVisits: nat, maxRetries: nat)
    ensures |SlowestFrom(maxVisits, maxRetries, 0, 0)| == (1 + maxVisits) * (maxRetries + 1) - 1
  {
    VisitsWorthIsProduct(maxVisits, maxRetries + 1);
    assert (1 + maxVisits) * (maxRetries + 1) == maxVisits * (maxRetries + 1) + (maxRetries + 1);
  }

  lemma LoopStarts(maxVisits: nat, maxRetries: nat)
    ensures InLoop(Created(map["w" := LoopEngine(maxVisits, maxRetries)], "w", map[], Manual(None), None), 0, 0)
  {
  }

  /** For all limits some bounded workflow is still running one outcome before the bound. */
  lemma BoundIsExact(maxVisits: nat, maxRetries: nat)
    ensures var engine, outcomes := LoopEngine(maxVisits, maxRetries), SlowestFrom(maxVisits, maxRetries, 0, 0);
            && Bounded(engine) && |outcomes| == MaxOutcomes(engine) - 1
            && AnswerAll(map["w" := engine], Created(map["w" := engine], "w", map[], Manual(None), None), outcomes).status
               == Running
  {
    LoopStepIsKnown(maxVisits, maxRetries);
    SlowestLength(maxVisits, maxRetries);
    LoopStarts(maxVisits, maxRetries);
    var engines := map["w" := LoopEngine(maxVisits, maxRetries)];
    LoopStaysRunning(maxVisits, maxRetries, Created(engines, "w", map[], Manual(None), None), 0, 0);
  }
}
