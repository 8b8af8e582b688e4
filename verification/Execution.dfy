/**
 The herder's phase machine for one execution (ox-herder/src/herder.rs), as functions on its local
 view: the event handlers' state updates, and what the scheduler does with each phase.
 */
module Execution {
  import opened Prelude
  import opened Events
  import Retry
  import W = Workflow

  datatype Phase =
    | AwaitingStep
    | NeedsAdvance(step: string)
    | NeedsFailure(step: string, error: string)
    | Ready(step: string, attempt: nat)
    | Done

  datatype ExecView = ExecView(
    vars: map<string, string>,
    origin: Origin,
    workflow: string,
    status: ExecutionStatus,
    phase: Phase,
    visits: W.Visits,
    lastOutput: Option<string>,
    retry: Retry.RetryState,
    signals: seq<SignalMatch>)

  type Engines = map<string, W.Engine>

  // ── Event handlers ──────────────────────────────────────────────────

  function FirstStep(engines: Engines, workflow: string, startStep: Option<string>): string {
    if startStep.Some? then startStep.value
    else if workflow in engines && engines[workflow].steps != [] then engines[workflow].steps[0].name
    else ""
  }

  function Created(engines: Engines, workflow: string, vars: map<string, string>, origin: Origin,
                   startStep: Option<string>): ExecView
  {
    ExecView(vars, origin, workflow, Running, Ready(FirstStep(engines, workflow, startStep), 1), map[], None,
             Retry.NEW_STATE, [])
  }

  function OnDispatched(exec: ExecView, step: string, replaying: bool): ExecView {
    exec.(phase := if exec.status == Running then AwaitingStep else exec.phase,
          signals := [],
          visits := if replaying then exec.visits[step := W.CountOf(exec.visits, step) + 1] else exec.visits)
  }

  function OnDone(exec: ExecView, output: string): ExecView {
    if exec.status == Running then exec.(lastOutput := Some(output)) else exec
  }

  function OnConfirmed(exec: ExecView, step: string): ExecView {
    if exec.status == Running then exec.(retry := Retry.NEW_STATE, phase := NeedsAdvance(step)) else exec
  }

  function OnFailed(exec: ExecView, step: string, error: string): ExecView {
    if exec.status == Running then exec.(phase := NeedsFailure(step, error)) else exec
  }

  /** A timed-out step is made ready again without burning a retry. */
  function OnTimeout(exec: ExecView, at: AttemptId): ExecView {
    if exec.status == Running then exec.(phase := Ready(at.step, at.attempt)) else exec
  }

  function OnHeartbeatMissed(exec: ExecView, at: AttemptId): ExecView {
    if exec.phase.AwaitingStep? then exec.(phase := Ready(at.step, at.attempt)) else exec
  }

  function OnTerminal(exec: ExecView, status: ExecutionStatus): ExecView {
    exec.(status := status, phase := Done)
  }

  // ── What the scheduler does with a phase ────────────────────────────

  function Lookup(engines: Engines, workflow: string, step: string): Option<W.Step> {
    if workflow in engines then W.Lookup(engines[workflow], step) else None
  }

  predicate IsActionStep(engines: Engines, exec: ExecView, step: string) {
    var def := Lookup(engines, exec.workflow, step);
    def.Some? && def.value.action.Some?
  }

  function Output(exec: ExecView): string {
    if exec.lastOutput.Some? then exec.lastOutput.value else ""
  }

  function Advance(engines: Engines, exec: ExecView, step: string): ExecView {
    if exec.workflow !in engines then exec
    else
      var (advance, visits) := W.NextStep(engines[exec.workflow], step, Output(exec), exec.visits);
      match advance
      case Goto(next) =>
        exec.(visits := visits, phase := Ready(next, if next in visits then visits[next] else 1))
      case Complete => OnTerminal(exec.(visits := visits), Completed)
      case Escalate => OnTerminal(exec.(visits := visits), Escalated)
  }

  predicate ForceEscalate(exec: ExecView) {
    exists i :: 0 <= i < |exec.signals| && !exec.signals[i].retriable
  }

  function Fail(engines: Engines, exec: ExecView, step: string): ExecView {
    var def := Lookup(engines, exec.workflow, step);
    if def.None? then exec
    else
      var (retry, decision) := Retry.Record(exec.retry, step, def.value.maxRetries, ForceEscalate(exec));
      var exec := exec.(retry := retry);
      if decision.Retry? then exec.(phase := Ready(step, decision.attempt))
      else if def.value.onFail.None? || def.value.onFail == Some("escalate") then OnTerminal(exec, Escalated)
      else
        var (advance, visits) := W.FailJump(engines[exec.workflow], def.value.onFail.value, exec.visits);
        match advance
        case Goto(next) => exec.(visits := visits, phase := Ready(next, 1))
        case Escalate => OnTerminal(exec.(visits := visits), Escalated)
        case Complete => exec
  }

  /** `merged` is what the server answers to the merge request. */
  function Act(engines: Engines, exec: ExecView, step: string, merged: Result<(), string>): ExecView
    requires IsActionStep(engines, exec, step)
  {
    var action := Lookup(engines, exec.workflow, step).value.action.value;
    if action == "merge_to_main" then
      match merged
      case Ok(_) => exec.(lastOutput := Some("pass"), retry := Retry.NEW_STATE, phase := NeedsAdvance(step))
      case Err(error) => exec.(phase := NeedsFailure(step, error))
    else exec.(phase := NeedsFailure(step, "unknown action: " + action))
  }

  /** One visit of the scheduler: the new view, and whether it reports a change. */
  function Process(engines: Engines, exec: ExecView, merged: Result<(), string>): (ExecView, bool) {
    match exec.phase
    case NeedsAdvance(step) => (Advance(engines, exec, step), true)
    case NeedsFailure(step, _) => (Fail(engines, exec, step), true)
    case Ready(step, _) =>
      if IsActionStep(engines, exec, step) then (Act(engines, exec, step, merged), true) else (exec, false)
    case AwaitingStep => (exec, false)
    case Done => (exec, false)
  }

  /**
   When does the scheduler report a change although nothing moved, and so never settle? Exactly when
   the workflow is not loaded, or a failed step is not declared in it.
   */
  lemma StuckIff(engines: Engines, exec: ExecView, merged: Result<(), string>)
    ensures Process(engines, exec, merged) == (exec, true)
      <==> || (exec.phase.NeedsAdvance? && exec.workflow !in engines)
           || (exec.phase.NeedsFailure? && Lookup(engines, exec.workflow, exec.phase.step).None?)
  {
    if exec.phase.NeedsFailure? && Lookup(engines, exec.workflow, exec.phase.step).Some? {
      var step := Lookup(engines, exec.workflow, exec.phase.step).value;
      if step.onFail.Some? {
        assert !W.FailJump(engines[exec.workflow], step.onFail.value, exec.visits).0.Complete?;
      }
    }
  }

  /**
   A failed action step with a fresh tracker is retried exactly if its budget allows one retry and no
   non-retriable signal is remembered.
   */
  lemma ActionStepRetriesIff(engines: Engines, exec: ExecView, error: string)
    requires exec.status == Running && exec.retry == Retry.NEW_STATE
    requires exec.phase.Ready? && IsActionStep(engines, exec, exec.phase.step)
    ensures var step, failed := exec.phase.step, Process(engines, exec, Err(error)).0;
            && failed.phase.NeedsFailure? && failed.signals == exec.signals
            && (Process(engines, failed, Err(error)).0.phase == Ready(step, 2)
                <==> !ForceEscalate(exec) && Retry.Budget(Lookup(engines, exec.workflow, step).value.maxRetries) > 0)
  {
    var failed := Process(engines, exec, Err(error)).0;
    assert ForceEscalate(failed) <==> ForceEscalate(exec);
  }

  lemma ProcessKeepsWorkflow(engines: Engines, exec: ExecView, merged: Result<(), string>)
    ensures Process(engines, exec, merged).0.workflow == exec.workflow
    ensures !Process(engines, exec, merged).1 ==> Process(engines, exec, merged).0 == exec
  {
  }

  // ── A whole execution ───────────────────────────────────────────────

  /** What comes back of a step; a runner may report signals whether the step passed or failed. */
  datatype Outcome = Passed(output: string, found: seq<SignalMatch>) | FailedWith(error: string, signals: seq<SignalMatch>)

  function MergeResult(outcome: Outcome): Result<(), string> {
    match outcome
    case Passed(_, _) => Ok(())
    case FailedWith(error, _) => Err(error)
  }

  /** The step last made ready is run, its outcome reported, and the scheduler reacts to it. */
  function Answer(engines: Engines, exec: ExecView, outcome: Outcome): ExecView
    requires exec.phase.Ready?
  {
    Process(engines, Reported(engines, exec, outcome), MergeResult(outcome)).0
  }

  /** An action step is run inline; any other is dispatched, and its events come back. */
  function Reported(engines: Engines, exec: ExecView, outcome: Outcome): ExecView
    requires exec.phase.Ready?
  {
    var step := exec.phase.step;
    if IsActionStep(engines, exec, step) then Act(engines, exec, step, MergeResult(outcome))
    else
      var started := OnDispatched(exec, step, false);
      match outcome
      case Passed(output, found) => OnConfirmed(OnDone(started.(signals := found), output), step)
      case FailedWith(error, signals) => OnFailed(started.(signals := signals), step, error)
  }

  function AnswerAll(engines: Engines, exec: ExecView, outcomes: seq<Outcome>): ExecView
    decreases |outcomes|
  {
    if outcomes == [] || !exec.phase.Ready? then exec
    else AnswerAll(engines, Answer(engines, exec, outcomes[0]), outcomes[1..])
  }

  // ── Signals that outlive their step ─────────────────────────────────

  /** A confirmation resets the retry tracker, but not the signals of the attempt it confirms. */
  lemma ConfirmKeepsSignals(earlier: ExecView, at: string)
    ensures OnConfirmed(earlier, at).signals == earlier.signals
    ensures earlier.status == Running ==> OnConfirmed(earlier, at).retry == Retry.NEW_STATE
  {
  }

  predicate AllRetriable(signals: seq<SignalMatch>) {
    forall i :: 0 <= i < |signals| ==> signals[i].retriable
  }

  /**
   A step that passes and reports signals is followed by an action step with budget left. The first
   failed merge is then retried exactly if those signals, which are not the action step's own, are all
   retriable; otherwise the execution escalates at once.
   */
  lemma StaleSignalsDecideRetry(engines: Engines, exec: ExecView, output: string, found: seq<SignalMatch>, error: string,
                                next: string)
    requires exec.status == Running && exec.workflow in engines && exec.phase.Ready?
    requires !IsActionStep(engines, exec, exec.phase.step) && IsActionStep(engines, exec, next)
    requires W.PickNext(engines[exec.workflow], exec.phase.step, output) == W.Primary(next)
    requires !W.Overflows(engines[exec.workflow], next, exec.visits)
    requires var def := Lookup(engines, exec.workflow, next).value;
             def.onFail.None? && Retry.Budget(def.maxRetries) > 0
    ensures var waiting := Answer(engines, exec, Passed(output, found));
            && waiting.phase.Ready? && waiting.phase.step == next && waiting.signals == found
            && var failed := Answer(engines, waiting, FailedWith(error, []));
               (AllRetriable(found) ==> failed.phase == Ready(next, 2)) && (!AllRetriable(found) ==> failed.status == Escalated)
  {
    var waiting := Answer(engines, exec, Passed(output, found));
    assert Output(Reported(engines, exec, Passed(output, found))) == output;
    assert waiting.retry == Retry.NEW_STATE && waiting.workflow == exec.workflow;
    assert ForceEscalate(waiting) <==> !AllRetriable(found);
    ActionStepRetriesIff(engines, waiting, error);
  }

  /** A runner step, then a merge with three retries. */
  const MERGE_AFTER := W.Engine("w", [W.Step("build", None, [], None, None, None, None),
                                      W.Step("merge", Some("merge_to_main"), [], Some(3), None, None, None)])

  /** The failing run: dispatch, a non-retriable signal, a confirmation, and one refused merge of four allowed. */
  lemma StaleSignalEscalatesMerge(vars: map<string, string>, origin: Origin, error: string)
    ensures var engines := map["w" := MERGE_AFTER];
            var found := [SignalMatch("auth_failed", "", false)];
            var exec := Created(engines, "w", vars, origin, None);
            AnswerAll(engines, exec, [Passed("ok", found), FailedWith(error, [])]).status == Escalated
  {
    var engines := map["w" := MERGE_AFTER];
    var found := [SignalMatch("auth_failed", "", false)];
    var exec := Created(engines, "w", vars, origin, None);
    var outcomes := [Passed("ok", found), FailedWith(error, [])];
    assert MERGE_AFTER.steps[1..][0].name == "merge";
    assert W.IndexOf(MERGE_AFTER.steps, "build") == Some(0) && W.IndexOf(MERGE_AFTER.steps, "merge") == Some(1);
    StaleSignalsDecideRetry(engines, exec, "ok", found, error, "merge");
    assert !found[0].retriable;
    var waiting := Answer(engines, exec, Passed("ok", found));
    var failed := Answer(engines, waiting, FailedWith(error, []));
    assert !AllRetriable(found) && failed.status == Escalated;
    assert outcomes[1..] == [FailedWith(error, [])] && outcomes[1..][1..] == [];
    assert AnswerAll(engines, waiting, outcomes[1..]) == AnswerAll(engines, failed, []) == failed;
    assert AnswerAll(engines, exec, outcomes) == AnswerAll(engines, waiting, outcomes[1..]);
  }
}
