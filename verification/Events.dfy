/** The canonical event envelope and the payloads the model reads (ox-core/src/events.rs). */
module Events {
  import opened Prelude

  const SOURCE_OX := "ox"

  datatype SignalMatch = SignalMatch(name: string, line: string, retriable: bool)

  /** What caused an execution: a person, or the event with this (source, kind, subject). */
  datatype Origin = Manual(user: Option<string>) | FromEvent(source: string, kind: string, subjectId: string, seqNo: nat)

  /** Structural match for trigger dedup: the firing seq is ignored, manual origins never match. */
  predicate OriginsMatch(a: Origin, b: Origin) {
    a.FromEvent? && b.FromEvent? && a.source == b.source && a.kind == b.kind && a.subjectId == b.subjectId
  }

  datatype ExecutionStatus = Running | Completed | Escalated | Cancelled

  datatype AttemptId = AttemptId(execution: string, step: string, attempt: nat)

  /** Kind and payload together. `Other` is a kind that is not folded, or a payload that does not parse. */
  datatype Body =
    | RunnerRegistered(runner: string, environment: string)
    | RunnerDrained(runner: string)
    | HeartbeatMissed(runner: string, orphan: Option<AttemptId>)
    | RunnerRecovered(runner: string)
    | ExecutionCreated(created: string, workflow: string, vars: map<string, string>, origin: Origin,
                       startStep: Option<string>)
    | ExecutionCompleted(completed: string)
    | ExecutionEscalated(escalated: string)
    | ExecutionCancelled(cancelled: string)
    | StepDispatched(at: AttemptId, runner: string, timeoutSecs: Option<nat>)
    | StepRunning(at: AttemptId, connectAddr: Option<string>)
    | StepDone(at: AttemptId, output: string)
    | StepSignals(at: AttemptId, signals: seq<string>, matches: seq<SignalMatch>)
    | StepConfirmed(at: AttemptId)
    | StepFailed(at: AttemptId, error: string)
    | StepTimeout(at: AttemptId, timeout: nat)
    | StepAdvanced(advanced: string, fromStep: string, toStep: string)
    | SecretSet(name: string, value: string)
    | SecretDeleted(name: string)
    | Other(kind: string, data: string)

  datatype Envelope = Envelope(seqNo: nat, ts: int, source: string, subjectId: string, body: Body)

  function KindOf(body: Body): string {
    match body
    case RunnerRegistered(_, _) => "runner.registered"
    case RunnerDrained(_) => "runner.drained"
    case HeartbeatMissed(_, _) => "runner.heartbeat_missed"
    case RunnerRecovered(_) => "runner.recovered"
    case ExecutionCreated(_, _, _, _, _) => "execution.created"
    case ExecutionCompleted(_) => "execution.completed"
    case ExecutionEscalated(_) => "execution.escalated"
    case ExecutionCancelled(_) => "execution.cancelled"
    case StepDispatched(_, _, _) => "step.dispatched"
    case StepRunning(_, _) => "step.running"
    case StepDone(_, _) => "step.done"
    case StepSignals(_, _, _) => "step.signals"
    case StepConfirmed(_) => "step.confirmed"
    case StepFailed(_, _) => "step.failed"
    case StepTimeout(_, _) => "step.timeout"
    case StepAdvanced(_, _, _) => "step.advanced"
    case SecretSet(_, _) => "secret.set"
    case SecretDeleted(_) => "secret.deleted"
    case Other(kind, _) => kind
  }
}
