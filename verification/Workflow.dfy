/**
 The step graph of a workflow and its visit limits (ox-core/src/workflow.rs, WorkflowEngine), with
 the on_fail jump of the herder (ox-herder/src/herder.rs, do_failure), which counts visits the same
 way. Visit counts are a map from step name to the number of times the step was picked.
 */
module Workflow {
  import opened Prelude

  datatype Transition = Transition(pattern: string, goto: string)

  datatype Step = Step(
    name: string,
    action: Option<string>,
    transitions: seq<Transition>,
    maxRetries: Option<nat>,
    maxVisits: Option<nat>,
    maxVisitsGoto: Option<string>,
    onFail: Option<string>)

  /** Steps in declaration order; the source keeps them in an insertion-ordered map keyed by name. */
  datatype Engine = Engine(name: string, steps: seq<Step>)

  datatype StepAdvance = Goto(step: string) | Escalate | Complete

  type Visits = map<string, nat>

  function CountOf(visits: Visits, step: string): nat {
    if step in visits then visits[step] else 0
  }

  ghost predicate UniqueNames(steps: seq<Step>) {
    forall i, j :: 0 <= i < j < |steps| ==> steps[i].name != steps[j].name
  }

  function IndexOf(steps: seq<Step>, name: string): (r: Option<nat>)
    ensures r.Some? ==> r.value < |steps| && steps[r.value].name == name
    ensures r.None? ==> forall i :: 0 <= i < |steps| ==> steps[i].name != name
  {
    if steps == [] then None
    else if steps[0].name == name then Some(0)
    else match IndexOf(steps[1..], name)
      case None => None
      case Some(i) => Some(i + 1)
  }

  function Lookup(engine: Engine, name: string): (r: Option<Step>)
    ensures r.Some? ==> r.value in engine.steps && r.value.name == name
  {
    match IndexOf(engine.steps, name)
    case None => None
    case Some(i) => Some(engine.steps[i])
  }

  predicate Declared(engine: Engine, name: string) {
    IndexOf(engine.steps, name).Some?
  }

  /** Insertion by name: a repeated name replaces the earlier step but keeps its position. */
  function Insert(steps: seq<Step>, step: Step): seq<Step> {
    match IndexOf(steps, step.name)
    case Some(at) => steps[at := step]
    case None => steps + [step]
  }

  function Load(defs: seq<Step>): seq<Step> {
    if defs == [] then [] else Insert(Load(defs[..|defs| - 1]), defs[|defs| - 1])
  }

  method FromDef(name: string, defs: seq<Step>) returns (engine: Engine)
    ensures engine == Engine(name, Load(defs))
  {
    var steps: seq<Step> := [];
    for n := 0 to |defs|
      invariant steps == Load(defs[..n])
    {
      steps := Insert(steps, defs[n]);
      assert defs[..n + 1][..n] == defs[..n];
    }
    assert defs[..|defs|] == defs;
    engine := Engine(name, steps);
  }

  /** The last definition given for a name. */
  function LastDef(defs: seq<Step>, name: string): Option<Step> {
    if defs == [] then None
    else if defs[|defs| - 1].name == name then Some(defs[|defs| - 1])
    else LastDef(defs[..|defs| - 1], name)
  }

  lemma UniqueIndex(steps: seq<Step>, i: nat)
    requires UniqueNames(steps) && i < |steps|
    ensures IndexOf(steps, steps[i].name) == Some(i)
  {
    var r := IndexOf(steps, steps[i].name);
    assert r.Some?;
  }

  lemma InsertLookup(steps: seq<Step>, step: Step, name: string)
    requires UniqueNames(steps)
    ensures var steps' := Insert(steps, step);
            && UniqueNames(steps')
            && Lookup(Engine("", steps'), name)
               == (if name == step.name then Some(step) else Lookup(Engine("", steps), name))
  {
    var steps' := Insert(steps, step);
    if name == step.name {
      var at := IndexOf(steps, name);
      UniqueIndex(steps', if at.Some? then at.value else |steps|);
    } else {
      var was := IndexOf(steps, name);
      if was.Some? {
        assert steps'[was.value] == steps[was.value];
        UniqueIndex(steps', was.value);
      }
    }
  }

  /** A loaded engine has one step per name, the last one defined under it. */
  lemma {:induction false} LoadKeepsLastDef(defs: seq<Step>, name: string)
    ensures UniqueNames(Load(defs))
    ensures Lookup(Engine("", Load(defs)), name) == LastDef(defs, name)
  {
    if defs != [] {
      LoadKeepsLastDef(defs[..|defs| - 1], name);
      InsertLookup(Load(defs[..|defs| - 1]), defs[|defs| - 1], name);
    }
  }

  // ── Picking the next step ───────────────────────────────────────────

  predicate TransitionMatches(pattern: string, output: string) {
    pattern == "*" || output == pattern || pattern + ":" <= output
  }

  function ReservedStepAdvance(target: string): Option<StepAdvance> {
    if target == "complete" then Some(Complete)
    else if target == "escalate" then Some(Escalate)
    else None
  }

  /** What a call decides before it looks at visit counts. */
  datatype Pick = Decided(advance: StepAdvance) | Primary(target: string)

  function FirstMatch(transitions: seq<Transition>, output: string): (r: Option<nat>)
    ensures r.Some? ==> r.value < |transitions| && TransitionMatches(transitions[r.value].pattern, output)
    ensures forall i | 0 <= i < (if r.Some? then r.value else |transitions|) ::
              !TransitionMatches(transitions[i].pattern, output)
  {
    if transitions == [] then None
    else if TransitionMatches(transitions[0].pattern, output) then Some(0)
    else match FirstMatch(transitions[1..], output)
      case None => None
      case Some(i) => Some(i + 1)
  }

  function PickNext(engine: Engine, current: string, output: string): Pick {
    match IndexOf(engine.steps, current)
    case None => Decided(Escalate)
    case Some(at) =>
      match FirstMatch(engine.steps[at].transitions, output)
      case Some(k) =>
        var goto := engine.steps[at].transitions[k].goto;
        (match ReservedStepAdvance(goto)
         case Some(advance) => Decided(advance)
         case None => Primary(goto))
      case None =>
        if at + 1 < |engine.steps| then Primary(engine.steps[at + 1].name) else Decided(Complete)
  }

  function CheckVisits(engine: Engine, target: string, visits: Visits): (StepAdvance, Visits) {
    var count := CountOf(visits, target) + 1;
    var visits' := visits[target := count];
    match Lookup(engine, target)
    case Some(step) =>
      if step.maxVisits.Some? && count > step.maxVisits.value then
        var goto := if step.maxVisitsGoto.Some? then step.maxVisitsGoto.value else "escalate";
        match ReservedStepAdvance(goto)
        case Some(advance) => (advance, visits')
        case None => (Goto(goto), visits')
      else (Goto(target), visits')
    case None => (Goto(target), visits')
  }

  function NextStep(engine: Engine, current: string, output: string, visits: Visits): (StepAdvance, Visits) {
    match PickNext(engine, current, output)
    case Decided(advance) => (advance, visits)
    case Primary(target) => CheckVisits(engine, target, visits)
  }

  /** The engine's own control flow: scan the transitions, else fall through in declaration order. */
  method ComputeNextStep(engine: Engine, current: string, output: string, visits: Visits)
    returns (advance: StepAdvance, visits': Visits)
    ensures (advance, visits') == NextStep(engine, current, output, visits)
  {
    var at := IndexOf(engine.steps, current);
    if at.None? {
      return Escalate, visits;
    }
    var step := engine.steps[at.value];
    for i := 0 to |step.transitions|
      invariant forall k :: 0 <= k < i ==> !TransitionMatches(step.transitions[k].pattern, output)
    {
      if TransitionMatches(step.transitions[i].pattern, output) {
        var reserved := ReservedStepAdvance(step.transitions[i].goto);
        if reserved.Some? {
          return reserved.value, visits;
        }
        var (checked, after) := CheckVisits(engine, step.transitions[i].goto, visits);
        return checked, after;
      }
    }
    if at.value + 1 < |engine.steps| {
      var (checked, after) := CheckVisits(engine, engine.steps[at.value + 1].name, visits);
      return checked, after;
    }
    return Complete, visits;
  }

  /**
   The jump a failed step makes when its retries are exhausted: counted like any other visit, but the
   overflow target is taken literally, even when it is a reserved name.
   */
  function FailJump(engine: Engine, goto: string, visits: Visits): (StepAdvance, Visits) {
    var count := CountOf(visits, goto) + 1;
    var visits' := visits[goto := count];
    match Lookup(engine, goto)
    case Some(step) =>
      if step.maxVisits.Some? && count > step.maxVisits.value then
        (if step.maxVisitsGoto.Some? then Goto(step.maxVisitsGoto.value) else Escalate, visits')
      else (Goto(goto), visits')
    case None => (Goto(goto), visits')
  }

  predicate Overflows(engine: Engine, target: string, visits: Visits) {
    var step := Lookup(engine, target);
    step.Some? && step.value.maxVisits.Some? && CountOf(visits, target) + 1 > step.value.maxVisits.value
  }

  /**
   Both paths count alike, and take the same branch unless the target is over its limit and redirects
   to a reserved name: then the confirm path ends the execution and the failure path does not.
   */
  lemma PathsAgreeUnlessReservedOverflow(engine: Engine, target: string, visits: Visits)
    ensures FailJump(engine, target, visits).1 == CheckVisits(engine, target, visits).1
    ensures FailJump(engine, target, visits).0 == CheckVisits(engine, target, visits).0
      <==> !(Overflows(engine, target, visits)
             && Lookup(engine, target).value.maxVisitsGoto in {Some("complete"), Some("escalate")})
  {
  }

  // ── Visit counts over a whole run ───────────────────────────────────

  /** One call that may pick a step: after a confirmation, or after `failed` exhausted its retries. */
  datatype VisitOp = Confirmed(current: string, output: string) | FailedOut(failed: string)

  function PrimaryOf(engine: Engine, op: VisitOp): Option<string> {
    match op
    case Confirmed(current, output) =>
      (match PickNext(engine, current, output)
       case Primary(target) => Some(target)
       case Decided(_) => None)
    case FailedOut(failed) =>
      match Lookup(engine, failed)
      case Some(step) => if step.onFail == Some("escalate") then None else step.onFail
      case None => None
  }

  function Perform(engine: Engine, op: VisitOp, visits: Visits): (StepAdvance, Visits) {
    match op
    case Confirmed(current, output) => NextStep(engine, current, output, visits)
    case FailedOut(_) =>
      match PrimaryOf(engine, op)
      case Some(goto) => FailJump(engine, goto, visits)
      case None => (Escalate, visits)
  }

  function VisitsAfter(engine: Engine, ops: seq<VisitOp>): Visits {
    if ops == [] then map[]
    else Perform(engine, ops[|ops| - 1], VisitsAfter(engine, ops[..|ops| - 1])).1
  }

  /** How many calls picked `step` as their primary target. */
  function Picks(engine: Engine, ops: seq<VisitOp>, step: string): nat {
    if ops == [] then 0
    else Picks(engine, ops[..|ops| - 1], step) + (if PrimaryOf(engine, ops[|ops| - 1]) == Some(step) then 1 else 0)
  }

  /** How many calls picked `step` and sent the execution there because it was within its limit. */
  function Grants(engine: Engine, ops: seq<VisitOp>, step: string): nat {
    if ops == [] then 0
    else
      var before := ops[..|ops| - 1];
      Grants(engine, before, step)
      + (if PrimaryOf(engine, ops[|ops| - 1]) == Some(step) && !Overflows(engine, step, VisitsAfter(engine, before))
         then 1 else 0)
  }

  /** A step's visit count is the number of times it was picked; redirections leave it alone. */
  lemma {:induction false} VisitCountIsPickCount(engine: Engine, ops: seq<VisitOp>, step: string)
    ensures CountOf(VisitsAfter(engine, ops), step) == Picks(engine, ops, step)
  {
    if ops != [] {
      VisitCountIsPickCount(engine, ops[..|ops| - 1], step);
    }
  }

  /** A picked step is granted exactly while it is within its limit: min(picks, max_visits) times. */
  lemma {:induction false} GrantsAreBounded(engine: Engine, ops: seq<VisitOp>, step: string)
    requires Lookup(engine, step).Some? && Lookup(engine, step).value.maxVisits.Some?
    ensures Grants(engine, ops, step) == Min(Picks(engine, ops, step), Lookup(engine, step).value.maxVisits.value)
  {
    if ops != [] {
      GrantsAreBounded(engine, ops[..|ops| - 1], step);
      VisitCountIsPickCount(engine, ops[..|ops| - 1], step);
    }
  }
}
