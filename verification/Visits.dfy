/**
 How often an execution visits a step (ox-core/src/workflow.rs, check_visits, driven by the herder's
 phase machine), against the counts the herder keeps live and those it rebuilds on replay.
 */
module Visits {
  import opened Prelude
  import opened Events
  import opened Execution
  import Retry
  import W = Workflow

  /** A step picked after a confirmation, or by on_fail. */
  datatype Move = Move(target: string, failed: bool)

  function Land(engine: W.Engine, m: Move, visits: W.Visits): (W.StepAdvance, W.Visits) {
    if m.failed then W.FailJump(engine, m.target, visits) else W.CheckVisits(engine, m.target, visits)
  }

  /** The pick the scheduler makes on a reported outcome, if it makes one. */
  function Picked(engines: Engines, reported: ExecView): Option<Move>
    requires reported.workflow in engines
  {
    match reported.phase
    case NeedsAdvance(step) =>
      (match W.PickNext(engines[reported.workflow], step, Output(reported))
       case Primary(target) => Some(Move(target, false))
       case Decided(_) => None)
    case NeedsFailure(step, _) =>
      (match Lookup(engines, reported.workflow, step)
       case None => None
       case Some(def) =>
         if Retry.Record(reported.retry, step, def.maxRetries, ForceEscalate(reported)).1.Retry? then None
         else if def.onFail.None? || def.onFail == Some("escalate") then None
         else Some(Move(def.onFail.value, true)))
    case _ => None
  }

  /** The view is where the pick lands; without one it is at the same step for a retry, or not ready. */
  ghost predicate Follows(engine: W.Engine, was: ExecView, m: Option<Move>, after: ExecView, step: string) {
    && after.workflow == was.workflow && (after.phase.Ready? ==> after.status == Running)
    && (m.None? ==> after.visits == was.visits && (after.phase.Ready? ==> after.phase.step == step))
    && (m.Some? ==>
          var (advance, visits) := Land(engine, m.value, was.visits);
          && after.visits == visits
          && (after.phase.Ready? <==> advance.Goto?)
          && (advance.Goto? ==> after.phase.step == advance.step))
  }

  lemma AdvanceFollows(engines: Engines, reported: ExecView, step: string)
    requires reported.workflow in engines && reported.status == Running && reported.phase == NeedsAdvance(step)
    ensures Follows(engines[reported.workflow], reported, Picked(engines, reported), Advance(engines, reported, step), step)
  {
  }

  lemma FailFollows(engines: Engines, reported: ExecView, step: string)
    requires reported.workflow in engines && reported.status == Running
    requires reported.phase.NeedsFailure? && reported.phase.step == step
    ensures Follows(engines[reported.workflow], reported, Picked(engines, reported), Fail(engines, reported, step), step)
  {
  }

  lemma ReportedKeepsView(engines: Engines, exec: ExecView, outcome: Outcome)
    requires exec.phase.Ready? && exec.status == Running
    ensures var reported := Reported(engines, exec, outcome);
            && reported.visits == exec.visits && reported.workflow == exec.workflow && reported.status == Running
            && (reported.phase.NeedsAdvance? || reported.phase.NeedsFailure?) && reported.phase.step == exec.phase.step
  {
  }

  lemma ReportedKeepsWorkflow(engines: Engines, exec: ExecView, outcome: Outcome)
    requires exec.phase.Ready?
    ensures Reported(engines, exec, outcome).workflow == exec.workflow
  {
  }

  /** The pick that answering the ready step makes, if it makes one. */
  function MoveOf(engines: Engines, exec: ExecView, outcome: Outcome): Option<Move>
    requires exec.workflow in engines && exec.phase.Ready?
  {
    ReportedKeepsWorkflow(engines, exec, outcome);
    Picked(engines, Reported(engines, exec, outcome))
  }

  lemma AnswerFollowsMove(engines: Engines, exec: ExecView, outcome: Outcome)
    requires exec.workflow in engines && exec.phase.Ready? && exec.status == Running
    ensures Follows(engines[exec.workflow], exec, MoveOf(engines, exec, outcome), Answer(engines, exec, outcome), exec.phase.step)
  {
    ReportedKeepsView(engines, exec, outcome);
    var reported := Reported(engines, exec, outcome);
    if reported.phase.NeedsAdvance? {
      AdvanceFollows(engines, reported, reported.phase.step);
    } else {
      FailFollows(engines, reported, reported.phase.step);
    }
  }

  // ── What a run does to one step ─────────────────────────────────────

  /**
   Over a run, for one step: how often it was picked, refused for its limit, entered by another step's
   overflow, entered at all, and made ready again as a retry.
   */
  datatype Tally = Tally(picked: nat, refused: nat, redirected: nat, entered: nat, retried: nat)

  const NOTHING := Tally(0, 0, 0, 0, 0)

  function One(b: bool): nat {
    if b then 1 else 0
  }

  function TallyOne(engines: Engines, exec: ExecView, outcome: Outcome, step: string): Tally
    requires exec.workflow in engines && exec.phase.Ready?
  {
    match MoveOf(engines, exec, outcome)
    case None => NOTHING.(retried := One(Answer(engines, exec, outcome).phase.Ready? && exec.phase.step == step))
    case Some(m) =>
      var engine := engines[exec.workflow];
      var over := W.Overflows(engine, m.target, exec.visits);
      var entered := Land(engine, m, exec.visits).0 == W.Goto(step);
      Tally(One(m.target == step), One(m.target == step && over), One(over && entered), One(entered), 0)
  }

  function Plus(a: Tally, b: Tally): Tally {
    Tally(a.picked + b.picked, a.refused + b.refused, a.redirected + b.redirected, a.entered + b.entered, a.retried + b.retried)
  }

  function TallyOf(engines: Engines, exec: ExecView, outcomes: seq<Outcome>, step: string): Tally
    requires exec.workflow in engines
    decreases |outcomes|
  {
    if outcomes == [] || !exec.phase.Ready? then NOTHING
    else
      var after := Answer(engines, exec, outcomes[0]);
      assert after.workflow == exec.workflow by {
        AnswerKeepsWorkflow(engines, exec, outcomes[0]);
      }
      Plus(TallyOne(engines, exec, outcomes[0], step), TallyOf(engines, after, outcomes[1..], step))
  }

  lemma AnswerKeepsWorkflow(engines: Engines, exec: ExecView, outcome: Outcome)
    requires exec.phase.Ready?
    ensures Answer(engines, exec, outcome).workflow == exec.workflow
  {
    ReportedKeepsWorkflow(engines, exec, outcome);
    ProcessKeepsWorkflow(engines, Reported(engines, exec, outcome), MergeResult(outcome));
  }

  lemma LandAddsUp(engine: W.Engine, m: Move, visits: W.Visits, step: string)
    ensures var (advance, visits') := Land(engine, m, visits);
            var over, entered := W.Overflows(engine, m.target, visits), advance == W.Goto(step);
            && One(entered) + One(m.target == step && over) == One(m.target == step) + One(over && entered)
            && W.CountOf(visits', step) == W.CountOf(visits, step) + One(m.target == step)
            && One(advance.Goto? && advance.step == step) == One(entered)
  {
  }

  /** One answer: entries are picks and redirections less refusals, and the live count is the picks. */
  lemma OneAddsUp(engines: Engines, exec: ExecView, outcome: Outcome, step: string)
    requires exec.workflow in engines && exec.phase.Ready? && exec.status == Running
    ensures var t, after := TallyOne(engines, exec, outcome, step), Answer(engines, exec, outcome);
            && t.entered + t.refused == t.picked + t.redirected
            && W.CountOf(after.visits, step) == W.CountOf(exec.visits, step) + t.picked
            && One(after.phase.Ready? && after.phase.step == step) == t.entered + t.retried
            && (t.refused == 1 <==> t.picked == 1 && W.Overflows(engines[exec.workflow], step, exec.visits))
  {
    AnswerFollowsMove(engines, exec, outcome);
    var m := MoveOf(engines, exec, outcome);
    if m.Some? {
      LandAddsUp(engines[exec.workflow], m.value, exec.visits, step);
    }
  }

  /** What the inductions over runs need of one answer. */
  lemma OneTurn(engines: Engines, exec: ExecView, outcome: Outcome, step: string) returns (after: ExecView, t: Tally)
    requires exec.workflow in engines && exec.phase.Ready? && exec.status == Running
    ensures after == Answer(engines, exec, outcome) && t == TallyOne(engines, exec, outcome, step)
    ensures after.workflow == exec.workflow && (after.phase.Ready? ==> after.status == Running)
    ensures t.entered + t.refused == t.picked + t.redirected && t.picked <= 1
    ensures W.CountOf(after.visits, step) == W.CountOf(exec.visits, step) + t.picked
    ensures One(after.phase.Ready? && after.phase.step == step) == t.entered + t.retried
    ensures t.refused == One(t.picked == 1 && W.Overflows(engines[exec.workflow], step, exec.visits))
  {
    after, t := Answer(engines, exec, outcome), TallyOne(engines, exec, outcome, step);
    OneAddsUp(engines, exec, outcome, step);
    AnswerFollowsMove(engines, exec, outcome);
  }

  /** A run that has ended does nothing more. */
  lemma EndedRun(engines: Engines, exec: ExecView, outcomes: seq<Outcome>, step: string)
    requires exec.workflow in engines && !exec.phase.Ready?
    ensures TallyOf(engines, exec, outcomes, step) == NOTHING && AnswerAll(engines, exec, outcomes) == exec
  {
  }

  function Excess(count: nat, max: nat): nat {
    if count <= max then 0 else count - max
  }

  /** Over a run, entries are picks and redirections less refusals, and the live count grows by the picks. */
  lemma {:induction false} RunAddsUp(engines: Engines, exec: ExecView, outcomes: seq<Outcome>, step: string)
    requires exec.workflow in engines && exec.status == Running
    ensures var t := TallyOf(engines, exec, outcomes, step);
            && t.entered + t.refused == t.picked + t.redirected
            && W.CountOf(AnswerAll(engines, exec, outcomes).visits, step) == W.CountOf(exec.visits, step) + t.picked
    decreases |outcomes|
  {
    if outcomes != [] && exec.phase.Ready? {
      var after, one := OneTurn(engines, exec, outcomes[0], step);
      if after.phase.Ready? {
        RunAddsUp(engines, after, outcomes[1..], step);
      }
    }
  }

  lemma OverflowMeansOverMax(engine: W.Engine, visits: W.Visits, step: string, max: nat)
    requires W.Lookup(engine, step).Some? && W.Lookup(engine, step).value.maxVisits == Some(max)
    ensures W.Overflows(engine, step, visits) <==> W.CountOf(visits, step) + 1 > max
  {
  }

  lemma ExcessAdds(count: nat, one: Tally, rest: Tally, max: nat)
    requires one.picked <= 1 && one.refused == One(one.picked == 1 && count + 1 > max)
    requires rest.refused + Excess(count + one.picked, max) == Excess(count + one.picked + rest.picked, max)
    ensures Plus(one, rest).refused + Excess(count, max) == Excess(count + Plus(one, rest).picked, max)
  {
    assert count + Plus(one, rest).picked == count + one.picked + rest.picked;
  }

  /** What a limited step is refused over a run is what its count goes over the limit. */
  lemma {:induction false} RefusedIsExcess(engines: Engines, exec: ExecView, outcomes: seq<Outcome>, step: string, max: nat)
    returns (t: Tally)
    requires exec.workflow in engines && exec.status == Running
    requires Lookup(engines, exec.workflow, step).Some? && Lookup(engines, exec.workflow, step).value.maxVisits == Some(max)
    ensures t == TallyOf(engines, exec, outcomes, step)
    ensures t.refused + Excess(W.CountOf(exec.visits, step), max) == Excess(W.CountOf(exec.visits, step) + t.picked, max)
    decreases |outcomes|
  {
    if outcomes == [] || !exec.phase.Ready? {
      return NOTHING;
    }
    var after, one := OneTurn(engines, exec, outcomes[0], step);
    OverflowMeansOverMax(engines[exec.workflow], exec.visits, step, max);
    var rest := NOTHING;
    if after.phase.Ready? {
      rest := RefusedIsExcess(engines, after, outcomes[1..], step, max);
    } else {
      EndedRun(engines, after, outcomes[1..], step);
    }
    ExcessAdds(W.CountOf(exec.visits, step), one, rest, max);
    t := Plus(one, rest);
  }

  /** How often a new execution visits a step: at its creation, which nothing counts, and at each entry. */
  function VisitsIn(engines: Engines, exec: ExecView, outcomes: seq<Outcome>, step: string): nat
    requires exec.workflow in engines && exec.phase.Ready?
  {
    One(exec.phase.step == step) + TallyOf(engines, exec, outcomes, step).entered
  }

  ghost predicate New(engines: Engines, exec: ExecView) {
    exec.workflow in engines && exec.status == Running && exec.phase.Ready? && exec.visits == map[]
  }

  /**
   Every run visits a limited step as often as it is picked, up to its limit, plus what the limit never
   sees: the visit at creation, and those another step's overflow makes.
   */
  lemma VisitsAddUp(engines: Engines, exec: ExecView, outcomes: seq<Outcome>, step: string, max: nat)
    requires New(engines, exec)
    requires Lookup(engines, exec.workflow, step).Some? && Lookup(engines, exec.workflow, step).value.maxVisits == Some(max)
    ensures var t := TallyOf(engines, exec, outcomes, step);
            && t.picked == W.CountOf(AnswerAll(engines, exec, outcomes).visits, step)
            && VisitsIn(engines, exec, outcomes, step) == One(exec.phase.step == step) + Min(t.picked, max) + t.redirected
  {
    RunAddsUp(engines, exec, outcomes, step);
    var t := RefusedIsExcess(engines, exec, outcomes, step, max);
  }

  /** No loaded limited step hands its overflow to this one. */
  ghost predicate NoOverflowInto(engine: W.Engine, step: string) {
    forall s :: s in engine.steps && s.maxVisits.Some? ==> s.maxVisitsGoto != Some(step)
  }

  lemma {:induction false} NothingRedirected(engines: Engines, exec: ExecView, outcomes: seq<Outcome>, step: string)
    requires exec.workflow in engines && exec.status == Running && NoOverflowInto(engines[exec.workflow], step)
    ensures TallyOf(engines, exec, outcomes, step).redirected == 0
    decreases |outcomes|
  {
    if outcomes != [] && exec.phase.Ready? {
      AnswerFollowsMove(engines, exec, outcomes[0]);
      var after := Answer(engines, exec, outcomes[0]);
      assert TallyOne(engines, exec, outcomes[0], step).redirected == 0;
      if after.phase.Ready? {
        NothingRedirected(engines, after, outcomes[1..], step);
      }
    }
  }

  /** The documented limit, for an execution that starts elsewhere and with no overflow into the step. */
  lemma LimitHoldsFromElsewhere(engines: Engines, exec: ExecView, outcomes: seq<Outcome>, step: string, max: nat)
    requires New(engines, exec) && exec.phase.step != step && NoOverflowInto(engines[exec.workflow], step)
    requires Lookup(engines, exec.workflow, step).Some? && Lookup(engines, exec.workflow, step).value.maxVisits == Some(max)
    ensures VisitsIn(engines, exec, outcomes, step) <= max
  {
    VisitsAddUp(engines, exec, outcomes, step, max);
    NothingRedirected(engines, exec, outcomes, step);
  }

  // ── The counts that replay rebuilds ─────────────────────────────────

  /** Replaying the dispatch of the ready step, if it is a runner's. */
  function Dispatched(engines: Engines, exec: ExecView, counts: W.Visits): W.Visits
    requires exec.phase.Ready?
  {
    if IsActionStep(engines, exec, exec.phase.step) then counts
    else OnDispatched(exec.(visits := counts), exec.phase.step, true).visits
  }

  lemma DispatchCounted(engines: Engines, exec: ExecView, counts: W.Visits, step: string) returns (counts': W.Visits)
    requires exec.phase.Ready?
    ensures counts' == Dispatched(engines, exec, counts)
    ensures W.CountOf(counts', step)
            == W.CountOf(counts, step) + One(exec.phase.step == step && !IsActionStep(engines, exec, step))
  {
    counts' := Dispatched(engines, exec, counts);
  }

  /** Replaying the dispatches of a run: each ready runner step is dispatched before it is answered. */
  function Replayed(engines: Engines, exec: ExecView, outcomes: seq<Outcome>, counts: W.Visits): W.Visits
    decreases |outcomes|
  {
    if !exec.phase.Ready? then counts
    else
      var counts' := Dispatched(engines, exec, counts);
      if outcomes == [] then counts' else Replayed(engines, Answer(engines, exec, outcomes[0]), outcomes[1..], counts')
  }

  lemma {:induction false} ReplayedAddsUp(engines: Engines, exec: ExecView, outcomes: seq<Outcome>, counts: W.Visits, step: string)
    requires exec.workflow in engines && exec.status == Running && exec.phase.Ready?
    ensures var t, dispatched := TallyOf(engines, exec, outcomes, step), W.CountOf(Replayed(engines, exec, outcomes, counts), step);
            if IsActionStep(engines, exec, step) then dispatched == W.CountOf(counts, step)
            else dispatched == W.CountOf(counts, step) + One(exec.phase.step == step) + t.entered + t.retried
    decreases |outcomes|
  {
    var counts' := DispatchCounted(engines, exec, counts, step);
    if outcomes != [] {
      var after, one := OneTurn(engines, exec, outcomes[0], step);
      if after.phase.Ready? {
        ReplayedAddsUp(engines, after, outcomes[1..], counts', step);
      }
    }
  }

  /**
   The counts a restarted herder rebuilds from dispatches, against the live ones: replay adds the first
   step, the retries and the entries by overflow, and lacks the picks refused for the limit. For a runner
   step the two agree exactly when these balance; an action step is never dispatched, so replay has none.
   */
  lemma ReplayCountAddsUp(engines: Engines, exec: ExecView, outcomes: seq<Outcome>, step: string)
    requires New(engines, exec)
    ensures var live := W.CountOf(AnswerAll(engines, exec, outcomes).visits, step);
            var replay := W.CountOf(Replayed(engines, exec, outcomes, map[]), step);
            var t := TallyOf(engines, exec, outcomes, step);
            if IsActionStep(engines, exec, step) then replay == 0
            else
              && replay + t.refused == live + One(exec.phase.step == step) + t.retried + t.redirected
              && (replay == live <==> t.refused == One(exec.phase.step == step) + t.retried + t.redirected)
  {
    RunAddsUp(engines, exec, outcomes, step);
    ReplayedAddsUp(engines, exec, outcomes, map[], step);
  }
}
