/**
 When the scheduler's "loop until stable" ends (ox-herder/src/herder.rs, schedule). Only action steps are
 run inside the loop, so it ends for all merge answers exactly if they form no cycle once every visit
 limit on the way is spent.
 */
module Settling {
  import opened Prelude
  import opened Events
  import opened Execution
  import opened BoundedRuns
  import Retry
  import W = Workflow

  // ── Where an action step leads ──────────────────────────────────────

  predicate ActionAt(engine: W.Engine, step: string) {
    W.Lookup(engine, step).Some? && W.Lookup(engine, step).value.action.Some?
  }

  /** What a passed action step picks; only a merge can pass. */
  function PassPick(engine: W.Engine, step: string): Option<string>
    requires ActionAt(engine, step)
  {
    if W.Lookup(engine, step).value.action != Some("merge_to_main") then None
    else match W.PickNext(engine, step, "pass")
      case Primary(target) => Some(target)
      case Decided(_) => None
  }

  /** What an action step out of retries picks. */
  function FailPick(engine: W.Engine, step: string): Option<string>
    requires ActionAt(engine, step)
  {
    var onFail := W.Lookup(engine, step).value.onFail;
    if onFail == Some("escalate") then None else onFail
  }

  predicate Limited(engine: W.Engine, step: string) {
    W.Lookup(engine, step).Some? && W.Lookup(engine, step).value.maxVisits.Some?
  }

  /** Where a pick leads once the picked step's limit, if it has one, is spent; reserved names end a pass only. */
  function PastLimit(engine: W.Engine, pick: Option<string>, passed: bool): Option<string> {
    if pick.None? || !Limited(engine, pick.value) then pick
    else
      var goto := W.Lookup(engine, pick.value).value.maxVisitsGoto;
      if passed && goto.Some? && W.ReservedStepAdvance(goto.value).Some? then None else goto
  }

  function PassNext(engine: W.Engine, step: string): Option<string>
    requires ActionAt(engine, step)
  {
    PastLimit(engine, PassPick(engine, step), true)
  }

  function FailNext(engine: W.Engine, step: string): Option<string>
    requires ActionAt(engine, step)
  {
    PastLimit(engine, FailPick(engine, step), false)
  }

  predicate Edge(engine: W.Engine, a: string, b: string) {
    ActionAt(engine, a) && ActionAt(engine, b) && (PassNext(engine, a) == Some(b) || FailNext(engine, a) == Some(b))
  }

  /** Action steps, each leading to the next. */
  ghost predicate Chain(engine: W.Engine, p: seq<string>) {
    && (forall i :: 0 <= i < |p| ==> ActionAt(engine, p[i]))
    && forall i :: 0 <= i < |p| - 1 ==> Edge(engine, p[i], p[i + 1])
  }

  ghost predicate ActionCycle(engine: W.Engine, p: seq<string>) {
    Chain(engine, p) && |p| >= 2 && p[0] == p[|p| - 1]
  }

  ghost predicate NoActionCycle(engine: W.Engine) {
    forall p :: !ActionCycle(engine, p)
  }

  // ── Without a cycle, action steps have a rank ───────────────────────

  function Max(a: nat, b: nat): nat {
    if a <= b then b else a
  }

  function HeightOf(engine: W.Engine, step: Option<string>, n: nat): nat
    decreases n, 1
  {
    if step.Some? then Height(engine, step.value, n) else 0
  }

  /** The length of the longest chain from a step, up to `n`. */
  function Height(engine: W.Engine, step: string, n: nat): (h: nat)
    ensures h <= n
    decreases n, 0
  {
    if n == 0 || !ActionAt(engine, step) then 0
    else 1 + Max(HeightOf(engine, PassNext(engine, step), n - 1), HeightOf(engine, FailNext(engine, step), n - 1))
  }

  lemma {:induction false} HeightIsAChain(engine: W.Engine, step: string, n: nat) returns (p: seq<string>)
    requires 0 < n && Height(engine, step, n) == n
    ensures |p| == n && p[0] == step && Chain(engine, p)
    decreases n
  {
    if n == 1 {
      return [step];
    }
    var next := if HeightOf(engine, PassNext(engine, step), n - 1) == n - 1 then PassNext(engine, step).value
                else FailNext(engine, step).value;
    var rest := HeightIsAChain(engine, next, n - 1);
    assert Edge(engine, step, next);
    p := [step] + rest;
  }

  function Names(steps: seq<W.Step>): set<string> {
    set i | 0 <= i < |steps| :: steps[i].name
  }

  lemma {:induction false} FewNames(steps: seq<W.Step>)
    ensures |Names(steps)| <= |steps|
  {
    if steps == [] {
      assert Names(steps) == {};
    } else {
      var n := |steps| - 1;
      FewNames(steps[..n]);
      assert Names(steps) == Names(steps[..n]) + {steps[n].name} by {
        assert forall i :: 0 <= i < n ==> steps[..n][i] == steps[i];
      }
    }
  }

  lemma DeclaredIsNamed(engine: W.Engine, step: string)
    requires W.Lookup(engine, step).Some?
    ensures step in Names(engine.steps)
  {
    var i := W.IndexOf(engine.steps, step).value;
    assert engine.steps[i].name == step;
  }

  lemma LongChainHasCycle(engine: W.Engine, p: seq<string>)
    requires Chain(engine, p) && |p| > |engine.steps|
    ensures !NoActionCycle(engine)
  {
    FewNames(engine.steps);
    forall x | x in p ensures x in Names(engine.steps) {
      DeclaredIsNamed(engine, x);
    }
    var i, j := Pigeonhole(p, Names(engine.steps));
    var c := p[i..j + 1];
    assert forall k :: 0 <= k < |c| ==> c[k] == p[i + k];
    forall k | 0 <= k < |c| - 1 ensures Edge(engine, c[k], c[k + 1]) {
      assert Edge(engine, p[i + k], p[i + k + 1]);
    }
    assert ActionCycle(engine, c);
  }

  lemma {:induction false} HeightSettles(engine: W.Engine, step: string, n: nat)
    requires Height(engine, step, n) < n
    ensures Height(engine, step, n + 1) == Height(engine, step, n)
    decreases n, 0
  {
    if ActionAt(engine, step) {
      HeightOfSettles(engine, PassNext(engine, step), n - 1);
      HeightOfSettles(engine, FailNext(engine, step), n - 1);
    }
  }

  lemma {:induction false} HeightOfSettles(engine: W.Engine, step: Option<string>, n: nat)
    requires HeightOf(engine, step, n) < n
    ensures HeightOf(engine, step, n + 1) == HeightOf(engine, step, n)
    decreases n, 1
  {
    if step.Some? {
      HeightSettles(engine, step.value, n);
    }
  }

  /** How many action steps can still follow one another from here, limits being spent. */
  function Rank(engine: W.Engine, step: string): nat {
    Height(engine, step, |engine.steps| + 1)
  }

  lemma RankIsBelow(engine: W.Engine, step: string)
    requires NoActionCycle(engine)
    ensures Rank(engine, step) <= |engine.steps|
  {
    var n := |engine.steps| + 1;
    if Height(engine, step, n) == n {
      var p := HeightIsAChain(engine, step, n);
      LongChainHasCycle(engine, p);
    }
  }

  lemma RankDrops(engine: W.Engine, a: string, b: string)
    requires NoActionCycle(engine) && Edge(engine, a, b)
    ensures Rank(engine, b) < Rank(engine, a)
  {
    RankIsBelow(engine, a);
    RankIsBelow(engine, b);
    HeightSettles(engine, a, |engine.steps| + 1);
  }

  // ── The measure ─────────────────────────────────────────────────────

  lemma {:induction false} VisitsWorthGrows(m: nat, n: nat, perVisit: nat)
    requires m <= n
    ensures VisitsWorth(m, perVisit) <= VisitsWorth(n, perVisit)
  {
    if m < n {
      VisitsWorthGrows(m, n - 1, perVisit);
    }
  }

  /** A pick that its step's limit does not grant uses up no visit. */
  lemma {:induction false} UngrantedKeepsVisits(steps: seq<W.Step>, visits: W.Visits, target: string)
    requires forall s :: s in steps && s.name == target && s.maxVisits.Some? ==> W.CountOf(visits, target) + 1 > s.maxVisits.value
    ensures RemainingVisits(steps, visits[target := W.CountOf(visits, target) + 1]) == RemainingVisits(steps, visits)
  {
    if steps != [] {
      UngrantedKeepsVisits(steps[1..], visits, target);
    }
  }

  function PerVisit(engine: W.Engine): nat {
    MaxBudget(engine.steps) + 1
  }

  /** Failures and moves an unbroken sequence of action steps can take without another grant. */
  function FullRank(engine: W.Engine): nat {
    VisitsWorth(|engine.steps|, PerVisit(engine))
  }

  function Granted(engine: W.Engine, visits: W.Visits): nat {
    VisitsWorth(RemainingVisits(engine.steps, visits), FullRank(engine))
  }

  function Attempts(engine: W.Engine, exec: ExecView, step: string): (n: nat)
    ensures 0 < n <= PerVisit(engine)
  {
    PerVisit(engine) - Min(Burnt(exec.retry, step), MaxBudget(engine.steps))
  }

  /** Grants left, then chain left, then attempts left at this action step. */
  function InlineEnergy(engine: W.Engine, exec: ExecView, step: string): nat
    requires ActionAt(engine, step)
  {
    Granted(engine, exec.visits) + VisitsWorth(Rank(engine, step) - 1, PerVisit(engine)) + Attempts(engine, exec, step)
  }

  function ReadyWork(engines: Engines, exec: ExecView): nat {
    if exec.status == Running && exec.phase.Ready? && IsActionStep(engines, exec, exec.phase.step)
    then 2 * InlineEnergy(engines[exec.workflow], exec, exec.phase.step)
    else 0
  }

  /** Scheduler moves left before the execution settles. */
  function InlineWork(engines: Engines, exec: ExecView): nat {
    if exec.status != Running then 0
    else match exec.phase
      case NeedsAdvance(step) => 1 + ReadyWork(engines, Advance(engines, exec, step))
      case NeedsFailure(step, _) => 1 + ReadyWork(engines, Fail(engines, exec, step))
      case _ => ReadyWork(engines, exec)
  }

  /** The workflow, if it is loaded, has one step per name and no cycle of action steps. */
  ghost predicate Acyclic(engines: Engines, workflow: string) {
    workflow in engines ==> W.UniqueNames(engines[workflow].steps) && NoActionCycle(engines[workflow])
  }

  /** The scheduler has nothing to decide the execution's next move by: no workflow, or no such step. */
  predicate Stuck(engines: Engines, exec: ExecView) {
    exec.status == Running &&
    (if exec.phase.NeedsAdvance? then exec.workflow !in engines
     else exec.phase.NeedsFailure? && Lookup(engines, exec.workflow, exec.phase.step).None?)
  }

  /** A running execution is not stuck, and its workflow has no action cycle. */
  ghost predicate Placed(engines: Engines, exec: ExecView) {
    && (exec.phase.Done? <==> exec.status != Running)
    && (exec.status == Running ==> Acyclic(engines, exec.workflow) && !Stuck(engines, exec))
  }

  lemma EnergyIsBelow(engine: W.Engine, exec: ExecView, step: string, rank: nat)
    requires ActionAt(engine, step) && Rank(engine, step) <= rank
    ensures InlineEnergy(engine, exec, step) <= Granted(engine, exec.visits) + VisitsWorth(rank, PerVisit(engine))
  {
    VisitsWorthGrows(Rank(engine, step), rank, PerVisit(engine));
  }

  lemma EnergyIsWithinGrant(engine: W.Engine, exec: ExecView, step: string)
    requires ActionAt(engine, step) && NoActionCycle(engine)
    ensures InlineEnergy(engine, exec, step) <= Granted(engine, exec.visits) + FullRank(engine)
  {
    RankIsBelow(engine, step);
    EnergyIsBelow(engine, exec, step, |engine.steps|);
  }

  lemma EnergyIsPositive(engine: W.Engine, exec: ExecView, step: string)
    requires ActionAt(engine, step)
    ensures InlineEnergy(engine, exec, step) > Granted(engine, exec.visits)
  {
  }

  lemma GrantLosesEnergy(engine: W.Engine, visits: W.Visits, target: string)
    requires W.UniqueNames(engine.steps) && Limited(engine, target) && !W.Overflows(engine, target, visits)
    ensures Granted(engine, visits) == Granted(engine, visits[target := W.CountOf(visits, target) + 1]) + FullRank(engine)
  {
    GrantUsesOneVisit(engine.steps, visits, W.IndexOf(engine.steps, target).value);
  }

  lemma NoGrantKeepsEnergy(engine: W.Engine, visits: W.Visits, target: string)
    requires W.UniqueNames(engine.steps) && (Limited(engine, target) ==> W.Overflows(engine, target, visits))
    ensures Granted(engine, visits) == Granted(engine, visits[target := W.CountOf(visits, target) + 1])
  {
    forall s | s in engine.steps && s.name == target && s.maxVisits.Some?
      ensures W.CountOf(visits, target) + 1 > s.maxVisits.value
    {
      var k :| 0 <= k < |engine.steps| && engine.steps[k] == s;
      W.UniqueIndex(engine.steps, k);
    }
    UngrantedKeepsVisits(engine.steps, visits, target);
  }

  function Land(engine: W.Engine, passed: bool, target: string, visits: W.Visits): (W.StepAdvance, W.Visits) {
    if passed then W.CheckVisits(engine, target, visits) else W.FailJump(engine, target, visits)
  }

  /** A pick is granted, or it goes where the spent limit leads. */
  lemma PickGoesOn(engine: W.Engine, passed: bool, target: string, visits: W.Visits, next: string)
    requires Land(engine, passed, target, visits).0 == W.Goto(next)
    ensures (Limited(engine, target) && !W.Overflows(engine, target, visits)) || PastLimit(engine, Some(target), passed) == Some(next)
    ensures Land(engine, passed, target, visits).1 == visits[target := W.CountOf(visits, target) + 1]
  {
  }

  /** A granted pick costs one grant, which is worth more than any rank. */
  lemma GrantedPickLosesEnergy(engine: W.Engine, exec: ExecView, step: string, target: string, after: ExecView, next: string)
    requires W.UniqueNames(engine.steps) && NoActionCycle(engine) && ActionAt(engine, step) && ActionAt(engine, next)
    requires Limited(engine, target) && !W.Overflows(engine, target, exec.visits)
    requires after.visits == exec.visits[target := W.CountOf(exec.visits, target) + 1]
    ensures InlineEnergy(engine, after, next) < InlineEnergy(engine, exec, step)
  {
    EnergyIsWithinGrant(engine, after, next);
    GrantLosesEnergy(engine, exec.visits, target);
    EnergyIsPositive(engine, exec, step);
  }

  /** Any other pick leads down the ranks. */
  lemma UngrantedPickLosesEnergy(engine: W.Engine, exec: ExecView, step: string, target: string, after: ExecView, next: string)
    requires W.UniqueNames(engine.steps) && NoActionCycle(engine) && Edge(engine, step, next)
    requires Limited(engine, target) ==> W.Overflows(engine, target, exec.visits)
    requires after.visits == exec.visits[target := W.CountOf(exec.visits, target) + 1]
    ensures InlineEnergy(engine, after, next) < InlineEnergy(engine, exec, step)
  {
    RankDrops(engine, step, next);
    EnergyIsBelow(engine, after, next, Rank(engine, step) - 1);
    NoGrantKeepsEnergy(engine, exec.visits, target);
  }

  /** From an action step, a pick leads to less energy if it leads to an action step at all. */
  lemma PickLosesEnergy(engine: W.Engine, exec: ExecView, step: string, passed: bool, target: string, after: ExecView, next: string)
    requires W.UniqueNames(engine.steps) && NoActionCycle(engine) && ActionAt(engine, step) && ActionAt(engine, next)
    requires (if passed then PassPick(engine, step) else FailPick(engine, step)) == Some(target)
    requires Land(engine, passed, target, exec.visits) == (W.Goto(next), after.visits)
    ensures InlineEnergy(engine, after, next) < InlineEnergy(engine, exec, step)
  {
    PickGoesOn(engine, passed, target, exec.visits, next);
    if Limited(engine, target) && !W.Overflows(engine, target, exec.visits) {
      GrantedPickLosesEnergy(engine, exec, step, target, after, next);
    } else {
      assert Edge(engine, step, next);
      UngrantedPickLosesEnergy(engine, exec, step, target, after, next);
    }
  }

  lemma PassLosesEnergy(engines: Engines, exec: ExecView, step: string, attempt: nat)
    requires Placed(engines, exec) && exec.phase == Ready(step, attempt) && IsActionStep(engines, exec, step)
    requires Lookup(engines, exec.workflow, step).value.action == Some("merge_to_main")
    ensures ReadyWork(engines, Advance(engines, Act(engines, exec, step, Ok(())), step)) + 1 < ReadyWork(engines, exec)
  {
    var engine, done := engines[exec.workflow], Act(engines, exec, step, Ok(()));
    var after := Advance(engines, done, step);
    if after.phase.Ready? && ActionAt(engine, after.phase.step) {
      var target := W.PickNext(engine, step, "pass").target;
      assert Land(engine, true, target, exec.visits) == (W.Goto(after.phase.step), after.visits);
      PickLosesEnergy(engine, exec, step, true, target, after, after.phase.step);
    }
  }

  lemma FailureLosesEnergy(engines: Engines, exec: ExecView, step: string, attempt: nat, error: string)
    requires Placed(engines, exec) && exec.phase == Ready(step, attempt) && IsActionStep(engines, exec, step)
    ensures ReadyWork(engines, Fail(engines, exec.(phase := NeedsFailure(step, error)), step)) + 1 < ReadyWork(engines, exec)
  {
    var engine, failed := engines[exec.workflow], exec.(phase := NeedsFailure(step, error));
    var def := Lookup(engines, exec.workflow, step).value;
    var (retry, decision) := Retry.Record(exec.retry, step, def.maxRetries, ForceEscalate(failed));
    var after := Fail(engines, failed, step);
    if decision.Exhausted? && after.phase.Ready? && ActionAt(engine, after.phase.step) {
      PickLosesEnergy(engine, exec, step, false, FailPick(engine, step).value, after, after.phase.step);
    }
  }

  /** Every change the scheduler reports leaves less work, and keeps the execution placed. */
  lemma ProcessLosesInlineWork(engines: Engines, exec: ExecView, merged: Result<(), string>)
    requires Placed(engines, exec)
    ensures Placed(engines, Process(engines, exec, merged).0)
    ensures Process(engines, exec, merged).1 ==>
              InlineWork(engines, Process(engines, exec, merged).0) < InlineWork(engines, exec)
  {
    match exec.phase
    case Ready(step, attempt) =>
      if IsActionStep(engines, exec, step) {
        ActLosesInlineWork(engines, exec, step, attempt, merged);
      }
    case NeedsFailure(step, _) => FailEndsFailure(engines, exec, step);
    case _ =>
  }

  lemma FailEndsFailure(engines: Engines, exec: ExecView, step: string)
    requires Placed(engines, exec) && exec.phase.NeedsFailure? && exec.phase.step == step
    ensures var after := Fail(engines, exec, step);
            Placed(engines, after) && !after.phase.NeedsFailure? && !after.phase.NeedsAdvance?
  {
    var def := Lookup(engines, exec.workflow, step).value;
    if def.onFail.Some? {
      assert !W.FailJump(engines[exec.workflow], def.onFail.value, exec.visits).0.Complete?;
    }
  }

  lemma ActLosesInlineWork(engines: Engines, exec: ExecView, step: string, attempt: nat, merged: Result<(), string>)
    requires Placed(engines, exec) && exec.phase == Ready(step, attempt) && IsActionStep(engines, exec, step)
    ensures Placed(engines, Act(engines, exec, step, merged))
    ensures InlineWork(engines, Act(engines, exec, step, merged)) < InlineWork(engines, exec)
  {
    var done := Act(engines, exec, step, merged);
    if done.phase.NeedsAdvance? {
      PassLosesEnergy(engines, exec, step, attempt);
    } else {
      FailureLosesEnergy(engines, exec, step, attempt, done.phase.error);
    }
  }

  // ── The loop ends exactly without a cycle ───────────────────────────

  /** Waiting for a runner's answer, waiting for a runner, or finished. */
  predicate Settled(engines: Engines, exec: ExecView) {
    exec.status == Running ==>
      exec.phase.AwaitingStep? || (exec.phase.Ready? && !IsActionStep(engines, exec, exec.phase.step))
  }

  /** What the server answers to a merge; it may depend on the move and on the execution. */
  type Answers = (nat, ExecView) -> Result<(), string>

  /** The view after `n` scheduler moves. */
  function Played(engines: Engines, exec: ExecView, answers: Answers, n: nat): ExecView {
    if n == 0 then exec
    else
      var before := Played(engines, exec, answers, n - 1);
      Process(engines, before, answers(n - 1, before)).0
  }

  lemma UnsettledHasWork(engines: Engines, exec: ExecView)
    requires Placed(engines, exec) && !Settled(engines, exec)
    ensures InlineWork(engines, exec) > 0 && forall merged :: Process(engines, exec, merged).1
  {
  }

  /** After as many moves as it has work an execution is settled, whatever the answers. */
  lemma {:induction false} SettlesWithinWork(engines: Engines, exec: ExecView, answers: Answers, n: nat)
    requires Placed(engines, exec)
    ensures var now := Played(engines, exec, answers, n);
            Placed(engines, now) && (Settled(engines, now) || InlineWork(engines, now) + n <= InlineWork(engines, exec))
  {
    if n > 0 {
      var before := Played(engines, exec, answers, n - 1);
      SettlesWithinWork(engines, exec, answers, n - 1);
      OneMoveSettles(engines, before, answers(n - 1, before));
    }
  }

  lemma OneMoveSettles(engines: Engines, before: ExecView, merged: Result<(), string>)
    requires Placed(engines, before)
    ensures var after := Process(engines, before, merged).0;
            Placed(engines, after)
            && if Settled(engines, before) then Settled(engines, after)
               else InlineWork(engines, after) < InlineWork(engines, before)
  {
    ProcessLosesInlineWork(engines, before, merged);
    if !Settled(engines, before) {
      UnsettledHasWork(engines, before);
    }
  }

  /** The limits a step of the cycle could still be granted by are spent. */
  ghost predicate Spent(engine: W.Engine, visits: W.Visits, cycle: seq<string>) {
    forall a :: a in cycle && ActionAt(engine, a) ==>
      SpentPick(engine, visits, PassPick(engine, a)) && SpentPick(engine, visits, FailPick(engine, a))
  }

  predicate SpentPick(engine: W.Engine, visits: W.Visits, pick: Option<string>) {
    pick.Some? && Limited(engine, pick.value) ==> W.Overflows(engine, pick.value, visits)
  }

  predicate Among(step: Option<string>, cycle: seq<string>) {
    step.Some? && step.value in cycle
  }

  /** Action steps each of which leads to one of them. */
  ghost predicate Trap(engine: W.Engine, cycle: seq<string>) {
    forall a :: a in cycle ==>
      ActionAt(engine, a) && (Among(PassNext(engine, a), cycle) || Among(FailNext(engine, a), cycle))
  }

  lemma CycleIsTrap(engine: W.Engine, p: seq<string>)
    requires ActionCycle(engine, p)
    ensures Trap(engine, p)
  {
    forall a | a in p
      ensures ActionAt(engine, a) && (Among(PassNext(engine, a), p) || Among(FailNext(engine, a), p))
    {
      var i :| 0 <= i < |p| && p[i] == a;
      var k := if i == |p| - 1 then 0 else i;
      assert p[k] == a && Edge(engine, p[k], p[k + 1]) && p[k + 1] in p;
    }
  }

  /** Merges pass where that leads on into the trap, and fail elsewhere. */
  function Persist(engine: W.Engine, cycle: seq<string>, exec: ExecView): Result<(), string> {
    if exec.phase.Ready? && ActionAt(engine, exec.phase.step) && Among(PassNext(engine, exec.phase.step), cycle)
    then Ok(()) else Err("")
  }

  ghost predicate Circling(engines: Engines, exec: ExecView, workflow: string, cycle: seq<string>) {
    && exec.workflow == workflow && workflow in engines && exec.status == Running
    && Trap(engines[workflow], cycle) && Spent(engines[workflow], exec.visits, cycle)
    && match exec.phase
       case Ready(a, _) => a in cycle
       case NeedsAdvance(a) => a in cycle && exec.lastOutput == Some("pass") && Among(PassNext(engines[workflow], a), cycle)
       case NeedsFailure(a, _) => a in cycle && Among(FailNext(engines[workflow], a), cycle)
       case _ => false
  }

  lemma OverflowsStay(engine: W.Engine, visits: W.Visits, target: string, pick: Option<string>)
    requires SpentPick(engine, visits, pick)
    ensures SpentPick(engine, visits[target := W.CountOf(visits, target) + 1], pick)
  {
  }

  lemma SpentStays(engine: W.Engine, visits: W.Visits, cycle: seq<string>, target: string)
    requires Spent(engine, visits, cycle)
    ensures Spent(engine, visits[target := W.CountOf(visits, target) + 1], cycle)
  {
    forall a | a in cycle && ActionAt(engine, a)
      ensures var visits' := visits[target := W.CountOf(visits, target) + 1];
              SpentPick(engine, visits', PassPick(engine, a)) && SpentPick(engine, visits', FailPick(engine, a))
    {
      OverflowsStay(engine, visits, target, PassPick(engine, a));
      OverflowsStay(engine, visits, target, FailPick(engine, a));
    }
  }

  /** A spent pick goes exactly where the limit leads. */
  lemma SpentPickGoesOn(engine: W.Engine, passed: bool, target: string, visits: W.Visits)
    requires SpentPick(engine, visits, Some(target)) && PastLimit(engine, Some(target), passed).Some?
    ensures Land(engine, passed, target, visits)
            == (W.Goto(PastLimit(engine, Some(target), passed).value), visits[target := W.CountOf(visits, target) + 1])
  {
  }

  lemma AdvanceCircles(engines: Engines, exec: ExecView, workflow: string, cycle: seq<string>, a: string)
    requires Circling(engines, exec, workflow, cycle) && exec.phase == NeedsAdvance(a)
    ensures Circling(engines, Advance(engines, exec, a), workflow, cycle)
  {
    var engine := engines[workflow];
    var target := PassPick(engine, a).value;
    SpentPickGoesOn(engine, true, target, exec.visits);
    SpentStays(engine, exec.visits, cycle, target);
  }

  lemma FailCircles(engines: Engines, exec: ExecView, workflow: string, cycle: seq<string>, a: string)
    requires Circling(engines, exec, workflow, cycle) && exec.phase.NeedsFailure? && exec.phase.step == a
    ensures Circling(engines, Fail(engines, exec, a), workflow, cycle)
  {
    var engine := engines[workflow];
    var target := FailPick(engine, a).value;
    SpentPickGoesOn(engine, false, target, exec.visits);
    SpentStays(engine, exec.visits, cycle, target);
  }

  lemma CirclingIsUnsettled(engines: Engines, exec: ExecView, workflow: string, cycle: seq<string>)
    requires Circling(engines, exec, workflow, cycle)
    ensures !Settled(engines, exec)
  {
    if exec.phase.Ready? {
      assert ActionAt(engines[workflow], exec.phase.step);
    }
  }

  lemma OneMoveCircles(engines: Engines, exec: ExecView, workflow: string, cycle: seq<string>) returns (after: ExecView)
    requires Circling(engines, exec, workflow, cycle)
    ensures Circling(engines, after, workflow, cycle)
    ensures after == Process(engines, exec, Persist(engines[workflow], cycle, exec)).0
  {
    after := Process(engines, exec, Persist(engines[workflow], cycle, exec)).0;
    match exec.phase
    case NeedsAdvance(a) => AdvanceCircles(engines, exec, workflow, cycle, a);
    case NeedsFailure(a, _) => FailCircles(engines, exec, workflow, cycle, a);
    case Ready(a, _) =>
      assert ActionAt(engines[workflow], a);
  }

  /** `Persist` at every move. */
  function Persistently(engine: W.Engine, cycle: seq<string>): Answers {
    (i: nat, view: ExecView) => Persist(engine, cycle, view)
  }

  lemma {:induction false} CirclesForever(engines: Engines, exec: ExecView, workflow: string, cycle: seq<string>, n: nat)
    returns (now: ExecView)
    requires Circling(engines, exec, workflow, cycle)
    ensures Circling(engines, now, workflow, cycle)
    ensures now == Played(engines, exec, Persistently(engines[workflow], cycle), n)
  {
    if n == 0 {
      return exec;
    }
    var before := CirclesForever(engines, exec, workflow, cycle, n - 1);
    now := OneMoveCircles(engines, before, workflow, cycle);
  }

  ghost predicate EndsUp(engines: Engines, exec: ExecView, answers: Answers) {
    exists n: nat :: Settled(engines, Played(engines, exec, answers, n))
  }

  lemma CirclingNeverSettles(engines: Engines, exec: ExecView, workflow: string, cycle: seq<string>)
    requires Circling(engines, exec, workflow, cycle)
    ensures exists answers: Answers :: !EndsUp(engines, exec, answers)
  {
    var answers := Persistently(engines[workflow], cycle);
    forall n: nat ensures !Settled(engines, Played(engines, exec, answers, n)) {
      var now := CirclesForever(engines, exec, workflow, cycle, n);
      CirclingIsUnsettled(engines, now, workflow, cycle);
    }
    assert !EndsUp(engines, exec, answers);
  }

  /**
   On a cycle of action steps whose limits are spent, if it has any, some merge answers keep the
   scheduler going for ever.
   */
  lemma CycleNeverSettles(engines: Engines, exec: ExecView, cycle: seq<string>)
    requires exec.workflow in engines && ActionCycle(engines[exec.workflow], cycle)
    requires exec.status == Running && exec.phase.Ready? && exec.phase.step in cycle
    requires Spent(engines[exec.workflow], exec.visits, cycle)
    ensures exists answers: Answers :: !EndsUp(engines, exec, answers)
  {
    CycleIsTrap(engines[exec.workflow], cycle);
    CirclingNeverSettles(engines, exec, exec.workflow, cycle);
  }

  /** Started on a cycle that no limit guards, an execution is kept going from its creation on. */
  lemma StartedOnCycleNeverSettles(engines: Engines, workflow: string, vars: map<string, string>, origin: Origin, cycle: seq<string>)
    requires workflow in engines && ActionCycle(engines[workflow], cycle)
    requires forall a :: a in cycle && ActionAt(engines[workflow], a) ==>
               !LimitedPick(engines[workflow], PassPick(engines[workflow], a)) && !LimitedPick(engines[workflow], FailPick(engines[workflow], a))
    ensures exists answers: Answers :: !EndsUp(engines, Created(engines, workflow, vars, origin, Some(cycle[0])), answers)
  {
    CycleNeverSettles(engines, Created(engines, workflow, vars, origin, Some(cycle[0])), cycle);
  }

  predicate LimitedPick(engine: W.Engine, pick: Option<string>) {
    pick.Some? && Limited(engine, pick.value)
  }

  /** A failure still to be handled is of a declared step, and the phase agrees with the status. */
  predicate Sensible(engines: Engines, exec: ExecView) {
    && (exec.phase.Done? <==> exec.status != Running)
    && (exec.phase.NeedsFailure? ==> Lookup(engines, exec.workflow, exec.phase.step).Some?)
  }

  /** Every execution of the workflow settles from whatever step and visits, whatever the merge answers. */
  ghost predicate AlwaysSettles(engines: Engines, workflow: string) {
    forall exec: ExecView, answers: Answers :: exec.workflow == workflow && Sensible(engines, exec) ==> EndsUp(engines, exec, answers)
  }

  /** All limits of the workflow spent. */
  function AllSpent(engine: W.Engine): W.Visits {
    map n | n in Names(engine.steps) && Limited(engine, n) :: W.Lookup(engine, n).value.maxVisits.value
  }

  lemma AllSpentIsSpent(engine: W.Engine, cycle: seq<string>)
    ensures Spent(engine, AllSpent(engine), cycle)
  {
    forall pick ensures SpentPick(engine, AllSpent(engine), pick) {
      if pick.Some? && Limited(engine, pick.value) {
        DeclaredIsNamed(engine, pick.value);
      }
    }
  }

  lemma PlacedEndsUp(engines: Engines, exec: ExecView, answers: Answers)
    requires Placed(engines, exec)
    ensures EndsUp(engines, exec, answers)
  {
    var n := InlineWork(engines, exec);
    SettlesWithinWork(engines, exec, answers, n);
    if !Settled(engines, Played(engines, exec, answers, n)) {
      UnsettledHasWork(engines, Played(engines, exec, answers, n));
    }
  }

  /** The scheduler's loop ends on a workflow exactly if its action steps form no cycle. */
  lemma AlwaysSettlesIff(engines: Engines, workflow: string)
    requires workflow in engines && W.UniqueNames(engines[workflow].steps)
    ensures AlwaysSettles(engines, workflow) <==> NoActionCycle(engines[workflow])
  {
    var engine := engines[workflow];
    if NoActionCycle(engine) {
      forall exec: ExecView, answers: Answers | exec.workflow == workflow && Sensible(engines, exec)
        ensures EndsUp(engines, exec, answers)
      {
        PlacedEndsUp(engines, exec, answers);
      }
    } else {
      var cycle :| ActionCycle(engine, cycle);
      var exec := ExecView(map[], Manual(None), workflow, Running, Ready(cycle[0], 1), AllSpent(engine), None, Retry.NEW_STATE, []);
      AllSpentIsSpent(engine, cycle);
      CycleNeverSettles(engines, exec, cycle);
      var answers: Answers :| !EndsUp(engines, exec, answers);
      assert Sensible(engines, exec);
    }
  }

  lemma {:induction false} StuckStays(engines: Engines, exec: ExecView, answers: Answers, n: nat)
    requires Stuck(engines, exec)
    ensures Played(engines, exec, answers, n) == exec
  {
    if n > 0 {
      StuckStays(engines, exec, answers, n - 1);
      StuckIff(engines, exec, answers(n - 1, exec));
    }
  }

  /** Without action cycles an execution, of a known workflow or not, settles if and only if it is not stuck. */
  lemma SettlesUnlessStuck(engines: Engines, exec: ExecView, answers: Answers)
    requires Acyclic(engines, exec.workflow)
    requires exec.phase.Done? <==> exec.status != Running
    ensures EndsUp(engines, exec, answers) <==> !Stuck(engines, exec)
  {
    if Stuck(engines, exec) {
      forall n: nat ensures !Settled(engines, Played(engines, exec, answers, n)) {
        StuckStays(engines, exec, answers, n);
      }
    } else {
      PlacedEndsUp(engines, exec, answers);
    }
  }

  // ── A spent cycle that events reach ─────────────────────────────────

  /** A merge, then a check that may run once and otherwise goes back to the merge. */
  const ECHO := W.Engine("w", [
    W.Step("merge", Some("merge_to_main"), [W.Transition("*", "check")], None, None, None, None),
    W.Step("check", None, [W.Transition("*", "complete")], None, Some(1), Some("merge"), None)])

  const ECHO_ENGINES := map["w" := ECHO]

  lemma EchoIsCycle()
    ensures W.Lookup(ECHO, "merge") == Some(ECHO.steps[0]) && W.Lookup(ECHO, "check") == Some(ECHO.steps[1])
    ensures ActionCycle(ECHO, ["merge", "merge"])
    ensures W.PickNext(ECHO, "merge", "pass") == W.Primary("check")
  {
    assert ECHO.steps[1..][0].name == "check";
    assert W.IndexOf(ECHO.steps, "merge") == Some(0) && W.IndexOf(ECHO.steps, "check") == Some(1);
    assert PassNext(ECHO, "merge") == Some("merge");
    assert Edge(ECHO, "merge", "merge");
  }

  /**
   The inline merge also comes back over the stream: the herder hears its own step.confirmed and advances a
   second time. That spends the check's one visit, and the execution goes round the merge for ever.
   */
  lemma EchoedConfirmNeverSettles(vars: map<string, string>, origin: Origin)
    ensures var merging := Created(ECHO_ENGINES, "w", vars, origin, None);
            var checking := Answer(ECHO_ENGINES, merging, Passed("", []));
            && checking.phase == Ready("check", 1) && Settled(ECHO_ENGINES, checking)
            && exists answers: Answers :: !EndsUp(ECHO_ENGINES, OnConfirmed(checking, "merge"), answers)
  {
    EchoIsCycle();
    var merging := Created(ECHO_ENGINES, "w", vars, origin, None);
    var checking := Answer(ECHO_ENGINES, merging, Passed("", []));
    assert checking.lastOutput == Some("pass") && checking.visits == map["check" := 1];
    CycleIsTrap(ECHO, ["merge", "merge"]);
    assert Spent(ECHO, checking.visits, ["merge", "merge"]);
    CirclingNeverSettles(ECHO_ENGINES, OnConfirmed(checking, "merge"), "w", ["merge", "merge"]);
  }

  /** In a bounded workflow a spent limit always escalates, so there is no cycle. */
  lemma BoundedHasNoActionCycle(engine: W.Engine)
    requires Bounded(engine)
    ensures NoActionCycle(engine)
  {
    forall p ensures !ActionCycle(engine, p) {
      if ActionCycle(engine, p) {
        assert Edge(engine, p[0], p[1]);
        NoEdgeWhenBounded(engine, p[0], p[1]);
      }
    }
  }

  lemma NoEdgeWhenBounded(engine: W.Engine, a: string, b: string)
    requires Bounded(engine)
    ensures !Edge(engine, a, b)
  {
    if ActionAt(engine, a) {
      PickIsDeclared(engine, a, "pass");
      assert BoundedStep(engine, W.Lookup(engine, a).value);
      var pass, fail := PassPick(engine, a), FailPick(engine, a);
      assert pass.Some? ==> BoundedStep(engine, W.Lookup(engine, pass.value).value);
      assert fail.Some? ==> BoundedStep(engine, W.Lookup(engine, fail.value).value);
    }
  }
}
