/**
 When a workflow's max_visits really limits a step (docs/prd/execution.md against ox-core/src/workflow.rs
 and ox-herder/src/herder.rs): executions, with their outputs, retries and signals, visit a step as often
 as walks over the step graph do, and finitely many walks decide.
 */
module Walks {
  import opened Prelude
  import opened Events
  import opened Execution
  import opened BoundedRuns
  import opened Visits
  import Retry
  import W = Workflow
  import S = Settling

  // ── The picks a step can make ───────────────────────────────────────

  function LongestPattern(transitions: seq<W.Transition>): (n: nat)
    ensures forall i :: 0 <= i < |transitions| ==> |transitions[i].pattern| <= n
  {
    if transitions == [] then 0
    else
      var rest, own := LongestPattern(transitions[1..]), |transitions[0].pattern|;
      if own > rest then own else rest
  }

  /** An output that only a wildcard matches. */
  function Fresh(transitions: seq<W.Transition>): (output: string)
    ensures forall i :: 0 <= i < |transitions| && W.TransitionMatches(transitions[i].pattern, output) ==>
              transitions[i].pattern == "*"
  {
    var output := seq(LongestPattern(transitions) + 1, i => 'x');
    assert forall i :: 0 <= i < |transitions| && transitions[i].pattern + ":" <= output ==>
        output[|transitions[i].pattern|] == ':';
    output
  }

  /** One output for each way the transitions can go. */
  function Witnesses(step: W.Step): seq<string> {
    seq(|step.transitions|, i requires 0 <= i < |step.transitions| => step.transitions[i].pattern) + [Fresh(step.transitions)]
  }

  /** A passing step can pick the target; a merge always passes with the same output. */
  predicate CanPick(engine: W.Engine, a: string, target: string) {
    W.Lookup(engine, a).Some? &&
    var step := W.Lookup(engine, a).value;
    if step.action.Some? then
      step.action == Some("merge_to_main") && W.PickNext(engine, a, "pass") == W.Primary(target)
    else
      exists i :: 0 <= i < |Witnesses(step)| && W.PickNext(engine, a, Witnesses(step)[i]) == W.Primary(target)
  }

  predicate Possible(engine: W.Engine, a: string, m: Move) {
    if m.failed then
      W.Lookup(engine, a).Some? && W.Lookup(engine, a).value.onFail == Some(m.target) && m.target != "escalate"
    else CanPick(engine, a, m.target)
  }

  lemma MatchesThrough(p: string, q: string, output: string)
    requires W.TransitionMatches(p, q) && W.TransitionMatches(q, output) && q != "*"
    ensures W.TransitionMatches(p, output)
  {
    if p != "*" && p != q && q != output {
      assert p + ":" <= q <= output;
    }
  }

  /** The transition an output takes is also taken by a witness. */
  lemma WitnessMatches(transitions: seq<W.Transition>, output: string) returns (w: string)
    ensures W.FirstMatch(transitions, w) == W.FirstMatch(transitions, output)
    ensures w == Fresh(transitions) || exists i :: 0 <= i < |transitions| && transitions[i].pattern == w
  {
    var k := W.FirstMatch(transitions, output);
    if k.None? || transitions[k.value].pattern == "*" {
      w := Fresh(transitions);
    } else {
      w := transitions[k.value].pattern;
      forall i | 0 <= i < k.value ensures !W.TransitionMatches(transitions[i].pattern, w) {
        if W.TransitionMatches(transitions[i].pattern, w) {
          MatchesThrough(transitions[i].pattern, w, output);
        }
      }
    }
  }

  lemma OutputHasWitness(engine: W.Engine, a: string, output: string) returns (i: nat)
    requires W.Lookup(engine, a).Some?
    ensures var step := W.Lookup(engine, a).value;
            i < |Witnesses(step)| && W.PickNext(engine, a, Witnesses(step)[i]) == W.PickNext(engine, a, output)
  {
    var step := W.Lookup(engine, a).value;
    var w := WitnessMatches(step.transitions, output);
    if w == Fresh(step.transitions) {
      i := |step.transitions|;
    } else {
      i :| 0 <= i < |step.transitions| && step.transitions[i].pattern == w;
    }
    assert Witnesses(step)[i] == w;
  }

  // ── Walks ───────────────────────────────────────────────────────────

  /** The moves can be made one after another, each where the one before landed; only the last may end the run. */
  predicate IsWalk(engine: W.Engine, at: string, visits: W.Visits, w: seq<Move>)
    decreases |w|
  {
    w == [] ||
    (Possible(engine, at, w[0]) &&
     var (advance, visits') := Land(engine, w[0], visits);
     if advance.Goto? then IsWalk(engine, advance.step, visits', w[1..]) else w[1..] == [])
  }

  function WalkEntries(engine: W.Engine, visits: W.Visits, w: seq<Move>, step: string): nat
    decreases |w|
  {
    if w == [] then 0
    else
      var (advance, visits') := Land(engine, w[0], visits);
      One(advance == W.Goto(step)) + WalkEntries(engine, visits', w[1..], step)
  }

  lemma MoveIsPossible(engines: Engines, exec: ExecView, outcome: Outcome)
    requires exec.workflow in engines && exec.phase.Ready? && exec.status == Running
    requires MoveOf(engines, exec, outcome).Some?
    ensures Possible(engines[exec.workflow], exec.phase.step, MoveOf(engines, exec, outcome).value)
  {
    var engine, a := engines[exec.workflow], exec.phase.step;
    var reported := Reported(engines, exec, outcome);
    ReportedKeepsView(engines, exec, outcome);
    if reported.phase.NeedsAdvance? {
      assert W.Lookup(engine, a).Some?;
      if !IsActionStep(engines, exec, a) {
        var i := OutputHasWitness(engine, a, Output(reported));
      }
    }
  }

  function Optional(m: Option<Move>): seq<Move> {
    if m.Some? then [m.value] else []
  }

  /** The picks a run makes. */
  function MovesOf(engines: Engines, exec: ExecView, outcomes: seq<Outcome>): seq<Move>
    requires exec.workflow in engines
    decreases |outcomes|
  {
    if outcomes == [] || !exec.phase.Ready? then []
    else
      AnswerKeepsWorkflow(engines, exec, outcomes[0]);
      Optional(MoveOf(engines, exec, outcomes[0])) + MovesOf(engines, Answer(engines, exec, outcomes[0]), outcomes[1..])
  }

  lemma EnteredOptional(engine: W.Engine, exec: ExecView, m: Option<Move>, after: ExecView, w: seq<Move>, step: string)
    requires exec.phase.Ready? && Follows(engine, exec, m, after, exec.phase.step)
    ensures WalkEntries(engine, exec.visits, Optional(m) + w, step)
            == (if m.Some? then One(Land(engine, m.value, exec.visits).0 == W.Goto(step)) else 0)
               + WalkEntries(engine, after.visits, w, step)
  {
    if m.Some? {
      assert (Optional(m) + w)[1..] == w;
    } else {
      assert Optional(m) + w == w;
    }
  }

  lemma WalkOptional(engine: W.Engine, exec: ExecView, m: Option<Move>, after: ExecView, w: seq<Move>)
    requires exec.phase.Ready? && Follows(engine, exec, m, after, exec.phase.step)
    requires m.Some? ==> Possible(engine, exec.phase.step, m.value)
    requires if after.phase.Ready? then IsWalk(engine, after.phase.step, after.visits, w) else w == []
    ensures IsWalk(engine, exec.phase.step, exec.visits, Optional(m) + w)
  {
    if m.Some? {
      assert (Optional(m) + w)[1..] == w;
    } else {
      assert Optional(m) + w == w;
    }
  }

  lemma {:induction false} MovesEnter(engines: Engines, exec: ExecView, outcomes: seq<Outcome>, step: string)
    requires exec.workflow in engines && exec.status == Running
    ensures WalkEntries(engines[exec.workflow], exec.visits, MovesOf(engines, exec, outcomes), step)
            == TallyOf(engines, exec, outcomes, step).entered
    decreases |outcomes|
  {
    if outcomes != [] && exec.phase.Ready? {
      var after, m := Answer(engines, exec, outcomes[0]), MoveOf(engines, exec, outcomes[0]);
      AnswerFollowsMove(engines, exec, outcomes[0]);
      if after.phase.Ready? {
        MovesEnter(engines, after, outcomes[1..], step);
      }
      EnteredOptional(engines[exec.workflow], exec, m, after, MovesOf(engines, after, outcomes[1..]), step);
    }
  }

  lemma {:induction false} MovesWalk(engines: Engines, exec: ExecView, outcomes: seq<Outcome>)
    requires exec.workflow in engines && exec.status == Running && exec.phase.Ready?
    ensures IsWalk(engines[exec.workflow], exec.phase.step, exec.visits, MovesOf(engines, exec, outcomes))
    decreases |outcomes|
  {
    if outcomes != [] {
      var after, m := Answer(engines, exec, outcomes[0]), MoveOf(engines, exec, outcomes[0]);
      AnswerFollowsMove(engines, exec, outcomes[0]);
      if after.phase.Ready? {
        MovesWalk(engines, after, outcomes[1..]);
      }
      if m.Some? {
        MoveIsPossible(engines, exec, outcomes[0]);
      }
      WalkOptional(engines[exec.workflow], exec, m, after, MovesOf(engines, after, outcomes[1..]));
    }
  }

  // ── Every walk is a run ─────────────────────────────────────────────

  /** A pass that can pick the target does, on the right output. */
  lemma PassPlays(engines: Engines, exec: ExecView, m: Move) returns (outcome: Outcome)
    requires exec.workflow in engines && exec.status == Running && exec.phase.Ready?
    requires !m.failed && Possible(engines[exec.workflow], exec.phase.step, m)
    ensures MoveOf(engines, exec, outcome) == Some(m)
  {
    var engine, a := engines[exec.workflow], exec.phase.step;
    var def := W.Lookup(engine, a).value;
    var output := "";
    if def.action.None? {
      var i :| 0 <= i < |Witnesses(def)| && W.PickNext(engine, a, Witnesses(def)[i]) == W.Primary(m.target);
      output := Witnesses(def)[i];
    }
    outcome := Passed(output, []);
    ReportedKeepsView(engines, exec, outcome);
    assert Output(Reported(engines, exec, outcome)) == if def.action.Some? then "pass" else output;
  }

  function FailuresHeld(exec: ExecView, step: string): nat {
    if exec.retry.lastStep == Some(step) then Retry.CountOf(exec.retry, step) else 0
  }

  /** One more failure of a step either makes the on_fail pick or is retried, with the failure held against it. */
  lemma FailOnce(engines: Engines, exec: ExecView, m: Move) returns (outcome: Outcome, after: ExecView)
    requires exec.workflow in engines && exec.status == Running && exec.phase.Ready?
    requires m.failed && Possible(engines[exec.workflow], exec.phase.step, m)
    ensures after == Answer(engines, exec, outcome)
    ensures MoveOf(engines, exec, outcome) == Some(m) ||
            (MoveOf(engines, exec, outcome).None? && after.phase.Ready? && after.phase.step == exec.phase.step
             && after.status == Running && after.workflow == exec.workflow && after.visits == exec.visits
             && FailuresHeld(exec, exec.phase.step) < FailuresHeld(after, exec.phase.step)
             && FailuresHeld(after, exec.phase.step)
                <= Retry.Budget(W.Lookup(engines[exec.workflow], exec.phase.step).value.maxRetries))
  {
    outcome := FailedWith("", []);
    after := Answer(engines, exec, outcome);
    ReportedKeepsView(engines, exec, outcome);
    AnswerFollowsMove(engines, exec, outcome);
    assert Reported(engines, exec, outcome).retry == exec.retry;
  }

  lemma MovesUnfold(engines: Engines, exec: ExecView, outcome: Outcome, rest: seq<Outcome>)
    requires exec.workflow in engines && exec.phase.Ready? && Answer(engines, exec, outcome).workflow == exec.workflow
    ensures MovesOf(engines, exec, [outcome] + rest)
            == Optional(MoveOf(engines, exec, outcome)) + MovesOf(engines, Answer(engines, exec, outcome), rest)
  {
    assert ([outcome] + rest)[1..] == rest;
  }

  /** What retries the ready step has left; a step that is not declared has none. */
  function RetriesLeft(engines: Engines, exec: ExecView): nat
    requires exec.workflow in engines && exec.phase.Ready?
  {
    var def := W.Lookup(engines[exec.workflow], exec.phase.step);
    if def.None? then 0
    else
      var budget := Retry.Budget(def.value.maxRetries);
      1 + budget - Min(FailuresHeld(exec, exec.phase.step), budget)
  }

  /** The next outcome to play a walk: it makes the walk's first move, or uses up a retry before it. */
  lemma NextOutcome(engines: Engines, exec: ExecView, w: seq<Move>) returns (outcome: Outcome, after: ExecView, left: seq<Move>)
    requires exec.workflow in engines && exec.status == Running && exec.phase.Ready?
    requires w != [] && IsWalk(engines[exec.workflow], exec.phase.step, exec.visits, w)
    ensures after == Answer(engines, exec, outcome) && after.workflow == exec.workflow
    ensures w == Optional(MoveOf(engines, exec, outcome)) + left
    ensures if after.phase.Ready? then after.status == Running && IsWalk(engines[after.workflow], after.phase.step, after.visits, left)
            else left == []
    ensures |left| < |w| || (left == w && after.phase.Ready? && RetriesLeft(engines, after) < RetriesLeft(engines, exec))
  {
    var m := w[0];
    SplitFirst(w);
    if m.failed {
      outcome, after := FailOnce(engines, exec, m);
    } else {
      outcome := PassPlays(engines, exec, m);
      after := Answer(engines, exec, outcome);
    }
    AnswerFollowsMove(engines, exec, outcome);
    left := if MoveOf(engines, exec, outcome) == Some(m) then w[1..] else w;
  }

  /** Every walk is the picks of some run. */
  lemma {:induction false} WalkIsRun(engines: Engines, exec: ExecView, w: seq<Move>) returns (outcomes: seq<Outcome>)
    requires exec.workflow in engines && exec.status == Running && exec.phase.Ready?
    requires IsWalk(engines[exec.workflow], exec.phase.step, exec.visits, w)
    ensures MovesOf(engines, exec, outcomes) == w
    decreases |w|, RetriesLeft(engines, exec)
  {
    if w == [] {
      return [];
    }
    var outcome, after, left := NextOutcome(engines, exec, w);
    var rest := [];
    if after.phase.Ready? {
      rest := WalkIsRun(engines, after, left);
    }
    outcomes := [outcome] + rest;
    MovesUnfold(engines, exec, outcome, rest);
  }

  // ── Finitely many walks decide ──────────────────────────────────────

  /** The two counts leave every step the same number of visits, so no limit tells them apart. */
  ghost predicate SameGrants(engine: W.Engine, u: W.Visits, v: W.Visits) {
    forall s :: s in engine.steps ==> Remaining(s, u) == Remaining(s, v)
  }

  lemma {:induction false} SameGrantsSameTotal(steps: seq<W.Step>, u: W.Visits, v: W.Visits)
    requires forall s :: s in steps ==> Remaining(s, u) == Remaining(s, v)
    ensures RemainingVisits(steps, u) == RemainingVisits(steps, v)
  {
    if steps != [] {
      SameGrantsSameTotal(steps[1..], u, v);
    }
  }

  lemma LandSame(engine: W.Engine, m: Move, u: W.Visits, v: W.Visits)
    requires SameGrants(engine, u, v)
    ensures Land(engine, m, u).0 == Land(engine, m, v).0
    ensures SameGrants(engine, Land(engine, m, u).1, Land(engine, m, v).1)
  {
    var s := W.Lookup(engine, m.target);
    if s.Some? {
      assert Remaining(s.value, u) == Remaining(s.value, v);
    }
  }

  lemma {:induction false} WalkSame(engine: W.Engine, at: string, u: W.Visits, v: W.Visits, w: seq<Move>, step: string)
    requires SameGrants(engine, u, v)
    ensures IsWalk(engine, at, u, w) == IsWalk(engine, at, v, w)
    ensures WalkEntries(engine, u, w, step) == WalkEntries(engine, v, w, step)
    decreases |w|
  {
    if w != [] {
      LandSame(engine, w[0], u, v);
      var (advance, u') := Land(engine, w[0], u);
      WalkSame(engine, if advance.Goto? then advance.step else "", u', Land(engine, w[0], v).1, w[1..], step);
    }
  }

  /** A move that enters the step, ends the run, or uses up a visit some limit still allows. */
  predicate Busy(engine: W.Engine, m: Move, visits: W.Visits, step: string) {
    var advance := Land(engine, m, visits).0;
    !advance.Goto? || advance.step == step || (S.Limited(engine, m.target) && !W.Overflows(engine, m.target, visits))
  }

  lemma IdleKeepsGrants(engine: W.Engine, m: Move, visits: W.Visits, step: string)
    requires W.UniqueNames(engine.steps) && !Busy(engine, m, visits, step)
    ensures SameGrants(engine, visits, Land(engine, m, visits).1)
  {
    forall s | s in engine.steps ensures Remaining(s, visits) == Remaining(s, Land(engine, m, visits).1) {
      if s.name == m.target {
        var k :| 0 <= k < |engine.steps| && engine.steps[k] == s;
        W.UniqueIndex(engine.steps, k);
      }
    }
  }

  /** Up to its first busy move the walk makes no move at the node. */
  predicate Avoids(engine: W.Engine, at: string, visits: W.Visits, w: seq<Move>, step: string, node: string)
    decreases |w|
  {
    at != node &&
    (w != [] && !Busy(engine, w[0], visits, step) ==>
       var (advance, visits') := Land(engine, w[0], visits);
       Avoids(engine, advance.step, visits', w[1..], step, node))
  }

  lemma {:induction false} AvoidsSame(engine: W.Engine, at: string, u: W.Visits, v: W.Visits, w: seq<Move>, step: string, node: string)
    requires SameGrants(engine, u, v)
    ensures Avoids(engine, at, u, w, step, node) == Avoids(engine, at, v, w, step, node)
    decreases |w|
  {
    if w != [] {
      LandSame(engine, w[0], u, v);
      BusySame(engine, w[0], u, v, step);
      if !Busy(engine, w[0], u, step) {
        var (advance, u') := Land(engine, w[0], u);
        AvoidsSame(engine, advance.step, u', Land(engine, w[0], v).1, w[1..], step, node);
      }
    }
  }

  lemma BusySame(engine: W.Engine, m: Move, u: W.Visits, v: W.Visits, step: string)
    requires SameGrants(engine, u, v)
    ensures Busy(engine, m, u, step) == Busy(engine, m, v, step)
  {
    LandSame(engine, m, u, v);
    var s := W.Lookup(engine, m.target);
    if s.Some? {
      assert Remaining(s.value, u) == Remaining(s.value, v);
    }
  }

  /** A walk worth cutting down: it can be made, enters often enough, and keeps off the nodes before its first busy move. */
  ghost predicate Serves(engine: W.Engine, at: string, visits: W.Visits, w: seq<Move>, step: string, need: nat, avoid: set<string>) {
    && IsWalk(engine, at, visits, w) && WalkEntries(engine, visits, w, step) >= need
    && forall x :: x in avoid ==> Avoids(engine, at, visits, w, step, x)
  }

  lemma ServesSame(engine: W.Engine, at: string, u: W.Visits, v: W.Visits, w: seq<Move>, step: string, need: nat, avoid: set<string>)
    requires SameGrants(engine, u, v) && Serves(engine, at, u, w, step, need, avoid)
    ensures Serves(engine, at, v, w, step, need, avoid)
  {
    WalkSame(engine, at, u, v, w, step);
    forall x | x in avoid ensures Avoids(engine, at, v, w, step, x) {
      AvoidsSame(engine, at, u, v, w, step, x);
    }
  }

  /** An idle first move can be dropped: what follows serves from where it leads. */
  lemma DropIdle(engine: W.Engine, at: string, visits: W.Visits, w: seq<Move>, step: string, need: nat, avoid: set<string>)
    requires w != [] && !Busy(engine, w[0], visits, step) && Serves(engine, at, visits, w, step, need, avoid)
    ensures Serves(engine, Land(engine, w[0], visits).0.step, Land(engine, w[0], visits).1, w[1..], step, need, avoid)
  {
    var (advance, visits') := Land(engine, w[0], visits);
    forall x | x in avoid ensures Avoids(engine, advance.step, visits', w[1..], step, x) {
      assert Avoids(engine, at, visits, w, step, x);
    }
  }

  /** Idle moves that come back to a node can be cut: some later part of the walk starts there. */
  lemma {:induction false} ComesBack(engine: W.Engine, at: string, visits: W.Visits, w: seq<Move>, step: string, need: nat,
                                     avoid: set<string>, node: string) returns (u: seq<Move>)
    requires W.UniqueNames(engine.steps) && Serves(engine, at, visits, w, step, need, avoid)
    requires !Avoids(engine, at, visits, w, step, node)
    ensures |u| <= |w| && Serves(engine, node, visits, u, step, need, avoid)
    decreases |w|
  {
    if at == node {
      return w;
    }
    var (advance, visits') := Land(engine, w[0], visits);
    DropIdle(engine, at, visits, w, step, need, avoid);
    u := ComesBack(engine, advance.step, visits', w[1..], step, need, avoid, node);
    IdleKeepsGrants(engine, w[0], visits, step);
    ServesSame(engine, node, visits', visits, u, step, need, avoid);
  }

  /** The walk from its last idle visit of the node it starts at. */
  lemma {:induction false} LastVisit(engine: W.Engine, at: string, visits: W.Visits, w: seq<Move>, step: string, need: nat,
                                     avoid: set<string>) returns (u: seq<Move>)
    requires W.UniqueNames(engine.steps) && need > 0 && Serves(engine, at, visits, w, step, need, avoid)
    ensures u != [] && |u| <= |w| && Serves(engine, at, visits, u, step, need, avoid)
    ensures !Busy(engine, u[0], visits, step) ==>
              Avoids(engine, Land(engine, u[0], visits).0.step, Land(engine, u[0], visits).1, u[1..], step, at)
    decreases |w|
  {
    if Busy(engine, w[0], visits, step) {
      return w;
    }
    var (advance, visits') := Land(engine, w[0], visits);
    if Avoids(engine, advance.step, visits', w[1..], step, at) {
      return w;
    }
    DropIdle(engine, at, visits, w, step, need, avoid);
    u := ComesBack(engine, advance.step, visits', w[1..], step, need, avoid, at);
    IdleKeepsGrants(engine, w[0], visits, step);
    ServesSame(engine, at, visits', visits, u, step, need, avoid);
    u := LastVisit(engine, at, visits, u, step, need, avoid);
  }

  /** A busy move that does not end the run spends a visit some limit allows, or is an entry. */
  lemma BusySpends(engine: W.Engine, m: Move, visits: W.Visits, step: string)
    requires W.UniqueNames(engine.steps) && Busy(engine, m, visits, step) && Land(engine, m, visits).0.Goto?
    ensures RemainingVisits(engine.steps, Land(engine, m, visits).1) + One(Land(engine, m, visits).0 != W.Goto(step))
            <= RemainingVisits(engine.steps, visits)
  {
    if S.Limited(engine, m.target) && !W.Overflows(engine, m.target, visits) {
      GrantUsesOneVisit(engine.steps, visits, W.IndexOf(engine.steps, m.target).value);
    } else {
      forall s | s in engine.steps && s.name == m.target && s.maxVisits.Some?
        ensures W.CountOf(visits, m.target) + 1 > s.maxVisits.value
      {
        var k :| 0 <= k < |engine.steps| && engine.steps[k] == s;
        W.UniqueIndex(engine.steps, k);
      }
      S.UngrantedKeepsVisits(engine.steps, visits, m.target);
    }
  }

  lemma MoverIsNamed(engine: W.Engine, at: string, visits: W.Visits, w: seq<Move>)
    requires w != [] && IsWalk(engine, at, visits, w)
    ensures at in S.Names(engine.steps)
  {
    S.DeclaredIsNamed(engine, at);
  }

  lemma RoomLeft(engine: W.Engine, at: string, avoid: set<string>)
    requires at in S.Names(engine.steps) && at !in avoid && avoid <= S.Names(engine.steps)
    ensures |avoid| < |engine.steps| && |avoid + {at}| == |avoid| + 1
  {
    S.FewNames(engine.steps);
    SubsetIsNoLarger(avoid + {at}, S.Names(engine.steps));
  }

  /** Every segment of idle moves visits each step once at most, and there are at most so many segments. */
  function Bound(engine: W.Engine, visits: W.Visits, need: nat): nat {
    VisitsWorth(RemainingVisits(engine.steps, visits) + need, |engine.steps|)
  }

  lemma BoundDrops(engine: W.Engine, u: W.Visits, needU: nat, v: W.Visits, needV: nat)
    requires RemainingVisits(engine.steps, v) + needV < RemainingVisits(engine.steps, u) + needU
    ensures Bound(engine, v, needV) + |engine.steps| <= Bound(engine, u, needU)
  {
    S.VisitsWorthGrows(RemainingVisits(engine.steps, v) + needV + 1, RemainingVisits(engine.steps, u) + needU, |engine.steps|);
  }

  /** Some walk no longer than the bound enters the step as often. */
  lemma {:induction false} Shorten(engine: W.Engine, at: string, visits: W.Visits, w: seq<Move>, step: string, need: nat,
                                   avoid: set<string>) returns (short: seq<Move>)
    requires W.UniqueNames(engine.steps) && need > 0 && avoid <= S.Names(engine.steps)
    requires Serves(engine, at, visits, w, step, need, avoid)
    ensures IsWalk(engine, at, visits, short) && WalkEntries(engine, visits, short, step) >= need
    ensures |short| + |avoid| <= Bound(engine, visits, need)
    decreases |w|, 1
  {
    var u := LastVisit(engine, at, visits, w, step, need, avoid);
    MoverIsNamed(engine, at, visits, u);
    assert at !in avoid by {
      assert forall x :: x in avoid ==> Avoids(engine, at, visits, u, step, x);
    }
    RoomLeft(engine, at, avoid);
    if Busy(engine, u[0], visits, step) {
      short := AfterBusy(engine, at, visits, u, step, need, avoid);
    } else {
      short := AfterIdle(engine, at, visits, u, step, need, avoid);
    }
  }

  lemma DropIdleAvoiding(engine: W.Engine, at: string, visits: W.Visits, u: seq<Move>, step: string, need: nat, avoid: set<string>)
    requires u != [] && !Busy(engine, u[0], visits, step) && Serves(engine, at, visits, u, step, need, avoid)
    requires Avoids(engine, Land(engine, u[0], visits).0.step, Land(engine, u[0], visits).1, u[1..], step, at)
    ensures Serves(engine, Land(engine, u[0], visits).0.step, Land(engine, u[0], visits).1, u[1..], step, need, avoid + {at})
  {
    DropIdle(engine, at, visits, u, step, need, avoid);
  }

  lemma IdleKeepsBound(engine: W.Engine, m: Move, visits: W.Visits, step: string, need: nat)
    requires W.UniqueNames(engine.steps) && !Busy(engine, m, visits, step)
    ensures Bound(engine, Land(engine, m, visits).1, need) == Bound(engine, visits, need)
  {
    IdleKeepsGrants(engine, m, visits, step);
    SameGrantsSameTotal(engine.steps, visits, Land(engine, m, visits).1);
  }

  lemma {:induction false} AfterIdle(engine: W.Engine, at: string, visits: W.Visits, u: seq<Move>, step: string, need: nat,
                                     avoid: set<string>) returns (short: seq<Move>)
    requires W.UniqueNames(engine.steps) && need > 0 && avoid <= S.Names(engine.steps)
    requires at in S.Names(engine.steps) && at !in avoid && |avoid + {at}| == |avoid| + 1
    requires u != [] && !Busy(engine, u[0], visits, step) && Serves(engine, at, visits, u, step, need, avoid)
    requires Avoids(engine, Land(engine, u[0], visits).0.step, Land(engine, u[0], visits).1, u[1..], step, at)
    ensures IsWalk(engine, at, visits, short) && WalkEntries(engine, visits, short, step) >= need
    ensures |short| + |avoid| <= Bound(engine, visits, need)
    decreases |u|, 0
  {
    var (advance, visits') := Land(engine, u[0], visits);
    DropIdleAvoiding(engine, at, visits, u, step, need, avoid);
    var rest := Shorten(engine, advance.step, visits', u[1..], step, need, avoid + {at});
    IdleKeepsBound(engine, u[0], visits, step, need);
    short := Extend(engine, at, visits, u[0], rest, step);
  }

  /** A walk with an entry to come does not end here. */
  lemma GoesOn(engine: W.Engine, at: string, visits: W.Visits, u: seq<Move>, step: string)
    requires u != [] && IsWalk(engine, at, visits, u) && WalkEntries(engine, visits, u, step) > 0
    ensures Land(engine, u[0], visits).0.Goto?
  {
    assert u[1..] == [] || Land(engine, u[0], visits).0.Goto?;
  }

  lemma Extend(engine: W.Engine, at: string, visits: W.Visits, m: Move, rest: seq<Move>, step: string) returns (w: seq<Move>)
    requires Possible(engine, at, m)
    requires var (advance, visits') := Land(engine, m, visits);
             if advance.Goto? then IsWalk(engine, advance.step, visits', rest) else rest == []
    ensures w == [m] + rest && IsWalk(engine, at, visits, w)
    ensures WalkEntries(engine, visits, w, step)
            == One(Land(engine, m, visits).0 == W.Goto(step)) + WalkEntries(engine, Land(engine, m, visits).1, rest, step)
  {
    w := [m] + rest;
    assert w[1..] == rest;
  }

  lemma {:induction false} AfterBusy(engine: W.Engine, at: string, visits: W.Visits, u: seq<Move>, step: string, need: nat,
                                     avoid: set<string>) returns (short: seq<Move>)
    requires W.UniqueNames(engine.steps) && need > 0 && |avoid| < |engine.steps|
    requires u != [] && Busy(engine, u[0], visits, step) && Serves(engine, at, visits, u, step, need, avoid)
    ensures IsWalk(engine, at, visits, short) && WalkEntries(engine, visits, short, step) >= need
    ensures |short| + |avoid| <= Bound(engine, visits, need)
    decreases |u|, 0
  {
    var (advance, visits') := Land(engine, u[0], visits);
    GoesOn(engine, at, visits, u, step);
    var left := need - One(advance == W.Goto(step));
    BusySpends(engine, u[0], visits, step);
    BoundDrops(engine, visits, need, visits', left);
    var rest := [];
    if left > 0 {
      rest := Shorten(engine, advance.step, visits', u[1..], step, left, {});
    }
    short := Extend(engine, at, visits, u[0], rest, step);
  }

  // ── The limit, decided ──────────────────────────────────────────────

  /** No run of the new execution visits the step more often than its limit. */
  ghost predicate LimitHolds(engines: Engines, exec: ExecView, step: string, max: nat)
    requires exec.workflow in engines && exec.phase.Ready?
  {
    forall outcomes :: VisitsIn(engines, exec, outcomes, step) <= max
  }

  /** No walk of that length from the start does. */
  ghost predicate NoWalkExceeds(engine: W.Engine, start: string, step: string, max: nat, length: nat) {
    forall w :: |w| <= length && IsWalk(engine, start, map[], w) ==>
      One(start == step) + WalkEntries(engine, map[], w, step) <= max
  }

  function Enough(engine: W.Engine, max: nat): nat {
    (SumOfMaxVisits(engine.steps) + max + 1) * |engine.steps|
  }

  lemma EnoughIsBound(engine: W.Engine, need: nat, max: nat)
    requires need <= max + 1
    ensures Bound(engine, map[], need) <= Enough(engine, max)
  {
    AllVisitsRemainAtFirst(engine.steps);
    S.VisitsWorthGrows(SumOfMaxVisits(engine.steps) + need, SumOfMaxVisits(engine.steps) + max + 1, |engine.steps|);
    VisitsWorthIsProduct(SumOfMaxVisits(engine.steps) + max + 1, |engine.steps|);
  }

  lemma LongWalkHasShort(engine: W.Engine, start: string, w: seq<Move>, step: string, max: nat) returns (short: seq<Move>)
    requires W.UniqueNames(engine.steps) && IsWalk(engine, start, map[], w)
    requires One(start == step) + WalkEntries(engine, map[], w, step) > max
    ensures |short| <= Enough(engine, max) && IsWalk(engine, start, map[], short)
    ensures One(start == step) + WalkEntries(engine, map[], short, step) > max
  {
    if One(start == step) > max {
      return [];
    }
    var need := max + 1 - One(start == step);
    EnoughIsBound(engine, need, max);
    short := Shorten(engine, start, map[], w, step, need, {});
  }

  /**
   The documented limit, over all runs of a new execution: it holds exactly if no walk over the step graph
   of bounded length breaks it, counting the visit at the start and the entries by other steps' overflow.
   Limits of other steps bind along a walk, so with small limits this asks for disjoint paths: no
   property of single edges decides it.
   */
  lemma WalksDecide(engines: Engines, exec: ExecView, step: string, max: nat)
    requires New(engines, exec) && W.UniqueNames(engines[exec.workflow].steps)
    ensures LimitHolds(engines, exec, step, max)
      <==> NoWalkExceeds(engines[exec.workflow], exec.phase.step, step, max, Enough(engines[exec.workflow], max))
  {
    var engine, start := engines[exec.workflow], exec.phase.step;
    if NoWalkExceeds(engine, start, step, max, Enough(engine, max)) {
      forall outcomes ensures VisitsIn(engines, exec, outcomes, step) <= max {
        var w := MovesOf(engines, exec, outcomes);
        MovesEnter(engines, exec, outcomes, step);
        MovesWalk(engines, exec, outcomes);
        if VisitsIn(engines, exec, outcomes, step) > max {
          var short := LongWalkHasShort(engine, start, w, step, max);
        }
      }
    }
    if LimitHolds(engines, exec, step, max) {
      forall w | IsWalk(engine, start, map[], w) ensures One(start == step) + WalkEntries(engine, map[], w, step) <= max {
        var outcomes := WalkIsRun(engines, exec, w);
        MovesEnter(engines, exec, outcomes, step);
        assert VisitsIn(engines, exec, outcomes, step) <= max;
      }
    }
  }
}
