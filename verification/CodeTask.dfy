/**
 The workflow ox ships for code changes (defaults/workflows/code-task.toml), as an instance: its review
 loop visits a step once more than its limit says, and its one action step cannot keep the scheduler busy.
 */
module CodeTask {
  import opened Prelude
  import opened Events
  import opened Execution
  import opened Visits
  import Retry
  import S = Settling
  import W = Workflow

  function Plain(name: string, maxVisits: Option<nat>, overflow: Option<string>, maxRetries: Option<nat>,
                 transitions: seq<W.Transition>): W.Step
  {
    W.Step(name, None, transitions, maxRetries, maxVisits, overflow, None)
  }

  /** Pass, fail, and escalate on anything else. */
  function Verdict(pass: string, fail: string): seq<W.Transition> {
    [W.Transition("pass", pass), W.Transition("fail", fail), W.Transition("*", "escalate")]
  }

  const CODE_TASK := W.Engine("code-task", [
    Plain("propose", Some(3), Some("plan-tiebreak"), None, []),
    Plain("review-plan", None, None, Some(1), Verdict("implement", "propose")),
    Plain("plan-tiebreak", Some(2), None, None, Verdict("implement", "escalate")),
    Plain("implement", Some(3), Some("code-tiebreak"), None, []),
    Plain("review-code", None, None, Some(2), Verdict("merge", "implement")),
    Plain("code-tiebreak", Some(2), None, None, Verdict("merge", "escalate")),
    W.Step("merge", Some("merge_to_main"), [], Some(2), None, None, Some("code-tiebreak"))])

  lemma NamesAreUnique()
    ensures W.UniqueNames(CODE_TASK.steps)
  {
  }

  lemma Positions()
    ensures W.IndexOf(CODE_TASK.steps, "propose") == Some(0) && W.IndexOf(CODE_TASK.steps, "review-plan") == Some(1)
    ensures W.IndexOf(CODE_TASK.steps, "code-tiebreak") == Some(5) && W.IndexOf(CODE_TASK.steps, "merge") == Some(6)
  {
    NamesAreUnique();
    W.UniqueIndex(CODE_TASK.steps, 0);
    W.UniqueIndex(CODE_TASK.steps, 1);
    W.UniqueIndex(CODE_TASK.steps, 5);
    W.UniqueIndex(CODE_TASK.steps, 6);
  }

  /** Only the merge is an action step, and neither its pass nor its on_fail leads to one once limits are spent. */
  lemma SettlesAlways()
    ensures S.NoActionCycle(CODE_TASK)
    ensures S.AlwaysSettles(map["code-task" := CODE_TASK], "code-task")
  {
    Positions();
    NamesAreUnique();
    forall p ensures !S.ActionCycle(CODE_TASK, p) {
      if S.ActionCycle(CODE_TASK, p) {
        assert S.Edge(CODE_TASK, p[0], p[1]);
        OnlyMergeActs(p[0]);
      }
    }
    S.AlwaysSettlesIff(map["code-task" := CODE_TASK], "code-task");
  }

  lemma OnlyLastActs(i: nat)
    requires i < 6
    ensures CODE_TASK.steps[i].action.None?
  {
  }

  lemma OnlyMergeActs(a: string)
    requires S.ActionAt(CODE_TASK, a)
    ensures a == "merge" && S.PassNext(CODE_TASK, a).None? && S.FailNext(CODE_TASK, a).None?
  {
    var i := W.IndexOf(CODE_TASK.steps, a).value;
    if i < 6 {
      OnlyLastActs(i);
      assert false;
    }
    MergeLeadsNowhere();
  }

  lemma MergeStep()
    ensures S.ActionAt(CODE_TASK, "merge") && W.Lookup(CODE_TASK, "merge").value.onFail == Some("code-tiebreak")
    ensures W.PickNext(CODE_TASK, "merge", "pass") == W.Decided(W.Complete)
  {
    Positions();
    assert CODE_TASK.steps[6].action.Some? && CODE_TASK.steps[6].transitions == [];
  }

  lemma TiebreakStep()
    ensures S.Limited(CODE_TASK, "code-tiebreak") && W.Lookup(CODE_TASK, "code-tiebreak").value.maxVisitsGoto.None?
  {
    Positions();
  }

  /** A passed merge completes; a failed one goes to a step whose spent limit escalates. */
  lemma MergeLeadsNowhere()
    ensures S.ActionAt(CODE_TASK, "merge")
    ensures S.PassNext(CODE_TASK, "merge").None? && S.FailNext(CODE_TASK, "merge").None?
  {
    MergeStep();
    TiebreakStep();
  }

  // ── One proposal more than the limit ────────────────────────────────

  const ENGINES := map["code-task" := CODE_TASK]

  const ROUND := [Passed("", []), Passed("fail", [])]

  /** About to propose, with `k` visits counted. */
  predicate Proposing(exec: ExecView, k: nat) {
    && exec.workflow == "code-task" && exec.status == Running && exec.phase.Ready? && exec.phase.step == "propose"
    && W.CountOf(exec.visits, "propose") == k
  }

  lemma ProposalIsReviewed(exec: ExecView, k: nat) returns (after: ExecView)
    requires Proposing(exec, k)
    ensures after == Answer(ENGINES, exec, Passed("", [])) && TallyOne(ENGINES, exec, Passed("", []), "propose").entered == 0
    ensures after.workflow == "code-task" && after.status == Running && after.phase.Ready?
    ensures after.phase.step == "review-plan" && W.CountOf(after.visits, "propose") == k
  {
    Positions();
    after := Answer(ENGINES, exec, Passed("", []));
    AnswerFollowsMove(ENGINES, exec, Passed("", []));
    ReportedKeepsView(ENGINES, exec, Passed("", []));
    assert W.PickNext(CODE_TASK, "propose", "") == W.Primary("review-plan");
    assert MoveOf(ENGINES, exec, Passed("", [])) == Some(Move("review-plan", false));
  }

  lemma FailedReviewPicksPropose()
    ensures W.PickNext(CODE_TASK, "review-plan", "fail") == W.Primary("propose")
  {
    Positions();
    var transitions := CODE_TASK.steps[1].transitions;
    assert transitions == Verdict("implement", "propose");
    assert !W.TransitionMatches("pass", "fail") && W.TransitionMatches("fail", "fail");
    assert W.FirstMatch(transitions, "fail") == Some(1);
  }

  lemma ReviewSendsBack(exec: ExecView, k: nat) returns (after: ExecView)
    requires exec.workflow == "code-task" && exec.status == Running && exec.phase.Ready?
    requires exec.phase.step == "review-plan" && W.CountOf(exec.visits, "propose") == k && k < 3
    ensures after == Answer(ENGINES, exec, Passed("fail", [])) && TallyOne(ENGINES, exec, Passed("fail", []), "propose").entered == 1
    ensures Proposing(after, k + 1)
  {
    Positions();
    FailedReviewPicksPropose();
    after := Answer(ENGINES, exec, Passed("fail", []));
    AnswerFollowsMove(ENGINES, exec, Passed("fail", []));
    ReportedKeepsView(ENGINES, exec, Passed("fail", []));
    assert MoveOf(ENGINES, exec, Passed("fail", [])) == Some(Move("propose", false));
  }

  /** Each round of proposing and failing review is one more visit. */
  lemma RoundEntersOnce(exec: ExecView, k: nat, rest: seq<Outcome>) returns (after: ExecView)
    requires Proposing(exec, k) && k < 3
    ensures Proposing(after, k + 1)
    ensures TallyOf(ENGINES, exec, ROUND + rest, "propose").entered == 1 + TallyOf(ENGINES, after, rest, "propose").entered
  {
    var outcomes := ROUND + rest;
    var reviewing := ProposalIsReviewed(exec, k);
    after := ReviewSendsBack(reviewing, k);
    assert outcomes[1..] == [ROUND[1]] + rest && outcomes[1..][1..] == rest;
    assert TallyOf(ENGINES, exec, outcomes, "propose")
        == Plus(TallyOne(ENGINES, exec, ROUND[0], "propose"), TallyOf(ENGINES, reviewing, outcomes[1..], "propose"));
    assert TallyOf(ENGINES, reviewing, outcomes[1..], "propose")
        == Plus(TallyOne(ENGINES, reviewing, ROUND[1], "propose"), TallyOf(ENGINES, after, rest, "propose"));
  }

  /** Three failed reviews: four proposals, although max_visits is three. */
  lemma FourthProposal(vars: map<string, string>, origin: Origin)
    ensures var exec := Created(ENGINES, "code-task", vars, origin, None);
            && CODE_TASK.steps[0].name == "propose" && CODE_TASK.steps[0].maxVisits == Some(3)
            && VisitsIn(ENGINES, exec, ROUND + (ROUND + (ROUND + [])), "propose") == 4
  {
    var exec := Created(ENGINES, "code-task", vars, origin, None);
    assert Proposing(exec, 0);
    var one := RoundEntersOnce(exec, 0, ROUND + (ROUND + []));
    var two := RoundEntersOnce(one, 1, ROUND + []);
    var three := RoundEntersOnce(two, 2, []);
    assert TallyOf(ENGINES, three, [], "propose") == NOTHING;
  }
}
