/**
 Retry budgets (ox-core/src/workflow.rs, RetryTracker). `Record` and `Cleared` are the values the
 tracker's two mutators compute; `Streak` is the specification they are proved against: how many
 times in a row, counting back from now, the step has failed.
 */
module Retry {
  import opened Prelude

  const DEFAULT_MAX_RETRIES: nat := 3

  datatype RetryState = RetryState(counts: map<string, nat>, lastStep: Option<string>)

  datatype RetryDecision = Retry(attempt: nat) | Exhausted

  const NEW_STATE := RetryState(map[], None)

  function Budget(maxRetries: Option<nat>): nat {
    match maxRetries
    case Some(n) => n
    case None => DEFAULT_MAX_RETRIES
  }

  function CountOf(st: RetryState, step: string): nat {
    if step in st.counts then st.counts[step] else 0
  }

  /** State and answer after one reported failure of `step`. */
  function Record(st: RetryState, step: string, maxRetries: Option<nat>, force: bool)
    : (RetryState, RetryDecision)
  {
    if force then
      (RetryState(st.counts - {step}, Some(step)), Exhausted)
    else
      var counts := if st.lastStep != Some(step) then map[] else st.counts;
      var count := (if step in counts then counts[step] else 0) + 1;
      (RetryState(counts[step := count], Some(step)),
       if count <= Budget(maxRetries) then Retry(count + 1) else Exhausted)
  }

  /** The tracker of one execution. */
  class RetryTracker {
    var counts: map<string, nat>
    var lastStep: Option<string>

    function State(): RetryState
      reads this
    {
      RetryState(counts, lastStep)
    }

    constructor ()
      ensures State() == NEW_STATE
    {
      counts := map[];
      lastStep := None;
    }

    method RecordFailure(step: string, maxRetries: Option<nat>, forceEscalate: bool)
      returns (decision: RetryDecision)
      modifies this
      ensures (State(), decision) == Record(old(State()), step, maxRetries, forceEscalate)
    {
      if forceEscalate {
        counts := counts - {step};
        lastStep := Some(step);
        return Exhausted;
      }
      var max := Budget(maxRetries);
      if lastStep != Some(step) {
        counts := map[];
        lastStep := Some(step);
      }
      var count := if step in counts then counts[step] else 0;
      count := count + 1;
      counts := counts[step := count];
      decision := if count <= max then Retry(count + 1) else Exhausted;
    }

    method Reset()
      modifies this
      ensures State() == NEW_STATE
    {
      counts := map[];
      lastStep := None;
    }
  }

  // ── The history a tracker has seen ──────────────────────────────────

  datatype Op = Failure(step: string, maxRetries: Option<nat>, force: bool) | Reset

  function Apply(st: RetryState, op: Op): RetryState {
    match op
    case Failure(step, maxRetries, force) => Record(st, step, maxRetries, force).0
    case Reset => NEW_STATE
  }

  function Run(st: RetryState, history: seq<Op>): RetryState {
    if history == [] then st
    else Apply(Run(st, history[..|history| - 1]), history[|history| - 1])
  }

  predicate CountsFor(op: Op, step: string) {
    op.Failure? && op.step == step && !op.force
  }

  /** Length of the longest run of unforced failures of `step` that ends the history. */
  function Streak(history: seq<Op>, step: string): (n: nat)
    ensures n <= |history|
    ensures forall i :: |history| - n <= i < |history| ==> CountsFor(history[i], step)
    ensures n < |history| ==> !CountsFor(history[|history| - n - 1], step)
  {
    if history == [] || !CountsFor(history[|history| - 1], step) then 0
    else 1 + Streak(history[..|history| - 1], step)
  }

  /** The only count a tracker can still read is the one of its last step, and it is the streak. */
  lemma {:induction false} TrackerHoldsStreak(history: seq<Op>)
    ensures var st := Run(NEW_STATE, history);
            && (st.lastStep.Some? ==> CountOf(st, st.lastStep.value) == Streak(history, st.lastStep.value))
            && (forall step :: st.lastStep != Some(step) ==> Streak(history, step) == 0)
  {
    if history != [] {
      TrackerHoldsStreak(history[..|history| - 1]);
    }
  }

  /**
   The answer to a failure is `Retry(n + 1)` exactly when the failure is not forced and the streak
   `n` it completes is within the step's budget.
   */
  lemma {:induction false} RetryRefinesHistory(history: seq<Op>, step: string, maxRetries: Option<nat>, force: bool)
    ensures var decision := Record(Run(NEW_STATE, history), step, maxRetries, force).1;
            var n := Streak(history + [Failure(step, maxRetries, force)], step);
            decision == if !force && n <= Budget(maxRetries) then Retry(n + 1) else Exhausted
  {
    TrackerHoldsStreak(history);
    var all := history + [Failure(step, maxRetries, force)];
    assert all[..|all| - 1] == history;
  }

  /** Trackers that agree on the last step and on its count. */
  predicate SameToReader(a: RetryState, b: RetryState) {
    a.lastStep == b.lastStep && (a.lastStep.Some? ==> CountOf(a, a.lastStep.value) == CountOf(b, b.lastStep.value))
  }

  /** Keys left behind by a forced escalation on another step never influence any later answer. */
  lemma {:induction false} StaleKeysAreNeverRead(
      a: RetryState, b: RetryState, later: seq<Op>, step: string, maxRetries: Option<nat>, force: bool)
    requires SameToReader(a, b)
    ensures SameToReader(Run(a, later), Run(b, later))
    ensures Record(Run(a, later), step, maxRetries, force).1 == Record(Run(b, later), step, maxRetries, force).1
  {
    if later != [] {
      StaleKeysAreNeverRead(a, b, later[..|later| - 1], step, maxRetries, force);
    }
  }
}
