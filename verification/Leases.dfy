/**
 Step leases (ox-server/src/pool.rs over ox-server/src/projections.rs): a dispatched or running
 attempt of a running execution is leased to the runner it names, and should be that runner's current
 step. This module states what the sweeps, the dispatch guard and the reports do to leases.
 */
module Leases {
  import opened Prelude
  import opened Events
  import opened Projections

  /** The entry for an attempt, if its execution has one. */
  function Entry(executions: Executions, at: AttemptId): Option<Attempt> {
    if at.execution !in executions then None
    else
      var attempts := executions[at.execution].attempts;
      match LastPosition(attempts, at.step, at.attempt)
      case Some(i) => Some(attempts[i])
      case None => None
  }

  predicate InFlight(a: Attempt) {
    (a.status == Dispatched || a.status == InProgress) && a.runner.Some?
  }

  predicate Leased(executions: Executions, at: AttemptId) {
    at.execution in executions && executions[at.execution].status == Running
    && Entry(executions, at).Some? && InFlight(Entry(executions, at).value)
  }

  function Lessee(executions: Executions, at: AttemptId): string
    requires Leased(executions, at)
  {
    Entry(executions, at).value.runner.value
  }

  predicate HoldsExactly(pool: Pool, r: string, at: AttemptId) {
    r in pool && pool[r].currentStep == Some(at)
  }

  predicate Orphan(s: State, at: AttemptId) {
    Leased(s.executions, at) &&
    var r := Lessee(s.executions, at);
    !(HoldsExactly(s.pool, r, at) && s.pool[r].status != Drained)
  }

  function AllIds(executions: Executions): set<AttemptId> {
    set id, i | id in executions && 0 <= i < |executions[id].attempts| ::
      AttemptId(id, executions[id].attempts[i].step, executions[id].attempts[i].attempt)
  }

  function LeasedIds(executions: Executions): (r: set<AttemptId>)
    ensures forall at :: at in r <==> Leased(executions, at)
  {
    var r := set at | at in AllIds(executions) && Leased(executions, at);
    assert forall at :: Leased(executions, at) ==> at in AllIds(executions) by {
      forall at | Leased(executions, at) ensures at in AllIds(executions) {
        var i := LastPosition(executions[at.execution].attempts, at.step, at.attempt).value;
        assert executions[at.execution].attempts[i].step == at.step;
      }
    }
    r
  }

  /** Each (execution, step) has at most one leased attempt. */
  ghost predicate OneLeasePerStep(executions: Executions) {
    forall a, b :: Leased(executions, a) && Leased(executions, b) && a.execution == b.execution && a.step == b.step ==> a == b
  }

  predicate SameStepOf(a: AttemptId, b: AttemptId) {
    a.execution == b.execution && a.step == b.step
  }

  /** No orphan shares its step with a lease that is sound. */
  ghost predicate OrphansApart(s: State) {
    forall o, x :: Orphan(s, o) && Leased(s.executions, x) && SameStepOf(o, x) ==> Orphan(s, x)
  }

  ghost predicate NoOrphans(s: State) {
    forall at :: !Orphan(s, at)
  }

  // ── What one event does to entries ──────────────────────────────────

  lemma {:induction false} PositionAfterChange(attempts: seq<Attempt>, i: nat, a: Attempt, step: string, attempt: nat)
    requires i < |attempts| && IsAttempt(a, attempts[i].step, attempts[i].attempt)
    ensures LastPosition(attempts[i := a], step, attempt) == LastPosition(attempts, step, attempt)
  {
    var p, q := LastPosition(attempts[i := a], step, attempt), LastPosition(attempts, step, attempt);
    assert forall k :: 0 <= k < |attempts| ==>
        IsAttempt(attempts[i := a][k], step, attempt) == IsAttempt(attempts[k], step, attempt);
    if p.Some? {
      assert IsAttempt(attempts[p.value], step, attempt);
    }
    if q.Some? {
      assert IsAttempt(attempts[i := a][q.value], step, attempt);
    }
  }

  lemma PositionAfterPush(attempts: seq<Attempt>, a: Attempt, step: string, attempt: nat)
    ensures LastPosition(attempts + [a], step, attempt)
            == if IsAttempt(a, step, attempt) then Some(|attempts|) else LastPosition(attempts, step, attempt)
  {
    assert (attempts + [a])[..|attempts|] == attempts;
  }

  /** A step event changes the entry it names, or creates it, and no other. */
  lemma EntryAfterStep(executions: Executions, e: Envelope, x: AttemptId)
    requires StepChange(e).Some?
    ensures var (at, change) := StepChange(e).value;
            Entry(ApplyExecutions(executions, e), x)
            == if x == at && at.execution in executions then
                 Some(Changed(if Entry(executions, at).Some? then Entry(executions, at).value
                              else Synthetic(at.step, at.attempt, e.ts), change, e.ts))
               else Entry(executions, x)
  {
    var (at, change) := StepChange(e).value;
    if at.execution in executions && x.execution == at.execution {
      var attempts := executions[at.execution].attempts;
      var i := LastPosition(attempts, at.step, at.attempt);
      if i.Some? {
        PositionAfterChange(attempts, i.value, Changed(attempts[i.value], change, e.ts), x.step, x.attempt);
      } else {
        PositionAfterPush(attempts, Changed(Synthetic(at.step, at.attempt, e.ts), change, e.ts), x.step, x.attempt);
      }
    }
  }

  lemma StatusAfterStep(executions: Executions, e: Envelope, id: string)
    requires StepChange(e).Some?
    ensures ApplyExecutions(executions, e).Keys == executions.Keys
    ensures id in executions ==> ApplyExecutions(executions, e)[id].status == executions[id].status
  {
  }

  lemma ClosedIsNotInFlight(a: Attempt, change: Change, ts: int)
    requires change.ToFailed? || change.ToConfirmed?
    ensures !InFlight(Changed(a, change, ts))
  {
  }

  /** Closing an attempt takes it, and only it, out of the leased attempts. */
  lemma ClosingEndsOneLease(executions: Executions, e: Envelope, x: AttemptId)
    requires StepChange(e).Some? && (StepChange(e).value.1.ToFailed? || StepChange(e).value.1.ToConfirmed?)
    ensures Leased(ApplyExecutions(executions, e), x) <==> Leased(executions, x) && x != StepChange(e).value.0
  {
    var (at, change) := StepChange(e).value;
    EntryAfterStep(executions, e, x);
    StatusAfterStep(executions, e, x.execution);
    if x == at && x.execution in executions {
      var was := Entry(executions, at);
      ClosedIsNotInFlight(if was.Some? then was.value else Synthetic(at.step, at.attempt, e.ts), change, e.ts);
    }
  }

  /** A lease that goes on keeps its lessee. */
  lemma ClosingKeepsLessee(executions: Executions, e: Envelope, x: AttemptId)
    requires StepChange(e).Some? && (StepChange(e).value.1.ToFailed? || StepChange(e).value.1.ToConfirmed?)
    requires Leased(executions, x) && x != StepChange(e).value.0
    ensures Leased(ApplyExecutions(executions, e), x)
    ensures Lessee(ApplyExecutions(executions, e), x) == Lessee(executions, x)
  {
    ClosingEndsOneLease(executions, e, x);
    EntryAfterStep(executions, e, x);
  }

  // ── Closing a list of attempts ──────────────────────────────────────

  /** The event is ox's step.failed for this attempt. */
  predicate Fails(e: Envelope, at: AttemptId) {
    e.source == SOURCE_OX && e.body.StepFailed? && e.body.at == at
  }

  ghost predicate FailsAll(events: seq<Envelope>, ats: seq<AttemptId>) {
    |events| == |ats| && forall i :: 0 <= i < |ats| ==> Fails(events[i], ats[i])
  }

  /** The attempts in `ats` are no longer leased, every other lease goes on with the same lessee. */
  ghost predicate LeasesClosed(before: Executions, ats: seq<AttemptId>, after: Executions) {
    forall x ::
      && (Leased(after, x) <==> Leased(before, x) && x !in ats)
      && (Leased(after, x) ==> Lessee(after, x) == Lessee(before, x))
  }

  /** Only runners holding one of the steps may have been released; the others are as before. */
  ghost predicate RunnersReleased(before: Pool, ats: seq<AttemptId>, after: Pool) {
    && after.Keys == before.Keys
    && forall r :: r in before ==> after[r] == before[r] || MayRelease(before[r], ats, after[r])
  }

  ghost predicate MayRelease(before: RunnerState, ats: seq<AttemptId>, after: RunnerState) {
    after.currentStep.None? && exists at :: at in ats && Holds(before, at.execution, at.step)
  }

  lemma {:induction false} FailingCloses(before: State, events: seq<Envelope>, ats: seq<AttemptId>, after: State)
    requires FailsAll(events, ats) && Folds(before, events, after)
    ensures LeasesClosed(before.executions, ats, after.executions)
    decreases |events|
  {
    if events != [] {
      var n := |events| - 1;
      var mid :| Folds(before, events[..n], mid) && Applies(mid, events[n], after);
      FailingCloses(before, events[..n], ats[..n], mid);
      forall x
        ensures Leased(after.executions, x) <==> Leased(before.executions, x) && x !in ats
        ensures Leased(after.executions, x) ==> Lessee(after.executions, x) == Lessee(before.executions, x)
      {
        assert x in ats <==> x in ats[..n] || x == ats[n];
        ClosingEndsOneLease(mid.executions, events[n], x);
        if Leased(after.executions, x) {
          ClosingKeepsLessee(mid.executions, events[n], x);
        }
      }
    }
  }

  lemma {:induction false} FailingReleases(before: State, events: seq<Envelope>, ats: seq<AttemptId>, after: State)
    requires FailsAll(events, ats) && Folds(before, events, after)
    ensures RunnersReleased(before.pool, ats, after.pool)
    decreases |events|
  {
    if events != [] {
      var n := |events| - 1;
      var mid :| Folds(before, events[..n], mid) && Applies(mid, events[n], after);
      FailingReleases(before, events[..n], ats[..n], mid);
      forall r | r in before.pool ensures after.pool[r] == before.pool[r] || MayRelease(before.pool[r], ats, after.pool[r]) {
        if after.pool[r] != mid.pool[r] {
          assert Holds(mid.pool[r], ats[n].execution, ats[n].step);
          assert ats[n] in ats;
        } else if mid.pool[r] != before.pool[r] {
          var at :| at in ats[..n] && Holds(before.pool[r], at.execution, at.step);
          assert at in ats;
        }
      }
    }
  }

  // ── The orphan sweep ────────────────────────────────────────────────

  /** One sweep: exactly the orphans of `before`, each once, are closed by step.failed. */
  ghost predicate Sweeps(before: State, ats: seq<AttemptId>, after: State) {
    && Distinct(ats) && (forall at :: at in ats <==> Orphan(before, at))
    && exists events :: FailsAll(events, ats) && Folds(before, events, after)
  }

  /** A sweep fails exactly the attempts scanned, and the leased count drops by exactly their number. */
  lemma SweepClosesExactlyOrphans(before: State, ats: seq<AttemptId>, after: State)
    requires Sweeps(before, ats, after)
    ensures LeasesClosed(before.executions, ats, after.executions)
    ensures |LeasedIds(after.executions)| == |LeasedIds(before.executions)| - |ats|
  {
    var events :| FailsAll(events, ats) && Folds(before, events, after);
    FailingCloses(before, events, ats, after);
    var closed := set at | at in ats;
    SizeOfDistinct(ats);
    RemovedIds(before.executions, ats, after.executions, closed);
  }

  lemma RemovedIds(before: Executions, ats: seq<AttemptId>, after: Executions, closed: set<AttemptId>)
    requires LeasesClosed(before, ats, after)
    requires closed == (set at | at in ats) && closed <= LeasedIds(before)
    ensures |LeasedIds(after)| == |LeasedIds(before)| - |closed|
  {
    assert LeasedIds(after) == LeasedIds(before) - closed;
  }

  /** One round leaves no orphan if no orphan shares its step with a sound lease. */
  lemma OneRoundSuffices(before: State, ats: seq<AttemptId>, after: State)
    requires Sweeps(before, ats, after) && OrphansApart(before)
    ensures NoOrphans(after)
  {
    var events :| FailsAll(events, ats) && Folds(before, events, after);
    FailingCloses(before, events, ats, after);
    FailingReleases(before, events, ats, after);
    forall x ensures !Orphan(after, x) {
      if Leased(after.executions, x) {
        assert !Orphan(before, x);
        StaysHeld(before, ats, after, x);
      }
    }
  }

  lemma StaysHeld(before: State, ats: seq<AttemptId>, after: State, x: AttemptId)
    requires OrphansApart(before) && (forall at :: at in ats <==> Orphan(before, at))
    requires Leased(before.executions, x) && !Orphan(before, x)
    requires RunnersReleased(before.pool, ats, after.pool)
    ensures after.pool[Lessee(before.executions, x)] == before.pool[Lessee(before.executions, x)]
  {
    var r := Lessee(before.executions, x);
    if MayRelease(before.pool[r], ats, after.pool[r]) {
      var at :| at in ats && Holds(before.pool[r], at.execution, at.step);
      assert SameStepOf(at, x);
    }
  }

  /** In particular one round is enough if each (execution, step) has at most one leased attempt. */
  lemma OneLeasePerStepSuffices(before: State, ats: seq<AttemptId>, after: State)
    requires Sweeps(before, ats, after) && OneLeasePerStep(before.executions)
    ensures NoOrphans(after)
  {
    assert OrphansApart(before);
    OneRoundSuffices(before, ats, after);
  }

  // ── When one round is enough ────────────────────────────────────────

  /** Freeing a step can release any of its holders, and something always happens. */
  lemma FreedCan(pool: Pool, at: AttemptId, r: string) returns (after: Pool)
    ensures Freed(pool, after, at.execution, at.step)
    ensures r in pool && Holds(pool[r], at.execution, at.step) ==> r in after && after[r].currentStep.None?
  {
    if r in pool && Holds(pool[r], at.execution, at.step) {
      after := pool[r := Released(pool[r])];
    } else if q :| q in pool && Holds(pool[q], at.execution, at.step) {
      after := pool[q := Released(pool[q])];
    } else {
      after := pool;
    }
  }

  /** The runner is as it was, or it has been freed. */
  predicate SameOrFreed(before: Pool, r: string, after: Pool) {
    r in before ==> r in after && (after[r] == before[r] || after[r].currentStep.None?)
  }

  lemma FailCan(before: State, at: AttemptId, r: string) returns (e: Envelope, after: State)
    ensures Fails(e, at) && Applies(before, e, after) && SameOrFreed(before.pool, r, after.pool)
    ensures r in before.pool && Holds(before.pool[r], at.execution, at.step) ==> r in after.pool && after.pool[r].currentStep.None?
  {
    e := Envelope(0, 0, SOURCE_OX, at.execution, StepFailed(at, ""));
    var pool := FreedCan(before.pool, at, r);
    after := State(pool, ApplyExecutions(before.executions, e), ApplySecrets(before.secrets, e));
  }

  lemma FailsAllOneMore(events: seq<Envelope>, ats: seq<AttemptId>, e: Envelope, at: AttemptId)
    requires FailsAll(events, ats) && Fails(e, at)
    ensures FailsAll(events + [e], ats + [at])
  {
  }

  /** A sweep can always be carried out, and while it closes the step of `o` it can release a holder of that step. */
  lemma {:induction false} FailAllCan(before: State, ats: seq<AttemptId>, r: string, o: AttemptId) returns (events: seq<Envelope>, after: State)
    ensures FailsAll(events, ats) && Folds(before, events, after) && SameOrFreed(before.pool, r, after.pool)
    ensures o in ats && r in before.pool && Holds(before.pool[r], o.execution, o.step) ==>
              r in after.pool && after.pool[r].currentStep.None?
    decreases |ats|
  {
    if ats == [] {
      return [], before;
    }
    var n := |ats| - 1;
    var mid, e;
    events, mid := FailAllCan(before, ats[..n], r, o);
    e, after := FailCan(mid, ats[n], r);
    FoldsOneMore(before, events, mid, e, after);
    FailsAllOneMore(events, ats[..n], e, ats[n]);
    SplitLast([], ats);
    events := events + [e];
  }

  /** The attempts an enumeration of the orphans lists. */
  lemma {:induction false} ListOf(ids: set<AttemptId>) returns (ats: seq<AttemptId>)
    ensures Distinct(ats) && forall at :: at in ats <==> at in ids
  {
    if ids == {} {
      return [];
    }
    var x :| x in ids;
    ats := ListOf(ids - {x});
    ats := ats + [x];
  }

  /** Sweeping an orphan that shares its step with a sound lease can leave that lease an orphan. */
  lemma SharedStepCanOrphan(before: State, o: AttemptId, x: AttemptId) returns (ats: seq<AttemptId>, after: State)
    requires Orphan(before, o) && Leased(before.executions, x) && !Orphan(before, x) && SameStepOf(o, x)
    ensures Sweeps(before, ats, after) && Orphan(after, x)
  {
    ats := ListOf(set at | at in LeasedIds(before.executions) && Orphan(before, at));
    var r := Lessee(before.executions, x);
    var events;
    events, after := FailAllCan(before, ats, r, o);
    FailingCloses(before, events, ats, after);
  }

  /** Every sweep leaves no orphan if and only if no orphan shares its step with a sound lease. */
  lemma OneRoundSufficesIff(before: State)
    ensures (forall ats, after :: Sweeps(before, ats, after) ==> NoOrphans(after)) <==> OrphansApart(before)
  {
    if OrphansApart(before) {
      forall ats, after | Sweeps(before, ats, after) ensures NoOrphans(after) {
        OneRoundSuffices(before, ats, after);
      }
    } else {
      var o, x :| Orphan(before, o) && Leased(before.executions, x) && SameStepOf(o, x) && !Orphan(before, x);
      var ats, after := SharedStepCanOrphan(before, o, x);
    }
  }

  ghost predicate Rounds(before: State, n: nat, after: State) {
    if n == 0 then after == before
    else exists mid, ats :: Rounds(before, n - 1, mid) && Sweeps(mid, ats, after)
  }

  lemma HasMember(ats: seq<AttemptId>)
    ensures ats == [] || exists at :: at in ats
  {
    if ats != [] {
      assert ats[0] in ats;
    }
  }

  lemma SweepProgress(before: State, ats: seq<AttemptId>, after: State)
    requires Sweeps(before, ats, after)
    ensures if NoOrphans(before) then after == before
            else |LeasedIds(after.executions)| < |LeasedIds(before.executions)|
  {
    SweepClosesExactlyOrphans(before, ats, after);
    if NoOrphans(before) {
      HasMember(ats);
      var events :| FailsAll(events, ats) && Folds(before, events, after);
    } else {
      var at :| Orphan(before, at);
      assert at in ats;
    }
  }

  /** Repeating the sweep reaches a state with no orphans after at most as many rounds as leases. */
  lemma {:induction false} RoundsReachNoOrphans(before: State, n: nat, after: State)
    requires Rounds(before, n, after)
    ensures NoOrphans(after) || |LeasedIds(after.executions)| + n <= |LeasedIds(before.executions)|
    ensures n >= |LeasedIds(before.executions)| ==> NoOrphans(after)
  {
    if n > 0 {
      var mid, ats :| Rounds(before, n - 1, mid) && Sweeps(mid, ats, after);
      RoundsReachNoOrphans(before, n - 1, mid);
      SweepProgress(mid, ats, after);
    }
    if !NoOrphans(after) {
      var at :| Orphan(after, at);
      assert at in LeasedIds(after.executions);
    }
  }

  // ── Start-up reconciliation ─────────────────────────────────────────

  /** When each runner was last heard of; a row whose time does not parse has none. */
  type Heartbeats = map<string, Option<int>>

  predicate Fresh(heartbeats: Heartbeats, r: string, now: int, grace: nat) {
    r in heartbeats && heartbeats[r].Some? && now - heartbeats[r].value <= grace
  }

  predicate Ghost(pool: Pool, heartbeats: Heartbeats, r: string, now: int, grace: nat) {
    r in pool && pool[r].status != Drained && !Fresh(heartbeats, r, now, grace)
  }

  /** The lease is the current step of its lessee, a runner not drained and heard of within the grace period. */
  predicate SoundLease(s: State, heartbeats: Heartbeats, x: AttemptId, now: int, grace: nat) {
    Leased(s.executions, x) &&
    var r := Lessee(s.executions, x);
    HoldsExactly(s.pool, r, x) && s.pool[r].status != Drained && Fresh(heartbeats, r, now, grace)
  }

  predicate Drains(e: Envelope, r: string) {
    e.source == SOURCE_OX && e.body == RunnerDrained(r)
  }

  ghost predicate DrainsAll(events: seq<Envelope>, rs: seq<string>) {
    |events| == |rs| && forall i :: 0 <= i < |rs| ==> Drains(events[i], rs[i])
  }

  lemma {:induction false} DrainingMarks(before: State, events: seq<Envelope>, rs: seq<string>, after: State)
    requires DrainsAll(events, rs) && Folds(before, events, after)
    ensures after.executions == before.executions && after.pool.Keys == before.pool.Keys
    ensures forall r :: r in before.pool ==>
              after.pool[r] == if r in rs then before.pool[r].(status := Drained) else before.pool[r]
    decreases |events|
  {
    if events != [] {
      var n := |events| - 1;
      var mid :| Folds(before, events[..n], mid) && Applies(mid, events[n], after);
      DrainingMarks(before, events[..n], rs[..n], mid);
      assert forall r :: r in rs <==> r in rs[..n] || r == rs[n];
    }
  }

  /**
   Draining every runner without a fresh heartbeat and then sweeping orphans leaves each leased
   attempt on a runner whose current step is exactly that attempt and whose heartbeat is fresh.
   */
  lemma StartupReconciles(before: State, heartbeats: Heartbeats, now: int, grace: nat, rs: seq<string>,
                          drains: seq<Envelope>, mid: State, ats: seq<AttemptId>, after: State, x: AttemptId)
    requires OneLeasePerStep(before.executions)
    requires forall r :: r in rs <==> Ghost(before.pool, heartbeats, r, now, grace)
    requires DrainsAll(drains, rs) && Folds(before, drains, mid)
    requires Sweeps(mid, ats, after)
    requires Leased(after.executions, x)
    ensures SoundLease(after, heartbeats, x, now, grace)
  {
    DrainingMarks(before, drains, rs, mid);
    OneRoundSuffices(mid, ats, after);
    assert !Orphan(after, x);
    var events :| FailsAll(events, ats) && Folds(mid, events, after);
    FailingReleases(mid, events, ats, after);
  }

  // ── The lease invariant over runs ───────────────────────────────────

  predicate SameStep(a: RunnerState, b: RunnerState) {
    a.currentStep.Some? && Holds(b, a.currentStep.value.execution, a.currentStep.value.step)
  }

  /** No two runners hold the same step of the same execution. */
  ghost predicate UniqueHolders(pool: Pool) {
    forall a, b :: a in pool && b in pool && a != b ==> !SameStep(pool[a], pool[b])
  }

  lemma HolderIsUnique(pool: Pool, a: string, b: string, execution: string, step: string)
    requires UniqueHolders(pool) && a in pool && b in pool
    requires Holds(pool[a], execution, step) && Holds(pool[b], execution, step)
    ensures a == b
  {
    assert SameStep(pool[a], pool[b]);
  }

  ghost predicate LeasesHeld(s: State) {
    forall x :: Leased(s.executions, x) ==> HoldsExactly(s.pool, Lessee(s.executions, x), x)
  }

  /** The entry of a held attempt names its holder, if it names a runner. */
  ghost predicate EntriesNameHolder(s: State) {
    forall r, x :: HoldsExactly(s.pool, r, x) && Entry(s.executions, x).Some? && Entry(s.executions, x).value.runner.Some? ==>
      Entry(s.executions, x).value.runner.value == r
  }

  ghost predicate LeaseInv(s: State) {
    UniqueHolders(s.pool) && LeasesHeld(s) && EntriesNameHolder(s)
  }

  predicate Held(pool: Pool, at: AttemptId) {
    exists r :: r in pool && HoldsExactly(pool, r, at)
  }

  /** The events of a run: fresh registrations, drains, reports of held attempts, and bookkeeping. */
  predicate Allowed(s: State, e: Envelope) {
    e.source == SOURCE_OX ==>
      match e.body
      case RunnerRegistered(r, _) => r !in s.pool
      case StepDispatched(_, _, _) => false
      case StepRunning(at, _) => Held(s.pool, at)
      case StepConfirmed(at) => Held(s.pool, at)
      case StepFailed(at, _) => Held(s.pool, at)
      case StepTimeout(at, _) => Held(s.pool, at)
      case _ => true
  }

  lemma LifecycleOnlyEndsLeases(executions: Executions, e: Envelope, x: AttemptId)
    requires StepChange(e).None?
    ensures var after := ApplyExecutions(executions, e);
            && (Entry(after, x).Some? ==>
                  Entry(executions, x).Some? && Entry(after, x).value.runner == Entry(executions, x).value.runner)
            && (Leased(after, x) ==> Leased(executions, x))
  {
    if e.source == SOURCE_OX && e.body.StepAdvanced? && e.body.advanced in executions && x.execution == e.body.advanced {
      var attempts := executions[x.execution].attempts;
      var i := LastOfStep(attempts, e.body.fromStep);
      if i.Some? {
        PositionAfterChange(attempts, i.value, attempts[i.value].(transition := Some(e.body.toStep)), x.step, x.attempt);
      }
    }
  }

  lemma LifecycleKeepsInv(s: State, e: Envelope, after: State)
    requires LeaseInv(s) && Allowed(s, e) && StepChange(e).None? && Applies(s, e, after)
    ensures LeaseInv(after)
  {
    assert forall r, x :: HoldsExactly(after.pool, r, x) ==> HoldsExactly(s.pool, r, x);
    forall x
      ensures Entry(after.executions, x).Some? ==>
                Entry(s.executions, x).Some? && Entry(after.executions, x).value.runner == Entry(s.executions, x).value.runner
      ensures Leased(after.executions, x) ==> Leased(s.executions, x) && Lessee(after.executions, x) == Lessee(s.executions, x)
    {
      LifecycleOnlyEndsLeases(s.executions, e, x);
    }
  }

  /** Reports that close nothing leave the pool alone. */
  lemma ProgressKeepsInv(s: State, e: Envelope, after: State)
    requires LeaseInv(s) && Allowed(s, e) && Applies(s, e, after)
    requires StepChange(e).Some? && FreedBy(e).None?
    ensures LeaseInv(after)
  {
    var at := StepChange(e).value.0;
    assert after.pool == s.pool;
    forall x
      ensures Entry(after.executions, x).Some? && Entry(after.executions, x).value.runner.Some? ==>
                Entry(s.executions, x).Some? && Entry(s.executions, x).value.runner == Entry(after.executions, x).value.runner
      ensures Leased(after.executions, x) ==> HoldsExactly(after.pool, Lessee(after.executions, x), x)
    {
      ProgressKeepsEntry(s, e, x);
    }
  }

  lemma ProgressKeepsEntry(s: State, e: Envelope, x: AttemptId)
    requires LeaseInv(s) && Allowed(s, e) && StepChange(e).Some? && FreedBy(e).None?
    ensures var after := ApplyExecutions(s.executions, e);
            && (Entry(after, x).Some? && Entry(after, x).value.runner.Some? ==>
                  Entry(s.executions, x).Some? && Entry(s.executions, x).value.runner == Entry(after, x).value.runner)
            && (Leased(after, x) ==> HoldsExactly(s.pool, Lessee(after, x), x))
  {
    var at, after := StepChange(e).value.0, ApplyExecutions(s.executions, e);
    EntryAfterStep(s.executions, e, x);
    StatusAfterStep(s.executions, e, x.execution);
    if Leased(after, x) {
      if e.body.StepRunning? && x == at {
        var r :| r in s.pool && HoldsExactly(s.pool, r, at);
        assert Entry(s.executions, x).value.runner.value == r;
      } else {
        assert Leased(s.executions, x) && Lessee(s.executions, x) == Lessee(after, x);
      }
    }
  }

  /** Closing a held attempt releases its holder, the only runner holding the step. */
  lemma ClosingReleasesHolder(pool: Pool, at: AttemptId, after: Pool)
    requires UniqueHolders(pool) && Held(pool, at) && Freed(pool, after, at.execution, at.step)
    ensures after == map r | r in pool :: if HoldsExactly(pool, r, at) then Released(pool[r]) else pool[r]
  {
    var r :| r in pool && HoldsExactly(pool, r, at);
    assert Holds(pool[r], at.execution, at.step);
    forall q | q in pool && Holds(pool[q], at.execution, at.step) ensures q == r {
      HolderIsUnique(pool, q, r, at.execution, at.step);
    }
    assert after == pool[r := Released(pool[r])];
  }

  lemma ClosingKeepsInv(s: State, e: Envelope, after: State)
    requires LeaseInv(s) && Applies(s, e, after)
    requires FreedBy(e).Some? && Held(s.pool, FreedBy(e).value)
    ensures LeaseInv(after)
    ensures after.pool == map r | r in s.pool ::
              if HoldsExactly(s.pool, r, FreedBy(e).value) then Released(s.pool[r]) else s.pool[r]
  {
    var at := FreedBy(e).value;
    ClosingReleasesHolder(s.pool, at, after.pool);
    forall x
      ensures Leased(after.executions, x) ==> HoldsExactly(after.pool, Lessee(after.executions, x), x)
      ensures x != at ==> Entry(after.executions, x) == Entry(s.executions, x)
    {
      ClosingEndsOneLease(s.executions, e, x);
      EntryAfterStep(s.executions, e, x);
      if Leased(after.executions, x) {
        ClosingKeepsLessee(s.executions, e, x);
      }
    }
    assert forall q, x :: HoldsExactly(after.pool, q, x) ==> HoldsExactly(s.pool, q, x) && x != at;
  }

  lemma EventKeepsInv(s: State, e: Envelope, after: State)
    requires LeaseInv(s) && Allowed(s, e) && Applies(s, e, after)
    ensures LeaseInv(after)
  {
    if StepChange(e).None? {
      LifecycleKeepsInv(s, e, after);
    } else if FreedBy(e).None? {
      ProgressKeepsInv(s, e, after);
    } else {
      ClosingKeepsInv(s, e, after);
    }
  }

  // ── The dispatch guard ──────────────────────────────────────────────

  /** A registered runner, and no other runner holds the step. */
  predicate Guarded(pool: Pool, at: AttemptId, r: string) {
    r in pool && forall q :: q in pool && q != r ==> !Holds(pool[q], at.execution, at.step)
  }

  /** What closes first: the runner's current step, if that is another attempt. */
  function Prior(pool: Pool, r: string, at: AttemptId): Option<AttemptId> {
    if r in pool && pool[r].currentStep.Some? && pool[r].currentStep != Some(at) then pool[r].currentStep else None
  }

  predicate Dispatches(e: Envelope, at: AttemptId, r: string) {
    e.source == SOURCE_OX && e.body.StepDispatched? && e.body.at == at && e.body.runner == r
  }

  lemma DispatchKeepsInv(s: State, e: Envelope, at: AttemptId, r: string, after: State)
    requires LeaseInv(s) && Dispatches(e, at, r) && Applies(s, e, after)
    requires Guarded(s.pool, at, r) && Prior(s.pool, r, at).None?
    ensures LeaseInv(after) && HoldsExactly(after.pool, r, at)
  {
    assert forall q, x :: q != r ==> (HoldsExactly(after.pool, q, x) <==> HoldsExactly(s.pool, q, x));
    forall x
      ensures x != at ==> Entry(after.executions, x) == Entry(s.executions, x)
      ensures Entry(after.executions, at).Some? ==> Entry(after.executions, at).value.runner == Some(r)
      ensures Leased(after.executions, x) && x != at ==>
                Leased(s.executions, x) && Lessee(after.executions, x) == Lessee(s.executions, x)
                && Lessee(s.executions, x) != r
    {
      EntryAfterStep(s.executions, e, x);
      EntryAfterStep(s.executions, e, at);
      StatusAfterStep(s.executions, e, x.execution);
    }
    forall a, b | a in after.pool && b in after.pool && a != b ensures !SameStep(after.pool[a], after.pool[b]) {
      if a != r && b != r {
        assert !SameStep(s.pool[a], s.pool[b]);
      }
    }
  }

  // ── Runs ────────────────────────────────────────────────────────────

  datatype Action =
    | Happens(e: Envelope)
    | DispatchTo(at: AttemptId, runner: string)
    | SweepOrphans(ats: seq<AttemptId>)

  /** A dispatch: the runner's other attempt is closed first, then the step is dispatched. */
  ghost predicate DispatchEffect(s: State, at: AttemptId, r: string, after: State) {
    match Prior(s.pool, r, at)
    case None => exists e :: Dispatches(e, at, r) && Applies(s, e, after)
    case Some(prior) =>
      exists close, mid, e :: Fails(close, prior) && Applies(s, close, mid) && Dispatches(e, at, r) && Applies(mid, e, after)
  }

  ghost predicate DispatchSteps(s: State, at: AttemptId, r: string, after: State) {
    Guarded(s.pool, at, r) && DispatchEffect(s, at, r, after)
  }

  ghost predicate Steps(s: State, a: Action, after: State) {
    match a
    case Happens(e) => Allowed(s, e) && Applies(s, e, after)
    case DispatchTo(at, r) => DispatchSteps(s, at, r, after)
    case SweepOrphans(ats) => Sweeps(s, ats, after)
  }

  lemma GuardedDispatchKeepsInv(s: State, at: AttemptId, r: string, after: State)
    requires LeaseInv(s) && DispatchSteps(s, at, r, after)
    ensures LeaseInv(after)
  {
    if Prior(s.pool, r, at).None? {
      var e :| Dispatches(e, at, r) && Applies(s, e, after);
      DispatchKeepsInv(s, e, at, r, after);
    } else {
      var prior := Prior(s.pool, r, at).value;
      var close, mid, e :| Fails(close, prior) && Applies(s, close, mid) && Dispatches(e, at, r) && Applies(mid, e, after);
      PriorClosesFirst(s, at, r, close, mid);
      DispatchKeepsInv(mid, e, at, r, after);
    }
  }

  lemma PriorClosesFirst(s: State, at: AttemptId, r: string, close: Envelope, mid: State)
    requires LeaseInv(s) && Guarded(s.pool, at, r) && Prior(s.pool, r, at).Some?
    requires Fails(close, Prior(s.pool, r, at).value) && Applies(s, close, mid)
    ensures LeaseInv(mid) && Guarded(mid.pool, at, r) && Prior(mid.pool, r, at).None?
  {
    assert HoldsExactly(s.pool, r, Prior(s.pool, r, at).value);
    ClosingKeepsInv(s, close, mid);
  }

  /** In a lease-sound state the orphans are exactly the leased attempts of drained runners. */
  lemma OnlyDrainsOrphan(s: State, x: AttemptId)
    requires LeaseInv(s)
    ensures Orphan(s, x) <==> Leased(s.executions, x) && s.pool[Lessee(s.executions, x)].status == Drained
  {
  }

  lemma {:induction false} ClosingManyKeepsInv(s: State, events: seq<Envelope>, ats: seq<AttemptId>, after: State)
    requires LeaseInv(s) && FailsAll(events, ats) && Folds(s, events, after)
    requires Distinct(ats) && forall at :: at in ats ==> Held(s.pool, at)
    ensures LeaseInv(after)
    ensures forall at :: Held(s.pool, at) && at !in ats ==> Held(after.pool, at)
    decreases |events|
  {
    if events != [] {
      var n := |events| - 1;
      var mid :| Folds(s, events[..n], mid) && Applies(mid, events[n], after);
      ClosingManyKeepsInv(s, events[..n], ats[..n], mid);
      assert ats[n] !in ats[..n];
      ClosingKeepsInv(mid, events[n], after);
      forall at | Held(s.pool, at) && at !in ats ensures Held(after.pool, at) {
        assert at !in ats[..n] && at != ats[n];
        var r :| r in mid.pool && HoldsExactly(mid.pool, r, at);
        assert HoldsExactly(after.pool, r, at);
      }
    }
  }

  lemma StepKeepsInv(s: State, a: Action, after: State)
    requires LeaseInv(s) && Steps(s, a, after)
    ensures LeaseInv(after)
    ensures a.SweepOrphans? ==> NoOrphans(after)
  {
    match a
    case Happens(e) => EventKeepsInv(s, e, after);
    case DispatchTo(at, r) => GuardedDispatchKeepsInv(s, at, r, after);
    case SweepOrphans(ats) =>
      var events :| FailsAll(events, ats) && Folds(s, events, after);
      forall at | at in ats ensures Held(s.pool, at) {
        assert Orphan(s, at) && HoldsExactly(s.pool, Lessee(s.executions, at), at);
      }
      ClosingManyKeepsInv(s, events, ats, after);
      HeldStepsHaveOneLease(s);
      OneRoundSuffices(s, ats, after);
  }

  lemma HeldStepsHaveOneLease(s: State)
    requires LeaseInv(s)
    ensures OneLeasePerStep(s.executions)
  {
    forall a, b | Leased(s.executions, a) && Leased(s.executions, b) && a.execution == b.execution && a.step == b.step
      ensures a == b
    {
      var ra, rb := Lessee(s.executions, a), Lessee(s.executions, b);
      assert Holds(s.pool[ra], a.execution, a.step) && Holds(s.pool[rb], a.execution, a.step);
    }
  }

  ghost predicate RunsTo(s: State, actions: seq<Action>, after: State)
    decreases |actions|, 0
  {
    if actions == [] then after == s else RunsThen(s, actions[..|actions| - 1], actions[|actions| - 1], after)
  }

  ghost predicate RunsThen(s: State, actions: seq<Action>, a: Action, after: State)
    decreases |actions|, 1
  {
    exists mid :: RunsTo(s, actions, mid) && Steps(mid, a, after)
  }

  /**
   Over every run from a sound state, no two runners hold the same step, each lease is its lessee's
   current step, and an orphan can only come from draining the runner that holds it.
   */
  lemma {:induction false} LeasesStaySound(start: State, actions: seq<Action>, after: State)
    requires LeaseInv(start) && RunsTo(start, actions, after)
    ensures LeaseInv(after)
    ensures forall x :: Orphan(after, x) <==>
              Leased(after.executions, x) && after.pool[Lessee(after.executions, x)].status == Drained
    ensures actions != [] && actions[|actions| - 1].SweepOrphans? ==> NoOrphans(after)
    decreases |actions|
  {
    if actions != [] {
      var n := |actions| - 1;
      var mid :| RunsTo(start, actions[..n], mid) && Steps(mid, actions[n], after);
      LeasesStaySound(start, actions[..n], mid);
      StepKeepsInv(mid, actions[n], after);
    }
    forall x ensures Orphan(after, x) <==>
                       Leased(after.executions, x) && after.pool[Lessee(after.executions, x)].status == Drained
    {
      OnlyDrainsOrphan(after, x);
    }
  }

  // ── Start-up leaves a sound state ───────────────────────────────────

  /** What soundness needs of the pool: what it holds is held once, and by the runner the entry names. */
  ghost predicate PoolSound(s: State) {
    UniqueHolders(s.pool) && EntriesNameHolder(s)
  }

  lemma DrainsKeepPool(before: State, events: seq<Envelope>, rs: seq<string>, after: State)
    requires PoolSound(before) && DrainsAll(events, rs) && Folds(before, events, after)
    ensures PoolSound(after)
  {
    DrainingMarks(before, events, rs, after);
    assert forall r :: r in after.pool ==> after.pool[r].currentStep == before.pool[r].currentStep;
    forall a, b | a in after.pool && b in after.pool && a != b ensures !SameStep(after.pool[a], after.pool[b]) {
      assert !SameStep(before.pool[a], before.pool[b]);
    }
    forall r, x | HoldsExactly(after.pool, r, x) && Entry(after.executions, x).Some? && Entry(after.executions, x).value.runner.Some?
      ensures Entry(after.executions, x).value.runner.value == r
    {
      assert HoldsExactly(before.pool, r, x);
    }
  }

  lemma FailKeepsPool(before: State, e: Envelope, at: AttemptId, after: State)
    requires PoolSound(before) && Fails(e, at) && Applies(before, e, after)
    ensures PoolSound(after)
  {
    assert forall r :: r in after.pool ==>
        r in before.pool && (after.pool[r] == before.pool[r] || after.pool[r].currentStep.None?);
    forall a, b | a in after.pool && b in after.pool && a != b ensures !SameStep(after.pool[a], after.pool[b]) {
      assert !SameStep(before.pool[a], before.pool[b]);
    }
    forall r, x | HoldsExactly(after.pool, r, x) && Entry(after.executions, x).Some? && Entry(after.executions, x).value.runner.Some?
      ensures Entry(after.executions, x).value.runner.value == r
    {
      EntryAfterStep(before.executions, e, x);
      assert HoldsExactly(before.pool, r, x);
    }
  }

  lemma {:induction false} FailsKeepPool(before: State, events: seq<Envelope>, ats: seq<AttemptId>, after: State)
    requires PoolSound(before) && FailsAll(events, ats) && Folds(before, events, after)
    ensures PoolSound(after)
    decreases |events|
  {
    if events != [] {
      var n := |events| - 1;
      var mid :| Folds(before, events[..n], mid) && Applies(mid, events[n], after);
      FailsKeepPool(before, events[..n], ats[..n], mid);
      FailKeepsPool(mid, events[n], ats[n], after);
    }
  }

  /** After start-up the run theorem applies, if the pool was sound and each step had one leased attempt. */
  lemma StartupLeavesInv(before: State, heartbeats: Heartbeats, now: int, grace: nat, rs: seq<string>,
                         drains: seq<Envelope>, mid: State, ats: seq<AttemptId>, after: State)
    requires PoolSound(before) && OneLeasePerStep(before.executions)
    requires forall r :: r in rs <==> Ghost(before.pool, heartbeats, r, now, grace)
    requires DrainsAll(drains, rs) && Folds(before, drains, mid) && Sweeps(mid, ats, after)
    ensures LeaseInv(after) && NoOrphans(after)
  {
    DrainsKeepPool(before, drains, rs, mid);
    var events :| FailsAll(events, ats) && Folds(mid, events, after);
    FailsKeepPool(mid, events, ats, after);
    forall x | Leased(after.executions, x)
      ensures HoldsExactly(after.pool, Lessee(after.executions, x), x) && !Orphan(after, x)
    {
      StartupReconciles(before, heartbeats, now, grace, rs, drains, mid, ats, after, x);
    }
  }
}
