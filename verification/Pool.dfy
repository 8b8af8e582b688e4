/**
 Runner pool operations on the event bus (ox-server/src/pool.rs, and the end of dispatch_step in
 ox-server/src/api.rs): draining, the two sweeps and the dispatch guard. Each is related to the
 relations of `Leases`, whose theorems say what it does to step leases.
 */
module Pool {
  import opened Prelude
  import opened Events
  import opened EventBus
  import P = Projections
  import L = Leases

  function State(bus: EventBus): (s: P.State)
    reads bus, bus.projections
  {
    P.State(bus.projections.pool, bus.projections.executions, bus.projections.secrets)
  }

  function LastSeen(heartbeats: map<string, HeartbeatRow>): L.Heartbeats {
    map r | r in heartbeats :: heartbeats[r].lastSeen
  }

  /** The heartbeat table after one heartbeat. */
  function Beaten(rows: map<string, HeartbeatRow>, runner: string, now: int, execution: Option<string>,
                  step: Option<string>, attempt: Option<nat>): map<string, HeartbeatRow>
  {
    rows[runner := HeartbeatRow(Some(now), execution, step, attempt)]
  }

  method Heartbeat(bus: EventBus, runner: string, now: int, execution: Option<string>, step: Option<string>,
                   attempt: Option<nat>)
    modifies bus`heartbeats
    ensures bus.heartbeats == Beaten(old(bus.heartbeats), runner, now, execution, step, attempt)
  {
    bus.heartbeats := bus.heartbeats[runner := HeartbeatRow(Some(now), execution, step, attempt)];
  }

  /** Emits runner.drained and tries to remove the heartbeat row; a failed append stops the server. */
  method Drain(bus: EventBus, runner: string, now: int) returns (ok: bool, ghost e: Envelope)
    requires bus.Valid()
    modifies bus`log, bus`nextSeq, bus`published, bus`heartbeats, bus.projections
    ensures bus.Valid()
    ensures ok ==> L.Drains(e, runner) && P.Applies(old(State(bus)), e, State(bus))
                   && bus.log == old(bus.log) + [e]
                   && (bus.heartbeats == old(bus.heartbeats) - {runner} || bus.heartbeats == old(bus.heartbeats))
    ensures !ok ==> State(bus) == old(State(bus)) && bus.log == old(bus.log) && bus.heartbeats == old(bus.heartbeats)
  {
    var r := bus.Append(SOURCE_OX, runner, RunnerDrained(runner), now);
    ok := r.Ok?;
    if ok {
      e := r.value;
      var removed: bool := *;
      if removed {
        bus.heartbeats := bus.heartbeats - {runner};
      }
    } else {
      e := Envelope(0, 0, "", "", Other("", ""));
    }
  }

  /** The runners not drained yet whose heartbeat is missing, unreadable or stale. */
  method ScanRunners(pool: P.Pool, seen: L.Heartbeats, now: int, grace: nat) returns (orphans: seq<string>)
    ensures forall r :: r in orphans <==> L.Ghost(pool, seen, r, now, grace)
  {
    var ids := Keys(pool);
    orphans := [];
    for i := 0 to |ids|
      invariant forall r :: r in orphans <==> r in ids[..i] && L.Ghost(pool, seen, r, now, grace)
    {
      if L.Ghost(pool, seen, ids[i], now, grace) {
        orphans := orphans + [ids[i]];
      }
    }
    assert forall r :: L.Ghost(pool, seen, r, now, grace) ==> r in ids[..|ids|];
  }

  /** What a run of drains has stored: the folded events for the first runners. */
  ghost predicate Drained(before: P.State, log: seq<Envelope>, rs: seq<string>, events: seq<Envelope>, after: P.State, log': seq<Envelope>) {
    L.DrainsAll(events, rs) && P.Folds(before, events, after) && log' == log + events
  }

  lemma DrainedOneMore(before: P.State, log: seq<Envelope>, rs: seq<string>, events: seq<Envelope>, mid: P.State, log': seq<Envelope>,
                       r: string, e: Envelope, after: P.State)
    requires Drained(before, log, rs, events, mid, log') && L.Drains(e, r) && P.Applies(mid, e, after)
    ensures Drained(before, log, rs + [r], events + [e], after, log' + [e])
  {
    Reassociate(log, events, [e]);
    P.FoldsOneMore(before, events, mid, e, after);
  }

  /** Start-up: drains the runners found by the scan, and stops at the first drain that cannot be stored. */
  method SweepOrphans(bus: EventBus, now: int, grace: nat) returns (ok: bool, ghost rs: seq<string>, ghost events: seq<Envelope>)
    requires bus.Valid()
    modifies bus`log, bus`nextSeq, bus`published, bus`heartbeats, bus.projections
    ensures bus.Valid()
    ensures ok ==> forall r :: r in rs <==> L.Ghost(old(State(bus)).pool, LastSeen(old(bus.heartbeats)), r, now, grace)
    ensures ok ==> Drained(old(State(bus)), old(bus.log), rs, events, State(bus), bus.log)
  {
    var orphans := ScanRunners(bus.projections.pool, LastSeen(bus.heartbeats), now, grace);
    ok, rs, events := true, orphans, [];
    for i := 0 to |orphans|
      invariant ok && bus.Valid()
      invariant Drained(old(State(bus)), old(bus.log), orphans[..i], events, State(bus), bus.log)
    {
      ghost var before, log := State(bus), bus.log;
      var drained, e := Drain(bus, orphans[i], now);
      if !drained {
        ok := false;
        return;
      }
      DrainedOneMore(old(State(bus)), old(bus.log), orphans[..i], events, before, log, orphans[i], e, State(bus));
      SliceOneMore([], orphans, 0, i);
      events := events + [e];
    }
    assert orphans[..|orphans|] == orphans;
  }

  /** Emits step.failed for an attempt the server itself gives up on. */
  method FailAttempt(bus: EventBus, at: AttemptId, why: string, now: int) returns (ok: bool, ghost e: Envelope)
    requires bus.Valid()
    modifies bus`log, bus`nextSeq, bus`published, bus.projections
    ensures bus.Valid()
    ensures ok ==> L.Fails(e, at) && P.Applies(old(State(bus)), e, State(bus)) && bus.log == old(bus.log) + [e]
    ensures !ok ==> State(bus) == old(State(bus)) && bus.log == old(bus.log)
  {
    var r := bus.Append(SOURCE_OX, at.execution, StepFailed(at, why), now);
    ok := r.Ok?;
    e := if ok then r.value else Envelope(0, 0, "", "", Other("", ""));
  }

  // ── Orphaned attempts ───────────────────────────────────────────────

  datatype Reason = Gone | Reassigned | Cleared

  datatype OrphanAttempt = OrphanAttempt(at: AttemptId, runner: string, reason: Reason)

  function Explain(reason: Reason): string {
    match reason
    case Gone => "orphaned: runner drained or gone"
    case Reassigned => "orphaned: runner reassigned to a different step"
    case Cleared => "orphaned: runner re-registered without closing prior attempt"
  }

  /** Why the runner's binding to the attempt is stale, if it is. */
  function StaleReason(pool: P.Pool, runner: string, at: AttemptId): (r: Option<Reason>)
    ensures r.None? <==> L.HoldsExactly(pool, runner, at) && pool[runner].status != P.Drained
  {
    if runner !in pool || pool[runner].status == P.Drained then Some(Gone)
    else if pool[runner].currentStep.None? then Some(Cleared)
    else if pool[runner].currentStep == Some(at) then None
    else Some(Reassigned)
  }

  lemma EntryIsItself(executions: P.Executions, id: string, i: nat)
    requires P.AllUnique(executions) && id in executions && i < |executions[id].attempts|
    ensures var a := executions[id].attempts[i];
            L.Entry(executions, AttemptId(id, a.step, a.attempt)) == Some(a)
  {
    var attempts := executions[id].attempts;
    var a := attempts[i];
    var p := P.LastPosition(attempts, a.step, a.attempt);
    assert P.IsAttempt(attempts[i], a.step, a.attempt);
    assert p.Some? && p.value == i;
  }

  /** The orphans found so far, each with its lessee and the reason it is stale. */
  ghost predicate Found(s: P.State, orphans: seq<OrphanAttempt>, seen: set<AttemptId>) {
    && (forall i :: 0 <= i < |orphans| ==>
          && orphans[i].at in seen && L.Orphan(s, orphans[i].at)
          && orphans[i].runner == L.Lessee(s.executions, orphans[i].at)
          && StaleReason(s.pool, orphans[i].runner, orphans[i].at) == Some(orphans[i].reason))
    && (forall at :: at in seen && L.Orphan(s, at) ==> exists i :: 0 <= i < |orphans| && orphans[i].at == at)
    && (forall i, j :: 0 <= i < j < |orphans| ==> orphans[i].at != orphans[j].at)
  }

  function IdsOf(id: string, attempts: seq<P.Attempt>): set<AttemptId> {
    set i | 0 <= i < |attempts| :: AttemptId(id, attempts[i].step, attempts[i].attempt)
  }

  lemma FoundOneMore(s: P.State, orphans: seq<OrphanAttempt>, seen: set<AttemptId>, o: OrphanAttempt)
    requires Found(s, orphans, seen) && o.at !in seen && L.Orphan(s, o.at)
    requires o.runner == L.Lessee(s.executions, o.at) && StaleReason(s.pool, o.runner, o.at) == Some(o.reason)
    ensures Found(s, orphans + [o], seen + {o.at})
  {
    var more := orphans + [o];
    assert more[|orphans|].at == o.at;
    forall x | x in seen + {o.at} && L.Orphan(s, x) ensures exists i :: 0 <= i < |more| && more[i].at == x {
      if x != o.at {
        var i :| 0 <= i < |orphans| && orphans[i].at == x;
        assert more[i].at == x;
      }
    }
  }

  /** Looks at one attempt of a running execution. */
  method ScanOne(s: P.State, id: string, j: nat, orphans: seq<OrphanAttempt>, ghost seen: set<AttemptId>)
    returns (orphans': seq<OrphanAttempt>)
    requires P.AllUnique(s.executions) && id in s.executions && j < |s.executions[id].attempts|
    requires s.executions[id].status == Running && Found(s, orphans, seen)
    requires AttemptId(id, s.executions[id].attempts[j].step, s.executions[id].attempts[j].attempt) !in seen
    ensures Found(s, orphans', seen + {AttemptId(id, s.executions[id].attempts[j].step, s.executions[id].attempts[j].attempt)})
  {
    var a := s.executions[id].attempts[j];
    var at := AttemptId(id, a.step, a.attempt);
    EntryIsItself(s.executions, id, j);
    orphans' := orphans;
    if L.InFlight(a) {
      var reason := StaleReason(s.pool, a.runner.value, at);
      if reason.Some? {
        orphans' := orphans + [OrphanAttempt(at, a.runner.value, reason.value)];
        FoundOneMore(s, orphans, seen, OrphanAttempt(at, a.runner.value, reason.value));
      }
    }
  }

  /** Looks at every attempt of one execution, if it is running. */
  method ScanExecution(s: P.State, id: string, orphans: seq<OrphanAttempt>, ghost seen: set<AttemptId>)
    returns (orphans': seq<OrphanAttempt>)
    requires P.AllUnique(s.executions) && id in s.executions && Found(s, orphans, seen)
    requires forall at :: at in seen ==> at.execution != id
    ensures Found(s, orphans', seen + IdsOf(id, s.executions[id].attempts))
  {
    var exec := s.executions[id];
    orphans' := orphans;
    if exec.status != Running {
      NotRunningIsNoOrphan(s, id, orphans, seen);
      return;
    }
    ghost var looked := seen;
    for j := 0 to |exec.attempts|
      invariant Found(s, orphans', looked)
      invariant looked == seen + IdsOf(id, exec.attempts[..j])
    {
      NotYetSeen(s.executions, id, j);
      orphans' := ScanOne(s, id, j, orphans', looked);
      IdsOneMore(id, exec.attempts, j);
      looked := looked + {AttemptId(id, exec.attempts[j].step, exec.attempts[j].attempt)};
    }
    assert exec.attempts[..|exec.attempts|] == exec.attempts;
  }

  lemma NotRunningIsNoOrphan(s: P.State, id: string, orphans: seq<OrphanAttempt>, seen: set<AttemptId>)
    requires id in s.executions && s.executions[id].status != Running && Found(s, orphans, seen)
    ensures Found(s, orphans, seen + IdsOf(id, s.executions[id].attempts))
  {
    assert forall at :: at in IdsOf(id, s.executions[id].attempts) ==> at.execution == id && !L.Orphan(s, at);
  }

  lemma NotYetSeen(executions: P.Executions, id: string, j: nat)
    requires P.AllUnique(executions) && id in executions && j < |executions[id].attempts|
    ensures var attempts := executions[id].attempts;
            AttemptId(id, attempts[j].step, attempts[j].attempt) !in IdsOf(id, attempts[..j])
  {
    var attempts := executions[id].attempts;
    assert P.UniqueAttempts(attempts);
    assert forall i :: 0 <= i < j ==> !P.IsAttempt(attempts[i], attempts[j].step, attempts[j].attempt);
  }

  /** Finds every leased attempt whose runner is gone, drained, reassigned or cleared. */
  method ScanOrphanAttempts(s: P.State) returns (orphans: seq<OrphanAttempt>)
    requires P.AllUnique(s.executions)
    ensures Found(s, orphans, L.AllIds(s.executions))
  {
    orphans := [];
    var ids := Keys(s.executions);
    ghost var seen: set<AttemptId> := {};
    for k := 0 to |ids|
      invariant Found(s, orphans, seen)
      invariant forall at :: at in seen <==> at.execution in ids[..k] && at in L.AllIds(s.executions)
    {
      orphans := ScanExecution(s, ids[k], orphans, seen);
      IdsAreAllOfOne(s.executions, ids[k]);
      seen := seen + IdsOf(ids[k], s.executions[ids[k]].attempts);
    }
    assert seen == L.AllIds(s.executions) by {
      assert forall at :: at in L.AllIds(s.executions) ==> at.execution in ids[..|ids|];
    }
  }

  lemma IdsOneMore(id: string, attempts: seq<P.Attempt>, j: nat)
    requires j < |attempts|
    ensures IdsOf(id, attempts[..j + 1])
            == IdsOf(id, attempts[..j]) + {AttemptId(id, attempts[j].step, attempts[j].attempt)}
  {
    var more := attempts[..j + 1];
    assert forall i :: 0 <= i < j ==> more[i] == attempts[..j][i];
    assert more[j] == attempts[j];
  }

  lemma IdsAreAllOfOne(executions: P.Executions, id: string)
    requires id in executions
    ensures forall at :: at in IdsOf(id, executions[id].attempts) <==> at.execution == id && at in L.AllIds(executions)
  {
    forall at: AttemptId | at.execution == id && at in L.AllIds(executions) ensures at in IdsOf(id, executions[id].attempts) {
      var x, i :| x in executions && 0 <= i < |executions[x].attempts|
                  && at == AttemptId(x, executions[x].attempts[i].step, executions[x].attempts[i].attempt);
      assert executions[id].attempts[i].step == at.step;
    }
    forall at | at in IdsOf(id, executions[id].attempts) ensures at in L.AllIds(executions) {
      var i :| 0 <= i < |executions[id].attempts|
               && at == AttemptId(id, executions[id].attempts[i].step, executions[id].attempts[i].attempt);
      assert executions[id].attempts[i].step == at.step;
    }
  }

  /** What a run of failures has stored: the folded events for the first attempts. */
  ghost predicate Closed(before: P.State, log: seq<Envelope>, ats: seq<AttemptId>, events: seq<Envelope>, after: P.State, log': seq<Envelope>) {
    L.FailsAll(events, ats) && P.Folds(before, events, after) && log' == log + events
  }

  lemma ClosedOneMore(before: P.State, log: seq<Envelope>, ats: seq<AttemptId>, events: seq<Envelope>, mid: P.State, log': seq<Envelope>,
                      at: AttemptId, e: Envelope, after: P.State)
    requires Closed(before, log, ats, events, mid, log') && L.Fails(e, at) && P.Applies(mid, e, after)
    ensures Closed(before, log, ats + [at], events + [e], after, log' + [e])
  {
    Reassociate(log, events, [e]);
    P.FoldsOneMore(before, events, mid, e, after);
  }

  /** Fails each of the attempts in turn; one that cannot be stored is skipped over. */
  method CloseAll(bus: EventBus, orphans: seq<OrphanAttempt>, ghost ats: seq<AttemptId>, now: int)
    returns (ghost complete: bool, ghost closed: seq<AttemptId>, ghost events: seq<Envelope>)
    requires bus.Valid() && |ats| == |orphans| && forall i :: 0 <= i < |ats| ==> ats[i] == orphans[i].at
    modifies bus`log, bus`nextSeq, bus`published, bus.projections
    ensures bus.Valid()
    ensures Closed(old(State(bus)), old(bus.log), closed, events, State(bus), bus.log)
    ensures (forall at :: at in closed ==> at in ats) && (complete ==> closed == ats)
  {
    complete, closed, events := true, [], [];
    for i := 0 to |orphans|
      invariant bus.Valid()
      invariant Closed(old(State(bus)), old(bus.log), closed, events, State(bus), bus.log)
      invariant (forall at :: at in closed ==> at in ats) && (complete ==> closed == ats[..i])
    {
      ghost var before, log := State(bus), bus.log;
      var stored, e := FailAttempt(bus, orphans[i].at, Explain(orphans[i].reason), now);
      SliceOneMore([], ats, 0, i);
      if stored {
        ClosedOneMore(old(State(bus)), old(bus.log), closed, events, before, log, ats[i], e, State(bus));
        closed, events := closed + [ats[i]], events + [e];
      }
      complete := complete && stored;
    }
    assert ats[..|ats|] == ats;
  }

  /**
   Scans and closes: exactly the attempts whose failure could be stored, all of them orphans. When every
   append succeeds this is one sweep in the sense of `Leases`; `complete` says whether it was.
   */
  method SweepOrphanAttempts(bus: EventBus, now: int)
    returns (ghost complete: bool, ghost ats: seq<AttemptId>, ghost events: seq<Envelope>)
    requires bus.Valid()
    modifies bus`log, bus`nextSeq, bus`published, bus.projections
    ensures bus.Valid()
    ensures Closed(old(State(bus)), old(bus.log), ats, events, State(bus), bus.log)
    ensures forall at :: at in ats ==> L.Orphan(old(State(bus)), at)
    ensures complete ==> L.Sweeps(old(State(bus)), ats, State(bus))
  {
    P.AttemptsAlwaysUnique(P.EMPTY, bus.log, State(bus));
    var orphans := ScanOrphanAttempts(State(bus));
    ghost var all := seq(|orphans|, i requires 0 <= i < |orphans| => orphans[i].at);
    ScannedExactly(State(bus), orphans, all);
    complete, ats, events := CloseAll(bus, orphans, all, now);
  }

  lemma ScannedExactly(s: P.State, orphans: seq<OrphanAttempt>, ats: seq<AttemptId>)
    requires Found(s, orphans, L.AllIds(s.executions))
    requires |ats| == |orphans| && forall i :: 0 <= i < |ats| ==> ats[i] == orphans[i].at
    ensures Distinct(ats) && forall at :: at in ats <==> L.Orphan(s, at)
  {
    forall at | L.Orphan(s, at) ensures at in ats {
      assert at in L.LeasedIds(s.executions);
      var i := P.LastPosition(s.executions[at.execution].attempts, at.step, at.attempt).value;
      assert s.executions[at.execution].attempts[i].step == at.step;
      assert at in L.AllIds(s.executions);
      var k :| 0 <= k < |orphans| && orphans[k].at == at;
      assert ats[k] == at;
    }
  }

  /**
   Start-up reconciliation. If each step had at most one leased attempt and every event was stored, each
   attempt still leased is the current step of an undrained runner with a fresh heartbeat. If besides no
   step was held twice, or by a runner its entry does not name, the state is sound for `LeasesStaySound`.
   */
  method Reconcile(bus: EventBus, now: int, grace: nat) returns (ghost complete: bool)
    requires bus.Valid()
    modifies bus`log, bus`nextSeq, bus`published, bus`heartbeats, bus.projections
    ensures bus.Valid()
    ensures complete && L.OneLeasePerStep(old(bus.projections.executions)) ==>
              forall x :: L.Leased(bus.projections.executions, x) ==>
                L.SoundLease(State(bus), LastSeen(old(bus.heartbeats)), x, now, grace)
    ensures complete && L.OneLeasePerStep(old(bus.projections.executions)) && L.PoolSound(old(State(bus))) ==>
              L.LeaseInv(State(bus)) && L.NoOrphans(State(bus))
  {
    ghost var before, seen := State(bus), LastSeen(bus.heartbeats);
    var drained, rs, drains := SweepOrphans(bus, now, grace);
    if !drained {
      return false;
    }
    ghost var mid := State(bus);
    ghost var swept, ats, events := SweepOrphanAttempts(bus, now);
    complete := swept;
    if complete && L.OneLeasePerStep(before.executions) {
      forall x | L.Leased(bus.projections.executions, x) ensures L.SoundLease(State(bus), seen, x, now, grace) {
        L.StartupReconciles(before, seen, now, grace, rs, drains, mid, ats, State(bus), x);
      }
      if L.PoolSound(before) {
        L.StartupLeavesInv(before, seen, now, grace, rs, drains, mid, ats, State(bus));
      }
    }
  }

  // ── Dispatch ────────────────────────────────────────────────────────

  /** Closes the runner's current attempt first, if it is a different one. */
  method ClosePriorAttemptOnDispatch(bus: EventBus, runner: string, at: AttemptId, now: int) returns (ok: bool, ghost e: Envelope)
    requires bus.Valid()
    modifies bus`log, bus`nextSeq, bus`published, bus.projections
    ensures bus.Valid()
    ensures ok ==>
              match L.Prior(old(State(bus)).pool, runner, at)
              case None => State(bus) == old(State(bus)) && bus.log == old(bus.log)
              case Some(prior) => L.Fails(e, prior) && P.Applies(old(State(bus)), e, State(bus)) && bus.log == old(bus.log) + [e]
  {
    var pool := bus.projections.pool;
    if runner !in pool || pool[runner].currentStep.None? || pool[runner].currentStep == Some(at) {
      return true, Envelope(0, 0, "", "", Other("", ""));
    }
    ok, e := FailAttempt(bus, pool[runner].currentStep.value, "orphaned: runner reassigned at dispatch time", now);
  }

  /** The guard, then step.dispatched: the effect whose lease safety `GuardedDispatchKeepsInv` states. */
  method DispatchStep(bus: EventBus, runner: string, at: AttemptId, timeout: Option<nat>, now: int) returns (ok: bool)
    requires bus.Valid()
    modifies bus`log, bus`nextSeq, bus`published, bus.projections
    ensures bus.Valid()
    ensures ok ==> L.DispatchEffect(old(State(bus)), at, runner, State(bus))
  {
    ghost var before := State(bus);
    var closed, close := ClosePriorAttemptOnDispatch(bus, runner, at, now);
    ghost var mid := State(bus);
    var r := bus.Append(SOURCE_OX, at.execution, StepDispatched(at, runner, timeout), now);
    ok := closed && r.Ok?;
    if ok {
      assert L.Dispatches(r.value, at, runner) && P.Applies(mid, r.value, State(bus));
    }
  }
}
