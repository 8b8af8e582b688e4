/**
 The staleness monitor (ox-server/src/pool.rs, check_tick): every tick compares the runner pool with
 the heartbeat table and emits missed and recovered events, and timeouts of overdue steps.
 */
module Monitor {
  import opened Prelude
  import opened Events
  import opened EventBus
  import P = Projections
  import L = Leases
  import Pool

  // ── One runner, one tick ────────────────────────────────────────────

  datatype Mark = Missed | Recovered | Drained

  /** The heartbeat is older than the grace period, or cannot be read. */
  predicate Stale(row: HeartbeatRow, now: int, grace: nat) {
    row.lastSeen.Some? ==> now - row.lastSeen.value > grace
  }

  /** The pool says the runner works on a step its heartbeat does not name. */
  predicate Mismatched(runner: P.RunnerState, row: HeartbeatRow) {
    runner.currentStep.Some? &&
    !(row.execution == Some(runner.currentStep.value.execution) && row.step == Some(runner.currentStep.value.step))
  }

  predicate LongDispatched(runner: P.RunnerState, now: int, grace: nat) {
    runner.dispatchedAt.Some? && now - runner.dispatchedAt.value > grace
  }

  /** First pass: a runner not yet marked is stale, or has long been working on another step. */
  predicate GoesMissing(pool: P.Pool, rows: map<string, HeartbeatRow>, missed: set<string>, r: string, now: int, grace: nat) {
    && r in rows && r in pool && r !in missed && rows[r].lastSeen.Some?
    && (Stale(rows[r], now, grace) || (LongDispatched(pool[r], now, grace) && Mismatched(pool[r], rows[r])))
  }

  /** The marked runners the first pass leaves. */
  predicate MarkedMidTick(pool: P.Pool, rows: map<string, HeartbeatRow>, missed: set<string>, r: string, now: int, grace: nat) {
    if r in rows && r !in pool then false
    else r in missed || GoesMissing(pool, rows, missed, r, now, grace)
  }

  predicate Unhealthy(pool: P.Pool, rows: map<string, HeartbeatRow>, r: string, now: int, grace: nat) {
    r in pool && r in rows && (Stale(rows[r], now, grace) || Mismatched(pool[r], rows[r]))
  }

  /** Second pass: a marked runner whose heartbeat is fresh and names its step. */
  predicate Recovers(pool: P.Pool, rows: map<string, HeartbeatRow>, marked: set<string>, r: string, now: int, grace: nat) {
    r in marked && r in pool && r in rows && !Unhealthy(pool, rows, r, now, grace)
  }

  function MarksOfEvent(e: Envelope, r: string): seq<Mark> {
    if e.source != SOURCE_OX then []
    else match e.body
      case HeartbeatMissed(runner, _) => if runner == r then [Missed] else []
      case RunnerRecovered(runner) => if runner == r then [Recovered] else []
      case RunnerDrained(runner) => if runner == r then [Drained] else []
      case _ => []
  }

  /** What a log says of one runner's health, in order. */
  function MarksOf(log: seq<Envelope>, r: string): seq<Mark> {
    if log == [] then [] else MarksOf(log[..|log| - 1], r) + MarksOfEvent(log[|log| - 1], r)
  }

  lemma OneMoreMark(segment: seq<Envelope>, e: Envelope, r: string)
    ensures MarksOf(segment + [e], r) == MarksOf(segment, r) + MarksOfEvent(e, r)
  {
    assert (segment + [e])[..|segment|] == segment;
  }

  lemma {:induction false} MarksOfConcat(a: seq<Envelope>, b: seq<Envelope>, r: string)
    ensures MarksOf(a + b, r) == MarksOf(a, r) + MarksOf(b, r)
  {
    if b == [] {
      assert a + b == a;
    } else {
      var front, e := b[..|b| - 1], b[|b| - 1];
      MarksOfConcat(a, front, r);
      SplitLast(a, b);
      OneMoreMark(a + front, e, r);
      Reassociate(MarksOf(a, r), MarksOf(front, r), MarksOfEvent(e, r));
    }
  }

  // ── The monitor ─────────────────────────────────────────────────────

  datatype Health = Health(pool: P.Pool, rows: map<string, HeartbeatRow>, missed: set<string>, log: seq<Envelope>)

  /** The two passes over a runner: what they emit for it, in order. */
  function TickMarks(h: Health, r: string, now: int, grace: nat): seq<Mark> {
    (if GoesMissing(h.pool, h.rows, h.missed, r, now, grace) then [Missed] else [])
    + (if RecoversIn(h, r, now, grace) then [Recovered] else [])
  }

  predicate RecoversIn(h: Health, r: string, now: int, grace: nat) {
    MarkedMidTick(h.pool, h.rows, h.missed, r, now, grace) && r in h.pool && r in h.rows
    && !Unhealthy(h.pool, h.rows, r, now, grace)
  }

  predicate MarkedIn(h: Health, r: string, now: int, grace: nat) {
    MarkedMidTick(h.pool, h.rows, h.missed, r, now, grace) && Unhealthy(h.pool, h.rows, r, now, grace)
  }

  /** What one tick does to the marks; a report that could not be stored is missing from the log. */
  ghost predicate Ticks(before: Health, now: int, grace: nat, after: Health) {
    && after.rows == before.rows && before.pool.Keys <= after.pool.Keys && before.log <= after.log
    && (forall r :: r in after.missed <==> MarkedIn(before, r, now, grace))
    && forall r :: !Lost(before, now, grace, after, r) || MarksOf(after.log[|before.log|..], r) == []
  }

  /** The log does not say of the runner what the tick meant to report. */
  predicate Lost(before: Health, now: int, grace: nat, after: Health, r: string)
    requires |before.log| <= |after.log|
  {
    MarksOf(after.log[|before.log|..], r) != TickMarks(before, r, now, grace)
  }

  /** A tick that loses no report. */
  ghost predicate TicksInFull(before: Health, now: int, grace: nat, after: Health) {
    Ticks(before, now, grace, after) && forall r :: !Lost(before, now, grace, after, r)
  }

  /** A step held past its timeout. */
  predicate Overdue(runner: P.RunnerState, now: int) {
    runner.currentStep.Some? && runner.dispatchedAt.Some? && runner.stepTimeoutSecs.Some?
    && now - runner.dispatchedAt.value > runner.stepTimeoutSecs.value
  }

  lemma {:induction false} FoldsKeepRunners(before: P.State, events: seq<Envelope>, after: P.State)
    requires P.Folds(before, events, after)
    ensures before.pool.Keys <= after.pool.Keys
  {
    if events != [] {
      var n := |events| - 1;
      var mid :| P.Folds(before, events[..n], mid) && P.Applies(mid, events[n], after);
      FoldsKeepRunners(before, events[..n], mid);
      FoldKeepsRunners(mid, events[n], after);
    }
  }

  lemma FoldKeepsRunners(before: P.State, e: Envelope, after: P.State)
    requires P.Applies(before, e, after)
    ensures before.pool.Keys <= after.pool.Keys
  {
    PoolKeepsRunners(before.pool, e, after.pool);
  }

  lemma PoolKeepsRunners(before: P.Pool, e: Envelope, after: P.Pool)
    requires P.PoolAfter(before, e, after)
    ensures before.Keys <= after.Keys
  {
  }

  /** The segment marks each of these runners once, in this way, and no other runner. */
  ghost predicate Marks(segment: seq<Envelope>, runners: set<string>, mark: Mark) {
    forall r :: MarksOf(segment, r) == if r in runners then [mark] else []
  }

  /** An event that says this of one runner and nothing of any other. */
  predicate Says(e: Envelope, mark: Mark, id: string) {
    e.source == SOURCE_OX &&
    match mark
    case Missed => e.body.HeartbeatMissed? && e.body.runner == id
    case Recovered => e.body.RunnerRecovered? && e.body.runner == id
    case Drained => e.body.RunnerDrained? && e.body.runner == id
  }

  lemma MarksOneMore(segment: seq<Envelope>, runners: set<string>, mark: Mark, e: Envelope, id: string)
    requires Marks(segment, runners, mark) && id !in runners && Says(e, mark, id)
    ensures Marks(segment + [e], runners + {id}, mark)
  {
    forall r ensures MarksOf(segment + [e], r) == if r in runners + {id} then [mark] else [] {
      OneMoreMark(segment, e, r);
    }
  }

  /** The marked runners after the first pass has looked at some rows. */
  ghost predicate MarkedAfter(missed': set<string>, h: Health, done: seq<string>, now: int, grace: nat) {
    forall r :: r in missed' <==>
      if r in done then MarkedMidTick(h.pool, h.rows, h.missed, r, now, grace) else r in h.missed
  }

  lemma MarkedOneMore(was: set<string>, missed: set<string>, h: Health, done: seq<string>, id: string, now: int, grace: nat)
    requires MarkedAfter(was, h, done, now, grace) && id !in done
    requires forall r :: r != id ==> (r in missed <==> r in was)
    requires id in missed <==> MarkedMidTick(h.pool, h.rows, was, id, now, grace)
    ensures MarkedAfter(missed, h, done + [id], now, grace)
    ensures GoesMissing(h.pool, h.rows, was, id, now, grace) <==> GoesMissing(h.pool, h.rows, h.missed, id, now, grace)
  {
  }

  predicate HeldIn(pool: P.Pool, at: AttemptId) {
    exists r :: r in pool && pool[r].currentStep == Some(at)
  }

  ghost predicate OverdueIn(pool: P.Pool, rs: set<string>, at: AttemptId, now: int) {
    exists r :: r in rs && r in pool && pool[r].currentStep == Some(at) && Overdue(pool[r], now)
  }

  lemma OverdueOneMore(pool: P.Pool, rs: set<string>, id: string, now: int)
    requires id in pool
    ensures forall at :: OverdueIn(pool, rs + {id}, at, now)
                         <==> OverdueIn(pool, rs, at, now) || (pool[id].currentStep == Some(at) && Overdue(pool[id], now))
  {
    forall at | OverdueIn(pool, rs, at, now) || (pool[id].currentStep == Some(at) && Overdue(pool[id], now))
      ensures OverdueIn(pool, rs + {id}, at, now)
    {
      if OverdueIn(pool, rs, at, now) {
        var r :| r in rs && r in pool && pool[r].currentStep == Some(at) && Overdue(pool[r], now);
        assert r in rs + {id};
      } else {
        assert id in rs + {id};
      }
    }
  }

  /** The overdue attempts of the runners looked at, each once, and what is marked timed out with them. */
  ghost predicate LateSoFar(pool: P.Pool, done: set<string>, ats: seq<AttemptId>, was: set<AttemptId>,
                            timedOut: set<AttemptId>, now: int) {
    && Distinct(ats)
    && (forall at :: at in ats <==> OverdueIn(pool, done, at, now) && at !in was)
    && (forall at :: at in timedOut <==> at in was || at in ats)
  }

  lemma LateOneMore(pool: P.Pool, done: set<string>, ats: seq<AttemptId>, was: set<AttemptId>, id: string, now: int,
                    late: Option<AttemptId>)
    requires id in pool && LateSoFar(pool, done, ats, was, was + (set at | at in ats), now)
    requires late.Some? <==> Overdue(pool[id], now) && pool[id].currentStep.value !in was && pool[id].currentStep.value !in ats
    requires late.Some? ==> late == pool[id].currentStep
    ensures var ats' := if late.Some? then ats + [late.value] else ats;
            LateSoFar(pool, done + {id}, ats', was, was + (set at | at in ats'), now)
  {
    OverdueOneMore(pool, done, id, now);
  }

  ghost predicate TimesOut(segment: seq<Envelope>, ats: seq<AttemptId>) {
    |segment| == |ats| &&
    forall i :: 0 <= i < |ats| ==>
      segment[i].source == SOURCE_OX && segment[i].body.StepTimeout? && segment[i].body.at == ats[i]
  }

  lemma TimesOutOneMore(segment: seq<Envelope>, ats: seq<AttemptId>, e: Envelope)
    requires TimesOut(segment, ats) && e.source == SOURCE_OX && e.body.StepTimeout?
    ensures TimesOut(segment + [e], ats + [e.body.at])
  {
  }

  predicate Silent(e: Envelope) {
    e.body.StepTimeout? || e.body.StepFailed?
  }

  lemma {:induction false} SilentMarksNothing(segment: seq<Envelope>, r: string)
    requires forall i :: 0 <= i < |segment| ==> Silent(segment[i])
    ensures MarksOf(segment, r) == []
  {
    if segment != [] {
      SilentMarksNothing(segment[..|segment| - 1], r);
    }
  }

  lemma TickSegments(missing: seq<Envelope>, gone: set<string>, recovered: seq<Envelope>, back: set<string>,
                     overdue: seq<Envelope>, told: seq<AttemptId>, closing: seq<Envelope>, orphans: seq<AttemptId>, r: string)
    requires Marks(missing, gone, Missed) && Marks(recovered, back, Recovered)
    requires TimesOut(overdue, told) && L.FailsAll(closing, orphans)
    ensures MarksOf(missing + recovered + overdue + closing, r)
            == (if r in gone then [Missed] else []) + (if r in back then [Recovered] else [])
  {
    SilentMarksNothing(overdue, r);
    SilentMarksNothing(closing, r);
    MarksOfConcat(missing, recovered, r);
    MarksOfConcat(missing + recovered, overdue, r);
    MarksOfConcat(missing + recovered + overdue, closing, r);
  }

  lemma Tail<T>(start: seq<T>, a: seq<T>, b: seq<T>, c: seq<T>, d: seq<T>)
    ensures ((((start + a) + b) + c) + d)[|start|..] == a + b + c + d
    ensures start <= (((start + a) + b) + c) + d
  {
  }

  /** Splits the marked runners into those still unhealthy and those to report as recovered. */
  method Retain(marked: set<string>, pool: P.Pool, rows: map<string, HeartbeatRow>, now: int, grace: nat)
    returns (kept: set<string>, recovered: seq<string>)
    ensures forall r :: r in kept <==> r in marked && Unhealthy(pool, rows, r, now, grace)
    ensures Distinct(recovered)
    ensures forall r :: r in recovered <==> Recovers(pool, rows, marked, r, now, grace)
  {
    recovered, kept := [], {};
    var rest := marked;
    while rest != {}
      invariant rest <= marked && Distinct(recovered)
      invariant forall r :: r in recovered <==> r !in rest && Recovers(pool, rows, marked, r, now, grace)
      invariant forall r :: r in kept <==> r !in rest && r in marked && Unhealthy(pool, rows, r, now, grace)
    {
      var id :| id in rest;
      if Unhealthy(pool, rows, id, now, grace) {
        kept := kept + {id};
      } else if id in pool && id in rows {
        recovered := recovered + [id];
      }
      rest := rest - {id};
    }
  }

  ghost predicate AllTold(h: Health, gone: set<string>, back: set<string>, now: int, grace: nat) {
    && (forall r :: GoesMissing(h.pool, h.rows, h.missed, r, now, grace) ==> r in gone)
    && (forall r :: RecoversIn(h, r, now, grace) ==> r in back)
  }

  /** What is told of a runner is all there was to tell, or nothing. */
  lemma ToldMarks(h: Health, r: string, now: int, grace: nat, gone: bool, back: bool)
    requires gone ==> GoesMissing(h.pool, h.rows, h.missed, r, now, grace)
    requires back ==> RecoversIn(h, r, now, grace)
    ensures var told := (if gone then [Missed] else []) + (if back then [Recovered] else []);
            && (told == TickMarks(h, r, now, grace) || told == [])
            && (gone == GoesMissing(h.pool, h.rows, h.missed, r, now, grace) && back == RecoversIn(h, r, now, grace) ==>
                  told == TickMarks(h, r, now, grace))
  {
    TickReportsOnce(h, r, now, grace);
  }

  lemma TickAddsUp(before: Health, after: Health, now: int, grace: nat,
                   missing: seq<Envelope>, gone: set<string>, recovered: seq<Envelope>, back: set<string>,
                   overdue: seq<Envelope>, told: seq<AttemptId>, closing: seq<Envelope>, orphans: seq<AttemptId>)
    requires Marks(missing, gone, Missed) && Marks(recovered, back, Recovered)
    requires TimesOut(overdue, told) && L.FailsAll(closing, orphans)
    requires forall r :: r in gone ==> GoesMissing(before.pool, before.rows, before.missed, r, now, grace)
    requires forall r :: r in back ==> RecoversIn(before, r, now, grace)
    requires forall r :: r in after.missed <==> MarkedIn(before, r, now, grace)
    requires after.rows == before.rows && before.pool.Keys <= after.pool.Keys
    requires after.log == (((before.log + missing) + recovered) + overdue) + closing
    ensures Ticks(before, now, grace, after)
    ensures AllTold(before, gone, back, now, grace) ==> TicksInFull(before, now, grace, after)
    ensures after.log == before.log + ((missing + recovered) + overdue + closing)
  {
    Tail(before.log, missing, recovered, overdue, closing);
    var tail := missing + recovered + overdue + closing;
    assert after.log[|before.log|..] == tail;
    forall r
      ensures Lost(before, now, grace, after, r) ==> MarksOf(tail, r) == [] && !AllTold(before, gone, back, now, grace)
    {
      TickSegments(missing, gone, recovered, back, overdue, told, closing, orphans, r);
      ToldMarks(before, r, now, grace, r in gone, r in back);
    }
  }

  /** What a complete tick appended: the runner reports, the timeouts of `late`, then the sweep from `mid`. */
  datatype Report = Report(
    runners: seq<Envelope>, late: seq<AttemptId>, overdue: seq<Envelope>,
    mid: P.State, orphans: seq<AttemptId>, closing: seq<Envelope>)

  ghost predicate Reports(report: Report, before: Health, timedOut: set<AttemptId>, now: int, log: seq<Envelope>, after: P.State) {
    && log == before.log + (report.runners + report.overdue + report.closing)
    && TimesOut(report.overdue, report.late) && Distinct(report.late)
    && (forall at :: at in report.late <==> OverdueIn(before.pool, before.pool.Keys, at, now) && at !in timedOut)
    && L.FailsAll(report.closing, report.orphans) && L.Sweeps(report.mid, report.orphans, after)
  }

  class Monitor {
    const bus: EventBus
    const grace: nat
    var missed: set<string>
    var timedOut: set<AttemptId>

    constructor (bus: EventBus, grace: nat)
      ensures this.bus == bus && this.grace == grace && missed == {} && timedOut == {}
    {
      this.bus, this.grace, missed, timedOut := bus, grace, {}, {};
    }

    ghost function Seen(): Health
      reads this, bus, bus.projections
    {
      Health(bus.projections.pool, bus.heartbeats, missed, bus.log)
    }

    /** Appends an event; one that cannot be stored is only reported. */
    method Emit(subjectId: string, body: Body, now: int) returns (ghost stored: bool, ghost e: Envelope)
      requires bus.Valid()
      modifies bus`log, bus`nextSeq, bus`published, bus.projections
      ensures bus.Valid() && old(bus.projections.pool).Keys <= bus.projections.pool.Keys
      ensures e.source == SOURCE_OX && e.body == body
      ensures bus.log == old(bus.log) + if stored then [e] else []
    {
      ghost var before := bus.projections.Value();
      e := Envelope(bus.nextSeq, now, SOURCE_OX, subjectId, body);
      var r := bus.Append(SOURCE_OX, subjectId, body, now);
      stored := r.Ok?;
      if r.Ok? {
        FoldKeepsRunners(before, e, bus.projections.Value());
      }
    }

    function OrphanOf(runner: P.RunnerState, row: HeartbeatRow, now: int): Option<AttemptId> {
      if LongDispatched(runner, now, grace) && Mismatched(runner, row) then runner.currentStep
      else if row.execution.Some? && row.step.Some? && row.attempt.Some?
      then Some(AttemptId(row.execution.value, row.step.value, row.attempt.value)) else None
    }

    method VisitRow(pool: P.Pool, rows: map<string, HeartbeatRow>, id: string, now: int)
      returns (ghost stored: bool, ghost e: Option<Envelope>)
      requires bus.Valid() && id in rows
      modifies this`missed, bus`log, bus`nextSeq, bus`published, bus.projections
      ensures bus.Valid() && old(bus.projections.pool).Keys <= bus.projections.pool.Keys
      ensures bus.log == old(bus.log) + if stored && e.Some? then [e.value] else []
      ensures e.Some? <==> GoesMissing(pool, rows, old(missed), id, now, grace)
      ensures e.Some? ==> Says(e.value, Missed, id)
      ensures forall r :: r != id ==> (r in missed <==> r in old(missed))
      ensures id in missed <==> MarkedMidTick(pool, rows, old(missed), id, now, grace)
    {
      stored, e := true, None;
      if id !in pool {
        missed := missed - {id};
      } else if GoesMissing(pool, rows, missed, id, now, grace) {
        ghost var event;
        stored, event := Emit(id, HeartbeatMissed(id, OrphanOf(pool[id], rows[id], now)), now);
        e := Some(event);
        missed := missed + {id};
      }
    }

    /** First pass over the heartbeat table: `gone` are the runners whose report was stored. */
    method MarkMissing(pool: P.Pool, rows: map<string, HeartbeatRow>, now: int)
      returns (ghost complete: bool, ghost segment: seq<Envelope>, ghost gone: set<string>)
      requires bus.Valid()
      modifies this`missed, bus`log, bus`nextSeq, bus`published, bus.projections
      ensures bus.Valid() && old(bus.projections.pool).Keys <= bus.projections.pool.Keys
      ensures forall r :: r in missed <==> MarkedMidTick(pool, rows, old(missed), r, now, grace)
      ensures bus.log == old(bus.log) + segment && Marks(segment, gone, Missed)
      ensures forall r :: r in gone ==> GoesMissing(pool, rows, old(missed), r, now, grace)
      ensures complete ==> forall r :: GoesMissing(pool, rows, old(missed), r, now, grace) ==> r in gone
    {
      var ids := Keys(rows);
      ghost var h := Health(pool, rows, missed, []);
      complete, segment, gone := true, [], {};
      for i := 0 to |ids|
        invariant bus.Valid() && old(bus.projections.pool).Keys <= bus.projections.pool.Keys
        invariant MarkedAfter(missed, h, ids[..i], now, grace)
        invariant bus.log == old(bus.log) + segment && Marks(segment, gone, Missed)
        invariant forall r :: r in gone ==> r in ids[..i] && GoesMissing(pool, rows, h.missed, r, now, grace)
        invariant complete ==> forall r :: r in ids[..i] && GoesMissing(pool, rows, h.missed, r, now, grace) ==> r in gone
      {
        assert ids[..i + 1] == ids[..i] + [ids[i]];
        ghost var was := missed;
        ghost var stored, e := VisitRow(pool, rows, ids[i], now);
        MarkedOneMore(was, missed, h, ids[..i], ids[i], now, grace);
        if stored && e.Some? {
          MarksOneMore(segment, gone, Missed, e.value, ids[i]);
          Reassociate(old(bus.log), segment, [e.value]);
          segment, gone := segment + [e.value], gone + {ids[i]};
        }
        complete := complete && stored;
      }
      assert ids[..|ids|] == ids;
    }

    method ReportRecovered(recovered: seq<string>, now: int)
      returns (ghost complete: bool, ghost segment: seq<Envelope>, ghost back: set<string>)
      requires bus.Valid() && Distinct(recovered)
      modifies bus`log, bus`nextSeq, bus`published, bus.projections
      ensures bus.Valid() && old(bus.projections.pool).Keys <= bus.projections.pool.Keys
      ensures bus.log == old(bus.log) + segment && Marks(segment, back, Recovered)
      ensures (forall r :: r in back ==> r in recovered) && (complete ==> forall r :: r in recovered ==> r in back)
    {
      complete, segment, back := true, [], {};
      for i := 0 to |recovered|
        invariant bus.Valid() && old(bus.projections.pool).Keys <= bus.projections.pool.Keys
        invariant bus.log == old(bus.log) + segment && Marks(segment, back, Recovered)
        invariant forall r :: r in back ==> r in recovered[..i]
        invariant complete ==> forall r :: r in recovered[..i] ==> r in back
      {
        ghost var stored, e := Emit(recovered[i], RunnerRecovered(recovered[i]), now);
        if stored {
          MarksOneMore(segment, back, Recovered, e, recovered[i]);
          Reassociate(old(bus.log), segment, [e]);
          segment, back := segment + [e], back + {recovered[i]};
        }
        complete := complete && stored;
      }
      assert recovered[..|recovered|] == recovered;
    }

    /** Second pass: unmarks every runner that is healthy or gone, and reports the healthy ones. */
    method ClearRecovered(pool: P.Pool, rows: map<string, HeartbeatRow>, now: int)
      returns (ghost complete: bool, ghost segment: seq<Envelope>, ghost back: set<string>)
      requires bus.Valid()
      modifies this`missed, bus`log, bus`nextSeq, bus`published, bus.projections
      ensures bus.Valid() && old(bus.projections.pool).Keys <= bus.projections.pool.Keys
      ensures forall r :: r in missed <==> r in old(missed) && Unhealthy(pool, rows, r, now, grace)
      ensures bus.log == old(bus.log) + segment && Marks(segment, back, Recovered)
      ensures forall r :: r in back ==> Recovers(pool, rows, old(missed), r, now, grace)
      ensures complete ==> forall r :: Recovers(pool, rows, old(missed), r, now, grace) ==> r in back
    {
      var recovered;
      missed, recovered := Retain(missed, pool, rows, now, grace);
      complete, segment, back := ReportRecovered(recovered, now);
    }

    method TimeOutOne(runner: P.RunnerState, now: int) returns (ghost stored: bool, ghost e: Option<Envelope>)
      requires bus.Valid()
      modifies this`timedOut, bus`log, bus`nextSeq, bus`published, bus.projections
      ensures bus.Valid() && old(bus.projections.pool).Keys <= bus.projections.pool.Keys
      ensures bus.log == old(bus.log) + if stored && e.Some? then [e.value] else []
      ensures e.Some? <==> Overdue(runner, now) && runner.currentStep.value !in old(timedOut)
      ensures e.Some? ==> e.value.source == SOURCE_OX && e.value.body.StepTimeout?
                          && Some(e.value.body.at) == runner.currentStep
      ensures timedOut == old(timedOut) + if e.Some? then {e.value.body.at} else {}
    {
      stored, e := true, None;
      if Overdue(runner, now) && runner.currentStep.value !in timedOut {
        var at := runner.currentStep.value;
        ghost var event;
        stored, event := Emit(at.execution, StepTimeout(at, runner.stepTimeoutSecs.value), now);
        e := Some(event);
        timedOut := timedOut + {at};
      }
    }

    /** Third pass: times out each overdue attempt once, for as long as a runner holds it; `told` are those stored. */
    method TimeOutSteps(pool: P.Pool, now: int)
      returns (ghost complete: bool, ghost segment: seq<Envelope>, ghost told: seq<AttemptId>, ghost late: seq<AttemptId>)
      requires bus.Valid()
      modifies this`timedOut, bus`log, bus`nextSeq, bus`published, bus.projections
      ensures bus.Valid() && old(bus.projections.pool).Keys <= bus.projections.pool.Keys
      ensures bus.log == old(bus.log) + segment && TimesOut(segment, told)
      ensures complete ==> told == late
      ensures Distinct(late) && forall at :: at in late <==> OverdueIn(pool, pool.Keys, at, now) && at !in old(timedOut)
      ensures forall at :: at in timedOut <==> (at in old(timedOut) || at in late) && HeldIn(pool, at)
    {
      var ids := Keys(pool);
      complete, segment, told, late := true, [], [], [];
      ghost var done: set<string> := {};
      for i := 0 to |ids|
        invariant bus.Valid() && old(bus.projections.pool).Keys <= bus.projections.pool.Keys
        invariant bus.log == old(bus.log) + segment && TimesOut(segment, told)
        invariant complete ==> told == late
        invariant forall r :: r in done <==> r in ids[..i]
        invariant LateSoFar(pool, done, late, old(timedOut), timedOut, now)
      {
        ghost var stored, e := TimeOutOne(pool[ids[i]], now);
        LateOneMore(pool, done, late, old(timedOut), ids[i], now, if e.Some? then Some(e.value.body.at) else None);
        done := done + {ids[i]};
        if e.Some? {
          late := late + [e.value.body.at];
          if stored {
            Reassociate(old(bus.log), segment, [e.value]);
            TimesOutOneMore(segment, told, e.value);
            segment, told := segment + [e.value], told + [e.value.body.at];
          }
        }
        complete := complete && stored;
      }
      assert done == pool.Keys by {
        assert ids[..|ids|] == ids;
      }
      timedOut := set at | at in timedOut && HeldIn(pool, at);
    }

    /**
     One tick: the two passes over runners, the timeouts, then the sweep of orphaned attempts. A report that
     cannot be stored is skipped over; `complete` says that none was.
     */
    method CheckTick(now: int) returns (ghost complete: bool, ghost report: Report)
      requires bus.Valid()
      modifies this, bus`log, bus`nextSeq, bus`published, bus.projections
      ensures bus.Valid()
      ensures Ticks(old(Seen()), now, grace, Seen())
      ensures forall at :: at in timedOut <==> (at in old(timedOut) || at in report.late) && HeldIn(old(Seen()).pool, at)
      ensures complete ==> TicksInFull(old(Seen()), now, grace, Seen())
      ensures complete ==> Reports(report, old(Seen()), old(timedOut), now, bus.log, Pool.State(bus))
    {
      var pool, rows := bus.projections.pool, bus.heartbeats;
      ghost var before := Seen();
      ghost var c1, missing, gone := MarkMissing(pool, rows, now);
      ghost var c2, recovered, back := ClearRecovered(pool, rows, now);
      ghost var c3, overdue, told, late := TimeOutSteps(pool, now);
      ghost var mid := Pool.State(bus);
      ghost var c4, orphans, closing := Pool.SweepOrphanAttempts(bus, now);
      complete, report := c1 && c2 && c3 && c4, Report(missing + recovered, late, overdue, mid, orphans, closing);
      FoldsKeepRunners(mid, closing, Pool.State(bus));
      TickAddsUp(before, Seen(), now, grace, missing, gone, recovered, back, overdue, told, closing, orphans);
    }
  }

  // ── One runner over a whole server lifetime ─────────────────────────

  /** A missed runner comes back, or is drained, before it is reported missed again. */
  ghost predicate NoRepeatedMiss(ms: seq<Mark>) {
    forall i, j :: 0 <= i < j < |ms| && ms[i] == Missed && ms[j] == Missed ==>
      exists k :: i < k < j && (ms[k] == Recovered || ms[k] == Drained)
  }

  /** Reported missed, and not reported recovered since. */
  ghost predicate Open(ms: seq<Mark>) {
    exists i :: 0 <= i < |ms| && ms[i] == Missed && forall k :: i < k < |ms| ==> ms[k] != Recovered
  }

  ghost predicate RecoveriesMatched(ms: seq<Mark>) {
    forall j :: 0 <= j < |ms| && ms[j] == Recovered ==> Open(ms[..j])
  }

  predicate EndsMissed(ms: seq<Mark>) {
    ms != [] && ms[|ms| - 1] == Missed
  }

  datatype Action =
    | Tick(now: int, grace: nat)
    | Beat(runner: string, at: int, execution: Option<string>, step: Option<string>, attempt: Option<nat>)
    | Happens(e: Envelope)

  /** Only the monitor reports missed and recovered runners; a drain may remove the heartbeat row. */
  ghost predicate Steps(before: Health, a: Action, after: Health) {
    match a
    case Tick(now, grace) => Ticks(before, now, grace, after)
    case Beat(r, at, execution, step, attempt) =>
      after == before.(rows := Pool.Beaten(before.rows, r, at, execution, step, attempt))
    case Happens(e) =>
      && P.PoolAfter(before.pool, e, after.pool)
      && after.missed == before.missed && after.log == before.log + [e]
      && (e.source == SOURCE_OX ==> !e.body.HeartbeatMissed? && !e.body.RunnerRecovered?)
      && (after.rows == before.rows
          || (e.source == SOURCE_OX && e.body.RunnerDrained? && after.rows == before.rows - {e.body.runner}))
  }

  /** A heartbeat names what the pool has the runner working on; a runner with nothing to do may say anything. */
  predicate Names(runner: P.RunnerState, execution: Option<string>, step: Option<string>) {
    runner.currentStep.Some? ==>
      execution == Some(runner.currentStep.value.execution) && step == Some(runner.currentStep.value.step)
  }

  /**
   What a heartbeat is for: at a tick within the grace period after it, a registered runner whose heartbeat
   names its step is not reported missed, and is reported recovered exactly if it was marked.
   */
  lemma HeartbeatHeals(before: Health, beat: Action, beaten: Health, now: int, grace: nat, after: Health)
    requires beat.Beat? && Steps(before, beat, beaten) && TicksInFull(beaten, now, grace, after)
    requires beat.runner in before.pool && Names(before.pool[beat.runner], beat.execution, beat.step)
    requires now - beat.at <= grace
    ensures beat.runner !in after.missed
    ensures MarksOf(after.log[|beaten.log|..], beat.runner) == if beat.runner in before.missed then [Recovered] else []
  {
    TickReportsOnce(beaten, beat.runner, now, grace);
    assert !Lost(beaten, now, grace, after, beat.runner);
  }

  /** What links a runner's marks so far to the monitor's state, as long as no recovery is lost. */
  ghost predicate MissesCoherent(ms: seq<Mark>, marked: bool, pooled: bool, beating: bool) {
    NoRepeatedMiss(ms) && (EndsMissed(ms) ==> marked && pooled && beating)
  }

  /** And as long as no missed report is lost. */
  ghost predicate RecoveriesCoherent(ms: seq<Mark>, marked: bool, pooled: bool) {
    RecoveriesMatched(ms) && (marked ==> pooled && Open(ms))
  }

  lemma RecoveryMatched(ms: seq<Mark>, m: Mark)
    requires RecoveriesMatched(ms)
    requires m == Recovered ==> Open(ms)
    ensures RecoveriesMatched(ms + [m])
  {
    var more := ms + [m];
    forall j | 0 <= j < |more| && more[j] == Recovered ensures Open(more[..j]) {
      assert more[..j] == ms[..j];
      assert ms[..|ms|] == ms;
    }
  }

  lemma MissSeparated(ms: seq<Mark>, m: Mark)
    requires NoRepeatedMiss(ms)
    requires m == Missed ==> !EndsMissed(ms)
    ensures NoRepeatedMiss(ms + [m])
  {
    var more := ms + [m];
    forall i, j | 0 <= i < j < |more| && more[i] == Missed && more[j] == Missed
      ensures exists k :: i < k < j && (more[k] == Recovered || more[k] == Drained)
    {
      if j < |ms| {
        assert ms[i] == Missed && ms[j] == Missed;
        var k :| i < k < j && (ms[k] == Recovered || ms[k] == Drained);
        assert more[k] == ms[k];
      } else {
        var k := |ms| - 1;
        assert more[k] == ms[k] != Missed;
      }
    }
  }

  lemma OpenAfter(ms: seq<Mark>, m: Mark)
    ensures m == Missed ==> Open(ms + [m])
    ensures m == Drained && Open(ms) ==> Open(ms + [m])
  {
    var more := ms + [m];
    if m == Missed {
      assert more[|ms|] == Missed;
    } else if m == Drained && Open(ms) {
      var i :| 0 <= i < |ms| && ms[i] == Missed && forall k :: i < k < |ms| ==> ms[k] != Recovered;
      assert more[i] == Missed;
    }
  }

  /** No tick reports a runner both missed and recovered. */
  lemma TickReportsOnce(h: Health, r: string, now: int, grace: nat)
    ensures var goes, back := GoesMissing(h.pool, h.rows, h.missed, r, now, grace), RecoversIn(h, r, now, grace);
            && TickMarks(h, r, now, grace) == (if goes then [Missed] else if back then [Recovered] else [])
            && !(goes && back)
            && (goes ==> r !in h.missed && MarkedIn(h, r, now, grace))
            && (back ==> r in h.missed && !MarkedIn(h, r, now, grace))
  {
  }

  /** The runner's marks since the log had `base` entries agree with the monitor's state. */
  ghost predicate CoherentSince(base: nat, h: Health, r: string, kept: set<Mark>) {
    base <= |h.log| &&
    var ms := MarksOf(h.log[base..], r);
    && (Recovered in kept ==> MissesCoherent(ms, r in h.missed, r in h.pool, r in h.rows))
    && (Missed in kept ==> RecoveriesCoherent(ms, r in h.missed, r in h.pool))
  }

  /** The tick loses no report of these kinds about the runner. */
  ghost predicate Keeps(before: Health, a: Action, after: Health, r: string, kept: set<Mark>) {
    a.Tick? && |before.log| <= |after.log| && Lost(before, a.now, a.grace, after, r) ==>
      forall m :: m in TickMarks(before, r, a.now, a.grace) ==> m !in kept
  }

  lemma MarksGrow(base: nat, before: seq<Envelope>, after: seq<Envelope>, r: string)
    requires base <= |before| && before <= after
    ensures MarksOf(after[base..], r) == MarksOf(before[base..], r) + MarksOf(after[|before|..], r)
  {
    assert after[base..] == before[base..] + after[|before|..];
    MarksOfConcat(before[base..], after[|before|..], r);
  }

  lemma TickKeepsMisses(ms: seq<Mark>, h: Health, now: int, grace: nat, r: string, more: seq<Mark>)
    requires MissesCoherent(ms, r in h.missed, r in h.pool, r in h.rows)
    requires more == TickMarks(h, r, now, grace) || (more == [] && Recovered !in TickMarks(h, r, now, grace))
    ensures MissesCoherent(ms + more, MarkedIn(h, r, now, grace), r in h.pool, r in h.rows)
  {
    TickReportsOnce(h, r, now, grace);
    if more == [] {
      assert ms + more == ms;
    } else {
      MissSeparated(ms, more[0]);
    }
  }

  lemma TickKeepsRecoveries(ms: seq<Mark>, h: Health, now: int, grace: nat, r: string, more: seq<Mark>)
    requires RecoveriesCoherent(ms, r in h.missed, r in h.pool)
    requires more == TickMarks(h, r, now, grace) || (more == [] && Missed !in TickMarks(h, r, now, grace))
    ensures RecoveriesCoherent(ms + more, MarkedIn(h, r, now, grace), r in h.pool)
  {
    TickReportsOnce(h, r, now, grace);
    if more == [] {
      assert ms + more == ms;
    } else {
      RecoveryMatched(ms, more[0]);
      OpenAfter(ms, more[0]);
    }
  }

  lemma TickKeepsCoherent(base: nat, before: Health, a: Action, after: Health, r: string, kept: set<Mark>)
    requires a.Tick? && CoherentSince(base, before, r, kept) && Steps(before, a, after) && Keeps(before, a, after, r, kept)
    ensures CoherentSince(base, after, r, kept)
  {
    var ms, more := MarksOf(before.log[base..], r), MarksOf(after.log[|before.log|..], r);
    MarksGrow(base, before.log, after.log, r);
    if Recovered in kept {
      TickKeepsMisses(ms, before, a.now, a.grace, r, more);
    }
    if Missed in kept {
      TickKeepsRecoveries(ms, before, a.now, a.grace, r, more);
    }
  }

  lemma DrainKeepsCoherent(ms: seq<Mark>, marked: bool, pooled: bool, beating: bool, beating': bool)
    ensures MissesCoherent(ms, marked, pooled, beating) ==> MissesCoherent(ms + [Drained], marked, pooled, beating')
    ensures RecoveriesCoherent(ms, marked, pooled) ==> RecoveriesCoherent(ms + [Drained], marked, pooled)
  {
    if MissesCoherent(ms, marked, pooled, beating) {
      MissSeparated(ms, Drained);
    }
    if RecoveriesCoherent(ms, marked, pooled) {
      RecoveryMatched(ms, Drained);
      OpenAfter(ms, Drained);
    }
  }

  lemma EventKeepsCoherent(base: nat, before: Health, e: Envelope, after: Health, r: string, kept: set<Mark>)
    requires CoherentSince(base, before, r, kept) && Steps(before, Happens(e), after)
    ensures CoherentSince(base, after, r, kept)
  {
    var ms, more := MarksOf(before.log[base..], r), MarksOfEvent(e, r);
    assert after.log[base..] == before.log[base..] + [e];
    OneMoreMark(before.log[base..], e, r);
    PoolKeepsRunners(before.pool, e, after.pool);
    if more == [] {
      assert ms + more == ms;
    } else {
      DrainKeepsCoherent(ms, r in before.missed, r in before.pool, r in before.rows, r in after.rows);
    }
  }

  /** The run loses no report of these kinds about the runner. */
  ghost predicate RunsTo(start: Health, actions: seq<Action>, after: Health, r: string, kept: set<Mark>)
    decreases |actions|, 0
  {
    if actions == [] then after == start
    else RunsThen(start, actions[..|actions| - 1], actions[|actions| - 1], after, r, kept)
  }

  ghost predicate RunsThen(start: Health, actions: seq<Action>, a: Action, after: Health, r: string, kept: set<Mark>)
    decreases |actions|, 1
  {
    exists mid :: RunsTo(start, actions, mid, r, kept) && Steps(mid, a, after) && Keeps(mid, a, after, r, kept)
  }

  lemma {:induction false} RunKeepsCoherent(start: Health, actions: seq<Action>, after: Health, r: string, kept: set<Mark>)
    requires start.missed == {} && RunsTo(start, actions, after, r, kept)
    ensures CoherentSince(|start.log|, after, r, kept)
    decreases |actions|
  {
    if actions != [] {
      var n := |actions| - 1;
      var mid :| RunsTo(start, actions[..n], mid, r, kept) && Steps(mid, actions[n], after) && Keeps(mid, actions[n], after, r, kept);
      RunKeepsCoherent(start, actions[..n], mid, r, kept);
      match actions[n]
      case Tick(_, _) => TickKeepsCoherent(|start.log|, mid, actions[n], after, r, kept);
      case Beat(_, _, _, _, _) =>
      case Happens(e) => EventKeepsCoherent(|start.log|, mid, e, after, r, kept);
    }
  }

  /**
   From a start-up on, over any interleaving of ticks, heartbeats, drains and other events: as long as no
   recovery of a runner is lost, two missed reports of it have a recovery or a drain between them; as long
   as no missed report is lost, each recovery answers an open one.
   */
  lemma MissedAndRecoveredAlternate(start: Health, actions: seq<Action>, after: Health, r: string, kept: set<Mark>)
    requires start.missed == {} && RunsTo(start, actions, after, r, kept)
    ensures |start.log| <= |after.log|
    ensures var ms := MarksOf(after.log[|start.log|..], r);
            && (Recovered in kept ==> NoRepeatedMiss(ms))
            && (Missed in kept ==> RecoveriesMatched(ms) && (r in after.missed ==> Open(ms)))
  {
    RunKeepsCoherent(start, actions, after, r, kept);
  }

  // ── Runs that lose a report ─────────────────────────────────────────

  const IDLE := P.RunnerState("env", P.Idle, None, 0, None, None)

  const MISSED := Envelope(1, 0, SOURCE_OX, "r", HeartbeatMissed("r", None))
  const MISSED_AGAIN := Envelope(2, 0, SOURCE_OX, "r", HeartbeatMissed("r", None))
  const RECOVERED := Envelope(1, 0, SOURCE_OX, "r", RunnerRecovered("r"))

  /** One idle runner, last heard of at that time. */
  function HealthAt(at: int, missed: set<string>, log: seq<Envelope>): Health {
    Health(map["r" := IDLE], map["r" := HeartbeatRow(Some(at), None, None, None)], missed, log)
  }

  lemma MarksOfOne(e: Envelope, r: string)
    ensures MarksOf([e], r) == MarksOfEvent(e, r) && MarksOf([], r) == []
  {
    OneMoreMark([], e, r);
    assert [] + [e] == [e];
  }

  /** A runner goes missing at a tick, and its report is stored, or is lost. */
  lemma GoesMissingAt(was: int, now: int, log: seq<Envelope>, stored: seq<Envelope>, e: Envelope)
    requires now - was > 10 && Says(e, Missed, "r") && stored in {[], [e]}
    ensures Steps(HealthAt(was, {}, log), Tick(now, 10), HealthAt(was, {"r"}, log + stored))
    ensures TickMarks(HealthAt(was, {}, log), "r", now, 10) == [Missed]
  {
    TickReportsOnce(HealthAt(was, {}, log), "r", now, 10);
    assert (log + stored)[|log|..] == stored;
    forall r ensures MarksOf(stored, r) in {[], TickMarks(HealthAt(was, {}, log), r, now, 10)} {
      MarksOfOne(e, r);
    }
  }

  /** It is healthy again at a tick, and its report is stored, or is lost. */
  lemma RecoversAt(was: int, now: int, log: seq<Envelope>, stored: seq<Envelope>, e: Envelope)
    requires now - was <= 10 && Says(e, Recovered, "r") && stored in {[], [e]}
    ensures Steps(HealthAt(was, {"r"}, log), Tick(now, 10), HealthAt(was, {}, log + stored))
    ensures TickMarks(HealthAt(was, {"r"}, log), "r", now, 10) == [Recovered]
  {
    assert (log + stored)[|log|..] == stored;
    forall r ensures MarksOf(stored, r) in {[], TickMarks(HealthAt(was, {"r"}, log), r, now, 10)} {
      MarksOfOne(e, r);
    }
  }

  lemma BeatsAt(was: int, at: int, missed: set<string>, log: seq<Envelope>)
    ensures Steps(HealthAt(was, missed, log), Beat("r", at, None, None, None), HealthAt(at, missed, log))
  {
    var rows := HealthAt(was, missed, log).rows;
    assert Pool.Beaten(rows, "r", at, None, None, None) == HealthAt(at, missed, log).rows;
  }

  /** A recovery that cannot be stored: the runner is reported missed twice with nothing in between. */
  lemma LostRecoveryRepeatsMiss()
    ensures Steps(HealthAt(0, {}, []), Tick(20, 10), HealthAt(0, {"r"}, [MISSED]))
    ensures Steps(HealthAt(0, {"r"}, [MISSED]), Beat("r", 20, None, None, None), HealthAt(20, {"r"}, [MISSED]))
    ensures Steps(HealthAt(20, {"r"}, [MISSED]), Tick(21, 10), HealthAt(20, {}, [MISSED]))
    ensures Steps(HealthAt(20, {}, [MISSED]), Tick(40, 10), HealthAt(20, {"r"}, [MISSED, MISSED_AGAIN]))
    ensures !NoRepeatedMiss(MarksOf([MISSED, MISSED_AGAIN], "r"))
  {
    assert [] + [MISSED] == [MISSED] && [MISSED] + [] == [MISSED] && [MISSED] + [MISSED_AGAIN] == [MISSED, MISSED_AGAIN];
    GoesMissingAt(0, 20, [], [MISSED], MISSED);
    BeatsAt(0, 20, {"r"}, [MISSED]);
    RecoversAt(20, 21, [MISSED], [], RECOVERED);
    GoesMissingAt(20, 40, [MISSED], [MISSED_AGAIN], MISSED_AGAIN);
    MarksOfOne(MISSED, "r");
    OneMoreMark([MISSED], MISSED_AGAIN, "r");
    var ms := MarksOf([MISSED, MISSED_AGAIN], "r");
    assert ms == [Missed, Missed] && ms[0] == Missed && ms[1] == Missed;
  }

  /** A missed report that cannot be stored: the recovery answers nothing. */
  lemma LostMissLeavesRecoveryUnmatched()
    ensures Steps(HealthAt(0, {}, []), Tick(20, 10), HealthAt(0, {"r"}, []))
    ensures Steps(HealthAt(0, {"r"}, []), Beat("r", 20, None, None, None), HealthAt(20, {"r"}, []))
    ensures Steps(HealthAt(20, {"r"}, []), Tick(21, 10), HealthAt(20, {}, [RECOVERED]))
    ensures !RecoveriesMatched(MarksOf([RECOVERED], "r"))
  {
    assert [] + [RECOVERED] == [RECOVERED];
    GoesMissingAt(0, 20, [], [], MISSED);
    BeatsAt(0, 20, {"r"}, []);
    RecoversAt(20, 21, [], [RECOVERED], RECOVERED);
    MarksOfOne(RECOVERED, "r");
    assert MarksOf([RECOVERED], "r")[..0] == [] && !Open([]);
  }
}
