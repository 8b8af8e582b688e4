/**
 A run in which dedup fails (ox-server/src/sse.rs, ox-server/src/api.rs, retry_execution): the herder
 reconnects, a second fact of the same subject is logged, and the server reads its log for the new
 connection between the two events of a retry. The fact arrives once in the replay, while the old execution
 still blocks it, and once more live, when the old execution is cancelled and the new one still unknown.
 */
module RetryRace {
  import opened Prelude
  import opened Events
  import opened TriggerDedup
  import opened DedupRuns
  import ES = EventStream
  import H = Herder

  const READY := Other("node.ready", "")
  const ON_READY := H.Trigger("node.ready", None, "w")
  const JOB := FromEvent("cx", "node.ready", "n", 2)
  const JOB_AGAIN := FromEvent("cx", "node.ready", "n", 5)

  const EVENTS := [
    Envelope(1, 0, "cx", "other", READY),
    Envelope(2, 0, "cx", "n", READY),
    Envelope(3, 0, SOURCE_OX, "a", ExecutionCreated("a", "w", map[], JOB, None)),
    Envelope(4, 0, SOURCE_OX, "a", ExecutionEscalated("a")),
    Envelope(5, 0, "cx", "n", READY),
    Envelope(6, 0, SOURCE_OX, "a", ExecutionCancelled("a")),
    Envelope(7, 0, SOURCE_OX, "b", ExecutionCreated("b", "w", map[], JOB, None)),
    Envelope(8, 0, SOURCE_OX, "c", ExecutionCreated("c", "w", map[], JOB_AGAIN, None))]

  const RETRY := Retry("a", "b", map[], None, 0)

  /** The second read of the log comes between the two events of the retry. */
  const RUN := [
    Connect, ReadLog(true), Append(EVENTS[0]), Take,
    Append(EVENTS[1]), Take, Offer(ON_READY, "a", map[], 0), HerderEnds("a", Escalated, 0), Take, Take,
    Connect, Append(EVENTS[4]), RetryCancel(RETRY), ReadLog(true), RetryCreate,
    Take, Take, Take, Offer(ON_READY, "c", map[], 0)]

  function OnlyA(status: ExecutionStatus): View {
    map["a" := Seen(JOB, "w", status)]
  }

  const WITH_B := OnlyA(Cancelled)["b" := Seen(JOB, "w", Running)]

  function LedgerOf(n: nat, server: View, createdAt: map<string, nat>): Ledger
    requires n <= |EVENTS|
  {
    Ledger(EVENTS[..n], server, createdAt)
  }

  const FIRST := ES.Conn(0, 0, Some([]))
  const SECOND := ES.Conn(4, 4, Some(EVENTS[4..6]))

  function Live1(taken: nat): Reader {
    Reader(Some(FIRST), taken, taken, taken, false, 0)
  }

  function Live2(conn: ES.Conn, taken: nat, lastSeq: nat, consumed: nat): Reader {
    Reader(Some(conn), taken, lastSeq, consumed, false, 0)
  }

  /** The system before each step of the run. */
  function StateAt(i: nat): System
    requires i <= 18
  {
    var nothing: View, a, ab := map[], map["a" := 2], map["a" := 2, "b" := 6];
    match i
    case 0 => EMPTY
    case 1 => EMPTY.(reader := Reader(Some(ES.Conn(0, 0, None)), 0, 0, 0, true, 0))
    case 2 => EMPTY.(reader := Reader(Some(FIRST), 0, 0, 0, true, 0))
    case 3 => System(LedgerOf(1, nothing, map[]), None, Reader(Some(FIRST), 0, 0, 0, true, 0), nothing, None)
    case 4 => System(LedgerOf(1, nothing, map[]), None, Live1(1), nothing, None)
    case 5 => System(LedgerOf(2, nothing, map[]), None, Live1(1), nothing, None)
    case 6 => System(LedgerOf(2, nothing, map[]), None, Live1(2), nothing, Some(EVENTS[1]))
    case 7 => System(LedgerOf(3, OnlyA(Running), a), None, Live1(2), OnlyA(Running), Some(EVENTS[1]))
    case 8 => System(LedgerOf(4, OnlyA(Escalated), a), None, Live1(2), OnlyA(Escalated), Some(EVENTS[1]))
    case 9 => System(LedgerOf(4, OnlyA(Escalated), a), None, Live1(3), OnlyA(Running), Some(EVENTS[2]))
    case 10 => System(LedgerOf(4, OnlyA(Escalated), a), None, Live1(4), OnlyA(Escalated), Some(EVENTS[3]))
    case 11 => StateAt(10).(reader := Live2(ES.Conn(4, 4, None), 0, 4, 4))
    case 12 => System(LedgerOf(5, OnlyA(Escalated), a), None, Live2(ES.Conn(4, 4, None), 0, 4, 4), OnlyA(Escalated), Some(EVENTS[3]))
    case 13 => System(LedgerOf(6, OnlyA(Cancelled), a), Some(RETRY), Live2(ES.Conn(4, 4, None), 0, 4, 4), OnlyA(Escalated), Some(EVENTS[3]))
    case 14 => System(LedgerOf(6, OnlyA(Cancelled), a), Some(RETRY), Live2(SECOND, 0, 4, 4), OnlyA(Escalated), Some(EVENTS[3]))
    case 15 => System(LedgerOf(7, WITH_B, ab), None, Live2(SECOND, 0, 4, 4), OnlyA(Escalated), Some(EVENTS[3]))
    case 16 => System(LedgerOf(7, WITH_B, ab), None, Live2(SECOND, 1, 5, 5), OnlyA(Escalated), Some(EVENTS[4]))
    case 17 => System(LedgerOf(7, WITH_B, ab), None, Live2(SECOND, 2, 6, 6), OnlyA(Cancelled), Some(EVENTS[5]))
    case 18 => System(LedgerOf(7, WITH_B, ab), None, Live2(SECOND, 3, 5, 6), OnlyA(Cancelled), Some(EVENTS[4]))
  }

  predicate Does(s: System, a: Action, s': System) {
    Enabled(s, a) && s' == Perform(s, a)
  }

  lemma OneMoreEvent(n: nat)
    requires n < |EVENTS|
    ensures EVENTS[..n] + [EVENTS[n]] == EVENTS[..n + 1] && |EVENTS[..n]| == n && EVENTS[n].seqNo == n + 1
  {
  }

  lemma Starts(i: nat)
    requires i < 6
    ensures Does(StateAt(i), RUN[i], StateAt(i + 1))
  {
    OneMoreEvent(0);
    OneMoreEvent(1);
  }

  lemma StatusChanges(u: ExecutionStatus, v: ExecutionStatus)
    ensures SetStatus(OnlyA(u), "a", v) == OnlyA(v) && OnlyA(u)["a" := Seen(JOB, "w", v)] == OnlyA(v)
  {
  }

  lemma Fires(i: nat)
    requires 6 <= i < 8
    ensures Does(StateAt(i), RUN[i], StateAt(i + 1))
  {
    OneMoreEvent(2);
    OneMoreEvent(3);
    StatusChanges(Running, Escalated);
  }

  lemma HearsOfItsOwn(i: nat)
    requires 8 <= i < 10
    ensures Does(StateAt(i), RUN[i], StateAt(i + 1))
  {
    StatusChanges(Escalated, Running);
    StatusChanges(Running, Escalated);
  }

  lemma ReconnectsAndIsRetried(i: nat)
    requires 10 <= i < 15
    ensures Does(StateAt(i), RUN[i], StateAt(i + 1))
  {
    OneMoreEvent(4);
    OneMoreEvent(5);
    OneMoreEvent(6);
    StatusChanges(Escalated, Cancelled);
  }

  lemma TakesTheFactTwice(i: nat)
    requires 15 <= i < 18
    ensures Does(StateAt(i), RUN[i], StateAt(i + 1))
  {
    StatusChanges(Escalated, Cancelled);
  }

  /** The view shows the job as free, and the retried execution is live. */
  lemma FiresAgain()
    ensures Enabled(StateAt(18), RUN[18]) && !AtMostOneActive(Perform(StateAt(18), RUN[18]).ledger.server)
  {
    var server := Perform(StateAt(18), RUN[18]).ledger.server;
    assert H.OriginOf(EVENTS[4]) == JOB_AGAIN;
    assert server["b"] == Seen(JOB, "w", Running) && server["c"] == Seen(JOB_AGAIN, "w", Running);
  }

  lemma DoesStep(i: nat)
    requires i < 18
    ensures Does(StateAt(i), RUN[i], StateAt(i + 1))
  {
    if i < 6 {
      Starts(i);
    } else if i < 8 {
      Fires(i);
    } else if i < 10 {
      HearsOfItsOwn(i);
    } else if i < 15 {
      ReconnectsAndIsRetried(i);
    } else {
      TakesTheFactTwice(i);
    }
  }

  ghost predicate Breaks(s: System, actions: seq<Action>) {
    Runs(s, actions) && !AlwaysOne(s, actions)
  }

  lemma BreaksLater(s: System, actions: seq<Action>, s': System)
    requires actions != [] && Does(s, actions[0], s') && Breaks(s', actions[1..])
    ensures Breaks(s, actions)
  {
  }

  lemma {:induction false} BreaksFrom(i: nat)
    requires i <= 18
    ensures Breaks(StateAt(i), RUN[i..])
    decreases 18 - i
  {
    if i == 18 {
      FiresAgain();
      assert Breaks(Perform(StateAt(18), RUN[18]), []);
      assert RUN[18..] == [RUN[18]];
      BreaksLater(StateAt(18), RUN[18..], Perform(StateAt(18), RUN[18]));
    } else {
      DoesStep(i);
      BreaksFrom(i + 1);
      assert RUN[i..][0] == RUN[i] && RUN[i..][1..] == RUN[i + 1..];
      BreaksLater(StateAt(i), RUN[i..], StateAt(i + 1));
    }
  }

  /** From an empty server, with every event delivered as the stream does: two live executions of one job. */
  lemma RepeatInsideRetryBreaksDedup()
    ensures Runs(EMPTY, RUN) && !AlwaysOne(EMPTY, RUN)
    ensures !NoneCaught(EMPTY, RUN) && !QuietReads(EMPTY, RUN)
  {
    BreaksFrom(0);
    assert RUN[0..] == RUN;
    DedupHoldsIff(RUN);
    if QuietReads(EMPTY, RUN) {
      DedupHolds(RUN);
    }
  }
}
