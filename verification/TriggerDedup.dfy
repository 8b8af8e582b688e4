/**
 Trigger dedup as a protocol between the server's log and the herder that follows it with a delay
 (ox-herder/src/herder.rs, evaluate_triggers_for_event; ox-server/src/api.rs, retry_execution). The
 herder creates an execution only when its own view shows none active for the same origin and
 workflow; the view lags behind the log, runs ahead of it by optimistic inserts, and is lost when
 the herder restarts.
 */
module TriggerDedup {
  import opened Prelude
  import opened Events
  import B = EventBus
  import Execution
  import ES = EventStream
  import H = Herder
  import P = Projections

  // ── What dedup sees of an execution ─────────────────────────────────

  datatype Seen = Seen(origin: Origin, workflow: string, status: ExecutionStatus)

  type View = map<string, Seen>

  function SeenOf(exec: Execution.ExecView): Seen {
    Seen(exec.origin, exec.workflow, exec.status)
  }

  function ViewOf(executions: H.Executions): View {
    map id | id in executions :: SeenOf(executions[id])
  }

  function SetStatus(view: View, id: string, status: ExecutionStatus): View {
    if id in view then view[id := view[id].(status := status)] else view
  }

  /** The view after one event: the same fold for the server's projection and the herder's map. */
  function ViewAfter(view: View, e: Envelope): View {
    if e.source != SOURCE_OX then view
    else match e.body
      case ExecutionCreated(id, workflow, _, origin, _) => view[id := Seen(origin, workflow, Running)]
      case ExecutionCompleted(id) => SetStatus(view, id, Completed)
      case ExecutionEscalated(id) => SetStatus(view, id, Escalated)
      case ExecutionCancelled(id) => SetStatus(view, id, Cancelled)
      case _ => view
  }

  predicate Live(status: ExecutionStatus) {
    status == Running || status == Escalated
  }

  predicate SameJob(a: Seen, origin: Origin, workflow: string) {
    OriginsMatch(a.origin, origin) && a.workflow == workflow
  }

  predicate JobActive(view: View, origin: Origin, workflow: string) {
    exists id :: id in view && SameJob(view[id], origin, workflow) && Live(view[id].status)
  }

  /** The herder's handlers change what dedup sees exactly as the fold says. */
  lemma HandlersFollowView(executions: H.Executions, engines: Execution.Engines, e: Envelope, replaying: bool)
    requires e.source == SOURCE_OX
    ensures ViewOf(H.ExecutionsAfter(executions, engines, e.body, replaying)) == ViewAfter(ViewOf(executions), e)
  {
  }

  /** A trigger fires exactly when its job is not active in the view, and then enters the view. */
  lemma FiringFollowsView(executions: H.Executions, trigger: H.Trigger, e: Envelope, reply: H.Reply)
    ensures H.Fires(executions, trigger, e, reply) <==>
              H.Eligible(trigger, e) && reply.CreatedAs? && !JobActive(ViewOf(executions), H.OriginOf(e), trigger.workflow)
    ensures ViewOf(H.FireOne(executions, trigger, e, reply))
            == if H.Fires(executions, trigger, e, reply)
               then ViewOf(executions)[reply.id := Seen(H.OriginOf(e), trigger.workflow, Running)]
               else ViewOf(executions)
  {
    var view, origin := ViewOf(executions), H.OriginOf(e);
    if JobActive(view, origin, trigger.workflow) {
      var id :| id in view && SameJob(view[id], origin, trigger.workflow) && Live(view[id].status);
      assert H.Active(executions[id]);
    }
    if H.OriginActive(executions, origin, trigger.workflow) {
      var id :| id in executions && OriginsMatch(executions[id].origin, origin)
                && executions[id].workflow == trigger.workflow && H.Active(executions[id]);
      assert SameJob(view[id], origin, trigger.workflow);
    }
  }

  function ServerView(executions: P.Executions): View {
    map id | id in executions :: Seen(executions[id].origin, executions[id].workflow, executions[id].status)
  }

  /** The server's projection changes what dedup sees by the same fold. */
  lemma ProjectionsFollowView(executions: P.Executions, e: Envelope)
    ensures ServerView(P.ApplyExecutions(executions, e)) == ViewAfter(ServerView(executions), e)
  {
  }

  /** The scheduler changes neither origin nor workflow, and a status only from running to completed or escalated. */
  lemma SchedulerOnlyEnds(engines: Execution.Engines, exec: Execution.ExecView, merged: Result<(), string>)
    requires exec.status == Running
    ensures var seen := SeenOf(Execution.Process(engines, exec, merged).0);
            seen == SeenOf(exec) || (seen.status in {Completed, Escalated} && seen == SeenOf(exec).(status := seen.status))
  {
  }

  datatype RetryError = NotFound | NotEscalated

  /** The two events of a retry: the old execution cancelled, a new one created for the same origin. */
  function BuildRetryEvents(executions: P.Executions, oldId: string, newId: string, fromStart: bool)
    : Result<(Body, Body), RetryError>
  {
    if oldId !in executions then Err(NotFound)
    else if executions[oldId].status != Escalated then Err(NotEscalated)
    else
      var exec := executions[oldId];
      Ok((ExecutionCancelled(oldId),
          ExecutionCreated(newId, exec.workflow, exec.vars, exec.origin, if fromStart then None else exec.currentStep)))
  }

  // ── The protocol ────────────────────────────────────────────────────

  /** The server's log, the executions it folds to, and the position of each creation. */
  datatype Ledger = Ledger(log: seq<Envelope>, server: View, createdAt: map<string, nat>)

  /** A retry of an escalated execution, as the second of its two events will create it. */
  datatype Retry = Retry(oldId: string, newId: string, vars: map<string, string>, startStep: Option<string>, ts: int)

  /**
   The herder's side of the stream: the connection and the events taken from it, the last seq, how much
   of the log has been delivered at least once, and whether it still replays up to its target.
   */
  datatype Reader = Reader(
    conn: Option<ES.Conn>,
    taken: nat,
    lastSeq: nat,
    consumed: nat,
    replaying: bool,
    target: nat)

  /** The ledger, the retry whose second event is still to be logged, and the herder with the event it offers to triggers. */
  datatype System = System(
    ledger: Ledger,
    pending: Option<Retry>,
    reader: Reader,
    view: View,
    offering: Option<Envelope>)

  const EMPTY := System(Ledger([], map[], map[]), None, Reader(None, 0, 0, 0, true, 0), map[], None)

  datatype Action =
    | Append(e: Envelope)
    | RetryCancel(retry: Retry)
    | RetryCreate
    | Connect
    | ReadLog(readable: bool)
    | Take
    | Offer(trigger: H.Trigger, id: string, vars: map<string, string>, ts: int)
    | HerderEnds(id: string, status: ExecutionStatus, ts: int)
    | Restart

  function Ox(l: Ledger, ts: int, subject: string, body: Body): Envelope {
    Envelope(|l.log| + 1, ts, SOURCE_OX, subject, body)
  }

  predicate IsCreation(e: Envelope) {
    e.source == SOURCE_OX && e.body.ExecutionCreated?
  }

  function Logged(l: Ledger, e: Envelope): Ledger {
    Ledger(l.log + [e], ViewAfter(l.server, e),
           if IsCreation(e) then l.createdAt[e.body.created := |l.log|] else l.createdAt)
  }

  /** A status event names an execution that is not yet completed or cancelled. */
  predicate MayChange(server: View, e: Envelope, id: string) {
    id in server && Live(server[id].status) && e.subjectId == id
  }

  predicate CancelOrigin(origin: Origin) {
    origin.FromEvent? && origin.source == SOURCE_OX && origin.kind == "execution.cancelled"
  }

  /** What any event the protocol logs satisfies: ids are new, and statuses change only while live. */
  predicate Acceptable(server: View, e: Envelope) {
    e.source == SOURCE_OX ==>
      match e.body
      case ExecutionCreated(id, _, _, origin, _) => id !in server && (CancelOrigin(origin) ==> origin.subjectId in server)
      case ExecutionCompleted(id) => MayChange(server, e, id)
      case ExecutionEscalated(id) => MayChange(server, e, id)
      case ExecutionCancelled(id) => MayChange(server, e, id)
      case Other(kind, _) => kind != "execution.cancelled"
      case _ => true
  }

  /** The connection still has an event for the herder. */
  predicate CanTake(log: seq<Envelope>, r: Reader) {
    r.conn.Some? && r.conn.value.replay.Some? && r.conn.value.at <= |log| && r.taken < |ES.Script(r.conn.value, log)|
  }

  /** A log that cannot be read does no harm if all it would have replayed has been delivered before. */
  predicate CanRead(r: Reader, readable: bool) {
    r.conn.Some? && r.conn.value.replay.None? && (readable || r.conn.value.at <= r.consumed)
  }

  /** Between the two events of a retry nothing else is logged, but the stream goes on. */
  predicate Enabled(s: System, a: Action) {
    var server := s.ledger.server;
    match a
    case Append(e) =>
      s.pending.None? && e.seqNo == |s.ledger.log| + 1 && Acceptable(server, e) && (IsCreation(e) ==> e.body.origin.Manual?)
    case RetryCancel(r) =>
      s.pending.None? && r.oldId in server && server[r.oldId].status == Escalated && r.newId !in server
    case RetryCreate => s.pending.Some? && s.pending.value.oldId in server
    case Connect => true
    case ReadLog(readable) => CanRead(s.reader, readable)
    case Take => CanTake(s.ledger.log, s.reader)
    case Offer(trigger, id, _, _) =>
      s.pending.None? && s.offering.Some? && H.Eligible(trigger, s.offering.value) && id !in server
      && !JobActive(s.view, H.OriginOf(s.offering.value), trigger.workflow)
    case HerderEnds(id, status, _) =>
      s.pending.None? && id in s.view && id in server && Live(server[id].status) && status in {Completed, Escalated}
    case Restart => true
  }

  function EndEvent(id: string, status: ExecutionStatus): Body {
    if status == Completed then ExecutionCompleted(id) else ExecutionEscalated(id)
  }

  function PairFirst(l: Ledger, r: Retry): Envelope {
    Ox(l, r.ts, r.oldId, ExecutionCancelled(r.oldId))
  }

  function PairSecond(l: Ledger, r: Retry): Envelope
    requires r.oldId in l.server
  {
    var was := l.server[r.oldId];
    Ox(l, r.ts, r.newId, ExecutionCreated(r.newId, was.workflow, r.vars, was.origin, r.startStep))
  }

  function OfferEvent(s: System, a: Action): Envelope
    requires a.Offer? && s.offering.Some?
  {
    Ox(s.ledger, a.ts, a.id, ExecutionCreated(a.id, a.trigger.workflow, a.vars, H.OriginOf(s.offering.value), None))
  }

  function Max(a: nat, b: nat): nat {
    if a >= b then a else b
  }

  /** The reader after the event with this seq. */
  function Taken(r: Reader, seqNo: nat): Reader {
    r.(taken := r.taken + 1, lastSeq := seqNo, consumed := Max(r.consumed, seqNo), replaying := r.replaying && seqNo < r.target)
  }

  /** The herder handles one event of the stream; live, it goes on to offer it to the triggers. */
  function Handled(s: System, e: Envelope): System {
    var r := s.reader;
    s.(reader := Taken(r, e.seqNo),
       view := ViewAfter(s.view, e),
       offering := if r.replaying then None else Some(e))
  }

  function Perform(s: System, a: Action): System
    requires Enabled(s, a)
  {
    var l, r := s.ledger, s.reader;
    match a
    case Append(e) => s.(ledger := Logged(l, e))
    case RetryCancel(retry) => s.(ledger := Logged(l, PairFirst(l, retry)), pending := Some(retry))
    case RetryCreate => s.(ledger := Logged(l, PairSecond(l, s.pending.value)), pending := None)
    case Connect => s.(reader := r.(conn := Some(ES.Conn(r.lastSeq, |l.log|, None)), taken := 0))
    case ReadLog(readable) => s.(reader := r.(conn := Some(ReadInto(l.log, r.conn.value, readable))))
    case Take => Handled(s, ES.Script(r.conn.value, l.log)[r.taken])
    case Offer(trigger, id, vars, ts) =>
      s.(ledger := Logged(l, OfferEvent(s, a)),
         view := s.view[id := Seen(H.OriginOf(s.offering.value), trigger.workflow, Running)])
    case HerderEnds(id, status, ts) =>
      s.(ledger := Logged(l, Ox(l, ts, id, EndEvent(id, status))),
         view := SetStatus(s.view, id, status))
    case Restart => s.(reader := Reader(None, 0, 0, 0, true, |l.log|), view := map[], offering := None)
  }

  function ReadInto(log: seq<Envelope>, c: ES.Conn, readable: bool): ES.Conn {
    c.(replay := Some(if readable then log[Min(c.after, |log|)..] else []))
  }

  /** A retry is built exactly for an escalated execution, and its two events are the protocol's two halves. */
  lemma RetryEventsAreThePair(l: Ledger, executions: P.Executions, oldId: string, newId: string, fromStart: bool, ts: int)
    requires l.server == ServerView(executions)
    ensures var r := BuildRetryEvents(executions, oldId, newId, fromStart);
            && (r.Ok? <==> oldId in l.server && l.server[oldId].status == Escalated)
            && (r.Ok? ==>
                  var exec := executions[oldId];
                  var retry := Retry(oldId, newId, exec.vars, if fromStart then None else exec.currentStep, ts);
                  && r.value.0 == PairFirst(l, retry).body
                  && r.value.1 == PairSecond(Logged(l, PairFirst(l, retry)), retry).body)
  {
  }

  // ── The reader is the stream's ──────────────────────────────────────

  function StreamOf(s: System, handled: seq<Envelope>): ES.System {
    var r := s.reader;
    ES.System(s.ledger.log, r.conn, r.taken, handled, r.lastSeq, r.replaying, r.target)
  }

  /** The protocol's step as a step of the stream, and what the reader has handled after it. */
  function StreamStep(s: System, a: Action, handled: seq<Envelope>): (ES.Action, seq<Envelope>)
    requires Enabled(s, a) && !a.Restart?
  {
    if a.Connect? then (ES.Connect, handled)
    else if a.ReadLog? then (ES.ReadLog(a.readable), handled)
    else if a.Take? then (ES.Take, handled + [ES.Script(s.reader.conn.value, s.ledger.log)[s.reader.taken]])
    else (ES.Logs(Perform(s, a).ledger.log[|s.ledger.log|..]), handled)
  }

  /** Whatever the herder receives, it receives as the event stream delivers it. */
  lemma StepIsStreamStep(s: System, a: Action, handled: seq<Envelope>)
    requires Enabled(s, a) && !a.Restart? && B.Numbered(s.ledger.log)
    ensures var (step, handled') := StreamStep(s, a, handled);
            ES.Steps(StreamOf(s, handled), step, StreamOf(Perform(s, a), handled'))
  {
    var log, log' := s.ledger.log, Perform(s, a).ledger.log;
    if a.Append? || a.RetryCancel? || a.RetryCreate? || a.Offer? || a.HerderEnds? {
      assert |log'| == |log| + 1 && log'[|log|].seqNo == |log| + 1;
      assert log + log'[|log|..] == log';
    }
  }

  /** At most one running or escalated execution per (source, kind, subject, workflow). */
  ghost predicate AtMostOneActive(server: View) {
    forall a, b :: a in server && b in server && a != b && Live(server[a].status) && Live(server[b].status) ==>
      !SameJob(server[a], server[b].origin, server[b].workflow)
  }

  // ── The invariant ───────────────────────────────────────────────────

  predicate Ends(e: Envelope, id: string) {
    e.source == SOURCE_OX && (e.body == ExecutionCompleted(id) || e.body == ExecutionCancelled(id))
  }

  predicate Cancels(e: Envelope, id: string) {
    e.source == SOURCE_OX && e.body == ExecutionCancelled(id)
  }

  /** Completed and cancelled are final, and each execution reaches them by one event at most. */
  ghost predicate EndsSound(l: Ledger) {
    && (forall q, id {:trigger Ends(l.log[q], id)} :: 0 <= q < |l.log| && Ends(l.log[q], id) ==>
          id in l.server && !Live(l.server[id].status))
    && (forall q, r, id {:trigger Ends(l.log[q], id), Ends(l.log[r], id)} :: 0 <= q < r < |l.log| ==>
          !(Ends(l.log[q], id) && Ends(l.log[r], id)))
  }

  /** Only cancellations look like cancellations, and they name an execution the server knows. */
  ghost predicate CancelsSound(l: Ledger) {
    && (forall q {:trigger l.log[q]} :: 0 <= q < |l.log| && CancelOrigin(H.OriginOf(l.log[q])) ==>
          l.log[q].body == ExecutionCancelled(l.log[q].subjectId) && l.log[q].subjectId in l.server)
    && (forall id :: id in l.server && CancelOrigin(l.server[id].origin) ==>
          l.server[id].origin.subjectId in l.server && l.server[id].origin.subjectId != id)
  }

  ghost predicate CreationsSound(l: Ledger) {
    && l.createdAt.Keys == l.server.Keys
    && (forall id :: id in l.server ==>
          l.createdAt[id] < |l.log| && IsCreation(l.log[l.createdAt[id]]) && l.log[l.createdAt[id]].body.created == id)
    && (forall q {:trigger l.log[q]} :: 0 <= q < |l.log| && IsCreation(l.log[q]) ==>
          var id := l.log[q].body.created;
          && id in l.server && l.createdAt[id] == q
          && l.log[q].body.origin == l.server[id].origin && l.log[q].body.workflow == l.server[id].workflow)
  }

  ghost predicate LedgerSound(l: Ledger) {
    B.Numbered(l.log) && EndsSound(l) && CancelsSound(l) && CreationsSound(l) && AtMostOneActive(l.server)
  }

  /** The execution is the second half of a retry pair, for the same origin and workflow as `before`. */
  ghost predicate RetryOf(l: Ledger, id: string, before: string) {
    && id in l.createdAt && before in l.createdAt && id in l.server && before in l.server
    && 1 <= l.createdAt[id] < |l.log|
    && Cancels(l.log[l.createdAt[id] - 1], before)
    && l.server[before].origin == l.server[id].origin && l.server[before].workflow == l.server[id].workflow
    && l.createdAt[before] < l.createdAt[id] - 1
  }

  ghost predicate Retried(l: Ledger, id: string) {
    exists before :: RetryOf(l, id, before)
  }

  /** How the herder's view relates to the log. */
  ghost predicate ViewSound(l: Ledger, consumed: nat, view: View) {
    && consumed <= |l.log|
    && (forall id :: id in view ==>
          && id in l.server
          && view[id].origin == l.server[id].origin && view[id].workflow == l.server[id].workflow
          && (Live(l.server[id].status) ==> Live(view[id].status)))
    && (forall q, id {:trigger Cancels(l.log[q], id)} :: consumed <= q < |l.log| && Cancels(l.log[q], id) && id in view ==>
          Live(view[id].status))
  }

  /** An execution the herder does not know is still to be consumed, and is no herder creation. */
  ghost predicate Explained(l: Ledger, consumed: nat, replayTarget: nat, id: string) {
    id in l.server && id in l.createdAt
    && consumed <= l.createdAt[id]
    && (replayTarget <= l.createdAt[id] && l.server[id].origin.FromEvent? ==> Retried(l, id))
  }

  ghost predicate UnknownSound(l: Ledger, consumed: nat, replayTarget: nat, view: View) {
    forall id :: id in l.server && id !in view ==> Explained(l, consumed, replayTarget, id)
  }

  /** The first event of the retry under way is the last of the log, and its job is free. */
  ghost predicate PendingSound(l: Ledger, pending: Option<Retry>) {
    pending.Some? ==>
      var r := pending.value;
      && r.oldId in l.server && r.newId !in l.server && 0 < |l.log| && Cancels(l.log[|l.log| - 1], r.oldId)
      && JobFree(l.server, l.server[r.oldId].origin, l.server[r.oldId].workflow)
  }

  ghost predicate JobFree(server: View, origin: Origin, workflow: string) {
    forall id :: id in server && Live(server[id].status) ==> !SameJob(server[id], origin, workflow)
  }

  /** The end of what a connection replays. */
  function End(c: ES.Conn): nat
    requires c.replay.Some?
  {
    c.after + |c.replay.value|
  }

  /** The log position of the next event of a connection. */
  function Next(c: ES.Conn, taken: nat): nat
    requires c.replay.Some?
  {
    if taken < |c.replay.value| then c.after + taken else c.at + (taken - |c.replay.value|)
  }

  /** A connection never skips past what has been delivered. */
  ghost predicate ConnSound(log: seq<Envelope>, consumed: nat, c: ES.Conn, taken: nat) {
    && c.after <= c.at <= |log| && c.after <= consumed
    && (c.replay.None? ==> taken == 0)
    && (c.replay.Some? ==>
          && taken <= |ES.Script(c, log)| && Next(c, taken) <= consumed
          && (c.replay.value == [] ==> c.at <= consumed)
          && (c.replay.value != [] ==> c.at <= End(c) <= |log| && c.replay.value == log[c.after..End(c)])
          && (taken >= |c.replay.value| ==> End(c) <= consumed))
  }

  ghost predicate ReaderSound(log: seq<Envelope>, r: Reader) {
    && r.lastSeq <= r.consumed <= |log| && (!r.replaying ==> r.target <= r.consumed)
    && (r.conn.Some? ==> ConnSound(log, r.consumed, r.conn.value, r.taken))
  }

  ghost predicate OfferSound(log: seq<Envelope>, r: Reader, offering: Option<Envelope>) {
    offering.Some? ==> !r.replaying && exists q: nat :: q < r.consumed <= |log| && log[q] == offering.value
  }

  ghost predicate Inv(s: System) {
    && LedgerSound(s.ledger) && PendingSound(s.ledger, s.pending)
    && ReaderSound(s.ledger.log, s.reader)
    && ViewSound(s.ledger, s.reader.consumed, s.view)
    && UnknownSound(s.ledger, s.reader.consumed, s.reader.target, s.view)
    && OfferSound(s.ledger.log, s.reader, s.offering)
  }

  // ── When firing is safe ─────────────────────────────────────────────

  /** The next event the herder has never received re-creates `before`, which the one before it cancelled. */
  ghost predicate MidRetryOf(l: Ledger, consumed: nat, view: View, id: string, before: string) {
    RetryOf(l, id, before) && l.createdAt[id] == consumed && id !in view
  }

  /** The herder stands between the two events of a retry of this origin and workflow. */
  ghost predicate MidRetry(l: Ledger, consumed: nat, view: View, origin: Origin, workflow: string) {
    exists id, before :: MidRetryOf(l, consumed, view, id, before)
                         && l.server[id].origin == origin && l.server[id].workflow == workflow
  }

  /**
   A firing is caught between the two events of a retry of its own job: the retried execution, or a later
   retry of it, is live on the server and unknown to the herder.
   */
  ghost predicate Caught(s: System, origin: Origin, workflow: string) {
    exists id :: CaughtBy(s, origin, workflow, id)
  }

  ghost predicate CaughtBy(s: System, origin: Origin, workflow: string, id: string) {
    && id in s.ledger.server && id !in s.view
    && SameJob(s.ledger.server[id], origin, workflow) && Live(s.ledger.server[id].status)
    && MidRetry(s.ledger, s.reader.consumed, s.view, s.ledger.server[id].origin, workflow)
  }

  lemma PredecessorStillActive(l: Ledger, consumed: nat, view: View, id: string, before: string)
    requires ViewSound(l, consumed, view) && RetryOf(l, id, before) && l.server[id].origin.FromEvent?
    requires consumed < l.createdAt[id] && before in view
    ensures JobActive(view, l.server[id].origin, l.server[id].workflow)
  {
    assert Cancels(l.log[l.createdAt[id] - 1], before);
    assert SameJob(view[before], l.server[id].origin, l.server[id].workflow);
  }

  /**
   An execution the herder does not know yet stands at the end of a chain of retries; the chain
   starts at one its view still shows active, unless the herder is between the two events of a pair.
   */
  lemma {:induction false} UnknownIsCovered(l: Ledger, consumed: nat, target: nat, view: View, id: string)
    requires ViewSound(l, consumed, view) && UnknownSound(l, consumed, target, view)
    requires target <= consumed
    requires id in l.server && id in l.createdAt && id !in view && l.server[id].origin.FromEvent?
    ensures JobActive(view, l.server[id].origin, l.server[id].workflow)
         || MidRetry(l, consumed, view, l.server[id].origin, l.server[id].workflow)
    decreases l.createdAt[id]
  {
    assert Explained(l, consumed, target, id);
    var before :| RetryOf(l, id, before);
    if l.createdAt[id] == consumed {
      assert MidRetryOf(l, consumed, view, id, before);
    } else if before in view {
      PredecessorStillActive(l, consumed, view, id, before);
    } else {
      UnknownIsCovered(l, consumed, target, view, before);
    }
  }

  lemma SameJobIsTransitive(view: View, a: Origin, b: Origin, workflow: string)
    requires OriginsMatch(a, b) && JobActive(view, a, workflow)
    ensures JobActive(view, b, workflow)
  {
    var k :| k in view && SameJob(view[k], a, workflow) && Live(view[k].status);
    assert SameJob(view[k], b, workflow);
  }

  /** An execution the view should have shown, and does not, catches the firing. */
  lemma LiveIsCaught(s: System, workflow: string, id: string)
    requires Inv(s) && s.offering.Some? && !JobActive(s.view, H.OriginOf(s.offering.value), workflow)
    requires id in s.ledger.server && SameJob(s.ledger.server[id], H.OriginOf(s.offering.value), workflow)
    requires Live(s.ledger.server[id].status)
    ensures CaughtBy(s, H.OriginOf(s.offering.value), workflow, id)
  {
    var origin, about := H.OriginOf(s.offering.value), s.ledger.server[id].origin;
    if id in s.view {
      assert SameJob(s.view[id], origin, workflow);
      assert false;
    }
    UnknownIsCovered(s.ledger, s.reader.consumed, s.reader.target, s.view, id);
    if JobActive(s.view, about, workflow) {
      SameJobIsTransitive(s.view, about, origin, workflow);
      assert false;
    }
  }

  /**
   When the view shows no active execution of the job on offer, the server has one exactly if the firing
   is caught between the two events of a retry.
   */
  lemma ServerIsActiveIff(s: System, workflow: string)
    requires Inv(s) && s.offering.Some? && !JobActive(s.view, H.OriginOf(s.offering.value), workflow)
    ensures JobActive(s.ledger.server, H.OriginOf(s.offering.value), workflow)
      <==> Caught(s, H.OriginOf(s.offering.value), workflow)
  {
    var server, origin := s.ledger.server, H.OriginOf(s.offering.value);
    if JobActive(server, origin, workflow) {
      var id :| id in server && SameJob(server[id], origin, workflow) && Live(server[id].status);
      LiveIsCaught(s, workflow, id);
    }
    if Caught(s, origin, workflow) {
      var id :| CaughtBy(s, origin, workflow, id);
      assert id in server && SameJob(server[id], origin, workflow);
    }
  }

  /** One more live execution keeps the promise exactly if there was none of its job. */
  lemma OneMoreIsAloneIff(was: View, id: string, origin: Origin, workflow: string)
    requires AtMostOneActive(was) && id !in was && origin.FromEvent?
    ensures AtMostOneActive(was[id := Seen(origin, workflow, Running)]) <==> !JobActive(was, origin, workflow)
  {
    var now := was[id := Seen(origin, workflow, Running)];
    if JobActive(was, origin, workflow) {
      var other :| other in was && SameJob(was[other], origin, workflow) && Live(was[other].status);
      assert now[other] == was[other] && SameJob(now[other], now[id].origin, now[id].workflow);
    } else {
      forall x, y | x in now && y in now && x != y && Live(now[x].status) && Live(now[y].status)
        ensures !SameJob(now[x], now[y].origin, now[y].workflow)
      {
        var other := if x == id then y else x;
        assert other in was && Live(was[other].status);
        assert !SameJob(was[other], origin, workflow);
      }
    }
  }

  /** A firing keeps the promise if and only if it is not caught between the two events of a retry of its job. */
  lemma FiringIsSafeIff(s: System, a: Action)
    requires Inv(s) && a.Offer? && Enabled(s, a)
    ensures AtMostOneActive(Perform(s, a).ledger.server) <==> !Caught(s, H.OriginOf(s.offering.value), a.trigger.workflow)
  {
    ServerIsActiveIff(s, a.trigger.workflow);
    OneMoreIsAloneIff(s.ledger.server, a.id, H.OriginOf(s.offering.value), a.trigger.workflow);
  }

  // ── Every step keeps the invariant ──────────────────────────────────

  lemma LoggingKeepsEnds(l: Ledger, e: Envelope)
    requires EndsSound(l) && Acceptable(l.server, e)
    ensures EndsSound(Logged(l, e))
  {
    var l' := Logged(l, e);
    forall q, id | 0 <= q < |l'.log| && Ends(l'.log[q], id)
      ensures id in l'.server && !Live(l'.server[id].status)
    {
      if q < |l.log| {
        assert Ends(l.log[q], id);
      }
    }
    forall q, r, id | 0 <= q < r < |l'.log|
      ensures !(Ends(l'.log[q], id) && Ends(l'.log[r], id))
    {
      assert Ends(l.log[q], id) == Ends(l'.log[q], id);
    }
  }

  lemma LoggingKeepsCancels(l: Ledger, e: Envelope)
    requires CancelsSound(l) && Acceptable(l.server, e)
    ensures CancelsSound(Logged(l, e))
  {
  }

  lemma IdentitiesStay(server: View, e: Envelope)
    requires Acceptable(server, e)
    ensures var after := ViewAfter(server, e);
            && after.Keys == server.Keys + (if IsCreation(e) then {e.body.created} else {})
            && forall id :: id in server ==> after[id].origin == server[id].origin && after[id].workflow == server[id].workflow
  {
  }

  lemma LoggingKeepsCreations(l: Ledger, e: Envelope)
    requires CreationsSound(l) && Acceptable(l.server, e)
    ensures CreationsSound(Logged(l, e))
  {
    var l' := Logged(l, e);
    IdentitiesStay(l.server, e);
    forall q | 0 <= q < |l'.log| && IsCreation(l'.log[q])
      ensures var id := l'.log[q].body.created;
              && id in l'.server && l'.createdAt[id] == q
              && l'.log[q].body.origin == l'.server[id].origin && l'.log[q].body.workflow == l'.server[id].workflow
    {
      if q < |l.log| {
        assert l'.log[q] == l.log[q];
      }
    }
  }

  /** No event but a creation makes an execution active, so none makes a second one active. */
  lemma LoggingKeepsAtMostOne(l: Ledger, e: Envelope)
    requires AtMostOneActive(l.server) && Acceptable(l.server, e)
    requires IsCreation(e) ==> JobFree(l.server, e.body.origin, e.body.workflow)
    ensures AtMostOneActive(Logged(l, e).server)
  {
    var server' := Logged(l, e).server;
    forall a, b | a in server' && b in server' && a != b && Live(server'[a].status) && Live(server'[b].status)
      ensures !SameJob(server'[a], server'[b].origin, server'[b].workflow)
    {
      if IsCreation(e) && b != e.body.created && a == e.body.created {
        assert !SameJob(l.server[b], e.body.origin, e.body.workflow);
      }
    }
  }

  lemma LoggingKeepsLedger(l: Ledger, e: Envelope)
    requires LedgerSound(l) && Acceptable(l.server, e) && e.seqNo == |l.log| + 1
    requires IsCreation(e) ==> JobFree(l.server, e.body.origin, e.body.workflow)
    ensures LedgerSound(Logged(l, e))
  {
    LoggingKeepsEnds(l, e);
    LoggingKeepsCancels(l, e);
    LoggingKeepsCreations(l, e);
    LoggingKeepsAtMostOne(l, e);
  }

  lemma LoggingKeepsView(l: Ledger, consumed: nat, view: View, e: Envelope)
    requires ViewSound(l, consumed, view) && Acceptable(l.server, e)
    ensures ViewSound(Logged(l, e), consumed, view)
  {
    var l' := Logged(l, e);
    forall q, id | consumed <= q < |l'.log| && Cancels(l'.log[q], id) && id in view
      ensures Live(view[id].status)
    {
      if q < |l.log| {
        assert Cancels(l.log[q], id);
      }
    }
  }

  lemma LoggingKeepsExplained(l: Ledger, consumed: nat, replayTarget: nat, e: Envelope, id: string)
    requires CreationsSound(l) && Acceptable(l.server, e) && Explained(l, consumed, replayTarget, id)
    ensures Explained(Logged(l, e), consumed, replayTarget, id)
  {
    if Retried(l, id) {
      var before :| RetryOf(l, id, before);
      assert RetryOf(Logged(l, e), id, before);
    }
  }

  /** Executions the herder does not know stay explained, if the one just created is. */
  lemma LoggingKeepsUnknown(l: Ledger, consumed: nat, replayTarget: nat, view: View, e: Envelope)
    requires CreationsSound(l) && Acceptable(l.server, e) && UnknownSound(l, consumed, replayTarget, view)
    requires IsCreation(e) && e.body.created !in view ==>
               Explained(Logged(l, e), consumed, replayTarget, e.body.created)
    ensures UnknownSound(Logged(l, e), consumed, replayTarget, view)
  {
    var l' := Logged(l, e);
    forall id | id in l'.server && id !in view
      ensures Explained(l', consumed, replayTarget, id)
    {
      if id in l.server {
        LoggingKeepsExplained(l, consumed, replayTarget, e, id);
      }
    }
  }

  lemma LoggingKeepsReader(l: Ledger, r: Reader, offering: Option<Envelope>, e: Envelope)
    requires ReaderSound(l.log, r) && OfferSound(l.log, r, offering)
    ensures ReaderSound(Logged(l, e).log, r) && OfferSound(Logged(l, e).log, r, offering)
  {
    var log := Logged(l, e).log;
    if r.conn.Some? && r.conn.value.replay.Some? && r.conn.value.replay.value != [] {
      var c := r.conn.value;
      assert log[c.after..End(c)] == l.log[c.after..End(c)];
    }
    if offering.Some? {
      var q: nat :| q < r.consumed && l.log[q] == offering.value;
      assert log[q] == offering.value;
    }
  }

  lemma UnknownShrinks(l: Ledger, consumed: nat, replayTarget: nat, view: View, more: View)
    requires UnknownSound(l, consumed, replayTarget, view) && view.Keys <= more.Keys
    ensures UnknownSound(l, consumed, replayTarget, more)
  {
  }

  lemma AppendKeepsInv(s: System, e: Envelope)
    requires Inv(s) && Enabled(s, Append(e))
    ensures Inv(Perform(s, Append(e)))
  {
    LoggingKeepsLedger(s.ledger, e);
    LoggingKeepsView(s.ledger, s.reader.consumed, s.view, e);
    LoggingKeepsUnknown(s.ledger, s.reader.consumed, s.reader.target, s.view, e);
    LoggingKeepsReader(s.ledger, s.reader, s.offering, e);
  }

  lemma RetriedJobIsFree(l: Ledger, r: Retry)
    requires LedgerSound(l) && r.oldId in l.server && l.server[r.oldId].status == Escalated && r.newId !in l.server
    ensures Acceptable(l.server, PairFirst(l, r)) && PendingSound(Logged(l, PairFirst(l, r)), Some(r))
  {
    var c, was := Logged(l, PairFirst(l, r)), l.server[r.oldId];
    assert c.server == l.server[r.oldId := was.(status := Cancelled)];
  }

  lemma RetryCancelKeepsInv(s: System, r: Retry)
    requires Inv(s) && Enabled(s, RetryCancel(r))
    ensures Inv(Perform(s, RetryCancel(r)))
  {
    var l := s.ledger;
    var e := PairFirst(l, r);
    RetriedJobIsFree(l, r);
    LoggingKeepsLedger(l, e);
    LoggingKeepsView(l, s.reader.consumed, s.view, e);
    LoggingKeepsUnknown(l, s.reader.consumed, s.reader.target, s.view, e);
    LoggingKeepsReader(l, s.reader, s.offering, e);
    assert Perform(s, RetryCancel(r)) == s.(ledger := Logged(l, e), pending := Some(r));
  }

  lemma PairIsAcceptable(l: Ledger, r: Retry)
    requires CancelsSound(l) && PendingSound(l, Some(r))
    ensures Acceptable(l.server, PairSecond(l, r))
  {
  }

  /** The execution a retry creates is the second half of the pair, logged right after the first. */
  lemma PairIsExplained(l: Ledger, r: Retry)
    requires CreationsSound(l) && PendingSound(l, Some(r))
    ensures var l' := Logged(l, PairSecond(l, r));
            r.newId in l'.createdAt && l'.createdAt[r.newId] == |l.log| && RetryOf(l', r.newId, r.oldId)
  {
    var l' := Logged(l, PairSecond(l, r));
    assert IsCreation(l.log[l.createdAt[r.oldId]]);
    assert l'.log[|l.log| - 1] == l.log[|l.log| - 1];
  }

  lemma RetryCreateKeepsInv(s: System)
    requires Inv(s) && Enabled(s, RetryCreate)
    ensures Inv(Perform(s, RetryCreate))
  {
    var l, r := s.ledger, s.pending.value;
    var e := PairSecond(l, r);
    PairIsAcceptable(l, r);
    PairIsExplained(l, r);
    LoggingKeepsLedger(l, e);
    LoggingKeepsView(l, s.reader.consumed, s.view, e);
    LoggingKeepsUnknown(l, s.reader.consumed, s.reader.target, s.view, e);
    LoggingKeepsReader(l, s.reader, s.offering, e);
    assert Perform(s, RetryCreate) == s.(ledger := Logged(l, e), pending := None);
  }

  lemma FiredJobIsFree(s: System, workflow: string)
    requires Inv(s) && s.offering.Some? && !JobActive(s.view, H.OriginOf(s.offering.value), workflow)
    requires !Caught(s, H.OriginOf(s.offering.value), workflow)
    ensures JobFree(s.ledger.server, H.OriginOf(s.offering.value), workflow)
  {
    ServerIsActiveIff(s, workflow);
  }

  lemma OfferKeepsInv(s: System, a: Action)
    requires Inv(s) && a.Offer? && Enabled(s, a) && !Caught(s, H.OriginOf(s.offering.value), a.trigger.workflow)
    ensures Inv(Perform(s, a))
  {
    var l, e := s.ledger, OfferEvent(s, a);
    var l' := Logged(l, e);
    var view' := s.view[a.id := l'.server[a.id]];
    FiredJobIsFree(s, a.trigger.workflow);
    OfferedSubjectIsKnown(s);
    LoggingKeepsLedger(l, e);
    LoggingKeepsView(l, s.reader.consumed, s.view, e);
    ViewLearns(l', s.reader.consumed, s.view, a.id);
    UnknownShrinks(l, s.reader.consumed, s.reader.target, s.view, view');
    LoggingKeepsUnknown(l, s.reader.consumed, s.reader.target, view', e);
    LoggingKeepsReader(l, s.reader, s.offering, e);
    assert Perform(s, a) == s.(ledger := l', view := view');
  }

  lemma OfferedSubjectIsKnown(s: System)
    requires Inv(s) && s.offering.Some?
    ensures var origin := H.OriginOf(s.offering.value);
            CancelOrigin(origin) ==> origin.subjectId in s.ledger.server
  {
    var q: nat :| q < s.reader.consumed && s.ledger.log[q] == s.offering.value;
    assert CancelOrigin(H.OriginOf(s.ledger.log[q])) ==> s.ledger.log[q].subjectId in s.ledger.server;
  }

  /** The view may learn of a live execution exactly as the server has it. */
  lemma ViewLearns(l: Ledger, consumed: nat, view: View, id: string)
    requires ViewSound(l, consumed, view) && id in l.server && Live(l.server[id].status)
    ensures ViewSound(l, consumed, view[id := l.server[id]])
  {
  }

  lemma EndIsLogged(l: Ledger, id: string, status: ExecutionStatus, e: Envelope)
    requires id in l.server && Live(l.server[id].status) && status in {Completed, Escalated}
    requires e.source == SOURCE_OX && e.subjectId == id && e.body == EndEvent(id, status)
    ensures Acceptable(l.server, e) && !IsCreation(e)
    ensures id in Logged(l, e).server && Logged(l, e).server[id].status == status
    ensures status == Completed ==> CompletesLast(Logged(l, e), id)
  {
  }

  lemma HerderEndsKeepsInv(s: System, a: Action)
    requires Inv(s) && a.HerderEnds? && Enabled(s, a)
    ensures Inv(Perform(s, a))
  {
    var l := s.ledger;
    var e := Ox(l, a.ts, a.id, EndEvent(a.id, a.status));
    var l', view' := Logged(l, e), SetStatus(s.view, a.id, a.status);
    EndIsLogged(l, a.id, a.status, e);
    LoggingKeepsLedger(l, e);
    LoggingKeepsView(l, s.reader.consumed, s.view, e);
    LoggingKeepsUnknown(l, s.reader.consumed, s.reader.target, s.view, e);
    UnknownShrinks(l', s.reader.consumed, s.reader.target, s.view, view');
    ViewFollowsEnd(l', s.reader.consumed, s.view, a.id, a.status);
    LoggingKeepsReader(l, s.reader, s.offering, e);
    var s' := s.(ledger := l', view := view');
    assert Perform(s, a) == s' && Inv(s');
  }

  /** The view may follow the server in completing or escalating an execution. */
  lemma ViewFollowsEnd(l: Ledger, consumed: nat, view: View, id: string, status: ExecutionStatus)
    requires EndsSound(l) && ViewSound(l, consumed, view) && id in view && l.server[id].status == status
    requires status == Escalated || (status == Completed && 0 < |l.log| && CompletesLast(l, id))
    ensures ViewSound(l, consumed, SetStatus(view, id, status))
  {
    var view' := SetStatus(view, id, status);
    forall q, x | consumed <= q < |l.log| && Cancels(l.log[q], x) && x in view'
      ensures Live(view'[x].status)
    {
      assert Ends(l.log[q], x);
    }
  }

  predicate CompletesLast(l: Ledger, id: string)
    requires 0 < |l.log|
  {
    Ends(l.log[|l.log| - 1], id) && l.log[|l.log| - 1].body == ExecutionCompleted(id)
  }

  lemma ViewAfterOne(view: View, e: Envelope, id: string)
    requires id in ViewAfter(view, e)
    ensures var view' := ViewAfter(view, e);
            if IsCreation(e) && e.body.created == id then
              view'[id] == Seen(e.body.origin, e.body.workflow, Running)
            else
              && id in view && view'[id].origin == view[id].origin && view'[id].workflow == view[id].workflow
              && (Live(view[id].status) && !Live(view'[id].status) ==> Ends(e, id))
  {
  }

  /** Handling any logged event keeps the view sound, once everything up to it counts as consumed. */
  lemma HandlingKeepsView(l: Ledger, consumed: nat, view: View, q: nat, consumed': nat)
    requires LedgerSound(l) && ViewSound(l, consumed, view) && q < consumed' <= |l.log| && consumed <= consumed'
    ensures ViewSound(l, consumed', ViewAfter(view, l.log[q]))
  {
    var view', e := ViewAfter(view, l.log[q]), l.log[q];
    forall id | id in view'
      ensures && id in l.server
              && view'[id].origin == l.server[id].origin && view'[id].workflow == l.server[id].workflow
              && (Live(l.server[id].status) ==> Live(view'[id].status))
    {
      ViewAfterOne(view, e, id);
    }
    forall p, id | consumed' <= p < |l.log| && Cancels(l.log[p], id) && id in view'
      ensures Live(view'[id].status)
    {
      ViewAfterOne(view, e, id);
      assert Ends(l.log[p], id) && !Ends(l.log[q], id);
    }
  }

  lemma ViewGrows(view: View, e: Envelope)
    ensures view.Keys <= ViewAfter(view, e).Keys
    ensures IsCreation(e) ==> e.body.created in ViewAfter(view, e)
  {
  }

  /** The event the herder takes is a logged one, no later than the first it has never received. */
  lemma TakesLogged(log: seq<Envelope>, consumed: nat, c: ES.Conn, taken: nat)
    requires B.Numbered(log) && ConnSound(log, consumed, c, taken) && c.replay.Some? && taken < |ES.Script(c, log)|
    ensures var n := Next(c, taken);
            n < |log| && n <= consumed && ES.Script(c, log)[taken] == log[n] && log[n].seqNo == n + 1
  {
    var n, replayed := Next(c, taken), |c.replay.value|;
    if taken < replayed {
      assert ES.Script(c, log)[taken] == c.replay.value[taken];
    } else {
      assert ES.Script(c, log)[taken] == log[c.at..][taken - replayed];
    }
  }

  lemma TakeKeepsConn(log: seq<Envelope>, consumed: nat, c: ES.Conn, taken: nat)
    requires ConnSound(log, consumed, c, taken) && c.replay.Some? && taken < |ES.Script(c, log)|
    ensures ConnSound(log, Max(consumed, Next(c, taken) + 1), c, taken + 1)
  {
  }

  lemma HandlingKeepsUnknown(l: Ledger, consumed: nat, target: nat, view: View, q: nat)
    requires CreationsSound(l) && UnknownSound(l, consumed, target, view) && q <= consumed && q < |l.log|
    ensures UnknownSound(l, Max(consumed, q + 1), target, ViewAfter(view, l.log[q]))
  {
    var view' := ViewAfter(view, l.log[q]);
    ViewGrows(view, l.log[q]);
    forall id | id in l.server && id !in view'
      ensures Explained(l, Max(consumed, q + 1), target, id)
    {
      assert Explained(l, consumed, target, id);
      assert IsCreation(l.log[l.createdAt[id]]) && l.log[l.createdAt[id]].body.created == id;
    }
  }

  lemma TakeKeepsReader(log: seq<Envelope>, r: Reader, n: nat)
    requires B.Numbered(log) && ReaderSound(log, r) && CanTake(log, r) && n == Next(r.conn.value, r.taken)
    ensures n < |log| && n <= r.consumed && ES.Script(r.conn.value, log)[r.taken] == log[n] && log[n].seqNo == n + 1
    ensures ReaderSound(log, Taken(r, n + 1))
  {
    TakesLogged(log, r.consumed, r.conn.value, r.taken);
    TakeKeepsConn(log, r.consumed, r.conn.value, r.taken);
  }

  lemma TakeKeepsInv(s: System)
    requires Inv(s) && Enabled(s, Take)
    ensures Inv(Perform(s, Take))
  {
    var log, r := s.ledger.log, s.reader;
    var n := Next(r.conn.value, r.taken);
    TakeKeepsReader(log, r, n);
    HandlingKeepsView(s.ledger, r.consumed, s.view, n, Max(r.consumed, n + 1));
    HandlingKeepsUnknown(s.ledger, r.consumed, r.target, s.view, n);
    var s' := Perform(s, Take);
    assert s' == s.(reader := Taken(r, n + 1), view := ViewAfter(s.view, log[n]),
                    offering := if r.replaying then None else Some(log[n]));
  }

  lemma StreamKeepsInv(s: System, a: Action)
    requires Inv(s) && (a.Connect? || a.ReadLog? || a.Restart?) && Enabled(s, a)
    ensures Inv(Perform(s, a))
  {
  }

  /** Every step but a caught firing keeps the invariant. */
  lemma StepKeepsInv(s: System, a: Action)
    requires Inv(s) && Enabled(s, a)
    requires a.Offer? ==> !Caught(s, H.OriginOf(s.offering.value), a.trigger.workflow)
    ensures Inv(Perform(s, a))
  {
    match a
    case Append(e) => AppendKeepsInv(s, e);
    case RetryCancel(r) => RetryCancelKeepsInv(s, r);
    case RetryCreate => RetryCreateKeepsInv(s);
    case Connect => StreamKeepsInv(s, a);
    case ReadLog(_) => StreamKeepsInv(s, a);
    case Take => TakeKeepsInv(s);
    case Offer(_, _, _, _) => OfferKeepsInv(s, a);
    case HerderEnds(_, _, _) => HerderEndsKeepsInv(s, a);
    case Restart => StreamKeepsInv(s, a);
  }
}
