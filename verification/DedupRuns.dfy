/**
 Trigger dedup over whole runs (ox-herder/src/herder.rs, evaluate_triggers_for_event): the promise holds
 exactly as long as no firing is caught between the two events of a retry, and none is if the server
 replays its log to no connection in between. A run shows what happens otherwise.
 */
module DedupRuns {
  import opened Prelude
  import opened Events
  import opened TriggerDedup
  import ES = EventStream
  import H = Herder

  ghost predicate Runs(s: System, actions: seq<Action>)
    decreases |actions|
  {
    actions != [] ==> Enabled(s, actions[0]) && Runs(Perform(s, actions[0]), actions[1..])
  }

  /** Now and after each of the actions, no two live executions are of one job. */
  ghost predicate AlwaysOne(s: System, actions: seq<Action>)
    requires Runs(s, actions)
    decreases |actions|
  {
    AtMostOneActive(s.ledger.server) && (actions != [] ==> AlwaysOne(Perform(s, actions[0]), actions[1..]))
  }

  ghost predicate IsCaught(s: System, a: Action)
    requires Enabled(s, a)
  {
    a.Offer? && Caught(s, H.OriginOf(s.offering.value), a.trigger.workflow)
  }

  ghost predicate NoneCaught(s: System, actions: seq<Action>)
    requires Runs(s, actions)
    decreases |actions|
  {
    actions != [] ==> !IsCaught(s, actions[0]) && NoneCaught(Perform(s, actions[0]), actions[1..])
  }

  lemma {:induction false} OneWhileNoneCaught(s: System, actions: seq<Action>)
    requires Inv(s) && Runs(s, actions)
    ensures AlwaysOne(s, actions) <==> NoneCaught(s, actions)
    decreases |actions|
  {
    if actions != [] {
      if IsCaught(s, actions[0]) {
        FiringIsSafeIff(s, actions[0]);
      } else {
        StepKeepsInv(s, actions[0]);
        OneWhileNoneCaught(Perform(s, actions[0]), actions[1..]);
      }
    }
  }

  /**
   Whatever the interleaving of server events, retries, connections, deliveries and repeats, firings and
   herder restarts: at most one execution per (source, kind, subject, workflow) is running or escalated,
   all along, if and only if no firing was caught between the two events of a retry of its job.
   */
  lemma DedupHoldsIff(actions: seq<Action>)
    requires Runs(EMPTY, actions)
    ensures AlwaysOne(EMPTY, actions) <==> NoneCaught(EMPTY, actions)
  {
    OneWhileNoneCaught(EMPTY, actions);
  }

  // ── Reads that do not fall between the events of a retry ────────────

  /** No log is read for a connection while a retry is under way. */
  ghost predicate QuietReads(s: System, actions: seq<Action>)
    requires Runs(s, actions)
    decreases |actions|
  {
    actions != [] ==> (actions[0].ReadLog? ==> s.pending.None?) && QuietReads(Perform(s, actions[0]), actions[1..])
  }

  /** No event-made execution unknown to the herder was, or is about to be, created at this position of the log. */
  ghost predicate Clean(l: Ledger, pending: bool, view: View, n: nat) {
    && (pending ==> n != |l.log|)
    && forall id :: id in l.server && id in l.createdAt && id !in view && l.createdAt[id] == n ==>
         !l.server[id].origin.FromEvent?
  }

  /** What is delivered again is delivered while the herder stands at a clean position. */
  ghost predicate RepeatsClean(l: Ledger, pending: bool, view: View, r: Reader) {
    && (r.lastSeq < r.consumed ==> Clean(l, pending, view, r.consumed))
    && (r.conn.Some? ==> ConnClean(l, pending, view, r.consumed, r.conn.value, r.taken))
  }

  ghost predicate ConnClean(l: Ledger, pending: bool, view: View, consumed: nat, c: ES.Conn, taken: nat) {
    && (c.replay.None? && c.after < consumed ==> Clean(l, pending, view, consumed))
    && (c.replay.Some? && c.replay.value != [] ==> Clean(l, pending, view, End(c)))
    && (c.replay.Some? && Next(c, taken) < consumed ==> Clean(l, pending, view, consumed))
  }

  /** On offer is the last event delivered for the first time, or the position is clean. */
  ghost predicate OfferClean(l: Ledger, pending: bool, view: View, consumed: nat, offering: Option<Envelope>) {
    offering.Some? ==>
      (0 < consumed <= |l.log| && l.log[consumed - 1] == offering.value) || Clean(l, pending, view, consumed)
  }

  ghost predicate AllClean(s: System) {
    && RepeatsClean(s.ledger, s.pending.Some?, s.view, s.reader)
    && OfferClean(s.ledger, s.pending.Some?, s.view, s.reader.consumed, s.offering)
  }

  /** The creation an event logs is of a person's making, or the herder's own, or not at this position. */
  lemma LoggingKeepsClean(l: Ledger, pending: bool, view: View, n: nat, e: Envelope, pending': bool, view': View)
    requires CreationsSound(l) && Acceptable(l.server, e) && n <= |l.log| && Clean(l, pending, view, n)
    requires view.Keys <= view'.Keys
    requires IsCreation(e) ==> e.body.origin.Manual? || e.body.created in view' || n != |l.log|
    ensures Clean(Logged(l, e), pending', view', n)
  {
    IdentitiesStay(l.server, e);
  }

  lemma LoggingKeepsAllClean(l: Ledger, pending: bool, view: View, r: Reader, offering: Option<Envelope>,
                             e: Envelope, pending': bool, view': View)
    requires CreationsSound(l) && Acceptable(l.server, e) && ReaderSound(l.log, r) && view.Keys <= view'.Keys
    requires IsCreation(e) ==> e.body.origin.Manual? || e.body.created in view' || pending
    requires RepeatsClean(l, pending, view, r) && OfferClean(l, pending, view, r.consumed, offering)
    ensures RepeatsClean(Logged(l, e), pending', view', r) && OfferClean(Logged(l, e), pending', view', r.consumed, offering)
  {
    if Clean(l, pending, view, r.consumed) {
      LoggingKeepsClean(l, pending, view, r.consumed, e, pending', view');
    }
    if r.conn.Some? && r.conn.value.replay.Some? && r.conn.value.replay.value != [] {
      LoggingKeepsClean(l, pending, view, End(r.conn.value), e, pending', view');
    }
  }

  /** What each logging step logs, and what the herder then knows. */
  lemma LoggingStep(s: System, a: Action) returns (e: Envelope)
    requires Inv(s) && Enabled(s, a)
    requires a.Append? || a.RetryCancel? || a.RetryCreate? || a.Offer? || a.HerderEnds?
    ensures var s' := Perform(s, a);
            && s'.ledger == Logged(s.ledger, e) && s'.reader == s.reader && s'.offering == s.offering
            && Acceptable(s.ledger.server, e) && s.view.Keys <= s'.view.Keys
            && (IsCreation(e) ==> e.body.origin.Manual? || e.body.created in s'.view || s.pending.Some?)
  {
    match a
    case Append(event) => e := event;
    case RetryCancel(r) => e := PairFirst(s.ledger, r);
    case RetryCreate =>
      e := PairSecond(s.ledger, s.pending.value);
      PairIsAcceptable(s.ledger, s.pending.value);
    case Offer(_, _, _, _) =>
      e := OfferEvent(s, a);
      OfferedSubjectIsKnown(s);
    case HerderEnds(id, status, ts) => e := Ox(s.ledger, ts, id, EndEvent(id, status));
  }

  lemma LogKeepsAllClean(s: System, a: Action)
    requires Inv(s) && AllClean(s) && Enabled(s, a)
    requires a.Append? || a.RetryCancel? || a.RetryCreate? || a.Offer? || a.HerderEnds?
    ensures AllClean(Perform(s, a))
  {
    var e := LoggingStep(s, a);
    var s' := Perform(s, a);
    LoggingKeepsAllClean(s.ledger, s.pending.Some?, s.view, s.reader, s.offering, e, s'.pending.Some?, s'.view);
  }

  lemma ReadKeepsAllClean(s: System, readable: bool)
    requires Inv(s) && AllClean(s) && Enabled(s, ReadLog(readable)) && s.pending.None?
    ensures AllClean(Perform(s, ReadLog(readable)))
  {
    assert Clean(s.ledger, false, s.view, |s.ledger.log|);
  }

  lemma LearningKeepsClean(l: Ledger, pending: bool, view: View, n: nat, view': View)
    requires Clean(l, pending, view, n) && view.Keys <= view'.Keys
    ensures Clean(l, pending, view', n)
  {
  }

  /** Taking an event for the first time moves the herder to it; taking it again leaves it where it stands. */
  lemma TakeKeepsConnClean(l: Ledger, pending: bool, view: View, consumed: nat, c: ES.Conn, taken: nat, view': View)
    requires ConnSound(l.log, consumed, c, taken) && c.replay.Some? && taken < |ES.Script(c, l.log)|
    requires ConnClean(l, pending, view, consumed, c, taken) && view.Keys <= view'.Keys
    ensures var consumed' := Max(consumed, Next(c, taken) + 1);
            && ConnClean(l, pending, view', consumed', c, taken + 1)
            && (Next(c, taken) < consumed ==> Clean(l, pending, view', consumed))
  {
    if c.replay.value != [] {
      LearningKeepsClean(l, pending, view, End(c), view');
    }
    if Next(c, taken) < consumed {
      LearningKeepsClean(l, pending, view, consumed, view');
    }
  }

  lemma TakeKeepsRepeatsClean(l: Ledger, pending: bool, view: View, r: Reader, view': View)
    requires ReaderSound(l.log, r) && RepeatsClean(l, pending, view, r) && CanTake(l.log, r) && view.Keys <= view'.Keys
    requires Next(r.conn.value, r.taken) <= r.consumed && Next(r.conn.value, r.taken) < |l.log|
    ensures var n := Next(r.conn.value, r.taken);
            && RepeatsClean(l, pending, view', Taken(r, n + 1))
            && OfferClean(l, pending, view', Taken(r, n + 1).consumed, Some(l.log[n]))
  {
    TakeKeepsConnClean(l, pending, view, r.consumed, r.conn.value, r.taken, view');
  }

  lemma TakeStep(s: System) returns (n: nat)
    requires Inv(s) && Enabled(s, Take)
    ensures n == Next(s.reader.conn.value, s.reader.taken) && n <= s.reader.consumed && n < |s.ledger.log|
    ensures var s', e := Perform(s, Take), s.ledger.log[n];
            && s'.ledger == s.ledger && s'.pending == s.pending && s'.reader == Taken(s.reader, n + 1)
            && s.view.Keys <= s'.view.Keys && (s'.offering.Some? ==> s'.offering == Some(e))
  {
    var log, r := s.ledger.log, s.reader;
    n := Next(r.conn.value, r.taken);
    TakeKeepsReader(log, r, n);
    ViewGrows(s.view, log[n]);
    assert Perform(s, Take) == Handled(s, log[n]);
  }

  lemma TakeKeepsAllClean(s: System)
    requires Inv(s) && AllClean(s) && Enabled(s, Take)
    ensures AllClean(Perform(s, Take))
  {
    var n := TakeStep(s);
    TakeKeepsRepeatsClean(s.ledger, s.pending.Some?, s.view, s.reader, Perform(s, Take).view);
  }

  lemma StepKeepsAllClean(s: System, a: Action)
    requires Inv(s) && AllClean(s) && Enabled(s, a) && (a.ReadLog? ==> s.pending.None?)
    ensures AllClean(Perform(s, a))
  {
    if a.ReadLog? {
      ReadKeepsAllClean(s, a.readable);
    } else if a.Take? {
      TakeKeepsAllClean(s);
    } else if a.Connect? {
    } else if !a.Restart? {
      LogKeepsAllClean(s, a);
    }
  }

  /** The event in the middle of a retry is not what the retried execution is about. */
  lemma CancellationIsAnotherJob(l: Ledger, id: string, before: string)
    requires CancelsSound(l) && RetryOf(l, id, before)
    ensures !OriginsMatch(l.server[id].origin, H.OriginOf(l.log[l.createdAt[id] - 1]))
  {
    var e := l.log[l.createdAt[id] - 1];
    assert CancelOrigin(H.OriginOf(e));
    assert before == e.subjectId;
  }

  /** Between the events of a retry only the cancellation itself is on offer, for another job. */
  lemma MidRetryIsAnotherJob(l: Ledger, pending: bool, view: View, consumed: nat, offering: Envelope, about: Origin, workflow: string)
    requires CancelsSound(l) && OfferClean(l, pending, view, consumed, Some(offering))
    requires MidRetry(l, consumed, view, about, workflow) && about.FromEvent?
    ensures !OriginsMatch(about, H.OriginOf(offering))
  {
    var id, before :| MidRetryOf(l, consumed, view, id, before)
                      && l.server[id].origin == about && l.server[id].workflow == workflow;
    CancellationIsAnotherJob(l, id, before);
  }

  lemma CleanIsNotCaught(s: System, workflow: string)
    requires CancelsSound(s.ledger) && AllClean(s) && s.offering.Some?
    ensures !Caught(s, H.OriginOf(s.offering.value), workflow)
  {
    var origin := H.OriginOf(s.offering.value);
    forall x ensures !CaughtBy(s, origin, workflow, x) {
      if CaughtBy(s, origin, workflow, x) {
        MidRetryIsAnotherJob(s.ledger, s.pending.Some?, s.view, s.reader.consumed, s.offering.value,
                             s.ledger.server[x].origin, workflow);
      }
    }
  }

  lemma {:induction false} QuietReadsCatchNone(s: System, actions: seq<Action>)
    requires Inv(s) && AllClean(s) && Runs(s, actions) && QuietReads(s, actions)
    ensures NoneCaught(s, actions)
    decreases |actions|
  {
    if actions != [] {
      var a := actions[0];
      if a.Offer? {
        CleanIsNotCaught(s, a.trigger.workflow);
      }
      StepKeepsInv(s, a);
      StepKeepsAllClean(s, a);
      QuietReadsCatchNone(Perform(s, a), actions[1..]);
    }
  }

  /** With reads that do not fall between the two events of a retry the promise always holds, repeats or not. */
  lemma DedupHolds(actions: seq<Action>)
    requires Runs(EMPTY, actions) && QuietReads(EMPTY, actions)
    ensures AlwaysOne(EMPTY, actions)
  {
    QuietReadsCatchNone(EMPTY, actions);
    DedupHoldsIff(actions);
  }
}
