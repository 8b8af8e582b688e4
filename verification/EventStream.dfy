/**
 The SSE stream (ox-server/src/sse.rs) and its reader, the herder's connection loop: subscribe to the
 live channel, then replay the log from the reader's last seq, then drain the channel.
 */
module EventStream {
  import opened Prelude
  import opened Events
  import opened EventBus

  // ── One connection ──────────────────────────────────────────────────

  /** Where the reader asked to resume, the log's length when it subscribed, and the replay once it is read. */
  datatype Conn = Conn(after: nat, at: nat, replay: Option<seq<Envelope>>)

  /** Everything a connection yields while the log is as given: the replay, then the live events. */
  function Script(c: Conn, log: seq<Envelope>): seq<Envelope>
    requires c.at <= |log|
  {
    (if c.replay.Some? then c.replay.value else []) + log[c.at..]
  }

  /** The channel has carried exactly the last events of the log, in its order. */
  ghost predicate InOrder(published: seq<Envelope>, log: seq<Envelope>) {
    |published| <= |log| && published == log[|log| - |published|..]
  }

  /** Appending and ingesting keep the channel in order, since each publishes what it logs. */
  lemma PublishKeepsOrder(published: seq<Envelope>, log: seq<Envelope>, published': seq<Envelope>, log': seq<Envelope>)
    requires InOrder(published, log) && log <= log' && published' == published + log'[|log|..]
    ensures InOrder(published', log') && |log'| - |published'| == |log| - |published|
  {
  }

  class Stream {
    const bus: EventBus
    const after: nat
    /** How many events the channel had carried when this stream subscribed. */
    const subscribed: nat
    var replay: Option<seq<Envelope>>
    var sent: nat

    constructor (bus: EventBus, lastEventId: Option<nat>)
      requires InOrder(bus.published, bus.log)
      ensures this.bus == bus && subscribed == |bus.published| && sent == 0
      ensures Value(|bus.log| - |bus.published|)
              == Conn(if lastEventId.Some? then lastEventId.value else 0, |bus.log|, None)
    {
      this.bus, subscribed := bus, |bus.published|;
      after := if lastEventId.Some? then lastEventId.value else 0;
      replay, sent := None, 0;
    }

    /** The connection, given how many events were logged before the server started. */
    function Value(base: nat): Conn
      reads this
    {
      Conn(after, base + subscribed, replay)
    }

    /**
     Yields the next event, or nothing if the reader is up to date. The first call reads the log; if
     that fails the replay is silently empty.
     */
    method Next() returns (event: Option<Envelope>)
      requires bus.Valid() && InOrder(bus.published, bus.log) && subscribed <= |bus.published|
      requires replay.None? ==> sent == 0
      modifies this`replay, this`sent
      ensures replay.Some?
      ensures old(replay).Some? ==> replay == old(replay)
      ensures old(replay).None? ==> replay.value == bus.log[Min(after, |bus.log|)..] || replay.value == []
      ensures var script := Script(Value(|bus.log| - |bus.published|), bus.log);
              if old(sent) < |script| then event == Some(script[old(sent)]) && sent == old(sent) + 1
              else event == None && sent == old(sent)
    {
      if replay.None? {
        var readable: bool := *;
        if readable {
          var events := bus.ReplayAfter(after);
          replay := Some(events);
        } else {
          replay := Some([]);
        }
      }
      var k := subscribed + sent - |replay.value|;
      if sent < |replay.value| {
        event, sent := Some(replay.value[sent]), sent + 1;
      } else if k < |bus.published| {
        event, sent := Some(bus.published[k]), sent + 1;
      } else {
        event := None;
      }
    }
  }

  // ── A reader over any number of connections ─────────────────────────

  /**
   The log, the open connection with the count of events taken from it, and the reader: what it has
   handled, the last seq it saw, and whether it is still replaying up to its target.
   */
  datatype System = System(
    log: seq<Envelope>,
    conn: Option<Conn>,
    taken: nat,
    handled: seq<Envelope>,
    lastSeq: nat,
    replaying: bool,
    target: nat)

  datatype Action =
    | Logs(events: seq<Envelope>)
    | Connect
    | ReadLog(readable: bool)
    | Take

  ghost predicate CanTake(s: System) {
    s.conn.Some? && s.conn.value.replay.Some? && s.conn.value.at <= |s.log| && s.taken < |Script(s.conn.value, s.log)|
  }

  /** The reader's side of one event, as the herder handles it. */
  function Handle(s: System, e: Envelope): System {
    s.(taken := s.taken + 1, handled := s.handled + [e], lastSeq := e.seqNo,
       replaying := s.replaying && e.seqNo < s.target)
  }

  /** `Connect` also stands for losing the connection at any point: nothing in flight is kept. */
  ghost predicate Steps(s: System, a: Action, s': System) {
    match a
    case Logs(events) => Numbered(s.log + events) && s' == s.(log := s.log + events)
    case Connect => s' == s.(conn := Some(Conn(s.lastSeq, |s.log|, None)), taken := 0)
    case ReadLog(readable) =>
      && s.conn.Some? && s.conn.value.replay.None?
      && var read := if readable then s.log[Min(s.conn.value.after, |s.log|)..] else [];
         s' == s.(conn := Some(s.conn.value.(replay := Some(read))))
    case Take => CanTake(s) && s' == Handle(s, Script(s.conn.value, s.log)[s.taken])
  }

  /** The first `n` events of the log have all been handled. */
  ghost predicate HandledUpTo(s: System, n: nat) {
    n <= |s.log| && forall i :: 0 <= i < n ==> s.log[i] in s.handled
  }

  /** The highest seq the reader has seen. */
  function Highest(handled: seq<Envelope>): (h: nat)
    ensures forall e :: e in handled ==> e.seqNo <= h
  {
    if handled == [] then 0
    else
      var n := |handled| - 1;
      var h := Highest(handled[..n]);
      assert forall e :: e in handled ==> e in handled[..n] || e == handled[n];
      if handled[n].seqNo > h then handled[n].seqNo else h
  }

  /** What the events taken from a connection add up to. */
  function Reached(c: Conn, taken: nat): nat
    requires c.replay.Some?
  {
    var replayed := |c.replay.value|;
    if taken < replayed then c.after + taken
    else if c.at + (taken - replayed) >= c.after + replayed then c.at + (taken - replayed)
    else c.after + replayed
  }

  /** Nothing was replayed and nothing taken yet: what the replay should have carried may be about to be missed. */
  predicate Unread(c: Conn, taken: nat) {
    c.replay == Some([]) && taken == 0
  }

  ghost predicate ConnInv(s: System, c: Conn) {
    && c.after <= c.at <= |s.log| && HandledUpTo(s, c.after)
    && (c.replay.None? ==> s.taken == 0)
    && (c.replay.Some? ==>
          && s.taken <= |Script(c, s.log)|
          && (c.replay.value != [] ==> c.at <= c.after + |c.replay.value| <= |s.log|
                                       && c.replay.value == s.log[c.after..c.after + |c.replay.value|])
          && (Unread(c, s.taken) || HandledUpTo(s, Reached(c, s.taken))))
  }

  ghost predicate Inv(s: System) {
    && Numbered(s.log) && HandledUpTo(s, s.lastSeq) && HandledUpTo(s, Highest(s.handled))
    && (s.conn.Some? ==> ConnInv(s, s.conn.value))
    && (!s.replaying ==> HandledUpTo(s, s.target))
  }

  function Start(log: seq<Envelope>, target: nat): System {
    System(log, None, 0, [], 0, true, target)
  }

  /** The first event after an empty replay does no harm if the reader had seen all there was when it subscribed. */
  predicate Harmless(s: System, a: Action) {
    a == Take && s.conn.Some? && Unread(s.conn.value, s.taken) ==> s.conn.value.at <= Highest(s.handled)
  }

  /** The first `n` events have all been handled exactly if the reader has seen a seq of `n` or more. */
  lemma HandledUpToIff(s: System, n: nat)
    requires Inv(s) && n <= |s.log|
    ensures HandledUpTo(s, n) <==> n <= Highest(s.handled)
  {
    if n > 0 && HandledUpTo(s, n) {
      assert s.log[n - 1] in s.handled && s.log[n - 1].seqNo == n;
    }
  }

  /** One event more: it is at most one past what was reached, and reaching further needs nothing else. */
  lemma TakeReaches(s: System, c: Conn)
    requires Numbered(s.log) && ConnInv(s, c) && c.replay.Some? && s.taken < |Script(c, s.log)|
    requires HandledUpTo(s, Reached(c, s.taken))
    ensures var e, reached := Script(c, s.log)[s.taken], Reached(c, s.taken);
            && 1 <= e.seqNo <= |s.log| && e == s.log[e.seqNo - 1]
            && e.seqNo <= Reached(c, s.taken + 1)
            && (Reached(c, s.taken + 1) == reached || (Reached(c, s.taken + 1) == reached + 1 && e.seqNo == reached + 1))
  {
    var replayed := |c.replay.value|;
    if s.taken < replayed {
      assert Script(c, s.log)[s.taken] == s.log[c.after + s.taken];
    } else {
      assert Script(c, s.log)[s.taken] == s.log[c.at + (s.taken - replayed)];
    }
  }

  lemma HighestOneMore(handled: seq<Envelope>, e: Envelope)
    ensures Highest(handled + [e]) == if e.seqNo > Highest(handled) then e.seqNo else Highest(handled)
  {
    assert (handled + [e])[..|handled|] == handled;
  }

  lemma HandledGrows(s: System, e: Envelope, n: nat)
    requires HandledUpTo(s, n)
    ensures HandledUpTo(Handle(s, e), n)
    ensures n < |s.log| && e == s.log[n] ==> HandledUpTo(Handle(s, e), n + 1)
  {
    assert e in Handle(s, e).handled && forall x :: x in s.handled ==> x in Handle(s, e).handled;
  }

  /** Taking an event reaches what `Reached` says. */
  lemma TakeHandles(s: System, c: Conn) returns (e: Envelope)
    requires Inv(s) && s.conn == Some(c) && CanTake(s) && Harmless(s, Take)
    ensures e == Script(c, s.log)[s.taken] && e.seqNo <= Reached(c, s.taken + 1)
    ensures HandledUpTo(Handle(s, e), Reached(c, s.taken + 1))
  {
    if Unread(c, s.taken) {
      HandledUpToIff(s, c.at);
    }
    e := Script(c, s.log)[s.taken];
    TakeReaches(s, c);
    HandledGrows(s, e, Reached(c, s.taken));
  }

  lemma TakeKeepsInv(s: System, s': System)
    requires Inv(s) && Steps(s, Take, s') && Harmless(s, Take)
    ensures Inv(s')
  {
    var c := s.conn.value;
    var e := TakeHandles(s, c);
    HighestOneMore(s.handled, e);
    HandledGrows(s, e, c.after);
    HandledGrows(s, e, Highest(s.handled));
    if !s.replaying {
      HandledGrows(s, e, s.target);
    }
  }

  lemma ReadKeepsInv(s: System, readable: bool, s': System)
    requires Inv(s) && Steps(s, ReadLog(readable), s')
    ensures Inv(s')
  {
    var c, c' := s.conn.value, s'.conn.value;
    if readable {
      assert c'.replay.value == s.log[c.after..];
      assert Reached(c', 0) == c.after;
    } else {
      assert Unread(c', s'.taken);
    }
  }

  lemma LogsKeepsInv(s: System, events: seq<Envelope>, s': System)
    requires Inv(s) && Steps(s, Logs(events), s')
    ensures Inv(s')
  {
    assert forall i :: 0 <= i < |s.log| ==> s'.log[i] == s.log[i];
    if s.conn.Some? && s.conn.value.replay.Some? {
      var c := s.conn.value;
      var n := c.after + |c.replay.value|;
      if n <= |s.log| {
        assert s'.log[c.after..n] == s.log[c.after..n];
      }
    }
  }

  lemma StepKeepsInv(s: System, a: Action, s': System)
    requires Inv(s) && Steps(s, a, s') && Harmless(s, a)
    ensures Inv(s')
  {
    match a
    case Logs(events) => LogsKeepsInv(s, events, s');
    case Connect =>
    case ReadLog(readable) => ReadKeepsInv(s, readable, s');
    case Take => TakeKeepsInv(s, s');
  }

  /** The states a run goes through. */
  ghost predicate IsRun(states: seq<System>, actions: seq<Action>) {
    |states| == |actions| + 1 && forall i :: 0 <= i < |actions| ==> Steps(states[i], actions[i], states[i + 1])
  }

  /** Every event up to the last seq has been handled, and after replay every event up to its target. */
  ghost predicate Promise(s: System) {
    HandledUpTo(s, s.lastSeq) && (!s.replaying ==> HandledUpTo(s, s.target))
  }

  lemma {:induction false} HarmlessKeepsInv(states: seq<System>, actions: seq<Action>, k: nat)
    requires IsRun(states, actions) && Inv(states[0]) && k < |states|
    requires forall i :: 0 <= i < k ==> Harmless(states[i], actions[i])
    ensures Inv(states[k])
  {
    if k > 0 {
      HarmlessKeepsInv(states, actions, k - 1);
      StepKeepsInv(states[k - 1], actions[k - 1], states[k]);
    }
  }

  /** A first event past what the reader has not seen raises the last seq over it. */
  lemma HarmBreaksPromise(s: System, s': System)
    requires Inv(s) && Steps(s, Take, s') && !Harmless(s, Take)
    ensures !HandledUpTo(s', s'.lastSeq)
  {
    var c := s.conn.value;
    HandledUpToIff(s, c.at);
    assert Script(c, s.log)[0] == s.log[c.at];
    var i :| 0 <= i < c.at && s.log[i] !in s.handled;
    assert s.log[i] != s.log[c.at] && s.log[i] !in s'.handled;
  }

  lemma {:induction false} FirstHarm(states: seq<System>, actions: seq<Action>, k: nat)
    requires IsRun(states, actions) && Inv(states[0]) && k < |actions| && !Harmless(states[k], actions[k])
    ensures exists i :: 0 <= i < |states| && !Promise(states[i])
  {
    if j :| 0 <= j < k && !Harmless(states[j], actions[j]) {
      FirstHarm(states, actions, j);
    } else {
      HarmlessKeepsInv(states, actions, k);
      HarmBreaksPromise(states[k], states[k + 1]);
    }
  }

  /** The promise holds all along a run if and only if no first event after an empty replay does harm. */
  lemma PromiseHoldsIff(log: seq<Envelope>, target: nat, states: seq<System>, actions: seq<Action>)
    requires Numbered(log) && IsRun(states, actions) && states[0] == Start(log, target)
    ensures (forall i :: 0 <= i < |states| ==> Promise(states[i]))
      <==> (forall i :: 0 <= i < |actions| ==> Harmless(states[i], actions[i]))
  {
    if k :| 0 <= k < |actions| && !Harmless(states[k], actions[k]) {
      FirstHarm(states, actions, k);
    } else {
      forall i | 0 <= i < |states| ensures Promise(states[i]) {
        HarmlessKeepsInv(states, actions, i);
      }
    }
  }

  /**
   Across any number of connections, a reader that started at 0 has handled every event numbered
   1..lastSeq, and leaves replay only after handling every event up to its target, unless it was harmed.
   lastSeq itself may step back where the replay meets the live events.
   */
  lemma EverythingUpToLastSeqHandled(log: seq<Envelope>, target: nat, states: seq<System>, actions: seq<Action>, e: Envelope)
    requires Numbered(log) && IsRun(states, actions) && states[0] == Start(log, target)
    requires forall i :: 0 <= i < |actions| ==> Harmless(states[i], actions[i])
    ensures var s := states[|actions|];
            e in s.log ==> (e.seqNo <= s.lastSeq ==> e in s.handled) && (!s.replaying && e.seqNo <= s.target ==> e in s.handled)
  {
    var s := states[|actions|];
    HarmlessKeepsInv(states, actions, |actions|);
    if e in s.log {
      var i :| 0 <= i < |s.log| && s.log[i] == e;
      assert e.seqNo == i + 1;
    }
  }

  /**
   When the log could not be read, the promise survives the first live event exactly if the reader had
   seen all there was when it subscribed; it had if its last seq says so.
   */
  lemma UnreadableLogIsHarmlessIff(s: System, mid: System, s': System)
    requires Inv(s) && Steps(s, ReadLog(false), mid) && Steps(mid, Take, s')
    ensures HandledUpTo(s', s'.lastSeq) <==> s.conn.value.at <= Highest(s.handled)
    ensures s.conn.value.at <= s.lastSeq ==> s.conn.value.at <= Highest(s.handled)
  {
    var c := mid.conn.value;
    HandledUpToIff(s, c.at);
    HandledUpToIff(s, s.lastSeq);
    assert Script(c, s.log)[0] == s.log[c.at];
    assert s'.lastSeq == c.at + 1;
    if HandledUpTo(s', c.at + 1) {
      forall i | 0 <= i < c.at ensures s.log[i] in s.handled {
        assert s.log[i] in s'.handled && s.log[i] != s.log[c.at];
      }
    }
  }

  /** The failing run: an event, a connection whose replay cannot be read, and the next event live. */
  lemma UnreadableLogLosesAnEvent(a: Envelope, b: Envelope)
    returns (s1: System, s2: System, s3: System, s4: System, s5: System)
    requires Numbered([a, b])
    ensures Steps(Start([], 0), Logs([a]), s1) && Steps(s1, Connect, s2) && Steps(s2, ReadLog(false), s3)
    ensures Steps(s3, Logs([b]), s4) && Steps(s4, Take, s5)
    ensures s5.lastSeq == 2 && a in s5.log && a !in s5.handled && !s5.replaying
    ensures !Harmless(s4, Take)
  {
    assert [a, b][0] == a && [a, b][1] == b;
    assert [] + [a] == [a] && [a] + [b] == [a, b];
    var start := Start([], 0);
    s1 := start.(log := [a]);
    s2 := s1.(conn := Some(Conn(0, 1, None)));
    s3 := s1.(conn := Some(Conn(0, 1, Some([]))));
    s4 := s3.(log := [a, b]);
    s5 := Handle(s4, b);
    assert Script(s4.conn.value, s4.log) == [b];
  }

  /** A connection made on an empty log that reads the log once it holds two events. */
  function Seam(log: seq<Envelope>, target: nat, taken: nat, handled: seq<Envelope>, lastSeq: nat): System {
    System(log, Some(Conn(0, 0, Some(log))), taken, handled, lastSeq, taken == 0 || Min(taken, 2) < target, target)
  }

  /** An event logged between subscribing and reading the log is delivered twice, and the seq steps back. */
  lemma LastSeqCanStepBack(a: Envelope, b: Envelope, target: nat) returns (states: seq<System>, actions: seq<Action>)
    requires Numbered([a, b])
    ensures IsRun(states, actions) && states[0] == Start([], target)
    ensures |actions| == 6 && states[6].lastSeq < states[5].lastSeq
    ensures forall i :: 0 <= i < |actions| ==> Harmless(states[i], actions[i])
  {
    var log, start := [a, b], Start([], target);
    assert log[0].seqNo == 1 && log[1].seqNo == 2 && [] + log == log && log[0..] == log;
    actions := [Connect, Logs(log), ReadLog(true), Take, Take, Take];
    states := [start, start.(conn := Some(Conn(0, 0, None))), start.(log := log, conn := Some(Conn(0, 0, None))),
               Seam(log, target, 0, [], 0), Seam(log, target, 1, [a], 1), Seam(log, target, 2, [a, b], 2),
               Seam(log, target, 3, [a, b, a], 1)];
    assert Script(Conn(0, 0, Some(log)), log) == [a, b, a, b];
    assert [a] + [b] == [a, b] && [a, b] + [a] == [a, b, a];
  }
}
