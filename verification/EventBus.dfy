/**
 The event bus (ox-server/src/events.rs): a gap-free log, the projections folded from it, and the
 ingest transaction, which guards a source's cursor by compare-and-swap and drops repeated keys.
 */
module EventBus {
  import opened Prelude
  import opened Events
  import P = Projections

  datatype CursorRow = CursorRow(cursor: Option<string>, updatedSeq: Option<nat>, lastError: Option<string>)

  /** One event of a watcher's batch; the source is stamped on by the server. */
  datatype IngestEvent = IngestEvent(body: Body, subjectId: string, key: string)

  datatype Batch = Batch(source: string, before: Option<string>, after: string, events: seq<IngestEvent>)

  /** A runner's last heartbeat; a time that does not parse has no value. */
  datatype HeartbeatRow = HeartbeatRow(
    lastSeen: Option<int>, execution: Option<string>, step: Option<string>, attempt: Option<nat>)

  datatype IngestError = CursorConflict(expected: Option<string>, actual: Option<string>) | Storage

  datatype IngestResult = IngestResult(appended: nat, deduped: nat)

  /** The durable tables: the log, the first seq seen for each (source, key), and the cursors. */
  datatype Tables = Tables(log: seq<Envelope>, keys: map<(string, string), nat>, cursors: map<string, CursorRow>)

  const NO_TABLES := Tables([], map[], map[])

  function CursorOf(t: Tables, source: string): Option<string> {
    if source in t.cursors then t.cursors[source].cursor else None
  }

  function LastSeqOf(t: Tables, source: string): Option<nat> {
    if source in t.cursors then t.cursors[source].updatedSeq else None
  }

  function Logged(t: Tables, e: Envelope): Tables {
    t.(log := t.log + [e])
  }

  /** One event of a batch: skipped if its key is known, else appended under the next seq. */
  function IngestOne(t: Tables, source: string, event: IngestEvent, ts: int): Tables {
    if (source, event.key) in t.keys then t
    else
      var n := |t.log| + 1;
      t.(log := t.log + [Envelope(n, ts, source, event.subjectId, event.body)],
         keys := t.keys[(source, event.key) := n])
  }

  function IngestEvents(t: Tables, source: string, events: seq<IngestEvent>, ts: int): Tables {
    if events == [] then t
    else IngestOne(IngestEvents(t, source, events[..|events| - 1], ts), source, events[|events| - 1], ts)
  }

  lemma {:induction false} IngestGrows(t: Tables, source: string, events: seq<IngestEvent>, ts: int)
    ensures var t' := IngestEvents(t, source, events, ts);
            && t.log <= t'.log && |t'.log| <= |t.log| + |events|
            && t'.cursors == t.cursors && t.keys.Keys <= t'.keys.Keys
            && forall i :: |t.log| <= i < |t'.log| ==> t'.log[i].seqNo == i + 1 && t'.log[i].source == source
  {
    if events != [] {
      IngestGrows(t, source, events[..|events| - 1], ts);
    }
  }

  /** The committed transaction: the batch's new events and its cursor, with the error cleared. */
  function Committed(t: Tables, batch: Batch, ts: int): Tables {
    var t' := IngestEvents(t, batch.source, batch.events, ts);
    var last := if |t'.log| > |t.log| then Some(|t'.log|) else LastSeqOf(t, batch.source);
    t'.(cursors := t'.cursors[batch.source := CursorRow(Some(batch.after), last, None)])
  }

  /** A rejected batch leaves a note on the cursor row, and the cursor where it was. */
  function Rejected(t: Tables, batch: Batch): Tables {
    var row := CursorRow(CursorOf(t, batch.source), LastSeqOf(t, batch.source), Some("cas mismatch"));
    t.(cursors := t.cursors[batch.source := row])
  }

  ghost predicate Numbered(log: seq<Envelope>) {
    forall i :: 0 <= i < |log| ==> log[i].seqNo == i + 1
  }

  class EventBus {
    const projections: P.Projections
    var log: seq<Envelope>
    var nextSeq: nat
    var keys: map<(string, string), nat>
    var cursors: map<string, CursorRow>
    var heartbeats: map<string, HeartbeatRow>
    /** What the broadcast channel has carried since start-up. */
    var published: seq<Envelope>

    function Stored(): Tables
      reads this
    {
      Tables(log, keys, cursors)
    }

    /** The log is numbered 1..n, the counter is n + 1, and the projections are the fold of the log. */
    ghost predicate Valid()
      reads this, projections
    {
      && Numbered(log) && nextSeq == |log| + 1
      && P.Folds(P.EMPTY, log, projections.Value())
    }

    /** Start-up: the log on disk is replayed from the first event. */
    constructor (rows: seq<Envelope>, keys: map<(string, string), nat>, cursors: map<string, CursorRow>,
                 heartbeats: map<string, HeartbeatRow>)
      requires Numbered(rows)
      ensures Valid() && fresh(projections)
      ensures Stored() == Tables(rows, keys, cursors) && this.heartbeats == heartbeats && published == []
    {
      projections := new P.Projections();
      log, nextSeq, published := rows, 1, [];
      this.keys, this.cursors, this.heartbeats := keys, cursors, heartbeats;
      new;
      for i := 0 to |rows|
        invariant log == rows && this.keys == keys && this.cursors == cursors && published == []
        invariant this.heartbeats == heartbeats
        invariant fresh(projections)
        invariant nextSeq == i + 1
        invariant P.Folds(P.EMPTY, rows[..i], projections.Value())
      {
        ghost var before := projections.Value();
        projections.Apply(rows[i]);
        nextSeq := rows[i].seqNo + 1;
        P.FoldsNext(rows, i, before, projections.Value());
      }
      assert rows[..|rows|] == rows;
    }

    /** Applies a stored event to the projections and broadcasts it. */
    method Publish(e: Envelope)
      modifies projections, this`published
      ensures P.Applies(old(projections.Value()), e, projections.Value())
      ensures published == old(published) + [e]
    {
      projections.Apply(e);
      published := published + [e];
    }

    /** Appends one event; if the row cannot be written nothing changes, the counter included. */
    method Append(source: string, subjectId: string, body: Body, ts: int) returns (r: Result<Envelope, string>)
      requires Valid()
      modifies this`log, this`nextSeq, this`published, projections
      ensures Valid()
      ensures r.Ok? ==>
                && r.value == Envelope(old(nextSeq), ts, source, subjectId, body)
                && Stored() == Logged(old(Stored()), r.value) && published == old(published) + [r.value]
                && P.Applies(old(projections.Value()), r.value, projections.Value())
      ensures r.Err? ==> Stored() == old(Stored()) && published == old(published)
                         && projections.Value() == old(projections.Value())
    {
      var e := Envelope(nextSeq, ts, source, subjectId, body);
      var written: bool := *;
      if !written {
        return Err("appending event");
      }
      ghost var before, was := projections.Value(), log;
      log := log + [e];
      Publish(e);
      nextSeq := e.seqNo + 1;
      P.FoldsOneMore(P.EMPTY, was, before, e, projections.Value());
      return Ok(e);
    }

    /**
     One ingest transaction. It commits the whole batch, or is refused for a stale cursor, or hits a
     storage error at any write; in the last two cases the log, the keys, the cursor, the counter and
     the projections are as before.
     */
    method IngestBatch(batch: Batch, ts: int) returns (r: Result<IngestResult, IngestError>)
      requires Valid()
      modifies this`log, this`nextSeq, this`keys, this`cursors, this`published, projections
      ensures Valid()
      ensures r.Ok? ==>
                && CursorOf(old(Stored()), batch.source) == batch.before
                && Stored() == Committed(old(Stored()), batch, ts)
                && r.value.appended == |log| - |old(log)|
                && r.value.appended + r.value.deduped == |batch.events|
                && published == old(published) + log[|old(log)|..]
      ensures r.Err? && r.error.CursorConflict? ==>
                CursorOf(old(Stored()), batch.source) != batch.before
                && (Stored() == old(Stored()) || Stored() == Rejected(old(Stored()), batch))
      ensures r.Err? && r.error.Storage? ==> Stored() == old(Stored())
      ensures r.Err? ==>
                && log == old(log) && keys == old(keys) && nextSeq == old(nextSeq) && published == old(published)
                && projections.Value() == old(projections.Value())
                && forall source :: CursorOf(Stored(), source) == CursorOf(old(Stored()), source)
    {
      var failed: bool := *;
      if failed {
        return Err(Storage);
      }
      var stored := CursorOf(Stored(), batch.source);
      if stored != batch.before {
        // Recording the conflict is best effort.
        var noted: bool := *;
        if noted {
          cursors := Rejected(Stored(), batch).cursors;
        }
        return Err(CursorConflict(batch.before, stored));
      }
      // The transaction works on its own copies until it commits.
      var tx := Stored();
      var candidate, deduped, appended := nextSeq, 0, 0;
      var last := LastSeqOf(Stored(), batch.source);
      for i := 0 to |batch.events|
        invariant tx == IngestEvents(old(Stored()), batch.source, batch.events[..i], ts)
        invariant candidate == |tx.log| + 1 && |tx.log| == |old(log)| + appended && appended + deduped == i
        invariant last == if appended > 0 then Some(|tx.log|) else LastSeqOf(old(Stored()), batch.source)
      {
        failed := *;
        if failed {
          return Err(Storage);
        }
        var event := batch.events[i];
        assert batch.events[..i + 1][..i] == batch.events[..i];
        if (batch.source, event.key) in tx.keys {
          deduped := deduped + 1;
        } else {
          failed := *;
          if failed {
            return Err(Storage);
          }
          tx := tx.(log := tx.log + [Envelope(candidate, ts, batch.source, event.subjectId, event.body)],
                    keys := tx.keys[(batch.source, event.key) := candidate]);
          last := Some(candidate);
          candidate, appended := candidate + 1, appended + 1;
        }
      }
      assert batch.events[..|batch.events|] == batch.events;
      IngestGrows(Stored(), batch.source, batch.events, ts);
      tx := tx.(cursors := tx.cursors[batch.source := CursorRow(Some(batch.after), last, None)]);
      failed := *;
      if failed {
        return Err(Storage);
      }
      Commit(tx, candidate);
      return Ok(IngestResult(appended, deduped));
    }

    /** Makes the transaction's tables current, then folds and broadcasts what it appended. */
    method Commit(tx: Tables, next: nat)
      requires Valid() && log <= tx.log && Numbered(tx.log) && next == |tx.log| + 1
      modifies this`log, this`nextSeq, this`keys, this`cursors, this`published, projections
      ensures Valid() && Stored() == tx
      ensures published == old(published) + log[|old(log)|..]
    {
      ghost var was := log;
      var n := |log|;
      log, keys, cursors, nextSeq := tx.log, tx.keys, tx.cursors, next;
      assert tx.log[..n] == was;
      for i := n to |tx.log|
        invariant Stored() == tx && nextSeq == next
        invariant P.Folds(P.EMPTY, tx.log[..i], projections.Value())
        invariant published == old(published) + tx.log[n..i]
      {
        ghost var before := projections.Value();
        Publish(tx.log[i]);
        P.FoldsNext(tx.log, i, before, projections.Value());
        SliceOneMore(old(published), tx.log, n, i);
      }
      assert tx.log[..|tx.log|] == tx.log;
    }

    /** Replays the events after a given seq. */
    method ReplayAfter(after: nat) returns (events: seq<Envelope>)
      requires Valid()
      ensures events == log[Min(after, |log|)..]
      ensures forall e :: e in events <==> e in log && e.seqNo > after
    {
      events := [];
      for i := 0 to |log|
        invariant events == if i <= after then [] else log[after..i]
      {
        if log[i].seqNo > after {
          events := events + [log[i]];
        }
      }
      forall e | e in log && e.seqNo > after ensures e in events {
        var i :| 0 <= i < |log| && log[i] == e;
        assert events[i - after] == e;
      }
    }
  }

  // ── Sources over a whole run ────────────────────────────────────────

  datatype Op =
    | OxEvent(subjectId: string, body: Body, ts: int)
    | Post(batch: Batch, ts: int, commits: bool)

  predicate Accepts(t: Tables, op: Op) {
    op.Post? && op.commits && CursorOf(t, op.batch.source) == op.batch.before
  }

  /** A post that does not commit is refused or fails; either way it is as if it had not been made. */
  function Perform(t: Tables, op: Op): Tables {
    match op
    case OxEvent(subjectId, body, ts) => Logged(t, Envelope(|t.log| + 1, ts, SOURCE_OX, subjectId, body))
    case Post(batch, ts, _) =>
      if Accepts(t, op) then Committed(t, batch, ts)
      else if CursorOf(t, batch.source) != batch.before then Rejected(t, batch)
      else t
  }

  function Run(ops: seq<Op>): Tables {
    if ops == [] then NO_TABLES else Perform(Run(ops[..|ops| - 1]), ops[|ops| - 1])
  }

  /** The batches of a source accepted in the run, in order. */
  function AcceptedBatches(ops: seq<Op>, source: string): seq<Batch> {
    if ops == [] then []
    else
      var before := ops[..|ops| - 1];
      AcceptedBatches(before, source)
      + (if Accepts(Run(before), ops[|ops| - 1]) && ops[|ops| - 1].batch.source == source
         then [ops[|ops| - 1].batch] else [])
  }

  function Concat(batches: seq<Batch>): seq<IngestEvent> {
    if batches == [] then [] else Concat(batches[..|batches| - 1]) + batches[|batches| - 1].events
  }

  function KeysOf(events: seq<IngestEvent>): set<string> {
    set i | 0 <= i < |events| :: events[i].key
  }

  /** Keeps the first event of each key. */
  function FirstOccurrences(events: seq<IngestEvent>): seq<IngestEvent> {
    if events == [] then []
    else
      var before := events[..|events| - 1];
      FirstOccurrences(before)
      + (if events[|events| - 1].key in KeysOf(before) then [] else [events[|events| - 1]])
  }

  datatype Content = Content(subjectId: string, body: Body)

  function ContentsOf(events: seq<IngestEvent>): seq<Content> {
    seq(|events|, i requires 0 <= i < |events| => Content(events[i].subjectId, events[i].body))
  }

  /** What the log holds from one source, in order. */
  function FromSource(log: seq<Envelope>, source: string): seq<Content> {
    if log == [] then []
    else
      var e := log[|log| - 1];
      FromSource(log[..|log| - 1], source) + (if e.source == source then [Content(e.subjectId, e.body)] else [])
  }

  /** The tables agree with the events `seen` from a source. */
  ghost predicate Reflects(t: Tables, source: string, seen: seq<IngestEvent>) {
    && FromSource(t.log, source) == ContentsOf(FirstOccurrences(seen))
    && forall key :: (source, key) in t.keys <==> key in KeysOf(seen)
  }

  lemma FromSourceOneMore(log: seq<Envelope>, e: Envelope, source: string)
    ensures FromSource(log + [e], source)
            == FromSource(log, source) + (if e.source == source then [Content(e.subjectId, e.body)] else [])
  {
    assert (log + [e])[..|log|] == log;
  }

  lemma SeenOneMore(seen: seq<IngestEvent>, event: IngestEvent)
    ensures KeysOf(seen + [event]) == KeysOf(seen) + {event.key}
    ensures FirstOccurrences(seen + [event])
            == FirstOccurrences(seen) + (if event.key in KeysOf(seen) then [] else [event])
  {
    var all := seen + [event];
    assert all[..|seen|] == seen;
    assert KeysOf(all) == KeysOf(seen) + {event.key} by {
      assert forall i :: 0 <= i < |seen| ==> all[i] == seen[i];
      assert all[|seen|] == event;
    }
  }

  lemma {:induction false} EventsReflected(t: Tables, source: string, seen: seq<IngestEvent>, events: seq<IngestEvent>, ts: int)
    requires Reflects(t, source, seen)
    ensures Reflects(IngestEvents(t, source, events, ts), source, seen + events)
  {
    if events == [] {
      assert seen + events == seen;
    } else {
      var n := |events| - 1;
      EventsReflected(t, source, seen, events[..n], ts);
      var t', seen' := IngestEvents(t, source, events[..n], ts), seen + events[..n];
      assert seen + events == seen' + [events[n]];
      SeenOneMore(seen', events[n]);
      FromSourceOneMore(t'.log, Envelope(|t'.log| + 1, ts, source, events[n].subjectId, events[n].body), source);
    }
  }

  lemma {:induction false} OtherSourcesUntouched(t: Tables, source: string, other: string, seen: seq<IngestEvent>,
                                                 events: seq<IngestEvent>, ts: int)
    requires Reflects(t, other, seen) && source != other
    ensures Reflects(IngestEvents(t, source, events, ts), other, seen)
  {
    if events != [] {
      var n := |events| - 1;
      OtherSourcesUntouched(t, source, other, seen, events[..n], ts);
      var t' := IngestEvents(t, source, events[..n], ts);
      FromSourceOneMore(t'.log, Envelope(|t'.log| + 1, ts, source, events[n].subjectId, events[n].body), other);
    }
  }

  /**
   For every source but ox itself, the log restricted to it is the first-occurrence dedup, by key, of
   its accepted batches taken together.
   */
  lemma {:induction false} LogIsDedupOfAccepted(ops: seq<Op>, source: string)
    requires source != SOURCE_OX
    ensures Reflects(Run(ops), source, Concat(AcceptedBatches(ops, source)))
  {
    if ops != [] {
      var n := |ops| - 1;
      var t, op, batches := Run(ops[..n]), ops[n], AcceptedBatches(ops[..n], source);
      LogIsDedupOfAccepted(ops[..n], source);
      assert batches + [] == batches;
      if op.OxEvent? {
        FromSourceOneMore(t.log, Envelope(|t.log| + 1, op.ts, SOURCE_OX, op.subjectId, op.body), source);
      } else if Accepts(t, op) {
        if op.batch.source == source {
          EventsReflected(t, source, Concat(batches), op.batch.events, op.ts);
          assert (batches + [op.batch])[..|batches|] == batches;
        } else {
          OtherSourcesUntouched(t, op.batch.source, source, Concat(batches), op.batch.events, op.ts);
        }
      }
    }
  }

  /** Each batch starts at the cursor the one before it ended at; the first starts at none. */
  ghost predicate Chained(batches: seq<Batch>) {
    && (batches != [] ==> batches[0].before == None)
    && forall i :: 0 < i < |batches| ==> batches[i].before == Some(batches[i - 1].after)
  }

  lemma CursorAfter(t: Tables, op: Op, source: string)
    ensures CursorOf(Perform(t, op), source)
            == if Accepts(t, op) && op.batch.source == source then Some(op.batch.after) else CursorOf(t, source)
  {
    if op.Post? {
      IngestGrows(t, op.batch.source, op.batch.events, op.ts);
    }
  }

  /** Accepted batches chain, and the stored cursor is where the last of them ended. */
  lemma {:induction false} AcceptedBatchesChain(ops: seq<Op>, source: string)
    ensures var batches := AcceptedBatches(ops, source);
            && Chained(batches)
            && CursorOf(Run(ops), source) == if batches == [] then None else Some(batches[|batches| - 1].after)
  {
    if ops != [] {
      var n := |ops| - 1;
      var batches := AcceptedBatches(ops[..n], source);
      AcceptedBatchesChain(ops[..n], source);
      CursorAfter(Run(ops[..n]), ops[n], source);
      assert batches + [] == batches;
    }
  }

  /** The log of every run is numbered 1..n. */
  lemma {:induction false} RunIsNumbered(ops: seq<Op>)
    ensures Numbered(Run(ops).log)
  {
    if ops != [] {
      RunIsNumbered(ops[..|ops| - 1]);
      var op := ops[|ops| - 1];
      if op.Post? {
        IngestGrows(Run(ops[..|ops| - 1]), op.batch.source, op.batch.events, op.ts);
      }
    }
  }
}
