/**
 The cx watcher (ox-cx-watcher): turns the commits of a repository into ingest batches, each moving
 the server's cursor from one commit to a later one. `cx` and `git` are foreign; the commit history is
 linear, and `cx log --since` is assumed to list the later commits that changed the graph, newest first.
 */
module Watcher {
  import opened Prelude
  import opened Events
  import opened EventBus

  const SOURCE := "cx"
  const COMMENT_ADDED := "comment.added"

  datatype Change = Change(action: string, node: Option<string>, tag: Option<string>, author: Option<string>)
  datatype Commit = Commit(hash: string, changes: seq<Change>)
  datatype Comment = Comment(node: string, tag: Option<string>, author: Option<string>, hash: string)
  datatype Snapshot = Snapshot(node: string, state: string, tags: seq<string>, shadowed: bool)

  // ── Reading the commit log (cx.rs) ──────────────────────────────────

  function CommentsOfChanges(hash: string, changes: seq<Change>): seq<Comment> {
    if changes == [] then []
    else
      var ch := changes[|changes| - 1];
      CommentsOfChanges(hash, changes[..|changes| - 1])
      + (if ch.node.Some? && ch.action == "comment_added" then [Comment(ch.node.value, ch.tag, ch.author, hash)] else [])
  }

  function CommentsOf(entries: seq<Commit>): seq<Comment> {
    if entries == [] then []
    else
      var e := entries[|entries| - 1];
      CommentsOf(entries[..|entries| - 1]) + CommentsOfChanges(e.hash, e.changes)
  }

  /** Some change of the commits, other than an added comment, names the node. */
  ghost predicate Touches(entries: seq<Commit>, node: string) {
    exists i, j :: 0 <= i < |entries| && 0 <= j < |entries[i].changes| && ChangesNode(entries[i].changes[j], node)
  }

  predicate ChangesNode(ch: Change, node: string) {
    ch.node == Some(node) && ch.action != "comment_added"
  }

  datatype Diff = Diff(touched: seq<string>, comments: seq<Comment>, latest: Option<string>)

  /** Strictly before, in the order of an ordered set of strings. */
  predicate Before(a: string, b: string) {
    b != [] && (a == [] || a[0] < b[0] || (a[0] == b[0] && Before(a[1..], b[1..])))
  }

  lemma {:induction false} BeforeIsTotal(a: string, b: string)
    ensures a == b || Before(a, b) || Before(b, a)
    ensures !(Before(a, b) && Before(b, a)) && !Before(a, a)
  {
    if a != [] && b != [] && a[0] == b[0] {
      BeforeIsTotal(a[1..], b[1..]);
      SplitFirst(a);
      SplitFirst(b);
    }
    if a != [] {
      BeforeIsTotal(a[1..], a[1..]);
    }
  }

  lemma {:induction false} BeforeIsTransitive(a: string, b: string, c: string)
    requires Before(a, b) && Before(b, c)
    ensures Before(a, c)
  {
    if a != [] && a[0] == b[0] == c[0] {
      BeforeIsTransitive(a[1..], b[1..], c[1..]);
    }
  }

  ghost predicate Ascending(s: seq<string>) {
    forall i, j :: 0 <= i < j < |s| ==> Before(s[i], s[j])
  }

  /** Inserts into an ordered set. */
  method Insert(s: seq<string>, x: string) returns (r: seq<string>)
    requires Ascending(s)
    ensures Ascending(r) && forall y :: y in r <==> y in s || y == x
  {
    var i := 0;
    while i < |s| && Before(s[i], x)
      invariant 0 <= i <= |s| && forall k :: 0 <= k < i ==> Before(s[k], x)
    {
      i := i + 1;
    }
    if i < |s| && s[i] == x {
      return s;
    }
    r := s[..i] + [x] + s[i..];
    forall k | i <= k < |s| ensures Before(x, s[k]) {
      BeforeIsTotal(s[i], x);
      if k > i {
        BeforeIsTransitive(x, s[i], s[k]);
      }
    }
  }

  method SummariseLogEntries(entries: seq<Commit>) returns (diff: Diff)
    ensures diff.comments == CommentsOf(entries)
    ensures Ascending(diff.touched) && forall n :: n in diff.touched <==> Touches(entries, n)
    ensures diff.latest == if entries == [] then None else Some(entries[0].hash)
  {
    if entries == [] {
      return Diff([], [], None);
    }
    var touched: seq<string>, comments: seq<Comment> := [], [];
    for i := 0 to |entries|
      invariant comments == CommentsOf(entries[..i])
      invariant Ascending(touched) && forall n :: n in touched <==> Touches(entries[..i], n)
    {
      var e := entries[i];
      ghost var before := touched;
      for j := 0 to |e.changes|
        invariant comments == CommentsOf(entries[..i]) + CommentsOfChanges(e.hash, e.changes[..j])
        invariant Ascending(touched)
        invariant forall n :: n in touched <==> n in before || exists k :: 0 <= k < j && ChangesNode(e.changes[k], n)
      {
        var ch := e.changes[j];
        assert e.changes[..j + 1][..j] == e.changes[..j];
        if ch.node.Some? {
          if ch.action == "comment_added" {
            comments := comments + [Comment(ch.node.value, ch.tag, ch.author, e.hash)];
          } else {
            touched := Insert(touched, ch.node.value);
          }
        }
      }
      assert e.changes[..|e.changes|] == e.changes;
      assert entries[..i + 1][..i] == entries[..i];
      TouchesOneMore(entries, i);
    }
    assert entries[..|entries|] == entries;
    return Diff(touched, comments, Some(entries[0].hash));
  }

  lemma TouchesOneMore(entries: seq<Commit>, i: nat)
    requires i < |entries|
    ensures forall n :: Touches(entries[..i + 1], n)
                        <==> Touches(entries[..i], n)
                             || exists k :: 0 <= k < |entries[i].changes| && ChangesNode(entries[i].changes[k], n)
  {
    var more, less := entries[..i + 1], entries[..i];
    assert forall k :: 0 <= k < i ==> more[k] == less[k];
    assert more[i] == entries[i];
  }

  // ── Keys and events (mapping.rs) ────────────────────────────────────

  function Short(sha: string): string {
    if |sha| >= 12 then sha[..12] else sha
  }

  function Slot(s: Option<string>): string {
    if s.Some? then s.value else "-"
  }

  function CommentKey(c: Comment): string {
    c.node + ":" + (COMMENT_ADDED + ":" + (Slot(c.author) + ":" + (Slot(c.tag) + ":" + Short(c.hash))))
  }

  /** The payload, as text. */
  function CommentData(c: Comment): string {
    c.node + "|" + Slot(c.tag) + "|" + Slot(c.author) + "|" + c.hash
  }

  function CommentEvent(c: Comment): IngestEvent {
    IngestEvent(Other(COMMENT_ADDED, CommentData(c)), c.node, CommentKey(c))
  }

  /** The event kind of a node's state; a shadowed ready node and any other state have none. */
  function KindOfState(snap: Snapshot): Option<string> {
    if snap.state == "ready" then (if snap.shadowed then None else Some("node.ready"))
    else if snap.state == "claimed" then Some("node.claimed")
    else if snap.state == "integrated" then Some("node.done")
    else None
  }

  function SnapshotEvent(snap: Snapshot, hash: string): Option<IngestEvent> {
    match KindOfState(snap)
    case None => None
    case Some(kind) =>
      Some(IngestEvent(Other(kind, snap.node + "|" + snap.state), snap.node, snap.node + ":" + (kind + ":" + Short(hash))))
  }

  function CommentEvents(cs: seq<Comment>): (r: seq<IngestEvent>)
    ensures |r| == |cs| && forall i :: 0 <= i < |cs| ==> r[i] == CommentEvent(cs[i])
  {
    if cs == [] then [] else CommentEvents(cs[..|cs| - 1]) + [CommentEvent(cs[|cs| - 1])]
  }

  function SnapshotEvents(snaps: seq<Snapshot>, hash: string): seq<IngestEvent> {
    if snaps == [] then []
    else
      var e := SnapshotEvent(snaps[|snaps| - 1], hash);
      SnapshotEvents(snaps[..|snaps| - 1], hash) + (if e.Some? then [e.value] else [])
  }

  predicate NoColon(s: string) {
    ':' !in s
  }

  lemma FirstColon(a: string, b: string, r: string, q: string)
    requires NoColon(a) && NoColon(b)
    ensures a + ":" + r == b + ":" + q <==> a == b && r == q
  {
    if a + ":" + r == b + ":" + q {
      var s := a + ":" + r;
      assert s[|a|] == ':' && s[|b|] == ':';
      assert forall i :: 0 <= i < |a| ==> s[i] == a[i] && a[i] in a;
      assert forall i :: 0 <= i < |b| ==> s[i] == b[i] && b[i] in b;
      assert |a| == |b|;
      assert a == s[..|a|] == b;
      assert r == s[|a| + 1..] == q;
    }
  }

  lemma TailIsNoLonger(a: string, b: string, r: string, q: string)
    requires NoColon(q) && a + ":" + r == b + ":" + q
    ensures |q| <= |r|
  {
    var s, front := a + ":" + r, b + ":";
    assert s[|a|] == ':';
    assert forall i :: |front| <= i < |s| ==> s[i] == q[i - |front|] && q[i - |front|] in q;
    assert |a| < |front|;
  }

  lemma LastColon(a: string, b: string, r: string, q: string)
    requires NoColon(r) && NoColon(q)
    ensures a + ":" + r == b + ":" + q <==> a == b && r == q
  {
    if a + ":" + r == b + ":" + q {
      TailIsNoLonger(a, b, r, q);
      TailIsNoLonger(b, a, q, r);
      SameEnds(a, b, r, q);
    }
  }

  lemma SameEnds(a: string, b: string, r: string, q: string)
    requires |r| == |q| && a + ":" + r == b + ":" + q
    ensures a == b && r == q
  {
    var s := a + ":" + r;
    assert a == s[..|a|] && b == s[..|b|];
    assert r == s[|a| + 1..] && q == s[|b| + 1..];
  }

  function Said(c: Comment): string {
    Slot(c.author) + ":" + Slot(c.tag)
  }

  /**
   Two comments share a key exactly when they agree on node, on author and tag written together, and on the
   first twelve digits of the commit; node names and commits hold no colon. An absent author or tag counts
   as "-", and authors without a colon are told apart from tags.
   */
  lemma CommentKeysAgreeIff(c: Comment, d: Comment)
    requires NoColon(c.node) && NoColon(d.node) && NoColon(Short(c.hash)) && NoColon(Short(d.hash))
    ensures CommentKey(c) == CommentKey(d) <==> c.node == d.node && Said(c) == Said(d) && Short(c.hash) == Short(d.hash)
    ensures NoColon(Slot(c.author)) && NoColon(Slot(d.author)) ==>
              (Said(c) == Said(d) <==> Slot(c.author) == Slot(d.author) && Slot(c.tag) == Slot(d.tag))
  {
    var c2, d2 := Said(c) + ":" + Short(c.hash), Said(d) + ":" + Short(d.hash);
    KeyIsSaid(c);
    KeyIsSaid(d);
    LastColon(Said(c), Said(d), Short(c.hash), Short(d.hash));
    FirstColon(COMMENT_ADDED, COMMENT_ADDED, c2, d2);
    FirstColon(c.node, d.node, COMMENT_ADDED + ":" + c2, COMMENT_ADDED + ":" + d2);
    if NoColon(Slot(c.author)) && NoColon(Slot(d.author)) {
      FirstColon(Slot(c.author), Slot(d.author), Slot(c.tag), Slot(d.tag));
    }
  }

  lemma KeyIsSaid(c: Comment)
    ensures CommentKey(c) == c.node + ":" + (COMMENT_ADDED + ":" + (Said(c) + ":" + Short(c.hash)))
  {
    assert Slot(c.author) + ":" + (Slot(c.tag) + ":" + Short(c.hash)) == Said(c) + ":" + Short(c.hash);
  }

  /** With a colon in a node name, a comment and a node state can share a key, and one of them is lost. */
  lemma ColonsCollide()
    ensures var c := Comment("n", Some("node.ready"), Some("a"), "0123456789ab");
            var s := Snapshot("n:comment.added:a", "ready", [], false);
            SnapshotEvent(s, "0123456789ab").value.key == CommentKey(c)
  {
    var short := "0123456789ab";
    assert Short(short) == short;
    assert "n" + ":" + (COMMENT_ADDED + ":" + ("a" + ":" + ("node.ready" + ":" + short)))
        == "n:comment.added:a" + ":" + ("node.ready" + ":" + short);
  }

  // ── Building batches (main.rs) ──────────────────────────────────────

  ghost predicate DistinctHashes(history: seq<Commit>) {
    forall i, j :: 0 <= i < j < |history| ==> history[i].hash != history[j].hash
  }

  function Position(history: seq<Commit>, hash: string): (r: Option<nat>)
    ensures r.Some? ==> r.value < |history| && history[r.value].hash == hash
    ensures r.None? ==> forall i :: 0 <= i < |history| ==> history[i].hash != hash
  {
    if history == [] then None
    else if history[|history| - 1].hash == hash then Some(|history| - 1)
    else Position(history[..|history| - 1], hash)
  }

  /** Newest first, the commits that changed the graph. */
  function NewestFirst(commits: seq<Commit>): seq<Commit> {
    if commits == [] then []
    else (if commits[|commits| - 1].changes == [] then [] else [commits[|commits| - 1]]) + NewestFirst(commits[..|commits| - 1])
  }

  /** `cx log --since`; it fails if the commit is unknown. */
  function CxLog(history: seq<Commit>, since: string): Option<seq<Commit>> {
    match Position(history, since)
    case None => None
    case Some(i) => Some(NewestFirst(history[i + 1..]))
  }

  function ColdStart(head: string, snaps: seq<Snapshot>): Batch {
    Batch(SOURCE, None, head, SnapshotEvents(snaps, head))
  }

  function Incremental(since: string, entries: seq<Commit>, snaps: seq<Snapshot>): Batch
    requires entries != []
  {
    Batch(SOURCE, Some(since), entries[0].hash, SnapshotEvents(snaps, entries[0].hash) + CommentEvents(CommentsOf(entries)))
  }

  /** The batch a tick posts for a repository in this state, if any; node snapshots are as they happen to be. */
  ghost predicate Builds(history: seq<Commit>, cursor: Option<string>, snaps: seq<Snapshot>, batch: Option<Batch>) {
    match cursor
    case None => history != [] && batch == Some(ColdStart(history[|history| - 1].hash, snaps))
    case Some(since) =>
      && CxLog(history, since).Some?
      && var entries := CxLog(history, since).value;
         batch == if entries == [] then None else Some(Incremental(since, entries, snaps))
  }

  class Watcher {
    const bus: EventBus
    var cursor: Option<string>

    /** On boot the watcher resumes from the stored cursor. */
    constructor (bus: EventBus)
      ensures this.bus == bus && cursor == CursorOf(bus.Stored(), SOURCE)
    {
      this.bus, cursor := bus, CursorOf(bus.Stored(), SOURCE);
    }

    method SnapshotBatch(snaps: seq<Snapshot>, hash: string) returns (events: seq<IngestEvent>)
      ensures events == SnapshotEvents(snaps, hash)
    {
      events := [];
      for i := 0 to |snaps|
        invariant events == SnapshotEvents(snaps[..i], hash)
      {
        assert snaps[..i + 1][..i] == snaps[..i];
        var e := SnapshotEvent(snaps[i], hash);
        if e.Some? {
          events := events + [e.value];
        }
      }
      assert snaps[..|snaps|] == snaps;
    }

    /** Looks up the touched nodes as they are now; a lookup that fails is skipped. */
    method FetchTouched(touched: seq<string>, nodes: map<string, Snapshot>) returns (snaps: seq<Snapshot>)
      ensures forall s :: s in snaps ==> exists n :: n in touched && n in nodes && nodes[n] == s
    {
      snaps := [];
      for i := 0 to |touched|
        invariant forall s :: s in snaps ==> exists n :: n in touched && n in nodes && nodes[n] == s
      {
        var found: bool := *;
        if found && touched[i] in nodes {
          assert touched[i] in touched;
          snaps := snaps + [nodes[touched[i]]];
        }
      }
    }

    method CommentBatch(comments: seq<Comment>) returns (events: seq<IngestEvent>)
      ensures events == CommentEvents(comments)
    {
      events := [];
      for i := 0 to |comments|
        invariant events == CommentEvents(comments[..i])
      {
        assert comments[..i + 1][..i] == comments[..i];
        events := events + [CommentEvent(comments[i])];
      }
      assert comments[..|comments|] == comments;
    }

    method BuildIncremental(since: string, entries: seq<Commit>, nodes: map<string, Snapshot>)
      returns (batch: Option<Batch>, snaps: seq<Snapshot>)
      ensures batch == if entries == [] then None else Some(Incremental(since, entries, snaps))
    {
      var diff := SummariseLogEntries(entries);
      snaps := FetchTouched(diff.touched, nodes);
      if diff.latest.None? {
        return None, snaps;
      }
      var states := SnapshotBatch(snaps, diff.latest.value);
      var said := CommentBatch(diff.comments);
      batch := Some(Batch(SOURCE, Some(since), diff.latest.value, states + said));
    }

    /** Builds the batch of one tick; the repository's tools may fail, and then the tick does. */
    method Build(history: seq<Commit>, list: seq<Snapshot>, nodes: map<string, Snapshot>)
      returns (ok: bool, batch: Option<Batch>, ghost snaps: seq<Snapshot>)
      ensures ok ==> Builds(history, cursor, snaps, batch)
      ensures !ok ==> batch == None
    {
      ok, batch, snaps := false, None, [];
      var fails: bool := *;
      if fails {
        return;
      }
      match cursor
      case None =>
        if history != [] {
          var head := history[|history| - 1].hash;
          // A failing node list counts as an empty one.
          var listed: bool := *;
          var shown := if listed then list else [];
          var events := SnapshotBatch(shown, head);
          ok, batch, snaps := true, Some(Batch(SOURCE, None, head, events)), shown;
        }
      case Some(since) =>
        var entries := CxLog(history, since);
        if entries.Some? {
          var fetched;
          batch, fetched := BuildIncremental(since, entries.value, nodes);
          ok, snaps := true, fetched;
        }
    }

    /**
     One tick. The request or the reply may be lost; the cursor only ever becomes the stored one, and
     the tables change at most as one post of the built batch changes them.
     */
    method Tick(history: seq<Commit>, list: seq<Snapshot>, nodes: map<string, Snapshot>, now: int)
      returns (sent: Option<Batch>, ghost snaps: seq<Snapshot>)
      requires bus.Valid()
      modifies this`cursor, bus`log, bus`nextSeq, bus`keys, bus`cursors, bus`published, bus.projections
      ensures bus.Valid()
      ensures sent.Some? ==> Builds(history, old(cursor), snaps, sent)
      ensures bus.Stored() == old(bus.Stored())
              || (sent.Some? && bus.Stored() == Perform(old(bus.Stored()), Post(sent.value, now, true)))
      ensures cursor == old(cursor) || (sent.Some? && cursor == CursorOf(bus.Stored(), SOURCE))
    {
      var ok;
      ok, sent, snaps := Build(history, list, nodes);
      if sent.None? {
        return;
      }
      var requestLost, replyLost: bool := *, *;
      if requestLost {
        return;
      }
      var r := bus.IngestBatch(sent.value, now);
      if replyLost {
        return;
      }
      match r
      case Ok(_) => cursor := Some(sent.value.after);
      case Err(Storage) =>
      case Err(CursorConflict(_, _)) =>
        var fetched: bool := *;
        if fetched {
          cursor := CursorOf(bus.Stored(), SOURCE);
        }
    }
  }

  // ── Comment keys ────────────────────────────────────────────────────

  ghost predicate CommentIn(c: Comment, commits: seq<Commit>) {
    exists i :: 0 <= i < |commits| && c in CommentsOfChanges(commits[i].hash, commits[i].changes)
  }

  /** Some comment of these commits has the key. */
  ghost predicate KeyIn(key: string, commits: seq<Commit>) {
    exists c :: CommentIn(c, commits) && CommentKey(c) == key
  }

  ghost predicate CommentKeyOf(events: seq<IngestEvent>, key: string) {
    exists i :: 0 <= i < |events| && events[i].body.Other? && events[i].body.kind == COMMENT_ADDED && events[i].key == key
  }

  lemma {:induction false} CommentsAreIn(entries: seq<Commit>, c: Comment)
    ensures c in CommentsOf(entries) <==> CommentIn(c, entries)
  {
    if entries != [] {
      var n := |entries| - 1;
      CommentsAreIn(entries[..n], c);
      assert forall i :: 0 <= i < n ==> entries[..n][i] == entries[i];
      if c in CommentsOfChanges(entries[n].hash, entries[n].changes) {
        assert CommentIn(c, entries);
      }
    }
  }

  predicate Tells(commit: Commit, c: Comment) {
    c in CommentsOfChanges(commit.hash, commit.changes)
  }

  lemma TellsOneMore(first: Commit, rest: seq<Commit>, c: Comment)
    ensures CommentIn(c, [first] + rest) <==> Tells(first, c) || CommentIn(c, rest)
  {
    var all := [first] + rest;
    if CommentIn(c, rest) {
      var i :| 0 <= i < |rest| && c in CommentsOfChanges(rest[i].hash, rest[i].changes);
      assert all[i + 1] == rest[i];
    }
    if Tells(first, c) {
      assert all[0] == first;
    }
  }

  lemma TellsLast(front: seq<Commit>, last: Commit, c: Comment)
    ensures CommentIn(c, front + [last]) <==> CommentIn(c, front) || Tells(last, c)
  {
    var all := front + [last];
    if CommentIn(c, front) {
      var i :| 0 <= i < |front| && c in CommentsOfChanges(front[i].hash, front[i].changes);
      assert all[i] == front[i];
    }
    if Tells(last, c) {
      assert all[|front|] == last;
    }
  }

  lemma {:induction false} ListedComments(commits: seq<Commit>, c: Comment)
    ensures CommentIn(c, NewestFirst(commits)) <==> CommentIn(c, commits)
  {
    if commits != [] {
      var n := |commits| - 1;
      ListedComments(commits[..n], c);
      SplitLast([], commits);
      TellsLast(commits[..n], commits[n], c);
      if commits[n].changes == [] {
        assert NewestFirst(commits) == [] + NewestFirst(commits[..n]) == NewestFirst(commits[..n]);
      } else {
        TellsOneMore(commits[n], NewestFirst(commits[..n]), c);
      }
    }
  }

  lemma KeyInJoin(key: string, a: seq<Commit>, b: seq<Commit>)
    ensures KeyIn(key, a + b) <==> KeyIn(key, a) || KeyIn(key, b)
  {
    var all := a + b;
    if KeyIn(key, a) {
      var c :| CommentIn(c, a) && CommentKey(c) == key;
      var i :| 0 <= i < |a| && c in CommentsOfChanges(a[i].hash, a[i].changes);
      assert all[i] == a[i];
      assert CommentIn(c, all);
    }
    if KeyIn(key, b) {
      var c :| CommentIn(c, b) && CommentKey(c) == key;
      var i :| 0 <= i < |b| && c in CommentsOfChanges(b[i].hash, b[i].changes);
      assert all[|a| + i] == b[i];
      assert CommentIn(c, all);
    }
    if KeyIn(key, all) {
      var c :| CommentIn(c, all) && CommentKey(c) == key;
      var i :| 0 <= i < |all| && c in CommentsOfChanges(all[i].hash, all[i].changes);
      if i < |a| {
        assert CommentIn(c, a);
      } else {
        assert all[i] == b[i - |a|];
        assert CommentIn(c, b);
      }
    }
  }

  /** The key starts with the subject and the kind, neither of which holds a colon. */
  ghost predicate Tidy(e: IngestEvent) {
    e.body.Other? && NoColon(e.subjectId) && NoColon(e.body.kind)
    && exists rest :: e.key == e.subjectId + ":" + (e.body.kind + ":" + rest)
  }

  lemma KeyTellsKind(e: IngestEvent, f: IngestEvent)
    requires Tidy(e) && Tidy(f) && e.key == f.key
    ensures e.subjectId == f.subjectId && e.body.kind == f.body.kind
  {
    var r :| e.key == e.subjectId + ":" + (e.body.kind + ":" + r);
    var q :| f.key == f.subjectId + ":" + (f.body.kind + ":" + q);
    FirstColon(e.subjectId, f.subjectId, e.body.kind + ":" + r, f.body.kind + ":" + q);
    FirstColon(e.body.kind, f.body.kind, r, q);
  }

  ghost predicate AllTidy(events: seq<IngestEvent>) {
    forall i :: 0 <= i < |events| ==> Tidy(events[i])
  }

  ghost predicate CleanSnaps(snaps: seq<Snapshot>) {
    forall i :: 0 <= i < |snaps| ==> NoColon(snaps[i].node)
  }

  predicate CleanCommit(c: Commit) {
    forall i :: 0 <= i < |c.changes| && c.changes[i].node.Some? ==> NoColon(c.changes[i].node.value)
  }

  ghost predicate Clean(commits: seq<Commit>) {
    forall i :: 0 <= i < |commits| ==> CleanCommit(commits[i])
  }

  lemma CommentEventIsTidy(c: Comment)
    requires NoColon(c.node)
    ensures Tidy(CommentEvent(c))
  {
    var rest := Slot(c.author) + ":" + (Slot(c.tag) + ":" + Short(c.hash));
    assert CommentKey(c) == c.node + ":" + (COMMENT_ADDED + ":" + rest);
  }

  lemma {:induction false} SnapshotsAreTidy(snaps: seq<Snapshot>, hash: string)
    requires CleanSnaps(snaps)
    ensures AllTidy(SnapshotEvents(snaps, hash))
    ensures forall key :: !CommentKeyOf(SnapshotEvents(snaps, hash), key)
  {
    if snaps != [] {
      var n := |snaps| - 1;
      SnapshotsAreTidy(snaps[..n], hash);
      var kind := KindOfState(snaps[n]);
      if kind.Some? {
        var e := SnapshotEvent(snaps[n], hash).value;
        assert e.key == e.subjectId + ":" + (e.body.kind + ":" + Short(hash));
        assert e.body.kind[0] == 'n' && COMMENT_ADDED[0] == 'c';
        assert forall key :: !CommentKeyOf([e], key);
        KeysJoin(SnapshotEvents(snaps[..n], hash), [e]);
        assert SnapshotEvents(snaps, hash) == SnapshotEvents(snaps[..n], hash) + [e];
      } else {
        assert SnapshotEvents(snaps, hash) == SnapshotEvents(snaps[..n], hash);
      }
    }
  }

  lemma KeysJoin(a: seq<IngestEvent>, b: seq<IngestEvent>)
    ensures forall key :: CommentKeyOf(a + b, key) <==> CommentKeyOf(a, key) || CommentKeyOf(b, key)
  {
    var all := a + b;
    forall key | CommentKeyOf(a, key) || CommentKeyOf(b, key) ensures CommentKeyOf(all, key) {
      if CommentKeyOf(a, key) {
        var i :| 0 <= i < |a| && a[i].body.Other? && a[i].body.kind == COMMENT_ADDED && a[i].key == key;
        assert all[i] == a[i];
      } else {
        var i :| 0 <= i < |b| && b[i].body.Other? && b[i].body.kind == COMMENT_ADDED && b[i].key == key;
        assert all[|a| + i] == b[i];
      }
    }
  }

  lemma {:induction false} CleanComments(entries: seq<Commit>, c: Comment)
    requires Clean(entries) && CommentIn(c, entries)
    ensures NoColon(c.node)
  {
    var i :| 0 <= i < |entries| && c in CommentsOfChanges(entries[i].hash, entries[i].changes);
    assert entries[i].changes[..|entries[i].changes|] == entries[i].changes;
    CleanChanges(entries[i], |entries[i].changes|, c);
  }

  lemma {:induction false} CleanChanges(commit: Commit, n: nat, c: Comment)
    requires CleanCommit(commit) && n <= |commit.changes| && c in CommentsOfChanges(commit.hash, commit.changes[..n])
    ensures NoColon(c.node)
  {
    assert n > 0;
    assert commit.changes[..n][..n - 1] == commit.changes[..n - 1];
    if c in CommentsOfChanges(commit.hash, commit.changes[..n - 1]) {
      CleanChanges(commit, n - 1, c);
    }
  }

  // ── Batches ─────────────────────────────────────────────────────────

  /** A batch tells exactly the comments between the commits it goes from and to, in this history. */
  ghost predicate WellBuilt(history: seq<Commit>, b: Batch) {
    && b.source == SOURCE && AllTidy(b.events)
    && match b.before
       case None => KnownCommit(history, b.after) && forall key :: !CommentKeyOf(b.events, key)
       case Some(since) => exists p, q :: Spans(history, b, since, p, q)
  }

  ghost predicate KnownCommit(history: seq<Commit>, hash: string) {
    exists q :: 0 <= q < |history| && history[q].hash == hash
  }

  ghost predicate Spans(history: seq<Commit>, b: Batch, since: string, p: nat, q: nat) {
    && p < q < |history| && history[p].hash == since && history[q].hash == b.after
    && forall key :: CommentKeyOf(b.events, key) <==> KeyIn(key, history[p + 1..q + 1])
  }

  lemma KeysOfCommentEvents(entries: seq<Commit>, key: string)
    ensures CommentKeyOf(CommentEvents(CommentsOf(entries)), key) <==> KeyIn(key, entries)
  {
    var cs := CommentsOf(entries);
    var events := CommentEvents(cs);
    if CommentKeyOf(events, key) {
      var i :| 0 <= i < |events| && events[i].body.Other? && events[i].body.kind == COMMENT_ADDED && events[i].key == key;
      CommentsAreIn(entries, cs[i]);
      assert CommentKey(cs[i]) == key;
    }
    if KeyIn(key, entries) {
      var c :| CommentIn(c, entries) && CommentKey(c) == key;
      CommentsAreIn(entries, c);
      var i :| 0 <= i < |cs| && cs[i] == c;
      assert events[i] == CommentEvent(c);
    }
  }

  lemma ListedKeys(commits: seq<Commit>, key: string)
    ensures KeyIn(key, NewestFirst(commits)) <==> KeyIn(key, commits)
  {
    if KeyIn(key, commits) {
      var c :| CommentIn(c, commits) && CommentKey(c) == key;
      ListedComments(commits, c);
    }
    if KeyIn(key, NewestFirst(commits)) {
      var c :| CommentIn(c, NewestFirst(commits)) && CommentKey(c) == key;
      ListedComments(commits, c);
    }
  }

  /** The newest listed commit, and nothing listed after it. */
  lemma {:induction false} NewestIsLast(commits: seq<Commit>) returns (q: nat)
    requires NewestFirst(commits) != []
    ensures q < |commits| && NewestFirst(commits)[0] == commits[q]
    ensures NewestFirst(commits) == NewestFirst(commits[..q + 1])
  {
    var n := |commits| - 1;
    if commits[n].changes != [] {
      assert commits[..n + 1] == commits;
      return n;
    }
    q := NewestIsLast(commits[..n]);
    assert commits[..n][..q + 1] == commits[..q + 1];
  }

  lemma IncrementalSpans(history: seq<Commit>, since: string, snaps: seq<Snapshot>, b: Batch)
    requires Clean(history) && CleanSnaps(snaps) && Builds(history, Some(since), snaps, Some(b))
    ensures WellBuilt(history, b)
  {
    var p := Position(history, since).value;
    var later := history[p + 1..];
    var q := NewestIsLast(later);
    IncrementalTidy(since, later, snaps);
    LaterSpans(history, p, q, b, snaps);
  }

  lemma LaterSpans(history: seq<Commit>, p: nat, q: nat, b: Batch, snaps: seq<Snapshot>)
    requires p + 1 + q < |history| && CleanSnaps(snaps)
    requires var later := history[p + 1..];
             && NewestFirst(later) != [] && NewestFirst(later) == NewestFirst(later[..q + 1])
             && NewestFirst(later)[0] == later[q]
             && b == Incremental(history[p].hash, NewestFirst(later), snaps)
    ensures Spans(history, b, history[p].hash, p, p + 1 + q)
  {
    var later := history[p + 1..];
    assert later[..q + 1] == history[p + 1..p + 1 + q + 1];
    forall key ensures CommentKeyOf(b.events, key) <==> KeyIn(key, history[p + 1..p + 1 + q + 1]) {
      IncrementalKeys(history[p].hash, later, q, snaps, key);
    }
  }

  lemma IncrementalTidy(since: string, later: seq<Commit>, snaps: seq<Snapshot>)
    requires Clean(later) && CleanSnaps(snaps) && NewestFirst(later) != []
    ensures AllTidy(Incremental(since, NewestFirst(later), snaps).events)
  {
    SnapshotsAreTidy(snaps, NewestFirst(later)[0].hash);
    SaidIsTidy(later);
  }

  lemma IncrementalKeys(since: string, later: seq<Commit>, q: nat, snaps: seq<Snapshot>, key: string)
    requires NewestFirst(later) != [] && CleanSnaps(snaps)
    requires q < |later| && NewestFirst(later) == NewestFirst(later[..q + 1])
    ensures CommentKeyOf(Incremental(since, NewestFirst(later), snaps).events, key) <==> KeyIn(key, later[..q + 1])
  {
    var entries := NewestFirst(later);
    SnapshotsAreTidy(snaps, entries[0].hash);
    KeysJoin(SnapshotEvents(snaps, entries[0].hash), CommentEvents(CommentsOf(entries)));
    KeysOfCommentEvents(entries, key);
    ListedKeys(later[..q + 1], key);
  }

  lemma SaidIsTidy(later: seq<Commit>)
    requires Clean(later)
    ensures AllTidy(CommentEvents(CommentsOf(NewestFirst(later))))
  {
    var entries := NewestFirst(later);
    var cs := CommentsOf(entries);
    forall i | 0 <= i < |cs| ensures Tidy(CommentEvent(cs[i])) {
      CommentsAreIn(entries, cs[i]);
      ListedComments(later, cs[i]);
      CleanComments(later, cs[i]);
      CommentEventIsTidy(cs[i]);
    }
  }

  lemma BuiltIsWellBuilt(history: seq<Commit>, cursor: Option<string>, snaps: seq<Snapshot>, b: Batch)
    requires Clean(history) && CleanSnaps(snaps) && Builds(history, cursor, snaps, Some(b))
    ensures WellBuilt(history, b)
  {
    match cursor
    case None =>
      SnapshotsAreTidy(snaps, b.after);
      assert history[|history| - 1].hash == b.after;
    case Some(since) => IncrementalSpans(history, since, snaps, b);
  }

  /** New commits do not change what a batch tells. */
  lemma WellBuiltLater(history: seq<Commit>, more: seq<Commit>, b: Batch)
    requires WellBuilt(history, b) && history <= more
    ensures WellBuilt(more, b)
  {
    match b.before
    case None =>
      var q :| 0 <= q < |history| && history[q].hash == b.after;
      assert more[q] == history[q];
    case Some(since) =>
      var p, q :| Spans(history, b, since, p, q);
      assert more[p + 1..q + 1] == history[p + 1..q + 1];
      assert Spans(more, b, since, p, q);
  }

  // ── Any number of watchers against one server ───────────────────────

  /**
   The repository, what each running watcher believes the cursor to be, every batch put on the wire,
   and the operations the server has performed.
   */
  datatype System = System(history: seq<Commit>, believes: map<nat, Option<string>>, sent: seq<Batch>, ops: seq<Op>)

  const START := System([], map[], [], [])

  datatype Action =
    | Land(commit: Commit)
    | Resume(watcher: nat)
    | Send(watcher: nat, snaps: seq<Snapshot>)
    | Arrive(index: nat, ts: int, commits: bool)
    | Reply(watcher: nat, index: nat)
    | Elsewhere(op: Op)

  /**
   A watcher that starts, restarts after a crash or meets a conflict resumes from the stored cursor; one
   that gets the reply to a committed batch moves on to the end of it, however late the reply. A batch
   itself may arrive late, often or never.
   */
  ghost predicate Steps(s: System, a: Action, s': System) {
    match a
    case Land(c) => CleanCommit(c) && !KnownCommit(s.history, c.hash) && s' == s.(history := s.history + [c])
    case Resume(w) => s' == s.(believes := s.believes[w := CursorOf(Run(s.ops), SOURCE)])
    case Send(w, snaps) =>
      && w in s.believes && CleanSnaps(snaps) && |s'.sent| == |s.sent| + 1
      && Builds(s.history, s.believes[w], snaps, Some(s'.sent[|s.sent|]))
      && s' == s.(sent := s.sent + [s'.sent[|s.sent|]])
    case Arrive(k, ts, commits) => k < |s.sent| && s' == s.(ops := s.ops + [Post(s.sent[k], ts, commits)])
    case Reply(w, k) =>
      && k < |s.sent| && s.sent[k] in AcceptedBatches(s.ops, SOURCE)
      && s' == s.(believes := s.believes[w := Some(s.sent[k].after)])
    case Elsewhere(op) => (op.Post? ==> op.batch.source != SOURCE) && s' == s.(ops := s.ops + [op])
  }

  ghost predicate AllWellBuilt(history: seq<Commit>, batches: seq<Batch>) {
    forall i :: 0 <= i < |batches| ==> WellBuilt(history, batches[i])
  }

  ghost predicate Inv(s: System) {
    && DistinctHashes(s.history) && Clean(s.history)
    && AllWellBuilt(s.history, s.sent) && AllWellBuilt(s.history, AcceptedBatches(s.ops, SOURCE))
  }

  lemma AllWellBuiltLater(history: seq<Commit>, more: seq<Commit>, batches: seq<Batch>)
    requires AllWellBuilt(history, batches) && history <= more
    ensures AllWellBuilt(more, batches)
  {
    forall i | 0 <= i < |batches| ensures WellBuilt(more, batches[i]) {
      WellBuiltLater(history, more, batches[i]);
    }
  }

  lemma AcceptedOneMore(ops: seq<Op>, op: Op)
    ensures AcceptedBatches(ops + [op], SOURCE)
            == AcceptedBatches(ops, SOURCE)
               + (if Accepts(Run(ops), op) && op.batch.source == SOURCE then [op.batch] else [])
  {
    assert (ops + [op])[..|ops|] == ops;
  }

  lemma StepKeepsInv(s: System, a: Action, s': System)
    requires Inv(s) && Steps(s, a, s')
    ensures Inv(s')
  {
    match a
    case Land(c) =>
      AllWellBuiltLater(s.history, s'.history, s.sent);
      AllWellBuiltLater(s.history, s'.history, AcceptedBatches(s.ops, SOURCE));
    case Send(w, snaps) => BuiltIsWellBuilt(s.history, s.believes[w], snaps, s'.sent[|s.sent|]);
    case Arrive(k, ts, commits) => AcceptedOneMore(s.ops, Post(s.sent[k], ts, commits));
    case Elsewhere(op) => AcceptedOneMore(s.ops, op);
    case _ =>
  }

  ghost predicate RunsTo(actions: seq<Action>, s: System)
    decreases |actions|, 0
  {
    if actions == [] then s == START else RunsThen(actions[..|actions| - 1], actions[|actions| - 1], s)
  }

  ghost predicate RunsThen(actions: seq<Action>, a: Action, s: System)
    decreases |actions|, 1
  {
    exists mid :: RunsTo(actions, mid) && Steps(mid, a, s)
  }

  lemma {:induction false} RunKeepsInv(actions: seq<Action>, s: System)
    requires RunsTo(actions, s)
    ensures Inv(s)
  {
    if actions == [] {
      assert AcceptedBatches(START.ops, SOURCE) == [];
    } else {
      var n := |actions| - 1;
      var mid :| RunsTo(actions[..n], mid) && Steps(mid, actions[n], s);
      RunKeepsInv(actions[..n], mid);
      StepKeepsInv(mid, actions[n], s);
    }
  }

  // ── Exactly once ────────────────────────────────────────────────────

  /** Chained batches tell exactly the comments from where the first ended to where the last did. */
  ghost predicate Covers(history: seq<Commit>, batches: seq<Batch>, head: nat, at: nat) {
    && batches != [] && head <= at < |history|
    && history[head].hash == batches[0].after && history[at].hash == batches[|batches| - 1].after
    && forall key :: CommentKeyOf(Concat(batches), key) <==> KeyIn(key, history[head + 1..at + 1])
  }

  lemma {:induction false} ChainCovers(history: seq<Commit>, batches: seq<Batch>) returns (head: nat, at: nat)
    requires DistinctHashes(history) && AllWellBuilt(history, batches) && Chained(batches) && batches != []
    ensures Covers(history, batches, head, at) && AllTidy(Concat(batches))
  {
    var n := |batches| - 1;
    var last := batches[n];
    if n == 0 {
      assert Concat(batches) == last.events;
      var q :| 0 <= q < |history| && history[q].hash == last.after;
      assert history[q + 1..q + 1] == [];
      return q, q;
    }
    var p;
    head, p := ChainCovers(history, batches[..n]);
    at := SpanExtends(history, batches[..n], last, head, p);
    assert batches[..n] + [last] == batches;
  }

  /** A batch from where the chain ended carries the covered range on to where the batch ends. */
  lemma SpanExtends(history: seq<Commit>, front: seq<Batch>, last: Batch, head: nat, p: nat) returns (q: nat)
    requires DistinctHashes(history) && Covers(history, front, head, p)
    requires WellBuilt(history, last) && last.before == Some(history[p].hash)
    ensures Covers(history, front + [last], head, q)
  {
    var p';
    p', q :| Spans(history, last, history[p].hash, p', q);
    assert p' == p;
    assert (front + [last])[..|front|] == front;
    assert history[head + 1..q + 1] == history[head + 1..p + 1] + history[p + 1..q + 1];
    KeysJoin(Concat(front), last.events);
    forall key ensures CommentKeyOf(Concat(front + [last]), key) <==> KeyIn(key, history[head + 1..q + 1]) {
      KeyInJoin(key, history[head + 1..p + 1], history[p + 1..q + 1]);
    }
  }

  ghost predicate DistinctKeys(events: seq<IngestEvent>) {
    forall i, j :: 0 <= i < j < |events| ==> events[i].key != events[j].key
  }

  /** Dropping repeats drops no comment key, since a key tells the event's kind. */
  lemma {:induction false} DedupKeepsCommentKeys(seen: seq<IngestEvent>)
    requires AllTidy(seen)
    ensures var kept := FirstOccurrences(seen);
            && DistinctKeys(kept) && AllTidy(kept) && KeysOf(kept) == KeysOf(seen)
            && forall key :: CommentKeyOf(kept, key) <==> CommentKeyOf(seen, key)
  {
    if seen != [] {
      var n := |seen| - 1;
      var e, before := seen[n], seen[..n];
      DedupKeepsCommentKeys(before);
      SeenOneMore(before, e);
      assert seen == before + [e];
      KeysJoin(before, [e]);
      var kept := FirstOccurrences(before);
      if e.key in KeysOf(before) {
        assert e.key in KeysOf(kept);
        var i :| 0 <= i < |kept| && kept[i].key == e.key;
        KeyTellsKind(kept[i], e);
        assert FirstOccurrences(seen) == kept;
      } else {
        KeysJoin(kept, [e]);
        assert FirstOccurrences(seen) == kept + [e];
        LastKeyIsNew(kept, e);
      }
    }
  }

  lemma LastKeyIsNew(kept: seq<IngestEvent>, e: IngestEvent)
    requires DistinctKeys(kept) && e.key !in KeysOf(kept)
    ensures DistinctKeys(kept + [e]) && KeysOf(kept + [e]) == KeysOf(kept) + {e.key}
  {
    SeenOneMore(kept, e);
    assert forall i :: 0 <= i < |kept| ==> kept[i].key in KeysOf(kept);
  }

  /**
   Whatever is lost, delayed, repeated or refused, and however many watchers run: what the log holds
   from cx is a sequence of events with different keys, and their comment keys are exactly those of the
   commits after the cold-start head up to the stored cursor.
   */
  lemma CommentsExactlyOnce(actions: seq<Action>, s: System)
    requires RunsTo(actions, s)
    ensures var kept, batches := FirstOccurrences(Concat(AcceptedBatches(s.ops, SOURCE))), AcceptedBatches(s.ops, SOURCE);
            && FromSource(Run(s.ops).log, SOURCE) == ContentsOf(kept) && DistinctKeys(kept)
            && if CursorOf(Run(s.ops), SOURCE) == None then kept == []
               else exists head, at :: ToldBetween(s.history, kept, batches, CursorOf(Run(s.ops), SOURCE), head, at)
  {
    RunKeepsInv(actions, s);
    var batches := AcceptedBatches(s.ops, SOURCE);
    var kept := FirstOccurrences(Concat(batches));
    LogIsDedupOfAccepted(s.ops, SOURCE);
    AcceptedBatchesChain(s.ops, SOURCE);
    if batches != [] {
      var head, at := ChainCovers(s.history, batches);
      DedupKeepsCommentKeys(Concat(batches));
      assert ToldBetween(s.history, kept, batches, CursorOf(Run(s.ops), SOURCE), head, at);
    }
  }

  /** The kept comment keys are those of the commits after `head`, where the cold start ended, up to the cursor. */
  ghost predicate ToldBetween(history: seq<Commit>, kept: seq<IngestEvent>, batches: seq<Batch>, cursor: Option<string>,
                              head: nat, at: nat) {
    && head <= at < |history| && cursor == Some(history[at].hash)
    && batches != [] && batches[0].before == None && batches[0].after == history[head].hash
    && forall key :: CommentKeyOf(kept, key) <==> KeyIn(key, history[head + 1..at + 1])
  }
}
