/**
 Failure-signal scan of a step's log (ox-runner/src/scan.rs): each signal is matched against the tail
 of the log, cut to whole UTF-8 characters. Patterns are foreign: `find` returns the byte range of a
 pattern's first match in a text, if any.
 */
module LogScan {
  import opened Prelude

  type Byte = x: int | 0 <= x < 256

  type Bytes = seq<Byte>

  const NEWLINE: Byte := 10

  // ── UTF-8, section 4 of RFC 3629 ────────────────────────────────────

  /** A byte that continues a character and cannot start one. */
  predicate Continues(b: Byte) {
    0x80 <= b <= 0xBF
  }

  /** The second byte allowed after a given first byte of a character of three or four bytes. */
  predicate SecondAfter(first: Byte, second: Byte) {
    Continues(second)
    && (first == 0xE0 ==> 0xA0 <= second)
    && (first == 0xED ==> second <= 0x9F)
    && (first == 0xF0 ==> 0x90 <= second)
    && (first == 0xF4 ==> second <= 0x8F)
  }

  /** The length of the well-formed character at the front, or 0 if there is none. */
  function CharLength(s: Bytes): (n: nat)
    ensures n <= 4 && n <= |s|
    ensures forall i :: 0 < i < n ==> Continues(s[i])
    ensures n > 0 ==> !Continues(s[0])
  {
    if s == [] then 0
    else if s[0] <= 0x7F then 1
    else if 0xC2 <= s[0] <= 0xDF && |s| >= 2 && Continues(s[1]) then 2
    else if 0xE0 <= s[0] <= 0xEF && |s| >= 3 && SecondAfter(s[0], s[1]) && Continues(s[2]) then 3
    else if 0xF0 <= s[0] <= 0xF4 && |s| >= 4 && SecondAfter(s[0], s[1]) && Continues(s[2]) && Continues(s[3]) then 4
    else 0
  }

  predicate ValidUtf8(s: Bytes) {
    s == [] || (CharLength(s) > 0 && ValidUtf8(s[CharLength(s)..]))
  }

  /** A character of `s` starts at `i`, or `s` ends there. */
  predicate Boundary(s: Bytes, i: nat)
    decreases i
  {
    i == 0 || (0 < CharLength(s) <= i && Boundary(s[CharLength(s)..], i - CharLength(s)))
  }

  // ── The tail of a log ───────────────────────────────────────────────

  /** The last `n` bytes, or all of them. */
  function TailSuffix(bytes: Bytes, n: nat): (r: Bytes)
    ensures |r| == Min(|bytes|, n) && r == bytes[|bytes| - |r|..]
  {
    bytes[if |bytes| <= n then 0 else |bytes| - n..]
  }

  /** The suffix from the first of the given skips on that is valid, or nothing. */
  function FirstValidFrom(bytes: Bytes, skip: nat): Bytes
    decreases 4 - skip
  {
    if skip >= Min(|bytes|, 4) then []
    else if ValidUtf8(bytes[skip..]) then bytes[skip..]
    else FirstValidFrom(bytes, skip + 1)
  }

  /** The text a signal with this tail size is matched against. */
  function TextOf(log: Bytes, tailBytes: nat): Bytes {
    FirstValidFrom(TailSuffix(log, tailBytes), 0)
  }

  method DropPartialUtf8Prefix(bytes: Bytes) returns (text: Bytes)
    ensures text == FirstValidFrom(bytes, 0)
  {
    for skip := 0 to Min(|bytes|, 4)
      invariant FirstValidFrom(bytes, 0) == FirstValidFrom(bytes, skip)
    {
      if ValidUtf8(bytes[skip..]) {
        return bytes[skip..];
      }
    }
    text := [];
  }

  /** The first boundary of a valid text at or after `start`: only continuation bytes lie between. */
  lemma {:induction false} NextBoundary(s: Bytes, start: nat) returns (b: nat)
    requires ValidUtf8(s) && start <= |s|
    ensures start <= b <= |s| && b <= start + 3
    ensures Boundary(s, b) && ValidUtf8(s[b..])
    ensures forall i :: start <= i < b ==> Continues(s[i]) && !Boundary(s, i)
    decreases start
  {
    var n := CharLength(s);
    if start == 0 {
      assert s[0..] == s;
      return 0;
    }
    if start <= n {
      assert Boundary(s[n..], 0);
      return n;
    }
    var c := NextBoundary(s[n..], start - n);
    b := n + c;
    assert s[n..][c..] == s[b..];
    forall i | start <= i < b ensures Continues(s[i]) && !Boundary(s, i) {
      assert s[i] == s[n..][i - n];
    }
  }

  lemma StartsWithContinuation(s: Bytes)
    requires s != [] && Continues(s[0])
    ensures !ValidUtf8(s)
  {
  }

  lemma SkipsToValid(bytes: Bytes, skip: nat, good: nat)
    requires skip <= good <= |bytes| && good <= 3 && ValidUtf8(bytes[good..])
    requires forall i :: 0 <= i < good ==> Continues(bytes[i])
    ensures FirstValidFrom(bytes, skip) == bytes[good..]
    decreases good - skip
  {
    if skip < good {
      StartsWithContinuation(bytes[skip..]);
      SkipsToValid(bytes, skip + 1, good);
    }
  }

  /**
   For a valid log, the text is the log from its first character boundary within the last `tailBytes`
   bytes: exactly the whole characters there.
   */
  lemma TextIsWholeCharacters(log: Bytes, tailBytes: nat) returns (b: nat)
    requires ValidUtf8(log)
    ensures b <= |log| && Boundary(log, b) && |log| - b <= tailBytes
    ensures forall c: nat :: c <= |log| && Boundary(log, c) && |log| - c <= tailBytes ==> b <= c
    ensures TextOf(log, tailBytes) == log[b..] && ValidUtf8(log[b..])
  {
    var start := |log| - Min(|log|, tailBytes);
    b := NextBoundary(log, start);
    SkipsInTail(log, start, b);
  }

  lemma SkipsInTail(log: Bytes, start: nat, b: nat)
    requires start <= b <= |log| && b <= start + 3 && ValidUtf8(log[b..])
    requires forall i :: start <= i < b ==> Continues(log[i])
    ensures FirstValidFrom(log[start..], 0) == log[b..]
  {
    var tail := log[start..];
    assert tail[b - start..] == log[b..];
    assert forall i :: 0 <= i < b - start ==> tail[i] == log[start + i];
    SkipsToValid(tail, 0, b - start);
  }

  /** A tail is read at all exactly if it is valid after dropping at most three bytes. */
  lemma {:induction false} ReadsSomethingIff(bytes: Bytes, skip: nat)
    ensures FirstValidFrom(bytes, skip) != [] <==> exists k: nat :: skip <= k < Min(|bytes|, 4) && ValidUtf8(bytes[k..])
    decreases 4 - skip
  {
    if skip < Min(|bytes|, 4) && !ValidUtf8(bytes[skip..]) {
      ReadsSomethingIff(bytes, skip + 1);
    }
  }

  /** One byte that no character contains, past the first three of a tail, hides the whole tail from every signal. */
  lemma BadByteHidesTail(log: Bytes, tailBytes: nat, i: nat)
    requires i < |TailSuffix(log, tailBytes)| && i >= 3 && TailSuffix(log, tailBytes)[i] == 0xFF
    ensures TextOf(log, tailBytes) == []
  {
    var tail := TailSuffix(log, tailBytes);
    ReadsSomethingIff(tail, 0);
    forall k: nat | k < Min(|tail|, 4) ensures !ValidUtf8(tail[k..]) {
      assert tail[k..][i - k] == 0xFF;
      NoCharHasBadByte(tail[k..], i - k);
    }
  }

  lemma {:induction false} NoCharHasBadByte(s: Bytes, i: nat)
    requires i < |s| && s[i] == 0xFF
    ensures !ValidUtf8(s)
    decreases i
  {
    var n := CharLength(s);
    if 0 < n <= i {
      assert s[n..][i - n] == 0xFF;
      NoCharHasBadByte(s[n..], i - n);
    }
  }

  // ── Lines ───────────────────────────────────────────────────────────

  /** Just after the last newline before `i`, or the start. */
  function LineStart(text: Bytes, i: nat): (r: nat)
    requires i <= |text|
    ensures r <= i && NEWLINE !in text[r..i]
    ensures r > 0 ==> text[r - 1] == NEWLINE
  {
    if i == 0 || text[i - 1] == NEWLINE then i
    else
      var r := LineStart(text, i - 1);
      assert text[r..i] == text[r..i - 1] + [text[i - 1]];
      r
  }

  /** The first newline at or after `i`, or the end. */
  function LineEnd(text: Bytes, i: nat): (r: nat)
    requires i <= |text|
    ensures i <= r <= |text| && NEWLINE !in text[i..r]
    ensures r < |text| ==> text[r] == NEWLINE
    decreases |text| - i
  {
    if i == |text| || text[i] == NEWLINE then i
    else
      var r := LineEnd(text, i + 1);
      assert text[i..r] == [text[i]] + text[i + 1..r];
      r
  }

  type Range = (nat, nat)

  /** The match, extended to the nearest newline on each side. */
  function EnclosingLine(text: Bytes, range: Range): Bytes
    requires range.0 <= range.1 <= |text|
  {
    text[LineStart(text, range.0)..LineEnd(text, range.1)]
  }

  /** The enclosing line is the only stretch around a match that neither starts nor ends inside a line. */
  lemma EnclosingLineIsUnique(text: Bytes, range: Range, a: nat, b: nat)
    requires a <= range.0 <= range.1 <= b <= |text|
    requires NEWLINE !in text[a..range.0] && NEWLINE !in text[range.1..b]
    requires (a > 0 ==> text[a - 1] == NEWLINE) && (b < |text| ==> text[b] == NEWLINE)
    ensures EnclosingLine(text, range) == text[a..b]
  {
    var r, e := LineStart(text, range.0), LineEnd(text, range.1);
    NoneBetween(text, a, range.0);
    NoneBetween(text, r, range.0);
    NoneBetween(text, range.1, b);
    NoneBetween(text, range.1, e);
    assert r == a && e == b;
  }

  lemma NoneBetween(text: Bytes, a: nat, b: nat)
    requires a <= b <= |text| && NEWLINE !in text[a..b]
    ensures forall k :: a <= k < b ==> text[k] != NEWLINE
  {
    assert forall k :: a <= k < b ==> text[k] == text[a..b][k - a];
  }

  // ── The scan ────────────────────────────────────────────────────────

  datatype Signal = Signal(name: string, pattern: string, tailBytes: nat, retriable: bool)

  datatype Match = Match(name: string, line: Bytes, retriable: bool)

  type Finder = (string, Bytes) -> Option<Range>

  ghost predicate Sound(find: Finder) {
    forall pattern, text :: find(pattern, text).Some? ==>
      find(pattern, text).value.0 <= find(pattern, text).value.1 <= |text|
  }

  /** What one signal reports, from its own tail of the log. */
  function Report(log: Bytes, signal: Signal, find: Finder): seq<Match>
    requires Sound(find)
  {
    var text := TextOf(log, signal.tailBytes);
    match find(signal.pattern, text)
    case Some(range) => [Match(signal.name, EnclosingLine(text, range), signal.retriable)]
    case None => []
  }

  function Reports(log: Bytes, signals: seq<Signal>, find: Finder): seq<Match>
    requires Sound(find)
  {
    if signals == [] then []
    else Reports(log, signals[..|signals| - 1], find) + Report(log, signals[|signals| - 1], find)
  }

  /** A suffix of a longer tail is the tail itself. */
  lemma TailOfTail(log: Bytes, max: nat, n: nat)
    requires n <= max
    ensures TailSuffix(TailSuffix(log, max), n) == TailSuffix(log, n)
  {
  }

  /**
   Reads the log once, for the largest tail, and reports at most one match per signal, in order: each
   from its own tail, whatever the sizes of the others. An unreadable log reports nothing.
   */
  method ScanFailureSignals(log: Option<Bytes>, signals: seq<Signal>, find: Finder) returns (out: seq<Match>)
    requires Sound(find)
    ensures out == if log.Some? then Reports(log.value, signals, find) else []
  {
    if signals == [] {
      return [];
    }
    var maxTail := 0;
    for i := 0 to |signals|
      invariant forall j :: 0 <= j < i ==> signals[j].tailBytes <= maxTail
    {
      if signals[i].tailBytes > maxTail {
        maxTail := signals[i].tailBytes;
      }
    }
    if log.None? {
      return [];
    }
    var bytes := TailSuffix(log.value, maxTail);
    out := [];
    for i := 0 to |signals|
      invariant out == Reports(log.value, signals[..i], find)
    {
      assert signals[..i + 1][..i] == signals[..i];
      var suffix := TailSuffix(bytes, signals[i].tailBytes);
      TailOfTail(log.value, maxTail, signals[i].tailBytes);
      var text := DropPartialUtf8Prefix(suffix);
      var found := find(signals[i].pattern, text);
      if found.Some? {
        out := out + [Match(signals[i].name, EnclosingLine(text, found.value), signals[i].retriable)];
      }
    }
    assert signals[..|signals|] == signals;
  }
}
