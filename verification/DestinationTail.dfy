/** `_read_ai_destination_metrics`: the state one scrape leaves for the next. */
module DestinationTail {
  import opened Wrappers
  import opened Lines
  import opened DestinationMetrics

  /** What the line parser yields; without a time stamp of its own the scrape time is recorded. */
  datatype Parsed = Parsed(stamp: Option<int>, key: nat)

  type Parser = seq<Byte> -> Option<Parsed>

  function CompleteLines(text: seq<Byte>): seq<seq<Byte>> {
    LinesIn(text, 0, Complete(text))
  }

  /** The events of lines `skip` to `n`, line `i` having been read at time `nows[i]`. */
  function Recorded(parse: Parser, lines: seq<seq<Byte>>, nows: seq<int>, skip: nat, n: nat): seq<Event>
    requires n <= |lines| == |nows|
    decreases n
  {
    if n <= skip then []
    else match parse(lines[n - 1])
      case None => Recorded(parse, lines, nows, skip, n - 1)
      case Some(p) => Recorded(parse, lines, nows, skip, n - 1) + [Event(p.stamp.GetOr(nows[n - 1]), p.key)]
  }

  lemma {:induction false} RecordedOfPrefix(parse: Parser, lines: seq<seq<Byte>>, nows: seq<int>,
                                            lines': seq<seq<Byte>>, nows': seq<int>, skip: nat, n: nat)
    requires n <= |lines| == |nows| <= |lines'| == |nows'|
    requires forall i :: 0 <= i < n ==> lines'[i] == lines[i] && nows'[i] == nows[i]
    ensures Recorded(parse, lines', nows', skip, n) == Recorded(parse, lines, nows, skip, n)
    decreases n
  {
    if n > skip { RecordedOfPrefix(parse, lines, nows, lines', nows', skip, n - 1); }
  }

  // ---- Lines across reads ----

  lemma FirstLineOfWindow(data: seq<Byte>, o: nat, window: seq<Byte>, k: nat, e: nat)
    requires WindowAt(data, o, window) && k < |window| && e == LineEnd(window, k, |window|)
    ensures LineEnd(data, o + k, o + |window|) == o + e && Bytes(data, o + k, o + e) == Bytes(window, k, e)
  {
    LineEndInWindow(data, o, window, k);
    SameBytes(data, o, window, k, e);
  }

  lemma FirstThenRest(data: seq<Byte>, k: nat, e: nat, end: nat, first: seq<Byte>, rest: seq<seq<Byte>>)
    requires k < end <= |data| && e == LineEnd(data, k, end) && first == Bytes(data, k, e)
    requires rest == LinesIn(data, e, end)
    ensures LinesIn(data, k, end) == [first] + rest
  {
  }

  lemma {:induction false} LinesOfWindow(data: seq<Byte>, o: nat, window: seq<Byte>, k: nat)
    requires WindowAt(data, o, window) && k <= |window|
    ensures LinesIn(data, o + k, o + |window|) == LinesIn(window, k, |window|)
    decreases |window| - k
  {
    if k < |window| {
      var e := LineEnd(window, k, |window|);
      FirstLineOfWindow(data, o, window, k, e);
      LinesOfWindow(data, o, window, e);
      var first, rest := Bytes(window, k, e), LinesIn(window, e, |window|);
      FirstThenRest(data, o + k, o + e, o + |window|, first, rest);
      FirstThenRest(window, k, e, |window|, first, rest);
    }
  }

  lemma {:induction false} SameBytes(data: seq<Byte>, o: nat, window: seq<Byte>, k: nat, e: nat)
    requires WindowAt(data, o, window) && k <= e <= |window|
    ensures Bytes(data, o + k, o + e) == Bytes(window, k, e)
    decreases e - k
  {
    if k < e { SameBytes(data, o, window, k + 1, e); }
  }

  /** The unterminated rest of a text. */
  function Tail(text: seq<Byte>): seq<Byte> {
    Bytes(text, Complete(text), |text|)
  }

  /** `text'` continues `text`; `pending` is its unterminated rest with the new chunk. */
  ghost predicate Continues(text: seq<Byte>, text': seq<Byte>, pending: seq<Byte>) {
    WindowAt(text', 0, text) && WindowAt(text', Complete(text), pending) && Complete(text) + |pending| == |text'|
  }

  lemma ChunkContinues(text: seq<Byte>, chunk: seq<Byte>)
    ensures Continues(text, text + chunk, Tail(text) + chunk)
  {
    BytesAreWindow(text, Complete(text), |text|);
  }

  /** The rest of the longer text is the rest of what was pending. */
  lemma TailContinues(text: seq<Byte>, text': seq<Byte>, pending: seq<Byte>)
    requires Continues(text, text', pending) && Boundary(text', Complete(text))
    ensures Complete(text') == Complete(text) + Complete(pending) && Tail(text') == Tail(pending)
  {
    CompleteInWindow(text', Complete(text), pending);
    SameBytes(text', Complete(text), pending, Complete(pending), |pending|);
  }

  lemma BoundaryContinues(text: seq<Byte>, text': seq<Byte>)
    requires WindowAt(text', 0, text)
    ensures Boundary(text', Complete(text))
  {
    var b := Complete(text);
    if b > 0 { assert text'[b - 1] == text[b - 1]; }
  }

  lemma CompleteLinesOfWindow(data: seq<Byte>, o: nat, window: seq<Byte>)
    requires WindowAt(data, o, window)
    ensures LinesIn(data, o, o + Complete(window)) == CompleteLines(window)
  {
    var front := Bytes(window, 0, Complete(window));
    BytesAreWindow(window, 0, Complete(window));
    forall i | 0 <= i < |front| ensures front[i] == data[o + i] { assert front[i] == window[i]; }
    var k := 0;
    LinesOfWindow(data, o, front, k);
    LinesOfWindow(window, 0, front, k);
    assert o + k == o && 0 + |front| == Complete(window);
  }

  /** What a chunk adds to the complete lines is the complete lines of what was pending. */
  lemma LinesContinue(text: seq<Byte>, text': seq<Byte>, pending: seq<Byte>)
    requires Continues(text, text', pending) && NoCrLf(text')
    ensures CompleteLines(text') == CompleteLines(text) + CompleteLines(pending)
  {
    var b, start := Complete(text), 0;
    BoundaryContinues(text, text');
    TailContinues(text, text', pending);
    LinesOfCleanCut(text', start, b, Complete(text'));
    CompleteLinesOfWindow(text', b, pending);
    CompleteLinesOfWindow(text', start, text);
  }

  lemma SplitPending(pending: seq<Byte>)
    requires NoCrLf(pending)
    ensures Whole(pending) ==> SplitLines(pending) == CompleteLines(pending)
    ensures !Whole(pending) ==> SplitLines(pending) == CompleteLines(pending) + [Tail(pending)]
  {
    var c, start := Complete(pending), 0;
    if Whole(pending) {
      BoundaryAtMostLast(pending, |pending|, |pending|);
    } else {
      LinesOfCleanCut(pending, start, c, |pending|);
      LineWithoutEnd(pending, c, |pending|);
      assert LinesIn(pending, c, |pending|) == [Tail(pending)] + LinesIn(pending, |pending|, |pending|);
    }
  }

  lemma WindowHasNoPair(content: seq<Byte>, o: nat, window: seq<Byte>)
    requires NoCrLf(content) && WindowAt(content, o, window)
    ensures NoCrLf(window)
  {
    forall p ensures !SplitsPair(window, p) { assert !SplitsPair(content, o + p); }
  }

  lemma PendingLines(text: seq<Byte>, text': seq<Byte>, pending: seq<Byte>)
    requires Continues(text, text', pending) && NoCrLf(text')
    ensures NoCrLf(pending) && Tail(text') == Tail(pending)
    ensures LinesFollow(CompleteLines(text), CompleteLines(pending), CompleteLines(text'))
  {
    BoundaryContinues(text, text');
    LinesContinue(text, text', pending);
    TailContinues(text, text', pending);
    WindowHasNoPair(text', Complete(text), pending);
  }

  /** `all` is `before` followed by `lines`. */
  ghost predicate LinesFollow(before: seq<seq<Byte>>, lines: seq<seq<Byte>>, all: seq<seq<Byte>>) {
    && |all| == |before| + |lines| && (forall i :: 0 <= i < |before| ==> all[i] == before[i])
    && (forall i :: 0 <= i < |lines| ==> all[|before| + i] == lines[i])
  }

  /** The times for `n` lines, those beyond the known ones having been read `now`. */
  function Stamped(nows: seq<int>, now: int, n: nat): (r: seq<int>)
    ensures |r| == n && forall i :: 0 <= i < n ==> r[i] == if i < |nows| then nows[i] else now
  {
    seq(n, i requires 0 <= i < n => if i < |nows| then nows[i] else now)
  }

  // ---- What one scrape reads ----

  /**
   How a log was read so far: from byte `start` up to `offset`, which gave `text`; when each complete line was
   read; how many lines at the front were dropped.
   */
  datatype Reading = Reading(inode: Option<nat>, offset: nat, start: nat, text: seq<Byte>, nows: seq<int>, skip: nat)

  predicate StartsOver(s: Reading, inode: nat, size: nat) {
    s.inode != Some(inode) || size < s.offset
  }

  /** A rotated or truncated log starts over. */
  function Resumed(s: Reading, inode: nat, size: nat): Reading {
    if StartsOver(s, inode, size) then Reading(Some(inode), 0, 0, [], [], 0) else s
  }

  /** A long log is tailed from its last chunk when nothing of it was read yet. */
  predicate Tailed(s: Reading, chunkBytes: nat, size: nat) {
    s.offset == 0 && size > chunkBytes
  }

  function ReadFrom(s: Reading, chunkBytes: nat, size: nat): nat {
    if Tailed(s, chunkBytes, size) then size - chunkBytes else s.offset
  }

  function ReadTo(from: nat, chunkBytes: nat, size: nat): nat {
    if from + chunkBytes < size then from + chunkBytes else size
  }

  /** The next chunk behind what was read, with the time for each line that it completes. */
  function Scraped(s: Reading, chunkBytes: nat, inode: nat, content: seq<Byte>, now: int): Reading {
    var kept := Resumed(s, inode, |content|);
    var from := ReadFrom(kept, chunkBytes, |content|);
    var end := ReadTo(from, chunkBytes, |content|);
    var tailed := Tailed(kept, chunkBytes, |content|);
    ReadOn(kept.(start := if tailed then from else kept.start), end, kept.text + Bytes(content, from, end), now, tailed)
  }

  /** With more text, more lines are complete; the first line of a tailed log may be cut and is dropped. */
  function ReadOn(s: Reading, end: nat, text: seq<Byte>, now: int, tailed: bool): Reading {
    var n := |CompleteLines(text)|;
    s.(offset := end, text := text, nows := Stamped(s.nows, now, n), skip := if tailed && n > 0 then 1 else s.skip)
  }

  // ---- Runs of scrapes of one growing log ----

  /** Each version of the log extends the one before. */
  ghost predicate Growing(versions: seq<seq<Byte>>) {
    forall i, j :: 0 <= i <= j < |versions| ==> WindowAt(versions[j], 0, versions[i])
  }

  const UNREAD := Reading(None, 0, 0, [], [], 0)

  /** The reading after `n` scrapes of the versions at the given times. */
  function ScrapedAll(chunkBytes: nat, inode: nat, versions: seq<seq<Byte>>, times: seq<int>, n: nat): Reading
    requires n <= |versions| == |times|
  {
    if n == 0 then UNREAD
    else Scraped(ScrapedAll(chunkBytes, inode, versions, times, n - 1), chunkBytes, inode, versions[n - 1],
                 times[n - 1])
  }

  /** Everything from `start` to `offset` was read, once and in order. */
  ghost predicate ReadsOf(s: Reading, content: seq<Byte>) {
    s.offset == s.start + |s.text| && WindowAt(content, s.start, s.text)
  }

  lemma ReadsOfGrown(s: Reading, a: seq<Byte>, b: seq<Byte>)
    requires ReadsOf(s, a) && WindowAt(b, 0, a)
    ensures ReadsOf(s, b)
  {
    forall i | 0 <= i < |s.text| ensures s.text[i] == b[s.start + i] {
      assert a[s.start + i] == b[0 + (s.start + i)];
    }
  }

  lemma ScrapeReadsOn(s: Reading, chunkBytes: nat, inode: nat, content: seq<Byte>, now: int)
    requires s == UNREAD || (s.inode == Some(inode) && ReadsOf(s, content))
    ensures var r := Scraped(s, chunkBytes, inode, content, now);
      && r.inode == Some(inode) && ReadsOf(r, content)
      && r.offset == ReadTo(ReadFrom(s, chunkBytes, |content|), chunkBytes, |content|)
      && (s.offset > 0 ==> r.start == s.start)
  {
    var kept := Resumed(s, inode, |content|);
    var from := ReadFrom(kept, chunkBytes, |content|);
    var end := ReadTo(from, chunkBytes, |content|);
    TextReadsOn(kept.start, kept.text, content, from, end, Tailed(kept, chunkBytes, |content|));
  }

  /** Text that was read up to `from`, or none, and the bytes behind it. */
  lemma TextReadsOn(start: nat, text: seq<Byte>, content: seq<Byte>, from: nat, end: nat, tailed: bool)
    requires from <= end <= |content| && WindowAt(content, start, text)
    requires if tailed then text == [] else from == start + |text|
    ensures var start', text' := if tailed then from else start, text + Bytes(content, from, end);
      end == start' + |text'| && WindowAt(content, start', text')
  {
    BytesAreWindow(content, from, end);
  }

  /**
   Over every run of scrapes of a growing log, whatever the chunk size: what was read is exactly one part of
   the log, without gap or repetition, and the tail starts where the first bytes were read.
   */
  lemma {:induction false} ScrapesReadOnePart(chunkBytes: nat, inode: nat, versions: seq<seq<Byte>>, times: seq<int>,
                                              n: nat)
    requires 0 < n <= |versions| == |times| && Growing(versions)
    ensures var r := ScrapedAll(chunkBytes, inode, versions, times, n);
      r.inode == Some(inode) && ReadsOf(r, versions[n - 1])
    ensures n > 1 && ScrapedAll(chunkBytes, inode, versions, times, n - 1).offset > 0 ==>
      var s := ScrapedAll(chunkBytes, inode, versions, times, n - 1);
      var r := ScrapedAll(chunkBytes, inode, versions, times, n);
      r.start == s.start && s.offset <= r.offset
  {
    var s := ScrapedAll(chunkBytes, inode, versions, times, n - 1);
    if n > 1 {
      ScrapesReadOnePart(chunkBytes, inode, versions, times, n - 1);
      ReadsOfGrown(s, versions[n - 2], versions[n - 1]);
    }
    ScrapeReadsOn(s, chunkBytes, inode, versions[n - 1], times[n - 1]);
  }

  /** Each scrape of such a run reads the next chunk, up to the end of the log. */
  lemma OneMoreScrape(chunkBytes: nat, inode: nat, versions: seq<seq<Byte>>, times: seq<int>, n: nat)
    requires 1 < n <= |versions| == |times| && Growing(versions)
    ensures var s := ScrapedAll(chunkBytes, inode, versions, times, n - 1);
      var r := ScrapedAll(chunkBytes, inode, versions, times, n);
      s.offset > 0 ==> r.offset == ReadTo(s.offset, chunkBytes, |versions[n - 1]|)
  {
    var s := ScrapedAll(chunkBytes, inode, versions, times, n - 1);
    ScrapesReadOnePart(chunkBytes, inode, versions, times, n - 1);
    ReadsOfGrown(s, versions[n - 2], versions[n - 1]);
    ScrapeReadsOn(s, chunkBytes, inode, versions[n - 1], times[n - 1]);
  }

  // ---- The state between scrapes ----

  ghost predicate Timed(s: Reading) {
    |s.nows| == |CompleteLines(s.text)| && s.skip <= |s.nows|
  }

  /** The events of all complete lines read so far. */
  function RecordedOf(parse: Parser, s: Reading): seq<Event>
    requires Timed(s)
  {
    Recorded(parse, CompleteLines(s.text), s.nows, s.skip, |s.nows|)
  }

  class DestinationLog {
    const parse: Parser
    const chunkBytes: nat
    const windowSeconds: int
    const maxLabels: nat

    var inode: Option<nat>
    var offset: nat
    var partial: seq<Byte>
    var events: seq<Event>

    /** What was read, every event recorded, how many of those were pruned, the last scrape. */
    ghost var reading: Reading
    ghost var recorded: seq<Event>
    ghost var pruned: nat
    ghost var lastNow: int

    /** The queue is what `all` has left behind the pruned events. */
    ghost predicate Kept(all: seq<Event>)
      reads this
    {
      pruned <= |all| && |events| == |all| - pruned && forall i :: 0 <= i < |events| ==> events[i] == all[pruned + i]
    }

    ghost predicate Valid()
      reads this
    {
      && inode == reading.inode && offset == reading.offset == reading.start + |reading.text|
      && partial == Tail(reading.text) && Timed(reading) && recorded == RecordedOf(parse, reading) && Kept(recorded)
      && (forall i :: 0 <= i < pruned ==> recorded[i].timestamp < lastNow - windowSeconds)
    }

    constructor (parse: Parser, chunkBytes: nat, windowSeconds: int, maxLabels: nat)
      ensures Valid() && reading == UNREAD
      ensures this.parse == parse && this.chunkBytes == chunkBytes
      ensures this.windowSeconds == windowSeconds && this.maxLabels == maxLabels
    {
      this.parse, this.chunkBytes, this.windowSeconds, this.maxLabels := parse, chunkBytes, windowSeconds, maxLabels;
      inode, offset, partial, events := None, 0, [], [];
      reading, recorded, pruned, lastNow := UNREAD, [], 0, 0;
    }

    method Reset(inode: nat)
      modifies this
      ensures Valid() && reading == Reading(Some(inode), 0, 0, [], [], 0) && lastNow == old(lastNow)
    {
      this.inode, offset, partial, events := Some(inode), 0, [], [];
      reading, recorded, pruned := Reading(Some(inode), 0, 0, [], [], 0), [], 0;
    }

    /** The complete lines of what is pending; the unterminated rest is kept. */
    method TakeLines(pending: seq<Byte>) returns (lines: seq<seq<Byte>>)
      requires NoCrLf(pending)
      modifies `partial
      ensures lines == CompleteLines(pending) && partial == Tail(pending)
    {
      SplitPending(pending);
      lines := SplitLines(pending);
      if pending != [] && !Whole(pending) {
        partial := lines[|lines| - 1];
        lines := lines[..|lines| - 1];
      } else {
        WholeHasNoTail(pending);
        partial := [];
      }
    }

    lemma WholeHasNoTail(pending: seq<Byte>)
      requires Whole(pending)
      ensures Tail(pending) == []
    {
      BoundaryAtMostLast(pending, |pending|, |pending|);
    }

    /** Record the lines from `first` on; `base` lines were consumed before. */
    method RecordLines(lines: seq<seq<Byte>>, first: nat, now: int, ghost allLines: seq<seq<Byte>>,
                       ghost allNows: seq<int>, ghost base: nat, ghost skipped: nat)
      requires |allNows| == |allLines| == base + |lines| && first <= |lines| && skipped <= base + first
      requires forall i :: 0 <= i < |lines| ==> allLines[base + i] == lines[i] && allNows[base + i] == now
      requires Kept(recorded) && recorded == Recorded(parse, allLines, allNows, skipped, base + first)
      modifies `events, `recorded
      ensures Kept(recorded) && recorded == Recorded(parse, allLines, allNows, skipped, base + |lines|)
      ensures old(recorded) <= recorded
    {
      for i := first to |lines|
        invariant Kept(recorded) && old(recorded) <= recorded
        invariant recorded == Recorded(parse, allLines, allNows, skipped, base + i)
      {
        var event := parse(lines[i]);
        if event.Some? {
          events := events + [Event(event.value.stamp.GetOr(now), event.value.key)];
          recorded := recorded + [Event(event.value.stamp.GetOr(now), event.value.key)];
        }
      }
    }

    /** Record the incoming lines behind those read before; the first line of a tailed log is dropped. */
    method RecordIncoming(incoming: seq<seq<Byte>>, now: int, initialTail: bool,
                          ghost lines: seq<seq<Byte>>, ghost all: seq<seq<Byte>>, ghost nows: seq<int>, ghost skip: nat)
      requires skip <= |nows| == |lines| && LinesFollow(lines, incoming, all)
      requires initialTail ==> lines == [] && skip == 0
      requires Kept(recorded) && recorded == Recorded(parse, lines, nows, skip, |nows|)
      modifies `events, `recorded
      ensures Kept(recorded) && old(recorded) <= recorded
      ensures var skipped := if initialTail && |all| > 0 then 1 else skip;
        recorded == Recorded(parse, all, Stamped(nows, now, |all|), skipped, |all|)
    {
      ghost var allNows := Stamped(nows, now, |all|);
      var first := 0;
      ghost var skipped := skip;
      if initialTail && incoming != [] {
        first := 1;
        skipped := 1;
      } else {
        RecordedOfPrefix(parse, lines, nows, all, allNows, skip, |lines|);
      }
      RecordLines(incoming, first, now, all, allNows, |lines|, skipped);
    }

    /** Keep the unterminated rest of what is pending, and record its complete lines. */
    method TakeAndRecord(pending: seq<Byte>, now: int, initialTail: bool, ghost s: Reading, ghost end: nat,
                         ghost after: seq<Byte>)
      requires Timed(s) && recorded == RecordedOf(parse, s) && Kept(recorded)
      requires Continues(s.text, after, pending) && NoCrLf(after) && (initialTail ==> s.text == [] && s.skip == 0)
      modifies `partial, `events, `recorded
      ensures partial == Tail(after) && Kept(recorded) && old(recorded) <= recorded
      ensures var r := ReadOn(s, end, after, now, initialTail); Timed(r) && recorded == RecordedOf(parse, r)
    {
      PendingLines(s.text, after, pending);
      var incoming := TakeLines(pending);
      RecordIncoming(incoming, now, initialTail, CompleteLines(s.text), CompleteLines(after), s.nows, s.skip);
    }

    method Consume(pending: seq<Byte>, end: nat, now: int, initialTail: bool, ghost after: seq<Byte>)
      requires Valid() && Continues(reading.text, after, pending) && NoCrLf(after) && end == reading.start + |after|
      requires initialTail ==> reading.text == [] && reading.skip == 0
      modifies `offset, `partial, `events, `reading, `recorded
      ensures Valid() && old(recorded) <= recorded
      ensures reading == ReadOn(old(reading), end, after, now, initialTail)
    {
      TakeAndRecord(pending, now, initialTail, reading, end, after);
      offset := end;
      reading := ReadOn(reading, end, after, now, initialTail);
    }

    /** Old events leave from the front only; what stays behind a younger one is ignored by the summary. */
    method Prune(now: int)
      requires Valid() && lastNow <= now
      modifies `events, `pruned, `lastNow
      ensures Valid() && recorded == old(recorded) && lastNow == now
    {
      var cutoff := now - windowSeconds;
      while events != [] && events[0].timestamp < cutoff
        invariant Kept(recorded)
        invariant forall i :: 0 <= i < pruned ==> recorded[i].timestamp < cutoff
        decreases |events|
      {
        events := events[1..];
        pruned := pruned + 1;
      }
      lastNow := now;
    }

    /** Start over if need be, and read on; a long log is tailed from its last `chunkBytes` bytes. */
    method ReadChunk(inode: nat, content: seq<Byte>)
      returns (pending: seq<Byte>, end: nat, initialTail: bool, ghost after: seq<Byte>)
      requires Valid()
      requires !StartsOver(reading, inode, |content|) ==> WindowAt(content, reading.start, reading.text)
      modifies this
      ensures Valid() && lastNow == old(lastNow)
      ensures var kept := Resumed(old(reading), inode, |content|);
        var from := ReadFrom(kept, chunkBytes, |content|);
        && initialTail == Tailed(kept, chunkBytes, |content|) && end == ReadTo(from, chunkBytes, |content|)
        && reading == kept.(offset := from, start := if initialTail then from else kept.start)
        && after == kept.text + Bytes(content, from, end)
      ensures !StartsOver(old(reading), inode, |content|) ==> recorded == old(recorded)
      ensures Continues(reading.text, after, pending) && WindowAt(content, reading.start, after)
      ensures end == reading.start + |after|
      ensures initialTail ==> reading.text == [] && reading.skip == 0
    {
      if this.inode != Some(inode) || |content| < offset {
        Reset(inode);
      }
      initialTail := offset == 0 && |content| > chunkBytes;
      if initialTail {
        offset := |content| - chunkBytes;
        reading := reading.(offset := offset, start := offset);
      }
      end := if offset + chunkBytes < |content| then offset + chunkBytes else |content|;
      pending, after := Append(content, end);
    }

    /** The bytes up to `end`, behind what is pending. */
    method Append(content: seq<Byte>, end: nat) returns (pending: seq<Byte>, ghost after: seq<Byte>)
      requires offset == reading.start + |reading.text| && partial == Tail(reading.text) && offset <= end <= |content|
      requires WindowAt(content, reading.start, reading.text)
      ensures Continues(reading.text, after, pending) && WindowAt(content, reading.start, after)
      ensures end == reading.start + |after|
      ensures after == reading.text + Bytes(content, offset, end)
    {
      var chunk := Bytes(content, offset, end);
      BytesAreWindow(content, offset, end);
      pending := partial + chunk;
      after := reading.text + chunk;
      ChunkContinues(reading.text, chunk);
    }

    /**
     One scrape of an append-only log: the next chunk is read, and everything recorded stays recorded unless
     the log starts over. Whatever the chunks and the order of the time stamps, the summary is a recount over
     the events of all complete lines read so far, of which those in the window count.
     */
    method Scrape(inode: nat, content: seq<Byte>, now: int) returns (summary: Summary)
      requires Valid() && NoCrLf(content) && lastNow <= now
      requires !StartsOver(reading, inode, |content|) ==> WindowAt(content, reading.start, reading.text)
      modifies this
      ensures Valid() && WindowAt(content, reading.start, reading.text) && lastNow == now
      ensures reading == Scraped(old(reading), chunkBytes, inode, content, now)
      ensures !StartsOver(old(reading), inode, |content|) ==> old(recorded) <= recorded
      ensures var all := RecordedOf(parse, reading);
        summary == SummaryOf(Recent(all, now - windowSeconds, |all|), maxLabels)
    {
      var pending, end, initialTail, after := ReadChunk(inode, content);
      WindowHasNoPair(content, reading.start, after);
      Consume(pending, end, now, initialTail, after);
      Prune(now);
      summary := SummarizeKept(now);
    }

    method SummarizeKept(now: int) returns (summary: Summary)
      requires Valid() && lastNow == now
      ensures summary == SummaryOf(Recent(recorded, now - windowSeconds, |recorded|), maxLabels)
    {
      PrunedDoNotCount(recorded, events, pruned, now - windowSeconds, |events|);
      summary := Summarize(events, now, windowSeconds, maxLabels);
    }

    lemma {:induction false} PrunedDoNotCount(all: seq<Event>, kept: seq<Event>, gone: nat, cutoff: int, n: nat)
      requires gone + |kept| == |all| && n <= |kept|
      requires forall i :: 0 <= i < |kept| ==> kept[i] == all[gone + i]
      requires forall i :: 0 <= i < gone ==> all[i].timestamp < cutoff
      ensures Recent(all, cutoff, gone + n) == Recent(kept, cutoff, n)
      decreases n
    {
      if n > 0 { PrunedDoNotCount(all, kept, gone, cutoff, n - 1); } else { NothingRecent(all, cutoff, gone); }
    }

    lemma {:induction false} NothingRecent(events: seq<Event>, cutoff: int, n: nat)
      requires n <= |events| && forall i :: 0 <= i < n ==> events[i].timestamp < cutoff
      ensures Recent(events, cutoff, n) == []
    {
      if n > 0 { NothingRecent(events, cutoff, n - 1); }
    }
  }

  // ---- What is read and recorded, byte by byte and line by line ----

  /** The lines among those from `skip` up to `n` that the parser understands. */
  function Understood(parse: Parser, lines: seq<seq<Byte>>, skip: nat, n: nat): nat
    requires n <= |lines|
  {
    if n <= skip then 0 else Understood(parse, lines, skip, n - 1) + if parse(lines[n - 1]).Some? then 1 else 0
  }

  lemma {:induction false} RecordedSize(parse: Parser, lines: seq<seq<Byte>>, nows: seq<int>, skip: nat, n: nat)
    requires n <= |lines| == |nows|
    ensures |Recorded(parse, lines, nows, skip, n)| == Understood(parse, lines, skip, n)
  {
    if n > skip { RecordedSize(parse, lines, nows, skip, n - 1); }
  }

  /**
   Each understood line behind the dropped ones is recorded once, in order, with its own time stamp, or without one
   with the time when it was read.
   */
  lemma {:induction false} LineIsRecorded(parse: Parser, lines: seq<seq<Byte>>, nows: seq<int>, skip: nat, n: nat,
                                          i: nat)
    requires skip <= i < n <= |lines| == |nows| && parse(lines[i]).Some?
    ensures var all, k := Recorded(parse, lines, nows, skip, n), Understood(parse, lines, skip, i);
      var p := parse(lines[i]).value;
      && |all| == Understood(parse, lines, skip, n) && k < |all| && all[k].key == p.key
      && all[k].timestamp == (if p.stamp.Some? then p.stamp.value else nows[i])
    decreases n
  {
    RecordedSize(parse, lines, nows, skip, n);
    RecordedSize(parse, lines, nows, skip, n - 1);
    if i < n - 1 { LineIsRecorded(parse, lines, nows, skip, n - 1, i); }
  }

  /**
   The first scrape of a file reads to its end, of a long one only the last `chunkBytes` bytes; then its first
   line, which may be cut, is dropped if a line was completed at all.
   */
  lemma FirstScrape(chunkBytes: nat, inode: nat, content: seq<Byte>, now: int)
    ensures var r, tailed := Scraped(UNREAD, chunkBytes, inode, content, now), |content| > chunkBytes;
      && r.inode == Some(inode) && r.offset == |content|
      && r.start == (if tailed then |content| - chunkBytes else 0) && r.text == Bytes(content, r.start, |content|)
      && |r.nows| == |CompleteLines(r.text)| && (forall i :: 0 <= i < |r.nows| ==> r.nows[i] == now)
      && r.skip == if tailed && CompleteLines(r.text) != [] then 1 else 0
  {
  }

  /**
   Every further scrape reads at most `chunkBytes` bytes behind the last ones, and gives the lines it completes its
   own time; a file that was replaced or that shrank is read as if for the first time.
   */
  lemma FurtherScrape(s: Reading, chunkBytes: nat, inode: nat, content: seq<Byte>, now: int)
    requires s.offset > 0
    ensures var r := Scraped(s, chunkBytes, inode, content, now);
      if s.inode != Some(inode) || |content| < s.offset then r == Scraped(UNREAD, chunkBytes, inode, content, now)
      else
        && r.inode == s.inode && r.start == s.start && r.skip == s.skip
        && r.offset == (if s.offset + chunkBytes <= |content| then s.offset + chunkBytes else |content|)
        && r.text == s.text + Bytes(content, s.offset, r.offset) && |r.nows| == |CompleteLines(r.text)|
        && forall i :: 0 <= i < |r.nows| ==> r.nows[i] == if i < |s.nows| then s.nows[i] else now
  {
  }
}
