/**
 The remote file-delta script and the collector step that consumes its answer: where to resume in the
 rotated log files, what to read within the byte limit, and which cursor to store.
 */
module LogDelta {
  import opened Wrappers
  import opened Lines
  import opened LogParsing

  /** `identity` stands for the device and inode pair of the file. */
  datatype LogFile = LogFile(identity: nat, content: seq<Byte>)

  datatype Cursor = Cursor(identity: nat, offset: nat)

  datatype Segment = Segment(identity: nat, start: nat, data: seq<Byte>)

  datatype Delta =
    | LogMissing
    | Delta(segments: seq<Segment>, cursor: Cursor, rotationGap: bool, limitReached: bool)

  /** The names `path.2`, `path.1` and `path`. */
  datatype Directory = Directory(second: Option<LogFile>, first: Option<LogFile>, current: Option<LogFile>)

  function Listed(file: Option<LogFile>): seq<LogFile> {
    match file
    case Some(f) => [f]
    case None => []
  }

  /** The existing files, oldest first. */
  function Candidates(dir: Directory): seq<LogFile> {
    Cat(Listed(dir.second), Cat(Listed(dir.first), Listed(dir.current)))
  }

  // ---- Where to resume ----

  datatype Start = Start(index: nat, offset: nat, gap: bool)

  /** The first file from `i` on with this identity. */
  function Find(files: seq<LogFile>, identity: nat, i: nat): (index: Option<nat>)
    requires i <= |files|
    ensures index.Some? ==> i <= index.value < |files| && files[index.value].identity == identity
    ensures forall t :: i <= t < index.GetOr(|files|) ==> files[t].identity != identity
    decreases |files| - i
  {
    if i == |files| then None
    else if files[i].identity == identity then Some(i) else Find(files, identity, i + 1)
  }

  /** The newest file before `end` that holds at least `size` bytes. */
  function NewestOfSize(files: seq<LogFile>, end: nat, size: nat): (index: Option<nat>)
    requires end <= |files|
    ensures index.Some? ==> index.value < end && |files[index.value].content| >= size
  {
    if end == 0 then None
    else if |files[end - 1].content| >= size then Some(end - 1) else NewestOfSize(files, end - 1, size)
  }

  function ChooseStart(files: seq<LogFile>, recorded: Option<Cursor>): (s: Start)
    requires files != []
    ensures s.index < |files| && s.offset <= |files[s.index].content|
  {
    var last := |files| - 1;
    match recorded
    case None => Start(last, 0, false)
    case Some(c) =>
      var exact := Find(files, c.identity, 0);
      if exact.Some? && |files[exact.value].content| >= c.offset then Start(exact.value, c.offset, false)
      else if files[last].identity == c.identity && |files[last].content| < c.offset then
        var previous := NewestOfSize(files, last, c.offset);
        if previous.Some? then Start(previous.value, c.offset, false) else Start(last, 0, true)
      else Start(last, 0, true)
  }

  // ---- What to read ----

  /** The bytes `handle.read(limit)` returns at `offset`. */
  function ReadAt(file: LogFile, offset: nat, limit: nat): (data: seq<Byte>)
    requires offset <= |file.content|
    ensures |data| <= limit
  {
    Bytes(file.content, offset, Min(offset + limit, |file.content|))
  }

  datatype Reading = Reading(segments: seq<Segment>, cursor: Cursor, remaining: nat)

  function SegmentOf(file: LogFile, offset: nat, data: seq<Byte>): seq<Segment> {
    if data == [] then [] else [Segment(file.identity, offset, data)]
  }

  function Prepend(segments: seq<Segment>, r: Reading): Reading {
    r.(segments := Cat(segments, r.segments))
  }

  /** Reading on from `files[index]` at `offset` until the limit is used up or the newest file was read. */
  function ReadOn(files: seq<LogFile>, index: nat, offset: nat, remaining: nat): (r: Reading)
    requires index < |files| && offset <= |files[index].content|
    decreases |files| - index
  {
    var file := files[index];
    var data := ReadAt(file, offset, remaining);
    var end := offset + |data|;
    var left := remaining - |data|;
    if left == 0 || end < |file.content| || index + 1 == |files| then
      Reading(SegmentOf(file, offset, data), Cursor(file.identity, end), left)
    else
      var rest := ReadOn(files, index + 1, 0, left);
      Prepend(SegmentOf(file, offset, data), rest)
  }

  function FileDelta(dir: Directory, recorded: Option<Cursor>, limit: nat): Delta {
    if dir.current.None? then LogMissing else
      var files := Candidates(dir);
      var start := ChooseStart(files, recorded);
      var r := ReadOn(files, start.index, start.offset, if limit < 1 then 1 else limit);
      Delta(r.segments, r.cursor, start.gap, r.remaining == 0)
  }

  /** The script's loop over the files from the chosen start on. */
  method ReadFiles(files: seq<LogFile>, startIndex: nat, startOffset: nat, limit: nat) returns (r: Reading)
    requires startIndex < |files| && startOffset <= |files[startIndex].content|
    ensures r == ReadOn(files, startIndex, startOffset, limit)
  {
    var remaining := limit;
    var segments: seq<Segment> := [];
    var final := Cursor(files[startIndex].identity, startOffset);
    ghost var whole := ReadOn(files, startIndex, startOffset, remaining);
    var index := startIndex;
    var offset: nat := startOffset;
    var reading := true;
    while reading
      invariant remaining >= 0
      invariant reading ==> index < |files| && offset <= |files[index].content|
      invariant reading ==> whole == Prepend(segments, ReadOn(files, index, offset, remaining))
      invariant !reading ==> whole == Reading(segments, final, remaining)
      decreases reading, |files| - index
    {
      var item := files[index];
      var data := ReadAt(item, offset, remaining);
      var endOffset := offset + |data|;
      var read := SegmentOf(item, offset, data);
      final := Cursor(item.identity, endOffset);
      if remaining - |data| == 0 || endOffset < |item.content| || index + 1 == |files| {
        reading := false;
      } else {
        CatAssociates(segments, read, ReadOn(files, index + 1, 0, remaining - |data|).segments);
        index, offset := index + 1, 0;
      }
      CatIsConcat(segments, read);
      segments := segments + read;
      remaining := remaining - |data|;
    }
    r := Reading(segments, final, remaining);
  }

  method ReadFileDelta(dir: Directory, recorded: Option<Cursor>, limit: nat) returns (delta: Delta)
    ensures delta == FileDelta(dir, recorded, limit)
  {
    if dir.current.None? {
      return LogMissing;
    }
    var files := Candidates(dir);
    var start := ChooseStart(files, recorded);
    var r := ReadFiles(files, start.index, start.offset, if limit < 1 then 1 else limit);
    delta := Delta(r.segments, r.cursor, start.gap, r.remaining == 0);
  }

  // ---- What to store ----

  datatype Collected = Collected(events: seq<Event>, cursor: Cursor)

  /** Parse segment after segment; an unterminated tail stops the loop and sets the cursor before it. */
  function CollectSegments(segments: seq<Segment>, cursor: Cursor): Collected
    decreases |segments|
  {
    if segments == [] then Collected([], cursor) else
      var s := segments[0];
      var consumed := Complete(s.data);
      var events := EventsIn(s.identity, s.start, s.data, 0, |s.data|);
      if consumed < |s.data| then Collected(events, Cursor(s.identity, s.start + consumed))
      else
        CollectedAfter(events, CollectSegments(segments[1..], cursor))
  }

  function CollectedAfter(events: seq<Event>, rest: Collected): Collected {
    rest.(events := Cat(events, rest.events))
  }

  /** The collector's loop over the segments of one delta. */
  method ParseSegments(segments: seq<Segment>, final: Cursor)
    returns (events: seq<Event>, cursor: Cursor)
    ensures Collected(events, cursor) == CollectSegments(segments, final)
  {
    events := [];
    var cursorOverride: Option<Cursor> := None;
    var rest := segments;
    ghost var whole := CollectSegments(segments, final);
    while rest != [] && cursorOverride.None?
      invariant cursorOverride.None? ==> whole == CollectedAfter(events, CollectSegments(rest, final))
      invariant cursorOverride.Some? ==> whole == Collected(events, cursorOverride.value)
      decreases cursorOverride.None?, |rest|
    {
      var s := rest[0];
      var parsed, consumed, incomplete := ParseLogBytes(s.identity, s.start, s.data);
      if incomplete > 0 {
        cursorOverride := Some(Cursor(s.identity, s.start + consumed));
      } else {
        CatAssociates(events, parsed, CollectSegments(rest[1..], final).events);
        rest := rest[1..];
      }
      CatIsConcat(events, parsed);
      events := events + parsed;
    }
    cursor := cursorOverride.GetOr(final);
  }

  datatype Status = Missing | Partial | Success

  /** What the store keeps for one stream: its cursor and every committed event. */
  datatype Stored = Stored(cursor: Option<Cursor>, events: seq<Event>)

  function CollectStep(dir: Directory, limit: nat, stored: Stored): Stored {
    match FileDelta(dir, stored.cursor, limit)
    case LogMissing => stored
    case Delta(segments, cursor, _, _) =>
      var c := CollectSegments(segments, cursor);
      Stored(Some(c.cursor), Cat(stored.events, c.events))
  }

  function CollectStatus(dir: Directory, limit: nat, recorded: Option<Cursor>): Status {
    match FileDelta(dir, recorded, limit)
    case LogMissing => Missing
    case Delta(_, _, gap, _) => if gap then Partial else Success
  }

  /** One log stream of one node. Events and cursor are committed together. */
  class StreamCollector {
    var cursor: Option<Cursor>
    var committed: seq<Event>

    ghost function Contents(): Stored
      reads this
    {
      Stored(cursor, committed)
    }

    constructor ()
      ensures Contents() == Stored(None, [])
    {
      cursor, committed := None, [];
    }

    method CollectStream(dir: Directory, limit: nat) returns (status: Status)
      modifies this
      ensures Contents() == CollectStep(dir, limit, old(Contents()))
      ensures status == CollectStatus(dir, limit, old(cursor))
    {
      var payload := ReadFileDelta(dir, cursor, limit);
      if payload.LogMissing? {
        return Missing;
      }
      var events, final := ParseSegments(payload.segments, payload.cursor);
      CatIsConcat(committed, events);
      committed := committed + events;
      cursor := Some(final);
      status := if payload.rotationGap then Partial else Success;
    }
  }
}
