/** Backfill of one log file in bounded chunks, and why the chunk size does not matter. */
module LogBackfill {
  import opened Wrappers
  import opened Lines
  import opened LogParsing
  import opened LogDelta
  import opened LogProgress

  datatype Filled = Filled(events: seq<Event>, offset: nat)

  function FilledAfter(events: seq<Event>, rest: Filled): Filled {
    rest.(events := Cat(events, rest.events))
  }

  /** The chunk loop from offset `o` on: stop when nothing was read, nothing was complete, or all was. */
  function BackfillFrom(file: LogFile, o: nat, limit: nat): (r: Filled)
    requires o <= |file.content|
    decreases |file.content| - o
  {
    var data := ReadAt(file, o, limit);
    var consumed := Complete(data);
    if data == [] || consumed == 0 then Filled([], o)
    else
      var events := EventsIn(file.identity, o, data, 0, |data|);
      if o + |data| == |file.content| && consumed == |data| then Filled(events, o + consumed)
      else FilledAfter(events, BackfillFrom(file, o + consumed, limit))
  }

  /** What the loop still delivers from `o` on. */
  ghost predicate Remains(file: LogFile, o: nat, limit: nat, rest: Filled) {
    o <= |file.content| && rest == BackfillFrom(file, o, limit)
  }

  /** One turn of the loop: what it parsed, how far it got, and whether it breaks. */
  method BackfillChunk(file: LogFile, offset: nat, limit: nat, ghost whole: Filled)
    returns (parsed: seq<Event>, consumed: nat, finished: bool, ghost rest: Filled)
    requires Remains(file, offset, limit, whole)
    ensures Remains(file, offset + consumed, limit, rest) && whole == FilledAfter(parsed, rest)
    ensures if finished then rest == Filled([], offset + consumed) else consumed > 0
  {
    var data := ReadAt(file, offset, limit);
    var eof := offset + |data| == |file.content|;
    var incomplete: nat;
    parsed, consumed, incomplete := ParseLogBytes(file.identity, offset, data);
    if data == [] || consumed <= 0 {
      NothingMore(file, offset, limit);
      return [], consumed, true, whole;
    }
    finished := eof && incomplete == 0;
    rest := TurnLeads(file, offset, limit, data, consumed, parsed, whole);
  }

  /** What is left behind a chunk with a complete line, and that this is nothing at the end of the file. */
  lemma TurnLeads(file: LogFile, offset: nat, limit: nat, data: seq<Byte>, consumed: nat, parsed: seq<Event>,
                  whole: Filled)
    returns (rest: Filled)
    requires Remains(file, offset, limit, whole) && data == ReadAt(file, offset, limit)
    requires consumed == Complete(data) > 0 && parsed == EventsIn(file.identity, offset, data, 0, |data|)
    ensures Remains(file, offset + consumed, limit, rest) && whole == FilledAfter(parsed, rest)
    ensures offset + consumed == |file.content| ==> rest == Filled([], offset + consumed)
  {
    rest := BackfillFrom(file, offset + consumed, limit);
    BackfillSteps(file, offset, limit);
    if offset + consumed == |file.content| { NothingMore(file, offset + consumed, limit); }
  }

  /** The loop's result so far, when nothing is left to deliver. */
  lemma FilledEnds(events: seq<Event>, rest: Filled)
    ensures rest.events == [] ==> FilledAfter(events, rest) == Filled(events, rest.offset)
    ensures events == [] ==> FilledAfter(events, rest) == rest
  {
  }

  lemma FilledOn(whole: Filled, events: seq<Event>, parsed: seq<Event>, rest: Filled)
    requires whole == FilledAfter(events, FilledAfter(parsed, rest))
    ensures whole == FilledAfter(events + parsed, rest)
  {
    CatAssociates(events, parsed, rest.events);
    CatIsConcat(events, parsed);
  }

  /** What was delivered so far and what remains make up the whole. */
  ghost predicate Underway(file: LogFile, limit: nat, whole: Filled, events: seq<Event>, offset: nat, rest: Filled) {
    Remains(file, offset, limit, rest) && whole == FilledAfter(events, rest)
  }

  method BackfillTurn(file: LogFile, limit: nat, before: seq<Event>, start: nat, ghost whole: Filled,
                      ghost rest: Filled)
    returns (events: seq<Event>, offset: nat, finished: bool, ghost rest': Filled)
    requires Underway(file, limit, whole, before, start, rest)
    ensures Underway(file, limit, whole, events, offset, rest') && offset >= start
    ensures if finished then whole == Filled(events, offset) else offset > start
  {
    var parsed, consumed;
    parsed, consumed, finished, rest' := BackfillChunk(file, start, limit, rest);
    FilledOn(whole, before, parsed, rest');
    events := before + parsed;
    offset := start + consumed;
    FilledEnds(events, rest');
  }

  /** The loop over one file; backfill calls it with `start` zero. */
  method BackfillFile(file: LogFile, start: nat, limit: nat) returns (events: seq<Event>, offset: nat)
    requires start <= |file.content|
    ensures Remains(file, start, limit, Filled(events, offset))
  {
    events, offset := [], start;
    var finished := false;
    ghost var rest := BackfillFrom(file, start, limit);
    ghost var whole := rest;
    FilledEnds(events, rest);
    while !finished
      invariant Underway(file, limit, whole, events, offset, rest)
      invariant finished ==> whole == Filled(events, offset)
      decreases !finished, |file.content| - offset
    {
      events, offset, finished, rest := BackfillTurn(file, limit, events, offset, whole, rest);
    }
  }

  /** The loop ends where a chunk holds no complete line, in particular at the end of the file. */
  lemma NothingMore(file: LogFile, o: nat, limit: nat)
    requires o <= |file.content| && (o == |file.content| || Complete(ReadAt(file, o, limit)) == 0)
    ensures BackfillFrom(file, o, limit) == Filled([], o)
  {
  }

  /** While a chunk holds a complete line, the loop takes its complete lines and goes on behind them. */
  lemma BackfillSteps(file: LogFile, o: nat, limit: nat)
    requires o <= |file.content| && Complete(ReadAt(file, o, limit)) > 0
    ensures var data := ReadAt(file, o, limit);
      BackfillFrom(file, o, limit)
      == FilledAfter(EventsIn(file.identity, o, data, 0, |data|), BackfillFrom(file, o + Complete(data), limit))
  {
    var data := ReadAt(file, o, limit);
    if o + |data| == |file.content| && Complete(data) == |data| {
      NothingMore(file, o + |data|, limit);
    }
  }

  /** The lines from `o` on that backfill took all fit into one chunk, and the next one, if any, does not. */
  ghost predicate StopsAtLongLine(content: seq<Byte>, o: nat, stop: nat, limit: nat) {
    && o <= stop <= Complete(content) && Boundary(content, stop)
    && (forall q {:trigger LineFits(content, q, limit)} ::
          o <= q < stop && Boundary(content, q) ==> LineFits(content, q, limit))
    && (stop < Complete(content) ==> !LineFits(content, stop, limit))
  }

  /** A chunk's complete lines all fit into the chunk. */
  lemma ChunkLinesFit(content: seq<Byte>, o: nat, n: nat, stop: nat, limit: nat)
    requires NoCrLf(content) && Boundary(content, o) && n <= limit && o + n <= |content| && Boundary(content, o + n)
    requires StopsAtLongLine(content, o + n, stop, limit)
    ensures StopsAtLongLine(content, o, stop, limit)
  {
    forall q | o <= q < o + n && Boundary(content, q) ensures LineFits(content, q, limit) {
      LineEndIsNext(content, q, |content|, o + n);
    }
  }

  lemma OneChunk(file: LogFile, o: nat, limit: nat)
    requires NoCrLf(file.content) && Boundary(file.content, o)
    ensures var data := ReadAt(file, o, limit);
      && o + Complete(data) <= |file.content| && Boundary(file.content, o + Complete(data))
      && EventsIn(file.identity, o, data, 0, |data|) == EventsIn(file.identity, 0, file.content, o, o + Complete(data))
  {
    ChunkStopsAtBoundary(file.identity, file.content, o, Min(o + limit, |file.content|), ReadAt(file, o, limit));
  }

  /** What was backfilled from `o` on. */
  ghost predicate IsPrefix(file: LogFile, o: nat, limit: nat, r: Filled) {
    && o <= |file.content| && StopsAtLongLine(file.content, o, r.offset, limit)
    && r.events == EventsIn(file.identity, 0, file.content, o, r.offset)
  }

  lemma PrefixGrows(file: LogFile, o: nat, n: nat, limit: nat, data: seq<Byte>, events: seq<Event>, rest: Filled)
    requires NoCrLf(file.content) && Boundary(file.content, o) && data == ReadAt(file, o, limit)
    requires n == Complete(data) && events == EventsIn(file.identity, o, data, 0, |data|)
    requires IsPrefix(file, o + n, limit, rest)
    ensures IsPrefix(file, o, limit, FilledAfter(events, rest))
  {
    OneChunk(file, o, limit);
    ChunkLinesFit(file.content, o, n, rest.offset, limit);
    EventsJoin(file, o, o + n, rest);
  }

  lemma EventsJoin(file: LogFile, o: nat, p: nat, rest: Filled)
    requires NoCrLf(file.content) && o <= p <= rest.offset <= |file.content| && Boundary(file.content, p)
    requires rest.events == EventsIn(file.identity, 0, file.content, p, rest.offset)
    ensures FilledAfter(EventsIn(file.identity, 0, file.content, o, p), rest).events
         == EventsIn(file.identity, 0, file.content, o, rest.offset)
  {
    EventsOfCut(file.identity, 0, file.content, o, p, rest.offset);
  }

  lemma PrefixEnds(file: LogFile, o: nat, limit: nat)
    requires NoCrLf(file.content) && Boundary(file.content, o) && Complete(ReadAt(file, o, limit)) == 0
    ensures IsPrefix(file, o, limit, BackfillFrom(file, o, limit))
  {
    BoundaryAtMostLast(file.content, |file.content|, o);
    ChunkHoldsLine(file, o, limit);
    NothingMore(file, o, limit);
  }

  /** Backfill delivers exactly the lines up to the first one longer than a chunk, or all complete lines. */
  lemma {:induction false} BackfillIsPrefix(file: LogFile, o: nat, limit: nat)
    requires NoCrLf(file.content) && Boundary(file.content, o)
    ensures IsPrefix(file, o, limit, BackfillFrom(file, o, limit))
    decreases |file.content| - o
  {
    var data := ReadAt(file, o, limit);
    var n := Complete(data);
    if n > 0 {
      var events := EventsIn(file.identity, o, data, 0, |data|);
      OneChunk(file, o, limit);
      var rest := TurnLeads(file, o, limit, data, n, events, BackfillFrom(file, o, limit));
      BackfillIsPrefix(file, o + n, limit);
      PrefixGrows(file, o, n, limit, data, events, rest);
    } else {
      PrefixEnds(file, o, limit);
    }
  }

  /** Chunk independence: a chunk size yields every complete line exactly when no line is longer. */
  lemma BackfillExactly(file: LogFile, limit: nat)
    requires NoCrLf(file.content)
    ensures LinesFit(file.content, 0, limit)
       <==> BackfillFrom(file, 0, limit)
            == Filled(EventsIn(file.identity, 0, file.content, 0, |file.content|), Complete(file.content))
  {
    BackfillIsPrefix(file, 0, limit);
    EventsStopAtBoundary(file.identity, file.content, 0, |file.content|);
  }

  /** One terminated line, of which at most the terminator has two bytes. */
  ghost predicate IsOneLine(line: seq<Byte>, k: nat) {
    && k < |line| && Ends(line[|line| - 1])
    && forall i :: k <= i < |line| - 1 && Ends(line[i]) ==> i == |line| - 2 && line[i] == CR && line[|line| - 1] == LF
  }

  lemma {:induction false} OneLineEnds(line: seq<Byte>, k: nat)
    requires IsOneLine(line, k)
    ensures LineEnd(line, k, |line|) == |line|
    decreases |line| - k
  {
    if !Ends(line[k]) { OneLineEnds(line, k + 1); }
  }

  /** A chunk of one line is one event. */
  lemma OneEvent(identity: nat, base: nat, data: seq<Byte>, k: nat)
    requires k == 0 && IsOneLine(data, k)
    ensures Complete(data) == |data| && |EventsIn(identity, base, data, k, |data|)| == 1
  {
    OneLineEnds(data, k);
    assert EventsIn(identity, base, data, |data|, |data|) == [];
  }

  lemma FilledLength(events: seq<Event>, rest: Filled)
    ensures |FilledAfter(events, rest).events| == |events| + |rest.events|
  {
    CatIsConcat(events, rest.events);
  }

  /** Where the chunk is one line, the loop adds its event and goes on behind it. */
  lemma OneLineChunk(file: LogFile, o: nat, limit: nat, data: seq<Byte>, k: nat)
    requires k == 0 && o <= |file.content| && data == ReadAt(file, o, limit) && IsOneLine(data, k)
    ensures |BackfillFrom(file, o, limit).events| == 1 + |BackfillFrom(file, o + |data|, limit).events|
  {
    OneEvent(file.identity, o, data, k);
    var events, rest := EventsIn(file.identity, o, data, k, |data|), BackfillFrom(file, o + |data|, limit);
    assert BackfillFrom(file, o, limit) == FilledAfter(events, rest) by { BackfillSteps(file, o, limit); }
    FilledLength(events, rest);
  }

  /** Limit ordinary bytes but one, and then CR LF: one byte longer than a chunk. */
  ghost predicate EndsInPair(content: seq<Byte>, limit: nat) {
    && |content| == limit + 1 && limit > 0 && content[limit - 1] == CR && content[limit] == LF
    && forall i :: 0 <= i < limit - 1 ==> !Ends(content[i])
  }

  /** What stands before the LF reads as one line, and so does the LF. */
  lemma PairParts(content: seq<Byte>, limit: nat, k: nat)
    requires k == 0 && EndsInPair(content, limit)
    ensures IsOneLine(Bytes(content, k, limit), k) && IsOneLine(Bytes(content, limit, limit + 1), k)
  {
    BytesAreWindow(content, k, limit);
    BytesAreWindow(content, limit, limit + 1);
  }

  lemma PairWhole(content: seq<Byte>, limit: nat, k: nat)
    requires k == 0 && EndsInPair(content, limit)
    ensures Bytes(content, k, limit + 1) == content && IsOneLine(content, k)
  {
    BytesAreWindow(content, k, limit + 1);
  }

  /**
   With a CR LF pair in the file the hypothesis is needed: whatever the chunk size, a line one byte longer that
   ends in CR LF is cut inside the pair, and delivered as two events.
   */
  lemma CrLfCutRepeats(file: LogFile, limit: nat, k: nat)
    requires k == 0 && EndsInPair(file.content, limit)
    ensures |EventsIn(file.identity, k, file.content, k, limit + 1)| == 1
    ensures |BackfillFrom(file, k, limit).events| == 2 && |BackfillFrom(file, k, limit + 1).events| == 1
  {
    PairParts(file.content, limit, k);
    PairWhole(file.content, limit, k);
    OneEvent(file.identity, k, file.content, k);
    OneLineChunk(file, k, limit + 1, file.content, k);
    NothingMore(file, limit + 1, limit + 1);
    OneLineChunk(file, k, limit, Bytes(file.content, k, limit), k);
    OneLineChunk(file, limit, limit, Bytes(file.content, limit, limit + 1), k);
    NothingMore(file, limit + 1, limit);
  }
}
