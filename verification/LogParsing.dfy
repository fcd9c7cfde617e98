/** `parse_log_bytes`: from raw log bytes to events, one event per complete line. */
module LogParsing {
  import opened Wrappers
  import opened Lines

  /** One raw line: the `length` bytes from `offset` on in the file `identity`, terminator included. */
  datatype Event = Event(identity: nat, offset: nat, length: nat)

  /** The events of the complete lines in the window `[k, end)` of `data`, which sits at offset `base` of its file. */
  function EventsIn(identity: nat, base: nat, data: seq<Byte>, k: nat, end: nat): seq<Event>
    requires k <= end <= |data|
    decreases end - k
  {
    if k == end then [] else
      var e := LineEnd(data, k, end);
      if !Ends(data[e - 1]) then []
      else Cat([Event(identity, base + k, e - k)], EventsIn(identity, base, data, e, end))
  }

  /** `a + b`, computed without appending an empty sequence. */
  function Cat<T(==)>(a: seq<T>, b: seq<T>): seq<T> {
    if a == [] then b else if b == [] then a else a + b
  }

  lemma CatIsConcat<T>(a: seq<T>, b: seq<T>)
    ensures Cat(a, b) == a + b
  {
    if a == [] { assert a + b == b; } else if b == [] { assert a + b == a; }
  }

  lemma CatAssociates<T>(a: seq<T>, b: seq<T>, c: seq<T>)
    ensures Cat(Cat(a, b), c) == Cat(a, Cat(b, c))
  {
    if a != [] && b != [] && c != [] { assert (a + b) + c == a + (b + c); }
  }

  lemma FirstOfLines(data: seq<Byte>, k: nat, lines: seq<seq<Byte>>)
    requires k <= |data| && lines == LinesIn(data, k, |data|)
    ensures lines == [] <==> k == |data|
    ensures lines != [] ==>
      var e := LineEnd(data, k, |data|);
      && lines[0] == Bytes(data, k, e) && lines[1..] == LinesIn(data, e, |data|)
      && |lines[0]| == e - k && (Whole(lines[0]) <==> Ends(data[e - 1]))
  {
    if k < |data| { BytesAreWindow(data, k, LineEnd(data, k, |data|)); }
  }

  /** A loop over the lines of one chunk, stopping at the first unterminated one. */
  method ParseLogBytes(identity: nat, base: nat, data: seq<Byte>)
    returns (events: seq<Event>, consumed: nat, incomplete: nat)
    ensures events == EventsIn(identity, base, data, 0, |data|)
    ensures consumed == Complete(data) && incomplete == |data| - consumed
  {
    events, consumed := [], 0;
    var rest := SplitLines(data);
    FirstOfLines(data, consumed, rest);
    while rest != [] && Whole(rest[0])
      invariant Boundary(data, consumed) && rest == LinesIn(data, consumed, |data|)
      invariant events == EventsIn(identity, base, data, 0, consumed)
      invariant !SplitsPair(data, consumed)
      decreases |data| - consumed
    {
      FirstOfLines(data, consumed, rest);
      var event := Event(identity, base + consumed, |rest[0]|);
      OneMoreLine(identity, base, data, consumed);
      CatIsConcat(events, [event]);
      events := events + [event];
      consumed := consumed + |rest[0]|;
      rest := rest[1..];
    }
    FirstOfLines(data, consumed, rest);
    NothingLeft(identity, base, data, consumed);
    incomplete := |data| - consumed;
  }

  /** Parsing one line more adds one event. */
  lemma OneMoreLine(identity: nat, base: nat, data: seq<Byte>, k: nat)
    requires k < |data| && Boundary(data, k) && !SplitsPair(data, k)
    requires Ends(data[LineEnd(data, k, |data|) - 1])
    ensures var e := LineEnd(data, k, |data|);
      && !SplitsPair(data, e)
      && EventsIn(identity, base, data, 0, e)
         == Cat(EventsIn(identity, base, data, 0, k), [Event(identity, base + k, e - k)])
  {
    var e := LineEnd(data, k, |data|);
    LineKeepsPairs(data, k, |data|);
    LineOfItsOwn(data, k, |data|);
    assert EventsIn(identity, base, data, e, e) == [];
    assert EventsIn(identity, base, data, k, e) == [Event(identity, base + k, e - k)];
    if k > 0 { EventsOfCut(identity, base, data, 0, k, e); }
  }

  /** Where no terminated line starts, the parse is over: `k` is the last boundary. */
  lemma NothingLeft(identity: nat, base: nat, data: seq<Byte>, k: nat)
    requires Boundary(data, k) && !SplitsPair(data, k) && (k < |data| ==> !Ends(data[LineEnd(data, k, |data|) - 1]))
    ensures Complete(data) == k && EventsIn(identity, base, data, 0, |data|) == EventsIn(identity, base, data, 0, k)
  {
    BoundaryAtMostLast(data, |data|, k);
    var c := Complete(data);
    if k < c && c < |data| { UnterminatedLine(data, k, c - 1); }
    if 0 < k { EventsOfCut(identity, base, data, 0, k, |data|); }
  }

  lemma UnterminatedLine(data: seq<Byte>, k: nat, i: nat)
    requires k <= i < |data| && !Ends(data[LineEnd(data, k, |data|) - 1])
    ensures !Ends(data[i])
  {
    if Ends(data[i]) && i + 1 < |data| { LineEndsOnce(data, k, |data|, i); }
  }

  // ---- What callers need about events ----

  /** A window parses as if it stood alone at its offset. */
  lemma {:induction false} EventsOfWindow(identity: nat, base: nat, data: seq<Byte>, o: nat, window: seq<Byte>, k: nat)
    requires WindowAt(data, o, window) && k <= |window|
    ensures EventsIn(identity, base, data, o + k, o + |window|) == EventsIn(identity, base + o, window, k, |window|)
    decreases |window| - k
  {
    if k < |window| {
      var e := LineEnd(window, k, |window|);
      LineEndInWindow(data, o, window, k);
      EventsOfWindow(identity, base, data, o, window, e);
    }
  }

  /** Parsing a chunk read at `o` yields the events of its window of the file. */
  lemma EventsOfChunk(identity: nat, data: seq<Byte>, o: nat, window: seq<Byte>)
    requires WindowAt(data, o, window)
    ensures EventsIn(identity, 0, data, o, o + |window|) == EventsIn(identity, o, window, 0, |window|)
  {
    var k := 0;
    EventsOfWindow(identity, 0, data, o, window, k);
    assert o + k == o && 0 + o == o;
  }

  /**
   The bytes `[o, end)` of a file, read as a chunk at a line start: where their complete lines end, and their
   events.
   */
  lemma EventsOfBytes(identity: nat, data: seq<Byte>, o: nat, end: nat)
    requires o <= end <= |data| && Boundary(data, o)
    ensures o + Complete(Bytes(data, o, end)) == LastBoundary(data, end)
    ensures EventsIn(identity, 0, data, o, end) == EventsIn(identity, o, Bytes(data, o, end), 0, end - o)
  {
    var window := Bytes(data, o, end);
    BytesAreWindow(data, o, end);
    assert o + |window| == end;
    CompleteInWindow(data, o, window);
    EventsOfChunk(identity, data, o, window);
  }

  lemma FirstEvent(identity: nat, base: nat, data: seq<Byte>, k: nat, e: nat, end: nat, rest: seq<Event>)
    requires k < end <= |data| && e == LineEnd(data, k, end) && Ends(data[e - 1])
    requires rest == EventsIn(identity, base, data, e, end)
    ensures EventsIn(identity, base, data, k, end) == Cat([Event(identity, base + k, e - k)], rest)
  {
  }

  /** Chunk independence: cutting a window at a line boundary changes nothing. */
  lemma {:induction false} EventsOfCut(identity: nat, base: nat, data: seq<Byte>, k: nat, p: nat, end: nat)
    requires k <= p <= end <= |data| && Boundary(data, p) && !SplitsPair(data, p)
    ensures EventsIn(identity, base, data, k, end)
         == Cat(EventsIn(identity, base, data, k, p), EventsIn(identity, base, data, p, end))
    decreases p - k
  {
    if k < p {
      var e := LineEnd(data, k, end);
      LineEndIsNext(data, k, end, p);
      FirstEvent(identity, base, data, k, e, end, EventsIn(identity, base, data, e, end));
      FirstEvent(identity, base, data, k, e, p, EventsIn(identity, base, data, e, p));
      EventsOfCut(identity, base, data, e, p, end);
      CatAssociates([Event(identity, base + k, e - k)], EventsIn(identity, base, data, e, p),
                    EventsIn(identity, base, data, p, end));
    }
  }

  /** Events are nonempty exactly when a boundary lies behind the start of the window. */
  lemma EventsNonempty(identity: nat, base: nat, data: seq<Byte>, k: nat, end: nat)
    requires k <= end <= |data|
    ensures EventsIn(identity, base, data, k, end) != [] <==> k < LastBoundary(data, end)
  {
    if k < end {
      var e := LineEnd(data, k, end);
      if LastBoundary(data, end) <= k { LineWithoutEnd(data, k, end); }
      else if !Ends(data[e - 1]) {
        var b := LastBoundary(data, end);
        assert e == end;
        if b < end { LineEndsOnce(data, k, end, b - 1); }
      }
    }
  }

  /** An unterminated rest yields no event. */
  lemma EventsStopAtBoundary(identity: nat, data: seq<Byte>, k: nat, end: nat)
    requires k <= end <= |data| && Boundary(data, k)
    ensures k <= LastBoundary(data, end)
    ensures EventsIn(identity, 0, data, k, end) == EventsIn(identity, 0, data, k, LastBoundary(data, end))
  {
    BoundaryAtMostLast(data, end, k);
    var b := LastBoundary(data, end);
    if b < end {
      NoTerminatorAfterBoundary(data, end, b);
      EventsNonempty(identity, 0, data, b, end);
      if k < b { EventsOfCut(identity, 0, data, k, b, end); }
    }
  }

  /** A chunk read at a line start yields the events up to the last boundary in it. */
  lemma ChunkStopsAtBoundary(identity: nat, data: seq<Byte>, o: nat, end: nat, chunk: seq<Byte>)
    requires o <= end <= |data| && Boundary(data, o) && chunk == Bytes(data, o, end)
    ensures StopsAtBoundary(identity, data, o, chunk)
  {
    EventsOfBytes(identity, data, o, end);
    EventsStopAtBoundary(identity, data, o, end);
  }

  /** The complete lines of the chunk are lines of the data, and its events are theirs. */
  ghost predicate StopsAtBoundary(identity: nat, data: seq<Byte>, o: nat, chunk: seq<Byte>)
    requires o + |chunk| <= |data|
  {
    && o + Complete(chunk) == LastBoundary(data, o + |chunk|)
    && EventsIn(identity, o, chunk, 0, |chunk|) == EventsIn(identity, 0, data, o, o + Complete(chunk))
  }

  lemma WindowOfWindow(a: seq<Byte>, b: seq<Byte>, end: nat)
    requires WindowAt(b, 0, a) && end <= |a|
    ensures WindowAt(a, 0, Bytes(a, 0, end)) && WindowAt(b, 0, Bytes(a, 0, end))
  {
    BytesAreWindow(a, 0, end);
  }

  /** Growing a file leaves the events of its old windows alone. */
  lemma EventsOfPrefix(identity: nat, a: seq<Byte>, b: seq<Byte>, k: nat, end: nat)
    requires k <= end <= |a| && WindowAt(b, 0, a)
    ensures EventsIn(identity, 0, b, k, end) == EventsIn(identity, 0, a, k, end)
  {
    var window := Bytes(a, 0, end);
    WindowOfWindow(a, b, end);
    EventsOfWindow(identity, 0, a, 0, window, k);
    EventsOfWindow(identity, 0, b, 0, window, k);
  }

  /** The events of whole lines are those lines: as many, in order, each with its length. */
  lemma {:induction false} EventsAreLines(identity: nat, base: nat, data: seq<Byte>, k: nat)
    requires Boundary(data, k) && Whole(data)
    ensures var events, lines := EventsIn(identity, base, data, k, |data|), LinesIn(data, k, |data|);
      |events| == |lines| && forall i :: 0 <= i < |events| ==> events[i].length == |lines[i]|
    decreases |data| - k
  {
    if k < |data| {
      var e := LineEnd(data, k, |data|);
      EventsAreLines(identity, base, data, e);
      FirstOfLines(data, k, LinesIn(data, k, |data|));
      LengthsAgree(Event(identity, base + k, e - k), EventsIn(identity, base, data, e, |data|),
                   LinesIn(data, k, |data|));
    }
  }

  lemma LengthsAgree(first: Event, events: seq<Event>, lines: seq<seq<Byte>>)
    requires lines != [] && first.length == |lines[0]| && |events| == |lines[1..]|
    requires forall i :: 0 <= i < |events| ==> events[i].length == |lines[1..][i]|
    ensures var all := Cat([first], events);
      |all| == |lines| && forall i :: 0 <= i < |all| ==> all[i].length == |lines[i]|
  {
    var all := Cat([first], events);
    forall i | 0 < i < |all| ensures all[i].length == |lines[i]| {
      assert all[i] == events[i - 1] && lines[i] == lines[1..][i - 1];
    }
  }

  /** Each event starts where the one before it ends, so that no byte is skipped or read twice. */
  lemma {:induction false} EventsAreAdjacent(identity: nat, base: nat, data: seq<Byte>, k: nat, end: nat, i: nat)
    requires k <= end <= |data| && i < |EventsIn(identity, base, data, k, end)|
    ensures var events := EventsIn(identity, base, data, k, end);
      && events[i].identity == identity && events[i].length > 0
      && events[i].offset == if i == 0 then base + k else events[i - 1].offset + events[i - 1].length
    decreases end - k
  {
    var e := LineEnd(data, k, end);
    var rest := EventsIn(identity, base, data, e, end);
    if i > 0 {
      EventsAreAdjacent(identity, base, data, e, end, i - 1);
      assert EventsIn(identity, base, data, k, end)[i] == rest[i - 1];
    }
  }
}
