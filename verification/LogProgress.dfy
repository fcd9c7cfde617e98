/** When collection advances, when it stalls, that it catches up, and that backfill is chunk-independent. */
module LogProgress {
  import opened Wrappers
  import opened Lines
  import opened LogParsing
  import opened LogDelta
  import opened LogRuns

  // ---- Runs from the empty state ----

  /**
   Over every run in which no collection reported a gap, the committed events are exactly the complete
   lines from the start of the first current file up to the cursor, and the cursor splits no line.
   */
  lemma DeliveredExactlyOnce(limit: nat, steps: seq<Step>)
    requires Legal(limit, FRESH, steps)
    ensures var w := Run(limit, FRESH, steps);
      w.gaps == 0 && w.stored.cursor.Some? ==>
        var c := w.stored.cursor.value;
        exists k: nat :: w.origin <= k && Position(w.all, k, c.offset) && w.all[k].identity == c.identity
          && w.stored.events == Span(w.all, w.origin, 0, k, c.offset)
  {
    RunKeepsInv(limit, FRESH, steps);
    var w := Run(limit, FRESH, steps);
    if w.gaps == 0 && w.stored.cursor.Some? {
      var c := w.stored.cursor.value;
      var k: nat :| CommittedTo(w.all, w.stored.events, w.origin, w.earlier, k, c.offset)
                  && w.all[k].identity == c.identity;
      assert w.stored.events == Span(w.all, w.origin, 0, k, c.offset);
    }
  }

  predicate Has(name: Option<LogFile>, identity: nat) {
    name.Some? && name.value.identity == identity
  }

  /** A collection reports a gap exactly when none of the three names is that of its cursor's file. */
  lemma GapExactly(limit: nat, w: World)
    requires Inv(w)
    ensures CollectStatus(w.dir, limit, w.stored.cursor) == Missing <==> w.dir.current.None?
    ensures w.dir.current.None? ==> CollectStep(w.dir, limit, w.stored) == w.stored
    ensures w.dir.current.Some? ==>
      (CollectStatus(w.dir, limit, w.stored.cursor) == Partial <==>
        && w.stored.cursor.Some?
        && var identity := w.stored.cursor.value.identity;
           !Has(w.dir.second, identity) && !Has(w.dir.first, identity) && !Has(w.dir.current, identity))
  {
    if w.dir.current.Some? {
      GapAmongCandidates(limit, w);
      NamesAreCandidates(w.dir);
    }
  }

  /** Over every run: the status tells whether the file of the cursor still has one of the three names. */
  lemma GapInRuns(limit: nat, steps: seq<Step>)
    requires Legal(limit, FRESH, steps)
    ensures var w := Run(limit, FRESH, steps);
      var recorded, status := w.stored.cursor, CollectStatus(w.dir, limit, w.stored.cursor);
      && (status == Missing <==> w.dir.current.None?)
      && (status == Partial <==> w.dir.current.Some? && recorded.Some? && !Has(w.dir.second, recorded.value.identity)
                                 && !Has(w.dir.first, recorded.value.identity)
                                 && !Has(w.dir.current, recorded.value.identity))
  {
    RunKeepsInv(limit, FRESH, steps);
    GapExactly(limit, Run(limit, FRESH, steps));
  }

  lemma NamesAreCandidates(dir: Directory)
    ensures forall f :: f in Candidates(dir) <==>
      dir.second == Some(f) || dir.first == Some(f) || dir.current == Some(f)
  {
  }

  lemma GapAmongCandidates(limit: nat, w: World)
    requires Inv(w) && w.dir.current.Some?
    ensures CollectStatus(w.dir, limit, w.stored.cursor) == Partial
       <==> w.stored.cursor.Some? && forall f :: f in Candidates(w.dir) ==> f.identity != w.stored.cursor.value.identity
  {
    CurrentIsNewest(w.all, w.dir);
    CollectStepStores(w.dir, limit, w.stored);
    if w.stored.cursor.Some? {
      var c := w.stored.cursor.value;
      var k: nat :| CommittedTo(w.all, w.stored.events, w.origin, w.earlier, k, c.offset)
                  && w.all[k].identity == c.identity;
      GapWhenUnnamed(w.all, Candidates(w.dir), c, k);
    }
  }

  lemma GapWhenUnnamed(all: seq<LogFile>, files: seq<LogFile>, c: Cursor, k: nat)
    requires DistinctIdentities(all) && Newest(all, files) && files != []
    requires Position(all, k, c.offset) && all[k].identity == c.identity
    ensures ChooseStart(files, Some(c)).gap <==> forall f :: f in files ==> f.identity != c.identity
  {
    ResumeAtCursor(all, files, c, k);
    if k < |all| - |files| {
      forall t | 0 <= t < |files| ensures files[t].identity != c.identity {
        assert all[|all| - |files| + t] == files[t];
      }
    } else {
      assert files[k - (|all| - |files|)] in files;
    }
  }

  // ---- What a collection commits, name by name ----

  /** Reading `n` bytes from file `i`, offset `o`, on ends in file `k`; the last line boundary read there is `p`. */
  ghost predicate Furthest(files: seq<LogFile>, i: nat, o: nat, n: nat, k: nat, p: nat)
    requires i < |files| && o <= |files[i].content|
    decreases |files| - i
  {
    var rest := |files[i].content| - o;
    if n <= rest || i + 1 == |files| then k == i && p == LastBoundary(files[i].content, Min(o + n, |files[i].content|))
    else Furthest(files, i + 1, 0, n - rest, k, p)
  }

  lemma {:induction false} CollectionIsFurthest(files: seq<LogFile>, i: nat, o: nat, n: nat) returns (k: nat, p: nat)
    requires Plain(files) && RotatedWhole(files) && Position(files, i, o) && n > 0
    ensures Covers(files, i, o, n, k, p) && Furthest(files, i, o, n, k, p)
    decreases |files| - i
  {
    k := i;
    if Cut(files, i, o, n) {
      p := CollectionCut(files, i, o, n);
      FurthestHere(files, i, o, n, p);
    } else if GoesOn(files, i, o, n) {
      var left := n - (|files[i].content| - o);
      k, p := CollectionIsFurthest(files, i + 1, 0, left);
      CollectionGoesOn(files, i, o, n, k, p);
      assert Furthest(files, i, o, n, k, p) == Furthest(files, i + 1, 0, left, k, p);
    } else {
      p := CollectionStop(files, i, o, n);
      FurthestHere(files, i, o, n, p);
    }
  }

  lemma FurthestHere(files: seq<LogFile>, i: nat, o: nat, n: nat, p: nat)
    requires Plain(files) && RotatedWhole(files) && Position(files, i, o) && n > 0 && !GoesOn(files, i, o, n)
    requires p == o + Complete(ReadAt(files[i], o, n))
    ensures Furthest(files, i, o, n, i, p)
  {
    SegmentInFile(files[i], o, n);
  }

  /** The start that a cursor in a named file leads to, and what the named files are. */
  lemma StartAt(w: World, i: nat) returns (files: seq<LogFile>)
    requires Inv(w) && w.dir.current.Some? && w.stored.cursor.Some?
    requires i < |Candidates(w.dir)| && Candidates(w.dir)[i].identity == w.stored.cursor.value.identity
    ensures files == Candidates(w.dir) && Plain(files) && RotatedWhole(files)
    ensures Position(files, i, w.stored.cursor.value.offset)
    ensures ChooseStart(files, w.stored.cursor) == Start(i, w.stored.cursor.value.offset, false)
  {
    files := Candidates(w.dir);
    SuffixIsSound(w.all, files);
    var c := w.stored.cursor.value;
    var k: nat :| CommittedTo(w.all, w.stored.events, w.origin, w.earlier, k, c.offset)
                && w.all[k].identity == c.identity;
    var base := |w.all| - |files|;
    assert w.all[base + i] == files[i];
    assert k == base + i;
    ResumeAtCursor(w.all, files, c, k);
  }

  /** The step commits the lines of these files, in this order, from file `i`, offset `o`, as far as `n` bytes go. */
  ghost predicate Commits(files: seq<LogFile>, before: Stored, after: Stored, i: nat, o: nat, n: nat) {
    i < |files| && o <= |files[i].content|
    && exists k: nat, p: nat :: Extends(files, before, after, i, o, k, p) && Furthest(files, i, o, n, k, p)
  }

  lemma StepFrom(limit: nat, w: World, files: seq<LogFile>, s: Start)
    requires w.dir.current.Some? && files == Candidates(w.dir) && Plain(files) && RotatedWhole(files)
    requires files != [] && s == ChooseStart(files, w.stored.cursor) && Position(files, s.index, s.offset)
    ensures Commits(files, w.stored, CollectStep(w.dir, limit, w.stored), s.index, s.offset, Max(1, limit))
    ensures CollectStatus(w.dir, limit, w.stored.cursor) == if s.gap then Partial else Success
  {
    CollectStepStores(w.dir, limit, w.stored);
    var k, p := CollectionIsFurthest(files, s.index, s.offset, Max(1, limit));
    CollectedIsStored(files, files, s.index, s.index, s.offset, limit, w.stored, k, p);
  }

  /**
   After two rotations since the last collection, the next one commits the complete lines of the rest of `path.2`,
   then those of `path.1`, then those of `path`, as far as the limit reaches.
   */
  lemma ResumedInSecond(limit: nat, w: World, a: LogFile, b: LogFile, c: LogFile, o: nat)
    requires Inv(w) && w.dir == Directory(Some(a), Some(b), Some(c))
    requires w.stored.cursor == Some(Cursor(a.identity, o))
    ensures CollectStatus(w.dir, limit, w.stored.cursor) == Success
    ensures Commits([a, b, c], w.stored, CollectStep(w.dir, limit, w.stored), 0, o, Max(1, limit))
  {
    assert Candidates(w.dir) == [a, b, c];
    var i := 0;
    var files := StartAt(w, i);
    StepFrom(limit, w, files, Start(i, o, false));
  }

  /** With its cursor in the file rotated last, a collection commits the rest of that file and then lines of `path`. */
  lemma ResumedInRotated(limit: nat, w: World, b: LogFile, c: LogFile, o: nat)
    requires Inv(w) && w.dir.current == Some(c) && w.stored.cursor == Some(Cursor(b.identity, o))
    requires w.dir.first == Some(b) || (w.dir.first.None? && w.dir.second == Some(b))
    ensures CollectStatus(w.dir, limit, w.stored.cursor) == Success
    ensures Commits([b, c], w.stored, CollectStep(w.dir, limit, w.stored), 0, o, Max(1, limit))
  {
    var i := LastTwo(w.dir, b, c);
    var files := StartAt(w, i);
    StepFrom(limit, w, files, Start(i, o, false));
    CommitsInTail(files, w.stored, CollectStep(w.dir, limit, w.stored), i, o, Max(1, limit));
  }

  lemma LastTwo(dir: Directory, b: LogFile, c: LogFile) returns (i: nat)
    requires dir.current == Some(c) && (dir.first == Some(b) || (dir.first.None? && dir.second == Some(b)))
    ensures i + 2 == |Candidates(dir)| && Candidates(dir)[i] == b && Candidates(dir)[i..] == [b, c]
  {
    i := if dir.first.Some? && dir.second.Some? then 1 else 0;
  }

  /**
   With its cursor in `path`, a collection goes on there; without one, or with one whose file has no name any
   more, it starts at the beginning of `path`.
   */
  lemma StartedInCurrent(limit: nat, w: World, c: LogFile, o: nat)
    requires Inv(w) && w.dir.current == Some(c)
    requires w.stored.cursor == Some(Cursor(c.identity, o))
          || (o == 0 && (w.stored.cursor.None? || CollectStatus(w.dir, limit, w.stored.cursor) == Partial))
    ensures Commits([c], w.stored, CollectStep(w.dir, limit, w.stored), 0, o, Max(1, limit))
  {
    var files := Candidates(w.dir);
    var i := |files| - 1;
    if w.stored.cursor == Some(Cursor(c.identity, o)) {
      var same := StartAt(w, i);
      StepFrom(limit, w, files, Start(i, o, false));
    } else {
      StartedAfresh(limit, w, files, i, o);
    }
    CommitsInTail(files, w.stored, CollectStep(w.dir, limit, w.stored), i, o, Max(1, limit));
    assert files[i..] == [c];
  }

  lemma StartedAfresh(limit: nat, w: World, files: seq<LogFile>, i: nat, o: nat)
    requires Inv(w) && w.dir.current.Some? && files == Candidates(w.dir) && i == |files| - 1 && o == 0
    requires w.stored.cursor.None? || CollectStatus(w.dir, limit, w.stored.cursor) == Partial
    ensures Commits(files, w.stored, CollectStep(w.dir, limit, w.stored), i, o, Max(1, limit))
  {
    SuffixIsSound(w.all, files);
    CollectStepStores(w.dir, limit, w.stored);
    StepFrom(limit, w, files, Start(i, o, w.stored.cursor.Some?));
  }

  /** Files before the start do not matter. */
  lemma CommitsInTail(files: seq<LogFile>, before: Stored, after: Stored, i: nat, o: nat, n: nat)
    requires Commits(files, before, after, i, o, n)
    ensures Commits(files[i..], before, after, 0, o, n)
  {
    var k: nat, p: nat :| Extends(files, before, after, i, o, k, p) && Furthest(files, i, o, n, k, p);
    var tail, zero := files[i..], 0;
    FurthestInTail(files, tail, i, zero, o, n, k, p);
    SpanFrame(tail, files, i, zero, o, k - i, p);
    assert Extends(tail, before, after, zero, o, k - i, p);
  }

  lemma {:induction false} FurthestInTail(files: seq<LogFile>, tail: seq<LogFile>, shift: nat, i: nat, o: nat, n: nat,
                                          k: nat, p: nat)
    requires shift <= |files| && tail == files[shift..] && i < |tail| && o <= |tail[i].content|
    requires Furthest(files, shift + i, o, n, k, p)
    ensures k >= shift && Furthest(tail, i, o, n, k - shift, p)
    decreases |tail| - i
  {
    var rest := |tail[i].content| - o;
    if n > rest && i + 1 < |tail| { FurthestInTail(files, tail, shift, i + 1, 0, n - rest, k, p); }
  }

  // ---- When a collection commits something ----

  /** The first unread line, wherever it is, ends within `limit` bytes. */
  ghost predicate NextLineFits(files: seq<LogFile>, i: nat, o: nat, limit: nat)
    requires i < |files| && o <= |files[i].content|
    decreases |files| - i
  {
    if o < |files[i].content| then Complete(ReadAt(files[i], o, limit)) > 0
    else i + 1 < |files| && NextLineFits(files, i + 1, 0, limit)
  }

  /** The first segment decides: a complete line in it is committed, and without one the loop stops. */
  lemma FirstSegmentDecides(s: Segment, rest: seq<Segment>, cursor: Cursor)
    requires s.data != []
    ensures CollectSegments(Cat([s], rest), cursor).events != [] <==> Complete(s.data) > 0
    ensures Complete(s.data) == 0 ==>
      CollectSegments(Cat([s], rest), cursor) == Collected([], Cursor(s.identity, s.start))
  {
    EventsNonempty(s.identity, s.start, s.data, 0, |s.data|);
  }

  /** A collection commits at least one line exactly when the first unread line fits into the byte limit. */
  lemma {:induction false} ProgressExactly(files: seq<LogFile>, i: nat, o: nat, limit: nat)
    requires i < |files| && o <= |files[i].content| && limit > 0
    ensures var r := ReadOn(files, i, o, limit);
      CollectSegments(r.segments, r.cursor).events != [] <==> NextLineFits(files, i, o, limit)
    decreases |files| - i
  {
    var f := files[i];
    if o < |f.content| {
      var rest := FirstIsRead(files, i, o, limit);
      FirstSegmentDecides(Segment(f.identity, o, ReadAt(f, o, limit)), rest, ReadOn(files, i, o, limit).cursor);
    } else if i + 1 < |files| {
      ProgressExactly(files, i + 1, 0, limit);
    }
  }

  lemma FirstIsRead(files: seq<LogFile>, i: nat, o: nat, limit: nat) returns (rest: seq<Segment>)
    requires i < |files| && o < |files[i].content| && limit > 0
    ensures ReadOn(files, i, o, limit).segments
         == Cat([Segment(files[i].identity, o, ReadAt(files[i], o, limit))], rest)
    ensures ReadAt(files[i], o, limit) != []
  {
    var data := ReadAt(files[i], o, limit);
    assert |data| > 0;
    var end := o + |data|;
    var left := limit - |data|;
    if left == 0 || end < |files[i].content| || i + 1 == |files| {
      rest := [];
    } else {
      rest := ReadOn(files, i + 1, 0, left).segments;
    }
  }

  lemma NothingComplete(f: LogFile, o: nat, limit: nat)
    requires o < |f.content| && LastBoundary(f.content, |f.content|) <= o
    ensures Complete(ReadAt(f, o, limit)) == 0
  {
    var data := ReadAt(f, o, limit);
    var n := Complete(data);
    if n > 0 {
      BytesAreWindow(f.content, o, Min(o + limit, |f.content|));
      NoTerminatorAfterBoundary(f.content, |f.content|, o + n - 1);
    }
  }

  /** An unterminated rest, such as a file rotated in mid-line leaves, stops the cursor for good. */
  lemma UnterminatedRestStalls(files: seq<LogFile>, i: nat, o: nat, limit: nat)
    requires i < |files| && o < |files[i].content| && limit > 0
    requires LastBoundary(files[i].content, |files[i].content|) <= o
    ensures var r := ReadOn(files, i, o, limit);
      CollectSegments(r.segments, r.cursor) == Collected([], Cursor(files[i].identity, o))
  {
    var f := files[i];
    NothingComplete(f, o, limit);
    var rest := FirstIsRead(files, i, o, limit);
    FirstSegmentDecides(Segment(f.identity, o, ReadAt(f, o, limit)), rest, ReadOn(files, i, o, limit).cursor);
  }

  // ---- Catching up ----

  /** The line that starts at `q` is at most `limit` bytes long. */
  ghost predicate LineFits(content: seq<Byte>, q: nat, limit: nat) {
    q < |content| ==> LineEnd(content, q, |content|) <= q + limit
  }

  /** No complete line from `o` on is longer than `limit`. */
  ghost predicate LinesFit(content: seq<Byte>, o: nat, limit: nat) {
    forall q {:trigger LineFits(content, q, limit)} ::
      o <= q < Complete(content) && Boundary(content, q) ==> LineFits(content, q, limit)
  }

  /** A chunk holds a complete line exactly when the first unread line of the file fits into it. */
  lemma ChunkHoldsLine(file: LogFile, o: nat, limit: nat)
    requires NoCrLf(file.content) && Boundary(file.content, o)
    ensures Complete(ReadAt(file, o, limit)) > 0
       <==> o < Complete(file.content) && LineFits(file.content, o, limit)
  {
    var content := file.content;
    var end := Min(o + limit, |content|);
    EventsOfBytes(file.identity, content, o, end);
    var b := LastBoundary(content, end);
    if o < Complete(content) { LineEndIsNext(content, o, |content|, Complete(content)); }
    if o < b {
      BoundaryAtMostLast(content, |content|, b);
      LineEndIsNext(content, o, |content|, b);
    } else if o < Complete(content) && LineEnd(content, o, |content|) <= end {
      BoundaryAtMostLast(content, end, LineEnd(content, o, |content|));
    }
  }

  /** The bytes of complete lines from `(i, o)` on. */
  ghost function Unread(files: seq<LogFile>, i: nat, o: nat): nat
    requires Position(files, i, o)
    decreases |files| - i
  {
    BoundaryAtMostLast(files[i].content, |files[i].content|, o);
    Complete(files[i].content) - o + if i + 1 < |files| then Unread(files, i + 1, 0) else 0
  }

  ghost predicate Readable(files: seq<LogFile>, limit: nat) {
    && limit > 0 && Plain(files) && RotatedWhole(files)
    && forall i :: 0 <= i < |files| ==> LinesFit(files[i].content, 0, limit)
  }

  lemma {:induction false} UnreadLineFits(files: seq<LogFile>, i: nat, o: nat, limit: nat)
    requires Readable(files, limit) && Position(files, i, o) && Unread(files, i, o) > 0
    ensures NextLineFits(files, i, o, limit)
    decreases |files| - i
  {
    var content := files[i].content;
    BoundaryAtMostLast(content, |content|, o);
    if o < Complete(content) {
      assert LineFits(content, o, limit);
      ChunkHoldsLine(files[i], o, limit);
    } else if i + 1 < |files| {
      BoundaryAtMostLast(content, |content|, |content|);
      UnreadLineFits(files, i + 1, 0, limit);
    }
  }

  /** What a collection reads is what it leaves less unread. */
  lemma {:induction false} UnreadAfter(files: seq<LogFile>, i: nat, o: nat, j: nat, p: nat)
    requires RotatedWhole(files) && Position(files, i, o) && i <= j && Position(files, j, p) && (i == j ==> o <= p)
    ensures Unread(files, j, p) <= Unread(files, i, o)
    ensures Span(files, i, o, j, p) != [] ==> Unread(files, j, p) < Unread(files, i, o)
    decreases j - i
  {
    var f := files[i];
    if i == j {
      BoundaryAtMostLast(f.content, p, o);
    } else {
      BoundaryAtMostLast(f.content, |f.content|, |f.content|);
      UnreadAfter(files, i + 1, 0, j, p);
      assert Position(files, i + 1, 0);
      EventsNonempty(f.identity, 0, f.content, o, |f.content|);
    }
  }

  /** The cursor of `stored` stands at `(i, o)`. */
  ghost predicate At(files: seq<LogFile>, stored: Stored, i: nat, o: nat) {
    Position(files, i, o) && stored.cursor == Some(Cursor(files[i].identity, o))
  }

  /** From `(i, o)` the step commits a span, and a nonempty one while complete lines are unread. */
  ghost predicate Advances(files: seq<LogFile>, before: Stored, after: Stored, i: nat, o: nat)
    requires Position(files, i, o)
  {
    exists j: nat, p: nat :: Extends(files, before, after, i, o, j, p)
      && (Unread(files, j, p) < Unread(files, i, o) || Unread(files, j, p) == Unread(files, i, o) == 0)
  }

  lemma ExtensionsJoin(files: seq<LogFile>, a: Stored, b: Stored, c: Stored, i: nat, o: nat, j: nat, p: nat, k: nat,
                       q: nat)
    requires Plain(files) && Extends(files, a, b, i, o, j, p) && Extends(files, b, c, j, p, k, q)
    ensures Extends(files, a, c, i, o, k, q)
  {
    SpanOfSpans(files, i, o, j, p, k, q);
    CatAssociates(a.events, Span(files, i, o, j, p), Span(files, j, p, k, q));
  }

  lemma NothingExtends(files: seq<LogFile>, a: Stored, i: nat, o: nat)
    requires At(files, a, i, o)
    ensures Extends(files, a, a, i, o, i, o)
  {
    assert Span(files, i, o, i, o) == [];
  }

  lemma NewestOfItself(files: seq<LogFile>)
    ensures Newest(files, files)
  {
  }

  /** One collection from a cursor among the named files. */
  lemma CollectionAdvances(dir: Directory, limit: nat, stored: Stored, files: seq<LogFile>, i: nat, o: nat)
    requires dir.current.Some? && files == Candidates(dir) && DistinctIdentities(files) && Readable(files, limit)
    requires At(files, stored, i, o)
    ensures Advances(files, stored, CollectStep(dir, limit, stored), i, o)
  {
    NewestOfItself(files);
    CollectStepStores(dir, limit, stored);
    ResumeAtCursor(files, files, Cursor(files[i].identity, o), i);
    var j, p := CollectionIsSpan(files, i, o, limit);
    CollectedIsStored(files, files, i, i, o, limit, stored, j, p);
    UnreadAfter(files, i, o, j, p);
    if Unread(files, i, o) > 0 {
      UnreadLineFits(files, i, o, limit);
      ProgressExactly(files, i, o, limit);
    }
  }

  ghost function Repeat(step: Stored -> Stored, stored: Stored, n: nat): Stored
    decreases n
  {
    if n == 0 then stored else Repeat(step, step(stored), n - 1)
  }

  lemma TargetOf(files: seq<LogFile>, before: Stored, after: Stored, i: nat, o: nat) returns (k: nat, q: nat)
    requires Position(files, i, o) && Advances(files, before, after, i, o)
    ensures Extends(files, before, after, i, o, k, q) && At(files, after, k, q)
    ensures Unread(files, k, q) < Unread(files, i, o) || Unread(files, k, q) == Unread(files, i, o) == 0
  {
    k, q :| Extends(files, before, after, i, o, k, q)
      && (Unread(files, k, q) < Unread(files, i, o) || Unread(files, k, q) == Unread(files, i, o) == 0);
  }

  lemma {:induction false} AdvancingCatchesUp(files: seq<LogFile>, step: Stored -> Stored, stored: Stored, i: nat,
                                              o: nat, n: nat)
    returns (j: nat, p: nat)
    requires Plain(files) && At(files, stored, i, o) && Unread(files, i, o) <= n
    requires forall s, i: nat, o: nat :: At(files, s, i, o) ==> Advances(files, s, step(s), i, o)
    ensures Extends(files, stored, Repeat(step, stored, n), i, o, j, p) && Unread(files, j, p) == 0
    decreases n
  {
    if n == 0 {
      j, p := i, o;
      NothingExtends(files, stored, i, o);
    } else {
      var next := step(stored);
      var k, q := TargetOf(files, stored, next, i, o);
      j, p := AdvancingCatchesUp(files, step, next, k, q, n - 1);
      ExtensionsJoin(files, stored, next, Repeat(step, stored, n), i, o, k, q, j, p);
    }
  }

  /** When every line fits, collecting as often as bytes are unread commits everything up to the last complete line. */
  lemma CatchesUp(dir: Directory, limit: nat, stored: Stored, files: seq<LogFile>, i: nat, o: nat, n: nat)
    returns (j: nat, p: nat)
    requires dir.current.Some? && files == Candidates(dir) && DistinctIdentities(files) && Readable(files, limit)
    requires At(files, stored, i, o) && Unread(files, i, o) <= n
    ensures Extends(files, stored, Repeat(s => CollectStep(dir, limit, s), stored, n), i, o, j, p)
    ensures Unread(files, j, p) == 0
  {
    var step := s => CollectStep(dir, limit, s);
    forall s, i: nat, o: nat | At(files, s, i, o) ensures Advances(files, s, step(s), i, o) {
      CollectionAdvances(dir, limit, s, files, i, o);
    }
    j, p := AdvancingCatchesUp(files, step, stored, i, o, n);
  }

  // ---- The steps of a run ----

  /** What each step does to the three names. A rotation moves files on and leaves no current one. */
  lemma StepsRename(limit: nat, w: World, step: Step)
    requires Enabled(w, step)
    ensures var a, b := w.dir, Next(limit, w, step).dir;
      match step
      case Append(data) =>
        && b.second == a.second && b.first == a.first
        && b.current == Some(LogFile(a.current.value.identity, a.current.value.content + data))
      case Rotate =>
        b.current == None && b.first == a.current && b.second == if a.first.Some? then a.first else a.second
      case Create(identity) => b.second == a.second && b.first == a.first && b.current == Some(LogFile(identity, []))
      case ExpireOldest => b.second == None && b.first == a.first && b.current == a.current
      case Collect => b == a
  {
  }

  /** And what it commits: only a collection does anything, and with a log always what one collection does. */
  lemma StepsCommit(limit: nat, w: World, step: Step)
    requires Enabled(w, step)
    ensures var after := Next(limit, w, step);
      && (step != Collect || w.dir.current.None? ==> after.stored == w.stored && after.gaps == w.gaps)
      && (step == Collect && w.dir.current.Some? ==>
            && after.stored == CollectStep(w.dir, limit, w.stored)
            && after.gaps == w.gaps + if CollectStatus(w.dir, limit, w.stored.cursor) == Partial then 1 else 0)
  {
  }

  // ---- A file that shrank ----

  /**
   A current file shorter than its cursor: reading starts in the newest older file that is long enough, at the
   cursor's offset; without one at the beginning of the current file, and the gap is reported.
   */
  lemma ShrunkFileStart(files: seq<LogFile>, c: Cursor)
    requires files != [] && files[|files| - 1].identity == c.identity && |files[|files| - 1].content| < c.offset
    requires forall t :: 0 <= t < |files| - 1 ==> files[t].identity != c.identity
    ensures var s, last := ChooseStart(files, Some(c)), |files| - 1;
      if exists t :: 0 <= t < last && |files[t].content| >= c.offset then
        && !s.gap && s.offset == c.offset && s.index < last && |files[s.index].content| >= c.offset
        && forall t :: s.index < t < last ==> |files[t].content| < c.offset
      else s == Start(last, 0, true)
  {
    NewestIsExact(files, |files| - 1, c.offset);
  }

  lemma {:induction false} NewestIsExact(files: seq<LogFile>, end: nat, size: nat)
    requires end <= |files|
    ensures var index := NewestOfSize(files, end, size);
      forall t :: (if index.Some? then index.value + 1 else 0) <= t < end ==> |files[t].content| < size
  {
    if end > 0 { NewestIsExact(files, end - 1, size); }
  }

  // ---- When the limit is reached ----

  /** The number of bytes from offset `o` of `files[i]` to the end of the newest file. */
  function Ahead(files: seq<LogFile>, i: nat, o: nat): (n: nat)
    requires i < |files| && o <= |files[i].content|
    decreases |files| - i
  {
    |files[i].content| - o + if i + 1 == |files| then 0 else Ahead(files, i + 1, 0)
  }

  /** Reading uses up the limit, or everything ahead if that is less. */
  lemma {:induction false} ReadingUsesLimit(files: seq<LogFile>, i: nat, o: nat, limit: nat, r: Reading)
    requires i < |files| && o <= |files[i].content| && r == ReadOn(files, i, o, limit)
    ensures r.remaining == if limit <= Ahead(files, i, o) then 0 else limit - Ahead(files, i, o)
    decreases |files| - i
  {
    var data := ReadAt(files[i], o, limit);
    if limit > |data| && i + 1 < |files| {
      ReadingUsesLimit(files, i + 1, 0, limit - |data|, ReadOn(files, i + 1, 0, limit - |data|));
    }
  }

  /** The answer says that the limit was reached if and only if at least that many bytes were ahead. */
  lemma LimitReachedExactly(dir: Directory, recorded: Option<Cursor>, limit: nat)
    requires dir.current.Some?
    ensures Candidates(dir) != []
    ensures var start := ChooseStart(Candidates(dir), recorded);
      FileDelta(dir, recorded, limit).limitReached
      <==> Ahead(Candidates(dir), start.index, start.offset) >= (if limit < 1 then 1 else limit)
  {
    NamesAreCandidates(dir);
    var files := Candidates(dir);
    assert dir.current.value in files;
    var start := ChooseStart(files, recorded);
    var n := if limit < 1 then 1 else limit;
    ReadingUsesLimit(files, start.index, start.offset, n, ReadOn(files, start.index, start.offset, n));
  }
}
