/**
 Whole runs of log writing, rotation and collection. Files are appended to, renamed and expire; the
 collector runs at any moment. Every run commits exactly the complete lines up to its cursor.
 */
module LogRuns {
  import opened Wrappers
  import opened Lines
  import opened LogParsing
  import opened LogDelta

  // ---- The lines between two positions of a sequence of files ----

  ghost predicate Position(files: seq<LogFile>, i: nat, o: nat) {
    i < |files| && Boundary(files[i].content, o)
  }

  /** The events of the complete lines from offset `o` of file `i` to offset `p` of file `j`, in order. */
  ghost function Span(files: seq<LogFile>, i: nat, o: nat, j: nat, p: nat): seq<Event>
    requires i <= j < |files| && o <= |files[i].content| && p <= |files[j].content| && (i == j ==> o <= p)
    decreases j - i
  {
    var f := files[i];
    if i == j then EventsIn(f.identity, 0, f.content, o, p)
    else Cat(EventsIn(f.identity, 0, f.content, o, |f.content|), Span(files, i + 1, 0, j, p))
  }

  /** No file holds a CR LF pair. */
  ghost predicate Plain(files: seq<LogFile>) {
    forall i :: 0 <= i < |files| ==> NoCrLf(files[i].content)
  }

  /** Every file but the newest ends with its last line. */
  ghost predicate RotatedWhole(files: seq<LogFile>) {
    forall i :: 0 <= i < |files| - 1 ==> Whole(files[i].content)
  }

  /** Two adjacent spans make one: nothing is lost, repeated or split at a cursor. */
  lemma {:induction false} SpanOfSpans(files: seq<LogFile>, i: nat, o: nat, j: nat, p: nat, k: nat, q: nat)
    requires Plain(files) && i <= j <= k < |files| && o <= |files[i].content| && q <= |files[k].content|
    requires Position(files, j, p) && (i == j ==> o <= p) && (j == k ==> p <= q)
    ensures i == k ==> o <= q
    ensures Span(files, i, o, k, q) == Cat(Span(files, i, o, j, p), Span(files, j, p, k, q))
    decreases j - i
  {
    var f := files[i];
    if i < j {
      SpanOfSpans(files, i + 1, 0, j, p, k, q);
      CatAssociates(EventsIn(f.identity, 0, f.content, o, |f.content|), Span(files, i + 1, 0, j, p),
                    Span(files, j, p, k, q));
    } else if j == k {
      EventsOfCut(f.identity, 0, f.content, o, p, q);
    } else {
      EventsOfCut(f.identity, 0, f.content, o, p, |f.content|);
      CatAssociates(EventsIn(f.identity, 0, f.content, o, p), EventsIn(f.identity, 0, f.content, p, |f.content|),
                    Span(files, j + 1, 0, k, q));
    }
  }

  /** A span over more than one file begins with the rest of the first. */
  lemma SpanStep(files: seq<LogFile>, other: seq<LogFile>, i: nat, i': nat, o: nat, j: nat, j': nat, p: nat)
    requires i < j < |files| && i' < j' < |other| && files[i] == other[i'] && o <= |files[i].content|
    requires p <= |files[j].content| && p <= |other[j'].content|
    requires Span(other, i' + 1, 0, j', p) == Span(files, i + 1, 0, j, p)
    ensures Span(other, i', o, j', p) == Span(files, i, o, j, p)
  {
  }

  /** A span reads only the files it crosses, and of the last one only what lies before its end. */
  lemma {:induction false} SpanFrame(files: seq<LogFile>, other: seq<LogFile>, shift: nat, i: nat, o: nat, j: nat,
                                     p: nat)
    requires i <= j < |files| && o <= |files[i].content| && p <= |files[j].content| && (i == j ==> o <= p)
    requires shift + j < |other| && forall t {:trigger files[t]} :: i <= t < j ==> other[shift + t] == files[t]
    requires other[shift + j].identity == files[j].identity && WindowAt(other[shift + j].content, 0, files[j].content)
    ensures Span(other, shift + i, o, shift + j, p) == Span(files, i, o, j, p)
    decreases j - i
  {
    if i < j {
      SpanFrame(files, other, shift, i + 1, 0, j, p);
      assert shift + (i + 1) == shift + i + 1;
      SpanStep(files, other, i, shift + i, o, j, shift + j, p);
    } else {
      SpanFrameLast(files[j], other[shift + j], o, p);
    }
  }

  lemma SpanFrameLast(f: LogFile, g: LogFile, o: nat, p: nat)
    requires o <= p <= |f.content| && f.identity == g.identity && WindowAt(g.content, 0, f.content)
    ensures EventsIn(g.identity, 0, g.content, o, p) == EventsIn(f.identity, 0, f.content, o, p)
  {
    EventsOfPrefix(f.identity, f.content, g.content, o, p);
  }

  // ---- One collection covers one span ----

  /** What the bytes read at a line boundary parse to, seen in the file. */
  lemma SegmentInFile(f: LogFile, o: nat, limit: nat)
    requires Boundary(f.content, o)
    ensures StopsAtBoundary(f.identity, f.content, o, ReadAt(f, o, limit))
  {
    var end := Min(o + limit, |f.content|);
    ChunkStopsAtBoundary(f.identity, f.content, o, end, ReadAt(f, o, limit));
  }

  /** Reading at most `limit` bytes from `(i, o)` on commits the span to the line boundary `(j, p)`. */
  ghost predicate Covers(files: seq<LogFile>, i: nat, o: nat, limit: nat, j: nat, p: nat) {
    && i <= j && Position(files, i, o) && Position(files, j, p) && (i == j ==> o <= p)
    && (var r := ReadOn(files, i, o, limit);
        CollectSegments(r.segments, r.cursor) == Collected(Span(files, i, o, j, p), Cursor(files[j].identity, p)))
  }

  /** The bytes read from file `i` end inside a line. */
  ghost predicate Cut(files: seq<LogFile>, i: nat, o: nat, limit: nat) {
    i < |files| && o <= |files[i].content| && var data := ReadAt(files[i], o, limit); Complete(data) < |data|
  }

  /** File `i` is read to its end, every line in it is complete, and the next file is due. */
  ghost predicate GoesOn(files: seq<LogFile>, i: nat, o: nat, limit: nat) {
    i + 1 < |files| && o <= |files[i].content| &&
    var data := ReadAt(files[i], o, limit);
    Complete(data) == |data| && limit - |data| > 0 && o + |data| == |files[i].content|
  }

  lemma CollectionCut(files: seq<LogFile>, i: nat, o: nat, limit: nat) returns (p: nat)
    requires Plain(files) && Position(files, i, o) && Cut(files, i, o, limit)
    ensures Covers(files, i, o, limit, i, p) && p == o + Complete(ReadAt(files[i], o, limit))
  {
    var f := files[i];
    var data := ReadAt(f, o, limit);
    p := o + Complete(data);
    SegmentInFile(f, o, limit);
    assert ReadOn(files, i, o, limit).segments[0] == Segment(f.identity, o, data);
  }

  lemma OneSegment(f: LogFile, o: nat, data: seq<Byte>, rest: seq<Segment>, cursor: Cursor)
    requires Complete(data) == |data|
    ensures CollectSegments(Cat(SegmentOf(f, o, data), rest), cursor)
         == CollectedAfter(EventsIn(f.identity, o, data, 0, |data|), CollectSegments(rest, cursor))
  {
    if data != [] && rest != [] { assert ([Segment(f.identity, o, data)] + rest)[1..] == rest; }
  }

  /** Reading stops cleanly in this file: at the limit, short of the end, or at the end of the newest file. */
  lemma CollectionStop(files: seq<LogFile>, i: nat, o: nat, limit: nat) returns (p: nat)
    requires Plain(files) && RotatedWhole(files) && Position(files, i, o)
    requires !Cut(files, i, o, limit) && !GoesOn(files, i, o, limit)
    ensures Covers(files, i, o, limit, i, p) && p == o + Complete(ReadAt(files[i], o, limit))
  {
    var f := files[i];
    var data := ReadAt(f, o, limit);
    p := o + |data|;
    SegmentInFile(f, o, limit);
    OneSegment(f, o, data, [], Cursor(f.identity, p));
  }

  lemma ReadingGoesOn(files: seq<LogFile>, i: nat, o: nat, limit: nat)
    requires GoesOn(files, i, o, limit)
    ensures var data := ReadAt(files[i], o, limit);
      && |data| == |files[i].content| - o
      && ReadOn(files, i, o, limit) == Prepend(SegmentOf(files[i], o, data), ReadOn(files, i + 1, 0, limit - |data|))
  {
  }

  lemma WholeRestOfFile(f: LogFile, o: nat, limit: nat)
    requires Boundary(f.content, o)
    requires var data := ReadAt(f, o, limit); Complete(data) == |data| == |f.content| - o
    ensures EventsIn(f.identity, o, ReadAt(f, o, limit), 0, |f.content| - o)
         == EventsIn(f.identity, 0, f.content, o, |f.content|)
  {
    SegmentInFile(f, o, limit);
  }

  /** Reading goes on with the next file. */
  lemma CollectionGoesOn(files: seq<LogFile>, i: nat, o: nat, limit: nat, j: nat, p: nat)
    requires Position(files, i, o) && GoesOn(files, i, o, limit)
    requires Covers(files, i + 1, 0, limit - (|files[i].content| - o), j, p)
    ensures Covers(files, i, o, limit, j, p)
  {
    var f := files[i];
    var data := ReadAt(f, o, limit);
    ReadingGoesOn(files, i, o, limit);
    var rest := ReadOn(files, i + 1, 0, limit - |data|);
    WholeRestOfFile(f, o, limit);
    OneSegment(f, o, data, rest.segments, rest.cursor);
  }

  /** A collection started at a line boundary commits one span and stops at a line boundary. */
  lemma {:induction false} CollectionIsSpan(files: seq<LogFile>, i: nat, o: nat, limit: nat)
    returns (j: nat, p: nat)
    requires Plain(files) && RotatedWhole(files) && Position(files, i, o)
    ensures Covers(files, i, o, limit, j, p)
    decreases |files| - i
  {
    j := i;
    if Cut(files, i, o, limit) {
      p := CollectionCut(files, i, o, limit);
    } else if GoesOn(files, i, o, limit) {
      j, p := CollectionIsSpan(files, i + 1, 0, limit - (|files[i].content| - o));
      CollectionGoesOn(files, i, o, limit, j, p);
    } else {
      p := CollectionStop(files, i, o, limit);
    }
  }

  // ---- Runs ----

  /**
   `dir` and `stored` are the real state. The rest records the history: `all` holds every file that ever
   existed, in order of creation, `origin` is the file where the current unbroken stream started, `earlier`
   what was committed before it, and `gaps` how many collections reported a rotation gap.
   */
  datatype World = World(dir: Directory, stored: Stored,
                         all: seq<LogFile>, origin: nat, earlier: seq<Event>, gaps: nat)

  datatype Step =
    | Append(data: seq<Byte>)
    | Rotate
    | Create(identity: nat)
    | ExpireOldest
    | Collect

  ghost predicate Enabled(w: World, step: Step) {
    match step
    case Append(data) => w.dir.current.Some? && NoCrLf(w.dir.current.value.content + data)
    case Rotate => w.dir.current.Some? && Whole(w.dir.current.value.content)
    case Create(identity) => w.dir.current.None? && forall f :: f in w.all ==> f.identity != identity
    case ExpireOldest => w.dir.second.Some?
    case Collect => true
  }

  function Renamed(dir: Directory): Directory {
    Directory(if dir.first.Some? then dir.first else dir.second, dir.current, None)
  }

  function WithNewest(files: seq<LogFile>, file: LogFile): seq<LogFile> {
    if files == [] then [file] else files[..|files| - 1] + [file]
  }

  ghost function Next(limit: nat, w: World, step: Step): World
    requires Enabled(w, step)
  {
    match step
    case Append(data) =>
      var f := w.dir.current.value;
      var f' := f.(content := f.content + data);
      w.(dir := w.dir.(current := Some(f')), all := WithNewest(w.all, f'))
    case Rotate => w.(dir := Renamed(w.dir))
    case Create(identity) =>
      var f := LogFile(identity, []);
      w.(dir := w.dir.(current := Some(f)), all := w.all + [f])
    case ExpireOldest => w.(dir := w.dir.(second := None))
    case Collect =>
      var after := CollectStep(w.dir, limit, w.stored);
      var status := CollectStatus(w.dir, limit, w.stored.cursor);
      if status == Missing then w
      else if status == Partial then
        w.(stored := after, origin := if w.all == [] then 0 else |w.all| - 1, earlier := w.stored.events,
           gaps := w.gaps + 1)
      else if w.stored.cursor.None? then
        w.(stored := after, origin := if w.all == [] then 0 else |w.all| - 1, earlier := w.stored.events)
      else w.(stored := after)
  }

  const FRESH := World(Directory(None, None, None), Stored(None, []), [], 0, [], 0)

  ghost predicate Legal(limit: nat, w: World, steps: seq<Step>)
    decreases |steps|
  {
    steps == [] || (Enabled(w, steps[0]) && Legal(limit, Next(limit, w, steps[0]), steps[1..]))
  }

  ghost function Run(limit: nat, w: World, steps: seq<Step>): World
    requires Legal(limit, w, steps)
    decreases |steps|
  {
    if steps == [] then w else Run(limit, Next(limit, w, steps[0]), steps[1..])
  }

  ghost predicate DistinctIdentities(files: seq<LogFile>) {
    forall i, j :: 0 <= i < j < |files| ==> files[i].identity != files[j].identity
  }

  /** What writers and rotation guarantee; `open` says whether the newest file is still written to. */
  ghost predicate FilesOk(files: seq<LogFile>, open: bool) {
    DistinctIdentities(files) && Plain(files) && RotatedWhole(files)
    && (open ==> files != []) && (!open && files != [] ==> Whole(files[|files| - 1].content))
  }

  /** Everything from `origin` to offset `offset` of file `k` was committed, exactly once. */
  ghost predicate CommittedTo(all: seq<LogFile>, events: seq<Event>, origin: nat, earlier: seq<Event>, k: nat,
                              offset: nat) {
    origin <= k && Position(all, k, offset) && events == Cat(earlier, Span(all, origin, 0, k, offset))
  }

  /** The cursor stands at a line boundary, and what was committed since `origin` is exactly the span to it. */
  ghost predicate ExactlyOnce(all: seq<LogFile>, stored: Stored, origin: nat, earlier: seq<Event>, gaps: nat) {
    match stored.cursor
    case None => stored.events == [] && earlier == [] && gaps == 0
    case Some(c) =>
      && (gaps == 0 ==> earlier == [])
      && exists k: nat :: CommittedTo(all, stored.events, origin, earlier, k, c.offset) && all[k].identity == c.identity
  }

  /** `files` are the newest of `all`, those before them having lost their names. */
  ghost predicate Newest(all: seq<LogFile>, files: seq<LogFile>) {
    |files| <= |all| && forall t {:trigger files[t]} :: 0 <= t < |files| ==> all[|all| - |files| + t] == files[t]
  }

  ghost predicate Inv(w: World) {
    && FilesOk(w.all, w.dir.current.Some?)
    && Newest(w.all, Candidates(w.dir))
    && ExactlyOnce(w.all, w.stored, w.origin, w.earlier, w.gaps)
  }

  // ---- Writing and rotating ----

  /** `b` is `a` with bytes appended to its newest file, or with files added behind it. */
  ghost predicate Grown(a: seq<LogFile>, b: seq<LogFile>) {
    |a| <= |b| && forall i :: 0 <= i < |a| ==>
      a[i].identity == b[i].identity && WindowAt(b[i].content, 0, a[i].content) && (i < |a| - 1 ==> a[i] == b[i])
  }

  lemma {:induction false} SpanOfGrown(a: seq<LogFile>, b: seq<LogFile>, i: nat, o: nat, j: nat, p: nat)
    requires Grown(a, b) && i <= j < |a| && o <= |a[i].content| && p <= |a[j].content| && (i == j ==> o <= p)
    ensures Span(b, i, o, j, p) == Span(a, i, o, j, p)
    decreases j - i
  {
    if i < j { SpanOfGrown(a, b, i + 1, 0, j, p); } else { SpanFrameLast(a[j], b[j], o, p); }
  }

  lemma GrowthKeepsCommitted(a: seq<LogFile>, b: seq<LogFile>, events: seq<Event>,
                             origin: nat, earlier: seq<Event>, k: nat, offset: nat)
    requires CommittedTo(a, events, origin, earlier, k, offset) && Grown(a, b)
    ensures CommittedTo(b, events, origin, earlier, k, offset)
  {
    SpanOfGrown(a, b, origin, 0, k, offset);
  }

  /** Growth leaves every committed span alone. */
  lemma GrowthKeepsExactlyOnce(a: seq<LogFile>, b: seq<LogFile>, stored: Stored, origin: nat, earlier: seq<Event>,
                               gaps: nat)
    requires ExactlyOnce(a, stored, origin, earlier, gaps) && Grown(a, b)
    ensures ExactlyOnce(b, stored, origin, earlier, gaps)
  {
    if stored.cursor.Some? {
      var c := stored.cursor.value;
      var k: nat :| CommittedTo(a, stored.events, origin, earlier, k, c.offset) && a[k].identity == c.identity;
      GrowthKeepsCommitted(a, b, stored.events, origin, earlier, k, c.offset);
    }
  }

  lemma AppendedFiles(a: seq<LogFile>, data: seq<Byte>) returns (b: seq<LogFile>)
    requires FilesOk(a, true) && NoCrLf(a[|a| - 1].content + data)
    ensures var f := a[|a| - 1]; b == WithNewest(a, f.(content := f.content + data))
    ensures FilesOk(b, true) && Grown(a, b)
  {
    var f := a[|a| - 1];
    b := WithNewest(a, f.(content := f.content + data));
    assert forall i :: 0 <= i < |a| ==> a[i].identity == b[i].identity;
  }

  lemma CreatedFiles(a: seq<LogFile>, identity: nat) returns (b: seq<LogFile>)
    requires FilesOk(a, false) && forall f :: f in a ==> f.identity != identity
    ensures b == a + [LogFile(identity, [])]
    ensures FilesOk(b, true) && Grown(a, b)
  {
    b := a + [LogFile(identity, [])];
    assert forall i :: 0 <= i < |a| ==> b[i] == a[i] && a[i] in a;
  }

  /** The newest file is the one named `path`, if there is one. */
  lemma CurrentIsNewest(all: seq<LogFile>, dir: Directory)
    requires Newest(all, Candidates(dir)) && dir.current.Some?
    ensures all != [] && all[|all| - 1] == dir.current.value
  {
    var files := Candidates(dir);
    assert files[|files| - 1] == dir.current.value;
  }

  lemma NewestOfTail(all: seq<LogFile>, files: seq<LogFile>)
    requires Newest(all, files) && files != []
    ensures Newest(all, files[1..])
  {
    forall t | 0 <= t < |files| - 1 ensures all[|all| - (|files| - 1) + t] == files[1..][t] {
      assert all[|all| - |files| + (t + 1)] == files[t + 1];
    }
  }

  lemma NewestExtended(all: seq<LogFile>, files: seq<LogFile>, file: LogFile)
    requires Newest(all, files)
    ensures Newest(all + [file], files + [file])
    ensures all != [] && files != [] ==> Newest(WithNewest(all, file), WithNewest(files, file))
  {
    if all != [] && files != [] {
      var a, b := WithNewest(all, file), WithNewest(files, file);
      forall t | 0 <= t < |b| ensures a[|a| - |b| + t] == b[t] {
        assert all[|all| - |files| + t] == files[t];
      }
    }
  }

  lemma NamesShrink(limit: nat, w: World, step: Step)
    requires Newest(w.all, Candidates(w.dir)) && Enabled(w, step) && (step.Rotate? || step.ExpireOldest?)
    ensures Newest(w.all, Candidates(Next(limit, w, step).dir))
  {
    var files := Candidates(w.dir);
    var files' := Candidates(Next(limit, w, step).dir);
    if files' != files {
      assert files' == files[1..];
      NewestOfTail(w.all, files);
    }
  }

  /** The named files stay the newest ones under every step. */
  lemma NamesFollow(limit: nat, w: World, step: Step)
    requires Newest(w.all, Candidates(w.dir)) && Enabled(w, step)
    ensures Newest(Next(limit, w, step).all, Candidates(Next(limit, w, step).dir))
  {
    var files := Candidates(w.dir);
    var files' := Candidates(Next(limit, w, step).dir);
    match step
    case Append(data) =>
      var f := w.dir.current.value;
      assert files' == WithNewest(files, f.(content := f.content + data));
      NewestExtended(w.all, files, f.(content := f.content + data));
    case Create(identity) =>
      assert files' == files + [LogFile(identity, [])];
      NewestExtended(w.all, files, LogFile(identity, []));
    case Collect =>
    case _ => NamesShrink(limit, w, step);
  }

  lemma AppendKeepsInv(limit: nat, w: World, data: seq<Byte>)
    requires Inv(w) && Enabled(w, Append(data))
    ensures Inv(Next(limit, w, Append(data)))
  {
    CurrentIsNewest(w.all, w.dir);
    var b := AppendedFiles(w.all, data);
    GrowthKeepsExactlyOnce(w.all, b, w.stored, w.origin, w.earlier, w.gaps);
    NamesFollow(limit, w, Append(data));
  }

  lemma CreateKeepsInv(limit: nat, w: World, identity: nat)
    requires Inv(w) && Enabled(w, Create(identity))
    ensures Inv(Next(limit, w, Create(identity)))
  {
    var b := CreatedFiles(w.all, identity);
    GrowthKeepsExactlyOnce(w.all, b, w.stored, w.origin, w.earlier, w.gaps);
    NamesFollow(limit, w, Create(identity));
  }

  /** Rotation and expiry only change names. */
  lemma RenamingKeepsInv(limit: nat, w: World, step: Step)
    requires Inv(w) && Enabled(w, step) && (step.Rotate? || step.ExpireOldest?)
    ensures Inv(Next(limit, w, step))
  {
    if step.Rotate? { CurrentIsNewest(w.all, w.dir); }
    NamesFollow(limit, w, step);
  }

  // ---- Collecting ----

  /** Where a collection resumes when the cursor names file `k` of all files. */
  lemma ResumeAtCursor(all: seq<LogFile>, files: seq<LogFile>, c: Cursor, k: nat)
    requires DistinctIdentities(all) && Newest(all, files) && files != []
    requires Position(all, k, c.offset) && all[k].identity == c.identity
    ensures var base := |all| - |files|;
      ChooseStart(files, Some(c)) == if base <= k then Start(k - base, c.offset, false) else Start(|files| - 1, 0, true)
    ensures |all| - |files| <= k ==> files[k - (|all| - |files|)] == all[k]
  {
    var base := |all| - |files|;
    var exact := Find(files, c.identity, 0);
    if base <= k {
      assert all[base + (k - base)] == files[k - base];
      assert exact.Some? && exact.value <= k - base;
      assert all[base + exact.value] == files[exact.value];
    } else {
      forall t | 0 <= t < |files| ensures files[t].identity != c.identity {
        assert all[base + t] == files[t];
      }
    }
  }

  lemma SuffixIsSound(all: seq<LogFile>, files: seq<LogFile>)
    requires Newest(all, files) && Plain(all) && RotatedWhole(all)
    ensures Plain(files) && RotatedWhole(files)
  {
    forall t | 0 <= t < |files| ensures NoCrLf(files[t].content) && (t < |files| - 1 ==> Whole(files[t].content)) {
      assert all[|all| - |files| + t] == files[t];
    }
  }

  /** Reading from file `i` of `files`, which is file `start` of all, commits the span to file `k`, offset `p`. */
  ghost predicate CoversAll(all: seq<LogFile>, files: seq<LogFile>, start: nat, i: nat, o: nat, limit: nat, k: nat,
                            p: nat) {
    && i < |files| && o <= |files[i].content|
    && start <= k && Position(all, start, o) && Position(all, k, p) && (start == k ==> o <= p)
    && var r := ReadOn(files, i, o, limit);
       CollectSegments(r.segments, r.cursor) == Collected(Span(all, start, o, k, p), Cursor(all[k].identity, p))
  }

  /** A collection at a resume point extends the span from there to a later line boundary. */
  lemma CollectionAmongAll(all: seq<LogFile>, base: nat, files: seq<LogFile>, i: nat, o: nat, limit: nat)
    returns (k: nat, p: nat)
    requires Newest(all, files) && base == |all| - |files| && Plain(all) && RotatedWhole(all) && Position(files, i, o)
    ensures CoversAll(all, files, base + i, i, o, limit, k, p)
  {
    SuffixIsSound(all, files);
    var j: nat;
    j, p := CollectionIsSpan(files, i, o, limit);
    k := base + j;
    assert all[base + i] == files[i] && all[k] == files[j];
    SpanFrame(files, all, base, i, o, j, p);
  }

  lemma CollectedSpansJoin(all: seq<LogFile>, earlier: seq<Event>, origin: nat, i: nat, o: nat, k: nat, p: nat)
    requires Plain(all) && origin <= i <= k && Position(all, i, o) && Position(all, k, p) && (i == k ==> o <= p)
    ensures Cat(Cat(earlier, Span(all, origin, 0, i, o)), Span(all, i, o, k, p))
         == Cat(earlier, Span(all, origin, 0, k, p))
  {
    SpanOfSpans(all, origin, 0, i, o, k, p);
    CatAssociates(earlier, Span(all, origin, 0, i, o), Span(all, i, o, k, p));
  }

  /** What a collection resumed at file `i`, offset `o` stores. */
  ghost function StoredAfter(files: seq<LogFile>, i: nat, o: nat, limit: nat, stored: Stored): Stored
    requires i < |files| && o <= |files[i].content|
  {
    var r := ReadOn(files, i, o, if limit < 1 then 1 else limit);
    var c := CollectSegments(r.segments, r.cursor);
    Stored(Some(c.cursor), Cat(stored.events, c.events))
  }

  /** The collection stored the span from file `i`, offset `o`, to file `k`, offset `p`. */
  ghost predicate Extends(all: seq<LogFile>, before: Stored, after: Stored, i: nat, o: nat, k: nat, p: nat) {
    && i <= k && Position(all, i, o) && Position(all, k, p) && (i == k ==> o <= p)
    && after == Stored(Some(Cursor(all[k].identity, p)), Cat(before.events, Span(all, i, o, k, p)))
  }

  lemma CollectedIsStored(all: seq<LogFile>, files: seq<LogFile>, start: nat, i: nat, o: nat, limit: nat,
                          stored: Stored, k: nat, p: nat)
    requires CoversAll(all, files, start, i, o, if limit < 1 then 1 else limit, k, p)
    ensures Extends(all, stored, StoredAfter(files, i, o, limit, stored), start, o, k, p)
  {
  }

  lemma StoredAfterExtends(all: seq<LogFile>, files: seq<LogFile>, i: nat, o: nat, limit: nat, stored: Stored)
    returns (k: nat, p: nat)
    requires Newest(all, files) && Plain(all) && RotatedWhole(all) && Position(files, i, o)
    ensures Extends(all, stored, StoredAfter(files, i, o, limit, stored), |all| - |files| + i, o, k, p)
  {
    k, p := CollectionAmongAll(all, |all| - |files|, files, i, o, if limit < 1 then 1 else limit);
    CollectedIsStored(all, files, |all| - |files| + i, i, o, limit, stored, k, p);
  }

  lemma ExtensionIsCommitted(all: seq<LogFile>, before: Stored, after: Stored,
                             origin: nat, earlier: seq<Event>, i: nat, o: nat, k: nat, p: nat)
    requires Plain(all) && Extends(all, before, after, i, o, k, p)
    requires CommittedTo(all, before.events, origin, earlier, i, o)
    ensures CommittedTo(all, after.events, origin, earlier, k, p)
  {
    CollectedSpansJoin(all, earlier, origin, i, o, k, p);
  }

  /** The cursor found its file `i`: the committed span grows. */
  lemma ResumedCollection(all: seq<LogFile>, files: seq<LogFile>, limit: nat, stored: Stored,
                          origin: nat, earlier: seq<Event>, gaps: nat, i: nat, o: nat)
    requires Newest(all, files) && Plain(all) && RotatedWhole(all) && (gaps == 0 ==> earlier == [])
    requires |all| - |files| <= i && CommittedTo(all, stored.events, origin, earlier, i, o)
    requires Position(files, i - (|all| - |files|), o)
    ensures ExactlyOnce(all, StoredAfter(files, i - (|all| - |files|), o, limit, stored), origin, earlier, gaps)
  {
    var after := StoredAfter(files, i - (|all| - |files|), o, limit, stored);
    var k, p := StoredAfterExtends(all, files, i - (|all| - |files|), o, limit, stored);
    ExtensionIsCommitted(all, stored, after, origin, earlier, i, o, k, p);
  }

  /** No cursor, or its file has no name any more: a new stream starts at the current file. */
  lemma FreshCollection(all: seq<LogFile>, files: seq<LogFile>, limit: nat, stored: Stored, gaps: nat)
    requires Newest(all, files) && files != [] && Plain(all) && RotatedWhole(all)
    requires gaps == 0 ==> stored.events == []
    ensures ExactlyOnce(all, StoredAfter(files, |files| - 1, 0, limit, stored), |all| - 1, stored.events, gaps)
  {
    var after := StoredAfter(files, |files| - 1, 0, limit, stored);
    var k, p := StoredAfterExtends(all, files, |files| - 1, 0, limit, stored);
    assert CommittedTo(all, after.events, |all| - 1, stored.events, k, p);
  }

  /** The state a collection leads to that leaves `after` stored. */
  ghost function AfterCollect(w: World, gap: bool, after: Stored): World
    requires w.all != []
  {
    if gap then w.(stored := after, origin := |w.all| - 1, earlier := w.stored.events, gaps := w.gaps + 1)
    else if w.stored.cursor.None? then w.(stored := after, origin := |w.all| - 1, earlier := w.stored.events)
    else w.(stored := after)
  }

  lemma CollectStepStores(dir: Directory, limit: nat, stored: Stored)
    requires dir.current.Some?
    ensures Candidates(dir) != []
    ensures var files := Candidates(dir);
      var s := ChooseStart(files, stored.cursor);
      CollectStep(dir, limit, stored) == StoredAfter(files, s.index, s.offset, limit, stored)
      && CollectStatus(dir, limit, stored.cursor) == if s.gap then Partial else Success
  {
  }

  lemma CollectionResult(limit: nat, w: World)
    requires w.dir.current.Some? && w.all != []
    ensures Candidates(w.dir) != []
    ensures var files := Candidates(w.dir);
      var s := ChooseStart(files, w.stored.cursor);
      Next(limit, w, Collect) == AfterCollect(w, s.gap, StoredAfter(files, s.index, s.offset, limit, w.stored))
  {
    CollectStepStores(w.dir, limit, w.stored);
  }

  /** Whichever branch a collection takes, what was committed stays exactly the lines up to the cursor. */
  lemma CollectKeepsExactlyOnce(all: seq<LogFile>, files: seq<LogFile>, s: Start, limit: nat, stored: Stored,
                                origin: nat, earlier: seq<Event>, gaps: nat)
    requires Newest(all, files) && files != [] && FilesOk(all, true) && ExactlyOnce(all, stored, origin, earlier, gaps)
    requires s == ChooseStart(files, stored.cursor)
    ensures var after := StoredAfter(files, s.index, s.offset, limit, stored);
      if stored.cursor.Some? && !s.gap then ExactlyOnce(all, after, origin, earlier, gaps)
      else ExactlyOnce(all, after, |all| - 1, stored.events, if s.gap then gaps + 1 else gaps)
  {
    if stored.cursor.Some? {
      var c := stored.cursor.value;
      var i: nat :| CommittedTo(all, stored.events, origin, earlier, i, c.offset) && all[i].identity == c.identity;
      ResumeAtCursor(all, files, c, i);
      if !s.gap {
        ResumedCollection(all, files, limit, stored, origin, earlier, gaps, i, c.offset);
      } else {
        FreshCollection(all, files, limit, stored, gaps + 1);
      }
    } else {
      FreshCollection(all, files, limit, stored, gaps);
    }
  }

  lemma CollectedExactlyOnce(w: World, gap: bool, after: Stored)
    requires w.all != []
    requires if w.stored.cursor.Some? && !gap then ExactlyOnce(w.all, after, w.origin, w.earlier, w.gaps)
             else ExactlyOnce(w.all, after, |w.all| - 1, w.stored.events, if gap then w.gaps + 1 else w.gaps)
    ensures var w' := AfterCollect(w, gap, after);
      ExactlyOnce(w.all, w'.stored, w'.origin, w'.earlier, w'.gaps)
  {
  }

  /** What the next collection stores, and whether it reports a gap. */
  lemma NextCollection(limit: nat, w: World) returns (gap: bool, after: Stored)
    requires Inv(w) && w.dir.current.Some?
    ensures w.all != [] && Next(limit, w, Collect) == AfterCollect(w, gap, after)
    ensures if w.stored.cursor.Some? && !gap then ExactlyOnce(w.all, after, w.origin, w.earlier, w.gaps)
            else ExactlyOnce(w.all, after, |w.all| - 1, w.stored.events, if gap then w.gaps + 1 else w.gaps)
  {
    CurrentIsNewest(w.all, w.dir);
    CollectionResult(limit, w);
    var files := Candidates(w.dir);
    var s := ChooseStart(files, w.stored.cursor);
    gap, after := s.gap, StoredAfter(files, s.index, s.offset, limit, w.stored);
    CollectionOfFiles(limit, w, files, s, after);
  }

  lemma CollectionOfFiles(limit: nat, w: World, files: seq<LogFile>, s: Start, after: Stored)
    requires FilesOk(w.all, true) && Newest(w.all, files) && files != []
    requires ExactlyOnce(w.all, w.stored, w.origin, w.earlier, w.gaps)
    requires s == ChooseStart(files, w.stored.cursor)
    requires after == StoredAfter(files, s.index, s.offset, limit, w.stored)
    ensures if w.stored.cursor.Some? && !s.gap then ExactlyOnce(w.all, after, w.origin, w.earlier, w.gaps)
            else ExactlyOnce(w.all, after, |w.all| - 1, w.stored.events, if s.gap then w.gaps + 1 else w.gaps)
  {
    CollectKeepsExactlyOnce(w.all, files, s, limit, w.stored, w.origin, w.earlier, w.gaps);
  }

  lemma CollectKeepsInv(limit: nat, w: World)
    requires Inv(w)
    ensures Inv(Next(limit, w, Collect))
  {
    if w.dir.current.Some? {
      var gap, after := NextCollection(limit, w);
      CollectedExactlyOnce(w, gap, after);
    }
  }

  lemma StepKeepsInv(limit: nat, w: World, step: Step)
    requires Inv(w) && Enabled(w, step)
    ensures Inv(Next(limit, w, step))
  {
    match step
    case Append(data) => AppendKeepsInv(limit, w, data);
    case Create(identity) => CreateKeepsInv(limit, w, identity);
    case Rotate => RenamingKeepsInv(limit, w, step);
    case ExpireOldest => RenamingKeepsInv(limit, w, step);
    case Collect => CollectKeepsInv(limit, w);
  }

  /** Exactly-once delivery: it holds after every run of writing, rotation, expiry and collection. */
  lemma {:induction false} RunKeepsInv(limit: nat, w: World, steps: seq<Step>)
    requires Inv(w) && Legal(limit, w, steps)
    ensures Inv(Run(limit, w, steps))
    decreases |steps|
  {
    if steps != [] {
      StepKeepsInv(limit, w, steps[0]);
      RunKeepsInv(limit, Next(limit, w, steps[0]), steps[1..]);
    }
  }
}
