/** Whole runs over one report directory: publications and cleanups in any order, with any operation failing. */
module ReportRuns {
  import opened Wrappers
  import opened ReportFiles
  import opened ReportPublish
  import opened ReportCleanup

  datatype Call =
    | PublishReport(date: nat, json: string, markdown: string)
    | Cleanup(cutoff: nat, stale: set<Path>)

  /** Where a call started: the directory and the number of its first operation. */
  datatype Start = Start(fs: FileSystem, step: nat)

  // ---- A new name ----

  /** Every generation that a path or a link names is below `g`. */
  ghost predicate AllBelow(fs: FileSystem, paths: set<Path>, g: nat) {
    forall p :: p in paths && p in fs ==>
      && (p.GenerationDir? || p.Report? || p.ReportTemp? ==> p.generation < g)
      && (fs[p].Link? && fs[p].target.ToGeneration? ==> fs[p].target.generation < g)
  }

  /** `mkdtemp`: a name that nothing in the directory has or leads to. */
  method NewGeneration(fs: FileSystem) returns (g: nat)
    ensures forall date :: FreshName(fs, date, g)
  {
    g := 0;
    var todo := fs.Keys;
    while todo != {}
      invariant todo <= fs.Keys && AllBelow(fs, fs.Keys - todo, g)
      decreases |todo|
    {
      var p :| p in todo;
      todo := todo - {p};
      if (p.GenerationDir? || p.Report? || p.ReportTemp?) && p.generation >= g {
        g := p.generation + 1;
      }
      if fs[p].Link? && fs[p].target.ToGeneration? && fs[p].target.generation >= g {
        g := fs[p].target.generation + 1;
      }
    }
    assert fs.Keys - todo == fs.Keys;
    NothingAbove(fs, g);
  }

  lemma NothingAbove(fs: FileSystem, g: nat)
    requires AllBelow(fs, fs.Keys, g)
    ensures forall date :: FreshName(fs, date, g)
  {
    forall date ensures FreshName(fs, date, g) {
      forall p | p in fs ensures !InGeneration(p, date, g) { assert p in fs.Keys; }
      forall d ensures PointerTarget(fs, d) != Some(ToGeneration(date, g)) {
        if Pointer(d) in fs { assert Pointer(d) in fs.Keys; }
      }
    }
  }

  // ---- Runs ----

  ghost predicate AllAtomic(seen: set<Pair>) {
    forall q :: q in seen ==> Atomic(q)
  }

  /** Every failing operation is followed by four that do not fail. */
  ghost predicate Isolated(fails: nat -> bool, from: nat) {
    forall j, k :: from <= j < k <= j + 4 && fails(j) ==> !fails(k)
  }

  /** With isolated failures no rollback fails: that takes the sync after the switch and one of the next four. */
  lemma IsolatedRollsBack(r: ReportDirectory, a: FileSystem, date: nat, from: nat, step: nat)
    requires Isolated(r.fails, from) && from <= step
    ensures !r.FailsToRollBack(a, date, step)
  {
  }

  /** The outcome of a publication, and that its rollback failed exactly under the condition on its start. */
  ghost predicate Explains(r: ReportDirectory, call: Call, start: Start, outcome: Option<Outcome>) {
    call.PublishReport? ==>
      outcome.Some? && (outcome == Some(RollbackFailed) <==> r.FailsToRollBack(start.fs, call.date, start.step))
  }

  /** Whether the call is a publication of the date whose rollback fails. */
  ghost predicate Breaks(r: ReportDirectory, call: Call, start: Start, date: nat) {
    call.PublishReport? && call.date == date && r.FailsToRollBack(start.fs, date, start.step)
  }

  /** What one call does to the directory. */
  ghost predicate Leads(call: Call, outcome: Option<Outcome>, a: Start, b: Start) {
    && a.step <= b.step
    && match call
       case PublishReport(date, json, markdown) =>
         && OnlyDateAndTemps(a.fs, b.fs, date)
         && (if outcome in {Some(Published), Some(PublishedThenFailed)} then
               exists g :: PairOf(b.fs, date) == NewPair(date, g, json, markdown)
             else outcome != Some(RollbackFailed) && Paired(a.fs, date) ==> PairOf(b.fs, date) == PairOf(a.fs, date))
       case Cleanup(cutoff, stale) =>
         && OnlyDiscarded(a.fs, b.fs, cutoff, stale)
         && forall date :: date >= cutoff && Paired(a.fs, date) ==> PairOf(b.fs, date) == PairOf(a.fs, date)
  }

  lemma KeptByCleanup(a: FileSystem, b: FileSystem, cutoff: nat, stale: set<Path>, date: nat)
    requires OnlyDiscarded(a, b, cutoff, stale) && date >= cutoff && Paired(a, date)
    ensures PairOf(b, date) == PairOf(a, date)
  {
    forall p | Relevant(a, date, p) ensures SameAt(a, b, p) {
      assert !MayGo(a, cutoff, stale, p);
    }
    SameViewSamePair(a, b, date);
  }

  /** One call, and what readers of the watched date may find meanwhile. */
  method Perform(r: ReportDirectory, call: Call) returns (outcome: Option<Outcome>)
    modifies r
    ensures Explains(r, call, Start(old(r.fs), old(r.step)), outcome)
    ensures Leads(call, outcome, Start(old(r.fs), old(r.step)), Start(r.fs, r.step))
    ensures old(Paired(r.fs, r.watched)) && !Breaks(r, call, Start(old(r.fs), old(r.step)), r.watched) ==>
      Paired(r.fs, r.watched) && (old(AllAtomic(r.seen)) ==> AllAtomic(r.seen))
  {
    ghost var a := r.fs;
    if Paired(r.fs, r.watched) { PairedIsAtomic(r.fs, r.watched); }
    match call
    case PublishReport(date, json, markdown) =>
      var g := NewGeneration(r.fs);
      var result := r.Publish(date, json, markdown, g);
      outcome := Some(result);
      if result in {Refused, RolledBack, PartlyRolledBack} && Paired(a, date) {
        BeforeShowsOld(a, r.fs, date, g, date);
      }
    case Cleanup(cutoff, stale) =>
      var ok, deleted := CleanupReports(r, cutoff, stale);
      outcome := None;
      forall date | date >= cutoff && Paired(a, date) ensures PairOf(r.fs, date) == PairOf(a, date) {
        KeptByCleanup(a, r.fs, cutoff, stale, date);
      }
  }

  /** The starts of the first `n` calls and, last, the state after them, linked by what each call does. */
  ghost predicate IsRun(r: ReportDirectory, calls: seq<Call>, n: nat, outcomes: seq<Option<Outcome>>,
                        starts: seq<Start>)
  {
    && n <= |calls| && |outcomes| == n && |starts| == n + 1
    && forall i :: 0 <= i < n ==>
      Explains(r, calls[i], starts[i], outcomes[i]) && Leads(calls[i], outcomes[i], starts[i], starts[i + 1])
  }

  /** None of the first `n` publications of the date has a failed rollback. */
  ghost predicate Unbroken(r: ReportDirectory, calls: seq<Call>, n: nat, starts: seq<Start>, date: nat)
    requires n <= |calls| && n < |starts|
  {
    forall i :: 0 <= i < n ==> !Breaks(r, calls[i], starts[i], date)
  }

  lemma OneMoreCall(r: ReportDirectory, calls: seq<Call>, n: nat, outcomes: seq<Option<Outcome>>, starts: seq<Start>,
                    outcome: Option<Outcome>, next: Start)
    requires IsRun(r, calls, n, outcomes, starts) && n < |calls|
    requires Explains(r, calls[n], starts[n], outcome) && Leads(calls[n], outcome, starts[n], next)
    ensures IsRun(r, calls, n + 1, outcomes + [outcome], starts + [next])
    ensures forall date :: Unbroken(r, calls, n + 1, starts + [next], date) <==>
      Unbroken(r, calls, n, starts, date) && !Breaks(r, calls[n], starts[n], date)
  {
    var longer := starts + [next];
    assert forall i :: 0 <= i <= n ==> longer[i] == starts[i];
    forall date ensures Unbroken(r, calls, n + 1, longer, date) <==>
      Unbroken(r, calls, n, starts, date) && !Breaks(r, calls[n], starts[n], date)
    {
      assert Unbroken(r, calls, n + 1, longer, date) ==> !Breaks(r, calls[n], longer[n], date);
      forall i | 0 <= i < n ensures Breaks(r, calls[i], starts[i], date) <==> Breaks(r, calls[i], longer[i], date) { }
    }
  }

  /** Up to the first publication of the watched date with a failed rollback, that date is managed. */
  ghost predicate Managed(r: ReportDirectory, calls: seq<Call>, n: nat, starts: seq<Start>)
    requires n <= |calls| && n < |starts|
  {
    forall i :: 0 <= i <= n && Unbroken(r, calls, i, starts, r.watched) ==> Paired(starts[i].fs, r.watched)
  }

  lemma ManagedGrows(r: ReportDirectory, calls: seq<Call>, n: nat, starts: seq<Start>, next: Start)
    requires n < |calls| && |starts| == n + 1 && Managed(r, calls, n, starts)
    requires Unbroken(r, calls, n + 1, starts + [next], r.watched) ==> Paired(next.fs, r.watched)
    ensures Managed(r, calls, n + 1, starts + [next])
  {
    var longer := starts + [next];
    forall i | 0 <= i <= n && Unbroken(r, calls, i, longer, r.watched) ensures Paired(longer[i].fs, r.watched) {
      assert Unbroken(r, calls, i, starts, r.watched) by {
        forall j | 0 <= j < i ensures !Breaks(r, calls[j], starts[j], r.watched) { assert longer[j] == starts[j]; }
      }
    }
  }

  lemma {:induction false} StepsGrow(r: ReportDirectory, calls: seq<Call>, n: nat, outcomes: seq<Option<Outcome>>,
                                     starts: seq<Start>, i: nat)
    requires IsRun(r, calls, n, outcomes, starts) && i <= n
    ensures starts[0].step <= starts[i].step
  {
    if i > 0 {
      StepsGrow(r, calls, n, outcomes, starts, i - 1);
      assert Leads(calls[i - 1], outcomes[i - 1], starts[i - 1], starts[i - 1 + 1]);
    }
  }

  lemma IsolatedIsUnbroken(r: ReportDirectory, calls: seq<Call>, outcomes: seq<Option<Outcome>>, starts: seq<Start>,
                           date: nat)
    requires IsRun(r, calls, |calls|, outcomes, starts) && Isolated(r.fails, starts[0].step)
    ensures Unbroken(r, calls, |calls|, starts, date)
  {
    forall i | 0 <= i < |calls| && calls[i].PublishReport? ensures !Breaks(r, calls[i], starts[i], date) {
      StepsGrow(r, calls, |calls|, outcomes, starts, i);
      IsolatedRollsBack(r, starts[i].fs, calls[i].date, starts[0].step, starts[i].step);
    }
  }

  /**
   Over every run of publications and cleanups, whatever fails: as long as no publication of a date had a failed
   rollback, the date stays managed and every pair a reader of it found is atomic. Which rollbacks fail is
   decided by the operations that fail; none does if failures are isolated.
   */
  method Run(r: ReportDirectory, calls: seq<Call>) returns (outcomes: seq<Option<Outcome>>, ghost starts: seq<Start>)
    requires Paired(r.fs, r.watched) && AllAtomic(r.seen)
    modifies r
    ensures IsRun(r, calls, |calls|, outcomes, starts)
    ensures starts[0] == Start(old(r.fs), old(r.step)) && starts[|calls|] == Start(r.fs, r.step)
    ensures Managed(r, calls, |calls|, starts)
    ensures Unbroken(r, calls, |calls|, starts, r.watched) ==> Paired(r.fs, r.watched) && AllAtomic(r.seen)
    ensures Isolated(r.fails, old(r.step)) ==> Paired(r.fs, r.watched) && AllAtomic(r.seen)
  {
    outcomes, starts := [], [Start(r.fs, r.step)];
    for n := 0 to |calls|
      invariant IsRun(r, calls, n, outcomes, starts) && Managed(r, calls, n, starts)
      invariant starts[0] == Start(old(r.fs), old(r.step)) && starts[n] == Start(r.fs, r.step)
      invariant Unbroken(r, calls, n, starts, r.watched) ==> Paired(r.fs, r.watched) && AllAtomic(r.seen)
    {
      var outcome := Perform(r, calls[n]);
      OneMoreCall(r, calls, n, outcomes, starts, outcome, Start(r.fs, r.step));
      ManagedGrows(r, calls, n, starts, Start(r.fs, r.step));
      outcomes := outcomes + [outcome];
      starts := starts + [Start(r.fs, r.step)];
    }
    if Isolated(r.fails, old(r.step)) { IsolatedIsUnbroken(r, calls, outcomes, starts, r.watched); }
  }
}
