/** `cleanup_reports`: expired dates go pointer first, then stale generations no pointer leads to. */
module ReportCleanup {
  import opened Wrappers
  import opened ReportFiles
  import opened ReportPublish

  predicate InGenerations(p: Path, date: nat) {
    (p.GenerationDir? || p.Report? || p.ReportTemp?) && p.date == date
  }

  function ExpiredPaths(fs: FileSystem, cutoff: nat): set<Path> {
    set p | p in fs && p.Stable? && p.date < cutoff
  }

  function ExpiredDates(fs: FileSystem, cutoff: nat): set<nat> {
    set p | p in ExpiredPaths(fs, cutoff) :: p.date
  }

  /** Nothing of the date is left: no link, no pointer, no generation. */
  ghost predicate Gone(fs: FileSystem, date: nat) {
    forall p: Path :: InDate(p, date) ==> p !in fs
  }

  /** Only paths of the given dates changed. */
  ghost predicate OnlyDates(a: FileSystem, b: FileSystem, dates: set<nat>) {
    forall p: Path :: p.LinkTemp? || p.date !in dates ==> SameAt(a, b, p)
  }

  /** Without its pointer a managed date shows nothing, whatever else of it is gone. */
  lemma RetiredShowsNothing(a: FileSystem, b: FileSystem, date: nat)
    requires Paired(a, date) && Pointer(date) !in b
    requires forall part :: Stable(date, part) !in b || SameAt(a, b, Stable(date, part))
    ensures Paired(b, date) && PairOf(b, date) == NOTHING
  {
  }

  /** A state while `date` is being retired that was `a` before. */
  ghost predicate Retiring(a: FileSystem, b: FileSystem, date: nat) {
    && OnlyDate(a, b, date) && Pointer(date) !in b
    && forall part :: Stable(date, part) !in b || SameAt(a, b, Stable(date, part))
  }

  lemma RetiringView(a: FileSystem, b: FileSystem, date: nat, w: nat)
    requires Retiring(a, b, date) && Paired(a, w)
    ensures Paired(b, w) && PairOf(b, w) == if w == date then NOTHING else PairOf(a, w)
  {
    if w == date { RetiredShowsNothing(a, b, date); } else { OtherDateKeepsView(a, b, date, w); }
  }

  lemma RetiringOn(a: FileSystem, b: FileSystem, c: FileSystem, date: nat)
    requires Retiring(a, b, date)
    requires forall p: Path :: SameAt(b, c, p) || (InDate(p, date) && p !in c)
    ensures Retiring(a, c, date)
  {
    forall p: Path | !InDate(p, date) ensures SameAt(a, c, p) {
      assert SameAt(a, b, p) && SameAt(b, c, p);
    }
    forall part ensures Stable(date, part) !in c || SameAt(a, c, Stable(date, part)) {
      assert SameAt(b, c, Stable(date, part)) || Stable(date, part) !in c;
    }
    assert SameAt(b, c, Pointer(date)) || Pointer(date) !in c;
  }

  /** What a reader may have seen while `date` was retired. */
  twostate predicate SawRetiring(r: ReportDirectory, a: FileSystem, date: nat)
    reads r
  {
    Paired(a, r.watched) ==>
      r.seen <= old(r.seen) + {PairOf(a, r.watched), if r.watched == date then NOTHING else PairOf(a, r.watched)}
  }

  lemma OneLessExpired(a: FileSystem, p: Path, cutoff: nat)
    requires p in a && p.Stable? && p.date < cutoff
    ensures |ExpiredPaths(a - {p}, cutoff)| + 1 == |ExpiredPaths(a, cutoff)|
  {
    assert ExpiredPaths(a - {p}, cutoff) == ExpiredPaths(a, cutoff) - {p};
  }

  lemma SameExpired(a: FileSystem, b: FileSystem, cutoff: nat)
    requires forall p: Path :: !p.Stable? || SameAt(a, b, p)
    ensures ExpiredPaths(a, cutoff) == ExpiredPaths(b, cutoff)
  {
    forall p: Path | p.Stable? ensures p in a <==> p in b { assert SameAt(a, b, p); }
  }

  method RetireStable(r: ReportDirectory, date: nat, part: Part, ghost a: FileSystem, ghost cutoff: nat)
    returns (ok: bool, deleted: nat)
    requires Retiring(a, r.fs, date) && date < cutoff
    modifies r`fs, r`seen, r`step
    ensures r.step >= old(r.step)
    ensures Retiring(a, r.fs, date) && SawRetiring(r, a, date)
    ensures r.fs == if ok then old(r.fs) - {Stable(date, part)} else old(r.fs)
    ensures ok ==> deleted + |ExpiredPaths(r.fs, cutoff)| == |old(ExpiredPaths(r.fs, cutoff))|
  {
    deleted := 0;
    if Stable(date, part) !in r.fs {
      return true, 0;
    }
    ok := r.Remove(Stable(date, part));
    RetiringOn(a, old(r.fs), r.fs, date);
    if Paired(a, r.watched) { RetiringView(a, r.fs, date, r.watched); }
    if ok {
      OneLessExpired(old(r.fs), Stable(date, part), cutoff);
      deleted := 1;
    }
  }

  method RetireGenerations(r: ReportDirectory, date: nat, ghost a: FileSystem) returns (ok: bool)
    requires Retiring(a, r.fs, date)
    modifies r`fs, r`seen, r`step
    ensures r.step >= old(r.step)
    ensures Retiring(a, r.fs, date) && SawRetiring(r, a, date)
    ensures forall p: Path :: !p.Stable? || SameAt(old(r.fs), r.fs, p)
    ensures ok ==> forall p: Path :: InGenerations(p, date) ==> p !in r.fs
  {
    var tree := set p | p in r.fs && InGenerations(p, date);
    if Paired(a, r.watched) { RetiringView(a, r.fs, date, r.watched); }
    ok := r.RemoveTree(tree);
    RetiringOn(a, old(r.fs), r.fs, date);
  }

  method RetireDate(r: ReportDirectory, date: nat, ghost cutoff: nat) returns (ok: bool, deleted: nat)
    requires date < cutoff
    modifies r`fs, r`seen, r`step
    ensures r.step >= old(r.step)
    ensures OnlyDate(old(r.fs), r.fs, date)
    ensures old(Paired(r.fs, r.watched)) ==> Paired(r.fs, r.watched) && SawRetiring(r, old(r.fs), date)
    ensures old(Paired(r.fs, r.watched)) ==> PairOf(r.fs, r.watched) in {old(PairOf(r.fs, r.watched)), NOTHING}
    ensures old(Paired(r.fs, r.watched)) && r.watched != date ==>
      PairOf(r.fs, r.watched) == old(PairOf(r.fs, r.watched))
    ensures ok ==> Retiring(old(r.fs), r.fs, date) && Gone(r.fs, date)
    ensures ok ==> deleted + |ExpiredPaths(r.fs, cutoff)| == |old(ExpiredPaths(r.fs, cutoff))|
  {
    ghost var a := r.fs;
    deleted := 0;
    ok := r.Remove(Pointer(date));
    if !ok { return; }
    if Paired(a, r.watched) { RetiringView(a, r.fs, date, r.watched); }
    SameExpired(a, r.fs, cutoff);
    var one, two;
    ok, one := RetireStable(r, date, Json, a, cutoff);
    if Paired(a, r.watched) { RetiringView(a, r.fs, date, r.watched); }
    if !ok { return; }
    ok, two := RetireStable(r, date, Markdown, a, cutoff);
    if Paired(a, r.watched) { RetiringView(a, r.fs, date, r.watched); }
    if !ok { return; }
    deleted := one + two;
    label Unlinked:
    ok := RetireGenerations(r, date, a);
    if Paired(a, r.watched) { RetiringView(a, r.fs, date, r.watched); }
    SameExpired(old@Unlinked(r.fs), r.fs, cutoff);
    forall part ensures Stable(date, part) !in r.fs {
      assert SameAt(old@Unlinked(r.fs), r.fs, Stable(date, part));
      match part case Json => case Markdown =>
    }
    if ok {
      forall p: Path | InDate(p, date) ensures p !in r.fs {
        if p.Stable? { assert p == Stable(date, p.part); }
      }
    }
  }

  // ---- Stale generations and temporary names ----

  /** A generation its date's pointer leads to is never removed. */
  method RemoveStaleGeneration(r: ReportDirectory, date: nat, g: nat) returns (ok: bool)
    requires PointerTarget(r.fs, date) != Some(ToGeneration(date, g))
    modifies r`fs, r`seen, r`step
    ensures r.step >= old(r.step)
    ensures old(Paired(r.fs, r.watched)) ==> r.ViewKept()
    ensures forall p: Path :: SameAt(old(r.fs), r.fs, p) || (InGeneration(p, date, g) && p !in r.fs)
    ensures ok ==> forall p :: p in r.fs ==> !InGeneration(p, date, g)
  {
    var tree := set p | p in r.fs && InGeneration(p, date, g);
    ok := r.RemoveTree(tree);
  }

  /** A path of a generation that is stale and that its date's pointer does not lead to. */
  predicate InStale(fs: FileSystem, stale: set<Path>, p: Path) {
    && (p.GenerationDir? || p.Report? || p.ReportTemp?) && GenerationDir(p.date, p.generation) in stale
    && GenerationDir(p.date, p.generation) in fs
    && PointerTarget(fs, p.date) != Some(ToGeneration(p.date, p.generation))
  }

  /** Nothing but paths of such generations is removed. */
  ghost predicate OnlyStale(a: FileSystem, b: FileSystem, stale: set<Path>) {
    forall p :: SameAt(a, b, p) || (InStale(a, stale, p) && p !in b)
  }

  method RemoveStaleGenerations(r: ReportDirectory, stale: set<Path>) returns (ok: bool)
    modifies r`fs, r`seen, r`step
    ensures r.step >= old(r.step)
    ensures old(Paired(r.fs, r.watched)) ==> r.ViewKept()
    ensures OnlyStale(old(r.fs), r.fs, stale)
    ensures ok ==> forall p :: InStale(old(r.fs), stale, p) ==> p !in r.fs
  {
    var todo := set p | p in r.fs && p.GenerationDir? && p in stale;
    ok := true;
    r.SeeAgain();
    while todo != {} && ok
      invariant r.step >= old(r.step)
      invariant forall p: Path :: p in todo ==> p.GenerationDir? && p in stale && p in old(r.fs)
      invariant old(Paired(r.fs, r.watched)) ==> r.ViewKept()
      invariant OnlyStale(old(r.fs), r.fs, stale)
      invariant ok ==> forall p :: InStale(old(r.fs), stale, p) ==>
        p !in r.fs || GenerationDir(p.date, p.generation) in todo
      decreases |todo|
    {
      var p :| p in todo;
      todo := todo - {p};
      assert SameAt(old(r.fs), r.fs, Pointer(p.date));
      if PointerTarget(r.fs, p.date) != Some(ToGeneration(p.date, p.generation)) {
        label Next:
        ok := RemoveStaleGeneration(r, p.date, p.generation);
        if old(Paired(r.fs, r.watched)) { SameViewTransitive(old(r.fs), old@Next(r.fs), r.fs, r.watched); }
        OneLessStale(old(r.fs), old@Next(r.fs), r.fs, stale, p.date, p.generation);
      }
    }
  }

  lemma OneLessStale(a: FileSystem, b: FileSystem, c: FileSystem, stale: set<Path>, date: nat, g: nat)
    requires OnlyStale(a, b, stale) && GenerationDir(date, g) in stale && GenerationDir(date, g) in a
    requires PointerTarget(a, date) != Some(ToGeneration(date, g))
    requires forall p: Path :: SameAt(b, c, p) || (InGeneration(p, date, g) && p !in c)
    ensures OnlyStale(a, c, stale)
  {
    forall p: Path ensures SameAt(a, c, p) || (InStale(a, stale, p) && p !in c) {
      assert SameAt(a, b, p) || (InStale(a, stale, p) && p !in b);
      assert SameAt(b, c, p) || (InGeneration(p, date, g) && p !in c);
    }
  }

  method RemoveStaleTemps(r: ReportDirectory, stale: set<Path>) returns (ok: bool)
    modifies r`fs, r`seen, r`step
    ensures r.step >= old(r.step)
    ensures old(Paired(r.fs, r.watched)) ==> r.ViewKept()
    ensures forall p :: SameAt(old(r.fs), r.fs, p) || (p.LinkTemp? && p in stale && p !in r.fs)
    ensures ok ==> forall p :: p in stale && p.LinkTemp? ==> p !in r.fs
  {
    var tree := set p | p in r.fs && p.LinkTemp? && p in stale;
    ok := r.RemoveTree(tree);
  }

  // ---- The whole cleanup ----

  method RetireExpired(r: ReportDirectory, cutoff: nat) returns (ok: bool, deleted: nat)
    modifies r`fs, r`seen, r`step
    ensures r.step >= old(r.step)
    ensures old(Paired(r.fs, r.watched)) ==>
      Paired(r.fs, r.watched) && PairOf(r.fs, r.watched) in {old(PairOf(r.fs, r.watched)), NOTHING}
    ensures old(Paired(r.fs, r.watched)) && r.watched >= cutoff ==>
      PairOf(r.fs, r.watched) == old(PairOf(r.fs, r.watched)) && r.seen <= old(r.seen) + {old(PairOf(r.fs, r.watched))}
    ensures old(Paired(r.fs, r.watched)) ==> r.seen <= old(r.seen) + {old(PairOf(r.fs, r.watched)), NOTHING}
    ensures ok ==> ExpiredPaths(r.fs, cutoff) == {} && deleted == |old(ExpiredPaths(r.fs, cutoff))|
    ensures OnlyDates(old(r.fs), r.fs, old(ExpiredDates(r.fs, cutoff)))
    ensures ok ==> forall d :: d in old(ExpiredDates(r.fs, cutoff)) ==> Gone(r.fs, d)
  {
    var expired: set<nat> := set p | p in r.fs && p.Stable? && p.date < cutoff :: p.date;
    ok, deleted := true, 0;
    r.SeeAgain();
    while expired != {} && ok
      invariant r.step >= old(r.step)
      invariant forall d :: d in expired ==> d < cutoff
      invariant old(Paired(r.fs, r.watched)) ==>
        Paired(r.fs, r.watched) && PairOf(r.fs, r.watched) in {old(PairOf(r.fs, r.watched)), NOTHING}
      invariant old(Paired(r.fs, r.watched)) && r.watched >= cutoff ==>
        PairOf(r.fs, r.watched) == old(PairOf(r.fs, r.watched))
        && r.seen <= old(r.seen) + {old(PairOf(r.fs, r.watched))}
      invariant old(Paired(r.fs, r.watched)) ==> r.seen <= old(r.seen) + {old(PairOf(r.fs, r.watched)), NOTHING}
      invariant ok ==> forall p :: p in ExpiredPaths(r.fs, cutoff) ==> p.date in expired
      invariant expired <= old(ExpiredDates(r.fs, cutoff))
      invariant OnlyDates(old(r.fs), r.fs, old(ExpiredDates(r.fs, cutoff)))
      invariant ok ==> forall d :: d in old(ExpiredDates(r.fs, cutoff)) - expired ==> Gone(r.fs, d)
      invariant ok ==> deleted + |ExpiredPaths(r.fs, cutoff)| == |old(ExpiredPaths(r.fs, cutoff))|
      decreases |expired|
    {
      var d :| d in expired;
      expired := expired - {d};
      var n;
      label Next:
      ok, n := RetireDate(r, d, cutoff);
      OneMoreDate(old(r.fs), old@Next(r.fs), r.fs, old(ExpiredDates(r.fs, cutoff)), d);
      if ok { StillExpired(old@Next(r.fs), r.fs, d, cutoff); }
      deleted := deleted + n;
    }
  }

  lemma OneMoreDate(a: FileSystem, b: FileSystem, c: FileSystem, dates: set<nat>, date: nat)
    requires OnlyDates(a, b, dates) && OnlyDate(b, c, date) && date in dates
    ensures OnlyDates(a, c, dates)
    ensures forall d :: Gone(b, d) && d != date ==> Gone(c, d)
  {
    forall p: Path | p.LinkTemp? || p.date !in dates ensures SameAt(a, c, p) {
      assert SameAt(a, b, p) && SameAt(b, c, p);
    }
    forall d, p: Path | Gone(b, d) && d != date && InDate(p, d) ensures p !in c {
      assert SameAt(b, c, p) && p !in b;
    }
  }

  lemma StillExpired(a: FileSystem, b: FileSystem, date: nat, cutoff: nat)
    requires OnlyDate(a, b, date) && forall part :: Stable(date, part) !in b
    ensures forall p :: p in ExpiredPaths(b, cutoff) ==> p in ExpiredPaths(a, cutoff) && p.date != date
  {
    forall p | p in ExpiredPaths(b, cutoff) ensures p in ExpiredPaths(a, cutoff) && p.date != date {
      assert p == Stable(p.date, p.part);
      assert InDate(p, date) || SameAt(a, b, p);
    }
  }

  /**
   `cutoff` is the first date that is kept, `stale` what is older than a day. A date that is kept shows the
   same pair throughout; an expired one its pair, then nothing. On success nothing of an expired date is left,
   and of the rest no stale temporary name and no stale generation but those pointers lead to; nothing else is
   ever touched. The result counts the stable paths removed.
   */
  method CleanupReports(r: ReportDirectory, cutoff: nat, stale: set<Path>) returns (ok: bool, deleted: nat)
    modifies r`fs, r`seen, r`step
    ensures r.step >= old(r.step)
    ensures old(Paired(r.fs, r.watched)) ==> Paired(r.fs, r.watched)
    ensures old(Paired(r.fs, r.watched)) && r.watched >= cutoff ==>
      PairOf(r.fs, r.watched) == old(PairOf(r.fs, r.watched)) && r.seen <= old(r.seen) + {old(PairOf(r.fs, r.watched))}
    ensures old(Paired(r.fs, r.watched)) ==> r.seen <= old(r.seen) + {old(PairOf(r.fs, r.watched)), NOTHING}
    ensures ok ==> ExpiredPaths(r.fs, cutoff) == {} && deleted == |old(ExpiredPaths(r.fs, cutoff))|
    ensures ok ==> forall d :: d in old(ExpiredDates(r.fs, cutoff)) ==> Gone(r.fs, d)
    ensures ok ==> forall p :: p in stale && p.LinkTemp? ==> p !in r.fs
    ensures ok ==> forall p :: InStale(old(r.fs), stale, p) ==> p !in r.fs
    ensures OnlyDiscarded(old(r.fs), r.fs, cutoff, stale)
  {
    ok, deleted := RetireExpired(r, cutoff);
    if !ok { return; }
    label Retired:
    ok := RemoveStaleTemps(r, stale);
    SameExpired(old@Retired(r.fs), r.fs, cutoff);
    AfterTemps(old(r.fs), old@Retired(r.fs), r.fs, cutoff, stale);
    if !ok { return; }
    label Temps:
    ok := RemoveStaleGenerations(r, stale);
    SameExpired(old@Temps(r.fs), r.fs, cutoff);
    AfterStale(old(r.fs), old@Temps(r.fs), r.fs, cutoff, stale);
  }

  /** What may go: everything of expired dates, stale temporary names, stale generations without a pointer. */
  ghost predicate OnlyDiscarded(a: FileSystem, b: FileSystem, cutoff: nat, stale: set<Path>) {
    forall p :: SameAt(a, b, p) || MayGo(a, cutoff, stale, p)
  }

  ghost predicate MayGo(a: FileSystem, cutoff: nat, stale: set<Path>, p: Path) {
    if p.LinkTemp? then p in stale else p.date in ExpiredDates(a, cutoff) || InStale(a, stale, p)
  }

  lemma AfterTemps(a: FileSystem, b: FileSystem, c: FileSystem, cutoff: nat, stale: set<Path>)
    requires OnlyDates(a, b, ExpiredDates(a, cutoff))
    requires forall p :: SameAt(b, c, p) || (p.LinkTemp? && p in stale && p !in c)
    ensures OnlyDiscarded(a, c, cutoff, stale)
    ensures forall p: Path :: p.LinkTemp? || p.date in ExpiredDates(a, cutoff) || SameAt(a, c, p)
    ensures forall d :: Gone(b, d) ==> Gone(c, d)
  {
    forall p: Path ensures SameAt(a, c, p) || MayGo(a, cutoff, stale, p) {
      assert SameAt(b, c, p) || (p.LinkTemp? && p in stale && p !in c);
      if p.LinkTemp? || p.date !in ExpiredDates(a, cutoff) { assert SameAt(a, b, p); }
    }
    forall p: Path | !p.LinkTemp? && p.date !in ExpiredDates(a, cutoff) ensures SameAt(a, c, p) {
      assert SameAt(a, b, p) && SameAt(b, c, p);
    }
    forall d, p: Path | Gone(b, d) && InDate(p, d) ensures p !in c {
      assert SameAt(b, c, p) && p !in b;
    }
  }

  lemma AfterStale(a: FileSystem, b: FileSystem, c: FileSystem, cutoff: nat, stale: set<Path>)
    requires OnlyDiscarded(a, b, cutoff, stale) && OnlyStale(b, c, stale)
    requires forall p: Path :: p.LinkTemp? || p.date in ExpiredDates(a, cutoff) || SameAt(a, b, p)
    ensures OnlyDiscarded(a, c, cutoff, stale)
    ensures forall d :: Gone(b, d) ==> Gone(c, d)
    ensures forall p :: InStale(a, stale, p) && p.date !in ExpiredDates(a, cutoff) ==> InStale(b, stale, p)
    ensures forall p: Path :: p.LinkTemp? ==> SameAt(b, c, p)
  {
    forall p: Path | !p.LinkTemp? && p.date !in ExpiredDates(a, cutoff)
      ensures InStale(a, stale, p) <==> InStale(b, stale, p)
    {
      assert SameAt(a, b, Pointer(p.date));
      if p.GenerationDir? || p.Report? || p.ReportTemp? { assert SameAt(a, b, GenerationDir(p.date, p.generation)); }
    }
    forall p: Path ensures SameAt(a, c, p) || MayGo(a, cutoff, stale, p) {
      assert SameAt(a, b, p) || MayGo(a, cutoff, stale, p);
      assert SameAt(b, c, p) || (InStale(b, stale, p) && p !in c);
    }
    forall d, p: Path | Gone(b, d) && InDate(p, d) ensures p !in c {
      assert SameAt(b, c, p) || p !in c;
    }
  }
}
