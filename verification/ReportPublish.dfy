/**
 `write_report_atomic` step by step. Every operation on the directory may fail: `fails` decides for each by
 its number. `seen` collects what a reader of one arbitrary date, `watched`, could have found after each.
 */
module ReportPublish {
  import opened Wrappers
  import opened ReportFiles

  predicate InGeneration(p: Path, date: nat, g: nat) {
    match p
    case GenerationDir(d, h) => d == date && h == g
    case Report(d, h, _) => d == date && h == g
    case ReportTemp(d, h, _) => d == date && h == g
    case _ => false
  }

  /** A new generation directory has a name nothing refers to. */
  ghost predicate FreshName(fs: FileSystem, date: nat, g: nat) {
    && (forall p :: p in fs ==> !InGeneration(p, date, g))
    && forall d :: PointerTarget(fs, d) != Some(ToGeneration(date, g))
  }

  function NewPair(date: nat, g: nat, json: string, markdown: string): Pair {
    Pair(Some(FromGeneration(date, g, json)), Some(FromGeneration(date, g, markdown)))
  }

  /** Unchanged, newly linked, or gone where no pointer leads anywhere. */
  ghost predicate StableStep(a: FileSystem, b: FileSystem, date: nat, part: Part) {
    || SameAt(a, b, Stable(date, part))
    || (Stable(date, part) !in a && StableLink(b, date, part))
    || (PointerTarget(a, date).None? && Stable(date, part) !in b)
  }

  predicate Other(p: Path, date: nat, g: nat) {
    !p.LinkTemp? && !InGeneration(p, date, g) && p != Pointer(date) && p != Stable(date, Json)
    && p != Stable(date, Markdown)
  }

  ghost predicate OthersSame(a: FileSystem, b: FileSystem, date: nat, g: nat) {
    forall p: Path :: Other(p, date, g) ==> SameAt(a, b, p)
  }

  /** A state on the way before the switch, or after it was undone. */
  ghost predicate Before(a: FileSystem, b: FileSystem, date: nat, g: nat) {
    && OthersSame(a, b, date, g) && SameAt(a, b, Pointer(date))
    && StableStep(a, b, date, Json) && StableStep(a, b, date, Markdown)
  }

  ghost predicate HoldsReports(b: FileSystem, date: nat, g: nat, json: string, markdown: string) {
    && Report(date, g, Json) in b && b[Report(date, g, Json)] == File(json)
    && Report(date, g, Markdown) in b && b[Report(date, g, Markdown)] == File(markdown)
  }

  /** A state after the switch. */
  ghost predicate After(a: FileSystem, b: FileSystem, date: nat, g: nat, json: string, markdown: string) {
    && OthersSame(a, b, date, g) && PointerTarget(b, date) == Some(ToGeneration(date, g))
    && StableStep(a, b, date, Json) && StableStep(a, b, date, Markdown)
    && StableLink(b, date, Json) && StableLink(b, date, Markdown) && HoldsReports(b, date, g, json, markdown)
  }

  lemma BeforeShowsOld(a: FileSystem, b: FileSystem, date: nat, g: nat, w: nat)
    requires Paired(a, w) && PointerTarget(a, date) != Some(ToGeneration(date, g))
    requires Before(a, b, date, g)
    ensures Paired(b, w) && PairOf(b, w) == PairOf(a, w)
  {
    if w != date {
      OtherDatesSame(a, b, date, g, w);
    } else if PointerTarget(a, date).Some? && PointerTarget(a, date).value.ToGeneration? {
      var t := PointerTarget(a, date).value;
      assert SameAt(a, b, Report(date, t.generation, Json)) && SameAt(a, b, Report(date, t.generation, Markdown));
    }
  }

  lemma OtherDatesSame(a: FileSystem, b: FileSystem, date: nat, g: nat, w: nat)
    requires OthersSame(a, b, date, g) && w != date && Paired(a, w)
    ensures SameView(a, b, w) && Paired(b, w) && PairOf(b, w) == PairOf(a, w)
  {
    forall p | Relevant(a, w, p) ensures SameAt(a, b, p) { }
    SameViewSamePair(a, b, w);
  }

  /** Temporary link names do not matter. */
  ghost predicate OnlyLinkTemps(a: FileSystem, b: FileSystem) {
    forall p: Path :: p.LinkTemp? || SameAt(a, b, p)
  }

  ghost predicate OnlyStable(a: FileSystem, b: FileSystem, date: nat, part: Part) {
    forall p: Path :: p.LinkTemp? || p == Stable(date, part) || SameAt(a, b, p)
  }

  lemma StableLinksKeepReports(a: FileSystem, b: FileSystem, date: nat, part: Part, g: nat)
    requires OnlyStable(a, b, date, part) || OnlyLinkTemps(a, b)
    ensures forall other :: SameAt(a, b, Report(date, g, other))
    ensures forall other :: other != part ==> SameAt(a, b, Stable(date, other))
    ensures SameAt(a, b, Pointer(date)) && (OnlyLinkTemps(a, b) ==> SameAt(a, b, Stable(date, part)))
  {
  }

  lemma LinkTempsDoNotMatter(a: FileSystem, b: FileSystem, c: FileSystem, date: nat, g: nat)
    requires OnlyLinkTemps(b, c)
    ensures Before(a, b, date, g) ==> Before(a, c, date, g)
    ensures PointerTarget(b, date) == PointerTarget(c, date) && (Pointer(date) in b <==> Pointer(date) in c)
    ensures forall part :: SameAt(b, c, Stable(date, part)) && SameAt(b, c, Report(date, g, part))
    ensures OthersSame(a, b, date, g) ==> OthersSame(a, c, date, g)
  {
    assert SameAt(b, c, Pointer(date)) && SameAt(b, c, Stable(date, Json)) && SameAt(b, c, Stable(date, Markdown));
    if OthersSame(a, b, date, g) {
      forall p: Path | Other(p, date, g) ensures SameAt(a, c, p) {
        assert SameAt(a, b, p) && SameAt(b, c, p);
      }
    }
  }

  lemma GenerationDoesNotMatter(a: FileSystem, b: FileSystem, c: FileSystem, date: nat, g: nat)
    requires Before(a, b, date, g) && forall p :: InGeneration(p, date, g) || SameAt(b, c, p)
    ensures Before(a, c, date, g)
    ensures forall part :: SameAt(b, c, Stable(date, part))
  {
    assert SameAt(b, c, Pointer(date)) && SameAt(b, c, Stable(date, Json)) && SameAt(b, c, Stable(date, Markdown));
    forall p: Path | Other(p, date, g) ensures SameAt(a, c, p) {
      assert SameAt(a, b, p) && SameAt(b, c, p);
    }
  }

  /** A path inside a generation of this date other than `g`. */
  predicate OtherGeneration(p: Path, date: nat, g: nat) {
    match p
    case GenerationDir(d, h) => d == date && h != g
    case Report(d, h, _) => d == date && h != g
    case ReportTemp(d, h, _) => d == date && h != g
    case _ => false
  }

  lemma AfterShowsNew(a: FileSystem, b: FileSystem, date: nat, g: nat, json: string, markdown: string, w: nat)
    requires Paired(a, w) && After(a, b, date, g, json, markdown)
    ensures Paired(b, w) && PairOf(b, w) == if w == date then NewPair(date, g, json, markdown) else PairOf(a, w)
  {
    if w != date { OtherDatesSame(a, b, date, g, w); }
  }

  /** A stable link that was missing and now shows what the pointer led to all along. */
  predicate NewlyShown(a: FileSystem, b: FileSystem, date: nat, part: Part) {
    Stable(date, part) !in a && Stable(date, part) in b && Through(a, date, part).Some?
  }

  /** Whether a file of the date shows in `b` as in `a`, when `b` is a state on the way or after it was undone. */
  predicate KeptPart(a: FileSystem, b: FileSystem, date: nat, part: Part) {
    if PointerTarget(a, date).None? then Visible(a, date, part).None? || Stable(date, part) in b
    else !NewlyShown(a, b, date, part)
  }

  /**
   A failed publication that was rolled back keeps what the date showed exactly when, without a pointer, what
   was visible was not removed with its stable path; or, with one, no stable link was newly placed through
   which it shows a file.
   */
  lemma RolledBackKeepsExactly(a: FileSystem, b: FileSystem, date: nat, g: nat)
    requires Before(a, b, date, g) && FreshName(a, date, g)
    ensures PairOf(b, date) == PairOf(a, date) <==> KeptPart(a, b, date, Json) && KeptPart(a, b, date, Markdown)
  {
    StableShowsSame(a, b, date, g, Json);
    StableShowsSame(a, b, date, g, Markdown);
  }

  /** Through other pointers the same files are found; only a new link can show more. */
  lemma StableShowsSame(a: FileSystem, b: FileSystem, date: nat, g: nat, part: Part)
    requires Before(a, b, date, g) && FreshName(a, date, g)
    ensures Visible(b, date, part) == Visible(a, date, part) <==> KeptPart(a, b, date, part)
    ensures SameAt(a, b, Stable(date, part)) ==> Visible(b, date, part) == Visible(a, date, part)
  {
    forall d, q ensures Through(b, d, q) == Through(a, d, q) {
      assert SameAt(a, b, Pointer(d));
      if PointerTarget(a, d).Some? && PointerTarget(a, d).value.ToGeneration? {
        var t := PointerTarget(a, d).value;
        assert SameAt(a, b, Report(t.date, t.generation, q));
      }
    }
    match part case Json => case Markdown =>
  }

  ghost predicate StableKept(a: FileSystem, b: FileSystem, date: nat) {
    SameAt(a, b, Stable(date, Json)) && SameAt(a, b, Stable(date, Markdown))
  }

  datatype Outcome =
    | Published
    | PublishedThenFailed   // an error after the switch and outside the rollback
    | Refused               // an error before the rollback region
    | RolledBack
    | PartlyRolledBack      // the pointer was restored, a later step of the rollback failed
    | RollbackFailed        // the pointer could not be restored

  /** Both stable paths are absent or managed, so that a publication can link them. */
  ghost predicate Linkable(fs: FileSystem, date: nat) {
    forall part :: Stable(date, part) in fs ==> StableLink(fs, date, part)
  }

  /** A missing stable link takes five operations: a temporary name is made, freed, linked, renamed, cleared. */
  function LinkSteps(fs: FileSystem, date: nat, part: Part): nat {
    if Stable(date, part) in fs then 0 else 5
  }

  /** Operations in the `try` block before the pointer is renamed: reports, stable links, temporary link. */
  function StepsToSwitch(fs: FileSystem, date: nat): nat {
    9 + LinkSteps(fs, date, Json) + LinkSteps(fs, date, Markdown) + 3
  }

  /** None of the operations numbered `from` to `to` fails. */
  ghost predicate Fine(fails: nat -> bool, from: nat, to: nat) {
    forall k :: from <= k < to ==> !fails(k)
  }

  /** Nothing of the generation is left. */
  ghost predicate GenerationGone(fs: FileSystem, date: nat, g: nat) {
    forall p :: p in fs ==> !InGeneration(p, date, g)
  }

  /** Every older generation in `a` is gone in `b`, but for those that are blamed on a failed operation of their own. */
  ghost predicate Blamed(fails: nat -> bool, a: FileSystem, b: FileSystem, date: nat, g: nat, blame: map<nat, nat>,
                         from: nat, to: nat)
  {
    && (forall h :: h != g && GenerationDir(date, h) in a && h !in blame ==> GenerationGone(b, date, h))
    && (forall h :: h in blame ==> from <= blame[h] < to && fails(blame[h]))
    && (forall h, i :: h in blame && i in blame && h != i ==> blame[h] != blame[i])
  }

  ghost predicate OldGone(fails: nat -> bool, a: FileSystem, b: FileSystem, date: nat, g: nat, from: nat, to: nat) {
    exists blame: map<nat, nat> :: Blamed(fails, a, b, date, g, blame, from, to)
  }

  lemma AllOldGone(fails: nat -> bool, a: FileSystem, b: FileSystem, date: nat, g: nat, from: nat, to: nat)
    requires OldGone(fails, a, b, date, g, from, to) && Fine(fails, from, to)
    ensures forall h :: h != g && GenerationDir(date, h) in a ==> GenerationGone(b, date, h)
  {
    var blame: map<nat, nat> :| Blamed(fails, a, b, date, g, blame, from, to);
  }

  predicate IsAdded(a: FileSystem, b: FileSystem, p: Path) {
    p.LinkTemp? && p in b && p !in a
  }

  /** No temporary link was added, but for the given one. */
  ghost predicate NoLinkAdded(a: FileSystem, b: FileSystem, but: Option<Path>) {
    forall p: Path :: IsAdded(a, b, p) ==> Some(p) == but
  }

  predicate BothFail(fails: nat -> bool, i: nat, j: nat) {
    fails(i) && fails(j)
  }

  /** At most one of the operations numbered `from` to `to` fails. */
  ghost predicate OneFault(fails: nat -> bool, from: nat, to: nat) {
    forall i, j :: from <= i < j < to ==> !BothFail(fails, i, j)
  }

  lemma TwoFaults(fails: nat -> bool, from: nat, mark: nat, to: nat)
    requires from <= mark <= to && !Fine(fails, from, mark) && !Fine(fails, mark, to)
    ensures !OneFault(fails, from, to)
  {
    var i :| from <= i < mark && fails(i);
    var j :| mark <= j < to && fails(j);
    assert BothFail(fails, i, j);
  }

  /** Unless two of the operations fail, no temporary link but the given one is left behind. */
  ghost predicate Tidy(fails: nat -> bool, a: FileSystem, b: FileSystem, from: nat, to: nat, but: Option<Path>) {
    OneFault(fails, from, to) ==> NoLinkAdded(a, b, but)
  }

  lemma TidyAfterTidy(fails: nat -> bool, a: FileSystem, b: FileSystem, c: FileSystem, from: nat, mark: nat, to: nat,
                      but: Option<Path>)
    requires from <= mark <= to && Tidy(fails, a, b, from, mark, None) && Tidy(fails, b, c, mark, to, but)
    ensures Tidy(fails, a, c, from, to, but)
  {
  }

  /** From operation `from` on nothing fails. */
  ghost predicate Reliable(fails: nat -> bool, from: nat) {
    forall k :: from <= k ==> !fails(k)
  }

  /** The operations from `from` on put the pointer back: one removal, or a temporary link and its rename. */
  ghost predicate PutsBack(fails: nat -> bool, from: nat, previous: Option<Target>) {
    Fine(fails, from, if previous.None? then from + 1 else from + 4)
  }

  /** Each file of the pair is missing or that of `whole`: nothing of another generation is mixed in. */
  predicate PartOf(pair: Pair, whole: Pair) {
    (pair.json.None? || pair.json == whole.json) && (pair.markdown.None? || pair.markdown == whole.markdown)
  }

  /** `b` is `a` without some of the paths of `tree`. */
  ghost predicate Between(a: FileSystem, b: FileSystem, tree: set<Path>) {
    forall p :: SameAt(a, b, p) || (p in tree && p !in b)
  }

  /** Which stable paths are gone; as long as one is left, so are the new reports. */
  ghost predicate Undone(b: FileSystem, date: nat, g: nat, json: string, markdown: string, first: bool, second: bool) {
    && (Stable(date, Json) in b <==> !first) && (Stable(date, Markdown) in b <==> !second)
    && ((first && second) || HoldsReports(b, date, g, json, markdown))
  }

  /** What the handler and the `finally` clause remove. */
  ghost predicate Undoing(tree: set<Path>, date: nat, g: nat) {
    forall p :: p in tree ==> p.LinkTemp? || InGeneration(p, date, g) || (p.Stable? && p.date == date)
  }

  /** The pointer leads to the new generation, of which parts may be gone. */
  ghost predicate Torn(a: FileSystem, b: FileSystem, date: nat, g: nat, json: string, markdown: string) {
    && OthersSame(a, b, date, g) && PointerTarget(b, date) == Some(ToGeneration(date, g))
    && (forall part :: Stable(date, part) in b ==> StableLink(b, date, part))
    && (Report(date, g, Json) in b ==> b[Report(date, g, Json)] == File(json))
    && (Report(date, g, Markdown) in b ==> b[Report(date, g, Markdown)] == File(markdown))
  }

  lemma TornIsNotMixed(a: FileSystem, b: FileSystem, date: nat, g: nat, json: string, markdown: string, w: nat)
    requires Torn(a, b, date, g, json, markdown) && Paired(a, w)
    ensures if w == date then PartOf(PairOf(b, w), NewPair(date, g, json, markdown))
            else PairOf(b, w) == PairOf(a, w) && Paired(b, w)
  {
    if w != date { OtherDatesSame(a, b, date, g, w); }
  }

  lemma AfterIsTorn(a: FileSystem, b: FileSystem, date: nat, g: nat, json: string, markdown: string)
    requires After(a, b, date, g, json, markdown)
    ensures Torn(a, b, date, g, json, markdown)
  {
    forall part ensures StableLink(b, date, part) {
      match part case Json => case Markdown =>
    }
  }

  /** Losing stable links, new reports or temporary names only tears the new pair further. */
  lemma TornStaysTorn(a: FileSystem, b: FileSystem, c: FileSystem, date: nat, g: nat, json: string, markdown: string,
                      tree: set<Path>)
    requires Torn(a, b, date, g, json, markdown) && Between(b, c, tree)
    requires Undoing(tree, date, g)
    ensures Torn(a, c, date, g, json, markdown)
  {
    assert SameAt(b, c, Pointer(date));
    forall p: Path | Other(p, date, g) ensures SameAt(a, c, p) {
      if p.Stable? { match p.part case Json => case Markdown => }
      assert SameAt(a, b, p) && SameAt(b, c, p);
    }
    forall part | Stable(date, part) in c ensures StableLink(c, date, part) {
      assert SameAt(b, c, Stable(date, part));
    }
    assert forall part :: Report(date, g, part) in c ==> SameAt(b, c, Report(date, g, part));
  }

  /** When the handler went on after a failed restore: the removals of the two stable paths have numbers `from` on. */
  ghost predicate LeftBehind(fails: nat -> bool, b: FileSystem, previous: Option<Target>, from: nat, date: nat, g: nat,
                             json: string, markdown: string)
  {
    if previous.None? then Undone(b, date, g, json, markdown, !fails(from), !fails(from) && !fails(from + 1))
    else StableLink(b, date, Json) && StableLink(b, date, Markdown)
  }

  /** One file of the pair is left without the other. */
  ghost predicate HalfLeft(fails: nat -> bool, b: FileSystem, previous: Option<Target>, from: nat, date: nat, g: nat) {
    if previous.None? then !fails(from) && fails(from + 1)
    else Report(date, g, Json) in b <==> Report(date, g, Markdown) !in b
  }

  /** After a failed restore the pair is broken exactly when one file is left without the other. */
  lemma TornIsBrokenExactly(fails: nat -> bool, a: FileSystem, b: FileSystem, previous: Option<Target>, from: nat,
                            date: nat, g: nat, json: string, markdown: string)
    requires Torn(a, b, date, g, json, markdown) && LeftBehind(fails, b, previous, from, date, g, json, markdown)
    ensures !Atomic(PairOf(b, date)) <==> HalfLeft(fails, b, previous, from, date, g)
  {
    assert forall part :: Stable(date, part) in b ==> StableLink(b, date, part);
    assert Stable(date, Json) in b ==> StableLink(b, date, Json);
    assert Stable(date, Markdown) in b ==> StableLink(b, date, Markdown);
  }

  class ReportDirectory {
    var fs: FileSystem
    var serial: nat
    var step: nat
    const fails: nat -> bool
    ghost const watched: nat
    ghost var seen: set<Pair>

    constructor (fs: FileSystem, fails: nat -> bool, ghost watched: nat)
      ensures this.fs == fs && this.fails == fails && step == 0
      ensures this.watched == watched && seen == {PairOf(fs, watched)}
    {
      this.fs, this.serial, this.step, this.fails, this.watched := fs, 0, 0, fails, watched;
      seen := {PairOf(fs, watched)};
    }

    // ---- Single steps ----

    /** An operation that changes no name and no content, such as fsync, chmod or listing a directory. */
    method Next() returns (ok: bool)
      modifies `step
      ensures ok == !fails(old(step)) && step == old(step) + 1
    {
      ok := !fails(step);
      step := step + 1;
    }

    method Put(p: Path, node: Node) returns (ok: bool)
      modifies `fs, `seen, `step
      ensures ok == !fails(old(step)) && step == old(step) + 1
      ensures fs == if ok then old(fs)[p := node] else old(fs)
      ensures seen == old(seen) + {PairOf(fs, watched)}
    {
      ok := Next();
      if ok {
        fs := fs[p := node];
      }
      seen := seen + {PairOf(fs, watched)};
    }

    method Remove(p: Path) returns (ok: bool)
      modifies `fs, `seen, `step
      ensures ok == !fails(old(step)) && step == old(step) + 1
      ensures fs == if ok then old(fs) - {p} else old(fs)
      ensures seen == old(seen) + {PairOf(fs, watched)}
    {
      ok := Next();
      if ok {
        fs := fs - {p};
      }
      seen := seen + {PairOf(fs, watched)};
    }

    method Rename(from: Path, to: Path) returns (ok: bool)
      modifies `fs, `seen, `step
      ensures ok == (from in old(fs) && !fails(old(step))) && step == old(step) + 1
      ensures fs == if ok then (old(fs) - {from})[to := old(fs)[from]] else old(fs)
      ensures seen == old(seen) + {PairOf(fs, watched)}
    {
      ok := Next();
      ok := ok && from in fs;
      if ok {
        fs := (fs - {from})[to := fs[from]];
      }
      seen := seen + {PairOf(fs, watched)};
    }

    /** The watched date shows what it showed, and showed nothing else meanwhile. */
    twostate predicate ViewKept()
      reads this
    {
      SameView(old(fs), fs, watched) && PairOf(fs, watched) == old(PairOf(fs, watched))
      && Paired(fs, watched) && seen <= old(seen) + {PairOf(fs, watched)}
    }

    /** Whatever was seen meanwhile is what the old state shows without some paths of `tree`. */
    twostate predicate SawBetween(tree: set<Path>)
      reads this
    {
      forall q :: q in seen ==> q in old(seen) || exists b :: Between(old(fs), b, tree) && q == PairOf(b, watched)
    }

    lemma TempsShowSame(a: FileSystem, b: FileSystem)
      requires Paired(a, watched) && OnlyLinkTemps(a, b)
      ensures SameView(a, b, watched) && Paired(b, watched) && PairOf(b, watched) == PairOf(a, watched)
    {
      forall p | Relevant(a, watched, p) ensures SameAt(a, b, p) { }
      SameViewSamePair(a, b, watched);
    }

    /** Change one temporary name: `node` is put there, or it is removed. */
    method ChangeTemp(p: Path, node: Option<Node>) returns (ok: bool)
      requires p.LinkTemp?
      modifies `fs, `seen, `step
      ensures ok == !fails(old(step)) && step == old(step) + 1
      ensures fs == if !ok then old(fs) else if node.Some? then old(fs)[p := node.value] else old(fs) - {p}
      ensures OnlyLinkTemps(old(fs), fs) && (old(Paired(fs, watched)) ==> ViewKept())
    {
      ok := Next();
      if ok {
        fs := if node.Some? then fs[p := node.value] else fs - {p};
      }
      seen := seen + {PairOf(fs, watched)};
      if old(Paired(fs, watched)) { TempsShowSame(old(fs), fs); }
    }

    method SymlinkTemp(target: Target) returns (temp: Option<Path>)
      modifies this
      ensures OnlyLinkTemps(old(fs), fs) && (old(Paired(fs, watched)) ==> ViewKept())
      ensures temp.Some? ==> temp.value.LinkTemp? && temp.value in fs && fs[temp.value] == Link(target)
      ensures temp.Some? <==> Fine(fails, old(step), old(step) + 3)
      ensures step >= old(step) && (temp.Some? ==> step == old(step) + 3)
      ensures Tidy(fails, old(fs), fs, old(step), step, temp) && (temp.None? ==> !Fine(fails, old(step), step))
    {
      var p := LinkTemp(serial);
      serial := serial + 1;
      var ok := ChangeTemp(p, Some(File("")));
      if ok {
        ok := ChangeTemp(p, None);
      }
      if ok {
        ok := ChangeTemp(p, Some(Link(target)));
      }
      if ok {
        temp := Some(p);
      } else {
        temp := None;
        label Failed:
        var removed := ChangeTemp(p, None);
        if !removed { TwoFaults(fails, old(step), old@Failed(step), step); }
      }
      if old(Paired(fs, watched)) { TempsShowSame(old(fs), fs); }
    }

    /** `shutil.rmtree`: the paths go one by one in any order, and it may stop anywhere. */
    method RemoveTree(tree: set<Path>) returns (ok: bool)
      modifies `fs, `seen, `step
      ensures forall p :: p !in tree ==> SameAt(old(fs), fs, p)
      ensures forall p :: SameAt(old(fs), fs, p) || p !in fs
      ensures ok ==> forall p :: p in tree ==> p !in fs
      ensures old(Paired(fs, watched)) && (forall p :: p in tree ==> !Relevant(old(fs), watched, p)) ==> ViewKept()
      ensures Between(old(fs), fs, tree) && SawBetween(tree)
      ensures step >= old(step) && (ok <==> Fine(fails, old(step), step))
    {
      var todo := tree;
      ok := true;
      while todo != {} && ok
        invariant todo <= tree && forall p :: p !in tree ==> SameAt(old(fs), fs, p)
        invariant forall p :: SameAt(old(fs), fs, p) || p !in fs
        invariant ok ==> forall p :: p in tree && p !in todo ==> p !in fs
        invariant SawBetween(tree) && step >= old(step) && (ok <==> Fine(fails, old(step), step))
        invariant old(Paired(fs, watched)) && (forall p :: p in tree ==> !Relevant(old(fs), watched, p)) ==>
          seen <= old(seen) + {old(PairOf(fs, watched))}
        decreases if ok then |todo| + 1 else 0
      {
        var p :| p in todo;
        ok := Remove(p);
        todo := todo - {p};
        TreeKeepsView(tree);
      }
      TreeKeepsView(tree);
    }

    twostate lemma TreeKeepsView(tree: set<Path>)
      requires forall p :: p !in tree ==> SameAt(old(fs), fs, p)
      ensures old(Paired(fs, watched)) && (forall p :: p in tree ==> !Relevant(old(fs), watched, p)) ==>
        SameView(old(fs), fs, watched) && PairOf(fs, watched) == old(PairOf(fs, watched)) && Paired(fs, watched)
    {
      if old(Paired(fs, watched)) && forall p :: p in tree ==> !Relevant(old(fs), watched, p) {
        SameViewSamePair(old(fs), fs, watched);
      }
    }

    // ---- Publication ----

    /** `a` is the state publication started from. Nothing it showed has changed yet, or all is undone. */
    ghost predicate Quiet(a: FileSystem, date: nat, g: nat)
      reads this
    {
      Before(a, fs, date, g) && PointerTarget(a, date) != Some(ToGeneration(date, g))
    }

    /** What every state up to the switch shows. */
    twostate predicate Unseen(a: FileSystem, date: nat, g: nat)
      reads this
    {
      Quiet(a, date, g) && (Paired(a, watched) ==> seen <= old(seen) + {PairOf(a, watched)})
    }

    lemma ShowsOld(a: FileSystem, date: nat, g: nat)
      requires Quiet(a, date, g)
      ensures Paired(a, watched) ==> Paired(fs, watched) && PairOf(fs, watched) == PairOf(a, watched)
    {
      if Paired(a, watched) { BeforeShowsOld(a, fs, date, g, watched); }
    }

    /** Create the file, write it, and sync it. */
    method FillTemp(p: Path, data: string, ghost a: FileSystem, date: nat, g: nat) returns (ok: bool)
      requires Quiet(a, date, g) && InGeneration(p, date, g)
      modifies `fs, `seen, `step
      ensures Unseen(a, date, g) && forall part :: SameAt(old(fs), fs, Stable(date, part))
      ensures ok ==> fs == old(fs)[p := File(data)]
      ensures ok <==> Fine(fails, old(step), old(step) + 3)
      ensures step >= old(step) && (ok ==> step == old(step) + 3)
      ensures NoLinkAdded(old(fs), fs, None)
    {
      ok := Put(p, File(""));
      ShowsOld(a, date, g);
      if !ok { return; }
      ok := Put(p, File(data));
      ShowsOld(a, date, g);
      if !ok { return; }
      ok := Next();
    }

    method WriteTemp(p: Path, data: string, ghost a: FileSystem, date: nat, g: nat) returns (ok: bool)
      requires Quiet(a, date, g) && InGeneration(p, date, g)
      modifies `fs, `seen, `step
      ensures Unseen(a, date, g) && forall part :: SameAt(old(fs), fs, Stable(date, part))
      ensures ok ==> fs == old(fs)[p := File(data)]
      ensures ok <==> Fine(fails, old(step), old(step) + 3)
      ensures step >= old(step) && (ok ==> step == old(step) + 3)
      ensures NoLinkAdded(old(fs), fs, None)
    {
      ok := FillTemp(p, data, a, date, g);
      if !ok {
        var removed := Remove(p);
        ShowsOld(a, date, g);
      }
    }

    method RenameReport(date: nat, g: nat, part: Part, ghost a: FileSystem) returns (ok: bool)
      requires Quiet(a, date, g)
      modifies `fs, `seen, `step
      ensures Unseen(a, date, g) && forall q :: SameAt(old(fs), fs, Stable(date, q))
      ensures ok == (ReportTemp(date, g, part) in old(fs) && !fails(old(step))) && step == old(step) + 1
      ensures ok ==>
        fs == (old(fs) - {ReportTemp(date, g, part)})[Report(date, g, part) := old(fs)[ReportTemp(date, g, part)]]
      ensures NoLinkAdded(old(fs), fs, None)
    {
      ok := Rename(ReportTemp(date, g, part), Report(date, g, part));
      ShowsOld(a, date, g);
    }

    /** Write both files under temporary names. */
    method WriteTemps(date: nat, g: nat, json: string, markdown: string, ghost a: FileSystem) returns (ok: bool)
      requires Quiet(a, date, g)
      modifies `fs, `seen, `step
      ensures Unseen(a, date, g) && forall part :: SameAt(old(fs), fs, Stable(date, part))
      ensures ok ==> ReportTemp(date, g, Json) in fs && fs[ReportTemp(date, g, Json)] == File(json)
      ensures ok ==> ReportTemp(date, g, Markdown) in fs && fs[ReportTemp(date, g, Markdown)] == File(markdown)
      ensures ok <==> Fine(fails, old(step), old(step) + 6)
      ensures step >= old(step) && (ok ==> step == old(step) + 6)
      ensures NoLinkAdded(old(fs), fs, None)
    {
      ok := WriteTemp(ReportTemp(date, g, Json), json, a, date, g);
      if !ok { return; }
      ok := WriteTemp(ReportTemp(date, g, Markdown), markdown, a, date, g);
    }

    /** Write both files under temporary names, then rename them within the new generation. */
    method WriteReports(date: nat, g: nat, json: string, markdown: string, ghost a: FileSystem) returns (ok: bool)
      requires Quiet(a, date, g)
      modifies `fs, `seen, `step
      ensures Unseen(a, date, g) && forall part :: SameAt(old(fs), fs, Stable(date, part))
      ensures ok ==> HoldsReports(fs, date, g, json, markdown)
      ensures ok <==> Fine(fails, old(step), old(step) + 9)
      ensures step >= old(step) && (ok ==> step == old(step) + 9)
      ensures NoLinkAdded(old(fs), fs, None)
    {
      ok := WriteTemps(date, g, json, markdown, a);
      if !ok { return; }
      ok := RenameReport(date, g, Json, a);
      if !ok { return; }
      ok := RenameReport(date, g, Markdown, a);
      if !ok { return; }
      ok := Next();
    }

    method PlaceStableLink(temp: Path, date: nat, part: Part, ghost a: FileSystem, g: nat) returns (ok: bool)
      requires Quiet(a, date, g) && Stable(date, part) !in fs && Stable(date, part) !in a
      requires temp.LinkTemp? && temp in fs && fs[temp] == Link(ThroughPointer(date, part))
      modifies `fs, `seen, `step
      ensures Unseen(a, date, g)
      ensures if ok then StableLink(fs, date, part) else fs == old(fs)
      ensures ok == !fails(old(step)) && step == old(step) + 1
      ensures OnlyStable(old(fs), fs, date, part)
      ensures NoLinkAdded(old(fs), fs, None) && (ok ==> temp !in fs)
    {
      ok := Rename(temp, Stable(date, part));
      ShowsOld(a, date, g);
    }

    /** Refuses a path it does not manage; otherwise the stable link stands afterwards. */
    method EnsureStableLink(date: nat, part: Part, ghost a: FileSystem, g: nat) returns (ok: bool)
      requires Quiet(a, date, g) && (Stable(date, part) in a ==> Stable(date, part) in fs)
      modifies this
      ensures Unseen(a, date, g)
      ensures ok ==> StableLink(fs, date, part)
      ensures ok == (Fine(fails, old(step), old(step) + old(LinkSteps(fs, date, part)))
                     && (Stable(date, part) in old(fs) ==> StableLink(old(fs), date, part)))
      ensures Stable(date, part) in fs <==> Stable(date, part) in old(fs) || Fine(fails, old(step), old(step) + 4)
      ensures step >= old(step) && (ok ==> step == old(step) + old(LinkSteps(fs, date, part)))
      ensures OnlyStable(old(fs), fs, date, part)
      ensures Tidy(fails, old(fs), fs, old(step), step, None)
    {
      if Stable(date, part) in fs {
        return fs[Stable(date, part)] == Link(ThroughPointer(date, part));
      }
      ShowsOld(a, date, g);
      var temporary := SymlinkTemp(ThroughPointer(date, part));
      LinkTempsDoNotMatter(a, old(fs), fs, date, g);
      if temporary.None? {
        return false;
      }
      ok := PlaceStableLink(temporary.value, date, part, a, g);
      label Placed:
      ShowsOld(a, date, g);
      var removed := ChangeTemp(temporary.value, None);
      LinkTempsDoNotMatter(a, old@Placed(fs), fs, date, g);
      if !ok && !removed { TwoFaults(fails, old(step), old@Placed(step), step); }
      ok := ok && removed;
    }

    ghost function NewView(a: FileSystem, date: nat, g: nat, json: string, markdown: string): Pair
      reads {}
    {
      if watched == date then NewPair(date, g, json, markdown) else PairOf(a, watched)
    }

    /** Ready for the switch: both links stand and both files are written. */
    ghost predicate Ready(a: FileSystem, date: nat, g: nat, json: string, markdown: string)
      reads this
    {
      && Quiet(a, date, g) && HoldsReports(fs, date, g, json, markdown)
      && StableLink(fs, date, Json) && StableLink(fs, date, Markdown)
    }

    function BothLinks(date: nat): nat
      reads this
    {
      LinkSteps(fs, date, Json) + LinkSteps(fs, date, Markdown)
    }

    /** With its operations from `from` on, the missing stable link is renamed into place. */
    ghost predicate Places(a: FileSystem, date: nat, part: Part, from: nat) {
      match part
      case Json => Stable(date, Json) !in a && Fine(fails, from, from + 4)
      case Markdown =>
        && Stable(date, Markdown) !in a && (Stable(date, Json) in a ==> StableLink(a, date, Json))
        && Fine(fails, from, from + LinkSteps(a, date, Json) + 4)
    }

    /** The stable paths there were, and those links that were placed. */
    ghost predicate LinksPlaced(a: FileSystem, date: nat, from: nat)
      reads this
    {
      && (Stable(date, Json) in fs <==> Stable(date, Json) in a || Places(a, date, Json, from))
      && (Stable(date, Markdown) in fs <==> Stable(date, Markdown) in a || Places(a, date, Markdown, from))
    }

    method PlaceLinks(date: nat, g: nat, json: string, markdown: string, ghost a: FileSystem) returns (ok: bool)
      requires Quiet(a, date, g) && HoldsReports(fs, date, g, json, markdown) && StableKept(a, fs, date)
      modifies this
      ensures Unseen(a, date, g) && LinksPlaced(a, date, old(step))
      ensures ok ==> Ready(a, date, g, json, markdown)
      ensures ok <==> Linkable(old(fs), date) && Fine(fails, old(step), old(step + BothLinks(date)))
      ensures step >= old(step) && (ok ==> step == old(step + BothLinks(date)))
      ensures Tidy(fails, old(fs), fs, old(step), step, None)
    {
      ok := EnsureStableLink(date, Json, a, g);
      StableLinksKeepReports(old(fs), fs, date, Json, g);
      if !ok { return; }
      label Linked:
      ok := EnsureStableLink(date, Markdown, a, g);
      StableLinksKeepReports(old@Linked(fs), fs, date, Markdown, g);
      TidyAfterTidy(fails, old(fs), old@Linked(fs), fs, old(step), old@Linked(step), step, None);
    }

    method SwitchPointer(temp: Path, date: nat, g: nat, json: string, markdown: string, ghost a: FileSystem)
      returns (ok: bool)
      requires Ready(a, date, g, json, markdown) && temp.LinkTemp? && temp in fs
      requires fs[temp] == Link(ToGeneration(date, g))
      modifies `fs, `seen, `step
      ensures if ok then After(a, fs, date, g, json, markdown) else fs == old(fs)
      ensures ok == !fails(old(step)) && step == old(step) + 1
      ensures NoLinkAdded(old(fs), fs, None) && (ok ==> temp !in fs)
      ensures Paired(a, watched) ==>
        seen <= old(seen) + {if ok then NewView(a, date, g, json, markdown) else PairOf(a, watched)}
    {
      ok := Rename(temp, Pointer(date));
      if !ok {
        ShowsOld(a, date, g);
      } else if Paired(a, watched) {
        AfterShowsNew(a, fs, date, g, json, markdown, watched);
      }
    }

    /** Links, pointer, fsync. The one rename in `SwitchPointer` makes both new files visible. */
    method Switch(date: nat, g: nat, json: string, markdown: string, ghost a: FileSystem)
      returns (ok: bool, committed: bool, temp: Option<Path>)
      requires Quiet(a, date, g) && HoldsReports(fs, date, g, json, markdown) && StableKept(a, fs, date)
      modifies this
      ensures LinksPlaced(a, date, old(step))
      ensures if committed then After(a, fs, date, g, json, markdown) else Quiet(a, date, g)
      ensures committed <==> Linkable(old(fs), date) && Fine(fails, old(step), old(step + BothLinks(date)) + 4)
      ensures ok <==> committed && !fails(old(step + BothLinks(date)) + 4)
      ensures step >= old(step) && (committed ==> step == old(step + BothLinks(date)) + 5)
      ensures temp.Some? ==> temp.value.LinkTemp?
      ensures Tidy(fails, old(fs), fs, old(step), step, if committed then None else temp)
      ensures !committed && temp.Some? ==> !Fine(fails, old(step), step)
      ensures Paired(a, watched) ==>
        seen <= old(seen) + {PairOf(a, watched),
                             if committed then NewView(a, date, g, json, markdown) else PairOf(a, watched)}
    {
      committed, temp := false, None;
      ok := PlaceLinks(date, g, json, markdown, a);
      if !ok { return; }
      label Placed:
      ShowsOld(a, date, g);
      temp := SymlinkTemp(ToGeneration(date, g));
      LinkTempsDoNotMatter(a, old@Placed(fs), fs, date, g);
      TidyAfterTidy(fails, old(fs), old@Placed(fs), fs, old(step), old@Placed(step), step, temp);
      if temp.None? {
        ok := false;
        return;
      }
      committed := SwitchPointer(temp.value, date, g, json, markdown, a);
      if !committed {
        ok := false;
        return;
      }
      ok := Next();
    }

    // ---- Rolling back ----

    method PutPointerBack(temp: Path, previous: Target, date: nat, g: nat, json: string, markdown: string,
                          ghost a: FileSystem)
      returns (ok: bool)
      requires After(a, fs, date, g, json, markdown) && PointerTarget(a, date) == Some(previous)
      requires previous != ToGeneration(date, g) && temp.LinkTemp? && temp in fs && fs[temp] == Link(previous)
      modifies `fs, `seen, `step
      ensures if ok then Quiet(a, date, g) else fs == old(fs)
      ensures StableKept(old(fs), fs, date)
      ensures ok == !fails(old(step)) && step == old(step) + 1
      ensures NoLinkAdded(old(fs), fs, None) && (ok ==> temp !in fs)
      ensures Paired(a, watched) ==>
        seen <= old(seen) + {PairOf(a, watched), NewView(a, date, g, json, markdown)}
    {
      ok := Rename(temp, Pointer(date));
      if ok {
        ShowsOld(a, date, g);
      } else if Paired(a, watched) {
        AfterShowsNew(a, fs, date, g, json, markdown, watched);
      }
    }

    method DropPointer(date: nat, g: nat, json: string, markdown: string, ghost a: FileSystem) returns (ok: bool)
      requires After(a, fs, date, g, json, markdown) && Pointer(date) !in a
      modifies `fs, `seen, `step
      ensures if ok then Quiet(a, date, g) else fs == old(fs)
      ensures StableKept(old(fs), fs, date)
      ensures ok == !fails(old(step)) && step == old(step) + 1
      ensures NoLinkAdded(old(fs), fs, None)
      ensures Paired(a, watched) ==>
        seen <= old(seen) + {PairOf(a, watched), NewView(a, date, g, json, markdown)}
    {
      ok := Remove(Pointer(date));
      if ok {
        ShowsOld(a, date, g);
      } else if Paired(a, watched) {
        AfterShowsNew(a, fs, date, g, json, markdown, watched);
      }
    }

    /** Make a link to the old generation and rename it over the pointer. */
    method RelinkPointer(previous: Target, date: nat, g: nat, json: string, markdown: string, ghost a: FileSystem)
      returns (restored: bool, temp: Option<Path>)
      requires After(a, fs, date, g, json, markdown)
      requires PointerTarget(a, date) == Some(previous) != Some(ToGeneration(date, g))
      modifies this
      ensures temp.Some? ==> temp.value.LinkTemp?
      ensures restored <==> Fine(fails, old(step), old(step) + 4)
      ensures StableKept(old(fs), fs, date)
      ensures if restored then Quiet(a, date, g) else After(a, fs, date, g, json, markdown)
      ensures step >= old(step) && (restored ==> temp.Some?)
      ensures Tidy(fails, old(fs), fs, old(step), step, if restored then None else temp)
      ensures !restored ==> !Fine(fails, old(step), step)
      ensures Paired(a, watched) ==>
        seen <= old(seen) + {PairOf(a, watched), NewView(a, date, g, json, markdown)}
    {
      if Paired(a, watched) { AfterShowsNew(a, fs, date, g, json, markdown, watched); }
      temp := SymlinkTemp(previous);
      LinkTempsDoNotMatter(a, old(fs), fs, date, g);
      if temp.None? {
        return false, None;
      }
      restored := PutPointerBack(temp.value, previous, date, g, json, markdown, a);
    }

    /** Undo the switch. Errors in here are swallowed. */
    method RestorePointer(previous: Option<Target>, date: nat, g: nat, json: string, markdown: string,
                          ghost a: FileSystem)
      returns (restored: bool)
      requires After(a, fs, date, g, json, markdown) && PointerTarget(a, date) == previous
      requires previous != Some(ToGeneration(date, g)) && (previous.None? ==> Pointer(date) !in a)
      modifies this
      ensures restored <==> PutsBack(fails, old(step), previous)
      ensures StableKept(old(fs), fs, date)
      ensures if restored then Quiet(a, date, g) else After(a, fs, date, g, json, markdown)
      ensures step >= old(step) && (!restored && previous.None? ==> step == old(step) + 1)
      ensures !restored ==> !Fine(fails, old(step), step)
      ensures Tidy(fails, old(fs), fs, old(step), step, None)
      ensures Paired(a, watched) ==>
        seen <= old(seen) + {PairOf(a, watched), NewView(a, date, g, json, markdown)}
    {
      var removed := true;
      if previous.None? {
        restored := DropPointer(date, g, json, markdown, a);
      } else {
        var temp;
        restored, temp := RelinkPointer(previous.value, date, g, json, markdown, a);
        label Relinked:
        if temp.Some? {
          removed := ClearTemp(temp.value, date, g, json, markdown, a, restored);
          if !restored && !removed { TwoFaults(fails, old(step), old@Relinked(step), step); }
        }
      }
      if restored && removed {
        var synced := Next();
      }
    }

    method ClearTemp(temp: Path, date: nat, g: nat, json: string, markdown: string, ghost a: FileSystem,
                     ghost restored: bool)
      returns (removed: bool)
      requires temp.LinkTemp? && if restored then Quiet(a, date, g) else After(a, fs, date, g, json, markdown)
      modifies `fs, `seen, `step
      ensures if restored then Quiet(a, date, g) else After(a, fs, date, g, json, markdown)
      ensures StableKept(old(fs), fs, date)
      ensures removed == !fails(old(step)) && step == old(step) + 1
      ensures NoLinkAdded(old(fs), fs, None) && (removed ==> temp !in fs)
      ensures Paired(a, watched) ==>
        seen <= old(seen) + {PairOf(a, watched), NewView(a, date, g, json, markdown)}
    {
      if restored {
        ShowsOld(a, date, g);
      } else if Paired(a, watched) {
        AfterShowsNew(a, fs, date, g, json, markdown, watched);
      }
      removed := ChangeTemp(temp, None);
      LinkTempsDoNotMatter(a, old(fs), fs, date, g);
    }

    method RemoveGeneration(date: nat, g: nat, ghost a: FileSystem) returns (ok: bool)
      requires Quiet(a, date, g)
      modifies `fs, `seen, `step
      ensures Unseen(a, date, g)
      ensures forall part :: SameAt(old(fs), fs, Stable(date, part))
      ensures step >= old(step) && (ok <==> Fine(fails, old(step), step))
      ensures ok ==> GenerationGone(fs, date, g)
      ensures NoLinkAdded(old(fs), fs, None)
    {
      var tree := set p | p in fs && InGeneration(p, date, g);
      ShowsOld(a, date, g);
      ok := RemoveTree(tree);
      GenerationDoesNotMatter(a, old(fs), fs, date, g);
    }

    /** Where no pointer was, the stable paths go, whatever they were. */
    method DropStable(date: nat, part: Part, ghost a: FileSystem, g: nat) returns (ok: bool)
      requires Quiet(a, date, g) && PointerTarget(a, date).None?
      modifies `fs, `seen, `step
      ensures Unseen(a, date, g)
      ensures fs == if ok then old(fs) - {Stable(date, part)} else old(fs)
      ensures ok == !fails(old(step)) && step == old(step) + 1
    {
      ok := Remove(Stable(date, part));
      ShowsOld(a, date, g);
    }

    /** What the handler removes once the pointer is back. */
    method DropReports(previous: Option<Target>, date: nat, g: nat, ghost a: FileSystem) returns (ok: bool)
      requires Quiet(a, date, g) && PointerTarget(a, date) == previous
      modifies `fs, `seen, `step
      ensures Unseen(a, date, g) && step >= old(step) && (ok <==> Fine(fails, old(step), step))
      ensures ok ==> GenerationGone(fs, date, g)
      ensures ok && previous.None? ==> Stable(date, Json) !in fs && Stable(date, Markdown) !in fs
      ensures previous.Some? ==> StableKept(old(fs), fs, date)
      ensures NoLinkAdded(old(fs), fs, None)
    {
      if previous.None? {
        ok := DropStable(date, Json, a, g);
        if !ok { return; }
        ok := DropStable(date, Markdown, a, g);
        if !ok { return; }
      }
      ok := RemoveGeneration(date, g, a);
    }

    /** The exception handler. */
    method RollBack(committed: bool, previous: Option<Target>, date: nat, g: nat, json: string, markdown: string,
                    ghost a: FileSystem)
      returns (outcome: Outcome)
      requires if committed then After(a, fs, date, g, json, markdown) else Quiet(a, date, g)
      requires PointerTarget(a, date) == previous != Some(ToGeneration(date, g))
      requires previous.None? ==> Pointer(date) !in a
      modifies this
      ensures outcome in {RolledBack, PartlyRolledBack, RollbackFailed} && step >= old(step)
      ensures outcome == RollbackFailed <==> committed && !PutsBack(fails, old(step), previous)
      ensures outcome == PartlyRolledBack ==> !Fine(fails, old(step), step)
      ensures if outcome == RollbackFailed then Torn(a, fs, date, g, json, markdown) else Quiet(a, date, g)
      ensures Paired(a, watched) ==> NotMixed(a, date, g, json, markdown)
      ensures outcome == RollbackFailed ==> LeftBehind(fails, fs, previous, old(step) + 1, date, g, json, markdown)
      ensures outcome != RollbackFailed && previous.Some? ==> StableKept(old(fs), fs, date)
      ensures outcome == RolledBack ==> GenerationGone(fs, date, g)
      ensures outcome != RollbackFailed && Paired(a, watched) ==>
        seen <= old(seen) + {PairOf(a, watched),
                             if committed then NewView(a, date, g, json, markdown) else PairOf(a, watched)}
      ensures outcome == RolledBack && previous.None? ==> Stable(date, Json) !in fs && Stable(date, Markdown) !in fs
      ensures Tidy(fails, old(fs), fs, old(step), step, None)
      ensures outcome == RollbackFailed && OneFault(fails, old(step), step) ==> GenerationGone(fs, date, g)
    {
      var restored := true;
      if committed {
        restored := RestorePointer(previous, date, g, json, markdown, a);
      }
      if !restored {
        outcome := RollbackFailed;
        label Stayed:
        UndoAnyway(previous, date, g, json, markdown, a);
        if !Fine(fails, old@Stayed(step), step) { TwoFaults(fails, old(step), old@Stayed(step), step); }
        return;
      }
      label Restored:
      var ok := DropReports(previous, date, g, a);
      TidyAfterTidy(fails, old(fs), old@Restored(fs), fs, old(step), old@Restored(step), step, None);
      outcome := if ok then RolledBack else PartlyRolledBack;
    }

    /** Since the old state readers saw the old pair, or files of the new generation and no others. */
    twostate predicate NotMixed(a: FileSystem, date: nat, g: nat, json: string, markdown: string)
      reads this
    {
      forall q :: q in seen ==>
        || q in old(seen) || q == PairOf(a, watched)
        || (watched == date && PartOf(q, NewPair(date, g, json, markdown)))
    }

    lemma TornIsSeen(a: FileSystem, b: FileSystem, c: FileSystem, date: nat, g: nat, json: string, markdown: string,
                     tree: set<Path>)
      requires Torn(a, b, date, g, json, markdown) && Between(b, c, tree) && Undoing(tree, date, g)
      ensures Torn(a, c, date, g, json, markdown)
      ensures Paired(a, watched) ==>
        PairOf(c, watched) == PairOf(a, watched)
        || (watched == date && PartOf(PairOf(c, watched), NewPair(date, g, json, markdown)))
    {
      TornStaysTorn(a, b, c, date, g, json, markdown, tree);
      if Paired(a, watched) { TornIsNotMixed(a, c, date, g, json, markdown, watched); }
    }

    /** Remove more of a torn publication. */
    method TearOff(tree: set<Path>, date: nat, g: nat, json: string, markdown: string, ghost a: FileSystem)
      returns (ok: bool)
      requires Torn(a, fs, date, g, json, markdown)
      requires Undoing(tree, date, g)
      modifies `fs, `seen, `step
      ensures Torn(a, fs, date, g, json, markdown) && step >= old(step)
      ensures ok ==> forall p :: p in tree ==> p !in fs
      ensures ok <==> Fine(fails, old(step), step)
      ensures Paired(a, watched) ==> NotMixed(a, date, g, json, markdown)
      ensures forall p :: p !in tree ==> SameAt(old(fs), fs, p)
      ensures NoLinkAdded(old(fs), fs, None)
    {
      ok := RemoveTree(tree);
      forall b | Between(old(fs), b, tree) { TornIsSeen(a, old(fs), b, date, g, json, markdown, tree); }
    }

    method TearStable(part: Part, date: nat, g: nat, json: string, markdown: string, ghost a: FileSystem)
      returns (ok: bool)
      requires Torn(a, fs, date, g, json, markdown)
      modifies `fs, `seen, `step
      ensures Torn(a, fs, date, g, json, markdown)
      ensures ok == !fails(old(step)) && step == old(step) + 1
      ensures fs == if ok then old(fs) - {Stable(date, part)} else old(fs)
      ensures Paired(a, watched) ==> NotMixed(a, date, g, json, markdown)
    {
      ok := Remove(Stable(date, part));
      TornIsSeen(a, old(fs), fs, date, g, json, markdown, {Stable(date, part)});
    }

    /** The rest of the handler after a failed restore: it goes on although the pointer leads to the new generation. */
    method UndoAnyway(previous: Option<Target>, date: nat, g: nat, json: string, markdown: string, ghost a: FileSystem)
      requires After(a, fs, date, g, json, markdown)
      modifies `fs, `seen, `step
      ensures Torn(a, fs, date, g, json, markdown) && step >= old(step)
      ensures Paired(a, watched) ==> NotMixed(a, date, g, json, markdown)
      ensures previous.None? ==> LeftBehind(fails, fs, previous, old(step), date, g, json, markdown)
      ensures previous.Some? ==> StableKept(old(fs), fs, date)
      ensures NoLinkAdded(old(fs), fs, None) && (Fine(fails, old(step), step) ==> GenerationGone(fs, date, g))
    {
      AfterIsTorn(a, fs, date, g, json, markdown);
      if previous.None? {
        var ok := TearStable(Json, date, g, json, markdown, a);
        if !ok { return; }
        ok := TearStable(Markdown, date, g, json, markdown, a);
        if !ok { return; }
      }
      var tree := set p | p in fs && InGeneration(p, date, g);
      label Last:
      var removed := TearOff(tree, date, g, json, markdown, a);
      assert NoLinkAdded(old(fs), old@Last(fs), None);
      assert StableKept(old@Last(fs), fs, date);
    }

    // ---- The whole publication ----

    function TempNames(date: nat, g: nat, temp: Option<Path>): set<Path> {
      {ReportTemp(date, g, Json), ReportTemp(date, g, Markdown)} + if temp.Some? then {temp.value} else {}
    }

    /** The `finally` clause: temporary names go. */
    method RemoveTemps(date: nat, g: nat, temp: Option<Path>) returns (ok: bool)
      requires temp.Some? ==> temp.value.LinkTemp?
      modifies `fs, `seen, `step
      ensures forall p: Path :: p.LinkTemp? || (p.ReportTemp? && InGeneration(p, date, g)) || SameAt(old(fs), fs, p)
      ensures old(Paired(fs, watched)) ==> ViewKept()
      ensures Between(old(fs), fs, TempNames(date, g, temp)) && SawBetween(TempNames(date, g, temp))
      ensures step >= old(step) && (ok <==> Fine(fails, old(step), step))
      ensures ok ==> forall p :: p in TempNames(date, g, temp) ==> p !in fs
    {
      ok := RemoveTree(TempNames(date, g, temp));
    }

    /** Every other generation of the date goes; errors while removing one are swallowed. */
    method RemoveOldGenerations(date: nat, g: nat) returns (ok: bool)
      modifies `fs, `seen, `step
      ensures forall p: Path :: OtherGeneration(p, date, g) || SameAt(old(fs), fs, p)
      ensures old(Paired(fs, watched) && PointerTarget(fs, date) == Some(ToGeneration(date, g))) ==> ViewKept()
      ensures step >= old(step) && (Reliable(fails, old(step)) ==> ok)
      ensures ok ==> OldGone(fails, old(fs), fs, date, g, old(step), step)
    {
      ghost var blame: map<nat, nat> := map[];
      var listed := Next();
      if !listed {
        SeeAgain();
        return false;
      }
      var generations := set p | p in fs && p.GenerationDir? && p.date == date && p.generation != g :: p.generation;
      ok := true;
      SeeAgain();
      while generations != {} && ok
        invariant g !in generations
        invariant forall p: Path :: OtherGeneration(p, date, g) || SameAt(old(fs), fs, p)
        invariant step >= old(step) && (Reliable(fails, old(step)) ==> ok)
        invariant old(Paired(fs, watched) && PointerTarget(fs, date) == Some(ToGeneration(date, g))) ==> ViewKept()
        invariant ok ==> Clears(old(fs), date, g, generations, blame, old(step))
        decreases |generations|
      {
        var h :| h in generations;
        generations := generations - {h};
        ok := Next();
        if ok {
          label Before:
          var tree := set p | p in fs && InGeneration(p, date, h);
          OthersIrrelevant(old(fs), fs, date, g, h);
          var removed := RemoveTree(tree);
          OneMoreGone(old(fs), old@Before(fs), fs, date, g, h);
          blame := OneMoreBlamed(old(fs), old@Before(fs), date, g, h, generations, blame, old(step), old@Before(step),
                                 removed);
        }
      }
      if ok { assert Blamed(fails, old(fs), fs, date, g, blame, old(step), step); }
    }

    /** Of the older generations in `a` all but the blamed ones and those still to do are gone. */
    ghost predicate Clears(a: FileSystem, date: nat, g: nat, todo: set<nat>, blame: map<nat, nat>, from: nat)
      reads this
    {
      && (forall h :: h != g && GenerationDir(date, h) in a && h !in blame && h !in todo ==>
            GenerationGone(fs, date, h))
      && (forall h :: h in blame ==> from <= blame[h] < step && fails(blame[h]))
      && (forall h, i :: h in blame && i in blame && h != i ==> blame[h] != blame[i])
    }

    /** The next generation was removed, or one of the operations from `mark` on failed and is to blame. */
    lemma OneMoreBlamed(a: FileSystem, b: FileSystem, date: nat, g: nat, h: nat, todo: set<nat>, before: map<nat, nat>,
                        from: nat, mark: nat, removed: bool)
      returns (blame: map<nat, nat>)
      requires from <= mark <= step && (removed <==> Fine(fails, mark, step))
      requires forall i :: i != g && GenerationDir(date, i) in a && i !in before && i !in todo + {h} ==>
        GenerationGone(b, date, i)
      requires forall i :: i in before ==> from <= before[i] < mark && fails(before[i])
      requires forall i, j :: i in before && j in before && i != j ==> before[i] != before[j]
      requires (forall p :: p in fs ==> p in b) && (removed ==> GenerationGone(fs, date, h))
      ensures Clears(a, date, g, todo, blame, from)
    {
      blame := before;
      if !removed {
        var k :| mark <= k < step && fails(k);
        blame := before[h := k];
      }
    }

    /** Reading the directory again shows what it showed. */
    ghost method SeeAgain()
      modifies `seen
      ensures seen == old(seen) + {PairOf(fs, watched)}
      ensures old(Paired(fs, watched)) ==> ViewKept()
    {
      seen := seen + {PairOf(fs, watched)};
    }

    lemma OthersIrrelevant(a: FileSystem, b: FileSystem, date: nat, g: nat, h: nat)
      requires h != g && forall p: Path :: OtherGeneration(p, date, g) || SameAt(a, b, p)
      ensures Paired(b, watched) && PointerTarget(a, date) == Some(ToGeneration(date, g)) ==>
        forall p :: InGeneration(p, date, h) ==> !Relevant(b, watched, p)
    {
      assert SameAt(a, b, Pointer(date));
    }

    lemma OneMoreGone(a: FileSystem, b: FileSystem, c: FileSystem, date: nat, g: nat, h: nat)
      requires forall p: Path :: OtherGeneration(p, date, g) || SameAt(a, b, p)
      requires (forall p: Path :: InGeneration(p, date, h) || SameAt(b, c, p)) && h != g
      ensures forall p: Path :: OtherGeneration(p, date, g) || SameAt(a, c, p)
      ensures Paired(a, watched) && PointerTarget(a, date) == Some(ToGeneration(date, g)) ==>
        SameView(a, b, watched) && SameView(b, c, watched) && SameView(a, c, watched)
    {
      forall p: Path | !OtherGeneration(p, date, g) ensures SameAt(a, c, p) {
        assert SameAt(a, b, p) && SameAt(b, c, p);
      }
      if Paired(a, watched) && PointerTarget(a, date) == Some(ToGeneration(date, g)) {
        forall p | Relevant(a, watched, p) ensures SameAt(a, b, p) && SameAt(b, c, p) { }
        SameViewSamePair(a, b, watched);
      }
    }

    lemma TempsDoNotMatter(a: FileSystem, b: FileSystem, c: FileSystem, date: nat, g: nat, json: string,
                           markdown: string)
      requires forall p: Path :: p.LinkTemp? || (p.ReportTemp? && InGeneration(p, date, g)) || SameAt(b, c, p)
      ensures Before(a, b, date, g) ==> Before(a, c, date, g)
      ensures After(a, b, date, g, json, markdown) ==> After(a, c, date, g, json, markdown)
      ensures forall part :: SameAt(b, c, Stable(date, part))
    {
      assert SameAt(b, c, Pointer(date)) && SameAt(b, c, Stable(date, Json)) && SameAt(b, c, Stable(date, Markdown));
      assert SameAt(b, c, Report(date, g, Json)) && SameAt(b, c, Report(date, g, Markdown));
      if OthersSame(a, b, date, g) {
        forall p: Path | Other(p, date, g) ensures SameAt(a, c, p) {
          assert SameAt(a, b, p) && SameAt(b, c, p);
        }
      }
    }

    /** Make the generation directory, and refuse a pointer that is no symlink. */
    method Begin(date: nat, g: nat) returns (ok: bool)
      requires FreshName(fs, date, g)
      modifies `fs, `seen, `step
      ensures Unseen(old(fs), date, g)
      ensures forall part :: SameAt(old(fs), fs, Stable(date, part))
      ensures ok == (Fine(fails, old(step), old(step) + 3) && old(Pointer(date) !in fs || fs[Pointer(date)].Link?))
      ensures step >= old(step) && (ok ==> step == old(step) + 3)
      ensures !ok && Fine(fails, old(step), step) ==> GenerationGone(fs, date, g)
      ensures NoLinkAdded(old(fs), fs, None)
    {
      ghost var a := fs;
      var prepared := Next();
      if !prepared {
        SeeAgain();
        return false;
      }
      ok := Put(GenerationDir(date, g), Directory);
      ShowsOld(a, date, g);
      if ok {
        ok := Next();
      }
      if ok && Pointer(date) in fs && !fs[Pointer(date)].Link? {
        var removed := RemoveGeneration(date, g, a);
        ok := false;
      }
    }

    /** From operation `from` on, the `try` block gets as far as renaming the pointer. */
    ghost predicate Switches(a: FileSystem, date: nat, from: nat) {
      Linkable(a, date) && Fine(fails, from, from + StepsToSwitch(a, date) + 1)
    }

    /** In a `try` block from operation `from` on, the missing stable link is renamed into place. */
    ghost predicate GetsPlaced(a: FileSystem, date: nat, part: Part, from: nat) {
      Fine(fails, from, from + 9) && Places(a, date, part, from + 9)
    }

    ghost predicate LinksTried(a: FileSystem, date: nat, from: nat)
      reads this
    {
      && (Stable(date, Json) in fs <==> Stable(date, Json) in a || GetsPlaced(a, date, Json, from))
      && (Stable(date, Markdown) in fs <==> Stable(date, Markdown) in a || GetsPlaced(a, date, Markdown, from))
    }

    /** The `try` block. */
    method WriteAndSwitch(date: nat, g: nat, json: string, markdown: string, ghost a: FileSystem)
      returns (ok: bool, committed: bool, temp: Option<Path>)
      requires Quiet(a, date, g) && forall part :: SameAt(a, fs, Stable(date, part))
      modifies this
      ensures temp.Some? ==> temp.value.LinkTemp?
      ensures committed <==> Switches(a, date, old(step))
      ensures ok <==> committed && !fails(old(step) + StepsToSwitch(a, date) + 1)
      ensures step >= old(step) && (committed ==> step == old(step) + StepsToSwitch(a, date) + 2)
      ensures if committed then After(a, fs, date, g, json, markdown) else Quiet(a, date, g)
      ensures LinksTried(a, date, old(step))
      ensures Tidy(fails, old(fs), fs, old(step), step, if committed then None else temp)
      ensures !committed && temp.Some? ==> !Fine(fails, old(step), step)
      ensures Paired(a, watched) ==>
        seen <= old(seen) + {PairOf(a, watched),
                             if committed then NewView(a, date, g, json, markdown) else PairOf(a, watched)}
    {
      committed, temp := false, None;
      ok := WriteReports(date, g, json, markdown, a);
      if ok {
        label Written:
        ok, committed, temp := Switch(date, g, json, markdown, a);
        TidyAfterTidy(fails, old(fs), old@Written(fs), fs, old(step), old@Written(step), step,
                      if committed then None else temp);
      }
    }

    /** Unless two operations fail, the temporary link is all that is left behind, and only after one failed. */
    ghost predicate TempLeft(a: FileSystem, from: nat, temp: Option<Path>)
      reads this
    {
      OneFault(fails, from, step) ==> NoLinkAdded(a, fs, if Fine(fails, from, step) then None else temp)
    }

    /** The `try` block and its handler. */
    method TryPublish(date: nat, g: nat, json: string, markdown: string, previous: Option<Target>, ghost a: FileSystem)
      returns (outcome: Outcome, temp: Option<Path>)
      requires Quiet(a, date, g) && forall part :: SameAt(a, fs, Stable(date, part))
      requires PointerTarget(a, date) == previous && (Pointer(date) in a ==> a[Pointer(date)].Link?)
      modifies this
      ensures temp.Some? ==> temp.value.LinkTemp?
      ensures IsDecided(a, date, old(step), previous, outcome)
      ensures step >= old(step) && (outcome == PartlyRolledBack ==> !Fine(fails, old(step), step))
      ensures Leaves(a, outcome, date, g, json, markdown)
      ensures outcome == RollbackFailed ==>
        LeftBehind(fails, fs, previous, old(step) + StepsToSwitch(a, date) + 3, date, g, json, markdown)
      ensures outcome in {RolledBack, PartlyRolledBack} && previous.Some? ==> LinksTried(a, date, old(step))
      ensures outcome == RolledBack ==> GenerationGone(fs, date, g)
      ensures outcome == RolledBack && previous.None? ==> Stable(date, Json) !in fs && Stable(date, Markdown) !in fs
      ensures Paired(a, watched) ==> NotMixed(a, date, g, json, markdown)
      ensures TempLeft(old(fs), old(step), temp)
      ensures outcome == RollbackFailed && OneFault(fails, old(step) + StepsToSwitch(a, date) + 2, step) ==>
        GenerationGone(fs, date, g)
      ensures outcome != RollbackFailed && Paired(a, watched) ==>
        seen <= old(seen) + {PairOf(a, watched), NewView(a, date, g, json, markdown)}
    {
      var ok, committed;
      ok, committed, temp := WriteAndSwitch(date, g, json, markdown, a);
      if ok {
        outcome := Published;
      } else {
        outcome := RollBack(committed, previous, date, g, json, markdown, a);
      }
    }

    /** What the `try` block and its handler leave. */
    ghost predicate Leaves(a: FileSystem, outcome: Outcome, date: nat, g: nat, json: string, markdown: string)
      reads this
    {
      match outcome
      case Published => After(a, fs, date, g, json, markdown)
      case RollbackFailed => Torn(a, fs, date, g, json, markdown)
      case _ => Quiet(a, date, g)
    }

    /** With operation `from` the `try` block begins: the operations that fail decide how it ends. */
    ghost predicate IsDecided(a: FileSystem, date: nat, from: nat, previous: Option<Target>, outcome: Outcome) {
      var next := from + StepsToSwitch(a, date) + 1;
      && outcome in {Published, RolledBack, PartlyRolledBack, RollbackFailed}
      && (outcome == Published <==> Switches(a, date, from) && !fails(next))
      && (outcome == RollbackFailed <==> Switches(a, date, from) && fails(next) && !PutsBack(fails, next + 1, previous))
    }

    /** The new pair stays visible while nothing but temporary names and other generations go. */
    lemma StaysNew(a: FileSystem, b: FileSystem, date: nat, g: nat, json: string, markdown: string)
      requires PairOf(a, date) == NewPair(date, g, json, markdown) && StableLink(a, date, Json)
      requires StableLink(a, date, Markdown)
      requires forall p: Path :: OtherGeneration(p, date, g) || SameAt(a, b, p)
      ensures PairOf(b, date) == NewPair(date, g, json, markdown) && Paired(b, date)
    {
      assert SameAt(a, b, Pointer(date)) && SameAt(a, b, Stable(date, Json)) && SameAt(a, b, Stable(date, Markdown));
      assert SameAt(a, b, Report(date, g, Json)) && SameAt(a, b, Report(date, g, Markdown));
    }

    lemma OnlyDateOn(a: FileSystem, b: FileSystem, c: FileSystem, date: nat, g: nat)
      requires OthersSame(a, b, date, g) || OnlyDateAndTemps(a, b, date)
      requires forall p: Path :: p.LinkTemp? || InDate(p, date) || SameAt(b, c, p)
      ensures OnlyDateAndTemps(a, c, date)
    {
      forall p: Path | !p.LinkTemp? && !InDate(p, date) ensures SameAt(a, c, p) {
        assert SameAt(b, c, p);
        if OthersSame(a, b, date, g) { assert Other(p, date, g); }
        assert SameAt(a, b, p);
      }
    }

    /** What readers of the watched date are shown, unless the rollback failed. */
    twostate predicate ShowsTried(tried: Outcome, a: FileSystem, date: nat, g: nat, json: string, markdown: string)
      reads this
    {
      tried != RollbackFailed && Paired(a, watched) ==>
        var shown := if tried == Published then NewView(a, date, g, json, markdown) else PairOf(a, watched);
        Paired(fs, watched) && PairOf(fs, watched) == shown && seen <= old(seen) + {shown}
    }

    /** The `finally` clause changes nothing of what was published or undone. */
    method ClearNames(tried: Outcome, temp: Option<Path>, date: nat, g: nat, json: string, markdown: string,
                      ghost a: FileSystem)
      returns (removed: bool)
      requires temp.Some? ==> temp.value.LinkTemp?
      requires Leaves(a, tried, date, g, json, markdown)
      modifies `fs, `seen, `step
      ensures Leaves(a, tried, date, g, json, markdown) && ShowsTried(tried, a, date, g, json, markdown)
      ensures step >= old(step) && (removed <==> Fine(fails, old(step), step)) && OnlyDateAndTemps(a, fs, date)
      ensures NoLinkAdded(old(fs), fs, None) && (removed ==> forall p :: p in TempNames(date, g, temp) ==> p !in fs)
      ensures StableKept(old(fs), fs, date) && forall p :: p in fs ==> p in old(fs)
      ensures forall part :: SameAt(old(fs), fs, Report(date, g, part))
      ensures tried == RollbackFailed && Paired(a, watched) ==> NotMixed(a, date, g, json, markdown)
    {
      if tried == Published {
        if Paired(a, watched) { AfterShowsNew(a, fs, date, g, json, markdown, watched); }
      } else if tried != RollbackFailed {
        ShowsOld(a, date, g);
      }
      assert OthersSame(a, fs, date, g);
      removed := RemoveTemps(date, g, temp);
      assert NoLinkAdded(old(fs), fs, None);
      TempsDoNotMatter(a, old(fs), fs, date, g, json, markdown);
      OnlyDateOn(a, old(fs), fs, date, g);
      if tried == RollbackFailed {
        assert SameAt(old(fs), fs, Pointer(date));
        var temps := TempNames(date, g, temp);
        forall b | Between(old(fs), b, temps) { TornIsSeen(a, old(fs), b, date, g, json, markdown, temps); }
      }
    }

    /** The `finally` clause, and after success the removal of older generations. */
    method Finish(tried: Outcome, temp: Option<Path>, date: nat, g: nat, json: string, markdown: string,
                  ghost a: FileSystem)
      returns (outcome: Outcome)
      requires temp.Some? ==> temp.value.LinkTemp?
      requires Leaves(a, tried, date, g, json, markdown)
      modifies this
      ensures if tried == Published then outcome in {Published, PublishedThenFailed} else outcome == tried
      ensures step >= old(step)
      ensures tried == Published && Reliable(fails, old(step)) ==> outcome == Published
      ensures outcome == Published ==> OldGone(fails, a, fs, date, g, old(step), step)
      ensures outcome == Published ==> forall part :: ReportTemp(date, g, part) !in fs
      ensures NoLinkAdded(old(fs), fs, None) && (temp.Some? && Fine(fails, old(step), step) ==> temp.value !in fs)
      ensures tried == Published ==> PairOf(fs, date) == NewPair(date, g, json, markdown) && Paired(fs, date)
      ensures OnlyDateAndTemps(a, fs, date)
      ensures tried !in {Published, RollbackFailed} ==> Before(a, fs, date, g)
      ensures tried != Published ==> StableKept(old(fs), fs, date) && forall p :: p in fs ==> p in old(fs)
      ensures ShowsTried(tried, a, date, g, json, markdown)
      ensures tried == RollbackFailed ==> Torn(a, fs, date, g, json, markdown)
      ensures tried == RollbackFailed ==> forall part :: SameAt(old(fs), fs, Report(date, g, part))
      ensures tried == RollbackFailed && Paired(a, watched) ==> NotMixed(a, date, g, json, markdown)
    {
      var removed := ClearNames(tried, temp, date, g, json, markdown, a);
      if removed && temp.Some? { assert temp.value in TempNames(date, g, temp); }
      outcome := tried;
      if outcome != Published {
        return;
      }
      if !removed {
        return PublishedThenFailed;
      }
      label Cleaning:
      var cleaned := RemoveOldGenerations(date, g);
      OnlyDateOn(a, old@Cleaning(fs), fs, date, g);
      StaysNew(old@Cleaning(fs), fs, date, g, json, markdown);
      TempsStayGone(old(fs), old@Cleaning(fs), fs, date, g, temp);
      if !cleaned {
        return PublishedThenFailed;
      }
      OldGoneSince(a, old@Cleaning(fs), date, g, old(step), old@Cleaning(step));
    }

    lemma TempsStayGone(a: FileSystem, b: FileSystem, c: FileSystem, date: nat, g: nat, temp: Option<Path>)
      requires NoLinkAdded(a, b, None) && forall p: Path :: OtherGeneration(p, date, g) || SameAt(b, c, p)
      requires forall p :: p in TempNames(date, g, temp) ==> p !in b
      requires temp.Some? ==> temp.value.LinkTemp?
      ensures NoLinkAdded(a, c, None) && forall p :: p in TempNames(date, g, temp) ==> p !in c
      ensures forall part :: ReportTemp(date, g, part) !in c
    {
      forall p: Path | p.LinkTemp? ensures !IsAdded(a, c, p) { assert SameAt(b, c, p) && !IsAdded(a, b, p); }
      forall p | p in TempNames(date, g, temp) ensures p !in c { assert SameAt(b, c, p); }
      forall part ensures ReportTemp(date, g, part) !in c {
        match part case Json => case Markdown =>
      }
    }

    /** Up to the removal of the older generations all of them were still there. */
    lemma OldGoneSince(a: FileSystem, b: FileSystem, date: nat, g: nat, from: nat, mark: nat)
      requires OthersSame(a, b, date, g) && from <= mark && OldGone(fails, b, fs, date, g, mark, step)
      ensures OldGone(fails, a, fs, date, g, from, step)
    {
      var blame: map<nat, nat> :| Blamed(fails, b, fs, date, g, blame, mark, step);
      forall h | h != g && GenerationDir(date, h) in a ensures GenerationDir(date, h) in b {
        assert SameAt(a, b, GenerationDir(date, h));
      }
      assert Blamed(fails, a, fs, date, g, blame, from, step);
    }

    /** A publication without failing operations is refused at a pointer of its own, and undone at unmanaged paths. */
    ghost function ReliableOutcome(a: FileSystem, date: nat): Outcome {
      if Pointer(date) in a && !a[Pointer(date)].Link? then Refused
      else if Linkable(a, date) then Published
      else RolledBack
    }

    /** Whether and where a publication that starts with operation `from` switches the pointer. */
    ghost predicate Commits(a: FileSystem, date: nat, from: nat) {
      && (Pointer(date) in a ==> a[Pointer(date)].Link?) && Fine(fails, from, from + 3) && Switches(a, date, from + 3)
    }

    /** What readers of the watched date find in the end. */
    ghost predicate Shows(a: FileSystem, outcome: Outcome, date: nat, g: nat, json: string, markdown: string)
      reads this
    {
      if outcome != RollbackFailed then
        Paired(a, watched) ==>
          && Paired(fs, watched)
          && PairOf(fs, watched) == (if outcome in {Published, PublishedThenFailed}
                                     then NewView(a, date, g, json, markdown) else PairOf(a, watched))
      else
        Paired(a, watched) ==>
          if watched == date then PartOf(PairOf(fs, date), NewPair(date, g, json, markdown))
          else Paired(fs, watched) && PairOf(fs, watched) == PairOf(a, watched)
    }

    lemma FinishedTidy(a: FileSystem, b: FileSystem, temp: Option<Path>, from: nat, mark: nat)
      requires from <= mark <= step && NoLinkAdded(b, fs, None)
      requires temp.Some? && Fine(fails, mark, step) ==> temp.value !in fs
      requires OneFault(fails, from, mark) ==> NoLinkAdded(a, b, if Fine(fails, from, mark) then None else temp)
      ensures Tidy(fails, a, fs, from, step, None)
    {
      if OneFault(fails, from, step) {
        if !Fine(fails, from, mark) && !Fine(fails, mark, step) { TwoFaults(fails, from, mark, step); }
        forall p: Path ensures !IsAdded(a, fs, p) {
          assert IsAdded(a, fs, p) ==> IsAdded(a, b, p) || IsAdded(b, fs, p);
        }
      }
    }

    /** Everything from the first write into the new generation on. */
    method PublishGeneration(date: nat, json: string, markdown: string, g: nat, previous: Option<Target>,
                             ghost a: FileSystem)
      returns (outcome: Outcome)
      requires Quiet(a, date, g) && forall part :: SameAt(a, fs, Stable(date, part))
      requires PointerTarget(a, date) == previous && (Pointer(date) in a ==> a[Pointer(date)].Link?)
      modifies this
      ensures IsDecided(a, date, old(step), previous, if outcome == PublishedThenFailed then Published else outcome)
      ensures Reliable(fails, old(step)) ==> outcome == if Linkable(a, date) then Published else RolledBack
      ensures outcome == RollbackFailed ==> (!Atomic(PairOf(fs, date)) <==>
        HalfLeft(fails, fs, previous, old(step) + StepsToSwitch(a, date) + 3, date, g))
      ensures outcome in {Published, PublishedThenFailed} ==>
        PairOf(fs, date) == NewPair(date, g, json, markdown) && Paired(fs, date)
      ensures OnlyDateAndTemps(a, fs, date) && step >= old(step)
      ensures outcome in {RolledBack, PartlyRolledBack} ==> Before(a, fs, date, g)
      ensures outcome in {RolledBack, PartlyRolledBack} && previous.Some? ==> LinksTried(a, date, old(step))
      ensures outcome == RolledBack ==> GenerationGone(fs, date, g)
      ensures outcome == RolledBack && previous.None? ==> PairOf(fs, date) == NOTHING
      ensures Shows(a, outcome, date, g, json, markdown)
      ensures outcome == Published ==> OldGone(fails, a, fs, date, g, old(step), step)
      ensures outcome == Published ==> forall part :: ReportTemp(date, g, part) !in fs
      ensures outcome == RollbackFailed && OneFault(fails, old(step) + StepsToSwitch(a, date) + 2, step) ==>
        GenerationGone(fs, date, g)
      ensures Tidy(fails, old(fs), fs, old(step), step, None)
      ensures Paired(a, watched) ==> NotMixed(a, date, g, json, markdown)
      ensures outcome != RollbackFailed && Paired(a, watched) ==>
        seen <= old(seen) + {PairOf(a, watched), NewView(a, date, g, json, markdown)}
    {
      var temp: Option<Path>;
      outcome, temp := TryPublish(date, g, json, markdown, previous, a);
      label Tried:
      outcome := Finish(outcome, temp, date, g, json, markdown, a);
      if outcome == Published { OldGoneSince(a, a, date, g, old(step), old@Tried(step)); }
      FinishedTidy(old(fs), old@Tried(fs), temp, old(step), old@Tried(step));
      if outcome == RollbackFailed {
        TornIsBrokenExactly(fails, a, fs, previous, old(step) + StepsToSwitch(a, date) + 3, date, g, json, markdown);
        if Paired(a, watched) { TornIsNotMixed(a, fs, date, g, json, markdown, watched); }
      }
    }

    /** The switch is made, the sync after it fails, and so does an operation that would put the pointer back. */
    ghost predicate FailsToRollBack(a: FileSystem, date: nat, from: nat) {
      var next := from + 3 + StepsToSwitch(a, date) + 1;
      Commits(a, date, from) && fails(next) && !PutsBack(fails, next + 1, PointerTarget(a, date))
    }

    /** Without a stable path its file was hidden; the publication places the link and does not take it back. */
    ghost predicate Uncovers(a: FileSystem, date: nat, part: Part, from: nat) {
      Through(a, date, part).Some? && Fine(fails, from, from + 3) && GetsPlaced(a, date, part, from + 3)
    }

    /**
     Whether a publication that started in `a` with operation `from` and failed keeps what its date showed: with
     a pointer, when it uncovers no file; without one, when nothing was visible, since the stable paths go.
     */
    ghost predicate Keeps(a: FileSystem, b: FileSystem, outcome: Outcome, date: nat, from: nat) {
      if outcome == Refused then true
      else if PointerTarget(a, date).Some? then !Uncovers(a, date, Json, from) && !Uncovers(a, date, Markdown, from)
      else if outcome == RolledBack then PairOf(a, date) == NOTHING
      else KeptPart(a, b, date, Json) && KeptPart(a, b, date, Markdown)
    }

    /** Which operations decide how a publication from `a` and operation `from` on ends, and what they leave. */
    ghost predicate Settles(a: FileSystem, outcome: Outcome, date: nat, g: nat, from: nat)
      reads this
    {
      var next := from + 3 + StepsToSwitch(a, date) + 1;
      && (outcome in {Published, PublishedThenFailed} <==> Commits(a, date, from) && !fails(next))
      && (outcome == RollbackFailed <==> FailsToRollBack(a, date, from))
      && (Paired(a, date) ==> (!Atomic(PairOf(fs, date)) <==>
            outcome == RollbackFailed && HalfLeft(fails, fs, PointerTarget(a, date), next + 2, date, g)))
      && (outcome in {Refused, RolledBack, PartlyRolledBack} ==>
            Before(a, fs, date, g) && (PairOf(fs, date) == PairOf(a, date) <==> Keeps(a, fs, outcome, date, from)))
    }

    lemma RefusedSettles(a: FileSystem, date: nat, g: nat, from: nat)
      requires Quiet(a, date, g) && FreshName(a, date, g) && StableKept(a, fs, date)
      requires !Fine(fails, from, from + 3) || (Pointer(date) in a && !a[Pointer(date)].Link?)
      ensures Settles(a, Refused, date, g, from) && OnlyDateAndTemps(a, fs, date)
      ensures Paired(a, date) ==> Paired(fs, date)
    {
      StableShowsSame(a, fs, date, g, Json);
      StableShowsSame(a, fs, date, g, Markdown);
      if Paired(a, date) { BeforeShowsOld(a, fs, date, g, date); }
    }

    lemma UndoneKeepsExactly(a: FileSystem, outcome: Outcome, date: nat, g: nat, from: nat)
      requires Before(a, fs, date, g) && FreshName(a, date, g) && outcome in {RolledBack, PartlyRolledBack}
      requires Fine(fails, from, from + 3) && (PointerTarget(a, date).Some? ==> LinksTried(a, date, from + 3))
      requires outcome == RolledBack && PointerTarget(a, date).None? ==> PairOf(fs, date) == NOTHING
      ensures PairOf(fs, date) == PairOf(a, date) <==> Keeps(a, fs, outcome, date, from)
    {
      RolledBackKeepsExactly(a, fs, date, g);
    }

    lemma TriedSettles(a: FileSystem, outcome: Outcome, date: nat, g: nat, from: nat)
      requires FreshName(a, date, g) && Fine(fails, from, from + 3) && (Pointer(date) in a ==> a[Pointer(date)].Link?)
      requires IsDecided(a, date, from + 3, PointerTarget(a, date),
                         if outcome == PublishedThenFailed then Published else outcome)
      requires outcome == RollbackFailed ==> (!Atomic(PairOf(fs, date)) <==>
        HalfLeft(fails, fs, PointerTarget(a, date), from + 3 + StepsToSwitch(a, date) + 3, date, g))
      requires outcome in {Published, PublishedThenFailed} ==> Paired(fs, date)
      requires outcome in {RolledBack, PartlyRolledBack} ==> Before(a, fs, date, g)
      requires outcome in {RolledBack, PartlyRolledBack} && PointerTarget(a, date).Some? ==>
        LinksTried(a, date, from + 3)
      requires outcome == RolledBack && PointerTarget(a, date).None? ==> PairOf(fs, date) == NOTHING
      ensures Settles(a, outcome, date, g, from)
      ensures outcome in {RolledBack, PartlyRolledBack} && Paired(a, date) ==> Paired(fs, date)
    {
      if outcome in {RolledBack, PartlyRolledBack} {
        UndoneKeepsExactly(a, outcome, date, g, from);
        if Paired(a, date) { BeforeShowsOld(a, fs, date, g, date); }
      }
      if Paired(fs, date) { PairedIsAtomic(fs, date); }
    }

    /**
     What is cleared away: after success every older generation for which no removal failed, and the temporary
     names of the new one; after a complete rollback, or a refusal without failures, the new generation, and even
     after a failed one, if only one operation of the rollback failed. Unless two operations fail, no temporary link
     is left.
     */
    ghost predicate ClearsUp(a: FileSystem, outcome: Outcome, date: nat, g: nat, from: nat)
      reads this
    {
      && (outcome == Published ==>
            OldGone(fails, a, fs, date, g, from, step) && forall part :: ReportTemp(date, g, part) !in fs)
      && (outcome == Published && Fine(fails, from, step) ==>
            forall h :: h != g && GenerationDir(date, h) in a ==> GenerationGone(fs, date, h))
      && (outcome == RolledBack || (outcome == Refused && Fine(fails, from, step)) ==> GenerationGone(fs, date, g))
      && (outcome == RollbackFailed && OneFault(fails, from + StepsToSwitch(a, date) + 5, step) ==>
            GenerationGone(fs, date, g))
      && (OneFault(fails, from, step) ==> NoLinkAdded(a, fs, None))
    }

    lemma PublicationClearsUp(a: FileSystem, b: FileSystem, outcome: Outcome, date: nat, g: nat, from: nat, mark: nat)
      requires from <= mark <= step && NoLinkAdded(a, b, None) && Tidy(fails, b, fs, mark, step, None)
      requires outcome != Refused && (outcome == RolledBack ==> GenerationGone(fs, date, g))
      requires outcome == RollbackFailed && OneFault(fails, from + StepsToSwitch(a, date) + 5, step) ==>
        GenerationGone(fs, date, g)
      requires outcome == Published ==>
        OldGone(fails, a, fs, date, g, mark, step) && forall part :: ReportTemp(date, g, part) !in fs
      ensures ClearsUp(a, outcome, date, g, from)
    {
      TidyAfterTidy(fails, a, b, fs, from, mark, step, None);
      if outcome == Published {
        OldGoneSince(a, a, date, g, from, mark);
        if Fine(fails, from, step) { AllOldGone(fails, a, fs, date, g, from, step); }
      }
    }

    /** The publication that started in `a` with operation `from`, once its generation directory was made. */
    method PublishBegun(date: nat, json: string, markdown: string, g: nat, ghost a: FileSystem, ghost from: nat)
      returns (outcome: Outcome)
      requires Quiet(a, date, g) && FreshName(a, date, g) && forall part :: SameAt(a, fs, Stable(date, part))
      requires (Pointer(date) in a ==> a[Pointer(date)].Link?) && NoLinkAdded(a, fs, None)
      requires step == from + 3 && Fine(fails, from, step)
      modifies this
      ensures outcome != Refused && Settles(a, outcome, date, g, from) && ClearsUp(a, outcome, date, g, from)
      ensures Reliable(fails, from) ==> outcome == if Linkable(a, date) then Published else RolledBack
      ensures outcome in {Published, PublishedThenFailed} ==> PairOf(fs, date) == NewPair(date, g, json, markdown)
      ensures outcome == RolledBack && PointerTarget(a, date).None? ==> PairOf(fs, date) == NOTHING
      ensures OnlyDateAndTemps(a, fs, date) && step >= old(step)
      ensures outcome in {Published, PublishedThenFailed} || (Paired(a, date) && outcome != RollbackFailed) ==>
        Paired(fs, date)
      ensures Paired(a, watched) ==> NotMixed(a, date, g, json, markdown)
      ensures Shows(a, outcome, date, g, json, markdown)
      ensures outcome != RollbackFailed && Paired(a, watched) ==>
        seen <= old(seen) + {PairOf(a, watched), NewView(a, date, g, json, markdown)}
    {
      outcome := PublishGeneration(date, json, markdown, g, PointerTarget(fs, date), a);
      TriedSettles(a, outcome, date, g, from);
      PublicationClearsUp(a, old(fs), outcome, date, g, from, old(step));
    }

    /**
     Publish one report. `Settles` says which failing operations decide the outcome: the rollback fails exactly
     when the fsync after the switch does and then an operation that would put the pointer back; and it says
     exactly when the pair of a managed date is broken, and when a failed publication keeps what its date showed.
     If the rollback does not fail, readers of any date see, at every moment, the old pair or the complete
     new one, and in the end the new one if it was published, otherwise the old one. Even if it fails, no reader
     sees a mixture, and other dates are not affected.
     */
    method Publish(date: nat, json: string, markdown: string, g: nat) returns (outcome: Outcome)
      requires FreshName(fs, date, g)
      modifies this
      ensures Settles(old(fs), outcome, date, g, old(step))
      ensures Reliable(fails, old(step)) ==> outcome == ReliableOutcome(old(fs), date)
      ensures outcome in {Published, PublishedThenFailed} ==> PairOf(fs, date) == NewPair(date, g, json, markdown)
      ensures ClearsUp(old(fs), outcome, date, g, old(step))
      ensures outcome == RolledBack && old(PointerTarget(fs, date)).None? ==> PairOf(fs, date) == NOTHING
      ensures OnlyDateAndTemps(old(fs), fs, date) && step >= old(step)
      ensures outcome in {Published, PublishedThenFailed} || (old(Paired(fs, date)) && outcome != RollbackFailed) ==>
        Paired(fs, date)
      ensures old(Paired(fs, watched)) ==> NotMixed(old(fs), date, g, json, markdown)
      ensures Shows(old(fs), outcome, date, g, json, markdown)
      ensures outcome != RollbackFailed && old(Paired(fs, watched)) ==>
        seen <= old(seen) + {old(PairOf(fs, watched)), old(NewView(fs, date, g, json, markdown))}
    {
      ghost var a, from := fs, step;
      var begun := Begin(date, g);
      ShowsOld(a, date, g);
      if !begun {
        RefusedSettles(a, date, g, from);
        return Refused;
      }
      outcome := PublishBegun(date, json, markdown, g, a, from);
    }
  }

  /**
   A report file that was written without generations is lost when its date is published, even if no
   operation fails: the path is refused, and the handler removes it.
   */
  method LegacyReportIsLost(date: nat, g: nat, data: string, json: string, markdown: string)
    returns (outcome: Outcome, before: Pair, after: Pair)
    ensures outcome == RolledBack && before == Pair(Some(Legacy(data)), None) && after == NOTHING
  {
    var r := new ReportDirectory(map[Stable(date, Json) := File(data)], _ => false, date);
    before := PairOf(r.fs, date);
    outcome := r.Publish(date, json, markdown, g);
    after := PairOf(r.fs, date);
  }

  /**
   A failed rollback breaks the pair: the fsync after the switch fails, the pointer stays, and the handler
   stops after it removed one of the two links. Operation 25 renamed the pointer.
   */
  method FailedRollbackBreaksPair(date: nat, g: nat, json: string, markdown: string)
    returns (outcome: Outcome, after: Pair)
    ensures outcome == RollbackFailed && !Atomic(after)
  {
    var empty: FileSystem := map[];
    var r := new ReportDirectory(empty, k => k in {26, 27, 29}, date);
    assert StepsToSwitch(empty, date) == 22 && PointerTarget(empty, date).None?;
    assert r.Commits(empty, date, 0) && r.fails(26) && r.fails(27) && r.fails(29) && !r.fails(28);
    outcome := r.Publish(date, json, markdown, g);
    after := PairOf(r.fs, date);
  }
}
