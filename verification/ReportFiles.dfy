/**
 The report directory as a file system: two stable links and one pointer per date, and generation
 directories behind them. What a reader of a date sees, and when the two files form a pair.
 */
module ReportFiles {
  import opened Wrappers

  datatype Part = Json | Markdown

  datatype Path =
    | Stable(date: nat, part: Part)                         // <date>.json, <date>.md
    | Pointer(date: nat)                                    // .<date>.current
    | GenerationDir(date: nat, generation: nat)             // .<date>.generations/<generation>
    | Report(date: nat, generation: nat, part: Part)        // report.json, report.md inside it
    | ReportTemp(date: nat, generation: nat, part: Part)
    | LinkTemp(serial: nat)                                 // .ops-report-link-*.tmp

  datatype Target =
    | ThroughPointer(date: nat, part: Part)
    | ToGeneration(date: nat, generation: nat)
    | Elsewhere(name: nat)

  datatype Node = File(data: string) | Link(target: Target) | Directory

  type FileSystem = map<Path, Node>

  datatype Source = Legacy(data: string) | FromGeneration(date: nat, generation: nat, data: string)

  function PointerTarget(fs: FileSystem, date: nat): Option<Target> {
    if Pointer(date) in fs && fs[Pointer(date)].Link? then Some(fs[Pointer(date)].target) else None
  }

  function Through(fs: FileSystem, date: nat, part: Part): Option<Source> {
    match PointerTarget(fs, date)
    case Some(ToGeneration(d, g)) =>
      if Report(d, g, part) in fs && fs[Report(d, g, part)].File? then
        Some(FromGeneration(d, g, fs[Report(d, g, part)].data))
      else None
    case _ => None
  }

  /** What opening the stable path of a date yields. */
  function Visible(fs: FileSystem, date: nat, part: Part): Option<Source> {
    if Stable(date, part) !in fs then None
    else match fs[Stable(date, part)]
      case File(data) => Some(Legacy(data))
      case Link(ThroughPointer(d, q)) => Through(fs, d, q)
      case _ => None
  }

  datatype Pair = Pair(json: Option<Source>, markdown: Option<Source>)

  const NOTHING := Pair(None, None)

  function PairOf(fs: FileSystem, date: nat): Pair {
    Pair(Visible(fs, date, Json), Visible(fs, date, Markdown))
  }

  /** Both files come from one generation, or neither can be opened. */
  predicate Atomic(pair: Pair) {
    || pair == NOTHING
    || match (pair.json, pair.markdown)
       case (Some(FromGeneration(d, g, _)), Some(FromGeneration(e, h, _))) => d == e && g == h
       case _ => false
  }

  predicate HasFile(fs: FileSystem, p: Path) {
    p in fs && fs[p].File?
  }

  predicate StableLink(fs: FileSystem, date: nat, part: Part) {
    Stable(date, part) in fs && fs[Stable(date, part)] == Link(ThroughPointer(date, part))
  }

  /** Absent, the managed link, or a link that leads nowhere; not a file of its own. */
  predicate StableManaged(fs: FileSystem, date: nat, part: Part) {
    Stable(date, part) !in fs || StableLink(fs, date, part)
    || (fs[Stable(date, part)].Link? && fs[Stable(date, part)].target.Elsewhere?)
  }

  /** The pointer leads to a complete generation behind two managed links, or to nothing. */
  predicate Paired(fs: FileSystem, date: nat) {
    && StableManaged(fs, date, Json) && StableManaged(fs, date, Markdown)
    && match PointerTarget(fs, date)
       case Some(ToGeneration(d, g)) =>
         && d == date
         && (|| (!HasFile(fs, Report(d, g, Json)) && !HasFile(fs, Report(d, g, Markdown)))
             || (&& HasFile(fs, Report(d, g, Json)) && HasFile(fs, Report(d, g, Markdown))
                 && StableLink(fs, date, Json) && StableLink(fs, date, Markdown)))
       case _ => true
  }

  lemma PairedIsAtomic(fs: FileSystem, date: nat)
    requires Paired(fs, date)
    ensures Atomic(PairOf(fs, date))
  {
  }

  // ---- What a reader of one date depends on ----

  predicate Relevant(fs: FileSystem, date: nat, p: Path) {
    match p
    case Stable(d, _) => d == date
    case Pointer(d) => d == date
    case Report(d, g, _) => PointerTarget(fs, date) == Some(ToGeneration(d, g))
    case _ => false
  }

  ghost predicate SameAt(a: FileSystem, b: FileSystem, p: Path) {
    (p in a <==> p in b) && (p in a ==> a[p] == b[p])
  }

  ghost predicate SameView(a: FileSystem, b: FileSystem, date: nat) {
    forall p :: Relevant(a, date, p) ==> SameAt(a, b, p)
  }

  lemma SameViewSamePair(a: FileSystem, b: FileSystem, date: nat)
    requires SameView(a, b, date) && Paired(a, date)
    ensures Paired(b, date) && PairOf(b, date) == PairOf(a, date) && PointerTarget(b, date) == PointerTarget(a, date)
  {
    assert SameAt(a, b, Pointer(date)) && SameAt(a, b, Stable(date, Json)) && SameAt(a, b, Stable(date, Markdown));
    if PointerTarget(a, date).Some? && PointerTarget(a, date).value.ToGeneration? {
      var t := PointerTarget(a, date).value;
      assert SameAt(a, b, Report(t.date, t.generation, Json)) && SameAt(a, b, Report(t.date, t.generation, Markdown));
    }
  }

  lemma SameViewTransitive(a: FileSystem, b: FileSystem, c: FileSystem, date: nat)
    requires SameView(a, b, date) && SameView(b, c, date) && Paired(a, date)
    ensures SameView(a, c, date)
  {
    SameViewSamePair(a, b, date);
    forall p | Relevant(a, date, p) ensures SameAt(a, c, p) {
      assert Relevant(b, date, p) && SameAt(a, b, p) && SameAt(b, c, p);
    }
  }

  // ---- Other dates ----

  predicate InDate(p: Path, date: nat) {
    !p.LinkTemp? && p.date == date
  }

  ghost predicate OnlyDate(a: FileSystem, b: FileSystem, date: nat) {
    forall p: Path :: InDate(p, date) || SameAt(a, b, p)
  }

  /** Nothing but paths of the date and temporary links changed. */
  ghost predicate OnlyDateAndTemps(a: FileSystem, b: FileSystem, date: nat) {
    forall p: Path :: p.LinkTemp? || InDate(p, date) || SameAt(a, b, p)
  }

  lemma OtherDateKeepsView(a: FileSystem, b: FileSystem, date: nat, w: nat)
    requires OnlyDateAndTemps(a, b, date) && Paired(a, w) && w != date
    ensures Paired(b, w) && PairOf(b, w) == PairOf(a, w)
  {
    forall p | Relevant(a, w, p) ensures SameAt(a, b, p) { }
    SameViewSamePair(a, b, w);
  }

  /** A pointer that leads to one complete generation while a link or a report file goes: the pair breaks. */
  lemma LosingOneFileBreaksPair(fs: FileSystem, date: nat, generation: nat, part: Part)
    requires Paired(fs, date) && PointerTarget(fs, date) == Some(ToGeneration(date, generation))
    requires PairOf(fs, date) != NOTHING
    ensures !Atomic(PairOf(fs - {Stable(date, part)}, date))
    ensures !Atomic(PairOf(fs - {Report(date, generation, part)}, date))
  {
    var a, b := fs - {Stable(date, part)}, fs - {Report(date, generation, part)};
    assert PointerTarget(a, date) == PointerTarget(fs, date) == PointerTarget(b, date);
    assert Visible(a, date, part) == None == Visible(b, date, part);
    var other := if part == Json then Markdown else Json;
    assert Visible(a, date, other) == Visible(fs, date, other) == Visible(b, date, other);
  }
}
