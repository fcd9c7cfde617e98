/** The AI-domain section of a report: sums per domain and class, and the validator that must accept it. */
module AiDomains {
  import opened Wrappers
  import opened Partition
  import opened AiRoutes
  import opened AiHistory

  datatype Bucket = Builtin | Codex | Openai | OtherSource | NoSource
  datatype Direction = AiProxy | Direct | Mixed | UnknownDirection
  datatype Signature = Signature(tag: Tag, host: string, port: Option<nat>)

  // ---- Sums ----

  datatype RouteItem = RouteItem(tag: Tag, path: string, target: Option<Target>, hits: nat, windows: nat)

  /** What the classifier said of a domain, and when that was last observed. */
  datatype CodexResult = CodexResult(classification: Classification, reason: string, model: string, observed: nat)

  datatype Item = Item(domain: string, hits: nat, classification: Classification, source: string, direction: Direction,
                       routes: seq<RouteItem>, isNew: bool, codex: seq<CodexResult>)

  function SourceBucket(source: string): Bucket {
    if source == "builtin" then Builtin else if source == "codex" then Codex else if source == "openai" then Openai
    else if source == "" then NoSource else OtherSource
  }

  function HitPairs(records: seq<Record>): Pairs<string> {
    seq(|records|, i requires 0 <= i < |records| => (records[i].domain, records[i].hits))
  }

  function OfDomain(records: seq<Record>, domain: string, n: nat): seq<Record>
    requires n <= |records|
  {
    if n == 0 then []
    else if records[n - 1].domain == domain then OfDomain(records, domain, n - 1) + [records[n - 1]]
    else OfDomain(records, domain, n - 1)
  }

  function SignatureOf(r: Route): Signature {
    match r.target
    case None => Signature(r.tag, "", None)
    case Some(t) => Signature(r.tag, t.host, t.port)
  }

  function RouteHits(records: seq<Record>): Pairs<Signature> {
    seq(|records|, i requires 0 <= i < |records| => (SignatureOf(records[i].route), records[i].hits))
  }

  function RouteWindows(records: seq<Record>): Pairs<Signature> {
    seq(|records|, i requires 0 <= i < |records| => (SignatureOf(records[i].route), 1))
  }

  /** Later window end, then later report, then later file name; of equals the one that came last. */
  predicate NotBefore(a: Record, b: Record) {
    a.window.end > b.window.end
    || (a.window.end == b.window.end
        && (a.generated > b.generated || (a.generated == b.generated && a.file >= b.file)))
  }

  /** The last record in sorted order, among those that satisfy `p`. */
  function Last(records: seq<Record>, p: Record -> bool, n: nat): (r: Option<Record>)
    requires n <= |records|
    ensures r.Some? ==> p(r.value)
  {
    if n == 0 then None else
      var before, r := Last(records, p, n - 1), records[n - 1];
      if !p(r) then before
      else if before.None? || NotBefore(r, before.value) then Some(r) else before
  }

  /** The latest source that is stated; without one the text "unknown", which counts as another source. */
  function LastSource(records: seq<Record>): string {
    match Last(records, (r: Record) => r.verdict.source != "", |records|)
    case Some(r) => r.verdict.source
    case None => "unknown"
  }

  /** The record whose path and target a route is listed with: its first in sorted order. */
  function FirstOn(records: seq<Record>, s: Signature, n: nat): Option<Record>
    requires n <= |records|
    ensures FirstOn(records, s, n).Some? ==>
      SignatureOf(FirstOn(records, s, n).value.route) == s
      && exists i :: 0 <= i < n && records[i] == FirstOn(records, s, n).value
  {
    if n == 0 then None else
      var before, r := FirstOn(records, s, n - 1), records[n - 1];
      if SignatureOf(r.route) != s then before
      else if before.None? || !NotBefore(r, before.value) then Some(r) else before
  }

  function RouteItems(records: seq<Record>, n: nat): seq<RouteItem>
    requires n <= |Keys(RouteHits(records), |records|)|
  {
    if n == 0 then [] else
      var s := Keys(RouteHits(records), |records|)[n - 1];
      var first := FirstOn(records, s, |records|);
      RouteItems(records, n - 1)
      + [RouteItem(s.tag, if first.Some? then first.value.route.path else "unknown",
                   if first.Some? then first.value.route.target else None,
                   SumAt(RouteHits(records), s, |records|), SumAt(RouteWindows(records), s, |records|))]
  }

  function DirectionOf(routes: seq<RouteItem>): Direction {
    var tags := set r | r in routes :: r.tag;
    if tags == {AiProxyTag} then AiProxy
    else if tags == {DirectTag} then Direct
    else if |tags| > 1 then Mixed
    else UnknownDirection
  }

  /** Class, reason and model of a verdict that the Codex classifier gave. */
  predicate SaidBy(r: Record, classification: Classification, reason: string, model: string) {
    SourceBucket(r.verdict.source) == Codex && r.verdict.classification == classification
    && r.verdict.reason == reason && r.verdict.model == model
  }

  predicate Said(results: seq<CodexResult>, r: Record) {
    exists k :: 0 <= k < |results| && SaidBy(r, results[k].classification, results[k].reason, results[k].model)
  }

  /** Each different verdict of the classifier once, with the report time of its last record in sorted order. */
  function CodexResults(records: seq<Record>, n: nat): seq<CodexResult>
    requires n <= |records|
  {
    if n == 0 then [] else
      var before, v := CodexResults(records, n - 1), records[n - 1].verdict;
      if SourceBucket(v.source) != Codex || Said(before, records[n - 1]) then before
      else
        var last := Last(records, (r: Record) => SaidBy(r, v.classification, v.reason, v.model), |records|);
        before + [CodexResult(v.classification, v.reason, v.model, if last.Some? then last.value.generated else 0)]
  }

  function ItemOf(records: seq<Record>, domain: string, isNew: string -> bool): Item {
    var items := OfDomain(records, domain, |records|);
    var routes := RouteItems(items, |Keys(RouteHits(items), |items|)|);
    var last := Last(items, (r: Record) => true, |items|);
    Item(domain, SumAt(HitPairs(records), domain, |records|),
         if last.Some? then last.value.verdict.classification else Unclassified,
         LastSource(items), DirectionOf(routes), routes, isNew(domain), CodexResults(items, |items|))
  }

  datatype CodexStatus = Success | Partial | Unavailable | NotUsed | UnknownStatus

  datatype CodexSection = CodexSection(status: CodexStatus, classifiedCount: nat, aiCount: nat, notAiCount: nat,
                                       domains: seq<(string, CodexResult)>, pending: set<string>)

  datatype Analysis = Analysis(items: seq<Item>, domainCount: nat, observedHits: nat,
                               newItems: seq<Item>, newCount: nat, newHits: nat,
                               classCounts: map<Classification, nat>, classHits: map<Classification, nat>,
                               sourceCounts: map<Bucket, nat>, directionCounts: map<Direction, nat>,
                               codex: CodexSection)

  const CLASSES: set<Classification> := {Ai, NotAi, Unclassified}
  const BUCKETS: set<Bucket> := {Builtin, Codex, Openai, OtherSource, NoSource}
  const DIRECTIONS: set<Direction> := {AiProxy, Direct, Mixed, UnknownDirection}

  function ClassPairs(items: seq<Item>): Pairs<Classification> {
    seq(|items|, i requires 0 <= i < |items| => (items[i].classification, items[i].hits))
  }

  /** Every key of the fixed set is counted, also with nothing. */
  ghost predicate CountsAre<K(!new)>(counts: map<K, nat>, keys: set<K>, pairs: Pairs<K>) {
    counts.Keys == keys && forall k :: k in keys ==> counts[k] == SumAt(pairs, k, |pairs|)
  }

  /** `counts[key] += value` for every pair, from zero for every key of the fixed set. */
  method CountUp<K(==, !new)>(keys: set<K>, pairs: Pairs<K>) returns (counts: map<K, nat>)
    requires forall i :: 0 <= i < |pairs| ==> pairs[i].0 in keys
    ensures CountsAre(counts, keys, pairs)
  {
    counts := map k | k in keys :: 0;
    for i := 0 to |pairs|
      invariant counts.Keys == keys && forall k :: k in keys ==> counts[k] == SumAt(pairs, k, i)
    {
      var (k, v) := pairs[i];
      counts := counts[k := counts[k] + v];
    }
  }

  lemma EveryKeyIsCounted()
    ensures forall c: Classification :: c in CLASSES
    ensures forall b: Bucket :: b in BUCKETS
    ensures forall d: Direction :: d in DIRECTIONS
  {
    forall c: Classification ensures c in CLASSES { match c case Ai => case NotAi => case Unclassified => }
    forall b: Bucket ensures b in BUCKETS {
      match b case Builtin => case Codex => case Openai => case OtherSource => case NoSource =>
    }
    forall d: Direction ensures d in DIRECTIONS {
      match d case AiProxy => case Direct => case Mixed => case UnknownDirection =>
    }
  }

  /** Every domain once, in order of first appearance. */
  function AllItems(records: seq<Record>, isNew: string -> bool): (items: seq<Item>)
    ensures |items| == |Keys(HitPairs(records), |records|)|
    ensures forall i :: 0 <= i < |items| ==> items[i] == ItemOf(records, Keys(HitPairs(records), |records|)[i], isNew)
  {
    var keys := Keys(HitPairs(records), |records|);
    seq(|keys|, i requires 0 <= i < |keys| => ItemOf(records, keys[i], isNew))
  }

  function HitsOfItems(items: seq<Item>, n: nat): nat
    requires n <= |items|
  {
    if n == 0 then 0 else HitsOfItems(items, n - 1) + items[n - 1].hits
  }

  function NewOnly(items: seq<Item>, n: nat): seq<Item>
    requires n <= |items|
  {
    if n == 0 then [] else if items[n - 1].isNew then NewOnly(items, n - 1) + [items[n - 1]] else NewOnly(items, n - 1)
  }

  function ClassOnes(items: seq<Item>): Pairs<Classification> {
    seq(|items|, i requires 0 <= i < |items| => (items[i].classification, 1))
  }

  function SourceOnes(items: seq<Item>): Pairs<Bucket> {
    seq(|items|, i requires 0 <= i < |items| => (SourceBucket(items[i].source), 1))
  }

  function DirectionOnes(items: seq<Item>): Pairs<Direction> {
    seq(|items|, i requires 0 <= i < |items| => (items[i].direction, 1))
  }

  /** The classifier's results of the first `n` items, with their domains. */
  function CodexDomains(items: seq<Item>, n: nat): seq<(string, CodexResult)>
    requires n <= |items|
  {
    if n == 0 then []
    else CodexDomains(items, n - 1) + ResultsOf(items[n - 1])
  }

  function ResultsOf(item: Item): seq<(string, CodexResult)> {
    seq(|item.codex|, k requires 0 <= k < |item.codex| => (item.domain, item.codex[k]))
  }

  function CodexPairs(domains: seq<(string, CodexResult)>): Pairs<Classification> {
    seq(|domains|, i requires 0 <= i < |domains| => (domains[i].1.classification, 1))
  }

  function StatusOf(domains: seq<(string, CodexResult)>, pending: set<string>, items: seq<Item>): CodexStatus {
    if domains != [] then (if pending != {} then Partial else Success)
    else if pending != {} then Unavailable
    else if items != [] then NotUsed
    else UnknownStatus
  }

  ghost predicate IsCodex(items: seq<Item>, pending: set<string>, c: CodexSection) {
    && c.domains == CodexDomains(items, |items|) && c.pending == pending
    && c.status == StatusOf(c.domains, pending, items) && c.classifiedCount == |c.domains|
    && c.aiCount == SumAt(CodexPairs(c.domains), Ai, |c.domains|)
    && c.notAiCount == SumAt(CodexPairs(c.domains), NotAi, |c.domains|)
  }

  ghost predicate AreCounts(items: seq<Item>, classes: map<Classification, nat>, hits: map<Classification, nat>,
                            sources: map<Bucket, nat>, directions: map<Direction, nat>)
  {
    && CountsAre(classes, CLASSES, ClassOnes(items)) && CountsAre(hits, CLASSES, ClassPairs(items))
    && CountsAre(sources, BUCKETS, SourceOnes(items)) && CountsAre(directions, DIRECTIONS, DirectionOnes(items))
  }

  /** What the aggregation computes from the records. */
  ghost predicate IsAnalysis(records: seq<Record>, isNew: string -> bool, pending: set<string>, a: Analysis) {
    && a.items == AllItems(records, isNew) && a.newItems == NewOnly(a.items, |a.items|)
    && a.domainCount == |a.items| && a.newCount == |a.newItems|
    && a.observedHits == HitsOfItems(a.items, |a.items|) && a.newHits == HitsOfItems(a.newItems, |a.newItems|)
    && AreCounts(a.items, a.classCounts, a.classHits, a.sourceCounts, a.directionCounts)
    && IsCodex(a.items, pending, a.codex)
  }

  method SumHits(items: seq<Item>) returns (hits: nat)
    ensures hits == HitsOfItems(items, |items|)
  {
    hits := 0;
    for i := 0 to |items|
      invariant hits == HitsOfItems(items, i)
    {
      hits := hits + items[i].hits;
    }
  }

  method ListItems(records: seq<Record>, isNew: string -> bool) returns (items: seq<Item>)
    ensures items == AllItems(records, isNew)
  {
    var domains := Keys(HitPairs(records), |records|);
    items := [];
    for i := 0 to |domains|
      invariant |items| == i && forall k :: 0 <= k < i ==> items[k] == ItemOf(records, domains[k], isNew)
    {
      items := items + [ItemOf(records, domains[i], isNew)];
    }
  }

  method ListNew(items: seq<Item>) returns (newItems: seq<Item>)
    ensures newItems == NewOnly(items, |items|)
  {
    newItems := [];
    for i := 0 to |items|
      invariant newItems == NewOnly(items, i)
    {
      if items[i].isNew {
        newItems := newItems + [items[i]];
      }
    }
  }

  method SummarizeCodex(items: seq<Item>, pending: set<string>) returns (c: CodexSection)
    ensures IsCodex(items, pending, c)
  {
    var domains: seq<(string, CodexResult)> := [];
    for i := 0 to |items|
      invariant domains == CodexDomains(items, i)
    {
      domains := domains + ResultsOf(items[i]);
    }
    EveryKeyIsCounted();
    var counts := CountUp(CLASSES, CodexPairs(domains));
    c := CodexSection(StatusOf(domains, pending, items), |domains|, counts[Ai], counts[NotAi], domains, pending);
  }

  method CountItems(items: seq<Item>)
    returns (classes: map<Classification, nat>, hits: map<Classification, nat>, sources: map<Bucket, nat>,
             directions: map<Direction, nat>)
    ensures AreCounts(items, classes, hits, sources, directions)
  {
    EveryKeyIsCounted();
    classes := CountUp(CLASSES, ClassOnes(items));
    hits := CountUp(CLASSES, ClassPairs(items));
    sources := CountUp(BUCKETS, SourceOnes(items));
    directions := CountUp(DIRECTIONS, DirectionOnes(items));
  }

  method AggregateDomainRecords(records: seq<Record>, isNew: string -> bool, pending: set<string>) returns (a: Analysis)
    ensures IsAnalysis(records, isNew, pending, a)
  {
    var items := ListItems(records, isNew);
    var newItems := ListNew(items);
    var classCounts, classHits, sourceCounts, directionCounts := CountItems(items);
    var observedHits := SumHits(items);
    var newHits := SumHits(newItems);
    var codex := SummarizeCodex(items, pending);
    a := Analysis(items, |items|, observedHits, newItems, |newItems|, newHits,
                  classCounts, classHits, sourceCounts, directionCounts, codex);
  }

  /** `build_ai_domain_analysis`: load, merge, aggregate. */
  method BuildAiDomainAnalysis(reports: seq<Report>, rows: seq<Observed>, catalog: map<string, Verdict>, day: Window,
                               isNew: string -> bool, pending: set<string>)
    returns (a: Analysis, ghost chosen: map<Window, Report>, ghost records: seq<Record>)
    ensures IsDay(reports, rows, catalog, day, chosen, records) && IsAnalysis(records, isNew, pending, a)
  {
    var loaded;
    loaded, chosen := LoadDay(reports, rows, catalog, day);
    records := loaded;
    a := AggregateDomainRecords(loaded, isNew, pending);
  }

  // ---- Conservation ----

  lemma {:induction false} ClassesMakeWhole(pairs: Pairs<Classification>, n: nat)
    requires n <= |pairs|
    ensures SumAt(pairs, Ai, n) + SumAt(pairs, NotAi, n) + SumAt(pairs, Unclassified, n) == Total(pairs, n)
  {
    if n > 0 {
      ClassesMakeWhole(pairs, n - 1);
      match pairs[n - 1].0 case Ai => case NotAi => case Unclassified =>
    }
  }

  lemma {:induction false} SourcesMakeWhole(pairs: Pairs<Bucket>, n: nat)
    requires n <= |pairs|
    ensures SumAt(pairs, Builtin, n) + SumAt(pairs, Codex, n) + SumAt(pairs, Openai, n) + SumAt(pairs, OtherSource, n)
         + SumAt(pairs, NoSource, n) == Total(pairs, n)
  {
    if n > 0 {
      SourcesMakeWhole(pairs, n - 1);
      match pairs[n - 1].0 case Builtin => case Codex => case Openai => case OtherSource => case NoSource =>
    }
  }

  lemma {:induction false} DirectionsMakeWhole(pairs: Pairs<Direction>, n: nat)
    requires n <= |pairs|
    ensures SumAt(pairs, AiProxy, n) + SumAt(pairs, Direct, n) + SumAt(pairs, Mixed, n)
         + SumAt(pairs, UnknownDirection, n)
         == Total(pairs, n)
  {
    if n > 0 {
      DirectionsMakeWhole(pairs, n - 1);
      match pairs[n - 1].0 case AiProxy => case Direct => case Mixed => case UnknownDirection =>
    }
  }

  lemma {:induction false} OnesAndHits(items: seq<Item>, n: nat)
    requires n <= |items|
    ensures Total(ClassOnes(items), n) == Total(SourceOnes(items), n) == Total(DirectionOnes(items), n) == n
    ensures Total(ClassPairs(items), n) == HitsOfItems(items, n)
  {
    if n > 0 { OnesAndHits(items, n - 1); }
  }

  lemma {:induction false} HitsOfKeys(items: seq<Item>, keys: seq<string>, pairs: Pairs<string>, n: nat)
    requires n <= |items| == |keys|
    requires forall i :: 0 <= i < |items| ==> items[i].hits == SumAt(pairs, keys[i], |pairs|)
    ensures HitsOfItems(items, n) == SumOver(keys, n, pairs, |pairs|)
  {
    if n > 0 { HitsOfKeys(items, keys, pairs, n - 1); }
  }

  /** What identifies an item: its key and the hits of that key. */
  lemma ItemsAreKeys(records: seq<Record>, isNew: string -> bool, i: nat)
    requires i < |AllItems(records, isNew)|
    ensures var item, key := AllItems(records, isNew)[i], Keys(HitPairs(records), |records|)[i];
      item.domain == key && item.hits == SumAt(HitPairs(records), key, |records|)
  {
  }

  /** Every domain of the records is listed once, and the observed hits are all hits. */
  lemma HitsAreConserved(records: seq<Record>, isNew: string -> bool)
    ensures var items := AllItems(records, isNew);
      && HitsOfItems(items, |items|) == Total(HitPairs(records), |records|)
      && (forall i, j :: 0 <= i < j < |items| ==> items[i].domain != items[j].domain)
      && (forall i :: 0 <= i < |records| ==> exists j :: 0 <= j < |items| && items[j].domain == records[i].domain)
  {
    var pairs := HitPairs(records);
    var keys := Keys(pairs, |records|);
    var items := AllItems(records, isNew);
    forall i | 0 <= i < |items| ensures items[i].domain == keys[i] && items[i].hits == SumAt(pairs, keys[i], |pairs|) {
      ItemsAreKeys(records, isNew, i);
    }
    HitsOfKeys(items, keys, pairs, |items|);
    PartsMakeWhole(pairs, |records|);
    DomainsAreKeys(records, items, keys);
  }

  lemma {:induction false} DomainsAreKeys(records: seq<Record>, items: seq<Item>, keys: seq<string>)
    requires keys == Keys(HitPairs(records), |records|) && |items| == |keys|
    requires forall i :: 0 <= i < |items| ==> items[i].domain == keys[i]
    ensures forall i, j :: 0 <= i < j < |items| ==> items[i].domain != items[j].domain
    ensures forall i :: 0 <= i < |records| ==> exists j :: 0 <= j < |items| && items[j].domain == records[i].domain
  {
    KeysAreDistinct(HitPairs(records), |records|);
    forall i | 0 <= i < |records| ensures exists j :: 0 <= j < |items| && items[j].domain == records[i].domain {
      assert HitPairs(records)[i].0 in keys;
      var j :| 0 <= j < |keys| && keys[j] == records[i].domain;
      assert items[j].domain == records[i].domain;
    }
  }

  lemma {:induction false} HitsOfPairs(records: seq<Record>, n: nat)
    requires n <= |records|
    ensures Total(HitPairs(records), n) == Hits(records, n)
  {
    if n > 0 { HitsOfPairs(records, n - 1); }
  }

  /** Counts by class, source and direction each sum to the number of domains, and class hits to the observed hits. */
  lemma CountsAreConserved(records: seq<Record>, isNew: string -> bool, pending: set<string>, a: Analysis)
    requires IsAnalysis(records, isNew, pending, a)
    ensures a.classCounts[Ai] + a.classCounts[NotAi] + a.classCounts[Unclassified] == a.domainCount
    ensures a.classHits[Ai] + a.classHits[NotAi] + a.classHits[Unclassified] == a.observedHits
    ensures a.sourceCounts[Builtin] + a.sourceCounts[Codex] + a.sourceCounts[Openai]
         + a.sourceCounts[OtherSource] + a.sourceCounts[NoSource] == a.domainCount
    ensures a.directionCounts[AiProxy] + a.directionCounts[Direct] + a.directionCounts[Mixed]
         + a.directionCounts[UnknownDirection] == a.domainCount
    ensures a.observedHits == Hits(records, |records|)
  {
    var n := |a.items|;
    OnesAndHits(a.items, n);
    ClassesMakeWhole(ClassOnes(a.items), n);
    ClassesMakeWhole(ClassPairs(a.items), n);
    SourcesMakeWhole(SourceOnes(a.items), n);
    DirectionsMakeWhole(DirectionOnes(a.items), n);
    HitsAreConserved(records, isNew);
    HitsOfPairs(records, |records|);
  }

  /**
   From the reports and rows to the sums: the observed hits are, window by window, those of the window's chosen
   report, and besides those of observations with a new window and domain; nothing is counted twice.
   */
  lemma ObservedHitsAreOfWindows(reports: seq<Report>, rows: seq<Observed>, catalog: map<string, Verdict>, day: Window,
                                 chosen: map<Window, Report>, records: seq<Record>, isNew: string -> bool,
                                 pending: set<string>, a: Analysis)
    requires IsDay(reports, rows, catalog, day, chosen, records) && IsAnalysis(records, isNew, pending, a)
    ensures var windows := Windows(reports, |reports|);
      var history, observations := History(chosen, windows, day, |windows|), Observations(rows, day, |rows|);
      && InOrder(windows) && (forall w :: w in windows <==> w in chosen)
      && a.observedHits
         == HitsOfWindows(chosen, windows, day, |windows|) + AddedHits(history, observations, |observations|)
  {
    CountsAreConserved(records, isNew, pending, a);
    HitsOfDay(reports, rows, catalog, day, chosen, records);
  }

  lemma SourceIsStated(records: seq<Record>, domain: string, isNew: string -> bool)
    ensures ItemOf(records, domain, isNew).source != ""
  {
  }

  lemma {:induction false} NothingUnsourced(items: seq<Item>, n: nat)
    requires n <= |items| && forall i :: 0 <= i < |items| ==> items[i].source != ""
    ensures SumAt(SourceOnes(items), NoSource, n) == 0
  {
    if n > 0 { NothingUnsourced(items, n - 1); }
  }

  /** A domain without any source is counted under the other sources; the bucket for unknown ones stays empty. */
  lemma UnknownBucketIsEmpty(records: seq<Record>, isNew: string -> bool, pending: set<string>, a: Analysis)
    requires IsAnalysis(records, isNew, pending, a)
    ensures a.sourceCounts[NoSource] == 0
  {
    forall i | 0 <= i < |a.items| ensures a.items[i].source != "" {
      SourceIsStated(records, Keys(HitPairs(records), |records|)[i], isNew);
    }
    NothingUnsourced(a.items, |a.items|);
  }

  lemma {:induction false} AllClassesCounted(pairs: Pairs<Classification>, n: nat)
    requires n <= |pairs| && forall i :: 0 <= i < |pairs| ==> pairs[i].1 == 1
    ensures Total(pairs, n) == n
  {
    if n > 0 { AllClassesCounted(pairs, n - 1); }
  }

  /** The classifier's counts are parts of its results. */
  lemma CodexCountsAreParts(items: seq<Item>, pending: set<string>, c: CodexSection)
    requires IsCodex(items, pending, c)
    ensures c.classifiedCount == c.aiCount + c.notAiCount + SumAt(CodexPairs(c.domains), Unclassified, |c.domains|)
  {
    ClassesMakeWhole(CodexPairs(c.domains), |c.domains|);
    AllClassesCounted(CodexPairs(c.domains), |c.domains|);
  }

  function HitsOfRoutes(routes: seq<RouteItem>, n: nat): nat
    requires n <= |routes|
  {
    if n == 0 then 0 else HitsOfRoutes(routes, n - 1) + routes[n - 1].hits
  }

  lemma {:induction false} HitsOfRoutePrefix(routes: seq<RouteItem>, r: RouteItem, n: nat)
    requires n <= |routes|
    ensures HitsOfRoutes(routes + [r], n) == HitsOfRoutes(routes, n)
  {
    if n > 0 { HitsOfRoutePrefix(routes, r, n - 1); }
  }

  lemma {:induction false} RouteItemsAreKeys(records: seq<Record>, n: nat)
    requires n <= |Keys(RouteHits(records), |records|)|
    ensures var keys, routes := Keys(RouteHits(records), |records|), RouteItems(records, n);
      |routes| == n && HitsOfRoutes(routes, n) == SumOver(keys, n, RouteHits(records), |records|)
  {
    if n > 0 {
      RouteItemsAreKeys(records, n - 1);
      HitsOfRoutePrefix(RouteItems(records, n - 1), RouteItems(records, n)[n - 1], n - 1);
    }
  }

  lemma {:induction false} DomainTotal(records: seq<Record>, domain: string, n: nat)
    requires n <= |records|
    ensures var items := OfDomain(records, domain, n);
      Total(RouteHits(items), |items|) == SumAt(HitPairs(records), domain, n)
  {
    if n > 0 {
      DomainTotal(records, domain, n - 1);
      var before, r := OfDomain(records, domain, n - 1), records[n - 1];
      if r.domain == domain { TotalOfPrefix(before, r, |before|); }
    }
  }

  lemma {:induction false} TotalOfPrefix(records: seq<Record>, r: Record, n: nat)
    requires n <= |records|
    ensures Total(RouteHits(records + [r]), n) == Total(RouteHits(records), n)
  {
    if n > 0 { TotalOfPrefix(records, r, n - 1); }
  }

  /** The hits of a domain's routes make up the hits of the domain. */
  lemma RouteHitsAreConserved(records: seq<Record>, domain: string, isNew: string -> bool)
    ensures var item := ItemOf(records, domain, isNew); HitsOfRoutes(item.routes, |item.routes|) == item.hits
  {
    var items := OfDomain(records, domain, |records|);
    var keys := Keys(RouteHits(items), |items|);
    RouteItemsAreKeys(items, |keys|);
    PartsMakeWhole(RouteHits(items), |items|);
    DomainTotal(records, domain, |records|);
  }

  // ---- The validator ----

  /** `_validate_ai_domain_route`. Tags and hits are right by their types. */
  predicate RouteAccepted(r: RouteItem) {
    KnownPath(r.path) && TargetAccepted(r.target) && r.windows >= 1
  }

  predicate ItemAccepted(item: Item) {
    item.domain != "" && forall k :: 0 <= k < |item.routes| ==> RouteAccepted(item.routes[k])
  }

  /** `_validate_ai_domain_analysis`: every check of a value; the shapes of the fields are their types. */
  predicate Accepted(a: Analysis) {
    && a.classCounts.Keys == CLASSES && a.classHits.Keys == CLASSES
    && a.sourceCounts.Keys == BUCKETS && a.directionCounts.Keys == DIRECTIONS
    && (forall i :: 0 <= i < |a.items| ==> ItemAccepted(a.items[i]))
    && (forall i :: 0 <= i < |a.newItems| ==> ItemAccepted(a.newItems[i]) && a.newItems[i].isNew)
    && a.domainCount == |a.items| && a.newCount == |a.newItems| && a.codex.classifiedCount == |a.codex.domains|
  }

  /** Every path that the analysis lists is a known one. */
  predicate ListsKnownPaths(a: Analysis) {
    forall i, k :: 0 <= i < |a.items| && 0 <= k < |a.items[i].routes| ==> KnownPath(a.items[i].routes[k].path)
  }

  lemma {:induction false} NewAreItems(items: seq<Item>, n: nat)
    requires n <= |items|
    ensures forall i :: 0 <= i < |NewOnly(items, n)| ==> NewOnly(items, n)[i] in items && NewOnly(items, n)[i].isNew
  {
    if n > 0 { NewAreItems(items, n - 1); }
  }

  lemma {:induction false} RouteIsCounted(records: seq<Record>, n: nat, k: nat)
    requires n <= |Keys(RouteHits(records), |records|)| && k < n
    ensures |RouteItems(records, n)| == n
    ensures var r := RouteItems(records, n)[k];
      && r.windows >= 1
      && exists i :: 0 <= i < |records| && r.path == records[i].route.path && r.target == records[i].route.target
  {
    RouteItemsAreKeys(records, n);
    RouteItemsAreKeys(records, n - 1);
    if k < n - 1 {
      RouteIsCounted(records, n - 1, k);
    } else {
      var s := Keys(RouteHits(records), |records|)[n - 1];
      var i := KeyAppears(records, |records|, n - 1);
      SignatureIsThere(records, s, i, |records|);
    }
  }

  lemma {:induction false} KeyAppears(records: seq<Record>, m: nat, k: nat) returns (i: nat)
    requires m <= |records| && k < |Keys(RouteHits(records), m)|
    ensures i < m && SignatureOf(records[i].route) == Keys(RouteHits(records), m)[k]
  {
    if k < |Keys(RouteHits(records), m - 1)| { i := KeyAppears(records, m - 1, k); } else { i := m - 1; }
  }

  lemma {:induction false} SignatureIsThere(records: seq<Record>, s: Signature, i: nat, n: nat)
    requires i < n <= |records| && SignatureOf(records[i].route) == s
    ensures SumAt(RouteWindows(records), s, n) >= 1 && FirstOn(records, s, n).Some?
  {
    if i < n - 1 { SignatureIsThere(records, s, i, n - 1); }
  }

  lemma {:induction false} FromRecords(records: seq<Record>, domain: string, n: nat)
    requires n <= |records|
    ensures forall k :: 0 <= k < |OfDomain(records, domain, n)| ==> OfDomain(records, domain, n)[k] in records
  {
    if n > 0 { FromRecords(records, domain, n - 1); }
  }

  /** Routes and domains of an item come from clean records, so only the path can be refused. */
  lemma ItemIsClean(records: seq<Record>, domain: string, isNew: string -> bool, known: bool, k: nat)
    requires AllClean(records, known) && k < |ItemOf(records, domain, isNew).routes|
    ensures var r := ItemOf(records, domain, isNew).routes[k];
      TargetAccepted(r.target) && r.windows >= 1 && (known ==> KnownPath(r.path))
  {
    var items := OfDomain(records, domain, |records|);
    FromRecords(records, domain, |records|);
    RouteItemsAreKeys(items, |Keys(RouteHits(items), |items|)|);
    RouteIsCounted(items, |Keys(RouteHits(items), |items|)|, k);
  }

  lemma {:induction false} DomainOfRecord(records: seq<Record>, n: nat, k: nat)
    requires n <= |records| && k < |Keys(HitPairs(records), n)|
    ensures exists i :: 0 <= i < n && records[i].domain == Keys(HitPairs(records), n)[k]
  {
    if k < |Keys(HitPairs(records), n - 1)| {
      DomainOfRecord(records, n - 1, k);
    } else {
      assert records[n - 1].domain == Keys(HitPairs(records), n)[k];
    }
  }

  /** The routes of these items can be refused for nothing but their paths. */
  ghost predicate OnlyPathsMatter(items: seq<Item>, known: bool) {
    forall i :: 0 <= i < |items| ==> items[i].domain != "" && RoutesAreSound(items[i].routes, known)
  }

  ghost predicate RoutesAreSound(routes: seq<RouteItem>, known: bool) {
    forall k :: 0 <= k < |routes| ==>
      TargetAccepted(routes[k].target) && routes[k].windows >= 1 && (known ==> KnownPath(routes[k].path))
  }

  lemma ItemsAreClean(records: seq<Record>, isNew: string -> bool, known: bool)
    requires AllClean(records, known)
    ensures OnlyPathsMatter(AllItems(records, isNew), known)
  {
    var items, keys := AllItems(records, isNew), Keys(HitPairs(records), |records|);
    forall i | 0 <= i < |items| ensures items[i].domain != "" && RoutesAreSound(items[i].routes, known) {
      DomainOfRecord(records, |records|, i);
      ItemsAreKeys(records, isNew, i);
      forall k | 0 <= k < |items[i].routes|
        ensures var r := items[i].routes[k];
          TargetAccepted(r.target) && r.windows >= 1 && (known ==> KnownPath(r.path))
      {
        ItemIsClean(records, keys[i], isNew, known, k);
      }
    }
  }

  lemma ItemAcceptedIf(item: Item, known: bool)
    requires item.domain != "" && RoutesAreSound(item.routes, known)
    ensures ItemAccepted(item) <==> forall k :: 0 <= k < |item.routes| ==> KnownPath(item.routes[k].path)
    ensures known ==> ItemAccepted(item)
  {
    if ItemAccepted(item) {
      forall k | 0 <= k < |item.routes| ensures KnownPath(item.routes[k].path) { assert RouteAccepted(item.routes[k]); }
    }
  }

  /** Of an analysis of clean records the validator can refuse nothing but a path. */
  lemma AcceptedIfPathsKnown(items: seq<Item>, a: Analysis, known: bool)
    requires OnlyPathsMatter(items, known) && a.items == items && a.newItems == NewOnly(items, |items|)
    requires a.domainCount == |a.items| && a.newCount == |a.newItems| && a.codex.classifiedCount == |a.codex.domains|
    requires a.classCounts.Keys == CLASSES && a.classHits.Keys == CLASSES
    requires a.sourceCounts.Keys == BUCKETS && a.directionCounts.Keys == DIRECTIONS
    ensures Accepted(a) <==> ListsKnownPaths(a)
    ensures known ==> Accepted(a)
  {
    NewAreItems(items, |items|);
    forall i | 0 <= i < |items|
      ensures ItemAccepted(items[i]) <==> forall k :: 0 <= k < |items[i].routes| ==> KnownPath(items[i].routes[k].path)
      ensures known ==> ItemAccepted(items[i])
    {
      ItemAcceptedIf(items[i], known);
    }
  }

  // ---- Which records state the listed paths ----

  predicate OnRoute(r: Record, domain: string, s: Signature) {
    r.domain == domain && SignatureOf(r.route) == s
  }

  /** Of the records of its domain and route, record `i` is the first in sorted order, and of equals the earliest. */
  ghost predicate ComesFirst(records: seq<Record>, i: nat, n: nat)
    requires n <= |records|
  {
    i < n && forall j {:trigger records[j]} ::
      0 <= j < n && OnRoute(records[j], records[i].domain, SignatureOf(records[i].route)) ==>
        if j < i then !NotBefore(records[i], records[j]) else NotBefore(records[j], records[i])
  }

  /** Where the first record of a domain and route is. */
  ghost function FirstAt(records: seq<Record>, domain: string, s: Signature, n: nat): (i: Option<nat>)
    requires n <= |records|
    ensures i.Some? ==> i.value < n && OnRoute(records[i.value], domain, s)
  {
    if n == 0 then None else
      var before, r := FirstAt(records, domain, s, n - 1), records[n - 1];
      if OnRoute(r, domain, s) && (before.None? || !NotBefore(r, records[before.value])) then Some(n - 1) else before
  }

  lemma {:induction false} FirstAtComesFirst(records: seq<Record>, domain: string, s: Signature, n: nat)
    requires n <= |records|
    ensures match FirstAt(records, domain, s, n)
            case None => forall j :: 0 <= j < n ==> !OnRoute(records[j], domain, s)
            case Some(i) => ComesFirst(records, i, n)
  {
    if n > 0 { FirstAtComesFirst(records, domain, s, n - 1); }
  }

  lemma OnlyOneComesFirst(records: seq<Record>, i: nat, n: nat)
    requires n <= |records| && ComesFirst(records, i, n)
    ensures FirstAt(records, records[i].domain, SignatureOf(records[i].route), n) == Some(i)
  {
    FirstAtComesFirst(records, records[i].domain, SignatureOf(records[i].route), n);
  }

  lemma {:induction false} FirstOnPrefix(records: seq<Record>, r: Record, s: Signature, n: nat)
    requires n <= |records|
    ensures FirstOn(records + [r], s, n) == FirstOn(records, s, n)
  {
    if n > 0 { FirstOnPrefix(records, r, s, n - 1); }
  }

  lemma FirstOnMore(records: seq<Record>, r: Record, s: Signature)
    ensures var before := FirstOn(records, s, |records|);
      FirstOn(records + [r], s, |records| + 1)
      == if SignatureOf(r.route) == s && (before.None? || !NotBefore(r, before.value)) then Some(r) else before
  {
    FirstOnPrefix(records, r, s, |records|);
  }

  /** The record a route of a domain is listed with. */
  lemma {:induction false} FirstOfDomain(records: seq<Record>, domain: string, s: Signature, n: nat)
    requires n <= |records|
    ensures var items, i := OfDomain(records, domain, n), FirstAt(records, domain, s, n);
      FirstOn(items, s, |items|) == if i.Some? then Some(records[i.value]) else None
  {
    if n > 0 {
      FirstOfDomain(records, domain, s, n - 1);
      if records[n - 1].domain == domain { FirstOnMore(OfDomain(records, domain, n - 1), records[n - 1], s); }
    }
  }

  /** The path of a listed route is that of the first record of its domain and signature. */
  lemma ListedPath(records: seq<Record>, domain: string, isNew: string -> bool, k: nat) returns (i: nat)
    requires k < |ItemOf(records, domain, isNew).routes|
    ensures ComesFirst(records, i, |records|) && records[i].domain == domain
    ensures ItemOf(records, domain, isNew).routes[k].path == records[i].route.path
  {
    var items := OfDomain(records, domain, |records|);
    var keys := Keys(RouteHits(items), |items|);
    RouteItemsAreKeys(items, |keys|);
    var at := KeyAppears(items, |items|, k);
    SignatureIsThere(items, keys[k], at, |items|);
    FirstOfDomain(records, domain, keys[k], |records|);
    FirstAtComesFirst(records, domain, keys[k], |records|);
    RoutePath(items, |keys|, k);
    i := FirstAt(records, domain, keys[k], |records|).value;
  }

  lemma {:induction false} RoutePath(items: seq<Record>, n: nat, k: nat)
    requires k < n <= |Keys(RouteHits(items), |items|)|
    ensures |RouteItems(items, n)| == n
    ensures var first := FirstOn(items, Keys(RouteHits(items), |items|)[k], |items|);
      first.Some? ==> RouteItems(items, n)[k].path == first.value.route.path
  {
    RouteItemsAreKeys(items, n);
    RouteItemsAreKeys(items, n - 1);
    if k < n - 1 { RoutePath(items, n - 1, k); }
  }

  lemma {:induction false} StaysInDomain(records: seq<Record>, n: nat, i: nat) returns (k: nat)
    requires i < n <= |records|
    ensures k < |OfDomain(records, records[i].domain, n)| && OfDomain(records, records[i].domain, n)[k] == records[i]
  {
    if i < n - 1 {
      k := StaysInDomain(records, n - 1, i);
    } else {
      k := |OfDomain(records, records[i].domain, n - 1)|;
    }
  }

  /** The first record of a domain and route is the one whose path is listed. */
  lemma FirstIsListed(records: seq<Record>, isNew: string -> bool, i: nat) returns (k: nat)
    requires ComesFirst(records, i, |records|)
    ensures k < |ItemOf(records, records[i].domain, isNew).routes|
    ensures ItemOf(records, records[i].domain, isNew).routes[k].path == records[i].route.path
  {
    var domain, s := records[i].domain, SignatureOf(records[i].route);
    var items := OfDomain(records, domain, |records|);
    var keys := Keys(RouteHits(items), |items|);
    var at := StaysInDomain(records, |records|, i);
    KeysAreDistinct(RouteHits(items), |items|);
    assert RouteHits(items)[at].0 == s && s in keys;
    k :| 0 <= k < |keys| && keys[k] == s;
    RouteItemsAreKeys(items, |keys|);
    FirstOfDomain(records, domain, s, |records|);
    OnlyOneComesFirst(records, i, |records|);
    RoutePath(items, |keys|, k);
  }

  /** For each domain and route signature the first record in sorted order has a known path. */
  ghost predicate FirstPathsKnown(records: seq<Record>) {
    forall i :: 0 <= i < |records| && ComesFirst(records, i, |records|) ==> KnownPath(records[i].route.path)
  }

  lemma ListsKnownPathsExactly(records: seq<Record>, isNew: string -> bool, a: Analysis)
    requires a.items == AllItems(records, isNew)
    ensures ListsKnownPaths(a) <==> FirstPathsKnown(records)
  {
    var keys := Keys(HitPairs(records), |records|);
    if FirstPathsKnown(records) {
      forall j, k | 0 <= j < |a.items| && 0 <= k < |a.items[j].routes| ensures KnownPath(a.items[j].routes[k].path) {
        var i := ListedPath(records, keys[j], isNew, k);
      }
    }
    if ListsKnownPaths(a) {
      forall i | 0 <= i < |records| && ComesFirst(records, i, |records|) ensures KnownPath(records[i].route.path) {
        HitsAreConserved(records, isNew);
        var j :| 0 <= j < |a.items| && a.items[j].domain == records[i].domain;
        ItemsAreKeys(records, isNew, j);
        var k := FirstIsListed(records, isNew, i);
        assert KnownPath(a.items[j].routes[k].path);
      }
    }
  }

  /**
   The analysis built from any reports, rows and catalog passes its own validator exactly when, for each domain
   and route signature, the first record in sorted order has a known path, for these paths are listed; and that
   is so whenever the reports state none but known paths, or none.
   */
  lemma BuiltAnalysisIsAccepted(reports: seq<Report>, rows: seq<Observed>, catalog: map<string, Verdict>, day: Window,
                                chosen: map<Window, Report>, records: seq<Record>, isNew: string -> bool,
                                pending: set<string>, a: Analysis)
    requires IsDay(reports, rows, catalog, day, chosen, records) && IsAnalysis(records, isNew, pending, a)
    ensures Accepted(a) <==> ListsKnownPaths(a)
    ensures Accepted(a) <==> FirstPathsKnown(records)
    ensures (forall k :: 0 <= k < |reports| ==> PathsKnown(reports[k])) ==> Accepted(a)
  {
    var known := forall k :: 0 <= k < |reports| ==> PathsKnown(reports[k]);
    DayIsClean(reports, rows, catalog, day, chosen, records, known);
    ItemsAreClean(records, isNew, known);
    AcceptedIfPathsKnown(a.items, a, known);
    ListsKnownPathsExactly(records, isNew, a);
  }

  /** One report that states a path of its own for a domain is enough for the analysis to be refused. */
  lemma UnknownPathIsRefused(report: Report, catalog: map<string, Verdict>, day: Window, chosen: map<Window, Report>,
                             records: seq<Record>, isNew: string -> bool, pending: set<string>, a: Analysis)
    requires |report.domains| == 1 && ValidDomain(report.domains[0].domain) && Meets(report.window, day)
    requires var stated := report.domains[0].route; stated.Some? && stated.value.path == "proxy"
    requires IsDay([report], [], catalog, day, chosen, records) && IsAnalysis(records, isNew, pending, a)
    ensures !Accepted(a)
  {
    OneReportDay(report, catalog, day, chosen, records);
    BuiltAnalysisIsAccepted([report], [], catalog, day, chosen, records, isNew, pending, a);
    assert ComesFirst(records, 0, |records|) && records[0].route.path == "proxy";
  }
}
