/**
 The records of a day: one report per hourly window, and what the panel database observed besides. Each
 window is counted once.
 */
module AiHistory {
  import opened Wrappers
  import opened AiRoutes

  datatype Window = Window(start: nat, end: nat)

  /** How a domain was classified. Texts are taken as stripped already; the empty one stands for a missing one. */
  datatype Verdict = Verdict(classification: Classification, reason: string, source: string, model: string)

  /** `file` is the rank of the file's name. */
  datatype Record = Record(window: Window, generated: nat, file: nat, domain: string, hits: nat, verdict: Verdict,
                           route: Route)

  datatype Listed = Listed(domain: string, hits: nat, verdict: Verdict, route: Option<RawRoute>)

  datatype Report = Report(window: Window, generated: nat, latest: bool, path: nat, file: nat, status: string,
                           aiTarget: Option<RawTarget>, domains: seq<Listed>)

  /** `_domain`: a name without spaces of at most 253 characters. */
  predicate ValidDomain(domain: string) {
    domain != "" && |domain| <= 253 && ' ' !in domain
  }

  /** The window meets the day that is reported on. */
  predicate Meets(w: Window, day: Window) {
    !(w.end <= day.start || w.start >= day.end)
  }

  // ---- One report per window ----

  /** Newer first, then the latest copy, then the greater path. */
  predicate Preferred(a: Report, b: Report) {
    a.generated > b.generated
    || (a.generated == b.generated && ((a.latest && !b.latest) || (a.latest == b.latest && a.path > b.path)))
  }

  /** One report for every window that has any, and none of that window is preferred to it. */
  ghost predicate Chosen(reports: seq<Report>, n: nat, chosen: map<Window, Report>)
    requires n <= |reports|
  {
    && (forall k :: 0 <= k < n ==>
          && reports[k].window in chosen
          && var best := chosen[reports[k].window];
             && reports[k].generated <= best.generated
             && (reports[k].generated == best.generated ==>
                   && (reports[k].latest ==> best.latest)
                   && (reports[k].latest == best.latest ==> reports[k].path <= best.path)))
    && forall w :: w in chosen ==> chosen[w] in reports[..n] && chosen[w].window == w
  }

  method ChooseReports(reports: seq<Report>) returns (chosen: map<Window, Report>)
    ensures Chosen(reports, |reports|, chosen)
  {
    chosen := map[];
    for i := 0 to |reports|
      invariant Chosen(reports, i, chosen)
    {
      var r := reports[i];
      assert reports[..i + 1][i] == r && forall k :: 0 <= k < i ==> reports[..i + 1][k] == reports[..i][k];
      if r.window !in chosen || Preferred(r, chosen[r.window]) {
        chosen := chosen[r.window := r];
      }
    }
  }

  /** Reports that no preference tells apart: same time, both the latest copy or not, same path. */
  predicate Tied(a: Report, b: Report) {
    a.generated == b.generated && a.latest == b.latest && a.path == b.path
  }

  /** Two choices differ at most in tied reports, and paths are unique: the choice does not depend on the order. */
  lemma ChoiceIsUnique(reports: seq<Report>, a: map<Window, Report>, b: map<Window, Report>)
    requires Chosen(reports, |reports|, a) && Chosen(reports, |reports|, b)
    requires forall i, j :: 0 <= i < j < |reports| ==> reports[i].path != reports[j].path
    ensures a == b
  {
    assert reports[..|reports|] == reports;
    forall w | w in a ensures w in b && b[w] == a[w] {
      var i :| 0 <= i < |reports| && reports[i] == a[w];
      var j :| 0 <= j < |reports| && reports[j] == b[w];
      assert Tied(a[w], b[w]);
    }
    assert forall w :: w in b ==> w in a;
  }

  // ---- The windows in order ----

  predicate Earlier(a: Window, b: Window) {
    a.start < b.start || (a.start == b.start && a.end < b.end)
  }

  function InsertWindow(windows: seq<Window>, w: Window): seq<Window> {
    if windows == [] then [w]
    else if windows[0] == w then windows
    else if Earlier(w, windows[0]) then [w] + windows
    else [windows[0]] + InsertWindow(windows[1..], w)
  }

  /** The windows of the reports, sorted and each once. */
  function Windows(reports: seq<Report>, n: nat): seq<Window>
    requires n <= |reports|
  {
    if n == 0 then [] else InsertWindow(Windows(reports, n - 1), reports[n - 1].window)
  }

  ghost predicate InOrder(windows: seq<Window>) {
    forall i, j :: 0 <= i < j < |windows| ==>
      windows[i].start < windows[j].start || (windows[i].start == windows[j].start && windows[i].end < windows[j].end)
  }

  lemma {:induction false} InsertKeepsOrder(windows: seq<Window>, w: Window)
    requires InOrder(windows)
    ensures InOrder(InsertWindow(windows, w))
    ensures forall x :: x in InsertWindow(windows, w) <==> x == w || x in windows
  {
    if windows != [] && windows[0] != w && !Earlier(w, windows[0]) {
      InsertKeepsOrder(windows[1..], w);
      var rest := InsertWindow(windows[1..], w);
      forall j | 0 <= j < |rest| ensures Earlier(windows[0], rest[j]) { assert rest[j] in rest; }
    }
  }

  lemma {:induction false} WindowsAreSorted(reports: seq<Report>, n: nat)
    requires n <= |reports|
    ensures InOrder(Windows(reports, n))
    ensures forall w :: w in Windows(reports, n) <==> exists k :: 0 <= k < n && reports[k].window == w
  {
    if n > 0 {
      WindowsAreSorted(reports, n - 1);
      InsertKeepsOrder(Windows(reports, n - 1), reports[n - 1].window);
    }
  }

  // ---- Records of reports ----

  function RecordOf(r: Report, item: Listed): Record {
    Record(r.window, r.generated, r.file, item.domain, item.hits, item.verdict,
           RouteFromReport(item.route, item.verdict.classification, r.status, r.aiTarget))
  }

  /** The first `n` listed domains of a report that have a valid name. */
  function RecordsOf(r: Report, n: nat): seq<Record>
    requires n <= |r.domains|
  {
    if n == 0 then []
    else if ValidDomain(r.domains[n - 1].domain) then RecordsOf(r, n - 1) + [RecordOf(r, r.domains[n - 1])]
    else RecordsOf(r, n - 1)
  }

  /** The records of the chosen reports of the first `n` windows, as far as those meet the day. */
  function History(chosen: map<Window, Report>, windows: seq<Window>, day: Window, n: nat): seq<Record>
    requires n <= |windows| && forall w :: w in windows ==> w in chosen
  {
    if n == 0 then []
    else if !Meets(windows[n - 1], day) then History(chosen, windows, day, n - 1)
    else
      var r := chosen[windows[n - 1]];
      History(chosen, windows, day, n - 1) + RecordsOf(r, |r.domains|)
  }

  function Hits(records: seq<Record>, n: nat): nat
    requires n <= |records|
  {
    if n == 0 then 0 else Hits(records, n - 1) + records[n - 1].hits
  }

  /** What one report lists under valid names. */
  function ListedHits(r: Report, n: nat): nat
    requires n <= |r.domains|
  {
    if n == 0 then 0 else
      ListedHits(r, n - 1) + if ValidDomain(r.domains[n - 1].domain) then r.domains[n - 1].hits else 0
  }

  /** The hits of one window: those of its chosen report, once. */
  function WindowHits(chosen: map<Window, Report>, w: Window, day: Window): nat
    requires w in chosen
  {
    if Meets(w, day) then ListedHits(chosen[w], |chosen[w].domains|) else 0
  }

  function HitsOfWindows(chosen: map<Window, Report>, windows: seq<Window>, day: Window, n: nat): nat
    requires n <= |windows| && forall w :: w in windows ==> w in chosen
  {
    if n == 0 then 0 else HitsOfWindows(chosen, windows, day, n - 1) + WindowHits(chosen, windows[n - 1], day)
  }

  lemma {:induction false} HitsOfPrefix(records: seq<Record>, more: seq<Record>, n: nat)
    requires n <= |records|
    ensures Hits(records + more, n) == Hits(records, n)
  {
    if n > 0 { HitsOfPrefix(records, more, n - 1); }
  }

  lemma {:induction false} HitsOfBoth(records: seq<Record>, more: seq<Record>, n: nat)
    requires n <= |more|
    ensures Hits(records + more, |records| + n) == Hits(records, |records|) + Hits(more, n)
  {
    if n == 0 { HitsOfPrefix(records, more, |records|); } else { HitsOfBoth(records, more, n - 1); }
  }

  lemma {:induction false} HitsOfReport(r: Report, n: nat)
    requires n <= |r.domains|
    ensures Hits(RecordsOf(r, n), |RecordsOf(r, n)|) == ListedHits(r, n)
  {
    if n > 0 {
      HitsOfReport(r, n - 1);
      var before, last := RecordsOf(r, n - 1), RecordOf(r, r.domains[n - 1]);
      HitsOfPrefix(before, [last], |before|);
    }
  }

  /** The hits of the history are those of the chosen reports, window by window. */
  lemma {:induction false} HitsOfHistory(chosen: map<Window, Report>, windows: seq<Window>, day: Window, n: nat)
    requires n <= |windows| && forall w :: w in windows ==> w in chosen
    ensures var history := History(chosen, windows, day, n);
      Hits(history, |history|) == HitsOfWindows(chosen, windows, day, n)
  {
    if n > 0 {
      HitsOfHistory(chosen, windows, day, n - 1);
      if Meets(windows[n - 1], day) {
        var r := chosen[windows[n - 1]];
        var before, more := History(chosen, windows, day, n - 1), RecordsOf(r, |r.domains|);
        HitsOfBoth(before, more, |more|);
        HitsOfReport(r, |r.domains|);
      }
    }
  }

  // ---- Observations of the panel database ----

  predicate SameKey(a: Record, b: Record) {
    a.window == b.window && a.domain == b.domain
  }

  function KeyIndex(records: seq<Record>, o: Record, i: nat): (k: nat)
    requires i <= |records|
    ensures i <= k <= |records| && (k < |records| ==> SameKey(records[k], o))
    ensures forall j :: i <= j < k ==> !SameKey(records[j], o)
    decreases |records| - i
  {
    if i == |records| || SameKey(records[i], o) then i else KeyIndex(records, o, i + 1)
  }

  /** What is missing from a verdict is filled in from another. */
  function Filled(v: Verdict, other: Verdict): Verdict {
    Verdict(if v.classification == Unclassified then other.classification else v.classification,
            if v.reason == "" then other.reason else v.reason,
            if v.source == "" then other.source else v.source,
            if v.model == "" then other.model else v.model)
  }

  /** History keeps its hits and its route; the database fills in what is missing of the verdict. */
  function MergedOne(before: seq<Record>, o: Record): seq<Record> {
    var k := KeyIndex(before, o, 0);
    if k < |before| then before[k := before[k].(verdict := Filled(before[k].verdict, o.verdict))] else before + [o]
  }

  function Merged(history: seq<Record>, observations: seq<Record>, n: nat): seq<Record>
    requires n <= |observations|
  {
    if n == 0 then history else MergedOne(Merged(history, observations, n - 1), observations[n - 1])
  }

  method MergeObservations(history: seq<Record>, observations: seq<Record>) returns (records: seq<Record>)
    ensures records == Merged(history, observations, |observations|)
  {
    records := history;
    for i := 0 to |observations|
      invariant records == Merged(history, observations, i)
    {
      var o := observations[i];
      var k := 0;
      while k < |records| && !SameKey(records[k], o)
        invariant k <= |records| && KeyIndex(records, o, 0) == KeyIndex(records, o, k)
      {
        k := k + 1;
      }
      if k == |records| {
        records := records + [o];
      } else {
        var v := records[k].verdict;
        if v.reason == "" { v := v.(reason := o.verdict.reason); }
        if v.source == "" { v := v.(source := o.verdict.source); }
        if v.model == "" { v := v.(model := o.verdict.model); }
        if v.classification == Unclassified { v := v.(classification := o.verdict.classification); }
        records := records[k := records[k].(verdict := v)];
      }
    }
  }

  /** No record of the history and no earlier observation has the window and domain of observation `i`. */
  ghost predicate NewKey(history: seq<Record>, observations: seq<Record>, i: nat)
    requires i < |observations|
  {
    && (forall j :: 0 <= j < |history| ==> !SameKey(history[j], observations[i]))
    && (forall j :: 0 <= j < i ==> !SameKey(observations[j], observations[i]))
  }

  /** One of the first `n` records has this window and domain. */
  ghost predicate HasKey(records: seq<Record>, n: nat, r: Record)
    requires n <= |records|
  {
    exists k :: 0 <= k < n && SameKey(records[k], r)
  }

  /** Every record's key is one of the history or of an observation merged so far, and the other way round. */
  ghost predicate HasKeys(history: seq<Record>, observations: seq<Record>, n: nat, records: seq<Record>)
    requires n <= |observations|
  {
    && |history| <= |records|
    && (forall i :: 0 <= i < |history| ==> SameKey(records[i], history[i]) && records[i].hits == history[i].hits
                                           && records[i].route == history[i].route)
    && (forall i :: |history| <= i < |records| ==> HasKey(observations, n, records[i]))
    && (forall j :: 0 <= j < n ==> HasKey(records, |records|, observations[j]))
  }

  lemma OneKeepsKeys(before: seq<Record>, o: Record)
    ensures var after := MergedOne(before, o);
      && |before| <= |after| <= |before| + 1
      && (forall i :: 0 <= i < |before| ==> SameKey(after[i], before[i]) && after[i].hits == before[i].hits
                                            && after[i].route == before[i].route)
      && HasKey(after, |after|, o)
      && (forall i :: |before| <= i < |after| ==> SameKey(after[i], o))
  {
    assert SameKey(MergedOne(before, o)[KeyIndex(before, o, 0)], o);
  }

  lemma {:induction false} MergingKeepsKeys(history: seq<Record>, observations: seq<Record>, n: nat)
    requires n <= |observations|
    ensures HasKeys(history, observations, n, Merged(history, observations, n))
  {
    if n > 0 {
      MergingKeepsKeys(history, observations, n - 1);
      var before := Merged(history, observations, n - 1);
      OneKeepsKeys(before, observations[n - 1]);
      StepHasKeys(history, observations, n, before, MergedOne(before, observations[n - 1]));
    }
  }

  lemma StepHasKeys(history: seq<Record>, observations: seq<Record>, n: nat, before: seq<Record>, after: seq<Record>)
    requires 0 < n <= |observations| && HasKeys(history, observations, n - 1, before) && |before| <= |after|
    requires forall i :: 0 <= i < |before| ==> SameKey(after[i], before[i]) && after[i].hits == before[i].hits
                                               && after[i].route == before[i].route
    requires HasKey(after, |after|, observations[n - 1])
    requires forall i :: |before| <= i < |after| ==> SameKey(after[i], observations[n - 1])
    ensures HasKeys(history, observations, n, after)
  {
    forall j | 0 <= j < n ensures HasKey(after, |after|, observations[j]) {
      if j < n - 1 { KeyStays(before, after, observations[j]); }
    }
    forall i | |history| <= i < |after| ensures HasKey(observations, n, after[i]) {
      if i < |before| {
        KeyAmongMore(observations, n, before[i], after[i]);
      } else {
        assert SameKey(observations[n - 1], after[i]);
      }
    }
  }

  lemma KeyStays(before: seq<Record>, after: seq<Record>, o: Record)
    requires |before| <= |after| && HasKey(before, |before|, o)
    requires forall i :: 0 <= i < |before| ==> SameKey(after[i], before[i])
    ensures HasKey(after, |after|, o)
  {
    var k :| 0 <= k < |before| && SameKey(before[k], o);
    assert SameKey(after[k], o);
  }

  lemma KeyAmongMore(observations: seq<Record>, n: nat, r: Record, same: Record)
    requires 0 < n <= |observations| && HasKey(observations, n - 1, r) && SameKey(same, r)
    ensures HasKey(observations, n, same)
  {
    var k :| 0 <= k < n - 1 && SameKey(observations[k], r);
    assert SameKey(observations[k], same);
  }

  /**
   Merging keeps every history record's hits and route in place, and adds no second record for a window and
   domain: two records with the same key are both of the history.
   */
  lemma {:induction false} MergingAddsNoDuplicate(history: seq<Record>, observations: seq<Record>, n: nat, i: nat,
                                                  j: nat)
    requires n <= |observations| && i < j < |Merged(history, observations, n)|
    ensures SameKey(Merged(history, observations, n)[i], Merged(history, observations, n)[j]) ==> j < |history|
  {
    if n > 0 && j < |Merged(history, observations, n - 1)| {
      MergingAddsNoDuplicate(history, observations, n - 1, i, j);
    }
  }

  lemma AbsentIfNew(history: seq<Record>, observations: seq<Record>, n: nat, before: seq<Record>)
    requires 0 < n <= |observations| && HasKeys(history, observations, n - 1, before)
    requires NewKey(history, observations, n - 1)
    ensures forall k :: 0 <= k < |before| ==> !SameKey(before[k], observations[n - 1])
  {
    forall k | 0 <= k < |before| ensures !SameKey(before[k], observations[n - 1]) {
      if k < |history| {
        assert SameKey(before[k], history[k]);
      } else {
        assert HasKey(observations, n - 1, before[k]);
        var j :| 0 <= j < n - 1 && SameKey(observations[j], before[k]);
        assert !SameKey(observations[j], observations[n - 1]);
      }
    }
  }

  lemma NewIfAbsent(history: seq<Record>, observations: seq<Record>, n: nat, before: seq<Record>)
    requires 0 < n <= |observations| && HasKeys(history, observations, n - 1, before)
    requires forall i :: 0 <= i < |before| ==> !SameKey(before[i], observations[n - 1])
    ensures NewKey(history, observations, n - 1)
  {
    var o := observations[n - 1];
    forall j | 0 <= j < |history| ensures !SameKey(history[j], o) {
      assert SameKey(before[j], history[j]) && !SameKey(before[j], o);
    }
    forall j | 0 <= j < n - 1 ensures !SameKey(observations[j], o) {
      assert HasKey(before, |before|, observations[j]);
      var i :| 0 <= i < |before| && SameKey(before[i], observations[j]);
      assert !SameKey(before[i], o);
    }
  }

  /** An observation is added exactly when its window and domain are new. */
  lemma AddedIfNew(history: seq<Record>, observations: seq<Record>, n: nat, before: seq<Record>)
    requires 0 < n <= |observations| && before == Merged(history, observations, n - 1)
    ensures KeyIndex(before, observations[n - 1], 0) == |before| <==> NewKey(history, observations, n - 1)
  {
    MergingKeepsKeys(history, observations, n - 1);
    if NewKey(history, observations, n - 1) {
      AbsentIfNew(history, observations, n, before);
    } else if KeyIndex(before, observations[n - 1], 0) == |before| {
      NewIfAbsent(history, observations, n, before);
    }
  }

  ghost function AddedHits(history: seq<Record>, observations: seq<Record>, n: nat): nat
    requires n <= |observations|
  {
    if n == 0 then 0
    else AddedHits(history, observations, n - 1)
         + if NewKey(history, observations, n - 1) then observations[n - 1].hits else 0
  }

  lemma {:induction false} HitsOfUpdate(records: seq<Record>, k: nat, r: Record, n: nat)
    requires k < |records| && n <= |records| && r.hits == records[k].hits
    ensures Hits(records[k := r], n) == Hits(records, n)
  {
    if n > 0 { HitsOfUpdate(records, k, r, n - 1); }
  }

  lemma HitsOfOne(before: seq<Record>, o: Record)
    ensures var after := MergedOne(before, o);
      Hits(after, |after|) == Hits(before, |before|) + if KeyIndex(before, o, 0) == |before| then o.hits else 0
  {
    var k := KeyIndex(before, o, 0);
    if k < |before| {
      HitsOfUpdate(before, k, before[k].(verdict := Filled(before[k].verdict, o.verdict)), |before|);
    } else {
      HitsOfPrefix(before, [o], |before|);
    }
  }

  /** Merging adds exactly the hits of observations whose window and domain are new. */
  lemma {:induction false} HitsOfMerged(history: seq<Record>, observations: seq<Record>, n: nat)
    requires n <= |observations|
    ensures var records := Merged(history, observations, n);
      Hits(records, |records|) == Hits(history, |history|) + AddedHits(history, observations, n)
  {
    if n > 0 {
      HitsOfMerged(history, observations, n - 1);
      AddedIfNew(history, observations, n, Merged(history, observations, n - 1));
      HitsOfOne(Merged(history, observations, n - 1), observations[n - 1]);
    }
  }

  // ---- The catalog, and all records of a day ----

  /** What is still missing of a verdict is taken from the domain's entry in the catalog. */
  function Looked(r: Record, catalog: map<string, Verdict>): Record {
    if r.domain in catalog then r.(verdict := Filled(r.verdict, catalog[r.domain])) else r
  }

  function Cataloged(records: seq<Record>, catalog: map<string, Verdict>): (r: seq<Record>)
    ensures |r| == |records| && forall i :: 0 <= i < |r| ==> r[i] == Looked(records[i], catalog)
  {
    seq(|records|, i requires 0 <= i < |records| => Looked(records[i], catalog))
  }

  lemma {:induction false} HitsOfCataloged(records: seq<Record>, catalog: map<string, Verdict>, n: nat)
    requires n <= |records|
    ensures Hits(Cataloged(records, catalog), n) == Hits(records, n)
  {
    if n > 0 { HitsOfCataloged(records, catalog, n - 1); }
  }

  /** A row of the panel database. Its route is not known. */
  datatype Observed = Observed(window: Window, generated: nat, file: nat, domain: string, hits: nat, verdict: Verdict)

  function ObservationOf(o: Observed): Record {
    Record(o.window, o.generated, o.file, o.domain, o.hits, o.verdict, Route(UnknownTag, DefaultPath(UnknownTag), None))
  }

  /** The rows with a valid domain and a window that meets the day. */
  function Observations(rows: seq<Observed>, day: Window, n: nat): seq<Record>
    requires n <= |rows|
  {
    if n == 0 then []
    else if ValidDomain(rows[n - 1].domain) && Meets(rows[n - 1].window, day) then
      Observations(rows, day, n - 1) + [ObservationOf(rows[n - 1])]
    else Observations(rows, day, n - 1)
  }

  /** The records of a day, when `chosen` are the chosen reports. */
  ghost predicate IsDay(reports: seq<Report>, rows: seq<Observed>, catalog: map<string, Verdict>, day: Window,
                        chosen: map<Window, Report>, records: seq<Record>)
  {
    && Chosen(reports, |reports|, chosen)
    && var windows := Windows(reports, |reports|);
       && (forall w :: w in windows ==> w in chosen)
       && var history, observations := History(chosen, windows, day, |windows|), Observations(rows, day, |rows|);
          records == Cataloged(Merged(history, observations, |observations|), catalog)
  }

  lemma WindowsAreChosen(reports: seq<Report>, chosen: map<Window, Report>)
    requires Chosen(reports, |reports|, chosen)
    ensures forall w :: w in Windows(reports, |reports|) ==> w in chosen
  {
    WindowsAreSorted(reports, |reports|);
  }

  method LoadHistory(chosen: map<Window, Report>, windows: seq<Window>, day: Window) returns (records: seq<Record>)
    requires forall w :: w in windows ==> w in chosen
    ensures records == History(chosen, windows, day, |windows|)
  {
    records := [];
    for i := 0 to |windows|
      invariant records == History(chosen, windows, day, i)
    {
      if Meets(windows[i], day) {
        var r := chosen[windows[i]];
        records := records + RecordsOf(r, |r.domains|);
      }
    }
  }

  method LoadDay(reports: seq<Report>, rows: seq<Observed>, catalog: map<string, Verdict>, day: Window)
    returns (records: seq<Record>, ghost chosen: map<Window, Report>)
    ensures IsDay(reports, rows, catalog, day, chosen, records)
  {
    var candidates := ChooseReports(reports);
    chosen := candidates;
    WindowsAreChosen(reports, candidates);
    var history := LoadHistory(candidates, Windows(reports, |reports|), day);
    records := MergeObservations(history, Observations(rows, day, |rows|));
    records := Cataloged(records, catalog);
  }

  /**
   Each window's reports are counted once: the hits of a day are, window by window, those that the window's
   chosen report lists, and besides those of observations whose window and domain no report and no earlier
   observation has.
   */
  lemma HitsOfDay(reports: seq<Report>, rows: seq<Observed>, catalog: map<string, Verdict>, day: Window,
                  chosen: map<Window, Report>, records: seq<Record>)
    requires IsDay(reports, rows, catalog, day, chosen, records)
    ensures var windows := Windows(reports, |reports|);
      var history, observations := History(chosen, windows, day, |windows|), Observations(rows, day, |rows|);
      && InOrder(windows) && (forall w :: w in windows <==> w in chosen)
      && Hits(records, |records|)
         == HitsOfWindows(chosen, windows, day, |windows|) + AddedHits(history, observations, |observations|)
  {
    var windows := Windows(reports, |reports|);
    var history, observations := History(chosen, windows, day, |windows|), Observations(rows, day, |rows|);
    WindowsAreSorted(reports, |reports|);
    forall w | w in chosen ensures w in windows {
      assert chosen[w] in reports[..|reports|];
      assert exists k :: 0 <= k < |reports| && reports[k].window == w;
    }
    HitsOfHistory(chosen, windows, day, |windows|);
    HitsOfMerged(history, observations, |observations|);
    var merged := Merged(history, observations, |observations|);
    HitsOfCataloged(merged, catalog, |merged|);
  }

  /** A day with one report that lists one domain has that one record. */
  lemma OneReportDay(report: Report, catalog: map<string, Verdict>, day: Window, chosen: map<Window, Report>,
                     records: seq<Record>)
    requires |report.domains| == 1 && ValidDomain(report.domains[0].domain) && Meets(report.window, day)
    requires IsDay([report], [], catalog, day, chosen, records)
    ensures |records| == 1 && records[0].route == RecordOf(report, report.domains[0]).route
  {
    var reports := [report];
    assert reports[..|reports|] == reports && chosen[report.window] in reports;
    assert Windows(reports, 0) == [] && Windows(reports, 1) == [report.window];
    assert RecordsOf(report, 0) == [] && RecordsOf(report, 1) == [RecordOf(report, report.domains[0])];
    assert History(chosen, [report.window], day, 0) == [];
    assert History(chosen, [report.window], day, 1) == RecordsOf(report, 1);
  }

  // ---- What holds of every record ----

  ghost predicate Clean(r: Record) {
    ValidDomain(r.domain) && TargetAccepted(r.route.target)
  }

  /** Every path that a report states for a domain is a known one. */
  ghost predicate PathsKnown(r: Report) {
    forall i :: 0 <= i < |r.domains| ==>
      r.domains[i].route.None? || r.domains[i].route.value.path == "" || KnownPath(r.domains[i].route.value.path)
  }

  lemma {:induction false} ReportIsClean(r: Report, n: nat)
    requires n <= |r.domains|
    ensures forall i :: 0 <= i < |RecordsOf(r, n)| ==>
      Clean(RecordsOf(r, n)[i]) && (PathsKnown(r) ==> KnownPath(RecordsOf(r, n)[i].route.path))
  {
    if n > 0 {
      ReportIsClean(r, n - 1);
      var item := r.domains[n - 1];
      RoutesAreClean(item.route, item.verdict.classification, r.status, r.aiTarget);
    }
  }

  ghost predicate AllClean(records: seq<Record>, known: bool) {
    forall i :: 0 <= i < |records| ==> Clean(records[i]) && (known ==> KnownPath(records[i].route.path))
  }

  lemma {:induction false} HistoryIsClean(chosen: map<Window, Report>, windows: seq<Window>, day: Window, n: nat,
                                          known: bool)
    requires n <= |windows| && forall w :: w in windows ==> w in chosen
    requires known ==> forall w :: w in chosen ==> PathsKnown(chosen[w])
    ensures AllClean(History(chosen, windows, day, n), known)
  {
    if n > 0 {
      HistoryIsClean(chosen, windows, day, n - 1, known);
      var r := chosen[windows[n - 1]];
      ReportIsClean(r, |r.domains|);
    }
  }

  lemma {:induction false} ObservationsAreClean(rows: seq<Observed>, day: Window, n: nat)
    requires n <= |rows|
    ensures AllClean(Observations(rows, day, n), true)
  {
    if n > 0 { ObservationsAreClean(rows, day, n - 1); }
  }

  lemma {:induction false} MergedIsClean(history: seq<Record>, observations: seq<Record>, n: nat, known: bool)
    requires n <= |observations| && AllClean(history, known) && AllClean(observations, known)
    ensures AllClean(Merged(history, observations, n), known)
  {
    if n > 0 { MergedIsClean(history, observations, n - 1, known); }
  }

  /** Every record of a day has a valid domain and a valid target, and a known path if the reports state no other. */
  lemma DayIsClean(reports: seq<Report>, rows: seq<Observed>, catalog: map<string, Verdict>, day: Window,
                   chosen: map<Window, Report>, records: seq<Record>, known: bool)
    requires IsDay(reports, rows, catalog, day, chosen, records)
    requires known ==> forall k :: 0 <= k < |reports| ==> PathsKnown(reports[k])
    ensures AllClean(records, known)
  {
    var windows := Windows(reports, |reports|);
    var history, observations := History(chosen, windows, day, |windows|), Observations(rows, day, |rows|);
    forall w | known && w in chosen ensures PathsKnown(chosen[w]) {
      assert chosen[w] in reports[..|reports|];
    }
    HistoryIsClean(chosen, windows, day, |windows|, known);
    ObservationsAreClean(rows, day, |rows|);
    MergedIsClean(history, observations, |observations|, known);
  }
}
