/** What the lists and counts of the AI-domain section say, told by the reports and records themselves. */
module AiSums {
  import opened Wrappers
  import opened Partition
  import opened AiRoutes
  import opened AiHistory
  import opened AiDomains
  import opened AiMeaning

  // ---- From reports to records ----

  /** The record that a report's domain becomes. */
  predicate IsListed(r: Record, report: Report, item: Listed) {
    && r.window == report.window && r.generated == report.generated && r.file == report.file
    && r.domain == item.domain && r.hits == item.hits && r.verdict == item.verdict
    && r.route == RouteFromReport(item.route, item.verdict.classification, report.status, report.aiTarget)
  }

  lemma {:induction false} ReportRecords(report: Report, n: nat)
    requires n <= |report.domains|
    ensures forall r :: r in RecordsOf(report, n) ==>
      exists k :: 0 <= k < n && ValidDomain(report.domains[k].domain) && IsListed(r, report, report.domains[k])
    ensures forall k :: 0 <= k < n && ValidDomain(report.domains[k].domain) ==>
      exists r :: r in RecordsOf(report, n) && IsListed(r, report, report.domains[k])
  {
    if n > 0 {
      ReportRecords(report, n - 1);
      var before, after, item := RecordsOf(report, n - 1), RecordsOf(report, n), report.domains[n - 1];
      if ValidDomain(item.domain) {
        assert after[|before|] in after && IsListed(after[|before|], report, item);
      }
      forall k | 0 <= k < n - 1 && ValidDomain(report.domains[k].domain)
        ensures exists r :: r in after && IsListed(r, report, report.domains[k])
      {
        var r :| r in before && IsListed(r, report, report.domains[k]);
        assert r in after;
      }
    }
  }

  /** The record is one of the chosen report of this window, which meets the day. */
  ghost predicate IsReported(r: Record, chosen: map<Window, Report>, w: Window, day: Window) {
    && w in chosen && w.start < day.end && day.start < w.end
    && exists k :: 0 <= k < |chosen[w].domains| && ValidDomain(chosen[w].domains[k].domain)
                   && IsListed(r, chosen[w], chosen[w].domains[k])
  }

  /** The history of a day holds what the chosen reports of its windows list under valid names, and nothing else. */
  lemma {:induction false} HistoryExactly(chosen: map<Window, Report>, windows: seq<Window>, day: Window, n: nat)
    requires n <= |windows| && forall w :: w in windows ==> w in chosen
    ensures forall r :: r in History(chosen, windows, day, n) ==>
      exists i :: 0 <= i < n && IsReported(r, chosen, windows[i], day)
    ensures forall i :: 0 <= i < n && windows[i].start < day.end && day.start < windows[i].end ==>
      AllListed(chosen[windows[i]], History(chosen, windows, day, n))
  {
    if n > 0 {
      HistoryExactly(chosen, windows, day, n - 1);
      var report := chosen[windows[n - 1]];
      ReportRecords(report, |report.domains|);
      var before, after := History(chosen, windows, day, n - 1), History(chosen, windows, day, n);
      var added := if Meets(windows[n - 1], day) then RecordsOf(report, |report.domains|) else [];
      assert forall r :: r in after <==> r in before || r in added;
      forall r | r in after ensures exists i :: 0 <= i < n && IsReported(r, chosen, windows[i], day) {
        if r in before {
          var i :| 0 <= i < n - 1 && IsReported(r, chosen, windows[i], day);
        } else {
          assert IsReported(r, chosen, windows[n - 1], day);
        }
      }
      forall i | 0 <= i < n && windows[i].start < day.end && day.start < windows[i].end
        ensures AllListed(chosen[windows[i]], after)
      {
        if i < n - 1 {
          MoreAreListed(chosen[windows[i]], before, after);
        } else {
          MoreAreListed(report, added, after);
        }
      }
    }
  }

  /** Every validly named domain of the report has its record. */
  ghost predicate AllListed(report: Report, records: seq<Record>) {
    forall k :: 0 <= k < |report.domains| && ValidDomain(report.domains[k].domain) ==>
      exists r :: r in records && IsListed(r, report, report.domains[k])
  }

  lemma MoreAreListed(report: Report, some: seq<Record>, all: seq<Record>)
    requires AllListed(report, some) && forall r :: r in some ==> r in all
    ensures AllListed(report, all)
  {
    forall k | 0 <= k < |report.domains| && ValidDomain(report.domains[k].domain)
      ensures exists r :: r in all && IsListed(r, report, report.domains[k])
    {
      var r :| r in some && IsListed(r, report, report.domains[k]);
      assert r in all;
    }
  }

  // ---- The routes of a domain ----

  predicate Alike(a: Route, b: Route) {
    a.tag == b.tag && a.target == b.target
  }

  function HitsAlike(of: seq<Record>, route: Route, n: nat): nat
    requires n <= |of|
  {
    if n == 0 then 0 else HitsAlike(of, route, n - 1) + if Alike(of[n - 1].route, route) then of[n - 1].hits else 0
  }

  function WindowsAlike(of: seq<Record>, route: Route, n: nat): nat
    requires n <= |of|
  {
    if n == 0 then 0 else WindowsAlike(of, route, n - 1) + if Alike(of[n - 1].route, route) then 1 else 0
  }

  /** No route goes to a target without a host, as the readers of reports and rows make sure. */
  predicate HostsNamed(of: seq<Record>) {
    forall i :: 0 <= i < |of| ==> of[i].route.target.None? || of[i].route.target.value.host != ""
  }

  lemma {:induction false} SumsAlike(of: seq<Record>, route: Route, n: nat)
    requires n <= |of| && HostsNamed(of) && (route.target.None? || route.target.value.host != "")
    ensures SumAt(RouteHits(of), SignatureOf(route), n) == HitsAlike(of, route, n)
    ensures SumAt(RouteWindows(of), SignatureOf(route), n) == WindowsAlike(of, route, n)
  {
    if n > 0 { SumsAlike(of, route, n - 1); }
  }

  lemma {:induction false} RouteParts(of: seq<Record>, n: nat, k: nat)
    requires k < n <= |Keys(RouteHits(of), |of|)|
    ensures |RouteItems(of, n)| == n
    ensures var item, s := RouteItems(of, n)[k], Keys(RouteHits(of), |of|)[k];
      && item.tag == s.tag && item.hits == SumAt(RouteHits(of), s, |of|)
      && item.windows == SumAt(RouteWindows(of), s, |of|)
      && (FirstOn(of, s, |of|).Some? ==> item.target == FirstOn(of, s, |of|).value.route.target)
  {
    RouteItemsAreKeys(of, n);
    RouteItemsAreKeys(of, n - 1);
    if k < n - 1 { RouteParts(of, n - 1, k); }
  }

  /** The listed route has this tag and target, and the hits and windows of all records that have them. */
  ghost predicate ListsRoute(of: seq<Record>, item: RouteItem, route: Route) {
    && item.tag == route.tag && item.target == route.target
    && item.hits == HitsAlike(of, route, |of|) && item.windows == WindowsAlike(of, route, |of|)
  }

  /** Every record's route is listed, with its hits and windows. */
  lemma RouteIsListed(of: seq<Record>, routes: seq<RouteItem>, i: nat) returns (k: nat)
    requires HostsNamed(of) && i < |of| && routes == RouteItems(of, |Keys(RouteHits(of), |of|)|)
    ensures k < |routes| && ListsRoute(of, routes[k], of[i].route)
  {
    var keys, s := Keys(RouteHits(of), |of|), SignatureOf(of[i].route);
    KeysAreDistinct(RouteHits(of), |of|);
    assert RouteHits(of)[i].0 in keys;
    k :| 0 <= k < |keys| && keys[k] == s;
    RouteParts(of, |keys|, k);
    SignatureIsThere(of, s, i, |of|);
    SumsAlike(of, of[i].route, |of|);
  }

  /** No two listed routes have the same tag and target, and each is that of some record. */
  lemma RoutesAreOfRecords(of: seq<Record>, routes: seq<RouteItem>, k: nat) returns (i: nat)
    requires HostsNamed(of) && routes == RouteItems(of, |Keys(RouteHits(of), |of|)|) && k < |routes|
    ensures i < |of| && ListsRoute(of, routes[k], of[i].route)
    ensures forall l :: 0 <= l < |routes| && l != k ==>
      routes[l].tag != routes[k].tag || routes[l].target != routes[k].target
  {
    var keys := Keys(RouteHits(of), |of|);
    RouteItemsAreKeys(of, |keys|);
    i := RouteOfKey(of, k);
    KeysAreDistinct(RouteHits(of), |of|);
    forall l | 0 <= l < |routes| && l != k
      ensures routes[l].tag != routes[k].tag || routes[l].target != routes[k].target
    {
      var j := RouteOfKey(of, l);
    }
  }

  lemma RouteOfKey(of: seq<Record>, k: nat) returns (i: nat)
    requires HostsNamed(of) && k < |Keys(RouteHits(of), |of|)|
    ensures |RouteItems(of, |Keys(RouteHits(of), |of|)|)| == |Keys(RouteHits(of), |of|)|
    ensures i < |of| && SignatureOf(of[i].route) == Keys(RouteHits(of), |of|)[k]
    ensures ListsRoute(of, RouteItems(of, |Keys(RouteHits(of), |of|)|)[k], of[i].route)
  {
    var keys := Keys(RouteHits(of), |of|);
    i := KeyAppears(of, |of|, k);
    RouteParts(of, |keys|, k);
    SignatureIsThere(of, keys[k], i, |of|);
    SumsAlike(of, of[i].route, |of|);
  }

  // ---- Hits and counts ----

  function DomainHits(records: seq<Record>, domain: string, n: nat): nat
    requires n <= |records|
  {
    if n == 0 then 0 else
      DomainHits(records, domain, n - 1) + if records[n - 1].domain == domain then records[n - 1].hits else 0
  }

  /** The hits of a listed domain are those of its records. */
  lemma {:induction false} DomainHitsExactly(records: seq<Record>, domain: string, n: nat)
    requires n <= |records|
    ensures SumAt(HitPairs(records), domain, n) == DomainHits(records, domain, n)
  {
    if n > 0 { DomainHitsExactly(records, domain, n - 1); }
  }

  function ItemsOfClass(items: seq<Item>, c: Classification, n: nat): nat
    requires n <= |items|
  {
    if n == 0 then 0 else ItemsOfClass(items, c, n - 1) + if items[n - 1].classification == c then 1 else 0
  }

  function HitsOfClass(items: seq<Item>, c: Classification, n: nat): nat
    requires n <= |items|
  {
    if n == 0 then 0 else
      HitsOfClass(items, c, n - 1) + if items[n - 1].classification == c then items[n - 1].hits else 0
  }

  function ItemsOfDirection(items: seq<Item>, d: Direction, n: nat): nat
    requires n <= |items|
  {
    if n == 0 then 0 else ItemsOfDirection(items, d, n - 1) + if items[n - 1].direction == d then 1 else 0
  }

  lemma {:induction false} CountedItems(items: seq<Item>, c: Classification, d: Direction, n: nat)
    requires n <= |items|
    ensures SumAt(ClassOnes(items), c, n) == ItemsOfClass(items, c, n)
    ensures SumAt(ClassPairs(items), c, n) == HitsOfClass(items, c, n)
    ensures SumAt(DirectionOnes(items), d, n) == ItemsOfDirection(items, d, n)
  {
    if n > 0 { CountedItems(items, c, d, n - 1); }
  }

  /** Each count is the number of listed domains of its class or direction, each class's hits are theirs. */
  lemma CountsExactly(records: seq<Record>, isNew: string -> bool, pending: set<string>, a: Analysis,
                      c: Classification, d: Direction)
    requires IsAnalysis(records, isNew, pending, a)
    ensures c in a.classCounts && a.classCounts[c] == ItemsOfClass(a.items, c, |a.items|)
    ensures c in a.classHits && a.classHits[c] == HitsOfClass(a.items, c, |a.items|)
    ensures d in a.directionCounts && a.directionCounts[d] == ItemsOfDirection(a.items, d, |a.items|)
    ensures forall i :: 0 <= i < |a.items| ==> a.items[i].hits == DomainHits(records, a.items[i].domain, |records|)
  {
    EveryKeyIsCounted();
    CountedItems(a.items, c, d, |a.items|);
    forall i | 0 <= i < |a.items| ensures a.items[i].hits == DomainHits(records, a.items[i].domain, |records|) {
      ItemsAreKeys(records, isNew, i);
      DomainHitsExactly(records, a.items[i].domain, |records|);
    }
  }

  // ---- The classifier ----

  function ResultsOfClass(results: seq<(string, CodexResult)>, c: Classification, n: nat): nat
    requires n <= |results|
  {
    if n == 0 then 0 else ResultsOfClass(results, c, n - 1) + if results[n - 1].1.classification == c then 1 else 0
  }

  lemma {:induction false} CountedResults(results: seq<(string, CodexResult)>, c: Classification, n: nat)
    requires n <= |results|
    ensures SumAt(CodexPairs(results), c, n) == ResultsOfClass(results, c, n)
  {
    if n > 0 { CountedResults(results, c, n - 1); }
  }

  lemma {:induction false} ResultsOfItems(items: seq<Item>, n: nat, domain: string, result: CodexResult)
    requires n <= |items|
    ensures (domain, result) in CodexDomains(items, n)
       <==> exists i :: 0 <= i < n && items[i].domain == domain && result in items[i].codex
  {
    if n > 0 {
      ResultsOfItems(items, n - 1, domain, result);
      ResultsOfItem(items[n - 1], domain, result);
    }
  }

  lemma ResultsOfItem(item: Item, domain: string, result: CodexResult)
    ensures (domain, result) in ResultsOf(item) <==> item.domain == domain && result in item.codex
  {
    if item.domain == domain && result in item.codex {
      var k :| 0 <= k < |item.codex| && item.codex[k] == result;
      assert ResultsOf(item)[k] == (domain, result);
    }
  }

  /** The section lists the results of each domain under that domain, and counts those of either class. */
  lemma SectionExactly(items: seq<Item>, pending: set<string>, c: CodexSection, domain: string, result: CodexResult)
    requires IsCodex(items, pending, c)
    ensures (domain, result) in c.domains
       <==> exists i :: 0 <= i < |items| && items[i].domain == domain && result in items[i].codex
    ensures c.aiCount == ResultsOfClass(c.domains, Ai, |c.domains|)
    ensures c.notAiCount == ResultsOfClass(c.domains, NotAi, |c.domains|)
  {
    ResultsOfItems(items, |items|, domain, result);
    CountedResults(c.domains, Ai, |c.domains|);
    CountedResults(c.domains, NotAi, |c.domains|);
  }

  /** Of the records of which the classifier said this, record `k` is the last. */
  ghost predicate LatestSaying(of: seq<Record>, c: CodexResult, k: nat) {
    ComesLast(of, (r: Record) => SaidBy(r, c.classification, c.reason, c.model), |of|, k)
  }

  /** A result bears the report time of the last record of which the classifier said it. */
  lemma {:induction false} ObservedExactly(of: seq<Record>, n: nat, c: CodexResult)
    requires n <= |of| && c in CodexResults(of, n)
    ensures exists k: nat :: LatestSaying(of, c, k) && c.observed == of[k].generated
  {
    if c in CodexResults(of, n - 1) {
      ObservedExactly(of, n - 1, c);
    } else {
      var p := (r: Record) => SaidBy(r, c.classification, c.reason, c.model);
      var v := of[n - 1].verdict;
      assert c.classification == v.classification && c.reason == v.reason && c.model == v.model;
      LastExactly(of, p, |of|);
      assert p(of[n - 1]);
      var k: nat :| ComesLast(of, p, |of|, k) && of[k] == Last(of, p, |of|).value;
      assert LatestSaying(of, c, k);
    }
  }

  // ---- What the validator accepts ----

  /** A path is one of three; a target has a host and a port of 1 to 65535, if any; and some window used the route. */
  lemma AcceptedExactly(item: Item)
    ensures ItemAccepted(item) <==> |item.domain| > 0 && forall k :: 0 <= k < |item.routes| ==>
      var r := item.routes[k];
      && (r.path == "ai_node" || r.path == "normal_data_plane" || r.path == "unknown") && r.windows > 0
      && (r.target.Some? ==>
            && |r.target.value.host| > 0
            && (r.target.value.port.Some? ==> 1 <= r.target.value.port.value <= 65535))
  {
    if ItemAccepted(item) {
      forall k | 0 <= k < |item.routes| ensures RouteAccepted(item.routes[k]) { }
    }
  }
}
