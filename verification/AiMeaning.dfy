/** What the AI-domain section says, told by the reports and records themselves. */
module AiMeaning {
  import opened Wrappers
  import opened Partition
  import opened AiRoutes
  import opened AiHistory
  import opened AiDomains

  // ---- Routes ----

  /** The report itself says nothing, the domain is an AI domain, and its routing status is this one. */
  predicate Silent(raw: Option<RawRoute>, classification: Classification) {
    raw.None? && classification == Ai
  }

  /** When a route counts as proxied, as direct, and otherwise as unknown. */
  lemma TagsExactly(raw: Option<RawRoute>, classification: Classification, status: string, aiTarget: Option<RawTarget>)
    ensures var r := RouteFromReport(raw, classification, status, aiTarget);
      && (r.tag == AiProxyTag <==>
            (raw.Some? && raw.value.tag == "ai_proxy") || (Silent(raw, classification) && status == "applied"))
      && (r.tag == DirectTag <==>
            || (raw.Some? && raw.value.tag == "direct") || (raw.None? && classification != Ai)
            || (Silent(raw, classification)
                && (|| status == "disabled" || status == "idle" || status == "fallback_to_primary"
                    || status == "manual_fallback" || status == "manual_target_unreachable"
                    || status == "pending_proxy_template")))
  {
  }

  /** A stated path stays; otherwise the path is that of the tag. */
  lemma PathsExactly(raw: Option<RawRoute>, classification: Classification, status: string, aiTarget: Option<RawTarget>)
    ensures var r := RouteFromReport(raw, classification, status, aiTarget);
      if raw.Some? && raw.value.path != "" then r.path == raw.value.path
      else
        && (r.path == "ai_node" <==> r.tag == AiProxyTag) && (r.path == "normal_data_plane" <==> r.tag == DirectTag)
        && (r.path == "unknown" <==> r.tag == UnknownTag)
  {
    assert "ai_node"[0] == 'a' && "normal_data_plane"[0] == 'n' && "unknown"[0] == 'u';
  }

  /** A target counts when it names a host, and its port when it is one of 1 to 65535. */
  ghost predicate Names(raw: Option<RawTarget>, target: Option<Target>) {
    && (target.Some? <==> raw.Some? && raw.value.host != "")
    && (target.Some? ==>
          && target.value.host == raw.value.host
          && (target.value.port.Some? <==> raw.value.port.Some? && 1 <= raw.value.port.value <= 65535)
          && (target.value.port.Some? ==> raw.value.port == Some(target.value.port.value as int)))
  }

  /** The target is the stated one; only a proxied route without one takes the AI node's. */
  lemma TargetsExactly(raw: Option<RawRoute>, classification: Classification, status: string,
                       aiTarget: Option<RawTarget>)
    ensures var r := RouteFromReport(raw, classification, status, aiTarget);
      var stated := if raw.Some? then raw.value.target else None;
      if r.tag == AiProxyTag && (stated.None? || stated.value.host == "") then Names(aiTarget, r.target)
      else Names(stated, r.target)
  {
  }

  // ---- Windows, names, verdicts ----

  /** A window counts for a day when some moment lies in both. */
  lemma MeetsExactly(w: Window, day: Window)
    requires w.start < w.end && day.start < day.end
    ensures Meets(w, day) <==> exists t: nat {:trigger Within(t, w)} :: Within(t, w) && Within(t, day)
  {
    if Meets(w, day) {
      var t := if w.start < day.start then day.start else w.start;
      assert Within(t, w) && Within(t, day);
    }
  }

  predicate Within(t: nat, w: Window) {
    w.start <= t < w.end
  }

  lemma ValidNames(domain: string)
    ensures ValidDomain(domain) <==> 1 <= |domain| <= 253 && forall i :: 0 <= i < |domain| ==> domain[i] != ' '
  {
  }

  /** A record of the database stands for no route of its own. */
  lemma ObservedRows(rows: seq<Observed>, day: Window, n: nat, r: Record)
    requires n <= |rows|
    ensures r in Observations(rows, day, n) ==> exists i :: 0 <= i < n && IsOf(r, rows[i], day)
  {
    if n > 0 && r in Observations(rows, day, n) {
      if r in Observations(rows, day, n - 1) {
        ObservedRows(rows, day, n - 1, r);
      } else {
        assert IsOf(r, rows[n - 1], day);
      }
    }
  }

  ghost predicate IsOf(r: Record, row: Observed, day: Window) {
    && r.window == row.window && r.domain == row.domain && r.hits == row.hits && r.verdict == row.verdict
    && r.generated == row.generated && r.file == row.file && ValidDomain(row.domain) && Meets(row.window, day)
    && r.route.tag == UnknownTag && r.route.path == "unknown" && r.route.target == None
  }

  /** What was stated before and what is stated afterwards, together: the earlier wins, part by part. */
  ghost predicate FirstStated(before: Verdict, other: Verdict, after: Verdict) {
    && (if before.classification == Ai || before.classification == NotAi
        then after.classification == before.classification else after.classification == other.classification)
    && (if |before.reason| > 0 then after.reason == before.reason else after.reason == other.reason)
    && (if |before.source| > 0 then after.source == before.source else after.source == other.source)
    && (if |before.model| > 0 then after.model == before.model else after.model == other.model)
  }

  /** Merging changes one record's verdict at most, and only by what it had not stated. */
  lemma {:induction false} MergingFillsGaps(before: seq<Record>, o: Record)
    ensures var after := MergedOne(before, o);
      && |before| <= |after|
      && (forall i :: 0 <= i < |before| ==>
            after[i] == before[i]
            || (&& after[i] == before[i].(verdict := after[i].verdict)
                && after[i].window == o.window && after[i].domain == o.domain
                && FirstStated(before[i].verdict, o.verdict, after[i].verdict)
                && forall j :: 0 <= j < i ==> before[j].window != o.window || before[j].domain != o.domain))
      && (|after| > |before| ==> after == before + [o])
      && ((forall i :: 0 <= i < |before| ==> before[i].window != o.window || before[i].domain != o.domain)
          <==> |after| > |before|)
  {
    var k := KeyIndex(before, o, 0);
    forall j | 0 <= j < k ensures before[j].window != o.window || before[j].domain != o.domain {
      assert !SameKey(before[j], o);
    }
    if k < |before| { assert SameKey(before[k], o); }
  }

  /** The catalog fills what is missing, and changes nothing else. */
  lemma CatalogFillsGaps(r: Record, catalog: map<string, Verdict>)
    ensures var after := Looked(r, catalog);
      if r.domain in catalog then
        after == r.(verdict := after.verdict) && FirstStated(r.verdict, catalog[r.domain], after.verdict)
      else after == r
  {
  }

  // ---- What an item says of its domain ----

  /** Record `a` ends no later than `b`, was reported no later, and its file name is no greater, in this order. */
  predicate UpTo(a: Record, b: Record) {
    || a.window.end < b.window.end
    || (a.window.end == b.window.end && a.generated < b.generated)
    || (a.window.end == b.window.end && a.generated == b.generated && a.file <= b.file)
  }

  /** Among the first `n` records that satisfy `p`, record `k` comes last; of equals it is the last one. */
  ghost predicate ComesLast(records: seq<Record>, p: Record -> bool, n: nat, k: nat)
    requires n <= |records|
  {
    && k < n && p(records[k])
    && forall j {:trigger records[j]} :: 0 <= j < n && p(records[j]) ==>
      UpTo(records[j], records[k]) && (UpTo(records[k], records[j]) ==> j <= k)
  }

  lemma {:induction false} LastExactly(records: seq<Record>, p: Record -> bool, n: nat)
    requires n <= |records|
    ensures match Last(records, p, n)
            case None => forall j :: 0 <= j < n ==> !p(records[j])
            case Some(r) => exists k: nat :: ComesLast(records, p, n, k) && records[k] == r
  {
    if n > 0 {
      LastExactly(records, p, n - 1);
      var before := Last(records, p, n - 1);
      if before.Some? {
        var k: nat :| ComesLast(records, p, n - 1, k) && records[k] == before.value;
        if p(records[n - 1]) && NotBefore(records[n - 1], before.value) {
          assert ComesLast(records, p, n, n - 1);
        } else {
          assert ComesLast(records, p, n, k);
        }
      } else if p(records[n - 1]) {
        assert ComesLast(records, p, n, n - 1);
      }
    }
  }

  lemma {:induction false} OfDomainExactly(records: seq<Record>, domain: string, n: nat)
    requires n <= |records|
    ensures forall r :: r in OfDomain(records, domain, n) <==> r in records[..n] && r.domain == domain
  {
    if n > 0 {
      OfDomainExactly(records, domain, n - 1);
      assert records[..n] == records[..n - 1] + [records[n - 1]];
    } else {
      assert records[..0] == [];
    }
  }

  /** The last record of these, or the last that states a source. */
  ghost predicate LatestOf(of: seq<Record>, k: nat) {
    ComesLast(of, r => true, |of|, k)
  }

  ghost predicate LatestSourced(of: seq<Record>, k: nat) {
    ComesLast(of, (r: Record) => r.verdict.source != "", |of|, k)
  }

  lemma ItemParts(records: seq<Record>, domain: string, isNew: string -> bool, of: seq<Record>)
    requires of == OfDomain(records, domain, |records|)
    ensures var item, last := ItemOf(records, domain, isNew), Last(of, (r: Record) => true, |of|);
      && item.domain == domain && item.isNew == isNew(domain) && item.source == LastSource(of)
      && item.classification == (if last.Some? then last.value.verdict.classification else Unclassified)
      && item.direction == DirectionOf(RouteItems(of, |Keys(RouteHits(of), |of|)|))
  {
  }

  lemma {:induction false} OfDomainIsThere(records: seq<Record>, domain: string, of: seq<Record>)
    requires of == OfDomain(records, domain, |records|) && exists r :: r in records && r.domain == domain
    ensures of != [] && forall r :: r in of <==> r in records && r.domain == domain
  {
    assert records[..|records|] == records;
    OfDomainExactly(records, domain, |records|);
    var r :| r in records && r.domain == domain;
    assert r in of;
  }

  /**
   The class of an item is that of the domain's last record, its source the last stated one, or the text "unknown"
   if none was stated. `of` are the domain's records, in their order.
   */
  lemma {:induction false} ItemVerdictExactly(records: seq<Record>, domain: string, isNew: string -> bool,
                                              of: seq<Record>)
    requires of == OfDomain(records, domain, |records|) && exists r :: r in records && r.domain == domain
    ensures forall r :: r in of <==> r in records && r.domain == domain
    ensures var item := ItemOf(records, domain, isNew);
      && item.domain == domain && item.isNew == isNew(domain)
      && (exists k: nat :: LatestOf(of, k) && item.classification == of[k].verdict.classification)
      && (if forall r :: r in of ==> r.verdict.source == "" then item.source == "unknown"
          else exists k: nat :: LatestSourced(of, k) && item.source == of[k].verdict.source)
  {
    OfDomainIsThere(records, domain, of);
    ItemParts(records, domain, isNew, of);
    LastOfAll(of);
    LastOfSourced(of);
  }

  lemma {:induction false} LastOfAll(of: seq<Record>)
    requires of != []
    ensures var last := Last(of, (r: Record) => true, |of|);
      last.Some? && exists k: nat :: LatestOf(of, k) && of[k] == last.value
  {
    var all := (r: Record) => true;
    LastExactly(of, all, |of|);
    assert all(of[0]);
    var k: nat :| ComesLast(of, all, |of|, k) && of[k] == Last(of, all, |of|).value;
    assert LatestOf(of, k);
  }

  lemma {:induction false} LastOfSourced(of: seq<Record>)
    ensures if forall r :: r in of ==> r.verdict.source == "" then LastSource(of) == "unknown"
            else exists k: nat :: LatestSourced(of, k) && LastSource(of) == of[k].verdict.source
  {
    var sourced := (r: Record) => r.verdict.source != "";
    LastExactly(of, sourced, |of|);
    if exists r :: r in of && r.verdict.source != "" {
      var r :| r in of && r.verdict.source != "";
      assert sourced(r);
      var k: nat :| ComesLast(of, sourced, |of|, k) && of[k] == Last(of, sourced, |of|).value;
      assert LatestSourced(of, k);
    }
  }

  // ---- The direction of a domain ----

  lemma {:induction false} TagsOfRoutes(items: seq<Record>, n: nat)
    requires n <= |Keys(RouteHits(items), |items|)|
    ensures |RouteItems(items, n)| == n
    ensures forall k :: 0 <= k < n ==> RouteItems(items, n)[k].tag == Keys(RouteHits(items), |items|)[k].tag
  {
    if n > 0 { TagsOfRoutes(items, n - 1); }
  }

  predicate Tagged(items: seq<Record>, tag: Tag) {
    exists i :: 0 <= i < |items| && items[i].route.tag == tag
  }

  predicate TaggedRoutes(routes: seq<RouteItem>, tag: Tag) {
    exists k :: 0 <= k < |routes| && routes[k].tag == tag
  }

  lemma {:induction false} RouteOfRecord(items: seq<Record>, keys: seq<Signature>, routes: seq<RouteItem>, tag: Tag)
    requires keys == Keys(RouteHits(items), |items|) && routes == RouteItems(items, |keys|) && Tagged(items, tag)
    ensures TaggedRoutes(routes, tag)
  {
    TagsOfRoutes(items, |keys|);
    var i :| 0 <= i < |items| && items[i].route.tag == tag;
    KeysAreDistinct(RouteHits(items), |items|);
    assert RouteHits(items)[i].0 in keys;
    var k :| 0 <= k < |keys| && keys[k] == SignatureOf(items[i].route);
    assert routes[k].tag == tag;
  }

  lemma {:induction false} RecordOfRoute(items: seq<Record>, keys: seq<Signature>, routes: seq<RouteItem>, k: nat)
    requires keys == Keys(RouteHits(items), |items|) && routes == RouteItems(items, |keys|) && k < |routes|
    ensures Tagged(items, routes[k].tag)
  {
    TagsOfRoutes(items, |keys|);
    var i := KeyAppears(items, |items|, k);
    assert items[i].route.tag == routes[k].tag;
  }

  lemma {:induction false} DirectionOfTags(routes: seq<RouteItem>)
    requires routes != []
    ensures DirectionOf(routes) == AiProxy <==> forall k :: 0 <= k < |routes| ==> routes[k].tag == AiProxyTag
    ensures DirectionOf(routes) == Direct <==> forall k :: 0 <= k < |routes| ==> routes[k].tag == DirectTag
    ensures DirectionOf(routes) == UnknownDirection <==> forall k :: 0 <= k < |routes| ==> routes[k].tag == UnknownTag
  {
    var tags := set r | r in routes :: r.tag;
    var first := routes[0].tag;
    assert routes[0] in routes && first in tags;
    if forall k :: 0 <= k < |routes| ==> routes[k].tag == first {
      assert tags == {first};
    } else {
      var k :| 0 <= k < |routes| && routes[k].tag != first;
      assert routes[k] in routes && routes[k].tag in tags;
      TwoElements(tags, first, routes[k].tag);
    }
  }

  lemma TwoElements(tags: set<Tag>, a: Tag, b: Tag)
    requires a in tags && b in tags && a != b
    ensures |tags| > 1
  {
    assert |tags - {a}| == |tags| - 1 && b in tags - {a};
  }

  /** All of these records have the tag exactly if all routes have it. */
  lemma {:induction false} AllTagged(items: seq<Record>, keys: seq<Signature>, routes: seq<RouteItem>, tag: Tag)
    requires keys == Keys(RouteHits(items), |items|) && routes == RouteItems(items, |keys|)
    ensures (forall k :: 0 <= k < |routes| ==> routes[k].tag == tag)
       <==> forall i :: 0 <= i < |items| ==> items[i].route.tag == tag
  {
    if forall k :: 0 <= k < |routes| ==> routes[k].tag == tag {
      forall i | 0 <= i < |items| ensures items[i].route.tag == tag {
        assert Tagged(items, items[i].route.tag);
        RouteOfRecord(items, keys, routes, items[i].route.tag);
      }
    }
    if forall i :: 0 <= i < |items| ==> items[i].route.tag == tag {
      forall k | 0 <= k < |routes| ensures routes[k].tag == tag { RecordOfRoute(items, keys, routes, k); }
    }
  }

  /** A domain is proxied, direct or unknown if all its records are, and otherwise mixed. */
  lemma {:induction false} DirectionExactly(records: seq<Record>, domain: string, isNew: string -> bool,
                                            of: seq<Record>)
    requires of == OfDomain(records, domain, |records|) && exists r :: r in records && r.domain == domain
    ensures forall r :: r in of <==> r in records && r.domain == domain
    ensures var d := ItemOf(records, domain, isNew).direction;
      && (d == AiProxy <==> forall i :: 0 <= i < |of| ==> of[i].route.tag == AiProxyTag)
      && (d == Direct <==> forall i :: 0 <= i < |of| ==> of[i].route.tag == DirectTag)
      && (d == UnknownDirection <==> forall i :: 0 <= i < |of| ==> of[i].route.tag == UnknownTag)
  {
    OfDomainIsThere(records, domain, of);
    ItemParts(records, domain, isNew, of);
    var keys := Keys(RouteHits(of), |of|);
    var routes := RouteItems(of, |keys|);
    assert Tagged(of, of[0].route.tag);
    RouteOfRecord(of, keys, routes, of[0].route.tag);
    DirectionOfTags(routes);
    AllTagged(of, keys, routes, AiProxyTag);
    AllTagged(of, keys, routes, DirectTag);
    AllTagged(of, keys, routes, UnknownTag);
  }

  // ---- Sources and new domains ----

  function ItemsOf(items: seq<Item>, source: string, n: nat): nat
    requires n <= |items|
  {
    if n == 0 then 0 else ItemsOf(items, source, n - 1) + if items[n - 1].source == source then 1 else 0
  }

  lemma {:induction false} CountedBySource(items: seq<Item>, n: nat)
    requires n <= |items|
    ensures SumAt(SourceOnes(items), Builtin, n) == ItemsOf(items, "builtin", n)
    ensures SumAt(SourceOnes(items), Codex, n) == ItemsOf(items, "codex", n)
    ensures SumAt(SourceOnes(items), Openai, n) == ItemsOf(items, "openai", n)
  {
    if n > 0 { CountedBySource(items, n - 1); }
  }

  /** The counts by source are the numbers of domains with these texts as source; the rest have some other text. */
  lemma SourcesExactly(records: seq<Record>, isNew: string -> bool, pending: set<string>, a: Analysis)
    requires IsAnalysis(records, isNew, pending, a)
    ensures a.sourceCounts[Builtin] == ItemsOf(a.items, "builtin", |a.items|)
    ensures a.sourceCounts[Codex] == ItemsOf(a.items, "codex", |a.items|)
    ensures a.sourceCounts[Openai] == ItemsOf(a.items, "openai", |a.items|)
  {
    CountedBySource(a.items, |a.items|);
  }

  lemma {:induction false} NewExactly(items: seq<Item>, n: nat)
    requires n <= |items|
    ensures forall item :: item in NewOnly(items, n) <==> item in items[..n] && item.isNew
  {
    if n > 0 {
      NewExactly(items, n - 1);
      assert items[..n] == items[..n - 1] + [items[n - 1]];
    } else {
      assert items[..0] == [];
    }
  }

  lemma {:induction false} NewHitsExactly(items: seq<Item>, n: nat)
    requires n <= |items|
    ensures HitsOfItems(NewOnly(items, n), |NewOnly(items, n)|) == NewHits(items, n)
  {
    if n > 0 {
      NewHitsExactly(items, n - 1);
      HitsOfMore(NewOnly(items, n - 1), items[n - 1], |NewOnly(items, n - 1)|);
    }
  }

  function NewHits(items: seq<Item>, n: nat): nat
    requires n <= |items|
  {
    if n == 0 then 0 else NewHits(items, n - 1) + if items[n - 1].isNew then items[n - 1].hits else 0
  }

  lemma {:induction false} HitsOfMore(items: seq<Item>, item: Item, n: nat)
    requires n <= |items|
    ensures HitsOfItems(items + [item], n) == HitsOfItems(items, n)
  {
    if n > 0 { HitsOfMore(items, item, n - 1); }
  }

  // ---- The classifier ----

  /** The classifier said this of the record. */
  predicate Classified(r: Record, c: CodexResult) {
    && r.verdict.source == "codex" && r.verdict.classification == c.classification
    && r.verdict.reason == c.reason && r.verdict.model == c.model
  }

  ghost predicate IsListedFor(results: seq<CodexResult>, r: Record) {
    exists k :: 0 <= k < |results| && Classified(r, results[k])
  }

  ghost predicate IsSaidOf(records: seq<Record>, n: nat, c: CodexResult)
    requires n <= |records|
  {
    exists i :: 0 <= i < n && Classified(records[i], c)
  }

  lemma SaidIsListed(results: seq<CodexResult>, r: Record)
    requires SourceBucket(r.verdict.source) == Codex && Said(results, r)
    ensures IsListedFor(results, r)
  {
    var k :| 0 <= k < |results| && SaidBy(r, results[k].classification, results[k].reason, results[k].model);
    assert Classified(r, results[k]);
  }

  lemma StaysListed(before: seq<CodexResult>, after: seq<CodexResult>, r: Record)
    requires IsListedFor(before, r) && before <= after
    ensures IsListedFor(after, r)
  {
    var k :| 0 <= k < |before| && Classified(r, before[k]);
    assert Classified(r, after[k]);
  }

  /** Each verdict of the classifier on a domain is listed, and nothing it did not say. */
  lemma {:induction false} ResultsExactly(records: seq<Record>, n: nat, i: nat, k: nat)
    requires n <= |records|
    ensures i < n && records[i].verdict.source == "codex" ==> IsListedFor(CodexResults(records, n), records[i])
    ensures k < |CodexResults(records, n)| ==> IsSaidOf(records, n, CodexResults(records, n)[k])
  {
    if i < n { ResultIsListed(records, n, i); }
    if k < |CodexResults(records, n)| { ResultIsSaid(records, n, k); }
  }

  lemma {:induction false} ResultIsListed(records: seq<Record>, n: nat, i: nat)
    requires i < n <= |records|
    ensures records[i].verdict.source == "codex" ==> IsListedFor(CodexResults(records, n), records[i])
  {
    var before, after, r := CodexResults(records, n - 1), CodexResults(records, n), records[i];
    if r.verdict.source == "codex" {
      if i < n - 1 {
        ResultIsListed(records, n - 1, i);
        StaysListed(before, after, r);
      } else if Said(before, r) {
        SaidIsListed(before, r);
      } else {
        assert Classified(r, after[|before|]);
      }
    }
  }

  lemma {:induction false} ResultIsSaid(records: seq<Record>, n: nat, k: nat)
    requires n <= |records| && k < |CodexResults(records, n)|
    ensures IsSaidOf(records, n, CodexResults(records, n)[k])
  {
    var c := CodexResults(records, n)[k];
    if k < |CodexResults(records, n - 1)| {
      ResultIsSaid(records, n - 1, k);
      var i :| 0 <= i < n - 1 && Classified(records[i], c);
      assert Classified(records[i], c);
    } else {
      assert Classified(records[n - 1], c);
    }
  }

  /** The status of the classifier: complete, partly complete, unavailable, not used, or nothing to say. */
  lemma StatusExactly(items: seq<Item>, pending: set<string>, c: CodexSection)
    requires IsCodex(items, pending, c)
    ensures c.status == Success <==> c.domains != [] && pending == {}
    ensures c.status == Partial <==> c.domains != [] && pending != {}
    ensures c.status == Unavailable <==> c.domains == [] && pending != {}
    ensures c.status == NotUsed <==> c.domains == [] && pending == {} && items != []
  {
  }
}
