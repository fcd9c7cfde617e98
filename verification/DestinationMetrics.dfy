/** AI destination metrics: tailing a growing access log and summarising a sliding time window. */
module DestinationMetrics {
  import opened Wrappers

  datatype Event = Event(timestamp: int, key: nat)

  datatype Request = Request(key: nat, requests: nat)

  datatype Summary = Summary(requests: seq<Request>, other: nat)

  // ---- Counting ----

  function Recent(events: seq<Event>, cutoff: int, n: nat): seq<Event>
    requires n <= |events|
  {
    if n == 0 then []
    else if events[n - 1].timestamp < cutoff then Recent(events, cutoff, n - 1)
    else Recent(events, cutoff, n - 1) + [events[n - 1]]
  }

  function CountOf(events: seq<Event>, key: nat, n: nat): nat
    requires n <= |events|
  {
    if n == 0 then 0 else CountOf(events, key, n - 1) + if events[n - 1].key == key then 1 else 0
  }

  function KeyAt(counts: seq<Request>, key: nat, i: nat): (k: nat)
    requires i <= |counts|
    ensures i <= k <= |counts| && (k < |counts| ==> counts[k].key == key)
    ensures forall j :: i <= j < k ==> counts[j].key != key
    decreases |counts| - i
  {
    if i == |counts| || counts[i].key == key then i else KeyAt(counts, key, i + 1)
  }

  /** `counts[key] += 1`. */
  function Bump(counts: seq<Request>, key: nat): seq<Request> {
    var k := KeyAt(counts, key, 0);
    if k < |counts| then counts[k := Request(key, counts[k].requests + 1)] else counts + [Request(key, 1)]
  }

  function Tally(events: seq<Event>, n: nat): seq<Request>
    requires n <= |events|
  {
    if n == 0 then [] else Bump(Tally(events, n - 1), events[n - 1].key)
  }

  predicate HasKey(counts: seq<Request>, key: nat) {
    KeyAt(counts, key, 0) < |counts|
  }

  /** The counter holds every key once, with its number of events. */
  ghost predicate Counts(events: seq<Event>, n: nat, counts: seq<Request>)
    requires n <= |events|
  {
    && (forall i, j :: 0 <= i < j < |counts| ==> counts[i].key != counts[j].key)
    && (forall i :: 0 <= i < |counts| ==> counts[i].requests == CountOf(events, counts[i].key, n))
    && (forall k :: 0 <= k < n ==> HasKey(counts, events[k].key))
  }

  lemma {:induction false} UncountedKey(events: seq<Event>, n: nat, key: nat)
    requires n <= |events| && forall k :: 0 <= k < n ==> events[k].key != key
    ensures CountOf(events, key, n) == 0
  {
    if n > 0 { UncountedKey(events, n - 1, key); }
  }

  lemma BumpKeepsKeys(counts: seq<Request>, key: nat, other: nat)
    ensures HasKey(Bump(counts, key), key) && (HasKey(counts, other) ==> HasKey(Bump(counts, key), other))
  {
    var after := Bump(counts, key);
    assert after[KeyAt(counts, key, 0)].key == key;
    if HasKey(counts, other) { assert after[KeyAt(counts, other, 0)].key == other; }
  }

  lemma NewKeyIsUncounted(events: seq<Event>, n: nat, counts: seq<Request>, key: nat)
    requires n <= |events| && Counts(events, n, counts) && !HasKey(counts, key)
    ensures CountOf(events, key, n) == 0
  {
    forall k | 0 <= k < n ensures events[k].key != key { assert HasKey(counts, events[k].key); }
    UncountedKey(events, n, key);
  }

  lemma BumpKeepsDistinct(counts: seq<Request>, key: nat)
    requires forall i, j :: 0 <= i < j < |counts| ==> counts[i].key != counts[j].key
    ensures var after := Bump(counts, key);
      forall i, j :: 0 <= i < j < |after| ==> after[i].key != after[j].key
  {
  }

  lemma BumpCounts(events: seq<Event>, n: nat, counts: seq<Request>, i: nat)
    requires 0 < n <= |events| && Counts(events, n - 1, counts) && i < |Bump(counts, events[n - 1].key)|
    ensures var r := Bump(counts, events[n - 1].key)[i]; r.requests == CountOf(events, r.key, n)
  {
    var key := events[n - 1].key;
    if !HasKey(counts, key) { NewKeyIsUncounted(events, n - 1, counts, key); }
  }

  lemma {:induction false} TallyCounts(events: seq<Event>, n: nat)
    requires n <= |events|
    ensures Counts(events, n, Tally(events, n))
  {
    if n > 0 {
      TallyCounts(events, n - 1);
      var before, key := Tally(events, n - 1), events[n - 1].key;
      var after := Bump(before, key);
      BumpKeepsDistinct(before, key);
      forall i | 0 <= i < |after| ensures after[i].requests == CountOf(events, after[i].key, n) {
        BumpCounts(events, n, before, i);
      }
      forall k | 0 <= k < n ensures HasKey(after, events[k].key) {
        BumpKeepsKeys(before, key, events[k].key);
      }
    }
  }

  function Sum(counts: seq<Request>, n: nat): nat
    requires n <= |counts|
  {
    if n == 0 then 0 else Sum(counts, n - 1) + counts[n - 1].requests
  }

  lemma {:induction false} SumOfUpdate(counts: seq<Request>, k: nat, r: Request, n: nat)
    requires k < |counts| && n <= |counts|
    ensures Sum(counts[k := r], n) == Sum(counts, n) + if k < n then r.requests - counts[k].requests else 0
  {
    if n > 0 { SumOfUpdate(counts, k, r, n - 1); }
  }

  lemma {:induction false} SumOfPrefix(counts: seq<Request>, more: seq<Request>, n: nat)
    requires n <= |counts|
    ensures Sum(counts + more, n) == Sum(counts, n)
  {
    if n > 0 { SumOfPrefix(counts, more, n - 1); }
  }

  lemma {:induction false} TallyTotal(events: seq<Event>, n: nat)
    requires n <= |events|
    ensures Sum(Tally(events, n), |Tally(events, n)|) == n
  {
    if n > 0 {
      TallyTotal(events, n - 1);
      var before, key := Tally(events, n - 1), events[n - 1].key;
      var at := KeyAt(before, key, 0);
      if at < |before| {
        SumOfUpdate(before, at, Request(key, before[at].requests + 1), |before|);
      } else {
        SumOfPrefix(before, [Request(key, 1)], |before|);
      }
    }
  }

  // ---- Ordering ----

  /** More requests first, then by key. */
  predicate Ahead(a: Request, b: Request) {
    a.requests > b.requests || (a.requests == b.requests && a.key <= b.key)
  }

  function Place(r: Request, sorted: seq<Request>, n: nat): (k: nat)
    requires n <= |sorted|
    ensures k <= n && (forall i :: k <= i < n ==> !Ahead(sorted[i], r)) && (k > 0 ==> Ahead(sorted[k - 1], r))
  {
    if n == 0 || Ahead(sorted[n - 1], r) then n else Place(r, sorted, n - 1)
  }

  function InsertAt(sorted: seq<Request>, k: nat, r: Request): (s: seq<Request>)
    requires k <= |sorted|
    ensures |s| == |sorted| + 1
    ensures forall i :: 0 <= i < |s| ==> s[i] == if i < k then sorted[i] else if i == k then r else sorted[i - 1]
  {
    seq(|sorted| + 1, i requires 0 <= i <= |sorted| => if i < k then sorted[i] else if i == k then r else sorted[i - 1])
  }

  /** `sorted(..., key=(-count, key))`. */
  function Ordered(counts: seq<Request>, n: nat): (s: seq<Request>)
    requires n <= |counts|
    ensures |s| == n
  {
    if n == 0 then [] else
      var before := Ordered(counts, n - 1);
      InsertAt(before, Place(counts[n - 1], before, n - 1), counts[n - 1])
  }

  ghost predicate Sorted(s: seq<Request>) {
    forall i, j :: 0 <= i < j < |s| ==> Ahead(s[i], s[j])
  }

  function Occurs(s: seq<Request>, r: Request, n: nat): nat
    requires n <= |s|
  {
    if n == 0 then 0 else Occurs(s, r, n - 1) + if s[n - 1] == r then 1 else 0
  }

  lemma {:induction false} OccursThere(s: seq<Request>, n: nat, i: nat)
    requires i < n <= |s|
    ensures Occurs(s, s[i], n) > 0
  {
    if i < n - 1 { OccursThere(s, n - 1, i); }
  }

  lemma {:induction false} OccursWhere(s: seq<Request>, n: nat, r: Request) returns (i: nat)
    requires n <= |s| && Occurs(s, r, n) > 0
    ensures i < n && s[i] == r
  {
    i := n - 1;
    if s[n - 1] != r { i := OccursWhere(s, n - 1, r); }
  }

  lemma {:induction false} OccursAfterInsert(sorted: seq<Request>, k: nat, r: Request, x: Request, n: nat)
    requires k <= |sorted| && n <= |sorted| + 1
    ensures Occurs(InsertAt(sorted, k, r), x, n)
         == if n <= k then Occurs(sorted, x, n) else Occurs(sorted, x, n - 1) + if r == x then 1 else 0
  {
    if n > 0 { OccursAfterInsert(sorted, k, r, x, n - 1); }
  }

  lemma {:induction false} SumAfterInsert(sorted: seq<Request>, k: nat, r: Request, n: nat)
    requires k <= |sorted| && n <= |sorted| + 1
    ensures Sum(InsertAt(sorted, k, r), n) == if n <= k then Sum(sorted, n) else Sum(sorted, n - 1) + r.requests
  {
    if n > 0 { SumAfterInsert(sorted, k, r, n - 1); }
  }

  lemma {:induction false} OrderedIsSorted(counts: seq<Request>, n: nat)
    requires n <= |counts|
    ensures Sorted(Ordered(counts, n))
  {
    if n > 0 {
      OrderedIsSorted(counts, n - 1);
      var before := Ordered(counts, n - 1);
      InsertSorts(before, Place(counts[n - 1], before, n - 1), counts[n - 1]);
    }
  }

  lemma {:induction false} OrderedSum(counts: seq<Request>, n: nat)
    requires n <= |counts|
    ensures Sum(Ordered(counts, n), n) == Sum(counts, n)
  {
    if n > 0 {
      OrderedSum(counts, n - 1);
      var before := Ordered(counts, n - 1);
      SumAfterInsert(before, Place(counts[n - 1], before, n - 1), counts[n - 1], n);
    }
  }

  ghost predicate DistinctKeys(s: seq<Request>, n: nat)
    requires n <= |s|
  {
    forall i, j :: 0 <= i < j < n ==> s[i].key != s[j].key
  }

  /** Every entry of the ordering is one of the counter, and the other way round. */
  lemma OrderedFrom(counts: seq<Request>, n: nat, i: nat) returns (k: nat)
    requires i < n <= |counts|
    ensures k < n && counts[k] == Ordered(counts, n)[i]
  {
    OccursThere(Ordered(counts, n), n, i);
    OrderedRearranges(counts, n, Ordered(counts, n)[i]);
    k := OccursWhere(counts, n, Ordered(counts, n)[i]);
  }

  lemma OrderedTo(counts: seq<Request>, n: nat, k: nat) returns (i: nat)
    requires k < n <= |counts|
    ensures i < n && Ordered(counts, n)[i] == counts[k]
  {
    OccursThere(counts, n, k);
    OrderedRearranges(counts, n, counts[k]);
    i := OccursWhere(Ordered(counts, n), n, counts[k]);
  }

  lemma {:induction false} OrderedIsDistinct(counts: seq<Request>, n: nat)
    requires n <= |counts| && DistinctKeys(counts, n)
    ensures DistinctKeys(Ordered(counts, n), n)
  {
    if n > 0 {
      OrderedIsDistinct(counts, n - 1);
      var before := Ordered(counts, n - 1);
      forall i | 0 <= i < n - 1 ensures before[i].key != counts[n - 1].key {
        var k := OrderedFrom(counts, n - 1, i);
      }
      InsertIsDistinct(before, Place(counts[n - 1], before, n - 1), counts[n - 1]);
    }
  }

  lemma InsertIsDistinct(sorted: seq<Request>, k: nat, r: Request)
    requires k <= |sorted| && DistinctKeys(sorted, |sorted|) && forall i :: 0 <= i < |sorted| ==> sorted[i].key != r.key
    ensures DistinctKeys(InsertAt(sorted, k, r), |sorted| + 1)
  {
  }

  lemma InsertSorts(sorted: seq<Request>, k: nat, r: Request)
    requires Sorted(sorted) && k == Place(r, sorted, |sorted|)
    ensures Sorted(InsertAt(sorted, k, r))
  {
  }

  /** Ordering only rearranges. */
  lemma {:induction false} OrderedRearranges(counts: seq<Request>, n: nat, x: Request)
    requires n <= |counts|
    ensures Occurs(Ordered(counts, n), x, n) == Occurs(counts, x, n)
  {
    if n > 0 {
      OrderedRearranges(counts, n - 1, x);
      var before := Ordered(counts, n - 1);
      OccursAfterInsert(before, Place(counts[n - 1], before, n - 1), counts[n - 1], x, n);
    }
  }

  // ---- The summary ----

  function FromCounts(counts: seq<Request>, maxLabels: nat): Summary {
    var ordered := Ordered(counts, |counts|);
    SumsGrow(ordered, Min(maxLabels, |ordered|), |ordered|);
    Summary(ordered[..Min(maxLabels, |ordered|)], Sum(ordered, |ordered|) - Sum(ordered, Min(maxLabels, |ordered|)))
  }

  function SummaryOf(recent: seq<Event>, maxLabels: nat): Summary {
    FromCounts(Tally(recent, |recent|), maxLabels)
  }

  lemma {:induction false} SumsGrow(counts: seq<Request>, m: nat, n: nat)
    requires m <= n <= |counts|
    ensures Sum(counts, m) <= Sum(counts, n)
  {
    if m < n { SumsGrow(counts, m, n - 1); }
  }

  /** Every entry of the ordered counts is the recount of its key. */
  lemma OrderedCounts(recent: seq<Event>, i: nat)
    requires i < |Tally(recent, |recent|)|
    ensures var counts := Tally(recent, |recent|);
      var r := Ordered(counts, |counts|)[i];
      r.requests == CountOf(recent, r.key, |recent|)
  {
    var counts := Tally(recent, |recent|);
    TallyCounts(recent, |recent|);
    var r := Ordered(counts, |counts|)[i];
    OccursThere(Ordered(counts, |counts|), |counts|, i);
    OrderedRearranges(counts, |counts|, r);
    var k := OccursWhere(counts, |counts|, r);
  }

  /** The key of every recent event is listed, or the list is full and every entry comes before that key's. */
  ghost predicate ListsTop(recent: seq<Event>, requests: seq<Request>, maxLabels: nat, k: nat)
    requires k < |recent|
  {
    var r := Request(recent[k].key, CountOf(recent, recent[k].key, |recent|));
    r in requests || (|requests| == maxLabels && forall i :: 0 <= i < |requests| ==> Ahead(requests[i], r))
  }

  lemma ListedOrBehind(recent: seq<Event>, maxLabels: nat, k: nat)
    requires k < |recent|
    ensures ListsTop(recent, SummaryOf(recent, maxLabels).requests, maxLabels, k)
  {
    var counts := Tally(recent, |recent|);
    TallyCounts(recent, |recent|);
    assert HasKey(counts, recent[k].key);
    var i := OrderedTo(counts, |counts|, KeyAt(counts, recent[k].key, 0));
    OrderedIsSorted(counts, |counts|);
    var requests := SummaryOf(recent, maxLabels).requests;
    if i < |requests| { assert requests[i] == Ordered(counts, |counts|)[i]; }
  }

  /**
   Listed counts are recounts of different keys, in order and the largest there are, and with `other` they
   make up all recent events.
   */
  lemma SummaryIsRecount(recent: seq<Event>, maxLabels: nat)
    ensures var s := SummaryOf(recent, maxLabels);
      && |s.requests| <= maxLabels && Sorted(s.requests) && DistinctKeys(s.requests, |s.requests|)
      && (forall k :: 0 <= k < |recent| ==> ListsTop(recent, s.requests, maxLabels, k))
      && (forall i :: 0 <= i < |s.requests| ==> s.requests[i].requests == CountOf(recent, s.requests[i].key, |recent|))
      && Sum(s.requests, |s.requests|) + s.other == |recent|
  {
    var counts := Tally(recent, |recent|);
    var m := Min(maxLabels, |counts|);
    TallyTotal(recent, |recent|);
    OrderedSum(counts, |counts|);
    SumOfTaken(Ordered(counts, |counts|), m, m);
    ListIsExact(recent, Ordered(counts, |counts|), m);
    forall k | 0 <= k < |recent| ensures ListsTop(recent, SummaryOf(recent, maxLabels).requests, maxLabels, k) {
      ListedOrBehind(recent, maxLabels, k);
    }
  }

  lemma ListIsExact(recent: seq<Event>, ordered: seq<Request>, m: nat)
    requires ordered == Ordered(Tally(recent, |recent|), |Tally(recent, |recent|)|) && m <= |ordered|
    ensures Sorted(ordered[..m]) && DistinctKeys(ordered[..m], m)
    ensures forall i :: 0 <= i < m ==> ordered[..m][i].requests == CountOf(recent, ordered[..m][i].key, |recent|)
  {
    var counts := Tally(recent, |recent|);
    OrderedIsSorted(counts, |counts|);
    TallyCounts(recent, |recent|);
    OrderedIsDistinct(counts, |counts|);
    forall i | 0 <= i < m ensures ordered[i].requests == CountOf(recent, ordered[i].key, |recent|) {
      OrderedCounts(recent, i);
    }
  }

  lemma {:induction false} SumOfTaken(counts: seq<Request>, m: nat, n: nat)
    requires n <= m <= |counts|
    ensures Sum(counts[..m], n) == Sum(counts, n)
  {
    if n > 0 { SumOfTaken(counts, m, n - 1); }
  }

  method Summarize(events: seq<Event>, now: int, windowSeconds: int, maxLabels: nat) returns (summary: Summary)
    ensures summary == SummaryOf(Recent(events, now - windowSeconds, |events|), maxLabels)
  {
    var cutoff := now - windowSeconds;
    var counts: seq<Request> := [];
    ghost var recent: seq<Event> := [];
    for i := 0 to |events|
      invariant recent == Recent(events, cutoff, i) && counts == Tally(recent, |recent|)
    {
      if events[i].timestamp >= cutoff {
        TallyOfPrefix(recent, events[i], |recent|);
        counts := Bump(counts, events[i].key);
        recent := recent + [events[i]];
      }
    }
    summary := FromCounts(counts, maxLabels);
  }

  lemma {:induction false} TallyOfPrefix(events: seq<Event>, e: Event, n: nat)
    requires n <= |events|
    ensures Tally(events + [e], n) == Tally(events, n)
  {
    if n > 0 { TallyOfPrefix(events, e, n - 1); }
  }

  /** The events with this key that are not older than `since`. */
  function CountSince(events: seq<Event>, key: nat, since: int, n: nat): nat
    requires n <= |events|
  {
    if n == 0 then 0 else
      CountSince(events, key, since, n - 1)
      + if events[n - 1].key == key && since <= events[n - 1].timestamp then 1 else 0
  }

  function AllSince(events: seq<Event>, since: int, n: nat): nat
    requires n <= |events|
  {
    if n == 0 then 0 else AllSince(events, since, n - 1) + if since <= events[n - 1].timestamp then 1 else 0
  }

  lemma {:induction false} CountOfPrefix(events: seq<Event>, e: Event, key: nat, n: nat)
    requires n <= |events|
    ensures CountOf(events + [e], key, n) == CountOf(events, key, n)
  {
    if n > 0 { CountOfPrefix(events, e, key, n - 1); }
  }

  lemma {:induction false} RecentIsSince(events: seq<Event>, since: int, key: nat, n: nat)
    requires n <= |events|
    ensures var recent := Recent(events, since, n);
      CountOf(recent, key, |recent|) == CountSince(events, key, since, n) && |recent| == AllSince(events, since, n)
  {
    if n > 0 {
      RecentIsSince(events, since, key, n - 1);
      var before := Recent(events, since, n - 1);
      CountOfPrefix(before, events[n - 1], key, |before|);
    }
  }

  /**
   What the summary of a queue says: each listed key has the number of its events of the last `windowSeconds`
   seconds, the most frequent keys come first and equals by key, and everything else is counted together.
   */
  lemma SummaryCountsWindow(events: seq<Event>, now: int, windowSeconds: int, maxLabels: nat)
    ensures var since := now - windowSeconds;
      var s := SummaryOf(Recent(events, since, |events|), maxLabels);
      && (forall i :: 0 <= i < |s.requests| ==>
            s.requests[i].requests == CountSince(events, s.requests[i].key, since, |events|))
      && (forall i, j :: 0 <= i < j < |s.requests| ==>
            || s.requests[i].requests > s.requests[j].requests
            || (s.requests[i].requests == s.requests[j].requests && s.requests[i].key < s.requests[j].key))
      && Sum(s.requests, |s.requests|) + s.other == AllSince(events, since, |events|)
  {
    var since := now - windowSeconds;
    var recent := Recent(events, since, |events|);
    var s := SummaryOf(recent, maxLabels);
    SummaryIsRecount(recent, maxLabels);
    RecentIsSince(events, since, 0, |events|);
    forall i | 0 <= i < |s.requests|
      ensures s.requests[i].requests == CountSince(events, s.requests[i].key, since, |events|)
    {
      RecentIsSince(events, since, s.requests[i].key, |events|);
    }
    forall i, j | 0 <= i < j < |s.requests|
      ensures || s.requests[i].requests > s.requests[j].requests
              || (s.requests[i].requests == s.requests[j].requests && s.requests[i].key < s.requests[j].key)
    {
      assert Ahead(s.requests[i], s.requests[j]) && s.requests[i].key != s.requests[j].key;
    }
  }
}
