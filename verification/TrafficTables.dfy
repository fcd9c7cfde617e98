/** The traffic tables: per-port totals and per-day rows, and the transactions that update both. */
module TrafficTables {
  import opened Wrappers

  datatype Count = Count(connections: nat, sent: nat, received: nat) {
    function Plus(d: Count): Count {
      Count(connections + d.connections, sent + d.sent, received + d.received)
    }
  }

  const ZERO := Count(0, 0, 0)

  datatype Totals = Totals(count: Count, lastSeen: Option<nat>)

  datatype Daily = Daily(port: nat, date: nat, count: Count)

  /** `daily` is the table in insertion order. */
  datatype Traffic = Traffic(totals: map<nat, Totals>, daily: seq<Daily>)

  const DAY: nat := 86400

  function Later(a: Option<nat>, b: Option<nat>): Option<nat> {
    if b.None? then a else if a.None? || a.value < b.value then b else a
  }

  // ---- Upserts ----

  function AddTotals(totals: map<nat, Totals>, port: nat, d: Count, seen: Option<nat>): map<nat, Totals> {
    totals[port := if port in totals then Totals(totals[port].count.Plus(d), Later(totals[port].lastSeen, seen))
                   else Totals(d, seen)]
  }

  predicate IsDay(row: Daily, port: nat, date: nat) {
    row.port == port && row.date == date
  }

  /** The first row of this port and day from `i` on, or the length. */
  function DayAt(rows: seq<Daily>, port: nat, date: nat, i: nat): (k: nat)
    requires i <= |rows|
    ensures i <= k <= |rows| && (k < |rows| ==> IsDay(rows[k], port, date))
    ensures forall j :: i <= j < k ==> !IsDay(rows[j], port, date)
    decreases |rows| - i
  {
    if i == |rows| || IsDay(rows[i], port, date) then i else DayAt(rows, port, date, i + 1)
  }

  function AddDaily(rows: seq<Daily>, port: nat, date: nat, d: Count): seq<Daily> {
    var k := DayAt(rows, port, date, 0);
    if k < |rows| then rows[k := rows[k].(count := rows[k].count.Plus(d))] else rows + [Daily(port, date, d)]
  }

  function Add(t: Traffic, port: nat, date: nat, d: Count, seen: Option<nat>): Traffic {
    Traffic(AddTotals(t.totals, port, d, seen), AddDaily(t.daily, port, date, d))
  }

  // ---- The access log ----

  /** A parsed log line; lines that do not parse are `None`. */
  datatype Hit = Hit(port: nat, seen: nat)

  function SyncLine(t: Traffic, line: Option<Hit>): Traffic {
    match line
    case None => t
    case Some(h) => Add(t, h.port, h.seen / DAY, Count(1, 0, 0), Some(h.seen))
  }

  /** Line by line: the first `n` lines, one transaction each. */
  function SyncLines(t: Traffic, lines: seq<Option<Hit>>, n: nat): Traffic
    requires n <= |lines|
  {
    if n == 0 then t else SyncLine(SyncLines(t, lines, n - 1), lines[n - 1])
  }

  datatype Aggregate = Aggregate(port: nat, date: nat, connections: nat, lastSeen: nat)

  function Apply(t: Traffic, a: Aggregate): Traffic {
    Add(t, a.port, a.date, Count(a.connections, 0, 0), Some(a.lastSeen))
  }

  function ApplyAll(t: Traffic, aggregates: seq<Aggregate>, n: nat): Traffic
    requires n <= |aggregates|
  {
    if n == 0 then t else Apply(ApplyAll(t, aggregates, n - 1), aggregates[n - 1])
  }

  predicate Keys(aggregates: seq<Aggregate>) {
    forall i, j :: 0 <= i < j < |aggregates| ==>
      aggregates[i].port != aggregates[j].port || aggregates[i].date != aggregates[j].date
  }

  /** `aggregates.setdefault(key, ...)`: where the key is, or the length. */
  function KeyAt(aggregates: seq<Aggregate>, port: nat, date: nat): (i: nat)
    ensures i <= |aggregates|
    ensures i < |aggregates| ==> aggregates[i].port == port && aggregates[i].date == date
    ensures forall j :: 0 <= j < i ==> aggregates[j].port != port || aggregates[j].date != date
  {
    if aggregates == [] || (aggregates[0].port == port && aggregates[0].date == date) then 0
    else 1 + KeyAt(aggregates[1..], port, date)
  }

  function Counted(a: Aggregate, seen: nat): Aggregate {
    a.(connections := a.connections + 1, lastSeen := if seen > a.lastSeen then seen else a.lastSeen)
  }

  /** Aggregate the batch per port and day, then upsert each aggregate. The effect is that of the single lines. */
  method SyncAccessLog(t: Traffic, lines: seq<Option<Hit>>) returns (t': Traffic, updates: nat)
    ensures t' == SyncLines(t, lines, |lines|)
  {
    var aggregates: seq<Aggregate> := [];
    for i := 0 to |lines|
      invariant Keys(aggregates) && ApplyAll(t, aggregates, |aggregates|) == SyncLines(t, lines, i)
    {
      if lines[i].Some? {
        var hit := lines[i].value;
        var k := KeyAt(aggregates, hit.port, hit.seen / DAY);
        if k == |aggregates| {
          ApplyPrefix(t, aggregates, Aggregate(hit.port, hit.seen / DAY, 1, hit.seen), |aggregates|);
          aggregates := aggregates + [Aggregate(hit.port, hit.seen / DAY, 1, hit.seen)];
        } else {
          ghost var before := aggregates;
          aggregates := aggregates[k := Counted(aggregates[k], hit.seen)];
          CountingIsSyncing(t, before, aggregates, k, hit, |before|);
        }
      }
    }
    t' := t;
    for j := 0 to |aggregates|
      invariant t' == ApplyAll(t, aggregates, j)
    {
      t' := Apply(t', aggregates[j]);
    }
    updates := |aggregates|;
  }

  lemma {:induction false} ApplyPrefix(t: Traffic, aggregates: seq<Aggregate>, a: Aggregate, n: nat)
    requires n <= |aggregates|
    ensures ApplyAll(t, aggregates + [a], n) == ApplyAll(t, aggregates, n)
  {
    if n > 0 { ApplyPrefix(t, aggregates, a, n - 1); }
  }

  predicate HasDay(rows: seq<Daily>, port: nat, date: nat) {
    DayAt(rows, port, date, 0) < |rows|
  }

  /** An upsert keeps every row where it is. */
  lemma AddingKeepsDays(rows: seq<Daily>, port: nat, date: nat, d: Count, p: nat, e: nat)
    ensures HasDay(AddDaily(rows, port, date, d), port, date)
    ensures HasDay(rows, p, e) ==> DayAt(AddDaily(rows, port, date, d), p, e, 0) == DayAt(rows, p, e, 0)
  {
    var after := AddDaily(rows, port, date, d);
    forall j | 0 <= j < |rows| ensures IsDay(after[j], p, e) == IsDay(rows[j], p, e) { }
    var k := DayAt(rows, port, date, 0);
    assert IsDay(after[k], port, date);
    if HasDay(rows, p, e) { assert IsDay(after[DayAt(rows, p, e, 0)], p, e); }
  }

  /** Two upserts of one row are one with the sum. */
  lemma AddDailyTwice(rows: seq<Daily>, port: nat, date: nat, c: Count, d: Count)
    ensures AddDaily(AddDaily(rows, port, date, c), port, date, d) == AddDaily(rows, port, date, c.Plus(d))
  {
    var once := AddDaily(rows, port, date, c);
    var k := DayAt(rows, port, date, 0);
    forall j | 0 <= j < k ensures !IsDay(once[j], port, date) { assert once[j] == rows[j]; }
    assert IsDay(once[k], port, date);
    assert DayAt(once, port, date, 0) == k;
  }

  /** Upserts of different rows commute once the first row exists. */
  lemma AddDailyCommutes(rows: seq<Daily>, p: nat, e: nat, c: Count, q: nat, f: nat, d: Count)
    requires HasDay(rows, p, e) && (p != q || e != f)
    ensures AddDaily(AddDaily(rows, p, e, c), q, f, d) == AddDaily(AddDaily(rows, q, f, d), p, e, c)
  {
    var a := AddDaily(rows, p, e, c);
    var k := DayAt(rows, q, f, 0);
    AddingKeepsDays(rows, q, f, d, p, e);
    forall j | 0 <= j < |rows| ensures IsDay(a[j], q, f) == IsDay(rows[j], q, f) { }
    assert k < |rows| ==> IsDay(a[k], q, f);
    assert DayAt(a, q, f, 0) == k;
  }

  lemma TotalsCommute(totals: map<nat, Totals>, p: nat, c: Count, s: Option<nat>, q: nat, d: Count, u: Option<nat>)
    ensures AddTotals(AddTotals(totals, p, c, s), q, d, u) == AddTotals(AddTotals(totals, q, d, u), p, c, s)
    ensures p == q ==> AddTotals(AddTotals(totals, p, c, s), q, d, u) == AddTotals(totals, p, c.Plus(d), Later(s, u))
  {
  }

  /** The aggregate at `k` was applied, so its day has a row. */
  lemma {:induction false} AppliedHasDay(t: Traffic, aggregates: seq<Aggregate>, k: nat, n: nat)
    requires k < n <= |aggregates|
    ensures HasDay(ApplyAll(t, aggregates, n).daily, aggregates[k].port, aggregates[k].date)
  {
    var before, a := ApplyAll(t, aggregates, n - 1), aggregates[n - 1];
    AddingKeepsDays(before.daily, a.port, a.date, Count(a.connections, 0, 0), aggregates[k].port, aggregates[k].date);
    if k < n - 1 { AppliedHasDay(t, aggregates, k, n - 1); }
  }

  /** Merging a hit into the aggregate just applied. */
  lemma MergeHit(t: Traffic, a: Aggregate, hit: Hit)
    requires a.port == hit.port && a.date == hit.seen / DAY
    ensures Apply(t, Counted(a, hit.seen)) == SyncLine(Apply(t, a), Some(hit))
  {
    TotalsCommute(t.totals, a.port, Count(a.connections, 0, 0), Some(a.lastSeen), hit.port, Count(1, 0, 0),
                  Some(hit.seen));
    AddDailyTwice(t.daily, hit.port, a.date, Count(a.connections, 0, 0), Count(1, 0, 0));
  }

  /** A hit of another key may as well come before an aggregate, once its row exists. */
  lemma SwapHit(t: Traffic, a: Aggregate, hit: Hit)
    requires HasDay(t.daily, hit.port, hit.seen / DAY) && (a.port != hit.port || a.date != hit.seen / DAY)
    ensures Apply(SyncLine(t, Some(hit)), a) == SyncLine(Apply(t, a), Some(hit))
  {
    TotalsCommute(t.totals, a.port, Count(a.connections, 0, 0), Some(a.lastSeen), hit.port, Count(1, 0, 0),
                  Some(hit.seen));
    AddDailyCommutes(t.daily, hit.port, hit.seen / DAY, Count(1, 0, 0), a.port, a.date, Count(a.connections, 0, 0));
  }

  lemma {:induction false} SamePrefix(t: Traffic, a: seq<Aggregate>, b: seq<Aggregate>, n: nat)
    requires n <= |a| && n <= |b| && forall i :: 0 <= i < n ==> a[i] == b[i]
    ensures ApplyAll(t, a, n) == ApplyAll(t, b, n)
  {
    if n > 0 { SamePrefix(t, a, b, n - 1); }
  }

  /** One more aggregate behind the one that counts the hit. */
  lemma CountsBehind(t: Traffic, aggregates: seq<Aggregate>, counted: seq<Aggregate>, k: nat, hit: Hit, n: nat)
    requires Keys(aggregates) && k < n < |aggregates| == |counted| && counted[n] == aggregates[n]
    requires aggregates[k].port == hit.port && aggregates[k].date == hit.seen / DAY
    requires ApplyAll(t, counted, n) == SyncLine(ApplyAll(t, aggregates, n), Some(hit))
    ensures ApplyAll(t, counted, n + 1) == SyncLine(ApplyAll(t, aggregates, n + 1), Some(hit))
  {
    AppliedHasDay(t, aggregates, k, n);
    SwapHit(ApplyAll(t, aggregates, n), aggregates[n], hit);
  }

  /** Counting a hit into the aggregate at `k` has the effect of one more single line. */
  lemma {:induction false} CountingIsSyncing(t: Traffic, aggregates: seq<Aggregate>, counted: seq<Aggregate>, k: nat,
                                             hit: Hit, n: nat)
    requires Keys(aggregates) && k < n <= |aggregates| == |counted|
    requires aggregates[k].port == hit.port && aggregates[k].date == hit.seen / DAY
    requires counted[k] == Counted(aggregates[k], hit.seen)
    requires forall i :: 0 <= i < |counted| && i != k ==> counted[i] == aggregates[i]
    ensures ApplyAll(t, counted, n) == SyncLine(ApplyAll(t, aggregates, n), Some(hit))
  {
    if n == k + 1 {
      SamePrefix(t, counted, aggregates, k);
      MergeHit(ApplyAll(t, aggregates, k), aggregates[k], hit);
    } else {
      CountingIsSyncing(t, aggregates, counted, k, hit, n - 1);
      CountsBehind(t, aggregates, counted, k, hit, n - 1);
    }
  }

  /** Syncing a batch of lines has the same effect as syncing any split of it. */
  lemma {:induction false} SplitSync(t: Traffic, first: seq<Option<Hit>>, second: seq<Option<Hit>>, n: nat)
    requires n <= |second|
    ensures SyncLines(t, first + second, |first| + n) == SyncLines(SyncLines(t, first, |first|), second, n)
    decreases n
  {
    if n > 0 { SplitSync(t, first, second, n - 1); } else { SyncPrefix(t, first, second, |first|); }
  }

  lemma {:induction false} SyncPrefix(t: Traffic, first: seq<Option<Hit>>, second: seq<Option<Hit>>, n: nat)
    requires n <= |first|
    ensures SyncLines(t, first + second, n) == SyncLines(t, first, n)
  {
    if n > 0 { SyncPrefix(t, first, second, n - 1); }
  }

  // ---- Byte counters, resets, deletion ----

  datatype Stat = Stat(port: nat, sent: nat, received: nat)

  function SyncStat(t: Traffic, s: Stat, now: nat): Traffic {
    Add(t, s.port, now / DAY, Count(0, s.sent, s.received), if s.sent > 0 || s.received > 0 then Some(now) else None)
  }

  function SyncStats(t: Traffic, stats: seq<Stat>, n: nat, now: nat): Traffic
    requires n <= |stats|
  {
    if n == 0 then t else SyncStat(SyncStats(t, stats, n - 1, now), stats[n - 1], now)
  }

  function ZeroBytes(rows: seq<Daily>, port: nat): seq<Daily> {
    seq(|rows|, i requires 0 <= i < |rows| =>
      if rows[i].port == port then rows[i].(count := Count(rows[i].count.connections, 0, 0)) else rows[i])
  }

  function ResetUsage(t: Traffic, port: nat): Traffic {
    Traffic(if port in t.totals then
              t.totals[port := t.totals[port].(count := Count(t.totals[port].count.connections, 0, 0))]
            else t.totals,
            ZeroBytes(t.daily, port))
  }

  function Without(rows: seq<Daily>, gone: set<nat>, n: nat): seq<Daily>
    requires n <= |rows|
  {
    if n == 0 then []
    else if rows[n - 1].port in gone then Without(rows, gone, n - 1) else Without(rows, gone, n - 1) + [rows[n - 1]]
  }

  function Drop(t: Traffic, gone: set<nat>): Traffic {
    Traffic(t.totals - gone, Without(t.daily, gone, |t.daily|))
  }

  function CountOf(t: Traffic, port: nat): Count {
    if port in t.totals then t.totals[port].count else ZERO
  }

  function Usage(t: Traffic, port: nat): nat {
    CountOf(t, port).sent + CountOf(t, port).received
  }

  lemma {:induction false} WithoutTwice(rows: seq<Daily>, a: set<nat>, b: set<nat>, n: nat)
    requires n <= |rows|
    ensures var once := Without(rows, a, n); Without(once, b, |once|) == Without(rows, a + b, n)
  {
    if n > 0 {
      WithoutTwice(rows, a, b, n - 1);
      var once := Without(rows, a, n - 1);
      if rows[n - 1].port !in a { WithoutAppended(once, rows[n - 1], b, Without(rows, a, n), |once|); }
    }
  }

  lemma {:induction false} WithoutAppended(rows: seq<Daily>, row: Daily, gone: set<nat>, after: seq<Daily>, n: nat)
    requires after == rows + [row] && n <= |rows|
    ensures Without(after, gone, n) == Without(rows, gone, n)
    ensures n == |rows| ==>
      Without(after, gone, n + 1) == if row.port in gone then Without(rows, gone, n) else Without(rows, gone, n) + [row]
  {
    if n > 0 { WithoutAppended(rows, row, gone, after, n - 1); }
  }

  /** Deleting ports one by one or together is the same. */
  lemma DropTwice(t: Traffic, a: set<nat>, b: set<nat>)
    ensures Drop(Drop(t, a), b) == Drop(t, a + b)
  {
    WithoutTwice(t.daily, a, b, |t.daily|);
  }

  // ---- Conservation ----

  function SumOf(rows: seq<Daily>, port: nat, n: nat): Count
    requires n <= |rows|
  {
    if n == 0 then ZERO
    else SumOf(rows, port, n - 1).Plus(if rows[n - 1].port == port then rows[n - 1].count else ZERO)
  }

  /** Each port's totals are the sum of its days. */
  ghost predicate Conserved(t: Traffic) {
    forall port :: CountOf(t, port) == SumOf(t.daily, port, |t.daily|)
  }

  lemma {:induction false} SumOfUpdated(rows: seq<Daily>, k: nat, d: Count, p: nat, n: nat)
    requires k < |rows| && n <= |rows|
    ensures SumOf(rows[k := rows[k].(count := rows[k].count.Plus(d))], p, n)
         == if k < n && rows[k].port == p then SumOf(rows, p, n).Plus(d) else SumOf(rows, p, n)
  {
    if n > 0 { SumOfUpdated(rows, k, d, p, n - 1); }
  }

  lemma {:induction false} SumOfPrefix(rows: seq<Daily>, row: Daily, p: nat, n: nat)
    requires n <= |rows|
    ensures SumOf(rows + [row], p, n) == SumOf(rows, p, n)
  {
    if n > 0 { SumOfPrefix(rows, row, p, n - 1); }
  }

  lemma SumOfAppended(rows: seq<Daily>, row: Daily, p: nat, after: seq<Daily>)
    requires after == rows + [row]
    ensures SumOf(after, p, |after|) == SumOf(rows, p, |rows|).Plus(if row.port == p then row.count else ZERO)
  {
    SumOfPrefix(rows, row, p, |rows|);
  }

  lemma SumAfterAdd(rows: seq<Daily>, port: nat, date: nat, d: Count, p: nat)
    ensures var after := AddDaily(rows, port, date, d);
      SumOf(after, p, |after|) == if p == port then SumOf(rows, p, |rows|).Plus(d) else SumOf(rows, p, |rows|)
  {
    var k := DayAt(rows, port, date, 0);
    if k < |rows| { SumOfUpdated(rows, k, d, p, |rows|); } else { SumOfPrefix(rows, Daily(port, date, d), p, |rows|); }
  }

  lemma {:induction false} SumAfterZero(rows: seq<Daily>, port: nat, p: nat, n: nat)
    requires n <= |rows|
    ensures var before := SumOf(rows, p, n);
      SumOf(ZeroBytes(rows, port), p, n) == if p == port then Count(before.connections, 0, 0) else before
  {
    if n > 0 { SumAfterZero(rows, port, p, n - 1); }
  }

  lemma {:induction false} SumWithout(rows: seq<Daily>, gone: set<nat>, p: nat, n: nat)
    requires n <= |rows|
    ensures var rest := Without(rows, gone, n);
      SumOf(rest, p, |rest|) == if p in gone then ZERO else SumOf(rows, p, n)
  {
    if n > 0 {
      SumWithout(rows, gone, p, n - 1);
      var rest := Without(rows, gone, n - 1);
      if rows[n - 1].port !in gone { SumOfAppended(rest, rows[n - 1], p, Without(rows, gone, n)); }
    }
  }

  lemma AddConserves(t: Traffic, port: nat, date: nat, d: Count, seen: Option<nat>)
    requires Conserved(t)
    ensures Conserved(Add(t, port, date, d, seen))
  {
    var after := Add(t, port, date, d, seen);
    forall p ensures CountOf(after, p) == SumOf(after.daily, p, |after.daily|) {
      SumAfterAdd(t.daily, port, date, d, p);
      assert CountOf(t, p) == SumOf(t.daily, p, |t.daily|);
    }
  }

  lemma ResetConserves(t: Traffic, port: nat)
    requires Conserved(t)
    ensures Conserved(ResetUsage(t, port)) && Usage(ResetUsage(t, port), port) == 0
  {
    forall p ensures CountOf(ResetUsage(t, port), p) == SumOf(ResetUsage(t, port).daily, p, |t.daily|) {
      SumAfterZero(t.daily, port, p, |t.daily|);
      assert CountOf(t, p) == SumOf(t.daily, p, |t.daily|);
    }
  }

  lemma DropConserves(t: Traffic, gone: set<nat>)
    requires Conserved(t)
    ensures Conserved(Drop(t, gone))
  {
    forall p ensures CountOf(Drop(t, gone), p) == SumOf(Drop(t, gone).daily, p, |Drop(t, gone).daily|) {
      SumWithout(t.daily, gone, p, |t.daily|);
      assert CountOf(t, p) == SumOf(t.daily, p, |t.daily|);
    }
  }

  lemma {:induction false} LinesConserve(t: Traffic, lines: seq<Option<Hit>>, n: nat)
    requires Conserved(t) && n <= |lines|
    ensures Conserved(SyncLines(t, lines, n))
  {
    if n > 0 {
      LinesConserve(t, lines, n - 1);
      if lines[n - 1].Some? {
        var h := lines[n - 1].value;
        AddConserves(SyncLines(t, lines, n - 1), h.port, h.seen / DAY, Count(1, 0, 0), Some(h.seen));
      }
    }
  }

  lemma {:induction false} StatsConserve(t: Traffic, stats: seq<Stat>, n: nat, now: nat)
    requires Conserved(t) && n <= |stats|
    ensures Conserved(SyncStats(t, stats, n, now))
  {
    if n > 0 {
      StatsConserve(t, stats, n - 1, now);
      var s := stats[n - 1];
      AddConserves(SyncStats(t, stats, n - 1, now), s.port, now / DAY, Count(0, s.sent, s.received),
                   if s.sent > 0 || s.received > 0 then Some(now) else None);
    }
  }

  method SyncTrafficStats(t: Traffic, stats: seq<Stat>, now: nat) returns (t': Traffic)
    ensures t' == SyncStats(t, stats, |stats|, now)
  {
    t' := t;
    for i := 0 to |stats|
      invariant t' == SyncStats(t, stats, i, now)
    {
      t' := SyncStat(t', stats[i], now);
    }
  }

  // ---- Whole runs ----

  datatype Step =
    | Log(lines: seq<Option<Hit>>)
    | Stats(stats: seq<Stat>, now: nat)
    | Reset(port: nat)
    | Delete(port: nat)

  function Next(t: Traffic, step: Step): Traffic {
    match step
    case Log(lines) => SyncLines(t, lines, |lines|)
    case Stats(stats, now) => SyncStats(t, stats, |stats|, now)
    case Reset(port) => ResetUsage(t, port)
    case Delete(port) => Drop(t, {port})
  }

  function Run(steps: seq<Step>, n: nat): Traffic
    requires n <= |steps|
  {
    if n == 0 then Traffic(map[], []) else Next(Run(steps, n - 1), steps[n - 1])
  }

  lemma StepConserves(t: Traffic, step: Step)
    requires Conserved(t)
    ensures Conserved(Next(t, step))
  {
    match step
    case Log(lines) => LinesConserve(t, lines, |lines|);
    case Stats(stats, now) => StatsConserve(t, stats, |stats|, now);
    case Reset(port) => ResetConserves(t, port);
    case Delete(port) => DropConserves(t, {port});
  }

  /** From empty tables on, every port's totals stay the sum of its daily rows in all three counters. */
  lemma {:induction false} RunConserves(steps: seq<Step>, n: nat)
    requires n <= |steps|
    ensures Conserved(Run(steps, n))
  {
    if n > 0 {
      RunConserves(steps, n - 1);
      StepConserves(Run(steps, n - 1), steps[n - 1]);
    }
  }
}
