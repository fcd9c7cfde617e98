/** The arithmetic behind the report rules: counter growth with resets, failing runs, coverage. */
module Rules {
  import opened Wrappers

  // ---- Counter growth ----

  /** What one pair of samples adds; a smaller value means the counter was reset in between. */
  function Growth(previous: real, value: real): real {
    if value >= previous then value - previous else value
  }

  /** The growth from sample `i` to sample `j`. */
  function Increase(values: seq<real>, i: nat, j: nat): real
    requires i <= j < |values|
  {
    if i == j then 0.0 else Increase(values, i, j - 1) + Growth(values[j - 1], values[j])
  }

  function Resets(values: seq<real>, i: nat, j: nat): nat
    requires i <= j < |values|
  {
    if i == j then 0 else Resets(values, i, j - 1) + if values[j] < values[j - 1] then 1 else 0
  }

  /** The sum of the values just before a reset. */
  function LostAtResets(values: seq<real>, i: nat, j: nat): real
    requires i <= j < |values|
  {
    if i == j then 0.0 else LostAtResets(values, i, j - 1) + if values[j] < values[j - 1] then values[j - 1] else 0.0
  }

  /** The loop of `_counter_increase_with_resets`, before its final rounding. */
  method CounterIncreaseWithResets(values: seq<real>) returns (total: real, resets: nat)
    ensures values == [] ==> total == 0.0 && resets == 0
    ensures values != [] ==> total == Increase(values, 0, |values| - 1) && resets == Resets(values, 0, |values| - 1)
  {
    total, resets := 0.0, 0;
    var previous: Option<real> := None;
    for k := 0 to |values|
      invariant k == 0 ==> previous == None && total == 0.0 && resets == 0
      invariant k > 0 ==>
        previous == Some(values[k - 1]) && total == Increase(values, 0, k - 1) && resets == Resets(values, 0, k - 1)
    {
      var value := values[k];
      if previous.Some? {
        if value >= previous.value {
          total := total + (value - previous.value);
        } else {
          resets := resets + 1;
          total := total + value;
        }
      }
      previous := Some(value);
    }
  }

  predicate IsDrop(values: seq<real>, k: nat)
    requires 0 < k < |values|
  {
    values[k] < values[k - 1]
  }

  /** The samples that are smaller than the one before them. */
  function Drops(values: seq<real>, i: nat, j: nat): set<nat>
    requires i <= j < |values|
  {
    set k: nat | i < k <= j && IsDrop(values, k)
  }

  /** Each drop counts as one reset. */
  lemma {:induction false} ResetsAreDrops(values: seq<real>, i: nat, j: nat)
    requires i <= j < |values|
    ensures Resets(values, i, j) == |Drops(values, i, j)|
  {
    if i == j {
      assert Drops(values, i, j) == {};
    } else {
      ResetsAreDrops(values, i, j - 1);
      var before := Drops(values, i, j - 1);
      assert Drops(values, i, j) == if values[j] < values[j - 1] then before + {j} else before;
    }
  }

  /** The increase is last minus first plus what each reset wiped out. */
  lemma {:induction false} IncreaseIsGrowthPlusLosses(values: seq<real>, i: nat, j: nat)
    requires i <= j < |values|
    ensures Increase(values, i, j) == values[j] - values[i] + LostAtResets(values, i, j)
  {
    if i < j { IncreaseIsGrowthPlusLosses(values, i, j - 1); }
  }

  /** Splitting a trace at a shared sample splits its increase. */
  lemma {:induction false} IncreaseIsAdditive(values: seq<real>, i: nat, k: nat, j: nat)
    requires i <= k <= j < |values|
    ensures Increase(values, i, j) == Increase(values, i, k) + Increase(values, k, j)
    decreases j
  {
    if k < j { IncreaseIsAdditive(values, i, k, j - 1); }
  }

  ghost predicate NonNegative(values: seq<real>) {
    forall k :: 0 <= k < |values| ==> values[k] >= 0.0
  }

  /** Seeing more samples in between never shows less growth. */
  lemma {:induction false} SkippingLosesGrowth(values: seq<real>, i: nat, j: nat)
    requires i < j < |values| && NonNegative(values)
    ensures 0.0 <= Growth(values[i], values[j]) <= Increase(values, i, j)
  {
    if i + 1 < j {
      SkippingLosesGrowth(values, i, j - 1);
    } else {
      assert Increase(values, i, i) == 0.0;
    }
  }

  /** `at` picks samples of a finer trace, in order. */
  ghost predicate Picks(values: seq<real>, at: seq<nat>) {
    (forall k :: 0 <= k < |at| ==> at[k] < |values|) && forall k, l :: 0 <= k < l < |at| ==> at[k] < at[l]
  }

  function Sampled(values: seq<real>, at: seq<nat>): (r: seq<real>)
    requires forall k :: 0 <= k < |at| ==> at[k] < |values|
    ensures |r| == |at| && forall k :: 0 <= k < |at| ==> r[k] == values[at[k]]
  {
    seq(|at|, k requires 0 <= k < |at| => values[at[k]])
  }

  /** Sampled growth is a sound lower bound of the growth measured at any finer sampling. */
  lemma {:induction false} SampledGrowthIsLowerBound(values: seq<real>, at: seq<nat>, n: nat)
    requires NonNegative(values) && Picks(values, at) && n < |at|
    ensures at[0] <= at[n] && Increase(Sampled(values, at), 0, n) <= Increase(values, at[0], at[n])
  {
    if n > 0 {
      SampledGrowthIsLowerBound(values, at, n - 1);
      SkippingLosesGrowth(values, at[n - 1], at[n]);
      IncreaseIsAdditive(values, at[0], at[n - 1], at[n]);
    }
  }

  /** The same over whole traces: samples before the first and after the last only add growth. */
  lemma SampledTotalIsLowerBound(values: seq<real>, at: seq<nat>)
    requires NonNegative(values) && Picks(values, at) && at != [] && values != []
    ensures Increase(Sampled(values, at), 0, |at| - 1) <= Increase(values, 0, |values| - 1)
  {
    SampledGrowthIsLowerBound(values, at, |at| - 1);
    PartOfGrowth(values, at[0], at[|at| - 1], |values| - 1);
  }

  lemma PartOfGrowth(values: seq<real>, i: nat, j: nat, end: nat)
    requires NonNegative(values) && i <= j <= end < |values|
    ensures Increase(values, i, j) <= Increase(values, 0, end)
  {
    IncreaseIsAdditive(values, 0, i, end);
    IncreaseIsAdditive(values, i, j, end);
    if 0 < i { SkippingLosesGrowth(values, 0, i); }
    if j < end { SkippingLosesGrowth(values, j, end); }
  }

  // ---- Failing runs ----

  const SCRAPE_STEP: int := 30000   // milliseconds
  const MAX_GAP: int := 45000

  datatype Sample = Sample(time: int, value: real)

  datatype Interval = Interval(start: int, end: int, samples: nat)

  predicate Fails(s: Sample) {
    s.value < 0.5
  }

  /** Samples `k - 1` and `k` belong to one failing run. */
  predicate Joined(points: seq<Sample>, k: nat)
    requires 0 < k < |points|
  {
    Fails(points[k - 1]) && Fails(points[k]) && points[k].time - points[k - 1].time <= 45000
  }

  datatype Block = Block(first: nat, end: nat)

  /** A run of failing samples without a longer gap, which cannot be extended on either side. */
  predicate Maximal(points: seq<Sample>, b: Block) {
    && b.first < b.end <= |points|
    && (forall k :: b.first <= k < b.end ==> Fails(points[k]))
    && (forall k :: b.first < k < b.end ==> Joined(points, k))
    && (b.first == 0 || !Joined(points, b.first)) && (b.end == |points| || !Joined(points, b.end))
  }

  /** `blocks` are, in order, exactly the maximal failing runs of at least `minSamples` that end by `n`. */
  ghost predicate Found(points: seq<Sample>, minSamples: nat, n: nat, blocks: seq<Block>) {
    && (forall k :: 0 <= k < |blocks| ==>
          Maximal(points, blocks[k]) && blocks[k].end <= n && blocks[k].end - blocks[k].first >= minSamples)
    && (forall k, l :: 0 <= k < l < |blocks| ==> blocks[k].end <= blocks[l].first)
    && (forall b :: Maximal(points, b) && b.end <= n && b.end - b.first >= minSamples ==> b in blocks)
  }

  /** Two maximal runs are the same or have no sample in common. */
  lemma MaximalRunsAreDisjoint(points: seq<Sample>, a: Block, b: Block)
    requires Maximal(points, a) && Maximal(points, b) && a.first < b.end && b.first < a.end
    ensures a == b
  {
  }

  ghost predicate Matches(points: seq<Sample>, blocks: seq<Block>, result: seq<Interval>) {
    |result| == |blocks| && forall k :: 0 <= k < |blocks| ==>
      && blocks[k].first < blocks[k].end <= |points|
      && result[k].start == points[blocks[k].first].time && result[k].end == points[blocks[k].end - 1].time + 30000
      && result[k].samples == blocks[k].end - blocks[k].first
  }

  /** The run that is open before sample `n`: it starts at `from`, and everything that ended before is found. */
  ghost predicate Scanned(points: seq<Sample>, minSamples: nat, n: nat, from: nat, blocks: seq<Block>) {
    && from <= n <= |points|
    && (forall k :: from <= k < n ==> Fails(points[k])) && (forall k :: from < k < n ==> Joined(points, k))
    && (from < n && from > 0 ==> !Joined(points, from)) && (from == n && n > 0 ==> !Fails(points[n - 1]))
    && Found(points, minSamples, from, blocks)
  }

  /** Closing the open run at `n`, where it cannot be extended. */
  lemma CloseRun(points: seq<Sample>, minSamples: nat, n: nat, from: nat, blocks: seq<Block>, blocks': seq<Block>)
    requires Scanned(points, minSamples, n, from, blocks) && minSamples > 0
    requires from < n ==> n == |points| || !Joined(points, n)
    requires blocks' == if n - from >= minSamples then blocks + [Block(from, n)] else blocks
    ensures Found(points, minSamples, n, blocks')
  {
    forall b | Maximal(points, b) && b.end <= n ensures b.end <= from || b == Block(from, n) {
      if b.end > from { OpenRunIsLast(points, minSamples, n, from, blocks, b); }
    }
    if n - from >= minSamples { AppendFound(points, minSamples, n, from, blocks); }
  }

  /** The open run is the next one found. */
  lemma AppendFound(points: seq<Sample>, minSamples: nat, n: nat, from: nat, blocks: seq<Block>)
    requires Found(points, minSamples, from, blocks) && Maximal(points, Block(from, n)) && n - from >= minSamples
    requires forall b :: Maximal(points, b) && b.end <= n ==> b.end <= from || b == Block(from, n)
    ensures Found(points, minSamples, n, blocks + [Block(from, n)])
  {
  }

  /** A maximal run that ends behind the start of the open run is the open run. */
  lemma OpenRunIsLast(points: seq<Sample>, minSamples: nat, n: nat, from: nat, blocks: seq<Block>, b: Block)
    requires Scanned(points, minSamples, n, from, blocks) && (from < n ==> n == |points| || !Joined(points, n))
    requires Maximal(points, b) && from < b.end <= n
    ensures b == Block(from, n)
  {
    assert Fails(points[b.end - 1]);
    assert Maximal(points, Block(from, n));
    MaximalRunsAreDisjoint(points, b, Block(from, n));
  }

  ghost predicate Collects(points: seq<Sample>, from: nat, n: nat, current: seq<int>) {
    && from <= n <= |points| && |current| == n - from
    && forall k :: 0 <= k < |current| ==> current[k] == points[from + k].time
  }

  /** Emit the open run if it is long enough. */
  method Flush(points: seq<Sample>, minSamples: nat, n: nat, current: seq<int>, before: seq<Interval>,
               ghost from: nat, ghost found: seq<Block>)
    returns (result: seq<Interval>, ghost blocks: seq<Block>)
    requires Scanned(points, minSamples, n, from, found) && minSamples > 0 && Collects(points, from, n, current)
    requires from < n ==> n == |points| || !Joined(points, n)
    requires Matches(points, found, before)
    ensures Found(points, minSamples, n, blocks) && Matches(points, blocks, result)
  {
    result, blocks := before, found;
    if |current| >= minSamples {
      var interval := Interval(current[0], current[|current| - 1] + SCRAPE_STEP, |current|);
      OneMoreMatch(points, found, before, Block(from, n), interval);
      result := result + [interval];
      blocks := blocks + [Block(from, n)];
    }
    CloseRun(points, minSamples, n, from, found, blocks);
  }

  lemma OneMoreMatch(points: seq<Sample>, blocks: seq<Block>, result: seq<Interval>, b: Block, interval: Interval)
    requires Matches(points, blocks, result) && b.first < b.end <= |points|
    requires interval == Interval(points[b.first].time, points[b.end - 1].time + 30000, b.end - b.first)
    ensures Matches(points, blocks + [b], result + [interval])
  {
  }

  /** `_intervals`: one pass that keeps the times of the open run. */
  method Intervals(points: seq<Sample>, minSamples: nat) returns (result: seq<Interval>)
    requires minSamples > 0
    ensures exists blocks :: Found(points, minSamples, |points|, blocks) && Matches(points, blocks, result)
  {
    result := [];
    ghost var blocks: seq<Block> := [];
    var current: seq<int> := [];
    ghost var from := 0;
    for n := 0 to |points|
      invariant Scanned(points, minSamples, n, from, blocks) && Matches(points, blocks, result)
      invariant Collects(points, from, n, current)
    {
      var t := points[n].time;
      if Fails(points[n]) && (current == [] || t - current[|current| - 1] <= MAX_GAP) {
        current := current + [t];
      } else {
        result, blocks := Flush(points, minSamples, n, current, result, from, blocks);
        current := [];
        if Fails(points[n]) {
          current := [t];
          from := n;
        } else {
          NothingEndsAt(points, minSamples, n, blocks);
          from := n + 1;
        }
      }
    }
    result, blocks := Flush(points, minSamples, |points|, current, result, from, blocks);
  }

  /** No run ends behind a sample that does not fail. */
  lemma NothingEndsAt(points: seq<Sample>, minSamples: nat, n: nat, blocks: seq<Block>)
    requires n < |points| && !Fails(points[n]) && Found(points, minSamples, n, blocks)
    ensures Found(points, minSamples, n + 1, blocks)
  {
    forall b | Maximal(points, b) && b.end <= n + 1 && b.end - b.first >= minSamples ensures b in blocks { }
  }

  function RunStart(points: seq<Sample>, k: nat): (i: nat)
    requires k < |points| && Fails(points[k])
    ensures i <= k && (i == 0 || !Joined(points, i)) && forall l :: i < l <= k ==> Joined(points, l)
    ensures forall l :: i <= l <= k ==> Fails(points[l])
  {
    if k == 0 || !Joined(points, k) then k else RunStart(points, k - 1)
  }

  function RunEnd(points: seq<Sample>, k: nat): (j: nat)
    requires k < |points| && Fails(points[k])
    ensures k < j <= |points| && (j == |points| || !Joined(points, j)) && forall l :: k < l < j ==> Joined(points, l)
    ensures forall l :: k <= l < j ==> Fails(points[l])
    decreases |points| - k
  {
    if k + 1 == |points| || !Joined(points, k + 1) then k + 1 else RunEnd(points, k + 1)
  }

  /** No run of two is found exactly when no two neighbouring samples fail within the gap. */
  lemma NoRunIffNoPair(points: seq<Sample>, blocks: seq<Block>)
    requires Found(points, 2, |points|, blocks)
    ensures blocks == [] <==> forall k :: 0 < k < |points| ==> !Joined(points, k)
  {
    forall k | 0 < k < |points| && Joined(points, k) ensures blocks != [] {
      var b := Block(RunStart(points, k), RunEnd(points, k));
      assert Maximal(points, b);
      assert b in blocks;
    }
    if blocks != [] { assert Joined(points, blocks[0].first + 1); }
  }

  // ---- Coverage and the verdict ----

  function Stamps(points: seq<Sample>, start: int, end: int): set<int> {
    set k | 0 <= k < |points| && start <= points[k].time < end :: points[k].time / 1000
  }

  /** Distinct seconds with a sample, over the number of scrapes the window should hold. */
  function Coverage(points: seq<Sample>, start: int, end: int): real
    requires start <= end
  {
    var scrapes := (end - start) / SCRAPE_STEP;
    var expected := if scrapes < 1 then 1 else scrapes;
    var ratio := |Stamps(points, start, end)| as real / expected as real;
    if ratio < 1.0 then ratio else 1.0
  }

  /** The samples of the window, in order. */
  function Inside(points: seq<Sample>, start: int, end: int, n: nat): seq<Sample>
    requires n <= |points|
  {
    if n == 0 then []
    else if start <= points[n - 1].time < end then Inside(points, start, end, n - 1) + [points[n - 1]]
    else Inside(points, start, end, n - 1)
  }

  predicate AllUp(points: seq<Sample>, start: int, end: int) {
    forall k :: 0 <= k < |points| && start <= points[k].time < end ==> points[k].value >= 0.5
  }

  const MIN_COVERAGE := 0.9

  datatype Role = NormalDataPlane | AiDataPlane

  /** A sample of the failover target; `primary` says whether its label names the primary. */
  datatype TargetSample = TargetSample(time: int, value: real, primary: bool)

  /** An entry of the routing history; its time may be missing, its status is taken in lower case. */
  datatype RouteEvent = RouteEvent(time: Option<int>, fallback: bool, status: string)

  const CORRELATION_WINDOW: int := 300   // seconds

  predicate Near(time: int, other: int) {
    -CORRELATION_WINDOW <= time / 1000 - other / 1000 <= CORRELATION_WINDOW
  }

  /** A failed health probe close to the given time. */
  predicate Unhealthy(health: seq<Sample>, time: int) {
    exists j :: 0 <= j < |health| && Fails(health[j]) && Near(time, health[j].time)
  }

  predicate ShowsFailover(t: TargetSample, health: seq<Sample>, start: int, end: int) {
    start <= t.time < end && t.value >= 0.5 && !t.primary && Unhealthy(health, t.time)
  }

  predicate ShowsFallback(e: RouteEvent, start: int, end: int) {
    && e.time.Some? && start <= e.time.value < end
    && (e.fallback || e.status in {"fallback", "fallback_to_primary", "failed", "unreachable"})
  }

  /** In the window the record led away from the primary while a health probe close by failed. */
  ghost predicate FailoverSeen(targets: seq<TargetSample>, health: seq<Sample>, start: int, end: int, n: nat)
    requires n <= |targets|
  {
    exists k :: 0 <= k < n && ShowsFailover(targets[k], health, start, end)
  }

  ghost predicate FallbackSeen(events: seq<RouteEvent>, start: int, end: int, n: nat)
    requires n <= |events|
  {
    exists k :: 0 <= k < n && ShowsFallback(events[k], start, end)
  }

  method FindFailover(targets: seq<TargetSample>, health: seq<Sample>, start: int, end: int) returns (seen: bool)
    ensures seen <==> FailoverSeen(targets, health, start, end, |targets|)
  {
    for k := 0 to |targets|
      invariant !FailoverSeen(targets, health, start, end, k)
    {
      if ShowsFailover(targets[k], health, start, end) {
        return true;
      }
    }
    seen := false;
  }

  method FindFallback(events: seq<RouteEvent>, start: int, end: int) returns (seen: bool)
    ensures seen <==> FallbackSeen(events, start, end, |events|)
  {
    seen := false;
    for k := 0 to |events|
      invariant seen <==> FallbackSeen(events, start, end, k)
    {
      if ShowsFallback(events[k], start, end) {
        seen := true;
      }
    }
  }

  /** What counts as a fault of the node itself: two neighbouring samples that show it down. */
  ghost predicate DownSeen(running: seq<Sample>, start: int, end: int) {
    var inside := Inside(running, start, end, |running|);
    exists k :: 0 < k < |inside| && Joined(inside, k)
  }

  method FindDown(running: seq<Sample>, start: int, end: int) returns (seen: bool)
    ensures seen <==> DownSeen(running, start, end)
  {
    var inside: seq<Sample> := [];
    for n := 0 to |running|
      invariant inside == Inside(running, start, end, n)
    {
      if start <= running[n].time < end {
        inside := inside + [running[n]];
      }
    }
    var down := Intervals(inside, 2);
    ghost var blocks :| Found(inside, 2, |inside|, blocks) && Matches(inside, blocks, down);
    NoRunIffNoPair(inside, blocks);
    seen := down != [];
  }

  datatype Verdict = Normal | Fault | Unknown

  // ---- What the verdict means, in milliseconds and numbers ----

  /** Two failing samples of the window, with no other sample of it between them, at most 45 seconds apart. */
  ghost predicate DownAt(running: seq<Sample>, start: int, end: int, i: nat, j: nat) {
    && i < j < |running| && start <= running[i].time < end && start <= running[j].time < end
    && running[i].value < 0.5 && running[j].value < 0.5 && running[j].time - running[i].time <= 45000
    && forall k :: i < k < j ==> !(start <= running[k].time < end)
  }

  ghost predicate Down(running: seq<Sample>, start: int, end: int) {
    exists i: nat, j: nat :: DownAt(running, start, end, i, j)
  }

  /** The record led away from the primary within 300 seconds of a failing health probe. */
  ghost predicate LedAway(targets: seq<TargetSample>, health: seq<Sample>, start: int, end: int) {
    exists k, j ::
      && 0 <= k < |targets| && 0 <= j < |health| && start <= targets[k].time < end
      && targets[k].value >= 0.5 && !targets[k].primary && health[j].value < 0.5
      && -300 <= targets[k].time / 1000 - health[j].time / 1000 <= 300
  }

  /** The routing history of the window has a fallback, by its flag or by its status. */
  ghost predicate FellBack(events: seq<RouteEvent>, start: int, end: int) {
    exists k ::
      && 0 <= k < |events| && events[k].time.Some? && start <= events[k].time.value < end
      && (|| events[k].fallback || events[k].status == "fallback" || events[k].status == "fallback_to_primary"
          || events[k].status == "failed" || events[k].status == "unreachable")
  }

  /** The different seconds in which the window holds a sample. */
  ghost function SecondsSeen(points: seq<Sample>, start: int, end: int): set<int> {
    set p | p in points && start <= p.time && p.time < end :: p.time / 1000
  }

  /** At least nine tenths of the scrapes that are due every 30 seconds, and at least one. */
  ghost predicate WellCovered(points: seq<Sample>, start: int, end: int) {
    var due := (end - start) / 30000;
    10 * |SecondsSeen(points, start, end)| >= 9 * if due >= 1 then due else 1
  }

  /** Every sample of the window is up. */
  ghost predicate NeverDown(points: seq<Sample>, start: int, end: int) {
    forall p :: p in points && start <= p.time < end ==> p.value >= 0.5
  }

  lemma CoveredExactly(points: seq<Sample>, start: int, end: int)
    requires start <= end
    ensures Coverage(points, start, end) >= MIN_COVERAGE <==> WellCovered(points, start, end)
  {
    var seen := Stamps(points, start, end);
    assert seen == SecondsSeen(points, start, end) by {
      forall s | s in seen ensures s in SecondsSeen(points, start, end) {
        var k :| 0 <= k < |points| && start <= points[k].time < end && points[k].time / 1000 == s;
        assert points[k] in points;
      }
    }
    var scrapes := (end - start) / SCRAPE_STEP;
    NineTenths(|seen|, if scrapes < 1 then 1 else scrapes);
  }

  lemma NineTenths(n: nat, m: nat)
    requires m > 0
    ensures (if n as real / m as real < 1.0 then n as real / m as real else 1.0) >= 0.9 <==> 10 * n >= 9 * m
  {
    Scaled(n as real / m as real, 0.9, n as real, m as real);
  }

  lemma Scaled(q: real, r: real, x: real, y: real)
    requires y > 0.0 && q == x / y
    ensures q >= r <==> x >= r * y
  {
    assert q * y == x;
    if q >= r { Monotone(r, q, y); } else { StrictlyMonotone(q, r, y); }
  }

  lemma Monotone(a: real, b: real, y: real)
    requires a <= b && y > 0.0
    ensures a * y <= b * y
  {
    assert (b - a) * y >= 0.0;
  }

  lemma StrictlyMonotone(a: real, b: real, y: real)
    requires a < b && y > 0.0
    ensures a * y < b * y
  {
    assert (b - a) * y > 0.0;
  }

  lemma {:induction false} InsideAt(points: seq<Sample>, start: int, end: int, n: nat, k: nat) returns (i: nat)
    requires n <= |points| && k < |Inside(points, start, end, n)|
    ensures i < n && points[i] == Inside(points, start, end, n)[k] && start <= points[i].time < end
    ensures Inside(points, start, end, i) == Inside(points, start, end, n)[..k]
  {
    if k < |Inside(points, start, end, n - 1)| {
      i := InsideAt(points, start, end, n - 1, k);
    } else {
      i := n - 1;
    }
  }

  lemma {:induction false} InsideGrows(points: seq<Sample>, start: int, end: int, i: nat, j: nat)
    requires i <= j <= |points|
    ensures Inside(points, start, end, i) <= Inside(points, start, end, j)
  {
    if i < j { InsideGrows(points, start, end, i, j - 1); }
  }

  lemma {:induction false} NothingBetween(points: seq<Sample>, start: int, end: int, i: nat, j: nat)
    requires i <= j <= |points|
    ensures Inside(points, start, end, i) <= Inside(points, start, end, j)
    ensures |Inside(points, start, end, i)| == |Inside(points, start, end, j)|
       <==> forall k :: i <= k < j ==> !(start <= points[k].time < end)
  {
    InsideGrows(points, start, end, i, j);
    if i < j {
      NothingBetween(points, start, end, i, j - 1);
      InsideGrows(points, start, end, i, j - 1);
    }
  }

  lemma SeenIsDown(running: seq<Sample>, start: int, end: int, inside: seq<Sample>, k: nat)
    requires inside == Inside(running, start, end, |running|) && 0 < k < |inside| && Joined(inside, k)
    ensures Down(running, start, end)
  {
    var j := InsideAt(running, start, end, |running|, k);
    var before := Inside(running, start, end, j);
    assert before == inside[..k] && before[k - 1] == inside[k - 1];
    var i := LastInside(running, start, end, j, before);
    assert DownAt(running, start, end, i, j);
  }

  lemma LastInside(points: seq<Sample>, start: int, end: int, n: nat, inside: seq<Sample>) returns (i: nat)
    requires n <= |points| && inside == Inside(points, start, end, n) && inside != []
    ensures i < n && points[i] == inside[|inside| - 1] && start <= points[i].time < end
    ensures forall k :: i < k < n ==> !(start <= points[k].time < end)
  {
    i := InsideAt(points, start, end, n, |inside| - 1);
    assert Inside(points, start, end, i + 1) == inside;
    NothingBetween(points, start, end, i + 1, n);
  }

  lemma DownIsSeen(running: seq<Sample>, start: int, end: int, i: nat, j: nat)
    requires DownAt(running, start, end, i, j)
    ensures DownSeen(running, start, end)
  {
    var inside, k := Inside(running, start, end, |running|), |Inside(running, start, end, j)|;
    NothingBetween(running, start, end, i + 1, j);
    NothingBetween(running, start, end, j + 1, |running|);
    assert Inside(running, start, end, j + 1) == Inside(running, start, end, j) + [running[j]];
    assert inside[k] == running[j] && inside[k - 1] == running[i];
    assert Joined(inside, k);
  }

  lemma DownExactly(running: seq<Sample>, start: int, end: int)
    ensures DownSeen(running, start, end) <==> Down(running, start, end)
  {
    if DownSeen(running, start, end) {
      var inside := Inside(running, start, end, |running|);
      var k :| 0 < k < |inside| && Joined(inside, k);
      SeenIsDown(running, start, end, inside, k);
    }
    if Down(running, start, end) {
      var i: nat, j: nat :| DownAt(running, start, end, i, j);
      DownIsSeen(running, start, end, i, j);
    }
  }

  lemma LedAwayExactly(targets: seq<TargetSample>, health: seq<Sample>, start: int, end: int)
    ensures FailoverSeen(targets, health, start, end, |targets|) <==> LedAway(targets, health, start, end)
  {
    if LedAway(targets, health, start, end) {
      var k, j :|
        && 0 <= k < |targets| && 0 <= j < |health| && start <= targets[k].time < end
        && targets[k].value >= 0.5 && !targets[k].primary && health[j].value < 0.5
        && -300 <= targets[k].time / 1000 - health[j].time / 1000 <= 300;
      assert Fails(health[j]) && Near(targets[k].time, health[j].time);
      assert ShowsFailover(targets[k], health, start, end);
    }
    if FailoverSeen(targets, health, start, end, |targets|) {
      var k :| 0 <= k < |targets| && ShowsFailover(targets[k], health, start, end);
      var j :| 0 <= j < |health| && Fails(health[j]) && Near(targets[k].time, health[j].time);
      assert -300 <= targets[k].time / 1000 - health[j].time / 1000 <= 300;
    }
  }

  lemma FellBackExactly(events: seq<RouteEvent>, start: int, end: int)
    ensures FallbackSeen(events, start, end, |events|) <==> FellBack(events, start, end)
  {
    forall k | 0 <= k < |events| ensures ShowsFallback(events[k], start, end) <==>
      && events[k].time.Some? && start <= events[k].time.value < end
      && (|| events[k].fallback || events[k].status == "fallback" || events[k].status == "fallback_to_primary"
          || events[k].status == "failed" || events[k].status == "unreachable")
    {
    }
  }

  /**
   The verdict on one node. A fault is seen when the node was down, when DNS led away from a failing primary
   (normal data plane), or when the routing history records a fallback (AI data plane). Without a fault the
   node is normal exactly when both series cover nine tenths of the window and every scrape in it succeeded.
   */
  method Classify(role: Role, running: seq<Sample>, target: seq<Sample>, targets: seq<TargetSample>,
                  health: seq<Sample>, events: seq<RouteEvent>, start: int, end: int)
    returns (verdict: Verdict)
    requires start <= end
    ensures verdict == Fault <==>
      || Down(running, start, end)
      || (role == NormalDataPlane && LedAway(targets, health, start, end))
      || (role == AiDataPlane && FellBack(events, start, end))
    ensures verdict == Normal <==>
      && verdict != Fault && WellCovered(target, start, end) && WellCovered(running, start, end)
      && NeverDown(target, start, end)
  {
    DownExactly(running, start, end);
    LedAwayExactly(targets, health, start, end);
    FellBackExactly(events, start, end);
    CoveredExactly(target, start, end);
    CoveredExactly(running, start, end);
    var targetHealthy := target != [] && AllUp(target, start, end);
    var sparse := Coverage(target, start, end) < MIN_COVERAGE || Coverage(running, start, end) < MIN_COVERAGE;
    var missing := sparse || !targetHealthy;
    var fault := FindDown(running, start, end);
    if role == NormalDataPlane {
      var failover := FindFailover(targets, health, start, end);
      fault := fault || failover;
    }
    if role == AiDataPlane {
      var fallback := FindFallback(events, start, end);
      fault := fault || fallback;
    }
    if target == [] { assert Stamps(target, start, end) == {}; }
    verdict := if !fault && missing then Unknown else if fault then Fault else Normal;
  }
}
