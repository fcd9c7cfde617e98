/** What the traffic tables say after any run, told by the run itself: port by port and day by day. */
module TrafficLedger {
  import opened Wrappers
  import opened TrafficTables

  /** The time lies on the day, a day of 86400 seconds; without one, at any time. */
  predicate On(day: Option<nat>, time: nat) {
    day.None? || 86400 * day.value <= time < 86400 * day.value + 86400
  }

  // ---- The ledger ----

  ghost function HitsBy(lines: seq<Option<Hit>>, port: nat, day: Option<nat>, n: nat): nat
    requires n <= |lines|
  {
    if n == 0 then 0 else
      HitsBy(lines, port, day, n - 1)
      + if lines[n - 1].Some? && lines[n - 1].value.port == port && On(day, lines[n - 1].value.seen) then 1 else 0
  }

  ghost function SentBy(stats: seq<Stat>, port: nat, n: nat): nat
    requires n <= |stats|
  {
    if n == 0 then 0 else SentBy(stats, port, n - 1) + if stats[n - 1].port == port then stats[n - 1].sent else 0
  }

  ghost function ReceivedBy(stats: seq<Stat>, port: nat, n: nat): nat
    requires n <= |stats|
  {
    if n == 0 then 0 else
      ReceivedBy(stats, port, n - 1) + if stats[n - 1].port == port then stats[n - 1].received else 0
  }

  /** What is due to the port after `n` steps: hits since it was deleted last, bytes since it was reset last. */
  ghost function Due(steps: seq<Step>, port: nat, day: Option<nat>, n: nat): Count
    requires n <= |steps|
  {
    if n == 0 then Count(0, 0, 0) else
      var before := Due(steps, port, day, n - 1);
      match steps[n - 1]
      case Log(lines) => before.(connections := before.connections + HitsBy(lines, port, day, |lines|))
      case Stats(stats, now) =>
        if !On(day, now) then before
        else before.(sent := before.sent + SentBy(stats, port, |stats|),
                     received := before.received + ReceivedBy(stats, port, |stats|))
      case Reset(p) => if p == port then before.(sent := 0, received := 0) else before
      case Delete(p) => if p == port then Count(0, 0, 0) else before
  }

  // ---- The tables ----

  /** The counts of the first `n` rows of the port, all of them or those of one day. */
  ghost function Recorded(rows: seq<Daily>, port: nat, day: Option<nat>, n: nat): Count
    requires n <= |rows|
  {
    if n == 0 then Count(0, 0, 0) else
      Recorded(rows, port, day, n - 1)
        .Plus(if rows[n - 1].port == port && (day.None? || rows[n - 1].date == day.value) then rows[n - 1].count
              else Count(0, 0, 0))
  }

  lemma {:induction false} RecordedUpdated(rows: seq<Daily>, k: nat, row: Daily, d: Count, port: nat, day: Option<nat>,
                                           n: nat)
    requires k < |rows| && n <= |rows| && row == rows[k].(count := rows[k].count.Plus(d))
    ensures Recorded(rows[k := row], port, day, n)
         == if k < n && row.port == port && (day.None? || row.date == day.value)
            then Recorded(rows, port, day, n).Plus(d) else Recorded(rows, port, day, n)
  {
    if n > 0 { RecordedUpdated(rows, k, row, d, port, day, n - 1); }
  }

  lemma {:induction false} RecordedPrefix(rows: seq<Daily>, row: Daily, port: nat, day: Option<nat>, n: nat)
    requires n <= |rows|
    ensures Recorded(rows + [row], port, day, n) == Recorded(rows, port, day, n)
  {
    if n > 0 { RecordedPrefix(rows, row, port, day, n - 1); }
  }

  lemma RecordedAppended(rows: seq<Daily>, row: Daily, port: nat, day: Option<nat>, after: seq<Daily>)
    requires after == rows + [row]
    ensures Recorded(after, port, day, |after|)
         == Recorded(rows, port, day, |rows|).Plus(if row.port == port && (day.None? || row.date == day.value)
                                                   then row.count else Count(0, 0, 0))
  {
    RecordedPrefix(rows, row, port, day, |rows|);
  }

  lemma RecordedAfterAdd(rows: seq<Daily>, p: nat, date: nat, d: Count, port: nat, day: Option<nat>)
    ensures var after := AddDaily(rows, p, date, d);
      Recorded(after, port, day, |after|)
      == if p == port && (day.None? || date == day.value) then Recorded(rows, port, day, |rows|).Plus(d)
         else Recorded(rows, port, day, |rows|)
  {
    var k := DayAt(rows, p, date, 0);
    if k < |rows| {
      RecordedUpdated(rows, k, rows[k].(count := rows[k].count.Plus(d)), d, port, day, |rows|);
    } else {
      RecordedAppended(rows, Daily(p, date, d), port, day, rows + [Daily(p, date, d)]);
    }
  }

  lemma {:induction false} RecordedAfterReset(rows: seq<Daily>, p: nat, port: nat, day: Option<nat>, n: nat)
    requires n <= |rows|
    ensures var before := Recorded(rows, port, day, n);
      Recorded(ZeroBytes(rows, p), port, day, n) == if p == port then before.(sent := 0, received := 0) else before
  {
    if n > 0 { RecordedAfterReset(rows, p, port, day, n - 1); }
  }

  lemma {:induction false} RecordedAfterDelete(rows: seq<Daily>, gone: set<nat>, port: nat, day: Option<nat>, n: nat)
    requires n <= |rows|
    ensures var rest := Without(rows, gone, n);
      Recorded(rest, port, day, |rest|) == if port in gone then Count(0, 0, 0) else Recorded(rows, port, day, n)
  {
    if n > 0 {
      RecordedAfterDelete(rows, gone, port, day, n - 1);
      if rows[n - 1].port !in gone {
        RecordedAppended(Without(rows, gone, n - 1), rows[n - 1], port, day, Without(rows, gone, n));
      }
    }
  }

  lemma RecordedAfterLine(t: Traffic, line: Option<Hit>, port: nat, day: Option<nat>)
    ensures var before, after := Recorded(t.daily, port, day, |t.daily|), SyncLine(t, line);
      Recorded(after.daily, port, day, |after.daily|)
      == if line.Some? && line.value.port == port && On(day, line.value.seen)
         then before.(connections := before.connections + 1) else before
  {
    if line.Some? {
      RecordedAfterAdd(t.daily, line.value.port, line.value.seen / 86400, Count(1, 0, 0), port, day);
    }
  }

  lemma {:induction false} RecordedAfterLog(t: Traffic, lines: seq<Option<Hit>>, port: nat, day: Option<nat>, n: nat)
    requires n <= |lines|
    ensures var before, after := Recorded(t.daily, port, day, |t.daily|), SyncLines(t, lines, n);
      Recorded(after.daily, port, day, |after.daily|)
      == before.(connections := before.connections + HitsBy(lines, port, day, n))
  {
    if n > 0 {
      RecordedAfterLog(t, lines, port, day, n - 1);
      RecordedAfterLine(SyncLines(t, lines, n - 1), lines[n - 1], port, day);
    }
  }

  lemma {:induction false} RecordedAfterStats(t: Traffic, stats: seq<Stat>, now: nat, port: nat, day: Option<nat>,
                                              n: nat)
    requires n <= |stats|
    ensures var before, after := Recorded(t.daily, port, day, |t.daily|), SyncStats(t, stats, n, now);
      Recorded(after.daily, port, day, |after.daily|)
      == if !On(day, now) then before
         else before.(sent := before.sent + SentBy(stats, port, n),
                      received := before.received + ReceivedBy(stats, port, n))
  {
    if n > 0 {
      RecordedAfterStats(t, stats, now, port, day, n - 1);
      var s := stats[n - 1];
      var d := Count(0, s.sent, s.received);
      RecordedAfterAdd(SyncStats(t, stats, n - 1, now).daily, s.port, now / 86400, d, port, day);
    }
  }

  lemma {:induction false} RecordedIsSum(rows: seq<Daily>, port: nat, n: nat)
    requires n <= |rows|
    ensures Recorded(rows, port, None, n) == SumOf(rows, port, n)
  {
    if n > 0 { RecordedIsSum(rows, port, n - 1); }
  }

  /**
   After every run the rows of a port for a day hold exactly what is due to it on that day, its totals what is due
   to it at all, and its usage the bytes sent and received.
   */
  lemma {:induction false} TablesShowWhatIsDue(steps: seq<Step>, port: nat, day: nat, n: nat)
    requires n <= |steps|
    ensures var t := Run(steps, n);
      && Recorded(t.daily, port, Some(day), |t.daily|) == Due(steps, port, Some(day), n)
      && CountOf(t, port) == Due(steps, port, None, n)
      && Usage(t, port) == Due(steps, port, None, n).sent + Due(steps, port, None, n).received
  {
    RowsShowWhatIsDue(steps, port, Some(day), n);
    RowsShowWhatIsDue(steps, port, None, n);
    RunConserves(steps, n);
    RecordedIsSum(Run(steps, n).daily, port, |Run(steps, n).daily|);
  }

  lemma {:induction false} RowsShowWhatIsDue(steps: seq<Step>, port: nat, day: Option<nat>, n: nat)
    requires n <= |steps|
    ensures var t := Run(steps, n); Recorded(t.daily, port, day, |t.daily|) == Due(steps, port, day, n)
  {
    if n > 0 {
      RowsShowWhatIsDue(steps, port, day, n - 1);
      var t := Run(steps, n - 1);
      match steps[n - 1]
      case Log(lines) => RecordedAfterLog(t, lines, port, day, |lines|);
      case Stats(stats, now) => RecordedAfterStats(t, stats, now, port, day, |stats|);
      case Reset(p) => RecordedAfterReset(t.daily, p, port, day, |t.daily|);
      case Delete(p) => RecordedAfterDelete(t.daily, {p}, port, day, |t.daily|);
    }
  }

  // ---- One row per port and day ----

  ghost predicate OneRowEach(rows: seq<Daily>) {
    forall i, j :: 0 <= i < j < |rows| ==> rows[i].port != rows[j].port || rows[i].date != rows[j].date
  }

  lemma {:induction false} WithoutIsPart(rows: seq<Daily>, gone: set<nat>, n: nat)
    requires n <= |rows| && OneRowEach(rows)
    ensures OneRowEach(Without(rows, gone, n))
    ensures forall r :: r in Without(rows, gone, n) ==> exists i :: 0 <= i < n && rows[i] == r
  {
    if n > 0 {
      WithoutIsPart(rows, gone, n - 1);
      var rest, row := Without(rows, gone, n - 1), rows[n - 1];
      forall k | 0 <= k < |rest| ensures rest[k].port != row.port || rest[k].date != row.date {
        assert rest[k] in rest;
        var i :| 0 <= i < n - 1 && rows[i] == rest[k];
      }
    }
  }

  lemma AddingKeepsOne(rows: seq<Daily>, p: nat, date: nat, d: Count)
    requires OneRowEach(rows)
    ensures OneRowEach(AddDaily(rows, p, date, d))
  {
    var k := DayAt(rows, p, date, 0);
    forall j | 0 <= j < k ensures !IsDay(rows[j], p, date) { }
  }

  lemma {:induction false} LogKeepsOne(t: Traffic, lines: seq<Option<Hit>>, n: nat)
    requires n <= |lines| && OneRowEach(t.daily)
    ensures OneRowEach(SyncLines(t, lines, n).daily)
  {
    if n > 0 {
      LogKeepsOne(t, lines, n - 1);
      if lines[n - 1].Some? {
        var h := lines[n - 1].value;
        AddingKeepsOne(SyncLines(t, lines, n - 1).daily, h.port, h.seen / DAY, Count(1, 0, 0));
      }
    }
  }

  lemma {:induction false} StatsKeepOne(t: Traffic, stats: seq<Stat>, now: nat, n: nat)
    requires n <= |stats| && OneRowEach(t.daily)
    ensures OneRowEach(SyncStats(t, stats, n, now).daily)
  {
    if n > 0 {
      StatsKeepOne(t, stats, now, n - 1);
      var s := stats[n - 1];
      AddingKeepsOne(SyncStats(t, stats, n - 1, now).daily, s.port, now / DAY, Count(0, s.sent, s.received));
    }
  }

  /** No run leaves two rows for one port and day. */
  lemma {:induction false} RunKeepsOneRowEach(steps: seq<Step>, n: nat)
    requires n <= |steps|
    ensures OneRowEach(Run(steps, n).daily)
  {
    if n > 0 {
      RunKeepsOneRowEach(steps, n - 1);
      var t := Run(steps, n - 1);
      match steps[n - 1]
      case Log(lines) => LogKeepsOne(t, lines, |lines|);
      case Stats(stats, now) => StatsKeepOne(t, stats, now, |stats|);
      case Reset(p) =>
      case Delete(p) => WithoutIsPart(t.daily, {p}, |t.daily|);
    }
  }

  // ---- When a port was last seen ----

  ghost function HitTimes(lines: seq<Option<Hit>>, port: nat): set<nat> {
    set l | l in lines && l.Some? && l.value.port == port :: l.value.seen
  }

  ghost predicate Moved(stats: seq<Stat>, port: nat) {
    exists s :: s in stats && s.port == port && (s.sent > 0 || s.received > 0)
  }

  /** The times of the port's hits, and of the syncs that found bytes of it, since it was deleted last. */
  ghost function TimesSeen(steps: seq<Step>, port: nat, n: nat): set<nat>
    requires n <= |steps|
  {
    if n == 0 then {} else
      match steps[n - 1]
      case Log(lines) => TimesSeen(steps, port, n - 1) + HitTimes(lines, port)
      case Stats(stats, now) => TimesSeen(steps, port, n - 1) + if Moved(stats, port) then {now} else {}
      case Reset(_) => TimesSeen(steps, port, n - 1)
      case Delete(p) => if p == port then {} else TimesSeen(steps, port, n - 1)
  }

  function SeenAt(t: Traffic, port: nat): Option<nat> {
    if port in t.totals then t.totals[port].lastSeen else None
  }

  ghost predicate IsLatest(seen: Option<nat>, times: set<nat>) {
    match seen
    case None => times == {}
    case Some(time) => time in times && forall other :: other in times ==> other <= time
  }

  lemma {:induction false} SeenInLog(t: Traffic, lines: seq<Option<Hit>>, port: nat, times: set<nat>, n: nat)
    requires n <= |lines| && IsLatest(SeenAt(t, port), times)
    ensures IsLatest(SeenAt(SyncLines(t, lines, n), port), times + HitTimes(lines[..n], port))
  {
    if n > 0 {
      SeenInLog(t, lines, port, times, n - 1);
      assert lines[..n] == lines[..n - 1] + [lines[n - 1]];
      var l := lines[n - 1];
      assert HitTimes(lines[..n], port)
          == HitTimes(lines[..n - 1], port) + if l.Some? && l.value.port == port then {l.value.seen} else {};
    } else {
      assert times + HitTimes(lines[..0], port) == times;
    }
  }

  lemma {:induction false} SeenInStats(t: Traffic, stats: seq<Stat>, now: nat, port: nat, times: set<nat>, n: nat)
    requires n <= |stats| && IsLatest(SeenAt(t, port), times)
    ensures IsLatest(SeenAt(SyncStats(t, stats, n, now), port), times + if Moved(stats[..n], port) then {now} else {})
  {
    if n > 0 {
      SeenInStats(t, stats, now, port, times, n - 1);
      assert stats[..n] == stats[..n - 1] + [stats[n - 1]];
      var s := stats[n - 1];
      assert Moved(stats[..n], port)
         <==> Moved(stats[..n - 1], port) || (s.port == port && (s.sent > 0 || s.received > 0));
    } else {
      assert times + {} == times;
    }
  }

  /** After every run a port was last seen at the latest of these times. */
  lemma {:induction false} LastSeenIsLatest(steps: seq<Step>, port: nat, n: nat)
    requires n <= |steps|
    ensures IsLatest(SeenAt(Run(steps, n), port), TimesSeen(steps, port, n))
  {
    if n > 0 {
      LastSeenIsLatest(steps, port, n - 1);
      var t, times := Run(steps, n - 1), TimesSeen(steps, port, n - 1);
      match steps[n - 1]
      case Log(lines) =>
        SeenInLog(t, lines, port, times, |lines|);
        assert lines[..|lines|] == lines;
      case Stats(stats, now) =>
        SeenInStats(t, stats, now, port, times, |stats|);
        assert stats[..|stats|] == stats;
      case Reset(p) =>
      case Delete(p) =>
    }
  }
}
