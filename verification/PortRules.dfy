/** Expiry, quota, cleanup, automatic disabling and the listing that the data plane is given. */
module PortRules {
  import opened Wrappers
  import opened TrafficTables
  import opened PanelTables

  // ---- Status of one port ----

  predicate IsExpired(p: Port, now: nat) {
    p.expiresAt.Some? && p.expiresAt.value <= now
  }

  predicate QuotaReached(p: Port, t: Traffic) {
    p.limit.Some? && Usage(t, p.listen) >= p.limit.value
  }

  datatype Status = Expired | Quota | Active | Disabled

  function StatusOf(p: Port, t: Traffic, now: nat): Status {
    if IsExpired(p, now) then Status.Expired
    else if QuotaReached(p, t) then Quota
    else if p.enabled then Active else Disabled
  }

  /** No customer and no service, as `COALESCE(..., 0) = 0` reads them. */
  predicate Unlinked(p: Port) {
    p.customer.GetOr(0) == 0 && p.service.GetOr(0) == 0
  }

  // ---- The listing ----

  predicate IsLeast(s: set<nat>, m: nat) {
    m in s && forall x :: x in s ==> m <= x
  }

  /** The least of a nonempty set. */
  function Least(s: set<nat>): (m: nat)
    requires s != {}
    ensures IsLeast(s, m)
  {
    HasLeast(s);
    var m :| IsLeast(s, m);
    m
  }

  lemma {:induction false} LeastExists(s: set<nat>) returns (m: nat)
    requires s != {}
    ensures IsLeast(s, m)
    decreases |s|
  {
    m :| m in s;
    var rest := s - {m};
    if rest != {} {
      var r := LeastExists(rest);
      forall x | x in s ensures x == m || r <= x { assert x == m || x in rest; }
      m := if m < r then m else r;
    } else {
      forall x | x in s ensures x == m { assert x == m || x in rest; }
    }
  }

  lemma HasLeast(s: set<nat>)
    requires s != {}
    ensures exists m :: IsLeast(s, m)
  {
    var m := LeastExists(s);
  }

  /** `ORDER BY listen_port ASC`. */
  function Ascending(s: set<nat>): seq<nat>
    decreases |s|
  {
    if s == {} then [] else [Least(s)] + Ascending(s - {Least(s)})
  }

  /** The listing is sorted and holds exactly the set. */
  lemma {:induction false} AscendingIsSorted(s: set<nat>)
    ensures forall i, j :: 0 <= i < j < |Ascending(s)| ==> Ascending(s)[i] < Ascending(s)[j]
    ensures forall x :: x in Ascending(s) <==> x in s
    decreases |s|
  {
    if s != {} {
      var rest := s - {Least(s)};
      AscendingIsSorted(rest);
      forall i | 0 < i < |Ascending(s)| ensures Ascending(s)[i] == Ascending(rest)[i - 1] && Ascending(s)[i] in rest { }
    }
  }

  function ListenOf(ports: map<nat, Port>, ids: set<nat>): set<nat>
    requires ids <= ports.Keys
  {
    set i | i in ids :: ports[i].listen
  }

  function EnabledIds(ports: map<nat, Port>): set<nat> {
    set i | i in ports && ports[i].enabled
  }

  function ActiveIds(ports: map<nat, Port>, t: Traffic, now: nat): set<nat> {
    set i | i in ports && StatusOf(ports[i], t, now) == Active
  }

  function ListedIds(db: Database, now: nat): set<nat> {
    set i | i in db.ports && db.ports[i].enabled && (db.ports[i].expiresAt.None? || db.ports[i].expiresAt.value > now)
      && (db.ports[i].limit.None? || Usage(db.traffic, db.ports[i].listen) < db.ports[i].limit.value)
  }

  /** `render_panel_ports_payload`: enabled, not expired, below quota, in order of listen port. */
  function Payload(db: Database, now: nat): seq<nat> {
    Ascending(ListenOf(db.ports, ListedIds(db, now)))
  }

  // ---- Cleanup and disabling ----

  function Doomed(ports: map<nat, Port>, now: nat): set<nat> {
    set i | i in ports && IsExpired(ports[i], now) && Unlinked(ports[i])
  }

  function Cleaned(db: Database, now: nat): Database {
    db.(ports := db.ports - Doomed(db.ports, now),
        traffic := Drop(db.traffic, ListenOf(db.ports, Doomed(db.ports, now))))
  }

  function Stopped(ports: map<nat, Port>, t: Traffic, now: nat): set<nat> {
    set i | i in ports && ports[i].enabled && (IsExpired(ports[i], now) || QuotaReached(ports[i], t))
  }

  function WithDisabled(ports: map<nat, Port>, ids: set<nat>): map<nat, Port> {
    map i | i in ports :: if i in ids then ports[i].(enabled := false) else ports[i]
  }

  /** What `disable_auto_stopped_ports_in_tx` leaves. */
  function AutoStopped(db: Database, now: nat): Database {
    var c := Cleaned(db, now);
    c.(ports := WithDisabled(c.ports, Stopped(c.ports, c.traffic, now)))
  }

  function DeletedPort(db: Database, id: nat): Database
    requires id in db.ports
  {
    db.(ports := db.ports - {id}, traffic := Drop(db.traffic, {db.ports[id].listen}))
  }

  /** Row by row over the result of one query. */
  method CleanupExpiredPorts(tx: Transaction, now: nat) returns (cleaned: nat)
    modifies tx
    ensures tx.db == Cleaned(old(tx.db), now) && cleaned == |Doomed(old(tx.db).ports, now)|
  {
    var rows := Doomed(tx.db.ports, now);
    var todo := rows;
    ghost var db := tx.db;
    DropNothing(db.traffic);
    assert rows - todo == {} && ListenOf(db.ports, {}) == {} && db.ports - {} == db.ports;
    while todo != {}
      invariant todo <= rows && rows == Doomed(db.ports, now)
      invariant tx.db == db.(ports := db.ports - (rows - todo),
                             traffic := Drop(db.traffic, ListenOf(db.ports, rows - todo)))
      decreases |todo|
    {
      var id :| id in todo;
      DropTwice(db.traffic, ListenOf(db.ports, rows - todo), {db.ports[id].listen});
      assert ListenOf(db.ports, rows - todo) + {db.ports[id].listen} == ListenOf(db.ports, rows - (todo - {id}));
      assert db.ports - (rows - todo) - {id} == db.ports - (rows - (todo - {id}));
      tx.db := DeletedPort(tx.db, id);
      todo := todo - {id};
    }
    assert rows - todo == rows;
    cleaned := |rows|;
  }

  lemma DropNothing(t: Traffic)
    ensures Drop(t, {}) == t
  {
    KeepAll(t.daily, |t.daily|);
  }

  lemma {:induction false} KeepAll(rows: seq<Daily>, n: nat)
    requires n <= |rows|
    ensures Without(rows, {}, n) == rows[..n]
  {
    if n > 0 { KeepAll(rows, n - 1); }
  }

  method DisableAutoStoppedPorts(tx: Transaction, now: nat) returns (changed: nat)
    modifies tx
    ensures tx.db == AutoStopped(old(tx.db), now)
    ensures changed == Changes(old(tx.db), now) && (changed == 0 <==> tx.db == old(tx.db))
  {
    var cleaned := CleanupExpiredPorts(tx, now);
    ghost var db := tx.db;
    var rows := EnabledIds(tx.db.ports);
    var todo := rows;
    changed := 0;
    assert WithDisabled(db.ports, {}) == db.ports;
    while todo != {}
      invariant todo <= rows && rows == EnabledIds(db.ports)
      invariant tx.db == db.(ports := WithDisabled(db.ports, Stopped(db.ports, db.traffic, now) - todo))
      invariant changed == |Stopped(db.ports, db.traffic, now) - todo|
      decreases |todo|
    {
      var id :| id in todo;
      OneMoreStopped(Stopped(db.ports, db.traffic, now), todo, id);
      DisableOne(db.ports, Stopped(db.ports, db.traffic, now), todo, id);
      if IsExpired(tx.db.ports[id], now) || QuotaReached(tx.db.ports[id], tx.db.traffic) {
        tx.db := tx.db.(ports := tx.db.ports[id := tx.db.ports[id].(enabled := false)]);
        changed := changed + 1;
      }
      todo := todo - {id};
    }
    assert Stopped(db.ports, db.traffic, now) - todo == Stopped(db.ports, db.traffic, now);
    changed := changed + cleaned;
    NothingChanges(old(tx.db), now);
  }

  lemma OneMoreStopped(stopped: set<nat>, todo: set<nat>, id: nat)
    requires id in todo
    ensures |stopped - (todo - {id})| == |stopped - todo| + if id in stopped then 1 else 0
  {
    if id in stopped {
      assert stopped - (todo - {id}) == (stopped - todo) + {id};
    } else {
      assert stopped - (todo - {id}) == stopped - todo;
    }
  }

  lemma DisableOne(ports: map<nat, Port>, stopped: set<nat>, todo: set<nat>, id: nat)
    requires id in todo && id in ports
    ensures var before, after := WithDisabled(ports, stopped - todo), WithDisabled(ports, stopped - (todo - {id}));
      && id in before && before[id] == ports[id]
      && after == if id in stopped then before[id := ports[id].(enabled := false)] else before
  {
  }

  /** The number of ports that are deleted, and of those that are switched off. */
  function Changes(db: Database, now: nat): nat {
    var c := Cleaned(db, now);
    |Doomed(db.ports, now)| + |Stopped(c.ports, c.traffic, now)|
  }

  lemma NothingChanges(db: Database, now: nat)
    ensures Changes(db, now) == 0 <==> AutoStopped(db, now) == db
  {
    var c := Cleaned(db, now);
    var doomed, stopped := Doomed(db.ports, now), Stopped(c.ports, c.traffic, now);
    if Changes(db, now) == 0 {
      NothingCleaned(db, now);
      assert stopped == {} && WithDisabled(db.ports, {}) == db.ports;
    } else if doomed != {} {
      var id :| id in doomed;
      assert id in db.ports && id !in AutoStopped(db, now).ports;
    } else {
      var id :| id in stopped;
      NothingCleaned(db, now);
      assert db.ports[id].enabled && !AutoStopped(db, now).ports[id].enabled;
    }
  }

  lemma NothingCleaned(db: Database, now: nat)
    ensures |Doomed(db.ports, now)| == 0 ==> Cleaned(db, now) == db
  {
    if |Doomed(db.ports, now)| == 0 {
      assert Doomed(db.ports, now) == {};
      DropNothing(db.traffic);
      assert ListenOf(db.ports, {}) == {};
    }
  }

  /** After automatic disabling the enabled ports are exactly the active ones, and exactly those listed. */
  lemma ListedIsEnabledIsActive(db: Database, now: nat)
    ensures var after := AutoStopped(db, now);
      && EnabledIds(after.ports) == ActiveIds(after.ports, after.traffic, now)
      && Payload(after, now) == Ascending(ListenOf(after.ports, EnabledIds(after.ports)))
  {
    var after := AutoStopped(db, now);
    assert EnabledIds(after.ports) == ListedIds(after, now);
  }

  /** Only unlinked ports disappear; the others change at most their `enabled` flag, and never to true. */
  lemma AutoStopKeepsLinked(db: Database, now: nat)
    ensures var after := AutoStopped(db, now);
      && after.ports.Keys <= db.ports.Keys
      && (forall i :: i in db.ports && !Unlinked(db.ports[i]) ==> i in after.ports)
      && (forall i :: i in after.ports ==> after.ports[i] == db.ports[i].(enabled := after.ports[i].enabled))
      && (forall i :: i in after.ports && after.ports[i].enabled ==> db.ports[i].enabled)
  {
  }
}
