/** What each operation on ports does and what it leaves alone, told by listings, rows and counters. */
module PortEffects {
  import opened Wrappers
  import opened TrafficTables
  import opened TrafficLedger
  import opened PanelTables
  import opened PortRules
  import opened Orders
  import opened PanelOperations

  // ---- What can be seen of a port ----

  /** The port is in the listing of time `t`: switched on, not yet expired, and its bytes are below its limit. */
  predicate Served(p: Port, t: Traffic, at: nat) {
    && p.enabled && (p.expiresAt.None? || at < p.expiresAt.value)
    && (p.limit.None? || CountOf(t, p.listen).sent + CountOf(t, p.listen).received < p.limit.value)
  }

  lemma ListedIsServed(db: Database, id: nat, at: nat)
    requires id in db.ports
    ensures id in ListedIds(db, at) <==> Served(db.ports[id], db.traffic, at)
  {
  }

  /** Expired comes before over quota, and that before switched off; a port is active exactly when it is served. */
  lemma StatusExactly(p: Port, t: Traffic, at: nat)
    ensures StatusOf(p, t, at) == Status.Expired <==> p.expiresAt.Some? && p.expiresAt.value <= at
    ensures StatusOf(p, t, at) == Active <==> Served(p, t, at)
    ensures StatusOf(p, t, at) == Disabled <==> !p.enabled && Served(p.(enabled := true), t, at)
  {
  }

  /** Counters, days and last time of this number are the same. */
  ghost predicate SameTraffic(a: Traffic, b: Traffic, listen: nat) {
    && CountOf(a, listen) == CountOf(b, listen) && SeenAt(a, listen) == SeenAt(b, listen)
    && forall day: Option<nat> :: Recorded(a.daily, listen, day, |a.daily|) == Recorded(b.daily, listen, day, |b.daily|)
  }

  /** Nothing is left of this number. */
  ghost predicate NoTraffic(t: Traffic, listen: nat) {
    && listen !in t.totals && forall row :: row in t.daily ==> row.port != listen
  }

  /** All but the bytes is as it was, and there are none. */
  ghost predicate BytesCleared(a: Traffic, b: Traffic, listen: nat) {
    && CountOf(b, listen) == Count(CountOf(a, listen).connections, 0, 0) && SeenAt(a, listen) == SeenAt(b, listen)
    && forall day: Option<nat> ::
      Recorded(b.daily, listen, day, |b.daily|)
      == Count(Recorded(a.daily, listen, day, |a.daily|).connections, 0, 0)
  }

  lemma ResetEffect(t: Traffic, listen: nat)
    ensures BytesCleared(t, ResetUsage(t, listen), listen)
    ensures forall other :: other != listen ==> SameTraffic(t, ResetUsage(t, listen), other)
  {
    forall p, day: Option<nat> ensures
      var before := Recorded(t.daily, p, day, |t.daily|);
      Recorded(ZeroBytes(t.daily, listen), p, day, |t.daily|)
      == if p == listen then Count(before.connections, 0, 0) else before
    {
      RecordedAfterReset(t.daily, listen, p, day, |t.daily|);
    }
  }

  lemma {:induction false} WithoutHasNone(rows: seq<Daily>, gone: set<nat>, n: nat)
    requires n <= |rows|
    ensures forall row :: row in Without(rows, gone, n) ==> row.port !in gone
  {
    if n > 0 { WithoutHasNone(rows, gone, n - 1); }
  }

  lemma DropEffect(t: Traffic, gone: set<nat>)
    ensures forall listen :: listen in gone ==> NoTraffic(Drop(t, gone), listen)
    ensures forall listen :: listen !in gone ==> SameTraffic(t, Drop(t, gone), listen)
  {
    WithoutHasNone(t.daily, gone, |t.daily|);
    forall listen, day: Option<nat> | listen !in gone
      ensures Recorded(Drop(t, gone).daily, listen, day, |Drop(t, gone).daily|)
           == Recorded(t.daily, listen, day, |t.daily|)
    {
      RecordedAfterDelete(t.daily, gone, listen, day, |t.daily|);
    }
  }

  // ---- The operations ----

  /** The row an operation is about. */
  function IdOf(db: Database, op: Operation): nat
    requires !op.Fulfill?
  {
    match op
    case CreatePort(_, _, _) => db.nextPort
    case UpdatePort(id, _, _, _) => id
    case TogglePort(id) => id
    case DeletePort(id) => id
    case ResetTraffic(id) => id
  }

  ghost predicate SameShop(a: Database, b: Database) {
    && a.customers == b.customers && a.plans == b.plans && a.services == b.services && a.nextService == b.nextService
    && a.orders == b.orders && a.nextOrder == b.nextOrder && a.submissions == b.submissions
  }

  /** An operation on a port leaves the shop, every other row and the counters of every other number alone. */
  lemma PortOperationFrame(db: Database, op: Operation, now: nat)
    requires !op.Fulfill? && Performed(db, op, now).Ok?
    ensures var after, id := Performed(db, op, now).value, IdOf(db, op);
      && SameShop(db, after) && (forall i :: i != id ==> (i in after.ports <==> i in db.ports))
      && (forall i :: i in db.ports && i != id ==> after.ports[i] == db.ports[i])
      && after.nextPort == (if op.CreatePort? then db.nextPort + 1 else db.nextPort)
      && forall listen :: (id in db.ports ==> listen != db.ports[id].listen) ==>
        SameTraffic(db.traffic, after.traffic, listen)
  {
    match op
    case DeletePort(id) => DropEffect(db.traffic, {db.ports[id].listen});
    case ResetTraffic(id) => ResetEffect(db.traffic, db.ports[id].listen);
    case _ =>
  }

  /** Some other row than `id` has the number. */
  ghost predicate Taken(db: Database, listen: nat, id: nat) {
    exists i :: i in db.ports && i != id && db.ports[i].listen == listen
  }

  /** A new port needs a free number; it belongs to nobody and is served while its time and its bytes last. */
  lemma CreateEffect(db: Database, listen: nat, expiresAt: Option<nat>, limit: Option<nat>, now: nat, at: nat)
    ensures var r := Performed(db, CreatePort(listen, expiresAt, limit), now);
      && (r.Ok? <==> !Taken(db, listen, db.nextPort))
      && (r.Ok? ==>
            && db.nextPort in r.value.ports && r.value.traffic == db.traffic
            && var p := r.value.ports[db.nextPort];
               && p.listen == listen && p.customer.None? && p.service.None? && p.sourceOrder.None?
               && (db.nextPort in ListedIds(r.value, at)
                   <==> && (expiresAt.None? || at < expiresAt.value)
                        && (limit.None? || Usage(db.traffic, listen) < limit.value)))
  {
  }

  /** An update moves the row to the new number, time and limit; who owns it and whether it is on stays. */
  lemma UpdateEffect(db: Database, id: nat, listen: nat, expiresAt: Option<nat>, limit: Option<nat>, now: nat, at: nat)
    ensures var r := Performed(db, UpdatePort(id, listen, expiresAt, limit), now);
      && (r.Ok? <==> id in db.ports && !Taken(db, listen, id))
      && (r.Ok? ==>
            && id in r.value.ports && r.value.traffic == db.traffic
            && var p, q := db.ports[id], r.value.ports[id];
               && q.listen == listen && q.customer == p.customer && q.service == p.service
               && q.sourceOrder == p.sourceOrder && q.enabled == p.enabled
               && (id in ListedIds(r.value, at)
                   <==> && p.enabled && (expiresAt.None? || at < expiresAt.value)
                        && (limit.None? || Usage(db.traffic, listen) < limit.value)))
  {
  }

  /** A port can always be switched off, and on exactly when it would be served; nothing else of it changes. */
  lemma ToggleEffect(db: Database, id: nat, now: nat)
    ensures var r := Performed(db, TogglePort(id), now);
      && (r.Ok? <==>
            id in db.ports && (db.ports[id].enabled || Served(db.ports[id].(enabled := true), db.traffic, now)))
      && (r.Ok? ==>
            && id in r.value.ports && r.value.traffic == db.traffic && r.value.ports[id].enabled != db.ports[id].enabled
            && r.value.ports[id].(enabled := db.ports[id].enabled) == db.ports[id])
  {
  }

  /** Only a port without customer and service can be deleted; its number keeps no counters. */
  lemma DeleteEffect(db: Database, id: nat, now: nat)
    ensures var r := Performed(db, DeletePort(id), now);
      && (r.Ok? <==> id in db.ports && db.ports[id].customer.None? && db.ports[id].service.None?)
      && (r.Ok? ==> id !in r.value.ports && NoTraffic(r.value.traffic, db.ports[id].listen))
  {
    if id in db.ports { DropEffect(db.traffic, {db.ports[id].listen}); }
  }

  /** A reset clears the bytes of the port's number, and switches on a port that only its quota had stopped. */
  lemma ResetPortEffect(db: Database, id: nat, now: nat)
    ensures var r := Performed(db, ResetTraffic(id), now);
      && (r.Ok? <==> id in db.ports)
      && (r.Ok? ==>
            var p := db.ports[id];
            var overQuota := p.limit.Some? && Usage(db.traffic, p.listen) >= p.limit.value;
            && id in r.value.ports && BytesCleared(db.traffic, r.value.traffic, p.listen)
            && (r.value.ports[id].enabled
                <==> p.enabled || (overQuota && (p.expiresAt.None? || now < p.expiresAt.value)))
            && r.value.ports[id].(enabled := p.enabled) == p)
  {
    if id in db.ports { ResetEffect(db.traffic, db.ports[id].listen); }
  }

  // ---- Cleanup and disabling ----

  /** `COALESCE(customer_id, 0) = 0`, and the same of the service. */
  predicate OfNobody(p: Port) {
    p.customer in {None, Some(0)} && p.service in {None, Some(0)}
  }

  /**
   The automatic disabling removes exactly the ports of nobody whose time has passed, with their counters; every
   other row stays but that it is off unless it is served; everything else stays.
   */
  lemma AutoStopEffect(db: Database, now: nat, id: nat)
    requires UniqueListen(db.ports) && id in db.ports
    ensures var after, p := AutoStopped(db, now), db.ports[id];
      && (id in after.ports <==> !(p.expiresAt.Some? && p.expiresAt.value <= now && OfNobody(p)))
      && (id in after.ports ==>
            && after.ports[id].(enabled := p.enabled) == p && SameTraffic(db.traffic, after.traffic, p.listen)
            && (after.ports[id].enabled <==> Served(p, db.traffic, now)))
      && (id !in after.ports ==> NoTraffic(after.traffic, p.listen))
      && SameShop(db, after) && after.nextPort == db.nextPort && after.ports.Keys <= db.ports.Keys
  {
    var gone := ListenOf(db.ports, Doomed(db.ports, now));
    DropEffect(db.traffic, gone);
    if id !in Doomed(db.ports, now) {
      assert db.ports[id].listen !in gone;
      assert SameTraffic(db.traffic, Drop(db.traffic, gone), db.ports[id].listen);
    } else {
      assert db.ports[id].listen in gone;
    }
  }

  /** Counters of numbers without a port are not touched by it. */
  lemma AutoStopKeepsOthers(db: Database, now: nat, listen: nat)
    requires forall i :: i in db.ports ==> db.ports[i].listen != listen
    ensures SameTraffic(db.traffic, AutoStopped(db, now).traffic, listen)
  {
    DropEffect(db.traffic, ListenOf(db.ports, Doomed(db.ports, now)));
  }
}
