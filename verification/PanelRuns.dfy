/** Whole runs of the panel: every transaction, in any order, from the empty database. */
module PanelRuns {
  import opened Wrappers
  import opened TrafficTables
  import opened PanelTables
  import opened PortRules
  import opened Orders
  import opened OrderInvariants
  import opened PanelOperations

  datatype Step =
    | Create(customer: nat, plan: nat, kind: Kind, service: Option<nat>, now: nat, deadline: nat)
    | Submit(customer: nat, order: nat, now: nat)
    | Reject(order: nat, now: nat)
    | Cancel(order: nat, now: nat)
    | Expire(now: nat)
    | Mutate(op: Operation, now: nat)
    | Disable(now: nat)
    | SyncTraffic(lines: seq<Option<Hit>>, stats: seq<Stat>, now: nat)
    | SetCustomer(customer: nat, active: bool)
    | SetPlan(plan: nat, value: Plan)

  function Committed(db: Database, r: Result<Database, Error>): Database {
    if r.Ok? then r.value else db
  }

  function Synced(db: Database, lines: seq<Option<Hit>>, stats: seq<Stat>, now: nat): Database {
    db.(traffic := SyncStats(SyncLines(db.traffic, lines, |lines|), stats, |stats|, now))
  }

  /** The database after the step; a transaction that fails changes nothing. */
  function Next(db: Database, step: Step): Database {
    match step
    case Create(customer, plan, kind, service, now, deadline) =>
      Committed(db, CreateOrder(db, customer, plan, kind, service, now, deadline))
    case Submit(customer, order, now) => Committed(db, SubmitPayment(db, customer, order, now))
    case Reject(order, now) => Committed(db, RejectOrder(db, order, now))
    case Cancel(order, now) => Committed(db, CancelOrder(db, order, now))
    case Expire(now) => ExpirePending(db, now)
    case Mutate(op, now) => if Performed(db, op, now).Ok? then AutoStopped(Performed(db, op, now).value, now) else db
    case Disable(now) => AutoStopped(db, now)
    case SyncTraffic(lines, stats, now) => Synced(db, lines, stats, now)
    case SetCustomer(customer, active) => db.(customers := db.customers[customer := active])
    case SetPlan(plan, value) => db.(plans := db.plans[plan := value])
  }

  const EMPTY := Database(map[], 1, Traffic(map[], []), map[], map[], map[], 1, map[], 1, [])

  function Run(steps: seq<Step>, n: nat): Database
    requires n <= |steps|
  {
    if n == 0 then EMPTY else Next(Run(steps, n - 1), steps[n - 1])
  }

  // ---- Service structure and order lifecycle ----

  lemma PortsKeepInv(db: Database, after: Database)
    requires Inv(db) && SameLinks(db.ports, after.ports) && Keyed(after)
    requires after.services == db.services && after.orders == db.orders && after.submissions == db.submissions
    ensures Inv(after)
  {
    PortChangesKeepLinks(db.ports, after.ports, db.services, db.orders);
  }

  /** An operation on ports keeps every link, and removes no linked port. */
  lemma ChangedPorts(db: Database, op: Operation, now: nat)
    requires Keyed(db) && !op.Fulfill? && Performed(db, op, now).Ok?
    ensures var after := Performed(db, op, now).value;
      && SameLinks(db.ports, after.ports) && Keyed(after)
      && after.services == db.services && after.orders == db.orders && after.submissions == db.submissions
  {
  }

  lemma StoppedPorts(db: Database, now: nat)
    requires Keyed(db)
    ensures var after := AutoStopped(db, now);
      && SameLinks(db.ports, after.ports) && Keyed(after)
      && after.services == db.services && after.orders == db.orders && after.submissions == db.submissions
  {
    AutoStopKeepsLinked(db, now);
  }

  lemma AutoStopKeepsInv(db: Database, now: nat)
    requires Inv(db)
    ensures Inv(AutoStopped(db, now))
  {
    StoppedPorts(db, now);
    PortsKeepInv(db, AutoStopped(db, now));
  }

  lemma OperationKeepsInv(db: Database, op: Operation, now: nat)
    requires Inv(db) && Performed(db, op, now).Ok?
    ensures Inv(Performed(db, op, now).value)
  {
    if op.Fulfill? {
      FulfillKeepsInv(db, op.order, op.range, now);
    } else {
      ChangedPorts(db, op, now);
      PortsKeepInv(db, Performed(db, op, now).value);
    }
  }

  lemma ShopKeepsInv(db: Database, step: Step)
    requires Inv(db) && (step.Create? || step.Submit? || step.Reject? || step.Cancel? || step.Expire?)
    ensures Inv(Next(db, step))
  {
    match step
    case Create(customer, plan, kind, service, now, deadline) =>
      if CreateOrder(db, customer, plan, kind, service, now, deadline).Ok? {
        CreateKeepsInv(db, customer, plan, kind, service, now, deadline);
      }
    case Submit(customer, order, now) =>
      if SubmitPayment(db, customer, order, now).Ok? { SubmitKeepsInv(db, customer, order, now); }
    case Reject(order, now) => if RejectOrder(db, order, now).Ok? { RejectKeepsInv(db, order, now); }
    case Cancel(order, now) => if CancelOrder(db, order, now).Ok? { CancelKeepsInv(db, order, now); }
    case Expire(now) => ExpireKeepsInv(db, now);
    case _ =>
  }

  lemma StepKeepsInv(db: Database, step: Step)
    requires Inv(db)
    ensures Inv(Next(db, step))
  {
    match step
    case Mutate(op, now) =>
      if Performed(db, op, now).Ok? {
        OperationKeepsInv(db, op, now);
        AutoStopKeepsInv(Performed(db, op, now).value, now);
      }
    case Disable(now) => AutoStopKeepsInv(db, now);
    case SyncTraffic(lines, stats, now) =>
    case SetCustomer(customer, active) =>
    case SetPlan(plan, value) =>
    case _ => ShopKeepsInv(db, step);
  }

  /** In every reachable state services, orders, ports and submissions fit together. */
  lemma {:induction false} RunKeepsInv(steps: seq<Step>, n: nat)
    requires n <= |steps|
    ensures Inv(Run(steps, n))
  {
    if n > 0 {
      RunKeepsInv(steps, n - 1);
      StepKeepsInv(Run(steps, n - 1), steps[n - 1]);
    }
  }

  // ---- Closed orders stay closed ----

  predicate IsClosed(o: Order) {
    o.status in {Fulfilled, Cancelled, OrderStatus.Expired}
  }

  lemma ExpiryKeepsClosed(db: Database, now: nat, order: nat)
    requires order in db.orders && IsClosed(db.orders[order])
    ensures order in ExpirePending(db, now).orders && ExpirePending(db, now).orders[order] == db.orders[order]
  {
  }

  /** The transactions of the shop only touch orders that are not closed. */
  lemma ShopKeepsClosed(db: Database, step: Step, order: nat)
    requires step.Create? || step.Submit? || step.Reject? || step.Cancel?
    requires Keyed(db) && order in db.orders && IsClosed(db.orders[order])
    ensures order in Next(db, step).orders && Next(db, step).orders[order] == db.orders[order]
  {
    ExpiryKeepsClosed(db, step.now, order);
  }

  lemma OrderStays(db: Database, step: Step, order: nat)
    requires Keyed(db) && order in db.orders && IsClosed(db.orders[order])
    ensures order in Next(db, step).orders && Next(db, step).orders[order] == db.orders[order]
  {
    match step
    case Expire(now) => ExpiryKeepsClosed(db, now, order);
    case Mutate(op, now) => if Performed(db, op, now).Ok? { OperationKeepsClosed(db, op, now, order); }
    case Disable(now) =>
    case SyncTraffic(lines, stats, now) =>
    case SetCustomer(customer, active) =>
    case SetPlan(plan, value) =>
    case _ => ShopKeepsClosed(db, step, order);
  }

  lemma OperationKeepsClosed(db: Database, op: Operation, now: nat, order: nat)
    requires order in db.orders && IsClosed(db.orders[order]) && Performed(db, op, now).Ok?
    ensures order in Performed(db, op, now).value.orders
    ensures Performed(db, op, now).value.orders[order] == db.orders[order]
  {
  }

  /** Fulfilled, cancelled and expired orders never change again. */
  lemma {:induction false} ClosedForGood(steps: seq<Step>, m: nat, n: nat, order: nat)
    requires m <= n <= |steps| && order in Run(steps, m).orders && IsClosed(Run(steps, m).orders[order])
    ensures order in Run(steps, n).orders && Run(steps, n).orders[order] == Run(steps, m).orders[order]
    decreases n
  {
    if m < n {
      ClosedForGood(steps, m, n - 1, order);
      RunKeepsInv(steps, n - 1);
      OrderStays(Run(steps, n - 1), steps[n - 1], order);
    }
  }

  // ---- Listen ports stay unique, traffic stays conserved ----

  ghost predicate Sound(db: Database) {
    Keyed(db) && UniqueListen(db.ports) && Conserved(db.traffic)
  }

  lemma OperationKeepsSound(db: Database, op: Operation, now: nat)
    requires Sound(db) && Performed(db, op, now).Ok?
    ensures UniqueListen(Performed(db, op, now).value.ports) && Conserved(Performed(db, op, now).value.traffic)
  {
    match op
    case CreatePort(listen, expiresAt, limit) =>
    case UpdatePort(id, listen, expiresAt, limit) =>
    case TogglePort(id) =>
    case DeletePort(id) => DropConserves(db.traffic, {db.ports[id].listen});
    case ResetTraffic(id) => ResetConserves(db.traffic, db.ports[id].listen);
    case Fulfill(order, range) => FulfillKeepsSound(db, order, range, now);
  }

  lemma FulfillKeepsSound(db: Database, order: nat, range: Option<Range>, now: nat)
    requires Sound(db) && FulfillOrder(db, order, range, now).Ok?
    ensures var after := FulfillOrder(db, order, range, now).value;
      UniqueListen(after.ports) && Conserved(after.traffic)
  {
    var e := ExpirePending(db, now);
    if e.orders[order].kind == NewPurchase {
      var listen := AllocatedPort(e.ports, range.value).value;
      forall i | i in e.ports ensures e.ports[i].listen != listen { }
    } else {
      var s := e.services[e.orders[order].service.value];
      if s.port in e.ports { ResetConserves(e.traffic, e.ports[s.port].listen); }
    }
  }

  lemma AutoStopKeepsSound(db: Database, now: nat)
    requires UniqueListen(db.ports) && Conserved(db.traffic)
    ensures UniqueListen(AutoStopped(db, now).ports) && Conserved(AutoStopped(db, now).traffic)
  {
    DropConserves(db.traffic, ListenOf(db.ports, Doomed(db.ports, now)));
  }

  lemma StepKeepsSound(db: Database, step: Step)
    requires Sound(db)
    ensures UniqueListen(Next(db, step).ports) && Conserved(Next(db, step).traffic)
  {
    match step
    case Mutate(op, now) =>
      if Performed(db, op, now).Ok? {
        OperationKeepsSound(db, op, now);
        AutoStopKeepsSound(Performed(db, op, now).value, now);
      }
    case Disable(now) => AutoStopKeepsSound(db, now);
    case SyncTraffic(lines, stats, now) =>
      LinesConserve(db.traffic, lines, |lines|);
      StatsConserve(SyncLines(db.traffic, lines, |lines|), stats, |stats|, now);
    case _ =>
  }

  lemma NextIsSound(db: Database, step: Step)
    requires Sound(db) && Keyed(Next(db, step))
    ensures Sound(Next(db, step))
  {
    StepKeepsSound(db, step);
  }

  /** A sync, a mutation and an automatic disabling keep what holds of every reachable database. */
  lemma SyncKeepsSound(db: Database, lines: seq<Option<Hit>>, stats: seq<Stat>, now: nat)
    requires Inv(db) && Sound(db)
    ensures Inv(Synced(db, lines, stats, now)) && Sound(Synced(db, lines, stats, now))
  {
    StepKeepsInv(db, SyncTraffic(lines, stats, now));
    NextIsSound(db, SyncTraffic(lines, stats, now));
  }

  lemma DisablingKeepsSound(db: Database, now: nat)
    requires Inv(db) && UniqueListen(db.ports) && Conserved(db.traffic)
    ensures Inv(AutoStopped(db, now)) && Sound(AutoStopped(db, now))
  {
    AutoStopKeepsInv(db, now);
    AutoStopKeepsSound(db, now);
  }

  lemma MutationKeepsSound(db: Database, op: Operation, performed: nat, stopped: nat)
    requires Inv(db) && Sound(db) && Performed(db, op, performed).Ok?
    ensures var after := AutoStopped(Performed(db, op, performed).value, stopped);
      Inv(after) && Sound(after)
  {
    OperationKeepsInv(db, op, performed);
    OperationKeepsSound(db, op, performed);
    DisablingKeepsSound(Performed(db, op, performed).value, stopped);
  }

  lemma RunIsKeyed(steps: seq<Step>, n: nat)
    requires n <= |steps|
    ensures Keyed(Run(steps, n))
  {
    RunKeepsInv(steps, n);
  }

  /** In every reachable state listen ports are unique and each port's totals are the sum of its days. */
  lemma {:induction false} RunKeepsSound(steps: seq<Step>, n: nat)
    requires n <= |steps|
    ensures Sound(Run(steps, n))
  {
    RunIsKeyed(steps, n);
    if n > 0 {
      RunKeepsSound(steps, n - 1);
      NextIsSound(Run(steps, n - 1), steps[n - 1]);
    }
  }

  // ---- When a paid service is served at once ----

  /** After the automatic disabling, an enabled port is listed exactly when it is neither expired nor over quota. */
  lemma ServedExactly(db: Database, id: nat, now: nat)
    requires UniqueListen(db.ports) && id in db.ports && db.ports[id].enabled
    ensures id in ListedIds(AutoStopped(db, now), now) <==>
      !IsExpired(db.ports[id], now) && !QuotaReached(db.ports[id], db.traffic)
  {
    var gone := ListenOf(db.ports, Doomed(db.ports, now));
    if !IsExpired(db.ports[id], now) {
      assert db.ports[id].listen !in gone;
      assert Usage(Drop(db.traffic, gone), db.ports[id].listen) == Usage(db.traffic, db.ports[id].listen);
    }
  }

  /** A port that may be switched on is served at once; one that was on is not served any more. */
  lemma ToggleDecidesService(db: Database, id: nat, now: nat)
    requires UniqueListen(db.ports) && ToggledPort(db, id, now).Ok?
    ensures id in ListedIds(AutoStopped(ToggledPort(db, id, now).value, now), now) <==> !db.ports[id].enabled
  {
    if !db.ports[id].enabled { ServedExactly(ToggledPort(db, id, now).value, id, now); }
  }

  lemma ResetUsesNothing(t: Traffic, listen: nat)
    ensures Usage(ResetUsage(t, listen), listen) == 0
  {
  }

  lemma DisabledIsNotServed(db: Database, id: nat, now: nat)
    requires id in db.ports && !db.ports[id].enabled
    ensures id !in ListedIds(AutoStopped(db, now), now)
  {
  }

  /**
   Resetting the counters of a port that stopped at its quota brings it back, unless it has expired or its
   limit is zero.
   */
  lemma ResetRestoresService(db: Database, id: nat, now: nat)
    requires UniqueListen(db.ports) && id in db.ports && QuotaReached(db.ports[id], db.traffic)
    ensures id in ListedIds(AutoStopped(TrafficWasReset(db, id, now).value, now), now)
       <==> !IsExpired(db.ports[id], now) && db.ports[id].limit != Some(0)
  {
    var after := TrafficWasReset(db, id, now).value;
    ResetUsesNothing(db.traffic, db.ports[id].listen);
    if after.ports[id].enabled { ServedExactly(after, id, now); } else { DisabledIsNotServed(after, id, now); }
  }

  // ---- Fulfilment, up to the automatic disabling that ends its transaction ----

  /** Closing an order touches neither ports nor traffic. */
  lemma ClosedKeepsPorts(db: Database, order: nat, service: nat)
    requires order in db.orders && Closed(db, order, service).Ok?
    ensures Closed(db, order, service).value.ports == db.ports && Closed(db, order, service).value.traffic == db.traffic
  {
  }

  predicate FulfilsRenewal(db: Database, order: nat, range: Option<Range>, now: nat) {
    order in db.orders && db.orders[order].kind == Renewal && FulfillOrder(db, order, range, now).Ok?
  }

  predicate FulfilsPurchase(db: Database, order: nat, range: Option<Range>, now: nat) {
    order in db.orders && db.orders[order].kind == NewPurchase && FulfillOrder(db, order, range, now).Ok?
  }

  lemma FulfilledRenewal(db: Database, order: nat, range: Option<Range>, now: nat, service: nat)
    requires FulfilsRenewal(db, order, range, now) && db.orders[order].service == Some(service)
    ensures service in db.services
    ensures var after, renewed := FulfillOrder(db, order, range, now).value, RenewService(db, order, service, now);
      after.ports == renewed.ports && after.traffic == renewed.traffic
  {
    var e := ExpirePending(db, now);
    assert e.orders[order] == db.orders[order];
    ClosedKeepsPorts(RenewService(e, order, service, now), order, service);
  }

  lemma LinkedService(db: Database, order: nat) returns (service: nat)
    requires Inv(db) && order in db.orders && db.orders[order].kind == Renewal
    ensures db.orders[order].service == Some(service) && service in db.services && db.services[service].port in db.ports
  {
    assert OrderOk(db.services, db.orders, order);
    service := db.orders[order].service.value;
    assert ServiceOk(db.ports, db.services, db.orders, service);
  }

  /** What a fulfilled renewal leaves of the service's port and its counters. */
  lemma RenewedPort(db: Database, order: nat, range: Option<Range>, now: nat, service: nat, id: nat)
    requires FulfilsRenewal(db, order, range, now) && db.orders[order].service == Some(service)
    requires service in db.services && db.services[service].port == id && id in db.ports
    ensures var after := FulfillOrder(db, order, range, now).value;
      && id in after.ports && after.traffic == ResetUsage(db.traffic, db.ports[id].listen)
      && after.ports[id] == db.ports[id].(expiresAt := Some(now + db.orders[order].duration * DAY),
                                          limit := Some(db.orders[order].limit), enabled := true)
  {
    FulfilledRenewal(db, order, range, now, service);
  }

  /** A renewed service is served at once whenever its plan has a duration and a positive limit. */
  lemma RenewalIsServed(db: Database, order: nat, range: Option<Range>, now: nat)
    requires Inv(db) && Sound(db) && FulfilsRenewal(db, order, range, now)
    ensures db.orders[order].service.Some? && db.orders[order].service.value in db.services
    ensures var id := db.services[db.orders[order].service.value].port;
      id in ListedIds(AutoStopped(FulfillOrder(db, order, range, now).value, now), now)
      <==> db.orders[order].duration > 0 && db.orders[order].limit > 0
  {
    var service := LinkedService(db, order);
    RenewedIsServed(db, order, range, now, service, db.services[service].port);
  }

  lemma RenewedIsServed(db: Database, order: nat, range: Option<Range>, now: nat, service: nat, id: nat)
    requires Sound(db) && FulfilsRenewal(db, order, range, now) && db.orders[order].service == Some(service)
    requires service in db.services && db.services[service].port == id && id in db.ports
    ensures id in ListedIds(AutoStopped(FulfillOrder(db, order, range, now).value, now), now)
      <==> db.orders[order].duration > 0 && db.orders[order].limit > 0
  {
    RenewedPort(db, order, range, now, service, id);
    FulfillKeepsSound(db, order, range, now);
    ResetUsesNothing(db.traffic, db.ports[id].listen);
    ServedExactly(FulfillOrder(db, order, range, now).value, id, now);
  }

  /**
   A new purchase gets the least free number of the range, and its port is served at once exactly when the
   traffic left over under that number is below its limit, and the plan has a duration.
   */
  lemma PurchaseIsServed(db: Database, order: nat, range: Option<Range>, now: nat)
    requires Sound(db) && FulfilsPurchase(db, order, range, now)
    ensures range.Some? && AllocatedPort(db.ports, range.value).Some?
    ensures db.nextPort in ListedIds(AutoStopped(FulfillOrder(db, order, range, now).value, now), now)
      <==> (&& db.orders[order].duration > 0
            && Usage(db.traffic, AllocatedPort(db.ports, range.value).value) < db.orders[order].limit)
  {
    var e := ExpirePending(db, now);
    var listen := AllocatedPort(e.ports, range.value).value;
    FulfillKeepsSound(db, order, range, now);
    ClosedKeepsPorts(OpenService(e, order, listen, now), order, e.nextService);
    ServedExactly(FulfillOrder(db, order, range, now).value, db.nextPort, now);
  }

  // ---- How long a paid service lasts ----

  /** While its counters stay below its limit, an enabled port is listed until its expiry, and no longer. */
  lemma ListedUntilExpiry(db: Database, id: nat, now: nat, expiry: nat, t: nat)
    requires UniqueListen(db.ports) && id in db.ports && db.ports[id].enabled && now <= t
    requires db.ports[id].expiresAt == Some(expiry) && !QuotaReached(db.ports[id], db.traffic)
    ensures id in ListedIds(AutoStopped(db, now), t) <==> t < expiry
  {
    var gone := ListenOf(db.ports, Doomed(db.ports, now));
    if now < expiry {
      assert db.ports[id].listen !in gone;
      assert Usage(Drop(db.traffic, gone), db.ports[id].listen) == Usage(db.traffic, db.ports[id].listen);
    }
  }

  /** With leftover traffic below the limit, a purchased port is listed for as many days of 86400 seconds as paid. */
  lemma PurchaseLasts(db: Database, order: nat, range: Option<Range>, now: nat, t: nat)
    requires Sound(db) && FulfilsPurchase(db, order, range, now) && now <= t
    requires range.Some? && AllocatedPort(db.ports, range.value).Some?
    requires Usage(db.traffic, AllocatedPort(db.ports, range.value).value) < db.orders[order].limit
    ensures db.nextPort in ListedIds(AutoStopped(FulfillOrder(db, order, range, now).value, now), t)
      <==> t < now + 86400 * db.orders[order].duration
  {
    var e := ExpirePending(db, now);
    var listen := AllocatedPort(e.ports, range.value).value;
    FulfillKeepsSound(db, order, range, now);
    ClosedKeepsPorts(OpenService(e, order, listen, now), order, e.nextService);
    ListedUntilExpiry(FulfillOrder(db, order, range, now).value, db.nextPort, now,
                      now + 86400 * db.orders[order].duration, t);
  }

  /** A renewed port is listed for as many days from the renewal on; its counters start again. */
  lemma RenewalLasts(db: Database, order: nat, range: Option<Range>, now: nat, t: nat)
    requires Inv(db) && Sound(db) && FulfilsRenewal(db, order, range, now) && now <= t && db.orders[order].limit > 0
    ensures db.orders[order].service.Some? && db.orders[order].service.value in db.services
    ensures var id := db.services[db.orders[order].service.value].port;
      id in ListedIds(AutoStopped(FulfillOrder(db, order, range, now).value, now), t)
      <==> t < now + 86400 * db.orders[order].duration
  {
    var service := LinkedService(db, order);
    RenewedLasts(db, order, range, now, service, db.services[service].port, t);
  }

  lemma RenewedLasts(db: Database, order: nat, range: Option<Range>, now: nat, service: nat, id: nat, t: nat)
    requires Sound(db) && FulfilsRenewal(db, order, range, now) && db.orders[order].service == Some(service)
    requires service in db.services && db.services[service].port == id && id in db.ports
    requires now <= t && db.orders[order].limit > 0
    ensures id in ListedIds(AutoStopped(FulfillOrder(db, order, range, now).value, now), t)
      <==> t < now + 86400 * db.orders[order].duration
  {
    RenewedPort(db, order, range, now, service, id);
    FulfillKeepsSound(db, order, range, now);
    ResetUsesNothing(db.traffic, db.ports[id].listen);
    ListedUntilExpiry(FulfillOrder(db, order, range, now).value, id, now, now + 86400 * db.orders[order].duration, t);
  }

  // ---- Leftover traffic ----

  /** Counters of a number without a port, then a customer who orders, pays and is given that number. */
  const LEFTOVER_RUN: seq<Step> := [
    SyncTraffic([], [Stat(443, 100, 0)], 0),
    SetPlan(1, Plan(true, 30, 100)),
    SetCustomer(1, true),
    Create(1, 1, NewPurchase, None, 0, 10),
    Submit(1, 1, 0),
    Mutate(Fulfill(1, Some(Range(443, 443))), 0)
  ]

  /** Nothing but leftover traffic, and the order in the given status. */
  ghost predicate LeftoverState(db: Database, subs: seq<Submission>, status: OrderStatus) {
    && db.ports == map[] && db.nextPort == 1 && db.services == map[] && db.nextService == 1
    && 1 in db.customers && Usage(db.traffic, 443) == 100 && db.submissions == subs
    && 1 in db.orders && db.orders[1] == Order(1, 1, NewPurchase, None, status, 30, 100, Some(10))
  }

  lemma LeftoverOrdered()
    ensures LeftoverState(Run(LEFTOVER_RUN, 4), [], PendingPayment)
  {
    var synced := Run(LEFTOVER_RUN, 1);
    assert Run(LEFTOVER_RUN, 0) == EMPTY;
    assert synced.traffic == SyncStat(EMPTY.traffic, Stat(443, 100, 0), 0);
    assert Usage(synced.traffic, 443) == 100;
    assert Run(LEFTOVER_RUN, 2) == synced.(plans := map[1 := Plan(true, 30, 100)]);
    var ready := Run(LEFTOVER_RUN, 3);
    assert ready == synced.(plans := map[1 := Plan(true, 30, 100)], customers := map[1 := true]);
    assert ExpirePending(ready, 0) == ready;
    assert Run(LEFTOVER_RUN, 4) == Next(ready, Create(1, 1, NewPurchase, None, 0, 10));
  }

  lemma LeftoverPaid()
    ensures LeftoverState(Run(LEFTOVER_RUN, 5), [Submission(1, Submitted)], PaymentSubmitted)
  {
    LeftoverOrdered();
    assert Run(LEFTOVER_RUN, 5) == Next(Run(LEFTOVER_RUN, 4), Submit(1, 1, 0));
  }

  lemma LeftoverFulfilled(db: Database, order: nat, range: Range, now: nat)
    requires LeftoverState(db, [Submission(1, Submitted)], PaymentSubmitted)
    requires order == 1 && range == Range(443, 443) && now == 0
    ensures FulfilsPurchase(db, order, Some(range), now) && AllocatedPort(db.ports, range) == Some(443)
    ensures var after := FulfillOrder(db, order, Some(range), now).value;
      && order in after.orders && after.orders[order].status == Fulfilled
      && order in after.services && after.services[order].port == 1
      && 1 in after.ports && after.ports[1].listen == 443 && after.ports[1].customer == Some(1)
  {
    var e := ExpirePending(db, now);
    assert e.orders[order] == db.orders[order];
    assert UsedPorts(db.ports, range) == {};
    assert Latest(db.submissions, order, 1) == Some(0);
  }

  /** The run reaches a fulfilled purchase that is not served: its port stopped at a quota it never used. */
  lemma LeftoverTrafficStopsPurchase()
    ensures var db := Run(LEFTOVER_RUN, 6);
      && 1 in db.orders && db.orders[1].status == Fulfilled && 1 in db.services && db.services[1].port == 1
      && 1 in db.ports && db.ports[1].listen == 443 && 1 !in ListedIds(db, 0)
  {
    LeftoverPaid();
    RunKeepsSound(LEFTOVER_RUN, 5);
    FulfilledIsNotServed(Run(LEFTOVER_RUN, 5), LEFTOVER_RUN[5], Range(443, 443));
  }

  lemma FulfilledIsNotServed(db: Database, step: Step, range: Range)
    requires LeftoverState(db, [Submission(1, Submitted)], PaymentSubmitted) && Sound(db)
    requires step == Mutate(Fulfill(1, Some(range)), 0) && range == Range(443, 443)
    ensures var after := Next(db, step);
      && 1 in after.orders && after.orders[1].status == Fulfilled && 1 in after.services && after.services[1].port == 1
      && 1 in after.ports && after.ports[1].listen == 443 && 1 !in ListedIds(after, step.now)
  {
    LeftoverFulfilled(db, 1, range, step.now);
    PurchaseIsServed(db, 1, Some(range), step.now);
    var fulfilled := FulfillOrder(db, 1, Some(range), step.now).value;
    StoppedIsThere(fulfilled, 1, step.now);
    assert Next(db, step) == AutoStopped(fulfilled, step.now);
  }

  /** A port with a customer is still there after the automatic disabling, with its number. */
  lemma StoppedIsThere(db: Database, id: nat, now: nat)
    requires id in db.ports && !Unlinked(db.ports[id])
    ensures var after := AutoStopped(db, now);
      && id in after.ports && after.ports[id].listen == db.ports[id].listen
      && after.orders == db.orders && after.services == db.services
  {
    AutoStopKeepsLinked(db, now);
  }
}
