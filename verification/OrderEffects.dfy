/** What each transaction of the shop does to the orders: who may, which status follows, and what stays. */
module OrderEffects {
  import opened Wrappers
  import opened TrafficTables
  import opened PanelTables
  import opened PortRules
  import opened PortEffects
  import opened Orders
  import opened OrderInvariants
  import opened PanelOperations
  import PanelRuns

  // ---- Expiry ----

  /** At this time the order is past its deadline and nothing was paid, or the payment was rejected. */
  predicate Overdue(o: Order, now: nat) {
    (o.status == PendingPayment || o.status == PaymentRejected) && o.expiresAt.Some? && o.expiresAt.value <= now
  }

  /** The status when the shop looks at the order. */
  function StatusAt(o: Order, now: nat): OrderStatus {
    if Overdue(o, now) then OrderStatus.Expired else o.status
  }

  /** Only overdue orders expire, and they do; the rest of the database stays. */
  lemma ExpiryEffect(db: Database, now: nat, order: nat)
    ensures var after := ExpirePending(db, now);
      && (order in after.orders <==> order in db.orders)
      && (order in db.orders ==> after.orders[order] == db.orders[order].(status := StatusAt(db.orders[order], now)))
      && after == db.(orders := after.orders)
  {
  }

  /** Every other order at most expires, and nothing but orders and submissions changes. */
  ghost predicate OnlyOrder(a: Database, b: Database, order: nat, now: nat) {
    && (forall i :: i != order ==> (i in b.orders <==> i in a.orders))
    && (forall i :: i in a.orders && i != order ==> b.orders[i] == a.orders[i].(status := StatusAt(a.orders[i], now)))
    && b == a.(orders := b.orders, nextOrder := b.nextOrder, submissions := b.submissions)
  }

  // ---- Placing an order ----

  /** The order still binds its service at this time. */
  predicate Binds(o: Order, service: nat, now: nat) {
    o.service == Some(service) && StatusAt(o, now) in {PendingPayment, PaymentSubmitted, PaymentRejected}
  }

  /** A service of this customer and plan, stopped by time or bytes, that no open order is for. */
  ghost predicate Renewable(db: Database, customer: nat, plan: nat, service: nat, now: nat) {
    && service in db.services && db.services[service].customer == customer && db.services[service].plan == plan
    && db.services[service].port in db.ports
    && (var p := db.ports[db.services[service].port];
        || (p.expiresAt.Some? && p.expiresAt.value <= now)
        || (p.limit.Some? && Usage(db.traffic, p.listen) >= p.limit.value))
    && forall i :: i in db.orders ==> !Binds(db.orders[i], service, now)
  }

  /** Who may order what. */
  ghost predicate MayOrder(db: Database, customer: nat, plan: nat, kind: Kind, service: Option<nat>, now: nat) {
    && customer in db.customers && db.customers[customer] && plan in db.plans && db.plans[plan].enabled
    && (kind == Renewal ==> service.Some? && Renewable(db, customer, plan, service.value, now))
  }

  lemma OrderableExactly(db: Database, customer: nat, plan: nat, kind: Kind, service: Option<nat>, now: nat,
                         deadline: nat)
    ensures CreateOrder(db, customer, plan, kind, service, now, deadline).Ok?
       <==> MayOrder(db, customer, plan, kind, service, now)
  {
    if service.Some? { BindingExactly(db, service.value, now); }
  }

  /** A customer who is switched off, or a plan that is, takes no order; nothing but that row changes. */
  lemma SettingsEffect(db: Database, customer: nat, active: bool, plan: nat, value: Plan, kind: Kind,
                       service: Option<nat>, now: nat, deadline: nat)
    ensures var after := PanelRuns.Next(db, PanelRuns.SetCustomer(customer, active));
      && after == db.(customers := after.customers) && after.customers - {customer} == db.customers - {customer}
      && customer in after.customers && after.customers[customer] == active
      && (!active ==> CreateOrder(after, customer, plan, kind, service, now, deadline).Err?)
    ensures var after := PanelRuns.Next(db, PanelRuns.SetPlan(plan, value));
      && after == db.(plans := after.plans) && after.plans - {plan} == db.plans - {plan}
      && plan in after.plans && after.plans[plan] == value
      && (!value.enabled ==> CreateOrder(after, customer, plan, kind, service, now, deadline).Err?)
  {
  }

  lemma PlacedOrder(db: Database, customer: nat, plan: nat, kind: Kind, service: Option<nat>, now: nat, deadline: nat)
    requires CreateOrder(db, customer, plan, kind, service, now, deadline).Ok?
    ensures plan in db.plans
    ensures var after := CreateOrder(db, customer, plan, kind, service, now, deadline).value;
      && OnlyOrder(db, after, db.nextOrder, now) && after.submissions == db.submissions
      && db.nextOrder in after.orders && after.nextOrder == db.nextOrder + 1
      && after.orders[db.nextOrder]
         == Order(customer, plan, kind, if kind == Renewal then service else None, PendingPayment,
                  db.plans[plan].duration, db.plans[plan].limit, Some(deadline))
  {
  }

  /** An order is accepted exactly if it may be placed, and then it is bound to the plan's terms of this moment. */
  lemma CreateOrderEffect(db: Database, customer: nat, plan: nat, kind: Kind, service: Option<nat>, now: nat,
                          deadline: nat)
    ensures var r := CreateOrder(db, customer, plan, kind, service, now, deadline);
      && (r.Ok? <==> MayOrder(db, customer, plan, kind, service, now))
      && (r.Ok? ==>
            && OnlyOrder(db, r.value, db.nextOrder, now) && r.value.submissions == db.submissions
            && db.nextOrder in r.value.orders && r.value.nextOrder == db.nextOrder + 1
            && var o := r.value.orders[db.nextOrder];
               && o.customer == customer && o.plan == plan && o.kind == kind && o.status == PendingPayment
               && o.service == (if kind == Renewal then service else None)
               && o.duration == db.plans[plan].duration && o.limit == db.plans[plan].limit
               && o.expiresAt == Some(deadline))
  {
    OrderableExactly(db, customer, plan, kind, service, now, deadline);
    if CreateOrder(db, customer, plan, kind, service, now, deadline).Ok? {
      PlacedOrder(db, customer, plan, kind, service, now, deadline);
    }
  }

  lemma BindingExactly(db: Database, service: nat, now: nat)
    ensures HasOpenOrder(ExpirePending(db, now), service)
       <==> exists i :: i in db.orders && Binds(db.orders[i], service, now)
  {
    var e := ExpirePending(db, now);
    forall i | i in db.orders ensures e.orders[i].service == Some(service) && Open(e.orders[i])
                                      <==> Binds(db.orders[i], service, now) { }
    if HasOpenOrder(e, service) {
      var i :| i in e.orders && e.orders[i].service == Some(service) && Open(e.orders[i]);
      assert Binds(db.orders[i], service, now);
    }
    if exists i :: i in db.orders && Binds(db.orders[i], service, now) {
      var i :| i in db.orders && Binds(db.orders[i], service, now);
      assert i in e.orders && e.orders[i].service == Some(service) && Open(e.orders[i]);
    }
  }

  // ---- Payment, review, cancellation ----

  /** The order's own customer may pay while it waits for payment or its payment was rejected. */
  lemma SubmitEffect(db: Database, customer: nat, order: nat, now: nat)
    ensures var r := SubmitPayment(db, customer, order, now);
      && (r.Ok? <==> order in db.orders && db.orders[order].customer == customer
                     && StatusAt(db.orders[order], now) in {PendingPayment, PaymentRejected})
      && (r.Ok? ==>
            && OnlyOrder(db, r.value, order, now) && order in r.value.orders && r.value.nextOrder == db.nextOrder
            && r.value.orders[order] == db.orders[order].(status := PaymentSubmitted)
            && |r.value.submissions| == |db.submissions| + 1 && db.submissions <= r.value.submissions
            && r.value.submissions[|db.submissions|] == Submission(order, Submitted))
  {
  }

  /** The last submission of an order. */
  ghost predicate IsLast(subs: seq<Submission>, order: nat, k: nat) {
    k < |subs| && subs[k].order == order && forall j :: k < j < |subs| ==> subs[j].order != order
  }

  /** The last submission of the order is marked, and no other. */
  ghost predicate Marked(a: seq<Submission>, b: seq<Submission>, order: nat, review: Review) {
    exists k: nat :: IsLast(a, order, k) && b == a[k := Submission(order, review)]
  }

  lemma HasSubmission(db: Database, order: nat)
    requires Inv(db) && order in db.orders && db.orders[order].status == PaymentSubmitted
    ensures Latest(db.submissions, order, |db.submissions|).Some?
  {
    assert Fits(db.orders[order].status, LatestReview(db.submissions, order));
  }

  lemma MarkEffect(db: Database, order: nat, review: Review)
    requires Latest(db.submissions, order, |db.submissions|).Some?
    ensures var r := MarkLatest(db, order, review);
      && r.Ok? && r.value == db.(submissions := r.value.submissions)
      && Marked(db.submissions, r.value.submissions, order, review)
  {
    var k := Latest(db.submissions, order, |db.submissions|).value;
    assert IsLast(db.submissions, order, k);
    assert MarkLatest(db, order, review).value.submissions == db.submissions[k := Submission(order, review)];
  }

  lemma RejectionMarks(db: Database, order: nat, now: nat)
    requires order in db.orders && db.orders[order].status == PaymentSubmitted
    requires Latest(db.submissions, order, |db.submissions|).Some?
    ensures var e := ExpirePending(db, now);
      && MarkLatest(e, order, Rejected).Ok?
      && RejectOrder(db, order, now) == Ok(SetStatus(MarkLatest(e, order, Rejected).value, order, PaymentRejected))
  {
  }

  lemma SubmittedIsRejected(db: Database, order: nat, now: nat)
    requires order in db.orders && db.orders[order].status == PaymentSubmitted
    requires Latest(db.submissions, order, |db.submissions|).Some?
    ensures var r := RejectOrder(db, order, now);
      && r.Ok? && OnlyOrder(db, r.value, order, now) && order in r.value.orders && r.value.nextOrder == db.nextOrder
      && r.value.orders[order] == db.orders[order].(status := PaymentRejected)
      && Marked(db.submissions, r.value.submissions, order, Rejected)
  {
    RejectionMarks(db, order, now);
    MarkEffect(ExpirePending(db, now), order, Rejected);
    ExpiryEffect(db, now, order);
  }

  lemma OnlySubmittedIsRejected(db: Database, order: nat, now: nat)
    requires RejectOrder(db, order, now).Ok?
    ensures order in db.orders && db.orders[order].status == PaymentSubmitted
  {
  }

  /** A submitted payment can be rejected, and so is its submission. */
  lemma RejectEffect(db: Database, order: nat, now: nat)
    requires Inv(db)
    ensures var r := RejectOrder(db, order, now);
      && (r.Ok? <==> order in db.orders && db.orders[order].status == PaymentSubmitted)
      && (r.Ok? ==>
            && OnlyOrder(db, r.value, order, now) && order in r.value.orders && r.value.nextOrder == db.nextOrder
            && r.value.orders[order] == db.orders[order].(status := PaymentRejected)
            && Marked(db.submissions, r.value.submissions, order, Rejected))
  {
    if order in db.orders && db.orders[order].status == PaymentSubmitted {
      HasSubmission(db, order);
      SubmittedIsRejected(db, order, now);
    } else if RejectOrder(db, order, now).Ok? {
      OnlySubmittedIsRejected(db, order, now);
    }
  }

  /** Every order that is not over can be cancelled. */
  lemma CancelEffect(db: Database, order: nat, now: nat)
    ensures var r := CancelOrder(db, order, now);
      && (r.Ok? <==> order in db.orders
                     && StatusAt(db.orders[order], now) in {PendingPayment, PaymentSubmitted, PaymentRejected})
      && (r.Ok? ==>
            && OnlyOrder(db, r.value, order, now) && order in r.value.orders && r.value.nextOrder == db.nextOrder
            && r.value.submissions == db.submissions
            && r.value.orders[order] == db.orders[order].(status := Cancelled))
  {
  }

  // ---- Fulfilment ----

  predicate IsFree(ports: map<nat, Port>, q: nat) {
    forall i :: i in ports ==> ports[i].listen != q
  }

  /** A number of the range that no port has. */
  ghost predicate HasFree(ports: map<nat, Port>, range: Range) {
    exists q: nat :: range.start <= q <= range.end && IsFree(ports, q)
  }

  lemma FreeExactly(ports: map<nat, Port>, range: Range)
    ensures AllocatedPort(ports, range).Some? <==> HasFree(ports, range)
    ensures AllocatedPort(ports, range).Some? ==>
      var q := AllocatedPort(ports, range).value; range.start <= q <= range.end && IsFree(ports, q)
  {
    if AllocatedPort(ports, range).Some? {
      assert IsFree(ports, AllocatedPort(ports, range).value);
    }
    if HasFree(ports, range) {
      var q: nat :| range.start <= q <= range.end && IsFree(ports, q);
      assert q !in UsedPorts(ports, range);
    }
  }

  /** What a fulfilment leaves of the orders: this one is fulfilled for `service`, its last submission approved. */
  ghost predicate FulfilledFor(a: Database, b: Database, order: nat, service: nat, now: nat) {
    && order in a.orders && order in b.orders && b.nextOrder == a.nextOrder
    && b.orders[order] == a.orders[order].(status := Fulfilled, service := Some(service))
    && (forall i :: i != order ==> (i in b.orders <==> i in a.orders))
    && (forall i :: i in a.orders && i != order ==> b.orders[i] == a.orders[i].(status := StatusAt(a.orders[i], now)))
    && b.customers == a.customers && b.plans == a.plans
    && Marked(a.submissions, b.submissions, order, Approved)
  }

  /** Closing touches the order and its submission alone. */
  lemma ClosedEffect(db: Database, made: Database, order: nat, service: nat, now: nat)
    requires order in db.orders && db.orders[order].status == PaymentSubmitted
    requires Latest(db.submissions, order, |db.submissions|).Some?
    requires made.orders == ExpirePending(db, now).orders && made.nextOrder == db.nextOrder
    requires made.submissions == db.submissions && made.customers == db.customers && made.plans == db.plans
    ensures var r := Closed(made, order, service);
      && r.Ok? && FulfilledFor(db, r.value, order, service, now)
      && r.value.ports == made.ports && r.value.nextPort == made.nextPort && r.value.traffic == made.traffic
      && r.value.services == made.services && r.value.nextService == made.nextService
  {
    MarkEffect(made, order, Approved);
    ExpiryEffect(db, now, order);
  }

  /** The new port and the new service of a fulfilled purchase. */
  ghost predicate Opened(a: Database, b: Database, order: nat, range: Range, now: nat)
    requires order in a.orders
  {
    var o := a.orders[order];
    && b.nextPort == a.nextPort + 1 && b.nextService == a.nextService + 1 && b.traffic == a.traffic
    && a.nextPort in b.ports && (forall i :: i != a.nextPort ==> (i in b.ports <==> i in a.ports))
    && (forall i :: i in a.ports && i != a.nextPort ==> b.ports[i] == a.ports[i])
    && b.services == a.services[a.nextService := Service(o.customer, o.plan, a.nextPort, order, order)]
    && var p := b.ports[a.nextPort];
       && range.start <= p.listen <= range.end && IsFree(a.ports, p.listen) && p.enabled
       && p.customer == Some(o.customer) && p.service == Some(a.nextService) && p.sourceOrder == Some(order)
       && p.expiresAt == Some(now + 86400 * o.duration) && p.limit == Some(o.limit)
  }

  /**
   A submitted purchase of a known customer is fulfilled exactly if a number of the range is free: one new port,
   switched on, with the customer, the service and the order on it, and one new service, and nothing else.
   */
  lemma FulfillPurchaseEffect(db: Database, order: nat, range: Option<Range>, now: nat)
    requires Inv(db) && order in db.orders && db.orders[order].kind == NewPurchase
    ensures var r, o := FulfillOrder(db, order, range, now), db.orders[order];
      && (r.Ok? <==> o.customer in db.customers && o.status == PaymentSubmitted
                     && range.Some? && HasFree(db.ports, range.value))
      && (r.Ok? ==> FulfilledFor(db, r.value, order, db.nextService, now)
                    && Opened(db, r.value, order, range.value, now))
  {
    var o := db.orders[order];
    if range.Some? { FreeExactly(db.ports, range.value); }
    if o.customer in db.customers && o.status == PaymentSubmitted && range.Some? && HasFree(db.ports, range.value) {
      HasSubmission(db, order);
      PaidPurchase(db, order, range.value, now, AllocatedPort(db.ports, range.value).value);
    } else if FulfillOrder(db, order, range, now).Ok? {
      OnlyPaidPurchase(db, order, range, now);
    }
  }

  lemma PaidPurchase(db: Database, order: nat, range: Range, now: nat, listen: nat)
    requires order in db.orders && db.orders[order].kind == NewPurchase && db.orders[order].status == PaymentSubmitted
    requires db.orders[order].customer in db.customers && AllocatedPort(db.ports, range) == Some(listen)
    requires Latest(db.submissions, order, |db.submissions|).Some?
    ensures var r := FulfillOrder(db, order, Some(range), now);
      && r.Ok? && FulfilledFor(db, r.value, order, db.nextService, now) && Opened(db, r.value, order, range, now)
  {
    var made := OpenService(ExpirePending(db, now), order, listen, now);
    PortIsOpened(db, order, range, now, listen, made);
    ClosedEffect(db, made, order, db.nextService, now);
    PurchaseIsOpened(db, order, range, now, listen);
  }

  lemma PortIsOpened(db: Database, order: nat, range: Range, now: nat, listen: nat, made: Database)
    requires order in db.orders && AllocatedPort(db.ports, range) == Some(listen)
    requires made == OpenService(ExpirePending(db, now), order, listen, now)
    ensures Opened(db, made, order, range, now)
    ensures made.orders == ExpirePending(db, now).orders && made.nextOrder == db.nextOrder
    ensures made.submissions == db.submissions && made.customers == db.customers && made.plans == db.plans
  {
    FreeExactly(db.ports, range);
  }

  lemma OnlyPaidPurchase(db: Database, order: nat, range: Option<Range>, now: nat)
    requires order in db.orders && db.orders[order].kind == NewPurchase && FulfillOrder(db, order, range, now).Ok?
    ensures db.orders[order].customer in db.customers && db.orders[order].status == PaymentSubmitted
    ensures range.Some? && AllocatedPort(db.ports, range.value).Some?
  {
  }

  lemma PurchaseIsOpened(db: Database, order: nat, range: Range, now: nat, listen: nat)
    requires order in db.orders && db.orders[order].kind == NewPurchase && db.orders[order].status == PaymentSubmitted
    requires AllocatedPort(db.ports, range) == Some(listen)
    ensures FulfillOrder(db, order, Some(range), now)
         == if db.orders[order].customer !in db.customers then Err(NotFound)
            else Closed(OpenService(ExpirePending(db, now), order, listen, now), order, db.nextService)
  {
  }

  /** The renewed port, its counters and its service. */
  ghost predicate Renewed(a: Database, b: Database, order: nat, service: nat, now: nat)
    requires order in a.orders && service in a.services && a.services[service].port in a.ports
  {
    var o, id := a.orders[order], a.services[service].port;
    && b.nextPort == a.nextPort && b.nextService == a.nextService
    && b.services == a.services[service := a.services[service].(latestOrder := order)]
    && b.ports == a.ports[id := a.ports[id].(expiresAt := Some(now + 86400 * o.duration), limit := Some(o.limit),
                                             enabled := true)]
    && BytesCleared(a.traffic, b.traffic, a.ports[id].listen)
    && forall other :: other != a.ports[id].listen ==> SameTraffic(a.traffic, b.traffic, other)
  }

  /**
   A submitted renewal is fulfilled exactly if its customer and its plan are still there: the service's port is
   switched on with new time and limit, its number's bytes are cleared, and nothing else of ports and counters
   changes.
   */
  lemma FulfillRenewalEffect(db: Database, order: nat, range: Option<Range>, now: nat, service: nat)
    requires Inv(db) && order in db.orders && db.orders[order].kind == Renewal
    requires db.orders[order].service == Some(service)
    ensures service in db.services && db.services[service].port in db.ports
    ensures var r, o := FulfillOrder(db, order, range, now), db.orders[order];
      && (r.Ok? <==> o.customer in db.customers && o.status == PaymentSubmitted && o.plan in db.plans)
      && (r.Ok? ==> FulfilledFor(db, r.value, order, service, now) && Renewed(db, r.value, order, service, now))
  {
    var s := PanelRuns.LinkedService(db, order);
    assert OrderOk(db.services, db.orders, order);
    if db.orders[order].status == PaymentSubmitted {
      HasSubmission(db, order);
      var made := RenewService(ExpirePending(db, now), order, service, now);
      RenewalIsRenewed(db, order, now, service, made);
      ClosedEffect(db, made, order, service, now);
      RenewalIsClosed(db, order, range, now, service);
    }
  }

  lemma RenewalIsRenewed(db: Database, order: nat, now: nat, service: nat, made: Database)
    requires order in db.orders && service in db.services && db.services[service].port in db.ports
    requires db.services[service].plan == db.orders[order].plan
    requires made == RenewService(ExpirePending(db, now), order, service, now)
    ensures Renewed(db, made, order, service, now)
  {
    ResetEffect(db.traffic, db.ports[db.services[service].port].listen);
  }

  lemma RenewalIsClosed(db: Database, order: nat, range: Option<Range>, now: nat, service: nat)
    requires order in db.orders && db.orders[order].kind == Renewal && db.orders[order].status == PaymentSubmitted
    requires db.orders[order].service == Some(service) && service in db.services
    requires db.services[service].customer == db.orders[order].customer
    ensures FulfillOrder(db, order, range, now)
         == if db.orders[order].customer !in db.customers || db.services[service].plan !in db.plans then Err(NotFound)
            else Closed(RenewService(ExpirePending(db, now), order, service, now), order, service)
  {
  }

  // ---- Terms, over whole runs ----

  /** What was agreed when the order was placed. */
  ghost predicate SameTerms(a: Order, b: Order) {
    && a.customer == b.customer && a.plan == b.plan && a.kind == b.kind && a.duration == b.duration
    && a.limit == b.limit && a.expiresAt == b.expiresAt && (a.service.Some? ==> b.service == a.service)
  }

  lemma StepKeepsTerms(db: Database, step: PanelRuns.Step, order: nat)
    requires Inv(db) && order in db.orders
    ensures var after := PanelRuns.Next(db, step);
      order in after.orders && SameTerms(db.orders[order], after.orders[order])
  {
    match step
    case Expire(now) => ExpiryEffect(db, now, order);
    case Mutate(op, now) => if Performed(db, op, now).Ok? { MutationKeepsTerms(db, op, now, order); }
    case Disable(now) =>
    case SyncTraffic(lines, stats, now) =>
    case SetCustomer(customer, active) =>
    case SetPlan(plan, value) =>
    case _ => ShopKeepsTerms(db, step, order);
  }

  lemma ShopKeepsTerms(db: Database, step: PanelRuns.Step, order: nat)
    requires Inv(db) && order in db.orders && (step.Create? || step.Submit? || step.Reject? || step.Cancel?)
    ensures var after := PanelRuns.Next(db, step);
      order in after.orders && SameTerms(db.orders[order], after.orders[order])
  {
    match step
    case Create(customer, plan, kind, service, now, deadline) =>
      CreateOrderEffect(db, customer, plan, kind, service, now, deadline);
      assert order != db.nextOrder;
    case Submit(customer, o, now) => SubmitEffect(db, customer, o, now);
    case _ => ReviewKeepsTerms(db, step, order);
  }

  lemma ReviewKeepsTerms(db: Database, step: PanelRuns.Step, order: nat)
    requires Inv(db) && order in db.orders && (step.Reject? || step.Cancel?)
    ensures var after := PanelRuns.Next(db, step);
      order in after.orders && SameTerms(db.orders[order], after.orders[order])
  {
    match step
    case Reject(o, now) => RejectEffect(db, o, now);
    case Cancel(o, now) => CancelEffect(db, o, now);
    case _ =>
  }

  lemma MutationKeepsTerms(db: Database, op: Operation, now: nat, order: nat)
    requires Inv(db) && order in db.orders && Performed(db, op, now).Ok?
    ensures var after := Performed(db, op, now).value;
      && order in after.orders && SameTerms(db.orders[order], after.orders[order])
      && AutoStopped(after, now).orders == after.orders
  {
    if op.Fulfill? {
      FulfilmentKeepsTerms(db, op.order, op.range, now, order);
    } else {
      PortOperationFrame(db, op, now);
    }
  }

  lemma FulfilmentKeepsTerms(db: Database, fulfilled: nat, range: Option<Range>, now: nat, order: nat)
    requires Inv(db) && order in db.orders && FulfillOrder(db, fulfilled, range, now).Ok?
    ensures var after := FulfillOrder(db, fulfilled, range, now).value;
      order in after.orders && SameTerms(db.orders[order], after.orders[order])
  {
    assert fulfilled in db.orders;
    assert OrderOk(db.services, db.orders, fulfilled);
    if db.orders[fulfilled].kind == NewPurchase {
      FulfillPurchaseEffect(db, fulfilled, range, now);
    } else {
      var service := PanelRuns.LinkedService(db, fulfilled);
      FulfillRenewalEffect(db, fulfilled, range, now, service);
    }
  }

  /** Over every run an order keeps its customer, plan, kind, days, limit and deadline, whatever becomes of the plan. */
  lemma {:induction false} TermsAreKept(steps: seq<PanelRuns.Step>, m: nat, n: nat, order: nat)
    requires m <= n <= |steps| && order in PanelRuns.Run(steps, m).orders
    ensures var before, after := PanelRuns.Run(steps, m), PanelRuns.Run(steps, n);
      order in after.orders && SameTerms(before.orders[order], after.orders[order])
    decreases n
  {
    if m < n {
      TermsAreKept(steps, m, n - 1, order);
      PanelRuns.RunKeepsInv(steps, n - 1);
      StepKeepsTerms(PanelRuns.Run(steps, n - 1), steps[n - 1], order);
    }
  }
}
