/** What every transaction of the shop and of the ports keeps: the service structure and the order lifecycle. */
module OrderInvariants {
  import opened Wrappers
  import opened TrafficTables
  import opened PanelTables
  import opened PortRules
  import opened Orders

  type Ports = map<nat, Port>
  type Services = map<nat, Service>
  type OrderTable = map<nat, Order>

  // ---- Services, orders and ports ----

  /** The service's source order is a fulfilled new purchase, and its port links back to it. */
  ghost predicate ServiceOk(ports: Ports, services: Services, orders: OrderTable, id: nat)
    requires id in services
  {
    var s := services[id];
    && s.sourceOrder in orders
    && (var o := orders[s.sourceOrder];
        o.kind == NewPurchase && o.status == Fulfilled && o.service == Some(id) && o.customer == s.customer)
    && s.port in ports && ports[s.port].service == Some(id) && ports[s.port].customer == Some(s.customer)
  }

  ghost predicate OrderOk(services: Services, orders: OrderTable, id: nat)
    requires id in orders
  {
    var o := orders[id];
    match o.kind
    case NewPurchase =>
      if o.status == Fulfilled then
        o.service.Some? && o.service.value in services && services[o.service.value].sourceOrder == id
      else o.service.None?
    case Renewal =>
      o.service.Some? && o.service.value in services
      && services[o.service.value].customer == o.customer && services[o.service.value].plan == o.plan
  }

  ghost predicate PortOk(ports: Ports, services: Services, id: nat)
    requires id in ports
  {
    match ports[id].service
    case Some(s) => s in services && services[s].port == id
    case None => ports[id].customer.None?
  }

  ghost predicate Links(ports: Ports, services: Services, orders: OrderTable) {
    && (forall i :: i in services ==> ServiceOk(ports, services, orders, i))
    && (forall i :: i in orders ==> OrderOk(services, orders, i))
    && (forall i :: i in ports ==> PortOk(ports, services, i))
  }

  /** Services correspond one to one with fulfilled new purchases, and never share a port. */
  lemma ServicesAreFulfilledPurchases(ports: Ports, services: Services, orders: OrderTable)
    requires Links(ports, services, orders)
    ensures forall i, j :: i in services && j in services && i != j ==>
      services[i].sourceOrder != services[j].sourceOrder && services[i].port != services[j].port
    ensures forall o :: o in orders && orders[o].kind == NewPurchase && orders[o].status == Fulfilled ==>
      exists i :: i in services && services[i].sourceOrder == o && orders[o].service == Some(i)
  {
    forall i, j | i in services && j in services && i != j
      ensures services[i].sourceOrder != services[j].sourceOrder && services[i].port != services[j].port {
      assert ServiceOk(ports, services, orders, i) && ServiceOk(ports, services, orders, j);
    }
    forall o | o in orders && orders[o].kind == NewPurchase && orders[o].status == Fulfilled
      ensures exists i :: i in services && services[i].sourceOrder == o && orders[o].service == Some(i) {
      assert OrderOk(services, orders, o);
      assert orders[o].service.value in services;
    }
  }

  // ---- The order lifecycle ----

  predicate Fits(status: OrderStatus, latest: Option<Review>) {
    match status
    case PendingPayment => latest == None
    case PaymentSubmitted => latest == Some(Submitted)
    case PaymentRejected => latest == Some(Rejected)
    case Fulfilled => latest == Some(Approved)
    case _ => latest != Some(Approved)
  }

  ghost predicate AllFit(orders: OrderTable, subs: seq<Submission>) {
    forall i :: i in orders ==> Fits(orders[i].status, LatestReview(subs, i))
  }

  /** Every submission belongs to an order, and all but an order's latest are rejected. */
  ghost predicate Reviewed(orders: OrderTable, subs: seq<Submission>) {
    && (forall k :: 0 <= k < |subs| ==> subs[k].order in orders)
    && (forall i, j :: 0 <= i < j < |subs| && subs[i].order == subs[j].order ==> subs[i].review == Rejected)
  }

  ghost predicate NoOpenRenewal(orders: OrderTable, service: Option<nat>) {
    forall i :: i in orders && OpenRenewal(orders[i]) ==> orders[i].service != service
  }

  ghost predicate OneOpenRenewal(orders: OrderTable) {
    forall i, j :: i in orders && j in orders && i != j && OpenRenewal(orders[i]) && OpenRenewal(orders[j]) ==>
      orders[i].service != orders[j].service
  }

  ghost predicate Lifecycle(orders: OrderTable, subs: seq<Submission>) {
    AllFit(orders, subs) && Reviewed(orders, subs) && OneOpenRenewal(orders)
  }

  lemma ApprovedIsLatest(orders: OrderTable, subs: seq<Submission>, order: nat, k: nat)
    requires Lifecycle(orders, subs) && k < |subs| && subs[k] == Submission(order, Approved)
    ensures Latest(subs, order, |subs|) == Some(k) && order in orders && orders[order].status == Fulfilled
  {
    assert Fits(orders[order].status, LatestReview(subs, order));
  }

  /** An approved submission is the latest of a fulfilled order, and every fulfilled order has one. */
  lemma ApprovedIffFulfilled(orders: OrderTable, subs: seq<Submission>, order: nat)
    requires Lifecycle(orders, subs) && order in orders
    ensures orders[order].status == Fulfilled <==> exists k :: 0 <= k < |subs| && subs[k] == Submission(order, Approved)
    ensures forall k :: 0 <= k < |subs| && subs[k] == Submission(order, Approved) ==>
      Latest(subs, order, |subs|) == Some(k)
  {
    forall k | 0 <= k < |subs| && subs[k] == Submission(order, Approved)
      ensures Latest(subs, order, |subs|) == Some(k) && orders[order].status == Fulfilled
    {
      ApprovedIsLatest(orders, subs, order, k);
    }
    if orders[order].status == Fulfilled {
      var k := Latest(subs, order, |subs|).value;
      assert subs[k] == Submission(order, Approved);
    }
  }

  ghost predicate Inv(db: Database) {
    Keyed(db) && Links(db.ports, db.services, db.orders) && Lifecycle(db.orders, db.submissions)
  }

  // ---- Links under each kind of change ----

  /** The same orders, with other statuses; none becomes or ceases to be fulfilled. */
  ghost predicate StatusOnly(a: OrderTable, b: OrderTable) {
    a.Keys == b.Keys
    && forall i :: i in a ==>
      b[i] == a[i].(status := b[i].status) && (a[i].status == Fulfilled <==> b[i].status == Fulfilled)
  }

  lemma StatusOnlyKeepsLinks(ports: Ports, services: Services, a: OrderTable, b: OrderTable)
    requires Links(ports, services, a) && StatusOnly(a, b)
    ensures Links(ports, services, b)
  {
    forall i | i in services ensures ServiceOk(ports, services, b, i) { assert ServiceOk(ports, services, a, i); }
    forall i | i in b ensures OrderOk(services, b, i) { assert OrderOk(services, a, i); }
  }

  lemma OneStatusKeepsLinks(e: Database, order: nat, o: Order)
    requires Links(e.ports, e.services, e.orders) && order in e.orders && o == e.orders[order].(status := o.status)
    requires e.orders[order].status == Fulfilled <==> o.status == Fulfilled
    ensures Links(e.ports, e.services, e.orders[order := o])
  {
    StatusOnlyKeepsLinks(e.ports, e.services, e.orders, e.orders[order := o]);
  }

  lemma NewOrderKeepsLinks(ports: Ports, services: Services, orders: OrderTable, id: nat, o: Order)
    requires Links(ports, services, orders) && id !in orders && OrderOk(services, orders[id := o], id)
    ensures Links(ports, services, orders[id := o])
  {
    var after := orders[id := o];
    forall i | i in services ensures ServiceOk(ports, services, after, i) {
      assert ServiceOk(ports, services, orders, i);
    }
    forall i | i in orders ensures OrderOk(services, after, i) { assert OrderOk(services, orders, i); }
  }

  /** A fulfilled purchase: one new port and one new service, linked to each other and to the order. */
  lemma PurchaseKeepsLinks(ports: Ports, services: Services, orders: OrderTable, order: nat, p: nat, port: Port, s: nat)
    requires Links(ports, services, orders) && p !in ports && s !in services
    requires order in orders && orders[order].kind == NewPurchase && orders[order].status != Fulfilled
    requires port.service == Some(s) && port.customer == Some(orders[order].customer)
    ensures var o := orders[order];
      Links(ports[p := port], services[s := Service(o.customer, o.plan, p, order, order)],
            orders[order := o.(status := Fulfilled, service := Some(s))])
  {
    var o := orders[order];
    var ports', services' := ports[p := port], services[s := Service(o.customer, o.plan, p, order, order)];
    var orders' := orders[order := o.(status := Fulfilled, service := Some(s))];
    forall i | i in services' ensures ServiceOk(ports', services', orders', i) {
      if i in services { assert ServiceOk(ports, services, orders, i); }
    }
    forall i | i in orders' ensures OrderOk(services', orders', i) { assert OrderOk(services, orders, i); }
    forall i | i in ports' ensures PortOk(ports', services', i) { if i in ports { assert PortOk(ports, services, i); } }
  }

  /** Ports keep their links, whatever else of them changes, and only unlinked ones go. */
  ghost predicate SameLinks(a: Ports, b: Ports) {
    && (forall i :: i in b ==> if i in a then b[i].service == a[i].service && b[i].customer == a[i].customer
                               else b[i].service.None? && b[i].customer.None?)
    && (forall i :: i in a && a[i].service.Some? && a[i].service.value > 0 ==> i in b)
  }

  lemma PortChangesKeepLinks(a: Ports, b: Ports, services: Services, orders: OrderTable)
    requires Links(a, services, orders) && SameLinks(a, b) && forall i :: i in services ==> i > 0
    ensures Links(b, services, orders)
  {
    forall i | i in services ensures ServiceOk(b, services, orders, i) { assert ServiceOk(a, services, orders, i); }
    forall i | i in b ensures PortOk(b, services, i) { if i in a { assert PortOk(a, services, i); } }
  }

  lemma RenewalKeepsLinks(ports: Ports, services: Services, orders: OrderTable, order: nat)
    requires Links(ports, services, orders) && order in orders && orders[order].kind == Renewal
    ensures orders[order].service.Some? && orders[order].service.value in services
    ensures var o := orders[order];
      var s := o.service.value;
      Links(ports, services[s := services[s].(latestOrder := order, plan := o.plan)],
            orders[order := o.(status := Fulfilled, service := Some(s))])
  {
    assert OrderOk(services, orders, order);
    var o := orders[order];
    var s := o.service.value;
    var services' := services[s := services[s].(latestOrder := order, plan := o.plan)];
    var orders' := orders[order := o.(status := Fulfilled, service := Some(s))];
    forall i | i in services' ensures ServiceOk(ports, services', orders', i) {
      assert ServiceOk(ports, services, orders, i);
    }
    forall i | i in orders' ensures OrderOk(services', orders', i) { assert OrderOk(services, orders, i); }
    forall i | i in ports ensures PortOk(ports, services', i) { assert PortOk(ports, services, i); }
  }

  // ---- Submissions ----

  lemma {:induction false} LatestOfPrefix(subs: seq<Submission>, s: Submission, order: nat, n: nat)
    requires n <= |subs|
    ensures Latest(subs + [s], order, n) == Latest(subs, order, n)
  {
    if n > 0 { LatestOfPrefix(subs, s, order, n - 1); }
  }

  lemma ReviewAfterSubmit(subs: seq<Submission>, s: Submission, order: nat)
    ensures LatestReview(subs + [s], order) == if s.order == order then Some(s.review) else LatestReview(subs, order)
  {
    LatestOfPrefix(subs, s, order, |subs|);
  }

  lemma {:induction false} LatestOfMarked(subs: seq<Submission>, k: nat, review: Review, order: nat, n: nat)
    requires k < |subs| && n <= |subs|
    ensures Latest(subs[k := subs[k].(review := review)], order, n) == Latest(subs, order, n)
  {
    if n > 0 { LatestOfMarked(subs, k, review, order, n - 1); }
  }

  function Marked(subs: seq<Submission>, k: nat, review: Review): seq<Submission>
    requires k < |subs|
  {
    subs[k := subs[k].(review := review)]
  }

  /** Marking the latest submission of an order changes that order's review alone. */
  lemma ReviewAfterMark(subs: seq<Submission>, k: nat, review: Review, order: nat)
    requires k < |subs| && Latest(subs, subs[k].order, |subs|) == Some(k)
    ensures LatestReview(Marked(subs, k, review), order)
         == if subs[k].order == order then Some(review) else LatestReview(subs, order)
  {
    LatestOfMarked(subs, k, review, order, |subs|);
  }

  /** A reviewed order moves to the status its new review calls for. */
  lemma MarkKeepsLifecycle(orders: OrderTable, subs: seq<Submission>, order: nat, k: nat, review: Review, o: Order)
    requires Lifecycle(orders, subs) && order in orders && Latest(subs, order, |subs|) == Some(k)
    requires Fits(o.status, Some(review)) && o.kind == orders[order].kind
    requires OpenRenewal(o) ==> OpenRenewal(orders[order]) && o.service == orders[order].service
    ensures Lifecycle(orders[order := o], Marked(subs, k, review))
  {
    var after := orders[order := o];
    forall i | i in after ensures Fits(after[i].status, LatestReview(Marked(subs, k, review), i)) {
      ReviewAfterMark(subs, k, review, i);
    }
  }

  lemma SubmitKeepsLifecycle(orders: OrderTable, subs: seq<Submission>, order: nat, o: Order)
    requires Lifecycle(orders, subs) && order in orders && orders[order].status in {PendingPayment, PaymentRejected}
    requires o == orders[order].(status := PaymentSubmitted)
    ensures Lifecycle(orders[order := o], subs + [Submission(order, Submitted)])
  {
    var after := orders[order := o];
    forall i | i in after ensures Fits(after[i].status, LatestReview(subs + [Submission(order, Submitted)], i)) {
      ReviewAfterSubmit(subs, Submission(order, Submitted), i);
    }
    EarlierAreRejected(orders, subs, order);
  }

  /** When a payment may be submitted, every earlier submission of the order is rejected. */
  lemma EarlierAreRejected(orders: OrderTable, subs: seq<Submission>, order: nat)
    requires Lifecycle(orders, subs) && order in orders && orders[order].status in {PendingPayment, PaymentRejected}
    ensures forall k :: 0 <= k < |subs| && subs[k].order == order ==> subs[k].review == Rejected
  {
    forall k | 0 <= k < |subs| && subs[k].order == order ensures subs[k].review == Rejected {
      var latest := Latest(subs, order, |subs|).value;
      if k < latest { assert subs[latest].order == order; }
    }
  }

  /** Closing an order without approval. */
  ghost predicate ClosesSome(a: OrderTable, b: OrderTable) {
    && StatusOnly(a, b)
    && forall i :: i in a ==>
      b[i] == a[i] || (b[i].status in {Cancelled, OrderStatus.Expired} && a[i].status != Fulfilled)
  }

  lemma ClosingKeepsLifecycle(a: OrderTable, b: OrderTable, subs: seq<Submission>)
    requires Lifecycle(a, subs) && ClosesSome(a, b)
    ensures Lifecycle(b, subs)
  {
    forall i | i in b ensures Fits(b[i].status, LatestReview(subs, i)) {
      assert Fits(a[i].status, LatestReview(subs, i));
    }
  }

  lemma NewOrderKeepsLifecycle(orders: OrderTable, subs: seq<Submission>, id: nat, o: Order)
    requires Lifecycle(orders, subs) && id !in orders && o.status == PendingPayment
    requires o.kind == Renewal ==> NoOpenRenewal(orders, o.service)
    ensures Lifecycle(orders[id := o], subs)
  {
    assert forall k :: 0 <= k < |subs| ==> subs[k].order != id;
  }

  // ---- The transactions ----

  lemma ExpiryCloses(db: Database, now: nat)
    ensures ClosesSome(db.orders, ExpirePending(db, now).orders)
  {
  }

  /** Closing orders keeps the invariant. */
  lemma ClosingKeepsInv(db: Database, orders: OrderTable)
    requires Inv(db) && ClosesSome(db.orders, orders)
    ensures Inv(db.(orders := orders))
  {
    StatusOnlyKeepsLinks(db.ports, db.services, db.orders, orders);
    ClosingKeepsLifecycle(db.orders, orders, db.submissions);
  }

  lemma ExpireKeepsInv(db: Database, now: nat)
    requires Inv(db)
    ensures Inv(ExpirePending(db, now))
  {
    ExpiryCloses(db, now);
    ClosingKeepsInv(db, ExpirePending(db, now).orders);
  }

  lemma AddingKeepsInv(e: Database, o: Order)
    requires Inv(e) && o.status == PendingPayment && OrderOk(e.services, e.orders[e.nextOrder := o], e.nextOrder)
    requires o.kind == Renewal ==> NoOpenRenewal(e.orders, o.service)
    ensures Inv(e.(orders := e.orders[e.nextOrder := o], nextOrder := e.nextOrder + 1))
  {
    NewOrderKeepsLinks(e.ports, e.services, e.orders, e.nextOrder, o);
    NewOrderKeepsLifecycle(e.orders, e.submissions, e.nextOrder, o);
  }

  /**
   What an accepted order looks like: a renewal is for a service of the same customer and plan without another
   open one.
   */
  lemma CreatedOrder(db: Database, customer: nat, plan: nat, kind: Kind, service: Option<nat>, now: nat, deadline: nat)
    returns (o: Order)
    requires CreateOrder(db, customer, plan, kind, service, now, deadline).Ok?
    ensures var e := ExpirePending(db, now);
      && CreateOrder(db, customer, plan, kind, service, now, deadline).value
         == e.(orders := e.orders[e.nextOrder := o], nextOrder := e.nextOrder + 1)
      && o.status == PendingPayment && OrderOk(e.services, e.orders[e.nextOrder := o], e.nextOrder)
      && (o.kind == Renewal ==> NoOpenRenewal(e.orders, o.service))
  {
    var e := ExpirePending(db, now);
    o := CreateOrder(db, customer, plan, kind, service, now, deadline).value.orders[e.nextOrder];
  }

  lemma CreateKeepsInv(db: Database, customer: nat, plan: nat, kind: Kind, service: Option<nat>, now: nat,
                       deadline: nat)
    requires Inv(db) && CreateOrder(db, customer, plan, kind, service, now, deadline).Ok?
    ensures Inv(CreateOrder(db, customer, plan, kind, service, now, deadline).value)
  {
    ExpireKeepsInv(db, now);
    var o := CreatedOrder(db, customer, plan, kind, service, now, deadline);
    AddingKeepsInv(ExpirePending(db, now), o);
  }

  lemma SubmittingKeepsInv(e: Database, order: nat, o: Order)
    requires Inv(e) && order in e.orders && e.orders[order].status in {PendingPayment, PaymentRejected}
    requires o == e.orders[order].(status := PaymentSubmitted)
    ensures Inv(e.(orders := e.orders[order := o], submissions := e.submissions + [Submission(order, Submitted)]))
  {
    SubmitKeepsLifecycle(e.orders, e.submissions, order, o);
    OneStatusKeepsLinks(e, order, o);
  }

  lemma SubmitKeepsInv(db: Database, customer: nat, order: nat, now: nat)
    requires Inv(db) && SubmitPayment(db, customer, order, now).Ok?
    ensures Inv(SubmitPayment(db, customer, order, now).value)
  {
    ExpireKeepsInv(db, now);
    var e := ExpirePending(db, now);
    SubmittingKeepsInv(e, order, e.orders[order].(status := PaymentSubmitted));
  }

  lemma RejectingKeepsInv(e: Database, order: nat, k: nat, o: Order)
    requires Inv(e) && order in e.orders && e.orders[order].status == PaymentSubmitted
    requires o == e.orders[order].(status := PaymentRejected)
    requires Latest(e.submissions, order, |e.submissions|) == Some(k)
    ensures Inv(e.(orders := e.orders[order := o], submissions := Marked(e.submissions, k, Rejected)))
  {
    MarkKeepsLifecycle(e.orders, e.submissions, order, k, Rejected, o);
    OneStatusKeepsLinks(e, order, o);
  }

  lemma RejectKeepsInv(db: Database, order: nat, now: nat)
    requires Inv(db) && RejectOrder(db, order, now).Ok?
    ensures Inv(RejectOrder(db, order, now).value)
  {
    ExpireKeepsInv(db, now);
    var e := ExpirePending(db, now);
    var k := Latest(e.submissions, order, |e.submissions|).value;
    RejectingKeepsInv(e, order, k, e.orders[order].(status := PaymentRejected));
  }

  lemma CancellingCloses(orders: OrderTable, order: nat)
    requires order in orders && Open(orders[order])
    ensures ClosesSome(orders, orders[order := orders[order].(status := Cancelled)])
  {
  }

  lemma CancellingKeepsInv(e: Database, order: nat)
    requires Inv(e) && order in e.orders && Open(e.orders[order])
    ensures Inv(SetStatus(e, order, Cancelled))
  {
    CancellingCloses(e.orders, order);
    ClosingKeepsInv(e, e.orders[order := e.orders[order].(status := Cancelled)]);
  }

  lemma CancelledDatabase(db: Database, order: nat, now: nat)
    requires CancelOrder(db, order, now).Ok?
    ensures var e := ExpirePending(db, now);
      order in e.orders && Open(e.orders[order]) && CancelOrder(db, order, now) == Ok(SetStatus(e, order, Cancelled))
  {
    NotClosedIsOpen(ExpirePending(db, now).orders[order]);
  }

  lemma NotClosedIsOpen(o: Order)
    ensures Open(o) <==> o.status !in {Fulfilled, Cancelled, OrderStatus.Expired}
  {
    match o.status
    case PendingPayment => case PaymentSubmitted => case PaymentRejected =>
    case Fulfilled => case Cancelled => case Expired =>
  }

  lemma CancelKeepsInv(db: Database, order: nat, now: nat)
    requires Inv(db) && CancelOrder(db, order, now).Ok?
    ensures Inv(CancelOrder(db, order, now).value)
  {
    CancelledDatabase(db, order, now);
    ExpireKeepsInv(db, now);
    CancellingKeepsInv(ExpirePending(db, now), order);
  }

  /** The new rows of a fulfilled purchase. */
  lemma PurchaseKeepsInv(e: Database, order: nat, port: Port, k: nat)
    requires Inv(e) && order in e.orders && e.orders[order].status == PaymentSubmitted
    requires e.orders[order].kind == NewPurchase
    requires port.service == Some(e.nextService) && port.customer == Some(e.orders[order].customer)
    requires Latest(e.submissions, order, |e.submissions|) == Some(k)
    ensures var o := e.orders[order];
      Inv(e.(ports := e.ports[e.nextPort := port], nextPort := e.nextPort + 1,
             services := e.services[e.nextService := Service(o.customer, o.plan, e.nextPort, order, order)],
             nextService := e.nextService + 1,
             orders := e.orders[order := o.(status := Fulfilled, service := Some(e.nextService))],
             submissions := Marked(e.submissions, k, Approved)))
  {
    MarkKeepsLifecycle(e.orders, e.submissions, order, k, Approved,
                       e.orders[order].(status := Fulfilled, service := Some(e.nextService)));
    PurchaseKeepsLinks(e.ports, e.services, e.orders, order, e.nextPort, port, e.nextService);
  }

  lemma RenewalAndPortsKeepLinks(e: Database, order: nat, service: nat, ports: Ports)
    requires Keyed(e) && Links(e.ports, e.services, e.orders) && order in e.orders && e.orders[order].kind == Renewal
    requires e.orders[order].service == Some(service) && service in e.services && SameLinks(e.ports, ports)
    ensures var o, s := e.orders[order], e.services[service];
      Links(ports, e.services[service := s.(latestOrder := order, plan := o.plan)],
            e.orders[order := o.(status := Fulfilled, service := Some(service))])
  {
    var o, s := e.orders[order], e.services[service];
    RenewalKeepsLinks(e.ports, e.services, e.orders, order);
    PortChangesKeepLinks(e.ports, ports, e.services[service := s.(latestOrder := order, plan := o.plan)],
                         e.orders[order := o.(status := Fulfilled, service := Some(service))]);
  }

  lemma KeyedAfterRenewal(e: Database, service: nat, s: Service, order: nat, o: Order, ports: Ports, after: Database)
    requires Keyed(e) && service in e.services && order in e.orders && ports.Keys <= e.ports.Keys
    requires after.ports == ports && after.services == e.services[service := s] && after.orders == e.orders[order := o]
    requires after.nextPort == e.nextPort && after.nextService == e.nextService && after.nextOrder == e.nextOrder
    ensures Keyed(after)
  {
  }

  /** A fulfilled renewal. */
  lemma RenewalKeepsInv(e: Database, order: nat, service: nat, ports: Ports, traffic: Traffic, k: nat)
    requires Inv(e) && order in e.orders && e.orders[order].status == PaymentSubmitted
    requires e.orders[order].kind == Renewal
    requires e.orders[order].service == Some(service) && service in e.services
    requires SameLinks(e.ports, ports) && ports.Keys <= e.ports.Keys
    requires Latest(e.submissions, order, |e.submissions|) == Some(k)
    ensures var o, s := e.orders[order], e.services[service];
      Inv(e.(ports := ports, traffic := traffic,
             services := e.services[service := s.(latestOrder := order, plan := o.plan)],
             orders := e.orders[order := o.(status := Fulfilled, service := Some(service))],
             submissions := Marked(e.submissions, k, Approved)))
  {
    var o, s := e.orders[order].(status := Fulfilled, service := Some(service)), e.services[service];
    var s' := s.(latestOrder := order, plan := o.plan);
    RenewalAndPortsKeepLinks(e, order, service, ports);
    MarkKeepsLifecycle(e.orders, e.submissions, order, k, Approved, o);
    KeyedAfterRenewal(e, service, s', order, o, ports,
      e.(ports := ports, traffic := traffic, services := e.services[service := s'], orders := e.orders[order := o],
         submissions := Marked(e.submissions, k, Approved)));
  }

  /** What a fulfilled purchase changes. */
  lemma PurchasedDatabase(e: Database, order: nat, listen: nat, now: nat) returns (port: Port, k: nat)
    requires order in e.orders && Closed(OpenService(e, order, listen, now), order, e.nextService).Ok?
    ensures Latest(e.submissions, order, |e.submissions|) == Some(k)
    ensures port.service == Some(e.nextService) && port.customer == Some(e.orders[order].customer)
    ensures port.listen == listen
    ensures var o := e.orders[order];
      Closed(OpenService(e, order, listen, now), order, e.nextService).value
      == e.(ports := e.ports[e.nextPort := port], nextPort := e.nextPort + 1,
            services := e.services[e.nextService := Service(o.customer, o.plan, e.nextPort, order, order)],
            nextService := e.nextService + 1,
            orders := e.orders[order := o.(status := Fulfilled, service := Some(e.nextService))],
            submissions := Marked(e.submissions, k, Approved))
  {
    k := Latest(e.submissions, order, |e.submissions|).value;
    port := OpenService(e, order, listen, now).ports[e.nextPort];
  }

  /** What a fulfilled renewal changes. */
  lemma RenewedDatabase(e: Database, order: nat, service: nat, now: nat)
    returns (ports: Ports, traffic: Traffic, k: nat)
    requires order in e.orders && service in e.services
    requires Closed(RenewService(e, order, service, now), order, service).Ok?
    ensures Latest(e.submissions, order, |e.submissions|) == Some(k)
    ensures ports.Keys == e.ports.Keys && SameLinks(e.ports, ports)
    ensures var o, s := e.orders[order], e.services[service];
      Closed(RenewService(e, order, service, now), order, service).value
      == e.(ports := ports, traffic := traffic,
            services := e.services[service := s.(latestOrder := order, plan := o.plan)],
            orders := e.orders[order := o.(status := Fulfilled, service := Some(service))],
            submissions := Marked(e.submissions, k, Approved))
  {
    k := Latest(e.submissions, order, |e.submissions|).value;
    ports, traffic := RenewService(e, order, service, now).ports, RenewService(e, order, service, now).traffic;
  }

  lemma FulfillKeepsInv(db: Database, order: nat, range: Option<Range>, now: nat)
    requires Inv(db) && FulfillOrder(db, order, range, now).Ok?
    ensures Inv(FulfillOrder(db, order, range, now).value)
  {
    ExpireKeepsInv(db, now);
    var e := ExpirePending(db, now);
    if e.orders[order].kind == NewPurchase {
      var port, k := PurchasedDatabase(e, order, AllocatedPort(e.ports, range.value).value, now);
      PurchaseKeepsInv(e, order, port, k);
    } else {
      var service := e.orders[order].service.value;
      var ports, traffic, k := RenewedDatabase(e, order, service, now);
      RenewalKeepsInv(e, order, service, ports, traffic, k);
    }
  }
}
