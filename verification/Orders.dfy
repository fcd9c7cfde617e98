/** Orders, payment submissions and services: the transactions of the shop. */
module Orders {
  import opened Wrappers
  import opened TrafficTables
  import opened PanelTables
  import opened PortRules

  predicate Open(o: Order) {
    o.status in {PendingPayment, PaymentSubmitted, PaymentRejected}
  }

  predicate OpenRenewal(o: Order) {
    o.kind == Renewal && Open(o)
  }

  // ---- Payment submissions ----

  /** The last of the first `n` rows for this order. */
  function Latest(subs: seq<Submission>, order: nat, n: nat): (k: Option<nat>)
    requires n <= |subs|
    ensures k.Some? ==> k.value < n && subs[k.value].order == order
    ensures forall j :: (if k.Some? then k.value + 1 else 0) <= j < n ==> subs[j].order != order
  {
    if n == 0 then None else if subs[n - 1].order == order then Some(n - 1) else Latest(subs, order, n - 1)
  }

  function LatestReview(subs: seq<Submission>, order: nat): Option<Review> {
    match Latest(subs, order, |subs|)
    case Some(k) => Some(subs[k].review)
    case None => None
  }

  // ---- Transactions ----

  function ExpireOrder(o: Order, now: nat): Order {
    if o.status in {PendingPayment, PaymentRejected} && o.expiresAt.Some? && o.expiresAt.value <= now
    then o.(status := OrderStatus.Expired) else o
  }

  function ExpirePending(db: Database, now: nat): Database {
    db.(orders := map i | i in db.orders :: ExpireOrder(db.orders[i], now))
  }

  function SetStatus(db: Database, id: nat, status: OrderStatus): Database
    requires id in db.orders
  {
    db.(orders := db.orders[id := db.orders[id].(status := status)])
  }

  /** The service row as the shop reads it: of this customer, with an existing plan. */
  function ServiceOf(db: Database, service: Option<nat>, customer: nat): Option<Service> {
    if service.Some? && service.value in db.services && db.services[service.value].customer == customer
       && db.services[service.value].plan in db.plans
    then Some(db.services[service.value]) else None
  }

  /** Only a service that expired or used up its traffic can be renewed. */
  predicate RenewalAllowed(db: Database, s: Service, now: nat) {
    s.port in db.ports && StatusOf(db.ports[s.port], db.traffic, now) in {Status.Expired, Quota}
  }

  predicate HasOpenOrder(db: Database, service: nat) {
    exists o :: o in db.orders && db.orders[o].service == Some(service) && Open(db.orders[o])
  }

  function CreateOrder(db: Database, customer: nat, plan: nat, kind: Kind, service: Option<nat>, now: nat,
                       deadline: nat)
    : Result<Database, Error>
  {
    var e := ExpirePending(db, now);
    if customer !in e.customers || !e.customers[customer] then Err(NotAllowed)
    else if plan !in e.plans then Err(NotFound)
    else if !e.plans[plan].enabled then Err(NotAllowed)
    else if kind == Renewal && ServiceOf(e, service, customer).None? then Err(NotFound)
    else if kind == Renewal && e.services[service.value].plan != plan then Err(NotAllowed)
    else if kind == Renewal && !RenewalAllowed(e, e.services[service.value], now) then Err(NotAllowed)
    else if kind == Renewal && HasOpenOrder(e, service.value) then Err(Conflict)
    else
      var o := Order(customer, plan, kind, if kind == Renewal then service else None, PendingPayment,
                     e.plans[plan].duration, e.plans[plan].limit, Some(deadline));
      Ok(e.(orders := e.orders[e.nextOrder := o], nextOrder := e.nextOrder + 1))
  }

  function SubmitPayment(db: Database, customer: nat, order: nat, now: nat): Result<Database, Error> {
    var e := ExpirePending(db, now);
    if order !in e.orders || e.orders[order].customer != customer then Err(NotFound)
    else if e.orders[order].status !in {PendingPayment, PaymentRejected} then Err(NotAllowed)
    else Ok(SetStatus(e.(submissions := e.submissions + [Submission(order, Submitted)]), order, PaymentSubmitted))
  }

  function MarkLatest(db: Database, order: nat, review: Review): Result<Database, Error> {
    match Latest(db.submissions, order, |db.submissions|)
    case None => Err(NotFound)
    case Some(k) => Ok(db.(submissions := db.submissions[k := db.submissions[k].(review := review)]))
  }

  function RejectOrder(db: Database, order: nat, now: nat): Result<Database, Error> {
    var e := ExpirePending(db, now);
    if order !in e.orders then Err(NotFound)
    else if e.orders[order].status != PaymentSubmitted then Err(NotAllowed)
    else match MarkLatest(e, order, Rejected)
      case Err(error) => Err(error)
      case Ok(marked) => Ok(SetStatus(marked, order, PaymentRejected))
  }

  function CancelOrder(db: Database, order: nat, now: nat): Result<Database, Error> {
    var e := ExpirePending(db, now);
    if order !in e.orders then Err(NotFound)
    else if e.orders[order].status in {Fulfilled, Cancelled, OrderStatus.Expired} then Err(NotAllowed)
    else Ok(SetStatus(e, order, Cancelled))
  }

  // ---- Allocation ----

  datatype Range = Range(start: nat, end: nat)

  function UsedPorts(ports: map<nat, Port>, range: Range): set<nat> {
    set i | i in ports && range.start <= ports[i].listen <= range.end :: ports[i].listen
  }

  /** The least free listen port of the range. */
  ghost predicate IsAllocation(ports: map<nat, Port>, range: Range, port: Option<nat>) {
    match port
    case Some(p) => range.start <= p <= range.end && p !in UsedPorts(ports, range)
                    && forall q :: range.start <= q < p ==> q in UsedPorts(ports, range)
    case None => forall q :: range.start <= q <= range.end ==> q in UsedPorts(ports, range)
  }

  function FreeFrom(used: set<nat>, p: nat, end: nat): (r: Option<nat>)
    ensures r.Some? ==> p <= r.value <= end && r.value !in used
    ensures forall q :: p <= q < (if r.Some? then r.value else end + 1) ==> q in used
    decreases end + 1 - p
  {
    if p > end then None else if p !in used then Some(p) else FreeFrom(used, p + 1, end)
  }

  function AllocatedPort(ports: map<nat, Port>, range: Range): (r: Option<nat>)
    ensures IsAllocation(ports, range, r)
  {
    FreeFrom(UsedPorts(ports, range), range.start, range.end)
  }

  method AllocateAutoPort(ports: map<nat, Port>, range: Range) returns (port: Option<nat>)
    ensures port == AllocatedPort(ports, range)
  {
    var used := UsedPorts(ports, range);
    var listenPort := range.start;
    while listenPort <= range.end
      invariant range.start <= listenPort
      invariant FreeFrom(used, range.start, range.end) == FreeFrom(used, listenPort, range.end)
      decreases range.end + 1 - listenPort
    {
      if listenPort !in used {
        return Some(listenPort);
      }
      listenPort := listenPort + 1;
    }
    port := None;
  }

  // ---- Fulfilment ----

  /** A paid new purchase gets a new port and a new service, linked to each other. */
  function OpenService(db: Database, order: nat, listen: nat, now: nat): Database
    requires order in db.orders
  {
    var o := db.orders[order];
    var port := Port(listen, Some(now + o.duration * DAY), Some(o.limit), true,
                     Some(o.customer), Some(db.nextService), Some(order));
    db.(ports := db.ports[db.nextPort := port], nextPort := db.nextPort + 1,
        services := db.services[db.nextService := Service(o.customer, o.plan, db.nextPort, order, order)],
        nextService := db.nextService + 1)
  }

  /** A paid renewal gives the service's port, if it exists, new time, a new limit and fresh counters. */
  function RenewService(db: Database, order: nat, service: nat, now: nat): Database
    requires order in db.orders && service in db.services
  {
    var o, s := db.orders[order], db.services[service];
    var renewed := db.(services := db.services[service := s.(latestOrder := order, plan := o.plan)]);
    if s.port !in db.ports then renewed else
      var port := db.ports[s.port];
      var extended := port.(expiresAt := Some(now + o.duration * DAY), limit := Some(o.limit), enabled := true);
      renewed.(ports := db.ports[s.port := extended],
               traffic := ResetUsage(db.traffic, port.listen))
  }

  function Closed(db: Database, order: nat, service: nat): Result<Database, Error>
    requires order in db.orders
  {
    match MarkLatest(db, order, Approved)
    case Err(error) => Err(error)
    case Ok(marked) =>
      var closed := marked.orders[order].(status := Fulfilled, service := Some(service));
      Ok(marked.(orders := marked.orders[order := closed]))
  }

  /** `fulfill_order` up to the automatic disabling and the apply. */
  function FulfillOrder(db: Database, order: nat, range: Option<Range>, now: nat): Result<Database, Error> {
    var e := ExpirePending(db, now);
    if order !in e.orders || e.orders[order].customer !in e.customers then Err(NotFound)
    else if e.orders[order].status != PaymentSubmitted then Err(NotAllowed)
    else if e.orders[order].kind == NewPurchase then
      if range.None? then Err(NotAllowed)
      else match AllocatedPort(e.ports, range.value)
        case None => Err(Exhausted)
        case Some(listen) => Closed(OpenService(e, order, listen, now), order, e.nextService)
    else match ServiceOf(e, e.orders[order].service, e.orders[order].customer)
      case None => Err(NotFound)
      case Some(s) =>
        Closed(RenewService(e, order, e.orders[order].service.value, now), order, e.orders[order].service.value)
  }
}
