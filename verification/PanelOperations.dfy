/** The operations that go through an apply: changes of ports, resets and fulfilments, inside one transaction. */
module PanelOperations {
  import opened Wrappers
  import opened TrafficTables
  import opened PanelTables
  import opened PortRules
  import opened Orders

  datatype Operation =
    | CreatePort(listen: nat, expiresAt: Option<nat>, limit: Option<nat>)
    | UpdatePort(id: nat, listen: nat, expiresAt: Option<nat>, limit: Option<nat>)
    | TogglePort(id: nat)
    | DeletePort(id: nat)
    | ResetTraffic(id: nat)
    | Fulfill(order: nat, range: Option<Range>)

  predicate ListenTaken(ports: map<nat, Port>, listen: nat, except: nat) {
    exists i :: i in ports && i != except && ports[i].listen == listen
  }

  function CreatedPort(db: Database, listen: nat, expiresAt: Option<nat>, limit: Option<nat>): Result<Database, Error> {
    if ListenTaken(db.ports, listen, db.nextPort) then Err(Conflict)
    else Ok(db.(ports := db.ports[db.nextPort := Port(listen, expiresAt, limit, true, None, None, None)],
                nextPort := db.nextPort + 1))
  }

  function UpdatedPort(db: Database, id: nat, listen: nat, expiresAt: Option<nat>,
                       limit: Option<nat>): Result<Database, Error> {
    if id !in db.ports then Err(NotFound)
    else if ListenTaken(db.ports, listen, id) then Err(Conflict)
    else Ok(db.(ports := db.ports[id := db.ports[id].(listen := listen, expiresAt := expiresAt, limit := limit)]))
  }

  /** A port can be switched on only when it would be active. */
  function ToggledPort(db: Database, id: nat, now: nat): Result<Database, Error> {
    if id !in db.ports then Err(NotFound)
    else
      var p := db.ports[id];
      if !p.enabled && (IsExpired(p, now) || QuotaReached(p, db.traffic)) then Err(NotAllowed)
      else Ok(db.(ports := db.ports[id := p.(enabled := !p.enabled)]))
  }

  function DeletedUnlinkedPort(db: Database, id: nat): Result<Database, Error> {
    if id !in db.ports then Err(NotFound)
    else if db.ports[id].customer.Some? || db.ports[id].service.Some? then Err(NotAllowed)
    else Ok(DeletedPort(db, id))
  }

  /** A port that had reached its quota and has not expired is switched on again. */
  function TrafficWasReset(db: Database, id: nat, now: nat): Result<Database, Error> {
    if id !in db.ports then Err(NotFound)
    else
      var p := db.ports[id];
      var enabled := p.enabled || (QuotaReached(p, db.traffic) && !IsExpired(p, now));
      Ok(db.(ports := db.ports[id := p.(enabled := enabled)], traffic := ResetUsage(db.traffic, p.listen)))
  }

  function Performed(db: Database, op: Operation, now: nat): Result<Database, Error> {
    match op
    case CreatePort(listen, expiresAt, limit) => CreatedPort(db, listen, expiresAt, limit)
    case UpdatePort(id, listen, expiresAt, limit) => UpdatedPort(db, id, listen, expiresAt, limit)
    case TogglePort(id) => ToggledPort(db, id, now)
    case DeletePort(id) => DeletedUnlinkedPort(db, id)
    case ResetTraffic(id) => TrafficWasReset(db, id, now)
    case Fulfill(order, range) => FulfillOrder(db, order, range, now)
  }

  // ---- In place ----

  /** Whether the operation went through; when it did not, the caller rolls the transaction back. */
  method ChangePort(tx: Transaction, op: Operation, now: nat) returns (ok: bool)
    requires !op.Fulfill?
    modifies tx
    ensures var r := Performed(old(tx.db), op, now); ok == r.Ok? && (ok ==> tx.db == r.value)
  {
    if op.CreatePort? {
      if ListenTaken(tx.db.ports, op.listen, tx.db.nextPort) {
        return false;
      }
      var id := tx.db.nextPort;
      tx.db := tx.db.(nextPort := id + 1);
      tx.db := tx.db.(ports := tx.db.ports[id := Port(op.listen, op.expiresAt, op.limit, true, None, None, None)]);
      return true;
    }
    if op.id !in tx.db.ports {
      return false;
    }
    var row := tx.db.ports[op.id];
    ok := true;
    match op
    case UpdatePort(id, listen, expiresAt, limit) =>
      ok := !ListenTaken(tx.db.ports, listen, id);
      row := row.(listen := listen, expiresAt := expiresAt, limit := limit);
      tx.db := tx.db.(ports := tx.db.ports[id := row]);
    case TogglePort(id) =>
      var nextEnabled := !row.enabled;
      if nextEnabled && row.expiresAt.Some? && row.expiresAt.value <= now {
        return false;
      }
      if nextEnabled && row.limit.Some? && Usage(tx.db.traffic, row.listen) >= row.limit.value {
        return false;
      }
      tx.db := tx.db.(ports := tx.db.ports[id := row.(enabled := nextEnabled)]);
    case DeletePort(id) =>
      if row.customer.Some? || row.service.Some? {
        return false;
      }
      tx.db := DeletedPort(tx.db, id);
    case ResetTraffic(id) =>
      var usage := Usage(tx.db.traffic, row.listen);
      tx.db := tx.db.(traffic := ResetUsage(tx.db.traffic, row.listen));
      var expired := row.expiresAt.Some? && row.expiresAt.value <= now;
      var quotaReached := row.limit.Some? && usage >= row.limit.value;
      var nextEnabled := row.enabled;
      if quotaReached && !expired {
        nextEnabled := true;
      }
      tx.db := tx.db.(ports := tx.db.ports[id := row.(enabled := nextEnabled)]);
  }

  method ApproveLatest(tx: Transaction, order: nat) returns (ok: bool)
    modifies tx
    ensures var r := MarkLatest(old(tx.db), order, Approved); ok == r.Ok? && (ok ==> tx.db == r.value)
  {
    var latest := Latest(tx.db.submissions, order, |tx.db.submissions|);
    if latest.None? {
      return false;
    }
    var row := tx.db.submissions[latest.value];
    tx.db := tx.db.(submissions := tx.db.submissions[latest.value := row.(review := Approved)]);
    ok := true;
  }

  /** The new-purchase branch: port row, service row, then the link back. */
  method InsertService(tx: Transaction, order: nat, listen: nat, now: nat) returns (service: nat)
    requires order in tx.db.orders
    modifies tx
    ensures tx.db == OpenService(old(tx.db), order, listen, now) && service == old(tx.db.nextService)
  {
    var o := tx.db.orders[order];
    var port := tx.db.nextPort;
    var row := Port(listen, Some(now + o.duration * DAY), Some(o.limit), true, Some(o.customer), None, Some(order));
    tx.db := tx.db.(ports := tx.db.ports[port := row], nextPort := port + 1);
    service := tx.db.nextService;
    tx.db := tx.db.(services := tx.db.services[service := Service(o.customer, o.plan, port, order, order)],
                    nextService := service + 1);
    tx.db := tx.db.(ports := tx.db.ports[port := row.(service := Some(service))]);
  }

  /** The renewal branch: port row, counters, service row. */
  method ExtendService(tx: Transaction, order: nat, service: nat, now: nat)
    requires order in tx.db.orders && service in tx.db.services
    modifies tx
    ensures tx.db == RenewService(old(tx.db), order, service, now)
  {
    var o, s := tx.db.orders[order], tx.db.services[service];
    if s.port in tx.db.ports {
      var row := tx.db.ports[s.port];
      var extended := row.(expiresAt := Some(now + o.duration * DAY), limit := Some(o.limit), enabled := true);
      tx.db := tx.db.(ports := tx.db.ports[s.port := extended]);
      tx.db := tx.db.(traffic := ResetUsage(tx.db.traffic, row.listen));
    }
    tx.db := tx.db.(services := tx.db.services[service := s.(latestOrder := order, plan := o.plan)]);
  }

  method FulfillInPlace(tx: Transaction, order: nat, range: Option<Range>, now: nat) returns (ok: bool)
    modifies tx
    ensures var r := FulfillOrder(old(tx.db), order, range, now); ok == r.Ok? && (ok ==> tx.db == r.value)
  {
    tx.db := ExpirePending(tx.db, now);
    if order !in tx.db.orders || tx.db.orders[order].customer !in tx.db.customers {
      return false;
    }
    var o := tx.db.orders[order];
    if o.status != PaymentSubmitted {
      return false;
    }
    var service: nat;
    if o.kind == NewPurchase {
      if range.None? {
        return false;
      }
      var listen := AllocateAutoPort(tx.db.ports, range.value);
      if listen.None? {
        return false;
      }
      service := InsertService(tx, order, listen.value, now);
    } else {
      var row := ServiceOf(tx.db, o.service, o.customer);
      if row.None? {
        return false;
      }
      service := o.service.value;
      ExtendService(tx, order, service, now);
    }
    ok := ApproveLatest(tx, order);
    if ok {
      var closed := tx.db.orders[order].(status := Fulfilled, service := Some(service));
      tx.db := tx.db.(orders := tx.db.orders[order := closed]);
    }
  }

  method Perform(tx: Transaction, op: Operation, now: nat) returns (ok: bool)
    modifies tx
    ensures var r := Performed(old(tx.db), op, now); ok == r.Ok? && (ok ==> tx.db == r.value)
  {
    if op.Fulfill? {
      ok := FulfillInPlace(tx, op.order, op.range, now);
    } else {
      ok := ChangePort(tx, op, now);
    }
  }
}
