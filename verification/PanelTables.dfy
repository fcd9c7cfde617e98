/** The panel's database tables and the transaction object whose operations change them in place. */
module PanelTables {
  import opened Wrappers
  import opened TrafficTables

  /** A row of `ports`. Times are seconds. */
  datatype Port = Port(listen: nat, expiresAt: Option<nat>, limit: Option<nat>, enabled: bool,
                       customer: Option<nat>, service: Option<nat>, sourceOrder: Option<nat>)

  datatype Service = Service(customer: nat, plan: nat, port: nat, sourceOrder: nat, latestOrder: nat)

  datatype Kind = NewPurchase | Renewal

  datatype OrderStatus = PendingPayment | PaymentSubmitted | PaymentRejected | Fulfilled | Cancelled | Expired

  datatype Order = Order(customer: nat, plan: nat, kind: Kind, service: Option<nat>, status: OrderStatus,
                         duration: nat, limit: nat, expiresAt: Option<nat>)

  datatype Review = Submitted | Rejected | Approved

  /** A row of `order_payment_submissions`; its id is its place in the table. */
  datatype Submission = Submission(order: nat, review: Review)

  datatype Plan = Plan(enabled: bool, duration: nat, limit: nat)

  datatype Database = Database(ports: map<nat, Port>, nextPort: nat, traffic: Traffic,
                               customers: map<nat, bool>, plans: map<nat, Plan>,
                               services: map<nat, Service>, nextService: nat,
                               orders: map<nat, Order>, nextOrder: nat, submissions: seq<Submission>)

  datatype Error = NotFound | NotAllowed | Conflict | Exhausted

  /** The unique index on `ports.listen_port`. */
  ghost predicate UniqueListen(ports: map<nat, Port>) {
    forall i, j :: i in ports && j in ports && i != j ==> ports[i].listen != ports[j].listen
  }

  /** AUTOINCREMENT keys start at one and are never reused. */
  ghost predicate Keyed(db: Database) {
    && (forall i :: i in db.ports ==> 0 < i < db.nextPort) && db.nextPort > 0
    && (forall i :: i in db.services ==> 0 < i < db.nextService) && db.nextService > 0
    && (forall i :: i in db.orders ==> 0 < i < db.nextOrder) && db.nextOrder > 0
  }

  class Transaction {
    var db: Database

    constructor (db: Database)
      ensures this.db == db
    {
      this.db := db;
    }
  }
}
