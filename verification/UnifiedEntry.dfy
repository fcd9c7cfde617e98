/**
 The unified entry: one public port, one private credential per account. Who owns a connection is written
 into tags and e-mails by the renderer and read back by the subscription, the counters and the log parser.
 */
module UnifiedEntry {
  import opened Wrappers
  import opened Decimal

  type AccountId = nat

  datatype Client = Client(id: AccountId, email: string)

  /** `listen` is a host or a socket path; a socket has no port. */
  datatype Inbound = Inbound(tag: string, listen: string, port: Option<nat>, clients: seq<Client>,
                             serverNames: seq<string>, acceptProxyProtocol: bool)

  const PANEL := "panel-"
  const UNIFIED := "unified-"
  const PANEL_USER := "panel-user-"

  function SocketPath(tag: string): string {
    "/var/log/xray/entry-" + tag + ".sock"
  }

  /** What the renderer takes from the environment; `accountId` stands for the keyed hash of a port. */
  datatype Values = Values(host: string, sharedId: AccountId, serverName: string, accountId: nat -> AccountId)

  function RealityInbound(v: Values, port: nat): Inbound {
    Inbound(PANEL + ToString(port), v.host, Some(port), [Client(v.sharedId, "")], [v.serverName], false)
  }

  function Account(v: Values, port: nat): Client {
    Client(v.accountId(port), PANEL_USER + ToString(port))
  }

  function OnSocket(inbound: Inbound): Inbound {
    inbound.(listen := SocketPath(inbound.tag), port := None, acceptProxyProtocol := true)
  }

  function Entry(v: Values, entryPort: nat, ports: seq<nat>): Inbound {
    OnSocket(RealityInbound(v, entryPort).(tag := UNIFIED + ToString(entryPort),
      clients := seq(|ports|, i requires 0 <= i < |ports| => Account(v, ports[i]))))
  }

  /** The inbounds of a unified configuration: one private socket per account, then the entry. */
  ghost predicate IsUnified(v: Values, entryPort: nat, ports: seq<nat>, inbounds: seq<Inbound>) {
    && |inbounds| == |ports| + 1 && inbounds[|ports|] == Entry(v, entryPort, ports)
    && forall i :: 0 <= i < |ports| ==> inbounds[i] == OnSocket(RealityInbound(v, ports[i]))
  }

  /** `build_server_config` in unified mode: build, then rewrite every inbound in place. */
  method BuildInbounds(v: Values, entryPort: nat, ports: seq<nat>) returns (r: Result<seq<Inbound>, string>)
    ensures r.Err? <==> entryPort in ports
    ensures r.Ok? ==> IsUnified(v, entryPort, ports, r.value)
  {
    if entryPort in ports {
      return Err("The unified entry port cannot also identify a legacy account");
    }
    var clients: seq<Client> := [];
    var built: seq<Inbound> := [];
    for i := 0 to |ports|
      invariant |clients| == |built| == i
      invariant forall k :: 0 <= k < i ==> clients[k] == Account(v, ports[k]) && built[k] == RealityInbound(v, ports[k])
    {
      built := built + [RealityInbound(v, ports[i])];
      clients := clients + [Account(v, ports[i])];
    }
    var entry := RealityInbound(v, entryPort);
    entry := entry.(tag := UNIFIED + ToString(entryPort));
    entry := entry.(clients := clients);
    assert clients == Entry(v, entryPort, ports).clients;
    built := built + [entry];
    var inbounds := new Inbound[|built|](i requires 0 <= i < |built| => built[i]);
    for i := 0 to inbounds.Length
      invariant forall k :: 0 <= k < i ==> inbounds[k] == OnSocket(built[k])
      invariant forall k :: i <= k < inbounds.Length ==> inbounds[k] == built[k]
    {
      inbounds[i] := inbounds[i].(listen := SocketPath(inbounds[i].tag));
      inbounds[i] := inbounds[i].(port := None);
      inbounds[i] := inbounds[i].(acceptProxyProtocol := true);
    }
    r := Ok(inbounds[..]);
  }

  // ---- The subscription ----

  /** The client profile: with a unified port, the account ids by port, as the client file lists them. */
  datatype Profile = Profile(id: AccountId, unifiedPort: Option<nat>, users: map<string, AccountId>)

  function ClientProfile(v: Values, entryPort: nat, ports: seq<nat>): Profile {
    Profile(v.sharedId, Some(entryPort), Users(v, ports, |ports|))
  }

  function Users(v: Values, ports: seq<nat>, n: nat): map<string, AccountId>
    requires n <= |ports|
  {
    if n == 0 then map[] else Users(v, ports, n - 1)[ToString(ports[n - 1]) := v.accountId(ports[n - 1])]
  }

  /** Missing accounts fail; they never fall back to another account's id. */
  function SubscriptionEndpoint(p: Profile, listenPort: nat): Result<(nat, AccountId), string> {
    match p.unifiedPort
    case Some(entry) =>
      if ToString(listenPort) in p.users then Ok((entry, p.users[ToString(listenPort)])) else Err("unknown account")
    case None => Ok((listenPort, p.id))
  }

  lemma {:induction false} UsersAreAccounts(v: Values, ports: seq<nat>, n: nat, q: nat)
    requires n <= |ports|
    ensures ToString(q) in Users(v, ports, n) <==> q in ports[..n]
    ensures q in ports[..n] ==> Users(v, ports, n)[ToString(q)] == v.accountId(q)
  {
    if n > 0 {
      UsersAreAccounts(v, ports, n - 1, q);
      ToStringIsInjective(q, ports[n - 1]);
      assert ports[..n] == ports[..n - 1] + [ports[n - 1]];
    }
  }

  // ---- Counters and log lines ----

  datatype Direction = Uplink | Downlink | OtherDirection

  /** What a counter's name says of the direction. */
  function DirectionOf(direction: string): Direction {
    if direction == "uplink" then Uplink else if direction == "downlink" then Downlink else OtherDirection
  }

  /** Which account a counter belongs to, by its name. */
  function CounterOwner(name: string): Option<(nat, Direction)> {
    var parts := Split(name, 0, 0);
    if |parts| != 4 || parts[0] !in {"inbound", "user"} || parts[2] != "traffic" then None
    else match NumberAfter(parts[1], if parts[0] == "user" then PANEL_USER else PANEL)
      case None => None
      case Some(port) =>
        Some((port, DirectionOf(parts[3])))
  }

  /** Which account an access-log line belongs to, by its inbound tag and e-mail. */
  function LineOwner(tag: string, email: string): Option<nat> {
    match AfterPrefix(tag, UNIFIED)
    case Some(_) => NumberAfter(email, PANEL_USER)
    case None => NumberAfter(tag, PANEL)
  }

  datatype Stat = Stat(name: string, value: nat)

  datatype Usage = Usage(sent: nat, received: nat)

  /** One counter, seen by one account. */
  function Counted(before: Usage, owner: Option<(nat, Direction)>, port: nat, value: nat): Usage {
    if owner.None? || owner.value.0 != port then before
    else if owner.value.1 == Uplink then before.(received := before.received + value)
    else if owner.value.1 == Downlink then before.(sent := before.sent + value)
    else before
  }

  /** What the counters say about one account. */
  function UsageOf(stats: seq<Stat>, port: nat, n: nat): Usage
    requires n <= |stats|
  {
    if n == 0 then Usage(0, 0)
    else Counted(UsageOf(stats, port, n - 1), CounterOwner(stats[n - 1].name), port, stats[n - 1].value)
  }

  function At(counters: map<nat, Usage>, port: nat): Usage {
    if port in counters then counters[port] else Usage(0, 0)
  }

  ghost predicate Totals(counters: map<nat, Usage>, stats: seq<Stat>, n: nat)
    requires n <= |stats|
  {
    forall port :: At(counters, port) == UsageOf(stats, port, n)
  }

  method CountOne(counters: map<nat, Usage>, owner: Option<(nat, Direction)>, value: nat)
    returns (after: map<nat, Usage>)
    ensures forall port :: At(after, port) == Counted(At(counters, port), owner, port, value)
  {
    after := counters;
    if owner.Some? {
      var (port, direction) := owner.value;
      if port !in after {
        after := after[port := Usage(0, 0)];
      }
      if direction == Uplink {
        after := after[port := after[port].(received := after[port].received + value)];
      } else if direction == Downlink {
        after := after[port := after[port].(sent := after[port].sent + value)];
      }
    }
  }

  method ReadXrayTrafficStats(stats: seq<Stat>) returns (counters: map<nat, Usage>)
    ensures Totals(counters, stats, |stats|)
  {
    counters := map[];
    for i := 0 to |stats|
      invariant Totals(counters, stats, i)
    {
      counters := CountOne(counters, CounterOwner(stats[i].name), stats[i].value);
    }
  }

  lemma TextsHaveNoArrow(q: nat)
    ensures NoArrow("user") && NoArrow("inbound") && NoArrow("traffic") && NoArrow("uplink") && NoArrow("downlink")
    ensures NoArrow(PANEL_USER + ToString(q)) && NoArrow(PANEL + ToString(q)) && NoArrow(UNIFIED + ToString(q))
  {
  }

  lemma OwnerOfName(kind: string, q: nat, direction: string)
    requires kind in {"user", "inbound"} && NoArrow(direction)
    ensures CounterOwner(Name(kind, (if kind == "user" then PANEL_USER else PANEL) + ToString(q), "traffic", direction))
         == Some((q, DirectionOf(direction)))
  {
    TextsHaveNoArrow(q);
    SplitName(kind, (if kind == "user" then PANEL_USER else PANEL) + ToString(q), "traffic", direction);
    NumberRoundTrip(PANEL_USER, q);
    NumberRoundTrip(PANEL, q);
  }

  lemma NameInFull(kind: string, prefix: string, n: string, direction: string, before: string, behind: string)
    requires before == kind + ARROW + prefix && behind == ARROW + "traffic" + ARROW + direction
    ensures Name(kind, prefix + n, "traffic", direction) == before + n + behind
  {
    var traffic := "traffic";
    assert kind + ARROW + (prefix + n) == before + n;
    assert before + n + (ARROW + traffic + ARROW + direction) == before + n + ARROW + traffic + ARROW + direction;
  }

  lemma NameBehind(direction: string, behind: string)
    requires behind == ">>>traffic>>>" + direction
    ensures behind == ARROW + "traffic" + ARROW + direction
  {
    assert ARROW + "traffic" + ARROW == ">>>traffic>>>";
  }

  /** An account's user counters are read as its own, in either direction. */
  lemma CountersBelongToAccount(q: nat, direction: string, behind: string)
    requires NoArrow(direction) && behind == ">>>traffic>>>" + direction
    ensures var d := if direction == "uplink" then Uplink else if direction == "downlink" then Downlink
                     else OtherDirection;
      CounterOwner("user>>>panel-user-" + ToString(q) + behind) == Some((q, d))
  {
    NameBehind(direction, behind);
    OwnerOfName("user", q, direction);
    NameInFull("user", PANEL_USER, ToString(q), direction, "user>>>panel-user-", behind);
  }

  /** And so are the counters of its legacy inbound. */
  lemma InboundCountersBelongToAccount(q: nat, direction: string, behind: string)
    requires NoArrow(direction) && behind == ">>>traffic>>>" + direction
    ensures var d := if direction == "uplink" then Uplink else if direction == "downlink" then Downlink
                     else OtherDirection;
      CounterOwner("inbound>>>panel-" + ToString(q) + behind) == Some((q, d))
  {
    NameBehind(direction, behind);
    OwnerOfName("inbound", q, direction);
    NameInFull("inbound", PANEL, ToString(q), direction, "inbound>>>panel-", behind);
  }

  /**
   Each counter is counted once: what a user sends up as received by the entry, what it is sent down as sent, and
   counters of other accounts or directions not at all.
   */
  lemma DirectionsAreCounted(stats: seq<Stat>, q: nat, n: nat)
    requires n < |stats|
    ensures var before, after, owner := UsageOf(stats, q, n), UsageOf(stats, q, n + 1), CounterOwner(stats[n].name);
      && after.received == before.received + (if owner == Some((q, Uplink)) then stats[n].value else 0)
      && after.sent == before.sent + (if owner == Some((q, Downlink)) then stats[n].value else 0)
  {
  }

  /** A log line of a legacy inbound belongs to its port, whatever its e-mail; one of the entry to its e-mail's. */
  lemma LinesBelongToAccount(q: nat, entryPort: nat, email: string)
    ensures LineOwner("panel-" + ToString(q), email) == Some(q)
    ensures LineOwner("unified-" + ToString(entryPort), "panel-user-" + ToString(q)) == Some(q)
    ensures |email| < 11 || email[..11] != "panel-user-" ==>
      LineOwner("unified-" + ToString(entryPort), email) == None
  {
    NumberRoundTrip(PANEL, q);
    NumberRoundTrip(PANEL_USER, q);
    NumberRoundTrip(UNIFIED, entryPort);
    var tag := "panel-" + ToString(q);
    if |tag| >= 8 { assert tag[..8][0] == 'p' && UNIFIED[0] == 'u'; }
  }

  /**
   What Xray is told: every account keeps an inbound of its own that listens on a socket and on no port and takes
   the shared id alone; the entry listens on a socket too and takes one id per account, by its e-mail.
   */
  lemma InboundsAreRendered(v: Values, entryPort: nat, ports: seq<nat>, inbounds: seq<Inbound>, i: nat)
    requires IsUnified(v, entryPort, ports, inbounds) && i < |ports|
    ensures var a, e := inbounds[i], inbounds[|ports|];
      && |inbounds| == |ports| + 1 && a.port == None && e.port == None
      && a.acceptProxyProtocol && e.acceptProxyProtocol
      && a.tag == "panel-" + ToString(ports[i]) && e.tag == "unified-" + ToString(entryPort)
      && a.listen == "/var/log/xray/entry-" + a.tag + ".sock" && e.listen == "/var/log/xray/entry-" + e.tag + ".sock"
      && a.serverNames == e.serverNames == [v.serverName]
      && |a.clients| == 1 && a.clients[0].id == v.sharedId && a.clients[0].email == ""
      && |e.clients| == |ports| && e.clients[i].id == v.accountId(ports[i])
      && e.clients[i].email == "panel-user-" + ToString(ports[i])
  {
  }

  /** A port that is no account gets no endpoint; without a unified port every port has its own with the shared id. */
  lemma EndpointsExactly(v: Values, entryPort: nat, ports: seq<nat>, q: nat, id: AccountId,
                         users: map<string, AccountId>)
    ensures SubscriptionEndpoint(ClientProfile(v, entryPort, ports), q).Ok? <==> q in ports
    ensures SubscriptionEndpoint(Profile(id, None, users), q) == Ok((q, id))
  {
    UsersAreAccounts(v, ports, |ports|, q);
    assert ports[..|ports|] == ports;
  }

  /** The counter of the shared entry inbound itself belongs to nobody, so nothing is counted twice. */
  lemma EntryCounterIsIgnored(entryPort: nat, direction: string)
    requires NoArrow(direction)
    ensures CounterOwner(Name("inbound", UNIFIED + ToString(entryPort), "traffic", direction)) == None
  {
    TextsHaveNoArrow(entryPort);
    SplitName("inbound", UNIFIED + ToString(entryPort), "traffic", direction);
    var tag := UNIFIED + ToString(entryPort);
    assert tag[..6][0] == 'u' && PANEL[0] == 'p';
  }

  /**
   Ownership survives rendering: the subscription of account `q` leads to the entry with an id that exactly
   one client of the entry has, and that client's e-mail is read back as `q` by counters and log lines.
   */
  lemma OwnershipSurvives(v: Values, entryPort: nat, ports: seq<nat>, inbounds: seq<Inbound>, q: nat)
    requires IsUnified(v, entryPort, ports, inbounds) && q in ports
    requires forall i, j :: 0 <= i < j < |ports| ==> ports[i] != ports[j]
    requires forall a, b :: a in ports && b in ports && v.accountId(a) == v.accountId(b) ==> a == b
    ensures SubscriptionEndpoint(ClientProfile(v, entryPort, ports), q) == Ok((entryPort, v.accountId(q)))
    ensures var clients := inbounds[|ports|].clients;
      exists i :: 0 <= i < |clients| && clients[i] == Account(v, q)
        && forall j :: 0 <= j < |clients| && clients[j].id == v.accountId(q) ==> j == i
    ensures LineOwner(inbounds[|ports|].tag, Account(v, q).email) == Some(q)
    ensures CounterOwner(Name("user", Account(v, q).email, "traffic", "downlink")) == Some((q, Downlink))
  {
    UsersAreAccounts(v, ports, |ports|, q);
    assert ports[..|ports|] == ports;
    var i :| 0 <= i < |ports| && ports[i] == q;
    assert inbounds[|ports|].clients[i] == Account(v, q);
    OwnerOfName("user", q, "downlink");
    NumberRoundTrip(PANEL_USER, q);
    assert inbounds[|ports|].tag == UNIFIED + ToString(entryPort);
    NumberRoundTrip(UNIFIED, entryPort);
  }
}
