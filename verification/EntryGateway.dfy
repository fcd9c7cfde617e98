/** The TCP gateway in front of the entry, and the forwarder that brings legacy ports to it. */
module EntryGateway {
  import opened Wrappers
  import opened Decimal
  import opened UnifiedEntry
  import opened ProxyHeader
  import opened PortRules

  /** The rendered gateway: one rule per legacy port, then the server names, then the web server. */
  datatype Gateway = Gateway(entryPort: nat, legacy: seq<nat>, serverNames: seq<string>, socketDir: string,
                             https: string)

  datatype Backend = Legacy(port: nat) | ProxyEntry | SubscriptionHttps

  /** The ports of the inbounds whose tag is the prefix and a number. */
  function TaggedPorts(inbounds: seq<Inbound>, prefix: string, n: nat): seq<nat>
    requires n <= |inbounds|
  {
    if n == 0 then []
    else match NumberAfter(inbounds[n - 1].tag, prefix)
      case None => TaggedPorts(inbounds, prefix, n - 1)
      case Some(port) => TaggedPorts(inbounds, prefix, n - 1) + [port]
  }

  predicate ValidPort(port: nat) {
    1 <= port <= 65535
  }

  predicate Distinct(s: seq<nat>) {
    forall i, j :: 0 <= i < j < |s| ==> s[i] != s[j]
  }

  /** The inbound waits on its own private socket and expects a PROXY header. */
  predicate OnPrivateSocket(inbound: Inbound) {
    inbound.listen == SocketPath(inbound.tag) && inbound.acceptProxyProtocol
  }

  /** The entry's server names are valid, and every inbound that is routed to is on its private socket. */
  predicate InboundOk(inbound: Inbound, validName: string -> bool) {
    && (NumberAfter(inbound.tag, UNIFIED).Some? ==>
          inbound.serverNames != [] && forall s :: s in inbound.serverNames ==> validName(s))
    && (NumberAfter(inbound.tag, UNIFIED).Some? || NumberAfter(inbound.tag, PANEL).Some? ==> OnPrivateSocket(inbound))
  }

  /** Every check of `render_gateway`. The host name, directory and endpoint patterns are parameters. */
  predicate Acceptable(inbounds: seq<Inbound>, validName: string -> bool) {
    var entries, legacy := TaggedPorts(inbounds, UNIFIED, |inbounds|), TaggedPorts(inbounds, PANEL, |inbounds|);
    && |entries| == 1 && ValidPort(entries[0])
    && entries[0] !in legacy && (forall p :: p in legacy ==> ValidPort(p)) && Distinct(legacy)
    && forall i :: 0 <= i < |inbounds| ==> InboundOk(inbounds[i], validName)
  }

  function ServerNamesOf(inbounds: seq<Inbound>, n: nat): seq<string>
    requires n <= |inbounds|
  {
    if n == 0 then []
    else if NumberAfter(inbounds[n - 1].tag, UNIFIED).Some? then inbounds[n - 1].serverNames
    else ServerNamesOf(inbounds, n - 1)
  }

  function RenderGateway(inbounds: seq<Inbound>, socketDir: string, https: string, validName: string -> bool)
    : Result<Gateway, string>
  {
    if !Acceptable(inbounds, validName) then Err("invalid configuration") else
      var legacy := TaggedPorts(inbounds, PANEL, |inbounds|);
      Ok(Gateway(TaggedPorts(inbounds, UNIFIED, |inbounds|)[0], Ascending(set p | p in legacy),
                 ServerNamesOf(inbounds, |inbounds|), socketDir, https))
  }

  /** The checks and the rules, one inbound and one port at a time. */
  method Render(inbounds: seq<Inbound>, socketDir: string, https: string, validName: string -> bool)
    returns (r: Result<Gateway, string>)
    ensures r == RenderGateway(inbounds, socketDir, https, validName)
  {
    var entries: seq<nat>, legacy: seq<nat> := [], [];
    var serverNames: seq<string> := [];
    for i := 0 to |inbounds|
      invariant entries == TaggedPorts(inbounds, UNIFIED, i) && legacy == TaggedPorts(inbounds, PANEL, i)
      invariant serverNames == ServerNamesOf(inbounds, i)
    {
      var entry, panel := NumberAfter(inbounds[i].tag, UNIFIED), NumberAfter(inbounds[i].tag, PANEL);
      if entry.Some? {
        entries := entries + [entry.value];
        serverNames := inbounds[i].serverNames;
      }
      if panel.Some? {
        legacy := legacy + [panel.value];
      }
    }
    if |entries| != 1 || !ValidPort(entries[0]) {
      return Err("invalid configuration");
    }
    if entries[0] in legacy || !Distinct(legacy) || exists p :: p in legacy && !ValidPort(p) {
      return Err("invalid configuration");
    }
    for i := 0 to |inbounds|
      invariant forall k :: 0 <= k < i ==> InboundOk(inbounds[k], validName)
    {
      if !InboundOk(inbounds[i], validName) {
        return Err("invalid configuration");
      }
    }
    var ports := Ascending(set p | p in legacy);
    var rules: seq<nat> := [];
    for i := 0 to |ports|
      invariant rules == ports[..i]
    {
      rules := rules + [ports[i]];
    }
    assert ports[..|ports|] == ports;
    r := Ok(Gateway(entries[0], rules, serverNames, socketDir, https));
  }

  /** The first rule that matches decides. */
  function Select(g: Gateway, dstPort: nat, sni: string, i: nat): Backend
    requires i <= |g.legacy|
    decreases |g.legacy| - i
  {
    if i < |g.legacy| then (if g.legacy[i] == dstPort then Legacy(dstPort) else Select(g, dstPort, sni, i + 1))
    else if sni in g.serverNames then ProxyEntry
    else SubscriptionHttps
  }

  function ServerOf(g: Gateway, b: Backend): string {
    match b
    case Legacy(port) => g.socketDir + "/entry-panel-" + ToString(port) + ".sock"
    case ProxyEntry => g.socketDir + "/entry-" + UNIFIED + ToString(g.entryPort) + ".sock"
    case SubscriptionHttps => g.https
  }

  /** How many tags start with the prefix. */
  function Prefixed(inbounds: seq<Inbound>, prefix: string, n: nat): nat
    requires n <= |inbounds|
  {
    if n == 0 then 0 else
      Prefixed(inbounds, prefix, n - 1) + if AfterPrefix(inbounds[n - 1].tag, prefix).Some? then 1 else 0
  }

  /** Every tag that starts with the prefix goes on with a number. */
  predicate AllNumbers(inbounds: seq<Inbound>, prefix: string, n: nat)
    requires n <= |inbounds|
  {
    forall i :: 0 <= i < n && AfterPrefix(inbounds[i].tag, prefix).Some? ==> NumberAfter(inbounds[i].tag, prefix).Some?
  }

  /** `load_ports` of the forwarder. */
  function LoadPorts(inbounds: seq<Inbound>): Result<(nat, seq<nat>), string> {
    var entries, legacy := TaggedPorts(inbounds, UNIFIED, |inbounds|), TaggedPorts(inbounds, PANEL, |inbounds|);
    if Prefixed(inbounds, UNIFIED, |inbounds|) != 1 then Err("Expected exactly one unified inbound")
    else if |entries| != 1 || !AllNumbers(inbounds, PANEL, |inbounds|) then Err("invalid literal for int()")
    else if entries[0] in legacy then Err("Unified port conflicts with a legacy port")
    else Ok((entries[0], legacy))
  }

  // ---- A rendered configuration ----

  lemma TagsTellApart(q: nat)
    ensures NumberAfter(PANEL + ToString(q), PANEL) == Some(q) && AfterPrefix(PANEL + ToString(q), UNIFIED) == None
    ensures NumberAfter(UNIFIED + ToString(q), UNIFIED) == Some(q) && AfterPrefix(UNIFIED + ToString(q), PANEL) == None
  {
    NumberRoundTrip(PANEL, q);
    NumberRoundTrip(UNIFIED, q);
    var panel, unified := PANEL + ToString(q), UNIFIED + ToString(q);
    assert unified[..6][0] == 'u' && PANEL[0] == 'p';
    if |panel| >= 8 { assert panel[..8][0] == 'p' && UNIFIED[0] == 'u'; }
  }

  /** The tags of the accounts' inbounds name their ports. */
  ghost predicate AccountTags(ports: seq<nat>, inbounds: seq<Inbound>) {
    |ports| <= |inbounds| && forall i: nat :: i < |ports| ==> NamesPort(ports, inbounds, i)
  }

  ghost predicate NamesPort(ports: seq<nat>, inbounds: seq<Inbound>, i: nat) {
    i < |ports| && i < |inbounds| && inbounds[i].tag == PANEL + ToString(ports[i])
  }

  lemma {:induction false} PortsOfAccounts(ports: seq<nat>, inbounds: seq<Inbound>, n: nat)
    requires AccountTags(ports, inbounds) && n <= |ports|
    ensures TaggedPorts(inbounds, PANEL, n) == ports[..n] && TaggedPorts(inbounds, UNIFIED, n) == []
  {
    if n > 0 {
      PortsOfAccounts(ports, inbounds, n - 1);
      assert NamesPort(ports, inbounds, n - 1);
      OneMoreAccount(ports, inbounds, n - 1);
    }
  }

  lemma OneMoreAccount(ports: seq<nat>, inbounds: seq<Inbound>, n: nat)
    requires n < |ports| && n < |inbounds| && inbounds[n].tag == PANEL + ToString(ports[n])
    requires TaggedPorts(inbounds, PANEL, n) == ports[..n] && TaggedPorts(inbounds, UNIFIED, n) == []
    ensures TaggedPorts(inbounds, PANEL, n + 1) == ports[..n + 1] && TaggedPorts(inbounds, UNIFIED, n + 1) == []
  {
    TagsTellApart(ports[n]);
    assert ports[..n + 1] == ports[..n] + [ports[n]];
  }

  /** The tags of a rendered configuration give back the entry port and the list of ports. */
  lemma PortsOfUnified(v: Values, entryPort: nat, ports: seq<nat>, inbounds: seq<Inbound>)
    requires IsUnified(v, entryPort, ports, inbounds)
    ensures TaggedPorts(inbounds, PANEL, |inbounds|) == ports
    ensures TaggedPorts(inbounds, UNIFIED, |inbounds|) == [entryPort]
    ensures ServerNamesOf(inbounds, |inbounds|) == [v.serverName]
  {
    assert AccountTags(ports, inbounds);
    PortsOfAccounts(ports, inbounds, |ports|);
    assert ports[..|ports|] == ports;
    EntryBehind(ports, inbounds, entryPort);
  }

  lemma EntryBehind(ports: seq<nat>, inbounds: seq<Inbound>, entryPort: nat)
    requires |inbounds| == |ports| + 1 && inbounds[|ports|].tag == UNIFIED + ToString(entryPort)
    requires TaggedPorts(inbounds, PANEL, |ports|) == ports && TaggedPorts(inbounds, UNIFIED, |ports|) == []
    ensures TaggedPorts(inbounds, PANEL, |inbounds|) == ports
    ensures TaggedPorts(inbounds, UNIFIED, |inbounds|) == [entryPort]
    ensures ServerNamesOf(inbounds, |inbounds|) == inbounds[|ports|].serverNames
  {
    TagsTellApart(entryPort);
  }

  lemma {:induction false} PrefixesOfAccounts(ports: seq<nat>, inbounds: seq<Inbound>, n: nat)
    requires AccountTags(ports, inbounds) && n <= |ports|
    ensures Prefixed(inbounds, UNIFIED, n) == 0 && AllNumbers(inbounds, PANEL, n)
  {
    if n > 0 {
      PrefixesOfAccounts(ports, inbounds, n - 1);
      assert NamesPort(ports, inbounds, n - 1);
      TagsTellApart(ports[n - 1]);
    }
  }

  /** The forwarder recovers exactly what was rendered, unless the entry's port is also an account. */
  lemma LoadPortsRecovers(v: Values, entryPort: nat, ports: seq<nat>, inbounds: seq<Inbound>)
    requires IsUnified(v, entryPort, ports, inbounds)
    ensures if entryPort in ports then LoadPorts(inbounds).Err? else LoadPorts(inbounds) == Ok((entryPort, ports))
  {
    PortsOfUnified(v, entryPort, ports, inbounds);
    assert AccountTags(ports, inbounds);
    PrefixesOfAccounts(ports, inbounds, |ports|);
    TagsTellApart(entryPort);
  }

  // ---- Any configuration ----

  ghost predicate IsTagged(inbounds: seq<Inbound>, prefix: string, port: nat, n: nat)
    requires n <= |inbounds|
  {
    exists i :: 0 <= i < n && NumberAfter(inbounds[i].tag, prefix) == Some(port)
  }

  lemma {:induction false} TaggedExactly(inbounds: seq<Inbound>, prefix: string, n: nat, port: nat)
    requires n <= |inbounds|
    ensures port in TaggedPorts(inbounds, prefix, n) <==> IsTagged(inbounds, prefix, port, n)
  {
    if n > 0 { TaggedExactly(inbounds, prefix, n - 1, port); }
  }

  lemma {:induction false} AllNumbersAreTagged(inbounds: seq<Inbound>, prefix: string, n: nat)
    requires n <= |inbounds|
    ensures |TaggedPorts(inbounds, prefix, n)| <= Prefixed(inbounds, prefix, n)
    ensures |TaggedPorts(inbounds, prefix, n)| == Prefixed(inbounds, prefix, n) <==> AllNumbers(inbounds, prefix, n)
  {
    if n > 0 { AllNumbersAreTagged(inbounds, prefix, n - 1); }
  }

  /** Tags that start like those of entries and accounts go on with a number, and exactly one is that of an entry. */
  ghost predicate WellTagged(inbounds: seq<Inbound>, n: nat)
    requires n <= |inbounds|
  {
    Prefixed(inbounds, "unified-", n) == 1 && AllNumbers(inbounds, "unified-", n) && AllNumbers(inbounds, "panel-", n)
  }

  /** The forwarder starts exactly with one entry whose port is no legacy port, and serves exactly the legacy ports. */
  lemma LoadPortsExactly(inbounds: seq<Inbound>, n: nat, entry: nat, port: nat)
    requires n == |inbounds|
    ensures var r := LoadPorts(inbounds);
      r.Ok? ==>
        && WellTagged(inbounds, n) && IsTagged(inbounds, "unified-", r.value.0, n)
        && !IsTagged(inbounds, "panel-", r.value.0, n) && (port in r.value.1 <==> IsTagged(inbounds, "panel-", port, n))
    ensures WellTagged(inbounds, n) && IsTagged(inbounds, "unified-", entry, n)
            && !IsTagged(inbounds, "panel-", entry, n) ==>
      LoadPorts(inbounds).Ok? && LoadPorts(inbounds).value.0 == entry
  {
    var entries, legacy := TaggedPorts(inbounds, UNIFIED, n), TaggedPorts(inbounds, PANEL, n);
    TaggedExactly(inbounds, PANEL, n, port);
    TaggedExactly(inbounds, UNIFIED, n, entry);
    TaggedExactly(inbounds, PANEL, n, entry);
    AllNumbersAreTagged(inbounds, UNIFIED, n);
    if |entries| == 1 {
      TaggedExactly(inbounds, UNIFIED, n, entries[0]);
      TaggedExactly(inbounds, PANEL, n, entries[0]);
    }
  }

  /** In any accepted configuration an account's inbound and the entry wait on their own sockets for a PROXY header. */
  lemma AcceptedIsPrivate(inbounds: seq<Inbound>, validName: string -> bool, k: nat, q: nat)
    requires Acceptable(inbounds, validName) && k < |inbounds|
    requires inbounds[k].tag == "panel-" + ToString(q) || inbounds[k].tag == "unified-" + ToString(q)
    ensures 1 <= q <= 65535 && inbounds[k].acceptProxyProtocol
    ensures inbounds[k].listen == "/var/log/xray/entry-" + inbounds[k].tag + ".sock"
    ensures inbounds[k].tag == "unified-" + ToString(q) ==>
      inbounds[k].serverNames != [] && forall s :: s in inbounds[k].serverNames ==> validName(s)
  {
    TagsTellApart(q);
    NamedPortIsValid(inbounds, validName, k, q);
    NamedIsPrivate(inbounds, validName, k);
    PrivateSocket(inbounds[k].tag);
  }

  lemma NamedPortIsValid(inbounds: seq<Inbound>, validName: string -> bool, k: nat, q: nat)
    requires Acceptable(inbounds, validName) && k < |inbounds|
    requires NumberAfter(inbounds[k].tag, PANEL) == Some(q) || NumberAfter(inbounds[k].tag, UNIFIED) == Some(q)
    ensures 1 <= q <= 65535
  {
    var entries, legacy := TaggedPorts(inbounds, UNIFIED, |inbounds|), TaggedPorts(inbounds, PANEL, |inbounds|);
    if NumberAfter(inbounds[k].tag, PANEL) == Some(q) {
      TaggedExactly(inbounds, PANEL, |inbounds|, q);
      assert q in legacy;
    } else {
      TaggedExactly(inbounds, UNIFIED, |inbounds|, q);
      assert q in entries;
    }
  }

  lemma NamedIsPrivate(inbounds: seq<Inbound>, validName: string -> bool, k: nat)
    requires Acceptable(inbounds, validName) && k < |inbounds|
    requires NumberAfter(inbounds[k].tag, PANEL).Some? || NumberAfter(inbounds[k].tag, UNIFIED).Some?
    ensures OnPrivateSocket(inbounds[k])
    ensures NumberAfter(inbounds[k].tag, UNIFIED).Some? ==>
      inbounds[k].serverNames != [] && forall s :: s in inbounds[k].serverNames ==> validName(s)
  {
    assert InboundOk(inbounds[k], validName);
  }

  lemma PrivateSocket(tag: string)
    ensures SocketPath(tag) == "/var/log/xray/entry-" + tag + ".sock"
  {
  }

  lemma RenderedInboundsOk(v: Values, entryPort: nat, ports: seq<nat>, inbounds: seq<Inbound>,
                           validName: string -> bool, i: nat)
    requires IsUnified(v, entryPort, ports, inbounds) && i <= |ports|
    ensures InboundOk(inbounds[i], validName) <==> i < |ports| || validName(v.serverName)
  {
    if i < |ports| {
      TagsTellApart(ports[i]);
    } else {
      TagsTellApart(entryPort);
      assert inbounds[i].serverNames == [v.serverName];
    }
  }

  /** The gateway accepts a rendered configuration exactly when ports and server name are valid. */
  lemma GatewayAccepts(v: Values, entryPort: nat, ports: seq<nat>, inbounds: seq<Inbound>, validName: string -> bool)
    requires IsUnified(v, entryPort, ports, inbounds)
    ensures Acceptable(inbounds, validName) <==>
      && 1 <= entryPort <= 65535 && entryPort !in ports && (forall p :: p in ports ==> 1 <= p <= 65535)
      && (forall i, j :: 0 <= i < j < |ports| ==> ports[i] != ports[j]) && validName(v.serverName)
  {
    PortsOfUnified(v, entryPort, ports, inbounds);
    forall i | 0 <= i < |inbounds|
      ensures InboundOk(inbounds[i], validName) <==> i < |ports| || validName(v.serverName)
    {
      RenderedInboundsOk(v, entryPort, ports, inbounds, validName, i);
    }
    assert InboundOk(inbounds[|ports|], validName) <==> validName(v.serverName);
  }

  lemma {:induction false} SelectLegacy(g: Gateway, q: nat, sni: string, i: nat)
    requires i <= |g.legacy|
    ensures q in g.legacy[i..] ==> Select(g, q, sni, i) == Legacy(q)
    ensures q !in g.legacy[i..] ==>
      Select(g, q, sni, i) == if sni in g.serverNames then ProxyEntry else SubscriptionHttps
    decreases |g.legacy| - i
  {
    if i < |g.legacy| {
      SelectLegacy(g, q, sni, i + 1);
      assert g.legacy[i..] == [g.legacy[i]] + g.legacy[i + 1..];
    }
  }

  const SOCKET_DIR := "/var/log/xray"

  lemma RenderedGateway(v: Values, entryPort: nat, ports: seq<nat>, inbounds: seq<Inbound>, https: string,
                        validName: string -> bool)
    requires IsUnified(v, entryPort, ports, inbounds) && Acceptable(inbounds, validName)
    ensures RenderGateway(inbounds, SOCKET_DIR, https, validName)
         == Ok(Gateway(entryPort, Ascending(set p | p in ports), [v.serverName], SOCKET_DIR, https))
  {
    PortsOfUnified(v, entryPort, ports, inbounds);
  }

  /** The gateway's servers are the sockets the inbounds wait on. */
  lemma ServersAreSockets(g: Gateway, q: nat)
    requires g.socketDir == SOCKET_DIR
    ensures ServerOf(g, Legacy(q)) == SocketPath(PANEL + ToString(q))
    ensures ServerOf(g, ProxyEntry) == SocketPath(UNIFIED + ToString(g.entryPort))
  {
    assert SOCKET_DIR + "/entry-panel-" == "/var/log/xray/entry-" + PANEL;
    assert SOCKET_DIR + "/entry-" == "/var/log/xray/entry-";
  }

  /**
   Traffic for alias `q` reaches the socket of account `q`'s inbound; other traffic with the server name
   reaches the entry.
   */
  lemma GatewayRoutesToOwner(v: Values, entryPort: nat, ports: seq<nat>, inbounds: seq<Inbound>,
                             https: string, validName: string -> bool, q: nat, sni: string)
    requires IsUnified(v, entryPort, ports, inbounds) && Acceptable(inbounds, validName)
    ensures RenderGateway(inbounds, SOCKET_DIR, https, validName).Ok?
    ensures var g := RenderGateway(inbounds, SOCKET_DIR, https, validName).value;
      if q in ports then forall i :: 0 <= i < |ports| && ports[i] == q ==>
        ServerOf(g, Select(g, q, sni, 0)) == inbounds[i].listen
      else if sni == v.serverName then ServerOf(g, Select(g, q, sni, 0)) == inbounds[|ports|].listen
      else ServerOf(g, Select(g, q, sni, 0)) == https
  {
    RenderedGateway(v, entryPort, ports, inbounds, https, validName);
    RoutesByPort(Gateway(entryPort, Ascending(set p | p in ports), [v.serverName], SOCKET_DIR, https), ports, q, sni);
    ServersAreSockets(Gateway(entryPort, Ascending(set p | p in ports), [v.serverName], SOCKET_DIR, https), q);
    forall i | 0 <= i < |ports| && ports[i] == q ensures inbounds[i].listen == SocketPath(PANEL + ToString(q)) { }
  }

  lemma RoutesByPort(g: Gateway, ports: seq<nat>, q: nat, sni: string)
    requires g.legacy == Ascending(set p | p in ports)
    ensures Select(g, q, sni, 0)
         == if q in ports then Legacy(q) else if sni in g.serverNames then ProxyEntry else SubscriptionHttps
  {
    AscendingIsSorted(set p | p in ports);
    SelectLegacy(g, q, sni, 0);
    assert g.legacy[0..] == g.legacy;
  }

  /**
   End to end: a connection to alias `q` arrives with `q` in its header, and the gateway picks account `q`'s
   socket.
   */
  lemma AliasReachesItsAccount(v: Values, entryPort: nat, ports: seq<nat>, inbounds: seq<Inbound>, https: string,
                               validName: string -> bool, c: Connection, payload: seq<Byte>, sni: string)
    requires IsUnified(v, entryPort, ports, inbounds) && Acceptable(inbounds, validName)
    requires c.source.port < 65536 && c.destination.port in ports && c.destination.port < 65536 && Encode(c).Ok?
    ensures var received := Decode(Encode(c).value + payload);
      && received.Some? && received.value.0 == c
      && var g := RenderGateway(inbounds, SOCKET_DIR, https, validName).value;
         ServerOf(g, Select(g, received.value.0.destination.port, sni, 0))
         == SocketPath(PANEL + ToString(c.destination.port))
  {
    HeaderRoundTrip(c, payload);
    GatewayRoutesToOwner(v, entryPort, ports, inbounds, https, validName, c.destination.port, sni);
  }
}
