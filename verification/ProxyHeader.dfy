/** The binary header of section 2.2 of the PROXY protocol specification, as the legacy forwarder writes it. */
module ProxyHeader {
  import opened Wrappers

  datatype Family = Inet | Inet6

  /** "\r\n\r\n\0\r\nQUIT\n". */
  const SIGNATURE: seq<Byte> := [13, 10, 13, 10, 0, 13, 10, 81, 85, 73, 84, 10]
  const VERSION_COMMAND: Byte := 0x21   // version 2, command PROXY
  const TCP_OVER_IPV4: Byte := 0x11
  const TCP_OVER_IPV6: Byte := 0x21

  datatype Endpoint = Endpoint(address: seq<Byte>, port: nat)

  datatype Connection = Connection(family: Family, source: Endpoint, destination: Endpoint)

  function AddressLength(family: Family): nat {
    if family == Inet then 4 else 16
  }

  /** Two bytes, most significant first. */
  function Short(n: nat): (r: seq<Byte>)
    requires n < 65536
    ensures |r| == 2
  {
    [n / 256, n % 256]
  }

  function FromShort(high: Byte, low: Byte): (n: nat)
    ensures n < 65536
  {
    256 * high + low
  }

  function AddressBlock(c: Connection): seq<Byte>
    requires c.source.port < 65536 && c.destination.port < 65536
  {
    c.source.address + c.destination.address + Short(c.source.port) + Short(c.destination.port)
  }

  /** `proxy_header`: an address of the wrong length for the listener's family is refused. */
  function Encode(c: Connection): Result<seq<Byte>, string>
    requires c.source.port < 65536 && c.destination.port < 65536
  {
    var n := AddressLength(c.family);
    if |c.source.address| != n || |c.destination.address| != n then Err("wrong address family")
    else
      Ok(SIGNATURE + [VERSION_COMMAND, if c.family == Inet then TCP_OVER_IPV4 else TCP_OVER_IPV6]
         + Short(2 * n + 4) + AddressBlock(c))
  }

  /** A receiver's reading of the header: the connection, and how many bytes it took. */
  function Decode(data: seq<Byte>): Option<(Connection, nat)> {
    if |data| < 16 || data[..12] != SIGNATURE || data[12] != VERSION_COMMAND then None
    else if data[13] != TCP_OVER_IPV4 && data[13] != TCP_OVER_IPV6 then None
    else
      var family := if data[13] == TCP_OVER_IPV4 then Inet else Inet6;
      var n := AddressLength(family);
      var length := FromShort(data[14], data[15]);
      if length < 2 * n + 4 || |data| < 16 + length then None
      else
        var p := 16 + 2 * n;
        Some((Connection(family, Endpoint(data[16..16 + n], FromShort(data[p], data[p + 1])),
                         Endpoint(data[16 + n..p], FromShort(data[p + 2], data[p + 3]))),
              16 + length))
  }

  lemma BlockParts(c: Connection, n: nat)
    requires c.source.port < 65536 && c.destination.port < 65536
    requires |c.source.address| == |c.destination.address| == n
    ensures var b := AddressBlock(c);
      && |b| == 2 * n + 4 && b[0..n] == c.source.address && b[n..2 * n] == c.destination.address
      && FromShort(b[2 * n], b[2 * n + 1]) == c.source.port
      && FromShort(b[2 * n + 2], b[2 * n + 3]) == c.destination.port
  {
  }

  /** Sixteen bytes in front of the address block: signature, command, family and length. */
  lemma HeaderParts(c: Connection, payload: seq<Byte>, data: seq<Byte>)
    requires c.source.port < 65536 && c.destination.port < 65536 && Encode(c).Ok? && data == Encode(c).value + payload
    ensures var n := AddressLength(c.family);
      && |Encode(c).value| == 20 + 2 * n <= |data|
      && data[..12] == SIGNATURE && data[12] == VERSION_COMMAND
      && data[13] == (if c.family == Inet then TCP_OVER_IPV4 else TCP_OVER_IPV6)
      && FromShort(data[14], data[15]) == 2 * n + 4
    ensures forall i :: 0 <= i < |AddressBlock(c)| ==> data[16 + i] == AddressBlock(c)[i]
  {
    assert data[..12] == SIGNATURE && data[12] == VERSION_COMMAND;
  }

  /** The receiver gets back both endpoints, whatever bytes follow the header. */
  lemma HeaderRoundTrip(c: Connection, payload: seq<Byte>)
    requires c.source.port < 65536 && c.destination.port < 65536 && Encode(c).Ok?
    ensures Decode(Encode(c).value + payload) == Some((c, |Encode(c).value|))
  {
    var n := AddressLength(c.family);
    var block, data := AddressBlock(c), Encode(c).value + payload;
    BlockParts(c, n);
    HeaderParts(c, payload, data);
    assert data[16..16 + n] == block[0..n] && data[16 + n..16 + 2 * n] == block[n..2 * n];
  }

  /** The bytes of the header as the specification gives them, with ports in network order. */
  lemma WireFormat(c: Connection, a: nat, b: nat, x: nat, y: nat)
    requires a < 256 && b < 256 && x < 256 && y < 256
    requires c.source.port == 256 * a + b && c.destination.port == 256 * x + y
    ensures Encode(c).Ok? <==> |c.source.address| == |c.destination.address| == if c.family == Inet then 4 else 16
    ensures Encode(c).Ok? ==>
      Encode(c).value == [0x0D, 0x0A, 0x0D, 0x0A, 0x00, 0x0D, 0x0A, 0x51, 0x55, 0x49, 0x54, 0x0A, 0x21]
                         + (if c.family == Inet then [0x11, 0, 12] else [0x21, 0, 36])
                         + (c.source.address + c.destination.address + [a, b, x, y])
  {
    if Encode(c).Ok? {
      assert Short(c.source.port) == [a, b] && Short(c.destination.port) == [x, y];
      assert AddressBlock(c) == c.source.address + c.destination.address + [a, b, x, y];
      assert Short(12) == [0, 12] && Short(36) == [0, 36];
    }
  }
}
