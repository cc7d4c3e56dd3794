/** The SOCKS5 server's side of a connection and the probe that checks it: RFC 1928
    sections 3, 4, 5 and 6, and RFC 1929 section 2.

    A side is a function from the bytes it can read to what it makes of them: a result,
    the bytes it leaves unread and the bytes it writes. A read that finds too few bytes
    ends in `Short`, with everything written before it: that is a side still waiting. */
module Socks5 {
  import opened Wrappers
  import opened Ipv6Addr

  const VERSION5 := 0x05
  const METHOD_NONE := 0x00
  const METHOD_PASSWORD := 0x02
  const METHOD_REJECTED := 0xff
  const COMMAND_CONNECT := 0x01
  const ADDRESS_IPV4 := 0x01
  const ADDRESS_DOMAIN := 0x03
  const ADDRESS_IPV6 := 0x04

  type Bytes = seq<byte>

  datatype Error =
    | Short
    | BadGreeting | NoMethod | BadAuth | EmptyCredentials
    | BadRequest | BadAddressType | EmptyDomain
    | NoListenerPort | AcquireFailed | DialFailed | RecordFailed
    | HandshakeRejected | CredentialsRejected | ConnectRefused | BadReplyAddress

  datatype Step<+T> = Step(result: Result<T, Error>, rest: Bytes, written: Bytes)

  datatype Host = IPv4(ip: Bytes) | IPv6(ip: Bytes) | Domain(name: Bytes)
  datatype Destination = Destination(host: Host, port: int)
  datatype Endpoint = Endpoint(ip: Bytes, port: int)

  /** "lease:", "user:" and "password:". */
  const LEASE: Bytes := [0x6c, 0x65, 0x61, 0x73, 0x65, 0x3a]
  const USER: Bytes := [0x75, 0x73, 0x65, 0x72, 0x3a]
  const PASSWORD: Bytes := [0x70, 0x61, 0x73, 0x73, 0x77, 0x6f, 0x72, 0x64, 0x3a]

  function ReadFull(input: Bytes, n: nat): Step<Bytes> {
    if |input| >= n then Step(Ok(input[..n]), input[n..], []) else Step(Err(Short), [], [])
  }

  /** The low eight bits of a length, and the low sixteen of a port, as Go converts them. */
  function LowByte(n: int): byte {
    n % 256
  }

  function Uint16(port: int): Bytes {
    [(port % 65536) / 256, port % 256]
  }

  function Number16(bytes: Bytes): int
    requires |bytes| == 2
  {
    256 * (bytes[0] as int) + bytes[1] as int
  }

  // ---------- The server ----------

  function ChooseMethod(methods: Bytes, fixed: Bytes): byte {
    if fixed != [] && METHOD_NONE in methods then METHOD_NONE
    else if METHOD_PASSWORD in methods then METHOD_PASSWORD
    else if METHOD_NONE in methods then METHOD_NONE
    else METHOD_REJECTED
  }

  /** A step taken after `written` was already out. */
  function After<T>(written: Bytes, s: Step<T>): Step<T> {
    s.(written := written + s.written)
  }

  function ReadPassword(username: Bytes, input: Bytes): Step<(Bytes, Bytes)> {
    match ReadFull(input, 1)
    case Step(Err(e), rest, _) => Step(Err(e), rest, [])
    case Step(Ok(length), in1, _) =>
      match ReadFull(in1, length[0])
      case Step(Err(e), rest, _) => Step(Err(e), rest, [])
      case Step(Ok(password), rest, _) => Step(Ok((username, password)), rest, [0x01, 0x00])
  }

  function ReadCredentials(input: Bytes): Step<(Bytes, Bytes)> {
    match ReadFull(input, 2)
    case Step(Err(e), rest, _) => Step(Err(e), rest, [])
    case Step(Ok(header), in1, _) =>
      if header[0] != 0x01 || header[1] == 0 then Step(Err(BadAuth), in1, [])
      else
        match ReadFull(in1, header[1])
        case Step(Err(e), rest, _) => Step(Err(e), rest, [])
        case Step(Ok(username), in2, _) => ReadPassword(username, in2)
  }

  /** The lease identity behind a pair of credentials. */
  function Identity(username: Bytes, password: Bytes): Result<Bytes, Error> {
    if username != [] then
      if |username| > 6 && username[..6] == LEASE then Ok(username[6..]) else Ok(USER + username)
    else if password != [] then Ok(PASSWORD + password)
    else Err(EmptyCredentials)
  }

  /** What a method leads to: an empty identity stands for the client's remote address. */
  function Authenticate(chosen: byte, fixed: Bytes, input: Bytes): Step<Bytes> {
    if chosen == METHOD_REJECTED then Step(Err(NoMethod), input, [])
    else if chosen == METHOD_NONE then Step(Ok(fixed), input, [])
    else
      match ReadCredentials(input)
      case Step(Err(e), rest, w) => Step(Err(e), rest, w)
      case Step(Ok((username, password)), rest, w) =>
        Step(if fixed != [] then Ok(fixed) else Identity(username, password), rest, w)
  }

  function Negotiate(input: Bytes, fixed: Bytes): Step<Bytes> {
    match ReadFull(input, 2)
    case Step(Err(e), rest, _) => Step(Err(e), rest, [])
    case Step(Ok(header), in1, _) =>
      if header[0] != VERSION5 || header[1] == 0 then Step(Err(BadGreeting), in1, [])
      else
        match ReadFull(in1, header[1])
        case Step(Err(e), rest, _) => Step(Err(e), rest, [])
        case Step(Ok(methods), in2, _) =>
          var chosen := ChooseMethod(methods, fixed);
          After([VERSION5, chosen], Authenticate(chosen, fixed, in2))
  }

  function To4(ip: Bytes): Option<Bytes> {
    if |ip| == 4 then Some(ip)
    else if |ip| == 16 && ip[..10] == Zeros(10) && ip[10] == 0xff && ip[11] == 0xff then Some(ip[12..])
    else None
  }

  function To16(ip: Bytes): Bytes {
    if |ip| == 16 then ip else []
  }

  /** writeReply: no address stands for 0.0.0.0 port 0. */
  function Reply(code: byte, address: Option<Endpoint>): Bytes {
    var endpoint := if address.Some? then address.value else Endpoint(Zeros(4), 0);
    var tail := match To4(endpoint.ip) case Some(ip4) => [ADDRESS_IPV4] + ip4 case None =>
      [ADDRESS_IPV6] + To16(endpoint.ip);
    [VERSION5, code, 0x00] + tail + Uint16(endpoint.port)
  }

  function ReadHost(kind: byte, input: Bytes): Step<Host> {
    if kind == ADDRESS_IPV4 then
      match ReadFull(input, 4)
      case Step(Err(e), rest, _) => Step(Err(e), rest, [])
      case Step(Ok(ip), rest, _) => Step(Ok(IPv4(ip)), rest, [])
    else if kind == ADDRESS_IPV6 then
      match ReadFull(input, 16)
      case Step(Err(e), rest, _) => Step(Err(e), rest, [])
      case Step(Ok(ip), rest, _) => Step(Ok(IPv6(ip)), rest, [])
    else if kind == ADDRESS_DOMAIN then
      match ReadFull(input, 1)
      case Step(Err(e), rest, _) => Step(Err(e), rest, [])
      case Step(Ok(length), in1, _) =>
        if length[0] == 0 then Step(Err(EmptyDomain), in1, [])
        else
          match ReadFull(in1, length[0])
          case Step(Err(e), rest, _) => Step(Err(e), rest, [])
          case Step(Ok(name), rest, _) => Step(Ok(Domain(name)), rest, [])
    else Step(Err(BadAddressType), input, Reply(0x08, None))
  }

  function ReadConnectRequest(input: Bytes): Step<Destination> {
    match ReadFull(input, 4)
    case Step(Err(e), rest, _) => Step(Err(e), rest, [])
    case Step(Ok(header), in1, _) =>
      if header[0] != VERSION5 || header[1] != COMMAND_CONNECT || header[2] != 0 then
        Step(Err(BadRequest), in1, Reply(0x07, None))
      else
        match ReadHost(header[3], in1)
        case Step(Err(e), rest, w) => Step(Err(e), rest, w)
        case Step(Ok(host), in2, _) =>
          match ReadFull(in2, 2)
          case Step(Err(e), rest, _) => Step(Err(e), rest, [])
          case Step(Ok(port), rest, _) => Step(Ok(Destination(host, Number16(port))), rest, [])
  }

  /** What ServeConn selected before it starts to relay. */
  datatype Selection = Selection(identity: Bytes, destination: Destination)

  /** ServeConn after the lease was acquired: `dialed` is the destination's answer, and
      `recorded` says whether the pool could record the request. */
  function ServeRequest(identity: Bytes, dialed: Option<Endpoint>, recorded: bool, input: Bytes): Step<Selection> {
    match ReadConnectRequest(input)
    case Step(Err(e), rest, w) => Step(Err(e), rest, w)
    case Step(Ok(destination), rest, _) =>
      if dialed.None? then Step(Err(DialFailed), rest, Reply(0x05, None))
      else Step(if recorded then Ok(Selection(identity, destination)) else Err(RecordFailed), rest, Reply(0x00, dialed))
  }

  function ServeLease(identity: Bytes, acquired: bool, dialed: Option<Endpoint>, recorded: bool,
    input: Bytes): Step<Selection> {
    if acquired then ServeRequest(identity, dialed, recorded, input)
      else Step(Err(AcquireFailed), input, Reply(0x01, None))
  }

  /** ServeConn up to the relay. `acquired` says whether the pool gave a lease with an IPv6
      address; a fixed lease also needs a listener port. */
  function Serve(fixed: Bytes, fixedPort: int, remote: Bytes, acquired: bool, dialed: Option<Endpoint>, recorded: bool,
    input: Bytes): Step<Selection> {
    match Negotiate(input, fixed)
    case Step(Err(e), rest, w) => Step(Err(e), rest, w)
    case Step(Ok(chosen), in1, w) =>
      var identity := if chosen == [] then remote else chosen;
      After(w, if fixed != [] && fixedPort <= 0 then Step(Err(NoListenerPort), in1, [])
               else ServeLease(identity, acquired, dialed, recorded, in1))
  }

  // ---------- The probe ----------

  function Greeting(leaseId: Bytes): Bytes {
    if leaseId == [] then [VERSION5, 1, METHOD_NONE] else [VERSION5, 2, METHOD_NONE, METHOD_PASSWORD]
  }

  function Auth(leaseId: Bytes): Bytes {
    [0x01, LowByte(|LEASE + leaseId|)] + (LEASE + leaseId) + [0x00]
  }

  function Request(host: Bytes, port: int): Bytes {
    [VERSION5, COMMAND_CONNECT, 0x00, ADDRESS_DOMAIN, LowByte(|host|)] + host + Uint16(port)
  }

  /** drainReplyAddress: the address and port of a reply are read and dropped. */
  function DrainReplyAddress(kind: byte, input: Bytes): Step<()> {
    var length: Step<nat> :=
      if kind == ADDRESS_IPV4 then Step(Ok(4), input, [])
      else if kind == ADDRESS_IPV6 then Step(Ok(16), input, [])
      else if kind == ADDRESS_DOMAIN then
        (match ReadFull(input, 1)
         case Step(Err(e), rest, _) => Step(Err(e), rest, [])
         case Step(Ok(n), rest, _) => Step(Ok(n[0]), rest, []))
      else Step(Err(BadReplyAddress), input, []);
    match length
    case Step(Err(e), rest, _) => Step(Err(e), rest, [])
    case Step(Ok(n), in1, _) =>
      match ReadFull(in1, n + 2)
      case Step(Err(e), rest, _) => Step(Err(e), rest, [])
      case Step(Ok(_), rest, _) => Step(Ok(()), rest, [])
  }

  /** The probe after the handshake: request a connection, unless only the handshake is
      wanted, and read the reply. */
  function ProbeRequest(host: Bytes, port: int, input: Bytes): Step<()> {
    if host == [] then Step(Ok(()), input, [])
    else
      match ReadFull(input, 4)
      case Step(Err(e), rest, _) => Step(Err(e), rest, Request(host, port))
      case Step(Ok(header), in1, _) =>
        if header[1] != 0x00 then Step(Err(ConnectRefused), in1, Request(host, port))
        else After(Request(host, port), DrainReplyAddress(header[3], in1))
  }

  function PresentedLease(leaseId: Bytes, input: Bytes): Step<()> {
    match ReadFull(input, 2)
    case Step(Err(e), rest, _) => Step(Err(e), rest, Auth(leaseId))
    case Step(Ok(status), rest, _) =>
      Step(if status[1] != 0x00 then Err(CredentialsRejected) else Ok(()), rest, Auth(leaseId))
  }

  function ProbeHandshake(leaseId: Bytes, input: Bytes): Step<()> {
    match ReadFull(input, 2)
    case Step(Err(e), rest, _) => Step(Err(e), rest, Greeting(leaseId))
    case Step(Ok(reply), rest, _) =>
      if reply[0] != VERSION5 || reply[1] == METHOD_REJECTED then Step(Err(HandshakeRejected), rest, Greeting(leaseId))
      else if leaseId != [] && reply[1] == METHOD_PASSWORD then After(Greeting(leaseId), PresentedLease(leaseId, rest))
      else Step(Ok(()), rest, Greeting(leaseId))
  }

  /** ProbeProxy up to the egress request: `input` is what the server answers. */
  function Probe(leaseId: Bytes, host: Bytes, port: int, input: Bytes): Step<()> {
    match ProbeHandshake(leaseId, input)
    case Step(Err(e), rest, w) => Step(Err(e), rest, w)
    case Step(Ok(_), rest, w) => After(w, ProbeRequest(host, port, rest))
  }
}
