/** The SOCKS5 messages read back exactly what was written, a verdict depends on the
    consumed bytes alone, and the probe and the server stay in step however the bytes
    between them are cut up. */
module Socks5Dialogue {
  import opened Wrappers
  import opened Ipv6Addr
  import opened Socks5

  // ---------- A verdict depends only on the bytes consumed ----------

  ghost predicate IsShort<T>(s: Step<T>) {
    s.result == Err(Short)
  }

  /** `whole` is what a side makes of its input once `more` has arrived, `part` what it
      made of it before. */
  ghost predicate Extends<T(!new)>(part: Step<T>, whole: Step<T>, more: Bytes) {
    if IsShort(part) then part.rest == [] && part.written <= whole.written
    else whole == part.(rest := part.rest + more)
  }

  lemma ReadFullExtends(input: Bytes, n: nat, more: Bytes)
    ensures Extends(ReadFull(input, n), ReadFull(input + more, n), more)
  {
    if |input| >= n {
      assert (input + more)[..n] == input[..n];
      assert (input + more)[n..] == input[n..] + more;
    }
  }

  lemma PasswordExtends(username: Bytes, input: Bytes, more: Bytes)
    ensures Extends(ReadPassword(username, input), ReadPassword(username, input + more), more)
  {
    ReadFullExtends(input, 1, more);
    var a := ReadFull(input, 1);
    if a.result.Ok? {
      ReadFullExtends(a.rest, a.result.value[0], more);
    }
  }

  lemma CredentialsExtend(input: Bytes, more: Bytes)
    ensures Extends(ReadCredentials(input), ReadCredentials(input + more), more)
  {
    ReadFullExtends(input, 2, more);
    var a := ReadFull(input, 2);
    if a.result.Ok? {
      ReadFullExtends(a.rest, a.result.value[1], more);
      var b := ReadFull(a.rest, a.result.value[1]);
      if b.result.Ok? {
        PasswordExtends(b.result.value, b.rest, more);
      }
    }
  }

  lemma AuthenticateExtends(chosen: byte, fixed: Bytes, input: Bytes, more: Bytes)
    ensures Extends(Authenticate(chosen, fixed, input), Authenticate(chosen, fixed, input + more), more)
  {
    CredentialsExtend(input, more);
  }

  lemma NegotiateExtends(input: Bytes, fixed: Bytes, more: Bytes)
    ensures Extends(Negotiate(input, fixed), Negotiate(input + more, fixed), more)
  {
    ReadFullExtends(input, 2, more);
    var a := ReadFull(input, 2);
    if a.result.Ok? {
      ReadFullExtends(a.rest, a.result.value[1], more);
      var b := ReadFull(a.rest, a.result.value[1]);
      if b.result.Ok? {
        AuthenticateExtends(ChooseMethod(b.result.value, fixed), fixed, b.rest, more);
      }
    }
  }

  lemma HostExtends(kind: byte, input: Bytes, more: Bytes)
    ensures Extends(ReadHost(kind, input), ReadHost(kind, input + more), more)
  {
    ReadFullExtends(input, 4, more);
    ReadFullExtends(input, 16, more);
    ReadFullExtends(input, 1, more);
    var a := ReadFull(input, 1);
    if a.result.Ok? {
      ReadFullExtends(a.rest, a.result.value[0], more);
    }
  }

  lemma ConnectExtends(input: Bytes, more: Bytes)
    ensures Extends(ReadConnectRequest(input), ReadConnectRequest(input + more), more)
  {
    ReadFullExtends(input, 4, more);
    var a := ReadFull(input, 4);
    if a.result.Ok? {
      HostExtends(a.result.value[3], a.rest, more);
      ReadFullExtends(ReadHost(a.result.value[3], a.rest).rest, 2, more);
    }
  }

  lemma DrainExtends(kind: byte, input: Bytes, more: Bytes)
    ensures Extends(DrainReplyAddress(kind, input), DrainReplyAddress(kind, input + more), more)
  {
    if kind == ADDRESS_IPV4 {
      ReadFullExtends(input, 6, more);
    } else if kind == ADDRESS_IPV6 {
      ReadFullExtends(input, 18, more);
    } else {
      ReadFullExtends(input, 1, more);
      var a := ReadFull(input, 1);
      if a.result.Ok? {
        ReadFullExtends(a.rest, a.result.value[0] as nat + 2, more);
      }
    }
  }

  lemma ProbeRequestExtends(host: Bytes, port: int, input: Bytes, more: Bytes)
    ensures Extends(ProbeRequest(host, port, input), ProbeRequest(host, port, input + more), more)
  {
    ReadFullExtends(input, 4, more);
    var a := ReadFull(input, 4);
    if a.result.Ok? {
      DrainExtends(a.result.value[3], a.rest, more);
    }
  }

  lemma HandshakeExtends(leaseId: Bytes, input: Bytes, more: Bytes)
    ensures Extends(ProbeHandshake(leaseId, input), ProbeHandshake(leaseId, input + more), more)
  {
    ReadFullExtends(input, 2, more);
    var a := ReadFull(input, 2);
    if a.result.Ok? {
      ReadFullExtends(a.rest, 2, more);
    }
  }

  lemma ServeRequestExtends(identity: Bytes, dialed: Option<Endpoint>, recorded: bool, input: Bytes, more: Bytes)
    ensures Extends(ServeRequest(identity, dialed, recorded, input),
            ServeRequest(identity, dialed, recorded, input + more), more)
  {
    ConnectExtends(input, more);
  }

  /** The server: a verdict already reached stands whatever arrives later and the new
      bytes stay unread; a waiting server has eaten all and only ever adds to its output. */
  lemma ServeExtends(p: Setup, input: Bytes, more: Bytes)
    ensures Extends(Server(p, input), Server(p, input + more), more)
  {
    NegotiateExtends(input, p.fixed, more);
    var n := Negotiate(input, p.fixed);
    if n.result.Ok? {
      ServeRequestExtends(if n.result.value == [] then p.remote
        else n.result.value, p.dialed, p.recorded, n.rest, more);
    }
  }

  /** The probe, likewise. */
  lemma ProbeExtends(p: Setup, input: Bytes, more: Bytes)
    ensures Extends(Client(p, input), Client(p, input + more), more)
  {
    HandshakeExtends(p.leaseId, input, more);
    ProbeRequestExtends(p.host, p.port, ProbeHandshake(p.leaseId, input).rest, more);
  }

  lemma Split(part: Bytes, whole: Bytes)
    requires part <= whole
    ensures part + whole[|part|..] == whole
  {
  }

  /** A strict prefix of a conversation the server reads to its end is never enough. */
  lemma ServerNeedsEveryByte(p: Setup, whole: Bytes, part: Bytes)
    requires Server(p, whole).rest == [] && part < whole
    ensures IsShort(Server(p, part))
  {
    Split(part, whole);
    ServeExtends(p, part, whole[|part|..]);
  }

  lemma ProbeNeedsEveryByte(p: Setup, whole: Bytes, part: Bytes)
    requires Client(p, whole).rest == [] && part < whole
    ensures IsShort(Client(p, part))
  {
    Split(part, whole);
    ProbeExtends(p, part, whole[|part|..]);
  }

  // ---------- Printing and parsing ----------

  lemma ReadFullSplits(input: Bytes, n: nat)
    requires ReadFull(input, n).result.Ok?
    ensures var r := ReadFull(input, n); |r.result.value| == n && input == r.result.value + r.rest
  {
  }

  function Credentials(username: Bytes, password: Bytes): Bytes {
    [0x01, LowByte(|username|)] + username + [LowByte(|password|)] + password
  }

  lemma CredentialsParse(username: Bytes, password: Bytes, rest: Bytes)
    requires 1 <= |username| <= 255 && |password| <= 255
    ensures ReadCredentials(Credentials(username, password) + rest)
            == Step(Ok((username, password)), rest, [0x01, 0x00])
  {
    var m := Credentials(username, password) + rest;
    var t3 := password + rest;
    var t2 := [LowByte(|password|)] + t3;
    var t1 := username + t2;
    assert m == [0x01, LowByte(|username|)] + t1;
    assert m[..2] == [0x01, LowByte(|username|)] && m[2..] == t1;
    assert t1[..|username|] == username && t1[|username|..] == t2;
    assert t2[..1] == [LowByte(|password|)] && t2[1..] == t3;
    assert t3[..|password|] == password && t3[|password|..] == rest;
  }

  lemma PasswordPrints(username: Bytes, input: Bytes)
    requires ReadPassword(username, input).result.Ok?
    ensures var r := ReadPassword(username, input); var password := r.result.value.1;
            r.result.value.0 == username && |password| <= 255 && input == [LowByte(|password|)] + password + r.rest
  {
    ReadFullSplits(input, 1);
    var a := ReadFull(input, 1);
    ReadFullSplits(a.rest, a.result.value[0]);
    var b := ReadFull(a.rest, a.result.value[0]);
    assert a.result.value == [LowByte(|b.result.value|)];
  }

  lemma CredentialsPrint(input: Bytes)
    requires ReadCredentials(input).result.Ok?
    ensures var r := ReadCredentials(input); var (username, password) := r.result.value;
            1 <= |username| <= 255 && |password| <= 255 && input == Credentials(username, password) + r.rest
  {
    ReadFullSplits(input, 2);
    var a := ReadFull(input, 2);
    var header := a.result.value;
    ReadFullSplits(a.rest, header[1]);
    var b := ReadFull(a.rest, header[1]);
    PasswordPrints(b.result.value, b.rest);
    var c := ReadPassword(b.result.value, b.rest);
    Joined(header, b.result.value, c.result.value.1, c.rest);
  }

  lemma Joined(header: Bytes, username: Bytes, password: Bytes, rest: Bytes)
    requires |header| == 2 && header[0] == 0x01 && header[1] == |username| && |password| <= 255
    ensures header + (username + ([LowByte(|password|)] + password + rest)) == Credentials(username, password) + rest
  {
    assert header == [0x01, LowByte(|username|)];
  }

  /** The credentials message is read back exactly, with nothing of what follows it, and
      nothing else is accepted. */
  lemma CredentialsRoundTrip(input: Bytes, username: Bytes, password: Bytes, rest: Bytes)
    ensures (ReadCredentials(input).result == Ok((username, password)) && ReadCredentials(input).rest == rest) <==>
            (1 <= |username| <= 255 && |password| <= 255 && input == Credentials(username, password) + rest)
  {
    if 1 <= |username| <= 255 && |password| <= 255 && input == Credentials(username, password) + rest {
      CredentialsParse(username, password, rest);
    }
    if ReadCredentials(input).result.Ok? {
      CredentialsPrint(input);
    }
  }

  function Kind(host: Host): byte {
    match host
    case IPv4(_) => ADDRESS_IPV4
    case IPv6(_) => ADDRESS_IPV6
    case Domain(_) => ADDRESS_DOMAIN
  }

  function HostBytes(host: Host): Bytes {
    match host
    case IPv4(ip) => ip
    case IPv6(ip) => ip
    case Domain(name) => [LowByte(|name|)] + name
  }

  predicate Sendable(d: Destination) {
    0 <= d.port < 65536 &&
    match d.host
    case IPv4(ip) => |ip| == 4
    case IPv6(ip) => |ip| == 16
    case Domain(name) => 1 <= |name| <= 255
  }

  function Connect(d: Destination): Bytes {
    [VERSION5, COMMAND_CONNECT, 0x00, Kind(d.host)] + HostBytes(d.host) + Uint16(d.port)
  }

  lemma Uint16Value(port: int)
    requires 0 <= port < 65536
    ensures Number16(Uint16(port)) == port
  {
  }

  lemma NameParses(name: Bytes, rest: Bytes)
    requires 1 <= |name| <= 255
    ensures ReadHost(ADDRESS_DOMAIN, [LowByte(|name|)] + name + rest) == Step(Ok(Domain(name)), rest, [])
  {
    var m := [LowByte(|name|)] + name + rest;
    assert m[..1] == [LowByte(|name|)] && m[1..] == name + rest;
    assert (name + rest)[..|name|] == name && (name + rest)[|name|..] == rest;
  }

  lemma HostParses(host: Host, rest: Bytes)
    requires Sendable(Destination(host, 0))
    ensures ReadHost(Kind(host), HostBytes(host) + rest) == Step(Ok(host), rest, [])
  {
    var m := HostBytes(host) + rest;
    match host
    case IPv4(ip) => assert m[..4] == ip && m[4..] == rest;
    case IPv6(ip) => assert m[..16] == ip && m[16..] == rest;
    case Domain(name) => NameParses(name, rest);
  }

  lemma ConnectReads(input: Bytes, header: Bytes, in1: Bytes, host: Host, in2: Bytes, port: Bytes, rest: Bytes)
    requires |header| == 4 && header[..3] == [VERSION5, COMMAND_CONNECT, 0x00] && |port| == 2
    requires input == header + in1 && in2 == port + rest && ReadHost(header[3], in1) == Step(Ok(host), in2, [])
    ensures ReadConnectRequest(input) == Step(Ok(Destination(host, Number16(port))), rest, [])
  {
    assert input[..4] == header && input[4..] == in1;
    assert header[0] == header[..3][0] && header[1] == header[..3][1] && header[2] == header[..3][2];
    assert in2[..2] == port && in2[2..] == rest;
  }

  lemma ConnectParses(d: Destination, rest: Bytes)
    requires Sendable(d)
    ensures ReadConnectRequest(Connect(d) + rest) == Step(Ok(d), rest, [])
  {
    var header := [VERSION5, COMMAND_CONNECT, 0x00, Kind(d.host)];
    var in2 := Uint16(d.port) + rest;
    var in1 := HostBytes(d.host) + in2;
    assert Connect(d) + rest == header + in1;
    HostParses(d.host, in2);
    Uint16Value(d.port);
    ConnectReads(Connect(d) + rest, header, in1, d.host, in2, Uint16(d.port), rest);
  }

  lemma HostPrints(kind: byte, input: Bytes)
    requires ReadHost(kind, input).result.Ok?
    ensures var r := ReadHost(kind, input); var host := r.result.value;
            kind == Kind(host) && input == HostBytes(host) + r.rest && Sendable(Destination(host, 0))
  {
    if kind == ADDRESS_DOMAIN {
      var a := ReadFull(input, 1);
      var b := ReadFull(a.rest, a.result.value[0]);
      assert input == a.result.value + a.rest && a.rest == b.result.value + b.rest;
    }
  }

  lemma ConnectPrints(input: Bytes)
    requires ReadConnectRequest(input).result.Ok?
    ensures var r := ReadConnectRequest(input); var d := r.result.value;
            Sendable(d) && input == Connect(d) + r.rest
  {
    ReadFullSplits(input, 4);
    var a := ReadFull(input, 4);
    HostPrints(a.result.value[3], a.rest);
    var h := ReadHost(a.result.value[3], a.rest);
    ReadFullSplits(h.rest, 2);
    var b := ReadFull(h.rest, 2);
    RequestJoined(a.result.value, h.result.value, b.result.value, b.rest);
  }

  lemma RequestJoined(header: Bytes, host: Host, port: Bytes, rest: Bytes)
    requires |header| == 4 && header[0] == VERSION5 && header[1] == COMMAND_CONNECT && header[2] == 0
    requires header[3] == Kind(host)
    requires |port| == 2
    ensures header + (HostBytes(host) + (port + rest)) == Connect(Destination(host, Number16(port))) + rest
    ensures 0 <= Number16(port) < 65536
  {
    assert header == [VERSION5, COMMAND_CONNECT, 0x00, Kind(host)];
    assert port == Uint16(Number16(port));
  }

  /** A request is accepted exactly when it is the encoding of a destination (a name of 1
      to 255 bytes, an IPv4 or an IPv6 address), and what follows stays unread. */
  lemma ConnectRoundTrip(input: Bytes, d: Destination, rest: Bytes)
    ensures (ReadConnectRequest(input).result == Ok(d) && ReadConnectRequest(input).rest == rest) <==>
            (Sendable(d) && input == Connect(d) + rest)
  {
    if Sendable(d) && input == Connect(d) + rest {
      ConnectParses(d, rest);
    }
    if ReadConnectRequest(input).result.Ok? {
      ConnectPrints(input);
    }
  }

  /** What the probe sends for this host and port names them exactly when the host has 1
      to 255 bytes and the port 16 bits: longer ones lose their high bits. */
  lemma RequestFits(host: Bytes, port: int, rest: Bytes)
    ensures ReadConnectRequest(Request(host, port) + rest).result == Ok(Destination(Domain(host), port)) <==>
            (1 <= |host| <= 255 && 0 <= port < 65536)
  {
    var d := Destination(Domain(host), port);
    var m := Request(host, port) + rest;
    assert Request(host, port) == Connect(d);
    ConnectRoundTrip(m, d, ReadConnectRequest(m).rest);
    if Sendable(d) {
      ConnectRoundTrip(m, d, rest);
    }
  }

  lemma GreetingSplit(input: Bytes, header: Bytes, in1: Bytes, methods: Bytes, more: Bytes, fixed: Bytes)
    requires |header| == 2 && header[0] == VERSION5 && header[1] == |methods| != 0
    requires input == header + in1 && in1 == methods + more
    ensures var chosen := ChooseMethod(methods, fixed);
            Negotiate(input, fixed) == After([VERSION5, chosen], Authenticate(chosen, fixed, more))
  {
    assert input[..2] == header && input[2..] == in1;
    assert in1[..|methods|] == methods && in1[|methods|..] == more;
  }

  /** A greeting with any methods is read exactly and answered with the method chosen. */
  lemma GreetingRead(methods: Bytes, fixed: Bytes, more: Bytes)
    requires 1 <= |methods| <= 255
    ensures var chosen := ChooseMethod(methods, fixed);
            Negotiate([VERSION5, LowByte(|methods|)] + methods + more, fixed)
              == After([VERSION5, chosen], Authenticate(chosen, fixed, more))
  {
    var header := [VERSION5, LowByte(|methods|)];
    assert header + methods + more == header + (methods + more);
    GreetingSplit(header + methods + more, header, methods + more, methods, more, fixed);
  }

  /** The greeting of a probe that takes no credentials. */
  lemma GreetingParses(leaseId: Bytes, fixed: Bytes, more: Bytes)
    requires fixed != [] || leaseId == []
    ensures Negotiate(Greeting(leaseId) + more, fixed) == Step(Ok(fixed), more, [VERSION5, METHOD_NONE])
  {
    var methods: Bytes := if leaseId == [] then [METHOD_NONE] else [METHOD_NONE, METHOD_PASSWORD];
    assert Greeting(leaseId) == [VERSION5, LowByte(|methods|)] + methods;
    assert methods[0] == METHOD_NONE && ChooseMethod(methods, fixed) == METHOD_NONE;
    GreetingRead(methods, fixed, more);
  }

  /** After the greeting of a probe that wants a lease, a multiplex server asks for
      credentials and judges the rest by them. */
  lemma MultiplexGreeting(leaseId: Bytes, more: Bytes)
    requires leaseId != []
    ensures var c := ReadCredentials(more);
            Negotiate(Greeting(leaseId) + more, []) ==
              Step(match c.result case Ok((u, p)) => Identity(u, p) case Err(e) =>
                Err(e), c.rest, [VERSION5, METHOD_PASSWORD] + c.written)
  {
    var methods: Bytes := [METHOD_NONE, METHOD_PASSWORD];
    assert Greeting(leaseId) == [VERSION5, LowByte(|methods|)] + methods;
    assert methods[1] == METHOD_PASSWORD && ChooseMethod(methods, []) == METHOD_PASSWORD;
    GreetingRead(methods, [], more);
  }

  /** Greeting and credentials together select the lease, in multiplex mode. */
  lemma HandshakeSelects(leaseId: Bytes, more: Bytes)
    requires 0 < |leaseId| <= 249
    ensures Negotiate(Greeting(leaseId) + Auth(leaseId) + more, [])
            == Step(Ok(leaseId), more, [VERSION5, METHOD_PASSWORD, 0x01, 0x00])
  {
    MultiplexGreeting(leaseId, Auth(leaseId) + more);
    assert Greeting(leaseId) + Auth(leaseId) + more == Greeting(leaseId) + (Auth(leaseId) + more);
    assert Auth(leaseId) == Credentials(LEASE + leaseId, []);
    CredentialsParse(LEASE + leaseId, [], more);
    assert (LEASE + leaseId)[..6] == LEASE && (LEASE + leaseId)[6..] == leaseId;
  }

  /** A multiplex server selects the lease the probe asks for exactly when its id has at
      most 249 bytes: beyond that "lease:" and the id overflow the length byte. */
  lemma LeaseIdFits(leaseId: Bytes, more: Bytes)
    requires leaseId != []
    ensures Negotiate(Greeting(leaseId) + Auth(leaseId) + more, []).result == Ok(leaseId) <==> |leaseId| <= 249
  {
    if |leaseId| <= 249 {
      HandshakeSelects(leaseId, more);
    } else {
      var m := Auth(leaseId) + more;
      MultiplexGreeting(leaseId, m);
      assert Greeting(leaseId) + Auth(leaseId) + more == Greeting(leaseId) + m;
      var c := ReadCredentials(m);
      if c.result.Ok? {
        CredentialsPrint(m);
        OverlongName(leaseId, m, c.result.value.0);
      }
    }
  }

  lemma OverlongName(leaseId: Bytes, m: Bytes, username: Bytes)
    requires |leaseId| > 249 && 1 <= |username| <= 255
    requires Auth(leaseId) <= m && m[0..2 + |username|] == [0x01, LowByte(|username|)] + username
    ensures forall password :: Identity(username, password) != Ok(leaseId)
  {
    var name, n := LEASE + leaseId, |username|;
    assert Auth(leaseId)[2..2 + |name|] == name;
    assert m[2..2 + n] == name[..n];
    assert m[0..2 + n][2..] == m[2..2 + n];
    if |username| > 6 {
      assert username[..6] == LEASE;
    }
  }

  /** The probe drops exactly the address of a reply, with nothing of what follows, when
      the address has 4 or 16 bytes (IPv4-mapped ones are sent as 4), and never otherwise. */
  lemma ReplyTailDrained(code: byte, address: Option<Endpoint>, more: Bytes)
    ensures var r := Reply(code, address);
            |r| >= 4 && r[0] == VERSION5 && r[1] == code && r[2] == 0 &&
            (DrainReplyAddress(r[3], r[4..] + more) == Step(Ok(()), more, []) <==>
             (address.None? || |address.value.ip| == 4 || |address.value.ip| == 16))
  {
    var r := Reply(code, address);
    var tail := r[4..];
    assert (tail + more)[|tail|..] == more;
    if address.Some? && |address.value.ip| != 4 && |address.value.ip| != 16 {
      assert |tail| == 2 && r[3] == ADDRESS_IPV6;
    }
  }

  // ---------- The two sides together ----------

  datatype Setup = Setup(
    fixed: Bytes, fixedPort: int, remote: Bytes, acquired: bool, dialed: Option<Endpoint>, recorded: bool,
    leaseId: Bytes, host: Bytes, port: int)

  function Server(p: Setup, input: Bytes): Step<Selection> {
    Serve(p.fixed, p.fixedPort, p.remote, p.acquired, p.dialed, p.recorded, input)
  }

  function Client(p: Setup, input: Bytes): Step<()> {
    Probe(p.leaseId, p.host, p.port, input)
  }

  /** The sizes the messages can carry, and a listener with a port. */
  predicate Fits(p: Setup) {
    |p.leaseId| <= 249 && 1 <= |p.host| <= 255 && 0 <= p.port < 65536 &&
    (p.fixed != [] ==> p.fixedPort > 0) &&
    (p.dialed.Some? ==> |p.dialed.value.ip| == 4 || |p.dialed.value.ip| == 16)
  }

  predicate UsesCredentials(p: Setup) {
    p.fixed == [] && p.leaseId != []
  }

  /** The lease the connection is for: a fixed listener's own, or the one asked for, or
      the one of the remote address. */
  function Wanted(p: Setup): Bytes {
    if p.fixed != [] then p.fixed else if p.leaseId != [] then p.leaseId else p.remote
  }

  function Chosen(p: Setup): Bytes {
    if p.fixed != [] then p.fixed else p.leaseId
  }

  function Answer(p: Setup): Bytes {
    if !p.acquired then Reply(0x01, None)
    else if p.dialed.None? then Reply(0x05, None)
    else Reply(0x00, p.dialed)
  }

  function Opening(p: Setup): Bytes {
    Greeting(p.leaseId) + if UsesCredentials(p) then Auth(p.leaseId) else []
  }

  function Accepted(p: Setup): Bytes {
    if UsesCredentials(p) then [VERSION5, METHOD_PASSWORD, 0x01, 0x00] else [VERSION5, METHOD_NONE]
  }

  /** All the probe says, and all the server says. */
  function ProbeSays(p: Setup): Bytes { Opening(p) + Request(p.host, p.port) }
  function ServerSays(p: Setup): Bytes { Accepted(p) + Answer(p) }

  lemma OpeningSelects(p: Setup, more: Bytes)
    requires |p.leaseId| <= 249
    ensures Negotiate(Opening(p) + more, p.fixed) == Step(Ok(Chosen(p)), more, Accepted(p))
  {
    if UsesCredentials(p) {
      HandshakeSelects(p.leaseId, more);
    } else {
      assert Opening(p) == Greeting(p.leaseId);
      GreetingParses(p.leaseId, p.fixed, more);
    }
  }

  lemma ServedAfter(p: Setup, input: Bytes, chosen: Bytes, request: Bytes, w: Bytes)
    requires Negotiate(input, p.fixed) == Step(Ok(chosen), request, w) && (p.fixed != [] ==> p.fixedPort > 0)
    ensures Server(p, input)
            == After(w, ServeLease(if chosen == [] then p.remote
              else chosen, p.acquired, p.dialed, p.recorded, request))
  {
  }

  lemma LeaseServed(identity: Bytes, acquired: bool, dialed: Option<Endpoint>, recorded: bool, d: Destination,
    request: Bytes)
    requires Sendable(d) && request == Connect(d)
    ensures ServeLease(identity, acquired, dialed, recorded, request) ==
              if !acquired then Step(Err(AcquireFailed), request, Reply(0x01, None))
              else if dialed.None? then Step(Err(DialFailed), [], Reply(0x05, None))
              else Step(if recorded then Ok(Selection(identity, d)) else Err(RecordFailed), [], Reply(0x00, dialed))
  {
    assert Connect(d) + [] == Connect(d);
    ConnectParses(d, []);
  }

  /** What becomes of the connection: the wanted lease, this host and this port are
      selected and no byte is left over, unless the lease or the connection is refused,
      or the request could not be recorded, which the probe, already told of success,
      does not learn. */
  function Outcome(p: Setup): Step<Selection> {
    if !p.acquired then Step(Err(AcquireFailed), Request(p.host, p.port), ServerSays(p))
    else if p.dialed.None? then Step(Err(DialFailed), [], ServerSays(p))
    else Step(if p.recorded then Ok(Selection(Wanted(p), Destination(Domain(p.host), p.port)))
      else Err(RecordFailed), [], ServerSays(p))
  }

  lemma RequestHeard(p: Setup, input: Bytes, request: Bytes, d: Destination)
    requires Negotiate(input, p.fixed) == Step(Ok(Chosen(p)), request, Accepted(p)) &&
             (p.fixed != [] ==> p.fixedPort > 0)
    requires d == Destination(Domain(p.host), p.port) && Sendable(d) && request == Connect(d) == Request(p.host, p.port)
    ensures Server(p, input) == Outcome(p)
  {
    ServedAfter(p, input, Chosen(p), request, Accepted(p));
    LeaseServed(Wanted(p), p.acquired, p.dialed, p.recorded, d, request);
  }

  lemma HeardAll(p: Setup, said: Bytes, request: Bytes, d: Destination)
    requires Fits(p) && said == Opening(p) + request && request == Request(p.host, p.port)
    requires d == Destination(Domain(p.host), p.port)
    ensures Server(p, said) == Outcome(p)
  {
    RequestIsConnect(p.host, p.port);
    OpeningSelects(p, request);
    RequestHeard(p, said, request, d);
  }

  lemma RequestIsConnect(host: Bytes, port: int)
    ensures Request(host, port) == Connect(Destination(Domain(host), port))
  {
  }

  /** What the server makes of all the probe says. */
  lemma ServerHears(p: Setup)
    requires Fits(p)
    ensures Server(p, ProbeSays(p)) == Outcome(p)
  {
    HeardAll(p, ProbeSays(p), Request(p.host, p.port), Destination(Domain(p.host), p.port));
  }

  lemma RequestAnswered(p: Setup)
    requires Fits(p)
    ensures var r := ProbeRequest(p.host, p.port, Answer(p));
            r.written == Request(p.host, p.port) &&
            if p.acquired && p.dialed.Some? then r.result == Ok(()) && r.rest == [] else r.result == Err(ConnectRefused)
  {
    var answer := Answer(p);
    ReplyTailDrained(if !p.acquired then 0x01 else if p.dialed.None? then 0x05 else 0x00,
                     if p.acquired then p.dialed else None, []);
    assert answer[4..] + [] == answer[4..];
  }

  /** The probe on the server's side of the handshake, whatever comes next. */
  lemma ProbeAfter(p: Setup, next: Bytes)
    ensures Client(p, Accepted(p) + next) == After(Opening(p), ProbeRequest(p.host, p.port, next))
  {
    var s := Accepted(p) + next;
    var r := ProbeRequest(p.host, p.port, next);
    assert s[..2] == Accepted(p)[..2];
    if UsesCredentials(p) {
      assert s[2..] == [0x01, 0x00] + next;
      assert s[2..][..2] == [0x01, 0x00] && s[2..][2..] == next;
      assert Greeting(p.leaseId) + (Auth(p.leaseId) + r.written) == Opening(p) + r.written;
    } else {
      assert s[2..] == next;
    }
  }

  /** What the probe makes of all the server says. */
  lemma ProbeHears(p: Setup)
    requires Fits(p)
    ensures Client(p, ServerSays(p)).written == ProbeSays(p)
    ensures p.acquired && p.dialed.Some? ==> Client(p, ServerSays(p)) == Step(Ok(()), [], ProbeSays(p))
    ensures !(p.acquired && p.dialed.Some?) ==> Client(p, ServerSays(p)).result == Err(ConnectRefused)
  {
    RequestAnswered(p);
    ProbeAfter(p, Answer(p));
  }

  /** The bytes delivered so far in each direction. */
  datatype Wire = Wire(toServer: Bytes, toProbe: Bytes)

  /** The network hands over at most n more of the bytes written. */
  datatype Delivery = ToServer(n: nat) | ToProbe(n: nat)

  function Take(sent: Bytes, n: nat): Bytes {
    if n <= |sent| then sent[..n] else sent
  }

  function Deliver(p: Setup, w: Wire, d: Delivery): Wire {
    match d
    case ToServer(n) => w.(toServer := Take(Client(p, w.toProbe).written, |w.toServer| + n))
    case ToProbe(n) => w.(toProbe := Take(Server(p, w.toServer).written, |w.toProbe| + n))
  }

  function Talk(p: Setup, schedule: seq<Delivery>): Wire {
    if schedule == [] then Wire([], []) else Deliver(p, Talk(p, schedule[..|schedule| - 1]), schedule[|schedule| - 1])
  }

  /** Everything written has been delivered: both sides wait or have finished. */
  predicate Quiet(p: Setup, w: Wire) {
    w.toServer == Client(p, w.toProbe).written && w.toProbe == Server(p, w.toServer).written
  }

  lemma ServerMonotone(p: Setup, part: Bytes, whole: Bytes)
    requires part <= whole
    ensures Server(p, part).written <= Server(p, whole).written
    ensures !IsShort(Server(p, part)) ==> Server(p, part).result == Server(p, whole).result
  {
    Split(part, whole);
    ServeExtends(p, part, whole[|part|..]);
  }

  lemma ClientMonotone(p: Setup, part: Bytes, whole: Bytes)
    requires part <= whole
    ensures Client(p, part).written <= Client(p, whole).written
    ensures !IsShort(Client(p, part)) ==> Client(p, part).result == Client(p, whole).result
  {
    Split(part, whole);
    ProbeExtends(p, part, whole[|part|..]);
  }

  lemma DeliverStaysWithin(p: Setup, w: Wire, d: Delivery, c: Bytes, s: Bytes)
    requires w.toServer <= c && w.toProbe <= s && Server(p, c).written == s && Client(p, s).written == c
    ensures Deliver(p, w, d).toServer <= c && Deliver(p, w, d).toProbe <= s
  {
    ServerMonotone(p, w.toServer, c);
    ClientMonotone(p, w.toProbe, s);
  }

  lemma {:induction false} TalkStaysWithin(p: Setup, schedule: seq<Delivery>)
    requires Fits(p)
    ensures Talk(p, schedule).toServer <= ProbeSays(p) && Talk(p, schedule).toProbe <= ServerSays(p)
  {
    if schedule != [] {
      var w := Talk(p, schedule[..|schedule| - 1]);
      var c, s := ProbeSays(p), ServerSays(p);
      TalkStaysWithin(p, schedule[..|schedule| - 1]);
      assert Server(p, c).written == s by { ServerHears(p); }
      assert Client(p, s).written == c by { ProbeHears(p); }
      DeliverStaysWithin(p, w, schedule[|schedule| - 1], c, s);
    }
  }

  lemma FirstTurn(p: Setup)
    requires Fits(p)
    ensures Client(p, []).written == Greeting(p.leaseId)
    ensures Accepted(p)[..2] <= Server(p, Greeting(p.leaseId)).written
  {
    var g := Greeting(p.leaseId);
    assert g + [] == g;
    if UsesCredentials(p) {
      MultiplexGreeting(p.leaseId, []);
    } else {
      GreetingParses(p.leaseId, p.fixed, []);
    }
  }

  lemma SecondTurn(p: Setup)
    requires Fits(p)
    ensures Opening(p) <= Client(p, Accepted(p)[..2]).written
    ensures Accepted(p) <= Server(p, Opening(p)).written
  {
    OpeningSelects(p, []);
    assert Opening(p) + [] == Opening(p);
  }

  lemma ThirdTurn(p: Setup)
    requires Fits(p)
    ensures ProbeSays(p) <= Client(p, Accepted(p)).written
  {
    ProbeAfter(p, []);
    assert Accepted(p) + [] == Accepted(p);
  }

  lemma QuietIsComplete(p: Setup, w: Wire)
    requires Fits(p) && Quiet(p, w)
    ensures ProbeSays(p) <= w.toServer && ServerSays(p) <= w.toProbe
  {
    ClientMonotone(p, [], w.toProbe);
    FirstTurn(p);
    ServerMonotone(p, Greeting(p.leaseId), w.toServer);
    ClientMonotone(p, Accepted(p)[..2], w.toProbe);
    SecondTurn(p);
    ServerMonotone(p, Opening(p), w.toServer);
    ClientMonotone(p, Accepted(p), w.toProbe);
    ThirdTurn(p);
    ServerMonotone(p, ProbeSays(p), w.toServer);
    ServerHears(p);
  }

  lemma QuietIsAll(p: Setup, schedule: seq<Delivery>)
    requires Fits(p) && Quiet(p, Talk(p, schedule))
    ensures Talk(p, schedule) == Wire(ProbeSays(p), ServerSays(p))
  {
    TalkStaysWithin(p, schedule);
    QuietIsComplete(p, Talk(p, schedule));
  }

  /** However the bytes are cut up and delayed, neither side ever says anything but its
      part, and a verdict reached early is the final one. */
  lemma DialogueInSync(p: Setup, schedule: seq<Delivery>)
    requires Fits(p)
    ensures var server := Server(p, Talk(p, schedule).toServer);
            server.written <= ServerSays(p) && (!IsShort(server) ==> server.result == Server(p, ProbeSays(p)).result)
    ensures var probe := Client(p, Talk(p, schedule).toProbe);
            probe.written <= ProbeSays(p) && (!IsShort(probe) ==> probe.result == Client(p, ServerSays(p)).result)
  {
    var w := Talk(p, schedule);
    TalkStaysWithin(p, schedule);
    assert Server(p, ProbeSays(p)).written == ServerSays(p) by { ServerHears(p); }
    assert Client(p, ServerSays(p)).written == ProbeSays(p) by { ProbeHears(p); }
    ServerMonotone(p, w.toServer, ProbeSays(p));
    ClientMonotone(p, w.toProbe, ServerSays(p));
  }

  /** The dialogue comes to rest only when all has been said. Then the server has selected
      the wanted lease, this host and this port, the probe has succeeded and no byte is
      left over; or the lease or the connection was refused and both know it. */
  lemma DialogueSettles(p: Setup, schedule: seq<Delivery>)
    requires Fits(p) && Quiet(p, Talk(p, schedule))
    ensures Talk(p, schedule) == Wire(ProbeSays(p), ServerSays(p))
    ensures Server(p, Talk(p, schedule).toServer) == Outcome(p)
    ensures var probe := Client(p, Talk(p, schedule).toProbe);
            if p.acquired && p.dialed.Some? then probe == Step(Ok(()), [], ProbeSays(p))
              else probe.result == Err(ConnectRefused)
  {
    QuietIsAll(p, schedule);
    ServerHears(p);
    ProbeHears(p);
  }

  /** Both directions emptied once, the probe's first. */
  function Flush(p: Setup): seq<Delivery> {
    var all := |ProbeSays(p)| + |ServerSays(p)|;
    [ToServer(all), ToProbe(all)]
  }

  lemma FlushDelivers(p: Setup, schedule: seq<Delivery>)
    requires Fits(p)
    ensures var w := Talk(p, schedule + Flush(p));
            w.toServer == Client(p, Talk(p, schedule).toProbe).written && w.toProbe == Server(p, w.toServer).written
  {
    var all := |ProbeSays(p)| + |ServerSays(p)|;
    var once := schedule + [ToServer(all)];
    assert once[..|schedule|] == schedule;
    assert schedule + Flush(p) == once + [ToProbe(all)];
    assert (once + [ToProbe(all)])[..|once|] == once;
    var said := Client(p, Talk(p, schedule).toProbe).written;
    assert |said| <= all by { DialogueInSync(p, schedule); }
    assert Talk(p, once).toServer == said;
    assert |Server(p, said).written| <= all by { DialogueInSync(p, once); }
  }

  lemma RoundCarries(p: Setup, schedule: seq<Delivery>, s: Bytes, c: Bytes)
    requires Fits(p) && s <= Talk(p, schedule).toProbe && c <= Client(p, s).written
    ensures var w := Talk(p, schedule + Flush(p)); c <= w.toServer && Server(p, c).written <= w.toProbe
  {
    FlushDelivers(p, schedule);
    ClientMonotone(p, s, Talk(p, schedule).toProbe);
    ServerMonotone(p, c, Talk(p, schedule + Flush(p)).toServer);
  }

  lemma TwoRounds(p: Setup, schedule: seq<Delivery>)
    requires Fits(p)
    ensures Accepted(p) <= Talk(p, schedule + Flush(p) + Flush(p)).toProbe
  {
    FirstTurn(p);
    RoundCarries(p, schedule, [], Greeting(p.leaseId));
    SecondTurn(p);
    RoundCarries(p, schedule + Flush(p), Accepted(p)[..2], Opening(p));
  }

  lemma LastRound(p: Setup, schedule: seq<Delivery>)
    requires Fits(p) && Accepted(p) <= Talk(p, schedule).toProbe
    ensures Talk(p, schedule + Flush(p)) == Wire(ProbeSays(p), ServerSays(p))
  {
    ThirdTurn(p);
    RoundCarries(p, schedule, Accepted(p), ProbeSays(p));
    ServerHears(p);
    TalkStaysWithin(p, schedule + Flush(p));
  }

  /** Three rounds finish any dialogue, so coming to rest is always within reach. */
  lemma AnyDialogueFinishes(p: Setup, schedule: seq<Delivery>)
    requires Fits(p)
    ensures Quiet(p, Talk(p, schedule + Flush(p) + Flush(p) + Flush(p)))
  {
    TwoRounds(p, schedule);
    LastRound(p, schedule + Flush(p) + Flush(p));
    ServerHears(p);
    ProbeHears(p);
  }

  /** A probe without an egress host stops after the handshake and succeeds even when the
      server could not acquire the lease: the refusal stays unread. */
  lemma HandshakeOnlyIgnoresTheLease(p: Setup)
    requires |p.leaseId| <= 249 && p.host == [] && (p.fixed != [] ==> p.fixedPort > 0)
    ensures var said := Client(p, Server(p, Opening(p)).written);
            said.result == Ok(()) && said.written == Opening(p) &&
            said.rest == if p.acquired then [] else Reply(0x01, None)
  {
    OpeningSelects(p, []);
    assert Opening(p) + [] == Opening(p);
    ServedAfter(p, Opening(p), Chosen(p), [], Accepted(p));
    ProbeAfter(p, if p.acquired then [] else Reply(0x01, None));
    assert Opening(p) + [] == Opening(p) && Accepted(p) + [] == Accepted(p);
  }
}
