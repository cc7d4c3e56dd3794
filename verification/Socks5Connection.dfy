/** Both ends of a SOCKS5 connection as the program runs them: reads advance the stream,
    writes append to it. Each method leaves the connection as its step function says. */
module Socks5Connection {
  import opened Wrappers
  import opened Ipv6Addr
  import opened Socks5

  method ContainsMethod(methods: Bytes, wanted: byte) returns (found: bool)
    ensures found == (wanted in methods)
  {
    for i := 0 to |methods|
      invariant wanted !in methods[..i]
    {
      if methods[i] == wanted {
        return true;
      }
    }
    return false;
  }

  lemma Appended(a: Bytes, b: Bytes, c: Bytes)
    ensures (a + b) + c == a + (b + c)
  {
  }

  class Connection {
    var input: Bytes
    var output: Bytes

    constructor (arriving: Bytes)
      ensures input == arriving && output == []
    {
      input, output := arriving, [];
    }

    method Read(n: nat) returns (r: Result<Bytes, Error>)
      modifies this
      ensures var s := ReadFull(old(input), n);
              r == s.result && input == s.rest && output == old(output)
    {
      if |input| < n {
        input := [];
        return Err(Short);
      }
      r := Ok(input[..n]);
      input := input[n..];
    }

    method Write(bytes: Bytes)
      modifies this
      ensures input == old(input) && output == old(output) + bytes
    {
      output := output + bytes;
    }

    method AcceptCredentials() returns (r: Result<(Bytes, Bytes), Error>)
      modifies this
      ensures var s := ReadCredentials(old(input));
              r == s.result && input == s.rest && output == old(output) + s.written
    {
      var header :- Read(2);
      if header[0] != 0x01 || header[1] == 0 {
        return Err(BadAuth);
      }
      var username :- Read(header[1]);
      var length :- Read(1);
      var password :- Read(length[0]);
      Write([0x01, 0x00]);
      return Ok((username, password));
    }

    method AcceptGreeting(fixed: Bytes) returns (r: Result<Bytes, Error>)
      modifies this
      ensures var s := Negotiate(old(input), fixed);
              r == s.result && input == s.rest && output == old(output) + s.written
    {
      var header :- Read(2);
      if header[0] != VERSION5 || header[1] == 0 {
        return Err(BadGreeting);
      }
      var methods :- Read(header[1]);

      var chosen := METHOD_REJECTED;
      var none := ContainsMethod(methods, METHOD_NONE);
      var password := ContainsMethod(methods, METHOD_PASSWORD);
      if fixed != [] && none {
        chosen := METHOD_NONE;
      } else if password {
        chosen := METHOD_PASSWORD;
      } else if none {
        chosen := METHOD_NONE;
      }
      assert chosen == ChooseMethod(methods, fixed);
      Write([VERSION5, chosen]);
      if chosen == METHOD_REJECTED {
        return Err(NoMethod);
      }
      if fixed != [] {
        if chosen == METHOD_PASSWORD {
          var _ :- AcceptCredentials();
        }
        return Ok(fixed);
      }
      if chosen == METHOD_NONE {
        return Ok([]);
      }
      var credentials :- AcceptCredentials();
      var (username, secret) := credentials;
      if username != [] {
        if |username| > 6 && username[..6] == LEASE {
          return Ok(username[6..]);
        }
        return Ok(USER + username);
      }
      if secret != [] {
        return Ok(PASSWORD + secret);
      }
      return Err(EmptyCredentials);
    }

    method WriteReply(code: byte, address: Option<Endpoint>)
      modifies this
      ensures input == old(input) && output == old(output) + Reply(code, address)
    {
      var ip, port := Zeros(4), 0;
      if address.Some? {
        ip, port := address.value.ip, address.value.port;
      }
      var response: Bytes := [VERSION5, code, 0x00];
      var ip4 := To4(ip);
      if ip4.Some? {
        response := response + [ADDRESS_IPV4];
        response := response + ip4.value;
      } else {
        response := response + [ADDRESS_IPV6];
        response := response + To16(ip);
      }
      response := response + Uint16(port);
      Write(response);
    }

    method AcceptRequest() returns (r: Result<Destination, Error>)
      modifies this
      ensures var s := ReadConnectRequest(old(input));
              r == s.result && input == s.rest && output == old(output) + s.written
    {
      var header :- Read(4);
      if header[0] != VERSION5 || header[1] != COMMAND_CONNECT || header[2] != 0 {
        WriteReply(0x07, None);
        return Err(BadRequest);
      }
      var host := IPv4([]);
      if header[3] == ADDRESS_IPV4 {
        var address :- Read(4);
        host := IPv4(address);
      } else if header[3] == ADDRESS_IPV6 {
        var address :- Read(16);
        host := IPv6(address);
      } else if header[3] == ADDRESS_DOMAIN {
        var length :- Read(1);
        if length[0] == 0 {
          return Err(EmptyDomain);
        }
        var name :- Read(length[0]);
        host := Domain(name);
      } else {
        WriteReply(0x08, None);
        return Err(BadAddressType);
      }
      var port :- Read(2);
      return Ok(Destination(host, Number16(port)));
    }

    /** ServeConn up to the relay. `acquired` and `recorded` are the answers of the pool,
        `dialed` is the destination's. */
    method ServeConn(fixed: Bytes, fixedPort: int, remote: Bytes, acquired: bool, dialed: Option<Endpoint>,
      recorded: bool) returns (r: Result<Selection, Error>)
      modifies this
      ensures var s := Serve(fixed, fixedPort, remote, acquired, dialed, recorded, old(input));
              r == s.result && input == s.rest && output == old(output) + s.written
    {
      var identity :- AcceptGreeting(fixed);
      if identity == [] {
        identity := remote;
      }
      if fixed != [] && fixedPort <= 0 {
        return Err(NoListenerPort);
      }
      ghost var greeted, served := Negotiate(old(input), fixed),
        ServeLease(identity, acquired, dialed, recorded, input);
      assert Serve(fixed, fixedPort, remote, acquired, dialed, recorded, old(input)) == After(greeted.written, served);
      Appended(old(output), greeted.written, served.written);
      r := ServeWith(identity, acquired, dialed, recorded);
    }

    /** The part of ServeConn after the identity is known. */
    method ServeWith(identity: Bytes, acquired: bool, dialed: Option<Endpoint>, recorded: bool)
      returns (r: Result<Selection, Error>)
      modifies this
      ensures var s := ServeLease(identity, acquired, dialed, recorded, old(input));
              r == s.result && input == s.rest && output == old(output) + s.written
    {
      if !acquired {
        WriteReply(0x01, None);
        return Err(AcquireFailed);
      }
      var destination :- AcceptRequest();
      if dialed.None? {
        WriteReply(0x05, None);
        return Err(DialFailed);
      }
      WriteReply(0x00, dialed);
      if !recorded {
        return Err(RecordFailed);
      }
      return Ok(Selection(identity, destination));
    }

    method SkipReplyAddress(kind: byte) returns (r: Result<(), Error>)
      modifies this
      ensures var s := DrainReplyAddress(kind, old(input));
              r == s.result && input == s.rest && output == old(output) + s.written
    {
      var length := 0;
      if kind == ADDRESS_IPV4 {
        length := 4;
      } else if kind == ADDRESS_IPV6 {
        length := 16;
      } else if kind == ADDRESS_DOMAIN {
        var bytes :- Read(1);
        length := bytes[0] as int;
      } else {
        return Err(BadReplyAddress);
      }
      var _ :- Read(length + 2);
      return Ok(());
    }

    /** ProbeProxy up to the egress request; an empty host asks for the handshake only. */
    method ProbeProxy(leaseId: Bytes, host: Bytes, port: int) returns (r: Result<(), Error>)
      modifies this
      ensures var s := Probe(leaseId, host, port, old(input));
              r == s.result && input == s.rest && output == old(output) + s.written
    {
      var _ :- OpenHandshake(leaseId);
      r := ProbeDestination(host, port);
    }

    method OpenHandshake(leaseId: Bytes) returns (r: Result<(), Error>)
      modifies this
      ensures var s := ProbeHandshake(leaseId, old(input));
              r == s.result && input == s.rest && output == old(output) + s.written
    {
      var methods: Bytes := [METHOD_NONE];
      if leaseId != [] {
        methods := methods + [METHOD_PASSWORD];
      }
      assert [VERSION5, LowByte(|methods|)] + methods == Greeting(leaseId);
      Write([VERSION5, LowByte(|methods|)] + methods);
      var reply :- Read(2);
      if reply[0] != VERSION5 || reply[1] == METHOD_REJECTED {
        return Err(HandshakeRejected);
      }
      if leaseId != [] && reply[1] == METHOD_PASSWORD {
        r := PresentLease(leaseId);
        return;
      }
      return Ok(());
    }

    method PresentLease(leaseId: Bytes) returns (r: Result<(), Error>)
      modifies this
      ensures var s := PresentedLease(leaseId, old(input));
              r == s.result && input == s.rest && output == old(output) + s.written
    {
      var username := LEASE + leaseId;
      Write([0x01, LowByte(|username|)] + username + [0x00]);
      var status :- Read(2);
      return if status[1] != 0x00 then Err(CredentialsRejected) else Ok(());
    }

    /** The part of ProbeProxy after the handshake. */
    method ProbeDestination(host: Bytes, port: int) returns (r: Result<(), Error>)
      modifies this
      ensures var s := ProbeRequest(host, port, old(input));
              r == s.result && input == s.rest && output == old(output) + s.written
    {
      if host == [] {
        return Ok(());
      }
      Write([VERSION5, COMMAND_CONNECT, 0x00, ADDRESS_DOMAIN, LowByte(|host|)] + host + Uint16(port));
      var header :- Read(4);
      if header[1] != 0x00 {
        return Err(ConnectRefused);
      }
      r := SkipReplyAddress(header[3]);
    }
  }
}
