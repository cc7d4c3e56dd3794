/** Which bytes make each side accept, whom the server then serves, and how it answers every
    request it does not serve. All bytes are written out as in the two RFCs. */
module Socks5Verdicts {
  import opened Wrappers
  import opened Ipv6Addr
  import opened Socks5
  import opened Socks5Dialogue

  // ---------- The greeting ----------

  /** The input starts with a greeting that offers these methods. */
  ghost predicate Opens(input: Bytes, methods: Bytes, more: Bytes) {
    1 <= |methods| <= 255 && input == [0x05, |methods|] + methods + more
  }

  lemma OpeningRead(input: Bytes, methods: Bytes, more: Bytes, fixed: Bytes)
    requires Opens(input, methods, more)
    ensures var chosen := ChooseMethod(methods, fixed);
            Negotiate(input, fixed) == After([0x05, chosen], Authenticate(chosen, fixed, more))
  {
    assert input == [VERSION5, LowByte(|methods|)] + methods + more;
    GreetingRead(methods, fixed, more);
  }

  /** Whatever is negotiated at all begins with a greeting. */
  lemma OpeningNeeded(input: Bytes, fixed: Bytes) returns (methods: Bytes, more: Bytes)
    requires Negotiate(input, fixed).result.Ok?
    ensures Opens(input, methods, more)
  {
    var a := ReadFull(input, 2);
    var b := ReadFull(a.rest, a.result.value[0 + 1]);
    methods, more := b.result.value, b.rest;
    assert a.result.value == [0x05, |methods|];
    assert input == a.result.value + (methods + more);
  }

  /** The method byte of the answer. */
  function Method(s: Step<Bytes>): byte
    requires |s.written| >= 2
  {
    s.written[1]
  }

  /** A multiplex server asks for credentials whenever they are offered, a fixed one only if it has
      to; 0xff answers a client that offers neither of the two methods, and it is refused. */
  lemma MethodAnswered(input: Bytes, methods: Bytes, more: Bytes, fixed: Bytes)
    requires Opens(input, methods, more)
    ensures var s := Negotiate(input, fixed);
            && |s.written| >= 2 && s.written[0] == 0x05
            && (Method(s) == 0x02 <==> 0x02 in methods && (fixed == [] || 0x00 !in methods))
            && (Method(s) == 0x00 <==> 0x00 in methods && (fixed != [] || 0x02 !in methods))
            && (Method(s) == 0xff <==> 0x00 !in methods && 0x02 !in methods)
            && (Method(s) == 0xff ==> s.result == Err(NoMethod) && s.rest == more)
  {
    OpeningRead(input, methods, more, fixed);
    ChosenFirst(ChooseMethod(methods, fixed), fixed, more);
  }

  lemma ChosenFirst(chosen: byte, fixed: Bytes, more: Bytes)
    ensures var s := After([0x05, chosen], Authenticate(chosen, fixed, more));
            && |s.written| >= 2 && s.written[0] == 0x05 && Method(s) == chosen
            && (chosen == 0xff ==> s.result == Err(NoMethod) && s.rest == more)
  {
  }

  // ---------- Whom the server serves ----------

  /** The identity that a user name stands for: what follows "lease:" if there is anything, and the
      name behind "user:" otherwise. */
  ghost predicate StandsFor(username: Bytes, v: Bytes) {
    if |username| > 6 && username[..6] == [0x6c, 0x65, 0x61, 0x73, 0x65, 0x3a] then v == username[6..]
    else v == [0x75, 0x73, 0x65, 0x72, 0x3a] + username
  }

  /** The input continues with these credentials. */
  ghost predicate Presents(more: Bytes, username: Bytes, password: Bytes, rest: Bytes) {
    && 1 <= |username| <= 255 && |password| <= 255
    && more == [0x01, |username|] + username + [|password|] + password + rest
  }

  lemma PresentsIsRead(more: Bytes, username: Bytes, password: Bytes, rest: Bytes)
    ensures Presents(more, username, password, rest) <==>
              ReadCredentials(more) == Step(Ok((username, password)), rest, [0x01, 0x00])
  {
    CredentialsRoundTrip(more, username, password, rest);
    if |username| <= 255 && |password| <= 255 {
      assert Credentials(username, password) == [0x01, |username|] + username + [|password|] + password;
    }
  }

  /** A multiplex server is given credentials: whom they select, and what is answered. No name at
      all is refused before any password is read. */
  lemma CredentialsSelect(input: Bytes, methods: Bytes, more: Bytes, username: Bytes, password: Bytes, rest: Bytes,
    v: Bytes)
    requires Opens(input, methods, more) && 0x02 in methods
    ensures Presents(more, username, password, rest) ==>
              (Negotiate(input, []) == Step(Ok(v), rest, [0x05, 0x02, 0x01, 0x00]) <==> StandsFor(username, v))
    ensures |more| >= 2 && (more[0] != 0x01 || more[1] == 0) ==>
              Negotiate(input, []) == Step(Err(BadAuth), more[2..], [0x05, 0x02])
  {
    OpeningRead(input, methods, more, []);
    assert ChooseMethod(methods, []) == 0x02;
    PresentsIsRead(more, username, password, rest);
    assert [0x05, 0x02] + [] == [0x05, 0x02];
  }

  /** The other side of it: an input from which a multiplex server learns an identity offers
      credentials and presents a name that stands for it; only a client that does not offer
      them is served under no name. */
  lemma MultiplexServes(input: Bytes, v: Bytes, rest: Bytes)
    ensures Negotiate(input, []).result == Ok(v) && Negotiate(input, []).rest == rest <==>
              exists methods, more :: Opens(input, methods, more) && MultiplexAccepts(methods, more, v, rest)
  {
    if Negotiate(input, []).result == Ok(v) && Negotiate(input, []).rest == rest {
      var methods, more := OpeningNeeded(input, []);
      MultiplexJudges(input, methods, more, v, rest);
    }
    if methods, more :| Opens(input, methods, more) && MultiplexAccepts(methods, more, v, rest) {
      MultiplexJudges(input, methods, more, v, rest);
    }
  }

  ghost predicate MultiplexAccepts(methods: Bytes, more: Bytes, v: Bytes, rest: Bytes) {
    if 0x02 in methods then
      exists username, password :: Presents(more, username, password, rest) && StandsFor(username, v)
    else
      0x00 in methods && v == [] && more == rest
  }

  lemma MultiplexJudges(input: Bytes, methods: Bytes, more: Bytes, v: Bytes, rest: Bytes)
    requires Opens(input, methods, more)
    ensures Negotiate(input, []).result == Ok(v) && Negotiate(input, []).rest == rest <==>
              MultiplexAccepts(methods, more, v, rest)
  {
    OpeningRead(input, methods, more, []);
    if 0x02 in methods {
      assert ChooseMethod(methods, []) == 0x02;
      NamedJudged(more, v, rest);
    } else if 0x00 in methods {
      assert ChooseMethod(methods, []) == 0x00;
    }
  }

  lemma NamedJudged(more: Bytes, v: Bytes, rest: Bytes)
    ensures var s := Authenticate(0x02, [], more);
            s.result == Ok(v) && s.rest == rest <==>
              exists username, password :: Presents(more, username, password, rest) && StandsFor(username, v)
  {
    var c := ReadCredentials(more);
    if c.result.Ok? {
      var (username, password) := c.result.value;
      CredentialsWritten(more);
      PresentsIsRead(more, username, password, c.rest);
    }
    forall username, password | Presents(more, username, password, rest)
      ensures c == Step(Ok((username, password)), rest, [0x01, 0x00])
    {
      PresentsIsRead(more, username, password, rest);
    }
  }

  lemma CredentialsWritten(more: Bytes)
    requires ReadCredentials(more).result.Ok?
    ensures ReadCredentials(more).written == [0x01, 0x00]
  {
  }

  /** A fixed listener serves its own lease and nobody else's, whatever name is presented. */
  lemma FixedServes(input: Bytes, fixed: Bytes)
    requires fixed != [] && Negotiate(input, fixed).result.Ok?
    ensures Negotiate(input, fixed).result == Ok(fixed)
  {
    var methods, more := OpeningNeeded(input, fixed);
    OpeningRead(input, methods, more, fixed);
  }

  // ---------- How a request is answered ----------

  /** A refusal with this code: 0.0.0.0 and port 0 follow it. */
  function Refusal(code: byte): Bytes {
    [0x05, code, 0x00, 0x01, 0, 0, 0, 0, 0, 0]
  }

  lemma RefusalIsReply(code: byte)
    ensures Reply(code, None) == Refusal(code)
  {
    assert Zeros(4) == [0, 0, 0, 0];
  }

  /** The success reply to a connection from this address: an IPv4 address in four bytes, also one
      in IPv4-mapped form, and any other in sixteen. */
  lemma Success(e: Endpoint)
    requires 0 <= e.port < 65536
    ensures |e.ip| == 4 ==>
              Reply(0x00, Some(e)) == [0x05, 0x00, 0x00, 0x01] + e.ip + [e.port / 256, e.port % 256]
    ensures |e.ip| == 16 && e.ip[..12] == [0, 0, 0, 0, 0, 0, 0, 0, 0, 0, 0xff, 0xff] ==>
              Reply(0x00, Some(e)) == [0x05, 0x00, 0x00, 0x01] + e.ip[12..] + [e.port / 256, e.port % 256]
    ensures |e.ip| == 16 && e.ip[..12] != [0, 0, 0, 0, 0, 0, 0, 0, 0, 0, 0xff, 0xff] ==>
              Reply(0x00, Some(e)) == [0x05, 0x00, 0x00, 0x04] + e.ip + [e.port / 256, e.port % 256]
  {
    if |e.ip| == 16 {
      assert Zeros(10) == [0, 0, 0, 0, 0, 0, 0, 0, 0, 0];
      assert e.ip[..12] == e.ip[..10] + [e.ip[10], e.ip[11]];
    }
  }

  /** The answer to all that follows a handshake that went well. */
  lemma RequestAnswers(p: Setup, input: Bytes)
    requires Negotiate(input, p.fixed).result.Ok?
    ensures var n, s := Negotiate(input, p.fixed), Server(p, input);
            if p.fixed != [] && p.fixedPort <= 0 then
              s == Step(Err(NoListenerPort), n.rest, n.written)
            else if !p.acquired then
              s == Step(Err(AcquireFailed), n.rest, n.written + Refusal(0x01))
            else if |n.rest| >= 4 && n.rest[..3] != [0x05, 0x01, 0x00] then
              s == Step(Err(BadRequest), n.rest[4..], n.written + Refusal(0x07))
            else if |n.rest| >= 4 && n.rest[3] !in {0x01, 0x03, 0x04} then
              s == Step(Err(BadAddressType), n.rest[4..], n.written + Refusal(0x08))
            else if ReadConnectRequest(n.rest).result.Err? then
              s.result.Err? && s.written == n.written
            else if p.dialed.None? then
              s.result == Err(DialFailed) && s.written == n.written + Refusal(0x05)
            else
              var identity := if n.result.value == [] then p.remote else n.result.value;
              && s.written == n.written + Reply(0x00, p.dialed)
              && s.result == if p.recorded then Ok(Selection(identity, ReadConnectRequest(n.rest).result.value))
                             else Err(RecordFailed)
  {
    var n := Negotiate(input, p.fixed);
    assert n.written + [] == n.written;
    RefusalIsReply(0x01);
    if p.acquired && !(p.fixed != [] && p.fixedPort <= 0) {
      RequestJudged(if n.result.value == [] then p.remote else n.result.value, p.dialed, p.recorded, n.rest);
    }
  }

  lemma RequestJudged(identity: Bytes, dialed: Option<Endpoint>, recorded: bool, request: Bytes)
    ensures var s := ServeRequest(identity, dialed, recorded, request);
            if |request| >= 4 && request[..3] != [0x05, 0x01, 0x00] then
              s == Step(Err(BadRequest), request[4..], Refusal(0x07))
            else if |request| >= 4 && request[3] !in {0x01, 0x03, 0x04} then
              s == Step(Err(BadAddressType), request[4..], Refusal(0x08))
            else if ReadConnectRequest(request).result.Err? then
              s.result.Err? && s.written == []
            else if dialed.None? then
              s.result == Err(DialFailed) && s.written == Refusal(0x05)
            else
              && s.written == Reply(0x00, dialed)
              && s.result == if recorded then Ok(Selection(identity, ReadConnectRequest(request).result.value))
                             else Err(RecordFailed)
  {
    RefusalIsReply(0x05);
    RefusalIsReply(0x07);
    RefusalIsReply(0x08);
    if |request| >= 4 {
      assert request[..3] == [request[0], request[1], request[2]];
    }
  }

  // ---------- What satisfies the probe ----------

  /** The server's side of the handshake, and what is left of the input behind it. */
  ghost predicate Agrees(leaseId: Bytes, input: Bytes, rest: Bytes) {
    && |input| >= 2 && input[0] == 0x05 && input[1] != 0xff
    && if leaseId != [] && input[1] == 0x02 then |input| >= 4 && input[3] == 0x00 && rest == input[4..]
       else rest == input[2..]
  }

  /** A reply with code 0 and an address of a known type, and what is left behind its port. */
  ghost predicate Grants(input: Bytes, rest: Bytes) {
    && |input| >= 5 && input[1] == 0x00 && input[3] in {0x01, 0x03, 0x04}
    && var tail: int := if input[3] == 0x01 then 4 else if input[3] == 0x04 then 16 else 1 + input[4] as int;
       |input| >= 4 + tail + 2 && rest == input[4 + tail + 2..]
  }

  /** The probe succeeds exactly on a handshake that neither refuses it nor its credentials,
      followed, if it asks for a host, by one complete reply that grants the request. */
  lemma ProbeAccepts(leaseId: Bytes, host: Bytes, port: int, input: Bytes, rest: Bytes)
    ensures Probe(leaseId, host, port, input).result == Ok(()) && Probe(leaseId, host, port, input).rest == rest <==>
              exists mid :: Agrees(leaseId, input, mid) && if host == [] then rest == mid else Grants(mid, rest)
  {
    HandshakeJudged(leaseId, input);
    var h := ProbeHandshake(leaseId, input);
    if h.result.Ok? {
      assert Agrees(leaseId, input, h.rest);
      GrantJudged(host, port, h.rest, rest);
    }
  }

  lemma HandshakeJudged(leaseId: Bytes, input: Bytes)
    ensures forall mid :: Agrees(leaseId, input, mid) <==>
              ProbeHandshake(leaseId, input).result == Ok(()) && ProbeHandshake(leaseId, input).rest == mid
  {
    if |input| >= 4 {
      assert input[2..][..2] == [input[2], input[3]] && input[2..][2..] == input[4..];
    }
  }

  lemma GrantJudged(host: Bytes, port: int, input: Bytes, rest: Bytes)
    ensures var s := ProbeRequest(host, port, input);
            s.result == Ok(()) && s.rest == rest <==> if host == [] then rest == input else Grants(input, rest)
  {
    if |input| >= 5 {
      assert input[4..][0] == input[4] && input[4..][1..] == input[5..];
    }
  }
}
