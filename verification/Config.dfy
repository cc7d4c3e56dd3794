/** The configuration checks that decide whether the program and its always-on ports can
    start, and why passing them is enough. */
module Config {
  import opened Wrappers
  import opened Ipv6Addr
  import M = PoolModel

  datatype Mode = Multiplex | PerIPv6 | Unknown

  /** A listen address: its text, and the port of it when it splits into host and port. */
  datatype Listen = Listen(text: string, port: Option<string>)

  /** A client token: its name and the length of its secret in bytes. */
  datatype Token = Token(name: string, secret: nat)

  /** The configuration with the prefix and the listen addresses already parsed; secrets
      are given by their lengths in bytes. */
  datatype Config = Config(
    prefix: Option<Cidr>,
    minLeases: int,
    maxLeases: int,
    idleTimeout: int,
    rotateAfter: int,
    rotateRequests: nat,
    mode: Mode,
    socks: Listen,
    admin: Listen,
    portStart: int,
    portEnd: int,
    alwaysOnPorts: seq<int>,
    adminToken: nat,
    tokens: seq<Token>,
    webPassword: Option<nat>)

  datatype Problem =
    | BadPrefix | BadPrefixLength
    | BadMaxLeases | NegativeMinLeases | MinAboveMax
    | NegativeIdleTimeout | NegativeRotateAfter
    | BadMode | EmptyAddress(admin: bool) | BadAddress(admin: bool)
    | BadPortStart | BadPortEnd
    | AlwaysOnInMultiplex | AlwaysOnOutsideRange(port: int) | AlwaysOnTwice(port: int) | TooManyAlwaysOn
    | RangeTooSmall
    | ShortAdminToken | EmptyTokenName | TokenNameTwice(name: string) | ShortToken(name: string) | ShortPassword

  /** The white space of Unicode. */
  predicate IsSpace(c: char) {
    || '\t' <= c <= '\r' || c == ' ' || c == '\U{85}' || c == '\U{A0}' || c == '\U{1680}'
    || '\U{2000}' <= c <= '\U{200A}' || c == '\U{2028}' || c == '\U{2029}' || c == '\U{202F}' || c == '\U{205F}' ||
      c == '\U{3000}'
  }

  /** The text without white space at its ends. */
  function Trimmed(s: string): (t: string)
    ensures t == "" || (!IsSpace(t[0]) && !IsSpace(t[|t| - 1]))
    decreases |s|
  {
    if s == "" then ""
    else if IsSpace(s[0]) then Trimmed(s[1..])
    else if IsSpace(s[|s| - 1]) then Trimmed(s[..|s| - 1])
    else s
  }

  /** Trimming cuts off white space at the two ends and nothing else. */
  lemma {:induction false} TrimmedIsTheMiddle(s: string) returns (i: nat, j: nat)
    ensures i <= j <= |s| && Trimmed(s) == s[i..j]
    ensures forall k :: 0 <= k < i || j <= k < |s| ==> IsSpace(s[k])
    decreases |s|
  {
    i, j := 0, |s|;
    if s != "" {
      if IsSpace(s[0]) {
        var i1, j1 := TrimmedIsTheMiddle(s[1..]);
        i, j := i1 + 1, j1 + 1;
        assert s[1..][i1..j1] == s[i..j];
        forall k | 0 <= k < i || j <= k < |s| ensures IsSpace(s[k]) {
          assert k > 0 ==> s[1..][k - 1] == s[k];
        }
      } else if IsSpace(s[|s| - 1]) {
        var init := s[..|s| - 1];
        i, j := TrimmedIsTheMiddle(init);
        forall k | 0 <= k < i || j <= k < |s| ensures IsSpace(s[k]) {
          assert k < |init| ==> init[k] == s[k];
        }
      }
    }
  }

  function Names(tokens: seq<Token>): seq<string> {
    seq(|tokens|, i requires 0 <= i < |tokens| => Trimmed(tokens[i].name))
  }

  predicate AddressOk(a: Listen) {
    a.text != "" && a.port.Some? && a.port.value != ""
  }

  predicate PrefixOk(c: Config) {
    c.prefix.Some? && !Mapped(c.prefix.value.address)
  }

  ghost predicate PortsDistinct(ports: seq<int>) {
    forall i, j :: 0 <= i < j < |ports| ==> ports[i] != ports[j]
  }

  ghost predicate NamesDistinct(names: seq<string>) {
    forall i, j :: 0 <= i < j < |names| ==> names[i] != names[j]
  }

  /** The prefix and the numbers that concern the pool, and the mode. */
  ghost predicate LimitsOk(c: Config) {
    && PrefixOk(c) && c.prefix.value.bits == 128 && 1 <= c.prefix.value.ones <= 127
    && 0 <= c.minLeases <= c.maxLeases && c.maxLeases > 0
    && c.idleTimeout >= 0 && c.rotateAfter >= 0
    && c.mode != Unknown
  }

  /** The listen addresses and the port range. */
  ghost predicate ListenersOk(c: Config) {
    && AddressOk(c.socks) && AddressOk(c.admin)
    && 1 <= c.portStart <= c.portEnd <= 65535
    && (c.alwaysOnPorts != [] ==> c.mode == PerIPv6)
  }

  /** A configuration that can be served. */
  ghost predicate Sound(c: Config) {
    && LimitsOk(c) && ListenersOk(c)
    && PortsOk(c, |c.alwaysOnPorts|) && |c.alwaysOnPorts| <= c.maxLeases
    && (c.mode == PerIPv6 ==> c.portEnd - c.portStart + 1 >= c.maxLeases)
    && (c.adminToken == 0 || c.adminToken >= 8)
    && TokensOk(c, |c.tokens|)
    && (c.webPassword.Some? ==> c.webPassword.value == 0 || c.webPassword.value >= 4)
  }

  function Address(c: Config, admin: bool): Listen {
    if admin then c.admin else c.socks
  }

  /** The problem that a report names is there; of a list, that its first bad entry has it. */
  ghost predicate Has(c: Config, p: Problem) {
    match p
    case BadPrefix => !PrefixOk(c)
    case BadPrefixLength => c.prefix.Some? && !(c.prefix.value.bits == 128 && 1 <= c.prefix.value.ones <= 127)
    case BadMaxLeases => c.maxLeases <= 0
    case NegativeMinLeases => c.minLeases < 0
    case MinAboveMax => c.minLeases > c.maxLeases
    case NegativeIdleTimeout => c.idleTimeout < 0
    case NegativeRotateAfter => c.rotateAfter < 0
    case BadMode => c.mode == Unknown
    case EmptyAddress(admin) => Address(c, admin).text == ""
    case BadAddress(admin) => !AddressOk(Address(c, admin))
    case BadPortStart => !(1 <= c.portStart <= 65535)
    case BadPortEnd => !(c.portStart <= c.portEnd <= 65535)
    case AlwaysOnInMultiplex => c.alwaysOnPorts != [] && c.mode != PerIPv6
    case AlwaysOnOutsideRange(port) =>
      exists n :: BadPortAt(c, n) && c.alwaysOnPorts[n] == port && !(c.portStart <= port <= c.portEnd)
    case AlwaysOnTwice(port) =>
      exists n :: BadPortAt(c, n) && c.alwaysOnPorts[n] == port && port in c.alwaysOnPorts[..n]
    case TooManyAlwaysOn => |c.alwaysOnPorts| > c.maxLeases
    case RangeTooSmall => c.mode == PerIPv6 && c.portEnd - c.portStart + 1 < c.maxLeases
    case ShortAdminToken => 0 < c.adminToken < 8
    case EmptyTokenName =>
      exists n :: BadTokenAt(c, n) && Names(c.tokens)[n] == ""
    case TokenNameTwice(name) =>
      exists n :: BadTokenAt(c, n) && Names(c.tokens)[n] == name != "" && name in Names(c.tokens)[..n]
    case ShortToken(name) =>
      exists n :: BadTokenAt(c, n) && Names(c.tokens)[n] == name != "" && name !in Names(c.tokens)[..n]
    case ShortPassword => c.webPassword.Some? && 0 < c.webPassword.value < 4
  }

  /** The first n always-on ports lie in the range, and none of them is there twice. */
  ghost predicate PortsOk(c: Config, n: nat)
    requires n <= |c.alwaysOnPorts|
  {
    PortsDistinct(c.alwaysOnPorts[..n]) && forall i :: 0 <= i < n ==> c.portStart <= c.alwaysOnPorts[i] <= c.portEnd
  }

  /** The first n tokens each have a name of their own and a long enough secret. */
  ghost predicate TokensOk(c: Config, n: nat)
    requires n <= |c.tokens|
  {
    && "" !in Names(c.tokens)[..n] && NamesDistinct(Names(c.tokens)[..n])
    && forall i :: 0 <= i < n ==> c.tokens[i].secret >= 8
  }

  /** The n-th always-on port, and the n-th token, is the first with a problem. */
  ghost predicate BadPortAt(c: Config, n: int) {
    0 <= n < |c.alwaysOnPorts| && PortsOk(c, n) && !PortsOk(c, n + 1)
  }

  ghost predicate BadTokenAt(c: Config, n: int) {
    0 <= n < |c.tokens| && TokensOk(c, n) && !TokensOk(c, n + 1)
  }

  /** All that a configuration has to satisfy, with every bound written out. */
  lemma SoundWrittenOut(c: Config)
    ensures Sound(c) <==>
              && c.prefix.Some? && c.prefix.value.bits == 128 && 1 <= c.prefix.value.ones <= 127
              && !Mapped(c.prefix.value.address)
              && c.maxLeases > 0 && 0 <= c.minLeases <= c.maxLeases && c.idleTimeout >= 0 && c.rotateAfter >= 0
              && (c.mode == Multiplex || c.mode == PerIPv6)
              && c.socks.text != "" && c.socks.port.Some? && c.socks.port.value != ""
              && c.admin.text != "" && c.admin.port.Some? && c.admin.port.value != ""
              && 1 <= c.portStart <= c.portEnd <= 65535
              && (c.mode == PerIPv6 ==> c.maxLeases <= c.portEnd - c.portStart + 1)
              && (c.alwaysOnPorts != [] ==> c.mode == PerIPv6) && |c.alwaysOnPorts| <= c.maxLeases
              && (forall p :: p in c.alwaysOnPorts ==> c.portStart <= p <= c.portEnd)
              && (forall i, j :: 0 <= i < j < |c.alwaysOnPorts| ==> c.alwaysOnPorts[i] != c.alwaysOnPorts[j])
              && !(1 <= c.adminToken <= 7) && (c.webPassword.None? || !(1 <= c.webPassword.value <= 3))
              && (forall t :: t in c.tokens ==> Trimmed(t.name) != "" && t.secret >= 8)
              && (forall i, j :: 0 <= i < j < |c.tokens| ==> Trimmed(c.tokens[i].name) != Trimmed(c.tokens[j].name))
  {
    PortsWrittenOut(c);
    TokensWrittenOut(c);
  }

  lemma PortsWrittenOut(c: Config)
    ensures PortsOk(c, |c.alwaysOnPorts|) <==>
              && (forall p :: p in c.alwaysOnPorts ==> c.portStart <= p <= c.portEnd)
              && (forall i, j :: 0 <= i < j < |c.alwaysOnPorts| ==> c.alwaysOnPorts[i] != c.alwaysOnPorts[j])
  {
    var ports := c.alwaysOnPorts;
    assert ports[..|ports|] == ports;
    if PortsOk(c, |ports|) {
      forall p | p in ports ensures c.portStart <= p <= c.portEnd {
        var i :| 0 <= i < |ports| && ports[i] == p;
      }
    } else {
      assert (forall i :: 0 <= i < |ports| ==> ports[i] in ports);
    }
  }

  lemma TokensWrittenOut(c: Config)
    ensures TokensOk(c, |c.tokens|) <==>
              && (forall t :: t in c.tokens ==> Trimmed(t.name) != "" && t.secret >= 8)
              && (forall i, j :: 0 <= i < j < |c.tokens| ==> Trimmed(c.tokens[i].name) != Trimmed(c.tokens[j].name))
  {
    var names := Names(c.tokens);
    assert names[..|c.tokens|] == names;
    assert forall i :: 0 <= i < |c.tokens| ==> names[i] == Trimmed(c.tokens[i].name);
    if TokensOk(c, |c.tokens|) {
      forall t | t in c.tokens ensures Trimmed(t.name) != "" && t.secret >= 8 {
        var i :| 0 <= i < |c.tokens| && c.tokens[i] == t;
        assert names[i] in names;
      }
      forall i, j | 0 <= i < j < |c.tokens| ensures Trimmed(c.tokens[i].name) != Trimmed(c.tokens[j].name) {
        assert names[i] != names[j];
      }
    }
  }

  lemma NoBadPort(c: Config)
    requires PortsOk(c, |c.alwaysOnPorts|)
    ensures forall n :: !BadPortAt(c, n)
  {
    forall n ensures !BadPortAt(c, n) {
      if 0 <= n < |c.alwaysOnPorts| {
        var all := c.alwaysOnPorts[..|c.alwaysOnPorts|];
        assert forall i :: 0 <= i < n + 1 ==> c.alwaysOnPorts[..n + 1][i] == all[i];
        assert PortsOk(c, n + 1);
      }
    }
  }

  lemma NoBadToken(c: Config)
    requires TokensOk(c, |c.tokens|)
    ensures forall n :: !BadTokenAt(c, n)
  {
    forall n ensures !BadTokenAt(c, n) {
      if 0 <= n < |c.tokens| {
        var names := Names(c.tokens);
        assert forall i :: 0 <= i < n + 1 ==> names[..n + 1][i] == names[..|c.tokens|][i];
        assert TokensOk(c, n + 1);
      }
    }
  }

  /** The order in which problems are looked for. */
  function Rank(p: Problem): nat {
    match p
    case BadPrefix => 0
    case BadPrefixLength => 1
    case BadMaxLeases => 2
    case NegativeMinLeases => 3
    case MinAboveMax => 4
    case NegativeIdleTimeout => 5
    case NegativeRotateAfter => 6
    case BadMode => 7
    case EmptyAddress(admin) => if admin then 10 else 8
    case BadAddress(admin) => if admin then 11 else 9
    case BadPortStart => 12
    case BadPortEnd => 13
    case AlwaysOnInMultiplex => 14
    case AlwaysOnOutsideRange(_) => 15
    case AlwaysOnTwice(_) => 15
    case TooManyAlwaysOn => 16
    case RangeTooSmall => 17
    case ShortAdminToken => 18
    case EmptyTokenName => 19
    case TokenNameTwice(_) => 19
    case ShortToken(_) => 19
    case ShortPassword => 20
  }

  /** No problem of a lower rank is there. */
  ghost predicate ClearBelow(c: Config, rank: nat) {
    forall q :: Has(c, q) ==> Rank(q) >= rank
  }

  /** The checks, one after the other: a configuration passes exactly when it is sound,
      and the problem reported is the first there is. */
  method Validate(c: Config) returns (r: Result<(), Problem>)
    ensures r.Ok? <==> Sound(c)
    ensures r.Err? ==> Has(c, r.error) && ClearBelow(c, Rank(r.error))
  {
    var problem := CheckLimits(c);
    if problem.Some? { return Err(problem.value); }
    problem := CheckListeners(c);
    if problem.Some? { return Err(problem.value); }
    problem := CheckAlwaysOn(c);
    if problem.Some? { return Err(problem.value); }
    problem := CheckSizes(c);
    if problem.Some? { return Err(problem.value); }
    problem := CheckTokens(c);
    if problem.Some? { return Err(problem.value); }
    if c.webPassword.Some? && 0 < c.webPassword.value < 4 { return Err(ShortPassword); }
    return Ok(());
  }

  method CheckLimits(c: Config) returns (problem: Option<Problem>)
    ensures problem.None? ==> LimitsOk(c) && ClearBelow(c, 8)
    ensures problem.Some? ==> Has(c, problem.value) && ClearBelow(c, Rank(problem.value)) && Rank(problem.value) < 8
  {
    if !PrefixOk(c) { return Some(BadPrefix); }
    if c.prefix.value.bits != 128 || c.prefix.value.ones < 1 || c.prefix.value.ones > 127 {
      return Some(BadPrefixLength);
    }
    if c.maxLeases <= 0 { return Some(BadMaxLeases); }
    if c.minLeases < 0 { return Some(NegativeMinLeases); }
    if c.minLeases > c.maxLeases { return Some(MinAboveMax); }
    if c.idleTimeout < 0 { return Some(NegativeIdleTimeout); }
    if c.rotateAfter < 0 { return Some(NegativeRotateAfter); }
    if c.mode == Unknown { return Some(BadMode); }
    return None;
  }

  method CheckListeners(c: Config) returns (problem: Option<Problem>)
    requires ClearBelow(c, 8)
    ensures problem.None? ==> ListenersOk(c) && ClearBelow(c, 15)
    ensures problem.Some? ==> Has(c, problem.value) && ClearBelow(c, Rank(problem.value)) && Rank(problem.value) < 15
  {
    problem := CheckAddress(c, false);
    if problem.Some? { return; }
    problem := CheckAddress(c, true);
    if problem.Some? { return; }
    if c.portStart < 1 || c.portStart > 65535 { return Some(BadPortStart); }
    if c.portEnd < c.portStart || c.portEnd > 65535 { return Some(BadPortEnd); }
    if |c.alwaysOnPorts| > 0 && c.mode != PerIPv6 { return Some(AlwaysOnInMultiplex); }
    return None;
  }

  method CheckSizes(c: Config) returns (problem: Option<Problem>)
    requires ClearBelow(c, 16)
    ensures problem.None? ==>
              && ClearBelow(c, 19) && |c.alwaysOnPorts| <= c.maxLeases && (c.adminToken == 0 || c.adminToken >= 8)
              && (c.mode == PerIPv6 ==> c.portEnd - c.portStart + 1 >= c.maxLeases)
    ensures problem.Some? ==>
            Has(c, problem.value) && ClearBelow(c, Rank(problem.value)) && 16 <= Rank(problem.value) < 19
  {
    if |c.alwaysOnPorts| > c.maxLeases { return Some(TooManyAlwaysOn); }
    if c.mode == PerIPv6 && c.portEnd - c.portStart + 1 < c.maxLeases { return Some(RangeTooSmall); }
    if 0 < c.adminToken < 8 { return Some(ShortAdminToken); }
    return None;
  }

  method CheckAddress(c: Config, admin: bool) returns (problem: Option<Problem>)
    ensures problem.None? <==> AddressOk(Address(c, admin))
    ensures problem.Some? ==>
              if Address(c, admin).text == "" then problem.value == EmptyAddress(admin)
                else problem.value == BadAddress(admin)
  {
    var address := Address(c, admin);
    if address.text == "" { return Some(EmptyAddress(admin)); }
    if !AddressOk(address) { return Some(BadAddress(admin)); }
    return None;
  }

  /** Every always-on port lies in the range, and none is there twice. */
  method CheckAlwaysOn(c: Config) returns (problem: Option<Problem>)
    requires ClearBelow(c, 15)
    ensures problem.None? <==> PortsOk(c, |c.alwaysOnPorts|)
    ensures problem.None? ==> ClearBelow(c, 16)
    ensures problem.Some? ==> Has(c, problem.value) && Rank(problem.value) == 15
  {
    var seen: set<int> := {};
    for n := 0 to |c.alwaysOnPorts|
      invariant forall p :: p in seen <==> p in c.alwaysOnPorts[..n]
      invariant PortsOk(c, n)
    {
      var port := c.alwaysOnPorts[n];
      assert c.alwaysOnPorts[..n + 1] == c.alwaysOnPorts[..n] + [port];
      if port < c.portStart || port > c.portEnd {
        BadPortHere(c, n);
        return Some(AlwaysOnOutsideRange(port));
      }
      if port in seen {
        BadPortHere(c, n);
        return Some(AlwaysOnTwice(port));
      }
      seen := seen + {port};
    }
    NoBadPort(c);
    return None;
  }

  lemma BadPortHere(c: Config, n: nat)
    requires n < |c.alwaysOnPorts| && PortsOk(c, n)
    requires var port := c.alwaysOnPorts[n]; !(c.portStart <= port <= c.portEnd) || port in c.alwaysOnPorts[..n]
    ensures BadPortAt(c, n) && !PortsOk(c, |c.alwaysOnPorts|)
  {
    var port := c.alwaysOnPorts[n];
    if port in c.alwaysOnPorts[..n] {
      var i :| 0 <= i < n && c.alwaysOnPorts[..n][i] == port;
      assert c.alwaysOnPorts[..n + 1][i] == c.alwaysOnPorts[..n + 1][n];
    }
    if PortsOk(c, |c.alwaysOnPorts|) {
      NoBadPort(c);
    }
  }

  /** Every client token has a name of its own and a secret of at least eight bytes. */
  method CheckTokens(c: Config) returns (problem: Option<Problem>)
    requires ClearBelow(c, 19)
    ensures problem.None? <==> TokensOk(c, |c.tokens|)
    ensures problem.None? ==> ClearBelow(c, 20)
    ensures problem.Some? ==> Has(c, problem.value) && Rank(problem.value) == 19
  {
    var seen: set<string> := {};
    ghost var names := Names(c.tokens);
    for n := 0 to |c.tokens|
      invariant forall x :: x in seen <==> x in names[..n]
      invariant TokensOk(c, n)
    {
      var name := Trimmed(c.tokens[n].name);
      assert names[n] == name;
      assert names[..n + 1] == names[..n] + [name];
      if name == "" {
        BadTokenHere(c, n);
        return Some(EmptyTokenName);
      }
      if name in seen {
        BadTokenHere(c, n);
        return Some(TokenNameTwice(name));
      }
      seen := seen + {name};
      if c.tokens[n].secret < 8 {
        BadTokenHere(c, n);
        return Some(ShortToken(name));
      }
      GoodTokenHere(c, n);
    }
    NoBadToken(c);
    return None;
  }

  lemma GoodTokenHere(c: Config, n: nat)
    requires n < |c.tokens| && TokensOk(c, n)
    requires var name := Names(c.tokens)[n]; name != "" && name !in Names(c.tokens)[..n] && c.tokens[n].secret >= 8
    ensures TokensOk(c, n + 1)
  {
    var names := Names(c.tokens);
    assert names[..n + 1] == names[..n] + [names[n]];
  }

  lemma BadTokenHere(c: Config, n: nat)
    requires n < |c.tokens| && TokensOk(c, n)
    requires var name := Names(c.tokens)[n]; name == "" || name in Names(c.tokens)[..n] || c.tokens[n].secret < 8
    ensures BadTokenAt(c, n) && !TokensOk(c, |c.tokens|)
  {
    var names := Names(c.tokens);
    assert names[..n + 1][n] == names[n];
    if names[n] in names[..n] {
      var i :| 0 <= i < n && names[..n][i] == names[n];
      assert names[..n + 1][i] == names[..n + 1][n];
    }
    if TokensOk(c, |c.tokens|) {
      NoBadToken(c);
    }
  }

  /** The options run() hands to the pool: ports only in per_ipv6 mode. */
  function PoolOptions(c: Config, random: nat -> Option<nat>): M.Options {
    var ports := c.mode == PerIPv6;
    M.Options(c.minLeases, c.maxLeases, c.idleTimeout, c.rotateAfter, c.rotateRequests,
              if ports then c.portStart else 0, if ports then c.portEnd else 0, false, random)
  }

  /** Every configuration that passes the checks yields a pool: none of NewPool's own
      checks can fail afterwards. */
  lemma ValidatedPoolStarts(c: Config, random: nat -> Option<nat>, now: int)
    requires Sound(c) && c.prefix.value.address < Pow2(Width)
    ensures M.OptionsOk(PoolOptions(c, random))
    ensures M.NewPool(PoolOptions(c, random), c.prefix, now).Ok?
  {
  }
}
