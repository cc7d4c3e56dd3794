/** The lease pool as a state and one function per operation.

    The functions resolve the three things the pool cannot control by explicit
    inputs: the random source is an arbitrary function `random` from the number of
    draws made so far to a host of the prefix (anything else is a failure), the clock is a parameter of
    every operation, and the order in which Go ranges over the lease map is a
    `Choice`. Claims about all of these inputs are claims about every behaviour. */
module PoolModel {
  import opened Wrappers
  import opened Ids
  import opened Ipv6Addr

  datatype Role = Client | Standby

  datatype Error =
    | EmptyId
    | Capacity
    | PortUnavailable
    | NotFound
    | Anchored
    | BadOptions
    | RandomFailed
    | AddressError(cause: GeneratorError)

  datatype Lease = Lease(
    id: string,
    ipv6: Address,
    port: int,
    persistent: bool,
    role: Role,
    createdAt: int,
    lastUsedAt: int,
    requests: nat,
    generation: nat)

  datatype Options = Options(
    minLeases: int,
    maxLeases: int,
    idleTimeout: int,
    rotateAfter: int,
    rotateRequests: nat,
    portStart: int,
    portEnd: int,
    sequential: bool,
    random: nat -> Option<nat>)

  /** The pool's fields, followed by three history variables: how many random draws
      were made, how many address allocations failed, and which addresses were
      handed out since the last prefix change. */
  datatype State = State(
    leases: map<string, Lease>,
    freePorts: seq<int>,
    standbyCount: int,
    standbySeq: nat,
    nextIndex: nat,
    generator: Network,
    drawn: nat,
    failures: nat,
    issued: set<Address>)

  /** What an operation leaves behind: the new state, its result, and the ids the
      release hook is called with, in order. */
  datatype Step<T> = Step(state: State, result: T, released: seq<string>)

  /** How the map is ranged over: the keys a sweep visits, and the standby taken. */
  datatype Choice = Choice(order: seq<string>, pick: Option<string>)

  predicate OptionsOk(o: Options) {
    && o.maxLeases > 0
    && 0 <= o.minLeases <= o.maxLeases
    && o.idleTimeout >= 0
    && o.rotateAfter >= 0
    && (o.portStart != 0 || o.portEnd != 0 ==>
          1 <= o.portStart <= o.portEnd <= 65535 && o.portEnd - o.portStart + 1 >= o.maxLeases)
  }

  // ---------- Addresses ----------

  predicate InUse(leases: map<string, Lease>, a: Address) {
    exists k :: k in leases && leases[k].ipv6 == a
  }

  function Draw(o: Options, s: State): (r: (Result<Address, Error>, State))
    ensures r.1 == s.(nextIndex := r.1.nextIndex, drawn := r.1.drawn)
    ensures r.0.Ok? ==> InPrefix(s.generator, r.0.value)
    ensures o.sequential ==> r.1.nextIndex == s.nextIndex + 1
    ensures o.sequential && r.0.Ok? ==> r.0.value == s.generator.base + r.1.nextIndex
  {
    if o.sequential then
      var i := s.nextIndex + 1;
      (match FromIndex(s.generator, i)
       case Ok(a) => Ok(a)
       case Err(e) => Err(AddressError(e)),
       s.(nextIndex := i))
    else
      (match o.random(s.drawn)
       case Some(h) => if h < s.generator.hostMax then Ok(FromHost(s.generator, h)) else Err(RandomFailed)
       case None => Err(RandomFailed),
       s.(drawn := s.drawn + 1))
  }

  /** Draw until the candidate is unused, at most `budget` times. Only the counters
      of the state change; a success is a fresh address of the prefix. */
  function NextAddress(o: Options, s: State, budget: nat): (r: (Result<Address, Error>, State))
    ensures r.1 == s.(nextIndex := r.1.nextIndex, drawn := r.1.drawn, failures := r.1.failures, issued := r.1.issued)
    ensures r.0.Ok? ==>
              && InPrefix(s.generator, r.0.value)
              && !InUse(s.leases, r.0.value)
              && r.1.failures == s.failures
              && r.1.issued == s.issued + {r.0.value}
    ensures r.0.Err? ==> r.1.failures == s.failures + 1 && r.1.issued == s.issued
    ensures o.sequential ==> r.1.nextIndex >= s.nextIndex
    ensures o.sequential && r.0.Ok? ==> r.1.nextIndex > s.nextIndex && r.0.value == s.generator.base + r.1.nextIndex
    decreases budget
  {
    if budget == 0 then (Err(Capacity), s.(failures := s.failures + 1))
    else
      var (candidate, s1) := Draw(o, s);
      match candidate
      case Err(e) => (Err(e), s1.(failures := s1.failures + 1))
      case Ok(a) => if InUse(s.leases, a) then NextAddress(o, s1, budget - 1)
        else (Ok(a), s1.(issued := s1.issued + {a}))
  }

  function Budget(o: Options): nat
    requires OptionsOk(o)
  {
    o.maxLeases * 2 + 257
  }

  function Allocate(o: Options, s: State): (Result<Address, Error>, State)
    requires OptionsOk(o)
  {
    NextAddress(o, s, Budget(o))
  }

  // ---------- Ports ----------

  function Insert(xs: seq<int>, x: int): (r: seq<int>)
    ensures multiset(r) == multiset(xs) + multiset{x}
  {
    if |xs| == 0 then [x]
    else if xs[|xs| - 1] <= x then xs + [x]
    else
      assert xs == xs[..|xs| - 1] + [xs[|xs| - 1]];
      Insert(xs[..|xs| - 1], x) + [xs[|xs| - 1]]
  }

  /** The ascending arrangement of xs. */
  function SortInts(xs: seq<int>): (r: seq<int>)
    ensures multiset(r) == multiset(xs)
  {
    if |xs| == 0 then []
    else
      assert xs == xs[..|xs| - 1] + [xs[|xs| - 1]];
      Insert(SortInts(xs[..|xs| - 1]), xs[|xs| - 1])
  }

  function PortRange(first: int, last: int): seq<int> {
    if first == 0 || last < first then [] else seq(last - first + 1, i => first + i)
  }

  function Without(xs: seq<int>, x: int): seq<int> {
    if |xs| == 0 then [] else if xs[0] == x then xs[1..] else [xs[0]] + Without(xs[1..], x)
  }

  // ---------- Lease transitions ----------

  function FreshStandby(s: State, a: Address, port: int, now: int): Lease {
    Lease(PoolId(s.standbySeq + 1), a, port, false, Standby, now, now, 0, 0)
  }

  /** The lease under id gives up its port to a new standby with address a. */
  function Convert(s: State, id: string, a: Address, now: int): State
    requires id in s.leases
  {
    var standby := FreshStandby(s, a, s.leases[id].port, now);
    s.(leases := (s.leases - {id})[standby.id := standby],
       standbyCount := s.standbyCount + 1,
       standbySeq := s.standbySeq + 1)
  }

  /** The lease under id disappears and its port is free again. */
  function Drop(s: State, id: string): State
    requires id in s.leases
  {
    var l := s.leases[id];
    s.(leases := s.leases - {id},
       standbyCount := if l.role == Standby then s.standbyCount - 1 else s.standbyCount,
       freePorts := if l.port != 0 then SortInts(s.freePorts + [l.port]) else s.freePorts)
  }

  function NewStandby(o: Options, s: State, now: int): (r: (bool, State))
    requires OptionsOk(o)
    ensures r.0 ==> r.1.standbyCount == s.standbyCount + 1
  {
    if o.portStart != 0 && |s.freePorts| == 0 then (false, s)
    else
      match Allocate(o, s)
      case (Err(_), s1) => (false, s1)
      case (Ok(a), s1) => (true, Seeded(o, s1, a, now))
  }

  /** A new standby with address a on the first free port. */
  function Seeded(o: Options, s: State, a: Address, now: int): State
    requires o.portStart != 0 ==> |s.freePorts| > 0
  {
    var port := if o.portStart != 0 then s.freePorts[0] else 0;
    var standby := FreshStandby(s, a, port, now);
    s.(leases := s.leases[standby.id := standby],
       freePorts := if o.portStart != 0 then s.freePorts[1..] else s.freePorts,
       standbyCount := s.standbyCount + 1,
       standbySeq := s.standbySeq + 1)
  }

  function EnsureStandbys(o: Options, s: State, now: int): State
    requires OptionsOk(o)
    decreases o.minLeases - s.standbyCount
  {
    if s.standbyCount < o.minLeases then
      var (ok, s1) := NewStandby(o, s, now);
      if ok then EnsureStandbys(o, s1, now) else s1
    else s
  }

  /** recycleLocked: convert while standbys are short, otherwise destroy. */
  function RecycleSlot(o: Options, s: State, id: string, now: int): State
    requires OptionsOk(o) && id in s.leases
  {
    if s.leases[id].role != Standby && s.standbyCount < o.minLeases then
      match Allocate(o, s)
      case (Ok(a), s1) => Convert(s1, id, a, now)
      case (Err(_), s1) => EnsureStandbys(o, Drop(s1, id), now)
    else EnsureStandbys(o, Drop(s, id), now)
  }

  /** A standby becomes the client lease id, keeping port and address. */
  function Claim(s: State, key: string, id: string, persistent: bool, now: int): State
    requires key in s.leases
  {
    var l := s.leases[key];
    var claimed := l.(id := id, role := Client, persistent := persistent, createdAt := now,
                      lastUsedAt := now, requests := 0, generation := l.generation + 1);
    s.(leases := (s.leases - {key})[id := claimed], standbyCount := s.standbyCount - 1)
  }

  function Update(s: State, id: string, l: Lease): State {
    s.(leases := s.leases[id := l])
  }

  function Readdressed(l: Lease, a: Address, now: int): Lease {
    l.(ipv6 := a, createdAt := now, lastUsedAt := now, requests := 0, generation := l.generation + 1)
  }

  /** rotateLocked: a fresh address for the lease under id, or no lease changes. */
  function Rotated(o: Options, s: State, id: string, now: int): (Result<(), Error>, State)
    requires OptionsOk(o) && id in s.leases
  {
    match Allocate(o, s)
    case (Ok(a), s1) => (Ok(()), Update(s1, id, Readdressed(s1.leases[id], a, now)))
    case (Err(e), s1) => (Err(e), s1)
  }

  // ---------- The idle sweep ----------

  predicate Expired(o: Options, l: Lease, now: int) {
    l.role == Client && !l.persistent && now - l.lastUsedAt >= o.idleTimeout
  }

  /** One visit of the sweep: recycle k if it is present and expired. */
  function Visit(o: Options, before: (State, seq<string>), k: string, now: int): (State, seq<string>)
    requires OptionsOk(o)
  {
    var (s, released) := before;
    if k in s.leases && Expired(o, s.leases[k], now) then (RecycleSlot(o, s, k, now), released + [k])
    else before
  }

  /** Visit the keys of `order` one after the other. */
  function Sweep(o: Options, s: State, order: seq<string>, now: int): (State, seq<string>)
    requires OptionsOk(o)
    decreases |order|
  {
    if |order| == 0 then (s, [])
    else Visit(o, Sweep(o, s, order[..|order| - 1], now), order[|order| - 1], now)
  }

  predicate SweepRuns(o: Options, s: State) {
    o.idleTimeout > 0 && |s.leases| > o.minLeases
  }

  function ReleaseIdle(o: Options, s: State, order: seq<string>, now: int): (State, seq<string>)
    requires OptionsOk(o)
  {
    if SweepRuns(o, s) then Sweep(o, s, order, now) else (s, [])
  }

  /** A Go range visits every key that stays in the map; keys added meanwhile may be
      visited or skipped, and visiting a key that is gone changes nothing. */
  predicate Covers(o: Options, s: State, order: seq<string>) {
    SweepRuns(o, s) ==> forall k :: k in s.leases ==> k in order
  }

  // ---------- Acquiring ----------

  /** The tie-break of takeStandbyLocked: lower port first, then lower id. */
  predicate Before(a: Lease, b: Lease) {
    a.port < b.port || (a.port == b.port && Less(a.id, b.id))
  }

  ghost predicate IsLeastStandby(leases: map<string, Lease>, key: string) {
    && key in leases
    && leases[key].role == Standby
    && forall k :: k in leases && leases[k].role == Standby && k != key ==> Before(leases[key], leases[k])
  }

  ghost predicate PicksLeast(leases: map<string, Lease>, pick: Option<string>) {
    match pick
    case Some(key) => IsLeastStandby(leases, key)
    case None => forall k :: k in leases ==> leases[k].role != Standby
  }

  predicate OnPort(leases: map<string, Lease>, key: string, port: int) {
    key in leases && leases[key].role == Standby && leases[key].port == port
  }

  predicate PicksOnPort(leases: map<string, Lease>, port: int, pick: Option<string>) {
    match pick
    case Some(key) => OnPort(leases, key, port)
    case None => forall k :: k in leases ==> !OnPort(leases, k, port)
  }

  /** The sweep covers the map and the pick is the one the swept map offers. */
  ghost predicate AcquireChoice(o: Options, s: State, now: int, c: Choice)
    requires OptionsOk(o)
  {
    Covers(o, s, c.order) && PicksLeast(ReleaseIdle(o, s, c.order, now).0.leases, c.pick)
  }

  ghost predicate AcquirePortChoice(o: Options, s: State, port: int, now: int, c: Choice)
    requires OptionsOk(o)
  {
    Covers(o, s, c.order) && PicksOnPort(ReleaseIdle(o, s, c.order, now).0.leases, port, c.pick)
  }

  predicate ShouldRotate(o: Options, l: Lease, now: int) {
    o.rotateAfter > 0 && now - l.createdAt >= o.rotateAfter
  }

  /** An identity presents itself again: a standby is claimed, a client may be pinned. */
  function Presented(s: State, id: string, persistent: bool, now: int): State
    requires id in s.leases
  {
    if s.leases[id].role == Standby then Claim(s, id, id, persistent, now)
    else if persistent then Update(s, id, s.leases[id].(persistent := true))
    else s
  }

  /** A rotation if one is due. */
  function Rotating(o: Options, s: State, id: string, now: int): (Result<(), Error>, State)
    requires OptionsOk(o) && id in s.leases
  {
    if ShouldRotate(o, s.leases[id], now) then Rotated(o, s, id, now) else (Ok(()), s)
  }

  /** The branch of Acquire and AcquirePort for an id that already has a lease. */
  function Refresh(o: Options, s: State, id: string, persistent: bool, now: int): (State, Result<Lease, Error>)
    requires OptionsOk(o) && id in s.leases
  {
    var s1 := Presented(s, id, persistent, now);
    var (rotation, s2) := Rotating(o, s1, id, now);
    match rotation
    case Err(e) => (s2, Err(e))
    case Ok(_) =>
      var s3 := Update(s2, id, s2.leases[id].(lastUsedAt := now));
      (s3, Ok(s3.leases[id]))
  }

  function Create(s: State, id: string, a: Address, port: int, rest: seq<int>, persistent: bool, now: int): State {
    s.(leases := s.leases[id := Lease(id, a, port, persistent, Client, now, now, 0, 0)], freePorts := rest)
  }

  function Acquire(o: Options, s: State, id: string, persistent: bool, now: int, c: Choice): Step<Result<Lease, Error>>
    requires OptionsOk(o)
  {
    if id == "" then Step(s, Err(EmptyId), [])
    else
      var (s1, released) := ReleaseIdle(o, s, c.order, now);
      var (s2, r) := AcquireSwept(o, s1, id, persistent, now, c.pick);
      Step(s2, r, released)
  }

  function AcquireSwept(o: Options, s: State, id: string, persistent: bool, now: int, pick: Option<string>):
    (State, Result<Lease, Error>)
    requires OptionsOk(o)
  {
    if id in s.leases then Refresh(o, s, id, persistent, now)
    else if |s.leases| >= o.maxLeases then (s, Err(Capacity))
    else if pick.Some? && pick.value in s.leases then
      var s1 := Claim(s, pick.value, id, persistent, now);
      (s1, Ok(s1.leases[id]))
    else
      match Allocate(o, s)
      case (Err(e), s1) => (s1, Err(e))
      case (Ok(a), s1) =>
        var s2 := if |s1.freePorts| > 0 then Create(s1, id, a, s1.freePorts[0], s1.freePorts[1..], persistent, now)
                  else Create(s1, id, a, 0, s1.freePorts, persistent, now);
        (s2, Ok(s2.leases[id]))
  }

  function AcquirePort(o: Options, s: State, id: string, port: int, persistent: bool, now: int,
    c: Choice): Step<Result<Lease, Error>>
    requires OptionsOk(o)
  {
    if id == "" then Step(s, Err(EmptyId), [])
    else
      var (s1, released) := ReleaseIdle(o, s, c.order, now);
      var (s2, r) := AcquirePortSwept(o, s1, id, port, persistent, now, c.pick);
      Step(s2, r, released)
  }

  function AcquirePortSwept(o: Options, s: State, id: string, port: int, persistent: bool, now: int,
    pick: Option<string>): (State, Result<Lease, Error>)
    requires OptionsOk(o)
  {
    if id in s.leases then
      if s.leases[id].port != port then (s, Err(PortUnavailable)) else Refresh(o, s, id, persistent, now)
    else if |s.leases| >= o.maxLeases then (s, Err(Capacity))
    else if pick.Some? && pick.value in s.leases then
      var s1 := Claim(s, pick.value, id, persistent, now);
      (s1, Ok(s1.leases[id]))
    else OnFreePort(o, s, id, port, persistent, now)
  }

  /** A new lease on one given port, which has to be free. */
  function OnFreePort(o: Options, s: State, id: string, port: int, persistent: bool, now: int):
    (State, Result<Lease, Error>)
    requires OptionsOk(o)
  {
    if port !in s.freePorts then (s, Err(PortUnavailable))
    else
      match Allocate(o, s)
      case (Err(e), s1) => (s1, Err(e))
      case (Ok(a), s1) =>
        var s2 := Create(s1, id, a, port, Without(s1.freePorts, port), persistent, now);
        (s2, Ok(s2.leases[id]))
  }

  // ---------- The remaining operations ----------

  function Release(o: Options, s: State, id: string, now: int): Step<bool>
    requires OptionsOk(o)
  {
    if id in s.leases then Step(RecycleSlot(o, s, id, now), true, [id]) else Step(s, false, [])
  }

  function Rotate(o: Options, s: State, id: string, now: int): Step<Result<Lease, Error>>
    requires OptionsOk(o)
  {
    if id !in s.leases then Step(s, Err(NotFound), [])
    else
      match Rotated(o, s, id, now)
      case (Err(e), s1) => Step(s1, Err(e), [])
      case (Ok(_), s1) => Step(s1, Ok(s1.leases[id]), [])
  }

  function Counted(s: State, id: string, now: int): State
    requires id in s.leases
  {
    Update(s, id, s.leases[id].(requests := s.leases[id].requests + 1, lastUsedAt := now))
  }

  function RecordRequest(o: Options, s: State, id: string, now: int): Step<Result<Lease, Error>>
    requires OptionsOk(o)
  {
    if id !in s.leases then Step(s, Err(NotFound), [])
    else
      var s1 := Counted(s, id, now);
      if o.rotateRequests > 0 && s1.leases[id].requests >= o.rotateRequests then Rotate(o, s1, id, now)
      else Step(s1, Ok(s1.leases[id]), [])
  }

  function Recycle(o: Options, s: State, id: string, now: int, later: int, c: Choice): Step<Result<Lease, Error>>
    requires OptionsOk(o)
  {
    if id !in s.leases then Step(s, Err(NotFound), [])
    else if s.leases[id].persistent then Step(s, Err(Anchored), [])
    else
      var again := Acquire(o, RecycleSlot(o, s, id, now), id, false, later, c);
      again.(released := [id] + again.released)
  }

  function SetPersistent(s: State, id: string, persistent: bool): Step<Result<Lease, Error>> {
    if id !in s.leases then Step(s, Err(NotFound), [])
    else
      var s1 := Update(s, id, s.leases[id].(persistent := persistent));
      Step(s1, Ok(s1.leases[id]), [])
  }

  // ---------- Prefix change ----------

  function Addresses(leases: map<string, Lease>): set<Address> {
    set k | k in leases :: leases[k].ipv6
  }

  /** The addresses planned so far, the last index tried, and every address that is
      reserved: the current ones and the planned ones. */
  datatype Plan = Plan(addresses: map<string, Address>, next: nat, reserved: set<Address>)

  /** The first index after `next` whose address is not reserved, in at most
      maxLeases + 1 attempts. */
  function FindIndex(o: Options, g: Network, reserved: set<Address>, next: nat, attempts: nat): (r: Result<nat, Error>)
    ensures r.Ok? ==> next < r.value < g.hostMax && g.base + r.value !in reserved
    decreases o.maxLeases + 1 - attempts
  {
    if attempts > o.maxLeases then Err(Capacity)
    else
      match FromIndex(g, next + 1)
      case Err(e) => Err(AddressError(e))
      case Ok(a) => if a in reserved then FindIndex(o, g, reserved, next + 1, attempts + 1) else Ok(next + 1)
  }

  /** Plan one more lease after the plan r. */
  function PlanNext(o: Options, g: Network, r: Result<Plan, Error>, k: string): Result<Plan, Error> {
    match r
    case Err(e) => Err(e)
    case Ok(p) =>
      match FindIndex(o, g, p.reserved, p.next, 0)
      case Err(e) => Err(e)
      case Ok(i) => Ok(Plan(p.addresses[k := g.base + i], i, p.reserved + {g.base + i}))
  }

  function MakePlan(o: Options, g: Network, leases: map<string, Lease>, order: seq<string>): Result<Plan, Error>
    decreases |order|
  {
    if |order| == 0 then Ok(Plan(map[], 0, Addresses(leases)))
    else PlanNext(o, g, MakePlan(o, g, leases, order[..|order| - 1]), order[|order| - 1])
  }

  function Moved(l: Lease, a: Address, now: int): Lease {
    var l1 := l.(ipv6 := a, generation := l.generation + 1);
    if l.role == Client then l1.(createdAt := now, lastUsedAt := now, requests := 0) else l1
  }

  function Commit(s: State, g: Network, plan: Plan, now: int): State
    requires plan.addresses.Keys == s.leases.Keys
  {
    var leases := map k | k in s.leases :: Moved(s.leases[k], plan.addresses[k], now);
    s.(generator := g, nextIndex := plan.next, leases := leases, issued := Addresses(leases))
  }

  /** The lease map's keys, each once. */
  ghost predicate Enumerates(s: State, order: seq<string>) {
    && (forall k :: k in s.leases <==> k in order)
    && (forall i, j :: 0 <= i < j < |order| ==> order[i] != order[j])
  }

  lemma {:induction false} PlanKeys(o: Options, g: Network, leases: map<string, Lease>, order: seq<string>)
    requires MakePlan(o, g, leases, order).Ok?
    ensures forall k :: k in MakePlan(o, g, leases, order).value.addresses <==> k in order
  {
    if |order| > 0 {
      var n := |order| - 1;
      PlanKeys(o, g, leases, order[..n]);
      assert order == order[..n] + [order[n]];
    }
  }

  function Reassign(o: Options, s: State, prefix: Option<Cidr>, now: int, order: seq<string>): Step<Result<(), Error>>
    requires OptionsOk(o)
    requires prefix.Some? ==> prefix.value.address < Pow2(Width)
    requires Enumerates(s, order)
  {
    match NewGenerator(prefix)
    case Err(e) => Step(s, Err(AddressError(e)), [])
    case Ok(g) =>
      match MakePlan(o, g, s.leases, order)
      case Err(e) => Step(s, Err(e), [])
      case Ok(plan) =>
        PlanKeys(o, g, s.leases, order);
        Step(EnsureStandbys(o, Commit(s, g, plan, now), now), Ok(()), [])
  }

  // ---------- Construction ----------

  function NewPool(o: Options, prefix: Option<Cidr>, now: int): Result<State, Error>
    requires prefix.Some? ==> prefix.value.address < Pow2(Width)
  {
    if !OptionsOk(o) then Err(BadOptions)
    else
      match NewGenerator(prefix)
      case Err(e) => Err(AddressError(e))
      case Ok(g) => Ok(EnsureStandbys(o, Empty(o, g), now))
  }

  function Empty(o: Options, g: Network): State {
    State(map[], PortRange(o.portStart, o.portEnd), 0, 0, 0, g, 0, 0, {})
  }
}
