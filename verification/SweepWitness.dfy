/** Runs in which a sweep gets in the way. A recycled client has its old address back although
    there is a floor, because the sweep inside Recycle converts an idle lease onto it. A
    connection to a running listener costs that listener its own idle lease. */
module SweepWitness {
  import opened Wrappers
  import opened Ids
  import opened Ipv6Addr
  import opened PoolInvariant
  import opened PoolSteps
  import opened PoolModel
  import opened PoolRuns
  import opened PoolRecycle
  import opened PoolTheorems
  import opened Witnesses
  import LeasePool
  import M = PoolModel
  import S = Service

  /** Floor two, capacity four, an idle timeout of one, four ports; the random source yields
      these hosts and then 10 for ever. */
  function Wild(): Options {
    Options(2, 4, 1, 0, 0, 1, 4, false, n =>
      Some(if n == 0 then 1 else if n == 2 then 2 else if n == 3 then 20 else 10))
  }

  /** The next draw is good. */
  lemma OneDraw(o: Options, s: State, h: nat)
    requires OptionsOk(o) && !o.sequential && o.random(s.drawn) == Some(h) && h < s.generator.hostMax
    requires !InUse(s.leases, s.generator.base + h)
    ensures Allocate(o, s)
            == (Ok(s.generator.base + h), s.(drawn := s.drawn + 1, issued := s.issued + {s.generator.base + h}))
  {
  }

  ghost predicate IsClient(s: State, id: string, host: nat, port: int, lastUsedAt: int) {
    && id in s.leases && s.leases[id].role == Client && !s.leases[id].persistent
    && s.leases[id].ipv6 == s.generator.base + host && s.leases[id].port == port
    && s.leases[id].lastUsedAt == lastUsedAt
  }

  /** Clients a, b and c on ports 2, 1 and 3, of which b is idle at 10, and no standby. */
  ghost predicate ThreeClients(o: Options, s: State) {
    && o == Wild() && s.generator.hostMax >= 256 && s.leases.Keys == {"a", "b", "c"}
    && s.standbyCount == 0 && s.drawn == 3
    && IsClient(s, "a", 10, 2, 0) && IsClient(s, "b", 1, 1, 0) && IsClient(s, "c", 2, 3, 10)
  }

  /** The pool after a good draw that is not used yet. */
  function Drew(s: State, host: nat): State {
    s.(drawn := s.drawn + 1, issued := s.issued + {s.generator.base + host})
  }

  lemma ConvertsTo(o: Options, s: State, id: string, host: nat, now: int)
    requires OptionsOk(o) && id in s.leases && s.leases[id].role == Client && s.standbyCount < o.minLeases
    requires Allocate(o, s) == (Ok(s.generator.base + host), Drew(s, host))
    ensures RecycleSlot(o, s, id, now) == Convert(Drew(s, host), id, s.generator.base + host, now)
  {
  }

  lemma Converts(o: Options, s: State, id: string, host: nat, now: int)
    requires OptionsOk(o) && Inv(o, s) && id in s.leases && s.leases[id].role == Client && s.standbyCount < o.minLeases
    requires !o.sequential && o.random(s.drawn) == Some(host) && host < s.generator.hostMax
    requires !InUse(s.leases, s.generator.base + host)
    ensures RecycleSlot(o, s, id, now) == Convert(Drew(s, host), id, s.generator.base + host, now)
    ensures Inv(o, Convert(Drew(s, host), id, s.generator.base + host, now)) && PoolId(s.standbySeq + 1) !in s.leases
  {
    OneDraw(o, s, host);
    ConvertsTo(o, s, id, host, now);
    RecycleSlotKeeps(o, s, id, now);
  }

  lemma ThreeVisits(o: Options, s: State, x: string, y: string, z: string, now: int)
    requires OptionsOk(o)
    ensures Sweep(o, s, [x, y, z], now) == Visit(o, Visit(o, Visit(o, (s, []), x, now), y, now), z, now)
  {
    assert [x, y, z][..2] == [x, y] && [x, y][..1] == [x] && [x][..0] == [];
    assert Sweep(o, s, [], now) == (s, []);
    assert Sweep(o, s, [x], now) == Visit(o, (s, []), x, now);
    assert Sweep(o, s, [x, y], now) == Visit(o, Visit(o, (s, []), x, now), y, now);
  }

  /** b and c are left, and a standby k on a's port. */
  ghost predicate OneConverted(o: Options, s: State, k: string) {
    && o == Wild() && s.generator.hostMax >= 256 && s.leases.Keys == {"b", "c", k}
    && s.standbyCount == 1 && s.drawn == 4
    && IsClient(s, "b", 1, 1, 0) && IsClient(s, "c", 2, 3, 10)
    && k != "a" && k != "b" && k != "c" && s.leases[k].role == Standby && s.leases[k].ipv6 == s.generator.base + 20
    && s.leases[k].port == 2
  }

  /** c is left, and two standbys: k on a's port and j on b's, with a's old address. */
  ghost predicate TwoConverted(s: State, k: string, j: string) {
    && s.leases.Keys == {"c", k, j} && s.standbyCount == 2 && s.leases["c"].role == Client
    && k != j && k != "a" && j != "a" && s.leases[k].role == Standby && s.leases[k].port == 2
    && s.leases[j].role == Standby && s.leases[j].port == 1 && s.leases[j].ipv6 == s.generator.base + 10
  }

  lemma TwentyIsFree(o: Options, s: State)
    requires ThreeClients(o, s)
    ensures !InUse(s.leases, s.generator.base + 20) && o.random(s.drawn) == Some(20)
  {
    assert forall i :: i in s.leases ==> i in {"a", "b", "c"};
  }

  lemma TenIsFree(o: Options, s: State, k: string)
    requires OneConverted(o, s, k)
    ensures !InUse(s.leases, s.generator.base + 10) && o.random(s.drawn) == Some(10)
    ensures SweepRuns(o, s) && Expired(o, s.leases["b"], 10) && !Expired(o, s.leases["c"], 10)
  {
    assert forall i :: i in s.leases ==> i in {"b", "c", k};
    assert |s.leases| == |s.leases.Keys| == 3;
  }

  lemma AfterFirst(o: Options, s: State, s1: State)
    requires ThreeClients(o, s) && s1 == Convert(Drew(s, 20), "a", s.generator.base + 20, 10)
    requires PoolId(s.standbySeq + 1) !in s.leases
    ensures OneConverted(o, s1, PoolId(s.standbySeq + 1)) && s1.failures == s.failures && s1.generator == s.generator
  {
  }

  lemma SecondConversion(o: Options, s: State, k: string) returns (mid: State, j: string)
    requires OneConverted(o, s, k) && Inv(o, s)
    ensures SweepRuns(o, s) && Covers(o, s, ["b", "c", k]) && mid == M.ReleaseIdle(o, s, ["b", "c", k], 10).0
    ensures TwoConverted(mid, k, j) && mid.failures == s.failures && mid.generator == s.generator
  {
    TenIsFree(o, s, k);
    BConverts(o, s);
    mid, j := Convert(Drew(s, 10), "b", s.generator.base + 10, 10), PoolId(s.standbySeq + 1);
    AfterSecond(o, s, k, mid);
    OnlyFirstGoes(o, s, "b", "c", k, 10, mid);
  }

  lemma BConverts(o: Options, s: State)
    requires OptionsOk(o) && Inv(o, s) && "b" in s.leases && s.leases["b"].role == Client
    requires s.standbyCount < o.minLeases
    requires !o.sequential && o.random(s.drawn) == Some(10) && 10 < s.generator.hostMax
    requires !InUse(s.leases, s.generator.base + 10)
    ensures RecycleSlot(o, s, "b", 10) == Convert(Drew(s, 10), "b", s.generator.base + 10, 10)
    ensures PoolId(s.standbySeq + 1) !in s.leases
  {
    Converts(o, s, "b", 10, 10);
  }

  /** A sweep over three leases of which only the first is idle. */
  lemma OnlyFirstGoes(o: Options, s: State, x: string, y: string, z: string, now: int, mid: State)
    requires OptionsOk(o) && SweepRuns(o, s) && x in s.leases && Expired(o, s.leases[x], now)
    requires mid == RecycleSlot(o, s, x, now)
    requires y in mid.leases ==> !Expired(o, mid.leases[y], now)
    requires z in mid.leases ==> !Expired(o, mid.leases[z], now)
    ensures M.ReleaseIdle(o, s, [x, y, z], now).0 == mid
  {
    ThreeVisits(o, s, x, y, z, now);
  }

  lemma AfterSecond(o: Options, s: State, k: string, mid: State)
    requires OneConverted(o, s, k) && mid == Convert(Drew(s, 10), "b", s.generator.base + 10, 10)
    requires PoolId(s.standbySeq + 1) !in s.leases
    ensures TwoConverted(mid, k, PoolId(s.standbySeq + 1)) && mid.failures == s.failures && mid.generator == s.generator
    ensures IsClient(mid, "c", 2, 3, 10)
  {
  }

  /** The Acquire inside Recycle, after the conversion. */
  lemma SecondHalf(o: Options, s1: State, k: string) returns (c: Choice)
    requires OneConverted(o, s1, k) && Inv(o, s1)
    ensures AcquireChoice(o, s1, 10, c)
    ensures var step := M.Acquire(o, s1, "a", false, 10, c);
            step.result.Ok? && step.result.value.ipv6 == s1.generator.base + 10 && step.state.failures == s1.failures
  {
    var mid, j := SecondConversion(o, s1, k);
    c := Choice(["b", "c", k], Some(j));
    LeastIsTaken(o, mid, k, j);
    SweptThenServed(o, s1, "a", 10, c, mid);
  }

  /** Recycling a converts its lease, the sweep in between converts b onto a's old address,
      and a is served that. */
  lemma SweepBringsItBack(o: Options, s: State) returns (c: Choice)
    requires ThreeClients(o, s) && Inv(o, s)
    ensures Recyclable(o, s, "a", 10, 10, c)
    ensures var r := M.Recycle(o, s, "a", 10, 10, c).result; r.Ok? && r.value.ipv6 == s.leases["a"].ipv6
  {
    TwentyIsFree(o, s);
    FirstConversion(o, s);
    var s1 := Convert(Drew(s, 20), "a", s.generator.base + 20, 10);
    AfterFirst(o, s, s1);
    c := SecondHalf(o, s1, PoolId(s.standbySeq + 1));
    ReleasedThenAcquired(o, s, "a", 10, 10, c, s1);
  }

  lemma FirstConversion(o: Options, s: State)
    requires OptionsOk(o) && Inv(o, s) && "a" in s.leases && s.leases["a"].role == Client
    requires s.standbyCount < o.minLeases
    requires !o.sequential && o.random(s.drawn) == Some(20) && 20 < s.generator.hostMax
    requires !InUse(s.leases, s.generator.base + 20)
    ensures RecycleSlot(o, s, "a", 10) == Convert(Drew(s, 20), "a", s.generator.base + 20, 10)
    ensures Inv(o, Convert(Drew(s, 20), "a", s.generator.base + 20, 10)) && PoolId(s.standbySeq + 1) !in s.leases
  {
    Converts(o, s, "a", 20, 10);
  }

  lemma LeastIsTaken(o: Options, mid: State, k: string, j: string)
    requires o == Wild() && TwoConverted(mid, k, j)
    ensures PicksLeast(mid.leases, Some(j))
    ensures var (s', r) := AcquireSwept(o, mid, "a", false, 10, Some(j));
            r.Ok? && r.value.ipv6 == mid.generator.base + 10 && s'.failures == mid.failures
  {
    assert |mid.leases| == |mid.leases.Keys| == 3;
    assert forall i :: i in mid.leases ==> i in {"c", k, j};
  }

  /** Two standbys on ports 1 and 2. */
  ghost predicate TwoStandbys(s: State, k: string, j: string) {
    && s.generator.hostMax >= 256 && s.leases.Keys == {k, j} && s.standbyCount == 2 && s.drawn == 2
    && s.freePorts == [3, 4]
    && IsStandby(s, k, 1, 1) && IsStandby(s, j, 10, 2)
    && k != j && Apart(k) && Apart(j)
  }

  ghost predicate Apart(k: string) {
    k != "a" && k != "b" && k != "c"
  }

  ghost predicate IsStandby(s: State, k: string, host: nat, port: int) {
    k in s.leases && s.leases[k].role == Standby && s.leases[k].ipv6 == s.generator.base + host &&
      s.leases[k].port == port
  }

  lemma WildStandby(o: Options, s: State, host: nat)
    requires o == Wild() && |s.freePorts| > 0 && o.random(s.drawn) == Some(host) && host < s.generator.hostMax
    requires !InUse(s.leases, s.generator.base + host)
    ensures NewStandby(o, s, 0) == (true, Seeded(o, Drew(s, host), s.generator.base + host, 0))
  {
    OneDraw(o, s, host);
  }

  lemma WildPool(prefix: Cidr)
    requires Accepted(prefix)
    ensures NewPool(Wild(), Some(prefix), 0).Ok?
    ensures var s := NewPool(Wild(), Some(prefix), 0).value;
            Inv(Wild(), s) && s.failures == 0 && TwoStandbys(s, PoolId(1), PoolId(2))
  {
    ManyHosts(prefix);
    var o := Wild();
    var g: Network := NewGenerator(Some(prefix)).value;
    NewPoolKeeps(o, Some(prefix), 0);
    WildTopUp(o, Empty(o, g));
  }

  lemma WildTopUp(o: Options, s: State)
    requires o == Wild() && s == Empty(o, s.generator) && s.generator.hostMax >= 256
    ensures var s2 := EnsureStandbys(o, s, 0); s2.failures == 0 && TwoStandbys(s2, PoolId(1), PoolId(2))
  {
    FourPorts(o, s);
    WildStandby(o, s, 1);
    var s1 := Seeded(o, Drew(s, 1), s.generator.base + 1, 0);
    OneStandby(o, s, s1);
    WildStandby(o, s1, 10);
    var s2 := Seeded(o, Drew(s1, 10), s.generator.base + 10, 0);
    SecondStandby(o, s1, s2);
    TopUpOfTwo(o, s, s1, s2);
  }

  lemma FourPorts(o: Options, s: State)
    requires o == Wild() && s == Empty(o, s.generator)
    ensures s.freePorts == [1, 2, 3, 4] && o.random(0) == Some(1) && o.random(1) == Some(10)
  {
  }

  lemma OneStandby(o: Options, s: State, s1: State)
    requires o == Wild() && s == Empty(o, s.generator) && s.freePorts == [1, 2, 3, 4]
    requires s1 == Seeded(o, Drew(s, 1), s.generator.base + 1, 0)
    ensures s1.leases.Keys == {PoolId(1)} && s1.freePorts == [2, 3, 4] && IsStandby(s1, PoolId(1), 1, 1)
    ensures !InUse(s1.leases, s1.generator.base + 10)
    ensures s1.standbyCount == 1 && s1.standbySeq == 1 && s1.drawn == 1 && s1.failures == 0
    ensures s1.generator == s.generator
  {
  }

  lemma SecondStandby(o: Options, s1: State, s2: State)
    requires o == Wild() && s1.leases.Keys == {PoolId(1)} && s1.freePorts == [2, 3, 4] && IsStandby(s1, PoolId(1), 1, 1)
    requires s1.standbyCount == 1 && s1.standbySeq == 1 && s1.drawn == 1 && s1.generator.hostMax >= 256
    requires s2 == Seeded(o, Drew(s1, 10), s1.generator.base + 10, 0)
    ensures TwoStandbys(s2, PoolId(1), PoolId(2)) && s2.failures == s1.failures
  {
    PoolIdsDiffer();
    assert s2.leases.Keys == {PoolId(1), PoolId(2)};
  }

  lemma PoolIdsDiffer()
    ensures PoolId(1) != PoolId(2)
  {
    if PoolId(1) == PoolId(2) {
      PoolIdInjective(1, 2);
    }
  }

  /** Three Acquires on that pool, the last one at 10. */
  lemma WildClients(o: Options, s: State, k: string, j: string) returns (e1: Event, e2: Event, e3: Event)
    requires o == Wild() && Inv(o, s) && TwoStandbys(s, k, j)
    ensures Allowed(o, s, e1) && Allowed(o, Next(o, s, e1), e2) && Allowed(o, Next(o, Next(o, s, e1), e2), e3)
    ensures var s3 := Next(o, Next(o, Next(o, s, e1), e2), e3); ThreeClients(o, s3) && s3.failures == s.failures
  {
    e1 := Event.Acquire("b", false, 0, Choice([], Some(k)));
    e2 := Event.Acquire("a", false, 0, Choice([], Some(j)));
    e3 := Event.Acquire("c", false, 10, Choice([], None));
    NotAPoolId("a");
    NotAPoolId("b");
    NotAPoolId("c");
    FirstClaim(o, s, k, j);
    var s1 := Claim(s, k, "b", false, 0);
    SecondClaim(o, s1, j);
    var s2 := Claim(s1, j, "a", false, 0);
    ThirdClient(o, s2);
  }

  lemma FirstClaim(o: Options, s: State, k: string, j: string)
    requires o == Wild() && TwoStandbys(s, k, j)
    ensures AcquireChoice(o, s, 0, Choice([], Some(k)))
    ensures M.Acquire(o, s, "b", false, 0, Choice([], Some(k))).state == Claim(s, k, "b", false, 0)
    ensures ClaimedOne(Claim(s, k, "b", false, 0), j)
  {
    assert |s.leases| == |s.leases.Keys| == 2;
    assert forall i :: i in s.leases ==> i in {k, j};
  }

  /** b has the first standby. */
  ghost predicate ClaimedOne(s: State, j: string) {
    && s.generator.hostMax >= 256 && s.leases.Keys == {"b", j} && s.standbyCount == 1 && s.drawn == 2
    && s.freePorts == [3, 4]
    && IsClient(s, "b", 1, 1, 0) && IsStandby(s, j, 10, 2) && Apart(j)
  }

  lemma SecondClaim(o: Options, s: State, j: string)
    requires o == Wild() && ClaimedOne(s, j)
    ensures AcquireChoice(o, s, 0, Choice([], Some(j)))
    ensures M.Acquire(o, s, "a", false, 0, Choice([], Some(j))).state == Claim(s, j, "a", false, 0)
    ensures ClaimedTwo(Claim(s, j, "a", false, 0))
  {
    assert |s.leases| == |s.leases.Keys| == 2;
    assert forall i :: i in s.leases ==> i in {"b", j};
  }

  /** a has the second. */
  ghost predicate ClaimedTwo(s: State) {
    && s.generator.hostMax >= 256 && s.leases.Keys == {"a", "b"} && s.standbyCount == 0 && s.drawn == 2
    && s.freePorts == [3, 4]
    && IsClient(s, "a", 10, 2, 0) && IsClient(s, "b", 1, 1, 0)
  }

  lemma ThirdClient(o: Options, s: State)
    requires o == Wild() && ClaimedTwo(s)
    ensures AcquireChoice(o, s, 10, Choice([], None))
    ensures var s' := M.Acquire(o, s, "c", false, 10, Choice([], None)).state;
            ThreeClients(o, s') && s'.failures == s.failures
  {
    assert |s.leases| == |s.leases.Keys| == 2;
    assert forall i :: i in s.leases ==> i in {"a", "b"};
    OneDraw(o, s, 2);
    assert M.Acquire(o, s, "c", false, 10, Choice([], None)).state ==
             Create(Drew(s, 2), "c", s.generator.base + 2, 3, [4], false, 10);
  }

  /** Three Acquires on a new pool with a floor of two, and the client that is recycled next has
      its old address back: the sweep in between converts an idle lease onto it. */
  lemma AddressComesBack(prefix: Cidr) returns (es: seq<Event>, s: State, c: Choice)
    requires Accepted(prefix)
    ensures Reached(Wild(), prefix, es, s) && Recyclable(Wild(), s, "a", 10, 10, c)
    ensures var r := M.Recycle(Wild(), s, "a", 10, 10, c).result; r.Ok? && r.value.ipv6 == s.leases["a"].ipv6
  {
    var o := Wild();
    WildPool(prefix);
    var s0 := NewPool(o, Some(prefix), 0).value;
    var e1, e2, e3 := WildClients(o, s0, PoolId(1), PoolId(2));
    RunOfThree(o, s0, e1, e2, e3);
    es := [e1, e2, e3];
    s := Run(o, s0, es);
    AlwaysInv(o, s0, es);
    c := SweepBringsItBack(o, s);
  }

  lemma RunOfThree(o: Options, s: State, first: Event, second: Event, third: Event)
    requires OptionsOk(o) && Allowed(o, s, first) && Allowed(o, Next(o, s, first), second)
    requires Allowed(o, Next(o, Next(o, s, first), second), third)
    ensures var es := [first, second, third];
            Legal(o, s, es) && Run(o, s, es) == Next(o, Next(o, Next(o, s, first), second), third)
  {
    var es := [first, second, third];
    assert es[1..] == [second, third];
    RunOfTwo(o, Next(o, s, first), second, third);
  }

  // ---------- A connection that costs its own lease ----------

  /** Floor one, capacity two, an idle timeout of one, three ports. */
  ghost predicate FirstListens(o: Options, sys: S.System) {
    && o == Small(1, 2, 1, 3) && Roomy(o, sys.pool, 100) && S.Agreement(sys) && sys.pool.failures == 0
    && sys.pool.leases.Keys == {"a"} && sys.pool.standbyCount == 0 && |sys.pool.freePorts| == 2
    && UnusedSince(sys.pool, "a", 0) && "a" in sys.listeners
  }

  ghost predicate BothListen(o: Options, sys: S.System) {
    && o == Small(1, 2, 1, 3) && Roomy(o, sys.pool, 90) && S.Agreement(sys) && sys.pool.failures == 0
    && sys.pool.leases.Keys == {"a", "b"} && sys.pool.standbyCount == 0
    && UnusedSince(sys.pool, "a", 0) && UnusedSince(sys.pool, "b", 10) && "a" in sys.listeners
  }

  ghost predicate UnusedSince(s: State, id: string, time: int) {
    id in s.leases && s.leases[id].role == Client && !s.leases[id].persistent && s.leases[id].lastUsedAt == time
  }

  lemma CreateFirst(o: Options, sys: S.System) returns (c: Choice)
    requires o == Small(1, 2, 1, 3) && Roomy(o, sys.pool, 200) && sys.listeners == map[] && sys.pool.failures == 0
    requires Clients(sys.pool.leases) == {} && |sys.pool.leases| == sys.pool.standbyCount == 1
    requires |sys.pool.freePorts| == 2
    ensures var e := S.Create("a", false, 0, c, true, 0); S.Allowed(o, sys, e) && FirstListens(o, S.Next(o, sys, e))
  {
    FreshName(sys.pool, "a");
    var pick := LeasePool.SomeLeast(sys.pool.leases);
    c := Choice([], pick);
    OneClaimed(o, sys.pool, c);
    S.CreateAgrees(o, sys, "a", false, 0, c, true, 0);
  }

  lemma OneClaimed(o: Options, s: State, c: Choice)
    requires o == Small(1, 2, 1, 3) && CountsOk(o, s) && |s.leases| == s.standbyCount == 1 && "a" !in s.leases
    requires c.order == [] && PicksLeast(s.leases, c.pick)
    ensures AcquireChoice(o, s, 0, c)
    ensures var step := M.Acquire(o, s, "a", false, 0, c);
            && step.released == [] && step.result.Ok? && step.state.leases == map["a" := step.result.value]
            && UnusedSince(step.state, "a", 0) && step.state.standbyCount == 0 && step.state.failures == s.failures
            && step.state.freePorts == s.freePorts && step.state.nextIndex == s.nextIndex
            && step.state.generator == s.generator
  {
    assert Standbys(s.leases) != {};
    var k := c.pick.value;
    StandbysRemove(s.leases, k);
    assert s.leases - {k} == map[];
  }

  lemma CreateSecond(o: Options, sys: S.System) returns (c: Choice)
    requires FirstListens(o, sys)
    ensures var e := S.Create("b", false, 10, c, true, 0); S.Allowed(o, sys, e) && BothListen(o, S.Next(o, sys, e))
  {
    NotAPoolId("b");
    c := Choice([], None);
    OneCreated(o, sys.pool);
    S.CreateAgrees(o, sys, "b", false, 10, c, true, 0);
  }

  lemma OneCreated(o: Options, s: State)
    requires o == Small(1, 2, 1, 3) && Roomy(o, s, 100) && s.leases.Keys == {"a"} && s.standbyCount == 0
    requires |s.freePorts| == 2
    requires UnusedSince(s, "a", 0)
    ensures var c := Choice([], None);
            var step := M.Acquire(o, s, "b", false, 10, c);
            && AcquireChoice(o, s, 10, c)
            && step.released == [] && step.result.Ok? && step.state.leases == s.leases["b" := step.result.value]
            && UnusedSince(step.state, "b", 10) && step.state.standbyCount == 0 && step.state.failures == s.failures
            && step.state.nextIndex == s.nextIndex + 1 && step.state.generator == s.generator
  {
    assert |s.leases| == |s.leases.Keys| == 1;
    SequentialAllocation(o, s);
  }

  /** A connection to a at 10: its lease is swept, the pool is as full as before. */
  lemma ConnectCosts(o: Options, sys: S.System) returns (c: Choice)
    requires BothListen(o, sys)
    ensures AcquirePortChoice(o, sys.pool, sys.listeners["a"], 10, c)
    ensures var (sys', r) := S.Connect(o, sys, "a", 10, c, true, 10);
            r == Err(Capacity) && "a" !in sys'.pool.leases && "a" !in sys'.listeners && sys'.pool.failures == 0
  {
    var s, port := sys.pool, sys.listeners["a"];
    OnlyAIsIdle(o, s);
    var mid := M.ReleaseIdle(o, s, ["a", "b"], 10).0;
    var pick := LeasePool.SomeOnPort(mid.leases, port);
    c := Choice(["a", "b"], pick);
    SweptFirst(o, s, c.order, 10);
    assert M.AcquirePort(o, s, "a", port, false, 10, c).state == mid;
    S.RefusedAndGone(o, sys, "a", 10, c);
  }

  lemma OnlyAIsIdle(o: Options, s: State)
    requires o == Small(1, 2, 1, 3) && Roomy(o, s, 90) && s.leases.Keys == {"a", "b"} && s.standbyCount == 0
    requires UnusedSince(s, "a", 0) && UnusedSince(s, "b", 10)
    ensures Sweeps(o, s, "a", 10) && LeftBySweep(o, s, 10) == 2 && Covers(o, s, ["a", "b"])
    ensures M.ReleaseIdle(o, s, ["a", "b"], 10).0.failures == s.failures
  {
    assert |s.leases| == |s.leases.Keys| == 2;
    assert Idle(o, s, 10) == {"a"};
    var mid := RecycleSlot(o, s, "a", 10);
    BStays(o, s);
    TwoVisits(o, s, "a", "b", 10);
  }

  lemma BStays(o: Options, s: State)
    requires o == Small(1, 2, 1, 3) && Roomy(o, s, 90) && s.leases.Keys == {"a", "b"} && s.standbyCount == 0
    requires UnusedSince(s, "a", 0) && UnusedSince(s, "b", 10)
    ensures var mid := RecycleSlot(o, s, "a", 10);
            mid.failures == s.failures && "b" in mid.leases && mid.leases["b"] == s.leases["b"]
  {
    SequentialAllocation(o, s);
    RecycleEffect(o, s, "a", 10);
  }

  lemma TwoVisits(o: Options, s: State, x: string, y: string, now: int)
    requires OptionsOk(o)
    ensures Sweep(o, s, [x, y], now) == Visit(o, Visit(o, (s, []), x, now), y, now)
  {
    assert [x, y][..1] == [x] && [x][..0] == [];
    assert Sweep(o, s, [], now) == (s, []);
    assert Sweep(o, s, [x], now) == Visit(o, (s, []), x, now);
  }

  /** Two createLease calls on a new program, and the next connection to the first listener
      ends with neither lease nor listener. */
  lemma ConnectionCostsTheLease(prefix: Cidr) returns (first: Choice, second: Choice, c: Choice)
    requires Accepted(prefix)
    ensures NewPool(Small(1, 2, 1, 3), Some(prefix), 0).Ok?
    ensures var o := Small(1, 2, 1, 3);
            var sys0 := Booted(o, prefix);
            && S.Allowed(o, sys0, S.Create("a", false, 0, first, true, 0))
            && var sys1 := S.Next(o, sys0, S.Create("a", false, 0, first, true, 0));
               && S.Allowed(o, sys1, S.Create("b", false, 10, second, true, 0))
               && var sys := S.Next(o, sys1, S.Create("b", false, 10, second, true, 0));
                  && S.Agreement(sys) && "a" in sys.listeners
                  && S.Allowed(o, sys, S.Connection("a", 10, c, true, 10))
                  && var sys' := S.Next(o, sys, S.Connection("a", 10, c, true, 10));
                     "a" !in sys'.pool.leases && "a" !in sys'.listeners && sys'.pool.failures == 0
  {
    var o := Small(1, 2, 1, 3);
    NewPoolTopsUp(o, prefix);
    var sys0 := Booted(o, prefix);
    first := CreateFirst(o, sys0);
    var sys1 := S.Next(o, sys0, S.Create("a", false, 0, first, true, 0));
    second := CreateSecond(o, sys1);
    c := ConnectCosts(o, S.Next(o, sys1, S.Create("b", false, 10, second, true, 0)));
  }
}
