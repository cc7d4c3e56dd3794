/** Runs in which the limits that the pool and its listeners do not guard are crossed: each
    exact condition has a failing side that occurs. The runs use sequential addresses and
    start from a new pool, for any accepted prefix of at most 120 bits. */
module Witnesses {
  import opened Wrappers
  import opened Ids
  import opened Ipv6Addr
  import opened PoolInvariant
  import opened PoolSteps
  import opened PoolReassign
  import opened PoolModel
  import opened PoolRuns
  import opened PoolTheorems
  import opened PoolRecycle
  import LeasePool
  import M = PoolModel
  import S = Service

  function Small(minLeases: int, maxLeases: int, idleTimeout: int, ports: int): Options {
    Options(minLeases, maxLeases, idleTimeout, 0, 0, 1, ports, true, n => None)
  }

  ghost predicate Accepted(prefix: Cidr) {
    prefix.address < Pow2(Width) && NewGenerator(Some(prefix)).Ok? && prefix.ones <= 120
  }

  /** Sequential addresses with at least n left to hand out. */
  ghost predicate Roomy(o: Options, s: State, n: int) {
    OptionsOk(o) && Inv(o, s) && o.sequential && o.portStart != 0 && s.nextIndex + n < s.generator.hostMax
  }

  lemma ManyHosts(prefix: Cidr)
    requires Accepted(prefix)
    ensures NewGenerator(Some(prefix)).value.hostMax >= 256
  {
    Pow2Monotone(8, 128 - prefix.ones);
    assert Pow2(8) == 256;
  }

  // ---------- Steps that cannot fail ----------

  /** Topping up with addresses and ports to spare. */
  lemma {:induction false} TopsUp(o: Options, s: State, now: int)
    requires Roomy(o, s, o.minLeases - s.standbyCount) && |s.freePorts| >= o.minLeases - s.standbyCount
    ensures var s' := EnsureStandbys(o, s, now);
            && Inv(o, s') && s'.failures == s.failures && s'.generator == s.generator
            && s'.standbyCount == o.minLeases
            && s'.nextIndex == s.nextIndex + (o.minLeases - s.standbyCount)
            && s'.standbySeq == s.standbySeq + (o.minLeases - s.standbyCount)
            && |s'.freePorts| == |s.freePorts| - (o.minLeases - s.standbyCount)
    decreases o.minLeases - s.standbyCount
  {
    if s.standbyCount < o.minLeases {
      SequentialAllocation(o, s);
      NewStandbyKeeps(o, s, now);
      NewStandbyCounts(o, s, now);
      TopsUp(o, NewStandby(o, s, now).1, now);
    }
  }

  lemma NewPoolTopsUp(o: Options, prefix: Cidr)
    requires OptionsOk(o) && o.sequential && o.portStart == 1 && o.minLeases <= 8 && Accepted(prefix)
    ensures NewPool(o, Some(prefix), 0).Ok?
    ensures var s := NewPool(o, Some(prefix), 0).value;
            && Roomy(o, s, 200) && s.failures == 0 && Clients(s.leases) == {}
            && |s.leases| == s.standbyCount == s.standbySeq == o.minLeases && |s.freePorts| == o.portEnd - o.minLeases
  {
    ManyHosts(prefix);
    var g: Network := NewGenerator(Some(prefix)).value;
    var s := Empty(o, g);
    assert Standbys(s.leases) == {};
    EmptyKeeps(o, g);
    TopsUp(o, s, 0);
    EnsureAdds(o, s, 0);
    var s' := EnsureStandbys(o, s, 0);
    assert Clients(s'.leases) == {};
    RolesPartition(s'.leases);
  }

  lemma EmptyKeeps(o: Options, g: Network)
    requires OptionsOk(o)
    ensures Inv(o, Empty(o, g))
    ensures |Empty(o, g).freePorts| == (if o.portStart == 0 then 0 else o.portEnd - o.portStart + 1)
  {
    assert Standbys(Empty(o, g).leases) == {};
  }

  /** A fresh id below the capacity, where nothing is ever swept. */
  lemma Served(o: Options, s: State, id: string, n: nat) returns (e: Event)
    requires Roomy(o, s, n + 1) && o.idleTimeout == 0 && |s.leases| < o.maxLeases
    requires id != "" && id !in s.leases && Safe(s, id)
    ensures e.Acquire? && e.id == id && Allowed(o, s, e)
    ensures var s' := Next(o, s, e);
            && Roomy(o, s', n) && s'.failures == s.failures && s'.standbySeq == s.standbySeq
            && s'.generator == s.generator
            && s'.leases.Keys <= s.leases.Keys + {id} && id in s'.leases && s'.leases[id].role == Client
            && !s'.leases[id].persistent
            && KeepsOthers(s, s', id)
            && (if s.standbyCount > 0 then |s'.leases| == |s.leases| && s'.standbyCount == s.standbyCount - 1
                else |s'.leases| == |s.leases| + 1 && s'.standbyCount == 0)
  {
    var pick := LeasePool.SomeLeast(s.leases);
    e := Event.Acquire(id, false, 0, Choice([], pick));
    AcquireSweptEffect(o, s, id, false, 0, pick);
    ServedCounts(o, s, id, pick);
  }

  lemma ServedCounts(o: Options, s: State, id: string, pick: Option<string>)
    requires Roomy(o, s, 1) && |s.leases| < o.maxLeases && id != "" && id !in s.leases && Safe(s, id)
    requires PicksLeast(s.leases, pick)
    ensures var (s', r) := AcquireSwept(o, s, id, false, 0, pick);
            && r.Ok? && !r.value.persistent && s'.failures == s.failures && s'.nextIndex <= s.nextIndex + 1
            && (if s.standbyCount > 0 then |s'.leases| == |s.leases| && s'.standbyCount == s.standbyCount - 1
                else |s'.leases| == |s.leases| + 1 && s'.standbyCount == 0)
  {
    SequentialAllocation(o, s);
    if pick.Some? {
      assert pick.value in Standbys(s.leases);
      ClaimMoves(s, pick.value, id, false, 0);
    } else {
      assert Standbys(s.leases) == {};
    }
  }

  lemma TopUpOfTwo(o: Options, s: State, s1: State, s2: State)
    requires OptionsOk(o) && NewStandby(o, s, 0) == (true, s1) && NewStandby(o, s1, 0) == (true, s2)
    requires s.standbyCount + 1 == s1.standbyCount == o.minLeases - 1 && s2.standbyCount == o.minLeases
    ensures EnsureStandbys(o, s, 0) == s2
  {
    assert EnsureStandbys(o, s2, 0) == s2;
    assert EnsureStandbys(o, s1, 0) == s2;
  }

  // ---------- Over the capacity ----------

  /** Two clients and no standby, where the floor is one, the capacity two and the ports
      three: the pool is full and owes a standby. */
  ghost predicate FullAndShort(o: Options, s: State, n: int) {
    && Roomy(o, s, n) && o == Small(1, 2, 0, 3)
    && |s.leases| == 2 && s.standbyCount == 0 && |s.freePorts| == 1
    && "a" in s.leases && s.leases["a"].role == Client && !s.leases["a"].persistent
  }

  /** The run es leads a new pool to s, without a failed allocation. */
  ghost predicate Reached(o: Options, prefix: Cidr, es: seq<Event>, s: State) {
    && OptionsOk(o) && Accepted(prefix) && NewPool(o, Some(prefix), 0).Ok?
    && Legal(o, NewPool(o, Some(prefix), 0).value, es)
    && s == Run(o, NewPool(o, Some(prefix), 0).value, es)
    && s.failures == 0
  }

  /** A run of two Acquires leads there. */
  lemma ReachFullAndShort(prefix: Cidr) returns (es: seq<Event>, s: State)
    requires Accepted(prefix)
    ensures Reached(Small(1, 2, 0, 3), prefix, es, s) && FullAndShort(Small(1, 2, 0, 3), s, 100)
  {
    var o := Small(1, 2, 0, 3);
    NewPoolTopsUp(o, prefix);
    var s0 := NewPool(o, Some(prefix), 0).value;
    var first, second := TwoServed(o, s0);
    es := [first, second];
    RunOfTwo(o, s0, first, second);
    s := Run(o, s0, es);
  }

  lemma TwoServed(o: Options, s: State) returns (first: Event, second: Event)
    requires o == Small(1, 2, 0, 3) && Roomy(o, s, 102) && Clients(s.leases) == {} && |s.leases| == s.standbyCount == 1
    ensures Allowed(o, s, first) && Allowed(o, Next(o, s, first), second)
    ensures var s' := Next(o, Next(o, s, first), second); FullAndShort(o, s', 100) && s'.failures == s.failures
  {
    FreshName(s, "a");
    FreshName(s, "b");
    first := Served(o, s, "a", 101);
    second := Served(o, Next(o, s, first), "b", 100);
  }

  lemma FreshName(s: State, id: string)
    requires KeysOk(s) && |id| < 5 && Clients(s.leases) == {}
    ensures id !in s.leases && Safe(s, id)
  {
    NotAPoolId(id);
    assert id !in Clients(s.leases);
  }

  lemma NotAPoolId(id: string)
    requires |id| < 5
    ensures !IsPoolId(id)
  {
  }

  lemma RunOfTwo(o: Options, s: State, first: Event, second: Event)
    requires OptionsOk(o) && Allowed(o, s, first) && Allowed(o, Next(o, s, first), second)
    ensures Legal(o, s, [first, second]) && Run(o, s, [first, second]) == Next(o, Next(o, s, first), second)
  {
    var s1 := Next(o, s, first);
    assert [first, second][1..] == [second] && [second][1..] == [];
    assert Legal(o, Next(o, s1, second), []);
    assert Legal(o, s1, [second]);
    assert Run(o, s1, [second]) == Next(o, s1, second);
  }

  /** From there a change of prefix goes over the capacity. */
  lemma ReassignExceeds(prefix: Cidr) returns (es: seq<Event>, s: State, e: Event)
    requires Accepted(prefix)
    ensures Reached(Small(1, 2, 0, 3), prefix, es, s) && e.Reassign? && Allowed(Small(1, 2, 0, 3), s, e)
    ensures |s.leases| == 2 && |Next(Small(1, 2, 0, 3), s, e).leases| == 3
  {
    es, s := ReachFullAndShort(prefix);
    e := FullReassign(Small(1, 2, 0, 3), s, prefix);
  }

  lemma FullReassign(o: Options, s: State, prefix: Cidr) returns (e: Event)
    requires FullAndShort(o, s, 100) && Accepted(prefix)
    ensures e.Reassign? && Allowed(o, s, e) && |Next(o, s, e).leases| == 3
  {
    var order := LeasePool.AnyOrder(s.leases.Keys);
    e := Event.Reassign(Some(prefix), 0, order);
    FullMoves(o, s, prefix, order);
  }

  lemma FullMoves(o: Options, s: State, prefix: Cidr, order: seq<string>)
    requires FullAndShort(o, s, 100) && Enumerates(s, order) && Accepted(prefix)
    ensures |M.Reassign(o, s, Some(prefix), 0, order).state.leases| == 3
  {
    ManyHosts(prefix);
    var g: Network := NewGenerator(Some(prefix)).value;
    FullPlans(o, s, g, order);
    FullCommits(o, s, g, order);
  }

  lemma FullPlans(o: Options, s: State, g: Network, order: seq<string>)
    requires FullAndShort(o, s, 100) && Enumerates(s, order) && g.hostMax >= 256
    ensures var r := MakePlan(o, g, s.leases, order);
            r.Ok? && r.value.next <= 4 && r.value.addresses.Keys == s.leases.Keys
  {
    PlanSucceeds(o, s, g, order);
    PlanKeys(o, g, s.leases, order);
  }

  lemma FullCommits(o: Options, s: State, g: Network, order: seq<string>)
    requires FullAndShort(o, s, 100) && Enumerates(s, order) && g.hostMax >= 256
    requires MakePlan(o, g, s.leases, order).Ok? && MakePlan(o, g, s.leases, order).value.next <= 4
    requires MakePlan(o, g, s.leases, order).value.addresses.Keys == s.leases.Keys
    ensures |EnsureStandbys(o, Commit(s, g, MakePlan(o, g, s.leases, order).value, 0), 0).leases| == 3
  {
    var p := MakePlan(o, g, s.leases, order).value;
    PlanCounts(o, g, s.leases, order);
    CommitKeeps(o, s, g, order, p, 0);
    var s1 := Commit(s, g, p, 0);
    CommitShape(s, g, p, 0);
    ShapeKeeps(o, s, s1);
    TopsUp(o, s1, 0);
    TopUpAdds(o, s1, 0);
  }

  /** At the same point Recycle fails, and the client is gone. */
  lemma RecycleLosesTheClient(prefix: Cidr) returns (es: seq<Event>, s: State, c: Choice)
    requires Accepted(prefix)
    ensures Reached(Small(1, 2, 0, 3), prefix, es, s) && "a" in s.leases && !s.leases["a"].persistent
    ensures AcquireChoice(Small(1, 2, 0, 3), RecycleSlot(Small(1, 2, 0, 3), s, "a", 0), 0, c)
    ensures var step := M.Recycle(Small(1, 2, 0, 3), s, "a", 0, 0, c);
            step.result == Err(Capacity) && "a" !in step.state.leases && step.state.failures == 0
  {
    es, s := ReachFullAndShort(prefix);
    c := FullRecycle(Small(1, 2, 0, 3), s);
  }

  lemma FullRecycle(o: Options, s: State) returns (c: Choice)
    requires FullAndShort(o, s, 100)
    ensures AcquireChoice(o, RecycleSlot(o, s, "a", 0), 0, c)
    ensures var step := M.Recycle(o, s, "a", 0, 0, c);
            step.result == Err(Capacity) && "a" !in step.state.leases && step.state.failures == s.failures
  {
    var s1 := RecycleSlot(o, s, "a", 0);
    SequentialAllocation(o, s);
    RecycleSlotKeeps(o, s, "a", 0);
    var pick := LeasePool.SomeLeast(s1.leases);
    c := Choice([], pick);
    RecycledSlot(o, s, "a", 0);
  }

  // ---------- Recycling for nothing ----------

  /** The only client of a new pool is recycled and has its port back. */
  lemma RecycleKeepsThePort(prefix: Cidr) returns (e: Event, c: Choice)
    requires Accepted(prefix)
    ensures NewPool(Small(1, 2, 0, 3), Some(prefix), 0).Ok?
    ensures var o, s0 := Small(1, 2, 0, 3), NewPool(Small(1, 2, 0, 3), Some(prefix), 0).value;
            && Inv(o, s0) && Allowed(o, s0, e)
            && var s := Next(o, s0, e);
               && Recyclable(o, s, "a", 0, 0, c)
               && var r := M.Recycle(o, s, "a", 0, 0, c).result;
                  r.Ok? && r.value.port == s.leases["a"].port && r.value.ipv6 != s.leases["a"].ipv6
  {
    var o := Small(1, 2, 0, 3);
    NewPoolTopsUp(o, prefix);
    var s0 := NewPool(o, Some(prefix), 0).value;
    FreshName(s0, "a");
    e := Served(o, s0, "a", 100);
    c := OnlyClient(o, Next(o, s0, e));
  }

  lemma OnlyClient(o: Options, s: State) returns (c: Choice)
    requires Alone(o, s)
    ensures Recyclable(o, s, "a", 0, 0, c)
    ensures var r := M.Recycle(o, s, "a", 0, 0, c).result;
            r.Ok? && r.value.port == s.leases["a"].port && r.value.ipv6 != s.leases["a"].ipv6
  {
    var s1 := RecycleSlot(o, s, "a", 0);
    SequentialAllocation(o, s);
    RecycleEffect(o, s, "a", 0);
    var pick := LeasePool.SomeLeast(s1.leases);
    c := Choice([], pick);
    OnlyClientRecyclable(o, s, c);
    OnlyClientServed(o, s, c);
    OnlyClientsPort(o, s, c);
    RecycledInSequence(o, s, "a", 0, 0, c);
  }

  /** A pool of one client that owes a standby. */
  ghost predicate Alone(o: Options, s: State) {
    && o == Small(1, 2, 0, 3) && Roomy(o, s, 100) && |s.leases| == 1 && s.standbyCount == 0
    && "a" in s.leases && s.leases["a"].role == Client && !s.leases["a"].persistent
  }

  lemma OnlyClientRecyclable(o: Options, s: State, c: Choice)
    requires Alone(o, s) && AcquireChoice(o, RecycleSlot(o, s, "a", 0), 0, c)
    ensures Recyclable(o, s, "a", 0, 0, c)
  {
    var s1 := RecycleSlot(o, s, "a", 0);
    SequentialAllocation(o, s);
    RecycleEffect(o, s, "a", 0);
    SweptThenServed(o, s1, "a", 0, c, s1);
    StandbyNeedsNoAddress(o, s1, c.pick);
    ReleasedThenAcquired(o, s, "a", 0, 0, c, s1);
  }

  lemma StandbyNeedsNoAddress(o: Options, s: State, pick: Option<string>)
    requires OptionsOk(o) && CountsOk(o, s) && s.standbyCount > 0 && "a" !in s.leases && PicksLeast(s.leases, pick)
    ensures AcquireSwept(o, s, "a", false, 0, pick).0.failures == s.failures
  {
    assert Standbys(s.leases) != {};
  }

  lemma OnlyClientServed(o: Options, s: State, c: Choice)
    requires Alone(o, s) && Recyclable(o, s, "a", 0, 0, c)
    ensures M.Recycle(o, s, "a", 0, 0, c).result.Ok?
  {
    RecycleRenews(o, s, "a", 0, 0, c);
  }

  lemma OnlyClientsPort(o: Options, s: State, c: Choice)
    requires Alone(o, s) && Recyclable(o, s, "a", 0, 0, c) && M.Recycle(o, s, "a", 0, 0, c).result.Ok?
    ensures M.Recycle(o, s, "a", 0, 0, c).result.value.port == s.leases["a"].port
  {
    assert Standbys(s.leases) == {};
    RecycledPort(o, s, "a", 0, 0, c);
  }

  /** No floor, one port, and a random source that always yields host 5. */
  function Stuck(): Options {
    Options(0, 1, 0, 0, 0, 1, 1, false, n => Some(5))
  }

  /** With it the only client of a new pool is recycled and has its address back. */
  lemma RecycleKeepsTheAddress(prefix: Cidr) returns (e: Event, c: Choice)
    requires Accepted(prefix)
    ensures NewPool(Stuck(), Some(prefix), 0).Ok?
    ensures var o, s0 := Stuck(), NewPool(Stuck(), Some(prefix), 0).value;
            && Inv(o, s0) && Allowed(o, s0, e)
            && var s := Next(o, s0, e);
               && Recyclable(o, s, "a", 0, 0, c)
               && var r := M.Recycle(o, s, "a", 0, 0, c).result; r.Ok? && r.value.ipv6 == s.leases["a"].ipv6
  {
    var o := Stuck();
    ManyHosts(prefix);
    var g: Network := NewGenerator(Some(prefix)).value;
    EmptyKeeps(o, g);
    var s0 := Empty(o, g);
    assert NewPool(o, Some(prefix), 0).value == s0;
    e := StuckServes(o, s0);
    c := StuckRecycles(o, Next(o, s0, e));
  }

  /** With nothing leased at host 5, the next allocation yields it. */
  lemma StuckDraws(o: Options, s: State)
    requires o == Stuck() && s.generator.hostMax > 5 && !InUse(s.leases, s.generator.base + 5)
    ensures DrawnNext(o, s, Budget(o), s.generator.base + 5) && Allocate(o, s).0 == Ok(s.generator.base + 5)
  {
    assert FirstUnused(o, s, 0, s.generator.base + 5);
    RandomAllocation(o, s, Budget(o), s.generator.base + 5);
  }

  lemma StuckServes(o: Options, s: State) returns (e: Event)
    requires o == Stuck() && Inv(o, s) && s.generator.hostMax > 5 && s.leases == map[] && s.standbyCount == 0
    ensures Allowed(o, s, e)
    ensures var s' := Next(o, s, e);
            && Inv(o, s') && s'.generator == s.generator && s'.leases.Keys == {"a"} && s'.standbyCount == 0
            && s'.leases["a"].role == Client && !s'.leases["a"].persistent
            && s'.leases["a"].ipv6 == s.generator.base + 5
  {
    NotAPoolId("a");
    var pick := LeasePool.SomeLeast(s.leases);
    e := Event.Acquire("a", false, 0, Choice([], pick));
    StuckDraws(o, s);
    AcquireSweptEffect(o, s, "a", false, 0, pick);
  }

  lemma StuckRecycles(o: Options, s: State) returns (c: Choice)
    requires o == Stuck() && Inv(o, s) && s.generator.hostMax > 5 && s.leases.Keys == {"a"} && s.standbyCount == 0
    requires s.leases["a"].role == Client && !s.leases["a"].persistent && s.leases["a"].ipv6 == s.generator.base + 5
    ensures Recyclable(o, s, "a", 0, 0, c)
    ensures var r := M.Recycle(o, s, "a", 0, 0, c).result; r.Ok? && r.value.ipv6 == s.leases["a"].ipv6
  {
    var s1 := Drop(s, "a");
    NoFloorDrops(o, s, "a", 0);
    DropKeeps(o, s, "a");
    var pick := LeasePool.SomeLeast(s1.leases);
    c := Choice([], pick);
    StuckDraws(o, s1);
    assert |s.leases| == |s.leases.Keys| == 1;
    RecycleRenews(o, s, "a", 0, 0, c);
    RecycledAddress(o, s, "a", 0, 0, c);
  }

  // ---------- Releasing a standby ----------

  /** Floor two, capacity three, four ports: three Acquires fill the pool, the release of a
      client turns it into a standby, and releasing that standby leaves four leases. */
  lemma StandbyReleaseExceeds(prefix: Cidr) returns (es: seq<Event>, s: State, k: string)
    requires Accepted(prefix)
    ensures Reached(Small(2, 3, 0, 4), prefix, es, s) && k in s.leases && s.leases[k].role == Standby
    ensures |s.leases| == 3 && |RecycleSlot(Small(2, 3, 0, 4), s, k, 0).leases| == 4
  {
    var o := Small(2, 3, 0, 4);
    NewPoolTopsUp(o, prefix);
    var s0 := NewPool(o, Some(prefix), 0).value;
    var first, second, third := ThreeServed(o, s0);
    var s3 := Next(o, Next(o, Next(o, s0, first), second), third);
    var fourth := Event.Release("a", 0);
    RunOfFour(o, s0, first, second, third, fourth);
    es, s := [first, second, third, fourth], Next(o, s3, fourth);
    k := FullRelease(o, s3);
  }

  lemma ThreeServed(o: Options, s: State) returns (first: Event, second: Event, third: Event)
    requires o == Small(2, 3, 0, 4) && Roomy(o, s, 103) && Clients(s.leases) == {} && |s.leases| == s.standbyCount == 2
    ensures Allowed(o, s, first) && Allowed(o, Next(o, s, first), second)
    ensures Allowed(o, Next(o, Next(o, s, first), second), third)
    ensures var s' := Next(o, Next(o, Next(o, s, first), second), third);
            && Roomy(o, s', 100) && s'.failures == s.failures && |s'.leases| == 3 && s'.standbyCount == 0
            && "a" in s'.leases && s'.leases["a"].role == Client
  {
    FreshName(s, "a");
    FreshName(s, "b");
    FreshName(s, "c");
    first := Served(o, s, "a", 102);
    var s1 := Next(o, s, first);
    second := Served(o, s1, "b", 101);
    var s2 := Next(o, s1, second);
    third := Served(o, s2, "c", 100);
  }

  lemma RunOfFour(o: Options, s: State, first: Event, second: Event, third: Event, fourth: Event)
    requires OptionsOk(o) && Allowed(o, s, first) && Allowed(o, Next(o, s, first), second)
    requires Allowed(o, Next(o, Next(o, s, first), second), third)
    requires Allowed(o, Next(o, Next(o, Next(o, s, first), second), third), fourth)
    ensures var es := [first, second, third, fourth];
            Legal(o, s, es) && Run(o, s, es) == Next(o, Next(o, Next(o, Next(o, s, first), second), third), fourth)
  {
    var es, s2 := [first, second, third, fourth], Next(o, Next(o, s, first), second);
    RunOfTwo(o, s2, third, fourth);
    assert es[1..] == [second, third, fourth] && es[1..][1..] == [third, fourth];
    assert Legal(o, Next(o, s, first), es[1..]);
  }

  /** A client is released into a standby; releasing that one as well tops up by two. */
  lemma FullRelease(o: Options, s: State) returns (k: string)
    requires o == Small(2, 3, 0, 4) && Roomy(o, s, 100) && |s.leases| == 3 && s.standbyCount == 0
    requires "a" in s.leases && s.leases["a"].role == Client
    ensures var s' := M.Release(o, s, "a", 0).state;
            && s'.failures == s.failures && |s'.leases| == 3 && k in s'.leases && s'.leases[k].role == Standby
            && |RecycleSlot(o, s', k, 0).leases| == 4
  {
    var s' := RecycleSlot(o, s, "a", 0);
    SequentialAllocation(o, s);
    RecycleEffect(o, s, "a", 0);
    assert Standbys(s'.leases) != {};
    k :| k in Standbys(s'.leases);
    OneForTwo(o, s', k);
  }

  lemma OneForTwo(o: Options, s: State, k: string)
    requires o == Small(2, 3, 0, 4) && Roomy(o, s, 99) && |s.leases| == 3 && s.standbyCount == 1
    requires k in s.leases && s.leases[k].role == Standby
    ensures |RecycleSlot(o, s, k, 0).leases| == 4
  {
    DropKeeps(o, s, k);
    var s1 := Drop(s, k);
    TopsUp(o, s1, 0);
    TopUpAdds(o, s1, 0);
  }

  // ---------- Taking a generated id ----------

  /** The client that called itself by the next generated id is served; and when the standby k
      is released, the standby that replaces it is filed under that id: the client's lease
      has become a standby's, and its port is neither free nor leased. */
  ghost predicate LosesItsLease(o: Options, s: State, s1: State, k: string)
    requires OptionsOk(o)
  {
    var id := PoolId(s.standbySeq + 1);
    && !Safe(s, id) && id in s1.leases && s1.leases[id].role == Client && k in s1.leases && s1.leases[k].role == Standby
    && var s2 := M.Release(o, s1, k, 0).state;
       id in s2.leases && Overwritten(s1, s2, id, s2.leases[id].ipv6)
  }

  /** Floor two, capacity three: it happens to the first client of a new pool. */
  lemma ClientOverwritten(prefix: Cidr) returns (c: Choice, k: string)
    requires Accepted(prefix)
    ensures NewPool(Small(2, 3, 0, 4), Some(prefix), 0).Ok?
    ensures var o, s := Small(2, 3, 0, 4), NewPool(Small(2, 3, 0, 4), Some(prefix), 0).value;
            AcquireChoice(o, s, 0, c) && LosesItsLease(o, s, M.Acquire(o, s, PoolId(3), false, 0, c).state, k)
  {
    var o := Small(2, 3, 0, 4);
    NewPoolTopsUp(o, prefix);
    c, k := TakesGeneratedId(o, NewPool(o, Some(prefix), 0).value);
  }

  lemma TakesGeneratedId(o: Options, s: State) returns (c: Choice, k: string)
    requires o == Small(2, 3, 0, 4) && Roomy(o, s, 10) && |s.leases| == s.standbyCount == s.standbySeq == 2
    ensures AcquireChoice(o, s, 0, c) && LosesItsLease(o, s, M.Acquire(o, s, PoolId(3), false, 0, c).state, k)
  {
    var pick := LeasePool.SomeLeast(s.leases);
    c := Choice([], pick);
    assert Standbys(s.leases) != {};
    var s1 := Claim(s, pick.value, PoolId(3), false, 0);
    assert M.Acquire(o, s, PoolId(3), false, 0, c).state == s1;
    k := OtherStandby(s, pick.value, s1);
    GeneratedIdClaimed(o, s, pick.value);
    TakenIdOverwritten(o, s1, k);
  }

  /** The claim itself harms nothing but the keys. */
  lemma GeneratedIdClaimed(o: Options, s: State, key: string)
    requires o == Small(2, 3, 0, 4) && Inv(o, s) && s.standbySeq == 2 && key in s.leases
    requires s.leases[key].role == Standby
    ensures var s1 := Claim(s, key, PoolId(3), false, 0);
            && PortsOk(o, s1) && AddressesOk(s1) && IndicesOk(o, s1) && |s1.leases| == |s.leases|
            && PoolId(3) in s1.leases && s1.leases[PoolId(3)].role == Client
  {
    var s1 := Claim(s, key, PoolId(3), false, 0);
    assert PoolId(3) !in s.leases;
    ClaimMoves(s, key, PoolId(3), false, 0);
    ReplaceKeepsPorts(o, s, key, s1.leases[PoolId(3)], s1);
    ClaimKeepsAddresses(s, key, PoolId(3));
  }

  lemma ClaimKeepsAddresses(s: State, key: string, id: string)
    requires AddressesOk(s) && key in s.leases && id !in s.leases
    ensures AddressesOk(Claim(s, key, id, false, 0))
  {
    var s1 := Claim(s, key, id, false, 0);
    assert forall i :: i in s1.leases ==> s1.leases[i].ipv6 == s.leases[Origin(key, s1.leases[id], i)].ipv6;
  }

  lemma OtherStandby(s0: State, key: string, s: State) returns (k: string)
    requires KeysOk(s0) && |Standbys(s0.leases)| == 2 && key in s0.leases && s0.leases[key].role == Standby
    requires s0.standbySeq == 2
    requires s == Claim(s0, key, PoolId(3), false, 0)
    ensures k in s.leases && s.leases[k].role == Standby && k != PoolId(3)
  {
    assert |Standbys(s0.leases) - {key}| == 1;
    k :| k in Standbys(s0.leases) - {key};
    assert PoolId(3) !in s0.leases;
  }

  lemma TakenIdOverwritten(o: Options, s: State, k: string)
    requires o == Small(2, 3, 0, 4) && PortsOk(o, s) && AddressesOk(s) && IndicesOk(o, s) && |s.leases| == 2
    requires s.nextIndex + 2 < s.generator.hostMax && s.standbySeq == 2 && s.standbyCount == 1
    requires k in s.leases && s.leases[k].role == Standby && k != PoolId(3) && PoolId(3) in s.leases
    ensures var s' := M.Release(o, s, k, 0).state;
            PoolId(3) in s'.leases && Overwritten(s, s', PoolId(3), s'.leases[PoolId(3)].ipv6)
  {
    StandbysRemove(s.leases, k);
    DropKeepsPorts(o, s, k);
    var s1 := Drop(s, k);
    var s2 := FirstTopUp(o, s1, PoolId(3));
    var s3 := SecondTopUp(o, s1, s2, PoolId(3));
    TopUpOfTwo(o, s1, s2, s3);
  }

  /** The first standby of a top-up is filed under the taken id. */
  lemma FirstTopUp(o: Options, s: State, id: string) returns (s': State)
    requires o == Small(2, 3, 0, 4) && PortsOk(o, s) && AddressesOk(s) && IndicesOk(o, s) && |s.leases| == 1
    requires s.nextIndex + 1 < s.generator.hostMax && id == PoolId(s.standbySeq + 1) && id in s.leases
    ensures NewStandby(o, s, 0) == (true, s') && s'.standbyCount == s.standbyCount + 1
    ensures s'.standbySeq == s.standbySeq + 1
    ensures id in s'.leases && Overwritten(s, s', id, s'.leases[id].ipv6) && |s'.freePorts| > 0
    ensures AddressesOk(s') && IndicesOk(o, s') && s'.generator == s.generator && s'.nextIndex == s.nextIndex + 1
  {
    SequentialAllocation(o, s);
    var (r, s1) := Allocate(o, s);
    s' := Seeded(o, s1, r.value, 0);
    NewStandbySeeds(o, s);
    SeededOnTaken(o, s1, r.value, id);
  }

  lemma NewStandbySeeds(o: Options, s: State)
    requires OptionsOk(o) && |s.freePorts| > 0 && Allocate(o, s).0.Ok?
    ensures NewStandby(o, s, 0) == (true, Seeded(o, Allocate(o, s).1, Allocate(o, s).0.value, 0))
  {
  }

  lemma SeededOnTaken(o: Options, s: State, a: Address, id: string)
    requires o == Small(2, 3, 0, 4) && PortsOk(o, s) && AddressesOk(s) && |s.leases| == 1
    requires !InUse(s.leases, a) && InPrefix(s.generator, a) && a in s.issued
    requires id == PoolId(s.standbySeq + 1) && id in s.leases
    ensures var s' := Seeded(o, s, a, 0);
            id in s'.leases && Overwritten(s, s', id, s'.leases[id].ipv6) && |s'.freePorts| > 0 && AddressesOk(s')
  {
    StandbyOverwrites(o, s, a, 0);
    SeededAddresses(o, s, a);
  }

  lemma SeededAddresses(o: Options, s: State, a: Address)
    requires AddressesOk(s) && !InUse(s.leases, a) && InPrefix(s.generator, a) && a in s.issued && |s.freePorts| > 0
    ensures AddressesOk(Seeded(o, s, a, 0))
  {
  }

  /** The next one changes nothing about that. */
  lemma SecondTopUp(o: Options, s: State, s1: State, id: string) returns (s': State)
    requires o == Small(2, 3, 0, 4) && AddressesOk(s1) && IndicesOk(o, s1) && s1.nextIndex + 1 < s1.generator.hostMax
    requires id == PoolId(s1.standbySeq) && id in s1.leases && Overwritten(s, s1, id, s1.leases[id].ipv6)
    requires |s1.freePorts| > 0
    ensures NewStandby(o, s1, 0) == (true, s') && s'.standbyCount == s1.standbyCount + 1
    ensures id in s'.leases && Overwritten(s, s', id, s'.leases[id].ipv6)
  {
    NextIdIsSafe(s1, s1.standbySeq);
    SequentialAllocation(o, s1);
    var (r, s2) := Allocate(o, s1);
    s' := Seeded(o, s2, r.value, 0);
    assert forall i :: i in s'.leases ==>
           s'.leases[i].port == s1.freePorts[0] || (i in s1.leases && s'.leases[i].port == s1.leases[i].port);
  }

  // ---------- The agreement of listeners and leases ----------

  /** The program with a new pool, before anything is asked of it. */
  function Booted(o: Options, prefix: Cidr): S.System
    requires prefix.address < Pow2(Width) && NewPool(o, Some(prefix), 0).Ok?
  {
    S.System(NewPool(o, Some(prefix), 0).value, map[])
  }

  /** createLease on the id of a ready standby starts a listener without a client. */
  lemma CreateForStandby(prefix: Cidr) returns (k: string)
    requires Accepted(prefix)
    ensures NewPool(Small(1, 2, 0, 3), Some(prefix), 0).Ok?
    ensures var o := Small(1, 2, 0, 3);
            var sys := Booted(o, prefix);
            && Inv(o, sys.pool) && S.Agreement(sys) && k in sys.pool.leases && Safe(sys.pool, k)
            && !S.Agreement(S.CreateLease(o, sys, k, false, 0, Choice([], None), true, 0).0)
  {
    var o := Small(1, 2, 0, 3);
    NewPoolTopsUp(o, prefix);
    var sys := Booted(o, prefix);
    assert Standbys(sys.pool.leases) != {};
    k :| k in Standbys(sys.pool.leases);
    S.CreateAgrees(o, sys, k, false, 0, Choice([], None), true, 0);
  }

  /** Without a floor and with an idle timeout of one, a client called port-2 listens on
      port 1. Once it is idle, starting the always-on port 2 serves that name on port 2,
      and its listener stays on port 1. */
  lemma AlwaysOnClashes(prefix: Cidr) returns (create: Choice, start: Choice)
    requires Accepted(prefix)
    ensures NewPool(Small(0, 2, 1, 2), Some(prefix), 0).Ok?
    ensures var o := Small(0, 2, 1, 2);
            var sys0 := Booted(o, prefix);
            var e := S.Create(PortId(2), false, 0, create, true, 0);
            && Inv(o, sys0.pool) && S.Agreement(sys0) && S.Allowed(o, sys0, e)
            && var sys := S.Next(o, sys0, e);
               && sys.listeners == map[PortId(2) := 1]
               && AcquirePortChoice(o, sys.pool, 2, 1, start) && S.NameTaken(o, sys, 2, 1)
               && !S.Agreement(S.AlwaysOn(o, sys, 2, 1, start, true).0)
  {
    var o := Small(0, 2, 1, 2);
    EmptyPool(prefix);
    var sys0 := Booted(o, prefix);
    create := FirstListener(o, sys0);
    start := Clash(o, S.Next(o, sys0, S.Create(PortId(2), false, 0, create, true, 0)));
  }

  lemma EmptyPool(prefix: Cidr)
    requires Accepted(prefix)
    ensures NewPool(Small(0, 2, 1, 2), Some(prefix), 0).Ok?
    ensures var s := NewPool(Small(0, 2, 1, 2), Some(prefix), 0).value;
            Roomy(Small(0, 2, 1, 2), s, 10) && s.leases == map[] && s.standbyCount == 0 && s.freePorts == [1, 2]
  {
    NewPoolTopsUp(Small(0, 2, 1, 2), prefix);
  }

  /** createLease for port-2 on the empty program: a client and a listener on port 1. */
  lemma FirstListener(o: Options, sys: S.System) returns (c: Choice)
    requires o == Small(0, 2, 1, 2) && Roomy(o, sys.pool, 10) && sys.listeners == map[]
    requires sys.pool.leases == map[] && sys.pool.standbyCount == 0 && sys.pool.freePorts == [1, 2]
    ensures var e := S.Create(PortId(2), false, 0, c, true, 0);
            && S.Allowed(o, sys, e)
            && var sys' := S.Next(o, sys, e);
               && Roomy(o, sys'.pool, 5) && S.Agreement(sys') && sys'.listeners == map[PortId(2) := 1]
               && sys'.pool.leases.Keys == {PortId(2)} && sys'.pool.freePorts == [2]
               && var l := sys'.pool.leases[PortId(2)];
                  l.role == Client && l.port == 1 && !l.persistent && l.lastUsedAt == 0
  {
    PortIdIsNoPoolId(2);
    var pick := LeasePool.SomeLeast(sys.pool.leases);
    c := Choice([], pick);
    FirstClient(o, sys.pool, PortId(2), c);
    ListenerForNew(o, sys, PortId(2), c);
  }

  lemma ListenerForNew(o: Options, sys: S.System, id: string, c: Choice)
    requires OptionsOk(o) && sys.listeners == map[] && id != "" && id !in sys.pool.leases
    requires var step := M.Acquire(o, sys.pool, id, false, 0, c);
             && step.released == [] && step.result.Ok?
             && step.state.leases == map[id := step.result.value] && step.result.value.port == 1
    ensures S.CreateLease(o, sys, id, false, 0, c, true, 0).0 ==
              S.System(M.Acquire(o, sys.pool, id, false, 0, c).state, map[id := 1])
  {
  }

  /** The first client of an empty pool gets the first port. */
  lemma FirstClient(o: Options, s: State, id: string, c: Choice)
    requires o == Small(0, 2, 1, 2) && Roomy(o, s, 10) && s.leases == map[] && s.standbyCount == 0
    requires s.freePorts == [1, 2]
    requires id != "" && Safe(s, id) && PicksLeast(s.leases, c.pick) && c.order == []
    ensures AcquireChoice(o, s, 0, c)
    ensures var step := M.Acquire(o, s, id, false, 0, c);
            && step.released == [] && step.result.Ok? && Roomy(o, step.state, 5)
            && step.state.leases == map[id := step.result.value] && step.state.freePorts == [2]
            && step.result.value.role == Client && step.result.value.port == 1
            && !step.result.value.persistent && step.result.value.lastUsedAt == 0
  {
    SequentialAllocation(o, s);
    AcquireSweptEffect(o, s, id, false, 0, c.pick);
  }

  lemma Clash(o: Options, sys: S.System) returns (c: Choice)
    requires o == Small(0, 2, 1, 2) && Roomy(o, sys.pool, 5) && S.Agreement(sys)
    requires sys.listeners == map[PortId(2) := 1] && sys.pool.leases.Keys == {PortId(2)} && sys.pool.freePorts == [2]
    requires var l := sys.pool.leases[PortId(2)]; l.role == Client && l.port == 1 && !l.persistent && l.lastUsedAt == 0
    ensures AcquirePortChoice(o, sys.pool, 2, 1, c) && S.NameTaken(o, sys, 2, 1)
    ensures !S.Agreement(S.AlwaysOn(o, sys, 2, 1, c, true).0)
  {
    c := PortTwoFree(o, sys.pool, PortId(2));
    OneSwept(o, sys.pool, PortId(2));
    S.AlwaysOnNameTaken(o, sys, 2, 1, c, true);
  }

  /** Sweeping the only lease leaves port 2 free for its name, and an address to go with it. */
  lemma PortTwoFree(o: Options, s: State, id: string) returns (c: Choice)
    requires o == Small(0, 2, 1, 2) && Roomy(o, s, 5) && s.leases.Keys == {id} && s.freePorts == [2] && id != ""
    requires s.leases[id].role == Client && !s.leases[id].persistent && s.leases[id].lastUsedAt == 0
    ensures AcquirePortChoice(o, s, 2, 1, c)
    ensures M.AcquirePort(o, s, id, 2, true, 1, c).state.failures == s.failures
  {
    var mid := M.ReleaseIdle(o, s, [id], 1).0;
    var pick := LeasePool.SomeOnPort(mid.leases, 2);
    c := Choice([id], pick);
    OneSwept(o, s, id);
    SequentialAllocation(o, mid);
  }

  lemma OneSwept(o: Options, s: State, id: string)
    requires o == Small(0, 2, 1, 2) && Roomy(o, s, 5) && s.leases.Keys == {id} && s.freePorts == [2]
    requires s.leases[id].role == Client && !s.leases[id].persistent && s.leases[id].lastUsedAt == 0
    ensures Idle(o, s, 1) == {id} && SweepRuns(o, s)
    ensures M.ReleaseIdle(o, s, [id], 1).0 == Drop(s, id) && Roomy(o, Drop(s, id), 5)
  {
    assert |s.leases| == |s.leases.Keys| == 1;
    assert Idle(o, s, 1) == {id};
    assert [id][..0] == [];
    assert Sweep(o, s, [id][..0], 1) == (s, []);
    assert Sweep(o, s, [id], 1) == Visit(o, (s, []), id, 1);
    DropKeeps(o, s, id);
  }
}
