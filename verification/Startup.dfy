/** Starting the always-on ports, with the rollback of startSOCKSListeners. */
module Startup {
  import opened Wrappers
  import opened Ids
  import opened Ipv6Addr
  import opened PoolInvariant
  import opened PoolSteps
  import opened PoolReassign
  import opened PoolModel
  import opened PoolRuns
  import opened PoolTheorems
  import opened Service
  import C = Config
  import M = PoolModel

  /** One always-on port, and what its round meets: the time, the map order and whether
      the listener can be bound. */
  datatype Round = Round(port: nat, now: int, c: Choice, bound: bool)

  function ReleaseAndHook(o: Options, sys: System, id: string, now: int): System
    requires OptionsOk(o)
  {
    var step := M.Release(o, sys.pool, id, now);
    System(step.state, Hook(step.state, sys.listeners, step.released))
  }

  /** Release the created leases, the last one first. */
  function ReleaseCreated(o: Options, sys: System, created: seq<string>, undo: nat -> int): System
    requires OptionsOk(o)
    decreases |created|
  {
    if |created| == 0 then sys
    else
      var n := |created| - 1;
      ReleaseCreated(o, ReleaseAndHook(o, sys, created[n], undo(n)), created[..n], undo)
  }

  /** Stop what was started, then release what was created. */
  function Rollback(o: Options, sys: System, started: seq<string>, created: seq<string>, undo: nat -> int): System
    requires OptionsOk(o)
  {
    ReleaseCreated(o, sys.(listeners := sys.listeners - Elements(started)), created, undo)
  }

  /** The loop over the always-on ports: the program, what was started and created so far,
      and whether the loop is still running. */
  datatype Progress = Progress(sys: System, started: seq<string>, created: seq<string>, ok: bool)

  /** A lease that did not exist before its round is remembered. */
  function CreatedBy(o: Options, sys: System, round: Round, created: seq<string>): seq<string>
    requires OptionsOk(o)
  {
    var id := PortId(round.port);
    var acquired := M.AcquirePort(o, sys.pool, id, round.port, true, round.now, round.c).result.Ok?;
    if acquired && id !in sys.pool.leases then created + [id] else created
  }

  /** One port; a failure undoes everything. */
  function StartRound(o: Options, p: Progress, round: Round, undo: nat -> int): Progress
    requires OptionsOk(o)
  {
    var id := PortId(round.port);
    var created := CreatedBy(o, p.sys, round, p.created);
    var (sys, ok) := AlwaysOn(o, p.sys, round.port, round.now, round.c, round.bound);
    if ok then Progress(sys, p.started + [id], created, true)
    else Progress(Rollback(o, sys, p.started, created, undo), p.started, created, false)
  }

  /** The rounds in order, until one fails. */
  function StartPorts(o: Options, sys: System, rounds: seq<Round>, undo: nat -> int): Progress
    requires OptionsOk(o)
  {
    if |rounds| == 0 then Progress(sys, [], [], true)
    else
      var p := StartPorts(o, sys, rounds[..|rounds| - 1], undo);
      if p.ok then StartRound(o, p, rounds[|rounds| - 1], undo) else p
  }

  ghost predicate RoundOk(o: Options, sys: System, round: Round)
    requires OptionsOk(o)
  {
    AcquirePortChoice(o, sys.pool, round.port, round.now, round.c)
  }

  /** The map order of every round that is reached is a possible one. */
  ghost predicate RoundsOk(o: Options, sys: System, rounds: seq<Round>, undo: nat -> int)
    requires OptionsOk(o)
  {
    |rounds| > 0 ==>
      && RoundsOk(o, sys, rounds[..|rounds| - 1], undo)
      && var p := StartPorts(o, sys, rounds[..|rounds| - 1], undo);
         p.ok ==> RoundOk(o, p.sys, rounds[|rounds| - 1])
  }

  /** After some rounds: the clients are exactly the leases of the started ports, each
      persistent, on its own port and with its own listener. */
  ghost predicate StartedOk(o: Options, sys: System, started: seq<string>) {
    && Inv(o, sys.pool)
    && Floor(o, sys.pool)
    && Distinct(started)
    && Clients(sys.pool.leases) == sys.listeners.Keys == Elements(started)
    && Serving(sys)
  }

  /** Each listener is the one of its port, and its lease is persistent. */
  ghost predicate Serving(sys: System) {
    forall id :: id in sys.listeners ==>
      sys.listeners[id] > 0 && id == PortId(sys.listeners[id]) && Pinned(sys.pool, id, sys.listeners[id])
  }

  /** With persistent clients only, a sweep does nothing. */
  lemma NothingIdle(o: Options, s: State, order: seq<string>, now: int)
    requires OptionsOk(o) && Inv(o, s)
    requires forall k :: k in s.leases && s.leases[k].role == Client ==> s.leases[k].persistent
    ensures M.ReleaseIdle(o, s, order, now) == (s, [])
  {
    if SweepRuns(o, s) {
      SweepEffect(o, s, order, now);
      assert Idle(o, s, now) == {};
      QuietSweep(o, s, order, now);
    }
  }

  /** A round whose allocation does not fail acquires its port. */
  lemma RoundAcquires(o: Options, sys: System, started: seq<string>, round: Round)
    requires OptionsOk(o) && o.portStart != 0 && StartedOk(o, sys, started)
    requires o.portStart <= round.port <= o.portEnd && PortId(round.port) !in started
    requires |sys.pool.leases| < o.maxLeases
    requires AcquirePortChoice(o, sys.pool, round.port, round.now, round.c)
    requires M.AcquirePort(o, sys.pool, PortId(round.port), round.port, true, round.now, round.c).state.failures
             == sys.pool.failures
    ensures var id := PortId(round.port);
            var step := M.AcquirePort(o, sys.pool, id, round.port, true, round.now, round.c);
            && step.result.Ok? && step.released == [] && id !in sys.pool.leases
            && StartedOk(o, System(step.state, sys.listeners[id := round.port]), started + [id])
  {
    var s, id := sys.pool, PortId(round.port);
    assert id !in s.leases by {
      PortIdIsNoPoolId(round.port);
      assert id !in Elements(started) && id !in Clients(s.leases);
    }
    assert Safe(s, id) by {
      PortIdIsNoPoolId(round.port);
    }
    assert forall k :: k in s.leases && s.leases[k].role == Client ==> k in Clients(s.leases);
    NothingIdle(o, s, round.c.order, round.now);
    var step := M.AcquirePort(o, s, id, round.port, true, round.now, round.c);
    assert (step.state, step.result) == AcquirePortSwept(o, s, id, round.port, true, round.now, round.c.pick);
    forall k | k in s.leases && s.leases[k].role == Client ensures s.leases[k].port != round.port {
      assert k in Elements(started) && k == PortId(s.leases[k].port);
    }
    AcquirePortExact(o, s, id, round.port, true, round.now, round.c.pick);
    AcquirePortSweptEffect(o, s, id, round.port, true, round.now, round.c.pick);
    FreshIsPersistent(o, s, id, round.port, true, round.now, round.c.pick);
    RoundStarted(o, sys, started, id, round.port, step.state, step.result);
  }

  lemma FreshIsPersistent(o: Options, s: State, id: string, port: int, persistent: bool, now: int, pick: Option<string>)
    requires OptionsOk(o) && id !in s.leases
    ensures var r := AcquirePortSwept(o, s, id, port, persistent, now, pick).1;
            r.Ok? ==> r.value.persistent == persistent
  {
  }

  lemma RoundStarted(o: Options, sys: System, started: seq<string>, id: string, port: nat, s': State,
    r: Result<Lease, Error>)
    requires StartedOk(o, sys, started) && id !in started && id !in sys.pool.leases && port > 0 && id == PortId(port)
    requires AcquireEffect(o, sys.pool, id, s', r) && r.Ok? && r.value.port == port && r.value.persistent
    ensures StartedOk(o, System(s', sys.listeners[id := port]), started + [id])
  {
    assert id !in sys.listeners by {
      assert id !in Elements(started);
    }
    OneMoreClient(sys, started, id, port, s');
    StillServing(sys, id, port, s');
    assert Floor(o, s') by {
      assert |s'.leases| >= |sys.pool.leases|;
    }
  }

  lemma OneMoreClient(sys: System, started: seq<string>, id: string, port: nat, s': State)
    requires Clients(sys.pool.leases) == sys.listeners.Keys == Elements(started) && id !in sys.pool.leases
    requires KeepsOthers(sys.pool, s', id) && id in s'.leases && s'.leases[id].role == Client
    ensures Clients(s'.leases) == sys.listeners[id := port].Keys == Elements(started + [id])
  {
    assert Elements(started + [id]) == Elements(started) + {id};
    assert Clients(s'.leases) == Clients(sys.pool.leases) + {id};
    assert sys.listeners[id := port].Keys == sys.listeners.Keys + {id};
  }

  lemma StillServing(sys: System, id: string, port: nat, s': State)
    requires Serving(sys) && id !in sys.listeners && port > 0 && id == PortId(port)
    requires KeepsOthers(sys.pool, s', id) && Pinned(s', id, port)
    ensures Serving(System(s', sys.listeners[id := port]))
  {
    forall x | x in sys.listeners ensures Pinned(s', x, sys.listeners[x]) {
      assert s'.leases[x] == sys.pool.leases[x];
    }
  }

  // ---------- Room ----------

  /** How many of the ports are at or above `first`. */
  function Above(ports: seq<int>, first: int): nat {
    if |ports| == 0 then 0
    else Above(ports[..|ports| - 1], first) + if ports[|ports| - 1] >= first then 1 else 0
  }

  /** The standbys of a new pool have the lowest ports; an always-on port up there takes one
      over, any other adds a lease. Each port finds a lease fewer than the capacity. */
  ghost predicate HasRoom(o: Options, ports: seq<int>) {
    forall i :: 0 <= i < |ports| ==> o.minLeases + Above(ports[..i], o.portStart + o.minLeases) < o.maxLeases
  }

  lemma HasRoomNext(o: Options, ports: seq<int>, port: int)
    ensures HasRoom(o, ports + [port]) <==>
              HasRoom(o, ports) && o.minLeases + Above(ports, o.portStart + o.minLeases) < o.maxLeases
    ensures Above(ports + [port], o.portStart + o.minLeases) ==
              Above(ports, o.portStart + o.minLeases) + if port >= o.portStart + o.minLeases then 1 else 0
  {
    var all := ports + [port];
    assert all[..|ports|] == ports;
    assert forall i :: 0 <= i < |ports| ==> all[..i] == ports[..i];
    if HasRoom(o, all) {
      forall i | 0 <= i < |ports| ensures o.minLeases + Above(ports[..i], o.portStart + o.minLeases) < o.maxLeases {
        assert all[..i] == ports[..i];
      }
    }
  }

  /** Where the leases are once `ports` are started: what is free lies above the first
      minLeases ports, and the total has grown by the ports started there. */
  ghost predicate Spread(o: Options, ports: seq<int>, s: State) {
    && (forall p :: o.portStart <= p <= o.portEnd ==>
         (p in s.freePorts <==> p >= o.portStart + o.minLeases && p !in ports))
    && |s.leases| == o.minLeases + Above(ports, o.portStart + o.minLeases)
  }

  lemma RoundSpreads(o: Options, s: State, ports: seq<int>, id: string, port: int, now: int, pick: Option<string>)
    requires OptionsOk(o) && Inv(o, s) && o.portStart != 0 && Spread(o, ports, s) && id !in s.leases
    requires o.portStart <= port <= o.portEnd && port !in ports && PicksOnPort(s.leases, port, pick)
    requires AcquirePortSwept(o, s, id, port, true, now, pick).1.Ok?
    ensures Spread(o, ports + [port], AcquirePortSwept(o, s, id, port, true, now, pick).0)
  {
    HasRoomNext(o, ports, port);
    if pick.Some? {
      ClaimMoves(s, pick.value, id, true, now);
    } else {
      var s1 := Allocate(o, s).1;
      SizePut(s1.leases, AcquirePortSwept(o, s, id, port, true, now, pick).0.leases[id]);
      WithoutAscending(s.freePorts, port);
    }
  }

  /** Topping up takes the ports from the front. */
  lemma {:induction false} TopUpTakesTheFront(o: Options, s: State, now: int)
    requires OptionsOk(o) && o.portStart != 0
    ensures var s' := EnsureStandbys(o, s, now);
            |s'.freePorts| <= |s.freePorts| && s'.freePorts == s.freePorts[|s.freePorts| - |s'.freePorts|..]
    decreases o.minLeases - s.standbyCount
  {
    if s.standbyCount < o.minLeases {
      var (ok, s1) := NewStandby(o, s, now);
      if ok {
        TopUpTakesTheFront(o, s1, now);
      }
    }
  }

  lemma NewPoolSpreads(o: Options, g: Network, now: int)
    requires OptionsOk(o) && o.portStart != 0 && EnsureStandbys(o, Empty(o, g), now).failures == 0
    ensures Spread(o, [], EnsureStandbys(o, Empty(o, g), now))
  {
    var s := Empty(o, g);
    NewPoolSizes(o, g, now);
    TopUpTakesTheFront(o, s, now);
    RangeTail(o.portStart, o.portEnd, o.minLeases);
  }

  lemma NewPoolSizes(o: Options, g: Network, now: int)
    requires OptionsOk(o) && o.portStart != 0 && EnsureStandbys(o, Empty(o, g), now).failures == 0
    ensures var s' := EnsureStandbys(o, Empty(o, g), now);
            |s'.leases| == o.minLeases && |s'.freePorts| == |Empty(o, g).freePorts| - o.minLeases
  {
    var s := Empty(o, g);
    assert Standbys(s.leases) == {};
    EnsureAdds(o, s, now);
    EnsureKeeps(o, s, now);
  }

  lemma RangeTail(first: int, last: int, n: nat)
    requires first != 0 && n <= last - first + 1
    ensures n <= |PortRange(first, last)|
    ensures forall p :: p in PortRange(first, last)[n..] <==> first + n <= p <= last
  {
    var tail := PortRange(first, last)[n..];
    forall p ensures p in tail <==> first + n <= p <= last {
      if first + n <= p <= last {
        assert tail[p - first - n] == p;
      }
    }
  }

  // ---------- Rollback ----------

  /** Releasing every client in reverse order of creation leaves the floor. */
  lemma {:induction false} ReleaseCreatedDrains(o: Options, sys: System, created: seq<string>, undo: nat -> int)
    requires OptionsOk(o) && Inv(o, sys.pool) && Floor(o, sys.pool)
    requires Distinct(created) && Elements(created) == Clients(sys.pool.leases)
    requires ReleaseCreated(o, sys, created, undo).pool.failures == sys.pool.failures
    ensures var sys' := ReleaseCreated(o, sys, created, undo);
            && Clients(sys'.pool.leases) == {} && |sys'.pool.leases| == sys'.pool.standbyCount == o.minLeases
            && sys'.listeners.Keys <= sys.listeners.Keys
    decreases |created|
  {
    if |created| == 0 {
      RolesPartition(sys.pool.leases);
    } else {
      var n := |created| - 1;
      var id := created[n];
      assert id in Elements(created);
      var sys1 := ReleaseAndHook(o, sys, id, undo(n));
      RecycleEffect(o, sys.pool, id, undo(n));
      RecycleFirstCounts(o, sys.pool, id, undo(n));
      CreatedFailures(o, sys1, created[..n], undo);
      ClientsBut(o, sys.pool, sys1.pool, created);
      ReleaseCreatedDrains(o, sys1, created[..n], undo);
    }
  }

  lemma ClientsBut(o: Options, s: State, s1: State, created: seq<string>)
    requires |created| > 0 && Distinct(created) && Elements(created) == Clients(s.leases)
    requires KeysOk(s) && AddsOnlyStandbys(o, s, s1, {created[|created| - 1]})
    ensures Distinct(created[..|created| - 1]) && Elements(created[..|created| - 1]) == Clients(s1.leases)
  {
    var n := |created| - 1;
    assert created == created[..n] + [created[n]] && created[n] !in created[..n];
    assert created[n] in Elements(created);
    GoneStaysGone(o, s, s1, {created[n]}, created[n]);
    assert Clients(s1.leases) == Clients(s.leases) - {created[n]};
    assert Elements(created[..n]) == Elements(created) - {created[n]};
  }

  lemma {:induction false} CreatedFailures(o: Options, sys: System, created: seq<string>, undo: nat -> int)
    requires OptionsOk(o) && Inv(o, sys.pool)
    ensures sys.pool.failures <= ReleaseCreated(o, sys, created, undo).pool.failures
    decreases |created|
  {
    if |created| > 0 {
      var n := |created| - 1;
      if created[n] in sys.pool.leases {
        RecycleEffect(o, sys.pool, created[n], undo(n));
      }
      CreatedFailures(o, ReleaseAndHook(o, sys, created[n], undo(n)), created[..n], undo);
    }
  }

  /** What a started program looks like, and what a rolled-back one does. */
  ghost predicate AllServed(sys: System, rounds: seq<Round>) {
    forall i :: 0 <= i < |rounds| ==>
      var id := PortId(rounds[i].port);
      Pinned(sys.pool, id, rounds[i].port) && id in sys.listeners && sys.listeners[id] == rounds[i].port
  }

  ghost predicate RolledBack(o: Options, sys: System) {
    && Clients(sys.pool.leases) == {}
    && |sys.pool.leases| == sys.pool.standbyCount == o.minLeases
    && sys.listeners == map[]
  }

  ghost predicate PortsWanted(o: Options, rounds: seq<Round>) {
    && (forall i :: 0 <= i < |rounds| ==> o.portStart <= rounds[i].port <= o.portEnd)
    && (forall i, j :: 0 <= i < j < |rounds| ==> rounds[i].port != rounds[j].port)
  }

  lemma RoundFailures(o: Options, sys: System, round: Round)
    requires OptionsOk(o) && Inv(o, sys.pool) && AcquirePortChoice(o, sys.pool, round.port, round.now, round.c)
    ensures var s' := AlwaysOn(o, sys, round.port, round.now, round.c, round.bound).0.pool;
            && s' == M.AcquirePort(o, sys.pool, PortId(round.port), round.port, true, round.now, round.c).state
            && Inv(o, s') && sys.pool.failures <= s'.failures
  {
    PortIdIsNoPoolId(round.port);
    var mid := AcquirePortParts(o, sys.pool, PortId(round.port), round.port, true, round.now, round.c);
  }

  /** A round that is reached keeps the invariant while the loop runs, and never takes a
      failed allocation back. */
  lemma StartRoundKeeps(o: Options, p: Progress, round: Round, undo: nat -> int)
    requires OptionsOk(o) && Inv(o, p.sys.pool) && RoundOk(o, p.sys, round)
    ensures var q := StartRound(o, p, round, undo);
            p.sys.pool.failures <= q.sys.pool.failures && (q.ok ==> Inv(o, q.sys.pool))
    ensures p.sys.pool.failures <= AlwaysOn(o, p.sys, round.port, round.now, round.c, round.bound).0.pool.failures
              <= StartRound(o, p, round, undo).sys.pool.failures
  {
    RoundFailures(o, p.sys, round);
    var q := StartRound(o, p, round, undo);
    var sys := AlwaysOn(o, p.sys, round.port, round.now, round.c, round.bound).0;
    CreatedFailures(o, sys.(listeners := sys.listeners - Elements(p.started)), q.created, undo);
  }

  lemma {:induction false} StartFailures(o: Options, sys: System, rounds: seq<Round>, undo: nat -> int)
    requires OptionsOk(o) && Inv(o, sys.pool) && RoundsOk(o, sys, rounds, undo)
    ensures var p := StartPorts(o, sys, rounds, undo);
            sys.pool.failures <= p.sys.pool.failures && (p.ok ==> Inv(o, p.sys.pool))
  {
    if |rounds| > 0 {
      StartFailures(o, sys, rounds[..|rounds| - 1], undo);
      var p := StartPorts(o, sys, rounds[..|rounds| - 1], undo);
      if p.ok {
        StartRoundKeeps(o, p, rounds[|rounds| - 1], undo);
      }
    }
  }

  ghost predicate RoundEnds(o: Options, sys: System, round: Round, started: seq<string>)
    requires OptionsOk(o)
  {
    var id := PortId(round.port);
    var (sys1, ok) := AlwaysOn(o, sys, round.port, round.now, round.c, round.bound);
    && M.AcquirePort(o, sys.pool, id, round.port, true, round.now, round.c).result.Ok? && id !in sys.pool.leases
    && ok == round.bound
    && sys1.listeners == (if ok then sys.listeners[id := round.port] else sys.listeners)
    && StartedOk(o, sys1.(listeners := sys.listeners[id := round.port]), started + [id])
  }

  /** One round without a failed allocation, seen from the loop: the lease is acquired
      and created, and only binding decides whether the loop goes on. */
  lemma RoundOutcome(o: Options, sys: System, started: seq<string>, round: Round)
    requires OptionsOk(o) && o.portStart != 0 && StartedOk(o, sys, started)
    requires o.portStart <= round.port <= o.portEnd && PortId(round.port) !in started
    requires |sys.pool.leases| < o.maxLeases
    requires AcquirePortChoice(o, sys.pool, round.port, round.now, round.c)
    requires AlwaysOn(o, sys, round.port, round.now, round.c, round.bound).0.pool.failures == sys.pool.failures
    ensures RoundEnds(o, sys, round, started)
  {
    var id := PortId(round.port);
    RoundFailures(o, sys, round);
    RoundAcquires(o, sys, started, round);
    assert id !in sys.listeners by {
      assert id !in Elements(started);
    }
    RoundEndsSo(o, sys, started, round);
  }

  lemma RoundEndsSo(o: Options, sys: System, started: seq<string>, round: Round)
    requires OptionsOk(o)
    requires var id := PortId(round.port);
             var step := M.AcquirePort(o, sys.pool, id, round.port, true, round.now, round.c);
             && step.result.Ok? && step.released == [] && id !in sys.pool.leases && id !in sys.listeners
             && StartedOk(o, System(step.state, sys.listeners[id := round.port]), started + [id])
    ensures RoundEnds(o, sys, round, started)
  {
    var s' := M.AcquirePort(o, sys.pool, PortId(round.port), round.port, true, round.now, round.c).state;
    assert Hook(s', sys.listeners, []) == sys.listeners;
  }

  lemma RollBackDrains(o: Options, sys: System, started: seq<string>, created: seq<string>, undo: nat -> int)
    requires OptionsOk(o) && Inv(o, sys.pool) && Floor(o, sys.pool)
    requires sys.listeners.Keys == Elements(started)
    requires Distinct(created) && Elements(created) == Clients(sys.pool.leases)
    requires Rollback(o, sys, started, created, undo).pool.failures == sys.pool.failures
    ensures RolledBack(o, Rollback(o, sys, started, created, undo))
  {
    var sys1 := sys.(listeners := sys.listeners - Elements(started));
    assert sys1.listeners.Keys == {};
    ReleaseCreatedDrains(o, sys1, created, undo);
    assert ReleaseCreated(o, sys1, created, undo).listeners.Keys == {};
  }

  function PortIds(rounds: seq<Round>): seq<string> {
    seq(|rounds|, i requires 0 <= i < |rounds| => PortId(rounds[i].port))
  }

  ghost predicate AllBound(rounds: seq<Round>) {
    forall i :: 0 <= i < |rounds| ==> rounds[i].bound
  }

  function Ports(rounds: seq<Round>): seq<int> {
    seq(|rounds|, i requires 0 <= i < |rounds| => rounds[i].port)
  }

  /** Where the loop is after some rounds without a failed allocation. */
  ghost predicate OnCourse(o: Options, rounds: seq<Round>, p: Progress) {
    && (p.ok <==> AllBound(rounds) && HasRoom(o, Ports(rounds)))
    && (if p.ok then
          StartedOk(o, p.sys, PortIds(rounds)) && p.started == p.created == PortIds(rounds) &&
            Spread(o, Ports(rounds), p.sys.pool)
        else RolledBack(o, p.sys))
  }

  lemma NextId(o: Options, before: seq<Round>, round: Round)
    requires PortsWanted(o, before + [round])
    ensures o.portStart <= round.port <= o.portEnd && PortId(round.port) !in PortIds(before)
    ensures PortIds(before + [round]) == PortIds(before) + [PortId(round.port)]
    ensures Ports(before + [round]) == Ports(before) + [round.port as int] && round.port !in Ports(before)
    ensures AllBound(before + [round]) <==> AllBound(before) && round.bound
  {
    var rounds := before + [round];
    assert rounds[|before|] == round;
    forall i | 0 <= i < |before|
      ensures rounds[i] == before[i] && PortIds(before)[i] != PortId(round.port) && Ports(before)[i] != round.port
    {
      assert rounds[i].port != rounds[|before|].port;
      if PortId(before[i].port) == PortId(round.port) {
        PortIdInjective(before[i].port, round.port);
      }
    }
  }

  /** A round that finds no room changes nothing. */
  lemma RoundRefused(o: Options, sys: System, started: seq<string>, round: Round)
    requires OptionsOk(o) && StartedOk(o, sys, started) && PortId(round.port) !in started
    requires |sys.pool.leases| >= o.maxLeases
    ensures AlwaysOn(o, sys, round.port, round.now, round.c, round.bound) == (sys, false)
    ensures CreatedBy(o, sys, round, started) == started
  {
    var s, id := sys.pool, PortId(round.port);
    PortIdIsNoPoolId(round.port);
    assert id !in Elements(started) && id !in Clients(s.leases);
    assert forall k :: k in s.leases && s.leases[k].role == Client ==> k in Clients(s.leases);
    NothingIdle(o, s, round.c.order, round.now);
    assert Hook(s, sys.listeners, []) == sys.listeners;
  }

  lemma LastRound(o: Options, before: seq<Round>, round: Round, p: Progress, undo: nat -> int)
    requires OptionsOk(o) && o.portStart != 0 && PortsWanted(o, before + [round])
    requires OnCourse(o, before, p) && p.ok && RoundOk(o, p.sys, round)
    requires StartRound(o, p, round, undo).sys.pool.failures == p.sys.pool.failures
    ensures OnCourse(o, before + [round], StartRound(o, p, round, undo))
  {
    var ids := PortIds(before);
    NextId(o, before, round);
    HasRoomNext(o, Ports(before), round.port);
    if |p.sys.pool.leases| >= o.maxLeases {
      RoundRefused(o, p.sys, ids, round);
      RollBackDrains(o, p.sys, ids, ids, undo);
    } else {
      RoundWithRoom(o, before, round, p, undo);
    }
  }

  lemma RoundWithRoom(o: Options, before: seq<Round>, round: Round, p: Progress, undo: nat -> int)
    requires OptionsOk(o) && o.portStart != 0 && PortsWanted(o, before + [round]) && |p.sys.pool.leases| < o.maxLeases
    requires OnCourse(o, before, p) && p.ok && RoundOk(o, p.sys, round)
    requires StartRound(o, p, round, undo).sys.pool.failures == p.sys.pool.failures
    ensures OnCourse(o, before + [round], StartRound(o, p, round, undo))
  {
    var ids, id := PortIds(before), PortId(round.port);
    NextId(o, before, round);
    HasRoomNext(o, Ports(before), round.port);
    StartRoundKeeps(o, p, round, undo);
    RoundOutcome(o, p.sys, ids, round);
    if round.bound {
      RoundStaysSpread(o, p.sys, ids, Ports(before), round);
    } else {
      RollBackDrains(o, AlwaysOn(o, p.sys, round.port, round.now, round.c, false).0, ids, ids + [id], undo);
    }
  }

  lemma RoundStaysSpread(o: Options, sys: System, started: seq<string>, ports: seq<int>, round: Round)
    requires OptionsOk(o) && o.portStart != 0 && StartedOk(o, sys, started) && Spread(o, ports, sys.pool)
    requires o.portStart <= round.port <= o.portEnd && PortId(round.port) !in started && round.port !in ports
    requires RoundOk(o, sys, round) && RoundEnds(o, sys, round, started)
    ensures Spread(o, ports + [round.port], AlwaysOn(o, sys, round.port, round.now, round.c, round.bound).0.pool)
  {
    var s, id := sys.pool, PortId(round.port);
    assert forall k :: k in s.leases && s.leases[k].role == Client ==> k in Clients(s.leases);
    NothingIdle(o, s, round.c.order, round.now);
    RoundSpreads(o, s, ports, id, round.port, round.now, round.c.pick);
  }

  /** While no allocation fails: every always-on port is served if every listener can be
      bound and each port finds room, and otherwise everything is rolled back to the
      resident floor. */
  lemma {:induction false} StartOrRollBack(o: Options, sys: System, rounds: seq<Round>, undo: nat -> int)
    requires OptionsOk(o) && o.portStart != 0 && StartedOk(o, sys, []) && Spread(o, [], sys.pool)
    requires PortsWanted(o, rounds) && RoundsOk(o, sys, rounds, undo)
    requires StartPorts(o, sys, rounds, undo).sys.pool.failures == sys.pool.failures
    ensures OnCourse(o, rounds, StartPorts(o, sys, rounds, undo))
  {
    if |rounds| == 0 {
      assert PortIds(rounds) == [] && Ports(rounds) == [];
    } else {
      var before, round := rounds[..|rounds| - 1], rounds[|rounds| - 1];
      assert rounds == before + [round];
      var p := StartPorts(o, sys, before, undo);
      StartFailures(o, sys, before, undo);
      if p.ok {
        StartRoundKeeps(o, p, round, undo);
      }
      StartOrRollBack(o, sys, before, undo);
      if p.ok {
        LastRound(o, before, round, p, undo);
      } else {
        StaysOff(o, before, round);
      }
    }
  }

  lemma StaysOff(o: Options, before: seq<Round>, round: Round)
    requires !(AllBound(before) && HasRoom(o, Ports(before)))
    ensures !(AllBound(before + [round]) && HasRoom(o, Ports(before + [round])))
  {
    if AllBound(before) {
      assert Ports(before + [round]) == Ports(before) + [round.port as int];
      HasRoomNext(o, Ports(before), round.port);
    } else {
      UnboundStays(before, round);
    }
  }

  lemma UnboundStays(before: seq<Round>, round: Round)
    requires !AllBound(before)
    ensures !AllBound(before + [round])
  {
    var i :| 0 <= i < |before| && !before[i].bound;
    assert !(before + [round])[i].bound;
  }

  /** The program as run() sets it up: a new pool and no listener. */
  function Booted(cfg: C.Config, random: nat -> Option<nat>, now: int): (sys: System)
    requires cfg.prefix.Some? ==> cfg.prefix.value.address < Pow2(Width)
    requires NewPool(C.PoolOptions(cfg, random), cfg.prefix, now).Ok?
  {
    System(NewPool(C.PoolOptions(cfg, random), cfg.prefix, now).value, map[])
  }

  /** A per_ipv6 configuration that passed the checks. */
  ghost predicate Checked(cfg: C.Config) {
    C.Sound(cfg) && cfg.mode == C.PerIPv6 && cfg.prefix.value.address < Pow2(Width)
  }

  ghost predicate RoundsOf(cfg: C.Config, rounds: seq<Round>) {
    |rounds| <= |cfg.alwaysOnPorts| && Ports(rounds) == cfg.alwaysOnPorts[..|rounds|]
  }

  lemma BootedStarts(cfg: C.Config, random: nat -> Option<nat>, now: int)
    requires Checked(cfg)
    ensures NewPool(C.PoolOptions(cfg, random), cfg.prefix, now).Ok? && OptionsOk(C.PoolOptions(cfg, random))
    ensures var o, sys := C.PoolOptions(cfg, random), Booted(cfg, random, now);
            && Inv(o, sys.pool)
            && (sys.pool.failures == 0 ==> StartedOk(o, sys, []) && Spread(o, [], sys.pool))
  {
    var o := C.PoolOptions(cfg, random);
    C.ValidatedPoolStarts(cfg, random, now);
    NewPoolKeeps(o, cfg.prefix, now);
    if NewPool(o, cfg.prefix, now).value.failures == 0 {
      FreshPoolStarts(o, cfg.prefix, now);
      NewPoolSpreads(o, NewGenerator(cfg.prefix).value, now);
    }
  }

  /** Startup of a validated per_ipv6 configuration: the pool starts; the always-on ports are
      all started exactly if every listener binds and the ports have room, which the
      configuration tells. Then each port has its persistent lease and its listener.
      Otherwise no client and no listener is left and the pool is exactly its resident
      floor. */
  lemma StartupAdequate(cfg: C.Config, random: nat -> Option<nat>, now: int, rounds: seq<Round>, undo: nat -> int)
    requires Checked(cfg) && RoundsOf(cfg, rounds)
    ensures NewPool(C.PoolOptions(cfg, random), cfg.prefix, now).Ok? && OptionsOk(C.PoolOptions(cfg, random))
    ensures var o, sys := C.PoolOptions(cfg, random), Booted(cfg, random, now);
            var p := StartPorts(o, sys, rounds, undo);
            RoundsOk(o, sys, rounds, undo) && p.sys.pool.failures == 0 ==>
              && (p.ok <==> AllBound(rounds) && HasRoom(o, Ports(rounds)))
              && (if p.ok then AllServed(p.sys, rounds) else RolledBack(o, p.sys))
  {
    var o := C.PoolOptions(cfg, random);
    BootedStarts(cfg, random, now);
    var sys := Booted(cfg, random, now);
    if RoundsOk(o, sys, rounds, undo) && StartPorts(o, sys, rounds, undo).sys.pool.failures == 0 {
      WantedBy(cfg, random, rounds);
      BootedServes(o, sys, rounds, undo);
    }
  }

  lemma WantedBy(cfg: C.Config, random: nat -> Option<nat>, rounds: seq<Round>)
    requires Checked(cfg) && RoundsOf(cfg, rounds)
    ensures PortsWanted(C.PoolOptions(cfg, random), rounds)
  {
    assert forall i :: 0 <= i < |rounds| ==> Ports(rounds)[i] == rounds[i].port == cfg.alwaysOnPorts[i];
  }

  lemma BootedServes(o: Options, sys: System, rounds: seq<Round>, undo: nat -> int)
    requires OptionsOk(o) && o.portStart != 0 && Inv(o, sys.pool)
    requires sys.pool.failures == 0 ==> StartedOk(o, sys, []) && Spread(o, [], sys.pool)
    requires PortsWanted(o, rounds) && RoundsOk(o, sys, rounds, undo)
    requires StartPorts(o, sys, rounds, undo).sys.pool.failures == 0
    ensures var p := StartPorts(o, sys, rounds, undo);
            && (p.ok <==> AllBound(rounds) && HasRoom(o, Ports(rounds)))
            && (if p.ok then AllServed(p.sys, rounds) else RolledBack(o, p.sys))
  {
    StartFailures(o, sys, rounds, undo);
    StartOrRollBack(o, sys, rounds, undo);
    if StartPorts(o, sys, rounds, undo).ok {
      ServedPorts(o, StartPorts(o, sys, rounds, undo).sys, rounds);
    }
  }

  /** Room for all is at most what max_leases allows: it is enough that the floor and the
      always-on ports fit into it together. */
  lemma {:induction false} FittingHasRoom(o: Options, ports: seq<int>)
    requires o.minLeases + |ports| <= o.maxLeases
    ensures HasRoom(o, ports) && Above(ports, o.portStart + o.minLeases) <= |ports|
  {
    if |ports| > 0 {
      var before := ports[..|ports| - 1];
      FittingHasRoom(o, before);
      assert ports == before + [ports[|ports| - 1]];
      HasRoomNext(o, before, ports[|ports| - 1]);
    }
  }

  lemma FreshPoolStarts(o: Options, prefix: Option<Cidr>, now: int)
    requires prefix.Some? ==> prefix.value.address < Pow2(Width)
    requires NewPool(o, prefix, now).Ok? && NewPool(o, prefix, now).value.failures == 0
    ensures StartedOk(o, System(NewPool(o, prefix, now).value, map[]), [])
  {
    NewPoolKeeps(o, prefix, now);
    EmptyTopsUp(o, NewGenerator(prefix).value, now);
    StandbysOnly(o, NewPool(o, prefix, now).value);
  }

  lemma EmptyTopsUp(o: Options, g: Network, now: int)
    requires OptionsOk(o)
    ensures Clients(EnsureStandbys(o, Empty(o, g), now).leases) == {}
  {
    var s := Empty(o, g);
    assert Standbys(s.leases) == {};
    EnsureAdds(o, s, now);
  }

  lemma StandbysOnly(o: Options, s: State)
    requires Inv(o, s) && Floor(o, s) && Clients(s.leases) == {}
    ensures StartedOk(o, System(s, map[]), [])
  {
    RolesPartition(s.leases);
  }

  lemma ServedPorts(o: Options, sys: System, rounds: seq<Round>)
    requires StartedOk(o, sys, PortIds(rounds))
    ensures AllServed(sys, rounds)
  {
    forall i | 0 <= i < |rounds|
      ensures var id := PortId(rounds[i].port);
              Pinned(sys.pool, id, rounds[i].port) && id in sys.listeners && sys.listeners[id] == rounds[i].port
    {
      var id := PortId(rounds[i].port);
      assert PortIds(rounds)[i] == id && id in Elements(PortIds(rounds));
      PortIdInjective(sys.listeners[id], rounds[i].port);
    }
  }
}
