/** The program in per_ipv6 mode as it runs: one object that holds the pool and the map of
    running listeners. Each handler is proved to do what its step in Service says, and
    startSOCKSListeners what StartPorts says. */
module Program {
  import opened Wrappers
  import opened Ids
  import opened PoolInvariant
  import opened PoolSteps
  import opened PoolModel
  import opened Service
  import opened Startup
  import opened LeasePool

  class Server {
    const pool: Pool
    var listeners: map<string, int>

    constructor (pool: Pool)
      ensures this.pool == pool && listeners == map[]
    {
      this.pool := pool;
      listeners := map[];
    }

    ghost function View(): System
      reads this, pool
    {
      System(pool.View(), listeners)
    }

    /** The listener manager's Start: `bound` tells whether the port can be bound. */
    method Start(id: string, port: int, bound: bool) returns (ok: bool)
      modifies this`listeners
      ensures ok <==> id !in old(listeners) && bound
      ensures listeners == if ok then old(listeners)[id := port] else old(listeners)
    {
      ok := id !in listeners && bound;
      if ok {
        listeners := listeners[id := port];
      }
    }

    /** The listener manager's Stop. */
    method Stop(id: string) returns (ok: bool)
      modifies this`listeners
      ensures ok <==> id in old(listeners)
      ensures listeners == old(listeners) - {id}
    {
      ok := id in listeners;
      listeners := listeners - {id};
    }

    /** The OnRelease hook, once for each id the pool call released. */
    method RunHooks(released: seq<string>)
      modifies this`listeners
      ensures listeners == Hook(pool.View(), old(listeners), released)
    {
      for i := 0 to |released|
        invariant listeners == Hook(pool.View(), old(listeners), released[..i])
      {
        if released[i] !in pool.leases {
          var _ := Stop(released[i]);
        }
        assert released[..i + 1] == released[..i] + [released[i]];
      }
      assert released[..|released|] == released;
    }

    method ReleaseLease(id: string, now: int) returns (ok: bool)
      requires OptionsOk(pool.options)
      modifies this`listeners, pool
      ensures ok <==> id in old(pool.leases)
      ensures View() == ReleaseAndHook(pool.options, old(View()), id, now)
      ensures old(pool.Valid()) ==> pool.Valid()
    {
      var released;
      ok, released := pool.Release(id, now);
      RunHooks(released);
    }

    method CreateLease(id: string, persistent: bool, now: int, bound: bool, undo: int)
      returns (r: Result<Lease, Error>, ghost c: Choice)
      requires pool.Valid()
      modifies this`listeners, pool
      ensures id != "" && id !in old(pool.leases) ==> AcquireChoice(pool.options, old(pool.View()), now, c)
      ensures (View(), r) == Service.CreateLease(pool.options, old(View()), id, persistent, now, c, bound, undo)
      ensures Safe(old(pool.View()), id) ==> pool.Valid()
    {
      c := Choice([], None);
      if id == "" {
        return Err(EmptyId), c;
      }
      var existed := id in pool.leases;
      if !existed {
        var released;
        r, released, c := pool.Acquire(id, persistent, now);
        RunHooks(released);
        if r.Err? || id !in pool.leases {
          return;
        }
      }
      var created := pool.leases[id];
      if id !in listeners {
        var started := Start(id, created.port, bound);
        if !started {
          if !existed {
            var _ := ReleaseLease(id, undo);
          }
          return Err(PortUnavailable), c;
        }
      }
      r := Ok(created);
    }

    method DeleteLease(id: string, now: int) returns (ok: bool)
      requires pool.Valid()
      modifies this`listeners, pool
      ensures (View(), ok) == Service.DeleteLease(pool.options, old(View()), id, now)
      ensures pool.Valid()
    {
      if id !in pool.leases {
        return false;
      }
      var stopped := Stop(id);
      if !stopped {
        assert old(listeners) - {id} == old(listeners);
        return false;
      }
      ok := ReleaseLease(id, now);
    }

    /** The hook of the old lease runs inside the pool's Recycle, between its two halves. */
    method RecycleLease(id: string, now: int, later: int, bound: bool)
      returns (r: Result<Lease, Error>, ghost c: Choice)
      requires pool.Valid()
      modifies this`listeners, pool
      ensures id in old(pool.leases) && !old(pool.leases)[id].persistent ==>
                AcquireChoice(pool.options, RecycleSlot(pool.options, old(pool.View()), id, now), later, c)
      ensures (View(), r) == Service.RecycleLease(pool.options, old(View()), id, now, later, c, bound)
      ensures pool.Valid()
    {
      c := Choice([], None);
      var detached := pool.Detach(id, now);
      if detached.Err? {
        return Err(detached.error), c;
      }
      RecycleEffect(pool.options, old(pool.View()), id, now);
      assert Safe(old(pool.View()), id);
      RunHooks([id]);
      var released;
      r, released, c := pool.Acquire(id, false, later);
      RunHooks(released);
      if r.Err? || id !in pool.leases {
        return;
      }
      var started := Start(id, pool.leases[id].port, bound);
      if !started {
        return Err(PortUnavailable), c;
      }
    }

    /** One connection to the listener of id. */
    method Connect(id: string, now: int, dialed: bool, later: int) returns (r: Result<Lease, Error>, ghost c: Choice)
      requires pool.Valid() && Agreement(View()) && id in listeners
      modifies this`listeners, pool
      ensures AcquirePortChoice(pool.options, old(pool.View()), old(listeners)[id], now, c)
      ensures (View(), r) == Service.Connect(pool.options, old(View()), id, now, c, dialed, later)
      ensures pool.Valid() && Agreement(View())
    {
      assert Safe(pool.View(), id) && id != "";
      ghost var before := View();
      var released;
      r, released, c := pool.AcquirePort(id, listeners[id], false, now);
      RunHooks(released);
      ConnectAgrees(pool.options, before, id, now, c, dialed, later);
      if r.Err? || !dialed {
        return;
      }
      r := pool.RecordRequest(id, later);
    }

    method SweepIdle(now: int) returns (ghost order: seq<string>)
      requires pool.Valid()
      modifies this`listeners, pool
      ensures Covers(pool.options, old(pool.View()), order)
      ensures View() == Service.SweepIdle(pool.options, old(View()), order, now)
      ensures pool.Valid()
    {
      var n, released;
      n, released, order := pool.ReleaseIdle(now);
      RunHooks(released);
    }

    method StopAll(started: seq<string>)
      modifies this`listeners
      ensures listeners == old(listeners) - Elements(started)
    {
      var i := |started|;
      while i > 0
        invariant 0 <= i <= |started|
        invariant listeners == old(listeners) - Elements(started[i..])
      {
        i := i - 1;
        var _ := Stop(started[i]);
        assert started[i..] == [started[i]] + started[i + 1..];
      }
      assert started[0..] == started;
    }

    method ReleaseAll(created: seq<string>, undo: nat -> int)
      requires pool.Valid()
      modifies this`listeners, pool
      ensures View() == ReleaseCreated(pool.options, old(View()), created, undo)
      ensures pool.Valid()
    {
      var n := |created|;
      assert created[..n] == created;
      while n > 0
        invariant 0 <= n <= |created|
        invariant pool.Valid()
        invariant ReleaseCreated(pool.options, View(), created[..n], undo)
                  == ReleaseCreated(pool.options, old(View()), created, undo)
      {
        n := n - 1;
        assert created[..n + 1][..n] == created[..n];
        var _ := ReleaseLease(created[n], undo(n));
      }
    }

    method RollBack(started: seq<string>, created: seq<string>, undo: nat -> int)
      requires pool.Valid()
      modifies this`listeners, pool
      ensures View() == Rollback(pool.options, old(View()), started, created, undo)
      ensures pool.Valid()
    {
      StopAll(started);
      ReleaseAll(created, undo);
    }

    /** One always-on port: acquire its lease, then listen on it. */
    method StartPort(port: nat, now: int, bound: bool, created: seq<string>)
      returns (ok: bool, created1: seq<string>, ghost round: Round)
      requires pool.Valid()
      modifies this`listeners, pool
      ensures round.port == port && round.now == now && round.bound == bound
      ensures RoundOk(pool.options, old(View()), round)
      ensures (View(), ok) == AlwaysOn(pool.options, old(View()), port, now, round.c, bound)
      ensures created1 == CreatedBy(pool.options, old(View()), round, created)
      ensures pool.Valid()
    {
      var id := PortId(port);
      PortIdIsNoPoolId(port);
      var existed := id in pool.leases;
      var r, released;
      ghost var c;
      r, released, c := pool.AcquirePort(id, port, true, now);
      RunHooks(released);
      round := Round(port, now, c, bound);
      created1 := if r.Ok? && !existed then created + [id] else created;
      ok := false;
      if r.Ok? {
        ok := Start(id, port, bound);
      }
    }

    /** Acquire and start the always-on ports one by one; on the first failure undo all of
        it. `rounds` records the ports it came to and what each of them met. */
    method StartSOCKSListeners(ports: seq<nat>, nows: seq<int>, bounds: seq<bool>, undo: nat -> int)
      returns (ok: bool, ghost rounds: seq<Round>)
      requires pool.Valid() && |ports| == |nows| == |bounds|
      modifies this`listeners, pool
      ensures Records(rounds, ports, nows, bounds) && (ok ==> |rounds| == |ports|)
      ensures RoundsOk(pool.options, old(View()), rounds, undo)
      ensures var p := StartPorts(pool.options, old(View()), rounds, undo); p.sys == View() && p.ok == ok
      ensures pool.Valid()
    {
      var started: seq<string>, created: seq<string> := [], [];
      ghost var o, sys0 := pool.options, View();
      rounds := [];
      for i := 0 to |ports|
        invariant pool.Valid() && |rounds| == i
        invariant Records(rounds, ports, nows, bounds)
        invariant RoundsOk(o, sys0, rounds, undo)
        invariant StartPorts(o, sys0, rounds, undo) == Progress(View(), started, created, true)
      {
        ghost var done, p := rounds, Progress(View(), started, created, true);
        ghost var round;
        var listening;
        listening, created, round := StartPort(ports[i], nows[i], bounds[i], created);
        rounds := done + [round];
        RecordAdded(done, ports, nows, bounds, round);
        RoundAdded(o, sys0, done, undo, p, round, View(), listening, created);
        if !listening {
          RollBack(started, created, undo);
          return false, rounds;
        }
        started := started + [PortId(ports[i])];
      }
      return true, rounds;
    }
  }

  /** The rounds are those of the first ports, with these times and outcomes. */
  ghost predicate Records(rounds: seq<Round>, ports: seq<nat>, nows: seq<int>, bounds: seq<bool>) {
    && |rounds| <= |ports| && |ports| == |nows| == |bounds|
    && forall i :: 0 <= i < |rounds| ==>
         rounds[i].port == ports[i] && rounds[i].now == nows[i] && rounds[i].bound == bounds[i]
  }

  lemma RecordAdded(rounds: seq<Round>, ports: seq<nat>, nows: seq<int>, bounds: seq<bool>, round: Round)
    requires Records(rounds, ports, nows, bounds) && |rounds| < |ports|
    requires round.port == ports[|rounds|] && round.now == nows[|rounds|] && round.bound == bounds[|rounds|]
    ensures Records(rounds + [round], ports, nows, bounds)
  {
  }

  /** The loop after one more round. */
  lemma RoundAdded(o: Options, sys0: System, done: seq<Round>, undo: nat -> int, p: Progress, round: Round, sys: System,
    ok: bool, created: seq<string>)
    requires OptionsOk(o) && RoundsOk(o, sys0, done, undo) && StartPorts(o, sys0, done, undo) == p && p.ok
    requires RoundOk(o, p.sys, round) && created == CreatedBy(o, p.sys, round, p.created)
    requires AlwaysOn(o, p.sys, round.port, round.now, round.c, round.bound) == (sys, ok)
    ensures RoundsOk(o, sys0, done + [round], undo)
    ensures StartPorts(o, sys0, done + [round], undo) ==
              if ok then Progress(sys, p.started + [PortId(round.port)], created, true)
              else Progress(Rollback(o, sys, p.started, created, undo), p.started, created, false)
  {
    assert (done + [round])[..|done|] == done;
  }
}
