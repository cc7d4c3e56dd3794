/** What stays served over whole runs of the program: an always-on port, until somebody takes it
    down, and whoever is served already while the always-on ports are started. */
module ServiceRuns {
  import opened Wrappers
  import opened Ids
  import opened PoolInvariant
  import opened PoolSteps
  import opened PoolModel
  import opened PoolTheorems
  import opened PoolOutcomes
  import opened Service
  import opened ServiceOutcomes
  import opened Startup
  import P = PoolRuns
  import M = PoolModel
  import C = Config

  /** A persistent client lease with a running listener on its port. */
  ghost predicate Up(sys: System, id: string, port: int) {
    Pinned(sys.pool, id, port) && id in sys.listeners && sys.listeners[id] == port
  }

  /** What can end that: somebody deletes the lease or lets it go, startup is undone, or the
      listener dies. */
  ghost predicate TakesDown(e: Event, id: string) {
    match e
    case Delete(x, _) => x == id
    case Undo(x, _) => x == id
    case ListenerDies(x) => x == id
    case SetPersistent(x, persistent) => x == id && !persistent
    case _ => false
  }

  lemma OthersUp(o: Options, sys: System, sys': System, x: string, now: int, id: string, port: int)
    requires OthersKept(o, sys, sys', x, now) && x != id && Up(sys, id, port)
    ensures Up(sys', id, port)
  {
    assert !Overdue(o, sys.pool, id, now);
  }

  lemma CreateUp(o: Options, sys: System, e: Event, id: string, port: int)
    requires OptionsOk(o) && Inv(o, sys.pool) && Agreement(sys) && Up(sys, id, port)
    requires e.Create? && Allowed(o, sys, e)
    ensures Up(Next(o, sys, e), id, port)
  {
    if e.id in sys.pool.leases {
      LeaseReused(o, sys, e.id, e.persistent, e.now, e.c, e.bound, e.undo);
    } else if e.id != "" {
      LeaseCreated(o, sys, e.id, e.persistent, e.now, e.c, e.bound, e.undo);
      OthersUp(o, sys, Next(o, sys, e), e.id, e.now, id, port);
    }
  }

  lemma RecycleUp(o: Options, sys: System, e: Event, id: string, port: int)
    requires OptionsOk(o) && Inv(o, sys.pool) && Agreement(sys) && Up(sys, id, port)
    requires e.Recycle? && Allowed(o, sys, e)
    ensures Up(Next(o, sys, e), id, port)
  {
    if e.id in sys.pool.leases && !sys.pool.leases[e.id].persistent {
      LeaseRecycled(o, sys, e.id, e.now, e.later, e.c, e.bound);
      NextPinned(o, sys.pool, P.Event.Recycle(e.id, e.now, e.later, e.c), id, port);
    } else {
      RecycleRefused(o, sys, e.id, e.now, e.later, e.c, e.bound);
    }
  }

  /** A connection to the listener itself, or to another one. */
  lemma ConnectionUp(o: Options, sys: System, e: Event, id: string, port: int)
    requires OptionsOk(o) && Inv(o, sys.pool) && Agreement(sys) && Up(sys, id, port) && o.portStart != 0
    requires e.Connection? && Allowed(o, sys, e)
    ensures Up(Next(o, sys, e), id, port)
  {
    if e.id != id {
      ConnectionCounted(o, sys, e.id, e.now, e.c, e.dialed, e.later);
      OthersUp(o, sys, Next(o, sys, e), e.id, e.now, id, port);
    } else {
      assert Safe(sys.pool, id);
      NextPinned(o, sys.pool, P.Event.AcquirePort(id, port, false, e.now, e.c), id, port);
      AcquiredForConnection(o, sys, id, e.now, e.c);
      var s1 := M.AcquirePort(o, sys.pool, id, port, false, e.now, e.c).state;
      NextPinned(o, s1, P.Event.RecordRequest(id, e.later), id, port);
    }
  }

  lemma AlwaysOnUp(o: Options, sys: System, e: Event, id: string, port: int)
    requires OptionsOk(o) && Inv(o, sys.pool) && Agreement(sys) && Up(sys, id, port) && o.portStart != 0
    requires e.StartAlwaysOn? && Allowed(o, sys, e)
    ensures Up(Next(o, sys, e), id, port)
  {
    var x := PortId(e.port);
    if x != id {
      PortStarted(o, sys, e.port, e.now, e.c, e.bound);
      OthersUp(o, sys, Next(o, sys, e), x, e.now, id, port);
    } else {
      PortIdIsNoPoolId(e.port);
      NextPinned(o, sys.pool, P.Event.AcquirePort(id, e.port, true, e.now, e.c), id, port);
    }
  }

  /** The events that only touch the pool, or only the listeners, or end another id. */
  lemma PlainUp(o: Options, sys: System, e: Event, id: string, port: int)
    requires OptionsOk(o) && Inv(o, sys.pool) && Agreement(sys) && Up(sys, id, port)
    requires e.Delete? || e.Undo? || e.SetPersistent? || e.Rotate? || e.ChangePrefix? || e.ListenerDies?
    requires Allowed(o, sys, e) && !TakesDown(e, id)
    ensures Up(Next(o, sys, e), id, port)
  {
    match e
    case Delete(x, now) => LeaseDeleted(o, sys, x, now);
    case Undo(x, now) => NextPinned(o, sys.pool, P.Event.Release(x, now), id, port);
    case SetPersistent(x, persistent) => NextPinned(o, sys.pool, P.Event.SetPersistent(x, persistent), id, port);
    case Rotate(x, now) => NextPinned(o, sys.pool, P.Event.Rotate(x, now), id, port);
    case ChangePrefix(prefix, now, order) =>
      NextPinned(o, sys.pool, P.Event.Reassign(prefix, now, order), id, port);
    case ListenerDies(_) =>
  }

  lemma SweepUp(o: Options, sys: System, e: Event, id: string, port: int)
    requires OptionsOk(o) && Inv(o, sys.pool) && Agreement(sys) && Up(sys, id, port)
    requires e.Sweep? && Allowed(o, sys, e)
    ensures Up(Next(o, sys, e), id, port)
  {
    IdleSwept(o, sys, e.order, e.now);
    assert !Overdue(o, sys.pool, id, e.now);
  }

  lemma NextUp(o: Options, sys: System, e: Event, id: string, port: int)
    requires OptionsOk(o) && Inv(o, sys.pool) && Agreement(sys) && Up(sys, id, port) && o.portStart != 0
    requires Allowed(o, sys, e) && !TakesDown(e, id)
    ensures Up(Next(o, sys, e), id, port)
  {
    match e
    case Create(_, _, _, _, _, _) => CreateUp(o, sys, e, id, port);
    case Recycle(_, _, _, _, _) => RecycleUp(o, sys, e, id, port);
    case Connection(_, _, _, _, _) => ConnectionUp(o, sys, e, id, port);
    case StartAlwaysOn(_, _, _, _) => AlwaysOnUp(o, sys, e, id, port);
    case Sweep(_, _) => SweepUp(o, sys, e, id, port);
    case _ => PlainUp(o, sys, e, id, port);
  }

  /** Whatever the clients, the administrator, the sweeper and the prefix do, a persistent lease
      with a listener keeps both, through every run in which nobody takes it down. */
  lemma {:induction false} StaysUp(o: Options, sys: System, es: seq<Event>, id: string, port: int)
    requires OptionsOk(o) && Inv(o, sys.pool) && Agreement(sys) && Up(sys, id, port) && o.portStart != 0
    requires Legal(o, sys, es) && forall e :: e in es ==> !TakesDown(e, id)
    ensures Up(Run(o, sys, es), id, port)
    decreases |es|
  {
    if |es| > 0 {
      NextAgrees(o, sys, es[0]);
      NextUp(o, sys, es[0], id, port);
      StaysUp(o, Next(o, sys, es[0]), es[1..], id, port);
    }
  }

  /** The checked configuration booted, no allocation failed, and the loop over the always-on
      ports ended well in p. */
  ghost predicate StartedAs(cfg: C.Config, random: nat -> Option<nat>, now: int, rounds: seq<Round>, undo: nat -> int,
    p: Progress)
  {
    var o := C.PoolOptions(cfg, random);
    && Checked(cfg) && RoundsOf(cfg, rounds)
    && NewPool(o, cfg.prefix, now).Ok? && OptionsOk(o)
    && RoundsOk(o, Booted(cfg, random, now), rounds, undo)
    && p == StartPorts(o, Booted(cfg, random, now), rounds, undo)
    && p.ok && p.sys.pool.failures == 0
  }

  lemma StartedIsServing(cfg: C.Config, random: nat -> Option<nat>, now: int, rounds: seq<Round>, undo: nat -> int,
    p: Progress)
    requires StartedAs(cfg, random, now, rounds, undo, p)
    ensures Inv(C.PoolOptions(cfg, random), p.sys.pool) && Agreement(p.sys) && AllServed(p.sys, rounds)
  {
    var o, sys := C.PoolOptions(cfg, random), Booted(cfg, random, now);
    BootedStarts(cfg, random, now);
    WantedBy(cfg, random, rounds);
    StartFailures(o, sys, rounds, undo);
    StartOrRollBack(o, sys, rounds, undo);
    ServedPorts(o, p.sys, rounds);
    StartedServes(o, rounds, p);
  }

  lemma StartedServes(o: Options, rounds: seq<Round>, p: Progress)
    requires OnCourse(o, rounds, p) && p.ok
    ensures Inv(o, p.sys.pool) && Agreement(p.sys)
  {
  }

  /** From a checked configuration to any later state: an always-on port that was started is
      served as long as nobody takes it down. */
  lemma StartedStaysUp(cfg: C.Config, random: nat -> Option<nat>, now: int, rounds: seq<Round>, undo: nat -> int,
    p: Progress, i: nat, es: seq<Event>)
    requires StartedAs(cfg, random, now, rounds, undo, p) && i < |rounds|
    requires Legal(C.PoolOptions(cfg, random), p.sys, es)
    requires forall e :: e in es ==> !TakesDown(e, PortId(rounds[i].port))
    ensures Up(Run(C.PoolOptions(cfg, random), p.sys, es), PortId(rounds[i].port), rounds[i].port)
  {
    StartedIsServing(cfg, random, now, rounds, undo, p);
    StaysUp(C.PoolOptions(cfg, random), p.sys, es, PortId(rounds[i].port), rounds[i].port);
  }

  // ---------- Startup and what was there before ----------

  /** One round acquires a lease and may start a listener; neither costs anybody who is up. */
  lemma RoundSpares(o: Options, sys: System, round: Round, id: string, port: int)
    requires OptionsOk(o) && Inv(o, sys.pool) && RoundOk(o, sys, round) && Up(sys, id, port)
    ensures var (sys', ok) := AlwaysOn(o, sys, round.port, round.now, round.c, round.bound);
            Inv(o, sys'.pool) && Up(sys', id, port) && (ok ==> PortId(round.port) != id)
  {
    PortIdIsNoPoolId(round.port);
    var e := P.Event.AcquirePort(PortId(round.port), round.port, true, round.now, round.c);
    EventSpares(o, sys.pool, e, id, port);
    var step := M.AcquirePort(o, sys.pool, PortId(round.port), round.port, true, round.now, round.c);
    assert id in Hook(step.state, sys.listeners, step.released);
  }

  lemma EventSpares(o: Options, s: State, e: P.Event, id: string, port: int)
    requires OptionsOk(o) && Inv(o, s) && P.Allowed(o, s, e) && Pinned(s, id, port) && !Unpins(e, id)
    ensures Inv(o, P.Next(o, s, e)) && Pinned(P.Next(o, s, e), id, port)
  {
    P.NextKeeps(o, s, e);
    NextPinned(o, s, e, id, port);
  }

  lemma {:induction false} RollbackSpares(o: Options, sys: System, created: seq<string>, undo: nat -> int, id: string,
    port: int)
    requires OptionsOk(o) && Inv(o, sys.pool) && Up(sys, id, port) && id !in created
    ensures var sys' := ReleaseCreated(o, sys, created, undo); Inv(o, sys'.pool) && Up(sys', id, port)
    decreases |created|
  {
    if |created| > 0 {
      var n := |created| - 1;
      var e := P.Event.Release(created[n], undo(n));
      EventSpares(o, sys.pool, e, id, port);
      RollbackSpares(o, ReleaseAndHook(o, sys, created[n], undo(n)), created[..n], undo, id, port);
    }
  }

  /** Starting the always-on ports, whether it succeeds or is rolled back, leaves a persistent
      lease and its listener alone that were there before, even one of an always-on
      port's name: only what the loop itself created is undone. */
  lemma {:induction false} StartupSpares(o: Options, sys: System, rounds: seq<Round>, undo: nat -> int, id: string,
    port: int)
    requires OptionsOk(o) && Inv(o, sys.pool) && RoundsOk(o, sys, rounds, undo) && Up(sys, id, port)
    ensures var p := StartPorts(o, sys, rounds, undo);
            Inv(o, p.sys.pool) && Up(p.sys, id, port) && id !in p.started && id !in p.created
    decreases |rounds|
  {
    if |rounds| > 0 {
      var before, round := rounds[..|rounds| - 1], rounds[|rounds| - 1];
      StartupSpares(o, sys, before, undo, id, port);
      if StartPorts(o, sys, before, undo).ok {
        StepSpares(o, StartPorts(o, sys, before, undo), round, undo, id, port);
      }
    }
  }

  lemma StepSpares(o: Options, p: Progress, round: Round, undo: nat -> int, id: string, port: int)
    requires OptionsOk(o) && Inv(o, p.sys.pool) && RoundOk(o, p.sys, round) && Up(p.sys, id, port)
    requires id !in p.started && id !in p.created
    ensures var p' := StartRound(o, p, round, undo);
            Inv(o, p'.sys.pool) && Up(p'.sys, id, port) && id !in p'.started && id !in p'.created
  {
    RoundSpares(o, p.sys, round, id, port);
    var (sys1, ok) := AlwaysOn(o, p.sys, round.port, round.now, round.c, round.bound);
    if !ok {
      var stopped := sys1.(listeners := sys1.listeners - Elements(p.started));
      assert id !in Elements(p.started);
      RollbackSpares(o, stopped, CreatedBy(o, p.sys, round, p.created), undo, id, port);
    }
  }
}
