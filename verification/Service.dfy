/** The pool together with its per-lease listeners, as one program in per_ipv6 mode.

    A listener is the pair of a lease id and the port it is bound to. Every handler call,
    every connection and every sweep is one step, including the release hooks it runs;
    how the listener manager behaves inside a step is the subject of ListenerManager. */
module Service {
  import opened Wrappers
  import opened Ids
  import opened Ipv6Addr
  import opened PoolInvariant
  import opened PoolSteps
  import opened PoolReassign
  import opened PoolTheorems
  import opened PoolModel
  import M = PoolModel

  datatype System = System(pool: State, listeners: map<string, int>)

  /** Every running listener belongs to a client lease under its id, on exactly its port. */
  ghost predicate Agreement(sys: System) {
    forall id :: id in sys.listeners ==>
      id in sys.pool.leases && sys.pool.leases[id].role == Client && sys.pool.leases[id].port == sys.listeners[id]
  }

  /** The release hooks of one pool call: a listener is stopped unless its id has a lease. */
  function Hook(pool: State, listeners: map<string, int>, released: seq<string>): map<string, int> {
    listeners - (set id | id in released && id !in pool.leases)
  }

  // ---------- Steps ----------

  /** createLease, with `bound` telling whether the new listener can be started and
      `undo` the time at which a failed start is rolled back. */
  function CreateLease(o: Options, sys: System, id: string, persistent: bool, now: int, c: Choice, bound: bool,
    undo: int): (System, Result<Lease, Error>)
    requires OptionsOk(o)
  {
    if id == "" then (sys, Err(EmptyId))
    else if id in sys.pool.leases then Listen(o, sys, id, bound, false, undo)
    else
      var step := M.Acquire(o, sys.pool, id, persistent, now, c);
      var sys1 := System(step.state, Hook(step.state, sys.listeners, step.released));
      if step.result.Err? || id !in step.state.leases then (sys1, step.result)
      else Listen(o, sys1, id, bound, true, undo)
  }

  /** Start the listener of a lease unless it runs; if that fails, a lease created by
      the same call is released again. */
  function Listen(o: Options, sys: System, id: string, bound: bool, created: bool, undo: int):
    (System, Result<Lease, Error>)
    requires OptionsOk(o) && id in sys.pool.leases
  {
    var l := sys.pool.leases[id];
    if id in sys.listeners then (sys, Ok(l))
    else if bound then (sys.(listeners := sys.listeners[id := l.port]), Ok(l))
    else if created then
      var step := M.Release(o, sys.pool, id, undo);
      (System(step.state, Hook(step.state, sys.listeners, step.released)), Err(PortUnavailable))
    else (sys, Err(PortUnavailable))
  }

  /** deleteLease: without a running listener the lease stays. */
  function DeleteLease(o: Options, sys: System, id: string, now: int): (System, bool)
    requires OptionsOk(o)
  {
    if id !in sys.pool.leases || id !in sys.listeners then (sys, false)
    else
      var step := M.Release(o, sys.pool, id, now);
      (System(step.state, Hook(step.state, sys.listeners - {id}, step.released)), true)
  }

  /** recycleLease: the hook of the old lease runs before the new one is acquired. */
  function RecycleLease(o: Options, sys: System, id: string, now: int, later: int, c: Choice, bound: bool):
    (System, Result<Lease, Error>)
    requires OptionsOk(o)
  {
    if id !in sys.pool.leases then (sys, Err(NotFound))
    else if sys.pool.leases[id].persistent then (sys, Err(Anchored))
    else
      var s1 := RecycleSlot(o, sys.pool, id, now);
      var listeners1 := Hook(s1, sys.listeners, [id]);
      var step := M.Acquire(o, s1, id, false, later, c);
      var sys1 := System(step.state, Hook(step.state, listeners1, step.released));
      if step.result.Err? || id !in step.state.leases then (sys1, step.result)
      else if id in sys1.listeners || !bound then (sys1, Err(PortUnavailable))
      else (sys1.(listeners := sys1.listeners[id := step.state.leases[id].port]), step.result)
  }

  /** A connection to the listener of id: the lease is re-acquired on the listener's
      port and, when the destination answers, the request is recorded. */
  function Connect(o: Options, sys: System, id: string, now: int, c: Choice, dialed: bool, later: int):
    (System, Result<Lease, Error>)
    requires OptionsOk(o) && id in sys.listeners
  {
    var step := M.AcquirePort(o, sys.pool, id, sys.listeners[id], false, now, c);
    var sys1 := System(step.state, Hook(step.state, sys.listeners, step.released));
    if step.result.Err? || !dialed then (sys1, step.result)
    else
      var recorded := M.RecordRequest(o, sys1.pool, id, later);
      (sys1.(pool := recorded.state), recorded.result)
  }

  function SweepIdle(o: Options, sys: System, order: seq<string>, now: int): System
    requires OptionsOk(o)
  {
    var (s1, released) := M.ReleaseIdle(o, sys.pool, order, now);
    System(s1, Hook(s1, sys.listeners, released))
  }

  /** One round of startSOCKSListeners: acquire the port's own lease, then listen. */
  function AlwaysOn(o: Options, sys: System, port: nat, now: int, c: Choice, bound: bool): (System, bool)
    requires OptionsOk(o)
  {
    var id := PortId(port);
    var step := M.AcquirePort(o, sys.pool, id, port, true, now, c);
    var sys1 := System(step.state, Hook(step.state, sys.listeners, step.released));
    if step.result.Err? || id in sys1.listeners || !bound then (sys1, false)
    else (sys1.(listeners := sys1.listeners[id := port]), true)
  }

  /** createLease would start a listener for the lease of a standby. */
  predicate ForStandby(sys: System, id: string, bound: bool) {
    id in sys.pool.leases && sys.pool.leases[id].role == Standby && id !in sys.listeners && bound
  }

  datatype Event =
    | Create(id: string, persistent: bool, now: int, c: Choice, bound: bool, undo: int)
    | Delete(id: string, now: int)
    | Recycle(id: string, now: int, later: int, c: Choice, bound: bool)
    | Connection(id: string, now: int, c: Choice, dialed: bool, later: int)
    | Sweep(now: int, order: seq<string>)
    | Rotate(id: string, now: int)
    | SetPersistent(id: string, persistent: bool)
    | ChangePrefix(prefix: Option<Cidr>, now: int, order: seq<string>)
    | StartAlwaysOn(port: nat, now: int, c: Choice, bound: bool)
    | Undo(id: string, now: int)
    | ListenerDies(id: string)

  /** A client took the name of an always-on port and listens on another port, its idle
      lease is about to be swept, and the port is open. */
  ghost predicate NameTaken(o: Options, sys: System, port: nat, now: int) {
    var id := PortId(port);
    id in sys.listeners && sys.listeners[id] != port && Sweeps(o, sys.pool, id, now) && PortOpen(o, sys.pool, port, now)
  }

  /** A created id is none that a later standby will be given, and no listener is
      started for a standby. No always-on port is started while its name is taken, unless
      the pool has no room for it and no allocation fails. */
  ghost predicate Allowed(o: Options, sys: System, e: Event)
    requires OptionsOk(o)
  {
    match e
    case Create(id, _, now, c, bound, _) =>
      && Safe(sys.pool, id)
      && !ForStandby(sys, id, bound)
      && (id !in sys.pool.leases ==> AcquireChoice(o, sys.pool, now, c))
    case Recycle(id, now, later, c, _) =>
      id in sys.pool.leases && !sys.pool.leases[id].persistent ==>
        AcquireChoice(o, RecycleSlot(o, sys.pool, id, now), later, c)
    case Connection(id, now, c, _, _) =>
      id in sys.listeners && AcquirePortChoice(o, sys.pool, sys.listeners[id], now, c)
    case Sweep(now, order) => Covers(o, sys.pool, order)
    case ChangePrefix(prefix, _, order) =>
      Enumerates(sys.pool, order) && (prefix.Some? ==> prefix.value.address < Pow2(Width))
    case StartAlwaysOn(port, now, c, _) =>
      && AcquirePortChoice(o, sys.pool, port, now, c)
      && (NameTaken(o, sys, port, now) ==>
            && LeftBySweep(o, sys.pool, now) >= o.maxLeases
            && M.AcquirePort(o, sys.pool, PortId(port), port, true, now, c).state.failures == sys.pool.failures)
    case _ => true
  }

  ghost function Next(o: Options, sys: System, e: Event): System
    requires OptionsOk(o) && Allowed(o, sys, e)
  {
    match e
    case Create(id, persistent, now, c, bound, undo) => CreateLease(o, sys, id, persistent, now, c, bound, undo).0
    case Delete(id, now) => DeleteLease(o, sys, id, now).0
    case Recycle(id, now, later, c, bound) => RecycleLease(o, sys, id, now, later, c, bound).0
    case Connection(id, now, c, dialed, later) => Connect(o, sys, id, now, c, dialed, later).0
    case Sweep(now, order) => SweepIdle(o, sys, order, now)
    case Rotate(id, now) => sys.(pool := M.Rotate(o, sys.pool, id, now).state)
    case SetPersistent(id, persistent) => sys.(pool := M.SetPersistent(sys.pool, id, persistent).state)
    case ChangePrefix(prefix, now, order) => sys.(pool := M.Reassign(o, sys.pool, prefix, now, order).state)
    case StartAlwaysOn(port, now, c, bound) => AlwaysOn(o, sys, port, now, c, bound).0
    case Undo(id, now) =>
      var step := M.Release(o, sys.pool, id, now);
      System(step.state, Hook(step.state, sys.listeners, step.released))
    case ListenerDies(id) => sys.(listeners := sys.listeners - {id})
  }

  ghost predicate Legal(o: Options, sys: System, es: seq<Event>)
    requires OptionsOk(o)
    decreases |es|
  {
    |es| > 0 ==> Allowed(o, sys, es[0]) && Legal(o, Next(o, sys, es[0]), es[1..])
  }

  ghost function Run(o: Options, sys: System, es: seq<Event>): System
    requires OptionsOk(o) && Legal(o, sys, es)
    decreases |es|
  {
    if |es| == 0 then sys else Run(o, Next(o, sys, es[0]), es[1..])
  }

  // ---------- Agreement ----------

  /** Removing leases and then running their hooks keeps the agreement. */
  lemma RemovalAgrees(o: Options, sys: System, s': State, released: seq<string>)
    requires Agreement(sys) && KeysOk(sys.pool) && AddsOnlyStandbys(o, sys.pool, s', Elements(released))
    ensures Agreement(System(s', Hook(s', sys.listeners, released)))
  {
    forall id | id in sys.listeners && id in released ensures id !in s'.leases {
      GoneStaysGone(o, sys.pool, s', Elements(released), id);
    }
  }

  /** Removing idle leases, serving one identity and then running the hooks keeps the
      agreement, even when the identity's own lease was removed: what it is given
      instead is a client lease on the port its listener has. */
  lemma ServingAgrees(o: Options, sys: System, mid: State, released: seq<string>, id: string, s': State,
    r: Result<Lease, Error>)
    requires Agreement(sys) && KeysOk(sys.pool) && AddsOnlyStandbys(o, sys.pool, mid, Elements(released))
    requires AcquireEffect(o, mid, id, s', r)
    requires r.Ok? && id in sys.listeners ==> r.value.port == sys.listeners[id]
    ensures Agreement(System(s', Hook(s', sys.listeners, released)))
  {
    forall x | x in sys.listeners && x in released ensures x !in mid.leases {
      GoneStaysGone(o, sys.pool, mid, Elements(released), x);
    }
  }

  lemma AcquireAgrees(o: Options, sys: System, id: string, persistent: bool, now: int, c: Choice)
    requires OptionsOk(o) && Inv(o, sys.pool) && Agreement(sys) && Safe(sys.pool, id) && id != ""
    requires id !in sys.listeners && AcquireChoice(o, sys.pool, now, c)
    ensures var step := M.Acquire(o, sys.pool, id, persistent, now, c);
            var sys' := System(step.state, Hook(step.state, sys.listeners, step.released));
            && Inv(o, sys'.pool) && Agreement(sys') && id !in sys'.listeners
            && (step.result.Ok? ==> id in sys'.pool.leases && sys'.pool.leases[id].role == Client)
  {
    ReleaseIdleEffect(o, sys.pool, c.order, now);
    var (mid, released) := M.ReleaseIdle(o, sys.pool, c.order, now);
    AcquireSweptEffect(o, mid, id, persistent, now, c.pick);
    var step := M.Acquire(o, sys.pool, id, persistent, now, c);
    ServingAgrees(o, sys, mid, released, id, step.state, step.result);
  }

  /** AcquirePort as a sweep followed by serving one identity. */
  lemma AcquirePortParts(o: Options, s: State, id: string, port: int, persistent: bool, now: int, c: Choice)
    returns (mid: State)
    requires OptionsOk(o) && Inv(o, s) && Safe(s, id) && id != "" && AcquirePortChoice(o, s, port, now, c)
    ensures var step := M.AcquirePort(o, s, id, port, persistent, now, c);
            && AddsOnlyStandbys(o, s, mid, Elements(step.released))
            && Elements(step.released) <= Idle(o, s, now)
            && AcquireEffect(o, mid, id, step.state, step.result)
            && (step.result.Ok? ==> step.result.value.port == port)
  {
    ReleaseIdleEffect(o, s, c.order, now);
    mid := M.ReleaseIdle(o, s, c.order, now).0;
    AcquirePortSweptEffect(o, mid, id, port, persistent, now, c.pick);
  }

  lemma AcquirePortAgrees(o: Options, sys: System, id: string, port: int, persistent: bool, now: int, c: Choice)
    requires OptionsOk(o) && Inv(o, sys.pool) && Agreement(sys) && Safe(sys.pool, id) && id != ""
    requires (id in sys.listeners ==> sys.listeners[id] == port) && AcquirePortChoice(o, sys.pool, port, now, c)
    ensures var step := M.AcquirePort(o, sys.pool, id, port, persistent, now, c);
            var sys' := System(step.state, Hook(step.state, sys.listeners, step.released));
            && Inv(o, sys'.pool) && Agreement(sys')
            && (step.result.Ok? ==>
                 id in sys'.pool.leases && sys'.pool.leases[id].role == Client && sys'.pool.leases[id].port == port)
  {
    var mid := AcquirePortParts(o, sys.pool, id, port, persistent, now, c);
    var step := M.AcquirePort(o, sys.pool, id, port, persistent, now, c);
    ServingAgrees(o, sys, mid, step.released, id, step.state, step.result);
  }

  lemma ReleaseAgrees(o: Options, sys: System, id: string, now: int)
    requires OptionsOk(o) && Inv(o, sys.pool) && Agreement(sys) && id in sys.pool.leases
    ensures var s' := RecycleSlot(o, sys.pool, id, now);
            var sys' := System(s', Hook(s', sys.listeners, [id]));
            Inv(o, s') && Agreement(sys') && id !in sys'.listeners && id !in s'.leases
  {
    RecycleEffect(o, sys.pool, id, now);
    assert Elements([id]) == {id};
    RemovalAgrees(o, sys, RecycleSlot(o, sys.pool, id, now), [id]);
  }

  /** Rewriting a lease in place keeps its port and role. */
  lemma RewritingAgrees(o: Options, sys: System, id: string, s': State)
    requires Agreement(sys) && id in sys.pool.leases && Rewrites(o, sys.pool, id, s')
    ensures Agreement(sys.(pool := s'))
  {
  }

  lemma RotateAgrees(o: Options, sys: System, id: string, now: int)
    requires OptionsOk(o) && Inv(o, sys.pool) && Agreement(sys)
    ensures var s' := M.Rotate(o, sys.pool, id, now).state;
            Inv(o, s') && Agreement(sys.(pool := s'))
  {
    if id in sys.pool.leases {
      RotatedKeeps(o, sys.pool, id, now);
      RotatedChanges(o, sys.pool, id, now);
      RewritingAgrees(o, sys, id, M.Rotate(o, sys.pool, id, now).state);
    }
  }

  lemma RecordAgrees(o: Options, sys: System, id: string, now: int)
    requires OptionsOk(o) && Inv(o, sys.pool) && Agreement(sys)
    ensures var s' := M.RecordRequest(o, sys.pool, id, now).state;
            Inv(o, s') && Agreement(sys.(pool := s'))
  {
    if id in sys.pool.leases {
      var s1 := Counted(sys.pool, id, now);
      CountedKeeps(o, sys.pool, id, now);
      RotateAgrees(o, sys.(pool := s1), id, now);
    }
  }

  /** A listener is started for a lease that has none. */
  lemma StartAgrees(sys: System, id: string)
    requires Agreement(sys) && id in sys.pool.leases && id !in sys.listeners
    ensures Agreement(sys.(listeners := sys.listeners[id := sys.pool.leases[id].port])) <==>
            sys.pool.leases[id].role == Client
  {
    assert sys.listeners[id := sys.pool.leases[id].port][id] == sys.pool.leases[id].port;
  }

  lemma ListenAgrees(o: Options, sys: System, id: string, bound: bool, created: bool, undo: int)
    requires OptionsOk(o) && Inv(o, sys.pool) && Agreement(sys) && id in sys.pool.leases
    ensures var sys' := Listen(o, sys, id, bound, created, undo).0;
            Inv(o, sys'.pool) && (Agreement(sys') <==> !ForStandby(sys, id, bound))
  {
    if id !in sys.listeners {
      if bound {
        StartAgrees(sys, id);
      } else if created {
        ReleaseAgrees(o, sys, id, undo);
      }
    }
  }

  /** createLease, for any id, keeps the agreement exactly unless it starts a listener for the
      lease of a standby: it trusts any id that already has a lease. The pool's own
      invariant is kept for ids that no later standby will be given. */
  lemma CreateAgrees(o: Options, sys: System, id: string, persistent: bool, now: int, c: Choice, bound: bool, undo: int)
    requires OptionsOk(o) && Inv(o, sys.pool) && Agreement(sys)
    requires id !in sys.pool.leases ==> AcquireChoice(o, sys.pool, now, c)
    ensures var sys' := CreateLease(o, sys, id, persistent, now, c, bound, undo).0;
            (Safe(sys.pool, id) ==> Inv(o, sys'.pool)) && (Agreement(sys') <==> !ForStandby(sys, id, bound))
  {
    if id in sys.pool.leases {
      ListenAgrees(o, sys, id, bound, false, undo);
    } else if id != "" {
      CreateFreshAgrees(o, sys, id, persistent, now, c, bound, undo);
      if Safe(sys.pool, id) {
        CreateFreshKeeps(o, sys, id, persistent, now, c, bound, undo);
      }
    }
  }

  lemma CreateFreshKeeps(o: Options, sys: System, id: string, persistent: bool, now: int, c: Choice, bound: bool,
    undo: int)
    requires OptionsOk(o) && Inv(o, sys.pool) && Agreement(sys) && Safe(sys.pool, id)
    requires id != "" && id !in sys.pool.leases && AcquireChoice(o, sys.pool, now, c)
    ensures Inv(o, CreateLease(o, sys, id, persistent, now, c, bound, undo).0.pool)
  {
    AcquireAgrees(o, sys, id, persistent, now, c);
    var step := M.Acquire(o, sys.pool, id, persistent, now, c);
    if step.result.Ok? {
      RecycleSlotKeeps(o, step.state, id, undo);
    }
  }

  lemma CreateFreshAgrees(o: Options, sys: System, id: string, persistent: bool, now: int, c: Choice, bound: bool,
    undo: int)
    requires OptionsOk(o) && Inv(o, sys.pool) && Agreement(sys)
    requires id != "" && id !in sys.pool.leases && AcquireChoice(o, sys.pool, now, c)
    ensures Agreement(CreateLease(o, sys, id, persistent, now, c, bound, undo).0)
  {
    ReleaseIdleEffect(o, sys.pool, c.order, now);
    var (mid, released) := M.ReleaseIdle(o, sys.pool, c.order, now);
    AcquireSweptOnly(o, mid, id, persistent, now, c.pick);
    var step := M.Acquire(o, sys.pool, id, persistent, now, c);
    OnlyServingAgrees(o, sys, mid, released, id, step.state);
    if step.result.Ok? {
      ListenToFresh(o, System(step.state, Hook(step.state, sys.listeners, released)), mid, id, bound, undo);
    }
  }

  lemma OnlyServingAgrees(o: Options, sys: System, mid: State, released: seq<string>, id: string, s': State)
    requires Agreement(sys) && KeysOk(sys.pool) && AddsOnlyStandbys(o, sys.pool, mid, Elements(released))
    requires KeepsOthers(mid, s', id) && id !in sys.pool.leases
    ensures Agreement(System(s', Hook(s', sys.listeners, released)))
  {
    forall x | x in sys.listeners && x in released ensures x !in mid.leases {
      GoneStaysGone(o, sys.pool, mid, Elements(released), x);
    }
  }

  /** A listener for the lease just acquired, or its release again. */
  lemma ListenToFresh(o: Options, sys: System, mid: State, id: string, bound: bool, undo: int)
    requires OptionsOk(o) && Agreement(sys) && id !in sys.listeners && id in sys.pool.leases
    requires sys.pool.leases[id].role == Client
    requires KeysOk(mid) && KeepsOthers(mid, sys.pool, id) && sys.pool.standbySeq == mid.standbySeq
    ensures Agreement(Listen(o, sys, id, bound, true, undo).0)
  {
    if bound {
      StartAgrees(sys, id);
    } else {
      forall x | x in sys.listeners
        ensures var s' := RecycleSlot(o, sys.pool, id, undo); x in s'.leases && s'.leases[x] == sys.pool.leases[x]
      {
        assert Safe(sys.pool, x);
        RecycleSpares(o, sys.pool, id, undo, x);
      }
    }
  }

  lemma RecycleAgrees(o: Options, sys: System, id: string, now: int, later: int, c: Choice, bound: bool)
    requires OptionsOk(o) && Inv(o, sys.pool) && Agreement(sys)
    requires id in sys.pool.leases && !sys.pool.leases[id].persistent ==>
             AcquireChoice(o, RecycleSlot(o, sys.pool, id, now), later, c)
    ensures var sys' := RecycleLease(o, sys, id, now, later, c, bound).0;
            Inv(o, sys'.pool) && Agreement(sys')
  {
    if id in sys.pool.leases && !sys.pool.leases[id].persistent {
      var s1 := RecycleSlot(o, sys.pool, id, now);
      ReleaseAgrees(o, sys, id, now);
      RecycleEffect(o, sys.pool, id, now);
      assert Safe(sys.pool, id);
      var detached := System(s1, Hook(s1, sys.listeners, [id]));
      AcquireAgrees(o, detached, id, false, later, c);
      var step := M.Acquire(o, s1, id, false, later, c);
      if step.result.Ok? {
        StartedAgrees(System(step.state, Hook(step.state, detached.listeners, step.released)), id,
          step.state.leases[id].port);
      }
    }
  }

  lemma ConnectAgrees(o: Options, sys: System, id: string, now: int, c: Choice, dialed: bool, later: int)
    requires OptionsOk(o) && Inv(o, sys.pool) && Agreement(sys) && id in sys.listeners
    requires AcquirePortChoice(o, sys.pool, sys.listeners[id], now, c)
    ensures var sys' := Connect(o, sys, id, now, c, dialed, later).0;
            Inv(o, sys'.pool) && Agreement(sys')
  {
    assert Safe(sys.pool, id);
    AcquirePortAgrees(o, sys, id, sys.listeners[id], false, now, c);
    var step := M.AcquirePort(o, sys.pool, id, sys.listeners[id], false, now, c);
    RecordAgrees(o, System(step.state, Hook(step.state, sys.listeners, step.released)), id, later);
  }

  lemma DeleteAgrees(o: Options, sys: System, id: string, now: int)
    requires OptionsOk(o) && Inv(o, sys.pool) && Agreement(sys)
    ensures var sys' := DeleteLease(o, sys, id, now).0;
            Inv(o, sys'.pool) && Agreement(sys')
  {
    if id in sys.pool.leases {
      ReleaseAgrees(o, sys.(listeners := sys.listeners - {id}), id, now);
    }
  }

  lemma SweepAgrees(o: Options, sys: System, order: seq<string>, now: int)
    requires OptionsOk(o) && Inv(o, sys.pool) && Agreement(sys)
    ensures Inv(o, SweepIdle(o, sys, order, now).pool) && Agreement(SweepIdle(o, sys, order, now))
  {
    ReleaseIdleEffect(o, sys.pool, order, now);
    var (s1, released) := M.ReleaseIdle(o, sys.pool, order, now);
    RemovalAgrees(o, sys, s1, released);
  }

  lemma FlagAgrees(o: Options, sys: System, id: string, persistent: bool)
    requires OptionsOk(o) && Inv(o, sys.pool) && Agreement(sys)
    ensures var s' := M.SetPersistent(sys.pool, id, persistent).state;
            Inv(o, s') && Agreement(sys.(pool := s'))
  {
    if id in sys.pool.leases {
      UpdateKeeps(o, sys.pool, id, sys.pool.leases[id].(persistent := persistent));
    }
  }

  lemma PrefixAgrees(o: Options, sys: System, prefix: Option<Cidr>, now: int, order: seq<string>)
    requires OptionsOk(o) && Inv(o, sys.pool) && Agreement(sys)
    requires Enumerates(sys.pool, order) && (prefix.Some? ==> prefix.value.address < Pow2(Width))
    ensures var s' := M.Reassign(o, sys.pool, prefix, now, order).state;
            Inv(o, s') && Agreement(sys.(pool := s'))
  {
    if prefix.Some? {
      ReassignKeeps(o, sys.pool, prefix.value, now, order);
    }
  }

  // ---------- Where the agreement would be lost ----------

  /** Serving an identity on a given port loses the agreement exactly when the identity
      listens on another port and is served all the same, which takes a sweep that has
      just removed its lease. */
  lemma ServingOnPort(o: Options, sys: System, mid: State, released: seq<string>, id: string, port: int, s': State,
    r: Result<Lease, Error>)
    requires Agreement(sys) && KeysOk(sys.pool) && AddsOnlyStandbys(o, sys.pool, mid, Elements(released))
    requires AcquireEffect(o, mid, id, s', r) && (r.Ok? ==> r.value.port == port)
    ensures Agreement(System(s', Hook(s', sys.listeners, released))) <==>
            !(id in sys.listeners && sys.listeners[id] != port && r.Ok?)
    ensures id in sys.listeners && sys.listeners[id] != port && r.Ok? ==> id in released
  {
    if id in sys.listeners && sys.listeners[id] != port && r.Ok? {
      assert s'.leases[id].port == port;
      assert id in Hook(s', sys.listeners, released);
      assert id !in Elements(released) ==> id in mid.leases;
    } else {
      ServingAgrees(o, sys, mid, released, id, s', r);
    }
  }

  /** Being served on a port that one does not listen on takes a swept lease and an open port. */
  lemma ClashNeedsName(o: Options, sys: System, port: nat, now: int, c: Choice)
    requires OptionsOk(o) && Inv(o, sys.pool) && Agreement(sys) && AcquirePortChoice(o, sys.pool, port, now, c)
    requires PortId(port) in sys.listeners && sys.listeners[PortId(port)] != port
    requires M.AcquirePort(o, sys.pool, PortId(port), port, true, now, c).result.Ok?
    ensures NameTaken(o, sys, port, now)
  {
    var s, id := sys.pool, PortId(port);
    PortIdIsNoPoolId(port);
    SweptFirst(o, s, c.order, now);
    var mid := M.ReleaseIdle(o, s, c.order, now).0;
    AcquirePortSweptEffect(o, mid, id, port, true, now, c.pick);
    ServedPortOpen(o, s, mid, M.AcquirePort(o, s, id, port, true, now, c), id, port, now);
  }

  lemma ServedPortOpen(o: Options, s: State, mid: State, step: Step<Result<Lease, Error>>, id: string, port: int,
    now: int)
    requires id in s.leases && s.leases[id].port != port && PortsOk(o, s)
    requires forall k :: k in s.leases && !Sweeps(o, s, k, now) ==> k in mid.leases && mid.leases[k] == s.leases[k]
    requires AcquireEffect(o, mid, id, step.state, step.result) && step.result.Ok? && step.result.value.port == port
    ensures Sweeps(o, s, id, now) && PortOpen(o, s, port, now)
  {
    assert step.state.leases[id].port == port;
    forall k | k in s.leases && s.leases[k].role == Client && !Sweeps(o, s, k, now) ensures s.leases[k].port != port {
      assert k != id ==> step.state.leases[k] == s.leases[k];
    }
  }

  /** What AlwaysOn does to the agreement, in terms of the call's result. */
  lemma AlwaysOnClash(o: Options, sys: System, port: nat, now: int, c: Choice, bound: bool)
    requires OptionsOk(o) && Inv(o, sys.pool) && Agreement(sys) && AcquirePortChoice(o, sys.pool, port, now, c)
    ensures var id := PortId(port);
            var r := M.AcquirePort(o, sys.pool, id, port, true, now, c).result;
            var sys' := AlwaysOn(o, sys, port, now, c, bound).0;
            Inv(o, sys'.pool) && (Agreement(sys') <==> !(id in sys.listeners && sys.listeners[id] != port && r.Ok?))
  {
    var id := PortId(port);
    PortIdIsNoPoolId(port);
    var mid := AcquirePortParts(o, sys.pool, id, port, true, now, c);
    AlwaysOnAfter(o, sys, mid, M.AcquirePort(o, sys.pool, id, port, true, now, c), id, port, bound);
  }

  /** A round of startup, given what its AcquirePort did. */
  lemma AlwaysOnAfter(o: Options, sys: System, mid: State, step: Step<Result<Lease, Error>>, id: string, port: int,
    bound: bool)
    requires Agreement(sys) && KeysOk(sys.pool) && AddsOnlyStandbys(o, sys.pool, mid, Elements(step.released))
    requires AcquireEffect(o, mid, id, step.state, step.result) && (step.result.Ok? ==> step.result.value.port == port)
    ensures var sys1 := System(step.state, Hook(step.state, sys.listeners, step.released));
            var sys' := if step.result.Err? || id in sys1.listeners || !bound then sys1
                        else sys1.(listeners := sys1.listeners[id := port]);
            Agreement(sys') <==> !(id in sys.listeners && sys.listeners[id] != port && step.result.Ok?)
  {
    ServingOnPort(o, sys, mid, step.released, id, port, step.state, step.result);
    var sys1 := System(step.state, Hook(step.state, sys.listeners, step.released));
    if step.result.Ok? && id !in sys1.listeners {
      StartedAgrees(sys1, id, port);
    }
  }

  /** Starting an always-on port loses the agreement exactly when, before the call, a client
      has taken the port's name and listens elsewhere, the sweep is about to take its
      idle lease, the sweep leaves room, and the port is open. */
  lemma AlwaysOnNameTaken(o: Options, sys: System, port: nat, now: int, c: Choice, bound: bool)
    requires OptionsOk(o) && Inv(o, sys.pool) && Agreement(sys) && AcquirePortChoice(o, sys.pool, port, now, c)
    requires M.AcquirePort(o, sys.pool, PortId(port), port, true, now, c).state.failures == sys.pool.failures
    ensures Agreement(AlwaysOn(o, sys, port, now, c, bound).0) <==>
              !(NameTaken(o, sys, port, now) && LeftBySweep(o, sys.pool, now) < o.maxLeases)
  {
    var id := PortId(port);
    AlwaysOnClash(o, sys, port, now, c, bound);
    PortIdIsNoPoolId(port);
    if id in sys.listeners && sys.listeners[id] != port {
      if o.portStart != 0 {
        AcquirePortSucceeds(o, sys.pool, id, port, true, now, c);
      } else {
        assert sys.listeners[id] == 0 && !NameTaken(o, sys, port, now);
        if M.AcquirePort(o, sys.pool, id, port, true, now, c).result.Ok? {
          ClashNeedsName(o, sys, port, now, c);
        }
      }
    }
  }

  lemma AlwaysOnAgrees(o: Options, sys: System, port: nat, now: int, c: Choice, bound: bool)
    requires OptionsOk(o) && Inv(o, sys.pool) && Agreement(sys) && Allowed(o, sys, StartAlwaysOn(port, now, c, bound))
    ensures Inv(o, AlwaysOn(o, sys, port, now, c, bound).0.pool) && Agreement(AlwaysOn(o, sys, port, now, c, bound).0)
  {
    var id := PortId(port);
    AlwaysOnClash(o, sys, port, now, c, bound);
    if NameTaken(o, sys, port, now) {
      AlwaysOnNameTaken(o, sys, port, now, c, bound);
    } else if id in sys.listeners && sys.listeners[id] != port &&
      M.AcquirePort(o, sys.pool, id, port, true, now, c).result.Ok? {
      ClashNeedsName(o, sys, port, now, c);
    }
  }

  lemma StartedAgrees(sys: System, id: string, port: int)
    requires id !in sys.listeners && id in sys.pool.leases
    requires sys.pool.leases[id].role == Client && sys.pool.leases[id].port == port
    ensures Agreement(sys.(listeners := sys.listeners[id := port])) <==> Agreement(sys)
  {
    var sys' := sys.(listeners := sys.listeners[id := port]);
    assert forall x :: x in sys.listeners ==> x in sys'.listeners && sys'.listeners[x] == sys.listeners[x];
  }

  // ---------- Whether a connection is served ----------

  /** A connection to a running listener is served exactly unless its own idle lease is about
      to be swept into a pool that stays full. Then it is refused for the capacity, and the
      id has lost its lease and its listener. */
  lemma ConnectServed(o: Options, sys: System, id: string, now: int, c: Choice, dialed: bool, later: int)
    requires OptionsOk(o) && Inv(o, sys.pool) && Agreement(sys) && id in sys.listeners && o.portStart != 0
    requires AcquirePortChoice(o, sys.pool, sys.listeners[id], now, c)
    requires M.AcquirePort(o, sys.pool, id, sys.listeners[id], false, now, c).state.failures == sys.pool.failures
    ensures var step := M.AcquirePort(o, sys.pool, id, sys.listeners[id], false, now, c);
            && (step.result.Ok? <==> !(Sweeps(o, sys.pool, id, now) && LeftBySweep(o, sys.pool, now) >= o.maxLeases))
            && (step.result.Err? ==>
                  && id in step.released
                  && var (sys', r) := Connect(o, sys, id, now, c, dialed, later);
                     r == Err(Capacity) && id !in sys'.pool.leases && id !in sys'.listeners)
  {
    var s, port := sys.pool, sys.listeners[id];
    AcquirePortSucceeds(o, s, id, port, false, now, c);
    assert PortOpen(o, s, port, now) || !Sweeps(o, s, id, now);
    if Sweeps(o, s, id, now) && LeftBySweep(o, s, now) >= o.maxLeases {
      RefusedAndGone(o, sys, id, now, c);
    }
  }

  lemma RefusedAndGone(o: Options, sys: System, id: string, now: int, c: Choice)
    requires OptionsOk(o) && Inv(o, sys.pool) && Agreement(sys) && id in sys.listeners
    requires AcquirePortChoice(o, sys.pool, sys.listeners[id], now, c)
    requires M.AcquirePort(o, sys.pool, id, sys.listeners[id], false, now, c).state.failures == sys.pool.failures
    requires Sweeps(o, sys.pool, id, now) && LeftBySweep(o, sys.pool, now) >= o.maxLeases
    ensures var step := M.AcquirePort(o, sys.pool, id, sys.listeners[id], false, now, c);
            step.result == Err(Capacity) && id in step.released && id !in step.state.leases
  {
    var s, port := sys.pool, sys.listeners[id];
    SweptFirst(o, s, c.order, now);
    SweepOutcome(o, s, c.order, now);
    var (mid, released) := M.ReleaseIdle(o, s, c.order, now);
    assert id in Elements(released);
    AcquirePortSweptEffect(o, mid, id, port, false, now, c.pick);
  }

  // ---------- Every step and every run ----------

  lemma NextAgrees(o: Options, sys: System, e: Event)
    requires OptionsOk(o) && Inv(o, sys.pool) && Agreement(sys) && Allowed(o, sys, e)
    ensures Inv(o, Next(o, sys, e).pool) && Agreement(Next(o, sys, e))
  {
    match e
    case Create(id, persistent, now, c, bound, undo) => CreateAgrees(o, sys, id, persistent, now, c, bound, undo);
    case Delete(id, now) => DeleteAgrees(o, sys, id, now);
    case Recycle(id, now, later, c, bound) => RecycleAgrees(o, sys, id, now, later, c, bound);
    case Connection(id, now, c, dialed, later) => ConnectAgrees(o, sys, id, now, c, dialed, later);
    case Sweep(now, order) => SweepAgrees(o, sys, order, now);
    case Rotate(id, now) => RotateAgrees(o, sys, id, now);
    case SetPersistent(id, persistent) => FlagAgrees(o, sys, id, persistent);
    case ChangePrefix(prefix, now, order) => PrefixAgrees(o, sys, prefix, now, order);
    case StartAlwaysOn(port, now, c, bound) => AlwaysOnAgrees(o, sys, port, now, c, bound);
    case Undo(id, now) =>
      if id in sys.pool.leases {
        ReleaseAgrees(o, sys, id, now);
      }
    case ListenerDies(id) =>
  }

  /** In every state of every run of the program, each running listener has a client
      lease under its id on exactly its port. */
  lemma {:induction false} ListenersAgreeWithLeases(o: Options, sys: System, es: seq<Event>)
    requires OptionsOk(o) && Inv(o, sys.pool) && Agreement(sys) && Legal(o, sys, es)
    ensures Inv(o, Run(o, sys, es).pool) && Agreement(Run(o, sys, es))
    decreases |es|
  {
    if |es| > 0 {
      NextAgrees(o, sys, es[0]);
      ListenersAgreeWithLeases(o, Next(o, sys, es[0]), es[1..]);
    }
  }
}
