/** What the handlers, a connection and a sweep do to the program: to the lease and the listener
    they are about, and to everybody else's. */
module ServiceOutcomes {
  import opened Wrappers
  import opened Ids
  import opened PoolInvariant
  import opened PoolSteps
  import opened PoolModel
  import opened PoolTheorems
  import opened PoolOutcomes
  import opened Service
  import R = PoolRecycle
  import M = PoolModel

  // ---------- Everybody else ----------

  /** Of all clients but `id`, exactly the overdue ones have lost their lease, and a listener has
      stopped exactly if its lease is gone. No other listener has started or moved. */
  ghost predicate OthersKept(o: Options, sys: System, sys': System, id: string, now: int) {
    && (forall k :: k in sys.pool.leases && sys.pool.leases[k].role == Client && k != id ==>
          if Overdue(o, sys.pool, k, now) then k !in sys'.pool.leases
          else k in sys'.pool.leases && sys'.pool.leases[k] == sys.pool.leases[k])
    && OnlyStopped(sys, sys', id)
  }

  ghost predicate OnlyStopped(sys: System, sys': System, id: string) {
    && (forall k :: k in sys.listeners && k != id ==> (k in sys'.listeners <==> k in sys'.pool.leases))
    && (forall k :: k in sys'.listeners && k != id ==> k in sys.listeners && sys'.listeners[k] == sys.listeners[k])
  }

  /** A sweep and then the service of one id. */
  lemma SweptAndServed(o: Options, sys: System, id: string, now: int, order: seq<string>, s': State)
    requires OptionsOk(o) && Inv(o, sys.pool) && Agreement(sys) && Covers(o, sys.pool, order)
    requires KeepsOthers(M.ReleaseIdle(o, sys.pool, order, now).0, s', id)
    ensures var released := M.ReleaseIdle(o, sys.pool, order, now).1;
            OthersKept(o, sys, System(s', Hook(s', sys.listeners, released)), id, now)
  {
    IdleReleased(o, sys.pool, order, now);
    var (mid, released) := M.ReleaseIdle(o, sys.pool, order, now);
    forall k | k in sys.listeners && k != id && k !in s'.leases ensures k in released {
      assert k in sys.pool.leases && sys.pool.leases[k].role == Client;
    }
  }

  // ---------- deleteLease ----------

  ghost predicate OneClientFewer(o: Options, s: State, s': State) {
    if s.standbyCount < o.minLeases then
      s'.standbyCount == s.standbyCount + 1 && |s'.leases| == |s.leases|
    else
      s'.standbyCount == s.standbyCount && |s'.leases| == |s.leases| - 1
  }

  /** Deleting succeeds exactly for a lease with a running listener. Then both are gone, every other
      lease and listener is as it was, and the pool has one client fewer: it has one standby
      more while standbys are short, and otherwise one lease fewer. */
  lemma LeaseDeleted(o: Options, sys: System, id: string, now: int)
    requires OptionsOk(o) && Inv(o, sys.pool) && Agreement(sys)
    ensures var (sys', ok) := DeleteLease(o, sys, id, now);
            && (ok <==> id in sys.pool.leases && id in sys.listeners)
            && (!ok ==> sys' == sys)
            && (ok ==>
                  && id !in sys'.pool.leases && sys'.listeners == sys.listeners - {id}
                  && (forall k :: k in sys.pool.leases && k != id ==>
                        k in sys'.pool.leases && sys'.pool.leases[k] == sys.pool.leases[k])
                  && NewAreReady(sys.pool, sys'.pool, now)
                  && (sys'.pool.failures == sys.pool.failures ==> OneClientFewer(o, sys.pool, sys'.pool)))
  {
    if id in sys.pool.leases && id in sys.listeners {
      var s' := RecycleSlot(o, sys.pool, id, now);
      RecycleEffect(o, sys.pool, id, now);
      RecycleReady(o, sys.pool, id, now);
      FewerByOne(o, sys.pool, id, s');
      assert Hook(s', sys.listeners - {id}, [id]) == sys.listeners - {id};
    }
  }

  lemma FewerByOne(o: Options, s: State, id: string, s': State)
    requires s.standbyCount <= o.minLeases && id in s.leases && s.leases[id].role == Client
    requires s'.failures == s.failures ==> RecycleCounts(o, s, id, s')
    ensures s'.failures == s.failures ==> OneClientFewer(o, s, s')
  {
  }

  // ---------- createLease ----------

  /** For an id that has a lease the pool stays as it is: the answer is that lease, and its listener
      runs afterwards, exactly if it ran before or could be bound. */
  lemma LeaseReused(o: Options, sys: System, id: string, persistent: bool, now: int, c: Choice, bound: bool, undo: int)
    requires OptionsOk(o) && Inv(o, sys.pool) && Agreement(sys) && id in sys.pool.leases
    ensures var (sys', r) := CreateLease(o, sys, id, persistent, now, c, bound, undo);
            && sys'.pool == sys.pool
            && if id in sys.listeners || bound then
                 r == Ok(sys.pool.leases[id]) && sys'.listeners == sys.listeners[id := sys.pool.leases[id].port]
               else
                 r == Err(PortUnavailable) && sys'.listeners == sys.listeners
  {
    if id in sys.listeners {
      assert sys.listeners[id := sys.pool.leases[id].port] == sys.listeners;
    }
  }

  /** Success is a new client lease with its listener on its port, and failure leaves neither. */
  ghost predicate CreatedOrNot(sys': System, id: string, persistent: bool, now: int, r: Result<Lease, Error>) {
    if r.Ok? then
      && NewClient(r.value, id, persistent, now)
      && id in sys'.pool.leases && sys'.pool.leases[id] == r.value
      && id in sys'.listeners && sys'.listeners[id] == r.value.port
    else
      id !in sys'.pool.leases && id !in sys'.listeners
  }

  /** For an id without a lease: a lease whose listener could not be bound is released again. While
      no allocation fails, success takes the listener and room after the sweep. */
  lemma LeaseCreated(o: Options, sys: System, id: string, persistent: bool, now: int, c: Choice, bound: bool,
    undo: int)
    requires OptionsOk(o) && Inv(o, sys.pool) && Agreement(sys) && Safe(sys.pool, id)
    requires id != "" && id !in sys.pool.leases && AcquireChoice(o, sys.pool, now, c)
    ensures var (sys', r) := CreateLease(o, sys, id, persistent, now, c, bound, undo);
            && OthersKept(o, sys, sys', id, now) && CreatedOrNot(sys', id, persistent, now, r)
            && (sys'.pool.failures == sys.pool.failures ==>
                  (r.Ok? <==> bound && LeftBySweep(o, sys.pool, now) < o.maxLeases))
  {
    AcquiredForCreate(o, sys, id, persistent, now, c);
    var step := M.Acquire(o, sys.pool, id, persistent, now, c);
    var sys1 := System(step.state, Hook(step.state, sys.listeners, step.released));
    if step.result.Ok? {
      ListenedTo(o, sys, sys1, id, persistent, now, step.result.value, bound, undo);
    }
  }

  /** The second half of createLease. */
  lemma ListenedTo(o: Options, sys: System, sys1: System, id: string, persistent: bool, now: int, l: Lease,
    bound: bool, undo: int)
    requires OptionsOk(o) && Inv(o, sys1.pool) && KeysOk(sys.pool) && Agreement(sys)
    requires OthersKept(o, sys, sys1, id, now) && sys.pool.standbySeq <= sys1.pool.standbySeq
    requires NewClient(l, id, persistent, now) && id in sys1.pool.leases && sys1.pool.leases[id] == l
    requires id !in sys1.listeners
    ensures var (sys', r) := Listen(o, sys1, id, bound, true, undo);
            && OthersKept(o, sys, sys', id, now) && CreatedOrNot(sys', id, persistent, now, r)
            && sys'.pool.failures >= sys1.pool.failures && (r.Ok? <==> bound)
  {
    if bound {
      ListenerAdded(o, sys, sys1, id, now, l.port);
    } else {
      RolledBackLease(o, sys, sys1, id, now, undo);
    }
  }

  lemma ListenerAdded(o: Options, sys: System, sys1: System, id: string, now: int, port: int)
    requires OthersKept(o, sys, sys1, id, now)
    ensures OthersKept(o, sys, sys1.(listeners := sys1.listeners[id := port]), id, now)
  {
  }

  /** createLease before it looks for the listener. */
  lemma AcquiredForCreate(o: Options, sys: System, id: string, persistent: bool, now: int, c: Choice)
    requires OptionsOk(o) && Inv(o, sys.pool) && Agreement(sys) && Safe(sys.pool, id)
    requires id != "" && id !in sys.pool.leases && AcquireChoice(o, sys.pool, now, c)
    ensures var step := M.Acquire(o, sys.pool, id, persistent, now, c);
            var sys1 := System(step.state, Hook(step.state, sys.listeners, step.released));
            && OthersKept(o, sys, sys1, id, now) && id !in sys1.listeners
            && Inv(o, step.state) && sys.pool.standbySeq <= step.state.standbySeq
            && sys.pool.failures <= step.state.failures
            && (if step.result.Ok? then
                  && NewClient(step.result.value, id, persistent, now)
                  && id in step.state.leases && step.state.leases[id] == step.result.value
                else id !in step.state.leases)
            && (step.state.failures == sys.pool.failures ==>
                  (step.result.Ok? <==> LeftBySweep(o, sys.pool, now) < o.maxLeases))
  {
    var mid := M.ReleaseIdle(o, sys.pool, c.order, now).0;
    SweptFirst(o, sys.pool, c.order, now);
    AcquireSweptEffect(o, mid, id, persistent, now, c.pick);
    AcquireUnknown(o, sys.pool, id, persistent, now, c);
    var step := M.Acquire(o, sys.pool, id, persistent, now, c);
    SweptAndServed(o, sys, id, now, c.order, step.state);
    if step.result.Ok? {
      GivenIsNew(mid, id, persistent, now, step.state, step.result.value);
    }
  }

  lemma GivenIsNew(mid: State, id: string, persistent: bool, now: int, s': State, l: Lease)
    requires SlotGiven(mid, id, persistent, now, s', l)
    ensures NewClient(l, id, persistent, now) && id in s'.leases && s'.leases[id] == l
  {
  }

  /** Releasing the lease of `id` once more hurts nobody else. */
  lemma RolledBackLease(o: Options, sys: System, sys1: System, id: string, now: int, undo: int)
    requires OptionsOk(o) && Inv(o, sys1.pool) && id in sys1.pool.leases && id !in sys1.listeners
    requires OthersKept(o, sys, sys1, id, now) && Agreement(sys) && KeysOk(sys.pool)
    requires sys.pool.standbySeq <= sys1.pool.standbySeq
    ensures var step := M.Release(o, sys1.pool, id, undo);
            var sys' := System(step.state, Hook(step.state, sys1.listeners, step.released));
            && OthersKept(o, sys, sys', id, now)
            && id !in sys'.pool.leases && id !in sys'.listeners && sys'.pool.failures >= sys1.pool.failures
  {
    RecycleEffect(o, sys1.pool, id, undo);
    var s' := RecycleSlot(o, sys1.pool, id, undo);
    assert Hook(s', sys1.listeners, [id]) == sys1.listeners;
    StillKept(o, sys, sys1, id, now, s');
  }

  lemma StillKept(o: Options, sys: System, sys1: System, id: string, now: int, s': State)
    requires OthersKept(o, sys, sys1, id, now) && Agreement(sys) && KeysOk(sys.pool)
    requires sys.pool.standbySeq <= sys1.pool.standbySeq && AddsOnlyStandbys(o, sys1.pool, s', {id})
    ensures OthersKept(o, sys, System(s', sys1.listeners), id, now)
  {
    forall k | k in sys.pool.leases && k != id ensures k in s'.leases ==> k in sys1.pool.leases {
      assert Safe(sys1.pool, k);
    }
  }

  // ---------- recycleLease ----------

  /** The client k is idle at `later`, and the pool is above its floor once the client `id` has been
      released. */
  ghost predicate OverdueWithout(o: Options, s: State, id: string, k: string, later: int) {
    && o.idleTimeout > 0
    && (if s.standbyCount < o.minLeases then |s.leases| else |s.leases| - 1) > o.minLeases
    && k in s.leases && k != id && s.leases[k].role == Client && !s.leases[k].persistent
    && later - s.leases[k].lastUsedAt >= o.idleTimeout
  }

  lemma OthersIdleAreOverdue(o: Options, s: State, id: string, later: int, k: string)
    ensures k in R.OthersIdle(o, s, id, later) <==> OverdueWithout(o, s, id, k, later)
  {
  }

  /** An unknown id and a persistent lease are refused, and nothing changes. */
  lemma RecycleRefused(o: Options, sys: System, id: string, now: int, later: int, c: Choice, bound: bool)
    requires OptionsOk(o) && (id in sys.pool.leases ==> sys.pool.leases[id].persistent)
    ensures RecycleLease(o, sys, id, now, later, c, bound)
            == (sys, Err(if id in sys.pool.leases then Anchored else NotFound))
  {
  }

  /** Otherwise success is a new client lease under the same id with its listener on its port. If the
      pool refuses, the id has neither any more; if only the listener cannot be bound, the
      new lease stays without one. Any other listener stops exactly if its lease is gone. */
  lemma LeaseRecycled(o: Options, sys: System, id: string, now: int, later: int, c: Choice, bound: bool)
    requires OptionsOk(o) && Inv(o, sys.pool) && Agreement(sys)
    requires id in sys.pool.leases && !sys.pool.leases[id].persistent
    requires AcquireChoice(o, RecycleSlot(o, sys.pool, id, now), later, c)
    ensures var (sys', r) := RecycleLease(o, sys, id, now, later, c, bound);
            var lease := M.Recycle(o, sys.pool, id, now, later, c).result;
            && sys'.pool == M.Recycle(o, sys.pool, id, now, later, c).state
            && (if lease.Err? then r == lease && id !in sys'.pool.leases && id !in sys'.listeners
                else
                  && NewClient(lease.value, id, false, later)
                  && id in sys'.pool.leases && sys'.pool.leases[id] == lease.value
                  && if bound then r == lease && id in sys'.listeners && sys'.listeners[id] == lease.value.port
                     else r == Err(PortUnavailable) && id !in sys'.listeners)
            && OnlyStopped(sys, sys', id)
  {
    var s1 := RecycleSlot(o, sys.pool, id, now);
    RecycleAnswers(o, sys.pool, id, now, later, c);
    ReleaseAgrees(o, sys, id, now);
    RecycleEffect(o, sys.pool, id, now);
    assert Safe(sys.pool, id);
    var detached := System(s1, Hook(s1, sys.listeners, [id]));
    DetachedListeners(sys, s1, id);
    AcquiredForCreate(o, detached, id, false, later, c);
    var step := M.Acquire(o, s1, id, false, later, c);
    OnlyStoppedTwice(o, sys, detached, System(step.state, Hook(step.state, detached.listeners, step.released)), id);
  }

  lemma DetachedListeners(sys: System, s1: State, id: string)
    requires Agreement(sys) && id !in s1.leases
    ensures Hook(s1, sys.listeners, [id]) == sys.listeners - {id}
  {
  }

  lemma OnlyStoppedTwice(o: Options, sys: System, sys1: System, sys2: System, id: string)
    requires sys1.listeners == sys.listeners - {id} && OnlyStopped(sys1, sys2, id)
    ensures OnlyStopped(sys, sys2, id)
  {
  }

  /** Of the other clients exactly those lose their lease that are idle then. */
  lemma RecycleSparesOthers(o: Options, sys: System, id: string, now: int, later: int, c: Choice, k: string)
    requires OptionsOk(o) && Inv(o, sys.pool) && R.Recyclable(o, sys.pool, id, now, later, c)
    requires k in sys.pool.leases && k != id && sys.pool.leases[k].role == Client
    ensures var s' := M.Recycle(o, sys.pool, id, now, later, c).state;
            if OverdueWithout(o, sys.pool, id, k, later) then k !in s'.leases
            else k in s'.leases && s'.leases[k] == sys.pool.leases[k]
  {
    var s, s1 := sys.pool, RecycleSlot(o, sys.pool, id, now);
    RecycleEffect(o, s, id, now);
    R.RecycleInBetween(o, s, id, now, later, c);
    R.RecycledSlot(o, s, id, now);
    R.OthersAreIdle(o, s, id, s1, later);
    SweptFirst(o, s1, c.order, later);
    var mid := R.Between(o, s, id, now, later, c);
    AcquireSweptEffect(o, mid, id, false, later, c.pick);
    OthersIdleAreOverdue(o, s, id, later, k);
  }

  // ---------- A connection ----------

  /** What the pool's answer to a connection is to make of the lease before it is recorded. */
  ghost predicate ServedOnPort(o: Options, s: State, id: string, port: int, now: int, l: Lease)
    requires id in s.leases
  {
    if Overdue(o, s, id, now) then NewClient(l, id, false, now) && l.port == port
    else ServedAgain(o, s, s.leases[id], false, now, l)
  }

  /** A request is recorded in the lease l. */
  ghost predicate CountedOn(o: Options, l: Lease, later: int, l': Lease) {
    && l'.id == l.id && l'.port == l.port && l'.role == l.role && l'.persistent == l.persistent
    && l'.lastUsedAt == later
    && if o.rotateRequests == 0 || l.requests + 1 < o.rotateRequests then
         l' == l.(requests := l.requests + 1, lastUsedAt := later)
       else l'.ipv6 != l.ipv6 && l'.requests == 0 && l'.createdAt == later
  }

  /** A connection that finds a lease and, if the destination answers, can have it recorded: the lease
      is the listener's own, presented again or new, with one request more if the
      destination answered. Everybody else is as a sweep leaves them. */
  lemma ConnectionCounted(o: Options, sys: System, id: string, now: int, c: Choice, dialed: bool, later: int)
    requires OptionsOk(o) && Inv(o, sys.pool) && Agreement(sys) && id in sys.listeners && o.portStart != 0
    requires AcquirePortChoice(o, sys.pool, sys.listeners[id], now, c)
    ensures var (sys', r) := Connect(o, sys, id, now, c, dialed, later);
            && OthersKept(o, sys, sys', id, now)
            && (r.Ok? ==>
                  && id in sys'.pool.leases && sys'.pool.leases[id] == r.value
                  && id in sys'.listeners && sys'.listeners[id] == sys.listeners[id]
                  && exists l :: ServedOnPort(o, sys.pool, id, sys.listeners[id], now, l)
                                 && if dialed then CountedOn(o, l, later, r.value) else r.value == l)
  {
    var port := sys.listeners[id];
    assert Safe(sys.pool, id);
    AcquiredForConnection(o, sys, id, now, c);
    var step := M.AcquirePort(o, sys.pool, id, port, false, now, c);
    var sys1 := System(step.state, Hook(step.state, sys.listeners, step.released));
    if step.result.Ok? && dialed {
      RecordedForConnection(o, sys, sys1, id, now, later);
    }
  }

  lemma AcquiredForConnection(o: Options, sys: System, id: string, now: int, c: Choice)
    requires OptionsOk(o) && Inv(o, sys.pool) && Agreement(sys) && id in sys.listeners && o.portStart != 0
    requires AcquirePortChoice(o, sys.pool, sys.listeners[id], now, c)
    ensures var step := M.AcquirePort(o, sys.pool, id, sys.listeners[id], false, now, c);
            var sys1 := System(step.state, Hook(step.state, sys.listeners, step.released));
            && OthersKept(o, sys, sys1, id, now) && Inv(o, step.state)
            && (step.result.Ok? ==>
                  && id in step.state.leases && step.state.leases[id] == step.result.value
                  && ServedOnPort(o, sys.pool, id, sys.listeners[id], now, step.result.value)
                  && id in sys1.listeners && sys1.listeners[id] == sys.listeners[id])
  {
    var s, port := sys.pool, sys.listeners[id];
    assert Safe(s, id);
    SweptFirst(o, s, c.order, now);
    var mid := M.ReleaseIdle(o, s, c.order, now).0;
    AcquirePortSweptEffect(o, mid, id, port, false, now, c.pick);
    var step := M.AcquirePort(o, s, id, port, false, now, c);
    SweptAndServed(o, sys, id, now, c.order, step.state);
    if Overdue(o, s, id, now) {
      AcquirePortUnknown(o, s, id, port, false, now, c);
      if step.result.Ok? {
        PortGivenIsNew(mid, id, port, now, step.state, step.result.value);
      }
    } else {
      AcquirePortKnown(o, s, id, port, false, now, c);
    }
  }

  lemma PortGivenIsNew(mid: State, id: string, port: int, now: int, s': State, l: Lease)
    requires PortGiven(mid, id, port, false, now, s', l)
    ensures NewClient(l, id, false, now) && l.port == port
  {
  }

  lemma RecordedForConnection(o: Options, sys: System, sys1: System, id: string, now: int, later: int)
    requires OptionsOk(o) && Inv(o, sys1.pool) && id in sys1.pool.leases && OthersKept(o, sys, sys1, id, now)
    ensures var step := M.RecordRequest(o, sys1.pool, id, later);
            && OthersKept(o, sys, sys1.(pool := step.state), id, now)
            && (step.result.Ok? ==>
                  && id in step.state.leases && step.state.leases[id] == step.result.value
                  && CountedOn(o, sys1.pool.leases[id], later, step.result.value))
  {
    RequestCounted(o, sys1.pool, id, later);
    var s' := M.RecordRequest(o, sys1.pool, id, later).state;
    assert forall k :: k != id ==> (k in s'.leases <==> k in sys1.pool.leases);
  }

  // ---------- The sweeper ----------

  /** A sweep takes exactly the overdue leases, and stops exactly the listeners of those. */
  lemma IdleSwept(o: Options, sys: System, order: seq<string>, now: int)
    requires OptionsOk(o) && Inv(o, sys.pool) && Agreement(sys) && Covers(o, sys.pool, order)
    ensures var sys' := SweepIdle(o, sys, order, now);
            && (forall k :: k in sys.pool.leases ==>
                  if Overdue(o, sys.pool, k, now) then k !in sys'.pool.leases && k !in sys'.listeners
                  else k in sys'.pool.leases && sys'.pool.leases[k] == sys.pool.leases[k])
            && (forall k :: k in sys'.listeners <==> k in sys.listeners && !Overdue(o, sys.pool, k, now))
            && (forall k :: k in sys'.listeners ==> sys'.listeners[k] == sys.listeners[k])
  {
    IdleReleased(o, sys.pool, order, now);
    OverdueGoes(o, sys.pool, order, now);
  }

  lemma OverdueGoes(o: Options, s: State, order: seq<string>, now: int)
    requires OptionsOk(o) && Inv(o, s) && Covers(o, s, order)
    ensures var (s', released) := M.ReleaseIdle(o, s, order, now);
            forall k :: k in s.leases ==>
              && (k in released <==> Overdue(o, s, k, now))
              && (Overdue(o, s, k, now) ==> k !in s'.leases)
              && (!Overdue(o, s, k, now) ==> k in s'.leases && s'.leases[k] == s.leases[k])
  {
    IdleReleased(o, s, order, now);
  }

  // ---------- An always-on port ----------

  /** A client's lease on this port, pinned and used just now. */
  ghost predicate PinnedNow(l: Lease, port: int, now: int) {
    l.role == Client && l.port == port && l.persistent && l.lastUsedAt == now
  }

  /** A round of startup succeeds, while no allocation fails, exactly if the listener can be bound, no
      listener of that name runs, and the port is to be had. Then a persistent client lease
      is on that port, and so is its listener. */
  lemma PortStarted(o: Options, sys: System, port: nat, now: int, c: Choice, bound: bool)
    requires OptionsOk(o) && Inv(o, sys.pool) && Agreement(sys) && o.portStart != 0
    requires AcquirePortChoice(o, sys.pool, port, now, c)
    ensures var (sys', ok) := AlwaysOn(o, sys, port, now, c, bound);
            var id := PortId(port);
            && OthersKept(o, sys, sys', id, now)
            && (ok ==>
                  && id in sys'.listeners && sys'.listeners[id] == port
                  && id in sys'.pool.leases && PinnedNow(sys'.pool.leases[id], port, now))
            && (M.AcquirePort(o, sys.pool, id, port, true, now, c).state.failures == sys.pool.failures ==>
                  (ok <==> bound && id !in sys.listeners && PortForTheAsking(o, sys.pool, id, port, now)))
  {
    var s, id := sys.pool, PortId(port);
    PortIdIsNoPoolId(port);
    AcquiredForPort(o, sys, id, port, now, c);
    var step := M.AcquirePort(o, s, id, port, true, now, c);
    if step.state.failures == s.failures {
      AcquirePortSucceeds(o, s, id, port, true, now, c);
    }
    if step.result.Ok? && bound {
      ListenerAdded(o, sys, System(step.state, Hook(step.state, sys.listeners, step.released)), id, now, port);
    }
  }

  lemma AcquiredForPort(o: Options, sys: System, id: string, port: int, now: int, c: Choice)
    requires OptionsOk(o) && Inv(o, sys.pool) && Agreement(sys) && o.portStart != 0
    requires id != "" && !IsPoolId(id) && Safe(sys.pool, id) && AcquirePortChoice(o, sys.pool, port, now, c)
    ensures var step := M.AcquirePort(o, sys.pool, id, port, true, now, c);
            var sys1 := System(step.state, Hook(step.state, sys.listeners, step.released));
            && OthersKept(o, sys, sys1, id, now)
            && (step.result.Ok? ==>
                  && (id in sys1.listeners <==> id in sys.listeners)
                  && id in step.state.leases && step.state.leases[id] == step.result.value
                  && PinnedNow(step.result.value, port, now))
  {
    var s := sys.pool;
    SweptFirst(o, s, c.order, now);
    AcquirePortSweptEffect(o, M.ReleaseIdle(o, s, c.order, now).0, id, port, true, now, c.pick);
    var step := M.AcquirePort(o, s, id, port, true, now, c);
    SweptAndServed(o, sys, id, now, c.order, step.state);
    PinnedByPort(o, s, id, port, now, c);
  }

  lemma PinnedByPort(o: Options, s: State, id: string, port: int, now: int, c: Choice)
    requires OptionsOk(o) && Inv(o, s) && o.portStart != 0
    requires id != "" && !IsPoolId(id) && Safe(s, id) && AcquirePortChoice(o, s, port, now, c)
    ensures var r := M.AcquirePort(o, s, id, port, true, now, c).result; r.Ok? ==> PinnedNow(r.value, port, now)
  {
    if id in s.leases && !Overdue(o, s, id, now) {
      AcquirePortKnown(o, s, id, port, true, now, c);
    } else {
      AcquirePortUnknown(o, s, id, port, true, now, c);
      var step := M.AcquirePort(o, s, id, port, true, now, c);
      if step.result.Ok? {
        GivenIsPinned(M.ReleaseIdle(o, s, c.order, now).0, id, port, now, step.state, step.result.value);
      }
    }
  }

  lemma GivenIsPinned(mid: State, id: string, port: int, now: int, s': State, l: Lease)
    requires PortGiven(mid, id, port, true, now, s', l)
    ensures PinnedNow(l, port, now)
  {
  }
}
