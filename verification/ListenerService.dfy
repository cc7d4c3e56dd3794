/** The two views of the listeners joined: the listener manager's map of entries, seen
    through the ports their sockets are bound to, is the map of running listeners that
    Service works with, and each of its interleaved steps is a change Service knows. */
module ListenerService {
  import opened ListenerManager
  import P = PoolModel
  import S = Service

  /** The running listeners: each filed entry's id and the port of its socket. */
  function Running(m: Manager, ports: EntryId -> int): map<string, int> {
    map id | id in m.listeners :: ports(m.listeners[id])
  }

  /** What a step of the manager does to the running listeners. Start adds one as Service
      does, as long as the manager is open; Stop and a serve goroutine that ends remove
      one; Close removes all; nothing else shows. */
  lemma StepShows(m: Manager, a: Action, ports: EntryId -> int)
    requires Enabled(m, a)
    ensures var before, after := Running(m, ports), Running(Do(m, a), ports);
            match a
            case Start(id, e, bound) =>
              after == if id != "" && !m.closed && !m.cancelled && id !in before &&
                bound then before[id := ports(e)] else before
            case StopTakes(_, id) => after == before - {id}
            case ServeUnlinks(e) => after == if Linked(m, e) then before - {m.entries[e].leaseId} else before
            case CloseEmpties => after == map[]
            case _ => after == before
  {
  }

  /** A Start that the pool backs: its id has a client lease on the port of the socket. */
  predicate Backed(pool: P.State, a: Action, ports: EntryId -> int) {
    a.Start? ==>
      && a.leaseId in pool.leases && pool.leases[a.leaseId].role == P.Client
      && pool.leases[a.leaseId].port == ports(a.e)
  }

  lemma StepAgrees(pool: P.State, m: Manager, a: Action, ports: EntryId -> int)
    requires Enabled(m, a) && Backed(pool, a, ports) && S.Agreement(S.System(pool, Running(m, ports)))
    ensures S.Agreement(S.System(pool, Running(Do(m, a), ports)))
  {
    StepShows(m, a, ports);
  }

  /** Between two operations of the pool the manager may run through any interleaving of its
      steps: while only leases of the pool are given listeners, the agreement stays. */
  lemma {:induction false} InterleavingsAgree(pool: P.State, m: Manager, run: seq<Action>, ports: EntryId -> int)
    requires Legal(m, run) && S.Agreement(S.System(pool, Running(m, ports)))
    requires forall a :: a in run ==> Backed(pool, a, ports)
    ensures S.Agreement(S.System(pool, Running(Run(m, run), ports)))
    decreases |run|
  {
    if |run| > 0 {
      StepAgrees(pool, m, run[0], ports);
      InterleavingsAgree(pool, Do(m, run[0]), run[1..], ports);
    }
  }
}
