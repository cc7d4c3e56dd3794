/** What the pool promises over whole runs: ports and capacity, persistent leases,
    draining, slot choice, recycling and sequential addresses. */
module PoolTheorems {
  import opened Wrappers
  import opened Ids
  import opened Ipv6Addr
  import opened PoolInvariant
  import opened PoolSteps
  import opened PoolReassign
  import opened PoolModel
  import opened PoolRuns
  import M = PoolModel

  // ---------- Ports ----------

  function Interval(lo: int, hi: int): (r: set<int>)
    ensures forall p :: p in r <==> lo <= p <= hi
    ensures lo <= hi + 1 ==> |r| == hi - lo + 1
    decreases hi - lo
  {
    if lo > hi then {} else Interval(lo, hi - 1) + {hi}
  }

  function LeasedPorts(leases: map<string, Lease>): set<int> {
    set k | k in leases :: leases[k].port
  }

  lemma {:induction false} LeasedPortsSize(leases: map<string, Lease>)
    requires forall j, k :: j in leases && k in leases && leases[j].port == leases[k].port ==> j == k
    ensures |LeasedPorts(leases)| == |leases|
    decreases |leases|
  {
    if leases != map[] {
      var k :| k in leases;
      StandbysRemove(leases, k);
      LeasedPortsSize(leases - {k});
      forall p ensures p in LeasedPorts(leases) <==> p in LeasedPorts(leases - {k}) + {leases[k].port} {
        if p in LeasedPorts(leases) && p != leases[k].port {
          var j :| j in leases && leases[j].port == p;
          assert j in leases - {k} && (leases - {k})[j].port == p;
        }
      }
      assert LeasedPorts(leases) == LeasedPorts(leases - {k}) + {leases[k].port};
    } else {
      assert LeasedPorts(leases) == {};
    }
  }

  lemma {:induction false} AscendingSize(xs: seq<int>)
    requires Ascending(xs)
    ensures |(set x | x in xs)| == |xs|
  {
    if |xs| > 0 {
      TailAscending(xs);
      AscendingSize(xs[1..]);
      assert (set x | x in xs) == (set x | x in xs[1..]) + {xs[0]};
    } else {
      assert (set x | x in xs) == {};
    }
  }

  lemma Covered(lo: int, hi: int, free: seq<int>, leased: set<int>, p: int)
    requires Ascending(free) && |free| + |leased| == hi - lo + 1
    requires forall x :: x in free ==> lo <= x <= hi && x !in leased
    requires forall x :: x in leased ==> lo <= x <= hi
    ensures lo <= p <= hi <==> p in free || p in leased
  {
    var all := (set x | x in free) + leased;
    AscendingSize(free);
    assert |all| == |free| + |leased|;
    SameSize(all, Interval(lo, hi));
  }

  lemma SameSize(a: set<int>, b: set<int>)
    requires a <= b && |a| == |b|
    ensures a == b
  {
    assert b == a + (b - a);
  }

  /** Free and leased ports partition the configured range: nothing is lost, nothing is
      held twice, and a port outside the range is neither. */
  lemma PortPartition(o: Options, s: State, p: int)
    requires OptionsOk(o) && Inv(o, s) && o.portStart != 0
    ensures o.portStart <= p <= o.portEnd <==> p in s.freePorts || p in LeasedPorts(s.leases)
    ensures !(p in s.freePorts && p in LeasedPorts(s.leases))
  {
    assert PortsOk(o, s);
    LeasedPortsSize(s.leases);
    Covered(o.portStart, o.portEnd, s.freePorts, LeasedPorts(s.leases), p);
  }

  /** In port mode every lease ever seen in a run has a port of the range: the fall-back
      to port 0 in newEntryLocked is unreachable. */
  lemma NeverPortZero(o: Options, s: State, es: seq<Event>, k: string)
    requires OptionsOk(o) && Inv(o, s) && Legal(o, s, es) && o.portStart != 0 && k in Run(o, s, es).leases
    ensures 1 <= o.portStart <= Run(o, s, es).leases[k].port <= o.portEnd
    ensures |Run(o, s, es).leases| <= o.portEnd - o.portStart + 1
  {
    AlwaysInv(o, s, es);
  }

  // ---------- The identifier hypothesis ----------

  /** No port disappears: what was free or leased is free or leased. */
  ghost predicate PortsKept(s: State, s': State) {
    forall p :: p in s.freePorts || p in LeasedPorts(s.leases) ==> p in s'.freePorts || p in LeasedPorts(s'.leases)
  }

  /** The lease under k has been overwritten: another address and a standby's role are
      filed there now, and its port is neither free nor leased. */
  ghost predicate Overwritten(s: State, s': State, k: string, a: Address) {
    && k in s.leases && k in s'.leases && s'.leases[k].role == Standby && s'.leases[k].ipv6 == a
    && s.leases[k].port !in s'.freePorts && s.leases[k].port !in LeasedPorts(s'.leases)
  }

  /** Creating a standby files it under the next generated id without a look. Leases and
      ports are conserved exactly when that id is free; otherwise its lease is overwritten. */
  lemma StandbyOverwrites(o: Options, s: State, a: Address, now: int)
    requires OptionsOk(o) && PortsOk(o, s) && (o.portStart != 0 ==> |s.freePorts| > 0)
    ensures var s', k := Seeded(o, s, a, now), PoolId(s.standbySeq + 1);
            && (|s'.leases| == |s.leases| + 1 <==> k !in s.leases)
            && (o.portStart != 0 ==>
                 (PortsKept(s, s') <==> k !in s.leases) && (k in s.leases ==> Overwritten(s, s', k, a)))
  {
    var s', k := Seeded(o, s, a, now), PoolId(s.standbySeq + 1);
    if k in s.leases {
      assert s'.leases.Keys == s.leases.Keys;
    } else {
      SizePut(s.leases, s'.leases[k]);
    }
    if o.portStart != 0 {
      SeededPorts(o, s, a, now);
    }
  }

  lemma SeededPorts(o: Options, s: State, a: Address, now: int)
    requires OptionsOk(o) && PortsOk(o, s) && o.portStart != 0 && |s.freePorts| > 0
    ensures var s', k := Seeded(o, s, a, now), PoolId(s.standbySeq + 1);
            (PortsKept(s, s') <==> k !in s.leases) && (k in s.leases ==> Overwritten(s, s', k, a))
  {
    var s', k := Seeded(o, s, a, now), PoolId(s.standbySeq + 1);
    assert s'.leases[k].port == s.freePorts[0];
    if k in s.leases {
      assert s.leases[k].port in LeasedPorts(s.leases);
    } else {
      forall p | p in LeasedPorts(s.leases) ensures p in LeasedPorts(s'.leases) {
        var j :| j in s.leases && s.leases[j].port == p;
        assert s'.leases[j].port == p;
      }
    }
  }

  /** A conversion files its standby without a look, too. Here nothing is lost when the
      generated id is the one being recycled; any other lease under it is overwritten. */
  lemma ConversionOverwrites(o: Options, s: State, id: string, a: Address, now: int)
    requires OptionsOk(o) && PortsOk(o, s) && id in s.leases
    ensures var s', k := Convert(s, id, a, now), PoolId(s.standbySeq + 1);
            && (|s'.leases| == |s.leases| <==> k !in s.leases || k == id)
            && (o.portStart != 0 ==>
                  && (PortsKept(s, s') <==> k !in s.leases || k == id)
                  && (k in s.leases && k != id ==> Overwritten(s, s', k, a)))
  {
    var s', k := Convert(s, id, a, now), PoolId(s.standbySeq + 1);
    StandbysRemove(s.leases, id);
    if k in s.leases && k != id {
      assert s'.leases.Keys == (s.leases - {id}).Keys;
    } else {
      SizePut(s.leases - {id}, s'.leases[k]);
    }
    if o.portStart != 0 {
      ConvertedPorts(o, s, id, a, now);
    }
  }

  lemma ConvertedPorts(o: Options, s: State, id: string, a: Address, now: int)
    requires OptionsOk(o) && PortsOk(o, s) && o.portStart != 0 && id in s.leases
    ensures var s', k := Convert(s, id, a, now), PoolId(s.standbySeq + 1);
            && (PortsKept(s, s') <==> k !in s.leases || k == id)
            && (k in s.leases && k != id ==> Overwritten(s, s', k, a))
  {
    var s', k := Convert(s, id, a, now), PoolId(s.standbySeq + 1);
    assert s'.leases[k].port == s.leases[id].port;
    if k in s.leases && k != id {
      assert s.leases[k].port in LeasedPorts(s.leases);
    } else {
      forall p | p in LeasedPorts(s.leases) ensures p in LeasedPorts(s'.leases) {
        var j :| j in s.leases && s.leases[j].port == p;
        assert s'.leases[if j == id then k else j].port == p;
      }
    }
  }

  // ---------- Capacity ----------

  /** No operation is asked to serve an id of the generated form. */
  ghost predicate ClientIdsOnly(e: Event) {
    match e
    case Acquire(id, _, _, _) => !IsPoolId(id)
    case AcquirePort(id, _, _, _, _) => !IsPoolId(id)
    case _ => true
  }

  ghost predicate Capped(o: Options, s: State) {
    |Clients(s.leases)| <= o.maxLeases
  }

  lemma FewerClients(s: State, s': State)
    requires forall k :: k in s'.leases && s'.leases[k].role == Client ==> k in s.leases && s.leases[k].role == Client
    ensures |Clients(s'.leases)| <= |Clients(s.leases)|
  {
    SubsetSize(Clients(s'.leases), Clients(s.leases));
  }

  lemma ServedCapped(o: Options, s: State, id: string, s': State, r: Result<Lease, Error>)
    requires OptionsOk(o) && Inv(o, s) && AcquireEffect(o, s, id, s', r) && Capped(o, s)
    requires id in s.leases ==> s.leases[id].role == Client
    ensures Capped(o, s')
  {
    if id in s.leases || id !in s'.leases {
      FewerClients(s, s');
    } else {
      RolesPartition(s.leases);
      SubsetSize(Clients(s'.leases), Clients(s.leases) + {id});
    }
  }

  lemma ServedPhaseCapped(o: Options, s: State, removed: set<string>, mid: State, id: string, r: Result<Lease, Error>,
    s': State)
    requires OptionsOk(o) && Inv(o, s) && TwoPhases(o, s, removed, mid, Served(id, r), s') && Capped(o, s)
    requires Capped(o, mid)
    requires removed <= s.leases.Keys && (id in removed || !IsPoolId(id))
    ensures Capped(o, s')
  {
    if id in mid.leases && mid.leases[id].role == Standby && id in removed {
      GoneStaysGone(o, s, mid, removed, id);
    }
    ServedCapped(o, mid, id, s', r);
  }

  lemma PhasesCapped(o: Options, s: State, removed: set<string>, mid: State, second: Second, s': State)
    requires OptionsOk(o) && Inv(o, s) && TwoPhases(o, s, removed, mid, second, s') && Capped(o, s)
    requires removed <= s.leases.Keys
    requires second.Served? ==> second.id in removed || !IsPoolId(second.id)
    ensures Capped(o, s')
  {
    FewerClients(s, mid);
    match second
    case Served(id, r) => ServedPhaseCapped(o, s, removed, mid, id, r, s');
    case Nothing =>
    case _ => RewritingCapped(o, s, removed, mid, second, s');
  }

  /** Rewriting leases makes no client out of anything else. */
  lemma RewritingCapped(o: Options, s: State, removed: set<string>, mid: State, second: Second, s': State)
    requires TwoPhases(o, s, removed, mid, second, s') && Capped(o, s) &&
             (second.Rewritten? || second.Flagged? || second.Moved?)
    ensures Capped(o, s')
  {
    FewerClients(s, s');
  }

  /** At most maxLeases clients, one operation after the other. The capacity test is
      made before a standby is claimed, so a claim never exceeds it either. */
  lemma NextCapped(o: Options, s: State, e: Event)
    requires OptionsOk(o) && Inv(o, s) && Allowed(o, s, e) && ClientIdsOnly(e) && Capped(o, s)
    ensures Capped(o, Next(o, s, e))
  {
    var removed, mid, second := Phases(o, s, e);
    PhasesCapped(o, s, removed, mid, second, Next(o, s, e));
  }

  /** At most maxLeases clients and minLeases standbys in every state of every run. */
  lemma {:induction false} CapacityAlways(o: Options, s: State, es: seq<Event>)
    requires OptionsOk(o) && Inv(o, s) && Capped(o, s) && Legal(o, s, es)
    requires forall e :: e in es ==> ClientIdsOnly(e)
    ensures Capped(o, Run(o, s, es)) && |Standbys(Run(o, s, es).leases)| <= o.minLeases
    decreases |es|
  {
    if |es| > 0 {
      NextKeeps(o, s, es[0]);
      NextCapped(o, s, es[0]);
      CapacityAlways(o, Next(o, s, es[0]), es[1..]);
    }
  }

  /** Neither a prefix change nor the release of a standby. */
  ghost predicate SparesStandbys(s: State, e: Event) {
    match e
    case Reassign(_, _, _) => false
    case Release(id, _) => id in s.leases ==> s.leases[id].role == Client
    case Recycle(id, _, _, _) => id in s.leases ==> s.leases[id].role == Client
    case _ => true
  }

  ghost predicate AllSpare(o: Options, s: State, es: seq<Event>)
    requires OptionsOk(o) && Legal(o, s, es)
    decreases |es|
  {
    |es| > 0 ==> SparesStandbys(s, es[0]) && AllSpare(o, Next(o, s, es[0]), es[1..])
  }

  lemma NextTotal(o: Options, s: State, e: Event)
    requires OptionsOk(o) && Inv(o, s) && Allowed(o, s, e) && SparesStandbys(s, e)
    requires |s.leases| <= o.maxLeases && Next(o, s, e).failures == s.failures
    ensures |Next(o, s, e).leases| <= o.maxLeases
  {
    var removed, mid, second := Phases(o, s, e);
    PhasesTotal(o, s, removed, mid, second, Next(o, s, e));
  }

  lemma PhasesTotal(o: Options, s: State, removed: set<string>, mid: State, second: Second, s': State)
    requires TwoPhases(o, s, removed, mid, second, s') && !second.Moved?
    requires forall k :: k in removed && k in s.leases ==> s.leases[k].role == Client
    requires |s.leases| <= o.maxLeases && s'.failures == s.failures
    ensures |s'.leases| <= o.maxLeases
  {
    SecondSize(o, s, removed, mid, second, s');
  }

  /** The total stays within maxLeases in every run without prefix changes, releases of
      standbys and failing allocations. */
  lemma {:induction false} TotalAlways(o: Options, s: State, es: seq<Event>)
    requires OptionsOk(o) && Inv(o, s) && |s.leases| <= o.maxLeases && Legal(o, s, es) && AllSpare(o, s, es)
    requires Run(o, s, es).failures == s.failures
    ensures |Run(o, s, es).leases| <= o.maxLeases
    decreases |es|
  {
    if |es| > 0 {
      var s1 := Next(o, s, es[0]);
      NextKeeps(o, s, es[0]);
      NextFailures(o, s, es[0]);
      RunFailures(o, s1, es[1..]);
      NextTotal(o, s, es[0]);
      TotalAlways(o, s1, es[1..]);
    }
  }

  /** With minLeases equal to maxLeases the floor takes the whole capacity, and the capacity
      is tested before a standby is claimed: no step makes a client out of anything. */
  lemma NextFullFloor(o: Options, s: State, e: Event)
    requires OptionsOk(o) && Inv(o, s) && Allowed(o, s, e) && Floor(o, s) && o.minLeases == o.maxLeases
    requires ClientIdsOnly(e)
    requires Next(o, s, e).failures == s.failures
    ensures Clients(Next(o, s, e).leases) <= Clients(s.leases)
  {
    var removed, mid, second := Phases(o, s, e);
    PhasesFullFloor(o, s, removed, mid, second, Next(o, s, e));
  }

  lemma PhasesFullFloor(o: Options, s: State, removed: set<string>, mid: State, second: Second, s': State)
    requires Inv(o, s) && TwoPhases(o, s, removed, mid, second, s') && Floor(o, s) && o.minLeases == o.maxLeases
    requires s'.failures == s.failures && removed <= s.leases.Keys
    requires second.Served? ==> second.id in removed || !IsPoolId(second.id)
    ensures Clients(s'.leases) <= Clients(s.leases)
  {
    SecondSize(o, s, removed, mid, second, s');
    if second.Served? {
      ServedFullFloor(o, s, removed, mid, second.id, second.r, s');
    }
  }

  lemma ServedFullFloor(o: Options, s: State, removed: set<string>, mid: State, id: string, r: Result<Lease, Error>,
    s': State)
    requires KeysOk(s) && KeysOk(mid) && AddsOnlyStandbys(o, s, mid, removed) && removed <= s.leases.Keys
    requires AcquireEffect(o, mid, id, s', r) && |mid.leases| >= o.maxLeases && (id in removed || !IsPoolId(id))
    ensures Clients(s'.leases) <= Clients(s.leases)
  {
    if id in removed {
      GoneStaysGone(o, s, mid, removed, id);
    }
  }

  /** So in every run, while no allocation fails, nobody but the clients of the start is
      ever a client. */
  lemma {:induction false} FullFloorServesNobody(o: Options, s: State, es: seq<Event>)
    requires OptionsOk(o) && Inv(o, s) && Floor(o, s) && o.minLeases == o.maxLeases && Legal(o, s, es)
    requires forall e :: e in es ==> ClientIdsOnly(e)
    requires Run(o, s, es).failures == s.failures
    ensures Clients(Run(o, s, es).leases) <= Clients(s.leases)
    decreases |es|
  {
    if |es| > 0 {
      var s1 := Next(o, s, es[0]);
      NextKeeps(o, s, es[0]);
      NextFailures(o, s, es[0]);
      RunFailures(o, s1, es[1..]);
      NextFloor(o, s, es[0]);
      NextFullFloor(o, s, es[0]);
      FullFloorServesNobody(o, s1, es[1..]);
    }
  }

  /** And every fresh id is refused, although all leases are ready standbys. */
  lemma FullFloorRefuses(o: Options, s: State, es: seq<Event>, id: string, persistent: bool, now: int, c: Choice)
    requires OptionsOk(o) && Inv(o, s) && Floor(o, s) && o.minLeases == o.maxLeases && Legal(o, s, es)
    requires var s' := Run(o, s, es);
             && id != "" && id !in s'.leases && Safe(s', id) && AcquireChoice(o, s', now, c)
             && M.Acquire(o, s', id, persistent, now, c).state.failures == s.failures
    ensures M.Acquire(o, Run(o, s, es), id, persistent, now, c).result == Err(Capacity)
  {
    var s' := Run(o, s, es);
    AlwaysInv(o, s, es);
    RunFailures(o, s, es);
    var e := Event.Acquire(id, persistent, now, c);
    NextFailures(o, s', e);
    ResidentFloor(o, s, es);
    RefusedWhenFull(o, s', id, persistent, now, c);
  }

  lemma RefusedWhenFull(o: Options, s: State, id: string, persistent: bool, now: int, c: Choice)
    requires OptionsOk(o) && Inv(o, s) && Floor(o, s) && o.minLeases == o.maxLeases
    requires id != "" && id !in s.leases && Safe(s, id) && AcquireChoice(o, s, now, c)
    requires M.Acquire(o, s, id, persistent, now, c).state.failures == s.failures
    ensures M.Acquire(o, s, id, persistent, now, c).result == Err(Capacity)
  {
    ReleaseIdleEffect(o, s, c.order, now);
    SweepFirstCounts(o, s, c.order, now);
    AcquireSweptEffect(o, M.ReleaseIdle(o, s, c.order, now).0, id, persistent, now, c.pick);
  }

  /** How many standbys a top-up adds while no allocation fails. */
  ghost function Missing(o: Options, s: State): int {
    var short := Max(0, o.minLeases - s.standbyCount);
    if o.portStart != 0 then Min(short, |s.freePorts|) else short
  }

  lemma TopUpAdds(o: Options, s: State, now: int)
    requires OptionsOk(o) && Inv(o, s) && EnsureStandbys(o, s, now).failures == s.failures
    ensures |EnsureStandbys(o, s, now).leases| == |s.leases| + Missing(o, s)
  {
    EnsureAdds(o, s, now);
    EnsureKeeps(o, s, now);
  }

  /** Releasing a standby never tests maxLeases: it ends above it exactly when the
      standbys it tops up do not fit. */
  lemma ReleaseOfStandbyTotal(o: Options, s: State, id: string, now: int)
    requires OptionsOk(o) && Inv(o, s) && id in s.leases && s.leases[id].role == Standby
    requires RecycleSlot(o, s, id, now).failures == s.failures
    ensures |RecycleSlot(o, s, id, now).leases| <= o.maxLeases <==>
            |s.leases| - 1 + Missing(o, Drop(s, id)) <= o.maxLeases
  {
    DropKeeps(o, s, id);
    TopUpAdds(o, Drop(s, id), now);
  }

  /** The same for a prefix change, which tops up after moving every lease. */
  lemma ReassignTotal(o: Options, s: State, prefix: Cidr, now: int, order: seq<string>)
    requires OptionsOk(o) && Inv(o, s) && Enumerates(s, order) && prefix.address < Pow2(Width)
    requires M.Reassign(o, s, Some(prefix), now, order).result.Ok?
    requires M.Reassign(o, s, Some(prefix), now, order).state.failures == s.failures
    ensures |M.Reassign(o, s, Some(prefix), now, order).state.leases| <= o.maxLeases <==>
            |s.leases| + Missing(o, s) <= o.maxLeases
  {
    var g: Network := NewGenerator(Some(prefix)).value;
    var p := MakePlan(o, g, s.leases, order).value;
    PlanCounts(o, g, s.leases, order);
    PlanKeys(o, g, s.leases, order);
    CommittedTotal(o, s, g, order, p, now);
  }

  lemma ShapeTotal(o: Options, s: State, s': State, now: int)
    requires OptionsOk(o) && Inv(o, s) && Inv(o, s') && SameShape(s, s')
    requires EnsureStandbys(o, s', now).failures == s'.failures
    ensures |EnsureStandbys(o, s', now).leases| == |s.leases| + Missing(o, s)
  {
    ShapeKeeps(o, s, s');
    TopUpAdds(o, s', now);
  }

  lemma CommittedTotal(o: Options, s: State, g: Network, order: seq<string>, p: Plan, now: int)
    requires OptionsOk(o) && Inv(o, s) && PlanOk(g, Addresses(s.leases), order, p) && p.addresses.Keys == s.leases.Keys
    requires EnsureStandbys(o, Commit(s, g, p, now), now).failures == s.failures
    ensures |EnsureStandbys(o, Commit(s, g, p, now), now).leases| == |s.leases| + Missing(o, s)
  {
    CommitKeeps(o, s, g, order, p, now);
    CommitShape(s, g, p, now);
    ShapeTotal(o, s, Commit(s, g, p, now), now);
  }

  // ---------- Persistent leases ----------

  ghost predicate Pinned(s: State, id: string, port: int) {
    && id in s.leases
    && s.leases[id].role == Client
    && s.leases[id].persistent
    && s.leases[id].port == port
  }

  /** The two ways to end a persistent lease. */
  ghost predicate Unpins(e: Event, id: string) {
    match e
    case Release(x, _) => x == id
    case SetPersistent(x, persistent) => x == id && !persistent
    case _ => false
  }

  lemma PhasesPinned(o: Options, s: State, removed: set<string>, mid: State, second: Second, s': State, id: string,
    port: int)
    requires TwoPhases(o, s, removed, mid, second, s') && Pinned(s, id, port) && id !in removed
    requires second.Flagged? && second.id == id ==> second.persistent
    ensures Pinned(s', id, port)
  {
    assert mid.leases[id] == s.leases[id];
  }

  lemma NextPinned(o: Options, s: State, e: Event, id: string, port: int)
    requires OptionsOk(o) && Inv(o, s) && Allowed(o, s, e) && Pinned(s, id, port) && !Unpins(e, id)
    ensures Pinned(Next(o, s, e), id, port)
  {
    var removed, mid, second := Phases(o, s, e);
    PhasesPinned(o, s, removed, mid, second, Next(o, s, e), id, port);
  }

  /** A persistent client lease keeps its id and port, and stays persistent, through
      every run that neither releases it nor clears the flag. */
  lemma {:induction false} PersistentSurvives(o: Options, s: State, es: seq<Event>, id: string, port: int)
    requires OptionsOk(o) && Inv(o, s) && Legal(o, s, es) && Pinned(s, id, port)
    requires forall e :: e in es ==> !Unpins(e, id)
    ensures Pinned(Run(o, s, es), id, port)
    decreases |es|
  {
    if |es| > 0 {
      NextKeeps(o, s, es[0]);
      NextPinned(o, s, es[0], id, port);
      PersistentSurvives(o, Next(o, s, es[0]), es[1..], id, port);
    }
  }

  // ---------- Draining ----------

  /** Release the leases of `ids`, the first first, at the given times. */
  function Drain(o: Options, s: State, ids: seq<string>, times: seq<int>): State
    requires OptionsOk(o) && |times| == |ids|
    decreases |ids|
  {
    if |ids| == 0 then s else Drain(o, M.Release(o, s, ids[0], times[0]).state, ids[1..], times[1..])
  }

  lemma {:induction false} DrainFailures(o: Options, s: State, ids: seq<string>, times: seq<int>)
    requires OptionsOk(o) && Inv(o, s) && |times| == |ids|
    ensures s.failures <= Drain(o, s, ids, times).failures
    decreases |ids|
  {
    if |ids| > 0 {
      if ids[0] in s.leases {
        RecycleEffect(o, s, ids[0], times[0]);
      }
      DrainFailures(o, M.Release(o, s, ids[0], times[0]).state, ids[1..], times[1..]);
    }
  }

  /** Releasing every client in any order leaves exactly the resident floor, all of it
      standbys. */
  lemma {:induction false} DrainLeavesTheFloor(o: Options, s: State, ids: seq<string>, times: seq<int>)
    requires OptionsOk(o) && Inv(o, s) && Floor(o, s) && |times| == |ids|
    requires Distinct(ids) && Elements(ids) == Clients(s.leases)
    requires Drain(o, s, ids, times).failures == s.failures
    ensures var s' := Drain(o, s, ids, times);
            Inv(o, s') && Clients(s'.leases) == {} && |s'.leases| == s'.standbyCount == o.minLeases
    decreases |ids|
  {
    if |ids| == 0 {
      RolesPartition(s.leases);
    } else {
      var s1 := M.Release(o, s, ids[0], times[0]).state;
      assert ids[0] in Elements(ids);
      RecycleEffect(o, s, ids[0], times[0]);
      RecycleFirstCounts(o, s, ids[0], times[0]);
      DrainFailures(o, s1, ids[1..], times[1..]);
      ClientsLeft(o, s, s1, ids);
      DrainLeavesTheFloor(o, s1, ids[1..], times[1..]);
    }
  }

  lemma ClientsLeft(o: Options, s: State, s1: State, ids: seq<string>)
    requires |ids| > 0 && Distinct(ids) && Elements(ids) == Clients(s.leases)
    requires KeysOk(s) && ids[0] in s.leases && AddsOnlyStandbys(o, s, s1, {ids[0]})
    ensures Elements(ids[1..]) == Clients(s1.leases)
  {
    GoneStaysGone(o, s, s1, {ids[0]}, ids[0]);
    assert Clients(s1.leases) == Clients(s.leases) - {ids[0]};
    assert ids == [ids[0]] + ids[1..] && ids[0] !in ids[1..];
    assert Elements(ids[1..]) == Elements(ids) - {ids[0]};
  }

  // ---------- The sweep does not depend on the order ----------

  /** Whatever the order of the range: the released ids are exactly the idle clients,
      each once, none of them is left, and with no failed allocation the number of
      standbys and the total are determined by how many there were. */
  lemma SweepOutcome(o: Options, s: State, order: seq<string>, now: int)
    requires OptionsOk(o) && Inv(o, s) && SweepRuns(o, s) && Covers(o, s, order)
    ensures var (s', released) := M.ReleaseIdle(o, s, order, now);
            var idle := Idle(o, s, now);
            && Elements(released) == idle && |released| == |idle|
            && (forall k :: k in idle ==> k !in s'.leases)
            && (s'.failures == s.failures ==>
                  && s'.standbyCount == Min(o.minLeases, s.standbyCount + |idle|)
                  && |s'.leases| == |s.leases| - Max(0, |idle| - (o.minLeases - s.standbyCount)))
  {
    SweepEffect(o, s, order, now);
    var (s', released) := Sweep(o, s, order, now);
    SweptIdle(o, s, order, now, s', released);
    SweptTotals(o, s, s', |released|);
  }

  lemma SweptIdle(o: Options, s: State, order: seq<string>, now: int, s': State, released: seq<string>)
    requires KeysOk(s) && Swept(o, s, order, now, s', released) && forall k :: k in s.leases ==> k in order
    ensures Elements(released) == Idle(o, s, now)
    ensures forall k :: k in Idle(o, s, now) ==> k !in s'.leases
  {
    assert Idle(o, s, now) <= Elements(order);
    forall k | k in Idle(o, s, now) ensures k !in s'.leases {
      GoneStaysGone(o, s, s', Elements(released), k);
    }
  }

  lemma SweptTotals(o: Options, s: State, s': State, n: nat)
    requires s.standbyCount <= o.minLeases
    ensures SweepCounts(o, s, s', n) <==>
              && s'.standbyCount == Min(o.minLeases, s.standbyCount + n)
              && |s'.leases| == |s.leases| - Max(0, n - (o.minLeases - s.standbyCount))
  {
  }

  // ---------- Slot choice ----------

  /** A new identity below capacity gets the standby with the least port if there is a
      standby, with its address, and otherwise the least free port. */
  lemma AcquireSlot(o: Options, s: State, id: string, persistent: bool, now: int, pick: Option<string>)
    requires OptionsOk(o) && Inv(o, s) && Safe(s, id) && id !in s.leases && |s.leases| < o.maxLeases
    requires PicksLeast(s.leases, pick) && o.portStart != 0
    requires s.standbyCount == 0 ==> Allocate(o, s).0.Ok?
    ensures var (s', r) := AcquireSwept(o, s, id, persistent, now, pick);
            && r.Ok?
            && if s.standbyCount > 0 then
                 && s'.standbyCount == s.standbyCount - 1 && |s'.leases| == |s.leases|
                 && (exists k :: k in s.leases && s.leases[k].role == Standby && k !in s'.leases
                       && s.leases[k].port == r.value.port && s.leases[k].ipv6 == r.value.ipv6)
                 && (forall k :: k in s.leases && s.leases[k].role == Standby ==> r.value.port <= s.leases[k].port)
               else
                 && r.value.port in s.freePorts && r.value.port !in s'.freePorts
                 && (forall p :: p in s.freePorts ==> r.value.port <= p)
  {
    if pick.Some? {
      assert pick.value in Standbys(s.leases);
      assert s.standbyCount > 0;
      ClaimMoves(s, pick.value, id, persistent, now);
    } else {
      assert Standbys(s.leases) == {};
      TailAscending(s.freePorts);
    }
  }

  lemma ClaimMoves(s: State, k: string, id: string, persistent: bool, now: int)
    requires k in s.leases && id !in s.leases
    ensures |Claim(s, k, id, persistent, now).leases| == |s.leases| && k !in Claim(s, k, id, persistent, now).leases
  {
    var l := Claim(s, k, id, persistent, now).leases[id];
    StandbysReplace(s.leases, k, l);
  }

  /** A port of the range that no client holds is a standby's or free, and no other is. */
  lemma StandbyOrFree(o: Options, s: State, port: int, pick: Option<string>)
    requires OptionsOk(o) && Inv(o, s) && PicksOnPort(s.leases, port, pick) && o.portStart != 0
    ensures pick.Some? || port in s.freePorts <==>
              o.portStart <= port <= o.portEnd && forall k :: k in s.leases && s.leases[k].role == Client ==>
                s.leases[k].port != port
  {
    PortPartition(o, s, port);
    if pick.Some? {
      assert s.leases[pick.value].port in LeasedPorts(s.leases);
    }
    if port in LeasedPorts(s.leases) {
      var k :| k in s.leases && s.leases[k].port == port;
      assert s.leases[k].role == Standby ==> OnPort(s.leases, k, port);
    }
  }

  /** A new identity below capacity gets the requested port exactly when it lies in the
      range and no client holds it. */
  lemma AcquirePortExact(o: Options, s: State, id: string, port: int, persistent: bool, now: int, pick: Option<string>)
    requires OptionsOk(o) && Inv(o, s) && Safe(s, id) && id != "" && id !in s.leases && |s.leases| < o.maxLeases
    requires PicksOnPort(s.leases, port, pick) && o.portStart != 0
    requires AcquirePortSwept(o, s, id, port, persistent, now, pick).0.failures == s.failures
    ensures var r := AcquirePortSwept(o, s, id, port, persistent, now, pick).1;
            && (r.Ok? <==> o.portStart <= port <= o.portEnd
                           && forall k :: k in s.leases && s.leases[k].role == Client ==> s.leases[k].port != port)
            && (r.Ok? ==> r.value.port == port)
  {
    AcquirePortSweptEffect(o, s, id, port, persistent, now, pick);
    StandbyOrFree(o, s, port, pick);
  }

  // ---------- Recycling under the same id ----------

  /** Whether the sweep at the head of an operation takes the lease under id. */
  ghost predicate Sweeps(o: Options, s: State, id: string, now: int) {
    SweepRuns(o, s) && id in Idle(o, s, now)
  }

  /** How many leases that sweep leaves while no allocation fails. */
  ghost function LeftBySweep(o: Options, s: State, now: int): int {
    if SweepRuns(o, s) then |s.leases| - Max(0, |Idle(o, s, now)| - (o.minLeases - s.standbyCount)) else |s.leases|
  }

  /** The port lies in the range and no client that outlives the sweep holds it. */
  ghost predicate PortOpen(o: Options, s: State, port: int, now: int) {
    && o.portStart <= port <= o.portEnd
    && forall k :: k in s.leases && s.leases[k].role == Client && !Sweeps(o, s, k, now) ==> s.leases[k].port != port
  }

  /** When AcquirePort will succeed, told before the call: a lease that is known and not
      swept has to be on the port; anyone else needs room after the sweep and an open port. */
  ghost predicate PortForTheAsking(o: Options, s: State, id: string, port: int, now: int) {
    if id in s.leases && !Sweeps(o, s, id, now) then s.leases[id].port == port
    else LeftBySweep(o, s, now) < o.maxLeases && PortOpen(o, s, port, now)
  }

  /** What the sweep leaves: the other leases as they were, clients and all. */
  lemma SweptFirst(o: Options, s: State, order: seq<string>, now: int)
    requires OptionsOk(o) && Inv(o, s) && Covers(o, s, order)
    ensures var mid := M.ReleaseIdle(o, s, order, now).0;
            && Inv(o, mid)
            && AddsOnlyStandbys(o, s, mid, Elements(M.ReleaseIdle(o, s, order, now).1))
            && (forall k :: k in s.leases ==>
                 if Sweeps(o, s, k, now) then k !in mid.leases else k in mid.leases && mid.leases[k] == s.leases[k])
            && (forall k :: k in mid.leases && k !in s.leases ==> mid.leases[k].role == Standby && !Safe(s, k))
            && (mid.failures == s.failures ==> |mid.leases| == LeftBySweep(o, s, now))
  {
    ReleaseIdleEffect(o, s, order, now);
    if SweepRuns(o, s) {
      SweepOutcome(o, s, order, now);
    }
  }

  /** While no allocation fails, AcquirePort succeeds exactly when that was to be seen
      before the call, for every id and whatever the map order. */
  lemma AcquirePortSucceeds(o: Options, s: State, id: string, port: int, persistent: bool, now: int, c: Choice)
    requires OptionsOk(o) && Inv(o, s) && Safe(s, id) && id != "" && o.portStart != 0
    requires AcquirePortChoice(o, s, port, now, c)
    requires M.AcquirePort(o, s, id, port, persistent, now, c).state.failures == s.failures
    ensures M.AcquirePort(o, s, id, port, persistent, now, c).result.Ok? <==> PortForTheAsking(o, s, id, port, now)
  {
    SweptFirst(o, s, c.order, now);
    var mid := M.ReleaseIdle(o, s, c.order, now).0;
    AcquirePortSweptEffect(o, mid, id, port, persistent, now, c.pick);
    if id in mid.leases {
      RefreshSucceeds(o, mid, id, persistent, now);
    } else if |mid.leases| < o.maxLeases {
      AcquirePortExact(o, mid, id, port, persistent, now, c.pick);
      PortStaysOpen(o, s, mid, port, now);
    }
  }

  lemma RefreshSucceeds(o: Options, s: State, id: string, persistent: bool, now: int)
    requires OptionsOk(o) && KeysOk(s) && id in s.leases
    ensures var (s', r) := Refresh(o, s, id, persistent, now); r.Ok? <==> s'.failures == s.failures
  {
  }

  lemma PortStaysOpen(o: Options, s: State, mid: State, port: int, now: int)
    requires forall k :: k in s.leases ==>
             if Sweeps(o, s, k, now) then k !in mid.leases else k in mid.leases && mid.leases[k] == s.leases[k]
    requires forall k :: k in mid.leases && k !in s.leases ==> mid.leases[k].role == Standby
    ensures (forall k :: k in mid.leases && mid.leases[k].role == Client ==> mid.leases[k].port != port) <==>
            (forall k :: k in s.leases && s.leases[k].role == Client && !Sweeps(o, s, k, now) ==>
              s.leases[k].port != port)
  {
  }

  /** A sweep that releases nothing changes nothing. */
  lemma {:induction false} QuietSweep(o: Options, s: State, order: seq<string>, now: int)
    requires OptionsOk(o) && Sweep(o, s, order, now).1 == []
    ensures Sweep(o, s, order, now).0 == s
    decreases |order|
  {
    if |order| > 0 {
      QuietSweep(o, s, order[..|order| - 1], now);
    }
  }

  // ---------- Rotation ----------

  /** The lease l on an address of the prefix that nobody had, its clocks and its count begun
      anew. */
  ghost predicate Restarted(s: State, l: Lease, now: int, l': Lease) {
    && l'.ipv6 != l.ipv6 && InPrefix(s.generator, l'.ipv6) && !InUse(s.leases, l'.ipv6)
    && l'.requests == 0 && l'.createdAt == now && l'.lastUsedAt == now && l'.generation == l.generation + 1
    && l'.id == l.id && l'.port == l.port && l'.role == l.role && l'.persistent == l.persistent
  }

  /** A rotation that succeeds gives the lease an address of the prefix that no lease
      held, its own included, and starts its clocks and its count anew; one that fails
      changes no lease. */
  lemma RotationMoves(o: Options, s: State, id: string, now: int)
    requires OptionsOk(o) && Inv(o, s) && id in s.leases
    ensures var step := M.Rotate(o, s, id, now);
            if step.result.Ok? then
              && Restarted(s, s.leases[id], now, step.result.value)
              && step.state.leases == s.leases[id := step.result.value]
            else step.state.leases == s.leases && step.state.failures == s.failures + 1
  {
  }

  // ---------- Sequential addresses ----------

  /** In sequential mode the collision retry never fires: the next index is handed out
      as it is, and allocation fails exactly when that index leaves the prefix. */
  lemma SequentialAllocation(o: Options, s: State)
    requires OptionsOk(o) && AddressesOk(s) && IndicesOk(o, s) && o.sequential
    ensures var (r, s') := Allocate(o, s);
            && s'.nextIndex == s.nextIndex + 1
            && (r.Ok? <==> s.nextIndex + 1 < s.generator.hostMax)
            && (r.Ok? ==> r.value == s.generator.base + s.nextIndex + 1 && r.value !in s.issued)
  {
    var a := s.generator.base + s.nextIndex + 1;
    assert !InUse(s.leases, a);
  }

  /** No prefix change between s and s'. Addresses handed out before s and no longer
      leased at s are not leased at s' either. */
  ghost predicate NoComeback(s: State, s': State) {
    && s'.generator == s.generator
    && s.issued <= s'.issued
    && forall k :: k in s'.leases && s'.leases[k].ipv6 in s.issued ==> InUse(s.leases, s'.leases[k].ipv6)
  }

  lemma NoComebackTransitive(s: State, s1: State, s2: State)
    requires NoComeback(s, s1) && NoComeback(s1, s2)
    ensures NoComeback(s, s2)
  {
    forall k | k in s2.leases && s2.leases[k].ipv6 in s.issued ensures InUse(s.leases, s2.leases[k].ipv6) {
      var j :| j in s1.leases && s1.leases[j].ipv6 == s2.leases[k].ipv6;
    }
  }

  lemma FirstNoComeback(o: Options, s: State, removed: set<string>, mid: State)
    requires AddressesOk(s) && IndicesOk(o, s) && o.sequential && AddsOnlyStandbys(o, s, mid, removed)
    ensures NoComeback(s, mid)
  {
  }

  lemma ServedNoComeback(o: Options, s: State, id: string, s': State, r: Result<Lease, Error>)
    requires IndicesOk(o, s) && o.sequential && AcquireEffect(o, s, id, s', r)
    ensures NoComeback(s, s')
  {
    forall k | k in s'.leases && s'.leases[k].ipv6 in s.issued ensures InUse(s.leases, s'.leases[k].ipv6) {
      assert k != id ==> k in s.leases && s.leases[k] == s'.leases[k];
    }
  }

  lemma RewrittenNoComeback(o: Options, s: State, id: string, s': State)
    requires IndicesOk(o, s) && o.sequential && id in s.leases && Rewrites(o, s, id, s')
    ensures NoComeback(s, s')
  {
    forall k | k in s'.leases && s'.leases[k].ipv6 in s.issued ensures InUse(s.leases, s'.leases[k].ipv6) {
      assert k in s.leases;
    }
  }

  lemma NextNoComeback(o: Options, s: State, e: Event)
    requires OptionsOk(o) && Inv(o, s) && o.sequential && Allowed(o, s, e) && !e.Reassign?
    ensures NoComeback(s, Next(o, s, e))
  {
    var removed, mid, second := Phases(o, s, e);
    var s' := Next(o, s, e);
    FirstNoComeback(o, s, removed, mid);
    match second
    case Served(id, r) =>
      ServedNoComeback(o, mid, id, s', r);
      NoComebackTransitive(s, mid, s');
    case Rewritten(id) => RewrittenNoComeback(o, s, id, s');
    case Flagged(id, persistent) => FlaggedNoComeback(s, id, persistent);
    case _ =>
  }

  lemma FlaggedNoComeback(s: State, id: string, persistent: bool)
    requires id in s.leases
    ensures NoComeback(s, Update(s, id, s.leases[id].(persistent := persistent)))
  {
    var s' := Update(s, id, s.leases[id].(persistent := persistent));
    forall k | k in s'.leases ensures InUse(s.leases, s'.leases[k].ipv6) {
      assert k in s.leases && s.leases[k].ipv6 == s'.leases[k].ipv6;
    }
  }

  /** Between prefix changes, sequential addresses never repeat: once an address is given
      up, no later state of the run leases it again. */
  lemma {:induction false} SequentialNeverRepeats(o: Options, s: State, es: seq<Event>)
    requires OptionsOk(o) && Inv(o, s) && o.sequential && Legal(o, s, es)
    requires forall e :: e in es ==> !e.Reassign?
    ensures NoComeback(s, Run(o, s, es))
    decreases |es|
  {
    if |es| > 0 {
      var s1 := Next(o, s, es[0]);
      NextKeeps(o, s, es[0]);
      NextNoComeback(o, s, es[0]);
      SequentialNeverRepeats(o, s1, es[1..]);
      NoComebackTransitive(s, s1, Run(o, s, es));
    }
  }
}
