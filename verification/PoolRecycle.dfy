/** What Recycle renews, and what it does not. */
module PoolRecycle {
  import opened Wrappers
  import opened Ids
  import opened Ipv6Addr
  import opened PoolInvariant
  import opened PoolSteps
  import opened PoolModel
  import opened PoolTheorems
  import M = PoolModel

  // ---------- Random addresses ----------

  /** The address of the n-th draw from now, if the random source yields one. */
  function Drawn(o: Options, s: State, n: nat): Option<Address> {
    match o.random(s.drawn + n)
    case Some(h) => if h < s.generator.hostMax then Some(FromHost(s.generator, h)) else None
    case None => None
  }

  /** The n-th draw yields an address that some lease has. */
  predicate DrawnInUse(o: Options, s: State, n: nat) {
    Drawn(o, s, n).Some? && InUse(s.leases, Drawn(o, s, n).value)
  }

  /** The n-th draw is the first that hits no lease, and it yields a. */
  ghost predicate FirstUnused(o: Options, s: State, n: nat, a: Address) {
    Drawn(o, s, n) == Some(a) && !InUse(s.leases, a) && forall j: nat :: j < n ==> DrawnInUse(o, s, j)
  }

  /** Of the next `budget` draws, the first that hits no lease yields a. */
  ghost predicate DrawnNext(o: Options, s: State, budget: nat, a: Address) {
    exists n: nat :: n < budget && FirstUnused(o, s, n, a)
  }

  /** With random addresses, the address handed out is the first unused one drawn, and
      there is one exactly if it comes within the budget and before a failed draw. */
  lemma {:induction false} RandomAllocation(o: Options, s: State, budget: nat, a: Address)
    requires !o.sequential
    ensures NextAddress(o, s, budget).0 == Ok(a) <==> DrawnNext(o, s, budget, a)
    decreases budget
  {
    if budget > 0 {
      var (candidate, s1) := Draw(o, s);
      assert Drawn(o, s, 0) == if candidate.Ok? then Some(candidate.value) else None;
      if DrawnInUse(o, s, 0) {
        RandomAllocation(o, s1, budget - 1, a);
        OneDrawLater(o, s, s1, budget, a);
      } else if candidate == Ok(a) {
        assert FirstUnused(o, s, 0, a);
      }
    }
  }

  lemma OneDrawLater(o: Options, s: State, s1: State, budget: nat, a: Address)
    requires budget > 0 && s1 == s.(drawn := s.drawn + 1) && DrawnInUse(o, s, 0)
    ensures DrawnNext(o, s1, budget - 1, a) <==> DrawnNext(o, s, budget, a)
  {
    if DrawnNext(o, s1, budget - 1, a) {
      var n: nat :| n < budget - 1 && FirstUnused(o, s1, n, a);
      FirstShifts(o, s, s1, n, a);
    }
    if DrawnNext(o, s, budget, a) {
      var n: nat :| n < budget && FirstUnused(o, s, n, a);
      assert n > 0;
      FirstShifts(o, s, s1, n - 1, a);
    }
  }

  lemma FirstShifts(o: Options, s: State, s1: State, n: nat, a: Address)
    requires s1 == s.(drawn := s.drawn + 1) && DrawnInUse(o, s, 0)
    ensures FirstUnused(o, s1, n, a) <==> FirstUnused(o, s, n + 1, a)
  {
    assert forall j: nat :: DrawnInUse(o, s1, j) <==> DrawnInUse(o, s, j + 1);
    if FirstUnused(o, s1, n, a) {
      forall j: nat | j < n + 1 ensures DrawnInUse(o, s, j) {
        assert j > 0 ==> DrawnInUse(o, s1, j - 1);
      }
    }
  }

  // ---------- The slot left behind ----------

  lemma ConvertedSlot(o: Options, s: State, id: string, now: int)
    requires OptionsOk(o) && Inv(o, s) && id in s.leases && s.leases[id].role == Client && s.standbyCount < o.minLeases
    requires RecycleSlot(o, s, id, now).failures == s.failures
    ensures !InUse(RecycleSlot(o, s, id, now).leases, s.leases[id].ipv6)
  {
    var (r, s0) := Allocate(o, s);
    AllocateKeeps(o, s);
    if r.Err? {
      DropThenEnsure(o, s0, id, now);
    }
  }

  lemma DroppedSlot(o: Options, s: State, id: string, now: int)
    requires OptionsOk(o) && Inv(o, s) && id in s.leases && s.leases[id].role == Client && s.standbyCount >= o.minLeases
    ensures !InUse(RecycleSlot(o, s, id, now).leases, s.leases[id].ipv6)
  {
    DropKeeps(o, s, id);
  }

  /** The slot a recycled client leaves behind: the id is free and the client's address is
      held by nobody. */
  lemma RecycledSlot(o: Options, s: State, id: string, now: int)
    requires OptionsOk(o) && Inv(o, s) && id in s.leases && s.leases[id].role == Client
    requires RecycleSlot(o, s, id, now).failures == s.failures
    ensures var s1 := RecycleSlot(o, s, id, now);
            && Inv(o, s1) && id !in s1.leases && Safe(s1, id)
            && !InUse(s1.leases, s.leases[id].ipv6)
            && s1.standbyCount == Min(o.minLeases, s.standbyCount + 1)
            && |s1.leases| == (if s.standbyCount < o.minLeases then |s.leases| else |s.leases| - 1)
  {
    RecycleEffect(o, s, id, now);
    assert Safe(s, id);
    if s.standbyCount < o.minLeases {
      ConvertedSlot(o, s, id, now);
    } else {
      DroppedSlot(o, s, id, now);
    }
  }

  /** A fresh id, while no allocation fails: refused at the capacity, served below it,
      with the least standby's slot if there is one and a new address otherwise. */
  lemma FreshServed(o: Options, s: State, id: string, now: int, pick: Option<string>)
    requires OptionsOk(o) && Inv(o, s) && id !in s.leases && PicksLeast(s.leases, pick)
    requires AcquireSwept(o, s, id, false, now, pick).0.failures == s.failures
    ensures pick.Some? <==> s.standbyCount > 0
    ensures var (s', r) := AcquireSwept(o, s, id, false, now, pick);
            if |s.leases| >= o.maxLeases then s' == s && r == Err(Capacity)
            else
              && r.Ok? && r.value.id == id
              && (if pick.Some? then
                    && pick.value in s.leases && r.value.ipv6 == s.leases[pick.value].ipv6
                    && |s'.leases| == |s.leases| && s'.standbyCount == s.standbyCount - 1
                  else Allocate(o, s).0 == Ok(r.value.ipv6) && |s'.leases| == |s.leases| + 1 && s'.standbyCount == 0)
  {
    if pick.Some? {
      assert pick.value in Standbys(s.leases);
      ClaimMoves(s, pick.value, id, false, now);
    } else {
      assert Standbys(s.leases) == {};
    }
  }

  // ---------- What Recycle does to the counts, told before the call ----------

  /** The total and the standbys once the client is gone and before anything is swept. */
  function TotalWithout(o: Options, s: State): int {
    if s.standbyCount < o.minLeases then |s.leases| else |s.leases| - 1
  }

  function StandbysWithout(o: Options, s: State): int {
    Min(o.minLeases, s.standbyCount + 1)
  }

  /** Whether the Acquire inside Recycle sweeps, and which other clients it then takes. */
  predicate SweepsWithout(o: Options, s: State) {
    o.idleTimeout > 0 && TotalWithout(o, s) > o.minLeases
  }

  function OthersIdle(o: Options, s: State, id: string, later: int): set<string> {
    if SweepsWithout(o, s) then Idle(o, s, later) - {id} else {}
  }

  /** The total and the standbys that the Acquire inside Recycle finds after its sweep. */
  function RecycleFinds(o: Options, s: State, id: string, later: int): int {
    TotalWithout(o, s) - Max(0, |OthersIdle(o, s, id, later)| - (o.minLeases - StandbysWithout(o, s)))
  }

  function RecycleOffers(o: Options, s: State, id: string, later: int): int {
    Min(o.minLeases, StandbysWithout(o, s) + |OthersIdle(o, s, id, later)|)
  }

  /** Recycle is called on a client that may go, and no allocation fails. */
  ghost predicate Recyclable(o: Options, s: State, id: string, now: int, later: int, c: Choice)
    requires OptionsOk(o)
  {
    && id in s.leases && s.leases[id].role == Client && !s.leases[id].persistent
    && AcquireChoice(o, RecycleSlot(o, s, id, now), later, c)
    && M.Recycle(o, s, id, now, later, c).state.failures == s.failures
  }

  /** The state between the sweep inside Recycle and the serving of the id. */
  function Between(o: Options, s: State, id: string, now: int, later: int, c: Choice): State
    requires OptionsOk(o) && id in s.leases
  {
    M.ReleaseIdle(o, RecycleSlot(o, s, id, now), c.order, later).0
  }

  lemma OthersAreIdle(o: Options, s: State, id: string, s1: State, later: int)
    requires KeysOk(s) && id in s.leases && AddsOnlyStandbys(o, s, s1, {id}) && |s1.leases| == TotalWithout(o, s)
    ensures SweepRuns(o, s1) <==> SweepsWithout(o, s)
    ensures Idle(o, s1, later) == Idle(o, s, later) - {id}
  {
    GoneStaysGone(o, s, s1, {id}, id);
  }

  lemma RecycleInBetween(o: Options, s: State, id: string, now: int, later: int, c: Choice)
    requires OptionsOk(o) && Inv(o, s) && Recyclable(o, s, id, now, later, c)
    ensures var s1, mid := RecycleSlot(o, s, id, now), Between(o, s, id, now, later, c);
            var step := M.Recycle(o, s, id, now, later, c);
            && Inv(o, s1) && s1.failures == s.failures && Inv(o, mid) && mid.failures == s.failures
            && id !in mid.leases && Safe(mid, id) && PicksLeast(mid.leases, c.pick)
            && |mid.leases| == RecycleFinds(o, s, id, later) && mid.standbyCount == RecycleOffers(o, s, id, later)
            && (step.state, step.result) == AcquireSwept(o, mid, id, false, later, c.pick)
            && (OthersIdle(o, s, id, later) == {} ==> mid == s1)
  {
    var s1 := RecycleSlot(o, s, id, now);
    RecycleEffect(o, s, id, now);
    ReleaseIdleEffect(o, s1, c.order, later);
    var mid := M.ReleaseIdle(o, s1, c.order, later).0;
    StillGone(o, s, id, s1, mid, M.ReleaseIdle(o, s1, c.order, later).1);
    AcquireSweptEffect(o, mid, id, false, later, c.pick);
    RecycledSlot(o, s, id, now);
    FoundInBetween(o, s, id, s1, c.order, later);
  }

  lemma StillGone(o: Options, s: State, id: string, s1: State, mid: State, released: seq<string>)
    requires KeysOk(s) && id in s.leases && AddsOnlyStandbys(o, s, s1, {id})
    requires AddsOnlyStandbys(o, s1, mid, Elements(released))
    ensures id !in mid.leases && Safe(mid, id) && id != ""
  {
    AddsTransitive(o, s, s1, mid, {id}, Elements(released));
    GoneStaysGone(o, s, mid, {id} + Elements(released), id);
    assert Safe(s, id);
  }

  lemma FoundInBetween(o: Options, s: State, id: string, s1: State, order: seq<string>, later: int)
    requires OptionsOk(o) && KeysOk(s) && Inv(o, s1) && id in s.leases && AddsOnlyStandbys(o, s, s1, {id})
    requires |s1.leases| == TotalWithout(o, s) && s1.standbyCount == StandbysWithout(o, s)
    requires Covers(o, s1, order) && M.ReleaseIdle(o, s1, order, later).0.failures == s1.failures
    ensures var mid := M.ReleaseIdle(o, s1, order, later).0;
            && |mid.leases| == RecycleFinds(o, s, id, later) && mid.standbyCount == RecycleOffers(o, s, id, later)
            && (OthersIdle(o, s, id, later) == {} ==> mid == s1)
  {
    OthersAreIdle(o, s, id, s1, later);
    CountsInBetween(o, s, id, s1, later);
    SweptFirst(o, s1, order, later);
    SweepBetween(o, s1, order, later);
  }

  lemma CountsInBetween(o: Options, s: State, id: string, s1: State, later: int)
    requires |s1.leases| == TotalWithout(o, s) && s1.standbyCount == StandbysWithout(o, s)
    requires (SweepRuns(o, s1) <==> SweepsWithout(o, s)) && Idle(o, s1, later) == Idle(o, s, later) - {id}
    ensures LeftBySweep(o, s1, later) == RecycleFinds(o, s, id, later)
    ensures RecycleOffers(o, s, id, later) == if SweepRuns(o, s1) then
            Min(o.minLeases, s1.standbyCount + |Idle(o, s1, later)|) else s1.standbyCount
    ensures OthersIdle(o, s, id, later) == if SweepRuns(o, s1) then Idle(o, s1, later) else {}
  {
  }

  /** A sweep that finds nobody idle changes nothing; any other has its known counts. */
  lemma SweepBetween(o: Options, s: State, order: seq<string>, now: int)
    requires OptionsOk(o) && Inv(o, s) && Covers(o, s, order)
    ensures var mid := M.ReleaseIdle(o, s, order, now).0;
            && (!SweepRuns(o, s) || Idle(o, s, now) == {} ==> mid == s)
            && (mid.failures == s.failures ==>
                  mid.standbyCount == if SweepRuns(o, s) then Min(o.minLeases, s.standbyCount + |Idle(o, s, now)|)
                    else s.standbyCount)
  {
    if SweepRuns(o, s) {
      SweepOutcome(o, s, order, now);
      var released := M.ReleaseIdle(o, s, order, now).1;
      if Idle(o, s, now) == {} {
        assert released == [];
        QuietSweep(o, s, order, now);
      }
    }
  }

  /** Acquire and Recycle, taken apart. */
  lemma SweptThenServed(o: Options, s: State, id: string, now: int, c: Choice, mid: State)
    requires OptionsOk(o) && id != "" && Covers(o, s, c.order) && mid == M.ReleaseIdle(o, s, c.order, now).0
    requires PicksLeast(mid.leases, c.pick)
    ensures AcquireChoice(o, s, now, c)
    ensures (M.Acquire(o, s, id, false, now, c).state, M.Acquire(o, s, id, false, now, c).result) ==
              AcquireSwept(o, mid, id, false, now, c.pick)
  {
  }

  lemma ReleasedThenAcquired(o: Options, s: State, id: string, now: int, later: int, c: Choice, s1: State)
    requires OptionsOk(o) && id in s.leases && s.leases[id].role == Client && !s.leases[id].persistent
    requires s1 == RecycleSlot(o, s, id, now) && AcquireChoice(o, s1, later, c)
    requires M.Acquire(o, s1, id, false, later, c).state.failures == s.failures
    ensures Recyclable(o, s, id, now, later, c)
    ensures M.Recycle(o, s, id, now, later, c).result == M.Acquire(o, s1, id, false, later, c).result
  {
  }

  // ---------- What Recycle renews ----------

  /** Whether Recycle succeeds is told before the call: exactly if the total it will find,
      sweep included, is below the capacity. Then the same id is served, with a standby's
      slot if there will be one. Otherwise the id is gone. */
  lemma RecycleRenews(o: Options, s: State, id: string, now: int, later: int, c: Choice)
    requires OptionsOk(o) && Inv(o, s) && Recyclable(o, s, id, now, later, c)
    ensures var step := M.Recycle(o, s, id, now, later, c);
            var total, offered := RecycleFinds(o, s, id, later), RecycleOffers(o, s, id, later);
            && (step.result.Ok? <==> total < o.maxLeases)
            && (step.result.Ok? ==>
                  && step.result.value.id == id && id in step.state.leases
                  && |step.state.leases| == (if offered > 0 then total else total + 1)
                  && step.state.standbyCount == Max(0, offered - 1))
            && (step.result.Err? ==> step.result.error == Capacity && id !in step.state.leases)
  {
    RecycleInBetween(o, s, id, now, later, c);
    var mid := Between(o, s, id, now, later, c);
    FreshServed(o, mid, id, later, c.pick);
    AcquireSweptEffect(o, mid, id, false, later, c.pick);
  }

  /** While standbys are short and nobody else is swept, the totals are as before. */
  lemma RecycleKeepsTotals(o: Options, s: State, id: string, now: int, later: int, c: Choice)
    requires OptionsOk(o) && Inv(o, s) && Recyclable(o, s, id, now, later, c)
    requires s.standbyCount < o.minLeases && OthersIdle(o, s, id, later) == {}
    ensures var step := M.Recycle(o, s, id, now, later, c);
            && (step.result.Ok? <==> |s.leases| < o.maxLeases)
            && (step.result.Ok? ==> |step.state.leases| == |s.leases| && step.state.standbyCount == s.standbyCount)
  {
    RecycleRenews(o, s, id, now, later, c);
  }

  /** When no other client is swept in between, the address is another one unless there is no
      floor: then it is the old one exactly when the random source draws it before any
      other that is free. */
  lemma RecycledAddress(o: Options, s: State, id: string, now: int, later: int, c: Choice)
    requires OptionsOk(o) && Inv(o, s) && Recyclable(o, s, id, now, later, c)
    requires OthersIdle(o, s, id, later) == {} && M.Recycle(o, s, id, now, later, c).result.Ok?
    ensures M.Recycle(o, s, id, now, later, c).result.value.ipv6 == s.leases[id].ipv6 <==>
              o.minLeases == 0 && !o.sequential && DrawnNext(o, Drop(s, id), Budget(o), s.leases[id].ipv6)
  {
    var s1, mine := RecycleSlot(o, s, id, now), s.leases[id].ipv6;
    RecycleInBetween(o, s, id, now, later, c);
    RecycledSlot(o, s, id, now);
    FreshServed(o, s1, id, later, c.pick);
    if o.minLeases > 0 {
      assert InUse(s1.leases, s1.leases[c.pick.value].ipv6);
    } else {
      NoFloorDrops(o, s, id, now);
      if o.sequential {
        SequentialAllocation(o, s1);
        assert mine in s1.issued;
      } else {
        RandomAllocation(o, s1, Budget(o), mine);
      }
    }
  }

  /** With sequential addresses it is another one in every call, whoever is swept in between
      and whatever allocation fails. */
  lemma RecycledInSequence(o: Options, s: State, id: string, now: int, later: int, c: Choice)
    requires OptionsOk(o) && Inv(o, s) && o.sequential
    requires id in s.leases && s.leases[id].role == Client && !s.leases[id].persistent
    requires AcquireChoice(o, RecycleSlot(o, s, id, now), later, c)
    ensures var r := M.Recycle(o, s, id, now, later, c).result; r.Ok? ==> r.value.ipv6 != s.leases[id].ipv6
  {
    var s1 := RecycleSlot(o, s, id, now);
    RecycleEffect(o, s, id, now);
    assert Safe(s, id);
    SweptFirst(o, s1, c.order, later);
    var mid := M.ReleaseIdle(o, s1, c.order, later).0;
    AcquireSweptEffect(o, mid, id, false, later, c.pick);
    NeverComesBack(o, s, id, s1, mid, M.ReleaseIdle(o, s1, c.order, later).1);
  }

  lemma NeverComesBack(o: Options, s: State, id: string, s1: State, mid: State, released: seq<string>)
    requires o.sequential && KeysOk(s) && AddressesOk(s) && IndicesOk(o, s) && id in s.leases
    requires AddsOnlyStandbys(o, s, s1, {id}) && AddsOnlyStandbys(o, s1, mid, Elements(released))
    ensures !InUse(mid.leases, s.leases[id].ipv6) && s.leases[id].ipv6 <= mid.generator.base + mid.nextIndex
  {
    AddsTransitive(o, s, s1, mid, {id}, Elements(released));
    GoneStaysGone(o, s, mid, {id} + Elements(released), id);
    assert s.leases[id].ipv6 in s.issued;
  }

  lemma NoFloorDrops(o: Options, s: State, id: string, now: int)
    requires OptionsOk(o) && Inv(o, s) && id in s.leases && s.leases[id].role == Client && s.standbyCount >= o.minLeases
    ensures RecycleSlot(o, s, id, now) == Drop(s, id)
  {
  }

  /** The port, when no other client is swept in between: the client has its old one back
      exactly when that is the least on offer. While standbys are short its own slot is
      among them; without a floor the free ports are on offer, its own included;
      otherwise it never comes back. */
  lemma RecycledPort(o: Options, s: State, id: string, now: int, later: int, c: Choice)
    requires OptionsOk(o) && Inv(o, s) && Recyclable(o, s, id, now, later, c) && o.portStart != 0
    requires OthersIdle(o, s, id, later) == {} && M.Recycle(o, s, id, now, later, c).result.Ok?
    ensures var mine := s.leases[id].port;
            M.Recycle(o, s, id, now, later, c).result.value.port == mine <==>
              if s.standbyCount < o.minLeases then
                forall k :: k in s.leases && s.leases[k].role == Standby ==> mine < s.leases[k].port
              else
                o.minLeases == 0 && forall p :: p in s.freePorts ==> mine < p
  {
    var s1 := RecycleSlot(o, s, id, now);
    RecycleInBetween(o, s, id, now, later, c);
    RecycledSlot(o, s, id, now);
    FreshServed(o, s1, id, later, c.pick);
    AcquireSlot(o, s1, id, false, later, c.pick);
    if s.standbyCount < o.minLeases {
      ConvertedOffer(o, s, id, now);
      LeastOffered(o, s, id, s1, M.Recycle(o, s, id, now, later, c).result.value.port);
    } else {
      NoFloorDrops(o, s, id, now);
      DroppedPort(o, s, id, M.Recycle(o, s, id, now, later, c).result.value.port);
    }
  }

  /** The port taken from what a dropped client leaves: a standby's, or the least free one. */
  lemma DroppedPort(o: Options, s: State, id: string, port: int)
    requires OptionsOk(o) && PortsOk(o, s) && CountsOk(o, s) && id in s.leases && s.leases[id].role == Client
    requires o.portStart != 0 && s.standbyCount >= o.minLeases
    requires var s1 := Drop(s, id);
             if s.standbyCount > 0 then
               exists k :: k in s1.leases && s1.leases[k].role == Standby && s1.leases[k].port == port
             else port in s1.freePorts && forall p :: p in s1.freePorts ==> port <= p
    ensures port == s.leases[id].port <==> o.minLeases == 0 && forall p :: p in s.freePorts ==> s.leases[id].port < p
  {
    DroppedOffer(o, s, id);
  }

  lemma LeastOffered(o: Options, s: State, id: string, s1: State, port: int)
    requires PortsOk(o, s) && o.portStart != 0 && id in s.leases && s.leases[id].role == Client && Offers(s, id, s1)
    requires exists k :: k in s1.leases && s1.leases[k].role == Standby && s1.leases[k].port == port
    requires forall k :: k in s1.leases && s1.leases[k].role == Standby ==> port <= s1.leases[k].port
    ensures port == s.leases[id].port <==>
            forall k :: k in s.leases && s.leases[k].role == Standby ==> s.leases[id].port < s.leases[k].port
  {
  }

  /** The standbys after a conversion: those from before and one on the client's port. */
  ghost predicate Offers(s: State, id: string, s1: State)
    requires id in s.leases
  {
    var k := PoolId(s.standbySeq + 1);
    && k in s1.leases && s1.leases[k].role == Standby && s1.leases[k].port == s.leases[id].port
    && (forall j :: j in s1.leases && s1.leases[j].role == Standby && j != k ==>
         j in s.leases && s1.leases[j] == s.leases[j])
    && (forall j :: j in s.leases && s.leases[j].role == Standby ==> j in s1.leases && s1.leases[j] == s.leases[j])
  }

  lemma ConvertOffers(s: State, s0: State, id: string, a: Address, now: int)
    requires KeysOk(s) && id in s.leases && s.leases[id].role == Client && s0.leases == s.leases
    requires s0.standbySeq == s.standbySeq
    ensures Offers(s, id, Convert(s0, id, a, now))
  {
    assert PoolId(s.standbySeq + 1) !in s.leases;
  }

  lemma ConvertedOffer(o: Options, s: State, id: string, now: int)
    requires OptionsOk(o) && Inv(o, s) && id in s.leases && s.leases[id].role == Client && s.standbyCount < o.minLeases
    requires RecycleSlot(o, s, id, now).failures == s.failures
    ensures Offers(s, id, RecycleSlot(o, s, id, now))
  {
    var (r, s0) := Allocate(o, s);
    if r.Ok? {
      ConvertOffers(s, s0, id, r.value, now);
    } else {
      AllocateKeeps(o, s);
      DropThenEnsure(o, s0, id, now);
    }
  }

  lemma DroppedOffer(o: Options, s: State, id: string)
    requires OptionsOk(o) && PortsOk(o, s) && id in s.leases && s.leases[id].role == Client && o.portStart != 0
    ensures forall p :: p in Drop(s, id).freePorts <==> p in s.freePorts || p == s.leases[id].port
    ensures forall j :: j in s.leases && s.leases[j].role == Standby ==> s.leases[j].port != s.leases[id].port
  {
    SortAppended(s.freePorts, s.leases[id].port);
  }
}
