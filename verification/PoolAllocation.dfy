/** How often an allocation tries, and where the indices go on after a prefix change. */
module PoolAllocation {
  import opened Wrappers
  import opened Ipv6Addr
  import opened PoolInvariant
  import opened PoolSteps
  import opened PoolReassign
  import opened PoolModel
  import opened PoolTheorems
  import opened PoolRecycle

  // ---------- How often an allocation tries ----------

  /** In random mode an allocation makes 2 * maxLeases + 257 draws at most: it hands out the first
      unused one among them, and gives up for want of capacity exactly when each of them
      hits a lease. */
  lemma AllocationTries(o: Options, s: State, a: Address)
    requires OptionsOk(o) && !o.sequential
    ensures Allocate(o, s).0 == Ok(a) <==> DrawnNext(o, s, 2 * o.maxLeases + 257, a)
    ensures Allocate(o, s).0 == Err(Capacity) <==> AllHit(o, s, 2 * o.maxLeases + 257)
  {
    RandomAllocation(o, s, 2 * o.maxLeases + 257, a);
    GivesUp(o, s, 2 * o.maxLeases + 257);
  }

  /** Each of the next n draws hits a lease. */
  ghost predicate AllHit(o: Options, s: State, n: nat) {
    forall j: nat :: j < n ==> DrawnInUse(o, s, j)
  }

  lemma {:induction false} GivesUp(o: Options, s: State, budget: nat)
    requires !o.sequential
    ensures NextAddress(o, s, budget).0 == Err(Capacity) <==> AllHit(o, s, budget)
    decreases budget
  {
    if budget > 0 {
      if DrawnInUse(o, s, 0) {
        var s1 := Draw(o, s).1;
        assert s1 == s.(drawn := s.drawn + 1);
        GivesUp(o, s1, budget - 1);
        AllShift(o, s, s1, budget);
      }
    }
  }

  lemma AllShift(o: Options, s: State, s1: State, budget: nat)
    requires budget > 0 && DrawnInUse(o, s, 0) && s1 == s.(drawn := s.drawn + 1)
    ensures AllHit(o, s1, budget - 1) <==> AllHit(o, s, budget)
  {
    assert forall j: nat :: DrawnInUse(o, s1, j) <==> DrawnInUse(o, s, j + 1);
    if AllHit(o, s1, budget - 1) {
      forall j: nat | j < budget ensures DrawnInUse(o, s, j) {
        assert j > 0 ==> DrawnInUse(o, s1, j - 1);
      }
    }
    if AllHit(o, s, budget) {
      forall j: nat | j < budget - 1 ensures DrawnInUse(o, s1, j) {
        assert DrawnInUse(o, s, j + 1);
      }
    }
  }

  /** The next n draws all yield an address, and no two the same. */
  ghost predicate DistinctDraws(o: Options, s: State, n: nat) {
    && (forall j: nat :: j < n ==> Drawn(o, s, j).Some?)
    && (forall i: nat, j: nat :: i < j < n ==> Drawn(o, s, i) != Drawn(o, s, j))
  }

  /** So draws that do not repeat themselves always suffice, while the pool has fewer leases
      than tries. */
  lemma DistinctDrawsSuffice(o: Options, s: State)
    requires OptionsOk(o) && !o.sequential && |s.leases| < 2 * o.maxLeases + 257
    requires DistinctDraws(o, s, 2 * o.maxLeases + 257)
    ensures Allocate(o, s).0.Ok?
  {
    DistinctDrawsAllocate(o, s, 2 * o.maxLeases + 257);
  }

  lemma DistinctDrawsAllocate(o: Options, s: State, n: nat)
    requires !o.sequential && |s.leases| < n && DistinctDraws(o, s, n)
    ensures NextAddress(o, s, n).0.Ok?
  {
    OnlyCapacity(o, s, n);
    GivesUp(o, s, n);
    if AllHit(o, s, n) {
      HitsAreLeases(o, s, n);
      assert false;
    }
  }

  lemma {:induction false} OnlyCapacity(o: Options, s: State, budget: nat)
    requires !o.sequential && forall j: nat :: j < budget ==> Drawn(o, s, j).Some?
    ensures NextAddress(o, s, budget).0.Ok? || NextAddress(o, s, budget).0 == Err(Capacity)
    decreases budget
  {
    if budget > 0 {
      assert Drawn(o, s, 0).Some?;
      var s1 := Draw(o, s).1;
      forall j: nat | j < budget - 1 ensures Drawn(o, s1, j).Some? {
        assert Drawn(o, s, j + 1).Some?;
      }
      OnlyCapacity(o, s1, budget - 1);
    }
  }

  function AsSet(xs: seq<Address>): set<Address> {
    set a | a in xs
  }

  lemma {:induction false} DistinctSize(xs: seq<Address>)
    requires forall i, j :: 0 <= i < j < |xs| ==> xs[i] != xs[j]
    ensures |AsSet(xs)| == |xs|
    decreases |xs|
  {
    if |xs| > 0 {
      var init, last := xs[..|xs| - 1], xs[|xs| - 1];
      DistinctSize(init);
      assert xs == init + [last] && last !in init;
      assert AsSet(xs) == AsSet(init) + {last};
    }
  }

  lemma HitsAreLeases(o: Options, s: State, n: nat)
    requires AllHit(o, s, n) && DistinctDraws(o, s, n)
    ensures n <= |s.leases|
  {
    var xs := seq(n, j requires 0 <= j < n && DrawnInUse(o, s, j) => Drawn(o, s, j).value);
    DistinctSize(xs);
    forall a | a in AsSet(xs) ensures a in Addresses(s.leases) {
      var j :| 0 <= j < n && xs[j] == a;
      assert DrawnInUse(o, s, j);
    }
    SubsetSize(AsSet(xs), Addresses(s.leases));
    AddressesAtMost(s.leases);
  }

  lemma {:induction false} AddressesAtMost(leases: map<string, Lease>)
    ensures |Addresses(leases)| <= |leases|
    decreases |leases|
  {
    if leases == map[] {
      assert Addresses(leases) == {};
    } else {
      var k :| k in leases;
      var rest := leases - {k};
      assert leases.Keys == rest.Keys + {k};
      assert Addresses(leases) == Addresses(rest) + {leases[k].ipv6};
      AddressesAtMost(rest);
    }
  }

  // ---------- Where the indices go on ----------

  ghost function IndicesTaken(o: Options, s: State, s': State): int {
    if o.sequential then s'.standbyCount - s.standbyCount else 0
  }

  lemma NewStandbyIndex(o: Options, s: State, now: int)
    requires OptionsOk(o) && Inv(o, s)
    ensures var (ok, s1) := NewStandby(o, s, now);
            && s1.failures >= s.failures
            && (ok ==> s1.nextIndex == s.nextIndex + IndicesTaken(o, s, s1))
            && (!ok && s1.failures == s.failures ==> s1 == s)
  {
    if o.sequential {
      SequentialAllocation(o, s);
    } else {
      RandomIndex(o, s, Budget(o));
    }
  }

  lemma {:induction false} RandomIndex(o: Options, s: State, budget: nat)
    requires !o.sequential
    ensures NextAddress(o, s, budget).1.nextIndex == s.nextIndex
    decreases budget
  {
    if budget > 0 {
      RandomIndex(o, Draw(o, s).1, budget - 1);
    }
  }

  /** Topping up in sequential mode takes one index for each new standby. */
  lemma {:induction false} EnsureIndices(o: Options, s: State, now: int)
    requires OptionsOk(o) && Inv(o, s) && EnsureStandbys(o, s, now).failures == s.failures
    ensures var s' := EnsureStandbys(o, s, now); s'.nextIndex == s.nextIndex + IndicesTaken(o, s, s')
    decreases o.minLeases - s.standbyCount
  {
    if s.standbyCount < o.minLeases {
      NewStandbyKeeps(o, s, now);
      NewStandbyIndex(o, s, now);
      var (ok, s1) := NewStandby(o, s, now);
      if ok {
        EnsureAdds(o, s1, now);
        EnsureIndices(o, s1, now);
      }
    }
  }

  /** The lease with the highest address of s is at index n. */
  ghost predicate LastIndex(g: Network, keys: set<string>, leases: map<string, Lease>, n: int) {
    && (forall k :: k in keys ==> k in leases && leases[k].ipv6 <= g.base + n)
    && (if keys == {} then n == 0 else exists k :: k in keys && k in leases && leases[k].ipv6 == g.base + n)
  }

  /** After a prefix change, while no allocation fails, the indices go on where the last lease was
      put: none is skipped, and none is tried again. */
  lemma ReassignGoesOn(o: Options, s: State, prefix: Cidr, now: int, order: seq<string>)
    requires OptionsOk(o) && Inv(o, s) && Enumerates(s, order) && prefix.address < Pow2(Width)
    requires Reassign(o, s, Some(prefix), now, order).result.Ok?
    requires Reassign(o, s, Some(prefix), now, order).state.failures == s.failures
    ensures var s' := Reassign(o, s, Some(prefix), now, order).state;
            LastIndex(s'.generator, s.leases.Keys, s'.leases, s'.nextIndex - IndicesTaken(o, s, s'))
  {
    var s1 := CommittedFirst(o, s, prefix, now, order);
    TopUpGoesOn(o, s1.generator, s.leases.Keys, s1, now);
  }

  lemma CommittedFirst(o: Options, s: State, prefix: Cidr, now: int, order: seq<string>) returns (s1: State)
    requires OptionsOk(o) && Inv(o, s) && Enumerates(s, order) && prefix.address < Pow2(Width)
    requires Reassign(o, s, Some(prefix), now, order).result.Ok?
    ensures Inv(o, s1) && s1.failures == s.failures && s1.standbyCount == s.standbyCount
    ensures Reassign(o, s, Some(prefix), now, order).state == EnsureStandbys(o, s1, now)
    ensures LastIndex(s1.generator, s.leases.Keys, s1.leases, s1.nextIndex)
  {
    var g: Network := NewGenerator(Some(prefix)).value;
    PlanKeys(o, g, s.leases, order);
    PlanCounts(o, g, s.leases, order);
    var p := MakePlan(o, g, s.leases, order).value;
    CommitKeeps(o, s, g, order, p, now);
    CommittedLast(o, s, g, order, p, now);
    s1 := Commit(s, g, p, now);
  }

  lemma TopUpGoesOn(o: Options, g: Network, keys: set<string>, s1: State, now: int)
    requires OptionsOk(o) && Inv(o, s1) && s1.generator == g && EnsureStandbys(o, s1, now).failures == s1.failures
    requires LastIndex(g, keys, s1.leases, s1.nextIndex)
    ensures var s' := EnsureStandbys(o, s1, now);
            s'.generator == g && LastIndex(g, keys, s'.leases, s'.nextIndex - IndicesTaken(o, s1, s'))
  {
    EnsureIndices(o, s1, now);
    EnsureAdds(o, s1, now);
    LastStays(o, g, keys, s1, EnsureStandbys(o, s1, now));
  }

  lemma LastStays(o: Options, g: Network, keys: set<string>, s1: State, s': State)
    requires AddsOnlyStandbys(o, s1, s', {}) && LastIndex(g, keys, s1.leases, s1.nextIndex)
    ensures LastIndex(g, keys, s'.leases, s1.nextIndex)
  {
    if keys != {} {
      var k :| k in keys && k in s1.leases && s1.leases[k].ipv6 == g.base + s1.nextIndex;
      assert k in s'.leases && s'.leases[k] == s1.leases[k];
    }
  }

  lemma CommittedLast(o: Options, s: State, g: Network, order: seq<string>, p: Plan, now: int)
    requires Enumerates(s, order) && MakePlan(o, g, s.leases, order) == Ok(p) && p.addresses.Keys == s.leases.Keys
    requires PlanOk(g, Addresses(s.leases), order, p)
    ensures LastIndex(g, s.leases.Keys, Commit(s, g, p, now).leases, p.next)
  {
    LastPlanned(o, g, s.leases, order);
    var leases := Commit(s, g, p, now).leases;
    if order != [] {
      var k := order[|order| - 1];
      assert k in s.leases.Keys && leases[k].ipv6 == g.base + p.next;
    } else {
      assert forall k :: k in s.leases.Keys ==> k in order;
      assert s.leases.Keys == {};
    }
  }

  lemma LastPlanned(o: Options, g: Network, leases: map<string, Lease>, order: seq<string>)
    requires MakePlan(o, g, leases, order).Ok?
    ensures var p := MakePlan(o, g, leases, order).value;
            if order == [] then p.next == 0
            else
              var k := order[|order| - 1];
              k in p.addresses && p.addresses[k] == g.base + p.next
  {
  }
}
