/** Reassign: moving the whole pool to a new prefix is all or nothing, and it fails
    only when the new prefix has too few usable indices. */
module PoolReassign {
  import opened Wrappers
  import opened Ipv6Addr
  import opened PoolModel
  import opened PoolInvariant
  import opened PoolSteps

  /** The addresses now held that indices 1 to n of the new prefix would collide with. */
  ghost function Hits(g: Network, taken: set<Address>, n: nat): set<Address> {
    set a | a in taken && g.base < a <= g.base + n
  }

  /** How many of the indices 1 to n are usable. */
  ghost function Usable(g: Network, taken: set<Address>, n: nat): int {
    n - |Hits(g, taken, n)|
  }

  lemma UsableStep(g: Network, taken: set<Address>, n: nat)
    ensures Usable(g, taken, n + 1) == Usable(g, taken, n) + (if g.base + n + 1 in taken then 0 else 1)
  {
    var a := g.base + n + 1;
    if a in taken {
      assert Hits(g, taken, n + 1) == Hits(g, taken, n) + {a};
    } else {
      assert Hits(g, taken, n + 1) == Hits(g, taken, n);
    }
  }

  lemma {:induction false} UsableMonotone(g: Network, taken: set<Address>, m: nat, n: nat)
    requires m <= n
    ensures Usable(g, taken, m) <= Usable(g, taken, n)
  {
    if m < n {
      UsableMonotone(g, taken, m, n - 1);
      UsableStep(g, taken, n - 1);
    }
  }

  lemma SubsetSize<T>(a: set<T>, b: set<T>)
    requires a <= b
    ensures |a| <= |b|
  {
    assert b == a + (b - a);
  }

  /** What a search from `next` with some tries left finds: the next usable index, or that
      there is none within the tries or none in the prefix. */
  ghost predicate Searched(g: Network, taken: set<Address>, next: nat, tries: nat, r: Result<nat, Error>)
    requires next < g.hostMax
  {
    match r
    case Ok(i) => g.base + i !in taken && Usable(g, taken, i) == Usable(g, taken, next) + 1
    case Err(Capacity) => Usable(g, taken, next + tries) == Usable(g, taken, next)
    case Err(_) => Usable(g, taken, g.hostMax - 1) == Usable(g, taken, next)
  }

  /** The search for one index, in terms of usable indices. */
  lemma {:induction false} SearchCounts(o: Options, g: Network, taken: set<Address>, reserved: set<Address>, next: nat,
    attempts: nat)
    requires attempts <= o.maxLeases + 1 && next < g.hostMax
    requires forall a :: a > g.base + next ==> (a in reserved <==> a in taken)
    ensures Searched(g, taken, next, o.maxLeases + 1 - attempts, FindIndex(o, g, reserved, next, attempts))
    decreases o.maxLeases + 1 - attempts
  {
    if attempts <= o.maxLeases && next + 1 < g.hostMax {
      UsableStep(g, taken, next);
      if g.base + next + 1 in reserved {
        SearchCounts(o, g, taken, reserved, next + 1, attempts + 1);
      }
    }
  }

  /** A partial plan: distinct new addresses at indices up to `next`, none of them
      taken, one for each usable index. */
  ghost predicate PlanOk(g: Network, taken: set<Address>, order: seq<string>, p: Plan) {
    && (forall k :: k in p.addresses <==> k in order)
    && (forall k :: k in p.addresses ==>
          && g.base + 1 <= p.addresses[k] <= g.base + p.next
          && p.addresses[k] !in taken
          && p.addresses[k] in p.reserved)
    && (forall j, k :: j in p.addresses && k in p.addresses && p.addresses[j] == p.addresses[k] ==> j == k)
    && taken <= p.reserved
    && (forall a :: a in p.reserved ==> a in taken || a <= g.base + p.next)
    && p.next < g.hostMax
    && Usable(g, taken, p.next) == |order|
  }

  ghost predicate Distinct(order: seq<string>) {
    forall i, j :: 0 <= i < j < |order| ==> order[i] != order[j]
  }

  /** Adding the address at the next usable index to a plan. */
  lemma PlanStep(g: Network, taken: set<Address>, init: seq<string>, k: string, p: Plan, i: nat)
    requires PlanOk(g, taken, init, p) && k !in init
    requires p.next < i < g.hostMax && g.base + i !in taken && Usable(g, taken, i) == Usable(g, taken, p.next) + 1
    ensures PlanOk(g, taken, init + [k], Plan(p.addresses[k := g.base + i], i, p.reserved + {g.base + i}))
  {
    assert k !in p.addresses;
  }

  /** The attempt bound can only fire when more addresses are held than it allows. */
  lemma BoundNeedsHits(o: Options, g: Network, taken: set<Address>, next: nat)
    requires o.maxLeases > 0 && Usable(g, taken, next + o.maxLeases + 1) == Usable(g, taken, next)
    ensures |taken| > o.maxLeases
  {
    SubsetSize(Hits(g, taken, next + o.maxLeases + 1), taken);
  }

  lemma PlanBase(g: Network, taken: set<Address>)
    ensures PlanOk(g, taken, [], Plan(map[], 0, taken))
  {
    assert Hits(g, taken, 0) == {};
  }

  /** What the search for one more lease makes of a partial plan. */
  lemma PlanExtends(o: Options, g: Network, taken: set<Address>, init: seq<string>, k: string, p: Plan)
    requires o.maxLeases > 0 && PlanOk(g, taken, init, p) && k !in init
    ensures match FindIndex(o, g, p.reserved, p.next, 0)
            case Ok(i) => PlanOk(g, taken, init + [k], Plan(p.addresses[k := g.base + i], i, p.reserved + {g.base + i}))
            case Err(e) => if e == Capacity then |taken| > o.maxLeases else Usable(g, taken, g.hostMax - 1) == |init|
  {
    SearchCounts(o, g, taken, p.reserved, p.next, 0);
    match FindIndex(o, g, p.reserved, p.next, 0)
    case Ok(i) => PlanStep(g, taken, init, k, p, i);
    case Err(e) =>
      if e == Capacity {
        BoundNeedsHits(o, g, taken, p.next);
      }
  }

  /** The outcome of planning for the keys in `order`: a plan, or too few usable
      indices, or the attempt bound after more hits than the bound. */
  ghost predicate Planned(o: Options, g: Network, taken: set<Address>, order: seq<string>, r: Result<Plan, Error>) {
    match r
    case Ok(p) => PlanOk(g, taken, order, p)
    case Err(e) => if e == Capacity then |taken| > o.maxLeases else Usable(g, taken, g.hostMax - 1) < |order|
  }

  lemma PlanNextPlanned(o: Options, g: Network, taken: set<Address>, init: seq<string>, k: string, r: Result<Plan,
    Error>)
    requires o.maxLeases > 0 && Planned(o, g, taken, init, r) && k !in init
    ensures Planned(o, g, taken, init + [k], PlanNext(o, g, r, k))
  {
    if r.Ok? {
      PlanExtends(o, g, taken, init, k, r.value);
    }
  }

  lemma {:induction false} PlanCounts(o: Options, g: Network, leases: map<string, Lease>, order: seq<string>)
    requires o.maxLeases > 0 && Distinct(order)
    ensures Planned(o, g, Addresses(leases), order, MakePlan(o, g, leases, order))
    decreases |order|
  {
    if |order| == 0 {
      PlanBase(g, Addresses(leases));
    } else {
      var init, k := order[..|order| - 1], order[|order| - 1];
      assert order == init + [k];
      PlanCounts(o, g, leases, init);
      PlanNextPlanned(o, g, Addresses(leases), init, k, MakePlan(o, g, leases, init));
    }
  }

  lemma AddressesSize(s: State)
    requires AddressesOk(s)
    ensures |Addresses(s.leases)| == |s.leases|
  {
    InjectiveSize(s.leases);
  }

  lemma {:induction false} InjectiveSize(leases: map<string, Lease>)
    requires forall j, k :: j in leases && k in leases && leases[j].ipv6 == leases[k].ipv6 ==> j == k
    ensures |Addresses(leases)| == |leases|
    decreases |leases|
  {
    if leases != map[] {
      var k :| k in leases;
      StandbysRemove(leases, k);
      InjectiveSize(leases - {k});
      forall a ensures a in Addresses(leases) <==> a in Addresses(leases - {k}) + {leases[k].ipv6} {
        if a in Addresses(leases) && a != leases[k].ipv6 {
          var j :| j in leases && leases[j].ipv6 == a;
          assert j in leases - {k} && (leases - {k})[j].ipv6 == a;
        }
      }
      assert Addresses(leases) == Addresses(leases - {k}) + {leases[k].ipv6};
    } else {
      assert Addresses(leases) == {};
    }
  }

  lemma {:induction false} EnumerationSize(order: seq<string>)
    requires Distinct(order)
    ensures |Elements(order)| == |order|
    decreases |order|
  {
    if |order| > 0 {
      var init, k := order[..|order| - 1], order[|order| - 1];
      EnumerationSize(init);
      assert order == init + [k] && k !in init;
      assert Elements(order) == Elements(init) + {k};
    } else {
      assert Elements(order) == {};
    }
  }

  // ---------- All or nothing ----------

  /** Every lease keeps id, port, role and persistence and moves to a distinct address
      of the new prefix that no lease held before. Client leases start a new period;
      standbys keep theirs. */
  ghost predicate MovedTo(g: Network, s: State, s': State, now: int) {
    && (forall k :: k in s.leases ==>
          && k in s'.leases
          && var l, l' := s.leases[k], s'.leases[k];
             && l'.id == l.id && l'.port == l.port && l'.role == l.role && l'.persistent == l.persistent
             && l'.generation == l.generation + 1
             && InPrefix(g, l'.ipv6) && !InUse(s.leases, l'.ipv6)
             && (if l.role == Client then l'.createdAt == now && l'.lastUsedAt == now && l'.requests == 0
                 else l'.createdAt == l.createdAt && l'.lastUsedAt == l.lastUsedAt && l'.requests == l.requests))
    && (forall j, k :: j in s'.leases && k in s'.leases && s'.leases[j].ipv6 == s'.leases[k].ipv6 ==> j == k)
    && (forall k :: k in s'.leases && k !in s.leases ==>
         s'.leases[k].role == Standby && !s'.leases[k].persistent && !Safe(s, k))
    && s'.generator == g
  }

  lemma CommitKeeps(o: Options, s: State, g: Network, order: seq<string>, p: Plan, now: int)
    requires OptionsOk(o) && Inv(o, s) && PlanOk(g, Addresses(s.leases), order, p)
    requires p.addresses.Keys == s.leases.Keys
    ensures Inv(o, Commit(s, g, p, now))
  {
    var s' := Commit(s, g, p, now);
    CommitAddresses(s, g, order, p, now);
    CommitShape(s, g, p, now);
    ShapeKeeps(o, s, s');
  }

  /** The same keys, each with the same id, port and role, and the same free ports and counts. */
  ghost predicate SameShape(s: State, s': State) {
    && s'.leases.Keys == s.leases.Keys
    && (forall k :: k in s.leases ==>
          s'.leases[k].id == s.leases[k].id && s'.leases[k].port == s.leases[k].port &&
            s'.leases[k].role == s.leases[k].role)
    && s'.freePorts == s.freePorts && s'.standbyCount == s.standbyCount && s'.standbySeq == s.standbySeq
  }

  lemma CommitShape(s: State, g: Network, p: Plan, now: int)
    requires p.addresses.Keys == s.leases.Keys
    ensures SameShape(s, Commit(s, g, p, now))
  {
    assert Commit(s, g, p, now).leases.Keys == s.leases.Keys;
  }

  lemma ShapeKeepsPorts(o: Options, s: State, s': State)
    requires SameShape(s, s') && PortsOk(o, s)
    ensures PortsOk(o, s')
  {
    assert |s'.leases| == |s'.leases.Keys| == |s.leases|;
  }

  lemma ShapeKeeps(o: Options, s: State, s': State)
    requires SameShape(s, s') && KeysOk(s) && PortsOk(o, s) && CountsOk(o, s)
    ensures KeysOk(s') && PortsOk(o, s') && CountsOk(o, s')
    ensures |s'.leases| == |s.leases|
  {
    ShapeKeepsPorts(o, s, s');
    assert Standbys(s'.leases) == Standbys(s.leases);
    assert |s'.leases| == |s'.leases.Keys| == |s.leases|;
  }

  lemma CommitMoves(s: State, g: Network, order: seq<string>, p: Plan, now: int)
    requires PlanOk(g, Addresses(s.leases), order, p) && p.addresses.Keys == s.leases.Keys
    ensures MovedTo(g, s, Commit(s, g, p, now), now)
  {
    var s' := Commit(s, g, p, now);
    CommitAddresses(s, g, order, p, now);
    assert s'.leases.Keys == s.leases.Keys;
    forall k | k in s.leases ensures !InUse(s.leases, s'.leases[k].ipv6) {
      assert s'.leases[k].ipv6 == p.addresses[k];
      forall j | j in s.leases ensures s.leases[j].ipv6 != p.addresses[k] {
        assert s.leases[j].ipv6 in Addresses(s.leases);
      }
    }
  }

  lemma CommitAddresses(s: State, g: Network, order: seq<string>, p: Plan, now: int)
    requires PlanOk(g, Addresses(s.leases), order, p) && p.addresses.Keys == s.leases.Keys
    ensures var s' := Commit(s, g, p, now);
            AddressesOk(s') && (forall a :: a in s'.issued ==> g.base + 1 <= a <= g.base + p.next)
  {
    var s' := Commit(s, g, p, now);
    forall k | k in s'.leases
      ensures s'.leases[k].ipv6 == p.addresses[k] && s'.leases[k].ipv6 in s'.issued
    {
    }
  }

  /** With at most maxLeases leases, a well-formed prefix is refused exactly when it
      has fewer usable indices than there are leases; the attempt bound never fires.
      Success needs at most 2n indices. Failure leaves the pool as it was. */
  lemma ReassignAllOrNothing(o: Options, s: State, prefix: Cidr, g: Network, now: int, order: seq<string>)
    requires OptionsOk(o) && Inv(o, s) && Enumerates(s, order) && |s.leases| <= o.maxLeases
    requires prefix.address < Pow2(Width) && NewGenerator(Some(prefix)) == Ok(g)
    ensures var step := Reassign(o, s, Some(prefix), now, order);
            && (step.result.Ok? <==> |s.leases| <= Usable(g, Addresses(s.leases), g.hostMax - 1))
            && (2 * |s.leases| < g.hostMax ==> step.result.Ok?)
            && (step.result.Ok? ==>
                 MovedTo(g, s, step.state, now) && MakePlan(o, g, s.leases, order).value.next <= 2 * |s.leases|)
            && (step.result.Err? ==> step.state == s && step.result.error == AddressError(IndexOutOfRange))
  {
    PlanSucceeds(o, s, g, order);
    ReassignKeeps(o, s, prefix, now, order);
  }

  lemma PlanSucceeds(o: Options, s: State, g: Network, order: seq<string>)
    requires OptionsOk(o) && AddressesOk(s) && Enumerates(s, order) && |s.leases| <= o.maxLeases
    ensures var r := MakePlan(o, g, s.leases, order);
            && (r.Ok? <==> |s.leases| <= Usable(g, Addresses(s.leases), g.hostMax - 1))
            && (2 * |s.leases| < g.hostMax ==> r.Ok?)
            && (r.Ok? ==> r.value.next <= 2 * |s.leases|)
            && (r.Err? ==> r.error == AddressError(IndexOutOfRange))
  {
    AddressesSize(s);
    EnumerationSize(order);
    assert Elements(order) == s.leases.Keys;
    PlanCounts(o, g, s.leases, order);
    PlanErrors(o, g, s.leases, order);
    PlannedSize(o, g, Addresses(s.leases), order, MakePlan(o, g, s.leases, order));
  }

  lemma PlannedSize(o: Options, g: Network, taken: set<Address>, order: seq<string>, r: Result<Plan, Error>)
    requires Planned(o, g, taken, order, r) && |order| == |taken| <= o.maxLeases
    ensures r.Ok? <==> |order| <= Usable(g, taken, g.hostMax - 1)
    ensures 2 * |order| < g.hostMax ==> r.Ok?
    ensures r.Ok? ==> r.value.next <= 2 * |order|
    ensures r != Err(Capacity)
  {
    SubsetSize(Hits(g, taken, g.hostMax - 1), taken);
    if r.Ok? {
      UsableMonotone(g, taken, r.value.next, g.hostMax - 1);
      SubsetSize(Hits(g, taken, r.value.next), taken);
    }
  }

  lemma {:induction false} SearchErrors(o: Options, g: Network, reserved: set<Address>, next: nat, attempts: nat)
    ensures var r := FindIndex(o, g, reserved, next, attempts);
            r.Err? ==> r.error == Capacity || r.error == AddressError(IndexOutOfRange)
    decreases o.maxLeases + 1 - attempts
  {
    if attempts <= o.maxLeases && next + 1 < g.hostMax && g.base + next + 1 in reserved {
      SearchErrors(o, g, reserved, next + 1, attempts + 1);
    }
  }

  lemma {:induction false} PlanErrors(o: Options, g: Network, leases: map<string, Lease>, order: seq<string>)
    ensures var r := MakePlan(o, g, leases, order);
            r.Err? ==> r.error == Capacity || r.error == AddressError(IndexOutOfRange)
    decreases |order|
  {
    if |order| > 0 {
      PlanErrors(o, g, leases, order[..|order| - 1]);
      match MakePlan(o, g, leases, order[..|order| - 1])
      case Err(_) =>
      case Ok(p) => SearchErrors(o, g, p.reserved, p.next, 0);
    }
  }

  /** Whatever the number of leases, Reassign keeps the invariant and either moves
      every lease or changes nothing. */
  lemma ReassignKeeps(o: Options, s: State, prefix: Cidr, now: int, order: seq<string>)
    requires OptionsOk(o) && Inv(o, s) && Enumerates(s, order)
    requires prefix.address < Pow2(Width)
    ensures var step := Reassign(o, s, Some(prefix), now, order);
            && Inv(o, step.state)
            && (if step.result.Ok? then
                  NewGenerator(Some(prefix)).Ok? && Relocated(o, s, NewGenerator(Some(prefix)).value, step.state, now)
                else step.state == s)
  {
    match NewGenerator(Some(prefix))
    case Err(_) =>
    case Ok(g) =>
      if MakePlan(o, g, s.leases, order).Ok? {
        PlanThenCommit(o, s, g, order, now);
      }
  }

  lemma PlanThenCommit(o: Options, s: State, g: Network, order: seq<string>, now: int)
    requires OptionsOk(o) && Inv(o, s) && Enumerates(s, order) && MakePlan(o, g, s.leases, order).Ok?
    ensures var p := MakePlan(o, g, s.leases, order).value;
            && p.addresses.Keys == s.leases.Keys
            && var s' := EnsureStandbys(o, Commit(s, g, p, now), now);
               Inv(o, s') && Relocated(o, s, g, s', now)
  {
    var p := MakePlan(o, g, s.leases, order).value;
    PlanCounts(o, g, s.leases, order);
    PlanKeys(o, g, s.leases, order);
    CommitThenTop(o, s, g, order, p, now);
  }

  ghost predicate Relocated(o: Options, s: State, g: Network, s': State, now: int) {
    && MovedTo(g, s, s', now)
    && s.standbySeq <= s'.standbySeq
    && s.failures <= s'.failures
    && |s'.leases| - |s.leases| == s'.standbyCount - s.standbyCount >= 0
  }

  lemma CommitThenTop(o: Options, s: State, g: Network, order: seq<string>, p: Plan, now: int)
    requires OptionsOk(o) && Inv(o, s) && PlanOk(g, Addresses(s.leases), order, p)
    requires p.addresses.Keys == s.leases.Keys
    ensures var s' := EnsureStandbys(o, Commit(s, g, p, now), now);
            Inv(o, s') && Relocated(o, s, g, s', now)
  {
    var s1 := Commit(s, g, p, now);
    CommitKeeps(o, s, g, order, p, now);
    CommitMoves(s, g, order, p, now);
    CommitShape(s, g, p, now);
    ShapeKeeps(o, s, s1);
    EnsureKeeps(o, s1, now);
    EnsureAdds(o, s1, now);
    MovedThenTopped(o, g, s, s1, EnsureStandbys(o, s1, now), now);
  }

  lemma MovedThenTopped(o: Options, g: Network, s: State, s1: State, s2: State, now: int)
    requires MovedTo(g, s, s1, now) && s1.leases.Keys == s.leases.Keys && s1.standbySeq == s.standbySeq
    requires AddsOnlyStandbys(o, s1, s2, {}) && AddressesOk(s2)
    ensures MovedTo(g, s, s2, now)
  {
    assert forall k :: k in s.leases ==> k in s2.leases && s2.leases[k] == s1.leases[k];
    assert forall k :: Safe(s, k) <==> Safe(s1, k);
  }
}
