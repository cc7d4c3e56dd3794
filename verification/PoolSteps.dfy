/** What the compound steps of the pool do to the lease map: recycling and sweeping
    remove exactly the leases they are asked to and add only fresh standbys;
    acquiring touches one identity and leaves every other client lease alone. */
module PoolSteps {
  import opened Wrappers
  import opened Ids
  import opened Ipv6Addr
  import opened PoolModel
  import opened PoolInvariant

  function Elements(xs: seq<string>): set<string> {
    set x | x in xs
  }

  function Min(a: int, b: int): int {
    if a <= b then a else b
  }

  function Max(a: int, b: int): int {
    if a >= b then a else b
  }

  /** In sequential mode, a is beyond every address drawn up to s. */
  ghost predicate Later(o: Options, s: State, a: Address) {
    o.sequential ==> a > s.generator.base + s.nextIndex
  }

  /** Everything outside `removed` is untouched, the keys in `removed` are gone, and
      whatever is new is a standby under an id never used before, with an address
      never drawn before when addresses are sequential. */
  ghost predicate AddsOnlyStandbys(o: Options, s: State, s': State, removed: set<string>) {
    && (forall k :: k in s.leases && k !in removed ==> k in s'.leases && s'.leases[k] == s.leases[k])
    && (forall k :: k in s'.leases && !(k in s.leases && k !in removed) ==>
          s'.leases[k].role == Standby && !s'.leases[k].persistent && !Safe(s, k) && Later(o, s, s'.leases[k].ipv6))
    && s.standbySeq <= s'.standbySeq
    && s'.generator == s.generator
    && s.failures <= s'.failures
    && s.issued <= s'.issued
    && s.nextIndex <= s'.nextIndex
  }

  lemma AddsTransitive(o: Options, s: State, s1: State, s2: State, r1: set<string>, r2: set<string>)
    requires AddsOnlyStandbys(o, s, s1, r1) && AddsOnlyStandbys(o, s1, s2, r2)
    ensures AddsOnlyStandbys(o, s, s2, r1 + r2)
  {
  }

  lemma IndexNeverFalls(o: Options, s: State, budget: nat)
    ensures NextAddress(o, s, budget).1.nextIndex >= s.nextIndex
    decreases budget
  {
    if budget > 0 {
      IndexNeverFalls(o, Draw(o, s).1, budget - 1);
    }
  }

  lemma AllocateAdds(o: Options, s: State)
    requires OptionsOk(o)
    ensures AddsOnlyStandbys(o, s, Allocate(o, s).1, {})
  {
    IndexNeverFalls(o, s, Budget(o));
  }

  lemma SeededAdds(o: Options, s: State, s1: State, a: Address, now: int)
    requires KeysOk(s) && AddsOnlyStandbys(o, s, s1, {}) && s1.leases == s.leases && s1.standbySeq == s.standbySeq
    requires Later(o, s, a) && (o.portStart != 0 ==> |s1.freePorts| > 0)
    ensures AddsOnlyStandbys(o, s, Seeded(o, s1, a, now), {})
  {
    assert !Safe(s, PoolId(s.standbySeq + 1));
  }

  lemma NewStandbyAdds(o: Options, s: State, now: int)
    requires OptionsOk(o) && Inv(o, s)
    ensures AddsOnlyStandbys(o, s, NewStandby(o, s, now).1, {})
  {
    AllocateAdds(o, s);
    var (r, s1) := Allocate(o, s);
    if r.Ok? && !(o.portStart != 0 && |s.freePorts| == 0) {
      SeededAdds(o, s, s1, r.value, now);
    }
  }

  /** Topping up only adds standbys. Without a failed allocation it stops exactly
      when the floor is met or the free ports have run out. */
  lemma {:induction false} EnsureAdds(o: Options, s: State, now: int)
    requires OptionsOk(o) && Inv(o, s)
    ensures var s' := EnsureStandbys(o, s, now);
            && AddsOnlyStandbys(o, s, s', {})
            && |s'.leases| - |s.leases| == s'.standbyCount - s.standbyCount >= 0
            && |s'.freePorts| == |s.freePorts| - (if o.portStart != 0 then s'.standbyCount - s.standbyCount else 0)
            && (s'.failures == s.failures ==>
                  s'.standbyCount == o.minLeases || (o.portStart != 0 && s'.freePorts == []))
    decreases o.minLeases - s.standbyCount
  {
    if s.standbyCount < o.minLeases {
      NewStandbyAdds(o, s, now);
      NewStandbyKeeps(o, s, now);
      var (ok, s1) := NewStandby(o, s, now);
      if ok {
        NewStandbyCounts(o, s, now);
        EnsureAdds(o, s1, now);
        AddsTransitive(o, s, s1, EnsureStandbys(o, s1, now), {}, {});
        var none: set<string> := {};
        assert none + none == none;
      }
    }
  }

  lemma NewStandbyCounts(o: Options, s: State, now: int)
    requires OptionsOk(o) && Inv(o, s) && s.standbyCount < o.minLeases && NewStandby(o, s, now).0
    ensures |NewStandby(o, s, now).1.leases| == |s.leases| + 1
    ensures |NewStandby(o, s, now).1.freePorts| == |s.freePorts| - (if o.portStart != 0 then 1 else 0)
  {
    AllocateKeeps(o, s);
    var (r, s1) := Allocate(o, s);
    SeededKeeps(o, s1, r.value, now);
  }

  /** A removed key is not among the new standbys' keys. */
  lemma GoneStaysGone(o: Options, s: State, s': State, removed: set<string>, k: string)
    requires KeysOk(s) && AddsOnlyStandbys(o, s, s', removed)
    requires k in s.leases && k in removed
    ensures k !in s'.leases
  {
  }

  /** How recycling the lease under id changes the counts when no allocation fails:
      a client turns into a standby while standbys are short and lowers the total by
      one otherwise; a destroyed standby is made up for. */
  ghost predicate RecycleCounts(o: Options, s: State, id: string, s': State)
    requires id in s.leases
  {
    if s.leases[id].role == Client then
      && s'.standbyCount == Min(o.minLeases, s.standbyCount + 1)
      && |s'.leases| == |s.leases| - 1 + (s'.standbyCount - s.standbyCount)
    else
      && |s'.leases| - |s.leases| == s'.standbyCount - s.standbyCount
      && (s'.standbyCount == o.minLeases || (o.portStart != 0 && s'.freePorts == []))
  }

  ghost predicate Recycled(o: Options, s: State, id: string, s': State)
    requires id in s.leases
  {
    AddsOnlyStandbys(o, s, s', {id}) && (s'.failures == s.failures ==> RecycleCounts(o, s, id, s'))
  }

  lemma ConvertRecycles(o: Options, s: State, id: string, now: int)
    requires OptionsOk(o) && Inv(o, s) && id in s.leases && s.leases[id].role == Client && s.standbyCount < o.minLeases
    requires Allocate(o, s).0.Ok?
    ensures Recycled(o, s, id, Convert(Allocate(o, s).1, id, Allocate(o, s).0.value, now))
  {
    var (r, s1) := Allocate(o, s);
    AllocateKeeps(o, s);
    ConvertKeeps(o, s1, id, r.value, now);
    ConvertAdds(o, s, id, now);
  }

  /** Without a fresh address the lease is dropped, and the failure is on record. */
  lemma FailureRecycles(o: Options, s: State, s1: State, id: string, now: int)
    requires OptionsOk(o) && Inv(o, s1) && id in s.leases && id in s1.leases && KeysOk(s)
    requires AddsOnlyStandbys(o, s, s1, {}) && s1.failures > s.failures
    ensures Recycled(o, s, id, EnsureStandbys(o, Drop(s1, id), now))
  {
    DropThenEnsure(o, s1, id, now);
    AddsTransitive(o, s, s1, EnsureStandbys(o, Drop(s1, id), now), {}, {id});
    assert {} + {id} == {id};
  }

  lemma DropRecycles(o: Options, s: State, id: string, now: int)
    requires OptionsOk(o) && Inv(o, s) && id in s.leases
    requires !(s.leases[id].role == Client && s.standbyCount < o.minLeases)
    ensures Recycled(o, s, id, EnsureStandbys(o, Drop(s, id), now))
  {
    DropThenEnsure(o, s, id, now);
    DropCounts(o, s, id, EnsureStandbys(o, Drop(s, id), now));
  }

  lemma DropCounts(o: Options, s: State, id: string, s': State)
    requires Inv(o, s) && id in s.leases && !(s.leases[id].role == Client && s.standbyCount < o.minLeases)
    requires var sc := s.standbyCount - One(s.leases[id].role == Standby);
             && |s'.leases| - (|s.leases| - 1) == s'.standbyCount - sc >= 0
             && (sc == o.minLeases ==> s' == Drop(s, id))
             && (s'.failures == s.failures ==>
                  s'.standbyCount == o.minLeases || (o.portStart != 0 && s'.freePorts == []))
    ensures s'.failures == s.failures ==> RecycleCounts(o, s, id, s')
  {
  }

  /** recycleLocked removes its lease whatever the addresses do. */
  lemma RecycleEffect(o: Options, s: State, id: string, now: int)
    requires OptionsOk(o) && Inv(o, s) && id in s.leases
    ensures var s' := RecycleSlot(o, s, id, now);
            && Inv(o, s')
            && AddsOnlyStandbys(o, s, s', {id})
            && id !in s'.leases
            && (s'.failures == s.failures ==> RecycleCounts(o, s, id, s'))
  {
    RecycleSlotKeeps(o, s, id, now);
    var s' := RecycleSlot(o, s, id, now);
    assert Recycled(o, s, id, s') by {
      RecycleCases(o, s, id, now);
    }
    GoneStaysGone(o, s, s', {id}, id);
  }

  lemma RecycleCases(o: Options, s: State, id: string, now: int)
    requires OptionsOk(o) && Inv(o, s) && id in s.leases
    ensures Recycled(o, s, id, RecycleSlot(o, s, id, now))
  {
    if s.leases[id].role == Client && s.standbyCount < o.minLeases {
      if Allocate(o, s).0.Ok? {
        ConvertRecycles(o, s, id, now);
      } else {
        AllocateKeeps(o, s);
        AllocateAdds(o, s);
        FailureRecycles(o, s, Allocate(o, s).1, id, now);
      }
    } else {
      DropRecycles(o, s, id, now);
    }
  }

  lemma ConvertAdds(o: Options, s: State, id: string, now: int)
    requires OptionsOk(o) && KeysOk(s) && id in s.leases && Allocate(o, s).0.Ok?
    ensures AddsOnlyStandbys(o, s, Convert(Allocate(o, s).1, id, Allocate(o, s).0.value, now), {id})
  {
    AllocateAdds(o, s);
    assert PoolId(s.standbySeq + 1) !in s.leases && !Safe(s, PoolId(s.standbySeq + 1));
  }

  lemma DropAdds(o: Options, s: State, id: string)
    requires id in s.leases
    ensures AddsOnlyStandbys(o, s, Drop(s, id), {id})
  {
  }

  lemma DropThenEnsure(o: Options, s: State, id: string, now: int)
    requires OptionsOk(o) && Inv(o, s) && id in s.leases
    ensures var s' := EnsureStandbys(o, Drop(s, id), now);
            var sc := s.standbyCount - One(s.leases[id].role == Standby);
            && AddsOnlyStandbys(o, s, s', {id})
            && |s'.leases| - (|s.leases| - 1) == s'.standbyCount - sc >= 0
            && (sc == o.minLeases ==> s' == Drop(s, id))
            && (s'.failures == s.failures ==>
                  s'.standbyCount == o.minLeases || (o.portStart != 0 && s'.freePorts == []))
  {
    var s1 := Drop(s, id);
    DropKeeps(o, s, id);
    DropAdds(o, s, id);
    EnsureAdds(o, s1, now);
    AddsTransitive(o, s, s1, EnsureStandbys(o, s1, now), {id}, {});
    assert {id} + {} == {id};
  }

  // ---------- The sweep ----------

  /** The client leases a sweep at `now` may take. */
  function Idle(o: Options, s: State, now: int): set<string> {
    set k | k in s.leases && s.leases[k].role == Client && !s.leases[k].persistent
            && now - s.leases[k].lastUsedAt >= o.idleTimeout
  }

  /** The outcome of a sweep that visits `order`: it releases exactly the visited
      leases that were idle at the start, each once, and changes nothing else but for
      new standbys. With no failed allocation the counts are determined too. */
  ghost predicate Swept(o: Options, s: State, order: seq<string>, now: int, s': State, released: seq<string>) {
    && AddsOnlyStandbys(o, s, s', Elements(released))
    && Elements(released) == Idle(o, s, now) * Elements(order)
    && |Elements(released)| == |released|
    && (s'.failures == s.failures ==> SweepCounts(o, s, s', |released|))
  }

  ghost predicate SweepCounts(o: Options, s: State, s': State, n: nat) {
    && s'.standbyCount == Min(o.minLeases, s.standbyCount + n)
    && |s'.leases| == |s.leases| - n + (s'.standbyCount - s.standbyCount)
  }

  lemma {:induction false} SweepEffect(o: Options, s: State, order: seq<string>, now: int)
    requires OptionsOk(o) && Inv(o, s)
    ensures var (s', released) := Sweep(o, s, order, now);
            Inv(o, s') && Swept(o, s, order, now, s', released)
    decreases |order|
  {
    if |order| == 0 {
      assert Elements([]) == {};
    } else {
      var init, k := order[..|order| - 1], order[|order| - 1];
      assert order == init + [k];
      SweepEffect(o, s, init, now);
      VisitEffect(o, s, init, Sweep(o, s, init, now), k, now);
    }
  }

  lemma VisitEffect(o: Options, s: State, init: seq<string>, before: (State, seq<string>), k: string, now: int)
    requires OptionsOk(o) && Inv(o, s) && Inv(o, before.0) && Swept(o, s, init, now, before.0, before.1)
    ensures var (s', released) := Visit(o, before, k, now);
            Inv(o, s') && Swept(o, s, init + [k], now, s', released)
  {
    var (s1, released) := before;
    if k in s1.leases && Expired(o, s1.leases[k], now) {
      RecycleEffect(o, s1, k, now);
      SweptRecycles(o, s, init, now, s1, released, k, RecycleSlot(o, s1, k, now));
    } else {
      SweptSkips(o, s, init, now, s1, released, k);
    }
  }

  /** A visit that recycles k. */
  lemma SweptRecycles(o: Options, s: State, init: seq<string>, now: int, s1: State, released: seq<string>, k: string,
    s': State)
    requires KeysOk(s) && s.standbyCount <= o.minLeases && Swept(o, s, init, now, s1, released)
    requires k in s1.leases && Expired(o, s1.leases[k], now)
    requires AddsOnlyStandbys(o, s1, s', {k}) && (s'.failures == s1.failures ==> RecycleCounts(o, s1, k, s'))
    ensures Swept(o, s, init + [k], now, s', released + [k])
  {
    IdleVisit(o, s, s1, released, now, k);
    OneMoreReleased(Idle(o, s, now), init, released, k);
    AddsTransitive(o, s, s1, s', Elements(released), {k});
    if s'.failures == s.failures {
      OneMoreRecycled(o, s, s1, |released|, k, s');
    }
  }

  lemma OneMoreReleased(idle: set<string>, init: seq<string>, released: seq<string>, k: string)
    requires Elements(released) == idle * Elements(init) && |Elements(released)| == |released|
    requires k in idle && k !in released
    ensures Elements(released + [k]) == Elements(released) + {k} == idle * Elements(init + [k])
    ensures |Elements(released + [k])| == |released + [k]|
  {
    assert Elements(init + [k]) == Elements(init) + {k};
    assert k !in Elements(released);
  }

  lemma OneMoreRecycled(o: Options, s: State, s1: State, n: nat, k: string, s': State)
    requires SweepCounts(o, s, s1, n) && s.standbyCount <= o.minLeases
    requires k in s1.leases && s1.leases[k].role == Client && RecycleCounts(o, s1, k, s')
    ensures SweepCounts(o, s, s', n + 1)
  {
  }

  /** A visit that changes nothing. */
  lemma SweptSkips(o: Options, s: State, init: seq<string>, now: int, s1: State, released: seq<string>, k: string)
    requires Inv(o, s) && Swept(o, s, init, now, s1, released)
    requires !(k in s1.leases && Expired(o, s1.leases[k], now))
    ensures Swept(o, s, init + [k], now, s1, released)
  {
    assert Elements(init + [k]) == Elements(init) + {k};
    IdleVisit(o, s, s1, released, now, k);
  }

  /** A key is expired in mid-sweep exactly when it was at the start and is still there. */
  lemma IdleVisit(o: Options, s: State, s1: State, released: seq<string>, now: int, k: string)
    requires KeysOk(s) && AddsOnlyStandbys(o, s, s1, Elements(released))
    requires Elements(released) <= s.leases.Keys
    ensures k in s1.leases && Expired(o, s1.leases[k], now) <==> k in Idle(o, s, now) && k !in released
  {
    if k in released {
      GoneStaysGone(o, s, s1, Elements(released), k);
    }
  }

  lemma ReleaseIdleEffect(o: Options, s: State, order: seq<string>, now: int)
    requires OptionsOk(o) && Inv(o, s)
    ensures var (s', released) := ReleaseIdle(o, s, order, now);
            && Inv(o, s')
            && AddsOnlyStandbys(o, s, s', Elements(released))
            && Elements(released) <= Idle(o, s, now)
            && (forall k :: k in released ==> k !in s'.leases)
            && (s'.failures == s.failures ==> |s'.leases| <= |s.leases|)
  {
    var (s', released) := ReleaseIdle(o, s, order, now);
    if !SweepRuns(o, s) {
      assert Elements(released) == {};
    } else {
      SweepEffect(o, s, order, now);
      forall k | k in released ensures k !in s'.leases {
        assert k in Elements(released);
        GoneStaysGone(o, s, s', Elements(released), k);
      }
    }
  }

  // ---------- Acquiring ----------

  /** Client leases other than id are the same before and after, and nothing but id is new. */
  ghost predicate KeepsOthers(s: State, s': State, id: string) {
    && (forall k :: k in s.leases && k != id && s.leases[k].role == Client ==>
         k in s'.leases && s'.leases[k] == s.leases[k])
    && (forall k :: k in s'.leases && k != id ==> k in s.leases && s'.leases[k] == s.leases[k])
  }

  ghost predicate AcquireEffect(o: Options, s: State, id: string, s': State, r: Result<Lease, Error>) {
    && Inv(o, s')
    && KeepsOthers(s, s', id)
    && s'.generator == s.generator
    && s.failures <= s'.failures
    && s.nextIndex <= s'.nextIndex
    && s'.standbySeq == s.standbySeq
    && s'.standbyCount <= s.standbyCount
    && (|s'.leases| == |s.leases| || (|s.leases| < o.maxLeases && |s'.leases| == |s.leases| + 1))
    && (id !in s.leases && id in s'.leases ==> |s.leases| < o.maxLeases)
    && (r.Ok? ==> id in s'.leases && s'.leases[id] == r.value && r.value.role == Client && r.value.id == id)
    && (id in s.leases ==>
          && id in s'.leases
          && s'.leases[id].port == s.leases[id].port
          && (s.leases[id].role == Client ==> s'.leases[id].role == Client)
          && (s.leases[id].role == Client && s.leases[id].persistent ==> s'.leases[id].persistent))
    && (r.Err? && id !in s.leases ==> s'.leases == s.leases)
    && s.issued <= s'.issued
    && (id in s'.leases ==> KnownOrLater(o, s, s'.leases[id].ipv6))
  }

  /** An address some lease already has or, in sequential mode, one never drawn before. */
  ghost predicate KnownOrLater(o: Options, s: State, a: Address) {
    InUse(s.leases, a) || Later(o, s, a)
  }

  lemma RefreshEffect(o: Options, s: State, id: string, persistent: bool, now: int)
    requires OptionsOk(o) && Inv(o, s) && id in s.leases
    ensures var (s', r) := Refresh(o, s, id, persistent, now);
            AcquireEffect(o, s, id, s', r)
  {
    RefreshKeeps(o, s, id, persistent, now);
    RefreshChanges(o, s, id, persistent, now);
    RewritesSize(o, s, id, Refresh(o, s, id, persistent, now).0);
  }

  /** The lease under id is rewritten in place; its port stays, and it is a client. */
  ghost predicate Rewrites(o: Options, s: State, id: string, s': State)
    requires id in s.leases
  {
    && id in s'.leases
    && s.issued <= s'.issued
    && (s'.leases[id].ipv6 == s.leases[id].ipv6 || Later(o, s, s'.leases[id].ipv6))
    && s'.leases == s.leases[id := s'.leases[id]]
    && s'.leases[id].id == s.leases[id].id
    && s'.leases[id].port == s.leases[id].port
    && (s.leases[id].role == Client ==> s'.leases[id].role == Client)
    && (s.leases[id].role == Client && s.leases[id].persistent ==> s'.leases[id].persistent)
    && s'.generator == s.generator && s'.standbySeq == s.standbySeq
    && s.failures <= s'.failures && s.nextIndex <= s'.nextIndex
    && s'.standbyCount <= s.standbyCount
  }

  lemma RotatedChanges(o: Options, s: State, id: string, now: int)
    requires OptionsOk(o) && id in s.leases
    ensures var s' := Rotated(o, s, id, now).1;
            && Rewrites(o, s, id, s')
            && s'.leases[id].role == s.leases[id].role
            && s'.standbyCount == s.standbyCount
            && s'.leases[id].persistent == s.leases[id].persistent
  {
    AllocateAdds(o, s);
  }

  lemma RewritesTwice(o: Options, s: State, id: string, s1: State, s2: State)
    requires id in s.leases && Rewrites(o, s, id, s1) && Rewrites(o, s1, id, s2)
    ensures Rewrites(o, s, id, s2)
  {
  }

  lemma PresentedRewrites(o: Options, s: State, id: string, persistent: bool, now: int)
    requires KeysOk(s) && id in s.leases
    ensures var s1 := Presented(s, id, persistent, now); Rewrites(o, s, id, s1) && s1.leases[id].role == Client
  {
    var s1 := Presented(s, id, persistent, now);
    assert s1.leases == s.leases[id := s1.leases[id]];
  }

  lemma RefreshChanges(o: Options, s: State, id: string, persistent: bool, now: int)
    requires OptionsOk(o) && KeysOk(s) && id in s.leases
    ensures var (s', r) := Refresh(o, s, id, persistent, now);
            && Rewrites(o, s, id, s')
            && s'.leases[id].role == Client
            && (r.Ok? ==> r.value == s'.leases[id])
  {
    var s1 := Presented(s, id, persistent, now);
    PresentedRewrites(o, s, id, persistent, now);
    RotatingChanges(o, s1, id, now);
    var (rotation, s2) := Rotating(o, s1, id, now);
    RewritesTwice(o, s, id, s1, s2);
    TouchedRewrites(o, s, id, s2, now);
  }

  lemma RotatingChanges(o: Options, s: State, id: string, now: int)
    requires OptionsOk(o) && id in s.leases
    ensures var s' := Rotating(o, s, id, now).1; Rewrites(o, s, id, s') && s'.leases[id].role == s.leases[id].role
  {
    RotatedChanges(o, s, id, now);
  }

  lemma TouchedRewrites(o: Options, s: State, id: string, s2: State, now: int)
    requires id in s.leases && Rewrites(o, s, id, s2)
    ensures Rewrites(o, s, id, Update(s2, id, s2.leases[id].(lastUsedAt := now)))
  {
  }

  lemma RewritesSize(o: Options, s: State, id: string, s': State)
    requires id in s.leases && Rewrites(o, s, id, s')
    ensures |s'.leases| == |s.leases|
  {
    assert s'.leases.Keys == s.leases.Keys;
  }

  lemma ClaimEffect(o: Options, s: State, key: string, id: string, persistent: bool, now: int)
    requires OptionsOk(o) && Inv(o, s) && key in s.leases && s.leases[key].role == Standby
    requires id != "" && id !in s.leases && Safe(s, id) && |s.leases| < o.maxLeases
    ensures var s' := Claim(s, key, id, persistent, now);
            AcquireEffect(o, s, id, s', Ok(s'.leases[id]))
  {
    ClaimKeeps(o, s, key, id, persistent, now);
  }

  lemma CreateEffect(o: Options, s: State, id: string, port: int, rest: seq<int>, persistent: bool, now: int)
    requires OptionsOk(o) && Inv(o, s) && id != "" && id !in s.leases && Safe(s, id) && |s.leases| < o.maxLeases
    requires Allocate(o, s).0.Ok?
    requires if o.portStart == 0 then port == 0 && rest == s.freePorts
             else port in s.freePorts && Ascending(rest) && |rest| == |s.freePorts| - 1
                  && forall p :: p in rest <==> p in s.freePorts && p != port
    ensures var (r, s1) := Allocate(o, s);
            var s' := Create(s1, id, r.value, port, rest, persistent, now);
            AcquireEffect(o, s, id, s', Ok(s'.leases[id]))
  {
    AllocateKeeps(o, s);
    AllocateAdds(o, s);
    var (r, s1) := Allocate(o, s);
    CreateKeeps(o, s1, id, r.value, port, rest, persistent, now);
  }

  lemma AcquireSweptEffect(o: Options, s: State, id: string, persistent: bool, now: int, pick: Option<string>)
    requires OptionsOk(o) && Inv(o, s) && id != "" && Safe(s, id) && PicksLeast(s.leases, pick)
    ensures var (s', r) := AcquireSwept(o, s, id, persistent, now, pick);
            AcquireEffect(o, s, id, s', r)
  {
    if id in s.leases {
      RefreshEffect(o, s, id, persistent, now);
    } else if |s.leases| >= o.maxLeases {
    } else if pick.Some? && pick.value in s.leases {
      ClaimEffect(o, s, pick.value, id, persistent, now);
    } else {
      AllocateKeeps(o, s);
      AllocateAdds(o, s);
      if Allocate(o, s).0.Ok? {
        if o.portStart != 0 {
          TailAscending(s.freePorts);
          CreateEffect(o, s, id, s.freePorts[0], s.freePorts[1..], persistent, now);
        } else {
          CreateEffect(o, s, id, 0, s.freePorts, persistent, now);
        }
      }
    }
  }

  /** As above, and a success is on the requested port. */
  lemma AcquirePortSweptEffect(o: Options, s: State, id: string, port: int, persistent: bool, now: int,
    pick: Option<string>)
    requires OptionsOk(o) && Inv(o, s) && id != "" && Safe(s, id) && PicksOnPort(s.leases, port, pick)
    ensures var (s', r) := AcquirePortSwept(o, s, id, port, persistent, now, pick);
            AcquireEffect(o, s, id, s', r) && (r.Ok? ==> r.value.port == port)
  {
    if id in s.leases {
      RefreshEffect(o, s, id, persistent, now);
    } else if |s.leases| >= o.maxLeases {
    } else if pick.Some? && pick.value in s.leases {
      ClaimEffect(o, s, pick.value, id, persistent, now);
    } else if port in s.freePorts {
      AllocateKeeps(o, s);
      AllocateAdds(o, s);
      if Allocate(o, s).0.Ok? {
        WithoutAscending(s.freePorts, port);
        CreateEffect(o, s, id, port, Without(s.freePorts, port), persistent, now);
      }
    }
  }

  // ---------- Without the hypothesis on ids ----------

  /** Serving an id, whatever it is, leaves every other lease but a claimed standby alone. */
  lemma AcquireSweptOnly(o: Options, s: State, id: string, persistent: bool, now: int, pick: Option<string>)
    requires OptionsOk(o) && KeysOk(s) && PicksLeast(s.leases, pick)
    ensures var (s', r) := AcquireSwept(o, s, id, persistent, now, pick);
            && KeepsOthers(s, s', id) && s'.standbySeq == s.standbySeq
            && (r.Ok? ==> id in s'.leases && s'.leases[id].role == Client)
  {
    if id in s.leases {
      RefreshChanges(o, s, id, persistent, now);
    } else if |s.leases| < o.maxLeases && pick.Some? {
      ClaimOnly(s, pick.value, id, persistent, now);
    } else if |s.leases| < o.maxLeases {
      CreateOnly(o, s, id, persistent, now, pick);
    }
  }

  lemma ClaimOnly(s: State, key: string, id: string, persistent: bool, now: int)
    requires key in s.leases && s.leases[key].role == Standby && id !in s.leases
    ensures KeepsOthers(s, Claim(s, key, id, persistent, now), id)
  {
  }

  lemma CreateOnly(o: Options, s: State, id: string, persistent: bool, now: int, pick: Option<string>)
    requires OptionsOk(o) && id !in s.leases && |s.leases| < o.maxLeases && pick.None?
    ensures KeepsOthers(s, AcquireSwept(o, s, id, persistent, now, pick).0, id)
  {
  }

  /** Topping up leaves every lease alone whose id it will not generate. */
  lemma {:induction false} EnsureSpares(o: Options, s: State, now: int, k: string)
    requires OptionsOk(o) && k in s.leases && Safe(s, k)
    ensures var s' := EnsureStandbys(o, s, now); k in s'.leases && s'.leases[k] == s.leases[k]
    decreases o.minLeases - s.standbyCount
  {
    if s.standbyCount < o.minLeases {
      var (ok, s1) := NewStandby(o, s, now);
      if ok {
        EnsureSpares(o, s1, now, k);
      }
    }
  }

  lemma RecycleSpares(o: Options, s: State, id: string, now: int, k: string)
    requires OptionsOk(o) && id in s.leases && k in s.leases && k != id && Safe(s, k)
    ensures var s' := RecycleSlot(o, s, id, now); k in s'.leases && s'.leases[k] == s.leases[k]
  {
    if s.leases[id].role != Standby && s.standbyCount < o.minLeases && Allocate(o, s).0.Err? {
      EnsureSpares(o, Drop(Allocate(o, s).1, id), now, k);
    } else if !(s.leases[id].role != Standby && s.standbyCount < o.minLeases) {
      EnsureSpares(o, Drop(s, id), now, k);
    }
  }
}
