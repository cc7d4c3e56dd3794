/** Runs of the pool: any sequence of operations, under any clock, any random source
    and any order of ranging over the map. */
module PoolRuns {
  import opened Wrappers
  import opened Ipv6Addr
  import opened PoolInvariant
  import opened PoolSteps
  import opened PoolReassign
  import opened PoolModel
  import M = PoolModel

  datatype Event =
    | Acquire(id: string, persistent: bool, now: int, c: Choice)
    | AcquirePort(id: string, port: int, persistent: bool, now: int, c: Choice)
    | RecordRequest(id: string, now: int)
    | Release(id: string, now: int)
    | ReleaseIdle(now: int, order: seq<string>)
    | Rotate(id: string, now: int)
    | Recycle(id: string, now: int, later: int, c: Choice)
    | SetPersistent(id: string, persistent: bool)
    | Reassign(prefix: Option<Cidr>, now: int, order: seq<string>)

  /** The environment's part of an operation is possible: the map is ranged over as Go
      does, and an acquired id is none that a later standby will be given. */
  ghost predicate Allowed(o: Options, s: State, e: Event)
    requires OptionsOk(o)
  {
    match e
    case Acquire(id, _, now, c) => Safe(s, id) && AcquireChoice(o, s, now, c)
    case AcquirePort(id, port, _, now, c) => Safe(s, id) && AcquirePortChoice(o, s, port, now, c)
    case ReleaseIdle(now, order) => Covers(o, s, order)
    case Recycle(id, now, later, c) =>
      id in s.leases && !s.leases[id].persistent ==> AcquireChoice(o, RecycleSlot(o, s, id, now), later, c)
    case Reassign(prefix, _, order) => Enumerates(s, order) && (prefix.Some? ==> prefix.value.address < Pow2(Width))
    case _ => true
  }

  ghost function Next(o: Options, s: State, e: Event): State
    requires OptionsOk(o) && Allowed(o, s, e)
  {
    match e
    case Acquire(id, persistent, now, c) => M.Acquire(o, s, id, persistent, now, c).state
    case AcquirePort(id, port, persistent, now, c) => M.AcquirePort(o, s, id, port, persistent, now, c).state
    case RecordRequest(id, now) => M.RecordRequest(o, s, id, now).state
    case Release(id, now) => M.Release(o, s, id, now).state
    case ReleaseIdle(now, order) => M.ReleaseIdle(o, s, order, now).0
    case Rotate(id, now) => M.Rotate(o, s, id, now).state
    case Recycle(id, now, later, c) => M.Recycle(o, s, id, now, later, c).state
    case SetPersistent(id, persistent) => M.SetPersistent(s, id, persistent).state
    case Reassign(prefix, now, order) => M.Reassign(o, s, prefix, now, order).state
  }

  ghost predicate Legal(o: Options, s: State, es: seq<Event>)
    requires OptionsOk(o)
    decreases |es|
  {
    |es| > 0 ==> Allowed(o, s, es[0]) && Legal(o, Next(o, s, es[0]), es[1..])
  }

  ghost function Run(o: Options, s: State, es: seq<Event>): State
    requires OptionsOk(o) && Legal(o, s, es)
    decreases |es|
  {
    if |es| == 0 then s else Run(o, Next(o, s, es[0]), es[1..])
  }

  // ---------- Every operation in two phases ----------

  /** First some leases are recycled, then one identity is served. */
  datatype Second = Nothing | Served(id: string, r: Result<Lease, Error>) | Rewritten(id: string) | Flagged(id: string,
    persistent: bool) | Moved(g: Network, now: int)

  ghost predicate Floor(o: Options, s: State) {
    |s.leases| >= o.minLeases
  }

  /** While no allocation fails, the first phase respects the resident floor, and it
      never adds to the total by removing clients. */
  ghost predicate FirstCounts(o: Options, s: State, removed: set<string>, mid: State) {
    mid.failures == s.failures ==>
      && (Floor(o, s) ==> Floor(o, mid))
      && ((forall k :: k in removed && k in s.leases ==> s.leases[k].role == Client) ==> |mid.leases| <= |s.leases|)
  }

  ghost predicate TwoPhases(o: Options, s: State, removed: set<string>, mid: State, second: Second, s': State) {
    && Inv(o, mid)
    && AddsOnlyStandbys(o, s, mid, removed)
    && FirstCounts(o, s, removed, mid)
    && match second
       case Nothing => s' == mid
       case Served(id, r) => AcquireEffect(o, mid, id, s', r)
       case Rewritten(id) =>
         && mid == s && id in s.leases && Inv(o, s') && Rewrites(o, s, id, s')
         && s'.leases[id].role == s.leases[id].role && s'.standbyCount == s.standbyCount
       case Flagged(id, persistent) =>
         mid == s && id in s.leases && Inv(o, s') && s' == Update(s, id, s.leases[id].(persistent := persistent))
       case Moved(g, now) => mid == s && Inv(o, s') && Relocated(o, s, g, s', now)
  }

  lemma Same(o: Options, s: State)
    ensures AddsOnlyStandbys(o, s, s, {}) && FirstCounts(o, s, {}, s)
  {
  }

  lemma StandbysBound(leases: map<string, Lease>)
    ensures |Standbys(leases)| <= |leases|
  {
    RolesPartition(leases);
  }

  /** Recycling keeps the floor: either the total stays, or the standbys alone reach it. */
  lemma RecycleFirstCounts(o: Options, s: State, id: string, now: int)
    requires OptionsOk(o) && Inv(o, s) && id in s.leases
    ensures FirstCounts(o, s, {id}, RecycleSlot(o, s, id, now))
  {
    RecycleEffect(o, s, id, now);
    StandbysBound(RecycleSlot(o, s, id, now).leases);
  }

  /** The sweep tests the floor once, before it recycles; the floor holds after it too. */
  lemma SweepFirstCounts(o: Options, s: State, order: seq<string>, now: int)
    requires OptionsOk(o) && Inv(o, s)
    ensures var (s', released) := M.ReleaseIdle(o, s, order, now);
            FirstCounts(o, s, Elements(released), s')
  {
    if SweepRuns(o, s) {
      SweepEffect(o, s, order, now);
      StandbysBound(M.ReleaseIdle(o, s, order, now).0.leases);
    }
  }

  /** The lease an operation names for release. */
  ghost predicate Targets(s: State, e: Event, k: string) {
    match e
    case Release(id, _) => k == id
    case Recycle(id, _, _, _) => k == id && k in s.leases && !s.leases[k].persistent
    case _ => false
  }

  /** What the first phase may remove, and whom the second phase serves. */
  ghost predicate PhasesOf(o: Options, s: State, e: Event, removed: set<string>, second: Second) {
    && (forall k :: k in removed ==>
          k in s.leases && (Targets(s, e, k) || (s.leases[k].role == Client && !s.leases[k].persistent)))
    && match second
       case Nothing => true
       case Served(id, _) => id in removed || (e.Acquire? && e.id == id) || (e.AcquirePort? && e.id == id)
       case Rewritten(_) => true
       case Flagged(id, persistent) => e == SetPersistent(id, persistent)
       case Moved(_, _) => e.Reassign?
  }

  lemma SweptPhase(o: Options, s: State, order: seq<string>, now: int) returns (removed: set<string>, mid: State)
    requires OptionsOk(o) && Inv(o, s)
    ensures mid == M.ReleaseIdle(o, s, order, now).0 && Inv(o, mid)
    ensures removed == Elements(M.ReleaseIdle(o, s, order, now).1) && AddsOnlyStandbys(o, s, mid, removed)
    ensures FirstCounts(o, s, removed, mid)
    ensures forall k :: k in removed ==> k in s.leases && s.leases[k].role == Client && !s.leases[k].persistent
  {
    ReleaseIdleEffect(o, s, order, now);
    SweepFirstCounts(o, s, order, now);
    var r := M.ReleaseIdle(o, s, order, now);
    mid, removed := r.0, Elements(r.1);
  }

  lemma AcquirePhases(o: Options, s: State, id: string, persistent: bool, now: int, c: Choice)
    returns (removed: set<string>, mid: State, second: Second)
    requires OptionsOk(o) && Inv(o, s) && Safe(s, id) && AcquireChoice(o, s, now, c)
    ensures TwoPhases(o, s, removed, mid, second, M.Acquire(o, s, id, persistent, now, c).state)
    ensures forall k :: k in removed ==> k in s.leases && s.leases[k].role == Client && !s.leases[k].persistent
    ensures second.Nothing? || (second.Served? && second.id == id)
  {
    if id == "" {
      Same(o, s);
      removed, mid, second := {}, s, Nothing;
    } else {
      removed, mid := SweptPhase(o, s, c.order, now);
      AcquireSweptEffect(o, mid, id, persistent, now, c.pick);
      second := Served(id, M.Acquire(o, s, id, persistent, now, c).result);
    }
  }

  lemma AcquirePortPhases(o: Options, s: State, id: string, port: int, persistent: bool, now: int, c: Choice)
    returns (removed: set<string>, mid: State, second: Second)
    requires OptionsOk(o) && Inv(o, s) && Safe(s, id) && AcquirePortChoice(o, s, port, now, c)
    ensures TwoPhases(o, s, removed, mid, second, M.AcquirePort(o, s, id, port, persistent, now, c).state)
    ensures forall k :: k in removed ==> k in s.leases && s.leases[k].role == Client && !s.leases[k].persistent
    ensures second.Nothing? || (second.Served? && second.id == id)
  {
    if id == "" {
      Same(o, s);
      removed, mid, second := {}, s, Nothing;
    } else {
      removed, mid := SweptPhase(o, s, c.order, now);
      AcquirePortSweptEffect(o, mid, id, port, persistent, now, c.pick);
      second := Served(id, M.AcquirePort(o, s, id, port, persistent, now, c).result);
    }
  }

  lemma RecyclePhases(o: Options, s: State, id: string, now: int, later: int, c: Choice)
    returns (removed: set<string>, mid: State, second: Second)
    requires OptionsOk(o) && Inv(o, s) && id in s.leases && !s.leases[id].persistent
    requires AcquireChoice(o, RecycleSlot(o, s, id, now), later, c)
    ensures TwoPhases(o, s, removed, mid, second, M.Recycle(o, s, id, now, later, c).state)
    ensures forall k :: k in removed ==>
            k in s.leases && (k == id || (s.leases[k].role == Client && !s.leases[k].persistent))
    ensures id in removed && (second.Nothing? || (second.Served? && second.id == id))
  {
    var s1 := RecycleSlot(o, s, id, now);
    RecycleEffect(o, s, id, now);
    assert Safe(s, id);
    var removed1;
    removed1, mid, second := AcquirePhases(o, s1, id, false, later, c);
    removed := {id} + removed1;
    AddsTransitive(o, s, s1, mid, {id}, removed1);
    RecycleFirstCounts(o, s, id, now);
    assert FirstCounts(o, s, removed, mid) by {
      assert forall k :: k in removed1 ==> s1.leases[k].role == Client;
    }
  }

  lemma RewritePhases(o: Options, s: State, id: string, s': State)
    requires Inv(o, s) && id in s.leases && Inv(o, s') && Rewrites(o, s, id, s')
    requires s'.leases[id].role == s.leases[id].role && s'.standbyCount == s.standbyCount
    ensures TwoPhases(o, s, {}, s, Rewritten(id), s')
  {
    Same(o, s);
  }

  lemma RotatePhases(o: Options, s: State, id: string, now: int)
    requires OptionsOk(o) && Inv(o, s) && id in s.leases
    ensures TwoPhases(o, s, {}, s, Rewritten(id), M.Rotate(o, s, id, now).state)
    ensures M.Rotate(o, s, id, now).state.leases[id].persistent == s.leases[id].persistent
  {
    RotatedKeeps(o, s, id, now);
    RotatedChanges(o, s, id, now);
    RewritePhases(o, s, id, M.Rotate(o, s, id, now).state);
  }

  lemma RecordPhases(o: Options, s: State, id: string, now: int)
    requires OptionsOk(o) && Inv(o, s) && id in s.leases
    ensures TwoPhases(o, s, {}, s, Rewritten(id), M.RecordRequest(o, s, id, now).state)
  {
    var s1 := Counted(s, id, now);
    CountedKeeps(o, s, id, now);
    if o.rotateRequests > 0 && s1.leases[id].requests >= o.rotateRequests {
      RotatePhases(o, s1, id, now);
      RewritesTwice(o, s, id, s1, M.RecordRequest(o, s, id, now).state);
    }
    RewritePhases(o, s, id, M.RecordRequest(o, s, id, now).state);
  }

  lemma ReassignPhases(o: Options, s: State, prefix: Option<Cidr>, now: int, order: seq<string>)
    returns (second: Second)
    requires OptionsOk(o) && Inv(o, s) && Enumerates(s, order) && (prefix.Some? ==> prefix.value.address < Pow2(Width))
    ensures TwoPhases(o, s, {}, s, second, M.Reassign(o, s, prefix, now, order).state)
    ensures second.Nothing? || second.Moved?
  {
    Same(o, s);
    second := Nothing;
    match NewGenerator(prefix)
    case Err(_) =>
    case Ok(g) =>
      ReassignKeeps(o, s, prefix.value, now, order);
      if M.Reassign(o, s, prefix, now, order).result.Ok? {
        second := Moved(g, now);
      }
  }

  lemma RecordedPhases(o: Options, s: State, id: string, now: int) returns (second: Second)
    requires OptionsOk(o) && Inv(o, s)
    ensures TwoPhases(o, s, {}, s, second, Next(o, s, RecordRequest(id, now)))
    ensures PhasesOf(o, s, RecordRequest(id, now), {}, second)
  {
    Same(o, s);
    second := Nothing;
    if id in s.leases {
      RecordPhases(o, s, id, now);
      second := Rewritten(id);
    }
  }

  lemma FlagPhases(o: Options, s: State, id: string, persistent: bool) returns (second: Second)
    requires OptionsOk(o) && Inv(o, s)
    ensures TwoPhases(o, s, {}, s, second, Next(o, s, SetPersistent(id, persistent)))
    ensures PhasesOf(o, s, SetPersistent(id, persistent), {}, second)
  {
    Same(o, s);
    second := Nothing;
    if id in s.leases {
      UpdateKeeps(o, s, id, s.leases[id].(persistent := persistent));
      second := Flagged(id, persistent);
    }
  }

  lemma ReleasePhases(o: Options, s: State, id: string, now: int) returns (removed: set<string>, mid: State)
    requires OptionsOk(o) && Inv(o, s)
    ensures TwoPhases(o, s, removed, mid, Nothing, Next(o, s, Release(id, now)))
    ensures PhasesOf(o, s, Release(id, now), removed, Nothing)
  {
    Same(o, s);
    removed, mid := {}, s;
    if id in s.leases {
      RecycleEffect(o, s, id, now);
      RecycleFirstCounts(o, s, id, now);
      removed, mid := {id}, RecycleSlot(o, s, id, now);
    }
  }

  /** Every operation is a first phase that recycles leases and a second that serves,
      rewrites or moves; the invariant holds before, between and after. */
  lemma Phases(o: Options, s: State, e: Event) returns (removed: set<string>, mid: State, second: Second)
    requires OptionsOk(o) && Inv(o, s) && Allowed(o, s, e)
    ensures TwoPhases(o, s, removed, mid, second, Next(o, s, e))
    ensures PhasesOf(o, s, e, removed, second)
  {
    Same(o, s);
    removed, mid, second := {}, s, Nothing;
    match e
    case Acquire(id, persistent, now, c) => removed, mid, second := AcquirePhases(o, s, id, persistent, now, c);
    case AcquirePort(id, port, persistent, now, c) =>
      removed, mid, second := AcquirePortPhases(o, s, id, port, persistent, now, c);
    case RecordRequest(id, now) => second := RecordedPhases(o, s, id, now);
    case Release(id, now) => removed, mid := ReleasePhases(o, s, id, now);
    case ReleaseIdle(now, order) => removed, mid := SweptPhase(o, s, order, now);
    case Rotate(id, now) =>
      if id in s.leases {
        RotatePhases(o, s, id, now);
        second := Rewritten(id);
      }
    case Recycle(id, now, later, c) =>
      if id in s.leases && !s.leases[id].persistent {
        removed, mid, second := RecyclePhases(o, s, id, now, later, c);
      }
    case SetPersistent(id, persistent) => second := FlagPhases(o, s, id, persistent);
    case Reassign(prefix, now, order) => second := ReassignPhases(o, s, prefix, now, order);
  }

  // ---------- The invariant in every reachable state ----------

  lemma NextKeeps(o: Options, s: State, e: Event)
    requires OptionsOk(o) && Inv(o, s) && Allowed(o, s, e)
    ensures Inv(o, Next(o, s, e))
  {
    var removed, mid, second := Phases(o, s, e);
  }

  lemma NewPoolKeeps(o: Options, prefix: Option<Cidr>, now: int)
    requires prefix.Some? ==> prefix.value.address < Pow2(Width)
    requires NewPool(o, prefix, now).Ok?
    ensures OptionsOk(o) && Inv(o, NewPool(o, prefix, now).value)
    ensures NewPool(o, prefix, now).value.failures == 0 ==> Floor(o, NewPool(o, prefix, now).value)
  {
    var s := Empty(o, NewGenerator(prefix).value);
    assert Standbys(s.leases) == {};
    EnsureKeeps(o, s, now);
    EnsureAdds(o, s, now);
    var s' := EnsureStandbys(o, s, now);
    if s'.failures == 0 {
      StandbysBound(s'.leases);
    }
  }

  /** From construction on, whatever the pool is asked to do, every state satisfies
      the invariant: consistent keys, distinct addresses in the prefix, ports
      conserved, exact standby count. */
  lemma {:induction false} AlwaysInv(o: Options, s: State, es: seq<Event>)
    requires OptionsOk(o) && Inv(o, s) && Legal(o, s, es)
    ensures Inv(o, Run(o, s, es))
    decreases |es|
  {
    if |es| > 0 {
      NextKeeps(o, s, es[0]);
      AlwaysInv(o, Next(o, s, es[0]), es[1..]);
    }
  }

  // ---------- The resident floor ----------

  lemma NextFloor(o: Options, s: State, e: Event)
    requires OptionsOk(o) && Inv(o, s) && Allowed(o, s, e) && Floor(o, s)
    requires Next(o, s, e).failures == s.failures
    ensures Floor(o, Next(o, s, e))
  {
    var removed, mid, second := Phases(o, s, e);
    SecondSize(o, s, removed, mid, second, Next(o, s, e));
  }

  /** The second phase never lowers the total. */
  lemma SecondSize(o: Options, s: State, removed: set<string>, mid: State, second: Second, s': State)
    requires TwoPhases(o, s, removed, mid, second, s')
    ensures |s'.leases| >= |mid.leases|
    ensures !second.Moved? ==> |s'.leases| <= Max(|mid.leases|, o.maxLeases)
    ensures s.failures <= mid.failures <= s'.failures
  {
    match second
    case Rewritten(id) => RewritesSize(o, s, id, s');
    case Flagged(id, _) => assert s'.leases.Keys == s.leases.Keys;
    case _ =>
  }

  /** Allocation failures are counted, never forgotten. */
  lemma NextFailures(o: Options, s: State, e: Event)
    requires OptionsOk(o) && Inv(o, s) && Allowed(o, s, e)
    ensures s.failures <= Next(o, s, e).failures
  {
    var removed, mid, second := Phases(o, s, e);
    SecondSize(o, s, removed, mid, second, Next(o, s, e));
  }

  lemma {:induction false} RunFailures(o: Options, s: State, es: seq<Event>)
    requires OptionsOk(o) && Inv(o, s) && Legal(o, s, es)
    ensures s.failures <= Run(o, s, es).failures
    decreases |es|
  {
    if |es| > 0 {
      NextKeeps(o, s, es[0]);
      NextFailures(o, s, es[0]);
      RunFailures(o, Next(o, s, es[0]), es[1..]);
    }
  }

  /** While addresses do not run out, no run ever takes the pool below its resident floor. */
  lemma {:induction false} ResidentFloor(o: Options, s: State, es: seq<Event>)
    requires OptionsOk(o) && Inv(o, s) && Floor(o, s) && Legal(o, s, es)
    requires Run(o, s, es).failures == s.failures
    ensures Floor(o, Run(o, s, es))
    decreases |es|
  {
    if |es| > 0 {
      var s1 := Next(o, s, es[0]);
      NextKeeps(o, s, es[0]);
      NextFailures(o, s, es[0]);
      RunFailures(o, s1, es[1..]);
      NextFloor(o, s, es[0]);
      ResidentFloor(o, s1, es[1..]);
    }
  }
}
