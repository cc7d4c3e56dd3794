/** What each operation of the pool answers and what it leaves behind, lease by lease and field
    by field. Every comparison with the clock and every threshold is written out here, so that
    these statements stand on their own beside the functions of PoolModel. */
module PoolOutcomes {
  import opened Wrappers
  import opened Ids
  import opened Ipv6Addr
  import opened PoolInvariant
  import opened PoolSteps
  import opened PoolReassign
  import opened PoolModel
  import opened PoolTheorems
  import opened PoolRecycle
  import M = PoolModel

  // ---------- The idle sweep ----------

  /** The lease under k is a client's, is not persistent and has not been used for the whole idle
      timeout, in a pool above its floor. */
  ghost predicate Overdue(o: Options, s: State, k: string, now: int) {
    && o.idleTimeout > 0 && |s.leases| > o.minLeases
    && k in s.leases && s.leases[k].role == Client && !s.leases[k].persistent
    && now - s.leases[k].lastUsedAt >= o.idleTimeout
  }

  lemma OverdueIsSwept(o: Options, s: State, k: string, now: int)
    ensures Overdue(o, s, k, now) <==> Sweeps(o, s, k, now)
  {
  }

  /** A sweep, whatever the order of the range, releases a lease exactly if the timeout is on, the
      pool is above its floor, and it is a client's that is not persistent and was last used
      the timeout ago or earlier. Each is released once, the others stay as they are. */
  lemma IdleReleased(o: Options, s: State, order: seq<string>, now: int)
    requires OptionsOk(o) && Inv(o, s)
    requires o.idleTimeout > 0 && |s.leases| > o.minLeases ==> forall k :: k in s.leases ==> k in order
    ensures var (s', released) := M.ReleaseIdle(o, s, order, now);
            && (forall k :: k in released <==>
                  && o.idleTimeout > 0 && |s.leases| > o.minLeases
                  && k in s.leases && s.leases[k].role == Client && !s.leases[k].persistent
                  && now - s.leases[k].lastUsedAt >= o.idleTimeout)
            && (forall i, j :: 0 <= i < j < |released| ==> released[i] != released[j])
            && (forall k :: k in s.leases ==>
                  if k in released then k !in s'.leases else k in s'.leases && s'.leases[k] == s.leases[k])
  {
    SweptFirst(o, s, order, now);
    var (s', released) := M.ReleaseIdle(o, s, order, now);
    if SweepRuns(o, s) {
      SweepOutcome(o, s, order, now);
      assert forall k :: k in released <==> k in Elements(released);
      NoRepeats(released);
    }
  }

  lemma {:induction false} NoRepeats(xs: seq<string>)
    requires |Elements(xs)| == |xs|
    ensures forall i, j :: 0 <= i < j < |xs| ==> xs[i] != xs[j]
    decreases |xs|
  {
    if |xs| > 0 {
      var init, last := xs[..|xs| - 1], xs[|xs| - 1];
      assert xs == init + [last];
      assert Elements(xs) == Elements(init) + {last};
      ElementsAtMost(init);
      NoRepeats(init);
      assert last !in Elements(init);
    }
  }

  lemma {:induction false} ElementsAtMost(xs: seq<string>)
    ensures |Elements(xs)| <= |xs|
    decreases |xs|
  {
    if |xs| == 0 {
      assert Elements(xs) == {};
    } else {
      var init, last := xs[..|xs| - 1], xs[|xs| - 1];
      assert xs == init + [last];
      assert Elements(xs) == Elements(init) + {last};
      ElementsAtMost(init);
    }
  }

  // ---------- A known client presents itself again ----------

  /** What is left of the lease under l: l itself, used at `now` and pinned if that was asked for;
      or, when its age has reached rotateAfter, the same lease with another address. */
  ghost predicate ServedAgain(o: Options, s: State, l: Lease, persistent: bool, now: int, l': Lease) {
    && l'.id == l.id && l'.port == l.port && l'.role == Client && l'.lastUsedAt == now
    && l'.persistent == (l.persistent || persistent)
    && if o.rotateAfter > 0 && now - l.createdAt >= o.rotateAfter then
         && l'.ipv6 != l.ipv6 && InPrefix(s.generator, l'.ipv6)
         && l'.createdAt == now && l'.requests == 0 && l'.generation == l.generation + 1
       else
         l'.ipv6 == l.ipv6 && l'.createdAt == l.createdAt && l'.requests == l.requests && l'.generation == l.generation
  }

  lemma RefreshedClient(o: Options, s: State, id: string, persistent: bool, now: int)
    requires OptionsOk(o) && Inv(o, s) && id in s.leases && s.leases[id].role == Client
    ensures var (s', r) := Refresh(o, s, id, persistent, now);
            && s'.failures >= s.failures && (s'.failures == s.failures ==> r.Ok?)
            && (r.Ok? ==> ServedAgain(o, s, s.leases[id], persistent, now, r.value))
            && s'.leases == s.leases[id := if r.Ok? then r.value else PinnedOr(s.leases[id], persistent)]
  {
    var s1 := Presented(s, id, persistent, now);
    PresentedClient(s, id, persistent, now);
    RefreshedPinned(o, s1, id, now);
    var (rotation, s2) := Rotating(o, s1, id, now);
    if rotation.Ok? {
      PinnedServed(o, s, s.leases[id], persistent, now, s2.leases[id].(lastUsedAt := now));
    }
  }

  lemma PresentedClient(s: State, id: string, persistent: bool, now: int)
    requires id in s.leases && s.leases[id].role == Client
    ensures Presented(s, id, persistent, now) == s.(leases := s.leases[id := PinnedOr(s.leases[id], persistent)])
  {
    assert !persistent ==> s.leases[id := s.leases[id]] == s.leases;
  }

  lemma PinnedServed(o: Options, s: State, l: Lease, persistent: bool, now: int, l': Lease)
    ensures ServedAgain(o, s, PinnedOr(l, persistent), false, now, l') <==> ServedAgain(o, s, l, persistent, now, l')
  {
  }

  function PinnedOr(l: Lease, persistent: bool): Lease {
    l.(persistent := l.persistent || persistent)
  }

  /** The rest of it, once the flag is set. */
  lemma RefreshedPinned(o: Options, s: State, id: string, now: int)
    requires OptionsOk(o) && id in s.leases && s.leases[id].role == Client
    ensures var (rotation, s2) := Rotating(o, s, id, now);
            && s2.failures >= s.failures && (s2.failures == s.failures <==> rotation.Ok?)
            && (rotation.Ok? ==>
                  var l' := s2.leases[id].(lastUsedAt := now);
                  ServedAgain(o, s, s.leases[id], false, now, l') && s2.leases[id := l'] == s.leases[id := l'])
            && (rotation.Err? ==> s2.leases == s.leases)
  {
    assert InUse(s.leases, s.leases[id].ipv6);
  }

  /** Acquire for a client whose lease survives the sweep: while no allocation fails it is served,
      and the address is another one exactly when rotateAfter is set and the lease is that
      old. If a rotation was due and failed, the lease is as before but for the flag. */
  lemma AcquireKnown(o: Options, s: State, id: string, persistent: bool, now: int, c: Choice)
    requires OptionsOk(o) && Inv(o, s) && AcquireChoice(o, s, now, c)
    requires id in s.leases && s.leases[id].role == Client && !Overdue(o, s, id, now)
    ensures var step := M.Acquire(o, s, id, persistent, now, c);
            && (step.state.failures == s.failures ==> step.result.Ok?)
            && (step.result.Ok? ==> ServedAgain(o, s, s.leases[id], persistent, now, step.result.value))
            && id in step.state.leases
            && step.state.leases[id] ==
                 if step.result.Ok? then step.result.value else PinnedOr(s.leases[id], persistent)
  {
    SweptFirst(o, s, c.order, now);
    OverdueIsSwept(o, s, id, now);
    RefreshedClient(o, M.ReleaseIdle(o, s, c.order, now).0, id, persistent, now);
  }

  /** The same on a given port, for the lease's own port; on any other the lease is left alone. */
  lemma AcquirePortKnown(o: Options, s: State, id: string, port: int, persistent: bool, now: int, c: Choice)
    requires OptionsOk(o) && Inv(o, s) && AcquirePortChoice(o, s, port, now, c)
    requires id in s.leases && s.leases[id].role == Client && !Overdue(o, s, id, now)
    ensures var step := M.AcquirePort(o, s, id, port, persistent, now, c);
            && id in step.state.leases
            && if port == s.leases[id].port then
                 && (step.state.failures == s.failures ==> step.result.Ok?)
                 && (step.result.Ok? ==> ServedAgain(o, s, s.leases[id], persistent, now, step.result.value))
                 && step.state.leases[id] ==
                      if step.result.Ok? then step.result.value else PinnedOr(s.leases[id], persistent)
               else
                 step.result == Err(PortUnavailable) && step.state.leases[id] == s.leases[id]
  {
    SweptFirst(o, s, c.order, now);
    OverdueIsSwept(o, s, id, now);
    if port == s.leases[id].port {
      RefreshedClient(o, M.ReleaseIdle(o, s, c.order, now).0, id, persistent, now);
    }
  }

  // ---------- Everybody else ----------

  /** Of the other clients, serving an id releases exactly the overdue ones and leaves the rest alone. */
  ghost predicate OthersSwept(o: Options, s: State, id: string, now: int, s': State, released: seq<string>) {
    forall k :: k in s.leases && s.leases[k].role == Client && k != id ==>
      && (k in released <==> Overdue(o, s, k, now))
      && if Overdue(o, s, k, now) then k !in s'.leases else k in s'.leases && s'.leases[k] == s.leases[k]
  }

  lemma ServingSweeps(o: Options, s: State, id: string, now: int, order: seq<string>, s': State)
    requires OptionsOk(o) && Inv(o, s) && Covers(o, s, order)
    requires KeepsOthers(M.ReleaseIdle(o, s, order, now).0, s', id)
    ensures OthersSwept(o, s, id, now, s', M.ReleaseIdle(o, s, order, now).1)
  {
    IdleReleased(o, s, order, now);
  }

  /** Every Acquire and every AcquirePort sweeps first, whoever it serves and however it ends. */
  lemma AcquireSweeps(o: Options, s: State, id: string, persistent: bool, now: int, c: Choice)
    requires OptionsOk(o) && Inv(o, s) && AcquireChoice(o, s, now, c) && id != "" && Safe(s, id)
    ensures var step := M.Acquire(o, s, id, persistent, now, c); OthersSwept(o, s, id, now, step.state, step.released)
  {
    SweptFirst(o, s, c.order, now);
    AcquireSweptEffect(o, M.ReleaseIdle(o, s, c.order, now).0, id, persistent, now, c.pick);
    ServingSweeps(o, s, id, now, c.order, M.Acquire(o, s, id, persistent, now, c).state);
  }

  lemma AcquirePortSweeps(o: Options, s: State, id: string, port: int, persistent: bool, now: int, c: Choice)
    requires OptionsOk(o) && Inv(o, s) && AcquirePortChoice(o, s, port, now, c) && id != "" && Safe(s, id)
    ensures var step := M.AcquirePort(o, s, id, port, persistent, now, c);
            OthersSwept(o, s, id, now, step.state, step.released)
  {
    SweptFirst(o, s, c.order, now);
    AcquirePortSweptEffect(o, M.ReleaseIdle(o, s, c.order, now).0, id, port, persistent, now, c.pick);
    ServingSweeps(o, s, id, now, c.order, M.AcquirePort(o, s, id, port, persistent, now, c).state);
  }

  // ---------- Requests ----------

  /** A request is counted. Below the threshold nothing else happens but that the lease is in
      use; from the threshold on, its address is another one and the count starts again. */
  lemma RequestCounted(o: Options, s: State, id: string, now: int)
    requires OptionsOk(o) && Inv(o, s) && id in s.leases
    ensures var l, step := s.leases[id], M.RecordRequest(o, s, id, now);
            if o.rotateRequests == 0 || l.requests + 1 < o.rotateRequests then
              && step.result == Ok(l.(requests := l.requests + 1, lastUsedAt := now))
              && step.state == s.(leases := s.leases[id := step.result.value])
            else if step.state.failures == s.failures then
              && step.result.Ok? && Restarted(s, l, now, step.result.value)
              && step.state.leases == s.leases[id := step.result.value]
            else
              && step.result.Err?
              && step.state.leases == s.leases[id := l.(requests := l.requests + 1, lastUsedAt := now)]
  {
    var l1 := s.leases[id].(requests := s.leases[id].requests + 1, lastUsedAt := now);
    var s1 := s.(leases := s.leases[id := l1]);
    CountedKeeps(o, s, id, now);
    if o.rotateRequests > 0 && l1.requests >= o.rotateRequests {
      RotationMoves(o, s1, id, now);
      RestartedFrom(s, id, l1, now, M.Rotate(o, s1, id, now));
    }
  }

  /** Rotating the lease l1 is rotating the one it replaced. */
  lemma RestartedFrom(s: State, id: string, l1: Lease, now: int, step: Step<Result<Lease, Error>>)
    requires id in s.leases
    requires var l := s.leases[id]; l1 == l.(requests := l1.requests, lastUsedAt := l1.lastUsedAt)
    requires var s1 := s.(leases := s.leases[id := l1]);
             if step.result.Ok? then
               Restarted(s1, l1, now, step.result.value) && step.state.leases == s1.leases[id := step.result.value]
             else step.state.leases == s1.leases
    ensures if step.result.Ok? then
              && Restarted(s, s.leases[id], now, step.result.value)
              && step.state.leases == s.leases[id := step.result.value]
            else step.state.leases == s.leases[id := l1]
  {
    SameAddresses(s, id, l1);
  }

  lemma SameAddresses(s: State, id: string, l: Lease)
    requires id in s.leases && l.ipv6 == s.leases[id].ipv6
    ensures forall a :: InUse(s.leases[id := l], a) <==> InUse(s.leases, a)
  {
    var leases := s.leases[id := l];
    forall a ensures InUse(leases, a) <==> InUse(s.leases, a) {
      if InUse(s.leases, a) {
        var k :| k in s.leases && s.leases[k].ipv6 == a;
        assert leases[k].ipv6 == a;
      }
    }
  }

  /** What the requests recorded at `times` leave of the pool. */
  function Recorded(o: Options, s: State, id: string, times: seq<int>): State
    requires OptionsOk(o)
    decreases |times|
  {
    if |times| == 0 then s
    else M.RecordRequest(o, Recorded(o, s, id, times[..|times| - 1]), id, times[|times| - 1]).state
  }

  /** After n requests, l has become l': every threshold's worth of them has changed the address
      once, and the count is what is left over. Without a threshold only the count grows. */
  ghost predicate Tally(o: Options, l: Lease, n: nat, l': Lease) {
    var changes := l'.generation - l.generation;
    && changes >= 0 && (changes == 0 ==> l'.ipv6 == l.ipv6)
    && if o.rotateRequests == 0 then changes == 0 && l'.requests == l.requests + n
       else l'.requests < o.rotateRequests && changes * o.rotateRequests + l'.requests == l.requests + n
  }

  /** Over any number of requests, while no allocation fails, the threshold cuts them into equal
      parts. */
  lemma {:induction false} RequestsRotate(o: Options, s: State, id: string, times: seq<int>)
    requires OptionsOk(o) && Inv(o, s) && id in s.leases && Recorded(o, s, id, times).failures == s.failures
    requires o.rotateRequests > 0 ==> s.leases[id].requests < o.rotateRequests
    ensures var s' := Recorded(o, s, id, times);
            && Inv(o, s') && id in s'.leases
            && Tally(o, s.leases[id], |times|, s'.leases[id])
            && (times != [] ==> s'.leases[id].lastUsedAt == times[|times| - 1])
    decreases |times|
  {
    if |times| > 0 {
      var before, now := times[..|times| - 1], times[|times| - 1];
      assert times == before + [now];
      RecordedFailures(o, s, id, before, now);
      RequestsRotate(o, s, id, before);
      OneMoreRequest(o, s.leases[id], |before|, Recorded(o, s, id, before), id, now);
    } else {
      assert (s.leases[id].generation - s.leases[id].generation) * o.rotateRequests == 0;
    }
  }

  lemma OneMoreRequest(o: Options, l: Lease, n: nat, s: State, id: string, now: int)
    requires OptionsOk(o) && Inv(o, s) && id in s.leases && Tally(o, l, n, s.leases[id])
    requires M.RecordRequest(o, s, id, now).state.failures == s.failures
    ensures var s' := M.RecordRequest(o, s, id, now).state;
            && Inv(o, s') && id in s'.leases && Tally(o, l, n + 1, s'.leases[id]) && s'.leases[id].lastUsedAt == now
  {
    RequestCounted(o, s, id, now);
    RecordKeeps(o, s, id, now);
    TallyAfter(o, l, n, s.leases[id], M.RecordRequest(o, s, id, now).result.value);
  }

  lemma TallyAfter(o: Options, l: Lease, n: nat, l1: Lease, l2: Lease)
    requires Tally(o, l, n, l1)
    requires if o.rotateRequests == 0 || l1.requests + 1 < o.rotateRequests then
               l2.requests == l1.requests + 1 && l2.generation == l1.generation && l2.ipv6 == l1.ipv6
             else l2.requests == 0 && l2.generation == l1.generation + 1
    ensures Tally(o, l, n + 1, l2)
  {
    var changes, part := l1.generation - l.generation, o.rotateRequests;
    assert (changes + 1) * part == changes * part + part;
  }

  lemma RecordKeeps(o: Options, s: State, id: string, now: int)
    requires OptionsOk(o) && Inv(o, s) && id in s.leases
    ensures var s' := M.RecordRequest(o, s, id, now).state; Inv(o, s') && s'.failures >= s.failures
  {
    CountedKeeps(o, s, id, now);
    RotatedKeeps(o, Counted(s, id, now), id, now);
    RotatedChanges(o, Counted(s, id, now), id, now);
  }

  lemma {:induction false} RecordedFailures(o: Options, s: State, id: string, before: seq<int>, now: int)
    requires OptionsOk(o) && Inv(o, s) && id in s.leases
    ensures Recorded(o, s, id, before + [now]).failures >= Recorded(o, s, id, before).failures >= s.failures
    ensures Inv(o, Recorded(o, s, id, before)) && id in Recorded(o, s, id, before).leases
    decreases |before|
  {
    var times := before + [now];
    assert times[..|before|] == before;
    if |before| > 0 {
      assert before == before[..|before| - 1] + [before[|before| - 1]];
      RecordedFailures(o, s, id, before[..|before| - 1], before[|before| - 1]);
      RecordKeeps(o, Recorded(o, s, id, before[..|before| - 1]), id, before[|before| - 1]);
      RequestCounted(o, Recorded(o, s, id, before[..|before| - 1]), id, before[|before| - 1]);
    }
    RecordKeeps(o, Recorded(o, s, id, before), id, now);
  }

  // ---------- Anyone else who acquires ----------

  /** A lease a client has just been given. */
  ghost predicate NewClient(l: Lease, id: string, persistent: bool, now: int) {
    && l.id == id && l.role == Client && l.persistent == persistent
    && l.createdAt == now && l.lastUsedAt == now && l.requests == 0
  }

  /** l' is the standby l made over to a client, with its port and its address. */
  ghost predicate MadeOver(l: Lease, l': Lease, id: string, persistent: bool, now: int) {
    && l.role == Standby && NewClient(l', id, persistent, now)
    && l'.port == l.port && l'.ipv6 == l.ipv6 && l'.generation == l.generation + 1
  }

  /** An id that is a standby's own takes that standby over: it is served whatever becomes of the
      addresses, and nothing is rotated. */
  lemma AcquireStandbysId(o: Options, s: State, id: string, persistent: bool, now: int, c: Choice)
    requires OptionsOk(o) && Inv(o, s) && AcquireChoice(o, s, now, c)
    requires id in s.leases && s.leases[id].role == Standby
    ensures var step := M.Acquire(o, s, id, persistent, now, c);
            && step.result.Ok? && MadeOver(s.leases[id], step.result.value, id, persistent, now)
            && id in step.state.leases && step.state.leases[id] == step.result.value
  {
    SweptFirst(o, s, c.order, now);
    var mid := M.ReleaseIdle(o, s, c.order, now).0;
    assert id in mid.leases && mid.leases[id] == s.leases[id];
  }

  lemma AcquirePortStandbysId(o: Options, s: State, id: string, port: int, persistent: bool, now: int, c: Choice)
    requires OptionsOk(o) && Inv(o, s) && AcquirePortChoice(o, s, port, now, c)
    requires id in s.leases && s.leases[id].role == Standby && s.leases[id].port == port
    ensures var step := M.AcquirePort(o, s, id, port, persistent, now, c);
            && step.result.Ok? && MadeOver(s.leases[id], step.result.value, id, persistent, now)
            && id in step.state.leases && step.state.leases[id] == step.result.value
  {
    SweptFirst(o, s, c.order, now);
    var mid := M.ReleaseIdle(o, s, c.order, now).0;
    assert id in mid.leases && mid.leases[id] == s.leases[id];
  }

  /** The standby under k has the least port of all, and the least id on that port. */
  ghost predicate FirstStandby(leases: map<string, Lease>, k: string) {
    && k in leases && leases[k].role == Standby
    && forall j :: j in leases && leases[j].role == Standby && j != k ==>
         leases[k].port < leases[j].port || (leases[k].port == leases[j].port && Less(leases[k].id, leases[j].id))
  }

  /** The swept pool `mid` gives an id that it does not know a lease: the first standby if it has
      any, otherwise a new address on its least free port, or on none without ports. */
  ghost predicate SlotGiven(mid: State, id: string, persistent: bool, now: int, s': State, l: Lease) {
    if Standbys(mid.leases) != {} then
      exists k :: FirstStandby(mid.leases, k) && MadeOver(mid.leases[k], l, id, persistent, now)
                  && s'.leases == (mid.leases - {k})[id := l] && s'.freePorts == mid.freePorts
    else
      && AddressGiven(mid, id, persistent, now, s', l)
      && if mid.freePorts == [] then l.port == 0 && s'.freePorts == []
         else mid.freePorts == [l.port] + s'.freePorts
  }

  /** A new lease with an address of the prefix that nobody has. */
  ghost predicate AddressGiven(mid: State, id: string, persistent: bool, now: int, s': State, l: Lease) {
    && NewClient(l, id, persistent, now) && l.generation == 0
    && InPrefix(mid.generator, l.ipv6) && !InUse(mid.leases, l.ipv6)
    && s'.leases == mid.leases[id := l]
  }

  lemma FreshSlot(o: Options, mid: State, id: string, persistent: bool, now: int, pick: Option<string>)
    requires OptionsOk(o) && id !in mid.leases && PicksLeast(mid.leases, pick)
    ensures var (s', r) := AcquireSwept(o, mid, id, persistent, now, pick);
            if |mid.leases| >= o.maxLeases then r == Err(Capacity) && s' == mid
            else
              && (s'.failures == mid.failures ==> r.Ok?)
              && (if r.Ok? then SlotGiven(mid, id, persistent, now, s', r.value) else s'.leases == mid.leases)
  {
    match pick
    case Some(k) =>
      assert k in Standbys(mid.leases);
      assert FirstStandby(mid.leases, k);
    case None =>
      assert Standbys(mid.leases) == {};
  }

  /** Acquire for an id that has no lease, or whose idle lease the sweep takes: refused exactly when
      the sweep leaves the pool full, and otherwise given a slot while no allocation fails. */
  lemma AcquireUnknown(o: Options, s: State, id: string, persistent: bool, now: int, c: Choice)
    requires OptionsOk(o) && Inv(o, s) && AcquireChoice(o, s, now, c)
    requires id != "" && Safe(s, id) && (id in s.leases ==> Overdue(o, s, id, now))
    ensures var mid, step := M.ReleaseIdle(o, s, c.order, now).0, M.Acquire(o, s, id, persistent, now, c);
            && step.released == M.ReleaseIdle(o, s, c.order, now).1
            && if |mid.leases| >= o.maxLeases then step.result == Err(Capacity) && step.state == mid
               else
                 && (step.state.failures == mid.failures ==> step.result.Ok?)
                 && (if step.result.Ok? then SlotGiven(mid, id, persistent, now, step.state, step.result.value)
                     else step.state.leases == mid.leases)
  {
    SweptAway(o, s, id, now, c.order);
    FreshSlot(o, M.ReleaseIdle(o, s, c.order, now).0, id, persistent, now, c.pick);
  }

  lemma SweptAway(o: Options, s: State, id: string, now: int, order: seq<string>)
    requires OptionsOk(o) && Inv(o, s) && Covers(o, s, order)
    requires Safe(s, id) && (id in s.leases ==> Overdue(o, s, id, now))
    ensures id !in M.ReleaseIdle(o, s, order, now).0.leases
  {
    SweptFirst(o, s, order, now);
    OverdueIsSwept(o, s, id, now);
  }

  /** On a given port: the standby there, or a new address if the port is free. */
  ghost predicate PortGiven(mid: State, id: string, port: int, persistent: bool, now: int, s': State, l: Lease) {
    && l.port == port
    && if port in mid.freePorts then
         AddressGiven(mid, id, persistent, now, s', l) && s'.freePorts == Without(mid.freePorts, port)
       else
         exists k :: k in mid.leases && MadeOver(mid.leases[k], l, id, persistent, now)
                     && s'.leases == (mid.leases - {k})[id := l] && s'.freePorts == mid.freePorts
  }

  lemma FreshPort(o: Options, mid: State, id: string, port: int, persistent: bool, now: int, pick: Option<string>)
    requires OptionsOk(o) && PortsOk(o, mid) && o.portStart != 0
    requires id !in mid.leases && PicksOnPort(mid.leases, port, pick)
    ensures var (s', r) := AcquirePortSwept(o, mid, id, port, persistent, now, pick);
            if |mid.leases| >= o.maxLeases then r == Err(Capacity) && s' == mid
            else if r.Ok? then PortGiven(mid, id, port, persistent, now, s', r.value)
            else
              && s'.leases == mid.leases
              && (s'.failures == mid.failures ==> r == Err(PortUnavailable))
  {
    if pick.Some? {
      assert port !in mid.freePorts;
    }
  }

  lemma AcquirePortUnknown(o: Options, s: State, id: string, port: int, persistent: bool, now: int, c: Choice)
    requires OptionsOk(o) && Inv(o, s) && AcquirePortChoice(o, s, port, now, c) && o.portStart != 0
    requires id != "" && Safe(s, id) && (id in s.leases ==> Overdue(o, s, id, now))
    ensures var mid := M.ReleaseIdle(o, s, c.order, now).0;
            var step := M.AcquirePort(o, s, id, port, persistent, now, c);
            && step.released == M.ReleaseIdle(o, s, c.order, now).1
            && if |mid.leases| >= o.maxLeases then step.result == Err(Capacity) && step.state == mid
               else if step.result.Ok? then PortGiven(mid, id, port, persistent, now, step.state, step.result.value)
               else
                 && step.state.leases == mid.leases
                 && (step.state.failures == mid.failures ==> step.result == Err(PortUnavailable))
  {
    SweptAway(o, s, id, now, c.order);
    SweptFirst(o, s, c.order, now);
    FreshPort(o, M.ReleaseIdle(o, s, c.order, now).0, id, port, persistent, now, c.pick);
  }

  // ---------- Releasing and recycling ----------

  /** A standby just created. */
  ghost predicate Ready(l: Lease, now: int) {
    && l.role == Standby && !l.persistent && l.createdAt == now && l.lastUsedAt == now
    && l.requests == 0 && l.generation == 0
  }

  /** Whatever lease was not there before is a standby just created. */
  ghost predicate NewAreReady(s: State, s': State, now: int) {
    forall k :: k in s'.leases ==> (k in s.leases && s'.leases[k] == s.leases[k]) || Ready(s'.leases[k], now)
  }

  lemma {:induction false} EnsureReady(o: Options, s: State, now: int)
    requires OptionsOk(o)
    ensures NewAreReady(s, EnsureStandbys(o, s, now), now)
    decreases o.minLeases - s.standbyCount
  {
    if s.standbyCount < o.minLeases {
      var (ok, s1) := NewStandby(o, s, now);
      assert NewAreReady(s, s1, now);
      if ok {
        EnsureReady(o, s1, now);
      }
    }
  }

  lemma RecycleReady(o: Options, s: State, id: string, now: int)
    requires OptionsOk(o) && id in s.leases
    ensures NewAreReady(s, RecycleSlot(o, s, id, now), now)
  {
    var (r, s1) := Allocate(o, s);
    if s.leases[id].role != Standby && s.standbyCount < o.minLeases {
      if r.Ok? {
        assert NewAreReady(s, Convert(s1, id, r.value, now), now);
      } else {
        EnsureReady(o, Drop(s1, id), now);
      }
    } else {
      EnsureReady(o, Drop(s, id), now);
    }
  }

  /** Every lease that a sweep leaves is as before or a standby just created. */
  lemma {:induction false} SweepReady(o: Options, s: State, order: seq<string>, now: int)
    requires OptionsOk(o)
    ensures NewAreReady(s, M.ReleaseIdle(o, s, order, now).0, now)
    decreases |order|
  {
    if SweepRuns(o, s) && |order| > 0 {
      SweepReady(o, s, order[..|order| - 1], now);
      var s1 := Sweep(o, s, order[..|order| - 1], now).0;
      if order[|order| - 1] in s1.leases {
        RecycleReady(o, s1, order[|order| - 1], now);
      }
    }
  }

  /** Releasing a client while no allocation fails. When standbys are short its port goes to one
      new standby on an address that nobody had; otherwise the lease is gone and its port
      is free. */
  lemma ClientReleased(o: Options, s: State, id: string, now: int)
    requires OptionsOk(o) && Inv(o, s) && id in s.leases && s.leases[id].role == Client
    requires M.Release(o, s, id, now).state.failures == s.failures
    ensures var step := M.Release(o, s, id, now);
            && step.result && step.released == [id] && id !in step.state.leases
            && if s.standbyCount < o.minLeases then
                 && step.state.standbyCount == s.standbyCount + 1 && step.state.freePorts == s.freePorts
                 && exists k :: k in step.state.leases && k !in s.leases && ReadyOn(s, id, step.state.leases[k], now)
                                && step.state.leases == (s.leases - {id})[k := step.state.leases[k]]
               else
                 && step.state.standbyCount == s.standbyCount && step.state.leases == s.leases - {id}
                 && (o.portStart != 0 ==> forall p :: p in step.state.freePorts <==>
                                            p in s.freePorts || p == s.leases[id].port)
  {
    RecycleEffect(o, s, id, now);
    if s.standbyCount < o.minLeases {
      ConvertedWhole(o, s, id, now);
    } else {
      NoFloorDrops(o, s, id, now);
      if o.portStart != 0 {
        DroppedOffer(o, s, id);
      }
    }
  }

  /** A standby just created on the port of the lease under id, with an address that nobody has. */
  ghost predicate ReadyOn(s: State, id: string, l: Lease, now: int)
    requires id in s.leases
  {
    Ready(l, now) && l.port == s.leases[id].port && InPrefix(s.generator, l.ipv6) && !InUse(s.leases, l.ipv6)
  }

  lemma ConvertedWhole(o: Options, s: State, id: string, now: int)
    requires OptionsOk(o) && Inv(o, s) && id in s.leases && s.leases[id].role == Client && s.standbyCount < o.minLeases
    requires RecycleSlot(o, s, id, now).failures == s.failures
    ensures var s', k := RecycleSlot(o, s, id, now), PoolId(s.standbySeq + 1);
            && s'.standbyCount == s.standbyCount + 1 && s'.freePorts == s.freePorts
            && k in s'.leases && k !in s.leases && ReadyOn(s, id, s'.leases[k], now)
            && s'.leases == (s.leases - {id})[k := s'.leases[k]]
  {
    var (r, s1) := Allocate(o, s);
    if r.Err? {
      AllocateKeeps(o, s);
      DropThenEnsure(o, s1, id, now);
    }
  }

  /** Recycle refuses an unknown id and a persistent lease and changes nothing then. Otherwise the
      id is told to the hook first, and a lease it returns is a new client's. */
  lemma RecycleAnswers(o: Options, s: State, id: string, now: int, later: int, c: Choice)
    requires OptionsOk(o) && Inv(o, s)
    requires id in s.leases && !s.leases[id].persistent ==> AcquireChoice(o, RecycleSlot(o, s, id, now), later, c)
    ensures var step := M.Recycle(o, s, id, now, later, c);
            if id !in s.leases then step == Step(s, Err(NotFound), [])
            else if s.leases[id].persistent then step == Step(s, Err(Anchored), [])
            else
              && |step.released| > 0 && step.released[0] == id
              && (step.result.Ok? ==>
                    && NewClient(step.result.value, id, false, later)
                    && id in step.state.leases && step.state.leases[id] == step.result.value)
              && (step.result.Err? ==> id !in step.state.leases)
  {
    if id in s.leases && !s.leases[id].persistent {
      RecycleEffect(o, s, id, now);
      assert Safe(s, id);
      AcquireUnknown(o, RecycleSlot(o, s, id, now), id, false, later, c);
      SweptAway(o, RecycleSlot(o, s, id, now), id, later, c.order);
    }
  }

  // ---------- Refusals and flags ----------

  /** Nobody is served without a name, and what is done to an id without a lease is refused
      and changes nothing. */
  lemma Refusals(o: Options, s: State, id: string, port: int, persistent: bool, now: int, c: Choice)
    requires OptionsOk(o)
    ensures M.Acquire(o, s, "", persistent, now, c) == Step(s, Err(EmptyId), [])
    ensures M.AcquirePort(o, s, "", port, persistent, now, c) == Step(s, Err(EmptyId), [])
    ensures id !in s.leases ==>
              && M.Release(o, s, id, now) == Step(s, false, [])
              && M.Rotate(o, s, id, now) == Step(s, Err(NotFound), [])
              && M.RecordRequest(o, s, id, now) == Step(s, Err(NotFound), [])
              && M.SetPersistent(s, id, persistent) == Step(s, Err(NotFound), [])
  {
  }

  /** A pinned client is never overdue; one that is let go is, as soon as it is idle long enough. */
  lemma FlagDecides(o: Options, s: State, id: string, persistent: bool, k: string, now: int)
    requires OptionsOk(o) && id in s.leases
    ensures var step := M.SetPersistent(s, id, persistent);
            && step.result == Ok(s.leases[id].(persistent := persistent))
            && step.state == s.(leases := s.leases[id := step.result.value])
            && (k != id ==> (Overdue(o, step.state, k, now) <==> Overdue(o, s, k, now)))
            && (Overdue(o, step.state, id, now) <==>
                  && !persistent && o.idleTimeout > 0 && |s.leases| > o.minLeases && s.leases[id].role == Client
                  && now - s.leases[id].lastUsedAt >= o.idleTimeout)
  {
    var s' := M.SetPersistent(s, id, persistent).state;
    assert s'.leases.Keys == s.leases.Keys;
    assert |s'.leases| == |s'.leases.Keys| == |s.leases|;
  }

  // ---------- A new pool ----------

  /** Which options and prefixes give a pool, and that it starts with standbys only. */
  lemma NewPoolStarts(o: Options, prefix: Option<Cidr>, now: int)
    requires prefix.Some? ==> prefix.value.address < Pow2(Width)
    ensures NewPool(o, prefix, now).Ok? <==>
              && o.maxLeases > 0 && 0 <= o.minLeases <= o.maxLeases
              && o.idleTimeout >= 0 && o.rotateAfter >= 0
              && ((o.portStart == 0 && o.portEnd == 0)
                  || (1 <= o.portStart <= o.portEnd <= 65535 && o.maxLeases <= o.portEnd - o.portStart + 1))
              && prefix.Some? && prefix.value.bits == 128 && 1 <= prefix.value.ones <= 127
              && !Mapped(prefix.value.address)
    ensures NewPool(o, prefix, now).Ok? ==>
              forall k :: k in NewPool(o, prefix, now).value.leases ==>
                Ready(NewPool(o, prefix, now).value.leases[k], now)
  {
    if OptionsOk(o) && NewGenerator(prefix).Ok? {
      EnsureReady(o, Empty(o, NewGenerator(prefix).value), now);
    }
  }
}
