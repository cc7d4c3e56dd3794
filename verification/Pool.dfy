/** The pool as the program keeps it: one object whose methods update its fields
    under a lock. Each method is proved to do what the function of the same name in
    PoolModel says, for some order of ranging over the lease map. */
module LeasePool {
  import opened Wrappers
  import opened Ids
  import opened Ipv6Addr
  import opened PoolInvariant
  import opened PoolSteps
  import opened PoolReassign
  import opened PoolModel
  import M = PoolModel

  /** sort.Search as the standard library runs it on an ascending slice. */
  method SearchInts(xs: seq<int>, x: int) returns (i: nat)
    requires Ascending(xs)
    ensures i <= |xs|
    ensures forall k :: 0 <= k < i ==> xs[k] < x
    ensures forall k :: i <= k < |xs| ==> x <= xs[k]
  {
    i := 0;
    var j := |xs|;
    while i < j
      invariant i <= j <= |xs|
      invariant forall k :: 0 <= k < i ==> xs[k] < x
      invariant forall k :: j <= k < |xs| ==> x <= xs[k]
    {
      var h := (i + j) / 2;
      if xs[h] < x {
        i := h + 1;
      } else {
        j := h;
      }
    }
  }

  /** The insertion point is the port's position exactly when the port is free. */
  lemma SearchIsMembership(xs: seq<int>, x: int, i: nat)
    requires Ascending(xs) && i <= |xs|
    requires forall k :: 0 <= k < i ==> xs[k] < x
    requires forall k :: i <= k < |xs| ==> x <= xs[k]
    ensures i < |xs| && xs[i] == x <==> x in xs
    ensures x in xs ==> Without(xs, x) == xs[..i] + xs[i + 1..]
  {
    if x in xs {
      var k :| 0 <= k < |xs| && xs[k] == x;
      assert i <= k;
      var y := xs[i];
      WithoutAt(xs, i);
    }
  }

  lemma {:induction false} WithoutAt(xs: seq<int>, i: nat)
    requires i < |xs| && forall k :: 0 <= k < i ==> xs[k] != xs[i]
    ensures Without(xs, xs[i]) == xs[..i] + xs[i + 1..]
  {
    if i > 0 {
      var tail := xs[1..];
      WithoutAt(tail, i - 1);
      assert tail[i - 1] == xs[i] && tail[i..] == xs[i + 1..];
      assert [xs[0]] + tail[..i - 1] == xs[..i];
    }
  }

  lemma BeforeTransitive(a: Lease, b: Lease, c: Lease)
    requires Before(a, b) && Before(b, c)
    ensures Before(a, c)
  {
    if a.port == b.port == c.port {
      LessTransitive(a.id, b.id, c.id);
    }
  }

  lemma BeforeTotal(a: Lease, b: Lease)
    requires a.id != b.id
    ensures Before(a, b) || Before(b, a)
  {
    LessTotal(a.id, b.id);
  }

  class Pool {
    const options: Options
    var generator: Network
    var leases: map<string, Lease>
    var nextIndex: nat
    var freePorts: seq<int>
    var standbyCount: int
    var standbySeq: nat
    var drawn: nat
    ghost var failures: nat
    ghost var issued: set<Address>

    ghost function View(): State
      reads this
    {
      State(leases, freePorts, standbyCount, standbySeq, nextIndex, generator, drawn, failures, issued)
    }

    ghost predicate Valid()
      reads this
    {
      OptionsOk(options) && Inv(options, View())
    }

    /** NewPool, for options and a prefix that pass its checks. */
    constructor (o: Options, g: Network, now: int)
      requires OptionsOk(o)
      ensures options == o && View() == EnsureStandbys(o, Empty(o, g), now)
    {
      options := o;
      generator := g;
      leases := map[];
      nextIndex, standbyCount, standbySeq, drawn := 0, 0, 0, 0;
      failures, issued := 0, {};
      var ports: seq<int> := [];
      var port := o.portStart;
      while port != 0 && port <= o.portEnd
        invariant port != 0 ==> o.portStart <= port
        invariant port == o.portStart == 0 || (o.portStart != 0 && port <= o.portEnd + 1)
        invariant ports == PortRange(o.portStart, port - 1)
        decreases o.portEnd + 1 - port
      {
        ports := ports + [port];
        port := port + 1;
      }
      freePorts := ports;
      new;
      assert View() == Empty(o, g);
      EnsureStandbysLocked(now);
    }

    method IsUsed(a: Address) returns (used: bool)
      ensures used <==> InUse(leases, a)
    {
      var rest := leases.Keys;
      while rest != {}
        invariant rest <= leases.Keys
        invariant forall k :: k in leases && k !in rest ==> leases[k].ipv6 != a
        decreases rest
      {
        var k :| k in rest;
        if leases[k].ipv6 == a {
          return true;
        }
        rest := rest - {k};
      }
      return false;
    }

    /** One candidate: the next index of the prefix, or a random host in it. */
    method DrawLocked() returns (r: Result<Address, Error>)
      modifies this
      ensures (r, View()) == Draw(options, old(View()))
    {
      if options.sequential {
        nextIndex := nextIndex + 1;
        var next := FromIndex(generator, nextIndex);
        if next.Err? {
          return Err(AddressError(next.error));
        }
        return Ok(next.value);
      }
      var random := options.random(drawn);
      drawn := drawn + 1;
      if random.None? || random.value >= generator.hostMax {
        return Err(RandomFailed);
      }
      return Ok(FromHost(generator, random.value));
    }

    method NextAddressLocked() returns (r: Result<Address, Error>)
      requires OptionsOk(options)
      modifies this
      ensures (r, View()) == Allocate(options, old(View()))
    {
      ghost var outcome := Allocate(options, View());
      var attempts := 0;
      while attempts <= options.maxLeases * 2 + 256
        invariant 0 <= attempts <= Budget(options)
        invariant NextAddress(options, View(), Budget(options) - attempts) == outcome
      {
        var candidate := DrawLocked();
        if candidate.Err? {
          failures := failures + 1;
          return candidate;
        }
        var used := IsUsed(candidate.value);
        if !used {
          issued := issued + {candidate.value};
          return candidate;
        }
        assert NextAddress(options, View(), Budget(options) - attempts - 1) == outcome;
        attempts := attempts + 1;
      }
      failures := failures + 1;
      return Err(Capacity);
    }

    method NewStandbyLocked(now: int) returns (ok: bool)
      requires OptionsOk(options)
      modifies this
      ensures (ok, View()) == NewStandby(options, old(View()), now)
    {
      if options.portStart != 0 && |freePorts| == 0 {
        return false;
      }
      var ip := NextAddressLocked();
      if ip.Err? {
        return false;
      }
      ghost var s1 := View();
      var port := 0;
      if options.portStart != 0 {
        port := freePorts[0];
        freePorts := freePorts[1..];
      }
      standbySeq := standbySeq + 1;
      var standby := Lease(PoolId(standbySeq), ip.value, port, false, Standby, now, now, 0, 0);
      leases := leases[standby.id := standby];
      standbyCount := standbyCount + 1;
      assert View() == Seeded(options, s1, ip.value, now);
      return true;
    }

    method EnsureStandbysLocked(now: int)
      requires OptionsOk(options)
      modifies this
      ensures View() == EnsureStandbys(options, old(View()), now)
    {
      while standbyCount < options.minLeases
        invariant EnsureStandbys(options, View(), now) == EnsureStandbys(options, old(View()), now)
        decreases options.minLeases - standbyCount
      {
        var ok := NewStandbyLocked(now);
        if !ok {
          return;
        }
      }
    }

    method ReleaseLocked(id: string) returns (ok: bool)
      modifies this
      ensures ok <==> id in old(leases)
      ensures ok ==> View() == Drop(old(View()), id)
      ensures !ok ==> View() == old(View())
    {
      ok := id in leases;
      if ok {
        var current := leases[id];
        if current.role == Standby {
          standbyCount := standbyCount - 1;
        }
        leases := leases - {id};
        if current.port != 0 {
          ReturnPortLocked(current.port);
        }
      }
    }

    method ReturnPortLocked(port: int)
      modifies this`freePorts
      ensures freePorts == SortInts(old(freePorts) + [port])
    {
      freePorts := freePorts + [port];
      freePorts := SortInts(freePorts);
    }

    method RecycleLocked(id: string, now: int) returns (ok: bool)
      requires OptionsOk(options)
      modifies this
      ensures ok <==> id in old(leases)
      ensures View() == if ok then RecycleSlot(options, old(View()), id, now) else old(View())
    {
      if id !in leases {
        return false;
      }
      var current := leases[id];
      if current.role != Standby && standbyCount < options.minLeases {
        var ip := NextAddressLocked();
        ghost var s1 := View();
        if ip.Ok? {
          leases := leases - {id};
          standbySeq := standbySeq + 1;
          var standby := Lease(PoolId(standbySeq), ip.value, current.port, false, Standby, now, now, 0, 0);
          leases := leases[standby.id := standby];
          standbyCount := standbyCount + 1;
          assert View() == Convert(s1, id, ip.value, now);
          return true;
        }
      }
      var _ := ReleaseLocked(id);
      EnsureStandbysLocked(now);
      return true;
    }

    method ReleaseIdleLocked(now: int) returns (released: seq<string>, ghost order: seq<string>)
      requires OptionsOk(options)
      modifies this
      ensures (View(), released) == M.ReleaseIdle(options, old(View()), order, now)
      ensures Covers(options, old(View()), order)
    {
      released, order := [], [];
      if options.idleTimeout <= 0 || |leases| <= options.minLeases {
        return;
      }
      var pending := leases.Keys;
      while pending != {}
        invariant (View(), released) == Sweep(options, old(View()), order, now)
        invariant forall k :: k in old(leases) ==> k in order || k in pending
        decreases pending
      {
        var id :| id in pending;
        pending := pending - {id};
        ghost var visited := order + [id];
        assert visited[..|order|] == order;
        order := visited;
        if id in leases {
          var current := leases[id];
          if !(current.role == Standby || current.persistent) {
            if now - current.lastUsedAt >= options.idleTimeout {
              var recycled := RecycleLocked(id, now);
              if recycled {
                released := released + [id];
              }
            }
          }
        }
      }
    }

    /** The standby must already have been taken out of the map, or be filed under id. */
    method ClaimLocked(standby: Lease, id: string, persistent: bool, now: int) returns (claimed: Lease)
      modifies this
      ensures claimed == standby.(id := id, role := Client, persistent := persistent, createdAt := now,
                                  lastUsedAt := now, requests := 0, generation := standby.generation + 1)
      ensures View() == old(View()).(standbyCount := old(standbyCount) - 1, leases := old(leases)[id := claimed])
    {
      standbyCount := standbyCount - 1;
      claimed := standby.(id := id, role := Client, persistent := persistent, createdAt := now,
                          lastUsedAt := now, requests := 0, generation := standby.generation + 1);
      leases := leases[id := claimed];
    }

    method TakeStandbyLocked() returns (chosen: Option<Lease>, ghost pick: Option<string>)
      requires KeysOk(View())
      modifies this
      ensures PicksLeast(old(leases), pick)
      ensures if pick.None? then chosen.None? && View() == old(View())
              else
                && chosen == Some(old(leases)[pick.value])
                && View() == old(View()).(leases := old(leases) - {pick.value})
    {
      chosen := None;
      var rest := leases.Keys;
      while rest != {}
        invariant rest <= leases.Keys && View() == old(View())
        invariant chosen.None? ==> forall k :: k in leases && k !in rest ==> leases[k].role != Standby
        invariant chosen.Some? ==>
                    && chosen.value.id in leases && leases[chosen.value.id] == chosen.value
                    && chosen.value.role == Standby
                    && forall k :: k in leases && k !in rest && leases[k].role == Standby && k != chosen.value.id ==>
                         Before(chosen.value, leases[k])
        decreases rest
      {
        var k :| k in rest;
        rest := rest - {k};
        var current := leases[k];
        if current.role == Standby {
          if chosen.None? || current.port < chosen.value.port ||
            (current.port == chosen.value.port && Less(current.id, chosen.value.id)) {
            if chosen.Some? {
              forall j | j in leases && j !in rest && leases[j].role == Standby && j != k
                ensures Before(current, leases[j])
              {
                if j != chosen.value.id {
                  BeforeTransitive(current, chosen.value, leases[j]);
                }
              }
            }
            chosen := Some(current);
          } else if k != chosen.value.id {
            BeforeTotal(current, chosen.value);
          }
        }
      }
      pick := None;
      if chosen.Some? {
        pick := Some(chosen.value.id);
        leases := leases - {chosen.value.id};
      }
    }

    method TakeStandbyOnPortLocked(port: int) returns (taken: Option<Lease>, ghost pick: Option<string>)
      modifies this
      ensures PicksOnPort(old(leases), port, pick)
      ensures if pick.None? then taken.None? && View() == old(View())
              else
                && taken == Some(old(leases)[pick.value])
                && View() == old(View()).(leases := old(leases) - {pick.value})
    {
      var rest := leases.Keys;
      while rest != {}
        invariant rest <= leases.Keys && View() == old(View())
        invariant forall k :: k in leases && k !in rest ==> !OnPort(leases, k, port)
        decreases rest
      {
        var id :| id in rest;
        rest := rest - {id};
        var current := leases[id];
        if current.role == Standby && current.port == port {
          leases := leases - {id};
          return Some(current), Some(id);
        }
      }
      return None, None;
    }

    method RotateLocked(id: string, now: int) returns (r: Result<(), Error>)
      requires OptionsOk(options) && id in leases
      modifies this
      ensures (r, View()) == Rotated(options, old(View()), id, now)
    {
      var ip := NextAddressLocked();
      if ip.Err? {
        return Err(ip.error);
      }
      var current := leases[id];
      leases := leases[id := current.(ipv6 := ip.value, createdAt := now, lastUsedAt := now, requests := 0,
                                      generation := current.generation + 1)];
      return Ok(());
    }

    /** The branch Acquire and AcquirePort share for an id that already has a lease. */
    method RefreshLocked(id: string, persistent: bool, now: int) returns (r: Result<Lease, Error>)
      requires OptionsOk(options) && id in leases
      modifies this
      ensures (View(), r) == Refresh(options, old(View()), id, persistent, now)
    {
      var current := leases[id];
      if current.role == Standby {
        assert (leases - {id}) + map[id := current] == leases;
        current := ClaimLocked(current, id, persistent, now);
        assert leases == (old(leases) - {id})[id := current];
      } else if persistent {
        current := current.(persistent := true);
        leases := leases[id := current];
      }
      if options.rotateAfter > 0 && now - current.createdAt >= options.rotateAfter {
        var rotation := RotateLocked(id, now);
        if rotation.Err? {
          return Err(rotation.error);
        }
      }
      leases := leases[id := leases[id].(lastUsedAt := now)];
      return Ok(leases[id]);
    }

    method NewEntryLocked(id: string, persistent: bool, now: int) returns (r: Result<Lease, Error>)
      requires OptionsOk(options)
      modifies this
      ensures var (ip, s1) := Allocate(options, old(View()));
              if ip.Err? then r == Err(ip.error) && View() == s1
              else
                var port := if |s1.freePorts| > 0 then s1.freePorts[0] else 0;
                && r == Ok(Lease(id, ip.value, port, persistent, Client, now, now, 0, 0))
                && View() == s1.(freePorts := if |s1.freePorts| > 0 then s1.freePorts[1..] else s1.freePorts)
    {
      var ip := NextAddressLocked();
      if ip.Err? {
        return Err(ip.error);
      }
      var port := 0;
      if |freePorts| > 0 {
        port := freePorts[0];
        freePorts := freePorts[1..];
      }
      return Ok(Lease(id, ip.value, port, persistent, Client, now, now, 0, 0));
    }

    /** Acquire. The ids whose release hook runs after the lock is gone are returned. */
    method Acquire(id: string, persistent: bool, now: int)
      returns (r: Result<Lease, Error>, released: seq<string>, ghost c: Choice)
      requires Valid()
      modifies this
      ensures id != "" ==> AcquireChoice(options, old(View()), now, c)
      ensures Step(View(), r, released) == M.Acquire(options, old(View()), id, persistent, now, c)
      ensures Safe(old(View()), id) ==> Valid()
    {
      released, c := [], Choice([], None);
      if id == "" {
        return Err(EmptyId), released, c;
      }
      ghost var order, pick;
      released, order := ReleaseIdleLocked(now);
      ReleaseIdleEffect(options, old(View()), order, now);
      ghost var swept := View();
      r, pick := AcquireSweptLocked(id, persistent, now);
      c := Choice(order, pick);
      if Safe(old(View()), id) {
        AcquireSweptEffect(options, swept, id, persistent, now, pick);
      }
    }

    /** Acquire once the idle leases are gone. */
    method AcquireSweptLocked(id: string, persistent: bool, now: int)
      returns (r: Result<Lease, Error>, ghost pick: Option<string>)
      requires OptionsOk(options) && KeysOk(View())
      modifies this
      ensures PicksLeast(old(leases), pick)
      ensures (View(), r) == AcquireSwept(options, old(View()), id, persistent, now, pick)
    {
      pick := SomeLeast(leases);
      if id in leases {
        r := RefreshLocked(id, persistent, now);
        return;
      }
      if |leases| >= options.maxLeases {
        r := Err(Capacity);
        return;
      }
      var standby;
      standby, pick := TakeStandbyLocked();
      if standby.Some? {
        var claimed := ClaimLocked(standby.value, id, persistent, now);
        r := Ok(claimed);
        return;
      }
      r := NewEntryLocked(id, persistent, now);
      if r.Ok? {
        leases := leases[id := r.value];
      }
    }

    /** AcquirePort. The port is looked up by binary search in the free ports. */
    method AcquirePort(id: string, port: int, persistent: bool, now: int)
      returns (r: Result<Lease, Error>, released: seq<string>, ghost c: Choice)
      requires Valid()
      modifies this
      ensures id != "" ==> AcquirePortChoice(options, old(View()), port, now, c)
      ensures Step(View(), r, released) == M.AcquirePort(options, old(View()), id, port, persistent, now, c)
      ensures Safe(old(View()), id) ==> Valid()
    {
      released, c := [], Choice([], None);
      if id == "" {
        return Err(EmptyId), released, c;
      }
      ghost var order, pick;
      released, order := ReleaseIdleLocked(now);
      ReleaseIdleEffect(options, old(View()), order, now);
      ghost var swept := View();
      r, pick := AcquirePortSweptLocked(id, port, persistent, now);
      c := Choice(order, pick);
      if Safe(old(View()), id) {
        AcquirePortSweptEffect(options, swept, id, port, persistent, now, pick);
      }
    }

    method AcquirePortSweptLocked(id: string, port: int, persistent: bool, now: int)
      returns (r: Result<Lease, Error>, ghost pick: Option<string>)
      requires Valid()
      modifies this
      ensures PicksOnPort(old(leases), port, pick)
      ensures (View(), r) == AcquirePortSwept(options, old(View()), id, port, persistent, now, pick)
    {
      pick := SomeOnPort(leases, port);
      if id in leases {
        if leases[id].port != port {
          r := Err(PortUnavailable);
          return;
        }
        r := RefreshLocked(id, persistent, now);
        return;
      }
      if |leases| >= options.maxLeases {
        r := Err(Capacity);
        return;
      }
      var claimed;
      claimed, pick := ClaimOnPortLocked(id, port, persistent, now);
      if claimed.Some? {
        r := Ok(claimed.value);
        return;
      }
      r := NewEntryOnPortLocked(id, port, persistent, now);
    }

    /** The part of AcquirePort that claims the standby on the port, if there is one. */
    method ClaimOnPortLocked(id: string, port: int, persistent: bool, now: int)
      returns (claimed: Option<Lease>, ghost pick: Option<string>)
      modifies this
      ensures PicksOnPort(old(leases), port, pick)
      ensures if pick.None? then claimed.None? && View() == old(View())
              else View() == Claim(old(View()), pick.value, id, persistent, now) && claimed == Some(View().leases[id])
    {
      var standby;
      standby, pick := TakeStandbyOnPortLocked(port);
      if standby.None? {
        return None, pick;
      }
      var client := ClaimLocked(standby.value, id, persistent, now);
      return Some(client), pick;
    }

    /** The part of AcquirePort that takes a free port. */
    method NewEntryOnPortLocked(id: string, port: int, persistent: bool, now: int) returns (r: Result<Lease, Error>)
      requires Valid() && id !in leases
      modifies this
      ensures (View(), r) == OnFreePort(options, old(View()), id, port, persistent, now)
    {
      NoPortsAscend(options, View());
      var portIndex := SearchInts(freePorts, port);
      SearchIsMembership(freePorts, port, portIndex);
      if portIndex >= |freePorts| || freePorts[portIndex] != port {
        r := Err(PortUnavailable);
        return;
      }
      var ip := NextAddressLocked();
      if ip.Err? {
        r := Err(ip.error);
        return;
      }
      var created := Lease(id, ip.value, port, persistent, Client, now, now, 0, 0);
      ghost var s1 := View();
      freePorts := freePorts[..portIndex] + freePorts[portIndex + 1..];
      leases := leases[id := created];
      assert View() == Create(s1, id, ip.value, port, Without(s1.freePorts, port), persistent, now);
      r := Ok(created);
    }

    method RecordRequest(id: string, now: int) returns (r: Result<Lease, Error>)
      requires Valid()
      modifies this
      ensures Step(View(), r, []) == M.RecordRequest(options, old(View()), id, now)
      ensures Valid()
    {
      if id !in leases {
        return Err(NotFound);
      }
      CountedKeeps(options, View(), id, now);
      var current := leases[id];
      current := current.(requests := current.requests + 1, lastUsedAt := now);
      leases := leases[id := current];
      assert View() == Counted(old(View()), id, now);
      if options.rotateRequests > 0 && current.requests >= options.rotateRequests {
        r := Rotate(id, now);
        return;
      }
      return Ok(leases[id]);
    }

    method Release(id: string, now: int) returns (ok: bool, released: seq<string>)
      requires OptionsOk(options)
      modifies this
      ensures Step(View(), ok, released) == M.Release(options, old(View()), id, now)
      ensures old(Valid()) ==> Valid()
    {
      if Inv(options, View()) && id in leases {
        RecycleSlotKeeps(options, View(), id, now);
      }
      ok := RecycleLocked(id, now);
      released := if ok then [id] else [];
    }

    method ReleaseIdle(now: int) returns (n: nat, released: seq<string>, ghost order: seq<string>)
      requires Valid()
      modifies this
      ensures Covers(options, old(View()), order)
      ensures (View(), released) == M.ReleaseIdle(options, old(View()), order, now) && n == |released|
      ensures Valid()
    {
      released, order := ReleaseIdleLocked(now);
      ReleaseIdleEffect(options, old(View()), order, now);
      n := |released|;
    }

    method Rotate(id: string, now: int) returns (r: Result<Lease, Error>)
      requires Valid()
      modifies this
      ensures Step(View(), r, []) == M.Rotate(options, old(View()), id, now)
      ensures Valid()
    {
      if id !in leases {
        return Err(NotFound);
      }
      RotatedKeeps(options, View(), id, now);
      var rotation := RotateLocked(id, now);
      if rotation.Err? {
        return Err(rotation.error);
      }
      return Ok(leases[id]);
    }

    /** The locked half of Recycle, before the release hook and the new Acquire. */
    method Detach(id: string, now: int) returns (r: Result<(), Error>)
      requires Valid()
      modifies this
      ensures r == if id !in old(leases) then Err(NotFound)
                   else if old(leases)[id].persistent then Err(Anchored) else Ok(())
      ensures View() == if r.Ok? then RecycleSlot(options, old(View()), id, now) else old(View())
      ensures Valid()
    {
      if id !in leases {
        return Err(NotFound);
      }
      if leases[id].persistent {
        return Err(Anchored);
      }
      RecycleSlotKeeps(options, View(), id, now);
      var _ := RecycleLocked(id, now);
      return Ok(());
    }

    method Recycle(id: string, now: int, later: int)
      returns (r: Result<Lease, Error>, released: seq<string>, ghost c: Choice)
      requires Valid()
      modifies this
      ensures id in old(leases) && !old(leases)[id].persistent ==>
                AcquireChoice(options, RecycleSlot(options, old(View()), id, now), later, c)
      ensures Step(View(), r, released) == M.Recycle(options, old(View()), id, now, later, c)
      ensures Valid()
    {
      released, c := [], Choice([], None);
      var detached := Detach(id, now);
      if detached.Err? {
        return Err(detached.error), released, c;
      }
      RecycleEffect(options, old(View()), id, now);
      assert Safe(old(View()), id);
      r, released, c := Acquire(id, false, later);
      released := [id] + released;
    }

    /** Plan new addresses for every lease in some order, then move them all. */
    method Reassign(prefix: Option<Cidr>, now: int) returns (r: Result<(), Error>, ghost order: seq<string>)
      requires Valid()
      requires prefix.Some? ==> prefix.value.address < Pow2(Width)
      modifies this
      ensures Enumerates(old(View()), order)
      ensures Step(View(), r, []) == M.Reassign(options, old(View()), prefix, now, order)
      ensures Valid()
    {
      ghost var before := View();
      var made := NewGenerator(prefix);
      if made.Err? {
        order := AnyOrder(leases.Keys);
        r := Err(AddressError(made.error));
        return;
      }
      var plan;
      plan, order := PlanLocked(made.value);
      if plan.Err? {
        r := Err(plan.error);
        return;
      }
      PlanKeys(options, made.value, leases, order);
      CommitLocked(made.value, plan.value, now);
      EnsureStandbysLocked(now);
      assert View() == M.Reassign(options, before, prefix, now, order).state;
      ReassignKeeps(options, before, prefix.value, now, order);
      r := Ok(());
    }

    method HeldAddresses() returns (held: set<Address>)
      ensures held == Addresses(leases)
    {
      held := {};
      var rest := leases.Keys;
      while rest != {}
        invariant rest <= leases.Keys
        invariant forall k :: k in leases && k !in rest ==> leases[k].ipv6 in held
        invariant forall a :: a in held ==> a in Addresses(leases)
        decreases rest
      {
        var k :| k in rest;
        rest := rest - {k};
        held := held + {leases[k].ipv6};
      }
    }

    method PlanLocked(g: Network) returns (r: Result<Plan, Error>, ghost visited: seq<string>)
      requires OptionsOk(options)
      ensures Enumerates(View(), visited)
      ensures r == MakePlan(options, g, leases, visited)
    {
      var reserved: set<Address> := HeldAddresses();
      var order := SomeOrder(leases.Keys);
      visited := order;
      r := PlanInOrder(g, reserved, order);
    }

    /** The planning loop over one order of the map. */
    method PlanInOrder(g: Network, held: set<Address>, order: seq<string>) returns (r: Result<Plan, Error>)
      requires OptionsOk(options) && held == Addresses(leases)
      ensures r == MakePlan(options, g, leases, order)
    {
      var p := Plan(map[], 0, held);
      PlanStarts(options, g, leases, order);
      for n := 0 to |order|
        invariant MakePlan(options, g, leases, order[..n]) == Ok(p)
      {
        var i := FindLocked(g, p.reserved, p.next);
        if i.Err? {
          PlanStops(options, g, leases, order, n, p, i.error);
          return Err(i.error);
        }
        PlanGoesOn(options, g, leases, order, n, p, i.value);
        var a := g.base + i.value;
        p := Plan(p.addresses[order[n] := a], i.value, p.reserved + {a});
      }
      assert order[..|order|] == order;
      return Ok(p);
    }

    method FindLocked(g: Network, reserved: set<Address>, start: nat) returns (r: Result<nat, Error>)
      requires OptionsOk(options)
      ensures r == FindIndex(options, g, reserved, start, 0)
    {
      var next, attempts := start, 0;
      while true
        invariant 0 <= attempts <= options.maxLeases + 1
        invariant FindIndex(options, g, reserved, next, attempts) == FindIndex(options, g, reserved, start, 0)
        decreases options.maxLeases + 1 - attempts
      {
        if attempts > options.maxLeases {
          return Err(Capacity);
        }
        next := next + 1;
        var candidate := FromIndex(g, next);
        if candidate.Err? {
          return Err(AddressError(candidate.error));
        }
        if candidate.value !in reserved {
          return Ok(next);
        }
        attempts := attempts + 1;
      }
    }

    method CommitLocked(g: Network, plan: Plan, now: int)
      requires plan.addresses.Keys == leases.Keys
      modifies this
      ensures View() == Commit(old(View()), g, plan, now)
    {
      generator := g;
      nextIndex := plan.next;
      MoveAllLocked(plan, now);
      AllMoved(old(View()), leases, g, plan, now);
      issued := Addresses(leases);
    }

    /** The commit's loop over the plan. */
    method MoveAllLocked(plan: Plan, now: int)
      requires plan.addresses.Keys == leases.Keys
      modifies this`leases
      ensures MovedBut(old(leases), leases, plan, now, {})
    {
      var rest := plan.addresses.Keys;
      while rest != {}
        invariant rest <= plan.addresses.Keys
        invariant MovedBut(old(leases), leases, plan, now, rest)
        decreases rest
      {
        var id :| id in rest;
        OneMoved(old(leases), leases, plan, now, rest, id);
        rest := rest - {id};
        var current := leases[id];
        current := current.(ipv6 := plan.addresses[id], generation := current.generation + 1);
        if current.role == Client {
          current := current.(createdAt := now, lastUsedAt := now, requests := 0);
        }
        leases := leases[id := current];
      }
    }

    method SetPersistent(id: string, persistent: bool) returns (r: Result<Lease, Error>)
      requires Valid()
      modifies this
      ensures Step(View(), r, []) == M.SetPersistent(old(View()), id, persistent)
      ensures Valid()
    {
      if id !in leases {
        return Err(NotFound);
      }
      UpdateKeeps(options, View(), id, leases[id].(persistent := persistent));
      leases := leases[id := leases[id].(persistent := persistent)];
      return Ok(leases[id]);
    }
  }

  /** NewPool: bad options and a bad prefix are refused before anything is built. */
  method NewPool(o: Options, prefix: Option<Cidr>, now: int) returns (r: Result<Pool, Error>)
    requires prefix.Some? ==> prefix.value.address < Pow2(Width)
    ensures match M.NewPool(o, prefix, now)
            case Ok(s) => r.Ok? && fresh(r.value) && r.value.options == o && r.value.View() == s && r.value.Valid()
            case Err(e) => r == Err(e)
  {
    if !OptionsOk(o) {
      return Err(BadOptions);
    }
    var generator := NewGenerator(prefix);
    if generator.Err? {
      return Err(AddressError(generator.error));
    }
    assert Standbys(Empty(o, generator.value).leases) == {};
    EnsureKeeps(o, Empty(o, generator.value), now);
    var pool := new Pool(o, generator.value, now);
    return Ok(pool);
  }

  /** The choice of the least standby is determined by the leases alone. */
  lemma LeastUnique(leases: map<string, Lease>, p: Option<string>, q: Option<string>)
    requires PicksLeast(leases, p) && PicksLeast(leases, q)
    ensures p == q
  {
    if p.Some? && q.Some? && p != q {
      var a, b := leases[p.value], leases[q.value];
      assert Before(a, b) && Before(b, a);
      if a.port == b.port {
        LessAsymmetric(a.id, b.id);
      }
    }
  }

  /** A least standby exists whenever there is a standby. */
  lemma SomeLeast(leases: map<string, Lease>) returns (pick: Option<string>)
    requires forall k :: k in leases ==> leases[k].id == k
    ensures PicksLeast(leases, pick)
  {
    pick := None;
    var rest := leases.Keys;
    while rest != {}
      invariant rest <= leases.Keys
      invariant pick.None? ==> forall k :: k in leases && k !in rest ==> leases[k].role != Standby
      invariant pick.Some? ==>
                  && pick.value in leases && leases[pick.value].role == Standby
                  && forall k :: k in leases && k !in rest && leases[k].role == Standby && k != pick.value ==>
                       Before(leases[pick.value], leases[k])
      decreases rest
    {
      var k :| k in rest;
      rest := rest - {k};
      if leases[k].role == Standby {
        if pick.None? {
          pick := Some(k);
        } else if k != pick.value {
          BeforeTotal(leases[k], leases[pick.value]);
          if Before(leases[k], leases[pick.value]) {
            forall j | j in leases && j !in rest && leases[j].role == Standby && j != k
              ensures Before(leases[k], leases[j])
            {
              if j != pick.value {
                BeforeTransitive(leases[k], leases[pick.value], leases[j]);
              }
            }
            pick := Some(k);
          }
        }
      }
    }
  }

  lemma SomeOnPort(leases: map<string, Lease>, port: int) returns (pick: Option<string>)
    ensures PicksOnPort(leases, port, pick)
  {
    if key :| OnPort(leases, key, port) {
      pick := Some(key);
    } else {
      pick := None;
    }
  }

  lemma NoPortsAscend(o: Options, s: State)
    requires PortsOk(o, s)
    ensures Ascending(s.freePorts)
  {
  }

  /** Ranging over the keys of a map: each once, in an order nobody chooses. */
  method SomeOrder(keys: set<string>) returns (order: seq<string>)
    ensures forall k :: k in keys <==> k in order
    ensures forall i, j :: 0 <= i < j < |order| ==> order[i] != order[j]
  {
    order := [];
    var rest := keys;
    while rest != {}
      invariant rest <= keys
      invariant forall k :: k in order <==> k in keys && k !in rest
      invariant forall i, j :: 0 <= i < j < |order| ==> order[i] != order[j]
      decreases rest
    {
      var k :| k in rest;
      rest := rest - {k};
      order := order + [k];
    }
  }

  lemma AnyOrder(keys: set<string>) returns (order: seq<string>)
    ensures forall k :: k in keys <==> k in order
    ensures forall i, j :: 0 <= i < j < |order| ==> order[i] != order[j]
  {
    if keys == {} {
      order := [];
    } else {
      var k :| k in keys;
      order := AnyOrder(keys - {k});
      order := order + [k];
    }
  }

  /** Every lease is moved but those still to be done. */
  ghost predicate MovedBut(before: map<string, Lease>, leases: map<string, Lease>, plan: Plan, now: int,
    rest: set<string>) {
    && leases.Keys == before.Keys == plan.addresses.Keys
    && forall k :: k in leases ==>
         leases[k] == if k in rest then before[k] else Moved(before[k], plan.addresses[k], now)
  }

  lemma OneMoved(before: map<string, Lease>, leases: map<string, Lease>, plan: Plan, now: int, rest: set<string>,
    id: string)
    requires MovedBut(before, leases, plan, now, rest) && id in rest && id in plan.addresses
    ensures MovedBut(before, leases[id := Moved(leases[id], plan.addresses[id], now)], plan, now, rest - {id})
  {
  }

  lemma AllMoved(before: State, leases: map<string, Lease>, g: Network, plan: Plan, now: int)
    requires MovedBut(before.leases, leases, plan, now, {})
    ensures leases == Commit(before, g, plan, now).leases
  {
  }

  lemma NextPlanned(o: Options, g: Network, leases: map<string, Lease>, order: seq<string>, n: nat)
    requires n < |order|
    ensures MakePlan(o, g, leases, order[..n + 1]) == PlanNext(o, g, MakePlan(o, g, leases, order[..n]), order[n])
  {
    assert order[..n + 1][..n] == order[..n];
  }

  lemma PlanStarts(o: Options, g: Network, leases: map<string, Lease>, order: seq<string>)
    ensures MakePlan(o, g, leases, order[..0]) == Ok(Plan(map[], 0, Addresses(leases)))
  {
  }

  /** A lease that can be placed joins the plan. */
  lemma PlanGoesOn(o: Options, g: Network, leases: map<string, Lease>, order: seq<string>, n: nat, p: Plan, i: nat)
    requires n < |order| && MakePlan(o, g, leases, order[..n]) == Ok(p)
    requires FindIndex(o, g, p.reserved, p.next, 0) == Ok(i)
    ensures MakePlan(o, g, leases, order[..n + 1])
            == Ok(Plan(p.addresses[order[n] := g.base + i], i, p.reserved + {g.base + i}))
  {
    NextPlanned(o, g, leases, order, n);
    PlanNextOk(o, g, p, order[n], i);
  }

  lemma PlanNextOk(o: Options, g: Network, p: Plan, k: string, i: nat)
    requires FindIndex(o, g, p.reserved, p.next, 0) == Ok(i)
    ensures PlanNext(o, g, Ok(p), k) == Ok(Plan(p.addresses[k := g.base + i], i, p.reserved + {g.base + i}))
  {
  }

  /** Once a lease cannot be placed, the whole plan has failed. */
  lemma PlanStops(o: Options, g: Network, leases: map<string, Lease>, order: seq<string>, n: nat, p: Plan, e: Error)
    requires n < |order| && MakePlan(o, g, leases, order[..n]) == Ok(p)
    requires FindIndex(o, g, p.reserved, p.next, 0) == Err(e)
    ensures MakePlan(o, g, leases, order) == Err(e)
  {
    NextPlanned(o, g, leases, order, n);
    PlanFails(o, g, leases, order[..n + 1], order[n + 1..]);
    assert order[..n + 1] + order[n + 1..] == order;
  }

  /** Once planning has failed, the leases not yet visited do not matter. */
  lemma {:induction false} PlanFails(o: Options, g: Network, leases: map<string, Lease>, order: seq<string>,
    more: seq<string>)
    requires MakePlan(o, g, leases, order).Err?
    ensures MakePlan(o, g, leases, order + more) == MakePlan(o, g, leases, order)
    decreases |more|
  {
    if |more| > 0 {
      var init := more[..|more| - 1];
      PlanFails(o, g, leases, order, init);
      assert (order + more)[..|order + more| - 1] == order + init;
    } else {
      assert order + more == order;
    }
  }
}
