/** What every reachable pool state satisfies, and why each transition keeps it. */
module PoolInvariant {
  import opened Wrappers
  import opened Ids
  import opened Ipv6Addr
  import opened PoolModel

  function Standbys(leases: map<string, Lease>): set<string> {
    set k | k in leases && leases[k].role == Standby
  }

  function Clients(leases: map<string, Lease>): set<string> {
    set k | k in leases && leases[k].role == Client
  }

  ghost predicate Ascending(xs: seq<int>) {
    forall i, j :: 0 <= i < j < |xs| ==> xs[i] < xs[j]
  }

  /** An id that no standby created from now on will be given. */
  ghost predicate Safe(s: State, id: string) {
    forall n: nat :: s.standbySeq < n ==> id != PoolId(n)
  }

  /** Every lease is filed under its own id, which is not empty, and no key collides
      with a future standby. */
  ghost predicate KeysOk(s: State) {
    && "" !in s.leases
    && (forall k :: k in s.leases ==> s.leases[k].id == k)
    && (forall k :: k in s.leases && s.leases[k].role == Standby ==> IsPoolId(k))
    && (forall n: nat :: s.standbySeq < n ==> PoolId(n) !in s.leases)
  }

  /** Lease addresses are pairwise distinct, lie in the prefix and were handed out. */
  ghost predicate AddressesOk(s: State) {
    && (forall k :: k in s.leases ==> InPrefix(s.generator, s.leases[k].ipv6) && s.leases[k].ipv6 in s.issued)
    && (forall j, k :: j in s.leases && k in s.leases && s.leases[j].ipv6 == s.leases[k].ipv6 ==> j == k)
  }

  /** Free ports ascend, leased ports are distinct, no port is both, and together
      they are as many as the range has. Without a range there are no ports at all. */
  ghost predicate PortsOk(o: Options, s: State) {
    if o.portStart == 0 then
      s.freePorts == [] && forall k :: k in s.leases ==> s.leases[k].port == 0
    else
      && Ascending(s.freePorts)
      && (forall p :: p in s.freePorts ==> o.portStart <= p <= o.portEnd)
      && (forall k :: k in s.leases ==>
           o.portStart <= s.leases[k].port <= o.portEnd && s.leases[k].port !in s.freePorts)
      && (forall j, k :: j in s.leases && k in s.leases && s.leases[j].port == s.leases[k].port ==> j == k)
      && |s.freePorts| + |s.leases| == o.portEnd - o.portStart + 1
  }

  ghost predicate CountsOk(o: Options, s: State) {
    s.standbyCount == |Standbys(s.leases)| && s.standbyCount <= o.minLeases
  }

  /** In sequential mode an issued address has an index from 1 to the last one drawn. */
  ghost predicate IndicesOk(o: Options, s: State) {
    o.sequential ==> forall a :: a in s.issued ==> s.generator.base + 1 <= a <= s.generator.base + s.nextIndex
  }

  ghost predicate Inv(o: Options, s: State) {
    KeysOk(s) && AddressesOk(s) && PortsOk(o, s) && CountsOk(o, s) && IndicesOk(o, s)
  }

  // ---------- Sorted port lists ----------

  lemma {:induction false} InsertAscending(xs: seq<int>, x: int)
    requires Ascending(xs) && x !in xs
    ensures Ascending(Insert(xs, x)) && |Insert(xs, x)| == |xs| + 1
    ensures forall y :: y in Insert(xs, x) <==> y in xs || y == x
  {
    if |xs| > 0 && xs[|xs| - 1] > x {
      var init := xs[..|xs| - 1];
      InsertAscending(init, x);
      var last := xs[|xs| - 1];
      assert xs == init + [last];
      AscendingThenLast(Insert(init, x), last);
    }
  }

  lemma AscendingThenLast(r: seq<int>, last: int)
    requires Ascending(r) && forall y :: y in r ==> y < last
    ensures Ascending(r + [last])
  {
    assert forall i :: 0 <= i < |r| ==> r[i] in r;
  }

  ghost predicate NonDecreasing(xs: seq<int>) {
    forall i, j :: 0 <= i < j < |xs| ==> xs[i] <= xs[j]
  }

  lemma {:induction false} InsertSorts(xs: seq<int>, x: int)
    requires NonDecreasing(xs)
    ensures NonDecreasing(Insert(xs, x))
  {
    if |xs| > 0 && xs[|xs| - 1] > x {
      var init, last := xs[..|xs| - 1], xs[|xs| - 1];
      assert xs == init + [last];
      InsertSorts(init, x);
      var r := Insert(init, x);
      forall i | 0 <= i < |r| ensures r[i] <= last {
        assert r[i] in multiset(r);
      }
    }
  }

  /** Sorting yields an ascending permutation. */
  lemma {:induction false} SortIntsSorts(xs: seq<int>)
    ensures NonDecreasing(SortInts(xs)) && multiset(SortInts(xs)) == multiset(xs)
  {
    if |xs| > 0 {
      SortIntsSorts(xs[..|xs| - 1]);
      InsertSorts(SortInts(xs[..|xs| - 1]), xs[|xs| - 1]);
    }
  }

  lemma {:induction false} SortIntsAscending(xs: seq<int>)
    requires Ascending(xs)
    ensures SortInts(xs) == xs
  {
    if |xs| > 0 {
      SortIntsAscending(xs[..|xs| - 1]);
      assert xs == xs[..|xs| - 1] + [xs[|xs| - 1]];
    }
  }

  /** Appending a port and sorting again inserts it in its place. */
  lemma SortAppended(xs: seq<int>, x: int)
    requires Ascending(xs) && x !in xs
    ensures Ascending(SortInts(xs + [x])) && |SortInts(xs + [x])| == |xs| + 1
    ensures forall y :: y in SortInts(xs + [x]) <==> y in xs || y == x
  {
    assert (xs + [x])[..|xs|] == xs;
    SortIntsAscending(xs);
    InsertAscending(xs, x);
  }

  lemma {:induction false} WithoutAscending(xs: seq<int>, x: int)
    requires Ascending(xs) && x in xs
    ensures Ascending(Without(xs, x)) && |Without(xs, x)| == |xs| - 1
    ensures forall y :: y in Without(xs, x) <==> y in xs && y != x
  {
    if xs[0] != x {
      WithoutAscending(xs[1..], x);
      var r := Without(xs[1..], x);
      forall i | 0 <= i < |r| ensures xs[0] < r[i] {
        assert r[i] in r;
      }
    }
  }

  lemma TailAscending(xs: seq<int>)
    requires Ascending(xs) && |xs| > 0
    ensures Ascending(xs[1..])
    ensures forall y :: y in xs[1..] <==> y in xs && y != xs[0]
  {
    assert forall y :: y in xs <==> y == xs[0] || y in xs[1..];
  }

  // ---------- Map cardinalities ----------

  /** Replacing the lease under k by l, filed under l.id. */
  function Replace(leases: map<string, Lease>, k: string, l: Lease): map<string, Lease> {
    (leases - {k})[l.id := l]
  }

  function One(b: bool): int {
    if b then 1 else 0
  }

  lemma SizePut(leases: map<string, Lease>, l: Lease)
    requires l.id !in leases
    ensures |leases[l.id := l]| == |leases| + 1
  {
    assert leases[l.id := l].Keys == leases.Keys + {l.id};
  }

  lemma StandbysPut(leases: map<string, Lease>, l: Lease)
    requires l.id !in leases
    ensures |leases[l.id := l]| == |leases| + 1
    ensures |Standbys(leases[l.id := l])| == |Standbys(leases)| + One(l.role == Standby)
  {
    SizePut(leases, l);
    assert Standbys(leases[l.id := l]) == Standbys(leases) + if l.role == Standby then {l.id} else {};
  }

  lemma StandbysReplace(leases: map<string, Lease>, k: string, l: Lease)
    requires k in leases && (l.id == k || l.id !in leases)
    ensures |Replace(leases, k, l)| == |leases|
    ensures |Standbys(Replace(leases, k, l))|
         == |Standbys(leases)| - One(leases[k].role == Standby) + One(l.role == Standby)
  {
    StandbysRemove(leases, k);
    StandbysPut(leases - {k}, l);
  }

  lemma StandbysRemove(leases: map<string, Lease>, k: string)
    requires k in leases
    ensures |leases - {k}| == |leases| - 1
    ensures |Standbys(leases - {k})| == |Standbys(leases)| - One(leases[k].role == Standby)
  {
    assert (leases - {k}).Keys == leases.Keys - {k};
    assert Standbys(leases - {k}) == Standbys(leases) - {k};
  }

  lemma RolesPartition(leases: map<string, Lease>)
    ensures |leases| == |Standbys(leases)| + |Clients(leases)|
  {
    assert leases.Keys == Standbys(leases) + Clients(leases);
    assert Standbys(leases) !! Clients(leases);
  }

  // ---------- The three ways the map changes ----------

  /** A lease takes the place of another on the same port. */
  ghost predicate Replaces(o: Options, s: State, k: string, l: Lease, s': State) {
    && k in s.leases
    && s'.leases == Replace(s.leases, k, l)
    && l.port == s.leases[k].port
    && (l.id == k || (l.id != "" && l.id !in s.leases && Safe(s', l.id)))
    && (l.role == Standby ==> IsPoolId(l.id))
    && (l.ipv6 == s.leases[k].ipv6 ||
         (!InUse(s.leases, l.ipv6) && InPrefix(s.generator, l.ipv6) && l.ipv6 in s'.issued))
    && s'.freePorts == s.freePorts
    && s'.generator == s.generator
    && s.issued <= s'.issued
    && s.standbySeq <= s'.standbySeq
    && s'.standbyCount == s.standbyCount - One(s.leases[k].role == Standby) + One(l.role == Standby) <= o.minLeases
    && IndicesOk(o, s')
  }

  lemma ReplaceKeeps(o: Options, s: State, k: string, l: Lease, s': State)
    requires Inv(o, s) && Replaces(o, s, k, l, s')
    ensures Inv(o, s') && |s'.leases| == |s.leases|
  {
    StandbysReplace(s.leases, k, l);
    ReplaceKeepsAddresses(o, s, k, l, s');
    ReplaceKeepsPorts(o, s, k, l, s');
    assert KeysOk(s');
  }

  lemma ReplaceKeepsAddresses(o: Options, s: State, k: string, l: Lease, s': State)
    requires AddressesOk(s) && Replaces(o, s, k, l, s')
    ensures AddressesOk(s')
  {
    forall i | i in s'.leases && i != l.id
      ensures i in s.leases && i != k && s'.leases[i] == s.leases[i] && s.leases[i].ipv6 != l.ipv6
    {
    }
  }

  /** The key under which the lease now under i, or the one it replaced, was filed. */
  function Origin(k: string, l: Lease, i: string): string {
    if i == l.id then k else i
  }

  lemma OriginOf(leases: map<string, Lease>, k: string, l: Lease, i: string)
    requires k in leases && l.port == leases[k].port && i in Replace(leases, k, l)
    ensures Origin(k, l, i) in leases && Replace(leases, k, l)[i].port == leases[Origin(k, l, i)].port
    ensures forall j :: j in Replace(leases, k, l) && Origin(k, l, i) == Origin(k, l, j) ==> i == j
  {
  }

  lemma ReplaceKeepsPorts(o: Options, s: State, k: string, l: Lease, s': State)
    requires PortsOk(o, s) && k in s.leases && s'.leases == Replace(s.leases, k, l) && |s'.leases| == |s.leases|
    requires l.port == s.leases[k].port && s'.freePorts == s.freePorts
    ensures PortsOk(o, s')
  {
    forall i | i in s'.leases
      ensures Origin(k, l, i) in s.leases && s'.leases[i].port == s.leases[Origin(k, l, i)].port
      ensures forall j :: j in s'.leases && Origin(k, l, i) == Origin(k, l, j) ==> i == j
    {
      OriginOf(s.leases, k, l, i);
    }
  }

  /** A lease is added on a port that was free. */
  ghost predicate Adds(o: Options, s: State, l: Lease, s': State) {
    && l.id != "" && l.id !in s.leases
    && s'.leases == s.leases[l.id := l]
    && Safe(s', l.id)
    && (l.role == Standby ==> IsPoolId(l.id))
    && !InUse(s.leases, l.ipv6) && InPrefix(s.generator, l.ipv6) && l.ipv6 in s'.issued
    && (if o.portStart == 0 then l.port == 0 && s'.freePorts == s.freePorts
        else l.port in s.freePorts && Ascending(s'.freePorts) && |s'.freePorts| == |s.freePorts| - 1
             && forall p :: p in s'.freePorts <==> p in s.freePorts && p != l.port)
    && s'.generator == s.generator
    && s.issued <= s'.issued
    && s.standbySeq <= s'.standbySeq
    && s'.standbyCount == s.standbyCount + One(l.role == Standby) <= o.minLeases
    && IndicesOk(o, s')
  }

  lemma AddKeeps(o: Options, s: State, l: Lease, s': State)
    requires Inv(o, s) && Adds(o, s, l, s')
    ensures Inv(o, s') && |s'.leases| == |s.leases| + 1
  {
    StandbysPut(s.leases, l);
    assert KeysOk(s');
    assert AddressesOk(s');
    assert PortsOk(o, s');
  }

  lemma DropKeepsPorts(o: Options, s: State, id: string)
    requires OptionsOk(o) && PortsOk(o, s) && id in s.leases && |s.leases - {id}| == |s.leases| - 1
    ensures PortsOk(o, Drop(s, id))
  {
    if o.portStart != 0 {
      var port := s.leases[id].port;
      SortAppended(s.freePorts, port);
      var s' := Drop(s, id);
      assert forall k :: k in s'.leases ==> s'.leases[k].port != port && s'.leases[k].port !in s'.freePorts;
    }
  }

  lemma DropKeeps(o: Options, s: State, id: string)
    requires OptionsOk(o) && Inv(o, s) && id in s.leases
    ensures Inv(o, Drop(s, id)) && |Drop(s, id).leases| == |s.leases| - 1
  {
    var s' := Drop(s, id);
    StandbysRemove(s.leases, id);
    DropKeepsPorts(o, s, id);
    assert KeysOk(s');
    assert AddressesOk(s');
  }

  // ---------- The transitions of the model ----------

  lemma AllocateKeeps(o: Options, s: State)
    requires OptionsOk(o) && Inv(o, s)
    ensures Inv(o, Allocate(o, s).1)
  {
  }

  lemma ConvertKeeps(o: Options, s: State, id: string, a: Address, now: int)
    requires Inv(o, s) && id in s.leases && s.leases[id].role == Client && s.standbyCount < o.minLeases
    requires !InUse(s.leases, a) && InPrefix(s.generator, a) && a in s.issued
    ensures Inv(o, Convert(s, id, a, now)) && |Convert(s, id, a, now).leases| == |s.leases|
  {
    var l := FreshStandby(s, a, s.leases[id].port, now);
    NextIdIsSafe(s, s.standbySeq + 1);
    ReplaceKeeps(o, s, id, l, Convert(s, id, a, now));
  }

  lemma NextIdIsSafe(s: State, m: nat)
    ensures forall n: nat :: m < n ==> PoolId(m) != PoolId(n)
    ensures IsPoolId(PoolId(m))
  {
    forall n: nat | m < n ensures PoolId(m) != PoolId(n) {
      if PoolId(m) == PoolId(n) {
        PoolIdInjective(m, n);
      }
    }
  }

  lemma SeededKeeps(o: Options, s: State, a: Address, now: int)
    requires Inv(o, s) && s.standbyCount < o.minLeases
    requires o.portStart != 0 ==> |s.freePorts| > 0
    requires !InUse(s.leases, a) && InPrefix(s.generator, a) && a in s.issued
    ensures Inv(o, Seeded(o, s, a, now)) && |Seeded(o, s, a, now).leases| == |s.leases| + 1
  {
    var s' := Seeded(o, s, a, now);
    var l := FreshStandby(s, a, if o.portStart != 0 then s.freePorts[0] else 0, now);
    SeededIsAdded(o, s, a, now, l, s');
    AddKeeps(o, s, l, s');
  }

  lemma SeededIsAdded(o: Options, s: State, a: Address, now: int, l: Lease, s': State)
    requires KeysOk(s) && PortsOk(o, s) && IndicesOk(o, s) && s.standbyCount < o.minLeases
    requires o.portStart != 0 ==> |s.freePorts| > 0
    requires !InUse(s.leases, a) && InPrefix(s.generator, a) && a in s.issued
    requires l == FreshStandby(s, a, if o.portStart != 0 then s.freePorts[0] else 0, now) && s' == Seeded(o, s, a, now)
    ensures Adds(o, s, l, s')
  {
    NextIdIsSafe(s, s.standbySeq + 1);
    if o.portStart != 0 {
      TailAscending(s.freePorts);
    }
  }

  lemma {:induction false} EnsureKeeps(o: Options, s: State, now: int)
    requires OptionsOk(o) && Inv(o, s)
    ensures Inv(o, EnsureStandbys(o, s, now))
    decreases o.minLeases - s.standbyCount
  {
    if s.standbyCount < o.minLeases {
      NewStandbyKeeps(o, s, now);
      var (ok, s1) := NewStandby(o, s, now);
      if ok {
        EnsureKeeps(o, s1, now);
      }
    }
  }

  lemma NewStandbyKeeps(o: Options, s: State, now: int)
    requires OptionsOk(o) && Inv(o, s) && s.standbyCount < o.minLeases
    ensures Inv(o, NewStandby(o, s, now).1)
  {
    if !(o.portStart != 0 && |s.freePorts| == 0) {
      AllocateKeeps(o, s);
      match Allocate(o, s)
      case (Err(_), s1) =>
      case (Ok(a), s1) => SeededKeeps(o, s1, a, now);
    }
  }

  lemma RecycleSlotKeeps(o: Options, s: State, id: string, now: int)
    requires OptionsOk(o) && Inv(o, s) && id in s.leases
    ensures Inv(o, RecycleSlot(o, s, id, now))
  {
    if s.leases[id].role != Standby && s.standbyCount < o.minLeases {
      AllocateKeeps(o, s);
      match Allocate(o, s)
      case (Ok(a), s1) => ConvertKeeps(o, s1, id, a, now);
      case (Err(_), s1) => DropAndTopUpKeeps(o, s1, id, now);
    } else {
      DropAndTopUpKeeps(o, s, id, now);
    }
  }

  lemma DropAndTopUpKeeps(o: Options, s: State, id: string, now: int)
    requires OptionsOk(o) && Inv(o, s) && id in s.leases
    ensures Inv(o, EnsureStandbys(o, Drop(s, id), now))
  {
    DropKeeps(o, s, id);
    EnsureKeeps(o, Drop(s, id), now);
  }

  lemma ClaimKeeps(o: Options, s: State, key: string, id: string, persistent: bool, now: int)
    requires Inv(o, s) && key in s.leases && s.leases[key].role == Standby
    requires id == key || (id != "" && id !in s.leases && Safe(s, id))
    ensures Inv(o, Claim(s, key, id, persistent, now)) && |Claim(s, key, id, persistent, now).leases| == |s.leases|
  {
    var s' := Claim(s, key, id, persistent, now);
    ReplaceKeeps(o, s, key, s'.leases[id], s');
  }

  /** Rewriting the bookkeeping of a lease, or its address by a fresh one. */
  lemma UpdateKeeps(o: Options, s: State, id: string, l: Lease)
    requires Inv(o, s) && id in s.leases
    requires l.id == id && l.port == s.leases[id].port && l.role == s.leases[id].role
    requires l.ipv6 == s.leases[id].ipv6 ||
             (!InUse(s.leases, l.ipv6) && InPrefix(s.generator, l.ipv6) && l.ipv6 in s.issued)
    ensures Inv(o, Update(s, id, l)) && |Update(s, id, l).leases| == |s.leases|
  {
    assert s.leases[id := l] == Replace(s.leases, id, l);
    ReplaceKeeps(o, s, id, l, Update(s, id, l));
  }

  lemma RotatedKeeps(o: Options, s: State, id: string, now: int)
    requires OptionsOk(o) && Inv(o, s) && id in s.leases
    ensures Inv(o, Rotated(o, s, id, now).1)
  {
    AllocateKeeps(o, s);
    match Allocate(o, s)
    case (Ok(a), s1) => UpdateKeeps(o, s1, id, Readdressed(s1.leases[id], a, now));
    case (Err(e), s1) =>
  }

  lemma CountedKeeps(o: Options, s: State, id: string, now: int)
    requires Inv(o, s) && id in s.leases
    ensures Inv(o, Counted(s, id, now))
  {
    UpdateKeeps(o, s, id, Counted(s, id, now).leases[id]);
  }

  lemma RefreshKeeps(o: Options, s: State, id: string, persistent: bool, now: int)
    requires OptionsOk(o) && Inv(o, s) && id in s.leases
    ensures Inv(o, Refresh(o, s, id, persistent, now).0)
  {
    var s1 := Presented(s, id, persistent, now);
    if s.leases[id].role == Standby {
      ClaimKeeps(o, s, id, id, persistent, now);
    } else if persistent {
      UpdateKeeps(o, s, id, s.leases[id].(persistent := true));
    }
    RotatingKeeps(o, s1, id, now);
    var (rotation, s2) := Rotating(o, s1, id, now);
    if rotation.Ok? {
      UpdateKeeps(o, s2, id, s2.leases[id].(lastUsedAt := now));
    }
  }

  lemma RotatingKeeps(o: Options, s: State, id: string, now: int)
    requires OptionsOk(o) && Inv(o, s) && id in s.leases
    ensures Inv(o, Rotating(o, s, id, now).1) && id in Rotating(o, s, id, now).1.leases
  {
    RotatedKeeps(o, s, id, now);
  }

  lemma CreateKeeps(o: Options, s: State, id: string, a: Address, port: int, rest: seq<int>, persistent: bool, now: int)
    requires Inv(o, s) && id != "" && id !in s.leases && Safe(s, id)
    requires !InUse(s.leases, a) && InPrefix(s.generator, a) && a in s.issued
    requires if o.portStart == 0 then port == 0 && rest == s.freePorts
             else port in s.freePorts && Ascending(rest) && |rest| == |s.freePorts| - 1
                  && forall p :: p in rest <==> p in s.freePorts && p != port
    ensures Inv(o, Create(s, id, a, port, rest, persistent, now))
    ensures |Create(s, id, a, port, rest, persistent, now).leases| == |s.leases| + 1
  {
    var s' := Create(s, id, a, port, rest, persistent, now);
    AddKeeps(o, s, s'.leases[id], s');
  }
}
