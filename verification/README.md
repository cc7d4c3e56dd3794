# ipv6-proxy-pool: a verified model

The program hands out IPv6 addresses of one prefix as leases, each with a SOCKS5 port of its
own in per_ipv6 mode, keeps a floor of ready standby leases, sweeps idle ones, and moves all
of them when the prefix changes. This project models the lease pool, the listener manager, the
handlers that join them, the startup of the always-on ports, both ends of the SOCKS5 dialogue
and the address generator, and proves what they keep in every run.

`dafny verify dfyconfig.toml` checks everything.

## How it is built

| file | what it holds |
|---|---|
| `Wrappers.dfy`, `Ids.dfy` | optional values, results; decimal rendering and generated ids |
| `Ipv6Addr.dfy` | 128-bit arithmetic and the generator |
| `PoolModel.dfy` | one function per pool operation, on a state value |
| `Pool.dfy` | the pool as one object; every method is proved to do what its function says |
| `PoolInvariant.dfy`, `PoolSteps.dfy`, `PoolReassign.dfy` | the invariant and the effect of each step |
| `PoolRuns.dfy`, `PoolTheorems.dfy`, `PoolRecycle.dfy` | runs of any operations, and the theorems about them |
| `PoolOutcomes.dfy`, `PoolAllocation.dfy` | what each operation answers and leaves behind, with every comparison and threshold written out; how often an allocation tries, and where the indices go on |
| `Listener.dfy`, `ListenerObject.dfy`, `ListenerService.dfy` | the listener manager under all interleavings, its object, and how its steps show in the program |
| `Service.dfy`, `Program.dfy` | pool, listeners and handlers together: steps and runs, and the object that performs them |
| `ServiceOutcomes.dfy`, `ServiceRuns.dfy` | what a handler, a connection and a sweep do to the lease they are about and to everybody else's; what stays served over whole runs |
| `Config.dfy`, `Startup.dfy` | the configuration checks, the always-on ports and their rollback |
| `Witnesses.dfy`, `SweepWitness.dfy` | runs in which the unguarded limits are crossed, or a sweep gets in the way |
| `Socks5.dfy`, `Socks5Connection.dfy`, `Socks5Dialogue.dfy`, `Socks5Verdicts.dfy` | the SOCKS5 messages, the two ends that read and write them, the dialogue, and which bytes make either end accept |

What the pool cannot control is an input: the random source is an arbitrary function from the
number of draws to a host or a failure, the clock is a parameter of every operation, and the
order in which Go ranges over the lease map is an arbitrary `Choice`, constrained only by what
Go guarantees. A theorem for all of these is a theorem about every behaviour.

Four hypotheses appear where a theorem needs them; any other condition can be told from the state
before the call and is part of the statement:

- *Ids.* A client id is not one that a later standby will be given: `Safe(s, id)`, that is, not
  `pool-<n>` with n above the current sequence number. Only the bounds on clients ask for more,
  that a client id is not of the form `pool-<n>` at all. A standby is filed under its generated id
  without a look. When a new one is created, another lease is overwritten and its port lost
  exactly when the id is taken (`StandbyOverwrites`); when a client is converted, exactly when the
  id is taken by a lease other than that client (`ConversionOverwrites`); `ClientOverwritten`
  shows it happen to the first client of a new pool.
- *Addresses.* No allocation failed: the history counter `failures` is the same before and
  after. It counts every error return of nextAddressLocked.
- *Atomic handlers.* In `Service` each handler, connection and sweep is one step, with the
  release hooks it runs. The hook runs outside the pool's lock, so a sweep racing with a
  handler is outside this claim. One step does not even end in the program: a connection whose
  own lease is swept (`ConnectServed`, `ConnectionCostsTheLease`) runs the hook that stops its
  listener, Stop waits for that listener's Serve (internal/listener/manager.go:141-142), and
  Serve waits for this connection (internal/socks5/server.go:76-89).
- *No integer overflow.* Counters and indices are unbounded.

Where the code does less than one would expect, or than its comments say, the exact condition
is proved; the lemmas of `Witnesses` and `SweepWitness` named below show from a new pool that its
failing side occurs:

- The standby floor is topped up without a look at max_leases. After the release of a standby
  and after a prefix change the total can exceed it: `ReleaseOfStandbyTotal` and
  `ReassignTotal`, with `StandbyReleaseExceeds` and `ReassignExceeds`.
- The capacity test precedes the search for a standby. Recycle fails, and the id is gone, exactly
  when the total it will find, once the client is gone and whoever is idle is swept, is at the
  limit: `RecycleRenews`, with `RecycleLosesTheClient`. With min_leases equal to max_leases, which
  the configuration checks accept, no client is ever served while no allocation fails, although
  every lease is a ready standby: `FullFloorServesNobody`, `FullFloorRefuses`.
- Recycle is documented to give a different port. In a call that sweeps no other client, which is
  told before it (`OthersIdle`), the client has its old port back exactly when that is the least
  on offer (`RecycledPort`, with `RecycleKeepsThePort`), and its old address exactly when there is
  no floor and the random source draws it again (`RecycledAddress`, with `RecycleKeepsTheAddress`).
  A call that sweeps others can give the old address back with a floor as well
  (`AddressComesBack`); with sequential addresses no call ever does (`RecycledInSequence`).
- A connection to a running listener can cost that listener its own lease: `ConnectServed`, with
  `ConnectionCostsTheLease`.
- Always-on ports find less room than max_leases suggests, none at all with min_leases equal to
  it: `StartupAdequate`; `FittingHasRoom` is the simple rule that is enough.
- createLease trusts any id that has a lease, also a standby's: `CreateAgrees`, with
  `CreateForStandby`.
- A client that took the name of an always-on port can keep its listener on another port:
  `AlwaysOnNameTaken`, with `AlwaysOnClashes`.
- ProbeProxy's comment says that the handshake exercises lease acquisition. A handshake-only
  probe succeeds even when the server could not acquire a lease: `HandshakeOnlyIgnoresTheLease`.
- The probe's length bytes and port are truncated without a check: `LeaseIdFits` and
  `RequestFits` give the exact sizes for which the server sees what was meant.

## Model

| member | source | states |
|---|---|---|
| Ids.ItoaInjective | internal/lease/pool.go:528-529 | decimal renderings of different sequence numbers differ |
| Ids.ItoaDenotes | internal/lease/pool.go:528-529 | the rendering is decimal: digits that denote the number, without leading zeros |
| Ids.PoolIdInjective | internal/lease/pool.go:528-529 | no two standbys ever get the same generated id |
| Ids.PortIdIsNoPoolId | cmd/ipv6-proxy-pool/main.go:193 | an always-on port's lease name is never a generated id |
| Ids.LessTotal | internal/lease/pool.go:419-435 | the id order that breaks ties between standbys is total |
| Ids.LessIsLexicographic | internal/lease/pool.go:419-435 | one id is before another exactly if they agree up to a position where it ends or has the smaller character |
| Ipv6Addr.NewGenerator | internal/ipv6addr/generator.go:19-41 | accepts exactly the IPv6 prefixes of length 1 to 127 that are not IPv4-mapped; the base is aligned and the configured address lies in the prefix |
| Ipv6Addr.FromHost | internal/ipv6addr/generator.go:66-72 | or-ing the host into the base and padding to sixteen bytes is addition of base and host |
| Ipv6Addr.FromIndex | internal/ipv6addr/generator.go:53-59 | an index below the size of the prefix gives base plus index, any other an error |
| Ipv6Addr.MaskedBase | internal/ipv6addr/generator.go:31-40 | masking clears exactly the host bits |
| Ipv6Addr.ClearedIsBase | internal/ipv6addr/generator.go:31-40 | what is left is the aligned base of a block within 128 bits that the configured address belongs to |
| Ipv6Addr.PaddedValue | internal/ipv6addr/generator.go:66-72 | the sixteen-byte big-endian padding keeps the value |
| Ipv6Addr.GeneratorBijection | internal/ipv6addr/generator.go:44-72 | hosts below the bound and addresses of the prefix correspond one to one |
| Ipv6Addr.ContainsIsMembership | internal/ipv6addr/generator.go:62-64 | Contains is membership in the prefix, except for IPv4-mapped addresses |
| Ipv6Addr.GeneratedAddressesShareThePrefix | internal/ipv6addr/generator.go:53-72 | every generated address has the network part of the configured prefix |
| PoolModel.NextAddress | internal/lease/pool.go:563-592 | an address handed out is in the prefix and held by nobody; a failure changes nothing but the draws |
| PoolModel.FindIndex | internal/lease/pool.go:633-648 | an index found is beyond the last one, inside the prefix and reserved by nobody |
| PoolInvariant.SortIntsSorts | internal/lease/pool.go:683-686 | what sort.Ints returns is ascending when ports are distinct |
| PoolInvariant.RolesPartition | internal/lease/pool.go:319-323 | every lease is a client's or a standby, never both |
| PoolInvariant.DropKeeps | internal/lease/pool.go:674-688 | destroying a lease returns its port in order and keeps all invariants |
| PoolInvariant.RecycleSlotKeeps | internal/lease/pool.go:453-478 | recycling keeps all invariants, converted or destroyed |
| PoolInvariant.ClaimKeeps | internal/lease/pool.go:405-415 | claiming a standby keeps all invariants and the number of leases |
| PoolInvariant.EnsureKeeps | internal/lease/pool.go:506-512 | topping up the floor keeps all invariants |
| LeasePool.SearchInts | internal/lease/pool.go:234 | binary search returns the insertion point |
| LeasePool.SearchIsMembership | internal/lease/pool.go:234-237 | on ascending ports the insertion point is the port's position exactly when the port is free, and cutting it out removes that port only |
| LeasePool.NewPool | internal/lease/pool.go:89-126 | refuses exactly a max_leases that is not positive, a min_leases outside 0 to max_leases, negative timeouts, a port range that is not 1 to 65535 and ascending or has fewer ports than max_leases, and a prefix that is missing, IPv4-mapped or not of length 1 to 127; otherwise the new pool satisfies the invariant |
| LeasePool.Pool.constructor | internal/lease/pool.go:114-125 | the port list is the whole range, then the floor is seeded |
| LeasePool.Pool.IsUsed | internal/lease/pool.go:581-587 | tells whether some lease holds the address |
| LeasePool.Pool.NextAddressLocked | internal/lease/pool.go:563-592 | draws until an unused address, at most the bounded number of times |
| LeasePool.Pool.NewStandbyLocked | internal/lease/pool.go:515-540 | refines NewStandby: least free port, next generated id |
| LeasePool.Pool.EnsureStandbysLocked | internal/lease/pool.go:506-512 | refines EnsureStandbys: tops up until the floor, the ports or the addresses end |
| LeasePool.Pool.ReleaseLocked | internal/lease/pool.go:674-688 | the lease is gone, its port is back in ascending order, the standby count follows |
| LeasePool.Pool.RecycleLocked | internal/lease/pool.go:453-478 | refines RecycleSlot: conversion in place while standbys are short, destruction and top-up otherwise |
| LeasePool.Pool.ReleaseIdleLocked | internal/lease/pool.go:482-501 | refines the sweep for some order of the map that visits every lease; IdleReleased says what that releases |
| LeasePool.Pool.ClaimLocked | internal/lease/pool.go:405-415 | the standby becomes the client's lease on the same port and address |
| LeasePool.Pool.TakeStandbyLocked | internal/lease/pool.go:419-435 | takes the standby with the least port, then id, whatever the map order |
| LeasePool.Pool.TakeStandbyOnPortLocked | internal/lease/pool.go:439-447 | takes the standby on this port exactly if there is one |
| LeasePool.Pool.RotateLocked | internal/lease/pool.go:598-609 | refines Rotated: new address and generation, or nothing |
| LeasePool.Pool.NewEntryLocked | internal/lease/pool.go:542-561 | the least free port leaves the list, or port 0 if there is none |
| LeasePool.Pool.Acquire | internal/lease/pool.go:142-187 | refines Acquire on every input and keeps the invariant for ids of clients; AcquireKnown and AcquireUnknown say what that gives |
| LeasePool.Pool.AcquireSweptLocked | internal/lease/pool.go:152-186 | known id, capacity, standby, new entry, in that order |
| LeasePool.Pool.AcquirePort | internal/lease/pool.go:192-255 | refines AcquirePort on every input and keeps the invariant for ids of clients; AcquirePortKnown and AcquirePortUnknown say what that gives |
| LeasePool.Pool.AcquirePortSweptLocked | internal/lease/pool.go:202-254 | known id on this port, capacity, standby on the port, free port, in that order |
| LeasePool.Pool.RecordRequest | internal/lease/pool.go:259-277 | refines RecordRequest; RequestCounted says what that counts and when it rotates |
| LeasePool.Pool.Release | internal/lease/pool.go:328-336 | true exactly for an existing id, whose hook runs; refines recycling |
| LeasePool.Pool.ReleaseIdle | internal/lease/pool.go:341-348 | returns the number of released leases |
| LeasePool.Pool.Rotate | internal/lease/pool.go:352-364 | refines Rotate, with ErrNotFound for an unknown id |
| LeasePool.Pool.Recycle | internal/lease/pool.go:370-387 | refines Recycle: persistent leases are refused, otherwise released and acquired anew |
| LeasePool.Pool.Reassign | internal/lease/pool.go:617-672 | refines Reassign: plans in some order of the map, then commits all or nothing |
| LeasePool.Pool.SetPersistent | internal/lease/pool.go:390-400 | sets the flag of an existing lease |
| LeasePool.LeastUnique | internal/lease/pool.go:419-435 | the standby taken does not depend on the map order |
| PoolSteps.RecycleEffect | internal/lease/pool.go:453-478 | removes its lease whatever the addresses do, adds only fresh standbys, and determines the counts when no allocation fails |
| PoolSteps.SweepEffect | internal/lease/pool.go:489-499 | after any visited prefix of the map the released ids are the visited idle ones, each once |
| PoolSteps.ReleaseIdleEffect | internal/lease/pool.go:482-501 | a sweep releases only idle clients, and what is new is a fresh standby |
| PoolSteps.AcquireSweptEffect | internal/lease/pool.go:152-186 | serving an id leaves every other client's lease as it was |
| PoolSteps.AcquirePortSweptEffect | internal/lease/pool.go:202-254 | the same on a given port, and success is on that port |
| PoolSteps.EnsureAdds | internal/lease/pool.go:506-512 | topping up only adds standbys and stops, if no allocation fails, exactly at the floor or at the last port |
| PoolReassign.ReassignAllOrNothing | internal/lease/pool.go:617-672 | with at most max_leases leases the attempt bound never fires; it succeeds exactly when the prefix has enough usable indices, uses at most 2n of them, moves every lease to a new distinct address and otherwise changes nothing |
| PoolReassign.ReassignKeeps | internal/lease/pool.go:617-672 | with any number of leases it keeps the invariant and moves all of them or none |
| PoolReassign.SearchCounts | internal/lease/pool.go:633-648 | a search ends at the next usable index, or proves that there is none within its tries or in the prefix |
| PoolReassign.BoundNeedsHits | internal/lease/pool.go:634-646 | the attempt bound can only fire when more addresses are taken than max_leases |
| PoolAllocation.ReassignGoesOn | internal/lease/pool.go:656-671 | after a prefix change the indices go on behind the last lease moved, one for each standby topped up |
| PoolRuns.NewPoolKeeps | internal/lease/pool.go:89-126 | a new pool satisfies the invariant and, if no allocation failed, the floor |
| PoolOutcomes.NewPoolStarts | internal/lease/pool.go:89-126 | the exact options and prefixes that give a pool, and that it starts with new standbys only |
| PoolRuns.AlwaysInv | internal/lease/pool.go:139-672 | in every state of every run: keys consistent, addresses distinct and in the prefix, ports conserved, standby count exact |
| PoolRuns.ResidentFloor | internal/lease/pool.go:482-512 | in every state of every run without failed allocation the total is at least min_leases |
| PoolTheorems.PortPartition | internal/lease/pool.go:121-123 | free and leased ports partition the configured range |
| PoolTheorems.NeverPortZero | internal/lease/pool.go:549-553 | in port mode no lease of any run has port 0, and there are never more leases than ports |
| PoolTheorems.StandbyOverwrites | internal/lease/pool.go:528-537 | creating a standby conserves leases and ports exactly when its generated id is not taken; otherwise the lease there is overwritten and its port is neither free nor leased |
| PoolTheorems.ConversionOverwrites | internal/lease/pool.go:459-470 | the same for a conversion, where nothing is lost when the taken id is the one being recycled |
| Witnesses.ClientOverwritten | internal/lease/pool.go:528-537 | the first client of a new pool takes the next generated id; once a standby is released its lease is a standby's and its old port neither free nor leased |
| PoolTheorems.CapacityAlways | internal/lease/pool.go:172-186 | at most max_leases clients and min_leases standbys in every state of every run |
| PoolTheorems.TotalAlways | internal/lease/pool.go:172-186 | the total stays within max_leases in every run without prefix change, release of a standby and failed allocation |
| PoolTheorems.ReleaseOfStandbyTotal | internal/lease/pool.go:474-477 | releasing a standby ends above max_leases exactly when the standbys topped up do not fit |
| PoolTheorems.ReassignTotal | internal/lease/pool.go:656-671 | a prefix change ends above max_leases exactly when the standbys topped up do not fit |
| PoolTheorems.FullFloorServesNobody | internal/lease/pool.go:172-179 | with min_leases equal to max_leases, and while no allocation fails, no step of any run makes anybody a client |
| PoolTheorems.FullFloorRefuses | internal/lease/pool.go:172-174 | with min_leases equal to max_leases, and while no allocation fails, every fresh id is refused in every state of every run |
| Witnesses.ReassignExceeds | internal/lease/pool.go:656-671 | a run from a new pool in which a prefix change takes two leases to three, above the capacity of two |
| Witnesses.StandbyReleaseExceeds | internal/lease/pool.go:474-477 | a run from a new pool after which releasing a standby takes three leases to four, above the capacity of three |
| Witnesses.RecycleLosesTheClient | internal/lease/pool.go:370-387 | a run from a new pool after which Recycle answers ErrCapacity and the client is gone |
| PoolTheorems.PersistentSurvives | internal/lease/pool.go:390-400 | a persistent client lease keeps id, port and flag through every run that neither releases it nor clears the flag |
| PoolTheorems.DrainLeavesTheFloor | internal/lease/pool.go:328-336 | releasing all clients in any order leaves exactly min_leases leases, all standbys |
| PoolTheorems.SweepOutcome | internal/lease/pool.go:482-501 | for every map order the released ids are the idle clients, none is left, and the counts are min(m, s+k) standbys and max(0, k-(m-s)) fewer leases |
| PoolOutcomes.IdleReleased | internal/lease/pool.go:482-501 | for every map order, a lease is released exactly if the timeout is on, the pool is above its floor, and it is a client's, not persistent, and was last used the timeout ago or earlier; each once, the others unchanged |
| PoolOutcomes.SweepReady | internal/lease/pool.go:453-501 | every lease a sweep leaves is as before or a standby created in it: unused, not persistent, its clocks at the time of the sweep |
| PoolOutcomes.ClientReleased | internal/lease/pool.go:328-336 | releasing a client gives its port to one new standby on an address nobody had while standbys are short, and otherwise frees the port |
| PoolTheorems.AcquireSlot | internal/lease/pool.go:172-186 | below capacity a fresh id gets the least standby port if there is a standby and the least free port otherwise |
| PoolTheorems.StandbyOrFree | internal/lease/pool.go:225-241 | a port is a standby's or free exactly when it is in the range and no client holds it |
| PoolTheorems.AcquirePortExact | internal/lease/pool.go:225-254 | below capacity AcquirePort succeeds exactly when the port is in the range and no client holds it, on that port |
| PoolTheorems.AcquirePortSucceeds | internal/lease/pool.go:192-255 | for every id, the exact condition for success, sweep included, that can be checked before the call |
| PoolOutcomes.AcquireKnown | internal/lease/pool.go:157-170 | a client whose lease survives the sweep is served, on another address exactly when rotate_after is set and its age has reached it (then its clocks and count restart) and otherwise on the same with its count; used now, pinned if asked for; a rotation that fails leaves the lease as it was |
| PoolOutcomes.AcquirePortKnown | internal/lease/pool.go:207-223 | the same on the lease's own port; on any other port the answer is ErrPortUnavailable and the lease is left alone |
| PoolOutcomes.AcquireStandbysId | internal/lease/pool.go:157-170 | an id that is a standby's own takes over that standby, port and address, and nothing is rotated |
| PoolOutcomes.AcquirePortStandbysId | internal/lease/pool.go:207-223 | the same on that standby's port |
| PoolOutcomes.AcquireUnknown | internal/lease/pool.go:142-187 | an id without a lease, or whose idle lease is swept: refused exactly when the sweep leaves the pool full, otherwise given the standby first by port and id, or a new address on the least free port, with every field of the new lease and what is left of the pool |
| PoolOutcomes.AcquirePortUnknown | internal/lease/pool.go:192-255 | the same on a given port: the standby there or a new address, ErrPortUnavailable otherwise |
| PoolOutcomes.AcquireSweeps | internal/lease/pool.go:142-187 | whoever is served and however it ends, of the other clients exactly the overdue ones are released, and the rest stay as they are |
| PoolOutcomes.AcquirePortSweeps | internal/lease/pool.go:192-255 | the same on a given port |
| PoolOutcomes.Refusals | internal/lease/pool.go:142-400 | an empty id, and for the other operations an id without a lease, is refused with its error and changes nothing |
| PoolOutcomes.FlagDecides | internal/lease/pool.go:390-400 | the flag is set and returned, and it alone decides whether the lease can become overdue; nobody else's changes |
| PoolOutcomes.RequestCounted | internal/lease/pool.go:259-277 | below the threshold a request adds one to the count and touches the clock, nothing else; from the threshold on the lease has an address nobody had and starts anew; if no address is to be had the request stays counted |
| PoolOutcomes.RequestsRotate | internal/lease/pool.go:259-277 | over any number of requests: changes of address times the threshold, plus the count, is the number of requests, and the count stays below the threshold |
| PoolRecycle.ConvertedSlot | internal/lease/pool.go:459-473 | a conversion to a standby leaves the replaced address held by nobody |
| PoolRecycle.RandomAllocation | internal/lease/pool.go:563-592 | in random mode the address handed out is the first unused one drawn, and there is one exactly when it comes within the budget and before a failed draw |
| PoolAllocation.AllocationTries | internal/lease/pool.go:563-592 | the budget is 2 * max_leases + 257 draws, and ErrCapacity is the answer exactly when each of them hits a lease |
| PoolAllocation.DistinctDrawsSuffice | internal/lease/pool.go:563-592 | draws that do not repeat always suffice while there are fewer leases than tries |
| PoolRecycle.RecycleRenews | internal/lease/pool.go:370-387 | for every client that may go, every floor and every sweep in between, while no allocation fails: Recycle succeeds exactly when the total it will find is below the capacity, which is told before the call; then the same id is served and the totals follow, otherwise the id is gone |
| PoolRecycle.RecycleKeepsTotals | internal/lease/pool.go:370-387 | while standbys are short and no other client is idle, it succeeds exactly below the capacity and leaves both totals as they were |
| PoolOutcomes.RecycleAnswers | internal/lease/pool.go:370-387 | unknown and persistent ids are refused without a change; otherwise the id is the first the hook is called with, and a lease returned is a new client's, not persistent |
| PoolRecycle.RecycledAddress | internal/lease/pool.go:366-387 | when no other client is idle or nothing is swept, both told before the call, and no allocation fails: the address is another one, except without a floor exactly when the random source draws the old one before any other unused |
| PoolRecycle.RecycledInSequence | internal/lease/pool.go:366-387 | with sequential addresses it is another one in every call, sweeps and failed allocations included |
| SweepWitness.AddressComesBack | internal/lease/pool.go:366-387 | three clients of a new pool with a floor of two: the sweep inside Recycle converts an idle lease onto the recycled client's old address, and the client gets it back |
| Witnesses.RecycleKeepsThePort | internal/lease/pool.go:366-387 | the only client of a new pool has its port back, with another address |
| Witnesses.RecycleKeepsTheAddress | internal/lease/pool.go:366-387 | without a floor and with a random source that repeats itself, the only client of a new pool has its address back |
| PoolRecycle.RecycledPort | internal/lease/pool.go:366-387 | when no other client is idle or nothing is swept, and no allocation fails: the port is the old one exactly when it is the least on offer |
| PoolTheorems.RotationMoves | internal/lease/pool.go:598-609 | a rotation gives an address of the prefix that nobody held, its own included, restarts the clocks and the count, and leaves the rest alone |
| PoolTheorems.SequentialAllocation | internal/lease/pool.go:563-592 | in sequential mode the collision retry never fires: the next index is handed out, or refused exactly when it leaves the prefix |
| PoolTheorems.SequentialNeverRepeats | internal/lease/pool.go:563-592 | between prefix changes an address given up is never leased again |
| ListenerManager.OnlyOwnersUnlink | internal/listener/manager.go:94-104 | an entry leaves the map only by its own serve, a Stop of its id or Close, never by an older entry's late serve |
| ListenerManager.OneLiveEntryPerLease | internal/listener/manager.go:63-85 | after any interleaving a lease id has at most one live entry, the one in the map |
| ListenerManager.WaitGroupCounts | internal/listener/manager.go:86-98 | the wait group counts exactly the unfinished serve goroutines |
| ListenerManager.StopWaitsForServe | internal/listener/manager.go:130-144 | Stop returns nil only after that entry's Serve has ended |
| ListenerManager.CloseReachesEveryListener | internal/listener/manager.go:148-166 | when Close waits, no goroutine is left inside Serve with a socket that nobody closes |
| ListenerManager.ClosedForever | internal/listener/manager.go:65-166 | once Close has returned the map is empty, all goroutines have ended, and it stays so |
| ListenerManager.AlwaysInv | internal/listener/manager.go:65-166 | the invariant behind these holds after every interleaving |
| ListenerObject.Listeners.Start | internal/listener/manager.go:65-92 | starts exactly when open, not cancelled, id non-empty and not running, and bound |
| ListenerObject.Listeners.Unlink | internal/listener/manager.go:99-103 | deletes its own entry only and leaves newer ones |
| ListenerObject.Listeners.Take | internal/listener/manager.go:131-139 | takes the entry out of the map, or reports that there is none |
| ListenerObject.Listeners.CloseTaken | internal/listener/manager.go:141 | closes the socket of the entry taken |
| ListenerObject.Listeners.CloseDone | internal/listener/manager.go:96 | the done channel is closed after the critical section |
| ListenerObject.Listeners.WgDone | internal/listener/manager.go:95 | the wait group is decremented last and never below zero |
| ListenerObject.Listeners.Empty | internal/listener/manager.go:150-157 | marks the manager closed and moves every entry to the batch to close |
| ListenerService.StepShows | internal/listener/manager.go:65-166 | how each interleaved step of the manager shows in the running listeners and their ports |
| ListenerService.InterleavingsAgree | internal/listener/manager.go:65-166 | any interleaving keeps the agreement with the pool while only leases of the pool are given listeners |
| Service.ListenersAgreeWithLeases | cmd/ipv6-proxy-pool/main.go:80-90 | in every state of every run each running listener has a client lease under its id on exactly its port |
| Service.CreateAgrees | internal/admin/server.go:444-499 | for every id, createLease with its rollback keeps the agreement exactly unless it starts a listener for the lease of a standby |
| ServiceOutcomes.LeaseReused | internal/admin/server.go:466-499 | for an id that has a lease the pool stays as it is, and the answer is that lease exactly if its listener ran or could be bound |
| ServiceOutcomes.LeaseCreated | internal/admin/server.go:466-499 | for a new id success is a new client lease with its listener on its port, and failure, a listener that cannot be bound included, leaves neither; other clients lose a lease or a listener only by being overdue |
| Service.RecycleAgrees | internal/admin/server.go:587-613 | recycleLease keeps the agreement although the hook runs in the middle |
| ServiceOutcomes.RecycleRefused | internal/admin/server.go:587-613 | unknown and persistent ids are refused and nothing changes |
| ServiceOutcomes.LeaseRecycled | internal/admin/server.go:587-613 | success is a new client lease with its listener on its port; if the pool refuses, the id has neither; if only the listener fails, the lease stays without one; any other listener stops exactly if its lease is gone |
| ServiceOutcomes.RecycleSparesOthers | internal/lease/pool.go:370-387 | of the other clients exactly those lose their lease that are idle once the id is released and the pool above its floor |
| Service.DeleteAgrees | internal/admin/server.go:541-562 | deleteLease keeps the agreement, whichever way it ends |
| ServiceOutcomes.LeaseDeleted | internal/admin/server.go:541-562 | deleting succeeds exactly for a lease with a running listener; then both are gone, everybody else's are as they were, and there is one standby more or one lease fewer; otherwise nothing changes |
| Service.ConnectAgrees | internal/socks5/server.go:111-154 | a connection keeps the agreement even when it sweeps and re-creates its own idle lease |
| ServiceOutcomes.ConnectionCounted | internal/socks5/server.go:111-154 | in port mode a connection is served by its listener's lease, presented again or new on that port, with one request more exactly if the destination answered; everybody else is as a sweep leaves them |
| ServiceOutcomes.IdleSwept | internal/admin/server.go:564-566 | a sweep takes exactly the overdue leases and stops exactly their listeners |
| Service.ConnectServed | internal/socks5/server.go:111-127 | in port mode, while no allocation fails, a connection to a running listener finds a lease exactly unless its own idle lease is swept into a pool that stays full; then lease and listener are gone |
| SweepWitness.ConnectionCostsTheLease | internal/socks5/server.go:111-127 | two createLease calls on a new program, and the next connection to the first listener ends with neither lease nor listener |
| Witnesses.CreateForStandby | internal/admin/server.go:466-493 | on a new pool createLease for the id of a ready standby loses the agreement |
| Service.AlwaysOnNameTaken | cmd/ipv6-proxy-pool/main.go:192-213 | starting an always-on port loses the agreement exactly when, before the call, a client of that name listens elsewhere, its idle lease is about to be swept, the sweep leaves room and the port is open |
| Service.AlwaysOnAgrees | cmd/ipv6-proxy-pool/main.go:192-213 | otherwise it keeps the agreement, failed allocations included |
| ServiceOutcomes.PortStarted | cmd/ipv6-proxy-pool/main.go:192-213 | in port mode, while no allocation fails, a round succeeds exactly if the listener binds, no listener of that name runs and the port is to be had; then a persistent client lease is on that port with its listener |
| ServiceRuns.StaysUp | cmd/ipv6-proxy-pool/main.go:80-90 | in port mode a persistent lease with a running listener keeps both through every run in which nobody deletes it, unpins it, undoes it or kills the listener |
| ServiceRuns.StartedStaysUp | cmd/ipv6-proxy-pool/main.go:165-217 | from a checked configuration to any later state: an always-on port that was started is served until somebody takes it down |
| ServiceRuns.StartupSpares | cmd/ipv6-proxy-pool/main.go:180-215 | starting the always-on ports, rolled back or not, leaves alone a persistent lease and its listener that were there before, even under an always-on port's name |
| Witnesses.AlwaysOnClashes | cmd/ipv6-proxy-pool/main.go:192-213 | a client called port-2 on port 1 of a new program, idle when the always-on port 2 is started, keeps its listener on port 1 |
| Program.Server.RunHooks | cmd/ipv6-proxy-pool/main.go:80-90 | after a pool call exactly the listeners of released ids without a lease are stopped |
| Program.Server.CreateLease | internal/admin/server.go:444-499 | refines the step: existing lease reused, new lease released again if its listener cannot start |
| Program.Server.DeleteLease | internal/admin/server.go:541-562 | refines the step of LeaseDeleted: nothing happens without lease or listener |
| Program.Server.RecycleLease | internal/admin/server.go:587-613 | refines the step, with the hook between the halves of Recycle |
| Program.Server.Connect | internal/socks5/server.go:111-154 | refines the step, keeping the agreement: the lease is re-acquired on the listener's port, then the request is recorded |
| Program.Server.SweepIdle | internal/admin/server.go:564-566 | refines the step: sweep, then hooks |
| Program.Server.RollBack | cmd/ipv6-proxy-pool/main.go:182-189 | stops the started listeners and releases the created leases, last first |
| Program.Server.StartPort | cmd/ipv6-proxy-pool/main.go:192-213 | one round: acquire on the port, remember a new lease, start the listener |
| Program.Server.StartSOCKSListeners | cmd/ipv6-proxy-pool/main.go:165-217 | refines StartPorts: the rounds in order, everything undone at the first failure |
| Config.Validate | internal/config/config.go:120-200 | accepts exactly the sound configurations, and otherwise reports the first problem in the order of the checks |
| Config.SoundWrittenOut | internal/config/config.go:120-200 | what sound means, every bound, length and uniqueness condition written out |
| Config.CheckAlwaysOn | internal/config/config.go:162-171 | every always-on port is in the range and none is there twice |
| Config.CheckTokens | internal/config/config.go:181-196 | every token has a trimmed name of its own and at least eight bytes |
| Config.TrimmedIsTheMiddle | internal/config/config.go:184 | trimming cuts off white space at the ends and nothing else |
| Config.ValidatedPoolStarts | internal/config/config.go:120-200 | a configuration that passes always passes the checks of NewPool |
| Startup.RoundAcquires | cmd/ipv6-proxy-pool/main.go:192-201 | below the capacity, and while no allocation fails, each always-on port gets its own persistent lease and nothing is swept |
| Startup.StartOrRollBack | cmd/ipv6-proxy-pool/main.go:180-215 | while no allocation fails, the loop ends with every port served exactly when every listener binds and each port finds a total below the capacity, and otherwise with the bare floor |
| Startup.StartupAdequate | cmd/ipv6-proxy-pool/main.go:165-217 | every checked configuration starts its pool; while no allocation fails all always-on ports are served exactly when every listener binds and min_leases plus the earlier ports above the floor's stay below max_leases, which the configuration tells; otherwise all is rolled back to exactly min_leases standbys, no client and no listener |
| Startup.FittingHasRoom | cmd/ipv6-proxy-pool/main.go:180-215 | min_leases plus always-on ports within max_leases is enough |
| Socks5Connection.ContainsMethod | internal/socks5/server.go:338-345 | tells whether the method is in the list |
| Socks5Connection.Connection.AcceptGreeting | internal/socks5/server.go:161-214 | refines Negotiate: result, bytes left and bytes written; MethodAnswered and CredentialsSelect say what those are |
| Socks5Connection.Connection.AcceptCredentials | internal/socks5/server.go:216-240 | refines ReadCredentials |
| Socks5Connection.Connection.AcceptRequest | internal/socks5/server.go:242-289 | refines ReadConnectRequest, with the reply to an unsupported request |
| Socks5Connection.Connection.WriteReply | internal/socks5/server.go:291-314 | appends the reply, four address bytes for IPv4 and IPv4-mapped, sixteen otherwise |
| Socks5Connection.Connection.ServeConn | internal/socks5/server.go:100-150 | refines Serve up to the relay, with the replies to each failure and the failure to record after the reply |
| Socks5Connection.Connection.ProbeProxy | internal/socks5/probe.go:50-105 | refines Probe: handshake, then request unless only the handshake is wanted |
| Socks5Connection.Connection.SkipReplyAddress | internal/socks5/probe.go:169-190 | refines DrainReplyAddress |
| Socks5Dialogue.ServeExtends | internal/socks5/server.go:100-144 | the server's verdict depends only on the bytes it consumed; later bytes stay unread |
| Socks5Dialogue.ProbeExtends | internal/socks5/probe.go:50-105 | the same for the probe |
| Socks5Dialogue.ServerNeedsEveryByte | internal/socks5/server.go:161-289 | no strict prefix of what the server reads to its end satisfies it |
| Socks5Dialogue.ProbeNeedsEveryByte | internal/socks5/probe.go:50-105 | no strict prefix of what the probe reads to its end satisfies it |
| Socks5Dialogue.CredentialsRoundTrip | internal/socks5/server.go:216-240 | section 2 of RFC 1929: credentials are accepted exactly when they are the encoding of this pair, followed by exactly the bytes left |
| Socks5Dialogue.ConnectRoundTrip | internal/socks5/server.go:242-289 | section 4 of RFC 1928: a request is accepted exactly when it is the encoding of this destination, followed by exactly the bytes left |
| Socks5Verdicts.RequestAnswers | internal/socks5/server.go:100-150 | the reply to everything that can follow a good handshake: 0x01 without reading the request if no lease is to be had, 0x07 and 0x08 for other commands and address types, 0x05 if the destination does not answer, 0x00 otherwise, and whom and what the server then serves |
| Socks5Verdicts.RefusalIsReply | internal/socks5/server.go:291-314 | a refusal names 0.0.0.0 and port 0 |
| Socks5Verdicts.Success | internal/socks5/server.go:291-314 | the success reply byte by byte: four address bytes for IPv4 and IPv4-mapped, sixteen otherwise, and the port in network order |
| Socks5Dialogue.RequestFits | internal/socks5/probe.go:86-93 | the probe's request names its host and port exactly for hosts of 1 to 255 bytes and 16-bit ports |
| Socks5Dialogue.GreetingRead | internal/socks5/server.go:161-187 | section 3 of RFC 1928: a greeting with any methods is read exactly and answered with the chosen one |
| Socks5Verdicts.MethodAnswered | internal/socks5/server.go:161-187 | a multiplex server answers 0x02 when that is offered and else 0x00, a fixed listener 0x00 when that is offered and else 0x02; 0xff, with a refusal, exactly when neither is offered |
| Socks5Verdicts.CredentialsSelect | internal/socks5/server.go:196-240 | a user name selects what follows the bytes of "lease:" if there is anything, and otherwise the bytes of "user:" and the name; an empty user name is refused before a password is read |
| Socks5Verdicts.MultiplexServes | internal/socks5/server.go:161-240 | the exact inputs from which a multiplex server learns an identity, and which; so a password alone never selects one |
| Socks5Verdicts.FixedServes | internal/socks5/server.go:188-195 | a fixed listener serves its own lease whatever name is presented |
| Socks5Dialogue.LeaseIdFits | internal/socks5/probe.go:68-73 | a multiplex server selects the lease asked for exactly when its id has at most 249 bytes |
| Socks5Dialogue.ReplyTailDrained | internal/socks5/probe.go:169-190 | section 6 of RFC 1928: the probe drops exactly the reply's address when that has 4 or 16 bytes, and never otherwise |
| Socks5Dialogue.ServerHears | internal/socks5/server.go:100-144 | from all the probe says the server selects the wanted lease, this host and port, and leaves no byte |
| Socks5Dialogue.ProbeHears | internal/socks5/probe.go:50-105 | from all the server says the probe succeeds exactly when the server did, and leaves no byte |
| Socks5Verdicts.ProbeAccepts | internal/socks5/probe.go:50-105 | the exact answers that satisfy the probe: a version 5 method that is not 0xff, status 0 if it authenticated, and with a host one complete reply of code 0 with a known address type |
| Socks5Dialogue.DialogueInSync | internal/socks5/probe.go:50-105 | however the bytes are cut up, neither side says anything else and an early verdict is the final one |
| Socks5Dialogue.DialogueSettles | internal/socks5/probe.go:50-105 | the dialogue comes to rest only when all has been said, with both sides agreeing |
| Socks5Dialogue.AnyDialogueFinishes | internal/socks5/probe.go:50-105 | from every point three rounds of delivery bring it to rest |
| Socks5Dialogue.HandshakeOnlyIgnoresTheLease | internal/socks5/probe.go:26-31 | a probe without an egress host succeeds whether or not the lease was acquired |

## Left out

- Lease entries are values in the map, not references: a method that updates an entry writes it back. The caller's copies and aliasing are not modelled.
- A Go range over a map may also visit keys added during the loop; the order of the sweep allows it, the other loops add no keys.
- Go's uint64 wrap-around of nextIndex, standbySeq, requests and generation: the model's are unbounded. `now.Sub` saturates in Go and is exact here.
- Locks, blocking and goroutine scheduling: pool methods and handlers are atomic, and the listener manager is cut into its critical sections and blocking operations.
- Program.Server.Start: an open listener manager; a closed or cancelled one refuses, as ListenerService.StepShows states.
- ListenerManager.Do: the steps of Start, serve, Stop and Close are on values, since they interleave; ListenerObject has the sections as methods of one object, but nothing runs them concurrently.
- LeasePool.Pool.Acquire: the release hook is not called inside the pool; the released ids are returned and the caller runs the hooks.
- Socks5Connection.Connection.ServeConn: the pool's answers and the dialled address are inputs, lease ids are bytes, and writes to the connection succeed; Program.Server.Connect has the pool's side of a fixed-lease connection.
- Config.Validate: listen addresses and the prefix are given as parsed, secrets by their length in bytes.
- PoolRecycle.RecycledAddress: calls in which other clients are swept and addresses are random; which lease ends up with which drawn address then depends on the map order.
- PoolRecycle.RecycledPort: calls in which other clients are swept; which of their ports are on offer then depends on the map order.
- Startup.StartupAdequate: the admin server is already up while the always-on ports are started; no request comes in between.
- Get, List, ListAll, StandbyCount, Info and the listener manager's Get and List only copy state.
- Relay, deadlines, HTTP, the egress request and the parsing of its answer.
- `net.ParseCIDR`, IP text formatting, `JoinHostPort`: addresses are numbers and parsed prefixes are inputs.
- Live mode switching through saveConfig, JSON, file saving, sessions and tokens.
- Randomness quality and the wall clock: arbitrary inputs.
- The client program, the web console and the deployment files.
