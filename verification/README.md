# Verified model of the VPN control plane

A Dafny model of the control plane in `server/api` and of the forward firewall
in `server/nft`. A node hands out tunnel leases and keeps four stores in step:
the address pools, the session table, the tunnel backends and the state file.

| file | content |
|---|---|
| `Ipam.dfy`, `PoolFacts.dfy`, `PoolReuse.dfy`, `Ipv6.dfy` | the round-robin address pool over 32-bit words, what it promises, how late an address is reused, the paired IPv6 address |
| `Sessions.dfy`, `Throughput.dfy` | sessions, the locked session table, telemetry sampling |
| `Lifecycle.dfy`, `LifecycleSafety.dfy` | the lease lifecycle as a transition system, one step per locked call, and its invariant over all interleavings |
| `LeaseAccounting.dfy`, `BackendAgreement.dfy`, `FailedRemovals.dfy`, `Capacity.dfy`, `Reaping.dfy`, `SelfLoad.dfy` | properties of whole runs |
| `Restart.dfy`, `Dormant.dfy`, `Crash.dfy` | planned restarts, protocols switched off and on again, a process that dies while it runs |
| `Scenarios.dfy`, `Handling.dfy`, `App.dfy` | whole requests as runs, concrete runs that go wrong, and the handlers as code over the live objects |
| `RateLimit.dfy`, `RateLog.dfy`, `RateEviction.dfy` | the token bucket, its meaning as a rule on the request log, eviction |
| `SessionIds.dfy`, `Fleet.dfy`, `Routing.dfy` | session ids, the node registry, stateless forwarding between nodes |
| `ForwardChain.dfy`, `Firewall.dfy` | the forward chain as a first-match rule list, runs with connection tracking |
| `RawDump.dfy`, `ShellConfig.dfy` | the strongSwan dump reader, the shell configuration printer |
| `Results.dfy`, `Collections.dfy`, `Arithmetic.dfy` | outcome types, facts about collections and division |

The lifecycle interleaves freely: each step is one call that holds one lock, and
a history variable per session id says how far its connect or removal has come.
`App.App` is the sequential counterpart. Its methods are written over the live
pool, table and session objects, and each handler proves that what it did is a
run of lifecycle steps (`Reaches`), so the results about runs hold of it.

## What is assumed

- Session ids are fresh. `SessionIds.IdsAreDistinct` reduces this to fresh
  random bytes and distinct sanitized node names.
- Results that mention `Reliable` need backend commands to do what they report:
  a removal leaves no entry (for OpenVPN it is gone before the revocation that
  can fail), and a refused add has left none (a client that hangs up can stop
  `wg set` after it took effect, and a failed strongSwan reload is not undone).
  The source only logs the failures and releases the address anyway.
  `FailedRemovals.IsolatedIff` does without the hypothesis: over every run,
  clients are isolated in every state exactly when each address, of a removal
  or of a refused connect, is released only after the last entry its session
  wrote is gone. `Scenarios.FailedRemovalSharesAddress` is a run in which it is not.
- A WireGuard interface routes an address to one peer: adding a peer takes the
  address away from any other (`Lifecycle.Upserted`). The entries of OpenVPN
  and IKEv2 do not influence one another.
- Two WireGuard clients may present one public key. Isolation holds regardless.
  Backends and table agree in every state of a run exactly when no connect of
  the run writes over an entry it finds under its key
  (`BackendAgreement.RunWrittenIff`, `BackendAgreement.MirrorsIff`). Unshared
  keys are enough for that (`UnsharedNeverOverwrites`) but not necessary
  (`SharedKeyMayBeHarmless`); `Scenarios.SharedKeyLosesPeer` is a run with an
  overwrite.
- A restart finds the backends as they were left, also those of protocols it no
  longer runs. `Restart.RestoresIff` says exactly which state files, written by
  this program or not, restore to a state in which sessions and leases match.
  Sessions of a disabled protocol stay in the table and leave it like any
  other, but nobody removes their backend entries. When the protocol is
  enabled again on the same block, its clients are isolated exactly when no
  session that had an entry was ended meanwhile (`Dormant.ReenabledIff`);
  `Dormant.DisabledSharesAddress` is a run in which one was.
- A persist takes its snapshot and writes it in two steps, and persists of
  several handlers may overlap. After any crash sessions and leases match
  (`Crash.AnyCrash`). The file of a settled node lists its table as long as no
  write comes after that of a later snapshot (`Crash.SettledFileLists`), which
  the source does not prevent (`Crash.LateWriteSharesAddress`). Telemetry does
  not persist, so a session restored after a crash may look unused for longer
  than it was.
- Pools are built for prefixes /1 to /30. At /0 the block size is zero in 32
  bits, and `PoolFacts.SlashZeroHasNoOffsets` with `Ipam.Pool.Allocate` says
  that such a pool never hands anything out.
- The clock does not run back, where a lemma says so. Times and rates are reals.
- Firewall runs: no RELATED packets; for `ClientsStayIsolated`, also no packet
  to or from an address of the host itself in the forward hook, which
  `CrossingExact` shows to be exactly what is needed; and for DNS, tunnel
  sources on tunnel interfaces. Each hypothesis has a lemma showing a run that
  breaks the result without it.

## Where the code and its documentation differ

- `server/api/internal/fleet/registry.go` describes its views as having the own
  node first; the code keeps the file's order (`Fleet.SelfComesFirstIff`).
- `server/docs/ARCHITECTURE.md` says that a session call is forwarded when its
  prefix is not the node's own; the code takes the first matching registry
  entry, which can be another node even for the node's own sessions
  (`Fleet.PicksOwnerIff`, `Routing.RelatedIdsLoop`).

## Model

| member | source | states |
|---|---|---|
| Ipam.Pool.constructor | server/api/internal/ipam/pool.go:56-71 | a new pool holds exactly its three reserved addresses, with the cursor on the first offset |
| Ipam.Pool.Allocate | server/api/internal/ipam/pool.go:79-98 | the scan returns the first free offset in cyclic order from the cursor and moves the cursor past it; it fails exactly when nothing is free, changing nothing; a /0 pool always fails |
| Ipam.Pool.Reserve | server/api/internal/ipam/pool.go:102-115 | refused exactly for an address held by someone else (or none at all); idempotent for the same owner; no range check |
| Ipam.Pool.Release | server/api/internal/ipam/pool.go:118-126 | takes the address out whoever owns it; an unknown address changes nothing |
| Ipam.AddModulo | server/api/internal/ipam/pool.go:85-92 | the 32-bit sum modulo the block size is the true cyclic offset: it cannot wrap for blocks of at most half the word |
| PoolFacts.NewConfigAccepts | server/api/internal/ipam/pool.go:30-62 | a pool is accepted exactly for an IPv4 block of /0 to /30 whose gateway is strictly inside; from /1 on its 32-bit bounds are the block's |
| PoolFacts.NetworkIsBase | server/api/internal/ipam/pool.go:30-45 | the network is the multiple of the block size at or below the written address |
| PoolFacts.SlashZeroHasNoOffsets | server/api/internal/ipam/pool.go:43-43 | at /0 the block size wraps to zero |
| PoolFacts.NewPoolValid | server/api/internal/ipam/pool.go:64-71 | a new pool is valid and nothing is in use |
| PoolFacts.AllocatesUsable | server/api/internal/ipam/pool.go:79-98 | an allocated address is never network, broadcast or gateway, was free, and raises InUse by one |
| PoolFacts.AllocatesDeterministic | server/api/internal/ipam/pool.go:79-98 | leases and cursor determine the next address |
| PoolFacts.AllocationIsNearest | server/api/internal/ipam/pool.go:83-96 | in plain arithmetic: the address lies k places past the cursor modulo the block size, every place before it is the network's or taken, and the cursor ends one place further |
| PoolFacts.ExhaustedIsFull | server/api/internal/ipam/pool.go:83-98 | exhaustion means that every address after the network's is taken |
| PoolFacts.Occupancy | server/api/internal/ipam/pool.go:128-138 | 0 <= InUse <= Capacity, and a pool is exhausted exactly when InUse is Capacity, exactly when every usable address is leased |
| PoolFacts.ReleasedValid | server/api/internal/ipam/pool.go:118-126 | releasing keeps the pool in order exactly when the address is not a reserved one |
| PoolFacts.ReservedValid | server/api/internal/ipam/pool.go:102-115 | reserving keeps the pool in order exactly when it was refused or the address is in the block |
| PoolFacts.OutOfBlockReserveOverflows | server/api/internal/ipam/pool.go:102-138 | an out-of-block reservation can push InUse past Capacity |
| PoolReuse.AllocationSweeps | server/api/internal/ipam/pool.go:83-96 | an allocation passes over leased offsets only, so the sweep since an address was handed out goes on without gaps |
| PoolReuse.ReuseIsLate | server/api/internal/ipam/pool.go:79-98 | over any run of pool calls, between two allocations of one address every other usable address was leased at some moment |
| Ipv6.WordRoundTrip | server/api/internal/ipam/pool.go:172-180 | an address survives the trip through its 32-bit word, both ways, most significant byte first |
| Ipv6.DeriveAccepts | server/api/internal/ipam/pool.go:148-170 | which inputs are accepted; the result is a genuine IPv6 address that agrees with the prefix on all its bits and ends in the IPv4 address |
| Ipv6.DeriveInjective | server/api/internal/ipam/pool.go:148-170 | distinct leases get distinct IPv6 addresses |
| Sessions.Session.Sample | server/api/internal/session/store.go:57-84 | both rates against the previous reading, zero for a fallen counter or no elapsed time, and the new baseline and history |
| Sessions.Store.Put | server/api/internal/session/store.go:113-117 | adds or replaces one session |
| Sessions.Store.Get | server/api/internal/session/store.go:119-124 | finds exactly the stored session |
| Sessions.Store.Delete | server/api/internal/session/store.go:126-134 | takes out and returns a session at most once |
| Sessions.Store.Touch | server/api/internal/session/store.go:136-142 | moves one session's last-seen time and nothing else |
| Sessions.Store.Count | server/api/internal/session/store.go:154-158 | the number of stored sessions |
| Sessions.Store.CountByProtocol | server/api/internal/session/store.go:162-172 | the loop counts exactly the sessions of the protocol |
| Sessions.Store.ExpireIdle | server/api/internal/session/store.go:178-190 | takes out and returns exactly the sessions last seen before the cutoff, each once |
| Sessions.Store.Persist | server/api/internal/session/store.go:197-230 | the snapshot lists every session once, in whatever order the map is walked |
| Sessions.Store.Load | server/api/internal/session/store.go:234-267 | the table afterwards is the file's records over what was there, and the returned sessions are the file's, in order |
| Throughput.RatesTelescope | server/api/internal/session/store.go:57-84 | with increasing times, reported Mbps times elapsed seconds sum to 8/10^6 times the counter's positive increments |
| Throughput.RateMeans | server/api/internal/session/store.go:62-72 | one reported rate: zero without an earlier reading, without elapsed time or for a fallen counter, and otherwise eight bits per byte over the seconds, in millions |
| Throughput.MonotoneGrowth | server/api/internal/session/store.go:57-84 | for a counter that never falls the increments sum to last minus first |
| Throughput.HistoryIsNewest | server/api/internal/session/store.go:75-82 | the history is always the last 16 or fewer reported downloads, in order |
| LifecycleSafety.StepKeepsLeases | server/api/internal/httpapi/handlers.go:139-183 | every step, whether or not backend commands succeed, keeps leases and claims matched one to one |
| LifecycleSafety.StepKeepsPins | server/api/internal/httpapi/server.go:279-315 | every step with a successful backend removal keeps each backend entry owned by the session that wrote it |
| LifecycleSafety.RunKeepsInv | server/api/internal/httpapi/server.go:233-315 | the whole invariant holds over every interleaving of connects, disconnects and reaps |
| LifecycleSafety.AlwaysIsolated | server/api/internal/httpapi/handlers.go:139-183 | in every reachable state no two entries of one backend pin the same address, and every pinned address is leased in that pool to the session that pinned it, even with shared public keys |
| LifecycleSafety.AlwaysIsolatedV6 | server/api/internal/httpapi/handlers.go:149-173 | nor do two entries' paired IPv6 addresses coincide |
| LeaseAccounting.TakenAndReleasedOnce | server/api/internal/httpapi/handlers.go:380-385 | a session enters the table at most once, is taken out by exactly one of disconnect and reaper, and its removal ends exactly once |
| LeaseAccounting.SkipsOnlyWithoutPool | server/api/internal/httpapi/server.go:279-315 | that end is the release of its address, unless this node has no pool of the protocol |
| LeaseAccounting.ReleasesOwnAddress | server/api/internal/ipam/pool.go:118-126 | no release of a run frees an address that by then belongs to another session |
| LeaseAccounting.Conservation | server/api/internal/httpapi/handlers.go:242-267 | a pool's leases are exactly its sessions, its connects holding an address and its removals not yet released, each at its own address |
| LeaseAccounting.InUseCountsHolders | server/api/internal/ipam/pool.go:128-132 | InUse is the number of those sessions, connects and removals |
| LeaseAccounting.QuietInUse | server/api/internal/session/store.go:162-172 | with nothing in flight InUse is the session count of the pool's protocols, UDP and TCP together |
| BackendAgreement.RunWrittenIff | server/api/internal/wireguard/manager.go:78-107 | what the sessions wrote is there in every state of a run exactly when no connect of the run writes over an entry it finds under its key |
| BackendAgreement.MirrorsIff | server/api/internal/wireguard/manager.go:78-107 | with nothing in flight, every backend holds exactly the stored sessions' keys and addresses if and only if everything written is still there |
| BackendAgreement.QuietAgreement | server/api/internal/wireguard/manager.go:78-107 | after a run without overwrites and with nothing in flight that is so, and there are as many entries as the pool has in use |
| BackendAgreement.UnsharedNeverOverwrites | server/api/internal/httpapi/handlers.go:126-173 | a run whose connects present no key in use writes over nothing |
| BackendAgreement.RunKeepsAgreement | server/api/internal/httpapi/handlers.go:126-173 | so backends and table agree after every such run |
| BackendAgreement.SharedKeyMayBeHarmless | server/api/internal/httpapi/handlers.go:126-173 | unshared keys are not necessary: a connect that presents a key in use and is turned away overwrites nothing |
| FailedRemovals.IsolatedIff | server/api/internal/httpapi/server.go:279-315 | whatever backend commands fail and however the steps interleave, clients are isolated in every state of a run exactly when each release, after a removal or after a refused connect, finds no entry of its session left |
| FailedRemovals.OwnedIsHeld | server/api/internal/httpapi/server.go:279-315 | the invariant of the runs without failures gives that theorem's starting condition |
| FailedRemovals.FailedRemovalIsolatesIff | server/api/internal/httpapi/server.go:282-291 | at the first failed removal, with its release right after it, clients stay isolated exactly when the entry had been overwritten before |
| FailedRemovals.StaleEntryIsShared | server/api/internal/httpapi/server.go:282-291 | once a stale entry's address is next in line, the following connect shares it, or for WireGuard takes it away from the stale peer |
| Scenarios.StartIsSound | server/api/internal/httpapi/server.go:83-138 | a freshly started node satisfies every invariant |
| Scenarios.ConnectLeads | server/api/internal/httpapi/handlers.go:108-217 | an undisturbed connect adds one lease, one backend entry and one session, and nothing else |
| Scenarios.RemoveLeads | server/api/internal/httpapi/server.go:279-315 | an undisturbed removal takes away the session, its lease and, if the command works, its backend entry |
| Scenarios.RemovedMeans | server/api/internal/httpapi/server.go:279-315 | field by field: exactly the session, its address in its protocol's pool and, if the command worked, its entry under its key are gone |
| Scenarios.SkipLeads | server/api/internal/httpapi/server.go:279-315 | removing a session of a protocol this node does not run only takes it out of the table |
| Scenarios.SharedKeyLosesPeer | server/api/internal/wireguard/manager.go:78-107 | two clients of a fresh node with one key: when the first leaves, the second is stored without a peer entry |
| Scenarios.FailedRemovalSharesAddress | server/api/internal/httpapi/server.go:303-313 | on a fresh node a failed removal of an IKEv2 configuration can make two clients share an address |
| Capacity.CapHolds | server/api/internal/httpapi/handlers.go:80-86 | sessions plus connects past the check never exceed cap - 1 + k with k connects in flight; a sequential server never exceeds its cap |
| Capacity.ZeroCapDrains | server/api/internal/httpapi/handlers.go:80-86 | a cap of zero admits nobody |
| Capacity.BoundIsReached | server/api/internal/httpapi/handlers.go:80-86 | the bound is tight: with one place left any number of connects pass the check |
| Reaping.LiveSessionSurvives | server/api/internal/session/store.go:136-142 | a session touched at least every ttl and not disconnected survives every reap |
| Reaping.TouchMeans | server/api/internal/session/store.go:136-142 | a touch sets one stored session's last-seen time to the clock and nothing else |
| Reaping.IdleSessionIsCleanedUp | server/api/internal/httpapi/server.go:233-245 | a session never touched again is gone from table, pool and the backend of any protocol the node runs, once a reap begun more than ttl later has completed |
| Restart.TableRoundTrip | server/api/internal/session/store.go:197-267 | loading a snapshot gives the same table, whatever order it was written in |
| Restart.LastRecordCounts | server/api/internal/session/store.go:248-267 | of several records with one id the last one is restored |
| Restart.RestartRoundTrip | server/api/internal/httpapi/server.go:156-194 | from a state with nothing in flight, persist and restore in a new process with empty pools rebuild the same table and the same address-to-owner maps, and the invariant holds again |
| Restart.RestartWithFewerProtocols | server/api/internal/httpapi/server.go:170-194 | a restart that disables protocols keeps the table, every backend entry, and the invariant for the protocols still running |
| Restart.RestoresIff | server/api/internal/httpapi/server.go:156-194 | exactly which state files restore to matching sessions and leases: every restored session of a pool was the first in the file to ask for its address, a usable one, and still has it |
| Dormant.RunEntriesIff | server/api/internal/httpapi/server.go:170-174 | over every run in which a protocol is off, its entries stay claimed by stored sessions exactly when no session that has one is ended |
| Dormant.ReenabledIff | server/api/internal/httpapi/server.go:170-194 | off by one restart and on by the next: the protocol's clients are isolated afterwards exactly when every session ended in between had no entry |
| Dormant.ReenabledMatches | server/api/internal/httpapi/server.go:170-194 | sessions and leases match after it in any case |
| Dormant.DisabledSharesAddress | server/api/internal/httpapi/server.go:303-313 | a run of restart, disconnect and restart after which the next client is given a pinned address |
| Crash.AnyCrash | server/api/internal/session/store.go:192-230 | whenever the process dies, sessions and leases match in its successor, and a protocol's clients are isolated exactly when every entry's session is in the file with that address |
| Crash.SettledFileLists | server/api/internal/httpapi/handlers.go:180-183 | as long as no write overtakes a later one, the file of a node with no change unsaved lists its table, times of last use aside |
| Crash.LastWriteIff | server/api/internal/session/store.go:201-230 | the write that settles a node leaves the latest snapshot on disk exactly when it does not replace a later one, or fails when that is there already |
| Crash.SettledCrashResumes | server/api/internal/httpapi/server.go:156-194 | a crash with nothing in flight and persists in order is resumed like a planned restart: the invariant, the same sessions apart from times of last use, the same address-to-owner maps |
| Crash.StartIsOk | server/api/internal/httpapi/server.go:156-168 | a process that restored a file fulfils the conditions of those results |
| Crash.LateWriteSharesAddress | server/api/internal/session/store.go:201-230 | two overlapping persists, the earlier snapshot written last: after a crash a connected client's address is given to another |
| SelfLoad.LoadMeansFull | server/api/internal/httpapi/server.go:255-277 | the load lies within 0..100 without clamping, and is 100 exactly when no pool has a free address |
| SelfLoad.LoadIsShare | server/api/internal/httpapi/server.go:255-277 | in plain numbers: the leased addresses as a percentage of all peer addresses, rounded down, zero without pools |
| Handling.TurnedAwaySteps | server/api/internal/httpapi/handlers.go:139-146 | a connect that finds its pool exhausted is a run that changes no store |
| Handling.RolledBackReaches | server/api/internal/httpapi/handlers.go:153-173 | a connect whose pairing or backend failed is a run that leaves only the cursor moved, and the entry if the failed command took effect |
| Handling.ReapedNext | server/api/internal/httpapi/server.go:238-240 | one iteration of the reap loop is an unpin and a release, or nothing for a protocol that is off, and extends the set of cleaned-up sessions by one |
| Handling.ReapReaches | server/api/internal/httpapi/server.go:233-245 | a whole reap is a run of the lifecycle |
| Handling.ReapKeeps | server/api/internal/httpapi/server.go:233-245 | a session outlives a reap exactly if it was last seen at the cutoff or later, and unchanged |
| Handling.ReapCleans | server/api/internal/httpapi/server.go:238-240 | each session that goes gives back its address and, unless its command failed, its entry |
| Handling.ReachesKeepsInv | server/api/internal/httpapi/server.go:233-315 | whatever a handler does with commands that do what they report keeps the invariant and isolation |
| App.App.BuildPools | server/api/internal/httpapi/server.go:83-138 | one new pool per enabled protocol, no two the same, or an error exactly when some configuration is unusable |
| App.StartsIff | server/api/internal/httpapi/server.go:67-151 | what starting takes, on the configuration alone: an IPv4 block of /0 to /30 per protocol with its gateway strictly inside, the identity for WireGuard, the registry |
| App.ProcessMeans | server/api/internal/httpapi/server.go:54-138 | what the new process holds: cap and timeout, empty tables, each pool unused on its own block |
| App.ProcessRestores | server/api/internal/session/store.go:234-237 | the state file counts only if one is configured |
| App.App.StartNode | server/api/internal/httpapi/server.go:54-161 | a process starts exactly when all its pools can be built and identity and registry can be loaded, with objects of its own, in the state that restoring the file over new pools gives |
| App.App.RestoredIsValid | server/api/internal/httpapi/server.go:152-161 | with blocks of /1 to /30 it is in order, and its handlers can be called, exactly when the file restores |
| App.App.StartFresh | server/api/internal/httpapi/server.go:54-161 | with blocks of /1 to /30, empty backends and no file it starts in order |
| App.App.TakeLease | server/api/internal/httpapi/handlers.go:139-146 | the locked pool call is the lifecycle's lease step |
| App.App.AddPeer | server/api/internal/wireguard/manager.go:82-92 | the backend command is an upsert under the client's key, which takes a WireGuard address away from other peers |
| App.App.FailPeer | server/api/internal/ikev2/manager.go:105-120 | a refused command that took effect leaves the entry, any other leaves the backend alone |
| App.App.RemovePeer | server/api/internal/wireguard/manager.go:97-107 | removal by key, idempotent; a failure changes nothing |
| App.App.Settle | server/api/internal/httpapi/handlers.go:149-183 | with the lease taken, the session is published exactly when pairing and backend agree, and otherwise the lease is given back, whether or not the refused command took effect |
| App.App.HandleConnect | server/api/internal/httpapi/handlers.go:80-105 | condition by condition on the inputs: when the answer is full, unknown protocol, bad key or unavailable, and when the client is connected; then its record has the minted id, this node, the protocol, its own or the generated key and the given times, its address is the next free one of the protocol's pool, and its entry pins it; otherwise table and leases stay; in every case a run of the lifecycle, a reliable one unless a refused command took effect |
| App.App.ReleaseSession | server/api/internal/httpapi/server.go:279-315 | per protocol, backend removal and then release, the release even after a failed removal; nothing for a protocol this node does not run, and an address that is none is skipped |
| App.App.HandleDisconnect | server/api/internal/httpapi/handlers.go:380-390 | ends a stored session once and completely; an unknown or already ended id changes nothing; a session of a protocol that is off only leaves the table |
| App.App.ReapIdle | server/api/internal/httpapi/server.go:233-245 | afterwards a session is stored exactly if it was before and was last seen no longer than the timeout ago, unchanged; the addresses of the others are free and their entries removed except where the command failed; a run of the lifecycle |
| App.App.HandleTelemetry | server/api/internal/httpapi/handlers.go:405-452 | touches and samples exactly the named session; what the server sent is the client's download; the health by report and handshake age |
| App.HealthMeans | server/api/internal/httpapi/handlers.go:405-452 | connecting for a client the backend does not know, degraded for a WireGuard handshake over three minutes old, and optimal otherwise |
| App.App.ComputeSelfLoad | server/api/internal/httpapi/server.go:255-277 | the reported percentage, 100 exactly when no address is free |
| App.App.Restore | server/api/internal/httpapi/server.go:156-194 | the loop over the state file gives exactly the restarted state of the round trip, with the file's ids used up |
| App.App.Shutdown | server/api/internal/httpapi/server.go:249-253 | the file written lists the whole table; without a state path, or when the write fails, there is none |
| App.App.RestartPlanned | server/api/internal/httpapi/server.go:247-253 | shutdown and a new process on the same blocks: if the file was written, the new node is in order with the same sessions, the same address-to-owner maps, and the invariant |
| RateLimit.Limiter.Allow | server/api/internal/ratelimit/limiter.go:46-72 | one request against its key's bucket, with a sweep after an admitted request |
| RateLimit.Limiter.MaybeSweep | server/api/internal/ratelimit/limiter.go:77-87 | drops exactly the buckets idle for over half an hour, at most every ten minutes |
| RateLimit.Configured | server/api/internal/ratelimit/limiter.go:29-42 | non-positive settings fall back to 60 per minute and to a burst of one minute |
| RateLog.LevelIsLeastAllowance | server/api/internal/ratelimit/limiter.go:46-72 | the bucket level is the least allowance over all stretches of requests ending now |
| RateLog.LimiterFollowsLogRule | server/api/internal/ratelimit/limiter.go:46-72 | a request is admitted exactly when no stretch of its key's requests ending with it exceeds burst plus what was earned |
| RateLog.WindowBound | server/api/internal/ratelimit/limiter.go:46-72 | every stretch of a key's requests over a given number of seconds admits at most burst + seconds * ratePerMinute / 60 |
| RateLog.RefusalIsJustified | server/api/internal/ratelimit/limiter.go:46-72 | a refused request would have exceeded that over some stretch ending with it |
| RateEviction.EvictionInvisibleIff | server/api/internal/ratelimit/limiter.go:77-87 | eviction changes no answer on any request sequence exactly when burst <= 30 * ratePerMinute |
| RateEviction.EvictingLimiterFollowsLogRule | server/api/internal/ratelimit/limiter.go:46-87 | then the limiter as it is decides by the log rule |
| SessionIds.SanitizeKeepsPlain | server/api/internal/httpapi/ids.go:10-14 | sanitizing leaves only the allowed characters, changes nothing the second time, and nothing at all on clean ids |
| SessionIds.SanitizeExact | server/api/internal/httpapi/ids.go:10-14 | character by character: letters, digits, underscores and dashes survive in place, and nothing else |
| SessionIds.SessionIdShape | server/api/internal/httpapi/ids.go:16-27 | a session id is "sess_", the sanitized node id, an underscore, and the random bytes in lower-case hexadecimal |
| SessionIds.RoutingExact | server/api/internal/httpapi/ids.go:10-27 | a node matches another's session exactly when the sanitized ids are equal or extend one another at an underscore |
| SessionIds.RivalsAreRelated | server/api/internal/httpapi/server.go:321-328 | two nodes matching one session id, even a made-up one, are related in that way |
| SessionIds.IdsAreDistinct | server/api/internal/httpapi/ids.go:21-27 | equal session ids come from equal sanitized names and equal random bytes |
| Fleet.MarkSelf | server/api/internal/fleet/registry.go:99-105 | the loop flags exactly the own entries, in place, and reports whether there was one |
| Fleet.Registry.constructor | server/api/internal/fleet/registry.go:74-114 | the registry after loading, for a missing file, a file that lists the node, and one that does not |
| Fleet.LoadedListsSelf | server/api/internal/fleet/registry.go:74-114 | a loaded registry lists and flags its own node, with the file's or else the default data, and leaves the other entries and their order alone |
| Fleet.SelfComesFirstIff | server/api/internal/fleet/registry.go:141-174 | the own node comes first only if the file puts it first or does not list it |
| Fleet.Registry.Lookup | server/api/internal/fleet/registry.go:126-135 | the first entry of the id, or none |
| Fleet.Registry.Views | server/api/internal/fleet/registry.go:144-174 | one view per entry in registry order, with own, polled or baseline load |
| Fleet.Registry.FindOwningNode | server/api/internal/httpapi/server.go:321-328 | scanning the views and looking the id up again yields the first matching entry, whatever its health |
| Fleet.PicksOwnerIff | server/api/internal/httpapi/server.go:321-328 | a registry sends every session of a node to that node exactly when it lists it before anything related to it |
| Fleet.OwnerIsChosen | server/api/internal/httpapi/server.go:321-328 | every session of a node is routed alike, to the first entry related to the node |
| Routing.OneHopIsEnough | server/api/internal/httpapi/handlers.go:70-78 | with right URLs and unrelated ids every call, also one with a made-up session id, is answered, rejected or unreachable after at most one hop; a connect is answered only by the node it names |
| Routing.SessionCallsGoHome | server/api/internal/httpapi/handlers.go:375-378 | with right URLs and unrelated ids a session call is answered only by the minting node where that is listed, by the place it was made at where no listed id is related to it, and otherwise by the first listed related node |
| Routing.ConnectsByName | server/api/internal/httpapi/handlers.go:70-78 | a connect is rejected exactly if no entry has the id it names; otherwise it is answered by that node, here or over the first such entry's URL, and unreachable if that reaches nobody |
| Routing.SessionsByPrefix | server/api/internal/httpapi/handlers.go:375-378 | a session call for any id is answered by the first listed node whose "sess_..._" prefix starts it, here or over its URL, and where it is made if there is none |
| Routing.ForeverIff | server/api/internal/httpapi/handlers.go:375-378 | a call is forwarded for ever exactly when it is still forwarded after as many hops as there are nodes to reach |
| Routing.OneHopIff | server/api/internal/httpapi/server.go:321-341 | a node's session calls settle after one hop exactly when the place first chosen chooses itself or nobody it can reach, whatever the random part of the id |
| Routing.RouteConnect | server/api/internal/httpapi/handlers.go:70-78 | rejects, answers or forwards to the URL of the first entry of the id named |
| Routing.RouteSession | server/api/internal/httpapi/handlers.go:375-378 | answers or forwards to the URL of the first entry whose prefix starts the session id |
| Routing.RelatedIdsLoop | server/api/internal/httpapi/handlers.go:399-403 | with related ids a session call can be forwarded for ever |
| ForwardChain.ForwardExact | server/nft/vpn.nft.tmpl:76-105 | which packets the ordered rules accept, in closed form on the configured interfaces, subnets and port 53 |
| Firewall.OnlyHostFlowsCross | server/nft/vpn.nft.tmpl:76-105 | over every run without related packets, a forwarded packet between tunnel addresses has an address of the host itself at one end |
| Firewall.CrossingExact | server/nft/vpn.nft.tmpl:76-105 | and exactly those packets are forwarded in some such run |
| Firewall.ClientsStayIsolated | server/nft/vpn.nft.tmpl:76-105 | over every run from an empty flow table no packet from a tunnel address to a tunnel address is accepted |
| Firewall.NoClientReachesClient | server/nft/vpn.nft.tmpl:87-88 | the same on the configured subnets: any packet of such a run between two of the three IPv4 subnets, or within the IPv6 one, is dropped |
| Firewall.DnsNeverLeaks | server/nft/vpn.nft.tmpl:90-104 | over every such run no client's packet to another resolver is accepted |
| Firewall.NoForeignDns | server/nft/vpn.nft.tmpl:90-100 | the same on the configured interfaces and subnets: any UDP or TCP packet of such a run to port 53 from a client is dropped |
| Firewall.RelatedCrosses | server/nft/vpn.nft.tmpl:79-79 | a RELATED packet between clients is accepted |
| Firewall.HostAddressCrosses | server/nft/vpn.nft.tmpl:79-79 | a packet of a flow tracked through the host itself is accepted, were it forwarded |
| Firewall.SpoofedSourceLeaksDns | server/nft/vpn.nft.tmpl:79-104 | a spoofed source on a tunnel interface opens the way for DNS |
| RawDump.ParseSAs | server/api/internal/ikev2/manager.go:221-254 | the loop accumulates every token in turn, ignoring unreadable numbers, modulo 2^64 |
| RawDump.TokensOfText | server/api/internal/ikev2/manager.go:258-261 | the tokens of a dump are its names, entries and list values in order, however it is laid out |
| RawDump.TokensAddUp | server/api/internal/ikev2/manager.go:221-254 | for every nested dump the result is the totals over all leaves at any depth, an ESTABLISHED state somewhere, and the first remote host |
| RawDump.DumpIsRead | server/api/internal/ikev2/manager.go:222-224 | that summary is reported exactly when the text mentions an inbound counter or a state |
| RawDump.NumberOfDigits | server/api/internal/ikev2/manager.go:232-239 | decimal notation of every number below 2^64 reads back, with or without leading zeros, and from 2^64 on is no number |
| RawDump.NumbersAreDigits | server/api/internal/ikev2/manager.go:232-239 | the empty text and a text with any other character are no numbers |
| RawDump.DigitsAreNumbers | server/api/internal/ikev2/manager.go:232-239 | every non-empty text of digits is such a notation |
| RawDump.SeparatorsExact | server/api/internal/ikev2/manager.go:258-261 | exactly which characters separate tokens |
| RawDump.DumpTotals | server/api/internal/ikev2/manager.go:221-254 | for a dump whose counters are written in decimal with sums below 2^64, the bytes reported are exactly those sums; with the state and the first remote host that is not empty |
| RawDump.UnreadableDumps | server/api/internal/ikev2/manager.go:222-224 | a dump given up on has no inbound bytes and no established state |
| RawDump.OutboundAloneIsMissed | server/api/internal/ikev2/manager.go:222-224 | outbound bytes alone are missed |
| ShellConfig.EmitShellConfig | server/api/cmd/vpn-api/main.go:163-165 | the printed text reads back, by the shell's rules, as exactly the list of pairs |
| ShellConfig.ReadsBack | server/api/cmd/vpn-api/main.go:163-165 | the round trip for any names and any values, with quotes, backslashes or newlines |
| ShellConfig.SubstitutionReadsBack | server/scripts/verify.sh:36-40 | the round trip also survives a command substitution stripping the last newlines |
| ShellConfig.ConfigReadsBack | server/api/cmd/vpn-api/main.go:130-166 | for the thirty fixed names every variable ends up with its configuration value |

## Left out

- HTTP, JSON, TLS, process execution, sockets and files: handlers take the outcome of a backend command, the clock and the randomness as parameters, and a state file is a list of records.
- Textual addresses: an address is a number, and a number outside 32 bits stands for text that does not parse; text and number forms of one address are taken to be the same thing.
- App.App.HandleConnect: does not model a failing random source or key generator, the response fields beyond the session, or the order of the two clock readings of a new session.
- Crash.SettledFileLists: does not model that overlapping persists share one temporary path, so that their bytes can mix; a write is one step.
- App.App: leaves the persist at the end of each handler to `Crash`, where every change of the table owes one.
- App.App.StartNode: takes the outcome of identity bootstrapping and registry loading as a parameter; the gateways derived from the blocks are parameters.
- App.App.HandleDisconnect: does not include the routing before it, which is Routing.RouteSession; likewise HandleTelemetry and HandleConnect.
- App.App: runs one handler at a time; the interleavings of locked calls are the lifecycle's.
- Sessions.Session.Sample: does not model 32-bit floating-point rounding; rates are reals, and so are those of the telescoping sum.
- RawDump.ParseSAs: does not model the assigned address taken from the first list value.
- ShellConfig.ConfigReadsBack: does not model NUL bytes, which no shell variable can hold.
- Firewall.OnlyHostFlowsCross: does not model the input, output and NAT chains; local traffic is any flow with an end at the host.
- Fleet.Registry.Views: does not model the poller that fills in health and load, or display fields such as country and categories.
- Routing.OneHopIsEnough: does not model timeouts of the forwarding client; a URL that reaches nobody stands for every transport failure.
- Certificate and key issuing, the OpenVPN management reader, `wg` dump parsing, profile rendering, settings toggles and middleware: branch-light code beside the cores above.
- The Android application.
