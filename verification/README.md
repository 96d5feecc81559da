# maglev-lb: a verified model

`maglev-lb` is a layer-4 load balancer. It spreads flows over backends with a Maglev lookup table,
pins each flow in a connection table, and forwards packets to backends inside GRE tunnels. A Python
bridge drives it in live mode: a reconciler gives backend slots to the nodes a user draws, small
responders stand in for backends, and sliding windows turn counters and histograms into readouts.

This project models the parts of that program whose correctness is not visible in one function and
proves, for all inputs and all runs, what they promise. `dafny verify dfyconfig.toml` checks it.

## How the model is laid out

Each component has a value-level specification (datatypes and functions), lemmas about it, and, where the
program updates things in place, a class or a method with loops that is proved equal to the
specification. Machine widths are subset types (`u8`, `u16`, `u32`, `u64`, `i32`), so an overflow would be a
failed proof. Hash functions are parameters; nothing is assumed about them. A run is a sequence of
events with the states between them, and the run lemmas hold at every point of every run.

| files | component |
|---|---|
| `Primes`, `Preference`, `MaglevSpec`, `MaglevTable` | the Maglev table: primality, preference lists, the fill |
| `RoutingSnapshot`, `BackendManager`, `Rebuild` | snapshots, the backend pool, and building one from the other |
| `TableGenerator`, `Generator` | swapping and reclaiming snapshots between a writer and a reader |
| `ConntrackSpec`, `ConntrackMap`, `ConntrackSlab`, `Conntrack` | the connection table: chains, the map they stand for, the slab, the object |
| `Ipv4`, `Gre`, `Flow` | the Internet checksum (section 1 of RFC 1071), the IPv4 header (section 3.1 of RFC 791), the GRE header (section 2.1 of RFC 2784) |
| `DatapathSpec`, `DatapathCounts`, `DatapathRuns`, `Datapath` | the packet loop with its counters |
| `BalancerRuns`, `BalancerSticky`, `BalancerUnlisted` | pool, rebuilds and packet loop together |
| `Hysteresis`, `HealthChecker`, `HealthRuns`, `HealthLatecomer` | probe results and backend health |
| `ReconcilerSlot`, `ReconcilerFleet`, `ReconcilerRemoval`, `ReconcilerAdditions`, `ReconcilerRuns`, `Reconciler`, `ReconcilerClients` | the live-mode reconciler next to the world it acts on |
| `ServerSpec`, `ServerRuns`, `ServiceServer` | the responder's capacity, queue and accounting |
| `Histogram`, `LatencyWindow`, `RateWindow` | latency histograms and sliding windows |
| `MachineInts`, `BitMask`, `Pigeonhole`, `Wrappers` | integers, masks, counting, options |

## Where the code and what is said of it differ

- A rebuild reads the routable and the eligible list under two lock acquisitions. Its table resolves in its own
  snapshot exactly when every eligible id that holds a slot was routable in the first reading
  (`Rebuild.TableResolvesIff`); a backend that recovers between the two readings, with a rank by id below the table size, breaks it
  (`Rebuild.MutationBetweenQueriesBreaks`, and from the empty pool on `Rebuild.RecoveryBetweenQueriesBreaks`). The
  comment at `src/forward/datapath.c:127-129` that a new flow always resolves rests on one mutating thread, for which
  it is proved of whole runs (`BalancerRuns.NewFlowNeverUnhealthy`).
- The swap protocol is safe exactly for at most one reader (`TableGenerator.SafeIffSingleReader`). The comment in
  `src/backend/table_generator.h:14-20` describes freeing at once; the code retires and reclaims later, and so does the model.
- Per-backend counters exist for ids below `max_backends` only. The total of `flows_assigned` accounts for every miss
  exactly when no flow was pinned to a larger id (`DatapathCounts.ConservationLaws`); a pool whose only eligible backend
  has a larger id hides a miss (`BalancerUnlisted.UnlistedBackendHidesMiss`, and from the start on
  `BalancerUnlisted.HiddenMissReached`). The program adds `n_backends` backends and sizes
  the counters by the same number (`src/main.c:201`, `src/main.c:238`), and for that case the law holds without a condition
  (`BalancerRuns.BalancerCounts`).
- The health checker has 64 probe states and never frees one. Health follows the rise/fall rule exactly for backends
  among the first 64 probed (`HealthRuns.RuleFollowedIff`). While nothing is removed from the pool that is every backend
  (`HealthRuns.HealthInGrowingPool`), and the program removes none; with `backend_manager_remove` in use, a successor of a
  removed backend can fail every probe and stay up (`HealthLatecomer.LatecomerStaysUp`).
- The pool's id counter wraps. The backend stored under the last id is not announced to the subscriber, and its caller is
  told that the pool is full (`BackendPool.LastIdLooksFull`); from then on an addition keeps ids distinct exactly when the
  id it hands out is not in the pool (`BackendPool.AddKeepsDistinctIff`).
- A frame longer than 65535 bytes on the IP level would not decapsulate (`Gre.DecapIffFits`); the datapath's
  buffer keeps every frame it sends below that (`DatapathRuns.SentFrameDecapsulates`).
- Transport ports are read within the received frame, not within the IP packet, so a backend sees the same
  flow exactly when the transport header lies inside the packet (`Flow.BackendSeesSameFlow`); in a padded frame around a
  bare IP header it does not (`Flow.PaddedFrameLosesPorts`).
- Restarting a backend whose process died revives it exactly when the recorded fault is the crash
  (`ReconcilerSlot.RestartRevivesIff`). One that died while slowed down is left dead by a restart
  (`ReconcilerRuns.RestartLeavesDead`) and stays so exactly until a crash action or its removal
  (`ReconcilerRuns.StuckNext`, `ReconcilerRuns.StuckStays`); crashing it first makes a restart work
  (`ReconcilerRuns.CrashThenRestart`).
- An id returns to the slot it last used exactly when that slot is free and no smaller id takes it in the same step
  (`ReconcilerAdditions.ReturnsToSlotIff`, `ReconcilerRuns.RememberedSlotStolen`). The same holds of the index of a client
  (`ReconcilerClients.ReturnsToIndexIff`, `ReconcilerClients.RememberedIndexStolen`).
- Dropping a delta from a latency window undoes merging it exactly when its keys are buckets
  (`LatencyWindows.DropUndoesMergeIff`, `LatencyWindows.NegativeKeyBreaksWindow`).
- The samples of a rate window rise exactly when counters that newly appear start at zero or above
  (`RateWindows.RisingIff`); one that appears negative gives a negative rate before the clamp
  (`RateWindows.NegativeCounterFalls`).

## Model

| member | source | states |
|---|---|---|
| `Primes.IsPrimeU32` | src/maglev/maglev_table.c:9-22 | trial division accepts exactly the primes; squares stay within 64 bits and the divisor within 32 |
| `Primes.Euclid` | src/maglev/maglev_table.c:83-92 | a prime that divides a product of a smaller positive number and b divides b, the fact the probe loop rests on |
| `Preference.SlotInjective` | src/maglev/maglev_table.c:83-92 | for prime m and a skip in 1..m-1, two preferences below m never name the same slot |
| `Preference.PrimeFullCycle` | src/maglev/maglev_table.c:83-92 | for prime m each preference list is a bijection onto the slots |
| `Preference.FullCycleIffPrime` | src/maglev/maglev_table.c:83-96 | all preference lists cover the table if and only if m is prime, which is why the size is checked |
| `MaglevSpec.EmptySlotIsReached` | src/maglev/maglev_table.c:87-101 | while any slot is empty, every backend's preference list reaches one |
| `MaglevSpec.GreedyEmptyCount` | src/maglev/maglev_table.c:87-101 | each turn fills exactly one empty slot, so m turns fill the table |
| `MaglevSpec.GreedyShare` | src/maglev/maglev_table.c:87-101 | the backend of position i gets floor(m/n) slots, plus one if i < m mod n |
| `MaglevSpec.GreedyFull` | src/maglev/maglev_table.c:87-101 | every slot ends up holding a candidate's id |
| `MaglevTable.SortIgnoresListing` | src/maglev/maglev_table.c:55-76 | sorting two listings of the same distinct ids gives the same order |
| `MaglevTable.TableIgnoresListing` | src/maglev/maglev_table.c:55-101 | the table depends only on the set of backends, not on how they are listed |
| `MaglevTable.TableShare` | src/maglev/maglev_table.c:55-101 | a backend holds floor(m/n) slots, plus one if its rank by id is below m mod n |
| `MaglevTable.TableNamesCandidates` | src/maglev/maglev_table.c:36-101 | every slot names one of the given backends, or all are empty when there is none |
| `MaglevTable.ProbeIndex` | src/maglev/maglev_table.c:91-92 | the 64-bit product and the 32-bit index are exact |
| `MaglevTable.Seek` | src/maglev/maglev_table.c:90-96 | the probe loop ends at the backend's first empty slot of all its preferences, although it starts at the cursor |
| `MaglevTable.Turn` | src/maglev/maglev_table.c:88-100 | one turn keeps the cursors, the count of probes and the table of the greedy fill |
| `MaglevTable.Populate` | src/maglev/maglev_table.c:87-101 | the persistent-cursor fill gives the table of the greedy that restarts every turn, in at most n*m probes |
| `MaglevTable.Generate` | src/maglev/maglev_table.c:36-108 | generation from any listing gives the specified table, in at most n*m probes |
| `RoutingSnapshot.FindBackend` | src/maglev/maglev_table.c:166-174 | returns the first backend with the id, if any |
| `RoutingSnapshot.Create` | src/maglev/maglev_table.c:123-155 | a snapshot holds the routable list and the table of the candidates |
| `RoutingSnapshot.NewFlowResolves` | src/maglev/maglev_table.c:118-155 | when candidates are routable, whatever the table returns resolves in the same snapshot, and it returns none only without candidates |
| `RoutingSnapshot.NonCandidateHoldsNoSlot` | src/maglev/maglev_table.c:123-155 | an id that is no candidate holds no slot |
| `BackendPool.BackendManager.constructor` | src/backend/backend_manager.c:16-23 | the pool starts empty |
| `BackendPool.BackendManager.FindIndex` | src/backend/backend_manager.c:39-46 | finds the slot of an id |
| `BackendPool.BackendManager.Add` | src/backend/backend_manager.c:48-74 | takes the first free slot under the next id, with the 32-bit counter wrapping, or reports a full pool, and notifies unless the id is UINT32_MAX |
| `BackendPool.BackendManager.Remove` | src/backend/backend_manager.c:76-93 | frees the slot of the id and nothing else, and notifies exactly when it was in the pool |
| `BackendPool.ApplyKeepsIds` | src/backend/backend_manager.c:48-146 | every operation keeps ids distinct and below the counter until it wraps |
| `BackendPool.LastIdLooksFull` | src/backend/backend_manager.c:48-74 | the addition under the last id answers as for a full pool and notifies nobody, yet stores the backend, and the next id is 0 |
| `BackendPool.AddKeepsDistinctIff` | src/backend/backend_manager.c:48-74 | an addition keeps ids distinct if and only if the id it hands out is not in the pool |
| `BackendPool.ApplyKeepsLive` | src/backend/backend_manager.c:48-146 | a backend stays unless removed, and only the fields an operation names change |
| `BackendPool.ApplyMakesLive` | src/backend/backend_manager.c:48-74 | an id becomes live only by being handed out, healthy and enabled |
| `BackendPool.BackendManager.SetHealth` | src/backend/backend_manager.c:95-110 | sets one backend's health and notifies exactly when it changed |
| `BackendPool.BackendManager.SetAdminState` | src/backend/backend_manager.c:112-128 | sets one backend's admin state and notifies exactly when it changed |
| `BackendPool.BackendManager.SetMac` | src/backend/backend_manager.c:130-146 | records one backend's hardware address |
| `BackendPool.BackendManager.Snapshot` | src/backend/backend_manager.c:155-189 | a snapshot query lists exactly the backends meeting its condition, in slot order |
| `BackendPool.SnapshotListsAgree` | src/backend/backend_manager.c:155-189 | of one state, the eligible backends are among the routable ones and both lists have distinct ids |
| `BackendPool.LiveBackendListed` | src/backend/backend_manager.c:155-189 | a backend is listed as routable or eligible exactly when its state says so |
| `Rebuild.CopyViews` | src/backend/table_generator.c:69-76 | copies the routing fields of each backend in order |
| `Rebuild.Build` | src/backend/table_generator.c:84-101 | with one mutating thread, a rebuild makes the snapshot of the pool's present state |
| `Rebuild.OneMutatorSnapshot` | src/backend/table_generator.c:84-101 | such a snapshot resolves all its slots; a backend resolves exactly when routable and holds no slot unless eligible |
| `Rebuild.HoldsSlotIff` | src/maglev/maglev_table.c:87-101 | a candidate holds a slot if and only if its rank by id is below the table size |
| `Rebuild.TableResolvesIff` | src/backend/table_generator.c:84-101 | all slots of a snapshot resolve if and only if every eligible id that holds a slot is among the routable ones |
| `Rebuild.MutationBetweenQueriesBreaks` | src/backend/table_generator.c:84-87 | in any pool, a backend that turns healthy between the two queries and whose rank by id is below the table size gives a table that does not resolve |
| `Rebuild.RecoveryBetweenQueriesBreaks` | src/backend/table_generator.c:84-87 | such a mutation, reached from the empty pool by adding, resolving and failing a backend |
| `TableGenerator.StepConserves` | src/backend/table_generator.c:78-152 | no protocol step creates, duplicates or loses a snapshot |
| `TableGenerator.RunKeepsInv` | src/backend/table_generator.c:78-152 | every interleaving keeps each snapshot in exactly one place, generations in order and readers off freed memory |
| `TableGenerator.SingleReaderSafe` | src/backend/table_generator.c:78-165 | with one reader no interleaving uses freed memory or frees twice; generations strictly increase and the published one lags by at most 1 |
| `TableGenerator.DestroyFreesAll` | src/backend/table_generator.c:50-61 | after destroy each snapshot was freed exactly once or was leaked |
| `TableGenerator.NoLeakWithoutReallocFailure` | src/backend/table_generator.c:113-135 | a snapshot leaks only when growing the retired list failed |
| `TableGenerator.TwoReadersReachUseAfterFree` | src/backend/table_generator.c:137-152 | two readers have an interleaving in which one holds a snapshot the other freed |
| `TableGenerator.SafeIffSingleReader` | src/backend/table_generator.c:78-152 | all interleavings are safe if and only if there is at most one reader |
| `Generator.TableGen.RetireSnapshot` | src/backend/table_generator.c:113-129 | appends to the retired list, growing it, or leaks |
| `Generator.TableGen.RebuildAndInstall` | src/backend/table_generator.c:78-135 | is the run build, exchange, publish, retire, or fails without effect |
| `Generator.TableGen.GetActive` | src/backend/table_generator.c:163-165 | is the reader's load step |
| `Generator.TableGen.Reclaim` | src/backend/table_generator.c:137-152 | is the run that detaches the retired list and frees exactly its snapshots |
| `Generator.TableGen.Destroy` | src/backend/table_generator.c:50-61 | is the destroy step: frees the active and all retired snapshots |
| `Generator.FreeRun` | src/backend/table_generator.c:146-151 | freeing a detached list one by one frees exactly that list |
| `BitMask.NextPow2` | src/conntrack/conntrack.c:29-35 | the least power of two not below its argument |
| `BitMask.MaskIsRemainder` | src/conntrack/conntrack.c:70-93 | masking with a power of two minus one is the remainder |
| `ConntrackSpec.KeepMembers` | src/conntrack/conntrack.c:100-133 | filtering a chain keeps exactly the records that have not expired |
| `ConntrackSpec.SweepCounts` | src/conntrack/conntrack.c:100-133 | every record a sweep removes is reported once, per backend and in total |
| `ConntrackSpec.SweepEffect` | src/conntrack/conntrack.c:100-133 | a sweep filters exactly the buckets at and after the cursor, each once, going round |
| `ConntrackMap.SizeIsMapSize` | src/conntrack/conntrack.c:139-141 | the number of records equals the size of the map the table stands for |
| `ConntrackMap.LookupRefinesMap` | src/conntrack/conntrack.c:68-79 | a lookup is a map lookup that refreshes the last-seen time on a hit |
| `ConntrackMap.InsertRefinesMap` | src/conntrack/conntrack.c:81-98 | an insert after a miss is a map update and fails exactly when the map is full |
| `ConntrackMap.ReapRefinesMap` | src/conntrack/conntrack.c:100-133 | a reap removes exactly the expired keys of the visited buckets, with one callback each |
| `Conntrack.ConntrackTable.constructor` | src/conntrack/conntrack.c:37-57 | an empty table of the given capacity with all entries on the free list |
| `Conntrack.ConntrackTable.FindEntry` | src/conntrack/conntrack.c:70-77 | walking a chain finds the first entry with the key |
| `Conntrack.ConntrackTable.Lookup` | src/conntrack/conntrack.c:68-79 | equals the specified lookup; every slab entry stays in exactly one chain or the free list |
| `Conntrack.ConntrackTable.Insert` | src/conntrack/conntrack.c:81-98 | equals the specified insert and keeps the same layout invariant |
| `Conntrack.ConntrackTable.ReapBucket` | src/conntrack/conntrack.c:113-130 | unlinking in place leaves exactly the unexpired chain, in order, and frees the rest |
| `Conntrack.ConntrackTable.ReapSlice` | src/conntrack/conntrack.c:100-133 | equals the specified reap, callbacks in order |
| `Ipv4.SumWords` | src/net/ipv4.c:33-42 | the 32-bit accumulator is the word sum modulo 2^32 |
| `Ipv4.FoldSum` | src/net/ipv4.c:43-45 | the carry loop terminates with the folded sum |
| `Ipv4.FoldResidue` | src/net/ipv4.c:43-45 | folding is the residue modulo 65535, with 65535 for non-zero multiples |
| `Ipv4.Checksum` | src/net/ipv4.c:33-47 | the one's-complement checksum, exact up to 131074 bytes |
| `Ipv4.AccumulatorExactIff` | src/net/ipv4.c:33-41 | 131074 bytes is exactly how far the accumulator never wraps |
| `Ipv4.VerifiesIff` | src/net/ipv4.c:33-47 | data verifies if and only if its word sum is a positive multiple of 65535 |
| `Ipv4.BuiltHeaderVerifies` | src/net/ipv4.c:49-69 | for all field values the built header checksums to 0 |
| `Ipv4.Build` | src/net/ipv4.c:49-69 | writes exactly the header bytes at the offset and nothing else |
| `Ipv4.ParseBuilt` | src/net/ipv4.c:6-31 | parsing a built header returns its fields, or fails exactly when the length does not fit |
| `Gre.EthBuild` | src/net/eth.c:13-21 | writes exactly the Ethernet header |
| `Gre.GreBuild` | src/net/gre.c:20-25 | writes exactly the four GRE bytes |
| `Gre.EncapBuild` | src/net/gre.c:27-52 | writes the encapsulated frame, or returns 0 and writes nothing when it does not fit |
| `Gre.DecapIffFits` | src/net/gre.c:5-52 | parsing a built frame returns its arguments and inner bytes if and only if the outer length fits 16 bits |
| `Flow.ParseIgnoresPadding` | src/net/flow.c:9-53 | trimming a frame to the IP length does not change the parse |
| `Flow.BackendSeesSameFlow` | src/net/flow.c:9-53 | the forwarded packet yields the same flow if and only if the transport header lies within the IP packet |
| `Flow.PaddedFrameLosesPorts` | src/net/flow.c:9-53 | a padded frame around a bare IP header gives the datapath ports and the backend none |
| `DatapathCounts.RouteCounts` | src/forward/datapath.c:100-124 | routing pins at most one flow, exactly when it misses with a backend and room, and counts it for that backend |
| `DatapathCounts.RouteMisses` | src/forward/datapath.c:100-124 | each miss is a new flow, a drop for want of a backend, or a drop on a full table |
| `DatapathCounts.StepBalanced` | src/forward/datapath.c:76-156 | every packet, tick and installation keeps the books of flows, evictions and drops |
| `DatapathCounts.ConservationLaws` | src/stats/stats_registry.c:35-48 | in every run active_flows is the number of pinned entries, flows_assigned is active plus evicted, and misses are assigned flows plus drops exactly when no flow was pinned to an unlisted id |
| `DatapathCounts.ListedRun` | src/stats/stats_registry.c:35-48 | tables that name only listed ids leave no flow unlisted |
| `DatapathRuns.StickyPin` | src/forward/datapath.c:96-133 | a flow whose gaps stay within its timeout is never evicted and keeps its backend |
| `DatapathRuns.StickyVerdict` | src/forward/datapath.c:96-133 | each of its packets goes to that backend whenever the snapshot can resolve it |
| `DatapathRuns.SweepBound` | src/forward/datapath.c:218-262 | an expired, silent entry is gone after 60 ticks from any cursor |
| `DatapathRuns.DrainRun` | src/forward/datapath.c:106-132 | while every snapshot drains a backend it gains no flow and its pinned count never rises |
| `DatapathRuns.StepDrained` | src/forward/datapath.c:106-132 | packets pinned to a draining backend are forwarded to it |
| `DatapathRuns.UnhealthyOnlyOnHit` | src/forward/datapath.c:106-132 | with a table that resolves, only a conntrack hit is dropped as unhealthy, and the counter moves exactly then |
| `DatapathRuns.UnhealthyMeansPinned` | src/forward/datapath.c:106-132 | in every run of such snapshots a packet dropped as unhealthy belongs to a flow pinned before |
| `DatapathRuns.PoolSnapshotServes` | src/backend/table_generator.c:84-101 | rebuilt snapshots resolve and name ids handed out |
| `DatapathRuns.PoolSnapshotDrains` | src/backend/table_generator.c:84-101 | and drain a backend that is draining, healthy and resolved |
| `DatapathRuns.SentFrameDecapsulates` | src/forward/datapath.c:134-143 | every frame sent decapsulates to exactly the received IP packet, addressed to the chosen backend |
| `BalancerRuns.Project` | src/backend/table_generator.c:78-135 | whatever pool operations, rebuilds, packets and ticks interleave, the datapath goes through a run whose installed tables resolve and name ids handed out |
| `BalancerRuns.BalancerCounts` | src/main.c:201-238 | with counters for every backend added, all conservation laws hold at every point of every run |
| `BalancerRuns.NewFlowNeverUnhealthy` | src/forward/datapath.c:106-132 | in every run a packet dropped as unhealthy belongs to a flow pinned before |
| `BalancerRuns.DrainLaw` | src/forward/datapath.c:106-132 | from the first rebuild of a drain on, the backend is assigned no flow and its pinned flows only dwindle |
| `BalancerRuns.DrainedPacketServed` | src/forward/datapath.c:106-132 | and every packet pinned to it is forwarded to it |
| `BalancerSticky.PinKept` | src/forward/datapath.c:100-123 | a pinned flow keeps its pin up to each packet within the timeout, whatever the pool, rebuilds and ticks do |
| `BalancerSticky.SnapshotInForce` | src/backend/table_generator.c:78-135 | until the next rebuild the datapath resolves ids in the pool as the last rebuild found it |
| `BalancerSticky.BalancerStickiness` | src/forward/datapath.c:100-132 | a pinned flow's packet goes to its backend if and only if the last rebuild found that backend in the pool and routable, else it is dropped as unhealthy; no other backend ever gets it |
| `BalancerUnlisted.UnlistedBackendHidesMiss` | src/stats/stats_registry.c:35-41 | with the table of a pool whose only eligible id exceeds the counters, the first packet is a miss that flows_assigned and the drops do not show |
| `BalancerUnlisted.HiddenMissReached` | src/stats/stats_registry.c:35-41 | a run from the start that gets there: counters for one backend, two added, the second resolved, a rebuild, a packet |
| `Datapath.LbStats.FlowOpened` | src/stats/stats_registry.c:35-41 | counts a flow for a listed id and ignores others |
| `Datapath.LbStats.FlowClosed` | src/stats/stats_registry.c:43-48 | uncounts a flow for a listed id and ignores others |
| `Datapath.LbStats.RecordPacket` | src/stats/stats_registry.c:26-33 | counts a packet and its bytes for a listed id |
| `Datapath.LbStats.FlowsEvicted` | src/forward/datapath.c:151-156 | closes one flow per evicted entry |
| `Datapath.DatapathLoop.RoutePacket` | src/forward/datapath.c:100-132 | equals the specified routing of a packet |
| `Datapath.DatapathLoop.Send` | src/forward/datapath.c:134-148 | the transmit buffer holds the specified frame and the counters move as specified |
| `Datapath.DatapathLoop.HandlePacket` | src/forward/datapath.c:76-149 | equals the specified handling of a received frame |
| `Datapath.DatapathLoop.OnTimer` | src/forward/datapath.c:256-262 | equals the specified reaper tick |
| `Hysteresis.CountersImplementRule` | src/backend/health_checker.c:128-162 | for any history the saturating counters are the capped streaks and the health is what the last-k rule says |
| `Hysteresis.FlipSpacing` | src/backend/health_checker.c:128-162 | an up (down) flip comes at least rise (fall) results after the previous flip |
| `HealthChecker.Checker.FindOrCreate` | src/backend/health_checker.c:104-121 | returns the id's state, or the first free one claimed for it, or none |
| `HealthChecker.Checker.RecordResult` | src/backend/health_checker.c:128-162 | equals the specified update of counters, pool and notification |
| `HealthRuns.RecordTracks` | src/backend/health_checker.c:128-162 | one result moves one backend's counters only, and notifies exactly when its health changes |
| `HealthRuns.HealthFollowsRule` | src/backend/health_checker.c:128-162 | in any interleaving of results with additions, removals, admin commands and address updates, the health of a backend among the first 64 probed is the rule of its own results, and the callback fires exactly on flips |
| `HealthRuns.LatecomerIgnored` | src/backend/health_checker.c:128-133 | a backend first probed after 64 others is healthy as long as it is in the pool |
| `HealthRuns.RuleFollowedIff` | src/backend/health_checker.c:104-162 | health is what the rule says if and only if the backend was among the first 64 probed or the rule has it up |
| `HealthRuns.HealthInGrowingPool` | src/backend/health_checker.c:128-162 | in runs that remove no backend, health is the rule of each backend's own results without a condition |
| `HealthLatecomer.LatecomerStaysUp` | src/backend/health_checker.c:128-133 | after 64 additions and probes, a removal and an addition, the new backend fails `fall` probes and stays up |
| `ReconcilerSlot.FreeSlotIsClean` | bridge/reconciler.py:46-63 | a free slot is enabled in the load balancer, its tunnel is up, and every process ever started in it is dead or has been killed |
| `ReconcilerSlot.ClearFaultOk` | bridge/reconciler.py:119-132 | clearing a fault keeps the slot consistent and leaves no fault |
| `ReconcilerSlot.ActOk` | bridge/reconciler.py:134-171 | every user action keeps the slot consistent |
| `ReconcilerSlot.ResetOk` | bridge/reconciler.py:173-186 | a reset keeps the slot consistent |
| `ReconcilerSlot.RemovalOk` | bridge/reconciler.py:237-254 | the removal pass keeps the slot consistent and its owner |
| `ReconcilerSlot.ProgressOk` | bridge/reconciler.py:276-327 | the progress pass keeps the slot consistent and its owner, or frees it |
| `ReconcilerSlot.DrainEnds` | bridge/reconciler.py:301-311 | a drain that has lasted 30000 ms ends in the progress pass |
| `ReconcilerSlot.StopKills` | bridge/reconciler.py:312-314 | a live process 2000 ms after its stop is killed |
| `ReconcilerSlot.RestartRevivesIff` | bridge/reconciler.py:119-171 | restarting a dead backend revives it if and only if its fault is the crash |
| `ReconcilerRuns.RestartLeavesDead` | bridge/reconciler.py:119-171 | a run in which a slowed-down backend dies, and the restart that follows clears its fault and leaves it dead and stuck |
| `ReconcilerRuns.StuckNext` | bridge/reconciler.py:119-327 | a backend that died under another fault leaves that state if and only if the event is an accepted crash action or a step that finds it unwanted |
| `ReconcilerRuns.StuckStays` | bridge/reconciler.py:119-327 | so over whole runs it stays dead until then, whatever restarts, resets and steps come |
| `ReconcilerRuns.CrashThenRestart` | bridge/reconciler.py:119-171 | crashing and then restarting such a backend brings it back |
| `ReconcilerFleet.NextSound` | bridge/reconciler.py:109-327 | every command, step and process exit keeps all slots consistent and each id in one slot |
| `ReconcilerFleet.ReachableFleet` | bridge/reconciler.py:109-327 | in every run: owner and phase agree, no id owns two slots, drain and tunnel states match, free slots are clean, replaced processes are dead or killed |
| `ReconcilerRemoval.UndrainUnderRemoval` | bridge/reconciler.py:237-327 | a slot under removal gets UNDRAIN only when its id is re-added, or when freed with its process dead and the load balancer reporting it down |
| `ReconcilerRemoval.DrainBounded` | bridge/reconciler.py:241-311 | a removal draining from i to j saw no step 30000 ms or more after it began |
| `ReconcilerRemoval.RemovalBound` | bridge/reconciler.py:241-327 | if the id stays unwanted while it drains, a step 30000 ms or more after the drain began and one 2000 ms or more after that leave the slot freed, or stopping with its process dead or killed |
| `ReconcilerRemoval.RemovalFrees` | bridge/reconciler.py:312-320 | a stopping slot is freed by the first step that sees its process dead and the load balancer reporting it down, even if the id is wanted again |
| `ReconcilerRemoval.TickKills` | bridge/reconciler.py:312-314 | the step that sees a live process 2000 ms after its stop kills it |
| `ReconcilerAdditions.AdditionsComplete` | bridge/reconciler.py:256-274 | after the addition pass each active id has a slot or waits, and ids wait only while no slot is free |
| `ReconcilerAdditions.StepPlaces` | bridge/reconciler.py:233-327 | after a whole step each active id has a slot, waits, or just lost one that was stopping; while one waits, free slots are those the step freed last |
| `ReconcilerAdditions.ReturnsInPassIff` | bridge/reconciler.py:256-274 | in an addition pass an id returns to its last slot if and only if that is free and no earlier id takes it |
| `ReconcilerAdditions.ReturnsToSlotIff` | bridge/reconciler.py:233-327 | the same of a whole step, after its removals and progress |
| `ReconcilerRuns.RememberedSlotStolen` | bridge/reconciler.py:256-274 | a run in which an id waits because a smaller one took the free slot it remembered |
| `Reconciler.SortIds` | bridge/reconciler.py:260-260 | lists a set of ids in increasing order |
| `Reconciler.ReconcilerLoop.Perform` | bridge/reconciler.py:134-171 | equals the specified action, accepted or refused |
| `Reconciler.ReconcilerLoop.ResetAll` | bridge/reconciler.py:173-186 | equals the specified reset of every slot |
| `Reconciler.ReconcilerLoop.Step` | bridge/reconciler.py:233-327 | the three passes in place equal the specified step |
| `ReconcilerClients.StepPlacesAll` | bridge/reconciler.py:198-219 | with at most four wanted clients exactly the wanted ones get an index |
| `ReconcilerClients.StepKeeps` | bridge/reconciler.py:198-219 | a client still wanted keeps its index and one no longer wanted loses it |
| `ReconcilerClients.ReturnsToIndexIff` | bridge/reconciler.py:209-218 | a returning client gets the index it last used if and only if no client admitted before it holds or takes it |
| `ReconcilerClients.RememberedIndexStolen` | bridge/reconciler.py:198-219 | a step in which a client admitted earlier takes the index a returning one remembers |
| `ReconcilerClients.RunGood` | bridge/reconciler.py:198-219 | client indices are distinct in 0..3 at every point of every run |
| `ReconcilerClients.ClientTable.StepClients` | bridge/reconciler.py:198-219 | the loop over wanted clients equals the specified step |
| `ServerRuns.StepAccounted` | bridge/service_server.py:73-129 | every event keeps the busy integral equal to the slot time since the last reset |
| `ServerRuns.StepOrdered` | bridge/service_server.py:88-152 | every event keeps first-come order, the balance of counters and a queue only while all slots are busy |
| `ServerRuns.StepKept` | bridge/service_server.py:88-129 | each started request is running or served, exactly once |
| `ServerRuns.NeverPreempts` | bridge/service_server.py:132-144 | only a completion takes a job off its slot; a lowered capacity starts nothing and stops nothing |
| `ServerRuns.ServerLaws` | bridge/service_server.py:73-152 | all of these at every point of every run: queue, order, arrivals plus carried requests, busy integral |
| `ServiceServer.Responder.constructor` | bridge/service_server.py:55-80 | an idle responder with zero counters |
| `ServiceServer.Responder.AccountBusy` | bridge/service_server.py:82-85 | equals the specified accounting |
| `ServiceServer.Responder.Submit` | bridge/service_server.py:88-101 | equals the specified admission: start, queue or shed |
| `ServiceServer.Responder.DrainQueue` | bridge/service_server.py:127-129 | the drain loop equals the specified drain and stops only with an empty queue or no capacity |
| `ServiceServer.Responder.Finish` | bridge/service_server.py:107-129 | equals the specified completion |
| `ServiceServer.Responder.Configure` | bridge/service_server.py:134-144 | equals the specified reconfiguration |
| `ServiceServer.Responder.ResetStats` | bridge/service_server.py:73-80 | equals the specified reset |
| `ServiceServer.Responder.Handle` | bridge/service_server.py:73-152 | any event is the specified step and keeps the laws above |
| `Histogram.MergeInto` | bridge/livecommon.py:58-63 | adds a sparse delta to the counts in place and ignores keys outside the buckets |
| `Histogram.LogHistogram.Record` | bridge/livecommon.py:43-46 | counts a sample in the total and in the pending delta alike |
| `Histogram.LogHistogram.TakeDelta` | bridge/livecommon.py:48-51 | the deltas handed out and the pending one always add up to the counts |
| `Histogram.SamplesSorted` | bridge/livecommon.py:66-77 | the reference listing of the samples is in increasing order |
| `Histogram.SamplesOfBucket` | bridge/livecommon.py:66-77 | the reference listing holds each bucket as often as its count |
| `Histogram.Percentile` | bridge/livecommon.py:66-77 | none exactly when the counts sum to zero, else the first counted bucket where the running sum reaches q*n; for counts that are not negative and q up to 1, the bucket of the max(1, ceil(q*n))-th smallest sample |
| `LatencyWindows.DropUndoesMergeIff` | bridge/windows.py:57-64 | dropping a delta undoes merging it if and only if its keys are buckets (or negative ones with count 0) |
| `LatencyWindows.NegativeKeyBreaksWindow` | bridge/windows.py:57-64 | a delta with key -1, pushed and expired, leaves an empty window whose last bucket holds -1 |
| `LatencyWindows.PushCaches` | bridge/windows.py:57-64 | a push in time order with bucket keys succeeds and keeps the counts equal to the sum of exactly the deltas in the window |
| `LatencyWindows.WindowLaw` | bridge/windows.py:57-64 | the same after every push of every run |
| `LatencyWindows.LatencyWindow.Receive` | bridge/windows.py:57-64 | the in-place push equals the specified one, and fails exactly when a dropped key is no index, with that part gone and some of its keys subtracted |
| `LatencyWindows.LatencyWindow.Quantile` | bridge/windows.py:70-75 | a percentile of the counts; where they are the sum of the deltas in the window, that of all samples in it |
| `RateWindows.RestartTestIff` | bridge/windows.py:17-22 | a sample that passes the restart test falls nowhere if and only if its new counters start at zero or above |
| `RateWindows.PushRisingIff` | bridge/windows.py:16-26 | a push keeps the samples rising if and only if it restarts the window or its new counters start at zero or above |
| `RateWindows.RisingIff` | bridge/windows.py:16-26 | the samples rise throughout a run if and only if each pushed sample meets that condition |
| `RateWindows.CountersRise` | bridge/windows.py:16-26 | with counters that are never negative the samples rise at every point of every run |
| `RateWindows.PushBased` | bridge/windows.py:16-26 | trimming keeps exactly one sample at or before the window start as the base |
| `RateWindows.BaseLaw` | bridge/windows.py:16-26 | after every push of every run the samples are the log since the last restart, cut at one base sample |
| `RateWindows.NegativeCounterFalls` | bridge/windows.py:17-39 | a counter that appears negative passes the restart test and gives a negative rate before the clamp |
| `RateWindows.RateWindow.Receive` | bridge/windows.py:16-26 | the in-place push equals the specified one |
| `RateWindows.RateWindow.Rate` | bridge/windows.py:31-39 | the rate between the ends, or zero where that is negative; for rising samples the clamp at zero never acts |

## Left out

- XXH64 (`src/maglev/hash.c`): hash functions are parameters, with no claim about their distribution.
- Minimal disruption when the set of backends changes: Maglev gives no bound that holds for all inputs.
- Memory orders and weak memory: protocol steps are atomic and interleave sequentially.
- Allocation failures, except the one that leaks a retired snapshot.
- Sockets, epoll, timers, signals, ARP, thread start and stop, the probe round's input and output.
- The user interface, the metrics endpoint, the bridge's HTTP interface, configuration parsing and the admin FIFO's line splitting.
- `bridge/load_client.py`, gamma-distributed service times and the logarithmic bucket boundaries; a sample arrives with its bucket.
- Floating point: times are integers in clock units, quantiles are reals, and the load factor of the connection table is an exact ratio.
- The responder's recorded service durations, replies, peers, probes and abandoned requests; the busy integral is stated over the time a slot is held.
- The reconciler's event log and the messages it sends to processes; client processes themselves; ids are numbers, so sorting is by number.
- One-call idempotence of the reconciler (bridge/reconciler.py:8): a slot freed in one step can be filled in the next, so a second call can still do something.
- Counters other than active_flows are unbounded integers; active_flows wraps at 2^64 and is proved never to.
- Conntrack.ConntrackTable.constructor: max_flows stays below 0x6000000000000000, where the size computation cannot overflow.
- BitMask.NextPow2: arguments up to 2^63; beyond that the source's shift reaches zero and its loop does not end.
- Rebuild.Build: ids stay below 2^31, as the table stores them signed.
- HealthRuns.HealthFollowsRule: a run hands out fewer than 2^32 - 1 ids; after that the source reuses them.
- BalancerRuns.Project: a run hands out at most 2^31 ids.
- LatencyWindows.LatencyWindow.Receive: which keys were subtracted before one that is no index depends on the order in which they are visited and is left open.
