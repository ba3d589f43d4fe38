# KV Deadline Scheduler: verified model

A Dafny model of the scheduler's simulator, its placement policies and the components around them, with proofs
of what they keep over whole runs. `dafny verify dfyconfig.toml` checks everything.

## The simulator

`Simulation.dfy` gives the simulator as a state machine on values: what each of the ten event types does to the
block map, the two residency sets, the decision log, the latencies and the counters. `Simulator.dfy` is the object
itself, with those fields and the source's loops, and proves that each method computes the specified state; a run
of the object is therefore a run of the state machine, and the whole-run results hold of it.

A policy is a datatype holding its sort key and its prefetch rule. Two things Python leaves open are an oracle that
every lemma quantifies over: the order in which iterating `hbm_blocks` lists the ids, and which tier iterating
`allowed_tiers` yields first. A step that raises is an error result.

What is proved of every run:

* **No validation error** (`Residency`): on traces whose intents were constructed and allow HBM and one other tier.
  `TierErrors` shows that both halves of the restriction are needed. A displaced block raises in the next decay if
  and only if it allowed HBM alone; an accessed or prefetched block is moved to HBM unchecked and raises if it does
  not allow HBM. For one event of any kind on an empty simulator the lemmas say exactly when it raises.
* **Capacity** (`Capacity`): access-based policies never exceed capacity; the intent family does so only after a
  counted pinned exhaustion.
* **Displacement** (`Displacements`): every resident that leaves is logged once, and is in DRAM afterwards exactly if
  it was logged as spilled; the spill counter is the growth of DRAM, and DRAM never exceeds its capacity by it.
* **Effect of events** (`EventEffects`): for each kind of event, what it takes from the intent, what it fixes and what
  it leaves, where the block ends and what is counted; other blocks keep everything but recency, which fades by 0.03 at
  each new step value, and the tier of those displaced.
* **Greed** (`Greedy`): whatever the policy and the block sizes, capacity is restored by displacing the blocks the
  policy prefers, and no more of them than needed.
* **Order of departure** (`VictimOrder`): which block each policy gives up, for one choice and for a whole capacity
  loop; for the access-based policies in the blocks' own fields, for the intent family by score, size and id.
* **Pins hold** (`Pinning`): a pinned resident stays until an event names it, and no displacement has a
  DECODE_CRITICAL victim.
* **The advertised zero** (`CriticalEvictions`): the counter treats a block as decode-critical by priority or by
  phase, but only the priority implies the pin. README.md:10 says DeadlineAware evicts 0% of decode-critical
  blocks. One pass of capacity pressure meets this at all capacities exactly when every resident in phase DECODE is
  pinned, and at the memory's own capacity exactly when they are or the memory fits once the blocks preferred to
  the unpinned ones have left; a run meets it exactly when all its passes do and no EVICTED event names such a
  block. The lemmas give a failing trace, and a condition on traces that suffices for all runs and that every
  imported trace meets.
* **Accounting** (`Accounting`): latency and counters are conserved against the log, for every trace and policy.
* **Order independence** (`OrderIndependence`): with at most one fallback tier per block, set iteration order is
  invisible; a block with two or more that has to leave ends in different tiers under different orders.
* **No Belady anomaly** (`LruInclusion`): under LRU and one block size, a larger HBM holds what a smaller one holds
  at every event, so misses never rise with capacity. Spills, evictions and frees are allowed in the trace.
* **Urgency** (`Urgency`): a dominance bound between spent and pressing blocks, and stability of the victim when
  other blocks become more urgent. `IntentWeights` says what each declared property is worth in the scores, all else
  equal, and exactly which blocks DeadlineAware fetches back. Scores are exact reals.

## The ring

`RingProtocol.dfy` models push and pop as loads, compares, single-byte copies and publications, interleaved at will
between one producer and one consumer, with counters that are either unbounded or wrap at 2^64. It proves that the
wrapped machine refines the unbounded one and that every interleaving is a legal history of a FIFO queue of 4096
entries. `mi_ring_full` loads the head and then the tail; `mi_ring_empty` compares them in one expression, whose
order C leaves open, and the consumer's model covers both.
`Ring.dfy` is the same ring as an object, call by call; `RingCounters.dfy` holds the mask and wrap arithmetic.

## Speculative drafts

`Drafts.dfy` has the worklist search on arbitrary parent maps: it ends if and only if the node is not its own
ancestor. `DraftWorkload.dfy` has the breadth-first generator, with the Gaussian draws as an oracle. It builds a
complete forest, and raises exactly when a level deeper than ten is reached, because the recency `1.0 - 0.1 * depth`
leaves its range. `DraftPolicy.dfy`, `Resolution.dfy` and `Lifecycle.dfy` have the verdicts: for every sequence of
acceptance draws each node gets exactly one terminal event, and `DraftReplay.dfy` replays the trace through the
simulator. FREED intents need not be drafts: acceptance of a parent promotes its descendants first, so a freed block
is as it was filed exactly when its root was refused. `DraftOrder.dfy` has the order of the terminal events and of
the search below a refused node. Each node is drawn for at most once, so the draws are a function of the node.

## Import, shrinker, percentile, adapter

`Importer.dfy` has the nested import loops with exact integer ceilings in place of float division; `ImportReplay.dfy`
shows when imported traces meet the simulator's assumptions and what a replay leaves. `ShrinkerScore.dfy` has the
kernel shrinker's score with its 64-bit and 32-bit arithmetic, wrapping as the kernel builds it; `Shrinker.dfy` the
registry with its loops, one method per critical section; `ShrinkerRuns.dfy` all interleavings of them. An entry
carries a serial number that stands for its address. `Percentiles.dfy` has the percentile over reals. `Adapter.dfy`
has the serving-engine adapter. A cached block is stale when it is not what the log last said of it. Every call says
which blocks are stale afterwards, whatever was before: recording an event settles its block, no call at a
non-negative step makes a block stale, even if it raises, and a call at a negative step raises after it changed the
block it looked up, if that was cached or could be made.

## Notation

A record is a value: every stored intent in the source is a fresh copy, and the two in-place tier writes are to
blocks the map owns. Residency in the residency sets is kept apart from a block's own tier, as in the source: an
EVICTED event keeps the old tier, and a displacement to a full DRAM writes DRAM without joining `dram_blocks`.
Where one step of the source needs several proofs, the intermediate states are named functions.

## Model

| member | source | states |
|---|---|---|
| `Schema.ConstructYieldsValid` | src/kv_memory_intent/schema.py:81-99 | the constructor accepts exactly the records that pass every field check, changes nothing but the pin of decode-critical ones, and constructing again changes nothing |
| `Prelude.StringLessIsLexicographic` | src/kv_memory_intent/policies.py:44-49 | ids compare as Python strings do: a proper prefix first, else by the first differing character |
| `Policies.PreferredTotal` | src/kv_memory_intent/policies.py:40-49 | every policy's sort key is a strict total order on blocks with distinct ids |
| `Policies.VictimIsBestEligible` | src/kv_memory_intent/policies.py:136-150 | a victim is chosen unless there are no candidates; it is eligible (the intent family spares pinned blocks while an unpinned one exists) and no eligible block beats it |
| `Policies.VictimIgnoresOrder` | src/kv_memory_intent/policies.py:40-49 | any two listings of the same candidates give the same victim, under every policy |
| `Residency.VictimIsResident` | src/kv_memory_intent/simulator.py:184-219 | while something may be evicted, the policy names a block that is live and resident in HBM |
| `Residency.EnsureCapacityEnforces` | src/kv_memory_intent/simulator.py:184-235 | restoring capacity only removes HBM residents, only retags displaced blocks, keeps the live ids, and leaves everything else alone |
| `Residency.EnsureCapacityKeeps` | src/kv_memory_intent/simulator.py:184-235 | it keeps stored intents valid, residents live, the residency sets disjoint and HBM residents tagged HBM |
| `Residency.HandleKeeps` | src/kv_memory_intent/simulator.py:326-434 | every one of the ten event branches succeeds on a sound state and keeps it sound; the live ids afterwards depend on the event alone |
| `Residency.DecayKeeps` | src/kv_memory_intent/simulator.py:436-440 | decay succeeds on valid stored blocks and changes nothing but recency; how much is `EventEffects.RunFades` |
| `Displacements.EnforcementSettles` | src/kv_memory_intent/simulator.py:206-232 | restoring capacity appends one displacement entry per resident that leaves; those logged as spilled, and no other, join DRAM, the others are in it no longer, and spill and eviction counters grow by as many |
| `Displacements.SpillsJoinDram` | src/kv_memory_intent/simulator.py:222-232 | when no HBM resident is in DRAM too, DRAM loses nothing, gains only displaced residents, and the spill counter grows by exactly their number |
| `Displacements.EnforcementKeepsDramCapacity` | src/kv_memory_intent/simulator.py:222-224 | if DRAM use is within its capacity before, it is afterwards |
| `Displacements.EvictedOnlyWhenFull` | src/kv_memory_intent/simulator.py:222-232 | a resident that may go to DRAM and leaves without joining it would not fit there |
| `Displacements.DramOnlyGrows` | src/kv_memory_intent/simulator.py:222-232 | so DRAM use never falls while HBM capacity is restored |
| `Displacements.EnforcementLogs` | src/kv_memory_intent/simulator.py:186-232 | every entry added carries the step, the victim's own priority, phase, request priority and deadline, and whether another decode-critical block was resident at that turn; a last entry without victim marks pinned exhaustion |
| `EventEffects.StepRewrites` | src/kv_memory_intent/simulator.py:280-442 | what an event leaves of the block it names, field by field: which fields it takes from the intent for each of the ten kinds, which are fixed and which stay, with one fading if the step is new |
| `EventEffects.StepSparesOthers` | src/kv_memory_intent/simulator.py:280-442 | of any other block an event changes nothing but recency and, if that block is displaced from HBM, its tier |
| `EventEffects.StepPlaces` | src/kv_memory_intent/simulator.py:326-434 | where each event leaves its block, in residency sets and tier, and exactly when it counts a miss, a decode-critical miss or a new peak demand |
| `EventEffects.StepLogsPrefetch` | src/kv_memory_intent/simulator.py:403-423 | a PREFETCHED event counts a prefetch and logs it, last and with the block's declared protection, exactly if the block is live, outside HBM and wanted by the policy; otherwise it logs nothing |
| `EventEffects.RunFades` | src/kv_memory_intent/simulator.py:436-440 | over any stretch of trace that does not name a block, its recency falls by 0.03 for every step value that differs from the one before it, down to 0, and by nothing else |
| `Residency.StepKeeps` | src/kv_memory_intent/simulator.py:280-442 | one event on a supported trace raises nothing and keeps the state invariant |
| `Residency.RunKeeps` | src/kv_memory_intent/simulator.py:279-442 | no supported trace raises a validation error under any policy, capacities and set-iteration order, and the live ids at the end are computed from the trace alone |
| `Residency.RunKeepsPlacement` | src/kv_memory_intent/simulator.py:279-442 | as long as ALLOCATED names no block that is resident in another tier at that point, HBM and DRAM residents stay disjoint and HBM residents stay tagged HBM over the whole run; blocks live but resident nowhere may be allocated again |
| `Residency.RunFromEmpty` | src/kv_memory_intent/simulator.py:279-442 | both together for a whole simulation: residents are among the ids the trace leaves live |
| `Residency.FreshRunFromEmpty` | src/kv_memory_intent/simulator.py:279-442 | the same from the trace alone: it suffices that ALLOCATED names only ids that are not live |
| `TierErrors.DecayRaisesExactly` | src/kv_memory_intent/simulator.py:436-440 | the decay of a new step raises if and only if some live block sits in a tier it does not allow |
| `TierErrors.DisplacedTierExactly` | src/kv_memory_intent/simulator.py:220-232 | a displaced block ends in a tier it allows if and only if it allows one besides HBM |
| `TierErrors.LoneEventRaisesExactly` | src/kv_memory_intent/simulator.py:279-442 | one event of any kind on an empty simulator, in any configuration, raises if and only if its intent is not constructible or the block, seated in HBM, does not allow the tier it ends in: HBM if it stays, a fallback if it must leave |
| `TierErrors.LoneEventSafeEverywhere` | src/kv_memory_intent/simulator.py:175-178 | such an event raises in no configuration of any non-negative capacity if and only if its intent is constructible, an accessed block allows HBM and another tier, and a block allocated in HBM allows another tier |
| `TierErrors.LonePrefetchRaisesExactly` | src/kv_memory_intent/simulator.py:403-423 | a wanted prefetch of a lone block raises at a new step if and only if the intent does not allow the tier the block ends in |
| `TierErrors.SingleAllocationRaisesExactly` | src/kv_memory_intent/simulator.py:326-334 | in particular an unprotected HBM allocation that does not fit makes the run raise if and only if the block allows no tier but HBM |
| `Capacity.EnsureCapacityOutcome` | src/kv_memory_intent/simulator.py:184-235 | the loop ends within capacity, or, for the intent family only, with every resident pinned and the exhaustion counted |
| `Capacity.StepFits` | src/kv_memory_intent/simulator.py:280-442 | one event keeps the capacity invariant, recorded peak included, unless it allocates an HBM resident in another tier |
| `Capacity.RunFits` | src/kv_memory_intent/simulator.py:279-442 | as long as no ALLOCATED moves an HBM resident to another tier, LRU, HotCold and PredictiveHotness keep current and peak HBM use within capacity at every event; for the intent family, use above capacity implies a counted pinned exhaustion |
| `Capacity.TraceFits` | src/kv_memory_intent/simulator.py:279-442 | the same from the trace alone: it suffices that ALLOCATED names a live id only to place it in HBM |
| `Capacity.NamedPoliciesFit` | src/kv_memory_intent/simulator.py:279-442 | over a whole simulation in which ALLOCATED names no block resident in another tier, LRU, HotCold and PredictiveHotness end with use and peak within capacity, and IntentAware and DeadlineAware above capacity only after a counted pinned exhaustion |
| `Greedy.VictimIsFree` | src/kv_memory_intent/policies.py:136-150 | outside pinned exhaustion the victim is a resident the policy may take, and is preferred to every other such resident |
| `Greedy.EnforcementIsGreedy` | src/kv_memory_intent/simulator.py:184-235 | under every policy and for blocks of any sizes, each displaced resident is preferred to every free survivor, and putting the last one back would exceed capacity |
| `Pinning.VictimIsUnpinned` | src/kv_memory_intent/policies.py:136-150 | under the intent family a victim is pinned only if every resident is |
| `Pinning.PinnedSurvives` | src/kv_memory_intent/simulator.py:184-235 | a pinned HBM resident stays pinned and resident through any stretch of trace that does not spill, evict, free, reallocate or unpin it |
| `Pinning.PinnedAccessesHit` | src/kv_memory_intent/simulator.py:338-361 | and every access to it on the way is a hit |
| `Pinning.RunSparesCritical` | src/kv_memory_intent/simulator.py:184-219 | over every run, no displacement the intent family logs has a victim of priority DECODE_CRITICAL |
| `CriticalEvictions.UncountedExactly` | src/kv_memory_intent/simulator.py:206-219 | capacity pressure counts no decode-critical eviction, at any capacity, if and only if every resident in the DECODE phase is pinned |
| `CriticalEvictions.UncountedAtCapacityExactly` | src/kv_memory_intent/simulator.py:184-235 | at the memory's own capacity it counts none if and only if every DECODE resident is pinned or the memory fits once the unpinned residents preferred to all unpinned DECODE ones have left |
| `CriticalEvictions.SingleAllocationCountsExactly` | src/kv_memory_intent/simulator.py:206-219 | for every intent and every capacity: one allocation on an empty simulator, unless it raises, is counted as a decode-critical eviction exactly when the block is placed in HBM and does not fit, is in phase DECODE and unpinned; it raises exactly on the condition for a lone event |
| `CriticalEvictions.PairUnderPressure` | src/kv_memory_intent/simulator.py:206-219 | two unpinned DECODE blocks that fit one by one but not together make every intent-family policy count a decode-critical eviction, at any capacity |
| `CriticalEvictions.DeadlineAwareEvictsUnpinnedDecode` | README.md:10 | the advertised zero for DeadlineAware fails on a concrete trace: two blocks of 600 bytes in an HBM of 1000 |
| `CriticalEvictions.RunCountsNoCriticalEviction` | src/kv_memory_intent/simulator.py:279-442 | the zero does hold over every run of a trace whose DECODE intents ask to be pinned |
| `CriticalEvictions.RunUncountedExactly` | src/kv_memory_intent/simulator.py:279-442 | a run of a supported trace counts no decode-critical eviction if and only if no EVICTED event names a live decode-critical block and at each point where capacity is restored every DECODE resident is pinned or the memory fits once the blocks preferred to all unpinned DECODE ones have left |
| `Accounting.EnsureCapacityAccounts` | src/kv_memory_intent/simulator.py:184-235 | every eviction and spill of the loop is logged once and priced once |
| `Accounting.RunAccounts` | src/kv_memory_intent/simulator.py:279-442 | over every run, whatever the trace, latency and counters move together with the log and the explicit events |
| `Accounting.LatencyIsConserved` | src/kv_memory_intent/simulator.py:279-442 | total latency is exactly base latency per event plus priced misses, spills and prefetches |
| `Accounting.CountersMatchLog` | src/kv_memory_intent/simulator.py:144-166 | eviction, spill, prefetch and pinned-exhaustion counters equal the log entries plus explicit EVICTED and SPILLED events on live blocks |
| `TierRules.StepObeys` | src/kv_memory_intent/simulator.py:237-277 | any rule on allowed tiers that events and stored blocks obey is still obeyed after a step, merges included |
| `OrderIndependence.EnsureCapacityAgrees` | src/kv_memory_intent/simulator.py:184-235 | the eviction loop gives the same state and latency for any two iteration orders when each block has at most one fallback tier |
| `OrderIndependence.RunIgnoresOrder` | src/kv_memory_intent/simulator.py:279-442 | so do whole runs: maps, sets, counters, latencies and log agree, failures included |
| `OrderIndependence.EvictIgnoresOrderExactly` | src/kv_memory_intent/simulator.py:220-221 | one displacement is the same for all iteration orders if and only if the block has at most one fallback tier |
| `OrderIndependence.LoneRunIgnoresOrderExactly` | src/kv_memory_intent/simulator.py:279-442 | so is the run of one HBM allocation from the empty simulator, unless the block stays: it has the same outcome for all orders if and only if the block fits, is protected, or has at most one fallback tier |
| `LruInclusion.VictimIsOldest` | src/kv_memory_intent/policies.py:40-49 | the LRU victim is a resident with the smallest access stamp |
| `LruInclusion.EnforcementKeepsMostRecent` | src/kv_memory_intent/simulator.py:184-235 | with one block size, the loop leaves exactly the most recently used residents that fit |
| `LruInclusion.InclusionSurvives` | src/kv_memory_intent/simulator.py:184-235 | two memories, the smaller inside the larger, stay so when both take in the same block and evict down to their capacities |
| `LruInclusion.LargerHbmIncludesSmaller` | src/kv_memory_intent/simulator.py:279-442 | over whole LRU runs of one trace the smaller memory's residents are always among the larger's |
| `LruInclusion.MoreHbmNeverMissesMore` | src/kv_memory_intent/simulator.py:338-361 | so misses never rise as HBM grows: no Belady anomaly |
| `VictimOrder.VictimGoesFirst` | src/kv_memory_intent/policies.py:40-89 | LRU, HotCold and PredictiveHotness name the one candidate that goes before all others: by oldest access, by least recency, or by least heat (seven parts recency, three parts nearness of the next use), then by oldest access, larger size and smaller id |
| `VictimOrder.HotColdTakesColdest` | src/kv_memory_intent/policies.py:55-67 | HotCold's victim has the least recency of all candidates |
| `VictimOrder.EnforcementTakesFirst` | src/kv_memory_intent/simulator.py:184-235 | through a whole capacity loop, for blocks of any sizes, every displaced resident goes before every one that stays |
| `VictimOrder.HotColdKeepsHottest` | src/kv_memory_intent/simulator.py:184-235 | so under HotCold no displaced resident is more recent than a survivor |
| `VictimOrder.WarmerIsNotChosen` | src/kv_memory_intent/policies.py:73-89 | more recency or a shorter reuse window never makes a block the victim instead of another |
| `VictimOrder.VictimIsShedFirst` | src/kv_memory_intent/policies.py:136-150 | the victim of IntentAware and DeadlineAware is pinned only if all candidates are, and before all others it may name comes the higher score, then the larger size, then the greater id |
| `VictimOrder.EnforcementSheds` | src/kv_memory_intent/simulator.py:184-235 | through a whole capacity loop they displace no pinned resident, and only residents that go before every unpinned survivor in that order |
| `Simulator.KVMemorySimulator.constructor` | src/kv_memory_intent/simulator.py:97-130 | a new simulator is the initial state: nothing live, resident or logged, all counters zero and no step decayed yet |
| `Simulator.KVMemorySimulator.UsedBytes` | src/kv_memory_intent/simulator.py:132-139 | the loop computes the sum of sizes of the live members |
| `Simulator.KVMemorySimulator.RecordHbmUsage` | src/kv_memory_intent/simulator.py:141-142 | only the peak changes |
| `Simulator.KVMemorySimulator.EvictVictim` | src/kv_memory_intent/simulator.py:206-232 | one displacement moves all fields to the state the eviction relation names; the victim leaves HBM, is in DRAM afterwards exactly if the spill counter grew, and nothing else in DRAM changes |
| `Simulator.KVMemorySimulator.Consider` | src/kv_memory_intent/simulator.py:186-206 | candidates, refusal and choice are those of the state, in the oracle's order; under the access-based policies the choice goes before every other resident |
| `Simulator.KVMemorySimulator.EnsureHbmCapacity` | src/kv_memory_intent/simulator.py:184-235 | the loop terminates and computes the recursive specification |
| `Simulator.KVMemorySimulator.MoveToHbm` | src/kv_memory_intent/simulator.py:175-182 | state and latency of the move are the specified ones |
| `Simulator.KVMemorySimulator.Allocate` | src/kv_memory_intent/simulator.py:326-337 | the ALLOCATED branch computes its specification |
| `Simulator.KVMemorySimulator.Access` | src/kv_memory_intent/simulator.py:338-361 | the ACCESSED branch computes its specification and raises exactly when it does |
| `Simulator.KVMemorySimulator.Prefetch` | src/kv_memory_intent/simulator.py:403-423 | the PREFETCHED branch computes its specification and raises exactly when it does |
| `Simulator.KVMemorySimulator.Spill` | src/kv_memory_intent/simulator.py:395-402 | the SPILLED branch computes its specification and raises exactly when it does |
| `Simulator.KVMemorySimulator.Mark` | src/kv_memory_intent/simulator.py:362-394 | the two marking branches and COMMITTED compute their specifications and raise exactly when they do |
| `Simulator.KVMemorySimulator.Handle` | src/kv_memory_intent/simulator.py:326-434 | the dispatch over all ten event types computes the specified state and latency |
| `Simulator.KVMemorySimulator.CoolEach` | src/kv_memory_intent/simulator.py:437-439 | the decay loop, in whatever order, takes 0.03 off every recency, down to 0, and raises exactly when some block cannot be copied |
| `Simulator.KVMemorySimulator.CoolAll` | src/kv_memory_intent/simulator.py:436-440 | it does so once per step value and leaves a repeated one alone |
| `Simulator.KVMemorySimulator.Step` | src/kv_memory_intent/simulator.py:280-442 | one event on the object is one step of the specification |
| `Simulator.KVMemorySimulator.Run` | src/kv_memory_intent/simulator.py:279-442 | a whole run on the object is a run of the specification, so every whole-run lemma holds of the object |
| `Urgency.SpentOutscoresPressing` | src/kv_memory_intent/policies.py:191-227 | any unpinned COLD DONE block without deadline or slack scores above any unpinned DECODE block with deadline at most 1000 and slack at most 2000, whatever the other fields |
| `Urgency.PressingIsNotChosen` | src/kv_memory_intent/policies.py:191-227 | so DeadlineAware never picks the latter while the former is a candidate |
| `Urgency.SpentLeavesFirst` | src/kv_memory_intent/simulator.py:184-235 | and through a whole capacity loop the pressing block stays as long as the spent one does |
| `Urgency.RiskGrows` | src/kv_memory_intent/schema.py:166-211 | the risk score grows with tighter deadline or slack, higher request priority, fresher access and dearer recovery |
| `Urgency.IntentScoreFalls` | src/kv_memory_intent/policies.py:103-134 | the intent score falls with them |
| `Urgency.ScoreFalls` | src/kv_memory_intent/policies.py:191-227 | and so does the deadline score, across its steps |
| `Urgency.VictimIsStable` | src/kv_memory_intent/policies.py:136-150 | under IntentAware and DeadlineAware, making any of the blocks that were not chosen more urgent leaves the victim the same |
| `IntentWeights.RiskOfFlags` | src/kv_memory_intent/schema.py:166-211 | what pin, recomputability, compressibility and commitment each add to the eviction risk, all else equal |
| `IntentWeights.RiskOfClass` | src/kv_memory_intent/schema.py:166-211 | the risk falls by 220, 50 and 30 from one priority to the next |
| `IntentWeights.RiskOfNumbers` | src/kv_memory_intent/schema.py:166-211 | what request priority and recency add to it |
| `IntentWeights.RiskOfPhase` | src/kv_memory_intent/schema.py:166-211 | how the phases rank in it |
| `IntentWeights.RiskOfDueTimes` | src/kv_memory_intent/schema.py:166-211 | what a deadline, a slack and a decode step so far off add, each up to its limit |
| `IntentWeights.RiskOfCosts` | src/kv_memory_intent/schema.py:166-211 | what recomputation cost adds and a distant next use takes off, each up to its limit |
| `IntentWeights.IntentOfFlags` | src/kv_memory_intent/policies.py:103-134 | what pin and commitment take off IntentAware's eviction score: a term of their own and at most a fortieth of their part in the risk |
| `IntentWeights.IntentOfChoices` | src/kv_memory_intent/policies.py:103-134 | likewise recomputability and compressibility |
| `IntentWeights.IntentOfClass` | src/kv_memory_intent/policies.py:103-134 | likewise the priorities |
| `IntentWeights.IntentOfNumbers` | src/kv_memory_intent/policies.py:103-134 | likewise request priority and recency |
| `IntentWeights.IntentOfPhase` | src/kv_memory_intent/policies.py:103-134 | likewise the phases |
| `IntentWeights.IntentOfDueTimes` | src/kv_memory_intent/policies.py:103-134 | deadline, slack and decode step count through the risk alone, exactly a fortieth where that is not negative |
| `IntentWeights.IntentOfCosts` | src/kv_memory_intent/policies.py:103-134 | recomputation cost and reuse window, up to 180 and 120 points |
| `IntentWeights.ScoresOfAge` | src/kv_memory_intent/policies.py:103-134 | age counts a quarter of a point a step, up to 35, in both scores; an access in the future counts as none |
| `IntentWeights.DeadlineOfFlags` | src/kv_memory_intent/policies.py:191-227 | what the flags take off DeadlineAware's score, an eighteenth of the risk included |
| `IntentWeights.DeadlineOfClass` | src/kv_memory_intent/policies.py:191-227 | likewise the priorities, request priority with its step at 80, and recency |
| `IntentWeights.DeadlineOfPhase` | src/kv_memory_intent/policies.py:191-227 | likewise the phases |
| `IntentWeights.DeadlineOfTimes` | src/kv_memory_intent/policies.py:191-227 | a deadline protects in steps at 1000 and 5000, a slack in steps at 500 and 2000, besides their part in the risk |
| `IntentWeights.DeadlineOfCosts` | src/kv_memory_intent/policies.py:191-227 | recomputation protects in proportion, with a step at 4000 |
| `IntentWeights.PrefetchNeeds` | src/kv_memory_intent/policies.py:229-239 | DeadlineAware fetches back nothing that is in HBM, may not be prefetched, or is neither decoding nor HOT nor DECODE_CRITICAL |
| `IntentWeights.PrefetchWhenDue` | src/kv_memory_intent/policies.py:229-239 | any other block exactly when its deadline, slack or next use is near enough |
| `IntentWeights.OthersNeverPrefetch` | src/kv_memory_intent/policies.py:24-25 | no other policy fetches anything back |
| `RingCounters.MaskIsRemainder` | abi/memory_intent_ring.c:7-15 | masking with 2^k - 1 is the remainder modulo 2^k, from the bitwise definition |
| `RingCounters.SlotIsRemainder` | abi/memory_intent_ring.c:58-61 | the slot of a counter is its remainder modulo 4096 |
| `RingCounters.SlotIgnoresWrap` | abi/memory_intent_ring.c:58-61 | a wrapped counter selects the same slot as the unbounded one |
| `RingCounters.OccupancyIgnoresWrap` | abi/memory_intent_ring.c:31-41 | the wrapped difference of the counters is the true occupancy |
| `RingCounters.WrapSuccessor` | abi/memory_intent_ring.c:61-62 | incrementing commutes with wrapping |
| `RingCounters.SlotsDiffer` | abi/memory_intent_ring.c:58-61 | counters less than a capacity apart use different slots |
| `RingProtocol.WriterAvoidsReader` | abi/memory_intent_ring.c:43-63 | the slot being written is never unread and never the one being read |
| `RingProtocol.NextKeepsInv` | abi/memory_intent_ring.c:43-85 | every load, compare, byte copy and publication of either side keeps the protocol invariant |
| `RingProtocol.NextLinearizes` | abi/memory_intent_ring.c:43-85 | each small step performs the queue operations it takes effect as, on a bounded FIFO queue |
| `RingProtocol.RunLinearizes` | abi/memory_intent_ring.c:43-85 | so does every interleaving, refusals counted |
| `RingProtocol.NextRefines` | abi/memory_intent_ring.c:31-41 | each step on 64-bit counters is the step on unbounded counters, seen through wrapping |
| `RingProtocol.RunRefines` | abi/memory_intent_ring.c:31-41 | so is every run, however long |
| `RingProtocol.RunMovesEntries` | abi/memory_intent_ring.c:43-85 | the queue operations of any run enqueue and dequeue the entries pushed and popped, in order |
| `RingProtocol.RingIsLinearizable` | abi/memory_intent_ring.c:43-85 | from initialization, every interleaving of one producer and one consumer on wrapped counters is a legal history of a FIFO queue of 4096 entries that enqueues exactly the pushed entries, dequeues exactly the popped ones and has exactly the refusals returned; popped entries are a prefix of pushed ones, and no slot is written while it is read |
| `Ring.SharedRing.Initialize` | abi/memory_intent_ring.c:17-29 | the ring is empty and its header well formed |
| `Ring.SharedRing.Full` | abi/memory_intent_ring.c:31-36 | full exactly when as many entries are unread as the header's capacity says, which is 4096 behind a valid header |
| `Ring.SharedRing.Empty` | abi/memory_intent_ring.c:38-41 | empty exactly when none is |
| `Ring.SharedRing.Push` | abi/memory_intent_ring.c:43-63 | a push appends to the unread entries or is refused, with the code the source returns |
| `Ring.SharedRing.Pop` | abi/memory_intent_ring.c:65-85 | a pop takes the oldest unread entry or is refused |
| `Ring.PushUnread` | abi/memory_intent_ring.c:58-62 | writing the masked head slot and advancing appends one entry, counters at the end of their range included |
| `Ring.PopUnread` | abi/memory_intent_ring.c:80-83 | advancing the tail drops exactly the oldest entry |
| `Drafts.Descendants` | src/kv_memory_intent/speculative/spec_intent.py:23-32 | on any parent map where the node is not its own ancestor the worklist ends and finds every strict descendant exactly once, in the order its turns find them |
| `Drafts.Expand` | src/kv_memory_intent/speculative/spec_intent.py:28-31 | one turn's inner loop lists the children of the node, in order of insertion, behind what was found and what is pending |
| `DraftOrder.SearchFinds` | src/kv_memory_intent/speculative/spec_intent.py:25-31 | whenever the worklist empties, what it has found is, family by family, the children of the nodes in depth-first order with the last child first |
| `DraftOrder.SearchedInOrder` | src/kv_memory_intent/speculative/spec_intent.py:25-31 | so no node is found before one it lies under |
| `Drafts.SearchNeverEnds` | src/kv_memory_intent/speculative/spec_intent.py:25-31 | where the node is its own ancestor, no number of turns empties the worklist |
| `DraftWorkload.NodeCountIsPowerSum` | src/kv_memory_intent/speculative/draft_workload.py:22-68 | the node count of the forest is w + w^2 + ... + w^d |
| `DraftWorkload.LevelRange` | src/kv_memory_intent/speculative/draft_workload.py:22-31 | breadth-first numbering puts the levels in contiguous ranges of ids |
| `DraftWorkload.ParentIsOneUp` | src/kv_memory_intent/speculative/draft_workload.py:31-38 | a parent's id is smaller and its depth one less; roots have depth 0 |
| `DraftWorkload.DraftIntentAccepted` | src/kv_memory_intent/speculative/draft_workload.py:39-58 | the constructor refuses a generated node exactly when its depth exceeds ten, where the recency turns negative |
| `DraftWorkload.Generate` | src/kv_memory_intent/speculative/draft_workload.py:22-70 | the frontier loop ends; it raises exactly when width is positive and depth above eleven, and otherwise builds the complete forest and its trace; every node's acceptance probability is its draw, or the nearer of 0.05 and 0.95 if that lies outside, and the two events of each node declare what the node says |
| `DraftWorkload.TraceDeclares` | src/kv_memory_intent/speculative/draft_workload.py:39-66 | the allocation of a node is HOT exactly from a probability of 0.3 on, is due in 2000 us and has 1000 us of slack, both shortened by the probability and at least 1, is as recent as its depth says, and the access that follows is the same with recency 1 |
| `DraftWorkload.TraceIsNumbered` | src/kv_memory_intent/speculative/draft_workload.py:61-66 | every event's step is its position |
| `Verdicts.DescendantsAreSubtree` | src/kv_memory_intent/speculative/spec_intent.py:23-32 | in generated trees no node is its own ancestor, and the search finds the subtree without its root |
| `Verdicts.UnderRejected` | src/kv_memory_intent/speculative/benchmark.py:76-109 | everything below a refused node counts as refused |
| `Verdicts.AcceptedExactly` | src/kv_memory_intent/speculative/benchmark.py:76-109 | a node counts as accepted if and only if the draw of every node it lies under, itself included, is below that node's probability |
| `Verdicts.SiblingsApart` | src/kv_memory_intent/speculative/benchmark.py:104-105 | the subtrees of two siblings share no node |
| `DraftPolicy.SpeculativeIntentPolicy.constructor` | src/kv_memory_intent/speculative/spec_intent.py:36-40 | both counters start at zero |
| `DraftPolicy.SpeculativeIntentPolicy.ProcessVerifyEvent` | src/kv_memory_intent/speculative/spec_intent.py:42-70 | acceptance promotes exactly the node's and its descendants' kept blocks; refusal drops exactly those and counts each block and its size once |
| `Resolution.RefusedSettles` | src/kv_memory_intent/speculative/benchmark.py:63-74 | what a FREED event says of each node below a refused one: the block as it was first filed exactly if the refused root is above it, otherwise restored for decoding |
| `Resolution.AcceptedSettles` | src/kv_memory_intent/speculative/benchmark.py:92-101 | what a COMMITTED event says of an accepted node: in phase DECODE, DECODE_CRITICAL, pinned, committed and no draft |
| `Resolution.AcceptStep` | src/kv_memory_intent/speculative/benchmark.py:91-103 | an acceptance extends the trace by one terminal event and keeps blocks, drafts and resolved nodes in step |
| `Resolution.RefuseStep` | src/kv_memory_intent/speculative/benchmark.py:86-109 | a refusal extends it by one terminal event for every node of the subtree |
| `Resolution.DoomedTotals` | src/kv_memory_intent/speculative/spec_intent.py:62-70 | count and bytes of the dropped objects are those of the doomed blocks |
| `Lifecycle.BuildChildren` | src/kv_memory_intent/speculative/benchmark.py:36-40 | every node is listed exactly once, under its parent, in order of insertion |
| `Lifecycle.Resolver.constructor` | src/kv_memory_intent/speculative/benchmark.py:50-61 | the driver starts with the allocation trace, its next step and its last intents |
| `Lifecycle.Resolver.FreeSubtree` | src/kv_memory_intent/speculative/benchmark.py:63-74 | one FREED event per doomed block, at consecutive steps |
| `Lifecycle.Resolver.ResolveChildren` | src/kv_memory_intent/speculative/benchmark.py:104-112 | all subtrees below the given parent get their terminal events, child after child in order of insertion |
| `Lifecycle.Resolver.Accept` | src/kv_memory_intent/speculative/benchmark.py:94-105 | an accepted node, and it alone, gets its COMMITTED event next, with its subtree's blocks promoted and everything consistent |
| `Lifecycle.Resolver.Refuse` | src/kv_memory_intent/speculative/benchmark.py:89-109 | a refused node and everything below it, and nothing else, gets its FREED event, the node first and then what the search finds, with blocks and counters consistent |
| `Lifecycle.Resolver.Resolve` | src/kv_memory_intent/speculative/benchmark.py:76-109 | the recursion ends; everything below the node, and nothing else, gets its terminal event, in the order of the recursion, and trace, kept blocks and counters stay consistent |
| `Lifecycle.LifecycleTrace` | src/kv_memory_intent/speculative/benchmark.py:43-114 | for every draw: one terminal event per node, COMMITTED exactly for the nodes that and whose ancestors drew below their probabilities, ancestors before descendants and siblings in order of insertion; steps in order so that the final sort changes nothing, and the policy's counters are those of the FREED events |
| `Lifecycle.ResolutionInOrder` | src/kv_memory_intent/speculative/benchmark.py:76-112 | the order of the terminal events: no node before one it lies under, and below an accepted node, as among the roots, one child's subtree is done before the next child's begins |
| `DraftReplay.EachNodeSettledOnce` | src/kv_memory_intent/speculative/benchmark.py:76-109 | exactly one terminal event names a node's object: COMMITTED if it and all its ancestors were accepted, else FREED |
| `DraftReplay.LifecycleFollowsDraws` | src/kv_memory_intent/speculative/benchmark.py:76-109 | a COMMITTED event names a node's object if and only if every node it lies under drew below its probability, and a FREED event otherwise |
| `DraftReplay.SureVerdicts` | src/kv_memory_intent/speculative/draft_workload.py:29 | whatever the probabilities drawn, a node drawing 0.95 or more is freed, and one whose ancestors and itself draw below 0.05 is committed |
| `DraftReplay.CommittedPlusFreed` | src/kv_memory_intent/speculative/benchmark.py:131-132 | committed and freed add up to the node count |
| `DraftReplay.ReplayLeavesCommitted` | src/kv_memory_intent/simulator.py:392-434 | replaying the trace under any policy and capacities leaves live exactly the committed nodes' objects |
| `Sorting.SortOrders` | src/kv_memory_intent/trace_importer.py:30 | sorting by a strict weak order yields an ordered sequence |
| `Sorting.SortKeepsOrdered` | src/kv_memory_intent/speculative/benchmark.py:114 | sorting what is in order changes nothing, equal keys included |
| `Importer.PlanCovers` | src/kv_memory_intent/trace_importer.py:31-43 | the blocks cover the request: uncapped with none to spare, capped with the smallest size that fits; the hot tail is as long as the generated tokens need |
| `Importer.SegmentRecounts` | src/kv_memory_intent/trace_importer.py:44-217 | for every event of a segment, by position: its kind, block and step, and by kind: priority, phase, pin, deadline and slack in microseconds, recency, reuse window, costs and flags; recency and reuse window of the cold part fall in proportion to the block's number |
| `Importer.IntentsConstruct` | src/kv_memory_intent/trace_importer.py:44-216 | no intent the importer builds is refused by the constructor, for any valid record |
| `Importer.ImportRequest` | src/kv_memory_intent/trace_importer.py:44-217 | the four inner loops append the request's segment: every block allocated, each hot one marked and accessed, the others marked cold, and all freed if the request completed, at consecutive steps, with every field each event must declare |
| `Importer.Import` | src/kv_memory_intent/trace_importer.py:13-219 | the nested loops build the segments in arrival order, each declaring what its request says, or refuse bad settings in the source's order |
| `ImportReplay.ImportNameInjective` | src/kv_memory_intent/trace_importer.py:53 | object ids of different requests or blocks differ, whatever characters request ids hold |
| `ImportReplay.TraceTurns` | src/kv_memory_intent/trace_importer.py:30-219 | for all records each block is allocated before anything else names it and the live ids are the fold over the requests, an unfinished one adding its names and a completed one clearing them; without overlap a block is allocated only while it is not live |
| `ImportReplay.HeldExactly` | src/kv_memory_intent/trace_importer.py:30-219 | a block is left by that fold if and only if it belongs to an unfinished request and no later completed request of the same id is long enough to clear it |
| `ImportReplay.FreshExactly` | src/kv_memory_intent/trace_importer.py:30-219 | ALLOCATED names only ids that are not live if and only if no request repeats the id of an earlier one that never completed |
| `ImportReplay.TraceSupported` | src/kv_memory_intent/trace_importer.py:30-219 | every step is its position, every intent is one the simulator supports, and those in phase DECODE ask to be pinned |
| `ImportReplay.TraceInArrivalOrder` | src/kv_memory_intent/trace_importer.py:30 | events follow the arrival order of their requests |
| `ImportReplay.ArrivalsOrdered` | src/kv_memory_intent/trace_importer.py:30 | sorting by arrival and request id orders the requests |
| `ImportReplay.ReplayLeavesHeld` | src/kv_memory_intent/simulator.py:279-442 | for all records, under any policy, capacities and iteration order, a replay raises nothing and leaves live exactly that fold |
| `ImportReplay.ReplayKeepsUnfinished` | src/kv_memory_intent/simulator.py:279-442 | if no request repeats the id of one that never completed, these are exactly the blocks of the unfinished requests, and no block is in both tiers |
| `ImportReplay.ReplayCountsNoCriticalEviction` | src/kv_memory_intent/simulator.py:206-219 | the advertised zero holds of every imported trace: under the intent family a replay counts no decode-critical eviction, at any capacity |
| `ImportReplay.ReplayEmptiesMemory` | src/kv_memory_intent/simulator.py:279-442 | if all requests completed, nothing is live or resident at the end, under any policy |
| `ShrinkerScore.UrgencyOfLateness` | kernel_patches/kv_intent_shrinker/kv_intent_shrinker.c:83-97 | for every 64-bit deadline, and whether the entry was stamped before or after the scan read its clock, the urgency is that of the lateness, or, when the slack is 2^63 or more, that of an entry 2^64 later |
| `ShrinkerScore.ScoreIsIntended` | kernel_patches/kv_intent_shrinker/kv_intent_shrinker.c:99-103 | the computed score is the intended one if and only if the slack is below 2^63, or at least 2^64 + 10000, and, except in the class that weighs nothing, the lateness is below 10 * (INT_MAX - 999 - weight) |
| `ShrinkerScore.LaterScoresHigher` | kernel_patches/kv_intent_shrinker/kv_intent_shrinker.c:83-103 | while both scores are the intended ones a later entry of the same class scores no lower |
| `ShrinkerScore.ColdOutranksWarm` | kernel_patches/kv_intent_shrinker/kv_intent_shrinker.c:61-81 | a COLD entry outscores a WARM one unless that is some 5000 us later, and then no longer |
| `ShrinkerScore.ClassesApart` | kernel_patches/kv_intent_shrinker/kv_intent_shrinker.c:66-71 | all else equal the classes lie 500, 375 and 125 apart, and a far-off deadline leaves the weight alone |
| `ShrinkerScore.OverflowInvertsOrder` | kernel_patches/kv_intent_shrinker/kv_intent_shrinker.c:99-103 | past the bound of the sum the order turns round, on concrete entries |
| `ShrinkerScore.HugeDeadlineInvertsOrder` | kernel_patches/kv_intent_shrinker/kv_intent_shrinker.c:83-97 | so it does past the bound of the slack, with no int overflow: a deadline of 2^64 - 20000 outranks one of 100 |
| `Shrinker.Registry.constructor` | kernel_patches/kv_intent_shrinker/kv_intent_shrinker.c:59-60 | the registry starts empty |
| `Shrinker.Registry.Find` | kernel_patches/kv_intent_shrinker/kv_intent_shrinker.c:126-136 | the first entry with the hash, or none if no entry has it |
| `Shrinker.Registry.Register` | kernel_patches/kv_intent_shrinker/kv_intent_shrinker.c:138-188 | one entry is published, COLD, WARM, HOT or DECODE_CRITICAL by its level and pinned exactly in the last case, or the call is refused with the source's code and changes nothing |
| `Shrinker.Registry.Unregister` | kernel_patches/kv_intent_shrinker/kv_intent_shrinker.c:190-219 | the entry with the hash, and no other, is removed and retired |
| `Shrinker.Registry.Count` | kernel_patches/kv_intent_shrinker/kv_intent_shrinker.c:271-286 | the number of unpinned COLD and WARM entries; zero exactly when none is listed |
| `Shrinker.Registry.EvictBest` | kernel_patches/kv_intent_shrinker/kv_intent_shrinker.c:298-325 | one turn takes the first of the highest-scoring unpinned COLD or WARM entries, if there is one |
| `Shrinker.Registry.Scan` | kernel_patches/kv_intent_shrinker/kv_intent_shrinker.c:288-330 | exactly as many entries as asked for, or as there are unpinned COLD and WARM ones, are removed, all of these classes, each the best at its turn |
| `Shrinker.ScanConserves` | kernel_patches/kv_intent_shrinker/kv_intent_shrinker.c:288-330 | a scan removes only evictable entries and loses nothing else |
| `Shrinker.ScanTakesColdOrWarm` | kernel_patches/kv_intent_shrinker/kv_intent_shrinker.c:105-116 | no scan takes a HOT, DECODE_CRITICAL or pinned entry |
| `Shrinker.ScanTakesTheHighest` | kernel_patches/kv_intent_shrinker/kv_intent_shrinker.c:288-330 | with the clock held, every removed entry scores at least as high as every evictable survivor, and they go in order of score |
| `Shrinker.ScansAgree` | kernel_patches/kv_intent_shrinker/kv_intent_shrinker.c:288-330 | a scan leaves no choice: of two scans of one list at the same times the longer takes first what the shorter takes, and equally long ones leave the same list |
| `ShrinkerRuns.NextKeeps` | kernel_patches/kv_intent_shrinker/kv_intent_shrinker.c:138-330 | each critical section keeps hashes unique and every published entry either listed or retired, exactly once |
| `ShrinkerRuns.RunKeeps` | kernel_patches/kv_intent_shrinker/kv_intent_shrinker.c:138-330 | so does every interleaving of registrations, removals and scan turns |
| `ShrinkerRuns.RetiredOnce` | kernel_patches/kv_intent_shrinker/kv_intent_shrinker.c:138-330 | an entry is retired at most once and never comes back |
| `ShrinkerRuns.ProtectedStay` | kernel_patches/kv_intent_shrinker/kv_intent_shrinker.c:105-116 | a HOT, DECODE_CRITICAL or pinned entry leaves the list only by its own unregistration |
| `ShrinkerRuns.ProtectedUntilUnregistered` | kernel_patches/kv_intent_shrinker/kv_intent_shrinker.c:105-116 | over every interleaving, such an entry is listed until its hash is unregistered |
| `Percentiles.PercentileInRange` | src/kv_memory_intent/metrics.py:31-45 | the value is bracketed by inputs and is the least at 0 and the greatest at 100 |
| `Percentiles.PercentileMonotone` | src/kv_memory_intent/metrics.py:31-45 | it never falls as p grows, across segments too |
| `Percentiles.PercentileIgnoresOrder` | src/kv_memory_intent/metrics.py:31-45 | it depends on the multiset of values only |
| `Percentiles.InterpolatesLinearly` | src/kv_memory_intent/metrics.py:39-45 | each order statistic is hit at its rank, with a straight line between neighbours |
| `Percentiles.RunReportsOrdered` | src/kv_memory_intent/simulator.py:463-465 | every run reports p50 <= p95 <= p99 |
| `Adapter.CacheIsLastRecorded` | src/kv_memory_intent/adapters/vllm_adapter.py:59-62 | a block is cached exactly if the last thing that happened to it was a recording, and then with that event's intent |
| `Adapter.VLLMIntentAdapter.constructor` | src/kv_memory_intent/adapters/vllm_adapter.py:19-29 | empty cache and log agree; an empty tier set means the default tiers |
| `Adapter.VLLMIntentAdapter.Record` | src/kv_memory_intent/adapters/vllm_adapter.py:59-62 | the recorded block is not stale afterwards, and no other block changes its standing |
| `Adapter.VLLMIntentAdapter.MakeIntent` | src/kv_memory_intent/adapters/vllm_adapter.py:76-135 | a new intent is valid and filed under its request and block, with the priority, deadline and slack given or known for the request; it can be made exactly on the stated condition, and no request's defaults change |
| `Adapter.SlackMeans` | src/kv_memory_intent/adapters/vllm_adapter.py:64-75 | slack is a fifth of the deadline, at least 50, less 40 for every place behind the first and more for every ten points of priority, never below 50 |
| `Adapter.VLLMIntentAdapter.GetOrCreateBlock` | src/kv_memory_intent/adapters/vllm_adapter.py:137-189 | succeeds exactly if the block is reached; then only that block is changed: a cached one takes phase, priority and what is given and keeps the rest, a new one is made; it is stale unless the log last spoke of it with this very access step; a call that raises changes no block |
| `Adapter.VLLMIntentAdapter.OnRequestScheduled` | src/kv_memory_intent/adapters/vllm_adapter.py:191-204 | later calls for that request use the given priority and deadline by default; no other request's defaults change |
| `Adapter.VLLMIntentAdapter.OnBlockAllocated` | src/kv_memory_intent/adapters/vllm_adapter.py:206-243 | one ALLOCATED event for the block with the priority, recency and reuse window of its phase, refused exactly at a negative step or when no intent can be built, in which case no block changes |
| `Adapter.VLLMIntentAdapter.OnBlockAccessed` | src/kv_memory_intent/adapters/vllm_adapter.py:245-273 | one ACCESSED event of the block as cached, most recent now, in the phase given and with the protection asked for; the call succeeds if and only if the block, cached or not, is reached and the step is not negative, and then the block is not stale; reached at a negative step, the block and no other is changed and the event refused |
| `Adapter.VLLMIntentAdapter.OneEventAgrees` | src/kv_memory_intent/adapters/vllm_adapter.py:245-446 | so a cache that agrees with a log of non-negative access steps agrees after such a call if and only if the step is not negative or the block was not reached |
| `Adapter.VLLMIntentAdapter.OnDecodeStep` | src/kv_memory_intent/adapters/vllm_adapter.py:275-330 | a marking and an access for every active block, in order, all noted: pinned, due at its place and the less recent the later it stands; the request keeps the priority and deadline given; none of the blocks is stale afterwards; a call that raises makes no block stale, except the first if that is reached at a negative step |
| `Adapter.VLLMIntentAdapter.OnPrefillStep` | src/kv_memory_intent/adapters/vllm_adapter.py:332-361 | an access for every block, in order, all noted, WARM and unpinned; stale blocks as for a decode step |
| `Adapter.VLLMIntentAdapter.BatchAgrees` | src/kv_memory_intent/adapters/vllm_adapter.py:275-482 | so agreement is lost in a call over several blocks if and only if the step is negative and the first block is reached |
| `Adapter.VLLMIntentAdapter.OnBlockCommitted` | src/kv_memory_intent/adapters/vllm_adapter.py:363-387 | one COMMITTED event of a WARM block that is no draft, else as cached; success, refusal and staleness as for an access |
| `Adapter.VLLMIntentAdapter.OnBlockMarkedCold` | src/kv_memory_intent/adapters/vllm_adapter.py:389-418 | one MARKED_COLD event of an unpinned, compressible block, recomputable unless committed, to be prefetched unless its next use is 1000 tokens off; likewise |
| `Adapter.VLLMIntentAdapter.OnBlockFreed` | src/kv_memory_intent/adapters/vllm_adapter.py:420-446 | one FREED event of a block done with, unpinned, in DRAM if allowed; likewise |
| `Adapter.VLLMIntentAdapter.OnRequestFinished` | src/kv_memory_intent/adapters/vllm_adapter.py:448-482 | a MARKED_COLD and, one step later, a FREED for each block in order; exactly the listed blocks leave the cache, each noted as finished, and the request is forgotten; stale blocks as for a decode step |
| `Adapter.VLLMIntentAdapter.EmitSequenceAccesses` | src/kv_memory_intent/adapters/vllm_adapter.py:484-509 | schedules an unseen request, then records the markings and accesses of a decode step or the accesses of a prefill step, under the defaults just scheduled; stale blocks as for those |
| `Adapter.VLLMIntentAdapter.EmitSequenceSpill` | src/kv_memory_intent/adapters/vllm_adapter.py:511-527 | one SPILLED event for each listed block that is cached, in order, which moves it to DRAM and changes nothing else; refused if and only if some listed block is cached and the step is negative or DRAM not allowed; it makes no block stale, and on success no listed block is |
| `Adapter.VLLMIntentAdapter.EmitSequenceFree` | src/kv_memory_intent/adapters/vllm_adapter.py:529-532 | the same events as a finished request; exactly the listed blocks leave the cache |
| `Adapter.LogReplays` | src/kv_memory_intent/simulator.py:279-442 | whatever the adapter recorded, calls that raised included, replays without a validation error when its tiers hold HBM and a fallback |

## Left out

- Simulator.KVMemorySimulator.Run: when an event raises, the model says that it raises, not which error or how far
  the fields had been updated.
- Simulator.KVMemorySimulator.EvictVictim: the log entry keeps its structured fields only; the free-text explanation
  of `explain_victim_choice` and the policy name are not modelled.
- Percentiles.PercentileInRange: exact reals; floating-point rounding is not modelled, here and in all scores.
- ShrinkerScore.ScoreIsIntended: both readings of the clock are below 2^63 microseconds.
- ImportReplay.ReplayKeepsUnfinished: where a request repeats the id of an unfinished one, a block may be allocated
  while resident in another tier, so the two residency sets are not shown disjoint; what is live is still exact
  (`ReplayLeavesHeld`).
- Importer.Import: the KV bytes per token of the model configuration are a positive parameter.
- RingProtocol.RingIsLinearizable: sequentially consistent atomics, one producer and one consumer, as the ring code
  uses them; the null-pointer checks are not part of this model.
- Lifecycle.Resolver.ResolveChildren: the two loops of the source, over a node's children and over the roots, are one
  method.
- Adapter.VLLMIntentAdapter.EmitSequenceAccesses: the attributes read off a sequence object are parameters.
- `SimulationResult`: the fields derived from the final state, other than the percentiles.
- Object identity: that no live block aliases an input event's intent holds by construction on values.
- The simulator's ten counters are one record field of the object.
- Synthetic and mock workload generators, the prepared draft intent and dict round trips: they add only easy members.
- The base `PlacementPolicy` class and the registry of policy names.
- procfs parsing, RCU grace periods and module start and stop in the shrinker.
- Command line, tables, plots, file formats, Prometheus and OpenAI adapters, disaggregated serving, kernel patches
  other than the shrinker, and experiments.
