/** The simulator as a state machine on values: what each step of simulator.py does to its fields.
    The class in Simulator.dfy is proved to compute these functions. */
module Simulation {
  import opened Prelude
  import opened Schema
  import opened Policies

  /** Blocks are filed under their own id. */
  type LiveMap = m: map<string, MemoryIntent> | forall k | k in m :: m[k].objectId == k

  datatype Action = SpillAction | EvictAction | ExhaustedAction | PrefetchAction

  datatype VictimInfo = VictimInfo(
    objectId: string, priority: Priority, phase: Phase, requestPriority: int, deadlineUs: Option<int>)

  datatype LogEntry = LogEntry(step: nat, action: Action, victim: Option<VictimInfo>, avoidedCritical: bool)

  datatype Config = Config(
    policy: Policy, hbmCapacity: int, dramCapacity: int,
    missPenalty: int, spillLatency: int, prefetchLatency: int, baseLatency: int)

  /** Everything Python leaves open: the order in which iterating `hbm_blocks` lists the ids, and which tier
      iterating `allowed_tiers` yields first. The log grows between two uses that matter, so indexing by its
      length makes every such choice free. */
  datatype Oracle = Oracle(order: (nat, set<string>) -> seq<string>, tier: (nat, set<Tier>) -> Tier)

  datatype State = State(
    live: LiveMap,
    hbm: set<string>,
    dram: set<string>,
    latencies: seq<int>,
    log: seq<LogEntry>,
    spills: int,
    prefetches: int,
    misses: int,
    evictions: int,
    criticalMisses: int,
    criticalEvictions: int,
    peakDemand: int,
    peakUsed: int,
    exhaustions: int,
    pinnedExhaustions: int,
    lastDecay: int
  )

  function Initial(): State {
    State(map[], {}, {}, [], [], 0, 0, 0, 0, 0, 0, 0, 0, 0, 0, -1)
  }

  function Size(live: LiveMap, id: string): int {
    if id in live then live[id].sizeBytes else 0
  }

  /** Sum of the sizes of the live members of `ids`. */
  ghost function Used(live: LiveMap, ids: set<string>): int
    decreases |ids|
  {
    if ids == {} then 0
    else
      var x :| x in ids;
      Size(live, x) + Used(live, ids - {x})
  }

  ghost function RecordUsage(s: State): State {
    s.(peakUsed := Max(s.peakUsed, Used(s.live, s.hbm)))
  }

  ghost function Enumerate(o: Oracle, n: nat, ids: set<string>): (r: seq<string>)
    ensures Enumerates(r, ids)
  {
    if Enumerates(o.order(n, ids), ids) then o.order(n, ids)
    else
      EnumerationExists(ids);
      var r :| Enumerates(r, ids);
      r
  }

  /** The blocks filed under `ids`, in order, skipping ids that are not live. */
  function Lookup(live: LiveMap, ids: seq<string>): (r: seq<MemoryIntent>)
    ensures forall b :: b in r <==> b.objectId in ids && b.objectId in live && b == live[b.objectId]
  {
    if ids == [] then []
    else
      var last := |ids| - 1;
      assert ids == ids[..last] + [ids[last]];
      Lookup(live, ids[..last]) + if ids[last] in live then [live[ids[last]]] else []
  }

  ghost function Candidates(o: Oracle, s: State): seq<MemoryIntent> {
    Lookup(s.live, Enumerate(o, |s.log|, s.hbm))
  }

  predicate AllPinned(blocks: seq<MemoryIntent>) {
    forall b | b in blocks :: b.pinRequested
  }

  function FirstTier(tiers: set<Tier>): Tier {
    if DRAM in tiers then DRAM else if CXL in tiers then CXL else if NVME in tiers then NVME else HBM
  }

  /** The first tier other than HBM that the block allows, if there is one. */
  function Fallback(o: Oracle, n: nat, b: MemoryIntent): (r: Option<Tier>)
    ensures r.None? <==> b.allowedTiers <= {HBM}
    ensures r.Some? ==> r.value in b.allowedTiers && r.value != HBM
  {
    var tiers := b.allowedTiers - {HBM};
    if tiers == {} then None
    else if o.tier(n, tiers) in tiers then Some(o.tier(n, tiers))
    else
      assert FirstTier(tiers) in tiers by {
        var t :| t in tiers;
        assert t == DRAM || t == CXL || t == NVME;
      }
      Some(FirstTier(tiers))
  }

  function Describe(b: MemoryIntent): VictimInfo {
    VictimInfo(b.objectId, b.priority, b.phase, b.requestPriority, b.deadlineUs)
  }

  predicate AvoidedCritical(victim: MemoryIntent, blocks: seq<MemoryIntent>) {
    exists b | b in blocks :: b.objectId != victim.objectId && IsDecodeCritical(b)
  }

  ghost predicate SpillsToDram(c: Config, o: Oracle, s: State, victim: MemoryIntent) {
    && Fallback(o, |s.log|, victim) == Some(DRAM)
    && Used(s.live, s.dram) + victim.sizeBytes <= c.dramCapacity
  }

  function File(live: LiveMap, block: MemoryIntent): LiveMap {
    live[block.objectId := block]
  }

  /** The victim leaves HBM for `tier`; `toDram` says whether DRAM takes it in. */
  function Displace(s: State, victim: MemoryIntent, tier: Tier, toDram: bool, entry: LogEntry): State {
    s.(evictions := s.evictions + 1,
       criticalEvictions := s.criticalEvictions + (if IsDecodeCritical(victim) then 1 else 0),
       hbm := s.hbm - {victim.objectId},
       live := File(s.live, victim.(currentTier := tier)),
       dram := if toDram then s.dram + {victim.objectId} else s.dram - {victim.objectId},
       spills := s.spills + (if toDram then 1 else 0),
       log := s.log + [entry])
  }

  /** One turn of the eviction loop, once the victim is chosen. */
  ghost function Evict(c: Config, o: Oracle, s: State, step: nat, victim: MemoryIntent): State {
    var avoided := AvoidedCritical(victim, Candidates(o, s));
    if SpillsToDram(c, o, s, victim) then
      Displace(s, victim, DRAM, true, LogEntry(step, SpillAction, Some(Describe(victim)), avoided))
    else
      var target := match Fallback(o, |s.log|, victim) case Some(t) => t case None => NVME;
      Displace(s, victim, target, false, LogEntry(step, EvictAction, Some(Describe(victim)), avoided))
  }

  /** All resident blocks are pinned and the policy refuses to displace pinned blocks. */
  ghost predicate Stuck(c: Config, s: State) {
    && c.policy.intentFamily
    && (exists id :: id in s.hbm && id in s.live)
    && (forall id | id in s.hbm && id in s.live :: s.live[id].pinRequested)
  }

  ghost function Exhaust(s: State, step: nat): State {
    s.(exhaustions := s.exhaustions + 1,
       pinnedExhaustions := s.pinnedExhaustions + 1,
       log := s.log + [LogEntry(step, ExhaustedAction, None, false)])
  }

  /** `_ensure_hbm_capacity`: evict until HBM fits or nothing may be evicted; also the latency added. */
  ghost function EnsureCapacity(c: Config, o: Oracle, s: State, step: nat): (State, int)
    decreases |s.hbm|
  {
    if Used(s.live, s.hbm) <= c.hbmCapacity then (RecordUsage(s), 0)
    else if Stuck(c, s) then (RecordUsage(Exhaust(s, step)), 0)
    else
      VictimIsBestEligible(c.policy, Candidates(o, s), step);
      match ChooseVictim(c.policy, Candidates(o, s), step)
      case None => (RecordUsage(s.(exhaustions := s.exhaustions + 1)), 0)
      case Some(victim) =>
        var (s', added) := EnsureCapacity(c, o, Evict(c, o, s, step, victim), step);
        (s', added + if SpillsToDram(c, o, s, victim) then c.spillLatency else 0)
  }

  /** The block takes its place in HBM, before capacity is restored. */
  function Seat(s: State, block: MemoryIntent): State {
    s.(live := File(s.live, block.(currentTier := HBM)),
       hbm := s.hbm + {block.objectId},
       dram := s.dram - {block.objectId})
  }

  /** `_move_to_hbm`. */
  ghost function MoveToHbm(c: Config, o: Oracle, s: State, block: MemoryIntent, step: nat): (State, int) {
    var (s', added) := EnsureCapacity(c, o, Seat(s, block), step);
    (RecordUsage(s'), added)
  }

  /** The fields an event of each kind takes from the incoming intent; the others stay. */
  function Merge(kind: EventType, x: MemoryIntent, i: MemoryIntent): MemoryIntent {
    match kind
    case MarkedDecodeCritical =>
      x.(priority := i.priority, phase := i.phase, pinRequested := i.pinRequested, deadlineUs := i.deadlineUs,
         slackUs := i.slackUs, targetDecodeStep := i.targetDecodeStep, reuseWindow := i.reuseWindow,
         requestPriority := i.requestPriority, recency := i.recency)
    case MarkedCold =>
      x.(priority := i.priority, phase := i.phase, deadlineUs := i.deadlineUs, slackUs := i.slackUs,
         compressionOk := i.compressionOk, recomputeOk := i.recomputeOk, prefetchOk := i.prefetchOk,
         recency := i.recency)
    case Accessed =>
      x.(lastAccessStep := i.lastAccessStep, recency := i.recency, phase := i.phase, priority := i.priority,
         deadlineUs := i.deadlineUs, slackUs := i.slackUs, targetDecodeStep := i.targetDecodeStep,
         reuseWindow := i.reuseWindow, pinRequested := i.pinRequested, prefetchOk := i.prefetchOk)
    case Committed => x.(isCommitted := i.isCommitted, isDraft := i.isDraft)
    case _ => i.(objectId := x.objectId)
  }

  function AccessedBlock(x: MemoryIntent, i: MemoryIntent, step: nat): Result<MemoryIntent> {
    Construct(x.(
      lastAccessStep := step, recency := RMax(i.recency, 1.0), phase := i.phase, priority := i.priority,
      deadlineUs := i.deadlineUs, slackUs := i.slackUs, targetDecodeStep := i.targetDecodeStep,
      reuseWindow := i.reuseWindow, pinRequested := i.pinRequested, prefetchOk := i.prefetchOk))
  }

  function CriticalBlock(x: MemoryIntent, i: MemoryIntent): Result<MemoryIntent> {
    Construct(x.(
      priority := DecodeCritical, phase := i.phase, pinRequested := true, deadlineUs := i.deadlineUs,
      slackUs := i.slackUs, targetDecodeStep := i.targetDecodeStep, reuseWindow := i.reuseWindow,
      requestPriority := i.requestPriority, recency := i.recency))
  }

  function ColdBlock(x: MemoryIntent, i: MemoryIntent): Result<MemoryIntent> {
    Construct(x.(
      priority := Cold, phase := i.phase, deadlineUs := i.deadlineUs, slackUs := i.slackUs,
      compressionOk := i.compressionOk, recomputeOk := i.recomputeOk, prefetchOk := i.prefetchOk,
      recency := i.recency))
  }

  /** An allocation is filed and counted, before capacity is restored. */
  ghost function Admit(s: State, intent: MemoryIntent): State {
    var live := File(s.live, intent);
    var onHbm := intent.currentTier == HBM;
    s.(live := live,
       peakDemand := Max(s.peakDemand, Used(live, s.hbm) + (if onHbm then intent.sizeBytes else 0)),
       hbm := if onHbm then s.hbm + {intent.objectId} else s.hbm,
       dram := if intent.currentTier == DRAM then s.dram + {intent.objectId} else s.dram)
  }

  ghost function OnAllocated(c: Config, o: Oracle, s: State, step: nat, intent: MemoryIntent): (State, int) {
    if intent.currentTier == HBM then
      var (s', added) := EnsureCapacity(c, o, Admit(s, intent), step);
      (RecordUsage(s'), added)
    else (RecordUsage(Admit(s, intent)), 0)
  }

  function Refile(s: State, block: MemoryIntent): State {
    s.(live := File(s.live, block))
  }

  function Missed(s: State, block: MemoryIntent): State {
    s.(live := File(s.live, block),
       misses := s.misses + 1,
       criticalMisses := s.criticalMisses + (if IsDecodeCritical(block) then 1 else 0))
  }

  ghost function OnAccessed(c: Config, o: Oracle, s: State, step: nat, intent: MemoryIntent): Result<(State, int)> {
    var id := intent.objectId;
    var block :- AccessedBlock(if id in s.live then s.live[id] else intent, intent, step);
    if id in s.hbm then Ok((RecordUsage(Refile(s, block)), 0))
    else
      var (s', added) := MoveToHbm(c, o, Missed(s, block), block, step);
      Ok((s', c.missPenalty + added))
  }

  function OnMarkedDecodeCritical(s: State, intent: MemoryIntent): Result<State> {
    var id := intent.objectId;
    var block :- if id in s.live then CriticalBlock(s.live[id], intent)
                 else Construct(intent.(priority := DecodeCritical, pinRequested := true));
    Ok(Refile(s, block))
  }

  function OnMarkedCold(s: State, intent: MemoryIntent): Result<State> {
    var id := intent.objectId;
    if id !in s.live then Ok(s)
    else
      var block :- ColdBlock(s.live[id], intent);
      Ok(Refile(s, block))
  }

  function OnCommitted(s: State, intent: MemoryIntent): Result<State> {
    var id := intent.objectId;
    if id !in s.live then Ok(s)
    else
      var block :- Construct(s.live[id].(isCommitted := true, isDraft := false));
      Ok(Refile(s, block))
  }

  function ToDram(s: State, block: MemoryIntent): State {
    s.(live := File(s.live, block),
       hbm := s.hbm - {block.objectId},
       dram := s.dram + {block.objectId},
       spills := s.spills + 1)
  }

  function OnSpilled(c: Config, s: State, intent: MemoryIntent): Result<(State, int)> {
    var id := intent.objectId;
    if id !in s.live || DRAM !in s.live[id].allowedTiers then Ok((s, 0))
    else
      var block :- Construct(s.live[id].(currentTier := DRAM));
      Ok((ToDram(s, block), c.spillLatency))
  }

  function PrefetchedBlock(x: MemoryIntent, i: MemoryIntent): Result<MemoryIntent> {
    Construct(Merge(Prefetched, x, i))
  }

  function Fetched(s: State, block: MemoryIntent): State {
    s.(live := File(s.live, block), prefetches := s.prefetches + 1)
  }

  function LogPrefetch(s: State, step: nat, block: MemoryIntent): State {
    s.(log := s.log + [LogEntry(step, PrefetchAction, Some(Describe(block)), false)])
  }

  ghost function Fetch(c: Config, o: Oracle, s: State, step: nat, block: MemoryIntent): (State, int) {
    if !c.policy.wantsPrefetch(block, step) then (Refile(s, block), 0)
    else
      var (s', added) := MoveToHbm(c, o, Fetched(s, block), block, step);
      (LogPrefetch(s', step, block), c.prefetchLatency + added)
  }

  ghost function OnPrefetched(c: Config, o: Oracle, s: State, step: nat, intent: MemoryIntent): Result<(State, int)> {
    var id := intent.objectId;
    if id !in s.live || id in s.hbm then Ok((s, 0))
    else
      var block :- PrefetchedBlock(s.live[id], intent);
      Ok(Fetch(c, o, s, step, block))
  }

  function OnEvicted(s: State, id: string): State {
    if id !in s.live then s
    else s.(hbm := s.hbm - {id}, dram := s.dram - {id}, evictions := s.evictions + 1,
            criticalEvictions := s.criticalEvictions + if IsDecodeCritical(s.live[id]) then 1 else 0)
  }

  function OnFreed(s: State, id: string): State {
    s.(live := s.live - {id}, hbm := s.hbm - {id}, dram := s.dram - {id})
  }

  function Unpriced(r: Result<State>): Result<(State, int)> {
    match r case Ok(s) => Ok((s, 0)) case Err(e) => Err(e)
  }

  /** The effect of one event, given the intent already merged with the live block, and the latency it adds. */
  ghost function Handle(c: Config, o: Oracle, s: State, kind: EventType, step: nat, intent: MemoryIntent)
    : Result<(State, int)>
  {
    match kind
    case Allocated => Ok(OnAllocated(c, o, s, step, intent))
    case Accessed => OnAccessed(c, o, s, step, intent)
    case MarkedDecodeCritical => Unpriced(OnMarkedDecodeCritical(s, intent))
    case MarkedCold => Unpriced(OnMarkedCold(s, intent))
    case Committed => Unpriced(OnCommitted(s, intent))
    case Spilled => OnSpilled(c, s, intent)
    case Prefetched => OnPrefetched(c, o, s, step, intent)
    case Miss => Ok((s, 0))
    case Evicted => Ok((OnEvicted(s, intent.objectId), 0))
    case Freed => Ok((OnFreed(s, intent.objectId), 0))
  }

  /** A block one decay step later. */
  function Cooled(b: MemoryIntent): MemoryIntent {
    b.(recency := RMax(b.recency - 0.03, 0.0))
  }

  ghost predicate CanCool(live: LiveMap) {
    forall k | k in live :: Construct(Cooled(live[k])).Ok?
  }

  function CooledBlock(b: MemoryIntent): (r: MemoryIntent)
    requires Construct(Cooled(b)).Ok?
    ensures r.objectId == b.objectId
  {
    Construct(Cooled(b)).value
  }

  ghost function CooledMap(live: LiveMap): LiveMap
    requires CanCool(live)
  {
    map k | k in live :: CooledBlock(live[k])
  }

  ghost function CoolingError(live: LiveMap): ValidationError
    requires !CanCool(live)
  {
    var bad :| bad in live && Construct(Cooled(live[bad])).Err?;
    Construct(Cooled(live[bad])).error
  }

  /** Recency decay, once per distinct consecutive step value; re-validates every live block. */
  ghost function Decay(s: State, step: nat): Result<State> {
    if step == s.lastDecay then Ok(s)
    else if CanCool(s.live) then Ok(s.(live := CooledMap(s.live), lastDecay := step))
    else Err(CoolingError(s.live))
  }

  /** The incoming intent as the event branches see it: re-validated, then merged into the live block. */
  function Incoming(s: State, e: Event): Result<MemoryIntent> {
    var rebuilt :- Construct(e.intent);
    if rebuilt.objectId in s.live then Construct(Merge(e.kind, s.live[rebuilt.objectId], rebuilt)) else Ok(rebuilt)
  }

  /** What closes every step: decay, then record the event's latency. */
  ghost function Settle(c: Config, s: State, added: int, step: nat): Result<State> {
    var s' :- Decay(s, step);
    Ok(s'.(latencies := s'.latencies + [c.baseLatency + added]))
  }

  ghost function Step(c: Config, o: Oracle, s: State, e: Event): Result<State> {
    var intent :- Incoming(s, e);
    var (s1, added) :- Handle(c, o, s, e.kind, e.step, intent);
    Settle(c, s1, added, e.step)
  }

  ghost function Run(c: Config, o: Oracle, s: State, events: seq<Event>): Result<State>
    decreases |events|
  {
    if events == [] then Ok(s)
    else
      var s' :- Step(c, o, s, events[0]);
      Run(c, o, s', events[1..])
  }

  lemma SettleFrame(c: Config, s: State, added: int, step: nat)
    requires Settle(c, s, added, step).Ok?
    ensures var s' := Settle(c, s, added, step).value;
      && s' == s.(live := s'.live, lastDecay := s'.lastDecay, latencies := s.latencies + [c.baseLatency + added])
      && s'.live.Keys == s.live.Keys
  {
  }

  /** A successful step, taken apart. */
  lemma StepParts(c: Config, o: Oracle, s: State, e: Event)
    returns (intent: MemoryIntent, s1: State, added: int)
    requires Step(c, o, s, e).Ok?
    ensures Incoming(s, e) == Ok(intent)
    ensures Handle(c, o, s, e.kind, e.step, intent) == Ok((s1, added))
    ensures Step(c, o, s, e) == Settle(c, s1, added, e.step)
  {
    intent := Incoming(s, e).value;
    var r := Handle(c, o, s, e.kind, e.step, intent).value;
    s1, added := r.0, r.1;
  }

  lemma {:induction false} RunConcat(c: Config, o: Oracle, s: State, xs: seq<Event>, ys: seq<Event>)
    ensures Run(c, o, s, xs + ys) ==
      match Run(c, o, s, xs) case Ok(m) => Run(c, o, m, ys) case Err(e) => Err(e)
    decreases |xs|
  {
    if xs == [] {
      assert xs + ys == ys;
    } else {
      assert (xs + ys)[0] == xs[0] && (xs + ys)[1..] == xs[1..] + ys;
      match Step(c, o, s, xs[0]) {
        case Ok(m) => RunConcat(c, o, m, xs[1..], ys);
        case Err(_) =>
      }
    }
  }

  lemma {:induction false} UsedSplit(live: LiveMap, ids: set<string>, x: string)
    requires x in ids
    ensures Used(live, ids) == Size(live, x) + Used(live, ids - {x})
    decreases |ids|
  {
    var y :| y in ids && Used(live, ids) == Size(live, y) + Used(live, ids - {y});
    if x != y {
      UsedSplit(live, ids - {y}, x);
      UsedSplit(live, ids - {x}, y);
      assert ids - {x} - {y} == ids - {y} - {x};
    }
  }

  lemma {:induction false} UsedFrame(live: LiveMap, live': LiveMap, ids: set<string>)
    requires forall x | x in ids :: Size(live, x) == Size(live', x)
    ensures Used(live, ids) == Used(live', ids)
    decreases |ids|
  {
    if ids != {} {
      var x :| x in ids;
      UsedFrame(live, live', ids - {x});
      UsedSplit(live, ids, x);
      UsedSplit(live', ids, x);
    }
  }

  lemma CandidateMembers(o: Oracle, s: State)
    ensures forall b ::
      b in Candidates(o, s) <==> b.objectId in s.hbm && b.objectId in s.live && b == s.live[b.objectId]
    ensures forall id | id in s.hbm && id in s.live :: s.live[id] in Candidates(o, s)
    ensures DistinctIds(Members(Candidates(o, s)))
  {
  }
}
