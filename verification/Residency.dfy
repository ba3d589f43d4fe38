/** What every step of the simulator keeps: residency bookkeeping, validity of the stored intents, and the
    absence of validation errors on supported traces. */
module Residency {
  import opened Prelude
  import opened Schema
  import opened Policies
  import opened Simulation

  /** The same blocks, up to their tier tags. */
  ghost predicate Retagged(live: LiveMap, live': LiveMap) {
    && live'.Keys == live.Keys
    && forall k | k in live :: live'[k] == live[k].(currentTier := live'[k].currentTier)
  }

  /** What capacity enforcement leaves alone. */
  ghost predicate Enforced(s: State, s': State) {
    && Retagged(s.live, s'.live)
    && s'.hbm <= s.hbm
    && (forall id | id in s.live && (id in s'.hbm || id !in s.hbm) :: s'.live[id] == s.live[id])
    && (forall id | id !in s.hbm :: id in s'.dram <==> id in s.dram)
    && (forall id | id in s'.dram && id in s'.hbm :: id in s.dram)
    && (forall id | id in s.live && id in s.hbm && id !in s'.hbm :: s'.live[id].currentTier != HBM)
    && s'.latencies == s.latencies
    && s'.misses == s.misses
    && s'.criticalMisses == s.criticalMisses
    && s'.prefetches == s.prefetches
    && s'.peakDemand == s.peakDemand
    && s'.lastDecay == s.lastDecay
    && s.log <= s'.log
  }

  /** The chosen victim is a resident live block, stored under its own id. */
  lemma VictimIsResident(c: Config, o: Oracle, s: State, step: nat)
    ensures ChooseVictim(c.policy, Candidates(o, s), step).Some? ==>
      var v := ChooseVictim(c.policy, Candidates(o, s), step).value;
      v.objectId in s.hbm && v.objectId in s.live && v == s.live[v.objectId]
    ensures ChooseVictim(c.policy, Candidates(o, s), step).None? ==> s.hbm !! s.live.Keys
  {
    VictimIsBestEligible(c.policy, Candidates(o, s), step);
    CandidateMembers(o, s);
  }

  lemma DisplaceEnforces(s: State, v: MemoryIntent, tier: Tier, toDram: bool, entry: LogEntry)
    requires v.objectId in s.hbm && v.objectId in s.live && v == s.live[v.objectId] && tier != HBM
    ensures Enforced(s, Displace(s, v, tier, toDram, entry))
  {
  }

  /** A turn of the loop is a displacement to a tier other than HBM. */
  lemma EvictDisplaces(c: Config, o: Oracle, s: State, step: nat, v: MemoryIntent)
    returns (tier: Tier, toDram: bool, entry: LogEntry)
    ensures Evict(c, o, s, step, v) == Displace(s, v, tier, toDram, entry)
    ensures tier != HBM
    ensures toDram <==> SpillsToDram(c, o, s, v)
    ensures toDram ==> tier == DRAM
    ensures !(v.allowedTiers <= {HBM}) ==> tier in v.allowedTiers
    ensures entry.action == (if toDram then SpillAction else EvictAction) && entry.victim == Some(Describe(v))
  {
    var avoided := AvoidedCritical(v, Candidates(o, s));
    toDram := SpillsToDram(c, o, s, v);
    tier := if toDram then DRAM else match Fallback(o, |s.log|, v) case Some(t) => t case None => NVME;
    entry := LogEntry(step, if toDram then SpillAction else EvictAction, Some(Describe(v)), avoided);
  }

  lemma {:induction false} EnsureCapacityEnforces(c: Config, o: Oracle, s: State, step: nat)
    ensures Enforced(s, EnsureCapacity(c, o, s, step).0)
    decreases |s.hbm|
  {
    hide ChooseVictim, Candidates, Used, Stuck;
    if Used(s.live, s.hbm) <= c.hbmCapacity || Stuck(c, s) {
    } else {
      VictimIsResident(c, o, s, step);
      match ChooseVictim(c.policy, Candidates(o, s), step) {
        case None =>
        case Some(v) =>
          var s1 := Evict(c, o, s, step, v);
          var tier, toDram, entry := EvictDisplaces(c, o, s, step, v);
          DisplaceEnforces(s, v, tier, toDram, entry);
          EnsureCapacityEnforces(c, o, s1, step);
          EnforcedTransitive(s, s1, EnsureCapacity(c, o, s1, step).0);
      }
    }
  }

  lemma EnforcedTransitive(s: State, s1: State, s2: State)
    requires Enforced(s, s1) && Enforced(s1, s2)
    ensures Enforced(s, s2)
  {
  }

  /** A stored intent that every later copy re-validates successfully, wherever placement puts it. */
  predicate BlockOk(b: MemoryIntent) {
    Valid(b) && HBM in b.allowedTiers && !(b.allowedTiers <= {HBM})
  }

  ghost predicate BlocksOk(live: LiveMap) {
    forall k | k in live :: BlockOk(live[k])
  }

  /** Stored intents are valid (so decode-critical ones are pinned) and only live blocks are resident. */
  ghost predicate Sound(s: State) {
    BlocksOk(s.live) && s.hbm <= s.live.Keys && s.dram <= s.live.Keys
  }

  /** No block is in both tiers, and HBM residents are tagged HBM. */
  ghost predicate Placed(s: State) {
    s.hbm !! s.dram && forall id | id in s.hbm && id in s.live :: s.live[id].currentTier == HBM
  }

  lemma {:induction false} EnsureCapacityKeepsBlocks(c: Config, o: Oracle, s: State, step: nat)
    requires BlocksOk(s.live)
    ensures BlocksOk(EnsureCapacity(c, o, s, step).0.live)
    decreases |s.hbm|
  {
    hide ChooseVictim, Candidates, Used, Stuck;
    if Used(s.live, s.hbm) <= c.hbmCapacity || Stuck(c, s) {
    } else {
      VictimIsResident(c, o, s, step);
      match ChooseVictim(c.policy, Candidates(o, s), step) {
        case None =>
        case Some(v) =>
          var tier, toDram, entry := EvictDisplaces(c, o, s, step, v);
          EnsureCapacityKeepsBlocks(c, o, Evict(c, o, s, step, v), step);
      }
    }
  }

  lemma EnsureCapacityKeeps(c: Config, o: Oracle, s: State, step: nat)
    requires Sound(s)
    ensures var s' := EnsureCapacity(c, o, s, step).0;
      Sound(s') && Enforced(s, s') && (Placed(s) ==> Placed(s'))
  {
    EnsureCapacityEnforces(c, o, s, step);
    EnsureCapacityKeepsBlocks(c, o, s, step);
  }

  lemma FileKeeps(live: LiveMap, block: MemoryIntent)
    requires BlocksOk(live) && BlockOk(block)
    ensures BlocksOk(File(live, block))
    ensures File(live, block).Keys == live.Keys + {block.objectId}
  {
  }

  lemma MoveToHbmKeeps(c: Config, o: Oracle, s: State, block: MemoryIntent, step: nat)
    requires Sound(s) && BlockOk(block)
    ensures var s' := MoveToHbm(c, o, s, block, step).0;
      Sound(s') && s'.live.Keys == s.live.Keys + {block.objectId} && (Placed(s) ==> Placed(s'))
  {
    FileKeeps(s.live, block.(currentTier := HBM));
    assert Placed(s) ==> Placed(Seat(s, block));
    EnsureCapacityKeeps(c, o, Seat(s, block), step);
  }

  /** The ids that are live after an event depend on the event alone, not on policy, capacity or order. */
  function NextKeys(keys: set<string>, kind: EventType, id: string): set<string> {
    match kind
    case Allocated => keys + {id}
    case Accessed => keys + {id}
    case MarkedDecodeCritical => keys + {id}
    case Freed => keys - {id}
    case _ => keys
  }

  /** ALLOCATED does not clear the other residency set: it names a block resident in a tier it is not placed in. */
  predicate Clashes(s: State, tier: Tier, id: string) {
    if tier == HBM then id in s.dram else id in s.hbm
  }

  lemma AdmitKeeps(s: State, intent: MemoryIntent)
    requires Sound(s) && BlockOk(intent)
    ensures var s' := Admit(s, intent);
      && Sound(s')
      && s'.live.Keys == s.live.Keys + {intent.objectId}
      && (Placed(s) ==> (Placed(s') <==> !Clashes(s, intent.currentTier, intent.objectId)))
  {
    FileKeeps(s.live, intent);
  }

  lemma AllocatedKeeps(c: Config, o: Oracle, s: State, step: nat, intent: MemoryIntent)
    requires Sound(s) && BlockOk(intent)
    ensures var s' := OnAllocated(c, o, s, step, intent).0;
      && Sound(s')
      && s'.live.Keys == s.live.Keys + {intent.objectId}
      && (Placed(s) && !Clashes(s, intent.currentTier, intent.objectId) ==> Placed(s'))
  {
    AdmitKeeps(s, intent);
    if intent.currentTier == HBM {
      EnsureCapacityKeeps(c, o, Admit(s, intent), step);
    }
  }

  lemma AccessedBlockOk(x: MemoryIntent, i: MemoryIntent, step: nat)
    requires BlockOk(x) && BlockOk(i)
    ensures var r := AccessedBlock(x, i, step);
      && r.Ok? && BlockOk(r.value)
      && r.value.objectId == x.objectId && r.value.currentTier == x.currentTier
  {
  }

  lemma AccessedKeeps(c: Config, o: Oracle, s: State, step: nat, intent: MemoryIntent)
    requires Sound(s) && BlockOk(intent)
    ensures var r := OnAccessed(c, o, s, step, intent);
      && r.Ok?
      && Sound(r.value.0)
      && r.value.0.live.Keys == s.live.Keys + {intent.objectId}
      && (Placed(s) ==> Placed(r.value.0))
  {
    hide AccessedBlock, MoveToHbm, BlockOk;
    var id := intent.objectId;
    var x := if id in s.live then s.live[id] else intent;
    AccessedBlockOk(x, intent, step);
    var block := AccessedBlock(x, intent, step).value;
    FileKeeps(s.live, block);
    if id !in s.hbm {
      MoveToHbmKeeps(c, o, Missed(s, block), block, step);
    }
  }

  lemma MergeOk(kind: EventType, x: MemoryIntent, i: MemoryIntent)
    requires BlockOk(x) && BlockOk(i)
    ensures var r := Construct(Merge(kind, x, i)); r.Ok? && BlockOk(r.value) && r.value.objectId == x.objectId
  {
  }

  lemma PrefetchedBlockOk(x: MemoryIntent, i: MemoryIntent)
    requires BlockOk(x) && BlockOk(i)
    ensures var r := PrefetchedBlock(x, i); r.Ok? && BlockOk(r.value) && r.value.objectId == x.objectId
  {
    MergeOk(Prefetched, x, i);
  }

  lemma FetchKeeps(c: Config, o: Oracle, s: State, step: nat, block: MemoryIntent)
    requires Sound(s) && BlockOk(block) && block.objectId in s.live && block.objectId !in s.hbm
    ensures var s' := Fetch(c, o, s, step, block).0;
      Sound(s') && s'.live.Keys == s.live.Keys && (Placed(s) ==> Placed(s'))
  {
    hide MoveToHbm, BlockOk;
    FileKeeps(s.live, block);
    if c.policy.wantsPrefetch(block, step) {
      assert Sound(Fetched(s, block)) && (Placed(s) ==> Placed(Fetched(s, block)));
      MoveToHbmKeeps(c, o, Fetched(s, block), block, step);
    }
  }

  lemma PrefetchedKeeps(c: Config, o: Oracle, s: State, step: nat, intent: MemoryIntent)
    requires Sound(s) && BlockOk(intent)
    ensures var r := OnPrefetched(c, o, s, step, intent);
      && r.Ok?
      && Sound(r.value.0)
      && r.value.0.live.Keys == s.live.Keys
      && (Placed(s) ==> Placed(r.value.0))
  {
    var id := intent.objectId;
    if id in s.live && id !in s.hbm {
      PrefetchedBlockOk(s.live[id], intent);
      var block := PrefetchedBlock(s.live[id], intent).value;
      FetchKeeps(c, o, s, step, block);
    }
  }

  lemma CriticalBlockOk(x: MemoryIntent, i: MemoryIntent)
    requires BlockOk(x) && BlockOk(i)
    ensures var r := CriticalBlock(x, i);
      r.Ok? && BlockOk(r.value) && r.value.objectId == x.objectId && r.value.currentTier == x.currentTier
    ensures var r := Construct(i.(priority := DecodeCritical, pinRequested := true));
      r.Ok? && BlockOk(r.value) && r.value.objectId == i.objectId
  {
  }

  lemma MarkedDecodeCriticalKeeps(s: State, intent: MemoryIntent)
    requires Sound(s) && BlockOk(intent)
    ensures var r := OnMarkedDecodeCritical(s, intent);
      && r.Ok? && Sound(r.value) && r.value.live.Keys == s.live.Keys + {intent.objectId}
      && (Placed(s) ==> Placed(r.value))
  {
    var id := intent.objectId;
    CriticalBlockOk(if id in s.live then s.live[id] else intent, intent);
    var r := OnMarkedDecodeCritical(s, intent);
    FileKeeps(s.live, r.value.live[id]);
  }

  /** A change to one stored block that keeps it acceptable and keeps its tier keeps the state. */
  lemma RefileKeeps(s: State, block: MemoryIntent)
    requires Sound(s) && BlockOk(block) && block.objectId in s.live
    requires block.currentTier == s.live[block.objectId].currentTier
    ensures var s' := Refile(s, block);
      Sound(s') && s'.live.Keys == s.live.Keys && (Placed(s) ==> Placed(s'))
  {
    FileKeeps(s.live, block);
  }

  lemma ColdBlockOk(x: MemoryIntent, i: MemoryIntent)
    requires BlockOk(x) && BlockOk(i)
    ensures var r := ColdBlock(x, i);
      r.Ok? && BlockOk(r.value) && r.value.objectId == x.objectId && r.value.currentTier == x.currentTier
    ensures var r := Construct(x.(isCommitted := true, isDraft := false));
      r.Ok? && BlockOk(r.value) && r.value.objectId == x.objectId && r.value.currentTier == x.currentTier
  {
  }

  lemma MarkedColdKeeps(s: State, intent: MemoryIntent)
    requires Sound(s) && BlockOk(intent)
    ensures var r := OnMarkedCold(s, intent);
      r.Ok? && Sound(r.value) && r.value.live.Keys == s.live.Keys && (Placed(s) ==> Placed(r.value))
    ensures var r := OnCommitted(s, intent);
      r.Ok? && Sound(r.value) && r.value.live.Keys == s.live.Keys && (Placed(s) ==> Placed(r.value))
  {
    var id := intent.objectId;
    if id in s.live {
      ColdBlockOk(s.live[id], intent);
      RefileKeeps(s, ColdBlock(s.live[id], intent).value);
      RefileKeeps(s, Construct(s.live[id].(isCommitted := true, isDraft := false)).value);
    }
  }

  lemma SpilledKeeps(c: Config, s: State, intent: MemoryIntent)
    requires Sound(s) && BlockOk(intent)
    ensures var r := OnSpilled(c, s, intent);
      r.Ok? && Sound(r.value.0) && r.value.0.live.Keys == s.live.Keys && (Placed(s) ==> Placed(r.value.0))
  {
    var id := intent.objectId;
    if id in s.live && DRAM in s.live[id].allowedTiers {
      var r := Construct(s.live[id].(currentTier := DRAM));
      assert r.Ok? && BlockOk(r.value);
      FileKeeps(s.live, r.value);
    }
  }

  lemma HandleKeeps(c: Config, o: Oracle, s: State, kind: EventType, step: nat, intent: MemoryIntent)
    requires Sound(s) && BlockOk(intent)
    ensures var r := Handle(c, o, s, kind, step, intent);
      && r.Ok?
      && Sound(r.value.0)
      && r.value.0.live.Keys == NextKeys(s.live.Keys, kind, intent.objectId)
      && (Placed(s) && (kind == Allocated ==> !Clashes(s, intent.currentTier, intent.objectId)) ==>
            Placed(r.value.0))
  {
    hide OnAllocated, OnAccessed, OnPrefetched, OnSpilled, OnMarkedDecodeCritical, OnMarkedCold, OnCommitted;
    match kind
    case Allocated => AllocatedKeeps(c, o, s, step, intent);
    case Accessed => AccessedKeeps(c, o, s, step, intent);
    case MarkedDecodeCritical => MarkedDecodeCriticalKeeps(s, intent);
    case MarkedCold => MarkedColdKeeps(s, intent);
    case Committed => MarkedColdKeeps(s, intent);
    case Spilled => SpilledKeeps(c, s, intent);
    case Prefetched => PrefetchedKeeps(c, o, s, step, intent);
    case Miss =>
    case Evicted =>
    case Freed =>
  }

  /** The event's intent was constructed, and allows HBM and somewhere else to go. */
  predicate Supported(e: Event) {
    Construct(e.intent).Ok? && HBM in e.intent.allowedTiers && !(e.intent.allowedTiers <= {HBM})
  }

  lemma IncomingOk(s: State, e: Event)
    requires Sound(s) && Supported(e)
    ensures Incoming(s, e).Ok? && BlockOk(Incoming(s, e).value)
    ensures Incoming(s, e).value.objectId == e.intent.objectId
  {
    ConstructYieldsValid(e.intent);
    var i := Construct(e.intent).value;
    if i.objectId in s.live {
      MergeOk(e.kind, s.live[i.objectId], i);
    }
  }

  ghost predicate SameButRecency(live: LiveMap, live': LiveMap) {
    && live'.Keys == live.Keys
    && forall k | k in live :: live'[k] == live[k].(recency := live'[k].recency) && 0.0 <= live'[k].recency <= 1.0
  }

  lemma CoolingOk(b: MemoryIntent)
    requires Valid(b)
    ensures Construct(Cooled(b)).Ok?
    ensures var r := CooledBlock(b); Valid(r) && r == b.(recency := r.recency)
  {
  }

  lemma DecayKeeps(s: State, step: nat)
    requires Sound(s)
    ensures var r := Decay(s, step);
      && r.Ok?
      && Sound(r.value)
      && SameButRecency(s.live, r.value.live)
      && r.value == s.(live := r.value.live, lastDecay := r.value.lastDecay)
      && (Placed(s) ==> Placed(r.value))
  {
    forall k | k in s.live
      ensures Construct(Cooled(s.live[k])).Ok?
      ensures var r := CooledBlock(s.live[k]); Valid(r) && r == s.live[k].(recency := r.recency)
    {
      CoolingOk(s.live[k]);
    }
  }

  lemma IncomingTier(s: State, e: Event)
    requires Sound(s) && Supported(e) && e.kind == Allocated
    ensures Incoming(s, e).Ok? && Incoming(s, e).value.currentTier == e.intent.currentTier
  {
  }

  predicate ClashingEvent(s: State, e: Event) {
    e.kind == Allocated && Clashes(s, e.intent.currentTier, e.intent.objectId)
  }

  /** A step on a supported event, taken apart: merge, handle, decay, record the latency. */
  lemma StepUnfolds(c: Config, o: Oracle, s: State, e: Event)
    returns (intent: MemoryIntent, s1: State, added: int, s2: State)
    requires Sound(s) && Supported(e)
    ensures Incoming(s, e) == Ok(intent) && BlockOk(intent) && intent.objectId == e.intent.objectId
    ensures Handle(c, o, s, e.kind, e.step, intent) == Ok((s1, added)) && Sound(s1)
    ensures s1.live.Keys == NextKeys(s.live.Keys, e.kind, e.intent.objectId)
    ensures Placed(s) && !ClashingEvent(s, e) ==> Placed(s1)
    ensures Decay(s1, e.step) == Ok(s2) && Sound(s2) && SameButRecency(s1.live, s2.live)
    ensures s2 == s1.(live := s2.live, lastDecay := s2.lastDecay) && (Placed(s1) ==> Placed(s2))
    ensures Step(c, o, s, e) == Ok(s2.(latencies := s2.latencies + [c.baseLatency + added]))
  {
    hide Handle, Incoming, Decay, BlockOk, Supported;
    IncomingOk(s, e);
    intent := Incoming(s, e).value;
    if e.kind == Allocated {
      IncomingTier(s, e);
    }
    HandleKeeps(c, o, s, e.kind, e.step, intent);
    var r := Handle(c, o, s, e.kind, e.step, intent).value;
    s1, added := r.0, r.1;
    DecayKeeps(s1, e.step);
    s2 := Decay(s1, e.step).value;
  }

  lemma StepKeeps(c: Config, o: Oracle, s: State, e: Event)
    requires Sound(s) && Supported(e)
    ensures var r := Step(c, o, s, e);
      && r.Ok?
      && Sound(r.value)
      && r.value.live.Keys == NextKeys(s.live.Keys, e.kind, e.intent.objectId)
      && (Placed(s) && !ClashingEvent(s, e) ==> Placed(r.value))
  {
    var intent, s1, added, s2 := StepUnfolds(c, o, s, e);
  }

  ghost predicate SupportedTrace(events: seq<Event>) {
    forall e | e in events :: Supported(e)
  }

  /** The ids live after a whole trace, starting from `keys`. */
  ghost function KeysAfter(keys: set<string>, events: seq<Event>): set<string>
    decreases |events|
  {
    if events == [] then keys
    else KeysAfter(NextKeys(keys, events[0].kind, events[0].intent.objectId), events[1..])
  }

  /** ALLOCATED never names an id that is live at that point. */
  ghost predicate FreshAllocations(keys: set<string>, events: seq<Event>)
    decreases |events|
  {
    events == [] ||
    (&& (events[0].kind == Allocated ==> events[0].intent.objectId !in keys)
     && FreshAllocations(NextKeys(keys, events[0].kind, events[0].intent.objectId), events[1..]))
  }

  /** On a supported trace no event raises a validation error under any policy, capacity and order of
      iteration; what stays stored is valid and what is live is the same for every run of the trace. */
  lemma {:induction false} RunKeeps(c: Config, o: Oracle, s: State, events: seq<Event>)
    requires Sound(s) && SupportedTrace(events)
    ensures var r := Run(c, o, s, events);
      && r.Ok?
      && Sound(r.value)
      && r.value.live.Keys == KeysAfter(s.live.Keys, events)
    decreases |events|
  {
    if events != [] {
      StepKeeps(c, o, s, events[0]);
      RunKeeps(c, o, Step(c, o, s, events[0]).value, events[1..]);
    }
  }

  /** Along the run, ALLOCATED never names a block that is resident in another tier. */
  ghost predicate CleanAllocations(c: Config, o: Oracle, s: State, events: seq<Event>)
    decreases |events|
  {
    events == [] ||
    (&& !ClashingEvent(s, events[0])
     && (Step(c, o, s, events[0]).Ok? ==> CleanAllocations(c, o, Step(c, o, s, events[0]).value, events[1..])))
  }

  /** Then the two residency sets stay disjoint and HBM residents stay tagged HBM. Blocks that are live but resident
      nowhere, as after EVICTED, may be allocated again. */
  lemma {:induction false} RunKeepsPlacement(c: Config, o: Oracle, s: State, events: seq<Event>)
    requires Sound(s) && Placed(s) && SupportedTrace(events) && CleanAllocations(c, o, s, events)
    ensures Run(c, o, s, events).Ok? && Placed(Run(c, o, s, events).value)
    decreases |events|
  {
    if events != [] {
      hide Step, ClashingEvent;
      StepKeeps(c, o, s, events[0]);
      RunKeepsPlacement(c, o, Step(c, o, s, events[0]).value, events[1..]);
    }
  }

  /** A trace that allocates only ids that are not live is clean in every run. */
  lemma {:induction false} FreshIsClean(c: Config, o: Oracle, s: State, events: seq<Event>)
    requires Sound(s) && SupportedTrace(events) && FreshAllocations(s.live.Keys, events)
    ensures CleanAllocations(c, o, s, events)
    decreases |events|
  {
    if events != [] {
      hide Step;
      StepKeeps(c, o, s, events[0]);
      FreshIsClean(c, o, Step(c, o, s, events[0]).value, events[1..]);
    }
  }

  lemma {:induction false} KeysAfterConcat(keys: set<string>, xs: seq<Event>, ys: seq<Event>)
    ensures KeysAfter(keys, xs + ys) == KeysAfter(KeysAfter(keys, xs), ys)
    ensures FreshAllocations(keys, xs + ys) <==>
      FreshAllocations(keys, xs) && FreshAllocations(KeysAfter(keys, xs), ys)
    decreases |xs|
  {
    if xs == [] {
      assert xs + ys == ys;
    } else {
      assert (xs + ys)[0] == xs[0] && (xs + ys)[1..] == xs[1..] + ys;
      KeysAfterConcat(NextKeys(keys, xs[0].kind, xs[0].intent.objectId), xs[1..], ys);
    }
  }

  /** A whole simulation of a supported trace with clean allocations: it ends, what is live is known from the trace
      alone, and only live blocks are resident, each in one place. */
  lemma RunFromEmpty(c: Config, o: Oracle, events: seq<Event>)
    requires SupportedTrace(events) && CleanAllocations(c, o, Initial(), events)
    ensures var r := Run(c, o, Initial(), events);
      && r.Ok? && Sound(r.value) && Placed(r.value)
      && r.value.live.Keys == KeysAfter({}, events)
      && r.value.hbm + r.value.dram <= KeysAfter({}, events)
  {
    hide Run, SupportedTrace, CleanAllocations, KeysAfter;
    assert Initial().live.Keys == {};
    RunKeeps(c, o, Initial(), events);
    RunKeepsPlacement(c, o, Initial(), events);
  }

  /** The same from a condition on the trace alone. */
  lemma FreshRunFromEmpty(c: Config, o: Oracle, events: seq<Event>)
    requires SupportedTrace(events) && FreshAllocations({}, events)
    ensures var r := Run(c, o, Initial(), events);
      && r.Ok? && Sound(r.value) && Placed(r.value)
      && r.value.live.Keys == KeysAfter({}, events)
      && r.value.hbm + r.value.dram <= KeysAfter({}, events)
  {
    hide Run, SupportedTrace, CleanAllocations, FreshAllocations, KeysAfter;
    assert Initial().live.Keys == {};
    FreshIsClean(c, o, Initial(), events);
    RunFromEmpty(c, o, events);
  }
}
