/** HBM capacity over whole runs: which policies always fit, and what being over capacity implies. */
module Capacity {
  import opened Prelude
  import opened Schema
  import opened Policies
  import opened Simulation
  import opened Residency

  ghost predicate WithinCapacity(c: Config, s: State) {
    Used(s.live, s.hbm) <= c.hbmCapacity
  }

  ghost predicate AllResidentsPinned(s: State) {
    forall id | id in s.hbm && id in s.live :: s.live[id].pinRequested
  }

  lemma {:induction false} UsedMonotone(live: LiveMap, small: set<string>, large: set<string>)
    requires small <= large
    requires forall id | id in large :: Size(live, id) >= 0
    ensures Used(live, small) <= Used(live, large)
    decreases |large|
  {
    if large != small {
      var x :| x in large && x !in small;
      UsedSplit(live, large, x);
      UsedMonotone(live, small, large - {x});
    }
  }

  ghost predicate Outcome(c: Config, s: State, s': State) {
    && s'.peakUsed == Max(s.peakUsed, Used(s'.live, s'.hbm))
    && s'.pinnedExhaustions - s.pinnedExhaustions == s'.exhaustions - s.exhaustions
    && if WithinCapacity(c, s') then s'.pinnedExhaustions == s.pinnedExhaustions
       else c.policy.intentFamily && AllResidentsPinned(s') && s'.pinnedExhaustions == s.pinnedExhaustions + 1
  }

  /** Enforcement ends within capacity, or with the intent family facing pinned residents only, which it
      then reports; the recorded peak is the usage it leaves behind. */
  lemma {:induction false} EnsureCapacityOutcome(c: Config, o: Oracle, s: State, step: nat)
    requires c.hbmCapacity >= 0 && s.hbm <= s.live.Keys
    ensures Outcome(c, s, EnsureCapacity(c, o, s, step).0)
    decreases |s.hbm|
  {
    if WithinCapacity(c, s) || Stuck(c, s) {
    } else {
      VictimIsResident(c, o, s, step);
      assert s.hbm !! s.live.Keys ==> s.hbm == {};
      match ChooseVictim(c.policy, Candidates(o, s), step) {
        case None =>
        case Some(v) =>
          var tier, toDram, entry := EvictDisplaces(c, o, s, step, v);
          EnsureCapacityOutcome(c, o, Evict(c, o, s, step, v), step);
      }
    }
  }

  /** The boundary property of each kind of policy. */
  ghost predicate Fits(c: Config, s: State) {
    if c.policy.intentFamily
    then s.pinnedExhaustions >= 0 && (WithinCapacity(c, s) || s.pinnedExhaustions >= 1)
    else WithinCapacity(c, s) && s.peakUsed <= c.hbmCapacity
  }

  /** Residents may leave; those that stay keep their size. */
  ghost predicate Shrinks(s: State, s': State) {
    s'.hbm <= s.hbm && forall id | id in s'.hbm :: Size(s'.live, id) == Size(s.live, id)
  }

  lemma ShrinkingFits(c: Config, s: State, s': State)
    requires Fits(c, s) && Shrinks(s, s') && Sound(s)
    requires s'.pinnedExhaustions == s.pinnedExhaustions
    requires s'.peakUsed == s.peakUsed || s'.peakUsed == Max(s.peakUsed, Used(s'.live, s'.hbm))
    ensures Fits(c, s')
  {
    UsedFrame(s'.live, s.live, s'.hbm);
    UsedMonotone(s.live, s'.hbm, s.hbm);
  }

  lemma OutcomeFits(c: Config, s: State, t: State, s': State)
    requires Fits(c, s) && Outcome(c, t, s') && c.hbmCapacity >= 0
    requires t.peakUsed == s.peakUsed && t.pinnedExhaustions == s.pinnedExhaustions
    ensures Fits(c, RecordUsage(s'))
  {
  }

  lemma EnforcedFits(c: Config, o: Oracle, s: State, t: State, step: nat)
    requires Fits(c, s) && Sound(t) && c.hbmCapacity >= 0
    requires t.peakUsed == s.peakUsed && t.pinnedExhaustions == s.pinnedExhaustions
    ensures Fits(c, RecordUsage(EnsureCapacity(c, o, t, step).0))
  {
    EnsureCapacityOutcome(c, o, t, step);
    OutcomeFits(c, s, t, EnsureCapacity(c, o, t, step).0);
  }

  lemma MoveFits(c: Config, o: Oracle, s: State, t: State, block: MemoryIntent, step: nat)
    requires Fits(c, s) && Sound(t) && BlockOk(block) && c.hbmCapacity >= 0
    requires t.peakUsed == s.peakUsed && t.pinnedExhaustions == s.pinnedExhaustions
    ensures Fits(c, MoveToHbm(c, o, t, block, step).0)
  {
    FileKeeps(t.live, block.(currentTier := HBM));
    EnforcedFits(c, o, s, Seat(t, block), step);
  }

  lemma AllocatedFits(c: Config, o: Oracle, s: State, step: nat, intent: MemoryIntent)
    requires Fits(c, s) && Sound(s) && BlockOk(intent) && c.hbmCapacity >= 0
    requires intent.objectId in s.hbm ==> intent.currentTier == HBM
    ensures Fits(c, OnAllocated(c, o, s, step, intent).0)
  {
    AdmitKeeps(s, intent);
    var s' := Admit(s, intent);
    if intent.currentTier == HBM {
      EnforcedFits(c, o, s, s', step);
    } else {
      ShrinkingFits(c, s, RecordUsage(s'));
    }
  }

  lemma RefileFits(c: Config, s: State, block: MemoryIntent)
    requires Fits(c, s) && Sound(s)
    requires block.objectId in s.hbm ==> block.sizeBytes == Size(s.live, block.objectId)
    ensures Fits(c, Refile(s, block)) && Fits(c, RecordUsage(Refile(s, block)))
  {
    ShrinkingFits(c, s, Refile(s, block));
    ShrinkingFits(c, s, RecordUsage(Refile(s, block)));
  }

  lemma SizesKept(x: MemoryIntent, i: MemoryIntent, step: nat)
    requires BlockOk(x) && BlockOk(i)
    ensures AccessedBlock(x, i, step).Ok? && AccessedBlock(x, i, step).value.sizeBytes == x.sizeBytes
    ensures CriticalBlock(x, i).Ok? && CriticalBlock(x, i).value.sizeBytes == x.sizeBytes
    ensures ColdBlock(x, i).Ok? && ColdBlock(x, i).value.sizeBytes == x.sizeBytes
  {
  }

  lemma AccessedFits(c: Config, o: Oracle, s: State, step: nat, intent: MemoryIntent)
    requires Fits(c, s) && Sound(s) && BlockOk(intent) && c.hbmCapacity >= 0
    ensures var r := OnAccessed(c, o, s, step, intent); r.Ok? && Fits(c, r.value.0)
  {
    var id := intent.objectId;
    var x := if id in s.live then s.live[id] else intent;
    AccessedBlockOk(x, intent, step);
    SizesKept(x, intent, step);
    var block := AccessedBlock(x, intent, step).value;
    if id in s.hbm {
      RefileFits(c, s, block);
    } else {
      FileKeeps(s.live, block);
      MoveFits(c, o, s, Missed(s, block), block, step);
    }
  }

  lemma PrefetchedFits(c: Config, o: Oracle, s: State, step: nat, intent: MemoryIntent)
    requires Fits(c, s) && Sound(s) && BlockOk(intent) && c.hbmCapacity >= 0
    ensures var r := OnPrefetched(c, o, s, step, intent); r.Ok? && Fits(c, r.value.0)
  {
    var id := intent.objectId;
    if id in s.live && id !in s.hbm {
      PrefetchedBlockOk(s.live[id], intent);
      var block := PrefetchedBlock(s.live[id], intent).value;
      FileKeeps(s.live, block);
      if c.policy.wantsPrefetch(block, step) {
        MoveFits(c, o, s, Fetched(s, block), block, step);
      } else {
        RefileFits(c, s, block);
      }
    }
  }

  lemma MarkedDecodeCriticalFits(c: Config, s: State, intent: MemoryIntent)
    requires Fits(c, s) && Sound(s) && BlockOk(intent)
    ensures var r := OnMarkedDecodeCritical(s, intent); r.Ok? && Fits(c, r.value)
  {
    hide CriticalBlock, Fits, BlockOk;
    var x := if intent.objectId in s.live then s.live[intent.objectId] else intent;
    CriticalBlockOk(x, intent);
    SizesKept(x, intent, 0);
    var block := OnMarkedDecodeCritical(s, intent).value.live[intent.objectId];
    RefileFits(c, s, block);
  }

  lemma MarkedColdFits(c: Config, s: State, intent: MemoryIntent)
    requires Fits(c, s) && Sound(s) && BlockOk(intent)
    ensures var r := OnMarkedCold(s, intent); r.Ok? && Fits(c, r.value)
  {
    hide ColdBlock, Fits, BlockOk;
    if intent.objectId in s.live {
      ColdBlockOk(s.live[intent.objectId], intent);
      SizesKept(s.live[intent.objectId], intent, 0);
      RefileFits(c, s, ColdBlock(s.live[intent.objectId], intent).value);
    }
  }

  lemma CommittedFits(c: Config, s: State, intent: MemoryIntent)
    requires Fits(c, s) && Sound(s)
    ensures var r := OnCommitted(s, intent); r.Ok? && Fits(c, r.value)
  {
    hide Fits;
    if intent.objectId in s.live {
      var block := s.live[intent.objectId].(isCommitted := true, isDraft := false);
      assert Construct(block) == Ok(block);
      RefileFits(c, s, block);
    }
  }

  lemma DeparturesFit(c: Config, s: State, id: string)
    requires Fits(c, s) && Sound(s)
    ensures Fits(c, OnEvicted(s, id)) && Fits(c, OnFreed(s, id))
  {
    ShrinkingFits(c, s, OnEvicted(s, id));
    ShrinkingFits(c, s, OnFreed(s, id));
  }

  lemma SpilledFits(c: Config, s: State, intent: MemoryIntent)
    requires Fits(c, s) && Sound(s) && BlockOk(intent)
    ensures var r := OnSpilled(c, s, intent); r.Ok? && Fits(c, r.value.0)
  {
    SpilledKeeps(c, s, intent);
    ShrinkingFits(c, s, OnSpilled(c, s, intent).value.0);
  }

  lemma HandleFits(c: Config, o: Oracle, s: State, kind: EventType, step: nat, intent: MemoryIntent)
    requires Fits(c, s) && Sound(s) && BlockOk(intent) && c.hbmCapacity >= 0
    requires kind == Allocated && intent.objectId in s.hbm ==> intent.currentTier == HBM
    ensures var r := Handle(c, o, s, kind, step, intent); r.Ok? && Fits(c, r.value.0)
  {
    match kind
    case Allocated => AllocatedFits(c, o, s, step, intent);
    case Accessed => AccessedFits(c, o, s, step, intent);
    case MarkedDecodeCritical => MarkedDecodeCriticalFits(c, s, intent);
    case MarkedCold => MarkedColdFits(c, s, intent);
    case Committed => CommittedFits(c, s, intent);
    case Spilled => SpilledFits(c, s, intent);
    case Prefetched => PrefetchedFits(c, o, s, step, intent);
    case Miss =>
    case Evicted => DeparturesFit(c, s, intent.objectId);
    case Freed => DeparturesFit(c, s, intent.objectId);
  }

  lemma DecayedFits(c: Config, s: State, s': State, latencies: seq<int>)
    requires Fits(c, s) && Sound(s) && SameButRecency(s.live, s'.live)
    requires s' == s.(live := s'.live, lastDecay := s'.lastDecay)
    ensures Fits(c, s'.(latencies := latencies))
  {
    ShrinkingFits(c, s, s'.(latencies := latencies));
  }

  lemma StepFits(c: Config, o: Oracle, s: State, e: Event)
    requires Fits(c, s) && Sound(s) && Supported(e) && c.hbmCapacity >= 0
    requires !Demotes(s, e)
    ensures var r := Step(c, o, s, e); r.Ok? && Fits(c, r.value)
  {
    var intent, s1, added, s2 := StepUnfolds(c, o, s, e);
    if e.kind == Allocated {
      IncomingTier(s, e);
    }
    HandleFits(c, o, s, e.kind, e.step, intent);
    DecayedFits(c, s1, s2, s2.latencies + [c.baseLatency + added]);
  }

  /** ALLOCATED places a block that is in HBM somewhere else, and may change its size. */
  predicate Demotes(s: State, e: Event) {
    e.kind == Allocated && e.intent.objectId in s.hbm && e.intent.currentTier != HBM
  }

  /** Along the run, ALLOCATED never demotes. */
  ghost predicate NeverDemotes(c: Config, o: Oracle, s: State, events: seq<Event>)
    decreases |events|
  {
    events == [] ||
    (&& !Demotes(s, events[0])
     && (Step(c, o, s, events[0]).Ok? ==> NeverDemotes(c, o, Step(c, o, s, events[0]).value, events[1..])))
  }

  /** After every prefix of a supported trace: LRU, HotCold and Predictive are within capacity and so is
      their recorded peak; the intent family is within capacity or has reported pinned exhaustion. */
  lemma {:induction false} RunFits(c: Config, o: Oracle, s: State, events: seq<Event>)
    requires Fits(c, s) && Sound(s) && SupportedTrace(events) && c.hbmCapacity >= 0
    requires NeverDemotes(c, o, s, events)
    ensures var r := Run(c, o, s, events); r.Ok? && Fits(c, r.value)
    decreases |events|
  {
    if events != [] {
      hide Step, Fits, Demotes;
      StepKeeps(c, o, s, events[0]);
      StepFits(c, o, s, events[0]);
      RunFits(c, o, Step(c, o, s, events[0]).value, events[1..]);
    }
  }

  /** ALLOCATED names a live id only to place it in HBM: a condition on the trace alone. */
  ghost predicate NoDemotingAllocations(keys: set<string>, events: seq<Event>)
    decreases |events|
  {
    events == [] ||
    (&& (events[0].kind == Allocated && events[0].intent.objectId in keys ==> events[0].intent.currentTier == HBM)
     && NoDemotingAllocations(NextKeys(keys, events[0].kind, events[0].intent.objectId), events[1..]))
  }

  lemma {:induction false} TraceNeverDemotes(c: Config, o: Oracle, s: State, events: seq<Event>)
    requires Sound(s) && SupportedTrace(events) && NoDemotingAllocations(s.live.Keys, events)
    ensures NeverDemotes(c, o, s, events)
    decreases |events|
  {
    if events != [] {
      hide Step;
      StepKeeps(c, o, s, events[0]);
      TraceNeverDemotes(c, o, Step(c, o, s, events[0]).value, events[1..]);
    }
  }

  /** Clean allocations never demote, so the listed condition for disjoint residency serves here too. */
  lemma {:induction false} CleanNeverDemotes(c: Config, o: Oracle, s: State, events: seq<Event>)
    requires CleanAllocations(c, o, s, events)
    ensures NeverDemotes(c, o, s, events)
    decreases |events|
  {
    hide Step;
    if events != [] && Step(c, o, s, events[0]).Ok? {
      CleanNeverDemotes(c, o, Step(c, o, s, events[0]).value, events[1..]);
    }
  }

  lemma TraceFits(c: Config, o: Oracle, s: State, events: seq<Event>)
    requires Fits(c, s) && Sound(s) && SupportedTrace(events) && c.hbmCapacity >= 0
    requires NoDemotingAllocations(s.live.Keys, events)
    ensures var r := Run(c, o, s, events); r.Ok? && Fits(c, r.value)
  {
    TraceNeverDemotes(c, o, s, events);
    RunFits(c, o, s, events);
  }

  /** The five policies by name, over a whole simulation in which ALLOCATED names no block that is resident in
      another tier. */
  lemma NamedPoliciesFit(c: Config, o: Oracle, events: seq<Event>)
    requires SupportedTrace(events) && CleanAllocations(c, o, Initial(), events) && c.hbmCapacity >= 0
    ensures Run(c, o, Initial(), events).Ok?
    ensures var s := Run(c, o, Initial(), events).value;
      && (c.policy == Lru() || c.policy == HotCold() || c.policy == PredictiveHotness() ==>
            WithinCapacity(c, s) && s.peakUsed <= c.hbmCapacity)
      && (c.policy == IntentAware() || c.policy == DeadlineAware() ==>
            WithinCapacity(c, s) || s.pinnedExhaustions >= 1)
  {
    hide Run, CleanAllocations, SupportedTrace;
    CleanNeverDemotes(c, o, Initial(), events);
    RunFits(c, o, Initial(), events);
  }
}
