/** Exact accounting over every run of every trace: latency, evictions, spills and prefetches add up. */
module Accounting {
  import opened Prelude
  import opened Schema
  import opened Policies
  import opened Simulation

  function Sum(xs: seq<int>): int {
    if xs == [] then 0 else Sum(xs[..|xs| - 1]) + xs[|xs| - 1]
  }

  /** What the counters say the run cost beyond its base latency. */
  function Cost(c: Config, s: State): int {
    c.missPenalty * s.misses + c.spillLatency * s.spills + c.prefetchLatency * s.prefetches
  }

  function LogCount(log: seq<LogEntry>, action: Action): nat {
    if log == [] then 0
    else LogCount(log[..|log| - 1], action) + if log[|log| - 1].action == action then 1 else 0
  }

  lemma LogCountAppend(log: seq<LogEntry>, e: LogEntry, action: Action)
    ensures LogCount(log + [e], action) == LogCount(log, action) + if e.action == action then 1 else 0
  {
    assert (log + [e])[..|log|] == log;
  }

  /** Counters minus what the log explains. */
  datatype Gap = Gap(evictions: int, spills: int, prefetches: int, pinnedExhaustions: int)

  function Unexplained(s: State): Gap {
    Gap(s.evictions - LogCount(s.log, SpillAction) - LogCount(s.log, EvictAction),
        s.spills - LogCount(s.log, SpillAction),
        s.prefetches - LogCount(s.log, PrefetchAction),
        s.pinnedExhaustions - LogCount(s.log, ExhaustedAction))
  }

  /** `s'` follows from `s` by work that costs `added` and that the log explains up to `gap`. */
  ghost predicate Accounts(c: Config, s: State, s': State, added: int, evicted: int, spilled: int) {
    var (before, after) := (Unexplained(s), Unexplained(s'));
    && Cost(c, s') == Cost(c, s) + added
    && after.evictions == before.evictions + evicted
    && after.spills == before.spills + spilled
    && after.prefetches == before.prefetches
    && after.pinnedExhaustions == before.pinnedExhaustions
    && s'.latencies == s.latencies
  }

  lemma AppendAll(log: seq<LogEntry>, e: LogEntry)
    ensures forall action :: LogCount(log + [e], action) == LogCount(log, action) + if e.action == action then 1 else 0
  {
    forall action
      ensures LogCount(log + [e], action) == LogCount(log, action) + if e.action == action then 1 else 0
    {
      LogCountAppend(log, e, action);
    }
  }

  lemma DisplaceAccounts(c: Config, s: State, v: MemoryIntent, tier: Tier, toDram: bool, entry: LogEntry)
    requires entry.action == if toDram then SpillAction else EvictAction
    ensures Accounts(c, s, Displace(s, v, tier, toDram, entry), if toDram then c.spillLatency else 0, 0, 0)
  {
    AppendAll(s.log, entry);
    assert c.spillLatency * (s.spills + 1) == c.spillLatency * s.spills + c.spillLatency;
  }

  lemma {:induction false} EnsureCapacityAccounts(c: Config, o: Oracle, s: State, step: nat)
    ensures var (s', added) := EnsureCapacity(c, o, s, step); Accounts(c, s, s', added, 0, 0)
    decreases |s.hbm|
  {
    if Used(s.live, s.hbm) <= c.hbmCapacity {
    } else if Stuck(c, s) {
      AppendAll(s.log, LogEntry(step, ExhaustedAction, None, false));
    } else {
      VictimIsBestEligible(c.policy, Candidates(o, s), step);
      match ChooseVictim(c.policy, Candidates(o, s), step) {
        case None =>
        case Some(v) =>
          EvictAccounts(c, o, s, step, v);
          EnsureCapacityAccounts(c, o, Evict(c, o, s, step, v), step);
      }
    }
  }

  lemma EvictAccounts(c: Config, o: Oracle, s: State, step: nat, v: MemoryIntent)
    ensures Accounts(c, s, Evict(c, o, s, step, v), if SpillsToDram(c, o, s, v) then c.spillLatency else 0, 0, 0)
  {
    var avoided := AvoidedCritical(v, Candidates(o, s));
    if SpillsToDram(c, o, s, v) {
      DisplaceAccounts(c, s, v, DRAM, true, LogEntry(step, SpillAction, Some(Describe(v)), avoided));
    } else {
      var target := match Fallback(o, |s.log|, v) case Some(t) => t case None => NVME;
      DisplaceAccounts(c, s, v, target, false, LogEntry(step, EvictAction, Some(Describe(v)), avoided));
    }
  }

  lemma Chain(c: Config, s: State, s1: State, s2: State, a: int, b: int)
    requires Accounts(c, s, s1, a, 0, 0) && Accounts(c, s1, s2, b, 0, 0)
    ensures Accounts(c, s, s2, a + b, 0, 0)
  {
  }

  /** Changes that touch no counter, no latency and not the log cost nothing. */
  lemma QuietAccounts(c: Config, s: State, s': State)
    requires s'.log == s.log && s'.latencies == s.latencies && s'.pinnedExhaustions == s.pinnedExhaustions
    requires s'.misses == s.misses && s'.spills == s.spills && s'.prefetches == s.prefetches
    ensures Accounts(c, s, s', 0, s'.evictions - s.evictions, 0)
  {
  }

  lemma MoveAccounts(c: Config, o: Oracle, s: State, block: MemoryIntent, step: nat)
    ensures var (s', added) := MoveToHbm(c, o, s, block, step); Accounts(c, s, s', added, 0, 0)
  {
    QuietAccounts(c, s, Seat(s, block));
    var (s1, added) := EnsureCapacity(c, o, Seat(s, block), step);
    EnsureCapacityAccounts(c, o, Seat(s, block), step);
    Chain(c, s, Seat(s, block), s1, 0, added);
    QuietAccounts(c, s1, RecordUsage(s1));
    Chain(c, s, s1, RecordUsage(s1), added, 0);
  }

  lemma MissedAccounts(c: Config, s: State, block: MemoryIntent)
    ensures Accounts(c, s, Missed(s, block), c.missPenalty, 0, 0)
  {
    assert c.missPenalty * (s.misses + 1) == c.missPenalty * s.misses + c.missPenalty;
  }

  lemma FetchedAccounts(c: Config, s: State, block: MemoryIntent, step: nat)
    ensures Cost(c, Fetched(s, block)) == Cost(c, s) + c.prefetchLatency
  {
    assert c.prefetchLatency * (s.prefetches + 1) == c.prefetchLatency * s.prefetches + c.prefetchLatency;
  }

  lemma AllocatedAccounts(c: Config, o: Oracle, s: State, step: nat, i: MemoryIntent)
    ensures var (s', added) := OnAllocated(c, o, s, step, i); Accounts(c, s, s', added, 0, 0)
  {
    QuietAccounts(c, s, Admit(s, i));
    if i.currentTier == HBM {
      var (s1, added) := EnsureCapacity(c, o, Admit(s, i), step);
      EnsureCapacityAccounts(c, o, Admit(s, i), step);
      Chain(c, s, Admit(s, i), s1, 0, added);
      QuietAccounts(c, s1, RecordUsage(s1));
      Chain(c, s, s1, RecordUsage(s1), added, 0);
    } else {
      QuietAccounts(c, s, RecordUsage(Admit(s, i)));
    }
  }

  lemma AccessedAccounts(c: Config, o: Oracle, s: State, step: nat, i: MemoryIntent)
    requires OnAccessed(c, o, s, step, i).Ok?
    ensures var (s', added) := OnAccessed(c, o, s, step, i).value; Accounts(c, s, s', added, 0, 0)
  {
    var block := AccessedBlock(if i.objectId in s.live then s.live[i.objectId] else i, i, step).value;
    if i.objectId in s.hbm {
      QuietAccounts(c, s, RecordUsage(Refile(s, block)));
    } else {
      MissedAccounts(c, s, block);
      var (s1, added) := MoveToHbm(c, o, Missed(s, block), block, step);
      MoveAccounts(c, o, Missed(s, block), block, step);
      Chain(c, s, Missed(s, block), s1, c.missPenalty, added);
    }
  }

  /** A prefetch is logged last, so its counter runs ahead of the log until then. */
  lemma FetchAccounts(c: Config, o: Oracle, s: State, step: nat, block: MemoryIntent)
    ensures var (s', added) := Fetch(c, o, s, step, block); Accounts(c, s, s', added, 0, 0)
  {
    if c.policy.wantsPrefetch(block, step) {
      FetchedAccounts(c, s, block, step);
      var (s1, added) := MoveToHbm(c, o, Fetched(s, block), block, step);
      MoveAccounts(c, o, Fetched(s, block), block, step);
      AppendAll(s1.log, LogEntry(step, PrefetchAction, Some(Describe(block)), false));
    } else {
      QuietAccounts(c, s, Refile(s, block));
    }
  }

  lemma SpilledAccounts(c: Config, s: State, block: MemoryIntent)
    ensures Accounts(c, s, ToDram(s, block), c.spillLatency, 0, 1)
  {
    assert c.spillLatency * (s.spills + 1) == c.spillLatency * s.spills + c.spillLatency;
  }

  /** An EVICTED event that finds its block. */
  ghost predicate ExplicitEviction(s: State, e: Event) {
    e.kind == Evicted && e.intent.objectId in s.live
  }

  /** A SPILLED event that finds its block and may place it in DRAM. */
  ghost predicate ExplicitSpill(s: State, e: Event) {
    e.kind == Spilled && e.intent.objectId in s.live && DRAM in s.live[e.intent.objectId].allowedTiers
  }

  lemma HandleAccounts(c: Config, o: Oracle, s: State, e: Event, i: MemoryIntent)
    requires Handle(c, o, s, e.kind, e.step, i).Ok? && i.objectId == e.intent.objectId
    ensures var (s', added) := Handle(c, o, s, e.kind, e.step, i).value;
      Accounts(c, s, s', added, if ExplicitEviction(s, e) then 1 else 0, if ExplicitSpill(s, e) then 1 else 0)
  {
    match e.kind
    case Allocated => AllocatedAccounts(c, o, s, e.step, i);
    case Accessed => AccessedAccounts(c, o, s, e.step, i);
    case MarkedDecodeCritical => QuietAccounts(c, s, OnMarkedDecodeCritical(s, i).value);
    case MarkedCold => QuietAccounts(c, s, OnMarkedCold(s, i).value);
    case Committed => QuietAccounts(c, s, OnCommitted(s, i).value);
    case Spilled =>
      QuietAccounts(c, s, s);
      if ExplicitSpill(s, e) {
        SpilledAccounts(c, s, Construct(s.live[i.objectId].(currentTier := DRAM)).value);
      }
    case Prefetched =>
      QuietAccounts(c, s, s);
      if i.objectId in s.live && i.objectId !in s.hbm {
        FetchAccounts(c, o, s, e.step, PrefetchedBlock(s.live[i.objectId], i).value);
      }
    case Miss => QuietAccounts(c, s, s);
    case Evicted => QuietAccounts(c, s, OnEvicted(s, i.objectId));
    case Freed => QuietAccounts(c, s, OnFreed(s, i.objectId));
  }

  lemma MergeId(kind: EventType, x: MemoryIntent, i: MemoryIntent)
    ensures Merge(kind, x, i).objectId == x.objectId
  {
  }

  lemma IncomingId(s: State, e: Event)
    requires Incoming(s, e).Ok?
    ensures Incoming(s, e).value.objectId == e.intent.objectId
  {
    ConstructId(e.intent);
    var i := Construct(e.intent).value;
    if i.objectId in s.live {
      MergeId(e.kind, s.live[i.objectId], i);
      ConstructId(Merge(e.kind, s.live[i.objectId], i));
    }
  }

  ghost function ExplicitEvictions(c: Config, o: Oracle, s: State, events: seq<Event>): nat
    requires Run(c, o, s, events).Ok?
    decreases |events|
  {
    if events == [] then 0
    else (if ExplicitEviction(s, events[0]) then 1 else 0)
         + ExplicitEvictions(c, o, Step(c, o, s, events[0]).value, events[1..])
  }

  ghost function ExplicitSpills(c: Config, o: Oracle, s: State, events: seq<Event>): nat
    requires Run(c, o, s, events).Ok?
    decreases |events|
  {
    if events == [] then 0
    else (if ExplicitSpill(s, events[0]) then 1 else 0)
         + ExplicitSpills(c, o, Step(c, o, s, events[0]).value, events[1..])
  }

  /** Latency not yet accounted for by the counters. */
  function Surplus(c: Config, s: State): int {
    Sum(s.latencies) - c.baseLatency * |s.latencies| - Cost(c, s)
  }

  lemma SettleAccounts(c: Config, s: State, s': State, added: int)
    requires s' == s.(live := s'.live, lastDecay := s'.lastDecay, latencies := s.latencies + [c.baseLatency + added])
    ensures Surplus(c, s') == Surplus(c, s) + added
    ensures Unexplained(s') == Unexplained(s)
  {
    assert s'.latencies[..|s.latencies|] == s.latencies;
    assert c.baseLatency * (|s.latencies| + 1) == c.baseLatency * |s.latencies| + c.baseLatency;
  }

  lemma StepAccounts(c: Config, o: Oracle, s: State, e: Event)
    requires Step(c, o, s, e).Ok?
    ensures var s' := Step(c, o, s, e).value;
      && Surplus(c, s') == Surplus(c, s)
      && |s'.latencies| == |s.latencies| + 1
      && Unexplained(s') == Unexplained(s).(
          evictions := Unexplained(s).evictions + (if ExplicitEviction(s, e) then 1 else 0),
          spills := Unexplained(s).spills + (if ExplicitSpill(s, e) then 1 else 0))
  {
    var i, s1, added := StepParts(c, o, s, e);
    IncomingId(s, e);
    HandleAccounts(c, o, s, e, i);
    SettleFrame(c, s1, added, e.step);
    SettleAccounts(c, s1, Settle(c, s1, added, e.step).value, added);
  }

  lemma {:induction false} RunAccounts(c: Config, o: Oracle, s: State, events: seq<Event>)
    requires Run(c, o, s, events).Ok?
    ensures var s' := Run(c, o, s, events).value;
      && Surplus(c, s') == Surplus(c, s)
      && |s'.latencies| == |s.latencies| + |events|
      && Unexplained(s') == Unexplained(s).(
          evictions := Unexplained(s).evictions + ExplicitEvictions(c, o, s, events),
          spills := Unexplained(s).spills + ExplicitSpills(c, o, s, events))
    decreases |events|
  {
    if events != [] {
      StepAccounts(c, o, s, events[0]);
      RunAccounts(c, o, Step(c, o, s, events[0]).value, events[1..]);
    }
  }

  lemma NothingSpentYet(c: Config)
    ensures Surplus(c, Initial()) == 0 && Unexplained(Initial()) == Gap(0, 0, 0, 0) && Initial().latencies == []
  {
  }

  /** Total latency is exactly the base latency of every event plus the priced misses, spills and prefetches. */
  lemma LatencyIsConserved(c: Config, o: Oracle, events: seq<Event>)
    requires Run(c, o, Initial(), events).Ok?
    ensures var s := Run(c, o, Initial(), events).value;
      && |s.latencies| == |events|
      && Sum(s.latencies) ==
           c.baseLatency * |events| + c.missPenalty * s.misses + c.spillLatency * s.spills
           + c.prefetchLatency * s.prefetches
  {
    hide Run, Initial, ExplicitEvictions, ExplicitSpills, Unexplained, Sum, Surplus, Cost;
    RunAccounts(c, o, Initial(), events);
    NothingSpentYet(c);
    SurplusIs(c, Run(c, o, Initial(), events).value);
  }

  lemma SurplusIs(c: Config, s: State)
    requires Surplus(c, s) == 0
    ensures Sum(s.latencies) ==
      c.baseLatency * |s.latencies| + c.missPenalty * s.misses + c.spillLatency * s.spills
      + c.prefetchLatency * s.prefetches
  {
  }

  /** Every counted eviction and spill is either in the decision log or an explicit event on a live block;
      prefetches and pinned exhaustions are exactly those logged. */
  lemma CountersMatchLog(c: Config, o: Oracle, events: seq<Event>)
    requires Run(c, o, Initial(), events).Ok?
    ensures var s := Run(c, o, Initial(), events).value;
      && s.evictions == LogCount(s.log, SpillAction) + LogCount(s.log, EvictAction)
                        + ExplicitEvictions(c, o, Initial(), events)
      && s.spills == LogCount(s.log, SpillAction) + ExplicitSpills(c, o, Initial(), events)
      && s.prefetches == LogCount(s.log, PrefetchAction)
      && s.pinnedExhaustions == LogCount(s.log, ExhaustedAction)
  {
    hide Run, Initial, ExplicitEvictions, ExplicitSpills, Sum, Surplus, Cost, LogCount;
    RunAccounts(c, o, Initial(), events);
    NothingSpentYet(c);
  }
}
