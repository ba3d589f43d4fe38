/** LRU has the inclusion property in this simulator: for blocks of one size, a larger HBM always holds
    everything a smaller one holds, so a larger HBM never misses more. */
module LruInclusion {
  import opened Prelude
  import opened Schema
  import opened Policies
  import opened Simulation
  import opened Residency
  import TierRules

  /** When the block was last accessed. */
  function Stamp(live: LiveMap, id: string): int {
    if id in live then live[id].lastAccessStep else 0
  }

  /** `kept` are the most recently used members of `all`. */
  ghost predicate MostRecent(live: LiveMap, all: set<string>, kept: set<string>) {
    kept <= all && forall x, y | x in all && x !in kept && y in kept :: Stamp(live, x) < Stamp(live, y)
  }

  ghost predicate DistinctStamps(live: LiveMap, ids: set<string>) {
    forall x, y | x in ids && y in ids && Stamp(live, x) == Stamp(live, y) :: x == y
  }

  ghost predicate Uniform(live: LiveMap, size: int) {
    forall k | k in live :: live[k].sizeBytes == size
  }

  /** Nothing was evicted from `all` beyond need. */
  ghost predicate Tight(all: set<string>, kept: set<string>, size: int, capacity: int) {
    kept == all || (|kept| + 1) * size > capacity
  }

  lemma {:induction false} UsedUniform(live: LiveMap, ids: set<string>, size: int)
    requires Uniform(live, size) && ids <= live.Keys
    ensures Used(live, ids) == |ids| * size
    decreases |ids|
  {
    if ids != {} {
      var x :| x in ids;
      UsedSplit(live, ids, x);
      UsedUniform(live, ids - {x}, size);
      assert (|ids - {x}| + 1) * size == |ids - {x}| * size + size;
    }
  }

  /** LRU's victim is the resident accessed longest ago. */
  lemma VictimIsOldest(c: Config, o: Oracle, s: State, step: nat)
    requires c.policy == Lru() && DistinctStamps(s.live, s.hbm) && s.hbm <= s.live.Keys
    ensures var v := ChooseVictim(c.policy, Candidates(o, s), step);
      && (v.None? <==> s.hbm == {})
      && (v.Some? ==>
          && v.value.objectId in s.hbm && v.value == s.live[v.value.objectId]
          && forall x | x in s.hbm && x != v.value.objectId :: Stamp(s.live, v.value.objectId) < Stamp(s.live, x))
  {
    VictimIsResident(c, o, s, step);
    VictimIsBestEligible(c.policy, Candidates(o, s), step);
    CandidateMembers(o, s);
    var v := ChooseVictim(c.policy, Candidates(o, s), step);
    if v.Some? {
      forall x | x in s.hbm && x != v.value.objectId
        ensures Stamp(s.live, v.value.objectId) < Stamp(s.live, x)
      {
        assert Eligible(c.policy, Members(Candidates(o, s)), s.live[x]);
        assert !Preferred(c.policy, step, s.live[x], v.value);
        assert c.policy.rank(s.live[x], step) == LruRank(s.live[x], step);
        assert c.policy.rank(v.value, step) == LruRank(v.value, step);
      }
    }
  }

  /** Under LRU, enforcement keeps the most recently used residents, as many as fit. */
  lemma {:induction false} EnforcementKeepsMostRecent(c: Config, o: Oracle, s: State, step: nat, size: int)
    requires c.policy == Lru() && c.hbmCapacity >= 0
    requires DistinctStamps(s.live, s.hbm) && Uniform(s.live, size) && s.hbm <= s.live.Keys
    ensures var s' := EnsureCapacity(c, o, s, step).0;
      && MostRecent(s.live, s.hbm, s'.hbm)
      && |s'.hbm| * size <= c.hbmCapacity
      && Tight(s.hbm, s'.hbm, size, c.hbmCapacity)
    decreases |s.hbm|
  {
    hide ChooseVictim, Candidates, Evict, Uniform, DistinctStamps, MostRecent, Tight;
    AllKept(s.live, s.hbm, size, c.hbmCapacity);
    UsedUniform(s.live, s.hbm, size);
    if Used(s.live, s.hbm) <= c.hbmCapacity {
    } else {
      assert s.hbm != {} && !Stuck(c, s);
      VictimIsOldest(c, o, s, step);
      var v := ChooseVictim(c.policy, Candidates(o, s), step).value;
      var tier, toDram, entry := EvictDisplaces(c, o, s, step, v);
      EvictedStamps(s, v, tier, toDram, entry, size);
      EnforcementKeepsMostRecent(c, o, Evict(c, o, s, step, v), step, size);
      OldestGone(s, Evict(c, o, s, step, v), v.objectId, EnsureCapacity(c, o, s, step).0.hbm, size, c.hbmCapacity);
    }
  }

  lemma AllKept(live: LiveMap, all: set<string>, size: int, capacity: int)
    ensures MostRecent(live, all, all) && Tight(all, all, size, capacity)
  {
  }

  /** What is kept once the oldest resident is gone is the most recent of all. */
  lemma OldestGone(s: State, s1: State, oldest: string, kept: set<string>, size: int, capacity: int)
    requires oldest in s.hbm && s1.hbm == s.hbm - {oldest} && |s.hbm| * size > capacity
    requires forall x | x in s.hbm && x != oldest :: Stamp(s.live, oldest) < Stamp(s.live, x)
    requires forall id :: Stamp(s1.live, id) == Stamp(s.live, id)
    requires MostRecent(s1.live, s1.hbm, kept) && Tight(s1.hbm, kept, size, capacity)
    ensures MostRecent(s.live, s.hbm, kept) && Tight(s.hbm, kept, size, capacity)
  {
    hide Stamp;
  }

  lemma EvictedStamps(s: State, v: MemoryIntent, tier: Tier, toDram: bool, entry: LogEntry, size: int)
    requires DistinctStamps(s.live, s.hbm) && Uniform(s.live, size) && s.hbm <= s.live.Keys
    requires v.objectId in s.hbm && v == s.live[v.objectId]
    ensures var s' := Displace(s, v, tier, toDram, entry);
      && Uniform(s'.live, size) && DistinctStamps(s'.live, s'.hbm) && s'.hbm <= s'.live.Keys
      && |s'.hbm| + 1 == |s.hbm|
      && forall id :: Stamp(s'.live, id) == Stamp(s.live, id)
  {
  }

  /** MostRecent with the stamp of `x` taken to be `now`. */
  ghost predicate StampedMostRecent(live: LiveMap, x: string, now: int, all: set<string>, kept: set<string>) {
    && kept <= all
    && forall a, b | a in all && a !in kept && b in kept :: StampAt(live, x, now, a) < StampAt(live, x, now, b)
  }

  function StampAt(live: LiveMap, x: string, now: int, id: string): int {
    if id == x then now else Stamp(live, id)
  }

  /** The set-theoretic heart: if the small HBM holds the most recent members of the large one, and both take
      in the newest block `x` and keep only their most recent members, then the same holds again. */
  lemma InclusionSurvives(
    live: LiveMap, x: string, now: int,
    small: set<string>, large: set<string>, small': set<string>, large': set<string>,
    size: int, smallCapacity: int, largeCapacity: int)
    requires small <= large && size > 0 && smallCapacity <= largeCapacity
    requires forall a, b | a in small && b in large && b !in small :: Stamp(live, b) < Stamp(live, a)
    requires forall a | a in large :: Stamp(live, a) < now
    requires StampedMostRecent(live, x, now, small + {x}, small')
    requires StampedMostRecent(live, x, now, large + {x}, large')
    requires Tight(large + {x}, large', size, largeCapacity)
    requires large' != large + {x} ==> |small'| * size <= smallCapacity
    ensures small' <= large' && StampedMostRecent(live, x, now, large', small')
  {
    if large' != large + {x} {
      FewerFit(|small'|, |large'|, size, smallCapacity, largeCapacity);
    }
    forall y | y in small' ensures y in large' {
      if large' != large + {x} && y !in large' {
        assert forall z | z in large' :: StampAt(live, x, now, y) < StampAt(live, x, now, z);
        assert large' + {y} <= small';
        SubsetSize(large' + {y}, small');
      }
    }
  }

  lemma FewerFit(m: nat, n: nat, size: int, smallCapacity: int, largeCapacity: int)
    requires size > 0 && smallCapacity <= largeCapacity
    requires m * size <= smallCapacity && (n + 1) * size > largeCapacity
    ensures m <= n
  {
    assert m > n ==> m * size >= (n + 1) * size;
  }

  lemma {:induction false} SubsetSize(a: set<string>, b: set<string>)
    requires a <= b
    ensures |a| <= |b|
  {
    assert |b| == |a| + |b - a| by {
      assert b == a + (b - a);
    }
  }

  /** A resident insertion: the events that make a block the most recent one in HBM. */
  predicate Touches(e: Event) {
    e.kind == Accessed || (e.kind == Allocated && e.intent.currentTier == HBM)
  }

  /** The events that take a block out of HBM. */
  predicate Removes(e: Event) {
    e.kind == Freed || e.kind == Evicted || e.kind == Spilled
  }

  /** HBM takes in `x` as its newest member, or already holds it (`hit`). */
  ghost predicate TouchEffect(
    live: LiveMap, x: string, now: int, hit: bool, hbm: set<string>, hbm': set<string>, size: int, capacity: int)
  {
    && StampedMostRecent(live, x, now, hbm + {x}, hbm')
    && Tight(hbm + {x}, hbm', size, capacity)
    && (if hit then hbm' == hbm + {x} else |hbm'| * size <= capacity)
  }

  predicate Hits(s: State, e: Event) {
    e.kind == Accessed && e.intent.objectId in s.hbm
  }

  /** One LRU run's residency, recency and misses across one event. */
  ghost predicate LruEffect(c: Config, size: int, s: State, s': State, e: Event) {
    var x := e.intent.objectId;
    && Uniform(s'.live, size)
    && s'.misses == s.misses + (if e.kind == Accessed && !Hits(s, e) then 1 else 0)
    && if Touches(e) then
         && TouchEffect(s.live, x, e.step, Hits(s, e), s.hbm, s'.hbm, size, c.hbmCapacity)
         && forall id | id in s'.hbm :: Stamp(s'.live, id) == StampAt(s.live, x, e.step, id)
       else
         && s'.hbm == (if Removes(e) then s.hbm - {x} else s.hbm)
         && forall id | id in s'.hbm :: Stamp(s'.live, id) == Stamp(s.live, id)
  }

  /** The invariant of one LRU run. */
  ghost predicate LruState(s: State, size: int, last: int) {
    && Sound(s)
    && Uniform(s.live, size)
    && DistinctStamps(s.live, s.hbm)
    && forall id | id in s.hbm :: Stamp(s.live, id) <= last
  }

  /** The events of an LRU-comparable trace: one block size, steps strictly increasing, HBM allocations stamped
      with their step, other allocations only of ids not yet live; explicit spills only if DRAM is always
      allowed. */
  predicate LruEvent(e: Event, size: int, last: int, keys: set<string>, spillable: bool) {
    && Supported(e)
    && e.intent.sizeBytes == size
    && e.step > last
    && (e.kind == Allocated ==>
        if e.intent.currentTier == HBM then e.intent.lastAccessStep == e.step else e.intent.objectId !in keys)
    && (if spillable then DRAM in e.intent.allowedTiers else e.kind != Spilled)
  }

  predicate AllowsDram(tiers: set<Tier>) { DRAM in tiers }

  ghost predicate AllAllowDram(live: LiveMap) {
    TierRules.Obeys(live, AllowsDram)
  }

  lemma SeatedEffect(c: Config, o: Oracle, s: State, t: State, step: nat, x: string, size: int, last: int)
    requires c.policy == Lru() && c.hbmCapacity >= 0 && LruState(s, size, last) && step > last
    requires t.hbm == s.hbm + {x} && Uniform(t.live, size) && t.hbm <= t.live.Keys
    requires forall id :: id in t.hbm ==> Stamp(t.live, id) == StampAt(s.live, x, step, id)
    ensures var s' := EnsureCapacity(c, o, t, step).0;
      && TouchEffect(s.live, x, step, false, s.hbm, s'.hbm, size, c.hbmCapacity)
      && Uniform(s'.live, size)
      && s'.misses == t.misses
      && forall id | id in s'.hbm :: Stamp(s'.live, id) == StampAt(s.live, x, step, id)
  {
    hide EnsureCapacity;
    EnforcementKeepsMostRecent(c, o, t, step, size);
    EnsureCapacityEnforces(c, o, t, step);
  }

  lemma AllocatedEffect(c: Config, o: Oracle, s: State, step: nat, i: MemoryIntent, size: int, last: int)
    requires c.policy == Lru() && c.hbmCapacity >= 0 && LruState(s, size, last) && step > last
    requires BlockOk(i) && i.sizeBytes == size && i.currentTier == HBM && i.lastAccessStep == step
    ensures var s' := OnAllocated(c, o, s, step, i).0;
      && TouchEffect(s.live, i.objectId, step, false, s.hbm, s'.hbm, size, c.hbmCapacity)
      && Uniform(s'.live, size)
      && s'.misses == s.misses
      && forall id | id in s'.hbm :: Stamp(s'.live, id) == StampAt(s.live, i.objectId, step, id)
  {
    hide EnsureCapacity;
    AdmitKeeps(s, i);
    SeatedEffect(c, o, s, Admit(s, i), step, i.objectId, size, last);
  }

  lemma AccessedFields(x: MemoryIntent, i: MemoryIntent, step: nat)
    requires BlockOk(x) && BlockOk(i)
    ensures var r := AccessedBlock(x, i, step);
      && r.Ok? && r.value.lastAccessStep == step && r.value.sizeBytes == x.sizeBytes
      && r.value.allowedTiers == x.allowedTiers
  {
  }

  lemma MissEffect(c: Config, o: Oracle, s: State, step: nat, b: MemoryIntent, size: int, last: int)
    requires c.policy == Lru() && c.hbmCapacity >= 0 && LruState(s, size, last) && step > last
    requires BlockOk(b) && b.sizeBytes == size && b.lastAccessStep == step
    ensures var s' := MoveToHbm(c, o, Missed(s, b), b, step).0;
      && TouchEffect(s.live, b.objectId, step, false, s.hbm, s'.hbm, size, c.hbmCapacity)
      && Uniform(s'.live, size)
      && s'.misses == s.misses + 1
      && forall id | id in s'.hbm :: Stamp(s'.live, id) == StampAt(s.live, b.objectId, step, id)
  {
    hide EnsureCapacity;
    SeatedEffect(c, o, s, Seat(Missed(s, b), b), step, b.objectId, size, last);
  }

  lemma AccessedEffect(c: Config, o: Oracle, s: State, step: nat, i: MemoryIntent, size: int, last: int)
    requires c.policy == Lru() && c.hbmCapacity >= 0 && LruState(s, size, last) && step > last
    requires BlockOk(i) && (i.objectId in s.live || i.sizeBytes == size)
    ensures var r := OnAccessed(c, o, s, step, i);
      && r.Ok?
      && var s' := r.value.0; var x := i.objectId;
      && Uniform(s'.live, size)
      && s'.misses == s.misses + (if x !in s.hbm then 1 else 0)
      && (forall id | id in s'.hbm :: Stamp(s'.live, id) == StampAt(s.live, x, step, id))
      && TouchEffect(s.live, x, step, x in s.hbm, s.hbm, s'.hbm, size, c.hbmCapacity)
  {
    hide MoveToHbm, AccessedBlock, BlockOk;
    var x := if i.objectId in s.live then s.live[i.objectId] else i;
    AccessedBlockOk(x, i, step);
    AccessedFields(x, i, step);
    var b := AccessedBlock(x, i, step).value;
    if i.objectId in s.hbm {
      assert s.hbm + {i.objectId} == s.hbm;
    } else {
      MissEffect(c, o, s, step, b, size, last);
    }
  }

  lemma KeptFields(x: MemoryIntent, i: MemoryIntent)
    requires BlockOk(x) && BlockOk(i)
    ensures var r := CriticalBlock(x, i);
      r.Ok? && r.value.sizeBytes == x.sizeBytes && r.value.lastAccessStep == x.lastAccessStep
      && r.value.allowedTiers == x.allowedTiers
    ensures var r := ColdBlock(x, i);
      r.Ok? && r.value.sizeBytes == x.sizeBytes && r.value.lastAccessStep == x.lastAccessStep
      && r.value.allowedTiers == x.allowedTiers
    ensures var r := PrefetchedBlock(x, i);
      r.Ok? && r.value.sizeBytes == i.sizeBytes && r.value.allowedTiers == i.allowedTiers
  {
  }

  /** Events that neither seat nor remove a block leave residency, stamps and misses alone. */
  ghost predicate Unmoved(s: State, s': State, size: int) {
    && s'.hbm == s.hbm && s'.misses == s.misses && Uniform(s'.live, size)
    && forall id | id in s.hbm :: Stamp(s'.live, id) == Stamp(s.live, id)
  }

  lemma RefileUnmoved(s: State, b: MemoryIntent, size: int)
    requires Uniform(s.live, size) && b.sizeBytes == size
    requires b.objectId in s.hbm ==> b.lastAccessStep == Stamp(s.live, b.objectId)
    ensures Unmoved(s, Refile(s, b), size)
  {
  }

  lemma MarkedDecodeCriticalUnmoved(s: State, i: MemoryIntent, size: int)
    requires Sound(s) && Uniform(s.live, size) && BlockOk(i) && (i.objectId in s.live || i.sizeBytes == size)
    ensures var r := OnMarkedDecodeCritical(s, i); r.Ok? && Unmoved(s, r.value, size)
  {
    hide CriticalBlock;
    var x := if i.objectId in s.live then s.live[i.objectId] else i;
    CriticalBlockOk(x, i);
    KeptFields(x, i);
    RefileUnmoved(s, OnMarkedDecodeCritical(s, i).value.live[i.objectId], size);
  }

  lemma MarkedColdUnmoved(s: State, i: MemoryIntent, size: int)
    requires Sound(s) && Uniform(s.live, size) && BlockOk(i)
    ensures var r := OnMarkedCold(s, i); r.Ok? && Unmoved(s, r.value, size)
  {
    hide ColdBlock;
    if i.objectId in s.live {
      ColdBlockOk(s.live[i.objectId], i);
      KeptFields(s.live[i.objectId], i);
      RefileUnmoved(s, ColdBlock(s.live[i.objectId], i).value, size);
    }
  }

  lemma CommittedUnmoved(s: State, i: MemoryIntent, size: int)
    requires Sound(s) && Uniform(s.live, size)
    ensures var r := OnCommitted(s, i); r.Ok? && Unmoved(s, r.value, size)
  {
    if i.objectId in s.live {
      var b := s.live[i.objectId].(isCommitted := true, isDraft := false);
      assert Construct(b) == Ok(b);
      RefileUnmoved(s, b, size);
    }
  }

  lemma PrefetchedUnmoved(c: Config, o: Oracle, s: State, step: nat, i: MemoryIntent, size: int)
    requires c.policy == Lru() && Sound(s) && Uniform(s.live, size) && BlockOk(i) && i.sizeBytes == size
    ensures var r := OnPrefetched(c, o, s, step, i); r.Ok? && Unmoved(s, r.value.0, size)
  {
    if i.objectId in s.live && i.objectId !in s.hbm {
      PrefetchedBlockOk(s.live[i.objectId], i);
      KeptFields(s.live[i.objectId], i);
      var b := PrefetchedBlock(s.live[i.objectId], i).value;
      hide PrefetchedBlock, MoveToHbm;
      assert !c.policy.wantsPrefetch(b, step) by { assert !NeverPrefetch(b, step); }
    }
  }

  lemma SpilledEffect(c: Config, s: State, i: MemoryIntent, size: int)
    requires Sound(s) && Uniform(s.live, size) && AllAllowDram(s.live)
    ensures var r := OnSpilled(c, s, i); r.Ok? && Removed(s, r.value.0, i.objectId, size)
  {
    if i.objectId in s.live {
      var b := s.live[i.objectId].(currentTier := DRAM);
      assert AllowsDram(b.allowedTiers);
      assert Construct(b) == Ok(b);
      hide Construct;
    } else {
      assert s.hbm - {i.objectId} == s.hbm;
    }
  }

  ghost predicate Removed(s: State, s': State, id: string, size: int) {
    && s'.hbm == s.hbm - {id} && s'.misses == s.misses && Uniform(s'.live, size)
    && forall x | x in s'.hbm :: Stamp(s'.live, x) == Stamp(s.live, x)
  }

  lemma DeparturesRemove(s: State, id: string, size: int)
    requires Sound(s) && Uniform(s.live, size)
    ensures Removed(s, OnEvicted(s, id), id, size) && Removed(s, OnFreed(s, id), id, size)
  {
    assert id !in s.live ==> s.hbm - {id} == s.hbm;
  }

  /** What the handlers rely on about the merged intent. */
  ghost predicate IncomingFields(s: State, e: Event, i: MemoryIntent) {
    e.intent.objectId !in s.live || e.kind == Prefetched || e.kind == Allocated ==>
      && i.sizeBytes == e.intent.sizeBytes
      && i.currentTier == e.intent.currentTier
      && i.lastAccessStep == e.intent.lastAccessStep
  }

  lemma ConstructKeepsFields(m: MemoryIntent)
    requires Construct(m).Ok?
    ensures var r := Construct(m).value;
      r.sizeBytes == m.sizeBytes && r.currentTier == m.currentTier && r.lastAccessStep == m.lastAccessStep
      && r.objectId == m.objectId
  {
  }

  lemma IncomingHasFields(s: State, e: Event)
    requires Incoming(s, e).Ok?
    ensures IncomingFields(s, e, Incoming(s, e).value)
  {
    ConstructKeepsFields(e.intent);
    var i := Construct(e.intent).value;
    if i.objectId in s.live {
      var merged := Merge(e.kind, s.live[i.objectId], i);
      assert e.kind == Prefetched || e.kind == Allocated ==> merged == i.(objectId := s.live[i.objectId].objectId);
      ConstructKeepsFields(merged);
    }
    hide Construct, Merge;
  }

  lemma HandleEffect(
    c: Config, o: Oracle, s: State, e: Event, i: MemoryIntent, size: int, last: int, spillable: bool)
    requires c.policy == Lru() && c.hbmCapacity >= 0 && LruState(s, size, last)
    requires LruEvent(e, size, last, s.live.Keys, spillable) && (spillable ==> AllAllowDram(s.live))
    requires BlockOk(i) && i.objectId == e.intent.objectId && IncomingFields(s, e, i)
    ensures var r := Handle(c, o, s, e.kind, e.step, i); r.Ok? && LruEffect(c, size, s, r.value.0, e)
  {
    hide EnsureCapacity, MoveToHbm, OnAccessed, OnSpilled, OnPrefetched, OnMarkedDecodeCritical, OnMarkedCold;
    hide OnCommitted, OnFreed, OnEvicted, TouchEffect, BlockOk;
    match e.kind
    case Allocated =>
      if i.currentTier == HBM {
        hide OnAllocated;
        AllocatedEffect(c, o, s, e.step, i, size, last);
      }
    case Accessed =>
      AccessedEffect(c, o, s, e.step, i, size, last);
    case MarkedDecodeCritical => MarkedDecodeCriticalUnmoved(s, i, size);
    case MarkedCold => MarkedColdUnmoved(s, i, size);
    case Committed => CommittedUnmoved(s, i, size);
    case Spilled => SpilledEffect(c, s, i, size);
    case Prefetched => PrefetchedUnmoved(c, o, s, e.step, i, size);
    case Miss =>
    case Evicted => DeparturesRemove(s, i.objectId, size);
    case Freed => DeparturesRemove(s, i.objectId, size);
  }

  lemma EffectKeepsState(c: Config, s: State, s': State, e: Event, size: int, last: int)
    requires LruState(s, size, last) && LruEffect(c, size, s, s', e) && e.step > last && Sound(s')
    ensures LruState(s', size, e.step)
  {
    hide Sound, Uniform, Hits, Touches, Removes;
  }

  lemma SettledEffect(c: Config, size: int, s: State, s1: State, s': State, e: Event)
    requires LruEffect(c, size, s, s1, e) && SameButRecency(s1.live, s'.live)
    requires s'.hbm == s1.hbm && s'.misses == s1.misses
    ensures LruEffect(c, size, s, s', e)
  {
    assert forall id :: Stamp(s'.live, id) == Stamp(s1.live, id);
  }

  lemma StepEffect(c: Config, o: Oracle, s: State, e: Event, size: int, last: int, spillable: bool)
    requires c.policy == Lru() && c.hbmCapacity >= 0 && LruState(s, size, last)
    requires LruEvent(e, size, last, s.live.Keys, spillable) && (spillable ==> AllAllowDram(s.live))
    ensures var r := Step(c, o, s, e);
      && r.Ok?
      && LruEffect(c, size, s, r.value, e)
      && LruState(r.value, size, e.step)
      && r.value.live.Keys == NextKeys(s.live.Keys, e.kind, e.intent.objectId)
      && (spillable ==> AllAllowDram(r.value.live))
  {
    hide Handle, Step, Incoming, Decay, LruEffect, Supported;
    var i, s1, added, s2 := StepUnfolds(c, o, s, e);
    IncomingHasFields(s, e);
    HandleEffect(c, o, s, e, i, size, last, spillable);
    var s' := Step(c, o, s, e).value;
    SettledEffect(c, size, s, s1, s', e);
    StepKeeps(c, o, s, e);
    EffectKeepsState(c, s, s', e, size, last);
    if spillable {
      TierRules.StepObeys(c, o, s, e, AllowsDram);
    }
  }

  /** Two LRU runs in step: the smaller HBM holds the most recent members of the larger one. */
  ghost predicate Included(small: State, large: State) {
    && small.live.Keys == large.live.Keys
    && small.hbm <= large.hbm
    && (forall id | id in small.hbm :: Stamp(small.live, id) == Stamp(large.live, id))
    && (forall x, y | x in large.hbm && x !in small.hbm && y in small.hbm ::
          Stamp(large.live, x) < Stamp(large.live, y))
    && large.misses <= small.misses
  }

  lemma TouchKeepsInclusion(
    live1: LiveMap, live2: LiveMap, x: string, now: int, hit1: bool, hit2: bool,
    small: set<string>, large: set<string>, small': set<string>, large': set<string>,
    size: int, capacity1: int, capacity2: int)
    requires size > 0 && capacity1 <= capacity2 && small <= large && (hit1 ==> hit2)
    requires forall id | id in small :: Stamp(live1, id) == Stamp(live2, id)
    requires forall a, b | a in small && b in large && b !in small :: Stamp(live2, b) < Stamp(live2, a)
    requires forall id | id in large :: Stamp(live2, id) < now
    requires TouchEffect(live1, x, now, hit1, small, small', size, capacity1)
    requires TouchEffect(live2, x, now, hit2, large, large', size, capacity2)
    ensures small' <= large' && StampedMostRecent(live2, x, now, large', small')
  {
    assert StampedMostRecent(live2, x, now, small + {x}, small');
    InclusionSurvives(live2, x, now, small, large, small', large', size, capacity1, capacity2);
  }

  lemma EffectKeepsInclusion(
    c1: Config, c2: Config, s1: State, s2: State, s1': State, s2': State, e: Event, size: int, last: int)
    requires size > 0 && c1.hbmCapacity <= c2.hbmCapacity && e.step > last
    requires LruState(s1, size, last) && LruState(s2, size, last) && Included(s1, s2)
    requires LruEffect(c1, size, s1, s1', e) && LruEffect(c2, size, s2, s2', e)
    requires s1'.live.Keys == s2'.live.Keys
    ensures Included(s1', s2')
  {
    hide TouchEffect, Sound, Uniform, DistinctStamps;
    if Touches(e) {
      TouchKeepsInclusion(s1.live, s2.live, e.intent.objectId, e.step, Hits(s1, e), Hits(s2, e),
                          s1.hbm, s2.hbm, s1'.hbm, s2'.hbm, size, c1.hbmCapacity, c2.hbmCapacity);
      TouchKeepsStamps(c1, c2, s1, s2, s1', s2', e, size);
    }
  }

  lemma TouchKeepsStamps(
    c1: Config, c2: Config, s1: State, s2: State, s1': State, s2': State, e: Event, size: int)
    requires Included(s1, s2) && Touches(e) && s1'.hbm <= s2'.hbm
    requires LruEffect(c1, size, s1, s1', e) && LruEffect(c2, size, s2, s2', e)
    ensures forall id | id in s1'.hbm :: Stamp(s1'.live, id) == Stamp(s2'.live, id)
  {
    assert s1'.hbm <= s1.hbm + {e.intent.objectId};
  }

  /** A trace of comparable events, from the step `last` with `keys` live. */
  ghost predicate LruTrace(events: seq<Event>, size: int, last: int, keys: set<string>, spillable: bool)
    decreases |events|
  {
    events == [] ||
    (&& LruEvent(events[0], size, last, keys, spillable)
     && LruTrace(events[1..], size, events[0].step,
                 NextKeys(keys, events[0].kind, events[0].intent.objectId), spillable))
  }

  /** No Belady anomaly: replaying one trace of equal-sized blocks under LRU with two HBM capacities, the
      larger HBM contains the smaller one after every event and never has more misses, whatever the DRAM
      capacities, latencies and iteration orders of the two runs. */
  lemma {:induction false} LargerHbmIncludesSmaller(
    c1: Config, c2: Config, o1: Oracle, o2: Oracle, s1: State, s2: State,
    events: seq<Event>, size: int, last: int, spillable: bool)
    requires c1.policy == Lru() && c2.policy == Lru() && 0 <= c1.hbmCapacity <= c2.hbmCapacity && size > 0
    requires LruState(s1, size, last) && LruState(s2, size, last) && Included(s1, s2)
    requires spillable ==> AllAllowDram(s1.live) && AllAllowDram(s2.live)
    requires LruTrace(events, size, last, s1.live.Keys, spillable)
    ensures var r1, r2 := Run(c1, o1, s1, events), Run(c2, o2, s2, events);
      r1.Ok? && r2.Ok? && Included(r1.value, r2.value)
    decreases |events|
  {
    hide Step, LruEffect, LruState, LruEvent, Included;
    if events != [] {
      var e := events[0];
      assert s1.live.Keys == s2.live.Keys && e.step > last by {
        IncludedKeys(s1, s2);
        LaterStep(e, size, last, s1.live.Keys, spillable);
      }
      StepEffect(c1, o1, s1, e, size, last, spillable);
      StepEffect(c2, o2, s2, e, size, last, spillable);
      var s1', s2' := Step(c1, o1, s1, e).value, Step(c2, o2, s2, e).value;
      EffectKeepsInclusion(c1, c2, s1, s2, s1', s2', e, size, last);
      LargerHbmIncludesSmaller(c1, c2, o1, o2, s1', s2', events[1..], size, e.step, spillable);
    }
  }

  lemma IncludedKeys(s1: State, s2: State)
    requires Included(s1, s2)
    ensures s1.live.Keys == s2.live.Keys
  {
  }

  lemma LaterStep(e: Event, size: int, last: int, keys: set<string>, spillable: bool)
    requires LruEvent(e, size, last, keys, spillable)
    ensures e.step > last
  {
  }

  /** The same from empty memory, in terms of the results. */
  lemma MoreHbmNeverMissesMore(
    c1: Config, c2: Config, o1: Oracle, o2: Oracle, events: seq<Event>, size: int, spillable: bool)
    requires c1.policy == Lru() && c2.policy == Lru() && 0 <= c1.hbmCapacity <= c2.hbmCapacity && size > 0
    requires LruTrace(events, size, -1, {}, spillable)
    ensures var r1, r2 := Run(c1, o1, Initial(), events), Run(c2, o2, Initial(), events);
      r1.Ok? && r2.Ok? && r1.value.hbm <= r2.value.hbm && r2.value.misses <= r1.value.misses
  {
    var s: State := Initial();
    assert s.live.Keys == {};
    LargerHbmIncludesSmaller(c1, c2, o1, o2, s, s, events, size, -1, spillable);
  }
}
