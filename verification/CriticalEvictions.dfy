/** When the intent family's count of decode-critical evictions stays zero. A block counts as decode-critical
    by priority or by phase, but only the priority implies the pin, so the count is zero exactly when the
    blocks in the DECODE phase are pinned too. */
module CriticalEvictions {
  import opened Prelude
  import opened Schema
  import opened Policies
  import opened Simulation
  import opened Residency
  import Capacity
  import Pinning
  import TierErrors

  ghost predicate DecodeResidentsPinned(s: State) {
    forall id | id in s.hbm && id in s.live && s.live[id].phase == Decode :: s.live[id].pinRequested
  }

  ghost predicate UncountedUnderPressure(c: Config, o: Oracle, s: State, step: nat, capacity: int) {
    EnsureCapacity(c.(hbmCapacity := capacity), o, s, step).0.criticalEvictions == s.criticalEvictions
  }

  lemma {:induction false} PinnedDecodeIsUncounted(c: Config, o: Oracle, s: State, step: nat)
    requires c.policy.intentFamily && BlocksOk(s.live) && DecodeResidentsPinned(s)
    ensures EnsureCapacity(c, o, s, step).0.criticalEvictions == s.criticalEvictions
    decreases |s.hbm|
  {
    hide ChooseVictim, Candidates, Used;
    if Used(s.live, s.hbm) <= c.hbmCapacity || Stuck(c, s) {
    } else {
      VictimIsResident(c, o, s, step);
      Pinning.VictimIsUnpinned(c, o, s, step);
      match ChooseVictim(c.policy, Candidates(o, s), step) {
        case None =>
        case Some(v) =>
          var tier, toDram, entry := EvictDisplaces(c, o, s, step, v);
          FileKeeps(s.live, v.(currentTier := tier));
          PinnedDecodeIsUncounted(c, o, Evict(c, o, s, step, v), step);
      }
    }
  }

  lemma ResidentTakesSpace(s: State, id: string)
    requires BlocksOk(s.live) && s.hbm <= s.live.Keys && id in s.hbm
    ensures Used(s.live, s.hbm) > 0
  {
    UsedSplit(s.live, s.hbm, id);
    Capacity.UsedMonotone(s.live, {}, s.hbm - {id});
  }

  lemma {:induction false} CriticalEvictionsBounds(c: Config, o: Oracle, s: State, step: nat)
    ensures
      s.criticalEvictions <= EnsureCapacity(c, o, s, step).0.criticalEvictions <= s.criticalEvictions + |s.hbm|
    decreases |s.hbm|
  {
    if Used(s.live, s.hbm) <= c.hbmCapacity || Stuck(c, s) {
    } else {
      VictimIsResident(c, o, s, step);
      match ChooseVictim(c.policy, Candidates(o, s), step) {
        case None =>
        case Some(v) =>
          var tier, toDram, entry := EvictDisplaces(c, o, s, step, v);
          CriticalEvictionsBounds(c, o, Evict(c, o, s, step, v), step);
      }
    }
  }

  lemma {:induction false} UnpinnedDecodeIsCounted(c: Config, o: Oracle, s: State, step: nat, id: string)
    requires c.policy.intentFamily && c.hbmCapacity == 0 && BlocksOk(s.live) && s.hbm <= s.live.Keys
    requires id in s.hbm && s.live[id].phase == Decode && !s.live[id].pinRequested
    ensures EnsureCapacity(c, o, s, step).0.criticalEvictions > s.criticalEvictions
    decreases |s.hbm|
  {
    hide ChooseVictim, Candidates, Used, Evict;
    ResidentTakesSpace(s, id);
    assert !Stuck(c, s);
    VictimIsResident(c, o, s, step);
    var v := ChooseVictim(c.policy, Candidates(o, s), step).value;
    var tier, toDram, entry := EvictDisplaces(c, o, s, step, v);
    var s1 := Evict(c, o, s, step, v);
    if v.objectId == id {
      CriticalEvictionsBounds(c, o, s1, step);
    } else {
      FileKeeps(s.live, v.(currentTier := tier));
      UnpinnedDecodeIsCounted(c, o, s1, step, id);
    }
  }

  /** Enforcement counts no decode-critical eviction at any capacity if and only if every resident in the
      DECODE phase is pinned. */
  lemma UncountedExactly(c: Config, o: Oracle, s: State, step: nat)
    requires c.policy.intentFamily && Sound(s)
    ensures (forall capacity :: UncountedUnderPressure(c, o, s, step, capacity)) <==> DecodeResidentsPinned(s)
  {
    if DecodeResidentsPinned(s) {
      forall capacity ensures UncountedUnderPressure(c, o, s, step, capacity) {
        PinnedDecodeIsUncounted(c.(hbmCapacity := capacity), o, s, step);
      }
    } else {
      var id :| id in s.hbm && id in s.live && s.live[id].phase == Decode && !s.live[id].pinRequested;
      UnpinnedDecodeIsCounted(c.(hbmCapacity := 0), o, s, step, id);
      assert !UncountedUnderPressure(c, o, s, step, 0);
    }
  }

  /** The unpinned residents in the DECODE phase. */
  predicate Exposed(s: State, id: string) {
    id in s.hbm && id in s.live && s.live[id].phase == Decode && !s.live[id].pinRequested
  }

  /** The unpinned residents that leave before any exposed one does. */
  ghost function Ahead(c: Config, s: State, step: nat): set<string> {
    set id | id in s.hbm && id in s.live && !s.live[id].pinRequested
             && forall d | d in s.hbm && Exposed(s, d) :: Preferred(c.policy, step, s.live[id], s.live[d])
  }

  /** No resident is exposed, or everything fits once the unpinned residents that go first have left. */
  ghost predicate EnforcesUncounted(c: Config, s: State, step: nat) {
    DecodeResidentsPinned(s) || Used(s.live, s.hbm - Ahead(c, s, step)) <= c.hbmCapacity
  }

  /** Under the intent family the victim, while some resident is exposed, is unpinned and beats every exposed
      resident but itself. */
  lemma VictimBeatsExposed(c: Config, o: Oracle, s: State, step: nat, d: string)
    requires c.policy.intentFamily && Exposed(s, d)
    ensures var r := ChooseVictim(c.policy, Candidates(o, s), step);
      && r.Some? && r.value.objectId in s.hbm && r.value.objectId in s.live && s.live[r.value.objectId] == r.value
      && !r.value.pinRequested
      && (r.value.objectId != d ==> Preferred(c.policy, step, r.value, s.live[d]))
  {
    VictimIsBestEligible(c.policy, Candidates(o, s), step);
    CandidateMembers(o, s);
    var b := s.live[d];
    assert b in Members(Candidates(o, s)) && Eligible(c.policy, Members(Candidates(o, s)), b);
    hide ChooseVictim, Candidates;
    var v := ChooseVictim(c.policy, Candidates(o, s), step).value;
    PreferredTotal(c.policy, step, v, b);
  }

  /** One turn that takes a block ahead of the exposed ones leaves the others as they were. */
  lemma AheadShrinks(c: Config, s: State, step: nat, v: MemoryIntent, s1: State, tier: Tier)
    requires v.objectId in s.hbm && v.objectId in s.live && s.live[v.objectId] == v && !Exposed(s, v.objectId)
    requires s1.hbm == s.hbm - {v.objectId} && s1.live == File(s.live, v.(currentTier := tier))
    ensures Ahead(c, s1, step) == Ahead(c, s, step) - {v.objectId}
    ensures forall d :: Exposed(s1, d) <==> Exposed(s, d)
  {
    hide Preferred;
    assert forall d | d in s1.hbm && d in s.live :: s1.live[d] == s.live[d];
    assert forall d :: Exposed(s1, d) <==> Exposed(s, d);
  }

  lemma AheadIsEmpty(c: Config, s: State, step: nat, v: MemoryIntent)
    requires Exposed(s, v.objectId) && s.live[v.objectId] == v
    requires forall d | d in s.hbm && d in s.live && !s.live[d].pinRequested && d != v.objectId ::
      !Preferred(c.policy, step, s.live[d], v)
    ensures Ahead(c, s, step) == {}
  {
    PreferredTotal(c.policy, step, v, v);
    hide Preferred;
  }

  /** At the memory's own capacity: enforcement counts no decode-critical eviction if and only if no resident is
      exposed, or everything fits once the unpinned residents that go first have left. */
  lemma {:induction false} UncountedAtCapacityExactly(c: Config, o: Oracle, s: State, step: nat)
    requires c.policy.intentFamily && BlocksOk(s.live) && s.hbm <= s.live.Keys
    ensures EnsureCapacity(c, o, s, step).0.criticalEvictions == s.criticalEvictions <==> EnforcesUncounted(c, s, step)
    decreases |s.hbm|
  {
    hide ChooseVictim, Candidates, Used, Evict, Preferred, Ahead, File;
    if DecodeResidentsPinned(s) {
      PinnedDecodeIsUncounted(c, o, s, step);
    } else {
      var d :| d in s.hbm && Exposed(s, d);
      Capacity.UsedMonotone(s.live, s.hbm - Ahead(c, s, step), s.hbm);
      assert !Stuck(c, s);
      if Used(s.live, s.hbm) > c.hbmCapacity {
        VictimBeatsExposed(c, o, s, step, d);
        var v := ChooseVictim(c.policy, Candidates(o, s), step).value;
        if Exposed(s, v.objectId) {
          ExposedVictimIsCounted(c, o, s, step, v);
          assert s.hbm - {} == s.hbm;
        } else {
          UnexposedTurn(c, o, s, step, v);
          UncountedAtCapacityExactly(c, o, Evict(c, o, s, step, v), step);
        }
      }
    }
  }

  /** A turn that takes an unexposed victim is not counted and does not change what the exact condition says. */
  lemma UnexposedTurn(c: Config, o: Oracle, s: State, step: nat, v: MemoryIntent)
    requires c.policy.intentFamily && ChooseVictim(c.policy, Candidates(o, s), step) == Some(v)
    requires !DecodeResidentsPinned(s) && !Exposed(s, v.objectId) && BlocksOk(s.live) && s.hbm <= s.live.Keys
    ensures var s1 := Evict(c, o, s, step, v);
      && BlocksOk(s1.live) && s1.hbm <= s1.live.Keys && v.objectId in s.hbm && s1.hbm == s.hbm - {v.objectId}
      && s1.criticalEvictions == s.criticalEvictions && !DecodeResidentsPinned(s1)
      && Used(s1.live, s1.hbm - Ahead(c, s1, step)) == Used(s.live, s.hbm - Ahead(c, s, step))
  {
    hide ChooseVictim, Candidates, Used, Evict, Preferred, Ahead, File;
    UnexposedVictimGoesFirst(c, o, s, step, v);
    VictimIsResident(c, o, s, step);
    var tier, toDram, entry := EvictDisplaces(c, o, s, step, v);
    var s1 := Evict(c, o, s, step, v);
    FileKeeps(s.live, v.(currentTier := tier));
    AheadShrinks(c, s, step, v, s1, tier);
    DisplacedSizes(s, v, tier, s.hbm - Ahead(c, s, step));
    assert s1.hbm - Ahead(c, s1, step) == s.hbm - Ahead(c, s, step);
    var d :| d in s.hbm && Exposed(s, d);
    assert Exposed(s1, d);
  }

  lemma DisplacedSizes(s: State, v: MemoryIntent, tier: Tier, ids: set<string>)
    requires v.objectId in s.live && s.live[v.objectId] == v
    ensures Used(File(s.live, v.(currentTier := tier)), ids) == Used(s.live, ids)
  {
    UsedFrame(s.live, File(s.live, v.(currentTier := tier)), ids);
  }

  lemma ExposedVictimIsCounted(c: Config, o: Oracle, s: State, step: nat, v: MemoryIntent)
    requires c.policy.intentFamily && ChooseVictim(c.policy, Candidates(o, s), step) == Some(v)
    requires Used(s.live, s.hbm) > c.hbmCapacity && !Stuck(c, s)
    requires Exposed(s, v.objectId) && s.live[v.objectId] == v
    ensures EnsureCapacity(c, o, s, step).0.criticalEvictions > s.criticalEvictions
    ensures Ahead(c, s, step) == {}
  {
    VictimIsBestEligible(c.policy, Candidates(o, s), step);
    CandidateMembers(o, s);
    forall d | d in s.hbm && d in s.live && !s.live[d].pinRequested && d != v.objectId
      ensures !Preferred(c.policy, step, s.live[d], v)
    {
      assert Eligible(c.policy, Members(Candidates(o, s)), s.live[d]);
    }
    hide ChooseVictim, Candidates, Preferred, Used, Ahead;
    AheadIsEmpty(c, s, step, v);
    var tier, toDram, entry := EvictDisplaces(c, o, s, step, v);
    CriticalEvictionsBounds(c, o, Evict(c, o, s, step, v), step);
  }

  lemma UnexposedVictimGoesFirst(c: Config, o: Oracle, s: State, step: nat, v: MemoryIntent)
    requires c.policy.intentFamily && ChooseVictim(c.policy, Candidates(o, s), step) == Some(v)
    requires !DecodeResidentsPinned(s) && !Exposed(s, v.objectId) && BlocksOk(s.live)
    ensures v.objectId in Ahead(c, s, step) && s.live[v.objectId] == v && !IsDecodeCritical(v)
  {
    hide ChooseVictim, Candidates, Preferred;
    forall d | d in s.hbm && Exposed(s, d)
      ensures v.objectId in s.hbm && v.objectId in s.live && s.live[v.objectId] == v && !v.pinRequested
      ensures Preferred(c.policy, step, v, s.live[d])
    {
      VictimBeatsExposed(c, o, s, step, d);
    }
    var d :| d in s.hbm && Exposed(s, d);
  }

  /** A lone resident is counted exactly when it does not fit, is in the DECODE phase and unpinned. */
  lemma LoneIsCounted(c: Config, o: Oracle, s: State, step: nat, b: MemoryIntent)
    requires c.policy.intentFamily && Valid(b) && TierErrors.Alone(s, b)
    ensures EnsureCapacity(c, o, s, step).0.criticalEvictions == s.criticalEvictions +
      if b.sizeBytes > c.hbmCapacity && b.phase == Decode && !b.pinRequested then 1 else 0
  {
    hide ChooseVictim, Candidates, Used, Stuck, TierErrors.Alone;
    TierErrors.LoneChoice(c, o, s, step, b);
    if TierErrors.Leaves(c, b) {
      TierErrors.LoneResident(s, b);
      TierErrors.EvictKeepsOthers(c, o, s, step, b);
      CriticalEvictionsBounds(c, o, Evict(c, o, s, step, b), step);
    }
  }

  /** One allocation on an empty simulator, for every intent and every capacity: unless it raises, it is counted as a
      decode-critical eviction exactly when the block is placed in HBM and does not fit, is in the DECODE phase and
      not pinned. */
  lemma SingleAllocationCountsExactly(c: Config, o: Oracle, e: Event)
    requires c.policy.intentFamily && e.kind == Allocated
    ensures var r := Run(c, o, Initial(), [e]);
      && (r.Ok? <==> TierErrors.LoneEventSafe(c, e))
      && (r.Ok? ==>
            r.value.criticalEvictions ==
              if e.intent.currentTier == HBM && e.intent.sizeBytes > c.hbmCapacity && e.intent.phase == Decode
                 && !e.intent.pinRequested && e.intent.priority != DecodeCritical
              then 1 else 0)
  {
    hide Step, Handle, Construct, Settle, OnAllocated;
    var start: State := Initial();
    TierErrors.LoneEventRaisesExactly(c, o, e);
    assert [e][1..] == [];
    if Run(c, o, start, [e]).Ok? {
      var i, s1, added := StepParts(c, o, start, e);
      assert Run(c, o, Step(c, o, start, e).value, []) == Step(c, o, start, e);
      ConstructYieldsValid(e.intent);
      TierErrors.HandledAllocation(c, o, e.step, i);
      SettleFrame(c, s1, added, e.step);
      SeatedAloneCountsExactly(c, o, i, e.step);
    }
  }

  lemma EmptyIsSound()
    ensures Sound(Initial()) && DecodePinned(Initial().live)
  {
  }

  lemma FreshIncoming(s: State, e: Event)
    requires Supported(e) && e.intent.objectId !in s.live
    ensures var i := Incoming(s, e).value;
      && Incoming(s, e).Ok?
      && i == e.intent.(pinRequested := e.intent.pinRequested || e.intent.priority == DecodeCritical)
  {
    ConstructYieldsValid(e.intent);
    hide Construct;
  }

  lemma SeatedAloneCountsExactly(c: Config, o: Oracle, i: MemoryIntent, step: nat)
    requires c.policy.intentFamily && Valid(i)
    ensures OnAllocated(c, o, Initial(), step, i).0.criticalEvictions ==
      if i.currentTier == HBM && i.sizeBytes > c.hbmCapacity && i.phase == Decode && !i.pinRequested then 1 else 0
  {
    hide EnsureCapacity, Valid;
    if i.currentTier == HBM {
      var s := Admit(Initial(), i);
      assert s.live == map[i.objectId := i] && s.hbm == {i.objectId};
      LoneIsCounted(c, o, s, step, i);
    }
  }

  /** An HBM allocation of an unpinned block in the DECODE phase. */
  predicate ExposedAllocation(e: Event) {
    && Supported(e) && e.kind == Allocated && e.intent.currentTier == HBM
    && e.intent.phase == Decode && !e.intent.pinRequested && e.intent.priority != DecodeCritical
  }

  /** After the first of two such allocations, which fits. */
  lemma FirstFits(c: Config, o: Oracle, e: Event) returns (t: State)
    requires ExposedAllocation(e) && e.intent.sizeBytes <= c.hbmCapacity
    ensures Step(c, o, Initial(), e) == Ok(t) && Sound(t) && t.criticalEvictions == 0
    ensures t.live.Keys == {e.intent.objectId} && t.hbm == {e.intent.objectId}
    ensures var b := t.live[e.intent.objectId];
      b.sizeBytes == e.intent.sizeBytes && b.phase == Decode && !b.pinRequested
  {
    hide Step, Handle, Incoming, Supported, BlockOk, Decay, EnsureCapacity;
    EmptyIsSound();
    var i, s1, added, s2 := StepUnfolds(c, o, Initial(), e);
    FreshIncoming(Initial(), e);
    TierErrors.HandledAllocation(c, o, e.step, i);
    AllocationFits(c, o, e.step, i);
    t := s2.(latencies := s2.latencies + [c.baseLatency + added]);
  }

  lemma AllocationFits(c: Config, o: Oracle, step: nat, i: MemoryIntent)
    requires BlockOk(i) && i.currentTier == HBM && i.sizeBytes <= c.hbmCapacity
    ensures var s := OnAllocated(c, o, Initial(), step, i).0;
      s.live == map[i.objectId := i] && s.hbm == {i.objectId} && s.criticalEvictions == 0
  {
    var s := Admit(Initial(), i);
    assert s.live == map[i.objectId := i] && s.hbm == {i.objectId};
    hide Evict, Candidates, ChooseVictim, Stuck;
    TierErrors.LoneChoice(c, o, s, step, i);
  }

  lemma PairSize(live: LiveMap, x: string, y: string)
    requires x != y
    ensures Used(live, {x, y}) == Size(live, x) + Size(live, y)
  {
    UsedSplit(live, {x, y}, x);
    assert {x, y} - {x} == {y};
    UsedSplit(live, {y}, y);
    assert {y} - {y} == {};
  }

  /** When every resident is exposed, none goes first. */
  lemma NoneAhead(c: Config, s: State, step: nat)
    requires forall id | id in s.hbm :: Exposed(s, id)
    ensures Ahead(c, s, step) == {}
  {
    hide Preferred;
    forall id ensures id !in Ahead(c, s, step) {
      if id in s.hbm {
        PreferredTotal(c.policy, step, s.live[id], s.live[id]);
      }
    }
  }

  lemma AllExposedIsCounted(c: Config, o: Oracle, s: State, step: nat, d: string)
    requires c.policy.intentFamily && BlocksOk(s.live) && s.hbm <= s.live.Keys
    requires Used(s.live, s.hbm) > c.hbmCapacity && d in s.hbm && forall id | id in s.hbm :: Exposed(s, id)
    ensures EnsureCapacity(c, o, s, step).0.criticalEvictions > s.criticalEvictions
  {
    hide EnsureCapacity, Used, Ahead;
    NoneAhead(c, s, step);
    assert s.hbm - {} == s.hbm;
    UncountedAtCapacityExactly(c, o, s, step);
    CriticalEvictionsBounds(c, o, s, step);
  }

  /** Two such blocks that fit one by one but not together, at any capacity and under any intent-family policy:
      a decode-critical eviction is counted. */
  lemma PairUnderPressure(c: Config, o: Oracle, e1: Event, e2: Event)
    requires c.policy.intentFamily && ExposedAllocation(e1) && ExposedAllocation(e2)
    requires e1.intent.objectId != e2.intent.objectId
    requires e1.intent.sizeBytes <= c.hbmCapacity < e1.intent.sizeBytes + e2.intent.sizeBytes
    ensures var r := Run(c, o, Initial(), [e1, e2]); r.Ok? && r.value.criticalEvictions > 0
  {
    hide Step, Handle, Incoming, Supported, BlockOk, Decay, EnsureCapacity, Used, Ahead;
    var t := FirstFits(c, o, e1);
    var i, s1, added, s2 := StepUnfolds(c, o, t, e2);
    FreshIncoming(t, e2);
    HandledAsAllocation(c, o, t, e2.step, i);
    var s := Admit(t, i);
    AdmitKeeps(t, i);
    assert s.hbm == {e1.intent.objectId, e2.intent.objectId};
    PairSize(s.live, e1.intent.objectId, e2.intent.objectId);
    AllExposedIsCounted(c, o, s, e2.step, e2.intent.objectId);
    RunOfTwo(c, o, e1, e2, t);
  }

  lemma HandledAsAllocation(c: Config, o: Oracle, s: State, step: nat, i: MemoryIntent)
    ensures Handle(c, o, s, Allocated, step, i) == Ok(OnAllocated(c, o, s, step, i))
  {
    hide OnAllocated;
  }

  lemma RunOfTwo(c: Config, o: Oracle, e1: Event, e2: Event, t: State)
    requires Step(c, o, Initial(), e1) == Ok(t) && Step(c, o, t, e2).Ok?
    ensures Run(c, o, Initial(), [e1, e2]) == Step(c, o, t, e2)
  {
    hide Step;
    var u := Step(c, o, t, e2).value;
    assert [e1, e2][1..] == [e2] && [e2][1..] == [];
    assert Run(c, o, u, []) == Ok(u);
    assert Run(c, o, t, [e2]) == Ok(u);
  }

  function DecodeAllocation(id: string, blockId: int): Event {
    Event(0, Allocated, MemoryIntent(
      id, "r", blockId, KvCache, Decode, Hot, {HBM, DRAM}, HBM, 600, 50, 0.5, Some(700), Some(250), None, None, None,
      None, None, false, false, false, false, false, false, 0, 0))
  }

  /** So the claim that the deadline policy never evicts decode-critical state fails, for instance, on two blocks
      of 600 bytes being decoded in 1000 bytes of HBM. */
  lemma DeadlineAwareEvictsUnpinnedDecode(o: Oracle)
    ensures
      var c := Config(DeadlineAware(), 1000, 100000, 5000, 200, 100, 50);
      var r := Run(c, o, Initial(), [DecodeAllocation("r:0", 0), DecodeAllocation("r:1", 1)]);
      r.Ok? && r.value.criticalEvictions > 0
  {
    hide Run;
    PairUnderPressure(Config(DeadlineAware(), 1000, 100000, 5000, 200, 100, 50), o,
                      DecodeAllocation("r:0", 0), DecodeAllocation("r:1", 1));
  }

  ghost predicate DecodePinned(live: LiveMap) {
    forall k | k in live && live[k].phase == Decode :: live[k].pinRequested
  }

  /** Only pinned intents carry the DECODE phase, and no cold marking carries it. */
  predicate PinsDecode(kind: EventType, i: MemoryIntent) {
    i.phase == Decode ==> i.pinRequested && kind != MarkedCold
  }

  /** The handled state keeps DECODE blocks pinned and counts no decode-critical eviction. */
  ghost predicate Uncounted(s: State, s': State) {
    DecodePinned(s'.live) && s'.criticalEvictions == s.criticalEvictions
  }

  lemma FileKeepsDecodePinned(live: LiveMap, b: MemoryIntent)
    requires DecodePinned(live) && (b.phase == Decode ==> b.pinRequested)
    ensures DecodePinned(File(live, b))
  {
  }

  lemma EnforcedUncounted(c: Config, o: Oracle, s: State, step: nat)
    requires c.policy.intentFamily && Sound(s) && DecodePinned(s.live)
    ensures Uncounted(s, EnsureCapacity(c, o, s, step).0)
  {
    PinnedDecodeIsUncounted(c, o, s, step);
    EnsureCapacityEnforces(c, o, s, step);
  }

  lemma MoveUncounted(c: Config, o: Oracle, s: State, b: MemoryIntent, step: nat)
    requires c.policy.intentFamily && Sound(s) && DecodePinned(s.live) && BlockOk(b)
    requires b.phase == Decode ==> b.pinRequested
    ensures Uncounted(s, MoveToHbm(c, o, s, b, step).0)
  {
    FileKeeps(s.live, b.(currentTier := HBM));
    FileKeepsDecodePinned(s.live, b.(currentTier := HBM));
    EnforcedUncounted(c, o, Seat(s, b), step);
  }

  lemma AccessedPhase(x: MemoryIntent, i: MemoryIntent, step: nat)
    requires BlockOk(x) && BlockOk(i)
    ensures var r := AccessedBlock(x, i, step);
      r.Ok? && r.value.phase == i.phase && r.value.pinRequested == i.pinRequested
  {
  }

  lemma PrefetchedPhase(x: MemoryIntent, i: MemoryIntent)
    requires BlockOk(x) && BlockOk(i)
    ensures var r := PrefetchedBlock(x, i);
      r.Ok? && r.value.phase == i.phase && r.value.pinRequested == i.pinRequested
  {
  }

  lemma ColdPhase(x: MemoryIntent, i: MemoryIntent)
    requires BlockOk(x) && BlockOk(i)
    ensures var r := ColdBlock(x, i); r.Ok? && r.value.phase == i.phase
  {
  }

  lemma CriticalPinned(x: MemoryIntent, i: MemoryIntent)
    requires BlockOk(x) && BlockOk(i)
    ensures var r := CriticalBlock(x, i); r.Ok? && r.value.pinRequested
    ensures var r := Construct(i.(priority := DecodeCritical, pinRequested := true)); r.Ok? && r.value.pinRequested
  {
  }

  lemma AllocatedUncounted(c: Config, o: Oracle, s: State, step: nat, i: MemoryIntent)
    requires c.policy.intentFamily && Sound(s) && DecodePinned(s.live) && BlockOk(i) && PinsDecode(Allocated, i)
    ensures Uncounted(s, OnAllocated(c, o, s, step, i).0)
  {
    AdmitKeeps(s, i);
    FileKeepsDecodePinned(s.live, i);
    if i.currentTier == HBM {
      EnforcedUncounted(c, o, Admit(s, i), step);
    }
  }

  lemma AccessedUncounted(c: Config, o: Oracle, s: State, step: nat, i: MemoryIntent)
    requires c.policy.intentFamily && Sound(s) && DecodePinned(s.live) && BlockOk(i) && PinsDecode(Accessed, i)
    ensures var r := OnAccessed(c, o, s, step, i); r.Ok? && Uncounted(s, r.value.0)
  {
    var x := if i.objectId in s.live then s.live[i.objectId] else i;
    AccessedBlockOk(x, i, step);
    AccessedPhase(x, i, step);
    var block := AccessedBlock(x, i, step).value;
    FileKeepsDecodePinned(s.live, block);
    if i.objectId !in s.hbm {
      FileKeeps(s.live, block);
      MoveUncounted(c, o, Missed(s, block), block, step);
    }
  }

  lemma PrefetchedUncounted(c: Config, o: Oracle, s: State, step: nat, i: MemoryIntent)
    requires c.policy.intentFamily && Sound(s) && DecodePinned(s.live) && BlockOk(i) && PinsDecode(Prefetched, i)
    ensures var r := OnPrefetched(c, o, s, step, i); r.Ok? && Uncounted(s, r.value.0)
  {
    if i.objectId in s.live && i.objectId !in s.hbm {
      PrefetchedBlockOk(s.live[i.objectId], i);
      PrefetchedPhase(s.live[i.objectId], i);
      var block := PrefetchedBlock(s.live[i.objectId], i).value;
      FileKeeps(s.live, block);
      FileKeepsDecodePinned(s.live, block);
      if c.policy.wantsPrefetch(block, step) {
        MoveUncounted(c, o, Fetched(s, block), block, step);
      }
    }
  }

  lemma MarkedDecodeCriticalUncounted(s: State, i: MemoryIntent)
    requires Sound(s) && DecodePinned(s.live) && BlockOk(i)
    ensures var r := OnMarkedDecodeCritical(s, i); r.Ok? && Uncounted(s, r.value)
  {
    var x := if i.objectId in s.live then s.live[i.objectId] else i;
    CriticalPinned(x, i);
  }

  lemma MarkedColdUncounted(s: State, i: MemoryIntent)
    requires Sound(s) && DecodePinned(s.live) && BlockOk(i) && PinsDecode(MarkedCold, i)
    ensures var r := OnMarkedCold(s, i); r.Ok? && Uncounted(s, r.value)
  {
    if i.objectId in s.live {
      ColdPhase(s.live[i.objectId], i);
      ColdBlockOk(s.live[i.objectId], i);
    }
  }

  lemma CommittedUncounted(s: State, i: MemoryIntent)
    requires Sound(s) && DecodePinned(s.live) && BlockOk(i)
    ensures var r := OnCommitted(s, i); r.Ok? && Uncounted(s, r.value)
  {
    if i.objectId in s.live {
      ColdBlockOk(s.live[i.objectId], i);
    }
  }

  lemma HandleUncounted(c: Config, o: Oracle, s: State, kind: EventType, step: nat, i: MemoryIntent)
    requires c.policy.intentFamily && Sound(s) && DecodePinned(s.live) && BlockOk(i)
    requires kind != Evicted && (kind != Committed ==> PinsDecode(kind, i))
    ensures var r := Handle(c, o, s, kind, step, i); r.Ok? && Uncounted(s, r.value.0)
  {
    hide OnAllocated, OnAccessed, OnPrefetched, OnMarkedDecodeCritical, OnMarkedCold, OnCommitted, BlockOk;
    match kind
    case Allocated => AllocatedUncounted(c, o, s, step, i);
    case Accessed => AccessedUncounted(c, o, s, step, i);
    case MarkedDecodeCritical => MarkedDecodeCriticalUncounted(s, i);
    case MarkedCold => MarkedColdUncounted(s, i);
    case Committed => CommittedUncounted(s, i);
    case Spilled => SpilledKeeps(c, s, i);
    case Prefetched => PrefetchedUncounted(c, o, s, step, i);
    case Miss =>
    case Freed =>
  }

  /** A trace in which every intent in the DECODE phase asks to be pinned. */
  predicate PinnedDecodeEvent(e: Event) {
    && e.kind != Evicted
    && (e.intent.phase == Decode ==>
        (e.intent.pinRequested || e.intent.priority == DecodeCritical) && e.kind != MarkedCold)
  }

  lemma IncomingPinsDecode(s: State, e: Event)
    requires Sound(s) && Supported(e) && PinnedDecodeEvent(e)
    ensures Incoming(s, e).Ok? && (e.kind != Committed ==> PinsDecode(e.kind, Incoming(s, e).value))
  {
    hide Valid, Merge, Construct, Sound;
    ConstructYieldsValid(e.intent);
    IncomingOk(s, e);
    var i := Construct(e.intent).value;
    if i.objectId in s.live && e.kind != Committed {
      MergePins(e.kind, s.live[i.objectId], i);
    }
  }

  lemma MergePins(kind: EventType, x: MemoryIntent, i: MemoryIntent)
    requires kind != Committed && (i.phase == Decode ==> i.pinRequested && kind != MarkedCold)
    ensures Construct(Merge(kind, x, i)).Ok? ==> PinsDecode(kind, Construct(Merge(kind, x, i)).value)
  {
    hide Construct, Valid, Merge;
    MergeTakes(kind, x, i);
    ConstructYieldsValid(Merge(kind, x, i));
  }

  lemma MergeTakes(kind: EventType, x: MemoryIntent, i: MemoryIntent)
    requires kind != Committed
    ensures Merge(kind, x, i).phase == i.phase
    ensures kind != MarkedCold ==> Merge(kind, x, i).pinRequested == i.pinRequested
  {
  }

  /** Over every run of such a trace, at every capacity, the intent family counts no decode-critical eviction. */
  lemma {:induction false} RunCountsNoCriticalEviction(c: Config, o: Oracle, s: State, events: seq<Event>)
    requires c.policy.intentFamily && Sound(s) && DecodePinned(s.live) && SupportedTrace(events)
    requires forall e | e in events :: PinnedDecodeEvent(e)
    ensures var r := Run(c, o, s, events); r.Ok? && Uncounted(s, r.value)
    decreases |events|
  {
    if events != [] {
      var e := events[0];
      var i, s1, added, s2 := StepUnfolds(c, o, s, e);
      IncomingPinsDecode(s, e);
      HandleUncounted(c, o, s, e.kind, e.step, i);
      StepKeeps(c, o, s, e);
      assert DecodePinned(s2.live);
      RunCountsNoCriticalEviction(c, o, Step(c, o, s, e).value, events[1..]);
    }
  }

  /** The state from which an event of this kind restores capacity, if it does. */
  ghost function Pressed(c: Config, s: State, kind: EventType, step: nat, i: MemoryIntent): Option<State> {
    var id := i.objectId;
    match kind
    case Allocated => if i.currentTier == HBM then Some(Admit(s, i)) else None
    case Accessed =>
      if id in s.hbm then None
      else
        (match AccessedBlock(if id in s.live then s.live[id] else i, i, step)
         case Ok(block) => Some(Seat(Missed(s, block), block))
         case Err(_) => None)
    case Prefetched =>
      if id !in s.live || id in s.hbm then None
      else
        (match PrefetchedBlock(s.live[id], i)
         case Ok(block) =>
           if c.policy.wantsPrefetch(block, step) then Some(Seat(Fetched(s, block), block)) else None
         case Err(_) => None)
    case _ => None
  }

  /** The event counts no decode-critical eviction: it does not evict such a block outright, and where it restores
      capacity none is displaced. */
  ghost predicate HandlesUncounted(c: Config, s: State, kind: EventType, step: nat, i: MemoryIntent) {
    && (kind == Evicted && i.objectId in s.live ==> !IsDecodeCritical(s.live[i.objectId]))
    && (Pressed(c, s, kind, step, i).Some? ==> EnforcesUncounted(c, Pressed(c, s, kind, step, i).value, step))
  }

  /** What enforcement adds to the count, and what the events around it leave alone. */
  lemma EnforcementCounts(c: Config, o: Oracle, s: State, step: nat)
    requires c.policy.intentFamily && Sound(s)
    ensures var n := EnsureCapacity(c, o, s, step).0.criticalEvictions;
      n >= s.criticalEvictions && (n == s.criticalEvictions <==> EnforcesUncounted(c, s, step))
  {
    hide EnsureCapacity, Ahead, Used, BlocksOk;
    UncountedAtCapacityExactly(c, o, s, step);
    CriticalEvictionsBounds(c, o, s, step);
  }

  lemma AllocationCounts(c: Config, o: Oracle, s: State, step: nat, i: MemoryIntent)
    requires c.policy.intentFamily && Sound(s) && BlockOk(i)
    ensures var n := OnAllocated(c, o, s, step, i).0.criticalEvictions;
      n >= s.criticalEvictions && (n == s.criticalEvictions <==> HandlesUncounted(c, s, Allocated, step, i))
  {
    hide EnsureCapacity, EnforcesUncounted;
    AdmitKeeps(s, i);
    if i.currentTier == HBM {
      EnforcementCounts(c, o, Admit(s, i), step);
    }
  }

  lemma MoveCounts(c: Config, o: Oracle, s: State, block: MemoryIntent, step: nat)
    requires c.policy.intentFamily && Sound(s) && BlockOk(block)
    ensures var n := MoveToHbm(c, o, s, block, step).0.criticalEvictions;
      n >= s.criticalEvictions && (n == s.criticalEvictions <==> EnforcesUncounted(c, Seat(s, block), step))
  {
    hide EnsureCapacity, EnforcesUncounted;
    FileKeeps(s.live, block.(currentTier := HBM));
    EnforcementCounts(c, o, Seat(s, block), step);
  }

  lemma AccessCounts(c: Config, o: Oracle, s: State, step: nat, i: MemoryIntent)
    requires c.policy.intentFamily && Sound(s) && BlockOk(i)
    ensures OnAccessed(c, o, s, step, i).Ok?
    ensures var n := OnAccessed(c, o, s, step, i).value.0.criticalEvictions;
      n >= s.criticalEvictions && (n == s.criticalEvictions <==> HandlesUncounted(c, s, Accessed, step, i))
  {
    hide MoveToHbm, AccessedBlock, BlockOk, EnforcesUncounted;
    var x := if i.objectId in s.live then s.live[i.objectId] else i;
    AccessedBlockOk(x, i, step);
    var block := AccessedBlock(x, i, step).value;
    FileKeeps(s.live, block);
    MoveCounts(c, o, Missed(s, block), block, step);
  }

  lemma PrefetchCounts(c: Config, o: Oracle, s: State, step: nat, i: MemoryIntent)
    requires c.policy.intentFamily && Sound(s) && BlockOk(i)
    ensures OnPrefetched(c, o, s, step, i).Ok?
    ensures var n := OnPrefetched(c, o, s, step, i).value.0.criticalEvictions;
      n >= s.criticalEvictions && (n == s.criticalEvictions <==> HandlesUncounted(c, s, Prefetched, step, i))
  {
    hide MoveToHbm, PrefetchedBlock, BlockOk, EnforcesUncounted;
    if i.objectId in s.live && i.objectId !in s.hbm {
      PrefetchedBlockOk(s.live[i.objectId], i);
      var block := PrefetchedBlock(s.live[i.objectId], i).value;
      FileKeeps(s.live, block);
      MoveCounts(c, o, Fetched(s, block), block, step);
    }
  }

  /** One event on a supported trace: the count never falls, and stays exactly on the condition above. */
  lemma HandleCountsExactly(c: Config, o: Oracle, s: State, kind: EventType, step: nat, i: MemoryIntent)
    requires c.policy.intentFamily && Sound(s) && BlockOk(i)
    requires Handle(c, o, s, kind, step, i).Ok?
    ensures var n := Handle(c, o, s, kind, step, i).value.0.criticalEvictions;
      n >= s.criticalEvictions && (n == s.criticalEvictions <==> HandlesUncounted(c, s, kind, step, i))
  {
    hide OnAllocated, OnAccessed, OnPrefetched, BlockOk, Sound, EnforcesUncounted;
    match kind
    case Allocated => AllocationCounts(c, o, s, step, i);
    case Accessed => AccessCounts(c, o, s, step, i);
    case Prefetched => PrefetchCounts(c, o, s, step, i);
    case _ =>
  }

  /** Along the run no event counts a decode-critical eviction. */
  ghost predicate NeverCounts(c: Config, o: Oracle, s: State, events: seq<Event>)
    decreases |events|
  {
    events == [] ||
    (var e := events[0];
     && (Incoming(s, e).Ok? ==> HandlesUncounted(c, s, e.kind, e.step, Incoming(s, e).value))
     && (Step(c, o, s, e).Ok? ==> NeverCounts(c, o, Step(c, o, s, e).value, events[1..])))
  }

  /** Over every run of a supported trace, at every capacity, the intent family counts no decode-critical eviction if
      and only if at each enforcement along it no DECODE resident is exposed or the memory fits once the blocks ahead
      have left, and no EVICTED names a decode-critical block. */
  lemma {:induction false} RunUncountedExactly(c: Config, o: Oracle, s: State, events: seq<Event>)
    requires c.policy.intentFamily && Sound(s) && SupportedTrace(events)
    ensures Run(c, o, s, events).Ok?
    ensures var n := Run(c, o, s, events).value.criticalEvictions;
      n >= s.criticalEvictions && (n == s.criticalEvictions <==> NeverCounts(c, o, s, events))
    decreases |events|
  {
    if events != [] {
      hide Step, Handle, Incoming, Decay, Supported, BlockOk, Sound, HandlesUncounted;
      var e := events[0];
      assert Supported(e);
      var i, s1, added, s2 := StepUnfolds(c, o, s, e);
      HandleCountsExactly(c, o, s, e.kind, e.step, i);
      StepKeeps(c, o, s, e);
      RunUncountedExactly(c, o, Step(c, o, s, e).value, events[1..]);
    }
  }
}
