/** The whole outcome of a run is independent of the order in which Python iterates its sets, whenever every
    block has at most one tier to fall back to; with two it is not. */
module OrderIndependence {
  import opened Prelude
  import opened Schema
  import opened Policies
  import opened Simulation
  import Residency
  import TierErrors
  import opened TierRules

  /** No two tiers other than HBM are allowed. */
  predicate AtMostOneFallback(tiers: set<Tier>) {
    var others := tiers - {HBM};
    others == {} || others == {DRAM} || others == {CXL} || others == {NVME}
  }

  lemma FallbackAgrees(o1: Oracle, o2: Oracle, n: nat, b: MemoryIntent)
    requires AtMostOneFallback(b.allowedTiers)
    ensures Fallback(o1, n, b) == Fallback(o2, n, b)
  {
    var others := b.allowedTiers - {HBM};
    assert forall t :: t in b.allowedTiers && t != HBM ==> t in others;
  }

  lemma TwoFallbacks(tiers: set<Tier>) returns (a: Tier, b: Tier)
    requires !AtMostOneFallback(tiers)
    ensures a in tiers && b in tiers && a != HBM && b != HBM && a != b
  {
    var others := tiers - {HBM};
    a :| a in others;
    var rest := others - {a};
    assert rest != {} by {
      assert others == rest + {a};
      assert a == DRAM || a == CXL || a == NVME;
    }
    b :| b in rest;
  }

  function AlwaysTier(t: Tier): Oracle {
    Oracle((n: nat, ids: set<string>) => [], (n: nat, tiers: set<Tier>) => t)
  }

  lemma AlwaysFalls(t: Tier, n: nat, b: MemoryIntent)
    requires t in b.allowedTiers && t != HBM
    ensures Fallback(AlwaysTier(t), n, b) == Some(t)
  {
  }

  lemma DisplacedTo(c: Config, o: Oracle, s: State, step: nat, v: MemoryIntent)
    requires Fallback(o, |s.log|, v).Some?
    ensures v.objectId in Evict(c, o, s, step, v).live
    ensures Evict(c, o, s, step, v).live[v.objectId].currentTier == Fallback(o, |s.log|, v).value
  {
    hide Used, Candidates, AvoidedCritical, Fallback;
  }

  lemma CandidatesAgree(o1: Oracle, o2: Oracle, s: State)
    ensures Members(Candidates(o1, s)) == Members(Candidates(o2, s))
    ensures DistinctIds(Members(Candidates(o1, s)))
    ensures forall b :: b in Candidates(o1, s) <==> b in Candidates(o2, s)
  {
    CandidateMembers(o1, s);
    CandidateMembers(o2, s);
  }

  lemma VictimAgrees(c: Config, o1: Oracle, o2: Oracle, s: State, step: nat)
    ensures var v := ChooseVictim(c.policy, Candidates(o1, s), step);
      && v == ChooseVictim(c.policy, Candidates(o2, s), step)
      && (v.Some? ==> v.value.objectId in s.hbm && v.value.objectId in s.live && v.value == s.live[v.value.objectId])
  {
    CandidatesAgree(o1, o2, s);
    VictimIgnoresOrder(c.policy, Candidates(o1, s), Candidates(o2, s), step);
    VictimIsBestEligible(c.policy, Candidates(o1, s), step);
    CandidateMembers(o1, s);
  }

  lemma EvictAgrees(c: Config, o1: Oracle, o2: Oracle, s: State, step: nat, v: MemoryIntent)
    requires AtMostOneFallback(v.allowedTiers)
    ensures Evict(c, o1, s, step, v) == Evict(c, o2, s, step, v)
    ensures SpillsToDram(c, o1, s, v) == SpillsToDram(c, o2, s, v)
  {
    FallbackAgrees(o1, o2, |s.log|, v);
    CandidatesAgree(o1, o2, s);
    assert AvoidedCritical(v, Candidates(o1, s)) == AvoidedCritical(v, Candidates(o2, s));
  }

  lemma EvictObeys(c: Config, o: Oracle, s: State, step: nat, v: MemoryIntent)
    requires Obeys(s.live, AtMostOneFallback) && AtMostOneFallback(v.allowedTiers)
    ensures Obeys(Evict(c, o, s, step, v).live, AtMostOneFallback)
    ensures Evict(c, o, s, step, v).hbm == s.hbm - {v.objectId}
  {
    var tier, toDram, entry := Residency.EvictDisplaces(c, o, s, step, v);
    hide Evict, AtMostOneFallback;
    FileObeys(s.live, v.(currentTier := tier), AtMostOneFallback);
  }

  lemma {:induction false} EnsureCapacityAgrees(c: Config, o1: Oracle, o2: Oracle, s: State, step: nat)
    requires Obeys(s.live, AtMostOneFallback)
    ensures EnsureCapacity(c, o1, s, step) == EnsureCapacity(c, o2, s, step)
    decreases |s.hbm|
  {
    hide ChooseVictim, Evict, Candidates, SpillsToDram, Used, AtMostOneFallback;
    if Used(s.live, s.hbm) <= c.hbmCapacity || Stuck(c, s) {
    } else {
      VictimAgrees(c, o1, o2, s, step);
      match ChooseVictim(c.policy, Candidates(o1, s), step) {
        case None =>
        case Some(v) =>
          EvictAgrees(c, o1, o2, s, step, v);
          EvictObeys(c, o1, s, step, v);
          EnsureCapacityAgrees(c, o1, o2, Evict(c, o1, s, step, v), step);
      }
    }
  }

  lemma MoveAgrees(c: Config, o1: Oracle, o2: Oracle, s: State, b: MemoryIntent, step: nat)
    requires Obeys(s.live, AtMostOneFallback) && AtMostOneFallback(b.allowedTiers)
    ensures MoveToHbm(c, o1, s, b, step) == MoveToHbm(c, o2, s, b, step)
  {
    hide EnsureCapacity, AtMostOneFallback;
    FileObeys(s.live, b.(currentTier := HBM), AtMostOneFallback);
    EnsureCapacityAgrees(c, o1, o2, Seat(s, b), step);
  }

  lemma AllocatedAgrees(c: Config, o1: Oracle, o2: Oracle, s: State, step: nat, i: MemoryIntent)
    requires Obeys(s.live, AtMostOneFallback) && AtMostOneFallback(i.allowedTiers)
    ensures OnAllocated(c, o1, s, step, i) == OnAllocated(c, o2, s, step, i)
  {
    hide EnsureCapacity, AtMostOneFallback;
    FileObeys(s.live, i, AtMostOneFallback);
    EnsureCapacityAgrees(c, o1, o2, Admit(s, i), step);
  }

  ghost predicate Same(r1: Result<(State, int)>, r2: Result<(State, int)>) {
    r1 == r2
  }

  lemma MissAgrees(c: Config, o1: Oracle, o2: Oracle, s: State, b: MemoryIntent, step: nat)
    requires Obeys(s.live, AtMostOneFallback) && AtMostOneFallback(b.allowedTiers)
    ensures MoveToHbm(c, o1, Missed(s, b), b, step) == MoveToHbm(c, o2, Missed(s, b), b, step)
  {
    hide AtMostOneFallback;
    FileObeys(s.live, b, AtMostOneFallback);
    MoveAgrees(c, o1, o2, Missed(s, b), b, step);
  }

  lemma AccessedAgrees(c: Config, o1: Oracle, o2: Oracle, s: State, step: nat, i: MemoryIntent)
    requires Obeys(s.live, AtMostOneFallback) && AtMostOneFallback(i.allowedTiers)
    ensures Same(OnAccessed(c, o1, s, step, i), OnAccessed(c, o2, s, step, i))
  {
    hide AccessedBlock, MoveToHbm, AtMostOneFallback;
    var x := if i.objectId in s.live then s.live[i.objectId] else i;
    var r := AccessedBlock(x, i, step);
    if r.Ok? {
      AccessedTiers(x, i, step);
      MissAgrees(c, o1, o2, s, r.value, step);
    }
  }

  lemma FetchAgrees(c: Config, o1: Oracle, o2: Oracle, s: State, step: nat, b: MemoryIntent)
    requires Obeys(s.live, AtMostOneFallback) && AtMostOneFallback(b.allowedTiers)
    ensures Fetch(c, o1, s, step, b) == Fetch(c, o2, s, step, b)
  {
    hide MoveToHbm, AtMostOneFallback;
    FileObeys(s.live, b, AtMostOneFallback);
    MoveAgrees(c, o1, o2, Fetched(s, b), b, step);
  }

  lemma PrefetchedAgrees(c: Config, o1: Oracle, o2: Oracle, s: State, step: nat, i: MemoryIntent)
    requires Obeys(s.live, AtMostOneFallback) && AtMostOneFallback(i.allowedTiers)
    ensures Same(OnPrefetched(c, o1, s, step, i), OnPrefetched(c, o2, s, step, i))
  {
    hide PrefetchedBlock, Fetch, AtMostOneFallback;
    if i.objectId in s.live && i.objectId !in s.hbm {
      var r := PrefetchedBlock(s.live[i.objectId], i);
      if r.Ok? {
        PrefetchedTiers(s.live[i.objectId], i);
        FetchAgrees(c, o1, o2, s, step, r.value);
      }
    }
  }

  lemma HandleAgrees(c: Config, o1: Oracle, o2: Oracle, s: State, kind: EventType, step: nat, i: MemoryIntent)
    requires Obeys(s.live, AtMostOneFallback) && AtMostOneFallback(i.allowedTiers)
    ensures Same(Handle(c, o1, s, kind, step, i), Handle(c, o2, s, kind, step, i))
  {
    hide OnAllocated, OnAccessed, OnPrefetched, AtMostOneFallback;
    AllocatedAgrees(c, o1, o2, s, step, i);
    AccessedAgrees(c, o1, o2, s, step, i);
    PrefetchedAgrees(c, o1, o2, s, step, i);
  }

  lemma StepAgrees(c: Config, o1: Oracle, o2: Oracle, s: State, e: Event)
    requires Obeys(s.live, AtMostOneFallback) && AtMostOneFallback(e.intent.allowedTiers)
    ensures Step(c, o1, s, e) == Step(c, o2, s, e)
  {
    if Incoming(s, e).Ok? {
      IncomingObeys(s, e, AtMostOneFallback);
      var i := Incoming(s, e).value;
      HandleAgrees(c, o1, o2, s, e.kind, e.step, i);
      hide Incoming, Handle, Settle, AtMostOneFallback;
    }
  }

  /** Any two orders of iteration give the same result: same blocks, residency, counters, latencies and log,
      or the same validation error. */
  lemma {:induction false} RunIgnoresOrder(c: Config, o1: Oracle, o2: Oracle, s: State, events: seq<Event>)
    requires Obeys(s.live, AtMostOneFallback) && forall e | e in events :: AtMostOneFallback(e.intent.allowedTiers)
    ensures Run(c, o1, s, events) == Run(c, o2, s, events)
    decreases |events|
  {
    hide Step, AtMostOneFallback;
    if events != [] {
      StepAgrees(c, o1, o2, s, events[0]);
      var r := Step(c, o1, s, events[0]);
      if r.Ok? {
        StepObeys(c, o1, s, events[0], AtMostOneFallback);
        RunIgnoresOrder(c, o1, o2, r.value, events[1..]);
      }
    }
  }

  /** One displacement is the same for all iteration orders if and only if the block has at most one fallback. */
  lemma EvictIgnoresOrderExactly(c: Config, s: State, step: nat, v: MemoryIntent)
    ensures (forall o1: Oracle, o2: Oracle :: Evict(c, o1, s, step, v) == Evict(c, o2, s, step, v))
       <==> AtMostOneFallback(v.allowedTiers)
  {
    hide Evict, AtMostOneFallback, Fallback;
    if AtMostOneFallback(v.allowedTiers) {
      forall o1: Oracle, o2: Oracle ensures Evict(c, o1, s, step, v) == Evict(c, o2, s, step, v) {
        EvictAgrees(c, o1, o2, s, step, v);
      }
    } else {
      var a, b := TwoFallbacks(v.allowedTiers);
      AlwaysFalls(a, |s.log|, v);
      AlwaysFalls(b, |s.log|, v);
      DisplacedTo(c, AlwaysTier(a), s, step, v);
      DisplacedTo(c, AlwaysTier(b), s, step, v);
    }
  }

  /** The state before capacity is restored for a lone HBM allocation, and the one after. */
  lemma LoneAllocationRuns(c: Config, o: Oracle, e: Event) returns (i: MemoryIntent, s: State)
    requires Construct(e.intent).Ok? && e.kind == Allocated && e.intent.currentTier == HBM
    ensures Construct(e.intent) == Ok(i) && Valid(i) && i.currentTier == HBM && i.allowedTiers == e.intent.allowedTiers
    ensures s == Admit(Initial(), i) && TierErrors.Alone(s, i)
    ensures var r := EnsureCapacity(c, o, s, e.step);
      Run(c, o, Initial(), [e]) == Settle(c, RecordUsage(r.0), r.1, e.step)
  {
    ConstructYieldsValid(e.intent);
    i, s := Construct(e.intent).value, Admit(Initial(), Construct(e.intent).value);
    assert s.live == map[i.objectId := i] && s.hbm == {i.objectId};
    assert [e][1..] == [];
    hide EnsureCapacity, Settle, Construct;
    assert Incoming(Initial(), e) == Ok(i);
    TierErrors.HandledAllocation(c, o, e.step, i);
    hide Handle;
    var r := EnsureCapacity(c, o, s, e.step);
    assert OnAllocated(c, o, Initial(), e.step, i) == (RecordUsage(r.0), r.1);
  }

  /** A lone block that stays is left alone in the same way by all orders. */
  lemma LoneStayAgrees(c: Config, o1: Oracle, o2: Oracle, s: State, step: nat, b: MemoryIntent)
    requires TierErrors.Alone(s, b) && !TierErrors.Leaves(c, b)
    ensures EnsureCapacity(c, o1, s, step) == EnsureCapacity(c, o2, s, step)
  {
    hide Used, Stuck, Candidates, ChooseVictim, Evict, TierErrors.Alone;
    TierErrors.LoneChoice(c, o1, s, step, b);
  }

  /** A lone block that leaves is found, after the step, in the tier its oracle picks. */
  lemma LoneLeaverTier(c: Config, o: Oracle, e: Event, t: Tier)
    requires Construct(e.intent).Ok? && e.kind == Allocated && e.intent.currentTier == HBM
    requires TierErrors.Leaves(c, Construct(e.intent).value)
    requires Fallback(o, 0, Construct(e.intent).value) == Some(t)
    ensures var r := Run(c, o, Initial(), [e]);
      && r.Ok? && e.intent.objectId in r.value.live && r.value.live[e.intent.objectId].currentTier == t
  {
    hide Construct, Fallback, Evict, EnsureCapacity, Decay, Run, TierErrors.Leaves, TierErrors.MoveSafe;
    var i, s := LoneAllocationRuns(c, o, e);
    ConstructId(e.intent);
    TierErrors.LoneEnforcement(c, o, s, e.step, i);
    DisplacedTo(c, o, s, e.step, i);
    TierErrors.LoneEventRaisesExactly(c, o, e);
    SafeWithFallback(c, e, i, o, t);
    DecayKeepsTiers(RecordUsage(EnsureCapacity(c, o, s, e.step).0), e.step);
  }

  lemma SafeWithFallback(c: Config, e: Event, i: MemoryIntent, o: Oracle, t: Tier)
    requires Construct(e.intent) == Ok(i) && TierErrors.Leaves(c, i) && Fallback(o, 0, i) == Some(t)
    ensures TierErrors.LoneEventSafe(c, e)
  {
    hide Construct;
    assert t in i.allowedTiers && t != HBM;
  }

  lemma DecayKeepsTiers(s: State, step: nat)
    ensures var r := Decay(s, step); r.Ok? ==>
      r.value.live.Keys == s.live.Keys && forall k | k in s.live :: r.value.live[k].currentTier == s.live[k].currentTier
  {
  }

  /** One HBM allocation from the empty simulator has the same outcome for all iteration orders if and only if the
      block stays, or has at most one fallback. */
  lemma LoneRunIgnoresOrderExactly(c: Config, e: Event)
    requires Construct(e.intent).Ok? && e.kind == Allocated && e.intent.currentTier == HBM
    ensures (forall o1: Oracle, o2: Oracle :: Run(c, o1, Initial(), [e]) == Run(c, o2, Initial(), [e]))
       <==> (TierErrors.Leaves(c, Construct(e.intent).value) ==> AtMostOneFallback(e.intent.allowedTiers))
  {
    hide Run, EnsureCapacity, Settle, AtMostOneFallback, Construct, Fallback, TierErrors.Leaves;
    var b := Construct(e.intent).value;
    if !TierErrors.Leaves(c, b) {
      forall o1: Oracle, o2: Oracle ensures Run(c, o1, Initial(), [e]) == Run(c, o2, Initial(), [e]) {
        var i, s := LoneAllocationRuns(c, o1, e);
        var _, _ := LoneAllocationRuns(c, o2, e);
        LoneStayAgrees(c, o1, o2, s, e.step, i);
      }
    } else if AtMostOneFallback(e.intent.allowedTiers) {
      forall o1: Oracle, o2: Oracle ensures Run(c, o1, Initial(), [e]) == Run(c, o2, Initial(), [e]) {
        RunIgnoresOrder(c, o1, o2, Initial(), [e]);
      }
    } else {
      var i, _ := LoneAllocationRuns(c, AlwaysTier(DRAM), e);
      var t1, t2 := TwoFallbacks(e.intent.allowedTiers);
      AlwaysFalls(t1, 0, i);
      AlwaysFalls(t2, 0, i);
      LoneLeaverTier(c, AlwaysTier(t1), e, t1);
      LoneLeaverTier(c, AlwaysTier(t2), e, t2);
    }
  }
}
