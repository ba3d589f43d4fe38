/** Why a trace must give every block somewhere to fall back to: exactly when a displacement makes the run raise. */
module TierErrors {
  import opened Prelude
  import opened Schema
  import opened Policies
  import opened Simulation
  import opened Residency

  /** Everything the constructor checks except that the current tier is allowed. */
  predicate ValidButTier(b: MemoryIntent) {
    b.allowedTiers != {} && Valid(b.(currentTier := FirstAllowed(b.allowedTiers)))
  }

  function FirstAllowed(tiers: set<Tier>): (t: Tier)
    requires tiers != {}
    ensures t in tiers
  {
    if HBM in tiers then HBM else if DRAM in tiers then DRAM else if CXL in tiers then CXL else
      assert NVME in tiers by {
        var t :| t in tiers;
        assert t == NVME;
      }
      NVME
  }

  lemma CoolsExactly(b: MemoryIntent)
    requires ValidButTier(b)
    ensures Construct(Cooled(b)).Ok? <==> b.currentTier in b.allowedTiers
  {
  }

  /** The next decay raises exactly when some live block sits in a tier it does not allow. */
  lemma DecayRaisesExactly(s: State, step: nat)
    requires step != s.lastDecay && forall k | k in s.live :: ValidButTier(s.live[k])
    ensures Decay(s, step).Ok? <==> forall k | k in s.live :: s.live[k].currentTier in s.live[k].allowedTiers
  {
    forall k | k in s.live
      ensures Construct(Cooled(s.live[k])).Ok? <==> s.live[k].currentTier in s.live[k].allowedTiers
    {
      CoolsExactly(s.live[k]);
    }
    hide Construct, Cooled, ValidButTier;
  }

  /** A displaced block is left in a tier it allows exactly when it allows one besides HBM. */
  lemma DisplacedTierExactly(c: Config, o: Oracle, s: State, step: nat, v: MemoryIntent)
    ensures v.objectId in Evict(c, o, s, step, v).live
    ensures var b := Evict(c, o, s, step, v).live[v.objectId];
      && b == v.(currentTier := b.currentTier)
      && (b.currentTier in b.allowedTiers <==> !(v.allowedTiers <= {HBM}))
  {
    hide Used, Candidates, AvoidedCritical;
  }

  lemma EvictKeepsOthers(c: Config, o: Oracle, s: State, step: nat, v: MemoryIntent)
    ensures Evict(c, o, s, step, v).live.Keys == s.live.Keys + {v.objectId}
    ensures Evict(c, o, s, step, v).lastDecay == s.lastDecay && Evict(c, o, s, step, v).hbm == s.hbm - {v.objectId}
  {
    hide Used, Candidates, AvoidedCritical, Fallback;
  }

  /** `b` is the only live block and resides in HBM. */
  predicate Alone(s: State, b: MemoryIntent) {
    s.live == map[b.objectId := b] && s.hbm == {b.objectId}
  }

  /** Alone in HBM, the block does not fit and nothing protects it. */
  predicate Leaves(c: Config, b: MemoryIntent) {
    b.sizeBytes > c.hbmCapacity && !(c.policy.intentFamily && b.pinRequested)
  }

  /** The tiers the block allows cover where a move to HBM leaves it. */
  predicate MoveSafe(c: Config, b: MemoryIntent) {
    if Leaves(c, b) then !(b.allowedTiers <= {HBM}) else HBM in b.allowedTiers
  }

  /** With nothing resident the loop changes no block, whatever the capacity. */
  lemma NothingResident(c: Config, o: Oracle, s: State, step: nat)
    requires s.hbm == {}
    ensures EnsureCapacity(c, o, s, step).0.live == s.live
    ensures EnsureCapacity(c, o, s, step).0.lastDecay == s.lastDecay
  {
    CandidateMembers(o, s);
    VictimIsBestEligible(c.policy, Candidates(o, s), step);
    hide Candidates, ChooseVictim;
    HeadIn(Candidates(o, s));
  }

  lemma HeadIn(blocks: seq<MemoryIntent>)
    ensures blocks != [] ==> blocks[0] in blocks
  {
  }

  lemma LoneChoice(c: Config, o: Oracle, s: State, step: nat, b: MemoryIntent)
    requires Alone(s, b)
    ensures Used(s.live, s.hbm) == b.sizeBytes && (Stuck(c, s) <==> c.policy.intentFamily && b.pinRequested)
    ensures ChooseVictim(c.policy, Candidates(o, s), step) == Some(b)
  {
    UsedSplit(s.live, s.hbm, b.objectId);
    assert s.hbm - {b.objectId} == {};
    CandidateMembers(o, s);
    VictimIsBestEligible(c.policy, Candidates(o, s), step);
  }

  lemma LoneEnforcement(c: Config, o: Oracle, s: State, step: nat, b: MemoryIntent)
    requires Alone(s, b)
    ensures var s' := EnsureCapacity(c, o, s, step).0;
      s'.lastDecay == s.lastDecay && s'.live == if Leaves(c, b) then Evict(c, o, s, step, b).live else s.live
  {
    hide Evict, Candidates, ChooseVictim, Used, Stuck, Alone;
    LoneChoice(c, o, s, step, b);
    if Leaves(c, b) {
      EvictKeepsOthers(c, o, s, step, b);
      assert s.hbm - {b.objectId} == {} by {
        LoneResident(s, b);
      }
      NothingResident(c, o, Evict(c, o, s, step, b), step);
    }
  }

  lemma LoneResident(s: State, b: MemoryIntent)
    requires Alone(s, b)
    ensures s.hbm - {b.objectId} == {} && s.live.Keys == {b.objectId} && s.live[b.objectId] == b
  {
  }

  /** After a lone block is seated in HBM, the next decay raises exactly if the seat is not safe. */
  lemma LoneDecay(c: Config, o: Oracle, s: State, step: nat, b: MemoryIntent)
    requires Alone(s, b) && b.currentTier == HBM && ValidButTier(b) && step != s.lastDecay
    ensures Decay(EnsureCapacity(c, o, s, step).0, step).Ok? <==> MoveSafe(c, b)
  {
    hide EnsureCapacity, Evict, Decay, Alone;
    var s' := EnsureCapacity(c, o, s, step).0;
    LoneEnforcement(c, o, s, step, b);
    LoneResident(s, b);
    DisplacedTierExactly(c, o, s, step, b);
    EvictKeepsOthers(c, o, s, step, b);
    assert s'.live.Keys == {b.objectId};
    DecayRaisesExactly(s', step);
  }

  /** A decay looks at the live blocks and its last step only. */
  lemma SameDecay(s: State, s': State, step: nat)
    requires s.live == s'.live && s.lastDecay == s'.lastDecay
    ensures Decay(s, step).Ok? <==> Decay(s', step).Ok?
  {
  }

  lemma MoveDecays(c: Config, o: Oracle, s: State, step: nat, b: MemoryIntent)
    requires s.live.Keys <= {b.objectId} && s.hbm == {} && Valid(b) && step != s.lastDecay
    ensures Decay(MoveToHbm(c, o, s, b, step).0, step).Ok? <==> MoveSafe(c, b)
  {
    hide EnsureCapacity, Decay;
    LoneDecay(c, o, Seat(s, b), step, b.(currentTier := HBM));
    SameDecay(EnsureCapacity(c, o, Seat(s, b), step).0, MoveToHbm(c, o, s, b, step).0, step);
  }

  /** When one event on an empty simulator raises nothing, in a given configuration. */
  predicate LoneEventSafe(c: Config, e: Event) {
    && Construct(e.intent).Ok?
    && (e.kind == Accessed || (e.kind == Allocated && e.intent.currentTier == HBM) ==>
          MoveSafe(c, Construct(e.intent).value))
  }

  lemma LoneAllocationDecays(c: Config, o: Oracle, step: nat, i: MemoryIntent)
    requires Valid(i)
    ensures Decay(OnAllocated(c, o, Initial(), step, i).0, step).Ok? <==>
      (i.currentTier == HBM ==> MoveSafe(c, i))
  {
    hide EnsureCapacity, Decay;
    var s, s' := Admit(Initial(), i), OnAllocated(c, o, Initial(), step, i).0;
    if i.currentTier == HBM {
      LoneDecay(c, o, s, step, i);
      SameDecay(EnsureCapacity(c, o, s, step).0, s', step);
    } else {
      assert s'.live == map[i.objectId := i];
      DecayRaisesExactly(s', step);
    }
  }

  lemma LoneAccessDecays(c: Config, o: Oracle, step: nat, i: MemoryIntent)
    requires Valid(i)
    ensures var r := OnAccessed(c, o, Initial(), step, i);
      r.Ok? && (Decay(r.value.0, step).Ok? <==> MoveSafe(c, i))
  {
    hide MoveToHbm, Decay;
    LoneAccessBlock(i, step);
    var b := AccessedBlock(i, i, step).value;
    MoveDecays(c, o, Missed(Initial(), b), step, b);
  }

  lemma LoneAccessBlock(i: MemoryIntent, step: nat)
    requires Valid(i)
    ensures var r := AccessedBlock(i, i, step);
      && r.Ok? && Valid(r.value) && r.value.objectId == i.objectId && r.value.sizeBytes == i.sizeBytes
      && r.value.allowedTiers == i.allowedTiers && r.value.pinRequested == i.pinRequested
  {
  }

  /** The other kinds file at most one valid block, in its own tier, on an empty simulator. */
  lemma LoneOtherDecays(c: Config, o: Oracle, kind: EventType, step: nat, i: MemoryIntent)
    requires Valid(i) && kind != Allocated && kind != Accessed
    ensures var r := Handle(c, o, Initial(), kind, step, i);
      r.Ok? && Decay(r.value.0, step).Ok?
  {
    hide Decay, OnAllocated, OnAccessed, MoveToHbm, Fetch;
    LoneMark(i);
    var s' := Handle(c, o, Initial(), kind, step, i).value.0;
    assert forall k | k in s'.live :: Valid(s'.live[k]);
    hide Handle;
    DecayRaisesExactly(s', step);
  }

  lemma LoneMark(i: MemoryIntent)
    requires Valid(i)
    ensures var r := OnMarkedDecodeCritical(Initial(), i);
      && r.Ok? && r.value.lastDecay == -1 && forall k | k in r.value.live :: Valid(r.value.live[k])
  {
    ConstructYieldsValid(i.(priority := DecodeCritical, pinRequested := true));
  }

  /** One event of any kind on an empty simulator, in any configuration: it raises exactly when its intent is not
      constructible, or it puts a block in HBM that does not allow the tier it ends in. */
  lemma LoneEventRaisesExactly(c: Config, o: Oracle, e: Event)
    ensures Run(c, o, Initial(), [e]).Ok? <==> LoneEventSafe(c, e)
  {
    hide EnsureCapacity, Construct, Decay, Valid, ValidButTier, Handle, MoveSafe;
    assert [e][1..] == [];
    if Construct(e.intent).Ok? {
      ConstructYieldsValid(e.intent);
      ConstructId(e.intent);
      var i := Construct(e.intent).value;
      assert Incoming(Initial(), e) == Ok(i);
      if e.kind == Allocated {
        LoneAllocationDecays(c, o, e.step, i);
        HandledAllocation(c, o, e.step, i);
      } else if e.kind == Accessed {
        LoneAccessDecays(c, o, e.step, i);
        HandledAccess(c, o, e.step, i);
      } else {
        LoneOtherDecays(c, o, e.kind, e.step, i);
      }
    }
  }

  lemma HandledAllocation(c: Config, o: Oracle, step: nat, i: MemoryIntent)
    ensures Handle(c, o, Initial(), Allocated, step, i) == Ok(OnAllocated(c, o, Initial(), step, i))
  {
    hide OnAllocated;
  }

  lemma HandledAccess(c: Config, o: Oracle, step: nat, i: MemoryIntent)
    ensures Handle(c, o, Initial(), Accessed, step, i) == OnAccessed(c, o, Initial(), step, i)
  {
    hide OnAccessed;
  }

  /** What the code demands of a lone event if no configuration is to raise: an accessed block must allow HBM and
      somewhere to fall back to, and so must one allocated in HBM. */
  predicate LoneEventSupported(e: Event) {
    && Construct(e.intent).Ok?
    && (e.kind == Accessed || (e.kind == Allocated && e.intent.currentTier == HBM) ==>
          HBM in e.intent.allowedTiers && !(e.intent.allowedTiers <= {HBM}))
  }

  /** Both halves of the restriction on tiers are needed, for every event. */
  lemma LoneEventSafeEverywhere(e: Event)
    ensures (forall c: Config, o: Oracle | c.hbmCapacity >= 0 :: Run(c, o, Initial(), [e]).Ok?)
       <==> LoneEventSupported(e)
  {
    hide Run;
    if LoneEventSupported(e) {
      forall c: Config, o: Oracle | c.hbmCapacity >= 0 ensures Run(c, o, Initial(), [e]).Ok? {
        LoneEventRaisesExactly(c, o, e);
      }
    } else {
      var o := Oracle((n: nat, ids: set<string>) => [], (n: nat, tiers: set<Tier>) => HBM);
      var roomy := Config(Lru(), if e.intent.sizeBytes > 0 then e.intent.sizeBytes else 0, 0, 0, 0, 0, 0);
      var tight := Config(Lru(), 0, 0, 0, 0, 0, 0);
      LoneEventRaisesExactly(roomy, o, e);
      LoneEventRaisesExactly(tight, o, e);
    }
  }

  /** In particular an HBM allocation that does not fit and is not protected needs a tier besides HBM. */
  lemma SingleAllocationRaisesExactly(c: Config, o: Oracle, e: Event)
    requires Construct(e.intent).Ok? && e.kind == Allocated && e.intent.currentTier == HBM
    requires e.intent.sizeBytes > c.hbmCapacity
    requires c.policy.intentFamily ==> !e.intent.pinRequested && e.intent.priority != DecodeCritical
    ensures Run(c, o, Initial(), [e]).Ok? <==> !(e.intent.allowedTiers <= {HBM})
  {
    hide Run;
    LoneEventRaisesExactly(c, o, e);
  }

  /** The same exact condition for a prefetch the policy wants, of a lone block outside HBM, at a step of its own. */
  lemma LonePrefetchRaisesExactly(c: Config, o: Oracle, s: State, e: Event, x: MemoryIntent)
    requires s.live == map[x.objectId := x] && s.hbm == {}
    requires e.kind == Prefetched && e.intent.objectId == x.objectId && e.step != s.lastDecay
    requires Construct(e.intent).Ok? && c.policy.wantsPrefetch(Construct(e.intent).value, e.step)
    ensures Step(c, o, s, e).Ok? <==> MoveSafe(c, Construct(e.intent).value)
  {
    hide Fetch, Construct, Decay, Valid, MoveSafe;
    ConstructYieldsValid(e.intent);
    ConstructId(e.intent);
    var i := Construct(e.intent).value;
    assert i.(objectId := x.objectId) == i;
    assert Incoming(s, e) == Ok(i) && PrefetchedBlock(s.live[x.objectId], i) == Ok(i);
    hide Merge, LogPrefetch, Fetched;
    FetchDecays(c, o, s, e.step, i);
  }

  lemma FetchDecays(c: Config, o: Oracle, s: State, step: nat, b: MemoryIntent)
    requires s.live.Keys <= {b.objectId} && s.hbm == {} && Valid(b) && step != s.lastDecay
    requires c.policy.wantsPrefetch(b, step)
    ensures Decay(Fetch(c, o, s, step, b).0, step).Ok? <==> MoveSafe(c, b)
  {
    hide MoveToHbm, Decay, Valid, MoveSafe;
    var moved := MoveToHbm(c, o, Fetched(s, b), b, step).0;
    MoveDecays(c, o, Fetched(s, b), step, b);
    SameDecay(moved, LogPrefetch(moved, step, b), step);
  }
}
