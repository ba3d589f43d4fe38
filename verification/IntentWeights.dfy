/** How much each declared property of a block weighs in the intent family's eviction scores (schema.py,
    policies.py): what changing one field, and nothing else, does to the whole score. */
module IntentWeights {
  import opened Prelude
  import opened Schema
  import opened Policies

  /** `y` exceeds `x` by an amount between the bounds. */
  predicate Gains(x: real, y: real, low: real, high: real) {
    low <= y - x <= high
  }

  /** What is missing from `d` to the limit, if anything. */
  function Short(d: int, limit: int): real {
    if d < limit then (limit - d) as real else 0.0
  }

  function Capped(d: int, limit: int): real {
    if d < limit then d as real else limit as real
  }

  /** What one field adds to the risk of evicting a block. */
  lemma RiskOfFlags(b: MemoryIntent, step: int)
    ensures EvictionRisk(b.(pinRequested := true), step) == EvictionRisk(b.(pinRequested := false), step) + 400.0
    ensures EvictionRisk(b.(recomputeOk := false), step) == EvictionRisk(b.(recomputeOk := true), step) + 25.0
    ensures EvictionRisk(b.(compressionOk := false), step) == EvictionRisk(b.(compressionOk := true), step) + 15.0
    ensures EvictionRisk(b.(isCommitted := true), step) ==
      EvictionRisk(b.(isCommitted := false), step) + if b.isDraft then 50.0 else 15.0
  {
    hide PriorityProtection, PhaseProtection, PhaseRelease, Below, UpTo, DecodeDistance;
  }

  lemma RiskOfClass(b: MemoryIntent, step: int)
    ensures EvictionRisk(b.(priority := DecodeCritical), step) == EvictionRisk(b.(priority := Hot), step) + 220.0
    ensures EvictionRisk(b.(priority := Hot), step) == EvictionRisk(b.(priority := Warm), step) + 50.0
    ensures EvictionRisk(b.(priority := Warm), step) == EvictionRisk(b.(priority := Cold), step) + 30.0
  {
    hide PhaseProtection, PhaseRelease, Below, UpTo, When, DecodeDistance;
  }

  lemma RiskOfNumbers(b: MemoryIntent, step: int)
    ensures EvictionRisk(b.(requestPriority := b.requestPriority + 1), step) == EvictionRisk(b, step) + 2.0
    ensures EvictionRisk(b.(recency := 1.0), step) == EvictionRisk(b.(recency := 0.0), step) + 40.0
  {
    hide PriorityProtection, PhaseProtection, PhaseRelease, Below, UpTo, When, DecodeDistance;
  }

  lemma RiskOfPhase(b: MemoryIntent, step: int)
    ensures EvictionRisk(b.(phase := Decode), step) == EvictionRisk(b.(phase := Verify), step) + 90.0
    ensures EvictionRisk(b.(phase := Verify), step) == EvictionRisk(b.(phase := Prefill), step) + 30.0
    ensures EvictionRisk(b.(phase := Rollback), step) == EvictionRisk(b.(phase := Prefill), step)
    ensures EvictionRisk(b.(phase := Prefill), step) == EvictionRisk(b.(phase := Idle), step) + 60.0
    ensures EvictionRisk(b.(phase := Idle), step) == EvictionRisk(b.(phase := Done), step) + 80.0
  {
    hide EvictionRisk;
    PhaseAlone(b, step, Decode, Verify);
    PhaseAlone(b, step, Verify, Prefill);
    PhaseAlone(b, step, Rollback, Prefill);
    PhaseAlone(b, step, Prefill, Idle);
    PhaseAlone(b, step, Idle, Done);
  }

  lemma PhaseAlone(b: MemoryIntent, step: int, p: Phase, q: Phase)
    ensures EvictionRisk(b.(phase := p), step) - EvictionRisk(b.(phase := q), step) ==
      PhaseProtection(p) - PhaseRelease(p) - PhaseProtection(q) + PhaseRelease(q)
  {
    hide PhaseProtection, PhaseRelease, PriorityProtection, Below, UpTo, When, DecodeDistance;
  }

  /** A near deadline, little slack and an imminent decode step protect a block, up to a limit each. */
  lemma RiskOfDueTimes(b: MemoryIntent, step: int, d: int)
    requires d >= 0
    ensures EvictionRisk(b.(deadlineUs := Some(d)), step) ==
      EvictionRisk(b.(deadlineUs := None), step) + Short(d, 10000) / 20.0
    ensures EvictionRisk(b.(slackUs := Some(d)), step) ==
      EvictionRisk(b.(slackUs := None), step) + Short(d, 5000) / 10.0
    ensures EvictionRisk(b.(targetDecodeStep := Some(step + d)), step) ==
      EvictionRisk(b.(targetDecodeStep := None), step) + Short(d, 64)
    ensures EvictionRisk(b.(targetDecodeStep := Some(step - d)), step) ==
      EvictionRisk(b.(targetDecodeStep := None), step) + 64.0
  {
    hide PriorityProtection, PhaseProtection, PhaseRelease, UpTo, When;
  }

  /** So does a dear recovery; a distant next use does the opposite. */
  lemma RiskOfCosts(b: MemoryIntent, step: int, d: int)
    requires d >= 0
    ensures EvictionRisk(b.(recomputeCostUs := Some(d)), step) ==
      EvictionRisk(b.(recomputeCostUs := None), step) + Capped(d, 6250) / 25.0
    ensures EvictionRisk(b.(reuseWindow := Some(d)), step) ==
      EvictionRisk(b.(reuseWindow := None), step) - Capped(d, 640) / 8.0
  {
    hide PriorityProtection, PhaseProtection, PhaseRelease, Below, When, DecodeDistance;
  }

  /** More risk lowers a score by a fortieth of it, and below zero by less. */
  lemma RiskShare(x: real, y: real)
    ensures x <= y ==> 0.0 <= RMax(y, 0.0) / 40.0 - RMax(x, 0.0) / 40.0 <= (y - x) / 40.0
    ensures 0.0 <= x <= y ==> RMax(y, 0.0) / 40.0 - RMax(x, 0.0) / 40.0 == (y - x) / 40.0
  {
  }

  /** What one field is worth to IntentAware: a term of its own, and at most a fortieth of its part in the risk. */
  lemma IntentOfFlags(b: MemoryIntent, step: int)
    ensures Gains(IntentScore(b.(pinRequested := true), step), IntentScore(b.(pinRequested := false), step),
      900.0, 910.0)
    ensures Gains(IntentScore(b.(isCommitted := true), step), IntentScore(b.(isCommitted := false), step),
      if b.isDraft then 45.0 else 0.0, if b.isDraft then 46.25 else 0.375)
  {
    RiskOfFlags(b, step);
    RiskShare(EvictionRisk(b.(pinRequested := false), step), EvictionRisk(b.(pinRequested := true), step));
    RiskShare(EvictionRisk(b.(isCommitted := false), step), EvictionRisk(b.(isCommitted := true), step));
    hide EvictionRisk, RMax, RMin, PriorityWeight, PhaseWeight, AgeWeight, UpTo;
  }

  lemma IntentOfChoices(b: MemoryIntent, step: int)
    ensures Gains(IntentScore(b.(recomputeOk := false), step), IntentScore(b.(recomputeOk := true), step),
      30.0, 30.625)
    ensures Gains(IntentScore(b.(compressionOk := false), step), IntentScore(b.(compressionOk := true), step),
      20.0, 20.375)
  {
    RiskOfFlags(b, step);
    RiskShare(EvictionRisk(b.(recomputeOk := true), step), EvictionRisk(b.(recomputeOk := false), step));
    RiskShare(EvictionRisk(b.(compressionOk := true), step), EvictionRisk(b.(compressionOk := false), step));
    hide EvictionRisk, RMax, RMin, PriorityWeight, PhaseWeight, AgeWeight, UpTo;
  }

  lemma IntentOfClass(b: MemoryIntent, step: int)
    ensures Gains(IntentScore(b.(priority := DecodeCritical), step), IntentScore(b.(priority := Hot), step),
      915.0, 920.5)
    ensures Gains(IntentScore(b.(priority := Hot), step), IntentScore(b.(priority := Warm), step), 40.0, 41.25)
    ensures Gains(IntentScore(b.(priority := Warm), step), IntentScore(b.(priority := Cold), step), 55.0, 55.75)
  {
    RiskOfClass(b, step);
    RiskShare(EvictionRisk(b.(priority := Hot), step), EvictionRisk(b.(priority := DecodeCritical), step));
    RiskShare(EvictionRisk(b.(priority := Warm), step), EvictionRisk(b.(priority := Hot), step));
    RiskShare(EvictionRisk(b.(priority := Cold), step), EvictionRisk(b.(priority := Warm), step));
    hide EvictionRisk, RMax, RMin, PhaseWeight, AgeWeight, UpTo, When;
  }

  lemma IntentOfNumbers(b: MemoryIntent, step: int)
    ensures Gains(IntentScore(b.(requestPriority := b.requestPriority + 1), step), IntentScore(b, step), 1.0, 1.05)
    ensures Gains(IntentScore(b.(recency := 1.0), step), IntentScore(b.(recency := 0.0), step), 60.0, 61.0)
  {
    RiskOfNumbers(b, step);
    RiskShare(EvictionRisk(b, step), EvictionRisk(b.(requestPriority := b.requestPriority + 1), step));
    RiskShare(EvictionRisk(b.(recency := 0.0), step), EvictionRisk(b.(recency := 1.0), step));
    hide EvictionRisk, RMax, RMin, PriorityWeight, PhaseWeight, AgeWeight, UpTo, When;
  }

  lemma IntentOfPhase(b: MemoryIntent, step: int)
    ensures Gains(IntentScore(b.(phase := Decode), step), IntentScore(b.(phase := Verify), step), 0.0, 2.25)
    ensures Gains(IntentScore(b.(phase := Verify), step), IntentScore(b.(phase := Prefill), step), 0.0, 0.75)
    ensures IntentScore(b.(phase := Rollback), step) == IntentScore(b.(phase := Prefill), step)
    ensures Gains(IntentScore(b.(phase := Prefill), step), IntentScore(b.(phase := Idle), step), 50.0, 51.5)
    ensures Gains(IntentScore(b.(phase := Idle), step), IntentScore(b.(phase := Done), step), 70.0, 72.0)
  {
    RiskOfPhase(b, step);
    RiskShare(EvictionRisk(b.(phase := Verify), step), EvictionRisk(b.(phase := Decode), step));
    RiskShare(EvictionRisk(b.(phase := Prefill), step), EvictionRisk(b.(phase := Verify), step));
    RiskShare(EvictionRisk(b.(phase := Idle), step), EvictionRisk(b.(phase := Prefill), step));
    RiskShare(EvictionRisk(b.(phase := Done), step), EvictionRisk(b.(phase := Idle), step));
    hide EvictionRisk, RMax, RMin, PriorityWeight, AgeWeight, UpTo, When;
  }

  lemma IntentOfDueTimes(b: MemoryIntent, step: int, d: int)
    requires d >= 0
    ensures Gains(IntentScore(b.(deadlineUs := Some(d)), step), IntentScore(b.(deadlineUs := None), step),
      0.0, Short(d, 10000) / 800.0)
    ensures Gains(IntentScore(b.(slackUs := Some(d)), step), IntentScore(b.(slackUs := None), step),
      0.0, Short(d, 5000) / 400.0)
    ensures Gains(IntentScore(b.(targetDecodeStep := Some(step + d)), step),
      IntentScore(b.(targetDecodeStep := None), step), 0.0, Short(d, 64) / 40.0)
    ensures EvictionRisk(b.(deadlineUs := None), step) >= 0.0 ==>
      IntentScore(b.(deadlineUs := Some(d)), step) ==
      IntentScore(b.(deadlineUs := None), step) - Short(d, 10000) / 800.0
  {
    hide EvictionRisk, RMax, RMin, PriorityWeight, PhaseWeight, AgeWeight, UpTo, When;
    RiskOfDueTimes(b, step, d);
    RiskShare(EvictionRisk(b.(deadlineUs := None), step), EvictionRisk(b.(deadlineUs := Some(d)), step));
    RiskShare(EvictionRisk(b.(slackUs := None), step), EvictionRisk(b.(slackUs := Some(d)), step));
    RiskShare(EvictionRisk(b.(targetDecodeStep := None), step),
              EvictionRisk(b.(targetDecodeStep := Some(step + d)), step));
  }

  lemma IntentOfCosts(b: MemoryIntent, step: int, d: int)
    requires d >= 0
    ensures Gains(IntentScore(b.(recomputeCostUs := Some(d)), step), IntentScore(b.(recomputeCostUs := None), step),
      Capped(d, 7200) / 40.0, Capped(d, 7200) / 40.0 + Capped(d, 6250) / 1000.0)
    ensures Gains(IntentScore(b.(reuseWindow := None), step), IntentScore(b.(reuseWindow := Some(d)), step),
      Capped(d, 720) / 6.0, Capped(d, 720) / 6.0 + Capped(d, 640) / 320.0)
  {
    hide EvictionRisk, RMax, PriorityWeight, PhaseWeight, AgeWeight, When;
    RiskOfCosts(b, step, d);
    RiskShare(EvictionRisk(b.(recomputeCostUs := None), step), EvictionRisk(b.(recomputeCostUs := Some(d)), step));
    RiskShare(EvictionRisk(b.(reuseWindow := Some(d)), step), EvictionRisk(b.(reuseWindow := None), step));
  }

  /** Age counts a quarter of a point a step, up to 35; an access in the future counts as none. */
  lemma ScoresOfAge(b: MemoryIntent, step: int, d: int)
    requires d >= 0
    ensures IntentScore(b.(lastAccessStep := step - d), step) ==
      IntentScore(b.(lastAccessStep := step), step) + Capped(d, 140) / 4.0
    ensures IntentScore(b.(lastAccessStep := step + d), step) == IntentScore(b.(lastAccessStep := step), step)
    ensures DeadlineAwareScore(b.(lastAccessStep := step - d), step) ==
      DeadlineAwareScore(b.(lastAccessStep := step), step) + Capped(d, 140) / 4.0
  {
    RiskIgnoresAccess(b, step, step - d);
    RiskIgnoresAccess(b, step, step);
    RiskIgnoresAccess(b, step, step + d);
    hide EvictionRisk, RMax, PriorityWeight, PhaseWeight, UpTo, When, DeadlineGuard, SlackGuard, DearRecovery;
  }

  lemma RiskIgnoresAccess(b: MemoryIntent, step: int, access: int)
    ensures EvictionRisk(b.(lastAccessStep := access), step) == EvictionRisk(b, step)
  {
    hide PriorityProtection, PhaseProtection, PhaseRelease, Below, UpTo, When, DecodeDistance;
  }

  /** DeadlineAware adds terms of its own to those of IntentAware, and an eighteenth of the part in the risk. */
  lemma DeadlineOfFlags(b: MemoryIntent, step: int)
    ensures Gains(DeadlineAwareScore(b.(pinRequested := true), step),
      DeadlineAwareScore(b.(pinRequested := false), step), 900.0 + 400.0 / 18.0, 910.0 + 400.0 / 18.0)
    ensures Gains(DeadlineAwareScore(b.(recomputeOk := false), step), DeadlineAwareScore(b.(recomputeOk := true), step),
      30.0 + 25.0 / 18.0, 30.625 + 25.0 / 18.0)
    ensures Gains(DeadlineAwareScore(b.(compressionOk := false), step),
      DeadlineAwareScore(b.(compressionOk := true), step), 20.0 + 15.0 / 18.0, 20.375 + 15.0 / 18.0)
  {
    RiskOfFlags(b, step);
    IntentOfFlags(b, step);
    IntentOfChoices(b, step);
    hide EvictionRisk, IntentScore, DeadlineGuard, SlackGuard, DearRecovery, When;
  }

  lemma DeadlineOfClass(b: MemoryIntent, step: int)
    ensures Gains(DeadlineAwareScore(b.(priority := DecodeCritical), step),
      DeadlineAwareScore(b.(priority := Hot), step), 1315.0 + 220.0 / 18.0, 1320.5 + 220.0 / 18.0)
    ensures Gains(DeadlineAwareScore(b.(priority := Hot), step), DeadlineAwareScore(b.(priority := Warm), step),
      40.0 + 50.0 / 18.0, 41.25 + 50.0 / 18.0)
    ensures var bonus := (if b.deadlineUs.None? then 35.0 else 0.0) + 30.0 / 18.0;
      Gains(DeadlineAwareScore(b.(priority := Warm), step), DeadlineAwareScore(b.(priority := Cold), step),
      55.0 + bonus, 55.75 + bonus)
    ensures var jump := (if b.requestPriority == 79 then 90.0 else 0.0) + 2.0 / 18.0;
      Gains(DeadlineAwareScore(b.(requestPriority := b.requestPriority + 1), step), DeadlineAwareScore(b, step),
      1.0 + jump, 1.05 + jump)
    ensures Gains(DeadlineAwareScore(b.(recency := 1.0), step), DeadlineAwareScore(b.(recency := 0.0), step),
      60.0 + 40.0 / 18.0, 61.0 + 40.0 / 18.0)
  {
    RiskOfClass(b, step);
    RiskOfNumbers(b, step);
    IntentOfClass(b, step);
    IntentOfNumbers(b, step);
    hide EvictionRisk, IntentScore, DeadlineGuard, SlackGuard, DearRecovery;
  }

  lemma DeadlineOfPhase(b: MemoryIntent, step: int)
    ensures Gains(DeadlineAwareScore(b.(phase := Decode), step), DeadlineAwareScore(b.(phase := Verify), step),
      110.0 + 90.0 / 18.0, 112.25 + 90.0 / 18.0)
    ensures Gains(DeadlineAwareScore(b.(phase := Verify), step), DeadlineAwareScore(b.(phase := Prefill), step),
      30.0 / 18.0, 0.75 + 30.0 / 18.0)
    ensures Gains(DeadlineAwareScore(b.(phase := Prefill), step), DeadlineAwareScore(b.(phase := Idle), step),
      50.0 + 60.0 / 18.0, 51.5 + 60.0 / 18.0)
    ensures Gains(DeadlineAwareScore(b.(phase := Idle), step), DeadlineAwareScore(b.(phase := Done), step),
      110.0 + 80.0 / 18.0, 112.0 + 80.0 / 18.0)
  {
    RiskOfPhase(b, step);
    IntentOfPhase(b, step);
    hide EvictionRisk, IntentScore, DeadlineGuard, SlackGuard, DearRecovery;
  }

  /** A deadline and a slack protect in three steps each, and a dear recovery in two. */
  lemma DeadlineOfTimes(b: MemoryIntent, step: int, d: int)
    requires d >= 0
    ensures var own := (if d <= 1000 then 320.0 else if d <= 5000 then 140.0 else 25.0) + Short(d, 10000) / 360.0
               + if b.priority == Cold then 35.0 else 0.0;
      Gains(DeadlineAwareScore(b.(deadlineUs := Some(d)), step), DeadlineAwareScore(b.(deadlineUs := None), step),
      own, own + Short(d, 10000) / 800.0)
    ensures var own := (if d <= 500 then 260.0 else if d <= 2000 then 120.0 else 0.0) + Short(d, 5000) / 180.0;
      Gains(DeadlineAwareScore(b.(slackUs := Some(d)), step), DeadlineAwareScore(b.(slackUs := None), step),
      own, own + Short(d, 5000) / 400.0)
  {
    RiskOfDueTimes(b, step, d);
    IntentOfDueTimes(b, step, d);
    hide EvictionRisk, IntentScore, Short, Capped, DearRecovery;
  }

  lemma DeadlineOfCosts(b: MemoryIntent, step: int, d: int)
    requires d >= 0
    ensures var own := (if d >= 4000 then 80.0 else 0.0) + Capped(d, 7200) / 40.0 + Capped(d, 6250) / 450.0;
      Gains(DeadlineAwareScore(b.(recomputeCostUs := Some(d)), step),
      DeadlineAwareScore(b.(recomputeCostUs := None), step), own, own + Capped(d, 6250) / 1000.0)
  {
    RiskOfCosts(b, step, d);
    IntentOfCosts(b, step, d);
    hide EvictionRisk, IntentScore, Short, Capped, DeadlineGuard, SlackGuard;
  }

  /** What DeadlineAware fetches back: nothing that is in HBM or may not be prefetched, and nothing unimportant. */
  lemma PrefetchNeeds(b: MemoryIntent, step: int)
    requires DeadlineAware().wantsPrefetch(b, step)
    ensures b.prefetchOk && b.currentTier != HBM
    ensures b.phase == Decode || b.priority == Hot || b.priority == DecodeCritical
  {
    assert DeadlineAware().wantsPrefetch(b, step) == DeadlinePrefetch(b, step);
  }

  /** An important block is fetched back exactly when its deadline, its slack or its next use is near enough. */
  lemma PrefetchWhenDue(b: MemoryIntent, step: int)
    requires b.prefetchOk && b.currentTier != HBM
    requires b.phase == Decode || b.priority == Hot || b.priority == DecodeCritical
    ensures DeadlineAware().wantsPrefetch(b, step) <==>
      !(&& (b.deadlineUs.Some? ==> b.deadlineUs.value > 5000)
        && (b.slackUs.Some? ==> b.slackUs.value > 2000)
        && (b.reuseWindow.Some? ==> b.reuseWindow.value > 8))
  {
    assert DeadlineAware().wantsPrefetch(b, step) == DeadlinePrefetch(b, step);
  }

  /** No other policy fetches anything back. */
  lemma OthersNeverPrefetch(p: Policy, b: MemoryIntent, step: int)
    requires p == Lru() || p == HotCold() || p == PredictiveHotness() || p == IntentAware()
    ensures !p.wantsPrefetch(b, step)
  {
    assert p.wantsPrefetch(b, step) == NeverPrefetch(b, step);
  }
}
