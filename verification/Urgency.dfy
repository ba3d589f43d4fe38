/** What the deadline policy's score protects: one kind of block always goes before another, and making blocks
    more urgent never makes them victims. */
module Urgency {
  import opened Prelude
  import opened Schema
  import opened Policies
  import opened Simulation
  import Residency

  /** Costs and windows are durations and counts. */
  predicate Sane(b: MemoryIntent) {
    && Valid(b)
    && (b.recomputeCostUs.Some? ==> b.recomputeCostUs.value >= 0)
    && (b.reuseWindow.Some? ==> b.reuseWindow.value >= 0)
  }

  /** A finished request's cold block with no deadline. */
  predicate Spent(b: MemoryIntent) {
    Sane(b) && !b.pinRequested && b.priority == Cold && b.phase == Done && b.deadlineUs.None? && b.slackUs.None?
  }

  /** A block being decoded against a near deadline with little slack. */
  predicate Pressing(b: MemoryIntent) {
    && Sane(b) && !b.pinRequested && b.phase == Decode
    && b.deadlineUs.Some? && b.deadlineUs.value <= 1000
    && b.slackUs.Some? && b.slackUs.value <= 2000
  }

  lemma SpentRisk(b: MemoryIntent, step: int)
    requires Spent(b)
    ensures EvictionRisk(b, step) <= 429.0
  {
    var p := b.requestPriority as real;
    assert p <= 100.0;
    assert DeadlineScore(b, step) <= 64.0 + 200.0 + 250.0;
  }

  lemma SpentScore(b: MemoryIntent, step: int)
    requires Spent(b)
    ensures DeadlineAwareScore(b, step) >= -139.6
  {
    SpentRisk(b, step);
    var risk := EvictionRisk(b, step);
    assert IntentScore(b, step) >=
      110.0 + 120.0 + (100 - b.requestPriority) as real - 180.0 - 60.0 - RMax(risk, 0.0) / 40.0;
    hide EvictionRisk, IntentScore;
    assert RMax(risk, 0.0) <= 429.0;
  }

  lemma PressingRisk(b: MemoryIntent, step: int)
    requires Pressing(b)
    ensures EvictionRisk(b, step) >=
      715.0 + (match b.priority case DecodeCritical => 300.0 case Hot => 80.0 case Warm => 30.0 case Cold => 0.0)
  {
    assert RMax(0.0, 10000.0 - b.deadlineUs.value as real) >= 9000.0;
    assert RMax(0.0, 5000.0 - b.slackUs.value as real) >= 3000.0;
    assert DeadlineScore(b, step) >= 450.0 + 300.0 + 120.0
      + (match b.priority case DecodeCritical => 300.0 case Hot => 80.0 case Warm => 30.0 case Cold => 0.0);
    hide DeadlineScore;
  }

  lemma PressingScore(b: MemoryIntent, step: int)
    requires Pressing(b)
    ensures DeadlineAwareScore(b, step) <= -147.5
  {
    PressingRisk(b, step);
    var risk := EvictionRisk(b, step);
    hide EvictionRisk;
    assert IntentScore(b, step) <= 110.0 + 100.0 + 120.0 + 30.0 + 20.0 + 45.0 + 35.0 - risk / 40.0;
    hide IntentScore;
  }

  /** Whatever their other fields, a spent block scores strictly above a pressing one. */
  lemma SpentOutscoresPressing(spent: MemoryIntent, pressing: MemoryIntent, step: int)
    requires Spent(spent) && Pressing(pressing)
    ensures DeadlineAwareScore(pressing, step) < DeadlineAwareScore(spent, step)
  {
    SpentScore(spent, step);
    PressingScore(pressing, step);
    hide DeadlineAwareScore;
  }

  lemma PressingIsNotChosen(blocks: seq<MemoryIntent>, spent: MemoryIntent, pressing: MemoryIntent, step: nat)
    requires spent in blocks && Spent(spent) && Pressing(pressing)
    ensures ChooseVictim(DeadlineAware(), blocks, step) != Some(pressing)
  {
    SpentOutscoresPressing(spent, pressing, step);
    VictimIsBestEligible(DeadlineAware(), blocks, step);
    assert Eligible(DeadlineAware(), Members(blocks), spent);
    hide DeadlineAwareScore, ChooseVictim;
    assert DeadlineAware().rank(spent, step) == DeadlineRank(spent, step);
    assert DeadlineAware().rank(pressing, step) == DeadlineRank(pressing, step);
    assert Preferred(DeadlineAware(), step, spent, pressing);
  }

  /** Under the deadline policy a pressing block never leaves HBM while a spent one stays. */
  lemma {:induction false} SpentLeavesFirst(
    c: Config, o: Oracle, s: State, step: nat, spent: string, pressing: string)
    requires c.policy == DeadlineAware()
    requires spent in s.hbm && spent in s.live && Spent(s.live[spent])
    requires pressing in s.hbm && pressing in s.live && Pressing(s.live[pressing])
    ensures var s' := EnsureCapacity(c, o, s, step).0; spent in s'.hbm ==> pressing in s'.hbm
    decreases |s.hbm|
  {
    hide ChooseVictim, Candidates, Spent, Pressing, Used, Stuck, DeadlineAware;
    if Used(s.live, s.hbm) <= c.hbmCapacity || Stuck(c, s) {
    } else {
      Residency.VictimIsResident(c, o, s, step);
      CandidateMembers(o, s);
      PressingIsNotChosen(Candidates(o, s), s.live[spent], s.live[pressing], step);
      match ChooseVictim(c.policy, Candidates(o, s), step) {
        case None =>
        case Some(v) =>
          var tier, toDram, entry := Residency.EvictDisplaces(c, o, s, step, v);
          var s1 := Evict(c, o, s, step, v);
          if v.objectId == spent {
            Residency.EnsureCapacityEnforces(c, o, s1, step);
          } else {
            SpentLeavesFirst(c, o, s1, step, spent, pressing);
          }
      }
    }
  }

  /** `b` is no later than `a`, with None as never. */
  predicate NoLater(a: Option<int>, b: Option<int>) {
    a.Some? ==> b.Some? && b.value <= a.value
  }

  /** `b` costs no less than `a`, with None as nothing. */
  predicate NoCheaper(a: Option<int>, b: Option<int>) {
    match a
    case None => b.Some? ==> b.value >= 0
    case Some(x) => b.Some? && b.value >= x
  }

  /** `b` is `a` made more urgent: a tighter deadline or slack, a higher request priority, a fresher access or a
      dearer recovery, everything else equal. */
  predicate MoreUrgent(a: MemoryIntent, b: MemoryIntent) {
    && NoLater(a.deadlineUs, b.deadlineUs)
    && NoLater(a.slackUs, b.slackUs)
    && a.requestPriority <= b.requestPriority
    && a.recency <= b.recency
    && NoCheaper(a.recomputeCostUs, b.recomputeCostUs)
    && b == a.(deadlineUs := b.deadlineUs, slackUs := b.slackUs, requestPriority := b.requestPriority,
               recency := b.recency, recomputeCostUs := b.recomputeCostUs)
  }

  lemma DeadlineTermGrows(a: MemoryIntent, b: MemoryIntent)
    requires MoreUrgent(a, b)
    ensures (if a.deadlineUs.Some? then RMax(0.0, 10000.0 - a.deadlineUs.value as real) / 20.0 else 0.0)
         <= (if b.deadlineUs.Some? then RMax(0.0, 10000.0 - b.deadlineUs.value as real) / 20.0 else 0.0)
    ensures (if a.slackUs.Some? then RMax(0.0, 5000.0 - a.slackUs.value as real) / 10.0 else 0.0)
         <= (if b.slackUs.Some? then RMax(0.0, 5000.0 - b.slackUs.value as real) / 10.0 else 0.0)
  {
  }

  lemma CostTermGrows(a: MemoryIntent, b: MemoryIntent)
    requires MoreUrgent(a, b)
    ensures (if a.recomputeCostUs.Some? then RMin(a.recomputeCostUs.value as real / 25.0, 250.0) else 0.0)
         <= (if b.recomputeCostUs.Some? then RMin(b.recomputeCostUs.value as real / 25.0, 250.0) else 0.0)
    ensures (if a.recomputeCostUs.Some? then RMin(a.recomputeCostUs.value as real / 40.0, 180.0) else 0.0)
         <= (if b.recomputeCostUs.Some? then RMin(b.recomputeCostUs.value as real / 40.0, 180.0) else 0.0)
  {
  }

  lemma DeadlineScoreGrows(a: MemoryIntent, b: MemoryIntent, step: int)
    requires MoreUrgent(a, b)
    ensures DeadlineScore(a, step) <= DeadlineScore(b, step)
  {
    hide RMax, RMin, NoLater, NoCheaper;
    DeadlineTermGrows(a, b);
    CostTermGrows(a, b);
  }

  lemma RiskGrows(a: MemoryIntent, b: MemoryIntent, step: int)
    requires MoreUrgent(a, b)
    ensures EvictionRisk(a, step) <= EvictionRisk(b, step)
  {
    hide DeadlineScore, RMax, RMin, NoLater, NoCheaper;
    DeadlineScoreGrows(a, b, step);
  }

  lemma IntentScoreFalls(a: MemoryIntent, b: MemoryIntent, step: int)
    requires MoreUrgent(a, b)
    ensures IntentScore(b, step) <= IntentScore(a, step)
  {
    hide EvictionRisk, RMin, NoLater, NoCheaper;
    RiskGrows(a, b, step);
    CostTermGrows(a, b);
    assert RMax(EvictionRisk(a, step), 0.0) <= RMax(EvictionRisk(b, step), 0.0);
  }

  lemma StepsGrow(a: MemoryIntent, b: MemoryIntent)
    requires MoreUrgent(a, b)
    ensures (match a.deadlineUs
             case None => 0.0
             case Some(d) => if d <= 1000 then 320.0 else if d <= 5000 then 140.0 else 25.0)
         <= (match b.deadlineUs
             case None => 0.0
             case Some(d) => if d <= 1000 then 320.0 else if d <= 5000 then 140.0 else 25.0)
    ensures (match a.slackUs
             case None => 0.0
             case Some(d) => if d <= 500 then 260.0 else if d <= 2000 then 120.0 else 0.0)
         <= (match b.slackUs
             case None => 0.0
             case Some(d) => if d <= 500 then 260.0 else if d <= 2000 then 120.0 else 0.0)
    ensures a.deadlineUs.Some? ==> b.deadlineUs.Some?
  {
  }

  /** The score is antitone in urgency. */
  lemma ScoreFalls(a: MemoryIntent, b: MemoryIntent, step: int)
    requires MoreUrgent(a, b)
    ensures DeadlineAwareScore(b, step) <= DeadlineAwareScore(a, step)
  {
    RiskGrows(a, b, step);
    IntentScoreFalls(a, b, step);
    StepsGrow(a, b);
    hide EvictionRisk, IntentScore, NoLater;
  }

  /** Making any of the blocks that were not chosen more urgent leaves the victim the same, under both policies of
      the intent family. */
  lemma VictimIsStable(p: Policy, blocks: seq<MemoryIntent>, blocks': seq<MemoryIntent>, step: nat)
    requires p == IntentAware() || p == DeadlineAware()
    requires |blocks'| == |blocks| && DistinctIds(Members(blocks))
    requires blocks != []
    requires var v := ChooseVictim(p, blocks, step);
      forall k | 0 <= k < |blocks| ::
        if Some(blocks[k]) == v then blocks'[k] == blocks[k] else MoreUrgent(blocks[k], blocks'[k])
    ensures ChooseVictim(p, blocks', step) == ChooseVictim(p, blocks, step)
  {
    hide ChooseVictim, DeadlineAwareScore, IntentScore, Preferred, Eligible, Schema.Valid;
    VictimIsBestEligible(p, blocks, step);
    VictimIsBestEligible(p, blocks', step);
    var v, w := ChooseVictim(p, blocks, step).value, ChooseVictim(p, blocks', step).value;
    var i :| 0 <= i < |blocks| && blocks[i] == v;
    var j :| 0 <= j < |blocks| && blocks'[j] == w;
    assert blocks'[i] in blocks' && blocks[j] in blocks;
    if j != i && blocks[j] != v {
      EligibleAlike(p, blocks, blocks', j);
      EligibleAlike(p, blocks, blocks', i);
      StillBehind(p, blocks[j], w, v, step);
      PreferredTotal(p, step, v, w);
    }
  }

  /** Urgency does not change what is pinned, so eligibility carries over. */
  lemma EligibleAlike(p: Policy, blocks: seq<MemoryIntent>, blocks': seq<MemoryIntent>, k: nat)
    requires |blocks'| == |blocks| && k < |blocks|
    requires forall k | 0 <= k < |blocks| :: blocks'[k].pinRequested == blocks[k].pinRequested
    ensures Eligible(p, Members(blocks), blocks[k]) <==> Eligible(p, Members(blocks'), blocks'[k])
  {
    assert forall k | 0 <= k < |blocks| :: blocks[k] in blocks && blocks'[k] in blocks';
  }

  /** A block that did not beat `v` does not beat it when more urgent. */
  lemma StillBehind(p: Policy, a: MemoryIntent, b: MemoryIntent, v: MemoryIntent, step: nat)
    requires p == IntentAware() || p == DeadlineAware()
    requires MoreUrgent(a, b) && !Preferred(p, step, a, v)
    ensures !Preferred(p, step, b, v)
  {
    ScoreFalls(a, b, step);
    IntentScoreFalls(a, b, step);
    hide DeadlineAwareScore, IntentScore;
    if p == IntentAware() {
      assert p.rank(a, step) == IntentRank(a, step) && p.rank(b, step) == IntentRank(b, step);
      assert p.rank(v, step) == IntentRank(v, step);
    } else {
      assert p.rank(a, step) == DeadlineRank(a, step) && p.rank(b, step) == DeadlineRank(b, step);
      assert p.rank(v, step) == DeadlineRank(v, step);
    }
  }
}
