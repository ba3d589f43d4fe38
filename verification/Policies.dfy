/** Placement policies and victim choice (policies.py). */
module Policies {
  import opened Prelude
  import opened Schema

  /** The leading components of a policy's sort key; the last component is always the object id. */
  datatype Rank = Rank(score: real, access: int, size: int)

  /** A placement policy. `intentFamily` marks IntentAwarePolicy and its subclasses, which take the
      maximum of their keys and skip pinned blocks; the others take the minimum over all blocks. */
  datatype Policy = Policy(
    intentFamily: bool,
    rank: (MemoryIntent, int) -> Rank,
    wantsPrefetch: (MemoryIntent, int) -> bool
  )

  function LruRank(b: MemoryIntent, step: int): Rank {
    Rank(0.0, b.lastAccessStep, -b.sizeBytes)
  }

  function HotColdRank(b: MemoryIntent, step: int): Rank {
    Rank(b.recency, b.lastAccessStep, -b.sizeBytes)
  }

  function PredictedHotness(b: MemoryIntent): real {
    b.recency * 0.7
    + (if b.reuseWindow.Some? then RMax(0.0, 64.0 - b.reuseWindow.value as real) / 64.0 else 0.0) * 0.3
  }

  function PredictiveRank(b: MemoryIntent, step: int): Rank {
    Rank(PredictedHotness(b), b.lastAccessStep, -b.sizeBytes)
  }

  function PriorityWeight(priority: Priority): real {
    match priority case Cold => 110.0 case Warm => 55.0 case Hot => 15.0 case DecodeCritical => -900.0
  }

  function PhaseWeight(phase: Phase): real {
    if phase == Done then 120.0 else if phase == Idle then 50.0 else 0.0
  }

  function AgeWeight(age: int): real {
    RMin(Max(age, 0) as real / 4.0, 35.0)
  }

  /** IntentAwarePolicy.eviction_score: higher means a better eviction candidate. */
  function IntentScore(b: MemoryIntent, step: int): real {
    PriorityWeight(b.priority)
    - When(b.pinRequested, 900.0)
    + PhaseWeight(b.phase)
    + (100 - b.requestPriority) as real
    + UpTo(b.reuseWindow, 6.0, 120.0)
    + When(b.recomputeOk, 30.0)
    + When(b.compressionOk, 20.0)
    + When(b.isDraft && !b.isCommitted, 45.0)
    - UpTo(b.recomputeCostUs, 40.0, 180.0)
    - b.recency * 60.0
    + AgeWeight(step - b.lastAccessStep)
    - RMax(EvictionRisk(b, step), 0.0) / 40.0
  }

  function DeadlineGuard(deadlineUs: Option<int>): real {
    match deadlineUs
    case None => 0.0
    case Some(d) => if d <= 1000 then 320.0 else if d <= 5000 then 140.0 else 25.0
  }

  function SlackGuard(slackUs: Option<int>): real {
    match slackUs
    case None => 0.0
    case Some(d) => if d <= 500 then 260.0 else if d <= 2000 then 120.0 else 0.0
  }

  predicate DearRecovery(costUs: Option<int>) {
    costUs.Some? && costUs.value >= 4000
  }

  /** DeadlineAwarePolicy.eviction_score. */
  function DeadlineAwareScore(b: MemoryIntent, step: int): real {
    IntentScore(b, step)
    - DeadlineGuard(b.deadlineUs)
    - SlackGuard(b.slackUs)
    - When(b.requestPriority >= 80, 90.0)
    - When(DearRecovery(b.recomputeCostUs), 80.0)
    - When(b.phase == Decode, 110.0)
    - When(b.priority == DecodeCritical, 400.0)
    - EvictionRisk(b, step) / 18.0
    + When(b.phase == Done, 40.0)
    + When(b.priority == Cold && b.deadlineUs.None?, 35.0)
  }

  function IntentRank(b: MemoryIntent, step: int): Rank {
    Rank(IntentScore(b, step), 0, b.sizeBytes)
  }

  function DeadlineRank(b: MemoryIntent, step: int): Rank {
    Rank(DeadlineAwareScore(b, step), 0, b.sizeBytes)
  }

  predicate NeverPrefetch(b: MemoryIntent, step: int) { false }

  predicate DeadlinePrefetch(b: MemoryIntent, step: int) {
    && b.prefetchOk
    && b.currentTier != HBM
    && (b.priority == Hot || b.priority == DecodeCritical || b.phase == Decode)
    && (|| (b.deadlineUs.Some? && b.deadlineUs.value <= 5000)
        || (b.slackUs.Some? && b.slackUs.value <= 2000)
        || (b.reuseWindow.Some? && b.reuseWindow.value <= 8))
  }

  function Lru(): Policy { Policy(false, LruRank, NeverPrefetch) }

  function HotCold(): Policy { Policy(false, HotColdRank, NeverPrefetch) }

  function PredictiveHotness(): Policy { Policy(false, PredictiveRank, NeverPrefetch) }

  function IntentAware(): Policy { Policy(true, IntentRank, NeverPrefetch) }

  /** Also the placement behaviour of SpeculativeIntentPolicy, which overrides none of it. */
  function DeadlineAware(): Policy { Policy(true, DeadlineRank, DeadlinePrefetch) }

  predicate RankLess(a: Rank, b: Rank) {
    || a.score < b.score
    || (a.score == b.score && (a.access < b.access || (a.access == b.access && a.size < b.size)))
  }

  /** Tuple order of (rank, object id). */
  predicate KeyLess(a: Rank, aId: string, b: Rank, bId: string) {
    RankLess(a, b) || (a == b && StringLess(aId, bId))
  }

  /** `x` is a strictly better victim than `y`. */
  predicate Preferred(p: Policy, step: int, x: MemoryIntent, y: MemoryIntent) {
    if p.intentFamily
    then KeyLess(p.rank(y, step), y.objectId, p.rank(x, step), x.objectId)
    else KeyLess(p.rank(x, step), x.objectId, p.rank(y, step), y.objectId)
  }

  /** Python's `min`/`max` over a non-empty list: the first extremal element. */
  function Extremal(p: Policy, step: int, blocks: seq<MemoryIntent>): MemoryIntent
    requires blocks != []
  {
    var last := |blocks| - 1;
    if last == 0 then blocks[0]
    else
      var best := Extremal(p, step, blocks[..last]);
      if Preferred(p, step, blocks[last], best) then blocks[last] else best
  }

  function Unpinned(blocks: seq<MemoryIntent>): seq<MemoryIntent> {
    if blocks == [] then []
    else Unpinned(blocks[..|blocks| - 1])
         + if blocks[|blocks| - 1].pinRequested then [] else [blocks[|blocks| - 1]]
  }

  function ChooseVictim(p: Policy, blocks: seq<MemoryIntent>, step: int): Option<MemoryIntent> {
    if blocks == [] then None
    else if p.intentFamily && Unpinned(blocks) != [] then Some(Extremal(p, step, Unpinned(blocks)))
    else Some(Extremal(p, step, blocks))
  }

  lemma PreferredTransitive(p: Policy, step: int, x: MemoryIntent, y: MemoryIntent, z: MemoryIntent)
    requires Preferred(p, step, x, y) && Preferred(p, step, y, z)
    ensures Preferred(p, step, x, z)
  {
    if StringLess(x.objectId, y.objectId) && StringLess(y.objectId, z.objectId) {
      StringLessTransitive(x.objectId, y.objectId, z.objectId);
    }
    if StringLess(z.objectId, y.objectId) && StringLess(y.objectId, x.objectId) {
      StringLessTransitive(z.objectId, y.objectId, x.objectId);
    }
  }

  /** The preference is a strict total order on blocks with distinct ids. */
  lemma PreferredTotal(p: Policy, step: int, x: MemoryIntent, y: MemoryIntent)
    ensures !Preferred(p, step, x, x)
    ensures x.objectId != y.objectId ==> Preferred(p, step, x, y) || Preferred(p, step, y, x)
    ensures !(Preferred(p, step, x, y) && Preferred(p, step, y, x))
  {
    StringLessTrichotomy(x.objectId, y.objectId);
    StringLessTrichotomy(x.objectId, x.objectId);
  }

  lemma {:induction false} ExtremalIsBest(p: Policy, step: int, blocks: seq<MemoryIntent>)
    requires blocks != []
    ensures Extremal(p, step, blocks) in blocks
    ensures forall b | b in blocks :: !Preferred(p, step, b, Extremal(p, step, blocks))
  {
    var last := |blocks| - 1;
    if last == 0 {
      PreferredTotal(p, step, blocks[0], blocks[0]);
    } else {
      var init := blocks[..last];
      ExtremalIsBest(p, step, init);
      var best, r := Extremal(p, step, init), Extremal(p, step, blocks);
      assert blocks == init + [blocks[last]];
      forall b | b in blocks ensures !Preferred(p, step, b, r) {
        PreferredTotal(p, step, blocks[last], blocks[last]);
        if r == blocks[last] && b in init && Preferred(p, step, b, r) && r != best {
          PreferredTransitive(p, step, b, r, best);
        }
      }
    }
  }

  lemma {:induction false} UnpinnedMembers(blocks: seq<MemoryIntent>, b: MemoryIntent)
    ensures b in Unpinned(blocks) <==> b in blocks && !b.pinRequested
  {
    if blocks != [] {
      var last := |blocks| - 1;
      UnpinnedMembers(blocks[..last], b);
      assert blocks == blocks[..last] + [blocks[last]];
    }
  }

  /** `v` may be chosen from `blocks`: the intent family spares pinned blocks while an unpinned one exists. */
  ghost predicate Eligible(p: Policy, blocks: set<MemoryIntent>, v: MemoryIntent) {
    v in blocks && (p.intentFamily && v.pinRequested ==> forall b | b in blocks :: b.pinRequested)
  }

  ghost function Members(blocks: seq<MemoryIntent>): (s: set<MemoryIntent>)
    ensures forall b :: b in s <==> b in blocks
  {
    set b | b in blocks
  }

  /** What victim choice means: nothing to choose only from no candidates; otherwise an eligible block that
      no eligible block beats. */
  lemma VictimIsBestEligible(p: Policy, blocks: seq<MemoryIntent>, step: int)
    ensures ChooseVictim(p, blocks, step).None? <==> blocks == []
    ensures blocks != [] ==>
      var v := ChooseVictim(p, blocks, step).value;
      && Eligible(p, Members(blocks), v)
      && forall b | Eligible(p, Members(blocks), b) :: !Preferred(p, step, b, v)
  {
    forall b ensures b in Unpinned(blocks) <==> b in blocks && !b.pinRequested {
      UnpinnedMembers(blocks, b);
    }
    if blocks != [] {
      if p.intentFamily && Unpinned(blocks) != [] {
        ExtremalIsBest(p, step, Unpinned(blocks));
        assert Unpinned(blocks)[0] in Unpinned(blocks);
      } else {
        ExtremalIsBest(p, step, blocks);
        assert p.intentFamily ==> forall b | b in blocks :: b in Unpinned(blocks) || b.pinRequested;
      }
    }
  }

  /** Ids identify the blocks of `blocks`. */
  ghost predicate DistinctIds(blocks: set<MemoryIntent>) {
    forall a, b | a in blocks && b in blocks && a.objectId == b.objectId :: a == b
  }

  /** The victim does not depend on the order in which the candidates are listed. */
  lemma VictimIgnoresOrder(p: Policy, xs: seq<MemoryIntent>, ys: seq<MemoryIntent>, step: int)
    requires Members(xs) == Members(ys) && DistinctIds(Members(xs))
    ensures ChooseVictim(p, xs, step) == ChooseVictim(p, ys, step)
  {
    VictimIsBestEligible(p, xs, step);
    VictimIsBestEligible(p, ys, step);
    assert xs != [] ==> xs[0] in Members(ys);
    assert ys != [] ==> ys[0] in Members(xs);
    if xs != [] {
      var v, w := ChooseVictim(p, xs, step).value, ChooseVictim(p, ys, step).value;
      PreferredTotal(p, step, v, w);
      assert Eligible(p, Members(xs), w) && Eligible(p, Members(xs), v);
    }
  }
}
