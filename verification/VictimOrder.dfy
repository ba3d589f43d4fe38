/** Which block each access-based policy displaces, said in the blocks' own fields (policies.py). */
module VictimOrder {
  import opened Prelude
  import opened Schema
  import opened Policies
  import opened Simulation
  import opened Residency
  import opened Greedy

  datatype AccessPolicy = ByAccess | ByRecency | ByPrediction

  function PolicyOf(k: AccessPolicy): Policy {
    match k case ByAccess => Lru() case ByRecency => HotCold() case ByPrediction => PredictiveHotness()
  }

  /** Accessed longer ago; of blocks accessed at one step the largest, and of those the first by name. */
  predicate Staler(a: MemoryIntent, b: MemoryIntent) {
    || a.lastAccessStep < b.lastAccessStep
    || (a.lastAccessStep == b.lastAccessStep
        && (a.sizeBytes > b.sizeBytes || (a.sizeBytes == b.sizeBytes && StringLess(a.objectId, b.objectId))))
  }

  /** How many tokens short of 64 the block's next use is. */
  function Nearness(b: MemoryIntent): int {
    match b.reuseWindow case Some(w) => Max(0, 64 - w) case None => 0
  }

  /** Seven parts recency to three parts nearness, in units that clear the fractions. */
  function Heat(b: MemoryIntent): real {
    448.0 * b.recency + 3.0 * Nearness(b) as real
  }

  /** The order in which a policy gives blocks up. */
  predicate GoesFirst(k: AccessPolicy, a: MemoryIntent, b: MemoryIntent) {
    match k
    case ByAccess => Staler(a, b)
    case ByRecency => a.recency < b.recency || (a.recency == b.recency && Staler(a, b))
    case ByPrediction => Heat(a) < Heat(b) || (Heat(a) == Heat(b) && Staler(a, b))
  }

  lemma HeatIsHotness(b: MemoryIntent)
    ensures Heat(b) == 640.0 * PredictedHotness(b)
  {
  }

  lemma PreferredIsFirst(k: AccessPolicy, step: int, a: MemoryIntent, b: MemoryIntent)
    ensures Preferred(PolicyOf(k), step, a, b) <==> GoesFirst(k, a, b)
  {
    HeatIsHotness(a);
    HeatIsHotness(b);
    hide Heat, PredictedHotness, StringLess;
    var p := PolicyOf(k);
    match k
    case ByAccess => assert p.rank(a, step) == LruRank(a, step) && p.rank(b, step) == LruRank(b, step);
    case ByRecency => assert p.rank(a, step) == HotColdRank(a, step) && p.rank(b, step) == HotColdRank(b, step);
    case ByPrediction =>
      assert p.rank(a, step) == PredictiveRank(a, step) && p.rank(b, step) == PredictiveRank(b, step);
  }

  /** The victim is the one candidate that goes before all others. */
  lemma VictimGoesFirst(k: AccessPolicy, blocks: seq<MemoryIntent>, step: int)
    requires blocks != [] && DistinctIds(Members(blocks))
    ensures var v := ChooseVictim(PolicyOf(k), blocks, step);
      v.Some? && v.value in blocks && forall b | b in blocks && b != v.value :: GoesFirst(k, v.value, b)
  {
    VictimIsBestEligible(PolicyOf(k), blocks, step);
    hide ChooseVictim, Preferred, GoesFirst;
    var v := ChooseVictim(PolicyOf(k), blocks, step).value;
    forall b | b in blocks && b != v ensures GoesFirst(k, v, b) {
      assert Eligible(PolicyOf(k), Members(blocks), b);
      PreferredTotal(PolicyOf(k), step, v, b);
      PreferredIsFirst(k, step, v, b);
    }
  }

  /** HotCold takes a block of least recency. */
  lemma HotColdTakesColdest(blocks: seq<MemoryIntent>, step: int)
    requires blocks != [] && DistinctIds(Members(blocks))
    ensures ChooseVictim(HotCold(), blocks, step).Some?
    ensures forall b | b in blocks :: ChooseVictim(HotCold(), blocks, step).value.recency <= b.recency
  {
    VictimGoesFirst(ByRecency, blocks, step);
    hide ChooseVictim, Staler;
  }

  /** Whatever the sizes, restoring capacity displaces only residents that go before every one that stays. */
  lemma EnforcementTakesFirst(k: AccessPolicy, c: Config, o: Oracle, s: State, step: nat)
    requires c.policy == PolicyOf(k) && s.hbm <= s.live.Keys
    ensures var after := EnsureCapacity(c, o, s, step).0.hbm;
      && after <= s.hbm
      && forall v, x | v in s.hbm && v !in after && x in s.hbm && x in after :: GoesFirst(k, s.live[v], s.live[x])
  {
    EnforcementIsGreedy(c, o, s, step);
    hide EnsureCapacity, Preferred, GoesFirst, LastTaken;
    var after := EnsureCapacity(c, o, s, step).0.hbm;
    forall v, x | v in s.hbm && v !in after && x in after ensures GoesFirst(k, s.live[v], s.live[x]) {
      PreferredIsFirst(k, step, s.live[v], s.live[x]);
    }
  }

  /** Under HotCold no displaced resident is more recent than one that stays. */
  lemma HotColdKeepsHottest(c: Config, o: Oracle, s: State, step: nat)
    requires c.policy == HotCold() && s.hbm <= s.live.Keys
    ensures var after := EnsureCapacity(c, o, s, step).0.hbm;
      forall v, x | v in s.hbm && v !in after && x in s.hbm && x in after :: s.live[v].recency <= s.live[x].recency
  {
    EnforcementTakesFirst(ByRecency, c, o, s, step);
    hide EnsureCapacity, Staler;
  }

  /** `b` is `a` with more recency or a nearer next use, everything else equal. */
  predicate Warmer(a: MemoryIntent, b: MemoryIntent) {
    && a.recency <= b.recency
    && (a.reuseWindow.Some? ==> b.reuseWindow.Some? && b.reuseWindow.value <= a.reuseWindow.value)
    && b == a.(recency := b.recency, reuseWindow := b.reuseWindow)
  }

  lemma StillFirst(k: AccessPolicy, v: MemoryIntent, a: MemoryIntent, b: MemoryIntent)
    requires Warmer(a, b) && GoesFirst(k, v, a)
    ensures GoesFirst(k, v, b)
  {
    hide StringLess;
  }

  /** More recency or a shorter reuse window never makes a block the victim instead of another. */
  lemma WarmerIsNotChosen(k: AccessPolicy, blocks: seq<MemoryIntent>, blocks': seq<MemoryIntent>, step: nat)
    requires blocks != [] && |blocks'| == |blocks| && DistinctIds(Members(blocks))
    requires var v := ChooseVictim(PolicyOf(k), blocks, step);
      forall i | 0 <= i < |blocks| ::
        if Some(blocks[i]) == v then blocks'[i] == blocks[i] else Warmer(blocks[i], blocks'[i])
    ensures ChooseVictim(PolicyOf(k), blocks', step) == ChooseVictim(PolicyOf(k), blocks, step)
  {
    VictimGoesFirst(k, blocks, step);
    VictimIsBestEligible(PolicyOf(k), blocks', step);
    hide ChooseVictim, GoesFirst, Preferred, Warmer;
    var v, w := ChooseVictim(PolicyOf(k), blocks, step).value, ChooseVictim(PolicyOf(k), blocks', step).value;
    var i :| 0 <= i < |blocks| && blocks[i] == v;
    var j :| 0 <= j < |blocks| && blocks'[j] == w;
    assert blocks'[i] in blocks' && blocks[j] in blocks;
    if blocks[j] != v {
      StillFirst(k, v, blocks[j], w);
      PreferredIsFirst(k, step, v, w);
    }
  }

  datatype IntentPolicy = ByIntent | ByDeadline

  function IntentPolicyOf(k: IntentPolicy): Policy {
    match k case ByIntent => IntentAware() case ByDeadline => DeadlineAware()
  }

  function ScoreOf(k: IntentPolicy, b: MemoryIntent, step: int): real {
    match k case ByIntent => IntentScore(b, step) case ByDeadline => DeadlineAwareScore(b, step)
  }

  /** The intent family gives up the higher score first; of equal scores the larger block, and of those the last by
      name. */
  predicate ShedFirst(k: IntentPolicy, step: int, a: MemoryIntent, b: MemoryIntent) {
    var x, y := ScoreOf(k, a, step), ScoreOf(k, b, step);
    || x > y
    || (x == y && (a.sizeBytes > b.sizeBytes || (a.sizeBytes == b.sizeBytes && StringLess(b.objectId, a.objectId))))
  }

  lemma PreferredIsShed(k: IntentPolicy, step: int, a: MemoryIntent, b: MemoryIntent)
    ensures Preferred(IntentPolicyOf(k), step, a, b) <==> ShedFirst(k, step, a, b)
  {
    hide IntentScore, DeadlineAwareScore, StringLess;
    var p := IntentPolicyOf(k);
    match k
    case ByIntent => assert p.rank(a, step) == IntentRank(a, step) && p.rank(b, step) == IntentRank(b, step);
    case ByDeadline => assert p.rank(a, step) == DeadlineRank(a, step) && p.rank(b, step) == DeadlineRank(b, step);
  }

  /** The intent family's victim is pinned only if all candidates are, and goes before all others it may choose. */
  lemma VictimIsShedFirst(k: IntentPolicy, blocks: seq<MemoryIntent>, step: int)
    requires blocks != [] && DistinctIds(Members(blocks))
    ensures var r := ChooseVictim(IntentPolicyOf(k), blocks, step);
      && r.Some? && r.value in blocks && (r.value.pinRequested ==> forall b | b in blocks :: b.pinRequested)
      && forall b | b in blocks && b != r.value && (b.pinRequested ==> r.value.pinRequested) ::
           ShedFirst(k, step, r.value, b)
  {
    hide ChooseVictim, Preferred, ShedFirst;
    var p := IntentPolicyOf(k);
    VictimIsBestEligible(p, blocks, step);
    var v := ChooseVictim(p, blocks, step).value;
    forall b | b in blocks && b != v && (b.pinRequested ==> v.pinRequested) ensures ShedFirst(k, step, v, b) {
      assert Eligible(p, Members(blocks), b);
      PreferredTotal(p, step, v, b);
      PreferredIsShed(k, step, v, b);
    }
  }

  /** Restoring capacity takes no pinned resident, and only residents that go before every unpinned one that stays. */
  lemma EnforcementSheds(k: IntentPolicy, c: Config, o: Oracle, s: State, step: nat)
    requires c.policy == IntentPolicyOf(k) && s.hbm <= s.live.Keys
    ensures var after := EnsureCapacity(c, o, s, step).0.hbm;
      && after <= s.hbm
      && (forall v | v in s.hbm && v !in after :: !s.live[v].pinRequested)
      && forall v, x | v in s.hbm && v !in after && x in s.hbm && x in after && !s.live[x].pinRequested ::
           ShedFirst(k, step, s.live[v], s.live[x])
  {
    hide EnsureCapacity, Preferred, ShedFirst, LastTaken;
    EnforcementIsGreedy(c, o, s, step);
    var after := EnsureCapacity(c, o, s, step).0.hbm;
    forall v, x | v in s.hbm && v !in after && x in after && !s.live[x].pinRequested
      ensures ShedFirst(k, step, s.live[v], s.live[x])
    {
      PreferredIsShed(k, step, s.live[v], s.live[x]);
    }
  }
}
