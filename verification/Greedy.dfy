/** What the eviction loop takes, under every policy and for blocks of any sizes (simulator.py): the displaced
    blocks come first in the policy's order, and no more of them than needed. */
module Greedy {
  import opened Prelude
  import opened Schema
  import opened Policies
  import opened Simulation
  import opened Residency

  /** The policy may displace the block while others like it are resident. */
  predicate Free(p: Policy, b: MemoryIntent) {
    p.intentFamily ==> !b.pinRequested
  }

  /** Every displaced resident is free and preferred to every free survivor. */
  ghost predicate TakesPreferred(c: Config, s: State, step: nat, after: set<string>) {
    && (forall v | v in s.hbm && v !in after && v in s.live :: Free(c.policy, s.live[v]))
    && (forall v, x | v in s.hbm && v !in after && v in s.live && x in after && x in s.live
                      && Free(c.policy, s.live[x]) ::
          Preferred(c.policy, step, s.live[v], s.live[x]))
  }

  /** `w` is the displaced resident the policy prefers least, and with it the rest would not fit. */
  ghost predicate LastTaken(c: Config, s: State, step: nat, after: set<string>, w: string) {
    && w in s.hbm && w in s.live && w !in after
    && (forall v | v in s.hbm && v in s.live && v !in after && v != w ::
          Preferred(c.policy, step, s.live[v], s.live[w]))
    && Used(s.live, after + {w}) > c.hbmCapacity
  }

  /** The loop took the most preferred free residents, and only as many as capacity asks for. */
  ghost predicate GreedyOutcome(c: Config, s: State, step: nat, after: set<string>) {
    && after <= s.hbm && TakesPreferred(c, s, step, after)
    && (after != s.hbm ==> exists w :: LastTaken(c, s, step, after, w))
  }

  /** The chosen victim is free, and preferred to every other free resident. */
  lemma VictimIsFree(c: Config, o: Oracle, s: State, step: nat, v: MemoryIntent)
    requires ChooseVictim(c.policy, Candidates(o, s), step) == Some(v) && !Stuck(c, s)
    ensures v.objectId in s.hbm && v.objectId in s.live && s.live[v.objectId] == v && Free(c.policy, v)
    ensures forall x | x in s.hbm && x in s.live && x != v.objectId && Free(c.policy, s.live[x]) ::
      Preferred(c.policy, step, v, s.live[x])
  {
    VictimIsBestEligible(c.policy, Candidates(o, s), step);
    CandidateMembers(o, s);
    forall x | x in s.hbm && x in s.live && x != v.objectId && Free(c.policy, s.live[x])
      ensures Preferred(c.policy, step, v, s.live[x])
    {
      assert Eligible(c.policy, Members(Candidates(o, s)), s.live[x]);
      PreferredTotal(c.policy, step, v, s.live[x]);
    }
    hide Preferred, ChooseVictim, Candidates;
    SomeFree(c, o, s, v);
  }

  lemma SomeFree(c: Config, o: Oracle, s: State, v: MemoryIntent)
    requires !Stuck(c, s) && v in Candidates(o, s) && Eligible(c.policy, Members(Candidates(o, s)), v)
    ensures Free(c.policy, v)
  {
    CandidateMembers(o, s);
    hide Candidates;
    if c.policy.intentFamily && v.pinRequested {
      forall id | id in s.hbm && id in s.live ensures s.live[id].pinRequested {
        assert s.live[id] in Members(Candidates(o, s));
      }
    }
  }

  lemma TurnTakesPreferred(
    c: Config, s: State, step: nat, v: MemoryIntent, tier: Tier, s1: State, after: set<string>)
    requires v.objectId in s.hbm && v.objectId in s.live && s.live[v.objectId] == v && Free(c.policy, v)
    requires forall x | x in s.hbm && x in s.live && x != v.objectId && Free(c.policy, s.live[x]) ::
      Preferred(c.policy, step, v, s.live[x])
    requires s1.hbm == s.hbm - {v.objectId} && s1.live == File(s.live, v.(currentTier := tier))
    requires after <= s1.hbm && TakesPreferred(c, s1, step, after)
    ensures TakesPreferred(c, s, step, after)
  {
    hide Preferred, Free;
    assert forall x | x in s1.hbm && x in s.live :: s1.live[x] == s.live[x];
  }

  /** Taking `v` first and then being greedy is being greedy. */
  lemma TurnIsGreedy(c: Config, s: State, step: nat, v: MemoryIntent, tier: Tier, s1: State, after: set<string>)
    requires v.objectId in s.hbm && v.objectId in s.live && s.live[v.objectId] == v && Free(c.policy, v)
    requires forall x | x in s.hbm && x in s.live && x != v.objectId && Free(c.policy, s.live[x]) ::
      Preferred(c.policy, step, v, s.live[x])
    requires s1.hbm == s.hbm - {v.objectId} && s1.live == File(s.live, v.(currentTier := tier))
    requires GreedyOutcome(c, s1, step, after) && Used(s.live, s.hbm) > c.hbmCapacity
    ensures GreedyOutcome(c, s, step, after)
  {
    hide Preferred, Used, Free, TakesPreferred;
    TurnTakesPreferred(c, s, step, v, tier, s1, after);
    assert forall x | x in s1.hbm && x in s.live :: s1.live[x] == s.live[x];
    if after == s1.hbm {
      assert after + {v.objectId} == s.hbm;
      assert LastTaken(c, s, step, after, v.objectId);
    } else {
      var w :| LastTaken(c, s1, step, after, w);
      UsedFrame(s.live, s1.live, after + {w});
      assert Free(c.policy, s.live[w]) by { FreeTaken(c, s1, step, after, w); }
      assert LastTaken(c, s, step, after, w);
    }
  }

  lemma {:induction false} EnforcementIsGreedy(c: Config, o: Oracle, s: State, step: nat)
    requires s.hbm <= s.live.Keys
    ensures GreedyOutcome(c, s, step, EnsureCapacity(c, o, s, step).0.hbm)
    decreases |s.hbm|
  {
    hide ChooseVictim, Candidates, Used, Evict, Preferred, Free, File;
    if Used(s.live, s.hbm) > c.hbmCapacity && !Stuck(c, s) {
      match ChooseVictim(c.policy, Candidates(o, s), step) {
        case None =>
        case Some(v) =>
          VictimIsFree(c, o, s, step, v);
          var tier, toDram, entry := EvictDisplaces(c, o, s, step, v);
          var s1 := Evict(c, o, s, step, v);
          FiledKeys(s.live, v.(currentTier := tier));
          EnforcementIsGreedy(c, o, s1, step);
          TurnIsGreedy(c, s, step, v, tier, s1, EnsureCapacity(c, o, s1, step).0.hbm);
      }
    }
  }

  lemma FreeTaken(c: Config, s: State, step: nat, after: set<string>, w: string)
    requires TakesPreferred(c, s, step, after) && w in s.hbm && w in s.live && w !in after
    ensures Free(c.policy, s.live[w])
  {
  }

  lemma FiledKeys(live: LiveMap, b: MemoryIntent)
    ensures File(live, b).Keys == live.Keys + {b.objectId}
  {
  }
}
