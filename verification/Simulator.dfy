/** The simulator object of simulator.py: fields updated in place, proved to compute the step functions. */
module Simulator {
  import opened Prelude
  import opened Schema
  import opened Policies
  import opened Simulation
  import opened Residency
  import opened VictimOrder

  /** The ten counters of the object, kept as one record. */
  datatype Counters = Counters(
    spills: int, prefetches: int, misses: int, evictions: int, criticalMisses: int, criticalEvictions: int,
    peakDemand: int, peakUsed: int, exhaustions: int, pinnedExhaustions: int)

  /** Iterating a set lists each member once, in some order. */
  ghost predicate Fair(o: Oracle) {
    forall n, ids :: Enumerates(o.order(n, ids), ids)
  }

  /** Reaching `later` with `added` latency so far amounts to `whole`. */
  ghost predicate Continues(whole: (State, int), later: (State, int), added: int) {
    whole == (later.0, later.1 + added)
  }

  lemma StuckMeansAllPinned(c: Config, o: Oracle, s: State)
    ensures Stuck(c, s) <==> Candidates(o, s) != [] && AllPinned(Candidates(o, s)) && c.policy.intentFamily
  {
    CandidateMembers(o, s);
    if Candidates(o, s) != [] {
      assert Candidates(o, s)[0] in Candidates(o, s);
    }
  }

  /** All blocks but those in `rest` have cooled. */
  ghost predicate PartlyCooled(snapshot: LiveMap, live: LiveMap, rest: set<string>) {
    && rest <= snapshot.Keys && live.Keys == snapshot.Keys
    && forall k | k in snapshot && k !in rest ::
         Construct(Cooled(snapshot[k])).Ok? && live[k] == CooledBlock(snapshot[k])
  }

  lemma PartlyCooledStep(snapshot: LiveMap, live: LiveMap, rest: set<string>, id: string)
    requires PartlyCooled(snapshot, live, rest) && id in rest && Construct(Cooled(snapshot[id])).Ok?
    ensures PartlyCooled(snapshot, File(live, CooledBlock(snapshot[id])), rest - {id})
  {
    hide Construct, Cooled;
  }

  /** A displacement, case by case. */
  lemma EvictIs(c: Config, o: Oracle, s: State, step: nat, victim: MemoryIntent)
    ensures var avoided, target := AvoidedCritical(victim, Candidates(o, s)), Fallback(o, |s.log|, victim);
      && (SpillsToDram(c, o, s, victim) <==>
            target == Some(DRAM) && Used(s.live, s.dram) + victim.sizeBytes <= c.dramCapacity)
      && Evict(c, o, s, step, victim) ==
           if SpillsToDram(c, o, s, victim)
           then Displace(s, victim, DRAM, true, LogEntry(step, SpillAction, Some(Describe(victim)), avoided))
           else Displace(s, victim, if target.Some? then target.value else NVME, false,
                         LogEntry(step, EvictAction, Some(Describe(victim)), avoided))
  {
    hide Candidates, AvoidedCritical, Fallback, Used, Describe, Displace;
  }

  /** Every block's recency is 0.03 less, or 0 if there was less than that. */
  ghost predicate Fades(live: LiveMap, live': LiveMap) {
    && live'.Keys == live.Keys
    && forall k | k in live ::
        live'[k].recency == if live[k].recency < 0.03 then 0.0 else live[k].recency - 0.03
  }

  lemma CooledFades(live: LiveMap)
    requires CanCool(live)
    ensures Fades(live, CooledMap(live))
  {
    forall k | k in live
      ensures CooledBlock(live[k]).recency == if live[k].recency < 0.03 then 0.0 else live[k].recency - 0.03
    {
      ConstructYieldsValid(Cooled(live[k]));
    }
    hide Construct, Cooled;
  }


  class KVMemorySimulator {
    const config: Config
    const oracle: Oracle

    var live: LiveMap
    var hbm: set<string>
    var dram: set<string>
    var latencies: seq<int>
    var log: seq<LogEntry>
    var counters: Counters
    var lastDecay: int

    constructor (config: Config, oracle: Oracle)
      ensures this.config == config && this.oracle == oracle
      ensures Current() == Initial()
      ensures live == map[] && hbm == dram == {} && latencies == [] && log == [] && lastDecay == -1
      ensures counters == Counters(0, 0, 0, 0, 0, 0, 0, 0, 0, 0)
    {
      this.config, this.oracle := config, oracle;
      live, hbm, dram, latencies, log := map[], {}, {}, [], [];
      counters := Counters(0, 0, 0, 0, 0, 0, 0, 0, 0, 0);
      lastDecay := -1;
    }

    /** The object's fields as one value. */
    function Current(): State
      reads this
    {
      var n := counters;
      State(live, hbm, dram, latencies, log, n.spills, n.prefetches, n.misses, n.evictions, n.criticalMisses,
            n.criticalEvictions, n.peakDemand, n.peakUsed, n.exhaustions, n.pinnedExhaustions, lastDecay)
    }

    method UsedBytes(ids: set<string>) returns (n: int)
      ensures n == Used(live, ids)
    {
      n := 0;
      var rest := ids;
      while rest != {}
        invariant rest <= ids
        invariant n + Used(live, rest) == Used(live, ids)
        decreases |rest|
      {
        var id :| id in rest;
        UsedSplit(live, rest, id);
        if id in live {
          n := n + live[id].sizeBytes;
        }
        rest := rest - {id};
      }
    }

    method RecordHbmUsage()
      modifies `counters
      ensures Current() == RecordUsage(old(Current()))
    {
      var used := UsedBytes(hbm);
      counters := counters.(peakUsed := Max(counters.peakUsed, used));
    }

    /** One displacement: to DRAM if that is the fallback and it fits there, else to the fallback tier. */
    method EvictVictim(victim: MemoryIntent, candidates: seq<MemoryIntent>, step: nat) returns (added: int)
      requires candidates == Candidates(oracle, Current())
      modifies `live, `hbm, `dram, `log, `counters
      ensures Current() == Evict(config, oracle, old(Current()), step, victim)
      ensures added == if SpillsToDram(config, oracle, old(Current()), victim) then config.spillLatency else 0
      ensures hbm == old(hbm) - {victim.objectId}
      ensures counters.spills == old(counters.spills) + (if victim.objectId in dram then 1 else 0)
      ensures dram - {victim.objectId} == old(dram) - {victim.objectId}
    {
      hide Candidates, Lookup, AvoidedCritical, Fallback, Used, File, Describe, IsDecodeCritical, Evict, SpillsToDram;
      EvictIs(config, oracle, Current(), step, victim);
      var avoided := AvoidedCritical(victim, candidates);
      counters := counters.(
        evictions := counters.evictions + 1,
        criticalEvictions := counters.criticalEvictions + (if IsDecodeCritical(victim) then 1 else 0));
      hbm := hbm - {victim.objectId};
      var target := Fallback(oracle, |log|, victim);
      var dramUsed := UsedBytes(dram);
      if target == Some(DRAM) && dramUsed + victim.sizeBytes <= config.dramCapacity {
        live := File(live, victim.(currentTier := DRAM));
        dram := dram + {victim.objectId};
        counters := counters.(spills := counters.spills + 1);
        added := config.spillLatency;
        log := log + [LogEntry(step, SpillAction, Some(Describe(victim)), avoided)];
      } else {
        live := File(live, victim.(currentTier := if target.Some? then target.value else NVME));
        dram := dram - {victim.objectId};
        added := 0;
        log := log + [LogEntry(step, EvictAction, Some(Describe(victim)), avoided)];
      }
    }

    /** The resident blocks in iteration order, whether they are all off limits, and the policy's choice. */
    method Consider(step: nat) returns (candidates: seq<MemoryIntent>, stuck: bool, choice: Option<MemoryIntent>)
      requires Fair(oracle)
      ensures candidates == Candidates(oracle, Current())
      ensures stuck <==> Stuck(config, Current())
      ensures choice == ChooseVictim(config.policy, Candidates(oracle, Current()), step)
      ensures choice.Some? ==> choice.value.objectId in hbm
      ensures forall k | config.policy == PolicyOf(k) && choice.Some? ::
        forall b | b in candidates && b != choice.value :: GoesFirst(k, choice.value, b)
    {
      hide Lookup, ChooseVictim, GoesFirst, PolicyOf;
      candidates := Lookup(live, oracle.order(|log|, hbm));
      assert candidates == Candidates(oracle, Current());
      StuckMeansAllPinned(config, oracle, Current());
      stuck := candidates != [] && AllPinned(candidates) && config.policy.intentFamily;
      choice := ChooseVictim(config.policy, candidates, step);
      VictimIsResident(config, oracle, Current(), step);
      CandidateMembers(oracle, Current());
      forall k | config.policy == PolicyOf(k) && choice.Some?
        ensures forall b | b in candidates && b != choice.value :: GoesFirst(k, choice.value, b)
      {
        VictimIsBestEligible(config.policy, candidates, step);
        VictimGoesFirst(k, candidates, step);
      }
    }

    method EnsureHbmCapacity(step: nat) returns (added: int)
      requires Fair(oracle)
      modifies `live, `hbm, `dram, `log, `counters
      ensures (Current(), added) == EnsureCapacity(config, oracle, old(Current()), step)
    {
      hide Evict, SpillsToDram, ChooseVictim, Candidates, Stuck, Used, Fair;
      added := 0;
      var used := UsedBytes(hbm);
      while used > config.hbmCapacity
        invariant used == Used(live, hbm)
        invariant Continues(EnsureCapacity(config, oracle, old(Current()), step),
                            EnsureCapacity(config, oracle, Current(), step), added)
        decreases |hbm|
      {
        var candidates, stuck, choice := Consider(step);
        if stuck {
          counters := counters.(
            exhaustions := counters.exhaustions + 1, pinnedExhaustions := counters.pinnedExhaustions + 1);
          log := log + [LogEntry(step, ExhaustedAction, None, false)];
          RecordHbmUsage();
          return;
        }
        match choice {
          case None =>
            counters := counters.(exhaustions := counters.exhaustions + 1);
            RecordHbmUsage();
            return;
          case Some(victim) =>
            var spill := EvictVictim(victim, candidates, step);
            added := added + spill;
            used := UsedBytes(hbm);
        }
      }
      RecordHbmUsage();
    }

    method MoveToHbm(block: MemoryIntent, step: nat) returns (added: int)
      requires Fair(oracle)
      modifies this
      ensures (Current(), added) == Simulation.MoveToHbm(config, oracle, old(Current()), block, step)
    {
      hide EnsureCapacity;
      live := File(live, block.(currentTier := HBM));
      hbm := hbm + {block.objectId};
      dram := dram - {block.objectId};
      assert Current() == Seat(old(Current()), block);
      added := EnsureHbmCapacity(step);
      RecordHbmUsage();
    }

    method Allocate(intent: MemoryIntent, step: nat) returns (added: int)
      requires Fair(oracle)
      modifies this
      ensures (Current(), added) == OnAllocated(config, oracle, old(Current()), step, intent)
    {
      hide EnsureCapacity;
      live := File(live, intent);
      var used := UsedBytes(hbm);
      var demand := used + if intent.currentTier == HBM then intent.sizeBytes else 0;
      counters := counters.(peakDemand := Max(counters.peakDemand, demand));
      added := 0;
      if intent.currentTier == HBM {
        hbm := hbm + {intent.objectId};
        assert Current() == Admit(old(Current()), intent);
        added := EnsureHbmCapacity(step);
      } else if intent.currentTier == DRAM {
        dram := dram + {intent.objectId};
      }
      RecordHbmUsage();
    }

    /** The result is the exception raised, if any; the state then is whatever Python left behind. */
    method Access(intent: MemoryIntent, step: nat) returns (r: Result<int>)
      requires Fair(oracle)
      modifies this
      ensures Agrees(r, OnAccessed(config, oracle, old(Current()), step, intent))
    {
      hide Simulation.MoveToHbm, AccessedBlock;
      var id := intent.objectId;
      var block :- AccessedBlock(if id in live then live[id] else intent, intent, step);
      live := File(live, block);
      if id !in hbm {
        counters := counters.(
          misses := counters.misses + 1,
          criticalMisses := counters.criticalMisses + (if IsDecodeCritical(block) then 1 else 0));
        assert Current() == Missed(old(Current()), block);
        var added := MoveToHbm(block, step);
        return Ok(config.missPenalty + added);
      }
      RecordHbmUsage();
      return Ok(0);
    }

    /** The object's outcome matches the functional one: both raise, or the state and latency agree. */
    ghost predicate Agrees(r: Result<int>, spec: Result<(State, int)>)
      reads this
    {
      if r.Ok? then spec == Ok((Current(), r.value)) else spec.Err?
    }

    method Prefetch(intent: MemoryIntent, step: nat) returns (r: Result<int>)
      requires Fair(oracle)
      modifies this
      ensures Agrees(r, OnPrefetched(config, oracle, old(Current()), step, intent))
    {
      hide Simulation.MoveToHbm, PrefetchedBlock;
      var id := intent.objectId;
      if id !in live || id in hbm {
        return Ok(0);
      }
      var block :- PrefetchedBlock(live[id], intent);
      live := File(live, block);
      if config.policy.wantsPrefetch(block, step) {
        counters := counters.(prefetches := counters.prefetches + 1);
        assert Current() == Fetched(old(Current()), block);
        var added := MoveToHbm(block, step);
        log := log + [LogEntry(step, PrefetchAction, Some(Describe(block)), false)];
        return Ok(config.prefetchLatency + added);
      }
      return Ok(0);
    }

    method Spill(intent: MemoryIntent) returns (r: Result<int>)
      modifies this
      ensures Agrees(r, OnSpilled(config, old(Current()), intent))
    {
      hide Construct;
      var id := intent.objectId;
      if id in live && DRAM in live[id].allowedTiers {
        var block :- Construct(live[id].(currentTier := DRAM));
        ConstructId(live[id].(currentTier := DRAM));
        hbm := hbm - {id};
        dram := dram + {id};
        live := File(live, block);
        counters := counters.(spills := counters.spills + 1);
        return Ok(config.spillLatency);
      }
      return Ok(0);
    }

    /** The branches that only rewrite the stored intent. */
    method Mark(kind: EventType, intent: MemoryIntent) returns (r: Result<int>)
      requires kind == MarkedDecodeCritical || kind == MarkedCold || kind == Committed
      modifies this
      ensures Agrees(r, Unpriced(
        match kind
        case MarkedDecodeCritical => OnMarkedDecodeCritical(old(Current()), intent)
        case MarkedCold => OnMarkedCold(old(Current()), intent)
        case _ => OnCommitted(old(Current()), intent)))
    {
      hide Construct, CriticalBlock, ColdBlock;
      var id := intent.objectId;
      if kind == MarkedDecodeCritical {
        var block :- if id in live then CriticalBlock(live[id], intent)
                     else Construct(intent.(priority := DecodeCritical, pinRequested := true));
        live := File(live, block);
      } else if id in live {
        var block :- if kind == MarkedCold then ColdBlock(live[id], intent)
                     else Construct(live[id].(isCommitted := true, isDraft := false));
        live := File(live, block);
      }
      return Ok(0);
    }

    method Handle(kind: EventType, intent: MemoryIntent, step: nat) returns (r: Result<int>)
      requires Fair(oracle)
      modifies this
      ensures Agrees(r, Simulation.Handle(config, oracle, old(Current()), kind, step, intent))
    {
      hide OnAllocated, OnAccessed, OnPrefetched, OnSpilled, OnMarkedDecodeCritical, OnMarkedCold, OnCommitted;
      match kind {
        case Allocated =>
          var added := Allocate(intent, step);
          r := Ok(added);
        case Accessed => r := Access(intent, step);
        case MarkedDecodeCritical => r := Mark(kind, intent);
        case MarkedCold => r := Mark(kind, intent);
        case Committed => r := Mark(kind, intent);
        case Spilled => r := Spill(intent);
        case Prefetched => r := Prefetch(intent, step);
        case Miss => r := Ok(0);
        case Evicted =>
          var id := intent.objectId;
          if id in live {
            hbm, dram := hbm - {id}, dram - {id};
            counters := counters.(
              criticalEvictions := counters.criticalEvictions + (if IsDecodeCritical(live[id]) then 1 else 0),
              evictions := counters.evictions + 1);
          }
          r := Ok(0);
        case Freed =>
          var id := intent.objectId;
          live := live - {id};
          hbm, dram := hbm - {id}, dram - {id};
          r := Ok(0);
      }
    }

    /** Every block of the snapshot is copied with its decayed recency, one at a time. */
    method CoolEach() returns (r: Result<()>)
      modifies `live
      ensures r.Ok? <==> CanCool(old(live))
      ensures r.Ok? ==> live == CooledMap(old(live)) && Fades(old(live), live)
    {
      hide Construct, Cooled, File, CooledBlock, Fades;
      var snapshot := live;
      var rest := live.Keys;
      while rest != {}
        invariant PartlyCooled(snapshot, live, rest)
        decreases |rest|
      {
        var id :| id in rest;
        var cooled :- Construct(Cooled(snapshot[id]));
        PartlyCooledStep(snapshot, live, rest, id);
        live := File(live, CooledBlock(snapshot[id]));
        rest := rest - {id};
      }
      assert live == CooledMap(snapshot);
      CooledFades(snapshot);
      return Ok(());
    }

    /** Recency decay, at most once per step value. */
    method CoolAll(step: nat) returns (r: Result<()>)
      modifies `live, `lastDecay
      ensures match Simulation.Decay(old(Current()), step) case Ok(s) => r.Ok? && Current() == s case Err(_) => r.Err?
      ensures r.Ok? ==> if step == old(lastDecay) then live == old(live) else Fades(old(live), live)
    {
      hide CanCool, CooledMap, Fades;
      if step != lastDecay {
        var _ :- CoolEach();
        lastDecay := step;
      }
      return Ok(());
    }

    method Step(e: Event) returns (r: Result<()>)
      requires Fair(oracle)
      modifies this
      ensures
        match Simulation.Step(config, oracle, old(Current()), e)
        case Ok(s) => r.Ok? && Current() == s
        case Err(_) => r.Err?
    {
      hide Incoming, Simulation.Handle, Decay;
      var intent :- Incoming(Current(), e);
      var added :- Handle(e.kind, intent, e.step);
      ghost var handled := Current();
      var _ :- CoolAll(e.step);
      latencies := latencies + [config.baseLatency + added];
      return Ok(());
    }

    /** Replays a trace: after it, the object holds exactly the state the step functions compute, and it
        raises exactly when they fail. */
    method Run(events: seq<Event>) returns (r: Result<()>)
      requires Fair(oracle)
      modifies this
      ensures
        match Simulation.Run(config, oracle, old(Current()), events)
        case Ok(s) => r.Ok? && Current() == s
        case Err(_) => r.Err?
    {
      hide Simulation.Step;
      for n := 0 to |events|
        invariant Simulation.Run(config, oracle, old(Current()), events)
               == Simulation.Run(config, oracle, Current(), events[n..])
      {
        var _ :- Step(events[n]);
      }
      return Ok(());
    }
  }
}
