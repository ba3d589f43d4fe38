/** Where the eviction loop leaves what it displaces, and what it writes to the log (simulator.py). */
module Displacements {
  import opened Prelude
  import opened Schema
  import opened Policies
  import opened Simulation
  import opened Residency
  import Capacity

  /** The blocks that spill entries name. */
  function SpilledIn(log: seq<LogEntry>): set<string> {
    set e | e in log && e.action == SpillAction && e.victim.Some? :: e.victim.value.objectId
  }

  /** The blocks that spill or evict entries name. */
  function DisplacedIn(log: seq<LogEntry>): set<string> {
    set e | e in log && (e.action == SpillAction || e.action == EvictAction) && e.victim.Some? ::
      e.victim.value.objectId
  }

  lemma OneMoreEntry(entry: LogEntry, log: seq<LogEntry>)
    requires entry.victim.Some? && (entry.action == SpillAction || entry.action == EvictAction)
    ensures DisplacedIn([entry] + log) == {entry.victim.value.objectId} + DisplacedIn(log)
    ensures SpilledIn([entry] + log) ==
      (if entry.action == SpillAction then {entry.victim.value.objectId} else {}) + SpilledIn(log)
  {
    assert entry in [entry] + log;
    assert forall e :: e in [entry] + log <==> e == entry || e in log;
  }

  lemma OtherEntries(log: seq<LogEntry>)
    requires forall e | e in log :: e.action == ExhaustedAction
    ensures DisplacedIn(log) == {} && SpilledIn(log) == {}
  {
  }

  /** The entries of a stretch of log name the displaced residents; the spilled ones among them have joined DRAM, the
      others are not there, and nothing else moved. */
  ghost predicate Settles(s: State, s': State, added: seq<LogEntry>) {
    && s'.log == s.log + added
    && DisplacedIn(added) == s.hbm - s'.hbm
    && s'.dram == s.dram - (s.hbm - s'.hbm) + SpilledIn(added)
    && s'.spills == s.spills + |SpilledIn(added)|
    && s'.evictions == s.evictions + |s.hbm - s'.hbm|
  }

  lemma TurnSettles(s: State, v: MemoryIntent, tier: Tier, toDram: bool, entry: LogEntry, s': State,
                    added: seq<LogEntry>)
    requires v.objectId in s.hbm && entry.victim == Some(Describe(v))
    requires entry.action == if toDram then SpillAction else EvictAction
    requires Settles(Displace(s, v, tier, toDram, entry), s', added) && s'.hbm <= s.hbm - {v.objectId}
    ensures Settles(s, s', [entry] + added)
  {
    hide Displace, DisplacedIn, SpilledIn, Describe;
    var id := v.objectId;
    DisplaceFields(s, v, tier, toDram, entry);
    DescribedId(v);
    OneMoreEntry(entry, added);
    SpilledAreDisplaced(added);
    SetsAfterTurn(s.hbm, s'.hbm, s.dram, id, SpilledIn(added), toDram);
    assert s.log + [entry] + added == s.log + ([entry] + added);
  }

  lemma DescribedId(v: MemoryIntent)
    ensures Describe(v).objectId == v.objectId
  {
  }

  lemma DisplaceFields(s: State, v: MemoryIntent, tier: Tier, toDram: bool, entry: LogEntry)
    ensures var s1, id := Displace(s, v, tier, toDram, entry), v.objectId;
      && s1.hbm == s.hbm - {id} && s1.dram == (if toDram then s.dram + {id} else s.dram - {id})
      && s1.spills == s.spills + (if toDram then 1 else 0) && s1.evictions == s.evictions + 1
      && s1.log == s.log + [entry]
  {
  }

  /** A turn and the rest of the loop, on the residency sets. */
  lemma SetsAfterTurn(hbm: set<string>, hbm': set<string>, dram: set<string>, id: string, spilled: set<string>,
                      toDram: bool)
    requires id in hbm && hbm' <= hbm - {id} && spilled <= hbm - {id} - hbm'
    ensures hbm - hbm' == {id} + (hbm - {id} - hbm') && |hbm - hbm'| == 1 + |hbm - {id} - hbm'|
    ensures (if toDram then dram + {id} else dram - {id}) - (hbm - {id} - hbm') + spilled ==
      dram - (hbm - hbm') + ((if toDram then {id} else {}) + spilled)
    ensures |{id} + spilled| == 1 + |spilled| && {} + spilled == spilled
  {
    DisplacedSets(hbm, hbm', id);
    var rest := hbm - {id} - hbm';
    if toDram {
      JoinedDram(dram, id, rest, spilled);
    } else {
      LeftDram(dram, id, rest, spilled);
    }
  }

  lemma DisplacedSets(hbm: set<string>, hbm': set<string>, id: string)
    requires id in hbm && hbm' <= hbm - {id}
    ensures hbm - hbm' == {id} + (hbm - {id} - hbm')
  {
  }

  lemma JoinedDram(dram: set<string>, id: string, rest: set<string>, spilled: set<string>)
    requires id !in rest
    ensures dram + {id} - rest + spilled == dram - ({id} + rest) + ({id} + spilled)
  {
  }

  lemma LeftDram(dram: set<string>, id: string, rest: set<string>, spilled: set<string>)
    ensures dram - {id} - rest + spilled == dram - ({id} + rest) + ({} + spilled)
  {
  }

  lemma SpilledAreDisplaced(log: seq<LogEntry>)
    ensures SpilledIn(log) <= DisplacedIn(log)
  {
  }

  /** Over the whole loop: the log names exactly the residents displaced, once each; a block whose entry is a spill is
      in DRAM afterwards, one whose entry is an eviction is not; and the spill counter grows by the blocks spilled. */
  lemma {:induction false} EnforcementSettles(c: Config, o: Oracle, s: State, step: nat)
    returns (added: seq<LogEntry>)
    ensures Settles(s, EnsureCapacity(c, o, s, step).0, added)
    decreases |s.hbm|
  {
    hide Settles, ChooseVictim, Candidates, Used, Stuck, Displace, DisplacedIn, SpilledIn;
    if Used(s.live, s.hbm) > c.hbmCapacity && !Stuck(c, s) {
      VictimIsResident(c, o, s, step);
      match ChooseVictim(c.policy, Candidates(o, s), step) {
        case None => added := NothingSettles(s, EnsureCapacity(c, o, s, step).0, []);
        case Some(v) =>
          var tier, toDram, entry := EvictDisplaces(c, o, s, step, v);
          var s1 := Evict(c, o, s, step, v);
          DisplaceFields(s, v, tier, toDram, entry);
          var rest := EnforcementSettles(c, o, s1, step);
          EnsureCapacityEnforces(c, o, s1, step);
          TurnSettles(s, v, tier, toDram, entry, EnsureCapacity(c, o, s, step).0, rest);
          added := [entry] + rest;
      }
    } else if Used(s.live, s.hbm) <= c.hbmCapacity {
      added := NothingSettles(s, RecordUsage(s), []);
    } else {
      added := NothingSettles(s, RecordUsage(Exhaust(s, step)), [LogEntry(step, ExhaustedAction, None, false)]);
    }
  }

  lemma NothingSettles(s: State, s': State, entries: seq<LogEntry>) returns (added: seq<LogEntry>)
    requires s'.log == s.log + entries && forall e | e in entries :: e.action == ExhaustedAction
    requires s'.hbm == s.hbm && s'.dram == s.dram && s'.spills == s.spills && s'.evictions == s.evictions
    ensures added == entries && Settles(s, s', added)
  {
    added := entries;
    OtherEntries(entries);
    assert s.hbm - s'.hbm == {};
  }

  /** While no resident of HBM is in DRAM, DRAM gains exactly as many blocks as the spill counter counts. */
  lemma SpillsJoinDram(c: Config, o: Oracle, s: State, step: nat)
    requires s.hbm !! s.dram
    ensures var s' := EnsureCapacity(c, o, s, step).0;
      && s.dram <= s'.dram && s'.dram - s.dram <= s.hbm - s'.hbm
      && s'.spills == s.spills + |s'.dram - s.dram|
  {
    hide EnsureCapacity, SpilledIn, DisplacedIn;
    var added := EnforcementSettles(c, o, s, step);
    SpilledAreDisplaced(added);
    assert EnsureCapacity(c, o, s, step).0.dram - s.dram == SpilledIn(added);
  }

  ghost predicate Sized(live: LiveMap) {
    forall k | k in live :: live[k].sizeBytes >= 0
  }

  lemma SizedNonNegative(live: LiveMap, ids: set<string>)
    requires Sized(live)
    ensures forall id | id in ids :: Size(live, id) >= 0
  {
  }

  /** What a turn does to the use of DRAM. */
  lemma TurnUsesDram(c: Config, o: Oracle, s: State, step: nat, v: MemoryIntent)
    requires v.objectId in s.live && s.live[v.objectId] == v && Sized(s.live)
    ensures var s1 := Evict(c, o, s, step, v);
      && Sized(s1.live) && (forall ids :: Used(s1.live, ids) == Used(s.live, ids))
      && (if SpillsToDram(c, o, s, v) then Used(s1.live, s1.dram) <= Used(s.live, s.dram) + v.sizeBytes
          else Used(s1.live, s1.dram) <= Used(s.live, s.dram))
  {
    var tier, toDram, entry := EvictDisplaces(c, o, s, step, v);
    hide Evict, Used, SpillsToDram;
    var s1 := Evict(c, o, s, step, v);
    forall ids ensures Used(s1.live, ids) == Used(s.live, ids) {
      UsedFrame(s1.live, s.live, ids);
    }
    SizedNonNegative(s.live, s.dram + {v.objectId});
    if toDram {
      UsedSplit(s.live, s.dram + {v.objectId}, v.objectId);
      Capacity.UsedMonotone(s.live, s.dram + {v.objectId} - {v.objectId}, s.dram);
    } else {
      Capacity.UsedMonotone(s.live, s.dram - {v.objectId}, s.dram);
    }
  }

  /** The loop never takes DRAM over its capacity. */
  lemma {:induction false} EnforcementKeepsDramCapacity(c: Config, o: Oracle, s: State, step: nat)
    requires Sized(s.live) && Used(s.live, s.dram) <= c.dramCapacity
    ensures var s' := EnsureCapacity(c, o, s, step).0; Used(s'.live, s'.dram) <= c.dramCapacity
    decreases |s.hbm|
  {
    hide ChooseVictim, Candidates, Used, Stuck, Evict;
    if Used(s.live, s.hbm) > c.hbmCapacity && !Stuck(c, s) {
      VictimIsResident(c, o, s, step);
      match ChooseVictim(c.policy, Candidates(o, s), step) {
        case None =>
        case Some(v) =>
          var tier, toDram, entry := EvictDisplaces(c, o, s, step, v);
          TurnUsesDram(c, o, s, step, v);
          EnforcementKeepsDramCapacity(c, o, Evict(c, o, s, step, v), step);
      }
    }
  }

  /** A block that has only DRAM to fall back to goes elsewhere only if DRAM has no room for it, even at the end. */
  lemma {:induction false} EvictedOnlyWhenFull(c: Config, o: Oracle, s: State, step: nat, id: string)
    requires Sized(s.live) && s.hbm !! s.dram && s.hbm <= s.live.Keys
    requires id in s.hbm && s.live[id].allowedTiers == {HBM, DRAM}
    ensures var s' := EnsureCapacity(c, o, s, step).0;
      id !in s'.hbm && id !in s'.dram ==> Used(s'.live, s'.dram) + s.live[id].sizeBytes > c.dramCapacity
    decreases |s.hbm|
  {
    hide ChooseVictim, Candidates, Used, Stuck, Evict;
    if Used(s.live, s.hbm) > c.hbmCapacity && !Stuck(c, s) {
      VictimIsResident(c, o, s, step);
      match ChooseVictim(c.policy, Candidates(o, s), step) {
        case None =>
        case Some(v) =>
          var tier, toDram, entry := EvictDisplaces(c, o, s, step, v);
          TurnUsesDram(c, o, s, step, v);
          var s1 := Evict(c, o, s, step, v);
          if v.objectId == id {
            DramOnlyGrows(c, o, s1, step);
            if !toDram {
              OnlyDram(o, |s.log|, v);
              assert s1.dram == s.dram;
            }
          } else {
            EvictedOnlyWhenFull(c, o, s1, step, id);
          }
      }
    }
  }

  lemma OnlyDram(o: Oracle, n: nat, b: MemoryIntent)
    requires b.allowedTiers == {HBM, DRAM}
    ensures Fallback(o, n, b) == Some(DRAM)
  {
  }

  lemma DramOnlyGrows(c: Config, o: Oracle, s: State, step: nat)
    requires Sized(s.live) && s.hbm !! s.dram
    ensures var s' := EnsureCapacity(c, o, s, step).0;
      s.dram <= s'.dram && Used(s.live, s.dram) <= Used(s'.live, s'.dram)
  {
    hide EnsureCapacity, Used;
    var s' := EnsureCapacity(c, o, s, step).0;
    SpillsJoinDram(c, o, s, step);
    EnsureCapacityEnforces(c, o, s, step);
    UsedFrame(s.live, s'.live, s'.dram);
    SizedNonNegative(s.live, s'.dram);
    Capacity.UsedMonotone(s.live, s.dram, s'.dram);
  }

  /** The record of one displacement: what the victim was, and whether a decode-critical block stayed behind. */
  ghost predicate RecordsTurn(live: LiveMap, hbm: set<string>, step: nat, e: LogEntry) {
    && e.step == step && e.victim.Some? && (e.action == SpillAction || e.action == EvictAction)
    && var id := e.victim.value.objectId;
    && id in hbm && id in live
    && e.victim.value.priority == live[id].priority && e.victim.value.phase == live[id].phase
    && e.victim.value.requestPriority == live[id].requestPriority
    && e.victim.value.deadlineUs == live[id].deadlineUs
    && (e.avoidedCritical <==> CriticalAmong(live, hbm - {id}))
  }

  ghost predicate CriticalAmong(live: LiveMap, ids: set<string>) {
    exists x :: x in ids && x in live && (live[x].priority == DecodeCritical || live[x].phase == Decode)
  }

  /** One record for each turn, in order; if the residents left are all pinned the last record says so. */
  ghost predicate LogsTurns(live: LiveMap, hbm: set<string>, step: nat, added: seq<LogEntry>)
    decreases |added|
  {
    || added == [] || added == [LogEntry(step, ExhaustedAction, None, false)]
    || (&& RecordsTurn(live, hbm, step, added[0])
        && LogsTurns(live, hbm - {added[0].victim.value.objectId}, step, added[1..]))
  }

  lemma {:induction false} LogsTurnsAlike(live: LiveMap, live': LiveMap, hbm: set<string>, step: nat,
                                          added: seq<LogEntry>)
    requires LogsTurns(live', hbm, step, added)
    requires forall x | x in hbm :: (x in live <==> x in live') && (x in live ==> live'[x] == live[x])
    ensures LogsTurns(live, hbm, step, added)
    decreases |added|
  {
    if added != [] && added != [LogEntry(step, ExhaustedAction, None, false)] {
      LogsTurnsAlike(live, live', hbm - {added[0].victim.value.objectId}, step, added[1..]);
    }
  }

  lemma EvictRecords(c: Config, o: Oracle, s: State, step: nat, v: MemoryIntent)
    returns (entry: LogEntry)
    requires v.objectId in s.hbm && v.objectId in s.live && s.live[v.objectId] == v
    ensures Evict(c, o, s, step, v).log == s.log + [entry] && RecordsTurn(s.live, s.hbm, step, entry)
    ensures entry.victim.value.objectId == v.objectId
    ensures Evict(c, o, s, step, v).hbm == s.hbm - {v.objectId}
    ensures var live' := Evict(c, o, s, step, v).live;
      forall x | x != v.objectId :: (x in s.live <==> x in live') && (x in s.live ==> live'[x] == s.live[x])
  {
    CandidateMembers(o, s);
    hide Candidates, Used, Fallback;
    entry := LogEntry(step, if SpillsToDram(c, o, s, v) then SpillAction else EvictAction, Some(Describe(v)),
                      AvoidedCritical(v, Candidates(o, s)));
    assert AvoidedCritical(v, Candidates(o, s)) <==> CriticalAmong(s.live, s.hbm - {v.objectId}) by {
      if x :| x in s.hbm - {v.objectId} && x in s.live
              && (s.live[x].priority == DecodeCritical || s.live[x].phase == Decode) {
        assert s.live[x] in Candidates(o, s);
      }
    }
  }

  lemma NoTurns(live: LiveMap, hbm: set<string>, step: nat)
    ensures LogsTurns(live, hbm, step, []) && LogsTurns(live, hbm, step, [LogEntry(step, ExhaustedAction, None, false)])
  {
  }

  lemma OneMoreTurn(live: LiveMap, hbm: set<string>, step: nat, entry: LogEntry, rest: seq<LogEntry>)
    requires RecordsTurn(live, hbm, step, entry)
    requires LogsTurns(live, hbm - {entry.victim.value.objectId}, step, rest)
    ensures LogsTurns(live, hbm, step, [entry] + rest)
  {
    hide CriticalAmong;
    assert ([entry] + rest)[1..] == rest;
  }

  /** What the loop writes to the log. */
  lemma {:induction false} EnforcementLogs(c: Config, o: Oracle, s: State, step: nat)
    returns (added: seq<LogEntry>)
    ensures EnsureCapacity(c, o, s, step).0.log == s.log + added && LogsTurns(s.live, s.hbm, step, added)
    decreases |s.hbm|
  {
    hide ChooseVictim, Candidates, Used, Stuck, Evict, RecordsTurn, LogsTurns;
    added := [];
    NoTurns(s.live, s.hbm, step);
    if Used(s.live, s.hbm) > c.hbmCapacity {
      if Stuck(c, s) {
        added := [LogEntry(step, ExhaustedAction, None, false)];
      } else {
        VictimIsResident(c, o, s, step);
        match ChooseVictim(c.policy, Candidates(o, s), step) {
          case None =>
          case Some(v) =>
            var entry := EvictRecords(c, o, s, step, v);
            var s1 := Evict(c, o, s, step, v);
            var rest := EnforcementLogs(c, o, s1, step);
            LogsTurnsAlike(s.live, s1.live, s1.hbm, step, rest);
            added := [entry] + rest;
            OneMoreTurn(s.live, s.hbm, step, entry, rest);
            assert s.log + [entry] + rest == s.log + added;
        }
      }
    }
  }
}
