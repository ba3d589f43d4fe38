/** The thesis of the repository: under the intent family, pinned and decode-critical state survives pressure. */
module Pinning {
  import opened Prelude
  import opened Schema
  import opened Policies
  import opened Simulation
  import opened Residency

  ghost predicate PinnedResident(s: State, id: string) {
    id in s.hbm && id in s.live && s.live[id].pinRequested
  }

  /** The intent family never picks a pinned victim: if it could only pick a pinned one it is stuck instead. */
  lemma VictimIsUnpinned(c: Config, o: Oracle, s: State, step: nat)
    requires c.policy.intentFamily && !Stuck(c, s)
    ensures var v := ChooseVictim(c.policy, Candidates(o, s), step); v.Some? ==> !v.value.pinRequested
  {
    VictimIsResident(c, o, s, step);
    VictimIsBestEligible(c.policy, Candidates(o, s), step);
    CandidateMembers(o, s);
  }

  ghost predicate IsDisplacement(e: LogEntry) {
    e.action == SpillAction || e.action == EvictAction
  }

  /** No logged displacement had a victim of decode-critical priority. */
  ghost predicate SparesCritical(log: seq<LogEntry>) {
    forall e | e in log && IsDisplacement(e) :: e.victim.Some? && e.victim.value.priority != DecodeCritical
  }

  lemma DisplaceSpares(s: State, v: MemoryIntent, tier: Tier, toDram: bool, entry: LogEntry, id: string)
    requires BlocksOk(s.live) && v.objectId in s.live && v == s.live[v.objectId] && !v.pinRequested
    requires tier in v.allowedTiers && entry.victim == Some(Describe(v))
    ensures var s' := Displace(s, v, tier, toDram, entry);
      && BlocksOk(s'.live)
      && (PinnedResident(s, id) ==> PinnedResident(s', id))
      && (SparesCritical(s.log) ==> SparesCritical(s'.log))
  {
    FileKeeps(s.live, v.(currentTier := tier));
  }

  lemma {:induction false} EnsureCapacitySpares(c: Config, o: Oracle, s: State, step: nat, id: string)
    requires c.policy.intentFamily && BlocksOk(s.live)
    ensures var s' := EnsureCapacity(c, o, s, step).0;
      && (PinnedResident(s, id) ==> PinnedResident(s', id))
      && (SparesCritical(s.log) ==> SparesCritical(s'.log))
    decreases |s.hbm|
  {
    hide ChooseVictim, Candidates, Used;
    if Used(s.live, s.hbm) <= c.hbmCapacity || Stuck(c, s) {
    } else {
      VictimIsResident(c, o, s, step);
      VictimIsUnpinned(c, o, s, step);
      match ChooseVictim(c.policy, Candidates(o, s), step) {
        case None =>
        case Some(v) =>
          var tier, toDram, entry := EvictDisplaces(c, o, s, step, v);
          DisplaceSpares(s, v, tier, toDram, entry, id);
          EnsureCapacitySpares(c, o, Evict(c, o, s, step, v), step, id);
      }
    }
  }

  lemma MoveSpares(c: Config, o: Oracle, s: State, block: MemoryIntent, step: nat, id: string)
    requires c.policy.intentFamily && Sound(s) && BlockOk(block) && block.objectId !in s.hbm
    ensures var s' := MoveToHbm(c, o, s, block, step).0;
      && (PinnedResident(s, id) ==> PinnedResident(s', id))
      && (SparesCritical(s.log) ==> SparesCritical(s'.log))
  {
    FileKeeps(s.live, block.(currentTier := HBM));
    EnsureCapacitySpares(c, o, Seat(s, block), step, id);
  }

  /** The events a pinned block is asked to survive: anything but an explicit removal, a re-allocation, or an
      access that withdraws the pin. */
  predicate Spares(e: Event, id: string) {
    e.intent.objectId == id ==>
      match e.kind
      case Spilled => false
      case Evicted => false
      case Freed => false
      case Allocated => false
      case Accessed => e.intent.pinRequested || e.intent.priority == DecodeCritical
      case _ => true
  }

  lemma PinsKept(x: MemoryIntent, i: MemoryIntent, step: nat)
    requires BlockOk(x) && BlockOk(i)
    ensures AccessedBlock(x, i, step).Ok? &&
      AccessedBlock(x, i, step).value.pinRequested == i.pinRequested
    ensures CriticalBlock(x, i).Ok? && CriticalBlock(x, i).value.pinRequested
    ensures ColdBlock(x, i).Ok? && ColdBlock(x, i).value.pinRequested == x.pinRequested
    ensures Construct(x.(isCommitted := true, isDraft := false)).Ok? &&
      Construct(x.(isCommitted := true, isDraft := false)).value.pinRequested == x.pinRequested
  {
  }

  /** Whether a handled event (with its merged intent) spares the pin of `id`. */
  predicate HandlingSpares(kind: EventType, intent: MemoryIntent, id: string) {
    intent.objectId == id ==>
      kind != Spilled && kind != Evicted && kind != Freed && kind != Allocated
      && (kind == Accessed ==> intent.pinRequested)
  }

  lemma AllocatedSpares(c: Config, o: Oracle, s: State, step: nat, intent: MemoryIntent, id: string)
    requires c.policy.intentFamily && Sound(s) && BlockOk(intent)
    ensures var s' := OnAllocated(c, o, s, step, intent).0;
      && (PinnedResident(s, id) && intent.objectId != id ==> PinnedResident(s', id))
      && (SparesCritical(s.log) ==> SparesCritical(s'.log))
  {
    AdmitKeeps(s, intent);
    if intent.currentTier == HBM {
      EnsureCapacitySpares(c, o, Admit(s, intent), step, id);
    }
  }

  lemma AccessedSpares(c: Config, o: Oracle, s: State, step: nat, intent: MemoryIntent, id: string)
    requires c.policy.intentFamily && Sound(s) && BlockOk(intent)
    ensures var r := OnAccessed(c, o, s, step, intent);
      && r.Ok?
      && (PinnedResident(s, id) && (intent.objectId == id ==> intent.pinRequested) ==> PinnedResident(r.value.0, id))
      && (SparesCritical(s.log) ==> SparesCritical(r.value.0.log))
  {
    hide AccessedBlock, MoveToHbm, BlockOk;
    var x := if intent.objectId in s.live then s.live[intent.objectId] else intent;
    AccessedBlockOk(x, intent, step);
    PinsKept(x, intent, step);
    var block := AccessedBlock(x, intent, step).value;
    if intent.objectId !in s.hbm {
      FileKeeps(s.live, block);
      MoveSpares(c, o, Missed(s, block), block, step, id);
    }
  }

  lemma PrefetchedSpares(c: Config, o: Oracle, s: State, step: nat, intent: MemoryIntent, id: string)
    requires c.policy.intentFamily && Sound(s) && BlockOk(intent)
    ensures var r := OnPrefetched(c, o, s, step, intent);
      && r.Ok?
      && (PinnedResident(s, id) ==> PinnedResident(r.value.0, id))
      && (SparesCritical(s.log) ==> SparesCritical(r.value.0.log))
  {
    hide PrefetchedBlock, MoveToHbm, BlockOk;
    if intent.objectId in s.live && intent.objectId !in s.hbm {
      PrefetchedBlockOk(s.live[intent.objectId], intent);
      var block := PrefetchedBlock(s.live[intent.objectId], intent).value;
      FileKeeps(s.live, block);
      if c.policy.wantsPrefetch(block, step) {
        MoveSpares(c, o, Fetched(s, block), block, step, id);
      }
    }
  }

  lemma MarksSpare(c: Config, s: State, intent: MemoryIntent, id: string)
    requires Sound(s) && BlockOk(intent)
    ensures var r := OnMarkedDecodeCritical(s, intent);
      r.Ok? && r.value.log == s.log && (PinnedResident(s, id) ==> PinnedResident(r.value, id))
    ensures var r := OnMarkedCold(s, intent);
      r.Ok? && r.value.log == s.log && (PinnedResident(s, id) ==> PinnedResident(r.value, id))
    ensures var r := OnCommitted(s, intent);
      r.Ok? && r.value.log == s.log && (PinnedResident(s, id) ==> PinnedResident(r.value, id))
  {
    var x := if intent.objectId in s.live then s.live[intent.objectId] else intent;
    CriticalBlockOk(x, intent);
    ColdBlockOk(x, intent);
    PinsKept(x, intent, 0);
  }

  lemma HandleSpares(c: Config, o: Oracle, s: State, kind: EventType, step: nat, intent: MemoryIntent, id: string)
    requires c.policy.intentFamily && Sound(s) && BlockOk(intent)
    ensures var r := Handle(c, o, s, kind, step, intent);
      && r.Ok?
      && (PinnedResident(s, id) && HandlingSpares(kind, intent, id) ==> PinnedResident(r.value.0, id))
      && (SparesCritical(s.log) ==> SparesCritical(r.value.0.log))
  {
    hide OnAllocated, OnAccessed, OnPrefetched, OnMarkedDecodeCritical, OnMarkedCold, OnCommitted, BlockOk;
    HandleKeeps(c, o, s, kind, step, intent);
    match kind
    case Allocated => AllocatedSpares(c, o, s, step, intent, id);
    case Accessed => AccessedSpares(c, o, s, step, intent, id);
    case MarkedDecodeCritical => MarksSpare(c, s, intent, id);
    case MarkedCold => MarksSpare(c, s, intent, id);
    case Committed => MarksSpare(c, s, intent, id);
    case Spilled => SpilledKeeps(c, s, intent);
    case Prefetched => PrefetchedSpares(c, o, s, step, intent, id);
    case Miss =>
    case Evicted =>
    case Freed =>
  }

  lemma IncomingSpares(s: State, e: Event, id: string)
    requires Sound(s) && Supported(e) && Spares(e, id)
    ensures Incoming(s, e).Ok? && HandlingSpares(e.kind, Incoming(s, e).value, id)
  {
    IncomingOk(s, e);
  }

  lemma StepSpares(c: Config, o: Oracle, s: State, e: Event, id: string)
    requires c.policy.intentFamily && Sound(s) && Supported(e)
    ensures var r := Step(c, o, s, e);
      && r.Ok?
      && (PinnedResident(s, id) && Spares(e, id) ==> PinnedResident(r.value, id))
      && (SparesCritical(s.log) ==> SparesCritical(r.value.log))
  {
    var intent, s1, added, s2 := StepUnfolds(c, o, s, e);
    if Spares(e, id) {
      IncomingSpares(s, e, id);
    }
    HandleSpares(c, o, s, e.kind, e.step, intent, id);
  }

  /** A pinned HBM resident stays resident and pinned through any run segment that neither removes it
      explicitly nor withdraws its pin, whatever the pressure. */
  lemma {:induction false} PinnedSurvives(c: Config, o: Oracle, s: State, events: seq<Event>, id: string)
    requires c.policy.intentFamily && Sound(s) && SupportedTrace(events)
    requires PinnedResident(s, id) && forall e | e in events :: Spares(e, id)
    ensures var r := Run(c, o, s, events); r.Ok? && PinnedResident(r.value, id)
    decreases |events|
  {
    if events != [] {
      StepKeeps(c, o, s, events[0]);
      StepSpares(c, o, s, events[0], id);
      PinnedSurvives(c, o, Step(c, o, s, events[0]).value, events[1..], id);
    }
  }

  lemma ResidentAccessHits(c: Config, o: Oracle, s: State, e: Event)
    requires Sound(s) && Supported(e) && e.kind == Accessed && e.intent.objectId in s.hbm
    ensures var r := Step(c, o, s, e);
      r.Ok? && r.value.misses == s.misses && r.value.latencies == s.latencies + [c.baseLatency]
  {
    var intent, s1, added, s2 := StepUnfolds(c, o, s, e);
    assert OnAccessed(c, o, s, e.step, intent) == Ok((s1, added));
    AccessedBlockOk(s.live[intent.objectId], intent, e.step);
  }

  /** Hence every access to it in the segment is a hit at base latency. */
  lemma PinnedAccessesHit(c: Config, o: Oracle, s: State, events: seq<Event>, n: nat, id: string)
    requires c.policy.intentFamily && Sound(s) && SupportedTrace(events)
    requires PinnedResident(s, id) && forall e | e in events :: Spares(e, id)
    requires n < |events| && events[n].kind == Accessed && events[n].intent.objectId == id
    ensures var before, after := Run(c, o, s, events[..n]), Run(c, o, s, events[..n + 1]);
      && before.Ok? && after.Ok?
      && after.value.misses == before.value.misses
      && after.value.latencies == before.value.latencies + [c.baseLatency]
  {
    hide Step, Supported, Spares, Sound;
    PinnedSurvives(c, o, s, events[..n], id);
    RunKeeps(c, o, s, events[..n]);
    var m := Run(c, o, s, events[..n]).value;
    ResidentAccessHits(c, o, m, events[n]);
    assert events[..n + 1] == events[..n] + [events[n]];
    RunConcat(c, o, s, events[..n], [events[n]]);
    assert Run(c, o, Step(c, o, m, events[n]).value, []).Ok?;
  }

  /** No displacement made by the intent family ever has a victim of decode-critical priority. */
  lemma {:induction false} RunSparesCritical(c: Config, o: Oracle, s: State, events: seq<Event>)
    requires c.policy.intentFamily && Sound(s) && SupportedTrace(events) && SparesCritical(s.log)
    ensures var r := Run(c, o, s, events); r.Ok? && SparesCritical(r.value.log)
    decreases |events|
  {
    if events != [] {
      StepKeeps(c, o, s, events[0]);
      StepSpares(c, o, s, events[0], "");
      RunSparesCritical(c, o, Step(c, o, s, events[0]).value, events[1..]);
    }
  }
}
