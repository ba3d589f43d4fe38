/** A rule on `allowed_tiers` that every event's intent obeys is obeyed by every stored block. */
module TierRules {
  import opened Prelude
  import opened Schema
  import opened Policies
  import opened Simulation
  import opened Residency

  type Rule = set<Tier> -> bool

  ghost predicate Obeys(live: LiveMap, rule: Rule) {
    forall k | k in live :: rule(live[k].allowedTiers)
  }

  lemma EnforcementObeys(c: Config, o: Oracle, s: State, step: nat, rule: Rule)
    requires Obeys(s.live, rule)
    ensures Obeys(EnsureCapacity(c, o, s, step).0.live, rule)
  {
    hide EnsureCapacity;
    EnsureCapacityEnforces(c, o, s, step);
  }

  lemma FileObeys(live: LiveMap, b: MemoryIntent, rule: Rule)
    requires Obeys(live, rule) && rule(b.allowedTiers)
    ensures Obeys(File(live, b), rule)
  {
  }

  lemma MoveObeys(c: Config, o: Oracle, s: State, b: MemoryIntent, step: nat, rule: Rule)
    requires Obeys(s.live, rule) && rule(b.allowedTiers)
    ensures Obeys(MoveToHbm(c, o, s, b, step).0.live, rule)
  {
    hide EnsureCapacity;
    FileObeys(s.live, b.(currentTier := HBM), rule);
    EnforcementObeys(c, o, Seat(s, b), step, rule);
  }

  lemma ConstructKeepsTiers(m: MemoryIntent)
    requires Construct(m).Ok?
    ensures Construct(m).value.allowedTiers == m.allowedTiers
  {
  }

  lemma MergeTiers(kind: EventType, x: MemoryIntent, i: MemoryIntent)
    ensures Merge(kind, x, i).allowedTiers == x.allowedTiers || Merge(kind, x, i).allowedTiers == i.allowedTiers
  {
  }

  lemma IncomingObeys(s: State, e: Event, rule: Rule)
    requires Obeys(s.live, rule) && rule(e.intent.allowedTiers) && Incoming(s, e).Ok?
    ensures rule(Incoming(s, e).value.allowedTiers)
  {
    ConstructKeepsTiers(e.intent);
    var i := Construct(e.intent).value;
    if i.objectId in s.live {
      MergeTiers(e.kind, s.live[i.objectId], i);
      ConstructKeepsTiers(Merge(e.kind, s.live[i.objectId], i));
    }
  }

  lemma AccessedTiers(x: MemoryIntent, i: MemoryIntent, step: nat)
    ensures AccessedBlock(x, i, step).Ok? ==> AccessedBlock(x, i, step).value.allowedTiers == x.allowedTiers
  {
  }

  lemma MarkedTiers(x: MemoryIntent, i: MemoryIntent)
    ensures CriticalBlock(x, i).Ok? ==> CriticalBlock(x, i).value.allowedTiers == x.allowedTiers
    ensures ColdBlock(x, i).Ok? ==> ColdBlock(x, i).value.allowedTiers == x.allowedTiers
  {
  }

  lemma PrefetchedTiers(x: MemoryIntent, i: MemoryIntent)
    ensures PrefetchedBlock(x, i).Ok? ==> PrefetchedBlock(x, i).value.allowedTiers == i.allowedTiers
  {
  }

  lemma AllocatedObeys(c: Config, o: Oracle, s: State, step: nat, i: MemoryIntent, rule: Rule)
    requires Obeys(s.live, rule) && rule(i.allowedTiers)
    ensures Obeys(OnAllocated(c, o, s, step, i).0.live, rule)
  {
    hide EnsureCapacity;
    FileObeys(s.live, i, rule);
    EnforcementObeys(c, o, Admit(s, i), step, rule);
  }

  lemma AccessedObeys(c: Config, o: Oracle, s: State, step: nat, i: MemoryIntent, rule: Rule)
    requires Obeys(s.live, rule) && rule(i.allowedTiers) && OnAccessed(c, o, s, step, i).Ok?
    ensures Obeys(OnAccessed(c, o, s, step, i).value.0.live, rule)
  {
    var x := if i.objectId in s.live then s.live[i.objectId] else i;
    AccessedTiers(x, i, step);
    hide AccessedBlock, MoveToHbm;
    var b := AccessedBlock(x, i, step).value;
    FileObeys(s.live, b, rule);
    MoveObeys(c, o, Missed(s, b), b, step, rule);
  }

  lemma FetchObeys(c: Config, o: Oracle, s: State, step: nat, b: MemoryIntent, rule: Rule)
    requires Obeys(s.live, rule) && rule(b.allowedTiers)
    ensures Obeys(Fetch(c, o, s, step, b).0.live, rule)
  {
    hide MoveToHbm;
    FileObeys(s.live, b, rule);
    MoveObeys(c, o, Fetched(s, b), b, step, rule);
  }

  lemma PrefetchedObeys(c: Config, o: Oracle, s: State, step: nat, i: MemoryIntent, rule: Rule)
    requires Obeys(s.live, rule) && rule(i.allowedTiers) && OnPrefetched(c, o, s, step, i).Ok?
    ensures Obeys(OnPrefetched(c, o, s, step, i).value.0.live, rule)
  {
    if i.objectId in s.live && i.objectId !in s.hbm {
      PrefetchedTiers(s.live[i.objectId], i);
      hide PrefetchedBlock, Fetch;
      FetchObeys(c, o, s, step, PrefetchedBlock(s.live[i.objectId], i).value, rule);
    }
  }

  lemma MarksObey(c: Config, s: State, i: MemoryIntent, rule: Rule)
    requires Obeys(s.live, rule) && rule(i.allowedTiers)
    ensures var r := OnMarkedDecodeCritical(s, i); r.Ok? ==> Obeys(r.value.live, rule)
    ensures var r := OnMarkedCold(s, i); r.Ok? ==> Obeys(r.value.live, rule)
  {
    var x := if i.objectId in s.live then s.live[i.objectId] else i;
    MarkedTiers(x, i);
    hide CriticalBlock, ColdBlock;
    var marked := i.(priority := DecodeCritical, pinRequested := true);
    if Construct(marked).Ok? {
      ConstructKeepsTiers(marked);
    }
  }

  lemma ChangesObey(c: Config, s: State, i: MemoryIntent, rule: Rule)
    requires Obeys(s.live, rule)
    ensures var r := OnCommitted(s, i); r.Ok? ==> Obeys(r.value.live, rule)
    ensures var r := OnSpilled(c, s, i); r.Ok? ==> Obeys(r.value.0.live, rule)
  {
    if i.objectId in s.live {
      var committed := s.live[i.objectId].(isCommitted := true, isDraft := false);
      var spilled := s.live[i.objectId].(currentTier := DRAM);
      if Construct(committed).Ok? {
        ConstructKeepsTiers(committed);
      }
      if Construct(spilled).Ok? {
        ConstructKeepsTiers(spilled);
      }
      hide Construct;
    }
  }

  lemma HandleObeys(c: Config, o: Oracle, s: State, kind: EventType, step: nat, i: MemoryIntent, rule: Rule)
    requires Obeys(s.live, rule) && rule(i.allowedTiers) && Handle(c, o, s, kind, step, i).Ok?
    ensures Obeys(Handle(c, o, s, kind, step, i).value.0.live, rule)
  {
    hide OnAllocated, OnAccessed, OnPrefetched, OnMarkedDecodeCritical, OnMarkedCold, OnCommitted, OnSpilled;
    match kind
    case Allocated => AllocatedObeys(c, o, s, step, i, rule);
    case Accessed => AccessedObeys(c, o, s, step, i, rule);
    case MarkedDecodeCritical => MarksObey(c, s, i, rule);
    case MarkedCold => MarksObey(c, s, i, rule);
    case Committed => ChangesObey(c, s, i, rule);
    case Spilled => ChangesObey(c, s, i, rule);
    case Prefetched => PrefetchedObeys(c, o, s, step, i, rule);
    case Miss =>
    case Evicted =>
    case Freed =>
  }

  lemma DecayObeys(s: State, step: nat, rule: Rule)
    requires Obeys(s.live, rule) && Decay(s, step).Ok?
    ensures Obeys(Decay(s, step).value.live, rule)
  {
    if step != s.lastDecay {
      forall k | k in s.live ensures CooledBlock(s.live[k]).allowedTiers == s.live[k].allowedTiers {
        ConstructKeepsTiers(Cooled(s.live[k]));
      }
    }
  }

  lemma StepObeys(c: Config, o: Oracle, s: State, e: Event, rule: Rule)
    requires Obeys(s.live, rule) && rule(e.intent.allowedTiers) && Step(c, o, s, e).Ok?
    ensures Obeys(Step(c, o, s, e).value.live, rule)
  {
    var i, s1, added := StepParts(c, o, s, e);
    IncomingObeys(s, e, rule);
    HandleObeys(c, o, s, e.kind, e.step, i, rule);
    hide Handle, Incoming;
    DecayObeys(s1, e.step, rule);
  }
}
