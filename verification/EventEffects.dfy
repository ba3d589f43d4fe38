/** What each event does to the block it names, and to the others, said in the blocks' own fields (simulator.py). */
module EventEffects {
  import opened Prelude
  import opened Schema
  import opened Policies
  import opened Simulation
  import opened Residency

  /** Recency after a step: 0.03 less at a new step value, down to 0, and the same at a repeated one. */
  function Faded(recency: real, repeated: bool): real {
    if repeated then recency else if recency < 0.03 then 0.0 else recency - 0.03
  }

  /** The declared intent with the pin that goes with its priority. */
  function Declared(e: Event): MemoryIntent {
    e.intent.(pinRequested := e.intent.pinRequested || e.intent.priority == DecodeCritical)
  }

  /** The block an event leaves, before recency fades and apart from its tier: `x` is what was stored, or the declared
      intent if nothing was, `i` the declared intent. */
  function Rewritten(kind: EventType, x: MemoryIntent, i: MemoryIntent, step: nat, resident: bool): MemoryIntent {
    match kind
    case Allocated => i
    case Accessed =>
      x.(lastAccessStep := step, recency := 1.0, phase := i.phase, priority := i.priority,
         deadlineUs := i.deadlineUs, slackUs := i.slackUs, targetDecodeStep := i.targetDecodeStep,
         reuseWindow := i.reuseWindow, pinRequested := i.pinRequested, prefetchOk := i.prefetchOk)
    case MarkedDecodeCritical =>
      x.(priority := DecodeCritical, pinRequested := true, phase := i.phase, deadlineUs := i.deadlineUs,
         slackUs := i.slackUs, targetDecodeStep := i.targetDecodeStep, reuseWindow := i.reuseWindow,
         requestPriority := i.requestPriority, recency := i.recency)
    case MarkedCold =>
      x.(priority := Cold, phase := i.phase, deadlineUs := i.deadlineUs, slackUs := i.slackUs,
         compressionOk := i.compressionOk, recomputeOk := i.recomputeOk, prefetchOk := i.prefetchOk,
         recency := i.recency)
    case Committed => x.(isCommitted := true, isDraft := false)
    case Prefetched => if resident then x else i
    case _ => x
  }

  /** The same block up to its tier. */
  predicate SameUpToTier(a: MemoryIntent, b: MemoryIntent) {
    b == a.(currentTier := b.currentTier)
  }

  lemma DecayFades(s: State, step: nat, k: string)
    requires Sound(s) && k in s.live
    ensures Decay(s, step).Ok? && k in Decay(s, step).value.live && Decay(s, step).value.lastDecay == step
    ensures Decay(s, step).value.live[k] ==
      s.live[k].(recency := Faded(s.live[k].recency, step == s.lastDecay))
  {
    DecayKeeps(s, step);
    FadedBlock(s.live[k]);
    hide CooledBlock, Valid, Faded;
    assert BlockOk(s.live[k]);
  }

  lemma FadedBlock(b: MemoryIntent)
    ensures Valid(b) ==> Construct(Cooled(b)).Ok? && CooledBlock(b) == b.(recency := Faded(b.recency, false))
    ensures b.(recency := Faded(b.recency, true)) == b
  {
    if Valid(b) {
      CoolingOk(b);
    }
  }

  /** The loop leaves every block as it was up to its tier, and the tier too unless the block was displaced. */
  lemma EnforcementFrame(c: Config, o: Oracle, s: State, step: nat, k: string)
    requires k in s.live
    ensures var s' := EnsureCapacity(c, o, s, step).0;
      && k in s'.live && SameUpToTier(s.live[k], s'.live[k]) && (k in s'.hbm ==> k in s.hbm)
      && (k in s'.hbm || k !in s.hbm ==> s'.live[k] == s.live[k])
      && (k !in s.hbm ==> (k in s'.dram <==> k in s.dram))
  {
    EnsureCapacityEnforces(c, o, s, step);
  }

  /** How one block fares in an event that does not name it. */
  ghost predicate Spared(s: State, s': State, k: string)
    requires k in s.live
  {
    && k in s'.live && SameUpToTier(s.live[k], s'.live[k]) && (k in s'.hbm ==> k in s.hbm)
    && (k in s'.hbm || k !in s.hbm ==> s'.live[k] == s.live[k])
    && (k !in s.hbm ==> (k in s'.dram <==> k in s.dram))
  }

  lemma MoveFrame(c: Config, o: Oracle, s: State, block: MemoryIntent, step: nat, k: string)
    requires k in s.live && k != block.objectId
    ensures Spared(s, MoveToHbm(c, o, s, block, step).0, k)
  {
    hide EnsureCapacity;
    EnforcementFrame(c, o, Seat(s, block), step, k);
  }

  lemma HandleFrame(c: Config, o: Oracle, s: State, kind: EventType, step: nat, i: MemoryIntent, k: string)
    requires k in s.live && k != i.objectId && Handle(c, o, s, kind, step, i).Ok?
    ensures Spared(s, Handle(c, o, s, kind, step, i).value.0, k)
  {
    hide EnsureCapacity, MoveToHbm, Construct, SameUpToTier, Used;
    assert SameUpToTier(s.live[k], s.live[k]) by { SameAsItself(s.live[k]); }
    match kind
    case Allocated => EnforcementFrame(c, o, Admit(s, i), step, k);
    case Accessed => AccessFrame(c, o, s, step, i, k);
    case Prefetched => PrefetchFrame(c, o, s, step, i, k);
    case MarkedDecodeCritical => MarkFrame(s, i, k);
    case MarkedCold => MarkFrame(s, i, k);
    case Committed => MarkFrame(s, i, k);
    case Spilled => SpillFrame(c, s, i, k);
    case _ =>
  }

  lemma SameAsItself(b: MemoryIntent)
    ensures SameUpToTier(b, b)
  {
  }

  lemma AccessFrame(c: Config, o: Oracle, s: State, step: nat, i: MemoryIntent, k: string)
    requires k in s.live && k != i.objectId && OnAccessed(c, o, s, step, i).Ok?
    ensures Spared(s, OnAccessed(c, o, s, step, i).value.0, k)
  {
    hide MoveToHbm, AccessedBlock, SameUpToTier;
    SameAsItself(s.live[k]);
    AccessedKeepsId(if i.objectId in s.live then s.live[i.objectId] else i, i, step);
    var block := AccessedBlock(if i.objectId in s.live then s.live[i.objectId] else i, i, step).value;
    if i.objectId !in s.hbm {
      MoveFrame(c, o, Missed(s, block), block, step, k);
    }
  }

  lemma AccessedKeepsId(x: MemoryIntent, i: MemoryIntent, step: nat)
    ensures AccessedBlock(x, i, step).Ok? ==> AccessedBlock(x, i, step).value.objectId == x.objectId
  {
  }

  lemma PrefetchFrame(c: Config, o: Oracle, s: State, step: nat, i: MemoryIntent, k: string)
    requires k in s.live && k != i.objectId && OnPrefetched(c, o, s, step, i).Ok?
    ensures Spared(s, OnPrefetched(c, o, s, step, i).value.0, k)
  {
    hide MoveToHbm, SameUpToTier;
    SameAsItself(s.live[k]);
    if i.objectId in s.live && i.objectId !in s.hbm {
      ConstructKeepsId(s.live[i.objectId], i);
      var block := PrefetchedBlock(s.live[i.objectId], i).value;
      hide PrefetchedBlock;
      MoveFrame(c, o, Fetched(s, block), block, step, k);
    }
  }

  lemma ConstructKeepsId(x: MemoryIntent, i: MemoryIntent)
    ensures PrefetchedBlock(x, i).Ok? ==> PrefetchedBlock(x, i).value.objectId == x.objectId
  {
  }

  lemma MarkFrame(s: State, i: MemoryIntent, k: string)
    requires k in s.live && k != i.objectId
    ensures OnMarkedDecodeCritical(s, i).Ok? ==> Spared(s, OnMarkedDecodeCritical(s, i).value, k)
    ensures OnMarkedCold(s, i).Ok? ==> Spared(s, OnMarkedCold(s, i).value, k)
    ensures OnCommitted(s, i).Ok? ==> Spared(s, OnCommitted(s, i).value, k)
  {
    hide Construct, CriticalBlock, ColdBlock, Spared;
    SparedByNothing(s, k);
    if i.objectId in s.live {
      var x := s.live[i.objectId];
      MarksKeepId(x, i);
      RefileFrame(s, CriticalBlock(x, i), k);
      RefileFrame(s, ColdBlock(x, i), k);
      RefileFrame(s, Construct(x.(isCommitted := true, isDraft := false)), k);
    } else {
      MarksKeepId(i, i);
      RefileFrame(s, Construct(i.(priority := DecodeCritical, pinRequested := true)), k);
    }
  }

  lemma SparedByNothing(s: State, k: string)
    requires k in s.live
    ensures Spared(s, s, k)
  {
  }

  lemma RefileFrame(s: State, r: Result<MemoryIntent>, k: string)
    requires k in s.live && (r.Ok? ==> r.value.objectId != k)
    ensures r.Ok? ==> Spared(s, Refile(s, r.value), k)
  {
    SameAsItself(s.live[k]);
    hide SameUpToTier;
  }

  lemma MarksKeepId(x: MemoryIntent, i: MemoryIntent)
    ensures CriticalBlock(x, i).Ok? ==> CriticalBlock(x, i).value.objectId == x.objectId
    ensures ColdBlock(x, i).Ok? ==> ColdBlock(x, i).value.objectId == x.objectId
    ensures var r := Construct(x.(isCommitted := true, isDraft := false)); r.Ok? ==> r.value.objectId == x.objectId
    ensures var r := Construct(x.(priority := DecodeCritical, pinRequested := true));
      r.Ok? ==> r.value.objectId == x.objectId
  {
    forall m: MemoryIntent | Construct(m).Ok? ensures Construct(m).value.objectId == m.objectId {
      ConstructId(m);
    }
    hide Construct;
  }

  lemma SpillFrame(c: Config, s: State, i: MemoryIntent, k: string)
    requires k in s.live && k != i.objectId && OnSpilled(c, s, i).Ok?
    ensures Spared(s, OnSpilled(c, s, i).value.0, k)
  {
    hide Construct;
    if i.objectId in s.live && DRAM in s.live[i.objectId].allowedTiers {
      ConstructId(s.live[i.objectId].(currentTier := DRAM));
    }
  }

  /** An event leaves the blocks it does not name alone: recency fades if the step value is new, and the tier changes
      only for a resident of HBM that is displaced. */
  lemma StepSparesOthers(c: Config, o: Oracle, s: State, e: Event, k: string)
    requires Sound(s) && Supported(e) && k in s.live && k != e.intent.objectId
    ensures Step(c, o, s, e).Ok?
    ensures var s' := Step(c, o, s, e).value;
      && k in s'.live && s'.lastDecay == e.step
      && s'.live[k] == s.live[k].(recency := Faded(s.live[k].recency, e.step == s.lastDecay),
                                  currentTier := s'.live[k].currentTier)
      && (k in s'.hbm ==> k in s.hbm)
      && (k in s'.hbm || k !in s.hbm ==> s'.live[k].currentTier == s.live[k].currentTier)
  {
    hide Step, Handle, Incoming, Decay, BlockOk, Supported;
    var i, s1, added, s2 := StepUnfolds(c, o, s, e);
    HandleFrame(c, o, s, e.kind, e.step, i, k);
    HandleKeepsDecay(c, o, s, e.kind, e.step, i);
    DecayFades(s1, e.step, k);
  }

  lemma HandleKeepsDecay(c: Config, o: Oracle, s: State, kind: EventType, step: nat, i: MemoryIntent)
    requires Handle(c, o, s, kind, step, i).Ok?
    ensures Handle(c, o, s, kind, step, i).value.0.lastDecay == s.lastDecay
  {
    hide EnsureCapacity, Construct, Used, PrefetchedBlock, AccessedBlock, CriticalBlock, ColdBlock;
    match kind
    case Allocated => EnsureCapacityEnforces(c, o, Admit(s, i), step);
    case Accessed =>
      var block := AccessedBlock(if i.objectId in s.live then s.live[i.objectId] else i, i, step).value;
      EnsureCapacityEnforces(c, o, Seat(Missed(s, block), block), step);
    case Prefetched =>
      if i.objectId in s.live && i.objectId !in s.hbm {
        var block := PrefetchedBlock(s.live[i.objectId], i).value;
        EnsureCapacityEnforces(c, o, Seat(Fetched(s, block), block), step);
      }
    case _ =>
  }

  /** The declared intent as the branches see it: merged into the stored block, field by field. */
  lemma DeclaredIs(e: Event)
    requires Supported(e)
    ensures Construct(e.intent) == Ok(Declared(e)) && BlockOk(Declared(e)) && Declared(e).objectId == e.intent.objectId
  {
    ConstructYieldsValid(e.intent);
  }

  lemma AllocationMerge(x: MemoryIntent, i: MemoryIntent)
    requires BlockOk(x) && BlockOk(i) && x.objectId == i.objectId
    ensures Construct(Merge(Allocated, x, i)) == Ok(i) && PrefetchedBlock(x, i) == Ok(i)
    ensures Construct(Merge(Prefetched, x, i)) == Ok(i)
  {
  }

  /** Merging first and rewriting then is the rewriting with the declared intent. */
  lemma AccessMerge(x: MemoryIntent, i: MemoryIntent, step: nat)
    requires BlockOk(x) && BlockOk(i) && x.objectId == i.objectId
    ensures Construct(Merge(Accessed, x, i)).Ok?
    ensures AccessedBlock(x, Construct(Merge(Accessed, x, i)).value, step) ==
      Ok(Rewritten(Accessed, x, i, step, false))
  {
  }

  lemma AccessAnew(i: MemoryIntent, step: nat)
    requires BlockOk(i)
    ensures AccessedBlock(i, i, step) == Ok(Rewritten(Accessed, i, i, step, false))
  {
  }

  lemma CriticalMerge(x: MemoryIntent, i: MemoryIntent)
    requires BlockOk(x) && BlockOk(i) && x.objectId == i.objectId
    ensures Construct(Merge(MarkedDecodeCritical, x, i)).Ok?
    ensures CriticalBlock(x, Construct(Merge(MarkedDecodeCritical, x, i)).value) ==
      Ok(Rewritten(MarkedDecodeCritical, x, i, 0, false))
    ensures Construct(i.(priority := DecodeCritical, pinRequested := true)) ==
      Ok(Rewritten(MarkedDecodeCritical, i, i, 0, false))
  {
  }

  lemma ColdMerge(x: MemoryIntent, i: MemoryIntent)
    requires BlockOk(x) && BlockOk(i) && x.objectId == i.objectId
    ensures Construct(Merge(MarkedCold, x, i)).Ok?
    ensures ColdBlock(x, Construct(Merge(MarkedCold, x, i)).value) == Ok(Rewritten(MarkedCold, x, i, 0, false))
    ensures Construct(x.(isCommitted := true, isDraft := false)) == Ok(Rewritten(Committed, x, i, 0, false))
  {
  }

  /** What was stored under the event's id, or the declared intent. */
  function Stored(s: State, e: Event): MemoryIntent {
    if e.intent.objectId in s.live then s.live[e.intent.objectId] else Declared(e)
  }

  /** The event leaves its block live. */
  predicate StaysLive(s: State, e: Event) {
    if e.intent.objectId in s.live then e.kind != Freed else e.kind in {Allocated, Accessed, MarkedDecodeCritical}
  }

  /** The block an event leaves, up to its tier and before recency fades. */
  ghost predicate Leaves(s: State, e: Event, s1: State) {
    && (e.intent.objectId in s1.live <==> StaysLive(s, e))
    && (StaysLive(s, e) ==>
          SameUpToTier(
            Rewritten(e.kind, Stored(s, e), Declared(e), e.step, e.intent.objectId in s.hbm),
            s1.live[e.intent.objectId]))
  }

  lemma Retier(a: MemoryIntent, tier: Tier, b: MemoryIntent)
    ensures SameUpToTier(a.(currentTier := tier), b) ==> SameUpToTier(a, b)
    ensures SameUpToTier(a, a)
  {
  }

  lemma MoveLeaves(c: Config, o: Oracle, s: State, block: MemoryIntent, step: nat)
    ensures var s' := MoveToHbm(c, o, s, block, step).0;
      block.objectId in s'.live && SameUpToTier(block, s'.live[block.objectId])
  {
    hide EnsureCapacity, SameUpToTier;
    EnforcementFrame(c, o, Seat(s, block), step, block.objectId);
    Retier(block, HBM, MoveToHbm(c, o, s, block, step).0.live[block.objectId]);
  }

  lemma AllocatedLeaves(c: Config, o: Oracle, s: State, e: Event)
    requires Sound(s) && Supported(e) && e.kind == Allocated
    ensures Incoming(s, e) == Ok(Declared(e))
    ensures Leaves(s, e, OnAllocated(c, o, s, e.step, Declared(e)).0)
  {
    DeclaredIs(e);
    var i := Declared(e);
    hide EnsureCapacity, SameUpToTier, Used, Declared, Supported;
    if i.objectId in s.live {
      AllocationMerge(s.live[i.objectId], i);
    }
    hide Construct, Merge, BlockOk;
    Retier(i, HBM, i);
    EnforcementFrame(c, o, Admit(s, i), e.step, i.objectId);
  }

  lemma AccessedLeaves(c: Config, o: Oracle, s: State, e: Event)
    requires Sound(s) && Supported(e) && e.kind == Accessed
    ensures Incoming(s, e).Ok? && Incoming(s, e).value.objectId == e.intent.objectId
    ensures e.intent.objectId !in s.live ==> Incoming(s, e) == Ok(Declared(e))
    ensures var x := Stored(s, e);
      AccessedBlock(x, Incoming(s, e).value, e.step) == Ok(Rewritten(Accessed, x, Declared(e), e.step, false))
    ensures var r := OnAccessed(c, o, s, e.step, Incoming(s, e).value); r.Ok? && Leaves(s, e, r.value.0)
  {
    DeclaredIs(e);
    var i := Declared(e);
    hide MoveToHbm, SameUpToTier, Declared;
    IncomingOk(s, e);
    hide Supported;
    if i.objectId in s.live {
      AccessMerge(s.live[i.objectId], i, e.step);
    } else {
      AccessAnew(i, e.step);
    }
    var block := Rewritten(Accessed, Stored(s, e), i, e.step, false);
    RewrittenId(Accessed, Stored(s, e), i, e.step, e.intent.objectId in s.hbm);
    hide Construct, Merge, BlockOk, AccessedBlock, Rewritten;
    Retier(block, HBM, block);
    MoveLeaves(c, o, Missed(s, block), block, e.step);
  }

  lemma RewrittenId(kind: EventType, x: MemoryIntent, i: MemoryIntent, step: nat, resident: bool)
    requires x.objectId == i.objectId
    ensures Rewritten(kind, x, i, step, resident).objectId == x.objectId
    ensures kind == Accessed ==> Rewritten(kind, x, i, step, resident) == Rewritten(kind, x, i, step, false)
    ensures kind in {MarkedDecodeCritical, MarkedCold, Committed} ==>
      Rewritten(kind, x, i, step, resident) == Rewritten(kind, x, i, 0, false)
  {
    RewrittenName(kind, x, i, step, resident);
  }

  lemma RewrittenName(kind: EventType, x: MemoryIntent, i: MemoryIntent, step: nat, resident: bool)
    requires x.objectId == i.objectId
    ensures Rewritten(kind, x, i, step, resident).objectId == x.objectId
  {
  }

  lemma PrefetchedLeaves(c: Config, o: Oracle, s: State, e: Event)
    requires Sound(s) && Supported(e) && e.kind == Prefetched
    ensures Incoming(s, e) == Ok(Declared(e))
    ensures var r := OnPrefetched(c, o, s, e.step, Declared(e)); r.Ok? && Leaves(s, e, r.value.0)
  {
    hide MoveToHbm, SameUpToTier, Declared, Supported;
    DeclaredIs(e);
    var i := Declared(e);
    Retier(i, HBM, i);
    if i.objectId in s.live {
      AllocationMerge(s.live[i.objectId], i);
      Retier(s.live[i.objectId], HBM, i);
      hide Construct, Merge, BlockOk, PrefetchedBlock;
      MoveLeaves(c, o, Fetched(s, i), i, e.step);
    }
  }

  lemma MarkedLeaves(s: State, e: Event)
    requires Sound(s) && Supported(e) && e.kind in {MarkedDecodeCritical, MarkedCold, Committed}
    ensures Incoming(s, e).Ok? && Incoming(s, e).value.objectId == e.intent.objectId
    ensures var i := Incoming(s, e).value;
      var r := match e.kind
        case MarkedDecodeCritical => OnMarkedDecodeCritical(s, i)
        case MarkedCold => OnMarkedCold(s, i)
        case _ => OnCommitted(s, i);
      && r.Ok? && Leaves(s, e, r.value)
      && r.value == s.(live := r.value.live)
  {
    hide SameUpToTier, Declared, Supported;
    DeclaredIs(e);
    IncomingOk(s, e);
    var i := Declared(e);
    if i.objectId in s.live {
      var x := s.live[i.objectId];
      CriticalMerge(x, i);
      ColdMerge(x, i);
    } else {
      assert BlockOk(i);
      CriticalMerge(i, i);
    }
    var block := Rewritten(e.kind, Stored(s, e), i, 0, false);
    RewrittenId(e.kind, Stored(s, e), i, e.step, i.objectId in s.hbm);
    hide Construct, Merge, BlockOk, CriticalBlock, ColdBlock, Rewritten;
    Retier(block, HBM, block);
  }

  lemma SpilledLeaves(c: Config, s: State, e: Event)
    requires Sound(s) && Supported(e) && e.kind == Spilled
    ensures Incoming(s, e).Ok? && Incoming(s, e).value.objectId == e.intent.objectId
    ensures var r := OnSpilled(c, s, Incoming(s, e).value); r.Ok? && Leaves(s, e, r.value.0)
  {
    IncomingOk(s, e);
    hide Incoming, Declared, Supported;
    if e.intent.objectId in s.live {
      Retier(s.live[e.intent.objectId], DRAM, s.live[e.intent.objectId]);
    }
  }

  lemma HandleLeaves(c: Config, o: Oracle, s: State, e: Event)
    requires Sound(s) && Supported(e)
    ensures Incoming(s, e).Ok?
    ensures var r := Handle(c, o, s, e.kind, e.step, Incoming(s, e).value); r.Ok? && Leaves(s, e, r.value.0)
  {
    IncomingOk(s, e);
    hide Incoming, Declared, Supported, OnAllocated, OnAccessed, OnPrefetched, OnSpilled, BlockOk, SameUpToTier;
    hide OnMarkedDecodeCritical, OnMarkedCold, OnCommitted, Sound;
    if e.intent.objectId in s.live {
      Retier(s.live[e.intent.objectId], HBM, s.live[e.intent.objectId]);
    }
    match e.kind
    case Allocated => AllocatedLeaves(c, o, s, e);
    case Accessed => AccessedLeaves(c, o, s, e);
    case Prefetched => PrefetchedLeaves(c, o, s, e);
    case Spilled => SpilledLeaves(c, s, e);
    case MarkedDecodeCritical => MarkedLeaves(s, e);
    case MarkedCold => MarkedLeaves(s, e);
    case Committed => MarkedLeaves(s, e);
    case _ =>
  }

  /** What a step leaves of the block its event names: rewritten as the kind of the event says, whatever was displaced
      on the way, and faded once if the step value is new. */
  lemma StepRewrites(c: Config, o: Oracle, s: State, e: Event)
    requires Sound(s) && Supported(e)
    ensures Step(c, o, s, e).Ok?
    ensures var s', id := Step(c, o, s, e).value, e.intent.objectId;
      && (id in s'.live <==> StaysLive(s, e))
      && (id in s'.live ==>
            var b := Rewritten(e.kind, Stored(s, e), Declared(e), e.step, id in s.hbm);
            s'.live[id] == b.(recency := Faded(b.recency, e.step == s.lastDecay),
                              currentTier := s'.live[id].currentTier))
  {
    hide Step, Handle, Incoming, Decay, BlockOk, Supported, Rewritten, Declared, Stored, StaysLive;
    var i, s1, added, s2 := StepUnfolds(c, o, s, e);
    HandleLeaves(c, o, s, e);
    HandleKeepsDecay(c, o, s, e.kind, e.step, i);
    if e.intent.objectId in s1.live {
      DecayFades(s1, e.step, e.intent.objectId);
    }
  }

  /** How many events come at another step value than the one before them. */
  function NewSteps(last: int, events: seq<Event>): nat
    decreases |events|
  {
    if events == [] then 0
    else (if events[0].step == last then 0 else 1) + NewSteps(events[0].step, events[1..])
  }

  /** What `n` steps of 0.03 leave of a recency. */
  function FadedTimes(recency: real, n: nat): real {
    if recency < 0.03 * n as real then 0.0 else recency - 0.03 * n as real
  }

  /** A block that no event names fades by 0.03 at every new step value until its recency is 0, and by nothing at a
      repeated one; nothing else about it changes but, if it is displaced, its tier. */
  lemma {:induction false} RunFades(c: Config, o: Oracle, s: State, events: seq<Event>, k: string)
    requires Sound(s) && SupportedTrace(events) && k in s.live
    requires forall e | e in events :: e.intent.objectId != k
    ensures Run(c, o, s, events).Ok?
    ensures var s' := Run(c, o, s, events).value;
      && k in s'.live
      && s'.live[k] == s.live[k].(recency := FadedTimes(s.live[k].recency, NewSteps(s.lastDecay, events)),
                                  currentTier := s'.live[k].currentTier)
    decreases |events|
  {
    if events != [] {
      var e := events[0];
      StepSparesOthers(c, o, s, e, k);
      StepKeeps(c, o, s, e);
      var s1 := Step(c, o, s, e).value;
      RunFades(c, o, s1, events[1..], k);
      hide Step, Sound, Supported, SupportedTrace;
      FadedMore(s.live[k].recency, e.step == s.lastDecay, NewSteps(e.step, events[1..]));
    } else {
      InUnit(s, k);
    }
  }

  lemma InUnit(s: State, k: string)
    requires Sound(s) && k in s.live
    ensures 0.0 <= s.live[k].recency
  {
    assert BlockOk(s.live[k]);
  }

  lemma FadedMore(recency: real, repeated: bool, n: nat)
    ensures FadedTimes(Faded(recency, repeated), n) == FadedTimes(recency, if repeated then n else n + 1)
  {
    assert 0.03 * (n + 1) as real == 0.03 * n as real + 0.03;
  }

  /** A block has been moved to HBM and capacity restored: it is resident there or was displaced at once. */
  ghost predicate Moved(s: State, id: string) {
    id in s.live && if id in s.hbm then s.live[id].currentTier == HBM else s.live[id].currentTier != HBM
  }

  /** Where an event leaves its block: in which residency sets, under which tier. */
  ghost predicate Places(c: Config, s: State, e: Event, s': State) {
    var id, i := e.intent.objectId, e.intent;
    match e.kind
    case Allocated =>
      if i.currentTier == HBM then Moved(s', id)
      else
        && s'.hbm == s.hbm && s'.dram == (if i.currentTier == DRAM then s.dram + {id} else s.dram)
        && id in s'.live && s'.live[id].currentTier == i.currentTier
    case Accessed =>
      if id !in s.hbm then Moved(s', id)
      else
        && s'.hbm == s.hbm && s'.dram == s.dram
        && (id in s.live ==> id in s'.live && s'.live[id].currentTier == s.live[id].currentTier)
    case Prefetched =>
      if id !in s.live || id in s.hbm then s'.hbm == s.hbm && s'.dram == s.dram
      else if c.policy.wantsPrefetch(Declared(e), e.step) then Moved(s', id)
      else s'.hbm == s.hbm && s'.dram == s.dram && id in s'.live && s'.live[id].currentTier == i.currentTier
    case Spilled =>
      if id in s.live && DRAM in s.live[id].allowedTiers then
        && s'.hbm == s.hbm - {id} && s'.dram == s.dram + {id}
        && id in s'.live && s'.live[id].currentTier == DRAM
      else s'.hbm == s.hbm && s'.dram == s.dram
    case Evicted =>
      && (if id in s.live then s'.hbm == s.hbm - {id} && s'.dram == s.dram - {id}
          else s'.hbm == s.hbm && s'.dram == s.dram)
      && (id in s.live ==> id in s'.live && s'.live[id].currentTier == s.live[id].currentTier)
    case Freed => s'.hbm == s.hbm - {id} && s'.dram == s.dram - {id}
    case _ =>
      && s'.hbm == s.hbm && s'.dram == s.dram
      && (id in s'.live ==> s'.live[id].currentTier == if id in s.live then s.live[id].currentTier else i.currentTier)
  }

  /** What an event counts: a miss for an access outside HBM, and the demand of an allocation. */
  ghost predicate Counts(s: State, e: Event, s': State) {
    var miss := e.kind == Accessed && e.intent.objectId !in s.hbm;
    && s'.misses == s.misses + (if miss then 1 else 0)
    && s'.criticalMisses == s.criticalMisses
         + (if miss && (e.intent.priority == DecodeCritical || e.intent.phase == Decode) then 1 else 0)
    && (e.kind != Allocated ==> s'.peakDemand == s.peakDemand)
    && (e.kind == Allocated ==>
          s'.peakDemand == Max(s.peakDemand, Used(s.live, s.hbm) + Replaced(s, e)
            + if e.intent.currentTier == HBM then e.intent.sizeBytes else 0))
  }

  /** By how much an allocation changes the size of a resident it replaces. */
  function Replaced(s: State, e: Event): int {
    if e.intent.objectId in s.hbm then e.intent.sizeBytes - Size(s.live, e.intent.objectId) else 0
  }

  lemma UsedRefiled(live: LiveMap, b: MemoryIntent, ids: set<string>)
    ensures Used(File(live, b), ids) ==
      Used(live, ids) + if b.objectId in ids then b.sizeBytes - Size(live, b.objectId) else 0
  {
    hide Used;
    var rest := ids - {b.objectId};
    UsedFrame(live, File(live, b), rest);
    if b.objectId in ids {
      UsedSplit(live, ids, b.objectId);
      UsedSplit(File(live, b), ids, b.objectId);
    } else {
      assert rest == ids;
    }
  }

  /** The loop displaces out of HBM only. */
  lemma EnforcementMoves(c: Config, o: Oracle, s: State, step: nat, id: string)
    requires id in s.live && id in s.hbm && s.live[id].currentTier == HBM
    ensures Moved(EnsureCapacity(c, o, s, step).0, id)
    ensures var s' := EnsureCapacity(c, o, s, step).0;
      s'.misses == s.misses && s'.criticalMisses == s.criticalMisses && s'.peakDemand == s.peakDemand
  {
    EnsureCapacityEnforces(c, o, s, step);
  }

  lemma MoveMoves(c: Config, o: Oracle, s: State, block: MemoryIntent, step: nat)
    ensures Moved(MoveToHbm(c, o, s, block, step).0, block.objectId)
    ensures var s' := MoveToHbm(c, o, s, block, step).0;
      s'.misses == s.misses && s'.criticalMisses == s.criticalMisses && s'.peakDemand == s.peakDemand
  {
    hide EnsureCapacity;
    EnforcementMoves(c, o, Seat(s, block), step, block.objectId);
  }

  lemma DeclaredFields(e: Event)
    ensures Declared(e).objectId == e.intent.objectId && Declared(e).currentTier == e.intent.currentTier
    ensures Declared(e).sizeBytes == e.intent.sizeBytes && Declared(e).priority == e.intent.priority
    ensures Declared(e).phase == e.intent.phase
  {
  }

  lemma AllocatedPlaces(c: Config, o: Oracle, s: State, e: Event)
    requires Sound(s) && Supported(e) && e.kind == Allocated
    ensures var s1 := OnAllocated(c, o, s, e.step, Declared(e)).0; Places(c, s, e, s1) && Counts(s, e, s1)
  {
    DeclaredFields(e);
    hide EnsureCapacity, Declared, Supported, Sound, Used;
    var i := Declared(e);
    UsedRefiled(s.live, i, s.hbm);
    if i.currentTier == HBM {
      EnforcementMoves(c, o, Admit(s, i), e.step, i.objectId);
    }
  }

  lemma AccessedPlaces(c: Config, o: Oracle, s: State, e: Event)
    requires Sound(s) && Supported(e) && e.kind == Accessed
    ensures Incoming(s, e).Ok?
    ensures var r := OnAccessed(c, o, s, e.step, Incoming(s, e).value);
      r.Ok? && Places(c, s, e, r.value.0) && Counts(s, e, r.value.0)
  {
    hide MoveToHbm, AccessedBlock, Rewritten, Declared, Supported, Incoming, BlockOk, Leaves, SameUpToTier, Used;
    AccessedLeaves(c, o, s, e);
    DeclaredFields(e);
    DeclaredIs(e);
    var x, i := Stored(s, e), Declared(e);
    var block := Rewritten(Accessed, x, i, e.step, false);
    AccessedFields(x, i, e.step);
    if e.intent.objectId !in s.hbm {
      MoveMoves(c, o, Missed(s, block), block, e.step);
    }
  }

  lemma AccessedFields(x: MemoryIntent, i: MemoryIntent, step: nat)
    requires x.objectId == i.objectId
    ensures var b := Rewritten(Accessed, x, i, step, false);
      b.objectId == x.objectId && b.priority == i.priority && b.phase == i.phase && b.currentTier == x.currentTier
  {
  }

  lemma PrefetchedPlaces(c: Config, o: Oracle, s: State, e: Event)
    requires Sound(s) && Supported(e) && e.kind == Prefetched
    ensures Incoming(s, e) == Ok(Declared(e))
    ensures var r := OnPrefetched(c, o, s, e.step, Declared(e));
      r.Ok? && Places(c, s, e, r.value.0) && Counts(s, e, r.value.0)
  {
    hide MoveToHbm, PrefetchedBlock, Declared, Supported, Incoming, BlockOk, Leaves, SameUpToTier, Used;
    PrefetchedLeaves(c, o, s, e);
    DeclaredFields(e);
    DeclaredIs(e);
    var i := Declared(e);
    if i.objectId in s.live && i.objectId !in s.hbm {
      assert BlockOk(s.live[i.objectId]);
      AllocationMerge(s.live[i.objectId], i);
      FetchPlaces(c, o, s, e.step, i);
      hide Fetch;
    }
  }

  lemma FetchPlaces(c: Config, o: Oracle, s: State, step: nat, i: MemoryIntent)
    ensures var s1 := Fetch(c, o, s, step, i).0;
      && s1.misses == s.misses && s1.criticalMisses == s.criticalMisses && s1.peakDemand == s.peakDemand
      && if c.policy.wantsPrefetch(i, step) then Moved(s1, i.objectId)
         else s1.hbm == s.hbm && s1.dram == s.dram && s1.live == File(s.live, i)
  {
    hide MoveToHbm;
    MoveMoves(c, o, Fetched(s, i), i, step);
  }

  lemma SpilledPlaces(c: Config, s: State, e: Event)
    requires Sound(s) && Supported(e) && e.kind == Spilled
    ensures Incoming(s, e).Ok?
    ensures var r := OnSpilled(c, s, Incoming(s, e).value);
      r.Ok? && Places(c, s, e, r.value.0) && Counts(s, e, r.value.0)
  {
    IncomingOk(s, e);
    hide Incoming, Supported;
  }

  lemma MarkedPlaces(c: Config, s: State, e: Event)
    requires Sound(s) && Supported(e) && e.kind in {MarkedDecodeCritical, MarkedCold, Committed}
    ensures Incoming(s, e).Ok?
    ensures var i := Incoming(s, e).value;
      var r := match e.kind
        case MarkedDecodeCritical => OnMarkedDecodeCritical(s, i)
        case MarkedCold => OnMarkedCold(s, i)
        case _ => OnCommitted(s, i);
      r.Ok? && Places(c, s, e, r.value) && Counts(s, e, r.value)
  {
    hide CriticalBlock, ColdBlock, Declared, Supported, Leaves, Merge;
    MarkedLeaves(s, e);
    IncomingOk(s, e);
    DeclaredFields(e);
    DeclaredIs(e);
    var i := Incoming(s, e).value;
    if e.intent.objectId in s.live {
      CriticalBlockOk(s.live[e.intent.objectId], i);
      ColdBlockOk(s.live[e.intent.objectId], i);
    } else {
      AnewTier(e);
    }
  }

  lemma AnewTier(e: Event)
    ensures Construct(e.intent).Ok? ==>
      var i := Construct(e.intent).value;
      var r := Construct(i.(priority := DecodeCritical, pinRequested := true));
      r.Ok? ==> r.value.currentTier == e.intent.currentTier
  {
  }

  lemma HandlePlaces(c: Config, o: Oracle, s: State, e: Event)
    requires Sound(s) && Supported(e)
    ensures Incoming(s, e).Ok?
    ensures var r := Handle(c, o, s, e.kind, e.step, Incoming(s, e).value);
      r.Ok? && Places(c, s, e, r.value.0) && Counts(s, e, r.value.0)
  {
    IncomingOk(s, e);
    hide Incoming, Declared, Supported, OnAllocated, OnAccessed, OnPrefetched, OnSpilled, BlockOk, Sound, Used;
    hide OnMarkedDecodeCritical, OnMarkedCold, OnCommitted;
    match e.kind
    case Allocated =>
      AllocatedLeaves(c, o, s, e);
      AllocatedPlaces(c, o, s, e);
    case Accessed => AccessedPlaces(c, o, s, e);
    case Prefetched => PrefetchedPlaces(c, o, s, e);
    case Spilled => SpilledPlaces(c, s, e);
    case MarkedDecodeCritical => MarkedPlaces(c, s, e);
    case MarkedCold => MarkedPlaces(c, s, e);
    case Committed => MarkedPlaces(c, s, e);
    case _ =>
  }

  /** Where a step leaves the block its event names, and what it counts. */
  lemma StepPlaces(c: Config, o: Oracle, s: State, e: Event)
    requires Sound(s) && Supported(e)
    ensures Step(c, o, s, e).Ok?
    ensures Places(c, s, e, Step(c, o, s, e).value) && Counts(s, e, Step(c, o, s, e).value)
  {
    hide Step, Handle, Incoming, Decay, BlockOk, Supported, Declared, Used, Sound;
    var i, s1, added, s2 := StepUnfolds(c, o, s, e);
    HandlePlaces(c, o, s, e);
  }

  /** Exactly a wanted prefetch is counted and logged: last, with the declared protection of the block. */
  ghost predicate LogsPrefetch(c: Config, s: State, e: Event, s': State) {
    var id, i := e.intent.objectId, e.intent;
    if id in s.live && id !in s.hbm && c.policy.wantsPrefetch(Declared(e), e.step) then
      && s'.prefetches == s.prefetches + 1 && s.log < s'.log
      && var entry := s'.log[|s'.log| - 1];
      && entry.action == PrefetchAction && entry.step == e.step && !entry.avoidedCritical && entry.victim.Some?
      && entry.victim.value.objectId == id && entry.victim.value.priority == i.priority
      && entry.victim.value.phase == i.phase && entry.victim.value.requestPriority == i.requestPriority
      && entry.victim.value.deadlineUs == i.deadlineUs
    else s'.prefetches == s.prefetches && s'.log == s.log
  }

  lemma FetchLogs(c: Config, o: Oracle, s: State, e: Event)
    ensures e.intent.objectId in s.live && e.intent.objectId !in s.hbm ==>
      LogsPrefetch(c, s, e, Fetch(c, o, s, e.step, Declared(e)).0)
  {
    hide EnsureCapacity, Retagged;
    var i := Declared(e);
    EnsureCapacityEnforces(c, o, Seat(Fetched(s, i), i), e.step);
  }

  lemma PrefetchLogs(c: Config, o: Oracle, s: State, e: Event)
    requires Sound(s) && Supported(e) && e.kind == Prefetched
    ensures Incoming(s, e) == Ok(Declared(e))
    ensures var r := OnPrefetched(c, o, s, e.step, Declared(e)); r.Ok? && LogsPrefetch(c, s, e, r.value.0)
  {
    hide PrefetchedBlock, Declared, Supported, Incoming, Fetch, Leaves;
    PrefetchedLeaves(c, o, s, e);
    DeclaredFields(e);
    DeclaredIs(e);
    FetchLogs(c, o, s, e);
    var i := Declared(e);
    if i.objectId in s.live && i.objectId !in s.hbm {
      AllocationMerge(s.live[i.objectId], i);
      hide LogsPrefetch;
    }
  }

  /** A step that fetches a block back counts and logs it, after whatever it displaced. */
  lemma StepLogsPrefetch(c: Config, o: Oracle, s: State, e: Event)
    requires Sound(s) && Supported(e) && e.kind == Prefetched
    ensures Step(c, o, s, e).Ok? && LogsPrefetch(c, s, e, Step(c, o, s, e).value)
  {
    hide Step, Incoming, Decay, Supported, Declared, Sound, OnPrefetched;
    var i, s1, added, s2 := StepUnfolds(c, o, s, e);
    PrefetchLogs(c, o, s, e);
  }
}
