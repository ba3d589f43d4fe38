/** The passive serving-engine adapter: a block cache beside an append-only event log (vllm_adapter.py). */
module Adapter {
  import opened Prelude
  import opened Schema
  import Residency
  import Simulation

  datatype Key = Key(requestId: string, blockId: int)

  datatype Metadata = Metadata(
    requestPriority: int, deadlineUs: Option<int>, arrivalStep: Option<int>, lastDecodeStep: Option<int>)

  /** A request never scheduled. */
  const BLANK := Metadata(50, None, None, None)

  /** What happened to the cache, in order: an event was recorded, or a finished block was dropped. */
  datatype Note = Recorded(event: Event) | Finished(key: Key)

  function KeyOf(m: MemoryIntent): Key {
    Key(m.requestId, m.blockId)
  }

  /** The events recorded. */
  function Log(history: seq<Note>): seq<Event> {
    if history == [] then []
    else
      var last := history[|history| - 1];
      Log(history[..|history| - 1]) + if last.Recorded? then [last.event] else []
  }

  function Noted(cache: map<Key, MemoryIntent>, n: Note): map<Key, MemoryIntent> {
    match n
    case Recorded(e) => cache[KeyOf(e.intent) := e.intent]
    case Finished(k) => cache - {k}
  }

  /** What the cache should hold: the intent of the last event of every block not finished since. */
  function Cache(history: seq<Note>): map<Key, MemoryIntent> {
    if history == [] then map[]
    else
      var before := Cache(history[..|history| - 1]);
      Noted(before, history[|history| - 1])
  }

  /** `i` is the last note about `k`. */
  predicate LastNote(history: seq<Note>, k: Key, i: int) {
    && 0 <= i < |history| && Concerns(history[i], k)
    && forall j | i < j < |history| :: !Concerns(history[j], k)
  }

  predicate Concerns(n: Note, k: Key) {
    match n case Recorded(e) => KeyOf(e.intent) == k case Finished(f) => f == k
  }

  /** A block is cached exactly if the last note about it is a recording, and then with that event's intent. */
  lemma {:induction false} CacheIsLastRecorded(history: seq<Note>, k: Key, i: int)
    ensures k in Cache(history) ==> exists j :: LastNote(history, k, j)
    ensures LastNote(history, k, i) ==>
      (k in Cache(history) <==> history[i].Recorded?)
      && (k in Cache(history) ==> Cache(history)[k] == history[i].event.intent)
    decreases |history|
  {
    if history != [] {
      var last := |history| - 1;
      var init := history[..last];
      CacheIsLastRecorded(init, k, i);
      if Concerns(history[last], k) {
        assert LastNote(history, k, last);
      } else {
        if k in Cache(init) {
          var j :| LastNote(init, k, j);
          assert LastNote(history, k, j);
        }
        assert LastNote(history, k, i) ==> LastNote(init, k, i);
      }
    }
  }

  lemma NoteAdded(history: seq<Note>, n: Note)
    ensures Log(history + [n]) == Log(history) + if n.Recorded? then [n.event] else []
    ensures Cache(history + [n]) == Noted(Cache(history), n)
  {
    assert (history + [n])[..|history|] == history;
  }

  function NewEvent(step: int, kind: EventType, intent: MemoryIntent): Result<Event> {
    if step < 0 then Err(NegativeStep) else Ok(Event(step, kind, intent))
  }

  function ObjectId(requestId: string, blockId: nat): string {
    requestId + ":kv:" + Decimal(blockId)
  }

  function Slack(deadlineUs: int, offset: int, requestPriority: int): int {
    Max(50, Max(50, deadlineUs / 5) - offset * 40 + requestPriority / 10 * 10)
  }

  /** Slack is a fifth of the deadline, at least 50 us, less 40 us for every place behind the first and more for every
      ten points of priority; never below 50 us. */
  lemma SlackMeans(deadlineUs: int, offset: nat, requestPriority: int, fifth: int, tens: int)
    requires 5 * fifth <= deadlineUs < 5 * fifth + 5 && 10 * tens <= requestPriority < 10 * tens + 10
    ensures var slack := Slack(deadlineUs, offset, requestPriority);
      && slack >= 50
      && (fifth >= 50 ==> slack == 50 || slack == fifth - 40 * offset + 10 * tens)
      && (fifth < 50 ==> slack == 50 || slack == 50 - 40 * offset + 10 * tens)
      && slack >= (if fifth >= 50 then fifth else 50) - 40 * offset + 10 * tens
  {
    assert deadlineUs / 5 == fifth && requestPriority / 10 == tens;
  }

  /** What no event of a block changes once it is cached. */
  predicate SameBlock(b: MemoryIntent, m: MemoryIntent) {
    && m.objectId == b.objectId && KeyOf(m) == KeyOf(b) && m.objectType == b.objectType
    && m.allowedTiers == b.allowedTiers && m.sizeBytes == b.sizeBytes && m.arrivalStep == b.arrivalStep
    && m.recomputeCostUs == b.recomputeCostUs && m.spillCostUs == b.spillCostUs && m.createdStep == b.createdStep
  }

  /** The optional arguments of one call. */
  datatype Hints = Hints(requestPriority: Option<int>, deadlineUs: Option<int>)

  const NO_HINTS := Hints(None, None)

  function Given(x: Option<int>, fallback: Option<int>): Option<int> {
    if x.Some? then x else fallback
  }

  /** The request priority a new block gets: the call's, or the request's, where 0 counts as missing. */
  function Resolved(meta: Metadata, hints: Hints): int {
    match hints.requestPriority case Some(p) => p case None => OrElse(Some(meta.requestPriority), 50)
  }

  /** A cached block looked up again: it takes the priority and the deadline given, the slack of its deadline, and what
      marks it; the rest stands. */
  predicate LooksUp(b: MemoryIntent, m: MemoryIntent, critical: bool, hints: Hints, draft: bool) {
    && SameBlock(b, m) && m.currentTier == b.currentTier && m.recency == b.recency && m.reuseWindow == b.reuseWindow
    && m.targetDecodeStep == b.targetDecodeStep && m.compressionOk == b.compressionOk
    && m.recomputeOk == b.recomputeOk && m.isCommitted == b.isCommitted
    && m.requestPriority == (match hints.requestPriority case Some(p) => p case None => b.requestPriority)
    && m.deadlineUs == (match hints.deadlineUs case Some(_) => hints.deadlineUs case None => b.deadlineUs)
    && m.slackUs == (match m.deadlineUs case Some(d) => Some(Slack(d, 0, m.requestPriority)) case None => b.slackUs)
    && m.prefetchOk == (critical || b.prefetchOk) && m.isDraft == (draft || b.isDraft)
    && m.pinRequested == (critical || b.pinRequested || m.priority == DecodeCritical)
  }

  predicate WasPinned(blocks: map<Key, MemoryIntent>, k: Key) {
    k in blocks && blocks[k].pinRequested
  }

  predicate WasDraft(blocks: map<Key, MemoryIntent>, k: Key) {
    k in blocks && blocks[k].isDraft
  }

  predicate WasCommitted(blocks: map<Key, MemoryIntent>, k: Key) {
    k in blocks && blocks[k].isCommitted
  }

  /** So much of a cached block stands when no priority and no deadline are given. */
  predicate Resumes(b: MemoryIntent, m: MemoryIntent) {
    && SameBlock(b, m) && m.requestPriority == b.requestPriority && m.deadlineUs == b.deadlineUs
    && m.slackUs == (match b.deadlineUs case Some(d) => Some(Slack(d, 0, b.requestPriority)) case None => b.slackUs)
    && m.targetDecodeStep == b.targetDecodeStep
  }

  /** The tier, the reuse window and what may be done to the block stand too. */
  predicate StillUsed(blocks: map<Key, MemoryIntent>, m: MemoryIntent) {
    var k := KeyOf(m);
    k in blocks ==>
      && m.currentTier == blocks[k].currentTier && m.reuseWindow == blocks[k].reuseWindow
      && m.compressionOk == blocks[k].compressionOk && m.recomputeOk == blocks[k].recomputeOk
  }

  /** What decoding keeps of a cached block, with the priority and deadline given, if any. */
  predicate Persists(b: MemoryIntent, m: MemoryIntent, hints: Hints) {
    && SameBlock(b, m) && m.currentTier == b.currentTier && m.isDraft == b.isDraft && m.isCommitted == b.isCommitted
    && m.compressionOk == b.compressionOk && m.recomputeOk == b.recomputeOk
    && (hints.requestPriority.None? ==> m.requestPriority == b.requestPriority)
    && (hints.deadlineUs.None? ==>
          && m.deadlineUs == b.deadlineUs
          && m.slackUs == match b.deadlineUs
                          case Some(d) => Some(Slack(d, 0, m.requestPriority))
                          case None => b.slackUs)
  }

  /** A new block: filed under its name, with the request's priority, deadline and arrival. */
  predicate Makes(m: MemoryIntent, meta: Metadata, requestId: string, blockId: int, hints: Hints, sizeBytes: int,
                  tiers: set<Tier>)
  {
    && KeyOf(m) == Key(requestId, blockId) && m.objectId == ObjectId(requestId, if blockId < 0 then 0 else blockId)
    && m.objectType == KvCache && m.allowedTiers == tiers && m.sizeBytes == sizeBytes
    && m.requestPriority == (match hints.requestPriority
                             case Some(p) => p
                             case None => if meta.requestPriority == 0 then 50 else meta.requestPriority)
    && m.deadlineUs == (match hints.deadlineUs case Some(_) => hints.deadlineUs case None => meta.deadlineUs)
    && m.slackUs == (match m.deadlineUs case Some(d) => Some(Slack(d, 0, m.requestPriority)) case None => None)
    && m.arrivalStep == meta.arrivalStep && m.targetDecodeStep == None
    && m.recomputeCostUs == Some(if m.priority == DecodeCritical then 4000 else 250) && m.spillCostUs == Some(200)
  }

  /** A block the cache did not have, as a call first sees it. */
  predicate LooksNew(m: MemoryIntent, step: int, critical: bool, draft: bool) {
    && m.currentTier == HBM && m.recency == 0.0 && m.reuseWindow == None && !m.compressionOk && !m.recomputeOk
    && m.prefetchOk == critical && m.pinRequested == (critical || m.priority == DecodeCritical)
    && m.isDraft == draft && !m.isCommitted && m.createdStep == step
  }

  /** A request's defaults once it decodes: what is given replaces what was known. */
  function Decoding(meta: Metadata, step: int, hints: Hints): Metadata {
    Metadata(if hints.requestPriority.Some? then hints.requestPriority.value else meta.requestPriority,
             if hints.deadlineUs.Some? then hints.deadlineUs else meta.deadlineUs, meta.arrivalStep, Some(step))
  }

  /** The priority that loosens the slack: the one given or known, where 0 counts as missing. */
  function UrgencyOf(meta: Metadata, hints: Hints): int {
    var known := if hints.requestPriority.Some? then hints.requestPriority.value else meta.requestPriority;
    if known == 0 then 50 else known
  }

  predicate PriorityOk(p: int) {
    0 <= p <= 100
  }

  function Notes(recorded: seq<Event>): seq<Note> {
    seq(|recorded|, i requires 0 <= i < |recorded| => Recorded(recorded[i]))
  }

  class VLLMIntentAdapter {
    const blockSize: int
    const tiers: set<Tier>
    var events: seq<Event>
    var blocks: map<Key, MemoryIntent>
    var metadata: map<string, Metadata>
    ghost var history: seq<Note>

    /** Cached records are constructed and filed under their own request and block. */
    ghost predicate Filed()
      reads `blocks
    {
      forall k | k in blocks :: KeyOf(blocks[k]) == k && Valid(blocks[k]) && blocks[k].allowedTiers == tiers
    }

    /** The log holds constructed records. */
    ghost predicate Logged()
      reads `events, `history
    {
      events == Log(history) && forall e | e in events :: Valid(e.intent) && e.intent.allowedTiers == tiers
    }

    /** What every call keeps, those that raise included: whatever was recorded and not dropped since is cached. */
    ghost predicate Inv()
      reads `events, `blocks, `history
    {
      Filed() && Logged() && Cache(history).Keys <= blocks.Keys
    }

    /** The cached blocks that are not what the log last said of them. */
    ghost function Stale(): set<Key>
      reads `blocks, `history
    {
      Differing(blocks, Cache(history))
    }

    /** The cache agrees with the log. */
    ghost predicate Agrees()
      reads `events, `blocks, `history
    {
      Inv() && Stale() == {}
    }

    /** The log's last word on each cached block has a non-negative access step. */
    ghost predicate OnTime()
      reads `history
    {
      forall k | k in Cache(history) :: Cache(history)[k].lastAccessStep >= 0
    }

    /** The log last spoke of the block with this access step. */
    ghost predicate LastLogged(k: Key, step: int)
      reads `history
    {
      k in Cache(history) && Cache(history)[k].lastAccessStep == step
    }

    /** A block was looked up and changed in the cache, and no event recorded: the block is stale now, unless the
        log's last word on it has this very access step; nothing else changed. */
    twostate predicate LookedUp(k: Key, step: int)
      reads this
    {
      && k in blocks && blocks == old(blocks)[k := blocks[k]] && blocks[k].lastAccessStep == step
      && Stale() - {k} == old(Stale()) - {k}
      && (k in Stale() || old(LastLogged(k, step)))
    }

    constructor (defaultBlockSize: int, defaultTiers: set<Tier>)
      ensures Agrees() && OnTime() && history == []
      ensures tiers == (if defaultTiers == {} then {HBM, DRAM} else defaultTiers) && blockSize == defaultBlockSize
    {
      blockSize, tiers := defaultBlockSize, if defaultTiers == {} then {HBM, DRAM} else defaultTiers;
      events, blocks, metadata, history := [], map[], map[], [];
    }

    function RequestDefaults(requestId: string): Metadata
      reads `metadata
    {
      if requestId in metadata then metadata[requestId] else BLANK
    }

    /** No request's defaults changed; at most they are on record now. */
    twostate predicate KeepsDefaults(requestId: string)
      reads this
    {
      metadata == old(metadata) || (requestId !in old(metadata) && metadata == old(metadata)[requestId := BLANK])
    }

    /** What a new block needs to be constructible. */
    predicate CanMake(meta: Metadata, requestId: string, blockId: int, hints: Hints, sizeBytes: int) {
      requestId != "" && blockId >= 0 && sizeBytes > 0 && HBM in tiers && PriorityOk(Resolved(meta, hints))
    }

    /** `_get_or_create_block` gets as far as filing the block: a cached one needs a valid priority hint, if any, a
        new one needs to be constructible. */
    predicate ReachesWith(meta: Metadata, requestId: string, blockId: int, hints: Hints)
      reads `blocks
    {
      if Key(requestId, blockId) in blocks then hints.requestPriority.Some? ==> PriorityOk(hints.requestPriority.value)
      else CanMake(meta, requestId, blockId, hints, blockSize)
    }

    predicate Reaches(requestId: string, blockId: int, hints: Hints)
      reads `blocks, `metadata
    {
      ReachesWith(RequestDefaults(requestId), requestId, blockId, hints)
    }

    /** `_record`: the log grows and the cache follows, so the block is not stale any more. */
    method Record(event: Event)
      requires Inv() && Valid(event.intent) && event.intent.allowedTiers == tiers
      modifies `events, `blocks, `history
      ensures Inv() && history == old(history) + [Recorded(event)] && events == old(events) + [event]
      ensures blocks == old(blocks)[KeyOf(event.intent) := event.intent]
      ensures Stale() == old(Stale()) - {KeyOf(event.intent)}
      ensures old(OnTime()) && event.intent.lastAccessStep >= 0 ==> OnTime()
    {
      hide Differing;
      NoteAdded(history, Recorded(event));
      SetBoth(blocks, Cache(history), KeyOf(event.intent), event.intent);
      events := events + [event];
      blocks := blocks[Key(event.intent.requestId, event.intent.blockId) := event.intent];
      history := history + [Recorded(event)];
    }

    /** `_make_intent`, with the fields the callers set in `shape` and the request's defaults for the rest. */
    method MakeIntent(requestId: string, blockId: int, shape: MemoryIntent, hints: Hints, sizeBytes: Option<int>)
      returns (r: Result<MemoryIntent>)
      modifies `metadata
      ensures KeepsDefaults(requestId)
      ensures r.Ok? <==>
        (&& CanMake(old(RequestDefaults(requestId)), requestId, blockId, hints, OrElse(sizeBytes, blockSize))
         && 0.0 <= shape.recency <= 1.0)
      ensures r.Ok? ==>
        && Valid(r.value) && KeyOf(r.value) == Key(requestId, blockId) && r.value.allowedTiers == tiers
        && r.value.currentTier == HBM && ShapedBy(shape, r.value)
        && Makes(r.value, old(RequestDefaults(requestId)), requestId, blockId, hints, OrElse(sizeBytes, blockSize),
                 tiers)
    {
      hide Construct, Shaped, Makes, Resolved, Valid;
      var meta := RequestDefaults(requestId);
      if requestId !in metadata {
        metadata := metadata[requestId := meta];
      }
      if blockId < 0 {
        return if requestId == "" then Err(EmptyRequestId) else Err(NegativeBlockId);
      }
      ShapedMakes(shape, meta, requestId, blockId, hints, OrElse(sizeBytes, blockSize), tiers);
      r := Construct(Shaped(shape, meta, requestId, blockId, hints, OrElse(sizeBytes, blockSize), tiers));
    }

    /** `_get_or_create_block`. The cache runs ahead of the log until the caller records an event. */
    method GetOrCreateBlock(step: int, requestId: string, blockId: int, phase: Phase, priority: Priority,
                            decodeCritical: bool, hints: Hints, isDraft: bool)
      returns (r: Result<MemoryIntent>)
      requires Inv()
      modifies `blocks, `metadata
      ensures Inv() && KeepsDefaults(requestId)
      ensures r.Ok? <==> old(Reaches(requestId, blockId, hints))
      ensures r.Err? ==> blocks == old(blocks)
      ensures r.Ok? ==> LookedUp(Key(requestId, blockId), step)
      ensures r.Ok? ==>
        var k, level := Key(requestId, blockId), if decodeCritical then DecodeCritical else priority;
        && blocks == old(blocks)[k := r.value]
        && KeyOf(r.value) == k && Valid(r.value) && r.value.allowedTiers == tiers
        && r.value.phase == phase && r.value.priority == level && r.value.lastAccessStep == step
        && if k in old(blocks) then LooksUp(old(blocks)[k], r.value, decodeCritical, hints, isDraft)
           else
             && Makes(r.value, old(RequestDefaults(requestId)), requestId, blockId, hints, blockSize, tiers)
             && LooksNew(r.value, step, decodeCritical, isDraft)
    {
      hide Construct, Valid, Touched, Template, KeyOf, Cache, Log, Differing, LooksUp, Makes, Slack, Resolved;
      var k := Key(requestId, blockId);
      var level := if decodeCritical then DecodeCritical else priority;
      if k in blocks {
        TouchedKeeps(blocks[k], step, phase, level, decodeCritical, hints, isDraft);
        var block :- Construct(Touched(blocks[k], step, phase, level, decodeCritical, hints, isDraft));
        SetOne(blocks, Cache(history), k, block);
        blocks := blocks[k := block];
        return Ok(block);
      }
      TemplateFields(phase, level, step);
      var block :- MakeIntent(requestId, blockId,
        Template(phase, level, step).(isDraft := isDraft, prefetchOk := decodeCritical, pinRequested := decodeCritical),
        hints, None);
      SetOne(blocks, Cache(history), k, block);
      blocks := blocks[k := block];
      return Ok(block);
    }

    /** Copies the found block with the changes of one event and records it. */
    method Emit(step: int, kind: EventType, changed: MemoryIntent) returns (r: Result<Event>)
      requires Inv() && Construct(changed).Ok? && changed.allowedTiers == tiers
      modifies `events, `blocks, `history
      ensures r.Ok? <==> step >= 0
      ensures r.Ok? ==>
        && Inv() && events == old(events) + [r.value] && history == old(history) + [Recorded(r.value)]
        && r.value == Event(step, kind, Construct(changed).value) && r.value.intent.allowedTiers == tiers
        && blocks == old(blocks)[KeyOf(changed) := r.value.intent] && Stale() == old(Stale()) - {KeyOf(changed)}
        && (old(OnTime()) && changed.lastAccessStep >= 0 ==> OnTime())
      ensures r.Err? ==> unchanged(this)
    {
      ConstructYieldsValid(changed);
      hide Construct, Cache, Log, Differing, Valid, OnTime, Filed, Logged;
      var event :- NewEvent(step, kind, Construct(changed).value);
      Record(event);
      return Ok(event);
    }

    /** Starts or restarts a request's metadata; other requests keep their defaults. */
    method OnRequestScheduled(step: int, requestId: string, requestPriority: int, deadlineUs: Option<int>)
      modifies `metadata
      ensures RequestDefaults(requestId) == Metadata(requestPriority, deadlineUs, Some(step), None)
      ensures metadata == old(metadata)[requestId := RequestDefaults(requestId)]
    {
      metadata := metadata[requestId := Metadata(requestPriority, deadlineUs, Some(step), None)];
    }

    /** The event, if there is one, was recorded, and nothing else, so its block is not stale any more; otherwise log
        and history stand. */
    twostate predicate RecordsOne(new r: Result<Event>, step: int, requestId: string, blockId: int, kind: EventType)
      reads this
    {
      var k := Key(requestId, blockId);
      && Inv() && (old(OnTime()) ==> OnTime()) && KeepsDefaults(requestId)
      && (r.Err? ==> events == old(events) && history == old(history))
      && (r.Ok? ==>
            && events == old(events) + [r.value] && history == old(history) + [Recorded(r.value)]
            && blocks == old(blocks)[k := r.value.intent] && Stale() == old(Stale()) - {k}
            && r.value.step == step && r.value.kind == kind && KeyOf(r.value.intent) == k
            && r.value.intent.allowedTiers == tiers && r.value.intent.lastAccessStep == step)
    }

    /** The outcome of a call that finds or creates the block first. It succeeds if and only if the block is reached
        and the step is not negative. If the block is reached, cached or not, at a negative step, the event is
        refused after the cache was changed; a block that is not reached leaves the cache alone. */
    twostate predicate OneEvent(new r: Result<Event>, step: int, requestId: string, blockId: int, kind: EventType)
      reads this
    {
      && RecordsOne(r, step, requestId, blockId, kind)
      && (r.Ok? <==> step >= 0 && old(Reaches(requestId, blockId, NO_HINTS)))
      && (r.Err? ==>
            if old(Reaches(requestId, blockId, NO_HINTS)) then LookedUp(Key(requestId, blockId), step)
            else blocks == old(blocks))
    }

    /** So a cache that agrees with a log that is on time agrees after the call if and only if the step is not
        negative or the block was not reached. */
    twostate lemma OneEventAgrees(new r: Result<Event>, step: int, requestId: string, blockId: int, kind: EventType)
      requires old(Agrees() && OnTime()) && OneEvent(r, step, requestId, blockId, kind)
      ensures Agrees() <==> step >= 0 || !old(Reaches(requestId, blockId, NO_HINTS))
    {
      hide Inv, Differing, Cache;
    }

    /** What the call does not set itself is as the block stood in the cache, or by the request's defaults. */
    twostate predicate Continues(m: MemoryIntent, step: int, requestId: string, blockId: int)
      reads this
    {
      var k := Key(requestId, blockId);
      if k in old(blocks) then Resumes(old(blocks)[k], m)
      else
        && Makes(m, old(RequestDefaults(requestId)), requestId, blockId, NO_HINTS, blockSize, tiers)
        && m.createdStep == step
    }

    /** No block is looked up first, so the cache stands when the call raises. */
    method OnBlockAllocated(step: int, requestId: string, blockId: int, phase: Phase, hints: Hints,
                            sizeBytes: Option<int>, isDraft: bool)
      returns (r: Result<Event>)
      requires Inv()
      modifies this
      ensures RecordsOne(r, step, requestId, blockId, Allocated) && (r.Err? ==> blocks == old(blocks))
      ensures r.Ok? <==>
        (step >= 0 && CanMake(old(RequestDefaults(requestId)), requestId, blockId, hints, OrElse(sizeBytes, blockSize)))
      ensures r.Ok? ==>
        var m := r.value.intent;
        && Makes(m, old(RequestDefaults(requestId)), requestId, blockId, hints, OrElse(sizeBytes, blockSize), tiers)
        && m.currentTier == HBM && m.phase == phase
        && m.priority == (if phase == Prefill then Warm else if isDraft then Cold else Hot)
        && m.recency == 0.2 && m.reuseWindow == Some(if phase == Prefill then 32 else 64)
        && !m.compressionOk && !m.recomputeOk && !m.prefetchOk && !m.pinRequested && !m.isCommitted
        && m.isDraft == isDraft && m.createdStep == step
    {
      hide Construct, Template, Schema.Valid, Cache, Log, Differing, OnTime, Makes;
      var priority := if phase == Prefill then Warm else if isDraft then Cold else Hot;
      TemplateFields(phase, priority, step);
      var intent :- MakeIntent(requestId, blockId,
        Template(phase, priority, step).(
          isDraft := isDraft, reuseWindow := Some(if phase == Prefill then 32 else 64), recency := 0.2),
        hints, sizeBytes);
      var event :- NewEvent(step, Allocated, intent);
      Record(event);
      return Ok(event);
    }

    method OnBlockAccessed(step: int, requestId: string, blockId: int, phase: Phase, decodeCritical: bool)
      returns (r: Result<Event>)
      requires Inv()
      modifies this
      ensures OneEvent(r, step, requestId, blockId, Accessed)
      ensures r.Ok? ==>
        var m := r.value.intent;
        && Continues(m, step, requestId, blockId) && m.phase == phase
        && m.priority == (if decodeCritical then DecodeCritical else if phase == Decode then Hot else Warm)
        && m.recency == 1.0 && m.prefetchOk == decodeCritical
        && m.pinRequested == (decodeCritical || WasPinned(old(blocks), Key(requestId, blockId)))
        && m.isDraft == WasDraft(old(blocks), Key(requestId, blockId))
        && m.isCommitted == WasCommitted(old(blocks), Key(requestId, blockId)) && StillUsed(old(blocks), m)
    {
      hide Inv, Stale, OnTime, Cache, Log, Construct, Schema.Valid, Slack, Decimal;
      var priority := if decodeCritical then DecodeCritical else if phase == Decode then Hot else Warm;
      var block :- GetOrCreateBlock(step, requestId, blockId, phase, priority, decodeCritical, NO_HINTS, false);
      ViewedConstructs(block, step, decodeCritical);
      r := Emit(step, Accessed, Viewed(block, step, decodeCritical));
    }

    method OnBlockCommitted(step: int, requestId: string, blockId: int) returns (r: Result<Event>)
      requires Inv()
      modifies this
      ensures OneEvent(r, step, requestId, blockId, Committed)
      ensures r.Ok? ==>
        var m := r.value.intent;
        && Continues(m, step, requestId, blockId) && m.phase == Verify && m.priority == Warm
        && m.isCommitted && !m.isDraft && m.pinRequested == WasPinned(old(blocks), Key(requestId, blockId))
        && StillUsed(old(blocks), m)
    {
      hide Inv, Stale, OnTime, Cache, Log, Slack, Decimal;
      var block :- GetOrCreateBlock(step, requestId, blockId, Verify, Warm, false, NO_HINTS, false);
      r := Emit(step, Committed, block.(
        isCommitted := true, isDraft := false, priority := if block.phase != Decode then Warm else Hot,
        lastAccessStep := step));
    }

    method OnBlockMarkedCold(step: int, requestId: string, blockId: int, reuseWindow: Option<int>)
      returns (r: Result<Event>)
      requires Inv()
      modifies this
      ensures OneEvent(r, step, requestId, blockId, MarkedCold)
      ensures r.Ok? ==>
        var m := r.value.intent;
        && Continues(m, step, requestId, blockId) && m.phase == Idle && m.priority == Cold
        && m.recency == 0.0 && !m.pinRequested && m.compressionOk && m.recomputeOk == !m.isCommitted
        && m.reuseWindow == reuseWindow && (m.prefetchOk <==> !(reuseWindow.Some? && reuseWindow.value >= 1000))
        && m.isDraft == WasDraft(old(blocks), Key(requestId, blockId))
        && m.isCommitted == WasCommitted(old(blocks), Key(requestId, blockId))
    {
      hide Inv, Stale, OnTime, Cache, Log, Slack, Decimal;
      var block :- GetOrCreateBlock(step, requestId, blockId, Idle, Cold, false, NO_HINTS, false);
      r := Emit(step, MarkedCold, block.(
        phase := Idle, priority := Cold, compressionOk := true, recomputeOk := !block.isCommitted,
        prefetchOk := reuseWindow.None? || reuseWindow.value < 1000, reuseWindow := reuseWindow,
        pinRequested := false, recency := 0.0));
    }

    method OnBlockFreed(step: int, requestId: string, blockId: int) returns (r: Result<Event>)
      requires Inv()
      modifies this
      ensures OneEvent(r, step, requestId, blockId, Freed)
      ensures r.Ok? ==>
        var m, k := r.value.intent, Key(requestId, blockId);
        && Continues(m, step, requestId, blockId) && m.phase == Done && m.priority == Cold
        && m.recency == 0.0 && !m.pinRequested && !m.prefetchOk
        && m.currentTier ==
             (if DRAM in tiers then DRAM else if k in old(blocks) then old(blocks)[k].currentTier else HBM)
        && m.isDraft == WasDraft(old(blocks), k) && m.isCommitted == WasCommitted(old(blocks), k)
    {
      hide Inv, Stale, OnTime, Cache, Log, Slack, Decimal;
      var block :- GetOrCreateBlock(step, requestId, blockId, Done, Cold, false, NO_HINTS, false);
      r := Emit(step, Freed, block.(
        phase := Done, priority := Cold, pinRequested := false, prefetchOk := false,
        currentTier := if DRAM in block.allowedTiers then DRAM else block.currentTier, recency := 0.0));
    }

    /** A call over several blocks records its events in order, and its blocks are not stale any more; whatever it did
        before it raised is noted. At a negative step it raises unless there are no blocks, having looked up the first
        one if that was reached; at another step a call that raises makes no block stale. */
    twostate predicate Batch(
      new r: Result<seq<Event>>, step: int, requestId: string, blockIds: seq<int>, firstReached: bool)
      reads this
    {
      && Inv() && (old(OnTime()) ==> OnTime())
      && old(events) <= events && old(history) <= history
      && (r.Ok? ==> events == old(events) + r.value && Stale() == old(Stale()) - KeysOf(requestId, blockIds))
      && (step < 0 ==> (r.Ok? <==> blockIds == []))
      && (r.Err? && step >= 0 ==> old(Stale()) - KeysOf(requestId, blockIds) <= Stale() <= old(Stale()))
      && (r.Err? && step < 0 ==>
            && blockIds != [] && history == old(history)
            && if firstReached then LookedUp(Key(requestId, blockIds[0]), step) else blocks == old(blocks))
    }

    twostate lemma BatchAgrees(
      new r: Result<seq<Event>>, step: int, requestId: string, blockIds: seq<int>, firstReached: bool)
      requires old(Agrees() && OnTime()) && Batch(r, step, requestId, blockIds, firstReached)
      ensures Agrees() <==> step >= 0 || blockIds == [] || !firstReached
    {
      hide Inv, Differing, Cache, KeysOf;
    }

    method PrefillOne(step: int, requestId: string, blockId: int) returns (r: Result<Event>)
      requires Inv()
      modifies this
      ensures OneEvent(r, step, requestId, blockId, Accessed)
      ensures r.Ok? ==> Prefills(r.value.intent) && Continues(r.value.intent, step, requestId, blockId)
      ensures r.Ok? ==> StillUsed(old(blocks), r.value.intent)
    {
      hide Inv, Stale, OnTime, Cache, Log, Slack, Decimal;
      var block :- GetOrCreateBlock(step, requestId, blockId, Prefill, Warm, false, NO_HINTS, false);
      r := Emit(step, Accessed, block.(
        phase := Prefill, priority := Warm, prefetchOk := false, pinRequested := false, recency := 0.7,
        lastAccessStep := step));
    }

    method OnPrefillStep(step: int, requestId: string, blockIds: seq<int>) returns (r: Result<seq<Event>>)
      requires Inv()
      modifies this
      ensures Batch(r, step, requestId, blockIds, blockIds != [] && old(Reaches(requestId, blockIds[0], NO_HINTS)))
      ensures KeepsDefaults(requestId)
      ensures r.Ok? ==> history == old(history) + Notes(r.value) && PrefillEvents(r.value, step, requestId, blockIds)
    {
      hide Inv, OnTime, Stale, Cache, Log, KeyOf, KeysOf, PrefillEvents, Notes, Reaches, Prefills, Resumes, Makes;
      PrefillStart(step, requestId, blockIds);
      KeysStart(requestId, blockIds);
      var recorded: seq<Event> := [];
      for i := 0 to |blockIds|
        invariant Inv() && (old(OnTime()) ==> OnTime())
        invariant events == old(events) + recorded && history == old(history) + Notes(recorded)
        invariant Stale() == old(Stale()) - KeysOf(requestId, blockIds[..i])
        invariant if i == 0 then blocks == old(blocks) && metadata == old(metadata) else step >= 0
        invariant KeepsDefaults(requestId)
        invariant |recorded| == i && PrefillEvents(recorded, step, requestId, blockIds[..i])
      {
        KeysGrow(requestId, blockIds, i);
        KeysWithin(requestId, blockIds, i);
        var e :- PrefillOne(step, requestId, blockIds[i]);
        PrefillGrows(recorded, step, requestId, blockIds, i, e);
        recorded := recorded + [e];
      }
      assert blockIds[..|blockIds|] == blockIds;
      return Ok(recorded);
    }

    method DecodeOne(step: int, requestId: string, blockId: int, offset: nat, hints: Hints, requestPriority: int)
      returns (r: Result<(Event, Event)>)
      requires Inv()
      modifies this
      ensures Inv() && (old(OnTime()) ==> OnTime()) && KeepsDefaults(requestId)
      ensures r.Ok? <==> step >= 0 && old(Reaches(requestId, blockId, hints))
      ensures r.Err? ==> events == old(events) && history == old(history)
      ensures r.Err? ==>
        if old(Reaches(requestId, blockId, hints)) then LookedUp(Key(requestId, blockId), step)
        else blocks == old(blocks)
      ensures r.Ok? ==> Stale() == old(Stale()) - {Key(requestId, blockId)}
      ensures r.Ok? ==> blocks == old(blocks)[Key(requestId, blockId) := r.value.1.intent]
      ensures r.Ok? ==>
        var (e, a) := r.value;
        && events == old(events) + [e] + [a] && history == old(history) + [Recorded(e)] + [Recorded(a)]
        && e.kind == MarkedDecodeCritical && a.kind == Accessed && e.step == step && a.step == step
        && KeyOf(e.intent) == Key(requestId, blockId) && KeyOf(a.intent) == Key(requestId, blockId)
        && Decodes(e.intent, step, offset, hints, requestPriority) && Reviews(e.intent, a.intent)
      ensures r.Ok? && Key(requestId, blockId) in old(blocks) ==>
        Persists(old(blocks)[Key(requestId, blockId)], r.value.0.intent, hints)
    {
      hide Construct, Marked, Slack, Inv, Stale, OnTime, Cache, Log, Decimal, Reviews;
      var block :- GetOrCreateBlock(step, requestId, blockId, Decode, DecodeCritical, true, hints, false);
      MarkedConstructs(block, step, offset, hints.deadlineUs, requestPriority);
      MarkedDecodes(block, step, offset, hints, requestPriority);
      var e :- Emit(step, MarkedDecodeCritical, Marked(block, step, offset, hints.deadlineUs, requestPriority));
      var a := OnBlockAccessed(step, requestId, blockId, Decode, true);
      ReviewFacts(e.intent, a.value.intent);
      return Ok((e, a.value));
    }

    /** Every active block is marked decode-critical and then accessed. */
    method OnDecodeStep(step: int, requestId: string, blockIds: seq<int>, hints: Hints)
      returns (r: Result<seq<Event>>)
      requires Inv()
      modifies this
      ensures Batch(r, step, requestId, blockIds, blockIds != [] && old(Reaches(requestId, blockIds[0], hints)))
      ensures metadata == old(metadata)[requestId := Decoding(old(RequestDefaults(requestId)), step, hints)]
      ensures r.Ok? ==> history == old(history) + Notes(r.value)
      ensures r.Ok? ==> DecodePairs(
        r.value, step, requestId, blockIds, hints, UrgencyOf(old(RequestDefaults(requestId)), hints))
    {
      hide DecodePairs, KeyOf, KeysOf, Inv, Stale, OnTime, Notes, CanMake, PriorityOk, Decodes, Reviews, Persists;
      ghost var urgency := UrgencyOf(RequestDefaults(requestId), hints);
      PairsStart(step, requestId, blockIds, hints, urgency);
      KeysStart(requestId, blockIds);
      var meta := RequestDefaults(requestId);
      meta := meta.(
        requestPriority := if hints.requestPriority.Some? then hints.requestPriority.value else meta.requestPriority,
        deadlineUs := Given(hints.deadlineUs, meta.deadlineUs), lastDecodeStep := Some(step));
      SamePriority(RequestDefaults(requestId), meta, hints);
      metadata := metadata[requestId := meta];
      CanMakeAlike(old(RequestDefaults(requestId)), meta, requestId, hints);
      var recorded: seq<Event> := [];
      NotesPair(recorded);
      for i := 0 to |blockIds|
        invariant Inv() && (old(OnTime()) ==> OnTime())
        invariant events == old(events) + recorded && history == old(history) + Notes(recorded)
        invariant Stale() == old(Stale()) - KeysOf(requestId, blockIds[..i])
        invariant metadata == old(metadata)[requestId := meta]
        invariant if i == 0 then blocks == old(blocks) else step >= 0
        invariant |recorded| == 2 * i && DecodePairs(recorded, step, requestId, blockIds[..i], hints, urgency)
      {
        KeysGrow(requestId, blockIds, i);
        KeysWithin(requestId, blockIds, i);
        var pair :- DecodeOne(step, requestId, blockIds[i], i, hints, OrElse(Some(meta.requestPriority), 50));
        PairsGrow(recorded, step, requestId, blockIds, hints, urgency, i, pair.0, pair.1);
        NotesGrow(recorded, pair.0);
        NotesGrow(recorded + [pair.0], pair.1);
        recorded := recorded + [pair.0] + [pair.1];
      }
      assert blockIds[..|blockIds|] == blockIds;
      return Ok(recorded);
    }

    /** Two sets of defaults with one priority allow the same blocks. */
    lemma CanMakeAlike(a: Metadata, b: Metadata, requestId: string, hints: Hints)
      requires Resolved(a, hints) == Resolved(b, hints)
      ensures forall id: int, size: int ::
        CanMake(a, requestId, id, hints, size) <==> CanMake(b, requestId, id, hints, size)
    {
    }

    method MarkDone(step: int, requestId: string, blockId: int) returns (r: Result<Event>)
      requires Inv()
      modifies this
      ensures OneEvent(r, step, requestId, blockId, MarkedCold)
      ensures r.Ok? ==>
        var m, k := r.value.intent, Key(requestId, blockId);
        && Ends(m) && Continues(m, step, requestId, blockId)
        && m.isDraft == WasDraft(old(blocks), k) && m.isCommitted == WasCommitted(old(blocks), k)
    {
      hide Inv, Stale, OnTime, Cache, Log, Construct, Slack, Decimal;
      var block :- GetOrCreateBlock(step, requestId, blockId, Done, Cold, false, NO_HINTS, false);
      EndedConstructs(block);
      r := Emit(step, MarkedCold, Ended(block));
    }

    method Drop(k: Key)
      requires Inv()
      modifies `blocks, `history
      ensures Inv() && blocks == old(blocks) - {k} && history == old(history) + [Finished(k)]
      ensures Stale() == old(Stale()) - {k} && (old(OnTime()) ==> OnTime())
    {
      hide Differing;
      NoteAdded(history, Finished(k));
      DropBoth(blocks, Cache(history), k);
      blocks := blocks - {k};
      history := history + [Finished(k)];
    }

    method FinishOne(step: int, requestId: string, blockId: int) returns (r: Result<(Event, Event)>)
      requires Inv()
      modifies this
      ensures Inv() && (old(OnTime()) ==> OnTime()) && KeepsDefaults(requestId)
      ensures r.Ok? <==> step >= 0 && old(Reaches(requestId, blockId, NO_HINTS))
      ensures r.Err? ==> events == old(events) && history == old(history)
      ensures r.Err? ==>
        if old(Reaches(requestId, blockId, NO_HINTS)) then LookedUp(Key(requestId, blockId), step)
        else blocks == old(blocks)
      ensures r.Ok? ==> Stale() == old(Stale()) - {Key(requestId, blockId)}
      ensures r.Ok? ==>
        var (cold, freed) := r.value;
        && events == old(events) + [cold] + [freed]
        && history == old(history) + [Recorded(cold)] + [Recorded(freed)] + [Finished(Key(requestId, blockId))]
        && cold.kind == MarkedCold && freed.kind == Freed && cold.step == step && freed.step == step + 1
        && KeyOf(cold.intent) == Key(requestId, blockId) && Ends(cold.intent) && Frees(cold.intent, freed.intent)
        && blocks == old(blocks) - {Key(requestId, blockId)}
    {
      hide Inv, OnTime, Stale, Cache, Log, CanMake, Resumes, Makes, SameBlock, Ends;
      var cold :- MarkDone(step, requestId, blockId);
      var freed := OnBlockFreed(step + 1, requestId, blockId);
      Drop(Key(requestId, blockId));
      return Ok((cold, freed.value));
    }

    /** Finished blocks are marked cold, freed one step later and dropped from the cache, and the request is
        forgotten. */
    method OnRequestFinished(step: int, requestId: string, blockIds: seq<int>) returns (r: Result<seq<Event>>)
      requires Inv()
      modifies this
      ensures Batch(r, step, requestId, blockIds, blockIds != [] && old(Reaches(requestId, blockIds[0], NO_HINTS)))
      ensures if r.Ok? then metadata == old(metadata) - {requestId} else KeepsDefaults(requestId)
      ensures r.Ok? ==> blocks.Keys == old(blocks).Keys - KeysOf(requestId, blockIds)
      ensures r.Ok? ==> FinishPairs(r.value, step, requestId, blockIds)
      ensures r.Ok? ==> history == old(history) + FinishNotes(r.value, requestId, blockIds)
    {
      hide Inv, OnTime, Stale, Cache, Log, KeysOf, KeyOf, Reaches, FinishPairs, FinishNotes, Ends, Frees;
      KeysStart(requestId, blockIds);
      FinishStart(step, requestId, blockIds);
      var recorded: seq<Event> := [];
      for i := 0 to |blockIds|
        invariant Inv() && (old(OnTime()) ==> OnTime()) && events == old(events) + recorded
        invariant Stale() == old(Stale()) - KeysOf(requestId, blockIds[..i])
        invariant if i == 0 then blocks == old(blocks) && metadata == old(metadata) else step >= 0
        invariant KeepsDefaults(requestId)
        invariant blocks.Keys == old(blocks).Keys - KeysOf(requestId, blockIds[..i])
        invariant |recorded| == 2 * i && FinishPairs(recorded, step, requestId, blockIds[..i])
        invariant history == old(history) + FinishNotes(recorded, requestId, blockIds[..i])
      {
        KeysGrow(requestId, blockIds, i);
        KeysWithin(requestId, blockIds, i);
        var pair :- FinishOne(step, requestId, blockIds[i]);
        FinishGrows(recorded, step, requestId, blockIds, i, pair.0, pair.1);
        recorded := recorded + [pair.0] + [pair.1];
      }
      assert blockIds[..|blockIds|] == blockIds;
      metadata := metadata - {requestId};
      return Ok(recorded);
    }

    /** The defaults after an unseen request is scheduled. */
    function ScheduledDefaults(step: int, requestId: string, hints: Hints): Metadata
      reads `metadata
    {
      if requestId in metadata then metadata[requestId]
      else Metadata(if hints.requestPriority.Some? then hints.requestPriority.value else 50, hints.deadlineUs,
                    Some(step), None)
    }

    /** A sequence is scheduled the first time it is seen, then decoded or prefilled. */
    method EmitSequenceAccesses(step: int, requestId: string, blockIds: seq<int>, decodeDepth: int, hints: Hints)
      returns (r: Result<seq<Event>>)
      requires Inv()
      modifies this
      ensures Batch(r, step, requestId, blockIds, blockIds != [] && old(ReachesWith(
        ScheduledDefaults(step, requestId, hints), requestId, blockIds[0],
        if decodeDepth > 0 then hints else NO_HINTS)))
      ensures r.Ok? ==> history == old(history) + Notes(r.value)
      ensures metadata == old(metadata)[requestId :=
        var scheduled := old(ScheduledDefaults(step, requestId, hints));
        if decodeDepth > 0 then Decoding(scheduled, step, hints) else scheduled]
      ensures r.Ok? ==>
        if decodeDepth > 0 then
          DecodePairs(r.value, step, requestId, blockIds, hints,
                      UrgencyOf(old(ScheduledDefaults(step, requestId, hints)), hints))
        else PrefillEvents(r.value, step, requestId, blockIds)
    {
      hide DecodePairs, PrefillEvents, Inv, OnTime, Stale, Notes, KeysOf;
      if requestId !in metadata {
        OnRequestScheduled(step, requestId, if hints.requestPriority.Some? then hints.requestPriority.value else 50,
                           hints.deadlineUs);
      }
      assert metadata == old(metadata)[requestId := old(ScheduledDefaults(step, requestId, hints))];
      if decodeDepth > 0 {
        r := OnDecodeStep(step, requestId, blockIds, hints);
      } else {
        r := OnPrefillStep(step, requestId, blockIds);
      }
    }

    /** A block that is not stale has the log's access step. */
    lemma BlockOnTime(k: Key)
      requires OnTime() && k in blocks && k !in Stale()
      ensures blocks[k].lastAccessStep >= 0
    {
      hide Cache;
    }

    lemma CachedBlock(k: Key)
      requires Inv()
      ensures k in blocks ==> Valid(blocks[k]) && KeyOf(blocks[k]) == k && blocks[k].allowedTiers == tiers
      ensures k !in blocks ==> Stale() - {k} == Stale()
    {
      StaleIsCached(blocks, Cache(history), k);
      hide Differing, Cache, Log;
    }

    method SpillOne(step: int, requestId: string, blockId: int) returns (r: Result<seq<Event>>)
      requires Inv()
      modifies this
      ensures Inv() && blocks.Keys == old(blocks).Keys
      ensures Stale() == if r.Ok? then old(Stale()) - {Key(requestId, blockId)} else old(Stale())
      ensures old(OnTime()) && Key(requestId, blockId) !in old(Stale()) ==> OnTime()
      ensures r.Ok? <==> (Key(requestId, blockId) in old(blocks) ==> step >= 0 && DRAM in tiers)
      ensures r.Err? ==> events == old(events) && history == old(history)
      ensures r.Ok? ==> events == old(events) + r.value && history == old(history) + Notes(r.value)
      ensures metadata == old(metadata)
      ensures r.Ok? ==> SpillsOf(r.value, old(blocks), step, CachedOf(old(blocks).Keys, requestId, [blockId]))
      ensures MovesDown(old(blocks), blocks, if r.Ok? then {Key(requestId, blockId)} else {})
    {
      hide Differing, Cache, Log, Construct, Valid, OnTime, Inv, Stale;
      var k := Key(requestId, blockId);
      CachedBlock(k);
      if k !in blocks {
        return Ok([]);
      }
      var b := blocks[k].(currentTier := DRAM);
      LoweredConstructs(blocks[k]);
      if OnTime() && k !in Stale() {
        BlockOnTime(k);
      }
      var _ :- Construct(b);
      var e :- Emit(step, Spilled, b);
      assert CachedOf(old(blocks).Keys, requestId, [blockId]) == [k] by {
        assert [blockId][..0] == [];
      }
      return Ok([e]);
    }

    /** Spills what is cached of a preempted sequence, in order; refused exactly if one of its blocks is cached and may
        not go to DRAM, or the step is negative. A spill records the block as it is cached, so no block is stale
        afterwards that was not before, and on success none of those listed. */
    method EmitSequenceSpill(step: int, requestId: string, blockIds: seq<int>) returns (r: Result<seq<Event>>)
      requires Inv()
      modifies this
      ensures Inv() && blocks.Keys == old(blocks).Keys && old(events) <= events && old(history) <= history
      ensures old(Stale()) - KeysOf(requestId, blockIds) <= Stale() <= old(Stale())
      ensures r.Ok? ==> Stale() == old(Stale()) - KeysOf(requestId, blockIds)
      ensures old(OnTime()) && old(Stale()) !! KeysOf(requestId, blockIds) ==> OnTime()
      ensures r.Ok? ==> events == old(events) + r.value && history == old(history) + Notes(r.value)
      ensures r.Ok? ==> SpillsOf(r.value, old(blocks), step, CachedOf(old(blocks).Keys, requestId, blockIds))
      ensures r.Ok? ==> MovesDown(old(blocks), blocks, KeysOf(requestId, blockIds))
      ensures metadata == old(metadata)
      ensures r.Ok? <==>
        (step >= 0 && DRAM in tiers) || forall id | id in blockIds :: Key(requestId, id) !in old(blocks)
    {
      hide Inv, OnTime, Stale, Cache, Log, Notes, SpillsOf, KeysOf, CachedOf, MovesDown;
      SpillsStart(old(blocks), step, requestId, blockIds);
      KeysStart(requestId, blockIds);
      var recorded: seq<Event> := [];
      for i := 0 to |blockIds|
        invariant Inv() && events == old(events) + recorded && history == old(history) + Notes(recorded)
        invariant blocks.Keys == old(blocks).Keys && Stale() == old(Stale()) - KeysOf(requestId, blockIds[..i])
        invariant old(OnTime()) && old(Stale()) !! KeysOf(requestId, blockIds) ==> OnTime()
        invariant (step >= 0 && DRAM in tiers) || forall j | 0 <= j < i :: Key(requestId, blockIds[j]) !in old(blocks)
        invariant SpillsOf(recorded, old(blocks), step, CachedOf(old(blocks).Keys, requestId, blockIds[..i]))
        invariant MovesDown(old(blocks), blocks, KeysOf(requestId, blockIds[..i])) && metadata == old(metadata)
      {
        KeysGrow(requestId, blockIds, i);
        KeysWithin(requestId, blockIds, i);
        ghost var before := blocks;
        var one :- SpillOne(step, requestId, blockIds[i]);
        SpillsGrow(old(blocks), before, blocks, recorded, one, step, requestId, blockIds, i);
        recorded := recorded + one;
      }
      assert blockIds[..|blockIds|] == blockIds;
      return Ok(recorded);
    }

    method EmitSequenceFree(step: int, requestId: string, blockIds: seq<int>) returns (r: Result<seq<Event>>)
      requires Inv()
      modifies this
      ensures Batch(r, step, requestId, blockIds, blockIds != [] && old(Reaches(requestId, blockIds[0], NO_HINTS)))
      ensures r.Ok? ==> blocks.Keys == old(blocks).Keys - KeysOf(requestId, blockIds)
      ensures if r.Ok? then metadata == old(metadata) - {requestId} else KeepsDefaults(requestId)
      ensures r.Ok? ==> FinishPairs(r.value, step, requestId, blockIds)
    {
      r := OnRequestFinished(step, requestId, blockIds);
    }
  }

  /** A new block with the fields of `shape` that callers set, and the request's defaults for the rest. */
  function Shaped(shape: MemoryIntent, meta: Metadata, requestId: string, blockId: nat, hints: Hints, sizeBytes: int,
                  tiers: set<Tier>): MemoryIntent
  {
    var priority := Resolved(meta, hints);
    var deadline := Given(hints.deadlineUs, meta.deadlineUs);
    shape.(
      objectId := ObjectId(requestId, blockId), requestId := requestId, blockId := blockId, objectType := KvCache,
      allowedTiers := tiers, currentTier := HBM, sizeBytes := sizeBytes, requestPriority := priority,
      deadlineUs := deadline,
      slackUs := match deadline case Some(d) => Some(Slack(d, 0, priority)) case None => None,
      arrivalStep := meta.arrivalStep, targetDecodeStep := None,
      recomputeCostUs := Some(if shape.priority == DecodeCritical then 4000 else 250), spillCostUs := Some(200))
  }

  /** The callers' fields are as set. */
  predicate ShapedBy(shape: MemoryIntent, m: MemoryIntent) {
    && m.phase == shape.phase && m.priority == shape.priority && m.recency == shape.recency
    && m.reuseWindow == shape.reuseWindow && m.compressionOk == shape.compressionOk
    && m.recomputeOk == shape.recomputeOk && m.prefetchOk == shape.prefetchOk
    && m.pinRequested == (shape.pinRequested || shape.priority == DecodeCritical) && m.isDraft == shape.isDraft
    && m.isCommitted == shape.isCommitted && m.createdStep == shape.createdStep
    && m.lastAccessStep == shape.lastAccessStep
  }

  lemma ShapedMakes(shape: MemoryIntent, meta: Metadata, requestId: string, blockId: nat, hints: Hints, sizeBytes: int,
                    tiers: set<Tier>)
    ensures var r := Construct(Shaped(shape, meta, requestId, blockId, hints, sizeBytes, tiers));
      && (r.Ok? <==> requestId != "" && sizeBytes > 0 && HBM in tiers && PriorityOk(Resolved(meta, hints))
                     && 0.0 <= shape.recency <= 1.0)
      && (r.Ok? ==>
            && Valid(r.value) && KeyOf(r.value) == Key(requestId, blockId) && r.value.allowedTiers == tiers
            && r.value.currentTier == HBM && ShapedBy(shape, r.value)
            && Makes(r.value, meta, requestId, blockId, hints, sizeBytes, tiers))
  {
    hide Slack, Decimal;
  }

  /** A cached block as a new call sees it. */
  function Touched(b: MemoryIntent, step: int, phase: Phase, priority: Priority, decodeCritical: bool, hints: Hints,
                   isDraft: bool): MemoryIntent
  {
    var urgency := match hints.requestPriority case Some(p) => p case None => b.requestPriority;
    var deadline := Given(hints.deadlineUs, b.deadlineUs);
    b.(phase := phase, priority := priority, requestPriority := urgency, deadlineUs := deadline,
       slackUs := match deadline case Some(d) => Some(Slack(d, 0, urgency)) case None => b.slackUs,
       prefetchOk := decodeCritical || b.prefetchOk, pinRequested := decodeCritical || b.pinRequested,
       isDraft := isDraft || b.isDraft, lastAccessStep := step)
  }

  lemma TouchedKeeps(b: MemoryIntent, step: int, phase: Phase, priority: Priority, decodeCritical: bool, hints: Hints,
                     isDraft: bool)
    requires Valid(b)
    ensures var r := Construct(Touched(b, step, phase, priority, decodeCritical, hints, isDraft));
      && (r.Ok? <==> (hints.requestPriority.Some? ==> PriorityOk(hints.requestPriority.value)))
      && (r.Ok? ==>
            && Valid(r.value) && KeyOf(r.value) == KeyOf(b) && r.value.allowedTiers == b.allowedTiers
            && r.value.phase == phase && r.value.priority == priority && r.value.lastAccessStep == step
            && LooksUp(b, r.value, decodeCritical, hints, isDraft))
  {
    ConstructYieldsValid(Touched(b, step, phase, priority, decodeCritical, hints, isDraft));
    hide Slack;
  }

  /** The keys of `blocks` that `cache` has differently, or not at all. */
  function Differing(blocks: map<Key, MemoryIntent>, cache: map<Key, MemoryIntent>): set<Key> {
    set k | k in blocks && (k !in cache || cache[k] != blocks[k])
  }

  lemma SetBoth(blocks: map<Key, MemoryIntent>, cache: map<Key, MemoryIntent>, k: Key, m: MemoryIntent)
    ensures Differing(blocks[k := m], cache[k := m]) == Differing(blocks, cache) - {k}
  {
  }

  lemma SetOne(blocks: map<Key, MemoryIntent>, cache: map<Key, MemoryIntent>, k: Key, m: MemoryIntent)
    ensures Differing(blocks[k := m], cache) - {k} == Differing(blocks, cache) - {k}
    ensures k in Differing(blocks[k := m], cache) || (k in cache && cache[k] == m)
  {
  }

  lemma DropBoth(blocks: map<Key, MemoryIntent>, cache: map<Key, MemoryIntent>, k: Key)
    ensures Differing(blocks - {k}, cache - {k}) == Differing(blocks, cache) - {k}
  {
  }

  lemma StaleIsCached(blocks: map<Key, MemoryIntent>, cache: map<Key, MemoryIntent>, k: Key)
    ensures k !in blocks ==> Differing(blocks, cache) - {k} == Differing(blocks, cache)
    ensures k in blocks && k !in Differing(blocks, cache) ==> k in cache && cache[k] == blocks[k]
  {
  }

  lemma SamePriority(a: Metadata, b: Metadata, hints: Hints)
    requires b.requestPriority == if hints.requestPriority.Some? then hints.requestPriority.value else a.requestPriority
    ensures Resolved(a, hints) == Resolved(b, hints)
  {
  }

  lemma NotesGrow(recorded: seq<Event>, e: Event)
    ensures Notes(recorded + [e]) == Notes(recorded) + [Recorded(e)]
  {
  }

  lemma NotesPair(recorded: seq<Event>)
    ensures recorded == [] ==> Notes(recorded) == []
  {
  }

  lemma LoweredConstructs(b: MemoryIntent)
    requires Valid(b)
    ensures var m := b.(currentTier := DRAM);
      Construct(m) == if DRAM in b.allowedTiers then Ok(m) else Err(TierNotAllowed)
  {
  }

  /** Those of the blocks listed that are cached, in order. */
  function CachedOf(cached: set<Key>, requestId: string, blockIds: seq<int>): seq<Key> {
    if blockIds == [] then []
    else
      var last := |blockIds| - 1;
      var k := Key(requestId, blockIds[last]);
      CachedOf(cached, requestId, blockIds[..last]) + if k in cached then [k] else []
  }

  /** Each event says of one of `keys`, in order, that it moved to DRAM, and else what the cache held. */
  predicate SpillsOf(recorded: seq<Event>, was: map<Key, MemoryIntent>, step: int, keys: seq<Key>) {
    |recorded| == |keys| && forall i | 0 <= i < |keys| ::
      && keys[i] in was && recorded[i].kind == Spilled && recorded[i].step == step
      && recorded[i].intent == was[keys[i]].(currentTier := DRAM)
  }

  /** The cached blocks among `keys` are in DRAM now, and nothing else changed. */
  predicate MovesDown(was: map<Key, MemoryIntent>, now: map<Key, MemoryIntent>, keys: set<Key>) {
    && now.Keys == was.Keys
    && forall k | k in was :: now[k] == if k in keys then was[k].(currentTier := DRAM) else was[k]
  }

  lemma SpillsStart(was: map<Key, MemoryIntent>, step: int, requestId: string, blockIds: seq<int>)
    ensures SpillsOf([], was, step, CachedOf(was.Keys, requestId, blockIds[..0]))
    ensures MovesDown(was, was, {}) && Notes([]) == []
  {
  }

  /** One more block is spilled; one listed before is in DRAM already. */
  lemma SpillsGrow(was: map<Key, MemoryIntent>, before: map<Key, MemoryIntent>, now: map<Key, MemoryIntent>,
                   recorded: seq<Event>, one: seq<Event>, step: int, requestId: string, blockIds: seq<int>, i: nat)
    requires i < |blockIds|
    requires SpillsOf(recorded, was, step, CachedOf(was.Keys, requestId, blockIds[..i]))
    requires MovesDown(was, before, KeysOf(requestId, blockIds[..i]))
    requires SpillsOf(one, before, step, CachedOf(before.Keys, requestId, [blockIds[i]]))
    requires MovesDown(before, now, {Key(requestId, blockIds[i])})
    ensures Notes(recorded + one) == Notes(recorded) + Notes(one)
    ensures SpillsOf(recorded + one, was, step, CachedOf(was.Keys, requestId, blockIds[..i + 1]))
    ensures MovesDown(was, now, KeysOf(requestId, blockIds[..i + 1]))
  {
    hide KeysOf, MovesDown, SpillsOf;
    var id := blockIds[i];
    assert blockIds[..i + 1][..i] == blockIds[..i] && [id][..0] == [];
    var k := Key(requestId, id);
    assert CachedOf(before.Keys, requestId, [id]) == if k in before then [k] else [];
    hide CachedOf;
    KeysGrow(requestId, blockIds, i);
    MovedTwice(was, before, now, KeysOf(requestId, blockIds[..i]), k);
    SpillsOnce(was, before, recorded, one, step, CachedOf(was.Keys, requestId, blockIds[..i]), k,
               KeysOf(requestId, blockIds[..i]));
  }

  lemma MovedTwice(was: map<Key, MemoryIntent>, before: map<Key, MemoryIntent>, now: map<Key, MemoryIntent>,
                   keys: set<Key>, k: Key)
    requires MovesDown(was, before, keys) && MovesDown(before, now, {k})
    ensures MovesDown(was, now, keys + {k}) && before.Keys == was.Keys
  {
  }

  lemma SpillsOnce(was: map<Key, MemoryIntent>, before: map<Key, MemoryIntent>, recorded: seq<Event>, one: seq<Event>,
                   step: int, spilled: seq<Key>, k: Key, keys: set<Key>)
    requires SpillsOf(recorded, was, step, spilled) && MovesDown(was, before, keys)
    requires SpillsOf(one, before, step, if k in before then [k] else [])
    ensures SpillsOf(recorded + one, was, step, spilled + if k in was then [k] else [])
    ensures Notes(recorded + one) == Notes(recorded) + Notes(one)
  {
  }

  /** One access per block, in order. */
  predicate PrefillEvents(recorded: seq<Event>, step: int, requestId: string, blockIds: seq<int>) {
    |recorded| == |blockIds| && forall i | 0 <= i < |blockIds| ::
      && KeyOf(recorded[i].intent) == Key(requestId, blockIds[i]) && recorded[i].kind == Accessed
      && recorded[i].step == recorded[i].intent.lastAccessStep == step && Prefills(recorded[i].intent)
  }

  lemma PrefillStart(step: int, requestId: string, blockIds: seq<int>)
    ensures PrefillEvents([], step, requestId, blockIds[..0]) && Notes([]) == []
  {
  }

  lemma PrefillGrows(recorded: seq<Event>, step: int, requestId: string, blockIds: seq<int>, i: nat, e: Event)
    requires i < |blockIds| && PrefillEvents(recorded, step, requestId, blockIds[..i])
    requires KeyOf(e.intent) == Key(requestId, blockIds[i]) && e.kind == Accessed
    requires e.step == e.intent.lastAccessStep == step && Prefills(e.intent)
    ensures PrefillEvents(recorded + [e], step, requestId, blockIds[..i + 1])
    ensures Notes(recorded + [e]) == Notes(recorded) + [Recorded(e)]
  {
    hide Prefills;
    assert blockIds[..i + 1] == blockIds[..i] + [blockIds[i]];
  }

  /** A MARKED_COLD at the step and a FREED at the next, for each block in order. */
  predicate FinishPairs(recorded: seq<Event>, step: int, requestId: string, blockIds: seq<int>) {
    |recorded| == 2 * |blockIds| && forall i | 0 <= i < |blockIds| ::
      && recorded[2 * i].kind == MarkedCold && recorded[2 * i + 1].kind == Freed
      && recorded[2 * i].step == step && recorded[2 * i + 1].step == step + 1
      && KeyOf(recorded[2 * i].intent) == Key(requestId, blockIds[i])
      && Ends(recorded[2 * i].intent) && Frees(recorded[2 * i].intent, recorded[2 * i + 1].intent)
  }

  /** The notes of finished blocks: two recordings, then the drop. */
  function FinishNotes(recorded: seq<Event>, requestId: string, blockIds: seq<int>): seq<Note>
    requires |recorded| == 2 * |blockIds|
  {
    if blockIds == [] then []
    else
      var n := |blockIds| - 1;
      FinishNotes(recorded[..2 * n], requestId, blockIds[..n])
      + [Recorded(recorded[2 * n])] + [Recorded(recorded[2 * n + 1])] + [Finished(Key(requestId, blockIds[n]))]
  }

  lemma FinishStart(step: int, requestId: string, blockIds: seq<int>)
    ensures FinishPairs([], step, requestId, blockIds[..0]) && FinishNotes([], requestId, blockIds[..0]) == []
  {
  }

  lemma FinishGrows(recorded: seq<Event>, step: int, requestId: string, blockIds: seq<int>, i: nat, c: Event, f: Event)
    requires i < |blockIds| && FinishPairs(recorded, step, requestId, blockIds[..i])
    requires c.kind == MarkedCold && f.kind == Freed && c.step == step && f.step == step + 1
    requires KeyOf(c.intent) == Key(requestId, blockIds[i]) && Ends(c.intent) && Frees(c.intent, f.intent)
    ensures |recorded| == 2 * i && |blockIds[..i + 1]| == i + 1
    ensures FinishPairs(recorded + [c] + [f], step, requestId, blockIds[..i + 1])
    ensures FinishNotes(recorded + [c] + [f], requestId, blockIds[..i + 1]) ==
      FinishNotes(recorded, requestId, blockIds[..i]) + [Recorded(c)] + [Recorded(f)]
      + [Finished(Key(requestId, blockIds[i]))]
  {
    hide KeyOf, Ends, Frees;
    var all, ids := recorded + [c] + [f], blockIds[..i + 1];
    assert ids[..i] == blockIds[..i] && all[..2 * i] == recorded;
  }

  lemma TemplateFields(phase: Phase, priority: Priority, step: int)
    ensures var m := Template(phase, priority, step);
      && m.phase == phase && m.priority == priority && m.recency == 0.0 && m.reuseWindow == None
      && m.createdStep == m.lastAccessStep == step
      && !m.compressionOk && !m.recomputeOk && !m.prefetchOk && !m.pinRequested && !m.isDraft && !m.isCommitted
  {
  }

  /** The record `_make_intent` starts from; the adapter fills in what identifies the block. */
  function Template(phase: Phase, priority: Priority, step: int): MemoryIntent {
    MemoryIntent(
      objectId := "", requestId := "", blockId := 0, objectType := KvCache, phase := phase, priority := priority,
      allowedTiers := {}, currentTier := HBM, sizeBytes := 0, requestPriority := 0, recency := 0.0, deadlineUs := None,
      slackUs := None, arrivalStep := None, targetDecodeStep := None, reuseWindow := None, recomputeCostUs := None,
      spillCostUs := None, compressionOk := false, recomputeOk := false, prefetchOk := false, pinRequested := false,
      isDraft := false, isCommitted := false, createdStep := step, lastAccessStep := step)
  }

  /** A block under decoding: the `offset`-th of the active ones. */
  function Marked(b: MemoryIntent, step: int, offset: nat, deadlineUs: Option<int>, requestPriority: int)
    : MemoryIntent
  {
    b.(phase := Decode, priority := DecodeCritical, pinRequested := true, prefetchOk := true,
       deadlineUs := Given(deadlineUs, b.deadlineUs),
       slackUs := match deadlineUs case Some(d) => Some(Slack(d, offset, requestPriority)) case None => b.slackUs,
       targetDecodeStep := Some(step + offset), reuseWindow := Some(1 + offset),
       recency := RMax(0.8, 1.0 - offset as real * 0.1), lastAccessStep := step)
  }

  lemma MarkedConstructs(b: MemoryIntent, step: int, offset: nat, deadlineUs: Option<int>, requestPriority: int)
    requires Valid(b)
    ensures var m := Marked(b, step, offset, deadlineUs, requestPriority);
      && Construct(m) == Ok(m) && KeyOf(m) == KeyOf(b) && m.allowedTiers == b.allowedTiers
      && m.lastAccessStep == step
  {
    ConstructYieldsValid(Marked(b, step, offset, deadlineUs, requestPriority));
  }

  /** A block just accessed. */
  function Viewed(b: MemoryIntent, step: int, decodeCritical: bool): MemoryIntent {
    b.(recency := 1.0, lastAccessStep := step, prefetchOk := decodeCritical,
       pinRequested := decodeCritical || b.pinRequested)
  }

  lemma ViewedConstructs(b: MemoryIntent, step: int, decodeCritical: bool)
    requires Valid(b)
    ensures var m := Viewed(b, step, decodeCritical);
      && Construct(m) == Ok(m) && KeyOf(m) == KeyOf(b) && m.allowedTiers == b.allowedTiers
      && m.lastAccessStep == step && m.recency == 1.0 && m.prefetchOk == decodeCritical
      && (decodeCritical ==> m.pinRequested)
  {
    ConstructYieldsValid(Viewed(b, step, decodeCritical));
  }

  /** A finished block: done, cold, unpinned and not worth fetching or recomputing. */
  predicate Ends(m: MemoryIntent) {
    && m.phase == Done && m.priority == Cold && m.recency == 0.0 && !m.pinRequested && !m.prefetchOk
    && m.compressionOk && !m.recomputeOk
  }

  /** A finished block as it is freed: as it was marked cold, and in DRAM if it may be there. */
  predicate Frees(c: MemoryIntent, f: MemoryIntent) {
    && Resumes(c, f) && f.phase == Done && f.priority == Cold && f.recency == 0.0 && !f.pinRequested && !f.prefetchOk
    && f.currentTier == (if DRAM in c.allowedTiers then DRAM else c.currentTier)
    && f.isDraft == c.isDraft && f.isCommitted == c.isCommitted
  }

  /** A block accessed by a prefill step. */
  predicate Prefills(m: MemoryIntent) {
    m.phase == Prefill && m.priority == Warm && m.recency == 0.7 && !m.pinRequested && !m.prefetchOk
  }

  function Ended(b: MemoryIntent): MemoryIntent {
    b.(phase := Done, priority := Cold, pinRequested := false, prefetchOk := false, compressionOk := true,
       recomputeOk := false, recency := 0.0)
  }

  lemma EndedConstructs(b: MemoryIntent)
    requires Valid(b)
    ensures Construct(Ended(b)) == Ok(Ended(b)) && KeyOf(Ended(b)) == KeyOf(b)
    ensures Ended(b).allowedTiers == b.allowedTiers && Ended(b).lastAccessStep == b.lastAccessStep
    ensures Ends(Ended(b))
  {
    ConstructYieldsValid(Ended(b));
  }

  /** A block under decoding, the `offset`-th of the active ones, as it is marked. */
  predicate Decodes(m: MemoryIntent, step: int, offset: nat, hints: Hints, urgency: int) {
    && m.phase == Decode && m.priority == DecodeCritical && m.pinRequested && m.prefetchOk
    && m.targetDecodeStep == Some(step + offset) && m.reuseWindow == Some(1 + offset) && m.lastAccessStep == step
    && m.recency == (if offset == 0 then 1.0 else if offset == 1 then 0.9 else 0.8)
    && (hints.requestPriority.Some? ==> m.requestPriority == hints.requestPriority.value)
    && (hints.deadlineUs.Some? ==>
          m.deadlineUs == hints.deadlineUs && m.slackUs == Some(Slack(hints.deadlineUs.value, offset, urgency)))
  }

  /** The access that follows: most recent now, with the slack of the deadline alone, and else the same. */
  predicate Reviews(e: MemoryIntent, a: MemoryIntent) {
    a == e.(recency := 1.0,
            slackUs := match e.deadlineUs case Some(d) => Some(Slack(d, 0, e.requestPriority)) case None => e.slackUs)
  }

  lemma ReviewFacts(e: MemoryIntent, a: MemoryIntent)
    requires Resumes(e, a) && StillUsed(map[KeyOf(e) := e], a)
    requires a.phase == e.phase && a.priority == e.priority && a.recency == 1.0 && a.prefetchOk == e.prefetchOk
    requires a.pinRequested == e.pinRequested && a.isDraft == e.isDraft && a.isCommitted == e.isCommitted
    requires a.lastAccessStep == e.lastAccessStep
    ensures Reviews(e, a)
  {
    hide Slack;
  }

  lemma MarkedDecodes(b: MemoryIntent, step: int, offset: nat, hints: Hints, urgency: int)
    requires hints.requestPriority.Some? ==> b.requestPriority == hints.requestPriority.value
    ensures Decodes(Marked(b, step, offset, hints.deadlineUs, urgency), step, offset, hints, urgency)
    ensures forall was: MemoryIntent | LooksUp(was, b, true, hints, false) ::
      Persists(was, Marked(b, step, offset, hints.deadlineUs, urgency), hints)
  {
    hide Slack;
  }

  /** Events come in pairs, one pair per block: the marking and the access that follows. */
  predicate DecodePairs(recorded: seq<Event>, step: int, requestId: string, blockIds: seq<int>, hints: Hints,
                        urgency: int)
  {
    |recorded| == 2 * |blockIds| && forall i | 0 <= i < |blockIds| ::
      && recorded[2 * i].kind == MarkedDecodeCritical && recorded[2 * i + 1].kind == Accessed
      && recorded[2 * i].step == recorded[2 * i + 1].step == step
      && KeyOf(recorded[2 * i].intent) == Key(requestId, blockIds[i])
      && Decodes(recorded[2 * i].intent, step, i, hints, urgency)
      && Reviews(recorded[2 * i].intent, recorded[2 * i + 1].intent)
  }

  lemma PairsGrow(recorded: seq<Event>, step: int, requestId: string, blockIds: seq<int>, hints: Hints, urgency: int,
                  i: nat, e: Event, a: Event)
    requires i < |blockIds| && DecodePairs(recorded, step, requestId, blockIds[..i], hints, urgency)
    requires e.kind == MarkedDecodeCritical && a.kind == Accessed && e.step == a.step == step
    requires KeyOf(e.intent) == Key(requestId, blockIds[i])
    requires Decodes(e.intent, step, i, hints, urgency) && Reviews(e.intent, a.intent)
    ensures DecodePairs(recorded + [e] + [a], step, requestId, blockIds[..i + 1], hints, urgency)
  {
    hide Decodes, Reviews;
    assert blockIds[..i + 1] == blockIds[..i] + [blockIds[i]];
  }

  lemma PairsStart(step: int, requestId: string, blockIds: seq<int>, hints: Hints, urgency: int)
    ensures DecodePairs([], step, requestId, blockIds[..0], hints, urgency)
  {
  }

  function KeysOf(requestId: string, blockIds: seq<int>): set<Key> {
    set id | id in blockIds :: Key(requestId, id)
  }

  lemma KeysStart(requestId: string, blockIds: seq<int>)
    ensures KeysOf(requestId, blockIds[..0]) == {}
  {
  }

  lemma KeysWithin(requestId: string, blockIds: seq<int>, i: nat)
    requires i < |blockIds|
    ensures Key(requestId, blockIds[i]) in KeysOf(requestId, blockIds)
    ensures KeysOf(requestId, blockIds[..i]) <= KeysOf(requestId, blockIds)
  {
  }

  lemma KeysGrow(requestId: string, blockIds: seq<int>, i: nat)
    requires i < |blockIds|
    ensures KeysOf(requestId, blockIds[..i + 1]) == KeysOf(requestId, blockIds[..i]) + {Key(requestId, blockIds[i])}
  {
    assert blockIds[..i + 1] == blockIds[..i] + [blockIds[i]];
  }

  /** Whatever calls raised on the way: when the default tiers hold HBM and somewhere to fall back to, the adapter's
      log can be replayed; no event raises, under any policy, capacities and iteration order. */
  lemma LogReplays(a: VLLMIntentAdapter, c: Simulation.Config, o: Simulation.Oracle)
    requires a.Inv() && HBM in a.tiers && !(a.tiers <= {HBM})
    ensures var r := Simulation.Run(c, o, Simulation.Initial(), a.events);
      r.Ok? && Residency.Sound(r.value) && r.value.live.Keys == Residency.KeysAfter({}, a.events)
  {
    hide Simulation.Run, Cache, Log, Residency.KeysAfter;
    forall e | e in a.events ensures Residency.Supported(e) {
      ConstructYieldsValid(e.intent);
    }
    assert Simulation.Initial().live.Keys == {};
    Residency.RunKeeps(c, o, Simulation.Initial(), a.events);
  }
}
