/** The declared intent of one memory object and its validated construction (schema.py). */
module Schema {
  import opened Prelude

  datatype ObjectType = KvCache | Weight | Activation | Scratch

  datatype Phase = Prefill | Decode | Verify | Rollback | Done | Idle

  datatype Priority = DecodeCritical | Hot | Warm | Cold

  datatype Tier = HBM | DRAM | CXL | NVME

  datatype EventType =
    | Allocated | Accessed | Committed | MarkedDecodeCritical | MarkedCold
    | Spilled | Prefetched | Miss | Evicted | Freed

  datatype MemoryIntent = MemoryIntent(
    objectId: string,
    requestId: string,
    blockId: int,
    objectType: ObjectType,
    phase: Phase,
    priority: Priority,
    allowedTiers: set<Tier>,
    currentTier: Tier,
    sizeBytes: int,
    requestPriority: int,
    recency: real,
    deadlineUs: Option<int>,
    slackUs: Option<int>,
    arrivalStep: Option<int>,
    targetDecodeStep: Option<int>,
    reuseWindow: Option<int>,
    recomputeCostUs: Option<int>,
    spillCostUs: Option<int>,
    compressionOk: bool,
    recomputeOk: bool,
    prefetchOk: bool,
    pinRequested: bool,
    isDraft: bool,
    isCommitted: bool,
    createdStep: int,
    lastAccessStep: int
  )

  datatype Event = Event(step: nat, kind: EventType, intent: MemoryIntent)

  /** The dataclass constructor: every field check in order, then decode-critical objects are pinned.
      `copy_with` builds a changed record and runs it again. */
  function Construct(m: MemoryIntent): Result<MemoryIntent> {
    if m.objectId == "" then Err(EmptyObjectId)
    else if m.objectType == KvCache && m.requestId == "" then Err(EmptyRequestId)
    else if m.blockId < 0 then Err(NegativeBlockId)
    else if m.sizeBytes <= 0 then Err(NonPositiveSize)
    else if m.allowedTiers == {} then Err(NoAllowedTiers)
    else if m.currentTier !in m.allowedTiers then Err(TierNotAllowed)
    else if !(0 <= m.requestPriority <= 100) then Err(RequestPriorityOutOfRange)
    else if !(0.0 <= m.recency <= 1.0) then Err(RecencyOutOfRange)
    else Ok(if m.priority == DecodeCritical then m.(pinRequested := true) else m)
  }

  /** What every constructed record satisfies. */
  predicate Valid(m: MemoryIntent) {
    && m.objectId != ""
    && (m.objectType == KvCache ==> m.requestId != "")
    && 0 <= m.blockId
    && 0 < m.sizeBytes
    && m.currentTier in m.allowedTiers
    && 0 <= m.requestPriority <= 100
    && 0.0 <= m.recency <= 1.0
    && (m.priority == DecodeCritical ==> m.pinRequested)
  }

  predicate IsDecodeCritical(m: MemoryIntent) {
    m.priority == DecodeCritical || m.phase == Decode
  }

  /** The contribution of a flag. */
  function When(flag: bool, weight: real): real {
    if flag then weight else 0.0
  }

  /** How far below the limit an optional quantity is, in units; a missing one contributes nothing. */
  function Below(x: Option<int>, limit: real, unit: real): real
    requires unit > 0.0
  {
    if x.Some? then RMax(0.0, limit - x.value as real) / unit else 0.0
  }

  /** An optional quantity in units, up to a cap; a missing one contributes nothing. */
  function UpTo(x: Option<int>, unit: real, cap: real): real
    requires unit > 0.0
  {
    if x.Some? then RMin(x.value as real / unit, cap) else 0.0
  }

  function DecodeDistance(target: Option<int>, step: int): Option<int> {
    match target case Some(t) => Some(Max(t - step, 0)) case None => None
  }

  function PhaseProtection(phase: Phase): real {
    if phase == Decode then 120.0 else if phase == Verify then 30.0 else 0.0
  }

  function PriorityProtection(priority: Priority): real {
    match priority case DecodeCritical => 300.0 case Hot => 80.0 case Warm => 30.0 case Cold => 0.0
  }

  /** Higher means more urgent to protect. */
  function DeadlineScore(m: MemoryIntent, step: int): real {
    Below(m.deadlineUs, 10000.0, 20.0)
    + Below(m.slackUs, 5000.0, 10.0)
    + Below(DecodeDistance(m.targetDecodeStep, step), 64.0, 1.0)
    + m.requestPriority as real * 2.0
    + PhaseProtection(m.phase)
    + PriorityProtection(m.priority)
    + UpTo(m.recomputeCostUs, 25.0, 250.0)
    + When(m.pinRequested, 400.0)
  }

  function PhaseRelease(phase: Phase): real {
    if phase == Done then 140.0 else if phase == Idle then 60.0 else 0.0
  }

  /** Higher means evicting this block is more dangerous. */
  function EvictionRisk(m: MemoryIntent, step: int): real {
    DeadlineScore(m, step)
    + m.recency * 40.0
    + When(m.isCommitted, 15.0)
    - When(m.isDraft && !m.isCommitted, 35.0)
    - When(m.recomputeOk, 25.0)
    - When(m.compressionOk, 15.0)
    - UpTo(m.reuseWindow, 8.0, 80.0)
    - PhaseRelease(m.phase)
  }

  /** Construction accepts exactly the records that are valid up to the pin flag, never changes anything
      else, and a second construction changes nothing. */
  lemma ConstructYieldsValid(m: MemoryIntent)
    ensures Construct(m).Ok? <==> Valid(m.(pinRequested := true))
    ensures Construct(m).Ok? ==>
      var r := Construct(m).value;
      && Valid(r)
      && r == m.(pinRequested := m.pinRequested || m.priority == DecodeCritical)
      && Construct(r) == Ok(r)
  {
  }

  lemma ConstructId(m: MemoryIntent)
    requires Construct(m).Ok?
    ensures Construct(m).value.objectId == m.objectId
  {
  }
}
