/** Importing request traces as intent events (trace_importer.py). */
module Importer {
  import opened Prelude
  import opened Schema
  import Sorting

  datatype RequestRecord = RequestRecord(
    requestId: string, arrivalMs: int, startMs: Option<int>, endMs: Option<int>,
    promptTokens: int, generatedTokens: int, requestPriority: int, deadlineMs: Option<int>, status: string)

  /** What the record's own constructor checks. */
  predicate RecordOk(r: RequestRecord) {
    && r.requestId != "" && r.arrivalMs >= 0 && r.promptTokens >= 0 && r.generatedTokens >= 0
    && 0 <= r.requestPriority <= 100
    && (r.deadlineMs.Some? ==> r.deadlineMs.value > 0)
  }

  /** `bytesPerToken` is what the model configuration's product comes to; it is positive. */
  datatype Settings = Settings(bytesPerToken: int, blockSize: int, decodeBlockTokens: int, maxBlocks: Option<int>)

  datatype ImportError = BadBlockSize | BadDecodeBlockTokens | BadMaxBlocks

  datatype Imported = Events(events: seq<Event>) | Refused(reason: ImportError)

  function Ceil(a: int, b: int): (r: int)
    requires b > 0
    ensures b * (r - 1) < a <= b * r
  {
    (a + b - 1) / b
  }

  /** How a request's KV bytes are laid out: `hot` is the number of tail blocks still used for decoding. */
  datatype Plan = Plan(blocks: int, size: int, hot: int)

  function TotalBytes(s: Settings, r: RequestRecord): int {
    s.bytesPerToken * (r.promptTokens + r.generatedTokens)
  }

  predicate SettingsOk(s: Settings) {
    s.bytesPerToken > 0 && s.blockSize > 0 && s.decodeBlockTokens > 0 && (s.maxBlocks.Some? ==> s.maxBlocks.value > 0)
  }

  function PlanFor(s: Settings, r: RequestRecord): (p: Plan)
    requires SettingsOk(s)
    ensures 1 <= p.hot <= p.blocks
  {
    var total := TotalBytes(s, r);
    var wanted := Max(1, Ceil(total, s.blockSize));
    var capped := s.maxBlocks.Some? && wanted > s.maxBlocks.value;
    var blocks := if capped then s.maxBlocks.value else wanted;
    var size := if capped then Ceil(total, blocks) else s.blockSize;
    Plan(blocks, size, Min(Max(1, Ceil(Max(r.generatedTokens, 1), s.decodeBlockTokens)), blocks))
  }

  /** The blocks hold every byte of the request. Either they have the configured size and none is spare, or the
      cap applies and they are the smallest that fit; the hot tail is as long as the generated tokens need. */
  lemma PlanCovers(s: Settings, r: RequestRecord)
    requires SettingsOk(s) && RecordOk(r)
    ensures var p, total := PlanFor(s, r), s.bytesPerToken * (r.promptTokens + r.generatedTokens);
      && p.blocks * p.size >= total
      && (s.maxBlocks.Some? ==> p.blocks <= s.maxBlocks.value)
      && (if p.size == s.blockSize then p.blocks == 1 || (p.blocks - 1) * p.size < total
          else && s.maxBlocks == Some(p.blocks) && p.size > s.blockSize
               && p.blocks * s.blockSize < total && p.blocks * (p.size - 1) < total)
      && (p.hot < p.blocks ==> p.hot * s.decodeBlockTokens >= r.generatedTokens)
      && (p.hot == 1 || (p.hot - 1) * s.decodeBlockTokens < r.generatedTokens)
  {
    assert TotalBytes(s, r) == s.bytesPerToken * (r.promptTokens + r.generatedTokens);
    hide TotalBytes, Ceil;
    var total, p := TotalBytes(s, r), PlanFor(s, r);
    var wanted := Max(1, Ceil(total, s.blockSize));
    LeastCount(total, s.blockSize);
    if s.maxBlocks.Some? && wanted > s.maxBlocks.value {
      TotalNonNegative(s, r);
      CapBinds(total, s.blockSize, s.maxBlocks.value);
      assert p.blocks == s.maxBlocks.value && p.size == Ceil(total, p.blocks);
    } else {
      assert p.blocks == wanted && p.size == s.blockSize;
    }
    HotCovers(r.generatedTokens, s.decodeBlockTokens, p.blocks);
  }

  lemma HotCovers(tokens: int, perBlock: int, blocks: int)
    requires tokens >= 0 && perBlock > 0 && blocks > 0
    ensures var hot := Min(Max(1, Ceil(Max(tokens, 1), perBlock)), blocks);
      && (hot < blocks ==> hot * perBlock >= tokens)
      && (hot == 1 || (hot - 1) * perBlock < tokens)
  {
    hide Ceil;
    var wanted := Max(1, Ceil(Max(tokens, 1), perBlock));
    LeastCount(Max(tokens, 1), perBlock);
    Fewer(wanted, Min(wanted, blocks), perBlock);
  }

  lemma Fewer(n: int, k: int, size: int)
    requires k <= n && size > 0
    ensures (k - 1) * size <= (n - 1) * size
  {
  }

  lemma LeastCount(total: int, size: int)
    requires size > 0
    ensures var n := Max(1, Ceil(total, size)); n * size >= total && (n == 1 || (n - 1) * size < total)
  {
    var n := Ceil(total, size);
    assert size * n == n * size && size * (n - 1) == (n - 1) * size;
    assert n <= 1 ==> size * n <= size * 1;
  }

  lemma TotalNonNegative(s: Settings, r: RequestRecord)
    requires SettingsOk(s) && RecordOk(r)
    ensures TotalBytes(s, r) >= 0
  {
  }

  /** Fewer blocks than needed at the configured size must be larger. */
  lemma CapBinds(total: int, blockSize: int, cap: int)
    requires total >= 0 && blockSize > 0 && 0 < cap < Max(1, Ceil(total, blockSize))
    ensures cap * blockSize < total && Ceil(total, cap) > blockSize
    ensures cap * Ceil(total, cap) >= total && cap * (Ceil(total, cap) - 1) < total
  {
    var wanted, size := Ceil(total, blockSize), Ceil(total, cap);
    Commutes(cap, size, blockSize, wanted);
    hide Ceil;
    assert size <= blockSize ==> cap * size <= cap * blockSize;
  }

  lemma Commutes(cap: int, size: int, blockSize: int, wanted: int)
    requires 0 < blockSize && 0 < cap
    ensures cap <= wanted - 1 ==> cap * blockSize <= blockSize * (wanted - 1)
    ensures size <= blockSize ==> cap * size <= cap * blockSize
  {
  }

  function ImportName(requestId: string, blockId: nat): string {
    requestId + ":import:" + Decimal(blockId)
  }

  function Age(p: Plan, blockId: int): real {
    blockId as real / Max(p.blocks - 1, 1) as real
  }

  function DeadlineUs(r: RequestRecord): Option<int> {
    match r.deadlineMs case Some(d) => Some(d * 1000) case None => None
  }

  function Later(d: Option<int>, us: int): Option<int> {
    match d case Some(v) => Some(v - us) case None => None
  }

  /** The fields all of a request's intents share. */
  function BaseIntent(r: RequestRecord, p: Plan, blockId: nat, step: nat): MemoryIntent {
    MemoryIntent(
      objectId := ImportName(r.requestId, blockId), requestId := r.requestId, blockId := blockId,
      objectType := KvCache, phase := Prefill, priority := Cold, allowedTiers := {HBM, DRAM}, currentTier := HBM,
      sizeBytes := p.size, requestPriority := r.requestPriority, recency := 0.0, deadlineUs := None, slackUs := None,
      arrivalStep := Some(r.arrivalMs), targetDecodeStep := None, reuseWindow := None,
      recomputeCostUs := Some(0), spillCostUs := Some(0), compressionOk := true, recomputeOk := true,
      prefetchOk := true, pinRequested := false, isDraft := false, isCommitted := true,
      createdStep := step, lastAccessStep := step)
  }

  function AllocIntent(r: RequestRecord, p: Plan, blockId: nat, step: nat): MemoryIntent {
    var hot, age := blockId >= p.blocks - p.hot, Age(p, blockId);
    BaseIntent(r, p, blockId, step).(
      priority := if hot then Hot else if age > 0.5 then Warm else Cold,
      requestPriority := if hot then r.requestPriority else Max(r.requestPriority - 15, 0),
      recency := if hot then 0.7 else RMax(0.0, 0.6 - age),
      deadlineUs := if hot then DeadlineUs(r) else None,
      slackUs := if hot then Later(DeadlineUs(r), 5000) else None,
      targetDecodeStep := Some(OrElse(r.startMs, r.arrivalMs) + blockId),
      reuseWindow := Some(if hot then 2 else Max(1, ((1.0 - age) * 512.0).Floor)),
      recomputeCostUs := Some(if hot then 5000 else 200), spillCostUs := Some(200),
      compressionOk := !hot, recomputeOk := !hot, prefetchOk := !hot)
  }

  function HotIntent(r: RequestRecord, p: Plan, offset: nat, step: nat): MemoryIntent
    requires p.hot <= p.blocks && offset < p.hot
  {
    BaseIntent(r, p, p.blocks - p.hot + offset, step).(
      phase := Decode, priority := DecodeCritical, recency := RMax(0.8, 1.0 - offset as real * 0.1),
      deadlineUs := DeadlineUs(r), slackUs := Later(DeadlineUs(r), offset * 2000),
      targetDecodeStep := Some(OrElse(r.startMs, r.arrivalMs) + offset), reuseWindow := Some(1 + offset),
      recomputeCostUs := Some(6000), spillCostUs := Some(250),
      compressionOk := false, recomputeOk := false, pinRequested := true)
  }

  function ColdIntent(r: RequestRecord, p: Plan, blockId: nat, step: nat): MemoryIntent {
    BaseIntent(r, p, blockId, step).(
      phase := Idle, requestPriority := Max(r.requestPriority - 20, 0),
      targetDecodeStep := Some(OrElse(r.endMs, r.arrivalMs) + 1000), reuseWindow := Some(256 + blockId),
      recomputeCostUs := Some(100), spillCostUs := Some(100), lastAccessStep := Max(step - 5, 0))
  }

  function FreedIntent(r: RequestRecord, p: Plan, blockId: nat, step: nat): MemoryIntent {
    BaseIntent(r, p, blockId, step).(phase := Done, currentTier := DRAM, recomputeOk := false, prefetchOk := false)
  }

  function Allocations(r: RequestRecord, p: Plan, from: nat, n: nat): seq<Event> {
    seq(n, (i: nat) => Event(from + i, Allocated, AllocIntent(r, p, i, from + i)))
  }

  function HotEvents(r: RequestRecord, p: Plan, from: nat, n: nat): seq<Event>
    requires p.hot <= p.blocks && n <= p.hot
  {
    if n == 0 then []
    else
      var step := from + 2 * (n - 1);
      var hot := HotIntent(r, p, n - 1, step);
      HotEvents(r, p, from, n - 1)
      + [Event(step, MarkedDecodeCritical, hot), Event(step + 1, Accessed, hot.(lastAccessStep := step + 1))]
  }

  function ColdEvents(r: RequestRecord, p: Plan, from: nat, n: nat): seq<Event> {
    seq(n, (i: nat) => Event(from + i, MarkedCold, ColdIntent(r, p, i, from + i)))
  }

  function FreedEvents(r: RequestRecord, p: Plan, from: nat, n: nat): seq<Event> {
    seq(n, (i: nat) => Event(from + i, Freed, FreedIntent(r, p, i, from + i)))
  }

  predicate Completed(r: RequestRecord) {
    r.status == "completed"
  }

  /** One request's events: allocate all blocks, decode on the hot tail, cool the rest, and free all if done. */
  function Segment(r: RequestRecord, p: Plan, from: nat): seq<Event>
    requires 1 <= p.hot <= p.blocks
  {
    var cold := p.blocks - p.hot;
    Allocations(r, p, from, p.blocks)
    + HotEvents(r, p, from + p.blocks, p.hot)
    + ColdEvents(r, p, from + p.blocks + 2 * p.hot, cold)
    + FreedEvents(r, p, from + p.blocks + 2 * p.hot + cold, if Completed(r) then p.blocks else 0)
  }

  /** The events of the first `n` requests. */
  function Trace(s: Settings, records: seq<RequestRecord>, n: nat): seq<Event>
    requires SettingsOk(s) && n <= |records|
  {
    if n == 0 then []
    else
      var before := Trace(s, records, n - 1);
      before + Segment(records[n - 1], PlanFor(s, records[n - 1]), |before|)
  }

  predicate ArrivesBefore(a: RequestRecord, b: RequestRecord) {
    a.arrivalMs < b.arrivalMs || (a.arrivalMs == b.arrivalMs && StringLess(a.requestId, b.requestId))
  }

  function ByArrival(records: seq<RequestRecord>): seq<RequestRecord> {
    Sorting.SortBy(ArrivesBefore, records)
  }

  lemma ArrivalIsWeakOrder()
    ensures Sorting.WeakOrder(ArrivesBefore)
  {
    forall a, b ensures !(ArrivesBefore(a, b) && ArrivesBefore(b, a)) {
      StringLessTrichotomy(a.requestId, b.requestId);
    }
    forall a, b, c | ArrivesBefore(a, c) ensures ArrivesBefore(a, b) || ArrivesBefore(b, c) {
      StringLessTrichotomy(a.requestId, b.requestId);
      StringLessTrichotomy(b.requestId, c.requestId);
      if StringLess(b.requestId, a.requestId) && StringLess(a.requestId, c.requestId) {
        StringLessTransitive(b.requestId, a.requestId, c.requestId);
      }
    }
  }

  lemma HotEventsLength(r: RequestRecord, p: Plan, from: nat, n: nat)
    requires p.hot <= p.blocks && n <= p.hot
    ensures |HotEvents(r, p, from, n)| == 2 * n
  {
  }

  /** How far block `k` lies into the hot tail; negative below it. */
  function Rank(p: Plan, k: int): int {
    k - (p.blocks - p.hot)
  }

  /** The `i`-th event of a request imported at step `from`: every block is allocated, each hot one marked and
      accessed, every other one marked cold, and at last every block freed. */
  predicate LaidOut(p: Plan, from: nat, i: nat, e: Event) {
    var k := e.intent.blockId;
    && e.step == from + i && 0 <= k < p.blocks
    && if i < p.blocks then e.kind == Allocated && k == i
       else if i < p.blocks + 2 * p.hot then
         && e.kind == (if (i - p.blocks) % 2 == 0 then MarkedDecodeCritical else Accessed)
         && Rank(p, k) == (i - p.blocks) / 2
       else if i < 2 * p.blocks + p.hot then e.kind == MarkedCold && k == i - p.blocks - 2 * p.hot
       else e.kind == Freed && k == i - 2 * p.blocks - p.hot
  }

  /** What all of a request's events say alike. */
  predicate OfRequest(r: RequestRecord, p: Plan, e: Event) {
    var m := e.intent;
    && m.requestId == r.requestId && m.objectId == ImportName(r.requestId, if m.blockId < 0 then 0 else m.blockId)
    && m.objectType == KvCache && m.allowedTiers == {HBM, DRAM} && m.sizeBytes == p.size
    && m.currentTier == (if e.kind == Freed then DRAM else HBM)
    && m.arrivalStep == Some(r.arrivalMs) && !m.isDraft && m.isCommitted
    && m.createdStep == (if e.kind == Accessed then e.step - 1 else e.step)
    && m.lastAccessStep == (if e.kind == MarkedCold then Max(e.step - 5, 0) else e.step)
  }

  /** What an allocation says: the hot tail is kept close, and the others are the less recent, and the sooner past
      their use, the larger their number. */
  predicate DeclaresAllocation(r: RequestRecord, p: Plan, m: MemoryIntent) {
    var (k, last, due) := (m.blockId, p.blocks - 1, r.deadlineMs);
    && m.phase == Prefill && !m.pinRequested && m.spillCostUs == Some(200)
    && m.targetDecodeStep == Some(OrElse(r.startMs, r.arrivalMs) + k)
    && if Rank(p, k) >= 0 then
         && m.priority == Hot && m.requestPriority == r.requestPriority && m.recency == 0.7
         && m.deadlineUs.Some? == m.slackUs.Some? == due.Some? && m.reuseWindow == Some(2)
         && (due.Some? ==> m.deadlineUs.value == 1000 * due.value && m.slackUs.value == 1000 * due.value - 5000)
         && m.recomputeCostUs == Some(5000) && !m.compressionOk && !m.recomputeOk && !m.prefetchOk
       else
         && m.priority == (if 2 * k > last then Warm else Cold)
         && m.requestPriority == (if r.requestPriority < 15 then 0 else r.requestPriority - 15)
         && m.deadlineUs == None && m.slackUs == None && m.recomputeCostUs == Some(200)
         && m.compressionOk && m.recomputeOk && m.prefetchOk
         && FadesWith(m.recency, k, last) && m.reuseWindow.Some? && WindowShrinks(m.reuseWindow.value, k, last)
  }

  /** Recency falls from 0.6 in proportion to `k` of `last`, and no lower than 0. */
  predicate FadesWith(recency: real, k: int, last: int) {
    if 5 * k >= 3 * last then recency == 0.0 else recency * last as real == 0.6 * last as real - k as real
  }

  /** The reuse window is 512 tokens in proportion to what `k` leaves of `last`, rounded down, and at least 1. */
  predicate WindowShrinks(window: int, k: int, last: int) {
    window >= 1 && 512 * (last - k) < (window + 1) * last && (window > 1 ==> window * last <= 512 * (last - k))
  }

  /** What a decode-critical block says: pinned and due, the sooner the lower it stands in the hot tail. */
  predicate DeclaresDecoding(r: RequestRecord, p: Plan, m: MemoryIntent) {
    var rank, due := Rank(p, m.blockId), r.deadlineMs;
    && m.phase == Decode && m.priority == DecodeCritical && m.pinRequested
    && !m.compressionOk && !m.recomputeOk && m.prefetchOk && m.requestPriority == r.requestPriority
    && m.recency == (if rank <= 0 then 1.0 else if rank == 1 then 0.9 else 0.8) && m.reuseWindow == Some(1 + rank)
    && m.deadlineUs.Some? == m.slackUs.Some? == due.Some?
    && (due.Some? ==> m.deadlineUs.value == 1000 * due.value && m.slackUs.value == 1000 * due.value - 2000 * rank)
    && m.targetDecodeStep == Some(OrElse(r.startMs, r.arrivalMs) + rank)
    && m.recomputeCostUs == Some(6000) && m.spillCostUs == Some(250)
  }

  /** What a block marked cold or freed says: nothing presses, and it is not pinned. */
  predicate DeclaresRelease(r: RequestRecord, e: Event) {
    var m, freed := e.intent, e.kind == Freed;
    && m.priority == Cold && !m.pinRequested && m.recency == 0.0 && m.deadlineUs == None && m.slackUs == None
    && m.phase == (if freed then Done else Idle)
    && m.requestPriority == (if freed then r.requestPriority
                             else if r.requestPriority < 20 then 0 else r.requestPriority - 20)
    && m.targetDecodeStep == (if freed then None else Some(OrElse(r.endMs, r.arrivalMs) + 1000))
    && m.reuseWindow == (if freed then None else Some(256 + m.blockId))
    && m.recomputeCostUs == m.spillCostUs == Some(if freed then 0 else 100)
    && m.compressionOk && m.recomputeOk == m.prefetchOk == !freed
  }

  predicate Declares(r: RequestRecord, p: Plan, e: Event) {
    && OfRequest(r, p, e)
    && match e.kind
       case Allocated => DeclaresAllocation(r, p, e.intent)
       case MarkedDecodeCritical => DeclaresDecoding(r, p, e.intent)
       case Accessed => DeclaresDecoding(r, p, e.intent)
       case MarkedCold => DeclaresRelease(r, e)
       case Freed => DeclaresRelease(r, e)
       case _ => false
  }

  /** The events are one request's, in order. */
  predicate Recounts(r: RequestRecord, p: Plan, from: nat, events: seq<Event>) {
    && |events| == (if r.status == "completed" then 3 else 2) * p.blocks + p.hot
    && forall i | 0 <= i < |events| :: LaidOut(p, from, i, events[i]) && Declares(r, p, events[i])
  }

  /** The events are the requests', one request after the other. */
  ghost predicate RecountsAll(s: Settings, records: seq<RequestRecord>, events: seq<Event>)
    requires SettingsOk(s)
  {
    if records == [] then events == []
    else
      var last := |records| - 1;
      exists m | 0 <= m <= |events| ::
        && RecountsAll(s, records[..last], events[..m])
        && Recounts(records[last], PlanFor(s, records[last]), m, events[m..])
  }

  lemma AllocDeclares(r: RequestRecord, p: Plan, k: nat, step: nat)
    requires 1 <= p.hot <= p.blocks && k < p.blocks
    ensures Declares(r, p, Event(step, Allocated, AllocIntent(r, p, k, step)))
  {
    if Rank(p, k) < 0 {
      var last := p.blocks - 1;
      AgeFades(p, k);
      AgeShrinks(p, k);
      hide Age, FadesWith, WindowShrinks, ImportName;
    }
  }

  lemma AgeFades(p: Plan, k: nat)
    requires 0 <= k < p.blocks - 1
    ensures FadesWith(RMax(0.0, 0.6 - Age(p, k)), k, p.blocks - 1)
    ensures Age(p, k) > 0.5 <==> 2 * k > p.blocks - 1
  {
    hide Age, FadesWith;
    AgeOf(p, k);
    FadesFrom(Age(p, k), k, p.blocks - 1);
  }

  lemma FadesFrom(age: real, k: int, last: int)
    requires last > 0 && age * last as real == k as real
    ensures FadesWith(RMax(0.0, 0.6 - age), k, last)
    ensures age > 0.5 <==> 2 * k > last
  {
    HalfOf(k, last);
    Halfway(age, k as real, last as real);
    RestOf(age, k as real, last as real);
  }

  lemma Halfway(age: real, k: real, n: real)
    requires n > 0.0 && age * n == k
    ensures age > 0.5 <==> k > 0.5 * n
  {
    Proportion(age, 0.5, n);
  }

  lemma RestOf(age: real, k: real, n: real)
    requires n > 0.0 && age * n == k
    ensures age >= 0.6 <==> k >= 0.6 * n
    ensures age < 0.6 ==> RMax(0.0, 0.6 - age) * n == 0.6 * n - k
  {
    Proportion(age, 0.6, n);
    Alike(RMax(0.0, 0.6 - age), if age < 0.6 then 0.6 - age else 0.0, n);
  }

  lemma Alike(a: real, b: real, n: real)
    requires a == b
    ensures a * n == b * n
  {
  }

  lemma AgeOf(p: Plan, k: nat)
    requires 0 <= k < p.blocks - 1
    ensures Age(p, k) * (p.blocks - 1) as real == k as real
  {
  }

  lemma HalfOf(k: int, last: int)
    ensures k as real > 0.5 * last as real <==> 2 * k > last
    ensures k as real >= 0.6 * last as real <==> 5 * k >= 3 * last
  {
  }

  lemma Proportion(x: real, bound: real, y: real)
    requires y > 0.0
    ensures x > bound <==> x * y > bound * y
    ensures x >= bound <==> x * y >= bound * y
    ensures (bound - x) * y == bound * y - x * y
  {
    assert (bound - x) * y == bound * y - x * y;
  }

  lemma AgeShrinks(p: Plan, k: nat)
    requires 0 <= k < p.blocks - 1
    ensures WindowShrinks(Max(1, ((1.0 - Age(p, k)) * 512.0).Floor), k, p.blocks - 1)
  {
    var age, last := Age(p, k), p.blocks - 1;
    AgeOf(p, k);
    hide Age;
    var share := (1.0 - age) * 512.0;
    ShareOf(age, k as real, last as real, share);
    FloorOf(share, 512 * (last - k), last);
  }

  lemma ShareOf(age: real, k: real, last: real, share: real)
    requires age * last == k && share == (1.0 - age) * 512.0
    ensures share * last == 512.0 * (last - k)
  {
    assert share * last == 512.0 * ((1.0 - age) * last);
    assert (1.0 - age) * last == last - k;
  }

  lemma Scaled(x: real, y: real, n: real)
    requires n > 0.0
    ensures x <= y ==> x * n <= y * n
    ensures x < y ==> x * n < y * n
  {
  }

  lemma RealOf(a: int, b: int)
    ensures (a * b) as real == a as real * b as real
  {
  }

  lemma FloorOf(x: real, total: int, last: int)
    requires last > 0 && x * last as real == total as real
    ensures x.Floor * last <= total < (x.Floor + 1) * last
  {
    var w := x.Floor;
    Scaled(w as real, x, last as real);
    Scaled(x, (w + 1) as real, last as real);
    RealOf(w, last);
    RealOf(w + 1, last);
  }

  lemma HotDeclares(r: RequestRecord, p: Plan, k: nat, step: nat)
    requires 1 <= p.hot <= p.blocks && k < p.hot
    ensures var hot := HotIntent(r, p, k, step);
      && Declares(r, p, Event(step, MarkedDecodeCritical, hot))
      && Declares(r, p, Event(step + 1, Accessed, hot.(lastAccessStep := step + 1)))
  {
    hide ImportName;
  }

  lemma ReleaseDeclares(r: RequestRecord, p: Plan, k: nat, step: nat)
    requires 1 <= p.hot <= p.blocks
    ensures Declares(r, p, Event(step, MarkedCold, ColdIntent(r, p, k, step)))
    ensures Declares(r, p, Event(step, Freed, FreedIntent(r, p, k, step)))
  {
    hide ImportName;
  }

  lemma {:induction false} HotEventsAt(r: RequestRecord, p: Plan, from: nat, n: nat, i: nat)
    requires 1 <= p.hot <= p.blocks && n <= p.hot && i < n
    ensures |HotEvents(r, p, from, n)| == 2 * n
    ensures var hot := HotIntent(r, p, i, from + 2 * i);
      && HotEvents(r, p, from, n)[2 * i] == Event(from + 2 * i, MarkedDecodeCritical, hot)
      && HotEvents(r, p, from, n)[2 * i + 1] ==
         Event(from + 2 * i + 1, Accessed, hot.(lastAccessStep := from + 2 * i + 1))
  {
    hide HotIntent;
    HotEventsLength(r, p, from, n);
    HotEventsLength(r, p, from, n - 1);
    if i < n - 1 {
      HotEventsAt(r, p, from, n - 1, i);
    }
  }

  /** The segment built is the request's. */
  lemma SegmentRecounts(r: RequestRecord, p: Plan, from: nat)
    requires 1 <= p.hot <= p.blocks
    ensures Recounts(r, p, from, Segment(r, p, from))
  {
    var segment := Segment(r, p, from);
    SegmentLength(r, p, from);
    hide Segment, LaidOut, Declares;
    forall i | 0 <= i < |segment| ensures LaidOut(p, from, i, segment[i]) && Declares(r, p, segment[i]) {
      SegmentLaidOut(r, p, from, i);
      SegmentDeclares(r, p, from, i);
    }
  }

  lemma SegmentLength(r: RequestRecord, p: Plan, from: nat)
    requires 1 <= p.hot <= p.blocks
    ensures |Segment(r, p, from)| == (if r.status == "completed" then 3 else 2) * p.blocks + p.hot
  {
    hide AllocIntent, HotIntent, ColdIntent, FreedIntent, HotEvents;
    HotEventsLength(r, p, from + p.blocks, p.hot);
  }

  /** Which of the four parts the `i`-th event belongs to. */
  lemma PartAt(r: RequestRecord, p: Plan, from: nat, i: nat)
    requires 1 <= p.hot <= p.blocks && i < |Segment(r, p, from)|
    ensures var (e, coolFrom, freeFrom) := (Segment(r, p, from)[i], p.blocks + 2 * p.hot, 2 * p.blocks + p.hot);
      e == if i < p.blocks then Event(from + i, Allocated, AllocIntent(r, p, i, from + i))
           else if i < coolFrom then
             var rank := (i - p.blocks) / 2;
             var hot := HotIntent(r, p, rank, from + p.blocks + 2 * rank);
             if (i - p.blocks) % 2 == 0 then Event(from + i, MarkedDecodeCritical, hot)
             else Event(from + i, Accessed, hot.(lastAccessStep := from + i))
           else if i < freeFrom then Event(from + i, MarkedCold, ColdIntent(r, p, i - coolFrom, from + i))
           else Event(from + i, Freed, FreedIntent(r, p, i - freeFrom, from + i))
  {
    hide AllocIntent, HotIntent, ColdIntent, FreedIntent, HotEvents;
    HotEventsLength(r, p, from + p.blocks, p.hot);
    if p.blocks <= i < p.blocks + 2 * p.hot {
      HotEventsAt(r, p, from + p.blocks, p.hot, (i - p.blocks) / 2);
    }
  }

  lemma SegmentLaidOut(r: RequestRecord, p: Plan, from: nat, i: nat)
    requires 1 <= p.hot <= p.blocks && i < |Segment(r, p, from)|
    ensures LaidOut(p, from, i, Segment(r, p, from)[i])
  {
    hide AllocIntent, HotIntent, ColdIntent, FreedIntent, Segment, Rank, Completed;
    SegmentLength(r, p, from);
    PartAt(r, p, from, i);
    IntentPlaces(r, p, from);
  }

  lemma IntentPlaces(r: RequestRecord, p: Plan, from: nat)
    ensures forall k: nat, step: nat ::
      AllocIntent(r, p, k, step).blockId == ColdIntent(r, p, k, step).blockId == FreedIntent(r, p, k, step).blockId == k
    ensures 1 <= p.hot <= p.blocks ==> forall k: nat, step: nat | k < p.hot ::
      HotIntent(r, p, k, step).blockId == p.blocks - p.hot + k && Rank(p, HotIntent(r, p, k, step).blockId) == k
  {
  }

  lemma SegmentDeclares(r: RequestRecord, p: Plan, from: nat, i: nat)
    requires 1 <= p.hot <= p.blocks && i < |Segment(r, p, from)|
    ensures Declares(r, p, Segment(r, p, from)[i])
  {
    hide AllocIntent, HotIntent, ColdIntent, FreedIntent, Segment, Declares, Completed;
    SegmentLength(r, p, from);
    PartAt(r, p, from, i);
    var coolFrom, freeFrom := p.blocks + 2 * p.hot, 2 * p.blocks + p.hot;
    if i < p.blocks {
      AllocDeclares(r, p, i, from + i);
    } else if i < coolFrom {
      HotPartDeclares(r, p, from + p.blocks, i - p.blocks, Segment(r, p, from)[i]);
    } else {
      ReleaseDeclares(r, p, if i < freeFrom then i - coolFrom else i - freeFrom, from + i);
    }
  }

  lemma HotPartDeclares(r: RequestRecord, p: Plan, from: nat, j: nat, e: Event)
    requires 1 <= p.hot <= p.blocks && j < 2 * p.hot
    requires var hot := HotIntent(r, p, j / 2, from + 2 * (j / 2));
      e == if j % 2 == 0 then Event(from + j, MarkedDecodeCritical, hot)
           else Event(from + j, Accessed, hot.(lastAccessStep := from + j))
    ensures Declares(r, p, e)
  {
    hide HotIntent, Declares;
    HotDeclares(r, p, j / 2, from + 2 * (j / 2));
    assert j == 2 * (j / 2) + j % 2;
  }

  /** Every intent the importer builds passes the constructor unchanged. */
  lemma IntentsConstruct(r: RequestRecord, p: Plan, k: nat, step: nat)
    requires RecordOk(r) && p.size > 0 && 1 <= p.hot <= p.blocks
    ensures k < p.blocks ==> Construct(AllocIntent(r, p, k, step)) == Ok(AllocIntent(r, p, k, step))
    ensures k < p.hot ==>
      && Construct(HotIntent(r, p, k, step)) == Ok(HotIntent(r, p, k, step))
      && Construct(HotIntent(r, p, k, step).(lastAccessStep := step + 1))
         == Ok(HotIntent(r, p, k, step).(lastAccessStep := step + 1))
    ensures Construct(ColdIntent(r, p, k, step)) == Ok(ColdIntent(r, p, k, step))
    ensures Construct(FreedIntent(r, p, k, step)) == Ok(FreedIntent(r, p, k, step))
  {
    hide Decimal, Age;
    if k < p.blocks {
      AgeInRange(p, k);
    }
    ConstructYieldsValid(AllocIntent(r, p, k, step));
  }

  lemma AgeInRange(p: Plan, k: nat)
    requires k < p.blocks
    ensures 0.0 <= Age(p, k) <= 1.0
  {
    var d := Max(p.blocks - 1, 1) as real;
    assert k as real <= d;
  }

  lemma PartsGrow(r: RequestRecord, p: Plan, from: nat, n: nat)
    ensures Allocations(r, p, from, n + 1)
         == Allocations(r, p, from, n) + [Event(from + n, Allocated, AllocIntent(r, p, n, from + n))]
    ensures ColdEvents(r, p, from, n + 1)
         == ColdEvents(r, p, from, n) + [Event(from + n, MarkedCold, ColdIntent(r, p, n, from + n))]
    ensures FreedEvents(r, p, from, n + 1)
         == FreedEvents(r, p, from, n) + [Event(from + n, Freed, FreedIntent(r, p, n, from + n))]
    ensures Allocations(r, p, from, 0) == [] && ColdEvents(r, p, from, 0) == [] && FreedEvents(r, p, from, 0) == []
  {
    hide AllocIntent, ColdIntent, FreedIntent;
  }

  /** The inner loops: one request's events, appended at the current step. */
  method ImportRequest(r: RequestRecord, p: Plan, events: seq<Event>, step: nat)
    returns (events': seq<Event>, step': nat)
    requires RecordOk(r) && p.size > 0 && 1 <= p.hot <= p.blocks
    ensures events' == events + Segment(r, p, step) && step' == step + |Segment(r, p, step)|
    ensures events <= events' && Recounts(r, p, step, events'[|events|..])
  {
    hide Recounts, AllocIntent, HotIntent, ColdIntent, FreedIntent, Construct, Completed;
    hide Allocations, HotEvents, ColdEvents, FreedEvents, RecordOk;
    events', step' := events, step;
    PartsGrow(r, p, step, 0);
    for blockId := 0 to p.blocks
      invariant events' == events + Allocations(r, p, step, blockId) && step' == step + blockId
    {
      IntentsConstruct(r, p, blockId, step');
      PartsGrow(r, p, step, blockId);
      events' := events' + [Event(step', Allocated, Construct(AllocIntent(r, p, blockId, step')).value)];
      step' := step' + 1;
    }
    ghost var placed, hotFrom := events', step';
    HotGrow(r, p, hotFrom, 0);
    for offset := 0 to p.hot
      invariant events' == placed + HotEvents(r, p, hotFrom, offset) && step' == hotFrom + 2 * offset
    {
      IntentsConstruct(r, p, offset, step');
      HotGrow(r, p, hotFrom, offset);
      var hot := Construct(HotIntent(r, p, offset, step')).value;
      events' := events' + [Event(step', MarkedDecodeCritical, hot)];
      step' := step' + 1;
      events' := events' + [Event(step', Accessed, Construct(hot.(lastAccessStep := step')).value)];
      step' := step' + 1;
    }
    ghost var decoded, coolFrom := events', step';
    PartsGrow(r, p, coolFrom, 0);
    for blockId := 0 to Max(0, p.blocks - p.hot)
      invariant events' == decoded + ColdEvents(r, p, coolFrom, blockId) && step' == coolFrom + blockId
    {
      IntentsConstruct(r, p, blockId, step');
      PartsGrow(r, p, coolFrom, blockId);
      events' := events' + [Event(step', MarkedCold, Construct(ColdIntent(r, p, blockId, step')).value)];
      step' := step' + 1;
    }
    ghost var cooled, freeFrom := events', step';
    PartsGrow(r, p, freeFrom, 0);
    if Completed(r) {
      for blockId := 0 to p.blocks
        invariant events' == cooled + FreedEvents(r, p, freeFrom, blockId) && step' == freeFrom + blockId
      {
        IntentsConstruct(r, p, blockId, step');
        PartsGrow(r, p, freeFrom, blockId);
        events' := events' + [Event(step', Freed, Construct(FreedIntent(r, p, blockId, step')).value)];
        step' := step' + 1;
      }
    }
    SegmentParts(r, p, step, events, placed, decoded, cooled, events');
    SegmentAppended(r, p, step, events);
  }

  lemma SegmentAppended(r: RequestRecord, p: Plan, from: nat, events: seq<Event>)
    requires 1 <= p.hot <= p.blocks
    ensures Recounts(r, p, from, (events + Segment(r, p, from))[|events|..])
  {
    SegmentRecounts(r, p, from);
    hide Segment, Recounts;
    assert (events + Segment(r, p, from))[|events|..] == Segment(r, p, from);
  }

  /** The four parts put together. */
  lemma SegmentParts(r: RequestRecord, p: Plan, from: nat, events: seq<Event>, placed: seq<Event>,
                     decoded: seq<Event>, cooled: seq<Event>, final: seq<Event>)
    requires 1 <= p.hot <= p.blocks
    requires var cold := p.blocks - p.hot;
      && placed == events + Allocations(r, p, from, p.blocks)
      && decoded == placed + HotEvents(r, p, from + p.blocks, p.hot)
      && cooled == decoded + ColdEvents(r, p, from + p.blocks + 2 * p.hot, cold)
      && final == cooled + FreedEvents(r, p, from + p.blocks + 2 * p.hot + cold, if Completed(r) then p.blocks else 0)
    ensures final == events + Segment(r, p, from)
    ensures |Segment(r, p, from)| == 2 * p.blocks + p.hot + if Completed(r) then p.blocks else 0
  {
    hide AllocIntent, HotIntent, ColdIntent, FreedIntent, HotEvents, Completed;
    HotEventsLength(r, p, from + p.blocks, p.hot);
  }

  /** The importer builds exactly the segments of the requests in arrival order. */
  method Import(records: seq<RequestRecord>, s: Settings) returns (result: Imported)
    requires (forall r | r in records :: RecordOk(r)) && s.bytesPerToken > 0
    ensures result ==
      if s.blockSize <= 0 then Refused(BadBlockSize)
      else if s.decodeBlockTokens <= 0 then Refused(BadDecodeBlockTokens)
      else if s.maxBlocks.Some? && s.maxBlocks.value <= 0 then Refused(BadMaxBlocks)
      else Events(Trace(s, ByArrival(records), |ByArrival(records)|))
    ensures result.Events? ==> RecountsAll(s, ByArrival(records), result.events)
  {
    if s.blockSize <= 0 {
      return Refused(BadBlockSize);
    }
    if s.decodeBlockTokens <= 0 {
      return Refused(BadDecodeBlockTokens);
    }
    if s.maxBlocks.Some? && s.maxBlocks.value <= 0 {
      return Refused(BadMaxBlocks);
    }
    hide PlanFor, ByArrival, RecordOk, Segment, Recounts, RecountsAll;
    var sorted, events, step := ByArrival(records), [], 0;
    RecountsNone(s);
    assert sorted[..0] == [];
    for k := 0 to |sorted|
      invariant events == Trace(s, sorted, k) && step == |events| && RecountsAll(s, sorted[..k], events)
    {
      assert sorted[k] in sorted;
      InSorted(records, sorted[k]);
      var p := PlanFor(s, sorted[k]);
      PlanPositive(s, sorted[k]);
      ghost var before := events;
      events, step := ImportRequest(sorted[k], p, events, step);
      RecountsOneMore(s, sorted, k, before, events);
    }
    assert sorted[..|sorted|] == sorted;
    return Events(events);
  }

  lemma RecountsNone(s: Settings)
    requires SettingsOk(s)
    ensures RecountsAll(s, [], [])
  {
  }

  lemma RecountsOneMore(s: Settings, records: seq<RequestRecord>, k: nat, before: seq<Event>, events: seq<Event>)
    requires SettingsOk(s) && k < |records| && RecountsAll(s, records[..k], before) && before <= events
    requires Recounts(records[k], PlanFor(s, records[k]), |before|, events[|before|..])
    ensures RecountsAll(s, records[..k + 1], events)
  {
    hide Recounts, PlanFor;
    assert records[..k + 1][..k] == records[..k] && events[..|before|] == before;
  }

  lemma PlanPositive(s: Settings, r: RequestRecord)
    requires SettingsOk(s) && RecordOk(r)
    ensures PlanFor(s, r).size > 0
  {
    hide TotalBytes;
    PlanCovers(s, r);
  }

  lemma InSorted(records: seq<RequestRecord>, r: RequestRecord)
    ensures r in ByArrival(records) <==> r in records
  {
    Sorting.SortMembers(ArrivesBefore, records, r);
  }

  lemma HotGrow(r: RequestRecord, p: Plan, from: nat, n: nat)
    requires 1 <= p.hot <= p.blocks
    ensures HotEvents(r, p, from, 0) == []
    ensures n < p.hot ==>
      var step := from + 2 * n;
      var hot := HotIntent(r, p, n, step);
      HotEvents(r, p, from, n + 1) == HotEvents(r, p, from, n)
        + [Event(step, MarkedDecodeCritical, hot)] + [Event(step + 1, Accessed, hot.(lastAccessStep := step + 1))]
  {
    hide HotIntent;
  }
}
