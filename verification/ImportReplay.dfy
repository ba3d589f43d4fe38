/** What imported traces promise the simulator, and what replaying them leaves (trace_importer.py). */
module ImportReplay {
  import opened Prelude
  import opened Schema
  import opened Simulation
  import opened Importer
  import opened Residency
  import CriticalEvictions
  import Sorting

  /** Only ALLOCATED brings an id in: every other event names one that is live. */
  ghost predicate NamesLive(keys: set<string>, events: seq<Event>)
    decreases |events|
  {
    events == [] ||
    (&& (events[0].kind != Allocated ==> events[0].intent.objectId in keys)
     && NamesLive(NextKeys(keys, events[0].kind, events[0].intent.objectId), events[1..]))
  }

  lemma {:induction false} NamesLiveConcat(keys: set<string>, xs: seq<Event>, ys: seq<Event>)
    ensures NamesLive(keys, xs + ys) <==> NamesLive(keys, xs) && NamesLive(KeysAfter(keys, xs), ys)
    decreases |xs|
  {
    if xs == [] {
      assert xs + ys == ys;
    } else {
      assert (xs + ys)[0] == xs[0] && (xs + ys)[1..] == xs[1..] + ys;
      NamesLiveConcat(NextKeys(keys, xs[0].kind, xs[0].intent.objectId), xs[1..], ys);
    }
  }

  /** What a stretch of trace does to the live ids; `apart` says that it allocates no block that is live. */
  ghost predicate Turns(keys: set<string>, events: seq<Event>, after: set<string>, apart: bool) {
    KeysAfter(keys, events) == after && NamesLive(keys, events) && (apart ==> FreshAllocations(keys, events))
  }

  lemma TurnsConcat(keys: set<string>, xs: seq<Event>, mid: set<string>, ys: seq<Event>, after: set<string>,
                    apart: bool)
    requires Turns(keys, xs, mid, apart) && Turns(mid, ys, after, apart)
    ensures Turns(keys, xs + ys, after, apart)
  {
    KeysAfterConcat(keys, xs, ys);
    NamesLiveConcat(keys, xs, ys);
  }

  lemma TurnsOne(keys: set<string>, e: Event, apart: bool)
    requires if e.kind == Allocated then apart ==> e.intent.objectId !in keys else e.intent.objectId in keys
    ensures Turns(keys, [e], NextKeys(keys, e.kind, e.intent.objectId), apart)
  {
    var after := NextKeys(keys, e.kind, e.intent.objectId);
    assert [e][1..] == [];
    assert KeysAfter(after, []) == after;
  }

  function Names(requestId: string, n: nat): set<string> {
    set i: nat | i < n :: ImportName(requestId, i)
  }

  lemma NoLaterColon(x: string, i: nat, k: nat)
    requires i < |x| && k < |x| && ':' !in x[i + 1..]
    ensures i < k ==> x[k] != ':'
  {
    if i < k {
      assert x[i + 1..][k - i - 1] == x[k];
    }
  }

  /** Names of different requests or blocks differ, whatever the request ids contain: the number follows the
      last colon. */
  lemma ImportNameInjective(a: string, m: nat, b: string, n: nat)
    requires ImportName(a, m) == ImportName(b, n)
    ensures a == b && m == n
  {
    DecimalNoColon(m);
    DecimalNoColon(n);
    var x := ImportName(a, m);
    var i, j := |a| + 7, |b| + 7;
    assert x[i] == ':' && x[i + 1..] == Decimal(m);
    assert x[j] == ':' && x[j + 1..] == Decimal(n);
    NoLaterColon(x, i, j);
    NoLaterColon(x, j, i);
    DecimalInjective(m, n);
    assert a == x[..|a|] && b == x[..|b|];
  }

  lemma NamesGrow(requestId: string, n: nat)
    ensures Names(requestId, 0) == {}
    ensures Names(requestId, n + 1) == Names(requestId, n) + {ImportName(requestId, n)}
    ensures ImportName(requestId, n) !in Names(requestId, n)
  {
    hide ImportName;
    if ImportName(requestId, n) in Names(requestId, n) {
      var i: nat :| i < n && ImportName(requestId, i) == ImportName(requestId, n);
      ImportNameInjective(requestId, i, requestId, n);
    }
  }

  lemma NamesWithin(requestId: string, i: nat, n: nat)
    requires i < n
    ensures ImportName(requestId, i) in Names(requestId, n)
  {
  }

  lemma {:induction false} AllocationsTurn(keys: set<string>, r: RequestRecord, p: Plan, from: nat, n: nat,
                                           all: nat, apart: bool)
    requires n <= all && (apart ==> Names(r.requestId, all) !! keys)
    ensures Turns(keys, Allocations(r, p, from, n), keys + Names(r.requestId, n), apart)
  {
    hide Turns, AllocIntent, Names, Allocations;
    if n > 0 {
      AllocationsTurn(keys, r, p, from, n - 1, all, apart);
      PartsGrow(r, p, from, n - 1);
      NamesGrow(r.requestId, n - 1);
      NamesWithin(r.requestId, n - 1, all);
      AllocName(r, p, n - 1, from + n - 1);
      var e := Event(from + n - 1, Allocated, AllocIntent(r, p, n - 1, from + n - 1));
      var mid := keys + Names(r.requestId, n - 1);
      TurnsOne(mid, e, apart);
      TurnsConcat(keys, Allocations(r, p, from, n - 1), mid, [e], mid + {e.intent.objectId}, apart);
      assert mid + {e.intent.objectId} == keys + Names(r.requestId, n);
    } else {
      PartsGrow(r, p, from, 0);
      NamesGrow(r.requestId, 0);
      TurnsNothing(keys, apart);
      assert keys + {} == keys;
    }
  }

  lemma TurnsNothing(keys: set<string>, apart: bool)
    ensures Turns(keys, [], keys, apart)
  {
  }

  lemma AllocName(r: RequestRecord, p: Plan, k: nat, step: nat)
    ensures AllocIntent(r, p, k, step).objectId == ImportName(r.requestId, k)
    ensures ColdIntent(r, p, k, step).objectId == ImportName(r.requestId, k)
    ensures FreedIntent(r, p, k, step).objectId == ImportName(r.requestId, k)
    ensures k < p.hot <= p.blocks ==>
      HotIntent(r, p, k, step).objectId == ImportName(r.requestId, p.blocks - p.hot + k)
  {
  }

  /** Marking and accessing live blocks changes no key. */
  lemma {:induction false} TouchesTurn(keys: set<string>, events: seq<Event>, apart: bool)
    requires forall e | e in events ::
      e.kind in {MarkedDecodeCritical, Accessed, MarkedCold} && e.intent.objectId in keys
    ensures Turns(keys, events, keys, apart)
    decreases |events|
  {
    if events != [] {
      TouchesTurn(keys, events[1..], apart);
      assert events[0] in events;
      assert NextKeys(keys, events[0].kind, events[0].intent.objectId) == keys;
    }
  }

  lemma {:induction false} HotTouches(r: RequestRecord, p: Plan, from: nat, n: nat)
    requires 1 <= p.hot <= p.blocks && n <= p.hot
    ensures forall e | e in HotEvents(r, p, from, n) ::
      e.kind in {MarkedDecodeCritical, Accessed} && e.intent.objectId in Names(r.requestId, p.blocks)
  {
    hide HotIntent, Names, HotEvents;
    HotGrow(r, p, from, 0);
    if n > 0 {
      HotTouches(r, p, from, n - 1);
      HotGrow(r, p, from, n - 1);
      AllocName(r, p, n - 1, from + 2 * (n - 1));
      NamesWithin(r.requestId, p.blocks - p.hot + n - 1, p.blocks);
    }
  }

  lemma ColdTouches(r: RequestRecord, p: Plan, from: nat, n: nat)
    requires n <= p.blocks
    ensures forall e | e in ColdEvents(r, p, from, n) ::
      e.kind == MarkedCold && e.intent.objectId in Names(r.requestId, p.blocks)
  {
    hide ColdIntent, Names;
    forall e | e in ColdEvents(r, p, from, n)
      ensures e.kind == MarkedCold && e.intent.objectId in Names(r.requestId, p.blocks)
    {
      var i :| 0 <= i < n && ColdEvents(r, p, from, n)[i] == e;
      AllocName(r, p, i, from + i);
      NamesWithin(r.requestId, i, p.blocks);
    }
  }

  lemma {:induction false} FreesTurn(keys: set<string>, r: RequestRecord, p: Plan, from: nat, n: nat,
                                     all: nat, apart: bool)
    requires n <= all && Names(r.requestId, all) <= keys
    ensures Turns(keys, FreedEvents(r, p, from, n), keys - Names(r.requestId, n), apart)
  {
    hide Turns, FreedIntent, Names, FreedEvents;
    if n > 0 {
      FreesTurn(keys, r, p, from, n - 1, all, apart);
      PartsGrow(r, p, from, n - 1);
      NamesGrow(r.requestId, n - 1);
      NamesWithin(r.requestId, n - 1, all);
      AllocName(r, p, n - 1, from + n - 1);
      var e := Event(from + n - 1, Freed, FreedIntent(r, p, n - 1, from + n - 1));
      var mid := keys - Names(r.requestId, n - 1);
      TurnsOne(mid, e, apart);
      TurnsConcat(keys, FreedEvents(r, p, from, n - 1), mid, [e], mid - {e.intent.objectId}, apart);
      assert mid - {e.intent.objectId} == keys - Names(r.requestId, n);
    } else {
      PartsGrow(r, p, from, 0);
      NamesGrow(r.requestId, 0);
      TurnsNothing(keys, apart);
      assert keys - {} == keys;
    }
  }

  /** A whole request: its blocks come, and go if it completed, with whatever an earlier request left under the
      same names. */
  lemma SegmentTurns(keys: set<string>, r: RequestRecord, p: Plan, from: nat, apart: bool)
    requires 1 <= p.hot <= p.blocks && (apart ==> Names(r.requestId, p.blocks) !! keys)
    ensures var names := Names(r.requestId, p.blocks);
      Turns(keys, Segment(r, p, from), if Completed(r) then keys - names else keys + names, apart)
  {
    hide Turns, Names, Allocations, HotEvents, ColdEvents, FreedEvents, Completed;
    var cold := p.blocks - p.hot;
    var names := Names(r.requestId, p.blocks);
    var held := keys + names;
    var a := Allocations(r, p, from, p.blocks);
    var h := HotEvents(r, p, from + p.blocks, p.hot);
    var k := ColdEvents(r, p, from + p.blocks + 2 * p.hot, cold);
    var freeFrom := from + p.blocks + 2 * p.hot + cold;
    AllocationsTurn(keys, r, p, from, p.blocks, p.blocks, apart);
    HotTouches(r, p, from + p.blocks, p.hot);
    TouchesTurn(held, h, apart);
    ColdTouches(r, p, from + p.blocks + 2 * p.hot, cold);
    TouchesTurn(held, k, apart);
    TurnsConcat(keys, a, held, h, held, apart);
    TurnsConcat(keys, a + h, held, k, held, apart);
    if Completed(r) {
      FreesTurn(held, r, p, freeFrom, p.blocks, p.blocks, apart);
      TurnsConcat(keys, a + h + k, held, FreedEvents(r, p, freeFrom, p.blocks), held - names, apart);
      assert held - names == keys - names;
    } else {
      PartsGrow(r, p, freeFrom, 0);
      assert a + h + k + [] == a + h + k;
    }
  }

  predicate RecordsOk(records: seq<RequestRecord>) {
    forall r | r in records :: RecordOk(r)
  }

  predicate AllCompleted(records: seq<RequestRecord>) {
    forall r | r in records :: Completed(r)
  }

  /** Among the first `n`, no request repeats the id of an earlier one that never completed. */
  predicate NoOverlap(records: seq<RequestRecord>, n: nat)
    requires n <= |records|
  {
    forall i, j | 0 <= i < j < n :: Completed(records[i]) || records[i].requestId != records[j].requestId
  }

  function NamesOf(s: Settings, r: RequestRecord): set<string>
    requires SettingsOk(s)
  {
    Names(r.requestId, PlanFor(s, r).blocks)
  }

  /** What the first `n` requests leave: an unfinished one leaves its blocks, a completed one clears every block of
      its names. */
  function Held(s: Settings, records: seq<RequestRecord>, n: nat): set<string>
    requires SettingsOk(s) && n <= |records|
  {
    if n == 0 then {}
    else
      var before, r := Held(s, records, n - 1), records[n - 1];
      if Completed(r) then before - NamesOf(s, r) else before + NamesOf(s, r)
  }

  /** Block `i` of request `k` outlives the first `n` requests: `k` never completed and no later completed request
      of the same id is long enough to clear the block. */
  predicate Outlives(s: Settings, records: seq<RequestRecord>, n: nat, k: nat, i: nat)
    requires SettingsOk(s) && n <= |records|
  {
    && k < n && !Completed(records[k]) && i < PlanFor(s, records[k]).blocks
    && forall j | k < j < n && Completed(records[j]) ::
        records[j].requestId != records[k].requestId || PlanFor(s, records[j]).blocks <= i
  }

  lemma OutlivesWithin(s: Settings, records: seq<RequestRecord>, n: nat, k: nat, i: nat)
    requires SettingsOk(s) && n <= |records| && Outlives(s, records, n, k, i)
    ensures k < n
  {
  }

  lemma NameAmong(s: Settings, r: RequestRecord, id: string, i: nat)
    requires SettingsOk(s)
    ensures ImportName(id, i) in NamesOf(s, r) <==> id == r.requestId && i < PlanFor(s, r).blocks
  {
    hide ImportName, PlanFor, SettingsOk;
    if ImportName(id, i) in NamesOf(s, r) {
      var j: nat :| j < PlanFor(s, r).blocks && ImportName(r.requestId, j) == ImportName(id, i);
      ImportNameInjective(r.requestId, j, id, i);
    }
  }

  lemma {:induction false} HeldIsOutlived(s: Settings, records: seq<RequestRecord>, n: nat, name: string)
    returns (k: nat, i: nat)
    requires SettingsOk(s) && n <= |records| && name in Held(s, records, n)
    ensures Outlives(s, records, n, k, i) && name == ImportName(records[k].requestId, i)
  {
    hide PlanFor, SettingsOk, ImportName, Completed;
    var r := records[n - 1];
    if name in Held(s, records, n - 1) && (Completed(r) || name !in NamesOf(s, r)) {
      k, i := HeldIsOutlived(s, records, n - 1, name);
      NameAmong(s, r, records[k].requestId, i);
    } else {
      k := n - 1;
      i :| i < PlanFor(s, r).blocks && ImportName(r.requestId, i) == name;
    }
  }

  lemma {:induction false} OutlivedIsHeld(s: Settings, records: seq<RequestRecord>, n: nat, k: nat, i: nat)
    requires SettingsOk(s) && n <= |records| && Outlives(s, records, n, k, i)
    ensures ImportName(records[k].requestId, i) in Held(s, records, n)
  {
    hide PlanFor, SettingsOk, ImportName, Completed, NamesOf;
    NameAmong(s, records[n - 1], records[k].requestId, i);
    if k < n - 1 {
      OutlivedIsHeld(s, records, n - 1, k, i);
    }
  }

  /** What is left, said without a fold. */
  lemma HeldExactly(s: Settings, records: seq<RequestRecord>, n: nat, name: string)
    requires SettingsOk(s) && n <= |records|
    ensures name in Held(s, records, n) <==>
      exists k: nat, i: nat ::
        k < n && Outlives(s, records, n, k, i) && name == ImportName(records[k].requestId, i)
  {
    hide Held, Outlives, ImportName, SettingsOk;
    if name in Held(s, records, n) {
      var k, i := HeldIsOutlived(s, records, n, name);
      assert k < n by { OutlivesWithin(s, records, n, k, i); }
    }
    forall k: nat, i: nat | k < n && Outlives(s, records, n, k, i) && name == ImportName(records[k].requestId, i)
      ensures name in Held(s, records, n)
    {
      OutlivedIsHeld(s, records, n, k, i);
    }
  }

  /** While no request repeats the id of an unfinished one, no request clears or overwrites another's blocks. */
  lemma NamesApart(s: Settings, records: seq<RequestRecord>, n: nat)
    requires SettingsOk(s) && n < |records| && NoOverlap(records, n + 1)
    ensures NamesOf(s, records[n]) !! Held(s, records, n)
  {
    hide Held, ImportName, PlanFor, SettingsOk, NamesOf;
    forall x | x in Held(s, records, n) ensures x !in NamesOf(s, records[n]) {
      var k, i := HeldIsOutlived(s, records, n, x);
      NameAmong(s, records[n], records[k].requestId, i);
    }
  }

  /** Each block is allocated before anything else names it; what stays live is what unfinished requests hold; and
      a block is allocated only while it is not live, as long as no request repeats the id of an unfinished one. */
  lemma {:induction false} TraceTurns(s: Settings, records: seq<RequestRecord>, n: nat, apart: bool)
    requires SettingsOk(s) && n <= |records| && (apart ==> NoOverlap(records, n))
    ensures Turns({}, Trace(s, records, n), Held(s, records, n), apart)
  {
    hide Turns, Segment, PlanFor, SettingsOk, NoOverlap, NamesOf, Completed, Trace, Held;
    TraceSteps(s, records, n);
    if n == 0 {
      TurnsNothing({}, apart);
    } else {
      if apart {
        OverlapPrefix(records, n);
        NamesApart(s, records, n - 1);
      }
      TraceTurns(s, records, n - 1, apart);
      RequestTurns(s, records[n - 1], Trace(s, records, n - 1), Held(s, records, n - 1), apart);
    }
  }

  lemma OverlapPrefix(records: seq<RequestRecord>, n: nat)
    requires 0 < n <= |records| && NoOverlap(records, n)
    ensures NoOverlap(records, n - 1)
  {
  }

  /** A segment opens by allocating the request's first block. */
  lemma SegmentOpens(r: RequestRecord, p: Plan, from: nat)
    requires 1 <= p.hot <= p.blocks
    ensures Segment(r, p, from) != []
    ensures var e := Segment(r, p, from)[0]; e.kind == Allocated && e.intent.objectId == ImportName(r.requestId, 0)
  {
    hide AllocIntent, HotIntent, ColdIntent, FreedIntent, Completed;
    AllocName(r, p, 0, from);
    assert Segment(r, p, from)[0] == Allocations(r, p, from, p.blocks)[0];
  }

  lemma FirstBlockHeld(s: Settings, records: seq<RequestRecord>, n: nat, k: nat)
    requires SettingsOk(s) && k < n <= |records| && NoOverlap(records, n) && !Completed(records[k])
    ensures ImportName(records[k].requestId, 0) in Held(s, records, n)
  {
    hide PlanFor, Completed, ImportName, Held;
    OutlivedIsHeld(s, records, n, k, 0);
  }

  /** Exactly then: a request that repeats the id of an unfinished one allocates a block that is live. */
  lemma {:induction false} FreshExactly(s: Settings, records: seq<RequestRecord>, n: nat)
    requires SettingsOk(s) && n <= |records|
    ensures FreshAllocations({}, Trace(s, records, n)) <==> NoOverlap(records, n)
  {
    hide Segment, PlanFor, SettingsOk, NamesOf, Trace, Held, FreshAllocations, KeysAfter, NamesLive;
    TraceSteps(s, records, n);
    if n == 0 {
      TurnsNothing({}, true);
    } else {
      var r, before := records[n - 1], Trace(s, records, n - 1);
      var segment := Segment(r, PlanFor(s, r), |before|);
      FreshExactly(s, records, n - 1);
      KeysAfterConcat({}, before, segment);
      if NoOverlap(records, n) {
        TraceTurns(s, records, n, true);
      } else if NoOverlap(records, n - 1) {
        var k :| 0 <= k < n - 1 && !Completed(records[k]) && records[k].requestId == r.requestId;
        TraceTurns(s, records, n - 1, true);
        FirstBlockHeld(s, records, n - 1, k);
        SegmentOpens(r, PlanFor(s, r), |before|);
        NotFresh(Held(s, records, n - 1), segment);
      }
    }
  }

  lemma NotFresh(keys: set<string>, events: seq<Event>)
    requires events != [] && events[0].kind == Allocated && events[0].intent.objectId in keys
    ensures !FreshAllocations(keys, events)
  {
  }

  lemma TraceSteps(s: Settings, records: seq<RequestRecord>, n: nat)
    requires SettingsOk(s) && n <= |records|
    ensures n == 0 ==> Trace(s, records, n) == [] && Held(s, records, n) == {}
    ensures n > 0 ==>
      var r, before, held := records[n - 1], Trace(s, records, n - 1), Held(s, records, n - 1);
      && Trace(s, records, n) == before + Segment(r, PlanFor(s, r), |before|)
      && Held(s, records, n) == if Completed(r) then held - NamesOf(s, r) else held + NamesOf(s, r)
  {
    hide Segment, PlanFor, SettingsOk, Completed, NamesOf;
  }

  lemma RequestTurns(s: Settings, r: RequestRecord, before: seq<Event>, held: set<string>, apart: bool)
    requires SettingsOk(s) && Turns({}, before, held, apart) && (apart ==> NamesOf(s, r) !! held)
    ensures var after := if Completed(r) then held - NamesOf(s, r) else held + NamesOf(s, r);
      Turns({}, before + Segment(r, PlanFor(s, r), |before|), after, apart)
  {
    hide Turns, Segment, Names, SettingsOk, PlanFor;
    var p := PlanFor(s, r);
    var after := if Completed(r) then held - Names(r.requestId, p.blocks) else held + Names(r.requestId, p.blocks);
    SegmentTurns(held, r, p, |before|, apart);
    TurnsConcat({}, before, held, Segment(r, p, |before|), after, apart);
  }

  lemma NothingHeld(s: Settings, records: seq<RequestRecord>)
    requires SettingsOk(s) && AllCompleted(records)
    ensures Held(s, records, |records|) == {}
  {
    hide Held, PlanFor, SettingsOk, ImportName, Completed;
    if name :| name in Held(s, records, |records|) {
      var k, i := HeldIsOutlived(s, records, |records|, name);
      assert records[k] in records;
    }
  }

  /** An event of the request at this step: its intent is one the simulator supports, carries the arrival, and asks
      to be pinned in the DECODE phase. */
  predicate Filed(r: RequestRecord, e: Event, step: nat) {
    && e.step == step && Supported(e) && e.intent.arrivalStep == Some(r.arrivalMs)
    && CriticalEvictions.PinnedDecodeEvent(e)
  }

  lemma FiledIntents(r: RequestRecord, p: Plan, k: nat, step: nat)
    requires RecordOk(r) && p.size > 0 && 1 <= p.hot <= p.blocks
    ensures k < p.blocks ==> Filed(r, Event(step, Allocated, AllocIntent(r, p, k, step)), step)
    ensures k < p.hot ==>
      && Filed(r, Event(step, MarkedDecodeCritical, HotIntent(r, p, k, step)), step)
      && Filed(r, Event(step + 1, Accessed, HotIntent(r, p, k, step).(lastAccessStep := step + 1)), step + 1)
    ensures Filed(r, Event(step, MarkedCold, ColdIntent(r, p, k, step)), step)
    ensures Filed(r, Event(step, Freed, FreedIntent(r, p, k, step)), step)
  {
    hide Construct, Decimal, Age;
    IntentsConstruct(r, p, k, step);
  }

  ghost predicate AllFiled(r: RequestRecord, events: seq<Event>, from: nat) {
    forall i | 0 <= i < |events| :: Filed(r, events[i], from + i)
  }

  lemma {:induction false} HotFiled(r: RequestRecord, p: Plan, from: nat, n: nat)
    requires RecordOk(r) && p.size > 0 && 1 <= p.hot <= p.blocks && n <= p.hot
    ensures |HotEvents(r, p, from, n)| == 2 * n && AllFiled(r, HotEvents(r, p, from, n), from)
  {
    hide HotIntent, HotEvents, Filed;
    HotGrow(r, p, from, 0);
    if n > 0 {
      HotFiled(r, p, from, n - 1);
      HotGrow(r, p, from, n - 1);
      FiledIntents(r, p, n - 1, from + 2 * (n - 1));
    }
  }

  lemma OthersFiled(r: RequestRecord, p: Plan, from: nat, n: nat)
    requires RecordOk(r) && p.size > 0 && 1 <= p.hot <= p.blocks
    ensures n <= p.blocks ==> AllFiled(r, Allocations(r, p, from, n), from)
    ensures AllFiled(r, ColdEvents(r, p, from, n), from)
    ensures AllFiled(r, FreedEvents(r, p, from, n), from)
  {
    hide AllocIntent, ColdIntent, FreedIntent, Filed;
    forall i | 0 <= i < n
      ensures n <= p.blocks ==> Filed(r, Allocations(r, p, from, n)[i], from + i)
      ensures Filed(r, ColdEvents(r, p, from, n)[i], from + i) && Filed(r, FreedEvents(r, p, from, n)[i], from + i)
    {
      FiledIntents(r, p, i, from + i);
    }
  }

  lemma FiledConcat(r: RequestRecord, xs: seq<Event>, ys: seq<Event>, from: nat)
    requires AllFiled(r, xs, from) && AllFiled(r, ys, from + |xs|)
    ensures AllFiled(r, xs + ys, from)
  {
    hide Filed;
  }

  lemma SegmentFiled(r: RequestRecord, p: Plan, from: nat)
    requires RecordOk(r) && p.size > 0 && 1 <= p.hot <= p.blocks
    ensures AllFiled(r, Segment(r, p, from), from)
  {
    hide AllFiled, HotEvents, Completed, AllocIntent, ColdIntent, FreedIntent;
    var cold := p.blocks - p.hot;
    var coolFrom := from + p.blocks + 2 * p.hot;
    var a, h := Allocations(r, p, from, p.blocks), HotEvents(r, p, from + p.blocks, p.hot);
    var k := ColdEvents(r, p, coolFrom, cold);
    var f := FreedEvents(r, p, coolFrom + cold, if Completed(r) then p.blocks else 0);
    OthersFiled(r, p, from, p.blocks);
    HotFiled(r, p, from + p.blocks, p.hot);
    OthersFiled(r, p, coolFrom, cold);
    OthersFiled(r, p, coolFrom + cold, if Completed(r) then p.blocks else 0);
    FiledConcat(r, a, h, from);
    FiledConcat(r, a + h, k, from);
    FiledConcat(r, a + h + k, f, from);
  }

  /** Every event's step is its position, its intent is one the simulator supports, and it belongs to one of the
      requests. */
  lemma {:induction false} TraceSupported(s: Settings, records: seq<RequestRecord>, n: nat, i: nat)
    returns (k: nat)
    requires SettingsOk(s) && RecordsOk(records) && n <= |records| && i < |Trace(s, records, n)|
    ensures k < n && Filed(records[k], Trace(s, records, n)[i], i)
  {
    hide Segment, PlanFor, RecordOk, SettingsOk, Filed;
    var before := Trace(s, records, n - 1);
    if i < |before| {
      k := TraceSupported(s, records, n - 1, i);
    } else {
      k := n - 1;
      var r := records[k];
      assert r in records;
      PlanPositive(s, r);
      SegmentFiled(r, PlanFor(s, r), |before|);
    }
  }

  /** The trace follows the arrival order. */
  lemma TraceInArrivalOrder(s: Settings, records: seq<RequestRecord>, n: nat, i: nat, j: nat)
    requires SettingsOk(s) && RecordsOk(records) && n <= |records|
    requires Sorting.Ordered(ArrivesBefore, records) && i < j < |Trace(s, records, n)|
    ensures var events := Trace(s, records, n);
      events[i].intent.arrivalStep.Some? && events[j].intent.arrivalStep.Some?
      && events[i].intent.arrivalStep.value <= events[j].intent.arrivalStep.value
    decreases n
  {
    hide Segment, PlanFor, RecordOk, SettingsOk, Supported;
    var before := Trace(s, records, n - 1);
    if j < |before| {
      TraceInArrivalOrder(s, records, n - 1, i, j);
    } else {
      var r := records[n - 1];
      assert r in records;
      PlanPositive(s, r);
      SegmentFiled(r, PlanFor(s, r), |before|);
      if i < |before| {
        var k := TraceSupported(s, records, n - 1, i);
      }
    }
  }

  lemma ImportSupported(s: Settings, records: seq<RequestRecord>)
    requires SettingsOk(s) && RecordsOk(records)
    ensures SupportedTrace(Trace(s, records, |records|))
  {
    hide Trace, Supported, SettingsOk, RecordsOk;
    var events := Trace(s, records, |records|);
    forall e | e in events ensures Supported(e) {
      var i :| 0 <= i < |events| && events[i] == e;
      var k := TraceSupported(s, records, |records|, i);
    }
  }

  /** An imported trace, replayed under any policy, capacities and iteration order, runs to the end and leaves live
      exactly the blocks that outlive all requests, whatever ids the requests repeat. */
  lemma ReplayLeavesHeld(c: Config, o: Oracle, s: Settings, records: seq<RequestRecord>)
    requires SettingsOk(s) && RecordsOk(records)
    ensures var r := Run(c, o, Initial(), Trace(s, records, |records|));
      && r.Ok? && Sound(r.value)
      && r.value.live.Keys == Held(s, records, |records|)
      && r.value.hbm + r.value.dram <= r.value.live.Keys
  {
    hide Run, Trace, Held, SettingsOk, RecordsOk, SupportedTrace, KeysAfter, FreshAllocations;
    ImportSupported(s, records);
    TraceTurns(s, records, |records|, false);
    assert Initial().live.Keys == {};
    RunKeeps(c, o, Initial(), Trace(s, records, |records|));
  }

  /** The blocks of the requests that never completed. */
  function Unfinished(s: Settings, records: seq<RequestRecord>): set<string>
    requires SettingsOk(s)
  {
    set k, i | 0 <= k < |records| && !Completed(records[k]) && 0 <= i < PlanFor(s, records[k]).blocks ::
      ImportName(records[k].requestId, i)
  }

  lemma HeldIsUnfinished(s: Settings, records: seq<RequestRecord>)
    requires SettingsOk(s) && NoOverlap(records, |records|)
    ensures Held(s, records, |records|) == Unfinished(s, records)
  {
    hide Held, ImportName, SettingsOk, PlanFor, Completed;
    var n := |records|;
    forall name | name in Held(s, records, n) ensures name in Unfinished(s, records) {
      var k, i := HeldIsOutlived(s, records, n, name);
    }
    forall k, i | 0 <= k < n && !Completed(records[k]) && 0 <= i < PlanFor(s, records[k]).blocks
      ensures ImportName(records[k].requestId, i) in Held(s, records, n)
    {
      OutlivedIsHeld(s, records, n, k, i);
    }
  }

  /** As long as no request repeats the id of one that never completed, that is every block of those, and no block
      ends in both tiers. */
  lemma ReplayKeepsUnfinished(c: Config, o: Oracle, s: Settings, records: seq<RequestRecord>)
    requires SettingsOk(s) && RecordsOk(records) && NoOverlap(records, |records|)
    ensures var r := Run(c, o, Initial(), Trace(s, records, |records|));
      && r.Ok? && Sound(r.value) && Residency.Placed(r.value)
      && r.value.live.Keys == Unfinished(s, records)
      && r.value.hbm + r.value.dram <= r.value.live.Keys
  {
    hide Run, Trace, Held, Unfinished, SettingsOk, RecordsOk, NoOverlap, SupportedTrace;
    hide KeysAfter, FreshAllocations, Sound, Residency.Placed;
    ImportSupported(s, records);
    TraceTurns(s, records, |records|, true);
    HeldIsUnfinished(s, records);
    FreshRunFromEmpty(c, o, Trace(s, records, |records|));
  }

  /** The advertised zero holds of every imported trace: under the intent family a replay counts no decode-critical
      eviction, at any capacity, whatever ids the requests repeat. */
  lemma ReplayCountsNoCriticalEviction(c: Config, o: Oracle, s: Settings, records: seq<RequestRecord>)
    requires c.policy.intentFamily && SettingsOk(s) && RecordsOk(records)
    ensures var r := Run(c, o, Initial(), Trace(s, records, |records|));
      r.Ok? && r.value.criticalEvictions == 0
  {
    hide Run, Trace, SettingsOk, RecordsOk, Supported, CriticalEvictions.PinnedDecodeEvent, SupportedTrace;
    var events := Trace(s, records, |records|);
    ImportSupported(s, records);
    forall e | e in events ensures CriticalEvictions.PinnedDecodeEvent(e) {
      var i :| 0 <= i < |events| && events[i] == e;
      var k := TraceSupported(s, records, |records|, i);
    }
    CriticalEvictions.EmptyIsSound();
    CriticalEvictions.RunCountsNoCriticalEviction(c, o, Initial(), events);
  }

  /** When every request completed, nothing is left anywhere, whatever the request ids and their order. */
  lemma ReplayEmptiesMemory(c: Config, o: Oracle, s: Settings, records: seq<RequestRecord>)
    requires SettingsOk(s) && RecordsOk(records) && AllCompleted(records)
    ensures var sorted := ByArrival(records);
      var r := Run(c, o, Initial(), Trace(s, sorted, |sorted|));
      r.Ok? && r.value.live == map[] && r.value.hbm == {} && r.value.dram == {}
  {
    hide Run, Trace, Held, SettingsOk, RecordOk, Sound, ByArrival, Completed;
    var sorted := ByArrival(records);
    forall r | r in sorted ensures r in records {
      InSorted(records, r);
    }
    ReplayLeavesHeld(c, o, s, sorted);
    NothingHeld(s, sorted);
  }

  lemma ArrivalsOrdered(records: seq<RequestRecord>)
    ensures Sorting.Ordered(ArrivesBefore, ByArrival(records))
  {
    ArrivalIsWeakOrder();
    Sorting.SortOrders(ArrivesBefore, records);
  }
}
