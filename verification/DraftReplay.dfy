/** The generated lifecycle trace: its shape, and what replaying it leaves in memory (benchmark.py). */
module DraftReplay {
  import opened Prelude
  import opened Schema
  import opened Simulation
  import opened Drafts
  import opened DraftWorkload
  import opened DraftPolicy
  import opened Verdicts
  import opened Resolution
  import Residency

  /** `current_blocks`: the last intent the trace gives each object. */
  function LastIntents(events: seq<Event>): LiveMap {
    if events == [] then map[]
    else
      var e := events[|events| - 1];
      LastIntents(events[..|events| - 1])[e.intent.objectId := e.intent]
  }

  /** One past the largest step. */
  function NextStep(events: seq<Event>): nat {
    if events == [] then 0 else Max(NextStep(events[..|events| - 1]), events[|events| - 1].step + 1)
  }

  lemma {:induction false} NumberedNext(events: seq<Event>)
    requires Numbered(events, 0)
    ensures NextStep(events) == |events|
  {
    if events != [] {
      NumberedNext(events[..|events| - 1]);
    }
  }

  lemma ObjectNameInjective(a: nat, b: nat)
    requires ObjectName(a) == ObjectName(b)
    ensures a == b
  {
    assert ObjectName(a)[6..] == Decimal(a) && ObjectName(b)[6..] == Decimal(b);
    DecimalInjective(a, b);
  }

  /** The generated forest has the shape resolution relies on. */
  lemma ForestIsParentFirst(w: nat, draws: nat -> real, n: nat)
    ensures ParentFirst(ForestOf(w, draws, n))
  {
    var t := ForestOf(w, draws, n);
    ForestShape(w, draws, n);
    hide Keyed, ForestOf, ObjectName;
    forall x, y | x in t.nodes && y in t.nodes && t.nodes[x].kvObjectId == t.nodes[y].kvObjectId ensures x == y {
      ObjectNameInjective(x, y);
    }
  }

  function FirstIntent(w: nat, draws: nat -> real, id: nat): MemoryIntent {
    VerifiedIntent(id, Level(w, id), Clamp(draws(id)), 2 * id)
  }

  /** The kept blocks at the start: each node's, verified. */
  ghost predicate FirstBlocks(w: nat, draws: nat -> real, n: nat, blocks: LiveMap) {
    && (forall i: nat | i < n :: ObjectName(i) in blocks && blocks[ObjectName(i)] == FirstIntent(w, draws, i))
    && (forall k | k in blocks :: exists i: nat :: i < n && ObjectName(i) == k)
  }

  lemma FirstBlocksGrow(w: nat, draws: nat -> real, n: nat, blocks: LiveMap)
    requires FirstBlocks(w, draws, n, blocks)
    requires FirstIntent(w, draws, n).objectId == ObjectName(n)
    ensures FirstBlocks(w, draws, n + 1, blocks[ObjectName(n) := FirstIntent(w, draws, n)])
  {
    hide ObjectName, FirstIntent;
    forall i: nat | i < n ensures ObjectName(i) != ObjectName(n) {
      if ObjectName(i) == ObjectName(n) {
        ObjectNameInjective(i, n);
      }
    }
    var after := blocks[ObjectName(n) := FirstIntent(w, draws, n)];
    forall k | k in after ensures exists i: nat :: i < n + 1 && ObjectName(i) == k {
      if k != ObjectName(n) {
        var i: nat :| i < n && ObjectName(i) == k;
      }
    }
  }

  /** Filing two intents of one object keeps the second. */
  lemma LastPair(events: seq<Event>, a: Event, b: Event)
    requires a.intent.objectId == b.intent.objectId
    ensures LastIntents(events + [a] + [b]) == LastIntents(events)[b.intent.objectId := b.intent]
  {
    LastSnoc(events, a);
    LastSnoc(events + [a], b);
  }

  lemma {:induction false} TraceBlocks(w: nat, draws: nat -> real, n: nat)
    ensures FirstBlocks(w, draws, n, LastIntents(AllocationTrace(w, draws, n)))
  {
    if n > 0 {
      hide FirstBlocks, ObjectName, Level, Clamp, AllocationOf, AllocationTrace, FirstIntent, LastIntents;
      TraceBlocks(w, draws, n - 1);
      IntentNames(w, draws, n - 1);
      TraceSnoc(w, draws, n);
      var init, pair := AllocationTrace(w, draws, n - 1), AllocationOf(w, draws, n - 1);
      LastPair(init, pair[0], pair[1]);
      FirstBlocksGrow(w, draws, n - 1, LastIntents(init));
    } else {
      assert AllocationTrace(w, draws, n) == [];
    }
  }

  lemma {:induction false} TraceFreesNothing(w: nat, draws: nat -> real, n: nat)
    ensures CountKind(Freed, AllocationTrace(w, draws, n)) == 0
    ensures CountKind(Committed, AllocationTrace(w, draws, n)) == 0
    ensures FreedBytes(AllocationTrace(w, draws, n)) == 0
  {
    if n > 0 {
      hide AllocationOf, AllocationTrace, CountKind, FreedBytes, Level, ObjectName, Clamp;
      TraceFreesNothing(w, draws, n - 1);
      IntentNames(w, draws, n - 1);
      TraceSnoc(w, draws, n);
      var init, pair := AllocationTrace(w, draws, n - 1), AllocationOf(w, draws, n - 1);
      FreedOneMore(init, pair[0]);
      FreedOneMore(init + [pair[0]], pair[1]);
    } else {
      assert AllocationTrace(w, draws, n) == [];
    }
  }

  lemma TraceSnoc(w: nat, draws: nat -> real, n: nat)
    requires n > 0
    ensures var pair := AllocationOf(w, draws, n - 1);
      AllocationTrace(w, draws, n) == AllocationTrace(w, draws, n - 1) + [pair[0]] + [pair[1]]
  {
    hide AllocationOf;
    var pair := AllocationOf(w, draws, n - 1);
    assert pair == [pair[0]] + [pair[1]];
  }

  lemma LastSnoc(events: seq<Event>, e: Event)
    ensures LastIntents(events + [e]) == LastIntents(events)[e.intent.objectId := e.intent]
  {
    assert (events + [e])[..|events|] == events;
  }

  lemma IntentNames(w: nat, draws: nat -> real, id: nat)
    ensures var pair := AllocationOf(w, draws, id);
      && pair[0].kind == Allocated && pair[1].kind == Accessed
      && pair[0].intent.objectId == ObjectName(id) && pair[1].intent.objectId == ObjectName(id)
      && pair[1].intent == FirstIntent(w, draws, id)
      && FirstIntent(w, draws, id).objectId == ObjectName(id)
      && Valid(FirstIntent(w, draws, id)) && FirstIntent(w, draws, id).blockId == id
      && FirstIntent(w, draws, id).isDraft && FirstIntent(w, draws, id).allowedTiers == {HBM, DRAM}
  {
    hide Level, Clamp, ObjectName, Decimal;
    NameNotEmpty(id);
    DraftIntentAccepted(id, Level(w, id), Clamp(draws(id)), 2 * id);
    ConstructYieldsValid(FirstIntent(w, draws, id));
  }

  lemma NameNotEmpty(id: nat)
    ensures ObjectName(id) != ""
  {
  }

  lemma ForestIsDrafted(w: nat, draws: nat -> real, n: nat)
    ensures Drafted(ForestOf(w, draws, n), LastIntents(AllocationTrace(w, draws, n)))
  {
    var t, start := ForestOf(w, draws, n), LastIntents(AllocationTrace(w, draws, n));
    TraceBlocks(w, draws, n);
    ForestShape(w, draws, n);
    hide Keyed, ForestOf, ObjectName, AllocationTrace, LastIntents, FirstIntent;
    forall x: int | x in t.nodes
      ensures t.nodes[x].kvObjectId == ObjectName(x) && ObjectName(x) in start
      ensures var b := start[t.nodes[x].kvObjectId]; Valid(b) && b.blockId == x && b.isDraft
    {
      IntentNames(w, draws, x);
    }
    forall k ensures k in ObjectsOf(t, t.nodes.Keys) <==> k in start {
      if k in start {
        var i: nat :| i < n && ObjectName(i) == k;
        assert i in t.nodes;
      }
    }
  }

  /** The trace the driver returns: the allocations, then in some order one terminal event per node. */
  ghost predicate IsLifecycle(
    w: nat, draws: nat -> real, n: nat, draw: int -> real, events: seq<Event>, resolved: seq<int>)
  {
    var t, base := ForestOf(w, draws, n), AllocationTrace(w, draws, n);
    && (w > 0 ==> n <= NodesBelow(w, 11))
    && Enumerates(resolved, t.nodes.Keys)
    && base <= events && TerminalEvents(t, draw, LastIntents(base), resolved, events[|base|..])
    && Numbered(events, 0)
  }

  lemma SettledName(t: DraftTree, draw: int -> real, start: LiveMap, y: int, e: Event)
    requires Settles(t, draw, start, y, e)
    ensures e.intent.objectId == t.nodes[y].kvObjectId
  {
  }

  lemma LifecycleLength(
    w: nat, draws: nat -> real, n: nat, draw: int -> real, events: seq<Event>, resolved: seq<int>)
    requires IsLifecycle(w, draws, n, draw, events, resolved)
    ensures |AllocationTrace(w, draws, n)| == 2 * n && |resolved| == n && |events| == 3 * n
  {
    hide Settles, AllocationTrace, LastIntents;
    var t := ForestOf(w, draws, n);
    TraceLength(w, draws, n);
    ForestShape(w, draws, n);
    EnumeratesSize(resolved, t.nodes.Keys);
    EnumeratesSize(t.order, t.nodes.Keys);
  }

  /** Exactly one terminal event names a node's object, and it says what was decided. */
  lemma EachNodeSettledOnce(
    w: nat, draws: nat -> real, n: nat, draw: int -> real, events: seq<Event>, resolved: seq<int>, x: nat)
    returns (i: nat)
    requires IsLifecycle(w, draws, n, draw, events, resolved) && x < n
    ensures |events| == 3 * n && 2 * n <= i < 3 * n
    ensures Settles(ForestOf(w, draws, n), draw, LastIntents(AllocationTrace(w, draws, n)), x, events[i])
    ensures forall j | 2 * n <= j < 3 * n && events[j].intent.objectId == ObjectName(x) :: j == i
  {
    hide Settles, AllocationTrace, LastIntents, ObjectName, Level;
    var t, start := ForestOf(w, draws, n), LastIntents(AllocationTrace(w, draws, n));
    LifecycleLength(w, draws, n, draw, events, resolved);
    assert x in t.nodes;
    var k: nat :| k < n && resolved[k] == x;
    i := 2 * n + k;
    var tail := events[2 * n..];
    assert tail[k] == events[i];
    forall j | 2 * n <= j < 3 * n && events[j].intent.objectId == ObjectName(x) ensures j == i {
      var m := j - 2 * n;
      assert tail[m] == events[j];
      assert Settles(t, draw, start, resolved[m], tail[m]);
      assert resolved[m] in t.nodes;
      SettledName(t, draw, start, resolved[m], tail[m]);
      ObjectNameInjective(resolved[m], x);
    }
  }

  /** Some event of this kind names the object. */
  ghost predicate Names(events: seq<Event>, kind: EventType, id: string) {
    exists i :: 0 <= i < |events| && events[i].kind == kind && events[i].intent.objectId == id
  }

  /** A node is committed if every draw from it up to its root was below its node's probability, and freed if not. */
  ghost predicate FollowsDraws(t: DraftTree, draw: int -> real, events: seq<Event>) {
    forall x | x in t.nodes ::
      && (Names(events, Committed, t.nodes[x].kvObjectId) <==>
            forall y | y in t.nodes && Under(t, x, y) :: draw(y) < t.nodes[y].acceptanceProb)
      && (Names(events, Freed, t.nodes[x].kvObjectId) <==> !Names(events, Committed, t.nodes[x].kvObjectId))
  }

  /** The events before the verdicts allocate and access. */
  lemma BaseKinds(w: nat, draws: nat -> real, n: nat, i: nat)
    requires i < 2 * n
    ensures |AllocationTrace(w, draws, n)| == 2 * n
    ensures AllocationTrace(w, draws, n)[i].kind == Allocated || AllocationTrace(w, draws, n)[i].kind == Accessed
  {
    TraceAt(w, draws, n, i / 2);
    hide AllocationTrace, Level;
    assert i == 2 * (i / 2) || i == 2 * (i / 2) + 1;
  }

  /** Up to there, the whole trace is the allocation trace. */
  lemma BaseEvent(
    w: nat, draws: nat -> real, n: nat, draw: int -> real, events: seq<Event>, resolved: seq<int>, j: nat)
    requires IsLifecycle(w, draws, n, draw, events, resolved) && j < 2 * n
    ensures j < |events| && (events[j].kind == Allocated || events[j].kind == Accessed)
  {
    BaseKinds(w, draws, n, j);
    hide AllocationTrace, ForestOf;
    assert AllocationTrace(w, draws, n)[j] == events[j];
  }

  lemma NodeSettledAsDrawn(
    w: nat, draws: nat -> real, n: nat, draw: int -> real, events: seq<Event>, resolved: seq<int>, x: nat)
    requires IsLifecycle(w, draws, n, draw, events, resolved) && x < n
    ensures x in ForestOf(w, draws, n).nodes
    ensures var t := ForestOf(w, draws, n);
      && (Names(events, Committed, ObjectName(x)) <==> Accepted(t, draw, x))
      && (Names(events, Freed, ObjectName(x)) <==> !Accepted(t, draw, x))
  {
    var t, start := ForestOf(w, draws, n), LastIntents(AllocationTrace(w, draws, n));
    assert x in t.nodes && t.nodes[x].kvObjectId == ObjectName(x);
    hide Settles, AllocationTrace, LastIntents, ObjectName, Level, Accepted, ForestOf;
    var i := EachNodeSettledOnce(w, draws, n, draw, events, resolved, x);
    SettledKind(t, draw, start, x, events[i]);
    SettledName(t, draw, start, x, events[i]);
    forall j | 0 <= j < |events| && events[j].intent.objectId == ObjectName(x)
               && (events[j].kind == Committed || events[j].kind == Freed)
      ensures j == i
    {
      if j < 2 * n {
        BaseEvent(w, draws, n, draw, events, resolved, j);
      }
    }
    hide IsLifecycle;
  }

  /** The whole trace follows the draws. */
  lemma LifecycleFollowsDraws(
    w: nat, draws: nat -> real, n: nat, draw: int -> real, events: seq<Event>, resolved: seq<int>)
    requires IsLifecycle(w, draws, n, draw, events, resolved)
    ensures FollowsDraws(ForestOf(w, draws, n), draw, events)
  {
    ForestShape(w, draws, n);
    ForestIsParentFirst(w, draws, n);
    var t := ForestOf(w, draws, n);
    hide ForestOf, IsLifecycle, Names, Accepted, ParentFirst, Level, ParentOf, ObjectName;
    forall x | x in t.nodes
      ensures Names(events, Committed, t.nodes[x].kvObjectId) <==>
        forall y | y in t.nodes && Under(t, x, y) :: draw(y) < t.nodes[y].acceptanceProb
      ensures Names(events, Freed, t.nodes[x].kvObjectId) <==> !Names(events, Committed, t.nodes[x].kvObjectId)
    {
      NodeSettledAsDrawn(w, draws, n, draw, events, resolved, x);
      AcceptedExactly(t, draw, x);
    }
  }

  /** Whatever the node's draw was: it is freed at a verification draw of 0.95 or more, and committed if the draws
      from it up to its root are all below 0.05. */
  lemma SureVerdicts(t: DraftTree, draws: nat -> real, draw: int -> real, events: seq<Event>, x: nat)
    requires DrawnFrom(t, draws) && FollowsDraws(t, draw, events) && x in t.nodes
    requires forall y | y in t.nodes :: y >= 0
    ensures draw(x) >= 0.95 ==> Names(events, Freed, t.nodes[x].kvObjectId)
    ensures (forall y | y in t.nodes && Under(t, x, y) :: draw(y) < 0.05) ==>
      Names(events, Committed, t.nodes[x].kvObjectId)
  {
    hide Names;
    assert Under(t, x, x);
    hide Under;
  }

  lemma SettledKind(t: DraftTree, draw: int -> real, start: LiveMap, y: int, e: Event)
    requires Settles(t, draw, start, y, e)
    ensures e.kind == if Accepted(t, draw, y) then Committed else Freed
  {
  }

  lemma {:induction false} TerminalsCounted(
    t: DraftTree, draw: int -> real, start: LiveMap, resolved: seq<int>, tail: seq<Event>, base: seq<Event>)
    requires TerminalEvents(t, draw, start, resolved, tail)
    ensures CountKind(Committed, base + tail) + CountKind(Freed, base + tail)
         == CountKind(Committed, base) + CountKind(Freed, base) + |tail|
    decreases |tail|
  {
    hide Settles, CountKind;
    if tail == [] {
      assert base + tail == base;
    } else {
      var last := |tail| - 1;
      TerminalsCounted(t, draw, start, resolved[..last], tail[..last], base);
      assert base + tail == base + tail[..last] + [tail[last]];
      FreedOneMore(base + tail[..last], tail[last]);
      SettledKind(t, draw, start, resolved[last], tail[last]);
    }
  }

  /** Committed and freed nodes add up to the tree. */
  lemma CommittedPlusFreed(
    w: nat, draws: nat -> real, n: nat, draw: int -> real, events: seq<Event>, resolved: seq<int>)
    requires IsLifecycle(w, draws, n, draw, events, resolved)
    ensures CountKind(Committed, events) + CountKind(Freed, events) == n
  {
    hide CountKind, Settles, TerminalEvents, AllocationTrace, LastIntents, Enumerates;
    var t, base := ForestOf(w, draws, n), AllocationTrace(w, draws, n);
    LifecycleLength(w, draws, n, draw, events, resolved);
    TraceFreesNothing(w, draws, n);
    TerminalsCounted(t, draw, LastIntents(base), resolved, events[|base|..], base);
    assert base + events[|base|..] == events;
  }

  /** The objects of the nodes that were accepted together with everything above them. */
  ghost function CommittedObjects(t: DraftTree, draw: int -> real): set<string> {
    set x | x in t.nodes && Accepted(t, draw, x) :: t.nodes[x].kvObjectId
  }

  ghost function FreedIds(events: seq<Event>): set<string> {
    set e | e in events && e.kind == Freed :: e.intent.objectId
  }

  predicate OnlyTerminal(events: seq<Event>) {
    forall e | e in events :: e.kind == Committed || e.kind == Freed
  }

  lemma {:induction false} KeysAfterTerminals(keys: set<string>, events: seq<Event>)
    requires OnlyTerminal(events)
    ensures Residency.KeysAfter(keys, events) == keys - FreedIds(events)
    ensures Residency.FreshAllocations(keys, events)
    decreases |events|
  {
    if events != [] {
      var e, rest := events[0], events[1..];
      var next := Residency.NextKeys(keys, e.kind, e.intent.objectId);
      KeysAfterTerminals(next, rest);
      assert events == [e] + rest;
      assert FreedIds(events) == FreedIds(rest) + if e.kind == Freed then {e.intent.objectId} else {};
    }
  }

  /** The objects of the first `n` nodes. */
  function FirstNames(n: nat): set<string> {
    set i: nat | i < n :: ObjectName(i)
  }

  lemma FirstNamesGrow(n: nat)
    ensures FirstNames(0) == {}
    ensures FirstNames(n + 1) == FirstNames(n) + {ObjectName(n)} && ObjectName(n) !in FirstNames(n)
  {
    hide ObjectName;
    if ObjectName(n) in FirstNames(n) {
      var i: nat :| i < n && ObjectName(i) == ObjectName(n);
      ObjectNameInjective(i, n);
    }
  }

  lemma {:induction false} KeysAfterAllocations(w: nat, draws: nat -> real, n: nat)
    ensures Residency.KeysAfter({}, AllocationTrace(w, draws, n)) == FirstNames(n)
    ensures Residency.FreshAllocations({}, AllocationTrace(w, draws, n))
  {
    if n > 0 {
      hide ObjectName, AllocationTrace, AllocationOf, FirstIntent, Level, Clamp, FirstNames;
      hide Residency.KeysAfter, Residency.FreshAllocations;
      KeysAfterAllocations(w, draws, n - 1);
      IntentNames(w, draws, n - 1);
      var init, pair := AllocationTrace(w, draws, n - 1), AllocationOf(w, draws, n - 1);
      TraceSnoc(w, draws, n);
      assert init + [pair[0]] + [pair[1]] == init + pair;
      Residency.KeysAfterConcat({}, init, pair);
      FirstNamesGrow(n - 1);
      PairKeys(FirstNames(n - 1), pair, ObjectName(n - 1));
    } else {
      FirstNamesGrow(0);
      assert AllocationTrace(w, draws, n) == [];
    }
  }

  lemma PairKeys(keys: set<string>, pair: seq<Event>, id: string)
    requires |pair| == 2 && pair[0].kind == Allocated && pair[1].kind == Accessed
    requires pair[0].intent.objectId == id && pair[1].intent.objectId == id && id !in keys
    ensures Residency.KeysAfter(keys, pair) == keys + {id} && Residency.FreshAllocations(keys, pair)
  {
    var k1 := keys + {id};
    assert pair[1..][1..] == [] && pair[1..][0] == pair[1];
    assert Residency.KeysAfter(k1, pair[1..]) == k1;
    assert Residency.FreshAllocations(k1, pair[1..]);
  }

  lemma AllocationSupported(w: nat, draws: nat -> real, n: nat, i: nat)
    requires i < 2 * n && (w > 0 ==> n <= NodesBelow(w, 11))
    ensures |AllocationTrace(w, draws, n)| == 2 * n && Residency.Supported(AllocationTrace(w, draws, n)[i])
  {
    var id := i / 2;
    TraceAt(w, draws, n, id);
    if w > 0 {
      LevelRange(w, id, 11);
    }
    hide AllocationTrace, Level, Clamp, NodesBelow;
    assert w == 0 ==> ParentOf(w, id).None?;
    NoParent(w, id);
    DraftIntentAccepted(id, Level(w, id), Clamp(draws(id)), 2 * id);
    assert i == 2 * id || i == 2 * id + 1;
  }

  lemma NoParent(w: nat, id: nat)
    ensures w == 0 ==> Level(w, id) == 0
  {
  }

  lemma TerminalSupported(
    w: nat, draws: nat -> real, n: nat, t: DraftTree, draw: int -> real, y: int, e: Event)
    requires t == ForestOf(w, draws, n)
    requires Settles(t, draw, LastIntents(AllocationTrace(w, draws, n)), y, e)
    ensures Residency.Supported(e) && (e.kind == Committed || e.kind == Freed)
  {
    TraceBlocks(w, draws, n);
    ForestShape(w, draws, n);
    hide Keyed, ForestOf, AllocationTrace, LastIntents, ObjectName, FirstIntent, Level;
    IntentNames(w, draws, y);
    assert e.intent.allowedTiers == {HBM, DRAM};
    ConstructYieldsValid(e.intent);
  }

  /** Replayed under any policy, capacities and iteration order, the trace runs to the end and leaves live
      exactly the committed nodes' objects; nothing else is resident anywhere. */
  lemma ReplayLeavesCommitted(c: Config, o: Oracle, w: nat, draws: nat -> real, n: nat, draw: int -> real,
                              events: seq<Event>, resolved: seq<int>)
    requires IsLifecycle(w, draws, n, draw, events, resolved)
    ensures var r := Run(c, o, Initial(), events);
      && r.Ok? && Residency.Placed(r.value)
      && r.value.live.Keys == CommittedObjects(ForestOf(w, draws, n), draw)
      && r.value.hbm + r.value.dram <= CommittedObjects(ForestOf(w, draws, n), draw)
  {
    hide Run, IsLifecycle, CommittedObjects, Residency.Placed, Residency.Sound, Residency.KeysAfter;
    LifecycleSupported(w, draws, n, draw, events, resolved);
    LifecycleKeys(w, draws, n, draw, events, resolved);
    Residency.FreshRunFromEmpty(c, o, events);
  }

  lemma LifecycleSupported(
    w: nat, draws: nat -> real, n: nat, draw: int -> real, events: seq<Event>, resolved: seq<int>)
    requires IsLifecycle(w, draws, n, draw, events, resolved)
    ensures Residency.SupportedTrace(events) && OnlyTerminal(events[|AllocationTrace(w, draws, n)|..])
  {
    hide Settles, AllocationTrace, LastIntents, ForestOf, Residency.Supported, Enumerates, NodesBelow;
    var t, base := ForestOf(w, draws, n), AllocationTrace(w, draws, n);
    var tail := events[|base|..];
    LifecycleLength(w, draws, n, draw, events, resolved);
    forall i | 0 <= i < |events|
      ensures Residency.Supported(events[i])
      ensures i >= 2 * n ==> events[i].kind == Committed || events[i].kind == Freed
    {
      if i < 2 * n {
        AllocationSupported(w, draws, n, i);
        assert base[i] == events[i];
      } else {
        assert tail[i - 2 * n] == events[i];
        TerminalSupported(w, draws, n, t, draw, resolved[i - 2 * n], events[i]);
      }
    }
    forall e | e in tail ensures e.kind == Committed || e.kind == Freed {
      var i :| 0 <= i < |tail| && tail[i] == e;
      assert events[2 * n + i] == e;
    }
  }

  /** The nodes whose objects are freed by the terminal events. */
  lemma FreedAreRefused(
    w: nat, draws: nat -> real, n: nat, draw: int -> real, events: seq<Event>, resolved: seq<int>)
    requires IsLifecycle(w, draws, n, draw, events, resolved)
    ensures var t, base := ForestOf(w, draws, n), AllocationTrace(w, draws, n);
      forall y | y in t.nodes ::
        t.nodes[y].kvObjectId in FreedIds(events[|base|..]) <==> !Accepted(t, draw, y)
  {
    hide Settles, AllocationTrace, LastIntents, ForestOf, NodesBelow, Accepted;
    var t, base := ForestOf(w, draws, n), AllocationTrace(w, draws, n);
    var start, tail := LastIntents(base), events[|base|..];
    ForestIsParentFirst(w, draws, n);
    forall y | y in t.nodes ensures t.nodes[y].kvObjectId in FreedIds(tail) <==> !Accepted(t, draw, y) {
      var k :| 0 <= k < |resolved| && resolved[k] == y;
      SettledName(t, draw, start, y, tail[k]);
      SettledKind(t, draw, start, y, tail[k]);
      if t.nodes[y].kvObjectId in FreedIds(tail) {
        var e :| e in tail && e.kind == Freed && e.intent.objectId == t.nodes[y].kvObjectId;
        var m :| 0 <= m < |tail| && tail[m] == e;
        SettledName(t, draw, start, resolved[m], tail[m]);
        SettledKind(t, draw, start, resolved[m], tail[m]);
        assert resolved[m] in t.nodes;
      }
    }
  }

  lemma LifecycleKeys(
    w: nat, draws: nat -> real, n: nat, draw: int -> real, events: seq<Event>, resolved: seq<int>)
    requires IsLifecycle(w, draws, n, draw, events, resolved)
    ensures Residency.KeysAfter({}, events) == CommittedObjects(ForestOf(w, draws, n), draw)
    ensures Residency.FreshAllocations({}, events)
  {
    hide Settles, Accepted, TerminalEvents, LastIntents, NodesBelow, AllocationTrace, Enumerates;
    var t, base := ForestOf(w, draws, n), AllocationTrace(w, draws, n);
    var tail := events[|base|..];
    assert base + tail == events;
    LifecycleSupported(w, draws, n, draw, events, resolved);
    FreedAreRefused(w, draws, n, draw, events, resolved);
    KeysAfterAllocations(w, draws, n);
    var names := FirstNames(n);
    KeysAfterTerminals(names, tail);
    Residency.KeysAfterConcat({}, base, tail);
    NamesOfNodes(w, draws, n);
    hide ForestOf, FreedIds, ObjectName;
    assert names - FreedIds(tail) == CommittedObjects(t, draw);
  }

  lemma NamesOfNodes(w: nat, draws: nat -> real, n: nat)
    ensures var t := ForestOf(w, draws, n);
      FirstNames(n) == set x | x in t.nodes :: t.nodes[x].kvObjectId
  {
    hide ObjectName;
    var t := ForestOf(w, draws, n);
    forall i: nat | i < n ensures i in t.nodes && t.nodes[i].kvObjectId == ObjectName(i) {
    }
  }
}
