/** How the trace, the kept blocks and the counts grow while a draft tree is resolved (benchmark.py). */
module Resolution {
  import opened Prelude
  import opened Schema
  import opened Simulation
  import opened Drafts
  import opened DraftPolicy
  import opened Verdicts

  /** The record of an object with only its protection and access marks changed. */
  predicate Remarked(b: MemoryIntent, from: MemoryIntent) {
    Valid(b) && b == from.(priority := b.priority, phase := b.phase, pinRequested := b.pinRequested,
                           isDraft := b.isDraft, isCommitted := b.isCommitted, lastAccessStep := b.lastAccessStep)
  }

  /** Each node's block, as first filed. */
  ghost predicate Drafted(t: DraftTree, start: LiveMap) {
    && ObjectsOf(t, t.nodes.Keys) == start.Keys
    && forall x | x in t.nodes ::
         var b := start[t.nodes[x].kvObjectId];
         Valid(b) && b.blockId == x && b.isDraft
  }

  /** A block under an accepted node: decoded from now on, protected, pinned, and no draft any more. */
  predicate Restored(b: MemoryIntent) {
    b.phase == Decode && b.priority == DecodeCritical && b.pinRequested && !b.isDraft && b.isCommitted
  }

  /** The terminal event of node `y`: COMMITTED if the node and everything above it were accepted, else FREED. A freed
      block is as it was first filed exactly when its root was refused; the others are restored first. */
  predicate Settles(t: DraftTree, draw: int -> real, start: LiveMap, y: int, e: Event) {
    && y in t.nodes && t.nodes[y].kvObjectId in start
    && Remarked(e.intent, start[t.nodes[y].kvObjectId])
    && RootOf(t, y) in t.nodes && e.intent.lastAccessStep == e.step
    && e.kind == (if Accepted(t, draw, y) then Committed else Freed)
    && if Accepted(t, draw, RootOf(t, y)) then Restored(e.intent)
       else e.intent == start[t.nodes[y].kvObjectId].(lastAccessStep := e.step)
  }

  predicate Numbered(events: seq<Event>, from: nat) {
    forall i | 0 <= i < |events| :: events[i].step == from + i
  }

  /** `tail` holds, in order, one terminal event for each of `resolved`. */
  ghost predicate TerminalEvents(
    t: DraftTree, draw: int -> real, start: LiveMap, resolved: seq<int>, tail: seq<Event>)
  {
    |tail| == |resolved| && forall i | 0 <= i < |resolved| :: Settles(t, draw, start, resolved[i], tail[i])
  }

  /** All but the refused nodes of `done` keep their blocks. */
  ghost predicate Present(t: DraftTree, draw: int -> real, done: set<int>, blocks: LiveMap) {
    forall y | y in t.nodes :: t.nodes[y].kvObjectId in blocks <==> !(y in done && !Accepted(t, draw, y))
  }

  ghost predicate AllRemarked(start: LiveMap, blocks: LiveMap) {
    blocks.Keys <= start.Keys && forall k | k in blocks :: Remarked(blocks[k], start[k])
  }

  /** A kept block stays as it was filed until its root is resolved, and is restored then. */
  ghost predicate DraftsUntilRoot(t: DraftTree, start: LiveMap, done: set<int>, blocks: LiveMap) {
    forall y | y in t.nodes && t.nodes[y].kvObjectId in blocks && t.nodes[y].kvObjectId in start ::
      var k := t.nodes[y].kvObjectId;
      if RootOf(t, y) in done then Restored(blocks[k]) else blocks[k] == start[k]
  }

  /** The blocks still kept once the nodes of `done` have their events. */
  ghost predicate Kept(t: DraftTree, draw: int -> real, start: LiveMap, done: set<int>, blocks: LiveMap) {
    Present(t, draw, done, blocks) && AllRemarked(start, blocks) && DraftsUntilRoot(t, start, done, blocks)
  }

  /** A node is resolved only below accepted, resolved nodes. */
  ghost predicate Rooted(t: DraftTree, draw: int -> real, done: set<int>, x: int) {
    && x in t.nodes
    && (t.nodes[x].parentId.Some? ==>
          t.nodes[x].parentId.value in done && t.nodes[x].parentId.value in t.nodes
          && Accepted(t, draw, t.nodes[x].parentId.value))
  }

  ghost predicate RootsDone(t: DraftTree, done: set<int>) {
    done <= t.nodes.Keys && forall y | y in done :: RootOf(t, y) in done
  }

  function CountKind(kind: EventType, events: seq<Event>): nat {
    if events == [] then 0
    else CountKind(kind, events[..|events| - 1]) + if events[|events| - 1].kind == kind then 1 else 0
  }

  function FreedBytes(events: seq<Event>): int {
    if events == [] then 0
    else FreedBytes(events[..|events| - 1])
         + if events[|events| - 1].kind == Freed then events[|events| - 1].intent.sizeBytes else 0
  }

  function Releases(intents: seq<MemoryIntent>, from: nat): (r: seq<Event>)
    ensures |r| == |intents|
  {
    seq(|intents|, i requires 0 <= i < |intents| => Event(from + i, Freed, intents[i].(lastAccessStep := from + i)))
  }

  function TotalSize(intents: seq<MemoryIntent>): int {
    if intents == [] then 0 else TotalSize(intents[..|intents| - 1]) + intents[|intents| - 1].sizeBytes
  }

  /** A node below resolved, accepted ones has an accepted root; a root is its own. */
  lemma RootVerdict(t: DraftTree, draw: int -> real, done: set<int>, x: int)
    requires ParentFirst(t) && RootsDone(t, done) && Rooted(t, draw, done, x)
    ensures RootOf(t, x) in t.nodes
    ensures if t.nodes[x].parentId.None? then RootOf(t, x) == x
            else RootOf(t, x) in done && Accepted(t, draw, RootOf(t, x))
  {
    UnderRoot(t, x, x);
    if t.nodes[x].parentId.Some? {
      AcceptedRoot(t, draw, t.nodes[x].parentId.value);
    }
  }

  lemma {:induction false} AcceptedRoot(t: DraftTree, draw: int -> real, x: int)
    requires ParentFirst(t) && x in t.nodes && Accepted(t, draw, x)
    ensures RootOf(t, x) in t.nodes && Accepted(t, draw, RootOf(t, x))
    decreases x
  {
    if t.nodes[x].parentId.Some? {
      AcceptedRoot(t, draw, t.nodes[x].parentId.value);
    }
  }

  /** Every node below a refused node is refused, and its root is accepted unless it is that node. */
  lemma BelowRefused(t: DraftTree, draw: int -> real, done: set<int>, x: int, y: int)
    requires ParentFirst(t) && RootsDone(t, done) && Rooted(t, draw, done, x) && Subtree(t, x) !! done
    requires !Accepted(t, draw, x) && y in Subtree(t, x)
    ensures !Accepted(t, draw, y) && RootOf(t, y) in t.nodes
    ensures RootOf(t, y) !in done <==> !Accepted(t, draw, RootOf(t, y))
  {
    UnderRejected(t, draw, y, x);
    UnderRoot(t, y, x);
    RootVerdict(t, draw, done, x);
    hide Accepted, RootOf;
    assert Under(t, x, x) && x in Subtree(t, x);
  }

  /** What a refused node's FREED event says about each block below it. */
  lemma RefusedSettles(
    t: DraftTree, draw: int -> real, start: LiveMap, done: set<int>, blocks: LiveMap, x: int, y: int, step: nat)
    requires ParentFirst(t) && Kept(t, draw, start, done, blocks)
    requires RootsDone(t, done) && Rooted(t, draw, done, x) && Subtree(t, x) !! done
    requires !Accepted(t, draw, x) && y in Subtree(t, x)
    ensures t.nodes[y].kvObjectId in blocks
    ensures Settles(t, draw, start, y, Event(step, Freed, blocks[t.nodes[y].kvObjectId].(lastAccessStep := step)))
  {
    hide Accepted, RootOf, ParentFirst, Rooted, RootsDone;
    BelowRefused(t, draw, done, x, y);
    assert y !in done;
  }

  lemma SubtreeObjects(t: DraftTree, x: int, y: int)
    requires ParentFirst(t) && y in t.nodes
    ensures t.nodes[y].kvObjectId in ObjectsOf(t, Subtree(t, x)) <==> y in Subtree(t, x)
  {
    hide Under;
  }

  /** Resolving below `x` resolves the root of no node outside. */
  lemma OtherRoots(t: DraftTree, x: int, y: int)
    requires ParentFirst(t) && x in t.nodes && y in t.nodes && y !in Subtree(t, x)
    ensures RootOf(t, y) !in Subtree(t, x)
  {
    UnderRoot(t, y, y);
    hide RootOf;
    var r := RootOf(t, y);
    assert Under(t, r, x) ==> r == x;
  }

  /** After a refusal the whole subtree is done and its blocks are gone. */
  lemma RefusalKeeps(t: DraftTree, draw: int -> real, start: LiveMap, done: set<int>, blocks: LiveMap, x: int)
    requires ParentFirst(t) && Kept(t, draw, start, done, blocks)
    requires RootsDone(t, done) && Rooted(t, draw, done, x) && Subtree(t, x) !! done && !Accepted(t, draw, x)
    ensures Kept(t, draw, start, done + Subtree(t, x), DropAll(blocks, ObjectsOf(t, Subtree(t, x))))
  {
    hide Accepted, RootOf, Subtree, ParentFirst, Rooted, RootsDone, ObjectsOf, Remarked;
    forall y | y in t.nodes
      ensures t.nodes[y].kvObjectId in ObjectsOf(t, Subtree(t, x)) <==> y in Subtree(t, x)
      ensures y in Subtree(t, x) ==> !Accepted(t, draw, y)
      ensures y !in Subtree(t, x) ==> RootOf(t, y) !in Subtree(t, x)
    {
      SubtreeObjects(t, x, y);
      if y in Subtree(t, x) {
        BelowRefused(t, draw, done, x, y);
      } else {
        RootedIn(t, draw, done, x);
        OtherRoots(t, x, y);
      }
    }
  }

  lemma RootedIn(t: DraftTree, draw: int -> real, done: set<int>, x: int)
    requires Rooted(t, draw, done, x)
    ensures x in t.nodes && x in Subtree(t, x)
  {
  }

  lemma RootsStayDone(t: DraftTree, draw: int -> real, done: set<int>, x: int, more: set<int>)
    requires ParentFirst(t) && RootsDone(t, done) && Rooted(t, draw, done, x)
    requires x in more && more <= Subtree(t, x)
    ensures RootsDone(t, done + more)
  {
    RootVerdict(t, draw, done, x);
    hide Accepted;
    forall y | y in more ensures RootOf(t, y) in done + more {
      UnderRoot(t, y, x);
      assert t.nodes[x].parentId.None? ==> RootOf(t, y) == x;
    }
  }

  lemma PromotedRemarked(b: MemoryIntent, from: MemoryIntent, step: int)
    requires Remarked(b, from)
    ensures Remarked(Promoted(b), from) && Remarked(Promoted(b).(lastAccessStep := step), from)
    ensures Construct(b.(lastAccessStep := step)) == Ok(b.(lastAccessStep := step))
    ensures Construct(Promoted(b).(lastAccessStep := step)) == Ok(Promoted(b).(lastAccessStep := step))
  {
    ConstructYieldsValid(b.(lastAccessStep := step));
    ConstructYieldsValid(Promoted(b).(lastAccessStep := step));
  }

  /** What an accepted node's COMMITTED event says. */
  lemma AcceptedSettles(
    t: DraftTree, draw: int -> real, start: LiveMap, done: set<int>, blocks: LiveMap, x: int, step: nat)
    requires ParentFirst(t) && Kept(t, draw, start, done, blocks)
    requires RootsDone(t, done) && Rooted(t, draw, done, x) && Subtree(t, x) !! done && Accepted(t, draw, x)
    ensures var k := t.nodes[x].kvObjectId;
      k in blocks && Settles(t, draw, start, x, Event(step, Committed, Promoted(blocks[k]).(lastAccessStep := step)))
  {
    RootVerdict(t, draw, done, x);
    RootedIn(t, draw, done, x);
    hide Accepted, RootOf, ParentFirst, Rooted, RootsDone, Remarked;
    PromotedRemarked(blocks[t.nodes[x].kvObjectId], start[t.nodes[x].kvObjectId], step);
  }

  /** After an acceptance the node is done and everything below it is promoted. */
  lemma AcceptanceKeeps(t: DraftTree, draw: int -> real, start: LiveMap, done: set<int>, blocks: LiveMap, x: int)
    requires ParentFirst(t) && Kept(t, draw, start, done, blocks)
    requires RootsDone(t, done) && Rooted(t, draw, done, x) && Accepted(t, draw, x)
    ensures Kept(t, draw, start, done + {x}, PromoteAll(blocks, ObjectsOf(t, Subtree(t, x))))
  {
    hide Accepted, RootOf, Subtree, ParentFirst, Rooted, RootsDone, ObjectsOf, Remarked, Promoted, Restored;
    RootedIn(t, draw, done, x);
    forall y | y in t.nodes
      ensures t.nodes[y].kvObjectId in ObjectsOf(t, Subtree(t, x)) <==> y in Subtree(t, x)
      ensures if y in Subtree(t, x) then RootOf(t, y) in done + {x} else RootOf(t, y) != x
    {
      SubtreeObjects(t, x, y);
      if y in Subtree(t, x) {
        SubtreeRoot(t, draw, done, x, y);
      } else {
        OtherRoots(t, x, y);
      }
    }
    forall k | k in blocks
      ensures Remarked(Promoted(blocks[k]), start[k]) && Restored(Promoted(blocks[k]))
    {
      PromotedRemarked(blocks[k], start[k], 0);
      PromotedIsRestored(blocks[k]);
    }
  }

  lemma PromotedIsRestored(b: MemoryIntent)
    ensures Restored(Promoted(b))
  {
  }

  lemma SubtreeRoot(t: DraftTree, draw: int -> real, done: set<int>, x: int, y: int)
    requires ParentFirst(t) && RootsDone(t, done) && Rooted(t, draw, done, x) && y in Subtree(t, x)
    ensures RootOf(t, y) in done + {x}
  {
    UnderRoot(t, y, x);
    RootVerdict(t, draw, done, x);
  }

  ghost function SetOf(s: seq<int>): set<int> {
    set x | x in s
  }

  /** The trace so far: the allocations, then one terminal event for each resolved node. */
  ghost predicate Progress(
    t: DraftTree, draw: int -> real, base: seq<Event>, start: LiveMap,
    events: seq<Event>, blocks: LiveMap, resolved: seq<int>)
  {
    && Enumerates(resolved, SetOf(resolved))
    && base <= events && TerminalEvents(t, draw, start, resolved, events[|base|..])
    && Numbered(events, 0)
    && RootsDone(t, SetOf(resolved))
    && Kept(t, draw, start, SetOf(resolved), blocks)
  }

  /** New terminal events extend the trace. */
  lemma TraceGrows(t: DraftTree, draw: int -> real, base: seq<Event>, start: LiveMap, events: seq<Event>,
                   resolved: seq<int>, more: seq<int>, added: seq<Event>)
    requires base <= events && TerminalEvents(t, draw, start, resolved, events[|base|..]) && Numbered(events, 0)
    requires TerminalEvents(t, draw, start, more, added) && Numbered(added, |events|)
    ensures base <= events + added && Numbered(events + added, 0)
    ensures TerminalEvents(t, draw, start, resolved + more, (events + added)[|base|..])
  {
    hide Settles;
    assert (events + added)[|base|..] == events[|base|..] + added;
  }

  lemma SetGrows(resolved: seq<int>, more: seq<int>, added: set<int>)
    requires Enumerates(resolved, SetOf(resolved)) && Enumerates(more, added) && added !! SetOf(resolved)
    ensures SetOf(resolved + more) == SetOf(resolved) + added
    ensures Enumerates(resolved + more, SetOf(resolved + more))
  {
    EnumeratesConcat(resolved, more, SetOf(resolved), added);
  }

  lemma AcceptStep(t: DraftTree, draw: int -> real, base: seq<Event>, start: LiveMap,
                   events: seq<Event>, blocks: LiveMap, resolved: seq<int>, x: int)
    requires ParentFirst(t) && Progress(t, draw, base, start, events, blocks, resolved)
    requires Rooted(t, draw, SetOf(resolved), x) && Subtree(t, x) !! SetOf(resolved) && Accepted(t, draw, x)
    ensures t.nodes[x].kvObjectId in blocks
    ensures var b := Promoted(blocks[t.nodes[x].kvObjectId]).(lastAccessStep := |events|);
      Progress(t, draw, base, start, events + [Event(|events|, Committed, b)],
               PromoteAll(blocks, ObjectsOf(t, Subtree(t, x))), resolved + [x])
    ensures SetOf(resolved + [x]) == SetOf(resolved) + {x}
  {
    hide Accepted, RootOf, ParentFirst, Rooted, RootsDone, Kept, Settles, Subtree, PromoteAll, ObjectsOf, Promoted;
    hide Enumerates, SetOf;
    var done := SetOf(resolved);
    RootedIn(t, draw, done, x);
    AcceptedSettles(t, draw, start, done, blocks, x, |events|);
    AcceptanceKeeps(t, draw, start, done, blocks, x);
    RootsStayDone(t, draw, done, x, {x});
    var b := Promoted(blocks[t.nodes[x].kvObjectId]).(lastAccessStep := |events|);
    TraceGrows(t, draw, base, start, events, resolved, [x], [Event(|events|, Committed, b)]);
    assert Enumerates([x], {x}) by {
      Singleton(x);
    }
    SetGrows(resolved, [x], {x});
  }

  lemma Singleton(x: int)
    ensures Enumerates([x], {x})
  {
  }

  /** `intents` are the kept blocks of the nodes `ids`, in order. */
  ghost predicate BlocksFor(t: DraftTree, blocks: LiveMap, ids: seq<int>, intents: seq<MemoryIntent>) {
    |intents| == |ids| && forall i | 0 <= i < |ids| :: IsBlockOf(t, blocks, ids[i], intents[i])
  }

  predicate IsBlockOf(t: DraftTree, blocks: LiveMap, x: int, b: MemoryIntent) {
    x in t.nodes && t.nodes[x].kvObjectId in blocks && blocks[t.nodes[x].kvObjectId] == b
  }

  lemma AllRefusedSettle(t: DraftTree, draw: int -> real, start: LiveMap, done: set<int>, blocks: LiveMap, x: int,
                         doomed: seq<int>, intents: seq<MemoryIntent>, from: nat)
    requires ParentFirst(t) && Kept(t, draw, start, done, blocks) && RootsDone(t, done)
    requires Rooted(t, draw, done, x) && Subtree(t, x) !! done && !Accepted(t, draw, x)
    requires Enumerates(doomed, Subtree(t, x)) && BlocksFor(t, blocks, doomed, intents)
    ensures TerminalEvents(t, draw, start, doomed, Releases(intents, from)) && Numbered(Releases(intents, from), from)
  {
    hide Accepted, RootOf, ParentFirst, Rooted, RootsDone, Kept, Settles, Subtree;
    forall i | 0 <= i < |doomed| ensures Settles(t, draw, start, doomed[i], Releases(intents, from)[i]) {
      assert doomed[i] in Subtree(t, x) && IsBlockOf(t, blocks, doomed[i], intents[i]);
      RefusedSettles(t, draw, start, done, blocks, x, doomed[i], from + i);
    }
  }

  lemma RefuseStep(t: DraftTree, draw: int -> real, base: seq<Event>, start: LiveMap, events: seq<Event>,
                   blocks: LiveMap, resolved: seq<int>, x: int, doomed: seq<int>, intents: seq<MemoryIntent>)
    requires ParentFirst(t) && Progress(t, draw, base, start, events, blocks, resolved)
    requires Rooted(t, draw, SetOf(resolved), x) && Subtree(t, x) !! SetOf(resolved) && !Accepted(t, draw, x)
    requires Enumerates(doomed, Subtree(t, x)) && BlocksFor(t, blocks, doomed, intents)
    ensures Progress(t, draw, base, start, events + Releases(intents, |events|),
                     DropAll(blocks, ObjectsOf(t, Subtree(t, x))), resolved + doomed)
    ensures SetOf(resolved + doomed) == SetOf(resolved) + Subtree(t, x)
  {
    hide Accepted, RootOf, ParentFirst, Rooted, RootsDone, Kept, Settles, Subtree, DropAll, ObjectsOf;
    hide Enumerates, SetOf, TerminalEvents, Numbered, Releases, BlocksFor;
    var done := SetOf(resolved);
    RefusalKeeps(t, draw, start, done, blocks, x);
    RootedIn(t, draw, done, x);
    RootsStayDone(t, draw, done, x, Subtree(t, x));
    AllRefusedSettle(t, draw, start, done, blocks, x, doomed, intents, |events|);
    TraceGrows(t, draw, base, start, events, resolved, doomed, Releases(intents, |events|));
    SetGrows(resolved, doomed, Subtree(t, x));
  }

  lemma LastBlock(t: DraftTree, blocks: LiveMap, ids: seq<int>, members: set<int>, intents: seq<MemoryIntent>)
    requires ParentFirst(t) && Enumerates(ids, members) && ids != [] && BlocksFor(t, blocks, ids, intents)
    ensures var last := |ids| - 1;
      && Enumerates(ids[..last], members - {ids[last]}) && BlocksFor(t, blocks, ids[..last], intents[..last])
      && IsBlockOf(t, blocks, ids[last], intents[last])
      && t.nodes[ids[last]].kvObjectId !in ObjectsOf(t, members - {ids[last]})
      && ObjectsOf(t, members) == ObjectsOf(t, members - {ids[last]}) + {t.nodes[ids[last]].kvObjectId}
  {
    var last := |ids| - 1;
    assert ids == ids[..last] + [ids[last]];
    assert IsBlockOf(t, blocks, ids[last], intents[last]);
    assert members == members - {ids[last]} + {ids[last]};
  }

  /** The policy's count and bytes for the objects of some nodes are those of their blocks. */
  lemma {:induction false} DoomedTotals(
    t: DraftTree, blocks: LiveMap, ids: seq<int>, members: set<int>, intents: seq<MemoryIntent>)
    requires ParentFirst(t) && Enumerates(ids, members) && BlocksFor(t, blocks, ids, intents)
    ensures CountIn(blocks, ObjectsOf(t, members)) == |intents|
    ensures BytesIn(blocks, ObjectsOf(t, members)) == TotalSize(intents)
    decreases |ids|
  {
    if ids == [] {
      assert members == {} && ObjectsOf(t, members) == {};
      assert {} * blocks.Keys == {};
    } else {
      hide ParentFirst, BytesIn, CountIn, ObjectsOf, Enumerates;
      var last := |ids| - 1;
      LastBlock(t, blocks, ids, members, intents);
      DoomedTotals(t, blocks, ids[..last], members - {ids[last]}, intents[..last]);
      CountOneMore(blocks, ObjectsOf(t, members - {ids[last]}), t.nodes[ids[last]].kvObjectId);
    }
  }

  lemma FreedOneMore(events: seq<Event>, e: Event)
    ensures CountKind(Freed, events + [e]) == CountKind(Freed, events) + if e.kind == Freed then 1 else 0
    ensures CountKind(Committed, events + [e]) == CountKind(Committed, events) + if e.kind == Committed then 1 else 0
    ensures FreedBytes(events + [e]) == FreedBytes(events) + if e.kind == Freed then e.intent.sizeBytes else 0
  {
    assert (events + [e])[..|events|] == events;
  }

  lemma {:induction false} ReleasesCount(events: seq<Event>, intents: seq<MemoryIntent>, from: nat)
    ensures CountKind(Freed, events + Releases(intents, from)) == CountKind(Freed, events) + |intents|
    ensures FreedBytes(events + Releases(intents, from)) == FreedBytes(events) + TotalSize(intents)
    decreases |intents|
  {
    if intents == [] {
      assert events + Releases(intents, from) == events;
    } else {
      var last := |intents| - 1;
      ReleasesCount(events, intents[..last], from);
      var e := Releases(intents, from)[last];
      assert Releases(intents, from) == Releases(intents[..last], from) + [e];
      assert events + Releases(intents, from) == (events + Releases(intents[..last], from)) + [e];
      FreedOneMore(events + Releases(intents[..last], from), e);
    }
  }

  /** The kept blocks of the listed nodes, in order. */
  function KeptBlocks(blocks: LiveMap, nodes: seq<DraftNode>): seq<MemoryIntent> {
    if nodes == [] then []
    else
      var last := |nodes| - 1;
      KeptBlocks(blocks, nodes[..last])
      + if nodes[last].kvObjectId in blocks then [blocks[nodes[last].kvObjectId]] else []
  }

  lemma {:induction false} KeptBlocksFor(t: DraftTree, blocks: LiveMap, ids: seq<int>)
    requires forall i | 0 <= i < |ids| :: ids[i] in t.nodes && t.nodes[ids[i]].kvObjectId in blocks
    ensures BlocksFor(t, blocks, ids, KeptBlocks(blocks, NodesOf(t, ids)))
    decreases |ids|
  {
    if ids != [] {
      var last := |ids| - 1;
      KeptBlocksFor(t, blocks, ids[..last]);
      assert NodesOf(t, ids)[..last] == NodesOf(t, ids[..last]);
      assert forall i | 0 <= i < last :: ids[..last][i] == ids[i];
    }
  }
}
