/** The driver that resolves a draft tree against verification draws and emits its trace (benchmark.py). */
module Lifecycle {
  import opened Prelude
  import opened Schema
  import opened Simulation
  import opened Drafts
  import opened DraftPolicy
  import opened Verdicts
  import opened Resolution
  import opened DraftWorkload
  import opened DraftReplay
  import opened DraftOrder
  import Sorting

  type ChildMap = map<Option<int>, seq<int>>

  function Kids(children: ChildMap, parent: Option<int>): seq<int> {
    if parent in children then children[parent] else []
  }

  ghost function NodesUnder(t: DraftTree, parent: Option<int>, j: nat): set<int>
    requires j <= |t.order|
  {
    set x | x in t.order[..j] && x in t.nodes && t.nodes[x].parentId == parent
  }

  /** The first `j` nodes are listed under their parents, in order of insertion. */
  ghost predicate ListsBefore(t: DraftTree, children: ChildMap, j: nat)
    requires j <= |t.order|
  {
    forall p: Option<int> :: Kids(children, p) == KidsInOrder(t, p, j)
  }

  ghost predicate ListsChildren(t: DraftTree, children: ChildMap) {
    ListsBefore(t, children, |t.order|)
  }

  lemma ChildListed(t: DraftTree, children: ChildMap, j: nat)
    requires Keyed(t) && j < |t.order|
    requires ListsBefore(t, children, j)
    ensures t.order[j] in t.nodes
    ensures var x := t.order[j];
      var parent := t.nodes[x].parentId;
      ListsBefore(t, children[parent := Kids(children, parent) + [x]], j + 1)
  {
    var x := t.order[j];
    var children' := children[t.nodes[x].parentId := Kids(children, t.nodes[x].parentId) + [x]];
    forall p: Option<int> ensures Kids(children', p) == KidsInOrder(t, p, j + 1) {
      assert Kids(children, p) == KidsInOrder(t, p, j);
    }
  }

  /** Every node is listed once. */
  lemma {:induction false} ListedOnce(t: DraftTree, p: Option<int>, j: nat)
    requires Keyed(t) && j <= |t.order|
    ensures Enumerates(KidsInOrder(t, p, j), NodesUnder(t, p, j))
  {
    if j > 0 {
      ListedOnce(t, p, j - 1);
      var x := t.order[j - 1];
      assert t.order[..j] == t.order[..j - 1] + [x] && x !in t.order[..j - 1];
      if t.nodes[x].parentId == p {
        Singleton(x);
        EnumeratesConcat(KidsInOrder(t, p, j - 1), [x], NodesUnder(t, p, j - 1), {x});
        assert NodesUnder(t, p, j) == NodesUnder(t, p, j - 1) + {x};
      } else {
        assert NodesUnder(t, p, j) == NodesUnder(t, p, j - 1);
      }
    }
  }

  lemma NothingListed(t: DraftTree)
    ensures ListsBefore(t, map[], 0)
  {
  }

  method BuildChildren(t: DraftTree) returns (children: ChildMap)
    requires Keyed(t)
    ensures ListsChildren(t, children)
  {
    hide Keyed, ListsBefore, Kids;
    children := map[];
    NothingListed(t);
    for j := 0 to |t.order|
      invariant ListsBefore(t, children, j)
    {
      ChildListed(t, children, j);
      var x := t.order[j];
      var parent := t.nodes[x].parentId;
      children := children[parent := Kids(children, parent) + [x]];
    }
  }

  lemma KidsOf(t: DraftTree, children: ChildMap, p: Option<int>)
    requires Keyed(t) && ListsChildren(t, children)
    ensures forall i | 0 <= i < |Kids(children, p)| ::
      Kids(children, p)[i] in t.nodes && t.nodes[Kids(children, p)[i]].parentId == p
    ensures forall i, j | 0 <= i < j < |Kids(children, p)| :: Kids(children, p)[i] != Kids(children, p)[j]
    ensures forall x | x in t.nodes && t.nodes[x].parentId == p :: x in Kids(children, p)
  {
    assert Kids(children, p) == KidsInOrder(t, p, |t.order|);
    ListedOnce(t, p, |t.order|);
    assert t.order[..|t.order|] == t.order;
    forall i | 0 <= i < |Kids(children, p)|
      ensures Kids(children, p)[i] in t.nodes && t.nodes[Kids(children, p)[i]].parentId == p
    {
      assert Kids(children, p)[i] in Kids(children, p);
    }
  }

  /** What one more child's subtree adds, and that nothing in it was touched before. */
  lemma NextKid(t: DraftTree, kids: seq<int>, parent: Option<int>, i: nat)
    requires ParentFirst(t) && i < |kids|
    requires forall j | 0 <= j < |kids| :: kids[j] in t.nodes && t.nodes[kids[j]].parentId == parent
    requires forall j, k | 0 <= j < k < |kids| :: kids[j] != kids[k]
    ensures Subtrees(t, kids[..i + 1]) == Subtrees(t, kids[..i]) + Subtree(t, kids[i])
    ensures Subtrees(t, kids[..i]) !! Subtree(t, kids[i])
  {
    hide Under;
    assert kids[..i + 1] == kids[..i] + [kids[i]];
    forall y | y in Subtree(t, kids[i]) ensures y !in Subtrees(t, kids[..i]) {
      forall r | r in kids[..i] ensures !Under(t, y, r) {
        SiblingsApart(t, y, kids[i], r);
      }
    }
  }

  lemma KidBelow(t: DraftTree, x: int, kid: int)
    requires ParentFirst(t) && IsChild(t, kid, x)
    ensures Subtree(t, kid) <= Subtree(t, x) && x !in Subtree(t, kid) && x < kid
  {
    forall y | y in Subtree(t, kid) ensures Under(t, y, x) {
      assert Under(t, kid, x);
      UnderTransitive(t, y, kid, x);
    }
    if Under(t, x, kid) {
      UnderIsBelow(t, x, kid);
    }
  }

  lemma SubtreeIsKids(t: DraftTree, children: ChildMap, x: int)
    requires ParentFirst(t) && ListsChildren(t, children) && x in t.nodes
    ensures Subtree(t, x) == {x} + Subtrees(t, Kids(children, Some(x)))
  {
    KidsOf(t, children, Some(x));
    hide Kids, ListsChildren;
    forall y | y in t.nodes ensures y in Subtree(t, x) <==> y in {x} + Subtrees(t, Kids(children, Some(x))) {
      if Under(t, y, x) && y != x {
        var child := UnderSomeChild(t, y, x);
      }
      if y in Subtrees(t, Kids(children, Some(x))) {
        var r :| r in Kids(children, Some(x)) && Under(t, y, r);
        KidBelow(t, x, r);
        assert y in Subtree(t, r);
      }
    }
  }

  lemma ForestIsRoots(t: DraftTree, children: ChildMap)
    requires ParentFirst(t) && ListsChildren(t, children)
    ensures Subtrees(t, Kids(children, None)) == t.nodes.Keys
  {
    KidsOf(t, children, None);
    hide Kids, ListsChildren, Under, RootOf;
    forall y | y in t.nodes ensures y in Subtrees(t, Kids(children, None)) {
      UnderRoot(t, y, y);
    }
  }

  /** Under a resolved, accepted parent the draw alone decides. */
  lemma VerdictOf(t: DraftTree, draw: int -> real, done: set<int>, x: int)
    requires ParentFirst(t) && Rooted(t, draw, done, x)
    ensures Accepted(t, draw, x) <==> draw(x) < t.nodes[x].acceptanceProb
  {
  }

  /** The block a node is resolved with: the kept one, which names the node and can be copied. */
  lemma CurrentBlock(t: DraftTree, draw: int -> real, start: LiveMap, done: set<int>, blocks: LiveMap, x: int,
                     step: nat)
    requires ParentFirst(t) && Drafted(t, start) && Kept(t, draw, start, done, blocks)
    requires x in t.nodes && t.nodes[x].kvObjectId in blocks
    ensures var b := blocks[t.nodes[x].kvObjectId].(lastAccessStep := step);
      Construct(b) == Ok(b) && b.blockId == x
    ensures Constructed(blocks)
    ensures Keyed(t) && !Descends(t, x, x)
    ensures Family(t, x) == Subtree(t, x) && DescendantsOf(t, x) == Subtree(t, x) - {x}
  {
    PromotedRemarked(blocks[t.nodes[x].kvObjectId], start[t.nodes[x].kvObjectId], step);
    DescendantsAreSubtree(t, x);
    hide Descends, DescendantsOf, Under;
    assert x in Subtree(t, x) by {
      UnderSelf(t, x);
    }
  }

  lemma UnderSelf(t: DraftTree, x: int)
    ensures Under(t, x, x)
  {
  }

  /** An accepted node's block after the verdict. */
  lemma CommittedBlock(t: DraftTree, draw: int -> real, start: LiveMap, done: set<int>, blocks: LiveMap, x: int,
                       step: nat)
    requires ParentFirst(t) && Kept(t, draw, start, done, blocks)
    requires x in t.nodes && t.nodes[x].kvObjectId in blocks
    ensures var k, after := t.nodes[x].kvObjectId, PromoteAll(blocks, ObjectsOf(t, Subtree(t, x)));
      && k in after && after[k] == Promoted(blocks[k])
      && Construct(after[k].(lastAccessStep := step)) == Ok(after[k].(lastAccessStep := step))
  {
    var k := t.nodes[x].kvObjectId;
    SubtreeObjects(t, x, x);
    UnderSelf(t, x);
    PromotedRemarked(blocks[k], start[k], step);
    hide Under, Construct, Promoted, ParentFirst;
  }

  /** The blocks a refusal frees: those of the node and its descendants, all still kept. */
  lemma DoomedBlocks(t: DraftTree, draw: int -> real, start: LiveMap, done: set<int>, blocks: LiveMap, x: int,
                     ids: seq<int>, found: seq<DraftNode>)
    requires ParentFirst(t) && Kept(t, draw, start, done, blocks) && x in t.nodes && Subtree(t, x) !! done
    requires Enumerates(ids, Subtree(t, x) - {x})
    requires (forall i | 0 <= i < |ids| :: ids[i] in t.nodes) && found == NodesOf(t, ids)
    ensures Enumerates([x] + ids, Subtree(t, x))
    ensures var doomed := KeptBlocks(blocks, [t.nodes[x]] + found);
      && BlocksFor(t, blocks, [x] + ids, doomed)
      && (forall b | b in doomed :: Schema.Valid(b))
      && CountIn(blocks, ObjectsOf(t, Subtree(t, x))) == |doomed|
      && BytesIn(blocks, ObjectsOf(t, Subtree(t, x))) == TotalSize(doomed)
  {
    hide Under, Subtree, Accepted, RootOf, Enumerates, ParentFirst;
    var all := [x] + ids;
    var doomed := KeptBlocks(blocks, [t.nodes[x]] + found);
    WholeSubtree(t, x, ids);
    assert NodesOf(t, all) == [t.nodes[x]] + found;
    SubtreeKept(t, draw, start, done, blocks, x, all);
    KeptBlocksFor(t, blocks, all);
    DoomedTotals(t, blocks, all, Subtree(t, x), doomed);
    forall b | b in doomed ensures Schema.Valid(b) {
      var i :| 0 <= i < |doomed| && doomed[i] == b;
      assert IsBlockOf(t, blocks, all[i], doomed[i]);
    }
  }

  lemma WholeSubtree(t: DraftTree, x: int, ids: seq<int>)
    requires x in t.nodes && Enumerates(ids, Subtree(t, x) - {x})
    ensures Enumerates([x] + ids, Subtree(t, x))
  {
    UnderSelf(t, x);
    hide Under;
    Singleton(x);
    EnumeratesConcat([x], ids, {x}, Subtree(t, x) - {x});
    assert {x} + (Subtree(t, x) - {x}) == Subtree(t, x);
  }

  /** Nothing of an untouched subtree is gone yet. */
  lemma SubtreeKept(t: DraftTree, draw: int -> real, start: LiveMap, done: set<int>, blocks: LiveMap, x: int,
                    all: seq<int>)
    requires Kept(t, draw, start, done, blocks) && Subtree(t, x) !! done && Enumerates(all, Subtree(t, x))
    ensures forall i | 0 <= i < |all| :: all[i] in t.nodes && t.nodes[all[i]].kvObjectId in blocks
  {
    hide Under, Accepted, RootOf;
    forall i | 0 <= i < |all| ensures all[i] in t.nodes && t.nodes[all[i]].kvObjectId in blocks {
      assert all[i] in Subtree(t, x);
    }
  }

  /** The policy's counters are those of the FREED events. */
  ghost predicate Counted(events: seq<Event>, freed: int, wasted: real) {
    freed == CountKind(Freed, events) && wasted == FreedBytes(events) as real / MIB
  }

  /** The driver's state agrees: trace, blocks, counters and what has been resolved. */
  ghost predicate Consistent(t: DraftTree, draw: int -> real, base: seq<Event>, start: LiveMap, children: ChildMap,
                             events: seq<Event>, blocks: LiveMap, resolved: seq<int>, freed: int, wasted: real)
  {
    && ParentFirst(t) && Drafted(t, start) && ListsChildren(t, children)
    && Progress(t, draw, base, start, events, blocks, resolved)
    && Counted(events, freed, wasted)
  }

  lemma BeforeVerdict(
    t: DraftTree, draw: int -> real, base: seq<Event>, start: LiveMap, children: ChildMap, events: seq<Event>,
    blocks: LiveMap, resolved: seq<int>, freed: int, wasted: real, x: int)
    requires Consistent(t, draw, base, start, children, events, blocks, resolved, freed, wasted)
    requires Rooted(t, draw, SetOf(resolved), x) && x in t.nodes && t.nodes[x].kvObjectId in blocks
    ensures var b := blocks[t.nodes[x].kvObjectId].(lastAccessStep := |events|);
      Construct(b) == Ok(b) && b.blockId == x
    ensures Constructed(blocks) && Keyed(t) && !Descends(t, x, x)
    ensures Family(t, x) == Subtree(t, x) && DescendantsOf(t, x) == Subtree(t, x) - {x}
    ensures Accepted(t, draw, x) <==> draw(x) < t.nodes[x].acceptanceProb
  {
    CurrentBlock(t, draw, start, SetOf(resolved), blocks, x, |events|);
    VerdictOf(t, draw, SetOf(resolved), x);
  }

  /** A copy of a block under a new stamp. */
  predicate Stampable(b: MemoryIntent, step: nat) {
    Construct(b.(lastAccessStep := step)).Ok?
  }

  function Stamped(kind: EventType, b: MemoryIntent, step: nat): Event
    requires Stampable(b, step)
  {
    Event(step, kind, Construct(b.(lastAccessStep := step)).value)
  }

  /** Everything an acceptance does to the trace, the blocks and the counts. */
  lemma AcceptanceRecorded(
    t: DraftTree, draw: int -> real, base: seq<Event>, start: LiveMap, children: ChildMap, events: seq<Event>,
    blocks: LiveMap, resolved: seq<int>, freed: int, wasted: real, x: int, step: nat, after: LiveMap)
    requires Consistent(t, draw, base, start, children, events, blocks, resolved, freed, wasted)
    requires Rooted(t, draw, SetOf(resolved), x) && Subtree(t, x) !! SetOf(resolved) && Accepted(t, draw, x)
    requires x in t.nodes && step == |events| && after == PromoteAll(blocks, ObjectsOf(t, Subtree(t, x)))
    ensures var k := t.nodes[x].kvObjectId;
      && k in after && Stampable(after[k], step)
      && Consistent(t, draw, base, start, children, events + [Stamped(Committed, after[k], step)], after,
                    resolved + [x], freed, wasted)
    ensures SetOf(resolved + [x]) == SetOf(resolved) + {x}
  {
    hide ParentFirst, Rooted, Subtree, Accepted, SetOf, Construct, Promoted, ObjectsOf, PromoteAll, Kept;
    hide CountKind, FreedBytes, ListsChildren, Drafted;
    AcceptStep(t, draw, base, start, events, blocks, resolved, x);
    CommittedBlock(t, draw, start, SetOf(resolved), blocks, x, |events|);
    hide Progress;
    FreedOneMore(events,
      Event(|events|, Committed, Construct(after[t.nodes[x].kvObjectId].(lastAccessStep := |events|)).value));
  }

  /** Everything a refusal does to them. */
  lemma RefusalRecorded(
    t: DraftTree, draw: int -> real, base: seq<Event>, start: LiveMap, children: ChildMap, events: seq<Event>,
    blocks: LiveMap, resolved: seq<int>, freed: int, wasted: real, x: int, ids: seq<int>, found: seq<DraftNode>,
    step: nat, doomed: seq<MemoryIntent>, after: LiveMap, freed': int, wasted': real)
    requires Consistent(t, draw, base, start, children, events, blocks, resolved, freed, wasted)
    requires Rooted(t, draw, SetOf(resolved), x) && Subtree(t, x) !! SetOf(resolved) && !Accepted(t, draw, x)
    requires x in t.nodes && Enumerates(ids, Subtree(t, x) - {x})
    requires (forall i | 0 <= i < |ids| :: ids[i] in t.nodes) && found == NodesOf(t, ids)
    requires step == |events| && doomed == KeptBlocks(blocks, [t.nodes[x]] + found)
    requires var gone := ObjectsOf(t, Subtree(t, x));
      && after == DropAll(blocks, gone) && freed' == freed + CountIn(blocks, gone)
      && wasted' == wasted + BytesIn(blocks, gone) as real / MIB
    ensures forall b | b in doomed :: Schema.Valid(b)
    ensures Consistent(t, draw, base, start, children, events + Releases(doomed, step), after, resolved + [x] + ids,
                       freed', wasted')
    ensures SetOf(resolved + [x] + ids) == SetOf(resolved) + Subtree(t, x)
  {
    hide ParentFirst, Rooted, Subtree, Accepted, SetOf, ObjectsOf, DropAll, CountIn, BytesIn, BlocksFor, KeptBlocks;
    hide CountKind, FreedBytes, Releases, TotalSize, Enumerates, NodesOf, Kept, Schema.Valid, ListsChildren, Drafted;
    DoomedBlocks(t, draw, start, SetOf(resolved), blocks, x, ids, found);
    RefuseStep(t, draw, base, start, events, blocks, resolved, x, [x] + ids, doomed);
    ReleasesCount(events, doomed, |events|);
    assert resolved + [x] + ids == resolved + ([x] + ids);
    hide Progress;
  }

  /** The next child's subtree is apart from everything resolved before it. */
  lemma KidApart(t: DraftTree, children: ChildMap, parent: Option<int>, done: set<int>, i: nat)
    requires ParentFirst(t) && ListsChildren(t, children) && i < |Kids(children, parent)|
    requires Subtrees(t, Kids(children, parent)) !! done
    ensures var kids := Kids(children, parent);
      && kids[i] in t.nodes && t.nodes[kids[i]].parentId == parent
      && Beyond(t, Some(kids[i])) < Beyond(t, parent)
      && Subtree(t, kids[i]) !! done + Subtrees(t, kids[..i]) && kids[i] in Subtree(t, kids[i])
      && Subtrees(t, kids[..i + 1]) == Subtrees(t, kids[..i]) + Subtree(t, kids[i])
  {
    var kids := Kids(children, parent);
    KidsOf(t, children, parent);
    hide Kids, ListsChildren;
    NextKid(t, kids, parent, i);
    UnderSelf(t, kids[i]);
    assert Subtree(t, kids[i]) <= Subtrees(t, kids);
    hide Under, Subtrees, Keyed;
    assert kids[i] in Beyond(t, parent);
  }

  /** A resolution can go on below `parent`: nothing there has an event yet, and the parent was accepted. */
  ghost predicate MayResolve(t: DraftTree, draw: int -> real, children: ChildMap, done: set<int>, parent: Option<int>) {
    && Subtrees(t, Kids(children, parent)) !! done
    && (parent.Some? ==> parent.value in done && parent.value in t.nodes && Accepted(t, draw, parent.value))
  }

  /** One more child: untouched and ready. */
  lemma KidNext(
    t: DraftTree, draw: int -> real, base: seq<Event>, start: LiveMap, children: ChildMap, events: seq<Event>,
    blocks: LiveMap, resolved: seq<int>, freed: int, wasted: real, parent: Option<int>, done: set<int>, i: nat)
    requires Consistent(t, draw, base, start, children, events, blocks, resolved, freed, wasted)
    requires MayResolve(t, draw, children, done, parent) && i < |Kids(children, parent)|
    requires SetOf(resolved) == done + Subtrees(t, Kids(children, parent)[..i])
    ensures var kids := Kids(children, parent);
      && kids[i] in t.nodes && Beyond(t, Some(kids[i])) < Beyond(t, parent)
      && Rooted(t, draw, SetOf(resolved), kids[i]) && t.nodes[kids[i]].kvObjectId in blocks
      && Subtree(t, kids[i]) !! SetOf(resolved)
      && Subtrees(t, kids[..i + 1]) == Subtrees(t, kids[..i]) + Subtree(t, kids[i])
      && OrderOfKids(t, draw, parent, i + 1) == OrderOfKids(t, draw, parent, i) + OrderFrom(t, draw, kids[i])
  {
    KidsAreKin(t, children, parent);
    hide Subtree, Subtrees, Accepted, ParentFirst, Kids, ListsChildren, SetOf, Beyond, OrderFrom, OrderOfKids, Kin;
    OrderOfOneMore(t, draw, parent, i);
    KidApart(t, children, parent, done, i);
  }

  lemma KidsCover(
    t: DraftTree, draw: int -> real, base: seq<Event>, start: LiveMap, children: ChildMap, events: seq<Event>,
    blocks: LiveMap, resolved: seq<int>, freed: int, wasted: real, x: int, done: set<int>)
    requires Consistent(t, draw, base, start, children, events, blocks, resolved, freed, wasted) && x in t.nodes
    requires Subtree(t, x) !! done && SetOf(resolved) == done + {x} && Accepted(t, draw, x)
    ensures MayResolve(t, draw, children, SetOf(resolved), Some(x))
    ensures Subtree(t, x) == {x} + Subtrees(t, Kids(children, Some(x)))
    ensures OrderFrom(t, draw, x) == [x] + OrderOfKids(t, draw, Some(x), |Kin(t, Some(x))|)
  {
    AcceptedDraw(t, draw, x);
    hide Subtree, Subtrees, Accepted, Kids, SetOf, ParentFirst, ListsChildren, Drafted, Progress, Counted;
    hide OrderFrom, OrderOfKids, Kin;
    OrderFromVerdict(t, draw, x);
    SubtreeIsKids(t, children, x);
    KidsBelow(t, children, x);
  }

  lemma AcceptedDraw(t: DraftTree, draw: int -> real, x: int)
    ensures x in t.nodes && Accepted(t, draw, x) ==> draw(x) < t.nodes[x].acceptanceProb
  {
  }

  lemma KidsBelow(t: DraftTree, children: ChildMap, x: int)
    requires ParentFirst(t) && ListsChildren(t, children)
    ensures x !in Subtrees(t, Kids(children, Some(x)))
  {
    KidsOf(t, children, Some(x));
    hide Kids, ListsChildren;
    forall r | r in Kids(children, Some(x)) ensures !(x in t.nodes && Under(t, x, r)) {
      KidBelow(t, x, r);
    }
  }

  lemma KidsAreKin(t: DraftTree, children: ChildMap, parent: Option<int>)
    ensures ListsChildren(t, children) ==> Kids(children, parent) == Kin(t, parent)
  {
  }

  lemma KidsListed(
    t: DraftTree, draw: int -> real, base: seq<Event>, start: LiveMap, children: ChildMap, events: seq<Event>,
    blocks: LiveMap, resolved: seq<int>, freed: int, wasted: real, parent: Option<int>)
    requires Consistent(t, draw, base, start, children, events, blocks, resolved, freed, wasted)
    ensures Kids(children, parent) == Kin(t, parent) && OrderOfKids(t, draw, parent, 0) == []
  {
    KidsAreKin(t, children, parent);
    hide Kin, Kids, ListsChildren, ParentFirst;
  }

  /** A refusal resolves the node and then what the search has found. */
  lemma RefusalOrder(
    t: DraftTree, draw: int -> real, base: seq<Event>, start: LiveMap, children: ChildMap, events: seq<Event>,
    blocks: LiveMap, resolved: seq<int>, freed: int, wasted: real, x: int, ids: seq<int>)
    requires Consistent(t, draw, base, start, children, events, blocks, resolved, freed, wasted)
    requires x in t.nodes && draw(x) >= t.nodes[x].acceptanceProb
    requires exists n: nat :: AfterTurns(t, [x], n) == [] && FoundAfter(t, [x], n) == ids
    ensures OrderFrom(t, draw, x) == [x] + ids
  {
    hide ParentFirst, AfterTurns, FoundAfter, OrderFrom, Searched, Drafted, ListsChildren, Progress, Counted;
    var n: nat :| AfterTurns(t, [x], n) == [] && FoundAfter(t, [x], n) == ids;
    SearchFinds(t, x, n);
    OrderFromVerdict(t, draw, x);
  }

  lemma NoneUnder(t: DraftTree, kids: seq<int>)
    ensures Subtrees(t, kids[..0]) == {} && kids[..|kids|] == kids
  {
  }

  class Resolver {
    const tree: DraftTree
    const draw: int -> real
    const base: seq<Event>
    const start: LiveMap
    const policy: SpeculativeIntentPolicy
    const children: ChildMap
    var events: seq<Event>
    var step: nat
    var currentBlocks: LiveMap
    ghost var resolved: seq<int>

    ghost predicate Valid()
      reads this, policy
    {
      && step == |events|
      && Consistent(tree, draw, base, start, children, events, currentBlocks, resolved,
                    policy.draftBlocksFreed, policy.wastedMb)
    }

    ghost function Done(): set<int>
      reads this
    {
      SetOf(resolved)
    }

    constructor (t: DraftTree, allocations: seq<Event>, lists: ChildMap, draw: int -> real)
      requires ParentFirst(t) && Drafted(t, LastIntents(allocations)) && ListsChildren(t, lists)
      requires Numbered(allocations, 0)
      requires CountKind(Freed, allocations) == 0 && FreedBytes(allocations) == 0
      ensures Valid() && fresh(policy) && Done() == {}
      ensures tree == t && base == allocations && start == LastIntents(allocations) && children == lists
      ensures this.draw == draw && resolved == []
    {
      tree, base, start, children, this.draw := t, allocations, LastIntents(allocations), lists, draw;
      policy := new SpeculativeIntentPolicy();
      events, step := allocations, NextStep(allocations);
      currentBlocks, resolved := LastIntents(allocations), [];
      new;
      hide ParentFirst, Drafted, ListsChildren, CountKind, FreedBytes, LastIntents, NextStep;
      NumberedNext(allocations);
      NothingResolved(t, draw, allocations, lists);
    }

    /** One FREED event per doomed block. */
    method FreeSubtree(intents: seq<MemoryIntent>)
      requires forall b | b in intents :: Schema.Valid(b)
      modifies this`events, this`step
      ensures events == old(events) + Releases(intents, old(step)) && step == old(step) + |intents|
    {
      assert intents[..|intents|] == intents;
      for i := 0 to |intents|
        invariant events == old(events) + Releases(intents[..i], old(step)) && step == old(step) + i
      {
        StampedValid(intents[i], step);
        ReleasesSnoc(intents, i, old(step));
        events := events + [Event(step, Freed, Construct(intents[i].(lastAccessStep := step)).value)];
        step := step + 1;
      }
    }

    /** Resolves the listed children of `parent`, or the roots, one after the other. */
    method ResolveChildren(parent: Option<int>)
      requires Valid() && MayResolve(tree, draw, children, Done(), parent)
      modifies this`events, this`step, this`currentBlocks, this`resolved, policy
      ensures Valid()
      ensures Done() == old(Done()) + Subtrees(tree, Kids(children, parent))
      ensures resolved == old(resolved) + OrderOfKids(tree, draw, parent, |Kin(tree, parent)|)
      decreases Beyond(tree, parent), 0
    {
      hide Rooted, Consistent, Subtree, Subtrees, SetOf, Beyond, MayResolve, Kids, OrderOfKids, OrderFrom, Kin;
      var kids := Kids(children, parent);
      KidsListed(tree, draw, base, start, children, events, currentBlocks, resolved,
                 policy.draftBlocksFreed, policy.wastedMb, parent);
      NoneUnder(tree, kids);
      for i := 0 to |kids|
        invariant Valid()
        invariant Done() == old(Done()) + Subtrees(tree, kids[..i])
        invariant resolved == old(resolved) + OrderOfKids(tree, draw, parent, i)
      {
        KidNext(tree, draw, base, start, children, events, currentBlocks, resolved,
                policy.draftBlocksFreed, policy.wastedMb, parent, old(Done()), i);
        Resolve(kids[i]);
      }
    }

    /** `x` is untouched, its block is kept, and its parent was accepted. */
    ghost predicate Awaits(x: int)
      reads this, policy
    {
      && Valid() && Rooted(tree, draw, Done(), x) && x in tree.nodes
      && tree.nodes[x].kvObjectId in currentBlocks && Subtree(tree, x) !! Done()
    }

    /** The draw accepts `x`: its subtree's blocks are promoted and it is committed. */
    method Accept(x: int, verify: Event)
      requires Awaits(x) && verify.intent.blockId == x && draw(x) < tree.nodes[x].acceptanceProb
      modifies this`events, this`step, this`currentBlocks, this`resolved, policy
      ensures Valid() && Done() == old(Done()) + {x} && Accepted(tree, draw, x)
      ensures resolved == old(resolved) + [x]
    {
      hide Rooted, Consistent, Subtree, Accepted, DescendantsOf, Family, Descends, ObjectsOf, PromoteAll;
      hide DropAll, CountIn, BytesIn, Constructed, SetOf, Stampable, Stamped, Keyed;
      BeforeVerdict(tree, draw, base, start, children, events, currentBlocks, resolved,
                    policy.draftBlocksFreed, policy.wastedMb, x);
      currentBlocks := policy.ProcessVerifyEvent(verify, tree, true, currentBlocks);
      AcceptanceRecorded(tree, draw, base, start, children, events, old(currentBlocks), resolved,
                         policy.draftBlocksFreed, policy.wastedMb, x, step, currentBlocks);
      var committed := currentBlocks[tree.nodes[x].kvObjectId];
      events := events + [Stamped(Committed, committed, step)];
      step := step + 1;
      resolved := resolved + [x];
    }

    /** The draw refuses `x`: it and everything below it is freed. Only here is the list of doomed blocks used. */
    method Refuse(x: int, verify: Event)
      requires Awaits(x) && verify.intent.blockId == x && draw(x) >= tree.nodes[x].acceptanceProb
      modifies this`events, this`step, this`currentBlocks, this`resolved, policy
      ensures Valid() && Done() == old(Done()) + Subtree(tree, x)
      ensures resolved == old(resolved) + OrderFrom(tree, draw, x)
    {
      hide Rooted, Consistent, Subtree, Accepted, DescendantsOf, Family, Descends, ObjectsOf, PromoteAll;
      hide DropAll, CountIn, BytesIn, Constructed, KeptBlocks, OrderFrom, FoundAfter, AfterTurns;
      hide Releases, Enumerates, SetOf, Construct, NodesOf, Schema.Valid, Keyed;
      BeforeVerdict(tree, draw, base, start, children, events, currentBlocks, resolved,
                    policy.draftBlocksFreed, policy.wastedMb, x);
      var found, ids := Descendants(tree, x);
      RefusalOrder(tree, draw, base, start, children, events, currentBlocks, resolved,
                   policy.draftBlocksFreed, policy.wastedMb, x, ids);
      var doomed := KeptBlocks(currentBlocks, [tree.nodes[x]] + found);
      currentBlocks := policy.ProcessVerifyEvent(verify, tree, false, currentBlocks);
      RefusalRecorded(tree, draw, base, start, children, events, old(currentBlocks), resolved,
                      old(policy.draftBlocksFreed), old(policy.wastedMb), x, ids, found, step, doomed, currentBlocks,
                      policy.draftBlocksFreed, policy.wastedMb);
      FreeSubtree(doomed);
      resolved := resolved + [x] + ids;
    }

    /** Resolves `x` and, when it is accepted, its children. Afterwards everything under `x` has its terminal
        event; a node whose block is already gone is left alone. */
    method Resolve(x: int)
      requires Valid() && Rooted(tree, draw, Done(), x)
      requires tree.nodes[x].kvObjectId in currentBlocks ==> Subtree(tree, x) !! Done()
      modifies this`events, this`step, this`currentBlocks, this`resolved, policy
      ensures Valid()
      ensures Done() == old(Done()) + if tree.nodes[x].kvObjectId in old(currentBlocks) then Subtree(tree, x) else {}
      ensures resolved ==
        old(resolved) + if tree.nodes[x].kvObjectId in old(currentBlocks) then OrderFrom(tree, draw, x) else []
      decreases Beyond(tree, Some(x)), 1
    {
      hide Rooted, Consistent, Subtree, SetOf, Construct, Constructed, Keyed, Descends, DescendantsOf, Family;
      hide Accepted, Beyond, Subtrees, Kids, MayResolve, OrderFrom, OrderOfKids, Kin;
      ghost var done := Done();
      RootedIn(tree, draw, done, x);
      var node := tree.nodes[x];
      if node.kvObjectId !in currentBlocks {
        return;
      }
      BeforeVerdict(tree, draw, base, start, children, events, currentBlocks, resolved,
                    policy.draftBlocksFreed, policy.wastedMb, x);
      var current := currentBlocks[node.kvObjectId];
      var verify := Event(step, Accessed, Construct(current.(lastAccessStep := step)).value);
      if draw(x) < node.acceptanceProb {
        Accept(x, verify);
        KidsCover(tree, draw, base, start, children, events, currentBlocks, resolved,
                  policy.draftBlocksFreed, policy.wastedMb, x, done);
        ResolveChildren(Some(x));
      } else {
        Refuse(x, verify);
      }
    }
  }

  lemma StampedValid(b: MemoryIntent, step: int)
    requires Schema.Valid(b)
    ensures Construct(b.(lastAccessStep := step)) == Ok(b.(lastAccessStep := step))
  {
  }

  lemma ReleasesSnoc(intents: seq<MemoryIntent>, i: nat, from: nat)
    requires i < |intents|
    ensures Releases(intents[..i + 1], from) ==
      Releases(intents[..i], from) + [Event(from + i, Freed, intents[i].(lastAccessStep := from + i))]
  {
  }

  lemma NothingResolved(t: DraftTree, draw: int -> real, base: seq<Event>, children: ChildMap)
    requires ParentFirst(t) && Drafted(t, LastIntents(base)) && ListsChildren(t, children)
    requires Numbered(base, 0) && CountKind(Freed, base) == 0 && FreedBytes(base) == 0
    ensures Consistent(t, draw, base, LastIntents(base), children, base, LastIntents(base), [], 0, 0.0)
    ensures SetOf([]) == {}
  {
    hide ListsChildren, LastIntents, Accepted, RootOf, Kept, Drafted, CountKind, FreedBytes, ParentFirst, Settles;
    assert base[|base|..] == [];
    assert SetOf([]) == {};
    AllKept(t, draw, LastIntents(base));
  }

  /** At the start every block is kept as it was filed. */
  lemma AllKept(t: DraftTree, draw: int -> real, start: LiveMap)
    requires Drafted(t, start)
    ensures Kept(t, draw, start, {}, start)
  {
    hide Accepted, RootOf, Valid;
    forall y | y in t.nodes ensures t.nodes[y].kvObjectId in start {
      assert t.nodes[y].kvObjectId in ObjectsOf(t, t.nodes.Keys);
    }
    FreshRemarked(t, start);
  }

  lemma FreshRemarked(t: DraftTree, start: LiveMap)
    requires Drafted(t, start)
    ensures AllRemarked(start, start)
  {
  }

  predicate StepBefore(a: Event, b: Event) {
    a.step < b.step
  }

  /** The terminal events' order: ancestors come first, and each accepted node's children, and the roots, are dealt
      with one after the other in order of insertion. */
  ghost predicate ResolvedInOrder(t: DraftTree, draw: int -> real, resolved: seq<int>) {
    && resolved == OrderOfKids(t, draw, None, |Kin(t, None)|)
    && AncestorsFirst(t, resolved) && SiblingsInOrder(t, draw, resolved)
  }

  lemma ResolutionInOrder(t: DraftTree, draw: int -> real)
    requires ParentFirst(t)
    ensures ResolvedInOrder(t, draw, OrderOfKids(t, draw, None, |Kin(t, None)|))
  {
    VisitKidsInOrder(t, draw, None, |Kin(t, None)|);
    hide AncestorsFirst, SiblingsInOrder, VisitKids, Kin, ParentFirst;
  }

  /** The whole driver: it is refused exactly when the generator is; otherwise every node gets exactly one
      terminal event, sorting by step changes nothing, and the policy has counted the freed blocks and bytes. */
  method LifecycleTrace(width: int, height: int, draws: nat -> real, draw: int -> real)
    returns (r: Result<(DraftTree, seq<Event>, SpeculativeIntentPolicy)>, ghost resolved: seq<int>)
    ensures r.Ok? <==> width <= 0 || height <= 11
    ensures r.Ok? ==>
      var (w, n) := (Max(width, 0), NodesBelow(Max(width, 0), Max(height, 0)));
      var (tree, events, policy) := r.value;
      && tree == ForestOf(w, draws, n) && DrawnFrom(tree, draws) && FollowsDraws(tree, draw, events)
      && ResolvedInOrder(tree, draw, resolved)
      && IsLifecycle(w, draws, n, draw, events, resolved)
      && policy.draftBlocksFreed == CountKind(Freed, events)
      && policy.wastedMb == FreedBytes(events) as real / 1048576.0
  {
    hide ForestOf, AllocationTrace, NodesBelow, ParentFirst, Drafted, ListsChildren, LastIntents, CountKind, FreedBytes;
    hide TerminalEvents, Numbered, Kids, Subtrees, Consistent, IsLifecycle, Sorting.SortBy, DrawnFrom, FollowsDraws;
    hide ResolvedInOrder, OrderOfKids, Kin;
    resolved := [];
    var generated :- Generate(width, height, draws);
    var tree, allocations := generated.0, generated.1;
    ghost var w, n := Max(width, 0), NodesBelow(Max(width, 0), Max(height, 0));
    StartFacts(w, draws, n);
    var lists := BuildChildren(tree);
    var driver := new Resolver(tree, allocations, lists, draw);
    driver.ResolveChildren(None);
    TraceComplete(w, draws, Max(height, 0), draw, driver.children, driver.events, driver.currentBlocks,
                  driver.resolved, driver.policy.draftBlocksFreed, driver.policy.wastedMb);
    LifecycleFollowsDraws(w, draws, n, draw, driver.events, driver.resolved);
    assert driver.resolved == OrderOfKids(tree, draw, None, |Kin(tree, None)|);
    ResolutionInOrder(tree, draw);
    return Ok((tree, Sorting.SortBy(StepBefore, driver.events), driver.policy)), driver.resolved;
  }

  /** With every root resolved the trace is complete, and in order already. */
  lemma TraceComplete(
    w: nat, draws: nat -> real, height: nat, draw: int -> real, children: ChildMap, events: seq<Event>,
    blocks: LiveMap, resolved: seq<int>, freed: int, wasted: real)
    requires var n := NodesBelow(w, height);
      var t, base := ForestOf(w, draws, n), AllocationTrace(w, draws, n);
      && Consistent(t, draw, base, LastIntents(base), children, events, blocks, resolved, freed, wasted)
      && SetOf(resolved) == Subtrees(t, Kids(children, None))
    requires w == 0 || height <= 11
    ensures IsLifecycle(w, draws, NodesBelow(w, height), draw, events, resolved)
    ensures Sorting.SortBy(StepBefore, events) == events
    ensures freed == CountKind(Freed, events) && wasted == FreedBytes(events) as real / MIB
  {
    hide ForestOf, AllocationTrace, LastIntents, Subtrees, Kids, ListsChildren, Drafted, ParentFirst, Kept, RootsDone;
    hide CountKind, FreedBytes, TerminalEvents, NodesBelow, Sorting.SortBy, SetOf, Enumerates;
    var t := ForestOf(w, draws, NodesBelow(w, height));
    ForestIsRoots(t, children);
    if w > 0 {
      NodesMonotone(w, height, 11);
    }
    Sorting.SortKeepsOrdered(StepBefore, events);
  }

  lemma StartFacts(w: nat, draws: nat -> real, n: nat)
    ensures var t, base := ForestOf(w, draws, n), AllocationTrace(w, draws, n);
      && ParentFirst(t) && Keyed(t) && Drafted(t, LastIntents(base)) && Numbered(base, 0)
      && CountKind(Freed, base) == 0 && FreedBytes(base) == 0
  {
    ForestIsParentFirst(w, draws, n);
    ForestIsDrafted(w, draws, n);
    TraceFreesNothing(w, draws, n);
    hide ForestOf, AllocationTrace, Drafted, LastIntents, CountKind, FreedBytes;
    var base := AllocationTrace(w, draws, n);
    TraceLength(w, draws, n);
    forall i | 0 <= i < |base| ensures base[i].step == i {
      TraceIsNumbered(w, draws, n, i);
    }
  }
}
