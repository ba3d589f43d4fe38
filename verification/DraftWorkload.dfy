/** The breadth-first generator of draft trees and their allocation trace (draft_workload.py). */
module DraftWorkload {
  import opened Prelude
  import opened Schema
  import opened Drafts

  const KIB := 1024

  /** Gaussian draws are arbitrary reals; the generator clamps them. */
  function Clamp(draw: real): real {
    RMax(0.05, RMin(0.95, draw))
  }

  function ObjectName(id: nat): string {
    "draft:" + Decimal(id)
  }

  function Micros(p: real, scale: int): int {
    Max(1, ((1.0 - p) * scale as real).Floor)
  }

  /** The record the generator asks the constructor for. */
  function DraftIntent(id: nat, depth: nat, p: real, step: nat): MemoryIntent {
    MemoryIntent(
      objectId := ObjectName(id), requestId := "spec-req-0", blockId := id, objectType := KvCache,
      phase := Verify, priority := if p >= 0.3 then Hot else Cold,
      allowedTiers := {HBM, DRAM}, currentTier := HBM, sizeBytes := 256 * KIB,
      requestPriority := 80, recency := 1.0 - depth as real * 0.1,
      deadlineUs := Some(Micros(p, 2000)), slackUs := Some(Micros(p, 1000)),
      arrivalStep := None, targetDecodeStep := None, reuseWindow := Some(depth + 1),
      recomputeCostUs := Some(1500), spillCostUs := Some(100),
      compressionOk := false, recomputeOk := false, prefetchOk := false, pinRequested := false,
      isDraft := true, isCommitted := false, createdStep := step, lastAccessStep := step)
  }

  function VerifiedIntent(id: nat, depth: nat, p: real, step: nat): MemoryIntent {
    DraftIntent(id, depth, p, step).(recency := 1.0)
  }

  /** In a complete forest of `w`-ary trees numbered breadth first, the parent of node `id`. */
  function ParentOf(w: nat, id: nat): (r: Option<int>)
    ensures r.Some? ==> 0 <= r.value < id
  {
    if id < w || w == 0 then None
    else
      QuotientBelow(id, w);
      Some(id / w - 1)
  }

  lemma QuotientBelow(id: nat, w: nat)
    requires 0 < w <= id
    ensures 0 < id / w <= id
  {
    var d := id / w;
    assert id == w * d + id % w;
    Multiples(w, d);
  }

  lemma Multiples(w: nat, d: int)
    requires 0 < w
    ensures d <= 0 ==> w * d <= 0
    ensures d >= 0 ==> w * d >= d
  {
  }

  lemma QuotientIs(id: nat, w: nat, q: int)
    requires 0 < w
    ensures id / w == q <==> w * q <= id < w * (q + 1)
  {
    var d := id / w;
    assert id == w * d + id % w;
    Spread(w, d, q);
    Spread(w, q, d);
  }

  /** Multiples of a width lie a width apart. */
  lemma Spread(w: nat, a: int, b: int)
    requires 0 < w
    ensures w * (a + 1) == w * a + w
    ensures a < b ==> w * (a + 1) <= w * b
  {
    if a < b {
      Scaled(w, a + 1, b);
    }
  }

  lemma Scaled(w: nat, a: int, b: int)
    requires a <= b
    ensures w * a <= w * b
  {
  }

  function Level(w: nat, id: nat): nat {
    match ParentOf(w, id) case None => 0 case Some(p) => 1 + Level(w, p)
  }

  function NodeAt(w: nat, draws: nat -> real, id: nat): DraftNode {
    DraftNode(1000 + id, ParentOf(w, id), Level(w, id), Clamp(draws(id)), ObjectName(id))
  }

  /** The first `n` nodes of the forest, in order of creation. */
  function ForestOf(w: nat, draws: nat -> real, n: nat): DraftTree {
    DraftTree(seq(n, i => i), map i | 0 <= i < n :: NodeAt(w, draws, i))
  }

  function AllocationOf(w: nat, draws: nat -> real, id: nat): (r: seq<Event>)
    ensures |r| == 2
  {
    var level, p := Level(w, id), Clamp(draws(id));
    [Event(2 * id, Allocated, DraftIntent(id, level, p, 2 * id)),
     Event(2 * id + 1, Accessed, VerifiedIntent(id, level, p, 2 * id))]
  }

  /** Each node's block is allocated, then accessed. */
  function AllocationTrace(w: nat, draws: nat -> real, n: nat): seq<Event> {
    if n == 0 then [] else AllocationTrace(w, draws, n - 1) + AllocationOf(w, draws, n - 1)
  }

  /** How many nodes a forest of the given height has. */
  function NodesBelow(w: nat, height: nat): nat {
    if height == 0 then 0 else w * (1 + NodesBelow(w, height - 1))
  }

  function Power(w: nat, k: nat): nat {
    if k == 0 then 1 else w * Power(w, k - 1)
  }

  /** w + w^2 + ... + w^height. */
  function PowerSum(w: nat, height: nat): nat {
    if height == 0 then 0 else PowerSum(w, height - 1) + Power(w, height)
  }

  lemma {:induction false} NodeCountIsPowerSum(w: nat, height: nat)
    ensures NodesBelow(w, height) == PowerSum(w, height)
  {
    if height > 1 {
      NodeCountIsPowerSum(w, height - 1);
      NodeCountIsPowerSum(w, height - 2);
      assert w * (1 + (PowerSum(w, height - 2) + Power(w, height - 1)))
          == w * (1 + PowerSum(w, height - 2)) + w * Power(w, height - 1);
    } else if height == 1 {
      assert w * (1 + NodesBelow(w, 0)) == w;
      assert w * Power(w, 0) == w;
    }
  }

  lemma ParentRange(w: nat, id: nat, q: nat)
    requires 0 < w <= id
    ensures ParentOf(w, id).value < q <==> id < w * (1 + q)
  {
    assert id == w * (id / w) + id % w;
    if id / w - 1 < q {
      assert w * (id / w) <= w * q;
      assert w * (1 + q) == w * q + w;
    } else {
      assert w * (id / w) >= w * (1 + q);
    }
  }

  /** Levels are contiguous ranges of ids. */
  lemma {:induction false} LevelRange(w: nat, id: nat, k: nat)
    requires w > 0
    ensures Level(w, id) < k <==> id < NodesBelow(w, k)
    decreases k
  {
    if k > 0 {
      var below := NodesBelow(w, k - 1);
      assert w * (1 + below) == w + w * below;
      if id >= w {
        ParentRange(w, id, below);
        LevelRange(w, ParentOf(w, id).value, k - 1);
      }
    }
  }

  lemma ChildrenOfEntry(w: nat, q: nat, i: nat)
    requires i < w
    ensures ParentOf(w, w * q + i) == if q == 0 then None else Some(q - 1)
  {
    assert w * (q + 1) == w * q + w;
    QuotientIs(w * q + i, w, q);
    assert q > 0 ==> w * q >= w;
  }

  /** The constructor refuses a node exactly when its depth makes the recency negative. */
  lemma DraftIntentAccepted(id: nat, depth: nat, p: real, step: nat)
    ensures Construct(DraftIntent(id, depth, p, step)).Ok? <==> depth <= 10
    ensures depth <= 10 ==> Construct(DraftIntent(id, depth, p, step)) == Ok(DraftIntent(id, depth, p, step))
    ensures DraftIntent(id, depth, p, step).(phase := Verify, recency := 1.0) == VerifiedIntent(id, depth, p, step)
    ensures Construct(VerifiedIntent(id, depth, p, step)) == Ok(VerifiedIntent(id, depth, p, step))
  {
    assert depth as real * 0.1 <= 1.0 <==> depth <= 10;
  }

  datatype Entry = Entry(parent: Option<int>, depth: nat)

  /** The `q`-th entry ever put on the frontier: first the virtual root, then every node that has children. */
  function EntryAt(w: nat, q: nat): Entry {
    if q == 0 then Entry(None, 0) else Entry(Some(q - 1), 1 + Level(w, q - 1))
  }

  function Frontier(w: nat, from: nat, to: nat): seq<Entry>
    requires from <= to
  {
    seq(to - from, i requires 0 <= i < to - from => EntryAt(w, from + i))
  }

  /** After `id` nodes, `pushed` entries: exactly the nodes below the last level were pushed. */
  ghost predicate Pushed(w: nat, height: int, id: nat, pushed: nat) {
    && 1 <= pushed <= id + 1
    && (forall i | 0 <= i < id :: (i < pushed - 1 <==> Level(w, i) + 1 < height))
    && (forall i | 0 <= i < id :: Level(w, i) < height && Level(w, i) <= 10)
  }

  lemma LevelOfEntry(w: nat, q: nat, i: nat)
    requires i < w
    ensures Entry(ParentOf(w, w * q + i), Level(w, w * q + i)) == EntryAt(w, q)
  {
    ChildrenOfEntry(w, q, i);
  }

  /** A node that will have children is pushed right behind all earlier ones. */
  lemma PushNext(w: nat, height: int, id: nat, pushed: nat)
    requires w > 0 && Pushed(w, height, id, pushed) && Level(w, id) < height && Level(w, id) <= 10
    ensures Level(w, id) + 1 < height ==> pushed == id + 1
    ensures Pushed(w, height, id + 1, if Level(w, id) + 1 < height then pushed + 1 else pushed)
  {
    if Level(w, id) + 1 < height {
      if pushed - 1 < id {
        LevelRange(w, id, height - 1);
        LevelRange(w, pushed - 1, height - 1);
        assert false;
      }
    }
  }

  lemma PushedWithin(w: nat, height: int, id: nat, pushed: nat)
    requires Pushed(w, height, id, pushed) && (w == 0 ==> id == 0)
    ensures id <= NodesBelow(w, Max(height, 0))
  {
    if id > 0 {
      assert Level(w, id - 1) < height;
      LevelRange(w, id - 1, height);
    }
  }

  /** Every entry on the frontier will be expanded, unless no level is wanted at all. */
  lemma EntryIsAbove(w: nat, height: int, id: nat, pushed: nat, q: nat)
    requires Pushed(w, height, id, pushed) && q < pushed
    ensures EntryAt(w, q).depth < height <==> height > 0
  {
    if q > 0 {
      assert Level(w, q - 1) + 1 < height;
    }
  }

  /** When every pushed entry has been expanded, the forest is complete. */
  lemma ForestComplete(w: nat, height: int, id: nat, pushed: nat)
    requires Pushed(w, height, id, pushed) && id == (if height <= 0 then 0 else w * pushed)
    ensures id == NodesBelow(w, Max(height, 0))
    ensures w == 0 || height <= 11
  {
    if w > 0 && height > 0 {
      hide NodesBelow, Level;
      Multiples(w, pushed);
      BelowLastLevel(w, height, id, pushed);
      LevelRange(w, pushed - 1, 11);
      LevelRange(w, pushed - 1, height);
      NodesOfHeight(w, height, pushed);
    }
  }

  lemma NodesOfHeight(w: nat, height: nat, pushed: nat)
    requires w > 0 && height > 0 && pushed == NodesBelow(w, height - 1) + 1
    ensures NodesBelow(w, height) == w * pushed && pushed - 1 < NodesBelow(w, height)
    ensures height > 11 ==> NodesBelow(w, 11) <= pushed - 1
  {
    NodesGrow(w, height - 1);
    if height > 11 {
      NodesMonotone(w, 11, height - 1);
    }
  }

  /** The pushed entries are the virtual root and exactly the nodes above the last level. */
  lemma BelowLastLevel(w: nat, height: int, id: nat, pushed: nat)
    requires w > 0 && height > 0 && Pushed(w, height, id, pushed) && id > pushed - 1
    ensures pushed - 1 == NodesBelow(w, height - 1)
  {
    hide NodesBelow, Level;
    LevelRange(w, pushed - 1, height - 1);
    if pushed > 1 {
      LevelRange(w, pushed - 2, height - 1);
    }
  }

  lemma NodesGrow(w: nat, height: nat)
    requires w > 0
    ensures NodesBelow(w, height) < NodesBelow(w, height + 1)
  {
    assert w * (1 + NodesBelow(w, height)) >= 1 + NodesBelow(w, height);
  }

  lemma {:induction false} NodesMonotone(w: nat, low: nat, high: nat)
    requires w > 0 && low <= high
    ensures NodesBelow(w, low) <= NodesBelow(w, high)
    decreases high
  {
    if low < high {
      NodesMonotone(w, low, high - 1);
      NodesGrow(w, high - 1);
    }
  }

  /** `p` is the draw, or the nearer bound of [0.05, 0.95] if it lies outside. */
  predicate BroughtIn(draw: real, p: real) {
    && 0.05 <= p <= 0.95 && (0.05 <= draw <= 0.95 ==> p == draw)
    && (draw < 0.05 ==> p == 0.05) && (draw > 0.95 ==> p == 0.95)
  }

  /** Every node's acceptance probability is its draw, brought into range. */
  ghost predicate DrawnFrom(t: DraftTree, draws: nat -> real) {
    forall x: nat | x in t.nodes :: BroughtIn(draws(x), t.nodes[x].acceptanceProb)
  }

  /** A time of `scale` microseconds, shortened by the acceptance probability, rounded down and at least 1. */
  predicate Shortened(us: Option<int>, p: real, scale: int) {
    && us.Some? && us.value >= 1 && (1.0 - p) * scale as real < (us.value + 1) as real
    && (us.value == 1 || us.value as real <= (1.0 - p) * scale as real)
  }

  /** What the two events of node `x` declare. */
  ghost predicate Declares(t: DraftTree, events: seq<Event>, x: nat) {
    && x in t.nodes && 2 * x + 1 < |events|
    && var node, a, b := t.nodes[x], events[2 * x], events[2 * x + 1];
    && a.kind == Allocated && a.step == 2 * x && b.kind == Accessed && b.step == 2 * x + 1
    && b.intent == a.intent.(recency := 1.0)
    && node.tokenId == 1000 + x && a.intent.objectId == node.kvObjectId && a.intent.blockId == x
    && a.intent.phase == Verify && a.intent.isDraft && !a.intent.isCommitted && !a.intent.pinRequested
    && a.intent.priority == (if node.acceptanceProb < 0.3 then Cold else Hot)
    && a.intent.allowedTiers == {HBM, DRAM} && a.intent.currentTier == HBM && a.intent.sizeBytes == 262144
    && a.intent.requestPriority == 80 && a.intent.recency == 1.0 - 0.1 * node.depth as real
    && a.intent.reuseWindow == Some(node.depth + 1) && a.intent.lastAccessStep == a.intent.createdStep == 2 * x
    && a.intent.arrivalStep == a.intent.targetDecodeStep == None
    && a.intent.recomputeCostUs == Some(1500) && a.intent.spillCostUs == Some(100)
    && !a.intent.compressionOk && !a.intent.recomputeOk && !a.intent.prefetchOk
    && Shortened(a.intent.deadlineUs, node.acceptanceProb, 2000)
    && Shortened(a.intent.slackUs, node.acceptanceProb, 1000)
  }

  lemma ForestIsDrawn(w: nat, draws: nat -> real, n: nat)
    ensures DrawnFrom(ForestOf(w, draws, n), draws)
  {
    hide Level, ParentOf, ObjectName;
  }

  /** The trace declares each node's block as the forest describes the node. */
  lemma TraceDeclares(w: nat, draws: nat -> real, n: nat, x: nat)
    requires x < n
    ensures Declares(ForestOf(w, draws, n), AllocationTrace(w, draws, n), x)
  {
    hide AllocationTrace, Level, ParentOf, ObjectName, Micros, Clamp, Shortened;
    TraceAt(w, draws, n, x);
    MicrosShortens(Clamp(draws(x)), 2000);
    MicrosShortens(Clamp(draws(x)), 1000);
  }

  lemma MicrosShortens(p: real, scale: int)
    ensures Shortened(Some(Micros(p, scale)), p, scale)
  {
  }

  lemma Start(w: nat, height: int, draws: nat -> real)
    ensures [Entry(None, 0)] == Frontier(w, 0, 1) && Pushed(w, height, 0, 1)
    ensures DraftTree([], map[]) == ForestOf(w, draws, 0) && AllocationTrace(w, draws, 0) == []
  {
  }

  lemma OneMoreNode(w: nat, draws: nat -> real, id: nat)
    ensures var t := ForestOf(w, draws, id);
      ForestOf(w, draws, id + 1) == DraftTree(t.order + [id], t.nodes[id := NodeAt(w, draws, id)])
    ensures AllocationTrace(w, draws, id + 1) == AllocationTrace(w, draws, id) + AllocationOf(w, draws, id)
  {
  }

  lemma FrontierGrows(w: nat, from: nat, to: nat)
    requires from <= to
    ensures Frontier(w, from, to + 1) == Frontier(w, from, to) + [EntryAt(w, to)]
    ensures to > 0 ==> EntryAt(w, to) == Entry(Some(to - 1), 1 + Level(w, to - 1))
  {
  }

  /** The breadth-first loop: refused exactly when a level deeper than ten would be built, and otherwise the
      complete forest, with each node's block allocated and accessed in turn. */
  method Generate(width: int, height: int, draws: nat -> real)
    returns (r: Result<(DraftTree, seq<Event>)>)
    ensures r.Ok? <==> width <= 0 || height <= 11
    ensures r.Ok? ==>
      var w, n := Max(width, 0), NodesBelow(Max(width, 0), Max(height, 0));
      && r.value == (ForestOf(w, draws, n), AllocationTrace(w, draws, n))
      && DrawnFrom(r.value.0, draws) && forall x: nat | x < n :: Declares(r.value.0, r.value.1, x)
  {
    hide DrawnFrom, Declares, Pushed, NodesBelow, Level, ParentOf, ForestOf, AllocationTrace, EntryAt, Clamp, Construct;
    hide DraftIntent, VerifiedIntent, ObjectName;
    var w := Max(width, 0);
    var tree, events := DraftTree([], map[]), [];
    var nodeId, step := 0, 0;
    var frontier := [Entry(None, 0)];
    ghost var popped, pushed := 0, 1;
    Start(w, height, draws);
    while frontier != []
      invariant popped <= pushed && frontier == Frontier(w, popped, pushed)
      invariant nodeId == if height <= 0 then 0 else w * popped
      invariant Pushed(w, height, nodeId, pushed) && pushed <= nodeId + 1
      invariant tree == ForestOf(w, draws, nodeId) && events == AllocationTrace(w, draws, nodeId) && step == 2 * nodeId
      decreases NodesBelow(w, Max(height, 0)) + 1 - popped
    {
      PushedWithin(w, height, nodeId, pushed);
      var entry := frontier[0];
      frontier := frontier[1..];
      assert entry == EntryAt(w, popped);
      EntryIsAbove(w, height, nodeId, pushed, popped);
      if entry.depth < height {
        for i := 0 to w
          invariant popped < pushed && frontier == Frontier(w, popped + 1, pushed)
          invariant nodeId == w * popped + i
          invariant Pushed(w, height, nodeId, pushed) && pushed <= nodeId + 1
          invariant tree == ForestOf(w, draws, nodeId) && events == AllocationTrace(w, draws, nodeId)
          invariant step == 2 * nodeId
        {
          LevelOfEntry(w, popped, i);
          DraftIntentAccepted(nodeId, entry.depth, Clamp(draws(nodeId)), step);
          var p := Clamp(draws(nodeId));
          tree := DraftTree(tree.order + [nodeId],
            tree.nodes[nodeId := DraftNode(1000 + nodeId, entry.parent, entry.depth, p, ObjectName(nodeId))]);
          var intent :- Construct(DraftIntent(nodeId, entry.depth, p, step));
          PushNext(w, height, nodeId, pushed);
          OneMoreNode(w, draws, nodeId);
          events := events + [Event(step, Allocated, intent)];
          step := step + 1;
          var verified := Construct(intent.(phase := Verify, recency := 1.0)).value;
          events := events + [Event(step, Accessed, verified)];
          step := step + 1;
          if entry.depth + 1 < height {
            FrontierGrows(w, popped + 1, pushed);
            frontier := frontier + [Entry(Some(nodeId), entry.depth + 1)];
            pushed := pushed + 1;
          }
          nodeId := nodeId + 1;
        }
        assert w * (popped + 1) == w * popped + w;
      }
      popped := popped + 1;
    }
    ForestComplete(w, height, nodeId, pushed);
    ForestIsDrawn(w, draws, nodeId);
    forall x: nat | x < nodeId ensures Declares(tree, events, x) {
      TraceDeclares(w, draws, nodeId, x);
    }
    return Ok((tree, events));
  }

  /** Parents come before their children, one level up; ids, objects and steps are as numbered. */
  lemma ForestShape(w: nat, draws: nat -> real, n: nat)
    ensures var t := ForestOf(w, draws, n);
      && Keyed(t)
      && t.order == seq(n, i => i)
      && (forall i: int | i in t.nodes :: 0 <= i < n && t.nodes[i] == NodeAt(w, draws, i))
      && (forall i: int | 0 <= i < n :: i in t.nodes)
  {
    var t := ForestOf(w, draws, n);
    forall x: int ensures x in t.order <==> x in t.nodes {
      if 0 <= x < n {
        assert t.order[x] == x;
      }
    }
  }

  lemma {:induction false} ParentIsOneUp(w: nat, draws: nat -> real, n: nat, id: nat)
    requires id < n
    ensures var node := ForestOf(w, draws, n).nodes[id];
      match node.parentId
      case None => node.depth == 0
      case Some(p) => 0 <= p < id && p in ForestOf(w, draws, n).nodes
                      && node.depth == ForestOf(w, draws, n).nodes[p].depth + 1
  {
  }

  /** Node `id` contributes the events at steps 2 id and 2 id + 1. */
  lemma {:induction false} TraceAt(w: nat, draws: nat -> real, n: nat, id: nat)
    requires id < n
    ensures |AllocationTrace(w, draws, n)| == 2 * n
    ensures AllocationTrace(w, draws, n)[2 * id] == AllocationOf(w, draws, id)[0]
    ensures AllocationTrace(w, draws, n)[2 * id + 1] == AllocationOf(w, draws, id)[1]
  {
    hide AllocationOf, Level;
    TraceLength(w, draws, n - 1);
    if id < n - 1 {
      TraceAt(w, draws, n - 1, id);
    }
  }

  lemma {:induction false} TraceLength(w: nat, draws: nat -> real, n: nat)
    ensures |AllocationTrace(w, draws, n)| == 2 * n
  {
    if n > 0 {
      TraceLength(w, draws, n - 1);
    }
  }

  /** The step of every event is its position. */
  lemma TraceIsNumbered(w: nat, draws: nat -> real, n: nat, i: nat)
    requires i < 2 * n
    ensures |AllocationTrace(w, draws, n)| == 2 * n && AllocationTrace(w, draws, n)[i].step == i
  {
    TraceAt(w, draws, n, i / 2);
    hide AllocationTrace, Level;
    assert i == 2 * (i / 2) || i == 2 * (i / 2) + 1;
  }
}
