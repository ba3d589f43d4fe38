/** Speculative draft trees and the search for a node's descendants (spec_intent.py). */
module Drafts {
  import opened Prelude

  datatype DraftNode = DraftNode(
    tokenId: int, parentId: Option<int>, depth: int, acceptanceProb: real, kvObjectId: string)

  /** A dict of nodes: the mapping and the order in which its keys were inserted. */
  datatype DraftTree = DraftTree(order: seq<int>, nodes: map<int, DraftNode>)

  ghost predicate Keyed(t: DraftTree) {
    Enumerates(t.order, t.nodes.Keys)
  }

  predicate IsChild(t: DraftTree, x: int, parent: int) {
    x in t.nodes && t.nodes[x].parentId == Some(parent)
  }

  /** The ancestor `k` steps above `x`, if the chain of parents is that long. */
  function Up(t: DraftTree, x: int, k: nat): Option<int>
    decreases k
  {
    if k == 0 then Some(x)
    else if x in t.nodes && t.nodes[x].parentId.Some? then Up(t, t.nodes[x].parentId.value, k - 1)
    else None
  }

  /** `x` is a strict descendant of `root`. */
  ghost predicate Descends(t: DraftTree, x: int, root: int) {
    exists k: nat :: k > 0 && Up(t, x, k) == Some(root)
  }

  ghost function DescendantsOf(t: DraftTree, root: int): set<int> {
    set x | x in t.nodes && Descends(t, x, root)
  }

  ghost function ChildrenOf(t: DraftTree, parents: set<int>): set<int> {
    set x | x in t.nodes && t.nodes[x].parentId.Some? && t.nodes[x].parentId.value in parents
  }

  function NodesOf(t: DraftTree, ids: seq<int>): seq<DraftNode>
    requires forall i | 0 <= i < |ids| :: ids[i] in t.nodes
  {
    seq(|ids|, i requires 0 <= i < |ids| => t.nodes[ids[i]])
  }

  lemma ChildDescends(t: DraftTree, x: int, parent: int, root: int)
    requires IsChild(t, x, parent) && (parent == root || Descends(t, parent, root))
    ensures Descends(t, x, root)
  {
    if parent == root {
      assert Up(t, x, 1) == Some(root);
    } else {
      var k: nat :| k > 0 && Up(t, parent, k) == Some(root);
      assert Up(t, x, k + 1) == Some(root);
    }
  }

  /** A set that contains the root and is closed under taking children holds every descendant. */
  lemma {:induction false} ClosedHoldsDescendants(t: DraftTree, ids: set<int>, root: int, x: int, k: nat)
    requires root in ids && ChildrenOf(t, ids) <= ids
    requires Up(t, x, k) == Some(root)
    ensures x in ids
    decreases k
  {
    if k > 0 {
      ClosedHoldsDescendants(t, ids, root, t.nodes[x].parentId.value, k - 1);
      assert x in ChildrenOf(t, ids);
    }
  }

  /** Of the first `j` keys, the children of `current`. */
  ghost function KidsBefore(t: DraftTree, current: int, j: nat): set<int>
    requires j <= |t.order|
  {
    set x | x in t.order[..j] && IsChild(t, x, current)
  }

  /** The nodes under `parent`, or the roots, among the first `j` keys, in order of insertion. */
  function KidsInOrder(t: DraftTree, parent: Option<int>, j: nat): seq<int>
    requires j <= |t.order|
  {
    if j == 0 then []
    else
      var x := t.order[j - 1];
      KidsInOrder(t, parent, j - 1) + if x in t.nodes && t.nodes[x].parentId == parent then [x] else []
  }

  /** What one turn of the search does to the pending ids. */
  function Turn(t: DraftTree, pending: seq<int>): seq<int> {
    if pending == [] then []
    else pending[..|pending| - 1] + KidsInOrder(t, Some(pending[|pending| - 1]), |t.order|)
  }

  /** What one turn finds. */
  function Found(t: DraftTree, pending: seq<int>): seq<int> {
    if pending == [] then [] else KidsInOrder(t, Some(pending[|pending| - 1]), |t.order|)
  }

  function AfterTurns(t: DraftTree, pending: seq<int>, n: nat): seq<int> {
    if n == 0 then pending else Turn(t, AfterTurns(t, pending, n - 1))
  }

  function FoundAfter(t: DraftTree, pending: seq<int>, n: nat): seq<int> {
    if n == 0 then [] else FoundAfter(t, pending, n - 1) + Found(t, AfterTurns(t, pending, n - 1))
  }

  lemma {:induction false} KidsInOrderHas(t: DraftTree, parent: Option<int>, j: nat, x: int)
    requires j <= |t.order|
    ensures x in KidsInOrder(t, parent, j) <==> x in t.order[..j] && x in t.nodes && t.nodes[x].parentId == parent
  {
    if j > 0 {
      KidsInOrderHas(t, parent, j - 1, x);
      assert t.order[..j] == t.order[..j - 1] + [t.order[j - 1]];
    }
  }

  lemma {:induction false} UpJoins(t: DraftTree, x: int, a: nat, b: nat)
    requires Up(t, x, a).Some?
    ensures Up(t, x, a + b) == Up(t, Up(t, x, a).value, b)
    decreases a
  {
    if a > 0 {
      UpJoins(t, t.nodes[x].parentId.value, a - 1, b);
    }
  }

  lemma {:induction false} UpPrefix(t: DraftTree, x: int, a: nat, b: nat)
    requires Up(t, x, a + b).Some?
    ensures Up(t, x, a).Some?
    decreases a
  {
    if a > 0 {
      UpPrefix(t, t.nodes[x].parentId.value, a - 1, b);
    }
  }

  /** A node that is its own ancestor has a child that is its own ancestor. */
  lemma CycleGoesOn(t: DraftTree, z: int) returns (child: int)
    requires Descends(t, z, z)
    ensures IsChild(t, child, z) && Descends(t, child, child)
  {
    var k: nat :| k > 0 && Up(t, z, k) == Some(z);
    UpPrefix(t, z, k - 1, 1);
    child := Up(t, z, k - 1).value;
    UpJoins(t, z, k - 1, 1);
    assert Up(t, child, 1) == Some(z);
    UpJoins(t, child, 1, k - 1);
    assert Up(t, child, k) == Up(t, z, k - 1) == Some(child);
  }

  /** A turn leaves a node that is its own ancestor pending, if there was one. */
  lemma CycleStays(t: DraftTree, pending: seq<int>, z: int) returns (z': int)
    requires Keyed(t) && z in pending && Descends(t, z, z)
    ensures z' in Turn(t, pending) && Descends(t, z', z')
  {
    hide Descends, Keyed, KidsInOrder;
    var last := pending[|pending| - 1];
    z' := z;
    if z == last {
      z' := CycleGoesOn(t, z);
      KeyedHas(t, z', z);
      KidsInOrderHas(t, Some(z), |t.order|, z');
    } else {
      assert pending == pending[..|pending| - 1] + [last];
    }
  }

  /** The search from a node that is its own ancestor never runs out of pending ids. */
  lemma {:induction false} SearchNeverEnds(t: DraftTree, node: int, n: nat)
    requires Keyed(t) && Descends(t, node, node)
    ensures exists z :: z in AfterTurns(t, [node], n) && Descends(t, z, z)
    ensures AfterTurns(t, [node], n) != []
  {
    if n == 0 {
      assert node in AfterTurns(t, [node], 0);
    } else {
      hide Descends, IsChild, Keyed, Turn;
      SearchNeverEnds(t, node, n - 1);
      var z :| z in AfterTurns(t, [node], n - 1) && Descends(t, z, z);
      var z' := CycleStays(t, AfterTurns(t, [node], n - 1), z);
    }
  }

  lemma KeyedHas(t: DraftTree, x: int, parent: int)
    requires Keyed(t) && IsChild(t, x, parent)
    ensures x in t.order[..|t.order|]
  {
    assert t.order[..|t.order|] == t.order;
  }

  lemma KidFound(t: DraftTree, current: int, j: nat, kids: seq<int>)
    requires Keyed(t) && j < |t.order| && Enumerates(kids, KidsBefore(t, current, j))
    ensures var child := t.order[j];
      Enumerates(if IsChild(t, child, current) then kids + [child] else kids, KidsBefore(t, current, j + 1))
  {
    var child := t.order[j];
    assert t.order[..j + 1] == t.order[..j] + [child] && child !in t.order[..j];
    if IsChild(t, child, current) {
      EnumeratesConcat(kids, [child], KidsBefore(t, current, j), {child});
      assert KidsBefore(t, current, j + 1) == KidsBefore(t, current, j) + {child};
    } else {
      assert KidsBefore(t, current, j + 1) == KidsBefore(t, current, j);
    }
  }

  /** The worklist's state: `popped` have been expanded, `ids` found, `pending` wait. */
  ghost predicate Searching(t: DraftTree, node: int, popped: set<int>, ids: seq<int>, pending: seq<int>) {
    && Enumerates(ids, ChildrenOf(t, popped))
    && popped <= {node} + ChildrenOf(t, popped)
    && Enumerates(pending, {node} + ChildrenOf(t, popped) - popped)
    && ChildrenOf(t, popped) <= DescendantsOf(t, node)
  }

  function Measure(t: DraftTree, node: int, popped: set<int>): nat {
    |t.nodes.Keys + {node} - popped|
  }

  lemma SearchExpands(t: DraftTree, node: int, popped: set<int>, ids: seq<int>, pending: seq<int>, kids: seq<int>)
    requires Keyed(t) && !Descends(t, node, node) && Searching(t, node, popped, ids, pending) && pending != []
    requires Enumerates(kids, KidsBefore(t, pending[|pending| - 1], |t.order|))
    ensures var current := pending[|pending| - 1];
      && Searching(t, node, popped + {current}, ids + kids, pending[..|pending| - 1] + kids)
      && Measure(t, node, popped + {current}) < Measure(t, node, popped)
  {
    hide Descends, KidsBefore, ChildrenOf, Keyed, DescendantsOf, Enumerates;
    var rest, current := pending[..|pending| - 1], pending[|pending| - 1];
    var found, kin := ChildrenOf(t, popped), ChildrenOf(t, {current});
    LastLeaves(pending, {node} + found - popped);
    KidsAreChildren(t, popped, current);
    KidsDescend(t, node, popped, current);
    EnumeratesConcat(ids, kids, found, kin);
    NewKidsWait(node, found, popped, current, kin);
    EnumeratesConcat(rest, kids, {node} + found - popped - {current}, kin);
    assert t.nodes.Keys + {node} - (popped + {current}) == t.nodes.Keys + {node} - popped - {current};
    WaitingIsKnown(t, node, popped, current);
  }

  lemma WaitingIsKnown(t: DraftTree, node: int, popped: set<int>, current: int)
    requires current in {node} + ChildrenOf(t, popped) - popped
    ensures current in t.nodes.Keys + {node} - popped
  {
  }

  /** The bookkeeping of one expansion: what waits next. */
  lemma NewKidsWait(node: int, found: set<int>, popped: set<int>, current: int, kin: set<int>)
    requires found !! kin && node !in kin && popped <= {node} + found && current in {node} + found - popped
    ensures ({node} + found - popped - {current}) !! kin
    ensures {node} + found - popped - {current} + kin == {node} + (found + kin) - (popped + {current})
  {
  }

  lemma KidsDescend(t: DraftTree, node: int, popped: set<int>, current: int)
    requires !Descends(t, node, node)
    requires current in {node} + ChildrenOf(t, popped) - popped && ChildrenOf(t, popped) <= DescendantsOf(t, node)
    ensures ChildrenOf(t, {current}) <= DescendantsOf(t, node) && node !in ChildrenOf(t, {current})
  {
    hide Descends;
    forall x | x in ChildrenOf(t, {current}) ensures Descends(t, x, node) {
      ChildDescends(t, x, current, node);
    }
  }

  lemma KidsAreChildren(t: DraftTree, popped: set<int>, current: int)
    requires Keyed(t)
    ensures KidsBefore(t, current, |t.order|) == ChildrenOf(t, {current})
    ensures ChildrenOf(t, popped + {current}) == ChildrenOf(t, popped) + ChildrenOf(t, {current})
    ensures current !in popped ==> ChildrenOf(t, popped) !! ChildrenOf(t, {current})
  {
    assert t.order[..|t.order|] == t.order;
  }

  lemma LastLeaves(pending: seq<int>, ids: set<int>)
    requires Enumerates(pending, ids) && pending != []
    ensures pending[|pending| - 1] in ids
    ensures Enumerates(pending[..|pending| - 1], ids - {pending[|pending| - 1]})
  {
    assert pending == pending[..|pending| - 1] + [pending[|pending| - 1]];
  }

  lemma SearchStarts(t: DraftTree, node: int)
    ensures Searching(t, node, {}, [], [node])
  {
  }

  lemma NoKidsYet(t: DraftTree, current: int)
    ensures Enumerates([], KidsBefore(t, current, 0))
  {
  }

  lemma KeyedOrder(t: DraftTree, j: nat)
    requires Keyed(t) && j < |t.order|
    ensures t.order[j] in t.nodes
  {
  }

  lemma SearchEnds(t: DraftTree, node: int, popped: set<int>, ids: seq<int>)
    requires Searching(t, node, popped, ids, [])
    ensures Enumerates(ids, DescendantsOf(t, node))
  {
    NothingWaits(t, node, popped, ids);
    forall x | x in DescendantsOf(t, node) ensures x in ChildrenOf(t, popped) {
      var k: nat :| k > 0 && Up(t, x, k) == Some(node);
      ClosedHoldsDescendants(t, popped, node, t.nodes[x].parentId.value, k - 1);
    }
    hide Enumerates, Descends;
    assert ChildrenOf(t, popped) == DescendantsOf(t, node);
  }

  lemma NothingWaits(t: DraftTree, node: int, popped: set<int>, ids: seq<int>)
    requires Searching(t, node, popped, ids, [])
    ensures node in popped && ChildrenOf(t, popped) <= popped
  {
    hide ChildrenOf, DescendantsOf, Enumerates;
    var waiting := {node} + ChildrenOf(t, popped) - popped;
    EnumeratesSize([], waiting);
    assert waiting == {};
  }

  /** One turn's inner loop: the children of `current` are found and wait, in order of insertion. */
  method Expand(t: DraftTree, current: int, found: seq<DraftNode>, pending: seq<int>)
    returns (found': seq<DraftNode>, pending': seq<int>)
    requires Keyed(t)
    ensures var kids := KidsInOrder(t, Some(current), |t.order|);
      && Enumerates(kids, KidsBefore(t, current, |t.order|))
      && (forall i | 0 <= i < |kids| :: kids[i] in t.nodes)
      && pending' == pending + kids && found' == found + NodesOf(t, kids)
  {
    hide KidsBefore, Enumerates;
    found', pending' := found, pending;
    ghost var kids: seq<int> := [];
    NoKidsYet(t, current);
    for j := 0 to |t.order|
      invariant Enumerates(kids, KidsBefore(t, current, j)) && kids == KidsInOrder(t, Some(current), j)
      invariant (forall i | 0 <= i < |kids| :: kids[i] in t.nodes) && found' == found + NodesOf(t, kids)
      invariant pending' == pending + kids
    {
      var child := t.order[j];
      KeyedOrder(t, j);
      KidFound(t, current, j, kids);
      if t.nodes[child].parentId == Some(current) {
        found', pending', kids := found' + [t.nodes[child]], pending' + [child], kids + [child];
      }
    }
  }

  /** The worklist search. It ends unless the node is its own ancestor, and finds every strict descendant
      exactly once, the last child found being expanded first; `ids` names the nodes found. */
  method Descendants(t: DraftTree, node: int) returns (found: seq<DraftNode>, ghost ids: seq<int>)
    requires Keyed(t) && !Descends(t, node, node)
    ensures Enumerates(ids, DescendantsOf(t, node))
    ensures (forall i | 0 <= i < |ids| :: ids[i] in t.nodes) && found == NodesOf(t, ids)
    ensures exists n: nat :: AfterTurns(t, [node], n) == [] && FoundAfter(t, [node], n) == ids
  {
    hide Descends, ChildrenOf, DescendantsOf, Searching, Measure, KidsBefore, Enumerates, Keyed, KidsInOrder;
    found, ids := [], [];
    var pending := [node];
    ghost var popped: set<int>, turns: nat := {}, 0;
    SearchStarts(t, node);
    while pending != []
      invariant Searching(t, node, popped, ids, pending)
      invariant pending == AfterTurns(t, [node], turns) && ids == FoundAfter(t, [node], turns)
      invariant (forall i | 0 <= i < |ids| :: ids[i] in t.nodes) && found == NodesOf(t, ids)
      decreases Measure(t, node, popped)
    {
      var current := pending[|pending| - 1];
      ghost var ids0, pending0, kids := ids, pending, KidsInOrder(t, Some(current), |t.order|);
      found, pending := Expand(t, current, found, pending[..|pending| - 1]);
      ids := ids + kids;
      assert pending == Turn(t, pending0) && kids == Found(t, pending0);
      SearchExpands(t, node, popped, ids0, pending0, kids);
      popped, turns := popped + {current}, turns + 1;
    }
    SearchEnds(t, node, popped, ids);
  }
}
