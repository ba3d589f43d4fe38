/** What resolving a draft tree means: every node is committed or freed, and which (benchmark.py). */
module Verdicts {
  import opened Prelude
  import opened Schema
  import opened Simulation
  import opened Drafts

  /** The trees the generator builds: parents come before children, and objects are not shared. */
  ghost predicate ParentFirst(t: DraftTree) {
    && Keyed(t)
    && (forall x | x in t.nodes :: 0 <= x && (t.nodes[x].parentId.Some? ==>
          0 <= t.nodes[x].parentId.value < x && t.nodes[x].parentId.value in t.nodes))
    && (forall x, y | x in t.nodes && y in t.nodes && t.nodes[x].kvObjectId == t.nodes[y].kvObjectId :: x == y)
  }

  /** `y` is `x` or a descendant of it. */
  predicate Under(t: DraftTree, y: int, x: int)
    decreases y
  {
    y == x || (match ParentIn(t, y) case None => false case Some(p) => 0 <= p < y && Under(t, p, x))
  }

  function ParentIn(t: DraftTree, y: int): Option<int> {
    if y in t.nodes then t.nodes[y].parentId else None
  }

  ghost function Subtree(t: DraftTree, x: int): set<int> {
    set y | y in t.nodes && Under(t, y, x)
  }

  ghost function Subtrees(t: DraftTree, roots: seq<int>): set<int> {
    set y | y in t.nodes && exists r :: r in roots && Under(t, y, r)
  }

  /** The verification draw accepts `y` and every node above it. */
  predicate Accepted(t: DraftTree, draw: int -> real, y: int)
    requires y in t.nodes
    decreases y
  {
    && draw(y) < t.nodes[y].acceptanceProb
    && (match t.nodes[y].parentId case None => true case Some(p) => 0 <= p < y && p in t.nodes && Accepted(t, draw, p))
  }

  /** Accepted means that no draw from the node up to its root reached the probability of its node. */
  lemma {:induction false} AcceptedExactly(t: DraftTree, draw: int -> real, y: int)
    requires ParentFirst(t) && y in t.nodes
    ensures Accepted(t, draw, y) <==> forall x | x in t.nodes && Under(t, y, x) :: draw(x) < t.nodes[x].acceptanceProb
    decreases y
  {
    match t.nodes[y].parentId
    case None =>
      assert forall x :: Under(t, y, x) <==> x == y;
    case Some(p) =>
      AcceptedExactly(t, draw, p);
      assert forall x :: Under(t, y, x) <==> x == y || Under(t, p, x);
  }

  /** The top of `y`'s chain of parents. */
  function RootOf(t: DraftTree, y: int): int
    decreases y
  {
    match ParentIn(t, y) case None => y case Some(p) => if 0 <= p < y then RootOf(t, p) else y
  }

  lemma {:induction false} UnderIsBelow(t: DraftTree, y: int, x: int)
    requires Under(t, y, x)
    ensures x <= y
    decreases y
  {
    if y != x {
      UnderIsBelow(t, ParentIn(t, y).value, x);
    }
  }

  lemma {:induction false} UnderTransitive(t: DraftTree, z: int, y: int, x: int)
    requires Under(t, z, y) && Under(t, y, x)
    ensures Under(t, z, x)
    decreases z
  {
    if z != y {
      UnderTransitive(t, ParentIn(t, z).value, y, x);
    }
  }

  /** Two nodes above the same node are above one another. */
  lemma {:induction false} UnderLinear(t: DraftTree, z: int, x: int, y: int)
    requires Under(t, z, x) && Under(t, z, y)
    ensures Under(t, x, y) || Under(t, y, x)
    decreases z
  {
    if z != x && z != y {
      UnderLinear(t, ParentIn(t, z).value, x, y);
    }
  }

  /** A strict descendant lies under exactly one child. */
  lemma {:induction false} UnderSomeChild(t: DraftTree, y: int, x: int) returns (child: int)
    requires ParentFirst(t) && y in t.nodes && Under(t, y, x) && y != x
    ensures IsChild(t, child, x) && Under(t, y, child)
    decreases y
  {
    var p := t.nodes[y].parentId.value;
    if p == x {
      child := y;
    } else {
      child := UnderSomeChild(t, p, x);
    }
  }

  lemma SiblingsApart(t: DraftTree, y: int, a: int, b: int)
    requires ParentFirst(t) && a in t.nodes && b in t.nodes && a != b && t.nodes[a].parentId == t.nodes[b].parentId
    requires Under(t, y, a)
    ensures !Under(t, y, b)
  {
    if Under(t, y, b) {
      UnderLinear(t, y, a, b);
      if Under(t, a, b) {
        UnderIsBelow(t, t.nodes[a].parentId.value, b);
      } else {
        UnderIsBelow(t, t.nodes[b].parentId.value, a);
      }
    }
  }

  lemma {:induction false} UnderRoot(t: DraftTree, y: int, x: int)
    requires ParentFirst(t) && y in t.nodes
    ensures RootOf(t, y) in t.nodes && t.nodes[RootOf(t, y)].parentId.None? && Under(t, y, RootOf(t, y))
    ensures Under(t, y, x) ==> RootOf(t, y) == RootOf(t, x)
    decreases y
  {
    if t.nodes[y].parentId.Some? {
      UnderRoot(t, t.nodes[y].parentId.value, x);
    }
  }

  lemma {:induction false} UnderRejected(t: DraftTree, draw: int -> real, y: int, x: int)
    requires ParentFirst(t) && x in t.nodes && y in t.nodes && Under(t, y, x) && !Accepted(t, draw, x)
    ensures !Accepted(t, draw, y)
    decreases y
  {
    if y != x {
      UnderRejected(t, draw, t.nodes[y].parentId.value, x);
    }
  }

  lemma {:induction false} UpIsUnder(t: DraftTree, y: int, x: int, k: nat)
    requires ParentFirst(t) && Up(t, y, k) == Some(x)
    ensures Under(t, y, x) && (k > 0 ==> x < y)
    decreases k
  {
    if k > 0 {
      UpIsUnder(t, t.nodes[y].parentId.value, x, k - 1);
      UnderIsBelow(t, t.nodes[y].parentId.value, x);
    }
  }

  lemma {:induction false} UnderIsUp(t: DraftTree, y: int, x: int) returns (k: nat)
    requires ParentFirst(t) && Under(t, y, x)
    ensures Up(t, y, k) == Some(x)
    decreases y
  {
    if y == x {
      k := 0;
    } else {
      var j := UnderIsUp(t, ParentIn(t, y).value, x);
      k := j + 1;
    }
  }

  /** In these trees no node is its own ancestor, and the search finds the subtree without its root. */
  lemma DescendantsAreSubtree(t: DraftTree, x: int)
    requires ParentFirst(t)
    ensures !Descends(t, x, x)
    ensures DescendantsOf(t, x) == Subtree(t, x) - {x}
  {
    if Descends(t, x, x) {
      var k: nat :| k > 0 && Up(t, x, k) == Some(x);
      UpIsUnder(t, x, x, k);
    }
    forall y | y in t.nodes ensures Descends(t, y, x) <==> Under(t, y, x) && y != x {
      if Descends(t, y, x) {
        var k: nat :| k > 0 && Up(t, y, k) == Some(x);
        UpIsUnder(t, y, x, k);
      } else if Under(t, y, x) {
        var k := UnderIsUp(t, y, x);
      }
    }
  }
}
