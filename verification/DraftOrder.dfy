/** The order in which a draft tree is resolved, and in which a refused subtree is searched (benchmark.py,
    spec_intent.py). */
module DraftOrder {
  import opened Prelude
  import opened Drafts
  import opened Verdicts

  /** The nodes that may still be visited below `parent`. */
  ghost function Beyond(t: DraftTree, parent: Option<int>): set<int> {
    set y | y in t.nodes && (parent.Some? ==> y > parent.value)
  }

  /** The children of a node, or the roots, in order of insertion. */
  function Kin(t: DraftTree, parent: Option<int>): seq<int> {
    KidsInOrder(t, parent, |t.order|)
  }

  lemma KinBeyond(t: DraftTree, parent: Option<int>, i: nat)
    requires ParentFirst(t) && i < |Kin(t, parent)|
    ensures var x := Kin(t, parent)[i];
      x in t.nodes && t.nodes[x].parentId == parent && Beyond(t, Some(x)) < Beyond(t, parent)
  {
    var x := Kin(t, parent)[i];
    KidsInOrderHas(t, parent, |t.order|, x);
    assert x in Beyond(t, parent) && x !in Beyond(t, Some(x));
  }

  /** Depth first, the last child first: the order in which the search expands what is under `x`. */
  ghost function Dug(t: DraftTree, x: int): seq<int>
    requires ParentFirst(t)
    decreases Beyond(t, Some(x)), 1, 0
  {
    [x] + DugKids(t, Some(x), |Kin(t, Some(x))|)
  }

  ghost function DugKids(t: DraftTree, parent: Option<int>, n: nat): seq<int>
    requires ParentFirst(t) && n <= |Kin(t, parent)|
    decreases Beyond(t, parent), 0, n
  {
    if n == 0 then []
    else
      KinBeyond(t, parent, n - 1);
      Dug(t, Kin(t, parent)[n - 1]) + DugKids(t, parent, n - 1)
  }

  ghost function DugStack(t: DraftTree, stack: seq<int>): seq<int>
    requires ParentFirst(t)
  {
    if stack == [] then [] else Dug(t, stack[|stack| - 1]) + DugStack(t, stack[..|stack| - 1])
  }

  /** The children of each of `ids`, family by family. */
  function Families(t: DraftTree, ids: seq<int>): seq<int> {
    if ids == [] then [] else Kin(t, Some(ids[0])) + Families(t, ids[1..])
  }

  /** What the search finds under `x`, in order. */
  ghost function Searched(t: DraftTree, x: int): seq<int>
    requires ParentFirst(t)
  {
    Families(t, Dug(t, x))
  }

  lemma {:induction false} DugStackConcat(t: DraftTree, a: seq<int>, b: seq<int>)
    requires ParentFirst(t)
    ensures DugStack(t, a + b) == DugStack(t, b) + DugStack(t, a)
    decreases |b|
  {
    hide ParentFirst, Dug;
    if b == [] {
      assert a + b == a;
    } else {
      var last := |b| - 1;
      assert (a + b)[..|a + b| - 1] == a + b[..last];
      DugStackConcat(t, a, b[..last]);
    }
  }

  lemma {:induction false} KidsStack(t: DraftTree, parent: Option<int>, n: nat)
    requires ParentFirst(t) && n <= |Kin(t, parent)|
    ensures DugStack(t, Kin(t, parent)[..n]) == DugKids(t, parent, n)
  {
    hide ParentFirst, Dug, Kin;
    if n > 0 {
      KidsStack(t, parent, n - 1);
      assert Kin(t, parent)[..n][..n - 1] == Kin(t, parent)[..n - 1];
    }
  }

  lemma {:induction false} TurnFirst(t: DraftTree, pending: seq<int>, n: nat)
    ensures AfterTurns(t, pending, n + 1) == AfterTurns(t, Turn(t, pending), n)
    ensures FoundAfter(t, pending, n + 1) == Found(t, pending) + FoundAfter(t, Turn(t, pending), n)
  {
    hide Turn, Found;
    if n > 0 {
      TurnFirst(t, pending, n - 1);
      assert FoundAfter(t, pending, n + 1) == FoundAfter(t, pending, n) + Found(t, AfterTurns(t, pending, n));
    } else {
      assert AfterTurns(t, pending, 0) == pending && FoundAfter(t, pending, 0) == [];
      assert FoundAfter(t, pending, 1) == [] + Found(t, pending);
    }
  }

  /** What one turn does to the stack. */
  lemma TurnDigs(t: DraftTree, stack: seq<int>)
    requires ParentFirst(t) && stack != []
    ensures var x := stack[|stack| - 1];
      DugStack(t, stack) == [x] + DugStack(t, Turn(t, stack)) && Found(t, stack) == Kin(t, Some(x))
  {
    hide ParentFirst, KidsInOrder;
    var init, x := stack[..|stack| - 1], stack[|stack| - 1];
    var kids := Kin(t, Some(x));
    DugStackConcat(t, init, kids);
    KidsStack(t, Some(x), |kids|);
    assert kids[..|kids|] == kids;
  }

  /** The worklist search expands in that order, one node a turn. */
  lemma {:induction false} SearchDigs(t: DraftTree, stack: seq<int>)
    requires ParentFirst(t)
    ensures var n := |DugStack(t, stack)|;
      AfterTurns(t, stack, n) == [] && FoundAfter(t, stack, n) == Families(t, DugStack(t, stack))
    decreases |DugStack(t, stack)|
  {
    hide ParentFirst, Turn, Found, Kin, Dug;
    if stack != [] {
      TurnDigs(t, stack);
      var next := Turn(t, stack);
      SearchDigs(t, next);
      TurnFirst(t, stack, |DugStack(t, next)|);
      assert DugStack(t, stack)[1..] == DugStack(t, next);
    }
  }

  lemma {:induction false} SearchOver(t: DraftTree, pending: seq<int>, m: nat, n: nat)
    requires AfterTurns(t, pending, m) == [] && m <= n
    ensures AfterTurns(t, pending, n) == [] && FoundAfter(t, pending, n) == FoundAfter(t, pending, m)
  {
    hide KidsInOrder;
    if m < n {
      SearchOver(t, pending, m, n - 1);
    }
  }

  /** Whenever the search ends, that is what it has found. */
  lemma SearchFinds(t: DraftTree, x: int, n: nat)
    requires ParentFirst(t) && AfterTurns(t, [x], n) == []
    ensures FoundAfter(t, [x], n) == Searched(t, x)
  {
    hide ParentFirst, AfterTurns, FoundAfter, Families, Dug;
    SearchDigs(t, [x]);
    assert [x][..0] == [] && DugStack(t, []) == [];
    assert DugStack(t, [x]) == Dug(t, x) + [] == Dug(t, x);
    var m := |Dug(t, x)|;
    if m <= n {
      SearchOver(t, [x], m, n);
    } else {
      SearchOver(t, [x], n, m);
    }
  }

  /** The order of resolution: an accepted node, then its children one after the other; a refused node, then
      everything the search finds below it. */
  ghost function Visit(t: DraftTree, draw: int -> real, x: int): seq<int>
    requires ParentFirst(t) && x in t.nodes
    decreases Beyond(t, Some(x)), 1, 0
  {
    [x] + if draw(x) < t.nodes[x].acceptanceProb then VisitKids(t, draw, Some(x), |Kin(t, Some(x))|) else Searched(t, x)
  }

  ghost function VisitKids(t: DraftTree, draw: int -> real, parent: Option<int>, n: nat): seq<int>
    requires ParentFirst(t) && n <= |Kin(t, parent)|
    decreases Beyond(t, parent), 0, n
  {
    if n == 0 then []
    else
      KinBeyond(t, parent, n - 1);
      VisitKids(t, draw, parent, n - 1) + Visit(t, draw, Kin(t, parent)[n - 1])
  }

  /** The same for trees that may not be as generated. */
  ghost function OrderFrom(t: DraftTree, draw: int -> real, x: int): seq<int> {
    if ParentFirst(t) && x in t.nodes then Visit(t, draw, x) else []
  }

  ghost function OrderOfKids(t: DraftTree, draw: int -> real, parent: Option<int>, n: nat): seq<int> {
    if ParentFirst(t) && n <= |Kin(t, parent)| then VisitKids(t, draw, parent, n) else []
  }

  lemma OrderOfOneMore(t: DraftTree, draw: int -> real, parent: Option<int>, i: nat)
    requires ParentFirst(t) && i < |Kin(t, parent)|
    ensures OrderOfKids(t, draw, parent, 0) == []
    ensures OrderOfKids(t, draw, parent, i + 1) ==
      OrderOfKids(t, draw, parent, i) + OrderFrom(t, draw, Kin(t, parent)[i])
  {
    hide ParentFirst, Visit, Kin;
    KinBeyond(t, parent, i);
  }

  lemma OrderFromVerdict(t: DraftTree, draw: int -> real, x: int)
    requires ParentFirst(t) && x in t.nodes
    ensures draw(x) < t.nodes[x].acceptanceProb ==>
      OrderFrom(t, draw, x) == [x] + OrderOfKids(t, draw, Some(x), |Kin(t, Some(x))|)
    ensures draw(x) >= t.nodes[x].acceptanceProb ==> OrderFrom(t, draw, x) == [x] + Searched(t, x)
  {
    hide ParentFirst, Kin, Searched, VisitKids;
  }

  /** No node stands before one it lies under, and none stands twice. */
  ghost predicate AncestorsFirst(t: DraftTree, s: seq<int>) {
    forall i, j | 0 <= i < j < |s| :: !Under(t, s[i], s[j])
  }

  ghost predicate AllUnder(t: DraftTree, s: seq<int>, x: int) {
    forall y | y in s :: y in t.nodes && Under(t, y, x)
  }

  /** Node `a` was inserted before its sibling `b`, below an accepted node or as a root. */
  ghost predicate Earlier(t: DraftTree, draw: int -> real, a: int, b: int) {
    && a in t.nodes && b in t.nodes && t.nodes[a].parentId == t.nodes[b].parentId
    && (t.nodes[a].parentId.Some? ==>
          t.nodes[a].parentId.value in t.nodes && Accepted(t, draw, t.nodes[a].parentId.value))
    && exists i, j :: 0 <= i < j < |t.order| && t.order[i] == a && t.order[j] == b
  }

  /** Nothing under a node stands after anything under a later sibling. */
  ghost predicate SiblingsInOrder(t: DraftTree, draw: int -> real, s: seq<int>) {
    forall i, j, a, b | 0 <= i < j < |s| && Earlier(t, draw, a, b) && Under(t, s[i], b) :: !Under(t, s[j], a)
  }

  lemma {:induction false} KinInOrder(t: DraftTree, parent: Option<int>, j: nat, k: nat, m: nat)
    requires Keyed(t) && j <= |t.order| && k < m < |KidsInOrder(t, parent, j)|
    ensures var kin := KidsInOrder(t, parent, j);
      exists i, i' :: 0 <= i < i' < j && t.order[i] == kin[k] && t.order[i'] == kin[m]
  {
    var kin, before := KidsInOrder(t, parent, j), KidsInOrder(t, parent, j - 1);
    if m < |before| {
      KinInOrder(t, parent, j - 1, k, m);
      var i, i' :| 0 <= i < i' < j - 1 && t.order[i] == before[k] && t.order[i'] == before[m];
    } else {
      KidsInOrderHas(t, parent, j - 1, before[k]);
      var i :| 0 <= i < j - 1 && t.order[..j - 1][i] == before[k];
      assert t.order[i] == kin[k] && t.order[j - 1] == kin[m];
    }
  }

  /** Of the children listed, the earlier was inserted first, and they differ. */
  lemma KinApart(t: DraftTree, parent: Option<int>, k: nat, m: nat)
    requires ParentFirst(t) && k < m < |Kin(t, parent)|
    ensures var a, b := Kin(t, parent)[k], Kin(t, parent)[m];
      && a in t.nodes && b in t.nodes && t.nodes[a].parentId == t.nodes[b].parentId == parent && a != b
      && !(exists i, j :: 0 <= i < j < |t.order| && t.order[i] == b && t.order[j] == a)
  {
    KinInOrder(t, parent, |t.order|, k, m);
    KinBeyond(t, parent, k);
    KinBeyond(t, parent, m);
  }

  lemma UnderChild(t: DraftTree, y: int, kid: int, x: int)
    requires ParentFirst(t) && IsChild(t, kid, x) && Under(t, y, kid)
    ensures Under(t, y, x) && !Under(t, x, y)
  {
    assert Under(t, kid, x);
    UnderTransitive(t, y, kid, x);
    UnderIsBelow(t, y, kid);
    if Under(t, x, y) {
      UnderIsBelow(t, x, y);
    }
  }

  /** Pieces that lie under different children may be put together. */
  lemma JoinAncestorsFirst(t: DraftTree, a: seq<int>, b: seq<int>)
    requires AncestorsFirst(t, a) && AncestorsFirst(t, b)
    requires forall y, z | y in a && z in b :: !Under(t, y, z)
    ensures AncestorsFirst(t, a + b)
  {
    forall i, j | 0 <= i < j < |a + b| ensures !Under(t, (a + b)[i], (a + b)[j]) {
      if i < |a| <= j {
        assert a[i] in a && b[j - |a|] in b;
      }
    }
  }

  lemma NothingAcross(t: DraftTree, y: int, a: int, z: int, b: int)
    requires ParentFirst(t) && a in t.nodes && b in t.nodes && a != b && t.nodes[a].parentId == t.nodes[b].parentId
    requires Under(t, y, a) && Under(t, z, b)
    ensures !Under(t, y, z)
  {
    if Under(t, y, z) {
      UnderTransitive(t, y, z, b);
      SiblingsApart(t, y, a, b);
    }
  }

  /** A piece dug under a node starts there, stays there and goes from ancestors down. */
  lemma {:induction false} DugInOrder(t: DraftTree, x: int)
    requires ParentFirst(t) && x in t.nodes
    ensures AncestorsFirst(t, Dug(t, x)) && AllUnder(t, Dug(t, x), x)
    decreases Beyond(t, Some(x)), 1, 0
  {
    var n := |Kin(t, Some(x))|;
    DugKidsInOrder(t, Some(x), n);
    UnderItself(t, x);
    hide ParentFirst, Under;
    var rest := DugKids(t, Some(x), n);
    forall y | y in rest ensures y in t.nodes && Under(t, y, x) && !Under(t, x, y) {
      var k :| 0 <= k < n && Under(t, y, Kin(t, Some(x))[k]);
      KinBeyond(t, Some(x), k);
      UnderChild(t, y, Kin(t, Some(x))[k], x);
    }
    JoinAncestorsFirst(t, [x], rest);
  }

  lemma UnderItself(t: DraftTree, x: int)
    ensures Under(t, x, x)
  {
  }

  /** Each lies under one of the first `n` children. */
  ghost predicate UnderKin(t: DraftTree, s: seq<int>, parent: Option<int>, n: nat)
    requires n <= |Kin(t, parent)|
  {
    forall y | y in s :: y in t.nodes && exists k :: 0 <= k < n && Under(t, y, Kin(t, parent)[k])
  }

  lemma {:induction false} DugKidsInOrder(t: DraftTree, parent: Option<int>, n: nat)
    requires ParentFirst(t) && n <= |Kin(t, parent)|
    ensures AncestorsFirst(t, DugKids(t, parent, n)) && UnderKin(t, DugKids(t, parent, n), parent, n)
    decreases Beyond(t, parent), 0, n
  {
    if n > 0 {
      KinBeyond(t, parent, n - 1);
      var kid := Kin(t, parent)[n - 1];
      DugInOrder(t, kid);
      DugKidsInOrder(t, parent, n - 1);
      var a, b := Dug(t, kid), DugKids(t, parent, n - 1);
      hide ParentFirst, Under, Dug;
      forall y, z | y in a && z in b ensures !Under(t, y, z) {
        var k :| 0 <= k < n - 1 && Under(t, z, Kin(t, parent)[k]);
        KinApart(t, parent, k, n - 1);
        NothingAcross(t, y, kid, z, Kin(t, parent)[k]);
      }
      JoinAncestorsFirst(t, a, b);
    }
  }

  lemma KinAncestorsFirst(t: DraftTree, parent: Option<int>)
    requires ParentFirst(t)
    ensures AncestorsFirst(t, Kin(t, parent))
  {
    hide ParentFirst, Under;
    forall i, j | 0 <= i < j < |Kin(t, parent)| ensures !Under(t, Kin(t, parent)[i], Kin(t, parent)[j]) {
      var a, b := Kin(t, parent)[i], Kin(t, parent)[j];
      KinApart(t, parent, i, j);
      UnderItself(t, a);
      UnderItself(t, b);
      NothingAcross(t, a, a, b, b);
    }
  }

  lemma {:induction false} FamilyOf(t: DraftTree, ids: seq<int>, y: int) returns (k: nat)
    requires ParentFirst(t) && y in Families(t, ids)
    ensures k < |ids| && IsChild(t, y, ids[k])
  {
    if y in Kin(t, Some(ids[0])) {
      k := 0;
      KidsInOrderHas(t, Some(ids[0]), |t.order|, y);
    } else {
      k := FamilyOf(t, ids[1..], y);
      k := k + 1;
    }
  }

  /** Listing families in an order that goes from ancestors down lists nodes in such an order. */
  lemma {:induction false} FamiliesInOrder(t: DraftTree, ids: seq<int>)
    requires ParentFirst(t) && AncestorsFirst(t, ids)
    ensures AncestorsFirst(t, Families(t, ids))
  {
    if ids != [] {
      var a, b := Kin(t, Some(ids[0])), Families(t, ids[1..]);
      assert AncestorsFirst(t, ids[1..]);
      FamiliesInOrder(t, ids[1..]);
      KinAncestorsFirst(t, Some(ids[0]));
      hide ParentFirst, Under;
      forall y, z | y in a && z in b ensures !Under(t, y, z) {
        KidsInOrderHas(t, Some(ids[0]), |t.order|, y);
        var k := FamilyOf(t, ids[1..], z);
        ChildrenApart(t, y, ids[0], z, ids[1..][k]);
      }
      JoinAncestorsFirst(t, a, b);
    }
  }

  lemma ChildrenApart(t: DraftTree, y: int, p: int, z: int, q: int)
    requires ParentFirst(t) && IsChild(t, y, p) && IsChild(t, z, q) && !Under(t, p, q)
    ensures !Under(t, y, z)
  {
    UnderItself(t, p);
    if Under(t, y, z) && y != z {
      UnderChild(t, p, z, q);
    }
  }

  /** A refused node and what the search finds below it. */
  lemma SearchedInOrder(t: DraftTree, x: int)
    requires ParentFirst(t) && x in t.nodes
    ensures AncestorsFirst(t, [x] + Searched(t, x)) && AllUnder(t, [x] + Searched(t, x), x)
  {
    DugInOrder(t, x);
    FamiliesInOrder(t, Dug(t, x));
    UnderItself(t, x);
    hide ParentFirst, Under, Dug, Families;
    forall y | y in Searched(t, x) ensures y in t.nodes && Under(t, y, x) && !Under(t, x, y) {
      var k := FamilyOf(t, Dug(t, x), y);
      var p := Dug(t, x)[k];
      ChildBelow(t, y, p, x);
    }
    JoinAncestorsFirst(t, [x], Searched(t, x));
  }

  lemma ChildBelow(t: DraftTree, y: int, p: int, x: int)
    requires ParentFirst(t) && IsChild(t, y, p) && Under(t, p, x)
    ensures Under(t, y, x) && !Under(t, x, y)
  {
    UnderIsBelow(t, p, x);
    if Under(t, x, y) {
      UnderIsBelow(t, x, y);
    }
  }

  /** No two siblings with an accepted parent lie below a refused node. */
  lemma RefusedHasNoSiblings(t: DraftTree, draw: int -> real, x: int, s: seq<int>)
    requires ParentFirst(t) && x in t.nodes && !Accepted(t, draw, x) && AllUnder(t, s, x)
    ensures SiblingsInOrder(t, draw, s)
  {
    hide Accepted, ParentFirst;
    forall i, j, a, b | 0 <= i < j < |s| && Earlier(t, draw, a, b) && Under(t, s[i], b) ensures !Under(t, s[j], a) {
      if Under(t, s[j], a) {
        SiblingsDiffer(t, draw, a, b);
        assert s[i] in s && s[j] in s;
        UnderLinear(t, s[j], a, x);
        if Under(t, x, a) {
          UnderTransitive(t, s[i], x, a);
          SiblingsApart(t, s[i], a, b);
        } else {
          RefusedAbove(t, draw, a, x);
        }
      }
    }
  }

  lemma SiblingsDiffer(t: DraftTree, draw: int -> real, a: int, b: int)
    requires ParentFirst(t) && Earlier(t, draw, a, b)
    ensures a != b
  {
  }

  /** A node strictly below a refused one has a refused parent. */
  lemma RefusedAbove(t: DraftTree, draw: int -> real, a: int, x: int)
    requires ParentFirst(t) && x in t.nodes && a in t.nodes && Under(t, a, x) && a != x && !Accepted(t, draw, x)
    ensures t.nodes[a].parentId.Some? && !Accepted(t, draw, t.nodes[a].parentId.value)
  {
    UnderRejected(t, draw, t.nodes[a].parentId.value, x);
  }

  /** Children are visited below an accepted node, and roots always. */
  predicate Open(t: DraftTree, draw: int -> real, parent: Option<int>) {
    parent.Some? ==> parent.value in t.nodes && Accepted(t, draw, parent.value)
  }

  lemma JoinSiblings(t: DraftTree, draw: int -> real, s: seq<int>, r: seq<int>)
    requires SiblingsInOrder(t, draw, s) && SiblingsInOrder(t, draw, r)
    requires forall y, z, a, b | y in s && z in r && Earlier(t, draw, a, b) && Under(t, y, b) :: !Under(t, z, a)
    ensures SiblingsInOrder(t, draw, s + r)
  {
    hide Earlier, Under;
    forall i, j, a, b | 0 <= i < j < |s + r| && Earlier(t, draw, a, b) && Under(t, (s + r)[i], b)
      ensures !Under(t, (s + r)[j], a)
    {
      if i < |s| <= j {
        assert s[i] in s && r[j - |s|] in r;
      }
    }
  }

  /** The order of resolution keeps ancestors before descendants, and finishes each accepted node's children, and the
      roots, one after the other in order of insertion. */
  lemma {:induction false} VisitInOrder(t: DraftTree, draw: int -> real, x: int)
    requires ParentFirst(t) && x in t.nodes && Open(t, draw, t.nodes[x].parentId)
    ensures AncestorsFirst(t, Visit(t, draw, x)) && AllUnder(t, Visit(t, draw, x), x)
    ensures SiblingsInOrder(t, draw, Visit(t, draw, x))
    decreases Beyond(t, Some(x)), 1, 0
  {
    UnderItself(t, x);
    if draw(x) < t.nodes[x].acceptanceProb {
      var n := |Kin(t, Some(x))|;
      assert Accepted(t, draw, x);
      VisitKidsInOrder(t, draw, Some(x), n);
      var rest := VisitKids(t, draw, Some(x), n);
      hide ParentFirst, Under, Accepted, Earlier;
      forall y | y in rest ensures y in t.nodes && Under(t, y, x) && !Under(t, x, y) {
        var k :| 0 <= k < n && Under(t, y, Kin(t, Some(x))[k]);
        KinBeyond(t, Some(x), k);
        UnderChild(t, y, Kin(t, Some(x))[k], x);
      }
      JoinAncestorsFirst(t, [x], rest);
      forall y, z, a, b | y in [x] && z in rest && Earlier(t, draw, a, b) && Under(t, y, b) ensures !Under(t, z, a) {
        EarlierSiblings(t, draw, a, b);
        if Under(t, z, a) {
          UnderTransitive(t, z, x, b);
          SiblingsApart(t, z, a, b);
        }
      }
      JoinSiblings(t, draw, [x], rest);
    } else {
      SearchedInOrder(t, x);
      RefusedHasNoSiblings(t, draw, x, [x] + Searched(t, x));
    }
  }

  lemma EarlierSiblings(t: DraftTree, draw: int -> real, a: int, b: int)
    requires ParentFirst(t) && Earlier(t, draw, a, b)
    ensures a in t.nodes && b in t.nodes && t.nodes[a].parentId == t.nodes[b].parentId && a != b
  {
    SiblingsDiffer(t, draw, a, b);
  }

  lemma VisitOneMore(t: DraftTree, draw: int -> real, parent: Option<int>, n: nat)
    requires ParentFirst(t) && n < |Kin(t, parent)|
    ensures VisitKids(t, draw, parent, 0) == [] && Kin(t, parent)[n] in t.nodes
    ensures VisitKids(t, draw, parent, n + 1) ==
      VisitKids(t, draw, parent, n) + Visit(t, draw, Kin(t, parent)[n])
  {
    hide ParentFirst, Visit, Kin;
    KinBeyond(t, parent, n);
  }

  lemma {:induction false} VisitKidsInOrder(t: DraftTree, draw: int -> real, parent: Option<int>, n: nat)
    requires ParentFirst(t) && n <= |Kin(t, parent)| && Open(t, draw, parent)
    ensures AncestorsFirst(t, VisitKids(t, draw, parent, n)) && UnderKin(t, VisitKids(t, draw, parent, n), parent, n)
    ensures SiblingsInOrder(t, draw, VisitKids(t, draw, parent, n))
    decreases Beyond(t, parent), 0, n
  {
    hide ParentFirst, Under, Visit, VisitKids, Accepted, AncestorsFirst, SiblingsInOrder, Kin, UnderKin, AllUnder;
    hide Beyond;
    if n == 0 {
      NothingVisited(t, draw, parent);
    } else {
      VisitOneMore(t, draw, parent, n - 1);
      KinBeyond(t, parent, n - 1);
      var kid := Kin(t, parent)[n - 1];
      VisitKidsInOrder(t, draw, parent, n - 1);
      VisitInOrder(t, draw, kid);
      var s, r := VisitKids(t, draw, parent, n - 1), Visit(t, draw, kid);
      JoinKids(t, draw, parent, n, s, r);
    }
  }

  lemma NothingVisited(t: DraftTree, draw: int -> real, parent: Option<int>)
    requires ParentFirst(t)
    ensures var s := VisitKids(t, draw, parent, 0);
      AncestorsFirst(t, s) && UnderKin(t, s, parent, 0) && SiblingsInOrder(t, draw, s)
  {
    hide ParentFirst, Under, Earlier, Kin;
  }

  lemma JoinKids(t: DraftTree, draw: int -> real, parent: Option<int>, n: nat, s: seq<int>, r: seq<int>)
    requires ParentFirst(t) && 0 < n <= |Kin(t, parent)|
    requires UnderKin(t, s, parent, n - 1) && AllUnder(t, r, Kin(t, parent)[n - 1])
    requires AncestorsFirst(t, s) && AncestorsFirst(t, r)
    requires SiblingsInOrder(t, draw, s) && SiblingsInOrder(t, draw, r)
    ensures AncestorsFirst(t, s + r) && UnderKin(t, s + r, parent, n) && SiblingsInOrder(t, draw, s + r)
  {
    hide ParentFirst, Under, Earlier, AncestorsFirst, SiblingsInOrder, Kin, UnderKin, AllUnder;
    KidsAcross(t, draw, parent, n - 1, s, r);
    JoinUnderKin(t, parent, n, s, r);
    JoinAncestorsFirst(t, s, r);
    JoinSiblings(t, draw, s, r);
  }

  lemma JoinUnderKin(t: DraftTree, parent: Option<int>, n: nat, s: seq<int>, r: seq<int>)
    requires 0 < n <= |Kin(t, parent)| && UnderKin(t, s, parent, n - 1) && AllUnder(t, r, Kin(t, parent)[n - 1])
    ensures UnderKin(t, s + r, parent, n)
  {
    hide Under, Kin;
  }

  lemma KidsAcross(t: DraftTree, draw: int -> real, parent: Option<int>, m: nat, s: seq<int>, r: seq<int>)
    requires ParentFirst(t) && m < |Kin(t, parent)| && UnderKin(t, s, parent, m)
    requires AllUnder(t, r, Kin(t, parent)[m])
    ensures forall y, z | y in s && z in r :: !Under(t, y, z)
    ensures forall y, z, a, b | y in s && z in r && Earlier(t, draw, a, b) && Under(t, y, b) :: !Under(t, z, a)
  {
    hide ParentFirst, Under, Earlier, Kin;
    forall y, z | y in s && z in r
      ensures !Under(t, y, z)
      ensures forall a, b | Earlier(t, draw, a, b) && Under(t, y, b) :: !Under(t, z, a)
    {
      var k: nat :| k < m && Under(t, y, Kin(t, parent)[k]);
      KinApart(t, parent, k, m);
      NothingAcross(t, y, Kin(t, parent)[k], z, Kin(t, parent)[m]);
      forall a, b | Earlier(t, draw, a, b) && Under(t, y, b) ensures !Under(t, z, a) {
        NoOvertaking(t, draw, parent, k, m, y, z, a, b);
      }
    }
  }

  /** Nothing below a later child of a node lies below an earlier sibling of what is above an earlier child. */
  lemma NoOvertaking(t: DraftTree, draw: int -> real, parent: Option<int>, k: nat, m: nat, y: int, z: int, a: int,
                     b: int)
    requires ParentFirst(t) && k < m < |Kin(t, parent)|
    requires Under(t, y, Kin(t, parent)[k]) && Under(t, z, Kin(t, parent)[m])
    requires Earlier(t, draw, a, b) && Under(t, y, b)
    ensures !Under(t, z, a)
  {
    var low, high := Kin(t, parent)[k], Kin(t, parent)[m];
    KinApart(t, parent, k, m);
    EarlierSiblings(t, draw, a, b);
    EarlierPlaces(t, draw, a, b);
    hide ParentFirst, Earlier, Kin;
    if Under(t, z, a) {
      UnderLinear(t, y, low, b);
      if b == low {
        if a != high {
          SiblingsApart(t, z, a, high);
        }
      } else if Under(t, b, low) {
        BelowTogether(t, a, b, low);
        UnderTransitive(t, z, a, low);
        SiblingsApart(t, z, low, high);
      } else {
        BelowTogether(t, high, low, b);
        UnderTransitive(t, z, high, b);
        SiblingsApart(t, z, a, b);
      }
    }
  }

  lemma EarlierPlaces(t: DraftTree, draw: int -> real, a: int, b: int)
    requires Earlier(t, draw, a, b)
    ensures exists i, j :: 0 <= i < j < |t.order| && t.order[i] == a && t.order[j] == b
  {
  }

  /** What is strictly above a node is above its siblings. */
  lemma BelowTogether(t: DraftTree, a: int, b: int, x: int)
    requires ParentFirst(t) && a in t.nodes && b in t.nodes && t.nodes[a].parentId == t.nodes[b].parentId
    requires Under(t, b, x) && b != x
    ensures Under(t, a, x)
  {
  }
}
