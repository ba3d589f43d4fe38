/** Python's `sorted`: a stable sort by a strict weak order. */
module Sorting {

  function Insert<T>(before: (T, T) -> bool, x: T, s: seq<T>): (r: seq<T>)
    ensures multiset(r) == multiset(s) + multiset{x}
  {
    if s == [] then [x]
    else
      var init, last := s[..|s| - 1], s[|s| - 1];
      assert s == init + [last];
      if before(x, last) then Insert(before, x, init) + [last] else s + [x]
  }

  function SortBy<T>(before: (T, T) -> bool, xs: seq<T>): (r: seq<T>)
    ensures multiset(r) == multiset(xs) && |r| == |xs|
  {
    if xs == [] then []
    else
      var init, last := xs[..|xs| - 1], xs[|xs| - 1];
      assert xs == init + [last];
      var r := Insert(before, last, SortBy(before, init));
      assert |multiset(r)| == |multiset(xs)|;
      r
  }

  /** No element must stand before an earlier one. */
  ghost predicate Ordered<T>(before: (T, T) -> bool, s: seq<T>) {
    forall i, j | 0 <= i < j < |s| :: !before(s[j], s[i])
  }

  ghost predicate WeakOrder<T(!new)>(before: (T, T) -> bool) {
    && (forall a, b :: !(before(a, b) && before(b, a)))
    && (forall a, b, c :: before(a, c) ==> before(a, b) || before(b, c))
  }

  lemma InsertFrom<T>(before: (T, T) -> bool, x: T, s: seq<T>, y: T)
    requires y in Insert(before, x, s)
    ensures y == x || y in s
  {
    assert multiset(Insert(before, x, s))[y] > 0;
    assert multiset(s)[y] > 0 || y == x;
  }

  lemma {:induction false} InsertOrders<T(!new)>(before: (T, T) -> bool, x: T, s: seq<T>)
    requires WeakOrder(before) && Ordered(before, s)
    ensures Ordered(before, Insert(before, x, s))
  {
    if s != [] {
      var init, last := s[..|s| - 1], s[|s| - 1];
      if before(x, last) {
        InsertOrders(before, x, init);
        var r := Insert(before, x, init);
        forall i | 0 <= i < |r| ensures !before(last, r[i]) {
          InsertFrom(before, x, init, r[i]);
        }
      } else {
        forall i | 0 <= i < |s| ensures !before(x, s[i]) {
        }
      }
    }
  }

  lemma {:induction false} SortOrders<T(!new)>(before: (T, T) -> bool, xs: seq<T>)
    requires WeakOrder(before)
    ensures Ordered(before, SortBy(before, xs))
  {
    if xs != [] {
      SortOrders(before, xs[..|xs| - 1]);
      InsertOrders(before, xs[|xs| - 1], SortBy(before, xs[..|xs| - 1]));
    }
  }

  /** Sorting what is in order already changes nothing, equal keys included. */
  lemma {:induction false} SortKeepsOrdered<T>(before: (T, T) -> bool, xs: seq<T>)
    requires Ordered(before, xs)
    ensures SortBy(before, xs) == xs
  {
    if xs != [] {
      var last := |xs| - 1;
      SortKeepsOrdered(before, xs[..last]);
      assert last > 0 ==> !before(xs[last], xs[last - 1]);
    }
  }

  lemma SortMembers<T>(before: (T, T) -> bool, xs: seq<T>, x: T)
    ensures x in SortBy(before, xs) <==> x in xs
  {
    assert x in multiset(SortBy(before, xs)) <==> x in multiset(xs);
  }
}
