/** The percentile of a run's latencies (metrics.py), over exact reals. */
module Percentiles {
  import opened Prelude
  import Schema
  import opened Simulation
  import Sorting

  predicate Below(a: real, b: real) {
    a < b
  }

  function Sorted(values: seq<real>): seq<real> {
    Sorting.SortBy(Below, values)
  }

  /** Linear interpolation between the two values around `rank`. */
  function Interpolate(ordered: seq<real>, rank: real): real
    requires ordered != [] && 0.0 <= rank <= (|ordered| - 1) as real
  {
    var lower := rank.Floor;
    var upper := Min(lower + 1, |ordered| - 1);
    if lower == upper then ordered[lower]
    else ordered[lower] + (ordered[upper] - ordered[lower]) * (rank - lower as real)
  }

  function Rank(n: nat, p: real): (r: real)
    requires n > 0 && 0.0 <= p <= 100.0
    ensures 0.0 <= r <= (n - 1) as real
  {
    RankInRange(n, p);
    (n - 1) as real * (p / 100.0)
  }

  lemma RankInRange(n: nat, p: real)
    requires n > 0 && 0.0 <= p <= 100.0
    ensures 0.0 <= (n - 1) as real * (p / 100.0) <= (n - 1) as real
  {
    Scale((n - 1) as real, 0.0, p / 100.0);
    Scale((n - 1) as real, p / 100.0, 1.0);
  }

  lemma Scale(m: real, a: real, b: real)
    requires m >= 0.0 && a <= b
    ensures m * a <= m * b
  {
    var d := b - a;
    assert m * d >= 0.0;
    assert m * b == m * a + m * d;
  }

  /** None stands for the ValueError; an empty input gives 0 whatever `p` is. */
  function Percentile(values: seq<real>, p: real): Option<real> {
    if values == [] then Some(0.0)
    else if p < 0.0 || p > 100.0 then None
    else if |values| == 1 then Some(Sorted(values)[0])
    else Some(Interpolate(Sorted(values), Rank(|Sorted(values)|, p)))
  }

  lemma BelowIsWeakOrder()
    ensures Sorting.WeakOrder(Below)
  {
  }

  lemma SortedAscends(values: seq<real>)
    ensures |Sorted(values)| == |values|
    ensures forall i, j | 0 <= i <= j < |values| :: Sorted(values)[i] <= Sorted(values)[j]
    ensures forall v :: v in Sorted(values) <==> v in values
  {
    BelowIsWeakOrder();
    Sorting.SortOrders(Below, values);
    forall v ensures v in Sorted(values) <==> v in values {
      Sorting.SortMembers(Below, values, v);
    }
    assert forall i, j | 0 <= i < j < |values| :: !Below(Sorted(values)[j], Sorted(values)[i]);
  }

  predicate Ascends(s: seq<real>) {
    forall i, j | 0 <= i <= j < |s| :: s[i] <= s[j]
  }

  /** An interpolated value lies between its neighbours. */
  lemma Between(ordered: seq<real>, rank: real)
    requires ordered != [] && Ascends(ordered) && 0.0 <= rank <= (|ordered| - 1) as real
    ensures var lower := rank.Floor;
      && 0 <= lower < |ordered|
      && ordered[lower] <= Interpolate(ordered, rank) <= ordered[Min(lower + 1, |ordered| - 1)]
  {
    var lower := rank.Floor;
    var upper := Min(lower + 1, |ordered| - 1);
    Blend(ordered[lower], ordered[upper], rank - lower as real);
  }

  lemma Blend(a: real, b: real, w: real)
    requires a <= b && 0.0 <= w <= 1.0
    ensures a <= a + (b - a) * w <= b
  {
    BlendMonotone(a, b, 0.0, w);
    BlendMonotone(a, b, w, 1.0);
  }

  lemma BlendMonotone(a: real, b: real, v: real, w: real)
    requires a <= b && v <= w
    ensures a + (b - a) * v <= a + (b - a) * w
  {
    Scale(b - a, v, w);
  }

  /** Interpolation never falls as the rank grows, within a segment or across segments. */
  lemma InterpolateMonotone(ordered: seq<real>, r1: real, r2: real)
    requires ordered != [] && Ascends(ordered) && 0.0 <= r1 <= r2 <= (|ordered| - 1) as real
    ensures Interpolate(ordered, r1) <= Interpolate(ordered, r2)
  {
    var l1, l2 := r1.Floor, r2.Floor;
    Between(ordered, r1);
    Between(ordered, r2);
    if l1 == l2 {
      var upper := Min(l1 + 1, |ordered| - 1);
      BlendMonotone(ordered[l1], ordered[upper], r1 - l1 as real, r2 - l2 as real);
    } else {
      hide Interpolate;
      assert ordered[Min(l1 + 1, |ordered| - 1)] <= ordered[l2];
    }
  }

  /** Each order statistic is hit at its own rank, and between two the value moves along the straight line. */
  lemma InterpolatesLinearly(ordered: seq<real>, k: nat, w: real)
    requires k + 1 < |ordered| && 0.0 <= w <= 1.0
    ensures Interpolate(ordered, k as real + w) == (1.0 - w) * ordered[k] + w * ordered[k + 1]
  {
    var rank := k as real + w;
    if w == 1.0 {
      assert rank.Floor == k + 1;
      assert rank - (k + 1) as real == 0.0;
    } else {
      assert rank.Floor == k;
      Distribute(ordered[k], ordered[k + 1], w);
    }
  }

  lemma Distribute(a: real, b: real, w: real)
    ensures a + (b - a) * w == (1.0 - w) * a + w * b
  {
  }

  /** The value is bracketed by inputs, and the ends are the least and the greatest input. */
  lemma PercentileInRange(values: seq<real>, p: real)
    requires values != [] && 0.0 <= p <= 100.0
    ensures var r := Percentile(values, p);
      && r.Some?
      && (exists v :: v in values && v <= r.value) && (exists v :: v in values && r.value <= v)
      && (p == 0.0 ==> r.value in values && forall v | v in values :: r.value <= v)
      && (p == 100.0 ==> r.value in values && forall v | v in values :: v <= r.value)
  {
    var ordered := Sorted(values);
    SortedAscends(values);
    var n := |ordered|;
    hide Sorted;
    Between(ordered, Rank(n, p));
    var lower := Rank(n, p).Floor;
    assert ordered[lower] in ordered && ordered[Min(lower + 1, n - 1)] in ordered;
    assert ordered[0] in ordered && ordered[n - 1] in ordered;
    assert p == 0.0 ==> Rank(n, p) == 0.0;
    assert p == 100.0 ==> Rank(n, p) == (n - 1) as real;
    hide Rank;
    forall v | v in values ensures ordered[0] <= v <= ordered[n - 1] {
      var i :| 0 <= i < n && ordered[i] == v;
    }
  }

  lemma PercentileMonotone(values: seq<real>, p: real, q: real)
    requires values != [] && 0.0 <= p <= q <= 100.0
    ensures Percentile(values, p).Some? && Percentile(values, q).Some?
    ensures Percentile(values, p).value <= Percentile(values, q).value
  {
    SortedAscends(values);
    hide Sorted, Interpolate;
    RankMonotone(|values|, p, q);
    InterpolateMonotone(Sorted(values), Rank(|values|, p), Rank(|values|, q));
  }

  lemma RankMonotone(n: nat, p: real, q: real)
    requires n > 0 && 0.0 <= p <= q <= 100.0
    ensures Rank(n, p) <= Rank(n, q)
  {
    var m, a, b := (n - 1) as real, p / 100.0, q / 100.0;
    assert a <= b;
    Scale(m, a, b);
    assert Rank(n, p) == m * a && Rank(n, q) == m * b;
  }

  /** Two ascending arrangements of the same values are the same. */
  lemma {:induction false} AscendingIsUnique(xs: seq<real>, ys: seq<real>)
    requires Ascends(xs) && Ascends(ys) && multiset(xs) == multiset(ys)
    ensures xs == ys
    decreases |xs|
  {
    assert |xs| == |multiset(xs)| == |multiset(ys)| == |ys|;
    if xs != [] {
      var last := |xs| - 1;
      LastIsGreatest(xs, ys[last]);
      LastIsGreatest(ys, xs[last]);
      hide Ascends;
      DropLast(xs);
      DropLast(ys);
      AscendingIsUnique(xs[..last], ys[..last]);
      assert xs == xs[..last] + [xs[last]] && ys == ys[..last] + [ys[last]];
    }
  }

  lemma LastIsGreatest(s: seq<real>, v: real)
    requires Ascends(s) && s != []
    ensures s[|s| - 1] in multiset(s) && (v in multiset(s) ==> v <= s[|s| - 1])
  {
  }

  lemma DropLast(s: seq<real>)
    requires s != []
    ensures multiset(s[..|s| - 1]) == multiset(s) - multiset{s[|s| - 1]}
    ensures Ascends(s) ==> Ascends(s[..|s| - 1])
  {
    assert s == s[..|s| - 1] + [s[|s| - 1]];
  }

  /** The order in which latencies were recorded does not matter. */
  lemma PercentileIgnoresOrder(xs: seq<real>, ys: seq<real>, p: real)
    requires multiset(xs) == multiset(ys)
    ensures Percentile(xs, p) == Percentile(ys, p)
  {
    SortedAscends(xs);
    SortedAscends(ys);
    assert |xs| == |multiset(xs)| == |multiset(ys)| == |ys|;
    AscendingIsUnique(Sorted(xs), Sorted(ys));
    hide Sorted;
  }

  function Reals(xs: seq<int>): (r: seq<real>)
    ensures |r| == |xs|
  {
    seq(|xs|, i requires 0 <= i < |xs| => xs[i] as real)
  }

  /** Every run reports p50 <= p95 <= p99, and each is defined. */
  lemma RunReportsOrdered(c: Config, o: Oracle, events: seq<Schema.Event>)
    requires Run(c, o, Initial(), events).Ok?
    ensures var l := Reals(Run(c, o, Initial(), events).value.latencies);
      var a, b, d := Percentile(l, 50.0), Percentile(l, 95.0), Percentile(l, 99.0);
      a.Some? && b.Some? && d.Some? && a.value <= b.value <= d.value
  {
    hide Run, Sorted, Interpolate;
    var l := Reals(Run(c, o, Initial(), events).value.latencies);
    if l != [] {
      PercentileMonotone(l, 50.0, 95.0);
      PercentileMonotone(l, 95.0, 99.0);
    }
  }
}
