/** The kernel shrinker's registry: each operation is one critical section on a shared list
    (kv_intent_shrinker.c). */
module Shrinker {
  import opened Prelude
  import opened ShrinkerScore

  type Entries = seq<KvIntent>

  const EINVAL := 22
  const EEXIST := 17
  const ENOENT := 2
  const ENOMEM := 12

  predicate HasHash(entries: Entries, hash: nat) {
    exists e | e in entries :: e.hash == hash
  }

  /** The places of the unpinned entries of class COLD or WARM. */
  function Reclaimable(entries: Entries): set<nat> {
    set i | 0 <= i < |entries| && !entries[i].pinRequested && (entries[i].level == KvCold || entries[i].level == KvWarm)
  }

  function EvictableCount(entries: Entries): nat {
    if entries == [] then 0
    else EvictableCount(entries[..|entries| - 1]) + if Evictable(entries[|entries| - 1]) then 1 else 0
  }

  /** What is counted are the unpinned entries of the two lower classes. */
  lemma {:induction false} CountIsReclaimable(entries: Entries)
    ensures EvictableCount(entries) == |Reclaimable(entries)|
  {
    if entries == [] {
      assert Reclaimable(entries) == {};
    } else {
      var n := |entries| - 1;
      CountIsReclaimable(entries[..n]);
      assert Reclaimable(entries) == Reclaimable(entries[..n]) + if Evictable(entries[n]) then {n} else {};
    }
  }

  /** `e` is the evictable entry a scan turn takes: no evictable entry scores higher, and none before it as high. */
  predicate IsBest(entries: Entries, now: nat, i: int) {
    && 0 <= i < |entries| && Evictable(entries[i])
    && (forall j | 0 <= j < |entries| && Evictable(entries[j]) ::
          && Score(entries[j], now) <= Score(entries[i], now)
          && (j < i ==> Score(entries[j], now) < Score(entries[i], now)))
  }

  function Without(entries: Entries, i: int): Entries
    requires 0 <= i < |entries|
  {
    entries[..i] + entries[i + 1..]
  }

  lemma BestIsReclaimable(entries: Entries, now: nat, i: int)
    requires IsBest(entries, now, i)
    ensures i in Reclaimable(entries)
  {
    hide Score;
  }

  lemma ReclaimableAt(entries: Entries, i: int)
    requires i in Reclaimable(entries)
    ensures 0 <= i < |entries| && !entries[i].pinRequested
    ensures entries[i].level == KvCold || entries[i].level == KvWarm
  {
  }

  lemma BestIsUnique(entries: Entries, now: nat, i: int, j: int)
    requires IsBest(entries, now, i) && IsBest(entries, now, j)
    ensures i == j
  {
    hide Score, Evictable;
  }

  lemma {:induction false} CountSplits(xs: Entries, ys: Entries)
    ensures EvictableCount(xs + ys) == EvictableCount(xs) + EvictableCount(ys)
    decreases |ys|
  {
    if ys == [] {
      assert xs + ys == xs;
    } else {
      assert (xs + ys)[..|xs + ys| - 1] == xs + ys[..|ys| - 1];
      CountSplits(xs, ys[..|ys| - 1]);
    }
  }

  lemma WithoutCount(entries: Entries, i: int)
    requires 0 <= i < |entries|
    ensures EvictableCount(entries) == EvictableCount(Without(entries, i)) + if Evictable(entries[i]) then 1 else 0
  {
    hide EvictableCount, Evictable;
    var front, one, back := entries[..i], [entries[i]], entries[i + 1..];
    assert entries == front + (one + back);
    CountSplits(front, one + back);
    CountSplits(one, back);
    CountSplits(front, back);
    CountOne(entries[i]);
  }

  lemma CountOne(e: KvIntent)
    ensures EvictableCount([e]) == if Evictable(e) then 1 else 0
  {
    assert [e][..0] == [];
    assert EvictableCount([]) == 0;
  }

  lemma {:induction false} CountZero(entries: Entries)
    ensures EvictableCount(entries) == 0 <==> forall e | e in entries :: !Evictable(e)
  {
    hide Evictable;
    if entries != [] {
      CountZero(entries[..|entries| - 1]);
      assert entries == entries[..|entries| - 1] + [entries[|entries| - 1]];
    }
  }

  /** One turn of a scan at time `now`: `e` is the best evictable entry of `mid` and is taken off it. */
  ghost predicate Takes(mid: Entries, now: nat, i: int, e: KvIntent, after: Entries) {
    0 <= i < |mid| && IsBest(mid, now, i) && e == mid[i] && after == Without(mid, i)
  }

  /** A scan takes `taken` off `before`, one turn each, the clock being read at every turn. */
  ghost predicate Scanned(before: Entries, clock: nat -> nat, taken: Entries, after: Entries)
    decreases |taken|
  {
    if taken == [] then after == before
    else
      var last := |taken| - 1;
      exists mid: Entries, i: int ::
        Scanned(before, clock, taken[..last], mid) && Takes(mid, clock(last), i, taken[last], after)
  }

  lemma TakesOne(mid: Entries, now: nat, i: int, e: KvIntent, after: Entries)
    requires Takes(mid, now, i, e, after)
    ensures multiset(mid) == multiset(after) + multiset{e}
    ensures EvictableCount(mid) == EvictableCount(after) + 1 && Evictable(e)
    ensures forall s | s in after && Evictable(s) :: s in mid && Score(s, now) <= Score(e, now)
    ensures e in mid
  {
    hide Score, Evictable, EvictableCount;
    WithoutCount(mid, i);
    assert mid == mid[..i] + [mid[i]] + mid[i + 1..];
    forall s | s in after ensures s in mid {
      assert s in multiset(after);
    }
  }

  /** A scan only removes evictable entries; nothing is lost or made up. */
  lemma {:induction false} ScanConserves(before: Entries, clock: nat -> nat, taken: Entries, after: Entries)
    requires Scanned(before, clock, taken, after)
    ensures multiset(before) == multiset(after) + multiset(taken)
    ensures EvictableCount(before) == EvictableCount(after) + |taken|
    ensures forall e | e in taken :: Evictable(e)
    decreases |taken|
  {
    hide Takes, Evictable, Score, EvictableCount;
    if taken != [] {
      var last := |taken| - 1;
      var mid: Entries, i: int :|
        Scanned(before, clock, taken[..last], mid) && Takes(mid, clock(last), i, taken[last], after);
      ScanConserves(before, clock, taken[..last], mid);
      TakesOne(mid, clock(last), i, taken[last], after);
      assert taken == taken[..last] + [taken[last]];
    }
  }

  /** Whatever a scan takes was unpinned and of class COLD or WARM. */
  lemma ScanTakesColdOrWarm(before: Entries, clock: nat -> nat, taken: Entries, after: Entries)
    requires Scanned(before, clock, taken, after)
    ensures forall e | e in taken :: !e.pinRequested && (e.level == KvCold || e.level == KvWarm)
  {
    ScanConserves(before, clock, taken, after);
    hide Scanned;
  }

  /** With the clock held, every removed entry scores at least as high as every evictable one left, and they go
      in order of score. */
  lemma {:induction false} ScanTakesTheHighest(
    before: Entries, clock: nat -> nat, taken: Entries, after: Entries, now: nat)
    requires Scanned(before, clock, taken, after) && forall k: nat | k < |taken| :: clock(k) == now
    ensures forall e, s | e in taken && s in after && Evictable(s) :: Score(s, now) <= Score(e, now)
    ensures forall i, j | 0 <= i < j < |taken| :: Score(taken[j], now) <= Score(taken[i], now)
    decreases |taken|
  {
    hide Takes, Evictable, Score;
    if taken != [] {
      var last := |taken| - 1;
      var mid: Entries, i: int :|
        Scanned(before, clock, taken[..last], mid) && Takes(mid, clock(last), i, taken[last], after);
      ScanTakesTheHighest(before, clock, taken[..last], mid, now);
      TakesOne(mid, now, i, taken[last], after);
      forall e | e in taken ensures e in taken[..last] || e == taken[last] {
        assert taken == taken[..last] + [taken[last]];
      }
    }
  }

  /** A scan leaves no choice: however many entries two scans take off the same list, the longer one starts with
      the entries of the shorter. */
  lemma {:induction false} ScansAgree(
    before: Entries, clock: nat -> nat, taken: Entries, after: Entries, taken': Entries, after': Entries)
    requires Scanned(before, clock, taken, after) && Scanned(before, clock, taken', after')
    requires |taken| <= |taken'|
    ensures taken == taken'[..|taken|] && (|taken| == |taken'| ==> after == after')
    decreases |taken'|
  {
    hide IsBest, Without;
    if taken' != [] {
      var last' := |taken'| - 1;
      var mid': Entries, i': int :|
        Scanned(before, clock, taken'[..last'], mid') && Takes(mid', clock(last'), i', taken'[last'], after');
      if |taken| < |taken'| {
        ScansAgree(before, clock, taken, after, taken'[..last'], mid');
      } else {
        var mid: Entries, i: int :|
          Scanned(before, clock, taken[..last'], mid) && Takes(mid, clock(last'), i, taken[last'], after);
        ScansAgree(before, clock, taken[..last'], mid, taken'[..last'], mid');
        BestIsUnique(mid, clock(last'), i, i');
        assert taken == taken[..last'] + [taken[last']];
      }
    }
  }

  function LevelOf(level: nat): Level
    requires level <= 3
  {
    if level == 0 then KvCold else if level == 1 then KvWarm else if level == 2 then KvHot else KvDecodeCritical
  }

  function Fresh(serial: nat, hash: nat, deadlineUs: nat, now: nat, level: nat, sizeBytes: nat): KvIntent
    requires level <= 3
  {
    KvIntent(serial, hash, deadlineUs, now, LevelOf(level), LevelOf(level) == KvDecodeCritical, sizeBytes)
  }

  function Serials(entries: Entries): seq<nat> {
    seq(|entries|, i requires 0 <= i < |entries| => entries[i].serial)
  }

  /** The first entry with the hash, and no other, is gone and retired. */
  ghost predicate Removes(before: Entries, hash: nat, retired: seq<nat>, after: Entries, retired': seq<nat>) {
    exists i ::
      && 0 <= i < |before| && before[i].hash == hash && (forall j | 0 <= j < i :: before[j].hash != hash)
      && after == Without(before, i) && retired' == retired + [before[i].serial]
  }

  /** The shared list, how many entries were ever published, and the serials retired, in order. */
  datatype Shared = Shared(entries: Entries, published: nat, retired: seq<nat>)

  /** The critical sections. Scans by several reclaimers interleave as single turns. */
  datatype Op =
    | RegisterOp(hash: nat, deadlineUs: nat, level: nat, sizeBytes: nat, now: nat, memory: bool)
    | UnregisterOp(hash: nat)
    | EvictOp(now: nat)

  predicate Refuses(s: Shared, op: Op)
    requires op.RegisterOp?
  {
    op.level > 3 || op.sizeBytes == 0 || !op.memory || HasHash(s.entries, op.hash)
  }

  /** The effect of one critical section. */
  ghost predicate Next(s: Shared, op: Op, s': Shared) {
    match op
    case RegisterOp(hash, deadlineUs, level, sizeBytes, now, _) =>
      if Refuses(s, op) then s' == s
      else s' == s.(published := s.published + 1,
                    entries := s.entries + [Fresh(s.published, hash, deadlineUs, now, level, sizeBytes)])
    case UnregisterOp(hash) =>
      if !HasHash(s.entries, hash) then s' == s
      else s'.published == s.published && Removes(s.entries, hash, s.retired, s'.entries, s'.retired)
    case EvictOp(now) =>
      if EvictableCount(s.entries) == 0 then s' == s
      else s'.published == s.published && Evicts(s.entries, now, s.retired, s'.entries, s'.retired)
  }

  /** The best evictable entry is gone and retired. */
  ghost predicate Evicts(before: Entries, now: nat, retired: seq<nat>, after: Entries, retired': seq<nat>) {
    exists i ::
      && 0 <= i < |before| && IsBest(before, now, i)
      && after == Without(before, i) && retired' == retired + [before[i].serial]
  }

  class Registry {
    var entries: Entries
    var published: nat
    ghost var retired: seq<nat>

    ghost function State(): Shared
      reads this
    {
      Shared(entries, published, retired)
    }

    constructor ()
      ensures State() == Shared([], 0, [])
    {
      entries, published, retired := [], 0, [];
    }

    /** `kv_find_intent_locked`: the first entry with the hash. */
    method Find(hash: nat) returns (i: int)
      ensures i < |entries| && (i < 0 <==> !HasHash(entries, hash))
      ensures i >= 0 ==> entries[i].hash == hash && forall j | 0 <= j < i :: entries[j].hash != hash
    {
      for k := 0 to |entries|
        invariant forall j | 0 <= j < k :: entries[j].hash != hash
      {
        if entries[k].hash == hash {
          return k;
        }
      }
      return -1;
    }

    /** Registering a parsed request; `level` is the number written, `memory` whether there was any to allocate. */
    method Register(hash: nat, deadlineUs: nat, level: nat, sizeBytes: nat, now: nat, memory: bool)
      returns (code: int)
      modifies this
      ensures Next(old(State()), RegisterOp(hash, deadlineUs, level, sizeBytes, now, memory), State())
      ensures code ==
        if level > 3 || sizeBytes == 0 then -EINVAL
        else if !memory then -ENOMEM
        else if HasHash(old(entries), hash) then -EEXIST
        else 0
      ensures code == 0 ==>
        var n := |old(entries)|;
        && |entries| == n + 1 && entries[..n] == old(entries) && entries[n].hash == hash
        && entries[n].deadlineUs == deadlineUs && entries[n].registeredUs == now && entries[n].sizeBytes == sizeBytes
        && (n in Reclaimable(entries) <==> level <= 1)
        && (entries[n].level == KvCold <==> level == 0) && (entries[n].level == KvHot <==> level == 2)
        && (entries[n].pinRequested <==> level == 3)
    {
      if level > 3 || sizeBytes == 0 {
        return -EINVAL;
      }
      if !memory {
        return -ENOMEM;
      }
      var i := Find(hash);
      if i >= 0 {
        return -EEXIST;
      }
      entries := entries + [Fresh(published, hash, deadlineUs, now, level, sizeBytes)];
      published := published + 1;
      return 0;
    }

    method Unregister(hash: nat) returns (code: int)
      modifies this`entries, this`retired
      ensures code == if HasHash(old(entries), hash) then 0 else -ENOENT
      ensures Next(old(State()), UnregisterOp(hash), State())
    {
      var i := Find(hash);
      if i < 0 {
        return -ENOENT;
      }
      retired := retired + [entries[i].serial];
      entries := Without(entries, i);
      return 0;
    }

    method Count() returns (n: nat)
      ensures n == EvictableCount(entries) == |Reclaimable(entries)|
    {
      CountIsReclaimable(entries);
      n := 0;
      for k := 0 to |entries|
        invariant n == EvictableCount(entries[..k])
      {
        assert entries[..k + 1][..k] == entries[..k];
        if Evictable(entries[k]) {
          n := n + 1;
        }
      }
      assert entries[..|entries|] == entries;
    }

    /** One turn of a scan, under the lock: find the best evictable entry and take it off the list. */
    method EvictBest(now: nat) returns (found: bool, ghost victim: int)
      modifies this`entries, this`retired
      ensures found <==> EvictableCount(old(entries)) > 0
      ensures Next(old(State()), EvictOp(now), State())
      ensures found ==>
        && IsBest(old(entries), now, victim) && entries == Without(old(entries), victim)
        && retired == old(retired) + [old(entries)[victim].serial] && victim in Reclaimable(old(entries))
    {
      hide Score, Evictable, EvictableCount, IsBest;
      var best, bestScore := -1, -INT_MAX - 1;
      for k := 0 to |entries|
        invariant entries == old(entries) && retired == old(retired)
        invariant best < k && (best >= 0 ==> bestScore == Score(entries[best], now))
        invariant BestSoFar(entries[..k], now, best)
      {
        BestStep(entries, k, now, best);
        if Evictable(entries[k]) {
          var score := Score(entries[k], now);
          if best < 0 || score > bestScore {
            best, bestScore := k, score;
          }
        }
      }
      assert entries[..|entries|] == entries;
      NoneLeft(entries, now, best);
      victim := best;
      if best < 0 {
        return false, victim;
      }
      BestIsReclaimable(entries, now, best);
      retired := retired + [entries[best].serial];
      entries := Without(entries, best);
      return true, victim;
    }

    /** `kv_shrinker_scan`, run without interference: takes exactly as many as asked for or as there are. */
    method Scan(nrToScan: nat, clock: nat -> nat) returns (freed: nat, ghost taken: Entries)
      modifies this`entries, this`retired
      ensures freed == |taken| == Min(nrToScan, |Reclaimable(old(entries))|)
      ensures forall e | e in taken :: !e.pinRequested && (e.level == KvCold || e.level == KvWarm)
      ensures Scanned(old(entries), clock, taken, entries)
      ensures retired == old(retired) + Serials(taken)
    {
      hide Scanned, IsBest, EvictableCount, Score, Evictable, Reclaimable;
      CountIsReclaimable(entries);
      freed, taken := 0, [];
      NothingTaken(entries, clock);
      while freed < nrToScan
        invariant freed == |taken| <= nrToScan
        invariant Scanned(old(entries), clock, taken, entries)
        invariant retired == old(retired) + Serials(taken)
        invariant forall e | e in taken :: !e.pinRequested && (e.level == KvCold || e.level == KvWarm)
      {
        ghost var mid := entries;
        var found, victim := EvictBest(clock(freed));
        ScanConserves(old(entries), clock, taken, mid);
        if !found {
          return;
        }
        ScanGrows(old(entries), clock, taken, mid, victim);
        ReclaimableAt(mid, victim);
        taken := taken + [mid[victim]];
        freed := freed + 1;
      }
      ScanConserves(old(entries), clock, taken, entries);
    }
  }

  /** `best` is the entry a scan of `prefix` would settle on, or negative if there is none. */
  ghost predicate BestSoFar(prefix: Entries, now: nat, best: int) {
    if best < 0 then forall e | e in prefix :: !Evictable(e) else IsBest(prefix, now, best)
  }

  lemma BestStep(entries: Entries, k: nat, now: nat, best: int)
    requires k < |entries| && BestSoFar(entries[..k], now, best)
    ensures best < k
    ensures BestSoFar(entries[..k + 1], now,
      if Evictable(entries[k]) && (best < 0 || Score(entries[k], now) > Score(entries[best], now)) then k else best)
  {
    hide Score, Evictable;
    assert entries[..k + 1] == entries[..k] + [entries[k]];
    assert best < 0 ==> forall j | 0 <= j < k :: entries[..k][j] in entries[..k];
  }

  lemma NoneLeft(entries: Entries, now: nat, best: int)
    requires BestSoFar(entries, now, best)
    ensures best >= 0 <==> EvictableCount(entries) > 0
    ensures best >= 0 ==> IsBest(entries, now, best) && best < |entries|
  {
    hide Score, Evictable, EvictableCount;
    CountZero(entries);
    assert best >= 0 ==> entries[best] in entries;
  }

  lemma NothingTaken(entries: Entries, clock: nat -> nat)
    ensures Scanned(entries, clock, [], entries)
  {
  }

  lemma ScanGrows(before: Entries, clock: nat -> nat, taken: Entries, mid: Entries, i: int)
    requires Scanned(before, clock, taken, mid) && IsBest(mid, clock(|taken|), i)
    ensures 0 <= i < |mid| && Scanned(before, clock, taken + [mid[i]], Without(mid, i))
  {
    BestInside(mid, clock(|taken|), i);
    hide IsBest, Without, Scanned;
    assert Takes(mid, clock(|taken|), i, mid[i], Without(mid, i));
    hide Takes;
    var taken' := taken + [mid[i]];
    assert taken'[..|taken|] == taken && taken'[|taken|] == mid[i];
    ScannedMore(before, clock, taken', mid, i, Without(mid, i));
  }

  lemma ScannedMore(before: Entries, clock: nat -> nat, taken: Entries, mid: Entries, i: int, after: Entries)
    requires taken != [] && Scanned(before, clock, taken[..|taken| - 1], mid)
    requires Takes(mid, clock(|taken| - 1), i, taken[|taken| - 1], after)
    ensures Scanned(before, clock, taken, after)
  {
    hide Takes;
  }

  lemma BestInside(entries: Entries, now: nat, i: int)
    requires IsBest(entries, now, i)
    ensures 0 <= i < |entries|
  {
  }
}
