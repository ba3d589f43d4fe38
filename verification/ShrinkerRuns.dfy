/** What every interleaving of registrations, removals and scan turns keeps (kv_intent_shrinker.c). */
module ShrinkerRuns {
  import opened Prelude
  import opened ShrinkerScore
  import opened Shrinker

  predicate DistinctHashes(entries: Entries) {
    forall i, j | 0 <= i < j < |entries| :: entries[i].hash != entries[j].hash
  }

  /** How often a serial occurs among the live and the retired. */
  function Occurs(s: Shared, n: nat): nat {
    multiset(Serials(s.entries))[n] + multiset(s.retired)[n]
  }

  /** Hashes are unique, and every entry ever published is either on the list or retired, exactly once. */
  ghost predicate WellKept(s: Shared) {
    && DistinctHashes(s.entries)
    && (forall n: nat :: Occurs(s, n) == if n < s.published then 1 else 0)
    && (forall e | e in s.entries :: e.pinRequested <==> e.level == KvDecodeCritical)
  }

  lemma SerialsSplit(entries: Entries, i: int)
    requires 0 <= i < |entries|
    ensures multiset(Serials(entries)) == multiset(Serials(Without(entries, i))) + multiset{entries[i].serial}
  {
    var front, back := entries[..i], entries[i + 1..];
    assert Serials(entries) == Serials(front) + [entries[i].serial] + Serials(back);
    assert Serials(Without(entries, i)) == Serials(front) + Serials(back);
  }

  lemma RemovalKeeps(s: Shared, i: int, s': Shared)
    requires WellKept(s) && 0 <= i < |s.entries|
    requires s' == s.(entries := Without(s.entries, i), retired := s.retired + [s.entries[i].serial])
    ensures WellKept(s')
  {
    SerialsSplit(s.entries, i);
    hide Serials;
    forall n: nat ensures Occurs(s', n) == Occurs(s, n) {
    }
    forall e | e in s'.entries ensures e in s.entries {
    }
  }

  lemma RegistrationKeeps(s: Shared, op: Op, s': Shared)
    requires WellKept(s) && op.RegisterOp? && Next(s, op, s')
    ensures WellKept(s')
  {
    if !Refuses(s, op) {
      assert forall x | x in s.entries :: x.hash != op.hash;
      assert Serials(s'.entries) == Serials(s.entries) + [s.published];
      hide Serials;
      forall n: nat ensures Occurs(s', n) == Occurs(s, n) + if n == s.published then 1 else 0 {
      }
    }
  }

  lemma NextKeeps(s: Shared, op: Op, s': Shared)
    requires WellKept(s) && Next(s, op, s')
    ensures WellKept(s')
  {
    hide WellKept, IsBest, EvictableCount, HasHash;
    match op {
      case RegisterOp(_, _, _, _, _, _) => RegistrationKeeps(s, op, s');
      case UnregisterOp(hash) =>
        if HasHash(s.entries, hash) {
          var i :| 0 <= i < |s.entries| && s'.entries == Without(s.entries, i)
            && s'.retired == s.retired + [s.entries[i].serial];
          RemovalKeeps(s, i, s');
        }
      case EvictOp(now) =>
        if EvictableCount(s.entries) > 0 {
          var i :| 0 <= i < |s.entries| && s'.entries == Without(s.entries, i)
            && s'.retired == s.retired + [s.entries[i].serial];
          RemovalKeeps(s, i, s');
        }
    }
  }

  /** Any number of callers: `states` are what the list goes through as their critical sections take turns. */
  ghost predicate IsRun(states: seq<Shared>, ops: seq<Op>) {
    && |states| == |ops| + 1 && states[0] == Shared([], 0, [])
    && forall i | 0 <= i < |ops| :: Next(states[i], ops[i], states[i + 1])
  }

  lemma {:induction false} RunKeeps(states: seq<Shared>, ops: seq<Op>, i: nat)
    requires IsRun(states, ops) && i < |states|
    ensures WellKept(states[i])
  {
    if i > 0 {
      hide WellKept, Next;
      RunKeeps(states, ops, i - 1);
      NextKeeps(states[i - 1], ops[i - 1], states[i]);
    }
  }

  lemma NextRetires(s: Shared, op: Op, s': Shared)
    requires Next(s, op, s')
    ensures s.retired <= s'.retired && |s'.retired| <= |s.retired| + 1
  {
    hide IsBest, EvictableCount, HasHash;
  }

  lemma {:induction false} RetiredGrows(states: seq<Shared>, ops: seq<Op>, i: nat, j: nat)
    requires IsRun(states, ops) && i <= j < |states|
    ensures states[i].retired <= states[j].retired
    decreases j
  {
    if i < j {
      hide Next;
      RetiredGrows(states, ops, i, j - 1);
      NextRetires(states[j - 1], ops[j - 1], states[j]);
    }
  }

  /** An entry is retired at most once, and one that was retired never comes back. */
  lemma RetiredOnce(states: seq<Shared>, ops: seq<Op>, i: nat, j: nat, k: nat)
    requires IsRun(states, ops) && i <= j < |states| && k < |states[i].retired|
    ensures forall e | e in states[j].entries :: e.serial != states[i].retired[k]
    ensures forall m | 0 <= m < |states[j].retired| && states[j].retired[m] == states[i].retired[k] :: m == k
  {
    hide Next, WellKept;
    RunKeeps(states, ops, j);
    RetiredGrows(states, ops, i, j);
    RetiredIsOut(states[j], k);
  }

  lemma RetiredIsOut(s: Shared, k: nat)
    requires WellKept(s) && k < |s.retired|
    ensures forall e | e in s.entries :: e.serial != s.retired[k]
    ensures forall m | 0 <= m < |s.retired| && s.retired[m] == s.retired[k] :: m == k
  {
    var n := s.retired[k];
    assert Occurs(s, n) <= 1 && n in multiset(s.retired);
    forall e | e in s.entries ensures e.serial != n {
      var x :| 0 <= x < |s.entries| && s.entries[x] == e;
      assert Serials(s.entries)[x] in multiset(Serials(s.entries));
    }
    forall m | 0 <= m < |s.retired| && s.retired[m] == n ensures m == k {
      OnceIsOnePlace(s.retired, m, k);
    }
  }

  lemma OnceIsOnePlace(xs: seq<nat>, m: nat, k: nat)
    requires m < |xs| && k < |xs| && xs[m] == xs[k] && multiset(xs)[xs[k]] <= 1
    ensures m == k
  {
    if m < k {
      TwoPlaces(xs, m, k);
    } else if k < m {
      TwoPlaces(xs, k, m);
    }
  }

  lemma TwoPlaces(xs: seq<nat>, m: nat, k: nat)
    requires m < k < |xs| && xs[m] == xs[k]
    ensures multiset(xs)[xs[k]] >= 2
  {
    var front, back := xs[..m + 1], xs[m + 1..];
    assert xs == front + back && xs[m] == front[m] && back[k - m - 1] == xs[k];
    assert xs[k] in front && xs[k] in back;
  }

  /** Pinned, or of one of the two higher classes. */
  predicate Protected(e: KvIntent) {
    e.pinRequested || e.level == KvHot || e.level == KvDecodeCritical
  }

  /** A scan never touches a protected entry: one that leaves the list was unregistered by its own hash. */
  lemma ProtectedStay(s: Shared, op: Op, s': Shared, e: KvIntent)
    requires WellKept(s) && Next(s, op, s')
    requires e in s.entries && e !in s'.entries && Protected(e)
    ensures op == UnregisterOp(e.hash)
  {
    hide WellKept, EvictableCount, HasHash, Score;
    var k :| 0 <= k < |s.entries| && s.entries[k] == e;
    match op {
      case RegisterOp(_, _, _, _, _, _) =>
      case UnregisterOp(hash) =>
      case EvictOp(now) =>
    }
  }

  /** Over every run: a protected entry that is gone was unregistered by its own hash on the way. */
  lemma {:induction false} ProtectedUntilUnregistered(states: seq<Shared>, ops: seq<Op>, i: nat, j: nat, e: KvIntent)
    requires IsRun(states, ops) && i <= j < |states|
    requires e in states[i].entries && e !in states[j].entries && Protected(e)
    ensures exists k :: i <= k < j && ops[k] == UnregisterOp(e.hash)
    decreases j
  {
    hide Next, WellKept, Protected;
    RunKeeps(states, ops, j - 1);
    if e in states[j - 1].entries {
      ProtectedStay(states[j - 1], ops[j - 1], states[j], e);
    } else {
      ProtectedUntilUnregistered(states, ops, i, j - 1, e);
    }
  }
}
