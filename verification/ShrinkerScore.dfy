/** The kernel shrinker's score arithmetic, with C's integer widths (kv_intent_shrinker.c). */
module ShrinkerScore {
  import opened Prelude

  const INT_MAX := 0x7FFF_FFFF
  const TWO_32 := 0x1_0000_0000
  const TWO_63 := 0x8000_0000_0000_0000
  const TWO_64 := 0x1_0000_0000_0000_0000

  /** The value of the low 64 bits, read as signed. */
  function S64(x: int): (r: int)
    ensures -TWO_63 <= r < TWO_63
    ensures -TWO_63 <= x < TWO_63 ==> r == x
  {
    var m := x % TWO_64;
    if m < TWO_63 then m else m - TWO_64
  }

  /** The value of the low 32 bits, read as signed. */
  function S32(x: int): (r: int)
    ensures -INT_MAX - 1 <= r <= INT_MAX
    ensures -INT_MAX - 1 <= x <= INT_MAX ==> r == x
  {
    var m := x % TWO_32;
    if m <= INT_MAX then m else m - TWO_32
  }

  /** C's division truncates toward zero. */
  function TruncDiv(a: int, b: int): int
    requires b > 0
  {
    if a >= 0 then a / b else -((-a) / b)
  }

  datatype Level = KvCold | KvWarm | KvHot | KvDecodeCritical

  /** `serial` stands for the entry's address: it tells two publications of one hash apart. */
  datatype KvIntent = KvIntent(
    serial: nat, hash: nat, deadlineUs: nat, registeredUs: nat, level: Level, pinRequested: bool, sizeBytes: nat)

  function Weight(level: Level): int {
    match level case KvCold => 1000 case KvWarm => 500 case KvHot => 125 case KvDecodeCritical => 0
  }

  function Urgency(e: KvIntent, now: nat): (r: int)
    ensures 0 <= r <= INT_MAX
  {
    var elapsed := S64(S64(now) - S64(e.registeredUs));
    var remaining := S64(S64(e.deadlineUs) - elapsed);
    var raw := S64(1000 - TruncDiv(remaining, 10));
    if raw < 0 then 0 else if raw > INT_MAX then INT_MAX else raw
  }

  function Score(e: KvIntent, now: nat): int {
    S32(Weight(e.level) + Urgency(e, now))
  }

  predicate Evictable(e: KvIntent) {
    !e.pinRequested && (e.level == KvCold || e.level == KvWarm)
  }

  /** How long past its deadline the entry is; negative while there is slack. */
  function Lateness(e: KvIntent, now: nat): int {
    now - e.registeredUs - e.deadlineUs
  }

  /** Any deadline a caller can write, and a clock that the kernel keeps as a non-negative signed 64-bit value. An
      entry may be stamped later than `now`: a scan reads the clock before it takes the lock, and a registration
      stamps its entry before it does. */
  predicate InRange(e: KvIntent, now: nat) {
    e.registeredUs < TWO_63 && now < TWO_63 && e.deadlineUs < TWO_64
  }

  /** The remaining slack fits the signed 64-bit value the code computes it in. */
  predicate SlackFits(e: KvIntent, now: nat) {
    -Lateness(e, now) < TWO_63
  }

  /** The slack is so large that even 2^64 microseconds less of it leave no urgency. */
  predicate SlackAgesAway(e: KvIntent, now: nat) {
    -Lateness(e, now) >= TWO_64 + 10000
  }

  /** Weight plus urgency stays within `int`. */
  predicate SumFits(e: KvIntent, now: nat) {
    Lateness(e, now) < 10 * (INT_MAX - 999 - Weight(e.level)) || e.level == KvDecodeCritical
  }

  /** The score the code means: the weight plus an urgency that grows with lateness and never turns negative. */
  function IntendedScore(e: KvIntent, now: nat): int {
    Weight(e.level) + IntendedUrgency(Lateness(e, now))
  }

  function IntendedUrgency(late: int): (r: int)
    ensures 0 <= r <= INT_MAX
  {
    Max(0, Min(INT_MAX, 1000 + TruncDiv(late, 10)))
  }

  /** The remaining slack as the code sees it: a slack of 2^63 or more comes out negative. */
  lemma RemainingWraps(e: KvIntent, now: nat)
    requires InRange(e, now)
    ensures S64(S64(e.deadlineUs) - S64(S64(now) - S64(e.registeredUs))) ==
      if SlackFits(e, now) then -Lateness(e, now) else -Lateness(e, now) - TWO_64
  {
    assert S64(now) == now && S64(e.registeredUs) == e.registeredUs;
    assert S64(now - e.registeredUs) == now - e.registeredUs;
    var remaining := -Lateness(e, now);
    assert S64(e.deadlineUs) == e.deadlineUs || S64(e.deadlineUs) == e.deadlineUs - TWO_64;
    S64Shifts(remaining);
    hide S64;
    assert -TWO_63 < remaining < TWO_64 + TWO_63;
  }

  lemma S64Shifts(x: int)
    requires -TWO_63 <= x < TWO_64 + TWO_63
    ensures S64(x - TWO_64) == S64(x)
    ensures S64(x) == if x < TWO_63 then x else x - TWO_64
  {
    assert (x - TWO_64) % TWO_64 == x % TWO_64;
  }

  lemma RawFits(remaining: int)
    requires -TWO_63 <= remaining < TWO_63
    ensures S64(1000 - TruncDiv(remaining, 10)) == 1000 + TruncDiv(-remaining, 10)
  {
    assert TruncDiv(remaining, 10) == -TruncDiv(-remaining, 10);
    assert -TWO_63 <= 1000 - TruncDiv(remaining, 10) < TWO_63;
  }

  /** For every deadline: the urgency is the intended one of the lateness, unless the slack does not fit; then it
      is that of an entry 2^64 microseconds later. */
  lemma UrgencyOfLateness(e: KvIntent, now: nat)
    requires InRange(e, now)
    ensures Urgency(e, now) ==
      IntendedUrgency(if SlackFits(e, now) then Lateness(e, now) else Lateness(e, now) + TWO_64)
  {
    RemainingWraps(e, now);
    hide S64, TruncDiv, SlackFits;
    var remaining := S64(S64(e.deadlineUs) - S64(S64(now) - S64(e.registeredUs)));
    RawFits(remaining);
  }

  lemma TruncDivBounds(a: int)
    ensures a >= 0 ==> 10 * TruncDiv(a, 10) <= a < 10 * TruncDiv(a, 10) + 10
    ensures a <= 0 ==> 10 * TruncDiv(a, 10) - 10 < a <= 10 * TruncDiv(a, 10)
  {
  }

  /** The computed score is the intended one if and only if the sum fits `int` and the slack fits 64 bits, or is so
      large that the urgency is 0 either way. */
  lemma ScoreIsIntended(e: KvIntent, now: nat)
    requires InRange(e, now)
    ensures Score(e, now) == IntendedScore(e, now) <==>
      (SlackFits(e, now) || SlackAgesAway(e, now)) && SumFits(e, now)
  {
    UrgencyOfLateness(e, now);
    var late, sum := Lateness(e, now), Weight(e.level) + Urgency(e, now);
    TruncDivBounds(late);
    TruncDivBounds(late + TWO_64);
    hide Urgency, TruncDiv;
    assert sum > INT_MAX ==> S32(sum) < 0;
  }

  /** Of two entries of one class, the later one scores no lower, as long as both scores are the intended ones. */
  lemma LaterScoresHigher(a: KvIntent, b: KvIntent, now: nat)
    requires InRange(a, now) && InRange(b, now) && a.level == b.level && Lateness(a, now) <= Lateness(b, now)
    requires SlackFits(a, now) || SlackAgesAway(a, now)
    requires SlackFits(b, now) || SlackAgesAway(b, now)
    requires SumFits(b, now)
    ensures Score(a, now) <= Score(b, now)
  {
    ScoreIsIntended(a, now);
    ScoreIsIntended(b, now);
    hide Score, TruncDiv, InRange, SlackFits, SlackAgesAway;
    TruncDivMonotone(Lateness(a, now), Lateness(b, now));
  }

  /** Between the two classes a scan may take, the weights decide unless urgency does: a COLD entry outranks a WARM
      one unless that is about 5000 microseconds later. */
  lemma ColdOutranksWarm(cold: KvIntent, warm: KvIntent, now: nat)
    requires InRange(cold, now) && InRange(warm, now) && cold.level == KvCold && warm.level == KvWarm
    requires SlackFits(cold, now) && SlackFits(warm, now) && SumFits(cold, now) && SumFits(warm, now)
    ensures Lateness(warm, now) <= Lateness(cold, now) + 4990 ==> Score(warm, now) < Score(cold, now)
    ensures Lateness(cold, now) >= -10000 && Lateness(warm, now) >= Lateness(cold, now) + 5020 ==>
      Score(warm, now) > Score(cold, now)
  {
    hide Score, InRange, SlackFits;
    ScoreIsIntended(cold, now);
    ScoreIsIntended(warm, now);
    TruncDivBounds(Lateness(cold, now));
    TruncDivBounds(Lateness(warm, now));
    hide TruncDiv;
  }

  /** What the class alone is worth, on an entry whose score does not overflow in any. */
  lemma ClassesApart(e: KvIntent, now: nat)
    requires InRange(e, now) && SlackFits(e, now) && Lateness(e, now) < 10 * (INT_MAX - 1999)
    ensures Score(e.(level := KvCold), now) == Score(e.(level := KvWarm), now) + 500
    ensures Score(e.(level := KvWarm), now) == Score(e.(level := KvHot), now) + 375
    ensures Score(e.(level := KvHot), now) == Score(e.(level := KvDecodeCritical), now) + 125
    ensures Lateness(e, now) <= -10000 ==> Score(e.(level := KvDecodeCritical), now) == 0
  {
    hide Score, TruncDiv;
    ScoreIsIntended(e.(level := KvCold), now);
    ScoreIsIntended(e.(level := KvWarm), now);
    ScoreIsIntended(e.(level := KvHot), now);
    ScoreIsIntended(e.(level := KvDecodeCritical), now);
    TruncDivBounds(Lateness(e, now));
  }

  lemma TruncDivMonotone(a: int, b: int)
    requires a <= b
    ensures TruncDiv(a, 10) <= TruncDiv(b, 10)
  {
  }

  /** Past the bound of the sum the order turns round: an entry about six hours late scores below one with slack. */
  lemma OverflowInvertsOrder()
    ensures exists a: KvIntent, b: KvIntent, now: nat ::
      && InRange(a, now) && InRange(b, now) && a.level == b.level && Evictable(a) && Evictable(b)
      && SlackFits(a, now) && Lateness(a, now) < Lateness(b, now) && Score(b, now) < Score(a, now)
  {
    var now := 10 * INT_MAX;
    var a := KvIntent(0, 1, now, 0, KvCold, false, 1);
    var b := KvIntent(1, 2, 0, 0, KvCold, false, 1);
    UrgencyOfLateness(a, now);
    UrgencyOfLateness(b, now);
    hide Urgency;
    assert InRange(a, now) && InRange(b, now);
    assert Score(b, now) < Score(a, now);
  }

  /** So it does past the bound of the slack, with every sum within `int`: a deadline just short of 2^64 outranks
      one that is due in 100 microseconds. */
  lemma HugeDeadlineInvertsOrder()
    ensures
      var a := KvIntent(0, 1, TWO_64 - 20000, 0, KvCold, false, 1);
      var b := KvIntent(1, 2, 100, 0, KvCold, false, 1);
      && InRange(a, 0) && InRange(b, 0) && Evictable(a) && Evictable(b)
      && SumFits(a, 0) && SumFits(b, 0) && Weight(a.level) + Urgency(a, 0) <= INT_MAX
      && Lateness(a, 0) < Lateness(b, 0) && Score(b, 0) < Score(a, 0)
  {
    var a := KvIntent(0, 1, TWO_64 - 20000, 0, KvCold, false, 1);
    var b := KvIntent(1, 2, 100, 0, KvCold, false, 1);
    UrgencyOfLateness(a, 0);
    UrgencyOfLateness(b, 0);
    hide Urgency;
    assert InRange(a, 0) && InRange(b, 0);
  }
}
