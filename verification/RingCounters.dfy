/** 64-bit counters and the slot mask of memory_intent_ring.c. */
module RingCounters {

  const WORD: nat := 0x1_0000_0000_0000_0000
  const CAPACITY: nat := 4096

  /** The value of an unsigned 64-bit computation. */
  function Wrap(n: int): nat { n % WORD }

  /** C's `&` on non-negative integers. */
  function BitAnd(a: nat, b: nat): nat {
    if a == 0 || b == 0 then 0
    else (if a % 2 == 1 && b % 2 == 1 then 1 else 0) + 2 * BitAnd(a / 2, b / 2)
  }

  function Pow2(k: nat): nat { if k == 0 then 1 else 2 * Pow2(k - 1) }

  lemma {:induction false} MaskIsRemainder(a: nat, k: nat)
    ensures Pow2(k) >= 1
    ensures BitAnd(a, Pow2(k) - 1) == a % Pow2(k)
  {
    if k > 0 {
      var p: nat := Pow2(k - 1);
      MaskIsRemainder(a / 2, k - 1);
      HalvedRemainder(a, p);
      assert (2 * p - 1) / 2 == p - 1 && (2 * p - 1) % 2 == 1;
    }
  }

  lemma HalvedRemainder(a: nat, p: nat)
    requires p >= 1
    ensures a % (2 * p) == a % 2 + 2 * (a / 2 % p)
  {
    var q, r := a / 2 / p, a / 2 % p;
    assert a == 2 * (q * p + r) + a % 2;
    RemainderIs(a, 2 * p, q, a % 2 + 2 * r);
  }

  lemma RemainderIs(a: int, m: int, q: int, r: int)
    requires 0 <= r < m && a == q * m + r
    ensures a % m == r
  {
    var d := a / m - q;
    assert a == a / m * m + a % m;
    assert d * m == r - a % m;
    assert d >= 1 ==> d * m >= m;
    assert d <= -1 ==> d * m <= -m;
  }

  /** `counter & (capacity - 1)`. */
  function Slot(counter: nat): nat { BitAnd(counter, CAPACITY - 1) }

  lemma SlotIsRemainder(counter: nat)
    ensures Slot(counter) == counter % CAPACITY
  {
    assert Pow2(12) == CAPACITY by {
      assert Pow2(4) == 16;
      assert Pow2(8) == 256;
    }
    MaskIsRemainder(counter, 12);
  }

  /** Wrapping a counter does not change its slot. */
  lemma SlotIgnoresWrap(n: nat)
    ensures Slot(Wrap(n)) == Slot(n)
  {
    SlotIsRemainder(n);
    SlotIsRemainder(Wrap(n));
    var k := WORD / CAPACITY;
    assert n == n / WORD * WORD + Wrap(n);
    assert n % CAPACITY == Wrap(n) % CAPACITY by {
      var r := Wrap(n) % CAPACITY;
      assert Wrap(n) == Wrap(n) / CAPACITY * CAPACITY + r;
      RemainderIs(n, CAPACITY, n / WORD * k + Wrap(n) / CAPACITY, r);
    }
  }

  /** The difference of wrapped counters is the true occupancy, however often they have wrapped. */
  lemma OccupancyIgnoresWrap(head: nat, tail: nat)
    requires tail <= head < tail + WORD
    ensures Wrap(Wrap(head) - Wrap(tail)) == head - tail
  {
    var a, b := head / WORD, tail / WORD;
    assert Wrap(head) - Wrap(tail) == (b - a) * WORD + (head - tail);
    RemainderIs(Wrap(head) - Wrap(tail), WORD, b - a, head - tail);
  }

  lemma WrapSuccessor(n: nat)
    ensures Wrap(Wrap(n) + 1) == Wrap(n + 1)
  {
    assert n + 1 == n / WORD * WORD + (Wrap(n) + 1);
    var m := Wrap(n) + 1;
    RemainderIs(n + 1, WORD, n / WORD + m / WORD, m % WORD);
  }

  /** Counters less than a capacity apart use different slots. */
  lemma SlotsDiffer(m: nat, n: nat)
    requires m < n < m + CAPACITY
    ensures Slot(m) != Slot(n)
  {
    SlotIsRemainder(m);
    SlotIsRemainder(n);
    assert n - m == (n / CAPACITY - m / CAPACITY) * CAPACITY + (n % CAPACITY - m % CAPACITY);
  }

  lemma SlotInRange(n: nat)
    ensures Slot(n) < CAPACITY
  {
    SlotIsRemainder(n);
  }
}
