/** The ring buffer object of memory_intent_ring.c, called by one thread at a time: wrapped counters and slots
    written in place, proved to be a bounded FIFO queue. */
module Ring {
  import opened RingCounters
  import opened RingProtocol

  const MAGIC: nat := 0x4B564D49
  const VERSION: nat := 1

  /** 0, EPROTO, ENOSPC and ENODATA. */
  datatype Code = Success | ProtocolError | NoSpace | NoData

  /** The slot of the `i`-th unread entry. */
  function SlotAt(tail: nat, i: nat): nat { Slot(Wrap(tail + i)) }

  /** The unread entries of a ring with these slots and counters, oldest first. */
  function Unread(slots: seq<Entry>, head: nat, tail: nat): (r: seq<Entry>)
    requires |slots| == CAPACITY
    ensures |r| == Wrap(head - tail)
  {
    SlotsInRange();
    seq(Wrap(head - tail), i requires 0 <= i => slots[SlotAt(tail, i)])
  }

  class SharedRing {
    const entries: array<Entry>
    var magic: nat
    var version: nat
    var capacity: nat
    var head: nat
    var tail: nat

    ghost predicate Valid()
      reads this
    {
      && entries.Length == CAPACITY
      && head < WORD && tail < WORD
      && Wrap(head - tail) <= CAPACITY
      && (HeaderOk() ==> capacity == CAPACITY)
    }

    predicate HeaderOk()
      reads this
    {
      magic == MAGIC && version == VERSION && capacity != 0
    }

    /** The unread entries, oldest first. */
    ghost function Contents(): seq<Entry>
      requires Valid()
      reads this, entries
    {
      Unread(entries[..], head, tail)
    }

    /** Fresh shared memory holds no valid header until `Initialize` writes one. */
    constructor ()
      ensures Valid() && !HeaderOk() && fresh(entries)
    {
      entries := new Entry[CAPACITY](_ => seq(ENTRY_BYTES, _ => 0));
      magic, version, capacity, head, tail := 0, 0, 0, 0, 0;
    }

    method Initialize()
      requires Valid()
      modifies this
      ensures Valid() && HeaderOk() && Contents() == []
    {
      magic, version, capacity := MAGIC, VERSION, CAPACITY;
      head, tail := 0, 0;
    }

    /** Compares with whatever capacity the header holds; behind a valid header that is CAPACITY. */
    method Full() returns (full: bool)
      requires Valid()
      ensures full <==> |Contents()| >= capacity
      ensures HeaderOk() ==> (full <==> |Contents()| == CAPACITY)
    {
      full := Wrap(head - tail) >= capacity;
    }

    method Empty() returns (empty: bool)
      requires Valid()
      ensures empty <==> Contents() == []
    {
      empty := head == tail;
      EqualCounters(head, tail);
    }

    method Push(entry: Entry) returns (code: Code)
      requires Valid()
      modifies this`head, entries
      ensures Valid()
      ensures code == if !HeaderOk() then ProtocolError
                      else if |old(Contents())| == CAPACITY then NoSpace else Success
      ensures Contents() == if code == Success then old(Contents()) + [entry] else old(Contents())
    {
      if !HeaderOk() {
        return ProtocolError;
      }
      var full := Full();
      if full {
        return NoSpace;
      }
      SlotInRange(head);
      PushUnread(entries[..], head, tail, entry);
      entries[Slot(head)] := entry;
      head := Wrap(head + 1);
      return Success;
    }

    method Pop() returns (code: Code, out: Entry)
      requires Valid()
      modifies this`tail
      ensures Valid()
      ensures code == if !HeaderOk() then ProtocolError else if old(Contents()) == [] then NoData else Success
      ensures code == Success ==> old(Contents()) == [out] + Contents()
      ensures code != Success ==> Contents() == old(Contents())
    {
      out := seq(ENTRY_BYTES, _ => 0);
      if !HeaderOk() {
        return ProtocolError, out;
      }
      var empty := Empty();
      if empty {
        return NoData, out;
      }
      SlotInRange(tail);
      PopUnread(entries[..], head, tail);
      out := entries[Slot(tail)];
      tail := Wrap(tail + 1);
      return Success, out;
    }
  }

  lemma PushUnread(slots: seq<Entry>, head: nat, tail: nat, entry: Entry)
    requires |slots| == CAPACITY && head < WORD && tail < WORD && Wrap(head - tail) < CAPACITY
    ensures Slot(head) < CAPACITY
    ensures Unread(slots[Slot(head) := entry], Wrap(head + 1), tail) == Unread(slots, head, tail) + [entry]
    ensures Wrap(Wrap(head + 1) - tail) == Wrap(head - tail) + 1
  {
    hide Slot, Wrap;
    SlotsInRange();
    SuccessorCount(head, tail);
    NewestSlot(head, tail);
    var n := Wrap(head - tail);
    forall i: nat | i < n ensures SlotAt(tail, i) != Slot(head) {
      UnreadSlot(head, tail, i);
    }
  }

  lemma PopUnread(slots: seq<Entry>, head: nat, tail: nat)
    requires |slots| == CAPACITY && head < WORD && tail < WORD && 0 < Wrap(head - tail) <= CAPACITY
    ensures Slot(tail) < CAPACITY
    ensures Unread(slots, head, tail) == [slots[Slot(tail)]] + Unread(slots, head, Wrap(tail + 1))
    ensures Wrap(head - Wrap(tail + 1)) == Wrap(head - tail) - 1
  {
    SlotsInRange();
    PredecessorCount(head, tail);
    WrapSmall(tail);
    hide Slot, Wrap;
    var n, next := Wrap(head - tail), Wrap(tail + 1);
    forall i: nat | i < n - 1 ensures SlotAt(next, i) == SlotAt(tail, i + 1) {
      WrapSum(tail, 1, i);
    }
  }

  lemma SlotsInRange()
    ensures forall n: nat :: Slot(n) < CAPACITY
  {
    forall n: nat ensures Slot(n) < CAPACITY {
      SlotInRange(n);
    }
  }

  lemma WrapSmall(n: nat)
    requires n < WORD
    ensures Wrap(n) == n
  {
  }

  lemma WrapSum(n: nat, a: nat, b: nat)
    ensures Wrap(Wrap(n + a) + b) == Wrap(n + (a + b))
  {
    assert n + a + b == (n + a) / WORD * WORD + (Wrap(n + a) + b);
    var m := Wrap(n + a) + b;
    RemainderIs(n + a + b, WORD, (n + a) / WORD + m / WORD, m % WORD);
  }

  lemma EqualCounters(head: nat, tail: nat)
    requires head < WORD && tail < WORD
    ensures head == tail <==> Wrap(head - tail) == 0
  {
    if head < tail {
      RemainderIs(head - tail, WORD, -1, head - tail + WORD);
    }
  }

  /** The head in terms of the tail and the count between them. */
  lemma HeadFromTail(head: nat, tail: nat)
    requires head < WORD && tail < WORD
    ensures head == Wrap(tail + Wrap(head - tail))
  {
    if head < tail {
      RemainderIs(head - tail, WORD, -1, head - tail + WORD);
      RemainderIs(head + WORD, WORD, 1, head);
    }
  }

  lemma SuccessorCount(head: nat, tail: nat)
    requires head < WORD && tail < WORD && Wrap(head - tail) < CAPACITY
    ensures Wrap(Wrap(head + 1) - tail) == Wrap(head - tail) + 1
  {
    var n := Wrap(head - tail);
    HeadFromTail(head, tail);
    WrapSum(tail, n, 1);
    OccupancyIgnoresWrap(tail + n + 1, tail);
    assert Wrap(tail) == tail;
  }

  lemma PredecessorCount(head: nat, tail: nat)
    requires head < WORD && tail < WORD && 0 < Wrap(head - tail) <= CAPACITY
    ensures Wrap(head - Wrap(tail + 1)) == Wrap(head - tail) - 1
  {
    var n := Wrap(head - tail);
    HeadFromTail(head, tail);
    OccupancyIgnoresWrap(tail + n, tail + 1);
  }

  lemma UnreadSlot(head: nat, tail: nat, i: nat)
    requires head < WORD && tail < WORD && i < Wrap(head - tail) < CAPACITY
    ensures SlotAt(tail, i) != Slot(head)
  {
    var n := Wrap(head - tail);
    HeadFromTail(head, tail);
    SlotIgnoresWrap(tail + i);
    SlotIgnoresWrap(tail + n);
    SlotsDiffer(tail + i, tail + n);
  }

  lemma NewestSlot(head: nat, tail: nat)
    requires head < WORD && tail < WORD
    ensures SlotAt(tail, Wrap(head - tail)) == Slot(head)
  {
    HeadFromTail(head, tail);
  }
}
