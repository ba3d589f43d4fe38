/** The shared-memory ring under one producer and one consumer: every atomic load, store and byte copy of
    `mi_ring_push` and `mi_ring_pop` is a step of its own, and steps of the two sides interleave freely. */
module RingProtocol {
  import opened Prelude
  import opened RingCounters

  const ENTRY_BYTES: nat := 120

  type Byte = bv8

  /** A packed `mi_ring_entry`. */
  type Entry = e: seq<Byte> | |e| == ENTRY_BYTES witness seq(ENTRY_BYTES, _ => 0)

  /** Where the producer is inside `mi_ring_push`: `mi_ring_full` has loaded the head; it has found room;
      the entry is being copied into the slot of the head loaded last. */
  datatype Producer =
    | Idle
    | LoadedHead(entry: Entry, head: nat)
    | Room(entry: Entry)
    | Copying(entry: Entry, head: nat, done: set<nat>)

  /** Where the consumer is inside `mi_ring_pop`. C leaves the order of the two loads of `mi_ring_empty`
      open, so either may come first. */
  datatype Consumer =
    | Resting
    | SawHead(head: nat)
    | SawTail(tail: nat)
    | Nonempty
    | Reading(tail: nat, out: map<nat, Byte>)

  /** The shared words, the two program counters, and what each side has completed so far. */
  datatype State = State(
    head: nat, tail: nat, slots: seq<Entry>, producer: Producer, consumer: Consumer,
    pushed: seq<Entry>, popped: seq<Entry>, fullReturns: nat, emptyReturns: nat)

  datatype Action =
    | PushLoadHead(entry: Entry) | PushLoadTail | PushReloadHead | PushByte(k: nat) | PushPublish
    | PopLoadHeadFirst | PopLoadTailFirst | PopCompare | PopReloadTail | PopByte(k: nat) | PopPublish

  /** Counter arithmetic: unbounded, or modulo 2^64. */
  function Count(wrap: bool, n: int): int { if wrap then Wrap(n) else n }

  function Below(n: nat): (r: set<nat>)
    ensures forall k: nat :: k in r <==> k < n
  {
    if n == 0 then {} else Below(n - 1) + {n - 1}
  }

  function Indices(): set<nat> { Below(ENTRY_BYTES) }

  function Assembled(out: map<nat, Byte>): Entry
    requires out.Keys == Indices()
  {
    seq(ENTRY_BYTES, k requires 0 <= k < ENTRY_BYTES => out[k])
  }

  function Written(e: Entry, k: nat, b: Byte): Entry
    requires k < ENTRY_BYTES
  {
    e[k := b]
  }

  function Init(): State {
    State(0, 0, seq(CAPACITY, _ => seq(ENTRY_BYTES, _ => 0)), Idle, Resting, [], [], 0, 0)
  }

  /** One step of the side named by the action, if that side is ready for it. */
  function Next(wrap: bool, s: State, a: Action): (r: Option<State>)
    requires |s.slots| == CAPACITY
    ensures r.Some? ==> |r.value.slots| == CAPACITY
  {
    match a
    case PushLoadHead(e) =>
      if s.producer.Idle? then Some(s.(producer := LoadedHead(e, s.head))) else None
    case PushLoadTail =>
      if !s.producer.LoadedHead? then None
      else if Count(wrap, s.producer.head - s.tail) >= CAPACITY then
        Some(s.(producer := Idle, fullReturns := s.fullReturns + 1))
      else Some(s.(producer := Room(s.producer.entry)))
    case PushReloadHead =>
      if s.producer.Room? then Some(s.(producer := Copying(s.producer.entry, s.head, {}))) else None
    case PushByte(k) =>
      if !s.producer.Copying? || k >= ENTRY_BYTES || k in s.producer.done then None
      else
        SlotInRange(s.producer.head);
        var i := Slot(s.producer.head);
        Some(s.(slots := s.slots[i := Written(s.slots[i], k, s.producer.entry[k])],
                producer := s.producer.(done := s.producer.done + {k})))
    case PushPublish =>
      if !s.producer.Copying? || s.producer.done != Indices() then None
      else
        var next := Count(wrap, s.producer.head + 1);
        Some(s.(head := if next >= 0 then next else 0, producer := Idle, pushed := s.pushed + [s.producer.entry]))
    case PopLoadHeadFirst =>
      if s.consumer.Resting? then Some(s.(consumer := SawHead(s.head))) else None
    case PopLoadTailFirst =>
      if s.consumer.Resting? then Some(s.(consumer := SawTail(s.tail))) else None
    case PopCompare =>
      if !s.consumer.SawHead? && !s.consumer.SawTail? then None
      else if (if s.consumer.SawHead? then s.consumer.head == s.tail else s.head == s.consumer.tail) then
        Some(s.(consumer := Resting, emptyReturns := s.emptyReturns + 1))
      else Some(s.(consumer := Nonempty))
    case PopReloadTail =>
      if s.consumer.Nonempty? then Some(s.(consumer := Reading(s.tail, map[]))) else None
    case PopByte(k) =>
      if !s.consumer.Reading? || k >= ENTRY_BYTES || k in s.consumer.out then None
      else
        SlotInRange(s.consumer.tail);
        Some(s.(consumer := s.consumer.(out := s.consumer.out[k := s.slots[Slot(s.consumer.tail)][k]])))
    case PopPublish =>
      if !s.consumer.Reading? || s.consumer.out.Keys != Indices() then None
      else
        var next := Count(wrap, s.consumer.tail + 1);
        Some(s.(tail := if next >= 0 then next else 0, consumer := Resting,
                popped := s.popped + [Assembled(s.consumer.out)]))
  }

  /** The whole run of an interleaving, if every step was possible. */
  function Run(wrap: bool, s: State, actions: seq<Action>): Option<State>
    requires |s.slots| == CAPACITY
    decreases |actions|
  {
    if actions == [] then Some(s)
    else
      match Next(wrap, s, actions[0])
      case None => None
      case Some(t) => Run(wrap, t, actions[1..])
  }

  /** The entries published and not yet consumed. */
  function Queue(s: State): seq<Entry>
    requires |s.popped| <= |s.pushed|
  {
    s.pushed[|s.popped|..]
  }

  ghost predicate ProducerOk(s: State) {
    match s.producer
    case Idle => true
    case LoadedHead(_, h) => h == s.head
    case Room(_) => s.head - s.tail < CAPACITY
    case Copying(e, h, done) =>
      && h == s.head && s.head - s.tail < CAPACITY && done <= Indices() && Slot(h) < |s.slots|
      && forall k | k in done :: s.slots[Slot(h)][k] == e[k]
  }

  ghost predicate ConsumerOk(s: State) {
    match s.consumer
    case Resting => true
    case SawHead(h) => s.tail <= h <= s.head
    case SawTail(t) => t == s.tail
    case Nonempty => s.tail < s.head
    case Reading(t, out) =>
      && t == s.tail < s.head && t < |s.pushed| && out.Keys <= Indices()
      && forall k | k in out :: out[k] == s.pushed[t][k]
  }

  /** The invariant of the machine with unbounded counters. */
  ghost predicate Inv(s: State) {
    && |s.slots| == CAPACITY
    && s.head == |s.pushed| && s.tail == |s.popped|
    && s.tail <= s.head <= s.tail + CAPACITY
    && s.popped == s.pushed[..s.tail]
    && (forall n: nat :: Slot(n) < CAPACITY)
    && (forall n | s.tail <= n < s.head :: s.slots[Slot(n)] == s.pushed[n])
    && ProducerOk(s)
    && ConsumerOk(s)
  }

  lemma InitInv()
    ensures Inv(Init())
  {
    forall n: nat ensures Slot(n) < CAPACITY {
      SlotInRange(n);
    }
  }

  /** The slot being written is neither unread nor being read. */
  lemma WriterAvoidsReader(s: State)
    requires Inv(s) && s.producer.Copying?
    ensures forall n | s.tail <= n < s.head :: Slot(n) != Slot(s.producer.head)
    ensures s.consumer.Reading? ==> Slot(s.consumer.tail) != Slot(s.producer.head)
  {
    forall n | s.tail <= n < s.head ensures Slot(n) != Slot(s.head) {
      SlotsDiffer(n, s.head);
    }
  }

  lemma PushByteKeepsInv(s: State, k: nat)
    requires Inv(s)
    ensures var r := Next(false, s, PushByte(k)); r.Some? ==> Inv(r.value)
  {
    if s.producer.Copying? {
      WriterAvoidsReader(s);
    }
  }

  lemma CopiedSlot(s: State)
    requires Inv(s) && s.producer.Copying? && s.producer.done == Indices()
    ensures s.producer.head == s.head && s.head < s.tail + CAPACITY && s.slots[Slot(s.head)] == s.producer.entry
  {
    assert forall k: nat | k < ENTRY_BYTES :: k in Indices();
  }

  lemma PushPublishKeepsInv(s: State)
    requires Inv(s)
    ensures var r := Next(false, s, PushPublish); r.Some? ==>
      Inv(r.value) && r.value.pushed == s.pushed + [s.producer.entry] && r.value.popped == s.popped
  {
    if s.producer.Copying? && s.producer.done == Indices() {
      hide Indices;
      CopiedSlot(s);
    }
  }

  lemma PopPublishKeepsInv(s: State)
    requires Inv(s)
    ensures var r := Next(false, s, PopPublish); r.Some? ==>
      Inv(r.value) && r.value.pushed == s.pushed && r.value.popped == s.popped + [s.pushed[|s.popped|]]
  {
    if s.consumer.Reading? && s.consumer.out.Keys == Indices() {
      var e := Assembled(s.consumer.out);
      assert e == s.pushed[s.tail] by {
        assert forall k: nat | k < ENTRY_BYTES :: k in Indices();
      }
      assert s.popped + [e] == s.pushed[..s.tail + 1];
    }
  }

  /** Every step of either side keeps the invariant. */
  lemma NextKeepsInv(s: State, a: Action)
    requires Inv(s)
    ensures var r := Next(false, s, a); r.Some? ==> Inv(r.value)
  {
    match a
    case PushByte(k) => PushByteKeepsInv(s, k);
    case PushPublish => PushPublishKeepsInv(s);
    case PopPublish => PopPublishKeepsInv(s);
    case PopByte(k) =>
    case _ =>
  }

  /** An operation of a bounded FIFO queue, as seen from outside. */
  datatype Op = Enqueue(entry: Entry) | RefuseFull | Dequeue(entry: Entry) | RefuseEmpty

  /** The sequential queue of at most CAPACITY entries: what an operation does, if it is legal. */
  function Perform(q: seq<Entry>, op: Op): Option<seq<Entry>> {
    match op
    case Enqueue(e) => if |q| < CAPACITY then Some(q + [e]) else None
    case RefuseFull => if |q| == CAPACITY then Some(q) else None
    case Dequeue(e) => if q != [] && q[0] == e then Some(q[1..]) else None
    case RefuseEmpty => if q == [] then Some(q) else None
  }

  function PerformAll(q: seq<Entry>, ops: seq<Op>): Option<seq<Entry>>
    decreases |ops|
  {
    if ops == [] then Some(q)
    else match Perform(q, ops[0]) case None => None case Some(q') => PerformAll(q', ops[1..])
  }

  /** The linearization point of an operation, if this step is one: a push takes effect when it publishes the
      head, a pop when it publishes the tail, a refused push when it loads the tail, a refused pop when it
      loads the head. */
  function Takes(wrap: bool, s: State, a: Action): seq<Op> {
    match a
    case PushLoadTail =>
      if s.producer.LoadedHead? && Count(wrap, s.producer.head - s.tail) >= CAPACITY then [RefuseFull] else []
    case PushPublish => if s.producer.Copying? then [Enqueue(s.producer.entry)] else []
    case PopLoadHeadFirst => if s.head == s.tail then [RefuseEmpty] else []
    case PopCompare => if s.consumer.SawTail? && s.head == s.consumer.tail then [RefuseEmpty] else []
    case PopPublish =>
      if s.consumer.Reading? && s.consumer.out.Keys == Indices() then [Dequeue(Assembled(s.consumer.out))] else []
    case _ => []
  }

  function OpsOf(wrap: bool, s: State, actions: seq<Action>): seq<Op>
    requires |s.slots| == CAPACITY
    decreases |actions|
  {
    if actions == [] then []
    else
      match Next(wrap, s, actions[0])
      case None => []
      case Some(t) => Takes(wrap, s, actions[0]) + OpsOf(wrap, t, actions[1..])
  }

  /** A pop that has already seen an empty ring but not yet returned. */
  function PendingEmpty(s: State): nat {
    if s.consumer.SawHead? && s.consumer.head == s.tail then 1 else 0
  }

  function Tally(ops: seq<Op>, op: Op): nat
    decreases |ops|
  {
    if ops == [] then 0 else (if ops[0] == op then 1 else 0) + Tally(ops[1..], op)
  }

  lemma PushPublishLinearizes(s: State)
    requires Inv(s) && Next(false, s, PushPublish).Some?
    ensures var s' := Next(false, s, PushPublish).value;
      PerformAll(Queue(s), [Enqueue(s.producer.entry)]) == Some(Queue(s'))
  {
    PushPublishKeepsInv(s);
    CopiedSlot(s);
    var s' := Next(false, s, PushPublish).value;
    assert Queue(s') == Queue(s) + [s.producer.entry];
    hide Inv, Next, Indices;
    SingleOp(Queue(s), Enqueue(s.producer.entry));
  }

  lemma PopPublishLinearizes(s: State)
    requires Inv(s) && Next(false, s, PopPublish).Some?
    ensures var s' := Next(false, s, PopPublish).value;
      PerformAll(Queue(s), [Dequeue(Assembled(s.consumer.out))]) == Some(Queue(s'))
  {
    PopPublishKeepsInv(s);
    var s', e := Next(false, s, PopPublish).value, Assembled(s.consumer.out);
    assert e == s'.popped[|s.popped|];
    assert Queue(s') == Queue(s)[1..];
    hide Inv, Next, Indices;
    SingleOp(Queue(s), Dequeue(e));
  }

  /** Each step is invisible or exactly one legal queue operation, and refusals are returned as often as taken. */
  lemma NextLinearizes(s: State, a: Action)
    requires Inv(s)
    ensures var r := Next(false, s, a); r.Some? ==>
      && Inv(r.value)
      && PerformAll(Queue(s), Takes(false, s, a)) == Some(Queue(r.value))
      && r.value.fullReturns == s.fullReturns + Tally(Takes(false, s, a), RefuseFull)
      && r.value.emptyReturns + PendingEmpty(r.value)
           == s.emptyReturns + PendingEmpty(s) + Tally(Takes(false, s, a), RefuseEmpty)
  {
    NextKeepsInv(s, a);
    var r := Next(false, s, a);
    if r.Some? {
      match a {
        case PushLoadTail => SingleOp(Queue(s), RefuseFull);
        case PushPublish =>
          PushPublishLinearizes(s);
          SingleOp(Queue(s), Enqueue(s.producer.entry));
        case PopLoadHeadFirst => SingleOp(Queue(s), RefuseEmpty);
        case PopCompare => SingleOp(Queue(s), RefuseEmpty);
        case PopPublish =>
          PopPublishLinearizes(s);
          SingleOp(Queue(s), Dequeue(Assembled(s.consumer.out)));
        case _ =>
      }
    }
  }

  lemma SingleOp(q: seq<Entry>, op: Op)
    ensures PerformAll(q, [op]) == Perform(q, op)
    ensures forall x :: Tally([op], x) == if op == x then 1 else 0
  {
    assert [op][1..] == [];
  }

  lemma {:induction false} PerformAllConcat(q: seq<Entry>, xs: seq<Op>, ys: seq<Op>)
    ensures PerformAll(q, xs + ys) ==
      match PerformAll(q, xs) case None => None case Some(q') => PerformAll(q', ys)
    decreases |xs|
  {
    if xs == [] {
      assert xs + ys == ys;
    } else {
      assert (xs + ys)[0] == xs[0] && (xs + ys)[1..] == xs[1..] + ys;
      match Perform(q, xs[0]) {
        case None =>
        case Some(q') => PerformAllConcat(q', xs[1..], ys);
      }
    }
  }

  lemma {:induction false} TallyConcat(xs: seq<Op>, ys: seq<Op>, op: Op)
    ensures Tally(xs + ys, op) == Tally(xs, op) + Tally(ys, op)
    decreases |xs|
  {
    if xs == [] {
      assert xs + ys == ys;
    } else {
      assert (xs + ys)[0] == xs[0] && (xs + ys)[1..] == xs[1..] + ys;
      TallyConcat(xs[1..], ys, op);
    }
  }

  /** The entry an operation puts in, or takes out. */
  function EntryOf(op: Op, putIn: bool): seq<Entry> {
    match op
    case Enqueue(e) => if putIn then [e] else []
    case Dequeue(e) => if putIn then [] else [e]
    case _ => []
  }

  function Entries(ops: seq<Op>, putIn: bool): seq<Entry> {
    if ops == [] then [] else EntryOf(ops[0], putIn) + Entries(ops[1..], putIn)
  }

  function Enqueued(ops: seq<Op>): seq<Entry> { Entries(ops, true) }

  function Dequeued(ops: seq<Op>): seq<Entry> { Entries(ops, false) }

  lemma {:induction false} EntriesConcat(xs: seq<Op>, ys: seq<Op>, putIn: bool)
    ensures Entries(xs + ys, putIn) == Entries(xs, putIn) + Entries(ys, putIn)
    decreases |xs|
  {
    hide EntryOf;
    if xs == [] {
      assert xs + ys == ys;
    } else {
      assert (xs + ys)[0] == xs[0] && (xs + ys)[1..] == xs[1..] + ys;
      EntriesConcat(xs[1..], ys, putIn);
    }
  }

  lemma SingleEntry(op: Op, putIn: bool)
    ensures Entries([], putIn) == [] && Entries([op], putIn) == EntryOf(op, putIn)
  {
    assert [op][1..] == [];
  }

  /** A step publishes the entry it enqueues and hands out the entry it dequeues, and does neither otherwise. */
  lemma NextMovesEntries(wrap: bool, s: State, a: Action)
    requires |s.slots| == CAPACITY
    ensures var r, ops := Next(wrap, s, a), Takes(wrap, s, a); r.Some? ==>
      r.value.pushed == s.pushed + Enqueued(ops) && r.value.popped == s.popped + Dequeued(ops)
  {
    hide Count, Indices, Slot;
    var op := if Takes(wrap, s, a) == [] then RefuseFull else Takes(wrap, s, a)[0];
    SingleEntry(op, true);
    SingleEntry(op, false);
  }

  /** The history enqueues exactly the entries pushed and dequeues exactly the entries popped, in order. */
  lemma {:induction false} RunMovesEntries(wrap: bool, s: State, actions: seq<Action>)
    requires |s.slots| == CAPACITY && Run(wrap, s, actions).Some?
    ensures var t := Run(wrap, s, actions).value; var ops := OpsOf(wrap, s, actions);
      t.pushed == s.pushed + Enqueued(ops) && t.popped == s.popped + Dequeued(ops)
    decreases |actions|
  {
    hide Next, Takes, Entries;
    if actions == [] {
      SingleEntry(RefuseFull, true);
      SingleEntry(RefuseFull, false);
    } else {
      NextMovesEntries(wrap, s, actions[0]);
      var m := Next(wrap, s, actions[0]).value;
      RunMovesEntries(wrap, m, actions[1..]);
      EntriesConcat(Takes(wrap, s, actions[0]), OpsOf(wrap, m, actions[1..]), true);
      EntriesConcat(Takes(wrap, s, actions[0]), OpsOf(wrap, m, actions[1..]), false);
    }
  }

  /** Every interleaving is a legal history of the bounded queue, ending in its contents. */
  lemma {:induction false} RunLinearizes(s: State, actions: seq<Action>)
    requires Inv(s) && Run(false, s, actions).Some?
    ensures var t := Run(false, s, actions).value; var ops := OpsOf(false, s, actions);
      && Inv(t)
      && PerformAll(Queue(s), ops) == Some(Queue(t))
      && t.fullReturns == s.fullReturns + Tally(ops, RefuseFull)
      && t.emptyReturns + PendingEmpty(t) == s.emptyReturns + PendingEmpty(s) + Tally(ops, RefuseEmpty)
    decreases |actions|
  {
    if actions != [] {
      NextLinearizes(s, actions[0]);
      var m := Next(false, s, actions[0]).value;
      RunLinearizes(m, actions[1..]);
      var xs, ys := Takes(false, s, actions[0]), OpsOf(false, m, actions[1..]);
      PerformAllConcat(Queue(s), xs, ys);
      TallyConcat(xs, ys, RefuseFull);
      TallyConcat(xs, ys, RefuseEmpty);
    }
  }

  function WrappedProducer(p: Producer): Producer {
    match p
    case LoadedHead(e, h) => LoadedHead(e, Wrap(h))
    case Copying(e, h, done) => Copying(e, Wrap(h), done)
    case _ => p
  }

  function WrappedConsumer(p: Consumer): Consumer {
    match p
    case SawHead(h) => SawHead(Wrap(h))
    case SawTail(t) => SawTail(Wrap(t))
    case Reading(t, out) => Reading(Wrap(t), out)
    case _ => p
  }

  /** The state as the 64-bit machine holds it. */
  function Wrapped(s: State): State {
    s.(head := Wrap(s.head), tail := Wrap(s.tail),
       producer := WrappedProducer(s.producer), consumer := WrappedConsumer(s.consumer))
  }

  lemma WrapEqual(h: nat, t: nat)
    requires t <= h <= t + CAPACITY
    ensures Wrap(h) == Wrap(t) <==> h == t
  {
    OccupancyIgnoresWrap(h, t);
  }

  ghost predicate Refines(s: State, a: Action) {
    |s.slots| == CAPACITY &&
    var (r, w) := (Next(false, s, a), Next(true, Wrapped(s), a));
    && (r.Some? <==> w.Some?)
    && (r.Some? ==> w.value == Wrapped(r.value))
    && Takes(true, Wrapped(s), a) == Takes(false, s, a)
  }

  lemma PushLoadHeadRefines(s: State, e: Entry)
    requires Inv(s)
    ensures Refines(s, PushLoadHead(e))
  {
    hide Wrap, Slot;
  }

  lemma LoadsRefine(s: State)
    requires Inv(s)
    ensures Refines(s, PushReloadHead) && Refines(s, PopLoadTailFirst) && Refines(s, PopReloadTail)
  {
    hide Wrap, Slot;
  }

  lemma PushLoadTailRefines(s: State)
    requires Inv(s)
    ensures Refines(s, PushLoadTail)
  {
    hide Slot;
    if s.producer.LoadedHead? {
      OccupancyIgnoresWrap(s.head, s.tail);
    }
  }

  lemma PushByteRefines(s: State, k: nat)
    requires Inv(s)
    ensures Refines(s, PushByte(k))
  {
    hide Slot, Wrap, Written, Below;
    if s.producer.Copying? {
      SlotIgnoresWrap(s.producer.head);
    }
  }

  lemma PushPublishRefines(s: State)
    requires Inv(s)
    ensures Refines(s, PushPublish)
  {
    hide Slot, Below;
    if s.producer.Copying? {
      WrapSuccessor(s.producer.head);
    }
  }

  lemma ComparesRefine(s: State)
    requires Inv(s)
    ensures Refines(s, PopLoadHeadFirst) && Refines(s, PopCompare)
  {
    hide Wrap, Slot;
    WrapEqual(s.head, s.tail);
    if s.consumer.SawHead? {
      WrapEqual(s.consumer.head, s.tail);
    }
  }

  lemma PopByteRefines(s: State, k: nat)
    requires Inv(s)
    ensures Refines(s, PopByte(k))
  {
    hide Wrap, Slot, Below;
    if s.consumer.Reading? {
      SlotIgnoresWrap(s.consumer.tail);
    }
  }

  lemma PopPublishRefines(s: State)
    requires Inv(s)
    ensures Refines(s, PopPublish)
  {
    hide Slot, Below;
    if s.consumer.Reading? {
      WrapSuccessor(s.consumer.tail);
    }
  }

  /** The 64-bit machine makes the same steps with the same outcomes as the unbounded one. */
  lemma NextRefines(s: State, a: Action)
    requires Inv(s)
    ensures Refines(s, a)
  {
    hide Refines, Inv;
    match a
    case PushLoadHead(e) => PushLoadHeadRefines(s, e);
    case PushLoadTail => PushLoadTailRefines(s);
    case PushReloadHead => LoadsRefine(s);
    case PushByte(k) => PushByteRefines(s, k);
    case PushPublish => PushPublishRefines(s);
    case PopLoadHeadFirst => ComparesRefine(s);
    case PopLoadTailFirst => LoadsRefine(s);
    case PopCompare => ComparesRefine(s);
    case PopReloadTail => LoadsRefine(s);
    case PopByte(k) => PopByteRefines(s, k);
    case PopPublish => PopPublishRefines(s);
  }

  /** For runs of any length, wraparound included, the 64-bit ring refines the unbounded one. */
  lemma {:induction false} RunRefines(s: State, actions: seq<Action>)
    requires Inv(s)
    ensures var r, w := Run(false, s, actions), Run(true, Wrapped(s), actions);
      && (r.Some? <==> w.Some?)
      && (r.Some? ==> w.value == Wrapped(r.value))
      && OpsOf(true, Wrapped(s), actions) == OpsOf(false, s, actions)
    decreases |actions|
  {
    if actions != [] {
      NextRefines(s, actions[0]);
      var r := Next(false, s, actions[0]);
      if r.Some? {
        NextKeepsInv(s, actions[0]);
        RunRefines(r.value, actions[1..]);
      }
    }
  }

  /** The slot being written is neither unread nor being read, with the counters as they wrap. */
  lemma WrappedWriterAvoidsReader(s: State)
    requires Inv(s) && s.producer.Copying?
    ensures var w := Wrapped(s);
      && w.producer.Copying?
      && (forall n | s.tail <= n < s.head :: Slot(Wrap(n)) != Slot(w.producer.head))
      && (w.consumer.Reading? ==> Slot(w.consumer.tail) != Slot(w.producer.head))
  {
    WriterAvoidsReader(s);
    SlotIgnoresWrap(s.producer.head);
    forall n: nat ensures Slot(Wrap(n)) == Slot(n) {
      SlotIgnoresWrap(n);
    }
  }

  /** The ring as shipped, started empty: in every interleaving the popped entries are a prefix of the pushed
      ones, at most CAPACITY entries are outstanding, and the operations taken form a legal sequential history
      of a bounded FIFO queue that enqueues the pushed entries, dequeues the popped ones and has exactly the
      refusals returned; and no slot is written while it is read. */
  lemma RingIsLinearizable(actions: seq<Action>)
    requires Run(true, Init(), actions).Some?
    ensures var t := Run(true, Init(), actions).value; var ops := OpsOf(true, Init(), actions);
      && |t.popped| <= |t.pushed| <= |t.popped| + CAPACITY
      && t.popped == t.pushed[..|t.popped|]
      && PerformAll([], ops) == Some(t.pushed[|t.popped|..])
      && t.fullReturns == Tally(ops, RefuseFull)
      && t.emptyReturns + PendingEmpty(t) == Tally(ops, RefuseEmpty)
      && Enqueued(ops) == t.pushed && Dequeued(ops) == t.popped
      && (t.producer.Copying? && t.consumer.Reading? ==> Slot(t.producer.head) != Slot(t.consumer.tail))
  {
    hide Indices, Next, Takes;
    InitInv();
    RunMovesEntries(true, Init(), actions);
    assert Wrapped(Init()) == Init();
    RunRefines(Init(), actions);
    RunLinearizes(Init(), actions);
    var t := Run(false, Init(), actions).value;
    if t.consumer.SawHead? {
      WrapEqual(t.consumer.head, t.tail);
    }
    if t.producer.Copying? {
      WrappedWriterAvoidsReader(t);
    }
  }
}
