/** The lock-free ring buffer `SimpleAtomicQueue`.

    Every atomic load and store of `try_enqueue` and `try_dequeue` is one step of a
    thread, and a run is any interleaving of one producer with one consumer.  The
    responses of a run are replayed on a plain bounded FIFO queue, which is the
    reference the ring is compared with. */
module AtomicQueue {
  import opened Basics

  /** The shared memory; the capacity is the length of the buffer. */
  datatype Shared = Shared(head: nat, tail: nat, buffer: seq<nat>)
  {
    predicate InBounds() { head < |buffer| && tail < |buffer| }
  }

  /** Where `try_enqueue` stands: what it has loaded so far. */
  datatype ProducerPc =
    | PIdle
    | PTailLoaded(value: nat, tail: nat)
    | PChecked(value: nat, tail: nat, nextTail: nat)
    | PStored(value: nat, tail: nat, nextTail: nat)

  /** Where `try_dequeue` stands. */
  datatype ConsumerPc =
    | CIdle
    | CHeadLoaded(head: nat)
    | CChecked(head: nat)
    | CValueLoaded(head: nat, value: nat)

  datatype Response =
    | EnqueueOk(value: nat)
    | EnqueueFull(value: nat)
    | DequeueOk(value: nat)
    | DequeueEmpty

  /** A thread's program counter only holds indices into the buffer. */
  predicate ProducerInBounds(m: Shared, pc: ProducerPc) {
    match pc
    case PIdle => true
    case PTailLoaded(_, t) => t < |m.buffer|
    case PChecked(_, t, nt) => t < |m.buffer| && nt < |m.buffer|
    case PStored(_, t, nt) => t < |m.buffer| && nt < |m.buffer|
  }

  predicate ConsumerInBounds(m: Shared, pc: ConsumerPc) {
    match pc
    case CIdle => true
    case CHeadLoaded(h) => h < |m.buffer|
    case CChecked(h) => h < |m.buffer|
    case CValueLoaded(h, _) => h < |m.buffer|
  }

  /** The slot after `i`, going round a ring of `n`. */
  function Next(i: nat, n: nat): (j: nat)
    requires i < n
    ensures j < n
  {
    if i + 1 == n then 0 else i + 1
  }

  lemma NextIsRemainder(i: nat, n: nat)
    requires i < n
    ensures Next(i, n) == (i + 1) % n
  {
  }

  // ---------------------------------------------------------------- the steps

  /** One load or store of `try_enqueue(arg)`. */
  function ProducerStep(m: Shared, pc: ProducerPc, arg: nat): (r: (Shared, ProducerPc, seq<Response>))
    requires m.InBounds() && ProducerInBounds(m, pc)
  {
    match pc
    case PIdle => (m, PTailLoaded(arg, m.tail), [])
    case PTailLoaded(v, t) =>
      var nt := Next(t, |m.buffer|);
      if nt != m.head then (m, PChecked(v, t, nt), []) else (m, PIdle, [EnqueueFull(v)])
    case PChecked(v, t, nt) => (m.(buffer := m.buffer[t := v]), PStored(v, t, nt), [])
    case PStored(v, t, nt) => (m.(tail := nt), PIdle, [EnqueueOk(v)])
  }

  /** One load or store of `try_dequeue()`. */
  function ConsumerStep(m: Shared, pc: ConsumerPc): (r: (Shared, ConsumerPc, seq<Response>))
    requires m.InBounds() && ConsumerInBounds(m, pc)
  {
    match pc
    case CIdle => (m, CHeadLoaded(m.head), [])
    case CHeadLoaded(h) => if h != m.tail then (m, CChecked(h), []) else (m, CIdle, [DequeueEmpty])
    case CChecked(h) => (m, CValueLoaded(h, m.buffer[h]), [])
    case CValueLoaded(h, v) => (m.(head := Next(h, |m.buffer|)), CIdle, [DequeueOk(v)])
  }

  /** One producer and one consumer over the shared memory, with the responses given so far. */
  datatype System = System(mem: Shared, prod: ProducerPc, cons: ConsumerPc, trace: seq<Response>)
  {
    predicate InBounds() {
      mem.InBounds() && ProducerInBounds(mem, prod) && ConsumerInBounds(mem, cons)
    }
  }

  /** What the scheduler runs next; `arg` is the value of the next `try_enqueue` call. */
  datatype Action = Producer(arg: nat) | Consumer

  function Initial(capacity: nat): (s: System) {
    System(Shared(0, 0, seq(capacity, _ => 0)), PIdle, CIdle, [])
  }

  function Step(s: System, a: Action): (s': System)
    requires s.InBounds()
    ensures s'.InBounds() && |s'.mem.buffer| == |s.mem.buffer|
  {
    match a
    case Producer(arg) =>
      var (m, pc, out) := ProducerStep(s.mem, s.prod, arg);
      System(m, pc, s.cons, s.trace + out)
    case Consumer =>
      var (m, pc, out) := ConsumerStep(s.mem, s.cons);
      System(m, s.prod, pc, s.trace + out)
  }

  /** The state after an arbitrary interleaving. */
  function Run(capacity: nat, actions: seq<Action>): (s: System)
    requires capacity >= 1
    ensures s.InBounds() && |s.mem.buffer| == capacity
  {
    if actions == [] then Initial(capacity)
    else Step(Run(capacity, actions[..|actions| - 1]), actions[|actions| - 1])
  }

  // ---------------------------------------------------------------- the reference queue

  /** A sequential FIFO queue of at most `capacity - 1` items: the queue after one call, or None if
      it would have answered otherwise. */
  function Accept(capacity: nat, q: seq<nat>, r: Response): (q': Option<seq<nat>>)
    requires capacity >= 1
  {
    match r
    case EnqueueOk(v) => if |q| < capacity - 1 then Some(q + [v]) else None
    case EnqueueFull(_) => if |q| == capacity - 1 then Some(q) else None
    case DequeueOk(v) => if q != [] && q[0] == v then Some(q[1..]) else None
    case DequeueEmpty => if q == [] then Some(q) else None
  }

  /** The queue after a whole trace of responses, or None as soon as one is not the queue's own. */
  function Replay(capacity: nat, trace: seq<Response>): (q: Option<seq<nat>>)
    requires capacity >= 1
  {
    if trace == [] then Some([])
    else
      var before := Replay(capacity, trace[..|trace| - 1]);
      if before.None? then None else Accept(capacity, before.value, trace[|trace| - 1])
  }

  lemma ReplayOneMore(capacity: nat, trace: seq<Response>, r: Response)
    requires capacity >= 1 && Replay(capacity, trace).Some?
    ensures Replay(capacity, trace + [r]) == Accept(capacity, Replay(capacity, trace).value, r)
  {
    assert (trace + [r])[..|trace|] == trace;
  }

  /** The values of the successful enqueues, in order. */
  function Enqueued(trace: seq<Response>): (r: seq<nat>) {
    if trace == [] then []
    else
      var last := trace[|trace| - 1];
      Enqueued(trace[..|trace| - 1]) + if last.EnqueueOk? then [last.value] else []
  }

  /** The values of the successful dequeues, in order. */
  function Dequeued(trace: seq<Response>): (r: seq<nat>) {
    if trace == [] then []
    else
      var last := trace[|trace| - 1];
      Dequeued(trace[..|trace| - 1]) + if last.DequeueOk? then [last.value] else []
  }

  // ---------------------------------------------------------------- abstraction

  function Occupied(m: Shared): (n: nat)
    requires m.InBounds()
    ensures n < |m.buffer| && Slot(m.head, n, |m.buffer|) == m.tail
  {
    if m.head <= m.tail then m.tail - m.head else m.tail + |m.buffer| - m.head
  }

  /** The slot `i` places after `start`, going round the ring. */
  function Slot(start: nat, i: nat, capacity: nat): (j: nat)
    requires start < capacity && i < capacity
    ensures j < capacity
  {
    if start + i < capacity then start + i else start + i - capacity
  }

  /** The items in the ring, oldest first. */
  function Contents(m: Shared): (q: seq<nat>)
    requires m.InBounds()
    ensures |q| == Occupied(m)
  {
    seq(Occupied(m), i requires 0 <= i < Occupied(m) => m.buffer[Slot(m.head, i, |m.buffer|)])
  }

  /** What the producer may rely on between its own steps. */
  predicate ProducerInv(m: Shared, pc: ProducerPc)
    requires m.InBounds()
  {
    match pc
    case PIdle => true
    case PTailLoaded(_, t) => t == m.tail
    case PChecked(_, t, nt) => t == m.tail && nt == Next(t, |m.buffer|) && nt != m.head
    case PStored(v, t, nt) => t == m.tail && nt == Next(t, |m.buffer|) && nt != m.head && m.buffer[t] == v
  }

  /** What the consumer may rely on. */
  predicate ConsumerInv(m: Shared, pc: ConsumerPc)
    requires m.InBounds()
  {
    match pc
    case CIdle => true
    case CHeadLoaded(h) => h == m.head
    case CChecked(h) => h == m.head && h != m.tail
    case CValueLoaded(h, v) => h == m.head && h != m.tail && m.buffer[h] == v
  }

  predicate Inv(s: System) {
    s.InBounds() && ProducerInv(s.mem, s.prod) && ConsumerInv(s.mem, s.cons)
  }

  /** Storing into the free slot at `tail` does not touch an item. */
  lemma StoreKeepsContents(m: Shared, v: nat)
    requires m.InBounds()
    ensures Contents(m.(buffer := m.buffer[m.tail := v])) == Contents(m)
  {
  }

  /** Publishing the new tail appends the stored value. */
  lemma PublishAppends(m: Shared, nt: nat)
    requires m.InBounds() && nt == Next(m.tail, |m.buffer|) && nt != m.head
    ensures Occupied(m) < |m.buffer| - 1
    ensures Contents(m.(tail := nt)) == Contents(m) + [m.buffer[m.tail]]
  {
  }

  /** Moving the head drops the oldest item. */
  lemma AdvanceDrops(m: Shared)
    requires m.InBounds() && m.head != m.tail
    ensures Contents(m) != [] && Contents(m)[0] == m.buffer[m.head]
    ensures Contents(m.(head := Next(m.head, |m.buffer|))) == Contents(m)[1..]
  {
  }

  /** The ring is full exactly when the slot after the tail is the head. */
  lemma FullExactlyWhen(m: Shared)
    requires m.InBounds()
    ensures Next(m.tail, |m.buffer|) == m.head <==> |Contents(m)| == |m.buffer| - 1
  {
  }

  /** Each thread's steps keep both threads' expectations. */
  lemma StepKeepsInv(s: System, a: Action)
    requires Inv(s)
    ensures Inv(Step(s, a))
  {
  }

  /** The reference queue and the ring agree. */
  predicate Agrees(s: System)
    requires s.InBounds()
  {
    Replay(|s.mem.buffer|, s.trace) == Some(Contents(s.mem))
  }

  lemma ProducerAgrees(s: System, arg: nat)
    requires Inv(s) && Agrees(s)
    ensures Agrees(Step(s, Producer(arg)))
  {
    var s' := Step(s, Producer(arg));
    var n := |s.mem.buffer|;
    match s.prod
    case PIdle => assert s'.trace == s.trace;
    case PTailLoaded(v, t) =>
      FullExactlyWhen(s.mem);
      if s'.prod.PIdle? {
        ReplayOneMore(n, s.trace, EnqueueFull(v));
      } else {
        assert s'.trace == s.trace;
      }
    case PChecked(v, t, nt) =>
      StoreKeepsContents(s.mem, v);
      assert s'.trace == s.trace;
    case PStored(v, t, nt) =>
      PublishAppends(s.mem, nt);
      ReplayOneMore(n, s.trace, EnqueueOk(v));
  }

  lemma ConsumerAgrees(s: System)
    requires Inv(s) && Agrees(s)
    ensures Agrees(Step(s, Consumer))
  {
    var s' := Step(s, Consumer);
    var n := |s.mem.buffer|;
    match s.cons
    case CIdle => assert s'.trace == s.trace;
    case CHeadLoaded(h) =>
      if s'.cons.CIdle? {
        assert Contents(s.mem) == [];
        ReplayOneMore(n, s.trace, DequeueEmpty);
      } else {
        assert s'.trace == s.trace;
      }
    case CChecked(h) => assert s'.trace == s.trace;
    case CValueLoaded(h, v) =>
      AdvanceDrops(s.mem);
      ReplayOneMore(n, s.trace, DequeueOk(v));
  }

  // ---------------------------------------------------------------- main results

  /** Linearizability: under every interleaving the responses, in the order they were
      given, are those of a sequential FIFO queue of at most `capacity - 1` items, whose
      contents are the contents of the ring.  Each response is given by the very load or
      store that decides it, so that step is the linearization point; in particular "full"
      and "empty" are true at the deciding load. */
  lemma {:induction false} EveryRunIsLinearizable(capacity: nat, actions: seq<Action>)
    requires capacity >= 1
    ensures var s := Run(capacity, actions);
            Inv(s) && Replay(capacity, s.trace) == Some(Contents(s.mem))
  {
    assert |Run(capacity, actions).mem.buffer| == capacity;
    if actions == [] {
      assert Contents(Initial(capacity).mem) == [];
    } else {
      var prefix := actions[..|actions| - 1];
      EveryRunIsLinearizable(capacity, prefix);
      var s := Run(capacity, prefix);
      StepKeepsInv(s, actions[|actions| - 1]);
      match actions[|actions| - 1]
      case Producer(arg) => ProducerAgrees(s, arg);
      case Consumer => ConsumerAgrees(s);
    }
  }

  /** A trace the reference queue accepts conserves the items and their order. */
  lemma {:induction false} ReplayConserves(capacity: nat, trace: seq<Response>)
    requires capacity >= 1 && Replay(capacity, trace).Some?
    ensures Enqueued(trace) == Dequeued(trace) + Replay(capacity, trace).value
    ensures |Replay(capacity, trace).value| <= capacity - 1
  {
    if trace != [] {
      ReplayConserves(capacity, trace[..|trace| - 1]);
    }
  }

  /** Nothing is lost, duplicated or reordered: at every moment of every run the enqueued
      values are the dequeued ones followed by those still in the ring. */
  lemma NothingLostOrReordered(capacity: nat, actions: seq<Action>)
    requires capacity >= 1
    ensures var s := Run(capacity, actions);
            Enqueued(s.trace) == Dequeued(s.trace) + Contents(s.mem) &&
            |Contents(s.mem)| <= capacity - 1
  {
    EveryRunIsLinearizable(capacity, actions);
    ReplayConserves(capacity, Run(capacity, actions).trace);
  }

  /** The next step of the consumer loads a slot and the next step of the producer stores into it. */
  predicate SlotRace(s: System) {
    s.prod.PChecked? && s.cons.CChecked? && s.prod.tail == s.cons.head
  }

  /** No slot is ever about to be read while it is about to be written, and a value that
      has been read stays in its slot until the head has moved past it. */
  lemma NoSlotReadWhileWritten(capacity: nat, actions: seq<Action>)
    requires capacity >= 1
    ensures var s := Run(capacity, actions);
            !SlotRace(s) && (s.cons.CValueLoaded? ==> s.mem.buffer[s.cons.head] == s.cons.value)
  {
    EveryRunIsLinearizable(capacity, actions);
  }

  /** The theorem needs the single producer: two producers that both load the tail before
      either stores lose an accepted value.  Both calls answer true, one item is in the ring. */
  lemma TwoProducersLoseAnItem()
    ensures
      var m0 := Shared(0, 0, [0, 0, 0, 0]);
      var (m1, a1, _) := ProducerStep(m0, PIdle, 7);
      var (m2, b1, _) := ProducerStep(m1, PIdle, 8);
      var (m3, a2, _) := ProducerStep(m2, a1, 0);
      var (m4, b2, _) := ProducerStep(m3, b1, 0);
      var (m5, a3, _) := ProducerStep(m4, a2, 0);
      var (m6, b3, _) := ProducerStep(m5, b2, 0);
      var (m7, _, outA) := ProducerStep(m6, a3, 0);
      var (m8, _, outB) := ProducerStep(m7, b3, 0);
      outA == [EnqueueOk(7)] && outB == [EnqueueOk(8)] && Contents(m8) == [8]
  {
    var m8 := Shared(0, 1, [8, 0, 0, 0]);
    assert [0, 0, 0, 0][0 := 7][0 := 8] == [8, 0, 0, 0];
    assert Occupied(m8) == 1;
    assert Contents(m8) == [8];
  }

  // ---------------------------------------------------------------- the object itself

  /** The queue as an object, for calls that do not overlap. */
  class SimpleAtomicQueue {
    var head: nat
    var tail: nat
    const buffer: array<nat>
    const capacity: nat

    ghost predicate Valid()
      reads this, buffer
    {
      buffer.Length == capacity && if capacity == 0 then head == tail == 0 else Memory().InBounds()
    }

    ghost function Memory(): Shared
      reads this, buffer
    {
      Shared(head, tail, buffer[..])
    }

    /** What is queued; a ring without slots never holds anything. */
    ghost function Items(): seq<nat>
      requires Valid()
      reads this, buffer
    {
      if capacity == 0 then [] else Contents(Memory())
    }

    constructor (capacity: nat)
      ensures Valid() && fresh(buffer) && this.capacity == capacity && Items() == []
    {
      this.capacity := capacity;
      buffer := new nat[capacity](_ => 0);
      head, tail := 0, 0;
    }

    /** Accepted exactly when fewer than `capacity - 1` items are held; without slots the remainder by
        zero panics, which None stands for. */
    method TryEnqueue(value: nat) returns (r: Option<bool>)
      requires Valid()
      modifies this`tail, buffer
      ensures Valid()
      ensures r.None? <==> capacity == 0
      ensures r == Some(true) <==> |old(Items())| < capacity - 1
      ensures Items() == old(Items()) + if r == Some(true) then [value] else []
    {
      if capacity == 0 {
        return None;
      }
      var nextTail := (tail + 1) % capacity;
      NextIsRemainder(tail, capacity);
      FullExactlyWhen(Memory());
      if nextTail != head {
        StoreKeepsContents(Memory(), value);
        ghost var stored := Memory().(buffer := buffer[..][tail := value]);
        PublishAppends(stored, nextTail);
        buffer[tail] := value;
        assert Memory() == stored;
        tail := nextTail;
        r := Some(true);
      } else {
        r := Some(false);
      }
    }

    /** Takes the oldest item, or answers None exactly when there is none. */
    method TryDequeue() returns (r: Option<nat>)
      requires Valid()
      modifies this`head
      ensures Valid()
      ensures r.None? <==> old(Items()) == []
      ensures r.Some? ==> old(Items()) == [r.value] + Items()
      ensures r.None? ==> Memory() == old(Memory())
    {
      if head != tail {
        AdvanceDrops(Memory());
        NextIsRemainder(head, capacity);
        r := Some(buffer[head]);
        head := (head + 1) % capacity;
      } else {
        r := None;
      }
    }
  }
}
