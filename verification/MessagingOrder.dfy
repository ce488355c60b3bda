/** Deduplication, offline queues and delivery order on the message bus, over every run. */
module MessagingOrder {
  import opened Basics
  import opened Messaging

  // ---------------------------------------------------------------- deduplication

  /** Calls that passed the duplicate check with one id are a window apart. */
  predicate Spaced(marks: seq<(MsgId, nat)>, window: nat) {
    forall i, j :: 0 <= i < j < |marks| && marks[i].0 == marks[j].0 ==> marks[j].1 - marks[i].1 >= window
  }

  /** An id that passed the check is still remembered, or a window has gone by. */
  predicate Remembered(s: Bus, mark: (MsgId, nat), window: nat, clock: nat) {
    && mark.1 <= clock
    && ((mark.0 in s.seen && mark.1 <= s.seen[mark.0] <= clock) || clock - mark.1 >= window)
  }

  ghost predicate RemembersAll(cfg: Settings, s: Bus, clock: nat) {
    && (forall i :: 0 <= i < |s.log.marks| ==> Remembered(s, s.log.marks[i], cfg.window, clock))
    && (forall id :: id in s.seen ==> s.seen[id] <= clock)
  }

  ghost predicate DedupInv(cfg: Settings, s: Bus, clock: nat) {
    Spaced(s.log.marks, cfg.window) && RemembersAll(cfg, s, clock)
  }

  /** Marking keeps the memory, whether or not the id was remembered. */
  lemma MarkingRemembers(cfg: Settings, s: Bus, id: MsgId, clock: nat, at: Readings)
    requires RemembersAll(cfg, s, clock) && clock <= at.mark <= at.forget
    ensures RemembersAll(cfg, MarkSeen(cfg, s, id, at), at.forget)
  {
    var s' := MarkSeen(cfg, s, id, at);
    forall i | 0 <= i < |s'.log.marks| ensures Remembered(s', s'.log.marks[i], cfg.window, at.forget) {
      if i < |s.log.marks| {
        assert Remembered(s, s.log.marks[i], cfg.window, clock);
      }
    }
  }

  lemma MarkingKeepsDedup(cfg: Settings, s: Bus, id: MsgId, clock: nat, at: Readings)
    requires DedupInv(cfg, s, clock) && clock <= at.mark <= at.forget && id !in s.seen
    ensures DedupInv(cfg, MarkSeen(cfg, s, id, at), at.forget)
  {
    MarkingRemembers(cfg, s, id, clock, at);
    var s' := MarkSeen(cfg, s, id, at);
    forall i, j | 0 <= i < j < |s'.log.marks| && s'.log.marks[i].0 == s'.log.marks[j].0
      ensures s'.log.marks[j].1 - s'.log.marks[i].1 >= cfg.window
    {
      assert Remembered(s, s.log.marks[i], cfg.window, clock);
    }
  }

  lemma ClockKeepsMemory(cfg: Settings, s: Bus, s': Bus, clock: nat, now: nat)
    requires RemembersAll(cfg, s, clock) && clock <= now && s'.seen == s.seen && s'.log.marks == s.log.marks
    ensures RemembersAll(cfg, s', now)
  {
    forall i | 0 <= i < |s'.log.marks| ensures Remembered(s', s'.log.marks[i], cfg.window, now) {
      assert Remembered(s, s.log.marks[i], cfg.window, clock);
    }
  }

  /** Every call either marks the id of its message, which was not remembered, or leaves the
      deduplication state alone. */
  lemma StepMarksAtMostOnce(cfg: Settings, s: Bus, c: Call)
    ensures var s' := Step(cfg, s, c);
            || (s'.seen == s.seen && s'.log.marks == s.log.marks)
            || ((c.op.DoSend? || c.op.DoPublish?) && c.op.msg.id !in s.seen && Marked(cfg, s, c.op.msg.id, c.clock, s'))
  {
    match c.op
    case DoRegister(a) => RegisterFrame(s, a, c.clock.wall);
    case DoSend(m) => SendFrame(cfg, s, m, c.clock);
    case DoPublish(m) => PublishFrame(cfg, s, m, c.clock);
    case DoReceive(ch) => ReceiveFrame(s, ch);
    case DoDropMailbox(ch) => DropFrame(s, ch);
    case Quiet(op) => QuietFrame(s, op);
  }

  lemma {:induction false} RunKeepsDedup(cfg: Settings, calls: seq<Call>)
    requires ClockAscends(calls)
    ensures DedupInv(cfg, Run(cfg, calls), if calls == [] then 0 else calls[|calls| - 1].clock.forget)
  {
    if calls != [] {
      var k := |calls| - 1;
      RunKeepsDedup(cfg, calls[..k]);
      var s := Run(cfg, calls[..k]);
      var clock := if k == 0 then 0 else calls[k - 1].clock.forget;
      var c := calls[k];
      StepMarksAtMostOnce(cfg, s, c);
      var s' := Step(cfg, s, c);
      if s'.seen == s.seen && s'.log.marks == s.log.marks {
        ClockKeepsMemory(cfg, s, s', clock, c.clock.forget);
      } else {
        MarkingKeepsDedup(cfg, s, c.op.msg.id, clock, c.clock);
        ClockKeepsMemory(cfg, MarkSeen(cfg, s, c.op.msg.id, c.clock), s', c.clock.forget, c.clock.forget);
      }
    }
  }

  // ---------------------------------------------------------------- offline queues

  function QueueLimit(cfg: Settings): (n: nat)
    ensures n >= 1
  {
    if cfg.maxQueue == 0 then 1 else cfg.maxQueue
  }

  /** What was queued for the agent since the last drain. */
  function QueuedFor(s: Bus, a: AgentId): (es: seq<Envelope>) {
    if a in s.log.queued then s.log.queued[a] else []
  }

  /** Each offline queue holds the last messages queued since the last drain, and no agent has
      both a mailbox and a queue. */
  ghost predicate QueueInv(cfg: Settings, s: Bus) {
    && (forall a :: At(s, Offline(a)) == Last(QueuedFor(s, a), QueueLimit(cfg)))
    && (forall a :: a in s.mailboxes ==> Offline(a) !in s.at)
    && (forall a :: a in s.log.queued <==> Offline(a) in s.at)
  }

  lemma LastOfLonger<T>(xs: seq<T>, x: T, n: nat)
    requires n >= 1
    ensures var last := Last(xs, n); Last(xs + [x], n) == (if |last| >= n then last[1..] else last) + [x]
  {
  }

  lemma QueueingAppends(cfg: Settings, s: Bus, a: AgentId, m: Message)
    ensures var s', q := QueueOffline(cfg, s, a, m), At(s, Offline(a));
            && QueuedFor(s', a) == QueuedFor(s, a) + [Direct(s.log.next, m)]
            && At(s', Offline(a)) == (if |q| >= QueueLimit(cfg) then q[1..] else q) + [Direct(s.log.next, m)]
  {
  }

  lemma QueueingKeepsLast(cfg: Settings, s: Bus, a: AgentId, m: Message)
    requires At(s, Offline(a)) == Last(QueuedFor(s, a), QueueLimit(cfg))
    ensures var s' := QueueOffline(cfg, s, a, m);
            At(s', Offline(a)) == Last(QueuedFor(s', a), QueueLimit(cfg))
  {
    QueueingAppends(cfg, s, a, m);
    LastOfLonger(QueuedFor(s, a), Direct(s.log.next, m), QueueLimit(cfg));
  }

  lemma SameQueuesKeepInv(cfg: Settings, s: Bus, s': Bus)
    requires QueueInv(cfg, s) && SameQueues(s, s', None) && s'.mailboxes.Keys <= s.mailboxes.Keys
    ensures QueueInv(cfg, s')
  {
    assert forall b :: QueuedFor(s', b) == QueuedFor(s, b);
  }

  lemma OneQueueKeepsInv(cfg: Settings, s: Bus, s': Bus, a: AgentId)
    requires QueueInv(cfg, s) && SameQueues(s, s', Some(a)) && s'.mailboxes.Keys <= s.mailboxes.Keys + {a}
    requires At(s', Offline(a)) == Last(QueuedFor(s', a), QueueLimit(cfg))
    requires (a in s'.mailboxes ==> Offline(a) !in s'.at) && (a in s'.log.queued <==> Offline(a) in s'.at)
    ensures QueueInv(cfg, s')
  {
    assert forall b :: b != a ==> QueuedFor(s', b) == QueuedFor(s, b);
  }

  lemma QueueingKeepsQueueInv(cfg: Settings, s: Bus, a: AgentId, m: Message)
    requires QueueInv(cfg, s) && a !in s.mailboxes
    ensures QueueInv(cfg, QueueOffline(cfg, s, a, m))
  {
    QueueFrame(cfg, s, a, m);
    QueueingKeepsLast(cfg, s, a, m);
    OneQueueKeepsInv(cfg, s, QueueOffline(cfg, s, a, m), a);
  }

  lemma RespondKeepsQueueInv(cfg: Settings, s: Bus, m: Message, request: MsgId)
    requires QueueInv(cfg, s) && request in s.pending
    ensures QueueInv(cfg, Respond(s, m, request))
  {
    RespondFrame(s, m, request);
    SameQueuesKeepInv(cfg, s, Respond(s, m, request));
  }

  lemma RouteKeepsQueueInv(cfg: Settings, s: Bus, m: Message, a: AgentId)
    requires QueueInv(cfg, s)
    ensures QueueInv(cfg, Route(cfg, s, m, a).0)
  {
    if m.isResponse && m.correlation.Some? && m.correlation.value in s.pending {
      RespondKeepsQueueInv(cfg, s, m, m.correlation.value);
    } else if a in s.mailboxes {
      RouteFrame(cfg, s, m, a);
      SameQueuesKeepInv(cfg, s, Route(cfg, s, m, a).0);
    } else {
      QueueingKeepsQueueInv(cfg, s, a, m);
    }
  }

  lemma SendKeepsQueueInv(cfg: Settings, s: Bus, m: Message, clock: Readings)
    requires QueueInv(cfg, s)
    ensures QueueInv(cfg, Send(cfg, s, m, clock).0)
  {
    if m.id !in s.seen {
      var s1 := MarkSeen(cfg, s, m.id, clock);
      SameQueuesKeepInv(cfg, s, s1);
      if m.recipient.Some? {
        RouteKeepsQueueInv(cfg, s1, m, m.recipient.value);
      }
    }
  }

  lemma RegisterKeepsQueueInv(cfg: Settings, s: Bus, a: AgentId, wall: nat -> nat)
    requires QueueInv(cfg, s)
    ensures QueueInv(cfg, Register(s, a, wall))
  {
    RegisterFrame(s, a, wall);
    OneQueueKeepsInv(cfg, s, Register(s, a, wall), a);
  }

  /** The other calls queue nothing. */
  lemma OthersKeepQueues(cfg: Settings, s: Bus, c: Call)
    requires !c.op.DoRegister? && !c.op.DoSend?
    ensures SameQueues(s, Step(cfg, s, c), None) && Step(cfg, s, c).mailboxes.Keys <= s.mailboxes.Keys
  {
    match c.op
    case DoPublish(m) => PublishFrame(cfg, s, m, c.clock);
    case DoReceive(ch) => ReceiveFrame(s, ch);
    case DoDropMailbox(ch) => DropFrame(s, ch);
    case Quiet(op) => QuietFrame(s, op);
  }

  lemma StepKeepsQueueInv(cfg: Settings, s: Bus, c: Call)
    requires QueueInv(cfg, s)
    ensures QueueInv(cfg, Step(cfg, s, c))
  {
    if c.op.DoRegister? {
      RegisterKeepsQueueInv(cfg, s, c.op.agent, c.clock.wall);
    } else if c.op.DoSend? {
      SendKeepsQueueInv(cfg, s, c.op.msg, c.clock);
    } else {
      OthersKeepQueues(cfg, s, c);
      SameQueuesKeepInv(cfg, s, Step(cfg, s, c));
    }
  }

  lemma {:induction false} RunKeepsQueueInv(cfg: Settings, calls: seq<Call>)
    ensures QueueInv(cfg, Run(cfg, calls))
  {
    if calls != [] {
      RunKeepsQueueInv(cfg, calls[..|calls| - 1]);
      StepKeepsQueueInv(cfg, Run(cfg, calls[..|calls| - 1]), calls[|calls| - 1]);
    }
  }

  // ---------------------------------------------------------------- draining at register

  /** The messages not expired when `register` looks at them, which is at `wall(k)` with `k` of them
      still to be looked at. */
  function Unexpired(es: seq<Envelope>, wall: nat -> nat): (r: seq<Envelope>)
    ensures |r| <= |es|
  {
    if es == [] then []
    else if es[0].msg.Expired(wall(|es|)) then Unexpired(es[1..], wall)
    else [es[0]] + Unexpired(es[1..], wall)
  }

  /** What the drain loop makes of the channel's buffer. */
  function Filled(buffer: seq<Envelope>, queue: seq<Envelope>, wall: nat -> nat, capacity: nat): (r: seq<Envelope>)
    decreases |queue|
  {
    if queue == [] then buffer
    else if queue[0].msg.Expired(wall(|queue|)) || |buffer| >= capacity then Filled(buffer, queue[1..], wall, capacity)
    else Filled(buffer + [queue[0]], queue[1..], wall, capacity)
  }

  lemma FirstCons<T>(x: T, xs: seq<T>, n: nat)
    requires n > 0
    ensures First([x] + xs, n) == [x] + First(xs, n - 1)
  {
  }

  lemma {:induction false} FilledIsAppended(buffer: seq<Envelope>, queue: seq<Envelope>, wall: nat -> nat, capacity: nat)
    requires |buffer| <= capacity
    ensures Filled(buffer, queue, wall, capacity) == buffer + First(Unexpired(queue, wall), capacity - |buffer|)
    decreases |queue|
  {
    var room := capacity - |buffer|;
    if queue == [] {
      assert First(Unexpired(queue, wall), room) == [];
    } else {
      var x, rest := queue[0], queue[1..];
      if x.msg.Expired(wall(|queue|)) {
        FilledIsAppended(buffer, rest, wall, capacity);
      } else if room == 0 {
        FilledIsAppended(buffer, rest, wall, capacity);
        assert First(Unexpired(queue, wall), room) == [] == First(Unexpired(rest, wall), room);
      } else {
        FilledIsAppended(buffer + [x], rest, wall, capacity);
        FirstCons(x, Unexpired(rest, wall), room);
        Regroup(buffer, x, First(Unexpired(rest, wall), room - 1));
      }
    }
  }

  lemma Regroup<T>(xs: seq<T>, y: T, zs: seq<T>)
    ensures xs + [y] + zs == xs + ([y] + zs)
  {
  }

  lemma MoveShifts(s: Bus, p: Place, q: Place, r: Place)
    requires At(s, p) != [] && p != q
    ensures At(Move(s, p, q), r) ==
              if r == p then At(s, p)[1..] else if r == q then At(s, q) + [At(s, p)[0]] else At(s, r)
    ensures SameOutsideStore(s, Move(s, p, q))
  {
  }

  /** Draining into an open mailbox appends the unexpired messages, in order, up to the capacity
      of the channel. */
  lemma {:induction false} DrainFills(s: Bus, a: AgentId, wall: nat -> nat)
    requires a in s.mailboxes && s.mailboxes[a] in s.open
    ensures var b := Buffer(s.mailboxes[a]);
            At(Drain(s, a, wall), b) == Filled(At(s, b), At(s, Offline(a)), wall, CHANNEL_CAPACITY)
    decreases |At(s, Offline(a))|
  {
    var q := Offline(a);
    var b := Buffer(s.mailboxes[a]);
    if At(s, q) != [] {
      var now := wall(|At(s, q)|);
      var fate := Fate(s, a, At(s, q)[0], now);
      MoveShifts(s, q, fate, q);
      MoveShifts(s, q, fate, b);
      DrainFills(DrainOne(s, a, now), a, wall);
    }
  }

  // ---------------------------------------------------------------- delivery order

  /** What one receiver has been given so far, in order. */
  function Stream(s: Bus, ch: ChanId): (es: seq<Envelope>) {
    At(s, Received(ch)) + At(s, Buffer(ch))
  }

  lemma PrefixOfConcat<T>(xs: seq<T>, ys: seq<T>, zs: seq<T>)
    requires ys <= zs
    ensures xs + ys <= xs + zs
  {
  }

  lemma GrowingExtendsStream(s: Bus, s': Bus, ch: ChanId)
    requires BuffersGrow(s, s')
    ensures Stream(s, ch) <= Stream(s', ch)
  {
    PrefixOfConcat(At(s, Received(ch)), At(s, Buffer(ch)), At(s', Buffer(ch)));
  }

  /** No call reorders, duplicates or removes anything a receiver was given; only dropping the
      receiver itself discards what it had not read. */
  lemma StepExtendsStream(cfg: Settings, s: Bus, c: Call, ch: ChanId)
    requires c.op != DoDropMailbox(ch)
    ensures Stream(s, ch) <= Stream(Step(cfg, s, c), ch)
  {
    match c.op
    case DoRegister(a) =>
      RegisterFrame(s, a, c.clock.wall);
      GrowingExtendsStream(s, Register(s, a, c.clock.wall), ch);
    case DoSend(m) =>
      SendFrame(cfg, s, m, c.clock);
      GrowingExtendsStream(s, Send(cfg, s, m, c.clock).0, ch);
    case DoPublish(m) =>
      PublishFrame(cfg, s, m, c.clock);
      GrowingExtendsStream(s, Publish(cfg, s, m, c.clock).0, ch);
    case DoReceive(other) => ReceiveShifts(s, other, ch);
    case DoDropMailbox(other) => DropFrame(s, other);
    case Quiet(op) => QuietFrame(s, op);
  }

  // ---------------------------------------------------------------- main results

  /** With a clock that does not run back, two calls that pass the duplicate check with one
      message id, in particular two accepted sends, are at least the window apart. */
  lemma AcceptedIdsAreSpaced(cfg: Settings, calls: seq<Call>)
    requires ClockAscends(calls)
    ensures Spaced(Run(cfg, calls).log.marks, cfg.window)
  {
    RunKeepsDedup(cfg, calls);
  }

  /** No mailbox leads to the channel and nothing was ever put into it. */
  predicate Untouched(s: Bus, ch: ChanId) {
    At(s, Buffer(ch)) == [] && ch !in s.open && forall a :: a in s.mailboxes ==> s.mailboxes[a] != ch
  }

  lemma StepKeepsUntouched(cfg: Settings, s: Bus, c: Call, ch: ChanId)
    requires Untouched(s, ch) && ch >= Step(cfg, s, c).nextChan && ch >= s.nextChan
    ensures Untouched(Step(cfg, s, c), ch)
  {
    match c.op
    case DoRegister(a) => RegisterKeepsUntouched(s, a, c.clock.wall, ch);
    case DoSend(m) => SendKeepsUntouched(cfg, s, m, c.clock, ch);
    case DoPublish(m) => PublishKeepsUntouched(cfg, s, m, c.clock, ch);
    case DoReceive(other) => ReceiveKeepsUntouched(s, other, ch);
    case DoDropMailbox(other) => DropKeepsUntouched(s, other, ch);
    case Quiet(op) => QuietFrame(s, op);
  }

  lemma ReceiveKeepsUntouched(s: Bus, other: ChanId, ch: ChanId)
    requires Untouched(s, ch)
    ensures Untouched(Receive(s, other), ch)
  {
    ReceiveFrame(s, other);
  }

  lemma DropKeepsUntouched(s: Bus, other: ChanId, ch: ChanId)
    requires Untouched(s, ch)
    ensures Untouched(DropMailbox(s, other), ch)
  {
    DropFrame(s, other);
  }

  lemma RegisterKeepsUntouched(s: Bus, a: AgentId, wall: nat -> nat, ch: ChanId)
    requires Untouched(s, ch) && ch >= Register(s, a, wall).nextChan
    ensures Untouched(Register(s, a, wall), ch)
  {
    RegisterFrame(s, a, wall);
    GrowingKeepsUntouched(s, Register(s, a, wall), ch);
  }

  lemma SendKeepsUntouched(cfg: Settings, s: Bus, m: Message, clock: Readings, ch: ChanId)
    requires Untouched(s, ch)
    ensures Untouched(Send(cfg, s, m, clock).0, ch)
  {
    SendFrame(cfg, s, m, clock);
    GrowingKeepsUntouched(s, Send(cfg, s, m, clock).0, ch);
  }

  lemma PublishKeepsUntouched(cfg: Settings, s: Bus, m: Message, clock: Readings, ch: ChanId)
    requires Untouched(s, ch)
    ensures Untouched(Publish(cfg, s, m, clock).0, ch)
  {
    PublishFrame(cfg, s, m, clock);
    GrowingKeepsUntouched(s, Publish(cfg, s, m, clock).0, ch);
  }

  lemma GrowingKeepsUntouched(s: Bus, s': Bus, ch: ChanId)
    requires Untouched(s, ch) && BuffersGrow(s, s') && ch !in s'.open
    requires forall a :: a in s'.mailboxes ==> s'.mailboxes[a] != ch
    ensures Untouched(s', ch)
  {
  }

  lemma StepCountsChannels(cfg: Settings, s: Bus, c: Call)
    ensures Step(cfg, s, c).nextChan >= s.nextChan
  {
    match c.op
    case DoRegister(a) => RegisterFrame(s, a, c.clock.wall);
    case DoSend(m) => SendFrame(cfg, s, m, c.clock);
    case DoPublish(m) => PublishFrame(cfg, s, m, c.clock);
    case DoReceive(ch) => ReceiveFrame(s, ch);
    case DoDropMailbox(ch) => DropFrame(s, ch);
    case Quiet(op) => QuietFrame(s, op);
  }

  /** A channel not handed out yet is empty. */
  lemma {:induction false} FreshChannelsAreUntouched(cfg: Settings, calls: seq<Call>, ch: ChanId)
    requires ch >= Run(cfg, calls).nextChan
    ensures Untouched(Run(cfg, calls), ch)
  {
    if calls != [] {
      var k := |calls| - 1;
      var s := Run(cfg, calls[..k]);
      StepCountsChannels(cfg, s, calls[k]);
      FreshChannelsAreUntouched(cfg, calls[..k], ch);
      StepKeepsUntouched(cfg, s, calls[k], ch);
    }
  }

  /** In every reachable state an offline queue holds, in order, the last max(1, limit) messages
      queued since the last drain, an agent with a mailbox has no queue, and registering gives the
      new mailbox exactly the first 256 unexpired ones in order. */
  lemma OfflineQueueContract(cfg: Settings, calls: seq<Call>, a: AgentId, wall: nat -> nat)
    ensures var s := Run(cfg, calls);
            && At(s, Offline(a)) == Last(QueuedFor(s, a), QueueLimit(cfg))
            && (a in s.mailboxes ==> Offline(a) !in s.at)
            && var s' := Register(s, a, wall);
               && a in s'.mailboxes && Offline(a) !in s'.at
               && At(s', Buffer(s'.mailboxes[a])) == First(Unexpired(At(s, Offline(a)), wall), CHANNEL_CAPACITY)
  {
    RunKeepsQueueInv(cfg, calls);
    var s := Run(cfg, calls);
    FreshChannelsAreUntouched(cfg, calls, s.nextChan);
    RegisterFrame(s, a, wall);
    RegisterFills(s, a, wall);
  }

  lemma RegisterFills(s: Bus, a: AgentId, wall: nat -> nat)
    requires At(s, Buffer(s.nextChan)) == []
    ensures At(Register(s, a, wall), Buffer(s.nextChan)) == First(Unexpired(At(s, Offline(a)), wall), CHANNEL_CAPACITY)
  {
    var s1 := InsertMailbox(s, a);
    assert At(s1, Buffer(s.nextChan)) == [] && At(s1, Offline(a)) == At(s, Offline(a));
    DrainFills(s1, a, wall);
    FilledIsAppended([], At(s, Offline(a)), wall, CHANNEL_CAPACITY);
  }
}
