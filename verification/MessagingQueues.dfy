/** The offline queues at the granularity of the locks: what a queue holds while other threads send,
    register and drain, and the order in which what waited in it is delivered. */
module MessagingQueues {
  import opened Basics
  import opened Messaging
  import opened MessagingAddressing
  import opened MessagingOrder
  import opened T = MessagingThreads

  // ---------------------------------------------------------------- main results

  /** A drain of the agent's queue is under way. */
  ghost predicate BeingDrained(s: System, a: AgentId) { exists t: Tid :: s.At(t) == Filling(a) }

  /** Under every interleaving, a queue that is not being drained holds, in order, the last max(1, limit)
      messages queued since the last drain, and one that is holds the end of that: the oldest go first,
      and nothing is queued meanwhile. */
  lemma QueuesHoldTheLast(cfg: Settings, actions: seq<Action>, a: AgentId)
    requires LegalRun(cfg, actions)
    ensures var s := T.Run(cfg, actions);
            && IsSuffix(At(s.bus, Offline(a)), Last(QueuedFor(s.bus, a), QueueLimit(cfg)))
            && (!BeingDrained(s, a) ==> At(s.bus, Offline(a)) == Last(QueuedFor(s.bus, a), QueueLimit(cfg)))
  {
    RunKeepsContract(cfg, actions);
    var s := T.Run(cfg, actions);
    assert Holds(cfg, s, a);
  }

  /** Under every interleaving, each receiver is given the messages that waited in a queue in the order in
      which they were queued, whoever drained them and whatever came in between. */
  lemma QueuedArriveInOrder(cfg: Settings, actions: seq<Action>, ch: ChanId)
    requires LegalRun(cfg, actions)
    ensures Ascending(T.Run(cfg, actions).lookedUpAt, Stream(T.Run(cfg, actions).bus, ch))
  {
    RunKeepsOrder(cfg, actions);
    T.RunKeepsInv(cfg, actions);
    StreamAscends(T.Run(cfg, actions), ch);
  }

  // ---------------------------------------------------------------- what a queue holds

  ghost predicate Holds(cfg: Settings, s: System, a: AgentId) {
    var last := Last(QueuedFor(s.bus, a), QueueLimit(cfg));
    && IsSuffix(At(s.bus, Offline(a)), last)
    && (BeingDrained(s, a) || At(s.bus, Offline(a)) == last)
  }

  /** A drain holds the lock of the queues. */
  ghost predicate Exclusive(s: System) {
    forall t: Tid :: s.At(t).Draining? || s.At(t).Filling? ==> s.queuesLock == Some(t)
  }

  ghost predicate Contract(cfg: Settings, s: System) {
    Exclusive(s) && forall a: AgentId :: Holds(cfg, s, a)
  }

  /** Neither queues nor drains have changed, but for one agent's. */
  ghost predicate SameDrains(s: System, s': System, except: Option<AgentId>) {
    forall b: AgentId :: except != Some(b) ==>
      && At(s'.bus, Offline(b)) == At(s.bus, Offline(b)) && QueuedFor(s'.bus, b) == QueuedFor(s.bus, b)
      && (BeingDrained(s', b) <==> BeingDrained(s, b))
  }

  lemma FrameKeepsHolds(cfg: Settings, s: System, s': System, except: Option<AgentId>, a: AgentId)
    requires Holds(cfg, s, a) && SameDrains(s, s', except) && except != Some(a)
    ensures Holds(cfg, s', a)
  {
  }

  lemma FrameKeepsContract(cfg: Settings, s: System, s': System, except: Option<AgentId>)
    requires Contract(cfg, s) && SameDrains(s, s', except) && Exclusive(s')
    requires except.Some? ==> Holds(cfg, s', except.value)
    ensures Contract(cfg, s')
  {
    forall a: AgentId ensures Holds(cfg, s', a) {
      if except != Some(a) {
        FrameKeepsHolds(cfg, s, s', except, a);
      }
    }
  }

  /** A step of one thread that neither begins nor ends a drain. */
  lemma OneThreadKeepsDrains(s: System, s': System, t: Tid)
    requires forall u: Tid :: u != t ==> s'.At(u) == s.At(u)
    requires s'.At(t) == s.At(t) || (!s.At(t).Filling? && !s'.At(t).Filling?)
    ensures forall b: AgentId :: BeingDrained(s', b) <==> BeingDrained(s, b)
  {
    forall b: AgentId ensures BeingDrained(s', b) <==> BeingDrained(s, b) {
      if BeingDrained(s, b) {
        var u: Tid :| s.At(u) == Filling(b);
        assert s'.At(u) == Filling(b);
      }
      if BeingDrained(s', b) {
        var u: Tid :| s'.At(u) == Filling(b);
        assert s.At(u) == Filling(b);
      }
    }
  }

  lemma EnqueueKeepsContract(cfg: Settings, s: System, t: Tid)
    requires Contract(cfg, s) && CanSend(s, s.At(t), Enqueue)
    ensures Contract(cfg, ApplySend(cfg, s, t, Enqueue))
  {
    var s', a := ApplySend(cfg, s, t, Enqueue), s.At(t).to;
    OneThreadKeepsDrains(s, s', t);
    assert Holds(cfg, s, a) && !BeingDrained(s, a);
    QueueFrame(cfg, s.bus, a, s.At(t).msg);
    QueueingKeepsLast(cfg, s.bus, a, s.At(t).msg);
    FrameKeepsContract(cfg, s, s', Some(a));
  }

  lemma SendKeepsContract(cfg: Settings, s: System, t: Tid, a: SendStep)
    requires Contract(cfg, s) && CanSend(s, s.At(t), a)
    ensures Contract(cfg, ApplySend(cfg, s, t, a))
  {
    if a.Enqueue? {
      EnqueueKeepsContract(cfg, s, t);
    } else {
      var s' := ApplySend(cfg, s, t, a);
      OneThreadKeepsDrains(s, s', t);
      SendKeepsQueues(cfg, s, t, a);
      FrameKeepsContract(cfg, s, s', None);
    }
  }

  lemma SendKeepsQueues(cfg: Settings, s: System, t: Tid, a: SendStep)
    requires CanSend(s, s.At(t), a) && !a.Enqueue?
    ensures SameQueues(s.bus, ApplySend(cfg, s, t, a).bus, None)
  {
    if a.TryRespond? {
      RespondFrameOf(s, t, a.wall);
    } else if a.Lookup? {
      LookupFrameOf(s, t);
    }
  }

  lemma PublishKeepsContract(cfg: Settings, s: System, t: Tid, a: PublishStep)
    requires Contract(cfg, s) && CanPublish(s.At(t), a)
    ensures Contract(cfg, ApplyPublish(s, t, a))
  {
    var s' := ApplyPublish(s, t, a);
    OneThreadKeepsDrains(s, s', t);
    if a.CopyNext? {
      FanOneFrame(s.bus, s.At(t).rest[0], s.At(t).msg);
    }
    FrameKeepsContract(cfg, s, s', None);
  }

  /** The queue of an agent that loses its mailbox before the drain goes altogether. */
  lemma DiscardKeepsContract(cfg: Settings, s: System, t: Tid)
    requires Contract(cfg, s) && s.At(t).Draining? && s.At(t).agent !in s.bus.mailboxes
    ensures Contract(cfg, ApplyReadMailboxes(s, t))
  {
    var s', a := ApplyReadMailboxes(s, t), s.At(t).agent;
    DrainFrame(s.bus, a, _ => 0);
    OneThreadKeepsDrains(s, s', t);
    FrameKeepsContract(cfg, s, s', Some(a));
  }

  lemma BeginKeepsContract(cfg: Settings, s: System, t: Tid)
    requires Contract(cfg, s) && s.At(t).Draining? && s.At(t).agent in s.bus.mailboxes
    ensures Contract(cfg, ApplyReadMailboxes(s, t))
  {
    var s', a := ApplyReadMailboxes(s, t), s.At(t).agent;
    assert s'.At(t) == Filling(a) && Holds(cfg, s, a);
    OtherDrains(s, s', t, a);
    FrameKeepsContract(cfg, s, s', Some(a));
  }

  /** The drains of other agents go on. */
  lemma OtherDrains(s: System, s': System, t: Tid, a: AgentId)
    requires forall u: Tid :: u != t ==> s'.At(u) == s.At(u)
    requires (s.At(t).Filling? ==> s.At(t).agent == a) && (s'.At(t).Filling? ==> s'.At(t).agent == a)
    ensures forall b: AgentId :: b != a ==> (BeingDrained(s', b) <==> BeingDrained(s, b))
  {
    forall b: AgentId | b != a ensures BeingDrained(s', b) <==> BeingDrained(s, b) {
      if BeingDrained(s, b) {
        var u: Tid :| s.At(u) == Filling(b);
        assert s'.At(u) == Filling(b);
      }
      if BeingDrained(s', b) {
        var u: Tid :| s'.At(u) == Filling(b);
        assert s.At(u) == Filling(b);
      }
    }
  }

  lemma RestIsSuffix<T>(ys: seq<T>, xs: seq<T>)
    requires IsSuffix(ys, xs) && ys != []
    ensures IsSuffix(ys[1..], xs)
  {
  }

  /** The oldest message leaves the queue, and nothing is recorded as queued. */
  lemma DrainOneTakesTheOldest(bus: Bus, a: AgentId, wall: nat)
    requires At(bus, Offline(a)) != []
    ensures var bus' := DrainOne(bus, a, wall);
            && At(bus', Offline(a)) == At(bus, Offline(a))[1..]
            && (forall b: AgentId :: b != a ==> At(bus', Offline(b)) == At(bus, Offline(b)))
            && (forall b: AgentId :: QueuedFor(bus', b) == QueuedFor(bus, b))
  {
  }

  lemma FillKeepsHolds(cfg: Settings, s: System, t: Tid, wall: nat)
    requires Contract(cfg, s) && CanRegister(s, s.At(t), FillNext(wall))
    ensures Holds(cfg, ApplyRegister(s, t, FillNext(wall)), s.At(t).agent)
  {
    var s', a := ApplyRegister(s, t, FillNext(wall)), s.At(t).agent;
    assert Holds(cfg, s, a);
    DrainOneTakesTheOldest(s.bus, a, wall);
    RestIsSuffix(At(s.bus, Offline(a)), Last(QueuedFor(s.bus, a), QueueLimit(cfg)));
    assert s'.At(t) == Filling(a);
  }

  lemma FillKeepsContract(cfg: Settings, s: System, t: Tid, wall: nat)
    requires Contract(cfg, s) && CanRegister(s, s.At(t), FillNext(wall))
    ensures Contract(cfg, ApplyRegister(s, t, FillNext(wall)))
  {
    var s', a := ApplyRegister(s, t, FillNext(wall)), s.At(t).agent;
    FillKeepsHolds(cfg, s, t, wall);
    DrainOneTakesTheOldest(s.bus, a, wall);
    OneThreadKeepsDrains(s, s', t);
    FrameKeepsContract(cfg, s, s', Some(a));
  }

  lemma EndKeepsContract(cfg: Settings, s: System, t: Tid)
    requires Contract(cfg, s) && CanRegister(s, s.At(t), EndFill)
    ensures Contract(cfg, ApplyRegister(s, t, EndFill))
  {
    var s', a := ApplyRegister(s, t, EndFill), s.At(t).agent;
    OtherDrains(s, s', t, a);
    FrameKeepsContract(cfg, s, s', Some(a));
  }

  lemma RegisterKeepsContract(cfg: Settings, s: System, t: Tid, a: RegisterStep)
    requires Contract(cfg, s) && CanRegister(s, s.At(t), a)
    ensures Contract(cfg, ApplyRegister(s, t, a))
  {
    if a.ReadMailboxes? {
      if s.At(t).agent in s.bus.mailboxes {
        BeginKeepsContract(cfg, s, t);
      } else {
        DiscardKeepsContract(cfg, s, t);
      }
    } else if a.FillNext? {
      FillKeepsContract(cfg, s, t, a.wall);
    } else if a.EndFill? {
      EndKeepsContract(cfg, s, t);
    } else {
      var s' := ApplyRegister(s, t, a);
      OneThreadKeepsDrains(s, s', t);
      FrameKeepsContract(cfg, s, s', None);
    }
  }

  lemma StepKeepsContract(cfg: Settings, s: System, a: Action)
    requires Contract(cfg, s) && Enabled(s, a)
    ensures Contract(cfg, Apply(cfg, s, a))
  {
    match a
    case Sending(t, send) => SendKeepsContract(cfg, s, t, send);
    case Publishing(t, publish) => PublishKeepsContract(cfg, s, t, publish);
    case Registering(t, register) => RegisterKeepsContract(cfg, s, t, register);
    case Other(other) =>
      var s' := Apply(cfg, s, a);
      OtherFrame(s.bus, other);
      OneThreadKeepsDrains(s, s', 0);
      FrameKeepsContract(cfg, s, s', None);
  }

  lemma {:induction false} RunKeepsContract(cfg: Settings, actions: seq<Action>)
    requires LegalRun(cfg, actions)
    ensures Contract(cfg, T.Run(cfg, actions))
  {
    if actions != [] {
      var k := |actions| - 1;
      RunKeepsContract(cfg, actions[..k]);
      StepKeepsContract(cfg, T.Run(cfg, actions[..k]), actions[k]);
    }
  }

  // ---------------------------------------------------------------- the order of delivery

  /** The envelope came through an offline queue. */
  predicate Waited(lookedUpAt: map<Token, nat>, e: Envelope) { e.Direct? && e.token in lookedUpAt }

  /** Those that waited stand in the order of their tokens, which is the order in which they were queued. */
  predicate Ascending(lookedUpAt: map<Token, nat>, es: seq<Envelope>) {
    forall i, j :: 0 <= i < j < |es| && Waited(lookedUpAt, es[i]) && Waited(lookedUpAt, es[j]) ==>
      es[i].token < es[j].token
  }

  lemma PartAscends(lookedUpAt: map<Token, nat>, xs: seq<Envelope>, ys: seq<Envelope>, zs: seq<Envelope>)
    requires Ascending(lookedUpAt, xs + ys + zs)
    ensures Ascending(lookedUpAt, xs + zs)
  {
    var all, part := xs + ys + zs, xs + zs;
    forall i, j | 0 <= i < j < |part| && Waited(lookedUpAt, part[i]) && Waited(lookedUpAt, part[j])
      ensures part[i].token < part[j].token
    {
      var i', j' := if i < |xs| then i else i + |ys|, if j < |xs| then j else j + |ys|;
      assert part[i] == all[i'] && part[j] == all[j'];
    }
  }

  lemma AroundAscends(lookedUpAt: map<Token, nat>, xs: seq<Envelope>, e: Envelope, zs: seq<Envelope>)
    requires Ascending(lookedUpAt, xs + zs) && !Waited(lookedUpAt, e)
    ensures Ascending(lookedUpAt, xs + [e] + zs)
  {
    var all, part := xs + [e] + zs, xs + zs;
    forall i, j | 0 <= i < j < |all| && Waited(lookedUpAt, all[i]) && Waited(lookedUpAt, all[j])
      ensures all[i].token < all[j].token
    {
      var i', j' := if i < |xs| then i else i - 1, if j < |xs| then j else j - 1;
      assert i != |xs| && j != |xs|;
      assert all[i] == part[i'] && all[j] == part[j'];
    }
  }

  predicate Below(es: seq<Envelope>, t: Token) {
    forall i :: 0 <= i < |es| && es[i].Direct? ==> es[i].token < t
  }

  /** A new token is the greatest, and only its own envelope changes by it. */
  lemma LongerAscends(lookedUpAt: map<Token, nat>, es: seq<Envelope>, e: Envelope, when: nat)
    requires Ascending(lookedUpAt, es) && e.Direct? && Below(es, e.token)
    ensures Ascending(lookedUpAt[e.token := when], es) && Ascending(lookedUpAt[e.token := when], es + [e])
  {
    var known := lookedUpAt[e.token := when];
    assert forall i :: 0 <= i < |es| ==> (Waited(known, es[i]) <==> Waited(lookedUpAt, es[i]));
  }

  /** What a receiver was given, and then what waits for its agent. */
  function Line(bus: Bus, ch: ChanId): (es: seq<Envelope>)
    requires ch in bus.log.owner
  {
    Stream(bus, ch) + At(bus, Offline(bus.log.owner[ch]))
  }

  ghost predicate QueueAscends(s: System, a: AgentId) { Ascending(s.lookedUpAt, At(s.bus, Offline(a))) }

  ghost predicate LineAscends(s: System, ch: ChanId)
    requires ch in s.bus.log.owner
  {
    Ascending(s.lookedUpAt, Line(s.bus, ch))
  }

  ghost predicate InOrder(s: System) {
    && (forall a: AgentId :: QueueAscends(s, a))
    && (forall ch :: ch in s.bus.log.owner ==> LineAscends(s, ch))
    && (forall k :: k in s.lookedUpAt ==> k < s.bus.log.next)
  }

  /** Nobody was given a message in a channel without an owner. */
  lemma StreamAscends(s: System, ch: ChanId)
    requires InOrder(s) && Addressed(s.bus)
    ensures Ascending(s.lookedUpAt, Stream(s.bus, ch))
  {
    var given := Stream(s.bus, ch);
    if ch in s.bus.log.owner {
      assert LineAscends(s, ch);
      var waiting := At(s.bus, Offline(s.bus.log.owner[ch]));
      assert given + waiting + [] == Line(s.bus, ch) && given + [] == given;
      PartAscends(s.lookedUpAt, given, waiting, []);
    } else {
      OwnerlessIsEmpty(s.bus, ch);
    }
  }

  lemma OwnerlessIsEmpty(bus: Bus, ch: ChanId)
    requires Addressed(bus) && ch !in bus.log.owner
    ensures forall i :: 0 <= i < |Stream(bus, ch)| ==> !Stream(bus, ch)[i].Direct?
  {
    forall i | 0 <= i < |Stream(bus, ch)| ensures !Stream(bus, ch)[i].Direct? {
      var e := Stream(bus, ch)[i];
      assert e in At(bus, Received(ch)) || e in At(bus, Buffer(ch));
      assert e.Direct? ==> !Proper(bus.log, Received(ch), e) && !Proper(bus.log, Buffer(ch), e);
    }
  }

  lemma TokensAreKnown(bus: Bus, p: Place, i: nat)
    requires Addressed(bus) && i < |At(bus, p)| && At(bus, p)[i].Direct?
    ensures At(bus, p)[i].token < bus.log.next
  {
    var e := At(bus, p)[i];
    assert e in At(bus, p) && Proper(bus.log, p, e);
  }

  lemma LineTokensAreKnown(bus: Bus, ch: ChanId)
    requires Addressed(bus) && ch in bus.log.owner
    ensures Below(Line(bus, ch), bus.log.next)
  {
    var received, buffer, q := At(bus, Received(ch)), At(bus, Buffer(ch)), Offline(bus.log.owner[ch]);
    forall i | 0 <= i < |Line(bus, ch)| && Line(bus, ch)[i].Direct? ensures Line(bus, ch)[i].token < bus.log.next {
      if i < |received| {
        TokensAreKnown(bus, Received(ch), i);
      } else if i < |received| + |buffer| {
        TokensAreKnown(bus, Buffer(ch), i - |received|);
      } else {
        TokensAreKnown(bus, q, i - |received| - |buffer|);
      }
    }
  }

  // ---------------------------------------------------------------- each step

  /** Streams, queues and owners are as they were. */
  ghost predicate Calm(s: System, s': System) {
    && (forall ch :: Stream(s'.bus, ch) == Stream(s.bus, ch))
    && (forall a: AgentId :: At(s'.bus, Offline(a)) == At(s.bus, Offline(a)))
    && s'.bus.log.owner == s.bus.log.owner && s'.bus.log.next >= s.bus.log.next && s'.lookedUpAt == s.lookedUpAt
  }

  lemma CalmKeepsOrder(s: System, s': System)
    requires InOrder(s) && Calm(s, s')
    ensures InOrder(s')
  {
    forall a: AgentId ensures QueueAscends(s', a) {
      assert QueueAscends(s, a);
    }
    forall ch | ch in s'.bus.log.owner ensures LineAscends(s', ch) {
      assert LineAscends(s, ch);
    }
  }

  /** One more envelope that did not wait, in one channel. */
  lemma DeliveryKeepsOrder(s: System, s': System, to: ChanId, e: Envelope)
    requires InOrder(s) && !Waited(s.lookedUpAt, e)
    requires Stream(s'.bus, to) == Stream(s.bus, to) + [e]
    requires forall ch :: ch != to ==> Stream(s'.bus, ch) == Stream(s.bus, ch)
    requires forall a: AgentId :: At(s'.bus, Offline(a)) == At(s.bus, Offline(a))
    requires s'.bus.log.owner == s.bus.log.owner && s'.bus.log.next >= s.bus.log.next && s'.lookedUpAt == s.lookedUpAt
    ensures InOrder(s')
  {
    forall a: AgentId ensures QueueAscends(s', a) {
      assert QueueAscends(s, a);
    }
    forall ch | ch in s'.bus.log.owner ensures LineAscends(s', ch) {
      assert LineAscends(s, ch);
      if ch == to {
        AroundAscends(s.lookedUpAt, Stream(s.bus, ch), e, At(s.bus, Offline(s.bus.log.owner[ch])));
      }
    }
  }

  lemma BackAscends(lookedUpAt: map<Token, nat>, front: seq<Envelope>, rest: seq<Envelope>)
    requires Ascending(lookedUpAt, front + rest)
    ensures Ascending(lookedUpAt, rest)
  {
    assert [] + front + rest == front + rest && [] + rest == rest;
    PartAscends(lookedUpAt, [], front, rest);
  }

  lemma ShorterLineAscends(lookedUpAt: map<Token, nat>, given: seq<Envelope>, front: seq<Envelope>, rest: seq<Envelope>)
    requires Ascending(lookedUpAt, given + (front + rest))
    ensures Ascending(lookedUpAt, given + rest)
  {
    assert given + front + rest == given + (front + rest);
    PartAscends(lookedUpAt, given, front, rest);
  }

  /** A queue loses its front part. */
  ghost predicate Loses(s: System, s': System, a: AgentId, front: seq<Envelope>) {
    && At(s.bus, Offline(a)) == front + At(s'.bus, Offline(a))
    && (forall b: AgentId :: b != a ==> At(s'.bus, Offline(b)) == At(s.bus, Offline(b)))
    && s'.bus.log.owner == s.bus.log.owner && s'.bus.log.next == s.bus.log.next && s'.lookedUpAt == s.lookedUpAt
  }

  lemma LossKeepsQueueOrder(s: System, s': System, a: AgentId, front: seq<Envelope>, b: AgentId)
    requires InOrder(s) && Loses(s, s', a, front)
    ensures QueueAscends(s', b)
  {
    assert QueueAscends(s, b);
    if b == a {
      BackAscends(s.lookedUpAt, front, At(s'.bus, Offline(a)));
    }
  }

  lemma LossKeepsLine(s: System, s': System, a: AgentId, front: seq<Envelope>, ch: ChanId)
    requires InOrder(s) && Loses(s, s', a, front) && ch in s.bus.log.owner && Stream(s'.bus, ch) == Stream(s.bus, ch)
    ensures LineAscends(s', ch)
  {
    assert LineAscends(s, ch);
    if s.bus.log.owner[ch] == a {
      ShorterLineAscends(s.lookedUpAt, Stream(s.bus, ch), front, At(s'.bus, Offline(a)));
    }
  }

  /** And what it loses is gone. */
  lemma LossKeepsOrder(s: System, s': System, a: AgentId, front: seq<Envelope>)
    requires InOrder(s) && Loses(s, s', a, front)
    requires forall ch :: Stream(s'.bus, ch) == Stream(s.bus, ch)
    ensures InOrder(s')
  {
    forall b: AgentId ensures QueueAscends(s', b) {
      LossKeepsQueueOrder(s, s', a, front, b);
    }
    forall ch | ch in s'.bus.log.owner ensures LineAscends(s', ch) {
      LossKeepsLine(s, s', a, front, ch);
    }
  }

  lemma FillKeepsLine(s: System, s': System, a: AgentId, to: ChanId, e: Envelope)
    requires InOrder(s) && Loses(s, s', a, [e]) && to in s.bus.log.owner && s.bus.log.owner[to] == a
    requires Stream(s'.bus, to) == Stream(s.bus, to) + [e]
    ensures LineAscends(s', to)
  {
    assert LineAscends(s, to);
    Regroup(Stream(s.bus, to), e, At(s'.bus, Offline(a)));
  }

  /** Or it goes, being the oldest, to the end of a channel of its agent. */
  lemma FillKeepsOrder(s: System, s': System, a: AgentId, to: ChanId, e: Envelope)
    requires InOrder(s) && Loses(s, s', a, [e]) && to in s.bus.log.owner && s.bus.log.owner[to] == a
    requires Stream(s'.bus, to) == Stream(s.bus, to) + [e]
    requires forall ch :: ch != to ==> Stream(s'.bus, ch) == Stream(s.bus, ch)
    ensures InOrder(s')
  {
    forall b: AgentId ensures QueueAscends(s', b) {
      LossKeepsQueueOrder(s, s', a, [e], b);
    }
    forall ch | ch in s'.bus.log.owner ensures LineAscends(s', ch) {
      if ch == to {
        FillKeepsLine(s, s', a, to, e);
      } else {
        LossKeepsLine(s, s', a, [e], ch);
      }
    }
  }

  /** A queue may lose its oldest, and gets a new last one. */
  lemma EnqueueKeepsQueueOrder(cfg: Settings, s: System, t: Tid, a: AgentId)
    requires InOrder(s) && Addressed(s.bus) && CanSend(s, s.At(t), Enqueue)
    ensures QueueAscends(ApplySend(cfg, s, t, Enqueue), a)
  {
    var pc, q := s.At(t), At(s.bus, Offline(a));
    assert QueueAscends(s, a);
    forall i | 0 <= i < |q| && q[i].Direct? ensures q[i].token < s.bus.log.next {
      TokensAreKnown(s.bus, Offline(a), i);
    }
    var e := Direct(s.bus.log.next, pc.msg);
    LongerAscends(s.lookedUpAt, q, e, pc.when);
    if a == pc.to && q != [] {
      assert [q[0]] + (q[1..] + [e]) == q + [e];
      BackAscends(s.lookedUpAt[e.token := pc.when], [q[0]], q[1..] + [e]);
    }
    EnqueuedAt(cfg, s.bus, pc.to, pc.msg, a);
  }

  lemma EnqueuedAt(cfg: Settings, bus: Bus, a: AgentId, m: Message, b: AgentId)
    ensures var q, q' := At(bus, Offline(b)), At(QueueOffline(cfg, bus, a, m), Offline(b));
            if b != a then q' == q
            else q' == q + [Direct(bus.log.next, m)] || (q != [] && q' == q[1..] + [Direct(bus.log.next, m)])
  {
    QueueFrame(cfg, bus, a, m);
    QueueingAppends(cfg, bus, a, m);
  }

  lemma EnqueueKeepsStreams(cfg: Settings, bus: Bus, a: AgentId, m: Message)
    ensures var bus' := QueueOffline(cfg, bus, a, m);
            && (forall ch :: Stream(bus', ch) == Stream(bus, ch))
            && bus'.log.owner == bus.log.owner && bus'.log.next == bus.log.next + 1
  {
  }

  lemma LongerLineAscends(lookedUpAt: map<Token, nat>, given: seq<Envelope>, q: seq<Envelope>, e: Envelope, when: nat)
    requires Ascending(lookedUpAt, given + q) && e.Direct? && Below(given + q, e.token)
    ensures var known := lookedUpAt[e.token := when];
            && Ascending(known, given + q) && Ascending(known, given + (q + [e]))
            && (q != [] ==> Ascending(known, given + (q[1..] + [e])))
  {
    LongerAscends(lookedUpAt, given + q, e, when);
    assert given + q + [e] == given + (q + [e]);
    if q != [] {
      assert [q[0]] + (q[1..] + [e]) == q + [e];
      ShorterLineAscends(lookedUpAt[e.token := when], given, [q[0]], q[1..] + [e]);
    }
  }

  lemma EnqueuedLine(cfg: Settings, bus: Bus, a: AgentId, m: Message, ch: ChanId)
    requires ch in bus.log.owner
    ensures var bus', e := QueueOffline(cfg, bus, a, m), Direct(bus.log.next, m);
            var given, q := Stream(bus, ch), At(bus, Offline(bus.log.owner[ch]));
            && ch in bus'.log.owner
            && (|| Line(bus', ch) == given + q
                || Line(bus', ch) == given + (q + [e])
                || (q != [] && Line(bus', ch) == given + (q[1..] + [e])))
  {
    EnqueueKeepsStreams(cfg, bus, a, m);
    EnqueuedAt(cfg, bus, a, m, bus.log.owner[ch]);
  }

  lemma EnqueueKeepsLine(cfg: Settings, s: System, t: Tid, ch: ChanId)
    requires InOrder(s) && Addressed(s.bus) && CanSend(s, s.At(t), Enqueue) && ch in s.bus.log.owner
    requires ch in ApplySend(cfg, s, t, Enqueue).bus.log.owner
    ensures LineAscends(ApplySend(cfg, s, t, Enqueue), ch)
  {
    var pc := s.At(t);
    EnqueuedLine(cfg, s.bus, pc.to, pc.msg, ch);
    assert LineAscends(s, ch);
    LineTokensAreKnown(s.bus, ch);
    LongerLineAscends(s.lookedUpAt, Stream(s.bus, ch), At(s.bus, Offline(s.bus.log.owner[ch])),
                      Direct(s.bus.log.next, pc.msg), pc.when);
  }

  lemma EnqueueKeepsOrder(cfg: Settings, s: System, t: Tid)
    requires InOrder(s) && Addressed(s.bus) && CanSend(s, s.At(t), Enqueue)
    ensures InOrder(ApplySend(cfg, s, t, Enqueue))
  {
    var s', pc := ApplySend(cfg, s, t, Enqueue), s.At(t);
    EnqueueKeepsStreams(cfg, s.bus, pc.to, pc.msg);
    forall a: AgentId ensures QueueAscends(s', a) {
      EnqueueKeepsQueueOrder(cfg, s, t, a);
    }
    forall ch | ch in s'.bus.log.owner ensures LineAscends(s', ch) {
      EnqueueKeepsLine(cfg, s, t, ch);
    }
  }

  lemma LookupKeepsOrder(s: System, t: Tid)
    requires InOrder(s) && s.At(t).Routing?
    ensures InOrder(ApplyLookup(s, t))
  {
    var s', pc := ApplyLookup(s, t), s.At(t);
    if pc.to in s.bus.mailboxes && HasRoom(s.bus, s.bus.mailboxes[pc.to]) {
      DeliveryKeepsOrder(s, s', s.bus.mailboxes[pc.to], Direct(s.bus.log.next, pc.msg));
    } else {
      CalmKeepsOrder(s, s');
    }
  }

  lemma RespondKeepsStreams(bus: Bus, m: Message, request: MsgId)
    requires request in bus.pending
    ensures var bus' := Respond(bus, m, request);
            && (forall ch :: Stream(bus', ch) == Stream(bus, ch))
            && (forall a: AgentId :: At(bus', Offline(a)) == At(bus, Offline(a)))
            && bus'.log.owner == bus.log.owner && bus'.log.next == bus.log.next + 1
  {
  }

  lemma RespondKeepsOrder(s: System, t: Tid, wall: nat)
    requires InOrder(s) && s.At(t).Noted?
    ensures InOrder(ApplyRespond(s, t, wall))
  {
    var m := s.At(t).msg;
    if m.correlation.Some? && m.correlation.value in s.bus.pending {
      RespondKeepsStreams(s.bus, m, m.correlation.value);
    }
    CalmKeepsOrder(s, ApplyRespond(s, t, wall));
  }

  lemma SendKeepsOrder(cfg: Settings, s: System, t: Tid, a: SendStep)
    requires InOrder(s) && Addressed(s.bus) && CanSend(s, s.At(t), a)
    ensures InOrder(ApplySend(cfg, s, t, a))
  {
    match a
    case CheckDuplicate(m, publish) => CalmKeepsOrder(s, ApplySend(cfg, s, t, a));
    case Mark(at) => CalmKeepsOrder(s, ApplySend(cfg, s, t, a));
    case TryRespond(wall) => RespondKeepsOrder(s, t, wall);
    case Lookup => LookupKeepsOrder(s, t);
    case Enqueue => EnqueueKeepsOrder(cfg, s, t);
  }

  lemma PublishKeepsOrder(s: System, t: Tid, a: PublishStep)
    requires InOrder(s) && CanPublish(s.At(t), a)
    ensures InOrder(ApplyPublish(s, t, a))
  {
    var s', pc := ApplyPublish(s, t, a), s.At(t);
    if a.CopyNext? && pc.rest[0] in s.bus.mailboxes && HasRoom(s.bus, s.bus.mailboxes[pc.rest[0]]) {
      DeliveryKeepsOrder(s, s', s.bus.mailboxes[pc.rest[0]], Copy(pc.msg));
    } else {
      CalmKeepsOrder(s, s');
    }
  }

  /** A new channel has been given nothing. */
  lemma InsertKeepsOrder(s: System, t: Tid, agent: AgentId)
    requires InOrder(s) && Addressed(s.bus) && CanRegister(s, s.At(t), Insert(agent))
    ensures InOrder(ApplyRegister(s, t, Insert(agent)))
  {
    var s' := ApplyRegister(s, t, Insert(agent));
    forall a: AgentId ensures QueueAscends(s', a) {
      assert QueueAscends(s, a);
    }
    forall ch | ch in s'.bus.log.owner ensures LineAscends(s', ch) {
      if ch in s.bus.log.owner && ch != s.bus.nextChan {
        assert LineAscends(s, ch);
      } else {
        NewLineAscends(s, agent);
      }
    }
  }

  lemma NewLineAscends(s: System, agent: AgentId)
    requires InOrder(s) && Addressed(s.bus)
    ensures Ascending(s.lookedUpAt, Stream(s.bus, s.bus.nextChan) + At(s.bus, Offline(agent)))
  {
    OwnerlessIsEmpty(s.bus, s.bus.nextChan);
    assert QueueAscends(s, agent);
    var given, q := Stream(s.bus, s.bus.nextChan), At(s.bus, Offline(agent));
    forall i, j | 0 <= i < j < |given + q| && Waited(s.lookedUpAt, (given + q)[i]) && Waited(s.lookedUpAt, (given + q)[j])
      ensures (given + q)[i].token < (given + q)[j].token
    {
      assert (given + q)[i] == q[i - |given|] && (given + q)[j] == q[j - |given|];
    }
  }

  lemma {:induction false} DrainToNowhere(bus: Bus, a: AgentId, wall: nat -> nat)
    requires a !in bus.mailboxes
    ensures forall ch :: Stream(Drain(bus, a, wall), ch) == Stream(bus, ch)
    decreases |At(bus, Offline(a))|
  {
    if At(bus, Offline(a)) != [] {
      DrainToNowhere(DrainOne(bus, a, wall(|At(bus, Offline(a))|)), a, wall);
    }
  }

  lemma ReadKeepsOrder(s: System, t: Tid)
    requires InOrder(s) && s.At(t).Draining?
    ensures InOrder(ApplyReadMailboxes(s, t))
  {
    var s', a := ApplyReadMailboxes(s, t), s.At(t).agent;
    if a in s.bus.mailboxes {
      CalmKeepsOrder(s, s');
    } else {
      DrainToNowhere(s.bus, a, _ => 0);
      DrainFrame(s.bus, a, _ => 0);
      LossKeepsOrder(s, s', a, At(s.bus, Offline(a)));
    }
  }

  lemma DrainOneMoves(bus: Bus, a: AgentId, wall: nat)
    requires At(bus, Offline(a)) != []
    ensures var bus', e := DrainOne(bus, a, wall), At(bus, Offline(a))[0];
            var fate := Fate(bus, a, e, wall);
            && (forall ch :: Stream(bus', ch) == if fate == Buffer(ch) then Stream(bus, ch) + [e] else Stream(bus, ch))
            && bus'.log.owner == bus.log.owner && bus'.log.next == bus.log.next
  {
  }

  lemma FillNextLoses(s: System, t: Tid, wall: nat)
    requires CanRegister(s, s.At(t), FillNext(wall))
    ensures var a := s.At(t).agent; Loses(s, ApplyRegister(s, t, FillNext(wall)), a, [At(s.bus, Offline(a))[0]])
  {
    DrainOneTakesTheOldest(s.bus, s.At(t).agent, wall);
  }

  lemma FillNextKeepsOrder(s: System, t: Tid, wall: nat)
    requires InOrder(s) && Addressed(s.bus) && CanRegister(s, s.At(t), FillNext(wall))
    ensures InOrder(ApplyRegister(s, t, FillNext(wall)))
  {
    var a := s.At(t).agent;
    FillNextLoses(s, t, wall);
    DrainOneMoves(s.bus, a, wall);
    FilledKeepsOrder(s, ApplyRegister(s, t, FillNext(wall)), a, At(s.bus, Offline(a))[0], wall);
  }

  lemma FilledKeepsOrder(s: System, s': System, a: AgentId, e: Envelope, wall: nat)
    requires InOrder(s) && Addressed(s.bus) && Loses(s, s', a, [e])
    requires forall ch :: Stream(s'.bus, ch) ==
               if Fate(s.bus, a, e, wall) == Buffer(ch) then Stream(s.bus, ch) + [e] else Stream(s.bus, ch)
    ensures InOrder(s')
  {
    if Fate(s.bus, a, e, wall).Lost? {
      LossKeepsOrder(s, s', a, [e]);
    } else {
      FillKeepsOrder(s, s', a, s.bus.mailboxes[a], e);
    }
  }

  lemma RegisterKeepsOrder(s: System, t: Tid, a: RegisterStep)
    requires InOrder(s) && Addressed(s.bus) && CanRegister(s, s.At(t), a)
    ensures InOrder(ApplyRegister(s, t, a))
  {
    match a
    case Insert(agent) => InsertKeepsOrder(s, t, agent);
    case BeginDrain => CalmKeepsOrder(s, ApplyBeginDrain(s, t));
    case ReadMailboxes => ReadKeepsOrder(s, t);
    case FillNext(wall) => FillNextKeepsOrder(s, t, wall);
    case EndFill => CalmKeepsOrder(s, ApplyRegister(s, t, EndFill));
  }

  lemma ReadLineAscends(lookedUpAt: map<Token, nat>, received: seq<Envelope>, buffer: seq<Envelope>, q: seq<Envelope>)
    requires Ascending(lookedUpAt, received + buffer + q)
    ensures Ascending(lookedUpAt, received + [] + q)
  {
    PartAscends(lookedUpAt, received, buffer, q);
    assert received + [] + q == received + q;
  }

  lemma DropKeepsLine(s: System, s': System, ch: ChanId, c: ChanId)
    requires InOrder(s) && s' == s.(bus := DropMailbox(s.bus, ch), clock := s'.clock) && c in s.bus.log.owner
    requires c in s'.bus.log.owner
    ensures LineAscends(s', c)
  {
    assert LineAscends(s, c);
    DropFrame(s.bus, ch);
    var q := At(s.bus, Offline(s.bus.log.owner[c]));
    assert At(s'.bus, Offline(s'.bus.log.owner[c])) == q;
    if c == ch {
      ReadLineAscends(s.lookedUpAt, At(s.bus, Received(c)), At(s.bus, Buffer(c)), q);
    }
  }

  /** The receiver goes away with what it had not read. */
  lemma DropKeepsOrder(s: System, s': System, ch: ChanId)
    requires InOrder(s) && s' == s.(bus := DropMailbox(s.bus, ch), clock := s'.clock)
    ensures InOrder(s')
  {
    DropFrame(s.bus, ch);
    forall a: AgentId ensures QueueAscends(s', a) {
      assert QueueAscends(s, a);
    }
    forall c | c in s'.bus.log.owner ensures LineAscends(s', c) {
      DropKeepsLine(s, s', ch, c);
    }
  }

  lemma OtherKeepsStreams(bus: Bus, a: OtherStep)
    requires !a.Drop?
    ensures forall ch :: Stream(OtherBus(bus, a), ch) == Stream(bus, ch)
  {
    if a.Take? {
      ReceiveFrame(bus, a.ch);
    } else if a.Once? {
      QuietFrame(bus, a.call);
    }
  }

  lemma OtherKeepsOrder(cfg: Settings, s: System, a: OtherStep)
    requires InOrder(s) && Enabled(s, Other(a))
    ensures InOrder(Apply(cfg, s, Other(a)))
  {
    var s' := Apply(cfg, s, Other(a));
    if a.Drop? {
      DropKeepsOrder(s, s', a.ch);
    } else {
      OtherFrame(s.bus, a);
      OtherKeepsStreams(s.bus, a);
      CalmKeepsOrder(s, s');
    }
  }

  lemma StepKeepsOrder(cfg: Settings, s: System, a: Action)
    requires InOrder(s) && Addressed(s.bus) && Enabled(s, a)
    ensures InOrder(Apply(cfg, s, a))
  {
    match a
    case Sending(t, send) => SendKeepsOrder(cfg, s, t, send);
    case Publishing(t, publish) => PublishKeepsOrder(s, t, publish);
    case Registering(t, register) => RegisterKeepsOrder(s, t, register);
    case Other(other) => OtherKeepsOrder(cfg, s, other);
  }

  lemma {:induction false} RunKeepsOrder(cfg: Settings, actions: seq<Action>)
    requires LegalRun(cfg, actions)
    ensures InOrder(T.Run(cfg, actions))
  {
    if actions != [] {
      var k := |actions| - 1;
      RunKeepsOrder(cfg, actions[..k]);
      T.RunKeepsInv(cfg, actions[..k]);
      StepKeepsOrder(cfg, T.Run(cfg, actions[..k]), actions[k]);
    }
  }
}
