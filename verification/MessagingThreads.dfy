/** The message bus at the granularity of its locks: `send`, `publish` and `register` are sequences of
    critical sections, and the sections of different threads interleave freely.  The drain of
    `register` holds the lock of the offline queues and, like the loop of `publish`, reads the
    mailboxes throughout, which keeps writers of the mailboxes out but not other readers. */
module MessagingThreads {
  import opened Basics
  import opened Messaging
  import opened MessagingConservation
  import opened MessagingAddressing

  type Tid = nat

  /** Where a thread stands between two critical sections. */
  datatype Pc =
    | Idle
    | Unseen(msg: Message, publish: bool, checked: nat) // the duplicate check has passed at that step
    | Noted(msg: Message, publish: bool)                // the id is marked as seen
    | Routing(msg: Message, to: AgentId)                // no request slot took it
    | Missed(msg: Message, to: AgentId, when: nat)      // the recipient had no mailbox at that step
    | Listed(msg: Message, rest: seq<AgentId>)          // `publish` knows the subscribers
    | Copying(msg: Message, rest: seq<AgentId>)         // and reads the mailboxes
    | Inserted(agent: AgentId)                          // `register` has stored the mailbox
    | Draining(agent: AgentId)                          // it holds the queues
    | Filling(agent: AgentId)                           // and reads the mailboxes

  /** A passed duplicate check: the id, the instant stored for it, and the steps of check and mark. */
  datatype Pass = Pass(id: MsgId, time: nat, checked: nat, marked: nat)

  /** `queuesLock` is the thread that holds the offline queues and `readers` are those that read the
      mailboxes over several steps.  `insertedAt` records the step of the latest insertion of each
      mailbox, `lookedUpAt` the step at which the sender of a queued message looked for the mailbox,
      `passes` every mark and `time` the latest reading of a mark. */
  datatype System = System(
    bus: Bus,
    pcs: map<Tid, Pc>,
    queuesLock: Option<Tid>,
    readers: set<Tid>,
    clock: nat,
    insertedAt: map<AgentId, nat>,
    lookedUpAt: map<Token, nat>,
    passes: seq<Pass>,
    time: nat)
  {
    function At(t: Tid): (pc: Pc) { if t in pcs then pcs[t] else Idle }
  }

  const START: System := System(NEW_BUS, map[], None, {}, 0, map[], map[], [], 0)

  /** A send, and the first two steps of a publish. */
  datatype SendStep =
    | CheckDuplicate(msg: Message, publish: bool)
    | Mark(at: Readings)
    | TryRespond(wall: nat)
    | Lookup
    | Enqueue

  /** The rest of a publish. */
  datatype PublishStep = ReadSubscribers | StartCopies | CopyNext | EndCopies

  datatype RegisterStep = Insert(agent: AgentId) | BeginDrain | ReadMailboxes | FillNext(wall: nat) | EndFill

  /** The two halves of `unregister`, the receivers, and calls of one critical section. */
  datatype OtherStep = Remove(agent: AgentId) | Strike(agent: AgentId) | Take(ch: ChanId) | Drop(ch: ChanId) | Once(call: QuietOp)

  datatype Action =
    | Sending(t: Tid, send: SendStep)
    | Publishing(t: Tid, publish: PublishStep)
    | Registering(t: Tid, register: RegisterStep)
    | Other(other: OtherStep)

  /** The thread is there, and the locks it needs are free. */
  predicate CanSend(s: System, pc: Pc, a: SendStep) {
    match a
    case CheckDuplicate(_, _) => pc.Idle?
    case Mark(_) => pc.Unseen?
    case TryRespond(_) => pc.Noted? && !pc.publish
    case Lookup => pc.Routing?
    case Enqueue => pc.Missed? && s.queuesLock.None?
  }

  predicate CanPublish(pc: Pc, a: PublishStep) {
    match a
    case ReadSubscribers => pc.Noted? && pc.publish
    case StartCopies => pc.Listed?
    case CopyNext => pc.Copying? && pc.rest != []
    case EndCopies => pc.Copying? && pc.rest == []
  }

  predicate CanRegister(s: System, pc: Pc, a: RegisterStep) {
    match a
    case Insert(_) => pc.Idle? && s.readers == {}
    case BeginDrain => pc.Inserted? && s.queuesLock.None?
    case ReadMailboxes => pc.Draining?
    case FillNext(_) => pc.Filling? && At(s.bus, Offline(pc.agent)) != []
    case EndFill => pc.Filling? && At(s.bus, Offline(pc.agent)) == []
  }

  predicate Enabled(s: System, a: Action) {
    match a
    case Sending(t, send) => CanSend(s, s.At(t), send)
    case Publishing(t, publish) => CanPublish(s.At(t), publish)
    case Registering(t, register) => CanRegister(s, s.At(t), register)
    case Other(Remove(_)) => s.readers == {}
    case Other(Once(call)) => !call.DoUnregister?
    case Other(_) => true
  }

  function Moved(s: System, t: Tid, pc: Pc, bus: Bus): (s': System)
    ensures s'.At(t) == pc && forall u :: u != t ==> s'.At(u) == s.At(u)
  {
    s.(bus := bus, pcs := s.pcs[t := pc], clock := s.clock + 1)
  }

  function Apply(cfg: Settings, s: System, a: Action): (s': System)
    requires Enabled(s, a)
  {
    match a
    case Sending(t, send) => ApplySend(cfg, s, t, send)
    case Publishing(t, publish) => ApplyPublish(s, t, publish)
    case Registering(t, register) => ApplyRegister(s, t, register)
    case Other(other) => s.(bus := OtherBus(s.bus, other), clock := s.clock + 1)
  }

  function ApplySend(cfg: Settings, s: System, t: Tid, a: SendStep): (s': System)
    requires CanSend(s, s.At(t), a)
  {
    var pc := s.At(t);
    match a
    case CheckDuplicate(m, publish) =>
      Moved(s, t, if m.id in s.bus.seen then Idle else Unseen(m, publish, s.clock), s.bus)
    case Mark(at) =>
      Moved(s, t, Noted(pc.msg, pc.publish), MarkSeen(cfg, s.bus, pc.msg.id, at))
      .(passes := s.passes + [Pass(pc.msg.id, at.mark, pc.checked, s.clock)], time := at.forget)
    case TryRespond(wall) => ApplyRespond(s, t, wall)
    case Lookup => ApplyLookup(s, t)
    case Enqueue =>
      Moved(s, t, Idle, QueueOffline(cfg, s.bus, pc.to, pc.msg)).(lookedUpAt := s.lookedUpAt[s.bus.log.next := pc.when])
  }

  function ApplyPublish(s: System, t: Tid, a: PublishStep): (s': System)
    requires CanPublish(s.At(t), a)
  {
    var pc := s.At(t);
    match a
    case ReadSubscribers =>
      Moved(s, t, if pc.msg.topic.None? then Idle else Listed(pc.msg, Subscribers(s.bus, pc.msg.topic.value)), s.bus)
    case StartCopies => Moved(s, t, Copying(pc.msg, pc.rest), s.bus).(readers := s.readers + {t})
    case CopyNext => Moved(s, t, Copying(pc.msg, pc.rest[1..]), FanOne(s.bus, pc.rest[0], pc.msg).0)
    case EndCopies => Moved(s, t, Idle, s.bus).(readers := s.readers - {t})
  }

  function ApplyRegister(s: System, t: Tid, a: RegisterStep): (s': System)
    requires CanRegister(s, s.At(t), a)
  {
    match a
    case Insert(agent) =>
      Moved(s, t, Inserted(agent), InsertMailbox(s.bus, agent)).(insertedAt := s.insertedAt[agent := s.clock])
    case BeginDrain => ApplyBeginDrain(s, t)
    case ReadMailboxes => ApplyReadMailboxes(s, t)
    case FillNext(wall) => Moved(s, t, s.At(t), DrainOne(s.bus, s.At(t).agent, wall))
    case EndFill =>
      Moved(s, t, Idle, DropQueue(s.bus, s.At(t).agent)).(queuesLock := None, readers := s.readers - {t})
  }

  function OtherBus(bus: Bus, a: OtherStep): (bus': Bus) {
    match a
    case Remove(agent) => RemoveMailbox(bus, agent)
    case Strike(agent) => Unlist(bus, agent)
    case Take(ch) => Receive(bus, ch)
    case Drop(ch) => DropMailbox(bus, ch)
    case Once(call) => StepQuiet(bus, call)
  }

  /** The checks after the mark, and the request slot. */
  function ApplyRespond(s: System, t: Tid, wall: nat): (s': System)
    requires s.At(t).Noted?
  {
    var m := s.At(t).msg;
    if m.Expired(wall) || m.recipient.None? then Moved(s, t, Idle, s.bus)
    else if m.isResponse && m.correlation.Some? && m.correlation.value in s.bus.pending then
      Moved(s, t, Idle, Respond(s.bus, m, m.correlation.value))
    else Moved(s, t, Routing(m, m.recipient.value), s.bus)
  }

  /** The mailbox lookup; the channel is tried under the same read lock. */
  function ApplyLookup(s: System, t: Tid): (s': System)
    requires s.At(t).Routing?
  {
    var pc := s.At(t);
    if pc.to in s.bus.mailboxes then
      var ch := s.bus.mailboxes[pc.to];
      Moved(s, t, Idle, if HasRoom(s.bus, ch) then Put(s.bus, Buffer(ch), pc.msg) else s.bus)
    else Moved(s, t, Missed(pc.msg, pc.to, s.clock), s.bus)
  }

  /** Without a queue `register` is done; otherwise it keeps the queues locked. */
  function ApplyBeginDrain(s: System, t: Tid): (s': System)
    requires s.At(t).Inserted?
  {
    var a := s.At(t).agent;
    if Offline(a) !in s.bus.at then Moved(s, t, Idle, s.bus)
    else Moved(s, t, Draining(a), s.bus).(queuesLock := Some(t))
  }

  /** The mailbox may be gone again, and then the whole queue is. */
  function ApplyReadMailboxes(s: System, t: Tid): (s': System)
    requires s.At(t).Draining?
  {
    var a := s.At(t).agent;
    if a in s.bus.mailboxes then Moved(s, t, Filling(a), s.bus).(readers := s.readers + {t})
    else Moved(s, t, Idle, Drain(s.bus, a, _ => 0)).(queuesLock := None)
  }

  predicate LegalRun(cfg: Settings, actions: seq<Action>)
    decreases |actions|, 0
  {
    actions == [] ||
    (var k := |actions| - 1; LegalRun(cfg, actions[..k]) && Enabled(Run(cfg, actions[..k]), actions[k]))
  }

  function Run(cfg: Settings, actions: seq<Action>): (s: System)
    requires LegalRun(cfg, actions)
    decreases |actions|, 1
  {
    if actions == [] then START else Apply(cfg, Run(cfg, actions[..|actions| - 1]), actions[|actions| - 1])
  }

  // ---------------------------------------------------------------- main result

  /** Under every interleaving of critical sections, every accepted message is still in exactly
      one place, and a message that sits in the queue of an agent with a mailbox came from a send
      whose lookup preceded the insertion of that mailbox. */
  lemma InterleavingsConserve(cfg: Settings, actions: seq<Action>)
    requires LegalRun(cfg, actions)
    ensures var s := Run(cfg, actions);
            && (forall t: Token :: t < s.bus.log.next ==> InExactlyOnePlace(s.bus, t))
            && (forall a: AgentId, e :: a in s.bus.mailboxes && e in At(s.bus, Offline(a)) ==>
                  e.Direct? && e.token in s.lookedUpAt && a in s.insertedAt &&
                  s.lookedUpAt[e.token] < s.insertedAt[a])
  {
    RunKeepsInv(cfg, actions);
    var s := Run(cfg, actions);
    forall t: Token | t < s.bus.log.next ensures InExactlyOnePlace(s.bus, t) {
      OnePlaceAndProper(s.bus, t);
    }
    forall a: AgentId, e | a in s.bus.mailboxes && e in At(s.bus, Offline(a))
      ensures e.Direct? && e.token in s.lookedUpAt && a in s.insertedAt && s.lookedUpAt[e.token] < s.insertedAt[a]
    {
      var i :| 0 <= i < |At(s.bus, Offline(a))| && At(s.bus, Offline(a))[i] == e;
      assert Preceded(s, a, At(s.bus, Offline(a))[i]);
    }
  }

  // ---------------------------------------------------------------- what interleaving breaks

  const HELLO := Message(7, 1, Some(2), None, [], 0, 0, None, false)
  const ZERO := Readings(0, 0, _ => 0)

  ghost predicate Reachable(cfg: Settings, s: System) {
    exists actions :: LegalRun(cfg, actions) && Run(cfg, actions) == s
  }

  /** The lookup can miss just before the mailbox appears: the message is then queued for an agent
      that is registered and already drained. */
  lemma MessageCanBeStranded(cfg: Settings) returns (s: System)
    ensures Reachable(cfg, s) && (forall t: Tid :: s.At(t).Idle?)
    ensures 2 in s.bus.mailboxes && At(s.bus, Offline(2)) == [Direct(0, HELLO)]
  {
    var registered := RegisteredMeanwhile(cfg);
    EnqueueAlone(cfg, registered, 0);
    ReachesFurther(cfg, registered, Sending(0, Enqueue));
    s := Apply(cfg, registered, Sending(0, Enqueue));
  }

  lemma ReachesFurther(cfg: Settings, s: System, a: Action)
    requires Reachable(cfg, s) && Enabled(s, a)
    ensures Reachable(cfg, Apply(cfg, s, a))
  {
    var actions :| LegalRun(cfg, actions) && Run(cfg, actions) == s;
    OneMore(cfg, actions, a);
  }

  lemma OneMore(cfg: Settings, actions: seq<Action>, a: Action)
    requires LegalRun(cfg, actions) && Enabled(Run(cfg, actions), a)
    ensures LegalRun(cfg, actions + [a]) && Run(cfg, actions + [a]) == Apply(cfg, Run(cfg, actions), a)
  {
    assert (actions + [a])[..|actions|] == actions;
  }

  /** The sender of HELLO has found no mailbox, and nothing else has happened. */
  lemma LookupCanMiss(cfg: Settings) returns (s: System)
    ensures Reachable(cfg, s) && s.At(0) == Missed(HELLO, 2, 3) && s.pcs.Keys == {0}
    ensures s.bus.at == map[] && s.bus.log.next == 0 && s.readers == {} && s.queuesLock.None?
  {
    assert LegalRun(cfg, []) && Run(cfg, []) == START;
    var check, mark := Sending(0, CheckDuplicate(HELLO, false)), Sending(0, Mark(ZERO));
    ReachesFurther(cfg, START, check);
    var s1 := Apply(cfg, START, check);
    ReachesFurther(cfg, s1, mark);
    var s2 := Apply(cfg, s1, mark);
    ReachesFurther(cfg, s2, Sending(0, TryRespond(0)));
    var s3 := Apply(cfg, s2, Sending(0, TryRespond(0)));
    ReachesFurther(cfg, s3, Sending(0, Lookup));
    s := Apply(cfg, s3, Sending(0, Lookup));
  }

  /** Agent 2 registers while the sender waits. */
  lemma RegisteredMeanwhile(cfg: Settings) returns (s: System)
    ensures Reachable(cfg, s) && s.At(0) == Missed(HELLO, 2, 3) && (forall t: Tid :: t != 0 ==> s.At(t).Idle?)
    ensures 2 in s.bus.mailboxes && s.bus.at == map[] && s.bus.log.next == 0 && s.queuesLock.None?
  {
    var missed := LookupCanMiss(cfg);
    ReachesFurther(cfg, missed, Registering(1, Insert(2)));
    var inserted := Apply(cfg, missed, Registering(1, Insert(2)));
    ReachesFurther(cfg, inserted, Registering(1, BeginDrain));
    s := Apply(cfg, inserted, Registering(1, BeginDrain));
  }

  lemma EnqueueAlone(cfg: Settings, s: System, t: Tid)
    requires CanSend(s, s.At(t), Enqueue) && At(s.bus, Offline(s.At(t).to)) == []
    ensures var s' := Apply(cfg, s, Sending(t, Enqueue));
            && s'.bus.mailboxes == s.bus.mailboxes
            && At(s'.bus, Offline(s.At(t).to)) == [Direct(s.bus.log.next, s.At(t).msg)]
            && forall u: Tid :: s'.At(u) == if u == t then Idle else s.At(u)
  {
  }

  // ---------------------------------------------------------------- conservation

  lemma SendConserves(cfg: Settings, s: System, t: Tid, a: SendStep)
    requires Conserved(s.bus) && CanSend(s, s.At(t), a)
    ensures Conserved(ApplySend(cfg, s, t, a).bus)
  {
    var pc := s.At(t);
    match a
    case CheckDuplicate(m, publish) =>
    case Mark(at) => SameStoreConserved(s.bus, MarkSeen(cfg, s.bus, pc.msg.id, at));
    case TryRespond(wall) =>
      if pc.msg.correlation.Some? && pc.msg.correlation.value in s.bus.pending {
        RespondConserves(s.bus, pc.msg, pc.msg.correlation.value);
      }
    case Lookup =>
      if pc.to in s.bus.mailboxes {
        PutConserves(s.bus, Buffer(s.bus.mailboxes[pc.to]), pc.msg);
      }
    case Enqueue => QueueOfflineConserves(cfg, s.bus, pc.to, pc.msg);
  }

  lemma PublishConserves(s: System, t: Tid, a: PublishStep)
    requires Conserved(s.bus) && CanPublish(s.At(t), a)
    ensures Conserved(ApplyPublish(s, t, a).bus)
  {
    var pc := s.At(t);
    if a.CopyNext? && pc.rest[0] in s.bus.mailboxes {
      CopyConserves(s.bus, Buffer(s.bus.mailboxes[pc.rest[0]]), pc.msg);
    }
  }

  lemma RegisterConserves(s: System, t: Tid, a: RegisterStep)
    requires Conserved(s.bus) && CanRegister(s, s.At(t), a)
    ensures Conserved(ApplyRegister(s, t, a).bus)
  {
    match a
    case Insert(agent) => SameStoreConserved(s.bus, InsertMailbox(s.bus, agent));
    case BeginDrain =>
    case ReadMailboxes => DrainConserves(s.bus, s.At(t).agent, _ => 0);
    case FillNext(wall) =>
      var q := Offline(s.At(t).agent);
      MoveConserves(s.bus, q, Fate(s.bus, s.At(t).agent, At(s.bus, q)[0], wall));
    case EndFill => SameStoreConserved(s.bus, DropQueue(s.bus, s.At(t).agent));
  }

  lemma OtherConserves(bus: Bus, a: OtherStep)
    requires Conserved(bus)
    ensures Conserved(OtherBus(bus, a))
  {
    match a
    case Remove(agent) => SameStoreConserved(bus, RemoveMailbox(bus, agent));
    case Strike(agent) => SameStoreConserved(bus, Unlist(bus, agent));
    case Take(ch) => ReceiveConserves(bus, ch);
    case Drop(ch) => DropMailboxConserves(bus, ch);
    case Once(call) => QuietConserves(bus, call);
  }

  /** A thread on its way delivers to the recipient of its message. */
  ghost predicate OnTheWay(s: System) {
    forall t: Tid :: s.At(t).Routing? || s.At(t).Missed? ==> s.At(t).msg.recipient == Some(s.At(t).to)
  }

  lemma StepStaysOnTheWay(cfg: Settings, s: System, a: Action)
    requires OnTheWay(s) && Enabled(s, a)
    ensures OnTheWay(Apply(cfg, s, a))
  {
    var s' := Apply(cfg, s, a);
    forall u: Tid | s'.At(u).Routing? || s'.At(u).Missed? ensures s'.At(u).msg.recipient == Some(s'.At(u).to) {
      if !(a.Sending? && a.t == u) {
        assert s'.At(u) == s.At(u);
      }
    }
  }

  lemma SendAddresses(cfg: Settings, s: System, t: Tid, a: SendStep)
    requires Addressed(s.bus) && OnTheWay(s) && CanSend(s, s.At(t), a)
    ensures Addressed(ApplySend(cfg, s, t, a).bus)
  {
    var pc := s.At(t);
    match a
    case CheckDuplicate(m, publish) =>
    case Mark(at) => Transfer(s.bus, MarkSeen(cfg, s.bus, pc.msg.id, at));
    case TryRespond(wall) =>
      if pc.msg.isResponse && pc.msg.correlation.Some? && pc.msg.correlation.value in s.bus.pending {
        RespondAddressed(s.bus, pc.msg, pc.msg.correlation.value);
      }
    case Lookup =>
      if pc.to in s.bus.mailboxes {
        PutAddressed(s.bus, Buffer(s.bus.mailboxes[pc.to]), pc.msg);
      }
    case Enqueue => QueueOfflineAddressed(cfg, s.bus, pc.to, pc.msg);
  }

  lemma PublishAddresses(s: System, t: Tid, a: PublishStep)
    requires Addressed(s.bus) && CanPublish(s.At(t), a)
    ensures Addressed(ApplyPublish(s, t, a).bus)
  {
    var pc := s.At(t);
    if a.CopyNext? && pc.rest[0] in s.bus.mailboxes {
      Transfer(s.bus, PutCopy(s.bus, Buffer(s.bus.mailboxes[pc.rest[0]]), pc.msg));
    }
  }

  lemma FillAddresses(bus: Bus, a: AgentId, wall: nat)
    requires Addressed(bus) && At(bus, Offline(a)) != []
    ensures Addressed(DrainOne(bus, a, wall))
  {
    var first := At(bus, Offline(a))[0];
    assert first in At(bus, Offline(a)) && Proper(bus.log, Offline(a), first);
    MoveAddressed(bus, Offline(a), Fate(bus, a, first, wall));
  }

  lemma RegisterAddresses(s: System, t: Tid, a: RegisterStep)
    requires Addressed(s.bus) && CanRegister(s, s.At(t), a)
    ensures Addressed(ApplyRegister(s, t, a).bus)
  {
    match a
    case Insert(agent) => Transfer(s.bus, InsertMailbox(s.bus, agent));
    case BeginDrain =>
    case ReadMailboxes => DrainAddressed(s.bus, s.At(t).agent, _ => 0);
    case FillNext(wall) => FillAddresses(s.bus, s.At(t).agent, wall);
    case EndFill => Transfer(s.bus, DropQueue(s.bus, s.At(t).agent));
  }

  lemma OtherAddresses(bus: Bus, a: OtherStep)
    requires Addressed(bus)
    ensures Addressed(OtherBus(bus, a))
  {
    match a
    case Remove(agent) => Transfer(bus, RemoveMailbox(bus, agent));
    case Strike(agent) => Transfer(bus, Unlist(bus, agent));
    case Take(ch) => ReceiveAddressed(bus, ch);
    case Drop(ch) => DropMailboxAddressed(bus, ch);
    case Once(call) => QuietAddressed(bus, call);
  }

  // ---------------------------------------------------------------- stranded messages

  /** A message waiting for an agent that has a mailbox was looked up before that mailbox was
      inserted, and so was one about to be queued. */
  ghost predicate LookupsPrecede(s: System) {
    && (forall a :: a in s.bus.mailboxes ==> a in s.insertedAt && s.insertedAt[a] < s.clock)
    && (forall a: AgentId, i :: 0 <= i < |At(s.bus, Offline(a))| ==> Preceded(s, a, At(s.bus, Offline(a))[i]))
    && (forall t: Tid :: s.At(t).Missed? ==> s.At(t).when < s.clock && Before(s, s.At(t).to, s.At(t).when))
  }

  predicate Before(s: System, a: AgentId, when: nat) {
    a in s.bus.mailboxes ==> a in s.insertedAt && when < s.insertedAt[a]
  }

  predicate Preceded(s: System, a: AgentId, e: Envelope) {
    e.Direct? && e.token < s.bus.log.next && e.token in s.lookedUpAt && s.lookedUpAt[e.token] < s.clock &&
    Before(s, a, s.lookedUpAt[e.token])
  }

  /** A step that puts nothing new into an offline queue and inserts no mailbox. */
  lemma FrameKeepsLookups(s: System, s': System)
    requires LookupsPrecede(s) && s'.clock >= s.clock && s'.bus.log.next >= s.bus.log.next
    requires s'.insertedAt == s.insertedAt && s'.lookedUpAt == s.lookedUpAt
    requires s'.bus.mailboxes.Keys <= s.bus.mailboxes.Keys
    requires forall a: AgentId, e :: e in At(s'.bus, Offline(a)) ==> e in At(s.bus, Offline(a))
    requires forall t: Tid :: s'.At(t).Missed? ==>
               s'.At(t) == s.At(t) || (s'.At(t).when < s'.clock && s'.At(t).to !in s'.bus.mailboxes)
    ensures LookupsPrecede(s')
  {
    forall a: AgentId, i | 0 <= i < |At(s'.bus, Offline(a))| ensures Preceded(s', a, At(s'.bus, Offline(a))[i]) {
      var e := At(s'.bus, Offline(a))[i];
      assert e in At(s'.bus, Offline(a));
      var j :| 0 <= j < |At(s.bus, Offline(a))| && At(s.bus, Offline(a))[j] == e;
      assert Preceded(s, a, e);
    }
  }

  lemma EnqueueKeepsLookups(cfg: Settings, s: System, t: Tid)
    requires LookupsPrecede(s) && CanSend(s, s.At(t), Enqueue)
    ensures LookupsPrecede(ApplySend(cfg, s, t, Enqueue))
  {
    var s' := ApplySend(cfg, s, t, Enqueue);
    var pc := s.At(t);
    assert forall u: Tid :: s'.At(u) == if u == t then Idle else s.At(u);
    forall a: AgentId, i | 0 <= i < |At(s'.bus, Offline(a))| ensures Preceded(s', a, At(s'.bus, Offline(a))[i]) {
      var q, q' := At(s.bus, Offline(a)), At(s'.bus, Offline(a));
      if a == pc.to {
        assert q' == q + [Direct(s.bus.log.next, pc.msg)] || (q != [] && q' == q[1..] + [Direct(s.bus.log.next, pc.msg)]);
        if i < |q'| - 1 {
          var j := if |q'| == |q| then i + 1 else i;
          assert q'[i] == q[j] && Preceded(s, a, q[j]);
        }
      } else {
        assert Preceded(s, a, q[i]);
      }
    }
  }

  lemma InsertKeepsLookups(s: System, t: Tid, agent: AgentId)
    requires LookupsPrecede(s) && CanRegister(s, s.At(t), Insert(agent))
    ensures LookupsPrecede(ApplyRegister(s, t, Insert(agent)))
  {
    var s' := ApplyRegister(s, t, Insert(agent));
    assert forall u: Tid :: s'.At(u) == if u == t then Inserted(agent) else s.At(u);
    forall a: AgentId, i | 0 <= i < |At(s'.bus, Offline(a))| ensures Preceded(s', a, At(s'.bus, Offline(a))[i]) {
      assert Preceded(s, a, At(s.bus, Offline(a))[i]);
    }
  }

  /** What the two steps of a send leave alone that may deliver the message. */
  ghost predicate OnlyDelivers(s: System, s': System) {
    && SameQueues(s.bus, s'.bus, None) && s'.bus.mailboxes == s.bus.mailboxes && s'.bus.log.next >= s.bus.log.next
    && s'.bus.seen == s.bus.seen && s'.bus.log.marks == s.bus.log.marks
  }

  lemma RespondFrameOf(s: System, t: Tid, wall: nat)
    requires s.At(t).Noted?
    ensures OnlyDelivers(s, ApplyRespond(s, t, wall))
  {
    var m := s.At(t).msg;
    if m.correlation.Some? && m.correlation.value in s.bus.pending {
      RespondFrame(s.bus, m, m.correlation.value);
    }
  }

  lemma LookupFrameOf(s: System, t: Tid)
    requires s.At(t).Routing?
    ensures OnlyDelivers(s, ApplyLookup(s, t))
  {
    if s.At(t).to in s.bus.mailboxes {
      PutFrame(s.bus, Buffer(s.bus.mailboxes[s.At(t).to]), s.At(t).msg);
    }
  }

  lemma RespondKeepsLookups(s: System, t: Tid, wall: nat)
    requires LookupsPrecede(s) && s.At(t).Noted?
    ensures LookupsPrecede(ApplyRespond(s, t, wall))
  {
    RespondFrameOf(s, t, wall);
    FrameKeepsLookups(s, ApplyRespond(s, t, wall));
  }

  lemma LookupKeepsLookups(s: System, t: Tid)
    requires LookupsPrecede(s) && s.At(t).Routing?
    ensures LookupsPrecede(ApplyLookup(s, t))
  {
    LookupFrameOf(s, t);
    FrameKeepsLookups(s, ApplyLookup(s, t));
  }

  /** The other steps of a send queue nothing and insert no mailbox. */
  lemma SendKeepsLookups(cfg: Settings, s: System, t: Tid, a: SendStep)
    requires LookupsPrecede(s) && CanSend(s, s.At(t), a)
    ensures LookupsPrecede(ApplySend(cfg, s, t, a))
  {
    match a
    case CheckDuplicate(m, publish) => FrameKeepsLookups(s, ApplySend(cfg, s, t, a));
    case Mark(at) => FrameKeepsLookups(s, ApplySend(cfg, s, t, a));
    case TryRespond(wall) => RespondKeepsLookups(s, t, wall);
    case Lookup => LookupKeepsLookups(s, t);
    case Enqueue => EnqueueKeepsLookups(cfg, s, t);
  }

  lemma ReadKeepsLookups(s: System, t: Tid)
    requires LookupsPrecede(s) && s.At(t).Draining?
    ensures LookupsPrecede(ApplyReadMailboxes(s, t))
  {
    DrainFrame(s.bus, s.At(t).agent, _ => 0);
    FrameKeepsLookups(s, ApplyReadMailboxes(s, t));
  }

  lemma FillKeepsLookups(s: System, t: Tid, wall: nat)
    requires LookupsPrecede(s) && CanRegister(s, s.At(t), FillNext(wall))
    ensures LookupsPrecede(ApplyRegister(s, t, FillNext(wall)))
  {
    FrameKeepsLookups(s, ApplyRegister(s, t, FillNext(wall)));
  }

  /** Draining only takes out of a queue. */
  lemma RegisterKeepsLookups(s: System, t: Tid, a: RegisterStep)
    requires LookupsPrecede(s) && CanRegister(s, s.At(t), a)
    ensures LookupsPrecede(ApplyRegister(s, t, a))
  {
    match a
    case Insert(agent) => InsertKeepsLookups(s, t, agent);
    case BeginDrain => FrameKeepsLookups(s, ApplyBeginDrain(s, t));
    case ReadMailboxes => ReadKeepsLookups(s, t);
    case FillNext(wall) => FillKeepsLookups(s, t, wall);
    case EndFill => FrameKeepsLookups(s, ApplyRegister(s, t, a));
  }

  lemma PublishKeepsLookups(s: System, t: Tid, a: PublishStep)
    requires LookupsPrecede(s) && CanPublish(s.At(t), a)
    ensures LookupsPrecede(ApplyPublish(s, t, a))
  {
    if a.CopyNext? {
      FanOneFrame(s.bus, s.At(t).rest[0], s.At(t).msg);
    }
    FrameKeepsLookups(s, ApplyPublish(s, t, a));
  }

  lemma OtherFrame(bus: Bus, a: OtherStep)
    ensures var bus' := OtherBus(bus, a);
            && SameQueues(bus, bus', None) && bus'.log.next == bus.log.next
            && bus'.mailboxes.Keys <= bus.mailboxes.Keys
            && bus'.seen == bus.seen && bus'.log.marks == bus.log.marks && bus'.log.owner == bus.log.owner
  {
    match a
    case Remove(agent) =>
    case Strike(agent) =>
    case Take(ch) => ReceiveFrame(bus, ch);
    case Drop(ch) => DropFrame(bus, ch);
    case Once(call) => QuietFrame(bus, call);
  }

  lemma OtherKeepsLookups(cfg: Settings, s: System, a: OtherStep)
    requires LookupsPrecede(s) && Enabled(s, Other(a))
    ensures LookupsPrecede(Apply(cfg, s, Other(a)))
  {
    OtherFrame(s.bus, a);
    FrameKeepsLookups(s, Apply(cfg, s, Other(a)));
  }

  // ---------------------------------------------------------------- the invariant

  ghost predicate Inv(s: System) { Conserved(s.bus) && Addressed(s.bus) && OnTheWay(s) && LookupsPrecede(s) }

  lemma StepKeepsInv(cfg: Settings, s: System, a: Action)
    requires Inv(s) && Enabled(s, a)
    ensures Inv(Apply(cfg, s, a))
  {
    StepStaysOnTheWay(cfg, s, a);
    match a
    case Sending(t, send) =>
      SendConserves(cfg, s, t, send);
      SendAddresses(cfg, s, t, send);
      SendKeepsLookups(cfg, s, t, send);
    case Publishing(t, publish) =>
      PublishConserves(s, t, publish);
      PublishAddresses(s, t, publish);
      PublishKeepsLookups(s, t, publish);
    case Registering(t, register) =>
      RegisterConserves(s, t, register);
      RegisterAddresses(s, t, register);
      RegisterKeepsLookups(s, t, register);
    case Other(other) =>
      OtherConserves(s.bus, other);
      OtherAddresses(s.bus, other);
      OtherKeepsLookups(cfg, s, other);
  }

  lemma {:induction false} RunKeepsInv(cfg: Settings, actions: seq<Action>)
    requires LegalRun(cfg, actions)
    ensures Inv(Run(cfg, actions))
  {
    if actions != [] {
      var k := |actions| - 1;
      RunKeepsInv(cfg, actions[..k]);
      StepKeepsInv(cfg, Run(cfg, actions[..k]), actions[k]);
    }
  }
}
