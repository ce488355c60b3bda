/** The message bus: mailboxes, offline queues, request slots and deduplication.

    Every container that can hold an accepted direct message is a `Place`.  Accepting a message
    puts it in one place under a fresh token; every later step moves it.  The functions below
    are the critical sections of the bus; a call is a composition of them. */
module Messaging {
  import opened Basics

  type AgentId = nat
  type MsgId = nat
  type ChanId = nat
  type SlotId = nat
  type Token = nat

  const CHANNEL_CAPACITY: nat := 256

  datatype Result<+E> = Ok | Err(error: E)

  datatype Message = Message(
    id: MsgId,
    sender: AgentId,
    recipient: Option<AgentId>,
    topic: Option<string>,
    payload: seq<nat>,
    timestamp: nat,
    ttl: nat,
    correlation: Option<MsgId>,
    isResponse: bool)
  {
    /** A time-to-live of zero means no expiry. */
    predicate Expired(wall: nat) { ttl != 0 && wall > timestamp + ttl }
  }

  /** A direct message under its token, or a published copy. */
  datatype Envelope = Direct(token: Token, msg: Message) | Copy(msg: Message)

  /** Why an accepted message is gone. */
  datatype Cause = Evicted | ExpiredInQueue | NoRoomAtRegister | UnregisteredBeforeDrain | RequesterGone | MailboxDropped

  datatype Place =
    | Buffer(ch: ChanId)      // the receiver's channel
    | Received(ch: ChanId)    // taken out by the receiver
    | Offline(agent: AgentId) // waiting for the recipient to register
    | Handed(slot: SlotId)    // given to the waiting requester
    | Lost(cause: Cause)

  datatype SendError = Duplicate | Expired | NoRecipient | SendFailed | NoTopic

  /** `maxQueue` and `window` of the bus. */
  datatype Settings = Settings(maxQueue: nat, window: nat)

  /** What one call reads of the clocks: the monotonic clock when it marks an id and again when it
      forgets old ones, and the wall clock, `wall(k)` when `k` queued messages are still to be looked
      at. */
  datatype Readings = Readings(mark: nat, forget: nat, wall: nat -> nat)

  /** Bookkeeping for the statements: the next token, the message and the place of each token, what
      was queued for an agent since the last drain, every (id, instant) that passed the duplicate
      check, the agent a channel was made for, and the request a slot was opened for. */
  datatype Log = Log(
    next: Token,
    sent: seq<Message>,
    whereIs: map<Token, Place>,
    queued: map<AgentId, seq<Envelope>>,
    marks: seq<(MsgId, nat)>,
    owner: map<ChanId, AgentId>,
    asked: map<SlotId, MsgId>)

  /** The bus.  `open` holds the channels whose receiver is alive and `waiting` the request slots
      whose requester still waits. */
  datatype Bus = Bus(
    mailboxes: map<AgentId, ChanId>,
    open: set<ChanId>,
    nextChan: ChanId,
    subscriptions: map<string, seq<AgentId>>,
    pending: map<MsgId, SlotId>,
    waiting: set<SlotId>,
    nextSlot: SlotId,
    at: map<Place, seq<Envelope>>,
    seen: map<MsgId, nat>,
    log: Log)

  const NO_LOG: Log := Log(0, [], map[], map[], [], map[], map[])
  const NEW_BUS: Bus := Bus(map[], {}, 0, map[], map[], {}, 0, map[], map[], NO_LOG)

  function At(s: Bus, p: Place): (es: seq<Envelope>) {
    if p in s.at then s.at[p] else []
  }

  /** Two states of the bus that differ at most in where envelopes are. */
  ghost predicate SameOutsideStore(s: Bus, s': Bus) {
    s' == s.(at := s'.at, log := s.log.(next := s'.log.next, sent := s'.log.sent, whereIs := s'.log.whereIs,
                                        queued := s'.log.queued))
  }

  /** Nothing a receiver was given is taken away, and only mailboxes are given anything. */
  ghost predicate BuffersGrow(s: Bus, s': Bus) {
    forall ch ::
      && At(s', Received(ch)) == At(s, Received(ch))
      && At(s, Buffer(ch)) <= At(s', Buffer(ch))
      && (ch !in s'.mailboxes.Values ==> At(s', Buffer(ch)) == At(s, Buffer(ch)))
  }

  /** Every offline queue is as it was, but for one agent's. */
  ghost predicate SameQueues(s: Bus, s': Bus, except: Option<AgentId>) {
    && (forall b: AgentId :: except != Some(b) ==>
          At(s', Offline(b)) == At(s, Offline(b)) && (Offline(b) in s'.at <==> Offline(b) in s.at))
    && (forall b: AgentId :: except != Some(b) ==>
          (b in s'.log.queued <==> b in s.log.queued) && (b in s.log.queued ==> s'.log.queued[b] == s.log.queued[b]))
  }

  // ---------------------------------------------------------------- accepting and moving

  /** Accepts a direct message into a place. */
  function Put(s: Bus, p: Place, m: Message): (s': Bus) {
    s.(at := s.at[p := At(s, p) + [Direct(s.log.next, m)]],
       log := s.log.(next := s.log.next + 1,
                     sent := s.log.sent + [m],
                     whereIs := s.log.whereIs[s.log.next := p]))
  }

  lemma PutFrame(s: Bus, p: Place, m: Message)
    requires !p.Offline?
    ensures SameOutsideStore(s, Put(s, p, m)) && SameQueues(s, Put(s, p, m), None)
  {
  }

  /** Moves the first envelope of one place to the end of another. */
  function Move(s: Bus, p: Place, q: Place): (s': Bus)
    requires At(s, p) != [] && p != q
  {
    var e := At(s, p)[0];
    s.(at := s.at[p := At(s, p)[1..]][q := At(s, q) + [e]],
       log := if e.Direct? then s.log.(whereIs := s.log.whereIs[e.token := q]) else s.log)
  }

  /** Empties one place into another, in order. */
  function MoveAll(s: Bus, p: Place, q: Place): (s': Bus)
    requires p != q
    ensures SameOutsideStore(s, s') && s'.log.queued == s.log.queued && s'.log.next == s.log.next
    ensures At(s', p) == [] && At(s', q) == At(s, q) + At(s, p)
    ensures forall r :: r != p && r != q ==> At(s', r) == At(s, r) && (r in s'.at <==> r in s.at)
    decreases |At(s, p)|
  {
    if At(s, p) == [] then s else MoveAll(Move(s, p, q), p, q)
  }

  // ---------------------------------------------------------------- critical sections

  /** `mark_seen`: the id is remembered, and entries a window old or older are forgotten. */
  function MarkSeen(cfg: Settings, s: Bus, id: MsgId, clock: Readings): (s': Bus) {
    var marked := s.seen[id := clock.mark];
    s.(seen := map i | i in marked && clock.forget - marked[i] < cfg.window :: marked[i],
       log := s.log.(marks := s.log.marks + [(id, clock.mark)]))
  }

  /** The deduplication state is that after marking the id. */
  predicate Marked(cfg: Settings, s: Bus, id: MsgId, clock: Readings, s': Bus) {
    s'.seen == MarkSeen(cfg, s, id, clock).seen && s'.log.marks == MarkSeen(cfg, s, id, clock).log.marks
  }

  /** `try_send`: refused when the receiver is gone or its channel is full. */
  predicate HasRoom(s: Bus, ch: ChanId) {
    ch in s.open && |At(s, Buffer(ch))| < CHANNEL_CAPACITY
  }

  /** A response takes its request's slot out of the map and is handed over, or lost when the
      requester has stopped waiting; either way `send` answers Ok. */
  function Respond(s: Bus, m: Message, request: MsgId): (s': Bus)
    requires request in s.pending
  {
    var slot := s.pending[request];
    Put(s.(pending := s.pending - {request}, waiting := s.waiting - {slot}),
        if slot in s.waiting then Handed(slot) else Lost(RequesterGone), m)
  }

  lemma RespondFrame(s: Bus, m: Message, request: MsgId)
    requires request in s.pending
    ensures var s' := Respond(s, m, request);
            && s'.mailboxes == s.mailboxes && s'.open == s.open && s'.nextChan == s.nextChan
            && s'.seen == s.seen && s'.log.marks == s.log.marks
            && BuffersGrow(s, s') && SameQueues(s, s', None)
  {
  }

  /** `queue_for_offline`: a full queue first drops its oldest message; an empty one has nothing
      to drop, so a limit of zero behaves as one. */
  function QueueOffline(cfg: Settings, s: Bus, a: AgentId, m: Message): (s': Bus) {
    var q := Offline(a);
    var s1 := if |At(s, q)| >= cfg.maxQueue && At(s, q) != [] then Move(s, q, Lost(Evicted)) else s;
    var earlier := if a in s.log.queued then s.log.queued[a] else [];
    var s2 := Put(s1, q, m);
    s2.(log := s2.log.(queued := s.log.queued[a := earlier + [Direct(s.log.next, m)]]))
  }

  lemma QueueFrame(cfg: Settings, s: Bus, a: AgentId, m: Message)
    ensures var s' := QueueOffline(cfg, s, a, m);
            && SameOutsideStore(s, s') && BuffersGrow(s, s') && SameQueues(s, s', Some(a))
            && Offline(a) in s'.at && a in s'.log.queued
  {
  }

  /** A new channel becomes the agent's mailbox; an earlier one stays readable but gets no more. */
  function InsertMailbox(s: Bus, a: AgentId): (s': Bus) {
    s.(mailboxes := s.mailboxes[a := s.nextChan], open := s.open + {s.nextChan}, nextChan := s.nextChan + 1,
       log := s.log.(owner := s.log.owner[s.nextChan := a]))
  }

  /** Where `register` puts the oldest queued message. */
  function Fate(s: Bus, a: AgentId, e: Envelope, wall: nat): (p: Place)
    ensures p.Lost? || (a in s.mailboxes && p == Buffer(s.mailboxes[a]))
  {
    if a !in s.mailboxes then Lost(UnregisteredBeforeDrain)
    else if e.msg.Expired(wall) then Lost(ExpiredInQueue)
    else if HasRoom(s, s.mailboxes[a]) then Buffer(s.mailboxes[a])
    else Lost(NoRoomAtRegister)
  }

  /** The queue of the agent is removed, and with it the record of what was queued. */
  function DropQueue(s: Bus, a: AgentId): (s': Bus) {
    s.(at := s.at - {Offline(a)}, log := s.log.(queued := s.log.queued - {a}))
  }

  /** One queued message goes where the drain puts it. */
  function DrainOne(s: Bus, a: AgentId, wall: nat): (s': Bus)
    requires At(s, Offline(a)) != []
    ensures |At(s', Offline(a))| < |At(s, Offline(a))|
  {
    Move(s, Offline(a), Fate(s, a, At(s, Offline(a))[0], wall))
  }

  /** The drain loop of `register`, which removes the whole queue and reads the clock for each message. */
  function Drain(s: Bus, a: AgentId, wall: nat -> nat): (s': Bus)
    decreases |At(s, Offline(a))|
  {
    if At(s, Offline(a)) == [] then DropQueue(s, a) else Drain(DrainOne(s, a, wall(|At(s, Offline(a))|)), a, wall)
  }

  lemma DrainOneFrame(s: Bus, a: AgentId, wall: nat)
    requires At(s, Offline(a)) != []
    ensures var s' := DrainOne(s, a, wall);
            && SameOutsideStore(s, s') && s'.log.next == s.log.next && s'.log.queued == s.log.queued
            && BuffersGrow(s, s') && SameQueues(s, s', Some(a))
  {
  }

  lemma {:induction false} DrainFrame(s: Bus, a: AgentId, wall: nat -> nat)
    ensures var s' := Drain(s, a, wall);
            && SameOutsideStore(s, s') && s'.log.next == s.log.next
            && Offline(a) !in s'.at && s'.log.queued == s.log.queued - {a}
            && BuffersGrow(s, s') && SameQueues(s, s', Some(a))
    decreases |At(s, Offline(a))|
  {
    if At(s, Offline(a)) != [] {
      var s1 := DrainOne(s, a, wall(|At(s, Offline(a))|));
      DrainOneFrame(s, a, wall(|At(s, Offline(a))|));
      DrainFrame(s1, a, wall);
    }
  }

  // ---------------------------------------------------------------- the calls

  function Register(s: Bus, a: AgentId, wall: nat -> nat): (s': Bus) {
    Drain(InsertMailbox(s, a), a, wall)
  }

  lemma RegisterFrame(s: Bus, a: AgentId, wall: nat -> nat)
    ensures var s' := Register(s, a, wall);
            && s'.mailboxes == s.mailboxes[a := s.nextChan] && s'.open == s.open + {s.nextChan}
            && s'.nextChan == s.nextChan + 1 && s'.seen == s.seen && s'.log.marks == s.log.marks
            && Offline(a) !in s'.at && s'.log.queued == s.log.queued - {a}
            && BuffersGrow(s, s') && SameQueues(s, s', Some(a))
  {
    DrainFrame(InsertMailbox(s, a), a, wall);
  }

  function RemoveMailbox(s: Bus, a: AgentId): (s': Bus) {
    s.(mailboxes := s.mailboxes - {a})
  }

  function Unlist(s: Bus, a: AgentId): (s': Bus) {
    s.(subscriptions := map t | t in s.subscriptions :: Without(s.subscriptions[t], a))
  }

  function Unregister(s: Bus, a: AgentId): (s': Bus) {
    Unlist(RemoveMailbox(s, a), a)
  }

  function Without(agents: seq<AgentId>, a: AgentId): (r: seq<AgentId>)
    ensures a !in r && forall b :: b != a ==> (b in r <==> b in agents)
  {
    if agents == [] then []
    else
      var rest := Without(agents[1..], a);
      if agents[0] == a then rest else [agents[0]] + rest
  }

  /** Delivery once the message has passed the duplicate, expiry and recipient checks. */
  function Route(cfg: Settings, s: Bus, m: Message, a: AgentId): (r: (Bus, Result<SendError>)) {
    if m.isResponse && m.correlation.Some? && m.correlation.value in s.pending then
      (Respond(s, m, m.correlation.value), Ok)
    else if a in s.mailboxes then
      if HasRoom(s, s.mailboxes[a]) then (Put(s, Buffer(s.mailboxes[a]), m), Ok) else (s, Err(SendFailed))
    else (QueueOffline(cfg, s, a, m), Ok)
  }

  lemma RouteFrame(cfg: Settings, s: Bus, m: Message, a: AgentId)
    ensures var s' := Route(cfg, s, m, a).0;
            && s'.mailboxes == s.mailboxes && s'.open == s.open && s'.nextChan == s.nextChan
            && s'.seen == s.seen && s'.log.marks == s.log.marks && BuffersGrow(s, s')
            && SameQueues(s, s', if a in s.mailboxes then None else Some(a))
  {
    if m.isResponse && m.correlation.Some? && m.correlation.value in s.pending {
      RespondFrame(s, m, m.correlation.value);
    } else if a !in s.mailboxes {
      QueueFrame(cfg, s, a, m);
    }
  }

  function Send(cfg: Settings, s: Bus, m: Message, clock: Readings): (r: (Bus, Result<SendError>)) {
    if m.id in s.seen then (s, Err(Duplicate))
    else
      var s1 := MarkSeen(cfg, s, m.id, clock);
      if m.Expired(clock.wall(0)) then (s1, Err(Expired))
      else if m.recipient.None? then (s1, Err(NoRecipient))
      else Route(cfg, s1, m, m.recipient.value)
  }

  lemma SendFrame(cfg: Settings, s: Bus, m: Message, clock: Readings)
    ensures var (s', answer) := Send(cfg, s, m, clock);
            && s'.mailboxes == s.mailboxes && s'.open == s.open && s'.nextChan == s.nextChan && BuffersGrow(s, s')
            && SameQueues(s, s', if m.recipient.Some? && m.recipient.value in s.mailboxes then None else m.recipient)
            && ((s', answer) == (s, Err(Duplicate)) || (m.id !in s.seen && Marked(cfg, s, m.id, clock, s')))
  {
    var s1 := MarkSeen(cfg, s, m.id, clock);
    if m.id !in s.seen && !m.Expired(clock.wall(0)) && m.recipient.Some? {
      var s' := Route(cfg, s1, m, m.recipient.value).0;
      RouteFrame(cfg, s1, m, m.recipient.value);
      FrameFrom(s, s1, s', if m.recipient.value in s.mailboxes then None else m.recipient);
    }
  }

  /** A frame that starts from the same store. */
  lemma FrameFrom(s: Bus, s1: Bus, s': Bus, except: Option<AgentId>)
    requires s1.at == s.at && s1.log.queued == s.log.queued && BuffersGrow(s1, s') && SameQueues(s1, s', except)
    ensures BuffersGrow(s, s') && SameQueues(s, s', except)
  {
    assert forall p :: At(s1, p) == At(s, p);
  }

  function PutCopy(s: Bus, p: Place, m: Message): (s': Bus) {
    s.(at := s.at[p := At(s, p) + [Copy(m)]])
  }

  /** A copy for one subscriber, if it has a mailbox with room; the number is how many. */
  function FanOne(s: Bus, a: AgentId, m: Message): (r: (Bus, nat)) {
    if a in s.mailboxes && HasRoom(s, s.mailboxes[a]) then (PutCopy(s, Buffer(s.mailboxes[a]), m), 1) else (s, 0)
  }

  /** Copies for all subscribers, in order. */
  function Fan(s: Bus, agents: seq<AgentId>, m: Message): (r: (Bus, nat))
    ensures SameOutsideStore(s, r.0) && r.0.log == s.log && r.1 <= |agents|
  {
    if agents == [] then (s, 0)
    else
      var (s1, n) := Fan(s, agents[..|agents| - 1], m);
      var (s2, k) := FanOne(s1, agents[|agents| - 1], m);
      (s2, n + k)
  }

  lemma FanOneFrame(s: Bus, a: AgentId, m: Message)
    ensures BuffersGrow(s, FanOne(s, a, m).0) && SameQueues(s, FanOne(s, a, m).0, None)
  {
  }

  lemma {:induction false} FanFrame(s: Bus, agents: seq<AgentId>, m: Message)
    ensures BuffersGrow(s, Fan(s, agents, m).0) && SameQueues(s, Fan(s, agents, m).0, None)
  {
    if agents != [] {
      FanFrame(s, agents[..|agents| - 1], m);
      FanOneFrame(Fan(s, agents[..|agents| - 1], m).0, agents[|agents| - 1], m);
    }
  }

  function Subscribers(s: Bus, topic: string): (agents: seq<AgentId>) {
    if topic in s.subscriptions then s.subscriptions[topic] else []
  }

  function Publish(cfg: Settings, s: Bus, m: Message, clock: Readings): (r: (Bus, Result<SendError>, nat)) {
    if m.id in s.seen then (s, Err(Duplicate), 0)
    else
      var s1 := MarkSeen(cfg, s, m.id, clock);
      if m.topic.None? then (s1, Err(NoTopic), 0)
      else
        var (s2, n) := Fan(s1, Subscribers(s1, m.topic.value), m);
        (s2, Ok, n)
  }

  lemma PublishFrame(cfg: Settings, s: Bus, m: Message, clock: Readings)
    ensures var (s', answer, n) := Publish(cfg, s, m, clock);
            && s'.mailboxes == s.mailboxes && s'.open == s.open && s'.nextChan == s.nextChan
            && BuffersGrow(s, s') && SameQueues(s, s', None)
            && ((s', answer, n) == (s, Err(Duplicate), 0) || (m.id !in s.seen && Marked(cfg, s, m.id, clock, s')))
  {
    if m.id !in s.seen && m.topic.Some? {
      var s1 := MarkSeen(cfg, s, m.id, clock);
      var agents := Subscribers(s1, m.topic.value);
      FanFrame(s1, agents, m);
      FrameFrom(s, s1, Fan(s1, agents, m).0, None);
    }
  }

  function Subscribe(s: Bus, a: AgentId, topic: string): (s': Bus) {
    s.(subscriptions := s.subscriptions[topic := Subscribers(s, topic) + [a]])
  }

  function Unsubscribe(s: Bus, a: AgentId, topic: string): (s': Bus) {
    if topic in s.subscriptions then
      s.(subscriptions := s.subscriptions[topic := Without(s.subscriptions[topic], a)])
    else s
  }

  /** The receiver takes its oldest message, if any. */
  function Receive(s: Bus, ch: ChanId): (s': Bus) {
    if At(s, Buffer(ch)) == [] then s else Move(s, Buffer(ch), Received(ch))
  }

  lemma ReceiveShifts(s: Bus, ch: ChanId, c: ChanId)
    ensures var s' := Receive(s, ch);
            && At(s', Received(c)) + At(s', Buffer(c)) == At(s, Received(c)) + At(s, Buffer(c))
            && (At(s, Buffer(c)) == [] ==> At(s', Buffer(c)) == [])
  {
    var buffer := At(s, Buffer(ch));
    if c == ch && buffer != [] {
      assert At(s, Received(ch)) + [buffer[0]] + buffer[1..] == At(s, Received(ch)) + buffer;
    }
  }

  lemma ReceiveFrame(s: Bus, ch: ChanId)
    ensures var s' := Receive(s, ch);
            && SameOutsideStore(s, s') && SameQueues(s, s', None)
            && (forall c :: At(s', Received(c)) + At(s', Buffer(c)) == At(s, Received(c)) + At(s, Buffer(c)))
            && (forall c :: At(s, Buffer(c)) == [] ==> At(s', Buffer(c)) == [])
  {
    var s' := Receive(s, ch);
    forall c ensures At(s', Received(c)) + At(s', Buffer(c)) == At(s, Received(c)) + At(s, Buffer(c)) {
      ReceiveShifts(s, ch, c);
    }
    forall c ensures At(s, Buffer(c)) == [] ==> At(s', Buffer(c)) == [] {
      ReceiveShifts(s, ch, c);
    }
  }

  /** The receiver goes away with what it had not read. */
  function DropMailbox(s: Bus, ch: ChanId): (s': Bus) {
    MoveAll(s.(open := s.open - {ch}), Buffer(ch), Lost(MailboxDropped))
  }

  lemma DropFrame(s: Bus, ch: ChanId)
    ensures var s' := DropMailbox(s, ch);
            && SameOutsideStore(s.(open := s.open - {ch}), s') && SameQueues(s, s', None)
            && At(s', Buffer(ch)) == [] && s'.log.next == s.log.next
            && (forall c :: At(s', Received(c)) == At(s, Received(c)))
            && (forall c :: c != ch ==> At(s', Buffer(c)) == At(s, Buffer(c)))
  {
  }

  /** The first half of `request`: a slot is stored under the message id, before sending. */
  function OpenSlot(s: Bus, id: MsgId): (s': Bus) {
    s.(pending := s.pending[id := s.nextSlot], waiting := s.waiting + {s.nextSlot}, nextSlot := s.nextSlot + 1,
       log := s.log.(asked := s.log.asked[s.nextSlot := id]))
  }

  /** `request` returns early because its `send` failed: nobody waits, the slot stays stored. */
  function AbandonSlot(s: Bus, slot: SlotId): (s': Bus) {
    s.(waiting := s.waiting - {slot})
  }

  /** `request` times out or finds its channel closed: nobody waits and the id is removed. */
  function CloseSlot(s: Bus, slot: SlotId, id: MsgId): (s': Bus) {
    s.(waiting := s.waiting - {slot}, pending := s.pending - {id})
  }

  // ---------------------------------------------------------------- runs

  datatype Op =
    | DoRegister(agent: AgentId)
    | DoSend(msg: Message)
    | DoPublish(msg: Message)
    | DoReceive(ch: ChanId)
    | DoDropMailbox(ch: ChanId)
    | Quiet(call: QuietOp)

  /** Calls that leave every envelope where it is. */
  datatype QuietOp =
    | DoUnregister(agent: AgentId)
    | DoSubscribe(agent: AgentId, topic: string)
    | DoUnsubscribe(agent: AgentId, topic: string)
    | DoOpenSlot(id: MsgId)
    | DoAbandonSlot(slot: SlotId)
    | DoCloseSlot(slot: SlotId, id: MsgId)

  datatype Call = Call(op: Op, clock: Readings)

  function StepQuiet(s: Bus, op: QuietOp): (s': Bus) {
    match op
    case DoUnregister(a) => Unregister(s, a)
    case DoSubscribe(a, t) => Subscribe(s, a, t)
    case DoUnsubscribe(a, t) => Unsubscribe(s, a, t)
    case DoOpenSlot(id) => OpenSlot(s, id)
    case DoAbandonSlot(slot) => AbandonSlot(s, slot)
    case DoCloseSlot(slot, id) => CloseSlot(s, slot, id)
  }

  lemma QuietFrame(s: Bus, op: QuietOp)
    ensures var s' := StepQuiet(s, op);
            && s'.at == s.at && s'.log == s.log.(asked := s'.log.asked)
            && s'.open == s.open && s'.nextChan == s.nextChan && s'.seen == s.seen && s'.log.marks == s.log.marks
            && s'.mailboxes.Keys <= s.mailboxes.Keys
            && (forall a :: a in s'.mailboxes ==> s'.mailboxes[a] == s.mailboxes[a])
  {
  }

  function Step(cfg: Settings, s: Bus, c: Call): (s': Bus) {
    match c.op
    case DoRegister(a) => Register(s, a, c.clock.wall)
    case DoSend(m) => Send(cfg, s, m, c.clock).0
    case DoPublish(m) => Publish(cfg, s, m, c.clock).0
    case DoReceive(ch) => Receive(s, ch)
    case DoDropMailbox(ch) => DropMailbox(s, ch)
    case Quiet(op) => StepQuiet(s, op)
  }

  function Run(cfg: Settings, calls: seq<Call>): (s: Bus)
    decreases |calls|, 0
  {
    if calls == [] then NEW_BUS else After(cfg, calls[..|calls| - 1], calls[|calls| - 1])
  }

  /** One call after a run of others. */
  function After(cfg: Settings, before: seq<Call>, c: Call): (s: Bus)
    decreases |before|, 1
  {
    Step(cfg, Run(cfg, before), c)
  }

  /** The monotonic clock never runs back. */
  predicate ClockAscends(calls: seq<Call>) {
    && (forall i :: 0 <= i < |calls| ==> calls[i].clock.mark <= calls[i].clock.forget)
    && (forall i, j :: 0 <= i < j < |calls| ==> calls[i].clock.forget <= calls[j].clock.mark)
  }
}
