/** The message bus as an object.  The channels, queues and maps are real; the ledger that says where
    every accepted message is, and the log behind it, are ghost and follow the state machine. */
module MessageBus {
  import opened Basics
  import opened Messaging
  import opened MessagingConservation
  import opened MessagingAddressing
  import opened MessagingOrder
  import opened MessagingRequests

  /** The messages of a place, without their tokens. */
  ghost function Texts(es: seq<Envelope>): (ms: seq<Message>)
    ensures |ms| == |es| && forall i :: 0 <= i < |es| ==> ms[i] == es[i].msg
  {
    seq(|es|, i requires 0 <= i < |es| => es[i].msg)
  }

  lemma TextsOfLonger(es: seq<Envelope>, e: Envelope)
    ensures Texts(es + [e]) == Texts(es) + [e.msg]
  {
  }

  lemma TextsOfRest(es: seq<Envelope>)
    requires es != []
    ensures Texts(es[1..]) == Texts(es)[1..]
  {
  }

  /** The message a requester finds, if any was handed to its slot. */
  ghost function LastHanded(es: seq<Envelope>): (m: Option<Message>) {
    if es == [] then None else Some(es[|es| - 1].msg)
  }

  // ---------------------------------------------------------------- the fields and the ledger

  type Ledger = map<Place, seq<Envelope>>

  ghost function Held(ledger: Ledger, p: Place): (es: seq<Envelope>) {
    if p in ledger then ledger[p] else []
  }

  function Content(channels: map<ChanId, seq<Message>>, ch: ChanId): (ms: seq<Message>) {
    if ch in channels then channels[ch] else []
  }

  /** The channels hold what the ledger says. */
  ghost predicate ChannelsMatch(channels: map<ChanId, seq<Message>>, ledger: Ledger) {
    forall ch :: Content(channels, ch) == Texts(Held(ledger, Buffer(ch)))
  }

  ghost predicate QueueMatches(queues: map<AgentId, seq<Message>>, ledger: Ledger, a: AgentId) {
    (a in queues <==> Offline(a) in ledger) && (a in queues ==> queues[a] == Texts(Held(ledger, Offline(a))))
  }

  /** So do the queues, but for one agent's. */
  ghost predicate QueuesMatch(queues: map<AgentId, seq<Message>>, ledger: Ledger, except: Option<AgentId>) {
    forall a: AgentId :: except != Some(a) ==> QueueMatches(queues, ledger, a)
  }

  ghost predicate ResponseMatches(responses: map<SlotId, Message>, es: seq<Envelope>, slot: SlotId) {
    (slot in responses <==> es != []) && (slot in responses && es != [] ==> responses[slot] == es[|es| - 1].msg)
  }

  /** A requester holds the last message handed to its slot. */
  ghost predicate ResponsesMatch(responses: map<SlotId, Message>, ledger: Ledger) {
    forall slot :: ResponseMatches(responses, Held(ledger, Handed(slot)), slot)
  }

  ghost predicate Matches(channels: map<ChanId, seq<Message>>, queues: map<AgentId, seq<Message>>,
                          responses: map<SlotId, Message>, ledger: Ledger, except: Option<AgentId>) {
    ChannelsMatch(channels, ledger) && QueuesMatch(queues, ledger, except) && ResponsesMatch(responses, ledger)
  }

  /** A channel nothing was put into. */
  lemma NewChannelMatches(channels: map<ChanId, seq<Message>>, queues: map<AgentId, seq<Message>>,
                          responses: map<SlotId, Message>, ledger: Ledger, ch: ChanId)
    requires Matches(channels, queues, responses, ledger, None) && Held(ledger, Buffer(ch)) == []
    ensures Matches(channels[ch := []], queues, responses, ledger, None)
  {
    var channels' := channels[ch := []];
    forall c ensures Content(channels', c) == Texts(Held(ledger, Buffer(c))) {
      assert Content(channels, c) == Texts(Held(ledger, Buffer(c)));
    }
  }

  /** One more envelope in a channel. */
  lemma PushMatches(channels: map<ChanId, seq<Message>>, queues: map<AgentId, seq<Message>>,
                    responses: map<SlotId, Message>, ledger: Ledger, except: Option<AgentId>, ch: ChanId, e: Envelope)
    requires Matches(channels, queues, responses, ledger, except)
    ensures Matches(channels[ch := Content(channels, ch) + [e.msg]], queues, responses,
                    ledger[Buffer(ch) := Held(ledger, Buffer(ch)) + [e]], except)
  {
    TextsOfLonger(Held(ledger, Buffer(ch)), e);
    var ledger' := ledger[Buffer(ch) := Held(ledger, Buffer(ch)) + [e]];
    assert forall a :: QueueMatches(queues, ledger, a) ==> QueueMatches(queues, ledger', a);
  }

  /** One envelope fewer in a channel. */
  lemma PopMatches(channels: map<ChanId, seq<Message>>, queues: map<AgentId, seq<Message>>,
                   responses: map<SlotId, Message>, ledger: Ledger, ch: ChanId)
    requires Matches(channels, queues, responses, ledger, None) && Held(ledger, Buffer(ch)) != []
    ensures Matches(channels[ch := Content(channels, ch)[1..]], queues, responses,
                    ledger[Buffer(ch) := Held(ledger, Buffer(ch))[1..]], None)
  {
    TextsOfRest(Held(ledger, Buffer(ch)));
    var ledger' := ledger[Buffer(ch) := Held(ledger, Buffer(ch))[1..]];
    assert forall a :: QueueMatches(queues, ledger, a) ==> QueueMatches(queues, ledger', a);
  }

  /** A place that is neither channel, queue nor slot may hold anything. */
  lemma AsideMatches(channels: map<ChanId, seq<Message>>, queues: map<AgentId, seq<Message>>,
                     responses: map<SlotId, Message>, ledger: Ledger, except: Option<AgentId>, p: Place, es: seq<Envelope>)
    requires Matches(channels, queues, responses, ledger, except)
    requires p.Lost? || p.Received? || (p.Offline? && except == Some(p.agent))
    ensures Matches(channels, queues, responses, ledger[p := es], except)
  {
    var ledger' := ledger[p := es];
    forall a: AgentId | except != Some(a) ensures QueueMatches(queues, ledger', a) {
      assert QueueMatches(queues, ledger, a);
    }
  }

  /** The queue of one agent is replaced. */
  lemma QueueingMatches(channels: map<ChanId, seq<Message>>, queues: map<AgentId, seq<Message>>,
                        responses: map<SlotId, Message>, ledger: Ledger, a: AgentId, es: seq<Envelope>)
    requires Matches(channels, queues, responses, ledger, Some(a))
    ensures Matches(channels, queues[a := Texts(es)], responses, ledger[Offline(a) := es], None)
  {
    var queues', ledger' := queues[a := Texts(es)], ledger[Offline(a) := es];
    forall b: AgentId ensures QueueMatches(queues', ledger', b) {
      assert b != a ==> QueueMatches(queues, ledger, b);
    }
  }

  /** The queue of one agent is set aside, and is gone in the end. */
  lemma WithoutQueueMatches(channels: map<ChanId, seq<Message>>, queues: map<AgentId, seq<Message>>,
                            responses: map<SlotId, Message>, ledger: Ledger, a: AgentId)
    requires Matches(channels, queues, responses, ledger, Some(a)) && a !in queues
    ensures Matches(channels, queues, responses, ledger - {Offline(a)}, None)
  {
    var ledger' := ledger - {Offline(a)};
    forall b: AgentId ensures QueueMatches(queues, ledger', b) {
      assert b != a ==> QueueMatches(queues, ledger, b);
    }
  }

  lemma SetAsideMatches(channels: map<ChanId, seq<Message>>, queues: map<AgentId, seq<Message>>,
                        responses: map<SlotId, Message>, ledger: Ledger, a: AgentId)
    requires Matches(channels, queues, responses, ledger, None)
    ensures Matches(channels, queues - {a}, responses, ledger, Some(a))
  {
    var queues' := queues - {a};
    forall b: AgentId | b != a ensures QueueMatches(queues', ledger, b) {
      assert QueueMatches(queues, ledger, b);
    }
  }

  lemma AnsweringMatches(channels: map<ChanId, seq<Message>>, queues: map<AgentId, seq<Message>>,
                         responses: map<SlotId, Message>, ledger: Ledger, slot: SlotId, e: Envelope)
    requires Matches(channels, queues, responses, ledger, None)
    ensures Matches(channels, queues, responses[slot := e.msg],
                    ledger[Handed(slot) := Held(ledger, Handed(slot)) + [e]], None)
  {
    var ledger' := ledger[Handed(slot) := Held(ledger, Handed(slot)) + [e]];
    assert forall a :: QueueMatches(queues, ledger, a) ==> QueueMatches(queues, ledger', a);
  }

  /** The queue of one agent is replaced, from a state in which it matched. */
  lemma ReplacedQueueMatches(channels: map<ChanId, seq<Message>>, queues: map<AgentId, seq<Message>>,
                             responses: map<SlotId, Message>, ledger: Ledger, a: AgentId, es: seq<Envelope>)
    requires Matches(channels, queues, responses, ledger, None)
    ensures Matches(channels, queues[a := Texts(es)], responses, ledger[Offline(a) := es], None)
  {
    SetAsideMatches(channels, queues, responses, ledger, a);
    QueueingMatches(channels, queues - {a}, responses, ledger, a, es);
    assert (queues - {a})[a := Texts(es)] == queues[a := Texts(es)];
  }

  /** What `queue_for_offline` does to the ledger. */
  lemma QueuedLedger(cfg: Settings, s: Bus, a: AgentId, m: Message)
    ensures var q, was, e, lost := Offline(a), Held(s.at, Offline(a)), Direct(s.log.next, m), Lost(Evicted);
            QueueOffline(cfg, s, a, m).at ==
              if |was| >= cfg.maxQueue && was != [] then s.at[lost := Held(s.at, lost) + [was[0]]][q := was[1..] + [e]]
              else s.at[q := was + [e]]
  {
    var q, was, lost := Offline(a), Held(s.at, Offline(a)), Lost(Evicted);
    if |was| >= cfg.maxQueue && was != [] {
      var moved := Move(s, q, lost);
      assert moved.at == s.at[q := was[1..]][lost := Held(s.at, lost) + [was[0]]];
      assert QueueOffline(cfg, s, a, m).at == moved.at[q := was[1..] + [Direct(s.log.next, m)]];
    } else {
      assert QueueOffline(cfg, s, a, m).at == s.at[q := was + [Direct(s.log.next, m)]];
    }
  }

  /** The full queue first loses its oldest message. */
  lemma QueuedMatches(cfg: Settings, s: Bus, a: AgentId, m: Message, channels: map<ChanId, seq<Message>>,
                      queues: map<AgentId, seq<Message>>, responses: map<SlotId, Message>)
    requires Matches(channels, queues, responses, s.at, None)
    ensures var queue := if a in queues then queues[a] else [];
            var kept := if |queue| >= cfg.maxQueue && queue != [] then queue[1..] else queue;
            Matches(channels, queues[a := kept + [m]], responses, QueueOffline(cfg, s, a, m).at, None)
  {
    assert QueueMatches(queues, s.at, a);
    QueuedLedger(cfg, s, a, m);
    var was, e, lost := Held(s.at, Offline(a)), Direct(s.log.next, m), Lost(Evicted);
    if |was| >= cfg.maxQueue && was != [] {
      TextsOfRest(was);
      TextsOfLonger(was[1..], e);
      AsideMatches(channels, queues, responses, s.at, None, lost, Held(s.at, lost) + [was[0]]);
      ReplacedQueueMatches(channels, queues, responses, s.at[lost := Held(s.at, lost) + [was[0]]], a, was[1..] + [e]);
    } else {
      TextsOfLonger(was, e);
      ReplacedQueueMatches(channels, queues, responses, s.at, a, was + [e]);
    }
  }

  /** What one step of the drain does to the channel and to the ledger. */
  lemma DrainOneMatches(s: Bus, a: AgentId, wall: nat, channels: map<ChanId, seq<Message>>,
                       queues: map<AgentId, seq<Message>>, responses: map<SlotId, Message>)
    requires Matches(channels, queues, responses, s.at, Some(a)) && Held(s.at, Offline(a)) != []
    ensures var q := Offline(a);
            var e := Held(s.at, q)[0];
            var fate := Fate(s, a, e, wall);
            var channels' := if fate.Buffer? then channels[fate.ch := Content(channels, fate.ch) + [e.msg]] else channels;
            && Matches(channels', queues, responses, DrainOne(s, a, wall).at, Some(a))
            && Texts(Held(DrainOne(s, a, wall).at, q)) == Texts(Held(s.at, q))[1..]
  {
    var q := Offline(a);
    var e, rest := Held(s.at, q)[0], Held(s.at, q)[1..];
    var fate, less := Fate(s, a, e, wall), s.at[q := rest];
    TextsOfRest(Held(s.at, q));
    AsideMatches(channels, queues, responses, s.at, Some(a), q, rest);
    assert Move(s, q, fate).at == less[fate := Held(less, fate) + [e]];
    if fate.Buffer? {
      PushMatches(channels, queues, responses, less, Some(a), fate.ch, e);
    } else {
      AsideMatches(channels, queues, responses, less, Some(a), fate, Held(less, fate) + [e]);
    }
  }

  /** What a response does to the ledger. */
  lemma RespondMatches(s: Bus, m: Message, request: MsgId, channels: map<ChanId, seq<Message>>,
                         queues: map<AgentId, seq<Message>>, responses: map<SlotId, Message>)
    requires Matches(channels, queues, responses, s.at, None) && request in s.pending
    ensures var slot := s.pending[request];
            Matches(channels, queues, if slot in s.waiting then responses[slot := m] else responses,
                    Respond(s, m, request).at, None)
  {
    var slot, e, lost := s.pending[request], Direct(s.log.next, m), Lost(RequesterGone);
    if slot in s.waiting {
      assert Respond(s, m, request).at == s.at[Handed(slot) := Held(s.at, Handed(slot)) + [e]];
      AnsweringMatches(channels, queues, responses, s.at, slot, e);
    } else {
      assert Respond(s, m, request).at == s.at[lost := Held(s.at, lost) + [e]];
      AsideMatches(channels, queues, responses, s.at, None, lost, Held(s.at, lost) + [e]);
    }
  }

  // ---------------------------------------------------------------- one more call

  lemma Extends(cfg: Settings, history: seq<Call>, c: Call)
    ensures Run(cfg, history + [c]) == Step(cfg, Run(cfg, history), c)
  {
    assert (history + [c])[..|history|] == history;
  }

  lemma ExtendsQuietly(cfg: Settings, history: seq<Call>, op: QuietOp, clock: Readings)
    ensures Run(cfg, history + [Call(Quiet(op), clock)]) == StepQuiet(Run(cfg, history), op)
  {
    Extends(cfg, history, Call(Quiet(op), clock));
    QuietStep(cfg, Run(cfg, history), op, clock);
  }

  lemma QuietStep(cfg: Settings, s: Bus, op: QuietOp, clock: Readings)
    ensures Step(cfg, s, Call(Quiet(op), clock)) == StepQuiet(s, op)
  {
  }

  /** The channel of the new mailbox is empty before, and holds what the queue held after. */
  lemma ExtendsByRegister(cfg: Settings, history: seq<Call>, agent: AgentId, clock: Readings)
    ensures var s, s' := Run(cfg, history), Register(Run(cfg, history), agent, clock.wall);
            && Run(cfg, history + [Call(DoRegister(agent), clock)]) == s'
            && At(s, Buffer(s.nextChan)) == [] && Offline(agent) !in s'.at
            && agent in s'.mailboxes && s'.mailboxes[agent] == s.nextChan
            && At(s', Buffer(s.nextChan)) == First(Unexpired(At(s, Offline(agent)), clock.wall), CHANNEL_CAPACITY)
  {
    Extends(cfg, history, Call(DoRegister(agent), clock));
    OfflineQueueContract(cfg, history, agent, clock.wall);
    RegisterFrame(Run(cfg, history), agent, clock.wall);
    FreshChannelsAreUntouched(cfg, history, Run(cfg, history).nextChan);
  }

  lemma ExtendsByClose(cfg: Settings, history: seq<Call>, slot: SlotId, id: MsgId, clock: Readings)
    ensures Run(cfg, history + [Call(Quiet(DoCloseSlot(slot, id)), clock)]) == CloseSlot(Run(cfg, history), slot, id)
  {
    ExtendsQuietly(cfg, history, DoCloseSlot(slot, id), clock);
  }

  lemma ExtendsByOpen(cfg: Settings, history: seq<Call>, id: MsgId, clock: Readings)
    ensures Run(cfg, history + [Call(Quiet(DoOpenSlot(id)), clock)]) == OpenSlot(Run(cfg, history), id)
  {
    ExtendsQuietly(cfg, history, DoOpenSlot(id), clock);
  }

  lemma ExtendsByUnsubscribe(cfg: Settings, history: seq<Call>, agent: AgentId, topic: string, clock: Readings)
    ensures Run(cfg, history + [Call(Quiet(DoUnsubscribe(agent, topic)), clock)]) ==
            Unsubscribe(Run(cfg, history), agent, topic)
  {
    ExtendsQuietly(cfg, history, DoUnsubscribe(agent, topic), clock);
  }

  lemma ExtendsByPublish(cfg: Settings, history: seq<Call>, m: Message, clock: Readings)
    ensures var s, s' := Run(cfg, history), Run(cfg, history + [Call(DoPublish(m), clock)]);
            s' == Publish(cfg, s, m, clock).0 && (Publish(cfg, s, m, clock).1 == Err(Duplicate) <==> m.id in s.seen)
  {
    Extends(cfg, history, Call(DoPublish(m), clock));
  }

  lemma ExtendsByReceive(cfg: Settings, history: seq<Call>, ch: ChanId, clock: Readings)
    ensures Run(cfg, history + [Call(DoReceive(ch), clock)]) == Receive(Run(cfg, history), ch)
    ensures Stream(Receive(Run(cfg, history), ch), ch) == Stream(Run(cfg, history), ch)
  {
    Extends(cfg, history, Call(DoReceive(ch), clock));
    ReceiveShifts(Run(cfg, history), ch, ch);
  }

  // ---------------------------------------------------------------- the object

  class MessageBus {
    const cfg: Settings
    var mailboxes: map<AgentId, ChanId>
    /** What the receiver of a channel has not taken yet. */
    var channels: map<ChanId, seq<Message>>
    /** The channels whose receiver is alive. */
    var open: set<ChanId>
    var nextChan: ChanId
    var subscriptions: map<string, seq<AgentId>>
    var pending: map<MsgId, SlotId>
    /** The slots whose requester still waits, and what was handed to a requester. */
    var waiting: set<SlotId>
    var responses: map<SlotId, Message>
    var nextSlot: SlotId
    var offlineQueues: map<AgentId, seq<Message>>
    var seen: map<MsgId, nat>
    ghost var ledger: map<Place, seq<Envelope>>
    ghost var log: Log
    /** Every call since the bus was created. */
    ghost var history: seq<Call>

    ghost function View(): Bus
      reads this
    {
      Bus(mailboxes, open, nextChan, subscriptions, pending, waiting, nextSlot, ledger, seen, log)
    }

    function Buffered(ch: ChanId): (ms: seq<Message>)
      reads this
    {
      Content(channels, ch)
    }

    ghost predicate Real(except: Option<AgentId>)
      reads this`channels, this`offlineQueues, this`responses, this`ledger
    {
      Matches(channels, offlineQueues, responses, ledger, except)
    }

    ghost predicate Valid()
      reads this
    {
      View() == Run(cfg, history) && Real(None)
    }

    constructor (cfg: Settings)
      ensures Valid() && history == [] && this.cfg == cfg
    {
      this.cfg := cfg;
      mailboxes, channels, open, nextChan, subscriptions := map[], map[], {}, 0, map[];
      pending, waiting, responses, nextSlot, offlineQueues, seen := map[], {}, map[], 0, map[], map[];
      ledger, log, history := map[], NO_LOG, [];
    }

    // -------------------------------------------------------------- registering

    /** The new mailbox holds the first 256 unexpired queued messages, in order, and the queue is
        gone. */
    method Register(agent: AgentId, clock: Readings) returns (ch: ChanId)
      requires Valid()
      modifies this
      ensures Valid() && history == old(history) + [Call(DoRegister(agent), clock)]
      ensures agent in mailboxes && mailboxes[agent] == ch && agent !in offlineQueues
      ensures At(View(), Buffer(ch)) ==
                First(Unexpired(At(old(View()), Offline(agent)), clock.wall), CHANNEL_CAPACITY)
      ensures Buffered(ch) == Texts(At(View(), Buffer(ch)))
    {
      ghost var c := Call(DoRegister(agent), clock);
      ExtendsByRegister(cfg, history, agent, clock);
      ch := Attach(agent, clock.wall);
      assert QueueMatches(offlineQueues, ledger, agent);
      history := history + [c];
    }

    /** The mailbox is stored first, then the queue is drained into it. */
    method Attach(agent: AgentId, wall: nat -> nat) returns (ch: ChanId)
      requires Real(None) && Held(ledger, Buffer(nextChan)) == []
      modifies this`mailboxes, this`channels, this`open, this`nextChan, this`offlineQueues, this`ledger, this`log
      ensures Real(None) && View() == Messaging.Register(old(View()), agent, wall) && ch == old(nextChan)
    {
      ch := nextChan;
      StoreMailbox(agent);
      DrainQueue(agent, wall);
    }

    /** The mailbox of a channel nothing was put into yet. */
    method StoreMailbox(agent: AgentId)
      requires Real(None) && Held(ledger, Buffer(nextChan)) == []
      modifies this`mailboxes, this`channels, this`open, this`nextChan, this`log
      ensures Real(None) && View() == InsertMailbox(old(View()), agent)
    {
      ghost var stored := InsertMailbox(View(), agent);
      NewChannelMatches(channels, offlineQueues, responses, ledger, nextChan);
      log := log.(owner := log.owner[nextChan := agent]);
      mailboxes := mailboxes[agent := nextChan];
      channels := channels[nextChan := []];
      open := open + {nextChan};
      nextChan := nextChan + 1;
      assert View() == stored;
    }

    /** The queue is taken out of the map, and its messages are tried one by one. */
    method DrainQueue(agent: AgentId, wall: nat -> nat)
      requires Real(None)
      modifies this`channels, this`offlineQueues, this`ledger, this`log
      ensures Real(None) && View() == Drain(old(View()), agent, wall)
    {
      var queue := TakeQueue(agent);
      while queue != []
        invariant Real(Some(agent)) && agent !in offlineQueues && queue == Texts(Held(ledger, Offline(agent)))
        invariant Drain(View(), agent, wall) == Drain(old(View()), agent, wall)
        decreases |queue|
      {
        DrainFirst(agent, queue[0], wall(|queue|));
        queue := queue[1..];
      }
      ForgetQueue(agent);
    }

    method TakeQueue(agent: AgentId) returns (queue: seq<Message>)
      requires Real(None)
      modifies this`offlineQueues
      ensures Real(Some(agent)) && agent !in offlineQueues && queue == Texts(Held(ledger, Offline(agent)))
    {
      queue := if agent in offlineQueues then offlineQueues[agent] else [];
      assert QueueMatches(offlineQueues, ledger, agent);
      SetAsideMatches(channels, offlineQueues, responses, ledger, agent);
      offlineQueues := offlineQueues - {agent};
    }

    ghost method ForgetQueue(agent: AgentId)
      requires Real(Some(agent)) && agent !in offlineQueues && Held(ledger, Offline(agent)) == []
      modifies this`ledger, this`log
      ensures Real(None) && View() == DropQueue(old(View()), agent)
    {
      WithoutQueueMatches(channels, offlineQueues, responses, ledger, agent);
      ledger, log := ledger - {Offline(agent)}, log.(queued := log.queued - {agent});
    }

    /** The oldest queued message goes into the channel unless it is expired or there is no room. */
    method DrainFirst(agent: AgentId, m: Message, wall: nat)
      requires Real(Some(agent)) && Held(ledger, Offline(agent)) != [] && Held(ledger, Offline(agent))[0].msg == m
      modifies this`channels, this`ledger, this`log
      ensures Real(Some(agent))
      ensures View() == DrainOne(old(View()), agent, wall)
      ensures Texts(Held(ledger, Offline(agent))) == Texts(Held(old(ledger), Offline(agent)))[1..]
    {
      ghost var e := Held(ledger, Offline(agent))[0];
      ghost var moved := DrainOne(View(), agent, wall);
      DrainOneMatches(View(), agent, wall, channels, offlineQueues, responses);
      TryPut(agent, m, wall, e);
      Settle(moved, Some(agent));
    }

    /** The real half of it. */
    method TryPut(agent: AgentId, m: Message, wall: nat, ghost e: Envelope)
      requires ChannelsMatch(channels, ledger) && e.msg == m
      modifies this`channels
      ensures var fate := Fate(View(), agent, e, wall);
              channels == if fate.Buffer? then old(channels)[fate.ch := Content(old(channels), fate.ch) + [m]]
                          else old(channels)
    {
      if agent in mailboxes {
        assert Buffered(mailboxes[agent]) == Texts(Held(ledger, Buffer(mailboxes[agent])));
        if !m.Expired(wall) && CanTake(mailboxes[agent]) {
          channels := channels[mailboxes[agent] := Buffered(mailboxes[agent]) + [m]];
        }
      }
    }

    /** `try_send` would succeed. */
    predicate CanTake(ch: ChanId)
      reads this
    {
      ch in open && |Buffered(ch)| < CHANNEL_CAPACITY
    }

    /** The agent's mailbox and all its subscriptions go; nothing queued or delivered does. */
    method Unregister(agent: AgentId, clock: Readings)
      requires Valid()
      modifies this`mailboxes, this`subscriptions, this`history
      ensures Valid() && history == old(history) + [Call(Quiet(DoUnregister(agent)), clock)]
      ensures agent !in mailboxes && forall t :: t in subscriptions ==> agent !in subscriptions[t]
    {
      ExtendsQuietly(cfg, history, DoUnregister(agent), clock);
      Detach(agent);
      history := history + [Call(Quiet(DoUnregister(agent)), clock)];
    }

    method Detach(agent: AgentId)
      modifies this`mailboxes, this`subscriptions
      ensures View() == Messaging.Unregister(old(View()), agent)
      ensures agent !in mailboxes && forall t :: t in subscriptions ==> agent !in subscriptions[t]
    {
      mailboxes := mailboxes - {agent};
      DropSubscriber(agent);
    }

    method DropSubscriber(agent: AgentId)
      modifies this`subscriptions
      ensures subscriptions == map t | t in old(subscriptions) :: Without(old(subscriptions)[t], agent)
    {
      var rest := subscriptions.Keys;
      while rest != {}
        invariant rest <= subscriptions.Keys && subscriptions.Keys == old(subscriptions).Keys
        invariant forall t :: t in rest ==> subscriptions[t] == old(subscriptions)[t]
        invariant forall t :: t in subscriptions && t !in rest ==> subscriptions[t] == Without(old(subscriptions)[t], agent)
      {
        var t :| t in rest;
        rest := rest - {t};
        subscriptions := subscriptions[t := Without(subscriptions[t], agent)];
      }
    }

    // -------------------------------------------------------------- sending

    method MarkAsSeen(id: MsgId, clock: Readings)
      modifies this`seen, this`log
      ensures View() == MarkSeen(cfg, old(View()), id, clock)
    {
      var marked := seen[id := clock.mark];
      seen := map i | i in marked && clock.forget - marked[i] < cfg.window :: marked[i];
      log := log.(marks := log.marks + [(id, clock.mark)]);
    }

    /** Accepted exactly when the guard holds; an accepted message takes a fresh token and is then in
        exactly one place, and a refused one leaves channels, queues and responses alone. */
    method Send(m: Message, clock: Readings) returns (r: Result<SendError>)
      requires Valid()
      modifies this
      ensures Valid() && history == old(history) + [Call(DoSend(m), clock)]
      ensures r == Messaging.Send(cfg, old(View()), m, clock).1
      ensures r == Ok <==> Accepts(old(View()), m, clock.wall(0))
      ensures r == Err(Duplicate) <==> m.id in old(seen)
      ensures r == Ok ==> log.sent == old(log.sent) + [m] && InExactlyOnePlace(View(), old(log.next))
      ensures r != Ok ==> channels == old(channels) && offlineQueues == old(offlineQueues) && responses == old(responses)
    {
      ghost var c := Call(DoSend(m), clock);
      Extends(cfg, history, c);
      OkTakesOneToken(cfg, View(), m, clock);
      SendAcceptsExactlyWhen(cfg, View(), m, clock);
      r := Process(m, clock);
      history := history + [c];
      if r == Ok {
        EveryAcceptedMessageInOnePlace(cfg, history, old(log.next));
      }
    }

    method Process(m: Message, clock: Readings) returns (r: Result<SendError>)
      requires Real(None)
      modifies this
      ensures Real(None) && (View(), r) == Messaging.Send(cfg, old(View()), m, clock) && history == old(history)
      ensures r != Ok ==> channels == old(channels) && offlineQueues == old(offlineQueues) && responses == old(responses)
    {
      if m.id in seen {
        return Err(Duplicate);
      }
      MarkAsSeen(m.id, clock);
      if m.Expired(clock.wall(0)) {
        return Err(Expired);
      }
      if m.recipient.None? {
        return Err(NoRecipient);
      }
      r := Deliver(m, m.recipient.value);
    }

    method Deliver(m: Message, to: AgentId) returns (r: Result<SendError>)
      requires Real(None)
      modifies this
      ensures Real(None) && (View(), r) == Route(cfg, old(View()), m, to) && history == old(history)
      ensures r != Ok ==> channels == old(channels) && offlineQueues == old(offlineQueues) && responses == old(responses)
    {
      if m.isResponse {
        if m.correlation.Some? && m.correlation.value in pending {
          Answer(m, m.correlation.value);
          return Ok;
        }
      }
      if to in mailboxes {
        if CanTake(mailboxes[to]) {
          PutInChannel(mailboxes[to], m);
          return Ok;
        }
        return Err(SendFailed);
      }
      EnqueueOffline(to, m);
      return Ok;
    }

    method PutInChannel(ch: ChanId, m: Message)
      requires Real(None)
      modifies this`channels, this`ledger, this`log
      ensures Real(None) && View() == Put(old(View()), Buffer(ch), m)
    {
      ghost var accepted := Put(View(), Buffer(ch), m);
      PushMatches(channels, offlineQueues, responses, ledger, None, ch, Direct(log.next, m));
      channels := channels[ch := Buffered(ch) + [m]];
      Settle(accepted, None);
    }

    /** The slot leaves the map; the requester gets the response if it still waits. */
    method Answer(m: Message, request: MsgId)
      requires Real(None) && request in pending
      modifies this`pending, this`waiting, this`responses, this`ledger, this`log
      ensures Real(None) && View() == Respond(old(View()), m, request)
    {
      ghost var answered := Respond(View(), m, request);
      RespondMatches(View(), m, request, channels, offlineQueues, responses);
      HandOver(m, request);
      Settle(answered, None);
    }

    /** The ghost half: what is stored where follows the state machine. */
    ghost method Settle(s: Bus, except: Option<AgentId>)
      requires s == View().(at := s.at, log := s.log) && Matches(channels, offlineQueues, responses, s.at, except)
      modifies this`ledger, this`log
      ensures Real(except) && View() == s
    {
      ledger, log := s.at, s.log;
    }

    /** The real half. */
    method HandOver(m: Message, request: MsgId)
      requires request in pending
      modifies this`pending, this`waiting, this`responses
      ensures pending == old(pending) - {request} && waiting == old(waiting) - {old(pending)[request]}
      ensures responses == if old(pending)[request] in old(waiting) then old(responses)[old(pending)[request] := m]
                           else old(responses)
    {
      var slot := pending[request];
      pending := pending - {request};
      if slot in waiting {
        responses := responses[slot := m];
      }
      waiting := waiting - {slot};
    }

    /** The queue keeps the newest max(1, limit) messages. */
    method EnqueueOffline(to: AgentId, m: Message)
      requires Real(None)
      modifies this`offlineQueues, this`ledger, this`log
      ensures Real(None) && View() == QueueOffline(cfg, old(View()), to, m)
    {
      assert QueueMatches(offlineQueues, ledger, to);
      ghost var queued := QueueOffline(cfg, View(), to, m);
      QueuedMatches(cfg, View(), to, m, channels, offlineQueues, responses);
      var queue := if to in offlineQueues then offlineQueues[to] else [];
      if |queue| >= cfg.maxQueue && queue != [] {
        queue := queue[1..];
      }
      offlineQueues := offlineQueues[to := queue + [m]];
      Settle(queued, None);
    }

    // -------------------------------------------------------------- requests

    /** `request` until it waits: it waits exactly when the guard of its send holds, and otherwise the
        slot stays stored with nobody waiting. */
    method Request(m: Message, clock: Readings) returns (r: Result<SendError>, slot: SlotId)
      requires Valid()
      modifies this
      ensures Valid() && slot == old(nextSlot) && (View(), r) == BeginRequest(cfg, old(View()), m, clock)
      ensures r == Ok <==> Accepts(OpenSlot(old(View()), m.id), m, clock.wall(0))
      ensures Alive(View(), slot, m.id) <==> r == Ok && !AnswersItself(m)
    {
      RunAddressed(cfg, history);
      BegunRequest(cfg, View(), m, clock);
      SendAcceptsExactlyWhen(cfg, OpenSlot(View(), m.id), m, clock);
      slot := nextSlot;
      StoreSlot(m.id, clock);
      ghost var c := Call(DoSend(m), clock);
      Extends(cfg, history, c);
      r := Process(m, clock);
      history := history + [c];
      if r != Ok {
        LeaveSlot(slot, clock);
      }
    }

    method StoreSlot(id: MsgId, clock: Readings)
      requires Valid()
      modifies this`pending, this`waiting, this`nextSlot, this`log, this`history
      ensures Valid() && View() == OpenSlot(old(View()), id)
    {
      ExtendsByOpen(cfg, history, id, clock);
      NewSlot(id);
      history := history + [Call(Quiet(DoOpenSlot(id)), clock)];
    }

    method NewSlot(id: MsgId)
      modifies this`pending, this`waiting, this`nextSlot, this`log
      ensures View() == OpenSlot(old(View()), id)
    {
      log := log.(asked := log.asked[nextSlot := id]);
      pending := pending[id := nextSlot];
      waiting := waiting + {nextSlot};
      nextSlot := nextSlot + 1;
    }

    method LeaveSlot(slot: SlotId, clock: Readings)
      requires Valid()
      modifies this`waiting, this`history
      ensures Valid() && View() == AbandonSlot(old(View()), slot)
    {
      ghost var c := Call(Quiet(DoAbandonSlot(slot)), clock);
      ExtendsQuietly(cfg, history, DoAbandonSlot(slot), clock);
      waiting := waiting - {slot};
      history := history + [c];
    }

    /** `request` when its wait is over: the response if one was handed over, else nobody waits any
        more and the id is free. */
    method EndRequest(slot: SlotId, id: MsgId, clock: Readings) returns (r: Option<Message>)
      requires Valid()
      modifies this`pending, this`waiting, this`history
      ensures Valid()
      ensures r == LastHanded(Held(old(ledger), Handed(slot)))
      ensures r.Some? ==> View() == old(View())
      ensures r.None? ==> View() == CloseSlot(old(View()), slot, id) && !Alive(View(), slot, id)
    {
      assert ResponseMatches(responses, Held(ledger, Handed(slot)), slot);
      if slot in responses {
        return Some(responses[slot]);
      }
      FreeSlot(slot, id, clock);
      return None;
    }

    method FreeSlot(slot: SlotId, id: MsgId, clock: Readings)
      requires Valid()
      modifies this`pending, this`waiting, this`history
      ensures Valid() && View() == CloseSlot(old(View()), slot, id)
    {
      ExtendsByClose(cfg, history, slot, id, clock);
      waiting, pending := waiting - {slot}, pending - {id};
      history := history + [Call(Quiet(DoCloseSlot(slot, id)), clock)];
    }

    // -------------------------------------------------------------- topics

    method Subscribe(agent: AgentId, topic: string, clock: Readings)
      requires Valid()
      modifies this`subscriptions, this`history
      ensures Valid() && history == old(history) + [Call(Quiet(DoSubscribe(agent, topic)), clock)]
      ensures topic in subscriptions && multiset(subscriptions[topic])[agent] ==
                multiset(Subscribers(old(View()), topic))[agent] + 1
    {
      ghost var c := Call(Quiet(DoSubscribe(agent, topic)), clock);
      ExtendsQuietly(cfg, history, DoSubscribe(agent, topic), clock);
      var agents := if topic in subscriptions then subscriptions[topic] else [];
      subscriptions := subscriptions[topic := agents + [agent]];
      history := history + [c];
    }

    method Unsubscribe(agent: AgentId, topic: string, clock: Readings)
      requires Valid()
      modifies this`subscriptions, this`history
      ensures Valid() && history == old(history) + [Call(Quiet(DoUnsubscribe(agent, topic)), clock)]
      ensures topic in subscriptions ==> agent !in subscriptions[topic]
    {
      ghost var c := Call(Quiet(DoUnsubscribe(agent, topic)), clock);
      ExtendsByUnsubscribe(cfg, history, agent, topic, clock);
      ghost var off := Messaging.Unsubscribe(View(), agent, topic);
      TakeOff(agent, topic);
      history := history + [c];
      assert View() == off;
    }

    method TakeOff(agent: AgentId, topic: string)
      modifies this`subscriptions
      ensures View() == Messaging.Unsubscribe(old(View()), agent, topic)
      ensures topic in subscriptions ==> agent !in subscriptions[topic]
    {
      if topic in subscriptions {
        subscriptions := subscriptions[topic := Without(subscriptions[topic], agent)];
      }
    }

    /** Copies go to the subscribers with a mailbox that has room; the count is how many. */
    method Publish(m: Message, clock: Readings) returns (r: Result<SendError>, delivered: nat)
      requires Valid()
      modifies this
      ensures Valid() && history == old(history) + [Call(DoPublish(m), clock)]
      ensures (View(), r, delivered) == Messaging.Publish(cfg, old(View()), m, clock)
      ensures r == Err(Duplicate) <==> m.id in old(seen)
    {
      ExtendsByPublish(cfg, history, m, clock);
      r, delivered := Announce(m, clock);
      history := history + [Call(DoPublish(m), clock)];
    }

    method Announce(m: Message, clock: Readings) returns (r: Result<SendError>, delivered: nat)
      requires Real(None)
      modifies this`seen, this`log, this`channels, this`ledger
      ensures Real(None) && (View(), r, delivered) == Messaging.Publish(cfg, old(View()), m, clock)
    {
      if m.id in seen {
        return Err(Duplicate), 0;
      }
      MarkAsSeen(m.id, clock);
      if m.topic.None? {
        return Err(NoTopic), 0;
      }
      var agents := if m.topic.value in subscriptions then subscriptions[m.topic.value] else [];
      delivered := FanOut(agents, m);
      r := Ok;
    }

    method FanOut(agents: seq<AgentId>, m: Message) returns (delivered: nat)
      requires Real(None)
      modifies this`channels, this`ledger
      ensures Real(None) && (View(), delivered) == Fan(old(View()), agents, m)
    {
      delivered := 0;
      ghost var start := View();
      for i := 0 to |agents|
        invariant Real(None) && (View(), delivered) == Fan(start, agents[..i], m)
      {
        delivered := FanNext(agents, i, m, delivered, start);
      }
      assert agents[..|agents|] == agents;
    }

    method FanNext(agents: seq<AgentId>, i: nat, m: Message, before: nat, ghost start: Bus) returns (delivered: nat)
      requires Real(None) && i < |agents| && (View(), before) == Fan(start, agents[..i], m)
      modifies this`channels, this`ledger
      ensures Real(None) && (View(), delivered) == Fan(start, agents[..i + 1], m)
    {
      FanSnoc(start, agents[..i], agents[i], m);
      assert agents[..i + 1] == agents[..i] + [agents[i]];
      var copied := CopyTo(agents[i], m);
      delivered := if copied then before + 1 else before;
    }

    static lemma FanSnoc(s: Bus, rest: seq<AgentId>, a: AgentId, m: Message)
      ensures var (s1, n) := Fan(s, rest, m);
              var (s2, k) := FanOne(s1, a, m);
              Fan(s, rest + [a], m) == (s2, n + k)
    {
      assert (rest + [a])[..|rest|] == rest;
    }

    method CopyTo(a: AgentId, m: Message) returns (copied: bool)
      requires Real(None)
      modifies this`channels, this`ledger
      ensures Real(None) && (View(), if copied then 1 else 0) == FanOne(old(View()), a, m)
    {
      copied := false;
      if a in mailboxes {
        if CanTake(mailboxes[a]) {
          ghost var copy := PutCopy(View(), Buffer(mailboxes[a]), m);
          PushMatches(channels, offlineQueues, responses, ledger, None, mailboxes[a], Copy(m));
          channels := channels[mailboxes[a] := Buffered(mailboxes[a]) + [m]];
          ledger := copy.at;
          copied := true;
        }
      }
    }

    // -------------------------------------------------------------- receiving

    /** The receiver of a channel takes its oldest message. */
    method TryRecv(ch: ChanId, clock: Readings) returns (m: Option<Message>)
      requires Valid()
      modifies this
      ensures Valid() && history == old(history) + [Call(DoReceive(ch), clock)]
      ensures m.None? <==> old(Buffered(ch)) == []
      ensures m.Some? ==> old(Buffered(ch)) == [m.value] + Buffered(ch)
      ensures Stream(View(), ch) == Stream(old(View()), ch)
    {
      ghost var c := Call(DoReceive(ch), clock);
      ExtendsByReceive(cfg, history, ch, clock);
      m := Poll(ch);
      history := history + [c];
    }

    method Poll(ch: ChanId) returns (m: Option<Message>)
      requires Real(None)
      modifies this`channels, this`ledger, this`log
      ensures Real(None) && View() == Receive(old(View()), ch)
      ensures m.None? <==> old(Buffered(ch)) == []
      ensures m.Some? ==> old(Buffered(ch)) == [m.value] + Buffered(ch)
    {
      assert Buffered(ch) == Texts(Held(ledger, Buffer(ch)));
      if ch in channels && channels[ch] != [] {
        m := Some(channels[ch][0]);
        TakeFirst(ch);
      } else {
        m := None;
      }
    }

    method TakeFirst(ch: ChanId)
      requires Real(None) && Held(ledger, Buffer(ch)) != [] && ch in channels && channels[ch] != []
      modifies this`channels, this`ledger, this`log
      ensures Real(None) && View() == Move(old(View()), Buffer(ch), Received(ch))
      ensures Buffered(ch) == old(Buffered(ch))[1..]
    {
      ghost var taken := Move(View(), Buffer(ch), Received(ch));
      ghost var e, less := Held(ledger, Buffer(ch))[0], ledger[Buffer(ch) := Held(ledger, Buffer(ch))[1..]];
      PopMatches(channels, offlineQueues, responses, ledger, ch);
      channels := channels[ch := channels[ch][1..]];
      AsideMatches(channels, offlineQueues, responses, less, None, Received(ch), Held(less, Received(ch)) + [e]);
      Settle(taken, None);
    }
  }
}
