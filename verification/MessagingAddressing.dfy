/** The right message in the right place: whatever happens to an accepted message, it stays the one
    that was sent, and it only ever is where its recipient, or the requester it answers, gets it. */
module MessagingAddressing {
  import opened Basics
  import opened Messaging
  import opened MessagingConservation

  /** The places a message may be in. */
  predicate Fits(log: Log, p: Place, m: Message) {
    match p
    case Buffer(ch) => ch in log.owner && m.recipient == Some(log.owner[ch])
    case Received(ch) => ch in log.owner && m.recipient == Some(log.owner[ch])
    case Offline(a) => m.recipient == Some(a)
    case Handed(slot) => m.isResponse && slot in log.asked && m.correlation == Some(log.asked[slot])
    case Lost(_) => true
  }

  /** An envelope carries what was sent under its token, and is where it belongs. */
  predicate Proper(log: Log, p: Place, e: Envelope) {
    e.Direct? ==> e.token < |log.sent| && log.sent[e.token] == e.msg && Fits(log, p, e.msg)
  }

  /** Mailboxes lead to channels of their agents, and request ids to slots of their requests. */
  predicate Linked(s: Bus) {
    && (forall a :: a in s.mailboxes ==> s.mailboxes[a] in s.log.owner && s.log.owner[s.mailboxes[a]] == a)
    && (forall ch :: ch in s.log.owner ==> ch < s.nextChan)
    && (forall id :: id in s.pending ==> s.pending[id] in s.log.asked && s.log.asked[s.pending[id]] == id)
    && (forall slot :: slot in s.log.asked ==> slot < s.nextSlot)
  }

  ghost predicate Addressed(s: Bus) {
    && |s.log.sent| == s.log.next && Linked(s)
    && forall p, e :: e in At(s, p) ==> Proper(s.log, p, e)
  }

  /** Nothing that was recorded is changed, only added to. */
  predicate Grows(log: Log, log': Log) {
    && log.sent <= log'.sent
    && (forall ch :: ch in log.owner ==> ch in log'.owner && log'.owner[ch] == log.owner[ch])
    && (forall slot :: slot in log.asked ==> slot in log'.asked && log'.asked[slot] == log.asked[slot])
  }

  /** Every envelope after a step was proper before it in its place, or is proper now. */
  lemma Transfer(s: Bus, s': Bus)
    requires Addressed(s) && Grows(s.log, s'.log) && Linked(s') && |s'.log.sent| == s'.log.next
    requires forall p, e :: e in At(s', p) ==> e in At(s, p) || Proper(s'.log, p, e)
    ensures Addressed(s')
  {
    forall p, e | e in At(s', p) ensures Proper(s'.log, p, e) {
      if e in At(s, p) {
        assert Proper(s.log, p, e);
      }
    }
  }

  // ---------------------------------------------------------------- each critical section

  lemma PutAddressed(s: Bus, p: Place, m: Message)
    requires Addressed(s) && Fits(s.log, p, m)
    ensures Addressed(Put(s, p, m))
  {
    var s' := Put(s, p, m);
    forall q, e | e in At(s', q) ensures e in At(s, q) || Proper(s'.log, q, e) {
      if e !in At(s, q) {
        assert q == p && e == Direct(s.log.next, m);
      }
    }
    Transfer(s, s');
  }

  lemma MoveAddressed(s: Bus, p: Place, q: Place)
    requires Addressed(s) && At(s, p) != [] && p != q
    requires At(s, p)[0].Direct? ==> Fits(s.log, q, At(s, p)[0].msg)
    ensures Addressed(Move(s, p, q))
  {
    var s' := Move(s, p, q);
    var first := At(s, p)[0];
    assert first in At(s, p) && Proper(s.log, p, first);
    forall r, e | e in At(s', r) ensures e in At(s, r) || Proper(s'.log, r, e) {
      if e !in At(s, r) {
        assert r == q && e == first;
      }
    }
    Transfer(s, s');
  }

  lemma {:induction false} MoveAllAddressed(s: Bus, p: Place, cause: Cause)
    requires Addressed(s) && !p.Lost?
    ensures Addressed(MoveAll(s, p, Lost(cause)))
    decreases |At(s, p)|
  {
    if At(s, p) != [] {
      MoveAddressed(s, p, Lost(cause));
      MoveAllAddressed(Move(s, p, Lost(cause)), p, cause);
    }
  }

  lemma RespondAddressed(s: Bus, m: Message, request: MsgId)
    requires Addressed(s) && request in s.pending && m.isResponse && m.correlation == Some(request)
    ensures Addressed(Respond(s, m, request))
  {
    var slot := s.pending[request];
    var s1 := s.(pending := s.pending - {request}, waiting := s.waiting - {slot});
    Transfer(s, s1);
    PutAddressed(s1, if slot in s.waiting then Handed(slot) else Lost(RequesterGone), m);
  }

  lemma QueueOfflineAddressed(cfg: Settings, s: Bus, a: AgentId, m: Message)
    requires Addressed(s) && m.recipient == Some(a)
    ensures Addressed(QueueOffline(cfg, s, a, m))
  {
    var q := Offline(a);
    var s1 := s;
    if |At(s, q)| >= cfg.maxQueue && At(s, q) != [] {
      MoveAddressed(s, q, Lost(Evicted));
      s1 := Move(s, q, Lost(Evicted));
    }
    PutAddressed(s1, q, m);
    Transfer(Put(s1, q, m), QueueOffline(cfg, s, a, m));
  }

  lemma {:induction false} DrainAddressed(s: Bus, a: AgentId, wall: nat -> nat)
    requires Addressed(s)
    ensures Addressed(Drain(s, a, wall))
    decreases |At(s, Offline(a))|
  {
    var q := Offline(a);
    if At(s, q) == [] {
      Transfer(s, Drain(s, a, wall));
    } else {
      var first := At(s, q)[0];
      assert first in At(s, q) && Proper(s.log, q, first);
      MoveAddressed(s, q, Fate(s, a, first, wall(|At(s, q)|)));
      DrainAddressed(Move(s, q, Fate(s, a, first, wall(|At(s, q)|))), a, wall);
    }
  }

  lemma RouteAddressed(cfg: Settings, s: Bus, m: Message, a: AgentId)
    requires Addressed(s) && m.recipient == Some(a)
    ensures Addressed(Route(cfg, s, m, a).0)
  {
    if m.isResponse && m.correlation.Some? && m.correlation.value in s.pending {
      RespondAddressed(s, m, m.correlation.value);
    } else if a in s.mailboxes {
      PutAddressed(s, Buffer(s.mailboxes[a]), m);
    } else {
      QueueOfflineAddressed(cfg, s, a, m);
    }
  }

  lemma SendAddressed(cfg: Settings, s: Bus, m: Message, clock: Readings)
    requires Addressed(s)
    ensures Addressed(Send(cfg, s, m, clock).0)
  {
    if m.id !in s.seen {
      Transfer(s, MarkSeen(cfg, s, m.id, clock));
      if m.recipient.Some? {
        RouteAddressed(cfg, MarkSeen(cfg, s, m.id, clock), m, m.recipient.value);
      }
    }
  }

  lemma {:induction false} FanAddressed(s: Bus, agents: seq<AgentId>, m: Message)
    requires Addressed(s)
    ensures Addressed(Fan(s, agents, m).0)
  {
    if agents != [] {
      FanAddressed(s, agents[..|agents| - 1], m);
      var s1 := Fan(s, agents[..|agents| - 1], m).0;
      var a := agents[|agents| - 1];
      if a in s1.mailboxes {
        Transfer(s1, PutCopy(s1, Buffer(s1.mailboxes[a]), m));
      }
    }
  }

  lemma PublishAddressed(cfg: Settings, s: Bus, m: Message, clock: Readings)
    requires Addressed(s)
    ensures Addressed(Publish(cfg, s, m, clock).0)
  {
    if m.id !in s.seen {
      var s1 := MarkSeen(cfg, s, m.id, clock);
      Transfer(s, MarkSeen(cfg, s, m.id, clock));
      if m.topic.Some? {
        FanAddressed(s1, Subscribers(s1, m.topic.value), m);
      }
    }
  }

  lemma ReceiveAddressed(s: Bus, ch: ChanId)
    requires Addressed(s)
    ensures Addressed(Receive(s, ch))
  {
    if At(s, Buffer(ch)) != [] {
      assert Proper(s.log, Buffer(ch), At(s, Buffer(ch))[0]);
      MoveAddressed(s, Buffer(ch), Received(ch));
    }
  }

  lemma DropMailboxAddressed(s: Bus, ch: ChanId)
    requires Addressed(s)
    ensures Addressed(DropMailbox(s, ch))
  {
    var s1 := s.(open := s.open - {ch});
    Transfer(s, s1);
    MoveAllAddressed(s1, Buffer(ch), MailboxDropped);
  }

  lemma QuietAddressed(s: Bus, op: QuietOp)
    requires Addressed(s)
    ensures Addressed(StepQuiet(s, op))
  {
    QuietFrame(s, op);
    QuietLinked(s, op);
    Transfer(s, StepQuiet(s, op));
  }

  lemma QuietLinked(s: Bus, op: QuietOp)
    requires Linked(s)
    ensures Linked(StepQuiet(s, op)) && Grows(s.log, StepQuiet(s, op).log)
  {
  }

  lemma StepAddressed(cfg: Settings, s: Bus, c: Call)
    requires Addressed(s)
    ensures Addressed(Step(cfg, s, c))
  {
    match c.op
    case DoRegister(a) =>
      Transfer(s, InsertMailbox(s, a));
      DrainAddressed(InsertMailbox(s, a), a, c.clock.wall);
    case DoSend(m) => SendAddressed(cfg, s, m, c.clock);
    case DoPublish(m) => PublishAddressed(cfg, s, m, c.clock);
    case DoReceive(ch) => ReceiveAddressed(s, ch);
    case DoDropMailbox(ch) => DropMailboxAddressed(s, ch);
    case Quiet(op) => QuietAddressed(s, op);
  }

  lemma {:induction false} RunAddressed(cfg: Settings, calls: seq<Call>)
    ensures Addressed(Run(cfg, calls))
  {
    if calls != [] {
      RunAddressed(cfg, calls[..|calls| - 1]);
      StepAddressed(cfg, Run(cfg, calls[..|calls| - 1]), calls[|calls| - 1]);
    }
  }

  // ---------------------------------------------------------------- main results

  /** A send that answers Ok takes the next token for its message; any other answer takes none and
      moves nothing. */
  lemma OkTakesOneToken(cfg: Settings, s: Bus, m: Message, clock: Readings)
    ensures var (s', r) := Send(cfg, s, m, clock);
            && (r == Ok ==> s'.log.next == s.log.next + 1 && s'.log.sent == s.log.sent + [m])
            && (r != Ok ==> s'.log.next == s.log.next && s'.log.sent == s.log.sent && s'.at == s.at)
            && (r == Err(Duplicate) <==> m.id in s.seen)
  {
  }

  /** The message accepted as number `t` is in one place, at one position and nowhere else, unchanged,
      and that place is its recipient's or that of the requester it answers. */
  ghost predicate InExactlyOnePlace(s: Bus, t: Token) {
    t < |s.log.sent| &&
    exists p, i :: HoldsAt(s, p, i, t) && At(s, p)[i].msg == s.log.sent[t] && Fits(s.log, p, s.log.sent[t]) &&
                   forall q, j :: HoldsAt(s, q, j, t) ==> q == p && j == i
  }

  lemma OnePlaceAndProper(s: Bus, t: Token)
    requires Conserved(s) && Addressed(s) && t < s.log.next
    ensures InExactlyOnePlace(s, t)
  {
    ConservedMeansOnePlace(s, t);
    var p, i :| HoldsAt(s, p, i, t) && forall q, j :: HoldsAt(s, q, j, t) ==> q == p && j == i;
    assert At(s, p)[i] in At(s, p) && Proper(s.log, p, At(s, p)[i]);
  }

  /** After any run, every direct message whose send was answered Ok is in exactly one place: the
      buffer of a receiver of its recipient, received there, the recipient's offline queue, handed to
      the requester it answers, or lost for a named cause. */
  lemma EveryAcceptedMessageInOnePlace(cfg: Settings, calls: seq<Call>, t: Token)
    requires t < Run(cfg, calls).log.next
    ensures InExactlyOnePlace(Run(cfg, calls), t)
  {
    RunConserves(cfg, calls);
    RunAddressed(cfg, calls);
    OnePlaceAndProper(Run(cfg, calls), t);
  }

  // ---------------------------------------------------------------- publishing

  /** How many of the subscribers listed have `ch` as their mailbox. */
  function SubscribersAt(mailboxes: map<AgentId, ChanId>, agents: seq<AgentId>, ch: ChanId): (n: nat) {
    if agents == [] then 0
    else
      var a := agents[|agents| - 1];
      SubscribersAt(mailboxes, agents[..|agents| - 1], ch) + if a in mailboxes && mailboxes[a] == ch then 1 else 0
  }

  function Copies(m: Message, n: nat): (es: seq<Envelope>)
    ensures |es| == n
  {
    seq(n, _ => Copy(m))
  }

  function Room(s: Bus, ch: ChanId): (n: nat) {
    if ch in s.open && |At(s, Buffer(ch))| < CHANNEL_CAPACITY then CHANNEL_CAPACITY - |At(s, Buffer(ch))| else 0
  }

  function Min(a: nat, b: nat): (c: nat) { if a <= b then a else b }

  lemma FanOneDelivers(s: Bus, a: AgentId, m: Message, ch: ChanId)
    ensures At(FanOne(s, a, m).0, Buffer(ch)) ==
              At(s, Buffer(ch)) + if a in s.mailboxes && s.mailboxes[a] == ch && Room(s, ch) > 0 then [Copy(m)] else []
    ensures FanOne(s, a, m).0.open == s.open && FanOne(s, a, m).0.mailboxes == s.mailboxes
  {
  }

  lemma CopiesOneMore(m: Message, n: nat)
    ensures Copies(m, n + 1) == Copies(m, n) + [Copy(m)]
  {
  }

  lemma FanOneMore(s: Bus, rest: seq<AgentId>, a: AgentId, m: Message, ch: ChanId, s1: Bus)
    requires s1.open == s.open && s1.mailboxes == s.mailboxes
    requires At(s1, Buffer(ch)) ==
               At(s, Buffer(ch)) + Copies(m, Min(SubscribersAt(s.mailboxes, rest, ch), Room(s, ch)))
    ensures At(s1, Buffer(ch)) + (if a in s.mailboxes && s.mailboxes[a] == ch && Room(s1, ch) > 0 then [Copy(m)] else [])
            == At(s, Buffer(ch)) + Copies(m, Min(SubscribersAt(s.mailboxes, rest + [a], ch), Room(s, ch)))
  {
    assert (rest + [a])[..|rest|] == rest;
    CopiesOneMore(m, Min(SubscribersAt(s.mailboxes, rest, ch), Room(s, ch)));
  }

  /** Each channel gets one copy for each subscription of its agent, as far as it has room. */
  lemma {:induction false} FanDelivers(s: Bus, agents: seq<AgentId>, m: Message, ch: ChanId)
    ensures At(Fan(s, agents, m).0, Buffer(ch)) ==
              At(s, Buffer(ch)) + Copies(m, Min(SubscribersAt(s.mailboxes, agents, ch), Room(s, ch)))
  {
    if agents == [] {
      assert Copies(m, 0) == [];
    } else {
      var rest, a := agents[..|agents| - 1], agents[|agents| - 1];
      FanDelivers(s, rest, m, ch);
      var s1 := Fan(s, rest, m).0;
      FanOneDelivers(s1, a, m, ch);
      FanOneMore(s, rest, a, m, ch, s1);
      assert Fan(s, agents, m).0 == FanOne(s1, a, m).0;
      assert rest + [a] == agents;
    }
  }
}
