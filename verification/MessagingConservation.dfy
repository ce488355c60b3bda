/** Conservation on the message bus, over every run of its calls. */
module MessagingConservation {
  import opened Messaging

  // ---------------------------------------------------------------- exactly one place

  ghost predicate HoldsAt(s: Bus, p: Place, i: int, t: Token) {
    0 <= i < |At(s, p)| && At(s, p)[i].Direct? && At(s, p)[i].token == t
  }

  /** The accepted message `t` is in one place, at one position, and nowhere else. */
  ghost predicate InOnePlace(s: Bus, t: Token) {
    exists p, i :: HoldsAt(s, p, i, t) && forall q, j :: HoldsAt(s, q, j, t) ==> q == p && j == i
  }

  /** The message is where the bookkeeping says, at one position, and nowhere else. */
  ghost predicate Located(s: Bus, t: Token) {
    t in s.log.whereIs && exists i :: HeldOnlyAt(s, s.log.whereIs[t], i, t)
  }

  ghost predicate HeldOnlyAt(s: Bus, p: Place, i: int, t: Token) {
    HoldsAt(s, p, i, t) && forall q, j :: HoldsAt(s, q, j, t) ==> q == p && j == i
  }

  /** A token given out is located, and any other is nowhere. */
  ghost predicate Placed(s: Bus, t: Token) {
    if t < s.log.next then Located(s, t) else forall p, i :: !HoldsAt(s, p, i, t)
  }

  /** The bookkeeping tells the place of every accepted message. */
  ghost predicate Conserved(s: Bus) { forall t: Token :: Placed(s, t) }

  lemma ConservedMeansOnePlace(s: Bus, t: Token)
    requires Conserved(s) && t < s.log.next
    ensures InOnePlace(s, t)
  {
    assert Placed(s, t);
  }

  /** Only `at`, `next` and `whereIs` matter. */
  lemma SameStoreConserved(s: Bus, s': Bus)
    requires Conserved(s) && s'.log.next == s.log.next && s'.log.whereIs == s.log.whereIs
    requires forall p :: At(s', p) == At(s, p)
    ensures Conserved(s')
  {
    assert forall p, i, t: Token :: HoldsAt(s', p, i, t) <==> HoldsAt(s, p, i, t);
    forall t: Token ensures Placed(s', t) {
      assert Placed(s, t);
      if t < s.log.next {
        var i :| HeldOnlyAt(s, s.log.whereIs[t], i, t);
        assert HeldOnlyAt(s', s'.log.whereIs[t], i, t);
      }
    }
  }

  lemma PutConserves(s: Bus, p: Place, m: Message)
    requires Conserved(s)
    ensures Conserved(Put(s, p, m))
  {
    var s', k := Put(s, p, m), |At(s, p)|;
    forall q, i, t: Token
      ensures HoldsAt(s', q, i, t) <==> HoldsAt(s, q, i, t) || (q == p && i == k && t == s.log.next)
    {
    }
    forall t: Token ensures Placed(s', t) {
      assert Placed(s, t);
      if t < s.log.next {
        var i :| HeldOnlyAt(s, s.log.whereIs[t], i, t);
        assert HeldOnlyAt(s', s'.log.whereIs[t], i, t);
      } else if t == s.log.next {
        assert HeldOnlyAt(s', p, k, t);
      }
    }
  }

  /** What a place holds after a move, in terms of what places held before. */
  lemma MovedFrom(s: Bus, p: Place, q: Place, r: Place, i: int, t: Token)
    requires At(s, p) != [] && p != q
    ensures HoldsAt(Move(s, p, q), r, i, t) <==>
              if r == p then i >= 0 && HoldsAt(s, p, i + 1, t)
              else HoldsAt(s, r, i, t) || (r == q && i == |At(s, q)| && HoldsAt(s, p, 0, t))
  {
  }

  lemma MoveKeepsPlaced(s: Bus, p: Place, q: Place, t: Token)
    requires Placed(s, t) && At(s, p) != [] && p != q
    ensures Placed(Move(s, p, q), t)
  {
    var s' := Move(s, p, q);
    if t < s.log.next {
      var w := s.log.whereIs[t];
      var i :| HeldOnlyAt(s, w, i, t);
      assert HoldsAt(s, p, 0, t) ==> w == p && i == 0;
      var w', i' := if w == p && i == 0 then q else w, if w == p then if i == 0 then |At(s, q)| else i - 1 else i;
      MovedFrom(s, p, q, w', i', t);
      forall r, j | HoldsAt(s', r, j, t) ensures r == w' && j == i' {
        MovedFrom(s, p, q, r, j, t);
      }
      assert HeldOnlyAt(s', w', i', t);
    } else {
      forall r, j ensures !HoldsAt(s', r, j, t) {
        MovedFrom(s, p, q, r, j, t);
      }
    }
  }

  lemma MoveConserves(s: Bus, p: Place, q: Place)
    requires Conserved(s) && At(s, p) != [] && p != q
    ensures Conserved(Move(s, p, q))
  {
    forall t: Token ensures Placed(Move(s, p, q), t) {
      assert Placed(s, t);
      MoveKeepsPlaced(s, p, q, t);
    }
  }

  lemma {:induction false} MoveAllConserves(s: Bus, p: Place, q: Place)
    requires Conserved(s) && p != q
    ensures Conserved(MoveAll(s, p, q))
    decreases |At(s, p)|
  {
    if At(s, p) != [] {
      MoveConserves(s, p, q);
      MoveAllConserves(Move(s, p, q), p, q);
    }
  }

  lemma CopyConserves(s: Bus, p: Place, m: Message)
    requires Conserved(s)
    ensures Conserved(PutCopy(s, p, m))
  {
    var s' := PutCopy(s, p, m);
    forall q, i, t: Token ensures HoldsAt(s', q, i, t) <==> HoldsAt(s, q, i, t) {
    }
    forall t: Token ensures Placed(s', t) {
      assert Placed(s, t);
      if t < s.log.next {
        var i :| HeldOnlyAt(s, s.log.whereIs[t], i, t);
        assert HeldOnlyAt(s', s'.log.whereIs[t], i, t);
      }
    }
  }

  // ---------------------------------------------------------------- each critical section

  lemma RespondConserves(s: Bus, m: Message, request: MsgId)
    requires Conserved(s) && request in s.pending
    ensures Conserved(Respond(s, m, request))
  {
    var slot := s.pending[request];
    var s1 := s.(pending := s.pending - {request}, waiting := s.waiting - {slot});
    SameStoreConserved(s, s1);
    PutConserves(s1, if slot in s.waiting then Handed(slot) else Lost(RequesterGone), m);
  }

  lemma QueueOfflineConserves(cfg: Settings, s: Bus, a: AgentId, m: Message)
    requires Conserved(s)
    ensures Conserved(QueueOffline(cfg, s, a, m))
  {
    var q := Offline(a);
    var s1 := s;
    if |At(s, q)| >= cfg.maxQueue && At(s, q) != [] {
      MoveConserves(s, q, Lost(Evicted));
      s1 := Move(s, q, Lost(Evicted));
    }
    PutConserves(s1, q, m);
    SameStoreConserved(Put(s1, q, m), QueueOffline(cfg, s, a, m));
  }

  lemma {:induction false} DrainConserves(s: Bus, a: AgentId, wall: nat -> nat)
    requires Conserved(s)
    ensures Conserved(Drain(s, a, wall))
    decreases |At(s, Offline(a))|
  {
    var q := Offline(a);
    if At(s, q) == [] {
      SameStoreConserved(s, Drain(s, a, wall));
    } else {
      var fate := Fate(s, a, At(s, q)[0], wall(|At(s, q)|));
      MoveConserves(s, q, fate);
      DrainConserves(Move(s, q, fate), a, wall);
    }
  }

  lemma RouteConserves(cfg: Settings, s: Bus, m: Message, a: AgentId)
    requires Conserved(s)
    ensures Conserved(Route(cfg, s, m, a).0)
  {
    if m.isResponse && m.correlation.Some? && m.correlation.value in s.pending {
      RespondConserves(s, m, m.correlation.value);
    } else if a in s.mailboxes {
      PutConserves(s, Buffer(s.mailboxes[a]), m);
    } else {
      QueueOfflineConserves(cfg, s, a, m);
    }
  }

  lemma {:induction false} FanConserves(s: Bus, agents: seq<AgentId>, m: Message)
    requires Conserved(s)
    ensures Conserved(Fan(s, agents, m).0)
  {
    if agents != [] {
      FanConserves(s, agents[..|agents| - 1], m);
      var s1 := Fan(s, agents[..|agents| - 1], m).0;
      var a := agents[|agents| - 1];
      if a in s1.mailboxes {
        CopyConserves(s1, Buffer(s1.mailboxes[a]), m);
      }
    }
  }

  lemma SendConserves(cfg: Settings, s: Bus, m: Message, clock: Readings)
    requires Conserved(s)
    ensures Conserved(Send(cfg, s, m, clock).0)
  {
    if m.id !in s.seen {
      var s1 := MarkSeen(cfg, s, m.id, clock);
      SameStoreConserved(s, s1);
      if m.recipient.Some? {
        RouteConserves(cfg, s1, m, m.recipient.value);
      }
    }
  }

  lemma PublishConserves(cfg: Settings, s: Bus, m: Message, clock: Readings)
    requires Conserved(s)
    ensures Conserved(Publish(cfg, s, m, clock).0)
  {
    if m.id !in s.seen {
      var s1 := MarkSeen(cfg, s, m.id, clock);
      SameStoreConserved(s, s1);
      if m.topic.Some? {
        FanConserves(s1, Subscribers(s1, m.topic.value), m);
      }
    }
  }

  lemma RegisterConserves(s: Bus, a: AgentId, wall: nat -> nat)
    requires Conserved(s)
    ensures Conserved(Register(s, a, wall))
  {
    SameStoreConserved(s, InsertMailbox(s, a));
    DrainConserves(InsertMailbox(s, a), a, wall);
  }

  lemma DropMailboxConserves(s: Bus, ch: ChanId)
    requires Conserved(s)
    ensures Conserved(DropMailbox(s, ch))
  {
    var s1 := s.(open := s.open - {ch});
    SameStoreConserved(s, s1);
    MoveAllConserves(s1, Buffer(ch), Lost(MailboxDropped));
  }

  lemma ReceiveConserves(s: Bus, ch: ChanId)
    requires Conserved(s)
    ensures Conserved(Receive(s, ch))
  {
    if At(s, Buffer(ch)) != [] {
      MoveConserves(s, Buffer(ch), Received(ch));
    }
  }

  lemma QuietConserves(s: Bus, op: QuietOp)
    requires Conserved(s)
    ensures Conserved(StepQuiet(s, op))
  {
    QuietFrame(s, op);
    SameStoreConserved(s, StepQuiet(s, op));
  }

  lemma StepConserves(cfg: Settings, s: Bus, c: Call)
    requires Conserved(s)
    ensures Conserved(Step(cfg, s, c))
  {
    match c.op
    case DoRegister(a) => RegisterConserves(s, a, c.clock.wall);
    case DoSend(m) => SendConserves(cfg, s, m, c.clock);
    case DoPublish(m) => PublishConserves(cfg, s, m, c.clock);
    case DoReceive(ch) => ReceiveConserves(s, ch);
    case DoDropMailbox(ch) => DropMailboxConserves(s, ch);
    case Quiet(op) => QuietConserves(s, op);
  }

  // ---------------------------------------------------------------- conservation, main result

  lemma {:induction false} RunConserves(cfg: Settings, calls: seq<Call>)
    ensures Conserved(Run(cfg, calls))
  {
    if calls != [] {
      RunConserves(cfg, calls[..|calls| - 1]);
      StepConserves(cfg, Run(cfg, calls[..|calls| - 1]), calls[|calls| - 1]);
    }
  }
}
