/** Requests and their responses: what becomes of the slot a request opens, whatever calls come
    between the request and the response. */
module MessagingRequests {
  import opened Basics
  import opened Messaging
  import opened MessagingAddressing

  /** `request` up to the point where it starts to wait: the slot is stored, the message sent, and
      on an error the call returns at once. */
  function BeginRequest(cfg: Settings, s: Bus, m: Message, clock: Readings): (r: (Bus, Result<SendError>)) {
    var (s1, answer) := Send(cfg, OpenSlot(s, m.id), m, clock);
    if answer == Ok then (s1, Ok) else (AbandonSlot(s1, s.nextSlot), answer)
  }

  function RunFrom(cfg: Settings, s: Bus, calls: seq<Call>): (s': Bus) {
    if calls == [] then s else Step(cfg, RunFrom(cfg, s, calls[..|calls| - 1]), calls[|calls| - 1])
  }

  lemma {:induction false} RunFromAddressed(cfg: Settings, s: Bus, calls: seq<Call>)
    requires Addressed(s)
    ensures Addressed(RunFrom(cfg, s, calls))
  {
    if calls != [] {
      RunFromAddressed(cfg, s, calls[..|calls| - 1]);
      StepAddressed(cfg, RunFrom(cfg, s, calls[..|calls| - 1]), calls[|calls| - 1]);
    }
  }

  // ---------------------------------------------------------------- what a caller can check

  /** The duplicate, expiry and recipient checks of `send`. */
  predicate Passes(s: Bus, m: Message, wall: nat) {
    m.id !in s.seen && !m.Expired(wall) && m.recipient.Some?
  }

  /** A response to the request `id` that passes the checks of `send`. */
  predicate Answers(s: Bus, id: MsgId, m: Message, wall: nat) {
    m.isResponse && m.correlation == Some(id) && Passes(s, m, wall)
  }

  /** The message is a response to a request whose slot is stored. */
  predicate Responds(s: Bus, m: Message) {
    m.isResponse && m.correlation.Some? && m.correlation.value in s.pending
  }

  /** A send is accepted: it passes the checks, and it answers a request, or its recipient is not
      registered, or the recipient's channel has room. */
  predicate Accepts(s: Bus, m: Message, wall: nat) {
    && Passes(s, m, wall)
    && (Responds(s, m) || (m.recipient.value in s.mailboxes ==> HasRoom(s, s.mailboxes[m.recipient.value])))
  }

  /** A message that claims to be the response to itself. */
  predicate AnswersItself(m: Message) { m.isResponse && m.correlation == Some(m.id) }

  lemma SendAcceptsExactlyWhen(cfg: Settings, s: Bus, m: Message, clock: Readings)
    ensures Send(cfg, s, m, clock).1 == Ok <==> Accepts(s, m, clock.wall(0))
  {
  }

  // ---------------------------------------------------------------- the life of a slot

  /** The slot is stored under its request. */
  predicate Stored(s: Bus, slot: SlotId, id: MsgId) { id in s.pending && s.pending[id] == slot }

  /** The slot is stored and its requester waits. */
  predicate Alive(s: Bus, slot: SlotId, id: MsgId) { Stored(s, slot, id) && slot in s.waiting }

  /** Calls that take what is stored under the request `id`: a timeout or closed channel of a request
      with that id, another request with that id, and a response to it that passes the checks. */
  predicate Takes(s: Bus, c: Call, id: MsgId) {
    match c.op
    case Quiet(DoCloseSlot(_, i)) => i == id
    case Quiet(DoOpenSlot(i)) => i == id
    case DoSend(m) => Answers(s, id, m, c.clock.wall(0))
    case _ => false
  }

  /** Calls by which the requester stops waiting. */
  predicate Leaves(c: Call, slot: SlotId) {
    match c.op
    case Quiet(DoCloseSlot(sl, _)) => sl == slot
    case Quiet(DoAbandonSlot(sl)) => sl == slot
    case _ => false
  }

  predicate TakenDuring(cfg: Settings, s: Bus, calls: seq<Call>, id: MsgId) {
    calls != [] &&
    (var k := |calls| - 1; TakenDuring(cfg, s, calls[..k], id) || Takes(RunFrom(cfg, s, calls[..k]), calls[k], id))
  }

  predicate LeftDuring(calls: seq<Call>, slot: SlotId) {
    exists i :: 0 <= i < |calls| && Leaves(calls[i], slot)
  }

  /** The slot was opened for the request. */
  predicate OpenedFor(s: Bus, slot: SlotId, id: MsgId) { slot in s.log.asked && s.log.asked[slot] == id }

  /** Nothing but the slot of the given request, if any, was taken. */
  predicate OnlyTaken(s: Bus, s': Bus, taken: Option<MsgId>) {
    && s'.log.asked == s.log.asked
    && match taken
       case None => s'.pending == s.pending && s'.waiting == s.waiting
       case Some(i) => i in s.pending && s'.pending == s.pending - {i} && s'.waiting == s.waiting - {s.pending[i]}
  }

  lemma RouteTakes(cfg: Settings, s: Bus, m: Message, a: AgentId)
    ensures OnlyTaken(s, Route(cfg, s, m, a).0, if Responds(s, m) then m.correlation else None)
  {
    if !Responds(s, m) && a !in s.mailboxes {
      QueueFrame(cfg, s, a, m);
    }
  }

  lemma SendTakes(cfg: Settings, s: Bus, m: Message, clock: Readings)
    ensures OnlyTaken(s, Send(cfg, s, m, clock).0,
                      if Passes(s, m, clock.wall(0)) && Responds(s, m) then m.correlation else None)
  {
    var s1 := MarkSeen(cfg, s, m.id, clock);
    if Passes(s, m, clock.wall(0)) {
      assert Send(cfg, s, m, clock) == Route(cfg, s1, m, m.recipient.value) && Responds(s1, m) == Responds(s, m);
      RouteTakes(cfg, s1, m, m.recipient.value);
    } else {
      assert Send(cfg, s, m, clock).0 == s || Send(cfg, s, m, clock).0 == s1;
    }
  }

  lemma SlotAfterTaking(s: Bus, s': Bus, taken: Option<MsgId>, slot: SlotId, id: MsgId)
    requires Linked(s) && OpenedFor(s, slot, id) && OnlyTaken(s, s', taken)
    ensures OpenedFor(s', slot, id)
    ensures Stored(s', slot, id) <==> Stored(s, slot, id) && taken != Some(id)
    ensures Alive(s', slot, id) <==> Alive(s, slot, id) && taken != Some(id)
  {
  }

  lemma SendKeepsSlot(cfg: Settings, s: Bus, m: Message, clock: Readings, slot: SlotId, id: MsgId)
    requires Linked(s) && OpenedFor(s, slot, id)
    ensures var s' := Send(cfg, s, m, clock).0;
            && OpenedFor(s', slot, id)
            && (Stored(s', slot, id) <==> Stored(s, slot, id) && !Answers(s, id, m, clock.wall(0)))
            && (Alive(s', slot, id) <==> Alive(s, slot, id) && !Answers(s, id, m, clock.wall(0)))
  {
    SendTakes(cfg, s, m, clock);
    var taken := if Passes(s, m, clock.wall(0)) && Responds(s, m) then m.correlation else None;
    SlotAfterTaking(s, Send(cfg, s, m, clock).0, taken, slot, id);
  }

  /** Calls other than sends and those on slots leave the slots alone. */
  lemma OthersTakeNothing(cfg: Settings, s: Bus, c: Call)
    requires c.op.DoRegister? || c.op.DoPublish? || c.op.DoReceive? || c.op.DoDropMailbox?
    ensures OnlyTaken(s, Step(cfg, s, c), None)
  {
    match c.op
    case DoRegister(a) => DrainFrame(InsertMailbox(s, a), a, c.clock.wall);
    case DoPublish(m) => PublishTakesNothing(cfg, s, m, c.clock);
    case DoReceive(ch) =>
    case DoDropMailbox(ch) =>
  }

  lemma PublishTakesNothing(cfg: Settings, s: Bus, m: Message, clock: Readings)
    ensures OnlyTaken(s, Publish(cfg, s, m, clock).0, None)
  {
  }

  lemma QuietKeepsSlot(s: Bus, op: QuietOp, clock: Readings, slot: SlotId, id: MsgId)
    requires Linked(s) && OpenedFor(s, slot, id)
    ensures var s', c := StepQuiet(s, op), Call(Quiet(op), clock);
            && OpenedFor(s', slot, id)
            && (Stored(s', slot, id) <==> Stored(s, slot, id) && !Takes(s, c, id))
            && (Alive(s', slot, id) <==> Alive(s, slot, id) && !Takes(s, c, id) && !Leaves(c, slot))
  {
  }

  lemma StepKeepsSlot(cfg: Settings, s: Bus, c: Call, slot: SlotId, id: MsgId)
    requires Linked(s) && OpenedFor(s, slot, id)
    ensures var s' := Step(cfg, s, c);
            && OpenedFor(s', slot, id)
            && (Stored(s', slot, id) <==> Stored(s, slot, id) && !Takes(s, c, id))
            && (Alive(s', slot, id) <==> Alive(s, slot, id) && !Takes(s, c, id) && !Leaves(c, slot))
  {
    match c.op
    case DoSend(m) => SendKeepsSlot(cfg, s, m, c.clock, slot, id);
    case Quiet(op) => QuietKeepsSlot(s, op, c.clock, slot, id);
    case _ =>
      OthersTakeNothing(cfg, s, c);
      SlotAfterTaking(s, Step(cfg, s, c), None, slot, id);
  }

  lemma LeftOneMore(calls: seq<Call>, slot: SlotId)
    requires calls != []
    ensures LeftDuring(calls, slot) <==>
              LeftDuring(calls[..|calls| - 1], slot) || Leaves(calls[|calls| - 1], slot)
  {
    var rest := calls[..|calls| - 1];
    assert forall i :: 0 <= i < |rest| ==> rest[i] == calls[i];
  }

  /** Over any calls, a slot stays stored exactly until one of them takes it, and stays alive exactly
      until one of them takes it or its requester leaves. */
  lemma {:induction false} SlotLivesExactlyUntil(cfg: Settings, s: Bus, calls: seq<Call>, slot: SlotId, id: MsgId)
    requires Addressed(s) && OpenedFor(s, slot, id)
    ensures var s' := RunFrom(cfg, s, calls);
            && OpenedFor(s', slot, id)
            && (Stored(s', slot, id) <==> Stored(s, slot, id) && !TakenDuring(cfg, s, calls, id))
            && (Alive(s', slot, id) <==>
                  Alive(s, slot, id) && !TakenDuring(cfg, s, calls, id) && !LeftDuring(calls, slot))
  {
    if calls != [] {
      var k := |calls| - 1;
      var rest := calls[..k];
      SlotLivesExactlyUntil(cfg, s, rest, slot, id);
      RunFromAddressed(cfg, s, rest);
      StepKeepsSlot(cfg, RunFrom(cfg, s, rest), calls[k], slot, id);
      LeftOneMore(calls, slot);
    }
  }

  lemma OpenedSlotIsAlive(s: Bus, id: MsgId)
    requires Addressed(s)
    ensures var s0 := OpenSlot(s, id);
            Addressed(s0) && OpenedFor(s0, s.nextSlot, id) && Alive(s0, s.nextSlot, id)
  {
    QuietAddressed(s, DoOpenSlot(id));
  }

  /** What `request` does once its slot is open. */
  lemma SentRequest(cfg: Settings, s0: Bus, m: Message, clock: Readings, slot: SlotId)
    requires Addressed(s0) && OpenedFor(s0, slot, m.id) && Alive(s0, slot, m.id)
    ensures var (sent, answer) := Send(cfg, s0, m, clock);
            var s1 := if answer == Ok then sent else AbandonSlot(sent, slot);
            && Addressed(s1) && OpenedFor(s1, slot, m.id)
            && (Stored(s1, slot, m.id) <==> !Answers(s0, m.id, m, clock.wall(0)))
            && (Alive(s1, slot, m.id) <==> answer == Ok && !Answers(s0, m.id, m, clock.wall(0)))
  {
    SendAddressed(cfg, s0, m, clock);
    SendKeepsSlot(cfg, s0, m, clock, slot, m.id);
    AbandonedSlot(Send(cfg, s0, m, clock).0, slot, m.id);
  }

  lemma AbandonedSlot(s: Bus, slot: SlotId, id: MsgId)
    requires Addressed(s) && OpenedFor(s, slot, id)
    ensures var s' := AbandonSlot(s, slot);
            && Addressed(s') && OpenedFor(s', slot, id) && !Alive(s', slot, id)
            && (Stored(s', slot, id) <==> Stored(s, slot, id))
  {
    Transfer(s, AbandonSlot(s, slot));
  }

  /** After `request` has sent, its slot is stored unless the message answered itself, and alive
      exactly when the send was accepted too. */
  lemma BegunRequest(cfg: Settings, s: Bus, m: Message, clock: Readings)
    requires Addressed(s)
    ensures var s1 := BeginRequest(cfg, s, m, clock).0;
            && Addressed(s1) && OpenedFor(s1, s.nextSlot, m.id)
            && (Stored(s1, s.nextSlot, m.id) <==> !(AnswersItself(m) && Passes(s, m, clock.wall(0))))
            && (Alive(s1, s.nextSlot, m.id) <==>
                  Accepts(OpenSlot(s, m.id), m, clock.wall(0)) && !AnswersItself(m))
  {
    OpenedSlotIsAlive(s, m.id);
    SentRequest(cfg, OpenSlot(s, m.id), m, clock, s.nextSlot);
    SendAcceptsExactlyWhen(cfg, OpenSlot(s, m.id), m, clock);
  }

  /** A response that finds a slot under its request takes it. */
  lemma ResponseTakesSlot(cfg: Settings, s: Bus, id: MsgId, response: Message, clock: Readings)
    requires Answers(s, id, response, clock.wall(0)) && id in s.pending
    ensures var (s', answer) := Send(cfg, s, response, clock);
            && answer == Ok && id !in s'.pending && s'.log.next == s.log.next + 1 && s.log.next in s'.log.whereIs
            && s'.log.whereIs[s.log.next] == if s.pending[id] in s.waiting then Handed(s.pending[id]) else Lost(RequesterGone)
  {
    var marked := MarkSeen(cfg, s, response.id, clock);
    assert Send(cfg, s, response, clock) == (Respond(marked, response, id), Ok);
  }

  /** One that finds none goes to a buffer or a queue, or is refused. */
  lemma ResponseGoesElsewhere(cfg: Settings, s: Bus, id: MsgId, response: Message, clock: Readings, slot: SlotId)
    requires Answers(s, id, response, clock.wall(0)) && id !in s.pending
    ensures !HandedOver(s, Send(cfg, s, response, clock).0, slot)
  {
    var marked := MarkSeen(cfg, s, response.id, clock);
    assert Send(cfg, s, response, clock) == Route(cfg, marked, response, response.recipient.value);
  }

  /** Where the response goes that finds a slot stored or not. */
  lemma ResponseFindsSlot(cfg: Settings, s: Bus, id: MsgId, response: Message, clock: Readings, slot: SlotId)
    requires OpenedFor(s, slot, id) && Answers(s, id, response, clock.wall(0))
    ensures var (s', answer) := Send(cfg, s, response, clock);
            && (HandedOver(s, s', slot) <==> Alive(s, slot, id))
            && (Stored(s, slot, id) ==> answer == Ok && id !in s'.pending)
            && (Stored(s, slot, id) && slot !in s.waiting ==>
                  s'.log.next == s.log.next + 1 && s'.log.whereIs[s.log.next] == Lost(RequesterGone))
  {
    if id in s.pending {
      ResponseTakesSlot(cfg, s, id, response, clock);
    } else {
      ResponseGoesElsewhere(cfg, s, id, response, clock, slot);
    }
  }

  /** The next accepted message went to the requester of the slot. */
  predicate HandedOver(s: Bus, s': Bus, slot: SlotId) {
    && s'.log.next == s.log.next + 1
    && s.log.next in s'.log.whereIs && s'.log.whereIs[s.log.next] == Handed(slot)
  }

  // ---------------------------------------------------------------- main results

  /** In any reachable state, whatever calls come between a request and a response that passes the
      checks: the response is handed to the requester if and only if the request's send was accepted,
      which its guard tells beforehand, and no call in between took the slot or left it. */
  lemma ResponseIsHandedExactlyWhen(cfg: Settings, before: seq<Call>, m: Message, clock: Readings,
                                    between: seq<Call>, response: Message, later: Readings)
    ensures var s := Run(cfg, before);
            var s1 := BeginRequest(cfg, s, m, clock).0;
            var s2 := RunFrom(cfg, s1, between);
            var s3 := Send(cfg, s2, response, later).0;
            Answers(s2, m.id, response, later.wall(0)) ==>
              (HandedOver(s2, s3, s.nextSlot) <==>
                 && Accepts(OpenSlot(s, m.id), m, clock.wall(0)) && !AnswersItself(m)
                 && !TakenDuring(cfg, s1, between, m.id) && !LeftDuring(between, s.nextSlot))
  {
    var s := Run(cfg, before);
    var s1 := BeginRequest(cfg, s, m, clock).0;
    RunAddressed(cfg, before);
    BegunRequest(cfg, s, m, clock);
    SlotLivesExactlyUntil(cfg, s1, between, s.nextSlot, m.id);
    RunFromAddressed(cfg, s1, between);
    var s2 := RunFrom(cfg, s1, between);
    if Answers(s2, m.id, response, later.wall(0)) {
      ResponseFindsSlot(cfg, s2, m.id, response, later, s.nextSlot);
    }
  }

  /** A request whose send is refused leaves its slot behind: it stays stored exactly until a call takes
      it, and the first response to come is answered Ok, lost, and removes it. */
  lemma RefusedRequestLeaksItsSlot(cfg: Settings, before: seq<Call>, m: Message, clock: Readings, between: seq<Call>,
                                   response: Message, later: Readings)
    requires !Accepts(OpenSlot(Run(cfg, before), m.id), m, clock.wall(0))
    ensures var s := Run(cfg, before);
            var s1 := BeginRequest(cfg, s, m, clock).0;
            var s2 := RunFrom(cfg, s1, between);
            var (s3, answer) := Send(cfg, s2, response, later);
            && (Stored(s2, s.nextSlot, m.id) <==> !TakenDuring(cfg, s1, between, m.id))
            && (!TakenDuring(cfg, s1, between, m.id) && Answers(s2, m.id, response, later.wall(0)) ==>
                  && answer == Ok && m.id !in s3.pending
                  && s3.log.next == s2.log.next + 1 && s3.log.whereIs[s2.log.next] == Lost(RequesterGone))
  {
    var s := Run(cfg, before);
    var s1 := BeginRequest(cfg, s, m, clock).0;
    RunAddressed(cfg, before);
    BegunRequest(cfg, s, m, clock);
    SlotLivesExactlyUntil(cfg, s1, between, s.nextSlot, m.id);
    RunFromAddressed(cfg, s1, between);
    var s2 := RunFrom(cfg, s1, between);
    if Answers(s2, m.id, response, later.wall(0)) {
      ResponseFindsSlot(cfg, s2, m.id, response, later, s.nextSlot);
    }
  }
}
