/** Deduplication at the granularity of the locks: the duplicate check and the mark are two critical
    sections, so only sends or publishes that overlap can pass with one id within the window. */
module MessagingOverlap {
  import opened Basics
  import opened Messaging
  import opened MessagingOrder
  import opened T = MessagingThreads

  predicate Marks(a: Action) { a.Sending? && a.send.Mark? }

  predicate Checks(a: Action) { a.Sending? && a.send.CheckDuplicate? }

  /** The clock read by marks never runs back. */
  predicate MarksAscend(actions: seq<Action>) {
    && (forall i :: 0 <= i < |actions| && Marks(actions[i]) ==> actions[i].send.at.mark <= actions[i].send.at.forget)
    && (forall i, j :: 0 <= i < j < |actions| && Marks(actions[i]) && Marks(actions[j]) ==>
          actions[i].send.at.forget <= actions[j].send.at.mark)
  }

  /** The latest reading is that of some mark, or there was none. */
  predicate TimeIsRead(actions: seq<Action>, time: nat) {
    time == 0 || exists i :: 0 <= i < |actions| && Marks(actions[i]) && actions[i].send.at.forget == time
  }

  /** The passes are the marks of the bus with their steps. */
  predicate PassesAreMarks(s: System) {
    && |s.passes| == |s.bus.log.marks|
    && (forall i :: 0 <= i < |s.passes| ==> s.bus.log.marks[i] == (s.passes[i].id, s.passes[i].time))
    && (forall i :: 0 <= i < |s.passes| ==> s.passes[i].checked < s.passes[i].marked < s.clock)
  }

  /** Of the passes with this id that were marked before the given step, each is a window back. */
  predicate EarlierAreOld(s: System, id: MsgId, checked: nat, time: nat, window: nat) {
    forall i :: 0 <= i < |s.passes| && s.passes[i].id == id ==>
      s.passes[i].marked != checked && (s.passes[i].marked < checked ==> time - s.passes[i].time >= window)
  }

  ghost predicate ChecksAreSound(cfg: Settings, s: System) {
    forall t: Tid :: s.At(t).Unseen? ==>
      s.At(t).checked < s.clock && EarlierAreOld(s, s.At(t).msg.id, s.At(t).checked, s.time, cfg.window)
  }

  /** Passes with one id within the window overlap: the later was checked before the earlier marked. */
  predicate CloseOverlap(passes: seq<Pass>, window: nat) {
    forall i, j :: 0 <= i < j < |passes| && passes[i].id == passes[j].id && passes[j].time - passes[i].time < window ==>
      passes[j].checked < passes[i].marked
  }

  ghost predicate Inv(cfg: Settings, s: System) {
    RemembersAll(cfg, s.bus, s.time) && PassesAreMarks(s) && ChecksAreSound(cfg, s) && CloseOverlap(s.passes, cfg.window)
  }

  lemma CheckKeepsInv(cfg: Settings, s: System, t: Tid, m: Message, publish: bool)
    requires Inv(cfg, s) && s.At(t).Idle?
    ensures Inv(cfg, ApplySend(cfg, s, t, CheckDuplicate(m, publish)))
  {
    var s' := ApplySend(cfg, s, t, CheckDuplicate(m, publish));
    forall u: Tid | s'.At(u).Unseen?
      ensures s'.At(u).checked < s'.clock
      ensures EarlierAreOld(s', s'.At(u).msg.id, s'.At(u).checked, s'.time, cfg.window)
    {
      if u == t {
        forall i | 0 <= i < |s.passes| && s.passes[i].id == m.id
          ensures s.passes[i].marked < s.clock && s.time - s.passes[i].time >= cfg.window
        {
          assert Remembered(s.bus, s.bus.log.marks[i], cfg.window, s.time);
        }
      } else {
        assert s'.At(u) == s.At(u);
      }
    }
  }

  lemma MarkKeepsInv(cfg: Settings, s: System, t: Tid, at: Readings)
    requires Inv(cfg, s) && s.At(t).Unseen? && s.time <= at.mark <= at.forget
    ensures Inv(cfg, ApplySend(cfg, s, t, Mark(at)))
  {
    var s' := ApplySend(cfg, s, t, Mark(at));
    var pc := s.At(t);
    MarkingRemembers(cfg, s.bus, pc.msg.id, s.time, at);
    forall u: Tid | s'.At(u).Unseen?
      ensures s'.At(u).checked < s'.clock
      ensures EarlierAreOld(s', s'.At(u).msg.id, s'.At(u).checked, s'.time, cfg.window)
    {
      assert u != t && s'.At(u) == s.At(u);
    }
    assert EarlierAreOld(s, pc.msg.id, pc.checked, s.time, cfg.window);
  }

  /** Neither marks nor checks have changed. */
  ghost predicate SameMemory(s: System, s': System) {
    && s'.bus.seen == s.bus.seen && s'.bus.log.marks == s.bus.log.marks
    && s'.passes == s.passes && s'.time == s.time && s'.clock >= s.clock
    && forall u: Tid :: s'.At(u).Unseen? ==> s'.At(u) == s.At(u)
  }

  lemma FrameKeepsInv(cfg: Settings, s: System, s': System)
    requires Inv(cfg, s) && SameMemory(s, s')
    ensures Inv(cfg, s')
  {
    ClockKeepsMemory(cfg, s.bus, s'.bus, s.time, s.time);
    forall u: Tid | s'.At(u).Unseen?
      ensures s'.At(u).checked < s'.clock
      ensures EarlierAreOld(s', s'.At(u).msg.id, s'.At(u).checked, s'.time, cfg.window)
    {
      assert EarlierAreOld(s, s.At(u).msg.id, s.At(u).checked, s.time, cfg.window);
    }
  }

  /** The steps of a send after the mark. */
  lemma SendKeepsMemory(cfg: Settings, s: System, t: Tid, a: SendStep)
    requires CanSend(s, s.At(t), a) && !a.CheckDuplicate? && !a.Mark?
    ensures SameMemory(s, ApplySend(cfg, s, t, a))
  {
    if a.TryRespond? {
      RespondFrameOf(s, t, a.wall);
    } else if a.Lookup? {
      LookupFrameOf(s, t);
    } else {
      QueueFrame(cfg, s.bus, s.At(t).to, s.At(t).msg);
    }
  }

  lemma RegisterKeepsMemory(s: System, t: Tid, a: RegisterStep)
    requires CanRegister(s, s.At(t), a)
    ensures SameMemory(s, ApplyRegister(s, t, a))
  {
    if a.ReadMailboxes? {
      DrainFrame(s.bus, s.At(t).agent, _ => 0);
    } else if a.FillNext? {
      DrainOneFrame(s.bus, s.At(t).agent, a.wall);
    }
  }

  lemma PublishKeepsMemory(s: System, t: Tid, a: PublishStep)
    requires CanPublish(s.At(t), a)
    ensures SameMemory(s, ApplyPublish(s, t, a))
  {
  }

  lemma OtherKeepsMemory(cfg: Settings, s: System, a: OtherStep)
    requires Enabled(s, Other(a))
    ensures SameMemory(s, Apply(cfg, s, Other(a)))
  {
    OtherFrame(s.bus, a);
  }

  lemma StepKeepsMemory(cfg: Settings, s: System, a: Action)
    requires Enabled(s, a) && !Checks(a) && !Marks(a)
    ensures SameMemory(s, Apply(cfg, s, a))
  {
    match a
    case Sending(t, send) => SendKeepsMemory(cfg, s, t, send);
    case Publishing(t, publish) => PublishKeepsMemory(s, t, publish);
    case Registering(t, register) => RegisterKeepsMemory(s, t, register);
    case Other(other) => OtherKeepsMemory(cfg, s, other);
  }

  lemma StepKeepsInv(cfg: Settings, s: System, a: Action)
    requires Inv(cfg, s) && Enabled(s, a) && (Marks(a) ==> s.time <= a.send.at.mark <= a.send.at.forget)
    ensures Inv(cfg, Apply(cfg, s, a))
    ensures Apply(cfg, s, a).time == if Marks(a) then a.send.at.forget else s.time
  {
    if Checks(a) {
      CheckKeepsInv(cfg, s, a.t, a.send.msg, a.send.publish);
    } else if Marks(a) {
      MarkKeepsInv(cfg, s, a.t, a.send.at);
    } else {
      StepKeepsMemory(cfg, s, a);
      FrameKeepsInv(cfg, s, Apply(cfg, s, a));
    }
  }

  lemma {:induction false} RunKeepsInv(cfg: Settings, actions: seq<Action>)
    requires LegalRun(cfg, actions) && MarksAscend(actions)
    ensures Inv(cfg, T.Run(cfg, actions)) && TimeIsRead(actions, T.Run(cfg, actions).time)
  {
    if actions != [] {
      var k := |actions| - 1;
      var rest := actions[..k];
      assert forall i :: 0 <= i < k ==> rest[i] == actions[i];
      RunKeepsInv(cfg, rest);
      var s := T.Run(cfg, rest);
      if s.time != 0 {
        var i :| 0 <= i < k && Marks(rest[i]) && rest[i].send.at.forget == s.time;
        assert Marks(actions[i]) && actions[i].send.at.forget == s.time;
      }
      StepKeepsInv(cfg, s, actions[k]);
    }
  }

  // ---------------------------------------------------------------- main results

  /** Under every interleaving with a clock that does not run back: when two sends or publishes with one
      id pass the duplicate check and their marks are less than the window apart, they overlapped, the
      check of the later coming before the mark of the earlier. */
  lemma OnlyOverlappingSendsDuplicate(cfg: Settings, actions: seq<Action>, i: nat, j: nat)
    requires LegalRun(cfg, actions) && MarksAscend(actions) && i < j < |T.Run(cfg, actions).passes|
    ensures var passes := T.Run(cfg, actions).passes;
            && passes[i].checked < passes[i].marked && passes[j].checked < passes[j].marked
            && (passes[i].id == passes[j].id && passes[j].time - passes[i].time < cfg.window ==>
                  passes[j].checked < passes[i].marked)
  {
    RunKeepsInv(cfg, actions);
  }

  /** Some run whose marks all read zero leads to the system. */
  ghost predicate ReachableAtZero(cfg: Settings, s: System) {
    exists actions :: LegalRun(cfg, actions) && T.Run(cfg, actions) == s && AllAtZero(actions)
  }

  ghost predicate AllAtZero(actions: seq<Action>) {
    forall i :: 0 <= i < |actions| && Marks(actions[i]) ==> actions[i].send.at == ZERO
  }

  lemma GoesOn(cfg: Settings, s: System, t: Tid, a: SendStep) returns (s': System)
    requires ReachableAtZero(cfg, s) && CanSend(s, s.At(t), a) && (a.Mark? ==> a.at == ZERO)
    ensures s' == ApplySend(cfg, s, t, a) && ReachableAtZero(cfg, s')
  {
    var actions :| LegalRun(cfg, actions) && T.Run(cfg, actions) == s && AllAtZero(actions);
    OneMore(cfg, actions, Sending(t, a));
    s' := ApplySend(cfg, s, t, a);
    assert AllAtZero(actions + [Sending(t, a)]);
  }

  /** Both sends of HELLO are checked before either is marked. */
  lemma BothPass(cfg: Settings) returns (s: System)
    ensures AtWork(cfg, s) && s.bus.log.next == 0
    ensures s.passes == [Pass(7, 0, 0, 2), Pass(7, 0, 1, 3)]
    ensures s.At(0) == Noted(HELLO, false) && s.At(1) == Noted(HELLO, false)
  {
    assert LegalRun(cfg, []) && T.Run(cfg, []) == START;
    s := GoesOn(cfg, START, 0, CheckDuplicate(HELLO, false));
    s := GoesOn(cfg, s, 1, CheckDuplicate(HELLO, false));
    s := GoesOn(cfg, s, 0, Mark(ZERO));
    s := GoesOn(cfg, s, 1, Mark(ZERO));
  }

  /** Where a send of HELLO to an agent that is not registered can go on. */
  ghost predicate AtWork(cfg: Settings, s: System) {
    ReachableAtZero(cfg, s) && s.queuesLock.None? && 2 !in s.bus.mailboxes
  }

  /** The rest of such a send. */
  lemma FinishSend(cfg: Settings, before: System, t: Tid) returns (s: System)
    requires AtWork(cfg, before) && before.At(t) == Noted(HELLO, false)
    ensures AtWork(cfg, s) && s.passes == before.passes && s.bus.log.next == before.bus.log.next + 1
    ensures forall u: Tid :: u != t ==> s.At(u) == before.At(u)
    ensures Direct(before.bus.log.next, HELLO) in At(s.bus, Offline(2))
  {
    var routed := GoesOn(cfg, before, t, TryRespond(0));
    var missed := GoesOn(cfg, routed, t, Lookup);
    QueuedIsThere(cfg, missed.bus, 2, HELLO);
    s := GoesOn(cfg, missed, t, Enqueue);
  }

  lemma QueuedIsThere(cfg: Settings, s: Bus, a: AgentId, m: Message)
    ensures Direct(s.log.next, m) in At(QueueOffline(cfg, s, a, m), Offline(a))
    ensures QueueOffline(cfg, s, a, m).log.next == s.log.next + 1
  {
    var es := At(QueueOffline(cfg, s, a, m), Offline(a));
    assert es[|es| - 1] == Direct(s.log.next, m);
  }

  /** Two sends of one id that overlap can both pass the duplicate check, and both be accepted. */
  lemma OverlappingSendsCanDuplicate(cfg: Settings) returns (s: System)
    ensures ReachableAtZero(cfg, s) && s.bus.log.next == 2
    ensures s.passes == [Pass(7, 0, 0, 2), Pass(7, 0, 1, 3)] && Direct(1, HELLO) in At(s.bus, Offline(2))
  {
    var passed := BothPass(cfg);
    var one := FinishSend(cfg, passed, 0);
    assert one.At(1) == Noted(HELLO, false);
    s := FinishSend(cfg, one, 1);
  }
}
