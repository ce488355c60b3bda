/** Agent groups with calls split at their locks: a member operation reads the state under one lock and
    commits under another. */
module AgentGroupThreads {
  import opened AgentGroup
  import opened Basics

  type Tid = nat

  /** A member operation reads the state under one lock and commits under another. */
  datatype Pc = Idle | Checked(op: MemberOp, seen: GroupState)

  datatype System = System(group: Group, pcs: map<Tid, Pc>)
  {
    function At(t: Tid): (pc: Pc) { if t in pcs then pcs[t] else Idle }
  }

  datatype Action = ReadState(t: Tid, op: MemberOp) | WriteMembers(t: Tid) | SwitchState(sop: StateOp)

  predicate Enabled(s: System, a: Action) {
    match a
    case ReadState(t, _) => s.At(t).Idle?
    case WriteMembers(t) => s.At(t).Checked?
    case SwitchState(_) => true
  }

  /** A call refused on the state it reads ends there. */
  function Apply(cfg: Config, s: System, a: Action): (s': System)
    requires Enabled(s, a)
  {
    match a
    case ReadState(t, op) =>
      s.(pcs := s.pcs[t := if StateAllows(op, s.group.state) then Checked(op, s.group.state) else Idle])
    case WriteMembers(t) =>
      var pc := s.At(t);
      System(s.group.(members := Commit(cfg, s.group.members, pc.op, pc.seen)), s.pcs[t := Idle])
    case SwitchState(sop) => s.(group := Switch(s.group, sop))
  }

  predicate LegalRun(cfg: Config, s: System, actions: seq<Action>)
    decreases |actions|, 0
  {
    actions == [] ||
    (var k := |actions| - 1; LegalRun(cfg, s, actions[..k]) && Enabled(RunThreads(cfg, s, actions[..k]), actions[k]))
  }

  function RunThreads(cfg: Config, s: System, actions: seq<Action>): (s': System)
    requires LegalRun(cfg, s, actions)
    decreases |actions|, 1
  {
    if actions == [] then s
    else Apply(cfg, RunThreads(cfg, s, actions[..|actions| - 1]), actions[|actions| - 1])
  }

  /** The maxima hold under every interleaving, because they are checked under the lock that guards
      the members. */
  lemma {:induction false} InterleavingsAreBounded(cfg: Config, s: System, actions: seq<Action>)
    requires Bounded(cfg, s.group.members) && LegalRun(cfg, s, actions)
    ensures Bounded(cfg, RunThreads(cfg, s, actions).group.members)
  {
    if actions != [] {
      var k := |actions| - 1;
      InterleavingsAreBounded(cfg, s, actions[..k]);
      var mid := RunThreads(cfg, s, actions[..k]);
      match actions[k]
      case ReadState(_, _) =>
      case WriteMembers(t) => CommitKeepsBounds(cfg, mid.group.members, mid.At(t).op, mid.At(t).seen);
      case SwitchState(sop) => assert Leaders(map[]) == {};
    }
  }

  /** An addition that has passed its state check and will find room in an empty group. */
  ghost predicate LateAddition(cfg: Config, s: System, t: Tid) {
    && s.At(t).Checked? && s.At(t).op.Add? && s.At(t).seen == Active
    && cfg.maxMembers > 0 && (s.At(t).op.role == Leader ==> cfg.maxLeaders > 0)
  }

  /** Whatever happens next, the group stays dissolved and empty. */
  ghost predicate EmptyForGood(cfg: Config, s: System) {
    forall actions :: LegalRun(cfg, s, actions) ==>
      RunThreads(cfg, s, actions).group == Group(map[], Dissolved)
  }

  /** The dissolved group is empty and no late addition is under way. */
  ghost predicate Sealed(cfg: Config, s: System) {
    s.group == Group(map[], Dissolved) && forall t: Tid :: !LateAddition(cfg, s, t)
  }

  lemma StepKeepsSealed(cfg: Config, s: System, a: Action)
    requires Sealed(cfg, s) && Enabled(s, a)
    ensures Sealed(cfg, Apply(cfg, s, a))
  {
    var s' := Apply(cfg, s, a);
    assert Leaders(map[]) == {};
    forall t: Tid ensures !LateAddition(cfg, s', t) {
      assert !LateAddition(cfg, s, t);
    }
    if a.WriteMembers? {
      assert !LateAddition(cfg, s, a.t);
    }
  }

  lemma {:induction false} SealedForGood(cfg: Config, s: System, actions: seq<Action>)
    requires Sealed(cfg, s) && LegalRun(cfg, s, actions)
    ensures Sealed(cfg, RunThreads(cfg, s, actions))
  {
    if actions != [] {
      var k := |actions| - 1;
      SealedForGood(cfg, s, actions[..k]);
      StepKeepsSealed(cfg, RunThreads(cfg, s, actions[..k]), actions[k]);
    }
  }

  /** A dissolved, empty group stays so under every interleaving exactly when no addition that
      checked the state before the dissolution is still to come and finds room. */
  lemma DissolvedStaysEmptyExactlyWhen(cfg: Config, s: System)
    requires s.group == Group(map[], Dissolved)
    ensures EmptyForGood(cfg, s) <==> forall t: Tid :: !LateAddition(cfg, s, t)
  {
    if t: Tid :| LateAddition(cfg, s, t) {
      var actions := [WriteMembers(t)];
      assert actions[..0] == [];
      assert LegalRun(cfg, s, actions);
      assert Leaders(map[]) == {};
      assert s.At(t).op.agent in RunThreads(cfg, s, actions).group.members;
      assert !EmptyForGood(cfg, s);
    } else {
      forall actions | LegalRun(cfg, s, actions)
        ensures RunThreads(cfg, s, actions).group == Group(map[], Dissolved)
      {
        SealedForGood(cfg, s, actions);
      }
    }
  }

  // ---------------------------------------------------------------- the minimum of leaders

  /** A removal that read another state than Active and will not be held to the minimum, of an agent that
      is a leader or can still become one. */
  ghost predicate LateRemoval(cfg: Config, s: System, t: Tid) {
    && s.At(t).Checked? && s.At(t).op.Remove? && s.At(t).seen != Active && s.At(t).seen != Dissolved
    && cfg.minLeaders > 0 && CanLead(cfg, s.group.members, s.At(t).op.agent)
  }

  predicate CanLead(cfg: Config, members: map<AgentId, Role>, a: AgentId) {
    || a in Leaders(members)
    || (cfg.minLeaders < cfg.maxLeaders && (a in members || cfg.minLeaders < cfg.maxMembers))
  }

  predicate NoSwitch(actions: seq<Action>) { forall i :: 0 <= i < |actions| ==> !actions[i].SwitchState? }

  /** However the threads go on while the group stays Active, the minimum is kept. */
  ghost predicate MinimumForGood(cfg: Config, s: System) {
    forall actions :: LegalRun(cfg, s, actions) && NoSwitch(actions) ==>
      |Leaders(RunThreads(cfg, s, actions).group.members)| >= cfg.minLeaders
  }

  /** An Active group within its limits. */
  predicate Sound(cfg: Config, g: Group) {
    g.state == Active && Bounded(cfg, g.members) && |Leaders(g.members)| >= cfg.minLeaders
  }

  ghost predicate Safe(cfg: Config, s: System) {
    Sound(cfg, s.group) && forall t: Tid :: !LateRemoval(cfg, s, t)
  }

  /** In a sound group nobody becomes able to lead who was not. */
  lemma CommitAdmitsNoLeader(cfg: Config, g: Group, op: MemberOp, seen: GroupState, a: AgentId)
    requires Sound(cfg, g) && !CanLead(cfg, g.members, a)
    ensures !CanLead(cfg, Commit(cfg, g.members, op, seen), a)
  {
    LeadersAreMembers(g.members);
  }

  lemma LeadersAreMembers(members: map<AgentId, Role>)
    ensures Leaders(members) <= members.Keys && |Leaders(members)| <= |members|
  {
    SizeIsKeys(members);
    SubsetSize(Leaders(members), members.Keys);
  }

  /** A commit that is held to the minimum, or removes nobody who leads, keeps the group sound. */
  lemma CommitKeepsSound(cfg: Config, g: Group, op: MemberOp, seen: GroupState)
    requires Sound(cfg, g)
    requires seen == Active || cfg.minLeaders == 0 || !op.Remove? || seen == Dissolved || op.agent !in Leaders(g.members)
    ensures Sound(cfg, g.(members := Commit(cfg, g.members, op, seen)))
  {
    CommitKeepsBounds(cfg, g.members, op, seen);
    CountsAfterIntended(g.members, op);
    AcceptedExactlyWhen(cfg, g.members, op, seen);
  }

  lemma StepKeepsSafe(cfg: Config, s: System, a: Action)
    requires Safe(cfg, s) && Enabled(s, a) && !a.SwitchState?
    ensures Safe(cfg, Apply(cfg, s, a))
  {
    var s' := Apply(cfg, s, a);
    if a.WriteMembers? {
      var pc := s.At(a.t);
      assert !LateRemoval(cfg, s, a.t);
      CommitKeepsSound(cfg, s.group, pc.op, pc.seen);
      forall t: Tid ensures !LateRemoval(cfg, s', t) {
        assert !LateRemoval(cfg, s, t);
        if s'.At(t).Checked? && !CanLead(cfg, s.group.members, s.At(t).op.agent) {
          CommitAdmitsNoLeader(cfg, s.group, pc.op, pc.seen, s.At(t).op.agent);
        }
      }
    } else {
      forall t: Tid ensures !LateRemoval(cfg, s', t) {
        assert !LateRemoval(cfg, s, t);
      }
    }
  }

  lemma {:induction false} SafeForGood(cfg: Config, s: System, actions: seq<Action>)
    requires Safe(cfg, s) && LegalRun(cfg, s, actions) && NoSwitch(actions)
    ensures Safe(cfg, RunThreads(cfg, s, actions))
  {
    if actions != [] {
      var k := |actions| - 1;
      SafeForGood(cfg, s, actions[..k]);
      StepKeepsSafe(cfg, RunThreads(cfg, s, actions[..k]), actions[k]);
    }
  }

  // ---------------------------------------------------------------- a run below the minimum

  /** Some run without a switch of the state leads from one system to the other. */
  ghost predicate Leads(cfg: Config, s: System, m: System) {
    exists actions :: LegalRun(cfg, s, actions) && NoSwitch(actions) && RunThreads(cfg, s, actions) == m
  }

  lemma LeadsFurther(cfg: Config, s: System, m: System, a: Action)
    requires Leads(cfg, s, m) && Enabled(m, a) && !a.SwitchState?
    ensures Leads(cfg, s, Apply(cfg, m, a))
  {
    var actions :| LegalRun(cfg, s, actions) && NoSwitch(actions) && RunThreads(cfg, s, actions) == m;
    var longer := actions + [a];
    assert longer[..|actions|] == actions;
    assert LegalRun(cfg, s, longer) && NoSwitch(longer);
  }

  /** A thread that does nothing. */
  lemma {:induction false} SomeIdle(threads: set<Tid>) returns (t: Tid)
    ensures forall u :: u in threads ==> u < t
    decreases threads
  {
    if threads == {} {
      t := 0;
    } else {
      var u :| u in threads;
      var v := SomeIdle(threads - {u});
      t := if u < v then v else u + 1;
      assert forall x :: x in threads ==> x == u || x in threads - {u};
    }
  }

  /** No thread that was under way has moved. */
  ghost predicate Unmoved(m: System, m': System) { forall t: Tid :: m.At(t).Checked? ==> m'.At(t) == m.At(t) }

  /** The group after an operation. */
  function Having(g: Group, op: MemberOp): (g': Group) { g.(members := Intended(g.members, op)) }

  /** Any other thread can carry out an operation the Active group accepts, from start to end. */
  lemma Perform(cfg: Config, s: System, m: System, op: MemberOp) returns (m': System)
    requires Leads(cfg, s, m) && m.group.state == Active && Decide(cfg, m.group.members, op, Active) == Success
    ensures Leads(cfg, s, m') && m'.group == Having(m.group, op) && Unmoved(m, m')
  {
    var u := SomeIdle(m.pcs.Keys);
    LeadsFurther(cfg, s, m, ReadState(u, op));
    var read := Apply(cfg, m, ReadState(u, op));
    LeadsFurther(cfg, s, read, WriteMembers(u));
    m' := Apply(cfg, read, WriteMembers(u));
  }

  /** Apart from the agent there are only leaders, and no more leaders than the minimum. */
  predicate Thinned(cfg: Config, members: map<AgentId, Role>, a: AgentId) {
    |Leaders(members)| == cfg.minLeaders && forall b :: b in members && b != a ==> members[b] == Leader
  }

  /** Everybody but the agent who can be removed is: what stays are as many leaders as the minimum, and
      the agent as able to lead as it was. */
  lemma {:induction false} Thin(cfg: Config, s: System, m: System, a: AgentId) returns (m': System)
    requires Leads(cfg, s, m) && Sound(cfg, m.group) && cfg.minLeaders > 0 && CanLead(cfg, m.group.members, a)
    ensures Leads(cfg, s, m') && Sound(cfg, m'.group) && CanLead(cfg, m'.group.members, a)
    ensures Thinned(cfg, m'.group.members, a) && Unmoved(m, m')
    decreases |m.group.members|
  {
    if Thinned(cfg, m.group.members, a) {
      m' := m;
    } else {
      var b := Removable(cfg, m.group.members, a);
      AcceptedExactlyWhen(cfg, m.group.members, Remove(b), Active);
      CommitKeepsSound(cfg, m.group, Remove(b), Active);
      CountsAfterIntended(m.group.members, Remove(b));
      var next := Perform(cfg, s, m, Remove(b));
      m' := Thin(cfg, s, next, a);
    }
  }

  lemma Removable(cfg: Config, members: map<AgentId, Role>, a: AgentId) returns (b: AgentId)
    requires |Leaders(members)| >= cfg.minLeaders > 0 && !Thinned(cfg, members, a)
    ensures b in members && b != a && Decide(cfg, members, Remove(b), Active) == Success
  {
    if c :| c in members && c != a && members[c] != Leader {
      b := c;
    } else {
      b := AnotherLeader(members, a);
    }
  }

  lemma AnotherLeader(members: map<AgentId, Role>, a: AgentId) returns (b: AgentId)
    requires |Leaders(members)| > 1 || (|Leaders(members)| == 1 && a !in Leaders(members))
    ensures b != a && b in Leaders(members)
  {
    if Leaders(members) - {a} == {} {
      SubsetSize(Leaders(members), {a});
    }
    b :| b in Leaders(members) - {a};
  }

  /** The agent leads, together with as many others as make the minimum. */
  lemma MakeLeader(cfg: Config, s: System, m: System, a: AgentId) returns (m': System)
    requires Leads(cfg, s, m) && Sound(cfg, m.group) && cfg.minLeaders > 0
    requires Thinned(cfg, m.group.members, a) && CanLead(cfg, m.group.members, a)
    ensures Leads(cfg, s, m') && Sound(cfg, m'.group) && Unmoved(m, m')
    ensures a in Leaders(m'.group.members) && |Leaders(m'.group.members)| == cfg.minLeaders
  {
    if a in Leaders(m.group.members) {
      m' := m;
    } else {
      var op := if a in m.group.members then ChangeRole(a, Leader) else Add(a, Leader);
      if a !in m.group.members {
        ThinnedSize(cfg, m.group.members, a);
      }
      CountsAfterIntended(m.group.members, op);
      CommitKeepsSound(cfg, m.group, op, Active);
      AcceptedExactlyWhen(cfg, m.group.members, op, Active);
      var more := Perform(cfg, s, m, op);
      var b := AnotherLeader(more.group.members, a);
      CountsAfterIntended(more.group.members, Remove(b));
      CommitKeepsSound(cfg, more.group, Remove(b), Active);
      AcceptedExactlyWhen(cfg, more.group.members, Remove(b), Active);
      m' := Perform(cfg, s, more, Remove(b));
    }
  }

  lemma ThinnedSize(cfg: Config, members: map<AgentId, Role>, a: AgentId)
    requires Thinned(cfg, members, a) && a !in members
    ensures |members| == cfg.minLeaders
  {
    SizeIsKeys(members);
    assert Leaders(members) == members.Keys;
  }

  lemma LateRemovalBreaksMinimum(cfg: Config, s: System, t: Tid)
    requires Sound(cfg, s.group) && LateRemoval(cfg, s, t)
    ensures !MinimumForGood(cfg, s)
  {
    var a := s.At(t).op.agent;
    assert LegalRun(cfg, s, []) && NoSwitch([]) && RunThreads(cfg, s, []) == s;
    var thin := Thin(cfg, s, s, a);
    var m := MakeLeader(cfg, s, thin, a);
    CountsAfterIntended(m.group.members, Remove(a));
    AcceptedExactlyWhen(cfg, m.group.members, Remove(a), s.At(t).seen);
    LeadsFurther(cfg, s, m, WriteMembers(t));
  }

  /** An Active group within its limits keeps its minimum of leaders under every interleaving, as long as
      its state is not switched, exactly when no removal that read the state before it became Active is
      still to come for an agent that leads or can come to lead. */
  lemma MinimumSurvivesExactlyWhen(cfg: Config, s: System)
    requires Sound(cfg, s.group)
    ensures MinimumForGood(cfg, s) <==> forall t: Tid :: !LateRemoval(cfg, s, t)
  {
    if t: Tid :| LateRemoval(cfg, s, t) {
      LateRemovalBreaksMinimum(cfg, s, t);
    } else {
      forall actions | LegalRun(cfg, s, actions) && NoSwitch(actions)
        ensures |Leaders(RunThreads(cfg, s, actions).group.members)| >= cfg.minLeaders
      {
        SafeForGood(cfg, s, actions);
      }
    }
  }
}
