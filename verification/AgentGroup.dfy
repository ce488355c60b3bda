/** Agent groups: membership with leader limits and a four-state life, with atomic calls. */
module AgentGroup {

  type AgentId = nat

  datatype Role = Member | Leader | Observer
  datatype GroupState = Active | Paused | Dissolving | Dissolved

  datatype Config = Config(maxMembers: nat, minLeaders: nat, maxLeaders: nat)

  datatype Error =
    | GroupFull | AlreadyMember | NotMember | GroupNotActive
    | MinLeadersViolation | MaxLeadersViolation | NotAllowed

  datatype Result = Success | Refused(error: Error)

  datatype Group = Group(members: map<AgentId, Role>, state: GroupState)

  const NEW_GROUP: Group := Group(map[], Active)

  function Leaders(members: map<AgentId, Role>): (agents: set<AgentId>) {
    set a | a in members && members[a] == Leader
  }

  // ---------------------------------------------------------------- under the members lock

  /** The three operations on members, given the state read before the members lock was taken. */
  datatype MemberOp = Add(agent: AgentId, role: Role) | Remove(agent: AgentId) | ChangeRole(agent: AgentId, role: Role)

  predicate StateAllows(op: MemberOp, seen: GroupState) {
    if op.Remove? then seen != Dissolved else seen == Active
  }

  function Decide(cfg: Config, members: map<AgentId, Role>, op: MemberOp, seen: GroupState): (r: Result) {
    if !StateAllows(op, seen) then Refused(GroupNotActive)
    else
      var leaders := |Leaders(members)|;
      match op
      case Add(a, role) =>
        if a in members then Refused(AlreadyMember)
        else if |members| >= cfg.maxMembers then Refused(GroupFull)
        else if role == Leader && leaders >= cfg.maxLeaders then Refused(MaxLeadersViolation)
        else Success
      case Remove(a) =>
        if a !in members then Refused(NotMember)
        else if members[a] == Leader && leaders <= cfg.minLeaders && seen == Active then Refused(MinLeadersViolation)
        else Success
      case ChangeRole(a, role) =>
        if a !in members then Refused(NotMember)
        else if members[a] == Leader && role != Leader && leaders <= cfg.minLeaders then Refused(MinLeadersViolation)
        else if role == Leader && members[a] != Leader && leaders >= cfg.maxLeaders then Refused(MaxLeadersViolation)
        else Success
  }

  function Commit(cfg: Config, members: map<AgentId, Role>, op: MemberOp, seen: GroupState): (m: map<AgentId, Role>) {
    if Decide(cfg, members, op, seen) != Success then members
    else
      match op
      case Add(a, role) => members[a := role]
      case Remove(a) => members - {a}
      case ChangeRole(a, role) => members[a := role]
  }

  // ---------------------------------------------------------------- under the state lock

  datatype StateOp = Pause | Resume | Dissolve | CompleteDissolution

  function DecideState(s: GroupState, op: StateOp): (r: Result) {
    match op
    case Pause => if s == Active then Success else Refused(NotAllowed)
    case Resume => if s == Paused then Success else Refused(NotAllowed)
    case Dissolve => if s != Dissolved then Success else Refused(NotAllowed)
    case CompleteDissolution => if s == Dissolving then Success else Refused(NotAllowed)
  }

  function Switch(g: Group, op: StateOp): (g': Group) {
    if DecideState(g.state, op) != Success then g
    else
      match op
      case Pause => g.(state := Paused)
      case Resume => g.(state := Active)
      case Dissolve => g.(state := Dissolving)
      case CompleteDissolution => Group(map[], Dissolved)
  }

  // ---------------------------------------------------------------- atomic calls

  datatype Op = OnMembers(mop: MemberOp) | OnState(sop: StateOp)

  function Step(cfg: Config, g: Group, op: Op): (g': Group) {
    match op
    case OnMembers(mop) => g.(members := Commit(cfg, g.members, mop, g.state))
    case OnState(sop) => Switch(g, sop)
  }

  function Run(cfg: Config, g: Group, ops: seq<Op>): (g': Group) {
    if ops == [] then g else Step(cfg, Run(cfg, g, ops[..|ops| - 1]), ops[|ops| - 1])
  }

  predicate Bounded(cfg: Config, members: map<AgentId, Role>) {
    |members| <= cfg.maxMembers && |Leaders(members)| <= cfg.maxLeaders
  }

  lemma LeadersAfterWrite(members: map<AgentId, Role>, a: AgentId, role: Role)
    ensures Leaders(members[a := role]) == if role == Leader then Leaders(members) + {a} else Leaders(members) - {a}
    ensures Leaders(members - {a}) == Leaders(members) - {a}
  {
  }

  lemma SizeAfterWrite(members: map<AgentId, Role>, a: AgentId, role: Role)
    ensures |members[a := role]| == if a in members then |members| else |members| + 1
    ensures |members - {a}| == if a in members then |members| - 1 else |members|
  {
    SizeIsKeys(members);
    SizeIsKeys(members[a := role]);
    SizeIsKeys(members - {a});
    assert members[a := role].Keys == members.Keys + {a};
    assert (members - {a}).Keys == members.Keys - {a};
  }

  lemma SizeIsKeys(members: map<AgentId, Role>)
    ensures |members| == |members.Keys|
  {
  }

  /** The members an operation would leave. */
  function Intended(members: map<AgentId, Role>, op: MemberOp): (m: map<AgentId, Role>) {
    if op.Remove? then members - {op.agent} else members[op.agent := op.role]
  }

  /** No leader fewer, or still enough of them. */
  predicate KeepsMinimum(cfg: Config, members: map<AgentId, Role>, m: map<AgentId, Role>) {
    |Leaders(m)| >= |Leaders(members)| || |Leaders(m)| >= cfg.minLeaders
  }

  /** An operation is accepted exactly when the state allows it, the agent is or is not a member as it
      takes, and what it would leave respects the limits that apply. */
  lemma AcceptedExactlyWhen(cfg: Config, members: map<AgentId, Role>, op: MemberOp, seen: GroupState)
    requires Bounded(cfg, members)
    ensures Decide(cfg, members, op, seen) == Success <==>
              && StateAllows(op, seen)
              && (op.Add? <==> op.agent !in members)
              && Bounded(cfg, Intended(members, op))
              && (seen == Active && !op.Add? ==> KeepsMinimum(cfg, members, Intended(members, op)))
    ensures Commit(cfg, members, op, seen) ==
              if Decide(cfg, members, op, seen) == Success then Intended(members, op) else members
  {
    CountsAfterIntended(members, op);
  }

  /** How many leaders and members an operation would leave. */
  lemma CountsAfterIntended(members: map<AgentId, Role>, op: MemberOp)
    ensures var was := op.agent in members && members[op.agent] == Leader;
            var will := !op.Remove? && op.role == Leader;
            |Leaders(Intended(members, op))| == |Leaders(members)| + (if will then 1 else 0) - (if was then 1 else 0)
    ensures |Intended(members, op)| == |members| +
              if op.Remove? && op.agent in members then -1 else if !op.Remove? && op.agent !in members then 1 else 0
  {
    var role := if op.Remove? then Member else op.role;
    LeadersAfterWrite(members, op.agent, role);
    SizeAfterWrite(members, op.agent, role);
  }

  /** What one commit may do to the counts. */
  lemma CommitKeepsBounds(cfg: Config, members: map<AgentId, Role>, op: MemberOp, seen: GroupState)
    requires Bounded(cfg, members)
    ensures Bounded(cfg, Commit(cfg, members, op, seen))
    ensures seen == Active && |Leaders(members)| >= cfg.minLeaders ==>
              |Leaders(Commit(cfg, members, op, seen))| >= cfg.minLeaders
    ensures seen != Active ==> Commit(cfg, members, op, seen).Keys <= members.Keys
    ensures seen == Dissolved ==> Commit(cfg, members, op, seen) == members
  {
    AcceptedExactlyWhen(cfg, members, op, seen);
    CountsAfterIntended(members, op);
  }

  lemma StepKeepsBounds(cfg: Config, g: Group, op: Op)
    requires Bounded(cfg, g.members)
    ensures Bounded(cfg, Step(cfg, g, op).members)
  {
    if op.OnMembers? {
      CommitKeepsBounds(cfg, g.members, op.mop, g.state);
    } else if Step(cfg, g, op).members == map[] {
      assert Leaders(map[]) == {};
    }
  }

  // ---------------------------------------------------------------- main results, atomic calls

  /** In every run the numbers of members and leaders stay within their maxima. */
  lemma {:induction false} RunsAreBounded(cfg: Config, g: Group, ops: seq<Op>)
    requires Bounded(cfg, g.members)
    ensures Bounded(cfg, Run(cfg, g, ops).members)
  {
    if ops != [] {
      RunsAreBounded(cfg, g, ops[..|ops| - 1]);
      StepKeepsBounds(cfg, Run(cfg, g, ops[..|ops| - 1]), ops[|ops| - 1]);
    }
  }

  predicate StaysActive(cfg: Config, g: Group, ops: seq<Op>) {
    Run(cfg, g, ops).state == Active && (ops == [] || StaysActive(cfg, g, ops[..|ops| - 1]))
  }

  /** While the group stays Active, a leader count that has reached the minimum never drops below. */
  lemma {:induction false} ActiveKeepsMinimum(cfg: Config, g: Group, ops: seq<Op>)
    requires Bounded(cfg, g.members) && |Leaders(g.members)| >= cfg.minLeaders && StaysActive(cfg, g, ops)
    ensures |Leaders(Run(cfg, g, ops).members)| >= cfg.minLeaders
  {
    if ops != [] {
      var k := |ops| - 1;
      ActiveKeepsMinimum(cfg, g, ops[..k]);
      RunsAreBounded(cfg, g, ops[..k]);
      var mid := Run(cfg, g, ops[..k]);
      if ops[k].OnMembers? {
        CommitKeepsBounds(cfg, mid.members, ops[k].mop, mid.state);
      }
    }
  }

  /** Exactly which call takes a count at or above the minimum below it: removing a leader at the
      minimum while the group is paused or dissolving, or completing the dissolution. */
  lemma DropsBelowMinimumExactlyWhen(cfg: Config, g: Group, op: Op)
    requires Bounded(cfg, g.members) && |Leaders(g.members)| >= cfg.minLeaders
    ensures |Leaders(Step(cfg, g, op).members)| < cfg.minLeaders <==>
              || (op.OnMembers? && op.mop.Remove? && op.mop.agent in Leaders(g.members) &&
                  (g.state == Paused || g.state == Dissolving) && |Leaders(g.members)| == cfg.minLeaders)
              || (op == OnState(CompleteDissolution) && g.state == Dissolving && cfg.minLeaders > 0)
  {
    if op.OnMembers? {
      LeadersAfterWrite(g.members, op.mop.agent, if op.mop.Remove? then Member else op.mop.role);
    } else if Step(cfg, g, op).members == map[] {
      assert Leaders(map[]) == {};
    }
  }

  /** A way to an Active group below its minimum: pause, remove, resume. */
  lemma PauseRemoveResume(cfg: Config, a: AgentId)
    requires cfg.minLeaders == 1 && cfg.maxLeaders >= 1 && cfg.maxMembers >= 1
    ensures var ops := [OnMembers(Add(a, Leader)), OnState(Pause), OnMembers(Remove(a)), OnState(Resume)];
            var g := Run(cfg, NEW_GROUP, ops);
            g.state == Active && Leaders(g.members) == {}
  {
    var o0, o1, o2, o3 := OnMembers(Add(a, Leader)), OnState(Pause), OnMembers(Remove(a)), OnState(Resume);
    assert [o0, o1, o2, o3][..3] == [o0, o1, o2] && [o0, o1, o2][..2] == [o0, o1] && [o0, o1][..1] == [o0] && [o0][..0] == [];
    assert Leaders(map[]) == {};
    assert Run(cfg, NEW_GROUP, []) == NEW_GROUP;
    assert Decide(cfg, map[], Add(a, Leader), Active) == Success;
    assert Run(cfg, NEW_GROUP, [o0]) == Group(map[a := Leader], Active);
    assert Run(cfg, NEW_GROUP, [o0, o1]) == Group(map[a := Leader], Paused);
    assert map[a := Leader] - {a} == map[];
    assert Run(cfg, NEW_GROUP, [o0, o1, o2]) == Group(map[], Paused);
  }

  /** From Dissolving, membership only shrinks and the group never becomes Active again; Dissolved is
      never left and always empty. */
  lemma {:induction false} DissolutionIsOneWay(cfg: Config, g: Group, ops: seq<Op>)
    requires Bounded(cfg, g.members) && (g.state == Dissolving || (g.state == Dissolved && g.members == map[]))
    ensures var g' := Run(cfg, g, ops);
            && (g'.state == Dissolving || (g'.state == Dissolved && g'.members == map[]))
            && (g.state == Dissolved ==> g' == g)
            && g'.members.Keys <= g.members.Keys
  {
    if ops != [] {
      var k := |ops| - 1;
      DissolutionIsOneWay(cfg, g, ops[..k]);
      RunsAreBounded(cfg, g, ops[..k]);
      var mid := Run(cfg, g, ops[..k]);
      if ops[k].OnMembers? {
        CommitKeepsBounds(cfg, mid.members, ops[k].mop, mid.state);
      }
    }
  }

  // ---------------------------------------------------------------- the object

  class LiveGroup {
    const cfg: Config
    var members: map<AgentId, Role>
    var state: GroupState
    ghost var ops: seq<Op>

    ghost function View(): Group
      reads this
    {
      Group(members, state)
    }

    ghost predicate Valid()
      reads this
    {
      View() == Run(cfg, NEW_GROUP, ops)
    }

    lemma Facts()
      requires Valid()
      ensures Bounded(cfg, members) && (state == Dissolved ==> members == map[])
    {
      assert Leaders(map[]) == {};
      RunsAreBounded(cfg, NEW_GROUP, ops);
      if state == Dissolved {
        DissolvedIsEmpty(cfg, ops);
      }
    }

    lemma Extends(op: Op)
      requires Valid()
      ensures Run(cfg, NEW_GROUP, ops + [op]) == Step(cfg, View(), op)
    {
      assert (ops + [op])[..|ops|] == ops;
    }

    constructor (cfg: Config)
      ensures Valid() && ops == [] && this.cfg == cfg
    {
      this.cfg, members, state, ops := cfg, map[], Active, [];
    }

    method CountLeaders() returns (n: nat)
      ensures n == |Leaders(members)|
    {
      n := 0;
      var rest := members.Keys;
      ghost var done: set<AgentId> := {};
      while rest != {}
        invariant rest <= members.Keys && done == members.Keys - rest
        invariant n == |Leaders(members) * done|
      {
        var a :| a in rest;
        rest := rest - {a};
        ghost var counted := Leaders(members) * done;
        done := done + {a};
        if members[a] == Leader {
          n := n + 1;
          assert Leaders(members) * done == counted + {a};
        } else {
          assert Leaders(members) * done == counted;
        }
      }
      assert Leaders(members) * done == Leaders(members);
    }

    method AddMember(a: AgentId, role: Role) returns (r: Result)
      requires Valid()
      modifies this
      ensures Valid() && ops == old(ops) + [OnMembers(Add(a, role))]
      ensures r == Decide(cfg, old(members), Add(a, role), old(state))
      ensures Bounded(cfg, members)
    {
      ghost var op := OnMembers(Add(a, role));
      Extends(op);
      Facts();
      CommitKeepsBounds(cfg, members, Add(a, role), state);
      ops := ops + [op];
      r := Insert(a, role);
    }

    method Insert(a: AgentId, role: Role) returns (r: Result)
      modifies this`members
      ensures r == Decide(cfg, old(members), Add(a, role), state)
      ensures members == Commit(cfg, old(members), Add(a, role), state)
    {
      if state != Active {
        return Refused(GroupNotActive);
      }
      if a in members {
        return Refused(AlreadyMember);
      }
      if |members| >= cfg.maxMembers {
        return Refused(GroupFull);
      }
      if role == Leader {
        var leaders := CountLeaders();
        if leaders >= cfg.maxLeaders {
          return Refused(MaxLeadersViolation);
        }
      }
      members := members[a := role];
      return Success;
    }

    method RemoveMember(a: AgentId) returns (r: Result)
      requires Valid()
      modifies this
      ensures Valid() && ops == old(ops) + [OnMembers(Remove(a))]
      ensures r == Decide(cfg, old(members), Remove(a), old(state))
      ensures old(state) == Active && |Leaders(old(members))| >= cfg.minLeaders ==> |Leaders(members)| >= cfg.minLeaders
    {
      ghost var op := OnMembers(Remove(a));
      Extends(op);
      Facts();
      CommitKeepsBounds(cfg, members, Remove(a), state);
      ops := ops + [op];
      r := TakeOut(a);
    }

    method TakeOut(a: AgentId) returns (r: Result)
      modifies this`members
      ensures r == Decide(cfg, old(members), Remove(a), state)
      ensures members == Commit(cfg, old(members), Remove(a), state)
    {
      if state == Dissolved {
        return Refused(GroupNotActive);
      }
      if a in members {
        if members[a] == Leader {
          var leaders := CountLeaders();
          if leaders <= cfg.minLeaders && state == Active {
            return Refused(MinLeadersViolation);
          }
        }
        members := members - {a};
        return Success;
      }
      return Refused(NotMember);
    }

    method ChangeRole(a: AgentId, role: Role) returns (r: Result)
      requires Valid()
      modifies this
      ensures Valid() && ops == old(ops) + [OnMembers(MemberOp.ChangeRole(a, role))]
      ensures r == Decide(cfg, old(members), MemberOp.ChangeRole(a, role), old(state))
      ensures Bounded(cfg, members)
      ensures |Leaders(old(members))| >= cfg.minLeaders ==> |Leaders(members)| >= cfg.minLeaders
    {
      ghost var op := OnMembers(MemberOp.ChangeRole(a, role));
      Extends(op);
      Facts();
      CommitKeepsBounds(cfg, members, MemberOp.ChangeRole(a, role), state);
      ops := ops + [op];
      r := Rewrite(a, role);
    }

    method Rewrite(a: AgentId, role: Role) returns (r: Result)
      modifies this`members
      ensures r == Decide(cfg, old(members), MemberOp.ChangeRole(a, role), state)
      ensures members == Commit(cfg, old(members), MemberOp.ChangeRole(a, role), state)
    {
      if state != Active {
        return Refused(GroupNotActive);
      }
      if a !in members {
        return Refused(NotMember);
      }
      var was := members[a];
      var leaders := CountLeaders();
      if was == Leader && role != Leader && leaders <= cfg.minLeaders {
        return Refused(MinLeadersViolation);
      }
      if role == Leader && was != Leader && leaders >= cfg.maxLeaders {
        return Refused(MaxLeadersViolation);
      }
      members := members[a := role];
      return Success;
    }

    /** `pause`, `resume`, `dissolve` and `complete_dissolution`. */
    method ChangeState(sop: StateOp) returns (r: Result)
      requires Valid()
      modifies this
      ensures Valid() && ops == old(ops) + [OnState(sop)]
      ensures r == DecideState(old(state), sop)
      ensures old(state) == Dissolved ==> r != Success && state == Dissolved && members == map[]
    {
      ghost var op := OnState(sop);
      Extends(op);
      Facts();
      ops := ops + [op];
      match sop {
        case Pause =>
          if state != Active { return Refused(NotAllowed); }
          state := Paused;
        case Resume =>
          if state != Paused { return Refused(NotAllowed); }
          state := Active;
        case Dissolve =>
          if state == Dissolved { return Refused(NotAllowed); }
          state := Dissolving;
        case CompleteDissolution =>
          if state != Dissolving { return Refused(NotAllowed); }
          members := map[];
          state := Dissolved;
      }
      return Success;
    }
  }

  lemma {:induction false} DissolvedIsEmpty(cfg: Config, ops: seq<Op>)
    requires Run(cfg, NEW_GROUP, ops).state == Dissolved
    ensures Run(cfg, NEW_GROUP, ops).members == map[]
  {
    if ops != [] {
      var k := |ops| - 1;
      if Run(cfg, NEW_GROUP, ops[..k]).state == Dissolved {
        DissolvedIsEmpty(cfg, ops[..k]);
      }
    }
  }
}
