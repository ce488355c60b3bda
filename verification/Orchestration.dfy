/** The control loop: deployments, reconciliation and scaling over the scheduler.

    A state machine of the small steps the operations are made of; a run is any sequence of
    enabled steps.  The methods of the `Orchestrator` object are proved to take only enabled
    steps, so every fact about runs is a fact about every history of calls. */
module Orchestration {
  import opened Basics
  import opened Cluster

  datatype Status = Pending | Deploying | Running | Scaling | Failed | Terminating | Terminated

  datatype Deployment = Deployment(
    spec: Spec,
    status: Status,
    agents: set<AgentId>,
    desired: u32,
    ready: u32,
    lastScale: Option<nat>)

  function NewDeployment(spec: Spec): (d: Deployment) {
    Deployment(spec, Pending, {}, spec.replicas, 0, None)
  }

  /** The deployment whose turn in `reconcile` or `delete_deployment` is under way. */
  datatype Turn = Reconciling(name: string) | Deleting(name: string)

  /** The whole state; `owner` records the deployment an agent was placed for. */
  datatype State = State(
    books: Books,
    deployments: map<string, Deployment>,
    owner: map<AgentId, string>,
    turn: Option<Turn>)

  const EMPTY: State := State(NO_BOOKS, map[], map[], None)

  datatype Op =
    | Register(node: Node)
    | Deregister(id: NodeId)
    | Create(spec: Spec)
    | Scale(name: string, replicas: u32, now: nat)
    | Begin(turn: Turn)
    | Place(name: string, agent: AgentId, on: NodeId)
    | Unplace(name: string, agent: AgentId)
    | FinishTurn(name: string)
    | Drop(name: string)

  predicate InRange(policy: Option<ScalingPolicy>, replicas: nat) {
    policy.Some? ==> policy.value.minReplicas <= replicas <= policy.value.maxReplicas
  }

  predicate Short(d: Deployment) { |d.agents| < d.desired }

  /** When a step may be taken, which the methods of the object guarantee by themselves; memory and
      disk of a node are unsigned. */
  ghost predicate Enabled(dist: Distance, s: State, op: Op) {
    match op
    case Register(node) =>
      node.free.memory >= 0 && node.free.disk >= 0
    case Deregister(_) => true
    case Create(_) => s.turn.None?
    case Scale(name, replicas, _) =>
      s.turn.None? && name in s.deployments && InRange(s.deployments[name].spec.policy, replicas)
    case Begin(turn) => s.turn.None? && turn.name in s.deployments
    case Place(name, agent, on) =>
      && s.turn == Some(Reconciling(name)) && name in s.deployments
      && agent !in s.books.placements && Short(s.deployments[name])
      && Best(dist, s.books.nodes, s.books.placements, s.deployments[name].spec, on)
    case Unplace(name, agent) =>
      && name in s.deployments && agent in s.deployments[name].agents
      && (s.turn == Some(Deleting(name)) ||
          (s.turn == Some(Reconciling(name)) && |s.deployments[name].agents| > s.deployments[name].desired))
    case FinishTurn(name) =>
      && s.turn == Some(Reconciling(name)) && name in s.deployments
      && |s.deployments[name].agents| <= s.deployments[name].desired
      && (Short(s.deployments[name]) ==>
            NoEligible(dist, s.books.nodes, s.books.placements, s.deployments[name].spec))
    case Drop(name) =>
      s.turn == Some(Deleting(name)) && name in s.deployments && s.deployments[name].agents == {}
  }

  ghost function Apply(dist: Distance, s: State, op: Op): (s': State)
    requires Enabled(dist, s, op)
  {
    match op
    case Register(node) => s.(books := Registering(s.books, node))
    case Deregister(id) => s.(books := Deregistering(s.books, id))
    case Create(spec) => s.(deployments := s.deployments[spec.name := NewDeployment(spec)])
    case Scale(name, replicas, now) =>
      var d := s.deployments[name];
      s.(deployments := s.deployments[name := d.(desired := replicas, lastScale := Some(now), status := Scaling)])
    case Begin(turn) => s.(turn := Some(turn))
    case Place(name, agent, on) =>
      var d := s.deployments[name];
      s.(books := Placing(s.books, agent, on, d.spec.resources),
         owner := s.owner[agent := name],
         deployments := s.deployments[name := d.(agents := d.agents + {agent})])
    case Unplace(name, agent) =>
      var d := s.deployments[name];
      s.(books := Removing(s.books, agent, d.spec.resources),
         deployments := s.deployments[name := d.(agents := d.agents - {agent})])
    case FinishTurn(name) =>
      s.(turn := None, deployments := s.deployments[name := Finished(s.deployments[name])])
    case Drop(name) => s.(turn := None, deployments := s.deployments - {name})
  }

  /** The end of a turn: the ready count is refreshed, and Running is set when it is as desired. */
  function Finished(d: Deployment): (d': Deployment)
    requires |d.agents| <= d.desired
  {
    var ready := |d.agents|;
    d.(ready := ready, status := if ready == d.desired then Running else d.status)
  }

  /** Every step of the run is enabled when it is taken. */
  ghost predicate LegalRun(dist: Distance, s: State, ops: seq<Op>)
    decreases |ops|, 0
  {
    ops == [] ||
    (var k := |ops| - 1;
     LegalRun(dist, s, ops[..k]) && Enabled(dist, Run(dist, s, ops[..k]), ops[k]))
  }

  ghost function Run(dist: Distance, s: State, ops: seq<Op>): (s': State)
    requires LegalRun(dist, s, ops)
    decreases |ops|, 1
  {
    if ops == [] then s else Apply(dist, Run(dist, s, ops[..|ops| - 1]), ops[|ops| - 1])
  }

  // ---------------------------------------------------------------- invariants

  /** A deployment's agents are placed, were placed for it, and reserved what it asks for. */
  ghost predicate Membership(s: State) {
    forall name, a :: name in s.deployments && a in s.deployments[name].agents ==>
      Belongs(s.books, s.owner, a, name, s.deployments[name].spec.resources)
  }

  ghost predicate Belongs(b: Books, owner: map<AgentId, string>, a: AgentId, name: string, r: Resources) {
    a in b.placements && a in b.reserved && b.reserved[a] == r && a in owner && owner[a] == name
  }

  /** What one deployment's counters mean, given its turn if one is under way. */
  ghost predicate Sound(d: Deployment, turn: Option<Turn>) {
    && |d.agents| < U32_LIMIT
    && (turn.None? ==> d.ready == |d.agents|)
    && (d.status == Running ==> d.ready == d.desired)
    && (d.status == Running && !(turn.Some? && turn.value.Deleting?) ==> |d.agents| == d.desired)
    && (InRange(d.spec.policy, d.spec.replicas) && d.spec.policy.Some? ==>
          && InRange(d.spec.policy, d.desired)
          && d.ready <= d.spec.policy.value.maxReplicas
          && |d.agents| <= d.spec.policy.value.maxReplicas)
  }

  function TurnOf(s: State, name: string): (t: Option<Turn>) {
    if s.turn.Some? && s.turn.value.name == name then s.turn else None
  }

  ghost predicate Counters(s: State) {
    forall name :: name in s.deployments ==>
      s.deployments[name].spec.name == name && Sound(s.deployments[name], TurnOf(s, name))
  }

  ghost predicate Inv(s: State) {
    Accounting(s.books) && Membership(s) && Counters(s)
  }

  // ---------------------------------------------------------------- each step keeps them

  lemma StepKeepsAccounting(dist: Distance, s: State, op: Op)
    requires Accounting(s.books) && Membership(s) && Enabled(dist, s, op)
    ensures Accounting(Apply(dist, s, op).books)
  {
    match op
    case Place(name, agent, on) => PlacingKeepsAccounting(s.books, agent, on, s.deployments[name].spec.resources);
    case Unplace(name, agent) => RemovingKeepsAccounting(s.books, agent, s.deployments[name].spec.resources);
    case Register(node) => RegisteringConservesExactlyWhen(s.books, node);
    case Deregister(id) => DeregisteringKeepsAccounting(s.books, id);
    case _ =>
  }

  lemma StepKeepsMembership(dist: Distance, s: State, op: Op)
    requires Membership(s) && Enabled(dist, s, op)
    ensures Membership(Apply(dist, s, op))
  {
    var s' := Apply(dist, s, op);
    match op
    case Place(x, agent, on) =>
      forall name, a | name in s'.deployments && a in s'.deployments[name].agents
        ensures Belongs(s'.books, s'.owner, a, name, s'.deployments[name].spec.resources)
      {
        if !(name == x && a == agent) {
          assert a in s.deployments[name].agents;
        }
      }
    case Unplace(x, agent) =>
      assert Belongs(s.books, s.owner, agent, x, s.deployments[x].spec.resources);
      forall name, a | name in s'.deployments && a in s'.deployments[name].agents
        ensures Belongs(s'.books, s'.owner, a, name, s'.deployments[name].spec.resources)
      {
        assert a in s.deployments[name].agents;
      }
    case FinishTurn(x) =>
    case Drop(x) =>
    case Create(x) =>
    case _ =>
  }

  /** Only one deployment, or its turn, changes. */
  lemma OneDeploymentChanges(s: State, s': State, x: string)
    requires Counters(s) && s'.deployments.Keys <= s.deployments.Keys + {x}
    requires forall n :: n in s'.deployments && n != x ==>
               s'.deployments[n] == s.deployments[n] && TurnOf(s', n) == TurnOf(s, n)
    requires x in s'.deployments ==> s'.deployments[x].spec.name == x && Sound(s'.deployments[x], TurnOf(s', x))
    ensures Counters(s')
  {
  }

  lemma PlacedIsSound(d: Deployment, name: string, agent: AgentId)
    requires Sound(d, Some(Reconciling(name))) && Short(d)
    ensures Sound(d.(agents := d.agents + {agent}), Some(Reconciling(name)))
  {
    assert |d.agents + {agent}| <= |d.agents| + 1;
  }

  lemma UnplacedIsSound(d: Deployment, turn: Turn, agent: AgentId)
    requires Sound(d, Some(turn)) && agent in d.agents && (turn.Deleting? || |d.agents| > d.desired)
    ensures Sound(d.(agents := d.agents - {agent}), Some(turn))
  {
    assert |d.agents - {agent}| == |d.agents| - 1;
  }

  lemma FinishedIsSound(d: Deployment, name: string)
    requires Sound(d, Some(Reconciling(name))) && |d.agents| <= d.desired
    ensures Sound(Finished(d), None)
  {
  }

  /** The steps inside a turn. */
  lemma TurnKeepsCounters(dist: Distance, s: State, op: Op)
    requires Counters(s) && Enabled(dist, s, op) && (op.Place? || op.Unplace? || op.FinishTurn?)
    ensures Counters(Apply(dist, s, op))
  {
    var s' := Apply(dist, s, op);
    var x := op.name;
    assert Sound(s.deployments[x], s.turn);
    match op
    case Place(_, agent, _) => PlacedIsSound(s.deployments[x], x, agent);
    case Unplace(_, agent) => UnplacedIsSound(s.deployments[x], s.turn.value, agent);
    case FinishTurn(_) => FinishedIsSound(s.deployments[x], x);
    OneDeploymentChanges(s, s', x);
  }

  lemma StepKeepsCounters(dist: Distance, s: State, op: Op)
    requires Counters(s) && Enabled(dist, s, op)
    ensures Counters(Apply(dist, s, op))
  {
    match op
    case Register(_) =>
    case Deregister(_) =>
    case Create(spec) => OneDeploymentChanges(s, Apply(dist, s, op), spec.name);
    case Scale(x, _, _) => OneDeploymentChanges(s, Apply(dist, s, op), x);
    case Begin(turn) => OneDeploymentChanges(s, Apply(dist, s, op), turn.name);
    case Drop(x) => OneDeploymentChanges(s, Apply(dist, s, op), x);
    case Place(_, _, _) => TurnKeepsCounters(dist, s, op);
    case Unplace(_, _) => TurnKeepsCounters(dist, s, op);
    case FinishTurn(_) => TurnKeepsCounters(dist, s, op);
  }

  // ---------------------------------------------------------------- main results on runs

  /** Safety of every run: conservation on each node, agents in one deployment only, and
      counters that mean what they say. */
  lemma {:induction false} EveryRunKeepsInv(dist: Distance, s: State, ops: seq<Op>)
    requires Inv(s) && LegalRun(dist, s, ops)
    ensures Inv(Run(dist, s, ops))
  {
    if ops != [] {
      var k := |ops| - 1;
      EveryRunKeepsInv(dist, s, ops[..k]);
      var mid := Run(dist, s, ops[..k]);
      StepKeepsAccounting(dist, mid, ops[k]);
      StepKeepsMembership(dist, mid, ops[k]);
      StepKeepsCounters(dist, mid, ops[k]);
    }
  }

  /** From the empty orchestrator: on no node does memory or disk ever underflow; and on each node that
      had no agents on its id when it was last registered, free plus reserved is what was registered
      and the agent count is the number placed on top of the registered count. */
  lemma ResourcesAreConserved(dist: Distance, ops: seq<Op>, n: NodeId)
    requires LegalRun(dist, EMPTY, ops) && n in Run(dist, EMPTY, ops).books.nodes
    ensures var b := Run(dist, EMPTY, ops).books;
            && b.nodes[n].free.memory >= 0 && b.nodes[n].free.disk >= 0
            && b.reserved.Keys == b.placements.Keys
            && (n in b.registered ==>
                  && b.nodes[n].free.Plus(Total(OnNode(b.placements, n), b.reserved)) == b.registered[n].free
                  && b.nodes[n].agentCount == b.registered[n].agentCount + |OnNode(b.placements, n)|)
  {
    EveryRunKeepsInv(dist, EMPTY, ops);
    assert Kept(Run(dist, EMPTY, ops).books, n);
  }

  predicate RegistersNode(op: Op, n: NodeId) { op.Register? && op.node.id == n }

  /** The last registration of the node in the run found no agent on its id. */
  ghost predicate LastRegisteredEmpty(dist: Distance, ops: seq<Op>, n: NodeId)
    requires LegalRun(dist, EMPTY, ops)
  {
    ops != [] &&
    (var k := |ops| - 1;
     if RegistersNode(ops[k], n) then OnNode(Run(dist, EMPTY, ops[..k]).books.placements, n) == {}
     else LastRegisteredEmpty(dist, ops[..k], n))
  }

  /** A node is accounted for exactly when its last registration found no agent on its id. */
  lemma {:induction false} AccountedForExactlyWhen(dist: Distance, ops: seq<Op>, n: NodeId)
    requires LegalRun(dist, EMPTY, ops)
    ensures n in Run(dist, EMPTY, ops).books.registered <==> LastRegisteredEmpty(dist, ops, n)
  {
    if ops != [] {
      AccountedForExactlyWhen(dist, ops[..|ops| - 1], n);
    }
  }

  /** Status and scaling: Running means as many ready agents as desired and as many as there
      are; a deployment created inside its policy range stays inside it and never has more
      ready agents than its maximum. */
  lemma StatusIsTruthful(dist: Distance, ops: seq<Op>, name: string)
    requires LegalRun(dist, EMPTY, ops)
    requires name in Run(dist, EMPTY, ops).deployments && Run(dist, EMPTY, ops).turn.None?
    ensures var d := Run(dist, EMPTY, ops).deployments[name];
            && (d.status == Running ==> d.ready == d.desired == |d.agents|)
            && (InRange(d.spec.policy, d.spec.replicas) && d.spec.policy.Some? ==>
                  && d.spec.policy.value.minReplicas <= d.desired <= d.spec.policy.value.maxReplicas
                  && d.ready <= d.spec.policy.value.maxReplicas)
  {
    EveryRunKeepsInv(dist, EMPTY, ops);
  }

  /** Placed, but in no deployment. */
  ghost predicate Orphan(s: State, a: AgentId) {
    a in s.books.placements && forall name :: name in s.deployments ==> a !in s.deployments[name].agents
  }

  lemma StepKeepsOrphan(dist: Distance, s: State, op: Op, a: AgentId)
    requires Orphan(s, a) && Enabled(dist, s, op)
    ensures Orphan(Apply(dist, s, op), a) && Apply(dist, s, op).books.placements[a] == s.books.placements[a]
  {
    var s' := Apply(dist, s, op);
    forall name | name in s'.deployments ensures a !in s'.deployments[name].agents {
      match op
      case Unplace(x, agent) => assert x in s.deployments && agent != a;
      case _ =>
    }
  }

  /** Creating a deployment under a name in use orphans the agents it had, and no later step
      of any run ever gives an orphan's resources back. */
  lemma {:induction false} OrphansAreNeverReleased(dist: Distance, s: State, ops: seq<Op>, a: AgentId)
    requires Inv(s) && LegalRun(dist, s, ops) && Orphan(s, a)
    ensures Orphan(Run(dist, s, ops), a)
    ensures Run(dist, s, ops).books.placements[a] == s.books.placements[a]
  {
    if ops != [] {
      var k := |ops| - 1;
      OrphansAreNeverReleased(dist, s, ops[..k], a);
      EveryRunKeepsInv(dist, s, ops[..k]);
      StepKeepsOrphan(dist, Run(dist, s, ops[..k]), ops[k], a);
    }
  }

  lemma OverwritingOrphans(dist: Distance, s: State, spec: Spec, a: AgentId)
    requires Inv(s) && Enabled(dist, s, Create(spec)) && a in s.books.placements && !Orphan(s, a)
    ensures Orphan(Apply(dist, s, Create(spec)), a)
            <==> spec.name in s.deployments && a in s.deployments[spec.name].agents
  {
    var owner :| owner in s.deployments && a in s.deployments[owner].agents;
    var s' := Apply(dist, s, Create(spec));
    if owner != spec.name {
      assert a in s'.deployments[owner].agents;
    }
  }
}
