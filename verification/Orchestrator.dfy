/** The scheduler and the orchestrator as objects.  Where the source iterates over a hash map,
    the loop takes its elements in an arbitrary order; agent ids are fresh numbers. */
module Orchestrator {
  import opened Basics
  import opened Cluster
  import opened Orchestration

  datatype Result<+T, +E> = Ok(value: T) | Err(error: E)

  datatype SelectError = InsufficientResources | ConstraintsUnmet
  datatype DeploymentError = DeploymentNotFound | ScalingFailed

  // ---------------------------------------------------------------- the scheduler

  class Scheduler {
    var nodes: map<NodeId, Node>
    var placements: map<AgentId, NodeId>
    const dist: Distance
    ghost var registered: map<NodeId, Node>
    ghost var reserved: map<AgentId, Resources>

    ghost function View(): Books
      reads this
    {
      Books(nodes, placements, registered, reserved)
    }

    constructor (dist: Distance)
      ensures View() == NO_BOOKS && this.dist == dist
    {
      this.dist := dist;
      nodes, placements, registered, reserved := map[], map[], map[], map[];
    }

    method RegisterNode(node: Node)
      modifies this
      ensures View() == Registering(old(View()), node)
      ensures Accounting(old(View())) && node.free.memory >= 0 && node.free.disk >= 0 ==>
                && Accounting(View())
                && (NodeBalanced(node, nodes[node.id], OnNode(placements, node.id), reserved) <==>
                    OnNode(old(placements), node.id) == {})
    {
      ghost var before := View();
      nodes := nodes[node.id := node];
      registered := Registering(before, node).registered;
      if Accounting(before) && node.free.memory >= 0 && node.free.disk >= 0 {
        RegisteringConservesExactlyWhen(before, node);
      }
    }

    method DeregisterNode(id: NodeId)
      modifies this
      ensures View() == Deregistering(old(View()), id)
    {
      nodes := nodes - {id};
    }

    /** The retained candidates, after any number of constraints, are the fitting nodes that
        satisfy all of them, whatever the order of the nodes. */
    ghost predicate Retained(candidates: seq<Node>, spec: Spec, upTo: nat)
      requires upTo <= |spec.constraints|
      reads this
    {
      forall c :: c in candidates <==>
        (c in nodes.Values && c.CanFit(spec.resources) &&
         SatisfiesAll(dist, placements, c, spec.constraints[..upTo]))
    }

    /** The nodes that can hold the request, in arbitrary order. */
    method Fitting(r: Resources) returns (candidates: seq<Node>)
      ensures forall c :: c in candidates <==> c in nodes.Values && c.CanFit(r)
    {
      candidates := [];
      var rest := nodes.Keys;
      while rest != {}
        invariant rest <= nodes.Keys
        invariant forall c :: c in candidates ==> c in nodes.Values && c.CanFit(r)
        invariant forall n :: n in nodes && n !in rest && nodes[n].CanFit(r) ==> nodes[n] in candidates
      {
        var n :| n in rest;
        rest := rest - {n};
        if nodes[n].CanFit(r) {
          candidates := candidates + [nodes[n]];
        }
      }
    }

    method Retain(candidates: seq<Node>, c: Constraint) returns (kept: seq<Node>)
      ensures forall n :: n in kept <==> n in candidates && Satisfies(dist, placements, n, c)
    {
      kept := [];
      for i := 0 to |candidates|
        invariant forall n :: n in kept <==> n in candidates[..i] && Satisfies(dist, placements, n, c)
      {
        if Satisfies(dist, placements, candidates[i], c) {
          kept := kept + [candidates[i]];
        }
      }
      assert candidates[..|candidates|] == candidates;
    }

    /** The last of the candidates with the most free cpu, then memory. */
    method Largest(candidates: seq<Node>) returns (best: Node)
      requires candidates != []
      ensures best in candidates && forall c :: c in candidates ==> AtMost(c, best)
    {
      best := candidates[0];
      for i := 1 to |candidates|
        invariant best in candidates && forall k :: 0 <= k < i ==> AtMost(candidates[k], best)
      {
        if AtMost(best, candidates[i]) {
          best := candidates[i];
        }
      }
    }

    /** A best eligible node, or which of the two filters left none. */
    method SelectNode(spec: Spec) returns (r: Result<NodeId, SelectError>)
      requires forall n :: n in nodes ==> nodes[n].id == n
      ensures r.Ok? ==> Best(dist, nodes, placements, spec, r.value)
      ensures r.Err? <==> NoEligible(dist, nodes, placements, spec)
      ensures r == Err(InsufficientResources) <==> forall n :: n in nodes ==> !nodes[n].CanFit(spec.resources)
      ensures r == Err(ConstraintsUnmet) <==>
                NoEligible(dist, nodes, placements, spec) && exists n :: n in nodes && nodes[n].CanFit(spec.resources)
    {
      var candidates := Fitting(spec.resources);
      if candidates == [] {
        assert forall n :: n in nodes ==> nodes[n] in nodes.Values;
        return Err(InsufficientResources);
      }
      SomeNodeFits(candidates, spec.resources);
      candidates := ApplyConstraints(candidates, spec);
      EligibleAreCandidates(candidates, spec);
      if candidates == [] {
        return Err(ConstraintsUnmet);
      }
      var best := Largest(candidates);
      return Ok(best.id);
    }

    /** All retains, one after the other. */
    method ApplyConstraints(fitting: seq<Node>, spec: Spec) returns (candidates: seq<Node>)
      requires forall c :: c in fitting <==> c in nodes.Values && c.CanFit(spec.resources)
      ensures Retained(candidates, spec, |spec.constraints|)
    {
      candidates := fitting;
      for i := 0 to |spec.constraints|
        invariant Retained(candidates, spec, i)
      {
        candidates := Retain(candidates, spec.constraints[i]);
        SatisfiesOneMore(spec, i);
      }
    }

    lemma SomeNodeFits(candidates: seq<Node>, r: Resources)
      requires candidates != [] && forall c :: c in candidates ==> c in nodes.Values && c.CanFit(r)
      ensures exists n :: n in nodes && nodes[n].CanFit(r)
    {
      assert candidates[0] in candidates;
      var n :| n in nodes && nodes[n] == candidates[0];
    }

    /** After all constraints the candidates are exactly the eligible nodes. */
    lemma EligibleAreCandidates(candidates: seq<Node>, spec: Spec)
      requires Retained(candidates, spec, |spec.constraints|) && forall n :: n in nodes ==> nodes[n].id == n
      ensures forall n :: n in nodes ==> (nodes[n] in candidates <==> Eligible(dist, placements, nodes[n], spec))
      ensures forall c :: c in candidates ==> c.id in nodes && nodes[c.id] == c
    {
      assert spec.constraints[..|spec.constraints|] == spec.constraints;
      assert forall n :: n in nodes ==> nodes[n] in nodes.Values;
    }

    lemma SatisfiesOneMore(spec: Spec, i: nat)
      requires i < |spec.constraints|
      ensures forall c :: SatisfiesAll(dist, placements, c, spec.constraints[..i + 1]) <==>
                SatisfiesAll(dist, placements, c, spec.constraints[..i]) &&
                Satisfies(dist, placements, c, spec.constraints[i])
    {
      forall c
        ensures SatisfiesAll(dist, placements, c, spec.constraints[..i + 1]) <==>
                SatisfiesAll(dist, placements, c, spec.constraints[..i]) &&
                Satisfies(dist, placements, c, spec.constraints[i])
      {
        var longer := spec.constraints[..i + 1];
        assert longer[i] == spec.constraints[i];
        assert forall k :: 0 <= k < i ==> longer[k] == spec.constraints[..i][k];
      }
    }

    method Schedule(agent: AgentId, spec: Spec) returns (r: Result<NodeId, SelectError>)
      requires forall n :: n in nodes ==> nodes[n].id == n
      modifies this
      ensures r.Ok? ==> Best(dist, old(nodes), old(placements), spec, r.value) &&
                        View() == Placing(old(View()), agent, r.value, spec.resources)
      ensures r.Err? ==> NoEligible(dist, nodes, placements, spec) && View() == old(View())
      ensures r.Ok? && Accounting(old(View())) ==> (Accounting(View()) <==> !CountedOn(old(View()), agent))
    {
      r := SelectNode(spec);
      if r.Ok? {
        var on := r.value;
        if Accounting(View()) {
          PlacingConservesExactlyWhen(View(), agent, on, spec.resources);
        }
        nodes := nodes[on := nodes[on].Allocate(spec.resources)];
        placements := placements[agent := on];
        reserved := reserved[agent := spec.resources];
      }
    }

    method Deschedule(agent: AgentId, spec: Spec)
      modifies this
      ensures View() == Removing(old(View()), agent, spec.resources)
      ensures Accounting(old(View())) ==>
                (Accounting(View()) <==> (CountedOn(old(View()), agent) ==> old(reserved)[agent] == spec.resources))
    {
      if Accounting(View()) {
        RemovingConservesExactlyWhen(View(), agent, spec.resources);
      }
      if agent in placements {
        var on := placements[agent];
        placements := placements - {agent};
        if on in nodes {
          nodes := nodes[on := nodes[on].Deallocate(spec.resources)];
        }
      }
      reserved := reserved - {agent};
    }
  }

  // ---------------------------------------------------------------- histories

  lemma Extend(dist: Distance, ops: seq<Op>, op: Op)
    requires LegalRun(dist, EMPTY, ops) && Enabled(dist, Run(dist, EMPTY, ops), op)
    ensures LegalRun(dist, EMPTY, ops + [op])
    ensures Run(dist, EMPTY, ops + [op]) == Apply(dist, Run(dist, EMPTY, ops), op)
  {
    assert (ops + [op])[..|ops|] == ops;
  }

  /** After `k` steps the turn of `name` has just ended with the deployment as given, and if it
      is short then no node was eligible at that moment. */
  ghost predicate TurnEnded(dist: Distance, ops: seq<Op>, name: string, d: Deployment, k: nat) {
    && 0 < k <= |ops| && ops[k - 1] == FinishTurn(name)
    && LegalRun(dist, EMPTY, ops[..k])
    && var at := Run(dist, EMPTY, ops[..k]);
       && name in at.deployments && at.deployments[name] == d
       && (Short(d) ==> NoEligible(dist, at.books.nodes, at.books.placements, d.spec))
  }

  /** The turn of `name` ended so at some point after the first `since` steps. */
  ghost predicate EndedSince(dist: Distance, ops: seq<Op>, since: nat, name: string, d: Deployment) {
    exists k :: since < k && TurnEnded(dist, ops, name, d, k)
  }

  lemma EndedJustNow(dist: Distance, ops: seq<Op>, name: string, d: Deployment)
    requires TurnEnded(dist, ops, name, d, |ops|)
    ensures forall since: nat :: since < |ops| ==> EndedSince(dist, ops, since, name, d)
  {
  }

  lemma StaysEnded(dist: Distance, ops: seq<Op>, longer: seq<Op>, since: nat, name: string, d: Deployment)
    requires ops <= longer && EndedSince(dist, ops, since, name, d)
    ensures EndedSince(dist, longer, since, name, d)
  {
    var k :| since < k && TurnEnded(dist, ops, name, d, k);
    assert longer[..k] == ops[..k];
    assert TurnEnded(dist, longer, name, d, k);
  }

  lemma AllStayEnded(dist: Distance, ops: seq<Op>, longer: seq<Op>, since: nat, ds: map<string, Deployment>,
                     names: set<string>)
    requires ops <= longer && names <= ds.Keys && forall n :: n in names ==> EndedSince(dist, ops, since, n, ds[n])
    ensures forall n :: n in names ==> EndedSince(dist, longer, since, n, ds[n])
  {
    forall n | n in names ensures EndedSince(dist, longer, since, n, ds[n]) {
      StaysEnded(dist, ops, longer, since, n, ds[n]);
    }
  }

  /** The agents of a deployment after the scaling part of its turn. */
  predicate Adjusted(before: Deployment, after: Deployment) {
    && after == before.(agents := after.agents) && |after.agents| <= after.desired
    && (|before.agents| >= before.desired ==> |after.agents| == after.desired && after.agents <= before.agents)
    && (|before.agents| < before.desired ==> before.agents <= after.agents)
  }

  /** What one turn of `reconcile` makes of a deployment. */
  predicate Turned(before: Deployment, after: Deployment) {
    && after.spec == before.spec && after.desired == before.desired && after.lastScale == before.lastScale
    && (|before.agents| >= before.desired ==> |after.agents| == after.desired && after.agents <= before.agents)
    && (|before.agents| < before.desired ==> |after.agents| <= after.desired && before.agents <= after.agents)
    && after.ready == |after.agents|
    && (after.status == Running <==> after.ready == after.desired || before.status == Running)
  }

  // ---------------------------------------------------------------- scaling decisions

  /** The fixed load the auto-scaler assumes. */
  const CURRENT_LOAD: real := 0.75

  /** The replica count `auto_scale` asks for. */
  function Wanted(ready: u32, p: ScalingPolicy): (n: u32) {
    if CURRENT_LOAD > p.scaleUp then
      if ready + 1 <= p.maxReplicas then ready + 1 else p.maxReplicas
    else if CURRENT_LOAD < p.scaleDown then
      var fewer := if ready > 0 then ready - 1 else 0;
      if fewer >= p.minReplicas then fewer else p.minReplicas
    else ready
  }

  /** The deployment has a policy, is out of its cooldown, and wants another count. */
  predicate Due(d: Deployment, now: nat) {
    && d.spec.policy.Some?
    && (d.lastScale.Some? ==> now - d.lastScale.value >= d.spec.policy.value.cooldown)
    && Wanted(d.ready, d.spec.policy.value) != d.ready
  }

  /** In every reachable state, for a deployment created inside its range that wants another count:
      the wish is refused exactly when it is one more than ready and still below the minimum. */
  lemma WishRefusedExactlyWhen(dist: Distance, ops: seq<Op>, name: string)
    requires LegalRun(dist, EMPTY, ops) && name in Run(dist, EMPTY, ops).deployments
    requires var d := Run(dist, EMPTY, ops).deployments[name];
             d.spec.policy.Some? && InRange(d.spec.policy, d.spec.replicas) && Wanted(d.ready, d.spec.policy.value) != d.ready
    ensures var d := Run(dist, EMPTY, ops).deployments[name];
            var p := d.spec.policy.value;
            !InRange(d.spec.policy, Wanted(d.ready, p)) <==> CURRENT_LOAD > p.scaleUp && d.ready + 1 < p.minReplicas
  {
    EveryRunKeepsInv(dist, EMPTY, ops);
    assert Sound(Run(dist, EMPTY, ops).deployments[name], TurnOf(Run(dist, EMPTY, ops), name));
  }

  // ---------------------------------------------------------------- the orchestrator

  class Orchestrator {
    var deployments: map<string, Deployment>
    const scheduler: Scheduler
    /** The next fresh agent id. */
    var nextId: AgentId
    ghost var owner: map<AgentId, string>
    ghost var turn: Option<Turn>
    /** Every step taken since the orchestrator was created. */
    ghost var history: seq<Op>

    ghost function View(): State
      reads this, scheduler
    {
      State(scheduler.View(), deployments, owner, turn)
    }

    /** The history is a legal run that leads to the present state. */
    ghost predicate Reached()
      reads this, scheduler
    {
      && LegalRun(scheduler.dist, EMPTY, history) && View() == Run(scheduler.dist, EMPTY, history)
      && forall a :: a in scheduler.placements ==> a < nextId
    }

    ghost predicate Valid()
      reads this, scheduler
    {
      Reached() && turn.None?
    }

    /** What the methods need of every reachable state: nodes are stored under their ids, and a
        deployment's agents are placed. */
    lemma Facts()
      requires Reached()
      ensures forall n :: n in scheduler.nodes ==> scheduler.nodes[n].id == n
      ensures forall name :: name in deployments ==>
                && deployments[name].agents <= scheduler.placements.Keys
                && |deployments[name].agents| < U32_LIMIT
                && (deployments[name].status == Running && turn.None? ==>
                      |deployments[name].agents| == deployments[name].desired)
    {
      EveryRunKeepsInv(scheduler.dist, EMPTY, history);
      var s := View();
      assert Inv(s);
      forall n | n in scheduler.nodes ensures scheduler.nodes[n].id == n {
        assert Kept(s.books, n);
      }
      forall name | name in deployments
        ensures deployments[name].agents <= scheduler.placements.Keys
        ensures |deployments[name].agents| < U32_LIMIT
        ensures deployments[name].status == Running && turn.None? ==>
                  |deployments[name].agents| == deployments[name].desired
      {
        assert Sound(s.deployments[name], TurnOf(s, name));
      }
    }

    constructor (scheduler: Scheduler)
      requires scheduler.View() == NO_BOOKS
      ensures Valid() && history == [] && View() == EMPTY && this.scheduler == scheduler
    {
      this.scheduler := scheduler;
      deployments, nextId, owner, turn, history := map[], 0, map[], None, [];
    }

    /** A node registered with the shared scheduler; one of the same id is overwritten. */
    method RegisterNode(node: Node)
      requires Valid()
      requires node.free.memory >= 0 && node.free.disk >= 0
      modifies this, scheduler
      ensures Valid() && history == old(history) + [Register(node)]
    {
      Extend(scheduler.dist, history, Register(node));
      scheduler.RegisterNode(node);
      history := history + [Register(node)];
    }

    method DeregisterNode(id: NodeId)
      requires Valid()
      modifies this, scheduler
      ensures Valid() && history == old(history) + [Deregister(id)]
    {
      Extend(scheduler.dist, history, Deregister(id));
      scheduler.DeregisterNode(id);
      history := history + [Deregister(id)];
    }

    method CreateDeployment(spec: Spec)
      requires Valid()
      modifies this
      ensures Valid() && history == old(history) + [Create(spec)]
      ensures deployments == old(deployments)[spec.name := NewDeployment(spec)]
    {
      Extend(scheduler.dist, history, Create(spec));
      deployments := deployments[spec.name := NewDeployment(spec)];
      history := history + [Create(spec)];
    }

    /** Everything the deployment had placed is taken off, and nothing else. */
    method DeleteDeployment(name: string) returns (r: Result<(), DeploymentError>)
      requires Valid()
      modifies this, scheduler
      ensures Valid() && old(history) <= history
      ensures r == Err(DeploymentNotFound) <==> name !in old(deployments)
      ensures r.Err? ==> View() == old(View())
      ensures r.Ok? ==>
                && deployments == old(deployments) - {name}
                && scheduler.placements == old(scheduler.placements) - old(deployments)[name].agents
    {
      if name !in deployments {
        return Err(DeploymentNotFound);
      }
      var d := deployments[name];
      BeginDelete(name);
      deployments := deployments - {name};
      TakeOffAll(name, d, old(deployments));
      EndDelete(name, d, old(deployments));
      return Ok(());
    }

    ghost method BeginDelete(name: string)
      requires Valid() && name in deployments
      modifies this`history
      ensures LegalRun(scheduler.dist, EMPTY, history) && old(history) <= history
      ensures Run(scheduler.dist, EMPTY, history) == View().(turn := Some(Deleting(name)))
    {
      Extend(scheduler.dist, history, Begin(Deleting(name)));
      history := history + [Begin(Deleting(name))];
    }

    ghost method EndDelete(name: string, d: Deployment, all: map<string, Deployment>)
      requires LegalRun(scheduler.dist, EMPTY, history) && deployments == all - {name} && turn.None?
      requires Run(scheduler.dist, EMPTY, history) ==
                 State(scheduler.View(), all[name := d.(agents := {})], owner, Some(Deleting(name)))
      requires forall a :: a in scheduler.placements ==> a < nextId
      modifies this`history
      ensures Valid() && old(history) <= history
    {
      Extend(scheduler.dist, history, Drop(name));
      history := history + [Drop(name)];
      assert all[name := d.(agents := {})] - {name} == deployments;
    }

    /** Deschedules the agents of a deployment already taken out of the map; `all` is the map
        with it. */
    method TakeOffAll(name: string, d: Deployment, ghost all: map<string, Deployment>)
      requires LegalRun(scheduler.dist, EMPTY, history) && turn.None?
      requires Run(scheduler.dist, EMPTY, history) == State(scheduler.View(), all, owner, Some(Deleting(name)))
      requires name in all && all[name] == d
      requires forall a :: a in scheduler.placements ==> a < nextId
      modifies this`history, scheduler
      ensures LegalRun(scheduler.dist, EMPTY, history) && old(history) <= history
      ensures Run(scheduler.dist, EMPTY, history) ==
                State(scheduler.View(), all[name := d.(agents := {})], owner, Some(Deleting(name)))
      ensures scheduler.placements == old(scheduler.placements) - d.agents
    {
      var rest := d.agents;
      assert all[name := d.(agents := rest)] == all;
      while rest != {}
        invariant rest <= d.agents && old(history) <= history
        invariant LegalRun(scheduler.dist, EMPTY, history)
        invariant Run(scheduler.dist, EMPTY, history) ==
                    State(scheduler.View(), all[name := d.(agents := rest)], owner, Some(Deleting(name)))
        invariant scheduler.placements == old(scheduler.placements) - (d.agents - rest)
      {
        var agent :| agent in rest;
        TakeOff(name, d, all, rest, agent);
        rest := rest - {agent};
      }
      assert d.agents - {} == d.agents;
    }

    /** One agent of the deployment being deleted, which has `rest` left. */
    method TakeOff(name: string, d: Deployment, ghost all: map<string, Deployment>, ghost rest: set<AgentId>, agent: AgentId)
      requires LegalRun(scheduler.dist, EMPTY, history) && agent in rest
      requires Run(scheduler.dist, EMPTY, history) ==
                 State(scheduler.View(), all[name := d.(agents := rest)], owner, Some(Deleting(name)))
      modifies this`history, scheduler
      ensures LegalRun(scheduler.dist, EMPTY, history) && old(history) <= history
      ensures Run(scheduler.dist, EMPTY, history) ==
                State(scheduler.View(), all[name := d.(agents := rest - {agent})], owner, Some(Deleting(name)))
      ensures scheduler.placements == old(scheduler.placements) - {agent}
    {
      Extend(scheduler.dist, history, Unplace(name, agent));
      history := history + [Unplace(name, agent)];
      scheduler.Deschedule(agent, d.spec);
      assert all[name := d.(agents := rest)][name := d.(agents := rest - {agent})] ==
             all[name := d.(agents := rest - {agent})];
    }

    /** Refused exactly when the deployment is unknown or the count is out of its range. */
    method ScaleDeployment(name: string, replicas: u32, now: nat) returns (r: Result<(), DeploymentError>)
      requires Valid()
      modifies this
      ensures Valid() && old(history) <= history
      ensures r == Err(DeploymentNotFound) <==> name !in old(deployments)
      ensures r == Err(ScalingFailed) <==>
                name in old(deployments) && !InRange(old(deployments)[name].spec.policy, replicas)
      ensures r.Err? ==> View() == old(View())
      ensures r.Ok? ==> deployments == old(deployments)[name :=
                old(deployments)[name].(desired := replicas, lastScale := Some(now), status := Scaling)]
    {
      if name !in deployments {
        return Err(DeploymentNotFound);
      }
      var d := deployments[name];
      if d.spec.policy.Some? {
        if replicas < d.spec.policy.value.minReplicas || replicas > d.spec.policy.value.maxReplicas {
          return Err(ScalingFailed);
        }
      }
      Extend(scheduler.dist, history, Scale(name, replicas, now));
      deployments := deployments[name := d.(desired := replicas, lastScale := Some(now), status := Scaling)];
      history := history + [Scale(name, replicas, now)];
      return Ok(());
    }

    /** One deployment's turn. */
    method ReconcileOne(name: string)
      requires Valid() && name in deployments
      modifies this, scheduler
      ensures Valid() && |old(history)| < |history| && old(history) <= history
      ensures name in deployments && deployments == old(deployments)[name := deployments[name]]
      ensures Turned(old(deployments)[name], deployments[name])
      ensures forall since: nat :: since <= |old(history)| ==> EndedSince(scheduler.dist, history, since, name, deployments[name])
    {
      BeginTurn(name);
      Adjust(name);
      Finish(name);
      EndedJustNow(scheduler.dist, history, name, deployments[name]);
    }

    /** The deployment gains or loses agents until it has the desired number or no node is eligible. */
    method Adjust(name: string)
      requires Reached() && turn == Some(Reconciling(name)) && name in deployments
      modifies this, scheduler
      ensures Reached() && turn == old(turn) && name in deployments && old(history) <= history
      ensures deployments == old(deployments)[name := deployments[name]]
      ensures Adjusted(old(deployments)[name], deployments[name])
      ensures Short(deployments[name]) ==>
                NoEligible(scheduler.dist, scheduler.nodes, scheduler.placements, deployments[name].spec)
    {
      Facts();
      var current := |deployments[name].agents| % U32_LIMIT;
      var desired := deployments[name].desired;
      if current < desired {
        ScaleUp(name, desired - current);
      } else if current > desired {
        ScaleDown(name, current - desired);
      }
    }

    method BeginTurn(name: string)
      requires Valid() && name in deployments
      modifies this`turn, this`history
      ensures Reached() && turn == Some(Reconciling(name)) && old(history) <= history
    {
      Extend(scheduler.dist, history, Begin(Reconciling(name)));
      history := history + [Begin(Reconciling(name))];
      turn := Some(Reconciling(name));
    }

    method Finish(name: string)
      requires Reached() && turn == Some(Reconciling(name)) && name in deployments
      requires |deployments[name].agents| <= deployments[name].desired
      requires Short(deployments[name]) ==>
                 NoEligible(scheduler.dist, scheduler.nodes, scheduler.placements, deployments[name].spec)
      modifies this
      ensures Valid() && |old(history)| < |history| && old(history) <= history
      ensures deployments == old(deployments)[name := Finished(old(deployments)[name])]
      ensures TurnEnded(scheduler.dist, history, name, deployments[name], |history|)
    {
      Extend(scheduler.dist, history, FinishTurn(name));
      history := history + [FinishTurn(name)];
      Refresh(name);
      turn := None;
      assert history[..|history|] == history;
    }

    method Refresh(name: string)
      requires name in deployments && |deployments[name].agents| <= deployments[name].desired
      modifies this`deployments
      ensures deployments == old(deployments)[name := Finished(old(deployments)[name])]
    {
      var d := deployments[name];
      d := d.(ready := |d.agents| % U32_LIMIT);
      if d.ready == d.desired {
        d := d.(status := Running);
      }
      deployments := deployments[name := d];
    }

    /** Once one attempt fails, every later one does, so a shortfall means no node is eligible. */
    method ScaleUp(name: string, toAdd: nat)
      requires Reached() && turn == Some(Reconciling(name)) && name in deployments
      requires |deployments[name].agents| + toAdd == deployments[name].desired
      modifies this, scheduler
      ensures Reached() && turn == Some(Reconciling(name)) && name in deployments && old(history) <= history
      ensures deployments == old(deployments)[name := deployments[name]]
      ensures var was, d := old(deployments)[name], deployments[name];
              && d == was.(agents := d.agents)
              && was.agents <= d.agents && |d.agents| <= d.desired
              && (Short(d) ==> NoEligible(scheduler.dist, scheduler.nodes, scheduler.placements, d.spec))
    {
      ghost var failed := false;
      ghost var was := deployments[name];
      for i := 0 to toAdd
        invariant Reached() && turn == Some(Reconciling(name)) && name in deployments && old(history) <= history
        invariant deployments == old(deployments)[name := deployments[name]]
        invariant deployments[name] == was.(agents := deployments[name].agents)
        invariant was.agents <= deployments[name].agents
        invariant |deployments[name].agents| <= |was.agents| + i
        invariant failed ==> NoEligible(scheduler.dist, scheduler.nodes, scheduler.placements, was.spec)
        invariant !failed ==> |deployments[name].agents| == |was.agents| + i
      {
        Facts();
        var d := deployments[name];
        var placed := PlaceOne(name);
        if !placed {
          failed := true;
        }
      }
    }

    /** One attempt: a fresh agent goes to a best node, or there is no eligible one. */
    method PlaceOne(name: string) returns (placed: bool)
      requires Reached() && turn == Some(Reconciling(name)) && name in deployments && Short(deployments[name])
      modifies this, scheduler
      ensures Reached() && turn == old(turn) && old(history) <= history
      ensures placed <==> !NoEligible(scheduler.dist, old(scheduler.nodes), old(scheduler.placements),
                                      old(deployments)[name].spec)
      ensures !placed ==> View() == old(View())
      ensures placed ==>
                var was := old(deployments)[name];
                deployments == old(deployments)[name := was.(agents := was.agents + {old(nextId)})] &&
                old(nextId) !in was.agents
    {
      Facts();
      var agent := nextId;
      nextId := nextId + 1;
      var d := deployments[name];
      assert agent !in d.agents;
      var r := scheduler.Schedule(agent, d.spec);
      placed := r.Ok?;
      if placed {
        Extend(scheduler.dist, history, Place(name, agent, r.value));
        deployments := deployments[name := d.(agents := d.agents + {agent})];
        owner := owner[agent := name];
        history := history + [Place(name, agent, r.value)];
      }
    }

    method ScaleDown(name: string, toRemove: nat)
      requires Reached() && turn == Some(Reconciling(name)) && name in deployments
      requires |deployments[name].agents| == deployments[name].desired + toRemove
      modifies this, scheduler
      ensures Reached() && turn == Some(Reconciling(name)) && name in deployments && old(history) <= history
      ensures deployments == old(deployments)[name := deployments[name]]
      ensures var was, d := old(deployments)[name], deployments[name];
              d == was.(agents := d.agents) && d.agents <= was.agents && |d.agents| == d.desired
    {
      ghost var was := deployments[name];
      for i := 0 to toRemove
        invariant Reached() && turn == Some(Reconciling(name)) && name in deployments && old(history) <= history
        invariant deployments == old(deployments)[name := deployments[name]]
        invariant deployments[name] == was.(agents := deployments[name].agents)
        invariant deployments[name].agents <= was.agents
        invariant |deployments[name].agents| == was.desired + toRemove - i
      {
        RemoveOne(name);
      }
    }

    method RemoveOne(name: string)
      requires Reached() && turn == Some(Reconciling(name)) && name in deployments
      requires |deployments[name].agents| > deployments[name].desired
      modifies this, scheduler
      ensures Reached() && turn == old(turn) && old(history) <= history && name in deployments
      ensures deployments == old(deployments)[name := deployments[name]]
      ensures var was, d := old(deployments)[name], deployments[name];
              d == was.(agents := d.agents) && d.agents <= was.agents && |d.agents| == |was.agents| - 1
    {
      var d := deployments[name];
      assert d.agents != {};
      var agent :| agent in d.agents;
      Extend(scheduler.dist, history, Unplace(name, agent));
      scheduler.Deschedule(agent, d.spec);
      deployments := deployments[name := d.(agents := d.agents - {agent})];
      history := history + [Unplace(name, agent)];
    }

    /** In whatever order the deployments are taken: each ends with at most its desired number of
        agents, with exactly that many if it had at least that many before, and one left short had
        no eligible node when its turn ended. */
    method Reconcile()
      requires Valid()
      modifies this, scheduler
      ensures Valid() && old(history) <= history
      ensures deployments.Keys == old(deployments).Keys
      ensures forall name :: name in deployments ==> Turned(old(deployments)[name], deployments[name])
      ensures forall name :: name in deployments ==>
                EndedSince(scheduler.dist, history, |old(history)|, name, deployments[name])
    {
      var rest := deployments.Keys;
      while rest != {}
        invariant Valid() && old(history) <= history
        invariant rest <= deployments.Keys && deployments.Keys == old(deployments).Keys
        invariant forall name :: name in rest ==> deployments[name] == old(deployments)[name]
        invariant forall name :: name in deployments && name !in rest ==> Turned(old(deployments)[name], deployments[name])
        invariant forall name :: name in deployments && name !in rest ==>
                    EndedSince(scheduler.dist, history, |old(history)|, name, deployments[name])
      {
        var name :| name in rest;
        rest := rest - {name};
        ghost var earlier, was := history, deployments;
        ReconcileOne(name);
        AllStayEnded(scheduler.dist, earlier, history, |old(history)|, was, was.Keys - rest - {name});
      }
    }

    /** At most one deployment is scaled, one that was due, to the count it wants; nothing happens
        exactly when none is due.  Each deployment is looked at at `now(name)`, and scaled at `at`. */
    method AutoScale(now: string -> nat, at: nat) returns (r: Result<(), DeploymentError>, scaled: Option<string>)
      requires Valid()
      modifies this
      ensures Valid() && old(history) <= history
      ensures scaled.None? <==> forall name :: name in old(deployments) ==> !Due(old(deployments)[name], now(name))
      ensures scaled.None? ==> r.Ok? && View() == old(View())
      ensures scaled.Some? ==>
                && scaled.value in old(deployments) && Due(old(deployments)[scaled.value], now(scaled.value))
                && var d := old(deployments)[scaled.value];
                   var wanted := Wanted(d.ready, d.spec.policy.value);
                   && (r.Err? <==> !InRange(d.spec.policy, wanted))
                   && (r.Err? ==> View() == old(View()))
                   && (r.Ok? ==> deployments == old(deployments)[scaled.value :=
                                   d.(desired := wanted, lastScale := Some(at), status := Scaling)])
    {
      var rest := deployments.Keys;
      while rest != {}
        invariant rest <= deployments.Keys && View() == old(View()) && Valid() && history == old(history)
        invariant forall name :: name in deployments && name !in rest ==> !Due(deployments[name], now(name))
      {
        var name :| name in rest;
        rest := rest - {name};
        var d := deployments[name];
        if d.spec.policy.Some? {
          var p := d.spec.policy.value;
          if !(d.lastScale.Some? && now(name) - d.lastScale.value < p.cooldown) {
            var wanted := Wanted(d.ready, p);
            if wanted != d.ready {
              assert Due(d, now(name));
              r := ScaleDeployment(name, wanted, at);
              assert r.Err? ==> r.error == DeploymentNotFound || r.error == ScalingFailed;
              return r, Some(name);
            }
          }
        }
      }
      return Ok(()), None;
    }
  }
}
