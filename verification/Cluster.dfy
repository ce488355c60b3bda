/** Nodes, deployment specifications and the accounting of resources that the scheduler and
    the orchestrator share.  CPU is exact; memory and disk are integers so that an
    allocation that does not fit shows as a negative amount. */
module Cluster {
  import opened Basics

  type NodeId = string
  type AgentId = nat
  type u32 = x: nat | x < 0x1_0000_0000
  const U32_LIMIT: nat := 0x1_0000_0000

  /** A quantity of cpu, memory and disk. */
  datatype Amount = Amount(cpu: real, memory: int, disk: int)
  {
    function Plus(other: Amount): (r: Amount) {
      Amount(cpu + other.cpu, memory + other.memory, disk + other.disk)
    }

    function Minus(other: Amount): (r: Amount) {
      Amount(cpu - other.cpu, memory - other.memory, disk - other.disk)
    }

    predicate Covers(other: Amount) {
      cpu >= other.cpu && memory >= other.memory && disk >= other.disk
    }
  }

  const ZERO: Amount := Amount(0.0, 0, 0)

  /** What one agent asks for; memory and disk are unsigned in the source. */
  type Resources = a: Amount | a.memory >= 0 && a.disk >= 0 witness Amount(0.0, 0, 0)

  datatype Node = Node(
    id: NodeId,
    labels: map<string, string>,
    location: Option<Location>,
    free: Amount,
    agentCount: nat)
  {
    predicate CanFit(r: Resources) { free.Covers(r) }

    function Allocate(r: Resources): (n: Node)
      ensures n.id == id && n.labels == labels && n.location == location
    {
      this.(free := free.Minus(r), agentCount := agentCount + 1)
    }

    /** The count saturates at zero. */
    function Deallocate(r: Resources): (n: Node)
      ensures n.id == id && n.labels == labels && n.location == location
    {
      this.(free := free.Plus(r), agentCount := if agentCount > 0 then agentCount - 1 else 0)
    }
  }

  datatype Constraint =
    | NodeAffinity(node: NodeId)
    | NodeAntiAffinity(node: NodeId)
    | PodAffinity(podLabel: string)
    | PodAntiAffinity(podLabel: string)
    | RegionAffinity(region: string)
    | RegionAntiAffinity(region: string)
    | NearLocation(location: Location, maxKm: real)
    | NodeSelector(required: map<string, string>)

  datatype ScalingPolicy = ScalingPolicy(
    minReplicas: u32,
    maxReplicas: u32,
    scaleUp: real,
    scaleDown: real,
    cooldown: nat)

  datatype Spec = Spec(
    name: string,
    replicas: u32,
    resources: Resources,
    constraints: seq<Constraint>,
    policy: Option<ScalingPolicy>)

  // ---------------------------------------------------------------- eligibility

  /** One placement constraint on one node.  Pod affinity ignores the label and asks for any
      placed agent; pod anti-affinity restricts nothing. */
  predicate Satisfies(dist: Distance, placements: map<AgentId, NodeId>, node: Node, c: Constraint) {
    match c
    case NodeAffinity(id) => node.id == id
    case NodeAntiAffinity(id) => node.id != id
    case PodAffinity(_) => node.id in placements.Values
    case PodAntiAffinity(_) => true
    case RegionAffinity(r) => "region" in node.labels && node.labels["region"] == r
    case RegionAntiAffinity(r) => !("region" in node.labels && node.labels["region"] == r)
    case NearLocation(l, km) => node.location.Some? && dist(l, node.location.value) <= km
    case NodeSelector(req) => forall k :: k in req ==> k in node.labels && node.labels[k] == req[k]
  }

  predicate SatisfiesAll(dist: Distance, placements: map<AgentId, NodeId>, node: Node, cs: seq<Constraint>) {
    forall i :: 0 <= i < |cs| ==> Satisfies(dist, placements, node, cs[i])
  }

  predicate Eligible(dist: Distance, placements: map<AgentId, NodeId>, node: Node, spec: Spec) {
    node.CanFit(spec.resources) && SatisfiesAll(dist, placements, node, spec.constraints)
  }

  /** No registered node meets the resources and every constraint. */
  predicate NoEligible(dist: Distance, nodes: map<NodeId, Node>, placements: map<AgentId, NodeId>, spec: Spec) {
    forall n :: n in nodes ==> !Eligible(dist, placements, nodes[n], spec)
  }

  /** Comparison of (available cpu, available memory), cpu first. */
  predicate AtMost(a: Node, b: Node) {
    a.free.cpu < b.free.cpu || (a.free.cpu == b.free.cpu && a.free.memory <= b.free.memory)
  }

  /** An eligible node with the most free cpu, then memory, among all eligible ones. */
  predicate Best(dist: Distance, nodes: map<NodeId, Node>, placements: map<AgentId, NodeId>, spec: Spec, n: NodeId) {
    && n in nodes && Eligible(dist, placements, nodes[n], spec)
    && forall m :: m in nodes && Eligible(dist, placements, nodes[m], spec) ==> AtMost(nodes[m], nodes[n])
  }

  // ---------------------------------------------------------------- sums over agents

  function OnNode(placements: map<AgentId, NodeId>, n: NodeId): (agents: set<AgentId>) {
    set a | a in placements && placements[a] == n
  }

  /** The total reserved by a set of agents. */
  ghost function Total(agents: set<AgentId>, reserved: map<AgentId, Amount>): (t: Amount)
    requires agents <= reserved.Keys
  {
    if agents == {} then ZERO
    else
      var a :| a in agents;
      Total(agents - {a}, reserved).Plus(reserved[a])
  }

  lemma PlusSwaps(x: Amount, y: Amount, z: Amount)
    ensures x.Plus(y).Plus(z) == x.Plus(z).Plus(y)
  {
  }

  /** Whichever agent is taken out, the rest and its share make the total. */
  lemma {:induction false} TotalWithout(agents: set<AgentId>, reserved: map<AgentId, Amount>, a: AgentId)
    requires a in agents && agents <= reserved.Keys
    ensures Total(agents, reserved) == Total(agents - {a}, reserved).Plus(reserved[a])
    decreases |agents|
  {
    var b :| b in agents && Total(agents, reserved) == Total(agents - {b}, reserved).Plus(reserved[b]);
    if a != b {
      var rest := agents - {a} - {b};
      assert agents - {b} - {a} == rest;
      TotalWithout(agents - {b}, reserved, a);
      TotalWithout(agents - {a}, reserved, b);
      assert Total(agents - {b}, reserved) == Total(rest, reserved).Plus(reserved[a]);
      assert Total(agents - {a}, reserved) == Total(rest, reserved).Plus(reserved[b]);
      PlusSwaps(Total(rest, reserved), reserved[a], reserved[b]);
    }
  }

  lemma {:induction false} TotalDependsOnMembers(agents: set<AgentId>, r: map<AgentId, Amount>, r': map<AgentId, Amount>)
    requires agents <= r.Keys && agents <= r'.Keys
    requires forall a :: a in agents ==> r[a] == r'[a]
    ensures Total(agents, r) == Total(agents, r')
    decreases |agents|
  {
    if agents != {} {
      var a :| a in agents;
      TotalWithout(agents, r, a);
      TotalWithout(agents, r', a);
      TotalDependsOnMembers(agents - {a}, r, r');
    }
  }

  // ---------------------------------------------------------------- conservation

  /** For one node: what is free, and what its agents reserved, make what was registered;
      and the count is the number of agents placed. */
  ghost predicate NodeBalanced(registered: Node, current: Node, agents: set<AgentId>, reserved: map<AgentId, Amount>)
    requires agents <= reserved.Keys
  {
    && registered.free == current.free.Plus(Total(agents, reserved))
    && current.agentCount == registered.agentCount + |agents|
  }

  lemma BalancedAfterAllocate(registered: Node, current: Node, agents: set<AgentId>, reserved: map<AgentId, Amount>,
                              a: AgentId, r: Resources)
    requires agents <= reserved.Keys && a !in agents
    requires NodeBalanced(registered, current, agents, reserved)
    ensures NodeBalanced(registered, current.Allocate(r), agents + {a}, reserved[a := r])
  {
    TotalWithout(agents + {a}, reserved[a := r], a);
    assert agents + {a} - {a} == agents;
    TotalDependsOnMembers(agents, reserved, reserved[a := r]);
  }

  /** Giving an agent's share back balances again, and the count never saturates. */
  lemma BalancedAfterDeallocate(registered: Node, current: Node, agents: set<AgentId>, reserved: map<AgentId, Amount>,
                                a: AgentId, r: Resources)
    requires agents <= reserved.Keys && a in agents && reserved[a] == r
    requires NodeBalanced(registered, current, agents, reserved)
    ensures current.agentCount > 0
    ensures NodeBalanced(registered, current.Deallocate(r), agents - {a}, reserved - {a})
  {
    TotalWithout(agents, reserved, a);
    TotalDependsOnMembers(agents - {a}, reserved, reserved - {a});
    assert |agents| == |agents - {a}| + 1;
  }

  /** A node none of whose agents changed stays balanced. */
  lemma BalancedUnchanged(registered: Node, current: Node, agents: set<AgentId>,
                          r: map<AgentId, Amount>, r': map<AgentId, Amount>)
    requires agents <= r.Keys && agents <= r'.Keys && (forall a :: a in agents ==> r[a] == r'[a])
    requires NodeBalanced(registered, current, agents, r)
    ensures NodeBalanced(registered, current, agents, r')
  {
    TotalDependsOnMembers(agents, r, r');
  }

  // ---------------------------------------------------------------- the scheduler's books

  /** What the scheduler stores, with bookkeeping for the statements: what each placed agent was given,
      and the nodes accounted for, as they were when last registered.  A node is accounted for when
      no agent was placed on its id at that moment. */
  datatype Books = Books(
    nodes: map<NodeId, Node>,
    placements: map<AgentId, NodeId>,
    registered: map<NodeId, Node>,
    reserved: map<AgentId, Resources>)

  const NO_BOOKS: Books := Books(map[], map[], map[], map[])

  /** `register_node`: an existing node of the same id is overwritten, whatever is placed on it. */
  function Registering(b: Books, node: Node): (b': Books) {
    b.(nodes := b.nodes[node.id := node],
       registered := if OnNode(b.placements, node.id) == {} then b.registered[node.id := node]
                     else b.registered - {node.id})
  }

  function Deregistering(b: Books, id: NodeId): (b': Books) {
    b.(nodes := b.nodes - {id})
  }

  /** The two writes of `schedule`, once a node is selected. */
  function Placing(b: Books, agent: AgentId, on: NodeId, r: Resources): (b': Books)
    requires on in b.nodes
  {
    b.(nodes := b.nodes[on := b.nodes[on].Allocate(r)],
       placements := b.placements[agent := on],
       reserved := b.reserved[agent := r])
  }

  /** `deschedule`: the placement goes, and its node is credited if it still exists. */
  function Removing(b: Books, agent: AgentId, r: Resources): (b': Books) {
    b.(nodes := if agent in b.placements then Credited(b.nodes, b.placements[agent], r) else b.nodes,
       placements := b.placements - {agent},
       reserved := b.reserved - {agent})
  }

  function Credited(nodes: map<NodeId, Node>, on: NodeId, r: Resources): (nodes': map<NodeId, Node>) {
    if on in nodes then nodes[on := nodes[on].Deallocate(r)] else nodes
  }

  /** No underflow on any node, and conservation on every node accounted for. */
  ghost predicate Accounting(b: Books) {
    b.placements.Keys == b.reserved.Keys && forall n :: n in b.nodes ==> Kept(b, n)
  }

  ghost predicate Kept(b: Books, n: NodeId)
    requires b.placements.Keys == b.reserved.Keys && n in b.nodes
  {
    && b.nodes[n].id == n
    && b.nodes[n].free.memory >= 0 && b.nodes[n].free.disk >= 0
    && (n in b.registered ==> NodeBalanced(b.registered[n], b.nodes[n], OnNode(b.placements, n), b.reserved))
  }

  /** The agent is placed on a node that exists and is accounted for. */
  predicate CountedOn(b: Books, agent: AgentId) {
    agent in b.placements && b.placements[agent] in b.nodes && b.placements[agent] in b.registered
  }

  lemma PlacingKeepsNode(b: Books, agent: AgentId, on: NodeId, r: Resources, n: NodeId)
    requires Accounting(b) && !CountedOn(b, agent) && on in b.nodes && b.nodes[on].CanFit(r) && n in b.nodes
    ensures Kept(Placing(b, agent, on, r), n)
  {
    var b' := Placing(b, agent, on, r);
    assert Kept(b, n);
    var agents := OnNode(b.placements, n);
    if n in b.registered {
      if n == on {
        assert OnNode(b'.placements, n) == agents + {agent};
        BalancedAfterAllocate(b.registered[n], b.nodes[n], agents, b.reserved, agent, r);
      } else {
        assert OnNode(b'.placements, n) == agents;
        BalancedUnchanged(b.registered[n], b.nodes[n], agents, b.reserved, b'.reserved);
      }
    }
  }

  lemma PlacingKeepsAccounting(b: Books, agent: AgentId, on: NodeId, r: Resources)
    requires Accounting(b) && !CountedOn(b, agent) && on in b.nodes && b.nodes[on].CanFit(r)
    ensures Accounting(Placing(b, agent, on, r))
  {
    var b' := Placing(b, agent, on, r);
    forall n | n in b'.nodes ensures Kept(b', n) {
      PlacingKeepsNode(b, agent, on, r, n);
    }
  }

  /** Placing keeps conservation exactly when the agent is not yet counted on some node: a second
      placement of an agent leaves the count of the first behind. */
  lemma PlacingConservesExactlyWhen(b: Books, agent: AgentId, on: NodeId, r: Resources)
    requires Accounting(b) && on in b.nodes && b.nodes[on].CanFit(r)
    ensures Accounting(Placing(b, agent, on, r)) <==> !CountedOn(b, agent)
  {
    if CountedOn(b, agent) {
      var b', n := Placing(b, agent, on, r), b.placements[agent];
      var agents := OnNode(b.placements, n);
      assert Kept(b, n) && agent in agents;
      assert OnNode(b'.placements, n) == if n == on then agents else agents - {agent};
      assert |agents - {agent}| == |agents| - 1;
      assert !Kept(b', n);
    } else {
      PlacingKeepsAccounting(b, agent, on, r);
    }
  }

  lemma RemovingKeepsNode(b: Books, agent: AgentId, r: Resources, n: NodeId)
    requires Accounting(b) && (CountedOn(b, agent) ==> b.reserved[agent] == r) && n in b.nodes
    ensures Removing(b, agent, r).placements.Keys == Removing(b, agent, r).reserved.Keys
    ensures n in Removing(b, agent, r).nodes && Kept(Removing(b, agent, r), n)
  {
    var b' := Removing(b, agent, r);
    assert Kept(b, n);
    var agents := OnNode(b.placements, n);
    if n in b.registered {
      assert OnNode(b'.placements, n) == agents - {agent};
      if agent in agents {
        BalancedAfterDeallocate(b.registered[n], b.nodes[n], agents, b.reserved, agent, r);
      } else {
        assert agents - {agent} == agents;
        BalancedUnchanged(b.registered[n], b.nodes[n], agents, b.reserved, b'.reserved);
      }
    }
  }

  lemma RemovingKeepsAccounting(b: Books, agent: AgentId, r: Resources)
    requires Accounting(b) && (CountedOn(b, agent) ==> b.reserved[agent] == r)
    ensures Accounting(Removing(b, agent, r))
  {
    var b' := Removing(b, agent, r);
    forall n | n in b'.nodes ensures Kept(b', n) {
      RemovingKeepsNode(b, agent, r, n);
    }
  }

  /** Removing keeps conservation exactly when a counted agent is given back what it was given. */
  lemma RemovingConservesExactlyWhen(b: Books, agent: AgentId, r: Resources)
    requires Accounting(b)
    ensures Accounting(Removing(b, agent, r)) <==> (CountedOn(b, agent) ==> b.reserved[agent] == r)
  {
    if CountedOn(b, agent) && b.reserved[agent] != r {
      var b', n := Removing(b, agent, r), b.placements[agent];
      var agents := OnNode(b.placements, n);
      assert Kept(b, n) && agent in agents;
      assert OnNode(b'.placements, n) == agents - {agent};
      TotalWithout(agents, b.reserved, agent);
      TotalDependsOnMembers(agents - {agent}, b.reserved, b'.reserved);
      assert !Kept(b', n);
    } else {
      RemovingKeepsAccounting(b, agent, r);
    }
  }

  /** `register_node` never spoils the accounting, but the node it registers balances against what was
      registered exactly when no agent is placed on its id. */
  lemma RegisteringConservesExactlyWhen(b: Books, node: Node)
    requires Accounting(b) && node.free.memory >= 0 && node.free.disk >= 0
    ensures var b' := Registering(b, node);
            && Accounting(b')
            && (NodeBalanced(node, b'.nodes[node.id], OnNode(b'.placements, node.id), b'.reserved) <==>
                OnNode(b.placements, node.id) == {})
  {
    var b' := Registering(b, node);
    var agents := OnNode(b.placements, node.id);
    assert OnNode(b'.placements, node.id) == agents;
    assert agents != {} ==> |agents| > 0;
    assert forall n :: n in b'.nodes && n != node.id ==> Kept(b, n) && Kept(b', n);
  }

  lemma DeregisteringKeepsAccounting(b: Books, id: NodeId)
    requires Accounting(b)
    ensures Accounting(Deregistering(b, id))
  {
    var b' := Deregistering(b, id);
    assert forall n :: n in b'.nodes ==> Kept(b, n) && Kept(b', n);
  }
}
