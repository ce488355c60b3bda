/** The service registry: registrations with two redundant indexes and a health table, and the
    scoring query over them. */
module Discovery {
  import opened Basics

  type AgentId = nat

  datatype Capability = Capability(name: string, version: Version)

  datatype Registration = Registration(
    agent: AgentId,
    service: string,
    version: Version,
    capabilities: set<Capability>,
    location: Option<Location>)
  {
    function Names(): (names: set<string>) { set c | c in capabilities :: c.name }
  }

  datatype Status = Healthy | Degraded | Unhealthy | Unknown
  datatype Health = Health(status: Status, lastCheck: nat)

  datatype Registry = Registry(
    registrations: map<AgentId, Registration>,
    health: map<AgentId, Health>,
    services: map<string, set<AgentId>>,
    capabilities: map<string, set<AgentId>>)

  const EMPTY: Registry := Registry(map[], map[], map[], map[])

  // ---------------------------------------------------------------- index updates

  function Members(index: map<string, set<AgentId>>, key: string): (agents: set<AgentId>) {
    if key in index then index[key] else {}
  }

  /** The index with the agent added under every key of a set. */
  function Indexed(index: map<string, set<AgentId>>, keys: set<string>, a: AgentId): (index': map<string, set<AgentId>>)
  {
    map k | k in index.Keys + keys :: if k in keys then Members(index, k) + {a} else index[k]
  }

  /** The index with the agent taken out under every key of a set, and emptied keys dropped. */
  function Unindexed(index: map<string, set<AgentId>>, keys: set<string>, a: AgentId): (index': map<string, set<AgentId>>)
  {
    map k | k in index && !(k in keys && index[k] - {a} == {}) :: if k in keys then index[k] - {a} else index[k]
  }

  // ---------------------------------------------------------------- the operations

  function Register(s: Registry, r: Registration, now: nat): (s': Registry) {
    Registry(s.registrations[r.agent := r],
             s.health[r.agent := Health(Healthy, now)],
             Indexed(s.services, {r.service}, r.agent),
             Indexed(s.capabilities, r.Names(), r.agent))
  }

  /** An unknown agent is an error and changes nothing. */
  function Deregister(s: Registry, a: AgentId): (s': Registry) {
    if a !in s.registrations then s
    else
      var r := s.registrations[a];
      Registry(s.registrations - {a}, s.health - {a},
               Unindexed(s.services, {r.service}, a),
               Unindexed(s.capabilities, r.Names(), a))
  }

  function UpdateHealth(s: Registry, a: AgentId, h: Health): (s': Registry) {
    if a in s.health then s.(health := s.health[a := h]) else s
  }

  datatype Op = DoRegister(r: Registration, now: nat) | DoDeregister(agent: AgentId) | DoUpdateHealth(agent: AgentId, h: Health)

  function Step(s: Registry, op: Op): (s': Registry) {
    match op
    case DoRegister(r, now) => Register(s, r, now)
    case DoDeregister(a) => Deregister(s, a)
    case DoUpdateHealth(a, h) => UpdateHealth(s, a, h)
  }

  function Run(ops: seq<Op>): (s: Registry)
    decreases |ops|, 0
  {
    if ops == [] then EMPTY else After(ops[..|ops| - 1], ops[|ops| - 1])
  }

  /** One operation after a run of others. */
  function After(before: seq<Op>, op: Op): (s: Registry)
    decreases |before|, 1
  {
    Step(Run(before), op)
  }

  /** No step of the run registers an agent that is registered already. */
  predicate NeverReRegisters(ops: seq<Op>) {
    ops == [] ||
    (var k := |ops| - 1;
     NeverReRegisters(ops[..k]) && (ops[k].DoRegister? ==> ops[k].r.agent !in Run(ops[..k]).registrations))
  }

  // ---------------------------------------------------------------- invariants

  /** Each registered agent can be found through both indexes, no index set is empty, and health is
      kept for exactly the registered agents. */
  ghost predicate Covered(s: Registry) {
    && (forall a :: a in s.registrations ==> a in Members(s.services, s.registrations[a].service))
    && (forall a, n :: a in s.registrations && n in s.registrations[a].Names() ==> a in Members(s.capabilities, n))
    && (forall k :: k in s.services ==> s.services[k] != {})
    && (forall k :: k in s.capabilities ==> s.capabilities[k] != {})
    && s.health.Keys == s.registrations.Keys
    && (forall a :: a in s.registrations ==> s.registrations[a].agent == a)
  }

  /** Nothing else is found through them. */
  ghost predicate Exact(s: Registry) {
    && (forall k, a :: a in Members(s.services, k) ==> a in s.registrations && s.registrations[a].service == k)
    && (forall k, a :: a in Members(s.capabilities, k) ==> a in s.registrations && k in s.registrations[a].Names())
  }

  lemma RegisterKeepsCovered(s: Registry, r: Registration, now: nat)
    requires Covered(s)
    ensures Covered(Register(s, r, now))
  {
    var s' := Register(s, r, now);
    forall a, n | a in s'.registrations && n in s'.registrations[a].Names() ensures a in Members(s'.capabilities, n) {
      if a != r.agent {
        assert a in Members(s.capabilities, n);
      }
    }
    forall a | a in s'.registrations ensures a in Members(s'.services, s'.registrations[a].service) {
      if a != r.agent {
        assert a in Members(s.services, s.registrations[a].service);
      }
    }
  }

  lemma DeregisterKeepsCovered(s: Registry, agent: AgentId)
    requires Covered(s)
    ensures Covered(Deregister(s, agent))
  {
    var s' := Deregister(s, agent);
    forall a, n | a in s'.registrations && n in s'.registrations[a].Names() ensures a in Members(s'.capabilities, n) {
      assert a in Members(s.capabilities, n);
    }
  }

  lemma StepKeepsCovered(s: Registry, op: Op)
    requires Covered(s)
    ensures Covered(Step(s, op))
  {
    match op
    case DoRegister(r, now) => RegisterKeepsCovered(s, r, now);
    case DoDeregister(a) => DeregisterKeepsCovered(s, a);
    case DoUpdateHealth(a, h) =>
  }

  /** Registering a live agent again leaves the indexes exact if and only if it stays in its
      service and keeps every capability name. */
  lemma ReRegisteringExactlyWhen(s: Registry, r: Registration, now: nat)
    requires Covered(s) && Exact(s) && r.agent in s.registrations
    ensures Exact(Register(s, r, now)) <==>
              s.registrations[r.agent].service == r.service && s.registrations[r.agent].Names() <= r.Names()
  {
    var was := s.registrations[r.agent];
    var s' := Register(s, r, now);
    if was.service != r.service {
      assert r.agent in Members(s.services, was.service);
      assert r.agent in Members(s'.services, was.service);
      assert s'.registrations[r.agent].service != was.service;
      assert !Exact(s');
    } else if !(was.Names() <= r.Names()) {
      var n :| n in was.Names() && n !in r.Names();
      assert r.agent in Members(s.capabilities, n);
      assert r.agent in Members(s'.capabilities, n);
      assert n !in s'.registrations[r.agent].Names();
      assert !Exact(s');
    } else {
      forall k, a | a in Members(s'.capabilities, k) ensures a in s'.registrations && k in s'.registrations[a].Names() {
        assert (k in r.Names() && a == r.agent) || a in Members(s.capabilities, k);
      }
      forall k, a | a in Members(s'.services, k) ensures a in s'.registrations && s'.registrations[a].service == k {
        assert (k == r.service && a == r.agent) || a in Members(s.services, k);
      }
    }
  }

  lemma StepKeepsServicesExact(s: Registry, op: Op, a: AgentId, k: string)
    requires Covered(s) && Exact(s) && (op.DoRegister? ==> op.r.agent !in s.registrations)
    requires a in Members(Step(s, op).services, k)
    ensures var s' := Step(s, op); a in s'.registrations && s'.registrations[a].service == k
  {
    assert (op.DoRegister? && k == op.r.service && a == op.r.agent) || a in Members(s.services, k);
  }

  lemma StepKeepsCapabilitiesExact(s: Registry, op: Op, a: AgentId, k: string)
    requires Covered(s) && Exact(s) && (op.DoRegister? ==> op.r.agent !in s.registrations)
    requires a in Members(Step(s, op).capabilities, k)
    ensures var s' := Step(s, op); a in s'.registrations && k in s'.registrations[a].Names()
  {
    assert (op.DoRegister? && k in op.r.Names() && a == op.r.agent) || a in Members(s.capabilities, k);
  }

  lemma StepKeepsExact(s: Registry, op: Op)
    requires Covered(s) && Exact(s) && (op.DoRegister? ==> op.r.agent !in s.registrations)
    ensures Exact(Step(s, op))
  {
    var s' := Step(s, op);
    forall k, a | a in Members(s'.capabilities, k) ensures a in s'.registrations && k in s'.registrations[a].Names() {
      StepKeepsCapabilitiesExact(s, op, a, k);
    }
    forall k, a | a in Members(s'.services, k) ensures a in s'.registrations && s'.registrations[a].service == k {
      StepKeepsServicesExact(s, op, a, k);
    }
  }

  // ---------------------------------------------------------------- main results on the indexes

  lemma {:induction false} EveryRunIsCovered(ops: seq<Op>)
    ensures Covered(Run(ops))
  {
    if ops != [] {
      EveryRunIsCovered(ops[..|ops| - 1]);
      StepKeepsCovered(Run(ops[..|ops| - 1]), ops[|ops| - 1]);
    }
  }

  lemma {:induction false} RunsWithoutReRegistrationAreExact(ops: seq<Op>)
    requires NeverReRegisters(ops)
    ensures Exact(Run(ops))
  {
    if ops != [] {
      var k := |ops| - 1;
      RunsWithoutReRegistrationAreExact(ops[..k]);
      EveryRunIsCovered(ops[..k]);
      StepKeepsExact(Run(ops[..k]), ops[k]);
    }
  }

  /** The plain scans the indexes stand for. */
  function ScanService(s: Registry, service: string): (agents: set<AgentId>) {
    set a | a in s.registrations && s.registrations[a].service == service
  }

  function ScanCapability(s: Registry, name: string): (agents: set<AgentId>) {
    set a | a in s.registrations && name in s.registrations[a].Names()
  }

  predicate IsHealthy(s: Registry, a: AgentId) { a in s.health && s.health[a].status == Healthy }

  /** The indexed queries answer as a scan of all registrations would. */
  lemma QueriesEqualScans(ops: seq<Op>, key: string)
    requires NeverReRegisters(ops)
    ensures var s := Run(ops);
            && Members(s.services, key) == ScanService(s, key)
            && Members(s.capabilities, key) == ScanCapability(s, key)
            && (set a | a in Members(s.services, key) && IsHealthy(s, a)) ==
               (set a | a in s.registrations && s.registrations[a].service == key && IsHealthy(s, a))
  {
    EveryRunIsCovered(ops);
    RunsWithoutReRegistrationAreExact(ops);
    var s := Run(ops);
    assert Members(s.services, key) == ScanService(s, key);
    assert Members(s.capabilities, key) == ScanCapability(s, key);
  }

  /** A key of either index. */
  datatype Key = OfService(name: string) | OfCapability(name: string)

  function Found(s: Registry, key: Key): (agents: set<AgentId>) {
    match key
    case OfService(name) => Members(s.services, name)
    case OfCapability(name) => Members(s.capabilities, name)
  }

  predicate BelongsTo(r: Registration, key: Key) {
    match key
    case OfService(name) => r.service == name
    case OfCapability(name) => name in r.Names()
  }

  /** The agent is found under a key its registration does not belong to, or without a registration. */
  predicate Stale(s: Registry, a: AgentId, key: Key) {
    a in Found(s, key) && !(a in s.registrations && BelongsTo(s.registrations[a], key))
  }

  predicate RegistersUnder(op: Op, a: AgentId, key: Key) {
    op.DoRegister? && op.r.agent == a && BelongsTo(op.r, key)
  }

  /** The operation registers the agent, live under this key, without it: under another service, or with
      the capability name dropped. */
  predicate MovesAway(s: Registry, op: Op, a: AgentId, key: Key) {
    && op.DoRegister? && op.r.agent == a && !BelongsTo(op.r, key)
    && a in s.registrations && BelongsTo(s.registrations[a], key)
  }

  /** An entry of either index becomes stale exactly when its agent moves away, and stops being so exactly
      when the agent registers under that key again: deregistering the agent does not remove it. */
  lemma StaleExactlyWhen(s: Registry, op: Op, a: AgentId, key: Key)
    requires Covered(s)
    ensures Stale(Step(s, op), a, key) <==>
              (Stale(s, a, key) && !RegistersUnder(op, a, key)) || MovesAway(s, op, a, key)
  {
    if a in s.registrations && BelongsTo(s.registrations[a], key) {
      assert a in Found(s, key);
    }
  }

  lemma StaysStale(ops: seq<Op>, op: Op, a: AgentId, key: Key)
    requires Stale(Run(ops), a, key) && !RegistersUnder(op, a, key)
    ensures Stale(Run(ops + [op]), a, key)
  {
    EveryRunIsCovered(ops);
    StaleExactlyWhen(Run(ops), op, a, key);
    assert (ops + [op])[..|ops|] == ops;
  }

  /** Once moved, the agent is found under the old service or capability in every later run that does not
      register it there again, registered or not. */
  lemma {:induction false} MovedAgentIsFoundUntilItReturns(ops: seq<Op>, more: seq<Op>, a: AgentId, key: Key)
    requires Stale(Run(ops), a, key)
    requires forall i :: 0 <= i < |more| ==> !RegistersUnder(more[i], a, key)
    ensures Stale(Run(ops + more), a, key)
    decreases |more|
  {
    if more == [] {
      assert ops + more == ops;
    } else {
      var rest, last := more[..|more| - 1], more[|more| - 1];
      MovedAgentIsFoundUntilItReturns(ops, rest, a, key);
      StaysStale(ops + rest, last, a, key);
      assert ops + rest + [last] == ops + more;
    }
  }

  // ---------------------------------------------------------------- discovery

  datatype Query = Query(
    service: Option<string>,
    capabilities: seq<Capability>,
    version: Option<Version>,
    location: Option<Location>,
    maxKm: Option<real>,
    required: Option<Status>,
    maxResults: Option<nat>)

  datatype Hit = Hit(agent: AgentId, health: Health, distance: Option<real>, score: real)

  predicate Provides(r: Registration, c: Capability) {
    exists d :: d in r.capabilities && d.name == c.name && d.version.AtLeast(c.version)
  }

  /** The health the query works with; an agent without an entry counts as just checked, unknown. */
  function HealthOf(s: Registry, a: AgentId, now: nat): (h: Health) {
    if a in s.health then s.health[a] else Health(Unknown, now)
  }

  function DistanceOf(dist: Distance, q: Query, r: Registration): (d: Option<real>) {
    if q.location.Some? && r.location.Some? then Some(dist(q.location.value, r.location.value)) else None
  }

  /** Everything the query filters on. */
  predicate Matches(dist: Distance, maxAge: nat, s: Registry, q: Query, a: AgentId, now: nat)
    requires a in s.registrations
  {
    var r := s.registrations[a];
    var h := HealthOf(s, a, now);
    var d := DistanceOf(dist, q, r);
    && (q.service.Some? ==> r.service == q.service.value)
    && (q.version.Some? ==> r.version == q.version.value)
    && (forall i :: 0 <= i < |q.capabilities| ==> Provides(r, q.capabilities[i]))
    && (d.Some? && q.maxKm.Some? ==> d.value <= q.maxKm.value)
    && (q.required.Some? ==> h.status == q.required.value)
    && !(now - h.lastCheck > maxAge && h.status != Unknown)
  }

  function HealthScore(status: Status): (x: real) {
    match status
    case Healthy => 1.0
    case Degraded => 0.5
    case Unhealthy => 0.1
    case Unknown => 0.3
  }

  /** Nearer is better, and healthier is better.  A distance is not negative. */
  function HitFor(dist: Distance, s: Registry, q: Query, a: AgentId, now: nat): (h: Hit)
    requires a in s.registrations
  {
    var d := DistanceOf(dist, q, s.registrations[a]);
    var near := if d.Some? && d.value >= 0.0 then 1.0 / (1.0 + d.value) else 1.0;
    var health := HealthOf(s, a, now);
    Hit(a, health, d, near * HealthScore(health.status))
  }

  predicate Descending(hits: seq<Hit>) {
    forall i, j :: 0 <= i < j < |hits| ==> hits[i].score >= hits[j].score
  }

  /** Puts a hit after those that score at least as high. */
  method Insert(hits: seq<Hit>, h: Hit) returns (r: seq<Hit>)
    requires Descending(hits)
    ensures Descending(r) && multiset(r) == multiset(hits) + multiset{h}
  {
    var i := |hits|;
    while i > 0 && hits[i - 1].score < h.score
      invariant 0 <= i <= |hits|
      invariant forall j :: i <= j < |hits| ==> hits[j].score < h.score
    {
      i := i - 1;
    }
    r := hits[..i] + [h] + hits[i..];
    InsertedAt(hits, h, i);
  }

  lemma InsertedAt(hits: seq<Hit>, h: Hit, i: nat)
    requires i <= |hits|
    ensures multiset(hits[..i] + [h] + hits[i..]) == multiset(hits) + multiset{h}
  {
    assert hits == hits[..i] + hits[i..];
  }

  method SortByScore(hits: seq<Hit>) returns (r: seq<Hit>)
    ensures Descending(r) && multiset(r) == multiset(hits)
  {
    r := [];
    for i := 0 to |hits|
      invariant Descending(r) && multiset(r) == multiset(hits[..i])
    {
      assert hits[..i + 1] == hits[..i] + [hits[i]];
      r := Insert(r, hits[i]);
    }
    assert hits[..|hits|] == hits;
  }

  predicate Distinct(hits: seq<Hit>) {
    forall i, j :: 0 <= i < j < |hits| ==> hits[i].agent != hits[j].agent
  }

  /** The registry as an object. */
  class ServiceRegistry {
    var registrations: map<AgentId, Registration>
    var health: map<AgentId, Health>
    var services: map<string, set<AgentId>>
    var capabilities: map<string, set<AgentId>>
    const maxHealthAge: nat
    const dist: Distance
    ghost var history: seq<Op>

    function View(): (s: Registry)
      reads this
    {
      Registry(registrations, health, services, capabilities)
    }

    ghost predicate Valid()
      reads this
    {
      View() == Run(history)
    }

    constructor (dist: Distance, maxHealthAge: nat)
      ensures Valid() && history == []
    {
      this.dist, this.maxHealthAge := dist, maxHealthAge;
      registrations, health, services, capabilities, history := map[], map[], map[], map[], [];
    }

    method Register(r: Registration, now: nat)
      requires Valid()
      modifies this
      ensures Valid() && history == old(history) + [DoRegister(r, now)]
      ensures Covered(View())
    {
      ghost var op := DoRegister(r, now);
      assert (history + [op])[..|history|] == history;
      registrations := registrations[r.agent := r];
      services := services[r.service := Members(services, r.service) + {r.agent}];
      assert services == Indexed(old(services), {r.service}, r.agent);
      var rest := r.capabilities;
      ghost var done: set<string> := {};
      assert capabilities == Indexed(old(capabilities), {}, r.agent);
      while rest != {}
        invariant rest <= r.capabilities && done == (set c | c in r.capabilities - rest :: c.name)
        invariant capabilities == Indexed(old(capabilities), done, r.agent)
        invariant registrations == old(registrations)[r.agent := r] && health == old(health) && history == old(history)
        invariant services == Indexed(old(services), {r.service}, r.agent)
      {
        var c :| c in rest;
        rest := rest - {c};
        IndexOneMore(old(capabilities), done, c.name, r.agent);
        capabilities := capabilities[c.name := Members(capabilities, c.name) + {r.agent}];
        done := done + {c.name};
        assert r.capabilities - rest == r.capabilities - (rest + {c}) + {c};
      }
      assert r.capabilities - {} == r.capabilities;
      health := health[r.agent := Health(Healthy, now)];
      history := history + [op];
      EveryRunIsCovered(history);
    }

    lemma IndexOneMore(index: map<string, set<AgentId>>, keys: set<string>, key: string, a: AgentId)
      ensures var one := Indexed(index, keys, a);
              one[key := Members(one, key) + {a}] == Indexed(index, keys + {key}, a)
    {
    }

    lemma UnindexOneMore(index: map<string, set<AgentId>>, keys: set<string>, key: string, a: AgentId)
      ensures Unindexed(Unindexed(index, keys, a), {key}, a) == Unindexed(index, keys + {key}, a)
    {
      var once := Unindexed(index, keys, a);
      var twice, both := Unindexed(once, {key}, a), Unindexed(index, keys + {key}, a);
      forall k ensures (k in twice <==> k in both) && (k in both ==> twice[k] == both[k]) {
        if k in once && k in keys {
          assert once[k] - {a} == index[k] - {a};
        }
      }
      assert twice == both;
    }

    /** Takes one agent out of one index entry, and the entry with it when nothing is left. */
    method RemoveFrom(index: map<string, set<AgentId>>, key: string, a: AgentId) returns (r: map<string, set<AgentId>>)
      ensures r == Unindexed(index, {key}, a)
    {
      r := index;
      if key in index {
        r := r[key := index[key] - {a}];
        if r[key] == {} {
          r := r - {key};
        }
      }
    }

    method Deregister(a: AgentId) returns (found: bool)
      requires Valid()
      modifies this
      ensures Valid() && history == old(history) + [DoDeregister(a)]
      ensures found <==> a in old(registrations)
      ensures a !in registrations && a !in health && Covered(View())
    {
      ghost var op := DoDeregister(a);
      assert (history + [op])[..|history|] == history;
      EveryRunIsCovered(history);
      found := a in registrations;
      if found {
        var r := registrations[a];
        registrations := registrations - {a};
        services := RemoveFrom(services, r.service, a);
        UnindexAll(r);
        health := health - {a};
      }
      history := history + [op];
      EveryRunIsCovered(history);
    }

    method UnindexAll(r: Registration)
      modifies this`capabilities
      ensures capabilities == Unindexed(old(capabilities), r.Names(), r.agent)
    {
      var rest := r.capabilities;
      ghost var done: set<string> := {};
      assert capabilities == Unindexed(capabilities, {}, r.agent);
      while rest != {}
        invariant rest <= r.capabilities && done == (set c | c in r.capabilities - rest :: c.name)
        invariant capabilities == Unindexed(old(capabilities), done, r.agent)
      {
        var c :| c in rest;
        rest := rest - {c};
        UnindexOneMore(old(capabilities), done, c.name, r.agent);
        capabilities := RemoveFrom(capabilities, c.name, r.agent);
        done := done + {c.name};
        assert r.capabilities - rest == r.capabilities - (rest + {c}) + {c};
      }
      assert r.capabilities - {} == r.capabilities;
    }

    method UpdateHealth(a: AgentId, h: Health) returns (found: bool)
      requires Valid()
      modifies this
      ensures Valid() && history == old(history) + [DoUpdateHealth(a, h)]
      ensures found <==> a in old(registrations)
    {
      ghost var op := DoUpdateHealth(a, h);
      assert (history + [op])[..|history|] == history;
      EveryRunIsCovered(history);
      found := a in health;
      if found {
        health := health[a := h];
      }
      history := history + [op];
    }

    /** How many of the service's agents are healthy; by a scan, when no live agent was ever
        registered again. */
    method HealthyCount(service: string) returns (n: nat)
      requires Valid()
      ensures n == |set a | a in Members(services, service) && IsHealthy(View(), a)|
      ensures NeverReRegisters(history) ==>
                n == |set a | a in registrations && registrations[a].service == service && IsHealthy(View(), a)|
    {
      var rest := Members(services, service);
      ghost var done: set<AgentId> := {};
      n := 0;
      while rest != {}
        invariant rest <= Members(services, service) && done == Members(services, service) - rest
        invariant n == |set a | a in done && IsHealthy(View(), a)|
      {
        var a :| a in rest;
        rest := rest - {a};
        ghost var counted := set b | b in done && IsHealthy(View(), b);
        done := done + {a};
        if IsHealthy(View(), a) {
          n := n + 1;
          assert (set b | b in done && IsHealthy(View(), b)) == counted + {a};
        } else {
          assert (set b | b in done && IsHealthy(View(), b)) == counted;
        }
      }
      assert done == Members(services, service);
      if NeverReRegisters(history) {
        QueriesEqualScans(history, service);
      }
    }

    /** A match with its own health, distance and score. */
    ghost predicate IsHit(q: Query, now: AgentId -> nat, h: Hit)
      reads this
    {
      && h.agent in registrations && Matches(dist, maxHealthAge, View(), q, h.agent, now(h.agent))
      && h == HitFor(dist, View(), q, h.agent, now(h.agent))
    }

    /** All matches, each when it is looked at, which is at `now(a)`, with its own score, once, the highest first. */
    method Collect(q: Query, now: AgentId -> nat) returns (hits: seq<Hit>)
      ensures Descending(hits) && Distinct(hits)
      ensures forall h :: h in hits ==> IsHit(q, now, h)
      ensures forall a :: a in registrations && Matches(dist, maxHealthAge, View(), q, a, now(a)) ==>
                HitFor(dist, View(), q, a, now(a)) in hits
    {
      hits := [];
      var rest := registrations.Keys;
      while rest != {}
        invariant rest <= registrations.Keys && Distinct(hits)
        invariant forall h :: h in hits ==> IsHit(q, now, h) && h.agent !in rest
        invariant forall a :: a in registrations && a !in rest && Matches(dist, maxHealthAge, View(), q, a, now(a)) ==>
                    HitFor(dist, View(), q, a, now(a)) in hits
      {
        var a :| a in rest;
        rest := rest - {a};
        if Matches(dist, maxHealthAge, View(), q, a, now(a)) {
          hits := hits + [HitFor(dist, View(), q, a, now(a))];
        }
      }
      ghost var before := hits;
      hits := SortByScore(hits);
      SameMultisetSameMembers(before, hits);
      PermutationStaysDistinct(before, hits);
    }

    /** The query result: matches only, best first, and whatever the limit cut off scores no
        higher than anything kept. */
    method Discover(q: Query, now: AgentId -> nat) returns (hits: seq<Hit>)
      ensures Descending(hits) && Distinct(hits)
      ensures forall h :: h in hits ==> IsHit(q, now, h)
      ensures q.maxResults.Some? ==> |hits| <= q.maxResults.value
      ensures forall a :: a in registrations && Matches(dist, maxHealthAge, View(), q, a, now(a)) ==>
                HitFor(dist, View(), q, a, now(a)) in hits ||
                (q.maxResults.Some? && |hits| == q.maxResults.value &&
                 forall h :: h in hits ==> h.score >= HitFor(dist, View(), q, a, now(a)).score)
    {
      hits := Collect(q, now);
      if q.maxResults.Some? && q.maxResults.value < |hits| {
        ghost var all := hits;
        var n := q.maxResults.value;
        hits := hits[..n];
        forall a | a in registrations && Matches(dist, maxHealthAge, View(), q, a, now(a)) &&
                   HitFor(dist, View(), q, a, now(a)) !in hits
          ensures forall h :: h in hits ==> h.score >= HitFor(dist, View(), q, a, now(a)).score
        {
          var x := HitFor(dist, View(), q, a, now(a));
          var j :| 0 <= j < |all| && all[j] == x;
          assert j >= n;
        }
      }
    }
  }

  lemma SameMultisetSameMembers(xs: seq<Hit>, ys: seq<Hit>)
    requires multiset(xs) == multiset(ys)
    ensures forall h :: h in xs <==> h in ys
  {
    forall h ensures h in xs <==> h in ys {
      assert h in xs <==> h in multiset(xs);
      assert h in ys <==> h in multiset(ys);
    }
  }

  lemma PermutationStaysDistinct(xs: seq<Hit>, ys: seq<Hit>)
    requires multiset(xs) == multiset(ys) && Distinct(xs)
    requires forall h, g :: h in xs && g in xs && h.agent == g.agent ==> h == g
    ensures Distinct(ys)
  {
    forall i, j | 0 <= i < j < |ys| ensures ys[i].agent != ys[j].agent {
      SameMultisetSameMembers(xs, ys);
      if ys[i].agent == ys[j].agent {
        var h := ys[i];
        assert ys[i] in xs && ys[j] in xs;
        assert ys == ys[..i] + [h] + ys[i + 1..j] + [ys[j]] + ys[j + 1..];
        assert multiset(ys)[h] >= 2;
        AtMostOnce(xs, h);
      }
    }
  }

  lemma {:induction false} AtMostOnce(xs: seq<Hit>, h: Hit)
    requires Distinct(xs)
    ensures multiset(xs)[h] <= 1
  {
    if xs != [] {
      var rest := xs[..|xs| - 1];
      AtMostOnce(rest, h);
      assert xs == rest + [xs[|xs| - 1]];
      if xs[|xs| - 1] == h {
        assert h !in rest;
      }
    }
  }
}
