/** The load balancer over the service registry, and its fairness over histories of calls in which the
    registry keeps answering with the same agents. */
module LoadBalancer {
  import opened Basics
  import D = Discovery

  type AgentId = nat

  datatype Strategy = RoundRobin | LeastConnections | LocationBased

  // ---------------------------------------------------------------- round robin

  /** The agents picked by `k` consecutive selections from a stored index. */
  function Picks(agents: seq<AgentId>, index: nat, k: nat): (r: seq<AgentId>)
    requires agents != []
    ensures |r| == k
    decreases k
  {
    if k == 0 then [] else [agents[index % |agents|]] + Picks(agents, (index + 1) % |agents|, k - 1)
  }

  lemma RemainderIsUnique(x: nat, q: nat, n: nat, r: nat)
    requires n > 0 && r < n && x == q * n + r
    ensures x % n == r && x / n == q
  {
    if x / n > q {
      Gap(q, x / n, n);
    } else if x / n < q {
      Gap(x / n, q, n);
    }
  }

  lemma Gap(a: nat, b: nat, n: nat)
    requires a < b
    ensures a * n + n <= b * n
  {
    assert b * n == a * n + (b - a) * n;
    assert (b - a) * n == n + (b - a - 1) * n;
  }

  /** The index after `index`, reduced to the list. */
  lemma NextOf(index: nat, n: nat)
    requires n > 0
    ensures (index + 1) % n == if index % n + 1 == n then 0 else index % n + 1
  {
    var q, r := index / n, index % n;
    if r + 1 == n {
      assert index + 1 == (q + 1) * n + 0;
      RemainderIsUnique(index + 1, q + 1, n, 0);
    } else {
      RemainderIsUnique(index + 1, q, n, r + 1);
    }
  }

  /** The j-th of the selections is `j` places further round the list. */
  lemma {:induction false} PickAt(agents: seq<AgentId>, i: nat, k: nat, j: nat)
    requires i < |agents| && j < k <= |agents|
    ensures Picks(agents, i, k)[j] == if i + j < |agents| then agents[i + j] else agents[i + j - |agents|]
    decreases k
  {
    var n := |agents|;
    NextOf(i, n);
    RemainderIsUnique(i, 0, n, i);
    var next := if i + 1 == n then 0 else i + 1;
    assert Picks(agents, i, k) == [agents[i]] + Picks(agents, next, k - 1);
    if j > 0 {
      PickAt(agents, next, k - 1, j - 1);
    }
  }

  lemma FirstPickReduces(agents: seq<AgentId>, index: nat, k: nat)
    requires agents != []
    ensures Picks(agents, index, k) == Picks(agents, index % |agents|, k)
  {
    var n := |agents|;
    if k > 0 {
      RemainderIsUnique(index % n, 0, n, index % n);
      NextOf(index, n);
      NextOf(index % n, n);
    }
  }

  /** Whatever index was left behind, any `n` consecutive selections from `n` agents pick each of
      them exactly once. */
  lemma RoundRobinIsFair(agents: seq<AgentId>, index: nat)
    requires agents != []
    ensures multiset(Picks(agents, index, |agents|)) == multiset(agents)
  {
    var n := |agents|;
    var i := index % n;
    var picks := Picks(agents, i, n);
    FirstPickReduces(agents, index, n);
    forall j | 0 <= j < n ensures picks[j] == (agents[i..] + agents[..i])[j] {
      PickAt(agents, i, n, j);
    }
    assert picks == agents[i..] + agents[..i];
    assert agents == agents[..i] + agents[i..];
  }

  // ---------------------------------------------------------------- least connections

  /** The first position with the fewest connections. */
  function FirstMin(counts: seq<nat>): (i: nat)
    requires counts != []
    ensures i < |counts| && (forall j :: 0 <= j < |counts| ==> counts[i] <= counts[j])
    ensures forall j :: 0 <= j < i ==> counts[j] > counts[i]
  {
    if |counts| == 1 then 0
    else
      var i := FirstMin(counts[..|counts| - 1]);
      if counts[|counts| - 1] < counts[i] then |counts| - 1 else i
  }

  /** One selection. */
  function Picked(c: seq<nat>): (c': seq<nat>)
    requires c != []
    ensures |c'| == |c|
  {
    var i := FirstMin(c);
    c[i := c[i] + 1]
  }

  /** The connection counts of `n` agents after `k` selections from nothing, without releases. */
  function Counts(n: nat, k: nat): (c: seq<nat>)
    requires n > 0
    ensures |c| == n
  {
    if k == 0 then seq(n, _ => 0) else Picked(Counts(n, k - 1))
  }

  function Sum(c: seq<nat>): (s: nat) {
    if c == [] then 0 else Sum(c[..|c| - 1]) + c[|c| - 1]
  }

  lemma {:induction false} SumOfUpdate(c: seq<nat>, i: nat)
    requires i < |c|
    ensures Sum(c[i := c[i] + 1]) == Sum(c) + 1
  {
    var c' := c[i := c[i] + 1];
    if i == |c| - 1 {
      assert c'[..|c| - 1] == c[..|c| - 1];
    } else {
      SumOfUpdate(c[..|c| - 1], i);
      assert c'[..|c| - 1] == c[..|c| - 1][i := c[i] + 1];
    }
  }

  lemma {:induction false} SumOfZeros(n: nat)
    ensures Sum(seq(n, _ => 0)) == 0
  {
    if n > 0 {
      SumOfZeros(n - 1);
      assert seq(n, _ => 0)[..n - 1] == seq(n - 1, _ => 0);
    }
  }

  /** Counts differ by at most one. */
  predicate Level(c: seq<nat>) {
    forall i, j :: 0 <= i < |c| && 0 <= j < |c| ==> c[i] <= c[j] + 1
  }

  /** One more for a least count. */
  lemma RaisingALeastKeepsLevel(c: seq<nat>, i: nat)
    requires Level(c) && i < |c| && forall j :: 0 <= j < |c| ==> c[i] <= c[j]
    ensures var c' := c[i := c[i] + 1]; Level(c') && Sum(c') == Sum(c) + 1
  {
    SumOfUpdate(c, i);
  }

  lemma PickKeepsLevel(c: seq<nat>)
    requires c != [] && Level(c)
    ensures Level(Picked(c)) && Sum(Picked(c)) == Sum(c) + 1
  {
    RaisingALeastKeepsLevel(c, FirstMin(c));
  }

  lemma {:induction false} CountsAreLevel(n: nat, k: nat)
    requires n > 0
    ensures Level(Counts(n, k)) && Sum(Counts(n, k)) == k
  {
    if k == 0 {
      SumOfZeros(n);
      assert Counts(n, 0) == seq(n, _ => 0);
    } else {
      CountsAreLevel(n, k - 1);
      PickKeepsLevel(Counts(n, k - 1));
      assert Counts(n, k) == Picked(Counts(n, k - 1));
    }
  }

  lemma {:induction false} SumBetween(c: seq<nat>, low: nat)
    requires forall i :: 0 <= i < |c| ==> low <= c[i] <= low + 1
    ensures low * |c| <= Sum(c) <= low * |c| + |c|
    ensures (exists i :: 0 <= i < |c| && c[i] == low) ==> Sum(c) < low * |c| + |c|
  {
    if c != [] {
      var rest := c[..|c| - 1];
      SumBetween(rest, low);
      assert low * |c| == low * |rest| + low;
      if exists i :: 0 <= i < |c| && c[i] == low {
        var i :| 0 <= i < |c| && c[i] == low;
        if i < |rest| {
          assert rest[i] == low;
        }
      }
    }
  }

  /** The floor or the ceiling of k / n. */
  predicate FairShare(c: nat, n: nat, k: nat)
    requires n > 0
  {
    k / n <= c <= (k + n - 1) / n
  }

  lemma FloorOrCeiling(c: nat, n: nat, k: nat, low: nat)
    requires n > 0 && low * n <= k < low * n + n && low <= c <= low + 1 && (k == low * n ==> c == low)
    ensures FairShare(c, n, k)
  {
    RemainderIsUnique(k, low, n, k - low * n);
    if k == low * n {
      RemainderIsUnique(k + n - 1, low, n, n - 1);
    } else {
      assert (low + 1) * n == low * n + n;
      RemainderIsUnique(k + n - 1, low + 1, n, k - 1 - low * n);
    }
  }

  /** Counts that differ by at most one are all the floor or the ceiling of their mean. */
  lemma LevelIsFair(c: seq<nat>, i: nat)
    requires Level(c) && i < |c|
    ensures FairShare(c[i], |c|, Sum(c))
  {
    var low := c[FirstMin(c)];
    SumBetween(c, low);
    if c[i] != low {
      AllLowMeansEqual(c, low, i);
    }
    FloorOrCeiling(c[i], |c|, Sum(c), low);
  }

  /** After `k` selections every agent has floor(k / n) or ceil(k / n) connections. */
  lemma LeastConnectionsIsFair(n: nat, k: nat)
    requires n > 0
    ensures Sum(Counts(n, k)) == k
    ensures forall i :: 0 <= i < n ==> FairShare(Counts(n, k)[i], n, k)
  {
    CountsAreLevel(n, k);
    forall i | 0 <= i < n ensures FairShare(Counts(n, k)[i], n, k) {
      LevelIsFair(Counts(n, k), i);
    }
  }

  /** One count above the level makes the sum larger than the level. */
  lemma {:induction false} AllLowMeansEqual(c: seq<nat>, low: nat, i: nat)
    requires i < |c| && c[i] > low && forall j :: 0 <= j < |c| ==> low <= c[j]
    ensures Sum(c) > low * |c|
  {
    var rest := c[..|c| - 1];
    assert low * |c| == low * |rest| + low;
    if i == |c| - 1 {
      AtLeastLevel(rest, low);
    } else {
      AllLowMeansEqual(rest, low, i);
    }
  }

  lemma {:induction false} AtLeastLevel(c: seq<nat>, low: nat)
    requires forall j :: 0 <= j < |c| ==> low <= c[j]
    ensures Sum(c) >= low * |c|
  {
    if c != [] {
      AtLeastLevel(c[..|c| - 1], low);
      assert low * |c| == low * (|c| - 1) + low;
    }
  }

  // ---------------------------------------------------------------- histories of calls

  predicate Distinct(agents: seq<AgentId>) {
    forall i, j :: 0 <= i < j < |agents| ==> agents[i] != agents[j]
  }

  /** A selection with the agents the registry answered, or a released connection. */
  datatype Event = DoSelect(service: string, agents: seq<AgentId>) | DoRelease(agent: AgentId)

  datatype Table = Table(currentIndex: map<string, nat>, connections: map<AgentId, nat>)
  {
    function Index(service: string): (i: nat) { if service in currentIndex then currentIndex[service] else 0 }

    function Connections(a: AgentId): (n: nat) { if a in connections then connections[a] else 0 }

    function CountsOf(agents: seq<AgentId>): (c: seq<nat>)
      ensures |c| == |agents| && forall i :: 0 <= i < |agents| ==> c[i] == Connections(agents[i])
    {
      seq(|agents|, i requires 0 <= i < |agents| => Connections(agents[i]))
    }
  }

  const EMPTY: Table := Table(map[], map[])

  /** The agent a selection picks; none is the error. */
  function Pick(strategy: Strategy, t: Table, service: string, agents: seq<AgentId>): (r: Option<AgentId>) {
    if agents == [] then None
    else
      match strategy
      case RoundRobin => Some(agents[t.Index(service) % |agents|])
      case LeastConnections => Some(agents[FirstMin(t.CountsOf(agents))])
      case LocationBased => Some(agents[0])
  }

  function After(strategy: Strategy, t: Table, e: Event): (t': Table) {
    match e
    case DoSelect(service, agents) =>
      if agents == [] then t
      else if strategy.RoundRobin? then
        t.(currentIndex := t.currentIndex[service := (t.Index(service) + 1) % |agents|])
      else if strategy.LeastConnections? then
        var a := Pick(strategy, t, service, agents).value;
        t.(connections := t.connections[a := t.Connections(a) + 1])
      else t
    case DoRelease(a) =>
      if a in t.connections then t.(connections := t.connections[a := if t.connections[a] > 0 then t.connections[a] - 1 else 0])
      else t
  }

  function Replay(strategy: Strategy, t: Table, events: seq<Event>): (t': Table)
    decreases |events|
  {
    if events == [] then t else Replay(strategy, After(strategy, t, events[0]), events[1..])
  }

  lemma {:induction false} ReplayOneMore(strategy: Strategy, t: Table, events: seq<Event>, e: Event)
    ensures Replay(strategy, t, events + [e]) == After(strategy, Replay(strategy, t, events), e)
    decreases |events|
  {
    if events == [] {
      assert (events + [e])[1..] == [];
    } else {
      ReplayOneMore(strategy, After(strategy, t, events[0]), events[1..], e);
      assert (events + [e])[1..] == events[1..] + [e];
    }
  }

  predicate Selects(e: Event, service: string) { e.DoSelect? && e.service == service }

  /** What the selections for one service pick, in order. */
  function Chosen(strategy: Strategy, t: Table, events: seq<Event>, service: string): (picks: seq<AgentId>)
    decreases |events|
  {
    if events == [] then []
    else
      var e := events[0];
      var rest := Chosen(strategy, After(strategy, t, e), events[1..], service);
      if Selects(e, service) && e.agents != [] then [Pick(strategy, t, service, e.agents).value] + rest else rest
  }

  function HowMany(events: seq<Event>, service: string): (n: nat) {
    if events == [] then 0 else (if Selects(events[0], service) then 1 else 0) + HowMany(events[1..], service)
  }

  /** Each selection for the service was answered with the same agents. */
  predicate Steady(events: seq<Event>, service: string, agents: seq<AgentId>) {
    forall i :: 0 <= i < |events| && Selects(events[i], service) ==> events[i].agents == agents
  }

  /** The selections for one service go round its list, whatever is selected for other services or
      released in between. */
  lemma {:induction false} RoundRobinPicks(t: Table, events: seq<Event>, service: string, agents: seq<AgentId>)
    requires agents != [] && Steady(events, service, agents)
    ensures Chosen(RoundRobin, t, events, service) == Picks(agents, t.Index(service), HowMany(events, service))
    decreases |events|
  {
    if events != [] {
      var e, rest := events[0], events[1..];
      assert forall i :: 0 <= i < |rest| ==> rest[i] == events[i + 1];
      assert Selects(e, service) ==> e.agents == agents;
      RoundRobinPicks(After(RoundRobin, t, e), rest, service, agents);
    }
  }

  /** In every history of a round-robin balancer, `n` selections for a service that are all answered with
      the same `n` agents pick each of them exactly once. */
  lemma RoundRobinHistoriesAreFair(before: seq<Event>, events: seq<Event>, service: string, agents: seq<AgentId>)
    requires agents != [] && Steady(events, service, agents) && HowMany(events, service) == |agents|
    ensures multiset(Chosen(RoundRobin, Replay(RoundRobin, EMPTY, before), events, service)) == multiset(agents)
  {
    var t := Replay(RoundRobin, EMPTY, before);
    RoundRobinPicks(t, events, service, agents);
    RoundRobinIsFair(agents, t.Index(service));
  }

  // ---------------------------------------------------------------- fairness of least connections

  /** A selection answered with exactly these agents, in whatever order. */
  predicate Answered(e: Event, agents: seq<AgentId>) {
    e.DoSelect? && multiset(e.agents) == multiset(agents)
  }

  /** A selection among other agents, or the release of one. */
  predicate Apart(e: Event, agents: seq<AgentId>) {
    match e
    case DoSelect(_, others) => forall a :: a in others ==> a !in agents
    case DoRelease(a) => a !in agents
  }

  /** Nothing but selections among exactly these agents and events that leave them alone. */
  predicate Undisturbed(events: seq<Event>, agents: seq<AgentId>) {
    forall i :: 0 <= i < |events| ==> Answered(events[i], agents) || Apart(events[i], agents)
  }

  function HowManyAnswered(events: seq<Event>, agents: seq<AgentId>): (n: nat) {
    if events == [] then 0
    else (if Answered(events[0], agents) then 1 else 0) + HowManyAnswered(events[1..], agents)
  }

  lemma ApartKeepsCounts(t: Table, e: Event, agents: seq<AgentId>)
    requires Apart(e, agents)
    ensures After(LeastConnections, t, e).CountsOf(agents) == t.CountsOf(agents)
  {
    var t' := After(LeastConnections, t, e);
    forall i | 0 <= i < |agents| ensures t'.Connections(agents[i]) == t.Connections(agents[i]) {
      assert agents[i] in agents;
    }
  }

  /** A selection raises the count of one agent that has the fewest connections. */
  lemma SelectionRaisesALeast(t: Table, e: Event, agents: seq<AgentId>) returns (i: nat)
    requires agents != [] && Distinct(agents) && Answered(e, agents)
    ensures i < |agents| && forall j :: 0 <= j < |agents| ==> t.CountsOf(agents)[i] <= t.CountsOf(agents)[j]
    ensures var c := t.CountsOf(agents); After(LeastConnections, t, e).CountsOf(agents) == c[i := c[i] + 1]
    ensures e.agents == agents ==> i == FirstMin(t.CountsOf(agents))
  {
    SameMembers(e.agents, agents);
    var picked := e.agents[FirstMin(t.CountsOf(e.agents))];
    i :| 0 <= i < |agents| && agents[i] == picked;
    forall j | 0 <= j < |agents| ensures t.Connections(picked) <= t.Connections(agents[j]) {
      PickHasTheFewest(t, e.agents, agents[j]);
    }
    RaisedCounts(t, After(LeastConnections, t, e), agents, i);
  }

  lemma RaisedCounts(t: Table, t': Table, agents: seq<AgentId>, i: nat)
    requires Distinct(agents) && i < |agents|
    requires t'.connections == t.connections[agents[i] := t.Connections(agents[i]) + 1]
    ensures var c := t.CountsOf(agents); t'.CountsOf(agents) == c[i := c[i] + 1]
  {
    forall j | 0 <= j < |agents| ensures t'.Connections(agents[j]) == t.Connections(agents[j]) + if j == i then 1 else 0 {
      assert j != i ==> agents[j] != agents[i];
    }
  }

  lemma PickHasTheFewest(t: Table, agents: seq<AgentId>, a: AgentId)
    requires a in agents
    ensures t.Connections(agents[FirstMin(t.CountsOf(agents))]) <= t.Connections(a)
  {
    var m :| 0 <= m < |agents| && agents[m] == a;
    var c := t.CountsOf(agents);
    assert c[FirstMin(c)] <= c[m];
  }

  lemma SameMembers(xs: seq<AgentId>, ys: seq<AgentId>)
    requires multiset(xs) == multiset(ys)
    ensures |xs| == |ys|
    ensures forall i :: 0 <= i < |xs| ==> xs[i] in ys
    ensures forall i :: 0 <= i < |ys| ==> ys[i] in xs
  {
    assert |multiset(xs)| == |multiset(ys)|;
    forall i | 0 <= i < |xs| ensures xs[i] in ys {
      assert xs[i] in multiset(xs);
    }
    forall i | 0 <= i < |ys| ensures ys[i] in xs {
      assert ys[i] in multiset(ys);
    }
  }

  lemma {:induction false} UndisturbedStaysLevel(t: Table, events: seq<Event>, agents: seq<AgentId>)
    requires agents != [] && Distinct(agents) && Undisturbed(events, agents) && Level(t.CountsOf(agents))
    ensures var c := Replay(LeastConnections, t, events).CountsOf(agents);
            Level(c) && Sum(c) == Sum(t.CountsOf(agents)) + HowManyAnswered(events, agents)
    decreases |events|
  {
    if events != [] {
      var e, rest := events[0], events[1..];
      if Answered(e, agents) {
        var i := SelectionRaisesALeast(t, e, agents);
        RaisingALeastKeepsLevel(t.CountsOf(agents), i);
      } else {
        ApartKeepsCounts(t, e, agents);
      }
      assert forall i :: 0 <= i < |rest| ==> rest[i] == events[i + 1];
      UndisturbedStaysLevel(After(LeastConnections, t, e), rest, agents);
    }
  }

  /** From any table in which the counts of `n` agents differ by at most one, such as one in which they are
      all zero: after any history in which the balancer selects among exactly these agents, listed in any
      order, among others, and releases only others, each of the `n` has the floor or the ceiling of an
      equal share of all their connections. */
  lemma LeastConnectionsHistoriesAreFair(t: Table, events: seq<Event>, agents: seq<AgentId>, i: nat)
    requires Distinct(agents) && i < |agents| && Undisturbed(events, agents) && Level(t.CountsOf(agents))
    ensures FairShare(Replay(LeastConnections, t, events).Connections(agents[i]), |agents|,
                      Sum(t.CountsOf(agents)) + HowManyAnswered(events, agents))
  {
    var t' := Replay(LeastConnections, t, events);
    UndisturbedStaysLevel(t, events, agents);
    assert t'.Connections(agents[i]) == t'.CountsOf(agents)[i];
    LevelIsFair(t'.CountsOf(agents), i);
  }

  /** Undisturbed, and the list comes in the same order whenever it is the answer. */
  predicate UndisturbedInOrder(events: seq<Event>, agents: seq<AgentId>) {
    forall i :: 0 <= i < |events| ==>
      (events[i].DoSelect? && events[i].agents == agents) || Apart(events[i], agents)
  }

  lemma SelectionCounts(t: Table, e: Event, agents: seq<AgentId>)
    requires agents != [] && Distinct(agents) && e.DoSelect? && e.agents == agents
    ensures After(LeastConnections, t, e).CountsOf(agents) == Picked(t.CountsOf(agents))
  {
    var i := SelectionRaisesALeast(t, e, agents);
  }

  /** The counts are those of `k` selections from zero. */
  predicate HasCounts(t: Table, agents: seq<AgentId>, k: nat)
    requires agents != []
  {
    t.CountsOf(agents) == Counts(|agents|, k)
  }

  lemma EventCounts(t: Table, e: Event, agents: seq<AgentId>, k: nat, next: nat)
    requires agents != [] && Distinct(agents) && HasCounts(t, agents, k)
    requires (e.DoSelect? && e.agents == agents) || Apart(e, agents)
    requires next == k + if Answered(e, agents) then 1 else 0
    ensures HasCounts(After(LeastConnections, t, e), agents, next)
  {
    if e.DoSelect? && e.agents == agents {
      SelectionCounts(t, e, agents);
    } else {
      ApartKeepsCounts(t, e, agents);
      AnsweredIsNotApart(e, agents);
    }
  }

  lemma AnsweredIsNotApart(e: Event, agents: seq<AgentId>)
    requires agents != []
    ensures Answered(e, agents) ==> !Apart(e, agents)
  {
    if Answered(e, agents) {
      SameMembers(e.agents, agents);
      assert e.agents[0] in e.agents && e.agents[0] in agents;
    }
  }

  /** Which agent has which count, when the list always comes in the same order and the counts start from
      zero or where such a history left them. */
  lemma {:induction false} LeastConnectionsCounts(t: Table, events: seq<Event>, agents: seq<AgentId>, k: nat, k': nat)
    requires agents != [] && Distinct(agents) && UndisturbedInOrder(events, agents)
    requires HasCounts(t, agents, k) && k' == k + HowManyAnswered(events, agents)
    ensures HasCounts(Replay(LeastConnections, t, events), agents, k')
    decreases |events|
  {
    if events != [] {
      var e, rest := events[0], events[1..];
      var next := k + if Answered(e, agents) then 1 else 0;
      EventCounts(t, e, agents, k, next);
      assert forall i :: 0 <= i < |rest| ==> rest[i] == events[i + 1];
      LeastConnectionsCounts(After(LeastConnections, t, e), rest, agents, next, k');
    }
  }

  // ---------------------------------------------------------------- the object

  /** The healthy agents of a service; a location adds a distance to the score and excludes nobody. */
  function QueryFor(service: string, location: Option<Location>): (q: D.Query) {
    D.Query(Some(service), [], None, location, None, Some(D.Healthy), None)
  }

  class Balancer {
    const strategy: Strategy
    const registry: D.ServiceRegistry
    var currentIndex: map<string, nat>
    var connections: map<AgentId, nat>
    /** Every selection and release since the balancer was created. */
    ghost var events: seq<Event>

    function View(): (t: Table)
      reads this
    {
      Table(currentIndex, connections)
    }

    ghost predicate Valid()
      reads this
    {
      View() == Replay(strategy, EMPTY, events)
    }

    constructor (registry: D.ServiceRegistry, strategy: Strategy)
      ensures Valid() && events == [] && this.strategy == strategy && this.registry == registry
    {
      this.registry, this.strategy, currentIndex, connections, events := registry, strategy, map[], map[], [];
    }

    /** The agent matches the query when it is looked at, which is at `now(a)`. */
    ghost predicate Offers(a: AgentId, service: string, location: Option<Location>, now: AgentId -> nat)
      reads registry
    {
      a in registry.registrations &&
      D.Matches(registry.dist, registry.maxHealthAge, registry.View(), QueryFor(service, location), a, now(a))
    }

    /** An error exactly when no agent matches; otherwise the pick of the strategy among exactly those
        that do, each listed once. */
    method Select(service: string, location: Option<Location>, now: AgentId -> nat)
      returns (r: Option<AgentId>, agents: seq<AgentId>)
      requires Valid()
      modifies this
      ensures Valid() && events == old(events) + [DoSelect(service, agents)]
      ensures Distinct(agents) && forall a :: a in agents <==> Offers(a, service, location, now)
      ensures r == Pick(strategy, old(View()), service, agents)
      ensures r.None? <==> forall a :: !Offers(a, service, location, now)
    {
      agents := Candidates(service, location, now);
      ReplayOneMore(strategy, EMPTY, events, DoSelect(service, agents));
      assert agents != [] ==> agents[0] in agents;
      r := Choose(service, agents);
      events := events + [DoSelect(service, agents)];
    }

    method Candidates(service: string, location: Option<Location>, now: AgentId -> nat) returns (agents: seq<AgentId>)
      ensures Distinct(agents) && forall a :: a in agents <==> Offers(a, service, location, now)
    {
      var hits := registry.Discover(QueryFor(service, location), now);
      agents := [];
      for i := 0 to |hits|
        invariant |agents| == i && forall j :: 0 <= j < i ==> agents[j] == hits[j].agent
      {
        agents := agents + [hits[i].agent];
      }
      forall a ensures a in agents <==> Offers(a, service, location, now) {
        if Offers(a, service, location, now) {
          var h := D.HitFor(registry.dist, registry.View(), QueryFor(service, location), a, now(a));
          var i :| 0 <= i < |hits| && hits[i] == h;
          assert agents[i] == a;
        }
        if a in agents {
          var i :| 0 <= i < |agents| && agents[i] == a;
          assert hits[i] in hits;
        }
      }
    }

    method Choose(service: string, agents: seq<AgentId>) returns (r: Option<AgentId>)
      modifies this`currentIndex, this`connections
      ensures r == Pick(strategy, old(View()), service, agents)
      ensures View() == After(strategy, old(View()), DoSelect(service, agents))
    {
      if agents == [] {
        return None;
      }
      match strategy
      case RoundRobin =>
        var index := View().Index(service);
        r := Some(agents[index % |agents|]);
        currentIndex := currentIndex[service := (index + 1) % |agents|];
      case LeastConnections =>
        var i := Least(agents);
        r := Some(agents[i]);
        connections := connections[agents[i] := View().Connections(agents[i]) + 1];
      case LocationBased =>
        r := Some(agents[0]);
    }

    method Least(agents: seq<AgentId>) returns (best: nat)
      requires agents != []
      ensures best < |agents| && best == FirstMin(View().CountsOf(agents))
    {
      best := 0;
      for i := 1 to |agents|
        invariant best < i && (forall j :: 0 <= j < i ==> View().Connections(agents[best]) <= View().Connections(agents[j]))
        invariant forall j :: 0 <= j < best ==> View().Connections(agents[j]) > View().Connections(agents[best])
      {
        if View().Connections(agents[i]) < View().Connections(agents[best]) {
          best := i;
        }
      }
      var c := View().CountsOf(agents);
      assert c[best] == View().Connections(agents[best]);
      var m := FirstMin(c);
      assert c[m] == View().Connections(agents[m]);
      assert forall j :: 0 <= j < |agents| ==> c[j] == View().Connections(agents[j]);
    }

    /** The count saturates at zero and an unknown agent is ignored. */
    method Release(a: AgentId)
      requires Valid()
      modifies this
      ensures Valid() && events == old(events) + [DoRelease(a)] && currentIndex == old(currentIndex)
      ensures forall b :: View().Connections(b) == if b == a && old(View()).Connections(b) > 0
                                                   then old(View()).Connections(b) - 1 else old(View()).Connections(b)
    {
      ReplayOneMore(strategy, EMPTY, events, DoRelease(a));
      if a in connections {
        connections := connections[a := if connections[a] > 0 then connections[a] - 1 else 0];
      }
      events := events + [DoRelease(a)];
    }
  }
}
