/** The scheduler at the granularity of its locks.  Selecting a node, allocating on it and
    recording the placement are three separate critical sections, and so are the two halves of
    `deschedule`; an orchestrator call keeps the deployments lock across all of them, a direct
    call does not.  Nodes are neither registered nor removed during a run. */
module SchedulerThreads {
  import opened Basics
  import opened Cluster

  type Tid = nat

  /** Where a thread stands between two critical sections.  A call for a deployment carries its name. */
  datatype Pc =
    | Idle
    | Holding
    | Selected(agent: AgentId, on: NodeId, r: Resources, deployment: Option<string>)
    | Allocated(agent: AgentId, on: NodeId, r: Resources, deployment: Option<string>)
    | Removed(agent: AgentId, on: NodeId, r: Resources)

  /** The scheduler, the deployments' specifications, and which deployment has which agent. */
  datatype System = System(
    books: Books,
    specs: map<string, Spec>,
    owner: map<AgentId, string>,
    deploymentsLock: Option<Tid>,
    pcs: map<Tid, Pc>)
  {
    function At(t: Tid): (pc: Pc) { if t in pcs then pcs[t] else Idle }

    function Moved(t: Tid, pc: Pc): (s: System)
      ensures s == this.(pcs := s.pcs)
      ensures s.At(t) == pc && forall u :: u != t ==> s.At(u) == At(u)
    {
      this.(pcs := pcs[t := pc])
    }
  }

  /** `Remove` is for an agent of a deployment and gives back what its specification says; the direct calls
      name a specification of their own. */
  datatype Action =
    | Lock(t: Tid)
    | Unlock(t: Tid)
    | Create(t: Tid, spec: Spec)
    | Delete(t: Tid, name: string)
    | Select(t: Tid, name: string, agent: AgentId, on: NodeId)
    | SelectDirect(t: Tid, spec: Spec, agent: AgentId, on: NodeId)
    | Allocate(t: Tid)
    | Record(t: Tid)
    | Remove(t: Tid, agent: AgentId)
    | RemoveDirect(t: Tid, agent: AgentId, spec: Spec)
    | Deallocate(t: Tid)

  /** An agent id no placement and no thread uses: ids are drawn fresh. */
  ghost predicate Unused(s: System, agent: AgentId) {
    && agent !in s.books.placements && agent !in s.books.reserved && agent !in s.owner
    && forall t: Tid :: s.At(t).Selected? || s.At(t).Allocated? || s.At(t).Removed? ==> s.At(t).agent != agent
  }

  /** When a thread may enter its next critical section.  With `direct` a thread may call `schedule` and
      `deschedule` without the deployments lock. */
  ghost predicate Enabled(dist: Distance, direct: bool, s: System, a: Action) {
    match a
    case Lock(t) => s.At(t).Idle? && s.deploymentsLock.None?
    case Unlock(t) => s.At(t).Holding? && s.deploymentsLock == Some(t)
    case Create(t, spec) => s.At(t).Holding?
    case Delete(t, name) => s.At(t).Holding? && name !in s.owner.Values
    case Select(t, name, agent, on) =>
      && s.At(t).Holding? && name in s.specs
      && Unused(s, agent) && Best(dist, s.books.nodes, s.books.placements, s.specs[name], on)
    case SelectDirect(t, spec, agent, on) =>
      direct && s.At(t).Idle? && Unused(s, agent) && Best(dist, s.books.nodes, s.books.placements, spec, on)
    case Allocate(t) => s.At(t).Selected?
    case Record(t) => s.At(t).Allocated?
    case Remove(t, agent) =>
      s.At(t).Holding? && agent in s.owner && s.owner[agent] in s.specs && agent in s.books.placements
    case RemoveDirect(t, agent, spec) => direct && s.At(t).Idle? && agent in s.books.placements
    case Deallocate(t) => s.At(t).Removed?
  }

  /** Where a thread goes after its call: back to the caller that holds the lock, if one does. */
  function Done(s: System, t: Tid): (pc: Pc) {
    if s.deploymentsLock == Some(t) then Holding else Idle
  }

  function Allocating(nodes: map<NodeId, Node>, on: NodeId, r: Resources): (nodes': map<NodeId, Node>) {
    if on in nodes then nodes[on := nodes[on].Allocate(r)] else nodes
  }

  /** The first half of `deschedule`: the placement goes. */
  function Unplacing(s: System, t: Tid, agent: AgentId, r: Resources): (s': System)
    requires agent in s.books.placements
  {
    var b := s.books;
    s.Moved(t, Removed(agent, b.placements[agent], r))
     .(books := b.(placements := b.placements - {agent}, reserved := b.reserved - {agent}))
  }

  /** Creating a deployment again forgets the agents of the one it replaces. */
  ghost function Apply(dist: Distance, direct: bool, s: System, a: Action): (s': System)
    requires Enabled(dist, direct, s, a)
  {
    match a
    case Lock(t) => s.Moved(t, Holding).(deploymentsLock := Some(t))
    case Unlock(t) => s.Moved(t, Idle).(deploymentsLock := None)
    case Create(t, spec) =>
      s.(specs := s.specs[spec.name := spec], owner := map x | x in s.owner && s.owner[x] != spec.name :: s.owner[x])
    case Delete(t, name) => s.(specs := s.specs - {name})
    case Select(t, name, agent, on) => s.Moved(t, Selected(agent, on, s.specs[name].resources, Some(name)))
    case SelectDirect(t, spec, agent, on) => s.Moved(t, Selected(agent, on, spec.resources, None))
    case Allocate(t) =>
      var pc := s.At(t);
      s.Moved(t, Allocated(pc.agent, pc.on, pc.r, pc.deployment))
       .(books := s.books.(nodes := Allocating(s.books.nodes, pc.on, pc.r)))
    case Record(t) =>
      var pc := s.At(t);
      var b := s.books;
      s.Moved(t, Done(s, t))
       .(books := b.(placements := b.placements[pc.agent := pc.on], reserved := b.reserved[pc.agent := pc.r]),
         owner := if pc.deployment.Some? then s.owner[pc.agent := pc.deployment.value] else s.owner)
    case Remove(t, agent) =>
      Unplacing(s, t, agent, s.specs[s.owner[agent]].resources).(owner := s.owner - {agent})
    case RemoveDirect(t, agent, spec) => Unplacing(s, t, agent, spec.resources)
    case Deallocate(t) =>
      var pc := s.At(t);
      s.Moved(t, Done(s, t)).(books := s.books.(nodes := Credited(s.books.nodes, pc.on, pc.r)))
  }

  ghost predicate LegalRun(dist: Distance, direct: bool, s: System, actions: seq<Action>)
    decreases |actions|, 0
  {
    actions == [] ||
    (var k := |actions| - 1;
     LegalRun(dist, direct, s, actions[..k]) && Enabled(dist, direct, Run(dist, direct, s, actions[..k]), actions[k]))
  }

  ghost function Run(dist: Distance, direct: bool, s: System, actions: seq<Action>): (s': System)
    requires LegalRun(dist, direct, s, actions)
    decreases |actions|, 1
  {
    if actions == [] then s
    else Apply(dist, direct, Run(dist, direct, s, actions[..|actions| - 1]), actions[|actions| - 1])
  }

  // ---------------------------------------------------------------- the invariant

  /** The books as they will read once the lock holder's half-done call is through: an agent
      allocated but not yet recorded, or removed but not yet given back, counts as placed. */
  function Settled(s: System): (b: Books) {
    if s.deploymentsLock.None? then s.books
    else
      var pc := s.At(s.deploymentsLock.value);
      if pc.Allocated? || pc.Removed? then
        s.books.(placements := s.books.placements[pc.agent := pc.on],
                 reserved := s.books.reserved[pc.agent := pc.r])
      else s.books
  }

  /** Every agent of a deployment was given what the specification of that deployment says. */
  ghost predicate Owned(s: System) {
    forall a :: a in s.owner ==>
      && s.owner[a] in s.specs && a in s.books.placements
      && a in s.books.reserved && s.books.reserved[a] == s.specs[s.owner[a]].resources
  }

  /** What a call in progress carries fits the state. */
  ghost predicate Sound(s: System, pc: Pc) {
    match pc
    case Selected(agent, on, r, d) =>
      && on in s.books.nodes && s.books.nodes[on].CanFit(r) && agent !in s.books.placements
      && d.Some? && d.value in s.specs && s.specs[d.value].resources == r
    case Allocated(agent, on, r, d) =>
      && agent !in s.books.placements && agent !in s.books.reserved
      && d.Some? && d.value in s.specs && s.specs[d.value].resources == r
    case Removed(agent, on, r) =>
      agent !in s.books.placements && agent !in s.books.reserved && agent !in s.owner
    case _ => true
  }

  ghost predicate Inv(s: System) {
    && (forall t: Tid :: !s.At(t).Idle? ==> s.deploymentsLock == Some(t))
    && Accounting(Settled(s)) && Owned(s)
    && (forall t: Tid :: Sound(s, s.At(t)))
  }

  /** One thread at a time is inside a call, so the others have nothing to be sound about. */
  lemma OnlyHolder(s: System, s': System, t: Tid)
    requires forall u: Tid :: !s.At(u).Idle? ==> s.deploymentsLock == Some(u)
    requires !s.At(t).Idle? || s.deploymentsLock.None?
    requires forall u: Tid :: u != t ==> s'.At(u) == s.At(u)
    requires Sound(s', s'.At(t))
    ensures forall u: Tid :: Sound(s', s'.At(u))
  {
    forall u: Tid ensures Sound(s', s'.At(u)) {
      if u != t {
        assert s.At(u).Idle?;
      }
    }
  }

  lemma AllocateKeepsAccounting(dist: Distance, s: System, t: Tid)
    requires Inv(s) && s.At(t).Selected?
    ensures Accounting(Settled(Apply(dist, false, s, Allocate(t))))
  {
    var pc := s.At(t);
    PlacingKeepsAccounting(s.books, pc.agent, pc.on, pc.r);
    assert Settled(Apply(dist, false, s, Allocate(t))) == Placing(s.books, pc.agent, pc.on, pc.r);
  }

  lemma RemoveKeepsAccounting(dist: Distance, s: System, t: Tid, agent: AgentId)
    requires Inv(s) && Enabled(dist, false, s, Remove(t, agent))
    ensures Accounting(Settled(Apply(dist, false, s, Remove(t, agent))))
  {
    var b := s.books;
    assert (b.placements - {agent})[agent := b.placements[agent]] == b.placements;
    assert (b.reserved - {agent})[agent := b.reserved[agent]] == b.reserved;
    assert Settled(Apply(dist, false, s, Remove(t, agent))) == b;
  }

  lemma DeallocateKeepsAccounting(dist: Distance, s: System, t: Tid)
    requires Inv(s) && s.At(t).Removed?
    ensures Accounting(Settled(Apply(dist, false, s, Deallocate(t))))
  {
    var pc, b := s.At(t), Settled(s);
    RemovingKeepsAccounting(b, pc.agent, pc.r);
    assert s.books.placements[pc.agent := pc.on] - {pc.agent} == s.books.placements;
    assert s.books.reserved[pc.agent := pc.r] - {pc.agent} == s.books.reserved;
    assert Settled(Apply(dist, false, s, Deallocate(t))) == Removing(b, pc.agent, pc.r);
  }

  lemma StepKeepsAccounting(dist: Distance, s: System, a: Action)
    requires Inv(s) && Enabled(dist, false, s, a)
    ensures Accounting(Settled(Apply(dist, false, s, a)))
  {
    if a.Allocate? {
      AllocateKeepsAccounting(dist, s, a.t);
    } else if a.Remove? {
      RemoveKeepsAccounting(dist, s, a.t, a.agent);
    } else if a.Deallocate? {
      DeallocateKeepsAccounting(dist, s, a.t);
    } else {
      assert Settled(Apply(dist, false, s, a)) == Settled(s);
    }
  }

  lemma StepKeepsOwned(dist: Distance, s: System, a: Action)
    requires Inv(s) && Enabled(dist, false, s, a)
    ensures Owned(Apply(dist, false, s, a))
  {
    var s' := Apply(dist, false, s, a);
    forall x | x in s'.owner
      ensures s'.owner[x] in s'.specs && x in s'.books.placements && x in s'.books.reserved &&
              s'.books.reserved[x] == s'.specs[s'.owner[x]].resources
    {
      if a.Delete? {
        assert s.owner[x] in s.owner.Values;
      }
    }
  }

  lemma StepKeepsSound(dist: Distance, s: System, a: Action)
    requires Inv(s) && Enabled(dist, false, s, a)
    ensures var s' := Apply(dist, false, s, a); Sound(s', s'.At(a.t))
  {
    assert Sound(s, s.At(a.t));
  }

  lemma StepKeepsInv(dist: Distance, s: System, a: Action)
    requires Inv(s) && Enabled(dist, false, s, a)
    ensures Inv(Apply(dist, false, s, a))
  {
    var s' := Apply(dist, false, s, a);
    StepKeepsAccounting(dist, s, a);
    StepKeepsOwned(dist, s, a);
    StepKeepsSound(dist, s, a);
    OnlyHolder(s, s', a.t);
  }

  // ---------------------------------------------------------------- main results

  /** Under every interleaving of any number of threads that use the orchestrator: whoever has
      selected a node still finds it large enough when it allocates, memory and disk never
      underflow, and whenever nobody is inside a call the full accounting holds. */
  lemma {:induction false} LockedCallsAlwaysFit(dist: Distance, s: System, actions: seq<Action>)
    requires Inv(s) && LegalRun(dist, false, s, actions)
    ensures var s' := Run(dist, false, s, actions);
            && Inv(s')
            && (forall t: Tid :: s'.At(t).Selected? ==>
                  s'.At(t).on in s'.books.nodes && s'.books.nodes[s'.At(t).on].CanFit(s'.At(t).r))
            && (forall n :: n in s'.books.nodes ==>
                  s'.books.nodes[n].free.memory >= 0 && s'.books.nodes[n].free.disk >= 0)
            && (s'.deploymentsLock.None? ==> Accounting(s'.books))
  {
    if actions != [] {
      var k := |actions| - 1;
      LockedCallsAlwaysFit(dist, s, actions[..k]);
      StepKeepsInv(dist, Run(dist, false, s, actions[..k]), actions[k]);
    }
    var s' := Run(dist, false, s, actions);
    assert forall n :: n in s'.books.nodes ==> Kept(Settled(s'), n);
  }

  /** What a step takes from a node; giving back counts negatively. */
  function TakenBy(s: System, a: Action, on: NodeId): (r: Amount) {
    if a.Allocate? && s.At(a.t).Selected? && s.At(a.t).on == on then s.At(a.t).r
    else if a.Deallocate? && s.At(a.t).Removed? && s.At(a.t).on == on then ZERO.Minus(s.At(a.t).r)
    else ZERO
  }

  ghost function TakenSince(dist: Distance, s: System, actions: seq<Action>, on: NodeId): (r: Amount)
    requires LegalRun(dist, true, s, actions)
  {
    if actions == [] then ZERO
    else
      var k := |actions| - 1;
      TakenSince(dist, s, actions[..k], on).Plus(TakenBy(Run(dist, true, s, actions[..k]), actions[k], on))
  }

  lemma StepTakes(dist: Distance, s: System, a: Action, on: NodeId)
    requires Enabled(dist, true, s, a) && on in s.books.nodes
    ensures var s' := Apply(dist, true, s, a);
            on in s'.books.nodes && s'.books.nodes[on].free == s.books.nodes[on].free.Minus(TakenBy(s, a, on))
  {
  }

  lemma {:induction false} FreeMovesByWhatIsTaken(dist: Distance, s: System, actions: seq<Action>, on: NodeId)
    requires LegalRun(dist, true, s, actions) && on in s.books.nodes
    ensures var s' := Run(dist, true, s, actions);
            && on in s'.books.nodes
            && s'.books.nodes[on].free == s.books.nodes[on].free.Minus(TakenSince(dist, s, actions, on))
  {
    if actions != [] {
      var k := |actions| - 1;
      FreeMovesByWhatIsTaken(dist, s, actions[..k], on);
      StepTakes(dist, Run(dist, true, s, actions[..k]), actions[k], on);
    }
  }

  /** The step allocates on the node, or gives back a negative amount of cpu, which the source allows. */
  predicate Burdens(s: System, a: Action, on: NodeId) {
    (a.Allocate? && s.At(a.t).Selected? && s.At(a.t).on == on) || TakenBy(s, a, on).cpu > 0.0
  }

  ghost predicate Unburdened(dist: Distance, s: System, actions: seq<Action>, on: NodeId)
    requires LegalRun(dist, true, s, actions)
  {
    actions == [] ||
    (var k := |actions| - 1;
     Unburdened(dist, s, actions[..k], on) && !Burdens(Run(dist, true, s, actions[..k]), actions[k], on))
  }

  lemma {:induction false} UnburdenedTakesNothing(dist: Distance, s: System, actions: seq<Action>, on: NodeId)
    requires LegalRun(dist, true, s, actions) && Unburdened(dist, s, actions, on)
    ensures ZERO.Covers(TakenSince(dist, s, actions, on))
  {
    if actions != [] {
      UnburdenedTakesNothing(dist, s, actions[..|actions| - 1], on);
    }
  }

  /** Whoever calls `schedule`, with the deployments lock or without, and whatever runs since the selection:
      the node still fits if and only if what it had free then covers the request and what was taken since;
      and it does whenever no other thread allocated on it in between and no negative cpu was given back. */
  lemma SelectedFitsExactlyWhen(dist: Distance, s0: System, select: Action, since: seq<Action>)
    requires (select.Select? || select.SelectDirect?) && Enabled(dist, true, s0, select)
    requires LegalRun(dist, true, Apply(dist, true, s0, select), since)
    ensures var s, on := Apply(dist, true, s0, select), select.on;
            var s', r := Run(dist, true, s, since), s.At(select.t).r;
            && on in s'.books.nodes
            && (s'.books.nodes[on].CanFit(r) <==>
                s0.books.nodes[on].free.Covers(r.Plus(TakenSince(dist, s, since, on))))
            && (Unburdened(dist, s, since, on) ==> s'.books.nodes[on].CanFit(r))
  {
    var s, on := Apply(dist, true, s0, select), select.on;
    FreeMovesByWhatIsTaken(dist, s, since, on);
    if Unburdened(dist, s, since, on) {
      UnburdenedTakesNothing(dist, s, since, on);
    }
  }

  // One node with 100 MB free, and an agent that asks for 60.
  const RACE_NODE := Node("n", map[], None, Amount(8.0, 100, 100), 0)
  const RACE_SPEC := Spec("d", 1, Amount(1.0, 60, 10), [], None)
  const RACE_START := System(Registering(NO_BOOKS, RACE_NODE), map[], map[], None, map[])
  const BOTH_SELECTED := [SelectDirect(0, RACE_SPEC, 0, "n"), SelectDirect(1, RACE_SPEC, 1, "n")]

  lemma RaceStartIsSound()
    ensures Inv(RACE_START)
  {
    var b := RACE_START.books;
    assert OnNode(b.placements, "n") == {};
    assert Kept(b, "n");
  }

  lemma BothSelect(dist: Distance)
    ensures LegalRun(dist, true, RACE_START, BOTH_SELECTED)
    ensures var s := Run(dist, true, RACE_START, BOTH_SELECTED);
            && s.books == RACE_START.books
            && s.At(0) == Selected(0, "n", RACE_SPEC.resources, None)
            && s.At(1) == Selected(1, "n", RACE_SPEC.resources, None)
  {
    var b := RACE_START.books;
    assert Best(dist, b.nodes, b.placements, RACE_SPEC, "n");
    Extend(dist, true, RACE_START, [], BOTH_SELECTED[0]);
    Extend(dist, true, RACE_START, [BOTH_SELECTED[0]], BOTH_SELECTED[1]);
    assert [] + [BOTH_SELECTED[0]] == [BOTH_SELECTED[0]];
    assert [BOTH_SELECTED[0]] + [BOTH_SELECTED[1]] == BOTH_SELECTED;
  }

  /** Direct concurrent calls of `schedule` break it: two threads select the same node while it
      fits either agent, and the second allocation takes its free memory below zero. */
  lemma DirectCallsCanUnderflow(dist: Distance) returns (s: System, actions: seq<Action>)
    ensures Inv(s) && LegalRun(dist, true, s, actions)
    ensures exists n :: n in Run(dist, true, s, actions).books.nodes &&
                        Run(dist, true, s, actions).books.nodes[n].free.memory < 0
  {
    s := RACE_START;
    RaceStartIsSound();
    BothSelect(dist);
    Extend(dist, true, s, BOTH_SELECTED, Allocate(0));
    Extend(dist, true, s, BOTH_SELECTED + [Allocate(0)], Allocate(1));
    actions := BOTH_SELECTED + [Allocate(0)] + [Allocate(1)];
    assert Run(dist, true, s, actions).books.nodes["n"].free.memory == -20;
  }

  lemma Extend(dist: Distance, direct: bool, s: System, actions: seq<Action>, a: Action)
    requires LegalRun(dist, direct, s, actions) && Enabled(dist, direct, Run(dist, direct, s, actions), a)
    ensures LegalRun(dist, direct, s, actions + [a])
    ensures Run(dist, direct, s, actions + [a]) == Apply(dist, direct, Run(dist, direct, s, actions), a)
  {
    assert (actions + [a])[..|actions|] == actions;
  }
}
