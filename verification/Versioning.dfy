/** Version registry and rolling updates.

    An update attempt may fail without effect: the answer of the k-th attempt is an arbitrary
    function of k, on top of the checks the registry makes itself.  The reference is one pass over
    the targets in order; the four strategies are loops proved equal to it. */
module Versioning {
  import opened Basics

  type AgentId = nat

  datatype Metadata = Metadata(deprecated: bool, migrationPath: Option<seq<Version>>)

  datatype Registry = Registry(versions: map<Version, Metadata>, agents: map<AgentId, Version>)

  datatype Error = VersionNotFound | IncompatibleVersion | TooManyFailures | RollbackFailed

  /** `can_migrate`: both versions known; then compatible, or listed in the target's path, and the
      target not deprecated. */
  function CanMigrate(r: Registry, source: Version, target: Version): (ok: Option<bool>) {
    if source !in r.versions || target !in r.versions then None
    else Some(MayMigrate(r.versions[target], source, target))
  }

  predicate MayMigrate(meta: Metadata, source: Version, target: Version) {
    !meta.deprecated &&
    (target.CompatibleWith(source) || (meta.migrationPath.Some? && source in meta.migrationPath.value))
  }

  /** Which attempts the outside world lets through. */
  type Faults = nat -> bool

  datatype Strategy =
    | Immediate
    | Batched(size: nat)
    | Sequential
    | Percentage(fraction: real)

  datatype Config = Config(source: Version, target: Version, strategy: Strategy, rollback: bool, maxFailures: nat)

  datatype Outcome = Updated(agents: seq<AgentId>) | Failed(error: Error) | Panicked

  // ---------------------------------------------------------------- the reference pass

  /** `update_agent_version`. */
  predicate Accepted(r: Registry, a: AgentId, v: Version) { v in r.versions && a in r.agents }

  function Assigned(r: Registry, a: AgentId, v: Version): (r': Registry) {
    r.(agents := r.agents[a := v])
  }

  /** A pass under way: the registry, who was updated, how many attempts failed, how many were
      made, and whether the failure budget is exceeded. */
  datatype Progress = Progress(reg: Registry, updated: seq<AgentId>, failed: nat, calls: nat, stopped: bool)

  function Attempt(ok: Faults, max: nat, target: Version, p: Progress, a: AgentId): (p': Progress) {
    if p.stopped then p
    else if ok(p.calls) && Accepted(p.reg, a, target) then
      p.(reg := Assigned(p.reg, a, target), updated := p.updated + [a], calls := p.calls + 1)
    else p.(failed := p.failed + 1, calls := p.calls + 1, stopped := p.failed + 1 > max)
  }

  /** One attempt per agent in order, until the budget is exceeded. */
  function Pass(ok: Faults, max: nat, target: Version, p: Progress, agents: seq<AgentId>): (p': Progress) {
    if agents == [] then p
    else Attempt(ok, max, target, Pass(ok, max, target, p, agents[..|agents| - 1]), agents[|agents| - 1])
  }

  /** Assigns `source` to the agents in order, stopping at the first refusal; true when all went. */
  function Rollback(ok: Faults, source: Version, r: Registry, calls: nat, agents: seq<AgentId>): (res: (Registry, bool))
    decreases |agents|
  {
    if agents == [] then (r, true)
    else if ok(calls) && Accepted(r, agents[0], source) then
      Rollback(ok, source, Assigned(r, agents[0], source), calls + 1, agents[1..])
    else (r, false)
  }

  /** The agents that are on the source version when the update begins. */
  function Targets(r: Registry, source: Version, agents: seq<AgentId>): (ts: seq<AgentId>)
    ensures forall a :: a in ts <==> a in agents && a in r.agents && r.agents[a] == source
  {
    if agents == [] then []
    else
      var a := agents[|agents| - 1];
      var rest := Targets(r, source, agents[..|agents| - 1]);
      if a in r.agents && r.agents[a] == source then rest + [a] else rest
  }

  /** What a rolling update amounts to, without regard to the strategy. */
  function Reference(ok: Faults, cfg: Config, r: Registry, agents: seq<AgentId>): (res: (Registry, Outcome)) {
    match CanMigrate(r, cfg.source, cfg.target)
    case None => (r, Failed(VersionNotFound))
    case Some(false) => (r, Failed(IncompatibleVersion))
    case Some(true) =>
      var p := Pass(ok, cfg.maxFailures, cfg.target, Progress(r, [], 0, 0, false), Targets(r, cfg.source, agents));
      Conclude(ok, cfg, p)
  }

  function Conclude(ok: Faults, cfg: Config, p: Progress): (res: (Registry, Outcome)) {
    if !p.stopped then (p.reg, Updated(p.updated))
    else if !cfg.rollback then (p.reg, Failed(TooManyFailures))
    else
      var (r', done) := Rollback(ok, cfg.source, p.reg, p.calls, p.updated);
      (r', if done then Failed(TooManyFailures) else Failed(RollbackFailed))
  }

  // ---------------------------------------------------------------- what the pass keeps

  function ToSet(xs: seq<AgentId>): (s: set<AgentId>) { set x | x in xs }

  /** Exactly the updated agents are on the target version, all others as before. */
  ghost predicate Reassigned(r: Registry, target: Version, processed: seq<AgentId>, p: Progress) {
    && p.reg.versions == r.versions && p.reg.agents.Keys == r.agents.Keys
    && (forall a :: a in p.updated ==> a in processed && a in r.agents)
    && (forall a :: a in r.agents ==> p.reg.agents[a] == if a in p.updated then target else r.agents[a])
  }

  /** The budget is exceeded exactly when the pass stopped; until then no more targets are left out
      than attempts failed. */
  predicate Budgeted(max: nat, processed: seq<AgentId>, p: Progress) {
    && (p.stopped <==> p.failed > max)
    && (!p.stopped ==> |p.updated| + p.failed == |processed|)
    && (!p.stopped ==> |ToSet(processed) - ToSet(p.updated)| <= p.failed)
  }

  lemma LeftOutGrowsByOne(processed: seq<AgentId>, updated: seq<AgentId>, a: AgentId)
    ensures |ToSet(processed + [a]) - ToSet(updated)| <= |ToSet(processed) - ToSet(updated)| + 1
    ensures |ToSet(processed + [a]) - ToSet(updated + [a])| <= |ToSet(processed) - ToSet(updated)|
  {
    var before := ToSet(processed) - ToSet(updated);
    SubsetSize(ToSet(processed + [a]) - ToSet(updated), before + {a});
    SubsetSize(ToSet(processed + [a]) - ToSet(updated + [a]), before);
  }

  lemma AttemptReassigns(ok: Faults, r: Registry, target: Version, max: nat, processed: seq<AgentId>, p: Progress, a: AgentId)
    requires Reassigned(r, target, processed, p)
    ensures Reassigned(r, target, processed + [a], Attempt(ok, max, target, p, a))
  {
    var p' := Attempt(ok, max, target, p, a);
    forall b | b in p'.updated ensures b in processed + [a] && b in r.agents {
      if b !in p.updated {
        assert b == a;
      }
    }
  }

  lemma AttemptKeepsBudget(ok: Faults, target: Version, max: nat, processed: seq<AgentId>, p: Progress, a: AgentId)
    requires Budgeted(max, processed, p)
    ensures Budgeted(max, processed + [a], Attempt(ok, max, target, p, a))
  {
    LeftOutGrowsByOne(processed, p.updated, a);
  }

  lemma {:induction false} PassKeepsInv(ok: Faults, r: Registry, target: Version, max: nat, agents: seq<AgentId>)
    ensures var p := Pass(ok, max, target, Progress(r, [], 0, 0, false), agents);
            Reassigned(r, target, agents, p) && Budgeted(max, agents, p)
  {
    if agents == [] {
      assert ToSet(agents) - ToSet([]) == {};
    } else {
      var rest, last := agents[..|agents| - 1], agents[|agents| - 1];
      PassKeepsInv(ok, r, target, max, rest);
      var p := Pass(ok, max, target, Progress(r, [], 0, 0, false), rest);
      AttemptReassigns(ok, r, target, max, rest, p, last);
      AttemptKeepsBudget(ok, target, max, rest, p, last);
      assert rest + [last] == agents;
    }
  }

  /** A rollback assigns `source` to a prefix of the listed agents, to all of them exactly when it
      completes. */
  lemma {:induction false} RollbackRestores(ok: Faults, source: Version, r: Registry, calls: nat, agents: seq<AgentId>)
    returns (k: nat)
    requires forall a :: a in agents ==> a in r.agents
    ensures k <= |agents|
    ensures var (r', done) := Rollback(ok, source, r, calls, agents);
            && (done <==> k == |agents|)
            && r'.versions == r.versions && r'.agents.Keys == r.agents.Keys
            && forall a :: a in r.agents ==> r'.agents[a] == if a in agents[..k] then source else r.agents[a]
    decreases |agents|
  {
    if agents == [] || !(ok(calls) && Accepted(r, agents[0], source)) {
      k := 0;
    } else {
      var r1 := Assigned(r, agents[0], source);
      var j := RollbackRestores(ok, source, r1, calls + 1, agents[1..]);
      k := j + 1;
      assert agents[..k] == [agents[0]] + agents[1..][..j];
    }
  }

  // ---------------------------------------------------------------- main results on outcomes

  /** Success: no more than the budgeted number of targets is left on the source version, the
      updated ones are on the target version, and no other agent changed. */
  lemma SuccessWithinBudget(ok: Faults, cfg: Config, r: Registry, agents: seq<AgentId>)
    requires Reference(ok, cfg, r, agents).1.Updated?
    ensures var (r', out) := Reference(ok, cfg, r, agents);
            var targets := Targets(r, cfg.source, agents);
            && r'.versions == r.versions && r'.agents.Keys == r.agents.Keys
            && (forall a :: a in out.agents ==> a in targets && r'.agents[a] == cfg.target)
            && (forall a :: a in targets && a !in out.agents ==> r'.agents[a] == cfg.source)
            && |ToSet(targets) - ToSet(out.agents)| <= cfg.maxFailures
            && (forall a :: a in r.agents && a !in targets ==> r'.agents[a] == r.agents[a])
  {
    PassKeepsInv(ok, r, cfg.target, cfg.maxFailures, Targets(r, cfg.source, agents));
  }

  /** Too many failures with a completed rollback: the registry is exactly what it was. */
  lemma RollbackUndoesEverything(ok: Faults, cfg: Config, r: Registry, agents: seq<AgentId>)
    requires cfg.rollback && Reference(ok, cfg, r, agents).1 == Failed(TooManyFailures)
    ensures Reference(ok, cfg, r, agents).0 == r
  {
    var targets := Targets(r, cfg.source, agents);
    PassKeepsInv(ok, r, cfg.target, cfg.maxFailures, targets);
    var p := Pass(ok, cfg.maxFailures, cfg.target, Progress(r, [], 0, 0, false), targets);
    var k := RollbackRestores(ok, cfg.source, p.reg, p.calls, p.updated);
    assert p.updated[..|p.updated|] == p.updated;
    var r' := Reference(ok, cfg, r, agents).0;
    assert forall a :: a in r.agents ==> r'.agents[a] == r.agents[a];
  }

  /** Otherwise a failed update leaves every agent on its old version or, if it was a target, on
      the new one. */
  lemma FailureTouchesOnlyTargets(ok: Faults, cfg: Config, r: Registry, agents: seq<AgentId>)
    requires Reference(ok, cfg, r, agents).1.Failed?
    ensures var r' := Reference(ok, cfg, r, agents).0;
            && r'.agents.Keys == r.agents.Keys && r'.versions == r.versions
            && forall a :: a in r.agents ==>
                 r'.agents[a] == r.agents[a] || (a in Targets(r, cfg.source, agents) && r'.agents[a] == cfg.target)
  {
    var targets := Targets(r, cfg.source, agents);
    PassKeepsInv(ok, r, cfg.target, cfg.maxFailures, targets);
    var p := Pass(ok, cfg.maxFailures, cfg.target, Progress(r, [], 0, 0, false), targets);
    var k := RollbackRestores(ok, cfg.source, p.reg, p.calls, p.updated);
  }

  // ---------------------------------------------------------------- the real registry never refuses

  /** What other users of the registry may do between two accesses.  Versions are never removed, so that the
      one an agent is given was known when it was looked up comes to its being known at the write. */
  datatype RegistryCall =
    | RegisterVersion(version: Version, meta: Metadata)
    | RegisterAgent(agent: AgentId, version: Version)
    | UpdateAgentVersion(agent: AgentId, version: Version)

  function Apply(r: Registry, c: RegistryCall): (r': Registry)
    ensures r.versions.Keys <= r'.versions.Keys && r.agents.Keys <= r'.agents.Keys
  {
    match c
    case RegisterVersion(v, meta) => r.(versions := r.versions[v := meta])
    case RegisterAgent(a, v) => if v in r.versions then Assigned(r, a, v) else r
    case UpdateAgentVersion(a, v) => if Accepted(r, a, v) then Assigned(r, a, v) else r
  }

  function ApplyAll(r: Registry, cs: seq<RegistryCall>): (r': Registry)
    ensures r.versions.Keys <= r'.versions.Keys && r.agents.Keys <= r'.agents.Keys
  {
    if cs == [] then r else Apply(ApplyAll(r, cs[..|cs| - 1]), cs[|cs| - 1])
  }

  /** `update_agent_version` under two locks: the version is looked up under the first and the agent is
      written under the second, each after the next calls of other threads. */
  function InterleavedAttempt(others: nat -> seq<RegistryCall>, max: nat, target: Version, p: Progress,
                              a: AgentId): (p': Progress)
  {
    if p.stopped then p
    else
      var r1 := ApplyAll(p.reg, others(2 * p.calls));
      var r2 := if target in r1.versions then ApplyAll(r1, others(2 * p.calls + 1)) else r1;
      if target in r1.versions && a in r2.agents then
        p.(reg := Assigned(r2, a, target), updated := p.updated + [a], calls := p.calls + 1)
      else p.(reg := r2, failed := p.failed + 1, calls := p.calls + 1, stopped := p.failed + 1 > max)
  }

  function InterleavedPass(others: nat -> seq<RegistryCall>, max: nat, target: Version, p: Progress,
                           agents: seq<AgentId>): (p': Progress)
  {
    if agents == [] then p
    else
      var before := InterleavedPass(others, max, target, p, agents[..|agents| - 1]);
      InterleavedAttempt(others, max, target, before, agents[|agents| - 1])
  }

  lemma InterleavedAttemptSucceeds(others: nat -> seq<RegistryCall>, max: nat, target: Version, p: Progress, a: AgentId)
    requires !p.stopped && target in p.reg.versions && a in p.reg.agents
    ensures var p' := InterleavedAttempt(others, max, target, p, a);
            && p'.updated == p.updated + [a] && p'.failed == p.failed && !p'.stopped
            && p.reg.versions.Keys <= p'.reg.versions.Keys && p.reg.agents.Keys <= p'.reg.agents.Keys
  {
  }

  /** No registry call removes a version or an agent, so a pass over known agents to a known version fails
      on none of them: all are updated, in order, and the budget is untouched. */
  lemma {:induction false} InterleavedPassNeverFails(others: nat -> seq<RegistryCall>, max: nat, target: Version,
                                                    r: Registry, agents: seq<AgentId>)
    requires target in r.versions && forall a :: a in agents ==> a in r.agents
    ensures var p := InterleavedPass(others, max, target, Progress(r, [], 0, 0, false), agents);
            && p.updated == agents && p.failed == 0 && !p.stopped
            && r.versions.Keys <= p.reg.versions.Keys && r.agents.Keys <= p.reg.agents.Keys
  {
    if agents != [] {
      var rest, a := agents[..|agents| - 1], agents[|agents| - 1];
      InterleavedPassNeverFails(others, max, target, r, rest);
      var p := InterleavedPass(others, max, target, Progress(r, [], 0, 0, false), rest);
      InterleavedAttemptSucceeds(others, max, target, p, a);
      assert agents == rest + [a];
    }
  }

  /** The filter by current version, the calls `others(k)` of other threads coming before its k-th lookup. */
  function InterleavedTargets(others: nat -> seq<RegistryCall>, source: Version, r: Registry,
                              agents: seq<AgentId>): (res: (Registry, seq<AgentId>))
  {
    if agents == [] then (r, [])
    else
      var n := |agents| - 1;
      var (r1, targets) := InterleavedTargets(others, source, r, agents[..n]);
      var r2 := ApplyAll(r1, others(n));
      (r2, if agents[n] in r2.agents && r2.agents[agents[n]] == source then targets + [agents[n]] else targets)
  }

  lemma {:induction false} InterleavedTargetsAreKnown(others: nat -> seq<RegistryCall>, source: Version, r: Registry,
                                                     agents: seq<AgentId>)
    ensures var (r', targets) := InterleavedTargets(others, source, r, agents);
            && r.versions.Keys <= r'.versions.Keys && r.agents.Keys <= r'.agents.Keys
            && forall a :: a in targets ==> a in r'.agents && a in agents
  {
    if agents != [] {
      InterleavedTargetsAreKnown(others, source, r, agents[..|agents| - 1]);
    }
  }

  /** What other threads do from the n-th access on. */
  function From(others: nat -> seq<RegistryCall>, n: nat): (rest: nat -> seq<RegistryCall>) {
    (k: nat) => others(n + k)
  }

  /** A whole rolling update, with calls of other threads before every access to the registry: first the
      two versions are looked up, then each agent, then each target is updated.  Chunks of size zero panic. */
  function InterleavedUpdate(others: nat -> seq<RegistryCall>, cfg: Config, r: Registry,
                             agents: seq<AgentId>): (res: (Registry, Outcome))
  {
    var r0 := ApplyAll(r, others(0));
    var r1 := ApplyAll(r0, others(1));
    if cfg.source !in r0.versions then (r0, Failed(VersionNotFound))
    else if cfg.target !in r1.versions then (r1, Failed(VersionNotFound))
    else if !MayMigrate(r1.versions[cfg.target], cfg.source, cfg.target) then (r1, Failed(IncompatibleVersion))
    else UpdateFound(From(others, 2), cfg, r1, agents)
  }

  function UpdateFound(others: nat -> seq<RegistryCall>, cfg: Config, r: Registry,
                       agents: seq<AgentId>): (res: (Registry, Outcome))
  {
    var (r2, targets) := InterleavedTargets(others, cfg.source, r, agents);
    if cfg.strategy == Batched(0) then (r2, Panicked)
    else
      Conclude(_ => true, cfg, InterleavedPass(From(others, |agents|), cfg.maxFailures, cfg.target,
                                               Progress(r2, [], 0, 0, false), targets))
  }

  lemma UpdateOfFoundNeverFails(others: nat -> seq<RegistryCall>, cfg: Config, r: Registry, agents: seq<AgentId>)
    requires cfg.target in r.versions && cfg.strategy != Batched(0)
    ensures UpdateFound(others, cfg, r, agents).1 == Updated(InterleavedTargets(others, cfg.source, r, agents).1)
  {
    InterleavedTargetsAreKnown(others, cfg.source, r, agents);
    var (r2, targets) := InterleavedTargets(others, cfg.source, r, agents);
    InterleavedPassNeverFails(From(others, |agents|), cfg.maxFailures, cfg.target, r2, targets);
  }

  /** Under every interleaving a rolling update fails only in its checks of the two versions; past them it
      panics with a batch size of zero, and otherwise answers Ok with every agent found on the source
      version, whatever the failure budget. */
  lemma RealUpdatesNeverFail(others: nat -> seq<RegistryCall>, cfg: Config, r: Registry, agents: seq<AgentId>)
    ensures var r0 := ApplyAll(r, others(0));
            var r1 := ApplyAll(r0, others(1));
            var out := InterleavedUpdate(others, cfg, r, agents).1;
            if cfg.source !in r0.versions || cfg.target !in r1.versions then out == Failed(VersionNotFound)
            else if !MayMigrate(r1.versions[cfg.target], cfg.source, cfg.target) then out == Failed(IncompatibleVersion)
            else if cfg.strategy == Batched(0) then out == Panicked
            else out == Updated(InterleavedTargets(From(others, 2), cfg.source, r1, agents).1)
  {
    var r1 := ApplyAll(ApplyAll(r, others(0)), others(1));
    if cfg.target in r1.versions && cfg.strategy != Batched(0) {
      UpdateOfFoundNeverFails(From(others, 2), cfg, r1, agents);
    }
  }

  // ---------------------------------------------------------------- the strategies

  lemma {:induction false} PassConcat(ok: Faults, max: nat, target: Version, p: Progress, xs: seq<AgentId>, ys: seq<AgentId>)
    ensures Pass(ok, max, target, p, xs + ys) == Pass(ok, max, target, Pass(ok, max, target, p, xs), ys)
    decreases |ys|
  {
    if ys == [] {
      assert xs + ys == xs;
    } else {
      PassConcat(ok, max, target, p, xs, ys[..|ys| - 1]);
      assert (xs + ys)[..|xs + ys| - 1] == xs + ys[..|ys| - 1];
    }
  }

  lemma {:induction false} StoppedPassIsOver(ok: Faults, max: nat, target: Version, p: Progress, xs: seq<AgentId>)
    requires p.stopped
    ensures Pass(ok, max, target, p, xs) == p
  {
    if xs != [] {
      StoppedPassIsOver(ok, max, target, p, xs[..|xs| - 1]);
    }
  }

  class VersionDeployer {
    var versions: map<Version, Metadata>
    var agentVersions: map<AgentId, Version>
    // the update under way
    var updatedAgents: seq<AgentId>
    var failedCount: nat
    var calls: nat
    var stopped: bool

    function Reg(): (r: Registry)
      reads this
    {
      Registry(versions, agentVersions)
    }

    ghost function View(): (p: Progress)
      reads this
    {
      Progress(Reg(), updatedAgents, failedCount, calls, stopped)
    }

    constructor (r: Registry)
      ensures Reg() == r
    {
      versions, agentVersions := r.versions, r.agents;
      updatedAgents, failedCount, calls, stopped := [], 0, 0, false;
    }

    method UpdateAgent(ok: Faults, a: AgentId, v: Version) returns (done: bool)
      modifies this`agentVersions, this`calls
      ensures done <==> ok(old(calls)) && Accepted(old(Reg()), a, v)
      ensures calls == old(calls) + 1
      ensures Reg() == if done then Assigned(old(Reg()), a, v) else old(Reg())
    {
      done := ok(calls) && v in versions && a in agentVersions;
      if done {
        agentVersions := agentVersions[a := v];
      }
      calls := calls + 1;
    }

    /** The inner loop every strategy shares. */
    method UpdateEach(ok: Faults, cfg: Config, batch: seq<AgentId>)
      modifies this
      ensures View() == Pass(ok, cfg.maxFailures, cfg.target, old(View()), batch)
    {
      var i := 0;
      if stopped {
        StoppedPassIsOver(ok, cfg.maxFailures, cfg.target, View(), batch);
        return;
      }
      while i < |batch| && !stopped
        invariant i <= |batch| && View() == Pass(ok, cfg.maxFailures, cfg.target, old(View()), batch[..i])
      {
        assert batch[..i + 1][..i] == batch[..i];
        var done := UpdateAgent(ok, batch[i], cfg.target);
        if done {
          updatedAgents := updatedAgents + [batch[i]];
        } else {
          failedCount := failedCount + 1;
          if failedCount > cfg.maxFailures {
            stopped := true;
          }
        }
        i := i + 1;
      }
      assert batch == batch[..i] + batch[i..];
      PassConcat(ok, cfg.maxFailures, cfg.target, old(View()), batch[..i], batch[i..]);
      if stopped {
        StoppedPassIsOver(ok, cfg.maxFailures, cfg.target, View(), batch[i..]);
      } else {
        assert batch[i..] == [];
      }
    }

    /** Chunks of the given size, one after the other, make the same pass. */
    method UpdateChunks(ok: Faults, cfg: Config, targets: seq<AgentId>, size: nat)
      requires size >= 1
      modifies this
      ensures View() == Pass(ok, cfg.maxFailures, cfg.target, old(View()), targets)
    {
      var i := 0;
      while i < |targets|
        invariant i <= |targets| && View() == Pass(ok, cfg.maxFailures, cfg.target, old(View()), targets[..i])
      {
        var j := if i + size < |targets| then i + size else |targets|;
        PassConcat(ok, cfg.maxFailures, cfg.target, old(View()), targets[..i], targets[i..j]);
        assert targets[..j] == targets[..i] + targets[i..j];
        UpdateEach(ok, cfg, targets[i..j]);
        i := j;
      }
      assert targets[..i] == targets;
    }

    method RollbackUpdates(ok: Faults, source: Version) returns (done: bool)
      modifies this`agentVersions, this`calls
      ensures (Reg(), done) == Rollback(ok, source, old(Reg()), old(calls), old(updatedAgents))
    {
      var i := 0;
      while i < |updatedAgents|
        invariant i <= |updatedAgents|
        invariant Rollback(ok, source, Reg(), calls, updatedAgents[i..]) ==
                    Rollback(ok, source, old(Reg()), old(calls), updatedAgents)
      {
        assert updatedAgents[i..][1..] == updatedAgents[i + 1..];
        var accepted := UpdateAgent(ok, updatedAgents[i], source);
        if !accepted {
          return false;
        }
        i := i + 1;
      }
      return true;
    }

    method SelectTargets(source: Version, agents: seq<AgentId>) returns (targets: seq<AgentId>)
      ensures targets == Targets(Reg(), source, agents)
    {
      targets := [];
      for i := 0 to |agents|
        invariant targets == Targets(Reg(), source, agents[..i])
      {
        assert agents[..i + 1][..i] == agents[..i];
        if agents[i] in agentVersions && agentVersions[agents[i]] == source {
          targets := targets + [agents[i]];
        }
      }
      assert agents[..|agents|] == agents;
    }

    /** Whatever the strategy, the result is that of the one reference pass; only a batch size of
        zero is different, and panics before anything is changed. */
    method RollingUpdate(ok: Faults, cfg: Config, agents: seq<AgentId>) returns (out: Outcome)
      modifies this
      ensures cfg.strategy == Batched(0) && CanMigrate(old(Reg()), cfg.source, cfg.target) == Some(true) ==>
                out == Panicked && Reg() == old(Reg())
      ensures !(cfg.strategy == Batched(0) && CanMigrate(old(Reg()), cfg.source, cfg.target) == Some(true)) ==>
                (Reg(), out) == Reference(ok, cfg, old(Reg()), agents)
    {
      var allowed := CanMigrate(Reg(), cfg.source, cfg.target);
      if allowed.None? {
        return Failed(VersionNotFound);
      }
      if !allowed.value {
        return Failed(IncompatibleVersion);
      }
      updatedAgents, failedCount, calls, stopped := [], 0, 0, false;
      var targets := SelectTargets(cfg.source, agents);
      match cfg.strategy {
        case Immediate => UpdateEach(ok, cfg, targets);
        case Sequential => UpdateEach(ok, cfg, targets);
        case Batched(size) =>
          if size == 0 {
            return Panicked;
          }
          UpdateChunks(ok, cfg, targets, size);
        case Percentage(fraction) =>
          var share := (|targets| as real * fraction).Floor;
          UpdateChunks(ok, cfg, targets, if share >= 1 then share else 1);
      }
      if stopped {
        if cfg.rollback {
          var done := RollbackUpdates(ok, cfg.source);
          if !done {
            return Failed(RollbackFailed);
          }
        }
        return Failed(TooManyFailures);
      }
      return Updated(updatedAgents);
    }
  }
}
