/** The agent pool: a queue of idle agents and its counters.  A call reads the clock several times,
    twice for each agent it checks; `at(k)` is its k-th reading. */
module AgentPool {
  import opened Basics
  import L = AgentLifecycle

  type AgentId = nat

  datatype Config = Config(minSize: nat, maxSize: nat, maxAge: nat, maxIdle: nat)
  {
    predicate Valid() { minSize <= maxSize && maxSize > 0 }

    function Limit(): (n: nat) { if maxAge < maxIdle then maxAge else maxIdle }
  }

  datatype Pooled = Pooled(agent: AgentId, createdAt: nat, lastUsed: nat)

  datatype Stats = Stats(
    acquired: nat, returned: nat, created: nat, destroyed: nat, misses: nat, currentSize: nat, peakSize: nat)

  /** `births` is bookkeeping: when an agent was made, by the pool or by whoever released it first. */
  datatype Pool = Pool(queue: seq<Pooled>, stats: Stats, births: map<AgentId, nat>)

  const NEW_POOL: Pool := Pool([], Stats(0, 0, 0, 0, 0, 0, 0), map[])

  /** The i-th agent a call looks at is neither expired nor idle for too long, each by its own
      reading of the clock. */
  predicate Usable(cfg: Config, p: Pooled, at: nat -> nat, i: nat) {
    at(2 * i) - p.createdAt <= cfg.maxAge && at(2 * i + 1) - p.lastUsed <= cfg.maxIdle
  }

  /** The first usable agent from position `i` on. */
  function FirstUsable(cfg: Config, queue: seq<Pooled>, at: nat -> nat, i: nat): (k: nat)
    requires i <= |queue|
    ensures i <= k <= |queue|
    ensures forall j :: i <= j < k ==> !Usable(cfg, queue[j], at, j)
    ensures k < |queue| ==> Usable(cfg, queue[k], at, k)
    decreases |queue| - i
  {
    if i == |queue| || Usable(cfg, queue[i], at, i) then i else FirstUsable(cfg, queue, at, i + 1)
  }

  // ---------------------------------------------------------------- the operations

  /** The first mention of an agent gives its birth. */
  function Born(births: map<AgentId, nat>, a: AgentId, when: nat): (b: map<AgentId, nat>) {
    if a in births then births else births[a := when]
  }

  function Grown(s: Pool, p: Pooled): (s': Pool) {
    var queue := s.queue + [p];
    s.(queue := queue,
       stats := s.stats.(currentSize := |queue|,
                         peakSize := if |queue| > s.stats.peakSize then |queue| else s.stats.peakSize))
  }

  function Fresh(s: Pool, a: AgentId, now: nat): (s': Pool) {
    var g := Grown(s, Pooled(a, now, now));
    g.(stats := g.stats.(created := g.stats.created + 1), births := Born(s.births, a, now))
  }

  /** Fresh agents up to the minimum size; the one that makes the size `k` reads the clock as `at(k)`. */
  function WarmedUp(cfg: Config, s: Pool, newId: AgentId, at: nat -> nat): (s': Pool)
    decreases cfg.minSize - |s.queue|
  {
    if |s.queue| >= cfg.minSize then s
    else WarmedUp(cfg, Fresh(s, newId, at(|s.queue| + 1)), newId + 1, at)
  }

  lemma WarmUpStep(cfg: Config, s: Pool, newId: AgentId, at: nat -> nat)
    requires |s.queue| < cfg.minSize
    ensures WarmedUp(cfg, s, newId, at) == WarmedUp(cfg, Fresh(s, newId, at(|s.queue| + 1)), newId + 1, at)
  {
  }

  /** The oldest usable agent, or a new one when there is none; unusable ones in front are
      destroyed. */
  function Acquired(cfg: Config, s: Pool, newId: AgentId, at: nat -> nat): (r: (Pool, AgentId)) {
    var k := FirstUsable(cfg, s.queue, at, 0);
    var st := s.stats.(acquired := s.stats.acquired + 1, destroyed := s.stats.destroyed + k);
    if k < |s.queue| then
      (Pool(s.queue[k + 1..], st.(currentSize := |s.queue| - k - 1), s.births), s.queue[k].agent)
    else
      (Pool([], st.(misses := st.misses + 1, created := st.created + 1,
                    currentSize := if k > 0 then 0 else st.currentSize),
            Born(s.births, newId, at(2 * k))), newId)
  }

  /** Kept unless the pool is full or the agent is terminated or in error; the two clocks of a kept
      agent start again. */
  function Released(cfg: Config, s: Pool, a: AgentId, state: L.AgentState, born: nat, now: nat): (s': Pool) {
    var s1 := s.(stats := s.stats.(returned := s.stats.returned + 1), births := Born(s.births, a, born));
    if |s.queue| >= cfg.maxSize || state == L.Terminated || state == L.Error then
      s1.(stats := s1.stats.(destroyed := s1.stats.destroyed + 1))
    else Grown(s1, Pooled(a, now, now))
  }

  function Cleared(s: Pool): (s': Pool) {
    s.(queue := [], stats := s.stats.(destroyed := s.stats.destroyed + |s.queue|, currentSize := 0))
  }

  /** The loop of `maintain`: an agent stays if usable and the kept ones are below either size. */
  function Kept(cfg: Config, queue: seq<Pooled>, at: nat -> nat): (kept: seq<Pooled>)
    ensures |kept| <= |queue|
  {
    if queue == [] then []
    else
      var n := |queue| - 1;
      var kept := Kept(cfg, queue[..n], at);
      if Usable(cfg, queue[n], at, n) && (|kept| < cfg.minSize || |kept| < cfg.maxSize) then kept + [queue[n]] else kept
  }

  function Maintained(cfg: Config, s: Pool, at: nat -> nat): (s': Pool) {
    var kept := Kept(cfg, s.queue, at);
    s.(queue := kept, stats := s.stats.(destroyed := s.stats.destroyed + |s.queue| - |kept|, currentSize := |kept|))
  }

  datatype Op =
    | DoWarmUp(newId: AgentId)
    | DoAcquire(newId: AgentId)
    | DoRelease(agent: AgentId, state: L.AgentState, born: nat)
    | DoClear
    | DoMaintain

  /** A call with its readings of the clock, which lie between `start` and `end`. */
  datatype Call = Call(op: Op, start: nat, end: nat, at: nat -> nat)

  function Step(cfg: Config, s: Pool, c: Call): (s': Pool) {
    match c.op
    case DoWarmUp(newId) => WarmedUp(cfg, s, newId, c.at)
    case DoAcquire(newId) => Acquired(cfg, s, newId, c.at).0
    case DoRelease(a, state, born) => Released(cfg, s, a, state, born, c.at(0))
    case DoClear => Cleared(s)
    case DoMaintain => Maintained(cfg, s, c.at)
  }

  function Run(cfg: Config, calls: seq<Call>): (s: Pool)
    decreases |calls|, 0
  {
    if calls == [] then NEW_POOL else After(cfg, calls[..|calls| - 1], calls[|calls| - 1])
  }

  /** One call after a run of others. */
  function After(cfg: Config, before: seq<Call>, c: Call): (s: Pool)
    decreases |before|, 1
  {
    Step(cfg, Run(cfg, before), c)
  }

  /** Readings that never run back and stay in an interval. */
  ghost predicate Within(at: nat -> nat, start: nat, end: nat) {
    forall j: nat, k: nat :: j <= k ==> start <= at(j) <= at(k) <= end
  }

  /** The clock never runs back, and nobody releases an agent not yet born. */
  ghost predicate ClockAscends(calls: seq<Call>) {
    && (forall i :: 0 <= i < |calls| ==> Timely(calls[i]))
    && (forall i, j :: 0 <= i < j < |calls| ==> calls[i].end <= calls[j].start)
  }

  ghost predicate Timely(c: Call) {
    Within(c.at, c.start, c.end) && c.start <= c.end && (c.op.DoRelease? ==> c.op.born <= c.at(0))
  }

  function Clock(calls: seq<Call>): (t: nat) { if calls == [] then 0 else calls[|calls| - 1].end }

  // ---------------------------------------------------------------- invariants

  /** Oldest first, and the creation time of a pooled agent is that of its last release. */
  predicate Ordered(queue: seq<Pooled>, clock: nat) {
    forall i, j :: 0 <= i <= j < |queue| ==> queue[i].createdAt == queue[i].lastUsed <= queue[j].lastUsed <= clock
  }

  /** Agents are conserved and the sizes are truthful. */
  predicate Balanced(cfg: Config, s: Pool) {
    && s.stats.created + s.stats.returned == s.stats.destroyed + s.stats.acquired + |s.queue|
    && s.stats.currentSize == |s.queue| <= s.stats.peakSize <= cfg.maxSize
  }

  /** Every pooled agent was born no later than it was last released. */
  predicate BornBefore(births: map<AgentId, nat>, queue: seq<Pooled>, clock: nat) {
    && (forall a :: a in births ==> births[a] <= clock)
    && (forall i :: 0 <= i < |queue| ==> queue[i].agent in births && births[queue[i].agent] <= queue[i].lastUsed)
  }

  predicate Inv(cfg: Config, s: Pool, clock: nat) {
    Ordered(s.queue, clock) && Balanced(cfg, s) && BornBefore(s.births, s.queue, clock)
  }

  lemma GrownKeepsInv(s: Pool, births: map<AgentId, nat>, a: AgentId, born: nat, clock: nat, now: nat)
    requires Ordered(s.queue, clock) && BornBefore(s.births, s.queue, clock) && clock <= now && born <= now
    requires births == Born(s.births, a, born)
    ensures var g := Grown(s, Pooled(a, now, now));
            Ordered(g.queue, now) && BornBefore(births, g.queue, now)
  {
  }

  lemma {:induction false} WarmUpKeepsInv(cfg: Config, s: Pool, newId: AgentId, clock: nat, at: nat -> nat, start: nat, end: nat)
    requires cfg.Valid() && Inv(cfg, s, clock) && clock <= end && Within(at, start, end)
    requires clock <= start || clock == at(|s.queue|)
    ensures Inv(cfg, WarmedUp(cfg, s, newId, at), end)
    decreases cfg.minSize - |s.queue|
  {
    if |s.queue| < cfg.minSize {
      var now := at(|s.queue| + 1);
      assert at(|s.queue|) <= now;
      GrownKeepsInv(s, Born(s.births, newId, now), newId, now, clock, now);
      WarmUpKeepsInv(cfg, Fresh(s, newId, now), newId + 1, now, at, start, end);
    }
  }

  /** The kept ones are in order, and the size limit never bites. */
  lemma {:induction false} KeptKeepsOrder(cfg: Config, queue: seq<Pooled>, at: nat -> nat, clock: nat)
    requires Ordered(queue, clock) && |queue| <= cfg.maxSize
    ensures var kept := Kept(cfg, queue, at);
            && Ordered(kept, clock)
            && (forall p :: p in kept ==> p in queue)
  {
    if queue != [] {
      var rest, last := queue[..|queue| - 1], queue[|queue| - 1];
      KeptKeepsOrder(cfg, rest, at, clock);
      assert forall p :: p in rest ==> p.lastUsed <= last.lastUsed;
      var kept := Kept(cfg, rest, at);
      assert forall i :: 0 <= i < |kept| ==> kept[i] in kept;
    }
  }

  lemma AcquireKeepsInv(cfg: Config, s: Pool, newId: AgentId, at: nat -> nat, clock: nat, end: nat)
    requires cfg.Valid() && Inv(cfg, s, clock) && clock <= end && Within(at, clock, end)
    ensures Inv(cfg, Acquired(cfg, s, newId, at).0, end)
  {
    var k := FirstUsable(cfg, s.queue, at, 0);
    assert at(2 * k) <= end;
  }

  lemma MaintainKeepsInv(cfg: Config, s: Pool, at: nat -> nat, clock: nat, end: nat)
    requires cfg.Valid() && Inv(cfg, s, clock) && clock <= end
    ensures Inv(cfg, Maintained(cfg, s, at), end)
  {
    KeptKeepsOrder(cfg, s.queue, at, clock);
    var kept := Kept(cfg, s.queue, at);
    forall i | 0 <= i < |kept| ensures kept[i].agent in s.births && s.births[kept[i].agent] <= kept[i].lastUsed {
      assert kept[i] in kept;
    }
  }

  lemma StepKeepsInv(cfg: Config, s: Pool, c: Call, clock: nat)
    requires cfg.Valid() && Inv(cfg, s, clock) && clock <= c.start && Timely(c)
    ensures Inv(cfg, Step(cfg, s, c), c.end)
  {
    match c.op
    case DoWarmUp(newId) => WarmUpKeepsInv(cfg, s, newId, clock, c.at, c.start, c.end);
    case DoAcquire(newId) => AcquireKeepsInv(cfg, s, newId, c.at, clock, c.end);
    case DoRelease(a, state, born) =>
      assert c.start <= c.at(0) <= c.end;
      GrownKeepsInv(s, Born(s.births, a, born), a, born, clock, c.at(0));
    case DoClear =>
    case DoMaintain => MaintainKeepsInv(cfg, s, c.at, clock, c.end);
  }

  // ---------------------------------------------------------------- main results on runs

  /** In every run: agents are conserved, the sizes are truthful and bounded, the pool is ordered by
      last use, a pooled agent's age is counted from its last release, and it was born before that. */
  lemma {:induction false} EveryRunKeepsInv(cfg: Config, calls: seq<Call>)
    requires cfg.Valid() && ClockAscends(calls)
    ensures Inv(cfg, Run(cfg, calls), Clock(calls))
  {
    if calls != [] {
      var k := |calls| - 1;
      EveryRunKeepsInv(cfg, calls[..k]);
      StepKeepsInv(cfg, Run(cfg, calls[..k]), calls[k], Clock(calls[..k]));
    }
  }

  // ---------------------------------------------------------------- what a call removes

  /** The agent's time is not up: usable, if both readings are at that instant. */
  predicate InTime(cfg: Config, p: Pooled, now: nat) { now - p.lastUsed <= cfg.Limit() }

  /** How many agents' time is up: the oldest ones. */
  function OutOfTime(cfg: Config, queue: seq<Pooled>, now: nat): (k: nat)
    ensures k <= |queue|
  {
    if queue == [] || InTime(cfg, queue[0], now) then 0 else 1 + OutOfTime(cfg, queue[1..], now)
  }

  lemma {:induction false} OutOfTimeIsPrefix(cfg: Config, queue: seq<Pooled>, now: nat, clock: nat)
    requires Ordered(queue, clock)
    ensures forall i :: 0 <= i < |queue| ==> (InTime(cfg, queue[i], now) <==> i >= OutOfTime(cfg, queue, now))
  {
    if queue != [] && !InTime(cfg, queue[0], now) {
      OutOfTimeIsPrefix(cfg, queue[1..], now, clock);
      assert forall i :: 0 < i < |queue| ==> queue[i] == queue[1..][i - 1];
    }
  }

  lemma OutOfTimeGrows(cfg: Config, queue: seq<Pooled>, now: nat, later: nat, clock: nat)
    requires Ordered(queue, clock) && now <= later
    ensures OutOfTime(cfg, queue, now) <= OutOfTime(cfg, queue, later)
  {
    OutOfTimeIsPrefix(cfg, queue, now, clock);
    OutOfTimeIsPrefix(cfg, queue, later, clock);
    var k := OutOfTime(cfg, queue, later);
    if k < |queue| {
      assert InTime(cfg, queue[k], later) ==> InTime(cfg, queue[k], now);
    }
  }

  /** Between the first and the last reading of a call an agent is usable if it is in time at the end,
      and not if its time was up at the start. */
  lemma UsableBetween(cfg: Config, p: Pooled, at: nat -> nat, start: nat, end: nat, i: nat)
    requires Within(at, start, end) && p.createdAt == p.lastUsed
    ensures InTime(cfg, p, end) ==> Usable(cfg, p, at, i)
    ensures Usable(cfg, p, at, i) ==> InTime(cfg, p, start)
  {
    assert start <= at(2 * i) <= at(2 * i + 1) <= end;
  }

  /** So a front part is unusable and a back part usable. */
  lemma UsabilityBetween(cfg: Config, queue: seq<Pooled>, at: nat -> nat, start: nat, end: nat)
    requires Ordered(queue, start) && Within(at, start, end)
    ensures var i, j := OutOfTime(cfg, queue, start), OutOfTime(cfg, queue, end);
            && i <= j
            && (forall k: nat :: k < i ==> !Usable(cfg, queue[k], at, k))
            && (forall k: nat :: j <= k < |queue| ==> Usable(cfg, queue[k], at, k))
  {
    var i, j := OutOfTime(cfg, queue, start), OutOfTime(cfg, queue, end);
    assert start <= at(0) <= end;
    OutOfTimeGrows(cfg, queue, start, end, start);
    OutOfTimeIsPrefix(cfg, queue, start, start);
    OutOfTimeIsPrefix(cfg, queue, end, start);
    forall k: nat | k < |queue|
      ensures (k < i ==> !Usable(cfg, queue[k], at, k)) && (j <= k ==> Usable(cfg, queue[k], at, k))
    {
      UsableBetween(cfg, queue[k], at, start, end, k);
    }
  }

  lemma {:induction false} KeepsNoneUnusable(cfg: Config, queue: seq<Pooled>, at: nat -> nat, n: nat)
    requires n <= |queue| && forall k: nat :: k < n ==> !Usable(cfg, queue[k], at, k)
    ensures Kept(cfg, queue[..n], at) == []
  {
    if n > 0 {
      KeepsNoneUnusable(cfg, queue, at, n - 1);
      assert queue[..n][..n - 1] == queue[..n - 1];
    }
  }

  lemma {:induction false} KeepsAllUsable(cfg: Config, queue: seq<Pooled>, at: nat -> nat, j: nat, n: nat)
    requires j <= n <= |queue| <= cfg.maxSize && forall k: nat :: j <= k < n ==> Usable(cfg, queue[k], at, k)
    ensures Kept(cfg, queue[..n], at) == Kept(cfg, queue[..j], at) + queue[j..n]
  {
    if n == j {
      assert queue[j..n] == [];
    } else {
      KeepsAllUsable(cfg, queue, at, j, n - 1);
      assert queue[..n][..n - 1] == queue[..n - 1];
      SliceSnoc(queue, j, n);
    }
  }

  lemma SliceSnoc<T>(xs: seq<T>, j: nat, n: nat)
    requires j < n <= |xs|
    ensures xs[j..n] == xs[j..n - 1] + [xs[n - 1]]
  {
  }

  /** What the loop keeps: none whose time was up at the start; then, of those whose time runs out during
      the call, the ones usable when looked at; then all others. */
  lemma KeptIsSandwiched(cfg: Config, queue: seq<Pooled>, at: nat -> nat, start: nat, end: nat)
    requires Ordered(queue, start) && Within(at, start, end) && |queue| <= cfg.maxSize
    ensures var i, j := OutOfTime(cfg, queue, start), OutOfTime(cfg, queue, end);
            && i <= j && Kept(cfg, queue[..i], at) == []
            && Kept(cfg, queue, at) == Kept(cfg, queue[..j], at) + queue[j..]
  {
    UsabilityBetween(cfg, queue, at, start, end);
    KeepsNoneUnusable(cfg, queue, at, OutOfTime(cfg, queue, start));
    KeepsAllUsable(cfg, queue, at, OutOfTime(cfg, queue, end), |queue|);
    assert queue[..|queue|] == queue && queue[OutOfTime(cfg, queue, end)..|queue|] == queue[OutOfTime(cfg, queue, end)..];
  }

  /** Entries that are all the same: the same agent, released at the same instant. */
  predicate Alike(xs: seq<Pooled>) {
    forall k :: 0 <= k < |xs| ==> xs[k] == xs[0]
  }

  /** What is kept of entries that are all the same. */
  lemma {:induction false} KeptOfAlike(cfg: Config, queue: seq<Pooled>, at: nat -> nat, i: nat, n: nat, p: Pooled)
    requires i <= n <= |queue| && Kept(cfg, queue[..i], at) == [] && forall k :: i <= k < n ==> queue[k] == p
    ensures var kept := Kept(cfg, queue[..n], at);
            |kept| <= n - i && forall k :: 0 <= k < |kept| ==> kept[k] == p
  {
    if n > i {
      KeptOfAlike(cfg, queue, at, i, n - 1, p);
      assert queue[..n][..n - 1] == queue[..n - 1];
    }
  }

  lemma AlikeMakesSuffix(queue: seq<Pooled>, head: seq<Pooled>, i: nat, j: nat, p: Pooled)
    requires i <= j <= |queue| && |head| <= j - i
    requires (forall k :: i <= k < j ==> queue[k] == p) && forall k :: 0 <= k < |head| ==> head[k] == p
    ensures IsSuffix(head + queue[j..], queue)
  {
    assert head == queue[j - |head|..j];
    assert head + queue[j..] == queue[j - |head|..];
  }

  lemma AlikeKeepsSuffix(cfg: Config, queue: seq<Pooled>, at: nat -> nat, i: nat, j: nat)
    requires i <= j <= |queue| && Kept(cfg, queue[..i], at) == [] && Alike(queue[i..j])
    ensures IsSuffix(Kept(cfg, queue[..j], at) + queue[j..], queue)
  {
    if i < j {
      forall k | i <= k < j ensures queue[k] == queue[i] {
        assert queue[k] == queue[i..j][k - i];
      }
      KeptOfAlike(cfg, queue, at, i, j, queue[i]);
      AlikeMakesSuffix(queue, Kept(cfg, queue[..j], at), i, j, queue[i]);
    }
  }

  /** When the agents that run out of time during the call are all the same, `maintain` keeps a suffix. */
  lemma KeepsSuffix(cfg: Config, queue: seq<Pooled>, at: nat -> nat, start: nat, end: nat)
    requires Ordered(queue, start) && Within(at, start, end) && |queue| <= cfg.maxSize
    requires OutOfTime(cfg, queue, start) <= OutOfTime(cfg, queue, end)
    requires Alike(queue[OutOfTime(cfg, queue, start)..OutOfTime(cfg, queue, end)])
    ensures IsSuffix(Kept(cfg, queue, at), queue)
  {
    KeptIsSandwiched(cfg, queue, at, start, end);
    AlikeKeepsSuffix(cfg, queue, at, OutOfTime(cfg, queue, start), OutOfTime(cfg, queue, end));
  }

  /** Readings that jump from the start to the end after the i-th agent. */
  function JumpAfter(start: nat, end: nat, i: nat): (at: nat -> nat) {
    k => if k <= 2 * i + 1 then start else end
  }

  lemma JumpIsWithin(start: nat, end: nat, i: nat)
    requires start <= end
    ensures Within(JumpAfter(start, end, i), start, end)
  {
  }

  /** The i-th agent and those before it are looked at before the jump, all later ones after it. */
  lemma UsableAcrossJump(cfg: Config, p: Pooled, start: nat, end: nat, i: nat, k: nat)
    requires p.createdAt == p.lastUsed
    ensures k <= i && InTime(cfg, p, start) ==> Usable(cfg, p, JumpAfter(start, end, i), k)
    ensures k > i && !InTime(cfg, p, end) ==> !Usable(cfg, p, JumpAfter(start, end, i), k)
  {
  }

  lemma KeptWithoutTheYoungest(cfg: Config, queue: seq<Pooled>, at: nat -> nat, i: nat, j: nat)
    requires i < j <= |queue| <= cfg.maxSize && Kept(cfg, queue[..i], at) == []
    requires forall k: nat :: i <= k < j - 1 ==> Usable(cfg, queue[k], at, k)
    requires !Usable(cfg, queue[j - 1], at, j - 1)
    ensures Kept(cfg, queue[..j], at) == queue[i..j - 1]
  {
    KeepsAllUsable(cfg, queue, at, i, j - 1);
    assert queue[..j][..j - 1] == queue[..j - 1];
  }

  /** Readings that find all the agents that run out of time during the call usable, but for the youngest. */
  lemma ReadingsAgainstTheYoungest(cfg: Config, queue: seq<Pooled>, start: nat, end: nat) returns (at: nat -> nat)
    requires Ordered(queue, start) && start <= end
    requires OutOfTime(cfg, queue, start) < OutOfTime(cfg, queue, end) - 1
    ensures Within(at, start, end)
    ensures var i, j := OutOfTime(cfg, queue, start), OutOfTime(cfg, queue, end);
            && (forall k: nat :: i <= k < j - 1 ==> Usable(cfg, queue[k], at, k))
            && !Usable(cfg, queue[j - 1], at, j - 1)
  {
    var i, j := OutOfTime(cfg, queue, start), OutOfTime(cfg, queue, end);
    at := JumpAfter(start, end, j - 2);
    JumpIsWithin(start, end, j - 2);
    OutOfTimeIsPrefix(cfg, queue, start, start);
    OutOfTimeIsPrefix(cfg, queue, end, start);
    forall k: nat | i <= k < j - 1 ensures Usable(cfg, queue[k], at, k) {
      UsableAcrossJump(cfg, queue[k], start, end, j - 2, k);
    }
    UsableAcrossJump(cfg, queue[j - 1], start, end, j - 2, j - 1);
  }

  /** So all of them but the youngest can be kept. */
  lemma CanDropTheYoungest(cfg: Config, queue: seq<Pooled>, start: nat, end: nat) returns (at: nat -> nat)
    requires Ordered(queue, start) && start <= end && |queue| <= cfg.maxSize
    requires OutOfTime(cfg, queue, start) < OutOfTime(cfg, queue, end) - 1
    ensures Within(at, start, end)
    ensures var i, j := OutOfTime(cfg, queue, start), OutOfTime(cfg, queue, end);
            Kept(cfg, queue, at) == queue[i..j - 1] + queue[j..]
  {
    at := ReadingsAgainstTheYoungest(cfg, queue, start, end);
    KeptIsSandwiched(cfg, queue, at, start, end);
    KeptWithoutTheYoungest(cfg, queue, at, OutOfTime(cfg, queue, start), OutOfTime(cfg, queue, end));
  }

  lemma {:induction false} NeighboursAlike(queue: seq<Pooled>, i: nat, n: nat)
    requires i < n <= |queue| && forall k :: i <= k < n - 1 ==> queue[k] == queue[k + 1]
    ensures forall k :: i <= k < n ==> queue[k] == queue[i]
  {
    if n > i + 1 {
      NeighboursAlike(queue, i, n - 1);
      assert queue[n - 2] == queue[n - 1];
    }
  }

  /** Leaving out the last of a range and all before it gives a suffix only when the range is all the same. */
  lemma SuffixMakesAlike(queue: seq<Pooled>, i: nat, j: nat)
    requires i < j <= |queue|
    ensures IsSuffix(queue[i..j - 1] + queue[j..], queue) ==> Alike(queue[i..j])
  {
    var xs := queue[i..j - 1] + queue[j..];
    if IsSuffix(xs, queue) {
      assert xs == queue[i + 1..];
      forall k | i <= k < j - 1 ensures queue[k] == queue[k + 1] {
        assert xs[k - i] == queue[k] && queue[i + 1..][k - i] == queue[k + 1];
      }
      NeighboursAlike(queue, i, j);
    }
  }

  lemma CanKeepNoSuffix(cfg: Config, queue: seq<Pooled>, start: nat, end: nat) returns (at: nat -> nat)
    requires Ordered(queue, start) && start <= end && |queue| <= cfg.maxSize
    requires OutOfTime(cfg, queue, start) <= OutOfTime(cfg, queue, end)
    requires !Alike(queue[OutOfTime(cfg, queue, start)..OutOfTime(cfg, queue, end)])
    ensures Within(at, start, end) && !IsSuffix(Kept(cfg, queue, at), queue)
  {
    at := CanDropTheYoungest(cfg, queue, start, end);
    SuffixMakesAlike(queue, OutOfTime(cfg, queue, start), OutOfTime(cfg, queue, end));
  }

  lemma KeepsSuffixExactlyWhen(cfg: Config, queue: seq<Pooled>, start: nat, end: nat)
    requires Ordered(queue, start) && start <= end && |queue| <= cfg.maxSize
    ensures OutOfTime(cfg, queue, start) <= OutOfTime(cfg, queue, end)
    ensures (forall at :: Within(at, start, end) ==> IsSuffix(Kept(cfg, queue, at), queue)) <==>
            Alike(queue[OutOfTime(cfg, queue, start)..OutOfTime(cfg, queue, end)])
  {
    OutOfTimeGrows(cfg, queue, start, end, start);
    if Alike(queue[OutOfTime(cfg, queue, start)..OutOfTime(cfg, queue, end)]) {
      forall at | Within(at, start, end) ensures IsSuffix(Kept(cfg, queue, at), queue) {
        KeepsSuffix(cfg, queue, at, start, end);
      }
    } else {
      var at := CanKeepNoSuffix(cfg, queue, start, end);
      assert Within(at, start, end);
    }
  }

  /** In every reachable pool `maintain` removes exactly a front part, whatever its readings between `start`
      and `end`, if and only if the entries that run out of time in between are all the same: none, one, or
      copies of one agent released at one instant. */
  lemma RemovesPrefixExactlyWhen(cfg: Config, calls: seq<Call>, start: nat, end: nat)
    requires cfg.Valid() && ClockAscends(calls) && Clock(calls) <= start <= end
    ensures var queue := Run(cfg, calls).queue;
            var i, j := OutOfTime(cfg, queue, start), OutOfTime(cfg, queue, end);
            && i <= j
            && ((forall at :: Within(at, start, end) ==> IsSuffix(Kept(cfg, queue, at), queue)) <==> Alike(queue[i..j]))
  {
    EveryRunKeepsInv(cfg, calls);
    KeepsSuffixExactlyWhen(cfg, Run(cfg, calls).queue, start, end);
  }

  /** In every reachable pool `maintain` keeps every agent still in time at its end and none whose time
      was up at its start. */
  lemma MaintainRemovesOnlyOldAgents(cfg: Config, calls: seq<Call>, c: Call)
    requires cfg.Valid() && ClockAscends(calls) && Clock(calls) <= c.start && Timely(c)
    ensures var s := Run(cfg, calls);
            var kept := Maintained(cfg, s, c.at).queue;
            && IsSuffix(s.queue[OutOfTime(cfg, s.queue, c.end)..], kept)
            && |kept| <= |s.queue| - OutOfTime(cfg, s.queue, c.start)
  {
    EveryRunKeepsInv(cfg, calls);
    var queue := Run(cfg, calls).queue;
    KeptIsSandwiched(cfg, queue, c.at, c.start, c.end);
    KeptFrom(cfg, queue, c.at, OutOfTime(cfg, queue, c.start), OutOfTime(cfg, queue, c.end));
  }

  lemma {:induction false} KeptFrom(cfg: Config, queue: seq<Pooled>, at: nat -> nat, i: nat, n: nat)
    requires i <= n <= |queue| && Kept(cfg, queue[..i], at) == []
    ensures |Kept(cfg, queue[..n], at)| <= n - i
  {
    if n > i {
      KeptFrom(cfg, queue, at, i, n - 1);
      assert queue[..n][..n - 1] == queue[..n - 1];
    }
  }

  /** In every reachable pool `acquire` destroys the agents before the first usable one and hands that
      one out; it passes over none still in time at its end and stops at none whose time was up at its
      start. */
  lemma AcquireHandsOutTheOldest(cfg: Config, calls: seq<Call>, c: Call, newId: AgentId)
    requires cfg.Valid() && ClockAscends(calls) && Clock(calls) <= c.start && Timely(c)
    ensures var s := Run(cfg, calls);
            var k := FirstUsable(cfg, s.queue, c.at, 0);
            var (s', a) := Acquired(cfg, s, newId, c.at);
            && OutOfTime(cfg, s.queue, c.start) <= k <= OutOfTime(cfg, s.queue, c.end)
            && (k < |s.queue| ==> a == s.queue[k].agent && s'.queue == s.queue[k + 1..])
            && (k == |s.queue| ==> a == newId && s'.queue == [])
  {
    EveryRunKeepsInv(cfg, calls);
    PrefixBetween(cfg, Run(cfg, calls).queue, c.at, c.start, c.end);
  }

  lemma PrefixBetween(cfg: Config, queue: seq<Pooled>, at: nat -> nat, start: nat, end: nat)
    requires Ordered(queue, start) && Within(at, start, end)
    ensures OutOfTime(cfg, queue, start) <= FirstUsable(cfg, queue, at, 0) <= OutOfTime(cfg, queue, end)
  {
    UsabilityBetween(cfg, queue, at, start, end);
    FirstUsableBetween(cfg, queue, at, OutOfTime(cfg, queue, start), OutOfTime(cfg, queue, end));
  }

  lemma FirstUsableBetween(cfg: Config, queue: seq<Pooled>, at: nat -> nat, i: nat, j: nat)
    requires i <= j <= |queue| && (forall k: nat :: k < i ==> !Usable(cfg, queue[k], at, k))
    requires forall k: nat :: j <= k < |queue| ==> Usable(cfg, queue[k], at, k)
    ensures i <= FirstUsable(cfg, queue, at, 0) <= j
  {
    var k := FirstUsable(cfg, queue, at, 0);
    assert k < |queue| ==> Usable(cfg, queue[k], at, k);
    if j < |queue| {
      assert Usable(cfg, queue[j], at, j);
    }
  }

  // ---------------------------------------------------------------- real ages

  /** The age limit is met at every instant at which the agent may be handed out, if and only if its
      age when it was last released leaves room for the shorter of the two limits: after any time in
      use, an agent whose idle limit is no shorter than its age limit can be handed out too old. */
  lemma AgeIsBoundedExactlyWhen(cfg: Config, calls: seq<Call>, i: nat)
    requires cfg.Valid() && ClockAscends(calls) && i < |Run(cfg, calls).queue|
    ensures var s := Run(cfg, calls);
            var p := s.queue[i];
            && p.agent in s.births && s.births[p.agent] <= p.lastUsed
            && ((forall now: nat :: now >= p.lastUsed && InTime(cfg, p, now) ==> now - s.births[p.agent] <= cfg.maxAge) <==>
                p.lastUsed - s.births[p.agent] + cfg.Limit() <= cfg.maxAge)
  {
    EveryRunKeepsInv(cfg, calls);
    var p := Run(cfg, calls).queue[i];
    assert InTime(cfg, p, p.lastUsed + cfg.Limit());
  }

  /** Usable at one instant means within the smaller of the two limits of the last release. */
  lemma MaxAgeIsAnIdleLimit(cfg: Config, calls: seq<Call>, now: nat, i: nat, k: nat)
    requires cfg.Valid() && ClockAscends(calls) && i < |Run(cfg, calls).queue|
    ensures Usable(cfg, Run(cfg, calls).queue[i], _ => now, k) <==> InTime(cfg, Run(cfg, calls).queue[i], now)
  {
    EveryRunKeepsInv(cfg, calls);
  }

  /** A call that reads the clock at one instant. */
  function CallAt(op: Op, now: nat): (c: Call) { Call(op, now, now, _ => now) }

  /** For every configuration an agent older than `max_age` is handed out: made at 0, used until one
      past the limit, released and acquired again at once. */
  lemma OldAgentIsHandedOut(cfg: Config)
    requires cfg.Valid()
    ensures var late := cfg.maxAge + 1;
            var calls := [CallAt(DoAcquire(7), 0), CallAt(DoRelease(7, L.Running, 0), late)];
            var s := Run(cfg, calls);
            && ClockAscends(calls) && s.births == map[7 := 0]
            && Acquired(cfg, s, 8, _ => late).1 == 7 && late - s.births[7] > cfg.maxAge
  {
    var late := cfg.maxAge + 1;
    var first, second := CallAt(DoAcquire(7), 0), CallAt(DoRelease(7, L.Running, 0), late);
    var calls := [first, second];
    assert calls[..1] == [first] && [first][..0] == [];
    assert Run(cfg, [first]) == Acquired(cfg, NEW_POOL, 7, first.at).0;
    var s := Run(cfg, calls);
    assert s == After(cfg, [first], second) == Released(cfg, Run(cfg, [first]), 7, L.Running, 0, late);
    assert s.queue == [Pooled(7, late, late)];
    assert Usable(cfg, s.queue[0], _ => late, 0);
  }

  // ---------------------------------------------------------------- the object

  class Pools {
    const cfg: Config
    var queue: seq<Pooled>
    var stats: Stats
    var nextAgent: AgentId
    ghost var births: map<AgentId, nat>
    ghost var calls: seq<Call>

    ghost function View(): Pool
      reads this
    {
      Pool(queue, stats, births)
    }

    ghost predicate Valid()
      reads this
    {
      cfg.Valid() && View() == Run(cfg, calls)
    }

    constructor (cfg: Config)
      requires cfg.Valid()
      ensures Valid() && calls == [] && this.cfg == cfg
    {
      this.cfg, queue, stats, nextAgent, births, calls := cfg, [], NEW_POOL.stats, 0, map[], [];
    }

    lemma Extends(c: Call)
      requires Valid()
      ensures Run(cfg, calls + [c]) == Step(cfg, View(), c)
    {
      assert (calls + [c])[..|calls|] == calls;
    }

    method Grow(p: Pooled)
      modifies this`queue, this`stats
      ensures View() == Grown(old(View()), p)
    {
      queue := queue + [p];
      stats := stats.(currentSize := |queue|);
      if |queue| > stats.peakSize {
        stats := stats.(peakSize := |queue|);
      }
    }

    method WarmUp(at: nat -> nat, ghost start: nat, ghost end: nat)
      requires Valid()
      modifies this
      ensures Valid() && calls == old(calls) + [Call(DoWarmUp(old(nextAgent)), start, end, at)]
      ensures |queue| >= cfg.minSize && old(queue) <= queue
    {
      ghost var c := Call(DoWarmUp(nextAgent), start, end, at);
      Extends(c);
      Fill(at);
      calls := calls + [c];
    }

    method Fill(at: nat -> nat)
      modifies this`queue, this`stats, this`births, this`nextAgent
      ensures View() == WarmedUp(cfg, old(View()), old(nextAgent), at)
      ensures |queue| >= cfg.minSize && old(queue) <= queue
    {
      ghost var warm := WarmedUp(cfg, View(), nextAgent, at);
      while |queue| < cfg.minSize
        invariant WarmedUp(cfg, View(), nextAgent, at) == warm && old(queue) <= queue
        decreases cfg.minSize - |queue|
      {
        FillOne(at);
      }
    }

    method FillOne(at: nat -> nat)
      requires |queue| < cfg.minSize
      modifies this`queue, this`stats, this`births, this`nextAgent
      ensures WarmedUp(cfg, View(), nextAgent, at) == WarmedUp(cfg, old(View()), old(nextAgent), at)
      ensures |queue| == |old(queue)| + 1 && old(queue) <= queue
    {
      WarmUpStep(cfg, View(), nextAgent, at);
      Create(at(|queue| + 1));
    }

    method Create(now: nat)
      modifies this`queue, this`stats, this`births, this`nextAgent
      ensures View() == Fresh(old(View()), old(nextAgent), now) && nextAgent == old(nextAgent) + 1
      ensures |queue| == |old(queue)| + 1 && old(queue) <= queue
    {
      Grow(Pooled(nextAgent, now, now));
      stats := stats.(created := stats.created + 1);
      births := Born(births, nextAgent, now);
      nextAgent := nextAgent + 1;
    }

    /** A hit is the first agent usable when looked at; a miss means there was none. */
    method Acquire(at: nat -> nat, ghost start: nat, ghost end: nat) returns (agent: AgentId, hit: bool)
      requires Valid()
      modifies this
      ensures Valid() && calls == old(calls) + [Call(DoAcquire(old(nextAgent)), start, end, at)]
      ensures hit <==> exists i :: 0 <= i < |old(queue)| && Usable(cfg, old(queue)[i], at, i)
      ensures agent == Acquired(cfg, old(View()), old(nextAgent), at).1
      ensures !hit ==> agent == old(nextAgent) && queue == []
    {
      ghost var c := Call(DoAcquire(nextAgent), start, end, at);
      Extends(c);
      agent, hit := Hand(at);
      calls := calls + [c];
    }

    method Hand(at: nat -> nat) returns (agent: AgentId, hit: bool)
      modifies this`queue, this`stats, this`nextAgent, this`births
      ensures (View(), agent) == Acquired(cfg, old(View()), old(nextAgent), at)
      ensures hit <==> exists i :: 0 <= i < |old(queue)| && Usable(cfg, old(queue)[i], at, i)
      ensures !hit ==> agent == old(nextAgent) && queue == []
    {
      ghost var k := FirstUsable(cfg, queue, at, 0);
      stats := stats.(acquired := stats.acquired + 1);
      var i := 0;
      while queue != []
        invariant i <= k && queue == old(queue)[i..]
        invariant stats == old(stats).(acquired := old(stats).acquired + 1, destroyed := old(stats).destroyed + i,
                                       currentSize := if i > 0 then |queue| else old(stats).currentSize)
        invariant births == old(births) && nextAgent == old(nextAgent)
        decreases |queue|
      {
        var pooled := queue[0];
        queue := queue[1..];
        assert i < k ==> !Usable(cfg, old(queue)[i], at, i);
        if Usable(cfg, pooled, at, i) {
          stats := stats.(currentSize := |queue|);
          assert i == k && pooled == old(queue)[k];
          return pooled.agent, true;
        }
        stats := stats.(destroyed := stats.destroyed + 1, currentSize := |queue|);
        i := i + 1;
      }
      assert forall j :: 0 <= j < k ==> !Usable(cfg, old(queue)[j], at, j);
      stats := stats.(misses := stats.misses + 1, created := stats.created + 1);
      births := Born(births, nextAgent, at(2 * i));
      agent := nextAgent;
      nextAgent := nextAgent + 1;
      hit := false;
    }

    method Release(agent: AgentId, state: L.AgentState, now: nat, ghost born: nat)
      requires Valid()
      modifies this
      ensures Valid() && calls == old(calls) + [CallAt(DoRelease(agent, state, born), now)]
      ensures queue == if |old(queue)| < cfg.maxSize && state != L.Terminated && state != L.Error
                       then old(queue) + [Pooled(agent, now, now)] else old(queue)
    {
      ghost var c := CallAt(DoRelease(agent, state, born), now);
      Extends(c);
      PutBack(agent, state, now, born);
      calls := calls + [c];
    }

    method PutBack(agent: AgentId, state: L.AgentState, now: nat, ghost born: nat)
      modifies this`queue, this`stats, this`births
      ensures View() == Released(cfg, old(View()), agent, state, born, now)
    {
      stats := stats.(returned := stats.returned + 1);
      births := Born(births, agent, born);
      if |queue| >= cfg.maxSize {
        stats := stats.(destroyed := stats.destroyed + 1);
        return;
      }
      if state == L.Terminated || state == L.Error {
        stats := stats.(destroyed := stats.destroyed + 1);
        return;
      }
      Grow(Pooled(agent, now, now));
    }

    method Clear(ghost now: nat)
      requires Valid()
      modifies this
      ensures Valid() && calls == old(calls) + [CallAt(DoClear, now)] && queue == []
    {
      ghost var c := CallAt(DoClear, now);
      Extends(c);
      calls := calls + [c];
      stats := stats.(destroyed := stats.destroyed + |queue|, currentSize := 0);
      queue := [];
    }

    /** With a clock that has not run back, every agent still in time at the end stays, and none whose
        time was up at the start does. */
    method Maintain(at: nat -> nat, ghost start: nat, ghost end: nat)
      requires Valid()
      modifies this
      ensures Valid() && calls == old(calls) + [Call(DoMaintain, start, end, at)]
      ensures old(ClockAscends(calls)) && old(Clock(calls)) <= start <= end && Within(at, start, end) ==>
                && IsSuffix(old(queue)[OutOfTime(cfg, old(queue), end)..], queue)
                && |queue| <= |old(queue)| - OutOfTime(cfg, old(queue), start)
    {
      ghost var c := Call(DoMaintain, start, end, at);
      Extends(c);
      if ClockAscends(calls) && Clock(calls) <= start && Timely(c) {
        MaintainRemovesOnlyOldAgents(cfg, calls, c);
      }
      var kept, removed := Sift(at);
      stats := stats.(destroyed := stats.destroyed + removed, currentSize := |kept|);
      queue := kept;
      calls := calls + [c];
    }

    /** The loop of `maintain`. */
    method Sift(at: nat -> nat) returns (kept: seq<Pooled>, removed: nat)
      ensures kept == Kept(cfg, queue, at) && removed == |queue| - |kept|
    {
      kept, removed := [], 0;
      for i := 0 to |queue|
        invariant kept == Kept(cfg, queue[..i], at) && removed == i - |kept|
      {
        assert queue[..i + 1][..i] == queue[..i];
        var pooled := queue[i];
        if !Usable(cfg, pooled, at, i) {
          removed := removed + 1;
        } else if |kept| < cfg.minSize || |kept| < cfg.maxSize {
          kept := kept + [pooled];
        } else {
          removed := removed + 1;
        }
      }
      assert queue[..|queue|] == queue;
    }
  }
}
