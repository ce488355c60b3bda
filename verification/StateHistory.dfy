/** The state history of an agent: completed visits, transition statistics and their aggregate.  A run
    is the list of recorded states, each with the two readings of the clock its call makes: one ends
    the visit before, a later one begins its own. */
module StateHistory {
  import opened Basics
  import L = AgentLifecycle

  type AgentState = L.AgentState

  type AgentId = nat

  datatype Visit = Visit(
    state: AgentState,
    enteredAt: nat,
    exitedAt: Option<nat>,
    duration: Option<nat>,
    previous: Option<AgentState>)

  datatype Stats = Stats(
    total: nat,
    timeIn: map<AgentState, nat>,
    counts: map<AgentState, map<AgentState, nat>>)

  /** A limit of zero entries means no limit. */
  datatype Config = Config(maxEntries: nat, computeStats: bool)

  datatype History = History(entries: seq<Visit>, stats: Stats, current: Option<Visit>)

  const NO_STATS: Stats := Stats(0, map[], map[])
  const EMPTY: History := History([], NO_STATS, None)

  // ---------------------------------------------------------------- tables

  function Get(m: map<AgentState, nat>, k: AgentState): (n: nat) { if k in m then m[k] else 0 }

  function Row(c: map<AgentState, map<AgentState, nat>>, k: AgentState): (m: map<AgentState, nat>) {
    if k in c then c[k] else map[]
  }

  function Bumped(m: map<AgentState, nat>, k: AgentState, n: nat): (m': map<AgentState, nat>) {
    m[k := Get(m, k) + n]
  }

  // ---------------------------------------------------------------- the operations

  /** `StateStatistics::record_transition`. */
  function Noted(s: Stats, a: AgentState, b: AgentState, duration: nat): (s': Stats) {
    Stats(s.total + 1, Bumped(s.timeIn, a, duration), s.counts[a := Bumped(Row(s.counts, a), b, 1)])
  }

  /** A visit that ends; a clock that ran back leaves it without a duration. */
  function Completed(v: Visit, at: nat): (v': Visit) {
    v.(exitedAt := Some(at), duration := if at >= v.enteredAt then Some(at - v.enteredAt) else v.duration)
  }

  function Trimmed(cfg: Config, entries: seq<Visit>): (r: seq<Visit>) {
    if cfg.maxEntries > 0 && |entries| > cfg.maxEntries then entries[1..] else entries
  }

  /** The previous visit is closed, counted and stored, and a new one begins. */
  function Recorded(cfg: Config, h: History, c: Call): (h': History) {
    var closed :=
      if h.current.None? then h
      else
        var v := Completed(h.current.value, c.exit);
        History(Trimmed(cfg, h.entries + [v]),
                if cfg.computeStats && v.duration.Some? then Noted(h.stats, v.state, c.state, v.duration.value) else h.stats,
                None);
    var previous := if closed.entries == [] then None else Some(closed.entries[|closed.entries| - 1].state);
    closed.(current := Some(Visit(c.state, c.enter, None, None, previous)))
  }

  /** A recorded state, the reading that ends the visit before and the reading that begins this one. */
  datatype Call = Call(state: AgentState, exit: nat, enter: nat)

  function Run(cfg: Config, calls: seq<Call>): (h: History)
    decreases |calls|, 0
  {
    if calls == [] then EMPTY else After(cfg, calls[..|calls| - 1], calls[|calls| - 1])
  }

  /** One call after a run of others. */
  function After(cfg: Config, before: seq<Call>, c: Call): (h: History)
    decreases |before|, 1
  {
    Recorded(cfg, Run(cfg, before), c)
  }

  /** No visit ended before it began. */
  predicate Forward(calls: seq<Call>) {
    forall i :: 0 < i < |calls| ==> calls[i - 1].enter <= calls[i].exit
  }

  /** The clock never ran back, neither between calls nor within one. */
  predicate ClockAscends(calls: seq<Call>) {
    Forward(calls) && forall i :: 0 <= i < |calls| ==> calls[i].exit <= calls[i].enter
  }

  // ---------------------------------------------------------------- the visits in closed form

  function Before(calls: seq<Call>, i: nat): (p: Option<AgentState>)
    requires i < |calls|
  {
    if i == 0 then None else Some(calls[i - 1].state)
  }

  /** The visit the i-th call began, once the next call has ended it. */
  function VisitOf(calls: seq<Call>, i: nat): (v: Visit)
    requires i + 1 < |calls|
  {
    Visit(calls[i].state, calls[i].enter, Some(calls[i + 1].exit),
          if calls[i + 1].exit >= calls[i].enter then Some(calls[i + 1].exit - calls[i].enter) else None,
          Before(calls, i))
  }

  function Visits(calls: seq<Call>): (vs: seq<Visit>)
    requires calls != []
    ensures |vs| == |calls| - 1
  {
    seq(|calls| - 1, i requires 0 <= i < |calls| - 1 => VisitOf(calls, i))
  }

  /** A limit of zero is none. */
  function LastN<T>(xs: seq<T>, n: nat): (r: seq<T>) {
    if n == 0 then xs else Last(xs, n)
  }

  /** Trimming after each addition keeps the last `maxEntries`. */
  lemma TrimmedIsLast(cfg: Config, xs: seq<Visit>, v: Visit)
    ensures Trimmed(cfg, LastN(xs, cfg.maxEntries) + [v]) == LastN(xs + [v], cfg.maxEntries)
    ensures LastN(xs + [v], cfg.maxEntries) != []
    ensures LastN(xs + [v], cfg.maxEntries)[|LastN(xs + [v], cfg.maxEntries)| - 1] == v
  {
  }

  lemma VisitsSnoc(calls: seq<Call>)
    requires |calls| >= 2
    ensures Visits(calls) == Visits(calls[..|calls| - 1]) + [VisitOf(calls, |calls| - 2)]
  {
  }

  /** The stored entries are the last `maxEntries` visits, and the current one is the last call's. */
  lemma {:induction false} EntriesAreLastVisits(cfg: Config, calls: seq<Call>)
    requires calls != []
    ensures Run(cfg, calls).entries == LastN(Visits(calls), cfg.maxEntries)
    ensures var n := |calls| - 1;
            Run(cfg, calls).current == Some(Visit(calls[n].state, calls[n].enter, None, None, Before(calls, n)))
  {
    var n := |calls| - 1;
    var rest := calls[..n];
    if n == 0 {
      assert Run(cfg, rest) == EMPTY;
      assert Visits(calls) == [];
    } else {
      EntriesAreLastVisits(cfg, rest);
      VisitsSnoc(calls);
      TrimmedIsLast(cfg, Visits(rest), VisitOf(calls, n - 1));
      assert Completed(Run(cfg, rest).current.value, calls[n].exit) == VisitOf(calls, n - 1);
    }
  }

  /** Stored visits follow each other: each names the state of the one before. */
  predicate Chained(vs: seq<Visit>) {
    forall i :: 0 < i < |vs| ==> vs[i].previous == Some(vs[i - 1].state)
  }

  /** The first visit ended before the second began. */
  predicate Precedes(v: Visit, w: Visit) { v.exitedAt.Some? && v.exitedAt.value <= w.enteredAt }

  /** No stored visit begins before the one before it ended. */
  predicate Disjoint(vs: seq<Visit>) {
    forall i :: 0 < i < |vs| ==> Precedes(vs[i - 1], vs[i])
  }

  /** A visit that ended after it began, with that much time in between. */
  predicate Lasting(v: Visit) {
    v.exitedAt.Some? && v.enteredAt <= v.exitedAt.value && v.duration == Some(v.exitedAt.value - v.enteredAt)
  }

  lemma VisitsAreChained(calls: seq<Call>)
    requires calls != []
    ensures Chained(Visits(calls))
    ensures ClockAscends(calls) ==> Disjoint(Visits(calls))
  {
    var vs := Visits(calls);
    forall i | 0 < i < |vs|
      ensures vs[i].previous == Some(vs[i - 1].state)
      ensures ClockAscends(calls) ==> Precedes(vs[i - 1], vs[i])
    {
      assert vs[i] == VisitOf(calls, i) && vs[i - 1] == VisitOf(calls, i - 1);
    }
  }

  lemma VisitsLast(calls: seq<Call>, i: nat)
    requires Forward(calls) && i + 1 < |calls|
    ensures Lasting(Visits(calls)[i])
  {
    var j := i + 1;
    assert calls[j - 1].enter <= calls[j].exit;
    assert Visits(calls)[i] == VisitOf(calls, i);
  }

  lemma SuffixIsChained(vs: seq<Visit>, d: nat)
    requires Chained(vs) && d <= |vs|
    ensures Chained(vs[d..])
    ensures Disjoint(vs) ==> Disjoint(vs[d..])
  {
    forall i | 0 < i < |vs[d..]|
      ensures vs[d..][i].previous == Some(vs[d..][i - 1].state)
      ensures Disjoint(vs) ==> Precedes(vs[d..][i - 1], vs[d..][i])
    {
      var j := d + i;
      assert vs[d..][i] == vs[j] && vs[d..][i - 1] == vs[j - 1];
    }
  }

  /** The stored visits are chained whatever the clock does.  With a clock that never runs back they
      do not overlap, and they carry their durations. */
  lemma EntriesAreChained(cfg: Config, calls: seq<Call>)
    requires calls != []
    ensures Chained(Run(cfg, calls).entries)
    ensures ClockAscends(calls) ==> Disjoint(Run(cfg, calls).entries)
    ensures Forward(calls) ==> forall i :: 0 <= i < |Run(cfg, calls).entries| ==> Lasting(Run(cfg, calls).entries[i])
  {
    EntriesAreLastVisits(cfg, calls);
    VisitsAreChained(calls);
    var vs, es := Visits(calls), Run(cfg, calls).entries;
    var d := |vs| - |es|;
    assert es == vs[d..];
    SuffixIsChained(vs, d);
    if Forward(calls) {
      forall i | 0 <= i < |es| ensures Lasting(es[i]) {
        VisitsLast(calls, d + i);
      }
    }
  }

  // ---------------------------------------------------------------- sums over tables

  ghost function MapSum<K>(m: map<K, nat>): (s: nat) {
    if m == map[] then 0
    else
      var k :| k in m;
      MapSum(m - {k}) + m[k]
  }

  /** Whichever key is taken out, the rest and its value make the sum. */
  lemma {:induction false} MapSumWithout<K>(m: map<K, nat>, k: K)
    requires k in m
    ensures MapSum(m) == MapSum(m - {k}) + m[k]
    decreases |m|
  {
    var j :| j in m && MapSum(m) == MapSum(m - {j}) + m[j];
    if j != k {
      MapSumWithout(m - {j}, k);
      MapSumWithout(m - {k}, j);
      assert m - {j} - {k} == m - {k} - {j};
    }
  }

  lemma MapSumInsert<K>(m: map<K, nat>, k: K, v: nat)
    ensures MapSum(m[k := v]) == MapSum(m - {k}) + v
    ensures k !in m ==> MapSum(m[k := v]) == MapSum(m) + v
  {
    MapSumWithout(m[k := v], k);
    assert m[k := v] - {k} == m - {k};
    if k !in m {
      assert m - {k} == m;
    }
  }

  lemma SumOfBumped(m: map<AgentState, nat>, k: AgentState, n: nat)
    ensures MapSum(Bumped(m, k, n)) == MapSum(m) + n
  {
    MapSumInsert(m, k, Get(m, k) + n);
    if k in m {
      MapSumWithout(m, k);
    }
  }

  ghost function RowSums(c: map<AgentState, map<AgentState, nat>>): (m: map<AgentState, nat>) {
    map a | a in c :: MapSum(c[a])
  }

  lemma RowSumsOfUpdate(c: map<AgentState, map<AgentState, nat>>, a: AgentState, row: map<AgentState, nat>)
    ensures RowSums(c[a := row]) == RowSums(c)[a := MapSum(row)]
  {
  }

  lemma SumOfBumpedRow(c: map<AgentState, map<AgentState, nat>>, a: AgentState, b: AgentState)
    ensures MapSum(RowSums(c[a := Bumped(Row(c, a), b, 1)])) == MapSum(RowSums(c)) + 1
  {
    SumOfBumped(Row(c, a), b, 1);
    RowSumsOfUpdate(c, a, Bumped(Row(c, a), b, 1));
    MapSumInsert(RowSums(c), a, MapSum(Row(c, a)) + 1);
    if a in c {
      MapSumWithout(RowSums(c), a);
    } else {
      assert MapSum(Row(c, a)) == 0;
    }
  }

  // ---------------------------------------------------------------- statistics in closed form

  /** The visit the i-th call ended did not end before it began. */
  predicate Timed(calls: seq<Call>, i: nat)
    requires 0 < i < |calls|
  {
    calls[i - 1].enter <= calls[i].exit
  }

  function TimedSteps(calls: seq<Call>): (n: nat)
    ensures calls == [] ==> n == 0
    ensures calls != [] ==> n <= |calls| - 1
  {
    if |calls| <= 1 then 0
    else TimedSteps(calls[..|calls| - 1]) + if Timed(calls, |calls| - 1) then 1 else 0
  }

  /** How often the run went from `a` to `b`. */
  function PairCount(calls: seq<Call>, a: AgentState, b: AgentState): (n: nat) {
    if |calls| <= 1 then 0
    else
      var i := |calls| - 1;
      PairCount(calls[..i], a, b) + if Timed(calls, i) && calls[i - 1].state == a && calls[i].state == b then 1 else 0
  }

  function TimeSpent(calls: seq<Call>, a: AgentState): (t: nat) {
    if |calls| <= 1 then 0
    else
      var i := |calls| - 1;
      TimeSpent(calls[..i], a) + if Timed(calls, i) && calls[i - 1].state == a then calls[i].exit - calls[i - 1].enter else 0
  }

  /** Every number of the statistics, against its meaning for the run. */
  ghost predicate StatsMean(calls: seq<Call>, s: Stats) {
    && s.total == TimedSteps(calls)
    && (forall a, b :: Get(Row(s.counts, a), b) == PairCount(calls, a, b))
    && (forall a :: Get(s.timeIn, a) == TimeSpent(calls, a))
    && MapSum(RowSums(s.counts)) == s.total
  }

  lemma NotedPair(s: Stats, x: AgentState, y: AgentState, time: nat, a: AgentState, b: AgentState)
    ensures Get(Row(Noted(s, x, y, time).counts, a), b) == Get(Row(s.counts, a), b) + if a == x && b == y then 1 else 0
  {
  }

  lemma NotedTime(s: Stats, x: AgentState, y: AgentState, time: nat, a: AgentState)
    ensures Get(Noted(s, x, y, time).timeIn, a) == Get(s.timeIn, a) + if a == x then time else 0
  {
  }

  lemma NotedMeans(calls: seq<Call>, s: Stats)
    requires |calls| >= 2 && Timed(calls, |calls| - 1) && StatsMean(calls[..|calls| - 1], s)
    ensures var i := |calls| - 1;
            StatsMean(calls, Noted(s, calls[i - 1].state, calls[i].state, calls[i].exit - calls[i - 1].enter))
  {
    var i := |calls| - 1;
    var x, y, time := calls[i - 1].state, calls[i].state, calls[i].exit - calls[i - 1].enter;
    var s' := Noted(s, x, y, time);
    SumOfBumpedRow(s.counts, x, y);
    forall a, b ensures Get(Row(s'.counts, a), b) == PairCount(calls, a, b) {
      NotedPair(s, x, y, time, a, b);
      assert Get(Row(s.counts, a), b) == PairCount(calls[..i], a, b);
    }
    forall a ensures Get(s'.timeIn, a) == TimeSpent(calls, a) {
      NotedTime(s, x, y, time, a);
      assert Get(s.timeIn, a) == TimeSpent(calls[..i], a);
    }
  }

  /** The visit under way began with the last call. */
  lemma CurrentIsLatest(cfg: Config, calls: seq<Call>)
    requires calls != []
    ensures var current, c := Run(cfg, calls).current, calls[|calls| - 1];
            current.Some? && current.value.state == c.state && current.value.enteredAt == c.enter &&
            current.value.duration.None?
  {
  }

  lemma RecordingNotes(cfg: Config, h: History, c: Call)
    requires h.current.Some? && h.current.value.duration.None?
    ensures var v := h.current.value;
            Recorded(cfg, h, c).stats ==
              if cfg.computeStats && v.enteredAt <= c.exit then Noted(h.stats, v.state, c.state, c.exit - v.enteredAt)
              else h.stats
  {
  }

  /** What one more call does to the statistics. */
  lemma RecordedStats(cfg: Config, calls: seq<Call>)
    requires calls != []
    ensures var n := |calls| - 1;
            var before := Run(cfg, calls[..n]).stats;
            Run(cfg, calls).stats ==
              if cfg.computeStats && n > 0 && Timed(calls, n)
              then Noted(before, calls[n - 1].state, calls[n].state, calls[n].exit - calls[n - 1].enter) else before
  {
    var n := |calls| - 1;
    if n > 0 {
      CurrentIsLatest(cfg, calls[..n]);
      RecordingNotes(cfg, Run(cfg, calls[..n]), calls[n]);
      assert calls[..n][n - 1] == calls[n - 1];
    } else {
      assert Run(cfg, calls[..n]) == EMPTY;
    }
  }

  lemma {:induction false} StatisticsAreExact(cfg: Config, calls: seq<Call>)
    requires cfg.computeStats
    ensures StatsMean(calls, Run(cfg, calls).stats)
  {
    if calls == [] {
      assert RowSums(map[]) == map[];
    } else {
      var n := |calls| - 1;
      StatisticsAreExact(cfg, calls[..n]);
      RecordedStats(cfg, calls);
      if n > 0 && Timed(calls, n) {
        NotedMeans(calls, Run(cfg, calls[..n]).stats);
      }
    }
  }

  /** The time that passed within the calls strictly between the first and the last: it belongs to no
      visit. */
  function Gaps(calls: seq<Call>): (t: int) {
    if |calls| <= 2 then 0 else Gaps(calls[..|calls| - 1]) + calls[|calls| - 2].enter - calls[|calls| - 2].exit
  }

  /** The times in all states and the time within the calls make up the time from the first entry to
      the last exit. */
  lemma {:induction false} TimeAddsUp(cfg: Config, calls: seq<Call>)
    requires cfg.computeStats && |calls| >= 2 && Forward(calls)
    ensures MapSum(Run(cfg, calls).stats.timeIn) + Gaps(calls) == calls[|calls| - 1].exit - calls[0].enter
    ensures TimedSteps(calls) == |calls| - 1
  {
    var n := |calls| - 1;
    var rest := calls[..n];
    RecordedStats(cfg, calls);
    assert Timed(calls, n);
    SumOfBumped(Run(cfg, rest).stats.timeIn, calls[n - 1].state, calls[n].exit - calls[n - 1].enter);
    if n == 1 {
      RecordedStats(cfg, rest);
      assert rest[..0] == [] && Run(cfg, rest).stats == NO_STATS;
    } else {
      TimeAddsUp(cfg, rest);
    }
  }

  /** At every call strictly between the first and the last the two readings agree. */
  predicate ReadingsAgree(calls: seq<Call>) {
    forall i :: 0 < i < |calls| - 1 ==> calls[i].exit == calls[i].enter
  }

  lemma {:induction false} NoGapsExactlyWhen(calls: seq<Call>)
    requires ClockAscends(calls)
    ensures Gaps(calls) >= 0
    ensures Gaps(calls) == 0 <==> ReadingsAgree(calls)
  {
    if |calls| > 2 {
      var rest := calls[..|calls| - 1];
      NoGapsExactlyWhen(rest);
      assert ReadingsAgree(calls) <==> ReadingsAgree(rest) && calls[|calls| - 2].exit == calls[|calls| - 2].enter by {
        assert forall i :: 0 <= i < |rest| ==> rest[i] == calls[i];
      }
    }
  }

  lemma {:induction false} AllTimedMeansForward(calls: seq<Call>)
    requires calls != [] && TimedSteps(calls) == |calls| - 1
    ensures Forward(calls)
  {
    if |calls| > 1 {
      AllTimedMeansForward(calls[..|calls| - 1]);
    }
  }

  // ---------------------------------------------------------------- main result on one history

  /** After any nonempty run with statistics on: the total is the sum of all transition counts, and it
      is the number of calls minus one if and only if no visit ended before it began.  With a clock
      that never runs back the times in all states add up to at most the time from the first entry to
      the last exit, and to exactly that if and only if the two readings agree at every call strictly
      between the first and the last. */
  lemma TotalsAreConsistent(cfg: Config, calls: seq<Call>)
    requires cfg.computeStats && calls != []
    ensures var s := Run(cfg, calls).stats;
            && s.total == MapSum(RowSums(s.counts))
            && (s.total == |calls| - 1 <==> Forward(calls))
            && (|calls| >= 2 && ClockAscends(calls) ==>
                  var span := calls[|calls| - 1].exit - calls[0].enter;
                  MapSum(s.timeIn) <= span && (MapSum(s.timeIn) == span <==> ReadingsAgree(calls)))
  {
    StatisticsAreExact(cfg, calls);
    if |calls| >= 2 && Forward(calls) {
      TimeAddsUp(cfg, calls);
      if ClockAscends(calls) {
        NoGapsExactlyWhen(calls);
      }
    } else if TimedSteps(calls) == |calls| - 1 {
      AllTimedMeansForward(calls);
    }
  }

  /** Two readings apart by one lose one: three calls whose times add up to 9 of 10. */
  lemma TimeIsLostBetweenReadings(a: AgentState)
    ensures var calls := [Call(a, 0, 0), Call(a, 5, 6), Call(a, 10, 10)];
            && ClockAscends(calls)
            && MapSum(Run(Config(0, true), calls).stats.timeIn) == 9
            && calls[2].exit - calls[0].enter == 10
  {
    var calls := [Call(a, 0, 0), Call(a, 5, 6), Call(a, 10, 10)];
    assert calls[..2] == [Call(a, 0, 0), Call(a, 5, 6)];
    TimeAddsUp(Config(0, true), calls);
    assert Gaps(calls) == 1;
  }

  // ---------------------------------------------------------------- the aggregate

  ghost function Totals(hs: map<AgentId, Stats>, agents: set<AgentId>): (m: map<AgentId, nat>)
    requires agents <= hs.Keys
  {
    map a | a in agents :: hs[a].total
  }

  ghost function Times(hs: map<AgentId, Stats>, agents: set<AgentId>, s: AgentState): (m: map<AgentId, nat>)
    requires agents <= hs.Keys
  {
    map a | a in agents :: Get(hs[a].timeIn, s)
  }

  ghost function Pairs(hs: map<AgentId, Stats>, agents: set<AgentId>, x: AgentState, y: AgentState): (m: map<AgentId, nat>)
    requires agents <= hs.Keys
  {
    map a | a in agents :: Get(Row(hs[a].counts, x), y)
  }

  /** The statistics are the pointwise sums over a set of agents. */
  ghost predicate SumsOf(hs: map<AgentId, Stats>, agents: set<AgentId>, s: Stats)
    requires agents <= hs.Keys
  {
    && s.total == MapSum(Totals(hs, agents))
    && (forall x :: Get(s.timeIn, x) == MapSum(Times(hs, agents, x)))
    && (forall x, y :: Get(Row(s.counts, x), y) == MapSum(Pairs(hs, agents, x, y)))
  }

  /** One agent more adds its numbers everywhere. */
  lemma SumsOfOneMore(hs: map<AgentId, Stats>, agents: set<AgentId>, a: AgentId, s: Stats, s': Stats)
    requires agents <= hs.Keys && a in hs && a !in agents && SumsOf(hs, agents, s)
    requires s'.total == s.total + hs[a].total
    requires forall x :: Get(s'.timeIn, x) == Get(s.timeIn, x) + Get(hs[a].timeIn, x)
    requires forall x, y :: Get(Row(s'.counts, x), y) == Get(Row(s.counts, x), y) + Get(Row(hs[a].counts, x), y)
    ensures SumsOf(hs, agents + {a}, s')
  {
    assert Totals(hs, agents + {a}) == Totals(hs, agents)[a := hs[a].total];
    MapSumInsert(Totals(hs, agents), a, hs[a].total);
    forall x ensures Get(s'.timeIn, x) == MapSum(Times(hs, agents + {a}, x)) {
      assert Times(hs, agents + {a}, x) == Times(hs, agents, x)[a := Get(hs[a].timeIn, x)];
      MapSumInsert(Times(hs, agents, x), a, Get(hs[a].timeIn, x));
    }
    forall x, y ensures Get(Row(s'.counts, x), y) == MapSum(Pairs(hs, agents + {a}, x, y)) {
      assert Pairs(hs, agents + {a}, x, y) == Pairs(hs, agents, x, y)[a := Get(Row(hs[a].counts, x), y)];
      MapSumInsert(Pairs(hs, agents, x, y), a, Get(Row(hs[a].counts, x), y));
    }
  }

  method MergeTable(into: map<AgentState, nat>, m: map<AgentState, nat>) returns (r: map<AgentState, nat>)
    ensures forall x :: Get(r, x) == Get(into, x) + Get(m, x)
  {
    r := into;
    var rest := m.Keys;
    while rest != {}
      invariant rest <= m.Keys
      invariant forall x :: Get(r, x) == Get(into, x) + if x in rest then 0 else Get(m, x)
    {
      var k :| k in rest;
      rest := rest - {k};
      r := Bumped(r, k, m[k]);
    }
  }

  method MergeCounts(into: map<AgentState, map<AgentState, nat>>, c: map<AgentState, map<AgentState, nat>>)
    returns (r: map<AgentState, map<AgentState, nat>>)
    ensures forall x, y :: Get(Row(r, x), y) == Get(Row(into, x), y) + Get(Row(c, x), y)
  {
    r := into;
    var rest := c.Keys;
    while rest != {}
      invariant rest <= c.Keys
      invariant forall x, y :: Get(Row(r, x), y) == Get(Row(into, x), y) + if x in rest then 0 else Get(Row(c, x), y)
    {
      var k :| k in rest;
      rest := rest - {k};
      var row := MergeTable(Row(r, k), c[k]);
      r := r[k := row];
    }
  }

  /** In whatever order the histories are visited, the aggregate is their pointwise sum. */
  method AggregateStatistics(hs: map<AgentId, Stats>) returns (agg: Stats)
    ensures SumsOf(hs, hs.Keys, agg)
  {
    agg := NO_STATS;
    var rest := hs.Keys;
    ghost var done: set<AgentId> := {};
    while rest != {}
      invariant rest <= hs.Keys && done == hs.Keys - rest && SumsOf(hs, done, agg)
    {
      var a :| a in rest;
      rest := rest - {a};
      ghost var before := agg;
      var timeIn := MergeTable(agg.timeIn, hs[a].timeIn);
      var counts := MergeCounts(agg.counts, hs[a].counts);
      agg := Stats(agg.total + hs[a].total, timeIn, counts);
      SumsOfOneMore(hs, done, a, before, agg);
      done := done + {a};
    }
    assert done == hs.Keys;
  }

  // ---------------------------------------------------------------- the object

  class AgentHistory {
    const cfg: Config
    var entries: seq<Visit>
    var stats: Stats
    var current: Option<Visit>
    /** What was recorded since creation or the last clear. */
    ghost var calls: seq<Call>

    ghost function View(): History
      reads this
    {
      History(entries, stats, current)
    }

    ghost predicate Valid()
      reads this
    {
      View() == Run(cfg, calls)
    }

    constructor (cfg: Config)
      ensures Valid() && calls == [] && this.cfg == cfg
    {
      this.cfg, entries, stats, current, calls := cfg, [], NO_STATS, None, [];
    }

    method RecordTransition(state: AgentState, exit: nat, enter: nat)
      requires Valid()
      modifies this
      ensures Valid() && calls == old(calls) + [Call(state, exit, enter)]
      ensures entries == LastN(Visits(calls), cfg.maxEntries)
    {
      assert (calls + [Call(state, exit, enter)])[..|calls|] == calls;
      Advance(state, exit, enter);
      calls := calls + [Call(state, exit, enter)];
      EntriesAreLastVisits(cfg, calls);
    }

    method Advance(state: AgentState, exit: nat, enter: nat)
      modifies this`entries, this`stats, this`current
      ensures View() == Recorded(cfg, old(View()), Call(state, exit, enter))
    {
      if current.Some? {
        var v := current.value;
        v := v.(exitedAt := Some(exit));
        if exit >= v.enteredAt {
          v := v.(duration := Some(exit - v.enteredAt));
        }
        if cfg.computeStats && v.duration.Some? {
          stats := Noted(stats, v.state, state, v.duration.value);
        }
        entries := entries + [v];
        if cfg.maxEntries > 0 && |entries| > cfg.maxEntries {
          entries := entries[1..];
        }
      }
      var previous := None;
      if entries != [] {
        previous := Some(entries[|entries| - 1].state);
      }
      current := Some(Visit(state, enter, None, None, previous));
    }

    method Clear()
      modifies this
      ensures Valid() && calls == []
    {
      entries, stats, current, calls := [], NO_STATS, None, [];
    }
  }
}
