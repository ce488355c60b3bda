/** The migration rate limiter of `PolicyEvaluator`: a cooldown and an hourly counter.

    The clock is a parameter.  A run is the list of instants at which migrations were
    recorded, each at an instant when `migration_allowed` answered true. */
module MigrationRate {
  import opened Basics

  const HOUR: nat := 3600
  const MAX_COOLDOWN: nat := 86400
  const MAX_PER_HOUR: nat := 1000

  /** The two limits of a `MigrationPolicy`, as its `validate` bounds them. */
  datatype Limits = Limits(cooldown: nat, perHour: nat)
  {
    predicate Valid() { 0 < cooldown <= MAX_COOLDOWN && 0 < perHour <= MAX_PER_HOUR }
  }

  datatype Counters = Counters(last: Option<nat>, thisHour: nat, hourStart: nat)

  // ---------------------------------------------------------------- the two operations

  /** `migration_allowed` at instant `now`. */
  predicate Allowed(p: Limits, s: Counters, now: nat) {
    && (s.last.Some? ==> now - s.last.value >= p.cooldown)
    && !(now - s.hourStart < HOUR && s.thisHour >= p.perHour)
  }

  /** `record_migration` at instant `now`. */
  function Record(s: Counters, now: nat): (s': Counters) {
    if now - s.hourStart >= HOUR then Counters(Some(now), 1, now)
    else Counters(Some(now), s.thisHour + 1, s.hourStart)
  }

  /** Until a migration is recorded, an answer once true stays true: asking and recording may read the
      clock at different instants. */
  lemma AllowedStaysAllowed(p: Limits, s: Counters, asked: nat, now: nat)
    requires asked <= now && Allowed(p, s, asked)
    ensures Allowed(p, s, now)
  {
  }

  // ---------------------------------------------------------------- runs

  /** The counters of an evaluator created at `start` after migrations at `times`. */
  function After(start: nat, times: seq<nat>): (s: Counters) {
    if times == [] then Counters(None, 0, start)
    else Record(After(start, times[..|times| - 1]), times[|times| - 1])
  }

  /** The clock never runs back and every migration was allowed when it was recorded. */
  predicate LegalRun(p: Limits, start: nat, times: seq<nat>) {
    times == [] ||
    (var k := |times| - 1;
     && LegalRun(p, start, times[..k])
     && start <= times[k]
     && (k > 0 ==> times[k - 1] <= times[k])
     && Allowed(p, After(start, times[..k]), times[k]))
  }

  /** How many migrations fall in the half-open hour that begins at `x`. */
  function CountInHour(times: seq<nat>, x: nat): (n: nat) {
    if times == [] then 0
    else
      CountInHour(times[..|times| - 1], x) + if x <= times[|times| - 1] < x + HOUR then 1 else 0
  }

  /** The least number of cooldowns that cover an hour. */
  function CooldownsPerHour(p: Limits): (n: nat)
    requires p.Valid()
    ensures n >= 1
    ensures (n - 1) * p.cooldown < HOUR <= n * p.cooldown
  {
    var n := (HOUR - 1) / p.cooldown + 1;
    DivisionBounds(HOUR - 1, p.cooldown);
    n
  }

  lemma DivisionBounds(a: nat, d: nat)
    requires d > 0
    ensures (a / d) * d <= a < (a / d + 1) * d
  {
  }

  function RateBound(p: Limits): (n: nat)
    requires p.Valid()
    ensures n >= 1
  {
    if 2 * p.perHour <= CooldownsPerHour(p) then 2 * p.perHour else CooldownsPerHour(p)
  }

  // ---------------------------------------------------------------- invariants of a run

  /** The migrations counted in the current window are the last ones; the earlier ones are
      older than the window, and all but the last `perHour` of those are older by an hour. */
  predicate WindowInv(p: Limits, start: nat, times: seq<nat>) {
    var s := After(start, times);
    var k := |times|;
    && s.thisHour <= k && s.thisHour <= p.perHour && start <= s.hourStart
    && (k > 0 ==> s.thisHour >= 1 && s.last == Some(times[k - 1]))
    && (forall i :: 0 <= i < k && k - s.thisHour <= i ==> s.hourStart <= times[i] < s.hourStart + HOUR)
    && (forall i :: 0 <= i < k - s.thisHour ==> times[i] < s.hourStart)
    && (forall i :: 0 <= i < k - s.thisHour - p.perHour ==> times[i] + HOUR < s.hourStart)
  }

  lemma {:induction false} WindowInvHolds(p: Limits, start: nat, times: seq<nat>)
    requires p.Valid() && LegalRun(p, start, times)
    ensures WindowInv(p, start, times)
  {
    if times != [] {
      WindowInvHolds(p, start, times[..|times| - 1]);
    }
  }

  lemma {:induction false} TimesAscend(p: Limits, start: nat, times: seq<nat>, i: nat, j: nat)
    requires LegalRun(p, start, times) && i <= j < |times|
    ensures start <= times[i] <= times[j]
    decreases |times|, j - i
  {
    if j < |times| - 1 {
      TimesAscend(p, start, times[..|times| - 1], i, j);
    } else if i < j {
      TimesAscend(p, start, times[..|times| - 1], i, j - 1);
    }
  }

  /** Migrations are at least the cooldown apart, hence n apart by n cooldowns. */
  lemma {:induction false} CooldownsBetween(p: Limits, start: nat, times: seq<nat>, i: nat, j: nat)
    requires p.Valid() && LegalRun(p, start, times) && i <= j < |times|
    ensures times[j] - times[i] >= (j - i) * p.cooldown
    decreases |times|
  {
    var prefix := times[..|times| - 1];
    if j < |times| - 1 {
      CooldownsBetween(p, start, prefix, i, j);
    } else if i < j {
      CooldownsBetween(p, start, prefix, i, j - 1);
      WindowInvHolds(p, start, prefix);
      assert (j - i) * p.cooldown == (j - 1 - i) * p.cooldown + p.cooldown;
    }
  }

  /** Two migrations less than an hour apart have fewer than `2 * perHour` steps between them. */
  lemma {:induction false} WindowsBetween(p: Limits, start: nat, times: seq<nat>, i: nat, j: nat)
    requires p.Valid() && LegalRun(p, start, times) && i <= j < |times|
    requires times[j] - times[i] < HOUR
    ensures j - i + 1 <= 2 * p.perHour
    decreases |times|
  {
    if j < |times| - 1 {
      WindowsBetween(p, start, times[..|times| - 1], i, j);
    } else {
      WindowInvHolds(p, start, times);
    }
  }

  /** ... and fewer steps than cooldowns fit in an hour. */
  lemma SpanWithinBound(p: Limits, start: nat, times: seq<nat>, i: nat, j: nat)
    requires p.Valid() && LegalRun(p, start, times) && i <= j < |times|
    requires times[j] - times[i] < HOUR
    ensures j - i + 1 <= RateBound(p)
  {
    WindowsBetween(p, start, times, i, j);
    CooldownsBetween(p, start, times, i, j);
    var n := CooldownsPerHour(p);
    if j - i >= n {
      MulMonotone(n, j - i, p.cooldown);
    }
  }

  /** Migrations before index `i` are outside the hour, so at most the rest are inside. */
  lemma {:induction false} CountFrom(times: seq<nat>, x: nat, i: nat)
    requires i <= |times| && forall k :: 0 <= k < i ==> times[k] < x
    ensures CountInHour(times, x) <= |times| - i
  {
    if times != [] {
      var prefix := times[..|times| - 1];
      CountFrom(prefix, x, if i < |times| then i else i - 1);
    }
  }

  // ---------------------------------------------------------------- main results

  /** In every run: consecutive migrations are a cooldown apart, the hourly counter never
      exceeds its limit, and every half-open hour, wherever it begins, holds at most
      min(2 * limit, ceil(3600 / cooldown)) migrations. */
  lemma {:induction false} RateIsBounded(p: Limits, start: nat, times: seq<nat>, x: nat)
    requires p.Valid() && LegalRun(p, start, times)
    ensures forall i :: 0 < i < |times| ==> times[i] - times[i - 1] >= p.cooldown
    ensures After(start, times).thisHour <= p.perHour
    ensures CountInHour(times, x) <= RateBound(p)
  {
    CooldownKept(p, start, times);
    WindowInvHolds(p, start, times);
    HourWithinBound(p, start, times, x);
  }

  lemma CooldownKept(p: Limits, start: nat, times: seq<nat>)
    requires p.Valid() && LegalRun(p, start, times)
    ensures forall i :: 0 < i < |times| ==> times[i] - times[i - 1] >= p.cooldown
  {
    forall i | 0 < i < |times| ensures times[i] - times[i - 1] >= p.cooldown {
      CooldownsBetween(p, start, times, i - 1, i);
    }
  }

  lemma {:induction false} HourWithinBound(p: Limits, start: nat, times: seq<nat>, x: nat)
    requires p.Valid() && LegalRun(p, start, times)
    ensures CountInHour(times, x) <= RateBound(p)
  {
    if times != [] {
      var k := |times| - 1;
      if times[k] >= x + HOUR {
        HourWithinBound(p, start, times[..k], x);
      } else {
        var i := FirstAtOrAfter(p, start, times, x);
        CountFrom(times, x, i);
        if i <= k {
          TimesAscend(p, start, times, i, k);
          SpanWithinBound(p, start, times, i, k);
        }
      }
    }
  }

  lemma FirstAtOrAfter(p: Limits, start: nat, times: seq<nat>, x: nat) returns (i: nat)
    requires LegalRun(p, start, times)
    ensures i <= |times| && (forall k :: 0 <= k < i ==> times[k] < x)
    ensures i < |times| ==> x <= times[i]
  {
    i := 0;
    while i < |times| && times[i] < x
      invariant i <= |times| && forall k :: 0 <= k < i ==> times[k] < x
    {
      i := i + 1;
    }
  }

  // ---------------------------------------------------------------- the bound is exact

  /** `n` migrations one cooldown apart, `before` of them before the counter resets at 3600. */
  function Burst(p: Limits, before: nat, n: nat): (times: seq<nat>)
    requires before * p.cooldown <= HOUR
    ensures |times| == n
  {
    seq(n, j requires 0 <= j < n => HOUR - before * p.cooldown + j * p.cooldown)
  }

  /** One cooldown apart, at most `perHour` before the reset at 3600 and after it, all within
      an hour of the reset. */
  predicate BurstShape(p: Limits, before: nat, times: seq<nat>) {
    && before <= p.perHour && |times| - before <= p.perHour
    && (forall j :: 0 < j < |times| ==> times[j] == times[j - 1] + p.cooldown)
    && (forall j :: 0 <= j < |times| && j < before ==> times[j] < HOUR)
    && (forall j :: before <= j < |times| ==> HOUR <= times[j] < HOUR + HOUR)
    && (before < |times| ==> times[before] == HOUR)
  }

  /** The counters after the first `j` migrations of a burst. */
  predicate BurstCounters(before: nat, times: seq<nat>, j: nat, s: Counters)
    requires j <= |times|
  {
    && (if j <= before then s.thisHour == j && s.hourStart == 0
        else s.thisHour == j - before && s.hourStart == HOUR)
    && (j > 0 ==> s.last == Some(times[j - 1]))
  }

  /** Every prefix of such a burst is a legal run. */
  lemma {:induction false} BurstIsLegal(p: Limits, before: nat, times: seq<nat>, j: nat)
    requires p.Valid() && BurstShape(p, before, times) && j <= |times|
    ensures LegalRun(p, 0, times[..j])
    ensures BurstCounters(before, times, j, After(0, times[..j]))
  {
    if j == 0 {
      assert After(0, times[..0]) == Counters(None, 0, 0);
    } else {
      BurstIsLegal(p, before, times, j - 1);
      assert times[..j][..j - 1] == times[..j - 1];
    }
  }

  /** Where the `j`-th migration of a burst falls. */
  lemma TickBounds(p: Limits, before: nat, n: nat, j: nat)
    requires p.Valid() && j < n && before < n
    requires before * p.cooldown <= HOUR && (n - 1) * p.cooldown < HOUR
    ensures var first := HOUR - before * p.cooldown;
            var t := first + j * p.cooldown;
            && first <= t < first + HOUR
            && (j < before ==> t < HOUR)
            && (before <= j ==> HOUR <= t < HOUR + HOUR)
            && (j == before ==> t == HOUR)
  {
    MulMonotone(j, n - 1, p.cooldown);
    if j < before {
      StrictMul(j, before, p.cooldown);
    } else {
      MulMonotone(before, j, p.cooldown);
    }
  }

  lemma BurstHasShape(p: Limits, before: nat, n: nat)
    requires p.Valid() && before < n && before <= p.perHour && n - before <= p.perHour
    requires before * p.cooldown <= HOUR && (n - 1) * p.cooldown < HOUR
    ensures BurstShape(p, before, Burst(p, before, n))
    ensures forall j :: 0 <= j < n ==>
              HOUR - before * p.cooldown <= Burst(p, before, n)[j] < HOUR - before * p.cooldown + HOUR
  {
    var times := Burst(p, before, n);
    var first := HOUR - before * p.cooldown;
    forall j | 0 <= j < n
      ensures first <= times[j] < first + HOUR
      ensures j < before ==> times[j] < HOUR
      ensures before <= j ==> HOUR <= times[j] < HOUR + HOUR
      ensures j == before ==> times[j] == HOUR
    {
      TickBounds(p, before, n, j);
    }
    forall j | 0 < j < n ensures times[j] == times[j - 1] + p.cooldown {
      Distribute(j, p.cooldown);
    }
  }

  lemma Distribute(j: nat, c: nat)
    requires j > 0
    ensures j * c == (j - 1) * c + c
  {
  }

  lemma StrictMul(a: nat, b: nat, c: nat)
    requires a < b && c > 0
    ensures a * c < b * c
  {
    MulMonotone(a + 1, b, c);
    assert (a + 1) * c == a * c + c;
  }

  lemma {:induction false} CountAll(times: seq<nat>, x: nat)
    requires forall i :: 0 <= i < |times| ==> x <= times[i] < x + HOUR
    ensures CountInHour(times, x) == |times|
  {
    if times != [] {
      CountAll(times[..|times| - 1], x);
    }
  }

  /** The bound is reached: for every valid policy some legal run puts exactly that many
      migrations in one half-open hour. */
  lemma BoundIsReached(p: Limits) returns (times: seq<nat>, x: nat)
    requires p.Valid()
    ensures LegalRun(p, 0, times) && CountInHour(times, x) == RateBound(p)
  {
    var n := RateBound(p);
    var before := n / 2;
    MulMonotone(n - 1, CooldownsPerHour(p) - 1, p.cooldown);
    if n > 1 {
      MulMonotone(before, n - 1, p.cooldown);
    }
    times := Burst(p, before, n);
    x := HOUR - before * p.cooldown;
    BurstHasShape(p, before, n);
    BurstIsLegal(p, before, times, n);
    assert times[..n] == times;
    CountAll(times, x);
  }

  /** The documented limit, "maximum migrations per hour", read for every hour and not only
      the counter's own. */
  ghost predicate KeepsHourlyMaximum(p: Limits) {
    forall start, times, x :: LegalRun(p, start, times) ==> CountInHour(times, x) <= p.perHour
  }

  /** It holds of all runs exactly when the cooldown alone already enforces it; with the
      default policy (60 s, 10 per hour) it does not, and 20 migrations fit in one hour. */
  lemma HourlyMaximumExactlyWhen(p: Limits)
    requires p.Valid()
    ensures KeepsHourlyMaximum(p) <==> CooldownsPerHour(p) <= p.perHour
  {
    if CooldownsPerHour(p) <= p.perHour {
      forall start, times, x | LegalRun(p, start, times)
        ensures CountInHour(times, x) <= p.perHour
      {
        RateIsBounded(p, start, times, x);
      }
    } else {
      var times, x := BoundIsReached(p);
      assert LegalRun(p, 0, times) && CountInHour(times, x) > p.perHour;
    }
  }

  lemma DefaultPolicyAllowsTwentyPerHour() returns (times: seq<nat>, x: nat)
    ensures LegalRun(Limits(60, 10), 0, times) && CountInHour(times, x) == 20
  {
    times, x := BoundIsReached(Limits(60, 10));
  }

  // ---------------------------------------------------------------- the object itself

  /** The mutable half of `PolicyEvaluator`. */
  class PolicyEvaluator {
    var limits: Limits
    var lastMigrationTime: Option<nat>
    var migrationsThisHour: nat
    var hourStartTime: nat
    /** When migrations were recorded, since creation. */
    ghost var start: nat
    ghost var recorded: seq<nat>

    ghost function View(): Counters
      reads this
    {
      Counters(lastMigrationTime, migrationsThisHour, hourStartTime)
    }

    ghost predicate Valid()
      reads this
    {
      View() == After(start, recorded)
    }

    /** Every migration recorded so far was recorded when it was allowed. */
    ghost predicate Legal()
      reads this
    {
      LegalRun(limits, start, recorded)
    }

    /** The clock has not run back, and `migration_allowed` answered true at the instant `asked`, since
        the last migration. */
    ghost predicate MayRecord(asked: nat, now: nat)
      reads this
    {
      && start <= asked <= now && (recorded != [] ==> recorded[|recorded| - 1] <= asked)
      && Allowed(limits, View(), asked)
    }

    constructor (limits: Limits, now: nat)
      ensures Valid() && Legal() && recorded == [] && start == now && this.limits == limits
    {
      this.limits := limits;
      lastMigrationTime, migrationsThisHour, hourStartTime := None, 0, now;
      start, recorded := now, [];
    }

    /** Exactly the two refusals: inside the cooldown, or the current window used up. */
    method MigrationAllowed(now: nat) returns (ok: bool)
      requires Valid()
      ensures ok <==> Allowed(limits, After(start, recorded), now)
    {
      if lastMigrationTime.Some? {
        if now - lastMigrationTime.value < limits.cooldown {
          return false;
        }
      }
      if now - hourStartTime < HOUR && migrationsThisHour >= limits.perHour {
        return false;
      }
      return true;
    }

    /** Records unconditionally; when every caller has asked since the last migration, the rate bound of a
        valid policy holds for every hour of the whole history. */
    method RecordMigration(now: nat, ghost asked: nat)
      requires Valid()
      modifies this
      ensures Valid() && limits == old(limits) && start == old(start)
      ensures recorded == old(recorded) + [now]
      ensures old(Legal() && MayRecord(asked, now)) ==> Legal()
      ensures Legal() && limits.Valid() ==> migrationsThisHour <= limits.perHour &&
                                            forall x :: CountInHour(recorded, x) <= RateBound(limits)
    {
      if MayRecord(asked, now) {
        AllowedStaysAllowed(limits, View(), asked, now);
      }
      lastMigrationTime := Some(now);
      if now - hourStartTime >= HOUR {
        hourStartTime := now;
        migrationsThisHour := 0;
      }
      migrationsThisHour := migrationsThisHour + 1;
      recorded := recorded + [now];
      assert recorded[..|recorded| - 1] == old(recorded);
      if Legal() && limits.Valid() {
        HistoryIsBounded(limits, start, recorded);
      }
    }
  }

  lemma HistoryIsBounded(p: Limits, start: nat, times: seq<nat>)
    requires p.Valid() && LegalRun(p, start, times)
    ensures After(start, times).thisHour <= p.perHour
    ensures forall x :: CountInHour(times, x) <= RateBound(p)
  {
    RateIsBounded(p, start, times, 0);
    forall x ensures CountInHour(times, x) <= RateBound(p) {
      RateIsBounded(p, start, times, x);
    }
  }
}
