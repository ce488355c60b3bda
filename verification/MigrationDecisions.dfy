/** `PolicyEvaluator::evaluate`: which migration a set of metrics asks for.  Temperatures and costs
    are exact numbers. */
module MigrationDecisions {
  import opened Basics
  import R = MigrationRate

  datatype Metrics = Metrics(
    cpu: nat, memory: nat, availableMemory: nat, temperature: real, latency: nat, bandwidth: nat,
    cost: real, queueDepth: nat, battery: Option<nat>, onAc: bool)

  datatype LoadTrigger = LoadTrigger(cpu: nat, memory: nat, queue: nat, enabled: bool)
  datatype ThermalTrigger = ThermalTrigger(warning: real, critical: real, enabled: bool)
  datatype LatencyTrigger = LatencyTrigger(maxLatency: nat, minBandwidth: nat, enabled: bool)
  datatype CostTrigger = CostTrigger(maxCost: real, reduction: real, enabled: bool)
  datatype BatteryTrigger = BatteryTrigger(minPercent: nat, preferAc: bool, enabled: bool)

  datatype Policy = Policy(
    load: LoadTrigger, thermal: ThermalTrigger, latency: LatencyTrigger, cost: CostTrigger,
    battery: BatteryTrigger, limits: R.Limits)
  {
    /** `MigrationPolicy::validate`. */
    predicate Valid() {
      && 50 <= load.cpu <= 100 && 50 <= load.memory <= 100
      && 0.0 <= thermal.warning <= 200.0 && 0.0 <= thermal.critical <= 200.0 && thermal.warning < thermal.critical
      && 0 < latency.maxLatency <= 60000
      && cost.maxCost >= 0.0 && 0.0 <= cost.reduction <= 100.0
      && battery.minPercent <= 100
      && limits.Valid()
    }
  }

  datatype Requirements = Requirements(
    maxCpu: Option<nat>, maxMemory: Option<nat>, maxTemperature: Option<real>, maxLatency: Option<nat>,
    maxCost: Option<real>, preferAc: bool)
  {
    predicate Valid() {
      && (maxCpu.Some? ==> maxCpu.value <= 100)
      && (maxMemory.Some? ==> maxMemory.value <= 100)
      && (maxTemperature.Some? ==> -273.15 <= maxTemperature.value <= 200.0)
      && (maxLatency.Some? ==> maxLatency.value > 0)
      && (maxCost.Some? ==> maxCost.value >= 0.0)
    }

    /** The preference for external power excludes nobody. */
    predicate SatisfiedBy(m: Metrics) {
      && (maxCpu.Some? ==> m.cpu <= maxCpu.value)
      && (maxMemory.Some? ==> m.memory <= maxMemory.value)
      && (maxTemperature.Some? ==> m.temperature <= maxTemperature.value)
      && (maxLatency.Some? ==> m.latency <= maxLatency.value)
      && (maxCost.Some? ==> m.cost <= maxCost.value)
    }
  }

  const ANY_NODE: Requirements := Requirements(None, None, None, None, None, false)

  datatype Trigger = LoadBased | ThermalBased | LatencyBased | CostBased | BatteryBased | NoTrigger

  datatype Decision = Decision(migrate: bool, trigger: Trigger, priority: nat, requirements: Requirements)
  {
    predicate Valid() { priority <= 100 && (migrate <==> trigger != NoTrigger) && requirements.Valid() }
  }

  const NO_MIGRATION: Decision := Decision(false, NoTrigger, 0, ANY_NODE)

  // ---------------------------------------------------------------- the triggers

  function Minus20(x: nat): (y: nat) { if x >= 20 then x - 20 else 0 }

  function Thermal(p: Policy, m: Metrics): (d: Option<Decision>) {
    if !p.thermal.enabled then None
    else if m.temperature >= p.thermal.critical then
      Some(Decision(true, ThermalBased, 100, ANY_NODE.(maxTemperature := Some(p.thermal.warning))))
    else if m.temperature >= p.thermal.warning then
      Some(Decision(true, ThermalBased, 80, ANY_NODE.(maxTemperature := Some(p.thermal.warning - 10.0))))
    else None
  }

  function Battery(p: Policy, m: Metrics): (d: Option<Decision>) {
    if !p.battery.enabled || (m.onAc && p.battery.preferAc) then None
    else if m.battery.Some? && m.battery.value < p.battery.minPercent then
      Some(Decision(true, BatteryBased, 90, ANY_NODE.(preferAc := true)))
    else None
  }

  function Load(p: Policy, m: Metrics): (d: Option<Decision>) {
    if !p.load.enabled then None
    else if m.cpu > p.load.cpu then
      Some(Decision(true, LoadBased, 70, ANY_NODE.(maxCpu := Some(Minus20(p.load.cpu)))))
    else if m.memory > p.load.memory then
      Some(Decision(true, LoadBased, 75, ANY_NODE.(maxMemory := Some(Minus20(p.load.memory)))))
    else if m.queueDepth > p.load.queue then
      Some(Decision(true, LoadBased, 60, ANY_NODE.(maxCpu := Some(50))))
    else None
  }

  function Latency(p: Policy, m: Metrics): (d: Option<Decision>) {
    if !p.latency.enabled then None
    else if m.latency > p.latency.maxLatency then
      Some(Decision(true, LatencyBased, 65, ANY_NODE.(maxLatency := Some(p.latency.maxLatency / 2))))
    else if m.bandwidth < p.latency.minBandwidth then
      Some(Decision(true, LatencyBased, 55, ANY_NODE.(maxLatency := Some(p.latency.maxLatency))))
    else None
  }

  function Cost(p: Policy, m: Metrics): (d: Option<Decision>) {
    if p.cost.enabled && m.cost > p.cost.maxCost then
      Some(Decision(true, CostBased, 40, ANY_NODE.(maxCost := Some(p.cost.maxCost * 0.8))))
    else None
  }

  /** The first trigger that fires, if a migration is allowed at all. */
  function Evaluate(p: Policy, s: R.Counters, m: Metrics, now: nat): (d: Decision) {
    if !R.Allowed(p.limits, s, now) then NO_MIGRATION
    else if Thermal(p, m).Some? then Thermal(p, m).value
    else if Battery(p, m).Some? then Battery(p, m).value
    else if Load(p, m).Some? then Load(p, m).value
    else if Latency(p, m).Some? then Latency(p, m).value
    else if Cost(p, m).Some? then Cost(p, m).value
    else NO_MIGRATION
  }

  // ---------------------------------------------------------------- conditions, one by one

  /** Everything that can be wrong with a node, whatever the evaluator looks at first. */
  datatype Condition =
    | Overheated | Warm | LowBattery | HighCpu | HighMemory | DeepQueue | HighLatency | LowBandwidth | HighCost

  predicate Holds(p: Policy, m: Metrics, c: Condition) {
    match c
    case Overheated => p.thermal.enabled && m.temperature >= p.thermal.critical
    case Warm => p.thermal.enabled && p.thermal.warning <= m.temperature < p.thermal.critical
    case LowBattery =>
      p.battery.enabled && !(m.onAc && p.battery.preferAc) && m.battery.Some? && m.battery.value < p.battery.minPercent
    case HighCpu => p.load.enabled && m.cpu > p.load.cpu
    case HighMemory => p.load.enabled && m.memory > p.load.memory
    case DeepQueue => p.load.enabled && m.queueDepth > p.load.queue
    case HighLatency => p.latency.enabled && m.latency > p.latency.maxLatency
    case LowBandwidth => p.latency.enabled && m.bandwidth < p.latency.minBandwidth
    case HighCost => p.cost.enabled && m.cost > p.cost.maxCost
  }

  function PriorityOf(c: Condition): (n: nat) {
    match c
    case Overheated => 100
    case LowBattery => 90
    case Warm => 80
    case HighMemory => 75
    case HighCpu => 70
    case HighLatency => 65
    case DeepQueue => 60
    case LowBandwidth => 55
    case HighCost => 40
  }

  /** The order in which the evaluator looks. */
  function Rank(c: Condition): (n: nat) {
    match c
    case Overheated => 0
    case Warm => 1
    case LowBattery => 2
    case HighCpu => 3
    case HighMemory => 4
    case DeepQueue => 5
    case HighLatency => 6
    case LowBandwidth => 7
    case HighCost => 8
  }

  ghost predicate First(p: Policy, m: Metrics, c: Condition) {
    Holds(p, m, c) && forall d :: Holds(p, m, d) ==> Rank(c) <= Rank(d)
  }

  /** The decision belongs to the condition looked at first, and says no exactly when none holds. */
  lemma DecisionIsForFirstCondition(p: Policy, s: R.Counters, m: Metrics, now: nat)
    requires p.Valid() && R.Allowed(p.limits, s, now)
    ensures Evaluate(p, s, m, now).migrate <==> exists c :: Holds(p, m, c)
    ensures forall c :: First(p, m, c) ==> Evaluate(p, s, m, now).migrate && Evaluate(p, s, m, now).priority == PriorityOf(c)
  {
    forall c | First(p, m, c)
      ensures Evaluate(p, s, m, now).migrate && Evaluate(p, s, m, now).priority == PriorityOf(c)
    {
      OnlyEarlier(p, m, c);
    }
    if c :| Holds(p, m, c) {
      assert Thermal(p, m).Some? || Battery(p, m).Some? || Load(p, m).Some? || Latency(p, m).Some? || Cost(p, m).Some?;
    } else {
      assert !Holds(p, m, Overheated) && !Holds(p, m, Warm) && !Holds(p, m, LowBattery) && !Holds(p, m, HighCpu);
      assert !Holds(p, m, HighMemory) && !Holds(p, m, DeepQueue) && !Holds(p, m, HighLatency);
      assert !Holds(p, m, LowBandwidth) && !Holds(p, m, HighCost);
    }
  }

  lemma OnlyEarlier(p: Policy, m: Metrics, c: Condition)
    requires First(p, m, c)
    ensures Rank(c) > 0 ==> !Holds(p, m, Overheated)
    ensures Rank(c) > 1 ==> !Holds(p, m, Warm)
    ensures Rank(c) > 2 ==> !Holds(p, m, LowBattery)
    ensures Rank(c) > 3 ==> !Holds(p, m, HighCpu)
    ensures Rank(c) > 4 ==> !Holds(p, m, HighMemory)
    ensures Rank(c) > 5 ==> !Holds(p, m, DeepQueue)
    ensures Rank(c) > 6 ==> !Holds(p, m, HighLatency)
    ensures Rank(c) > 7 ==> !Holds(p, m, LowBandwidth)
  {
  }

  // ---------------------------------------------------------------- main results

  /** The decision has the highest priority of all conditions that hold. */
  ghost predicate HighestPriority(p: Policy, m: Metrics, d: Decision) {
    forall c :: Holds(p, m, c) ==> d.priority >= PriorityOf(c)
  }

  /** None of the conditions looked at before the load holds. */
  predicate CoolAndCharged(p: Policy, m: Metrics) {
    !Holds(p, m, Overheated) && !Holds(p, m, Warm) && !Holds(p, m, LowBattery)
  }

  /** The triggers are documented as tried in priority order.  They are not quite: the decision is
      the most urgent one exactly unless a warm node hides a low battery, high cpu hides high memory,
      or a deep queue hides high latency. */
  lemma MostUrgentExactlyWhen(p: Policy, s: R.Counters, m: Metrics, now: nat)
    requires p.Valid() && R.Allowed(p.limits, s, now)
    ensures HighestPriority(p, m, Evaluate(p, s, m, now)) <==>
              && !(Holds(p, m, Warm) && Holds(p, m, LowBattery))
              && !(CoolAndCharged(p, m) && Holds(p, m, HighCpu) && Holds(p, m, HighMemory))
              && !(CoolAndCharged(p, m) && !Holds(p, m, HighCpu) && !Holds(p, m, HighMemory) &&
                   Holds(p, m, DeepQueue) && Holds(p, m, HighLatency))
  {
    var d := Evaluate(p, s, m, now);
    if Holds(p, m, Warm) && Holds(p, m, LowBattery) {
      assert d.priority == 80 < PriorityOf(LowBattery);
    } else if CoolAndCharged(p, m) && Holds(p, m, HighCpu) && Holds(p, m, HighMemory) {
      assert d.priority == 70 < PriorityOf(HighMemory);
    } else if CoolAndCharged(p, m) && !Holds(p, m, HighCpu) && !Holds(p, m, HighMemory) &&
              Holds(p, m, DeepQueue) && Holds(p, m, HighLatency) {
      assert d.priority == 60 < PriorityOf(HighLatency);
    } else {
      forall c | Holds(p, m, c) ensures d.priority >= PriorityOf(c) {
      }
    }
  }

  /** All decisions a policy can lead to pass their own validation. */
  ghost predicate DecidesValidly(p: Policy) {
    forall s, m, now :: Evaluate(p, s, m, now).Valid()
  }

  /** True of a valid policy exactly unless its latency trigger is on with a limit of 1 ms, which is
      halved to zero. */
  lemma DecisionsAreValidExactlyWhen(p: Policy)
    requires p.Valid()
    ensures DecidesValidly(p) <==> !(p.latency.enabled && p.latency.maxLatency == 1)
  {
    if p.latency.enabled && p.latency.maxLatency == 1 {
      var m := Metrics(0, 0, 0, -1.0, 2, 0, 0.0, 0, None, true);
      var d := Evaluate(p, R.Counters(None, 0, 0), m, R.HOUR);
      assert d.requirements.maxLatency == Some(0);
      assert !d.Valid();
    } else {
      forall s, m, now ensures Evaluate(p, s, m, now).Valid() {
        assert p.latency.enabled ==> p.latency.maxLatency / 2 > 0;
        assert p.cost.maxCost * 0.8 >= 0.0;
      }
    }
  }

  /** A node told to move away already meets the requirements for the target exactly when the reason
      is its battery, a deep queue with at most half its cpu in use, or low bandwidth. */
  lemma SourceQualifiesExactlyWhen(p: Policy, s: R.Counters, m: Metrics, now: nat, c: Condition)
    requires p.Valid() && R.Allowed(p.limits, s, now) && First(p, m, c)
    ensures Evaluate(p, s, m, now).requirements.SatisfiedBy(m) <==>
              c == LowBattery || (c == DeepQueue && m.cpu <= 50) || c == LowBandwidth
  {
    OnlyEarlier(p, m, c);
    assert p.cost.maxCost * 0.8 <= p.cost.maxCost;
  }
}
