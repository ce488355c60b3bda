# A verified model of the mielin agent runtime

This project models the stateful managers of `mielin-cells`, the lock-free ring buffer of the kernel
benchmarks and the audit log of the command line tool, and proves what every run of them keeps.

Most components appear twice. A state machine over values gives each call, or each critical section
of a call, as a function; a run is any sequence of them, and the main theorems are about all runs. A
class with the fields the source mutates gives the code itself, loops included; its methods are proved
to do what the state machine does, so the theorems hold of every history of calls. What only the
statements need (ledgers, logs, histories, birth dates) is ghost in the classes.

- `Basics` — optional values, ends of sequences, sizes, versions and locations.
- `AtomicQueue` — one producer and one consumer, every atomic load and store a step of its own.
- `Cluster`, `Orchestration`, `Orchestrator`, `SchedulerThreads` — the scheduler, the control loop, and
  the scheduler at the granularity of its locks.
- `Messaging`, `MessagingConservation`, `MessagingAddressing`, `MessagingOrder`, `MessagingRequests`,
  `MessageBus` — the message bus with atomic calls; `MessagingThreads`, `MessagingOverlap`,
  `MessagingQueues` — the bus split at its locks.
- `Versioning` — rolling updates with a failure budget and rollback.
- `MigrationRate`, `MigrationDecisions` — the migration rate limiter and the trigger evaluation.
- `Discovery`, `LoadBalancer` — the service registry with its indexes, and the balancer over it.
- `AgentLifecycle`, `AgentPool`, `StateHistory`, `AgentGroup`, `AgentGroupThreads` — single agents, pools,
  histories, groups, and groups split at their locks.
- `AuditLog` — rotation of the audit log files.

Clocks, fresh identifiers and the order in which hash maps are visited are parameters or arbitrary
choices; a call that reads a clock several times takes several readings. CPU, distances, temperatures and
costs are exact numbers.

## Where the code and the obvious claim differ

The model follows the code. The lemmas named here show where a claim fails, and those whose names end in
`ExactlyWhen` or that say so give the condition under which it holds, both ways.

- `register_node` overwrites a node: conservation holds on it exactly when no agent was placed on its id
  (`Cluster.RegisteringConservesExactlyWhen`). A second `schedule` of a placed agent, or a `deschedule` with
  another specification, breaks it under exact conditions (`Cluster.PlacingConservesExactlyWhen`,
  `Cluster.RemovingConservesExactlyWhen`). `create_deployment` under a name in use orphans its agents for
  good (`Orchestration.OverwritingOrphans`, `Orchestration.OrphansAreNeverReleased`).
- `schedule` called directly from two threads can underflow a node (`SchedulerThreads.DirectCallsCanUnderflow`);
  the node still fits exactly under the condition of `SchedulerThreads.SelectedFitsExactlyWhen`.
- "Maximum migrations per hour" holds of every hour exactly when the cooldown alone enforces it; the
  default policy lets 20 migrations into one hour (`MigrationRate.HourlyMaximumExactlyWhen`).
- Triggers are commented as evaluated in priority order; the decision is the most urgent one exactly
  outside three overlaps (`MigrationDecisions.MostUrgentExactlyWhen`). A latency limit of 1 ms yields a
  decision that fails its own validation (`MigrationDecisions.DecisionsAreValidExactlyWhen`).
- Registering a live agent again keeps the indexes exact only under a condition, and an agent that moved is
  found under its old service or dropped capability until it registers there again
  (`Discovery.ReRegisteringExactlyWhen`, `Discovery.StaleExactlyWhen`).
- `request` leaves its slot behind when `send` fails, and the answer is then lost although its sender is
  told Ok (`MessagingRequests.RefusedRequestLeaksItsSlot`). Two sends of one id pass within the window only
  if they overlap, and then they can (`MessagingOverlap.OnlyOverlappingSendsDuplicate`). A message can be
  queued for an agent already registered (`MessagingThreads.MessageCanBeStranded`), but only if its sender
  looked for the mailbox before that was inserted (`MessagingThreads.InterleavingsConserve`).
- A paused group can lose its last leader and be resumed (`AgentGroup.DropsBelowMinimumExactlyWhen`); a
  removal that read the state before the group was resumed, or an addition that read it before the group
  was dissolved, can still come through (`AgentGroupThreads.MinimumSurvivesExactlyWhen`,
  `AgentGroupThreads.DissolvedStaysEmptyExactlyWhen`).
- `max_age` of the pool is measured from the last release, so agents of any age are handed out
  (`AgentPool.AgeIsBoundedExactlyWhen`, `AgentPool.OldAgentIsHandedOut`). `maintain` can keep an agent and
  destroy a younger one (`AgentPool.RemovesPrefixExactlyWhen`).
- The times in all states fall short of the time that passed by what passes within the calls
  (`StateHistory.TotalsAreConsistent`).
- A batch size of zero panics (`Versioning.VersionDeployer.RollingUpdate`), and so does a ring without slots
  (`AtomicQueue.SimpleAtomicQueue.TryEnqueue`).
- A fatal error blocks only `attempt_recovery` (`AgentLifecycle.FatalErrorBlocksOnlyRecovery`). `set_state`
  alone leaves Terminated and takes an error out of Error (`AgentLifecycle.TerminatedIsFinal`,
  `AgentLifecycle.ErrorStaysInPlaceExactlyWhen`). The diagram
  above the agent states draws a way from Paused to Error and back from Terminated, which the table does
  not have; the model follows the table.

## Model

| member | source | states |
|---|---|---|
| AtomicQueue.EveryRunIsLinearizable | benches/benches/kernel_performance.rs:330-356 | under every interleaving of one producer and one consumer the responses are those of a sequential FIFO queue of at most capacity-1 items holding the ring's contents; full and empty are true at the load that decides them |
| AtomicQueue.NothingLostOrReordered | benches/benches/kernel_performance.rs:330-356 | at every moment the enqueued values are the dequeued ones followed by those in the ring, at most capacity-1 |
| AtomicQueue.NoSlotReadWhileWritten | benches/benches/kernel_performance.rs:335-350 | no slot is about to be read while about to be written, and a loaded value stays valid until the head moves |
| AtomicQueue.TwoProducersLoseAnItem | benches/benches/kernel_performance.rs:330-339 | with two producers two accepted values can leave one item |
| AtomicQueue.FullExactlyWhen | benches/benches/kernel_performance.rs:332-335 | the test for a full ring holds exactly at capacity-1 items |
| AtomicQueue.ReplayConserves | benches/benches/kernel_performance.rs:330-356 | a sequence of answers the FIFO queue would give enqueues what it dequeues followed by what remains |
| AtomicQueue.SimpleAtomicQueue.constructor | benches/benches/kernel_performance.rs:317-328 | an empty queue, for any capacity |
| AtomicQueue.SimpleAtomicQueue.TryEnqueue | benches/benches/kernel_performance.rs:330-342 | accepted exactly below capacity-1 items, and then appended; a panic exactly for capacity zero |
| AtomicQueue.SimpleAtomicQueue.TryDequeue | benches/benches/kernel_performance.rs:344-356 | takes the oldest item, refused without a change exactly when empty |
| Cluster.PlacingKeepsAccounting | mielin-cells/src/orchestration.rs:317-322 | placing an agent not counted elsewhere on a node that fits keeps free plus reserved equal to the registered amount on every node accounted for, the count right and nothing negative |
| Cluster.RemovingKeepsAccounting | mielin-cells/src/orchestration.rs:324-329 | removing an agent with what it was given gives back exactly its share; the saturating count never saturates on a node accounted for |
| Cluster.RegisteringConservesExactlyWhen | mielin-cells/src/orchestration.rs:346-349 | overwriting a node spoils no other, and the new node balances against its registration if and only if no agent is placed on its id |
| Cluster.PlacingConservesExactlyWhen | mielin-cells/src/orchestration.rs:444-469 | placing keeps the accounting if and only if the agent is not yet counted on a node |
| Cluster.RemovingConservesExactlyWhen | mielin-cells/src/orchestration.rs:471-486 | removing keeps the accounting if and only if a counted agent gives back what it was given |
| Cluster.DeregisteringKeepsAccounting | mielin-cells/src/orchestration.rs:351-354 | removing a node keeps all others balanced |
| Orchestration.EveryRunKeepsInv | mielin-cells/src/orchestration.rs:517-627 | every run keeps the accounting, agent ownership and the meaning of every deployment's counters |
| Orchestration.ResourcesAreConserved | mielin-cells/src/orchestration.rs:444-486 | after every run memory and disk are not negative on any node, and on a node accounted for free plus reserved is the registered amount and the count is the number placed |
| Orchestration.AccountedForExactlyWhen | mielin-cells/src/orchestration.rs:346-349 | a node is accounted for exactly when its last registration in the run found no agent on its id |
| Orchestration.StatusIsTruthful | mielin-cells/src/orchestration.rs:619-623 | Running means ready = desired = number of agents; desired stays in the policy range it was created in and ready never exceeds its maximum |
| Orchestration.OverwritingOrphans | mielin-cells/src/orchestration.rs:517-525 | creating a deployment orphans an owned agent if and only if it belonged to the deployment of that name |
| Orchestration.OrphansAreNeverReleased | mielin-cells/src/orchestration.rs:527-542 | no later step of any run releases an orphan |
| Orchestrator.Scheduler.RegisterNode | mielin-cells/src/orchestration.rs:346-349 | the node is stored under its id; it balances against its registration exactly when the id has no agents |
| Orchestrator.Scheduler.Fitting | mielin-cells/src/orchestration.rs:363-366 | exactly the nodes with enough resources |
| Orchestrator.Scheduler.ApplyConstraints | mielin-cells/src/orchestration.rs:374-423 | the loop over the constraints leaves exactly the nodes that satisfy them all |
| Orchestrator.Scheduler.Largest | mielin-cells/src/orchestration.rs:432-439 | no candidate has lexicographically more free cpu and memory |
| Orchestrator.Scheduler.Retain | mielin-cells/src/orchestration.rs:375-423 | one retain keeps exactly the candidates that satisfy the constraint |
| Orchestrator.Scheduler.SelectNode | mielin-cells/src/orchestration.rs:356-442 | a node meeting resources and all constraints with lexicographically most free cpu and memory, or the error that names the filter that left none, for any order of the map |
| Orchestrator.Scheduler.Schedule | mielin-cells/src/orchestration.rs:444-469 | places on a best eligible node, or changes nothing exactly when none is eligible; the accounting survives exactly when the agent was not yet counted |
| Orchestrator.Scheduler.Deschedule | mielin-cells/src/orchestration.rs:471-486 | the placement goes and its node, if still registered, is credited; the accounting survives exactly when a counted agent gives back what it was given |
| Orchestrator.Orchestrator.CreateDeployment | mielin-cells/src/orchestration.rs:517-525 | a fresh pending deployment replaces any of that name |
| Orchestrator.Orchestrator.DeleteDeployment | mielin-cells/src/orchestration.rs:527-542 | refused exactly when unknown; takes off exactly its own agents and the deployment |
| Orchestrator.Orchestrator.TakeOffAll | mielin-cells/src/orchestration.rs:536-539 | exactly the deployment's agents leave the placements, one legal step each |
| Orchestrator.Orchestrator.RegisterNode | mielin-cells/src/orchestration.rs:346-349 | extends the history by a registration, overwriting or not |
| Orchestrator.Orchestrator.ScaleDeployment | mielin-cells/src/orchestration.rs:544-567 | refused exactly when unknown or out of the policy range, otherwise sets the desired count |
| Orchestrator.Orchestrator.ReconcileOne | mielin-cells/src/orchestration.rs:586-624 | one turn: at most the desired number, exactly it if there were enough before, short only when no node was eligible at the end of the turn |
| Orchestrator.Orchestrator.ScaleUp | mielin-cells/src/orchestration.rs:589-602 | adds agents until the desired number, a shortfall meaning no eligible node is left |
| Orchestrator.Orchestrator.PlaceOne | mielin-cells/src/orchestration.rs:591-601 | a fresh agent is placed exactly when some node is eligible, and nothing changes otherwise |
| Orchestrator.Orchestrator.ScaleDown | mielin-cells/src/orchestration.rs:603-617 | removes exactly the surplus |
| Orchestrator.Orchestrator.Finish | mielin-cells/src/orchestration.rs:619-623 | the turn ends with ready the number of agents, a shortfall meaning no eligible node at that moment |
| Orchestrator.Orchestrator.Reconcile | mielin-cells/src/orchestration.rs:579-627 | the same for every deployment, for any order of the map |
| Orchestrator.Orchestrator.AutoScale | mielin-cells/src/orchestration.rs:629-662 | scales at most one due deployment to the count it wants; nothing happens exactly when none is due, each when looked at |
| Orchestrator.WishRefusedExactlyWhen | mielin-cells/src/orchestration.rs:646-656 | in every reachable state the wish of a deployment created in range is refused exactly when it scales up with ready+1 below the minimum |
| SchedulerThreads.LockedCallsAlwaysFit | mielin-cells/src/orchestration.rs:517-627 | for any number of threads creating, scaling and deleting deployments over fixed nodes, each removal giving back what the deployment's specification says, a selected node still fits when it is allocated on, nothing underflows, and the full accounting holds whenever the deployments lock is free |
| SchedulerThreads.SelectedFitsExactlyWhen | mielin-cells/src/orchestration.rs:352-488 | for every call, direct or not, and every interleaving since its selection: the node still fits if and only if what it had free then covers the request and what was taken since, and it does when no other thread allocated on it, or gave back negative cpu, in between |
| SchedulerThreads.DirectCallsCanUnderflow | mielin-cells/src/orchestration.rs:444-457 | two direct calls of schedule have a run with negative free memory |
| MessagingConservation.RunConserves | mielin-cells/src/messaging.rs:247-324 | after any run the place of every accepted message is known and unique |
| MessagingAddressing.EveryAcceptedMessageInOnePlace | mielin-cells/src/messaging.rs:284-324 | every message whose send answered Ok is in exactly one place, unchanged: its recipient's buffer or received there, its offline queue, handed to the requester it answers, or lost for a named cause |
| MessagingAddressing.RunAddressed | mielin-cells/src/messaging.rs:284-324 | after any run every message is only where its recipient, or the request it answers, puts it |
| MessagingAddressing.OkTakesOneToken | mielin-cells/src/messaging.rs:284-324 | an Ok answer accepts exactly this message; a refusal accepts and moves nothing, and Duplicate is answered exactly for remembered ids |
| MessagingAddressing.FanDelivers | mielin-cells/src/messaging.rs:385-394 | each mailbox gets one copy for each subscription of its agent, as far as it has room |
| MessagingOrder.AcceptedIdsAreSpaced | mielin-cells/src/messaging.rs:418-431 | with a clock that does not run back, two atomic calls that pass the duplicate check with one id are a window apart |
| MessagingOrder.OfflineQueueContract | mielin-cells/src/messaging.rs:247-263 | an offline queue holds in order the last max(1, limit) messages since the last drain, no agent has both a mailbox and a queue, and register delivers in order the first 256 that are not expired when looked at |
| MessagingOrder.DrainFills | mielin-cells/src/messaging.rs:251-263 | draining fills the buffer with the unexpired queued messages in order, up to its capacity |
| MessagingOrder.FreshChannelsAreUntouched | mielin-cells/src/messaging.rs:247-250 | a channel not yet created holds nothing, is not open and is nobody's mailbox |
| MessagingOrder.StepExtendsStream | mielin-cells/src/messaging.rs:172-179 | no call reorders, duplicates or removes what a receiver was given, unless the receiver itself is dropped |
| MessagingRequests.ResponseIsHandedExactlyWhen | mielin-cells/src/messaging.rs:327-353 | whatever calls come between a request and a response that passes the checks, the response is handed to the requester if and only if the guard of the request's send held and no call in between took or left the slot |
| MessagingRequests.RefusedRequestLeaksItsSlot | mielin-cells/src/messaging.rs:327-353 | the slot of a refused request stays stored exactly until a close, a reopening or a response takes it; that response is answered Ok and lost |
| MessagingRequests.SlotLivesExactlyUntil | mielin-cells/src/messaging.rs:300-309 | over any calls a slot stays stored exactly until one takes it, and alive exactly until one takes or leaves it |
| MessagingRequests.SendAcceptsExactlyWhen | mielin-cells/src/messaging.rs:284-324 | a send answers Ok exactly when it is new, unexpired and addressed, and answers a request, or finds no mailbox, or finds room |
| MessageBus.MessageBus.Register | mielin-cells/src/messaging.rs:247-270 | the new mailbox holds, in order, the first 256 queued messages not expired when looked at, and the queue is gone |
| MessageBus.MessageBus.DrainQueue | mielin-cells/src/messaging.rs:251-263 | the drain loop makes the drain that DrainFills describes |
| MessageBus.MessageBus.Unregister | mielin-cells/src/messaging.rs:273-281 | the mailbox and all subscriptions of the agent go, and nothing else |
| MessageBus.MessageBus.Send | mielin-cells/src/messaging.rs:284-324 | Ok exactly when the guard holds, and then the message is in exactly one place; otherwise channels, queues and responses stay as they are |
| MessageBus.MessageBus.Answer | mielin-cells/src/messaging.rs:300-309 | the slot leaves the map and a waiting requester gets the response |
| MessageBus.MessageBus.Request | mielin-cells/src/messaging.rs:327-340 | waits exactly when the guard of its send holds; the slot is alive exactly then, unless the message answers itself |
| MessageBus.MessageBus.EndRequest | mielin-cells/src/messaging.rs:342-353 | the response handed to the slot, or else nobody waits any more and the id is free |
| MessageBus.MessageBus.Subscribe | mielin-cells/src/messaging.rs:356-359 | one more subscription of the agent |
| MessageBus.MessageBus.Unsubscribe | mielin-cells/src/messaging.rs:362-367 | no subscription of the agent is left on the topic |
| MessageBus.MessageBus.EnqueueOffline | mielin-cells/src/messaging.rs:400-415 | the queue step whose queues are the last max(1, limit) messages |
| MessageBus.MessageBus.Publish | mielin-cells/src/messaging.rs:370-397 | copies fan out to the subscribers; refused as duplicate exactly for remembered ids |
| MessageBus.MessageBus.FanOut | mielin-cells/src/messaging.rs:385-394 | the loop over the subscribers makes the fan out whose copies FanDelivers counts |
| MessageBus.MessageBus.TryRecv | mielin-cells/src/messaging.rs:177-179 | takes the oldest message and keeps the stream of the receiver |
| MessagingThreads.InterleavingsConserve | mielin-cells/src/messaging.rs:247-415 | under every interleaving of the critical sections of send, publish, register and unregister each accepted message is in exactly one place, and one queued for an agent with a mailbox was looked up before that mailbox was inserted |
| MessagingThreads.MessageCanBeStranded | mielin-cells/src/messaging.rs:312-321 | a run that leaves a message queued for a registered, drained agent |
| MessagingQueues.QueuesHoldTheLast | mielin-cells/src/messaging.rs:247-415 | under every interleaving an offline queue holds in order the last max(1, limit) messages since the last drain, or the end of those while its drain is under way |
| MessagingQueues.QueuedArriveInOrder | mielin-cells/src/messaging.rs:247-415 | under every interleaving each receiver is given the messages that waited offline in the order in which they were queued, whoever drained them and whatever came in between |
| MessagingOverlap.OnlyOverlappingSendsDuplicate | mielin-cells/src/messaging.rs:285-291 | under every interleaving with a forward clock, two sends or publishes of one id that pass the duplicate check less than a window apart overlapped: the later was checked before the earlier was marked |
| MessagingOverlap.OverlappingSendsCanDuplicate | mielin-cells/src/messaging.rs:285-291 | a run that accepts two overlapping sends of one id |
| Versioning.SuccessWithinBudget | mielin-cells/src/versioning.rs:441-574 | Ok leaves at most max_failures targets on the source version, the reported ones on the target version and all others alone |
| Versioning.RollbackUndoesEverything | mielin-cells/src/versioning.rs:576-586 | too many failures with a completed rollback leaves the registry exactly as it was |
| Versioning.FailureTouchesOnlyTargets | mielin-cells/src/versioning.rs:477-486 | any failed update leaves each agent on its version, or a target on the new one |
| Versioning.RealUpdatesNeverFail | mielin-cells/src/versioning.rs:221-597 | with any registry calls of other threads before every lock taken, a rolling update fails only in its checks of the two versions, panics past them exactly with a batch size of zero, and otherwise answers Ok with every agent found on the source version |
| Versioning.PassKeepsInv | mielin-cells/src/versioning.rs:477-574 | at any point of a pass exactly the updated agents are moved to the new version, the pass stops exactly when the failures exceed the budget, and until then no more are left out than failed |
| Versioning.RollbackRestores | mielin-cells/src/versioning.rs:577-586 | a prefix of the agents is back on the source version, all of them exactly when the rollback completes |
| Versioning.PassConcat | mielin-cells/src/versioning.rs:495-518 | a pass over a concatenation is two passes in a row, which makes batches invisible |
| Versioning.VersionDeployer.UpdateAgent | mielin-cells/src/versioning.rs:589-597 | assigns exactly when the registry accepts and no fault occurs |
| Versioning.VersionDeployer.SelectTargets | mielin-cells/src/versioning.rs:460-469 | exactly the listed agents on the source version, in order |
| Versioning.VersionDeployer.UpdateChunks | mielin-cells/src/versioning.rs:495-518 | chunks of any positive size make the one linear pass |
| Versioning.VersionDeployer.RollbackUpdates | mielin-cells/src/versioning.rs:577-586 | assigns in order and stops at the first refusal |
| Versioning.VersionDeployer.RollingUpdate | mielin-cells/src/versioning.rs:441-574 | all four strategies give the result of one linear pass; only batch size zero panics, before any change |
| MigrationRate.RateIsBounded | mielin-cells/src/policy.rs:721-759 | consecutive migrations are a cooldown apart, the hourly counter stays in its limit, and every half-open hour holds at most min(2 × limit, ceil(3600/cooldown)) |
| MigrationRate.CooldownsBetween | mielin-cells/src/policy.rs:738-748 | migrations i and j are at least j-i cooldowns apart |
| MigrationRate.WindowsBetween | mielin-cells/src/policy.rs:721-735 | less than an hour holds at most twice the hourly limit |
| MigrationRate.AllowedStaysAllowed | mielin-cells/src/policy.rs:738-759 | an answer once true stays true until a migration is recorded |
| MigrationRate.PolicyEvaluator.constructor | mielin-cells/src/policy.rs:696-708 | starts a legal empty history, under any policy |
| MigrationRate.BoundIsReached | mielin-cells/src/policy.rs:721-759 | for every valid policy some run reaches that bound |
| MigrationRate.HourlyMaximumExactlyWhen | mielin-cells/src/policy.rs:738-759 | the documented maximum holds of every hour if and only if ceil(3600/cooldown) is within it |
| MigrationRate.DefaultPolicyAllowsTwentyPerHour | mielin-cells/src/policy.rs:586-598 | the default of 60 s and 10 per hour allows 20 in one hour |
| MigrationRate.PolicyEvaluator.MigrationAllowed | mielin-cells/src/policy.rs:738-759 | answers exactly whether the recorded history allows a migration now |
| MigrationRate.PolicyEvaluator.RecordMigration | mielin-cells/src/policy.rs:721-735 | recording after having asked since the last migration keeps the history legal, and a legal history of a valid policy keeps the bound for every hour |
| MigrationDecisions.DecisionIsForFirstCondition | mielin-cells/src/policy.rs:762-795 | a migration is decided exactly when some condition holds, with the priority of the one looked at first |
| MigrationDecisions.MostUrgentExactlyWhen | mielin-cells/src/policy.rs:762-795 | the decision has the highest priority of all conditions that hold, exactly outside three overlaps |
| MigrationDecisions.DecisionsAreValidExactlyWhen | mielin-cells/src/policy.rs:918-942 | all decisions of a valid policy validate, exactly unless the latency trigger is on with limit 1 |
| MigrationDecisions.SourceQualifiesExactlyWhen | mielin-cells/src/policy.rs:256-292 | the node that should be left meets the target requirements itself exactly for a low battery, a deep queue with cpu at most 50, or low bandwidth |
| Discovery.EveryRunIsCovered | mielin-cells/src/discovery.rs:297-418 | every registered agent is in both indexes, no index set is empty, health entries are the registered agents |
| Discovery.RunsWithoutReRegistrationAreExact | mielin-cells/src/discovery.rs:297-400 | the indexes hold exactly the registered agents, in every run that re-registers no live agent |
| Discovery.QueriesEqualScans | mielin-cells/src/discovery.rs:546-567 | if live agents are never re-registered, the index queries and the healthy set equal a scan |
| Discovery.ReRegisteringExactlyWhen | mielin-cells/src/discovery.rs:297-334 | re-registering keeps the indexes exact if and only if the service stays and no capability name is dropped |
| Discovery.StaleExactlyWhen | mielin-cells/src/discovery.rs:297-400 | an entry of either index becomes stale exactly when its agent re-registers under another service or without that capability name, and stops being so exactly when it registers there again |
| Discovery.MovedAgentIsFoundUntilItReturns | mielin-cells/src/discovery.rs:297-397 | in every later run that does not register it there again, a moved agent is found under its old service or dropped capability name, registered or not |
| Discovery.SortByScore | mielin-cells/src/discovery.rs:531-536 | descending and a permutation |
| Discovery.Insert | mielin-cells/src/discovery.rs:531-536 | insertion keeps the order and adds one hit |
| Discovery.ServiceRegistry.Collect | mielin-cells/src/discovery.rs:439-536 | every match once, best score first |
| Discovery.ServiceRegistry.Register | mielin-cells/src/discovery.rs:297-346 | keeps every agent covered by both indexes and health |
| Discovery.ServiceRegistry.Deregister | mielin-cells/src/discovery.rs:349-400 | an error exactly for unknown agents; removes the agent and emptied index entries |
| Discovery.ServiceRegistry.UpdateHealth | mielin-cells/src/discovery.rs:403-418 | accepted exactly for registered agents |
| Discovery.ServiceRegistry.HealthyCount | mielin-cells/src/discovery.rs:603-627 | the number of healthy agents under the service index, which is that of a scan when it is exact |
| Discovery.ServiceRegistry.Discover | mielin-cells/src/discovery.rs:433-543 | only matches, each once and judged when looked at, best score first, and what the limit cuts off scores no higher than what is kept |
| LoadBalancer.RoundRobinIsFair | mielin-cells/src/discovery.rs:683-692 | any n consecutive selections pick each of n agents once, from any stored index |
| LoadBalancer.RoundRobinHistoriesAreFair | mielin-cells/src/discovery.rs:663-692 | in every history, n selections for a service answered with the same n agents pick each of them once, whatever is selected for other services or released in between |
| LoadBalancer.PickAt | mielin-cells/src/discovery.rs:683-692 | the j-th of at most n picks is the agent j places further round |
| LoadBalancer.CountsAreLevel | mielin-cells/src/discovery.rs:699-723 | any two counts differ by at most one and add up to the selections |
| LoadBalancer.LeastConnectionsIsFair | mielin-cells/src/discovery.rs:699-714 | k selections from zero counts without releases leave every count at floor(k/n) or ceil(k/n) |
| LoadBalancer.LeastConnectionsHistoriesAreFair | mielin-cells/src/discovery.rs:663-740 | from any table where the counts of n agents differ by at most one, with selections among them in any listed order, selections among others and releases of others in between, each of the n has the floor or ceiling of an equal share |
| LoadBalancer.LeastConnectionsCounts | mielin-cells/src/discovery.rs:663-740 | from zero counts, or from where such a history left them, and with the list in one order, exactly which agent has which count |
| LoadBalancer.Balancer.Select | mielin-cells/src/discovery.rs:663-729 | an error exactly when the registry finds no healthy agent of the service; otherwise the pick of the strategy among exactly those it finds, each listed once |
| LoadBalancer.Balancer.Least | mielin-cells/src/discovery.rs:699-714 | the first agent with the least connections |
| LoadBalancer.Balancer.Release | mielin-cells/src/discovery.rs:732-740 | lowers one count, not below zero, and extends the history |
| AgentPool.EveryRunKeepsInv | mielin-cells/src/pool.rs:182-305 | with a clock that does not run back, created + returned = destroyed + acquired + pooled, the sizes are truthful and bounded, the pool is ordered by last use, ages count from the last release and agents were born before it |
| AgentPool.MaintainRemovesOnlyOldAgents | mielin-cells/src/pool.rs:283-305 | whatever maintain reads of the clock per agent, it keeps every agent in time at its end and none whose time was up at its start |
| AgentPool.RemovesPrefixExactlyWhen | mielin-cells/src/pool.rs:287-300 | in every reachable pool maintain removes exactly a front part, whatever its readings, if and only if the entries that run out of time during the call are all the same: none, one, or copies of one agent released at one instant |
| AgentPool.AcquireHandsOutTheOldest | mielin-cells/src/pool.rs:205-231 | acquire destroys the agents before the first usable one and hands that out, passing over none in time at its end and stopping at none whose time was up at its start |
| AgentPool.AgeIsBoundedExactlyWhen | mielin-cells/src/pool.rs:97-117 | a pooled agent is within max_age of its birth whenever it may be handed out, if and only if its age at the last release leaves room for the smaller of the two limits |
| AgentPool.OldAgentIsHandedOut | mielin-cells/src/pool.rs:205-259 | for every configuration a run hands out an agent older than max_age |
| AgentPool.MaxAgeIsAnIdleLimit | mielin-cells/src/pool.rs:234-259 | at one instant a pooled agent is usable exactly within the smaller of the two limits since its last release |
| AgentPool.Pools.WarmUp | mielin-cells/src/pool.rs:182-195 | the pool then holds at least the minimum, with the agents it had still in front |
| AgentPool.Pools.Acquire | mielin-cells/src/pool.rs:205-231 | a hit exactly when some agent is usable when looked at, and then the first such |
| AgentPool.Pools.Release | mielin-cells/src/pool.rs:234-259 | pools the agent exactly when there is room and it is neither terminated nor failed |
| AgentPool.Pools.Clear | mielin-cells/src/pool.rs:272-280 | empties the pool |
| AgentPool.Pools.Maintain | mielin-cells/src/pool.rs:283-305 | with a forward clock every agent in time at the end stays and none whose time was up at the start |
| AgentPool.Pools.Sift | mielin-cells/src/pool.rs:287-300 | keeps the usable agents in order and counts the others |
| StateHistory.EntriesAreLastVisits | mielin-cells/src/history.rs:190-223 | the entries are the last max_entries visits in closed form over both clock readings of each call, and the current one is the last call's |
| StateHistory.EntriesAreChained | mielin-cells/src/history.rs:60-65 | stored visits name the state of the one before; with a clock that never runs back they do not overlap, and they carry their durations when none ended before it began |
| StateHistory.StatisticsAreExact | mielin-cells/src/history.rs:114-129 | every count and time equals its meaning for the run |
| StateHistory.TotalsAreConsistent | mielin-cells/src/history.rs:190-223 | the total is the sum of the nested counts and is calls minus one exactly when no visit ended before it began; with a forward clock the times add up to at most last exit minus first entry, and to exactly that if and only if the two readings agree at every call in between |
| StateHistory.TimeAddsUp | mielin-cells/src/history.rs:114-129 | the times per state and the time within the calls in between make up last exit minus first entry |
| StateHistory.TimeIsLostBetweenReadings | mielin-cells/src/history.rs:190-223 | three calls whose times add up to 9 of 10 |
| StateHistory.AggregateStatistics | mielin-cells/src/history.rs:353-377 | the pointwise sum over all agents, in any order |
| StateHistory.MergeTable | mielin-cells/src/history.rs:361-363 | pointwise sum of two tables, in any order |
| StateHistory.MergeCounts | mielin-cells/src/history.rs:365-373 | pointwise sum of two nested tables |
| StateHistory.AgentHistory.RecordTransition | mielin-cells/src/history.rs:190-223 | the entries are then the last visits of the run |
| StateHistory.AgentHistory.Clear | mielin-cells/src/history.rs:264-268 | starts the run anew |
| AuditLog.LogIsASuffix | mielin-cli/src/audit.rs:118-148 | at most keep_rotations files of exactly max(1, max_entries) entries, and oldest to newest with the current file they are a suffix of everything accepted |
| AuditLog.RecentEntriesAreKept | mielin-cli/src/audit.rs:305-347 | more than keep_rotations × limit entries are kept, or all |
| AuditLog.RotationKeepsSuffix | mielin-cli/src/audit.rs:305-347 | a rotation loses only oldest entries, and none while a slot is free |
| AuditLog.AuditLogger.Log | mielin-cli/src/audit.rs:118-148 | after any calls the files hold a suffix of what was accepted, in full rotated files |
| AuditLog.AuditLogger.RotateIfNeeded | mielin-cli/src/audit.rs:305-347 | files move up one number, the current one becomes number 1, the surplus goes, including 0 and 1 rotations |
| AuditLog.AuditLogger.ShiftUp | mielin-cli/src/audit.rs:317-330 | the descending rename loop moves every file below the last slot up by one |
| AuditLog.AuditLogger.Clear | mielin-cli/src/audit.rs:358-380 | no log file is left |
| AgentGroup.AcceptedExactlyWhen | mielin-cells/src/group.rs:265-364 | an operation succeeds exactly when the state and membership allow it and its outcome respects the limits |
| AgentGroup.RunsAreBounded | mielin-cells/src/group.rs:265-364 | members and leaders stay within their maxima in every run |
| AgentGroup.ActiveKeepsMinimum | mielin-cells/src/group.rs:296-364 | while Active, a leader count that has reached the minimum never drops below it |
| AgentGroup.DropsBelowMinimumExactlyWhen | mielin-cells/src/group.rs:303-313 | which call takes the count below the minimum, both ways |
| AgentGroup.PauseRemoveResume | mielin-cells/src/group.rs:391-408 | pause, remove and resume give an Active group without leaders |
| AgentGroup.DissolutionIsOneWay | mielin-cells/src/group.rs:411-439 | Dissolving only shrinks membership; Dissolved is absorbing and empty |
| AgentGroup.DissolvedIsEmpty | mielin-cells/src/group.rs:421-439 | every run that ends Dissolved ends empty |
| AgentGroup.CommitKeepsBounds | mielin-cells/src/group.rs:265-364 | one operation keeps the maxima, the minimum when Active, adds no member otherwise and does nothing when Dissolved |
| AgentGroupThreads.InterleavingsAreBounded | mielin-cells/src/group.rs:265-293 | the maxima hold under every interleaving of the two locks |
| AgentGroupThreads.MinimumSurvivesExactlyWhen | mielin-cells/src/group.rs:296-364 | an Active group within its limits keeps its minimum of leaders under all interleavings exactly when no removal that read another state is still to come for an agent that leads or can come to lead |
| AgentGroupThreads.DissolvedStaysEmptyExactlyWhen | mielin-cells/src/group.rs:265-293 | a dissolved group stays empty under all interleavings exactly when no late addition is under way |
| AgentGroup.LiveGroup.AddMember | mielin-cells/src/group.rs:265-293 | answers as decided and keeps the maxima |
| AgentGroup.LiveGroup.RemoveMember | mielin-cells/src/group.rs:296-321 | answers as decided and keeps the minimum while Active |
| AgentGroup.LiveGroup.ChangeRole | mielin-cells/src/group.rs:324-364 | answers as decided and keeps the maxima and the minimum |
| AgentGroup.LiveGroup.ChangeState | mielin-cells/src/group.rs:391-439 | answers as decided; nothing leaves Dissolved |
| AgentGroup.LiveGroup.CountLeaders | mielin-cells/src/group.rs:255-262 | the number of members that are leaders |
| AgentLifecycle.ReachableExactlyWhen | mielin-cells/src/agent.rs:139-172 | a legal path leads from one state to another exactly when the first is not Terminated and the second not Created, and two transitions are enough |
| AgentLifecycle.HistoryIsThePath | mielin-cells/src/agent.rs:322-401 | without the unchecked setter the history is the last ten of Created and all states left, these and the present state are a legal path, and an error is stored only in Error |
| AgentLifecycle.TerminatedIsFinal | mielin-cells/src/agent.rs:322-413 | over every further run Terminated is kept throughout if and only if the unchecked setter is never called with another state |
| AgentLifecycle.ErrorStaysInPlaceExactlyWhen | mielin-cells/src/agent.rs:322-413 | in every run an error is stored only in Error, all along, if and only if the unchecked setter is never called with another state while one is stored |
| AgentLifecycle.FatalErrorBlocksOnlyRecovery | mielin-cells/src/agent.rs:322-413 | over every further run an agent with a fatal error stays exactly as it is if and only if neither an ordinary transition out of Error nor the unchecked setter is asked for |
| AgentLifecycle.SetterBreaksBoth | mielin-cells/src/agent.rs:404-413 | the unchecked setter leaves Terminated and keeps an error outside Error |
| AgentLifecycle.LiveAgent.TransitionTo | mielin-cells/src/agent.rs:322-353 | succeeds exactly along the table |
| AgentLifecycle.LiveAgent.SetError | mielin-cells/src/agent.rs:356-375 | succeeds exactly where Error can be entered |
| AgentLifecycle.LiveAgent.AttemptRecovery | mielin-cells/src/agent.rs:383-401 | blocked exactly by a fatal error; success runs without an error |
| AgentLifecycle.LiveAgent.SetState | mielin-cells/src/agent.rs:404-413 | the unchecked step that SetterBreaksBoth is about |
| AgentLifecycle.LiveAgent.constructor | mielin-cells/src/agent.rs:285-296 | a Created agent |

## Left out

- Orchestrator.Orchestrator.AutoScale: the 32-bit overflow of ready+1 at 2^32-1 ready agents is not modelled.
- MigrationRate.PolicyEvaluator.MigrationAllowed: the unsigned wrap-around of a clock that ran back is not modelled.
- SchedulerThreads.LockedCallsAlwaysFit: nodes registered or removed while another thread is inside a call.
- The replacement of a policy at run time.
- The panic of `mark_seen` on a clock younger than the deduplication window.
- Floating point: CPU, distance, temperature, cost and score are exact, and distance is an arbitrary function of two locations.
- Random balancing, A/B and canary assignment: probabilistic.
- Memory ordering weaker than sequential consistency: every load and store is one atomic step of an interleaving.
- Audit log input and output errors, lines that do not parse, and files left by another configuration.
- Metadata, reasons, required architectures, tags, group hierarchy, shared policies, registries of groups and per-agent history queries: lookups and fields that no modelled decision depends on.
- `score_target_node` and `select_best_target`: a weighted sum and a maximum.
- Everything outside these files: snapshots, compression, gossip, plugins, scripts, hardware detection.
