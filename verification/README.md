# Soft Message Bus: verified models

Dafny models of the parts of the Soft Message Bus where a mistake would be hardest to see, with proofs of what
they keep over whole runs.  `dafny verify dfyconfig.toml` checks everything.

## What is modelled

- **HA runtime.** `HaNode` is one node as a value: role, epoch, lifecycle, eight peer slots, and what each entry
  point does.  `Runtime` is the object that does the same in place, loops and observer calls included; its methods
  are proved equal to the value functions.  `Cluster` lets any number of nodes exchange heartbeats over a network
  that loses, duplicates, delays and reorders them.  `PeerTable` and `Observers` show that the two slot arrays are a
  bounded map and a bounded set.  `HaOutcomes` says what each call comes to, in full, and what follows for roles and
  failover over whole runs.  `RuntimeSteps` takes the entry points apart into critical sections and unlocked
  accesses and lets any number of threads interleave, `ClusterSteps` does so in every node of a cluster.  `DomainPolicy`
  and `Assurance` are the decisions behind start-up and admission.
- **Ingress.** `Ingress` is the routing engine's reception, dispatch and routing as a state machine over single
  atomic operations of any number of threads: token counter, watermarks, flag, queue, counters, message blocks, whose
  addresses are reused once they are given back.  `IngressCopies` follows the pointers to them, `IngressTraces`
  shows what is read after a release, `IngressCauses` ties every drop counter to the decisions it counts in every
  interleaving, `IngressHandlers` runs handlers undisturbed, `IngressBooks` gives the whole state each of them leaves
  and what a new engine holds, and `RoutingEngine` is the engine object,
  proved to do what the machine does.  `PressureLog` is the rate-limited warning beside it, `Message` the copy.
- **Rule manager.** `RuleIndex` is the list with its 257-bucket index as a value, `RuleOutcomes` what its operations
  come to, told by later lookups, `RuleManager` the object.
- **Port table.** `Ports` is the table shared by processes that may die at any moment, `PortLocks` adds the lock files
  call by call, `PortTable` is one process's view.
- **Arithmetic.** `Lcg`, `UniqueId`, `Isqrt`, `AlignedHeap`, on explicitly wrapped machine words; `Arithmetic`,
  `Totals` and `Wrappers` are helpers.

Clocks, allocation results, probes, header and policy verdicts, and the order in which threads and processes step are
parameters or choices: the theorems hold for all of them.  Epochs are unbounded; `Cluster.EpochsAreEarned` bounds
them by the number of promotions, so 64 bits do not wrap in practice.  The rule manager's operations run under its
mutex and are single steps.  Those of the runtime are single steps in `HaNode`, `Cluster` and `Runtime`; in the source
start, stop, timeout and election are not, and `RuntimeSteps` and `ClusterSteps` show what that costs and what it
does not.

## What the proofs brought out

- Two primaries that have heard each other's current reign cannot exist, even if roles are assigned by hand.  What
  manual assignment does break is the strict fence: exactly when the node has recorded a peer with its own epoch.
- The square root of the largest 32-bit value divides by zero: the starting point wraps to 0.
- The pressure warning is documented as at most one per second.  A thread delayed between reading the clock and
  swapping the stamp breaks that, because an older reading makes the unsigned difference huge.  Making the two one step
  spaces the stamps, but a thread delayed before printing can still print beside the next one.
- Destroying a message frees its block and then reads the header for a trace line, at any log level.  The read never
  finds the message it is about: it finds a freed block, or another message once the address is handed out again.
- `make_rule` ignores a failed push onto the list, so a rule can be found that no list holds; if indexing fails too, the
  caller gets a rule that no lookup finds.
- Peer ids over 31 characters and rule names over 63 are cut after the search, so each use adds another entry.
- A release by one thread while another thread of the same process is acquiring that port frees an entry still in use,
  and a second process can then get the same port; the file lock does not prevent it, because the rest of the release
  closes a descriptor of the lock file and so drops the process's own lock.
- Overlapping start and stop calls can leave the runtime started in state STOPPED or FAULTED; role, epoch and peers are
  safe from this.
- The aligned allocator does not check its size computation: if it wraps, the result lies outside the raw block.
- A message copied onto itself is cleared.
- Three expectations in `tests/unit/smb/test_zoo_smb_runtime_ha.c` differ from the code, and the models follow the
  code: the initial epoch is 1 (line 115 expects 0), `set_role` notifies no observer (line 150 expects a call), and
  a reported timeout does not mark the peer unhealthy (line 241 expects it to).

## Model

| member | source | states |
|---|---|---|
| Cluster.NoRingOfPrimaries | src/kernal/core/zoo_smb_runtime.c:683-741 | in every cluster run, with loss, duplication, delay and reordering of heartbeats and with role assignment, no circle of nodes exists in which each has accepted a heartbeat of the next one's current reign |
| Cluster.SplitBrainEndsOnExchange | src/kernal/core/zoo_smb_runtime.c:683-741 | two nodes can never both be PRIMARY while each has accepted a heartbeat the other sent during its current reign |
| Cluster.EpochsAreEarned | src/kernal/core/zoo_smb_runtime.c:161-170 | no epoch, held or in flight, exceeds one plus the number of promotions so far; no recorded peer epoch exceeds its holder's |
| Cluster.HeardReignIsOutranked | src/kernal/core/zoo_smb_runtime.c:730-738 | without role assignment a PRIMARY that has heard another's current reign has a strictly higher epoch |
| Cluster.SplitBrainIsReachable | src/kernal/core/zoo_smb_runtime.c:785-817 | the partner of the exclusion results: two elections without exchange give two primaries of one epoch |
| Cluster.StepKeepsInv | src/kernal/core/zoo_smb_runtime.c:683-741 | every send, delivery and local step keeps heartbeats authentic, heard epochs bounded and the hearing relation acyclic |
| Cluster.DeliverMakesNoCycle | src/kernal/core/zoo_smb_runtime.c:730-738 | the step that matters: an accepted heartbeat of an equal or higher epoch demotes, so a delivery closes no circle |
| Cluster.CycleIsFlat | src/kernal/core/zoo_smb_runtime.c:730-738 | around a closed walk of hearing all epochs are equal |
| Cluster.RunKeepsInv | src/kernal/core/zoo_smb_runtime.c:683-741 | the cluster invariant holds after every run |
| ClusterSteps.FineRunIsARun | src/kernal/core/zoo_smb_runtime.c:385-817 | a cluster whose nodes' threads interleave looks, in role, epoch, peers and heartbeats heard, like a cluster of whole calls |
| ClusterSteps.NoRingInterleaved | src/kernal/core/zoo_smb_runtime.c:683-741 | hence no ring of primaries however the threads of every node interleave |
| ClusterSteps.SplitBrainEndsInterleaved | src/kernal/core/zoo_smb_runtime.c:683-741 | nor can two primaries have heard each other's current reigns |
| HaNode.NodeRunSafe | src/kernal/core/zoo_smb_runtime.c:313-503 | after every run from creation: peer table shape, started implies admissible and RUNNING or DEGRADED, and, without role assignment, the epoch fence |
| HaNode.ApplyKeepsFence | src/kernal/core/zoo_smb_runtime.c:683-817 | every entry point but set_role keeps: recorded epochs at most the own one, and strictly below it on a PRIMARY |
| HaNode.AssignKeepsFenceIff | src/kernal/core/zoo_smb_runtime.c:588-599 | set_role keeps the fence exactly when it does not make PRIMARY a node that has recorded its own epoch |
| HaNode.AssignedPrimaryIsNotFenced | src/kernal/core/zoo_smb_runtime.c:588-599 | a concrete run in which set_role breaks the strict fence |
| HaNode.EpochIsMonotone | src/kernal/core/zoo_smb_runtime.c:161-170 | no step lowers the epoch, it is constant within a tenure, and it reaches every accepted epoch, strictly on a node that stays PRIMARY |
| HaNode.ApplyKeepsStartedSafely | src/kernal/core/zoo_smb_runtime.c:385-476 | every step keeps: started implies an admissible profile, identity and protocol, and state RUNNING or DEGRADED |
| HaNode.StartSucceedsIff | src/kernal/core/zoo_smb_runtime.c:385-476 | start succeeds exactly on a started node or on an admissible one with a ready bus, and then the node is started |
| HaNode.TickOutcome | src/kernal/core/zoo_smb_runtime.c:187-233 | after a monitor pass the healthy named peers are exactly the fresh ones; with HA on a non-primary becomes PRIMARY exactly when there is none |
| HaNode.HealthyMeansHeard | src/kernal/core/zoo_smb_runtime.c:718-728 | over every run a healthy slot carries the time of an accepted heartbeat |
| HaNode.FailoverBound | src/kernal/core/zoo_smb_runtime.c:178-236 | a monitor pass later than every accepted heartbeat plus the timeout yields PRIMARY, whatever else happened |
| HaNode.DemotedIff | src/kernal/core/zoo_smb_runtime.c:730-738 | a PRIMARY is demoted exactly by an accepted heartbeat with an epoch not below its own (or by set_role) |
| HaNode.PrimaryPersists | src/kernal/core/zoo_smb_runtime.c:730-738 | hence it keeps role and epoch through every run without such a heartbeat |
| HaOutcomes.TimeoutOutcome | src/kernal/core/zoo_smb_runtime.c:750-778 | with HA on a timeout always ends with the node PRIMARY: in the next epoch and DEGRADED unless it was PRIMARY, then unchanged; with HA off it is refused and changes nothing |
| HaOutcomes.ElectionOutcome | src/kernal/core/zoo_smb_runtime.c:785-817 | with HA on an election always ends PRIMARY and RUNNING, in the next epoch unless it was PRIMARY; with HA off it is refused |
| HaOutcomes.HeartbeatOutcome | src/kernal/core/zoo_smb_runtime.c:683-741 | every refusal and its status changes nothing; an accepted epoch not below the own one makes the node SECONDARY in that epoch and ends DEGRADED of a started node, a lower one changes neither role, epoch nor state |
| HaOutcomes.HeartbeatRecords | src/kernal/core/zoo_smb_runtime.c:718-728 | an accepted heartbeat writes epoch, time and health into the slot of its id, else into the first free one under its first 31 characters, and into no other |
| HaOutcomes.TakenInIff | src/kernal/core/zoo_smb_runtime.c:697-724 | with HA on and a slot for the id a heartbeat is accepted exactly when the profile in force is GENERIC, or valid with both identities present |
| HaOutcomes.MonitorOutcome | src/kernal/core/zoo_smb_runtime.c:187-233 | a monitor pass promotes exactly when HA is on, no peer is fresh and the node is not PRIMARY, and ends DEGRADED of a started node exactly when one is fresh; ids, epochs and times stay |
| HaOutcomes.StartOutcome | src/kernal/core/zoo_smb_runtime.c:385-476 | a start on an admissible node with a ready bus leaves it started and RUNNING, with the monitor up when HA is on and its task was submitted; a failed one leaves FAULTED and every flag as it was |
| HaOutcomes.StopOutcome | src/kernal/core/zoo_smb_runtime.c:483-503 | a stop clears both flags, ends STOPPED and touches neither role, epoch nor peers |
| HaOutcomes.RestartRestores | src/kernal/core/zoo_smb_runtime.c:385-503 | stop and start of an admissible started node give back a RUNNING one of the same role, epoch and peers |
| HaOutcomes.AssignOutcome | src/kernal/core/zoo_smb_runtime.c:588-599 | set_role changes the role and nothing else |
| HaOutcomes.CreateOutcome | src/kernal/core/zoo_smb_runtime.c:313-378 | a new node: CREATED, epoch 1, eight free slots, SECONDARY with HA and STANDALONE without, the defaults of absent options |
| HaOutcomes.ProfileInForce | src/kernal/core/zoo_smb_runtime.c:313-378 | the profile in force is the caller's override exactly when it is enabled and valid, else the build's |
| HaOutcomes.ProtocolInForce | src/kernal/core/zoo_smb_runtime.c:313-378 | a major version of zero becomes one, all others are kept |
| HaOutcomes.ApplyKeepsRoleFits | src/kernal/core/zoo_smb_runtime.c:683-817 | every call but set_role keeps: PRIMARY or SECONDARY with HA, STANDALONE without |
| HaOutcomes.RolesFit | src/kernal/core/zoo_smb_runtime.c:313-817 | hence after every run without set_role |
| HaOutcomes.PromotionLasts | src/kernal/core/zoo_smb_runtime.c:750-817 | the PRIMARY made by a timeout or an election stays PRIMARY in its epoch over every run in which no heartbeat challenges it |
| HaOutcomes.SendOutcome | src/kernal/core/zoo_smb_runtime.c:683-741 | a sent heartbeat carries the sender's epoch and reign |
| HaOutcomes.ExchangeEndsSplitBrain | src/kernal/core/zoo_smb_runtime.c:730-738 | of two primaries one accepted heartbeat leaves one: the receiver of an epoch not below its own is SECONDARY in that epoch, the sender keeps its reign |
| PeerTable.HeartbeatRefinesUpdate | src/kernal/core/zoo_smb_runtime.c:103-153 | for ids of 1 to 31 characters an admitted heartbeat is a map update; only a ninth id is refused, with all state unchanged |
| PeerTable.FreeSlotIff | src/kernal/core/zoo_smb_runtime.c:129-153 | a free slot exists exactly while the map has room |
| PeerTable.EntriesSurvive | src/kernal/core/zoo_smb_runtime.c:683-741 | no heartbeat drops or renames an entry, or touches one of another id |
| PeerTable.EntriesPersist | src/kernal/core/zoo_smb_runtime.c:103-153 | over every run an id once in a slot stays in it and is found |
| PeerTable.UniqueAfterIff | src/kernal/core/zoo_smb_runtime.c:129-153 | uniqueness of ids survives a heartbeat exactly unless HA is on, it is admitted, there is room, and it cuts a long id down to one already present |
| PeerTable.LongIdNeedsRoom | src/kernal/core/zoo_smb_runtime.c:129-153 | a long id is never found: its heartbeat succeeds exactly while there is room, and otherwise changes nothing |
| PeerTable.LongIdDuplicates | src/kernal/core/zoo_smb_runtime.c:145-150 | a 32-character id takes a second slot at its second heartbeat |
| PeerTable.RunKeepsUnique | src/kernal/core/zoo_smb_runtime.c:103-153 | runs whose ids fit the buffer never give one id two slots |
| PeerTable.UpdateRefines | src/kernal/core/zoo_smb_runtime.c:718-724 | writing a slot over its own or a free entry is a map update at its id |
| Observers.RegisterRefinesInsert | src/kernal/core/zoo_smb_runtime.c:608-642 | registration is set insertion, refused exactly for a member and for a full table |
| Observers.UnregisterRefinesRemove | src/kernal/core/zoo_smb_runtime.c:651-674 | unregistration is set removal, reported missing exactly for a non-member |
| Observers.NotificationVisitsEachOnce | src/kernal/core/zoo_smb_runtime.c:245-270 | a notification calls every registered pair exactly once |
| Observers.MemberCount | src/kernal/core/zoo_smb_runtime.c:608-642 | the members fill the table exactly when no slot is free |
| Observers.TableIsABoundedSet | src/kernal/core/zoo_smb_runtime.c:608-674 | after every run of registrations and removals the slots hold, each pair once, what the same calls leave in a set of at most eight |
| Runtime.RuntimeObject.constructor | src/kernal/core/zoo_smb_runtime.c:313-378 | a created runtime is the value model's created node, with no observers |
| Runtime.RuntimeObject.FindPeerSlot | src/kernal/core/zoo_smb_runtime.c:103-121 | the loop finds the first slot of the id |
| Runtime.RuntimeObject.FindOrCreatePeerSlot | src/kernal/core/zoo_smb_runtime.c:129-153 | it claims exactly the slot and table the value model claims, or leaves the table alone when full |
| Runtime.RuntimeObject.NotifyStateChange | src/kernal/core/zoo_smb_runtime.c:245-270 | the loop calls the registered pairs in slot order with both states |
| Runtime.RuntimeObject.SetRuntimeState | src/kernal/core/zoo_smb_runtime.c:278-294 | writes the state and announces it to the registered pairs exactly on a change |
| Runtime.RuntimeObject.StartRuntime | src/kernal/core/zoo_smb_runtime.c:385-476 | status and new state are the value model's; announcements in order |
| Runtime.RuntimeObject.StopRuntime | src/kernal/core/zoo_smb_runtime.c:483-503 | new state is the value model's; announces STOPPING |
| Runtime.RuntimeObject.AssignRole | src/kernal/core/zoo_smb_runtime.c:588-599 | changes only the role |
| Runtime.RuntimeObject.ReportPeerHeartbeat | src/kernal/core/zoo_smb_runtime.c:683-741 | status and new state are the value model's, on every path; accepted with an epoch not below the own one it ends SECONDARY in that epoch, otherwise role, epoch and state stay |
| Runtime.RuntimeObject.ReportPeerTimeout | src/kernal/core/zoo_smb_runtime.c:750-778 | status and new state are the value model's: refused exactly without HA, otherwise PRIMARY, in a new epoch and DEGRADED unless it was PRIMARY; announces the state change |
| Runtime.RuntimeObject.TriggerElection | src/kernal/core/zoo_smb_runtime.c:785-817 | status and new state are the value model's: refused exactly without HA, otherwise PRIMARY and RUNNING, in a new epoch unless it was PRIMARY; announces the state change |
| Runtime.RuntimeObject.AgePeers | src/kernal/core/zoo_smb_runtime.c:190-216 | the loop marks exactly the stale named slots and finds out whether a healthy one is left |
| Runtime.RuntimeObject.MonitorPass | src/kernal/core/zoo_smb_runtime.c:187-233 | one monitor pass is the value model's tick |
| Runtime.RuntimeObject.RegisterObserver | src/kernal/core/zoo_smb_runtime.c:608-642 | status and table are the value model's |
| Runtime.RuntimeObject.UnregisterObserver | src/kernal/core/zoo_smb_runtime.c:651-674 | status and table are the value model's |
| Runtime.RuntimeObject.GetPeerStatus | src/kernal/core/zoo_smb_runtime.c:826-854 | found exactly when a named slot has the id, and then that slot's data |
| RuntimeSteps.RunIsASequence | src/kernal/core/zoo_smb_runtime.c:385-817 | at the granularity of critical sections and unlocked flags, in every interleaving of any number of threads, role, epoch and peers are those of the calls begun, in the order of their first steps, made whole |
| RuntimeSteps.FenceHoldsInterleaved | src/kernal/core/zoo_smb_runtime.c:683-817 | hence the epoch fence holds in every interleaving without role assignment |
| RuntimeSteps.StartedIsAdmissible | src/kernal/core/zoo_smb_runtime.c:385-476 | in every interleaving a started node has passed profile, identity and protocol checks |
| RuntimeSteps.StartedIsUp | src/kernal/core/zoo_smb_runtime.c:385-503 | while start and stop calls do not overlap, a started node is RUNNING or DEGRADED whenever none is under way, however all other calls interleave |
| RuntimeSteps.OverlapCanEndBadly | src/kernal/core/zoo_smb_runtime.c:385-503 | the other half: on a node that can be started, every overlap of start and stop calls can end with both done, the node started and its state neither RUNNING nor DEGRADED |
| RuntimeSteps.StartedCanBeDown | src/kernal/core/zoo_smb_runtime.c:385-503 | such a run from creation |
| RuntimeSteps.SoloCallIsApply | src/kernal/core/zoo_smb_runtime.c:385-817 | an undisturbed call, step by step, does what the value model says |
| Assurance.StartupVerdict | src/assurance/zoo_assurance_mesh.c:96-126 | start-up is granted exactly to GENERIC, or to a valid profile with equal majors and peer minor at most local minor; an invalid profile never succeeds |
| Assurance.AdmissionVerdict | src/assurance/zoo_assurance_mesh.c:133-159 | a peer on the profile's own partition is admitted exactly when GENERIC, or both identities are present |
| Assurance.AdmissionIff | src/assurance/zoo_assurance_mesh.c:133-159 | for every partition: admission exactly on partition 0 for GENERIC, and on 10-19, 20-29 or 30-39 for the other three with both identities present |
| Assurance.SnapshotIff | src/assurance/zoo_assurance_mesh.c:40-63 | a policy snapshot is valid exactly on such a partition and with an assurance class not below the profile's |
| Assurance.PartitionsSeparateProfiles | src/domain/zoo_domain_policy.c:81-146 | no partition id is admitted under two profiles |
| Ingress.WatermarkHolds | src/kernal/core/zoo_smb_routing_engine.c:348-361 | in every interleaving the token counter equals the outstanding tokens, never underflows, exceeds the high watermark by at most the threads inside the reject window, and admitted unfinished messages never exceed it |
| Ingress.AccountingHolds | src/kernal/core/zoo_smb_routing_engine.c:80-127 | with telemetry on, mid-run, received, enqueued, dequeued, dropped and the reason counters differ by exactly the threads in flight; egress and INVALID_PARAM drops included |
| Ingress.BooksClose | src/kernal/core/zoo_smb_routing_engine.c:80-127 | at quiescence the three accounting equations close and the token counter equals the queued messages |
| Ingress.StepKeepsInv | src/kernal/core/zoo_smb_routing_engine.c:287-399 | every atomic step of every thread keeps the conservation laws |
| Ingress.StepKeepsWatermark | src/kernal/core/zoo_smb_routing_engine.c:348-361 | every atomic step keeps admitted messages within the watermark |
| Ingress.RunKeepsInv | src/kernal/core/zoo_smb_routing_engine.c:206-399 | the invariant holds after every schedule of any number of threads |
| IngressCopies.LinearOwnership | src/kernal/core/zoo_smb_routing_engine.c:370-393 | in every interleaving an allocation is in exactly one place: one thread, the queue once, or freed once; addresses are reused |
| IngressCopies.HeldExclusively | src/kernal/core/zoo_smb_routing_engine.c:220-252 | up to its release a pointer in a thread's hands has its own allocated block, and no other thread or queued item that may still read or release one has that address: no delivery, write or free is stale |
| IngressCopies.ReadBackIsStale | src/kernal/core/zoo_smb_message.c:329-336 | in every interleaving the header read that the destroy routine makes after freeing goes through a pointer whose block is gone; it finds a block exactly when the address has been allocated again, and then a later allocation's |
| IngressCopies.TracesShowAnother | src/kernal/core/zoo_smb_message.c:329-336 | hence no trace line of a destroyed message shows that message: it shows nothing or a later one |
| IngressTraces.ShownAnother | src/kernal/core/zoo_smb_message.c:329-336 | from every state with one thread before that read and another about to allocate, the allocator's answer alone makes the first show the second one's message |
| IngressTraces.TraceCanShowAnother | src/kernal/core/zoo_smb_routing_engine.c:370-382 | a run from a new engine in which the trace line of a dropped message shows another message's header |
| IngressCopies.NothingLeaks | src/kernal/core/zoo_smb_message.c:329-336 | when no handler runs, the blocks not yet destroyed are exactly those of the queued messages |
| IngressCopies.OthersSurvive | src/kernal/core/zoo_smb_routing_engine.c:370-393 | an operation on one copy leaves the block of every copy it does not hold alone, be it a write, a free or a reallocation |
| IngressCopies.DeliveriesAreFaithful | src/kernal/core/zoo_smb_message.c:402-436 | what a delivery reads at the pointer's address, after any frees and reuse of addresses, is the header and the announced bytes of the message that allocation was made for |
| IngressCopies.RunKeepsSane | src/kernal/core/zoo_smb_routing_engine.c:206-399 | conservation, ownership and content invariants hold after every schedule from any state that has them |
| IngressCopies.AtMostOneDelivery | src/kernal/core/zoo_smb_routing_engine.c:206-271 | no copy is delivered twice |
| IngressCauses.CountersShowCauses | src/kernal/core/zoo_smb_routing_engine.c:80-127 | in every interleaving, with telemetry on, each drop counter plus what threads have yet to count equals the number of times its own cause was settled: header check, policy, high watermark, queue slot, and the total over all causes |
| IngressCauses.CountersAreExact | src/kernal/core/zoo_smb_routing_engine.c:287-399 | once every thread is idle, each counter is exactly the number of settled causes of its kind |
| IngressCauses.SilentWithoutTelemetry | src/kernal/core/zoo_smb_routing_engine.c:80-127 | with telemetry off no interleaving moves any counter |
| IngressCauses.FlagMoves | src/kernal/core/zoo_smb_routing_engine.c:206-361 | the flag goes up exactly in the step after counting a backpressure drop and down exactly in the step that saw the counter at or below the low watermark |
| IngressCauses.QueueIsFifo | src/kernal/core/zoo_smb_routing_engine.c:386-393 | in every interleaving the queue only loses its head or gains one item at its end |
| IngressBooks.CheckedOut | src/kernal/core/zoo_smb_routing_engine.c:287-346 | a message refused by the header check moves received, dropped and the invalid-header counter by one, one refused by policy received, dropped and the security counter, and nothing else changes |
| IngressBooks.RejectedAtHigh | src/kernal/core/zoo_smb_routing_engine.c:348-361 | at the high watermark: received, dropped and the backpressure counter move by one, the flag is up, and nothing else changes |
| IngressBooks.WithoutBlock | src/kernal/core/zoo_smb_routing_engine.c:370-376 | without a block: received and dropped move, no reason counter, and nothing else changes |
| IngressBooks.WithoutPayload | src/kernal/core/zoo_smb_routing_engine.c:378-384 | without payload memory: the same, and the block is given back |
| IngressBooks.WithoutSlot | src/kernal/core/zoo_smb_routing_engine.c:386-393 | without a queue slot: received, dropped and the queue-full counter move, token and block are given back |
| IngressBooks.WithEverything | src/kernal/core/zoo_smb_routing_engine.c:287-399 | otherwise: received, enqueued and the token counter move, and the last queue item is a new block holding the copy |
| IngressBooks.ReceptionCounters | src/kernal/core/zoo_smb_routing_engine.c:287-399 | counter by counter, for every reception: which move, by one with telemetry and not at all without, and that no others do |
| IngressBooks.DispatchBooks | src/kernal/core/zoo_smb_routing_engine.c:206-271 | a dispatch takes the oldest item, delivers its content if there is an observer list, frees its block, returns one token, counts once, and clears the flag exactly with an observer list at or below the low watermark |
| IngressBooks.RouteBooks | src/kernal/core/zoo_smb_routing_engine.c:771-823 | a route call queues one item, or after its refusals counts one drop as queue full and nothing else |
| IngressHandlers.DriveIsASchedule | src/kernal/core/zoo_smb_routing_engine.c:206-399 | an undisturbed handler is one of the machine's interleavings |
| IngressHandlers.WatermarksAreOrdered | src/kernal/core/zoo_smb_routing_engine.c:442-455 | every configuration gives 1 <= low <= high, with low < high exactly unless high is 1 |
| IngressBooks.SettingsInForce | src/kernal/core/zoo_smb_routing_engine.c:422-455 | queue size: the setting or 1024; high watermark: the setting or the queue size; low watermark: the setting exactly between zero and high, else half of high, at least one |
| IngressBooks.NewEngineHolds | src/kernal/core/zoo_smb_routing_engine.c:287-399 | a new engine holds, in order and each in its own block, any welcome messages up to its high watermark and queue size, with the flag down |
| IngressBooks.QueueSizeIsTheLimit | src/kernal/core/zoo_smb_routing_engine.c:422-455 | with the watermarks unset it holds exactly as many messages as its queue size, 1024 if unset; the next is counted as backpressure and raises the flag |
| IngressHandlers.ReceiveOutcome | src/kernal/core/zoo_smb_routing_engine.c:287-399 | a reception leaves the gate alone, or rejects at the watermark raising the flag, or queues one message with one token |
| IngressHandlers.DispatchOutcome | src/kernal/core/zoo_smb_routing_engine.c:206-271 | a dispatch returns exactly one token and lowers the flag only at the low watermark and only with an observer list |
| IngressHandlers.RouteOutcome | src/kernal/core/zoo_smb_routing_engine.c:771-823 | a route call touches neither tokens nor flag and queues at most one item |
| IngressHandlers.HandleKeepsRest | src/kernal/core/zoo_smb_routing_engine.c:206-399 | between whole handlers the token counter equals the queued messages and stays within the watermark |
| IngressHandlers.FlagEdges | src/kernal/core/zoo_smb_routing_engine.c:254-269 | between whole handlers the flag goes up only at the high watermark and down only at the low one |
| IngressHandlers.BandAfterIff | src/kernal/core/zoo_smb_routing_engine.c:254-269 | a handler keeps 'flag implies above low' exactly unless it rejects with equal watermarks or discards, for lack of an observer list, the message that crosses low |
| IngressHandlers.UnhinderedIsQueued | src/kernal/core/zoo_smb_routing_engine.c:348-398 | a message that passes every check and finds room and memory takes one token, one block and one place in the queue |
| IngressHandlers.SingleWatermarkLeavesBand | src/kernal/core/zoo_smb_routing_engine.c:442-455 | with a high watermark of 1, two arrivals raise the flag at the low watermark |
| IngressHandlers.DiscardLeavesBand | src/kernal/core/zoo_smb_routing_engine.c:220-236 | from an empty engine: three arrivals and a discard leave the flag up at the low watermark; the discard needs a rule without observer list, which zoo_smb_create_routing_rule refuses to make |
| IngressHandlers.HysteresisHolds | src/kernal/core/zoo_smb_routing_engine.c:254-269 | over every run of whole handlers with low < high and observer lists present, an active flag implies low < in flight <= high |
| RoutingEngine.Engine.constructor | src/kernal/core/zoo_smb_routing_engine.c:410-470 | a created engine has the configured queue size (1024 if unset) and watermarks, is empty and satisfies all the machine's invariants |
| RoutingEngine.Engine.HandleTransportIncomingData | src/kernal/core/zoo_smb_routing_engine.c:287-399 | the whole reception, on message blocks in the heap and through the copy routine, is the machine's handler on every path and keeps all invariants; with telemetry it counts one reception, and one drop under header, policy or backpressure exactly for that cause |
| RoutingEngine.Engine.DispatchNext | src/kernal/core/zoo_smb_routing_engine.c:206-271 | taking the oldest queued item, calling the observers of its type, giving the block back and finishing is the machine's handler; needs nothing but the invariants |
| RoutingEngine.NotifyObservers | src/kernal/core/zoo_smb_routing_engine.c:238-251 | the loop calls exactly the observers with a callback and the message's type, each once, in list order |
| RoutingEngine.Engine.HandleRouteMessage | src/kernal/core/zoo_smb_routing_engine.c:771-823 | the retry loop is the machine's handler; the status says not running, no routing context, queued (room and a queue node), or no room after all attempts |
| RoutingEngine.BlockPool.AllocateCopy | src/kernal/core/zoo_smb_message.c:272-282 | a new block filled by the copy routine is the model's allocation and write, failure paths included |
| RoutingEngine.BlockPool.Load | src/kernal/core/zoo_smb_routing_engine.c:238-251 | what the observers are shown is what the model reads behind the pointer |
| IngressHandlers.HandleIsASchedule | src/kernal/core/zoo_smb_routing_engine.c:206-399 | a whole handler of a lone thread is a schedule of the machine, so it keeps conservation, ownership and content invariants together |
| Message.CopiedIsTheCopy | src/kernal/core/zoo_smb_message.c:402-436 | copying succeeds exactly without a payload or with a payload and memory for it, and then yields the faithful copy |
| Message.CopyIsStable | src/kernal/core/zoo_smb_message.c:402-436 | copying a copy changes nothing |
| Message.CopyIsFaithful | src/kernal/core/zoo_smb_message.c:402-436 | a copy has the whole header and exactly the announced bytes, each at its index |
| Message.MessageBlock.constructor | src/kernal/core/zoo_smb_message.c:272-282 | a default message is all zero, without a payload |
| Message.CopyMessage | src/kernal/core/zoo_smb_message.c:402-436 | succeeds exactly with no payload, or a payload and memory for it; the target is then the copy in a fresh buffer, or on failure the bare header or zero; a self-copy clears the message |
| PressureLog.NoEventLost | src/kernal/core/zoo_smb_routing_engine.c:135-168 | in every interleaving finished calls = lines + reported + pending + carried suppressed events |
| PressureLog.CallPrintsIff | src/kernal/core/zoo_smb_routing_engine.c:135-168 | while the clock does not run backwards a call prints exactly when it is the first or a second has passed since the stamp, and reports every event suppressed since |
| PressureLog.SomeWarningGetsOut | src/kernal/core/zoo_smb_routing_engine.c:135-168 | in every interleaving, once a call has finished a warning has been printed or is about to be: not everything is suppressed |
| PressureLog.WinsSpacedIff | src/kernal/core/zoo_smb_routing_engine.c:135-168 | two successive wins of the stamp are a second apart exactly when the later clock reading is not older |
| PressureLog.SpacedIff | src/kernal/core/zoo_smb_routing_engine.c:135-168 | in every interleaving all wins are a second apart exactly when none used an older reading than an earlier win |
| PressureLog.WarningsAreWins | src/kernal/core/zoo_smb_routing_engine.c:146-160 | in every interleaving the winning stamps are those on the printed warnings and those of threads about to print, with multiplicity |
| PressureLog.WarningsInheritSpacing | src/kernal/core/zoo_smb_routing_engine.c:146-160 | spaced wins give warnings stamped pairwise a second apart, in whatever order they are printed |
| PressureLog.WarningsApartIff | src/kernal/core/zoo_smb_routing_engine.c:146-160 | the exact condition for the warnings: once all are printed, any two are stamped a second apart exactly when any two winning readings are |
| PressureLog.PrintsCanCoincide | src/kernal/core/zoo_smb_routing_engine.c:151-160 | even with reading and swap as one step, two warnings stamped a second apart can be printed at one instant |
| PressureLog.RateHolds | src/kernal/core/zoo_smb_routing_engine.c:135-168 | what is left then: up to any moment the warnings number at most one more than the seconds since the first win |
| PressureLog.SpacingCanFail | src/kernal/core/zoo_smb_routing_engine.c:135-168 | for any two readings less than a second apart, an interleaving under a clock that never runs backwards prints a warning for each |
| PressureLog.AtomicEntryIsSpaced | src/kernal/core/zoo_smb_routing_engine.c:135-168 | if reading the clock and swapping the stamp are one step, any two warnings are stamped a second apart, in every interleaving of draining, logging and suppressing |
| PressureLog.AtomicRunIsARun | src/kernal/core/zoo_smb_routing_engine.c:135-168 | the runs with that one step are runs of the machine |
| PressureLog.DueMeansLaterIff | src/kernal/core/zoo_smb_routing_engine.c:144-149 | with wrap-around subtraction, due means a second later exactly when the reading is not older |
| PressureLog.CallIsSolo | src/kernal/core/zoo_smb_routing_engine.c:135-168 | a whole call is the machine driving one thread |
| PressureLog.Limiter.constructor | src/kernal/core/zoo_smb_routing_engine.c:137-138 | both static variables start at zero |
| PressureLog.Limiter.LogEnqueuePressure | src/kernal/core/zoo_smb_routing_engine.c:135-168 | one undisturbed call: the reported line, if any, and the new state are those of the value model |
| RuleIndex.IndexRefinesList | src/kernal/core/zoo_smb_rule_manager.c:254-280 | after any run of make, get, add, remove and external creation, with any allocation failures: a hit is live and has exactly the name, a miss means no listed rule has it; without overflow a hit is listed; without duplicates the lookup is the first-match scan |
| RuleIndex.LookupIsSound | src/kernal/core/zoo_smb_rule_manager.c:254-280 | one lookup keeps the invariants and, on a consistent index, hits exactly when a rule of the name is listed |
| RuleIndex.LookupIsTheScan | src/kernal/core/zoo_smb_rule_manager.c:254-280 | with unique listed names the indexed lookup equals the plain scan |
| RuleIndex.IndexFindIsSound | src/kernal/core/zoo_smb_rule_manager.c:92-113 | an index hit is a live rule of exactly that name |
| RuleIndex.MakeKeepsConsistentIff | src/kernal/core/zoo_smb_rule_manager.c:363-400 | a make keeps every indexed rule listed exactly unless the new rule reaches the index but not the list |
| RuleIndex.OverflowIsReachable | src/kernal/core/zoo_smb_rule_manager.c:396-397 | one failed list allocation: the rule is found although the list is empty |
| RuleIndex.MakeKeepsIndexed | src/kernal/core/zoo_smb_rule_manager.c:363-400 | a make never leaves a dangling or doubled entry, and returns a rule of the name or of its first 63 characters |
| RuleIndex.AddKeepsInvariants | src/kernal/core/zoo_smb_rule_manager.c:434-461 | an add keeps both index invariants |
| RuleIndex.RemoveKeepsInvariants | src/kernal/core/zoo_smb_rule_manager.c:470-494 | a remove succeeds exactly on a listed rule, frees it and leaves no entry to it, also among rules of equal name |
| RuleIndex.ApplyKeepsConsistentIff | src/kernal/core/zoo_smb_rule_manager.c:92-494 | every operation keeps the index within the list exactly unless it is an overflowing make |
| RuleIndex.ApplyKeepsUniqueIff | src/kernal/core/zoo_smb_rule_manager.c:363-494 | every operation keeps listed names unique exactly unless a make cuts a long name down to a listed one |
| RuleIndex.LongNameIsNeverFound | src/kernal/core/zoo_smb_rule_manager.c:254-280 | a name over 63 characters is never found |
| RuleIndex.LongMakeLists | src/kernal/core/zoo_smb_rule_manager.c:363-400 | a make of a name over 63 characters lists another rule whenever there is room |
| RuleIndex.LongNameDuplicates | src/kernal/core/zoo_smb_rule_manager.c:363-400 | two makes of one such name list two rules of one name |
| RuleIndex.RunKeepsIndexed | src/kernal/core/zoo_smb_rule_manager.c:92-494 | no run leaves a dangling or doubled index entry, whatever allocations fail |
| RuleIndex.RunIsConsistent | src/kernal/core/zoo_smb_rule_manager.c:92-494 | runs without overflow keep every indexed rule listed |
| RuleIndex.RunKeepsNamesUnique | src/kernal/core/zoo_smb_rule_manager.c:363-494 | runs without truncation onto a listed name keep listed names unique |
| RuleOutcomes.AddOutcome | src/kernal/core/zoo_smb_rule_manager.c:434-461 | an add fails exactly when the name is not found and the list has 256 rules or no node, changing nothing; otherwise every later lookup of the name gives the rule found before, or else the added one, listed last and indexed when memory and a bucket below eight allow |
| RuleOutcomes.MakeOutcome | src/kernal/core/zoo_smb_rule_manager.c:363-400 | a make gives the rule found, or a new one of the first 63 characters listed last while there is room; the new one is found again exactly when it was listed or indexed |
| RuleOutcomes.RemoveOutcome | src/kernal/core/zoo_smb_rule_manager.c:470-494 | a remove takes exactly the rule out of the list, the others keeping their order, frees it, and no lookup gives it; an unlisted rule changes nothing |
| RuleOutcomes.RemoveKeepsListed | src/kernal/core/zoo_smb_rule_manager.c:470-494 | every other listed rule stays listed under its name |
| RuleOutcomes.RemovedNameIsFree | src/kernal/core/zoo_smb_rule_manager.c:470-494 | with unique names and a consistent index the removed rule's name is no longer found |
| RuleOutcomes.LookupIsStable | src/kernal/core/zoo_smb_rule_manager.c:254-280 | a lookup asked again gives the same answer, whatever memory either call found |
| RuleOutcomes.LookupRepairs | src/kernal/core/zoo_smb_rule_manager.c:254-280 | a lookup answered by the scan puts the name into the index exactly when memory and a bucket below eight allow |
| RuleOutcomes.LookupKeepsOthers | src/kernal/core/zoo_smb_rule_manager.c:254-280 | a lookup changes the answer for no other name |
| RuleOutcomes.AddKeepsOthers | src/kernal/core/zoo_smb_rule_manager.c:434-461 | nor does an add |
| RuleOutcomes.MakeKeepsOthers | src/kernal/core/zoo_smb_rule_manager.c:363-400 | nor does a make, the cut-off name aside |
| RuleOutcomes.HashWrapsOnce | src/kernal/core/zoo_smb_rule_manager.c:49-63 | the hash wrapped at every character is the unbounded one modulo 2^64, and the bucket that modulo 257 |
| RuleManager.RuleIndexHash | src/kernal/core/zoo_smb_rule_manager.c:49-63 | the loop computes djb2 modulo 257 with 64-bit wrap-around |
| RuleManager.FindKey | src/kernal/core/zoo_smb_rule_manager.c:73-83 | the bucket search finds the first entry of the key |
| RuleManager.FindHandle | src/kernal/core/zoo_smb_rule_manager.c:481-481 | the list search finds the first occurrence of the rule |
| RuleManager.Rules.constructor | src/kernal/core/zoo_smb_rule_manager.c:287-324 | a created manager is the empty value model |
| RuleManager.Rules.IndexFindLocked | src/kernal/core/zoo_smb_rule_manager.c:92-113 | returns what the value model's index returns |
| RuleManager.Rules.IndexUpsertLocked | src/kernal/core/zoo_smb_rule_manager.c:123-168 | changes one bucket as the value model does, or nothing when an allocation or the bucket fails |
| RuleManager.Rules.IndexRemoveLocked | src/kernal/core/zoo_smb_rule_manager.c:176-200 | removes the first entry of the name |
| RuleManager.Rules.FindRuleByName | src/kernal/core/zoo_smb_rule_manager.c:254-280 | index, then scan with repair, as the value model; the index invariant is kept |
| RuleManager.Rules.MakeRule | src/kernal/core/zoo_smb_rule_manager.c:363-400 | result and state are the value model's; the index invariant is kept |
| RuleManager.Rules.GetRule | src/kernal/core/zoo_smb_rule_manager.c:413-425 | a hit is live with exactly the name, a miss means no listed rule has it |
| RuleManager.Rules.AddRule | src/kernal/core/zoo_smb_rule_manager.c:434-461 | status and state are the value model's; success means every later lookup of the name hits, failure that nothing changed; the index invariant is kept |
| RuleManager.Rules.RemoveRule | src/kernal/core/zoo_smb_rule_manager.c:470-494 | status and state are the value model's; it succeeds exactly on a listed rule, which is listed no more, while every other stays listed under its name; the index invariant is kept |
| Ports.MutualExclusion | src/kernal/core/zoo_smb_port_manager.c:447-496 | over every run with processes dying anywhere, in which no release of the port races with the same process's allocation of it: no two live processes hold the port, its entry is its holder's pid, and no thread is about to get it while it is held or about to be given to another |
| Ports.StepKeepsInvIff | src/kernal/core/zoo_smb_port_manager.c:418-766 | every step and every death keeps a port's invariant exactly unless it is a racing release of that port |
| Ports.RunSafeIff | src/kernal/core/zoo_smb_port_manager.c:418-766 | the invariant holds all along a run exactly when no release of the port races in it |
| Ports.RunKeepsInv | src/kernal/core/zoo_smb_port_manager.c:418-766 | hence it holds after every schedule without such a race |
| Ports.ReleaseKeepsInvIff | src/kernal/core/zoo_smb_port_manager.c:482-496 | a release keeps a port's invariant exactly when it is of another port or no thread of the process is in the middle of getting this one |
| Ports.HoldingsPersist | src/kernal/core/zoo_smb_port_manager.c:447-496 | a process keeps what it holds until it dies or releases it itself, if no release of the port races |
| Ports.LiveEntriesAreTheirOwners | src/kernal/core/zoo_smb_port_manager.c:447-496 | the entry of a live process changes only to free, in a step of that process |
| Ports.StalePortIsGranted | src/kernal/core/zoo_smb_port_manager.c:661-696 | a port whose entry is free or names a dead process is granted to the thread that finds it unused and locks it, and no other entry changes |
| Ports.ReleasedPortIsFree | src/kernal/core/zoo_smb_port_manager.c:482-496 | a release by the owner frees the entry and the holding, and no other entry |
| Ports.OnlyTheOwnerReleases | src/kernal/core/zoo_smb_port_manager.c:482-496 | a release by any other process changes no entry |
| Ports.SearchGoesOn | src/kernal/core/zoo_smb_port_manager.c:712-743 | a search starts for every range within 1024 and 65535, tries its ports in order past those in use, and leaves off after the last |
| Ports.BadRangeIsRefused | src/kernal/core/zoo_smb_port_manager.c:627-646 | any other range is refused |
| Ports.EntriesAreTakenByTheLiving | src/kernal/core/zoo_smb_port_manager.c:447-474 | an entry comes to name only a stepping live process, and only from free or dead |
| Ports.ClaimableIsUnclaimed | src/kernal/core/zoo_smb_port_manager.c:418-474 | an entry the liveness test lets go is no live process's holding or pending claim |
| PortLocks.FineRunIsARun | src/kernal/core/zoo_smb_port_manager.c:294-404 | with lock files, per system call, every run is a run of the machine without them, whatever locks and unlinked paths do |
| PortLocks.FineExclusion | src/kernal/core/zoo_smb_port_manager.c:661-696 | so exclusion holds at that granularity, too, without a racing release |
| PortLocks.RaceLosesThePort | src/kernal/core/zoo_smb_port_manager.c:752-766 | every racing release whose victim is still on its way to the port loses it: the release clears the entry, the victim confirms, the rest of the release drops its process's file lock, and an idle thread of another live process gets the same port |
| PortLocks.RaceLosesTheNextClaim | src/kernal/core/zoo_smb_port_manager.c:677-692 | if the victim is already giving up, it clears the entry that a third thread of its process has meanwhile taken, and that thread's port is lost the same way |
| PortLocks.PortIsLost | src/kernal/core/zoo_smb_port_manager.c:752-766 | the common core: a free entry, a claim under way and a release that has yet to drop the lock |
| PortLocks.ExclusionCanFail | src/kernal/core/zoo_smb_port_manager.c:752-766 | such a run from the start, with every lock taken as the system allows: two live processes hold one port |
| PortTable.AttemptIsTwoSteps | src/kernal/core/zoo_smb_port_manager.c:661-696 | one undisturbed try is an attempt and a confirmation of the shared machine |
| PortTable.SweepSparesTheLiving | src/kernal/core/zoo_smb_port_manager.c:712-743 | a failed search changes no entry except to free those of processes that are gone |
| PortTable.SweptEntry | src/kernal/core/zoo_smb_port_manager.c:712-743 | trying lower ports does not change the verdict on a port |
| PortTable.Table.constructor | src/kernal/core/zoo_smb_port_manager.c:159-186 | all entries free |
| PortTable.Table.IsProcessAlive | src/kernal/core/zoo_smb_port_manager.c:418-438 | false exactly for no process and for one known to be gone |
| PortTable.Table.AcquirePort | src/kernal/core/zoo_smb_port_manager.c:447-474 | result and table are the machine's claim, also outside the table's range |
| PortTable.Table.ReleasePort | src/kernal/core/zoo_smb_port_manager.c:482-496 | clears exactly an own entry |
| PortTable.Table.AttemptPortAllocation | src/kernal/core/zoo_smb_port_manager.c:661-696 | grants exactly when probe, table, lock and second probe allow; otherwise the claimed entry is given back |
| PortTable.Table.FindAvailablePort | src/kernal/core/zoo_smb_port_manager.c:712-743 | the least port of a valid range that can be had, none exactly when there is none; the rest of the table only loses stale entries of lower ports |
| Lcg.FullPeriod | include/platform/util/zoo_math.h:533-553 | the generator returns to its seed exactly after multiples of 2^32 steps |
| Lcg.VisitsAreDistinct | include/platform/util/zoo_math.h:533-553 | two visited values coincide exactly when 2^32 divides their distance |
| Lcg.IdsCoincideIff | include/platform/util/zoo_math.h:533-553 | two ids coincide exactly when their call numbers are congruent modulo 2^31, so 2^31 consecutive ids are distinct |
| Lcg.IdsDecode | include/platform/util/zoo_math.h:533-553 | an id shows the call number modulo 2^16 in its top sixteen bits, the first draw's low sixteen below, and the second draw in its lower half |
| Lcg.KnownIds | include/platform/util/zoo_math.h:533-553 | the first id from the initial seed 1, as a number |
| Lcg.GeometricTwoAdic | include/platform/util/zoo_math.h:533-553 | 2^k divides the multiplier's geometric sum of n terms exactly when it divides n |
| Lcg.IterateIsAffine | include/platform/util/zoo_math.h:533-553 | the wrapped iteration is the unbounded one modulo 2^32 |
| Lcg.AffineClosedForm | include/platform/util/zoo_math.h:533-553 | closed form of the iteration |
| Lcg.Uuid64.constructor | include/platform/util/zoo_math.h:533-538 | no call made yet |
| Lcg.Uuid64.Generate | include/platform/util/zoo_math.h:533-553 | returns the id of the next call number, across wrap-around of the counter |
| Isqrt.IntegerSqrt | include/platform/util/zoo_math.h:477-492 | r*r <= v < (r+1)*(r+1) for every 32-bit v but the largest, where it divides by zero; terminates |
| Isqrt.NewtonStaysAbove | include/platform/util/zoo_math.h:486-490 | every iterate is at or above the root |
| Isqrt.NewtonStops | include/platform/util/zoo_math.h:486-490 | an iterate that does not fall is at or below the root |
| Isqrt.SumFits | include/platform/util/zoo_math.h:486-490 | the sum in the Newton step cannot wrap |
| Isqrt.RootIsUnique | include/platform/util/zoo_math.h:477-492 | the specification determines the result |
| UniqueId.IdsCoincideIff | include/kernal/utility/zoo_smb_util.h:74-79 | two ids coincide exactly when the 48-bit timestamps agree and the calls are a multiple of 65536 apart, across counter wrap |
| UniqueId.IdsDecode | include/kernal/utility/zoo_smb_util.h:74-79 | an id gives back the 48-bit timestamp and the call number modulo 65536 |
| UniqueId.IdsFollowTheClock | include/kernal/utility/zoo_smb_util.h:74-79 | a later millisecond below 2^48 gives a larger id, whatever the counter |
| UniqueId.DistinctIff | include/kernal/utility/zoo_smb_util.h:74-79 | with a nondecreasing clock below 2^48 all ids are distinct exactly when no millisecond serves more than 65536 calls |
| UniqueId.IdSource.constructor | include/kernal/utility/zoo_smb_util.h:74-76 | no call made yet |
| UniqueId.IdSource.Create | include/kernal/utility/zoo_smb_util.h:74-79 | returns the id of the next call number |
| AlignedHeap.PowerOfTwoTest | include/platform/util/zoo_memory.h:209-213 | the mask test accepts exactly the powers of two |
| AlignedHeap.MaskRoundsDown | include/platform/util/zoo_memory.h:222-226 | masking with the complement of a - 1 rounds down to a multiple of a, bit by bit |
| AlignedHeap.Placement | include/platform/util/zoo_memory.h:207-232 | the result is aligned for every raw block; it lies inside that block, saved pointer and all bytes, exactly when the total size did not wrap |
| AlignedHeap.AllocateKeepsValid | include/platform/util/zoo_memory.h:207-232 | an allocation harms no outstanding region or saved pointer |
| AlignedHeap.WriteKeepsValid | include/platform/util/zoo_memory.h:207-232 | a caller writing its own bytes harms no saved pointer |
| AlignedHeap.StoreElsewhere | include/platform/util/zoo_memory.h:207-232 | a store inside one block leaves the saved words of other blocks |
| AlignedHeap.Heap.constructor | include/platform/util/zoo_memory.h:207-232 | an empty heap |
| AlignedHeap.Heap.MallocAligned | include/platform/util/zoo_memory.h:207-232 | null with nothing changed for size 0, a non-power of two or a failed malloc; otherwise aligned, with the raw block saved; the heap stays sound exactly when the total size did not wrap |
| AlignedHeap.Heap.WriteByte | include/platform/util/zoo_memory.h:207-232 | keeps the heap sound |
| AlignedHeap.Heap.FreeAligned | include/platform/util/zoo_memory.h:238-246 | frees exactly the raw block the pointer came from; null does nothing |

## Left out

- Runtime.RuntimeObject.StartRuntime: is one step, as are StopRuntime, ReportPeerTimeout and TriggerElection; `RuntimeSteps` has the steps of the source, and `RuntimeSteps.SoloCallIsApply` says the two agree undisturbed.
- Runtime.RuntimeObject.StopRuntime: the 100 ms wait for the monitor task is not modelled.
- Runtime.RuntimeObject.ReportPeerTimeout: see StartRuntime.
- Runtime.RuntimeObject.TriggerElection: see StartRuntime.
- RuntimeSteps.StartedIsUp: its condition is that start and stop calls do not overlap; an overlap may also end well, depending on which write comes last, but `RuntimeSteps.OverlapCanEndBadly` shows that each can end badly.
- IngressHandlers.DiscardLeavesBand: its discard belongs to a rule without observer list; rule creation refuses one (src/kernal/core/zoo_smb_routing_rule.c:36), so the run needs a rule made or changed in some other way.
- Message blocks: a block and its payload buffer are allocated and given back together; their pool is not modelled.
- RuleManager.Rules.MakeRule: the address a successful allocation returns is a parameter that must not be a live rule's, as for any allocator.
- Ports.MutualExclusion: process ids are not reused; and it speaks of runs in which no release of the port races with an allocation of it by the same process, because `PortLocks.ExclusionCanFail` shows it false otherwise.
- Null handles: every entry point rejects them first, which would add easy members only.
- First-time set-up of the shared port table and its robust mutex; the model starts with a table whose entries are free or stale.
- Sockets and memory maps, and failures of file operations: their answers are parameters.
- CRC, wire format, header validation and message age: one verdict per message, chosen freely.
- The bodies of queue, dispatcher, thread pool, memory pool and transports: the queue is a bounded FIFO with fallible node allocation.
- Counter reset and metrics readout, destruction of engine, runtime and rule manager, rule preparation.
- 64-bit wrap-around of epochs and statistics counters.
- Greatest common divisor, least common multiple, next power of two, monotonic ids, message creation, name building: easy or outside the core.
- Logging, except the reads it makes of a destroyed message.
