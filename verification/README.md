# NETORA verification project

NETORA polls network switches during a maintenance, stores only what changed, and derives cases, diffs and
indicators from the stored history. This project models the parts of it whose correctness depends on more than
one function: the SNMP probing protocol and collection round, the GETBULK walk, the change-point store and its
readers, client assembly and time-travel diff, the case life cycle, the dashboard arithmetic and the supervision
of the collection loop. `dafny verify dfyconfig.toml` checks all of it.

## How the model is built

- Concurrent code is a step system: a step is what one coroutine does between two awaits; clock ticks, replies,
  failures and cancellations are steps of their own. `ProbeProtocol` and `LoopSupervision` start from the empty
  state; `RoundProtocol` runs devices on top of `ProbeProtocol`. The classes `SnmpSessionCache` and
  `SchedulerService` update the source's fields in place; each of their methods is proved to be one step, and the
  object remembers its steps, so what holds of every run holds of the object (`Valid()`).
- Database code is a class over tables that are changed in place (`Store`, `ClientLog`, `CaseStore`). Each keeps a
  ghost history of committed changes; `Valid()` says that the tables are the replay of that history, so every
  lemma about `Replay` or `Run` is a statement about the object.
- Loops of the source are methods with loops, proved equal to specification functions; what the source promises
  is proved of those functions.

| files | part of the system |
|---|---|
| `ProbeProtocol`, `CallOutcomes`, `SessionCache` | probing of SNMP communities, shared caches and per-IP locks; how a call ends and why |
| `RoundProtocol`, `RoundTheorems`, `DeviceOutcomes`, `Coordinator` | device-centric collection round; how a device ends and why |
| `OidOrder`, `GetBulkWalk`, `DottedOid` | GETBULK subtree walk (sections 4.2.2 and 4.2.3 of RFC 3416) |
| `TypedStore`, `StoreIntegrity`, `StoreRefinement`, `ChangePoints`, `CollectionStore` | baseline and change-point store, retention, error rows |
| `ErrorCount` | CRC-growth indicator, a reader of that store |
| `ClientPing`, `ClientPingHistory`, `ClientPingStore` | in-place diff writer for client pings |
| `CandidateSelection`, `ClientAssembly`, `ClientChanges` | where a client is; one record per client; changed records only |
| `ClientComparison`, `CheckpointDiff` | comparison of records, diff at checkpoints |
| `CaseTable`, `CaseLifecycle`, `CaseService`, `ChangeDetection` | cases, scheduler cycle, change flags |
| `RecordQueries`, `PingFeed` | what the cases read from the client records, and what they miss of it |
| `Dashboard` | summary arithmetic |
| `LoopSupervision` | start, crash, restart and stop of the collection loop |
| `Wrappers`, `Seqs`, `Text` | shared vocabulary |

## Assumptions

- The content hash is a parameter. Nothing is assumed of it in general; where a law needs it to tell contents apart,
  the law is stated as an equivalence with exactly that condition. Only the two runs `ErrorCount.FirstErrorsPass` and
  `ErrorCount.ErrorsAfterNonePass` suppose that their two snapshots have different hashes.
- A committed session is atomic, and batch ids increase. The clock is monotone only where `Chronological` is required.
- A query without ORDER BY returns rows in primary-key order; ties under ORDER BY are broken by one fixed order.
  Within one update the clock is read once. MAC addresses are stored in one case, which makes the records of an
  address come newest first (`NewestFirst`).
- Interface-name normalisation, speed parsing and case folding of MAC addresses in the diff are parameters.
- Percentages are exact rationals rounded down.

## Laws that do not hold, and exactly when they do

- "The walk returns the whole subtree": without an error it does exactly if every response up to the end of the subtree
  carries a repetition (`GetBulkWalk.Walk`), whatever the number of repetitions asked for exactly if each response has
  room for one (`GetBulkWalk.SufficientForAnyIff`); an empty first response loses a subtree of one binding
  (`GetBulkWalk.WalkWithEmptyResponse`).
- "The store returns the last snapshot": exactly if snapshots with different normalised rows never collide in the hash
  (`StoreRefinement.StoreCorrectIffHashSound`); the same for client records (`ClientChanges.CurrentIffInjective`).
- "A device fails when an interface counts more CRC errors than before", where an interface without row counts none:
  the verdict says so exactly if no interface without previous row has errors now, or another interface grew as well,
  given that the previous change point is still stored (`ErrorCount.AgreesIff` has the whole condition). First errors
  of an interface, or of a whole device, pass (`ErrorCount.FirstErrorsPass`, `ErrorCount.ErrorsAfterNonePass`).
- "A client-ping snapshot is stored the same in any row order": exactly if it does not give two values for one target
  (`ClientPingHistory.FoldIffFunctional`). "The stored pings are what all snapshots without such contradictions say":
  exactly if those that say different things never collide in the hash (`ClientPingHistory.ViewIsFold`).
- "The batched checkpoint diff equals the one-at-a-time diff": exactly if there is a MAC list, no checkpoint lies
  after now, or all checkpoints are the same (`CheckpointDiff.BatchEqualsSingleIff`).
- "A client whose newest record is the same at the checkpoint and now is not reported as changed": it is, exactly if
  that record has data but no switch (`ClientComparison.SelfComparison`, `CheckpointDiff.QuietChangedIff`), such as a
  reachable client that no switch has learned (`ClientComparison.UndetectedClientAppearsChanged`).
- "The diff of an address compares the records of its client": exactly if the newest record of the address is the
  client's on both sides (`CheckpointDiff.ComparesOwnIff`), as it is if no other client has the address
  (`CheckpointDiff.UnsharedShowsClient`); `CheckpointDiff.SharedAddressMixes` has two clients with one address.
- "A client's current record is there": exactly if no clean-up since its last change had a later cutoff
  (`ClientChanges.CurrentIffSpared`). Once its records are gone, none is written until its state changes
  (`ClientChanges.LostUntilChanged`, `ClientChanges.UnchangedClientIsLost`).
- "A ping update gives a case its client's last observed result": if the record of the last change was spared by the
  clean-ups, exactly if that record has the result, and otherwise exactly if the case had it before
  (`PingFeed.PingCurrentIff`). Spared records have it throughout exactly if states with equal hashes have equal ping
  results (`PingFeed.PingObservedIffSound`). `PingFeed.PingMissed` is a case that stays without a result, and
  `PingFeed.PingFrozen` and `PingFeed.LostUnflagged` say what becomes of it.
- "An assigned case has an assignee": over a run exactly if no step reopens a resolved, unreachable case without
  assignee (`CaseLifecycle.AssignedToSomebodyIff`); `CaseLifecycle.AssignedWithoutAssignee` is a run that breaks it.
- "The dashboard counts each device once": exactly if no passing device has a collection error
  (`Dashboard.EachDeviceOnceIff`).
- "A start of the collection loop takes effect": until the next start or stop, exactly if no loop is running that was
  asked to end (`LoopSupervision.StartTakesEffectIff`, `LoopSupervision.StartLostIff`);
  `LoopSupervision.StartDuringShutdownIsLost` is such a run.

Where code and documentation disagree, the model follows the code: `cleanup_old_batches` deletes in all maintenances
and types, not only in active ones; a reachable case is resolved at once, although the column comment speaks of ten
minutes; `auto_reopen_unreachable` makes a case ASSIGNED even if nobody is assigned.

## Model

| member | source | states |
|---|---|---|
| ProbeProtocol.ProbeMutualExclusion | app/snmp/session_cache.py:118-186 | over every interleaving of calls, replies, time and deaths, at most one coroutine per IP is in the probe loop |
| ProbeProtocol.CachedCommunityAnswered | app/snmp/session_cache.py:97-171 | a cached community once got a non-empty answer from that IP, and the IP is not live in the negative cache |
| ProbeProtocol.ReturnedTargetAnswered | app/snmp/session_cache.py:87-171 | a returned target carries a community its IP has answered to |
| ProbeProtocol.NegativeAfterAllTried | app/snmp/session_cache.py:131-186 | an IP enters the negative cache only after every configured community was tried |
| ProbeProtocol.NoProbeOnceKnown | app/snmp/session_cache.py:97-129 | once an IP has answered, no probe is ever sent to it again |
| ProbeProtocol.CooldownRespected | app/snmp/session_cache.py:104-186 | after a completely failed campaign the next probe to that IP comes at least one TTL later |
| CallOutcomes.EveryStepAccounted | app/snmp/session_cache.py:87-186 | over every run, each step of a call parks it behind another call at work, sends one probe, or ends it: with a target exactly after a non-empty reply to the community asked last, or when the IP has answered before; unreachable only after all communities were asked in order, or within the TTL of a campaign that failed |
| CallOutcomes.WhenItEnded | app/snmp/session_cache.py:87-186 | for every ended call of a run, the step at which it ended so, and the reason it had |
| CallOutcomes.UnreachableAfterAllTried | app/snmp/session_cache.py:131-186 | over every run, a call that ended unreachable has a failed campaign of its IP in the log, with every configured community tried |
| SessionCache.SnmpSessionCache.GetTarget | app/snmp/session_cache.py:87-137 | the run of `get_target` up to the lock or the first probe is one step of the protocol |
| SessionCache.SnmpSessionCache.Resume | app/snmp/session_cache.py:118-137 | continuing with the lock re-checks both caches, as one step |
| SessionCache.SnmpSessionCache.ReplyArrived | app/snmp/session_cache.py:131-186 | a reply caches the community or moves to the next one, the last failure fills the negative cache, as one step |
| SessionCache.SnmpSessionCache.Abandon | app/snmp/session_cache.py:118-186 | a cancelled or crashed call gives the lock back and changes no cache |
| SessionCache.SnmpSessionCache.IsNegativeCached | app/snmp/session_cache.py:256-264 | exactly the IPs whose cooldown has not expired |
| SessionCache.SnmpSessionCache.ProtocolHolds | app/snmp/session_cache.py:87-186 | whatever calls, replies and failures an object has seen, all that holds of the protocol's states holds of it |
| RoundTheorems.NoDeadlock | app/snmp/collection_coordinator.py:190-367 | every unfinished reachable state of a round has a step other than time, cancellation or crash |
| RoundTheorems.RoundTerminates | app/snmp/collection_coordinator.py:190-530 | each device takes at most collectors + communities + 9 steps, so a round ends |
| RoundTheorems.LockHolderHasSlot | app/snmp/collection_coordinator.py:340-367 | whoever holds the probe lock of an IP also holds a semaphore slot |
| RoundTheorems.SlotsRespected | app/snmp/collection_coordinator.py:190-255 | devices inside the semaphore never exceed the slots; at the end all slots and locks are free |
| RoundTheorems.KnownDevicesFirst | app/snmp/collection_coordinator.py:190-222 | no device of phase 2 moves before phase 1 is finished, and phase 1 never waits for a probe |
| RoundTheorems.NextRoundMayStart | app/snmp/collection_coordinator.py:79-255 | the protocol invariant carries from round to round |
| DeviceOutcomes.StatusIff | app/snmp/collection_coordinator.py:257-460 | over every run of a round, a device ends ok exactly if all its collectors came back with success and it was saved, partial exactly if all came back and some failed, unreachable exactly if it was in its cooldown at the start, its target call ended unreachable, or its hard timeout struck, and in an exception exactly if its type is unknown or the engine raised |
| DeviceOutcomes.UnreachableTried | app/snmp/collection_coordinator.py:400-429 | a device whose target call ended unreachable has had its IP probed with every configured community |
| Coordinator.BuildDeviceInfos | app/snmp/collection_coordinator.py:130-150 | the device list is the rows' targets with repeated (host, IP) pairs dropped |
| Coordinator.TargetsMeaning | app/snmp/collection_coordinator.py:131-150 | the targets are the new and old devices of the rows whose host name and address are both given, with the vendor of the same generation |
| Coordinator.FirstOccurrencesMeaning | app/snmp/collection_coordinator.py:130-150 | every target is in the list and none twice |
| Coordinator.Aggregate | app/snmp/collection_coordinator.py:225-255 | status counters and per-collector buckets count exactly the matching device results |
| Coordinator.RoundConserved | app/snmp/collection_coordinator.py:225-255 | at the end of a round ok, unreachable and partial are the numbers of devices that ended well, unreachable, and partly or crashed, which makes all devices; the buckets of each valid collector add up to the devices that did not crash, with at least the good ones under ok and the unreachable ones under timeout, and those of an unknown collector are empty |
| Coordinator.RoundTellsRun | app/snmp/collection_coordinator.py:225-460 | at the end of a round ok counts the devices whose collectors all succeeded and partial those with a failed collector or an exception; the rest are unreachable |
| Coordinator.BucketMeaning | app/snmp/collection_coordinator.py:250-255 | ok, then timeout for timeouts and unreachable devices, error for anything else |
| OidOrder.LessAtFork | app/snmp/engine.py:269-284 | object identifiers are ordered by their first differing components, as agents answer |
| OidOrder.SubtreeContiguous | app/snmp/engine.py:315-343 | what lies between two members of a subtree in lexicographic order is in the subtree |
| GetBulkWalk.GetBulk | app/snmp/engine.py:269-284 | an agent answers GETBULK with the bindings after the asked one, then exceptions |
| GetBulkWalk.Walk | app/snmp/engine.py:220-348 | the walk ends; it fails exactly when its last request does; otherwise it returns a prefix of the subtree, in order and once, and the whole of it exactly if every response up to the end of the subtree carries a repetition, which the last response shows |
| GetBulkWalk.SufficientForAnyIff | app/snmp/engine.py:220-290 | the replies suffice for every positive number of repetitions exactly if each of as many responses as the subtree has bindings has room for one |
| GetBulkWalk.WalkWithEmptyResponse | app/snmp/engine.py:291-348 | an empty first response loses the only binding of a subtree, without an error |
| DottedOid.ScopeTestIsExact | app/snmp/engine.py:320-322 | the textual prefix test on dotted OIDs decides exactly membership in the subtree |
| CollectionStore.Store.SaveBatch | app/repositories/typed_records.py:125-215 | unchanged content only touches the check time of the pointer; changed content adds batch, normalised rows and pointer, each stated field by field |
| CollectionStore.Store.SaveOutcome | app/snmp/collection_coordinator.py:480-499 | a success replaces the error row by its data; a failure leaves all data tables as they are and records its message, or its status without one |
| CollectionStore.Store.SaveDeviceResults | app/snmp/collection_coordinator.py:462-530 | for every key the error row is that of the collector's last outcome, if it failed, and the pointer that of its last success; if all fail no data table changes; each outcome is one committed change |
| CollectionStore.Store.CleanupOldBatches | app/services/retention.py:127-165 | deletes over-age batches that no pointer uses, with their rows |
| CollectionStore.Store.CleanupDeactivatedMaintenances | app/services/retention.py:30-103 | deletes everything collected for the expired maintenances |
| CollectionStore.Store.GetLatestPerDevice | app/repositories/typed_records.py:217-242 | the rows of the batches the pointers of the type use |
| StoreIntegrity.ForeignKeys | app/repositories/typed_records.py:165-212 | over every history each row has its batch and each pointer a batch of its own key |
| StoreIntegrity.ReplayIntegrity | app/services/retention.py:66-156 | over every history ids increase and each pointer is the newest batch of its key |
| StoreIntegrity.CleanupOldExact | app/services/retention.py:142-156 | a batch is deleted if and only if it is over age and no pointer uses it; the rows of the others stay |
| StoreRefinement.LatestRows | app/repositories/typed_records.py:217-242 | over every history of saves and clean-ups the latest rows of a device are its last change point |
| StoreRefinement.StoreCorrectIffHashSound | app/repositories/typed_records.py:97-242 | the store always returns the last snapshot, like a store that writes everything, if and only if equal hashes mean equal normalised rows |
| StoreRefinement.LatestRowsBelong | app/repositories/typed_records.py:217-242 | the query returns rows of the asked maintenance and of collected devices only |
| StoreRefinement.ErrorIffLastFailed | app/snmp/collection_coordinator.py:536-584 | an error row exists exactly when the last committed outcome was a failure, with its message |
| StoreRefinement.FailuresNeverTouchData | app/snmp/collection_coordinator.py:462-499 | over every history, leaving out all failed collections changes nothing but the error rows |
| StoreRefinement.CollapseNeighbours | app/repositories/typed_records.py:155-165 | neighbouring change points differ in their hash |
| StoreRefinement.CollapseCovers | app/repositories/typed_records.py:155-165 | change points are snapshots, and every snapshot is represented by one |
| ChangePoints.StoredBatchesAreChangePoints | app/services/retention.py:127-165 | the stored batches of a key are the newest of its change points in order, and all of them without clean-up of old batches |
| ChangePoints.OnlyNewestInUse | app/services/retention.py:142-156 | of the batches of a key only the newest is protected by a pointer |
| ChangePoints.OldestGoFirst | app/services/retention.py:142-156 | over every history, whatever a clean-up keeps of a key, it keeps all that is newer, and the newest always |
| ChangePoints.CollapseIsByContent | app/repositories/typed_records.py:97-165 | change points are the snapshots that differ in content from the one before, for given snapshots if and only if no two adjacent ones collide in the hash, and for all if and only if none ever do |
| ErrorCount.Evaluate | app/indicators/error_count.py:45-198 | passes and failures add up, one failure entry per failed device in device order, passes listed up to ten |
| ErrorCount.GetPreviousBatches | app/indicators/error_count.py:201-282 | per device the counters of its second-newest batch, grouped from two queries |
| ErrorCount.CountersMeaning | app/indicators/error_count.py:262-282 | the counter of an interface is that of its last row |
| ErrorCount.CountOfMeaning | app/snmp/collectors/error_count.py:60-70 | the errors an interface counts are those of its last row, and 0 without a row |
| ErrorCount.PreviousIsNeighbour | app/indicators/error_count.py:222-253 | under retention the previous batch is the change point right before the newest one, or absent, never an older one |
| ErrorCount.PreviousGoneOnlyByCleanup | app/services/retention.py:142-156 | without clean-up of old batches the previous change point is always there |
| ErrorCount.VerdictOverHistory | app/indicators/error_count.py:100-184 | the verdict on a device as a function of its last two change points, its last failure and whether it was ever collected |
| ErrorCount.VerdictMeaning | app/indicators/error_count.py:100-184 | over every history, what each verdict says of the rows and of what happened to the device, and for growth which interfaces are listed, in order, with increase, previous and present counter |
| ErrorCount.FailsOverHistory | app/indicators/error_count.py:100-184 | over every history a device fails if and only if it has no error rows and was never collected or last failed, or an interface that had errors at the previous, still stored change point has more now |
| ErrorCount.AgreesIff | app/indicators/error_count.py:127-184 | over every history the verdict agrees with the growth of the counters, absent rows counting 0, exactly under the stated condition on the last two change points |
| ErrorCount.FirstErrorsPass | app/indicators/error_count.py:144-150 | two collections after which the first 500 errors of an interface pass, another interface having had errors before |
| ErrorCount.ErrorsAfterNonePass | app/indicators/error_count.py:127-138 | two collections after which the first 500 errors of a device pass |
| ClientPingStore.SaveClientPing | app/repositories/typed_records.py:474-561 | the in-place writer computes the specified tables, and reports no change only when no row changed |
| ClientPing.MergedRows | app/repositories/typed_records.py:520-556 | the update loses and moves no row, touches only rows of the batch, with the time of the update, and adds rows of new targets only |
| ClientPingHistory.OneBatchPerKey | app/repositories/typed_records.py:509-561 | over every history a key with data has exactly one batch |
| ClientPingHistory.ViewIsFold | app/repositories/typed_records.py:474-561 | over all histories of snapshots that do not contradict themselves, the stored target-to-reachable map is the fold of override over all snapshots, hash-skipped ones included, if and only if the hash tells apart such snapshots that say different things |
| ClientPingHistory.FoldIffFunctional | app/repositories/typed_records.py:503-507 | the fold law holds for a snapshot and all its reorderings if and only if the snapshot does not contradict itself |
| CandidateSelection.CascadeIsArgmin | app/services/client_collection_service.py:346-421 | the five rules return the one candidate of least rank (ACL, LAG, neighbour, speed, MAC count), and no location when several share it |
| CandidateSelection.BestMeaning | app/services/client_collection_service.py:346-421 | best candidates agree in rank and all others rank above them |
| CandidateSelection.ChoiceMeaning | app/services/client_collection_service.py:346-421 | the candidate returned is better than every other by the first rule that tells them apart, each rule in terms of the record's fields; without such a candidate no field of the place is filled |
| CandidateSelection.OrderIrrelevant | app/services/client_collection_service.py:346-421 | the chosen location does not depend on the order of the candidates |
| ClientAssembly.BuildAclMap | app/services/client_collection_service.py:164-173 | per port the last static ACL, else the last dynamic one |
| ClientAssembly.CountMacs | app/services/client_collection_service.py:188-192 | how many MAC records each port has |
| ClientAssembly.BuildTables | app/services/client_collection_service.py:153-187 | per port the status and, static before dynamic, the ACL recorded last; per target the last ping; a port has a neighbour exactly if LLDP or CDP saw one |
| ClientAssembly.TablesMeaning | app/services/client_collection_service.py:153-187 | the same of the specified tables, for every port and target |
| ClientAssembly.Assemble | app/services/client_collection_service.py:176-291 | the assembled records are, up to order, one specified record per client |
| ClientAssembly.CollectRecords | app/services/client_collection_service.py:112-291 | from the stored rows on: for every client a record with its identity, the last ping of its address, and a place where it was learned with the port's last status and its ACL, or none |
| ClientAssembly.RecordMeaning | app/services/client_collection_service.py:196-288 | a record has its client's identity and ping result and a place where the client's MAC address was learned, or none |
| ClientAssembly.OneRecordPerClient | app/services/client_collection_service.py:231-291 | exactly one record per client, whatever MAC addresses are shared or missing |
| ClientChanges.ClientLog.SaveChangedRecords | app/services/client_collection_service.py:441-497 | each record of a collection is one committed save; the count is that of written rows |
| ClientChanges.ClientLog.CleanupOldRecords | app/services/client_collection_service.py:641-668 | a clean-up is one committed event; its count is that of the deleted rows |
| ClientChanges.ClientLog.SaveIfChanged | app/services/client_collection_service.py:466-497 | a record of a listed client is written exactly if its client is new or its hash differs from the remembered one, which is then replaced; the check time is always updated |
| ClientChanges.WrittenAreChanges | app/services/client_collection_service.py:466-492 | with nothing cleaned up, the records written for a client are its observed states with adjacent repetitions removed |
| ClientChanges.UnlistedNeverWritten | app/services/client_collection_service.py:466-469 | records without client id are never written |
| ClientChanges.CurrentIffInjective | app/services/client_collection_service.py:425-439 | the newest record is always the current state if and only if the hash tells states apart |
| ClientChanges.CurrentIffSpared | app/services/client_collection_service.py:466-668 | over every history of collections and clean-ups a client's current record is there if and only if no clean-up since its last change had a later cutoff than that change |
| ClientChanges.LostUntilChanged | app/services/client_collection_service.py:473-668 | from any state without records of a known client, none is written throughout any later events if and only if all its observations have the remembered hash |
| ClientChanges.UnchangedClientIsLost | app/services/client_collection_service.py:641-668 | from any history on, a client whose records were cleaned up is not written again by any later collections and clean-ups while its state stays the same |
| ClientComparison.ClientComparisonRow.CompareRecords | app/services/client_comparison_service.py:953-1006 | the comparison object gets the specified outcome |
| ClientComparison.ChangedIff | app/services/client_comparison_service.py:953-1023 | changed if and only if one side only has data, or both have and some field differs |
| ClientComparison.CompareMeaning | app/services/client_comparison_service.py:316-392 | field by field: a field is among the differences exactly if both sides give it and it differs, with old and new value in this order; one-sided data is reported as a change of status |
| ClientComparison.HasDataIff | app/services/client_comparison_service.py:1008-1023 | which seven fields count as data |
| ClientComparison.DifferencesSymmetric | app/services/client_comparison_service.py:316-392 | exchanging the sides finds the same fields with exchanged values |
| ClientComparison.SelfComparison | app/services/client_comparison_service.py:774-799 | a record compared with itself is reported as changed if and only if it has data but no switch |
| ClientComparison.UndetectedClientAppearsChanged | app/services/client_comparison_service.py:774-799 | such a record: an address and a ping result, and no switch |
| CheckpointDiff.QuietChangedIff | app/services/client_comparison_service.py:669-801 | a client without new record between checkpoint and now is reported as changed if and only if its record has data but no switch |
| CheckpointDiff.ComparesOwnIff | app/services/client_comparison_service.py:690-801 | the diff of an address compares the records of a given client if and only if the newest record of the address is that client's on both sides |
| CheckpointDiff.SharedAddressMixes | app/services/client_comparison_service.py:696-801 | of two clients with one address, the record of one is compared with that of the other |
| CheckpointDiff.GenerateCheckpointDiff | app/services/client_comparison_service.py:669-801 | one comparison per compared address, of its newest record at the checkpoint and its newest current one |
| CheckpointDiff.SingleMeaning | app/services/client_comparison_service.py:669-801 | an address is in the diff exactly if it is on the MAC list, or without one recorded by either time; it is compared with its newest record at the checkpoint and its newest current one, dropped if it has no switch |
| CheckpointDiff.BisectRight | app/services/client_comparison_service.py:897-904 | the position after the last time not later than the given one |
| CheckpointDiff.GenerateCheckpointDiffsBatch | app/services/client_comparison_service.py:803-951 | for unsorted and repeated checkpoints and tied times, each checkpoint gets the comparisons of its own newest records |
| CheckpointDiff.NewestMeaning | app/services/client_comparison_service.py:696-719 | the record taken is the address's newest one not after the checkpoint, if there is one |
| CheckpointDiff.BatchAgreesIff | app/services/client_comparison_service.py:890-895 | for each input the batch agrees with the single diff if and only if there is a MAC list or every address is recorded by the checkpoint or by now |
| CheckpointDiff.BatchEqualsSingleIff | app/services/client_comparison_service.py:803-951 | over all tables batch and single diff are equal if and only if there is a MAC list, no checkpoint lies after now, or all checkpoints are the same |
| CaseService.CaseStore.SyncCases | app/services/case_service.py:114-183 | one new case per client without one, assigned if somebody can be |
| CaseLifecycle.SyncMeaning | app/services/case_service.py:114-160 | the existing cases stay, and exactly the clients without one get one: upper-case address, default assignee or root, assigned if there is one, no ping, no flags |
| CaseService.CaseStore.UpdateCase | app/services/case_service.py:579-666 | the request's effect or error; an error changes nothing |
| CaseLifecycle.UpdateMeaning | app/services/case_service.py:592-666 | an allowed request stores the case with status, assignee and stripped summary as asked for and changes no other; otherwise nothing changes and the error says what was wrong |
| Text.StripMeaning | app/services/case_service.py:628-632 | a stored summary has lost exactly the white space at its ends |
| CaseLifecycle.ParseStatusIff | app/services/case_service.py:628-640 | exactly the six names of the statuses are understood |
| RecordQueries.NewestPingsMeaning | app/services/case_service.py:780-802 | a client has a ping result exactly if it has a record, and then that of a newest one |
| CaseService.CaseStore.UpdatePingStatus | app/services/case_service.py:765-841 | from the stored client records, the per-client updates amount to one rewriting of all cases |
| RecordQueries.HistoryMeaning | app/services/case_service.py:946-963 | the records of a client, all of them, in order of time |
| RecordQueries.GroupByClient | app/services/case_service.py:946-963 | one pass over the ordered records gives each client's history |
| RecordQueries.FlaggedIff | app/services/case_service.py:965-974 | an attribute is flagged if and only if two records of the client differ in it, in whatever order they are stored, or it came back at most 15 minutes ago |
| RecordQueries.DifferInIff | app/services/case_service.py:26-29 | which column of the client records each attribute is |
| CaseService.CaseStore.UpdateChangeFlags | app/services/case_service.py:928-985 | every case gets the flags of its client's history |
| CaseService.CaseStore.RunCycle | app/services/scheduler.py:589-595 | the scheduler's five steps in their order, from the stored client records, are one cycle followed by new flags, and settle every case |
| PingFeed.PingKnownIffSpared | app/services/case_service.py:780-802 | over every history of collections and clean-ups and for every hash, the case service has a ping result of a client if and only if the record of the client's last change was spared, and then that record's |
| PingFeed.PingObservedIffSound | app/services/case_service.py:780-802 | over all histories every ping result the case service has is the last observed one if and only if states with equal hashes have equal ping results |
| PingFeed.PingCurrentIff | app/services/case_service.py:765-841 | after a ping update a case has the last observed result if and only if the spared record has it, or, with none spared, the case had it before |
| PingFeed.PingMissed | app/services/client_collection_service.py:641-668 | a record cleaned up before the first ping update is never seen by its case |
| PingFeed.PingFrozen | app/services/case_service.py:780-841 | with its client's records cleaned up, a case keeps ping result and since-time through any interleaving of collections, cycles and requests while the client's state does not change |
| PingFeed.LostUnflagged | app/services/case_service.py:965-974 | with its client's records cleaned up, a case loses all change flags |
| CaseTable.RunKeys | app/services/case_service.py:114-183 | over every run each client has at most one case and each case a listed client |
| CaseLifecycle.ResolvedAreReachable | app/services/case_service.py:640-926 | over every interleaving of users and scheduler steps resolved cases are reachable, unless a ping update still waits for its reopening step |
| CaseLifecycle.CycleSettles | app/services/scheduler.py:589-595 | after a cycle every listed client has exactly one case; reachable cases are resolved or held, others are not resolved |
| CaseLifecycle.CycleRespectsHeld | app/services/case_service.py:843-926 | the cycle never changes IN_PROGRESS, DISCUSSING or IGNORED, nor any case into them |
| CaseLifecycle.CycleIdempotent | app/services/scheduler.py:589-594 | repeating the first four steps of a cycle on the same data changes nothing, however much later |
| CaseLifecycle.CycleShowsPings | app/services/scheduler.py:589-594 | after a cycle each case, new ones included, shows the ping result that was read for its client |
| CaseLifecycle.SinceIffReachable | app/services/case_service.py:804-836 | the since-time is set exactly for reachable cases |
| CaseLifecycle.SinceIsRunStart | app/services/case_service.py:778-841 | the since-time is that of the first update of the present unbroken run of reachable ones |
| CaseLifecycle.OnlyAssigneeChanges | app/services/case_service.py:592-627 | an assigned case is changed by its assignee only |
| CaseLifecycle.HandsOff | app/services/case_service.py:579-926 | over every run a case keeps its assignee and summary, and its status while in somebody's hands, until its assignee asks for a change or its client is removed |
| CaseLifecycle.UnassignedCase | app/services/case_service.py:608-627 | a case without assignee, or with an empty one, can only be given to an active account, by a manager |
| CaseLifecycle.EditDoesWhatItSays | app/services/case_service.py:592-657 | a request succeeds if and only if it is allowed and makes sense, and then status, assignee and summary are the asked ones and nothing else changes |
| CaseLifecycle.StepKeepsSomebodyIff | app/services/case_service.py:579-926 | a step keeps every assigned case assigned to somebody if and only if it does not reopen a resolved, unreachable case without assignee (or is a nameless user's request) |
| CaseLifecycle.AssignedToSomebodyIff | app/services/case_service.py:579-926 | a run has only cases assigned to somebody throughout if and only if none of its steps breaks that |
| CaseLifecycle.AssignedWithoutAssignee | app/services/case_service.py:888-910 | a run after which a case is ASSIGNED although nobody is |
| ChangeDetection.GetTransitionTs | app/services/case_service.py:42-57 | the time of the last change from unknown to known |
| ChangeDetection.ChangedIff | app/services/case_service.py:60-108 | flagged if and only if two different values are known, or the single value was regained at most 15 minutes ago |
| ChangeDetection.TwoValuesStay | app/services/case_service.py:81-90 | a flag raised by two values survives every extension of the history |
| ChangeDetection.RegainedExpires | app/services/case_service.py:96-106 | a flag raised by a regained value only ever expires |
| ChangeDetection.RepeatKeepsTransition | app/services/case_service.py:42-57 | recording the same value again does not move the transition time |
| Dashboard.AdjustedFailures | app/services/indicator_service.py:149-180 | adjusted failures count the devices that failed or were not collected and are not ignored; never negative, and passes and failures add up |
| Dashboard.EntryMeaning | app/services/indicator_service.py:149-186 | an indicator's failures are the devices that failed it or could not be collected for it and are not ignored for this indicator, plus repeated entries; its total adds the uncollected devices that did not fail |
| Dashboard.RateFull | app/services/indicator_service.py:176-180 | the floored rate is 100 if and only if nothing fails |
| Dashboard.RateBelow | app/services/indicator_service.py:176-180 | the floored rate is below a whole percentage if and only if the exact one is |
| Dashboard.EachDeviceOnceIff | app/services/indicator_service.py:149-180 | the adjusted total is the number of devices if and only if no passing device has a collection error |
| Dashboard.StatusMeaning | app/services/indicator_service.py:211-233 | each of the five statuses is shown exactly under its condition on the figures |
| Dashboard.GetDashboardSummary | app/services/indicator_service.py:105-209 | entries per indicator and overall sums, rate and status |
| Dashboard.OverallConserved | app/services/indicator_service.py:194-209 | overall passes and failures add up to the total, and there is a failure if and only if some indicator has one |
| Dashboard.SumSplits | app/services/indicator_service.py:194-197 | the overall figures are the sums over the indicators |
| Dashboard.OverallMeaning | app/services/indicator_service.py:235-242 | success, warning and error in terms of the exact share of passes |
| Dashboard.OverallGreen | app/services/indicator_service.py:199-242 | the dashboard is green if and only if there are items and none fails |
| LoopSupervision.AtMostOneLive | app/services/scheduler.py:82-121 | over every interleaving at most one collection loop is live |
| LoopSupervision.NeverOrphaned | app/services/scheduler.py:97-121 | a started service that nobody stopped has a live loop, a pending callback or a pending restart |
| LoopSupervision.RestartsPaid | app/services/scheduler.py:82-121 | over every run no more loops are created, pending restarts included, than there were starts, crashes and cancellations |
| LoopSupervision.NothingStartsAfterStop | app/services/scheduler.py:97-121 | after a stop no loop is started again without an explicit start |
| LoopSupervision.WindsDown | app/services/scheduler.py:1070-1080 | once stopped, every other step brings the service closer to rest |
| LoopSupervision.StopReachesRest | app/services/scheduler.py:1070-1080 | at rest no loop runs, and before it some step can be taken |
| LoopSupervision.StartTakesEffectIff | app/services/scheduler.py:82-95 | a start takes effect if and only if no loop is running that was asked to end |
| LoopSupervision.StartLostIff | app/services/scheduler.py:82-95 | however the run goes on without start or stop, the service stays stopped after a start if and only if a loop was running that had been asked to end |
| LoopSupervision.StartDuringShutdownIsLost | app/services/scheduler.py:82-121 | after a start, a stop and a start before the loop has ended, the service stays stopped |
| LoopSupervision.SchedulerService.StartCollectionLoop | app/services/scheduler.py:60-127 | starting is the start step, and creates a task only if none runs |
| LoopSupervision.SchedulerService.OnLoopDone | app/services/scheduler.py:97-121 | the done-callback is its step: restart after crash or cancellation, unless stopped |

## Left out

- The collectors and evaluators themselves, HTTP and pysnmp calls: only their results occur.
- FIFO order of asyncio locks and semaphores: any waiting coroutine may be woken, so FIFO is one of the schedules.
- The retries inside one collector are one step; the deadlock retries of the database write are steps.
- `SnmpSessionCache.clear`, `clear_all`, the ifIndex and bridge-port caches.
- Cancellation of a whole round from outside; a device can be cancelled or crash at any await.
- `rstrip(".")` on the walk prefix, and the text of SNMP values.
- raw data of batches, the flattening override of the transceiver repository, and the API mode, whose failures write an empty batch.
- Legacy and at-time comparisons, notes and the order of comparisons: results are maps by MAC address, as Python sets have no order.
- Case notes, `created_at` and `updated_at`.
- Removing a client clears the client id of its records; in the log they keep it, and no listed client has it again.
- White space other than ASCII in summaries.
- A collection in which one client id occurs twice: assembly yields each client once.
- Rounds without any client write a snapshot marker; the diff skips markers.
- Garbage collection of the restart coroutine, and the body of the collection loop: a loop returns only with the stop flag set.
- System-log clean-up and the choice of expired maintenances, which is a parameter.
- DottedOid.ScopeTestIsExact: assumes the dotted text the agent's library prints, without leading or trailing dots.
