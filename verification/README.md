# Homelab Inventory Agent: verification model

This Dafny project models the delivery and update behaviour of the Homelab
Inventory Agent (written in Go) and proves properties of it that span whole runs.
Check it with `dafny verify dfyconfig.toml`.

**Telemetry pipeline.** `Collect` reserves a persisted sequence, turns seven state
families into digest-based deltas with revisions, validates the heartbeat, queues it
on disk and records the new revisions in a sync file; `Flush` sends the queue in
order and reacts to confirmations, policies, reconcile requests, replays and
revocation. The object model (`Compact.Families`, `Buffer.Queue`,
`Identity.Identity`, `Agent.Agent`) keeps the source's mutable fields, including the
family table that two sync states share; every method is proved to take the step of
a value model (`DeltaOf`, `CompactOf`, `AddTo`, `CollectStep`, `TurnStep`, ...), and
the theorems are about that value model. `Runs` lets a device live through any
sequence of events (process starts, activations, contracts, ticks, snapshots, an
unreadable sync file) while a network delivers any queued heartbeat to a receiver at
any time, in any order, any number of times or never. How every outside call ends is
a parameter, so a theorem over all runs covers every mix of failures.

* `RunsReplay`, `RunsOrderly`, `Replay`: a receiver that applies a family only when it
  is full or one revision ahead holds exactly what the agent recorded at that
  revision. The theorem has two conditions. Inputs must hide no change behind a
  duplicate key: `Delta.DeltaExact` is an equivalence, and `Compact.SharedMountMasks`
  is the input that breaks it. And no process may start on a sync file that is behind a
  queued revision: `Restarts.RestartExact` says exactly which such starts can mislead a
  receiver later, and `RunsExamples.RestartMisleads` is a run in which one does. Runs
  in which a queued heartbeat is always recorded, and the file stays readable, satisfy
  the second condition (`RunsOrderly.OrderlyAdmitted`).
* `RunsDelivery`: nothing added to the queue vanishes, with no assumption on failures;
  the dropped counter after a complete Flush, and when it is bounded by what was really
  dropped.
* `RunsPolicy`, `RunsFate`: capability elision, remembered requests and exactly when a
  Collect uses one up, policies that never go back, and dormancy with its one way out.
* `RunsSequences`: heartbeats and snapshots never share a sequence, and what that means
  for replay conflicts.
* `RunsAgent`: the run loop of the agent object, as events; `RunsExamples`: concrete
  runs at which a condition is needed.

**Updater.** `Updater` is the transaction over two files and one service, with a
failure possible at each step; `UpdateLock` puts any number of updaters side by side;
`SemVer` relates the version comparison to section 11 of Semantic Versioning 2.0.0.

**Smaller parts.** `Keys` says when a family's keys are distinct, and `SensorFacts` which
sensors count for what. Queue file names, the canonical form of signed requests, CPU
counter arithmetic on wrapping 64-bit counters, GPU sample aggregation against the
plain list of samples.

Digests are a function that never collides and never yields the empty text; a queued
body is the heartbeat itself with its length. Measurements are real numbers, times
are integers in nanoseconds.

## Where code and documentation disagree

The model follows the code in each of these.

* The README of the repository says that acknowledged revisions are persisted. The
  code persists a revision when its heartbeat is queued, and keeps it in memory even
  when the heartbeat is then refused (`internal/runtime/telemetry_delta.go:220`).
* It says that a failed restart restores the prior binary. A first replacement that
  reports an error after its rename is not undone
  (`internal/agentupdate/update.go:166-168`, `internal/agentupdate/platform.go:202-210`);
  `Updater.Machine.Run` states exactly what is then left behind. And on OpenRC the start
  command is no restart (`internal/agentupdate/platform.go:62-69`): after a complete
  rollback the service may still run the new files. `Updater.UndoneRunsRestored` says
  exactly when it runs the restored ones.
* A drop report is read back from at most one mebibyte of text
  (`internal/runtime/agent.go:231-244`), and a contract may allow four. A longer
  heartbeat's report is never taken off the counter (`RunsDelivery.DropCounterBound` has
  the exact condition, `RunsExamples.LongReportKept` a run).
* It says that the application verifies a monotonic sequence. Snapshots draw on the
  counter of heartbeats and are sent ahead of queued ones. A server that refuses every
  sequence at or below the greatest it took therefore answers replay conflicts to
  heartbeats that it never took, and Flush removes them
  (`RunsSequences.SnapshotOvertakes`, `RunsSequences.OvertakenExact`); one that refuses
  only sequences it took does not (`RunsSequences.ConflictIsOwn`).
* A reconcile request is used up by a build whose heartbeat is not queued
  (`RunsFate.RequestFate`).
* A dormancy file that cannot be examined reads as absent, so that a revoked device may
  deliver again (`RunsPolicy.DormancyExact`).
* The version comparison happens before the lock is taken, so that concurrent
  updaters can install a smaller version over a greater one
  (`UpdateLock.StaleCheckDowngrades`; `UpdateLock.VersionsAscend` has the exact
  condition).
* The version comparison is not antisymmetric on numerals with leading zeros
  (`SemVer.AntisymmetryExact` says exactly when).

## Model

| member | source | states |
|---|---|---|
| Delta.DeltaFamily | internal/runtime/telemetry_delta.go:89-123 | the loops compute the delta specification: last digest per key, changed values in order, sorted removed keys, full when due |
| Delta.DeltaExact | internal/runtime/telemetry_delta.go:89-123 | a receiver that has the recorded view gets the new view from the delta if and only if the delta is full or no entry of a repeated key hides a return to the remembered digest |
| Delta.DistinctUnmasked | internal/runtime/telemetry_delta.go:89-101 | pairwise distinct keys always meet that condition |
| Delta.RepeatedKeyMasks | internal/runtime/telemetry_delta.go:89-101 | a repeated key does mask: when its last value is the recorded one, a receiver ends with the other value |
| Delta.DeltaRecords | internal/runtime/telemetry_delta.go:109-122 | an omitted family leaves the remembered state untouched; a sent one carries the next revision; afterwards the last full sending is less than six hours old |
| Delta.DueIsFull | internal/runtime/telemetry_delta.go:109-122 | the delta is full exactly when due, and then lists every value |
| Sensors.CompactSensors | internal/runtime/telemetry_delta.go:169-213 | the loop over sensors and the sorted NVMe keys produce one CPU record and one record per NVMe key |
| Sensors.KeyedMaps | internal/runtime/telemetry_delta.go:134-142 | records without any candidate key are left out, the others keep their order and get the first usable candidate |
| Sensors.SensorKeysDistinct | internal/runtime/telemetry_delta.go:169-213 | for every input the compacted sensors have pairwise distinct keys and none is lost to keying |
| Sensors.NvmeLastReading | internal/runtime/telemetry_delta.go:188-196 | each NVMe key holds the last reading filed under it |
| Sensors.NvmeKeysRead | internal/runtime/telemetry_delta.go:188-196 | no NVMe key is held without a reading |
| Sensors.CpuAverageBounded | internal/runtime/telemetry_delta.go:197-203 | the CPU record is there exactly when a CPU sensor is, and its average lies between any bounds of their readings |
| SensorFacts.ClassifyExact | internal/runtime/telemetry_delta.go:174-194 | which sensors count, with which temperature, for the CPU and as an NVMe device, and under what key the latter are filed |
| SensorFacts.RecordsExact | internal/runtime/telemetry_delta.go:196-212 | the compacted sensors are the CPU average, if any, and one record per NVMe key with its reading, and nothing else |
| Averages.MeanConcat | internal/runtime/telemetry_delta.go:197-202 | the mean of two lists together is the mean of their means weighted by length, and that of one reading is the reading |
| Strings.ListingUnique | internal/runtime/telemetry_delta.go:204-211 | a set of keys has one ascending listing, so map iteration order cannot show |
| Compact.BuildCompactHeartbeat | internal/runtime/telemetry_delta.go:215-294 | the next state shares the family table, which has advanced up to the failing family when the build fails |
| Compact.BuildEach | internal/runtime/telemetry_delta.go:259-280 | each family moves by its own delta, independently of the others, or is untouched; a complete build reaches all |
| Compact.BuildReaches | internal/runtime/telemetry_delta.go:259-280 | a build gets past a family exactly when it and all before it can be encoded, and is complete exactly when all can |
| Compact.EntriesKeyed | internal/runtime/telemetry_delta.go:238-257 | the key of an entry is a function of the value that is sent, so a receiver files it the same way |
| Keys.ServiceKeysApart | internal/runtime/telemetry_delta.go:238-243 | services are filed together exactly when trimmed manager, blank meaning systemd, and name are the same, for managers free of NUL |
| Keys.ContainerKeysApart | internal/runtime/telemetry_delta.go:245-248 | containers are filed together exactly when runtime and id are the same, for runtimes free of NUL |
| Keys.NulCollides | internal/runtime/telemetry_delta.go:243-247 | without that condition a NUL may move between the two parts of a key |
| Keys.MetricKeyIs | internal/runtime/telemetry_delta.go:265-268 | file systems go by mount point, mount, source, GPUs by id, PCI address, UUID, name: the first that is a text and not blank |
| Keys.DistinctExact | internal/runtime/telemetry_delta.go:237-280 | a family has pairwise distinct keys if and only if its items have pairwise distinct identities; sensors and system always have |
| Keys.ServiceShown | internal/runtime/telemetry_delta.go:238-243 | with distinct keys the recorded view has every reported service, under its identity and unchanged but for a blank manager |
| Keys.ContainerShown | internal/runtime/telemetry_delta.go:245-248 | the same of every container |
| Keys.StorageShown | internal/runtime/telemetry_delta.go:249-252 | the same of every storage device |
| Keys.FilesystemShown | internal/runtime/telemetry_delta.go:265 | the same of every file system with an identity |
| Keys.GpuShown | internal/runtime/telemetry_delta.go:268 | the same of every GPU with an identity |
| Compact.CompactMoves | internal/runtime/telemetry_delta.go:259-280 | what a whole build does to one family and when the heartbeat carries it |
| Compact.ElisionValid | protocol/v1/models.go:382-384 | capabilities are left out exactly on an equal digest, and the heartbeat always meets the capability clause |
| Compact.BoundedStaleness | internal/runtime/telemetry_delta.go:109-122 | after every compact build each family was sent in full less than six hours ago; a due family is full with every value |
| Compact.SharedMountMasks | internal/runtime/telemetry_delta.go:265 | two file systems under one mount point, the last of them unchanged, leave the receiver with the wrong one |
| Buffer.Queue.Add | internal/buffer/queue.go:143-165 | the directory becomes the specified queue, each failure leaving what the source leaves |
| Buffer.Queue.EnforceLimits | internal/buffer/queue.go:167-193 | the loop never looks at an empty list, drops the oldest entries and counts them |
| Buffer.Queue.SetLimits | internal/buffer/queue.go:195-207 | invalid limits change nothing; valid ones are kept and enforced |
| Buffer.Queue.Remove | internal/buffer/queue.go:215-222 | exactly the named entry goes, a missing one is no error, and a failing removal changes nothing |
| Buffer.Queue.AcknowledgeDropped | internal/buffer/queue.go:237-253 | the counter goes down by the report, not below zero; a failure leaves it, and a zero report needs no file |
| Buffer.KeepsLongestSuffix | internal/buffer/queue.go:173-181 | what is kept is the longest suffix that meets both limits: it fits, and no longer one does |
| Buffer.EnforceConserves | internal/buffer/queue.go:167-193 | the counter rises by exactly the number of lost entries unless the operation reports an error |
| Buffer.EnforceExact | internal/buffer/queue.go:167-193 | enforcement succeeds exactly when nothing has to go or every removal and the rewriting of the counter work, and then leaves the longest fitting suffix with the rest counted |
| Buffer.LimitEnforces | internal/buffer/queue.go:195-207 | valid limits are in force whatever fails, and on success the queue is the longest suffix within the new limits with the rest counted; invalid ones change nothing |
| Buffer.AddEnforces | internal/buffer/queue.go:143-165 | a successful Add leaves the longest suffix, within the limits, of the queue with the new entry in its place, with the rest counted |
| Buffer.AddKeepsNewest | internal/buffer/queue.go:143-165 | an Add of the greatest sequence keeps its own entry whenever it was written, also when a later step of it fails; what goes are the oldest |
| Buffer.WithoutExact | internal/buffer/queue.go:215-222 | removal removes that entry and nothing else |
| Identity.Identity.ReserveSequence | internal/identity/identity.go:155-170 | the counter in memory and on disk after a reservation that works, fails before or fails after the rename |
| Identity.Identity.ActivateDevice | internal/identity/identity.go:142-153 | binding to a device id; success means memory and file agree |
| Identity.SequencesStrictlyIncrease | internal/identity/identity.go:155-170 | over any life with failures and restarts the sequences handed out strictly increase, stay in 64 bits and are covered by the file |
| Identity.ActivateExact | internal/identity/identity.go:142-153 | an activation takes effect in memory exactly with a safe id that does not contradict the one before, and in the file as far as it can be written |
| Identity.BindingKept | internal/identity/identity.go:142-153 | over any life of the device a file once bound to an id stays bound to it, and a running process uses no other |
| Agent.Agent.Collect | internal/runtime/agent.go:246-323 | every return of Collect leaves memory, queue and files as the step says, with the shared family table already advanced |
| Agent.Agent.ApplyMonitoringConfig | internal/runtime/agent.go:111-125 | an invalid policy is an error, an old one changes nothing, a newer one is taken over only when written |
| Agent.Agent.Flush | internal/runtime/agent.go:325-375 | the loop over the entries read at its start, with an early return at each failure, is the recursive flush step |
| Agent.Agent.Contract | internal/runtime/agent.go:203-209 | limits of the contract reach the queue |
| Agent.Agent.SubmitHardwareSnapshot | internal/runtime/agent.go:377-404 | the method takes the snapshot step, and an agent that finds itself dormant sends nothing |
| Agent.Agent.RunOnce | internal/runtime/agent.go:406-418 | an agent that finds itself dormant refuses; otherwise a run of one tick |
| Agent.Agent.Run | internal/runtime/agent.go:420-458 | an agent that finds itself dormant only waits; a revocation ends the loop in that wait; otherwise one tick after another |
| AgentModel.TurnCases | internal/runtime/agent.go:330-373 | a turn of the loop either ends with the confirmation, and then the reply confirmed this sequence, or leaves the queue alone |
| AgentModel.ConfirmedExact | internal/runtime/agent.go:330-373 | an entry leaves the queue if and only if the reply is an ok answer for its sequence with no policy or a valid one, or the replay conflict, and every file operation works that the reply calls for |
| AgentModel.RevokedExact | internal/runtime/agent.go:334-339 | a turn ends with the revocation error if and only if the server answers status 410 with the revocation code and this can be recorded |
| AgentModel.PolicyExact | internal/runtime/agent.go:111-125 | the policy in force after a turn is that of a confirming answer, if newer and written, otherwise the one before |
| AgentModel.FlushKeeps | internal/runtime/agent.go:325-375 | a Flush leaves the limits alone, and a device becomes dormant exactly when it ends with the revocation error |
| AgentModel.FinishCases | internal/runtime/agent.go:288-321 | from the raw heartbeat on, a Collect queues nothing and moves only the family table, or queues what was built and moves queue, sync file and digest exactly as far as each succeeds |
| RunsAgent.RunIsEvents | internal/runtime/agent.go:420-458 | a run of the loop is a run of events, so that what holds of all runs of events holds of it |
| RunsSequences.SnapshotReserves | internal/runtime/agent.go:399-403 | a snapshot is sent with the sequence after the one it found, which memory and file hold before it is sent |
| RunsSequences.SequencesUsedOnce | internal/identity/identity.go:155-170 | over any run the sequences of heartbeats and snapshots together strictly increase, and memory and file cover them all |
| RunsSequences.ConflictIsOwn | internal/runtime/agent.go:340-342 | for a server that answers a replay conflict to a sequence it took before, the conflict meets a heartbeat only if it took that heartbeat |
| RunsSequences.OvertakenExact | internal/runtime/agent.go:340-342 | for a server that wants sequences to increase, the conflict meets a heartbeat it did not take if and only if it took a request reserved later |
| RunsSequences.SnapshotOvertakes | internal/runtime/agent.go:399-403 | a snapshot sent while heartbeats are queued is reserved after all of them; such a server then answers conflicts, and the Flush empties the queue |
| Replay.BuildSound | internal/runtime/telemetry_delta.go:89-123 | a build keeps a family's track sound and what it would send reproduces the recorded values |
| Replay.BuildCurrent | internal/runtime/telemetry_delta.go:109-113 | what is recorded at the current revision is what was just collected, also when the family was left out |
| Restarts.RestartExact | internal/runtime/telemetry_delta.go:37-50 | after any process start, every continuation keeps the receiver honest if and only if neither the receiver nor anything queued that it can come to apply is ahead of the sync file; otherwise some continuation has it hold, at the agent's own revision, values never recorded there |
| RunsExamples.RestartMisleads | internal/runtime/agent.go:311-317 | a run from a new device, ending with a process start, after which a receiver at the agent's revision holds values the agent never recorded there |
| RunsReplay.DistinctClean | internal/runtime/telemetry_delta.go:237-280 | an input in which no two items have the same identity is clean |
| RunsReplay.CollectSound | internal/runtime/agent.go:288-321 | a Collect that ends anywhere keeps every family's track sound |
| RunsReplay.DeltaReplay | internal/runtime/agent.go:288-321 | after any admitted run the receiver's view of every family is the recorded map at the receiver's revision; at the agent's revision it has the digests the agent remembers |
| RunsOrderly.OrderlyAdmitted | internal/runtime/agent.go:311-320 | a run in which no queued heartbeat stays unrecorded and the sync file stays readable is admitted |
| RunsOrderly.SuccessRecords | internal/runtime/agent.go:311-321 | after a successful compact Collect memory, sync file and queued heartbeat agree on families and capability digest |
| RunsOrderly.SuccessCovers | internal/runtime/agent.go:314-321 | whatever was left unrecorded before, a successful compact Collect makes a restart safe again |
| RunsOrderly.CurrentTruth | internal/runtime/telemetry_delta.go:109-122 | right after a build, a receiver at the agent's revision holds exactly the values just collected, sent or omitted |
| RunsDelivery.TurnQueue | internal/runtime/agent.go:330-373 | one turn keeps the queue or removes its head, and removes it only on a confirming reply |
| RunsDelivery.FlushSuffix | internal/runtime/agent.go:325-375 | entries are sent in ascending sequence and the queue becomes a suffix of what it was |
| RunsDelivery.FlushConfirms | internal/runtime/agent.go:331-343 | every removed entry was confirmed by success for its own sequence or by the replay conflict |
| RunsDelivery.FlushDeliversAll | internal/runtime/agent.go:325-375 | a Flush in which every exchange succeeds sends every entry and empties the queue |
| RunsDelivery.ContractEnforces | internal/runtime/agent.go:203-209 | a valid contract's limits are in force whatever fails and enforced on success; no other contract changes anything |
| RunsDelivery.CollectDelivered | internal/runtime/agent.go:311-313 | a successful Collect leaves its own heartbeat in the queue |
| RunsDelivery.NothingVanishes | internal/runtime/agent.go:325-375 | over all runs each added heartbeat is queued, was confirmed or was dropped by a limit, exactly one of these, and sequences are unique |
| RunsDelivery.DropsAreCounted | internal/buffer/queue.go:182-191 | while the counter can be rewritten it was raised by exactly the number of dropped heartbeats |
| RunsDelivery.FlushCounter | internal/runtime/agent.go:365-372 | a complete Flush takes exactly the readable reports of its entries off the counter, not below zero |
| RunsDelivery.DropCounterBound | internal/runtime/agent.go:231-244 | after a complete Flush whose last report can be read back the counter is at most the drops since that heartbeat read it; when no other nonzero report was confirmed since, it keeps that bound if and only if the report can be read back or is zero, and then meets it |
| RunsExamples.LongReportKept | internal/runtime/agent.go:231-244 | a run within the contract whose last heartbeat is two mebibytes long and leaves the counter above the bound |
| RunsPolicy.ElisionBacked | internal/runtime/telemetry_delta.go:225-234 | over all runs capabilities are left out only if an earlier queued heartbeat carried capabilities with that digest |
| RunsPolicy.FlushOwes | internal/runtime/agent.go:349-364 | a reconcile request confirmed anywhere in a Flush is owed afterwards, in memory and on disk |
| RunsPolicy.CollectOwes | internal/runtime/telemetry_delta.go:109-122 | a Collect that completes a build of an owed family builds it in full with every keyed value, any other leaves it owed |
| RunsPolicy.ReconcileRemembered | internal/runtime/agent.go:349-364 | a request survives every failure and restart until a build sends the family in full |
| RunsFate.QueuedExact | internal/runtime/agent.go:246-313 | a compact Collect queues its heartbeat exactly when none of the named calls and limits refuses it |
| RunsFate.PlainQueuedExact | internal/runtime/agent.go:246-313 | the same where the contract does not support compact heartbeats |
| RunsFate.CollectEnds | internal/runtime/agent.go:246-323 | a Collect succeeds exactly when its heartbeat was queued, the limits enforced and a compact one recorded; a sequence is reserved exactly after an observation |
| RunsFate.QueuedBody | internal/runtime/agent.go:259-284 | a queued heartbeat carries the reserved sequence, the collection time, the counter that was read, the policy revision where the contract supports policies, and the merged capabilities or their digest |
| RunsFate.MergedExact | internal/runtime/agent.go:274-283 | every capability observed or added is reported; the binary has the last word, except on the policy capability, which is always there |
| RunsFate.TickAttempts | internal/runtime/agent.go:420-458 | a tick attempts a delivery if and only if its Collect succeeded |
| RunsFate.RequestFate | internal/runtime/telemetry_delta.go:220 | a request is kept or met if and only if the build does not get past its family or the heartbeat is queued; otherwise the family is not due again for six hours |
| RunsPolicy.FlushOwesCapabilities | internal/runtime/agent.go:351-353 | a capability request confirmed anywhere in a Flush is owed afterwards, in memory and on disk |
| RunsPolicy.RequestsExact | internal/runtime/agent.go:349-364 | exactly the families that a noted request names are forgotten as sent in full, exactly a noted request clears the capability digest, and the sync file follows as far as it can be written |
| RunsPolicy.CapabilitiesRemembered | internal/runtime/telemetry_delta.go:230-234 | while owed, capabilities stay owed until a queued heartbeat carries them |
| RunsPolicy.FlushApplies | internal/runtime/agent.go:344-348 | a policy confirmed anywhere in a Flush, or a newer one, is in force after it |
| RunsPolicy.PolicyMonotone | internal/runtime/agent.go:111-125 | over any run the policy revision never goes back |
| RunsPolicy.DormancyExact | internal/runtime/agent.go:127-130 | over any run a device with a recorded revocation stays silent if and only if no process that gets its contract or submits a snapshot misses the file, and then it attempts and queues nothing |
| RunsPolicy.DormancyAbsorbing | internal/runtime/agent.go:127-148 | while the file can be examined it also removes nothing from its queue |
| RunsPolicy.RevokedHeartbeatKept | internal/runtime/agent.go:334-339 | the heartbeat that met the revocation stays at the head of the queue for good, while the file can be examined |
| RunsPolicy.FlushMeetsRevocation | internal/runtime/agent.go:334-339 | a Flush that gets to a revocation answer makes the device dormant and keeps that entry at the head of the queue |
| QueueNames.NameRoundTrip | internal/buffer/queue.go:108-114 | parsing the printed name of a positive 64-bit sequence returns it |
| QueueNames.NameIffPrinted | internal/buffer/queue.go:108-114 | a name of that length parses to a sequence exactly when it is the printed one |
| QueueNames.NameOrder | internal/buffer/queue.go:52-54 | names are ordered like sequences, and distinct sequences have distinct names |
| Requests.CanonicalInjective | internal/transport/client.go:205-214 | for single-line path, time and digest the signed bytes determine method up to case, path, time, sequence and digest |
| Requests.CanonicalLines | internal/transport/client.go:205-214 | line by line the signed text is the prefix, the method in capitals, the path, the time, the sequence in decimal and the body digest |
| Requests.NewlineCollides | internal/transport/client.go:205-214 | without that condition two different requests have the same bytes |
| SemVer.ParseVersion | internal/agentupdate/version.go:16-53 | the loops accept and split exactly what the grammar function does |
| SemVer.RenderParse | internal/agentupdate/version.go:16-53 | every written form of a version, with spaces, `v` or build metadata, is read as that version |
| SemVer.ParseRender | internal/agentupdate/version.go:16-53 | whatever is accepted is a written form of the version read |
| SemVer.CompareVersions | internal/agentupdate/version.go:55-113 | the loops with early returns compute the comparison, or an error when either text is no version |
| SemVer.ComparisonIsPrecedence | internal/agentupdate/version.go:55-113 | on conforming versions -1, 1 and 0 are precedence both ways and equality, with build metadata ignored |
| SemVer.ComparisonTransitive | internal/agentupdate/version.go:55-113 | smaller is transitive on conforming versions |
| SemVer.AntisymmetryExact | internal/agentupdate/version.go:80-90 | on all versions swapping flips the sign unless the first differing identifiers are numerals of one value |
| SemVer.LeadingZeroClash | internal/agentupdate/version.go:85-90 | `01` and `1` are each greater than the other |
| Updater.Download | internal/agentupdate/release.go:176-206 | a body comes through exactly when the reply has the announced size and digest |
| Updater.WaitForSustainedHealth | internal/agentupdate/platform.go:131-156 | success exactly when every check passed and no pause was cut short |
| Updater.UndoneRunsRestored | internal/agentupdate/update.go:151-156 | after a complete rollback the service runs the restored files if and only if the start command restarts, or the update failed before it started the new ones, or these are no different |
| Updater.OpenRcKeepsNew | internal/agentupdate/platform.go:62-69 | on OpenRC an update whose new service fails a health check ends with its cause alone while the new files still run |
| Updater.Machine.AtomicWrite | internal/agentupdate/platform.go:180-211 | one file changes, if renamed, and an error may come after that |
| Updater.Machine.SnapshotFile | internal/agentupdate/platform.go:164-177 | a snapshot is the body and mode of a regular readable file |
| Updater.Machine.Rollback | internal/agentupdate/update.go:145-165 | the cause alone is returned exactly when every step of the rollback worked; then the old files are in place, and what runs is what a start makes of what ran before |
| Updater.Machine.Replace | internal/agentupdate/update.go:166-190 | success exactly when all steps work; otherwise the old pair is back, the first write's late error excepted, or the error says it is not |
| Updater.Machine.Install | internal/agentupdate/update.go:112-143 | nothing is stopped or replaced unless both downloads verify and both files were saved |
| Updater.DecisionExact | internal/agentupdate/update.go:44-97 | an update is rejected exactly without rights, configuration, platform or two readable versions; for conforming ones it goes on, unless it only checks, if and only if the target was asked for or has precedence over the current version |
| Updater.UpdatedExact | internal/agentupdate/update.go:98-190 | an update succeeds exactly when it goes on, gets the lock, is prepared and each of its steps works, health checks and printed version included |
| Updater.UndoneExact | internal/agentupdate/update.go:144-165 | it is undone exactly when a step after the stop fails and the old files, if replaced, are written back and the service starts and stays healthy |
| Updater.DownloadsExact | internal/agentupdate/update.go:116-132 | downloads verify exactly when both assets are listed and both bodies have the announced size and digest |
| Updater.Machine.Run | internal/agentupdate/update.go:39-190 | the whole transaction: how it ends and what it leaves, whichever step fails |
| UpdateLock.NeverOverlap | internal/agentupdate/update.go:100-110 | in every interleaving of requested and unrequested updates, with processes dying anywhere, at most one updater is between lock and removal and their effects never interleave |
| UpdateLock.BeginExact | internal/agentupdate/update.go:87-97 | for conforming versions an updater goes on to the lock exactly when its target was asked for or has precedence over what is installed |
| UpdateLock.BeginDecides | internal/agentupdate/update.go:87-97 | this is the decision of an update started from the installed binary |
| UpdateLock.AlwaysConsistent | internal/agentupdate/update.go:133-166 | in every interleaving the snapshot of the updater inside is what was installed when it took the lock, so that its rollback brings that back |
| UpdateLock.VersionsAscend | internal/agentupdate/update.go:87-110 | for requested and unrequested updates the versions left behind strictly ascend, none coming back, if and only if each was greater than what was installed when its updater took the lock |
| UpdateLock.FreshAscends | internal/agentupdate/update.go:87-97 | unrequested updates that each lock while the binary they compared is installed meet that condition |
| UpdateLock.StaleCheckDowngrades | internal/agentupdate/update.go:80-110 | without that condition a waiting updater can install a smaller version |
| Cpu.BreakdownAddsUp | internal/collectors/linux/proc.go:65-89 | the five values are percentages, sum to exactly 100, and the overall percentage is 100 minus idle and I/O wait |
| Cpu.BreakdownTrue | internal/collectors/linux/proc.go:65-89 | which counters stand behind each value and behind the overall percentage |
| Cpu.ReportedExact | internal/collectors/linux/proc.go:23-33 | nothing is reported exactly when a counter went back or the wrapped total did not grow |
| Cpu.DeltasTrue | internal/collectors/linux/proc.go:23-33 | wrapping sums cancel: the differences are the true ones while the true difference fits in 64 bits |
| Gpu.Aggregation.Add | internal/collectors/linux/gpu_aggregate.go:49-75 | a failed sampling changes no device; otherwise every sample with an id joins the history |
| Gpu.AcceptedExact | internal/collectors/linux/gpu_aggregate.go:57-61 | exactly the samples with an id are taken up, each as often as it was sampled |
| Gpu.AcceptedConcat | internal/collectors/linux/gpu_aggregate.go:57-61 | samples are taken up one after another, in order |
| Gpu.SamplesExact | internal/collectors/linux/gpu_aggregate.go:58-66 | a device's samples are exactly those with its id |
| Gpu.ReadingsExact | internal/collectors/linux/gpu_aggregate.go:68-73 | the readings of a metric are exactly the numbers under its name |
| Gpu.Aggregation.Drain | internal/collectors/linux/gpu_aggregate.go:77-95 | each device reports the means of exactly its samples since the last drain and is forgotten |
| Gpu.DrainedBetween | internal/collectors/linux/gpu_aggregate.go:84-90 | a drained metric lies between any bounds of its readings |
| Gpu.ReportUnique | internal/collectors/linux/gpu_aggregate.go:84-92 | the samples determine the report, whatever the map order |
| Gpu.Perform | internal/collectors/linux/gpu_aggregate.go:49-95 | over any sequence of additions and drains on the object, each accepted sample is reported by exactly one drain or still pending, in order, and each drain reports by its own samples |

## Left out

- HTTP, TLS, gzip, JSON and Ed25519: the server's replies, the encoded lengths and the digests are parameters.
- SendHeartbeat: an answer that cannot be decoded and a refused host are both `Unreachable`.
- Validation of heartbeats: the sequence, capability and state-family clauses are modelled; all other clauses are one parameter. The collection time is never zero at that point.
- AgentModel.ConfirmedExact: of a policy only the revision and the service interval are modelled; its selectors, and their validation, are left out.
- Families of kinds other than the seven: a reconcile request may name them, as in the source; nothing is ever built for them.
- The seven `deltaFamily` calls are a loop over the family order; they differ only in how their entries are keyed.
- The reduced CPU map and the other metric fields that a compact heartbeat keeps or clears: they are not part of a state family.
- Listing failures at the start of a Flush: such a Flush ends before anything is sent, as one does whose first send fails.
- Contract fetching and caching: a contract is a parameter, and what it does is to set the queue's limits. Its schema digests are a parameter too.
- Concurrency inside one process: each method is one step. This is an assumption; the source's Flush, Collect and SubmitHardwareSnapshot hold no lock across their bodies, and snapshots are submitted beside the run loop, so that a snapshot that passed its dormancy test may be sent after the revocation was recorded.
- The queue's byte total and drop counter: unbounded here. The counter cannot wrap, because every drop has its own 64-bit sequence.
- Revisions: the replay theorems hold for runs of at most 2^64 - 1 events, so that a revision does not wrap to zero; the increment itself is modelled with its wrap.
- Sensors: lower-casing is that of ASCII text.
- Updater.Machine.RunCommand: what a service manager makes of a start after a stop or start that failed is not known, and stays unknown until a restarting start; that a running process may end by itself is not modelled.
- Updater.Machine.Run: the platform's paths, asset names and commands are not modelled, only that every platform has the stop, start and health commands and that reload may be missing. Manifest checks and redirects are parameters.
- UpdateLock.NeverOverlap: nothing but updaters touches the lock file.
- Cpu.BreakdownAddsUp: holds while the true difference of the eight-counter sums fits in 64 bits, which is less than that the sums themselves do not overflow. Parsing of the counters is left out.
- Gpu.Aggregation.Drain: reports are a map from device id to sample; the order of the source's list is the map's iteration order and has no meaning.
- Floating-point rounding: averages and percentages are over the real numbers.
- Container, SMART, inventory and FreeBSD collectors, configuration checks and installers: field copying, text parsing and range checks.
