# Verified model of the agent and hub core

This project models five parts of the monitoring agent and its hub, and proves what they
promise over whole runs.

- **Credential handoff.** A re-enrollment stages a replacement secret on the hub, the agent
  saves it beside its active one, commits it, and drops the old one only on a confirmation
  that names the hash. `CredentialStore` and `CredentialAgent` are the two sides as they
  change their rows and files, `CredentialProtocol` puts them together with frames in
  flight, crashes and power losses, `CredentialSafety` proves agreement, `Reconnect` is the
  agent's dial loop, `CredentialConvergence` proves that it gets back after any run of the
  protocol, and `CredentialLimits` holds the runs that show which conditions are needed.
- **Power history.** `GpuWindow`, `GpuSensors`, `PowerAccumulator` and `NvidiaGrouper` turn samples into
  windows; `PowerPipeline` carries them through a bounded queue into the journal;
  `PowerJournal` is the crash-safe log as the process runs it. `JournalMachine` is the same
  log one disk operation at a time, with a crash possible between any two;
  `JournalSafety`, `JournalRetention` and `JournalRuns` prove what every operation keeps,
  `JournalRecovery`, `JournalReading` and `JournalAgreement` what recovery and retention
  achieve, `JournalReach` ties the class to the machine, `JournalSurplus` runs it into the
  one bound of recovery that retention does not share. `Replay` is the batch cursor and
  `SnapshotAlias` the slice that published snapshots share.
- **Staged rollout.** `RolloutStore` has the rows and transactions, `RolloutProtocol` lets
  everything else happen between any two statements of the scheduler, `RolloutSafety` and
  `RolloutTheorems` prove the bounds, `RolloutEffects` what each statement achieves,
  `RolloutController` is the code that runs them, and `Dwell` is the health evidence.
- **Release floor.** `ReleaseFloor` is the rule on both sides, `FloorText` the file,
  `FloorAgent` the agent over boots, updates and power losses.
- **Fleet power.** `FleetReading` decides what a reading may be counted as, `FleetPower`
  folds readings into chart cells and reads them back under a cap.

Times are integers in milliseconds and watts are reals. SHA-256 is a constructor of its own,
so it is injective. A write to a temporary file followed by a rename has three outcomes: the
old file, the new file without proof of durability, the new file durably. Returned renames,
unlinks and truncations persist; appended lines that were not synced are lost, torn or kept.
An operation of the journal that a crash cuts short leaves the files as the same operation
does when it fails at that step, so the class's methods cover the crash points that the
machine names one by one.

## Where the code does not meet a stated property

Each has a run or a directory that shows it, and the exact condition where there is one.

- Agreement is lost when the directory fsync of a pending file fails, the next dial
  promotes that file, and a power loss undoes the rename (`UnprovenPendingStrands`). It is
  kept exactly when that fsync succeeds, no crash can undo the rename, or the file was there
  for certain before (`SaveNeedsProof`); `CredentialAgreement` holds over every run in which,
  if power can be lost, this fsync does not fail.
- Agreement needs each re-enrollment to start from a settled one
  (`StagingNeedsSettledAgreement`).
- A refusal caused by a database error can lose agreement (`SpuriousRefusalStrands`): with
  the secret's commit frame still to come, exactly when the refused secret could still be
  promoted (`RefusalNeedsDeadSecret`).
- The hub looks a secret up twice. A promotion between the two lookups makes it refuse the
  secret that has just become active, and the agent's loop then rules that secret out until
  it restarts (`RacedLookupsRefuseTheActiveSecret`, `RacedLookupsStrandTheLoop`). The loop
  gets back in two dials after every run in which no promotion falls between the two lookups
  of a refused dial (`UndisturbedLookupsAreFair`, `ReconnectConverges`); and after one such
  refusal, exactly when the refused secret was not active (`RefusalDecides`).
- The journal's recovery counts files, so with the agent's own bounds it can refuse live
  records that every retention bound allows (`SurplusLosesLiveRecords`). The run needs a wall
  clock that wavers within the tolerated skew while a day's records are written. Reopening is
  complete exactly when the refused files are empty and the rest fits (`ReopenIsComplete`).
- A deleted machine frees its slot, so the rollout's blast radius grows by each deleted
  machine that was sent the build (`DeletionWidensTheRadius`, `BlastRadius`).

## Model

| member | source | states |
|---|---|---|
| CredentialStore.ValidateDecides | hub/agentws.go:2062-2108 | a secret is accepted exactly when it is the active one or a promotable pending one, and an accepted one is the active one afterwards; a refusal changes no active secret |
| CredentialStore.RacedLookupsRefuseTheActiveSecret | hub/agentws.go:2077-2108 | the active and the pending lookup are two statements: a promotion between them makes the hub refuse the secret that has just become active |
| CredentialStore.PromotionHappensOnce | hub/agentws.go:1850-2010 | one staged secret is promoted at most once, a secret other than the one staged last is not promoted, and staging leaves the active secret alone |
| CredentialStore.StagedForFiveMinutes | hub/agentws.go:1850-1928 | staging spends the token, leaves the active secret and the other tokens alone, and can be promoted for five minutes, to the second |
| CredentialStore.FailedSwapChangesLittle | hub/agentws.go:1941-2010 | a failed swap changes nothing, but that it clears a staged secret of the same hash that has expired; another staged secret stays promotable |
| CredentialStore.Store.StageTargetedCredential | hub/agentws.go:1850-1928 | stages the replacement and spends the token exactly when the token is valid and targets this machine; otherwise nothing changes |
| CredentialStore.Store.PromotePendingCredentialCASAt | hub/agentws.go:1941-2010 | promotes exactly a staged hash that is valid by both clock readings; another hash leaves row and tokens as they are, an expired one is cleared and nothing else |
| CredentialStore.Store.ValidateAgentSecret | hub/agentws.go:2077-2108 | four statements with anything of other connections between them: the verdict is that of the databases they find, an accepted secret is active at the end, and left alone they are one atomic judgement |
| CredentialStore.Store.ConsumeTokenAndStoreCredential | hub/agentws.go:1785-1840 | a first enrollment stores its secret exactly when the token is valid and the machine has none |
| CredentialAgent.ConfirmationIsHashBound | agent/credential_handoff.go:179-254 | a confirmation drops the pending file only when it names the hash of the file that stays, and promotes it only when it names the pending one |
| CredentialAgent.ConfirmationTakesEffect | agent/credential_handoff.go:179-254 | a confirmation of the pending hash that goes through leaves that secret alone in the directory, for certain; one of the active hash drops the pending file |
| CredentialAgent.CredentialFiles.DurableRename | agent/durable_rename_other.go:52-69 | the rename shows, and survives a power loss only when the directory fsync succeeded |
| CredentialAgent.CredentialFiles.WriteCredentialFileAtomic | agent/credential_handoff.go:98-146 | temporary file, sync, rename: durable exactly when every step worked, and unchanged unless the rename did |
| CredentialAgent.CredentialFiles.HandleEnrolledFrame | agent/credential_handoff.go:152-170 | the commit frame is sent exactly when every step of the save and the send worked, and then every state a crash may leave has the secret in the pending file; the active file is not touched |
| CredentialAgent.CredentialFiles.HandleEnrollmentConfirmed | agent/credential_handoff.go:222-254 | the hash decides between promoting, dropping and ignoring, and what each leaves; promoting is accepted exactly when it is durable |
| CredentialSafety.StepKeepsInv | hub/agentws.go:903-1310 | every step of agent, hub, links and crashes keeps the protocol's invariant |
| CredentialSafety.CredentialAgreement | agent/credential_handoff.go:11-22 | over every run of re-enrollments that each begin from settled agreement, the hub's active secret is the agent's active or pending one, now and after any crash, through lost and late frames, expiry, dead connections, power losses and database errors that refuse only secrets which can no longer be promoted |
| CredentialSafety.PendingProvenAtEveryDial | agent/credential_handoff.go:152-170 | in every allowed run, a dialed secret the hub could promote is the pending file in every directory a crash may leave |
| CredentialSafety.StepKeepsPromotable | hub/agentws.go:1632-1658 | late frames, refusals, errors and crashes take away nothing that can be promoted: only time and a new staging do |
| CredentialSafety.StagedSecretIsKept | hub/agentws.go:1850-2010 | over every allowed run, until its expiry or a newer staging a staged secret can be promoted or has become the active one |
| CredentialSafety.HandoffCompletes | agent/credential_handoff.go:11-22 | an undisturbed re-enrollment leaves both sides with only the new secret, the agent's file durable and its token gone |
| CredentialSafety.StagingNeedsSettledAgreement | hub/agentws.go:1211-1251 | a re-enrollment keeps agreement through staging and saving exactly when it starts with the hub's active secret in the agent's active file |
| CredentialSafety.SaveNeedsProof | agent/credential_handoff.go:98-170 | from every state of the invariant: save, dial and promotion keep agreement after every crash exactly when the save's directory fsync succeeded, no crash can undo a rename, or the file was there already |
| CredentialLimits.UnprovenPendingStrands | agent/credential_handoff.go:98-146 | a run: the pending rename shows without its directory fsync, the dial promotes it, a power loss undoes it, and the agent holds no secret the hub knows |
| CredentialLimits.SpuriousRefusalStrands | hub/agentws.go:2077-2108 | a run: a refusal caused by a database error makes the agent drop the pending file, a late commit frame then promotes it, and agreement is lost |
| CredentialLimits.RefusalNeedsDeadSecret | hub/agentws.go:951-960 | from every state in which a pending secret is being judged while its commit frame is on its way: after a refusal by a database error, the fall back and the late frame, agreement holds exactly when the secret could no longer be promoted |
| CredentialLimits.RacedLookupsStrandTheLoop | agent/main.go:498-570 | a run: a promotion between the two lookups refuses the secret, and the reconnect loop never tries it again although agreement holds |
| Reconnect.ConnectLoop | agent/main.go:508-570 | the loop's choice of secret, fallback and backoff over any sequence of dial outcomes is the specification's |
| Reconnect.TransportFailureChangesNothing | agent/main.go:444-506 | a transport failure never changes which secret is tried next |
| Reconnect.NoTwoImmediateRetries | agent/main.go:519-570 | an immediate retry is with the active secret, and the attempt after it waits |
| Reconnect.FallsBackAtOnce | agent/main.go:436-506 | a refused pending secret is set aside without a wait for the active one, any other failure waits, and a new pending secret is tried first again |
| Reconnect.ActiveNeedsOneDial | agent/main.go:519-570 | when the active secret is chosen and the hub holds it, the first dial that reaches the hub authenticates |
| Reconnect.TwoDialsSuffice | agent/main.go:444-570 | from a state that has not ruled out the secret the hub holds, at most two dials that reach the hub authenticate |
| Reconnect.RuledOutNeverReturns | agent/main.go:498-506 | a pending secret once ruled out is not tried again, however long the loop runs |
| Reconnect.ConvergesExactlyWhenNotRuledOut | agent/main.go:498-570 | with agreement, the loop converges if and only if the secret the hub holds has not been ruled out |
| CredentialConvergence.StepKeepsRefused | hub/agentws.go:2077-2108 | where 401 is answered only for inactive secrets, no step makes a secret active that was refused or that the loop has ruled out |
| CredentialConvergence.ReconnectConverges | agent/main.go:508-570 | at every point of every allowed run in which 401 was answered only for inactive secrets, two dials that reach the hub authenticate the agent |
| CredentialConvergence.UndisturbedLookupsAreFair | hub/agentws.go:2077-2108 | 401 is answered only for inactive secrets when no promotion falls between the two lookups of a refused dial and no lookup of an active secret fails in the database |
| CredentialConvergence.RefusalDecides | hub/agentws.go:2077-2108 | after a refusal at the pending lookup the loop gets back exactly when the refused secret was not the active one |
| JournalTypes.BetweenIsSlice | agent/power_journal.go:498-507 | the two pointers of the retention loop select exactly a segment's records |
| JournalRuns.StepKeepsInv | agent/power_journal.go:22-62 | every single disk operation keeps segments disjoint and ordered, only the last one unfinished, counters in step with files, and every number below the durable reservation |
| JournalRuns.RecordOnDisk | agent/power_journal.go:466-530 | every retained record is in the file of exactly one segment, also after a failed delete or compaction |
| JournalRuns.OneLinePerSeq | agent/power_journal.go:22-43 | no sequence number is on disk twice |
| JournalRuns.SequenceUniqueness | agent/power_journal.go:134-143 | a (stream, number) pair ever published keeps its bucket for ever: over appends, failed writes, torn tails, restarts, crashes and rotations it is neither published nor retained with other contents |
| JournalRuns.LoadFits | agent/power_journal.go:253-315 | what is loaded is consistent with the directory and numbering goes on above the persisted reservation |
| JournalReach.ReachedByRun | agent/power_journal.go:22-43 | a state is reached exactly when a run of disk operations ends in it |
| JournalReach.PublishesAll | agent/power_journal.go:635-644 | publishing adds every retained record and changes nothing published before |
| JournalRecovery.AcceptsAll | agent/power_journal.go:322-352 | the bounded reader takes a whole segment exactly when it ascends, no line is overlong, and record cap and byte budget hold |
| JournalRecovery.AcceptedFits | agent/power_journal.go:322-352 | what the reader takes is always an ascending prefix within the caps |
| JournalRecovery.AcceptsLongest | agent/power_journal.go:358-396 | and it is the longest such prefix: one more line would break a cap or the order |
| JournalRecovery.RefusedAreSurplus | agent/power_journal.go:271-279 | nothing is refused while there are no more files than the record bound fills, and two; beyond that exactly so many of the newest are read |
| JournalRecovery.ReopenIsComplete | agent/power_journal.go:253-315 | recovery returns every line of the directory exactly when the files refused as surplus are empty and the rest fits the byte cap |
| JournalRecovery.CrashRecovery | agent/power_journal.go:250-315 | after a crash between any two operations the directory holds, ascending, every retained record and otherwise only confirmed lines and at most one unconfirmed line, numbered next |
| JournalSurplus.SurplusLosesLiveRecords | agent/power_journal.go:271-279 | a run with the agent's own bounds: the journal has settled with every record live, on disk and within count, age and bytes, and reopening after a crash refuses one of them |
| JournalAgreement.SettledAgrees | agent/power_journal.go:460-563 | with nothing left to reconcile, the files of the segments hold exactly the retained records, and the byte count is theirs |
| JournalAgreement.KeepsNewest | agent/power_journal.go:466-490 | retention by age and count keeps exactly as many live records as there are, up to the bound, and each one it drops is older than all it keeps |
| JournalAgreement.NewestStays | agent/power_journal.go:409-458 | where the byte cap holds a segment of the longest lines, the record appended last is kept if it is live |
| PowerJournal.PowerJournal.constructor | agent/power_journal.go:115-130 | an empty directory starts a run |
| PowerJournal.PowerJournal.WriteState | agent/power_journal.go:398-405 | cursor and reservation change in memory only when they are durable |
| PowerJournal.PowerJournal.EnsureOpen | agent/power_journal.go:358-396 | success leaves an open segment with room; a segment is registered only once its file is durable; no line is touched |
| PowerJournal.PowerJournal.WriteLine | agent/power_journal.go:441-456 | the record becomes retained exactly when its line was synced; at most this line reaches the disk |
| PowerJournal.PowerJournal.Expire | agent/power_journal.go:466-490 | the live records, up to the bound and the newest of them: every live one dropped is older than every one kept |
| PowerJournal.PowerJournal.CompactSegment | agent/power_journal.go:576-595 | a segment becomes exactly its retained records, or the journal refuses appends and the counters stay |
| PowerJournal.PowerJournal.Locate | agent/power_journal.go:498-507 | start and end of a segment's records, and that later segments are still ahead |
| PowerJournal.PowerJournal.Reconcile | agent/power_journal.go:491-531 | success leaves every segment holding exactly what is retained of it; the first failure stops the deleting and compacting |
| PowerJournal.PowerJournal.TrimBytes | agent/power_journal.go:533-550 | whole oldest segments go until the bytes fit, and no more than that |
| PowerJournal.PowerJournal.Enforce | agent/power_journal.go:466-563 | on success the disk holds exactly the retained records, all live and within count and bytes; what is dropped is older than what is kept, and if the bytes fit only age and count decide; it succeeds unless the disk fails, and a failure makes appends refuse |
| PowerJournal.PowerJournal.RotateStream | agent/power_journal.go:189-226 | a fresh identity with nothing in it, or the old one unchanged |
| PowerJournal.PowerJournal.RemoveOrphans | agent/power_journal.go:228-248 | removes only other streams' files |
| PowerJournal.PowerJournal.Append | agent/power_journal.go:409-458 | the next number below a persisted reservation, one new line at most, then retention; it succeeds unless the disk fails or the line is too long, and then a live record is among the retained |
| PowerJournal.PowerJournal.Ack | agent/power_journal.go:597-614 | the cursor moves forward only, for the matching stream, never past the last durable number, and is durable when it moved; the four refusals are told apart |
| PowerJournal.PowerJournal.Snapshot | agent/power_journal.go:635-644 | the published view is the retained records, and earlier publications are untouched |
| PowerJournal.PowerJournal.ReadSegment | agent/power_journal.go:317-352 | the number of lines taken, their bytes, and whether the file was clean |
| PowerJournal.PowerJournal.Cut | agent/power_journal.go:291-303 | a segment that is not clean keeps what was read of it, and everything behind it goes |
| PowerJournal.PowerJournal.ReadSegments | agent/power_journal.go:280-303 | segments are read in order up to the first that is not clean |
| PowerJournal.PowerJournal.DropEmpty | agent/power_journal.go:304-313 | segments without records go, the others stay in order |
| PowerJournal.PowerJournal.Recover | agent/power_journal.go:250-315 | what is loaded is what the specification of recovery says of the directory found |
| PowerJournal.PowerJournal.Open | agent/power_journal.go:115-148 | an identity found on disk goes on above its reservation with what its directory held, the bounds enforced |
| PowerJournal.CrashAndReopen | agent/power_journal.go:22-62 | a crash anywhere and a reopening: when the directory fits the caps, every retained record is there again, with at most the one line that was being written besides |
| JournalReach.CompactAddsNothing | agent/power_journal.go:576-595 | a compaction writes only lines of the file it replaces |
| Replay.PendingBatch | agent/power_journal.go:646-703 | the batch is the halved longest contiguous front of the replayable records, or none |
| Replay.RunLength | agent/power_journal.go:666-675 | the longest contiguous front within the count |
| Replay.Halve | agent/power_journal.go:684-702 | the halving loop ends |
| Replay.HalvedFacts | agent/power_journal.go:684-702 | the result fits or is a single record, and each larger size on the way did not fit |
| Replay.BatchCovers | agent/power_journal.go:646-703 | a batch covers the numbers above the cursor through its acknowledgement without a hole, each delivered record live and under its own number, within count and size |
| Replay.NothingLiveIsDeclaredLost | agent/power_journal.go:646-655 | no live unacknowledged record lies below the retained-from number, exactly when the count bound is positive or nothing is pending |
| Replay.NothingToSend | agent/power_journal.go:676-683 | there is no batch exactly when every number is acknowledged |
| Replay.Drain | agent/power_journal.go:646-703 | with a hub that acknowledges, every number is delivered or declared lost exactly once, whatever the clock does, in at most as many rounds as numbers; a lost record was found not live in some round |
| Replay.DrainsExactlyTheLive | agent/power_journal.go:646-703 | with the clock standing still, what is delivered is exactly the live unacknowledged records in order |
| SnapshotAlias.RecordSlice.Append | agent/power_journal.go:456-456 | appending in place leaves every published window as it was |
| SnapshotAlias.RecordSlice.Expire | agent/power_journal.go:476-486 | the age filter goes to a fresh array, so no published window changes |
| SnapshotAlias.RecordSlice.DropFront | agent/power_journal.go:487-489 | re-slicing from the front leaves published windows alone |
| SnapshotAlias.RecordSlice.Compact | agent/power_journal.go:552-556 | the capacity copy keeps the records and the published windows |
| SnapshotAlias.RecordSlice.Rotate | agent/power_journal.go:218-223 | a rotation starts with no records and leaves published windows alone |
| SnapshotAlias.RecordSlice.Snapshot | agent/power_journal.go:635-644 | the published window shows the present records |
| SnapshotAlias.PublishThenChange | agent/power_journal.go:623-644 | after any sequence of appends, expiries, re-slicings, copies and rotations a published window shows the same records |
| GpuWindow.StatsAreTrue | agent/power_history.go:94-120 | mean, peak and count of the samples; the mean never exceeds the peak, so the clamp never acts |
| GpuWindow.TotalFollows | agent/power_history.go:327-330 | the total accumulates the first expected sums and no more |
| GpuWindow.TotalIsTruthful | agent/power_history.go:148-171 | when a window has a total, every complete tick had exactly the listed sensors, and the total is that of the complete ticks in which all had a value |
| GpuSensors.SensorsAreTrue | agent/power_history.go:293-331 | over any ticks each sensor with a place shows its own first values and no others, sensors go without only when all places are taken, and the window knows whether it holds anything |
| GpuSensors.TotalAppears | agent/power_history.go:241-331 | where all complete ticks had the same sensors, no tick had others, and in one each had a value, there is a total |
| PowerAccumulator.DomainIsPure | agent/power_history.go:122-146 | a domain is unmixed exactly when all its samples came from one backend |
| PowerAccumulator.EmittedTotalIsTruthful | agent/power_history.go:241-289 | a bucket's GPU total: same sensors in every complete tick, one to expected samples, true mean and peak |
| PowerAccumulator.EmittedSensorsAreTrue | agent/power_history.go:241-289 | each sensor of a bucket shows the statistics of its own values in the window, and up to the bound every sensor seen is there |
| PowerAccumulator.ComesOutIfWorth | agent/power_history.go:241-289 | a window comes out exactly when a placed sensor had a value or a domain was sampled, and there is a sensor or a domain of one backend to show |
| PowerAccumulator.EmittedDomainIsPure | agent/power_history.go:258-281 | a domain in a bucket has one backend, one to expected samples, a true mean below its peak |
| PowerAccumulator.PowerAccumulator.Roll | agent/power_history.go:209-289 | a window stays as it is until it has elapsed or the wall clock steps; an elapsed one that is worth it comes out whole as one bucket, and the next is tiled onto it, or anchored anew after a suspend or a step |
| PowerAccumulator.PowerAccumulator.Emit | agent/power_history.go:241-289 | exactly one bucket with the window's bounds if the window is worth it, flagged if a gap was pending; otherwise a gap is pending |
| PowerAccumulator.PowerAccumulator.TakeTick | agent/power_history.go:293-331 | one pass over the readings is the specification's tick |
| PowerAccumulator.PowerAccumulator.AddGPUAt | agent/power_history.go:291-331 | rolls as above, then the window has seen one more tick and nothing else |
| PowerAccumulator.PowerAccumulator.AddDomainAt | agent/power_history.go:333-370 | rolls as above, then the window has seen one more sample of that domain and nothing else |
| PowerAccumulator.PowerAccumulator.TickAt | agent/power_history.go:372-380 | drains exactly the buckets not drained before, in order |
| NvidiaGrouper.NvidiaTickGrouper.Push | agent/power_nvidia.go:221-252 | every line but a repeated sensor goes into exactly one tick, in order; a group stays open until it is as long as advertised, or a line does not go on with it, or repeats a sensor |
| NvidiaGrouper.NvidiaTickGrouper.Flush | agent/power_nvidia.go:254-263 | the open group goes out, complete exactly when it is as long as advertised |
| NvidiaGrouper.CompleteTickIsWhole | agent/power_nvidia.go:204-210 | a complete tick has the advertised number of distinct sensors |
| NvidiaGrouper.PushIteration | agent/power_nvidia.go:204-252 | the lines of one sampling iteration come out as exactly one tick, complete and in order |
| PowerPipeline.PowerHistory.WindowTick | agent/power_history.go:575-603 | as many of the completed windows as there is room for are queued, in order; if not all, the drop is declared on the next |
| PowerPipeline.PowerHistory.Enqueue | agent/power_history.go:590-603 | the window is queued as it is, flagged after a drop; a full queue drops it and notes that |
| PowerPipeline.PowerHistory.TakeOne | agent/power_history.go:606-616 | the worker takes the front of the queue and nothing else, and stores it, flagged after a failed write |
| PowerPipeline.PowerHistory.AppendBucket | agent/power_history.go:636-654 | if the disk works the bucket is retained under the last number and published; a failed write flags the next one; the joints on disk stay declared |
| PowerPipeline.PowerHistory.RetentionTick | agent/power_history.go:617-624 | if the disk works the bounds hold afterwards; only older records went; the joints stay as they are |
| PowerPipeline.PowerHistory.ApplyAck | agent/power_history.go:656-665 | if the disk works the cursor moves to the acknowledgement or stays beyond it; one of another stream or beyond the last number moves nothing |
| PowerPipeline.PowerHistory.Boot | agent/power_history.go:508-573 | a new process on the same directory starts with a declared gap |
| PowerPipeline.PowerHistory.Crash | agent/power_history.go:606-634 | a crash leaves the joints on disk declared |
| PowerPipeline.PowerHistory.NoSilentGap | agent/power_history.go:207-289 | of two retained records with consecutive numbers, a later one that is not flagged starts where the earlier one ends: through empty windows, clock steps, suspends, drops, failed writes, crashes and restarts |
| PowerPipeline.MailboxLosesNothing | agent/power_history.go:667-682 | keeping only the newest acknowledgement moves the cursor where all of them would have |
| RolloutEffects.ReserveDecides | hub/agent_rollout.go:322-445 | a reservation is made exactly when the platform is not halted and the machine's slot waits for a resend in time and budget, or it has none that counts and the batch has room; the slot then says so, and no other changes |
| RolloutEffects.ExhaustedHalts | hub/agent_rollout.go:380-414 | a waiting slot out of time or of resends fails and halts the platform |
| RolloutEffects.ReserveLeavesDecided | hub/agent_rollout.go:352-372 | offered, observed, healthy and failed slots and halted platforms answer nothing and change nothing |
| RolloutEffects.ReleaseUndoesReserve | hub/agent_rollout.go:447-464 | giving a fresh reservation back leaves every other slot as it was, and the machine can be reserved again |
| RolloutEffects.OfferedIsFinal | hub/agent_rollout.go:498-506 | once marked offered a reservation is neither sent nor given back again |
| RolloutEffects.ObservedHoldsCapacity | hub/agent_rollout.go:480-496 | a report turns a waiting slot into an observed one that still holds capacity |
| RolloutEffects.WithheldStaysEligible | hub/agent_rollout.go:508-539 | a refusal takes no capacity, and the machine is admitted as soon as there is room |
| RolloutEffects.FailureHalts | hub/agent_rollout.go:541-556 | the slot is failed, its generation's platform is halted, and nothing else changes |
| RolloutEffects.TimeoutHalts | hub/agent_rollout.go:833-849 | a tick that finds a slot out of time fails it and halts the platform |
| RolloutEffects.ResumeReopens | hub/agent_rollout.go:1041-1086 | the halt is cleared, every failed slot has its next attempt with a full window, and its machine is sent the build again |
| RolloutEffects.GraceIsGivenOnce | hub/agent_rollout.go:214-231 | after a restart each live attempt has at least five minutes; a second restart gives nothing more |
| RolloutEffects.AdvancesExactlyWhenDone | hub/agent_rollout.go:851-886 | the stage advances by one exactly when the platform is active at it, a slot of it is healthy and none is in flight |
| RolloutSafety.ReserveKeeps | hub/agent_rollout.go:322-445 | a reservation keeps what is in flight or failed within the stage's capacity |
| RolloutSafety.ResumeKeeps | hub/agent_rollout.go:1055-1086 | resuming keeps it too, with no failed slot left |
| RolloutSafety.AdvanceKeeps | hub/agent_rollout.go:851-886 | the stage advances only with nothing of the generation in flight or failed |
| RolloutSafety.StepKeepsInv | hub/agent_rollout.go:12-34 | every statement of the scheduler and everybody else's keeps capacity, stage, attempt bounds and the scheduler's own view |
| RolloutTheorems.CapacityOverRuns | hub/agent_rollout.go:188-193 | at every moment of every run, in flight plus failed is within capacity and of the platform's stage, and an active platform has no failed slot |
| RolloutTheorems.BlastRadius | hub/agent_rollout.go:12-34 | over every run, the machines ever sent the candidate are at most those proven healthy, one batch, and those among them that were deleted; with no deletion and nothing proven, at most one |
| RolloutTheorems.DeletionWidensTheRadius | hub/main.go:870-890 | a run: deleting the canary's machine frees its slot, and a second machine is sent the build with nothing proven |
| RolloutTheorems.StageDiscipline | hub/agent_rollout.go:851-886 | a step never lowers the generation, changes the candidate only with a new one, and advances the stage by one only after a healthy slot of it and with none in flight |
| RolloutTheorems.GenerationsNeverFall | hub/agent_rollout.go:243-289 | over every run generations never fall, and a changed candidate means a later one |
| RolloutTheorems.NothingIsRevived | hub/agent_rollout.go:243-289 | going back to an earlier candidate is a generation of which no slot existed |
| RolloutTheorems.AttemptsAreBounded | hub/agent_rollout.go:380-414 | an attempt is resent at most three times and sent at most four |
| RolloutTheorems.AttemptStep | hub/agent_rollout.go:380-414 | only an operator's resume of a failed slot opens another attempt, numbered one higher |
| RolloutTheorems.DeadlineMovesOnce | hub/agent_rollout.go:214-231 | within one attempt the deadline never moves earlier and moves only with the one restart grace |
| RolloutController.RolloutController.LoadPlatform | hub/agent_rollout.go:251-289 | a changed candidate starts a new generation at stage 0 |
| RolloutController.RolloutController.Reserve | hub/agent_rollout.go:322-445 | one transaction: the slot's state, the attempt's deadline and budget, and the capacity decide |
| RolloutController.RolloutController.ReleaseBeforeSend | hub/agent_rollout.go:447-464 | gives back exactly a slot that is still reserved by this attempt |
| RolloutController.RolloutController.MarkOffered | hub/agent_rollout.go:498-506 | only a slot still reserved by this attempt becomes offered |
| RolloutController.RolloutController.ObserveRunningCandidate | hub/agent_rollout.go:480-496 | a report changes reserved or offered slots only |
| RolloutController.RolloutController.Withhold | hub/agent_rollout.go:508-539 | a refusal never replaces an attempt |
| RolloutController.RolloutController.FailSlot | hub/agent_rollout.go:541-556 | the slot, if there, is failed, the platform of its generation is halted, and nothing else changes |
| RolloutController.RolloutController.Outstanding | hub/agent_rollout.go:796-820 | the live slots of the generation, each once |
| RolloutController.RolloutController.Decide | hub/agent_rollout.go:822-849 | one slot of a tick: promoted when proven, failed and halted when out of time, else left |
| RolloutController.RolloutController.Tick | hub/agent_rollout.go:788-890 | whatever happens between its statements, only slots whose machine's present connection has proven the candidate become healthy, the stage moves by one at most past a finished one, and nobody is sent anything; undisturbed, an overdue slot fails and halts the platform, and without one exactly the proven live slots become healthy and a finished stage advances |
| RolloutController.RolloutController.Advance | hub/agent_rollout.go:851-886 | the one-statement stage advance |
| RolloutController.RolloutController.Resume | hub/agent_rollout.go:1041-1086 | every failed slot of the generation gets a new attempt and the halt is cleared |
| RolloutController.RolloutController.ReconcileAfterRestart | hub/agent_rollout.go:214-231 | each live attempt's one extension, never shortening it |
| RolloutController.RolloutController.DeleteMachine | hub/main.go:870-890 | a machine's slots go with it |
| RolloutController.RolloutController.Announce | hub/agent_versions.go:260-442 | a machine is exposed only after the recheck passed in the reservation's generation; undisturbed, exactly a machine that may be sent the build is, its slot says whether the write returned, and a failed recheck leaves no fresh slot |
| Dwell.DwellIsSound | hub/agent_rollout.go:585-748 | a record suffices exactly when the frames show the candidate reported in this generation, not contradicted since, then metrics without a gap over 45 s, spanning 60 s, the last at most 45 s ago |
| Dwell.AtLeastThreeFrames | hub/agent_rollout.go:40-49 | such a dwell holds at least three metrics frames |
| Dwell.OthersDoNotMatter | hub/agent_rollout.go:139-146 | no event of another connection changes what one connection has shown |
| Dwell.DwellBook.ObserveCandidateReport | hub/agent_rollout.go:585-611 | files the report under its own connection |
| Dwell.DwellBook.ObserveTelemetry | hub/agent_rollout.go:613-652 | files the metrics frame under its own connection |
| Dwell.DwellBook.Register | hub/agentws.go:103-117 | the new connection owns the machine, and the displaced one is named so that it can be closed |
| Dwell.DwellBook.Unregister | hub/agentws.go:126-157 | the machine is left without a connection only by its own; a displaced one takes nothing but its own evidence with it |
| Dwell.DwellBook.ForgetConnection | hub/agent_rollout.go:678-695 | a closed connection leaves no evidence |
| Dwell.DwellBook.ForgetEvidence | hub/agent_rollout.go:466-478 | a deleted machine leaves no evidence |
| Dwell.DwellBook.DwellSatisfied | hub/agent_rollout.go:697-748 | true exactly when the connection that owns the machine now has proven the dwell |
| ReleaseFloor.OrderLaws | agent/release_floor.go:118-155 | the order behind both gates: reflexive, transitive, antisymmetric up to the case of the SHA |
| ReleaseFloor.GatesAgree | agent/release_floor.go:118-155 | a build permitted over a floor that covers the running one also covers it |
| ReleaseFloor.HubMirrorsAgent | hub/release_policy.go:9-35 | for an accurate report the hub withholds exactly when the agent would refuse, for the same reason |
| ReleaseFloor.UnusableFloorIsWithheld | hub/release_policy.go:13-22 | nothing is announced to a report without a usable floor, nor against it |
| ReleaseFloor.AnnouncedExactly | hub/release_policy.go:13-35 | a build is announced exactly to an agent that reports no floor, or a usable one that permits it, while it is still the build that was checked |
| FloorText.ParseReleaseFloor | agent/release_floor.go:171-214 | the loop over lines is the specification's fold, first error included |
| FloorText.ValueOfDecimal | agent/release_floor.go:232-262 | a printed number reads back as itself |
| FloorText.RoundTrip | agent/release_floor.go:226-262 | reading what was written gives the same floor back |
| FloorText.ParsedIsValid | agent/release_floor.go:171-226 | whatever is read as a floor could have been written |
| FloorText.ExactlyTheFloors | agent/release_floor.go:171-214 | a file is a floor exactly when one line gives a good release, one a good SHA, and all others are blank, comments or unknown keys |
| FloorAgent.FloorAgent.WriteReleaseFloor | agent/release_floor.go:228-273 | succeeds exactly for a well-formed floor whose write is durable; otherwise nothing changed or it shows without proof; what is guaranteed only rises |
| FloorAgent.FloorAgent.SeedReleaseFloor | agent/release_floor.go:275-315 | a floor that covers the running binary is kept, a lower or missing one rises to it exactly when the write is durable, and an unnumbered binary or another build of the same release is refused without a change |
| FloorAgent.FloorAgent.Boot | agent/release_floor.go:371-393 | sound exactly when the binary can be read and the floor covers it or was raised to it durably |
| FloorAgent.FloorAgent.CurrentReleaseFloor | agent/release_floor.go:395-420 | usable exactly after a sound boot and while the file covers the running binary |
| FloorAgent.FloorAgent.VerifyCandidateRelease | agent/release_floor.go:444-461 | accepts exactly what the usable floor permits |
| FloorAgent.FloorAgent.RaiseReleaseFloor | agent/release_floor.go:317-334 | succeeds exactly when the candidate is at least the visible floor and the write is durable, also when it was visible already |
| FloorAgent.FloorAgent.CheckStagedRelease | agent/release_floor.go:463-485 | a staged build passes exactly if it may be installed, the marker does not name another release, and the raise is durable |
| FloorAgent.FloorAgent.PerformUpdate | agent/updater.go:164-248 | installs exactly if the bytes are the announced ones, the floor permits them, and raise and swap work; other bytes are refused with the floor untouched; the swap is made under a durable floor equal to the build, wherever the process may die |
| FloorAgent.FloorAgent.RetryAfterCrash | agent/release_floor.go:44-50 | an update cut off after the raise is permitted again after any crash and a reboot of the old binary |
| FloorAgent.Life | agent/release_floor.go:16-76 | over any run of boots, updates, failed fsyncs and power losses nothing guaranteed is lost, and every swap was of the announced build under a durable equal floor |
| FloorAgent.GuaranteeMeans | agent/release_floor.go:16-76 | so the durable release never decreases, and never changes its SHA at the same release |
| FleetReading.MeasuredMeans | hub/fleet_power.go:104-207 | the only ways into the measured column, per domain, and the derived view as the sum of two measured complete components |
| FleetReading.MeasuredExactly | hub/fleet_power_total.go:13-42 | measured exactly: a sampled window of a backend that measures the domain and was not frozen, or both components over the whole window; it shows the mean, or their sum |
| FleetReading.RefusedExactly | hub/fleet_power_total.go:13-42 | counted exactly when the window was sampled and is in range; otherwise absent or unreadable |
| FleetReading.EstimatesStayApart | hub/fleet_power.go:142-174 | estimated exactly for the modelled backend; an unrecognised backend is neither |
| FleetReading.CountedIsValid | hub/fleet_power_total.go:13-42 | what is counted is a valid mean over samples that were taken |
| FleetPower.BinInside | hub/fleet_power.go:545-556 | a window inside the chart lands in the bin that holds the instant before its end |
| FleetPower.Aggregate | hub/fleet_power.go:519-615 | after one pass every cell is the sum of the shares of all records, and exists exactly when some record has one |
| FleetPower.OrderIndependent | hub/fleet_power.go:519-615 | reordering the records changes no cell |
| FleetPower.ChartIsOrderIndependent | hub/fleet_power.go:519-615 | so two passes over the same rows in any order give the same cells |
| FleetPower.MeanSumWithout | hub/fleet_power.go:800-815 | it does not matter in which order a bin's machines are added |
| FleetPower.SteadyMachine | hub/fleet_power.go:519-615 | a machine that draws the same in all its windows of a bin shows just that, however long and many they are |
| FleetPower.CellCounts | hub/fleet_power.go:519-615 | the time behind a cell is that of the machine's counted windows whose end lies in the bin |
| FleetPower.BucketSum | hub/fleet_power.go:800-815 | the sum of the machines' time-weighted means, their number and the time behind them, in whatever order the map gives the cells; none, not zero, when nobody reported |
| FleetPower.ReadCapped | hub/fleet_power.go:906-1003 | exactly the decodable rows of every bin from the reported start on, never more than the cap, and with any further bin there would be more; truncated exactly when there were more rows |
| FleetPower.CappedCellsAgree | hub/fleet_power.go:906-1003 | the cells of every reported bin are those of the full read |
| FleetPower.CappedSumsAgree | hub/fleet_power.go:906-1003 | so every reported bin shows what the full read would |

## Left out

- CredentialAgreement: excludes a second re-enrollment begun before the first is settled, a refusal by database error of a secret that can still be promoted and, with power losses, a pending file whose directory fsync failed, because each of them alone breaks agreement
- CredentialConvergence.ReconnectConverges: the loop dials without an install token, and while it fails no other connection changes the row
- AttemptsAreBounded: counts sends while the slot's row exists; a slot deleted with its machine, or given back before anything was sent, starts over
- first-enrollment races in which a dead connection's commit frame is processed after a newer connection was issued another secret
- the hub row of one machine and the slots of one platform are modelled; other machines and platforms have rows of their own that these statements do not touch
- the read loop around the enrollment frames is part of the protocol's steps, not a method of its own; a reader that is still running for a connection the agent has given up is not modelled
- JournalRuns.SequenceUniqueness: assumes that a randomly drawn stream identity is new
- unlinks that fail while recovery drops segments behind a cut one, or a torn surplus one; a segment file that cannot be opened for reading; a file whose size cannot be read when it is reopened
- state and identity files altered by hand: an identity on disk always has its state file
- PowerJournal.PowerJournal.Append: the encoded size of a record is a number that comes with it, and encoding never fails
- Replay.Drain: the hub's acknowledgement is its documented rule, the end of the batch or the number before the retained-from one; the hub's commit is not part of this model
- PowerPipeline.PowerHistory.NoSilentGap: needs event times that do not run back on the monotonic clock
- Dwell.DwellBook.DwellSatisfied: needs receipt times of one connection that do not run back
- GpuWindow.TotalIsTruthful: needs complete ticks of distinct sensors, which the grouper provides
- RolloutController.RolloutController.Tick: the evidence stays as it is while one tick runs; frames that arrive in between count for the next
- upload cadence, degraded flags, hardware collectors, and the parsing of sampler lines
- the scheduler's wake-ups, operator pause and send claims: the recheck before a send is one answer
- the rollout's display summary and counts
- the fleet view's series totals, sources, skew, silent machines and gap markers, which are further sums over the same records
- FleetPower.ReadCapped: a read without a cap is the fold over all decodable rows
- floor files edited by hand; signatures, downloads and the extraction of release markers, which are taken as given; file modes
- floating-point rounding
- sockets, frames as text, SQL and HTTP
