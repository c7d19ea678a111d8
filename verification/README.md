# Log service: flashback, garbage collection, append, external read, pool, options, blocks

A Dafny model of the hardest parts of the OceanBase log service, and of the connection pool next to
it, with proofs of what they promise. `dafny verify dfyconfig.toml` checks all of it. Nothing here
was executed: the model says what the code does, and the verifier checks what is claimed of the model.

**Tenant flashback** (`FlashbackTrace`, `FlashbackOperator`, `FlashbackService`, `FlashbackConfirm`).
A flashback drives an array of per-stream operators through four stages: leaders to
PREPARE_FLASHBACK, logs in sync, leaders to FLASHBACK, requests and responses. Leaders, replicas, the
location cache and the clock answer arbitrarily, and responses arrive at any time. A ghost trace
records what was answered and sent. The main result is that a request is sent only after every
stream has passed every earlier stage, in order, and under the mode version at which FLASHBACK was
seen (`RunFlashback`).

**Log-stream garbage collection** (`GcState`, `GcHandler`, `GcRecovery`, `GcDeletion`, `GcRounds`).
`GcState` is what GC logs do to the persisted state; `GcHandler` is the handler that does it.
`GcRecovery` interleaves submitter, callback, replay, checkpoint and crash and shows that no GC log is
lost. `GcDeletion` lets several replicas share a status entry and shows that nothing is removed for
a missing entry unless the offline check had passed; each removal carries the look at the table that
led to it. `GcRounds` is the rule that a replica must be reported missing in two rounds running; each
report carries the place in the leader's response that it comes from.

**Log handler** (`LogAppend`, `PalfDoubleRead`, `ConfigChange`). Appending races with offline, online,
stop and role change; two queries read leadership twice around what they report; a retry loop
carries membership changes to the leader. Each module holds the part of the handler it needs.

**External read** (`ExternalSplit`, `ExternalRead`). One read is cut into at most 128 asynchronous reads.
The tasks tile the range and none is empty, every issued read is waited for once, and full reads
make one plain read.

**Connection pool, palf options, block count** (`ConnectionPool`, `PalfOptions`, `BlockAccounting`).
Conservation, no lost update, and a counter against a fresh recount, over all interleavings or
histories.

## What turned out not to hold

Each of these is stated with a failing case and with the exact condition under which the property
does hold.

- Responses to a flashback to another point, under the same stream and mode version, complete this one
  (`OtherPointCompletes`). The stream has completed for the requested point exactly when every listed
  server has answered for it (`CompletedForPointIff`), and so whenever a mode version is used for one
  point only (`OnePointPerVersion`).
- A replica of a living tenant can pass the pre-remove step without being blocked: after a restart
  (`RestartedFollowerRemovedUnblocked`) or after it was brought online again
  (`OnlineAgainRemovedUnblocked`). `PreRemoveBlocksIff` says when it is blocked, by a GC log, by going
  offline or by the step itself.
- After a short read that is not the last one, the size `pread` reports covers bytes that were never
  read (`ShortReadLeavesHole`, `PrefixFilledIff`).
- The interface comment of `pread` promises at least 2 MB per task; the code may hand out less
  (`MinimumSizeNotKept`, `MinimumSizeKeptIff`).
- Undoing a failed acquire counts the used list's size down although the connection was never on it, so
  `wait` may return with connections in use (`WaitReturnsEarlyExample`, `WaitReturnsEarlyIff`,
  `WaitTrustworthyIff`).
- A config update that fails can already have changed compression and rebuild lag. It takes more palf
  instances than the disk limit has room for, which only a reload brings about
  (`ReloadThenHalfInstalled`, `HalfInstallsIff`, `HalfInstallPossibleIff`, `NeverHalfInstalled`).
- Removing a file of another size answers success but leaves the block counter one too high
  (`WrongSizeExample`, `DriftIff`).
- An allocation that leaves a file behind is never finished (`LeftFileBlocksCreation`,
  `CreateEndsIff`).

One comment differs from the code without consequence: that on `start` refuses a concurrency above
128, the code accepts it and cuts it to 128 (`Handler.Start`).

## Model

| member | source | states |
|---|---|---|
| FlashbackTrace.StagesGrow | src/logservice/ob_log_flashback_service.cpp:73-127 | what a stage has shown stays shown, whatever is answered and sent later |
| FlashbackOperator.LSOperator.UpdateLeader | src/logservice/ob_log_flashback_service.cpp:370-379 | the cached leader is replaced, or cleared when none is known |
| FlashbackOperator.LSOperator.GetLeaderPalfStat | src/logservice/ob_log_flashback_service.cpp:381-403 | either the leader's status or a retry; a leader that does not answer is forgotten |
| FlashbackOperator.LSOperator.CheckListLogSync | src/logservice/ob_log_flashback_service.h:176-213 | servers joining the sync list were seen synced in this round; a retry exactly when some listed server was silent, uncommitted or short of the point; the lists are refetched exactly after a silence; the count is that of the short replies; success means the whole list is in sync |
| FlashbackOperator.LSOperator.AskServer | src/logservice/ob_log_flashback_service.h:176-213 | what each reply of a replica, or its absence, means for the check, both ways |
| FlashbackOperator.LSOperator.FlashbackList | src/logservice/ob_log_flashback_service.h:311-336 | exactly the unconfirmed servers are sent a request, with this stream, version and point; success exactly when none is left |
| FlashbackOperator.LSOperator.SwitchChangeMode | src/logservice/ob_log_flashback_service.cpp:463-504 | success means the leader was seen, in this call, in the wanted mode or in FLASHBACK under the recorded version; a retry means it did not answer, or was in neither and was told to change under the version it showed |
| FlashbackOperator.LSOperator.SwitchCheckSync | src/logservice/ob_log_flashback_service.cpp:419-461 | across retries and list refreshes success needs FLASHBACK seen, or, for the lists the leader last reported, every listed server seen synced at some pass, or every member committed but short of the point in this pass; a leader seen in FLASHBACK is never a retry |
| FlashbackOperator.LSOperator.CheckLists | src/logservice/ob_log_flashback_service.cpp:419-461 | passes exactly if no listed server lagged or as many members were short of the point as there are members; on success there is evidence for the lists last reported |
| FlashbackOperator.LSOperator.SwitchExecute | src/logservice/ob_log_flashback_service.cpp:506-531 | success exactly when every member and learner of the frozen lists is confirmed; the lists never change once taken, and every unconfirmed server is asked again |
| FlashbackOperator.LSOperator.SwitchState | src/logservice/ob_log_flashback_service.cpp:419-531 | one step of any operator: success leaves the evidence of its stage, requests come only from execute operators and only to listed servers |
| FlashbackOperator.LSOperator.HandleFlashbackResp | src/logservice/ob_log_flashback_service.cpp:533-550 | a response is taken in as `Confirm` says, and not before the lists are frozen |
| FlashbackService.ConstructSuccessCoversAllIff | src/logservice/ob_log_flashback_service.cpp:290-313 | whatever list it is given: construction that succeeds covers every stream exactly when no id before the last is invalid (-1) |
| FlashbackService.TableIdsAll | src/logservice/ob_log_flashback_service.cpp:290-313 | of what the status table yields, valid ids without repetition, every one gets an operator, and one |
| FlashbackService.StagesReached | src/logservice/ob_log_flashback_service.cpp:73-127 | three stages in sequence, none of which sends a request, meet the first three barriers |
| FlashbackService.RequestsAfterStages | src/logservice/ob_log_flashback_service.cpp:240-288 | the fourth stage adds only requests under versions recorded by the third, and completes with every replica's answer |
| FlashbackService.Service.HandleFlashbackResp | src/logservice/ob_log_flashback_service.cpp:552-570 | the first operator with the response's stream and mode version takes it in as `Confirm` says, no other operator changes, a response for none changes nothing; the code is that operator's |
| FlashbackService.Service.TakeResponses | src/logservice/ob_log_flashback_service.cpp:552-570 | any run of responses leaves each operator with `ConfirmAll` of exactly the responses for its stream and mode version, in order; of operators that share both, only the first |
| FlashbackService.Service.Step | src/logservice/ob_log_flashback_service.cpp:334-368 | any responses followed by one operator step keep every operator's evidence |
| FlashbackService.Service.MotivateOnce | src/logservice/ob_log_flashback_service.cpp:334-368 | a pass succeeds exactly if every operator is valid and succeeded in this pass; a retry or failure in the middle is never hidden |
| FlashbackService.Service.RunStage | src/logservice/ob_log_flashback_service.cpp:148-195 | a stage succeeds straight after its first wholly successful pass, and otherwise ends when its time is up, all passes having failed |
| FlashbackService.Service.Construct | src/logservice/ob_log_flashback_service.cpp:290-313 | one operator per valid id, in order; the code tells only about the last id |
| FlashbackService.Service.Cast | src/logservice/ob_log_flashback_service.cpp:315-332 | each execute operator carries the stream, the point and the mode version of its change-mode operator |
| FlashbackService.Service.GetAndChangeAccessMode | src/logservice/ob_log_flashback_service.cpp:197-238 | success means every stream was seen in the mode under the version recorded for it; no request is sent |
| FlashbackService.Service.WaitAllLogSync | src/logservice/ob_log_flashback_service.cpp:148-195 | success means every stream passed the log-sync check within the stage on the lists its leader last reported; running out of time is OpNotAllow |
| FlashbackService.Service.DoFlashback | src/logservice/ob_log_flashback_service.cpp:240-288 | every request names a stream and the version recorded for it; success means every replica answered under it |
| FlashbackService.Service.ReachFlashback | src/logservice/ob_log_flashback_service.cpp:73-127 | the first three stages send no request and meet the first three barriers |
| FlashbackService.Service.RunLocked | src/logservice/ob_log_flashback_service.cpp:73-127 | the four stages in sequence meet all barriers; the time budget shrinks from stage to stage; the only errors are running out of time and a last id that is invalid |
| FlashbackService.Service.RunFlashback | src/logservice/ob_log_flashback_service.cpp:73-127 | before every request each stream was seen prepared, then passed the log-sync check on the lists its leader last reported, then was seen in FLASHBACK, in this order, and the request's version is one under which FLASHBACK was seen; success means every replica of every stream confirmed; this for all ids of the status table, and for the valid ones of any list; argument, tenant and lock errors send nothing |
| FlashbackConfirm.ConfirmAllExact | src/logservice/ob_log_flashback_service.cpp:533-550 | exactly which servers any sequence of responses confirms |
| FlashbackConfirm.ConfirmOrderFree | src/logservice/ob_log_flashback_service.cpp:533-550 | order and repetition of responses do not matter |
| FlashbackConfirm.ConfirmAllKeepsListed | src/logservice/ob_log_flashback_service.cpp:533-550 | confirmed servers are always listed ones, and what is left to confirm never grows |
| FlashbackConfirm.CompletesIff | src/logservice/ob_log_flashback_service.cpp:506-531 | a stream completes exactly when all members and learners answered and no server is in both lists |
| FlashbackConfirm.CompletesIffAllAnswered | src/logservice/ob_log_flashback_service.cpp:506-531 | with members and learners apart, as palf keeps them, a stream completes exactly when all have answered |
| FlashbackConfirm.ConfirmIgnoresFlashbackPoint | src/logservice/ob_log_flashback_service.cpp:552-570 | responses that name any other flashback point confirm just as well |
| FlashbackConfirm.OtherPointCompletes | src/logservice/ob_log_flashback_service.cpp:552-570 | one member and one valid response that names another point complete the stream |
| FlashbackConfirm.CompletedForPointIff | src/logservice/ob_log_flashback_service.cpp:533-570 | a completed stream has completed for the requested point exactly when every listed server has sent a valid response that names it |
| FlashbackConfirm.OnePointPerVersion | src/logservice/ob_log_flashback_service.cpp:552-570 | that holds whenever all valid responses under the stream and mode version name the requested point |
| GcState.ReplayAdvances | src/logservice/ob_garbage_collector.cpp:1027-1126 | GC logs never move the state back, write the offline point at most once, and only with LS_OFFLINE |
| GcState.ReplayExact | src/logservice/ob_garbage_collector.cpp:588-653 | the state is a function of the log: offline at the scn of the first OFFLINE_LS log, else blocked if there is a block log, else normal |
| GcState.ReplayAgainChangesNothing | src/logservice/ob_garbage_collector.cpp:588-653 | replaying any part of the log again changes nothing |
| GcState.TakenEntriesDoNothing | src/logservice/ob_garbage_collector.cpp:1050-1126 | entries a state has taken in are filtered as duplicates |
| GcState.ReplayConcat | src/logservice/ob_garbage_collector.cpp:588-653 | replay may stop and go on anywhere |
| GcState.ApplyGcByState | src/logservice/ob_garbage_collector.cpp:1050-1126 | which states a block log and an offline log change, and into what |
| GcState.HandleOfflineInTwoSteps | src/logservice/ob_garbage_collector.cpp:1206-1253 | one offline handling is its submission followed by a handling that has nothing to submit |
| GcHandler.PreRemoveBlocksIff | src/logservice/ob_garbage_collector.cpp:429-488 | a replica that passes pre-remove is blocked exactly when nothing had noted a time since the restart, or a GC log or an offline blocked it after it was last brought online |
| GcHandler.BlockedExact | src/storage/ls/ob_ls_tx_service.cpp:819-889 | blocked exactly if a GC log or an offline blocked it and it was not brought online since |
| GcHandler.FirstTimeStays | src/logservice/ob_garbage_collector.cpp:1274-1280 | the block time is the first one noted since the restart, whatever is noted later |
| GcHandler.RestartedFollowerRemovedUnblocked | src/logservice/ob_garbage_collector.cpp:1274-1280 | a restarted follower whose offline handling only noted a time passes pre-remove unblocked |
| GcHandler.OnlineAgainRemovedUnblocked | src/storage/ls/ob_ls_tx_service.cpp:876-889 | a replica blocked by a log and then brought online again passes pre-remove unblocked |
| GcHandler.Handler.BlockLsTransferIn | src/logservice/ob_garbage_collector.cpp:1050-1085 | success exactly for a valid state that is not normal, or if blocking and persisting succeed; it turns normal into blocked and leaves any later state; a first block has blocked the stream |
| GcHandler.Handler.OfflineLs | src/logservice/ob_garbage_collector.cpp:1088-1126 | success exactly for a state already offline, or a valid one whose change is persisted; it then is offline at this scn, and an earlier point stays |
| GcHandler.Handler.UpdateAfterSubmitLog | src/logservice/ob_garbage_collector.cpp:1027-1048 | the recovery scn is lifted only together with a persisted state change |
| GcHandler.Handler.Replay | src/logservice/ob_garbage_collector.cpp:588-653 | a block log in a tenant not known to be primary is held back exactly until the readable scn has passed all decided scns; any other log, and then this one, has its effect persisted and the bound lifted |
| GcHandler.Handler.SubmitLog | src/logservice/ob_garbage_collector.cpp:940-1025 | a committed log's effect is persisted after any number of failed tries; after each of them the recovery scn is the log's and the state untouched |
| GcHandler.Handler.TryCheckAndSetWaitGc | src/logservice/ob_garbage_collector.cpp:790-890 | the verdict to delete the entry is given exactly when the readable scn has reached the offline point, recycling is not delayed, dropping is known, and the tenant is dropping, restored or cloned or the delay has elapsed since the point's time; WAIT_GC follows if it can be persisted |
| GcHandler.Handler.HandleGcLsOffline | src/logservice/ob_garbage_collector.cpp:1206-1253 | the verdict exactly for a leader in WAIT_GC, or one that is or has just gone offline and passes the same check, delay included; the state it leaves; it notes a block time without blocking |
| GcHandler.Handler.ExecutePreRemove | src/logservice/ob_garbage_collector.cpp:429-488 | success exactly for a tenant being dropped, or once a block time is known and read-only transactions are gone or had their time since; blocked exactly as `PreRemoveBlocksIff` says of what happened since the restart |
| GcRecovery.CrashLosesNoGcLog | src/logservice/ob_garbage_collector.cpp:940-1048 | crash at any point of any run, replay from any entry the checkpoint allows: the result is the state of the whole log |
| GcRecovery.RecScnGuardsUnpersistedLog | src/logservice/ob_garbage_collector.cpp:393-405 | from the success callback until its change is persisted the recovery scn is that log's scn |
| GcRecovery.CallbackSeesAssignedScn | src/logservice/ob_garbage_collector.cpp:346-358 | a callback always finds the scn of its own log assigned |
| GcRecovery.GcStateNeverMovesBack | src/logservice/ob_garbage_collector.h:65-75 | along every run, with crashes, the state never decreases and the offline point is written once |
| GcRecovery.OfflinePointIsFirstOfflineLog | src/logservice/ob_garbage_collector.cpp:1088-1126 | the offline point is the scn of the first OFFLINE_LS log taken in |
| GcRecovery.ReplicasAgree | src/logservice/ob_garbage_collector.cpp:588-653 | replicas that took in the same prefix agree, whatever their histories |
| GcRecovery.CheckpointKeepsInv | src/storage/checkpoint/ob_checkpoint_executor.cpp:163-220 | reading the decided scn first and the recovery scn second never lets a checkpoint pass an unreflected GC log |
| GcRecovery.DecidedKeepsInv | src/storage/checkpoint/ob_checkpoint_executor.cpp:163-220 | the first read of a checkpoint leaves only a log guarded by the recovery scn behind it |
| GcRecovery.StepKeepsInv | src/logservice/ob_garbage_collector.cpp:346-405 | every step of every thread keeps the invariant between log, callback, recovery scn, checkpoint and persisted state |
| GcRecovery.RunKeepsInv | src/logservice/ob_garbage_collector.cpp:940-1048 | that invariant holds in every reachable state |
| GcDeletion.Collect | src/logservice/ob_garbage_collector.cpp:1685-1752 | for each kind of candidate exactly which looks at table, schema and migration status make it |
| GcDeletion.RemovalIsJustified | src/logservice/ob_garbage_collector.cpp:1685-1827 | in every run each removal has its look, which showed the table as it was: the tenant dropped and the stream not found; or the stream missing from a readable table, tenant neither dropped nor, for a user tenant, being created, removal allowed. In that case the entry had been deleted, and before that a leader in LS_OFFLINE at point scn had seen the readable scn at scn or beyond and the delay elapsed since scn / 1000 us, or waived |
| GcDeletion.DeletionIsJustified | src/logservice/ob_garbage_collector.cpp:1829-1846 | the same reason stands behind an entry that is gone, and behind every replica in WAIT_GC |
| GcDeletion.FindEvent | src/logservice/ob_garbage_collector.cpp:790-890 | every passed check was passed by a leader in state LS_OFFLINE at that very point, and every removal is that of a candidate, at a state of the run |
| GcDeletion.FindLook | src/logservice/ob_garbage_collector.cpp:1685-1752 | the look behind a candidate was taken at an earlier state of the run and showed the entry as it was there |
| GcDeletion.OfflineKeepsInv | src/logservice/ob_garbage_collector.cpp:1206-1253 | offline handling gives a verdict only with its reason in the history |
| GcDeletion.StepKeepsInv | src/logservice/ob_garbage_collector.cpp:1685-1846 | every step of every replica keeps verdicts, candidates, removals and the missing entry justified |
| GcDeletion.RunKeepsInv | src/logservice/ob_garbage_collector.cpp:1685-1846 | they are justified in every reachable state |
| GcRounds.CandidateIff | src/logservice/ob_garbage_collector.cpp:567-586 | a report in round r makes a candidate exactly when the stream's last report, since its handler exists, came in round r - 1 |
| GcRounds.CandidateOncePerRound | src/logservice/ob_garbage_collector.cpp:567-586 | two reports that make the same stream a candidate are in different rounds |
| GcRounds.StoredSeqIsLastWord | src/logservice/ob_garbage_collector.cpp:567-586 | the stored number is the round of the last report, or -1 |
| GcRounds.CandidatesReportedTwice | src/logservice/ob_garbage_collector.cpp:184-272 | every candidate of a round was reported in the round before and in this one |
| GcRounds.CandidatesDistinct | src/logservice/ob_garbage_collector.cpp:184-272 | however often a stream is reported, and even if recreated in between, it is a candidate at most once per round |
| GcRounds.AfterReports | src/logservice/ob_garbage_collector.cpp:184-272 | every answer that reports a stream leaves its report in the history |
| GcRounds.Collector.CheckInvalidMemberSeq | src/logservice/ob_garbage_collector.cpp:567-586 | for any number: needed exactly one above the stored one, which is replaced, for this stream alone; with the running round's number, exactly when the history makes this report a candidate |
| GcRounds.Collector.HandleAnswer | src/logservice/ob_garbage_collector.cpp:184-272 | a stream is reported exactly when the leader could answer for it, it exists here and this replica is not a valid member; it becomes a candidate exactly when its handler, not new, was last reported in the round before and migration allows removal; an unreadable migration status is the only error |
| GcRounds.Collector.HandleResponse | src/logservice/ob_garbage_collector.cpp:184-272 | the answers handled say what the response's arrays say; exactly the specified candidates of them; mismatched arrays change nothing; success means all were handled, an error that the last one's migration status could not be read; every report among them shows |
| GcRounds.Collector.RunRound | src/logservice/ob_garbage_collector.cpp:1412-1440 | over a round with failed queries and repeated reports: exactly the candidates of what was taken in, distinct, and each reported in this round and the one before, both times by an answer that succeeded and said not a valid member, the second one among this round's responses |
| GcRounds.QueryInBatches | src/logservice/ob_garbage_collector.cpp:132-168 | batches end at every hundredth and at the end, a failed batch is asked again within the next, every stream is asked about |
| LogAppend.LogHandler.TakeOffline | src/logservice/ob_log_handler.cpp:1835-1877 | when the critical section is reached, and what it leaves |
| LogAppend.LogHandler.BringOnline | src/logservice/ob_log_handler.cpp:1893-1922 | when the critical section is reached; it leaves a follower without a proposal id |
| LogAppend.LogHandler.GetRole | src/logservice/ob_log_handler_base.cpp:72-100 | leader is reported exactly when the handler is leader and palf leads under the handler's own id |
| LogAppend.LogHandler.AppendLocked | src/logservice/ob_log_handler.cpp:1460-1555 | palf takes a log exactly from an online, running leader with disk space and window, while leading under the appender's id in a mode that allows appending |
| LogAppend.AppendNeedsOnlineThenLeader | src/logservice/ob_log_handler.cpp:1460-1555 | in every run an append succeeds only after online and then a switch to leader, with no offline since, under palf's current id and in a mode that allows appending |
| LogAppend.NoAppendAfterOffline | src/logservice/ob_log_handler.cpp:1835-1922 | after an offline nothing is appended before a later online followed by a switch to leader, whatever ids were loaded before |
| LogAppend.NoAppendAfterStop | src/logservice/ob_log_handler.cpp:1460-1555 | nothing is appended after a stop |
| LogAppend.LoadedIdIsStillCurrent | src/logservice/ob_log_handler.cpp:1460-1555 | when roles are set in order, an append that succeeds used the handler's own current id although it was loaded before the lock |
| LogAppend.StepKeepsInv | src/logservice/ob_log_handler.cpp:1460-1555 | every step keeps the handler in line with its history and every loaded id one that was held |
| PalfDoubleRead.NoAba | src/logservice/ob_log_handler.cpp:678-708 | two sightings of leadership under one id prove it for all instants between |
| PalfDoubleRead.OneReadIsNotEnough | src/logservice/ob_log_handler.cpp:678-708 | after a single sighting the data read next need not be the leader's |
| PalfDoubleRead.LogHandler.GetRole | src/logservice/palf/palf_handle_impl.cpp:469-516 | palf's piecewise query answers leader only if at one instant within the call palf led under the answered id, and does so while palf leads undisturbed |
| PalfDoubleRead.LogHandler.ReadTwice | src/logservice/ob_log_handler.cpp:678-708 | what was read counts only if palf led under one unchanged id around the read; while palf leads undisturbed it counts unless a call fails |
| PalfDoubleRead.LogHandler.GetLeaderConfigVersion | src/logservice/ob_log_handler.cpp:678-708 | a config version is returned only if read while palf led under one unchanged id; while palf leads undisturbed the only errors are those of the calls |
| PalfDoubleRead.LogHandler.GetMemberGcStat | src/logservice/ob_log_handler.cpp:1557-1613 | a server is called invalid only by lists read while palf led under one unchanged id, and is in neither list; while palf leads undisturbed the only error is a failing call |
| ConfigChange.SafeGrows | src/logservice/ob_log_handler.cpp:1359-1458 | what each further action needs for the run to stay in order |
| ConfigChange.LogHandler.EnsureUnlisted | src/logservice/ob_log_handler.cpp:1391-1402 | a command that adds a server goes on only with that server off the blacklist |
| ConfigChange.LogHandler.AttemptOnce | src/logservice/ob_log_handler.cpp:1404-1448 | one attempt: done exactly on a reply that holds success; only the removed member is blacklisted, straight after refusing as leader, and once |
| ConfigChange.LogHandler.RenewLeader | src/logservice/ob_log_handler.cpp:1449-1454 | renewals of the cached leader are more than half a second apart |
| ConfigChange.LogHandler.SubmitConfigChange | src/logservice/ob_log_handler.cpp:1359-1458 | success exactly when the last action was an attempt answered with success, and no earlier one was; for the four adding kinds no attempt before the blacklist removal; only for the four removing kinds a leader is blacklisted, the removed member, once; any other code is a stop, the timeout, a failed renewal or a final reply, never one after which the loop retries |
| ExternalSplit.CountSquaredBelowTotal | src/logservice/ob_log_external_storage_handler.cpp:33-39 | with the limit of 128 and the 2 MB minimum, (count - 1) squared is below the size |
| ExternalSplit.StoredConcurrency | src/logservice/ob_log_external_storage_handler.cpp:325-332 | the smaller of the wanted concurrency and 128 |
| ExternalSplit.TaskCount | src/logservice/ob_log_external_storage_handler.cpp:265-274 | as many tasks as the concurrency allows and no more than it takes at 2 MB each, at least one |
| ExternalSplit.CarveNoneEmptyIff | src/logservice/ob_log_external_storage_handler.cpp:276-323 | no task is empty exactly when the first n - 1 full ones leave something over |
| ExternalSplit.CarveTotalIff | src/logservice/ob_log_external_storage_handler.cpp:276-323 | how much n tasks of a size hand out |
| ExternalSplit.SplitTiles | src/logservice/ob_log_external_storage_handler.cpp:265-332 | for every size and storable concurrency the tasks are contiguous in file and buffer, sum to the total, and none is empty; there are as many as the concurrency allows but no more than 2 MB each takes, all but the last of one length |
| ExternalSplit.MinimumSizeKeptIff | src/logservice/ob_log_external_storage_handler.cpp:265-323 | every task has at least 2 MB exactly when the last one has |
| ExternalSplit.MinimumSizeNotKept | src/logservice/ob_log_external_storage_handler.cpp:265-274 | 2 MB + 1 byte gives two tasks of about 1 MB |
| ExternalSplit.PrefixFilledIff | src/logservice/ob_log_external_storage_utils.cpp:200-230 | the delivered bytes are the first ones of the buffer exactly when nothing was delivered after a short read |
| ExternalSplit.ShortReadLeavesHole | src/logservice/ob_log_external_storage_utils.cpp:200-230 | a concrete short read for which the reported size covers unread bytes |
| ExternalRead.FirstErrorIsLowest | src/logservice/ob_log_external_storage_utils.cpp:207-226 | the error kept is that of the lowest-index failing read |
| ExternalRead.ReportedBytesAreTheFiles | src/logservice/ob_log_external_storage_handler.cpp:161-218 | if nothing follows a short read the reported bytes are the file's from the offset on |
| ExternalRead.ReadsHold | src/logservice/ob_log_external_storage_handler.cpp:161-218 | full reads make the buffer equal to one plain read |
| ExternalRead.Ctx.Init | src/logservice/ob_log_external_storage_utils.cpp:148-198 | initialised exactly on success, with nothing issued |
| ExternalRead.Ctx.GetItem | src/logservice/ob_log_external_storage_utils.cpp:232-246 | an item exactly for indices below the capacity |
| ExternalRead.Ctx.IncCount | src/logservice/ob_log_external_storage_utils.cpp:289-302 | counts up exactly while below the capacity |
| ExternalRead.Ctx.AsyncPread | src/logservice/ob_log_external_storage_utils.cpp:340-360 | refuses a negative offset and a length that is not positive; issues the read exactly on success |
| ExternalRead.Ctx.Wait | src/logservice/ob_log_external_storage_utils.cpp:200-230 | waits exactly once for every read, whatever fails; first error kept; sizes of the successful ones added up; each delivered part is the file's |
| ExternalRead.Handler.Start | src/logservice/ob_log_external_storage_handler.cpp:81-100 | accepts exactly the non-negative values, storing them cut to the limit; a running handler is left as it is |
| ExternalRead.Handler.IssueAll | src/logservice/ob_log_external_storage_handler.cpp:276-323 | the loop issues a prefix of the tasks and stops only at a failing submission |
| ExternalRead.Handler.ConstructTasks | src/logservice/ob_log_external_storage_handler.cpp:276-323 | success has all tasks in flight; on failure each issued read has been waited for once, and the error is that of opening or submitting |
| ExternalRead.Handler.ReadParallel | src/logservice/ob_log_external_storage_handler.cpp:161-218 | the parallel form of a plain read, with the lowest-index error; if nothing was read, the error of opening or of the first read that could not be submitted |
| ExternalRead.Handler.Pread | src/logservice/ob_log_external_storage_handler.cpp:161-218 | on every path each issued read is waited for once; full reads equal one plain read of min(file size - offset, buffer size) bytes; nothing beyond the buffer size is touched; the code of every early exit |
| ConnectionPool.PoolConserves | src/observer/ob_inner_sql_connection_pool.cpp:282-398 | in every run the lists are duplicate-free and disjoint and the total counts free, used, held and leaked |
| ConnectionPool.TotalIsConserved | src/observer/ob_inner_sql_connection_pool.cpp:282-398 | the total adds up in every reachable state |
| ConnectionPool.TotalIsPeakFromEmpty | src/observer/ob_inner_sql_connection_pool.cpp:282-333 | the total is the largest number ever out of the free list at once |
| ConnectionPool.WaitReturnsEarlyIff | src/observer/ob_inner_sql_connection_pool.cpp:400-425 | `wait` returns with connections in use exactly when the pool is stopped and no more are in use than acquires were undone |
| ConnectionPool.WaitReturnsEarlyExample | src/observer/ob_inner_sql_connection_pool.cpp:282-333 | an undone acquire, a thread past the stop test, a stop, and the thread still gets its connection: `wait` returns with it in use |
| ConnectionPool.WaitTrustworthyIff | src/observer/ob_inner_sql_connection_pool.cpp:400-425 | over continuations without further undone acquires, `wait` can be trusted exactly when none was undone so far, or the pool is stopped with nothing in use, nothing being acquired and no thread between the stop test and the lock |
| ConnectionPool.RemovalsKeepPlaced | src/observer/ob_inner_sql_connection_pool.cpp:380-398 | a connection in use leaves the list with its count; one not yet in use leaves the list as it is and takes the count down |
| ConnectionPool.StepKeepsInv | src/observer/ob_inner_sql_connection_pool.cpp:282-398 | every critical section keeps each connection in one place and the size field off by the undone acquires |
| ConnectionPool.AcquireKeeps | src/observer/ob_inner_sql_connection_pool.cpp:97-137 | a whole acquire keeps conservation; one undone puts the connection back and leaves the size one too low |
| ConnectionPool.RevertKeeps | src/observer/ob_inner_sql_connection_pool.cpp:232-253 | a whole revert keeps conservation, also when destroying fails |
| ConnectionPool.Pool.AllocConn | src/observer/ob_inner_sql_connection_pool.cpp:282-333 | passes the stop test, then hands out the first free connection, or new memory only when none is free |
| ConnectionPool.Pool.FreeConn | src/observer/ob_inner_sql_connection_pool.cpp:335-359 | the connection goes to the end of the free list |
| ConnectionPool.Pool.AddToUsedList | src/observer/ob_inner_sql_connection_pool.cpp:361-378 | the connection goes to the end of the used list |
| ConnectionPool.Pool.Acquire | src/observer/ob_inner_sql_connection_pool.cpp:97-137 | the state a whole acquire leaves; success exactly when allocation and setting up succeed |
| ConnectionPool.Pool.Revert | src/observer/ob_inner_sql_connection_pool.cpp:232-253 | the state a whole revert leaves; a failed destroy loses the connection |
| ConnectionPool.Pool.LookWhileWaiting | src/observer/ob_inner_sql_connection_pool.cpp:400-425 | `wait` ends exactly when the pool is stopped and the used list's size field is not positive |
| PalfOptions.NoLostUpdate | src/logservice/ob_log_service.cpp:559-614 | however updaters interleave, limit, thresholds and cache are those of the last successful update of each, compression and rebuild lag those of the last config update begun |
| PalfOptions.LastUpdatesAreInstalled | src/logservice/ob_log_service.cpp:559-614 | with room for the instances at the start and none reloaded, every interleaving leaves the limit of the last successful limit update and all else of the last successful config update |
| PalfOptions.HalfInstallsIff | src/logservice/palf/palf_env_impl.cpp:925-946 | a config update fails half way exactly when it is valid, brings another compression or rebuild lag, and the limit has no room for the instances |
| PalfOptions.NeverHalfInstalled | src/logservice/palf/palf_env_impl.cpp:1215-1223 | from a state with room no config update is installed half, in any run without a reload |
| PalfOptions.HalfInstallPossibleIff | src/logservice/palf/palf_env_impl.cpp:1424-1435 | a run without a reload to a half installed config update exists exactly when there is no room |
| PalfOptions.ReloadThenHalfInstalled | src/logservice/palf/palf_env_impl.cpp:1064-1108 | two instances reloaded under a limit for one: the next config update is installed half |
| PalfOptions.StepKeepsRoom | src/logservice/palf/palf_env_impl.cpp:1424-1435 | every step but a reload keeps the room: creating asks first and a limit too low is refused |
| PalfOptions.PalfEnv.CreateInstance | src/logservice/palf/palf_env_impl.cpp:1215-1223 | an instance is created exactly if the limit has room for it, and so the room is kept |
| PalfOptions.WithoutLockUpdateIsLost | src/logservice/ob_log_service.h:174-199 | without the lock the limit update of the comment's example is lost |
| PalfOptions.StepKeepsInv | src/logservice/ob_log_service.cpp:559-614 | every step keeps what the lock holder has read current and the options as expected |
| PalfOptions.PalfEnv.UpdateOptions | src/logservice/palf/palf_env_impl.cpp:925-946 | which options are refused, with all bounds; valid ones are installed whole exactly if the limit has 512 MB for every instance, else only compression and rebuild lag |
| PalfOptions.LogService.UpdateLimit | src/logservice/ob_log_service.cpp:598-614 | changes the limit alone, or nothing |
| PalfOptions.LogService.UpdateExceptLimit | src/logservice/ob_log_service.cpp:559-596 | never touches the limit; success installs the whole configuration; failure leaves disk options and cache, and everything if the limit has room for the instances |
| BlockAccounting.ScanBlocks | src/logservice/palf/log_io_utils.cpp:241-292 | succeeds exactly if all names are block names and counts them |
| BlockAccounting.ScanLsDir | src/logservice/ob_server_log_block_mgr.cpp:573-627 | succeeds exactly on directories that hold only `log` and `meta` with block names in them, and counts the set of blocks in both |
| BlockAccounting.ScanTenantDir | src/logservice/ob_server_log_block_mgr.cpp:524-570 | the same for all streams of a tenant, passing over the temporary directory |
| BlockAccounting.ScanLogDisk | src/logservice/ob_server_log_block_mgr.cpp:377-423 | succeeds exactly on a well-formed tree and counts the set of blocks under `sys`, by their place in the tree |
| BlockAccounting.TopPathsExact | src/logservice/ob_server_log_block_mgr.cpp:377-423 | a scan meets exactly the entries at index places sys / stream / log or meta / block |
| BlockAccounting.TopPathsCount | src/logservice/ob_server_log_block_mgr.cpp:377-423 | where no directory lists a name twice it meets each block once |
| BlockAccounting.OwnDiskCount | src/logservice/ob_server_log_block_mgr.cpp:524-627 | whatever tree the service lays out is well-formed, and every block in `log` and in `meta` of every stream is counted |
| BlockAccounting.DriftIff | src/logservice/ob_server_log_block_mgr.cpp:197-227 | after calls that all answered success the counter is right exactly when no file of another size was removed, and never too low |
| BlockAccounting.WrongSizeExample | src/logservice/ob_server_log_block_mgr.cpp:206-208 | one such removal leaves the counter one too high |
| BlockAccounting.BlockMgr.Load | src/logservice/ob_server_log_block_mgr.cpp:262-278 | after a load the counter is the number of files in the tree |
| BlockAccounting.BlockMgr.CreateBlockAt | src/logservice/ob_server_log_block_mgr.cpp:163-195 | over any name and any course of attempts: when the call ends, what file it left, and that a block is counted once its directory is flushed |
| BlockAccounting.CreateEndsIff | src/logservice/ob_server_log_block_mgr.cpp:177-183 | creating ends exactly when the name is free and no attempt left a file before one succeeded |
| BlockAccounting.LeftFileBlocksCreation | src/logservice/ob_server_log_block_mgr.cpp:327-359 | once an attempt has left a file, after any that could not open it, no later attempt succeeds |
| BlockAccounting.AllocateUntilSuccess | src/logservice/ob_server_log_block_mgr.cpp:177-183 | the loop makes at most one file, the one the first attempt that opens it makes |
| BlockAccounting.BlockMgr.RemoveBlockAt | src/logservice/ob_server_log_block_mgr.cpp:197-227 | when the file is gone; a removed block is counted off once flushed; a file of another size is not counted off |
| BlockAccounting.BlockMgr.Recount | src/logservice/ob_server_log_block_mgr.cpp:377-423 | a fresh scan that succeeds finds the counter less what is off |

## Left out

Assumptions about what is outside the model:

- The clock moves on between two passes of a retry loop, so that the timed loops end.
- Palf proposal ids never go back, and a replica that stopped leading leads again only under a larger id.
- Persisting the GC state is one atomic step that succeeds or changes nothing; the definition of `set_gc_state` is not part of this model.
- Palf holds a configuration invalid unless members and learners are all different, so the two lists of a status reply are disjoint; only `CompletesIffAllAnswered` relies on it.
- The transaction service of a stream is running; stopping it, after which no transaction starts, is not modelled.
- Rows of the status table hold valid stream ids, each once, as reading them checks and the table's key demands; only the clause of `RunFlashback` about all ids relies on it.
- Replies that arrive are well formed, and appending to an array succeeds; running out of memory there is not modelled.
- Member lists have no capacity limit; list entries are compared by server address.
- The file behind an external read does not change during the read.
- No directory lists a name twice; only the clauses of the scans that count sets of blocks rely on it.

Contracts that say less than the code does:

- FlashbackService.Service.Cast: the shared operator array is refilled in one step, while in the code a response may meet it half filled.
- LogAppend.LogHandler.AppendLocked: the retry of a blocking append is a step of the transition system; that it ends is not claimed, because it repeats as long as palf asks for it.
- PalfDoubleRead.LogHandler.GetLeaderConfigVersion: the second read's pending flag is not part of the claim, because the code does not look at it.
- ConfigChange.LogHandler.SubmitConfigChange: the server-down test after a failed call is left out, because it looks at a code that was just reset and never holds.

Not modelled:

- RPC, SQL, schema and location services beyond their answers; logging, diagnosis and error injection.
- The blocked-stage handling before offline (`handle_gc_ls_dropping_`), removal of a migrating learner from the learner list, and the safe destroy handler.
- Palf itself beyond the pieces named in the table, including the shrinking phase of its disk options.
- Shared storage, arbitration and transport compression variants of the code.
- The second `acquire` overload and pooled SPI connections: the first differs from the modelled one only in arguments, the second never touches the lists.
- Aliasing of linked-list nodes: the pool's lists are sequences with a separate size field.
- Multi-part upload, tenant creation and log disk resizing, and the remaining getters of the handler: they would only add easy members.
