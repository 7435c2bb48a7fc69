# Verified model of the chat engine's protocols

This project models, in Dafny, the multi-step protocols of a contact-centre backend: the
archiving of closed rooms, reports written in resumable parts, the cooldown that paces
routing and bulk-send progress, bulk sends, the routing of waiting rooms, request ids of
agent messages, metric-goal alerts, and a few smaller kernels. Rows, cache keys and queued
jobs are plain state; each database, cache or storage operation is one step; a crash drops
a worker's local variables and keeps what is committed.

Where the program changes objects step by step, the model is a class whose methods are
proved against functions of the old state. Where several workers interleave, it is a state
machine with one event per atomic operation, and theorems range over all event sequences.
Three state machines (the cooldown, the bulk send and the request ids) also have a class
whose methods are proved to take exactly the machine's steps when nothing interrupts them.

| file | what it models |
|---|---|
| `ArchiveMessages`, `ArchiveRows`, `ArchivePipeline` | one room's archive attempts, with an exception or a crash at any call |
| `ArchiveClaim`, `ArchiveRace` | several workers claiming the same room; several alive on it |
| `PartNames`, `ReportParts`, `ReportAttempts`, `ReportRuns` | part files, resuming from their number, joining; attempts interrupted at any storage call |
| `ReportRetries` | selection, failures and retries of reports and room exports |
| `Cooldown` | lock and pending marker, with the Celery task that uses them |
| `BulkSend` | fan-out, outcome rows and progress of a bulk send |
| `QueueRouting`, `RoomWaiting` | one routing pass; the waiting metric of a room |
| `AgentMessages` | concurrent creations under one request id |
| `MetricGoals` | thresholds, detection and the two alert machines |
| `Base64`, `Wamid` | the core of a WhatsApp message id |
| `WorkingHours`, `Holidays` | the opening rule and the holiday cache |
| `ResponseTimes`, `MessageStatuses` | response-time average; batched status reports |
| `Listings`, `Options`, `Arithmetic` | sorted listings of finite sets; an optional value; rounded-up division |

## What is assumed

- Archive: the room is closed, so its messages do not change (`chats/apps/msgs/models.py:107`),
  primary keys are unique, and page and batch sizes are at least 1. `ArchivePipeline` has one
  live worker at a time on the row, `ArchiveRace` any number. In `ArchivePipeline` a call may
  fail before or after its effect is committed.
- Claims: a re-stamp of the row reaches the database at most `lag` after the clock was read.
- Reports: the rows of a query and the chunk size do not change between attempts, a part is
  written whole or not at all, and a listing of the parts does not fail. Every table needs at
  most 1000000 parts. Interruptions and failing deletes inside the cleanup are part of the
  model; so is a storage that overwrites a taken name and one that renames.
- Cooldown: no crash between setting the marker and scheduling the retry, and a pass ends
  without crashing or raising before its lock is dealt with. That passes do not overlap also
  needs each pass to end within the lock's lifetime.
- Bulk send: every room's job runs once, a progress pass completes, and the number stored in
  `rooms_qty` is the number of rooms listed. A notification that raises on commit is part of
  the model.
- Routing: nothing interferes with a pass. The capacity recheck and the online recheck
  then agree with the query that chose the agent.
- Alerts: at most one violation per project and sweep; the callbacks do not touch the keys.
  A sweep may take time; it ends before the keys of the previous sweep run out.
- Holidays: each lookup, save and delete runs as a whole, and the cache is reachable.
- Reports retried: attempts on one report do not overlap.
- Waiting metric: nothing moves the room between its assignment and its metric.

## Where the code differs from what is said about it

- The claim is called exclusive, but a FAILED row is never active, so two workers can hold
  it at once (`FailedRowIsClaimedTwice`). When it has no file yet they can lose every message
  of the room (`FailedRowLosesMessages`); more exactly, a claim can lose messages if and only
  if the row still has to be exported and another attempt is alive (`ClaimCanLoseIff`). What
  is lost is the row's own record: its file is replaced by an empty one. A storage that
  renames (chats/settings.py, line 241) keeps the full file under its first name, to which no
  row refers any more. A late re-stamp can bring two claims closer than the timeout,
  by at most the lag (`ClaimsAreApart`, `LateRestampIsTight`, `LateRestampFromStart`).
- The maximum reported with an alert is taken over start times, so it is the age of the
  youngest wait in breach (`ReportedMaximumIsTheYoungest`, `TwoWaits`).
- Resuming from the number of parts is wrong after a cleanup that was interrupted between
  two deletes of one table's parts, and after one interruption only then
  (`OneInterruptionIff`, `InterruptedCleanupIsNeverFull`). Whenever a cleanup with failing
  deletes leaves a gap, it is wrong if the storage overwrites, and if it renames unless the
  rows of the parts repeat (`ResumedIsFullIff`, `DistinctPartsNeedNoGap`,
  `RepeatedRowsHideTheGap`).
- A holiday whose range is reversed is found by the query on its first day, but saving it
  drops no cached key (`CreateIsSafeIff`, `ReversedRangeStaysHidden`).
- Crashes do not count as attempts: a report whose attempts all crash is retried for ever
  (`CrashesAreNotCounted`).
- A bulk send can be FINISHED while rooms have no outcome yet, up to half of them: one for
  each raising notification (`EarlyFinishIff`, `FinishedMeansComplete`).
- Binary base64 decoding is not in the repository; the model follows the non-strict decoder
  of the language's standard library, which skips characters outside the alphabet.

## Model

| member | source | states |
|---|---|---|
| ArchiveMessages.IterMessages | chats/apps/archive_chats/services.py:371-411 | for any page size of at least 1 the paging terminates and yields the room's messages in (created_on, pk) order, each exactly once |
| ArchiveMessages.CursorSplitsListing | chats/apps/archive_chats/services.py:385-389 | filtering beyond the key of the k-th message leaves exactly the messages after it, also when its timestamp is shared across the page border |
| ArchiveMessages.NextPageContinues | chats/apps/archive_chats/services.py:376-393 | a page queried at the cursor is the next stretch of the ordered listing |
| ArchiveMessages.PickBatch | chats/apps/archive_chats/services.py:512-524 | a deletion batch is any `size` of the room's messages, or all that are left |
| ArchivePipeline.ArchiveChatsService.ClaimRoomForArchive | chats/apps/archive_chats/services.py:155-253 | a claim stamps and re-points the row unless it is locked or being created by another worker, finished, or actively processed, and changes nothing otherwise; a failed commit may or may not have landed |
| ArchivePipeline.ArchiveChatsService.ProcessMessages | chats/apps/archive_chats/services.py:350-369 | re-stamps and marks the row, only while no message has been deleted |
| ArchivePipeline.ArchiveChatsService.UploadMessagesFile | chats/apps/archive_chats/services.py:413-456 | on success the row holds the file of all original messages in order; called in another status it raises |
| ArchivePipeline.ArchiveChatsService.DeleteRoomMessages | chats/apps/archive_chats/services.py:491-544 | on success no message is left and the row says so; interrupted anywhere, nothing is lost and nothing comes back |
| ArchivePipeline.ArchiveChatsService.RegisterError | chats/apps/archive_chats/models.py:119-136 | appends one error, marks the row FAILED and keeps its file and deletion stamp |
| ArchivePipeline.ArchiveChatsService.ProcessClaimed | chats/apps/archive_chats/services.py:103-138 | the guarded part skips what the row already records, stays safe under any fault, and ends with the room archived when it succeeds |
| ArchivePipeline.ArchiveChatsService.ArchiveRoomHistory | chats/apps/archive_chats/services.py:87-153 | one attempt, for every sequence of faults: safe, monotone, with the exact effect of each outcome; without faults a new or failed row ends archived |
| ArchivePipeline.ArchiveChatsService.CreatePendingRecord | chats/apps/archive_chats/tasks.py:93-130 | a room without a row gets a PENDING one, an unfinished row is re-pointed, a finished one is left alone |
| ArchivePipeline.ArchiveChatsService.Run | chats/apps/archive_chats/services.py:87-153 | in every run of scheduler jobs and attempts with exceptions and crashes anywhere, a missing message implies that the row's file is the full original list in order, and a FINISHED row has the full file and an empty table |
| ArchivePipeline.ArchiveChatsService.RunThenRecover | chats/apps/archive_chats/services.py:87-153 | whatever happened before, one faultless attempt after the timeout archives the room |
| ArchiveClaim.OneRowPerRoom | chats/apps/archive_chats/models.py:109-114 | under every interleaving only the lock holder is past its SELECT and an approved claim still sees the row it was checked on; that a second row is never committed is the unique constraint, as modelled |
| ArchiveClaim.ClaimGoesThrough | chats/apps/archive_chats/services.py:255-289 | an undisturbed claim succeeds if and only if the row is neither finished nor stamped less than the timeout ago |
| ArchiveClaim.CalmRunKeepsSoftLocked | chats/apps/archive_chats/services.py:155-253 | while the row is neither FAILED nor FINISHED, its stamp never falls more than the lag behind any claim |
| ArchiveClaim.ClaimsAreApart | chats/apps/archive_chats/services.py:155-289 | after any history, rows prepared by the scheduler included, claims made while the row is neither FAILED nor FINISHED are at least the timeout apart, less the lag of re-stamps |
| ArchiveClaim.LateRestampIsTight | chats/apps/archive_chats/services.py:350-369 | the lag cannot be dropped: the late re-stamp of a worker that has claimed the row lets two later claims come exactly that close |
| ArchiveClaim.LateRestampFromStart | chats/apps/archive_chats/services.py:350-369 | such a run exists from a room without any row: claims at 0, at the timeout plus the lag, and at twice the timeout |
| ArchiveRace.CarefulRunIsSafe | chats/apps/archive_chats/services.py:87-153 | with any number of workers alive, late or not, if a row that still has to be exported is not claimed while another attempt is alive, no message is lost in any run, failures and crashes included |
| ArchiveRace.ClaimCanLoseIff | chats/apps/archive_chats/services.py:320-338 | from any state such claims can reach, a further claim can lead to the loss of a message if and only if the row still has to be exported and another attempt is alive |
| ArchiveRace.NewRowLosesNothing | chats/apps/archive_chats/services.py:255-289 | from a new row with all messages in the table and nobody at work, such claims lead to no other states than those, and no message is lost |
| ArchiveRace.CarelessClaimLoses | chats/apps/archive_chats/services.py:413-456 | after such a claim, the attempts alive, with no further claim, can end with an empty table and an empty file |
| ArchiveRace.OrderlyRunIsSafe | chats/apps/archive_chats/services.py:255-289 | the soft lock makes claims careful when attempts end within the timeout and a FAILED row is not claimed while another attempt is alive |
| ArchiveRace.FailedRowLosesMessages | chats/apps/archive_chats/services.py:276-280 | from every FAILED row without a file, whoever else is alive, two workers can lose every message of the room: one archives it, the other attaches an empty file |
| ArchiveClaim.FailedRowIsClaimedTwice | chats/apps/archive_chats/services.py:276-280 | from any FAILED row there is a run in which two workers claim it at the same instant |
| PartNames.NamesSortNumerically | chats/apps/dashboard/tasks.py:206-217 | below index 1000000 the text order of part names is the order of their numbers, also with the suffixes a renaming storage adds |
| PartNames.NamesPastCapacityMisplaced | chats/apps/dashboard/tasks.py:206-217 | the name of index 1000000 sorts before the name of the index below it |
| PartNames.NamesAreDistinct | chats/apps/dashboard/tasks.py:206-217 | different indexes have different names, with or without padding |
| ReportParts.PartsBelongToOneTable | chats/apps/dashboard/tasks.py:199-203 | the filter by prefix and suffix finds a table's own parts and never the other table's |
| PartNames.SortedNamesAreInOrder | chats/apps/dashboard/tasks.py:191-203 | listing consecutively numbered parts by name lists them by number |
| PartNames.NamesAreSortedIff | chats/apps/dashboard/tasks.py:191-203 | the names of k consecutive parts are sorted if and only if k is at most 1000000 |
| ReportParts.AllPartsJoined | chats/apps/dashboard/tasks.py:220-268 | all parts joined are one header and every row once, in order |
| ReportParts.JoinedRange | chats/apps/dashboard/tasks.py:220-268 | any run of consecutive parts joins to exactly the rows between their offsets, headed only when part 0 is among them |
| ReportParts.ResumedIsFullIff | chats/apps/dashboard/tasks.py:220-268 | from any leftover parts, resuming from their number yields the full report if and only if, when the storage overwrites, they are numbered from 0 without a gap, and, when it renames, every place gets a part with the lines that belong there |
| ReportParts.JoinAligns | chats/apps/dashboard/tasks.py:373-390 | sorted parts join to the full report only if they carry its lines part by part |
| ReportParts.DistinctPartsNeedNoGap | chats/apps/dashboard/tasks.py:220-268 | when no two parts carry the same lines, with either storage the report is full if and only if there was no gap |
| ReportParts.RepeatedRowsHideTheGap | chats/apps/dashboard/tasks.py:206-217 | with four equal parts and a renaming storage, a report resumed from parts 0 and 2 reads as the full one |
| ReportParts.InterruptedCleanupIsNeverFull | chats/apps/dashboard/tasks.py:635-653 | after a cleanup interrupted between two deletes the next report lacks its header and first rows, with either storage |
| ReportParts.InterruptionsDoNotMatter | chats/apps/dashboard/tasks.py:220-268 | an interruption between part writes does not change what the parts are completed to, whatever was left before |
| ReportRuns.ReportWorker.ListExistingParts | chats/apps/dashboard/tasks.py:191-203 | the existing parts of the table, sorted by name |
| ReportRuns.ReportWorker.GetAvailableName | chats/settings.py:241 | the name saved under: the part's own, or one with a suffix behind its number when that is taken and the storage does not overwrite |
| ReportRuns.ReportWorker.WriteChunkToPart | chats/apps/dashboard/tasks.py:206-217 | adds the numbered part with the chunk's rows, or a second one of that number when the storage renames, and touches no other table's file |
| ReportRuns.ListedByNumber | chats/apps/dashboard/tasks.py:191-203 | whatever parts are there, listing them by name lists them by number |
| ReportRuns.ReportWorker.WritePartsFromQueryset | chats/apps/dashboard/tasks.py:220-268 | interrupted anywhere, storage holds the earlier parts and the parts from the resume index on as far as written; uninterrupted, all of them |
| ReportRuns.ReportWorker.StreamPartsToCsvFile | chats/apps/dashboard/tasks.py:373-390 | the file is the parts joined, or the requested header when there are none |
| ReportRuns.ReportWorker.CombinePartsToSheet | chats/apps/dashboard/tasks.py:277-322 | for any parts, blank ones included: the heading, then the rows of all parts in consecutive rows, and nothing when there are no rows; that no row was written over lies in this equality, the count returned adds nothing to it |
| ReportRuns.ReportWorker.ResumeTable | chats/apps/dashboard/tasks.py:672-692 | the missing parts are saved from the number of existing ones on, one call each and as far as the calls go, and the other table is left alone |
| ReportRuns.ReportWorker.CleanupTable | chats/apps/dashboard/tasks.py:635-653 | the parts left, the calls and the failures left over are what deleting by ascending number makes of the interruption and the failing deletes |
| ReportRuns.ReportWorker.CleanupParts | chats/apps/dashboard/tasks.py:635-653 | the same for both tables and their directory |
| ReportRuns.ReportWorker.ProcessReportWithResume | chats/apps/dashboard/tasks.py:656-740 | whether an attempt delivers and which parts it leaves is settled by the parts it finds, the call it is interrupted at and the deletes that fail; what it delivers is the report of one uninterrupted pass if and only if the parts it found rejoin |
| ReportRuns.ReportWorker.RunReport | chats/apps/dashboard/tasks.py:656-740 | a run of attempts, each interrupted before any storage call or not, with any deletes failing, delivers exactly the reports that the parts found first, the interruptions and the failures settle; each is right if and only if the parts its attempt found rejoin, and all are when the first parts rejoin and no cleanup is interrupted or has a delete fail |
| ReportAttempts.CleanWithoutFailures | chats/apps/dashboard/tasks.py:635-653 | with no failing delete, an interrupted cleanup leaves the parts from the first not deleted on, and an uninterrupted one leaves none |
| ReportAttempts.CutShortChangesNothing | chats/apps/dashboard/tasks.py:656-728 | an attempt with too few calls to save what is missing and join it delivers nothing and leaves parts that are completed to the same ones |
| ReportAttempts.CleansUpDelivers | chats/apps/dashboard/tasks.py:728-740 | an attempt with calls enough and no failing delete delivers and leaves no parts |
| ReportAttempts.DeliveriesAreRightIff | chats/apps/dashboard/tasks.py:656-740 | in every run, each delivery is right if and only if the parts its attempt started from rejoin |
| ReportAttempts.UnmarredRunIsRight | chats/apps/dashboard/tasks.py:656-740 | in every run from parts that rejoin, in which every attempt is either cut short before its cleanup or cleans up without a failure, all deliveries are right |
| ReportAttempts.InterruptedRunDelivers | chats/apps/dashboard/tasks.py:656-740 | any number of attempts interrupted before their cleanup and then an uninterrupted one deliver exactly one report, the right one if and only if the first parts rejoin |
| ReportAttempts.AllCutShortIff | chats/apps/dashboard/tasks.py:220-268 | from parts without a gap, all attempts are interrupted before their cleanup exactly when they make no more calls together than there are parts to save |
| ReportAttempts.InterruptedRunIsRight | chats/apps/dashboard/tasks.py:656-740 | from empty storage, however many attempts are interrupted while saving, the next one delivers the report of one uninterrupted pass |
| ReportAttempts.OneInterruptionIff | chats/apps/dashboard/tasks.py:635-653 | after one interruption at any storage call, and no failing delete, the report of the next attempt is right if and only if the interruption did not fall between two deletes of parts of one table |
| ReportRetries.RetriesAreCounted | chats/apps/dashboard/tasks.py:773-814 | in every run the retry count is the number of caught failures and at most 3, the report is given up exactly at 3, and it is ready exactly after its one success |
| ReportRetries.AttemptsAreBounded | chats/apps/dashboard/tasks.py:604-632 | a report is attempted at most three times, plus once for every crash |
| ReportRetries.AttemptBoundIsMet | chats/apps/dashboard/tasks.py:604-632 | for every number of crashes there is a run with exactly three attempts more |
| ReportRetries.FinalReportsRest | chats/apps/dashboard/tasks.py:614-622 | a report that is ready or given up is never selected again |
| ReportRetries.CrashesAreNotCounted | chats/apps/dashboard/tasks.py:614-632 | for every n there is a run with n attempts on one report and a retry count of 0 |
| ReportRetries.ReportStatuses.SelectReport | chats/apps/dashboard/tasks.py:604-632 | takes the oldest eligible report of its kind, stuck ones included, exactly when there is one |
| ReportRetries.ReportStatuses.HandleError | chats/apps/rooms/tasks.py:230-253 | counts the failure and gives the report up at the third |
| ReportRetries.ReportStatuses.ProcessPending | chats/apps/dashboard/tasks.py:817-846 | the periodic job is exactly one legal step of the retry machine, or changes nothing |
| ReportRetries.ReportStatuses.GenerateRoomExport | chats/apps/rooms/tasks.py:281-316 | the direct job runs exactly when the export is pending or failed, refuses other kinds, and raises the error it handled |
| Cooldown.NoLostWakeup | chats/apps/queues/tasks.py:31-72 | when nothing is scheduled, in flight or running, every trigger of every run, rejected or not, has been followed by a complete pass that began after it |
| Cooldown.StepKeepsAwake | chats/apps/queues/tasks.py:75-125 | each step keeps a live marker backed by a retry due no earlier than its expiry, and every trigger answered or still to be |
| Cooldown.StepKeepsMarkerBacked | chats/apps/queues/tasks.py:52-66 | the retry that a live marker stands for is scheduled no earlier than the marker's expiry, or about to be |
| Cooldown.PassesNeverOverlap | chats/apps/queues/tasks.py:43-72 | two passes under one key never overlap in a run whose passes end within the lock's lifetime |
| Cooldown.PassesNeverOverlapFromStart | chats/apps/queues/tasks.py:43-72 | so it is for every such run from free keys |
| Cooldown.OverlongPassOverlaps | chats/apps/queues/tasks.py:68-71 | a longer pass is overlapped by the next due attempt, and then deletes that attempt's lock |
| Cooldown.PacedTask.Execute | chats/apps/msgs/tasks.py:111-148 | an attempt takes the lock exactly when it is free; its effect is the machine's steps: a pass, or the marker and one retry, or nothing |
| BulkSend.QuietSendIsFinished | chats/apps/msgs/usecases/update_bulk_message_send_progress.py:40-73 | for every interleaving of room tasks, rejections and retries, a quiet fanned-out send has a row for every room (one more for each raising notification), a message for each success, and is FINISHED if and only if it has a room |
| BulkSend.FinishedMeansComplete | chats/apps/msgs/usecases/send_bulk_message_to_room.py:64-105 | a FINISHED send lacks at most as many rooms as notifications raised, so none when none raised |
| BulkSend.EarlyFinishIff | chats/apps/msgs/usecases/send_bulk_message_to_room.py:64-105 | some run finishes a send while exactly so many of its rooms have no outcome, if and only if they are at most half of the rooms |
| BulkSend.FinishEarly | chats/apps/msgs/usecases/update_bulk_message_send_progress.py:60-73 | for every number of raising notifications up to half the rooms there is a run that finishes with exactly as many rooms untried |
| BulkSend.RunKeepsConsistent | chats/apps/msgs/tasks.py:61-148 | every step keeps the accounting, and what each progress pass has read true of the send |
| BulkSend.BulkMessageSend.ProcessBulkMessageSend | chats/apps/msgs/tasks.py:61-90 | marks the send and dispatches exactly one task per room |
| BulkSend.BulkMessageSend.SendToRoom | chats/apps/msgs/usecases/send_bulk_message_to_room.py:37-105 | the four ways a room's task ends are exactly the machine's steps, the second row after a raising notification included |
| BulkSend.BulkMessageSend.UpdateProgress | chats/apps/msgs/usecases/update_bulk_message_send_progress.py:26-73 | a pass finishes the send exactly when the counted rows reach a positive number of rooms |
| QueueRouting.QueueRouter.GetRoomsToRoute | chats/apps/queues/services.py:36-46 | the waiting rooms, each once, oldest queue date first |
| QueueRouting.QueueRouter.GetAvailableAgent | chats/apps/queues/models.py:157-297 | an online agent below the limit with the least load, which the general option counts with the rooms ended today; ties by the separate count of rooms closed today when enabled; none exactly when there is no such agent |
| QueueRouting.QueueRouter.RouteRooms | chats/apps/queues/services.py:48-176 | a pass assigns exactly the smaller of waiting rooms and spare capacity, the oldest ones, keeps all other rooms, takes nobody above the limit, and is balanced |
| QueueRouting.PassIsFifo | chats/apps/queues/services.py:36-46 | no room left waiting is older than a room the pass assigned |
| QueueRouting.NoAssignmentPlacesMore | chats/apps/queues/models.py:157-221 | no other assignment of waiting rooms to online agents within the limits places more rooms |
| QueueRouting.OneMoreKeepsBalance | chats/apps/queues/models.py:263-297 | giving a room to a least-loaded agent keeps receivers at most one room ahead of everyone who could still take one |
| QueueRouting.AssignUsesCapacity | chats/apps/queues/models.py:80-85 | each assignment uses up exactly one unit of the total spare capacity |
| RoomWaiting.Room.Save | chats/apps/rooms/models.py:340-358 | the stamps after a save: assignment on every change, first assignment once, queue entry when the agent is removed |
| RoomWaiting.Room.Route | chats/apps/queues/services.py:133-170 | assigns a room without an agent and adds one stint to its metric |
| RoomWaiting.Room.Requeue | chats/apps/rooms/services.py:23-45 | removes the agent and starts a new stint; a room without an agent is left alone |
| RoomWaiting.Room.Live | chats/apps/rooms/models.py:340-358 | over any run the waiting time is the sum of the whole seconds of the queue stints, the count their number, and the first assignment that of the first agent |
| RoomWaiting.StintsAreDisjoint | chats/apps/queues/services.py:167-170 | the stints are disjoint and lie within the life of the room |
| RoomWaiting.WaitingWithinAge | chats/apps/dashboard/utils.py:62-76 | their whole seconds together never exceed the room's age |
| RoomWaiting.FirstAssignedStays | chats/apps/rooms/models.py:348-352 | once set, the time of the first assignment never changes |
| AgentMessages.MessagesAreBounded | chats/apps/msgs/usecases/create_agent_message.py:132-152 | for every interleaving, crashes included, there is at most one message per lifetime of the key, plus one per request that could not reach Redis |
| AgentMessages.EveryoneGetsTheOneMessage | chats/apps/msgs/usecases/create_agent_message.py:49-152 | with Redis up for claims and the key alive, at most one message is committed, every request that returns gives it, and the key is absent only when there is none |
| AgentMessages.LosersNeverCreate | chats/apps/msgs/usecases/create_agent_message.py:110-129 | the phases of a request that lost the claim are closed: it polls, returns, raises or dies, and never creates |
| AgentMessages.CreateAgentMessage.ClaimRequestId | chats/apps/msgs/usecases/create_agent_message.py:49-68 | wins exactly when the key is absent or Redis cannot be reached, and leaves another request's key alone |
| AgentMessages.CreateAgentMessage.ResolveExistingMessage | chats/apps/msgs/usecases/create_agent_message.py:110-129 | the polling loop finds a message exactly when the key holds its id and one of the reads reaches Redis |
| AgentMessages.CreateAgentMessage.Execute | chats/apps/msgs/usecases/create_agent_message.py:132-152 | an uninterrupted request takes the machine's steps and returns its own new message, or the one under the key |
| AgentMessages.ExpiryLetsASecondMessageIn | chats/apps/msgs/usecases/create_agent_message.py:49-68 | an expiry during a creation lets a second message in |
| AgentMessages.MessageBoundIsMet | chats/apps/msgs/usecases/create_agent_message.py:49-68 | for every number of expiries and of requests without Redis there is a run with exactly one message more than both together |
| MetricGoals.PercentThresholdIsExact | chats/apps/dashboard/services/metric_goal_alerts.py:208-214 | under a percent goal the threshold is met if and only if some room is in breach and the breaches make up the percentage |
| MetricGoals.ReportedMaximumIsTheYoungest | chats/apps/dashboard/services/metric_goal_alerts.py:230-301 | the reported maximum is at least the threshold and at most every wait in breach, and the longest exactly when all agree |
| MetricGoals.LongestWaitIsNotReported | chats/apps/dashboard/services/metric_goal_alerts.py:274 | whenever two waits in breach differ in age, the reported maximum falls short of the longer |
| MetricGoals.TwoWaits | chats/apps/dashboard/services/metric_goal_alerts.py:274 | with waits of 100 and 40 seconds over a threshold of 30, 40 is reported |
| MetricGoals.RedisAlerts.ClaimKey | chats/apps/dashboard/services/metric_goal_alerts.py:314-321 | true exactly when the key was not live; the key then lives for the full lifetime either way |
| MetricGoals.RedisAlerts.ClaimViolations | chats/apps/dashboard/services/metric_goal_alerts.py:451-501 | the loop sorts the violations into new ones, updates and toasts by the keys before the sweep, and refreshes every key it meets |
| MetricGoals.RedisAlerts.ProcessViolations | chats/apps/dashboard/services/metric_goal_alerts.py:409-539 | from any keys that last for the sweep, which may take time between its scan and its claims, it reports the transitions against the live keys and leaves exactly the keys of the projects in breach and at threshold |
| MetricGoals.RedisAlerts.RunSweeps | chats/apps/dashboard/services/metric_goal_alerts.py:409-539 | with each sweep over before the keys of the one before run out, both machines report exactly the edges of the history, and alert keys stay a subset of breach keys |
| MetricGoals.TransitionsAreEdges | chats/apps/dashboard/services/metric_goal_alerts.py:451-520 | a project is announced, updated or resolved exactly on entering, staying in or leaving breach, and toasted exactly on reaching the threshold |
| MetricGoals.BroadcastsFollowGrammar | chats/apps/dashboard/services/metric_goal_alerts.py:409-539 | every project's broadcasts read (new update* resolved)*, open exactly while it is in breach |
| Base64.DecodeEncode | chats/apps/msgs/utils.py:70-75 | decoding returns the encoded bytes, for all bytes |
| Base64.DecodeRepadded | chats/apps/msgs/utils.py:70-75 | with any number of '=' behind the letters, filling up the last group makes the decoder return the bytes |
| Wamid.CoreIsFoundIff | chats/apps/msgs/utils.py:83-89 | behind the last occurrence of its marker the core is found if and only if no marker of higher priority occurs with something behind it |
| Wamid.CoreIsExtracted | chats/apps/msgs/utils.py:51-93 | the id of such a payload, with any number of trailing '=', gives the upper-case hex of the core, whatever the envelope |
| Wamid.EnvelopesAgreeIff | chats/apps/msgs/utils.py:51-93 | two ids with different envelopes, markers and padding agree if and only if they carry the same core |
| Wamid.FindLast | chats/apps/msgs/utils.py:83-85 | the last occurrence of a marker, or none when there is none |
| WorkingHours.ValidateDaySchedules | chats/apps/sectors/utils.py:186-232 | lets in exactly the times inside one of the intervals; unreadable text stops a single interval and is passed over among several |
| WorkingHours.ValidateWorkingDay | chats/apps/sectors/utils.py:51-75 | the working-day path decides the common rule |
| WorkingHours.FullValidation | chats/apps/sectors/utils.py:249-278 | the weekend path decides the same rule |
| Holidays.CreateIsSafeIff | chats/apps/sectors/models.py:718-740 | a creation keeps every coherent cache coherent if and only if its range is not reversed, the row is not live, or another row covers its first day |
| Holidays.DeleteIsSafeIff | chats/apps/sectors/models.py:742-750 | under the unique constraint, a soft delete is safe if and only if its range is not reversed, the row was deleted already, or another row covers its first day |
| Holidays.UpdateIsSafeIff | chats/apps/sectors/models.py:718-740 | under the unique constraint, an update is safe if and only if every day the old row answered for and the save does not drop is taken over by another row (the earliest one covering it, which starts before or reads the same), and a reversed new range does not change the answer for its first day |
| Holidays.ReversedRangeStaysHidden | chats/apps/sectors/models.py:718-740 | a reversed range created on a day cached as no holiday stays unseen |
| Holidays.CoveredDaysAreDropped | chats/apps/sectors/models.py:718-736 | the comparison of the two ranges says exactly that the save drops every day the old row answered for |
| Holidays.SaveKeepsCoherent | chats/apps/sectors/models.py:738-740 | a save whose range is not reversed and covers the days the row answered for keeps the cache coherent |
| Holidays.WorkingHoursValidator.GetCachedHoliday | chats/apps/sectors/utils.py:86-122 | a hit returns the entry, a miss the query's answer, and caches it; on a coherent cache both are the fresh answer |
| Holidays.WorkingHoursValidator.InvalidateCache | chats/apps/sectors/models.py:718-736 | drops exactly the keys from the first to the last date of the range |
| Holidays.WorkingHoursValidator.Save | chats/apps/sectors/models.py:672-740 | stores the row unless another live row has its sector and date, and then drops its keys |
| Holidays.WorkingHoursValidator.ValidateWorkingHours | chats/apps/sectors/utils.py:23-84 | on a coherent cache the decision is the common rule applied to the fresh answer, on hit and miss alike |
| Holidays.WorkingHoursValidator.Serve | chats/apps/sectors/utils.py:23-122 | over any run of lookups, creations, covered updates, soft deletes and evictions, every decision is the one made without a cache |
| ResponseTimes.CalculateResponseTime | chats/apps/dashboard/utils.py:17-59 | the loop averages the waits ended by the first agent message after each contact turn or the creation, and count times average fits between the creation and the last of them |
| ResponseTimes.AnswersNextToContact | chats/apps/dashboard/utils.py:37-52 | the loop's flag singles out exactly the agent messages that a contact message separates from all earlier agent messages |
| ResponseTimes.WaitsAreDisjoint | chats/apps/dashboard/utils.py:37-52 | the counted waits are pairwise disjoint |
| ResponseTimes.TotalIsBounded | chats/apps/dashboard/utils.py:46-59 | together they fit between the creation and the last counted answer |
| MessageStatuses.OneByOneRaises | chats/apps/msgs/usecases/UpdateStatusMessageUseCase.py:50-59 | updating one by one raises exactly the flags of the set of reports |
| MessageStatuses.OnlyTheSetMatters | chats/apps/msgs/usecases/UpdateStatusMessageUseCase.py:50-79 | order and duplication of the reports do not matter |
| MessageStatuses.UpdateStatusMessage.ProcessMessage | chats/apps/msgs/usecases/UpdateStatusMessageUseCase.py:61-79 | a report changes a copy of its message by one field, and nothing when it is unknown or its flag is up |
| MessageStatuses.UpdateStatusMessage.BulkCreate | chats/apps/msgs/usecases/UpdateStatusMessageUseCase.py:93-121 | a batch, grouped and written in any order of the groups, raises exactly the flags of its reports and lowers none |
| MessageStatuses.UpdateStatusMessage.Receive | chats/apps/msgs/usecases/UpdateStatusMessageUseCase.py:93-127 | after any run of reports the table is as if all but the last, still queued ones had been written one by one |

## Left out

- HTTP views, serializers, permissions, websockets, e-mail, object storage clients and calls to other services: they carry no state of these protocols.
- CSV, spreadsheet and JSON encoding and the object-relational mapper: rows, files and queries are sequences and sets.
- Feature flags: where they choose between code paths, the path is a parameter or both agree under the assumptions above.
- `finish_stale_bulk_message_sends`: closes old sends whatever their rows say, so it keeps none of the accounting.
- The percentage shown for a bulk send and its rounding.
- `generate_custom_fields_report`: a second path that changes a report's status.
- ArchiveRace.OrderlyRunIsSafe: gives the steps of an attempt in less detail than the pipeline, with one step for each save, one for the two saves around the upload, and none for the deletion stamp.
- A scheduler that re-points a row while an attempt is running: it writes the `job` column only, which no decision reads.
- ReportRuns.ReportWorker.ListExistingParts: does not model a listing that fails, which the code reads as no parts.
- Two report workers on one report after the ten-minute limit.
- The dispatch of archive jobs, their expiry and the choice of rooms by date.
- Exclusion between a sector's routing pass and a queue's: they use different lock keys.
- The room-closing path of the waiting metric, and closing a room: it can count a last stint twice.
- Transfers of rooms by other paths than routing and requeueing.
- The average response time as a floating-point division: the model divides exactly and cuts off.
- The cache of parsed times: parsing is a function of the text.
- The lifetime of cached holidays as a time span: an entry may be dropped at any moment, and a lookup that overlaps a save is not modelled.
- Case folding beyond ASCII in message statuses, and the notifications sent after a batch.
- Callbacks of the alert sweep and the queries that find rooms in breach: detection starts from the start times of the waits.
- Inactivity of rooms and the user caches.
