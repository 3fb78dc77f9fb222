# Verified models of the harness

The harness keeps schedules and runs in a state database, executes them from a queue, serves the owner's
workspace files and chats through a Gateway, and lets an agent reach a small command line under a permission
policy. This project models the parts of it that must hold over every run, and proves that they do. Each model
has the source's own branches, errors and constants.

* **The durable scheduler.** `Occurrences` (due times), `ScheduleStore` (the tables and the `State` object over
  them), `ClaimHistory` (what the stored rows say about past claims), `SchedulerSteps` (one atomic step for each
  synchronous block of `Scheduler`), `SchedulerInvariants` and `SchedulerRuns` (what every step keeps),
  `SchedulerTraces` (what holds along whole runs), `SchedulerScans` and `SchedulerEffects` (what a scan and each other
  step do), `Scheduler` (the object itself, each method equal to its step).
* **The file editor and the writer behind it.** `WorkspaceEditor` (the reducer and the single-flight save loop),
  `EditorProtocol` (the editor, the Gateway's queue of writes and all other Gateway writers of a file, with late,
  lost and reordered replies), `WorkspaceWriter` (one write over a filesystem in which any call may fail).
* **The chat reply.** `ChatStream` (events, and the reader of a stream cut anywhere), `ChatEncoding` (the events
  as message parts), `ChatProjection` (a chat rebuilt from its transcript), `ChatService` (the turns).
* **Single algorithms.** `SkillWalk`, `EditDistance`, `AgentCommand` (POSIX.1-2017 Shell Command Language,
  sections 2.2.1 to 2.2.3 and 2.3), `PropertyLists` and `Permissions`, `WorkspaceTree` and `TreeRows`.

Where the source awaits, a model has a step boundary, and any other step may come between. Runners, clocks, fresh
ids, network replies and filesystem failures are parameters or nondeterministic steps. Three fields of the table
rows are history that no code reads: `since` and `firstDue` of a schedule row (the revision and the due time its
present definition began with) and `claimed` of a run row (the definition it was created from). `known` of the
editor protocol, `writes`, `sent` and `answered` of the editor (what it has sent and had answered) and `aborted` and
`lateCancel` of a turn are history as well.

Six promises turn out not to hold in full. Each is stated with the case that breaks it.

* A workspace write is to leave the tree as it was when it fails. A new root file whose empty placeholder cannot
  be closed stays behind (src/workspace/files.ts:208-209): the outcome `Leaked`, given exactly when the target is a
  new root file within the limits and without a base, the four calls before are granted and the closing fails
  (`WorkspaceWriter.WorkspaceFiles.WriteNow`; `WorkspaceWriter.PlaceholderLeft` at one disk). A write
  that is admitted and of which only the last call fails, the `lstat` after the rename, has taken effect although it is
  reported as an error: the outcome `Uncertain`, which comes of nothing else.
* A turn the owner cancelled is not to finish as failed (src/agent/chat-service.ts:209). A cancel that is taken
  while a failed turn gives its session up answers `cancelled: true`, and the turn still announces `failed`
  (`ChatTurns.LateCancelStillFails`; `ChatTurns.AnnouncedReply` says exactly when).
* The document edits are to reach the permission policy. They do unless the document holds a generated deny as
  the default path rule, which the edits take out after setting it, or a wanted generated deny with more beside
  its action and reason, which they leave (`Permissions.PathEditsMeetThePolicy`, in both directions;
  `Permissions.DeniedDefaultIsLost` and `Permissions.AmendedDenyStays` at such documents).
* The reading of a chat stream does not depend on how it is cut, unless a line or remainder over the limit would
  not be refused for itself once it is complete: `GatewayStream.CutsAgreeIff` gives the exact condition,
  `GatewayStream.LongLineDependsOnTheCut` and `GatewayStream.LongRemainderDependsOnTheCut` the two cases.
* Every reply the Gateway sends is to be read back. The Gateway puts no limit on a line, and the client refuses one
  over 1,000,000 characters (apps/web/src/lib/gateway-stream.ts:10): a reply is read back if and only if no line of
  it is that long (`GatewayStream.SentIsReadBack`).
* A rename answers with the chat's summary, which it looks up among the stored chats: a chat that is replying and not
  stored yet takes the name and is answered as not found (`ChatService.ChatService.Rename`).

## Model

| member | source | states |
|---|---|---|
| `Occurrences.NextIsLeastOccurrence` | src/scheduler/schedule.ts:7-28 | the next due time of any valid trigger is the least occurrence strictly after now, and `at` has none once it is past |
| `Occurrences.NextEveryIsLeast` | src/scheduler/schedule.ts:16-21 | for `every` the arithmetic gives the first point of the grid `anchor + k*every` after now, also before the anchor |
| `Occurrences.RefusedTriggers` | src/scheduler/schedule.ts:7-28 | a trigger is refused exactly when its time does not parse, its interval is under a second or too large, its anchor is negative or too large, or its expression is no cron |
| `Occurrences.CountMissedOccurrences` | src/scheduler/schedule.ts:30-55 | the count, closed form and loop alike, is the number of occurrences missed between the claimed one and now |
| `Occurrences.ClosedFormIsIteration` | src/scheduler/schedule.ts:40-54 | for `every` the closed form equals stepping from occurrence to occurrence as the cron branch does |
| `Occurrences.MissedCountsOccurrences` | src/scheduler/schedule.ts:30-55 | what is counted is exactly the occurrences after the scheduled one and not after now |
| `Occurrences.ClaimAdvancesByMissed` | src/scheduler/scheduler.ts:283-304 | a claim's next due time is `scheduled + (missed + 1) * every` |
| `ScheduleTables.DueListIsUnique` | src/state/database.ts:306-313 | the ordered due query has one answer: the due, enabled, live schedules by due time and then id |
| `StateStore.State.constructor` | src/state/state.ts:55-64 | opening the store interrupts every running row and leaves every other row alone |
| `StateStore.State.Create` | src/state/state.ts:87-99 | a create stores revision 1 or is refused for a taken name, and changes nothing else |
| `StateStore.State.Update` | src/state/state.ts:101-131 | an update lands only on the expected revision, raises it by one, keeps identity, and keeps the stored due time when it names none |
| `StateStore.State.Delete` | src/state/state.ts:137-142 | a delete marks a live row and raises its revision |
| `StateStore.State.Claim` | src/state/state.ts:144-163 | a claim takes the schedule only at the revision and due time it read, and then inserts one running row with that snapshot |
| `StateStore.State.CreateRun` | src/state/state.ts:165-174 | a manual run row holds the schedule's payload, directory and timeout of that moment |
| `StateStore.State.Finish` | src/state/state.ts:222-228 | only a running row is finished; any other is refused and stays |
| `StateStore.State.ListDue` | src/state/state.ts:133-135 | the list returned is the due list of the tables |
| `ClaimHistory.ClaimedOncePerRevision` | src/state/database.ts:322-352 | no two scheduled runs come from one schedule at one revision |
| `ClaimHistory.AtClaimedOnce` | src/scheduler/scheduler.ts:283-304 | an `at` definition is claimed at most once |
| `ClaimHistory.DueTimesAscend` | src/state/database.ts:322-352 | between updates a later claim has a later due time and the reverse, whatever the clock did |
| `ClaimHistory.GridPointCountedOnce` | src/scheduler/scheduler.ts:283-306 | every grid point up to the next due time belongs to exactly one claim, as its own time or as missed |
| `ClaimHistory.ClaimKeepsHistory` | src/state/database.ts:322-352 | a scan's claim keeps the whole history: snapshots, order of claims and the tiling of each grid |
| `ClaimHistory.CreateKeepsHistory` | src/state/database.ts:240-264 | so does a create |
| `ClaimHistory.UpdateKeepsHistory` | src/state/database.ts:266-291 | so does an update, which begins a new grid |
| `ClaimHistory.DeleteKeepsHistory` | src/state/database.ts:315-320 | so does a delete |
| `ClaimHistory.ManualRunKeepsHistory` | src/state/database.ts:354-391 | so does a manual run, which is no claim |
| `ClaimHistory.SettlingKeepsHistory` | src/state/database.ts:393-425 | so do finishing a run and interrupting the running ones |
| `SchedulerInvariants.RecoveryMakesInv` | src/scheduler/scheduler.ts:158-170 | a scheduler over a recovered database starts in the invariant |
| `SchedulerInvariants.PumpKeepsSound` | src/scheduler/scheduler.ts:314-334 | dispatch keeps owned, queued, active and stored work in agreement, loses none, respects the concurrency limit and leaves no free slot while work waits |
| `SchedulerInvariants.ClaimAllKeepsSound` | src/scheduler/scheduler.ts:279-312 | so does the scan's loop of claims, stopped early or not |
| `SchedulerInvariants.InterruptQueuedKeepsSound` | src/scheduler/scheduler.ts:245-266 | a cancelling stop empties the queue, and each run in it is interrupted without executing |
| `SchedulerRuns.StepKeepsInv` | src/scheduler/scheduler.ts:172-425 | every step keeps the invariant (owned ids are the schedules of queued and active work, one each; active within the limit; a row is running exactly while its work is held) and moves rows only forward |
| `SchedulerRuns.StepKeepsWorkConserving` | src/scheduler/scheduler.ts:314-334 | a step from a state in which work waits only while all slots are taken leads to another, unless it is a scan that throws midway |
| `SchedulerTraces.AlwaysWorkConserving` | src/scheduler/scheduler.ts:314-334 | in every state of every run from a recovered database whose scans mint unused ids, work waits only while all slots are taken |
| `SchedulerTraces.DispatchingConserves` | src/scheduler/scheduler.ts:314-334 | after a scan that threw midway it is so again from the next accepted manual run, release, first stop or completed scan on |
| `SchedulerRuns.ScanReachesItsEnd` | src/scheduler/scheduler.ts:279-312 | over validated triggers and unused run ids a scan never throws midway |
| `SchedulerScans.ScanClaimsWhatIsDue` | src/scheduler/scheduler.ts:279-312 | a scan with unused run ids gives every due schedule that nobody owns exactly one new run: of that very definition, for its due time, with the delay and the number of missed occurrences, queued or executing afterwards; the row's revision rises by one and its due time is the least occurrence after now |
| `SchedulerScans.ScanLeavesTheRest` | src/scheduler/scheduler.ts:279-312 | a scan changes no other schedule and creates no other run |
| `SchedulerRuns.EveryReachableState` | src/scheduler/scheduler.ts:141-425 | the invariant holds in every state of every run from a recovered database |
| `SchedulerRuns.RowsOnlyMoveForward` | src/state/database.ts:393-425 | along every run a run row leaves `running` at most once and is never changed after, revisions only rise, and a draining policy interrupts nothing |
| `SchedulerRuns.ExecutesTheClaimedSnapshot` | src/state/database.ts:343-351 | what is queued or executing is the definition its run row was created from, and the row still holds its payload, directory and timeout |
| `SchedulerTraces.NewRunsHoldTheRow` | src/state/database.ts:322-391 | every run a step creates is created from the definition its schedule's row held just before the step |
| `SchedulerTraces.ExecutesWhatTheRowHeld` | src/scheduler/scheduler.ts:336-394 | in every run, what is queued or executing is what its schedule's row held in some earlier state (that revision, payload, directory and timeout), despite later updates and deletes |
| `SchedulerRuns.CompletedOnlyUnaborted` | src/scheduler/scheduler.ts:336-394 | a run becomes completed only at the end of its own unaborted execution with exit code 0 |
| `SchedulerRuns.InterruptedOnlyByCancel` | src/scheduler/scheduler.ts:245-266 | a run becomes interrupted only under a cancelling stop: it was itself queued when that stop came, or is itself the run that ends after the stop aborted it |
| `SchedulerRuns.OutstandingFalls` | src/scheduler/scheduler.ts:245-334 | once stopping, queued plus active work never grows and falls by one with each release |
| `SchedulerRuns.StoppedOwnsNothing` | src/scheduler/scheduler.ts:416-425 | when `stop` has resolved nothing is queued, active or owned, and every run is terminal |
| `SchedulerRuns.CancelInterruptsQueued` | src/scheduler/scheduler.ts:245-266 | under a cancelling stop each queued run is interrupted and never becomes active |
| `SchedulerRuns.StepIsFifo` | src/scheduler/scheduler.ts:103-129 | every step takes a prefix of the queue and adds at its end; outside a cancelling stop all of the prefix is dispatched |
| `SchedulerTraces.QueueOrderStays` | src/scheduler/scheduler.ts:103-129 | along every run, a run queued before another never leaves the queue after it |
| `SchedulerRuns.TerminalNeverActive` | src/scheduler/scheduler.ts:314-394 | a run that is terminal and no longer active is never dispatched again |
| `SchedulerEffects.AddStoresWhatWasSent` | src/scheduler/scheduler.ts:199-204 | an add stores what was sent, under its trimmed name and due at its first occurrence after now, exactly when the input is acceptable and id and name are new, and asks for a scan at once; otherwise nothing changes |
| `SchedulerEffects.UpdateStoresWhatWasSent` | src/scheduler/scheduler.ts:206-216 | so does an update of the live row at the expected revision |
| `SchedulerEffects.RemoveTakesItAway` | src/scheduler/scheduler.ts:218-222 | a removed schedule is not found, not due and not claimable, and everything else stays |
| `SchedulerEffects.RemovedStaysGone` | src/state/database.ts:315-320 | along every run it stays so, and no run of it is created any more |
| `SchedulerEffects.RunNowRunsTheRow` | src/scheduler/scheduler.ts:224-243 | a manual run is taken exactly when the scheduler is not stopping and the schedule is live and not owned, and then adds one unscheduled run of the row as it is to the work |
| `SchedulerEffects.NewlyActiveHasStarted` | src/scheduler/scheduler.ts:314-351 | whatever step puts a run in the active map, it executes, or has failed because its directory or its runner is missing |
| `SchedulerEffects.EndSettlesTheRun` | src/scheduler/scheduler.ts:352-394 | a run completes exactly when it returned 0 unaborted, is interrupted exactly when a cancelling stop aborted it, and fails otherwise, with that exit code and error |
| `SchedulerEffects.TimeOutAborts` | src/scheduler/scheduler.ts:336-343 | a time-out aborts the execution, and the first reason stays |
| `SchedulerEffects.ReleaseFreesTheSlot` | src/scheduler/scheduler.ts:318-331 | a release gives up exactly that run's slot and schedule, and asks for a scan at once |
| `SchedulerEffects.StartScansAtOnce` | src/scheduler/scheduler.ts:172-177 | starting an idle scheduler asks for a scan at once |
| `SchedulerEffects.ScanSetsTheNext` | src/scheduler/scheduler.ts:268-277 | after a scan the next is set for the wake interval |
| `SchedulerEffects.FirstStopStops` | src/scheduler/scheduler.ts:245-266 | the first stop ends the scanning; cancelling, it leaves nothing queued and aborts all that is active; draining, it gives up and aborts nothing |
| `SchedulerEffects.StoppingCreatesNothing` | src/scheduler/scheduler.ts:224-312 | once stopping, no run is created in any continuation |
| `SchedulerEffects.RecoveryEndsTheRunning` | src/state/database.ts:414-425 | recovery interrupts exactly the runs that were running |
| `SchedulerService.FifoQueue.Dequeue` | src/scheduler/scheduler.ts:114-116 | the oldest entry leaves, or none when the queue is empty |
| `SchedulerService.Scheduler.Add` | src/scheduler/scheduler.ts:199-204 | validation and insertion are the model's step, refusals included |
| `SchedulerService.Scheduler.Update` | src/scheduler/scheduler.ts:206-216 | so is an update |
| `SchedulerService.Scheduler.Remove` | src/scheduler/scheduler.ts:218-222 | so is a removal |
| `SchedulerService.Scheduler.RunNow` | src/scheduler/scheduler.ts:224-243 | so is a manual run, refused when stopping, unknown or already owned |
| `SchedulerService.Scheduler.Pump` | src/scheduler/scheduler.ts:314-334 | the dispatch loop is the recursive dispatch of the model |
| `SchedulerService.Scheduler.ScanDue` | src/scheduler/scheduler.ts:279-312 | a scan claims the due list in order and then dispatches |
| `SchedulerService.Scheduler.Ends` | src/scheduler/scheduler.ts:336-394 | an execution's end settles its row by exit code, timeout or abort |
| `SchedulerService.Scheduler.Releases` | src/scheduler/scheduler.ts:318-333 | the callback after it frees slot and ownership, dispatches, and wakes the waiters |
| `SchedulerService.Scheduler.Stop` | src/scheduler/scheduler.ts:179-183 | the first stop drains or cancels; later ones change nothing |
| `WorkspaceEditor.DraftSurvives` | apps/web/src/lib/workspace-editor.ts:54-107 | no external or save action replaces the draft from dirty, saving, error, conflict or missing |
| `WorkspaceEditor.EditTakes` | apps/web/src/lib/workspace-editor.ts:59-63 | an edit is always the draft, and makes text with a base unsaved on that base, also while a save is out |
| `WorkspaceEditor.FailureIsShown` | apps/web/src/lib/workspace-editor.ts:73-78 | a refused or failed save keeps the text and its base and shows what stood in the way |
| `WorkspaceEditor.NewsIsShown` | apps/web/src/lib/workspace-editor.ts:79-94 | a file read from the disk replaces text without changes, is a conflict beside unsaved text of another revision, and waits while a save is out |
| `WorkspaceEditor.LossIsShown` | apps/web/src/lib/workspace-editor.ts:95-98 | a file that is gone or no text is shown as that, with the draft as it was |
| `WorkspaceEditor.ConflictIsSettled` | apps/web/src/lib/workspace-editor.ts:99-105 | keeping mine makes the draft unsaved on the revision shown; keeping the disk or both takes the file shown |
| `FileEditor.FileEditorRefs.RequestSave` | apps/web/src/components/file-editor.tsx:90-111 | while a pass is under way a save sends nothing and changes no text, it only marks that another is wanted and waits; otherwise it sends exactly the unsaved draft on its base revision, or nothing when nothing is unsaved |
| `FileEditor.FileEditorRefs.WriteReplied` | apps/web/src/components/file-editor.tsx:76-88 | a reply answers the one write that is out and never changes the draft: after a success the draft is clean only if it is the text that was written, and a draft edited meanwhile stays unsaved on the new revision |
| `FileEditor.FileEditorRefs.TestLoop` | apps/web/src/components/file-editor.tsx:98-102 | the loop sends once more exactly when a save was asked for meanwhile and text is unsaved, and then sends the draft of that moment |
| `EditorProtocol.StepKeepsInv` | apps/web/src/components/file-editor.tsx:51-111 | every step of editor, queue, other writers and network keeps the protocol's invariant |
| `EditorProtocol.EveryReachableState` | apps/web/src/components/file-editor.tsx:51-111 | so it holds in every state of every run |
| `EditorProtocol.SaveReplacesWhatWasSeen` | src/workspace/files.ts:199-205 | whenever a write of this editor reaches the disk, late ones and ones the page gave up on too, it replaces a version the editor had read, been shown in a conflict or written |
| `EditorProtocol.CleanMeansStored` | apps/web/src/lib/workspace-editor.ts:65-72 | status clean at a revision always means the draft is the content of that revision |
| `EditorProtocol.OneSaveInFlight` | apps/web/src/components/file-editor.tsx:90-111 | in every run a write is sent only when no other is out, and what was sent is at the Gateway or on its way there at most once |
| `EditorProtocol.CommitSeesWhatWasChecked` | src/workspace/files.ts:245-249 | serialized writes commit against the very version their check saw |
| `EditorProtocol.PendingSaveRuns` | apps/web/src/components/file-editor.tsx:97-102 | in every run a save asked for during a write is followed by another round of that pass, which sends whatever is unsaved by then |
| `EditorProtocol.WaiterStaysReady` | apps/web/src/components/file-editor.tsx:90-111 | a save asked for after a pass's last round may go on from the pass's end until it does, and then sends what is unsaved in a pass of its own |
| `EditorProtocol.LastTextIsShown` | apps/web/src/components/file-editor.tsx:51-111 | in every run the editor shows the text of the last edit, unless a first read, a read over text without changes or the owner's choice in a conflict came after it, and then that text |
| `EditorProtocol.NothingIsShownBefore` | apps/web/src/lib/workspace-editor.ts:34-36 | before any of these the editor is empty |
| `EditorProtocol.SaveStores` | apps/web/src/components/file-editor.tsx:76-111 | a save whose base the disk still holds, with nothing between, stores the text and shows it clean |
| `EditorProtocol.KeepMineStores` | apps/web/src/lib/workspace-editor.ts:99-100 | the text kept in a conflict, saved while the disk still holds the file shown, replaces it |
| `WorkspaceWriter.WorkspaceFiles.WriteNow` | src/workspace/files.ts:185-237 | it is written exactly when no call fails and path, content, way, name and base allow it; with a failure at any call, a refused write leaves the tree exactly as it was; a written one changes only the target, whose permission bits stay, and its missing folders; a stale base is always refused; the placeholder stays exactly when its closing fails |
| `WorkspaceWriter.WorkspaceFiles.PathFits` | src/workspace/files.ts:90-104 | a path is short enough exactly when its own bytes and those of the hidden file beside it are within the limit |
| `WorkspaceWriter.PlaceholderLeft` | src/workspace/files.ts:208-209 | the placeholder stays in an empty workspace whose fifth call fails |
| `WorkspaceWriter.WorkspaceFiles.ParentOf` | src/workspace/files.ts:107-127 | the folders made on the way are exactly those that were missing, and it succeeds exactly when no call fails and no name on the way is a link, a file or reserved |
| `WorkspaceWriter.WorkspaceFiles.RemoveMade` | src/workspace/files.ts:226-237 | undoing the folders gives the tree before |
| `WorkspaceWriter.WorkspaceFiles.Replace` | src/workspace/files.ts:210-225 | the hidden file beside the target is renamed over it or taken away |
| `WorkspaceWriter.UnmadeOne` | src/workspace/files.ts:226-237 | the folders made are empty when they are taken away, deepest first |
| `GatewayStream.ParseGatewayChatStream` | apps/web/src/lib/gateway-stream.ts:44-78 | the loop over chunks yields and throws what the chunk-by-chunk specification says |
| `GatewayStream.CuttingDoesNotMatter` | apps/web/src/lib/gateway-stream.ts:62-76 | reading chunks of a steady text is reading the whole text, same events and same error |
| `GatewayStream.CutsAgreeIff` | apps/web/src/lib/gateway-stream.ts:62-76 | all ways of cutting a text give one outcome if and only if it has no newline or every raw line or remainder over the limit that the reading comes to is refused for itself |
| `GatewayStream.SameTextSameOutcome` | apps/web/src/lib/gateway-stream.ts:62-76 | any two ways of cutting agree when no line of the text is too long only by its carriage return and no remainder only by the blanks around it |
| `GatewayStream.ShortLinesAreCalm` | apps/web/src/lib/gateway-stream.ts:10-10 | raw lines within the limit suffice for that |
| `GatewayStream.LongLineDependsOnTheCut` | apps/web/src/lib/gateway-stream.ts:65-68 | a line too long by its carriage return alone passes whole and fails when cut before its newline |
| `GatewayStream.LongRemainderDependsOnTheCut` | apps/web/src/lib/gateway-stream.ts:65-77 | a remainder too long only by the blanks around it passes in one chunk with the line before it and fails in a chunk of its own |
| `GatewayStream.AcceptedIffInOrder` | apps/web/src/lib/gateway-stream.ts:40-78 | a stream is accepted to its end if and only if its events are numbered from 0 with `turn.started` exactly first and `turn.finished` exactly last, and then exactly they are yielded |
| `GatewayStream.TrimSays` | apps/web/src/lib/gateway-stream.ts:76-76 | the remainder is read without the blanks at both ends and nothing else |
| `GatewayStream.SentIsReadBack` | packages/contracts/src/chats.ts:41-48 | a whole reply the Gateway writes, one event a line, is read back as it was, however it is cut, if and only if no line is over the limit; otherwise the events before the first such line are read and that line is refused |
| `ChatEvents.EncodedParsesBack` | apps/web/src/lib/gateway-stream.ts:14-38 | the event check takes back every event the Gateway can write |
| `ChatEvents.ParsesExactly` | apps/web/src/lib/gateway-stream.ts:14-38 | a value is taken for an event if and only if it is an object with every field the Gateway writes for that event, whatever else it holds |
| `ChatEncoding.WriteChatEvents` | apps/web/src/lib/chat-ai-stream.ts:18-78 | the loop writes the parts of the specification and throws only without `turn.finished` |
| `ChatEncoding.WellBracketed` | apps/web/src/lib/chat-ai-stream.ts:29-45 | on every accepted reply text parts open and close in turn under ids never used before, each piece inside its part |
| `ChatEncoding.ContentsKept` | apps/web/src/lib/chat-ai-stream.ts:32-70 | without the brackets the parts are what the events show, in order; a finished call shows the name and arguments last started under its id |
| `ChatEncoding.SummarySays` | apps/web/src/lib/chat-tools.ts:14-20 | a call's summary is the first line of its command, else its path, without blanks around, and never empty |
| `ChatEncoding.ToolDataSays` | apps/web/src/lib/chat-tools.ts:22-25 | a tool part carries that summary |
| `ChatEncoding.OneTerminalLast` | apps/web/src/lib/chat-ai-stream.ts:57-68 | the output ends with one terminal part that carries status and error, and then finish, abort or the error text by the status, and nothing earlier ends it |
| `ChatEncoding.FinishedIffTold` | apps/web/src/lib/chat-ai-stream.ts:77-77 | the writer throws at the end exactly when no `turn.finished` came |
| `ChatProjection.ProjectChat` | src/agent/chat-projection.ts:21-79 | the loop, which changes the last message in place, computes the projection |
| `ChatProjection.ChatIsItsTurns` | src/agent/chat-projection.ts:37-45 | a transcript whose later part begins with a user message projects to the settled earlier part and the later part |
| `ChatProjection.ChatShape` | src/agent/chat-projection.ts:37-78 | roles alternate, a chat ends with a reply, and only the last reply of a running chat is unsettled |
| `ChatProjection.PositionsAreStable` | apps/web/src/lib/chat-history.ts:5-11 | as a transcript grows every message keeps its position and all but the last stay as they are |
| `ChatProjection.EmptyRunningChatMoves` | src/agent/chat-projection.ts:71-73 | the exception: an empty running chat shows a lone reply first |
| `ChatProjection.OneTurn` | src/agent/chat-projection.ts:26-70 | a turn's reply says exactly the text and calls of its entries, text merged, with the status of its last stop, a cancelled failure shown as cancelled, and the last error |
| `ChatProjection.RunningTurn` | src/agent/chat-projection.ts:71-73 | while the turn runs its reply shows the same text and calls and the last error so far, as running |
| `ChatProjection.UserTextIsItsLetters` | src/agent/chat-projection.ts:7-11 | a user message shows the letters of its content and nothing else |
| `ChatProjection.ErrorIsTold` | src/agent/chat-projection.ts:65-69 | the error shown is the message without blanks and paths, or a fixed text |
| `ChatProjection.CallsShowTheirResults` | src/agent/chat-projection.ts:50-54 | the first settled call under an id shows the last result under it, and shows as failed without one; a later call under the same id always shows as failed |
| `ChatProjection.RunningCallsShowTheirResults` | src/agent/chat-projection.ts:50-54 | while the turn runs a call without a result is still calling |
| `ChatTurns.StepKeepsInv` | src/agent/chat-service.ts:115-287 | every step keeps: the map holds exactly the live turns, each turn's events are in order, a cancel has reached its turn |
| `ChatTurns.EveryReachableState` | src/agent/chat-service.ts:115-287 | so it holds in every state of every run |
| `ChatTurns.OneTurnAChat` | src/agent/chat-service.ts:116-120 | no chat has two live turns |
| `ChatTurns.CancelEndsInAbortOrRefusal` | src/agent/chat-service.ts:204-248 | a turn asked to cancel is aborted after its prompt started or its send was refused |
| `ChatTurns.AnnouncedReply` | src/agent/chat-service.ts:208-219 | an announced reply is in order, and is failed exactly when the prompt failed and no cancel came before its outcome |
| `ChatTurns.ReplyIsWhatWasDelivered` | src/agent/chat-service.ts:155-219 | over every run an announced reply is its start, naming the chat it was sent to and the turn, then exactly what the session delivered, in order and unchanged but for the numbers, and then the prompt's own report with its error cleaned, or cancelled when a cancel before it turned a failure |
| `ChatTurns.EachReplyTells` | src/agent/chat-service.ts:155-219 | a reply under way is the start of that |
| `ChatTurns.NothingIsDropped` | src/agent/chat-service.ts:155-219 | a turn takes every delta from its start until it gives its session up, and each of its phases can go on |
| `ChatTurns.LateCancelStillFails` | src/agent/chat-service.ts:213-248 | a cancel taken during the release leaves the announced failure |
| `ChatTurns.AnnouncedReplyIsAccepted` | src/agent/chat-service.ts:137-219 | the client's reader accepts an announced reply whole, however it is cut, if and only if no line of it is over the limit, and otherwise reads it up to that line |
| `ChatTurns.PartialReply` | src/agent/chat-service.ts:137-219 | a turn's events are always the start of such a reply |
| `ChatTurns.StopLeavesNoTurn` | src/agent/chat-service.ts:279-287 | when what `stop` waits for has settled no turn is left and no send begins one |
| `ChatService.ChatService.Send` | src/agent/chat-service.ts:115-120 | a send is refused when stopping or busy, changing nothing, and otherwise holds the chat |
| `ChatService.ChatService.Cancel` | src/agent/chat-service.ts:238-248 | a cancel answers not found, false or true, and true means that turn was asked |
| `ChatService.ChatService.Archive` | src/agent/chat-service.ts:271-277 | a chat that is replying keeps its transcript |
| `ChatService.ChatService.Rename` | src/agent/chat-service.ts:250-269 | a rename is refused for a bad title, a turn without a session or a chat not stored, and changes only that chat's name, also when its turn has a session and it is then not found among the stored chats |
| `ChatService.ChatService.Stop` | src/agent/chat-service.ts:279-287 | stop asks every turn it finds and waits for exactly those |
| `SkillFolders.SkillWalk.WalkSkillFolder` | src/agent/runtime.ts:198-239 | the walk over one object and one array of ancestors is the specified walk, which ends without the cap: real folders off the chain become fewer with each step down |
| `SkillFolders.OnlyLinksLoopBack` | src/agent/runtime.ts:224-229 | a child that is no link never loops back, so nothing is skipped without a record |
| `SkillFolders.ChainExtends` | src/agent/runtime.ts:231-233 | no folder on the chain is or contains an earlier one |
| `SkillFolders.AtMostTheCap` | src/agent/runtime.ts:199-203 | at most 5000 folders are read |
| `SkillFolders.QuietFolderIsPlain` | src/agent/runtime.ts:198-239 | a walk that meets no loop and does not give up finds the files of the unbounded depth-first walk, in order, and notes exactly what that passes over |
| `SkillFolders.TakeDropsNothingSilently` | src/agent/runtime.ts:269-302 | an entry without a notice of a loop or of too many folders adds exactly the plain walk's files and notes exactly what that passes over, and one with such a notice adds none |
| `SkillFolders.CountedNotes` | src/agent/runtime.ts:286-302 | an entry's notices are exactly its unreadable places and its loops, and too many folders exactly when it gave up without a loop |
| `SkillFolders.EntryNotesTruly` | src/agent/runtime.ts:198-239 | every loop noted is a link to a folder that contains one the walk is in, and every place noted as unreadable is |
| `SkillFolders.GivesUpOnlyPastTheCap` | src/agent/runtime.ts:199-203 | a walk gives up only on a folder whose plain walk reads more than 5000 folders or does not end |
| `SkillFolders.AllTakenIsThePlainWalk` | src/agent/runtime.ts:303-305 | a skill folder without such a notice loads exactly what the plain walk of it finds and notes exactly what it passes over |
| `SkillFolders.SkillSelection.TakeAll` | src/agent/runtime.ts:269-305 | the loop over the entries is their specification |
| `EditDistance.EditDistance` | src/state/query.ts:80-90 | the two rows compute the distance |
| `EditDistance.DistIsLeast` | src/state/query.ts:80-90 | the distance is the least number of insertions, deletions and substitutions over all scripts |
| `EditDistance.Symmetric` | src/state/query.ts:80-90 | it is symmetric |
| `EditDistance.Triangle` | src/state/query.ts:80-90 | it keeps the triangle inequality |
| `NearestNames.NearestAreBest` | src/state/query.ts:92-103 | at most three names, best first, and none left out ranks ahead of one returned |
| `NearestNames.CandidatesAreNear` | src/state/query.ts:94-99 | the candidates are exactly the names with score at most 3 |
| `NearestNames.ScoreSays` | src/state/query.ts:94-97 | a name scores 0 when it and the wanted one contain one another, and otherwise the least number of edits, letter case aside |
| `AgentCommand.AgentCliArgv` | src/agent/agent-cli-command.ts:10-42 | a command is accepted exactly when it is plain quoted POSIX words with the launcher first, and gives the other words; a refusal names the first place outside quotations where the scan cannot go on, or what is wrong with the whole |
| `AgentCommand.OneReason` | src/agent/agent-cli-command.ts:10-42 | a command has at most one reason to be refused, and none when it is acceptable |
| `AgentCommand.ShellWordsRoundTrip` | src/agent/agent-cli-command.ts:57-58 | POSIX word splitting of the quoted arguments gives back every list of strings |
| `AgentCommand.AcceptedCommandsNameTheCli` | src/agent/agent-cli-command.ts:44-48 | every accepted command passes the conservative test for the launcher's name |
| `AgentCommand.NamesWhenItStands` | src/agent/agent-cli-command.ts:44-48 | the test holds exactly when, quotes taken out and in any case, the launcher's name stands somewhere with no name character after it |
| `Permissions.PermissionPolicy` | packages/contracts/src/permissions.ts:122-157 | the policy built by updates is the specified one |
| `Permissions.PolicyByKey` | packages/contracts/src/permissions.ts:122-157 | the policy surface by surface; surfaces the harness does not manage stay |
| `Permissions.PolicyIsIdempotent` | packages/contracts/src/permissions.ts:122-157 | reconciling twice gives the same policy, order included |
| `Permissions.PolicyObeysTheMode` | packages/contracts/src/permissions.ts:105-139 | read-only denies, ask-first asks and allow allows on every changing surface and by default; reading is allowed in every mode; the agent's own commands are too; the owner's matching rule comes first everywhere |
| `Permissions.DocumentObeysTheMode` | packages/contracts/src/permissions.ts:232-282 | so does the edited document |
| `Permissions.BlockedPathsAreDenied` | packages/contracts/src/permissions.ts:141-155 | a path no owner rule matches is denied exactly when a blocked pattern matches it, and allowed otherwise |
| `Permissions.BlockedPatterns` | packages/contracts/src/permissions.ts:148-153 | the blocked patterns are every identity of a blocked path and what lies below it |
| `Permissions.OwnerDecidesFirst` | packages/contracts/src/permissions.ts:109-114 | in bash the owner's last matching rule wins, then the agent's own commands are allowed, then the mode decides |
| `Permissions.FindPathRules` | packages/contracts/src/permissions.ts:141-155 | a path pattern has the owner's rule, else a deny when blocked, else none |
| `Permissions.ReconcilePermissionDocument` | packages/contracts/src/permissions.ts:232-282 | the edits of the owner's document reach the specified document |
| `Permissions.ManagedEditsMeetThePolicy` | packages/contracts/src/permissions.ts:241-254 | on managed surfaces the edited rules are the policy's, in its order |
| `Permissions.DocumentMeetsThePolicy` | packages/contracts/src/permissions.ts:232-282 | every surface but `path` is the policy's to the letter, and `path` has its values exactly when the generated denies were clean |
| `Permissions.PathEditsMeetThePolicy` | packages/contracts/src/permissions.ts:266-281 | both directions of that condition |
| `Permissions.DeniedDefaultIsLost` | packages/contracts/src/permissions.ts:266-281 | a document whose default path rule is a generated deny ends with no path rule at all, where the policy allows by default |
| `Permissions.AmendedDenyStays` | packages/contracts/src/permissions.ts:266-281 | a generated deny with another field beside it stays as it is, where the policy asks for the plain deny |
| `Permissions.OwnerRulesStay` | packages/contracts/src/permissions.ts:270-281 | the edits keep every owner path rule, in order |
| `WorkspaceListing.WorkspaceTree.Tree` | src/workspace/files.ts:143-166 | the listing is the first 5000 entries of the full folders-first listing, all of it when not truncated |
| `WorkspaceListing.SortOrdered` | src/workspace/files.ts:148-151 | a folder's entries come folders first and each kind by name |
| `WorkspaceListing.ListedIffThere` | src/workspace/files.ts:148-161 | the full listing holds a path, as folder or file, if and only if that is there and no name on the way is hidden, reserved at the root or passed over |
| `TreeRows.FlattenVisible` | apps/web/src/lib/workspace-tree.ts:47-103 | the loops push the specified rows |
| `TreeRows.AncestorsExpanded` | apps/web/src/lib/workspace-tree.ts:40-45 | true exactly when every folder above the path is open |
| `TreeRows.RowsOfTheListing` | apps/web/src/lib/workspace-tree.ts:63-69 | picking rows out of the flat listing draws what a walk into the open folders draws; of a truncated listing, its first rows |
| `TreeRows.VisibleRowsAreParented` | apps/web/src/lib/workspace-tree.ts:63-103 | every row shown has its parent, open, before it with nothing shallower between |
| `TreeRows.TreeKeyIntent` | apps/web/src/lib/workspace-tree.ts:122-155 | each key gives the specified intent, type-ahead the next row round the end that starts with the character |
| `TreeRows.PlainKeys` | apps/web/src/lib/workspace-tree.ts:126-136 | the vertical keys move by one row and stop at the ends, Home and End go there, Enter opens the focused row |
| `TreeRows.KeysWithoutFocus` | apps/web/src/lib/workspace-tree.ts:122-155 | without a focused row they go to the first row or the last, and nothing opens |
| `TreeRows.TypingReachesEveryMatch` | apps/web/src/lib/workspace-tree.ts:113-120 | typing one character again and again comes to every row that starts with it |
| `TreeRows.ArrowLeftGoesToTheParent` | apps/web/src/lib/workspace-tree.ts:143-151 | ArrowLeft on any row that is not an open folder moves to its parent row |
| `TreeRows.ArrowRightGoesToAChild` | apps/web/src/lib/workspace-tree.ts:137-142 | ArrowRight moves from an open folder only to a row of its own |

## Left out

- SQLite itself: tables are maps and each transaction is one step. Stored times are integer milliseconds, since the text order of ISO times holds only for four-digit years; dates out of range are not modelled.
- The cron library: a calendar is any set of occurrences with a least one after each time, or none.
- Process spawning, signals, timers, captured output, transcripts and the event bus: a runner is a later step with a result or an error, and does not call back into the scheduler at once.
- Created, updated and finished times of rows, notes and schema migrations: they would add only easy members.
- `StateStore.State.Create`: does not normalise the input's tool list.
- `WorkspaceWriter.WorkspaceFiles.WriteNow`: does not model writers that bypass the Gateway, the documented link-swap race, a folder that appears while it is made, or a cleanup call that fails; content is characters and a revision is an injective function of it.
- The editor's copy written by keep-both, the debounce timer and the page's notices.
- The Pi session: its events are a list, and it delivers no text or tool event before the turn is announced. Provenance entries of a transcript and the chat summaries are not modelled.
- Text decoding from bytes and the JSON grammar: the stream is characters, and parsing a line is any function to JSON values.
- Numbers of steps to a settled turn: `stop` and `cancel` are proved safe, not shown to end when the session never answers.
- `ChatTurns.AnnouncedReply`: says nothing of a turn whose session shutdown throws, because that turn announces no end.
- `ChatProjection.OneTurn`: an argument of a call is text, and time stamps are integers.
- `SkillFolders.SkillWalk.WalkSkillFolder`: does not model ignore rules, dot entries or broken links, which decide what a folder's listing shows; the removal of a second path to the same file after the walk, and the allowlist's own checks of a name, are not modelled either.
- `NearestNames.NearestAreBest`: lower-casing and the locale's order are parameters.
- `Permissions.ReconcilePermissionDocument`: text offsets, comments and formatting of the document are not modelled, nor keys that look like array indexes, which a JavaScript object puts first, nor duplicate keys; no blocked path is literally `*`.
- `TreeRows.TreeKeyIntent`: a character typed is one `char`, and lower case is a parameter.
- The launch agent's property list, the sandbox, onboarding, the doctor, help texts, HTTP servers and clients and all rendering.
