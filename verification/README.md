# What is verified here

BuildPal distributes MSVC compilations over machines. This project models its intricate parts
in Dafny and proves what they promise. `dafny verify dfyconfig.toml` checks all of it.

* **Header cache.** A header is preprocessed once and its result is reused for every macro state
  that agrees with the macros it looked at. Files are trees of directives (`Directives`), a
  conditional being a decision tree over macro values; `ExecFile` is what preprocessing does.
  `Recording` says what a run writes down, `DeferredReads` and `ConsistentKeys` why that is
  enough and why it can index a tree (`SteadyConditions` and `UnsteadyConditions`: for which files
  exactly), `Replay` and `Deferral` bring in the cache and the stack of
  conditions that holds reads back, and `Transparency` puts it together. `CacheTrees` is the tree
  on the heap, `HeaderContexts`, `HeaderCaches` and `HeaderTrackers` the objects that are updated
  while a file is scanned, each method equal to its specification.
* **Task race.** Manager sessions on several nodes compile one task, the first to finish wins and
  the others are cancelled. `SessionProtocol` has both ends of one session and the two FIFO
  channels between them; `BuildManager` the tasks, queues, nodes and commands; `BuildSafety`,
  `BuildEndings` and `BuildRuns` the invariant and what it means for whole runs; `LateFailures`
  the case in which a winner fails after all, `LastSessions` what a command hears of the end of
  sessions, both with runs built in `BuildTraces`. `Results` says that what a command hears is what
  a compiler has returned, `SessionProgress` that no session gets stuck and cancellations arrive,
  `WorkSearch` which tasks are sent to a node that looks for work. `SessionObjects` and
  `NodeManagers` are the same steps as methods on objects.
* **Shared state.** `Flyweights` interleaves the atomic steps of reference counting,
  `HeaderRepositories` those of the server's store of headers, `CompilerSlots` the coroutines
  that share a number of compilers.
* **Hooks.** `Trampolines` moves the first instructions of a function (32-bit build, the
  disassembler being any function from bytes to lengths, opcodes and immediates), `HookableCode`
  says for which functions that succeeds. `Hooks` is the table of hooks and the memory they patch,
  `Buffers` the allocator of trampoline slots.
* **Include closure, codecs, checksum.** `NaiveScan`, `Framing`, `ClientFraming`, `MapTransfers`
  and `Checksums`.

## Findings

Where the code does less than its design suggests, the model follows the code and a lemma says so.

* An include that is not found, under a condition, makes the recorded paths of one header
  inconsistent (`MissingIncludeBreaksKeys`): such an include is not reported when it is reached
  but counts as an effect when its branch is skipped. A conditional is safe if and only if the
  macro state cannot change whether it commits its reads (`SafeExactlyIfSteady`); the results
  above are for files with such conditionals only, among them all files in which missing includes
  stay outside conditionals (`MissingOutsideIsSteady`).
* `#pragma once` under a condition changes the header's marker without recording the read of the
  condition (`OnceUnderConditionBreaksReads`). A conditional keeps the recorded reads sufficient if
  and only if, wherever it does not commit them, the state cannot change whether a `#pragma once`
  is run (`ReadsSafeExactlyIfDecided`); the results above are for files with such conditionals.
* A session that fails after it has won leaves its task to sessions that have been cancelled,
  unless it was the only one (`LateFailureAttended`; `LateFailureStrands` for a run that gets there).
* A backward jump within the first five bytes is copied with its old displacement and leads astray
  if and only if moving the instructions it passes over changes their total length (`BackwardJumpExactly`;
  `BackwardInput` and `BackwardJumpBreaks` for a function that shows it).
* The naive scanner marks every header on its stack when it meets a computed include, although
  forced includes lie on the stack without including each other (`ForcedMarks`). The marks can go
  wrong if and only if a file other than the main one is forced on it (`ForcedMarksExactly`).
* A one-bit field of the signed type BOOL holds -1, so a hook that is already as wanted is reported
  if and only if it is to be disabled; one that is enabled twice is patched again
  (`HookTable.EnableHook`, `EnableTwice`).
* A file map from which files have been removed may have an empty directory (`RemoveFile`), which ends
  the transfer and loses what follows (`LostFile`). A map and its followers always arrive if and only
  if it has no empty directory (`ArrivesExactly`, `DeliversExactly`).
* Where `char` is signed, bytes above 127 are subtracted from the checksum's sums, which the first
  such byte makes differ from the definition (`SignedAgrees`, `SignedDiffers`).
* `all_sessions_done` is called for a completed task if and only if its last session has not failed
  (`LastSessionTold`, `SessionsDoneExactly`); so it may never be called (`NeverTold`).

## Model

| member | source | states |
|---|---|---|
| `Transparency.CacheIsTransparent` | Extensions/HeaderScanner/headerTracker_.cpp:129-184 | for any sequence of jobs, any sound cache to begin with and any evictions in between, every scan with the cache reports the macro state and the included files that preprocessing without a cache gives |
| `Transparency.ScanIsExec` | Extensions/HeaderScanner/headerTracker_.cpp:99-184 | one scan, with reads deferred and a cache: same macro changes and headers as plain preprocessing, no condition left open, the cache still sound, and the recorded reads are those of an uncached scan |
| `Transparency.ScanHasExec` | Extensions/HeaderScanner/headerTracker_.cpp:129-184 | the converse: what a cached scan reports is what preprocessing does when it may nest deeply enough |
| `Transparency.EmptyCacheIsSound` | Extensions/HeaderScanner/headerCache_.cpp:24-38 | every history may start from the empty cache |
| `Transparency.RunFitsCache` | Extensions/HeaderScanner/headerCache_.hpp:259-288 | the path of any run is nonempty, starts with the file's pragma-once marker and fits the tree of all paths cached so far |
| `Transparency.HitIsUnique` | Extensions/HeaderScanner/headerCache_.cpp:24-38 | a macro state matches at most one cached path of a file, so every lookup finds the same one |
| `Transparency.MissingIncludeBreaksKeys` | Extensions/HeaderScanner/headerScanner_.cpp:147-165 | with an include that is not found under a condition, two runs of one file record paths that do not fit one tree (concrete input) |
| `UnsteadyConditions.SafeExactlyIfSteady` | Extensions/HeaderScanner/headerTracker_.cpp:508-546 | for a conditional whose inner conditionals are settled, in a file that holds it and one definition under a condition on any macro: the paths of that file fit one tree, whatever the macro, if and only if the state cannot change whether the conditional commits its reads |
| `UnsteadyConditions.UnsteadyBreaksKeys` | Extensions/HeaderScanner/headerTracker_.cpp:473-546 | for every conditional that commits in one state and not in another, a file that holds it and two runs whose paths do not fit one tree |
| `UnsteadyConditions.ItemsLearn` | Extensions/HeaderScanner/headerTracker_.cpp:417-506 | text that commits, but would not from another state, has at least one macro recorded for it |
| `SteadyConditions.MissingOutsideIsSteady` | Extensions/HeaderScanner/headerScanner_.cpp:147-165 | where includes that are not found occur only outside conditionals, no state changes whether a conditional commits |
| `Transparency.OnceUnderConditionBreaksReads` | Extensions/HeaderScanner/headerTracker_.cpp:410-415 | with `#pragma once` under a condition, a state that agrees with the recorded reads gets other changes (concrete input) |
| `UnsteadyConditions.ReadsSafeExactlyIfDecided` | Extensions/HeaderScanner/headerTracker_.cpp:410-415 | the reads recorded for a conditional determine what it does if and only if, wherever they are not committed, no other state changes whether a `#pragma once` is run (inner conditionals being settled) |
| `UnsteadyConditions.UndecidedBreaksReads` | Extensions/HeaderScanner/headerTracker_.cpp:410-415 | for every conditional and pair of states that violate this, a file in which the second state agrees with the recorded reads of the first and gets another marker |
| `DeferredReads.OnceAtTopIsDecided` | Extensions/HeaderScanner/headerTracker_.cpp:410-415 | where `#pragma once` occurs only outside conditionals, this holds of every conditional |
| `DeferredReads.RecordedReadsSuffice` | Extensions/HeaderScanner/headerTracker_.hpp:223-233 | a second macro state that agrees with the recorded reads sees exactly the same defines, undefs and includes, even where dropped conditions go the other way |
| `DeferredReads.ObserveFileIsExec` | Extensions/HeaderScanner/headerTracker_.hpp:74-110 | what a run records: its changes and headers are those of preprocessing, and each used macro is listed with its value on entry |
| `DeferredReads.ReadsSufficeItems` | Extensions/HeaderScanner/headerTracker_.cpp:417-546 | the same for any piece of text in the middle of a file, relative to what has been changed there |
| `DeferredReads.Neutral` | Extensions/HeaderScanner/headerTracker_.cpp:518-546 | a text that performs no effect from one state performs none from any other, except that it may run a `#pragma once` |
| `DeferredReads.ResolvedCommits` | Extensions/HeaderScanner/headerTracker_.cpp:508-546 | where every include is found, the reads of a conditional are recorded exactly if its text holds a define, undef or include |
| `DeferredReads.QuietText` | Extensions/HeaderScanner/headerTracker_.cpp:518-546 | text without such directives never forces a recording |
| `ConsistentKeys.KeysAreConsistent` | Extensions/HeaderScanner/headerTracker_.hpp:74-84 | two runs of one file from any states: while their recorded (name, value) pairs agree, both lists end together or read the same next name; both start with the file's marker |
| `ConsistentKeys.MatchingStateReplays` | Extensions/HeaderScanner/headerCache_.cpp:24-38 | a state that matches a recorded path reproduces the run that recorded it, its path included |
| `ConsistentKeys.ItemsInStep` | Extensions/HeaderScanner/headerTracker_.cpp:417-506 | two runs of one text record in step or have asked the same macro and got different answers |
| `ConsistentKeys.ChildInStep` | Extensions/HeaderScanner/headerTracker_.hpp:112-146 | composing a child's reads into its parent keeps two runs in step |
| `ConsistentKeys.ObserveFileDeeper` | Extensions/HeaderScanner/headerTracker_.cpp:99-118 | a run that stays within the nesting limit is the same under any larger limit |
| `ConsistentKeys.StaysTooDeep` | Extensions/HeaderScanner/headerTracker_.cpp:99-118 | hitting the nesting limit is never forgotten |
| `Replay.HitIsRun` | Extensions/HeaderScanner/headerTracker_.hpp:112-146 | a hit hands over exactly what running the file from the present state would |
| `Replay.ReplayItemsIsObserve` | Extensions/HeaderScanner/headerTracker_.cpp:129-184 | scanning with the cache records what scanning without it records, and keeps the cache sound |
| `Replay.ReplayItemsHasObserve` | Extensions/HeaderScanner/headerTracker_.cpp:129-184 | and conversely, for a large enough nesting limit |
| `Replay.SoundEntriesConsistent` | Extensions/HeaderScanner/headerCache_.hpp:259-288 | two sound entries of one file have consistent paths, and are equal if their paths are |
| `Replay.LeaveSound` | Extensions/HeaderScanner/headerTracker_.cpp:254-288 | storing a header when it is left keeps the cache sound and hands over the header's own record |
| `Replay.LeaveHits` | Extensions/HeaderScanner/headerTracker_.cpp:254-288 | a header with fewer than 1024 recorded reads that is left is found by the next one who includes it in the state it was entered in; with more the cache stays as it is |
| `Replay.TickSound` | Extensions/HeaderScanner/headerCache_.cpp:158-193 | evicting any entries keeps the cache sound |
| `Deferral.TrackItemsDefers` | Extensions/HeaderScanner/headerTracker_.cpp:417-546 | holding reads back on a stack of conditions and committing them at the first effect records exactly what the reference observer records |
| `Deferral.UnreportedElifCommits` | Extensions/HeaderScanner/headerTracker_.cpp:448-506 | macros pending at an `#else` or `#endif` make it commit everything unless the text between holds no effect, even if the last branch was taken |
| `Deferral.TrackTopDefers` | Extensions/HeaderScanner/headerTracker_.cpp:417-546 | in particular for a whole file: nothing stays pending |
| `Deferral.TrackIfDefers` | Extensions/HeaderScanner/headerTracker_.cpp:417-506 | one conditional with all of its branches, taken or skipped, committed or dropped |
| `Deferral.RestPushed` | Extensions/HeaderScanner/headerTracker_.cpp:508-546 | once a quiet branch is taken only the skipped text after it can still force a commit |
| `Deferral.RestBeforeTaken` | Extensions/HeaderScanner/headerTracker_.cpp:429-471 | the same before any branch is taken |
| `Directives.EvaluateAgrees` | Extensions/HeaderScanner/headerTracker_.cpp:328-338 | a condition asks the same macros and decides the same in two states that agree on what it asks |
| `Directives.SelectAgrees` | Extensions/HeaderScanner/headerTracker_.cpp:417-471 | so the same branch of a conditional is selected |
| `Conditionals.FirstBranchIsTaken` | Extensions/HeaderScanner/headerTracker_.cpp:417-471 | of a conditional the first branch whose test holds is executed, or none; the tests up to it are evaluated and no others |
| `Conditionals.DecidesOnAnswers` | Extensions/HeaderScanner/headerTracker_.cpp:417-471 | a test decides on the values of exactly the macros it has asked for, in that order |
| `OnlyOnce.ReadOnce` | Extensions/HeaderScanner/headerTracker_.cpp:129-145 | a file that holds a `#pragma once` outside conditionals and has been preprocessed within the nesting limit has no effect at its next inclusion, at whatever depth, after whatever text |
| `OnlyOnce.ScannedOnce` | Extensions/HeaderScanner/headerTracker_.cpp:129-145 | the same for the cached scan with deferred reads: the state stays as it is, one read of the marker and the header are recorded |
| `OnlyOnce.ScanSkipsMarked` | Extensions/HeaderScanner/headerTracker_.cpp:129-145 | a file whose marker is set is never entered by a scan |
| `Directives.ExecItemsDeeper` | Extensions/HeaderScanner/headerTracker_.cpp:99-118 | preprocessing within the nesting limit is the same under a larger one |
| `Recording.AddAllMentions` | Extensions/HeaderScanner/headerTracker_.hpp:169-176 | recording reads only extends the list, lists every name once, and lists all that was read before being changed |
| `Recording.AddAllOrigin` | Extensions/HeaderScanner/headerTracker_.hpp:169-176 | every recorded pair comes from a read, and never from a macro changed before |
| `Macros.MacroState.DefineMacro` | Extensions/HeaderScanner/macroState_.hpp:37-60 | the map is updated in place, a definition replacing what was there |
| `Macros.MacroState.UndefineMacro` | Extensions/HeaderScanner/macroState_.hpp:37-60 | an undefinition leaves the explicit undefined value |
| `Macros.MacroState.GetMacroValue` | Extensions/HeaderScanner/macroState_.hpp:37-60 | a macro never mentioned reads as undefined |
| `CacheTrees.CacheIndex.Find` | Extensions/HeaderScanner/headerCache_.cpp:24-38 | walking down by the current macro values finds the leaf whose whole path the state matches, or there is none; no other path in the tree matches |
| `CacheTrees.CacheIndex.GetPath` | Extensions/HeaderScanner/headerCache_.hpp:238-249 | the path collected on the way up is the node's path |
| `CacheTrees.CacheIndex.GetChild` | Extensions/HeaderScanner/headerCache_.hpp:259-288 | walks to the node for a path, growing the tree where it does not reach; entries already there are untouched |
| `CacheTrees.CacheIndex.AddEntry` | Extensions/HeaderScanner/headerCache_.cpp:115-146 | the finite map the tree represents gets the entry unless it has one for the path |
| `CacheTrees.CacheIndex.Detach` | Extensions/HeaderScanner/headerCache_.hpp:209-225 | exactly this entry leaves the map; every node left childless is pruned, except the root; entries stay at leaves and parent links right |
| `CacheTrees.FitsNode` | Extensions/HeaderScanner/headerCache_.hpp:259-288 | along a path that fits the tree no inner node holds an entry and each asks for the path's next macro |
| `CacheTrees.GrownView` | Extensions/HeaderScanner/headerCache_.hpp:259-288 | a new node changes nothing in the represented map |
| `CacheTrees.WithEntryView` | Extensions/HeaderScanner/headerCache_.cpp:115-146 | an entry set on a leaf adds exactly its path to the map |
| `CacheTrees.WithoutView` | Extensions/HeaderScanner/headerCache_.hpp:209-225 | an erased node takes nothing from the map |
| `CacheTrees.ErasedEnough` | Extensions/HeaderScanner/headerCache_.hpp:209-225 | when pruning stops every inner node has a child again |
| `HeaderContexts.HeaderCtx.MacroUsed` | Extensions/HeaderScanner/headerTracker_.hpp:74-84 | a read is listed once, with its present value, unless the header itself has changed the macro |
| `HeaderContexts.HeaderCtx.PropagateToParent` | Extensions/HeaderScanner/headerTracker_.hpp:112-146 | the parent gets the child's reads, changes and headers, from the record or from the cached entry it stands for |
| `HeaderContexts.ConditionStack.Commit` | Extensions/HeaderScanner/headerTracker_.hpp:223-233 | all pending reads are reported, outermost condition first, and none stays pending |
| `HeaderContexts.ConditionStack.IfDirective` | Extensions/HeaderScanner/headerTracker_.cpp:417-427 | as the specification of deferral says, state for state |
| `HeaderContexts.ConditionStack.ElifDirective` | Extensions/HeaderScanner/headerTracker_.cpp:429-446 | likewise |
| `HeaderContexts.ConditionStack.ElseDirective` | Extensions/HeaderScanner/headerTracker_.cpp:448-471 | likewise |
| `HeaderContexts.ConditionStack.EndifDirective` | Extensions/HeaderScanner/headerTracker_.cpp:473-506 | likewise |
| `HeaderContexts.ConditionStack.LastConditionSkippable` | Extensions/HeaderScanner/headerTracker_.cpp:508-516 | true if the branch that ended was taken or holds no effect; otherwise everything is committed |
| `HeaderContexts.ConditionStack.Skippable` | Extensions/HeaderScanner/headerTracker_.cpp:518-546 | the token loop finds an effect directive exactly if the text holds one |
| `HeaderContexts.TokensShowEffects` | Extensions/HeaderScanner/headerTracker_.cpp:518-546 | scanning tokens finds exactly the text with a define, undef or include |
| `HeaderCaches.Cache.FindEntry` | Extensions/HeaderScanner/headerCache_.cpp:214-245 | a hit returns the matching entry and notes it; maintenance never evicts the entry just hit |
| `HeaderCaches.Cache.Maintenance` | Extensions/HeaderScanner/headerCache_.cpp:158-193 | noted hits are counted, then exactly the entries whose last hit is too old are removed |
| `HeaderCaches.Cache.AddEntry` | Extensions/HeaderScanner/headerCache_.cpp:115-146 | an entry already there is kept and handed back |
| `HeaderCaches.Cache.StaleByNumber` | Extensions/HeaderScanner/headerCache_.cpp:158-193 | a cleanup lets an entry go if and only if it was not hit within the last 16384 lookups or, before there were so many, since the first fifth of them |
| `HeaderTrackers.HeaderTracker.InclusionDirective` | Extensions/HeaderScanner/headerTracker_.cpp:61-97 | pending reads are committed before the file is pushed |
| `HeaderTrackers.HeaderTracker.MacroDefined` | Extensions/HeaderScanner/headerTracker_.cpp:381-395 | a definition commits everything pending first, and counts for nothing while a cached result is replayed |
| `HeaderTrackers.HeaderTracker.MacroUndefined` | Extensions/HeaderScanner/headerTracker_.cpp:397-408 | likewise |
| `HeaderTrackers.HeaderTracker.PragmaOnce` | Extensions/HeaderScanner/headerTracker_.cpp:410-415 | the marker is set and everything pending stays pending |
| `HeaderTrackers.HeaderTracker.ReplaceFile` | Extensions/HeaderScanner/headerTracker_.cpp:129-184 | nothing is read if the marker is set, the cached result stands in on a hit, the file itself is read otherwise |
| `HeaderTrackers.HeaderTracker.EnterFile` | Extensions/HeaderScanner/headerTracker_.cpp:99-118 | a file that is really read starts by reading its own marker |
| `HeaderTrackers.HeaderTracker.AddToCache` | Extensions/HeaderScanner/headerTracker_.cpp:273-288 | the context stands for the cached entry from then on |
| `HeaderTrackers.HeaderTracker.LeaveHeader` | Extensions/HeaderScanner/headerTracker_.cpp:254-271 | a header that was read itself and has used fewer than 1024 macros is stored, no other; its record, or the entry it stands for, is handed over to its parent |
| `HeaderTrackers.LeaveIsLeave` | Extensions/HeaderScanner/headerTracker_.cpp:254-271 | leaving a scanned header is the scan's own step |
| `HeaderTrackers.LeaveIsSkip` | Extensions/HeaderScanner/headerTracker_.cpp:254-271 | leaving an empty replacement is skipping the file |
| `HeaderTrackers.LeaveIsAbsorb` | Extensions/HeaderScanner/headerTracker_.cpp:254-271 | leaving a cached result absorbs its entry |
| `BuildRuns.OneWinner` | Python/buildpal/manager/task.py:50-102 | in every run at most one session of a task ends in success and no assertion of manager or server fails |
| `BuildRuns.ConfirmationIsFinal` | Python/buildpal/server/runner.py:406-436 | a server confirms a cancellation only if asked to, and sends nothing after it; the session's task has another winner then |
| `BuildRuns.PostprocessedOnce` | Python/buildpal/manager/command_processor.py:200-206 | a command is postprocessed at most once, and has been exactly when a session of each of its tasks has succeeded |
| `BuildRuns.NoTaskIsLost` | Python/buildpal/manager/node_manager.py:97-136 | a scheduled task has a winner, or waits in the queue, or is on its way to a node, or is held by an active session that has not been cancelled |
| `BuildRuns.NodeBooksBalance` | Python/buildpal/manager/node_info.py:43-46 | on every node each task is listed as running as often as the node has live sessions for it, and `tasks_pending` is the length of the list |
| `BuildRuns.RunHolds` | Python/buildpal/manager/task.py:45-102 | the invariant behind these holds at every point of every run |
| `BuildRuns.StepHolds` | Python/buildpal/manager/node_manager.py:97-136 | every enabled event keeps it |
| `BuildEndings.RegisterHolds` | Python/buildpal/manager/task.py:50-57 | the first session to register cancels the others, which were undecided and not yet cancelled |
| `BuildEndings.OthersUndecided` | Python/buildpal/manager/task.py:50-57 | no other session of the task can have won or been cancelled before |
| `BuildEndings.ClosedHolds` | Python/buildpal/manager/task.py:65-102 | unregistering and reporting keeps all books; only a task that must be rescheduled is left without a holder |
| `BuildEndings.CompleteHolds` | Python/buildpal/manager/node_manager.py:121-129 | and with the search for work in between and the rescheduling after it nothing is lost |
| `BuildEndings.ScheduleHolds` | Python/buildpal/manager/node_manager.py:97-114 | scheduling a task that came back from preprocessing |
| `BuildEndings.JoinHolds` | Python/buildpal/manager/node_manager.py:188-211 | a node that joins takes queued work or steals |
| `BuildSafety.FindWorkRequeues` | Python/buildpal/manager/node_manager.py:188-211 | the search for work forgets no waiting task and sends only scheduled tasks |
| `BuildSafety.ScheduleRequeues` | Python/buildpal/manager/node_manager.py:97-114 | a task that is scheduled waits or is on its way afterwards |
| `WorkSearch.SearchSends` | Python/buildpal/manager/node_manager.py:188-211 | what a search for work sends: queued tasks in order while the node has slots, then, only if the queue is empty and it may steal, the first stealable ones for which there is room |
| `WorkSearch.NobodyWaitsForAnIdleNode` | Python/buildpal/manager/node_manager.py:188-199 | after a search the queue is empty or the node has as many tasks as it takes |
| `WorkSearch.NoNodeIsFlooded` | Python/buildpal/manager/node_manager.py:160-211 | and it never gets more than one task above its job slots |
| `WorkSearch.RepeatedFirst` | Python/buildpal/manager/node_manager.py:97-111 | a task that is repeated is the next to be sent, a new one waits behind those in the queue |
| `WorkSearch.QueueIsKept` | Python/buildpal/manager/node_manager.py:97-114 | a task goes straight to a node only if none is waiting |
| `WorkSearch.NewestLast` | Python/buildpal/manager/node_manager.py:133-136 | a node's tasks stand in the order in which they have come |
| `WorkSearch.RepeatedExactly` | Python/buildpal/manager/task.py:77-85 | at the end of a session its task is scheduled again if and only if the session has failed and no result and no other session is there |
| `WorkSearch.WinnerCancelsOthers` | Python/buildpal/manager/task.py:50-57 | in the step in which a task is won exactly the other sessions running for it are cancelled, and told so if their server is known |
| `Results.CommandHearsReturnCode` | Python/buildpal/manager/compile_session.py:131-151 | in every run the result a command has of a task is a return code sent by the server of the session that has won the task |
| `Results.CommandHearsCompiler` | Python/buildpal/server/runner.py:320-352 | and it is the code with which that session's compiler has exited in an earlier step |
| `Results.SaidAfterCompiler` | Python/buildpal/server/runner.py:320-352 | in every run a server says that it is done with a code, or has failed, only after its compiler has exited with this code, or has crashed |
| `Results.ServerSaysWhatHappened` | Python/buildpal/server/runner.py:320-352 | a return code is sent if and only if a compiler exits with it, a failure if and only if it crashes, for a session still running |
| `Results.EndsAsTheServerSaid` | Python/buildpal/manager/compile_session.py:80-176 | in every run a session ends in success with a code its server has sent and, for a good one, the whole result; too late, failed or cancelled only if the server has said so |
| `Results.CountersCountSessions` | Python/buildpal/manager/node_info.py:67-84 | in every run a node's counters are the numbers of its sessions opened and ended with each result |
| `SessionProgress.NobodyIsStuck` | Python/buildpal/server/runner.py:412-436 | in every run a session whose node was not lost is over at both ends, or a message, a callback or an upload is still to come |
| `SessionProgress.CancellationArrives` | Python/buildpal/manager/compile_session.py:61-64 | in every run a cancellation whose server is known is on its way or has arrived, or the server was done; a server it has reached does not wait for its compiler, sends no result and ends by confirming |
| `SessionProgress.EndsHow` | Python/buildpal/manager/compile_session.py:66-151 | a step ends at most the session it is about, with the result its last message, the end of writing or the loss of the node calls for |
| `SessionProgress.MessageMeans` | Python/buildpal/manager/compile_session.py:80-176 | which message leads to which end, and when a result is asked for or declined |
| `SessionProgress.MissingFilesAreSent` | Python/buildpal/manager/compile_session.py:96-120 | what the first answer sends and still has to upload, piece by piece |
| `BuildSafety.CreateHolds` | Python/buildpal/manager/node_manager.py:116-136 | opening a session keeps the invariant |
| `SessionProtocol.DeliverDownHolds` | Python/buildpal/server/runner.py:412-436 | whatever reaches a server session is what its state expects |
| `SessionProtocol.CallbackHolds` | Python/buildpal/server/runner.py:264-366 | work that ends on another thread finds its session in a state it can deal with, cancelled or not |
| `SessionProtocol.DeliverUpHolds` | Python/buildpal/manager/compile_session.py:80-176 | whatever reaches a registered manager session is what its state expects |
| `SessionProtocol.CancelHolds` | Python/buildpal/manager/compile_session.py:61-64 | cancelling an undecided session keeps both ends in agreement, wherever the conversation is |
| `SessionProtocol.UploadHolds` | Python/buildpal/manager/compile_session.py:114-120 | so does every piece of a precompiled header sent in the background |
| `LateFailures.LateFailureAttended` | Python/buildpal/manager/task.py:75-84 | if a winner fails late the task is attended to afterwards if and only if it waited anyway, another session holds it that was not cancelled, or the failed session was its only one |
| `LateFailures.LateFailureStrands` | Python/buildpal/manager/compile_session.py:188-201 | a run gets to a state in which, if the files of the winner cannot be written, nothing but a cancelled session holds the task |
| `BuildTraces.CloseRaceReached` | Python/buildpal/manager/task.py:50-63 | a concrete run: two nodes hold one task, the second having stolen it; one session wins and is writing its files while the other has been sent its cancellation |
| `LastSessions.SessionsDoneExactly` | Python/buildpal/manager/task.py:65-102 | in every run a command has been told that all sessions of a task are over if and only if at some point the last session of the completed task has ended otherwise than by failing |
| `LastSessions.LastSessionTold` | Python/buildpal/manager/task.py:75-89 | in the step in which the last session of a completed task ends the command is told if and only if that session has neither failed nor been terminated |
| `LastSessions.NeverTold` | Python/buildpal/manager/task.py:75-85 | a concrete run to a task with a result, no session and nothing on its way, of which the command has never been told |
| `LateFailures.FindWorkKeepsCompleted` | Python/buildpal/manager/node_manager.py:205-210 | a completed task is never stolen |
| `SessionObjects.ServerSession.GotDataFromServer` | Python/buildpal/manager/compile_session.py:80-176 | the method's new fields and messages are the step of the protocol; other sessions are cancelled exactly if this one wins |
| `SessionObjects.ServerSession.Cancel` | Python/buildpal/manager/compile_session.py:61-64 | a session whose server is not known yet only remembers it |
| `SessionObjects.TaskObject.RegisterCompletion` | Python/buildpal/manager/task.py:50-57 | the first caller wins, every other running session is cancelled once, later callers change nothing |
| `SessionObjects.TaskObject.SessionCompleted` | Python/buildpal/manager/task.py:65-102 | false exactly if the task has to be rescheduled; a failed winner gives the completion back; and exactly when the command is told that all sessions are over |
| `SessionObjects.CompileSession.ProcessMsg` | Python/buildpal/server/runner.py:412-436 | the method's new fields and messages are the step of the protocol |
| `SessionObjects.CompileSession.CallBack` | Python/buildpal/server/runner.py:264-352 | likewise for work that reports back |
| `SessionObjects.CompileSession.SendCompressed` | Python/buildpal/server/runner.py:378-404 | the result goes out in pieces, all but the last announcing another |
| `NodeManagers.NodeManager.FindWork` | Python/buildpal/manager/node_manager.py:188-211 | the nested loops send what the specification says, queue first, then stolen tasks |
| `NodeManagers.NodeManager.ScheduleTask` | Python/buildpal/manager/node_manager.py:97-114 | queue or node, front or back of the queue |
| `NodeManagers.NodeManager.CreateSession` | Python/buildpal/manager/node_manager.py:116-136 | all dictionaries and counters updated together |
| `NodeManagers.NodeManager.SessionCompleted` | Python/buildpal/manager/node_manager.py:121-129 | unregister, search, report and reschedule amount to the model's step |
| `NodeManagers.NodeManager.TellCommand` | Python/buildpal/manager/task.py:75-101 | what the end of a session makes the command hear, and in which order |
| `NodeManagers.NodeManager.RemoveRunning` | Python/buildpal/manager/node_manager.py:123 | one occurrence of the task leaves the node's list |
| `NodeManagers.CommandProcessor.TaskCompleted` | Python/buildpal/manager/command_processor.py:200-206 | the last result triggers postprocessing |
| `Flyweights.RunsAreSafe` | Extensions/HeaderScanner/utility_.hpp:89-114 | for any interleaving of inserts, copies, moves and drops: no freed value is touched, the plain counter never has two writers, a value is erased only when nothing refers to it, and at rest exactly the values with a handle are stored |
| `Flyweights.DeletersCount` | Extensions/HeaderScanner/utility_.hpp:31-45 | `refCount` counts handles and finished references; `deleters` counts the drops past their decrement, plus one if `refCount` is positive, less an increment still owed (at most one) |
| `Flyweights.StepHolds` | Extensions/HeaderScanner/utility_.hpp:89-114 | every atomic step keeps the invariant and touches only stored values |
| `Flyweights.OneWriter` | Extensions/HeaderScanner/utility_.hpp:31-45 | two threads about to write `deleters` of one value are the same thread |
| `Flyweights.ErasedOnlyUnused` | Extensions/HeaderScanner/utility_.hpp:106-114 | a thread about to erase a value is the only one to know it, and no handle refers to it |
| `Flyweights.NoLeakAtRest` | Extensions/HeaderScanner/utility_.hpp:106-114 | with every thread idle a value is stored if and only if a handle refers to it |
| `Flyweights.EqualHandlesEqualKeys` | Extensions/HeaderScanner/utility_.hpp:184-187 | handles are equal if and only if they stand for the same text |
| `Flyweights.InsertionYieldsItsKey` | Extensions/HeaderScanner/utility_.hpp:89-104 | an insertion hands out a handle to the text it was given |
| `Flyweights.HandlesKeepTheirKeys` | Extensions/HeaderScanner/utility_.hpp:133-171 | no step changes what an existing handle stands for |
| `Flyweights.CopyCounts` | Extensions/HeaderScanner/utility_.hpp:143-148 | a copy never finds a zero count, so it never writes `deleters` |
| `Flyweights.SomebodyGoesOn` | Extensions/HeaderScanner/utility_.hpp:89-114 | in every run some thread can take its next step unless all are at rest: the locks never block everybody |
| `Flyweights.BlockedExactly` | Extensions/HeaderScanner/utility_.hpp:89-114 | in every run a thread in an operation is blocked if and only if it wants the shared lock and somebody has the unique one, or the unique one and somebody has either |
| `Flyweights.StepsCount` | Extensions/HeaderScanner/utility_.hpp:89-114 | every such step brings the thread nearer to the end of its operation, which takes at most seven, and moves no other thread |
| `Flyweights.KeyStays` | Extensions/HeaderScanner/utility_.hpp:89-114 | an insertion keeps to its key until it hands out a handle |
| `Trampolines.RunsAlike` | Extensions/Common/MinHook/src/trampoline.c:62-298 | run from their starts for any number of steps, function and trampoline are at the same moved instruction in the same state, or have left for the same address |
| `Trampolines.Lockstep` | Extensions/Common/MinHook/src/trampoline.c:76-263 | from corresponding instructions both do the same and come to corresponding places; calls have the same destination |
| `Trampolines.CompletionLeadsBack` | Extensions/Common/MinHook/src/trampoline.c:98-116 | the jump that completes a trampoline leads to the first instruction that was not moved |
| `Trampolines.InsideDestination` | Extensions/Common/MinHook/src/trampoline.c:165-189 | a jump inside the moved code leads to the image of its destination, if it leads forward or passes back over instructions that keep their total length |
| `Trampolines.BuildReaches` | Extensions/Common/MinHook/src/trampoline.c:245-247 | up to the destination of a pending jump no instruction changes its length |
| `Trampolines.CopiedJumpLeads` | Extensions/Common/MinHook/src/trampoline.c:165-189 | a copied jump between two moved instructions leads to the image of its destination if and only if the instructions between the two, as found in the function, keep their total length when they are moved |
| `Trampolines.BackwardJumpExactly` | Extensions/Common/MinHook/src/trampoline.c:165-189 | for every trampoline that is created and every jump back to an instruction boundary: function and trampoline come to corresponding places if and only if the instructions passed over keep their total length |
| `Trampolines.BackwardInput` | Extensions/Common/MinHook/src/trampoline.c:165-189 | the decoder and the bytes `74 10 EB FC 90` that the next row speaks of |
| `Trampolines.BackwardJumpBreaks` | Extensions/Common/MinHook/src/trampoline.c:165-189 | a function that starts like these gets a trampoline whose jump leads into the middle of an instruction |
| `Trampolines.TrampolineFits` | Extensions/Common/MinHook/src/trampoline.c:249-257 | at most 32 bytes, and at most six boundaries, which fits the three-bit field |
| `Trampolines.PatchedBytesAreSafe` | Extensions/Common/MinHook/src/trampoline.c:265-284 | every byte the patch overwrites belongs to a moved instruction or is padding |
| `HookableCode.HookableExactly` | Extensions/Common/MinHook/src/trampoline.c:62-298 | a function gets a trampoline if and only if every instruction up to its end can be decoded, is no loop that leads out and keeps its length wherever a jump leads over it, and the jump to the detour fits behind them or above; the boundaries are then exactly the offsets reached, all said of the code alone |
| `HookableCode.PlaceExactly` | Extensions/Common/MinHook/src/trampoline.c:265-284 | the jump goes to the target if five bytes are free there or filled with one padding byte, above it if two are and five filled ones precede it in executable memory, and nowhere else |
| `Trampolines.StraightCodeIsHooked` | Extensions/Common/MinHook/src/trampoline.c:62-298 | plain instructions are copied in place and followed by one jump |
| `Trampolines.KindsByMask` | Extensions/Common/MinHook/src/trampoline.c:119-239 | the kinds of instructions are the bit patterns of their opcodes |
| `Trampolines.JumpDecodes` | Extensions/Common/MinHook/src/trampoline.c:97-115 | a written jump or call decodes as one to the intended destination |
| `Trampolines.BranchDecodes` | Extensions/Common/MinHook/src/trampoline.c:217-235 | a written conditional jump keeps condition and destination |
| `Trampolines.RecordedIsPlaced` | Extensions/Common/MinHook/src/trampoline.c:255-262 | what the builder has written is, once mapped, the trampoline the theorems speak of |
| `Trampolines.Trampoline.CreateTrampolineFunction` | Extensions/Common/MinHook/src/trampoline.c:62-298 | the loop succeeds exactly if the plan exists, and leaves the plan's boundaries and bytes in its arrays |
| `Trampolines.Trampoline.Classify` | Extensions/Common/MinHook/src/trampoline.c:93-243 | each instruction becomes what the specification says |
| `Trampolines.Trampoline.ChoosePatch` | Extensions/Common/MinHook/src/trampoline.c:265-284 | where the jump to the detour goes, if there is room |
| `Hooks.SwitchHolds` | Extensions/Common/MinHook/src/hook.c:358-401 | switching one hook keeps memory the original code overlaid with the jumps of exactly the enabled hooks |
| `Hooks.AddHolds` | Extensions/Common/MinHook/src/hook.c:510-592 | a hook whose patch is apart from the others backs up original code |
| `Hooks.RemoveHolds` | Extensions/Common/MinHook/src/hook.c:156-173 | filling the gap with the last entry keeps targets distinct and memory right |
| `Hooks.HookTable.EnableHookLL` | Extensions/Common/MinHook/src/hook.c:358-401 | the hook's flags and the code change together, or nothing does |
| `Hooks.HookTable.EnableAllHooksLL` | Extensions/Common/MinHook/src/hook.c:404-433 | every hook up to the first one that has to be switched and may not be is in the wanted state, the others are as they were; success if and only if none is refused |
| `Hooks.HookTable.EnableHook` | Extensions/Common/MinHook/src/hook.c:637-674 | the named hook, or all, are switched; a named hook that is already as wanted is reported if and only if it is to be disabled, and is patched again if it is to be enabled; otherwise success if and only if the page may be changed |
| `Hooks.EnableTwice` | Extensions/Common/MinHook/src/hook.c:656-657 | a new hook is enabled twice: the second call succeeds like the first and changes no byte (concrete calls) |
| `Hooks.EnabledLeadsToDetour` | Extensions/Common/MinHook/src/hook.c:374-395 | the code of an enabled hook decodes to a jump to the detour, and of one above the target the two bytes there jump to it |
| `Hooks.DisabledIsOriginal` | Extensions/Common/MinHook/src/hook.c:386-395 | the code of a disabled hook is the original |
| `Hooks.PatchedAgain` | Extensions/Common/MinHook/src/hook.c:374-385 | writing the jump of an enabled hook once more leaves memory as it is |
| `Hooks.HookTable.QueueHook` | Extensions/Common/MinHook/src/hook.c:689-718 | only the queued flag of the named hook, or of all, changes |
| `Hooks.HookTable.ApplyQueued` | Extensions/Common/MinHook/src/hook.c:733-775 | every hook up to the first refusal is enabled exactly if it was queued to be, the others are as they were; success if and only if none is refused |
| `Hooks.HookTable.CreateHook` | Extensions/Common/MinHook/src/hook.c:510-592 | one disabled hook more, memory unchanged, or nothing changes; and which error is reported when |
| `Hooks.HookTable.RemoveHook` | Extensions/Common/MinHook/src/hook.c:595-634 | exactly the named hook goes; nothing changes if there is none or it is enabled and cannot be disabled, and only then is there an error |
| `Hooks.HookTable.NewHookEntry` | Extensions/Common/MinHook/src/hook.c:131-153 | growing the array keeps all entries in their order |
| `Hooks.HookTable.DelHookEntry` | Extensions/Common/MinHook/src/hook.c:156-173 | swap removal, and shrinking keeps the rest |
| `Buffers.LiveSlotsApart` | Extensions/Common/MinHook/src/buffer.c:154-162 | two slots in use never overlap and lie in their block behind its header |
| `Buffers.UsedCountsLive` | Extensions/Common/MinHook/src/buffer.c:171-188 | the use count of a block is the number of its slots in use |
| `Buffers.PageIsFull` | Extensions/Common/MinHook/src/buffer.c:151-169 | which with the free list makes up 127: a slot every 32 bytes of the page behind its header |
| `Buffers.TakenHolds` | Extensions/Common/MinHook/src/buffer.c:171-188 | taking the first free slot keeps all lists acyclic and disjoint from slots in use |
| `Buffers.GivenBackHolds` | Extensions/Common/MinHook/src/buffer.c:199-209 | so does giving one back |
| `Buffers.JoinedHolds` | Extensions/Common/MinHook/src/buffer.c:151-166 | so does a new block with all of its slots linked |
| `Buffers.ReleasedHolds` | Extensions/Common/MinHook/src/buffer.c:211-220 | so does unlinking a block without slots in use |
| `Buffers.Allocator.AllocateBuffer` | Extensions/Common/MinHook/src/buffer.c:171-188 | a slot that was not in use, or null only if the system gives no page |
| `Buffers.Allocator.FreeBuffer` | Extensions/Common/MinHook/src/buffer.c:191-228 | exactly this slot is free again, and its block is released if and only if it was the last one in use |
| `Buffers.Allocator.GetMemoryBlock` | Extensions/Common/MinHook/src/buffer.c:96-169 | a block with a free slot, an existing one if there is any |
| `Buffers.Allocator.LinkSlots` | Extensions/Common/MinHook/src/buffer.c:153-162 | the do-while loop links exactly the 127 slots behind the header |
| `HeaderRepositories.CompilesWhatItListed` | Python/buildpal/server/header_repository.py:46-120 | under any interleaving, a session that has stored what it received finds every header it listed, its own map over the shared one, with the listed checksum |
| `HeaderRepositories.StoredForGood` | Python/buildpal/server/header_repository.py:89-107 | a shared header once stored keeps checksum and content |
| `HeaderRepositories.StepHolds` | Python/buildpal/server/header_repository.py:46-120 | every atomic step of any session keeps the store right |
| `HeaderRepositories.TakeHolds` | Python/buildpal/server/header_repository.py:89-102 | the in-progress marker lets exactly one session store a header; the others keep their own copy |
| `HeaderRepositories.ComparedExactly` | Python/buildpal/server/header_repository.py:51-62 | a listed header is reported missing if and only if the store does not have it with the listed checksum |
| `HeaderRepositories.StoredIsNotAskedFor` | Python/buildpal/server/header_repository.py:46-68 | in every run a header that is stored as listed when a session opens is never asked for |
| `HeaderRepositories.MissingIsAskedFor` | Python/buildpal/server/header_repository.py:51-63 | in every run whatever is not stored as listed once all has been compared has been asked for |
| `HeaderRepositories.FirstStores` | Python/buildpal/server/header_repository.py:89-107 | in every run the first session to bring a header it was asked for is busy storing it until it is stored with the listed checksum |
| `HeaderRepositories.StoredInTwoSteps` | Python/buildpal/server/header_repository.py:100-107 | undisturbed that takes two steps, and what is stored is what was received |
| `HeaderRepositories.KeptInTwoSteps` | Python/buildpal/server/header_repository.py:101-103 | a header that was not asked for, or of which another content is stored or being stored, goes to the session's own map and leaves the store alone |
| `HeaderRepositories.NotStoredAgain` | Python/buildpal/server/header_repository.py:94-104 | a header stored meanwhile as listed is not stored again |
| `HeaderRepositories.CompleteForgets` | Python/buildpal/server/header_repository.py:109-117 | a session that is complete leaves nothing behind but what it has stored for all |
| `NaiveScan.NaivePreprocessor.Run` | Extensions/HeaderScanner/naivePreprocessor_.cpp:229-270 | terminates on any include graph; success means the result is exactly the include closure and nothing in it has a computed include; failure means every covering set has one, if the marks in the cache are right |
| `NaiveScan.NaivePreprocessor.Turn` | Extensions/HeaderScanner/naivePreprocessor_.cpp:249-266 | one step of the loop makes progress and keeps the scan's invariant |
| `NaiveScan.NaivePreprocessor.HandleInclude` | Extensions/HeaderScanner/naivePreprocessor_.cpp:328-402 | new files are visited once, from the cached list if there is one |
| `NaiveScan.NaivePreprocessor.NextInclude` | Extensions/HeaderScanner/naivePreprocessor_.cpp:107-177 | both finders hand out the file's includes in order; a list is cached only when complete |
| `NaiveScan.NaivePreprocessor.MarkComplex` | Extensions/HeaderScanner/naivePreprocessor_.cpp:261-264 | everything on the stack is marked |
| `NaiveScan.ClosureCoversPreprocessing` | Extensions/HeaderScanner/naivePreprocessor_.cpp:229-270 | the closure holds every file that conditional preprocessing would include, under any macros and to any depth |
| `NaiveScan.ClosureIsUnique` | Extensions/HeaderScanner/naivePreprocessor_.cpp:350-360 | so the result does not depend on the cache |
| `NaiveScan.ForcedMarksExactly` | Extensions/HeaderScanner/naivePreprocessor_.cpp:242-264 | whatever sources and cache, a run leaves right marks right if and only if no file but the main one itself is forced on it |
| `NaiveScan.ForcedMarks` | Extensions/HeaderScanner/naivePreprocessor_.cpp:242-264 | for any main file and any includes forced on it that break this, the scan itself, run on a set of files, leaves a mark on a file without a computed include |
| `NaiveScan.NaivePreprocessor.ScanHeaders` | Extensions/HeaderScanner/naivePreprocessor_.cpp:249-266 | success adds no mark; if the header on top has a computed include and the cache no marks, the scan fails and all that lay on the stack is marked |
| `Framing.Receive` | Python/buildpal/common/message.py:74-98 | for any messages within the limits and any cut of their bytes into chunks exactly these messages are delivered, in order, and nothing is left over |
| `Framing.MessageProtocol.DataReceived` | Python/buildpal/common/message.py:74-98 | for any bytes at all: the messages delivered and what stays pending are those of the whole stream, despite the reused buffer |
| `Framing.ParseEncodedAll` | Python/buildpal/common/message.py:29-45 | taking a stream of encoded messages apart gives the messages |
| `Framing.ParseInPieces` | Python/buildpal/common/message.py:74-98 | what is left over of one piece goes before the next |
| `Framing.ShortMessage` | Python/buildpal/common/message.py:29-32 | the bytes of a short message, written out: total length, number of parts, parts |
| `Framing.ShortPart` | Python/buildpal/common/message.py:33-35 | and of a short part: four bytes of length, low byte last, and its content |
| `Framing.BodyRoundTrip` | Python/buildpal/common/message.py:37-45 | a message's parts are read back as they were |
| `Framing.ValueBigEndian` | Python/buildpal/common/message.py:29-35 | lengths in network byte order are read back |
| `ClientFraming.ReceivedExactly` | Extensions/Client/client.cpp:136-170 | the client accepts a stream if and only if it starts with an encoding, and has the encoded message then |
| `ClientFraming.BothReadTheSame` | Extensions/Client/client.cpp:91-119 | client and servers read each other's messages |
| `ClientFraming.ToByteArray` | Extensions/Client/client.cpp:44-60 | shifting out bytes gives network byte order |
| `ClientFraming.FromByteArray` | Extensions/Client/client.cpp:69-79 | shifting in bytes reads it back without losing a bit |
| `ClientFraming.MsgSender.AddPart` | Extensions/Client/client.cpp:91-100 | total and count are kept modulo their widths |
| `ClientFraming.MsgSender.Send` | Extensions/Client/client.cpp:102-109 | what is sent is the common encoding, and the sender starts anew |
| `ClientFraming.MsgReceiver.GetMessage` | Extensions/Client/client.cpp:136-170 | accepts and splits exactly as specified |
| `MapTransfers.TransferMerges` | Extensions/MapFiles/mapFiles.cpp:372-390 | whatever maps without empty directories are handed over, in whatever order their entries are walked through, reading gives their merge |
| `MapTransfers.LastMapWins` | Extensions/MapFiles/mapFiles.cpp:619-639 | a file is found in the last map that has it |
| `MapTransfers.EmptyDirEnds` | Extensions/MapFiles/mapFiles.cpp:248-251 | a directory without entries ends the transfer: what follows it is lost |
| `MapTransfers.ArrivesExactly` | Extensions/MapFiles/mapFiles.cpp:240-363 | for any map and any walk through it: what is read is the map that was written if and only if it has no empty directory |
| `MapTransfers.DeliversExactly` | Extensions/MapFiles/mapFiles.cpp:372-390 | a map and whatever maps without empty directories follow it always arrive merged if and only if it has no empty directory itself |
| `MapTransfers.FollowersAreLost` | Extensions/MapFiles/mapFiles.cpp:248-251 | after a map with an empty directory every file that only the following maps have is lost, whatever these are |
| `MapTransfers.LostFile` | Extensions/MapFiles/mapFiles.cpp:248-251 | two maps of which the second has a file that is not found after the transfer (concrete input) |
| `MapTransfers.FileMapping.AddFile` | Extensions/MapFiles/mapFiles.cpp:25-34 | maps built by adding files never have an empty directory |
| `MapTransfers.FileMapping.RemoveFile` | Extensions/MapFiles/mapFiles.cpp:36-40 | removing a directory's last file, or a file of an unknown directory, leaves an empty one |
| `MapTransfers.Initialize` | Extensions/MapFiles/mapFiles.cpp:619-639 | the reading loop takes exactly what the specification says from any bytes |
| `MapTransfers.WriteDirectory` | Extensions/MapFiles/mapFiles.cpp:298-353 | what is written for a directory and its files |
| `MapTransfers.KnownDirectory` | Extensions/MapFiles/mapFiles.cpp:298-353 | the bytes of a directory with one file, written out |
| `Checksums.BscAdler32` | Extensions/HeaderScanner/contentEntry_.cpp:28-54 | for every length and either reading of `char`, the blocked loops compute the sums that are reduced before every 5552nd byte in 32-bit arithmetic; without a byte above 127, or with unsigned `char`, that is the checksum of section 2.2 of RFC 1950 |
| `Checksums.RawSumsAgree` | Extensions/HeaderScanner/contentEntry_.cpp:28-54 | bytes read as in the definition give its sums modulo 65521, and nothing overflows |
| `Checksums.NoOverflow` | Extensions/HeaderScanner/contentEntry_.cpp:33-40 | no 32-bit sum overflows within a block after a reduction |
| `Checksums.BlockIsLongest` | Extensions/HeaderScanner/contentEntry_.cpp:18 | and 5552 bytes is the longest block for which that is so |
| `Checksums.SignedAgrees` | Extensions/HeaderScanner/contentEntry_.cpp:21 | where `char` is signed the checksum agrees with the definition at every prefix of a file if and only if no byte is above 127 |
| `Checksums.SignedDiffers` | Extensions/HeaderScanner/contentEntry_.cpp:21 | the checksum of a one-byte file that differs from the definition's (concrete input) |
| `Checksums.KnownChecksum` | Extensions/HeaderScanner/contentEntry_.cpp:17-54 | the checksum of the word Wikipedia is 0x11E60398 |
| `Checksums.AdlerClosed` | Extensions/HeaderScanner/contentEntry_.cpp:17-54 | the checksum in closed form: the sum of the bytes and the sum of their prefix sums, modulo 65521 |
| `CompilerSlots.ProcessRunner.Resume` | Python/buildpal/server/runner.py:478-485 | a coroutine starts exactly if a slot is free and waits otherwise; the limit is kept and the event is set only with a slot free |
| `CompilerSlots.ProcessRunner.Finish` | Python/buildpal/server/runner.py:494-497 | every waiting coroutine is woken when a slot is freed, so none waits while one is free |

## Left out

Header cache

- Lexing and macro expansion by Clang: directives are given, and every macro a condition asks for is reported in order.
- ConsistentKeys.KeysAreConsistent: a file with a conditional that is not steady may still have consistent paths, if another condition keeps the two states apart; exactness is proved conditional by conditional.
- UnsteadyConditions.SafeExactlyIfSteady: speaks of files of two items and of conditionals whose inner conditionals are settled.
- UnsteadyConditions.ReadsSafeExactlyIfDecided: speaks of files of one item, for the same reason: what surrounds a conditional may hide what it does.
- HeaderTrackers.HeaderTracker.LeaveHeader: the handlers are tied to the steps of the specification one by one and not composed into a whole scan, which the preprocessor drives.
- The controlling macro of an include guard that Clang recognises (`headerSkipped` with a guard instead of a marker): only the pragma-once marker leads to a skip here.
- Include resolution, search paths and changing contents: each include has one fixed target, as the constant search path key of the cache assumes.
- Locations, directories and spellings of headers: a header is identified by its file.
- Entries that are still referenced when they are evicted: an entry is a value, so a context keeps what it has.
- HeaderCaches.Cache.FindEntry: works on a finite map from paths to entries; `CacheTrees` shows that the tree is such a map, and the two are not joined on the heap.
- Locking in `Cache` and `ContentCache`, and sharing between threads.

Task race

- Self-destruct timers and `TIMED_OUT`, failing connections, nodes that disappear under a winner, `cannot_distribute` and compilation on the client.
- SessionProgress.NobodyIsStuck: a server session whose manager has given it up because of a lost node is not followed further.
- Contents of messages apart from what decides control flow.
- SessionObjects.ServerSession.GotDataFromServer: one result file stands for the several that are received.
- Choices that depend on timing (the best node, which tasks are worth stealing): any choice is allowed, so what is proved holds for the code's.
- NodeManagers.NodeManager.FindWork: the candidates for stealing are given in the order the nested loops try them.
- What `postprocess` does with the results, linking, and everything reported to the database or the user interface; of `all_sessions_done` the set of tasks it has been called for is modelled, not the insertion.

Shared state

- Flyweights.StepHolds: atomic operations are sequentially consistent and counters unbounded; self-assignment and move-assignment are excluded, and a copied handle lives while it is copied.
- Flyweights as objects: the steps interleave between threads, so they are transitions of a value.
- HeaderRepositories.StepHolds: one client machine, checksums as any function of content, file maps updated atomically, and a manager that sends what was reported missing with the content it listed.
- CompilerSlots.ProcessRunner.Resume: coroutines are resumed one at a time, as an event loop does.

Hooks

- Trampolines.RunsAlike: assumes that moved jumps inside the overwritten bytes lead to instruction boundaries, those that lead back over instructions that keep their total length, that returns leave, and that the moved instructions jump neither indirectly into those bytes nor into the slot; addresses stay within the address space.
- HookableCode.HookableExactly: for decoders by which no call is shorter than five bytes and no jump shorter than two, as in every x86 encoding; with others the 32 bytes of a slot could run out.
- The 64-bit build, the relay function, decoding tables and instruction prefixes that change an instruction's length when it is rewritten.
- Freezing threads and moving their instruction pointers.
- Hooks.HookTable.CreateHook: patches must not overlap; nothing in the code checks that.
- The search for an address for a new block: the system gives one or none.
- Initialising and uninitialising the library, and the spin lock around every call.

Closure, codecs, checksum

- NaiveScan.NaivePreprocessor.Run: includes are resolved beforehand, forced ones as they are met; file changes that invalidate cached lists are not modelled.
- NaiveScan.NaivePreprocessor.Run: failure is tied to a computed include only if the marks in the cache are right, which `ForcedMarks` shows can fail.
- ClientFraming.MsgReceiver.GetMessage: the running offset is unbounded, as good as it is in a 64-bit client; where `size_t` has 32 bits it wraps on a part length close to the limit.
- Framing.MessageProtocol.DataReceived: after a malformed message nothing is said about the object, the exception having left it behind.
- Pickling, compression and the transport itself.
- MapTransfers.TransferMerges: maps without empty directories (`DeliversExactly` says why); names and counts within the sizes the writer asserts; the reader's assertion that a directory's name is not empty is left out.
- Case folding and decomposition of paths in file maps.
- API hooks, process creation, the beacon, the console and graphical user interfaces, argument parsing and build scripts.
