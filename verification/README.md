# BreakPilot: a verified model of its protocols

BreakPilot lets several agents and IDEs drive one debugger. Most of it is plumbing; what is hard is a handful of small
protocols and algorithms whose correctness is a matter of whole runs or whole structures. This project models those in
Dafny, in the form the source gives them (a class with fields where the source mutates an object, a loop where it loops,
functions where it computes), and proves what they are for.

`dafny verify dfyconfig.toml` checks everything. One module per component:

| file | component |
|---|---|
| `Basics.dfy` | options, the order on source paths, decimal numbers, strings of two parts |
| `BreakpointManager.dfy` | the ordered store of breakpoints and its whole-source replacement |
| `BreakpointReconciler.dfy` | one locked `update` as a transaction against an adapter that may fail at any call |
| `UpdateMeaning.dfy` | what an update is asked for, sends, stores and reports, in the patch's own terms |
| `BreakpointTransactions.dfy` | `withTemporaryBreakpoint`, and the reconciler object |
| `SourceLocks.dfy` | the per-source promise chains |
| `LockQueues.dfy` | the queues those chains show, and why sorted locking cannot deadlock |
| `ReconcilerWorld.dfy`, `ReconcilerRuns.dfy` | all interleavings of concurrent reconciler calls between awaits |
| `ReconcilerAnswers.dfy`, `TemporaryAnswers.dfy` | what each call of such an interleaving answers and leaves behind |
| `DapSession.dfy` | stops, terminations, ordinary waiters and causal waiters |
| `RunToLine.dfy` | `runToLine` over that session |
| `IdeClientRegistry.dfy` | feature negotiation and the hub's registry of IDEs and sessions |
| `RegistryHistory.dfy` | which records the registry keeps and what they say, told from its operations |
| `PauseEpochs.dfy` | the extension's tracker, the channel and the hub together |
| `Json.dfy`, `ToolInputValidator.dfy`, `SchemaInterpreter.dfy` | the JSON-Schema interpreter |
| `SchemaMeaning.dfy` | what acceptance, issues and defaults mean, keyword by keyword |
| `VariableSerializer.dfy` | bounded unfolding of a cyclic variable graph |
| `DapFraming.dfy`, `WebSocketFrames.dfy` | the two wire codecs |
| `FramingMeaning.dfy`, `WebSocketMeaning.dfy` | what they make of any bytes, in the protocols' own terms |
| `RuntimeEventBuffer.dfy` | the cursor-addressed event ring |
| `EvidenceSanitizer.dfy` | renumbering of session-specific values |
| `SanitizerMeaning.dfy` | what the sanitizer lets through and what becomes of each value |
| `BridgeEventDecoder.dfy` | the budgeted copy of bridge messages |

The usual shape: a step of the component is a function on values; the class beside it performs the same step on fields
and is proved equal to the function; lemmas over the function, and over runs of it, state the property. The modules named
`...Meaning` and `RegistryHistory` say once more, with literal values and without the functions they are about, what an
operation gives for every input.

## Where the code does not do what it is meant to

Six properties hold only under a condition. Each is proved exactly, with the case that breaks it.

- A temporary breakpoint can stay on the adapter without the cleanup error and without a trace in the local list when the
  source list holds a record with an empty id: recording the failure then throws the store's complaint about the id
  instead. No operation of the repository stores such a record: `DebugSessionManager` (src/sessions/DebugSessionManager.ts:1154)
  passes no id and ids are generated (src/utils/ids.ts:15-17); only a direct call of the public `BreakpointManager.add` with
  an empty id does. `Transactions.TemporarySafeIffNoEmptyId` makes this an equivalence.
- A debug session that ends and begins again under its id on one bridge connection starts over at epoch 0 while the hub
  keeps a later epoch, so the hub shows what it was told last about the old session until the new session's epoch has passed
  it. `PauseEpochs.BeginAgreesIffClean` says exactly when a begin is safe, by something the tracker itself could check;
  `PauseEpochs.HubAgreesOnceOvertaken` says exactly, over every run, how long the disagreement lasts otherwise.
- Framing of the Debug Adapter Protocol depends on chunking when a payload that cannot be parsed is followed by something
  complete: the parse error leaves the reader's loop early. `DapFraming.ChunkIndependentIffNothingBehindThrow`.
- A WebSocket frame whose header has arrived without its payload loses that header. `WebSocketFrames.CutFrameLosesHeader`
  says what is decoded instead, `WebSocketFrames.CutFrameDecodesIff` when an unmasked frame survives.
- Sessions of two clients can share a registry entry when one client id is the other, a colon and more, which generated
  ids never are. `IdeRegistry.KeysCollideIff`, `IdeRegistry.KeysAreUnambiguous`.
- A sanitized value can coincide with a literal that was already spelled like a token.
  `EvidenceSanitizer.ScalarsCollideIff`.

In the schema interpreter the fixpoint of default filling holds exactly when filling keeps enumerated values enumerated:
`ToolInputValidator.FillingSettlesIffEnumsKept`, with `ToolInputValidator.ObjectEnumerationsDoNotSettle` as the input that
breaks it.

## Model

| member | source | states |
|---|---|---|
| Breakpoints.ReplacementIsExact | src/sessions/BreakpointManager.ts:112-144 | replacing sources installs exactly the given lists in their order and leaves every other source's list alone |
| Breakpoints.ReplacementKeepsIdsUnique | src/sessions/BreakpointManager.ts:112-144 | an admitted replacement keeps ids unique over the session |
| Breakpoints.PutAppends | src/sessions/BreakpointManager.ts:129-143 | setting an id that is no longer present appends it, so delete-then-set keeps insertion order |
| Breakpoints.BreakpointManager.ListSource | src/sessions/BreakpointManager.ts:97-106 | the loop returns the source's records in insertion order |
| Breakpoints.BreakpointManager.PrepareSourceReplacements | src/sessions/BreakpointManager.ts:230-256 | replacements are refused exactly for repeated sources, empty ids or repeated ids |
| Breakpoints.BreakpointManager.ReplaceSources | src/sessions/BreakpointManager.ts:112-144 | all sources are replaced or nothing changes, and which of the two is decided by admissibility alone |
| Reconciler.NoDifferenceMeansEqual | src/sessions/BreakpointReconciler.ts:385-456 | no field is reported changed exactly when the patched record equals the record, which is what makes a no-op patch skip the adapter |
| Reconciler.ApplyPatch | src/sessions/BreakpointReconciler.ts:385-444 | editing a clone field by field gives the patched record, and the reported fields are exactly those that differ, in order |
| Reconciler.AffectedSourcesAreSorted | src/sessions/BreakpointReconciler.ts:569-573 | an update's sources are the old and the new one, sorted, without duplicates |
| Reconciler.DesiredMovesOnlyTheTarget | src/sessions/BreakpointReconciler.ts:346-383 | per source, the desired list keeps every other id in order and holds the target exactly in the requested source |
| Reconciler.UpdateConservesIds | src/sessions/BreakpointReconciler.ts:346-383 | over the affected sources the desired lists hold exactly the original ids, each in one list |
| Reconciler.ProjectAgrees | src/sessions/BreakpointReconciler.ts:458-471 | evidence changes only line, column and evidence fields of the record at its position |
| Reconciler.ApplyFromEffect | src/sessions/BreakpointReconciler.ts:281-290 | sending the desired lists succeeds exactly when every remaining reply acknowledges, and then the adapter holds them all |
| Reconciler.RestoreFromEffect | src/sessions/BreakpointReconciler.ts:473-487 | rollback tries every source and succeeds exactly when every reply acknowledges, and then every original list is back |
| Reconciler.CommitOfAcknowledged | src/sessions/BreakpointReconciler.ts:292-299 | a fully acknowledged update is refused by the store exactly when an affected source holds an empty id |
| Reconciler.UpdateEndsInOneOfThreeWays | src/sessions/BreakpointReconciler.ts:260-344 | for every adapter behaviour: no-op without a call, or applied everywhere, or rolled back with the local store unchanged, or local store unchanged and indeterminate; each exactly when; the local store is the original at every adapter call |
| Reconciler.UpdateConservesEveryOtherBreakpoint | src/sessions/BreakpointReconciler.ts:260-344 | whatever the adapter does, every source keeps every id but the target's in order, and the target is in exactly one source |
| UpdateMeaning.UpdateDoesWhatIsAsked | src/sessions/BreakpointReconciler.ts:260-471 | for every adapter behaviour an update is about the one record its patch asks for (given fields as given, absent ones kept, a cleared text or column absent); it answers unchanged, without a call, exactly when every given field has its value already; otherwise the adapter is sent the source's list with that record in the target's place, cut out or at the end, lists are put back only after that, and an applied update stores that record with what the reply for its position states and changes no other field |
| UpdateMeaning.OneIsAsked | src/sessions/BreakpointReconciler.ts:385-444 | a patch asks for exactly one record |
| UpdateMeaning.DifferenceIsReported | src/sessions/BreakpointReconciler.ts:446-456 | the reported fields are exactly the seven patchable fields that differ, each once, in the fixed order |
| Transactions.TemporaryNeverLeaksSilently | src/sessions/BreakpointReconciler.ts:134-211 | without empty ids, for every adapter and callback outcome: the original list is back on both sides, or the cleanup error is raised and the local list still holds the temporary record |
| Transactions.TemporaryCalls | src/sessions/BreakpointReconciler.ts:146-184 | a caller whose precondition fails under the lock makes no adapter call and changes nothing; otherwise there are exactly two calls, the source's list with the temporary record at its end and then the list as it was |
| Transactions.TemporaryLeaksWithEmptyId | src/sessions/BreakpointReconciler.ts:172-184 | with an empty id in the source list an adapter that applies the install without answering keeps the temporary breakpoint, the local list has no trace of it, and the caller gets the store's own error rather than the cleanup error |
| Transactions.TemporarySafeIffNoEmptyId | src/sessions/BreakpointReconciler.ts:134-211 | the temporary record is never left on the adapter without the cleanup error and a local trace, whatever adapter and callback do, exactly when no record of the source has an empty id |
| Transactions.BreakpointReconciler.UpdateLocked | src/sessions/BreakpointReconciler.ts:260-344 | the imperative update (clone, send, commit, roll back) ends in the state and answer of the transaction |
| Transactions.BreakpointReconciler.RestoreOriginalSources | src/sessions/BreakpointReconciler.ts:473-487 | the rollback loop goes on after a failed call and reports whether all succeeded |
| Transactions.BreakpointReconciler.WithTemporaryBreakpoint | src/sessions/BreakpointReconciler.ts:117-211 | the imperative install, callback and restore end in the state and answer of the temporary transaction |
| SourceLocks.MayResumeIffFirst | src/sessions/BreakpointReconciler.ts:605-617 | a promise chain lets a ticket through exactly when every earlier ticket of its source has been released |
| SourceLocks.ChainIsAQueue | src/sessions/BreakpointReconciler.ts:598-629 | per source the chain is a queue: acquire appends, a grant is to the head, release drops the head, other sources are untouched |
| SourceLocks.LocksAreFairAndExclusive | src/sessions/BreakpointReconciler.ts:598-629 | over every run: one holder per source, grants in arrival order, and the map entry is absent exactly when nobody holds or waits |
| SourceLocks.SourceLockMap.Acquire | src/sessions/BreakpointReconciler.ts:606-614 | acquiring replaces the map entry by the new tail of the chain |
| SourceLocks.SourceLockMap.ReleaseTicket | src/sessions/BreakpointReconciler.ts:615-618 | releasing resolves the ticket and deletes the entry only if it is still this ticket's |
| LockQueues.NoWaitCycle | src/sessions/BreakpointReconciler.ts:598-617 | because locks are taken in sorted order, no chain of blocked calls comes back to where it started |
| LockQueues.SomeHolderIsNotBlocked | src/sessions/BreakpointReconciler.ts:598-617 | from any blocked call the wait-for graph leads to a holder that is not blocked |
| ReconcilerRuns.StepKeepsInv | src/sessions/BreakpointReconciler.ts:82-344 | every step of every concurrent call keeps the lock and the data invariant |
| ReconcilerRuns.UnlockedSourcesAgree | src/sessions/BreakpointReconciler.ts:82-344 | over every run of concurrent updates and temporary breakpoints, a source that is unlocked and not indeterminate has the same ids, order and fields on adapter and local side |
| ReconcilerRuns.RunsAreExclusiveAndDeadlockFree | src/sessions/BreakpointReconciler.ts:82-132 | over every run: one holder per source, no empty queue entry, no wait cycle, and while a call is blocked some holder is not |
| ReconcilerRuns.StepTouchesOnlyOwnedSources | src/sessions/BreakpointReconciler.ts:117-344 | a step changes adapter or local list of no source but those its call holds |
| ReconcilerRuns.NoCommitBeforeLastReply | src/sessions/BreakpointReconciler.ts:281-299 | the local store does not change before the last acknowledgement of an update |
| ReconcilerRuns.RunsFollowTheChains | src/sessions/BreakpointReconciler.ts:598-629 | over every run the queues are what some run of the promise chains shows, ticket by ticket, and the chain lets a waiting ticket through exactly when its call heads the queue |
| ReconcilerAnswers.FinishedUpdatesEndAsIfAlone | src/sessions/BreakpointReconciler.ts:82-344 | in every interleaving each finished call has an answer; a finished update answered, and left the store and its sources, as it does alone with the replies it had, nobody having touched its sources since it held its locks |
| ReconcilerAnswers.FinishedUpdatesDoWhatIsAsked | src/sessions/BreakpointReconciler.ts:82-344 | in every interleaving a finished update was about the one record its patch asks for: unchanged, with no reply awaited, exactly when every given field had its value already, and when applied, that record with what a reply states, with the differing fields reported in order |
| TemporaryAnswers.FinishedTemporariesNeverLeakSilently | src/sessions/BreakpointReconciler.ts:117-211 | in every interleaving with fresh ids, a finished temporary breakpoint in a source without empty ids is gone from both sides or reported by the cleanup error and still listed, and its two replies and its callback decide which |
| TemporaryAnswers.GrantedIfApplicable | src/sessions/BreakpointReconciler.ts:157-160 | once at the head of its queue a temporary breakpoint is refused exactly when its caller may no longer apply it, and the grant touches neither side |
| TemporaryAnswers.StepPreserves | src/sessions/BreakpointReconciler.ts:117-344 | a step brings no breakpoint id to a source but that of its own temporary breakpoint, other than by moving it between sources it holds |
| DapSessions.FreshWaitsAreCausal | src/dap/DapSession.ts:389-433 | over every run: a registered causal wait on a live session has missed nothing, each wait is settled once, and a settled stop or termination lies beyond its boundary |
| DapSessions.OrdinaryWaitsDeliverHistory | src/dap/DapSession.ts:131-143 | until disposal, what ordinary waits were given followed by the queue is the history of stops, and queue and waiters are never both nonempty |
| DapSessions.HistoryIsTheStops | src/dap/DapSession.ts:131-143 | that history is exactly the stop events that arrived, in order, each once |
| DapSessions.PausedByEvents | src/dap/DapSession.ts:131-225 | over every run a session is paused exactly when a stop reached it and no continuation, marking as running, termination or disposal followed |
| DapSessions.TerminatedByEvents | src/dap/DapSession.ts:148-179 | over every run a session is terminated exactly when a terminal event reached it before disposal, and its terminal sequence is the number of those |
| DapSessions.WaitLearnsAtOnce | src/dap/DapSession.ts:389-433 | a causal wait learns at once of a termination beyond its boundary, before anything else; then a disposed session refuses it; then it learns of the latest stop beyond its boundary; otherwise it is registered |
| DapSessions.WaitsAreAccounted | src/dap/DapSession.ts:389-433 | over every run each causal wait keeps the boundary it was started with, times out only by its own timer and is refused only by a disposal |
| DapSessions.StepKeepsInv | src/dap/DapSession.ts:115-225 | every event, wait, timeout and disposal keeps the session invariant |
| DapSessions.SettleDistinct | src/dap/DapSession.ts:611-644 | settling waiters repeats no id and loses none: each waiter is either still waiting or settled with its own boundary |
| DapSessions.DapSession.SettleFreshWaiters | src/dap/DapSession.ts:611-644 | walking a copy of the waiters and removing each one in place settles exactly those the observation lies beyond |
| DapSessions.DapSession.HandleStopped | src/dap/DapSession.ts:131-143 | the stop handler records, hands over or queues the stop, settles waiters and keeps the invariant |
| DapSessions.DapSession.HandleTerminal | src/dap/DapSession.ts:148-179 | the termination handlers advance the terminal sequence, settle waiters and keep the invariant |
| DapSessions.DapSession.WaitForBreakpoint | src/dap/DapSession.ts:359-387 | a queued stop is taken first; otherwise the caller is registered |
| DapSessions.DapSession.WaitForStopOrTerminationAfter | src/dap/DapSession.ts:396-433 | a causal wait is settled at once from what lies beyond its boundary, or registered with nothing missed |
| DapSessions.DapSession.DisposeClient | src/dap/DapSession.ts:202-225 | disposal settles every waiter and empties queue and latest stop |
| RunToLine.TargetReachedIsCausal | src/runtime/providers/DapRuntimeProvider.ts:456-622 | for every interleaving, a paused answer rests on a stop observed after the run's own boundary in a session that had not terminated, and the target counts as reached exactly when the stack evidence names its file, its line and, if it has one, its column |
| RunToLine.AnswerComesFromReplies | src/runtime/providers/DapRuntimeProvider.ts:456-622 | the target judged and the evidence shown are those that replies of this very run brought |
| RunToLine.NativeStopIsReported | src/runtime/providers/DapRuntimeProvider.ts:456-622 | a native run whose wait was settled by a stop answers paused with that stop's sequence, its own boundary, target and evidence, whatever happens in between, once it has resumed and its stack is answered in a session that has not terminated |
| RunToLine.FallbackStopIsReported | src/runtime/providers/DapRuntimeProvider.ts:456-622 | the same through the fallback path, once the temporary breakpoint has been removed |
| RunToLine.EndsAreTrue | src/runtime/providers/DapRuntimeProvider.ts:456-622 | over every run, terminated is answered only for a session that had terminated, and timeout only for one that had not, after a wait ran out |
| RunToLine.NativeEndIsReported | src/runtime/providers/DapRuntimeProvider.ts:456-622 | a native run whose wait ended without a stop answers terminated in a terminated session, timeout when the wait ran out, and a failure otherwise |
| RunToLine.FallbackEndIsReported | src/runtime/providers/DapRuntimeProvider.ts:456-622 | the fallback path answers the same once its temporary breakpoint is removed, and a failure when it is not |
| RunToLine.NoPausedAnswerAfterTermination | src/runtime/providers/DapRuntimeProvider.ts:589-622 | once a termination has been observed, no later answer claims the session is paused |
| RunToLine.StepKeepsInv | src/runtime/providers/DapRuntimeProvider.ts:456-622 | every step of a run keeps its boundary and waiter consistent with the session |
| FeatureNegotiation.Negotiate | src/ide/DebuggerFeatureNegotiation.ts:12-27 | exactly the six features are decided, and one is on exactly when both ends speak version 2, the client offers it and the session does not refuse it |
| IdeRegistry.NegotiationIsAlwaysFresh | src/ide/IdeClientRegistry.ts:33-86 | in every reachable state each session belongs to a live client, sits under its own key, and its negotiated features equal a fresh negotiation |
| IdeRegistry.StepKeepsInv | src/ide/IdeClientRegistry.ts:33-178 | every registry operation keeps that, and revisions and epochs exist only for stored sessions |
| IdeRegistry.KeysAreUnambiguous | src/ide/IdeClientRegistry.ts:226-228 | client ids without a colon make session keys unambiguous |
| IdeRegistry.KeysCollideIff | src/ide/IdeClientRegistry.ts:226-228 | sessions of two clients can share a key exactly when one client id starts with the other followed by a colon |
| IdeRegistry.MessageIsRecordedOrIgnored | src/ide/IdeClientRegistry.ts:109-172 | a rejected message changes nothing; an accepted one is recorded under its key alone, and a version-2 epoch is beyond the one before |
| IdeRegistry.StepKeepsPromises | src/ide/IdeClientRegistry.ts:230-256 | no operation takes back a surviving session's owner, version, refusals or epoch |
| IdeRegistry.PromisesHoldForLife | src/ide/IdeClientRegistry.ts:109-172 | over a session's whole life version 2 never reverts, its epoch never falls, and a feature once refused is never negotiated on |
| IdeRegistry.AcceptedEpochsIncrease | src/ide/IdeClientRegistry.ts:135-140 | version-2 epochs accepted for one session strictly increase, whatever happens in between |
| RegistryHistory.ClientSpeaksForItself | src/ide/IdeClientRegistry.ts:33-71 | from a client's connection on, its version is the first valid one of its greeting and patches, and its features are those of its last patch that gave a map of booleans, or of the greeting |
| RegistryHistory.ConnectedIffAdded | src/ide/IdeClientRegistry.ts:33-76 | over every run a client is on record exactly when it has connected and not left since |
| RegistryHistory.TakenIffAccepted | src/ide/IdeClientRegistry.ts:109-139 | when a message is taken, with the versions and epochs spelled out |
| RegistryHistory.SessionIsToldByItsMessages | src/ide/IdeClientRegistry.ts:131-244 | over a session's life its record has the version of its first message, the state and epoch of its last, one revision for each, and each feature refused for good once refused and otherwise as last mentioned |
| RegistryHistory.StoredIffTakenAndNotEnded | src/ide/IdeClientRegistry.ts:73-182 | over every run a session is on record exactly when a message of it was taken and since then neither it was removed nor its client left or connected anew |
| IdeRegistry.IdeClientRegistry.RemoveClientSessions | src/ide/IdeClientRegistry.ts:78-86 | the loop deletes exactly that client's sessions from all three maps |
| IdeRegistry.IdeClientRegistry.RefreshNegotiatedFeatures | src/ide/IdeClientRegistry.ts:267-277 | the loop renegotiates exactly that client's sessions |
| IdeRegistry.IdeClientRegistry.Update | src/ide/IdeClientRegistry.ts:51-71 | a client's version is written once, its features only by a map of booleans, and its sessions are renegotiated |
| IdeRegistry.IdeClientRegistry.UpsertSession | src/ide/IdeClientRegistry.ts:109-172 | the chain of refusals and writes gives the specified state, and a session is returned exactly when the message was accepted |
| PauseEpochs.ActionKeepsMatch | breakpilot-vscode/src/debugger/DebugSessionTracker.ts:133-163 | what the tracker sends for an action brings the receiver, through true states only, to the session's new state and epoch |
| PauseEpochs.ReportsAreOnePerSession | breakpilot-vscode/src/debugger/DebugSessionTracker.ts:102-112 | resending everything amounts, for each session, to one report of its state |
| PauseEpochs.ReportIsAbsorbed | src/ide/IdeClientRegistry.ts:131-168 | the hub takes a report exactly when it is the first for its session or its epoch is new, and changes no other session |
| PauseEpochs.OtherClientsDoNotInterfere | src/ide/IdeClientRegistry.ts:33-86 | whatever other IDE clients do leaves this client's records alone |
| PauseEpochs.StepKeepsInv | breakpilot-vscode/src/debugger/DebugSessionTracker.ts:95-163 | connects, losses, replacements, actions, resends, other clients and deliveries all keep the agreement |
| PauseEpochs.HubAgreesWithTracker | breakpilot-vscode/src/debugger/DebugSessionTracker.ts:248-310 | over every run the hub's record of a held session is a pair it really had, never ahead of the tracker, and equal to it once nothing is in flight |
| PauseEpochs.HeldFollowsEvents | breakpilot-vscode/src/debugger/DebugSessionTracker.ts:133-163 | over every run the events decide what the tracker holds: a session is held exactly when it has begun and not ended, its state is "paused" exactly when the last pause or resume of its id since it began is a pause and "running" otherwise, and its epoch is the number of its pauses and resumes and of new bridge generations since |
| PauseEpochs.HubShowsTheEvents | breakpilot-vscode/src/debugger/DebugSessionTracker.ts:248-310 | after a clean run with nothing in flight the hub's record of a session is that state and that number, or there is none and nothing has happened since the session began |
| PauseEpochs.WhatIsReported | breakpilot-vscode/src/debugger/DebugSessionTracker.ts:133-270 | which reports an action sends, with literal states and epochs, for a session held and for one not held |
| PauseEpochs.BeginAgreesIffClean | breakpilot-vscode/src/debugger/DebugSessionTracker.ts:133-151 | beginning a session keeps the agreement exactly when, on this connection, the hub was told nothing about its id or only that it started |
| PauseEpochs.BeginningAgainDisagrees | breakpilot-vscode/src/debugger/DebugSessionTracker.ts:153-163 | after terminating and beginning an id on one connection the hub is brought to the termination, at a later epoch than the new session's |
| PauseEpochs.ActionKeepsReach | breakpilot-vscode/src/debugger/DebugSessionTracker.ts:133-163 | a receiver that holds something later than the session takes what an action sends exactly when the session's epoch has passed it |
| PauseEpochs.HubAgreesOnceOvertaken | breakpilot-vscode/src/debugger/DebugSessionTracker.ts:248-310 | over every run, begins of any kind included: the hub is brought to what it had been told when the session began, while the session's epoch is not beyond that, and to the session's own pair from then on; so the two agree exactly when nothing had been told, or it is overtaken, or it is the same |
| PauseEpochs.DebugSessionTracker.InvalidateBridgeGeneration | breakpilot-vscode/src/debugger/DebugSessionTracker.ts:95-100 | the loop advances every session's epoch by one and nothing else |
| PauseEpochs.DebugSessionTracker.ResendKnownSessionStates | breakpilot-vscode/src/debugger/DebugSessionTracker.ts:102-112 | the loop sends one report for each session, in order |
| PauseEpochs.DebugSessionTracker.MarkPaused | breakpilot-vscode/src/debugger/DebugSessionTracker.ts:191-259 | a stop enters the state, advances the epoch and is reported, once more for a breakpoint |
| PauseEpochs.DebugSessionTracker.MarkRunning | breakpilot-vscode/src/debugger/DebugSessionTracker.ts:261-270 | a resume enters the state, advances the epoch and is reported even for a session not held |
| PauseEpochs.DebugSessionTracker.Terminate | breakpilot-vscode/src/debugger/DebugSessionTracker.ts:153-163 | termination is reported at the next epoch and the session forgotten |
| PauseEpochs.DebugSessionTracker.OnConnected | breakpilot-vscode/src/extension.ts:43-47 | on connect the extension registers, advances every epoch and reports every state |
| Json.JsonEqualIsEquality | src/control/ToolInputValidator.ts:63-84 | the structural comparison is equality of JSON trees, key order aside |
| ToolInputValidator.BranchIsCloser | src/control/ToolInputValidator.ts:96-105 | following a reference and entering a branch gets strictly closer to consuming the value, which is why both checkers terminate |
| ToolInputValidator.OwnIssuesIffNotOk | src/control/ToolInputValidator.ts:446-487 | the issues pushed for a value itself are none exactly when the checks of the other checker hold |
| ToolInputValidator.CheckersAgree | src/control/ToolInputValidator.ts:428-574 | for every tree and guarded schema, validating without defaults returns the value and reports nothing exactly when the matcher accepts |
| SchemaMeaning.AcceptanceMeans | src/control/ToolInputValidator.ts:96-196 | both checkers accept exactly what the keywords say of the schema, a followed reference filling in just the keywords the schema lacks: the type by its kind of value, enumeration, lengths, bounds, required fields, every item, every named field by its own schema, every other field not banned and by the additional schema, and exactly one branch |
| SchemaMeaning.BannedFieldIsReported | src/control/ToolInputValidator.ts:515-531 | a banned field of an object is reported by its own issue at its own path and in no other way, and is left as it is |
| SchemaMeaning.WrongTypeIsReported | src/control/ToolInputValidator.ts:438-444 | a value of another type gets the type issue at its path and no other |
| SchemaMeaning.IssuesMean | src/control/ToolInputValidator.ts:428-574 | an issue is reported of a value of the right type exactly when the value breaks that keyword of the schema, or an item, a field or a filled default reports it under its own schema at its own path, or the field is banned, or not exactly one branch takes the value once its inside is done, or with defaults the one that takes it reports it |
| SchemaMeaning.DefaultsAreFilledIn | src/control/ToolInputValidator.ts:495-512 | an accepted scalar stays, a list becomes the list of what its items become, and an object has its own fields, each what it becomes under its schema, and the absent named fields with a default at that default, and no others |
| ToolInputValidator.FreeMeansUnfilled | src/control/ToolInputValidator.ts:502-512 | under a schema free of defaults, asking for defaults changes nothing |
| ToolInputValidator.FillingSettles | src/control/ToolInputValidator.ts:481-571 | an input accepted with defaults yields a value that matches without them and that a second pass returns unchanged, when filling keeps enumerated values enumerated |
| ToolInputValidator.FillingSettlesIffEnumsKept | src/control/ToolInputValidator.ts:446-571 | filling settles at a schema and all schemas below it, for every input, exactly when each enumerated value that one of them accepts is filled up to an enumerated value |
| ToolInputValidator.ScalarEnumIsKept | src/control/ToolInputValidator.ts:446-448 | enumerations of scalars, which the tool definitions have, are kept |
| ToolInputValidator.ObjectEnumerationsDoNotSettle | src/control/ToolInputValidator.ts:446-448 | an enumeration of an object next to a default is accepted and then no longer matches |
| SchemaInterpreter.ValidateNode | src/control/ToolInputValidator.ts:428-574 | the recursive loops over items, properties, unknown fields and branches compute the specified value and issues |
| SchemaInterpreter.ValidateOneOf | src/control/ToolInputValidator.ts:542-571 | trying branches in order finds whether exactly one accepts, and runs that one with defaults |
| VariableSerializer.NodeOf | src/inspection/VariableSerializer.ts:191-267 | unfolding any finite graph terminates; on success the open set is restored, on an adapter failure it is left larger |
| VariableSerializer.NodesOf | src/inspection/VariableSerializer.ts:165-189 | the same for a list of variables |
| VariableSerializer.EveryNodeIsItsTree | src/inspection/VariableSerializer.ts:165-267 | every node that is built, complete or not: children are opened exactly when reference, depth, mode, redaction and the open set allow it; then there is one for each of the first maxItems variables the adapter gave, in order, with its name, path and parent and again such a tree, and the sentinel exactly when there are more; texts, marks and counts are spelled out |
| VariableSerializer.BuiltWhenAnswered | src/inspection/VariableSerializer.ts:165-267 | when the adapter answers for every reference that its answers mention, unfolding does not fail |
| VariableSerializer.DepthIsBounded | src/inspection/VariableSerializer.ts:233-239 | no chain of children reaches below the depth limit |
| VariableSerializer.NodesAreHonest | src/inspection/VariableSerializer.ts:50-97 | truncated and incomplete go together, and a cycle is marked exactly on references open above the node |
| VariableSerializer.CompleteIsSound | src/inspection/VariableSerializer.ts:50-84 | from truthful counts, a node marked complete is the whole untruncated unfolding, every descendant complete, no cycle cut |
| VariableSerializer.UncutIsComplete | src/inspection/VariableSerializer.ts:50-84 | the converse: a tree in which nothing is cut and every reference declares its count is marked complete |
| VariableSerializer.VariableSerializer.CollectEvidence | src/inspection/VariableSerializer.ts:86-97 | the loop with its early exit finds whether a child is incomplete or unknown |
| VariableSerializer.VariableSerializer.SerializeVariableNode | src/inspection/VariableSerializer.ts:191-267 | the method that writes the shared set in place builds the specified node and leaves the specified set |
| DapFraming.ChunkIndependentIffNothingBehindThrow | src/dap/DapClient.ts:150-170 | every split into nonempty chunks gives the events and leftover of the whole stream exactly when, scanning it, every payload can be handled or nothing complete stands behind the first that cannot |
| DapFraming.HandledStreamIsChunkIndependent | src/dap/DapClient.ts:150-170 | a stream whose own payloads can all be handled is framed alike under every split, malformed headers included |
| DapFraming.FrameIsComplete | src/dap/DapClient.ts:144-148 | a frame written by `#send` is read back as its payload, whatever follows |
| DapFraming.FramesComeBackInChunks | src/dap/DapClient.ts:144-170 | framed messages come back once and in order with an empty buffer, however the bytes are cut |
| FramingMeaning.LengthMeans | src/dap/DapClient.ts:155-163 | the length of a header is the number in the first field of that name in any case, white space and then all digits; there is none exactly when no such field stands in it |
| FramingMeaning.PassReadsTheStream | src/dap/DapClient.ts:150-170 | one pass reports exactly the items of any stream in order: headers end at the first empty line, a header without a length is an error and is skipped, a payload is as long as announced, a payload that cannot be handled is the last, and what remains is not yet a whole item |
| DapFraming.DapClient.OnData | src/dap/DapClient.ts:150-170 | the reader's loop leaves the buffer and tells the listeners as specified, and throws exactly on a payload that cannot be handled |
| WebSocketFrames.UnmaskingUndoesMasking | src/ide/IdeBridgeServer.ts:95-97 | masking twice with one mask gives the payload back |
| WebSocketFrames.FramesRoundTrip | src/ide/IdeBridgeServer.ts:47-105 | whole frames, masked or not, in all three length forms, decode to their payloads in order with nothing left |
| WebSocketMeaning.DecodingMeans | src/ide/IdeBridgeServer.ts:67-105 | any bytes are whole frames of any opcode, length form and mask, in order, and a tail that does not begin with one; the decoder gives the text of each text frame, a close for each close frame, nothing for others, and the tail without as much of its header as it had stepped over |
| WebSocketMeaning.MaskingFlipsBits | src/ide/IdeBridgeServer.ts:95-97 | unmasking flips exactly the bits set in the mask's byte at the position modulo four |
| WebSocketMeaning.MostSignificantFirst | src/ide/IdeBridgeServer.ts:77-84 | extended lengths are read with the most significant byte first |
| WebSocketFrames.PartialFrameIsKeptIff | src/ide/IdeBridgeServer.ts:70-104 | an incomplete frame is kept whole for the next chunk exactly when fewer than two bytes have come |
| WebSocketFrames.CutFrameLosesHeader | src/ide/IdeBridgeServer.ts:67-105 | a frame, masked or not, cut in two decodes as if whole when the cut leaves fewer than two bytes in front or is no cut, and otherwise as the frame without the header bytes already stepped over |
| WebSocketFrames.CutFrameDecodesIff | src/ide/IdeBridgeServer.ts:67-105 | one unmasked frame cut in two decodes as if whole exactly when the cut leaves fewer than two bytes in front or is no cut |
| WebSocketFrames.MaskMayImitateFrame | src/ide/IdeBridgeServer.ts:85-104 | a masked frame may survive the loss of its header, because its mask can be spelled like frames that give the same payload |
| WebSocketFrames.EncodeText | src/ide/IdeBridgeServer.ts:47-65 | the encoder's frame decodes to its payload alone |
| WebSocketFrames.DecodeFrames | src/ide/IdeBridgeServer.ts:67-105 | the loop over offsets computes the specified messages and rest |
| RuntimeEventBuffer.NormalizeLimit | src/runtime/RuntimeEventBuffer.ts:45-49 | a limit is 50 when absent, 1 when not finite, else truncated and brought between 1 and 256 |
| RuntimeEventBuffer.NormalizeCapacity | src/runtime/RuntimeEventBuffer.ts:51-54 | a capacity is 256 when not finite, else truncated and brought between 1 and 256 |
| RuntimeEventBuffer.PageIsNextRun | src/runtime/RuntimeEventBuffer.ts:192-214 | a page is the next unbroken run behind its cursor, skipping only what was dropped, and says truly whether more is left and what the oldest event is |
| RuntimeEventBuffer.PageBeyondLatest | src/runtime/RuntimeEventBuffer.ts:192-214 | a cursor beyond the latest event gets an empty page and stays where it is |
| RuntimeEventBuffer.EventsAreConserved | src/runtime/RuntimeEventBuffer.ts:163-214 | over every interleaving, for a reader that follows its cursor and for all reads without a cursor taken together, delivered plus dropped is the cursor; items increase strictly and are the very events appended |
| RuntimeEventBuffer.BufferIsTheLatestRun | src/runtime/RuntimeEventBuffer.ts:163-190 | the buffer is always the unbroken end of everything appended, as long as its capacity allows, and the next number follows the last |
| RuntimeEventBuffer.DrainingGivesAllThatIsRetained | src/runtime/RuntimeEventBuffer.ts:192-214 | reading page after page ends with nothing more, having given every retained event behind the cursor, whatever the page size |
| RuntimeEventBuffer.EventBuffer.Append | src/runtime/RuntimeEventBuffer.ts:163-190 | append numbers, pushes and shifts as specified, and refuses unknown kinds |
| RuntimeEventBuffer.EventBuffer.Read | src/runtime/RuntimeEventBuffer.ts:192-214 | read gives the specified page and moves the default cursor only without a cursor argument |
| EvidenceSanitizer.TokensAreDistinct | src/evidence/DifferentialEvidenceSanitizer.ts:47-56 | token texts of different categories or numbers differ |
| EvidenceSanitizer.ComesOutStable | src/evidence/DifferentialEvidenceSanitizer.ts:63-95 | whatever comes out of the sanitizer goes through it unchanged and assigns no token |
| EvidenceSanitizer.SanitizingIsIdempotent | src/evidence/DifferentialEvidenceSanitizer.ts:97-139 | a sanitized transcript is sanitized to itself |
| SanitizerMeaning.LetThroughIffPermitted | src/evidence/DifferentialEvidenceSanitizer.ts:63-95 | a value is let through exactly when each field is reviewed or under a free key and not sensitive, and each string is a token, becomes one by its key or form, or is not of high entropy, whatever tokens there are |
| SanitizerMeaning.ComesOutCleaned | src/evidence/DifferentialEvidenceSanitizer.ts:63-95 | what comes out is the same tree with the same keys; numbers become port, pid and id tokens by their keys, strings timestamp, id and path tokens, in that order of precedence, numbered as given out, and everything else is kept |
| SanitizerMeaning.TranscriptMeans | src/evidence/DifferentialEvidenceSanitizer.ts:97-139 | a transcript is let through exactly when every entry is well formed and permitted, and every entry comes out cleaned under the final numbers |
| EvidenceSanitizer.TokensFollowFirstOccurrence | src/evidence/DifferentialEvidenceSanitizer.ts:97-139 | over a whole transcript tokens are numbered per category by first occurrence in it; every part that comes out is the one that went in with each tokenised value replaced under the final numbering, everything else kept; tokens are shared exactly by equal values of one category |
| EvidenceSanitizer.TranscriptIsItsParts | src/evidence/DifferentialEvidenceSanitizer.ts:97-139 | sanitizing a transcript is sanitizing timestamp, step id and payload of every entry in order through one state |
| EvidenceSanitizer.ScalarsCollideIff | src/evidence/DifferentialEvidenceSanitizer.ts:71-77 | under a transcript's numbering a tokenised value of it and another value come out the same exactly when they are the same value of one category, or the other is a literal spelled like that token |
| EvidenceSanitizer.RenamedTranscriptsSanitizeAlike | src/evidence/DifferentialEvidenceSanitizer.ts:97-139 | transcripts that differ by an injective renaming of tokenised values sanitize to the same entries |
| EvidenceSanitizer.Sanitizer.Token | src/evidence/DifferentialEvidenceSanitizer.ts:47-56 | a value keeps the token it has, and a new one takes its category's next number |
| EvidenceSanitizer.Sanitizer.SanitizeValue | src/evidence/DifferentialEvidenceSanitizer.ts:63-95 | the walk that fills the maps in place gives the specified value and tokens |
| BridgeEventDecoder.SnapshotIsExact | src/ide/BridgeEventDecoder.ts:164-243 | a tree is accepted exactly when its numbers are finite, its shape is within the limits and its totals within both budgets; the copy is the tree and each budget drops by the total |
| BridgeEventDecoder.VerdictIsHonest | src/ide/BridgeEventDecoder.ts:164-243 | malformed is answered only with a number that is not finite, a limit only with a limit exceeded |
| BridgeEventDecoder.RecordArrivesUnchanged | src/ide/BridgeEventDecoder.ts:59-79 | a record within the limits arrives as it was sent, and nothing else arrives |
| BridgeEventDecoder.Snapshotter.SnapshotValue | src/ide/BridgeEventDecoder.ts:164-190 | the recursive loops that decrement the shared budget give the specified copy, budget or failure |

## Left out

- Unlocked writers: `DebugSessionManager` sets and removes breakpoints without the reconciler's locks
  (src/sessions/DebugSessionManager.ts:1154-1171 and 1304-1311), so the run theorems are about runs made of reconciler calls.
- The retry loop of `update` (src/sessions/BreakpointReconciler.ts:87-105) is modelled, with re-reading and re-locking;
  that it ends is not claimed, because the code does not bound it.
- TemporaryAnswers.FinishedTemporariesNeverLeakSilently: takes the generated ids of temporary breakpoints to be nonempty and
  new in the run, as they are by their uuid.
- Adapter evidence is a list of the right length or a failure; how a raw response is checked field by field is not modelled.
- Source paths are already resolved, and strings compare by character; where JavaScript's UTF-16 order differs, only the
  choice of a fixed lock order matters.
- A breakpoint record carries the fields a patch or evidence can change, its id, file and owner; the session id and the
  project-wide breakpoint lists of `BreakpointManager` are left out, and so are `add` and `updateVerification`.
- `DapSession` requests, launch sequence and configuration; only the stop and termination protocol is modelled, at the
  granularity of event-loop turns, with timers as steps that may happen at any time.
- `runToLine` takes positions, goto targets and stack answers as given; choosing a goto target among candidates is not modelled.
- Text of registry records (names, frames, stop details, timestamps, workspace roots): only identity, state, protocol and
  epochs are kept. Object keys of a client patch other than the debugger fields are left out.
- The bridge's workspace check is taken to accept the IDE; a connection rejected by it is not modelled.
- The features a session report carries are arbitrary in `PauseEpochs`; origin request ids and debug events without state
  are left out. The IDEA tracker is left out: its stop message carries no epoch.
- Issues of the validator are a set, with paths and keywords but no message texts; their order is not modelled.
  `$ref` pointers are already reduced to tokens.
- ToolInputValidator.Node: with defaults on, it covers schemas whose defaults are scalars, which keeps filling finite; an
  object default of a recursive definition makes the source recurse without end.
- Prototypes, accessors, symbols, proxies, shared and cyclic JavaScript objects in the validator and the decoder: values are trees.
- The map form `serializeVariables`, type and kind labels, and mutability hints of `VariableSerializer`. An adapter answers
  the same for one reference during one serialization.
- JSON text, UTF-8 and lengths beyond exact floating point: payloads are bytes, lengths are naturals. White space in a
  header is ASCII.
- Request and response correlation in `DapClient`.
- The regular expressions and key sets of the sanitizer are arbitrary predicates, and number formatting an arbitrary
  function; the token pattern is modelled as written. A token's key is the pair of category and value, which the
  concatenated key of the source determines because no category name contains a colon.
- Event metadata normalisation in `RuntimeEventBuffer`; an event's body is opaque.
- Process control, HTTP, MCP, command line, policy loading, user interface, language adapters and audit logging.
