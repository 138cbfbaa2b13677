# Coding Kid runtime: verified model

A Dafny 4.11 model of the living runtime of Coding Kid, a terminal coding agent, and proofs about it.
`dafny verify dfyconfig.toml` checks the whole project. Nothing here was executed against the program.

The modules follow the program's components.

| module | component |
|---|---|
| `SessionLog`, `SessionRecords` | the append-only, hash-chained JSONL log of one session |
| `SessionCodec` | one encoder, reader and hash that meet every assumption the log proofs make |
| `SessionStore` | one writer: log line first, index row second, a fault at any byte, retry |
| `SessionTears` | several processes at the level of bytes: torn writes, retries, resumes and rebuilds |
| `SessionProtocol` | several processes: leases, expiry, index rebuild, resume, append, close, deletion |
| `SessionReplay` | rebuilding the live state from the records |
| `Checkpoints` | stage snapshots: full, and copy-on-first-touch; conflicts and rollback |
| `Conversation` | the transcript and the bounded active view |
| `Compaction` | token estimates, greedy retention, installing a summary |
| `TurnTools`, `TurnLoop` | one turn: tool calls of a round, budgets, recoveries, the stall latch, cancellation |
| `PatchText`, `PatchParser`, `PatchHunks`, `PatchCommit` | the patch envelope, hunks on one file, several files at once |
| `OutputBuffers` | bounded output of background and foreground commands |
| `Registry`, `Tasks`, `Agents` | bounded record tables and the lifecycles of background tasks and child Agents |
| `Worktrees` | isolated workspaces and the stage around an integration |

Objects the program updates in place are classes (`Handle`, `Store`, `ConversationState`, `ContextManager`,
`CheckpointManager`, `RunningTurn`, `Project`, `OutputBytes`, `HeadTailBytes`, `BackgroundTaskManager`,
`AgentManager`, `WorktreeManager`), and its loops are methods with loops. Each such method is proved equal to
a function of the old state; the main results are lemmas about those functions over all inputs, runs and
interleavings. What the program gets from outside is a parameter: the canonical encoder, the JSON reader and
the hash (`SessionLog.Codec`), the listing and the digest (`Checkpoints.Config`), provider replies and tool
results (`TurnLoop.StepInput`), path resolution and UTF-8 (`PatchCommit.Env`), Git answers
(`Worktrees.CommitGit` and its companions), clocks, ids, and where a write fails.

Assumptions on these parameters appear as named predicates: `Codec.Faithful` (a canonical line has no line
break, reads back, and no strict prefix of it is JSON), `Codec.NoSplicing`, `Codec.PrefixStable`,
`Codec.CollisionFree` (the hash is injective), `Config.InjectiveDigest` and `Config.SortsAll`, and
`TurnLoop.OwnOutputsOnly` (a provider answer holds no tool outputs). The four on the codec hold together of
the codec in `SessionCodec`, and the two on the environment of a project hold of `Checkpoints.SuitableConfig`,
so no result rests on an assumption that nothing meets. The calibration factor is a real number in
`Compaction` and a mantissa with an exponent in a record.

Where the code does less than its surroundings suggest, the model follows the code, and lemmas give the exact
condition, with an input where the condition does not show one by itself:

- a retry may change the kind of a failed commit (`SessionStore.RetryKeepsKindIff`);
- a failed audit record leaves the handle clean, so the next append may break the log
  (`SessionStore.CommitAfterFailedAuditRecord`), and resume does not truncate a torn tail
  (`SessionStore.AppendAfterResume`); over all runs of all processes the log stays readable exactly while no
  record is appended behind a piece (`SessionTears.LogIsReadableIffNeverGlued`);
- a resume takes a record as stored whose line lacks only its newline, and a later retry removes it again, so
  that index and log disagree (`SessionTears.RetryKeepsInv`, `SessionTears.AdoptedRecordIsLost`);
- a soft deletion lasts exactly until an index rebuild completes (`SessionProtocol.SoftDeletionLastsIff`);
- replay drops failed turns without a model round, and the resumed active view may show a request the
  transcript lacks: `SessionReplay.WholeViewResumesWellFormedIff` and `SessionReplay.DistinctResumesWellFormedIff`
  say when the resumed conversation is well-formed, `SessionReplay.SkippedTurnBreaksReplayedConversation`
  shows one that is not;
- a missing blob stops a rollback midway: what comes before it in order is written and its own file is gone
  (`Checkpoints.RollbackCompletesIff`, `Checkpoints.MissingBlobStopsMidway`, `Checkpoints.LostBlobsLoseAFile`);
- at the smallest window target and threshold coincide and a compaction that just fits is rejected
  (`Compaction.TargetBelowThresholdIff`, `Compaction.SmallestWindowRejectsIff`, `Compaction.SmallestWindowCanReject`);
- a file without a final newline takes at most one hunk with context, at its end
  (`PatchHunks.PatchWithoutFinalNewlineIff`, `PatchHunks.UniqueContextRefused`), and text added behind it may be
  glued to its last line (`PatchHunks.ResultLinesIff`, `PatchHunks.AddedLinesAreGlued`);
- two path texts for one file: the later one wins (`PatchCommit.CompletedPatchShowsChangeIff`,
  `PatchCommit.SecondNameOverwritesFirst`);
- a follow-up to an Agent evicted between lookup and activation escapes the limits
  (`Agents.ActivateKeepsLimitsIff`, `Agents.EvictedAgentCanBeActivated`), and a terminal event shows a later
  turn number if a follow-up comes first (`Agents.TerminalEventShowsItsTurnIff`,
  `Agents.OvertakenEventShowsLaterTurn`);
- reconciling an empty delta, or one whose replay cannot be committed, leaves a workspace active, and it can be
  neither activated, integrated, reconciled nor discarded until it is finalized or failed or the application
  restarts (`Worktrees.ReconciledStaysActiveIff`).

## Model

| member | source | states |
|---|---|---|
| `SessionLog.ReadRecords` | src/coding_kid/sessions.py:703-742 | the reader loop equals the specification function: the records of the readable lines, a torn final line ignored, every broken chain field or bad line an error |
| `SessionLog.AcceptedLogIsChain` | src/coding_kid/sessions.py:703-742 | whatever bytes are on disk, an accepted log is one hash chain that starts with a creation record |
| `SessionLog.SameLastHashSameHistory` | src/coding_kid/sessions.py:668-680 | two chains with the same last hash are the same record for record |
| `SessionLog.FinalHashCommitsToLog` | src/coding_kid/sessions.py:668-742 | two accepted logs with the same final hash hold the same records, whatever their bytes |
| `SessionLog.CutLogIsAcceptedPrefix` | src/coding_kid/sessions.py:703-742 | an accepted log cut at any byte from the end of its creation line to its last readable byte is accepted and holds a non-empty prefix of the records |
| `SessionLog.CutLogIsAcceptedPrefixIff` | src/coding_kid/sessions.py:703-742 | for a cut at any byte from the end of the creation line on: the result is accepted with a prefix of the records if and only if the cut is in the readable part or the piece of the torn final line is not JSON |
| `SessionLog.WrittenLogWithTail` | src/coding_kid/sessions.py:683-742 | exactly when a written log followed by one more line, whole or partial, is accepted, and with which records |
| `SessionLog.WrittenLogReadsBack` | src/coding_kid/sessions.py:658-742 | writing a valid chain line by line and reading it gives the chain back |
| `SessionLog.TornLogReadsBack` | src/coding_kid/sessions.py:683-742 | a torn piece of the next line is ignored if shorter than the record's JSON and read as that record otherwise |
| `SessionLog.TruncateTornLog` | src/coding_kid/sessions.py:692-700 | truncation removes exactly the piece after the last newline |
| `SessionLog.TruncationCutsOnlyThePiece` | src/coding_kid/sessions.py:692-700 | a file that ends in a line break of either kind is left alone, any other is cut behind its last newline |
| `SessionCodec.TreeCodecMeetsAllAssumptions` | src/coding_kid/sessions.py:658-700 | one encoder, reader and hash meet all four assumptions together: lines read back, no torn or spliced line is JSON, no two bodies share a hash |
| `SessionStore.Store.AppendLine` | src/coding_kid/sessions.py:683-689 | at most the faulted number of bytes of the line reach the file, and a fault is reported |
| `SessionStore.Store.TruncateIncompleteTail` | src/coding_kid/sessions.py:692-700 | the file becomes its truncated form |
| `SessionStore.Handle.AppendRecord` | src/coding_kid/sessions.py:450-486 | owner and last-hash checks, then the log line, then the index row, with a fault at any byte, as the specification function |
| `SessionStore.Handle.CommitState` | src/coding_kid/sessions.py:74-99 | a commit writes the delta since the last stored transcript and advances the handle, or marks it dirty and changes nothing else in memory |
| `SessionStore.Handle.RecoverPending` | src/coding_kid/sessions.py:488-528 | a fully flushed pending record with the same payload is adopted into the index, an incomplete one is truncated |
| `SessionStore.Handle.RetrySave` | src/coding_kid/sessions.py:101-117 | recovery first, a fresh commit otherwise, dirty again on failure |
| `SessionStore.CommitOutcome` | src/coding_kid/sessions.py:74-99 | one commit from a settled state, failing anywhere: stored exactly once, or pending with the log a prefix of one line longer |
| `SessionStore.RetryOutcome` | src/coding_kid/sessions.py:101-117 | one retry from any pending state: stored exactly once, or still pending |
| `SessionStore.RecoveryAdoptsIff` | src/coding_kid/sessions.py:488-528 | recovery adopts the last record if and only if its number and previous hash follow the indexed record and the index write succeeds; then index and handle know it, and otherwise they are as before |
| `SessionStore.AuditKeepsSettled` | src/coding_kid/sessions.py:119-127 | a stored audit record leaves log, row and handle in agreement and counts no segment as stored |
| `SessionStore.CommitAndRetriesStoreExactlyOnce` | src/coding_kid/sessions.py:74-117 | after a commit failing at any byte and any number of retries failing anywhere, the transition is stored at most once, exactly once when the handle is clean, and one undisturbed retry suffices; log, row and handle then agree |
| `SessionStore.RetryKeepsKindIff` | src/coding_kid/sessions.py:101-117 | the stored record has the failed commit's kind exactly when its whole line had reached the disk or the caller repeats the kind |
| `SessionStore.AppendAfterTear` | src/coding_kid/sessions.py:683-742 | a line appended behind an untruncated piece gives a readable log exactly when there was no piece |
| `SessionStore.CommitAfterFailedAuditRecord` | src/coding_kid/sessions.py:119-127 | after a failed audit record the next commit reports success, and the log is readable exactly when the failed write had stored nothing |
| `SessionStore.AppendAfterResume` | src/coding_kid/sessions.py:558-599 | a record appended after a resume keeps the log readable exactly when the log ended on a line boundary |
| `SessionTears.LogIsReadableIffNeverGlued` | src/coding_kid/sessions.py:450-599 | from a settled session, over any commits, audit records, retries, resumes and rebuilds of any processes with writes that stop anywhere: while no record is appended behind a piece the bytes are one valid chain and at most one piece of a line, and readable; when such appends are whole lines, the log is readable if and only if there was none |
| `SessionTears.StepKeepsInv` | src/coding_kid/sessions.py:74-127 | every step of any process that puts no bytes behind a piece leaves one valid chain and at most one piece |
| `SessionTears.RetryKeepsInv` | src/coding_kid/sessions.py:488-528 | a retry by the holder of the lease never appends behind a piece; it reports a diverged log if and only if the index knows a record whose line lacks its newline, which it then removes, or one already removed |
| `SessionTears.ResumeTakesSessionIff` | src/coding_kid/sessions.py:530-599 | a resume of a readable session goes through if and only if nobody holds it or the lease has run out; its handle is at the end of the log, holds a full lease and may append |
| `SessionTears.RebuildFreesSession` | src/coding_kid/sessions.py:243-311 | a rebuild leaves a live lease alone and otherwise frees the session with a row that agrees with the log, closed exactly if the last record closes it |
| `SessionTears.UnreadableSessionIsMarked` | src/coding_kid/sessions.py:265-278 | resume and rebuild of a log that cannot be read give no handle and leave the session free and damaged, out of reach of any resume; when the reader itself crashes, a resume gives its lease back and a rebuild changes nothing |
| `SessionTears.OnlyOwnerReleases` | src/coding_kid/sessions.py:548-556 | a release by the owner lets the next resume through at any time, and one by anybody else changes nothing |
| `SessionTears.WholeAppendSpoils` | src/coding_kid/sessions.py:683-742 | a whole line appended to a log that does not end on a line boundary with the last indexed record leaves a line that no reader accepts |
| `SessionTears.SpoiledForGood` | src/coding_kid/sessions.py:683-742 | such a log stays unreadable in every continuation, retries and their truncations included |
| `SessionTears.AdoptedRecordIsLost` | src/coding_kid/sessions.py:488-599 | after a commit cut just before its newline, a resume by another process and a failed write of that process, its retry removes the adopted record and every further retry fails |
| `SessionProtocol.LogIsAlwaysOneChain` | src/coding_kid/sessions.py:242-599 | in every interleaving of processes the log is empty or one valid chain |
| `SessionProtocol.LogOnlyGrows` | src/coding_kid/sessions.py:450-486 | no step removes or rewrites a record |
| `SessionProtocol.AppendSucceedsOnlyForOwner` | src/coding_kid/sessions.py:450-486 | an append goes through exactly when its owner has a handle and holds the lease; it then extends the true end of the log, which is the last hash that owner saw, and renews the lease |
| `SessionProtocol.LiveLeaseIsExclusive` | src/coding_kid/sessions.py:530-547 | in every reachable session with a live lease a step takes it from its owner if and only if it is the owner's own release or close, a deletion, or a rebuild that began before; nobody acquires it and no rebuild begins |
| `SessionProtocol.LeaseIsHeldUntilTaken` | src/coding_kid/sessions.py:530-556 | through any steps before its lease runs out, an owner holds it throughout if and only if no step takes it in one of those ways |
| `SessionProtocol.AcquireGivesLeaseIff` | src/coding_kid/sessions.py:530-547 | on a session neither deleted nor damaged a process gets the lease if and only if nobody holds it or it has run out |
| `SessionProtocol.WaitingGivesLeaseIff` | src/coding_kid/sessions.py:530-547 | waiting lets another process in if and only if the lease is free or runs out by then, and one full lease time is always enough |
| `SessionProtocol.FreeSessionCanBeResumed` | src/coding_kid/sessions.py:352-361 | from every reachable session that can be taken, a resume gives a handle at the true end of the log however far the row is behind, the next append adds its record there, and closing frees the session as closed |
| `SessionProtocol.RebuildAgreesWithLog` | src/coding_kid/sessions.py:243-311 | an undisturbed rebuild makes the row agree with the log and frees the session, closed exactly if the last record closes it |
| `SessionProtocol.CreatorHoldsSessionIff` | src/coding_kid/sessions.py:313-350 | whoever creates a session holds it for a full lease with a handle, unless a rebuild wrote the row first |
| `SessionProtocol.LostLeaseIsNeverRegained` | src/coding_kid/sessions.py:530-556 | an owner token that lost the lease never holds it again, in any continuation |
| `SessionProtocol.LostHandleNeverAppendsAgain` | src/coding_kid/sessions.py:450-486 | a handle whose lease was lost never appends again, whatever all processes do in between |
| `SessionProtocol.SoftDeletionLastsIff` | src/coding_kid/sessions.py:283-294 | from every reachable session a soft deletion lasts through a continuation of any steps of any processes if and only if no index rebuild completes in it, and one process can complete one in three steps |
| `SessionProtocol.DeletionLastsIff` | src/coding_kid/sessions.py:283-294 | a deleted row stays deleted after every step of a continuation if and only if no rebuild that has read the log writes its row |
| `SessionProtocol.AppendStepIsStoreAppend` | src/coding_kid/sessions.py:450-486 | the record-level append step equals the byte-level append without faults |
| `SessionReplay.RestoreRecords` | src/coding_kid/sessions.py:811-865 | the fold over the records equals replay; for every last record the restored state is the earlier transcript and the delta with the new view if it is an ordinary commit, or a failed, interrupted or steered one with a model segment, and the earlier state otherwise |
| `SessionReplay.ReplayOneMore` | src/coding_kid/sessions.py:838-846 | exactly which last records change the restored state, and how |
| `SessionReplay.RunWritesItsRecords` | src/coding_kid/sessions.py:74-127 | a run leaves one record for each commit, audit record and close, in order, behind the earlier ones |
| `SessionReplay.ReplayRecoversState` | src/coding_kid/sessions.py:811-865 | for every run of work, commits, audit records and resumes, replay gives the live transcript without exactly the skipped deltas, and every other part as at the last kept commit |
| `SessionReplay.ReplayedTranscriptIsLiveIff` | src/coding_kid/sessions.py:838-843 | the replayed transcript is the stored live one if and only if no failed turn without a model round stored a segment |
| `SessionReplay.ResumeIsIdempotent` | src/coding_kid/sessions.py:558-599 | resuming twice is resuming once |
| `SessionReplay.ResumeAfterCommitIsIdentity` | src/coding_kid/sessions.py:558-599 | with nothing lost, a resume right after a kept commit gives the live state back |
| `SessionReplay.WholeViewResumesWellFormedIff` | src/coding_kid/sessions.py:811-865 | after any run, a conversation whose view shows its whole transcript at its last kept commit resumes as a well-formed one if and only if no delta was lost before that commit |
| `SessionReplay.NothingLostResumesWellFormed` | src/coding_kid/sessions.py:811-865 | with nothing lost, whatever view a kept commit of a well-formed conversation stored, reset and compacted ones included, is what every later resume finds |
| `SessionReplay.DistinctResumesWellFormedIff` | src/coding_kid/sessions.py:811-865 | a well-formed conversation of distinct segments, whatever its view, resumes as a well-formed one if and only if the committed view shows no segment of a lost delta |
| `SessionReplay.SkippedTurnBreaksReplayedConversation` | src/coding_kid/sessions.py:838-843 | two committed turns whose live conversation is well-formed and whose resumed one is not |
| `Checkpoints.CheckpointManager.CreateFullStage` | src/coding_kid/checkpoints.py:163-185 | a full stage records every listed path with its content, or fails on the size limits |
| `Checkpoints.CheckpointManager.CreateStage` | src/coding_kid/checkpoints.py:136-161 | policy to coverage: off, full, or best effort with scoped fallback |
| `Checkpoints.CoverageByPolicy` | src/coding_kid/checkpoints.py:136-161 | a required stage is full or fails, a best-effort one is full if and only if it is a Git project whose listed files fit both limits and scoped otherwise, and without checkpoints there is none |
| `Checkpoints.CaptureFitsIff` | src/coding_kid/checkpoints.py:591-625 | a capture fails if and only if the files at its paths hold more bytes than the limit |
| `Checkpoints.CheckpointManager.CapturePaths` | src/coding_kid/checkpoints.py:591-625 | the capture loop equals its specification, limits included |
| `Checkpoints.CheckpointManager.PrepareEffect` | src/coding_kid/checkpoints.py:200-271 | uncovered effects are noted without a conflict check, covered ones are checked and, when scoped, protected on first touch |
| `Checkpoints.PrepareCoversIff` | src/coding_kid/checkpoints.py:200-271 | an effect is uncovered exactly without checkpoints or without known paths in a scoped stage; any other may go on if and only if the watched files are as last observed and the added paths fit the limits, and then exactly these are added as they are now |
| `Checkpoints.StageNotesUncovered` | src/coding_kid/checkpoints.py:502-521 | over every run a scoped stage notes exactly the effects without known paths, all labels up to 256 and the first 255 with a mark beyond |
| `Checkpoints.CheckpointManager.RecordEffect` | src/coding_kid/checkpoints.py:273-290 | the observed listing becomes the present one of the watched paths |
| `Checkpoints.CheckpointManager.RollbackStage` | src/coding_kid/checkpoints.py:316-368 | refuses without touching a file, or removes what appeared and writes the baseline entries back in order, stopping midway at a missing blob |
| `Checkpoints.RollbackCompletesIff` | src/coding_kid/checkpoints.py:316-368 | a rollback completes if and only if no check refuses it and no blob is missing; a refusal changes nothing, and no path outside the baseline and the observed listing is ever touched |
| `Checkpoints.MissingBlobStopsMidway` | src/coding_kid/checkpoints.py:347-363 | a rollback stopped by a missing blob has written every entry before it in order, removed its file and left the later ones |
| `Checkpoints.LostBlobsLoseAFile` | src/coding_kid/checkpoints.py:347-363 | rolling back an unchanged tree whose blobs are lost fails and removes its first listed file |
| `Checkpoints.FullRollbackIsExact` | src/coding_kid/checkpoints.py:316-368 | after any interleaving of effect windows and outside edits a full rollback succeeds if and only if nothing is running, the tree fits the limits and the observed listing is true of it; then every listed path has its entry at stage creation and no other is touched, and otherwise nothing changes |
| `Checkpoints.OutsideEditsNeverEnterObservedTree` | src/coding_kid/workflow_runtime.py:176-209 | the observed listing changes only when a window closes, from the tree at its opening to the tree at its closing; an outside edit blocks the next window |
| `Checkpoints.ScopedRollbackRestoresWholeTree` | src/coding_kid/checkpoints.py:224-368 | in an undisturbed run of covered effects that keep to their named paths, a scoped rollback restores the whole tree |
| `Checkpoints.ScopedAgreesWithFull` | src/coding_kid/checkpoints.py:163-368 | driven by the same undisturbed effects, a scoped and a full stage reach the same tree and both roll back; the scoped one restores the original, and the results are equal if and only if no unlisted path changed |
| `Checkpoints.FullRollbackWholeTreeIff` | src/coding_kid/checkpoints.py:316-368 | when a full rollback restores the tree as a whole |
| `Checkpoints.UnnamedPathsKeep` | src/coding_kid/checkpoints.py:224-271 | paths no effect names are the same after the whole run |
| `Checkpoints.ScopedRollbackSucceeds` | src/coding_kid/checkpoints.py:316-368 | with every effect recorded, a scoped rollback does not refuse |
| `Checkpoints.ScopedRollbackIsExact` | src/coding_kid/checkpoints.py:200-368 | over any interleaving of outside edits, covered and uncovered effects and refused preparations, a scoped rollback succeeds if and only if nothing runs, no window was opened for an effect without known paths or a partial rollback is accepted, and the protected files fit and are as last observed; then every protected path has its entry at first protection and no other is touched, and a refusal changes nothing |
| `Conversation.ConversationState.AddUser` | src/coding_kid/context_manager.py:146-150 | the request is appended to both views |
| `Conversation.ConversationState.AddModelRound` | src/coding_kid/context_manager.py:152-155 | the normalized round is appended to both views |
| `Conversation.ConversationState.ResetToUser` | src/coding_kid/context_manager.py:157-162 | the transcript keeps growing while the active view starts anew |
| `Conversation.ConversationState.RestoreProjectionPreservingNewTranscript` | src/coding_kid/context_manager.py:179-188 | the snapshot's view followed by the rounds added since, none if the snapshot is longer |
| `Conversation.ConversationState.FindLatestUser` | src/coding_kid/context_manager.py:340-344 | the backward search finds the newest user segment or none |
| `Conversation.CompactionKeepsWellFormed` | src/coding_kid/context_manager.py:404-436 | compaction with a plan that keeps the latest request keeps the invariant and the transcript |
| `Conversation.ProjectionKeepsWellFormed` | src/coding_kid/context_manager.py:179-188 | projection restore from an earlier snapshot keeps the invariant |
| `Conversation.NormalizeKeepsPaired` | src/coding_kid/context_manager.py:41-56 | dropping empty messages keeps calls and outputs paired |
| `Conversation.ConversationInvariant` | src/coding_kid/context_manager.py:146-188 | over every run: the active view without its one leading summary is a subsequence of the transcript, both show the same latest request, the transcript holds no summary, every model round in view is paired |
| `Compaction.ContextManager.RecordResponse` | src/coding_kid/context_manager.py:308-315 | both token counts are noted, and the calibration factor becomes exactly the observed ratio, or one if that is smaller |
| `Compaction.ContextManager.RecordFailure` | src/coding_kid/context_manager.py:459-465 | the third consecutive failure disables proactive compaction |
| `Compaction.ThreeFailuresSwitchOff` | src/coding_kid/context_manager.py:454-465 | after a compaction that succeeds, automatic compaction stays on through two failures and goes off with the third |
| `Compaction.CompactionIsDueIff` | src/coding_kid/context_manager.py:317-344 | automatic compaction is due if and only if it is on, the view has reached the threshold of a known window, and the view holds a request and something besides the latest one |
| `Compaction.ContextManager.MakePlan` | src/coding_kid/context_manager.py:346-398 | the greedy loop equals the specification of the plan, errors included |
| `Compaction.ContextManager.Install` | src/coding_kid/context_manager.py:404-457 | the compacted view is installed, or the old view put back when it is not smaller or not below the threshold |
| `Compaction.ContextManager.Compact` | src/coding_kid/compaction.py:106-192 | plan, ask, validate, install; on any error the manager is as before |
| `Compaction.AskForSummary` | src/coding_kid/compaction.py:124-155 | the retry loop equals its specification and makes at most four requests |
| `Compaction.AskStopsIff` | src/coding_kid/compaction.py:124-155 | the request is repeated after every overflow while fewer than three segments were dropped, more than one is left and one is no user message, and after nothing else |
| `Compaction.CompactionSucceedsIff` | src/coding_kid/compaction.py:106-192 | a planned compaction succeeds if and only if the last reply is a text that calls no tool and denies no evidence it was asked about, and the view with it is smaller and below the threshold; then that text, the planned segments and a checkpoint are what it leaves |
| `Compaction.PlanIsGreedy` | src/coding_kid/context_manager.py:346-398 | a plan keeps the latest request and otherwise only model segments, each kept exactly when the view with it and everything newer that was kept meets the target |
| `Compaction.EstimateMonotone` | src/coding_kid/context_manager.py:68-93 | the calibrated estimate grows with bytes and items |
| `Compaction.EstimateOfParts` | src/coding_kid/context_manager.py:68-93 | the estimate is the overhead of all items and the least number of tokens that holds their bytes, the project context counting as one more item |
| `Compaction.BudgetShares` | src/coding_kid/context_manager.py:203-209 | the threshold is the largest that leaves a tenth of the window and room for a summary, the target half of it and never less than that room |
| `Compaction.SummaryKeepsUserMessages` | src/coding_kid/compaction.py:137-155 | overflow retries drop at most three segments, always the oldest that are not user messages, so every user message reaches the summary as often as it is there |
| `Compaction.SummaryIsAskedOfDropped` | src/coding_kid/context_manager.py:400-402 | the summary is asked of the dropped segments in order and the latest request: every segment is kept or asked about as often as it is in view, the latest request once more |
| `Compaction.CompactionCallsBounded` | src/coding_kid/compaction.py:124-155 | one compaction makes at most four provider calls |
| `Compaction.CompactionIsAtomic` | src/coding_kid/compaction.py:106-192 | a successful compaction leaves the transcript, a view of one summary and the planned segments, and an estimate below the old one and the threshold |
| `Compaction.TargetBelowThresholdIff` | src/coding_kid/context_manager.py:203-209 | the target is strictly below the threshold if and only if the window is larger than 16384 |
| `Compaction.AutomaticCompactionFits` | src/coding_kid/context_manager.py:317-446 | above the smallest window, a triggered compaction that kept a model segment and got a summary within the placeholder meets the target, so neither rejection branch runs |
| `Compaction.SmallestWindowRejectsIff` | src/coding_kid/context_manager.py:355-446 | at 16384 such a compaction meets the target and is rejected if and only if it meets it exactly |
| `Compaction.SmallestWindowCanReject` | src/coding_kid/context_manager.py:355-446 | with 9000 bytes of instructions and tools, a well-formed conversation compacted before has a due compaction that keeps a model round, gets a summary within the placeholder and is rejected |
| `TurnTools.CountCalls` | src/coding_kid/agent.py:473-494 | the first loop fills exactly the slots of calls beyond the budget and counts the others |
| `TurnTools.MakeGroup` | src/coding_kid/agent.py:584-604 | one batch of parallel-safe calls, or a single call, is invoked and its slots filled |
| `TurnTools.MakeCalls` | src/coding_kid/agent.py:579-624 | the dispatch loop equals its specification: outputs, invoked names, count and cancellation |
| `TurnTools.ExecutedIsCapped` | src/coding_kid/agent.py:473-494 | the count is the number of work calls so far, capped at the budget |
| `TurnTools.RoundStaysWithinBudget` | src/coding_kid/agent.py:473-494 | a round invokes no more work tools than it counts and never exceeds the budget |
| `TurnTools.OverBudgetIff` | src/coding_kid/agent.py:473-494 | a call is refused for the budget if and only if it is neither `todo` nor `skill` and the other calls before it have used the budget up |
| `TurnTools.RoundAnswersEachCall` | src/coding_kid/agent.py:579-624 | each call is answered with the budget text, with the tool's result if it comes before the first boundary between batches at which the turn is cancelled, or with the cancellation text |
| `TurnTools.RoundIsPaired` | src/coding_kid/agent.py:606-655 | a committed round has one output for each call, in order and with its id, on every path |
| `TurnLoop.RequestWithRetry` | src/coding_kid/agent.py:120-144 | at most three attempts, stopping at the first answer, error that is not retryable, or cancelled pause |
| `TurnLoop.RequestStopsIff` | src/coding_kid/agent.py:127-144 | another attempt is made if and only if the last one failed retryably, its pause was not cancelled and fewer than three were made |
| `TurnLoop.RunningTurn.CompactWhenDue` | src/coding_kid/agent.py:287-310 | automatic compaction when due; a failure is counted, a cancellation raised |
| `TurnLoop.RunningTurn.HandleFailure` | src/coding_kid/agent.py:340-368 | one reactive compaction, two output-limit recoveries, everything else raised |
| `TurnLoop.RunningTurn.HandleText` | src/coding_kid/agent.py:400-468 | an answer, one checklist reminder, or the empty-response recovery |
| `TurnLoop.RunningTurn.HandleCalls` | src/coding_kid/agent.py:470-678 | the round is run, observed and committed; a cancelled one is committed and raised |
| `TurnLoop.RunningTurn.ObserveActions` | src/coding_kid/agent.py:625-646 | the fingerprint loop over the finished actions equals its specification |
| `TurnLoop.StallLatchIff` | src/coding_kid/agent.py:625-646 | over the actions of a turn in order, the latch is set if and only if one action with equal arguments and result came max_identical_actions times in a row |
| `TurnLoop.TurnStallsIff` | src/coding_kid/agent.py:177-646 | however a turn ends, its latch is set if and only if max_identical_actions consecutive ones of all the actions it took were equal, and only then does it end as stalled |
| `TurnLoop.ObserveInTwoRounds` | src/coding_kid/agent.py:625-646 | the count carries over from round to round |
| `TurnLoop.ReturnedAnswerIsCommitted` | src/coding_kid/agent.py:400-468 | what an attempt returns is what its transcript ends in: the notice of the limit, or the round of a response with that text and no calls |
| `TurnLoop.RunningTurn.HandleAnswer` | src/coding_kid/agent.py:370-400 | after the latch, calls are answered by skips and the turn stops |
| `TurnLoop.RunningTurn.TakeStep` | src/coding_kid/agent.py:240-400 | one step of the loop equals the specification |
| `TurnLoop.TurnEndsByRule` | src/coding_kid/agent.py:177-728 | for all inputs an attempt with its counters ends as a rule over its history says; that history holds at most one compaction, two continuations after the output limit, one reminder, never two blank answers without tool work in between, and no more recoveries than configured |
| `TurnLoop.AutoCompactResult` | src/coding_kid/agent.py:287-310 | automatic compaction leaves the compacted manager, or the old one with the failure counted, and counts its provider calls |
| `TurnLoop.FailureLeaves` | src/coding_kid/agent.py:340-368 | only the first context overflow with something to compact costs a compaction and leaves its result |
| `TurnLoop.RunTurnOnce` | src/coding_kid/agent.py:177-728 | the loop and its handlers equal the specification: which conversation, answer, calls and tools every way out leaves |
| `TurnLoop.FailedTurnKeepsRounds` | src/coding_kid/agent.py:696-728 | after a failure, or a cancellation without rollback, the transcript is the one at the raise and the view the old one followed by exactly the segments added since; a cancellation with rollback leaves the old manager as a whole |
| `TurnLoop.RunWithRetry` | src/coding_kid/agent.py:731-807 | one more attempt after a protocol failure |
| `TurnLoop.StepBounded` | src/coding_kid/agent.py:240-368 | a step adds at most seven provider calls, four more when it turns to recovery, and only counted tools |
| `TurnLoop.TurnOnceBounded` | src/coding_kid/agent.py:177-728 | one attempt makes at most 7·max_steps + 4 provider calls and invokes at most max_tool_calls work tools |
| `TurnLoop.RunTurnBounded` | src/coding_kid/agent.py:788-807 | a turn makes at most twice as many calls; a second attempt follows exactly a protocol failure whose pause is not cancelled, starts from what the first left, and both are counted |
| `TurnLoop.NoToolAfterStall` | src/coding_kid/agent.py:378-398 | no tool is invoked once the stall latch is set |
| `TurnLoop.TurnKeepsConversation` | src/coding_kid/agent.py:177-807 | whatever way a turn ends, the conversation invariant and the pairing of every round in view hold and the earlier transcript is a prefix |
| `PatchParser.ReadHunks` | src/coding_kid/patching.py:107-124 | the hunk loop equals its specification, errors included |
| `PatchParser.ReadFiles` | src/coding_kid/patching.py:70-135 | the file loop equals its specification, errors included |
| `PatchParser.ParsePatch` | src/coding_kid/patching.py:62-136 | the parser equals the specification function |
| `PatchParser.ParseIsExact` | src/coding_kid/patching.py:62-136 | the accepted texts are exactly the renderings, within the size limit, of well-formed file lists, and the result is the list rendered |
| `PatchParser.PrintThenParse` | src/coding_kid/patching.py:62-136 | printing a well-formed list and parsing the text gives the list back |
| `PatchParser.AcceptedPaths` | src/coding_kid/patching.py:86-92 | every path of an accepted patch is relative, holds no colon and no component that leads upwards or names protected metadata in any case, and no two differ in the direction of their slashes only |
| `PatchParser.PrintedBodyLinesAreNotMarkers` | src/coding_kid/patching.py:93-114 | no printed body line can be taken for a file marker and no hunk line for a hunk marker |
| `PatchText.SplitJoin` | src/coding_kid/patching.py:68-68 | splitting is the inverse of joining lines without breaks |
| `PatchHunks.ApplyHunk` | src/coding_kid/patching.py:235-257 | one turn of the loop finds as many matches as in the original lines and moves the splice forward by one hunk |
| `PatchHunks.ApplyHunks` | src/coding_kid/patching.py:232-258 | the in-place loop with its cursor computes the simultaneous splice of the original lines, or the same failing hunk and match count |
| `PatchHunks.OnePosition` | src/coding_kid/patching.py:240-253 | a single found position is the only match after the previous span |
| `PatchHunks.SpliceUndo` | src/coding_kid/patching.py:256-257 | reversing the splices at the recorded positions gives back the original lines |
| `PatchHunks.SelectIsExact` | src/coding_kid/patching.py:232-258 | the chosen spans are exactly those that are ordered, disjoint, equal to the old sides and uniquely matched |
| `PatchHunks.ApplyIsSimultaneousSplice` | src/coding_kid/patching.py:232-258 | with such spans the hunks apply, the result is the gaps interleaved with the new sides, and undoing it gives the original text |
| `PatchHunks.AppliesIffSpansExist` | src/coding_kid/patching.py:247-252 | hunks apply if and only if every hunk has its span |
| `PatchHunks.ResultLinesIff` | src/coding_kid/patching.py:232-258 | the lines of the patched text are the pieces of the splice if and only if every piece but the last has its newline and the last is not empty, hence whenever the file is empty or ends with a newline |
| `PatchHunks.AddedLinesAreGlued` | src/coding_kid/patching.py:232-258 | a patch that adds the lines `b` and `c` to a file `a` without final newline leaves `a` and `bc` |
| `PatchHunks.ParsedHunksAreUnbroken` | src/coding_kid/patching.py:62-124 | no line of a parsed hunk holds a newline |
| `PatchHunks.PatchWithoutFinalNewlineIff` | src/coding_kid/patching.py:238-239 | a file without a final newline takes a patch if and only if at most one hunk has context and that context is the end of the file |
| `PatchHunks.UniqueContextRefused` | src/coding_kid/patching.py:238-239 | a hunk whose context line occurs exactly once is refused in such a file |
| `PatchHunks.UniformLineEndingsAreKept` | src/coding_kid/patching.py:185-190 | a uniformly CRLF file is patched like its LF form and keeps its line ends |
| `PatchHunks.CrlfIsCounted` | src/coding_kid/patching.py:301-304 | each `\r\n` is counted once |
| `PatchCommit.Project.PlanChanges` | src/coding_kid/patching.py:146-200 | the planning loop equals its specification and reads only |
| `PatchCommit.PlanIsExact` | src/coding_kid/patching.py:145-200 | a parsed patch is planned if and only if every file can be planned against the unwritten tree and all changes together stay within the budget |
| `PatchCommit.PlanFileIff` | src/coding_kid/patching.py:145-200 | a file is planned if and only if its path resolves to nothing or a regular file, an added file does not exist and a deleted or updated one does, and both contents fit; the planned content is the joined added lines, nothing, or the patched text encoded |
| `PatchCommit.Project.Restore` | src/coding_kid/patching.py:211-223 | restores run in reverse order over all attempted changes, and completeness is reported |
| `PatchCommit.Project.Apply` | src/coding_kid/patching.py:139-229 | parse, plan, write, and restore after a failed write, as the specification function |
| `PatchCommit.AllOrNothing` | src/coding_kid/patching.py:202-227 | a patch that fails to parse or plan writes nothing, and a complete recovery leaves every file as it was, aliases included |
| `PatchCommit.FailedPatchTouchesOnlyFailedRestores` | src/coding_kid/patching.py:208-227 | after any failure every target at which no restore failed is as before |
| `PatchCommit.FailedPatchIsExact` | src/coding_kid/patching.py:208-227 | the exact tree after any failed write: a target shows what the restore of the first change to it left, its old entry unless that restore failed, and others are untouched |
| `PatchCommit.CompletedPatchShowsChangeIff` | src/coding_kid/patching.py:202-207 | after success a file shows its change if and only if no later path text led to it with another result, and other files are untouched |
| `PatchCommit.CompletedPatchShowsFiles` | src/coding_kid/patching.py:145-207 | a completed patch with distinct targets leaves nothing for a deleted file, the added lines for an added one, and the patched text with the old mode for an updated one |
| `PatchCommit.UnfitFileRefusesPatch` | src/coding_kid/patching.py:145-200 | a file that does not meet the demands of its kind refuses the whole patch before anything is written |
| `PatchCommit.SecondNameOverwritesFirst` | src/coding_kid/patching.py:145-207 | a patch that adds `a` and `./a` for one file is accepted, reports two changes and leaves the second |
| `PatchCommit.PlannedPatchCompletesIff` | src/coding_kid/patching.py:145-207 | with distinct targets a planned patch completes if and only if no write is made to fail |
| `OutputBuffers.OutputBytes.Append` | src/coding_kid/background_tasks.py:112-127 | head, tail and recent bytes stay those of the whole stream, for any chunk |
| `OutputBuffers.OutputBytes.Render` | src/coding_kid/background_tasks.py:129-133 | everything, or head, marker and tail |
| `OutputBuffers.OutputBytes.Since` | src/coding_kid/background_tasks.py:135-146 | what a poll shows is what the specification on the whole stream says, and loss is reported exactly when bytes are missing |
| `OutputBuffers.HeadTailBytes.Append` | src/coding_kid/terminal.py:59-75 | head, tail and omitted count stay those of the whole stream |
| `OutputBuffers.HeadTailBytes.Render` | src/coding_kid/terminal.py:77-81 | everything, or head, marker and tail |
| `OutputBuffers.FeedBoth` | src/coding_kid/terminal.py:49-81 | fed the same stream in any two chunkings, both buffers keep the same head, tail and omitted count |
| `OutputBuffers.PollsTileTheStream` | src/coding_kid/background_tasks.py:692-700 | for any chunks and polls, what all polls showed tiles the stream up to the cursor: every byte shown once or counted once, in order |
| `OutputBuffers.StreamIsWhatArrived` | src/coding_kid/background_tasks.py:692-700 | the tiled stream is all that arrived, and a reader that polls last is at its end |
| `OutputBuffers.KeepingUpSeesEverything` | src/coding_kid/background_tasks.py:135-146 | with at most `limit` unread bytes at each poll the polls together show the stream |
| `Registry.MakeRoom` | src/coding_kid/background_tasks.py:553-568 | the eviction loop equals its specification |
| `Registry.EvictionKeepsWithin` | src/coding_kid/background_tasks.py:553-568 | eviction never removes a live record and finds room whenever fewer than the limit are live |
| `Registry.EvictionDropsOldestEnded` | src/coding_kid/background_tasks.py:553-568 | ended records go oldest first: with one that is kept, every later one is kept |
| `Registry.EvictionSize` | src/coding_kid/background_tasks.py:553-568 | eviction drops as little as it can |
| `Registry.EvictionKeepsOrder` | src/coding_kid/background_tasks.py:553-568 | the records that stay keep their order |
| `Tasks.BackgroundTaskManager.StartTask` | src/coding_kid/background_tasks.py:201-277 | the start region, errors included, as the specification function |
| `Tasks.StartSucceedsIff` | src/coding_kid/background_tasks.py:201-277 | in every reachable state a task starts if and only if the manager was not closed, fewer than 8 run, its id is new among those retained and the process starts; what each outcome leaves |
| `Tasks.BackgroundTaskManager.FinishRecord` | src/coding_kid/background_tasks.py:628-649 | the first finisher decides the status, later ones change nothing |
| `Tasks.BackgroundTaskManager.AnnounceEnd` | src/coding_kid/background_tasks.py:650-659 | the newest event, and the only terminal one of its record, shows the status it ended with |
| `Tasks.BackgroundTaskManager.Stop` | src/coding_kid/background_tasks.py:450-456 | a running task is marked for stopping; its status and all other tasks stay |
| `Tasks.BackgroundTaskManager.Write` | src/coding_kid/background_tasks.py:335-353 | input is accepted if and only if the task is running and interactive, and then clears its interrupt and changes nothing else |
| `Tasks.BackgroundTaskManager.Interrupt` | src/coding_kid/background_tasks.py:357-368 | an interrupt is accepted if and only if the task is running and interactive, and is then noted |
| `Tasks.StepKeepsLimits` | src/coding_kid/background_tasks.py:201-277 | no step exceeds 8 running or 32 retained tasks or drops a running one |
| `Tasks.EndedStaysEnded` | src/coding_kid/background_tasks.py:635-649 | an ended task never changes again |
| `Tasks.TaskLifecycle` | src/coding_kid/background_tasks.py:201-659 | in every interleaving: at most 8 running and 32 retained, running ones retained, the record-limit error unreachable, one terminal event for each ended task |
| `Tasks.TaskEndsAs` | src/coding_kid/background_tasks.py:628-649 | after any steps since its start a task ends stopped, interrupted, completed or failed by its exit code, whether a stop was asked for and whether its last signal was an interrupt |
| `Tasks.ForceNeedsStop` | src/coding_kid/background_tasks.py:628-649 | a task is killed only after a stop was asked for |
| `Tasks.QueueHoldsLatest` | src/coding_kid/background_tasks.py:495-499 | the queue holds the latest 64 events since it was last drained, in order |
| `Tasks.InputClearsInterrupt` | src/coding_kid/background_tasks.py:349-351 | after accepted input a session does not end as interrupted without another interrupt |
| `Tasks.ClosedStaysClosed` | src/coding_kid/background_tasks.py:464-474 | after closing no task is started |
| `Agents.AgentManager.StartAgent` | src/coding_kid/agents.py:248-284 | the start region, the failed launch included, as the specification function |
| `Agents.StartSucceedsIff` | src/coding_kid/agents.py:248-284 | in every reachable state an Agent starts if and only if the manager was not closed, fewer than 4 are active, its id is new, its workspace ready and its thread starts; what each outcome leaves |
| `Agents.AgentManager.FollowUp` | src/coding_kid/agents.py:317-375 | a follow-up opens the next generation, or puts the record back when the thread does not start |
| `Agents.FollowupSucceedsIff` | src/coding_kid/agents.py:317-375 | a retained Agent takes a follow-up if and only if it has ended, the manager was not closed, fewer than 4 are active, its workspace is ready and its thread starts; then its next generation starts and is announced |
| `Agents.AgentManager.BeginGeneration` | src/coding_kid/agents.py:493-501 | a stale generation is ignored, a cancelled one ends without running, any other runs |
| `Agents.AgentManager.FinishGeneration` | src/coding_kid/agents.py:677-693 | only the current, still active generation can end |
| `Agents.AgentManager.StopAgent` | src/coding_kid/agents.py:405-412 | an active Agent becomes stopping and cancelled and keeps its generation; an ended one and all others stay |
| `Agents.AgentManager.CloseAll` | src/coding_kid/agents.py:416-432 | all retained active Agents are stopped |
| `Agents.ActivateKeepsLimitsIff` | src/coding_kid/agents.py:323-350 | a follow-up keeps the limits if and only if one of its guards stops it (still active, closed, no capacity, no workspace, no thread) or its record is still retained |
| `Agents.EvictedAgentCanBeActivated` | src/coding_kid/agents.py:323-350 | after seventeen Agents have come and gone the first is evicted, can be activated by whoever had looked it up, and the limits are broken |
| `Agents.EndedStaysEnded` | src/coding_kid/agents.py:677-693 | within a generation an ended record stays as it ended, and one stopped before its thread began is never run |
| `Agents.AgentLifecycle` | src/coding_kid/agents.py:248-764 | in every interleaving: at most 4 active and 16 retained, active ones retained, the record-limit error unreachable, one terminal event for each ended generation |
| `Agents.ClosedManagerRunsNothing` | src/coding_kid/agents.py:416-432 | once the manager was closed no Agent is starting or running, whatever all threads do afterwards |
| `Agents.QueueHoldsLatest` | src/coding_kid/agents.py:445-449 | the queue holds the latest 64 of the events it stands for; a launch that fails while it is full costs the oldest |
| `Agents.TerminalEventShowsItsTurnIff` | src/coding_kid/agents.py:694-699 | whatever happens between the end of a generation and its terminal event, the event has the status it ended in, and shows its own turn number if and only if no follow-up of that Agent went through in between |
| `Agents.OvertakenEventShowsLaterTurn` | src/coding_kid/agents.py:317-375 | an Agent that completed and was followed up before its event: the event of the first turn shows the second |
| `Agents.GenerationMovesIff` | src/coding_kid/agents.py:317-375 | over any run the generation of an Agent grows if and only if a follow-up of it goes through |
| `Worktrees.WorktreeManager.CreateWorkspace` | src/coding_kid/worktrees.py:119-132 | a new active workspace at its baseline, or nothing |
| `Worktrees.WorktreeManager.ActivateWorkspace` | src/coding_kid/worktrees.py:167-177 | exactly ready, conflicted and orphaned workspaces become active; path and commits stay, conflicts go |
| `Worktrees.WorktreeManager.FinalizeWorkspace` | src/coding_kid/worktrees.py:179-212 | an active workspace becomes conflicted, or ready with the new head; path and baseline stay, and an error changes nothing |
| `Worktrees.WorktreeManager.FailWorkspace` | src/coding_kid/worktrees.py:214-222 | an active workspace becomes orphaned with path and commits kept, any other is left alone |
| `Worktrees.WorktreeManager.DiscardWorkspace` | src/coding_kid/worktrees.py:331-344 | exactly a confirmed discard of a workspace neither active nor pending retires it: the path goes, the commits stay |
| `Worktrees.WorktreeManager.MarkActiveAsOrphaned` | src/coding_kid/worktrees.py:159-165 | the restart loop orphans exactly the active workspaces |
| `Worktrees.WorktreeManager.IntegrateWorkspace` | src/coding_kid/worktrees.py:259-290 | exactly a ready or orphaned workspace whose delta applies becomes pending; path and commits stay |
| `Worktrees.WorktreeManager.ReconcileWorkspace` | src/coding_kid/worktrees.py:292-329 | the workspace is replaced at a new baseline and its delta replayed, every outcome; it is left active exactly if there was nothing to replay, or the replay applied and could not be committed |
| `Worktrees.WorktreeManager.AcceptIntegrated` | src/coding_kid/worktrees.py:346-357 | the loop turns exactly the pending workspaces into integrated ones without a path |
| `Worktrees.WorktreeManager.RollBackIntegrated` | src/coding_kid/worktrees.py:359-367 | the loop turns exactly the pending workspaces into ready ones |
| `Worktrees.WorkspaceLifecycle` | src/coding_kid/worktrees.py:119-367 | in every run a path is empty exactly for integrated and discarded workspaces, and those can never be activated, integrated, reconciled or made anew |
| `Worktrees.PendingUntilStageEnds` | src/coding_kid/worktrees.py:331-367 | a pending integration is untouched until its stage is accepted or rolled back |
| `Worktrees.ActiveUntilIff` | src/coding_kid/worktrees.py:159-367 | an active workspace keeps its record throughout a run if and only if the run holds no restart, no failure of its Agent and no finalization that Git lets through |
| `Worktrees.ReconciledStaysActiveIff` | src/coding_kid/worktrees.py:292-329 | exactly when reconciling leaves an active workspace, with success or with an error; until a step that ends `active` it can then be neither activated, integrated, reconciled nor discarded, and after the first one it can be activated |
| `Worktrees.ProjectRunsBoth` | src/coding_kid/workflow_runtime.py:176-281 | every project run is at once a run of its workspaces and a run of its stage; an integration is the one step they share, in which the root is patched exactly if the workspace becomes pending with a delta |
| `Worktrees.RollbackUndoesIntegrations` | src/coding_kid/workflow_runtime.py:272-281 | after any run of a fully covered stage, a successful rollback restores the listed root and makes every pending workspace ready with its baseline and head; a refused one changes nothing |
| `Worktrees.IntegrateThenRollback` | src/coding_kid/workflow_runtime.py:272-281 | integrating and rolling back: the rollback succeeds, the listed root is as before, the workspace is ready with its old commits |

## Left out

- `ConversationState.from_items`, a compatibility constructor for flat histories.
- `changes`, `status`, `refresh_read_only`, `accept` and the diff texts of checkpoints: views of a manifest.
- Polling, waiting, `settle` and `check` of background tasks: they read a record and change no status.
- Titles, `updated_at`, model names and prefix lookup of session rows; schema creation and migration; the memory tables.
- JSON text: records, rows and the encoder are abstract values; non-string keys and float rendering are not modelled.
- Timestamps are numbers of seconds; the comparison of ISO strings with different fractional digits is not modelled.
- SessionProtocol.LogIsAlwaysOneChain: every append is one clean step here, because resume does not truncate; torn tails are the subject of `SessionStore` and `SessionTears`.
- SessionTears.LogIsReadableIffNeverGlued: whether a log can be read after an append behind a piece was itself cut short is left open, because no assumption on the encoder says what two glued pieces are; acquiring and reading are one step there.
- Agents.AgentLifecycle: lookup and activation of a follow-up are one step; `Agents.ActivateKeepsLimitsIff` says what happens when they are not.
- TurnLoop.TurnKeepsConversation: provider answers are taken to hold no tool outputs of their own.
- Directories, symbolic-link resolution and the Git listing: the tree is a flat map with a fixed listing predicate.
- A file where another version has a directory: outside the rollback results.
- Unicode line separators and mixed line endings in patched files: lines end in `\n`; whole-file results are for uniform text.
- Case folding beyond ASCII in protected path names.
- Temporary file names and created parent directories of a patch write.
- Floating-point rounding of the calibration factor and of nine tenths of a window: real and integer arithmetic.
- Instruction overlays, events and on-screen callbacks of the turn loop: they do not influence its control flow.
- A missing latest user message when automatic compaction is considered: the model skips compaction where the code raises; turns always begin with a user message.
- Permission and workflow hooks around a tool call: whether denied or run, a call contributes one result, and a denied call is counted as invoked.
- Exceptions that leave a dispatched tool: dispatch is taken to return a result.
- Sharing of tool output dictionaries between segments, which `_replace_latest_tool_output` uses for child Agents.
- Threads, lock order and waiting in the task and Agent managers: steps are the locked regions, in any order.
- Output readers of background tasks: `OutputBuffers` covers one buffer with one reader.
- Results, errors, forked context and workspace links of child Agents.
- Git itself: its answers are inputs, and applying a delta to the root is all or nothing.
- `src/coding_kid/tui.py`, `cli.py`, `launcher.py`, `provider.py`, `web.py`, `capabilities.py`, `permissions.py`, `workflow.py`, `parser.py`, `memory.py`, `skills.py`, `plugins.py`, `sandbox.py`, `turn_control.py`: user interface, network, tables and validation.
- `evals/` and `versions/`: experiment scripts and frozen copies.
