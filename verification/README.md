# Verification of the ConversationOS state protocols

This project models the parts of the ConversationOS backend that keep state safe across several
requests, transactions or polls, and proves what they promise. Every claim holds for all inputs, all
states that can be reached, or all runs; nothing is bounded by a fuel or a size of the model's own.

Verify it with `dafny verify dfyconfig.toml`.

## What is modelled

- **Client merge and undo** (`tables`, `merge`, `undo`, `merge_guarantees`, `merge_effects`, `merge_history`). The database
  is a record of maps: clients, the rows of the four linked tables, the content below conversations and
  memories, and the audits. `Merge.Session` and `Undo.UndoService` carry out the statements one by one on
  the transaction's view and commit or roll back. The source's deletion really cascades (facts and follow-ups)
  and sets NULL (conversations and people); that it finds nothing to delete is a theorem. A token or digest
  *is* the digested state. `updated_at` is inside the fingerprint and outside round-trip equality.
- **Retry and worker** (`retry`, `retry_runs`, `retry_guarantees`, `retry_service`). One conversation, its row lock, the set of
  queued jobs, and all live deliveries, interleaved one database or queue step at a time. A dispatch may reach the
  queue although the API rolls back, and any job may be delivered first any number of times; a later try comes only from
  the worker's own `Retry`. `RetryService.ConversationRecord` is the service and worker code as it runs undisturbed, and each
  of its methods is proved to be a sequence of protocol steps.
- **Quota admission** (`quota`, `quota_runs`). `Quota.Session` is the code of one request; `QuotaRuns` interleaves any number of
  sessions that read committed data and hold the owner's advisory lock until they end, with deletions, status
  changes and the upload handler's late QUEUED write in between.
- **Processing attempts** (`pipeline`). Transcription, extraction and reconciliation on one conversation over any sequence of attempts,
  with every provider and every commit free to fail.
- **Versioned corrections and drafts** (`corrections`). Saves, preview requests and slow generations interleave; drafts are saved under the parent's lock.
- **Client reviews** (`review`). Source checks, completion assessment, generation with one retry, storage and reload.
- **Alerts** (`monitoring`). The saturating counters and the `sent` flag against the whole history of observations, with deliveries that may fail.
- **Backups** (`archive`, `recordings`). Chunked encryption, hashing and verification with reads of any size against whole-file definitions; the
  snapshot of a bucket and its manifest. The cipher is any keystream and any tag function, after sections 7.1 and 7.2 of NIST SP 800-38D.
- **Dashboard** (`ranking`, `dashboard`, `recommendations`, `activity`). Follow-up state, the builders and counters over it at one clock reading, ranked
  clients, recent activity cut from two limited queries, and grouped next actions.

Clock readings, new identifiers, provider answers, delivery outcomes and whether a commit succeeds are parameters.

## What turned out to depend on a condition

- The comment at `backend/app/processing/worker.py:39-41` says that only one first delivery can consume an attempt
  baseline. Three promises of that protocol can be broken, each by one kind of step, and each theorem is about single runs:
  - *Exclusive retries.* When the transaction that starts a first attempt fails after the check, the worker raises `Retry` while
    the conversation is still QUEUED at the old baseline, and another delivery may start. A run keeps its retries exclusive exactly
    when this does not happen in it (`RetryGuarantees.ExclusiveExactlyWhenFirstStartsSucceed`).
  - *Once per baseline.* `start_processing_attempt` (`backend/app/conversation/service.py:226-234`) loads the row without a lock on a
    redelivery and writes one more than the loaded count. A start *regresses* when the loaded count is below a baseline that a first
    delivery has already started from. A run without regressing starts never uses a baseline twice, and after a regressing start plain
    retries lead to a second use (`RetryGuarantees.OncePerBaselineExactlyWhen`). It is enough that no redelivery starts with a count
    that is no longer the row's (`RetryGuarantees.FreshStartsDoNotRegress`); failing first starts alone do no harm here.
  - *At most `processing_max_tries` attempts per job.* A first delivery *overcommits* when it passes the check although its job has
    already started an attempt or has another delivery with tries left. A run without overcommitting acceptances stays within the
    bound, and after one, failures alone exceed it (`RetryGuarantees.BoundedExactlyWhen`). It is enough that no job passes the check
    twice (`RetryGuarantees.AcceptedOnceIsBounded`).

  Neither of the last two steps occurs while first starts succeed, nor with a single try per job. With two or more tries
  all three promises are broken in concrete runs from a fresh conversation (`RetryRuns.ExclusionBreaks`, `RetryRuns.BaselineBreaks`,
  `RetryRuns.BoundBreaks`).
- A failed recording also returns to QUEUED without a retry: the upload handler enqueues and then writes QUEUED whatever the status
  (`backend/app/conversation/api.py:105-107`). Apart from that write only a charged retry requeues (`QuotaRuns.RequeuesExactlyWhen`).
- Once an attempt has stored a memory and then fails, no later attempt completes: the second memory violates the unique constraint
  (`Pipeline.Conversation.RunAll`). The retry comment at `backend/app/transcription/service.py:68-70` covers the transcript only.
- `docs/client-merge-undo.md:7` says an older merge *may* remain blocked after a later one is undone. It always does when the
  later undo rewrites the older merge's retained client under a different timestamp (`MergeGuarantees.LaterUndoBlocksEarlier`).
- Transcript corrections are outside the undo fingerprint: a correction saved after the merge neither blocks the undo nor is touched by it
  (`MergeGuarantees.CorrectionsSurviveUndo`).
- Processing failures lead the dashboard's priorities exactly when no due client has been silent for more than 10,000 days
  (`Dashboard.FailuresLeadExactlyWhen`, with an input where they do not in `Dashboard.FailuresCanBeOutranked`). Contact times are written
  by the system, so such an input takes 27 years to arise.

## Model

| member | source | states |
|---|---|---|
| `MergeGuarantees.StatementsLoseNothing` | backend/app/client/merge.py:103-116 | Carried out in order with CASCADE and SET NULL, the statements keep every row of the four tables, change exactly the links to the source, and remove one client |
| `MergeGuarantees.UndoLeavesNoDanglingLink` | backend/app/client/undo.py:107-124 | If every link resolves before an accepted undo, every link resolves after it |
| `MergeGuarantees.MergeLosesNoRow` | backend/app/client/merge.py:103-116 | The net effect keeps every row; rows not linked to the source are unchanged, and the others only change their link and the columns a merge writes |
| `MergeGuarantees.MergeKeepsClients` | backend/app/client/merge.py:110-116 | Exactly the source disappears; the retained client loses only its saved review; every other client is unchanged |
| `MergeGuarantees.MergeLeavesNoDanglingLink` | backend/app/client/merge.py:113-116 | If every link resolves before the merge, every link resolves after it |
| `MergeGuarantees.PreviewIsExact` | backend/app/client/merge.py:85-100 | If the token of a preview is accepted, the rows that the preview counted are exactly the rows whose link the merge changes |
| `Merge.StatementsFold` | backend/app/client/merge.py:103-116 | The statements in order, with the cascading deletion, have the net effect of re-pointing the links, clearing one review and removing one client |
| `Merge.DeleteUnlinked` | backend/app/client/models.py:110-114 | The CASCADE and SET NULL actions find nothing when no row names the deleted client |
| `Merge.Session.InspectMerge` | backend/app/client/merge.py:22-91 | Succeeds exactly when both clients are the owner's, differ, and every row linked to either is owned and settled; records both profiles, every link and every manual flag; an error names a row that explains it |
| `Merge.Session.ReadMergedState` | backend/app/client/undo.py:20-73 | The table-by-table reads build the digest of the client, all rows linked to it and the content below them |
| `Merge.Session.MergeClients` | backend/app/client/merge.py:94-128 | Commits exactly when the preview token and the name are confirmed and the commit succeeds, with the merged database, a complete audit and the previewed counts; otherwise nothing changes |
| `MergeEffects.InspectableExactlyWhen` | backend/app/client/merge.py:37-81 | In terms of the stored rows: a merge can be prepared exactly for two different clients of the owner whose linked conversations are the owner's and at rest, and whose linked people and facts come from the owner's recordings |
| `MergeEffects.TokenFixesThePair` | backend/app/client/merge.py:41-99 | Equal tokens mean equal profiles, and the same link and manual flag for every row of either client |
| `MergeEffects.CountsAreExact` | backend/app/client/merge.py:87-90 | The count of each table is the number of its rows linked to the source |
| `MergeEffects.RowAfterMerge` | backend/app/client/merge.py:103-109 | Each row after the whole statement sequence, field by field: a moved conversation becomes a manual assignment to the target, every other moved row changes its link only |
| `MergeEffects.ClientsAfterMerge` | backend/app/client/merge.py:110-116 | The retained client field by field: only the saved review is cleared, and its timestamp moves exactly when there was one |
| `MergeEffects.AuditOfMerge` | backend/app/client/merge.py:117-123 | The new audit names owner, source and target, holds both profiles and the fingerprint, and every other audit and table is untouched |
| `MergeEffects.DeletionFollowsTheSchema` | backend/app/client/models.py:110-116 | Deleting a client removes its facts and follow-ups, unlinks its conversations and people, and touches no other row |
| `Undo.UndoService.UndoMerge` | backend/app/client/undo.py:76-140 | An audit that is absent or another owner's is not found, in both directions; an accepted undo has the caller's own audit, not yet undone, the caller's own target, a free source identifier and an equal fingerprint; it recreates the source, restores links, flags and the target, and marks the audit; any refusal leaves the database alone |
| `Undo.UndoService.RestoreFlags` | backend/app/client/undo.py:125-131 | The loop over manual assignments writes the snapshotted flag of exactly the moved conversations |
| `Undo.UndoneRows` | backend/app/client/undo.py:115-131 | Relinking and then restoring flags amounts to one restoration of each moved row |
| `MergeGuarantees.UndoNeverOverwrites` | backend/app/client/undo.py:101-106 | Whatever happened in between, every row and the client that an accepted undo writes still hold exactly what the merge left there |
| `MergeGuarantees.UndoRestoresClients` | backend/app/client/undo.py:107-134 | Both clients come back as before the merge, timestamps of the last update aside; all others keep their interim value |
| `MergeGuarantees.UndoRestoresRows` | backend/app/client/undo.py:115-131 | Every row linked to either client before the merge has its link, flag and content back; every other row and table keeps its interim value |
| `MergeGuarantees.FingerprintIsUntouched` | backend/app/client/undo.py:20-73 | Equal fingerprints mean, in both directions, that no covered row differs, has left or has joined |
| `MergeGuarantees.UndoAcceptedExactlyWhenUntouched` | backend/app/client/undo.py:85-106 | While its audit stands, a merge can be undone exactly when nothing the merge left for the retained client was changed, removed or added and the source's identifier is free |
| `MergeGuarantees.UndoInvertsMerge` | backend/app/client/undo.py:76-137 | An immediate undo is accepted and gives back every client and every row |
| `MergeEffects.RowAfterUndo` | backend/app/client/undo.py:115-131 | Each row after an undo, field by field, whatever the audit holds |
| `MergeEffects.AuditsAfterUndo` | backend/app/client/undo.py:107-135 | The recreated source, the restored target and the marked audit, with every other audit untouched |
| `MergeEffects.FingerprintReachesTheRows` | backend/app/client/undo.py:42-47 | With an equal fingerprint the client, every row linked to it and every memory below it are equal |
| `MergeEffects.FingerprintReachesTheContent` | backend/app/client/undo.py:48-72 | So are the action items, decisions, people, transcripts and drafts below its conversations |
| `MergeGuarantees.LaterUndoBlocksEarlier` | docs/client-merge-undo.md:7 | An undo that stamps the retained client of an earlier merge anew makes the earlier merge impossible to undo |
| `MergeGuarantees.CorrectionsSurviveUndo` | backend/app/client/undo.py:63-73 | Corrections are neither fingerprinted nor written by an undo |
| `MergeHistory.IdentitiesAreConserved` | backend/app/client/undo.py:85-113 | In every run of creations, merges, undos and edits, each identifier ever created is a living client or the source of exactly one pending merge, never both |
| `MergeHistory.EachMergeIsUndoneAtMostOnce` | backend/app/client/undo.py:86-87 | No run undoes the same merge twice |
| `RetryGuarantees.RetriesAreExclusive` | backend/app/processing/worker.py:39-82 | In a run whose first starts succeed: at most one retry job runs or awaits redelivery, a user's retry conflicts meanwhile, first deliveries start once per baseline, no job starts more than the maximum, and the count grows by exactly the attempts started |
| `RetryGuarantees.RetryAfterSuccessConflicts` | backend/app/orchestrator/conversation_processing.py:113-117 | In any state a successful attempt leaves COMPLETED with its delivery gone, so a retry request right after it conflicts |
| `RetryGuarantees.SuccessIsFinal` | backend/app/orchestrator/conversation_processing.py:113-117 | While first starts succeed, nothing in the rest of a run changes a conversation that has succeeded or starts another attempt |
| `RetryGuarantees.ExclusiveExactlyWhenFirstStartsSucceed` | backend/app/processing/worker.py:39-51 | A run keeps its retries exclusive in every state if and only if no first delivery that passed its check fails to start in it |
| `RetryGuarantees.OncePerBaselineExactlyWhen` | backend/app/processing/worker.py:42-51 | A run has no start that writes a count back below a used baseline if and only if, from each of its states, no baseline is used twice until such a start |
| `RetryGuarantees.FreshStartsDoNotRegress` | backend/app/conversation/service.py:226-234 | While no redelivery starts with a stale count, whatever else fails, no start regresses and no baseline is used twice |
| `RetryGuarantees.RegressionIsFatal` | backend/app/conversation/service.py:226-234 | After any regressing start, retries alone lead to a second first start from a used baseline |
| `RetryGuarantees.BoundedExactlyWhen` | backend/app/processing/worker.py:73-82 | A run has no acceptance of a job that has started or still has tries if and only if, from each of its states, no job exceeds the maximum until such an acceptance |
| `RetryGuarantees.AcceptedOnceIsBounded` | backend/app/processing/worker.py:42-82 | If no job passes the check of a first delivery twice, whatever else fails, no job starts more than the maximum |
| `RetryGuarantees.OvercommitmentIsFatal` | backend/app/processing/worker.py:73-82 | After any overcommitting acceptance, failures alone lead to more attempts than the maximum |
| `RetryGuarantees.CleanStartsExcludeHazards` | backend/app/processing/worker.py:39-51 | A run whose first starts succeed has neither regressing starts nor overcommitting acceptances |
| `RetryGuarantees.SingleTriesExcludeHazards` | backend/app/processing/worker.py:75-77 | Nor has a run with a single try per job |
| `RetryRuns.StaleRedelivery` | backend/app/conversation/service.py:226-234 | A concrete run in which a redelivery that loaded the row earlier writes a stale attempt count back |
| `RetryRuns.ExclusionBreaks` | backend/app/processing/worker.py:62-77 | A concrete run with two live deliveries after a first start fails |
| `RetryRuns.BaselineBreaks` | backend/app/processing/worker.py:42-51 | A concrete run that uses a baseline twice, for any maximum of two or more |
| `RetryRuns.BoundBreaks` | backend/app/processing/worker.py:73-82 | A concrete run in which a job starts more than the maximum, for any maximum of two or more |
| `RetryProtocol.StepKeepsInvariant` | backend/app/processing/worker.py:39-82 | Each step of API, worker or queue keeps the protocol's invariant |
| `RetryService.ConversationRecord.RetryConversation` | backend/app/conversation/service.py:166-205 | A conversation that is not FAILED conflicts and is untouched; otherwise the call is claim, dispatch and commit or rollback of the protocol, succeeds exactly when dispatch and commit do, and sends a job with the current count |
| `RetryService.ConversationRecord.StartProcessingAttempt` | backend/app/conversation/service.py:226-234 | Writes one more than the loaded attempt count and releases the first delivery's lock |
| `RetryService.ConversationRecord.FailTry` | backend/app/processing/worker.py:70-82 | After a failed try: a redelivery below the maximum, the terminal FAILED status on the last try |
| `RetryService.ConversationRecord.Work` | backend/app/processing/worker.py:53-82 | What every outcome of a try leaves: COMPLETED after a success, FAILED after the last failure, a waiting delivery otherwise; the count and the log grow by exactly the attempt that started |
| `RetryService.ConversationRecord.ProcessFirst` | backend/app/processing/worker.py:42-82 | A first delivery does nothing unless the row is QUEUED at exactly its baseline; otherwise it is a run of protocol steps whose outcome fixes status, count, log and live deliveries |
| `RetryService.ConversationRecord.ProcessAgain` | backend/app/processing/worker.py:52-82 | A redelivery is a run of protocol steps without the baseline check, whose outcome fixes status, count, log and live deliveries |
| `Quota.Session.Snapshot` | backend/app/usage/service.py:31-70 | Counts the owner's recordings and bytes and reads the day's row, zero when there is none |
| `Quota.Session.Exceeds` | backend/app/usage/service.py:77-89 | Admits exactly when every changed amount stays within its limit; the storage message exactly when recordings or bytes are the first limit exceeded |
| `Quota.FitsExactlyWhen` | backend/app/usage/service.py:9-16 | The six limits in numbers, for each kind of admission |
| `Quota.ChargedCounts` | backend/app/usage/service.py:93-108 | A charge counts one upload with its seconds, one call or one retry, for this owner on this day alone |
| `Quota.Session.Admit` | backend/app/usage/service.py:72-108 | Admits exactly when the amounts fit; only when reserving, the counter of the kind grows by one, an upload adds its seconds, and no other owner or day changes |
| `Quota.Session.Upload` | backend/app/conversation/service.py:88-133 | Stores a recording exactly when both admissions, the measurement, storage and the commit succeed; the charge and the row commit together or not at all |
| `Quota.Session.Retry` | backend/app/conversation/service.py:171-193 | The retry charge and the status change commit together or not at all, wherever the job ended up |
| `Quota.Session.ConsumeAi` | backend/app/usage/service.py:110-113 | A call is admitted exactly while fewer than five are counted today, and an admitted call is counted and committed before it is made |
| `QuotaRuns.CommitKeepsInvariant` | backend/app/usage/service.py:24-29 | A commit leaves every other session's admission valid, because the owner's lock keeps them apart |
| `QuotaRuns.LimitsHold` | backend/app/usage/service.py:9-108 | Over any interleaving, also across midnight, every committed state keeps an owner within all six limits |
| `QuotaRuns.CountersAreAdmissions` | backend/app/usage/service.py:102-108 | Over any run each day's uploads, seconds, calls and retries have grown by exactly the requests committed under that day's admission |
| `QuotaRuns.DailyAllowancesHold` | backend/app/usage/service.py:9-16 | From a ledger without usage no interleaving commits more than five uploads, 900 seconds, five calls and two retries of an owner on a day |
| `QuotaRuns.CommitStores` | backend/app/conversation/service.py:96-110 | A committed upload stores its own recording with its size, a committed retry requeues its own, and no other recording changes |
| `QuotaRuns.RequeuesExactlyWhen` | backend/app/conversation/api.py:105-107 | A step turns a failed recording into a queued one if and only if it commits a retry, which is counted once, or is the upload handler's unconditional write on a row that has failed meanwhile, which charges nothing |
| `Pipeline.Conversation.Transcribe` | backend/app/transcription/service.py:41-147 | A finished transcript is returned unaltered without another request; otherwise the one row is reset, requested once and finished exactly when the provider answers |
| `Pipeline.Conversation.ExtractAndPersist` | backend/app/memory/service.py:220-394 | Blank text stores nothing; otherwise a memory is stored exactly when extraction succeeds and the conversation has none |
| `Pipeline.Conversation.FindOrCreate` | backend/app/client/service.py:92-160 | Reuses a client exactly when a role corroborates the name; never alters another client |
| `Pipeline.ContentIsNotBlank` | backend/app/memory/service.py:234-241 | A printable character anywhere makes a text worth extracting; spaces and line ends alone do not |
| `Pipeline.Conversation.MatchPeople` | backend/app/orchestrator/conversation_processing.py:176-208 | Every extracted client is served, only records of extracted clients are matched or created, and the primary client is the record of the first of them |
| `Pipeline.Conversation.Reconcile` | backend/app/orchestrator/conversation_processing.py:148-225 | A manual assignment is left alone; otherwise every extracted client has a record that received the facts once, no other client has, and the conversation is linked to the record of the first |
| `Pipeline.Conversation.Run` | backend/app/orchestrator/conversation_processing.py:62-138 | When an attempt completes, in both directions and including the final save, and what a completed one has stored: the extracted memory and, unless assigned by hand, its reconciled clients, or nothing for a blank text; the status it leaves; at most one transcript and memory |
| `Pipeline.Conversation.RunAll` | backend/app/orchestrator/conversation_processing.py:78-117 | Over any sequence of attempts each moment follows from the one before (what is requested, stored and completed), from the moment a transcript is finished it is never altered or requested again, and from the moment a memory is stored it and its facts stay and no later attempt completes |
| `Corrections.PreviewsMatchTheirText` | backend/app/transcription/corrections.py:89-132 | Under any interleaving a stored preview was generated from the text stored with it, accepted saves expect 0, 1, 2, …, the last saved text is current, and the transcript never changes |
| `Corrections.StaleGenerationIsRefused` | backend/app/transcription/corrections.py:114-122 | A generation that outlives another save is refused |
| `Corrections.CorrectionRepository.Save` | backend/app/transcription/corrections.py:89-112 | Saves exactly when the conversation is completed, has a transcript and the version matches; clears the preview |
| `Corrections.CorrectionRepository.Ask` | backend/app/transcription/api.py:87-95 | Hands out the current text only at the expected version |
| `Corrections.CorrectionRepository.StorePreview` | backend/app/transcription/corrections.py:114-132 | Stores a preview only while the version it was asked for is current |
| `Corrections.DraftRepository.Save` | backend/app/memory/drafts.py:62-92 | Accepts exactly an owned conversation at the expected version; touches no other draft; text messages carry no subject |
| `Corrections.NoDraftUpdateIsLost` | backend/app/memory/drafts.py:62-92 | Over any sequence of saves the accepted ones of a draft expect 0, 1, 2, …, their number is the stored version, and the last one is what is stored |
| `Review.ValidateSources` | backend/app/client/review.py:69-80 | Passes exactly when every quote occurs in its source and completions name distinct open actions; a bad source is reported first |
| `Review.ContainsExactlyWhen` | backend/app/client/review.py:76 | A quote is contained in a text exactly when the text is something, the quote, and something |
| `Review.FingerprintExactlyWhen` | backend/app/client/review.py:152-163 | Two reads share a fingerprint exactly when name, source texts and linked conversations agree |
| `Review.ValidateAssessments` | backend/app/client/completion_review.py:46-77 | Accepts exactly a one-to-one assessment of the open actions in which every completion is quoted from a strictly later recording and nothing else carries evidence; returns the completions in order |
| `Review.AsManyAsActions` | backend/app/client/completion_review.py:49-51 | An accepted list has exactly as many assessments as there are open actions |
| `Review.CompletionsAreLater` | backend/app/client/completion_review.py:61-76 | The returned completions are exactly the completed assessments, each backed by a recording other than and later than the action's own |
| `Review.CompletionsMatch` | backend/app/client/completion_review.py:52-77 | The completions match the completed assessments one to one and in order |
| `Review.FinalValidationCannotFail` | backend/app/client/review.py:214-215 | Accepted details and assessments make the source and action check of the final stage pass |
| `Review.AttemptsFailAsTheyShould` | backend/app/client/review.py:196-247 | Which answers make an attempt usable, which failures are tried again, and which are not |
| `Review.ClientReviews.Generate` | backend/app/client/review.py:186-263 | Publishes exactly when everything reads the same before and after, the call is allowed, and the first attempt or, after a recoverable failure, the second is usable; what is published and saved is what that attempt delivered, its details and its completions in order; otherwise the saved review is unchanged and the error says why |
| `Review.SavedStaysValid` | backend/app/client/review.py:173-182 | A saved review whose fingerprint still matches passes the source and action checks against the current context |
| `Review.StillOpenKeeps` | backend/app/client/review.py:178-180 | Exactly the completions of open actions are kept, once and in order |
| `Review.ClientReviews.Load` | backend/app/client/review.py:167-183 | Loading never raises a source or action error; a changed fingerprint exposes no cached content; otherwise quotes are in the current sources and only open actions are suggested, all of them that were |
| `Review.ClientReviews.Serve` | backend/app/client/review.py:167-263 | The same for every review opened in any sequence of refreshes, merges and undos, each opening answered in order |
| `Monitoring.CountersAreTrailingRuns` | backend/app/monitoring/service.py:42-49 | The counters are the lengths of the trailing runs, cut at the threshold |
| `Monitoring.DueExactlyWhen` | backend/app/monitoring/service.py:50-61 | An event is due exactly when a full window disagrees with what was last accepted |
| `Monitoring.SentIsLatestWindow` | backend/app/monitoring/service.py:37-79 | With every delivery accepted, the flag is set exactly when the latest full window of the whole history is unhealthy |
| `Monitoring.AcceptedEventsAlternate` | backend/app/monitoring/service.py:68-79 | However deliveries fail, accepted events alternate starting with firing, each at the end of a full matching window |
| `Monitoring.CodesAreIndependent` | backend/app/monitoring/service.py:37-41 | A poll extends the history of each listed code by its own sample and no other history |
| `Monitoring.NotifiesExactlyWhen` | backend/app/monitoring/service.py:37-79 | In a poll a code notifies exactly when its latest full window disagrees with what was last accepted for it, and says what that window says |
| `Monitoring.HealthInProbes` | backend/app/monitoring/service.py:90-91 | One unknown probe, or none at all, keeps a poll from being healthy; one unhealthy probe makes it unhealthy |
| `Monitoring.Monitor.ProcessSignals` | backend/app/monitoring/service.py:31-80 | The loop keeps every incident equal to the counters of its history and returns the transitions due |
| `Monitoring.PingsExactlyWhen` | backend/app/monitoring/service.py:90-105 | A healthy ping leaves exactly when every probe of each of the last polls was known healthy; a failing one when those polls were unhealthy or an accepted failure awaits recovery |
| `Monitoring.HealthMonitor.ProcessHealthHeartbeat` | backend/app/monitoring/service.py:83-120 | The method sends those pings and remembers only what was accepted |
| `Monitoring.Heartbeat` | backend/app/monitoring/service.py:123-133 | The process heartbeat is withheld exactly when a notification of the poll was not accepted |
| `Archive.OpensToContent` | infrastructure/backup/backup.py:56-71 | A sealed archive is 38 bytes longer than its content and opens to exactly that content |
| `Archive.SealedLayout` | infrastructure/backup/backup.py:57-70 | The archive byte by byte: magic, nonce, content under the keystream, tag over header and ciphertext |
| `Archive.EncryptFile` | infrastructure/backup/backup.py:56-71 | Chunked encryption equals whole-file encryption for every chunking, and fails exactly above the size limit |
| `Archive.FileHash` | infrastructure/backup/backup.py:74-79 | The chunked digest is the digest of the whole file for every chunking |
| `Archive.VerifyRemote` | infrastructure/backup/backup.py:82-96 | Verification succeeds exactly when the download has the expected bytes and size |
| `Archive.CopySource` | infrastructure/backup/recordings.py:47-59 | A source is copied exactly when it has the listed size and is within the limit, and then byte for byte |
| `Recordings.Inventory` | infrastructure/backup/recordings.py:8-13 | The pages are read as one listing in which a repeated key keeps its last entry |
| `Recordings.LastItemCounts` | infrastructure/backup/recordings.py:11-12 | The last item of a key gives its entry |
| `Recordings.OnlyItemsAreListed` | infrastructure/backup/recordings.py:11-12 | Nothing is listed that is not an item |
| `Recordings.FlattenedInOrder` | infrastructure/backup/recordings.py:10-12 | Pages are read one after the other |
| `Recordings.AddSizes` | infrastructure/backup/recordings.py:37-38 | The total compared with the limit |
| `Recordings.SizesWithout` | infrastructure/backup/recordings.py:37-38 | That total counts every entry once, in any order |
| `Recordings.BackUp` | infrastructure/backup/recordings.py:40-87 | One object is certified exactly when it was copied whole and its backup downloads as it was sealed; the certificate holds its key, etag, size and both digests |
| `Recordings.Snapshot` | infrastructure/backup/recordings.py:16-120 | A manifest is in the store exactly when every listed object was copied and verified, the inventory did not change and the store kept the write; success exactly when the write was also acknowledged |
| `Recordings.EntriesAreTheInventory` | infrastructure/backup/recordings.py:75-85 | A manifest's entries are the inventory one for one in key order, each with its etag, size, digest of the bytes read and backup key |
| `Recordings.ManifestRestores` | infrastructure/backup/recordings.py:75-117 | A manifest's entries are the inventory one for one under distinct keys, and any object with its recorded digest opens to the recording that was read |
| `Recordings.CopiesTheListedVersion` | infrastructure/backup/recordings.py:44-59 | A short or overlong read of the listed version is never taken for it |
| `Recordings.SortedLists` | infrastructure/backup/recordings.py:40 | The snapshot visits each key once, ascending |
| `Recordings.BackupRun.Run` | infrastructure/backup/backup.py:237-352 | The recording manifest needs a verified database archive with an acknowledged manifest, and the heartbeat is attempted exactly after an acknowledged recording manifest |
| `Dashboard.ListLatest` | backend/app/dashboard/repository.py:51-67 | Keeps for each client with an action the one that is latest by time and then by id |
| `Dashboard.DueExactlyWhen` | backend/app/dashboard/service.py:68-93 | Suppression and dueness in terms of all contacts: due exactly when not suppressed and seven days have passed since every contact |
| `Dashboard.ContactIsTheLatest` | backend/app/dashboard/service.py:73-93 | The contact that counts is the latest upload or recorded contact, and there is none exactly when there was none |
| `Dashboard.FollowupTextIs` | backend/app/dashboard/service.py:108-117 | A follow-up names the client and the whole days since the latest contact, or a first conversation |
| `Dashboard.DueInListOrder` | backend/app/dashboard/service.py:104-119 | Due clients stand in the order of the list |
| `Dashboard.BuildFollowups` | backend/app/dashboard/service.py:95-119 | The first five due clients in list order, with their days |
| `Dashboard.CountDueFollowups` | backend/app/dashboard/service.py:200-219 | The count is the number of the same due clients |
| `Dashboard.DueMembers` | backend/app/dashboard/service.py:200-219 | The due clients are exactly the listed clients that need a follow-up |
| `Dashboard.BuildPriorities` | backend/app/dashboard/service.py:121-198 | The five highest of the failures and one candidate for each due client, stable on ties |
| `Dashboard.PriorityIs` | backend/app/dashboard/service.py:154-186 | A due client without contact scores 0, any other the whole days since the latest contact |
| `Dashboard.CandidatesAre` | backend/app/dashboard/service.py:130-186 | The candidates are the failures at 10,000, when there are any, and the due clients |
| `Dashboard.TheHighestAreShown` | backend/app/dashboard/service.py:188-195 | At most five by descending score, all of them candidates, and nothing left out scores higher |
| `Ranking.SortIsStable` | backend/app/dashboard/service.py:190-194 | Elements that tie stay in their order |
| `Dashboard.FailuresLeadExactlyWhen` | backend/app/dashboard/service.py:130-195 | Failures come first if and only if no due client scores above 10,000 days |
| `Dashboard.FailuresCanBeOutranked` | backend/app/dashboard/service.py:170-195 | An input in which a client precedes the failures |
| `Recommendations.BuildRecommendations` | backend/app/dashboard/service.py:221-309 | The loop, the sort and the renumbering compute the ranked list of the candidates |
| `Recommendations.RecommendedExactlyWhen` | backend/app/dashboard/service.py:237-259 | A client is a candidate exactly when it is not suppressed and is due or has open actions |
| `Recommendations.DueClientsAreCandidates` | backend/app/dashboard/service.py:200-259 | Whoever counts as due is also a candidate for a recommendation |
| `Recommendations.UrgencyInRange` | backend/app/dashboard/service.py:247-284 | Every candidate's urgency is between 50 and 100 |
| `Recommendations.RecommendationIs` | backend/app/dashboard/service.py:241-299 | Whom a recommendation is about and its days, counts and score, in terms of the latest contact and the open actions |
| `Recommendations.NamesLikeWords` | backend/app/dashboard/service.py:305 | Names compare by the first character that differs, a name before its extensions |
| `Recommendations.ScoreThenNameThenId` | backend/app/dashboard/service.py:303-307 | A higher score comes first, among equal scores the name decides, among equal names the id |
| `Recommendations.UrgencyIsTotal` | backend/app/dashboard/service.py:301-308 | Over the candidates of distinct clients the sort key is a total order: connected, transitive, and without ties |
| `Recommendations.ListOrderDoesNotMatter` | backend/app/dashboard/service.py:301-309 | Rearranging the client list does not change the recommendations |
| `Recommendations.TheMostUrgentAreShown` | backend/app/dashboard/service.py:301-309 | At most five, ranked by place, all of them candidates, and every candidate left out comes strictly after each one shown when the clients are distinct |
| `Activity.BuildRecentActivity` | backend/app/dashboard/service.py:340-389 | The loop skips undated items and shows the ten first of the stable descending sort |
| `Activity.TenOfEachSuffice` | backend/app/dashboard/repository.py:103-143 | Limiting each query to ten rows changes nothing in the ten entries shown |
| `Activity.TheLatestAreShown` | backend/app/dashboard/service.py:385-389 | What is shown are the ten latest happenings of both tables, latest first |
| `Activity.FollowupsAreOrdered` | backend/app/dashboard/repository.py:107-116 | The follow-up query lists every row once, latest first, ties by the larger id |
| `Activity.ItemsAreOrdered` | backend/app/dashboard/repository.py:137-143 | The query for completed items does the same with the dated ones |
| `Activity.GroupActions` | backend/app/dashboard/service.py:464-472 | One group per line in the order of first appearance, each holding exactly the items of its line in order |
| `Activity.GroupsPartitionTheItems` | backend/app/dashboard/service.py:464-528 | The groups are disjoint and hold every open item exactly once |
| `Activity.LinesByFirstItem` | backend/app/dashboard/service.py:464-472 | Lines stand in the order of their first items |
| `Activity.LineKeepsOrder` | backend/app/dashboard/service.py:472 | The items of a line stand in their own order |
| `Activity.CountOpenActions` | backend/app/dashboard/service.py:458-463 | Each client's count is the number of its open items, and only clients with one have an entry |
| `Activity.CountIsExact` | backend/app/dashboard/service.py:459-463 | A client's count is the number of places in the list that are its own |

## Left out

- The initial upload dispatch (`backend/app/conversation/api.py:104-127`) in the retry protocol: the job is queued before QUEUED is written, so a fast worker's status can be overwritten; the protocol starts from a failed conversation after it, and only `QuotaRuns` has the late write as a step.
- Worker crashes between steps: the protocol only lets a delivery vanish (`Abandon`), and job timeouts are not modelled.
- Review.ClientReviews.Generate: does not model the 60,000-character bound on the request body nor the logging of failures; the bound on items is the 30 of `ReviewDraft` and `ClientReview`, so more than 30 completions fail the attempt.
- Merge.Session.MergeClients: is atomic under the row locks that inspection takes; the overlap of two merges is left to those locks.
- Merge.Session.InspectMerge: visits the rows of a table in no particular order, so which of several obstacles is reported is open.
- Quota.Session.Snapshot: does not model the remaining amounts and the reset time that are only displayed.
- Pipeline.Conversation.FindOrCreate: compares names and roles in their normalised form; the table of role spellings in `_normalize_role` is not part of this model.
- Pipeline.Conversation.Reconcile: assumes that the manual flag was set before the attempt started; the session may hold an older one otherwise.
- Dashboard.BuildPriorities: leaves out the rank numbers, severities and links.
- Recommendations.BuildRecommendations: takes names as casefolded and leaves out the texts.
- Activity.GroupActions: takes the normalised texts as given; the cut to ten lines and the 100-row limit of the query are left out, so counts are those of the rows read.
- Monitoring.Monitor.ProcessSignals: takes the signals in the order of their codes; loading and saving the monitor state file are left out.
- Recordings.BackupRun.Run: stops at the heartbeat request; whether the receiver answers is left out, as are the export of the database and the audit log lines.
- Hash collisions, cryptographic strength, real clock formats, SQL text and the ORM identity map beyond the stale load of a redelivery.
- HTTP routes, authentication, settings, logging, the frontend, translations, migrations and storage paths: plumbing or easy members.
