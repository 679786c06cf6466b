# Moyro protocols in Dafny

A model of the PostgreSQL-backed protocols of the Moyro server, with proofs of what they promise. Every SQL statement
or transaction is one atomic step on a small table; a run is any sequence of such steps, so workers, request handlers,
goroutines and crashes interleave freely. Results are stated for every run, every input, or every reachable state.

`dafny verify dfyconfig.toml` checks everything.

| files | what they model |
|---|---|
| `Wrappers.dfy`, `Ordering.dfy`, `Counting.dfy` | option and result types; `ORDER BY` as the unique listing of a set under a total order; sizes |
| `Automations.dfy`, `AutomationRuns.dfy`, `AutomationSafety.dfy`, `AutomationOutcomes.dfy`, `LeaseTiming.dfy` | the leased and fenced work queue of automation runs, without and with timing assumptions |
| `SourceStream.dfy`, `Documents.dfy`, `DocumentSources.dfy`, `DocumentRuns.dfy`, `DocumentOutcomes.dfy` | documents captured from threads: the two change detectors, idempotent creation, revisions |
| `ActivityInbox.dfy`, `ActivityPages.dfy`, `ActivityOutcomes.dfy` | keyset paging of the activity inbox with a filter after the query |
| `Approval.dfy`, `ApprovalRuns.dfy`, `ApprovalOutcomes.dfy`, `Recovery.dfy`, `RecoveryRuns.dfy` | approval requests, quorum, outbox, the two executors and the recovery worker |
| `ApiKeys.dfy`, `KeyOutcomes.dfy`, `SecretFormat.dfy` | key rotation chains, edits, revocation; the secret format of section 5 of RFC 4648 |
| `LoginHandoff.dfy`, `LoginHandoffRuns.dfy`, `HandoffOutcomes.dfy` | one-time login handoffs with exact replay and bounded cleanup |
| `FileNames.dfy`, `Files.dfy`, `FileRuns.dfy`, `FileOutcomes.dfy` | uploads, thumbnails, discards and attachments as interleaved steps |
| `Bookmarks.dfy`, `BookmarkRuns.dfy`, `BookmarkOutcomes.dfy` | bookmark order and concurrent reorders |

Objects whose methods update rows are classes; each method is proved equal to a function of the old tables, and the
run modules prove their results about those same functions. Each `Outcomes` module says what the functions of its
component compute in plain columns and numbers of the tables: exactly when a request succeeds, what each error means,
and what every column holds afterwards.

## Where the code and its own words differ

The model follows the code. Each point names a lemma with a concrete run in which the promise fails and one that says
exactly when it holds.

- Document creation promises that a retry returns the first document even if the thread changed. It resolves the thread
  first, so a thread that has grown past 200 posts makes the retry fail (`LongThreadLosesReplay`). The retry returns the
  document if and only if it is not deleted and its source still resolves in its channel (`RetryReturnsTheDocument`).
- Bookmark reordering says that one transaction for read and write prevents shared positions. A bookmark created between
  the two can still end up sharing one (`CreationBetweenReadAndWriteShares`). `WriteLeavesNoSharedPosition` is the exact
  condition for one write, `SharedExactlyIfTaken` for every other step, and `ReordersNeverShare` follows for runs.
- An image uploaded as `thumb.jpg` is overwritten by its own thumbnail (`ThumbNamedUploadLosesItsBytes`); every other
  upload keeps its bytes (`BytesKeptExactlyUnlessOverwritten`).
- The cap of five attempts is only tested when a worker reports a failure, so a run whose workers die holding the lease
  is claimed without limit (`StolenLeasesAreUncapped`). A run is claimed at most five times if and only if the expired
  lease of its fifth claim is never taken over (`FiveClaimsExactlyUnlessPastCap`).
- A reminder that its user cancels between two attempts is created again (`CancelledReminderIsRecreated`). It is created
  at most once if and only if it is never inserted after such a cancellation (`ReminderOnceExactlyUnlessRecreated`).
- An approval is tested against its expiry with one clock sample and stored with a later one, which can be at the expiry
  (`DecisionTimeCanReachExpiry`). The tested sample is always before the expiry, and the stored time is before it exactly
  if the later sample is (`ApprovalBeforeExpiry`).
- A cleanup of expired handoffs can turn a success into a refusal when the exchange read its clock before the expiry
  and ran after the cleanup (`EarlySampleSeesCleanup`). It changes an exchange if and only if it deletes the row of an
  exchange that was admitted (`CleanupChangesExactly`; for whole runs `CleanupInvisible`).

## Conventions

Times are milliseconds. A string is a sequence of bytes, one per character. Identifiers that the code draws at random
are parameters that a step refuses if they are taken. SHA-256, SHA-1 and md5 are unknown functions; a result that needs
two digests to differ says for exactly which two inputs. Access rules (membership, roles, constraints, `canReview`) are
arbitrary parameters. Clock samples are parameters of the step that reads them.

## Model

| member | source | states |
|---|---|---|
| Automations.RunIdInjective | server/internal/automations/worker.go:463-465 | the text hashed into a run id determines rule, action and post, because identifiers hold no NUL |
| Automations.RetryDelay | server/internal/automations/worker.go:111-120 | the doubling loop computes min(30 s · 2^(n−1), 15 min) for n ≥ 1 and 30 s below, for every attempt number |
| Automations.BackoffMonotone | server/internal/automations/worker.go:111-120 | the delay never shrinks with the attempt number and stays between 30 s and 15 min |
| Automations.RunStore.SelectDue | server/internal/automations/worker.go:59-67 | the selection is exactly the first `limit` due and unlocked rows in claim order: nothing skipped, nothing extra |
| Automations.RunStore.ClaimDue | server/internal/automations/worker.go:51-89 | the whole new table after a claim; the limit is clamped to 1..200 with default 50 |
| Automations.ClaimAllRow | server/internal/automations/worker.go:69-77 | a claimed row is rewritten once: attempts + 1, lease = claim + 120 s, its own fresh token |
| Automations.ClaimAllOthers | server/internal/automations/worker.go:69-77 | a claim changes no row outside its list |
| Automations.RunStore.MarkSucceeded | server/internal/automations/worker.go:91-109 | the update lands exactly when the row is processing under this token; otherwise stale and no change |
| Automations.RunStore.MarkFailed | server/internal/automations/worker.go:131-160 | same guard; dead when permanent or at five attempts, else retry at now + delay |
| Automations.RunStore.EnqueuePost | server/internal/automations/service.go:585-644 | one pending run for each matching action, existing runs untouched |
| Automations.RunStore.CancelRule | server/internal/automations/service.go:430-438 | only the waiting runs of the rule are cancelled; runs that are processing stay with their holder |
| AutomationRuns.StepKeepsInv | server/internal/automations/worker.go:51-160 | every step of workers, rule edits and users keeps rows, claims, results and created objects consistent |
| AutomationRuns.ExecKeepsInv | server/internal/automations/worker.go:51-160 | the invariant over every run of the system |
| AutomationSafety.OnlyLatestClaimFinalises | server/internal/automations/worker.go:91-109 | a finalising statement changes a row if and only if its token is the newest claim of a run still processing, and then only that row |
| AutomationSafety.TerminalRunsNeverChange | server/internal/automations/worker.go:51-160 | succeeded, dead and cancelled rows are never written again, whatever stale workers do |
| AutomationSafety.OneRunPerTriple | server/internal/automations/service.go:627-641 | two runs are the same row exactly when rule, action and post agree |
| AutomationSafety.EffectsAtMostOnce | server/internal/automations/worker.go:391-426 | over any run a task or decision is created at most once per triple, a reminder at most once if and only if it is never inserted after a cancellation, and no other run shares the key |
| AutomationSafety.ReminderOnceExactlyUnlessRecreated | server/internal/automations/worker.go:412-426 | the reminder of a run is created at most once if and only if no insert of it finds it absent after a user has cancelled it |
| AutomationSafety.SucceededRunNamesItsEffect | server/internal/automations/worker.go:91-109 | a succeeded row names the object created under its own key |
| AutomationSafety.ReachableRowsAreWellFormed | server/internal/automations/worker.go:111-160 | what each status says about attempts, token, lease and next attempt, in every reachable state |
| AutomationSafety.BatchClaimIsSteps | server/internal/automations/worker.go:51-89 | the one-statement batch claim equals single claims at one instant, so all results about single claims cover it |
| AutomationSafety.AttemptsCountClaims | server/internal/automations/worker.go:69-77 | the attempt count is the number of claim tokens ever issued for the run |
| AutomationSafety.ChangeDescends | server/internal/automations/worker.go:131-160 | a step lifts a run above five attempts exactly if it takes over the expired lease of its fifth; every other change strictly lowers a measure that ends at a terminal status |
| AutomationSafety.FiveClaimsExactlyUnlessPastCap | server/internal/automations/worker.go:59-77 | for every run of the system: a run is claimed at most five times if and only if the expired lease of its fifth claim is never taken over |
| AutomationSafety.FifthClaimIsLast | server/internal/automations/worker.go:131-141 | a run claimed five times is held or terminal, never waiting for another attempt |
| AutomationSafety.StolenLeasesAreUncapped | server/internal/automations/worker.go:59-77 | the cap of five is only tested by a failing worker: for every n a run can be claimed n times by stealing expired leases |
| AutomationSafety.CancelledReminderIsRecreated | server/internal/automations/worker.go:412-426 | a reminder cancelled between two attempts is created a second time |
| LeaseTiming.LeaseOutlivesWork | server/internal/automations/worker.go:264-304 | 10 s claim + 4 · (20 s + 5 s) + slack is below the 120 s lease, so work that is outstanding still holds its lease |
| LeaseTiming.TimedStepKeeps | server/internal/automations/worker.go:264-304 | every timed step keeps disjoint queues, budgets and ownership of the queued runs |
| LeaseTiming.NoRunHasTwoWorkers | server/internal/automations/worker.go:239-304 | if bounded calls end in time, no run is executed or finalised by two workers at once |
| LeaseTiming.FinalisingNeverStale | server/internal/automations/worker.go:277-304 | in such runs a finalising call always finds its own claim, before the lease ends: the stale-claim error is never reached |
| AutomationOutcomes.ClaimedExactlyWhenDue | server/internal/automations/worker.go:59-67 | over every run: a claim takes a row if and only if it is pending since its creation time, a retry since its last failure plus min(30 s · 2^(n−1), 15 min), or processing since a claim at least two minutes old |
| AutomationOutcomes.ClaimChanges | server/internal/automations/worker.go:69-77 | which rows a claim changes, and every column it writes, as plain numbers |
| Automations.DueStaysDue | server/internal/automations/worker.go:61-62 | a row that can be claimed can still be claimed later |
| Automations.SelectedAreDue | server/internal/automations/worker.go:59-67 | every selected row is unfinished, unlocked and due, and the rows come by the time they waited for, then by age, then by id |
| Automations.DueIsSelected | server/internal/automations/worker.go:59-67 | every unlocked row whose time has come is selected, unless the selection is full of rows that waited for no later time |
| AutomationOutcomes.BackoffValues | server/internal/automations/worker.go:111-120 | 30 s, 1, 2, 4 and 8 minutes, then 15 minutes for every later attempt |
| AutomationOutcomes.FailureOutcome | server/internal/automations/worker.go:131-160 | over every run: the failure its holder reports is final exactly if it is permanent or the fifth attempt, and stores its code |
| AutomationOutcomes.FailedRow | server/internal/automations/worker.go:131-160 | every column of a row after a failure: dead, or waiting until the failure plus the backoff |
| AutomationOutcomes.SuccessOutcome | server/internal/automations/worker.go:91-109 | a success names the object that the execution found or made |
| AutomationOutcomes.CancelOutcome | server/internal/automations/service.go:430-438 | switching a rule off or deleting it cancels exactly its pending and retrying runs |
| AutomationOutcomes.EnqueueOutcome | server/internal/automations/service.go:585-644 | a post has a run for each matching action and for no other; a new run is pending, due at once, for the actor of its rule |
| AutomationOutcomes.EffectNeedsCheck | server/internal/automations/worker.go:345-381 | over every run: a step creates an object only for a claim whose run an earlier step found readable, authorized and of an enabled rule |
| AutomationOutcomes.RefusedCheck | server/internal/automations/worker.go:345-381 | which failure a lost membership, a deleted post and an inactive rule each lead to, all permanent |
| AutomationOutcomes.ItemOutcome | server/internal/automations/worker.go:391-410 | the object under the key of the run is the result, old or new; a trashed one or one from another request is a failure that may be retried |
| LeaseTiming.FinaliseStores | server/internal/automations/worker.go:281-303 | in timed runs a finalising call stores the outcome of its action: succeeded with its result, dead, or to be retried |
| LeaseTiming.DueRunIsTakenUp | server/internal/automations/worker.go:264-275 | a due run can be claimed and started by any idle worker |
| LeaseTiming.EndedActionIsFinalised | server/internal/automations/worker.go:277-296 | an action that has ended can always go on to its finalising call |
| LeaseTiming.FinalCallEndsTurn | server/internal/automations/worker.go:281-303 | the finalising call takes the run out of processing and the worker on to the next |
| SourceStream.SourceRevision | server/internal/documents/service.go:313-334 | the loop over hash writes yields the first eight digest bytes of the stream with the sign bit cleared, 1 instead of 0 |
| SourceStream.CreateFingerprint | server/internal/documents/service.go:362-382 | the digest of the length-prefixed request fields |
| SourceStream.StreamInjective | server/internal/documents/service.go:322-328 | different lists of posts give different hashed streams although no count is written |
| SourceStream.RequestStreamInjective | server/internal/documents/service.go:373-380 | different creation requests give different hashed streams |
| Documents.ThreadOrderTotal | server/internal/documents/service.go:272 | the thread order (root, creation time, id) is a strict total order, so the query has one answer |
| Documents.LimitedTooLarge | server/internal/documents/service.go:272-294 | reading 201 rows is enough to decide whether the whole thread exceeds 200 posts or 120 000 runes |
| Documents.DocumentStore.SelectThread | server/internal/documents/service.go:266-274 | the first 201 live posts of the thread in order |
| Documents.DocumentStore.CollectRows | server/internal/documents/service.go:280-298 | the limits tested row by row reject exactly the lists that exceed one of them |
| Documents.DocumentStore.ResolveSource | server/internal/documents/service.go:242-304 | the complete live thread of a readable post with its token, or NotFound or SourceTooLarge |
| Documents.DocumentStore.ReplaceSources | server/internal/documents/service.go:493-507 | the source rows become those of the bundle, for this document only |
| Documents.DocumentStore.Create | server/internal/documents/service.go:384-491 | all tables and the result after a creation, including replay and conflicts; keeps one document per creator and key |
| Documents.DocumentStore.RefreshSource | server/internal/documents/service.go:632-648 | a refresh is accepted only for the same team, channel and thread at the offered token |
| Documents.DocumentStore.PatchDocument | server/internal/documents/service.go:585-670 | all tables and the error of a patch, in the order of its checks |
| Documents.DocumentStore.Delete | server/internal/documents/service.go:672-713 | soft deletion under the expected revision |
| DocumentSources.CaptureAt | server/internal/documents/service.go:497-505 | a captured post has one source row with its position and digest |
| DocumentSources.ResolvedFits | server/internal/documents/service.go:242-304 | a resolved bundle is a complete thread: root first, ordered, within the limits, one channel |
| DocumentSources.FreshThreadIsCapture | server/internal/documents/service.go:125-154 | not stale implies the live thread is the captured list, by subset and equal count |
| DocumentSources.CaptureIsFresh | server/internal/documents/service.go:125-154 | if the live thread is the captured list, the staleness query reports nothing |
| DocumentSources.TokenMatchesQuery | server/internal/documents/service.go:125-154 | one state: token equality if and only if not stale and readable |
| DocumentRuns.StepKeepsInv | server/internal/documents/service.go:384-713 | every post change and document transaction keeps cursor and source rows taken from one complete read |
| DocumentRuns.DetectorsAgree | server/internal/documents/service.go:125-154 | after any run, re-reading the thread yields the stored token exactly when the query reports no change |
| DocumentRuns.RefreshAcceptsStoredToken | server/internal/documents/service.go:634-648 | offering the stored token is accepted exactly when the document is not stale |
| DocumentRuns.PostStepGrows | server/internal/posts/service.go:170-250 | no post step changes the root or creation time of a post, and replies keep a root |
| DocumentRuns.OneDocumentPerKey | server/internal/documents/service.go:449-460 | at most one document per creator and idempotency key, over every run |
| DocumentRuns.ExecKeepsDocument | server/internal/documents/service.go:384-713 | creator, key, fingerprint, team, channel and thread of a document never change; revision and deletion only grow |
| DocumentRuns.RetryReturnsTheDocument | server/internal/documents/service.go:411-433 | a retry returns the original document if and only if it is not deleted and the source still resolves in its channel; it never creates another |
| DocumentRuns.LongThreadLosesReplay | server/internal/documents/service.go:292-294 | the comment at lines 411-413 promises replay after the thread changed; a thread grown past 200 posts makes the retry fail instead |
| DocumentRuns.RevisionCountsWrites | server/internal/documents/service.go:650-660 | the revision grows by one per successful patch or delete and by nothing else |
| DocumentRuns.RevisionSinceCreation | server/internal/documents/service.go:449-454 | the revision is one plus the successful writes since creation |
| DocumentRuns.OneWinnerPerRevision | server/internal/documents/service.go:610-612 | two successful writes of a document expected strictly increasing revisions, so one revision has at most one winner |
| SourceStream.StreamInOrder | server/internal/documents/service.go:322-328 | which fields of a post are written and in which order |
| SourceStream.FieldsAreWritten | server/internal/documents/service.go:316-320 | a text is its length in eight bytes and its bytes, a time its 64-bit two's complement |
| SourceStream.RevisionIsFirstEightBytes | server/internal/documents/service.go:329-334 | the token is the number in the first eight digest bytes without the highest bit, 1 instead of 0 |
| DocumentOutcomes.DocumentHoldsWhatWasGiven | server/internal/documents/service.go:585-670 | over every run: title, body and cursor of a document are those of the last successful patch that named them, otherwise those of its creation |
| DocumentOutcomes.StepWritesDocument | server/internal/documents/service.go:614-660 | what each successful write does to each column of its document, and that nothing else changes it |
| DocumentOutcomes.ListingOutcome | server/internal/documents/service.go:266-274 | the listing holds exactly the live posts of the thread as they are, root first, replies by time and id |
| DocumentOutcomes.ResolveOutcome | server/internal/documents/service.go:242-304 | a source resolves exactly if the post is readable, its root is live in the same channel and the live thread has at most 200 posts and 120 000 runes; it is that whole thread |
| DocumentOutcomes.RunesAdd | server/internal/documents/service.go:287-291 | the runes of a text are those of its parts; a byte counts exactly if it does not continue a character |
| DocumentOutcomes.TotalRunesAdds | server/internal/documents/service.go:287-291 | the size of a thread is the sum over its posts |
| DocumentOutcomes.CreateAnswers | server/internal/documents/service.go:384-447 | once the source resolves: created exactly if the creator has not used the key and the cursor is current; replayed exactly if the document under the key is live and made from the same request |
| DocumentOutcomes.CreateEffect | server/internal/documents/service.go:449-491 | every column of a new document and its source rows; nothing else changes, and a refused or replayed creation writes nothing |
| DocumentOutcomes.PatchAnswers | server/internal/documents/service.go:585-648 | exactly when a patch succeeds, and exactly when each refusal is answered |
| DocumentOutcomes.PatchEffect | server/internal/documents/service.go:614-670 | a patch writes the parts it names and the revision of one document, and its source rows exactly when it brings a cursor |
| DocumentOutcomes.RefreshAnswers | server/internal/documents/service.go:632-648 | a refresh is accepted exactly from the team, channel and thread of the document at the offered token |
| DocumentOutcomes.SecondWriterConflicts | server/internal/documents/service.go:610-612 | a successful patch makes the revision it expected a conflict for every other writer |
| DocumentOutcomes.DeletedIsGone | server/internal/documents/service.go:672-713 | a deleted document is not found by any later request; the others are as before |
| DocumentOutcomes.FreshExactlyWhen | server/internal/documents/service.go:125-154 | the staleness query in plain columns: root live, every captured post intact, no post added |
| DocumentOutcomes.PostStepOutcome | server/internal/posts/service.go:487-840 | what an edit, deletion, restoration or move does to each post |
| ActivityInbox.ListBatch | server/internal/activityevents/service.go:328-366 | a batch is the front of the rows below the cursor, newest first; a short batch is all of them |
| ActivityInbox.ReviewAccessAllowed | server/internal/activityevents/service.go:373-392 | one authorizer question per request and call; the cached answer decides |
| ActivityInbox.FilterBatch | server/internal/activityevents/service.go:298-309 | keeps exactly the rows that may be shown among those examined, until one more than a page is held |
| ActivityInbox.ListForPrincipal | server/internal/activityevents/service.go:243-326 | one page over changing tables: descending, below the cursor, only shown rows, every persistent shown row down to the next cursor; the loop terminates |
| ActivityPages.ChainReturns | server/internal/activityevents/service.go:317-325 | a row visible throughout is in the pages read so far or still below the next cursor |
| ActivityPages.FollowingCursors | server/internal/activityevents/service.go:243-326 | following cursors returns nothing twice, in strictly descending order, and every event that stayed visible |
| ActivityPages.PageIsFilterSortCut | server/internal/activityevents/service.go:276-325 | on an unchanging table a page is filter, sort, cut, and a cursor comes exactly when rows are left |
| ActivityOutcomes.PlainIsReturned | server/internal/activityevents/service.go:379-381 | a plain event that is there for the whole call and in the range of the page is on the page |
| ActivityOutcomes.ReviewIsReturnedExactlyIfAllowed | server/internal/activityevents/service.go:373-392 | a review event in the range of the page was decided by the call and is on the page exactly if the answer was yes |
| ActivityOutcomes.AuthorizerDecides | server/internal/activityevents/service.go:373-392 | if the authorizer keeps its mind, a review event is on the page exactly if it says yes |
| ActivityOutcomes.PageHolds | server/internal/activityevents/service.go:243-326 | whatever is on a page is an event of the table in its range, plain or allowed; newest first, no longer than asked for |
| ActivityOutcomes.NextMeansMore | server/internal/activityevents/service.go:317-325 | a next cursor is handed out only if an event that may be shown was left |
| ActivityOutcomes.PlainIsReturnedByCursors | server/internal/activityevents/service.go:243-326 | following the cursors returns every plain event that is there throughout |
| ActivityOutcomes.AllowedReviewIsReturnedByCursors | server/internal/activityevents/service.go:243-326 | and every review event that no call refused |
| ActivityOutcomes.ReturnedMayBeShown | server/internal/activityevents/service.go:373-392 | and nothing else: each returned event is plain, or allowed in the call that returned it |
| Approval.ApprovalStore.Submit | server/internal/approval/service.go:161-221 | a repeated key resolves to the stored request; otherwise one pending request with its expiry |
| Approval.ApprovalStore.Decide | server/internal/approval/service.go:223-326 | all tables and the result of a decision, in the order of its checks, including expiry and the outbox row |
| Approval.ApprovalStore.MarkExecuted | server/internal/approval/service.go:802-836 | approved becomes executed, executed is a success, anything else an error; the outbox row succeeds |
| Approval.ApprovalStore.RecordExecutionFailure | server/internal/approval/service.go:889-900 | a failure postpones the outbox row by at least a second unless it has succeeded |
| Approval.ApprovalStore.PendingExecutions | server/internal/approval/service.go:859-887 | the scan returns the earliest due requests up to the clamped limit, none twice |
| ApprovalRuns.StepKeepsInv | server/internal/approval/service.go:161-900 | every interleaved step keeps requests, decisions, outbox, posts and executors consistent |
| ApprovalRuns.VoteReachesQuorum | server/internal/approval/service.go:287-297 | a repeated approval changes neither count nor status; a new one approves exactly when it is the last needed |
| ApprovalRuns.QuorumInvariant | server/internal/approval/service.go:223-326 | pending means fewer distinct approvers than required, approved means exactly the required number, all permitted and never a forbidden requester |
| ApprovalRuns.RequestsOnlyMoveForward | server/internal/approval/service.go:223-326 | decided requests keep their status, approved ones only become executed, and a created post is never replaced |
| ApprovalRuns.OutboxMirrorsRequest | server/internal/approval/service.go:308-317 | an outbox row exists exactly when the request was ever approved, succeeded exactly when executed |
| ApprovalRuns.MarkNeverFails | server/internal/approval/service.go:794-830 | both racing executors report success for the one post |
| ApprovalRuns.ApprovedStaysEligible | server/internal/approval/service.go:859-877 | an approved unexecuted request is eligible for the scan from its available time on, after any crashes |
| ApprovalRuns.ScanReturnsUnlessOutranked | server/internal/approval/service.go:870-877 | an eligible request is returned unless `limit` others come no later |
| ApprovalRuns.ApprovalBeforeExpiry | server/internal/approval/service.go:244-304 | over every run: a request ever approved was approved by one decision on the pending request whose first clock sample was before the expiry; the stored time is its second sample and stays |
| ApprovalRuns.OnlyKnownActions | server/internal/httpapi/native_approval.go:40-43 | in every reachable state every request asks for one of the two protected actions, the only ones its callers submit |
| ApprovalRuns.DecisionTimeCanReachExpiry | server/internal/approval/service.go:244-304 | the stored decision time can be at the expiry although the check passed |
| ApprovalRuns.OneRequestPerKey | server/internal/approval/service.go:194-218 | at most one request per requester, action and key, over every run |
| Recovery.ExecuteApproved | server/internal/mcpserver/server.go:527-592 | execution of one approved request: post under the request id, then close; unknown actions do nothing |
| Recovery.RunOnce | server/internal/httpapi/approval_worker.go:45-62 | one pass scans, executes each request and records failures: the whole new tables |
| Recovery.PassTouchesOnly | server/internal/httpapi/approval_worker.go:53-61 | a pass changes no request outside its scan |
| Recovery.PassSettles | server/internal/httpapi/approval_worker.go:53-61 | each scanned request ends executed with a post, postponed by 30 s with one more attempt, or untouched if its action is unknown |
| Recovery.DueAgainExactlyIfUnknown | server/internal/httpapi/approval_worker.go:53-61 | after a pass a scanned request is due again at once exactly when the executor does not know its action |
| Recovery.ScanIsTaken | server/internal/httpapi/approval_worker.go:45-62 | on known actions a pass removes its scan from the due requests and adds none |
| RecoveryRuns.RunInv | server/internal/httpapi/approval_worker.go:45-62 | requests, outbox, posts and executors stay consistent, and all actions known, in every run in which passes interleave with all other steps |
| RecoveryRuns.PassShrinksQueue | server/internal/httpapi/approval_worker.go:45-62 | in every reachable state a pass removes its scan from the due requests and adds none |
| RecoveryRuns.EventShrinksAhead | server/internal/approval/service.go:870-877 | no event lets a request get ahead of one that is due and undisturbed, and a pass that does not scan it takes a hundred from ahead |
| RecoveryRuns.DueIsAttempted | server/internal/httpapi/approval_worker.go:29-43 | in every run, a request due at some time is scanned, or executed or put off by another executor, before ⌈n/100⌉ later passes are over, n being the requests due at that time |
| ApprovalOutcomes.SubmitOutcome | server/internal/approval/service.go:161-221 | a submission under a used key changes nothing; any other adds one pending request that expires the policy's seconds later, or never |
| ApprovalOutcomes.DecisionAnswers | server/internal/approval/service.go:223-272 | exactly when a decision is accepted, and exactly when each error is answered |
| ApprovalOutcomes.LateDecisionExpires | server/internal/approval/service.go:244-253 | a decision on a pending request at or after its expiry leaves it expired and answers AlreadyDecided |
| ApprovalOutcomes.AcceptedDecision | server/internal/approval/service.go:273-317 | an accepted approval approves exactly if the distinct approving reviewers reach the required number, and holds the execution back by 15 s; a rejection rejects |
| ApprovalOutcomes.ApprovedInTime | server/internal/approval/service.go:244-304 | over every run: the approving decision read its clock before the expiry, or there is none |
| ApprovalOutcomes.MarkOutcome | server/internal/approval/service.go:802-836 | closing a request: which statuses close, every column written, nothing else touched |
| ApprovalOutcomes.FailureOutcome | server/internal/approval/service.go:889-900 | a recorded failure counts an attempt and puts the execution off by the given time, at least a second |
| ApprovalOutcomes.ScanOutcome | server/internal/approval/service.go:859-887 | a scan lists only requests that await execution, and each of them unless it is full of requests that come no later |
| Recovery.AttemptOutcome | server/internal/mcpserver/server.go:527-592 | one attempt in plain columns: executed with one post, put off by 30 s, or left alone |
| ApiKeys.KeyStore.Create | server/internal/apikeys/postgres.go:21-37 | a new active key that starts its own rotation group at version 1 |
| ApiKeys.KeyStore.Rotate | server/internal/apikeys/postgres.go:86-153 | all rows and the result of the locked rotation |
| ApiKeys.KeyStore.ReplacePermissions | server/internal/apikeys/postgres.go:155-198 | all rows and the error of an edit under an optional expected revision |
| ApiKeys.KeyStore.Revoke | server/internal/apikeys/postgres.go:200-214 | revocation of a key that is not yet revoked |
| ApiKeys.KeyStore.MarkUsed | server/internal/apikeys/postgres.go:216-224 | the last use is written at most once a minute and nothing else changes |
| ApiKeys.StepKeepsInv | server/internal/apikeys/postgres.go:86-153 | every step, with preflight and commit of rotations apart, keeps the chains |
| ApiKeys.RotationChain | server/internal/apikeys/postgres.go:111-147 | in every reachable state each group has versions exactly 1..n linked by predecessor, one expiry, and only the newest may be active |
| ApiKeys.SnapshotIrrelevant | server/internal/apikeys/postgres.go:114-125 | two rotations that differ only in their preflight snapshot commit the same rows |
| ApiKeys.GrantChangesOnlyByEdit | server/internal/apikeys/postgres.go:155-198 | permissions and constraints of a key change only by an edit that names it |
| ApiKeys.GrantStable | server/internal/apikeys/postgres.go:86-214 | the same over any sequence of steps without such an edit |
| ApiKeys.EditBeforeCommitIsInherited | server/internal/apikeys/postgres.go:114-148 | an edit committed between preflight and commit is inherited by the replacement |
| ApiKeys.UnusableForever | server/internal/apikeys/apikeys.go:391-403 | a key that is unusable once is unusable at every later time, whatever happens to it |
| ApiKeys.GroupExpires | server/internal/apikeys/apikeys.go:391-403 | no member of a group is usable at or after the expiry of its first key |
| SecretFormat.DecodeEncode | server/internal/apikeys/apikeys.go:345 | unpadded base64url decoding inverts encoding for every byte string |
| SecretFormat.EncodeDecode | server/internal/apikeys/apikeys.go:387 | every strictly decodable text is the encoding of what it decodes to |
| SecretFormat.FormatAcceptsExactlySecrets | server/internal/apikeys/apikeys.go:383-389 | the format test accepts exactly the prefix followed by the encoding of one unique 32-byte value; the length rules out line breaks |
| KeyOutcomes.UsableExactlyWhen | server/internal/apikeys/apikeys.go:391-403 | a key is usable exactly before its expiry, not revoked, and active or retiring within its grace period |
| KeyOutcomes.RotationAnswers | server/internal/apikeys/postgres.go:86-113 | a rotation succeeds exactly for the owner's key that is active, not revoked and not past its expiry |
| KeyOutcomes.RotationOutcome | server/internal/apikeys/postgres.go:111-153 | after a rotation the old key is usable exactly until the grace period or its expiry ends, the new one exactly until that expiry, with the columns it inherits |
| KeyOutcomes.BegunRotation | server/internal/apikeys/apikeys.go:286-297 | the grace period counts from the clock sample after the preflight test |
| KeyOutcomes.GraceIsKept | server/internal/apikeys/postgres.go:111-153 | over every run: this stays so through any later steps that neither revoke nor rotate the two keys |
| KeyOutcomes.UseUnchangedOtherwise | server/internal/apikeys/postgres.go:155-224 | steps that neither revoke nor rotate a key change none of the times at which it is usable |
| KeyOutcomes.EditAnswers | server/internal/apikeys/postgres.go:155-176 | an edit succeeds exactly for the owner's key that is not revoked, at the expected revision if one is given |
| KeyOutcomes.StaleEditLoses | server/internal/apikeys/postgres.go:174-187 | of two edits that expect one revision the second is refused |
| KeyOutcomes.RevocationOutcome | server/internal/apikeys/postgres.go:200-214 | a revocation succeeds exactly for the owner's unrevoked key, which is then never usable |
| SecretFormat.EncodedGroup | server/internal/apikeys/apikeys.go:345 | three bytes are written as the four base-64 digits of the number they make |
| LoginHandoff.CleanupTakesEarliest | server/internal/auth/handoff.go:44-53 | a cleanup deletes every expired row if at most 256, else only rows that expired before those it leaves |
| LoginHandoff.HandoffStore.Cleanup | server/internal/auth/handoff.go:44-53 | the table after a cleanup |
| LoginHandoff.HandoffStore.CreateLoginHandoff | server/internal/auth/handoff.go:36-85 | a row for five minutes, or the error for a missing user or an expired guest |
| LoginHandoff.HandoffStore.ExchangeLoginHandoff | server/internal/auth/handoff.go:92-186 | all tables and the result of an exchange, in the order of its checks |
| LoginHandoff.HandoffStore.RevokeSessions | server/internal/store/migrations/000012_sso_handoff_idempotency.up.sql:5-7 | deleting a session deletes the handoff that names it |
| LoginHandoffRuns.StepKeepsInv | server/internal/auth/handoff.go:36-186 | every step keeps rows, sessions and the history of each code consistent |
| LoginHandoffRuns.OneSessionPerCode | server/internal/auth/handoff.go:92-186 | a code makes at most one session; all successes return its token, with the issued binding, before expiry and within a minute of the first |
| LoginHandoffRuns.NeverInconsistent | server/internal/auth/handoff.go:127-129 | the inconsistent-completion branch is unreachable |
| LoginHandoffRuns.ExchangeSucceedsExactlyWhen | server/internal/auth/handoff.go:115-181 | the exact condition of success in every reachable state, and the token it returns |
| LoginHandoffRuns.RevokedSessionEndsItsCode | server/internal/auth/handoff.go:148-158 | once the session of a code is gone no later exchange of the code succeeds |
| LoginHandoff.SucceedsExactlyIfAdmitted | server/internal/auth/handoff.go:115-181 | on a consistent row an exchange succeeds exactly under conditions a caller can check beforehand, and is otherwise refused |
| LoginHandoffRuns.CleanupChangesExactly | server/internal/auth/handoff.go:41-53 | in every reachable state a cleanup changes an exchange if and only if it deletes its row and the exchange was admitted; then its clock sample is before an expiry that the cleanup has passed |
| LoginHandoffRuns.CleanupInvisible | server/internal/auth/handoff.go:41-53 | removing all cleanups from a run changes no exchange outcome if and only if no cleanup deleted the row of an exchange then admitted; the sessions are then the same |
| LoginHandoffRuns.LaterSamplesAreNeverSpoiled | server/internal/auth/handoff.go:41-53 | that holds in particular when every exchange reads its clock no earlier than the cleanups before it |
| LoginHandoffRuns.EarlySampleSeesCleanup | server/internal/auth/handoff.go:114-123 | a run in which a cleanup turns the success of an exchange with an early clock sample into a refusal |
| HandoffOutcomes.CreateAnswers | server/internal/auth/handoff.go:65-83 | exactly who gets a handoff, and what a missing account and an ended guest are told |
| HandoffOutcomes.ExchangeAnswers | server/internal/auth/handoff.go:92-181 | exactly when an exchange succeeds, on any row, with which token, and how it fails otherwise |
| HandoffOutcomes.ExchangeEffect | server/internal/auth/handoff.go:162-181 | the first exchange makes the session of the handoff's account and marks the row; any other changes nothing |
| HandoffOutcomes.ExchangedCodeRepeats | server/internal/auth/handoff.go:148-161 | an exchanged code answers with the same token for a minute, while handoff and session live, and never after |
| HandoffOutcomes.CleanupOutcome | server/internal/auth/handoff.go:44-53 | a cleanup deletes min(256, n) of n expired rows, the earliest, and nothing else |
| HandoffOutcomes.RevokeOutcome | server/internal/store/migrations/000012_sso_handoff_idempotency.up.sql:5-7 | deleting sessions deletes exactly the handoffs exchanged for one of them |
| HandoffOutcomes.DropUserOutcome | server/internal/store/migrations/000011_login_handoffs.up.sql:7 | deleting an account deletes its handoffs and sessions and no other |
| FileNames.SanitizedNameIsClean | server/internal/files/service.go:391-399 | a stored name has no separator and no "..", clean names are kept, others keep an underscore |
| FileNames.OnlyThumbNameClashes | server/internal/files/service.go:192 | a stored name equals the thumbnail name exactly when the given name does |
| Files.FileService.UploadWrite | server/internal/files/service.go:91-97 | the object of an upload |
| Files.FileService.UploadInsert | server/internal/files/service.go:117-130 | the row, or removal of the object when the insert fails; images start a thumbnail |
| Files.FileService.ThumbnailOpen | server/internal/files/service.go:152-165 | the goroutine goes on only if the original is there and decodes |
| Files.FileService.ThumbnailWrite | server/internal/files/service.go:192-195 | the thumbnail object in the directory of the file |
| Files.FileService.ThumbnailRecord | server/internal/files/service.go:203-210 | the path goes to the row, or the thumbnail is removed when no row is left or the update fails |
| Files.FileService.DiscardRow | server/internal/files/service.go:224-233 | only an unattached row is deleted |
| Files.FileService.DiscardThumbnail | server/internal/files/service.go:234-236 | the recorded thumbnail is removed |
| Files.FileService.DiscardOriginal | server/internal/files/service.go:237 | the original is removed |
| Files.FileService.AssociateWithPost | server/internal/files/service.go:281-329 | unattached own files are attached, and the answer lists the attached requested ids in order, each once |
| Files.CanonicalIsAttached | server/internal/files/service.go:306-314 | the answer holds exactly the requested ids that are attached to the post afterwards |
| Files.AttachIsIdempotent | server/internal/files/service.go:277-280 | attaching again changes nothing, and files attached elsewhere are never moved |
| FileRuns.StepKeepsInv | server/internal/files/service.go:91-238 | every interleaved step leaves each stored object answered for by a row or a running activity |
| FileRuns.NoOrphans | server/internal/files/service.go:200-238 | once everything has finished no object is an orphan, and the stored objects are exactly those named by surviving rows if and only if no upload named like the thumbnail lost its object to a failed thumbnail update |
| FileRuns.RowsNameStoredObjects | server/internal/files/service.go:197-210 | at any moment every row names stored objects, but for an upload named like the thumbnail whose thumbnail was removed again |
| FileRuns.AttachedStays | server/internal/files/service.go:220-227 | an attached file keeps its row for ever, and its object unless that went with its own thumbnail |
| FileRuns.BytesKeptExactlyUnlessOverwritten | server/internal/files/service.go:192-210 | a file keeps its uploaded bytes if and only if it is not an image named like the thumbnail whose thumbnail was written |
| FileRuns.OtherNamesKeepTheirBytes | server/internal/files/service.go:91-97 | every upload given another name keeps its bytes |
| FileRuns.ThumbNamedUploadLosesItsBytes | server/internal/files/service.go:192-195 | an image uploaded as thumb.jpg and attached to a post is replaced by its thumbnail |
| FileOutcomes.AttachOutcome | server/internal/files/service.go:281-304 | after an attachment a row is on the post exactly if it was, or was requested, owned and on none; no other column changes |
| FileOutcomes.AnswerOutcome | server/internal/files/service.go:306-329 | the answer holds exactly the requested own files that were on the post or on none |
| FileOutcomes.AnswerOrder | server/internal/files/service.go:306-329 | the answer lists them by the first place at which they were asked for |
| FileOutcomes.UploadOutcome | server/internal/files/service.go:91-130 | what an upload leaves: object, row and waiting thumbnail |
| FileOutcomes.FailedUploadOutcome | server/internal/files/service.go:117-125 | an upload whose row fails takes its object back |
| FileOutcomes.ThumbnailOutcome | server/internal/files/service.go:152-210 | what the goroutine leaves: thumbnail and path together, or neither |
| FileOutcomes.DiscardOutcome | server/internal/files/service.go:224-238 | a discard removes row, recorded thumbnail and original, and nothing else |
| FileOutcomes.DotsReplaced | server/internal/files/service.go:391-399 | the first two adjacent dots of a name become one underscore, and the rest is treated the same way |
| Bookmarks.BookmarkStore.List | server/internal/bookmarks/service.go:45-66 | the live rows of a channel by position and creation time |
| Bookmarks.BookmarkStore.MaxOrder | server/internal/bookmarks/service.go:99-103 | the highest live position, 0 for an empty channel |
| Bookmarks.BookmarkStore.Patch | server/internal/bookmarks/service.go:133-163 | a patch sets the position of a live bookmark of the channel if one is given, or reports NotFound |
| Bookmarks.BookmarkStore.Create | server/internal/bookmarks/service.go:86-117 | appended after the highest position unless one is given |
| Bookmarks.BookmarkStore.Delete | server/internal/bookmarks/service.go:167-179 | soft deletion in its channel or NotFound |
| Bookmarks.BookmarkStore.Plan | server/internal/bookmarks/service.go:229-252 | search, cut out, clamp and put back compute the move, or NotFound |
| Bookmarks.BookmarkStore.WritePositions | server/internal/bookmarks/service.go:254-267 | live rows of the channel in the list get their index, nothing else changes |
| Bookmarks.BookmarkStore.Reorder | server/internal/bookmarks/service.go:198-269 | uninterrupted: the only possible list afterwards is the old one with the item at the clamped place, and positions are 0..n−1 |
| Bookmarks.MovedIsMove | server/internal/bookmarks/service.go:240-252 | the computed order has the item at the clamped place and all others in their old relative order |
| Bookmarks.MoveUnique | server/internal/bookmarks/service.go:240-252 | that description fixes the order |
| Bookmarks.MoveBackRestores | server/internal/bookmarks/service.go:240-252 | moving the item back restores the old order |
| Bookmarks.WithoutKeepsOrder | server/internal/bookmarks/service.go:240-242 | removing the item keeps the relative order of any two others |
| Bookmarks.WrittenOrderIsTheList | server/internal/bookmarks/service.go:181-186 | with all live rows written, the list query has one answer, the written order, whatever the creation times |
| BookmarkRuns.WriteLeavesNoSharedPosition | server/internal/bookmarks/service.go:254-267 | a write leaves no shared position if and only if the live rows it misses collide neither with each other nor with a written row |
| BookmarkRuns.SharedExactlyIfTaken | server/internal/bookmarks/service.go:86-179 | away from reorders, positions become shared exactly if a creation or patch puts a bookmark onto another |
| BookmarkRuns.ReordersNeverShare | server/internal/bookmarks/service.go:195-197 | over every run with creations, patches and deletions: if no creation in a channel falls between read and write of a reorder of it, no position is shared from a completed reorder on until one in use is taken |
| BookmarkRuns.ReordersAndDeletesNeverShare | server/internal/bookmarks/service.go:195-197 | any interleaving of reads and writes of reorders with deletions leaves no shared position in a channel where a reorder has completed |
| BookmarkRuns.CreationBetweenReadAndWriteShares | server/internal/bookmarks/service.go:195-197 | the comment says one transaction is enough; with a creation between read and write two completed reorders leave a shared position |
| BookmarkOutcomes.MoveOutcome | server/internal/bookmarks/service.go:240-252 | the list after a move, place by place: the item at the place asked for, those between stepping one place back, all others staying |
| BookmarkOutcomes.ReorderOutcome | server/internal/bookmarks/service.go:198-269 | the next list after an uninterrupted reorder, place by place, whatever positions and creation times were |
| BookmarkOutcomes.ListOutcome | server/internal/bookmarks/service.go:45-66 | a list holds exactly the live bookmarks of the channel, each once, by position and then by creation time |
| BookmarkOutcomes.WriteOutcome | server/internal/bookmarks/service.go:254-267 | a write gives each listed live row its place and changes nothing else |
| BookmarkOutcomes.CreatedLast | server/internal/bookmarks/service.go:99-117 | a bookmark created without a position lists behind every live one of its channel |

## Left out

- RunStore: `SKIP LOCKED` is an arbitrary set of locked rows for each claim; SQL locks are not modelled further.
- AutomationRuns.DoCreateItem: the work item service is an insert under the idempotency key with its fingerprint and trash conflicts; its other checks are the arbitrary failure of a step.
- Automations.RunStore.EnqueuePost: the query that selects enabled actions and the lower-cased text match are the given candidate list.
- AutomationRuns.DoCheck: which rules match a post (lower-cased text search) and who may read it are arbitrary parameters.
- Automations.DeterministicRunId: SHA-1 is taken as collision-free, so the id is the text that is hashed.
- Documents.DocumentStore.Create: normalisation of title, body and identifiers is done before the step; the transaction is one step, so the branch for a key taken between its lookup and its insert is not a separate interleaving.
- Documents.DocumentStore.PatchDocument: the texts of a patch are normalised before the step, so the refusal of an invalid text after the revision check is not modelled.
- Documents.Captured: `captured_update_at` is written but never read, and is not modelled.
- ActivityInbox.Event: read, completed and snooze marks only decide whether a query sees a row; the marks in a returned row, the state updates and event emission are simple single statements.
- ActivityInbox.Cursor: the JSON text of a cursor and its validation.
- Approval.ApprovalStore.Submit: policy matching; policies and the reviewer authorizer are fixed during a run, so edits of a policy while a vote is open are not covered.
- Recovery.ExecuteApproved: the permission, payload and channel checks before the post are one arbitrary refusal; they only decide whether a request is executed or postponed.
- RecoveryRuns.PassSystem: a pass is one event with one clock sample; the same worker taking single requests in between other steps is `ApprovalRuns`.
- ApiKeys.KeyStore.Rotate: owner and guest validity of the preflight read, request validation and the canonical order of permission lists.
- LoginHandoff.ExchangeResult: decoding and hashing a code are one arbitrary partial function of the presented text.
- Files.FileService.UploadWrite: storage writes and removals succeed; a half-written object, a failing removal and a committed database statement whose answer is lost are not covered.
- Bookmarks.BookmarkStore.Patch: only the position; the display fields of a bookmark have no rules.
- Isolation anomalies inside one transaction other than the two-statement reorder; drivers, SQL text and JSON encoding.
- Replacing system policies and their setting: a validation loop over a list and single-row updates.
- Thumbnail scaling, broadcasting, audit, e-mail, AI streaming, plugins, S3, OIDC, browser cookies and the HTTP compatibility handlers.
- Guest visibility queries, unread counters, slash commands and other single queries that would add only easy members.
