# The backend's protocols, modelled and proved

The backend keeps several small protocols as database rows that change by transactions: the review
and publication of drafts, the delivery of digests, an outbox, families of refresh sessions, a lease
on detection runs, the ingest and hand-over of webhook events, a rate limiter. Beside them stand a few
algorithms: an edit distance, UTF-16 slicing, a repetition detector and a ranker. This project models
them and proves what they keep over every run.

`dafny verify dfyconfig.toml` checks everything.

## How to read it

A protocol has three layers.

- A `State` of tables, a `Step` for each transaction, provider call and crash, and `Apply` and `Run`.
  One transaction is one atomic step, except where `OutboxRaces` and `SessionRaces` split it; provider
  calls, crashes and the transactions of any number of other workers come between the steps in any
  order. Time is a number of seconds that a step brings with it; ids are fresh; a provider's answer is
  the environment's choice.
- A class whose fields are the tables and whose methods follow the code statement by statement
  (`DraftTables`, `DigestTable`, `OutboxTable`, `DeliveryWorkflow`, `SessionTable`, `RunTable`,
  `EventTables`, `PublishingWorkflow`, `UniqueTable`, `RedisCache`, `CacheRateLimitStore`,
  `TweetOptionRanker`). Each method is proved to take exactly the step of the model it stands for,
  and to answer what the model says.
- Lemmas over `Run`: an invariant that every step keeps, and the results that follow from it.

Beside them, the `*Laws.dfy` files say of each operation when it acts and what it then leaves, in the
columns of the rows and the replies alone and without the functions that define the steps. What they say
of one call they carry on over runs: a logout ends the session for good, a recorded delivery stays
recorded, every call to the provider was begun on a draft that was approved or that its reservation approved.

| file | what it holds |
|---|---|
| `TextDistance.dfy` | the two-row edit distance, edit scripts, and why one is the least length of the other |
| `Drafts.dfy`, `DraftHistory.dfy`, `DraftStore.dfy` | drafts, their two logs, and the tables as the service updates them |
| `Publication.dfy`, `KeyReuse.dfy`, `Resending.dfy` | the publication command over its key; a second command under one key; several commands for one draft |
| `DigestDelivery.dfy` | mark, send, record |
| `Idempotency.dfy`, `Outbox*.dfy` | first-writer-wins insert; outbox model, safety, overlapping records, schedule, delivery loop |
| `Sessions.dfy`, `SessionRaces.dfy` | rotation families; rotations and replays that overlap |
| `DetectionLease.dfy` | run leases |
| `GithubEvents.dfy`, `Publisher.dfy` | deduplicated ingest; the loop that can stop halfway |
| `Utf16.dfy`, `Repetition.dfy`, `Ranking.dfy` | code units; similarity and penalty; scores and the stable sort |
| `RateLimit.dfy` | the fixed window over the Redis counter |
| `DraftLaws.dfy`, `DigestLaws.dfy`, `OutboxLaws.dfy`, `SessionLaws.dfy`, `LeaseLaws.dfy`, `EventLaws.dfy` | what each operation of a protocol leaves, said of its rows and replies |
| `RepetitionLaws.dfy`, `RankingLaws.dfy` | what a normal form, a similarity, a penalty and a score are, read off the texts |

## What a reader might not expect

- Rejected and posted drafts stay rejected and posted even while a publication of them is in flight.
  The status check before the provider call is not the reason: the constraint
  `drafts_approval_required` makes the recording transaction of a late publication roll back
  (`DraftHistory.PublicationIsFaithful`, `DraftHistory.TerminalStatusesAbsorb`).
- So a post that the provider accepted is recorded exactly if the draft is still approved, or posted by
  another command, at that moment; otherwise its attempt is left in flight
  (`Publication.AcceptedPostIsRecordedIffStillApproved`, with a run in `Resending.AcceptedPostCanGoUnrecorded`).
- At most once holds for a command key, not for a draft. `Resending.DraftCanBeSentIff` says exactly when
  a draft of any status can be sent (again); `Resending.PostedDraftCanBeSentAgain` and
  `Resending.ApprovedDraftCanBeAcceptedTwice` are runs in which it is accepted twice.
- The digest reply "unknown_outcome" does not exclude that a later call sends: another worker's refusal
  may still be recorded (`DigestDelivery.UnknownReplyCanBeFollowedByASend`, with the exact condition in
  `DigestDelivery.AnotherSendIffStillOpen`).
- The outbox backoff cap of 300 seconds never binds, because the exponent is capped at 8 first
  (`OutboxSchedule.CapNeverBinds`).
- Attempts can exceed the maximum, since a claim does not look at it: exactly if a claim takes an event
  whose attempts are used up (`OutboxRaces.AttemptsExceedIffSpentTaken`, over every run). With serial
  records that is a publishing event whose worker is late or dead
  (`OutboxSchedule.AttemptsExceedIffSpentTakenOver`, `OutboxSchedule.AttemptsCanExceedTheMaximum`); with
  overlapping ones it can be a pending event, too (`OutboxRaces.OverlapCanExceedTheMaximum`).
- Recording a publish reads the row without locking it. If two late workers overlap there, a published
  event can become pending again (`OutboxRaces.PublishedEventCanBecomePendingAgain`). `OutboxRaces`
  proves what survives, when exactly a finished event can still change, and that `OutboxSafety` and
  `OutboxSchedule` speak of exactly the runs without such an overlap.
- A replayed token kills its family, unless a rotation that was open when the replay started to mark
  commits before it writes: `SessionRaces.ReplayKillsTheFamilyIff` is the exact condition, and
  `SessionRaces.FamilyCanSurviveAReplay` a run in which the newest session stays active.
- A consumer whose publishing process ends between its claim and its publish is never published
  (`Publisher.LostConsumerIsNeverPublished`).
- The rate limiter admits at most 2 * limit - 1 hits of a key in any span of one window, and that
  bound is reached (`RateLimit.TheBoundIsSharp`).
- A UTF-16 slice may end in half a character (`Utf16.SliceIsThePrefixThatFits`).
- The clamps of the ranker's dimensions, the lower clamp of the score and the penalty's cap of 48 never
  bind (`Ranking.DimensionsStayInside`, `Ranking.ScoreRange`, `Repetition.PenaltyRange`).

## Model

| member | source | states |
|---|---|---|
| TextDistance.EditDistance | app/modules/drafts/services/review.py:93-108 | the two-row loop with the length swap returns the least number of insertions, deletions and replacements over all edit scripts from one text to the other |
| TextDistance.CellScript | app/modules/drafts/services/review.py:97-107 | for every two prefixes there is an edit script of exactly as many edits as the table says |
| TextDistance.ScriptIsLongEnough | app/modules/drafts/services/review.py:97-107 | no edit script is shorter than the computed distance |
| TextDistance.DistanceIsLeast | app/modules/drafts/services/review.py:93-108 | the corner of the table is the least edit count, for all texts |
| TextDistance.DistanceIsMetric | app/modules/drafts/services/review.py:93-108 | zero exactly for equal texts, symmetric, triangle inequality |
| DraftStore.DraftTables.EditDraftContent | app/modules/drafts/services/review.py:667-706 | changes the draft and both logs exactly as the edit step, and answers each error case as specified; the distance logged is the true one |
| DraftStore.DraftTables.ApproveDraft | app/modules/drafts/services/review.py:709-748 | takes exactly the approval step, or none and the right error |
| DraftStore.DraftTables.RejectDraft | app/modules/drafts/services/review.py:751-795 | takes exactly the rejection step, or none and the right error |
| DraftStore.DraftTables.SelectDraftCandidate | app/modules/drafts/services/review.py:798-858 | takes exactly the selection step, or none and the right error |
| DraftStore.DraftTables.RegenerateDraftAngle | app/modules/drafts/services/regeneration.py:137-326 | the guards on status and event, and the final update of the row and the logs, as one step |
| DraftStore.DraftTables.BeginPublishDraft | app/modules/drafts/services/review.py:213-270 | the checks, the reply for a draft that is already posted, and the attempt row of a publication without a command key, up to the commit before the provider call |
| DraftStore.DraftTables.RequireRole | app/modules/drafts/services/review.py:53-73 | which error an actor's role gives |
| DraftStore.DraftTables.AddStatus | app/modules/drafts/services/review.py:147-159 | appends exactly one status event |
| DraftStore.DraftTables.AddFeedback | app/modules/drafts/services/review.py:111-144 | appends exactly one feedback event |
| DraftStore.DraftTables.LookUpCommand | app/modules/drafts/services/review.py:431-472 | a key that is taken is answered with the replay of its attempt, or a conflict, and changes nothing |
| DraftStore.DraftTables.FindReservationError | app/modules/drafts/services/review.py:474-509 | which error a reservation gives, in the order of the code, or none |
| DraftStore.DraftTables.ReserveCommand | app/modules/drafts/services/review.py:474-530 | checks the exact revision, approves if needed, and reserves the key, all or nothing |
| DraftStore.DraftTables.RecordDisconnected | app/modules/drafts/services/review.py:532-575 | a missing connection ends a client's attempt as failed without a provider call, and the reply says why |
| DraftStore.DraftTables.CallPublisher | app/modules/drafts/services/review.py:577-583 | the provider call changes no row |
| DraftStore.DraftTables.RecordAnswer | app/modules/drafts/services/review.py:584-664 | records each kind of answer with its reply or error, and fails with a constraint violation exactly if an accepted post meets a draft that is no longer approved |
| DraftHistory.LogsExplainTheRow | app/modules/drafts/services/review.py:111-159 | in every reachable state folding the status log gives the status along a legal path, folding the feedback log from the first text gives the content without a gap, and the row constraints hold |
| DraftHistory.LogsOnlyGrow | app/modules/drafts/services/review.py:111-159 | both logs are append-only over every run |
| DraftHistory.PublicationIsFaithful | app/modules/drafts/models/persistence.py:58-65 | reserving and recording write only what the row's status allows and the logs tell, also when the draft changed in between |
| DraftHistory.WriteKeepsInv | app/modules/drafts/services/review.py:111-159 | writing a row with the events that explain it keeps logs and rows consistent |
| DraftHistory.RunKeepsInv | app/modules/drafts/services/review.py:213-858 | every interleaving of commands, calls and crashes keeps logs and rows consistent |
| DraftHistory.TerminalStatusesAbsorb | app/modules/drafts/policies/review.py:23-57 | rejected and posted are absorbing and freeze the content, even with publications in flight |
| DraftHistory.LogBoundsDistance | app/modules/drafts/services/review.py:684-704 | along a gapless log the distance from the last selected text is at most the sum of the logged distances |
| DraftHistory.CurrentTextIsWithinLoggedDistance | app/modules/drafts/services/review.py:830-856 | over every run the current text is within the sum of the distances logged since the last selected (or first) text |
| Publication.RunKeepsInv | app/modules/drafts/services/review.py:418-664 | attempts, provider calls and workers stay consistent under every interleaving and crash |
| Publication.ProviderIsCalledAtMostOnce | app/modules/drafts/services/review.py:519-664 | for each command key the provider is called at most once, over every run |
| Publication.ReplayTellsTheTruth | app/modules/drafts/services/review.py:392-415 | a replay says success only if the provider accepted with that receipt and the draft is posted, and failure only if it was never called or refused |
| Publication.ReplayNeverChanges | app/modules/drafts/services/review.py:439-472 | once an outcome is recorded every later replay gives the same outcome, receipt and error code |
| Publication.FirstReplyIsTheReplay | app/modules/drafts/services/review.py:584-664 | the first reply to a command is what every replay says once its answer is recorded |
| Publication.DisconnectedReplyIsTheReplay | app/modules/drafts/services/review.py:558-575 | and so is the reply that no usable connection was found |
| KeyReuse.TakenKeyChangesNothing | app/modules/drafts/models/persistence.py:108 | a second command under a taken key, whenever it looked the key up, leaves every later draft, attempt, log and call as in the same run without it, never comes to be about to call, and gets a conflict exactly if its payload differs |
| KeyReuse.TakenKeyIsRefused | app/modules/drafts/services/review.py:439-472 | its lookup changes nothing, and its reservation only ends its worker |
| Publication.ExactRevisionIsSent | app/modules/drafts/services/review.py:474-505 | what is sent under a key is the text of the revision that the key names, also if the draft is edited meanwhile |
| Publication.AcceptedPostIsRecordedIffStillApproved | app/modules/drafts/services/review.py:625-664 | an accepted post is recorded exactly if the draft is still approved or already posted |
| Resending.DraftCanBeSentIff | app/modules/drafts/services/review.py:213-664 | in every reachable state, whatever the draft's status, the provider can be called (again) for it exactly if a command is about to call, or it is pending or approved and its own key is free, or will be once a refusal is recorded, or it has an asset |
| Resending.PostedDraftIsSentAgainIffStillReserved | app/modules/drafts/services/review.py:506-583 | a posted or rejected draft can be sent again exactly if a command that reserved before has yet to call |
| Resending.PostedDraftCanBeSentAgain | app/modules/drafts/services/review.py:519-664 | a run from an empty workspace in which a posted draft is accepted a second time under another key |
| Resending.ApprovedDraftCanBeAcceptedTwice | app/modules/drafts/services/review.py:519-583 | a run in which both commands are accepted before either is recorded |
| Resending.AcceptedPostCanGoUnrecorded | app/modules/drafts/services/review.py:625-664 | a run in which an accepted post is never recorded, because the draft was rejected in between |
| DigestDelivery.DigestTable.BeginDelivery | app/modules/achievement_digests/services/delivery.py:55-86 | locks, answers the settled cases, and marks the intent before sending |
| DigestDelivery.DigestTable.SendDigest | app/modules/achievement_digests/services/delivery.py:87-88 | the send changes no row |
| DigestDelivery.DigestTable.RecordOutcome | app/modules/achievement_digests/services/delivery.py:89-116 | records the outcome, and raises exactly if the provider refused |
| DigestDelivery.SentAtMostOnceModuloKnownFailures | app/modules/achievement_digests/services/delivery.py:55-116 | of two sends of one digest the earlier was refused and its refusal recorded, whatever the interleaving and the crashes |
| DigestDelivery.RunKeepsInv | app/modules/achievement_digests/repositories/digests.py:129-147 | the row, the sends and the workers stay consistent under the row lock |
| DigestDelivery.RowsTellTheProvidersOutcome | app/modules/achievement_digests/services/delivery.py:89-116 | a row says delivered, with its provider id, or failed only if a send had that outcome |
| DigestDelivery.ClosedStaysClosed | app/modules/achievement_digests/services/delivery.py:55-68 | once no send is possible none ever is |
| DigestDelivery.AnotherSendIffStillOpen | app/modules/achievement_digests/services/delivery.py:55-116 | another send is possible exactly if a call is about to send, a refusal is still to be recorded, or the row is open |
| DigestDelivery.UnknownReplyCanBeFollowedByASend | app/modules/achievement_digests/services/delivery.py:61-68 | a concrete run in which one worker is told "unknown_outcome" and another sends afterwards |
| Idempotency.UniqueTable.InsertOrReplay | app/db/idempotency.py:19-54 | inserts, or reads back the row that owns the key, and says which |
| Idempotency.TableKeepsFirstValues | app/db/idempotency.py:19-54 | over any requests the table is the map that keeps the first value of each key |
| Idempotency.RowsHoldOnlyRequestedKeys | app/db/idempotency.py:19-54 | and holds no other key |
| Idempotency.RepliesAreStable | app/db/idempotency.py:19-54 | every request is answered with the first value of its key |
| Idempotency.InsertedOncePerKey | app/db/idempotency.py:19-54 | exactly one request per key, the first, is told that it inserted |
| Outbox.FirstOfTakesTheFirst | app/db/outbox.py:177-196 | the ordered, limited query takes the first min(limit, eligible) rows in (available_at, created_at, id) order without repeats |
| Outbox.ClaimTakesTheFirst | app/db/outbox.py:166-202 | a claim returns exactly those of the eligible events that no one has locked |
| OutboxSafety.RunKeepsInv | app/db/outbox.py:126-240 | events and workers stay consistent, late workers and crashes included |
| OutboxSafety.EventsStayConsistent | app/db/outbox.py:69-123 | with serial records: a lease exactly while publishing; pending has attempts left, failed has none; published means some publish succeeded |
| OutboxSafety.TerminalEventsNeverChange | app/db/outbox.py:205-240 | with serial records published and failed rows never change again, and no attempt is ever taken back |
| OutboxSafety.ReportAddsUp | app/workflows/outbox.py:30-77 | a delivery call that raises nothing reports claimed = published + retried + failed |
| OutboxSafety.EnqueueRefinesInsertOrReplay | app/db/outbox.py:126-163 | whatever happens between them, enqueues refine the first-writer-wins table per (event name, key) |
| OutboxRaces.SerialRunsAreOutboxRuns | app/db/outbox.py:236-240 | with the read and the write of a record as two steps, the runs without overlap are exactly the outbox's |
| OutboxRaces.RunKeepsInv | app/db/outbox.py:205-240 | what stays consistent when the records of late workers and claims overlap |
| OutboxRaces.EventsStayConsistent | app/db/outbox.py:205-240 | under every overlap: a lease exactly while publishing, failed has no attempts left, published means some publish succeeded |
| OutboxRaces.ReportAddsUp | app/workflows/outbox.py:40-77 | under every overlap a call that raises nothing reports claimed = published + retried + failed |
| OutboxRaces.TerminalEventChangesIffAReadIsPending | app/db/outbox.py:236-240 | a published or failed row can change again exactly if a worker that read it while it was publishing has yet to write something else |
| OutboxRaces.SpentEventIsLeftPendingIff | app/db/outbox.py:225-233 | a write leaves a spent event pending exactly if its worker read the event while attempts were left and claims have used them up since |
| OutboxRaces.PublishedEventCanBecomePendingAgain | app/db/outbox.py:236-240 | a run from an empty outbox in which the second of two late writes makes a published event pending |
| OutboxRaces.UnreleasedStaysLeased | app/db/outbox.py:197-240 | under every overlap, without a claim or a releasing write a lease stays as it is, or the event is done |
| OutboxRaces.ClaimedAgainOnlyIfReleased | app/db/outbox.py:177-240 | under every overlap an event is claimed again before its lease ends only if a write released it in between and its new available_at has passed |
| OutboxRaces.AttemptsExceedIffSpentTaken | app/db/outbox.py:177-240 | under every overlap and over every run the attempts of an event pass the maximum exactly if some claim takes it, whatever its status, when they are used up |
| OutboxRaces.OverlapCanExceedTheMaximum | app/db/outbox.py:225-240 | a run from an empty outbox in which a late write leaves a spent event pending and the next claim is one attempt too many |
| OutboxSchedule.ClaimedAgainOnlyIfReleased | app/db/outbox.py:177-202 | with serial records an event is claimed again before its lease ends only if it was released in between and its new available_at has passed |
| OutboxSchedule.UnreleasedStaysLeased | app/db/outbox.py:197-201 | with serial records, without a claim or a release a lease stays as it is, or the event is done |
| OutboxSchedule.CapNeverBinds | app/workflows/outbox.py:52-66 | the delay is 2^min(attempts, 8) seconds for every number of attempts |
| OutboxSchedule.RunKeepsSchedule | app/workflows/outbox.py:52-66 | the claim times of a failing event stay spaced and counted over every run |
| OutboxSchedule.RecordDecides | app/db/outbox.py:225-233 | recording a failed attempt makes the event failed after exactly max_attempts claims, and pending after fewer |
| OutboxSchedule.FailingEventBacksOffAndFails | app/workflows/outbox.py:30-77 | an event whose publishing always fails is claimed with growing gaps at most max_attempts times; unless a worker dies with it, it is publishing exactly while a worker has it, and otherwise failed exactly after max_attempts claims and pending before |
| OutboxSchedule.ClaimExceedsIffSpent | app/db/outbox.py:177-200 | with serial records a claim brings the attempts past the maximum exactly if it takes over a publishing event whose attempts are used up |
| OutboxSchedule.AttemptsExceedIffSpentTakenOver | app/db/outbox.py:177-233 | over every run with serial records the attempts of an event pass the maximum exactly if some claim did that |
| OutboxSchedule.GivenBackStaysWithinMaximum | app/db/outbox.py:177-233 | with serial records they stay within it in every run in which each claim finds the event pending |
| OutboxSchedule.AttemptsCanExceedTheMaximum | app/db/outbox.py:177-200 | a run from an empty outbox, without a crash, in which the attempts reach 2 with a maximum of 1 while the first worker is late |
| OutboxDelivery.OutboxTable.EnqueueEvent | app/db/outbox.py:126-163 | inserts or returns the owner of the key |
| OutboxDelivery.OutboxTable.ClaimEvents | app/db/outbox.py:166-202 | leases exactly the first eligible events, or raises for a limit or duration that is not positive |
| OutboxDelivery.OutboxTable.MarkPublished | app/db/outbox.py:205-214 | marks a publishing row, and raises for any other |
| OutboxDelivery.OutboxTable.ReleaseForRetry | app/db/outbox.py:217-233 | gives a publishing row back or fails it, and raises otherwise |
| OutboxDelivery.DeliveryWorkflow.Deliver | app/workflows/outbox.py:30-77 | the batch loop, with other workers at work before each publish and between it and its record, is one run of the model, and its report adds up |
| OutboxDelivery.DeliveryWorkflow.DeliverEvent | app/workflows/outbox.py:44-70 | one event of the batch: publish, let others work, then mark or release, counted once |
| OutboxDelivery.DeliveryWorkflow.RecordEvent | app/workflows/outbox.py:52-70 | the transaction after a publish is the record step, or raises |
| Sessions.FamilyIsAChain | app/modules/identity/services/sessions.py:27-101 | in every reachable state a family belongs to one user, has no two sessions of one generation, and every session but the newest is revoked and points to the next |
| Sessions.GenerationsHaveNoGaps | app/modules/identity/services/sessions.py:60-101 | every generation below an existing one exists |
| Sessions.OnlyTheNewestIsActive | app/modules/identity/services/sessions.py:108-114 | at most one session of a family is active, and it is the newest |
| Sessions.RotationSucceedsIffActive | app/modules/identity/services/sessions.py:60-101 | rotation succeeds exactly if the session is active and its user live and active, and leaves the new session as the only active one |
| Sessions.ReuseKillsTheFamily | app/modules/identity/repositories/sessions.py:19-26 | with calls that do not overlap, once a used token is presented, no session of its family is ever active again and no rotation in it succeeds, whatever follows |
| Sessions.UsedTokenIsAlwaysRecognised | app/modules/identity/services/sessions.py:73-86 | a used token never rotates again, and is recognised as a replay until it expires or is deleted |
| Sessions.RotationKeepsInv | app/modules/identity/services/sessions.py:87-101 | a rotation appends one generation to the chain of its family |
| SessionRaces.SerialRunsAreSessionRuns | app/modules/identity/services/sessions.py:60-101 | with lock and commit of a rotation, and start and write of a replay, as separate steps, the runs without overlap are those of `Sessions` |
| SessionRaces.RunKeepsInv | app/modules/identity/services/sessions.py:60-124 | families stay chains when rotations, replays and other calls overlap |
| SessionRaces.ReplayKillsTheFamilyIff | app/modules/identity/services/sessions.py:76-79 | a replay leaves no session of the family that can ever be active exactly if every session that its statement did not see is unusable when it writes |
| SessionRaces.UndisturbedReplayKills | app/modules/identity/services/sessions.py:76-79 | so it kills the family whenever no rotation in it commits meanwhile |
| SessionRaces.FamilyCanSurviveAReplay | app/modules/identity/services/sessions.py:69-100 | a run in which a detected replay marks two sessions and the third, committed meanwhile, stays active and can be rotated |
| Sessions.SessionTable.GetSessionByRefreshHash | app/modules/identity/repositories/sessions.py:10-16 | finds the one session that holds the token |
| Sessions.SessionTable.MarkSessionFamilyCompromised | app/modules/identity/repositories/sessions.py:19-26 | revokes and marks every session of the family and no other |
| Sessions.SessionTable.CreateRefreshSessionRecord | app/modules/identity/services/sessions.py:27-57 | inserts exactly one session |
| Sessions.SessionTable.RotateRefreshSession | app/modules/identity/services/sessions.py:60-101 | takes exactly the rotation step and gives its reply, in the order in which the code checks |
| Sessions.SessionTable.RefreshSessionIsActive | app/modules/identity/services/sessions.py:108-114 | answers whether the session is active now |
| Sessions.SessionTable.RevokeRefreshSession | app/modules/identity/repositories/sessions.py:29-36 | revokes the session of a token and no other |
| Sessions.SessionTable.RevokeAuthSession | app/modules/identity/services/sessions.py:122-124 | revokes a session |
| DetectionLease.UnexpiredLeaseExcludesOthers | app/workflows/opportunity_detection.py:87-96 | while a lease is unexpired no other worker claims the run |
| DetectionLease.LostWorkerIsFenced | app/workflows/opportunity_detection.py:48-177 | once its lease is gone none of a worker's later renewals, completions, stops or give-backs changes a row |
| DetectionLease.TakeoverFencesTheOldOwner | app/workflows/opportunity_detection.py:87-96 | a takeover happens only after expiry and is such a loss |
| DetectionLease.CutoffIsWrittenOnce | app/workflows/opportunity_detection.py:97-101 | as_of is written once, and every worker on the run uses that cutoff |
| DetectionLease.EndedRunsNeverChange | app/workflows/opportunity_detection.py:81-86 | a run that has ended stays as it ended |
| DetectionLease.RunKeepsInv | app/workflows/opportunity_detection.py:48-177 | rows, leases and workers stay consistent |
| DetectionLease.RunTable.ClaimRun | app/workflows/opportunity_detection.py:67-101 | every reply of the claim, and exactly its write |
| DetectionLease.RunTable.RenewLease | app/workflows/opportunity_detection.py:48-65 | renews exactly if the worker still owns the running run |
| DetectionLease.RunTable.StopRun | app/workflows/opportunity_detection.py:130-160 | stops exactly if the worker still owns the run |
| DetectionLease.RunTable.GiveBackRun | app/workflows/opportunity_detection.py:161-178 | gives the run back for a retry if the worker still owns it |
| GithubEvents.FirstDeliveryCreatesTheConsumers | app/services/github_webhook.py:96-159 | the first delivery creates one pending consumer, with the workspace's repository and its user, for each workspace that tracks the repository, no other, and reports their number |
| GithubEvents.ConsumersAreFixedAtFirstReceipt | app/services/github_webhook.py:96-159 | whatever happens between, a redelivery changes nothing and reports the first raw event and the first count |
| GithubEvents.RunKeepsInv | app/services/github_webhook.py:96-159 | one raw event per delivery id, and consumers only of raw events |
| GithubEvents.EventTables.IngestGithubWebhook | app/services/github_webhook.py:89-159 | takes exactly the ingest step and gives its result |
| Publisher.PublishingWorkflow.PublishPendingConsumers | app/workflows/publisher.py:34-87 | the loop claims each selected consumer once until one fails or the process ends, with the state that those claims leave |
| Publisher.StopsAtTheFirstFailure | app/workflows/publisher.py:40-87 | those before the failing consumer are sent and enqueued, it is failed, the rest are untouched; a consumer the process ended with is enqueued |
| Publisher.SuccessesMatchTheState | app/workflows/publisher.py:53-87 | a consumer was sent or lost exactly once if enqueued and neither if open, and its attempts are the claims made |
| Publisher.EveryConsumerIsPublishedExactlyOnce | app/workflows/publisher.py:34-87 | repeating the call until it returns publishes every selected consumer successfully exactly once, unless the process ended between its claim and its publish, and then never |
| Publisher.LostConsumerIsNeverPublished | app/workflows/publisher.py:47-75 | a run in which that happens |
| Publisher.EverySuccessIsProgress | app/workflows/publisher.py:34-87 | a call leaves as many fewer consumers to publish as it published or lost |
| Utf16.EncodeAfterDecode | app/modules/drafts/policies/ranking.py:19-21 | every sequence of code units survives decoding and encoding again |
| Utf16.TextSurvivesExactlyWithoutFalsePair | app/modules/drafts/policies/ranking.py:19-25 | encoding and decoding again gives the text back exactly if no lone high surrogate is directly followed by a lone low one |
| Utf16.SliceLength | app/modules/drafts/policies/ranking.py:19-25 | the length of a slice is the smaller of the limit and the length of the text |
| Utf16.SliceTwice | app/modules/drafts/policies/ranking.py:19-21 | slicing twice is slicing by the smaller limit |
| Utf16.SliceIsIdentityIff | app/modules/drafts/policies/ranking.py:19-25 | a slice leaves the text unchanged exactly if it is short enough and has no false pair |
| Utf16.SliceIsThePrefixThatFits | app/modules/drafts/policies/ranking.py:19-21 | a slice is the longest prefix that fits, followed by half of the next character exactly if the limit falls inside it |
| Repetition.NormalizeIsNormal | app/modules/drafts/detectors/repetition_detector.py:48-52 | the result is words of a-z and 0-9 with single spaces between |
| Repetition.NormalFormsAreTheFixedPoints | app/modules/drafts/detectors/repetition_detector.py:48-52 | those texts are exactly the ones that normalizing leaves alone |
| Repetition.NormalizeIsIdempotent | app/modules/drafts/detectors/repetition_detector.py:48-52 | normalizing twice is normalizing once |
| Repetition.OverlapIsARatio | app/modules/drafts/detectors/repetition_detector.py:63-68 | in 0..1, symmetric, 0 exactly for disjoint sets, 1 exactly if one nonempty set contains the other |
| Repetition.SimilarityIsARatio | app/modules/drafts/detectors/repetition_detector.py:71-78 | in 0..1, symmetric, and 1 for a text and itself unless nothing is left of it |
| Repetition.SimilarityIsOfNormalForms | app/modules/drafts/detectors/repetition_detector.py:71-78 | only normal forms matter, and the second normalization inside the token overlap changes nothing |
| Repetition.GreatestSimilarity | app/modules/drafts/detectors/repetition_detector.py:95-98 | the greatest similarity to a recent text, or 0 without any |
| Repetition.DetectRepetition | app/modules/drafts/detectors/repetition_detector.py:92-121 | the greatest similarity, the number of times the angle was approved, the penalty that the thresholds give without the cap, and the reasons |
| Repetition.PenaltyRange | app/modules/drafts/detectors/repetition_detector.py:101-121 | the uncapped penalty lies in 0..48, and is 0 exactly if nothing recent is close and the angle is new, which is exactly when there is no reason |
| Repetition.MoreMemoryNeverLowersThePenalty | app/modules/drafts/detectors/repetition_detector.py:92-121 | a memory that remembers at least as much gives no lower similarity, count or penalty |
| Repetition.RepetitionIsDetermined | app/modules/drafts/detectors/repetition_detector.py:92-121 | the specification has only one result |
| Ranking.ValueBoost | app/modules/drafts/policies/ranking.py:39-61 | the sum of what variant, angle and wording contribute, in -10..20 |
| Ranking.DimensionsStayInside | app/modules/drafts/policies/ranking.py:86-102 | no dimension ever needs its clamp |
| Ranking.ScoreRange | app/modules/drafts/policies/ranking.py:76-113 | every score lies in 5..100 and every text in 280 code units |
| Ranking.MoreMemoryNeverRaisesTheScore | app/modules/drafts/policies/ranking.py:83-113 | remembering more changes only novelty, score and note, and never raises a score |
| Ranking.SortByScore | app/modules/drafts/policies/ranking.py:131 | lists every option once, higher scores first, equal scores in their old order |
| Ranking.StableOrderIsUnique | app/modules/drafts/policies/ranking.py:131 | there is only one such order, so any stable descending sort gives the same list |
| Ranking.TweetOptionRanker.Assess | app/modules/drafts/policies/ranking.py:75-130 | the option made of one variant |
| Ranking.TweetOptionRanker.Rank | app/modules/drafts/policies/ranking.py:65-134 | the options of all variants in the stable descending order, numbered from 1 |
| Ranking.RankingIsOrdered | app/modules/drafts/policies/ranking.py:131-134 | ranks 1..n by descending score, ties in the order of the variants, each variant exactly once |
| Ranking.RankingIsDetermined | app/modules/drafts/policies/ranking.py:65-134 | the inputs determine the ranking |
| RateLimit.RedisCache.Increment | app/cache/redis.py:20-36 | counts up, and sets the expiry on the first count only |
| RateLimit.RedisCache.Ttl | app/cache/redis.py:38-39 | the time left, -1 without an expiry, -2 without a key |
| RateLimit.CacheRateLimitStore.Check | app/core/rate_limit.py:27-35 | allowed exactly if fewer than limit are counted, without counting |
| RateLimit.CacheRateLimitStore.Hit | app/core/rate_limit.py:37-44 | counts, and allows exactly if fewer than limit were counted before |
| RateLimit.HitIsTheNext | app/core/rate_limit.py:37-44 | a call of the store is the next hit of the sequence that the lemmas below reason about, in its effect and in its answer |
| RateLimit.HitsAreCountedByLifetime | app/core/rate_limit.py:37-44 | every hit belongs to a lifetime begun less than a window before, and is allowed exactly if it is among its first limit hits |
| RateLimit.LifetimesAreDisjoint | app/cache/redis.py:25-36 | of two lifetimes of a key the later begins when the full window of the earlier has passed |
| RateLimit.SpanAdmitsFewerThanTwoLimits | app/core/rate_limit.py:37-44 | any span of one window length admits at most 2 * limit - 1 hits of a key |
| RateLimit.TheBoundIsSharp | app/core/rate_limit.py:37-44 | for every limit and every window of at least 2 there are hits that reach that bound |
| DraftLaws.EditLaw | app/modules/drafts/services/review.py:667-706 | an owner, admin or editor changes the text of a pending or approved draft, with one edited entry that holds both texts and the least number of edits between them, and keeps its approval; in every other case nothing changes |
| DraftLaws.ApproveLaw | app/modules/drafts/services/review.py:709-748 | an owner or admin turns a pending draft into an approved one with one entry in each log; in every other case nothing changes, and who is answered with which error |
| DraftLaws.RejectLaw | app/modules/drafts/services/review.py:751-795 | an owner or admin turns a pending or approved draft into a rejected one without approval, with the reason logged; in every other case nothing changes |
| DraftLaws.SelectLaw | app/modules/drafts/services/review.py:798-858 | an owner, admin or editor who selects a found candidate for a pending or approved draft leaves exactly its text and candidate, unedited, with one selected entry, unless both are there already; in every other case nothing changes |
| DraftLaws.RegenerateLaw | app/modules/drafts/services/regeneration.py:137-326 | a pending or approved draft with an event becomes pending with the new run's candidate and text, with one selected entry and, if it was approved, a status entry; in every other case nothing changes |
| DraftLaws.PublishBeginLaw | app/modules/drafts/services/review.py:213-270 | goes on to the provider exactly for an owner or admin and an approved draft whose last publication has no unknown outcome, inserts an attempt if there is none, and answers "requires approval" exactly for a permitted actor and a draft that is neither approved nor already posted |
| DraftLaws.LookupLaw | app/modules/drafts/services/review.py:431-472 | only an owner or admin with an unused key goes on, and a used key is answered from its attempt |
| DraftLaws.ReplayLaw | app/modules/drafts/services/review.py:392-415 | which attempt is replayed as success, failure, unknown or conflict |
| DraftLaws.ReserveLaw | app/modules/drafts/services/review.py:474-530 | succeeds exactly for a pending or approved draft that is the text of its asset under an unused key, and leaves it approved, logged if it was pending, and the key in flight |
| DraftLaws.DisconnectLaw | app/modules/drafts/services/review.py:532-575 | the client's attempt fails with the reason and no other row changes |
| DraftLaws.CallLaw | app/modules/drafts/services/review.py:577-583 | what is sent is the text that the worker read, under its key |
| DraftLaws.FinishLaw | app/modules/drafts/services/review.py:584-664 | what each answer of the provider leaves in the attempt, the draft and its logs |
| DraftLaws.CallsAreOfApprovedDrafts | app/modules/drafts/policies/review.py:23-57 | over every run each provider call was begun by an owner or admin on a draft that was approved then, or by a reservation that left it approved, and carries the text that the draft had then |
| DigestLaws.BeginLaw | app/modules/achievement_digests/services/delivery.py:55-86 | which rows are answered at once, which are marked as unknown, and which are marked for a send |
| DigestLaws.RecordLaw | app/modules/achievement_digests/services/delivery.py:89-116 | the row and the reply for each of the three outcomes |
| DigestLaws.RecordedOutcomeStays | app/modules/achievement_digests/services/delivery.py:89-116 | over every later run a recorded acceptance shows as delivered with its provider id and time, a recorded uncertainty as unknown, and a recorded refusal as failed until the next call begins |
| OutboxLaws.EnqueueLaw | app/db/outbox.py:126-163 | an insert leaves a pending, unattempted event without lease, with the caller's key, payload, workspace and due time, created now; an owned key changes nothing |
| OutboxLaws.ClaimLaw | app/db/outbox.py:166-202 | takes the earliest due unlocked events up to the limit, each with one attempt more and a lease from now, and changes no other row |
| OutboxLaws.DelayLaw | app/workflows/outbox.py:52-66 | the backoff in seconds, by the attempts so far |
| OutboxLaws.RecordLaw | app/db/outbox.py:205-240 | which row a record leaves published, given back or failed, with what columns, how it is counted, and when it raises |
| OutboxLaws.ReadLaw | app/db/outbox.py:236-240 | a record that overlaps reads the row and changes nothing, or ends its worker |
| OutboxLaws.WriteLaw | app/db/outbox.py:205-240 | column by column, what a record that overlaps writes over the row as it is now |
| OutboxLaws.NotClaimedBeforeItIsDue | app/db/outbox.py:151-202 | whatever follows an insert, no claim before the caller's due time takes the event unless a release came between |
| OutboxLaws.NotClaimedBeforeItIsDueUnderOverlap | app/db/outbox.py:151-202 | the same when records overlap |
| SessionLaws.FoundLaw | app/modules/identity/repositories/sessions.py:10-16 | a token finds the one session that holds it |
| SessionLaws.LoginLaw | app/modules/identity/services/sessions.py:27-57 | a login adds one session of generation 0 that expires after its lifetime and is neither revoked nor replaced, and changes no other row |
| SessionLaws.RotateLaw | app/modules/identity/services/sessions.py:60-105 | every reply of a rotation with what it leaves: a good token is replaced by a session of the next generation, a used one marks its family, any other changes nothing |
| SessionLaws.RevokeTokenLaw | app/modules/identity/repositories/sessions.py:29-36 | a logout by token revokes the session of the token now and changes no other row |
| SessionLaws.RevokeSessionLaw | app/modules/identity/services/sessions.py:122-124 | the session is revoked now and no other row changes |
| SessionLaws.DeleteAccountLaw | app/modules/identity/services/browser_oauth.py:288-295 | every session of the user that is not revoked yet is revoked now, and no other row changes |
| SessionLaws.LogoutEndsTheSession | app/modules/identity/repositories/sessions.py:29-36 | after a logout by token the session is active at no time of any later run, and the token never rotates |
| SessionLaws.RevocationEndsTheSession | app/modules/identity/services/sessions.py:122-124 | the same for a session revoked by its id |
| SessionLaws.DeletionEndsTheSessions | app/modules/identity/services/browser_oauth.py:288-295 | the same for every session of a user whose account is deleted |
| LeaseLaws.ClaimLaw | app/workflows/opportunity_detection.py:67-101 | takes a pending run, or a running one whose lease has ended or is missing, for the whole lease time, with its cutoff fixed at the first claim; an ended run only loses a lease that was left, and every other claim changes no row |
| LeaseLaws.RenewLaw | app/workflows/opportunity_detection.py:48-65 | moves the end of the lease of a running run that the worker still owns, and nothing else |
| LeaseLaws.EndLaw | app/workflows/opportunity_detection.py:130-178 | completing, stopping and giving back end the lease of a run that the worker still owns, and change no row otherwise |
| LeaseLaws.GivenBackCanBeClaimed | app/workflows/opportunity_detection.py:161-178 | a run that was given back can be claimed at once, by anyone, with its old cutoff |
| EventLaws.IngestLaw | app/services/github_webhook.py:89-159 | a known delivery changes nothing; a new one is stored with one pending consumer for each workspace that tracks the repository, and both answer with the number of consumers |
| EventLaws.SelectionLaw | app/workflows/publisher.py:34-46 | the pending and failed consumers are selected, of one raw event or of all |
| EventLaws.AttemptLaw | app/workflows/publisher.py:47-87 | a claimed consumer has one attempt more and is enqueued without an error, unless the publisher raised |
| EventLaws.ReturningCallLaw | app/workflows/publisher.py:34-87 | a call that returns leaves each selected consumer enqueued with one attempt more, and every other as it was |
| Utf16.EncodingLaw | app/modules/drafts/policies/ranking.py:19-25 | each code point adds itself, or the two surrogates that carry its upper and lower ten bits |
| RepetitionLaws.NormalFormIsTheWords | app/modules/drafts/detectors/repetition_detector.py:48-60 | the normal form is the runs of a-z and 0-9 outside links, read off the lowercase text position by position and joined with single spaces; the tokens are those of more than two characters that are no stop words |
| RepetitionLaws.SimilarityLaw | app/modules/drafts/detectors/repetition_detector.py:63-78 | 0 without words, 1 for the same words, and otherwise the shared part of the smaller set of telling words |
| RepetitionLaws.PenaltyLaw | app/modules/drafts/detectors/repetition_detector.py:99-121 | penalty and reasons by the thresholds and the number of times the angle was approved |
| RankingLaws.ScoreLaw | app/modules/drafts/policies/ranking.py:103-113 | the score in whole hundredths, rounded half up, with boost and penalty, inside 0..100 |
| RankingLaws.DimensionsLaw | app/modules/drafts/policies/ranking.py:81-102 | what novelty, clarity, safety and proof are made of |
| RankingLaws.ImpactLaw | app/modules/drafts/policies/ranking.py:28-36 | user impact is 45 and the rounded forty-fold share of the words that content and evidence have in common |
| RankingLaws.EvidenceLaw | app/modules/drafts/policies/ranking.py:77-81 | the evidence is the texts of the cited claims, the last of each id, joined, or else the two texts of the summary |
| RankingLaws.StripLaw | app/modules/drafts/policies/ranking.py:76 | the stripped text is the part without spaces at either end, and only spaces are cut |
| RankingLaws.BoostLaw | app/modules/drafts/policies/ranking.py:39-61 | the sum of what variant, angle, vague and concrete words are worth |
| RankingLaws.OptionLaw | app/modules/drafts/policies/ranking.py:75-130 | an option keeps the variant's fields, has the stripped content cut to 280 units, and a note exactly if there is a reason |
| RateLimit.IncrementLaw | app/cache/redis.py:20-36 | a dead key starts at 1 with a new expiry, a live one counts one more and keeps its expiry, and other keys stay |
| RateLimit.TtlLaw | app/cache/redis.py:38-39 | -2 exactly without a live key, -1 exactly without an expiry, and otherwise the time left |

## Left out

- Transactions are atomic steps, but for the record of a publish, which `OutboxRaces` splits, and for rotations and replays, which `SessionRaces` splits: what weaker isolation lets two open transactions see of each other elsewhere is not modelled.
- OutboxSafety.TerminalEventsNeverChange: assumes that records are serial, because the row is read without a lock; `OutboxRaces.TerminalEventChangesIffAReadIsPending` gives the exact condition without that.
- OutboxSafety.EventsStayConsistent: assumes serial records; without them a spent event can be left pending, exactly as `OutboxRaces.SpentEventIsLeftPendingIff` says, and the rest is `OutboxRaces.EventsStayConsistent`.
- OutboxSchedule.UnreleasedStaysLeased: assumes serial records; `OutboxRaces.UnreleasedStaysLeased` does not.
- OutboxSchedule.ClaimedAgainOnlyIfReleased: assumes serial records; `OutboxRaces.ClaimedAgainOnlyIfReleased` does not.
- OutboxSchedule.ClaimExceedsIffSpent: assumes serial records; without them a claim of a spent pending event exceeds the maximum, too.
- OutboxSchedule.AttemptsExceedIffSpentTakenOver: assumes serial records; `OutboxRaces.AttemptsExceedIffSpentTaken` is exact without them.
- OutboxSchedule.GivenBackStaysWithinMaximum: assumes serial records; `OutboxRaces.OverlapCanExceedTheMaximum` is a run without them in which it fails.
- OutboxSchedule.FailingEventBacksOffAndFails: assumes serial records.
- Sessions.ReuseKillsTheFamily: assumes that no rotation is open while the family is marked; `SessionRaces.ReplayKillsTheFamilyIff` does not.
- OutboxDelivery.DeliveryWorkflow.Deliver: other workers come between its claim, its publishes and its records, and not between the read and the write of one record.
- One workspace at a time for drafts; row timestamps such as updated_at, display fields and the rows that authorise an actor (a role is a parameter) are left out.
- Client command keys are taken after trimming and assumed never to have the form `x:draft:...` that `publish_draft` uses.
- DraftStore.DraftTables.BeginPublishDraft: the lock that `publish_draft` holds while it looks at an earlier attempt is not modelled, so the model allows more interleavings than the code; nothing is claimed about how often `publish_draft` calls the provider.
- DraftStore.DraftTables.SelectDraftCandidate: the candidate query is a parameter, and so is what generation yields in `regenerate_draft_angle`, whose lookups of the event's, the repository's and the user's rows are left out; `create` and the bridge from prepared assets appear only as steps that make drafts.
- That published text is approved text is not claimed: edits keep the approval.
- DetectionLease.RunTable.StopRun: `persist_detection` is one abstract step that completes a run for its current lease owner only; its path for evaluations that exist already is left out.
- Sessions.SessionTable.CreateRefreshSessionRecord: tokens are fresh, hashing is injective, and truncation of device fields is left out; the router's earlier rejection of inactive tokens is not modelled.
- GithubEvents.EventTables.IngestGithubWebhook: parsing, signatures and encryption of the body are left out; a raw event is a value with a fresh id.
- Publisher.PublishingWorkflow.PublishPendingConsumers: one caller at a time, and no processing of consumers in between; the process may end between a claim and its publish, which counts as lost.
- OutboxDelivery.OutboxTable.EnqueueEvent: metadata validation and the sanitising of error categories are left out.
- DigestDelivery.DigestTable.SendDigest: building the message and the signed unsubscribe link is left out.
- Ranking.TweetOptionRanker.Rank: scores are exact reals, not floats; the two word patterns of the value boost are parameters; the library's in-place sort is a stable insertion on sequences, which by uniqueness yields the same list; the rationale's suffix is a structured note.
- Repetition.DetectRepetition: ratios are exact reals, not floats; lowercasing is a parameter of which only idempotence needs something, namely that it leaves texts of a-z, 0-9 and spaces alone; `build_content_memory` is left out.
- TextDistance.EditDistance: Dafny characters stand for the characters of a Python string, lone surrogates aside; the lemmas hold for sequences over any type.
- RateLimit.CacheRateLimitStore.Hit: the in-memory cache is not modelled; it recomputes the expiry from a truncated remaining time at every hit, so it is another counter. The lemmas over sequences of hits take one window for all keys.
- HTTP routers, middleware, settings, logging, storage and job adapters, database migrations: they connect the protocols and keep no state of their own beyond the tables modelled here.
- OAuth providers, signed tokens, password hashing and payload encryption: what they promise comes from cryptography that is not in the repository; here a token is a fresh value and a hash is injective.
- Redaction, keyword scoring and evidence matching: their meaning is the lists of patterns themselves, and a contract would only repeat them.
- Pagination, calendar periods and analytics counts: single queries and date arithmetic, without state that steps could break.
- GitHub consumer processing and the weekly operator coordinator: most of their meaning is in services that are not part of this model.
