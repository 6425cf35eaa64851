# KYC application service: a verified model

A KYC application moves from STARTED through document upload, liveness, screening and a
decision, and is re-opened a year later. Request handlers, vendor webhooks, analysts and a
scheduler all read the shared application store, decide, and then write conditionally on the
version they read, with no lock in between. This project models that service and proves what
holds of all its runs.

How the files fit together:

- `StateMachine.dfy`, `Entities.dfy`: the transition table and the records.
- `Repository.dfy`, `RepositoryEffects.dfy`, `RepositoryRuns.dfy`: the store as a value, each call
  of its interface, what it changes field by field, and theorems over every run of calls by any
  callers.
- `ApplicationRepository.dfy`, `Audit.dfy`: the store and the log as classes updated in place,
  proved against those values.
- `DatabaseRepository.dfy`: the same interface over table rows, and the refinement.
- `ServiceMachine.dfy`, `ServiceInvariants.dfy`, `ServiceFootprints.dfy`, `ServiceTheorems.dfy`,
  `Decisions.dfy`: the step machine in which all clients interleave, its invariant, what each
  step leaves alone, and the theorems about its runs.
- `ReviewTheorems.dfy`, `SanctionsHits.dfy`: when the hits of an application agree with what was
  decided. `ServiceOrigins.dfy`: where the stored applications come from.
  `ServiceWitnesses.dfy`: concrete runs. `ServiceRefinement.dfy`, `HandlerRuns.dfy`: what each
  handler, webhook, tick and disposition does when no other client comes between its steps.
- `WebhookSignature.dfy`, `WebhookIngest.dfy`, `Text.dfy`: header verification and at-most-once
  ingestion. The HMAC of RFC 2104 is a parameter.
- `Retry.dfy`, `Int64.dfy`, `PolicySink.dfy`: the retry loop with its wrapping arithmetic, and
  the bounded queue with one retrying drainer.
- `Retention.dfy`, `Scheduler.dfy`, `Screening.dfy`, `Migrations.dfy`, `Extremes.dfy`: in-place
  sweeps, the re-KYC pass, screening and dispositions, and the migration runner.

Conventions: an instant is a number of nanoseconds and 0 is the zero time; the clock, random
draws, generated ids and the answers of vendors are parameters and range over everything; an
error return is a `Result`. Texts that only ever get compared (states, outcomes, document types)
are datatypes with a case for any other text.

Where the code does not do what one might expect, the code is followed:

- Starting liveness from STARTED stores a session, but the write that follows can never succeed,
  although the handler lets that state in (internal/server.go:644-693). `WritesAreAtomic` names
  this as one of the only two refusals that are not a lost race;
  `LivenessFromStartedIsRefused` and `UndecidedTriggerIsRefused` are runs that meet them.
- A create that fails on its new id may already have dropped the user's decided application
  (internal/repo.go:123-136). `CreateDanglesExactly` gives the exact condition.
- The table-backed create runs three statements without a transaction; a re-opening between the
  first two makes it delete an undecided application (`CreateDropsUndecidedExactly`).
- The table-backed create fills the caller's object before the insert, so also when it fails.
- A disposition marks the hits before its conditional write and does not unmark them when that
  write loses; a webhook decides without marking; a screening run may add hits at any time
  (internal/screening.go:119-129, 159-167). `HitsAgreeExactly` says when hits and decision agree,
  over all runs, and `DisagreementShows`, `WebhookRaceShows` and `LateHitShows` are runs in which
  they do not.
- The last response of a retry is closed as well when its status is one to retry, although the
  comment leaves closing it to the caller (internal/retry.go:60-86).
- The backoff bound is the documented minimum only while the product does not wrap;
  `BoundIsIdealExactly` and `LargeBaseWraps` say when.
- The webhook age check subtracts in 64 bits; a far negative timestamp can appear close.
  `AgeIsExact` lists exactly which, and `FarTimestampIsAccepted` is one.
- While the latest applied migration is numbered 0 it cannot be rolled back, because 0 also
  means that none is applied (db/db.go:190-197); `VersionZeroStays` shows it.

## Model

| member | source | states |
|---|---|---|
| `ServiceTheorems.WritesAreAtomic` | internal/repo.go:183-247 | in every world any number of interleaved clients can reach, a prepared write meets the very record that was read, or fails as not found or conflict; the only other refusals are liveness from STARTED and a re-opening of an undecided application |
| `ServiceTheorems.TickReopensWhatItListed` | internal/server.go:881-893 | a tick in progress meets the very record it listed, or fails as not found or conflict, never as undecided |
| `ServiceWitnesses.LivenessFromStartedIsRefused` | internal/server.go:652-688 | a run after which the liveness write of a client that read STARTED is refused as illegal |
| `ServiceWitnesses.UndecidedTriggerIsRefused` | internal/server.go:814-838 | a run after which a triggered re-opening is refused because the application is undecided |
| `ServiceTheorems.AtMostOneClientWins` | internal/repo.go:190-202 | over all clients at most one conditional write per application and version succeeds |
| `ServiceTheorems.EveryMoveIsJustified` | internal/server.go:598-745 | every transition of every interleaved run has its cause earlier in that run: both documents, a session or a liveness webhook, a disposition, a webhook outcome of the matching class, or a decision a year old |
| `ServiceTheorems.ObservedMovesAreTheLog` | internal/audit.go:173-180 | the transitions of the provenance theorem are, in order, those of the audit log, so none escapes it |
| `ServiceTheorems.ReturnedCountsAreLogged` | internal/server.go:881-893 | counts returned by ticks plus those of ticks in progress equal the scheduler re-openings in the log, under any interleaving |
| `ServiceTheorems.OneEventMovesAtMostOnce` | internal/webhooks.go:30-41 | one webhook event id advances the state machine at most once, however deliveries repeat and interleave |
| `ServiceTheorems.HookMovesNeverExceedSeen` | internal/webhooks.go:158-207 | webhook-driven transitions never outnumber the event ids seen, in every interleaved run |
| `ServiceTheorems.AuditLogOnlyGrows` | internal/audit.go:101-116 | the log of an earlier moment is a prefix of the log of every later one |
| `ServiceTheorems.ServiceRunLengths` | internal/statemachine.go:31-40 | with k re-openings an application has between 5k and 7k+6 logged transitions, and at least 5k+4 when decided |
| `ServiceInvariants.ReachedSafe` | internal/server.go:432-838 | the joint invariant of stores, log and client positions holds in every reachable world |
| `ServiceOrigins.CreatedWhenCreated` | internal/server.go:443-450 | in every reachable world each application was created by exactly one call of the handler, and its creation time is, and stays, the time of that call |
| `ServiceOrigins.DueInAYear` | internal/repo.go:202-205 | in every reachable world a decision falls due 31,536,000,000,000,000 nanoseconds after it, and an undecided application has neither date |
| `ServiceInvariants.ReachedStoreReplays` | internal/repo.go:195-247 | in every reachable world the index is exact both ways, each application is the end of the legal chain its log events form from STARTED, and its version is 1 plus transitions plus vendor-id writes |
| `ServiceInvariants.ReachedDatesOk` | internal/repo.go:199-232 | in every reachable world an application is decided exactly when its decision date is set, and is due 365 days after it |
| `Repository.ExecKeepsIndexed` | internal/repo.go:117-151 | every call, failing and reused ids included, leaves each application filed under its own id and named by its user |
| `Repository.OneApplicationPerUser` | internal/repo.go:123-149 | no user owns two applications |
| `Repository.CreateDanglesExactly` | internal/repo.go:123-136 | a create leaves an index entry that names nothing if and only if it drops a decided application and then refuses the new id |
| `Repository.OtherCallsKeepNoDangling` | internal/repo.go:154-261 | no other call can make an index entry dangle |
| `Repository.LookupIsSearch` | internal/repo.go:166-179 | with an exact index the lookup by user finds the one application of that user and fails only when there is none |
| `Repository.ExecRaisesVersion` | internal/repo.go:183-247 | a call stores a new record under an id, leaves the one there as it was, or raises its version |
| `Repository.ReusedIdStartsOver` | internal/repo.go:123-149 | a create under the id of the user's own decided application is accepted, and the version there falls to 1 |
| `RepositoryEffects.CreateAnswersExactly` | internal/repo.go:117-136 | exactly when a create is refused as invalid or as a duplicate, and when it succeeds |
| `RepositoryEffects.CreateStoresFields` | internal/repo.go:137-151 | field by field what a successful create stores: creation time, state and version filled in where left out, the rest as asked |
| `RepositoryEffects.CreateKeepsOthers` | internal/repo.go:123-134 | of the other applications a create drops at most the decided one on file for the user |
| `RepositoryEffects.UpdateStateExactly` | internal/repo.go:183-209 | exactly when a state update is refused and how; otherwise the new record field by field, a decision due again 365 days later, no other change, and the one event logged |
| `RepositoryEffects.ReopenExactly` | internal/repo.go:212-236 | the same for a re-opening, which clears both dates |
| `RepositoryEffects.SetVendorIdExactly` | internal/repo.go:239-247 | the record a vendor-id write leaves, field by field, and that it logs nothing |
| `RepositoryEffects.DueExactly` | internal/repo.go:251-261 | due are exactly the decided applications whose due date is set and not after the time asked |
| `RepositoryEffects.StoredAsCreated` | internal/repo.go:117-151 | over every run with fresh ids a stored application has exactly one create and keeps its user, vendor, expiry and creation time |
| `RepositoryRuns.EveryRunIsIndexed` | internal/repo.go:117-151 | the index invariant over every run of calls |
| `RepositoryRuns.FreshRunsNeverDangle` | internal/server.go:443-450 | with fresh non-empty ids no index entry ever dangles |
| `RepositoryRuns.FreshLookupIsSearch` | internal/repo.go:166-179 | with fresh ids the lookup by user equals a search of all applications after every run |
| `RepositoryRuns.ReusedIdsMisleadLookup` | internal/repo.go:123-136 | a run with reused ids after which a user is shown an application of somebody else |
| `RepositoryRuns.RunsEvolve` | internal/repo.go:183-247 | between two moments of a run a record is unchanged, has a higher version, or is gone for good, and issued ids and log only grow |
| `RepositoryRuns.WriteSeesWhatWasRead` | internal/repo.go:183-236 | a successful write at a version read earlier finds the record field for field as it was read |
| `RepositoryRuns.AtMostOneWriterWins` | internal/repo.go:190-230 | of all conditional writes at one id and version in a run at most one succeeds |
| `RepositoryRuns.WinnerShutsOut` | internal/repo.go:190-230 | after it every other write at that version is refused |
| `RepositoryRuns.LogOnlyGrows` | internal/audit.go:101-116 | the transitions logged earlier are a prefix of those logged later, in every run, reused ids included |
| `RepositoryRuns.ReplayRebuilds` | internal/repo.go:195-236 | each live application is where the chain of legal transitions in the log leads from its birth, and its version counts them and the vendor-id writes |
| `RepositoryRuns.EveryLogIsLegal` | internal/repo.go:195-236 | the logged transitions of each application, dropped ones included, are legal and each starts where the previous one ended |
| `RepositoryRuns.VersionCountsChanges` | internal/repo.go:145-247 | the version is 1 plus logged transitions plus vendor-id writes |
| `RepositoryRuns.BirthIsItsCreate` | internal/repo.go:137-149 | the birth record of an application is what its create asked for, with the defaults filled in |
| `RepositoryRuns.RunLengthBounds` | internal/statemachine.go:31-40 | 5k <= n <= 7k+6, and n >= 5k+4 when decided, for every run of calls with fresh ids |
| `StateMachine.DecisionPathBounds` | internal/statemachine.go:31-40 | a path of in-flow transitions from STARTED to a decision takes 4 to 6 of them |
| `StateMachine.EveryBoundIsTight` | internal/statemachine.go:31-40 | each of the eight states is reached in exactly its fewest and exactly its most moves |
| `StateMachine.DecisionBoundsAreTight` | internal/statemachine.go:31-40 | paths of 4 and of 6 exist |
| `InMemoryRepository.ApplicationRepository.Create` | internal/repo.go:117-151 | in place, with the caller's own object stored: the new store and answer are those of the specification, and a failure leaves the object alone |
| `InMemoryRepository.ApplicationRepository.Get` | internal/repo.go:154-163 | a copy of the stored record, or not found |
| `InMemoryRepository.ApplicationRepository.GetByUserId` | internal/repo.go:166-179 | a copy of the record the index names, or not found, dangling entries included |
| `InMemoryRepository.ApplicationRepository.UpdateState` | internal/repo.go:183-209 | the three refusals in order, the in-place update with its dates, and the one transition logged |
| `InMemoryRepository.ApplicationRepository.Reopen` | internal/repo.go:212-236 | the refusals, the cleared dates, and the one transition logged |
| `InMemoryRepository.ApplicationRepository.SetVendorApplicantId` | internal/repo.go:239-247 | raises the version of a stored record and logs nothing |
| `InMemoryRepository.ApplicationRepository.ListDueForReKYC` | internal/repo.go:251-261 | exactly the due set, each application once, in any order |
| `DatabaseRepository.DatabaseRefinesMemory` | internal/db_stores.go:61-250 | on every sequential run with fresh ids the table answers every call as the maps do, errors included, and logs the same transitions |
| `DatabaseRepository.RunsStayCoupled` | internal/db_stores.go:61-250 | table and maps hold the same applications after every such run |
| `DatabaseRepository.ExecRefines` | internal/db_stores.go:61-250 | one call keeps them the same, with equal answer and transitions |
| `DatabaseRepository.DbExecAnswers` | internal/db_stores.go:61-130 | every call has an outcome: a newest-first query always has an answer |
| `DatabaseRepository.EveryRunKeepsRowsApart` | internal/db_stores.go:61-109 | over every run, reused ids included, no user has two rows |
| `DatabaseRepository.CreateKeepsRowsApart` | internal/db_stores.go:61-109 | a create neither replaces nor removes a row of anybody else, and an id in use by another is a duplicate |
| `DatabaseRepository.ScanUndoesToRow` | internal/db_stores.go:414-463 | scanning a written row gives the record back: NULL stands for the zero value |
| `DatabaseRepository.QueryAgreesWithIndex` | internal/db_stores.go:61-130 | the newest row of a user is the application the index names |
| `DatabaseRepository.DBApplicationRepo.SelectNewest` | internal/db_stores.go:121-130 | a scan that finds a newest row of the user, or none exactly when there is none |
| `DatabaseRepository.DBApplicationRepo.Create` | internal/db_stores.go:61-109 | the table and answer of the specification; the defaults are filled into the caller's object even when the insert fails |
| `DatabaseRepository.DBApplicationRepo.UpdateState` | internal/db_stores.go:131-178 | the row update with COALESCE on the dates |
| `DatabaseRepository.DBApplicationRepo.Reopen` | internal/db_stores.go:180-222 | the row update with both dates set to NULL |
| `DatabaseRepository.DBApplicationRepo.ListDueForReKYC` | internal/db_stores.go:224-243 | exactly the due rows, each once |
| `DatabaseRepository.CreateDropsUndecidedExactly` | internal/db_stores.go:82-98 | with other calls between its query and its delete, a create drops an undecided application if and only if the row is still there and the last transition logged for it in between leads to an undecided state |
| `DatabaseRepository.ReopenedIsDropped` | internal/db_stores.go:82-98 | one re-opening in between is enough |
| `Audit.LoggedAreReadBack` | internal/audit.go:173-189 | transitions written to the log are read back from it, in order, whatever else it holds |
| `Audit.AuditLog.RecordTransition` | internal/audit.go:173-180 | appends the event from which that transition is read back |
| `Audit.AuditLog.List` | internal/audit.go:183-189 | a copy of all events in order |
| `Decisions.WebhookMovesByClass` | internal/webhooks.go:188-231 | for each target state, exactly the outcomes and current states for which a webhook moves there; an unknown outcome moves nothing |
| `Decisions.SameEffectiveIdExactly` | internal/webhooks.go:167-170 | two deliveries are remembered as one exactly when their ids are equal or both are empty or no-id |
| `WebhookIngest.DeliveryIsAnswered` | internal/webhooks.go:158-207 | exactly when a delivery is refused, repeated, unparsable or accepted; it is marked seen exactly when verified, and only an accepted one can change an application |
| `WebhookIngest.DeliveryIsNoted` | internal/webhooks.go:159-206 | word for word what each delivery leaves in the log |
| `WebhookIngest.AcceptedEventMoves` | internal/webhooks.go:185-205 | an accepted event moves the application it names to the state its outcome asks for, logged with vendor and event id, and otherwise nothing |
| `WebhookIngest.UnsignedIsRefused` | internal/webhooks.go:59-61 | a delivery without a signature header is refused as such and leaves seen set and applications alone |
| `WebhookIngest.RedeliveryIsHarmless` | internal/webhooks.go:158-207 | removing unverified deliveries and repeats of verified ids from any run leaves the same application store and seen set |
| `WebhookIngest.EssentialIsMinimal` | internal/webhooks.go:167-178 | after the removal nothing more can be removed |
| `WebhookIngest.SeenAreVerified` | internal/webhooks.go:30-41 | an id is seen exactly when a verified delivery carried it |
| `WebhookIngest.SeenCountsProcessed` | internal/webhooks.go:158-207 | the seen set counts accepted plus parse-rejected deliveries, and bounds the webhook-driven transitions |
| `WebhookIngest.MovesMadeAreLogged` | internal/webhooks.go:185-205 | a delivery logs exactly the transition it makes, at most one |
| `WebhookIngest.WebhookStore.Seen` | internal/webhooks.go:30-41 | answers whether the id was there and adds it |
| `WebhookIngest.WebhookService.Ingest` | internal/webhooks.go:158-207 | in place: result, seen set, store and log are those of the specification |
| `WebhookSignature.VerifyWebhook` | internal/webhooks.go:55-111 | the loop over the header parts computes the verdict of the specification, each error kind included |
| `WebhookSignature.VerdictExactly` | internal/webhooks.go:55-111 | for every pair of raw headers, exactly when each verdict is given: Valid if and only if there is a signature header, the timestamp read parses, its age is accepted, and the signature read is the hexadecimal HMAC over timestamp, dot and body |
| `WebhookSignature.HeaderIsReadInParts` | internal/webhooks.go:64-88 | a header is read in parts exactly when it has a comma and `t=`; otherwise all of it is the signature, less a leading `v1=` |
| `WebhookSignature.LastTimestampCounts` | internal/webhooks.go:67-81 | of several timestamps in the parts the last counts, and without one the separate header stays |
| `WebhookSignature.LastSignatureCounts` | internal/webhooks.go:67-81 | of several signatures in the parts the last counts, and without one there is none |
| `WebhookSignature.CombinedIsRead` | internal/webhooks.go:65-82 | the combined header is read back into its timestamp and signature |
| `WebhookSignature.SeparateIsRead` | internal/webhooks.go:83-88 | the versioned and the bare form leave the timestamp to its own header |
| `WebhookSignature.ThreeFormsAgree` | internal/webhooks.go:55-111 | the three forms get the same verdict for every non-empty hexadecimal signature, right or wrong |
| `WebhookSignature.AcceptedExactly` | internal/webhooks.go:95-110 | valid if and only if the timestamp is close enough and the signature is the one over it; stale if and only if it is not close enough |
| `WebhookSignature.SignedThenVerified` | internal/webhooks.go:95-110 | what is signed verifies, in all three forms, exactly while it is fresh |
| `WebhookSignature.FarTimestampIsAccepted` | internal/webhooks.go:99-118 | a timestamp 2^63 seconds in the past is accepted with the right signature, whatever the tolerance |
| `WebhookSignature.AgeIsExact` | internal/webhooks.go:99-118 | the wrapping age check accepts exactly the close timestamps and the far negative ones whose distance wraps; for timestamps from 0 on it is exact |
| `Text.HexReadsBack` | internal/webhooks.go:106-107 | reading the hexadecimal encoding back, high half first, gives the bytes |
| `Text.HexIsLowerCase` | internal/webhooks.go:106-107 | the encoding is in lower case |
| `Text.JoinUndoesSplit` | internal/webhooks.go:67 | joining the parts of a header with commas gives it back |
| `Text.TrimDropsPadding` | internal/webhooks.go:95-107 | trimming removes the white space around a text and nothing else |
| `Text.PaddedParses` | internal/webhooks.go:95 | leading zeros and a plus sign change nothing about a number |
| `Text.OthersDoNotParse` | internal/webhooks.go:95 | a number beyond 64 bits, or a text with anything but digits after its sign, is refused |
| `Text.ParseUndoesFormat` | internal/webhooks.go:95-104 | a printed 64-bit number parses back |
| `Text.TrimKeepsHex` | internal/webhooks.go:107-108 | trimming leaves a hexadecimal signature alone |
| `Retry.DoWithRetry` | internal/retry.go:66-108 | attempts, result and cancellation as specified; each response with a 5xx, 408 or 429 status among the attempts made is closed exactly once and no other; every delay is the number drawn below the bound of its attempt |
| `Retry.DelaysAreJittered` | internal/retry.go:94-100 | each delay is below its bound, and any number below it can be drawn |
| `Retry.UncancelledResult` | internal/retry.go:66-108 | the first answer that is neither an error nor 5xx, 408 or 429 among the first max(1, maxAttempts), else the last, with exactly that many attempts |
| `Retry.ResultExactly` | internal/retry.go:66-108 | for any context: why the run ended where it did, and that every attempt before went on |
| `Retry.BoundIsPositive` | internal/retry.go:94-100 | the jitter argument is positive and at most maxDelay for every attempt |
| `Retry.BoundIsIdeal` | internal/retry.go:94-100 | the bound from wrapping shift and product is min(maxDelay, baseDelay * 2^(attempt-1)) whenever baseDelay * maxDelay < 2^63 |
| `Retry.BoundIsIdealExactly` | internal/retry.go:94-100 | for any settings and attempt, exactly when baseDelay * 2^(attempt-1) is below 2^63, or its residue modulo 2^64 is 0 or at least maxDelay |
| `Retry.BoundNeverDecreases` | internal/retry.go:94-100 | under the same condition the bound never decreases |
| `Retry.LargeBaseWraps` | internal/retry.go:94-100 | without it a large base wraps to a tiny delay |
| `PolicySink.EveryEventIsAccountedFor` | internal/policy_sink.go:101-177 | in every interleaving each published event is in exactly one place, the queue stays within capacity, no event is posted more than 6 times, and exactly 6 when dropped after retries |
| `PolicySink.DroppedOnlyWhenFull` | internal/policy_sink.go:114-119 | in no run is an event dropped while the queue has room |
| `PolicySink.AnswerDecides` | internal/policy_sink.go:108-119 | the answer to a post decides: acknowledged, or behind the queue while there is room, or dropped |
| `PolicySink.DrainedInOrder` | internal/policy_sink.go:101-177 | finished, in flight and queued events are the enqueued ones in their order |
| `PolicySink.GoesIdle` | internal/policy_sink.go:145-177 | without new events the drainer makes at most 5 posts for each event queued or in flight and takes a bounded number of steps |
| `PolicySink.NotIdleMeansBusy` | internal/policy_sink.go:145-177 | the drainer can act exactly when it is not idle |
| `PolicySink.EveryRunIsOk` | internal/policy_sink.go:101-183 | the joint invariant of conservation, order, posts and bounds over every run |
| `PolicySink.DeliverWithRetry` | internal/policy_sink.go:151-174 | the loop posts until the first success, the fifth failure or a stop in a wait, and says which; it waits between, a second at first and twice as long each time |
| `PolicySink.WaitsDouble` | internal/policy_sink.go:151-174 | the waits of the loop are 1, 2, 4 and so on seconds |
| `PolicySink.MachineWaitsAlike` | internal/policy_sink.go:151-174 | in every run the drainer waiting after attempt k waits 2^(k-1) seconds |
| `PolicySink.DrainIsDrained` | internal/policy_sink.go:151-174 | the step machine, nobody else moving, makes the same number of posts and ends with the same fate |
| `PolicySink.PolicyEventSink.Publish` | internal/policy_sink.go:101-120 | post once, else enqueue, else drop; fields and posts made go on as the step machine does |
| `PolicySink.PolicyEventSink.DrainOne` | internal/policy_sink.go:145-177 | takes the head of the queue: the posts made, the fate recorded, the waits and the rest of the fields are those of the step machine |
| `PolicySink.PolicyEventSink.Stop` | internal/policy_sink.go:180-183 | when it returns the drainer has exited, and what it finished since with what is still queued is what was queued |
| `PolicySink.StoppedAccounts` | internal/policy_sink.go:145-183 | once the drainer has stopped, every event is in exactly one of acknowledged, dropped, lost in a wait and still queued |
| `Retention.DocumentStore.SweepExpired` | internal/server.go:210-230 | in-place compaction, in order and counted: a document survives if and only if its deadline is 0 or after now; survivors keep every byte, the others lose every byte to zero |
| `Retention.LivenessStore.SweepExpired` | internal/server.go:263-279 | in-place compaction, in order and counted: a session survives if and only if its deadline is 0 or after now |
| `Retention.LivenessStore.Latest` | internal/server.go:251-260 | the session added last of those still held |
| `Retention.DocumentStore.Add` | internal/server.go:176-180 | appends for the application and keeps contents unshared |
| `Retention.DocumentStore.HasRequiredDocs` | internal/server.go:192-206 | true exactly when both an identity front and a selfie are held |
| `Retention.SweepTwice` | internal/server.go:210-230 | two sweeps, the later not before the earlier, leave and count the same as the later alone |
| `Retention.KeptExactly` | internal/server.go:217 | kept are exactly the items whose deadline is 0 or after now |
| `Retention.AddedComesLast` | internal/server.go:176-180 | what is added comes last on its shelf, behind what was there |
| `Retention.KeptComeFrom` | internal/server.go:210-230 | what is kept comes from increasing positions, so in the old order |
| `Retention.LatestKept` | internal/server.go:251-279 | after a sweep the latest is the last unexpired session added |
| `Scheduler.TickReopensExactly` | internal/server.go:881-893 | a pass run alone reopens exactly the due applications, touches nothing else, counts them, and leaves none due |
| `Scheduler.TickedLogs` | internal/server.go:881-893 | it logs one transition for each application on its list, in that order |
| `Scheduler.QuietTick` | internal/server.go:881-893 | where nothing is due a pass returns 0 and changes nothing, so a second pass at the same instant does |
| `Scheduler.ReKYCService.Tick` | internal/server.go:881-893 | the in-place pass over the repository has these effects |
| `ReviewTheorems.HitsAgreeExactly` | internal/screening.go:143-168 | in every interleaved run of analysts, webhooks, screening runs and all other clients: the hits of a decided application agree with the decision if and only if there are none, or none was added after the last mark and who marked last stands for the outcome of who decided, analyst or webhook class |
| `ReviewTheorems.FirstDecisionStands` | internal/repo.go:190-202 | the first to decide wins whoever else had read the application: its next transition can only be a re-opening |
| `ReviewTheorems.LastMarkStands` | internal/screening.go:203-212 | in every run each hit names the last analyst to mark, but for the hits added since, which are unmarked |
| `ReviewTheorems.DecidedByDecision` | internal/repo.go:195-206 | a stored application is decided exactly when its last observed transition decided it, and is in the state that led to |
| `ReviewTheorems.WhoDecides` | internal/webhooks.go:188-231 | only analysts and webhooks decide, and a decision is PASS exactly when its writer stands for approval |
| `ServiceWitnesses.DisagreementShows` | internal/screening.go:159-165 | a run of two analysts after which an application passed and its hits say blocked |
| `ServiceWitnesses.WebhookRaceShows` | internal/screening.go:159-167 | a run in which a webhook decides between an analyst's mark and write: the write gets a conflict, the application passed and its hits say blocked |
| `ServiceWitnesses.LateHitShows` | internal/screening.go:119-129 | a run in which a screening adds a hit after the mark: the application passed with an unreviewed hit |
| `ServiceWitnesses.ReviewIsReached` | internal/server.go:557-752 | a run from the empty service to an application that waits for review with one hit |
| `ServiceRefinement.HookRunsAsDelivered` | internal/webhooks.go:158-207 | an uninterrupted webhook client of the step machine leaves the seen set, store and transitions of the verified ingestion |
| `ServiceRefinement.TickReturnsAsPass` | internal/server.go:881-893 | an uninterrupted tick leaves the store of the verified pass and returns its count |
| `ServiceRefinement.DispositionRunsAsServed` | internal/screening.go:143-170 | an uninterrupted disposition does what the verified service does, or nothing where that answers with an error |
| `Screening.DispositionReplyExactly` | internal/screening.go:144-153 | exactly when a disposition is refused, with which error, and when it succeeds |
| `Screening.DispositionIsLogged` | internal/screening.go:159-168 | word for word what a disposition leaves in the log |
| `Screening.DispositionMoves` | internal/screening.go:159-167 | from review the write a disposition asks for is always allowed, dates the decision and logs it |
| `Screening.ScreeningService.Run` | internal/screening.go:113-139 | keeps each match as a hit of this application only, asks for review exactly from the threshold on, and leaves nothing when the screener fails |
| `Screening.ScreeningService.Disposition` | internal/screening.go:143-170 | which of the three errors it gives or that it succeeds; an error changes nothing, a success marks all hits, decides and logs |
| `Screening.ScreeningStore.SetDisposition` | internal/screening.go:203-212 | overwrites every hit of the application and no other |
| `SanctionsHits.MarkedExactly` | internal/screening.go:203-212 | the overwritten hits field by field: reviewer, time and disposition are new, the rest stays |
| `SanctionsHits.NewHitsExactly` | internal/screening.go:118-129 | new hits carry the matches in order and no review |
| `HandlerRuns.UploadRuns` | internal/server.go:557-606 | an uninterrupted upload: refused for an unknown application or type, otherwise stored, and it moves a started application exactly when front and selfie are then there |
| `HandlerRuns.LivenessRuns` | internal/server.go:644-693 | an uninterrupted liveness start: refused, or stored, and it moves the application exactly from DOCUMENTS_UPLOADED |
| `HandlerRuns.ScreenRuns` | internal/server.go:715-752 | an uninterrupted screening: every match kept as an unmarked hit, then review from the threshold on and screening below it, from exactly the states that allow it |
| `HandlerRuns.TriggerRuns` | internal/server.go:814-838 | an uninterrupted trigger re-opens the application on file exactly when it is decided |
| `HandlerRuns.CreateRuns` | internal/server.go:432-475 | an uninterrupted creation leaves the user one application, field by field, unless an undecided one is on file |
| `Migrations.EveryRunIsAtAPrefix` | db/db.go:142-223 | every run of ups and downs, failing at any point, keeps the applied versions a prefix of the list and the schema its fold |
| `Migrations.UpCountsPending` | db/db.go:142-178 | a successful MigrateUp returns the number pending and leaves none |
| `Migrations.UpAgainDoesNothing` | db/db.go:153-161 | the next one returns 0 and changes nothing |
| `Migrations.UpSucceedsExactly` | db/db.go:152-176 | it succeeds exactly when no lookup fails and no pending transaction does |
| `Migrations.DownRollsBackExactly` | db/db.go:190-222 | a rollback takes back exactly the last migration, if and only if there is one, its version is not 0, it has a down script and nothing fails |
| `Migrations.VersionZeroStays` | db/db.go:190-199 | a list whose one migration is numbered 0 is applied and never rolled back |
| `Migrations.ListIsUnique` | db/db.go:114-128 | the files decide the list, whatever the order of map iteration |
| `Migrations.PairsAreLoaded` | db/db.go:83-129 | a directory of numbered pairs of files loads as those pairs: in order, each with its own up and its own down text and its name |
| `Migrations.NamedFileHasRole` | db/db.go:95-111 | number, underscore, any text and .up.sql is the up script of that version; with .down.sql the down script |
| `Migrations.NumberedFileHasRole` | db/db.go:95-111 | the same with leading zeros in the number |
| `Migrations.OthersHaveNoRole` | db/db.go:92-103 | directories, and names without underscore, number or ending, take no part |
| `Migrations.LoadMigrations` | db/db.go:83-129 | one script for each version with an up file, ascending, the last file of a version and direction counting |
| `Migrations.LoadedIsAscending` | db/db.go:114-128 | the list as loaded is ascending, as the runner needs |
| `Migrations.Database.MigrateUp` | db/db.go:142-178 | the loop with its transactions ends as the specification does, failures included |
| `Migrations.Database.MigrateDown` | db/db.go:181-223 | the same for the rollback |

## Left out

- HTTP routing, JSON and multipart decoding, error envelopes, middleware, tracing and metrics: each handler is modelled as its read, decide and write steps only.
- Vendor, sanctions and Kafka clients: their answers are arbitrary inputs; publishing an audit event to Kafka is not part of this model.
- HMAC, SHA-256, AES-GCM and base64: HMAC is a parameter, encryption at rest is not part of this model.
- PostgreSQL itself: a table is a map of rows, a statement or transaction one atomic step that succeeds (in the migration runner, that may fail as a whole). UUID syntax of keys, the foreign keys and timestamp rounding are not modelled.
- Migration scripts carry their own BEGIN and COMMIT, which would end the runner's transaction early; the model takes each migration as atomic, and each down script as undoing its up script.
- The 64-bit width of `Version` and of counters: they are unbounded here.
- Ids, timestamps and free-form payloads of audit events: an event is its aggregate, actor and action with the fields the model uses.
- White space outside ASCII in the trimming of header values.
- The composite sink that hands each transition to the policy sink and to the log: the log is modelled as the repository's sink, the policy sink on its own.
- The handler's read of the object it has just handed to Create: the store owns the object from then on, and the id is taken from the request's own copy.
- Order in which due applications are listed: map iteration order is arbitrary, the claims hold for every order.
- Database-backed document and liveness stores: single statements that would only repeat the in-memory claims.
- Environment reading, starting and stopping of goroutines, list-sync files and the command line.
- Screener's name matching, and the maps from document types and vendor outcomes to other texts: they only look strings up.
- Retention.DocumentStore.Add: asks that no stored document shares the new content; with shared contents a sweep would zero bytes of a document it keeps.
