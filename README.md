# Job lifecycle engine — a Dafny model

This project models the core of a job-processing system: a store of job
records keyed by a MongoDB object id, the backend repository and service that
create, read and list jobs and change their status, and the worker that runs
jobs from the "jobs" Kafka topic, finishes cancellations from the
"job_cancellations" topic and reports failures on "jobs_dlq".

Modules, one per source file or shared concept:

- `Models` (`models.dfy`): the job record, the three job types, the six statuses and the
  predicates `IsValidJobType`, `IsTerminal`, `CanBeCancelled` and `CanBeRetried`.
- `ObjectIds` (`object_ids.dfy`): object ids as their canonical 24-digit lower-case hex spelling.
  `FromHex` accepts 24 hex digits of either case, as `primitive.ObjectIDFromHex` does.
- `Errors`, `Messages`, `Wrappers`: the error values, the three Kafka message shapes, Option and Result.
- `Store` (`store.dfy`): the shared "jobs" collection as a class holding a map from id to record.
  It also defines the single-record `$set` and replace updates as functions on that map.
- `Repositories` (`repository.dfy`): `JobsRepository`, a class over the collection.
  The listing order (newest `createdAt` first) and the page window are specified here.
- `Services` (`service.dfy`): `JobsService` with `CreateJob`, `GetJob`, `ListJobs` and the `CancelJob`/`RetryJob` stubs.
  The Kafka producer is an outbox sequence.
- `JobWorker` (`worker.dfy`): the worker handlers as pure steps over the collection and the dead-letter outbox.
  The `Worker` class runs those steps and the two consumer loops, and is proved equal to them.

Inputs the program takes from its environment are parameters:

- the clock (an abstract `Time`, a natural number);
- the id `primitive.NewObjectID()` draws;
- whether the broker accepts a publish;
- the outcome of the simulated run;
- the decode result of each queue payload (`None` for a payload that does not decode).

Only the cancellation handler's write is conditional on the job's status.
The model follows the code, and the lemmas below show what the unconditional writes allow and what a guarded final write would give.

## Model

| member | source | states |
|---|---|---|
| `Models.IsValidJobType` | backend/models/job.go:44-56 | true exactly for "process", "analyze" and "export" |
| `Models.ContainsTypeName` | backend/models/job.go:50-55 | the search is true exactly when some listed type has the given name |
| `Models.ValidJobTypeNames` | backend/models/job.go:43-56 | a string is a valid job type exactly when it is the name of one of the `JobType` values |
| `Models.JobStatus.IsTerminal` | backend/models/job.go:59-61 | a status is terminal exactly when it is not pending, processing or cancelling |
| `Models.Job.CanBeCancelled` | backend/models/job.go:64-66 | a job may be cancelled exactly when its status is live and not already cancelling |
| `Models.Job.CanBeRetried` | backend/models/job.go:69-71 | only a failed job may be retried, and a failed one exactly while at most 2 retries are used |
| `Models.TerminalStatuses` | backend/models/job.go:58-61 | completed, failed and cancelled are terminal; pending, processing and cancelling are not |
| `Models.CancellableIsNotTerminal` | backend/models/job.go:59-66 | a job that can be cancelled is never terminal |
| `Models.RetryableIsTerminal` | backend/models/job.go:59-71 | a retryable job (failed, fewer than 3 retries) is still reported terminal |
| `Models.CancelAndRetryExclusive` | backend/models/job.go:63-71 | no job is both cancellable and retryable |
| `Models.StatusNamesDistinct` | backend/models/job.go:21-28 | the six status strings are pairwise distinct |
| `Models.JobTypeNamesDistinct` | backend/models/job.go:12-16 | the three job type strings are pairwise distinct |
| `ObjectIds.FromHex` | backend/repositories/jobs_repository.go:47-50 | an id parses exactly when it is 24 hex digits; a canonical id parses to itself |
| `ObjectIds.HexRoundTrip` | backend/services/jobs_service.go:95 | the hex spelling of an id parses back to the same id |
| `Messages.WorkMessage` | backend/services/jobs_service.go:94-100 | the work message carries the job's id (parsing back to it), name, type, config and creation time |
| `Store.SetStatus` | backend/repositories/jobs_repository.go:101-108 | sets status and updated_at of the matching record whatever its status; no other record changes; an absent id changes nothing |
| `Store.SetStatusAndRetry` | backend/repositories/jobs_repository.go:119-127 | sets exactly status, retry_count and updated_at of the matching record; nothing else changes |
| `Store.SetStatusAndError` | worker/main.go:203-210 | sets exactly status, error_message and updated_at of the matching record; nothing else changes |
| `Store.ReplaceRecord` | backend/repositories/jobs_repository.go:135 | the record with the job's id is replaced whole; other records and absent ids are untouched |
| `Repositories.JobsRepository.Create` | backend/repositories/jobs_repository.go:36-43 | the record gets the fresh id and the clock as both timestamps and is stored under that id; an id already stored is refused and nothing changes |
| `Repositories.JobsRepository.GetByID` | backend/repositories/jobs_repository.go:46-62 | a malformed id is an error; an id matching nothing gives absent, not an error; otherwise the stored record |
| `Repositories.JobsRepository.List` | backend/repositories/jobs_repository.go:65-92 | total is the number of stored jobs whatever the page; the jobs are the window, at the skip computed with 64-bit wrap-around, of the newest-first listing; a skip that wrapped negative is an error; when (page - 1) * limit fits, the window starts exactly there |
| `Repositories.NewestFirstListing` | backend/repositories/jobs_repository.go:74-80 | the listing holds every stored job exactly once, ordered by createdAt descending |
| `Repositories.InsertNewestFirst` | backend/repositories/jobs_repository.go:78 | inserting into a newest-first sequence keeps it newest-first and adds exactly that job |
| `Repositories.Window` | backend/repositories/jobs_repository.go:75-77 | the window starts at position skip and holds min(abs(limit), what remains) jobs, or all that remain when limit is 0 |
| `Repositories.PageIsStoredNewestFirst` | backend/repositories/jobs_repository.go:66-91 | a page holds at most abs(limit) jobs, each stored under its own id, newest first |
| `Repositories.JobOnItsPage` | backend/repositories/jobs_repository.go:66-78 | the job at listing position i is on page i / limit + 1, at position i mod limit of the window at the skip `List` computes |
| `Repositories.ConsecutivePagesAdjoin` | backend/repositories/jobs_repository.go:66-77 | two consecutive pages together are the double-length window: nothing skipped or repeated |
| `Repositories.StrictHeadIsNewest` | backend/repositories/jobs_repository.go:75-78 | in a listing with strictly decreasing createdAt, the first job heads every newest-first arrangement of the same jobs |
| `Repositories.StrictOrderDeterminesSequence` | backend/repositories/jobs_repository.go:75-78 | a strictly decreasing listing is the only newest-first arrangement of its jobs |
| `Repositories.ListingHasNoRepeats` | backend/repositories/jobs_repository.go:74-80 | a listing of the collection never shows the same record twice |
| `Repositories.ListingUnique` | backend/repositories/jobs_repository.go:74-80 | when no two jobs share a creation time, the newest-first listing of the collection is unique |
| `Repositories.PageDetermined` | backend/repositories/jobs_repository.go:66-91 | when no two jobs share a creation time, a page is fully determined by the collection, skip and limit; with ties the order among equal times is left open |
| `Repositories.SkipAsWritten` | backend/repositories/jobs_repository.go:66 | the skip as the code computes it: an int64 congruent to (page - 1) * limit modulo 2^64, and equal to it whenever the product fits |
| `Repositories.WrappedSkipExact` | backend/repositories/jobs_repository.go:66 | for page and limit at least 1, the wrapped skip equals (page - 1) * limit exactly when the product fits in int64, and is then not negative |
| `Repositories.Skip` | backend/repositories/jobs_repository.go:66 | the corrected skip: equal to (page - 1) * limit whenever that fits in int64, MaxInt64 when it is larger, and negative only when the product is |
| `Repositories.SaturatedSkipSamePage` | backend/repositories/jobs_repository.go:66-77 | saturating the skip never changes a page of a listing whose size fits in int64 |
| `Repositories.SkipOverflowExample` | backend/repositories/jobs_repository.go:66 | for page 2^62 and limit 4 the as-written skip wraps to -4, and for page 2^62 + 1 it wraps to 0 (the first page), while the corrected skip is MaxInt64 for both |
| `Repositories.PastTheEndPageIsEmpty` | backend/repositories/jobs_repository.go:66-77 | with the corrected skip, a page that starts past the end of the listing is empty, however large the page number |
| `Repositories.WrapInt64` | backend/repositories/jobs_repository.go:66 | the result is in int64 range, congruent to the input modulo 2^64, and equal to it when it fits |
| `Repositories.JobsRepository.UpdateStatus` | backend/repositories/jobs_repository.go:95-110 | malformed id: error, no change; otherwise the unconditional status write, and no error even when nothing matches |
| `Repositories.JobsRepository.UpdateStatusWithRetry` | backend/repositories/jobs_repository.go:113-129 | malformed id: error, no change; otherwise the unconditional write of status, retry_count and updated_at |
| `Repositories.JobsRepository.Update` | backend/repositories/jobs_repository.go:132-137 | the record with the job's id is replaced by the job with updated_at refreshed |
| `Services.Validate` | backend/services/jobs_service.go:68-78 | passes exactly for a non-empty name and a valid type; an empty name is reported on field "name", else a bad type on "job_type" |
| `Services.NameCheckedBeforeType` | backend/services/jobs_service.go:69-78 | an empty name fails on "name" whatever the type; "bogus" with a name fails on "job_type" |
| `Services.NewJob` | backend/services/jobs_service.go:81-87 | the new record is pending with no retries, and name, type and config come from the request |
| `Services.IsValidationError` | backend/services/jobs_service.go:170-174 | true exactly when the root of the wrap chain is a validation error |
| `Services.Clamp` | backend/services/jobs_service.go:126-131 | a page below 1 becomes 1 and any other page is kept; a limit in [1, 100] is kept and any other becomes 10 |
| `Services.ClampIdempotent` | backend/services/jobs_service.go:126-131 | clamping twice is clamping once |
| `Services.KafkaProducer.Publish` | backend/services/kafka_producer.go:26-55 | a delivered message is appended to the outbox with its topic; an undelivered one is an error and appends nothing |
| `Services.JobsService.CreateJob` | backend/services/jobs_service.go:67-108 | validation and insert failures store and publish nothing; success stores a pending record with no retries, and publishes its work message to "jobs" if the broker accepts; a failed publish still succeeds |
| `Services.JobsService.GetJob` | backend/services/jobs_service.go:111-122 | absent maps to `ErrJobNotFound`; a malformed id is a wrapped error; otherwise the stored record |
| `Services.JobsService.ListJobs` | backend/services/jobs_service.go:125-139 | asks the repository for the clamped page and limit; when the wrapped skip is negative it fails with "failed to list jobs" around the repository's error, otherwise it returns at most 100 stored jobs newest first and the total; it succeeds whenever (page - 1) * limit fits in int64 |
| `Services.JobsService.CancelJob` | backend/services/jobs_service.go:143-153 | always fails with "not implemented" and changes nothing |
| `Services.JobsService.RetryJob` | backend/services/jobs_service.go:157-168 | always fails with "not implemented" and changes nothing |
| `JobWorker.RetryCountRead` | worker/main.go:197-201 | the stored retry count when it fits in 32 bits, else 0 |
| `JobWorker.Reread` | worker/main.go:182-193 | vanished exactly when the record is gone; a cancellation is seen exactly for cancelling or cancelled |
| `JobWorker.Claim` | worker/main.go:164-174 | the job's status becomes processing whatever it was and its update time is the clock; every other record and the dead-letter topic are untouched |
| `JobWorker.FinalWrite` | worker/main.go:195-242 | failure: status failed with "Simulated processing failure" and one dead-letter message; success: status completed and no message; no other record changes |
| `JobWorker.Finish` | worker/main.go:182-242 | if the re-read finds the job gone, cancelling or cancelled, nothing is written and nothing is sent to the dead-letter topic; otherwise the final write runs with the retry count read; records stay keyed by their id |
| `JobWorker.ProcessJobStep` | worker/main.go:157-243 | a malformed id changes nothing; records stay keyed by their id |
| `JobWorker.CancelStep` | worker/main.go:282-301 | only a pending, processing or cancelling job named by the message changes, to cancelled; terminal jobs never change |
| `JobWorker.CancelModified` | worker/main.go:290-311 | the modified count is 1 exactly when the filter matches, else 0 |
| `JobWorker.MalformedIdChangesNothing` | worker/main.go:158-162 | a malformed id leaves collection and dead-letter topic unchanged in both handlers |
| `JobWorker.UninterruptedRunOverridesAnyStatus` | worker/main.go:164-242 | run alone, the handler ends in completed or failed from any prior status, with exactly the dead-letter message the outcome calls for |
| `JobWorker.CancelDuringWorkIsHonoured` | worker/main.go:182-193 | claim, cancel, then re-read: no further write and no dead-letter message |
| `JobWorker.CancellationLostInRace` | worker/main.go:182-242 | re-read sees the job live, a cancellation lands, and the final write turns cancelled into completed or failed |
| `JobWorker.GuardedFinalWrite` | worker/main.go:203-236 | the final write only from processing, else no change |
| `JobWorker.GuardedWritesExcludeEachOther` | worker/main.go:290-301 | with the guarded final write, of cancel and finish from processing exactly one takes effect in either order |
| `JobWorker.CancellationIdempotent` | worker/main.go:290-311 | a second cancellation changes nothing and modifies zero records |
| `JobWorker.WorkMessageReachesItsJob` | worker/main.go:157-243 | the work message published for a stored job drives that job to completed or failed |
| `JobWorker.ConsumeJobsSpec` | worker/main.go:131-154 | handling a run of job messages keeps every record under its own id |
| `JobWorker.ConsumeCancellationsSpec` | worker/main.go:256-279 | handling a run of cancellations keeps the set of ids and their keying |
| `JobWorker.DecodedJobs` | worker/main.go:145-149 | a delivery is kept exactly when it was read and its payload decoded; never more than were read |
| `JobWorker.UndecodableJobsIgnored` | worker/main.go:145-152 | skipping undecodable payloads is all that happens to them: handling only the decoded ones, in order, gives the same state |
| `JobWorker.CancellationsLeaveTerminalJobs` | worker/main.go:256-301 | however many cancellations arrive, a terminal job is unchanged |
| `JobWorker.KeepsIdentityTransitive` | worker/main.go:157-243 | leaving ids, names, types, configs, creation times and retry counts unchanged composes across steps |
| `JobWorker.ProcessJobStepKeepsIdentity` | worker/main.go:157-243 | processJob writes only status, error message and update time; the dead-letter topic grows by at most one message |
| `JobWorker.ProcessJobStepFrame` | worker/main.go:157-243 | processJob changes no record but the one its message's id names |
| `JobWorker.CancelStepKeepsIdentity` | worker/main.go:282-301 | processCancellation writes only status and update time |
| `JobWorker.ConsumeJobsKeepsIdentity` | worker/main.go:131-154 | over any run of job deliveries, every job keeps its identity and retry count, and the dead-letter topic is only appended to, at most once per delivery |
| `JobWorker.ConsumeCancellationsKeepsIdentity` | worker/main.go:256-279 | over any run of cancellation deliveries, every job keeps its identity and retry count |
| `JobWorker.Worker.ProcessJob` | worker/main.go:157-243 | the method's effect on collection and dead-letter topic is `ProcessJobStep` |
| `JobWorker.Worker.ProcessCancellation` | worker/main.go:282-312 | the method's effect is `CancelStep` and it returns the modified count |
| `JobWorker.Worker.ConsumeJobs` | worker/main.go:120-155 | the loop's effect is `ConsumeJobsSpec` over the deliveries in arrival order |
| `JobWorker.Worker.ConsumeCancellations` | worker/main.go:245-280 | the loop's effect is `ConsumeCancellationsSpec` over the deliveries in arrival order |

## Findings

| source | as written | input that shows it | evidently intended | confidence | as-written member | corrected member |
|---|---|---|---|---|---|---|
| worker/main.go:182-242 | the re-read skips finalisation for a cancelled job, but the final write that follows has no status filter | a processing job; the re-read sees it live; the cancellation handler then marks it cancelled; the final write sets completed or failed | the final write takes effect only while the job is still processing, so a cancellation is never overwritten | medium, not executed | `JobWorker.CancellationLostInRace` | `JobWorker.GuardedWritesExcludeEachOther` |
| backend/repositories/jobs_repository.go:66 | `skip := (page - 1) * limit` in a 64-bit `int` wraps around | page 4611686018427387904 (2^62), limit 4: the skip wraps to -4, the find is refused and `ListJobs` fails | a page past the end of the listing is empty | medium, not executed | `Repositories.SkipOverflowExample` | `Repositories.Skip` |

The repository's `List` and the service's `ListJobs` keep the wrapping skip, as the code has it; `PastTheEndPageIsEmpty` states what the corrected `Skip` gives instead. The worker's `ProcessJob` keeps the unconditional final write, because that write is the subject of the race lemma.
`GuardedFinalWrite` is the corrected write, and `GuardedWritesExcludeEachOther` proves its property.

## Left out

- Process bootstrap, environment lookup, signal handling, goroutines and the `WaitGroup` are not modelled. The consumer loops run over the finite run of messages read before shutdown.
- Concurrency is not modelled. Interleavings are stated as sequences of steps: claim, re-read, cancel, final write.
- Driver and broker failures other than the ones named here are not modelled (network errors on update, find or count). The named ones are a malformed id, a duplicate `_id`, a negative skip, a missing record on the worker's re-read, and an undelivered publish.
- `time.Sleep` and the random draws are parameters (`Outcome`) or absent. No floating point is modelled.
- JSON decoding of queue payloads is an `Option` given to the loops. Configuration values have integer numbers only.
- `JobWorker.Worker.ProcessJob`: the failed write and the dead-letter `failed_at` share one clock reading; the source reads the clock twice.
- `JobWorker.Worker.ProcessJob`: a dead-letter write error is ignored by the source. The model always delivers the dead-letter message.
- `Repositories.JobsRepository.Create`: `created_at` and `updated_at` share one clock reading. The millisecond precision of stored times is not modelled.
- `Repositories.JobsRepository.Create`: the source mutates the caller's job in place, even when the insert fails. The model returns the updated record as a value instead.
- `Repositories.JobsRepository.Update`: the same applies; the refreshed record is returned as a value.
- `Repositories.JobsRepository.List`: jobs with equal `createdAt` may be listed in any order, as the server leaves it. The page is specified up to that order.
- The count and the find in `List` are two separate reads. The model reads one state for both.
- Statuses are a closed enumeration. The source's string type admits other values, but no code path writes one.
- `CancelJob` and `RetryJob` are modelled as the stubs they are. Their TODO comments describe behaviour that the code does not have.
- The sentinel errors `ErrInvalidJobType`, `ErrMissingJobName`, `ErrInvalidJobState` and `ErrMaxRetriesReached` are not modelled. They are declared but nothing returns them.
- `ValidationError.Error()` string formatting is not modelled.
- The HTTP handlers (backend/api) are not part of this model. Their page/limit clamping repeats `ListJobs`.
- `KafkaProducer`'s writer set-up, JSON marshalling and `Close` are not modelled. Publishing is appending to an outbox.
