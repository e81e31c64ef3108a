/**
 * `jobsService` (backend/services/jobs_service.go): request validation,
 * creation with a best-effort publish, lookup, paged listing, and the two
 * operations that are still stubs.
 */
module Services {
  import opened Wrappers
  import opened ObjectIds
  import opened Models
  import opened Errors
  import opened Messages
  import opened Store
  import opened Repositories

  datatype CreateJobRequest = CreateJobRequest(name: string, jobType: string, config: Config)

  datatype JobFilter = JobFilter(page: int, limit: int)

  const WorkTopic: string := "jobs"

  /** The context `ListJobs` wraps a repository error in. */
  const ListFailedContext: string := "failed to list jobs"

  function InvalidTypeMessage(jobType: string): string {
    "invalid job type '" + jobType + "', must be one of: process, analyze, export"
  }

  /**
   * The checks `CreateJob` makes before touching the store, in order: the
   * name must be non-empty, then the type must be one of the three.
   */
  function Validate(req: CreateJobRequest): (r: Option<Error>)
    ensures r.None? <==> req.name != "" && IsValidJobType(req.jobType)
    ensures r.Some? ==> r.value.Validation?
    ensures r.Some? ==> (r.value.field == "name" <==> req.name == "")
    ensures r.Some? && req.name != "" ==>
              r.value == Validation("job_type", InvalidTypeMessage(req.jobType))
  {
    if req.name == "" then
      Some(Validation("name", "job name is required"))
    else if !IsValidJobType(req.jobType) then
      Some(Validation("job_type", InvalidTypeMessage(req.jobType)))
    else
      None
  }

  /** The name is checked first: an empty name is reported whatever the job type. */
  lemma NameCheckedBeforeType(config: Config)
    ensures forall t :: Validate(CreateJobRequest("", t, config)) == Some(Validation("name", "job name is required"))
    ensures Validate(CreateJobRequest("x", "bogus", config)).value.field == "job_type"
  {
  }

  /** The record `CreateJob` builds before the repository assigns its id and times. */
  function NewJob(req: CreateJobRequest): (j: Job)
    ensures j.status == Pending && j.retryCount == 0 && j.errorMessage == ""
    ensures j.name == req.name && j.jobType == req.jobType && j.config == req.config
  {
    Job(NilObjectId, req.name, req.jobType, Pending, req.config, "", 0, 0, 0)
  }

  /** The root cause at the end of a chain of wrapped errors. */
  function RootCause(e: Error): Error {
    if e.Wrapped? then RootCause(e.cause) else e
  }

  /** `IsValidationError`: `errors.As` walks the wrap chain looking for a `ValidationError`. */
  function IsValidationError(e: Error): (r: bool)
    ensures r <==> RootCause(e).Validation?
  {
    e.Validation? || (e.Wrapped? && IsValidationError(e.cause))
  }

  /** `ListJobs`' clamping: page at least 1; a limit outside [1, 100] becomes 10. */
  function Clamp(filter: JobFilter): (r: JobFilter)
    ensures r.page >= 1 && 1 <= r.limit <= 100
    ensures filter.page >= 1 ==> r.page == filter.page
    ensures filter.page < 1 ==> r.page == 1
    ensures 1 <= filter.limit <= 100 ==> r.limit == filter.limit
    ensures !(1 <= filter.limit <= 100) ==> r.limit == 10
  {
    JobFilter(if filter.page < 1 then 1 else filter.page,
              if filter.limit < 1 || filter.limit > 100 then 10 else filter.limit)
  }

  /** Clamping a clamped filter changes nothing. */
  lemma ClampIdempotent(filter: JobFilter)
    ensures Clamp(Clamp(filter)) == Clamp(filter)
  {
  }

  /** The part of `KafkaProducer` the service relies on: publishing appends to a topic or fails. */
  class KafkaProducer {
    var sent: seq<Publication>

    constructor ()
      ensures sent == []
    {
      sent := [];
    }

    method Publish(topic: string, message: JobMessage, delivered: bool) returns (err: Option<Error>)
      modifies this
      ensures err == (if delivered then None else Some(PublishFailed))
      ensures sent == if delivered then old(sent) + [Publication(topic, message)] else old(sent)
    {
      if delivered {
        sent := sent + [Publication(topic, message)];
        err := None;
      } else {
        err := Some(PublishFailed);
      }
    }
  }

  class JobsService {
    const repo: JobsRepository
    const producer: KafkaProducer

    constructor (repo: JobsRepository, producer: KafkaProducer)
      ensures this.repo == repo && this.producer == producer
    {
      this.repo := repo;
      this.producer := producer;
    }

    ghost predicate Valid()
      reads repo.collection
    {
      repo.collection.Valid()
    }

    /**
     * `CreateJob`: a request that fails validation, or whose insert fails,
     * stores and publishes nothing; otherwise a pending record with no
     * retries is stored under the new id, and its work message is published
     * when the broker accepts it. A failed publish does not fail the call.
     */
    method CreateJob(req: CreateJobRequest, newId: ObjectId, now: Time, delivered: bool) returns (r: Result<Job, Error>)
      requires Valid()
      modifies repo.collection, producer
      ensures Valid()
      ensures Validate(req).Some? ==>
                r == Failure(Validate(req).value) &&
                repo.collection.docs == old(repo.collection.docs) && producer.sent == old(producer.sent)
      ensures Validate(req).None? && newId in old(repo.collection.docs) ==>
                r == Failure(Wrapped("failed to create job", DuplicateKey)) &&
                repo.collection.docs == old(repo.collection.docs) && producer.sent == old(producer.sent)
      ensures Validate(req).None? && newId !in old(repo.collection.docs) ==>
                && r.Success?
                && r.value == NewJob(req).(id := newId, createdAt := now, updatedAt := now)
                && newId !in old(repo.collection.docs)
                && repo.collection.docs == old(repo.collection.docs)[newId := r.value]
                && producer.sent == old(producer.sent) + (if delivered then [Publication(WorkTopic, WorkMessage(r.value))] else [])
    {
      var invalid := Validate(req);
      if invalid.Some? {
        return Failure(invalid.value);
      }
      var job, err := repo.Create(NewJob(req), newId, now);
      if err.Some? {
        return Failure(Wrapped("failed to create job", err.value));
      }
      var published := producer.Publish(WorkTopic, WorkMessage(job), delivered);
      r := Success(job);
    }

    /** `GetJob`: the stored record, `ErrJobNotFound` when the id matches nothing, a wrapped error for a malformed id. */
    method GetJob(id: string) returns (r: Result<Job, Error>)
      ensures FromHex(id).None? ==> r == Failure(Wrapped("failed to get job", InvalidHex))
      ensures FromHex(id).Some? && FromHex(id).value !in repo.collection.docs ==> r == Failure(JobNotFound)
      ensures FromHex(id).Some? && FromHex(id).value in repo.collection.docs ==>
                r == Success(repo.collection.docs[FromHex(id).value])
    {
      var found := repo.GetByID(id);
      if found.Failure? {
        return Failure(Wrapped("failed to get job", found.error));
      }
      if found.value.None? {
        return Failure(JobNotFound);
      }
      r := Success(found.value.value);
    }

    /**
     * `ListJobs`: the repository is asked for the clamped page and limit. It
     * succeeds with at most 100 stored jobs, newest first, and the count of
     * all jobs, unless the skip wrapped negative, which is reported as
     * "failed to list jobs".
     */
    method ListJobs(filter: JobFilter) returns (r: Result<Page, Error>)
      requires Valid()
      ensures var c := Clamp(filter);
              SkipAsWritten(c.page, c.limit) < 0 ==> r == Failure(Wrapped(ListFailedContext, NegativeSkip))
      ensures var c := Clamp(filter);
              SkipAsWritten(c.page, c.limit) >= 0 ==>
                r.Success? && r.value.total == |repo.collection.docs| &&
                IsPageOf(r.value.jobs, repo.collection.docs, SkipAsWritten(c.page, c.limit), c.limit) &&
                |r.value.jobs| <= c.limit <= 100 && NewestFirst(r.value.jobs)
      ensures var c := Clamp(filter);
              (c.page - 1) * c.limit <= MaxInt64 ==>
                r.Success? && IsPageOf(r.value.jobs, repo.collection.docs, (c.page - 1) * c.limit, c.limit)
    {
      var clamped := Clamp(filter);
      WrappedSkipExact(clamped.page, clamped.limit);
      var listed := repo.List(clamped.page, clamped.limit);
      if listed.Failure? {
        return Failure(Wrapped(ListFailedContext, listed.error));
      }
      PageIsStoredNewestFirst(listed.value.jobs, repo.collection.docs, SkipAsWritten(clamped.page, clamped.limit), clamped.limit);
      r := listed;
    }

    /** `CancelJob` is a stub: it always fails and touches nothing. */
    method CancelJob(id: string) returns (r: Result<Job, Error>)
      ensures r == Failure(NotImplemented)
    {
      r := Failure(NotImplemented);
    }

    /** `RetryJob` is a stub: it always fails and touches nothing. */
    method RetryJob(id: string) returns (r: Result<Job, Error>)
      ensures r == Failure(NotImplemented)
    {
      r := Failure(NotImplemented);
    }
  }
}
