/**
 * The worker process (worker/main.go): the job handler `processJob`, the
 * cancellation handler `processCancellation`, and the decode-and-dispatch
 * loops that feed them. Both handlers write the shared collection directly;
 * failed runs are also written to the dead-letter topic.
 */
module JobWorker {
  import opened Wrappers
  import opened ObjectIds
  import opened Models
  import opened Messages
  import opened Store

  /** The result of the simulated run (`rand.Float32() < 0.2` is a failure). */
  datatype Outcome = Succeeded | FailedRun

  const FailureMessage: string := "Simulated processing failure"

  /** What the handlers change: the collection and the dead-letter topic. */
  datatype WorkerState = WorkerState(docs: Docs, dlq: seq<DlqMessage>)

  predicate IsInt32(x: int) {
    -0x8000_0000 <= x < 0x8000_0000
  }

  /**
   * `job["retry_count"].(int32)`, defaulting to 0: the driver stores a Go `int`
   * as a BSON int32 when it fits and as an int64 otherwise, so the assertion
   * succeeds exactly for values in the 32-bit range.
   */
  function RetryCountRead(stored: int): (r: int)
    ensures IsInt32(stored) ==> r == stored
    ensures !IsInt32(stored) ==> r == 0
    ensures IsInt32(r)
  {
    if IsInt32(stored) then stored else 0
  }

  /** What the worker's re-read after the simulated work finds. */
  datatype Recheck = Vanished | CancelSeen | Live(retryCount: int)

  function Reread(docs: Docs, id: ObjectId): (r: Recheck)
    ensures r.Vanished? <==> id !in docs
    ensures r.CancelSeen? <==> id in docs && (docs[id].status == Cancelling || docs[id].status == Cancelled)
    ensures r.Live? ==> r.retryCount == RetryCountRead(docs[id].retryCount)
  {
    if id !in docs then Vanished
    else if docs[id].status == Cancelling || docs[id].status == Cancelled then CancelSeen
    else Live(RetryCountRead(docs[id].retryCount))
  }

  /** The first write of `processJob`: status processing, whatever the status was. */
  function Claim(s: WorkerState, id: ObjectId, now: Time): (r: WorkerState)
    ensures r.dlq == s.dlq && r.docs.Keys == s.docs.Keys
    ensures forall k :: k in s.docs && k != id ==> r.docs[k] == s.docs[k]
    ensures id in s.docs ==> r.docs[id] == s.docs[id].(status := Processing, updatedAt := now)
    ensures Keyed(s.docs) ==> Keyed(r.docs)
  {
    WorkerState(SetStatus(s.docs, id, Processing, now), s.dlq)
  }

  /**
   * The final write of `processJob`, issued without a filter on the status:
   * failed with the error message plus one dead-letter message carrying the
   * retry count read, or completed with no message.
   */
  function FinalWrite(s: WorkerState, rawId: string, id: ObjectId, outcome: Outcome, retryCount: int, now: Time): (r: WorkerState)
    ensures r.docs.Keys == s.docs.Keys
    ensures forall k :: k in s.docs && k != id ==> r.docs[k] == s.docs[k]
    ensures outcome == Succeeded ==> r.dlq == s.dlq
    ensures outcome == FailedRun ==> r.dlq == s.dlq + [DlqMessage(rawId, now, FailureMessage, retryCount)]
    ensures id in s.docs && outcome == Succeeded ==> r.docs[id] == s.docs[id].(status := Completed, updatedAt := now)
    ensures id in s.docs && outcome == FailedRun ==>
              r.docs[id] == s.docs[id].(status := Failed, errorMessage := FailureMessage, updatedAt := now)
    ensures Keyed(s.docs) ==> Keyed(r.docs)
  {
    match outcome
    case Succeeded => WorkerState(SetStatus(s.docs, id, Completed, now), s.dlq)
    case FailedRun =>
      WorkerState(SetStatusAndError(s.docs, id, Failed, FailureMessage, now),
                  s.dlq + [DlqMessage(rawId, now, FailureMessage, retryCount)])
  }

  /** The second half of `processJob`, after the simulated work: re-read, then finish unless a cancellation is seen. */
  function Finish(s: WorkerState, msg: JobMessage, id: ObjectId, outcome: Outcome, now: Time): (r: WorkerState)
    ensures id !in s.docs || s.docs[id].status == Cancelling || s.docs[id].status == Cancelled ==> r == s
    ensures id in s.docs && s.docs[id].status != Cancelling && s.docs[id].status != Cancelled ==>
              r == FinalWrite(s, msg.jobId, id, outcome, RetryCountRead(s.docs[id].retryCount), now)
    ensures Keyed(s.docs) ==> Keyed(r.docs)
  {
    match Reread(s.docs, id)
    case Vanished => s
    case CancelSeen => s
    case Live(rc) => FinalWrite(s, msg.jobId, id, outcome, rc, now)
  }

  /** `processJob` run without interruption. */
  function ProcessJobStep(s: WorkerState, msg: JobMessage, outcome: Outcome, startedAt: Time, finishedAt: Time): (r: WorkerState)
    ensures Keyed(s.docs) ==> Keyed(r.docs)
    ensures FromHex(msg.jobId).None? ==> r == s
  {
    match FromHex(msg.jobId)
    case None => s
    case Some(id) => Finish(Claim(s, id, startedAt), msg, id, outcome, finishedAt)
  }

  /** The filter of `processCancellation`'s update: the job exists and is pending, processing or cancelling. */
  predicate CancelMatches(docs: Docs, id: ObjectId) {
    id in docs && (docs[id].status == Pending || docs[id].status == Processing || docs[id].status == Cancelling)
  }

  /**
   * `processCancellation`: the only guarded write. A job that matches the
   * filter becomes cancelled; every other record, and every record in a
   * terminal status, is left as it was; a malformed id changes nothing.
   */
  function CancelStep(docs: Docs, msg: CancellationMessage, now: Time): (r: Docs)
    ensures r.Keys == docs.Keys
    ensures Keyed(docs) ==> Keyed(r)
    ensures forall k :: k in docs && docs[k].status.IsTerminal() ==> r[k] == docs[k]
    ensures forall k :: k in docs && r[k] != docs[k] ==>
              FromHex(msg.jobId) == Some(k) && CancelMatches(docs, k) &&
              r[k] == docs[k].(status := Cancelled, updatedAt := now)
    ensures forall k :: FromHex(msg.jobId) == Some(k) && CancelMatches(docs, k) ==> r[k].status == Cancelled
  {
    match FromHex(msg.jobId)
    case None => docs
    case Some(id) => if CancelMatches(docs, id) then SetStatus(docs, id, Cancelled, now) else docs
  }

  /** `result.ModifiedCount` of the cancellation update. */
  function CancelModified(docs: Docs, msg: CancellationMessage): (n: nat)
    ensures n <= 1
    ensures n == 1 <==> FromHex(msg.jobId).Some? && CancelMatches(docs, FromHex(msg.jobId).value)
  {
    match FromHex(msg.jobId)
    case None => 0
    case Some(id) => if CancelMatches(docs, id) then 1 else 0
  }

  // ----- properties of the handlers -----

  /** A message with a malformed id changes neither the collection nor the dead-letter topic. */
  lemma MalformedIdChangesNothing(s: WorkerState, jobMsg: JobMessage, cancelMsg: CancellationMessage,
                                  outcome: Outcome, t0: Time, t1: Time)
    ensures FromHex(jobMsg.jobId).None? ==> ProcessJobStep(s, jobMsg, outcome, t0, t1) == s
    ensures FromHex(cancelMsg.jobId).None? ==> CancelStep(s.docs, cancelMsg, t0) == s.docs && CancelModified(s.docs, cancelMsg) == 0
  {
  }

  /** Run without interruption, `processJob` ends in completed or failed whatever the job's prior status, cancelled included. */
  lemma UninterruptedRunOverridesAnyStatus(s: WorkerState, msg: JobMessage, id: ObjectId,
                                                               outcome: Outcome, t0: Time, t1: Time)
    requires FromHex(msg.jobId) == Some(id) && id in s.docs
    ensures var r := ProcessJobStep(s, msg, outcome, t0, t1);
            && r.docs[id].status == (if outcome == Succeeded then Completed else Failed)
            && (outcome == FailedRun ==> r.docs[id].errorMessage == FailureMessage)
            && r.dlq == s.dlq + (if outcome == FailedRun then [DlqMessage(msg.jobId, t1, FailureMessage, RetryCountRead(s.docs[id].retryCount))] else [])
  {
    var c := Claim(s, id, t0);
    assert c.docs[id].retryCount == s.docs[id].retryCount;
    assert Reread(c.docs, id) == Live(RetryCountRead(s.docs[id].retryCount));
  }

  /**
   * A cancellation that lands while the job is being worked on is honoured:
   * claim, then cancel, then finish leaves the job cancelled and writes no
   * dead-letter message.
   */
  lemma CancelDuringWorkIsHonoured(s: WorkerState, msg: JobMessage, cancel: CancellationMessage, id: ObjectId,
                                                      outcome: Outcome, t0: Time, t1: Time, t2: Time)
    requires FromHex(msg.jobId) == Some(id) && FromHex(cancel.jobId) == Some(id) && id in s.docs
    ensures var claimed := Claim(s, id, t0);
            var cancelled := WorkerState(CancelStep(claimed.docs, cancel, t1), claimed.dlq);
            var r := Finish(cancelled, msg, id, outcome, t2);
            r == cancelled && r.docs[id].status == Cancelled && r.dlq == s.dlq
  {
    var claimed := Claim(s, id, t0);
    assert CancelMatches(claimed.docs, id);
  }

  /**
   * The race the re-read does not close (as written): the re-read finds the
   * job live, a cancellation is applied before the final write, and the
   * unconditional final write replaces cancelled by completed or failed.
   */
  lemma CancellationLostInRace(s: WorkerState, msg: JobMessage, cancel: CancellationMessage, id: ObjectId,
                                                  outcome: Outcome, t0: Time, t1: Time, t2: Time)
    requires FromHex(msg.jobId) == Some(id) && FromHex(cancel.jobId) == Some(id) && id in s.docs
    ensures var claimed := Claim(s, id, t0);
            var seen := Reread(claimed.docs, id);
            var cancelled := WorkerState(CancelStep(claimed.docs, cancel, t1), claimed.dlq);
            && seen.Live?
            && CancelModified(claimed.docs, cancel) == 1
            && cancelled.docs[id].status == Cancelled
            && FinalWrite(cancelled, msg.jobId, id, outcome, seen.retryCount, t2).docs[id].status
               == (if outcome == Succeeded then Completed else Failed)
  {
    var claimed := Claim(s, id, t0);
    assert CancelMatches(claimed.docs, id);
  }

  /** The final write as evidently intended: conditional on the job still being processing. */
  function GuardedFinalWrite(s: WorkerState, rawId: string, id: ObjectId, outcome: Outcome, retryCount: int, now: Time): (r: WorkerState)
    ensures id in s.docs && s.docs[id].status != Processing ==> r == s
    ensures id in s.docs && s.docs[id].status == Processing ==> r == FinalWrite(s, rawId, id, outcome, retryCount, now)
    ensures Keyed(s.docs) ==> Keyed(r.docs)
  {
    if id in s.docs && s.docs[id].status == Processing then FinalWrite(s, rawId, id, outcome, retryCount, now) else s
  }

  /**
   * With the guarded final write, of a cancellation and a final write that
   * both start from a processing job, exactly one takes effect, whichever
   * order they land in, and the job ends in exactly one of completed, failed
   * or cancelled.
   */
  lemma GuardedWritesExcludeEachOther(s: WorkerState, rawId: string, cancel: CancellationMessage, id: ObjectId,
                                                         outcome: Outcome, rc: int, t1: Time, t2: Time)
    requires FromHex(cancel.jobId) == Some(id) && id in s.docs && s.docs[id].status == Processing
    ensures var cancelFirst := WorkerState(CancelStep(s.docs, cancel, t1), s.dlq);
            var r := GuardedFinalWrite(cancelFirst, rawId, id, outcome, rc, t2);
            r == cancelFirst && r.docs[id].status == Cancelled && r.dlq == s.dlq
    ensures var finishFirst := GuardedFinalWrite(s, rawId, id, outcome, rc, t2);
            && CancelModified(finishFirst.docs, cancel) == 0
            && CancelStep(finishFirst.docs, cancel, t1) == finishFirst.docs
            && finishFirst.docs[id].status == (if outcome == Succeeded then Completed else Failed)
  {
    var cancelFirst := CancelStep(s.docs, cancel, t1);
    assert CancelMatches(s.docs, id);
    assert cancelFirst[id].status == Cancelled;
    var finishFirst := GuardedFinalWrite(s, rawId, id, outcome, rc, t2);
    assert finishFirst.docs[id].status.IsTerminal();
  }

  /** The cancellation handler is idempotent: a second delivery changes nothing and modifies no record. */
  lemma CancellationIdempotent(docs: Docs, msg: CancellationMessage, t1: Time, t2: Time)
    ensures var once := CancelStep(docs, msg, t1);
            CancelStep(once, msg, t2) == once && CancelModified(once, msg) == 0
  {
    var once := CancelStep(docs, msg, t1);
    if FromHex(msg.jobId).Some? {
      var id := FromHex(msg.jobId).value;
      if CancelMatches(docs, id) {
        assert once[id].status == Cancelled;
      } else {
        assert id in docs ==> once[id] == docs[id];
      }
    }
  }

  /** A job the worker is given by its creator's work message is found and finished. */
  lemma WorkMessageReachesItsJob(s: WorkerState, job: Job, outcome: Outcome, t0: Time, t1: Time)
    requires job.id in s.docs
    ensures ProcessJobStep(s, WorkMessage(job), outcome, t0, t1).docs[job.id].status
            == (if outcome == Succeeded then Completed else Failed)
  {
    UninterruptedRunOverridesAnyStatus(s, WorkMessage(job), job.id, outcome, t0, t1);
  }

  // ----- the consumer loops -----

  /** One message read from the "jobs" topic: its decode result and the inputs its run depends on. */
  datatype JobDelivery = JobDelivery(payload: Option<JobMessage>, outcome: Outcome, startedAt: Time, finishedAt: Time)

  /** One message read from the "job_cancellations" topic, and the clock when it is handled. */
  datatype CancelDelivery = CancelDelivery(payload: Option<CancellationMessage>, at: Time)

  /** `consumeJobs` over a run of deliveries: undecodable payloads are skipped, the rest handled in order. */
  function ConsumeJobsSpec(s: WorkerState, ds: seq<JobDelivery>): (r: WorkerState)
    ensures Keyed(s.docs) ==> Keyed(r.docs)
    decreases |ds|
  {
    if ds == [] then s
    else
      var before := ConsumeJobsSpec(s, ds[..|ds| - 1]);
      var d := ds[|ds| - 1];
      match d.payload
      case None => before
      case Some(msg) => ProcessJobStep(before, msg, d.outcome, d.startedAt, d.finishedAt)
  }

  /** `consumeCancellations` over a run of deliveries. */
  function ConsumeCancellationsSpec(docs: Docs, ds: seq<CancelDelivery>): (r: Docs)
    ensures Keyed(docs) ==> Keyed(r)
    ensures r.Keys == docs.Keys
    decreases |ds|
  {
    if ds == [] then docs
    else
      var before := ConsumeCancellationsSpec(docs, ds[..|ds| - 1]);
      var d := ds[|ds| - 1];
      match d.payload
      case None => before
      case Some(msg) => CancelStep(before, msg, d.at)
  }

  /** The deliveries whose payload decoded, in arrival order. */
  function DecodedJobs(ds: seq<JobDelivery>): (r: seq<JobDelivery>)
    ensures |r| <= |ds|
    ensures forall d :: d in r <==> d in ds && d.payload.Some?
    decreases |ds|
  {
    if ds == [] then []
    else DecodedJobs(ds[..|ds| - 1]) + (if ds[|ds| - 1].payload.Some? then [ds[|ds| - 1]] else [])
  }

  /** Skipping undecodable payloads is all the loop does with them: handling only the decoded ones gives the same state. */
  lemma {:induction false} UndecodableJobsIgnored(s: WorkerState, ds: seq<JobDelivery>)
    ensures ConsumeJobsSpec(s, DecodedJobs(ds)) == ConsumeJobsSpec(s, ds)
    decreases |ds|
  {
    if ds != [] {
      var init, last := ds[..|ds| - 1], ds[|ds| - 1];
      UndecodableJobsIgnored(s, init);
      var prefix := DecodedJobs(init);
      if last.payload.Some? {
        assert DecodedJobs(ds) == prefix + [last];
        assert (prefix + [last])[..|prefix|] == prefix;
      } else {
        assert DecodedJobs(ds) == prefix;
      }
    }
  }

  /** Deliveries of cancellations for jobs already terminal change nothing, however many arrive. */
  lemma {:induction false} CancellationsLeaveTerminalJobs(docs: Docs, ds: seq<CancelDelivery>, id: ObjectId)
    requires id in docs && docs[id].status.IsTerminal()
    ensures ConsumeCancellationsSpec(docs, ds)[id] == docs[id]
    decreases |ds|
  {
    if ds != [] {
      CancellationsLeaveTerminalJobs(docs, ds[..|ds| - 1], id);
    }
  }

  // ----- what the worker never touches -----

  /**
   * The handlers update status, error message and update time only: the set
   * of jobs and each job's id, name, type, config, creation time and retry
   * count stay as they were (the retry count is read for the dead-letter
   * message, never written).
   */
  predicate KeepsIdentity(before: Docs, after: Docs) {
    before.Keys == after.Keys &&
    forall k :: k in before ==>
      after[k].id == before[k].id && after[k].name == before[k].name &&
      after[k].jobType == before[k].jobType && after[k].config == before[k].config &&
      after[k].createdAt == before[k].createdAt && after[k].retryCount == before[k].retryCount
  }

  lemma KeepsIdentityTransitive(a: Docs, b: Docs, c: Docs)
    requires KeepsIdentity(a, b) && KeepsIdentity(b, c)
    ensures KeepsIdentity(a, c)
  {
  }

  lemma ProcessJobStepKeepsIdentity(s: WorkerState, msg: JobMessage, outcome: Outcome, t0: Time, t1: Time)
    ensures var r := ProcessJobStep(s, msg, outcome, t0, t1);
            KeepsIdentity(s.docs, r.docs) && s.dlq <= r.dlq && |r.dlq| <= |s.dlq| + 1
  {
    match FromHex(msg.jobId)
    case None =>
    case Some(id) =>
      var claimed := Claim(s, id, t0);
      assert KeepsIdentity(s.docs, claimed.docs);
      var r := Finish(claimed, msg, id, outcome, t1);
      match Reread(claimed.docs, id)
      case Vanished =>
      case CancelSeen =>
      case Live(rc) =>
        assert r == FinalWrite(claimed, msg.jobId, id, outcome, rc, t1);
        assert KeepsIdentity(claimed.docs, r.docs);
        KeepsIdentityTransitive(s.docs, claimed.docs, r.docs);
  }

  /** `processJob` touches no record but the one its message names. */
  lemma ProcessJobStepFrame(s: WorkerState, msg: JobMessage, outcome: Outcome, t0: Time, t1: Time)
    ensures forall k :: k in s.docs && FromHex(msg.jobId) != Some(k) ==>
              ProcessJobStep(s, msg, outcome, t0, t1).docs[k] == s.docs[k]
  {
    match FromHex(msg.jobId)
    case None =>
    case Some(id) =>
      var claimed := Claim(s, id, t0);
      match Reread(claimed.docs, id)
      case Vanished =>
      case CancelSeen =>
      case Live(rc) =>
        assert ProcessJobStep(s, msg, outcome, t0, t1) == FinalWrite(claimed, msg.jobId, id, outcome, rc, t1);
  }

  lemma CancelStepKeepsIdentity(docs: Docs, msg: CancellationMessage, now: Time)
    ensures KeepsIdentity(docs, CancelStep(docs, msg, now))
  {
  }

  /**
   * Over any run of deliveries the job consumer keeps every job's identity,
   * only appends to the dead-letter topic, and appends at most one message
   * per delivery.
   */
  lemma {:induction false} ConsumeJobsKeepsIdentity(s: WorkerState, ds: seq<JobDelivery>)
    ensures var r := ConsumeJobsSpec(s, ds);
            KeepsIdentity(s.docs, r.docs) && s.dlq <= r.dlq && |r.dlq| <= |s.dlq| + |ds|
    decreases |ds|
  {
    if ds != [] {
      var init := ds[..|ds| - 1];
      ConsumeJobsKeepsIdentity(s, init);
      var before := ConsumeJobsSpec(s, init);
      var d := ds[|ds| - 1];
      if d.payload.Some? {
        ProcessJobStepKeepsIdentity(before, d.payload.value, d.outcome, d.startedAt, d.finishedAt);
        KeepsIdentityTransitive(s.docs, before.docs, ConsumeJobsSpec(s, ds).docs);
      }
    }
  }

  /** Over any run of deliveries the cancellation consumer keeps every job's identity. */
  lemma {:induction false} ConsumeCancellationsKeepsIdentity(docs: Docs, ds: seq<CancelDelivery>)
    ensures KeepsIdentity(docs, ConsumeCancellationsSpec(docs, ds))
    decreases |ds|
  {
    if ds != [] {
      var init := ds[..|ds| - 1];
      ConsumeCancellationsKeepsIdentity(docs, init);
      var d := ds[|ds| - 1];
      if d.payload.Some? {
        var before := ConsumeCancellationsSpec(docs, init);
        CancelStepKeepsIdentity(before, d.payload.value, d.at);
        KeepsIdentityTransitive(docs, before, ConsumeCancellationsSpec(docs, ds));
      }
    }
  }

  class Worker {
    const collection: JobCollection
    var dlq: seq<DlqMessage>

    constructor (collection: JobCollection)
      ensures this.collection == collection && dlq == []
    {
      this.collection := collection;
      dlq := [];
    }

    ghost function State(): WorkerState
      reads this, collection
    {
      WorkerState(collection.docs, dlq)
    }

    /** `processJob`: parse, claim, (work), re-read, final write. */
    method ProcessJob(msg: JobMessage, outcome: Outcome, startedAt: Time, finishedAt: Time)
      requires collection.Valid()
      modifies this, collection
      ensures collection.Valid()
      ensures State() == ProcessJobStep(old(State()), msg, outcome, startedAt, finishedAt)
    {
      var key := FromHex(msg.jobId);
      if key.None? {
        return;
      }
      var id := key.value;
      collection.docs := SetStatus(collection.docs, id, Processing, startedAt);
      var seen := Reread(collection.docs, id);
      match seen {
        case Vanished =>
        case CancelSeen =>
        case Live(retryCount) =>
          if outcome == FailedRun {
            collection.docs := SetStatusAndError(collection.docs, id, Failed, FailureMessage, finishedAt);
            dlq := dlq + [DlqMessage(msg.jobId, finishedAt, FailureMessage, retryCount)];
          } else {
            collection.docs := SetStatus(collection.docs, id, Completed, finishedAt);
          }
      }
    }

    /** `processCancellation`: the guarded update, returning the modified count it logs. */
    method ProcessCancellation(msg: CancellationMessage, now: Time) returns (modified: nat)
      requires collection.Valid()
      modifies collection
      ensures collection.Valid()
      ensures modified == CancelModified(old(collection.docs), msg)
      ensures collection.docs == CancelStep(old(collection.docs), msg, now)
    {
      var key := FromHex(msg.jobId);
      if key.None? {
        return 0;
      }
      if CancelMatches(collection.docs, key.value) {
        collection.docs := SetStatus(collection.docs, key.value, Cancelled, now);
        modified := 1;
      } else {
        modified := 0;
      }
    }

    /** `consumeJobs` over the messages read before shutdown. */
    method ConsumeJobs(ds: seq<JobDelivery>)
      requires collection.Valid()
      modifies this, collection
      ensures collection.Valid()
      ensures State() == ConsumeJobsSpec(old(State()), ds)
    {
      for i := 0 to |ds|
        invariant collection.Valid()
        invariant State() == ConsumeJobsSpec(old(State()), ds[..i])
      {
        assert ds[..i + 1][..i] == ds[..i];
        var d := ds[i];
        if d.payload.Some? {
          ProcessJob(d.payload.value, d.outcome, d.startedAt, d.finishedAt);
        }
      }
      assert ds[..|ds|] == ds;
    }

    /** `consumeCancellations` over the messages read before shutdown. */
    method ConsumeCancellations(ds: seq<CancelDelivery>)
      requires collection.Valid()
      modifies collection
      ensures collection.Valid()
      ensures collection.docs == ConsumeCancellationsSpec(old(collection.docs), ds)
    {
      for i := 0 to |ds|
        invariant collection.Valid()
        invariant collection.docs == ConsumeCancellationsSpec(old(collection.docs), ds[..i])
      {
        assert ds[..i + 1][..i] == ds[..i];
        var d := ds[i];
        if d.payload.Some? {
          var modified := ProcessCancellation(d.payload.value, d.at);
        }
      }
      assert ds[..|ds|] == ds;
    }
  }
}
