/**
 * The MongoDB "jobs" collection that the backend repository and the worker
 * share, as a map from `_id` to the stored record, together with the
 * single-document `$set` updates both of them issue.
 */
module Store {
  import opened ObjectIds
  import opened Models

  type Docs = map<ObjectId, Job>

  /** Every record is stored under its own `_id`. */
  ghost predicate Keyed(docs: Docs) {
    forall k :: k in docs ==> docs[k].id == k
  }

  class JobCollection {
    var docs: Docs

    ghost predicate Valid()
      reads this
    {
      Keyed(docs)
    }

    constructor ()
      ensures Valid() && docs == map[]
    {
      docs := map[];
    }
  }

  /**
   * `UpdateOne({_id: id}, {$set: {status, updated_at}})`: the matching record,
   * whatever its status, gets the new status and time; nothing else changes,
   * and an id that matches nothing changes nothing.
   */
  function SetStatus(docs: Docs, id: ObjectId, status: JobStatus, now: Time): (r: Docs)
    ensures r.Keys == docs.Keys
    ensures forall k :: k in docs && k != id ==> r[k] == docs[k]
    ensures id in docs ==> r[id] == docs[id].(status := status, updatedAt := now)
    ensures Keyed(docs) ==> Keyed(r)
  {
    if id in docs then docs[id := docs[id].(status := status, updatedAt := now)] else docs
  }

  /** `$set` of status, retry_count and updated_at on the matching record. */
  function SetStatusAndRetry(docs: Docs, id: ObjectId, status: JobStatus, retryCount: int, now: Time): (r: Docs)
    ensures r.Keys == docs.Keys
    ensures forall k :: k in docs && k != id ==> r[k] == docs[k]
    ensures id in docs ==> r[id] == docs[id].(status := status, retryCount := retryCount, updatedAt := now)
    ensures Keyed(docs) ==> Keyed(r)
  {
    if id in docs then docs[id := docs[id].(status := status, retryCount := retryCount, updatedAt := now)] else docs
  }

  /** `$set` of status, error_message and updated_at on the matching record. */
  function SetStatusAndError(docs: Docs, id: ObjectId, status: JobStatus, message: string, now: Time): (r: Docs)
    ensures r.Keys == docs.Keys
    ensures forall k :: k in docs && k != id ==> r[k] == docs[k]
    ensures id in docs ==> r[id] == docs[id].(status := status, errorMessage := message, updatedAt := now)
    ensures Keyed(docs) ==> Keyed(r)
  {
    if id in docs then docs[id := docs[id].(status := status, errorMessage := message, updatedAt := now)] else docs
  }

  /** `ReplaceOne({_id: job.id}, job)`: the whole record is replaced if it exists. */
  function ReplaceRecord(docs: Docs, job: Job): (r: Docs)
    ensures r.Keys == docs.Keys
    ensures forall k :: k in docs && k != job.id ==> r[k] == docs[k]
    ensures job.id in docs ==> r[job.id] == job
    ensures Keyed(docs) ==> Keyed(r)
  {
    if job.id in docs then docs[job.id := job] else docs
  }
}
