/**
 * The job record, its two enumerations and the predicates defined on them
 * (backend/models/job.go).
 */
module Models {
  import opened ObjectIds

  /** Abstract clock reading; `time.Now()` becomes a parameter of each operation. */
  type Time = nat

  datatype JobType = Process | Analyze | Export {
    function Name(): string {
      match this
      case Process => "process"
      case Analyze => "analyze"
      case Export => "export"
    }
  }

  /** `ValidJobTypes()`, in the order the source lists them. */
  function ValidJobTypes(): seq<JobType> {
    [Process, Analyze, Export]
  }

  /** The membership search that `IsValidJobType` performs over a list of types. */
  function ContainsTypeName(types: seq<JobType>, t: string): (r: bool)
    ensures r <==> exists i :: 0 <= i < |types| && types[i].Name() == t
  {
    if types == [] then false
    else if types[0].Name() == t then true
    else
      var r := ContainsTypeName(types[1..], t);
      assert forall i :: 1 <= i < |types| ==> types[i] == types[1..][i - 1];
      r
  }

  /** `IsValidJobType`: the string names one of the three job types. */
  function IsValidJobType(t: string): (r: bool)
    ensures r <==> t == "process" || t == "analyze" || t == "export"
  {
    var types := ValidJobTypes();
    assert types[0].Name() == "process" && types[1].Name() == "analyze" && types[2].Name() == "export";
    ContainsTypeName(types, t)
  }

  datatype JobStatus = Pending | Processing | Completed | Failed | Cancelling | Cancelled {
    function Name(): string {
      match this
      case Pending => "pending"
      case Processing => "processing"
      case Completed => "completed"
      case Failed => "failed"
      case Cancelling => "cancelling"
      case Cancelled => "cancelled"
    }

    /** `JobStatus.IsTerminal`. */
    predicate IsTerminal(): (r: bool)
      ensures r <==> this != Pending && this != Processing && this != Cancelling
    {
      this == Completed || this == Failed || this == Cancelled
    }
  }

  /** The arbitrary JSON-like values a job's configuration maps names to. */
  datatype Value =
    | Null
    | Bool(b: bool)
    | Number(n: int)
    | Text(s: string)
    | Array(items: seq<Value>)
    | Object(fields: map<string, Value>)

  type Config = map<string, Value>

  datatype Job = Job(
    id: ObjectId,
    name: string,
    jobType: string,
    status: JobStatus,
    config: Config,
    errorMessage: string,
    retryCount: int,
    createdAt: Time,
    updatedAt: Time)
  {
    /** `Job.CanBeCancelled`. */
    predicate CanBeCancelled(): (r: bool)
      ensures r <==> !status.IsTerminal() && status != Cancelling
    {
      status == Pending || status == Processing
    }

    /** `Job.CanBeRetried`: failed with fewer than three retries used. */
    predicate CanBeRetried(): (r: bool)
      ensures r ==> status.IsTerminal() && status != Completed && status != Cancelled
      ensures status == Failed ==> (r <==> retryCount <= 2)
    {
      status == Failed && retryCount < 3
    }
  }

  /** The status table of `IsTerminal`: three terminal statuses, three live ones. */
  lemma TerminalStatuses()
    ensures Completed.IsTerminal() && Failed.IsTerminal() && Cancelled.IsTerminal()
    ensures !Pending.IsTerminal() && !Processing.IsTerminal() && !Cancelling.IsTerminal()
  {
  }

  /** A job that may be cancelled is still live. */
  lemma CancellableIsNotTerminal(j: Job)
    ensures j.CanBeCancelled() ==> !j.status.IsTerminal()
  {
  }

  /** A job that may be retried is nonetheless reported terminal: `failed` is terminal even with retries left. */
  lemma RetryableIsTerminal(j: Job)
    ensures j.CanBeRetried() ==> j.status.IsTerminal()
    ensures j.status == Failed && j.retryCount < 3 ==> j.CanBeRetried() && j.status.IsTerminal()
  {
  }

  /** No job is both cancellable and retryable. */
  lemma CancelAndRetryExclusive(j: Job)
    ensures !(j.CanBeCancelled() && j.CanBeRetried())
  {
  }

  /** The six status strings are pairwise distinct, so a stored string names one status. */
  lemma StatusNamesDistinct(a: JobStatus, b: JobStatus)
    ensures a.Name() == b.Name() ==> a == b
  {
    if a != b {
      assert |a.Name()| != |b.Name()| || a.Name()[0] != b.Name()[0] || a.Name()[1] != b.Name()[1];
    }
  }

  /** The three job type strings are pairwise distinct. */
  lemma JobTypeNamesDistinct(a: JobType, b: JobType)
    ensures a.Name() == b.Name() ==> a == b
  {
    if a != b {
      assert a.Name()[0] != b.Name()[0];
    }
  }

  /** Exactly the names of the three job types are valid. */
  lemma ValidJobTypeNames(t: string)
    ensures IsValidJobType(t) <==> exists ty: JobType :: ty.Name() == t
  {
    if IsValidJobType(t) {
      assert ValidJobTypes()[0].Name() == t || ValidJobTypes()[1].Name() == t || ValidJobTypes()[2].Name() == t;
    }
  }
}
