/**
 * The three Kafka message shapes. The backend (services/kafka_producer.go)
 * and the worker (worker/main.go) each declare the same structs; the model
 * declares them once.
 */
module Messages {
  import opened Wrappers
  import opened ObjectIds
  import opened Models

  /** Topic "jobs": a job to run. */
  datatype JobMessage = JobMessage(jobId: string, name: string, jobType: string, config: Config, createdAt: Time)

  /** Topic "job_cancellations": a request to finish cancelling a job. */
  datatype CancellationMessage = CancellationMessage(jobId: string, cancelledAt: Time)

  /** Topic "jobs_dlq": the record of a failed run. */
  datatype DlqMessage = DlqMessage(jobId: string, failedAt: Time, errorMessage: string, retryCount: int)

  /** A message handed to the producer, with the topic it was written to. */
  datatype Publication = Publication(topic: string, message: JobMessage)

  /**
   * The work message `CreateJob` publishes for a stored job: its id in hex and
   * its name, type, config and creation time, so that the worker reading the
   * id back finds the same record.
   */
  function WorkMessage(job: Job): (m: JobMessage)
    ensures FromHex(m.jobId) == Some(job.id)
    ensures m.name == job.name && m.jobType == job.jobType
    ensures m.config == job.config && m.createdAt == job.createdAt
  {
    HexRoundTrip(job.id);
    JobMessage(Hex(job.id), job.name, job.jobType, job.config, job.createdAt)
  }
}
