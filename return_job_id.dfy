/**
 * Step 4 of the batch flow (`ReturnJobIdTasklet`): finalises the record named
 * by the context's `batchExecutionId` (job id set once, PROCESSING becomes
 * JOB_COMPLETED) and publishes the job execution id as `returnedJobId`.
 */
module ReturnJobId {
  import opened Common
  import opened Model
  import opened Stores
  import opened StepContext
  import LogStartTime

  /** The status literal the step compares against; it is not the configurable processing status. */
  const ProcessingLiteral := "PROCESSING"
  const JobCompleted := "JOB_COMPLETED"

  /** The record after the two conditional setters of step 4. */
  function Finalized(r: BatchExecution, jobExecutionId: int): (s: BatchExecution)
    ensures s.jobId == (if r.jobId.None? then Some(jobExecutionId) else r.jobId)
    ensures s.status == (if r.status == Some(ProcessingLiteral) then Some(JobCompleted) else r.status)
    ensures s.(jobId := r.jobId, status := r.status) == r
  {
    var withJob := if r.jobId == None then r.(jobId := Some(jobExecutionId)) else r;
    if withJob.status == Some(ProcessingLiteral) then withJob.(status := Some(JobCompleted)) else withJob
  }

  /** Set-once: a job id already on the record is never overwritten. */
  lemma JobIdSetOnce(r: BatchExecution, jobExecutionId: int)
    requires r.jobId.Some?
    ensures Finalized(r, jobExecutionId).jobId == r.jobId
  {
  }

  /** Running step 4 twice, with any job ids, leaves the record as the first run left it. */
  lemma FinalizedIdempotent(r: BatchExecution, j1: int, j2: int)
    ensures Finalized(Finalized(r, j1), j2) == Finalized(r, j1)
  {
  }

  /** A record that step 2 stamped STARTED keeps that status through step 4. */
  lemma StartedRecordIsNotCompleted(r: BatchExecution, j: int, now: Timestamp, j4: int)
    ensures Finalized(LogStartTime.Started(r, j, now), j4) == LogStartTime.Started(r, j, now)
  {
  }

  class ReturnJobIdTasklet {
    const batchExecutionRepository: BatchExecutionRepository

    constructor (batchExecutionRepository: BatchExecutionRepository)
      ensures this.batchExecutionRepository == batchExecutionRepository
    {
      this.batchExecutionRepository := batchExecutionRepository;
    }

    /**
     * `execute`: reads the two context keys, finalises and saves the record, and only
     * then writes `returnedJobId`; a missing record throws before any save or write.
     */
    method Execute(context: ExecutionContext, jobExecutionId: int)
      returns (res: Result<RepeatStatus, StepError>)
      requires batchExecutionRepository.Valid()
      modifies batchExecutionRepository, context
      ensures batchExecutionRepository.Valid()
      ensures batchExecutionRepository.nextId == old(batchExecutionRepository.nextId)
      ensures var outcome := LogStartTime.StepOutcome(old(context.entries), old(batchExecutionRepository.rows));
        && (res.Err? <==> outcome.Err?)
        && (res.Err? ==>
              && res.error == outcome.error
              && batchExecutionRepository.rows == old(batchExecutionRepository.rows)
              && context.entries == old(context.entries))
        && (res.Ok? ==>
              && res.value == Finished
              && batchExecutionRepository.rows == old(batchExecutionRepository.rows)[outcome.value :=
                   Finalized(old(batchExecutionRepository.rows)[outcome.value], jobExecutionId)]
              && context.entries == old(context.entries)["returnedJobId" := LongValue(jobExecutionId)])
    {
      var batchId := context.GetString("batchId");
      if batchId.Err? {
        return Err(batchId.error);
      }
      var batchExecutionId := context.GetLong("batchExecutionId");
      if batchExecutionId.Err? {
        return Err(batchExecutionId.error);
      }
      var optionalBatchExecution := batchExecutionRepository.FindById(batchExecutionId.value);
      if optionalBatchExecution.None? {
        return Err(RecordNotFound(batchExecutionId.value));
      }
      var batchExecution := Finalized(optionalBatchExecution.value, jobExecutionId);
      RewriteKeepsBatchIdFree(batchExecutionRepository.rows, batchExecution);
      var saved := batchExecutionRepository.Save(batchExecution);
      context.PutLong("returnedJobId", jobExecutionId);
      res := Ok(Finished);
    }
  }
}
