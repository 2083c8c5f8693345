/**
 * Step 2 of the batch flow (`LogStartTimeTasklet`): finds the record named by
 * the context's `batchExecutionId` and stamps it STARTED with a start time and
 * the job execution id, or throws when the record is missing.
 */
module LogStartTime {
  import opened Common
  import opened Model
  import opened Stores
  import opened StepContext

  const StartedStatus := "STARTED"

  /** The record after `setStartTime(now)`, `setStatus("STARTED")` and `setJobId(jobExecutionId)`. */
  function Started(r: BatchExecution, jobExecutionId: int, now: Timestamp): (s: BatchExecution)
    ensures s.status == Some(StartedStatus) && s.startTime == Some(now) && s.jobId == Some(jobExecutionId)
    ensures s.(status := r.status, startTime := r.startTime, jobId := r.jobId) == r
  {
    r.(startTime := Some(now), status := Some(StartedStatus), jobId := Some(jobExecutionId))
  }

  /** Step 2 overwrites: stamping twice keeps only the second job id and start time. */
  lemma StartedOverwrites(r: BatchExecution, j1: int, t1: Timestamp, j2: int, t2: Timestamp)
    ensures Started(Started(r, j1, t1), j2, t2) == Started(r, j2, t2)
  {
  }

  /** The outcome `execute` has on the given context and table, without its effect. */
  function StepOutcome(context: map<string, ContextValue>, rows: map<int, BatchExecution>): (r: Result<int, StepError>)
    ensures r.Ok? <==>
      && "batchId" in context && context["batchId"].StringValue?
      && "batchExecutionId" in context && context["batchExecutionId"].LongValue?
      && context["batchExecutionId"].n in rows
    ensures r.Ok? ==> r.value == context["batchExecutionId"].n
    ensures "batchId" !in context ==> r == Err(MissingContextValue("batchId"))
    ensures "batchId" in context && !context["batchId"].StringValue? ==> r == Err(WrongContextType("batchId"))
    ensures "batchId" in context && context["batchId"].StringValue? && "batchExecutionId" !in context ==>
      r == Err(MissingContextValue("batchExecutionId"))
    ensures "batchId" in context && context["batchId"].StringValue? &&
            "batchExecutionId" in context && !context["batchExecutionId"].LongValue? ==>
              r == Err(WrongContextType("batchExecutionId"))
    ensures "batchId" in context && context["batchId"].StringValue? &&
            "batchExecutionId" in context && context["batchExecutionId"].LongValue? &&
            context["batchExecutionId"].n !in rows ==>
              r == Err(RecordNotFound(context["batchExecutionId"].n))
  {
    if "batchId" !in context then Err(MissingContextValue("batchId"))
    else if !context["batchId"].StringValue? then Err(WrongContextType("batchId"))
    else if "batchExecutionId" !in context then Err(MissingContextValue("batchExecutionId"))
    else if !context["batchExecutionId"].LongValue? then Err(WrongContextType("batchExecutionId"))
    else if context["batchExecutionId"].n !in rows then Err(RecordNotFound(context["batchExecutionId"].n))
    else Ok(context["batchExecutionId"].n)
  }

  class LogStartTimeTasklet {
    const batchExecutionRepository: BatchExecutionRepository

    constructor (batchExecutionRepository: BatchExecutionRepository)
      ensures this.batchExecutionRepository == batchExecutionRepository
    {
      this.batchExecutionRepository := batchExecutionRepository;
    }

    /**
     * `execute`: reads `batchId` (as a string) and `batchExecutionId` (as a long) from the
     * context, then stamps the record, or throws and saves nothing.
     */
    method Execute(context: ExecutionContext, jobExecutionId: int, now: Timestamp)
      returns (res: Result<RepeatStatus, StepError>)
      requires batchExecutionRepository.Valid()
      modifies batchExecutionRepository
      ensures batchExecutionRepository.Valid()
      ensures batchExecutionRepository.nextId == old(batchExecutionRepository.nextId)
      ensures var outcome := StepOutcome(context.entries, old(batchExecutionRepository.rows));
        && (res.Err? <==> outcome.Err?)
        && (res.Err? ==> res.error == outcome.error && batchExecutionRepository.rows == old(batchExecutionRepository.rows))
        && (res.Ok? ==>
              && res.value == Finished
              && batchExecutionRepository.rows == old(batchExecutionRepository.rows)[outcome.value :=
                   Started(old(batchExecutionRepository.rows)[outcome.value], jobExecutionId, now)])
    {
      var batchId := context.GetString("batchId");
      if batchId.Err? {
        return Err(batchId.error);
      }
      var batchExecutionId := context.GetLong("batchExecutionId");
      if batchExecutionId.Err? {
        return Err(batchExecutionId.error);
      }
      var optionalBatchExecution := batchExecutionRepository.FindById(batchExecutionId.value);
      if optionalBatchExecution.None? {
        return Err(RecordNotFound(batchExecutionId.value));
      }
      var batchExecution := Started(optionalBatchExecution.value, jobExecutionId, now);
      RewriteKeepsBatchIdFree(batchExecutionRepository.rows, batchExecution);
      var saved := batchExecutionRepository.Save(batchExecution);
      res := Ok(Finished);
    }
  }
}
