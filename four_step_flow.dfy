/**
 * The four steps in their numbered order on one job execution: generate the
 * batch id, log the start time, run the business work, return the job id.
 * All four tasklets share one record table and the job's execution context;
 * the engine stops the job at the first step that throws. Each step is a
 * tasklet step: it runs its tasklet inside a transaction, commits it, and
 * checks the thread's interrupt status before the tasklet and after the
 * commit, ending with `JobInterrupted` when the status is set. A transaction
 * marked rollback-only fails its commit (`CommitFailed`), and the step's
 * writes are discarded.
 */
module FourStepFlow {
  import opened Common
  import opened Model
  import opened Stores
  import opened StepContext
  import opened StopManager
  import Text
  import GenerateBatchId
  import LogStartTime
  import AsyncWorker
  import ReturnJobId

  /** After inserting a row under a fresh key, a batch id is taken iff it was before or the new row holds it. */
  lemma InsertedBatchIdTaken(rows: map<int, BatchExecution>, id: int, r: BatchExecution, b: string)
    requires id !in rows
    ensures BatchIdTaken(rows[id := r], Some(b), None) <==> BatchIdTaken(rows, Some(b), None) || r.batchId == Some(b)
  {
    var after := rows[id := r];
    if BatchIdTaken(after, Some(b), None) {
      var k :| k in after && Some(k) != None && after[k].batchId == Some(b);
      if k != id {
        assert k in rows && Some(k) != None && rows[k].batchId == Some(b);
      }
    }
    if BatchIdTaken(rows, Some(b), None) {
      var k :| k in rows && Some(k) != None && rows[k].batchId == Some(b);
      assert k != id && after[k] == rows[k];
      assert k in after && Some(k) != None && after[k].batchId == Some(b);
    }
    if r.batchId == Some(b) {
      assert id in after && Some(id) != None && after[id].batchId == Some(b);
    }
  }

  /**
   * Steps 1 and 2: the CREATED record is saved under the next id and then stamped
   * STARTED; step 2 cannot fail once step 1 has written the context.
   */
  method RecordStart(
    step1: GenerateBatchId.GenerateBatchIdTasklet, step2: LogStartTime.LogStartTimeTasklet,
    context: ExecutionContext, jobExecutionId: int, clock: Text.DateTime, uuid: string, now: Timestamp)
    returns (res: Result<RepeatStatus, StepError>)
    requires step1.batchExecutionRepository == step2.batchExecutionRepository
    requires step1.batchExecutionRepository.Valid()
    requires Text.ValidDateTime(clock) && GenerateBatchId.IsUuidString(uuid)
    modifies step1.batchExecutionRepository, context
    ensures step1.batchExecutionRepository.Valid()
    ensures res.Err? <==> BatchIdTaken(old(step1.batchExecutionRepository.rows), Some(GenerateBatchId.BatchId(clock, uuid)), None)
    ensures res.Err? ==> res.error == SaveFailed(DuplicateBatchId(GenerateBatchId.BatchId(clock, uuid)))
    ensures res.Err? ==> step1.batchExecutionRepository.nextId == old(step1.batchExecutionRepository.nextId)
    ensures res.Err? ==> step1.batchExecutionRepository.rows == old(step1.batchExecutionRepository.rows)
    ensures res.Err? ==> context.entries == old(context.entries)
    ensures res.Ok? ==>
      var id := old(step1.batchExecutionRepository.nextId);
      var batchId := GenerateBatchId.BatchId(clock, uuid);
      && res.value == Finished
      && id !in old(step1.batchExecutionRepository.rows)
      && step1.batchExecutionRepository.nextId == id + 1
      && step1.batchExecutionRepository.rows == old(step1.batchExecutionRepository.rows)[id :=
           LogStartTime.Started(NewBatchExecutionWithBatchId(batchId, now).(id := Some(id)), jobExecutionId, now)]
      && context.entries == old(context.entries)["batchId" := StringValue(batchId)]["batchExecutionId" := LongValue(id)]
  {
    ghost var rows0 := step1.batchExecutionRepository.rows;
    ghost var id := step1.batchExecutionRepository.nextId;
    assert id !in rows0;
    ghost var r1 := NewBatchExecutionWithBatchId(GenerateBatchId.BatchId(clock, uuid), now).(id := Some(id));
    res := step1.Execute(context, clock, uuid, now);
    if res.Err? {
      return;
    }
    assert step1.batchExecutionRepository.rows == rows0[id := r1];
    res := step2.Execute(context, jobExecutionId, now);
    assert res.Ok?;
  }

  /**
   * Steps 3 and 4 once the record of steps 1 and 2 sits under `id`. Step 3's interrupt
   * check comes first. The worker then saves its own record under the next id and runs to
   * completion or failure, re-setting the interrupt status when a stop reached it. A failed
   * task save has marked the transaction rollback-only, so the commit fails and the table
   * is rolled back; otherwise the check after the commit ends the job when a stop arrived.
   * Only then does step 4 find the STARTED record, leave it as it is and publish the job
   * id. Step 4's own checks see the status step 3's last check saw, since step 4 does not
   * touch the thread.
   */
  method FinishJob(
    step3: AsyncWorker.AsyncBusinessJobTasklet, step4: ReturnJobId.ReturnJobIdTasklet,
    context: ExecutionContext, jobExecutionId: int, thread: Thread,
    now: Timestamp, millis: int, stopAt: Option<nat>, taskSaveFails: bool, ghost id: int, ghost r: BatchExecution)
    returns (res: Result<RepeatStatus, StepError>)
    requires step4.batchExecutionRepository == step3.batchExecutionRepository
    requires step3.Valid() && thread.alive
    requires id in step3.batchExecutionRepository.rows
    requires step3.batchExecutionRepository.rows[id] == LogStartTime.Started(r, jobExecutionId, now)
    requires "batchId" in context.entries && context.entries["batchId"].StringValue?
    requires "batchExecutionId" in context.entries && context.entries["batchExecutionId"] == LongValue(id)
    modifies step3.batchExecutionRepository, context, step3.taskRepository, step3.jobStopManager, thread
    ensures step3.Valid() && thread.alive
    ensures var ran := !old(thread.interrupted) &&
          !BatchIdTaken(old(step3.batchExecutionRepository.rows), Some(AsyncWorker.AsyncBatchId(jobExecutionId, millis)), None);
      var arrived := AsyncWorker.StopArrives(step3.batchProperties.simulationDurationSeconds, false, stopAt);
      var rolledBack := ran && !arrived && taskSaveFails;
      && (res.Ok? <==> ran && !arrived && !taskSaveFails)
      && (res.Err? ==> res.error.SaveFailed? || res.error == JobInterrupted || res.error == CommitFailed)
      && (old(thread.interrupted) ==> res == Err(JobInterrupted))
      && (!old(thread.interrupted) && !ran ==> res == Err(SaveFailed(DuplicateBatchId(AsyncWorker.AsyncBatchId(jobExecutionId, millis)))))
      && (rolledBack ==> res == Err(CommitFailed))
      && thread.interrupted == (old(thread.interrupted) || (ran && arrived))
      && (!ran || rolledBack ==>
            && step3.batchExecutionRepository.rows == old(step3.batchExecutionRepository.rows)
            && step3.taskRepository.rows == old(step3.taskRepository.rows)
            && context.entries == old(context.entries))
      && step3.taskRepository.rows ==
           (if ran && AsyncWorker.WorkCompletes(step3.batchProperties.simulationDurationSeconds, false, stopAt, taskSaveFails)
            then AsyncWorker.MarkAllProcessed(old(step3.taskRepository.rows), now)
            else old(step3.taskRepository.rows))
      && step3.jobStopManager.stopFlags ==
           (if ran then old(step3.jobStopManager.stopFlags) - {jobExecutionId} else old(step3.jobStopManager.stopFlags))
      && step3.jobStopManager.jobThreads ==
           (if ran then old(step3.jobStopManager.jobThreads) - {jobExecutionId} else old(step3.jobStopManager.jobThreads))
    ensures (!old(thread.interrupted) &&
          !BatchIdTaken(old(step3.batchExecutionRepository.rows), Some(AsyncWorker.AsyncBatchId(jobExecutionId, millis)), None) &&
          (AsyncWorker.StopArrives(step3.batchProperties.simulationDurationSeconds, false, stopAt) || !taskSaveFails)) ==>
      var n := old(step3.batchExecutionRepository.nextId);
      var rows := step3.batchExecutionRepository.rows;
      var props := step3.batchProperties;
      var completes := AsyncWorker.WorkCompletes(props.simulationDurationSeconds, false, stopAt, taskSaveFails);
      var arrived := AsyncWorker.StopArrives(props.simulationDurationSeconds, false, stopAt);
      && n !in old(step3.batchExecutionRepository.rows) && n in rows
      && rows == old(step3.batchExecutionRepository.rows)[n := rows[n]]
      && rows[n].batchId == Some(AsyncWorker.AsyncBatchId(jobExecutionId, millis))
      && rows[n].jobId == Some(jobExecutionId)
      && rows[n].status == Some(if completes then props.status.completed else props.status.failed)
      && context.entries == (if arrived then old(context.entries)
                             else old(context.entries)["returnedJobId" := LongValue(jobExecutionId)])
      && (res.Ok? ==> res.value == Finished)
  {
    var rowsAtStart := step3.batchExecutionRepository.rows;
    ghost var n := step3.batchExecutionRepository.nextId;
    assert n !in rowsAtStart;
    if thread.interrupted {
      return Err(JobInterrupted);
    }
    var rollbackOnly;
    res, rollbackOnly := step3.Execute(jobExecutionId, thread, now, millis, now, stopAt, taskSaveFails);
    if res.Err? {
      return;
    }
    if rollbackOnly {
      step3.batchExecutionRepository.Rollback(rowsAtStart);
      return Err(CommitFailed);
    }
    if thread.interrupted {
      return Err(JobInterrupted);
    }
    ghost var rows3 := step3.batchExecutionRepository.rows;
    assert rows3 == rowsAtStart[n := rows3[n]];
    ReturnJobId.StartedRecordIsNotCompleted(r, jobExecutionId, now, jobExecutionId);
    res := step4.Execute(context, jobExecutionId);
    assert res.Ok?;
    assert step3.batchExecutionRepository.rows == rows3;
  }

  /**
   * The whole job. Step 1's check before its tasklet ends the job at once when the thread
   * is already interrupted; steps 1 and 2 do not touch the thread, so their other checks
   * pass whenever that one does.
   */
  method RunFourStepJob(
    step1: GenerateBatchId.GenerateBatchIdTasklet, step2: LogStartTime.LogStartTimeTasklet,
    step3: AsyncWorker.AsyncBusinessJobTasklet, step4: ReturnJobId.ReturnJobIdTasklet,
    context: ExecutionContext, jobExecutionId: int, thread: Thread,
    clock: Text.DateTime, uuid: string, now: Timestamp, millis: int, stopAt: Option<nat>, taskSaveFails: bool)
    returns (res: Result<RepeatStatus, StepError>)
    requires step1.batchExecutionRepository == step3.batchExecutionRepository
    requires step2.batchExecutionRepository == step3.batchExecutionRepository
    requires step4.batchExecutionRepository == step3.batchExecutionRepository
    requires step3.Valid() && thread.alive
    requires Text.ValidDateTime(clock) && GenerateBatchId.IsUuidString(uuid)
    modifies step3.batchExecutionRepository, context, step3.taskRepository, step3.jobStopManager, thread
    ensures step3.Valid() && thread.alive
    ensures old(thread.interrupted) ==>
      && res == Err(JobInterrupted)
      && step3.batchExecutionRepository.rows == old(step3.batchExecutionRepository.rows)
      && context.entries == old(context.entries)
    ensures var rows := old(step3.batchExecutionRepository.rows);
      var batchId := GenerateBatchId.BatchId(clock, uuid);
      var asyncBatchId := AsyncWorker.AsyncBatchId(jobExecutionId, millis);
      var ran := !old(thread.interrupted) && !BatchIdTaken(rows, Some(batchId), None)
        && !BatchIdTaken(rows, Some(asyncBatchId), None) && batchId != asyncBatchId;
      var arrived := AsyncWorker.StopArrives(step3.batchProperties.simulationDurationSeconds, false, stopAt);
      && (res.Ok? <==> ran && !arrived && !taskSaveFails)
      && (ran && !arrived && taskSaveFails ==> res == Err(CommitFailed))
      && thread.interrupted == (old(thread.interrupted) || (ran && arrived))
      && step3.taskRepository.rows ==
           (if ran && AsyncWorker.WorkCompletes(step3.batchProperties.simulationDurationSeconds, false, stopAt, taskSaveFails)
            then AsyncWorker.MarkAllProcessed(old(step3.taskRepository.rows), now)
            else old(step3.taskRepository.rows))
      && step3.jobStopManager.stopFlags ==
           (if ran then old(step3.jobStopManager.stopFlags) - {jobExecutionId} else old(step3.jobStopManager.stopFlags))
      && step3.jobStopManager.jobThreads ==
           (if ran then old(step3.jobStopManager.jobThreads) - {jobExecutionId} else old(step3.jobStopManager.jobThreads))
    ensures res.Err? ==> res.error.SaveFailed? || res.error == JobInterrupted || res.error == CommitFailed
    ensures var batchId := GenerateBatchId.BatchId(clock, uuid);
      !old(thread.interrupted) && BatchIdTaken(old(step3.batchExecutionRepository.rows), Some(batchId), None) ==>
      && res == Err(SaveFailed(DuplicateBatchId(batchId)))
      && step3.batchExecutionRepository.rows == old(step3.batchExecutionRepository.rows)
      && context.entries == old(context.entries)
    ensures var rows := old(step3.batchExecutionRepository.rows);
      var batchId := GenerateBatchId.BatchId(clock, uuid);
      var asyncBatchId := AsyncWorker.AsyncBatchId(jobExecutionId, millis);
      var id := old(step3.batchExecutionRepository.nextId);
      (!old(thread.interrupted) && !BatchIdTaken(rows, Some(batchId), None)
        && (BatchIdTaken(rows, Some(asyncBatchId), None) || batchId == asyncBatchId)) ==>
      && res == Err(SaveFailed(DuplicateBatchId(asyncBatchId)))
      && step3.batchExecutionRepository.rows ==
           rows[id := LogStartTime.Started(NewBatchExecutionWithBatchId(batchId, now).(id := Some(id)), jobExecutionId, now)]
      && context.entries == old(context.entries)["batchId" := StringValue(batchId)]["batchExecutionId" := LongValue(id)]
    ensures var rows := old(step3.batchExecutionRepository.rows);
      var batchId := GenerateBatchId.BatchId(clock, uuid);
      var asyncBatchId := AsyncWorker.AsyncBatchId(jobExecutionId, millis);
      (!old(thread.interrupted) && !BatchIdTaken(rows, Some(batchId), None)
        && !BatchIdTaken(rows, Some(asyncBatchId), None) && batchId != asyncBatchId) ==>
      var id := old(step3.batchExecutionRepository.nextId);
      var after := step3.batchExecutionRepository.rows;
      var props := step3.batchProperties;
      var completes := AsyncWorker.WorkCompletes(props.simulationDurationSeconds, false, stopAt, taskSaveFails);
      var arrived := AsyncWorker.StopArrives(props.simulationDurationSeconds, false, stopAt);
      var rolledBack := !arrived && taskSaveFails;
      var published := old(context.entries)["batchId" := StringValue(batchId)]["batchExecutionId" := LongValue(id)];
      && after.Keys == rows.Keys + (if rolledBack then {id} else {id, id + 1})
      && (forall k :: k in rows ==> after[k] == rows[k])
      && after[id] == LogStartTime.Started(NewBatchExecutionWithBatchId(batchId, now).(id := Some(id)), jobExecutionId, now)
      && after[id].status == Some(LogStartTime.StartedStatus)
      && (!rolledBack ==>
            && after[id + 1].batchId == Some(asyncBatchId)
            && after[id + 1].jobId == Some(jobExecutionId)
            && after[id + 1].status == Some(if completes then props.status.completed else props.status.failed))
      && context.entries == (if arrived || rolledBack then published else published["returnedJobId" := LongValue(jobExecutionId)])
      && (res.Ok? ==> res.value == Finished)
  {
    if thread.interrupted {
      return Err(JobInterrupted);
    }
    ghost var rows0 := step3.batchExecutionRepository.rows;
    ghost var id := step3.batchExecutionRepository.nextId;
    ghost var asyncBatchId := AsyncWorker.AsyncBatchId(jobExecutionId, millis);
    ghost var r1 := NewBatchExecutionWithBatchId(GenerateBatchId.BatchId(clock, uuid), now).(id := Some(id));
    ghost var r2 := LogStartTime.Started(r1, jobExecutionId, now);
    res := RecordStart(step1, step2, context, jobExecutionId, clock, uuid, now);
    if res.Err? {
      return;
    }
    InsertedBatchIdTaken(rows0, id, r2, asyncBatchId);
    ghost var rows2 := step3.batchExecutionRepository.rows;
    ghost var n := step3.batchExecutionRepository.nextId;
    assert n == id + 1 && id in rows2 && id != n;
    assert rows2 == rows0[id := r2];
    res := FinishJob(step3, step4, context, jobExecutionId, thread, now, millis, stopAt, taskSaveFails, id, r1);
    assert step3.batchExecutionRepository.rows[id] == r2;
  }
}
