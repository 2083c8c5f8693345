/**
 * Step 3 of the batch flow (`AsyncBusinessJobTasklet`): it saves a fresh
 * execution record in the configured processing status and runs the business
 * work, a counted loop of one-second interruptible sleeps followed by marking
 * every unprocessed task as processed. The work is invoked through `this`, so
 * it runs on the step's own thread, before `execute` returns.
 */
module AsyncWorker {
  import opened Common
  import opened Model
  import opened Stores
  import opened StepContext
  import opened StopManager
  import Text

  /** The configurable status strings (`app.batch.status.*`). */
  datatype StatusNames = StatusNames(processing: string, completed: string, failed: string)

  /** `BatchProperties`: the number of one-second work steps and the status strings. */
  datatype BatchProperties = BatchProperties(simulationDurationSeconds: int, status: StatusNames)

  /** The defaults the configuration class declares. */
  const DefaultProperties := BatchProperties(600, StatusNames("PROCESSING", "COMPLETED", "FAILED"))

  /** `"BATCH_" + jobExecutionId + "_" + System.currentTimeMillis()`. */
  function AsyncBatchId(jobExecutionId: int, millis: int): (s: string)
    ensures |s| >= 9 && s[..6] == "BATCH_"
  {
    "BATCH_" + Text.LongToString(jobExecutionId) + "_" + Text.LongToString(millis)
  }

  /** Distinct (execution id, clock reading) pairs give distinct batch ids. */
  lemma AsyncBatchIdInjective(j1: int, m1: int, j2: int, m2: int)
    requires AsyncBatchId(j1, m1) == AsyncBatchId(j2, m2)
    ensures j1 == j2 && m1 == m2
  {
    var x1, y1 := Text.LongToString(j1), Text.LongToString(m1);
    var x2, y2 := Text.LongToString(j2), Text.LongToString(m2);
    var p: string := "BATCH_";
    var t1, t2 := x1 + ['_'] + y1, x2 + ['_'] + y2;
    assert AsyncBatchId(j1, m1) == p + t1;
    assert AsyncBatchId(j2, m2) == p + t2;
    assert t1 == (p + t1)[|p|..] == (p + t2)[|p|..] == t2;
    Text.SplitAtSeparator(x1, y1, x2, y2, '_');
    Text.LongToStringInjective(j1, j2);
    Text.LongToStringInjective(m1, m2);
  }

  /** The record `execute` builds before saving it. */
  function ProcessingRecord(batchId: string, jobExecutionId: int, processing: string, now: Timestamp): (r: BatchExecution)
    ensures r.id == None && r.endTime == None
    ensures r.batchId == Some(batchId) && r.jobId == Some(jobExecutionId)
    ensures r.status == Some(processing) && r.startTime == Some(now) && r.createdAt == Some(now)
  {
    NewBatchExecution(now).(batchId := Some(batchId), jobId := Some(jobExecutionId),
                            status := Some(processing), startTime := Some(now))
  }

  /** `setProcessed(true)` then `setProcessedAt(now)`: those two fields change, no other. */
  function MarkProcessed(t: Task, now: Timestamp): (r: Task)
    ensures r.processed && r.processedAt == Some(now)
    ensures r.(processed := t.processed, processedAt := t.processedAt) == t
  {
    t.(processed := true, processedAt := Some(now))
  }

  /** The task table after every task that was unprocessed has been marked processed at `now`. */
  function MarkAllProcessed(rows: map<int, Task>, now: Timestamp): (r: map<int, Task>)
    ensures r.Keys == rows.Keys
    ensures forall k :: k in r ==> r[k].processed
    ensures forall k :: k in rows && rows[k].processed ==> r[k] == rows[k]
    ensures forall k :: k in rows && !rows[k].processed ==> r[k].processedAt == Some(now)
  {
    map k | k in rows :: if rows[k].processed then rows[k] else MarkProcessed(rows[k], now)
  }

  /** The change `updateBatchExecutionStatus` makes: the status and end time, nothing else. */
  function StatusUpdated(rows: map<int, BatchExecution>, id: int, status: string, now: Timestamp): (r: map<int, BatchExecution>)
    ensures r.Keys == rows.Keys
    ensures forall k :: k in rows && k != id ==> r[k] == rows[k]
    ensures id in rows ==> r[id].status == Some(status) && r[id].endTime == Some(now)
    ensures id in rows ==> r[id].(status := rows[id].status, endTime := rows[id].endTime) == rows[id]
  {
    if id in rows then rows[id := rows[id].(status := Some(status), endTime := Some(now))] else rows
  }

  /**
   * The step at which the work loop is interrupted, if any. A sleep throws at once
   * when the thread's interrupt status is set: at step 0 if it was set on entry, or at
   * the step during which a stop request reaches the registry.
   */
  function FailingStep(iterations: int, interruptedOnEntry: bool, stopAt: Option<nat>): (f: Option<nat>)
    ensures iterations <= 0 ==> f == None
    ensures f.Some? ==> f.value < iterations
    ensures iterations > 0 && interruptedOnEntry ==> f == Some(0)
  {
    if iterations <= 0 then None
    else if interruptedOnEntry then Some(0)
    else if stopAt.Some? && stopAt.value < iterations then stopAt
    else None
  }

  /** Whether the worker reaches the completion path: no interrupted step and the task save succeeds. */
  predicate WorkCompletes(iterations: int, interruptedOnEntry: bool, stopAt: Option<nat>, taskSaveFails: bool) {
    FailingStep(iterations, interruptedOnEntry, stopAt).None? && !taskSaveFails
  }

  /** Whether the stop request of `stopAt` is issued before the loop ends. */
  predicate StopArrives(iterations: int, interruptedOnEntry: bool, stopAt: Option<nat>) {
    stopAt.Some? && stopAt.value < iterations && (!interruptedOnEntry || stopAt.value == 0)
  }

  /** With zero (or a negative number of) configured steps the loop never runs and only a save failure stops completion. */
  lemma NoStepsCompletes(iterations: int, interruptedOnEntry: bool, stopAt: Option<nat>, taskSaveFails: bool)
    requires iterations <= 0
    ensures WorkCompletes(iterations, interruptedOnEntry, stopAt, taskSaveFails) <==> !taskSaveFails
  {
  }

  /** A stop request that reaches the registry during any step makes the run fail. */
  lemma StopDuringRunFails(iterations: int, stopAt: nat, taskSaveFails: bool)
    requires stopAt < iterations
    ensures !WorkCompletes(iterations, false, Some(stopAt), taskSaveFails)
    ensures FailingStep(iterations, false, Some(stopAt)) == Some(stopAt)
  {
  }

  /**
   * With the default ten-minute simulation and a thread not interrupted on entry, a
   * successful task save completes the run iff no stop reaches the registry within
   * the first 600 steps.
   */
  lemma DefaultStopWindow(stopAt: Option<nat>)
    ensures WorkCompletes(DefaultProperties.simulationDurationSeconds, false, stopAt, false) <==>
      stopAt.None? || stopAt.value >= 600
  {
  }

  /** Saving the marked copies of exactly the unprocessed tasks yields the fully processed table. */
  lemma SavingMarkedTasks(before: map<int, Task>, found: seq<Task>, marked: seq<Task>, after: map<int, Task>, now: Timestamp)
    requires ListsUnprocessed(found, before)
    requires |marked| == |found| && forall i :: 0 <= i < |found| ==> marked[i] == MarkProcessed(found[i], now)
    requires after.Keys == before.Keys + IdsOf(marked)
    requires forall i :: 0 <= i < |marked| ==> marked[i].id.Some? && after[marked[i].id.value] == marked[i]
    requires forall k :: k in before && k !in IdsOf(marked) ==> after[k] == before[k]
    ensures after == MarkAllProcessed(before, now)
  {
    assert IdsOf(marked) == IdsOf(found) by {
      forall x | x in IdsOf(marked) ensures x in IdsOf(found) {
        var i :| 0 <= i < |marked| && marked[i].id.Some? && marked[i].id.value == x;
        assert found[i].id == marked[i].id;
      }
      forall x | x in IdsOf(found) ensures x in IdsOf(marked) {
        var i :| 0 <= i < |found| && found[i].id.Some? && found[i].id.value == x;
        assert found[i].id == marked[i].id;
      }
    }
    var expected := MarkAllProcessed(before, now);
    forall k | k in before
      ensures after[k] == expected[k]
    {
      if !before[k].processed {
        var i :| 0 <= i < |found| && found[i].id.Some? && found[i].id.value == k;
        assert marked[i].id == found[i].id;
        assert after[k] == marked[i];
      }
    }
  }

  class AsyncBusinessJobTasklet {
    const batchExecutionRepository: BatchExecutionRepository
    const taskRepository: TaskRepository
    const jobStopManager: JobStopManager
    const batchProperties: BatchProperties

    ghost predicate Valid()
      reads this, batchExecutionRepository, taskRepository, jobStopManager
    {
      batchExecutionRepository.Valid() && taskRepository.Valid() && jobStopManager.Valid()
    }

    constructor (batchExecutionRepository: BatchExecutionRepository, taskRepository: TaskRepository,
                 jobStopManager: JobStopManager, batchProperties: BatchProperties)
      ensures this.batchExecutionRepository == batchExecutionRepository
      ensures this.taskRepository == taskRepository
      ensures this.jobStopManager == jobStopManager
      ensures this.batchProperties == batchProperties
    {
      this.batchExecutionRepository := batchExecutionRepository;
      this.taskRepository := taskRepository;
      this.jobStopManager := jobStopManager;
      this.batchProperties := batchProperties;
    }

    /**
     * `execute`: saves a new record in the processing status under the next id, runs the
     * work to its end, and returns FINISHED; only a refused save makes the step throw.
     * `rollbackOnly` reports that a failed task save marked the step's transaction
     * rollback-only, which the engine sees when it commits.
     */
    method Execute(jobExecutionId: int, thread: Thread, now: Timestamp, millis: int, later: Timestamp,
                   stopAt: Option<nat>, taskSaveFails: bool)
      returns (res: Result<RepeatStatus, StepError>, rollbackOnly: bool)
      requires Valid() && thread.alive
      ensures rollbackOnly <==>
        res.Ok? && taskSaveFails && FailingStep(batchProperties.simulationDurationSeconds, old(thread.interrupted), stopAt).None?
      modifies jobStopManager, thread, batchExecutionRepository, taskRepository
      ensures Valid()
      ensures res.Err? <==> BatchIdTaken(old(batchExecutionRepository.rows), Some(AsyncBatchId(jobExecutionId, millis)), None)
      ensures batchExecutionRepository.nextId == old(batchExecutionRepository.nextId) + (if res.Ok? then 1 else 0)
      ensures res.Ok? ==> res.value == Finished
      ensures res.Err? ==> res.error == SaveFailed(DuplicateBatchId(AsyncBatchId(jobExecutionId, millis)))
      ensures res.Err? ==>
        && batchExecutionRepository.rows == old(batchExecutionRepository.rows)
        && taskRepository.rows == old(taskRepository.rows)
        && jobStopManager.stopFlags == old(jobStopManager.stopFlags)
        && jobStopManager.jobThreads == old(jobStopManager.jobThreads)
        && thread.interrupted == old(thread.interrupted)
      ensures thread.alive
      ensures res.Ok? ==>
        thread.interrupted == (old(thread.interrupted) || StopArrives(batchProperties.simulationDurationSeconds, old(thread.interrupted), stopAt))
      ensures res.Ok? ==>
        var id := old(batchExecutionRepository.nextId);
        var completes := WorkCompletes(batchProperties.simulationDurationSeconds, old(thread.interrupted), stopAt, taskSaveFails);
        var outcome := if completes then batchProperties.status.completed else batchProperties.status.failed;
        && batchExecutionRepository.rows == old(batchExecutionRepository.rows)[id :=
             ProcessingRecord(AsyncBatchId(jobExecutionId, millis), jobExecutionId, batchProperties.status.processing, now)
               .(id := Some(id), status := Some(outcome), endTime := Some(later))]
        && taskRepository.rows == (if completes then MarkAllProcessed(old(taskRepository.rows), later) else old(taskRepository.rows))
        && jobStopManager.stopFlags == old(jobStopManager.stopFlags) - {jobExecutionId}
        && jobStopManager.jobThreads == old(jobStopManager.jobThreads) - {jobExecutionId}
    {
      var batchId := AsyncBatchId(jobExecutionId, millis);
      var batchExecution := ProcessingRecord(batchId, jobExecutionId, batchProperties.status.processing, now);
      var saved := batchExecutionRepository.Save(batchExecution);
      if saved.Err? {
        return Err(SaveFailed(DuplicateBatchId(batchId))), false;
      }
      var batchExecutionId := saved.value.id.value;
      rollbackOnly := ExecuteBusinessLogicAsync(batchId, batchExecutionId, jobExecutionId, thread, later, stopAt, taskSaveFails);
      res := Ok(Finished);
    }

    /** `updateBatchExecutionStatus`: no effect when the id has no row; otherwise the status and end time are overwritten, whatever the old status. */
    method UpdateBatchExecutionStatus(batchExecutionId: int, status: string, now: Timestamp)
      requires Valid()
      modifies batchExecutionRepository
      ensures Valid()
      ensures batchExecutionRepository.rows == StatusUpdated(old(batchExecutionRepository.rows), batchExecutionId, status, now)
      ensures batchExecutionRepository.nextId == old(batchExecutionRepository.nextId)
    {
      var found := batchExecutionRepository.FindById(batchExecutionId);
      if found.Some? {
        var batchExecution := found.value.(status := Some(status), endTime := Some(now));
        RewriteKeepsBatchIdFree(batchExecutionRepository.rows, batchExecution);
        var saved := batchExecutionRepository.Save(batchExecution);
      }
    }

    /**
     * The counted loop of `executeBusinessLogicAsync`: one interruptible one-second sleep per
     * step. `stopAt` is the step during which a concurrent stop request reaches the registry;
     * `failed` reports that a sleep threw because the thread's interrupt status was set.
     */
    method SleepSteps(jobExecutionId: int, thread: Thread, stopAt: Option<nat>)
      returns (failed: bool)
      requires jobStopManager.Valid() && thread.alive
      requires jobExecutionId in jobStopManager.jobThreads && jobStopManager.jobThreads[jobExecutionId] == thread
      modifies jobStopManager, thread
      ensures jobStopManager.Valid() && thread.alive
      ensures failed <==> FailingStep(batchProperties.simulationDurationSeconds, old(thread.interrupted), stopAt).Some?
      ensures var arrived := StopArrives(batchProperties.simulationDurationSeconds, old(thread.interrupted), stopAt);
        && thread.interrupted == (old(thread.interrupted) || arrived)
        && jobStopManager.stopFlags == (if arrived then old(jobStopManager.stopFlags)[jobExecutionId := true]
                                        else old(jobStopManager.stopFlags))
      ensures jobStopManager.jobThreads == old(jobStopManager.jobThreads)
    {
      ghost var interruptedOnEntry := thread.interrupted;
      var totalIterations := batchProperties.simulationDurationSeconds;
      ghost var failing := FailingStep(totalIterations, interruptedOnEntry, stopAt);
      var i := 0;
      failed := false;
      while i < totalIterations && !failed
        invariant 0 <= i && (totalIterations > 0 ==> i <= totalIterations) && (totalIterations <= 0 ==> i == 0)
        invariant failed ==> failing == Some(i)
        invariant !failed ==> failing.None? || i <= failing.value
        invariant jobStopManager.Valid() && thread.alive
        invariant jobStopManager.jobThreads == old(jobStopManager.jobThreads)
        invariant var arrived := stopAt.Some? && (stopAt.value < i || (failed && stopAt.value == i));
          && thread.interrupted == (interruptedOnEntry || arrived)
          && jobStopManager.stopFlags == (if arrived then old(jobStopManager.stopFlags)[jobExecutionId := true]
                                          else old(jobStopManager.stopFlags))
        decreases totalIterations - i, if failed then 0 else 1
      {
        if stopAt == Some(i) {
          jobStopManager.SetStopFlag(jobExecutionId);
        }
        // Thread.sleep(1000) throws when the interrupt status is set; the handler sets it again.
        if thread.interrupted {
          failed := true;
        } else {
          i := i + 1;
        }
      }
    }

    /** `taskRepository.saveAll` of the marked copies of the fetched tasks. */
    method SaveMarkedTasks(found: seq<Task>, marked: seq<Task>, now: Timestamp)
      requires taskRepository.Valid()
      requires ListsUnprocessed(found, taskRepository.rows)
      requires |marked| == |found| && forall i :: 0 <= i < |found| ==> marked[i] == MarkProcessed(found[i], now)
      modifies taskRepository
      ensures taskRepository.Valid()
      ensures taskRepository.rows == MarkAllProcessed(old(taskRepository.rows), now)
    {
      assert forall i :: 0 <= i < |marked| ==> marked[i].id == found[i].id;
      taskRepository.SaveAll(marked);
      SavingMarkedTasks(old(taskRepository.rows), found, marked, taskRepository.rows, now);
    }

    /**
     * What follows the loop inside the try block: unless a sleep already failed, the fetched
     * tasks are marked and saved; `taskSaveFails` stands for `saveAll` throwing, which the
     * catch block turns into a failed run.
     */
    method HandleTasks(unprocessedTasks: seq<Task>, sleepFailed: bool, now: Timestamp, taskSaveFails: bool)
      returns (failed: bool, rollbackOnly: bool)
      requires taskRepository.Valid() && ListsUnprocessed(unprocessedTasks, taskRepository.rows)
      modifies taskRepository
      ensures taskRepository.Valid()
      ensures failed <==> sleepFailed || taskSaveFails
      ensures rollbackOnly <==> !sleepFailed && taskSaveFails
      ensures taskRepository.rows == (if failed then old(taskRepository.rows) else MarkAllProcessed(old(taskRepository.rows), now))
    {
      failed, rollbackOnly := sleepFailed, false;
      if !failed {
        var marked := MarkTasks(unprocessedTasks, now);
        if taskSaveFails {
          // `saveAll` joins the step's transaction, and its exception marks that transaction rollback-only.
          failed, rollbackOnly := true, true;
        } else {
          SaveMarkedTasks(unprocessedTasks, marked, now);
        }
      }
    }

    /**
     * `executeBusinessLogicAsync`: registers the thread, fetches the unprocessed tasks,
     * sleeps step by step, then marks the tasks and records the completed status; an
     * interrupted step or a failed task save records the failed status instead. The
     * registry entry is cleared on every path, and nothing is thrown to the caller.
     * `rollbackOnly` reports that the failed task save marked the enclosing transaction
     * rollback-only.
     */
    method ExecuteBusinessLogicAsync(batchId: string, batchExecutionId: int, jobExecutionId: int, thread: Thread,
                                     now: Timestamp, stopAt: Option<nat>, taskSaveFails: bool)
      returns (rollbackOnly: bool)
      requires Valid() && thread.alive
      ensures rollbackOnly <==>
        taskSaveFails && FailingStep(batchProperties.simulationDurationSeconds, old(thread.interrupted), stopAt).None?
      modifies jobStopManager, thread, batchExecutionRepository, taskRepository
      ensures Valid()
      ensures jobStopManager.stopFlags == old(jobStopManager.stopFlags) - {jobExecutionId}
      ensures jobStopManager.jobThreads == old(jobStopManager.jobThreads) - {jobExecutionId}
      ensures
        var completes := WorkCompletes(batchProperties.simulationDurationSeconds, old(thread.interrupted), stopAt, taskSaveFails);
        var outcome := if completes then batchProperties.status.completed else batchProperties.status.failed;
        && batchExecutionRepository.rows == StatusUpdated(old(batchExecutionRepository.rows), batchExecutionId, outcome, now)
        && taskRepository.rows == (if completes then MarkAllProcessed(old(taskRepository.rows), now) else old(taskRepository.rows))
      ensures batchExecutionRepository.nextId == old(batchExecutionRepository.nextId)
      ensures thread.alive
      ensures thread.interrupted ==
        (old(thread.interrupted) || StopArrives(batchProperties.simulationDurationSeconds, old(thread.interrupted), stopAt))
    {
      jobStopManager.RegisterJobThread(jobExecutionId, thread);
      var unprocessedTasks := taskRepository.FindByProcessedFalse();

      var sleepFailed := SleepSteps(jobExecutionId, thread, stopAt);
      var failed;
      failed, rollbackOnly := HandleTasks(unprocessedTasks, sleepFailed, now, taskSaveFails);
      // The try block records the completed status; the catch block the failed one.
      var outcome := if failed then batchProperties.status.failed else batchProperties.status.completed;
      UpdateBatchExecutionStatus(batchExecutionId, outcome, now);
      // finally
      jobStopManager.ClearStopFlag(jobExecutionId);
    }
  }

  /** The marking loop over the fetched tasks: each copy is marked processed at `now`, in order. */
  method MarkTasks(tasks: seq<Task>, now: Timestamp) returns (marked: seq<Task>)
    ensures |marked| == |tasks|
    ensures forall k :: 0 <= k < |tasks| ==> marked[k] == MarkProcessed(tasks[k], now)
  {
    marked := tasks;
    for j := 0 to |marked|
      invariant |marked| == |tasks|
      invariant forall k :: 0 <= k < j ==> marked[k] == MarkProcessed(tasks[k], now)
      invariant forall k :: j <= k < |marked| ==> marked[k] == tasks[k]
    {
      marked := marked[j := MarkProcessed(marked[j], now)];
    }
  }

  /**
   * A stop requested before the worker registers sets the flag but interrupts no thread.
   * The worker never consults the flag, so the run completes and its closing clear
   * discards the request.
   */
  method StopBeforeWorkerStarts(worker: AsyncBusinessJobTasklet, batchId: string, batchExecutionId: int,
                                jobExecutionId: int, thread: Thread, now: Timestamp)
    requires worker.Valid() && thread.alive && !thread.interrupted
    requires jobExecutionId !in worker.jobStopManager.jobThreads
    modifies worker.jobStopManager, thread, worker.batchExecutionRepository, worker.taskRepository
    ensures worker.Valid() && !worker.jobStopManager.ShouldStop(jobExecutionId)
    ensures batchExecutionId in worker.batchExecutionRepository.rows ==>
      worker.batchExecutionRepository.rows[batchExecutionId].status == Some(worker.batchProperties.status.completed)
    ensures worker.taskRepository.rows == MarkAllProcessed(old(worker.taskRepository.rows), now)
  {
    worker.jobStopManager.SetStopFlag(jobExecutionId);
    assert worker.jobStopManager.ShouldStop(jobExecutionId);
    var rollbackOnly := worker.ExecuteBusinessLogicAsync(batchId, batchExecutionId, jobExecutionId, thread, now, None, false);
  }
}
