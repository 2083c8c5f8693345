# Spring Batch demo: job tracking, cancellation and the batch execution record

This project is a Dafny model of the job-tracking core of a Spring Batch demo application, with proofs about that model. It covers:

- **The cancellation registry** (`JobStopManager`). For each job execution id it keeps a stop flag and the worker thread to interrupt.
- **The business worker** (`AsyncBusinessJobTasklet`). It saves a PROCESSING record and runs a counted loop of interruptible one-second sleeps. It then marks every unprocessed task as processed and records COMPLETED, or FAILED when interrupted. It clears its registry entry on every path.
- **The service façade** (`JobService`). This covers the stop decision and its side effect on the registry, the gathered and sorted execution listing, the running-job queries, job lookup, and the start overloads with their error wrapping.
- **The three record tasklets of the four-step flow.** `GenerateBatchIdTasklet` creates a CREATED record under a generated batch id. `LogStartTimeTasklet` stamps the record STARTED. `ReturnJobIdTasklet` sets a missing job id once, turns PROCESSING into JOB_COMPLETED, and publishes `returnedJobId`.
- **The two persisted beans**, `BatchExecution` and `Task`.

How the model is put together:

| part | modelled as |
|---|---|
| beans | datatypes; a setter is a datatype update that changes one field |
| two JPA repositories | classes over `map<int, _>`; the batch-execution table generates identity ids and enforces its unique `batch_id` column |
| the job's execution context | a class over `map<string, ContextValue>` |
| threads | handles with an `alive` flag and an interrupt status |
| the engine (`JobExplorer`, `JobLauncher`, `JobOperator`, `JobRegistry`) | its answers become inputs |
| clocks and the random UUID | parameters |
| a concurrent stop request during the worker's loop | the input `stopAt`: the step during which the request reaches the registry |

Files:

- `common.dfy`: Option and Result.
- `text.dfy`: decimal rendering of longs and the `yyyyMMddHHmmss` timestamp, with round trips.
- `model.dfy`: the beans.
- `stores.dfy`: the repositories.
- `step_context.dfy`: the execution context and step errors.
- `stop_manager.dfy`: the registry.
- `async_worker.dfy`: the worker.
- `generate_batch_id.dfy`, `log_start_time.dfy`, `return_job_id.dfy`: steps 1, 2 and 4.
- `four_step_flow.dfy`: the four steps run in order.
- `job_service.dfy`: the service.

## Behaviour worth knowing

- **Terminal statuses are not absorbing.** `updateBatchExecutionStatus` (src/main/java/com/example/springbatch/tasklet/AsyncBusinessJobTasklet.java:79-87) overwrites any status. `AsyncWorker.StatusUpdated` and `AsyncWorker.AsyncBusinessJobTasklet.UpdateBatchExecutionStatus` state that overwrite, with no guard.
- **The worker never consults `shouldStop`.** A stop reaches it only as an interrupt of a sleep. A stop requested before the worker registers its thread sets the flag and interrupts nothing. The run then completes, and the closing `clearStopFlag` discards the request. `AsyncWorker.StopBeforeWorkerStarts` proves this.
- **Step 1 can fail.** When the generated batch id is already stored, the unique column refuses the save, so step 1 throws instead of returning FINISHED.
- **Two separate records per run in the four-step flow.** The status check of step 4 compares against the literal `"PROCESSING"`, not the configured processing status. Step 3 saves a new record of its own rather than updating the step-1 record. So when step 4 runs, the step-1 record is STARTED and step 4 leaves its status alone. `FourStepFlow.RunFourStepJob` proves that the flow leaves the step-1 record STARTED and, when step 3 commits, the step-3 record COMPLETED or FAILED.
- **A failed task save loses the FAILED status.** The worker catches the exception from `saveAll` and writes the failed status, but the exception has already marked step 3's transaction rollback-only. The step's commit then throws, the transaction is rolled back, and the worker's record disappears with it. `FourStepFlow.FinishJob` and `FourStepFlow.RunFourStepJob` state this.
- **A stop during step 3 ends the job before step 4.** The worker catches the interrupted sleep and returns FINISHED, but it re-sets the thread's interrupt status. The tasklet step checks that status after its tasklet returns, so the job ends there and `returnedJobId` is never written. `FourStepFlow.RunFourStepJob` states this.
- **Absent context keys fail.** `getString` and `getLong` validate the type of the value, and a missing value fails that check, so steps 2 and 4 throw when `batchId` or `batchExecutionId` is absent.

## Model

| member | source | states |
|---|---|---|
| Model.NewBatchExecution | src/main/java/com/example/springbatch/model/BatchExecution.java:35-37 | the no-argument constructor sets only the creation time; id, batch id, job id, start and end time and status are null |
| Model.NewBatchExecutionWithBatchId | src/main/java/com/example/springbatch/model/BatchExecution.java:39-43 | the one-argument constructor sets the batch id from its argument, the status to CREATED and the creation time; everything else is null |
| Model.NewTask | src/main/java/com/example/springbatch/model/Task.java:29-37 | a new task is unprocessed with a null processing time; the no-argument constructor leaves status, name, description, priority and id null |
| Model.NewTaskWith | src/main/java/com/example/springbatch/model/Task.java:39-44 | the three-argument constructor copies name, description and priority, sets status PENDING, and leaves the task unprocessed |
| Stores.RewriteKeepsBatchIdFree | src/main/java/com/example/springbatch/model/BatchExecution.java:17-18 | writing a stored record back under its own id with its own batch id never collides with the unique batch_id column |
| Stores.BatchExecutionRepository.FindById | src/main/java/com/example/springbatch/tasklet/AsyncBusinessJobTasklet.java:80-82 | present exactly when a row has that id, and then it is that row, carrying that id |
| Stores.BatchExecutionRepository.Rollback | src/main/java/com/example/springbatch/config/AbstractSingleTaskletJobConfiguration.java:93-99 | the table returns to the snapshot taken when the step's transaction began, identity values already drawn stay consumed, and the table stays valid |
| Stores.BatchExecutionRepository.Save | src/main/java/com/example/springbatch/model/BatchExecution.java:13-18 | a record without id is inserted under the next identity value; one with id replaces its row; the save is refused (nothing changes) iff the id is unknown or another row holds the batch id, so batch ids stay unique |
| Stores.TaskRepository.FindByProcessedFalse | src/main/java/com/example/springbatch/repository/TaskRepository.java:19 | returns the stored rows, without repeats, that are unprocessed, and every unprocessed row is among them |
| Stores.TaskRepository.SaveAll | src/main/java/com/example/springbatch/tasklet/AsyncBusinessJobTasklet.java:126 | every saved task is stored under its id; rows of other ids are unchanged |
| StepContext.ExecutionContext.PutString | src/main/java/com/example/springbatch/tasklet/GenerateBatchIdTasklet.java:39-41 | the key maps to the string value; all other keys are unchanged |
| StepContext.ExecutionContext.PutLong | src/main/java/com/example/springbatch/tasklet/GenerateBatchIdTasklet.java:43-45 | the key maps to the long value; all other keys are unchanged |
| StepContext.ExecutionContext.GetString | src/main/java/com/example/springbatch/tasklet/LogStartTimeTasklet.java:27-28 | the string for a string value; an absent key fails, and so does a value of another type (the type-validating read throws in both cases) |
| StepContext.ExecutionContext.GetLong | src/main/java/com/example/springbatch/tasklet/LogStartTimeTasklet.java:30-31 | the long for a long value; an absent key fails, and so does a value of another type (the type-validating read throws in both cases) |
| StopManager.Thread.Interrupt | src/main/java/com/example/springbatch/service/JobStopManager.java:42 | sets the interrupt status; liveness is unchanged |
| StopManager.JobStopManager.constructor | src/main/java/com/example/springbatch/service/JobStopManager.java:16-19 | both maps start empty |
| StopManager.JobStopManager.RegisterJobThread | src/main/java/com/example/springbatch/service/JobStopManager.java:26-29 | records the thread for the id; the flag map is untouched |
| StopManager.JobStopManager.SetStopFlag | src/main/java/com/example/springbatch/service/JobStopManager.java:35-46 | the id's flag is true whether or not a thread is registered; the registered thread is interrupted iff it is alive; the thread map and other ids are unchanged |
| StopManager.JobStopManager.ShouldStop | src/main/java/com/example/springbatch/service/JobStopManager.java:53-56 | true exactly when the id has a flag entry, false when none exists |
| StopManager.JobStopManager.ClearStopFlag | src/main/java/com/example/springbatch/service/JobStopManager.java:62-66 | removes the id from both maps and from no other |
| StopManager.JobStopManager.GetStoppedJobIds | src/main/java/com/example/springbatch/service/JobStopManager.java:72-74 | exactly the ids for which shouldStop answers true, i.e. the flag map's keys |
| StopManager.StopBeforeRegistration | src/main/java/com/example/springbatch/service/JobStopManager.java:26-46 | a flag set before the thread registers is still observed afterwards |
| StopManager.StopTwice | src/main/java/com/example/springbatch/service/JobStopManager.java:35-46 | setting the flag twice leaves both maps as setting it once |
| StopManager.ClearTwice | src/main/java/com/example/springbatch/service/JobStopManager.java:62-66 | clearing twice leaves both maps as clearing once, and shouldStop is false |
| StopManager.OtherIdsUntouched | src/main/java/com/example/springbatch/service/JobStopManager.java:26-74 | register, set and clear on one id leave every other id's flag and thread entries unchanged |
| Text.LongToString | src/main/java/com/example/springbatch/tasklet/AsyncBusinessJobTasklet.java:49 | the decimal text of a long: non-empty, free of the underscore separator, and it starts with a digit iff the value is non-negative |
| Text.LongRoundTrip | src/main/java/com/example/springbatch/tasklet/AsyncBusinessJobTasklet.java:49 | reading the decimal text back gives the long |
| Text.LongToStringInjective | src/main/java/com/example/springbatch/tasklet/AsyncBusinessJobTasklet.java:49 | distinct longs have distinct decimal texts |
| Text.FormatTimestamp | src/main/java/com/example/springbatch/tasklet/GenerateBatchIdTasklet.java:28 | the yyyyMMddHHmmss text has 14 characters, all digits |
| Text.TimestampRoundTrip | src/main/java/com/example/springbatch/tasklet/GenerateBatchIdTasklet.java:28 | reading the 14 digits back recovers year, month, day, hour, minute and second |
| AsyncWorker.AsyncBatchId | src/main/java/com/example/springbatch/tasklet/AsyncBusinessJobTasklet.java:49 | the worker's batch id starts with BATCH_ |
| AsyncWorker.AsyncBatchIdInjective | src/main/java/com/example/springbatch/tasklet/AsyncBusinessJobTasklet.java:49 | two worker batch ids are equal only for the same execution id and the same millisecond reading |
| AsyncWorker.ProcessingRecord | src/main/java/com/example/springbatch/tasklet/AsyncBusinessJobTasklet.java:54-58 | the new record has the batch id, the job id, the configured processing status, the start time and the creation time, and no id or end time |
| AsyncWorker.MarkProcessed | src/main/java/com/example/springbatch/tasklet/AsyncBusinessJobTasklet.java:122-125 | the task becomes processed with a processing time, and no other field changes |
| AsyncWorker.MarkAllProcessed | src/main/java/com/example/springbatch/tasklet/AsyncBusinessJobTasklet.java:121-126 | the same tasks, all processed; those already processed are unchanged, the others get the processing time |
| AsyncWorker.StatusUpdated | src/main/java/com/example/springbatch/tasklet/AsyncBusinessJobTasklet.java:79-87 | no effect when the id is absent; otherwise exactly status and end time change, whatever the previous status |
| AsyncWorker.FailingStep | src/main/java/com/example/springbatch/tasklet/AsyncBusinessJobTasklet.java:106-119 | no step fails when there are no iterations; a failing step is within the loop; an interrupt status set on entry fails step 0 |
| AsyncWorker.NoStepsCompletes | src/main/java/com/example/springbatch/tasklet/AsyncBusinessJobTasklet.java:106-107 | with zero configured iterations the worker takes the completion path unless the task save fails |
| AsyncWorker.StopDuringRunFails | src/main/java/com/example/springbatch/tasklet/AsyncBusinessJobTasklet.java:111-118 | a stop that arrives during any step fails that step and the run |
| AsyncWorker.DefaultStopWindow | src/main/java/com/example/springbatch/config/BatchProperties.java:16 | with the default 600 one-second steps, a run that starts uninterrupted and saves its tasks completes iff no stop reaches the registry within those 600 steps |
| AsyncWorker.SavingMarkedTasks | src/main/java/com/example/springbatch/tasklet/AsyncBusinessJobTasklet.java:121-126 | saving the marked copies of exactly the fetched unprocessed tasks yields the fully processed task table |
| AsyncWorker.AsyncBusinessJobTasklet.Execute | src/main/java/com/example/springbatch/tasklet/AsyncBusinessJobTasklet.java:44-72 | saves a new PROCESSING record under the next id and, after the work, returns FINISHED; the record ends with the completed or failed status and an end time, the registry entry is gone, and the thread keeps an interrupt status set by a stop; the step's transaction is left rollback-only iff it returned FINISHED and the task save threw; a duplicate batch id makes the step throw with nothing changed, the thread's interrupt status included |
| AsyncWorker.AsyncBusinessJobTasklet.UpdateBatchExecutionStatus | src/main/java/com/example/springbatch/tasklet/AsyncBusinessJobTasklet.java:79-87 | the table becomes the status-updated table; no id is consumed |
| AsyncWorker.AsyncBusinessJobTasklet.SleepSteps | src/main/java/com/example/springbatch/tasklet/AsyncBusinessJobTasklet.java:106-119 | the loop throws iff some step is interrupted; the interrupt status and stop flag reflect whether the stop arrived; thread entries are unchanged; it requires the thread to be registered under the id, so registration comes before every step |
| AsyncWorker.AsyncBusinessJobTasklet.SaveMarkedTasks | src/main/java/com/example/springbatch/tasklet/AsyncBusinessJobTasklet.java:126 | saving the marked fetched tasks leaves the task table fully processed |
| AsyncWorker.AsyncBusinessJobTasklet.HandleTasks | src/main/java/com/example/springbatch/tasklet/AsyncBusinessJobTasklet.java:121-137 | the run fails iff a sleep failed or the task save throws, and the transaction is marked rollback-only iff the task save threw; only a run that does not fail leaves every fetched task processed, otherwise the task table is unchanged |
| AsyncWorker.AsyncBusinessJobTasklet.ExecuteBusinessLogicAsync | src/main/java/com/example/springbatch/tasklet/AsyncBusinessJobTasklet.java:93-144 | on completion every task unprocessed at fetch time is processed and the record gets the completed status and end time; an interrupted step or failed save gives the failed status with no task processed; the thread is interrupted afterwards iff it was on entry or the stop arrived during the loop; the id leaves both registry maps on every path, and nothing is thrown; the transaction is left rollback-only iff the loop ran to its end and the task save threw |
| AsyncWorker.MarkTasks | src/main/java/com/example/springbatch/tasklet/AsyncBusinessJobTasklet.java:122-125 | each fetched task, in order, is marked processed at the given time |
| AsyncWorker.StopBeforeWorkerStarts | src/main/java/com/example/springbatch/tasklet/AsyncBusinessJobTasklet.java:93-141 | a stop requested before the worker registers is not observed: the run completes and the flag is cleared |
| GenerateBatchId.BatchId | src/main/java/com/example/springbatch/tasklet/GenerateBatchIdTasklet.java:28-30 | BATCH_, 14 timestamp digits, an underscore and 8 hex digits of the UUID: 29 characters |
| GenerateBatchId.BatchIdRoundTrip | src/main/java/com/example/springbatch/tasklet/GenerateBatchIdTasklet.java:28-30 | the timestamp and the UUID prefix can be read back out of the batch id |
| GenerateBatchId.BatchIdCollision | src/main/java/com/example/springbatch/tasklet/GenerateBatchIdTasklet.java:28-30 | two batch ids coincide iff they come from the same second and the same UUID prefix |
| GenerateBatchId.GenerateBatchIdTasklet.Execute | src/main/java/com/example/springbatch/tasklet/GenerateBatchIdTasklet.java:26-50 | saves a CREATED record with the batch id under the next id, then puts batchId and batchExecutionId in the context and returns FINISHED; a stored duplicate batch id makes it throw before the context is written |
| LogStartTime.Started | src/main/java/com/example/springbatch/tasklet/LogStartTimeTasklet.java:38-45 | status STARTED, the start time and the job id are set; batch id, end time, creation time and id are untouched |
| LogStartTime.StartedOverwrites | src/main/java/com/example/springbatch/tasklet/LogStartTimeTasklet.java:39-45 | stamping again overwrites the earlier job id and start time |
| LogStartTime.StepOutcome | src/main/java/com/example/springbatch/tasklet/LogStartTimeTasklet.java:27-52 | succeeds iff batchId is present as a string and batchExecutionId is a long naming a stored record, and then yields that id; otherwise, for each way to fail, exactly the error of the first failing read (absent batchId, wrongly typed batchId, absent batchExecutionId, wrongly typed batchExecutionId), or RecordNotFound naming the missing id |
| LogStartTime.LogStartTimeTasklet.Execute | src/main/java/com/example/springbatch/tasklet/LogStartTimeTasklet.java:25-55 | on success the named record is replaced by its STARTED stamp and FINISHED is returned; on failure it throws and saves nothing |
| ReturnJobId.Finalized | src/main/java/com/example/springbatch/tasklet/ReturnJobIdTasklet.java:43-50 | the job id is set only if it was null; exactly PROCESSING becomes JOB_COMPLETED; nothing else changes |
| ReturnJobId.JobIdSetOnce | src/main/java/com/example/springbatch/tasklet/ReturnJobIdTasklet.java:43-45 | an existing job id is never overwritten |
| ReturnJobId.FinalizedIdempotent | src/main/java/com/example/springbatch/tasklet/ReturnJobIdTasklet.java:43-52 | running step 4 twice on a record gives what running it once gives |
| ReturnJobId.StartedRecordIsNotCompleted | src/main/java/com/example/springbatch/tasklet/ReturnJobIdTasklet.java:48-50 | a record stamped by step 2 passes through step 4 unchanged |
| ReturnJobId.ReturnJobIdTasklet.Execute | src/main/java/com/example/springbatch/tasklet/ReturnJobIdTasklet.java:24-70 | on success the record is finalised and returnedJobId is the job execution id; a missing record (or a failing read) throws with no save and no context write |
| FourStepFlow.InsertedBatchIdTaken | src/main/java/com/example/springbatch/model/BatchExecution.java:17-18 | after an insert under a fresh id, a batch id is taken iff it was before or the new row holds it |
| FourStepFlow.RecordStart | src/main/java/com/example/springbatch/tasklet/LogStartTimeTasklet.java:36-47 | steps 1 and 2: the CREATED record saved under the next id ends STARTED with the job id; step 2 cannot fail after step 1 succeeds; a taken batch id fails step 1 with the duplicate-id error and leaves the table and the context unchanged |
| FourStepFlow.FinishJob | src/main/java/com/example/springbatch/tasklet/ReturnJobIdTasklet.java:38-69 | steps 3 and 4 with the engine's interrupt checks and step 3's commit: succeeds iff the thread starts uninterrupted, the worker's batch id is free, no stop reaches the worker and the task save does not throw; an interrupt status set on entry ends the job before step 3; a throwing task save fails the commit and rolls back the record and task tables and leaves the context as it was; otherwise the worker's record is the only row added, with the status the work decides, and a stop that reached the worker ends the job after step 3 without returnedJobId; a taken worker batch id fails step 3 with the duplicate-id error; the task table ends marked processed exactly when the work completes, and the execution id leaves both registry maps exactly when step 3 runs |
| FourStepFlow.RunFourStepJob | src/main/java/com/example/springbatch/tasklet/ReturnJobIdTasklet.java:38-69 | the flow succeeds iff the thread starts uninterrupted, neither batch id is taken, no stop reaches the worker and the task save does not throw; once step 3 runs, a throwing task save fails step 3's commit and leaves only the step-1 record added; otherwise exactly two records are added, the step-1 record ending STARTED and the worker's COMPLETED or FAILED as the work decides, and the context holds batchId and batchExecutionId, plus returnedJobId unless a stop ended the job after step 3; the task table ends marked processed exactly when step 3 runs and the work completes, and the execution id leaves both registry maps exactly when step 3 runs; a taken step-1 batch id fails the job with that duplicate-id error and changes neither the record table nor the context; a taken worker batch id fails it with that error after the STARTED record and the two context keys are written; an interrupted start changes nothing |
| Jobs.InstancesPage | src/main/java/com/example/springbatch/service/JobService.java:147 | a prefix of the name's instances, of length at most 100 |
| Jobs.InGatherInstances | src/main/java/com/example/springbatch/service/JobService.java:148-151 | an execution is gathered for a list of instances iff it belongs to one of them |
| Jobs.ExecutionsOfInstances | src/main/java/com/example/springbatch/service/JobService.java:148-151 | the inner loop appends the executions of each instance in order, giving the gathered list for those instances |
| Jobs.InGatherNames | src/main/java/com/example/springbatch/service/JobService.java:143-152 | an execution is gathered iff it belongs to one of the first 100 instances of some job name |
| Jobs.GatherRunningEmpty | src/main/java/com/example/springbatch/service/JobService.java:168-177 | the combined running listing is empty iff every name's running set is |
| Jobs.GatherRunningContains | src/main/java/com/example/springbatch/service/JobService.java:171-174 | each name's running executions are contained in the combined listing |
| Jobs.CompareByStartDesc | src/main/java/com/example/springbatch/service/JobService.java:155-160 | non-positive iff the first start is at least the second's, with a null start below every real one; zero iff the keys tie |
| Jobs.ComparatorContract | src/main/java/com/example/springbatch/service/JobService.java:155-160 | the comparator is reflexive, total and transitive, with the sign symmetry of the Comparator contract |
| Jobs.SortedMeaning | src/main/java/com/example/springbatch/service/JobService.java:154-160 | in a sorted listing null start times come after all others, and real start times are non-increasing |
| Jobs.Insert | src/main/java/com/example/springbatch/service/JobService.java:155-160 | inserting into a sorted listing keeps it sorted and adds exactly that element |
| Jobs.SortByStartDesc | src/main/java/com/example/springbatch/service/JobService.java:155-160 | the sort's result is sorted by the comparator and a permutation of its input |
| Jobs.GetAllJobExecutions | src/main/java/com/example/springbatch/service/JobService.java:143-163 | the result is the sorted gathered list: sorted by the comparator and a permutation of the executions of at most the first 100 instances of each job name |
| Jobs.GetRunningJobExecutions | src/main/java/com/example/springbatch/service/JobService.java:168-177 | the running executions of every name, appended in name order; each name's running set is contained in it |
| Jobs.HasRunningJobsFor | src/main/java/com/example/springbatch/service/JobService.java:197-199 | true iff that name has a non-empty running set |
| Jobs.GetRunningJobExecutionsFor | src/main/java/com/example/springbatch/service/JobService.java:179-181 | non-empty iff the name has running jobs; when the name is among the explorer's job names, the result is part of the combined running listing |
| Jobs.HasRunningJobs | src/main/java/com/example/springbatch/service/JobService.java:193-195 | true iff some listed job name has running executions |
| Jobs.GetJob | src/main/java/com/example/springbatch/service/JobService.java:201-207 | the job iff it is registered, otherwise an illegal-argument failure naming it |
| Jobs.StartJob | src/main/java/com/example/springbatch/service/JobService.java:48-56 | the launched execution's id iff the job is known and the launch succeeds; an unknown job fails before launching; launcher exceptions pass through |
| Jobs.StartJobAsync | src/main/java/com/example/springbatch/service/JobService.java:66-79 | same success condition; every failure, an unknown job included, is wrapped exactly once in a runtime failure |
| Jobs.StartJobSync | src/main/java/com/example/springbatch/service/JobService.java:88-100 | same success condition; launcher failures are wrapped, while an unknown job's exception is not caught |
| Jobs.StartVariantsAgree | src/main/java/com/example/springbatch/service/JobService.java:48-100 | the three variants agree on success; async wraps each startJob failure; sync and async differ exactly when the job is unknown |
| Jobs.StartDefaultJob | src/main/java/com/example/springbatch/service/JobService.java:44-46 | starts singleAsyncJob: succeeds iff that job is registered and launched |
| Jobs.StartDefaultJobAsync | src/main/java/com/example/springbatch/service/JobService.java:61-64 | starts singleAsyncJob asynchronously, with the wrapped failure when it is unknown |
| Jobs.StartDefaultJobSync | src/main/java/com/example/springbatch/service/JobService.java:84-86 | starts singleAsyncJob synchronously, with the unwrapped failure when it is unknown |
| Jobs.JobService.StopJob | src/main/java/com/example/springbatch/service/JobService.java:105-138 | false only when no execution exists; a finished execution is accepted without a flag; a running one is the only case where the engine is asked to stop, and its stop flag is already set at that moment; a running execution's registered live thread ends with its interrupt status set; it is accepted whatever the engine answers; any exception sets the flag and accepts |

## Left out

- **Concurrency** is left out: threads, `@Async`, `CompletableFuture`, and the thread safety of the registry's concurrent maps. The worker is invoked through `this`, so it runs synchronously inside step 3. The model reflects that.
- **Concurrent stop requests** arrive only through the input `stopAt`. That input names the step during which a single stop reaches the registry. Several stops, or a stop from inside another run, are not modelled.
- **Clocks and the UUID are parameters.** `LocalDateTime.now()`, `System.currentTimeMillis()` and `UUID.randomUUID()` become inputs. One timestamp stands for all the `now()` calls of a method, except that step 1 formats its id from its own clock reading. `RunFourStepJob` uses one timestamp for the whole flow.
- **Text.FormatTimestamp:** years outside 1..9999 are excluded. The `yyyy` field prints the year of era. A year above 9999 gets a `+` sign and more digits. A year of 0 or below prints as four digits without a sign, so year 0 prints as `0001` and collides with year 1.
- **Task.processed** is a plain boolean. A null `Boolean` in the table is not modelled.
- **Database failures.** The only ones modelled are the unique batch id refusing a save, and the task save failing, which is the input `taskSaveFails`. Failures of the task query, of the record saves inside the worker, and of the status updates are not modelled.
- **JPA managed entities** and their aliasing are not modelled: records are values, and a change reaches the table only through a save.
- **SortByStartDesc:** the in-place `List.sort` (a stable merge sort) is modelled as a function on the list value, built as an insertion sort that keeps ties in order. The contract states sortedness and permutation, but not stability.
- **CompareByStartDesc:** only the sign of `LocalDateTime.compareTo` is modelled, not its magnitude.
- **JobStopManager.GetStoppedJobIds:** returns a snapshot of the key set, not a live view of it.
- **`getJobExecution`** is a direct delegation to the explorer, so it has no model of its own. Its answer is the lookup input of `JobService.StopJob`.
- **Engine decisions** are inputs: job parameters built from the clock, the launcher's decision and the operator's stop answer. The running sets' iteration order is a sequence.
- **Null arguments** to the service methods are not modelled.
- **The four-step job's wiring** is not part of this model. `RunFourStepJob` assumes the steps run in their numbered order and that the first step to throw ends the job.
- **Stores.BatchExecutionRepository.Save:** refusing a record whose id names no row is a modelling choice. Hibernate before 6.6 inserts a copy of such a record under a new identity value; Hibernate 6.6 throws. The core never saves a record with an unknown id, so neither behaviour is reached.
- **FourStepFlow.RunFourStepJob:** of the engine's stop detection, only the tasklet step's check of the thread's interrupt status is modelled. The terminate-only flag that the operator's stop sets on a step execution is not modelled, nor are the job-level status checks between steps.
- **Other parts of the application** are left out: the HTTP controller, the command-line runner, the Spring configuration classes, the logging-only tasklet subclasses, the other repository queries, and all logging and console output.
- **Longs** are unbounded integers, so 64-bit overflow of ids is not modelled.
