/**
 * The two persisted entities: the batch execution record and the task row.
 * Both are mutable beans whose setters overwrite one field; here a bean is a
 * datatype value and a setter call `b.setF(v)` is the update `b.(f := v)`,
 * which changes that one field and no other.
 */
module Model {
  import opened Common

  /** A `java.time.LocalDateTime`, as an instant on a discrete clock. */
  type Timestamp = nat

  /** The status the one-argument constructor gives a new record. */
  const Created := "CREATED"

  /** The status a task built by the three-argument constructor starts in. */
  const Pending := "PENDING"

  /** One row of the `batch_execution` table; every column is nullable. */
  datatype BatchExecution = BatchExecution(
    id: Option<int>,
    batchId: Option<string>,
    jobId: Option<int>,
    startTime: Option<Timestamp>,
    endTime: Option<Timestamp>,
    status: Option<string>,
    createdAt: Option<Timestamp>)

  /** `new BatchExecution()`: only the creation time is set. */
  function NewBatchExecution(now: Timestamp): (r: BatchExecution)
    ensures r.createdAt == Some(now)
    ensures r.id == None && r.batchId == None && r.jobId == None
    ensures r.startTime == None && r.endTime == None && r.status == None
  {
    BatchExecution(None, None, None, None, None, None, Some(now))
  }

  /** `new BatchExecution(batchId)`: the no-argument constructor, then the batch id and status CREATED. */
  function NewBatchExecutionWithBatchId(batchId: string, now: Timestamp): (r: BatchExecution)
    ensures r.batchId == Some(batchId) && r.status == Some(Created) && r.createdAt == Some(now)
    ensures r.id == None && r.jobId == None && r.startTime == None && r.endTime == None
  {
    NewBatchExecution(now).(batchId := Some(batchId), status := Some(Created))
  }

  /** One row of the `task` table. `processed` is initialised to false by its field declaration. */
  datatype Task = Task(
    id: Option<int>,
    taskName: Option<string>,
    description: Option<string>,
    priority: Option<int>,
    status: Option<string>,
    processed: bool,
    processedAt: Option<Timestamp>)

  /** `new Task()`: nothing set except the default `processed = false`. */
  function NewTask(): (t: Task)
    ensures !t.processed && t.processedAt == None && t.status == None
    ensures t.id == None && t.taskName == None && t.description == None && t.priority == None
  {
    Task(None, None, None, None, None, false, None)
  }

  /** `new Task(taskName, description, priority)`: the three fields from the arguments, status PENDING. */
  function NewTaskWith(taskName: Option<string>, description: Option<string>, priority: Option<int>): (t: Task)
    ensures t.taskName == taskName && t.description == description && t.priority == priority
    ensures t.status == Some(Pending)
    ensures !t.processed && t.processedAt == None && t.id == None
  {
    NewTask().(taskName := taskName, description := description, priority := priority, status := Some(Pending))
  }
}
