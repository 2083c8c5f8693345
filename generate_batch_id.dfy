/**
 * Step 1 of the batch flow (`GenerateBatchIdTasklet`): builds the batch id
 * `"BATCH_" + yyyyMMddHHmmss + "_" + first 8 characters of a random UUID`,
 * saves a CREATED record under that id and publishes the batch id and the
 * record's id in the job's execution context.
 */
module GenerateBatchId {
  import opened Common
  import opened Model
  import opened Stores
  import opened StepContext
  import Text

  predicate IsHexDigit(c: char) {
    '0' <= c <= '9' || 'a' <= c <= 'f'
  }

  /** The canonical text of a `java.util.UUID`: 8-4-4-4-12 lower-case hex digits. */
  predicate IsUuidString(u: string) {
    && |u| == 36
    && u[8] == '-' && u[13] == '-' && u[18] == '-' && u[23] == '-'
    && forall i :: 0 <= i < 36 && i != 8 && i != 13 && i != 18 && i != 23 ==> IsHexDigit(u[i])
  }

  /** The shape every generated batch id has. */
  predicate IsBatchId(s: string) {
    && |s| == 29
    && s[..6] == "BATCH_"
    && Text.AllDigits(s[6..20])
    && s[20] == '_'
    && forall i :: 21 <= i < 29 ==> IsHexDigit(s[i])
  }

  /** The id step 1 builds from the clock reading and the random UUID. */
  function BatchId(clock: Text.DateTime, uuid: string): (s: string)
    requires Text.ValidDateTime(clock) && IsUuidString(uuid)
    ensures IsBatchId(s)
  {
    var s := "BATCH_" + Text.FormatTimestamp(clock) + "_" + uuid[..8];
    assert s[6..20] == Text.FormatTimestamp(clock);
    assert forall i :: 21 <= i < 29 ==> s[i] == uuid[i - 21];
    s
  }

  /** Reads the clock reading and the UUID prefix back out of a batch id. */
  function BatchIdParts(s: string): (parts: (Text.DateTime, string))
    requires IsBatchId(s)
    ensures |parts.1| == 8
  {
    (Text.ParseTimestamp(s[6..20]), s[21..29])
  }

  /** The two fields of `"BATCH_" + stamp + "_" + prefix` sit at the offsets `BatchIdParts` reads. */
  lemma BatchIdFields(stamp: string, prefix: string)
    requires |stamp| == 14 && |prefix| == 8
    ensures var s := "BATCH_" + stamp + "_" + prefix;
      s[6..20] == stamp && s[21..29] == prefix
  {
  }

  /** Decoding a generated batch id recovers its timestamp and UUID prefix. */
  lemma BatchIdRoundTrip(clock: Text.DateTime, uuid: string)
    requires Text.ValidDateTime(clock) && IsUuidString(uuid)
    ensures BatchIdParts(BatchId(clock, uuid)) == (clock, uuid[..8])
  {
    var stamp := Text.FormatTimestamp(clock);
    var s := BatchId(clock, uuid);
    assert s == "BATCH_" + stamp + "_" + uuid[..8];
    BatchIdFields(stamp, uuid[..8]);
    Text.TimestampRoundTrip(clock);
    assert Text.ParseTimestamp(s[6..20]) == clock;
  }

  /** Two runs produce the same batch id exactly when they read the same second and the same UUID prefix. */
  lemma BatchIdCollision(c1: Text.DateTime, u1: string, c2: Text.DateTime, u2: string)
    requires Text.ValidDateTime(c1) && IsUuidString(u1)
    requires Text.ValidDateTime(c2) && IsUuidString(u2)
    ensures BatchId(c1, u1) == BatchId(c2, u2) <==> c1 == c2 && u1[..8] == u2[..8]
  {
    if BatchId(c1, u1) == BatchId(c2, u2) {
      BatchIdRoundTrip(c1, u1);
      BatchIdRoundTrip(c2, u2);
    }
  }

  class GenerateBatchIdTasklet {
    const batchExecutionRepository: BatchExecutionRepository

    constructor (batchExecutionRepository: BatchExecutionRepository)
      ensures this.batchExecutionRepository == batchExecutionRepository
    {
      this.batchExecutionRepository := batchExecutionRepository;
    }

    /**
     * `execute`: saves `new BatchExecution(batchId)` and then writes the two context
     * keys. The save is refused, and the step throws before touching the context,
     * when the unique batch id is already stored.
     */
    method Execute(context: ExecutionContext, clock: Text.DateTime, uuid: string, now: Timestamp)
      returns (res: Result<RepeatStatus, StepError>)
      requires batchExecutionRepository.Valid()
      requires Text.ValidDateTime(clock) && IsUuidString(uuid)
      modifies batchExecutionRepository, context
      ensures batchExecutionRepository.Valid()
      ensures res.Err? <==> BatchIdTaken(old(batchExecutionRepository.rows), Some(BatchId(clock, uuid)), None)
      ensures batchExecutionRepository.nextId == old(batchExecutionRepository.nextId) + (if res.Ok? then 1 else 0)
      ensures res.Err? ==> res.error == SaveFailed(DuplicateBatchId(BatchId(clock, uuid)))
      ensures res.Err? ==>
        batchExecutionRepository.rows == old(batchExecutionRepository.rows) && context.entries == old(context.entries)
      ensures res.Ok? ==>
        var id := old(batchExecutionRepository.nextId);
        var batchId := BatchId(clock, uuid);
        && res.value == Finished
        && batchExecutionRepository.rows == old(batchExecutionRepository.rows)[id :=
             NewBatchExecutionWithBatchId(batchId, now).(id := Some(id))]
        && context.entries == old(context.entries)["batchId" := StringValue(batchId)]["batchExecutionId" := LongValue(id)]
    {
      var batchId := BatchId(clock, uuid);
      var batchExecution := NewBatchExecutionWithBatchId(batchId, now);
      var saved := batchExecutionRepository.Save(batchExecution);
      if saved.Err? {
        return Err(SaveFailed(DuplicateBatchId(batchId)));
      }
      context.PutString("batchId", batchId);
      context.PutLong("batchExecutionId", saved.value.id.value);
      res := Ok(Finished);
    }
  }
}
