/**
 * What a tasklet sees of the engine: the job execution's string-keyed
 * execution context, the `RepeatStatus` a step returns, and the exceptions
 * a step can end with.
 */
module StepContext {
  import opened Common
  import Stores

  /** The value kinds the tasklets put into the context (`putString`, `putLong`). */
  datatype ContextValue = StringValue(s: string) | LongValue(n: int)

  /** What a tasklet tells the engine when it returns normally. */
  datatype RepeatStatus = Finished | Continuable

  /**
   * The exceptions a step can end with. A typed context read that finds no value
   * (`MissingContextValue`) or a value of another type (`WrongContextType`) throws
   * the same `ClassCastException`; the two are kept apart to say which case it was.
   */
  datatype StepError =
    | MissingContextValue(key: string)
    | WrongContextType(key: string)
    | RecordNotFound(batchExecutionId: int)
    | SaveFailed(cause: Stores.StoreError)
    | JobInterrupted                      // the engine found the step's thread interrupted
    | CommitFailed                        // the step's transaction was marked rollback-only

  class ExecutionContext {
    var entries: map<string, ContextValue>

    constructor (initial: map<string, ContextValue>)
      ensures entries == initial
    {
      entries := initial;
    }

    method PutString(key: string, value: string)
      modifies this
      ensures entries == old(entries)[key := StringValue(value)]
    {
      entries := entries[key := StringValue(value)];
    }

    method PutLong(key: string, value: int)
      modifies this
      ensures entries == old(entries)[key := LongValue(value)]
    {
      entries := entries[key := LongValue(value)];
    }

    /** `getString`, which validates the value's type: an absent key fails, as does a value of another type. */
    function GetString(key: string): (r: Result<string, StepError>)
      reads this
      ensures r.Ok? <==> key in entries && entries[key].StringValue?
      ensures r.Ok? ==> r.value == entries[key].s
      ensures key !in entries ==> r == Err(MissingContextValue(key))
    {
      if key !in entries then Err(MissingContextValue(key))
      else if entries[key].StringValue? then Ok(entries[key].s)
      else Err(WrongContextType(key))
    }

    /** `getLong`, which validates the value's type: an absent key fails, as does a value of another type. */
    function GetLong(key: string): (r: Result<int, StepError>)
      reads this
      ensures r.Ok? <==> key in entries && entries[key].LongValue?
      ensures r.Ok? ==> r.value == entries[key].n
      ensures key !in entries ==> r == Err(MissingContextValue(key))
    {
      if key !in entries then Err(MissingContextValue(key))
      else if entries[key].LongValue? then Ok(entries[key].n)
      else Err(WrongContextType(key))
    }
  }
}
