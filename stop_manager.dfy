/**
 * The cancellation registry (`JobStopManager`): per job execution id a stop
 * flag and the worker thread to interrupt. Threads are opaque handles whose
 * only observable state is whether they are alive and their interrupt status.
 */
module StopManager {

  /** A `java.lang.Thread` as far as the registry and the worker use it. */
  class Thread {
    var alive: bool
    var interrupted: bool

    constructor (alive: bool)
      ensures this.alive == alive && !interrupted
    {
      this.alive := alive;
      interrupted := false;
    }

    /** `Thread.interrupt`: sets the interrupt status. */
    method Interrupt()
      modifies this
      ensures interrupted && alive == old(alive)
    {
      interrupted := true;
    }
  }

  class JobStopManager {
    /** `stopFlags`: execution id to its `AtomicBoolean` stop flag. */
    var stopFlags: map<int, bool>
    /** `jobThreads`: execution id to the thread running it. */
    var jobThreads: map<int, Thread>

    /** A flag, once stored, is true: the registry only ever stores `new AtomicBoolean(true)`. */
    ghost predicate Valid()
      reads this
    {
      forall id :: id in stopFlags ==> stopFlags[id]
    }

    constructor ()
      ensures Valid() && stopFlags == map[] && jobThreads == map[]
    {
      stopFlags := map[];
      jobThreads := map[];
    }

    /** The thread registered for `executionId`, as a frame. */
    function ThreadOf(executionId: int): set<Thread>
      reads this
    {
      if executionId in jobThreads then {jobThreads[executionId]} else {}
    }

    /** `registerJobThread`: records the thread; the flag map is untouched. */
    method RegisterJobThread(executionId: int, thread: Thread)
      requires Valid()
      modifies this
      ensures Valid()
      ensures jobThreads == old(jobThreads)[executionId := thread]
      ensures stopFlags == old(stopFlags)
    {
      jobThreads := jobThreads[executionId := thread];
    }

    /**
     * `setStopFlag`: stores a true flag whether or not a thread is registered,
     * and interrupts the registered thread only if there is one and it is alive.
     */
    method SetStopFlag(executionId: int)
      requires Valid()
      modifies this, ThreadOf(executionId)
      ensures Valid()
      ensures stopFlags == old(stopFlags)[executionId := true]
      ensures jobThreads == old(jobThreads)
      ensures executionId in jobThreads ==>
        var t := jobThreads[executionId];
        t.alive == old(t.alive) && t.interrupted == (old(t.interrupted) || old(t.alive))
    {
      stopFlags := stopFlags[executionId := true];
      if executionId in jobThreads {
        var jobThread := jobThreads[executionId];
        if jobThread.alive {
          jobThread.Interrupt();
        }
      }
    }

    /** `shouldStop`: false when the id has no flag entry, and otherwise the (always true) flag. */
    function ShouldStop(executionId: int): (stop: bool)
      reads this
      requires Valid()
      ensures stop <==> executionId in stopFlags
    {
      executionId in stopFlags && stopFlags[executionId]
    }

    /** `clearStopFlag`: removes the id from both maps. */
    method ClearStopFlag(executionId: int)
      requires Valid()
      modifies this
      ensures Valid()
      ensures stopFlags == old(stopFlags) - {executionId}
      ensures jobThreads == old(jobThreads) - {executionId}
    {
      stopFlags := stopFlags - {executionId};
      jobThreads := jobThreads - {executionId};
    }

    /** `getStoppedJobIds`: exactly the ids for which `shouldStop` answers true. */
    function GetStoppedJobIds(): (ids: set<int>)
      reads this
      requires Valid()
      ensures forall id :: id in ids <==> ShouldStop(id)
    {
      stopFlags.Keys
    }
  }

  /** A stop requested before the worker registers is still observed after it registers. */
  method StopBeforeRegistration(registry: JobStopManager, executionId: int, thread: Thread)
    requires registry.Valid()
    modifies registry, registry.ThreadOf(executionId)
    ensures registry.Valid() && registry.ShouldStop(executionId)
    ensures registry.jobThreads == old(registry.jobThreads)[executionId := thread]
    ensures registry.stopFlags == old(registry.stopFlags)[executionId := true]
  {
    registry.SetStopFlag(executionId);
    registry.RegisterJobThread(executionId, thread);
  }

  /** Requesting a stop twice leaves both maps as one request does. */
  method StopTwice(registry: JobStopManager, executionId: int)
    requires registry.Valid()
    modifies registry, registry.ThreadOf(executionId)
    ensures registry.Valid() && registry.ShouldStop(executionId)
    ensures registry.stopFlags == old(registry.stopFlags)[executionId := true]
    ensures registry.jobThreads == old(registry.jobThreads)
  {
    registry.SetStopFlag(executionId);
    registry.SetStopFlag(executionId);
  }

  /** Clearing twice leaves the same registry as clearing once; afterwards the id is unknown to both maps. */
  method ClearTwice(registry: JobStopManager, executionId: int)
    requires registry.Valid()
    modifies registry
    ensures registry.Valid() && !registry.ShouldStop(executionId)
    ensures executionId !in registry.GetStoppedJobIds() && executionId !in registry.jobThreads
    ensures registry.stopFlags == old(registry.stopFlags) - {executionId}
    ensures registry.jobThreads == old(registry.jobThreads) - {executionId}
  {
    registry.ClearStopFlag(executionId);
    registry.ClearStopFlag(executionId);
  }

  /** Any registry operation on one id leaves the entries of every other id as they were. */
  method OtherIdsUntouched(registry: JobStopManager, executionId: int, other: int, thread: Thread)
    requires registry.Valid() && other != executionId
    modifies registry, registry.ThreadOf(executionId)
    ensures registry.Valid()
    ensures (other in registry.stopFlags) == (other in old(registry.stopFlags))
    ensures (other in registry.jobThreads) == (other in old(registry.jobThreads))
    ensures other in registry.jobThreads ==> registry.jobThreads[other] == old(registry.jobThreads[other])
  {
    registry.SetStopFlag(executionId);
    registry.RegisterJobThread(executionId, thread);
    registry.ClearStopFlag(executionId);
  }
}
