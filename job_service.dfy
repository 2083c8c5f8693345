/**
 * `JobService`: the façade over the batch engine. The engine's answers (job
 * names, instance pages, executions, running sets, launch and stop outcomes)
 * are inputs; the service's own logic is the gathering and ordering of the
 * listings, the start overloads' error handling, and the stop decision with
 * its side effect on the cancellation registry.
 */
module Jobs {
  import opened Common
  import opened Model
  import opened StopManager

  /** The job the no-argument start overloads launch. */
  const DefaultJobName := "singleAsyncJob"

  /** `getJobInstances(jobName, 0, 100)`: the page size of the listing. */
  const InstancePageSize := 100

  /** A job execution as the listings see it: its id and its (nullable) start time. */
  datatype JobExecution = JobExecution(id: int, startTime: Option<Timestamp>)

  /**
   * What the `JobExplorer` answers: the job names in order, each name's instance
   * ids in the order the explorer pages them, each instance's executions, and
   * each name's running executions in their set's iteration order.
   */
  datatype JobExplorer = JobExplorer(
    jobNames: seq<string>,
    instances: map<string, seq<int>>,
    executions: map<int, seq<JobExecution>>,
    running: map<string, seq<JobExecution>>)

  function InstancesOf(explorer: JobExplorer, jobName: string): seq<int> {
    if jobName in explorer.instances then explorer.instances[jobName] else []
  }

  function ExecutionsOf(explorer: JobExplorer, instance: int): seq<JobExecution> {
    if instance in explorer.executions then explorer.executions[instance] else []
  }

  function RunningOf(explorer: JobExplorer, jobName: string): seq<JobExecution> {
    if jobName in explorer.running then explorer.running[jobName] else []
  }

  /** `getJobInstances(jobName, 0, 100)`: the first page of at most 100 instances. */
  function InstancesPage(explorer: JobExplorer, jobName: string): (page: seq<int>)
    ensures page <= InstancesOf(explorer, jobName)
    ensures |page| == if |InstancesOf(explorer, jobName)| < InstancePageSize then |InstancesOf(explorer, jobName)| else InstancePageSize
  {
    var all := InstancesOf(explorer, jobName);
    if |all| <= InstancePageSize then all else all[..InstancePageSize]
  }

  // ---------------------------------------------------------------- gathering

  /** The executions of the given instances, appended in order. */
  function GatherInstances(explorer: JobExplorer, ids: seq<int>): seq<JobExecution> {
    if ids == [] then []
    else GatherInstances(explorer, ids[..|ids| - 1]) + ExecutionsOf(explorer, ids[|ids| - 1])
  }

  /** The executions of the first page of instances of each given name, appended in order. */
  function GatherNames(explorer: JobExplorer, names: seq<string>): seq<JobExecution> {
    if names == [] then []
    else GatherNames(explorer, names[..|names| - 1]) + GatherInstances(explorer, InstancesPage(explorer, names[|names| - 1]))
  }

  lemma GatherInstancesNext(explorer: JobExplorer, ids: seq<int>, m: nat)
    requires m < |ids|
    ensures GatherInstances(explorer, ids[..m + 1]) == GatherInstances(explorer, ids[..m]) + ExecutionsOf(explorer, ids[m])
  {
    assert ids[..m + 1][..m] == ids[..m];
  }

  lemma GatherNamesNext(explorer: JobExplorer, names: seq<string>, n: nat)
    requires n < |names|
    ensures GatherNames(explorer, names[..n + 1]) ==
      GatherNames(explorer, names[..n]) + GatherInstances(explorer, InstancesPage(explorer, names[n]))
  {
    assert names[..n + 1][..n] == names[..n];
  }

  /** `x` is an execution of one of the first 100 instances of `jobName`. */
  ghost predicate ListedUnder(explorer: JobExplorer, jobName: string, x: JobExecution) {
    exists j :: 0 <= j < |InstancesPage(explorer, jobName)| && x in ExecutionsOf(explorer, InstancesPage(explorer, jobName)[j])
  }

  lemma {:induction false} InGatherInstances(explorer: JobExplorer, ids: seq<int>, x: JobExecution)
    ensures x in GatherInstances(explorer, ids) <==> exists j :: 0 <= j < |ids| && x in ExecutionsOf(explorer, ids[j])
  {
    if ids != [] {
      var init := ids[..|ids| - 1];
      InGatherInstances(explorer, init, x);
      assert forall j :: 0 <= j < |init| ==> init[j] == ids[j];
    }
  }

  /** An execution is gathered exactly when it belongs to one of the first 100 instances of some listed name. */
  lemma {:induction false} InGatherNames(explorer: JobExplorer, names: seq<string>, x: JobExecution)
    ensures x in GatherNames(explorer, names) <==> exists i :: 0 <= i < |names| && ListedUnder(explorer, names[i], x)
  {
    if names != [] {
      var init := names[..|names| - 1];
      InGatherNames(explorer, init, x);
      InGatherInstances(explorer, InstancesPage(explorer, names[|names| - 1]), x);
      assert forall i :: 0 <= i < |init| ==> init[i] == names[i];
    }
  }

  /** The running executions of the given names, appended in order. */
  function GatherRunning(explorer: JobExplorer, names: seq<string>): seq<JobExecution> {
    if names == [] then []
    else GatherRunning(explorer, names[..|names| - 1]) + RunningOf(explorer, names[|names| - 1])
  }

  /** The combined running listing is empty exactly when every name's running set is. */
  lemma {:induction false} GatherRunningEmpty(explorer: JobExplorer, names: seq<string>)
    ensures GatherRunning(explorer, names) == [] <==> forall i :: 0 <= i < |names| ==> RunningOf(explorer, names[i]) == []
  {
    if names != [] {
      var init := names[..|names| - 1];
      GatherRunningEmpty(explorer, init);
      assert forall i :: 0 <= i < |init| ==> init[i] == names[i];
    }
  }

  /** Each listed name's running executions are all part of the combined running listing. */
  lemma {:induction false} GatherRunningContains(explorer: JobExplorer, names: seq<string>, jobName: string)
    requires jobName in names
    ensures multiset(RunningOf(explorer, jobName)) <= multiset(GatherRunning(explorer, names))
  {
    var init := names[..|names| - 1];
    if names[|names| - 1] != jobName {
      assert jobName in init by {
        var i :| 0 <= i < |names| && names[i] == jobName;
        assert init[i] == jobName;
      }
      GatherRunningContains(explorer, init, jobName);
    }
  }

  // ---------------------------------------------------------------- ordering

  /** The order key: a start time, with a null start time below every real one. */
  function StartKey(x: JobExecution): int {
    if x.startTime.None? then -1 else x.startTime.value
  }

  /** `LocalDateTime.compareTo`, by its sign. */
  function CompareTimes(x: Timestamp, y: Timestamp): int {
    if x < y then -1 else if x == y then 0 else 1
  }

  /** The listing's comparator: both null is a tie, a null start sorts last, otherwise the later start first. */
  function CompareByStartDesc(a: JobExecution, b: JobExecution): (r: int)
    ensures r <= 0 <==> StartKey(a) >= StartKey(b)
    ensures r == 0 <==> StartKey(a) == StartKey(b)
  {
    if a.startTime.None? && b.startTime.None? then 0
    else if a.startTime.None? then 1
    else if b.startTime.None? then -1
    else CompareTimes(b.startTime.value, a.startTime.value)
  }

  /** The comparator is a total preorder with the sign symmetry the `Comparator` contract asks for. */
  lemma ComparatorContract(a: JobExecution, b: JobExecution, c: JobExecution)
    ensures CompareByStartDesc(a, a) == 0
    ensures CompareByStartDesc(a, b) <= 0 || CompareByStartDesc(b, a) <= 0
    ensures CompareByStartDesc(a, b) <= 0 && CompareByStartDesc(b, c) <= 0 ==> CompareByStartDesc(a, c) <= 0
    ensures (CompareByStartDesc(a, b) < 0 <==> CompareByStartDesc(b, a) > 0)
    ensures (CompareByStartDesc(a, b) == 0 <==> CompareByStartDesc(b, a) == 0)
  {
  }

  /** Ordered by the comparator: no later element should come before an earlier one. */
  predicate SortedByStartDesc(s: seq<JobExecution>) {
    forall i, j :: 0 <= i < j < |s| ==> CompareByStartDesc(s[i], s[j]) <= 0
  }

  /** What a listing sorted by the comparator looks like: null start times last, the rest newest first. */
  lemma SortedMeaning(s: seq<JobExecution>)
    requires SortedByStartDesc(s)
    ensures forall i, j :: 0 <= i < j < |s| && s[i].startTime.None? ==> s[j].startTime.None?
    ensures forall i, j :: 0 <= i < j < |s| && s[i].startTime.Some? && s[j].startTime.Some? ==>
      s[i].startTime.value >= s[j].startTime.value
  {
    forall i, j | 0 <= i < j < |s|
      ensures StartKey(s[i]) >= StartKey(s[j])
    {
      assert CompareByStartDesc(s[i], s[j]) <= 0;
    }
  }

  /** Inserts `x` before the first element it does not sort after, so ties keep their order. */
  function Insert(x: JobExecution, s: seq<JobExecution>): (r: seq<JobExecution>)
    requires SortedByStartDesc(s)
    ensures SortedByStartDesc(r)
    ensures multiset(r) == multiset(s) + multiset{x}
  {
    if s == [] then [x]
    else if CompareByStartDesc(x, s[0]) <= 0 then
      assert forall j :: 0 <= j < |s| ==> StartKey(s[0]) >= StartKey(s[j]) by {
        forall j | 0 < j < |s| ensures StartKey(s[0]) >= StartKey(s[j]) {
          assert CompareByStartDesc(s[0], s[j]) <= 0;
        }
      }
      [x] + s
    else
      var rest := Insert(x, s[1..]);
      InsertHead(x, s, rest);
      [s[0]] + rest
  }

  /** The head of a sorted list stays first when `x` sorts after it and goes into the tail. */
  lemma InsertHead(x: JobExecution, s: seq<JobExecution>, rest: seq<JobExecution>)
    requires s != [] && SortedByStartDesc(s)
    requires CompareByStartDesc(x, s[0]) > 0
    requires SortedByStartDesc(rest) && multiset(rest) == multiset(s[1..]) + multiset{x}
    ensures SortedByStartDesc([s[0]] + rest)
    ensures multiset([s[0]] + rest) == multiset(s) + multiset{x}
  {
    forall j | 0 <= j < |rest|
      ensures CompareByStartDesc(s[0], rest[j]) <= 0
    {
      assert rest[j] in multiset(rest);
      if rest[j] != x {
        assert rest[j] in multiset(s[1..]);
        var k :| 0 <= k < |s[1..]| && s[1..][k] == rest[j];
        assert CompareByStartDesc(s[0], s[k + 1]) <= 0;
      }
    }
    assert s == [s[0]] + s[1..];
  }

  /** The listing's sort, an insertion sort that keeps ties in their gathered order. */
  function SortByStartDesc(s: seq<JobExecution>): (r: seq<JobExecution>)
    ensures SortedByStartDesc(r)
    ensures multiset(r) == multiset(s)
  {
    if s == [] then []
    else
      assert s == [s[0]] + s[1..];
      Insert(s[0], SortByStartDesc(s[1..]))
  }

  // ---------------------------------------------------------------- listings

  /**
   * `getAllJobExecutions`: the executions of the first 100 instances of every job name,
   * gathered in order, then sorted newest start first with null start times last.
   */
  method GetAllJobExecutions(explorer: JobExplorer) returns (all: seq<JobExecution>)
    ensures all == SortByStartDesc(GatherNames(explorer, explorer.jobNames))
    ensures SortedByStartDesc(all)
    ensures multiset(all) == multiset(GatherNames(explorer, explorer.jobNames))
  {
    var allExecutions := [];
    var names := explorer.jobNames;
    for n := 0 to |names|
      invariant allExecutions == GatherNames(explorer, names[..n])
    {
      var executions := ExecutionsOfInstances(explorer, InstancesPage(explorer, names[n]));
      GatherNamesNext(explorer, names, n);
      allExecutions := allExecutions + executions;
    }
    assert names[..|names|] == names;
    all := SortByStartDesc(allExecutions);
  }

  /** The inner loop of `getAllJobExecutions`: each instance's executions, appended in order. */
  method ExecutionsOfInstances(explorer: JobExplorer, jobInstances: seq<int>) returns (executions: seq<JobExecution>)
    ensures executions == GatherInstances(explorer, jobInstances)
  {
    executions := [];
    for m := 0 to |jobInstances|
      invariant executions == GatherInstances(explorer, jobInstances[..m])
    {
      GatherInstancesNext(explorer, jobInstances, m);
      executions := executions + ExecutionsOf(explorer, jobInstances[m]);
    }
    assert jobInstances[..|jobInstances|] == jobInstances;
  }

  /** `getRunningJobExecutions()`: every name's running executions, appended in name order. */
  method GetRunningJobExecutions(explorer: JobExplorer) returns (all: seq<JobExecution>)
    ensures all == GatherRunning(explorer, explorer.jobNames)
    ensures forall i :: 0 <= i < |explorer.jobNames| ==>
      multiset(RunningOf(explorer, explorer.jobNames[i])) <= multiset(all)
  {
    var allRunningExecutions := [];
    var names := explorer.jobNames;
    for n := 0 to |names|
      invariant allRunningExecutions == GatherRunning(explorer, names[..n])
    {
      assert names[..n + 1][..n] == names[..n];
      allRunningExecutions := allRunningExecutions + RunningOf(explorer, names[n]);
    }
    assert names[..|names|] == names;
    all := allRunningExecutions;
    forall i | 0 <= i < |names|
      ensures multiset(RunningOf(explorer, names[i])) <= multiset(all)
    {
      GatherRunningContains(explorer, names, names[i]);
    }
  }

  /** `hasRunningJobs(jobName)`: whether that one name has a running execution. */
  function HasRunningJobsFor(explorer: JobExplorer, jobName: string): (b: bool)
    ensures b <==> jobName in explorer.running && explorer.running[jobName] != []
  {
    RunningOf(explorer, jobName) != []
  }

  /** `getRunningJobExecutions(jobName)`: one name's running executions, part of the combined listing. */
  function GetRunningJobExecutionsFor(explorer: JobExplorer, jobName: string): (r: seq<JobExecution>)
    ensures r != [] <==> HasRunningJobsFor(explorer, jobName)
    ensures jobName in explorer.jobNames ==> multiset(r) <= multiset(GatherRunning(explorer, explorer.jobNames))
  {
    assert jobName in explorer.jobNames ==>
      multiset(RunningOf(explorer, jobName)) <= multiset(GatherRunning(explorer, explorer.jobNames)) by {
      if jobName in explorer.jobNames {
        GatherRunningContains(explorer, explorer.jobNames, jobName);
      }
    }
    RunningOf(explorer, jobName)
  }

  /** `hasRunningJobs()`: some listed job name has a running execution. */
  method HasRunningJobs(explorer: JobExplorer) returns (b: bool)
    ensures b <==> exists i :: 0 <= i < |explorer.jobNames| && HasRunningJobsFor(explorer, explorer.jobNames[i])
  {
    var running := GetRunningJobExecutions(explorer);
    GatherRunningEmpty(explorer, explorer.jobNames);
    b := running != [];
  }

  // ---------------------------------------------------------------- starting

  /** The checked exceptions `JobLauncher.run` declares. */
  datatype LaunchError = AlreadyRunning | RestartRefused | AlreadyComplete | InvalidParameters

  /** What the launcher does with the job: an execution id, or a refusal. */
  datatype LaunchOutcome = Launched(executionId: int) | Rejected(error: LaunchError)

  /** How a start fails, as the caller sees it. */
  datatype JobError =
    | UnknownJob(jobName: string)           // the IllegalArgumentException of `getJob`
    | LaunchFailed(error: LaunchError)       // a launcher exception passed through
    | RuntimeFailure(cause: JobError)        // a RuntimeException wrapping the cause

  /** `getJob`: the registered job of that name; any lookup failure becomes an illegal argument. A job is named by its name. */
  function GetJob(registry: set<string>, jobName: string): (r: Result<string, JobError>)
    ensures r.Ok? <==> jobName in registry
    ensures r.Ok? ==> r.value == jobName
    ensures r.Err? ==> r.error == UnknownJob(jobName)
  {
    if jobName in registry then Ok(jobName) else Err(UnknownJob(jobName))
  }

  /** `startJob(jobName)`: the launched execution's id; an unknown job is refused before the launcher runs. */
  function StartJob(registry: set<string>, jobName: string, launch: LaunchOutcome): (r: Result<int, JobError>)
    ensures r.Ok? <==> jobName in registry && launch.Launched?
    ensures r.Ok? ==> r.value == launch.executionId
    ensures jobName !in registry ==> r == Err(UnknownJob(jobName))
    ensures jobName in registry && launch.Rejected? ==> r == Err(LaunchFailed(launch.error))
  {
    match GetJob(registry, jobName)
    case Err(e) => Err(e)
    case Ok(job) =>
      match launch
      case Launched(id) => Ok(id)
      case Rejected(e) => Err(LaunchFailed(e))
  }

  /** `startJobAsync(jobName)`: every failure, an unknown job included, is wrapped in one runtime exception. */
  function StartJobAsync(registry: set<string>, jobName: string, launch: LaunchOutcome): (r: Result<int, JobError>)
    ensures r.Ok? <==> jobName in registry && launch.Launched?
    ensures r.Ok? ==> r.value == launch.executionId
    ensures r.Err? ==> r.error.RuntimeFailure? && !r.error.cause.RuntimeFailure?
    ensures jobName !in registry ==> r == Err(RuntimeFailure(UnknownJob(jobName)))
  {
    match StartJob(registry, jobName, launch)
    case Ok(id) => Ok(id)
    case Err(e) => Err(RuntimeFailure(e))
  }

  /** `startJobSync(jobName)`: launcher failures are wrapped; the unknown-job exception is not caught. */
  function StartJobSync(registry: set<string>, jobName: string, launch: LaunchOutcome): (r: Result<int, JobError>)
    ensures r.Ok? <==> jobName in registry && launch.Launched?
    ensures r.Ok? ==> r.value == launch.executionId
    ensures jobName !in registry ==> r == Err(UnknownJob(jobName))
    ensures jobName in registry && launch.Rejected? ==> r == Err(RuntimeFailure(LaunchFailed(launch.error)))
  {
    match GetJob(registry, jobName)
    case Err(e) => Err(e)
    case Ok(job) =>
      match launch
      case Launched(id) => Ok(id)
      case Rejected(e) => Err(RuntimeFailure(LaunchFailed(e)))
  }

  /**
   * The three start variants agree on success; the asynchronous one wraps every failure
   * once, and it differs from the synchronous one exactly when the job name is unknown.
   */
  lemma StartVariantsAgree(registry: set<string>, jobName: string, launch: LaunchOutcome)
    ensures StartJob(registry, jobName, launch).Ok? == StartJobAsync(registry, jobName, launch).Ok?
    ensures StartJob(registry, jobName, launch).Ok? == StartJobSync(registry, jobName, launch).Ok?
    ensures StartJob(registry, jobName, launch).Err? ==>
      StartJobAsync(registry, jobName, launch).error == RuntimeFailure(StartJob(registry, jobName, launch).error)
    ensures StartJobSync(registry, jobName, launch) == StartJobAsync(registry, jobName, launch) <==> jobName in registry
  {
  }

  /** `startJob()`: the default job. */
  function StartDefaultJob(registry: set<string>, launch: LaunchOutcome): (r: Result<int, JobError>)
    ensures r.Ok? <==> DefaultJobName in registry && launch.Launched?
    ensures DefaultJobName !in registry ==> r == Err(UnknownJob(DefaultJobName))
  {
    StartJob(registry, DefaultJobName, launch)
  }

  /** `startJobAsync()`: the default job. */
  function StartDefaultJobAsync(registry: set<string>, launch: LaunchOutcome): (r: Result<int, JobError>)
    ensures r.Ok? <==> DefaultJobName in registry && launch.Launched?
    ensures DefaultJobName !in registry ==> r == Err(RuntimeFailure(UnknownJob(DefaultJobName)))
  {
    StartJobAsync(registry, DefaultJobName, launch)
  }

  /** `startJobSync()`: the default job. */
  function StartDefaultJobSync(registry: set<string>, launch: LaunchOutcome): (r: Result<int, JobError>)
    ensures r.Ok? <==> DefaultJobName in registry && launch.Launched?
    ensures DefaultJobName !in registry ==> r == Err(UnknownJob(DefaultJobName))
  {
    StartJobSync(registry, DefaultJobName, launch)
  }

  // ---------------------------------------------------------------- stopping

  /** What looking the execution up yields: nothing, an execution with its running status, or an exception. */
  datatype ExecutionLookup = NoExecution | Found(running: bool) | LookupFailed

  /** What `JobOperator.stop` does: answers whether it stopped the job, or throws. */
  datatype OperatorStop = StopAnswered(stopped: bool) | StopFailed

  class JobService {
    const jobStopManager: JobStopManager

    constructor (jobStopManager: JobStopManager)
      ensures this.jobStopManager == jobStopManager
    {
      this.jobStopManager := jobStopManager;
    }

    /**
     * `stopJob`: refuses only when no execution exists. A finished execution is
     * accepted untouched; a running one gets its stop flag (interrupting its
     * registered thread) before the engine is asked to stop it, whatever the engine
     * answers; an exception anywhere is answered by setting the flag and accepting.
     */
    method StopJob(executionId: int, lookup: ExecutionLookup, engineStop: OperatorStop)
      returns (accepted: bool, ghost engineAsked: bool, ghost flagAtEngineStop: bool)
      requires jobStopManager.Valid()
      modifies jobStopManager, jobStopManager.ThreadOf(executionId)
      ensures jobStopManager.Valid()
      ensures accepted <==> !lookup.NoExecution?
      ensures var flagged := lookup.LookupFailed? || lookup == Found(true);
        && jobStopManager.stopFlags == (if flagged then old(jobStopManager.stopFlags)[executionId := true]
                                        else old(jobStopManager.stopFlags))
        && (!flagged ==> unchanged(old(jobStopManager.ThreadOf(executionId))))
      ensures jobStopManager.jobThreads == old(jobStopManager.jobThreads)
      ensures executionId in jobStopManager.jobThreads && (lookup.LookupFailed? || lookup == Found(true)) ==>
        var t := jobStopManager.jobThreads[executionId];
        t.alive == old(t.alive) && t.interrupted == (old(t.interrupted) || old(t.alive))
      ensures engineAsked <==> lookup == Found(true)
      ensures engineAsked ==> flagAtEngineStop
    {
      engineAsked, flagAtEngineStop := false, false;
      match lookup
      case NoExecution =>
        accepted := false;
      case Found(running) =>
        if !running {
          accepted := true;
        } else {
          jobStopManager.SetStopFlag(executionId);
          // The engine's stop is asked for here, with the flag as it now stands.
          engineAsked, flagAtEngineStop := true, jobStopManager.ShouldStop(executionId);
          if engineStop.StopFailed? {
            // The catch block sets the flag again.
            jobStopManager.SetStopFlag(executionId);
          }
          accepted := true;
        }
      case LookupFailed =>
        jobStopManager.SetStopFlag(executionId);
        accepted := true;
    }
  }
}
