/** Jobs: the `Job` entity of API/Schema/Jobs/Job.cs and its subclass
    `MoveFileOrFolderJob` (API/Schema/Jobs/MoveFileOrFolderJob.cs).

    A job is a value; the jobs that exist are held in a `JobArena` keyed by
    job id, and a job refers to other jobs only by id. */
module Jobs {
  import opened Platform

  /** The kinds of job. Of the enumeration only `MoveFileJob` is used by the
      modelled code; every other member is represented by its name. */
  datatype JobType = MoveFileJob | OtherJobType(name: string)

  /** The fields a subclass adds to `Job`. */
  datatype JobDetails =
    | NoDetails
    | MoveFileOrFolder(fromLocation: string, toLocation: string)

  /** A `DateTime`, as milliseconds since the Unix epoch. */
  type Timestamp = int

  const UnixEpoch: Timestamp := 0

  /** A job's state. `returnValue` is an untyped object in C#; here it is
      an optional payload text. */
  datatype Job = Job(
    jobId: string,
    parentJobId: Option<string>,
    dependsOnJobIds: Option<seq<string>>,
    jobType: JobType,
    recurrenceMs: nat,
    lastExecution: Timestamp,
    completed: bool,
    returnValue: Option<string>,
    details: JobDetails)

  /** The initialisers and assignments of the `Job` constructor, before its
      loop over the dependency jobs. The conversion of the recurrence to
      milliseconds throws for a recurrence below -0.5 ms. */
  function NewJob(jobId: string, jobType: JobType, recurrence: Ticks, parentJobId: Option<string> := None,
                  dependsOnJobIds: Option<seq<string>> := None, details: JobDetails := NoDetails)
    : (r: Result<Job, Fault>)
    ensures r.Ok? <==> recurrence >= -TicksPerMillisecond / 2
    ensures r.Err? ==> r.error == Overflow
    ensures r.Ok? ==>
      && r.value.jobId == jobId
      && r.value.parentJobId == parentJobId
      && r.value.dependsOnJobIds == dependsOnJobIds
      && r.value.jobType == jobType
      && r.value.details == details
    ensures r.Ok? ==>
      && r.value.lastExecution == UnixEpoch
      && !r.value.completed
      && r.value.returnValue == None
    ensures r.Ok? ==>
      && r.value.recurrenceMs <= MaxUInt64
      && -TicksPerMillisecond / 2 <= r.value.recurrenceMs * TicksPerMillisecond - recurrence <= TicksPerMillisecond / 2
    ensures recurrence >= 0 && recurrence % TicksPerMillisecond == 0 ==>
      r.Ok? && r.value.recurrenceMs == recurrence / TicksPerMillisecond
  {
    match ToUInt64Milliseconds(recurrence)
    case Err(e) => Err(e)
    case Ok(ms) => Ok(Job(jobId, parentJobId, dependsOnJobIds, jobType, ms, UnixEpoch, false, None, details))
  }

  /** The `Job` constructor as written: the navigation array `DependsOnJobs`
      is never assigned, so the loop over it dereferences null whenever the
      recurrence conversion has not already thrown. No input constructs a job. */
  function NewJobAsWritten(jobId: string, jobType: JobType, recurrence: Ticks, parentJobId: Option<string> := None,
                           dependsOnJobIds: Option<seq<string>> := None, details: JobDetails := NoDetails)
    : (r: Result<Job, Fault>)
    ensures r.Err?
    ensures r.error == NullReference <==> recurrence >= -TicksPerMillisecond / 2
  {
    match NewJob(jobId, jobType, recurrence, parentJobId, dependsOnJobIds, details)
    case Err(e) => Err(e)
    case Ok(_) => Err(NullReference)
  }

  /** `new MoveFileOrFolderJob(from, to, parentJobId, dependsOnJobIds)` with
      the fresh id the token generator supplies: a one-shot move job. */
  function NewMoveFileOrFolderJob(jobId: Token, fromLocation: string, toLocation: string,
                                  parentJobId: Option<string> := None, dependsOnJobIds: Option<seq<string>> := None)
    : (job: Job)
    ensures job.jobType == MoveFileJob
    ensures job.recurrenceMs == 0
    ensures job.details == MoveFileOrFolder(fromLocation, toLocation)
    ensures job.jobId == jobId && |job.jobId| == 64
    ensures job.parentJobId == parentJobId && job.dependsOnJobIds == dependsOnJobIds
    ensures job.lastExecution == UnixEpoch && !job.completed && job.returnValue == None
  {
    NewJob(jobId, MoveFileJob, 0, parentJobId, dependsOnJobIds, MoveFileOrFolder(fromLocation, toLocation)).value
  }

  /** `after` is `before` once every job named in `deps` has been made a child
      of `parentId`: the same ids, the parent rewritten on the named jobs, no
      other field of any job changed, and the jobs not named untouched. */
  ghost predicate Adopts(before: map<string, Job>, after: map<string, Job>, parentId: string, deps: seq<string>) {
    && after.Keys == before.Keys
    && (forall id :: id in after && id in deps ==> after[id].parentJobId == Some(parentId))
    && (forall id :: id in after ==> after[id].(parentJobId := before[id].parentJobId) == before[id])
    && (forall id :: id in after && id !in deps ==> after[id] == before[id])
  }

  /** The jobs of the system, keyed by id. */
  class JobArena {
    var jobs: map<string, Job>

    /** Every job is stored under its own id. */
    ghost predicate Valid()
      reads this
    {
      forall id :: id in jobs ==> jobs[id].jobId == id
    }

    constructor (jobs: map<string, Job>)
      requires forall id :: id in jobs ==> jobs[id].jobId == id
      ensures Valid() && this.jobs == jobs
    {
      this.jobs := jobs;
    }

    /** The `Job` constructor with `DependsOnJobs` resolved through the arena:
        each listed dependency that exists gets the new job as its parent.
        When the recurrence conversion throws, no job is touched. */
    method Construct(jobId: string, jobType: JobType, recurrence: Ticks, parentJobId: Option<string> := None,
                     dependsOnJobIds: Option<seq<string>> := None, details: JobDetails := NoDetails)
      returns (r: Result<Job, Fault>)
      requires Valid()
      modifies this
      ensures Valid()
      ensures r == NewJob(jobId, jobType, recurrence, parentJobId, dependsOnJobIds, details)
      ensures r.Err? ==> jobs == old(jobs)
      ensures r.Ok? ==> Adopts(old(jobs), jobs, jobId, dependsOnJobIds.GetOr([]))
    {
      r := NewJob(jobId, jobType, recurrence, parentJobId, dependsOnJobIds, details);
      if r.Err? {
        return;
      }
      var deps := dependsOnJobIds.GetOr([]);
      var i := 0;
      while i < |deps|
        invariant 0 <= i <= |deps|
        invariant jobs.Keys == old(jobs).Keys
        invariant forall id :: id in jobs ==>
          jobs[id] == if id in deps[..i] then old(jobs)[id].(parentJobId := Some(jobId)) else old(jobs)[id]
      {
        var id := deps[i];
        if id in jobs {
          jobs := jobs[id := jobs[id].(parentJobId := Some(jobId))];
        }
        assert deps[..i + 1] == deps[..i] + [id];
        i := i + 1;
      }
      assert deps[..i] == deps;
    }

    /** `new MoveFileOrFolderJob(...)` together with the base constructor's
        rewrite of its dependencies' parents. */
    method ConstructMoveFileOrFolderJob(jobId: Token, fromLocation: string, toLocation: string,
                                        parentJobId: Option<string> := None,
                                        dependsOnJobIds: Option<seq<string>> := None)
      returns (job: Job)
      requires Valid()
      modifies this
      ensures Valid()
      ensures job == NewMoveFileOrFolderJob(jobId, fromLocation, toLocation, parentJobId, dependsOnJobIds)
      ensures Adopts(old(jobs), jobs, jobId, dependsOnJobIds.GetOr([]))
    {
      var r := Construct(jobId, MoveFileJob, 0, parentJobId, dependsOnJobIds, MoveFileOrFolder(fromLocation, toLocation));
      job := r.value;
    }
  }
}
