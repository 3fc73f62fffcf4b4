/** The job queue glue (lib/kueUtils.js): check and queue an event, run a
    queued event with the handler of its kind, and decide when old failed
    jobs are purged. The queue itself is not modelled: saving, the failed
    job lookup and the failed count are inputs. */
module KueUtils {
  import opened Results
  import opened Events
  import opened GitlabHandler
  import opened Workflow
  import opened CreateAction
  import opened ModifyAction
  import opened DeleteAction

  /** Job type used when REDIS_JOB_TYPE is unset or empty. */
  const DefaultJobType: string := "r10k"

  /** `process.env.REDIS_JOB_TYPE || 'r10k'`. */
  function JobType(configured: Option<string>): (r: string)
    ensures r != ""
    ensures Given(configured) ==> r == configured.value
    ensures !Given(configured) ==> r == DefaultJobType
  {
    if Given(configured) then configured.value else DefaultJobType
  }

  const MalformedJob: string :=
    "Job data sent to Redis is not correctly formatted. Either \"pfrepo\", \"reponame\", \"branch\", \"repourl\" or \"type\" properties is not present"

  /** A job as saved in the queue. */
  datatype QueuedJob = QueuedJob(jobType: string, data: EventInfo, attempts: nat, removeOnComplete: bool)

  /** `createJob(eventInfo)`: the five fields the handlers need must be
      truthy (the pusher's name is not checked); the job is saved for one
      attempt and removed once complete; a save error rejects. */
  function CreateJob(info: EventInfo, jobType: string, saveError: Option<string>): (r: Result<QueuedJob, string>)
    ensures r.Ok? <==>
              Given(info.pfrepo) && Given(info.reponame) && Given(info.branch) && Given(info.repourl) && Given(info.kind)
              && saveError.None?
    ensures (!(Given(info.pfrepo) && Given(info.reponame) && Given(info.branch) && Given(info.repourl) && Given(info.kind))
             ==> r == Err(MalformedJob))
    ensures r.Err? && r != Err(MalformedJob) ==> saveError == Some(r.error)
    ensures r.Ok? ==> r.value == QueuedJob(jobType, info, 1, true)
  {
    if !Given(info.pfrepo) || !Given(info.reponame) || !Given(info.branch) || !Given(info.repourl) || !Given(info.kind) then
      Err(MalformedJob)
    else if saveError.Some? then Err(saveError.value)
    else Ok(QueuedJob(jobType, info, 1, true))
  }

  /** Whether a job is queued does not depend on who pushed. */
  lemma PushUserUnchecked(info: EventInfo, pushuser: Option<string>, jobType: string, saveError: Option<string>)
    ensures CreateJob(info.(pushuser := pushuser), jobType, saveError).Ok? <==> CreateJob(info, jobType, saveError).Ok?
    ensures CreateJob(info.(pushuser := pushuser), jobType, saveError).Err? ==>
              CreateJob(info.(pushuser := pushuser), jobType, saveError) == CreateJob(info, jobType, saveError)
  {
  }

  /** The three action handlers. */
  datatype Handler = CreateHandler | ModifyHandler | DeleteHandler

  function UnknownType(kind: Option<string>): string {
    "Unknown event type sent to Redis queue: " + Shown(kind)
  }

  /** The `switch` on the job's event type. */
  function Dispatch(kind: Option<string>): (r: Result<Handler, string>)
    ensures r == Ok(CreateHandler) <==> kind == Some(CreateEvent)
    ensures r == Ok(ModifyHandler) <==> kind == Some(ModifyEvent)
    ensures r == Ok(DeleteHandler) <==> kind == Some(DeleteEvent)
    ensures r.Err? ==> r.error == UnknownType(kind)
  {
    if kind == Some(CreateEvent) then Ok(CreateHandler)
    else if kind == Some(ModifyEvent) then Ok(ModifyHandler)
    else if kind == Some(DeleteEvent) then Ok(DeleteHandler)
    else Err(UnknownType(kind))
  }

  /** The fields the handlers read from the job data, as string
      concatenation shows them. */
  function TargetOf(info: EventInfo): Target {
    Target(Shown(info.branch), Shown(info.reponame), Shown(info.repourl))
  }

  /** The queue's `process` callback: run the handler of the job's kind, or
      fail the job at once with the unknown-type error. */
  function ProcessJob(info: EventInfo, setup: Setup, w: World): (r: Run)
    ensures Dispatch(info.kind).Err? ==> r == Run([], Failure(UnknownType(info.kind)))
    ensures Dispatch(info.kind) == Ok(CreateHandler) ==> r == RunCreate(setup, TargetOf(info), w)
    ensures Dispatch(info.kind) == Ok(ModifyHandler) ==> r == RunModify(setup, TargetOf(info), w)
    ensures Dispatch(info.kind) == Ok(DeleteHandler) ==> r == RunDelete(setup, TargetOf(info), w)
  {
    match Dispatch(info.kind)
    case Err(message) => Run([], Failure(message))
    case Ok(CreateHandler) => RunCreate(setup, TargetOf(info), w)
    case Ok(ModifyHandler) => RunModify(setup, TargetOf(info), w)
    case Ok(DeleteHandler) => RunDelete(setup, TargetOf(info), w)
  }

  /** The purge of old failed jobs: `rangeByState` arguments. */
  datatype Purge = Purge(state: string, from: nat, to: nat, order: string)

  const PurgeThreshold: nat := 30

  /** The `job failed` listener: `lookup` is the outcome of fetching the
      failed job (its type, or an error), `failedCount` the number of failed
      jobs of this app's type. The oldest failed jobs are purged only for a
      job of this app's type and only past the threshold. */
  function OnJobFailed(lookup: Result<string, string>, appJobType: string, failedCount: nat): (r: Option<Purge>)
    ensures r.Some? <==> lookup.Ok? && lookup.value == appJobType && failedCount > PurgeThreshold
    ensures r.Some? ==> r.value == Purge("failed", 0, 20, "asc")
  {
    if lookup.Err? || lookup.value != appJobType then None
    else if failedCount > PurgeThreshold then Some(Purge("failed", 0, 20, "asc"))
    else None
  }

  /** A failed job this app queued leads to a purge exactly past the
      threshold; a job of another type never does. */
  lemma OwnJobsPurge(j: QueuedJob, info: EventInfo, appJobType: string, other: string, failedCount: nat)
    requires CreateJob(info, appJobType, None) == Ok(j)
    requires other != appJobType
    ensures OnJobFailed(Ok(j.jobType), appJobType, failedCount).Some? <==> failedCount > PurgeThreshold
    ensures OnJobFailed(Ok(other), appJobType, failedCount).None?
  {
  }

  /** A push the webhook accepts, with the repository's name and URL and
      the Puppetfile repository given, is queued as is and dispatched to the
      handler of its kind: `create` for a new branch, `delete` for a deleted
      one, `modify` otherwise. */
  lemma DetectedEventDispatch(p: Payload, puppetfileRepo: string, info: EventInfo, jobType: string)
    requires DetectEvent(Some(p), Some(puppetfileRepo)) == Ok(info)
    requires puppetfileRepo != "" && Given(p.repository.name) && Given(p.repository.gitSshUrl) && Given(BranchOf(p))
    ensures CreateJob(info, jobType, None) == Ok(QueuedJob(jobType, info, 1, true))
    ensures Dispatch(info.kind) ==
              Ok(if Created(p) then CreateHandler else if Deleted(p) then DeleteHandler else ModifyHandler)
  {
  }
}
