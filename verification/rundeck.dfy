/** The Rundeck job trigger (lib/r10k/rundeck.js): check the deployment
    request, pick the job and its argument string, launch it, then poll the
    execution until it is no longer running. HTTP and XML parsing are not
    modelled: the launch response and the poll responses are inputs, the
    poll responses as a finite script. */
module Rundeck {
  import opened Results
  import opened Text
  import opened Events

  /** The environment `runJob` reads: RD_BASEURL, RD_API_VERSION,
      RD_API_TOKEN, RD_API_JOB_ENV_ID, RD_API_JOB_MOD_ID, RD_PROJECT_NAME. */
  datatype Env = Env(baseUrl: string, apiVersion: string, token: string,
                     envJobId: string, modJobId: string, project: string)

  /** The object the action handlers pass: `{branch, module, type}`; a field
      may be absent. */
  datatype DeployInfo = DeployInfo(kind: Option<string>, branch: Option<string>, moduleName: Option<string>)

  const DeployEnv: string := "deploy_env"
  const DeployMod: string := "deploy_mod"

  const MissingInfo: string := "Missing information in input parameter used for Rundeck API"
  const WrongType: string := "Wrong event type. Impossible to build a proper call to Rundeck API"

  /** The job to run and its `argString`. */
  datatype JobCall = JobCall(jobId: string, argString: string)

  function EnvArgs(branch: string): string {
    "-r10k_env " + branch
  }

  function ModArgs(branch: string, moduleName: string): string {
    EnvArgs(branch) + " -r10k_module " + moduleName
  }

  /** The input check and the job selection, before any request. */
  function SelectJob(env: Env, info: DeployInfo): (r: Result<JobCall, string>)
    ensures !(Given(info.kind) && Given(info.branch) && Given(info.moduleName)) <==> r == Err(MissingInfo)
    ensures r.Ok? <==> Given(info.branch) && Given(info.moduleName) && info.kind in {Some(DeployEnv), Some(DeployMod)}
    ensures r.Ok? && info.kind == Some(DeployEnv) ==> r.value.jobId == env.envJobId
    ensures r.Ok? && info.kind == Some(DeployMod) ==> r.value.jobId == env.modJobId
    ensures r.Ok? ==> StartsWith(r.value.argString, "-r10k_env " + info.branch.value)
    ensures r.Err? && r != Err(MissingInfo) ==> r == Err(WrongType)
  {
    if !Given(info.kind) || !Given(info.branch) || !Given(info.moduleName) then Err(MissingInfo)
    else if info.kind.value == DeployEnv then Ok(JobCall(env.envJobId, EnvArgs(info.branch.value)))
    else if info.kind.value == DeployMod then Ok(JobCall(env.modJobId, ModArgs(info.branch.value, info.moduleName.value)))
    else Err(WrongType)
  }

  /** The argument strings read back as Rundeck's option words when the
      branch and module names have no blank. */
  lemma ArgWords(branch: string, moduleName: string)
    requires ' ' !in branch && ' ' !in moduleName
    ensures Split(EnvArgs(branch), ' ') == ["-r10k_env", branch]
    ensures Split(ModArgs(branch, moduleName), ' ') == ["-r10k_env", branch, "-r10k_module", moduleName]
  {
    assert EnvArgs(branch) == "-r10k_env" + " " + branch;
    Words2("-r10k_env", branch);
    assert ModArgs(branch, moduleName) == "-r10k_env" + " " + branch + " " + "-r10k_module" + " " + moduleName;
    Words4("-r10k_env", branch, "-r10k_module", moduleName);
  }

  /** One HTTP request: method, base URL, URI and the `argString` form
      field when there is one. */
  datatype Request = Request(verb: string, baseUrl: string, uri: string, form: Option<string>)

  function ApiBase(env: Env): string {
    env.baseUrl + "/api/" + env.apiVersion
  }

  function LaunchRequest(env: Env, call: JobCall): Request {
    Request("POST", ApiBase(env), "/job/" + call.jobId + "/run?authtoken=" + env.token, Some(call.argString))
  }

  function StatusRequest(env: Env, executionId: string): Request {
    Request("GET", ApiBase(env), "/execution/" + executionId + "?authtoken=" + env.token, None)
  }

  /** The launch response: HTTP status and the execution id in its body. */
  datatype Launched = Launched(code: nat, executionId: string)

  /** A poll response: HTTP status and the execution status in its body. */
  datatype Polled = Polled(code: nat, status: string)

  const Running: string := "running"
  const Succeeded: string := "succeeded"

  /** How `runJob` ends: it returns the final status, throws, or (when the
      script of responses runs out while the job still runs) has not ended. */
  datatype Outcome = Done(status: string) | Thrown(message: string) | StillRunning

  function LaunchError(code: nat): string {
    "API call returned a " + NatToString(code) + " when trying to launch the job"
  }

  function StatusError(code: nat): string {
    "API call returned a " + NatToString(code) + " when trying to check job execution status"
  }

  /** Where the job's logs are shown. */
  function LogUrl(env: Env, executionId: string): string {
    env.baseUrl + "/project/" + env.project + "/execution/show/" + executionId
  }

  function LogUrlError(env: Env, executionId: string, status: string): (r: string)
    ensures EndsWith(r, LogUrl(env, executionId))
  {
    var head := "Job execution " + status + ". Check the following URL for job logs: ";
    assert head + LogUrl(env, executionId) == "Job execution " + status + ". Check the following URL for job logs: "
      + env.baseUrl + "/project/" + env.project + "/execution/show/" + executionId;
    head + LogUrl(env, executionId)
  }

  /** A response after which the loop does not poll again: an HTTP error,
      or a status other than `running`. */
  predicate Stops(p: Polled) {
    p.code != 200 || p.status != Running
  }

  /** The index of the first stopping response at or after `i`, or the
      script's length when there is none. */
  function FirstStop(script: seq<Polled>, i: nat): (r: nat)
    requires i <= |script|
    ensures i <= r <= |script|
    ensures forall j :: i <= j < r ==> !Stops(script[j])
    ensures r < |script| ==> Stops(script[r])
    decreases |script| - i
  {
    if i == |script| || Stops(script[i]) then i else FirstStop(script, i + 1)
  }

  /** What the response that ends the polling makes of the run. */
  function Terminal(env: Env, executionId: string, p: Polled): (r: Outcome)
    requires Stops(p)
    ensures r.Done? <==> p.code == 200 && p.status == Succeeded
    ensures r.Done? ==> r.status == Succeeded
    ensures p.code != 200 ==> r == Thrown(StatusError(p.code))
    ensures p.code == 200 && p.status != Succeeded ==> r == Thrown(LogUrlError(env, executionId, p.status))
    ensures r.Thrown? && p.code == 200 ==> EndsWith(r.message, LogUrl(env, executionId))
  {
    if p.code != 200 then Thrown(StatusError(p.code))
    else if p.status != Succeeded then Thrown(LogUrlError(env, executionId, p.status))
    else Done(p.status)
  }

  /** The do-while poll over a script of responses: one request per
      iteration, stopping after the first response that is an HTTP error or
      not `running`. */
  method Poll(env: Env, executionId: string, script: seq<Polled>) returns (polls: nat, outcome: Outcome)
    ensures FirstStop(script, 0) < |script| ==>
              polls == FirstStop(script, 0) + 1 && outcome == Terminal(env, executionId, script[FirstStop(script, 0)])
    ensures FirstStop(script, 0) == |script| ==> polls == |script| && outcome == StillRunning
  {
    polls := 0;
    while polls < |script|
      invariant polls <= |script|
      invariant forall j :: 0 <= j < polls ==> !Stops(script[j])
    {
      var p := script[polls];
      polls := polls + 1;
      if p.code != 200 || p.status != Running {
        assert FirstStop(script, 0) == polls - 1;
        outcome := Terminal(env, executionId, p);
        return;
      }
    }
    outcome := StillRunning;
  }

  /** Exactly `k + 1` polls happen when the first response that is not a
      successful `running` is at index `k`. */
  lemma PollCount(script: seq<Polled>, k: nat)
    requires k < |script| && Stops(script[k])
    requires forall j :: 0 <= j < k ==> !Stops(script[j])
    ensures FirstStop(script, 0) == k
  {
  }

  /** `runJob`: the requests it makes, in order, and how it ends. */
  method RunJob(env: Env, info: DeployInfo, launch: Launched, script: seq<Polled>)
    returns (requests: seq<Request>, outcome: Outcome)
    ensures SelectJob(env, info).Err? ==> requests == [] && outcome == Thrown(SelectJob(env, info).error)
    ensures SelectJob(env, info).Ok? ==> |requests| >= 1 && requests[0] == LaunchRequest(env, SelectJob(env, info).value)
    ensures SelectJob(env, info).Ok? && launch.code != 200 ==>
              |requests| == 1 && outcome == Thrown(LaunchError(launch.code))
    ensures SelectJob(env, info).Ok? && launch.code == 200 ==>
              && (forall i :: 1 <= i < |requests| ==> requests[i] == StatusRequest(env, launch.executionId))
              && (FirstStop(script, 0) < |script| ==>
                    |requests| == FirstStop(script, 0) + 2
                    && outcome == Terminal(env, launch.executionId, script[FirstStop(script, 0)]))
              && (FirstStop(script, 0) == |script| ==> |requests| == |script| + 1 && outcome == StillRunning)
    ensures outcome.Done? ==> outcome.status == Succeeded
  {
    match SelectJob(env, info)
    case Err(message) =>
      requests := [];
      outcome := Thrown(message);
    case Ok(call) =>
      requests := [LaunchRequest(env, call)];
      if launch.code != 200 {
        outcome := Thrown(LaunchError(launch.code));
      } else {
        var polls;
        polls, outcome := Poll(env, launch.executionId, script);
        requests := requests + seq(polls, _ => StatusRequest(env, launch.executionId));
      }
  }
}
