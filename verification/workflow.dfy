/** What the three action handlers have in common: the steps they take, how a
    throwing step ends a run, and the facts about a run's steps that the
    handlers promise. Git, the file system and Rundeck are not run: their
    outputs are inputs, and which step throws (if any) is an input too. */
module Workflow {
  import opened Results
  import opened Text
  import opened GitUtils
  import opened Rundeck
  import opened Puppetfile

  /** One externally visible step of an action. */
  datatype Step =
    | Git(op: GitOp)
    | ReadPuppetfile
    | WritePuppetfile(content: string)
    | TriggerJob(job: DeployInfo)
    | RestoreCwd
    | RemoveWorkdir

  /** What the handler passes to the queue's `done` callback. */
  datatype Verdict = Success | Failure(error: string)

  datatype Run = Run(steps: seq<Step>, verdict: Verdict)

  /** The first step that throws, by its index among the steps the handler
      would take, and the error it throws. */
  datatype Fault = Fault(step: nat, error: string)

  /** The outside world as one run sees it: the `ls-remote --heads` output,
      the merge output, the Puppetfile read, and the step that throws. */
  datatype World = World(lsRemote: string, mergeOutput: string, puppetfile: string, fault: Option<Fault>)

  /** PUPPETFILE_URL and the temporary working directory. */
  datatype Setup = Setup(puppetfileUrl: string, workdir: string)

  /** The event fields an action uses: branch, module (repository) name and
      repository URL. */
  datatype Target = Target(branch: string, moduleName: string, repoUrl: string)

  /** The entry appended for a module the Puppetfile does not list. */
  function NewEntry(t: Target): Entry {
    Entry(t.moduleName, t.repoUrl, t.branch)
  }

  /** The steps of the `catch` block. */
  predicate Cleanup(s: Step) {
    s == RestoreCwd || s == RemoveWorkdir
  }

  /** Some planned step throws. */
  predicate Throws(fault: Option<Fault>, planned: nat) {
    fault.Some? && fault.value.step < planned
  }

  /** Running the planned steps: all of them when none throws; otherwise up
      to the throwing one, then the `catch` block, and the error goes to the
      callback. */
  function Execute(plan: seq<Step>, fault: Option<Fault>, onError: seq<Step>): (r: Run)
    ensures !Throws(fault, |plan|) ==> r.steps == plan && r.verdict == Success
    ensures Throws(fault, |plan|) ==>
              && r.verdict == Failure(fault.value.error)
              && r.steps == plan[..fault.value.step + 1] + onError
  {
    if Throws(fault, |plan|) then Run(plan[..fault.value.step + 1] + onError, Failure(fault.value.error))
    else Run(plan, Success)
  }

  /** The steps of the wrapper's git operations. */
  function Gits(ops: seq<GitOp>): (r: seq<Step>)
    ensures |r| == |ops|
    ensures forall i :: 0 <= i < |ops| ==> r[i] == Git(ops[i])
  {
    seq(|ops|, i requires 0 <= i < |ops| => Git(ops[i]))
  }

  /** Clone, fetch and the remote branch test, with which every action
      starts. `clone` always clones PUPPETFILE_URL. */
  function Prelude(setup: Setup): seq<Step> {
    [Git(Clone(setup.puppetfileUrl, setup.workdir)), Git(Fetch), Git(ListRemoteHeads)]
  }

  /** The checkout: `checkoutExisting` when the branch is on the remote,
      `checkoutNew` otherwise. */
  function CheckoutSteps(onRemote: bool, branch: string): (r: seq<Step>)
    ensures onRemote ==> r == [Git(CheckoutForce(branch)), Git(Pull(branch)), Git(MergeProduction)]
    ensures !onRemote ==> r == [Git(CheckoutNew(branch))]
  {
    if onRemote then Gits(CheckoutExistingOps(branch)) else [Git(CheckoutNew(branch))]
  }

  /** `fullDeploymentNeeded` of the create and modify handlers: the branch
      is new on the remote or the merge from `production` brought changes. */
  predicate FullDeployment(w: World, branch: string) {
    !BranchExist(w.lsRemote, branch) || MergeContributed(w.mergeOutput)
  }

  /** The job `runJob` is asked to run: a full environment deployment or a
      single module update. */
  function DeployFor(t: Target, full: bool): DeployInfo {
    DeployInfo(Some(if full then DeployEnv else DeployMod), Some(t.branch), Some(t.moduleName))
  }

  /** `runJob` accepts the job an action asks for, picking the environment
      job exactly for a full deployment; an empty branch or module name is
      refused before any request. */
  lemma DeployForSelects(env: Env, t: Target, full: bool)
    ensures SelectJob(env, DeployFor(t, full)).Ok? <==> t.branch != "" && t.moduleName != ""
    ensures SelectJob(env, DeployFor(t, full)).Ok? ==>
              SelectJob(env, DeployFor(t, full)).value.jobId == (if full then env.envJobId else env.modJobId)
    ensures SelectJob(env, DeployFor(t, full)).Ok? ==>
              SelectJob(env, DeployFor(t, full)).value.argString ==
                (if full then EnvArgs(t.branch) else ModArgs(t.branch, t.moduleName))
  {
  }

  /** Step `a` comes before every occurrence of step `b`. */
  predicate Precedes(steps: seq<Step>, a: Step, b: Step) {
    forall i :: 0 <= i < |steps| && steps[i] == b ==> a in steps[..i]
  }

  /** Step `a` comes before every job trigger. */
  predicate PrecedesJobs(steps: seq<Step>, a: Step) {
    forall i :: 0 <= i < |steps| && steps[i].TriggerJob? ==> a in steps[..i]
  }

  /** Every job trigger asks for `job`. */
  predicate JobsAre(steps: seq<Step>, job: DeployInfo) {
    forall i :: 0 <= i < |steps| && steps[i].TriggerJob? ==> steps[i].job == job
  }

  /** Every Puppetfile write writes `content`. */
  predicate WritesAre(steps: seq<Step>, content: string) {
    forall i :: 0 <= i < |steps| && steps[i].WritePuppetfile? ==> steps[i].content == content
  }

  predicate NoWrite(steps: seq<Step>) {
    forall i :: 0 <= i < |steps| ==> !steps[i].WritePuppetfile?
  }

  predicate NoJob(steps: seq<Step>) {
    forall i :: 0 <= i < |steps| ==> !steps[i].TriggerJob?
  }

  /** The steps of a run cut short at step `n` and followed by the `catch`
      block are the first `n` planned steps, then cleanup steps only. */
  lemma Truncated(plan: seq<Step>, n: nat, onError: seq<Step>)
    requires n <= |plan|
    requires forall i :: 0 <= i < |onError| ==> Cleanup(onError[i])
    ensures forall i :: 0 <= i < n ==> (plan[..n] + onError)[i] == plan[i]
    ensures forall i :: n <= i < |plan[..n] + onError| ==> Cleanup((plan[..n] + onError)[i])
    ensures forall i :: 0 <= i <= n ==> (plan[..n] + onError)[..i] == plan[..i]
  {
  }

  /** Cutting the planned steps short and running the `catch` block keeps
      the plan's ordering facts about steps outside the `catch` block. */
  lemma ExecuteKeepsOrder(plan: seq<Step>, fault: Option<Fault>, onError: seq<Step>, a: Step, b: Step, c: Step)
    requires forall i :: 0 <= i < |onError| ==> Cleanup(onError[i])
    requires !Cleanup(b)
    ensures Precedes(plan, a, b) ==> Precedes(Execute(plan, fault, onError).steps, a, b)
    ensures PrecedesJobs(plan, c) ==> PrecedesJobs(Execute(plan, fault, onError).steps, c)
  {
    if Throws(fault, |plan|) {
      var n := fault.value.step + 1;
      var steps := plan[..n] + onError;
      Truncated(plan, n, onError);
      if Precedes(plan, a, b) {
        forall i | 0 <= i < |steps| && steps[i] == b ensures a in steps[..i] {
          assert a in plan[..i];
        }
      }
      if PrecedesJobs(plan, c) {
        forall i | 0 <= i < |steps| && steps[i].TriggerJob? ensures c in steps[..i] {
          assert c in plan[..i];
        }
      }
    }
  }

  /** Cutting the planned steps short and running the `catch` block keeps
      what the plan writes and which jobs it triggers, and adds no step
      other than cleanup. */
  lemma ExecuteKeepsContent(plan: seq<Step>, fault: Option<Fault>, onError: seq<Step>, job: DeployInfo, content: string)
    requires forall i :: 0 <= i < |onError| ==> Cleanup(onError[i])
    ensures JobsAre(plan, job) ==> JobsAre(Execute(plan, fault, onError).steps, job)
    ensures WritesAre(plan, content) ==> WritesAre(Execute(plan, fault, onError).steps, content)
    ensures NoWrite(plan) ==> NoWrite(Execute(plan, fault, onError).steps)
    ensures NoJob(plan) ==> NoJob(Execute(plan, fault, onError).steps)
    ensures forall s :: s in Execute(plan, fault, onError).steps && !Cleanup(s) ==> s in plan
  {
    if Throws(fault, |plan|) {
      var n := fault.value.step + 1;
      if JobsAre(plan, job) {
        CutKeepsJobs(plan, n, onError, job);
      }
      if WritesAre(plan, content) {
        CutKeepsWrites(plan, n, onError, content);
      }
      if NoWrite(plan) {
        CutKeepsNoWrite(plan, n, onError);
      }
      if NoJob(plan) {
        CutKeepsNoJob(plan, n, onError);
      }
      CutAddsCleanup(plan, n, onError);
    }
  }

  lemma CutKeepsJobs(plan: seq<Step>, n: nat, onError: seq<Step>, job: DeployInfo)
    requires n <= |plan| && forall i :: 0 <= i < |onError| ==> Cleanup(onError[i])
    requires JobsAre(plan, job)
    ensures JobsAre(plan[..n] + onError, job)
  {
    Truncated(plan, n, onError);
  }

  lemma CutKeepsWrites(plan: seq<Step>, n: nat, onError: seq<Step>, content: string)
    requires n <= |plan| && forall i :: 0 <= i < |onError| ==> Cleanup(onError[i])
    requires WritesAre(plan, content)
    ensures WritesAre(plan[..n] + onError, content)
  {
    Truncated(plan, n, onError);
  }

  lemma CutKeepsNoWrite(plan: seq<Step>, n: nat, onError: seq<Step>)
    requires n <= |plan| && forall i :: 0 <= i < |onError| ==> Cleanup(onError[i])
    requires NoWrite(plan)
    ensures NoWrite(plan[..n] + onError)
  {
    Truncated(plan, n, onError);
  }

  lemma CutKeepsNoJob(plan: seq<Step>, n: nat, onError: seq<Step>)
    requires n <= |plan| && forall i :: 0 <= i < |onError| ==> Cleanup(onError[i])
    requires NoJob(plan)
    ensures NoJob(plan[..n] + onError)
  {
    Truncated(plan, n, onError);
  }

  lemma CutAddsCleanup(plan: seq<Step>, n: nat, onError: seq<Step>)
    requires n <= |plan| && forall i :: 0 <= i < |onError| ==> Cleanup(onError[i])
    ensures forall s :: s in plan[..n] + onError && !Cleanup(s) ==> s in plan
  {
    var steps := plan[..n] + onError;
    Truncated(plan, n, onError);
    forall s | s in steps && !Cleanup(s) ensures s in plan {
      var i :| 0 <= i < |steps| && steps[i] == s;
    }
  }

  /** How a run ends, whatever the plan: the verdict is a success exactly
      when no step up to the last one taken throws; a failure carries the
      thrown error and ends with the `catch` block. */
  lemma ExecuteEnds(plan: seq<Step>, fault: Option<Fault>, onError: seq<Step>)
    requires |plan| > 0
    ensures |Execute(plan, fault, onError).steps| > 0 && Execute(plan, fault, onError).steps[0] == plan[0]
    ensures Execute(plan, fault, onError).verdict.Success? <==>
              fault.None? || fault.value.step >= |Execute(plan, fault, onError).steps|
    ensures Execute(plan, fault, onError).verdict.Success? ==> Execute(plan, fault, onError).steps == plan
    ensures Execute(plan, fault, onError).verdict.Failure? ==>
              && Execute(plan, fault, onError).verdict.error == fault.value.error
              && |Execute(plan, fault, onError).steps| == fault.value.step + 1 + |onError|
              && Execute(plan, fault, onError).steps[|Execute(plan, fault, onError).steps| - |onError|..] == onError
              && Execute(plan, fault, onError).steps[fault.value.step] == plan[fault.value.step]
  {
    if Throws(fault, |plan|) {
      var steps := plan[..fault.value.step + 1] + onError;
      assert steps[|steps| - |onError|..] == onError;
    }
  }

  /** Ordering facts of two pieces of a plan carry over to the whole. */
  lemma ConcatOrder(xs: seq<Step>, ys: seq<Step>, a: Step, b: Step, c: Step)
    ensures b !in xs && Precedes(ys, a, b) ==> Precedes(xs + ys, a, b)
    ensures Precedes(xs, a, b) && b !in ys ==> Precedes(xs + ys, a, b)
    ensures NoJob(xs) && PrecedesJobs(ys, c) ==> PrecedesJobs(xs + ys, c)
    ensures NoJob(xs) && c in xs ==> PrecedesJobs(xs + ys, c)
  {
    if b !in xs && Precedes(ys, a, b) {
      PrecedesInRight(xs, ys, a, b);
    }
    if Precedes(xs, a, b) && b !in ys {
      PrecedesInLeft(xs, ys, a, b);
    }
    if NoJob(xs) && PrecedesJobs(ys, c) {
      JobsInRight(xs, ys, c);
    }
    if NoJob(xs) && c in xs {
      JobsAfterLeft(xs, ys, c);
    }
  }

  lemma PrecedesInRight(xs: seq<Step>, ys: seq<Step>, a: Step, b: Step)
    requires b !in xs && Precedes(ys, a, b)
    ensures Precedes(xs + ys, a, b)
  {
    var zs := xs + ys;
    forall i | 0 <= i < |zs| && zs[i] == b ensures a in zs[..i] {
      assert zs[i] == ys[i - |xs|];
      assert a in ys[..i - |xs|];
      assert zs[..i] == xs + ys[..i - |xs|];
    }
  }

  lemma PrecedesInLeft(xs: seq<Step>, ys: seq<Step>, a: Step, b: Step)
    requires Precedes(xs, a, b) && b !in ys
    ensures Precedes(xs + ys, a, b)
  {
    var zs := xs + ys;
    forall i | 0 <= i < |zs| && zs[i] == b ensures a in zs[..i] {
      assert i < |xs|;
      assert zs[i] == xs[i];
      assert a in xs[..i];
      assert zs[..i] == xs[..i];
    }
  }

  lemma JobsInRight(xs: seq<Step>, ys: seq<Step>, c: Step)
    requires NoJob(xs) && PrecedesJobs(ys, c)
    ensures PrecedesJobs(xs + ys, c)
  {
    var zs := xs + ys;
    forall i | 0 <= i < |zs| && zs[i].TriggerJob? ensures c in zs[..i] {
      assert zs[i] == ys[i - |xs|];
      assert c in ys[..i - |xs|];
      assert zs[..i] == xs + ys[..i - |xs|];
    }
  }

  lemma JobsAfterLeft(xs: seq<Step>, ys: seq<Step>, c: Step)
    requires NoJob(xs) && c in xs
    ensures PrecedesJobs(xs + ys, c)
  {
    var zs := xs + ys;
    forall i | 0 <= i < |zs| && zs[i].TriggerJob? ensures c in zs[..i] {
      assert i >= |xs|;
      assert zs[..i] == xs + ys[..i - |xs|];
    }
  }

  /** Content facts of two pieces of a plan carry over to the whole. */
  lemma ConcatContent(xs: seq<Step>, ys: seq<Step>, job: DeployInfo, content: string)
    ensures JobsAre(xs, job) && JobsAre(ys, job) ==> JobsAre(xs + ys, job)
    ensures WritesAre(xs, content) && WritesAre(ys, content) ==> WritesAre(xs + ys, content)
    ensures NoWrite(xs) && NoWrite(ys) ==> NoWrite(xs + ys)
    ensures NoJob(xs) && NoJob(ys) ==> NoJob(xs + ys)
  {
    var zs := xs + ys;
    assert forall i :: |xs| <= i < |zs| ==> zs[i] == ys[i - |xs|];
  }

  /** The clone, fetch, branch test and checkout that start a plan: no
      write, job, commit, push or branch deletion among them, and a
      checkout that agrees with the branch test. */
  lemma HeadFacts(setup: Setup, onRemote: bool, branch: string)
    ensures NoWrite(Prelude(setup) + CheckoutSteps(onRemote, branch))
    ensures NoJob(Prelude(setup) + CheckoutSteps(onRemote, branch))
    ensures forall m, b :: Git(Commit(m, b)) !in Prelude(setup) + CheckoutSteps(onRemote, branch)
    ensures forall b :: Git(Push(b)) !in Prelude(setup) + CheckoutSteps(onRemote, branch)
    ensures forall b :: Git(DeleteBranch(b)) !in Prelude(setup) + CheckoutSteps(onRemote, branch)
    ensures Git(CheckoutNew(branch)) in Prelude(setup) + CheckoutSteps(onRemote, branch) ==> !onRemote
    ensures Git(CheckoutForce(branch)) in Prelude(setup) + CheckoutSteps(onRemote, branch) ==> onRemote
  {
  }

  /** The steps after the checkout when the Puppetfile is rewritten: read,
      write, commit, push, job, and removal of the working copy. */
  function PublishTail(content: string, job: DeployInfo, moduleName: string, branch: string): seq<Step> {
    [ReadPuppetfile, WritePuppetfile(content), Git(Commit(moduleName, branch)), Git(Push(branch)),
     TriggerJob(job), RemoveWorkdir]
  }

  /** The commit comes before the push, the push before the job, and the
      tail writes only `content` and asks only for `job`. */
  lemma PublishTailFacts(content: string, job: DeployInfo, moduleName: string, branch: string)
    ensures Precedes(PublishTail(content, job, moduleName, branch), Git(Commit(moduleName, branch)), Git(Push(branch)))
    ensures PrecedesJobs(PublishTail(content, job, moduleName, branch), Git(Push(branch)))
    ensures JobsAre(PublishTail(content, job, moduleName, branch), job)
    ensures WritesAre(PublishTail(content, job, moduleName, branch), content)
  {
    var tail := PublishTail(content, job, moduleName, branch);
    assert tail[..3][2] == Git(Commit(moduleName, branch));
    assert tail[..4][3] == Git(Push(branch));
  }

  /** The plan's order: commit before push, push before the job. */
  lemma PublishPlanOrder(setup: Setup, onRemote: bool, content: string, job: DeployInfo, m: string, b: string,
                        head: seq<Step>, tail: seq<Step>)
    requires head == Prelude(setup) + CheckoutSteps(onRemote, b)
    requires tail == PublishTail(content, job, m, b)
    ensures Precedes(head + tail, Git(Commit(m, b)), Git(Push(b)))
    ensures PrecedesJobs(head + tail, Git(Push(b)))
  {
    HeadFacts(setup, onRemote, b);
    PublishTailFacts(content, job, m, b);
    ConcatOrder(head, tail, Git(Commit(m, b)), Git(Push(b)), Git(Push(b)));
  }

  /** The plan writes one content, asks for one job, and checks out the way
      the branch test says. */
  lemma PublishPlanContent(setup: Setup, onRemote: bool, content: string, job: DeployInfo, m: string, b: string,
                          head: seq<Step>, tail: seq<Step>)
    requires head == Prelude(setup) + CheckoutSteps(onRemote, b)
    requires tail == PublishTail(content, job, m, b)
    ensures JobsAre(head + tail, job)
    ensures WritesAre(head + tail, content)
    ensures Git(CheckoutNew(b)) in head + tail ==> !onRemote
    ensures Git(CheckoutForce(b)) in head + tail ==> onRemote
  {
    HeadFacts(setup, onRemote, b);
    PublishTailFacts(content, job, m, b);
    ConcatContent(head, tail, job, content);
  }

  /** The plan starts with the clone, commits, pushes, runs the job and
      ends by removing the working copy. */
  lemma PublishPlanShape(setup: Setup, onRemote: bool, content: string, job: DeployInfo, m: string, b: string,
                        head: seq<Step>, tail: seq<Step>)
    requires head == Prelude(setup) + CheckoutSteps(onRemote, b)
    requires tail == PublishTail(content, job, m, b)
    ensures Git(Commit(m, b)) in head + tail && Git(Push(b)) in head + tail && TriggerJob(job) in head + tail
    ensures (head + tail)[|head + tail| - 1] == RemoveWorkdir
    ensures (head + tail)[0] == Git(Clone(setup.puppetfileUrl, setup.workdir))
  {
    assert tail[2] == (head + tail)[|head| + 2];
    assert tail[3] == (head + tail)[|head| + 3];
    assert tail[4] == (head + tail)[|head| + 4];
  }
}
