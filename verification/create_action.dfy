/** The `create` handler (lib/git/create_action.js): check out the feature
    branch, point the module's `:ref` at it (adding the module when the
    Puppetfile lacks it), commit, push, and have Rundeck deploy. */
module CreateAction {
  import opened Results
  import opened Text
  import opened GitUtils
  import opened Rundeck
  import opened PuppetfileMatch
  import opened Puppetfile
  import opened EntryLayout
  import opened Manifest
  import opened PuppetfileEdits
  import opened Workflow

  /** The Puppetfile the handler writes. */
  function CreateContent(content: string, t: Target): string {
    if FindRef(content, t.repoUrl).None? then AppendEntry(content, NewEntry(t))
    else SetRef(content, t.repoUrl, t.branch)
  }

  /** The steps the handler takes when nothing throws. */
  function CreatePlan(setup: Setup, t: Target, w: World): seq<Step> {
    Prelude(setup) + CheckoutSteps(BranchExist(w.lsRemote, t.branch), t.branch)
    + PublishTail(CreateContent(w.puppetfile, t), DeployFor(t, FullDeployment(w, t.branch)), t.moduleName, t.branch)
  }

  /** The `catch` block: back to the original directory, then remove the
      working copy. */
  const CreateCleanup: seq<Step> := [RestoreCwd, RemoveWorkdir]

  /** `runCreate`: the steps taken and what is passed to `done`. */
  function RunCreate(setup: Setup, t: Target, w: World): Run {
    Execute(CreatePlan(setup, t, w), w.fault, CreateCleanup)
  }

  /** How `runCreate` ends: with the clone first; on success with the
      working copy removed last; on failure with the thrown error, after the
      throwing step and the `catch` block. */
  lemma CreateEnds(setup: Setup, t: Target, w: World)
    ensures |RunCreate(setup, t, w).steps| > 0
    ensures RunCreate(setup, t, w).steps[0] == Git(Clone(setup.puppetfileUrl, setup.workdir))
    ensures RunCreate(setup, t, w).verdict.Success? <==> w.fault.None? || w.fault.value.step >= |RunCreate(setup, t, w).steps|
    ensures RunCreate(setup, t, w).verdict.Failure? ==>
              && RunCreate(setup, t, w).verdict.error == w.fault.value.error
              && |RunCreate(setup, t, w).steps| == w.fault.value.step + 3
              && RunCreate(setup, t, w).steps[|RunCreate(setup, t, w).steps| - 2..] == CreateCleanup
    ensures RunCreate(setup, t, w).verdict.Success? ==>
              && RunCreate(setup, t, w).steps[|RunCreate(setup, t, w).steps| - 1] == RemoveWorkdir
              && Git(Commit(t.moduleName, t.branch)) in RunCreate(setup, t, w).steps
              && Git(Push(t.branch)) in RunCreate(setup, t, w).steps
              && TriggerJob(DeployFor(t, FullDeployment(w, t.branch))) in RunCreate(setup, t, w).steps
  {
    CreateRunEnds(setup, BranchExist(w.lsRemote, t.branch), CreateContent(w.puppetfile, t),
                  DeployFor(t, FullDeployment(w, t.branch)), t.moduleName, t.branch,
                  CreatePlan(setup, t, w), w.fault, RunCreate(setup, t, w));
  }

  lemma CreateRunEnds(setup: Setup, onRemote: bool, content: string, job: DeployInfo,
                      m: string, b: string, plan: seq<Step>, fault: Option<Fault>, r: Run)
    requires plan == Prelude(setup) + CheckoutSteps(onRemote, b) + PublishTail(content, job, m, b)
    requires r == Execute(plan, fault, CreateCleanup)
    ensures |r.steps| > 0 && r.steps[0] == Git(Clone(setup.puppetfileUrl, setup.workdir))
    ensures r.verdict.Success? <==> fault.None? || fault.value.step >= |r.steps|
    ensures r.verdict.Failure? ==>
              && r.verdict.error == fault.value.error
              && |r.steps| == fault.value.step + 3
              && r.steps[|r.steps| - 2..] == CreateCleanup
    ensures r.verdict.Success? ==>
              && r.steps[|r.steps| - 1] == RemoveWorkdir
              && Git(Commit(m, b)) in r.steps && Git(Push(b)) in r.steps && TriggerJob(job) in r.steps
  {
    var head := Prelude(setup) + CheckoutSteps(onRemote, b);
    var tail := PublishTail(content, job, m, b);
    PublishPlanShape(setup, onRemote, content, job, m, b, head, tail);
    ExecuteEnds(plan, fault, CreateCleanup);
  }


  /** Whether it succeeds or not, `runCreate` never pushes before
      committing nor runs the job before pushing. */
  lemma CreateOrder(setup: Setup, t: Target, w: World)
    ensures Precedes(RunCreate(setup, t, w).steps, Git(Commit(t.moduleName, t.branch)), Git(Push(t.branch)))
    ensures PrecedesJobs(RunCreate(setup, t, w).steps, Git(Push(t.branch)))
  {
    CreateRunOrder(setup, BranchExist(w.lsRemote, t.branch), CreateContent(w.puppetfile, t),
                  DeployFor(t, FullDeployment(w, t.branch)), t.moduleName, t.branch,
                  CreatePlan(setup, t, w), w.fault, RunCreate(setup, t, w));
  }

  lemma CreateRunOrder(setup: Setup, onRemote: bool, content: string, job: DeployInfo,
                      m: string, b: string, plan: seq<Step>, fault: Option<Fault>, r: Run)
    requires plan == Prelude(setup) + CheckoutSteps(onRemote, b) + PublishTail(content, job, m, b)
    requires r == Execute(plan, fault, CreateCleanup)
    ensures Precedes(r.steps, Git(Commit(m, b)), Git(Push(b)))
    ensures PrecedesJobs(r.steps, Git(Push(b)))
  {
    var head := Prelude(setup) + CheckoutSteps(onRemote, b);
    var tail := PublishTail(content, job, m, b);
    PublishPlanOrder(setup, onRemote, content, job, m, b, head, tail);
    ExecuteKeepsOrder(plan, fault, CreateCleanup, Git(Commit(m, b)), Git(Push(b)), Git(Push(b)));
  }


  /** Whatever `runCreate` writes is the edited Puppetfile, whatever job it
      runs is `deploy_env` exactly when the branch is new or the merge
      brought changes, and it checks out the way the branch test says. */
  lemma CreateEffects(setup: Setup, t: Target, w: World)
    ensures JobsAre(RunCreate(setup, t, w).steps, DeployFor(t, FullDeployment(w, t.branch)))
    ensures WritesAre(RunCreate(setup, t, w).steps, CreateContent(w.puppetfile, t))
    ensures Git(CheckoutNew(t.branch)) in RunCreate(setup, t, w).steps ==> !BranchExist(w.lsRemote, t.branch)
    ensures Git(CheckoutForce(t.branch)) in RunCreate(setup, t, w).steps ==> BranchExist(w.lsRemote, t.branch)
  {
    CreateRunEffects(setup, BranchExist(w.lsRemote, t.branch), CreateContent(w.puppetfile, t),
                  DeployFor(t, FullDeployment(w, t.branch)), t.moduleName, t.branch,
                  CreatePlan(setup, t, w), w.fault, RunCreate(setup, t, w));
  }

  lemma CreateRunEffects(setup: Setup, onRemote: bool, content: string, job: DeployInfo,
                      m: string, b: string, plan: seq<Step>, fault: Option<Fault>, r: Run)
    requires plan == Prelude(setup) + CheckoutSteps(onRemote, b) + PublishTail(content, job, m, b)
    requires r == Execute(plan, fault, CreateCleanup)
    ensures JobsAre(r.steps, job)
    ensures WritesAre(r.steps, content)
    ensures Git(CheckoutNew(b)) in r.steps ==> !onRemote
    ensures Git(CheckoutForce(b)) in r.steps ==> onRemote
  {
    var head := Prelude(setup) + CheckoutSteps(onRemote, b);
    var tail := PublishTail(content, job, m, b);
    PublishPlanContent(setup, onRemote, content, job, m, b, head, tail);
    ExecuteKeepsContent(plan, fault, CreateCleanup, job, content);
  }


  /** On a rendered Puppetfile the handler either appends the module's entry
      (no entry's URL ends with the repository URL) or points every such
      entry at the branch, leaving all else as it was; either way the
      module's `:ref` is then found to be the branch. */
  lemma CreateContentRendered(h: string, es: seq<Entry>, t: Target)
    requires SafeHeader(h) && AllWellFormed(es) && WellFormed(NewEntry(t))
    ensures FirstHitRef(es, RefPattern(t.repoUrl)).None? ==>
              CreateContent(Render(h, es), t) == Render(h, es + [NewEntry(t)])
    ensures FirstHitRef(es, RefPattern(t.repoUrl)).Some? ==>
              CreateContent(Render(h, es), t) == Render(h, Retarget(es, RefPattern(t.repoUrl), t.branch))
    ensures FindRef(CreateContent(Render(h, es), t), t.repoUrl) == Some(t.branch)
  {
    assert Clean(t.repoUrl);
    FindRefRendered(h, es, t.repoUrl);
    if FirstHitRef(es, RefPattern(t.repoUrl)).None? {
      AppendFound(h, es, NewEntry(t));
    } else {
      SetRefRendered(h, es, t.repoUrl, t.branch);
      SetRefThenFind(h, es, t.repoUrl, t.branch);
    }
  }
}
