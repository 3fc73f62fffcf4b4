/** The `delete` handler (lib/git/delete_action.js): when a module's
    feature branch is deleted, either delete the branch from the Puppetfile
    repository (no other module is on it) or point the module back at
    `production` and redeploy. */
module DeleteAction {
  import opened Results
  import opened Text
  import opened GitUtils
  import opened Rundeck
  import opened PuppetfileMatch
  import opened Puppetfile
  import opened EntryLayout
  import opened Manifest
  import opened PuppetfileEdits
  import opened Workflow

  /** `module_list`: the modules on the branch other than this one, in
      Puppetfile order. */
  function Others(content: string, t: Target): seq<string> {
    OtherModules(ModulesOnBranch(content, t.branch), t.moduleName)
  }

  /** The job of the reset path: `deploy_env` when the merge from
      `production` brought changes. */
  function DeleteJob(t: Target, w: World): DeployInfo {
    DeployFor(t, MergeContributed(w.mergeOutput))
  }

  /** The steps after the checkout when this module is the last one on the
      branch. */
  function DeleteTail(branch: string): seq<Step> {
    [ReadPuppetfile, Git(DeleteBranch(branch)), RemoveWorkdir]
  }

  /** The steps the handler takes when nothing throws, given the Puppetfile
      text the reset writes: nothing after the branch test when the branch
      is gone (and no removal of the working copy), otherwise the checkout,
      then the deletion or the reset. */
  function PlanWith(setup: Setup, t: Target, w: World, reset: string): seq<Step> {
    if !BranchExist(w.lsRemote, t.branch) then Prelude(setup)
    else if |Others(w.puppetfile, t)| == 0 then Prelude(setup) + CheckoutSteps(true, t.branch) + DeleteTail(t.branch)
    else Prelude(setup) + CheckoutSteps(true, t.branch) + PublishTail(reset, DeleteJob(t, w), t.moduleName, t.branch)
  }

  /** The handler's steps with the reset expression as written. */
  function DeletePlan(setup: Setup, t: Target, w: World): seq<Step> {
    PlanWith(setup, t, w, ResetToProductionAsWritten(w.puppetfile, t.moduleName, t.branch))
  }

  /** The `catch` block: back to the original directory, then remove the
      working copy. */
  const DeleteCleanup: seq<Step> := [RestoreCwd, RemoveWorkdir]

  /** `runDelete`: the steps taken and what is passed to `done`. */
  function RunDelete(setup: Setup, t: Target, w: World): Run {
    Execute(DeletePlan(setup, t, w), w.fault, DeleteCleanup)
  }

  /** The handler's steps with the corrected reset expression. */
  function DeletePlanCorrected(setup: Setup, t: Target, w: World): seq<Step> {
    PlanWith(setup, t, w, ResetToProduction(w.puppetfile, t.moduleName, t.branch))
  }

  /** `runDelete` with the corrected reset expression. */
  function RunDeleteCorrected(setup: Setup, t: Target, w: World): Run {
    Execute(DeletePlanCorrected(setup, t, w), w.fault, DeleteCleanup)
  }

  /** How `runDelete` ends: with the clone first; on failure with the thrown
      error after the throwing step and the `catch` block. */
  lemma DeleteEnds(setup: Setup, t: Target, w: World)
    ensures |RunDelete(setup, t, w).steps| > 0
    ensures RunDelete(setup, t, w).steps[0] == Git(Clone(setup.puppetfileUrl, setup.workdir))
    ensures RunDelete(setup, t, w).verdict.Success? <==> w.fault.None? || w.fault.value.step >= |RunDelete(setup, t, w).steps|
    ensures RunDelete(setup, t, w).verdict.Failure? ==>
              && RunDelete(setup, t, w).verdict.error == w.fault.value.error
              && |RunDelete(setup, t, w).steps| == w.fault.value.step + 3
              && RunDelete(setup, t, w).steps[|RunDelete(setup, t, w).steps| - 2..] == DeleteCleanup
  {
    ExecuteEnds(DeletePlan(setup, t, w), w.fault, DeleteCleanup);
  }

  /** A branch already gone from the remote: no checkout, write, commit,
      push, deletion or job, and a success leaves the working copy in
      place. */
  lemma DeleteGone(setup: Setup, t: Target, w: World)
    requires !BranchExist(w.lsRemote, t.branch)
    ensures NoWrite(RunDelete(setup, t, w).steps) && NoJob(RunDelete(setup, t, w).steps)
    ensures Git(CheckoutForce(t.branch)) !in RunDelete(setup, t, w).steps
    ensures Git(Commit(t.moduleName, t.branch)) !in RunDelete(setup, t, w).steps
    ensures Git(Push(t.branch)) !in RunDelete(setup, t, w).steps
    ensures Git(DeleteBranch(t.branch)) !in RunDelete(setup, t, w).steps
    ensures RunDelete(setup, t, w).verdict.Success? ==>
              RunDelete(setup, t, w).steps == Prelude(setup) && RemoveWorkdir !in RunDelete(setup, t, w).steps
  {
    GoneRun(setup, t.moduleName, t.branch, DeletePlan(setup, t, w), w.fault, RunDelete(setup, t, w));
  }

  /** Any run of the clone, fetch and branch test alone. */
  lemma GoneRun(setup: Setup, m: string, b: string, plan: seq<Step>, fault: Option<Fault>, r: Run)
    requires plan == Prelude(setup) && r == Execute(plan, fault, DeleteCleanup)
    ensures NoWrite(r.steps) && NoJob(r.steps)
    ensures Git(CheckoutForce(b)) !in r.steps
    ensures Git(Commit(m, b)) !in r.steps
    ensures Git(Push(b)) !in r.steps
    ensures Git(DeleteBranch(b)) !in r.steps
    ensures r.verdict.Success? ==> r.steps == Prelude(setup) && RemoveWorkdir !in r.steps
  {
    ExecuteEnds(plan, fault, DeleteCleanup);
    GoneSteps(setup, m, b, plan, fault, r);
  }

  lemma GoneSteps(setup: Setup, m: string, b: string, plan: seq<Step>, fault: Option<Fault>, r: Run)
    requires plan == Prelude(setup) && r == Execute(plan, fault, DeleteCleanup)
    ensures NoWrite(r.steps) && NoJob(r.steps)
    ensures Git(CheckoutForce(b)) !in r.steps
    ensures Git(Commit(m, b)) !in r.steps
    ensures Git(Push(b)) !in r.steps
    ensures Git(DeleteBranch(b)) !in r.steps
  {
    ExecuteKeepsContent(plan, fault, DeleteCleanup, DeployInfo(None, None, None), "");
  }

  /** The deletion path's content before any step throws. */
  lemma LastPlanFacts(setup: Setup, b: string, head: seq<Step>, tail: seq<Step>)
    requires head == Prelude(setup) + CheckoutSteps(true, b) && tail == DeleteTail(b)
    ensures NoWrite(head + tail) && NoJob(head + tail)
    ensures forall m :: Git(Commit(m, b)) !in head + tail
    ensures Git(Push(b)) !in head + tail
  {
    HeadFacts(setup, true, b);
    ConcatContent(head, tail, DeployInfo(None, None, None), "");
  }

  /** The deletion path's order before any step throws. */
  lemma LastPlanOrder(setup: Setup, b: string, head: seq<Step>, tail: seq<Step>)
    requires head == Prelude(setup) + CheckoutSteps(true, b) && tail == DeleteTail(b)
    ensures Git(DeleteBranch(b)) in head + tail
    ensures Precedes(head + tail, ReadPuppetfile, Git(DeleteBranch(b)))
    ensures (head + tail)[|head + tail| - 1] == RemoveWorkdir
  {
    HeadFacts(setup, true, b);
    assert Precedes(tail, ReadPuppetfile, Git(DeleteBranch(b))) by {
      forall i | 0 <= i < |tail| && tail[i] == Git(DeleteBranch(b)) ensures ReadPuppetfile in tail[..i] {
        assert tail[..i][0] == ReadPuppetfile;
      }
    }
    ConcatOrder(head, tail, ReadPuppetfile, Git(DeleteBranch(b)), ReadPuppetfile);
  }

  /** The plan when the branch is on the remote. */
  lemma DeletePlanIs(setup: Setup, t: Target, w: World)
    requires BranchExist(w.lsRemote, t.branch)
    ensures |Others(w.puppetfile, t)| == 0 ==>
              DeletePlan(setup, t, w) == Prelude(setup) + CheckoutSteps(true, t.branch) + DeleteTail(t.branch)
    ensures |Others(w.puppetfile, t)| > 0 ==>
              DeletePlan(setup, t, w) == Prelude(setup) + CheckoutSteps(true, t.branch)
                + PublishTail(ResetToProductionAsWritten(w.puppetfile, t.moduleName, t.branch), DeleteJob(t, w), t.moduleName, t.branch)
  {
  }

  /** The last module on the branch: nothing is written, committed, pushed
      or deployed. */
  lemma DeleteLast(setup: Setup, t: Target, w: World)
    requires BranchExist(w.lsRemote, t.branch) && |Others(w.puppetfile, t)| == 0
    ensures NoWrite(RunDelete(setup, t, w).steps) && NoJob(RunDelete(setup, t, w).steps)
    ensures Git(Commit(t.moduleName, t.branch)) !in RunDelete(setup, t, w).steps
    ensures Git(Push(t.branch)) !in RunDelete(setup, t, w).steps
  {
    DeletePlanIs(setup, t, w);
    LastRunContent(setup, t.moduleName, t.branch, DeletePlan(setup, t, w), w.fault, RunDelete(setup, t, w));
  }

  lemma LastRunContent(setup: Setup, m: string, b: string, plan: seq<Step>, fault: Option<Fault>, r: Run)
    requires plan == Prelude(setup) + CheckoutSteps(true, b) + DeleteTail(b)
    requires r == Execute(plan, fault, DeleteCleanup)
    ensures NoWrite(r.steps) && NoJob(r.steps)
    ensures Git(Commit(m, b)) !in r.steps
    ensures Git(Push(b)) !in r.steps
  {
    LastPlanFacts(setup, b, Prelude(setup) + CheckoutSteps(true, b), DeleteTail(b));
    ExecuteKeepsContent(plan, fault, DeleteCleanup, DeployInfo(None, None, None), "");
  }

  /** The last module on the branch: the branch is deleted, only after the
      Puppetfile is read, and a success removes the working copy last. */
  lemma DeleteLastOrder(setup: Setup, t: Target, w: World)
    requires BranchExist(w.lsRemote, t.branch) && |Others(w.puppetfile, t)| == 0
    ensures Precedes(RunDelete(setup, t, w).steps, ReadPuppetfile, Git(DeleteBranch(t.branch)))
    ensures RunDelete(setup, t, w).verdict.Success? ==>
              && Git(DeleteBranch(t.branch)) in RunDelete(setup, t, w).steps
              && RunDelete(setup, t, w).steps[|RunDelete(setup, t, w).steps| - 1] == RemoveWorkdir
  {
    DeletePlanIs(setup, t, w);
    LastRunOrder(setup, t.branch, DeletePlan(setup, t, w), w.fault, RunDelete(setup, t, w));
  }

  lemma LastRunOrder(setup: Setup, b: string, plan: seq<Step>, fault: Option<Fault>, r: Run)
    requires plan == Prelude(setup) + CheckoutSteps(true, b) + DeleteTail(b)
    requires r == Execute(plan, fault, DeleteCleanup)
    ensures Precedes(r.steps, ReadPuppetfile, Git(DeleteBranch(b)))
    ensures r.verdict.Success? ==> Git(DeleteBranch(b)) in r.steps && r.steps[|r.steps| - 1] == RemoveWorkdir
  {
    LastPlanOrder(setup, b, Prelude(setup) + CheckoutSteps(true, b), DeleteTail(b));
    ExecuteEnds(plan, fault, DeleteCleanup);
    ExecuteKeepsOrder(plan, fault, DeleteCleanup, ReadPuppetfile, Git(DeleteBranch(b)), ReadPuppetfile);
  }

  /** Other modules still on the branch: every entry on the branch whose URL
      ends with `<module>.git` is pointed back at `production` and the job is `deploy_env` exactly when the merge
      brought changes; the branch is not deleted. */
  lemma DeleteReset(setup: Setup, t: Target, w: World)
    requires BranchExist(w.lsRemote, t.branch) && |Others(w.puppetfile, t)| > 0
    ensures Git(DeleteBranch(t.branch)) !in RunDelete(setup, t, w).steps
    ensures WritesAre(RunDelete(setup, t, w).steps, ResetToProductionAsWritten(w.puppetfile, t.moduleName, t.branch))
    ensures JobsAre(RunDelete(setup, t, w).steps, DeleteJob(t, w))
  {
    DeletePlanIs(setup, t, w);
    ResetRunContent(setup, t.moduleName, t.branch, ResetToProductionAsWritten(w.puppetfile, t.moduleName, t.branch),
                    DeleteJob(t, w), DeletePlan(setup, t, w), w.fault, RunDelete(setup, t, w));
  }

  lemma ResetRunContent(setup: Setup, m: string, b: string, c: string, job: DeployInfo,
                        plan: seq<Step>, fault: Option<Fault>, r: Run)
    requires plan == Prelude(setup) + CheckoutSteps(true, b) + PublishTail(c, job, m, b)
    requires r == Execute(plan, fault, DeleteCleanup)
    ensures Git(DeleteBranch(b)) !in r.steps
    ensures WritesAre(r.steps, c) && JobsAre(r.steps, job)
  {
    var head := Prelude(setup) + CheckoutSteps(true, b);
    var tail := PublishTail(c, job, m, b);
    PublishPlanContent(setup, true, c, job, m, b, head, tail);
    HeadFacts(setup, true, b);
    assert Git(DeleteBranch(b)) !in head + tail;
    ExecuteKeepsContent(plan, fault, DeleteCleanup, job, c);
  }

  /** Other modules still on the branch: commit before push, push before
      the job. */
  lemma DeleteResetOrder(setup: Setup, t: Target, w: World)
    requires BranchExist(w.lsRemote, t.branch) && |Others(w.puppetfile, t)| > 0
    ensures Precedes(RunDelete(setup, t, w).steps, Git(Commit(t.moduleName, t.branch)), Git(Push(t.branch)))
    ensures PrecedesJobs(RunDelete(setup, t, w).steps, Git(Push(t.branch)))
  {
    DeletePlanIs(setup, t, w);
    ResetRunOrder(setup, t.moduleName, t.branch, ResetToProductionAsWritten(w.puppetfile, t.moduleName, t.branch),
                  DeleteJob(t, w), DeletePlan(setup, t, w), w.fault, RunDelete(setup, t, w));
  }

  lemma ResetRunOrder(setup: Setup, m: string, b: string, c: string, job: DeployInfo,
                      plan: seq<Step>, fault: Option<Fault>, r: Run)
    requires plan == Prelude(setup) + CheckoutSteps(true, b) + PublishTail(c, job, m, b)
    requires r == Execute(plan, fault, DeleteCleanup)
    ensures Precedes(r.steps, Git(Commit(m, b)), Git(Push(b)))
    ensures PrecedesJobs(r.steps, Git(Push(b)))
  {
    var head := Prelude(setup) + CheckoutSteps(true, b);
    var tail := PublishTail(c, job, m, b);
    PublishPlanOrder(setup, true, c, job, m, b, head, tail);
    ExecuteKeepsOrder(plan, fault, DeleteCleanup, Git(Commit(m, b)), Git(Push(b)), Git(Push(b)));
  }

  /** Other modules still on the branch: a success commits, pushes, runs the
      job and removes the working copy last. */
  lemma DeleteResetDone(setup: Setup, t: Target, w: World)
    requires BranchExist(w.lsRemote, t.branch) && |Others(w.puppetfile, t)| > 0
    ensures RunDelete(setup, t, w).verdict.Success? ==>
              && Git(Commit(t.moduleName, t.branch)) in RunDelete(setup, t, w).steps
              && Git(Push(t.branch)) in RunDelete(setup, t, w).steps
              && TriggerJob(DeleteJob(t, w)) in RunDelete(setup, t, w).steps
              && RunDelete(setup, t, w).steps[|RunDelete(setup, t, w).steps| - 1] == RemoveWorkdir
  {
    DeletePlanIs(setup, t, w);
    ResetRunDone(setup, t.moduleName, t.branch, ResetToProductionAsWritten(w.puppetfile, t.moduleName, t.branch),
                 DeleteJob(t, w), DeletePlan(setup, t, w), w.fault, RunDelete(setup, t, w));
  }

  lemma ResetRunDone(setup: Setup, m: string, b: string, c: string, job: DeployInfo,
                     plan: seq<Step>, fault: Option<Fault>, r: Run)
    requires plan == Prelude(setup) + CheckoutSteps(true, b) + PublishTail(c, job, m, b)
    requires r == Execute(plan, fault, DeleteCleanup)
    ensures r.verdict.Success? ==>
              && Git(Commit(m, b)) in r.steps && Git(Push(b)) in r.steps
              && TriggerJob(job) in r.steps && r.steps[|r.steps| - 1] == RemoveWorkdir
  {
    var head := Prelude(setup) + CheckoutSteps(true, b);
    var tail := PublishTail(c, job, m, b);
    PublishPlanShape(setup, true, c, job, m, b, head, tail);
    ExecuteEnds(plan, fault, DeleteCleanup);
  }

  /** Pointing the module back at `production` takes exactly it off the
      branch: the names still on the branch afterwards are the others. */
  lemma {:induction false} ResetLeavesOthers(es: seq<Entry>, name: string, branch: string)
    requires IsName(name) && branch != Production
    ensures HitNames(Retarget(es, ResetPattern(name, branch), Production), BranchPattern(branch)) ==
              OtherModules(HitNames(es, BranchPattern(branch)), name)
  {
    if |es| > 0 {
      var e := es[0];
      var pat := ResetPattern(name, branch);
      var rs := Retarget(es, pat, Production);
      assert rs == [Retargeted(e, pat, Production)] + Retarget(es[1..], pat, Production);
      assert rs[1..] == Retarget(es[1..], pat, Production);
      ResetLeavesOthers(es[1..], name, branch);
      BranchPatternHit(branch, e);
      ResetPatternHit(name, branch, e);
      BranchPatternHit(branch, Retargeted(e, pat, Production));
    }
  }

  /** `production` is a plain token. */
  lemma ProductionToken()
    ensures IsToken(Production)
  {
    PlainToken(Production);
  }

  /** No entry on `branch` has a repository name that merely ends with
      `name`: every entry there whose URL ends with `<name>.git` is the
      module `name` itself. */
  predicate NoOverreach(es: seq<Entry>, name: string, branch: string) {
    forall i :: 0 <= i < |es| && es[i].ref == branch && EndsWith(es[i].url, name + ".git") ==>
      Basename(es[i].url) == name
  }

  /** A URL ending with `<name>.git` ends with `.git`. */
  lemma GitSuffix(name: string, url: string)
    requires EndsWith(url, name + ".git")
    ensures EndsWith(url, ".git")
  {
    assert url[|url| - 4..] == url[|url| - |name| - 4..][|name|..];
  }

  /** A `.git` URL whose repository name is `name` ends with `<name>.git`. */
  lemma NamedUrl(name: string, url: string)
    requires IsName(name)
    ensures EndsWith(url, ".git") && Basename(url) == name ==> EndsWith(url, name + ".git")
  {
    if EndsWith(url, ".git") && Basename(url) == name {
      BasenameIsBoundedName(name, url);
    }
  }

  /** Without overreach the two reset expressions hit the same entries. */
  lemma RetargetAgrees(es: seq<Entry>, name: string, branch: string)
    requires IsName(name) && NoOverreach(es, name, branch)
    ensures Retarget(es, ResetPatternAsWritten(name, branch), Production) ==
              Retarget(es, ResetPattern(name, branch), Production)
  {
    var a := Retarget(es, ResetPatternAsWritten(name, branch), Production);
    var c := Retarget(es, ResetPattern(name, branch), Production);
    forall i | 0 <= i < |es| ensures a[i] == c[i] {
      ResetAsWrittenHit(name, branch, es[i]);
      ResetPatternHit(name, branch, es[i]);
      if EndsWith(es[i].url, name + ".git") {
        GitSuffix(name, es[i].url);
      }
    }
  }

  /** The reset as written takes the module off the branch, and every
      module it leaves on the branch is one of the others. */
  lemma ResetAsWrittenKeeps(es: seq<Entry>, name: string, branch: string)
    requires IsName(name) && branch != Production
    ensures forall x :: x in HitNames(Retarget(es, ResetPatternAsWritten(name, branch), Production), BranchPattern(branch)) ==>
              x in OtherModules(HitNames(es, BranchPattern(branch)), name)
  {
    var rs := Retarget(es, ResetPatternAsWritten(name, branch), Production);
    forall x | x in HitNames(rs, BranchPattern(branch))
      ensures x in OtherModules(HitNames(es, BranchPattern(branch)), name)
    {
      var i :| 0 <= i < |rs| && Hit(BranchPattern(branch), rs[i]) && Basename(rs[i].url) == x;
      BranchPatternHit(branch, rs[i]);
      ResetAsWrittenHit(name, branch, es[i]);
      NamedUrl(name, es[i].url);
      assert rs[i] == es[i];
      assert Hit(BranchPattern(branch), es[i]);
    }
  }

  /** On a rendered Puppetfile: `module_list` is the names of the other
      entries on the branch, in order; the reset points every entry on the
      branch whose URL ends with `<module>.git` at `production`; afterwards
      this module is off the branch and every module left on it is in
      `module_list`; and when no other repository name on the branch ends
      with the module's name, the modules left are exactly `module_list`. */
  lemma DeleteRendered(h: string, es: seq<Entry>, t: Target)
    requires SafeHeader(h) && AllWellFormed(es) && IsName(t.moduleName)
    requires CleanRef(ExactRef(t.branch)) && t.branch != Production
    ensures Others(Render(h, es), t) == OtherModules(HitNames(es, BranchPattern(t.branch)), t.moduleName)
    ensures ResetToProductionAsWritten(Render(h, es), t.moduleName, t.branch) ==
              Render(h, Retarget(es, ResetPatternAsWritten(t.moduleName, t.branch), Production))
    ensures forall x :: x in ModulesOnBranch(ResetToProductionAsWritten(Render(h, es), t.moduleName, t.branch), t.branch) ==>
              x in Others(Render(h, es), t)
    ensures t.moduleName !in ModulesOnBranch(ResetToProductionAsWritten(Render(h, es), t.moduleName, t.branch), t.branch)
    ensures NoOverreach(es, t.moduleName, t.branch) ==>
              ModulesOnBranch(ResetToProductionAsWritten(Render(h, es), t.moduleName, t.branch), t.branch) ==
              Others(Render(h, es), t)
  {
    var rs := Retarget(es, ResetPatternAsWritten(t.moduleName, t.branch), Production);
    ModulesOnBranchRendered(h, es, t.branch);
    ResetAsWrittenRendered(h, es, t.moduleName, t.branch);
    ProductionToken();
    RetargetWellFormed(es, ResetPatternAsWritten(t.moduleName, t.branch), Production);
    ModulesOnBranchRendered(h, rs, t.branch);
    ResetAsWrittenKeeps(es, t.moduleName, t.branch);
    if NoOverreach(es, t.moduleName, t.branch) {
      RetargetAgrees(es, t.moduleName, t.branch);
      ResetLeavesOthers(es, t.moduleName, t.branch);
    }
  }

  /** The corrected reset on a rendered Puppetfile: it points exactly this
      module's entries on the branch at `production`, and afterwards the
      modules on the branch are `module_list`, this one no longer among
      them. */
  lemma DeleteRenderedCorrected(h: string, es: seq<Entry>, t: Target)
    requires SafeHeader(h) && AllWellFormed(es) && IsName(t.moduleName)
    requires CleanRef(ExactRef(t.branch)) && t.branch != Production
    ensures ResetToProduction(Render(h, es), t.moduleName, t.branch) ==
              Render(h, Retarget(es, ResetPattern(t.moduleName, t.branch), Production))
    ensures ModulesOnBranch(ResetToProduction(Render(h, es), t.moduleName, t.branch), t.branch) == Others(Render(h, es), t)
    ensures t.moduleName !in ModulesOnBranch(ResetToProduction(Render(h, es), t.moduleName, t.branch), t.branch)
  {
    var rs := Retarget(es, ResetPattern(t.moduleName, t.branch), Production);
    ModulesOnBranchRendered(h, es, t.branch);
    ResetRendered(h, es, t.moduleName, t.branch);
    ProductionToken();
    RetargetWellFormed(es, ResetPattern(t.moduleName, t.branch), Production);
    ModulesOnBranchRendered(h, rs, t.branch);
    ResetLeavesOthers(es, t.moduleName, t.branch);
  }

  /** The corrected handler on a rendered Puppetfile with other modules on
      the branch writes the Puppetfile in which exactly this module's
      entries on the branch point at `production`, and that leaves exactly
      `module_list` on the branch. */
  lemma DeleteCorrectedWrites(setup: Setup, h: string, es: seq<Entry>, t: Target, w: World)
    requires w.puppetfile == Render(h, es)
    requires SafeHeader(h) && AllWellFormed(es) && IsName(t.moduleName)
    requires CleanRef(ExactRef(t.branch)) && t.branch != Production
    requires BranchExist(w.lsRemote, t.branch) && |Others(w.puppetfile, t)| > 0
    ensures WritesAre(RunDeleteCorrected(setup, t, w).steps,
                      Render(h, Retarget(es, ResetPattern(t.moduleName, t.branch), Production)))
    ensures ModulesOnBranch(Render(h, Retarget(es, ResetPattern(t.moduleName, t.branch), Production)), t.branch) ==
              Others(w.puppetfile, t)
  {
    DeleteRenderedCorrected(h, es, t);
    ResetRunContent(setup, t.moduleName, t.branch, ResetToProduction(w.puppetfile, t.moduleName, t.branch),
                    DeleteJob(t, w), DeletePlanCorrected(setup, t, w), w.fault, RunDeleteCorrected(setup, t, w));
  }

  /** Two step lists that differ at most in the text of their Puppetfile
      writes. */
  predicate AlikeButWrites(a: seq<Step>, b: seq<Step>) {
    |a| == |b| && forall i :: 0 <= i < |a| ==> a[i] == b[i] || (a[i].WritePuppetfile? && b[i].WritePuppetfile?)
  }

  /** Plans built around two reset texts differ only in what they write. */
  lemma PlansAlike(setup: Setup, t: Target, w: World, c1: string, c2: string)
    ensures AlikeButWrites(PlanWith(setup, t, w, c1), PlanWith(setup, t, w, c2))
    ensures c1 == c2 ==> PlanWith(setup, t, w, c1) == PlanWith(setup, t, w, c2)
  {
    var head := Prelude(setup) + CheckoutSteps(true, t.branch);
    var job := DeleteJob(t, w);
    TailsAlike(head, c1, c2, job, t.moduleName, t.branch, head + PublishTail(c1, job, t.moduleName, t.branch),
               head + PublishTail(c2, job, t.moduleName, t.branch));
    AlikeItself(PlanWith(setup, t, w, c1));
  }

  /** Any step list is alike to itself. */
  lemma AlikeItself(p: seq<Step>)
    ensures AlikeButWrites(p, p)
  {
  }

  /** The same head followed by publishing two texts. */
  lemma TailsAlike(head: seq<Step>, c1: string, c2: string, job: DeployInfo, m: string, b: string,
                   p1: seq<Step>, p2: seq<Step>)
    requires p1 == head + PublishTail(c1, job, m, b) && p2 == head + PublishTail(c2, job, m, b)
    ensures AlikeButWrites(p1, p2)
  {
    forall i | 0 <= i < |p1| ensures p1[i] == p2[i] || (p1[i].WritePuppetfile? && p2[i].WritePuppetfile?) {
      if i >= |head| {
        assert p1[i] == PublishTail(c1, job, m, b)[i - |head|];
        assert p2[i] == PublishTail(c2, job, m, b)[i - |head|];
      }
    }
  }

  /** Running two plans that differ only in what they write. */
  lemma ExecuteAlike(p1: seq<Step>, p2: seq<Step>, fault: Option<Fault>, onError: seq<Step>)
    requires AlikeButWrites(p1, p2)
    ensures AlikeButWrites(Execute(p1, fault, onError).steps, Execute(p2, fault, onError).steps)
    ensures Execute(p1, fault, onError).verdict == Execute(p2, fault, onError).verdict
  {
  }

  /** The handler as written and the corrected one take the same steps with
      the same outcome, except for the text they write, and they are the
      same run when both resets give the same text. */
  lemma DeleteHandlersAlike(setup: Setup, t: Target, w: World)
    ensures AlikeButWrites(RunDelete(setup, t, w).steps, RunDeleteCorrected(setup, t, w).steps)
    ensures RunDelete(setup, t, w).verdict == RunDeleteCorrected(setup, t, w).verdict
    ensures ResetToProductionAsWritten(w.puppetfile, t.moduleName, t.branch) ==
              ResetToProduction(w.puppetfile, t.moduleName, t.branch) ==>
              RunDelete(setup, t, w) == RunDeleteCorrected(setup, t, w)
  {
    var c1 := ResetToProductionAsWritten(w.puppetfile, t.moduleName, t.branch);
    var c2 := ResetToProduction(w.puppetfile, t.moduleName, t.branch);
    PlansAlike(setup, t, w, c1, c2);
    ExecuteAlike(PlanWith(setup, t, w, c1), PlanWith(setup, t, w, c2), w.fault, DeleteCleanup);
  }

  /** On a rendered Puppetfile where no other repository name on the branch
      ends with the module's name, the handler as written is the corrected
      one. */
  lemma DeleteAgrees(setup: Setup, h: string, es: seq<Entry>, t: Target, w: World)
    requires w.puppetfile == Render(h, es)
    requires SafeHeader(h) && AllWellFormed(es) && IsName(t.moduleName) && CleanRef(ExactRef(t.branch))
    requires NoOverreach(es, t.moduleName, t.branch)
    ensures RunDelete(setup, t, w) == RunDeleteCorrected(setup, t, w)
  {
    ResetAsWrittenRendered(h, es, t.moduleName, t.branch);
    ResetRendered(h, es, t.moduleName, t.branch);
    RetargetAgrees(es, t.moduleName, t.branch);
    DeleteHandlersAlike(setup, t, w);
  }
}
