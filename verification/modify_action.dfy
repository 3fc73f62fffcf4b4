/** The `modify` handler (lib/git/modify_action.js): like `create`, but the
    Puppetfile is written only when the module is missing or its first
    `:ref` is not the branch, and commit and push happen only when something
    changed on the branch. */
module ModifyAction {
  import opened Results
  import opened Text
  import opened GitUtils
  import opened Rundeck
  import opened PuppetfileMatch
  import opened Puppetfile
  import opened EntryLayout
  import opened Manifest
  import opened PuppetfileEdits
  import opened Workflow
  import opened CreateAction

  /** The Puppetfile the handler writes, if it writes one: the appended entry
      when the module is missing, the retargeted file when the first `:ref`
      found is another branch. */
  function ModifyContent(content: string, t: Target): Option<string> {
    match FindRef(content, t.repoUrl)
    case None => Some(AppendEntry(content, NewEntry(t)))
    case Some(ref) => if ref != t.branch then Some(SetRef(content, t.repoUrl, t.branch)) else None
  }

  /** The Puppetfile on the branch once the handler is done. */
  function Edited(content: string, t: Target): string {
    match ModifyContent(content, t)
    case Some(c) => c
    case None => content
  }

  /** `pushNeeded`: a full deployment or a write. */
  predicate PushNeeded(w: World, t: Target) {
    FullDeployment(w, t.branch) || ModifyContent(w.puppetfile, t).Some?
  }

  /** The write, when there is an edit. */
  function WriteSteps(edit: Option<string>): seq<Step> {
    if edit.Some? then [WritePuppetfile(edit.value)] else []
  }

  /** Commit and push, when a push is needed. */
  function PushSteps(push: bool, m: string, b: string): seq<Step> {
    if push then [Git(Commit(m, b)), Git(Push(b))] else []
  }

  /** The steps after the checkout. */
  function ModifyTail(edit: Option<string>, push: bool, job: DeployInfo, m: string, b: string): seq<Step> {
    [ReadPuppetfile] + WriteSteps(edit) + PushSteps(push, m, b) + [TriggerJob(job), RemoveWorkdir]
  }

  /** The write step writes only the edit, and nothing else is there. */
  lemma WriteStepsFacts(edit: Option<string>, job: DeployInfo, m: string, b: string)
    ensures NoJob(WriteSteps(edit))
    ensures Git(Commit(m, b)) !in WriteSteps(edit) && Git(Push(b)) !in WriteSteps(edit)
    ensures edit.None? ==> NoWrite(WriteSteps(edit))
    ensures edit.Some? ==> WritesAre(WriteSteps(edit), edit.value)
    ensures JobsAre(WriteSteps(edit), job)
  {
  }

  /** Commit then push, exactly when a push is needed. */
  lemma PushStepsFacts(push: bool, job: DeployInfo, content: string, m: string, b: string)
    ensures NoJob(PushSteps(push, m, b)) && NoWrite(PushSteps(push, m, b))
    ensures JobsAre(PushSteps(push, m, b), job) && WritesAre(PushSteps(push, m, b), content)
    ensures Git(Commit(m, b)) in PushSteps(push, m, b) <==> push
    ensures Git(Push(b)) in PushSteps(push, m, b) <==> push
    ensures Precedes(PushSteps(push, m, b), Git(Commit(m, b)), Git(Push(b)))
  {
    if push {
      var p := PushSteps(push, m, b);
      forall i | 0 <= i < |p| && p[i] == Git(Push(b)) ensures Git(Commit(m, b)) in p[..i] {
        assert i == 1;
        assert p[..i][0] == p[0];
      }
    }
  }

  /** The job and the removal that end the tail. */
  lemma FinalStepsFacts(job: DeployInfo, content: string, m: string, b: string)
    ensures JobsAre([TriggerJob(job), RemoveWorkdir], job)
    ensures NoWrite([TriggerJob(job), RemoveWorkdir]) && WritesAre([TriggerJob(job), RemoveWorkdir], content)
    ensures Git(Push(b)) !in [TriggerJob(job), RemoveWorkdir] && Git(Commit(m, b)) !in [TriggerJob(job), RemoveWorkdir]
  {
  }

  /** The tail's order: commit before push, and the read (and the push,
      when there is one) before the job. */
  lemma ModifyTailOrder(edit: Option<string>, push: bool, job: DeployInfo, m: string, b: string)
    ensures Precedes(ModifyTail(edit, push, job, m, b), Git(Commit(m, b)), Git(Push(b)))
    ensures push ==> PrecedesJobs(ModifyTail(edit, push, job, m, b), Git(Push(b)))
    ensures PrecedesJobs(ModifyTail(edit, push, job, m, b), ReadPuppetfile)
  {
    var rw := [ReadPuppetfile] + WriteSteps(edit);
    var rwp := rw + PushSteps(push, m, b);
    var fin := [TriggerJob(job), RemoveWorkdir];
    WriteStepsFacts(edit, job, m, b);
    PushStepsFacts(push, job, "", m, b);
    FinalStepsFacts(job, "", m, b);
    ConcatContent([ReadPuppetfile], WriteSteps(edit), job, "");
    ConcatContent(rw, PushSteps(push, m, b), job, "");
    ConcatOrder(rw, PushSteps(push, m, b), Git(Commit(m, b)), Git(Push(b)), ReadPuppetfile);
    ConcatOrder(rwp, fin, Git(Commit(m, b)), Git(Push(b)), ReadPuppetfile);
    if push {
      ConcatOrder(rwp, fin, Git(Commit(m, b)), Git(Push(b)), Git(Push(b)));
    }
  }

  /** The tail commits and pushes exactly when a push is needed, writes
      only the edit and asks only for `job`. */
  lemma ModifyTailContent(edit: Option<string>, push: bool, job: DeployInfo, m: string, b: string)
    ensures Git(Commit(m, b)) in ModifyTail(edit, push, job, m, b) <==> push
    ensures Git(Push(b)) in ModifyTail(edit, push, job, m, b) <==> push
    ensures JobsAre(ModifyTail(edit, push, job, m, b), job)
    ensures edit.None? ==> NoWrite(ModifyTail(edit, push, job, m, b))
    ensures edit.Some? ==> WritesAre(ModifyTail(edit, push, job, m, b), edit.value)
  {
    var content := if edit.Some? then edit.value else "";
    var rw := [ReadPuppetfile] + WriteSteps(edit);
    var rwp := rw + PushSteps(push, m, b);
    WriteStepsFacts(edit, job, m, b);
    PushStepsFacts(push, job, content, m, b);
    FinalStepsFacts(job, content, m, b);
    ConcatContent([ReadPuppetfile], WriteSteps(edit), job, content);
    ConcatContent(rw, PushSteps(push, m, b), job, content);
    ConcatContent(rwp, [TriggerJob(job), RemoveWorkdir], job, content);
  }

  /** The tail ends with the job and the removal of the working copy. */
  lemma ModifyTailShape(edit: Option<string>, push: bool, job: DeployInfo, m: string, b: string)
    ensures TriggerJob(job) in ModifyTail(edit, push, job, m, b)
    ensures ModifyTail(edit, push, job, m, b)[|ModifyTail(edit, push, job, m, b)| - 1] == RemoveWorkdir
    ensures RestoreCwd !in ModifyTail(edit, push, job, m, b)
  {
  }

  /** The steps the handler takes when nothing throws. */
  function ModifyPlan(setup: Setup, t: Target, w: World): seq<Step> {
    Prelude(setup) + CheckoutSteps(BranchExist(w.lsRemote, t.branch), t.branch)
    + ModifyTail(ModifyContent(w.puppetfile, t), PushNeeded(w, t), DeployFor(t, FullDeployment(w, t.branch)), t.moduleName, t.branch)
  }

  /** The `catch` block: only the removal of the working copy. */
  const ModifyCleanup: seq<Step> := [RemoveWorkdir]

  /** `runModify`: the steps taken and what is passed to `done`. */
  function RunModify(setup: Setup, t: Target, w: World): Run {
    Execute(ModifyPlan(setup, t, w), w.fault, ModifyCleanup)
  }

  /** The plan's order. */
  lemma ModifyPlanOrder(setup: Setup, onRemote: bool, edit: Option<string>, push: bool, job: DeployInfo,
                        m: string, b: string, head: seq<Step>, tail: seq<Step>)
    requires head == Prelude(setup) + CheckoutSteps(onRemote, b)
    requires tail == ModifyTail(edit, push, job, m, b)
    ensures Precedes(head + tail, Git(Commit(m, b)), Git(Push(b)))
    ensures push ==> PrecedesJobs(head + tail, Git(Push(b)))
  {
    HeadFacts(setup, onRemote, b);
    ModifyTailOrder(edit, push, job, m, b);
    ConcatOrder(head, tail, Git(Commit(m, b)), Git(Push(b)), Git(Push(b)));
  }

  /** The plan's writes, job, checkout and pushes. */
  lemma ModifyPlanContent(setup: Setup, onRemote: bool, edit: Option<string>, push: bool, job: DeployInfo,
                          m: string, b: string, head: seq<Step>, tail: seq<Step>)
    requires head == Prelude(setup) + CheckoutSteps(onRemote, b)
    requires tail == ModifyTail(edit, push, job, m, b)
    ensures JobsAre(head + tail, job)
    ensures edit.None? ==> NoWrite(head + tail)
    ensures edit.Some? ==> WritesAre(head + tail, edit.value)
    ensures Git(CheckoutNew(b)) in head + tail ==> !onRemote
    ensures Git(CheckoutForce(b)) in head + tail ==> onRemote
    ensures Git(Commit(m, b)) in head + tail <==> push
    ensures Git(Push(b)) in head + tail <==> push
  {
    ModifyPlanWrites(setup, onRemote, edit, push, job, m, b, head, tail);
    ModifyPlanGits(setup, onRemote, edit, push, job, m, b, head, tail);
  }

  lemma ModifyPlanWrites(setup: Setup, onRemote: bool, edit: Option<string>, push: bool, job: DeployInfo,
                         m: string, b: string, head: seq<Step>, tail: seq<Step>)
    requires head == Prelude(setup) + CheckoutSteps(onRemote, b)
    requires tail == ModifyTail(edit, push, job, m, b)
    ensures JobsAre(head + tail, job)
    ensures edit.None? ==> NoWrite(head + tail)
    ensures edit.Some? ==> WritesAre(head + tail, edit.value)
  {
    HeadFacts(setup, onRemote, b);
    ModifyTailContent(edit, push, job, m, b);
    ConcatContent(head, tail, job, if edit.Some? then edit.value else "");
  }

  lemma ModifyPlanGits(setup: Setup, onRemote: bool, edit: Option<string>, push: bool, job: DeployInfo,
                       m: string, b: string, head: seq<Step>, tail: seq<Step>)
    requires head == Prelude(setup) + CheckoutSteps(onRemote, b)
    requires tail == ModifyTail(edit, push, job, m, b)
    ensures Git(CheckoutNew(b)) in head + tail ==> !onRemote
    ensures Git(CheckoutForce(b)) in head + tail ==> onRemote
    ensures Git(Commit(m, b)) in head + tail <==> push
    ensures Git(Push(b)) in head + tail <==> push
  {
    HeadFacts(setup, onRemote, b);
    ModifyTailContent(edit, push, job, m, b);
    assert CheckoutNew(b) != CheckoutForce(b);
  }

  /** The plan's first and last steps and its job. */
  lemma ModifyPlanShape(setup: Setup, onRemote: bool, edit: Option<string>, push: bool, job: DeployInfo,
                        m: string, b: string, head: seq<Step>, tail: seq<Step>)
    requires head == Prelude(setup) + CheckoutSteps(onRemote, b)
    requires tail == ModifyTail(edit, push, job, m, b)
    ensures TriggerJob(job) in head + tail
    ensures (head + tail)[|head + tail| - 1] == RemoveWorkdir
    ensures (head + tail)[0] == Git(Clone(setup.puppetfileUrl, setup.workdir))
    ensures RestoreCwd !in head + tail
  {
    ModifyTailShape(edit, push, job, m, b);
    assert (head + tail)[|head + tail| - 1] == tail[|tail| - 1];
  }

  /** How `runModify` ends: with the clone first; on success with the job
      run and the working copy removed last; on failure with the thrown
      error after the throwing step and a removal of the working copy, and
      never a change of directory. */
  lemma ModifyEnds(setup: Setup, t: Target, w: World)
    ensures |RunModify(setup, t, w).steps| > 0
    ensures RunModify(setup, t, w).steps[0] == Git(Clone(setup.puppetfileUrl, setup.workdir))
    ensures RunModify(setup, t, w).verdict.Success? <==> w.fault.None? || w.fault.value.step >= |RunModify(setup, t, w).steps|
    ensures RunModify(setup, t, w).verdict.Failure? ==>
              && RunModify(setup, t, w).verdict.error == w.fault.value.error
              && |RunModify(setup, t, w).steps| == w.fault.value.step + 2
              && RunModify(setup, t, w).steps[|RunModify(setup, t, w).steps| - 1] == RemoveWorkdir
    ensures RunModify(setup, t, w).verdict.Success? ==>
              && RunModify(setup, t, w).steps[|RunModify(setup, t, w).steps| - 1] == RemoveWorkdir
              && TriggerJob(DeployFor(t, FullDeployment(w, t.branch))) in RunModify(setup, t, w).steps
    ensures RestoreCwd !in RunModify(setup, t, w).steps
  {
    ModifyRunEnds(setup, BranchExist(w.lsRemote, t.branch), ModifyContent(w.puppetfile, t), PushNeeded(w, t),
                  DeployFor(t, FullDeployment(w, t.branch)), t.moduleName, t.branch,
                  ModifyPlan(setup, t, w), w.fault, RunModify(setup, t, w));
  }

  lemma ModifyRunEnds(setup: Setup, onRemote: bool, edit: Option<string>, push: bool, job: DeployInfo,
                      m: string, b: string, plan: seq<Step>, fault: Option<Fault>, r: Run)
    requires plan == Prelude(setup) + CheckoutSteps(onRemote, b) + ModifyTail(edit, push, job, m, b)
    requires r == Execute(plan, fault, ModifyCleanup)
    ensures |r.steps| > 0 && r.steps[0] == Git(Clone(setup.puppetfileUrl, setup.workdir))
    ensures r.verdict.Success? <==> fault.None? || fault.value.step >= |r.steps|
    ensures r.verdict.Failure? ==>
              && r.verdict.error == fault.value.error
              && |r.steps| == fault.value.step + 2
              && r.steps[|r.steps| - 1] == RemoveWorkdir
    ensures r.verdict.Success? ==> r.steps[|r.steps| - 1] == RemoveWorkdir && TriggerJob(job) in r.steps
    ensures RestoreCwd !in r.steps
  {
    var head := Prelude(setup) + CheckoutSteps(onRemote, b);
    var tail := ModifyTail(edit, push, job, m, b);
    ModifyPlanShape(setup, onRemote, edit, push, job, m, b, head, tail);
    ExecuteEnds(plan, fault, ModifyCleanup);
    ExecuteKeepsContent(plan, fault, ModifyCleanup, job, "");
  }


  /** `runModify` never pushes before committing, and when it pushes it
      does so before the job. */
  lemma ModifyOrder(setup: Setup, t: Target, w: World)
    ensures Precedes(RunModify(setup, t, w).steps, Git(Commit(t.moduleName, t.branch)), Git(Push(t.branch)))
    ensures PushNeeded(w, t) ==> PrecedesJobs(RunModify(setup, t, w).steps, Git(Push(t.branch)))
  {
    ModifyRunOrder(setup, BranchExist(w.lsRemote, t.branch), ModifyContent(w.puppetfile, t), PushNeeded(w, t),
                   DeployFor(t, FullDeployment(w, t.branch)), t.moduleName, t.branch,
                   ModifyPlan(setup, t, w), w.fault, RunModify(setup, t, w));
  }

  lemma ModifyRunOrder(setup: Setup, onRemote: bool, edit: Option<string>, push: bool, job: DeployInfo,
                       m: string, b: string, plan: seq<Step>, fault: Option<Fault>, r: Run)
    requires plan == Prelude(setup) + CheckoutSteps(onRemote, b) + ModifyTail(edit, push, job, m, b)
    requires r == Execute(plan, fault, ModifyCleanup)
    ensures Precedes(r.steps, Git(Commit(m, b)), Git(Push(b)))
    ensures push ==> PrecedesJobs(r.steps, Git(Push(b)))
  {
    var head := Prelude(setup) + CheckoutSteps(onRemote, b);
    var tail := ModifyTail(edit, push, job, m, b);
    ModifyPlanOrder(setup, onRemote, edit, push, job, m, b, head, tail);
    ExecuteKeepsOrder(plan, fault, ModifyCleanup, Git(Commit(m, b)), Git(Push(b)), Git(Push(b)));
  }


  /** `runModify` writes only when `ModifyContent` says so, commits and
      pushes only when a push is needed (and, on success, does then), runs
      `deploy_env` exactly for a full deployment, and checks out the way
      the branch test says. */
  lemma ModifyEffects(setup: Setup, t: Target, w: World)
    ensures ModifyContent(w.puppetfile, t).None? ==> NoWrite(RunModify(setup, t, w).steps)
    ensures ModifyContent(w.puppetfile, t).Some? ==>
              WritesAre(RunModify(setup, t, w).steps, ModifyContent(w.puppetfile, t).value)
    ensures JobsAre(RunModify(setup, t, w).steps, DeployFor(t, FullDeployment(w, t.branch)))
    ensures Git(Commit(t.moduleName, t.branch)) in RunModify(setup, t, w).steps ==> PushNeeded(w, t)
    ensures Git(Push(t.branch)) in RunModify(setup, t, w).steps ==> PushNeeded(w, t)
    ensures RunModify(setup, t, w).verdict.Success? ==>
              (Git(Commit(t.moduleName, t.branch)) in RunModify(setup, t, w).steps <==> PushNeeded(w, t))
              && (Git(Push(t.branch)) in RunModify(setup, t, w).steps <==> PushNeeded(w, t))
    ensures Git(CheckoutNew(t.branch)) in RunModify(setup, t, w).steps ==> !BranchExist(w.lsRemote, t.branch)
    ensures Git(CheckoutForce(t.branch)) in RunModify(setup, t, w).steps ==> BranchExist(w.lsRemote, t.branch)
  {
    ModifyRunEffects(setup, BranchExist(w.lsRemote, t.branch), ModifyContent(w.puppetfile, t), PushNeeded(w, t),
                     DeployFor(t, FullDeployment(w, t.branch)), t.moduleName, t.branch,
                     ModifyPlan(setup, t, w), w.fault, RunModify(setup, t, w));
  }

  lemma ModifyRunEffects(setup: Setup, onRemote: bool, edit: Option<string>, push: bool, job: DeployInfo,
                         m: string, b: string, plan: seq<Step>, fault: Option<Fault>, r: Run)
    requires plan == Prelude(setup) + CheckoutSteps(onRemote, b) + ModifyTail(edit, push, job, m, b)
    requires r == Execute(plan, fault, ModifyCleanup)
    ensures edit.None? ==> NoWrite(r.steps)
    ensures edit.Some? ==> WritesAre(r.steps, edit.value)
    ensures JobsAre(r.steps, job)
    ensures Git(Commit(m, b)) in r.steps ==> push
    ensures Git(Push(b)) in r.steps ==> push
    ensures r.verdict.Success? ==> (Git(Commit(m, b)) in r.steps <==> push) && (Git(Push(b)) in r.steps <==> push)
    ensures Git(CheckoutNew(b)) in r.steps ==> !onRemote
    ensures Git(CheckoutForce(b)) in r.steps ==> onRemote
  {
    var head := Prelude(setup) + CheckoutSteps(onRemote, b);
    var tail := ModifyTail(edit, push, job, m, b);
    ModifyPlanContent(setup, onRemote, edit, push, job, m, b, head, tail);
    ExecuteEnds(plan, fault, ModifyCleanup);
    ExecuteKeepsContent(plan, fault, ModifyCleanup, job, if edit.Some? then edit.value else "");
  }


  /** What `modify` writes is what `create` would write. */
  lemma ModifyAgreesWithCreate(content: string, t: Target)
    ensures ModifyContent(content, t).Some? ==> ModifyContent(content, t).value == CreateContent(content, t)
    ensures ModifyContent(content, t).None? <==> FindRef(content, t.repoUrl) == Some(t.branch)
  {
  }

  /** On a rendered Puppetfile the handler writes nothing exactly when the
      first entry whose URL ends with the repository URL is already on the
      branch; otherwise it appends the entry or retargets every such
      entry. */
  lemma ModifyContentRendered(h: string, es: seq<Entry>, t: Target)
    requires SafeHeader(h) && AllWellFormed(es) && WellFormed(NewEntry(t))
    ensures ModifyContent(Render(h, es), t).None? <==> FirstHitRef(es, RefPattern(t.repoUrl)) == Some(t.branch)
    ensures FirstHitRef(es, RefPattern(t.repoUrl)).None? ==>
              ModifyContent(Render(h, es), t) == Some(Render(h, es + [NewEntry(t)]))
    ensures FirstHitRef(es, RefPattern(t.repoUrl)).Some? && FirstHitRef(es, RefPattern(t.repoUrl)) != Some(t.branch) ==>
              ModifyContent(Render(h, es), t) == Some(Render(h, Retarget(es, RefPattern(t.repoUrl), t.branch)))
  {
    CreateContentRendered(h, es, t);
    assert Clean(t.repoUrl);
    FindRefRendered(h, es, t.repoUrl);
    ModifyByRef(Render(h, es), t, FirstHitRef(es, RefPattern(t.repoUrl)),
                Render(h, es + [NewEntry(t)]), Render(h, Retarget(es, RefPattern(t.repoUrl), t.branch)));
  }

  /** `modify` in terms of the ref found and the two texts `create` would
      write. */
  lemma ModifyByRef(content: string, t: Target, found: Option<string>, appended: string, retargeted: string)
    requires FindRef(content, t.repoUrl) == found
    requires found.None? ==> CreateContent(content, t) == appended
    requires found.Some? ==> CreateContent(content, t) == retargeted
    ensures ModifyContent(content, t).None? <==> found == Some(t.branch)
    ensures found.None? ==> ModifyContent(content, t) == Some(appended)
    ensures found.Some? && found != Some(t.branch) ==> ModifyContent(content, t) == Some(retargeted)
  {
  }

  /** After the handler, the module's `:ref` on a rendered Puppetfile is the
      branch, so a second `modify` writes nothing. */
  lemma ModifySettles(h: string, es: seq<Entry>, t: Target)
    requires SafeHeader(h) && AllWellFormed(es) && WellFormed(NewEntry(t))
    ensures FindRef(Edited(Render(h, es), t), t.repoUrl) == Some(t.branch)
    ensures ModifyContent(Edited(Render(h, es), t), t).None?
  {
    CreateContentRendered(h, es, t);
    ModifyAgreesWithCreate(Render(h, es), t);
  }
}
