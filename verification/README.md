# r10k-deployerjs in Dafny

r10k-deployerjs is a small service that keeps a Puppet control repository in
step with the feature branches of Puppet modules. A GitLab push webhook on a
module repository is classified as a `create`, `modify` or `delete` event. The
event is queued as a Kue job, and the job's handler then does three things:

- it edits the Puppetfile on the feature branch of the Puppetfile repository;
- it commits and pushes that edit;
- it asks Rundeck to run r10k for the whole feature environment or for the
  one module.

This project models that core as pure functions and proves what each piece
promises:

- `GitlabHandler` (lib/gitlabHandler.js) is the webhook classifier.
- `KueUtils` (lib/kueUtils.js) covers job validation, dispatch by event type
  and the purge of old failed jobs.
- `GitUtils` (lib/git/git_utils.js) covers the git command lines and the two
  predicates computed from git's output: "the branch is on the remote" and
  "the merge from `production` brought changes".
- `Rundeck` (lib/r10k/rundeck.js) covers the input check, the job choice, the
  launch request and the do-while polling loop.
- `PuppetfileMatch` runs the three Puppetfile regular expressions the way
  JavaScript runs a `gm` expression: `exec`, `replace` and the callback form
  of `replace`.
- `Puppetfile` defines the Puppetfile edits.
- `EntryLayout`, `Manifest` and `PuppetfileEdits` say what those edits do to a
  Puppetfile written as a header followed by `mod` entries in the service's
  own format.
- `Workflow`, `CreateAction`, `ModifyAction` and `DeleteAction` model
  `runCreate`, `runModify` and `runDelete` as step traces.

A step trace works like this:

- The outside world is an input: the `ls-remote` output, the merge output,
  the Puppetfile read, and the index of the step that throws (if one does).
- A run is the sequence of steps taken (git commands, Puppetfile read and
  write, the Rundeck job, restoring the working directory, removing the
  working copy) plus what is passed to Kue's `done` callback.

## Model

| member | source | states |
|---|---|---|
| GitlabHandler.DetectEvent | lib/gitlabHandler.js:11-58 | A missing payload, a push to the Puppetfile repository itself and a non-`heads` ref are rejected with their messages. Deleting `production` is the only other rejection. An accepted event carries the payload's name, URL, pusher and third ref segment. Its kind is `createEvent` exactly when `before` is all zeros, `deleteEvent` exactly when only `after` is, and `modifyEvent` otherwise. |
| GitlabHandler.BranchRefSegments | lib/gitlabHandler.js:22-24 | For `refs/heads/<b>` followed by nothing or by `/...`, the ref type is `heads` and the branch is `<b>`. A branch name containing `/` is cut at its first slash. |
| GitlabHandler.BranchPush | lib/gitlabHandler.js:19-58 | A branch push that is not the Puppetfile repository and not a deletion of `production` is accepted. It carries exactly the payload's fields and the kind chosen by the two hashes. |
| GitlabHandler.TagPush | lib/gitlabHandler.js:38-39 | A push of `refs/tags/<t>` is rejected with the message naming reference type `tags`. |
| KueUtils.JobType | lib/kueUtils.js:9 | The job type is REDIS_JOB_TYPE when it is set and non-empty, and `r10k` otherwise. |
| KueUtils.CreateJob | lib/kueUtils.js:19-39 | A job is queued exactly when `pfrepo`, `reponame`, `branch`, `repourl` and `type` are all truthy and the save succeeds. It is queued with one attempt and removed on completion. Otherwise the result is the malformed-data message or the save error. |
| KueUtils.PushUserUnchecked | lib/kueUtils.js:22-24 | Whether a job is accepted does not depend on the pusher's name. |
| KueUtils.Dispatch | lib/kueUtils.js:82-97 | `createEvent`, `modifyEvent` and `deleteEvent` each select their own handler, each in both directions. Any other type gives the unknown-type error. |
| KueUtils.ProcessJob | lib/kueUtils.js:77-101 | An unknown type fails the job with no step taken. A known type runs that handler on the job's branch, module name and URL. For `delete` that is the handler as written. |
| KueUtils.OnJobFailed | lib/kueUtils.js:43-74 | A purge happens exactly when the failed job was found, is of this app's type, and more than 30 jobs have failed. The purge is then `rangeByState('failed', 0, 20, 'asc')`. |
| KueUtils.OwnJobsPurge | lib/kueUtils.js:49-60 | For a job this app queued, a failure leads to a purge exactly past 30 failed jobs. A job of another type never leads to one. |
| KueUtils.DetectedEventDispatch | lib/kueUtils.js:19-39 | An event the webhook accepts (with its fields present) is queued as is and dispatched to `create` for a new branch, `delete` for a deleted one, and `modify` otherwise. |
| GitUtils.RemoteName | lib/git/git_utils.js:5 | The remote is PUPPETFILE_GIT_REMOTE_NAME when it is set and non-empty, and `origin` otherwise. |
| GitUtils.BranchExistLines | lib/git/git_utils.js:36-42 | For a branch name without line terminators, `branchExist` is true exactly when some line of the `ls-remote --heads` output ends with `refs/heads/<branch>`. |
| GitUtils.MergeContributedLines | lib/git/git_utils.js:61 | The merge counts as bringing changes exactly when some line of the trimmed output does not start with `Already up-to-date.`. An empty output counts as bringing changes. |
| GitUtils.UpToDateIsNoContribution | lib/git/git_utils.js:58-61 | git's one-line `Already up-to-date.` answer, with its trailing newline, does not count as bringing changes. |
| GitUtils.CommandArguments | lib/git/git_utils.js:18-102 | If the remote, branch, URL and directory contain no blank, every command line except `commit` splits at blanks into exactly its intended git arguments: `clone`, `fetch --prune -v`, `ls-remote --heads`, `checkout --force`, `pull`, `merge <remote>/production -X ours --no-edit`, `checkout -b`, `push`, `push --delete` and `status --porcelain`. |
| GitUtils.CommitMessageWords | lib/git/git_utils.js:76-84 | If the names contain no blank, the commit message is the eight words `Changing :ref for module <m> in branch <b>`. |
| Rundeck.SelectJob | lib/r10k/rundeck.js:24-39 | A missing type, branch or module gives the missing-information error. `deploy_env` selects the environment job and `deploy_mod` the module job. The argument string starts with `-r10k_env <branch>`. Any other type gives the wrong-type error. |
| Rundeck.ArgWords | lib/r10k/rundeck.js:31-35 | The argument strings read back as `-r10k_env <b>` and `-r10k_env <b> -r10k_module <m>`. |
| Rundeck.LogUrlError | lib/r10k/rundeck.js:90 | The failed-job message ends with the execution's log URL. |
| Rundeck.Terminal | lib/r10k/rundeck.js:79-95 | The response that stops polling gives success exactly for HTTP 200 with status `succeeded`. Any other HTTP code throws the HTTP-code error. HTTP 200 with another status throws the error that names the status and ends with the execution's log URL. |
| Rundeck.Poll | lib/r10k/rundeck.js:74-87 | The do-while loop makes one request per response, up to and including the first response that is an HTTP error or not `running`. That response decides the outcome. |
| Rundeck.PollCount | lib/r10k/rundeck.js:74-87 | When the first stopping response is at index k, exactly k+1 polls happen. |
| Rundeck.RunJob | lib/r10k/rundeck.js:8-97 | An input error makes no request. A successful selection first launches the job with its argument string. A launch other than HTTP 200 fails with that code. After a successful launch, every later request checks the same execution, and the outcome is the poll's outcome. |
| Workflow.Execute | lib/git/create_action.js:40-139 | A run with no throwing step takes every planned step and succeeds. Otherwise it stops at the throwing step, runs the `catch` steps and passes the thrown error to `done`. |
| Workflow.CheckoutSteps | lib/git/git_utils.js:45-73 | A branch on the remote is checked out with `checkout --force`, then `pull` and the merge from `production`. A new branch is created with `checkout -b`. |
| Workflow.DeployForSelects | lib/git/create_action.js:106-118 | `runJob` accepts the job a handler builds exactly when the branch and module name are non-empty. It picks the environment job exactly for a full deployment. |
| Workflow.ExecuteKeepsOrder | lib/git/create_action.js:129-139 | Whether the run succeeds or throws, order facts of the plan (commit before push, push before the job) hold in the trace. |
| Workflow.ExecuteKeepsContent | lib/git/create_action.js:129-139 | Whether the run succeeds or throws, the trace writes only what the plan writes and triggers only the plan's job. |
| Workflow.ExecuteEnds | lib/git/create_action.js:129-139 | A run starts as its plan does. A failure has exactly the steps up to the throwing one plus the `catch` steps. |
| Workflow.ConcatOrder | lib/git/create_action.js:97-118 | Order facts of two pieces of a plan carry over to the whole plan. |
| Workflow.PublishTailFacts | lib/git/create_action.js:69-127 | The read, write, commit, push, job and removal tail commits before pushing and pushes before the job. It writes only the new content and asks only for the chosen job. |
| CreateAction.CreateEnds | lib/git/create_action.js:40-139 | `runCreate` starts with the clone. It succeeds exactly when no step throws. On failure it ends with the restore of the working directory and the removal of the working copy. On success it commits, pushes, runs the chosen job and removes the working copy last. |
| CreateAction.CreateOrder | lib/git/create_action.js:97-118 | `runCreate` never pushes before committing, and never runs the job before pushing. |
| CreateAction.CreateEffects | lib/git/create_action.js:54-115 | `runCreate` writes only the edited Puppetfile. It runs `deploy_env` exactly when the branch is new or the merge brought changes. It uses `checkout -b` only for a branch not on the remote and `checkout --force` only for one that is. |
| CreateAction.CreateContentRendered | lib/git/create_action.js:69-94 | On a Puppetfile of well-formed entries, a module no entry's URL matches is appended. Otherwise every matching entry's `:ref` becomes the branch and nothing else changes. Either way the module's ref is then found to be the branch. |
| ModifyAction.ModifyEnds | lib/git/modify_action.js:40-164 | `runModify` starts with the clone. It succeeds exactly when no step throws. On failure it removes the working copy last and never changes directory. On success it runs the job and removes the working copy last. |
| ModifyAction.ModifyOrder | lib/git/modify_action.js:118-146 | `runModify` never pushes before committing. When a push is needed, it pushes before the job. |
| ModifyAction.ModifyEffects | lib/git/modify_action.js:54-143 | `runModify` writes only when the module is missing or its first ref is another branch. On success it commits and pushes exactly when a push is needed: a full deployment or a write. It runs `deploy_env` exactly for a full deployment, and checks out the way the branch test says. |
| ModifyAction.ModifyAgreesWithCreate | lib/git/modify_action.js:71-108 | What `modify` writes is what `create` would write. It writes nothing exactly when the module's first ref is already the branch. |
| ModifyAction.ModifyContentRendered | lib/git/modify_action.js:71-108 | On a Puppetfile of well-formed entries, nothing is written exactly when the first matching entry is on the branch. Otherwise the entry is appended, or every matching entry is pointed at the branch. |
| ModifyAction.ModifyByRef | lib/git/modify_action.js:75-107 | `modify`'s edit in terms of the ref found: none means append, another branch means retarget, the branch itself means no edit. |
| ModifyAction.ModifySettles | lib/git/modify_action.js:96 | After a `modify`, the module's ref is the branch, so a second `modify` writes nothing. |
| DeleteAction.DeleteEnds | lib/git/delete_action.js:43-145 | `runDelete` starts with the clone and succeeds exactly when no step throws. On failure it ends with the restore of the working directory and the removal of the working copy. |
| DeleteAction.DeleteGone | lib/git/delete_action.js:58-64 | A branch already gone from the remote leads to no checkout, write, commit, push, deletion or job. A success stops after the branch test and leaves the working copy in place. |
| DeleteAction.DeletePlanIs | lib/git/delete_action.js:67-123 | For a branch on the remote, the plan is: checkout, then delete the branch if no other module is on it. Otherwise it writes the Puppetfile that the reset expression as written gives, then commits, pushes and runs the job. |
| DeleteAction.DeleteLast | lib/git/delete_action.js:88-92 | When this is the last module on the branch, nothing is written, committed, pushed or deployed. |
| DeleteAction.DeleteLastOrder | lib/git/delete_action.js:76-127 | When this is the last module on the branch, the branch is deleted only after the Puppetfile has been read. A success deletes the branch and removes the working copy last. |
| DeleteAction.DeleteReset | lib/git/delete_action.js:94-123 | When other modules are on the branch, the branch is not deleted. The only write is the Puppetfile after `content.replace(module_regex, '$1production$2')` with the expression as written. The job is `deploy_env` exactly when the merge brought changes. |
| DeleteAction.DeleteResetOrder | lib/git/delete_action.js:104-121 | When other modules are on the branch, the commit comes before the push and the push before the job. |
| DeleteAction.DeleteResetDone | lib/git/delete_action.js:94-127 | When other modules are on the branch, a success commits, pushes, runs the job and removes the working copy last. |
| DeleteAction.ResetLeavesOthers | lib/git/delete_action.js:78-97 | Corrected expression: resetting with it takes exactly this module off the branch. The modules left on the branch are the old list minus this module. |
| DeleteAction.ResetAsWrittenKeeps | lib/git/delete_action.js:78-97 | As written: the reset takes this module off the branch. Every module it leaves on the branch is in `module_list`. |
| DeleteAction.RetargetAgrees | lib/git/delete_action.js:38 | When no entry on the branch has a longer repository name ending with the module name, the expression as written and the corrected one reset the same entries. |
| DeleteAction.DeleteRendered | lib/git/delete_action.js:76-100 | As written, on a Puppetfile of well-formed entries: `module_list` is the other modules on the branch, in order. The reset points every entry on the branch whose URL ends with `<module>.git` at `production`. Afterwards this module is off the branch and every module left is in `module_list`. Without a longer name ending with the module name, the modules left are exactly `module_list`. |
| DeleteAction.DeleteRenderedCorrected | lib/git/delete_action.js:76-100 | Corrected expression: the reset points exactly this module's entries on the branch at `production`. Afterwards the modules on the branch are `module_list`. |
| DeleteAction.DeleteCorrectedWrites | lib/git/delete_action.js:94-100 | Corrected handler: with other modules on the branch, it writes only the Puppetfile in which exactly this module's entries point at `production`. That Puppetfile leaves `module_list` on the branch. |
| DeleteAction.DeleteHandlersAlike | lib/git/delete_action.js:43-145 | The handler as written and the corrected one take the same steps with the same outcome, except for the Puppetfile text they write. They are the same run when both resets give the same text. |
| DeleteAction.DeleteAgrees | lib/git/delete_action.js:38 | On a Puppetfile of well-formed entries with no longer repository name on the branch ending with the module name, the handler as written is the corrected one. |
| Puppetfile.FindRef | lib/git/create_action.js:38-71 | A ref is found exactly when the create/modify expression matches somewhere. |
| Puppetfile.AppendEntry | lib/git/create_action.js:78 | The appended Puppetfile starts with the old content and ends with the new `mod` entry. |
| Puppetfile.OtherModules | lib/git/delete_action.js:78-81 | The callback keeps exactly the names other than the module being deleted. |
| Puppetfile.Basename | lib/git/delete_action.js:37 | The repository name is a run of `[-\w]` characters that ends right before `.git`. |
| PuppetfileMatch.FirstMatch | lib/git/create_action.js:71 | `exec` finds the leftmost match: no match starts before it, and none at all when it finds nothing. |
| PuppetfileEdits.RefPatternHit | lib/git/create_action.js:38 | The create/modify expression matches an entry exactly when its `:git` URL ends with the repository URL. |
| PuppetfileEdits.BranchPatternHit | lib/git/delete_action.js:37 | The branch expression matches an entry exactly when its ref is the branch and its URL is a non-empty repository name followed by `.git`. |
| PuppetfileEdits.ResetPatternHit | lib/git/delete_action.js:38 | The corrected reset expression matches exactly the entries on the branch whose repository name is the module name. |
| PuppetfileEdits.ResetAsWrittenHit | lib/git/delete_action.js:38 | The reset expression as written matches every entry on the branch whose URL merely ends with `<module>.git`. |
| PuppetfileEdits.FindRefRendered | lib/git/create_action.js:71 | On a Puppetfile of well-formed entries, the ref found is the ref of the first entry whose URL ends with the repository URL. |
| PuppetfileEdits.SetRefRendered | lib/git/create_action.js:88 | On a Puppetfile of well-formed entries, `replace` points every matching entry at the branch and changes nothing else. |
| PuppetfileEdits.SetRefThenFind | lib/git/create_action.js:71-88 | After `replace`, the ref found is the branch, provided a ref was found before. |
| PuppetfileEdits.SetRefTwice | lib/git/create_action.js:88 | Pointing a Puppetfile at a branch twice gives the same result as doing it once. |
| PuppetfileEdits.AppendRendered | lib/git/create_action.js:78 | Appending an entry's text gives the Puppetfile with the entry appended. |
| PuppetfileEdits.AppendFound | lib/git/create_action.js:73-82 | After appending a missing module, its ref is found to be the branch. |
| PuppetfileEdits.ModulesOnBranchRendered | lib/git/delete_action.js:78-81 | The callback collects, in order, the repository names of the `.git` entries on the branch. |
| PuppetfileEdits.ResetRendered | lib/git/delete_action.js:97 | The corrected reset points exactly this module's entries on the branch at `production` and changes nothing else. |
| PuppetfileEdits.ResetAsWrittenRendered | lib/git/delete_action.js:97 | The reset as written points at `production` every entry on the branch whose URL ends with `<module>.git`. |
| PuppetfileEdits.BoundedNameIsBasename | lib/git/delete_action.js:38 | A URL the corrected anchor accepts has the module name as its repository name. |
| PuppetfileEdits.BasenameIsBoundedName | lib/git/delete_action.js:38 | A `.git` URL whose repository name is the module name is accepted by the corrected anchor. |
| PuppetfileEdits.OverreachHits | lib/git/delete_action.js:38 | The as-written reset expression for `apache` on `feat` matches `puppet-apache.git` as well as `apache.git`. The corrected one matches only `apache.git`. |
| PuppetfileEdits.ExampleRetargets | lib/git/delete_action.js:97 | On the two-entry example, the as-written reset moves both entries to `production` and the corrected one moves only `apache`. |
| PuppetfileEdits.ResetAsWrittenOverreaches | lib/git/delete_action.js:97 | Deleting `apache` on `feat` with the reset as written also moves `puppet-apache` back to `production` in the Puppetfile text. The corrected reset does not. |
| Manifest.RetargetTwice | lib/git/create_action.js:88 | Retargeting entries at the same value twice is retargeting once. |

## Left out

- I/O is not modelled: the file system, process.chdir, Date.now and the
  temporary directory name. The working directory and PUPPETFILE_URL are
  inputs, and reading and writing the Puppetfile are steps.
- Running git is not modelled. Its outputs are inputs, and which step throws
  (if any) is an input too.
- HTTP requests, the XML parsing of Rundeck's answers and the 5-second sleep
  are not modelled. The launch answer and the poll answers are inputs.
- Kue and Redis are not modelled: queue creation, `save`, `Job.get`,
  `failedCount`, `rangeByState` and `remove`. The save error, the lookup
  result and the failed count are inputs. What the purge removes is Kue's
  business, so only the decision and its arguments are modelled.
- An error from `failedCount` is ignored by the listener, so it is not an
  input.
- The `co` generators and Promise plumbing are left out. Each handler's
  `done` call is the run's verdict.
- Logger output, app.js and middleware.js are left out.
- Rundeck.Poll: the poll answers are a finite list. When the list runs out
  while the job is still `running`, the outcome is `StillRunning`, where the
  source would keep polling.
- The job's outcome inside a handler is modelled as a possible throw at the
  job step. The `rd_job_status` it returns only reaches the log.
- A throw inside the `catch` block's own `fse.remove` is not modelled: the
  `catch` steps are taken as completing.
- The regular expressions interpolate the repository URL, module name and
  branch as raw text. The model treats them as literals, so regex
  metacharacters in those names (`.` in a URL above all) are not modelled.
- `$` patterns inside the replacement text (a branch name containing `$1` or
  `$&`) are not modelled.
- Strings are sequences of characters, not UTF-16 code units.
- PuppetfileEdits.FindRefRendered, SetRefRendered, ResetRendered and
  ModulesOnBranchRendered hold only for a Puppetfile made of a header in
  which no quote is followed by a comma, then entries in the handlers' own
  `mod` format whose values have no quote, blank or comma. Arbitrary
  hand-written Puppetfiles are covered only by the general matcher
  (`PuppetfileMatch`), not by these entry-level theorems.
- The delete handler passes the Puppetfile repository to `clone`, but `clone`
  ignores that argument and always clones PUPPETFILE_URL. The model does the
  same.
- The delete handler's `pushUsername` goes into the Rundeck request object,
  but `runJob` never reads it, so it is not modelled.
- KueUtils.ProcessJob: a field missing from the job data reaches the handlers
  as the text `undefined`. `TargetOf` reproduces only the string
  concatenation of such a field. It does not reproduce `runJob`'s truthiness
  check on the field (lib/r10k/rundeck.js:24-26), which would throw the
  missing-information error, nor the delete callback's comparison with an
  undefined module name. Such data is refused earlier by `createJob`.
- DeleteAction.DeleteRendered: the source does not promise that the modules
  left on the branch after the reset are exactly `module_list`. With a longer
  repository name on the branch that ends with the module name, the reset as
  written also moves that module to `production`. So the equality is proved
  only when no such name is on the branch. In every case the model proves
  that the modules left are among `module_list`.
- The payload is assumed to have `repository` and a string `ref`. The
  TypeError the source throws when they are missing is not modelled.
- `status` in lib/git/git_utils.js:9-15 is not called by any handler. It
  appears only as the predicate `GitUtils.HasChanges`.

## Findings

| source | as written | input that shows it | evidently intended | confidence | as-written member | corrected member |
|---|---|---|---|---|---|---|
| lib/git/delete_action.js:38 | The reset expression anchors on `<module>.git` with nothing in front of it, so it also matches a longer repository name that ends with the module name. `replace` (line 97) then points every such entry at `production`. | A Puppetfile with `puppet-apache` and `apache` both on branch `feat`, deleting the `feat` branch of `apache`: both entries are reset to `production`. | Reset only the entries whose repository name is the module's own name: the anchor must not be preceded by a `[-\w]` character. | not executed | PuppetfileEdits.ResetAsWrittenOverreaches | DeleteAction.DeleteRenderedCorrected |

`DeleteAction.RunDelete` follows the code: it writes the Puppetfile that the
expression as written gives, `Puppetfile.ResetToProductionAsWritten`, and the
kue listener dispatches `delete` jobs to it. `DeleteAction.RunDeleteCorrected`
is the same handler with the corrected expression,
`Puppetfile.ResetToProduction`. For the corrected handler,
`DeleteAction.DeleteRenderedCorrected` and
`DeleteAction.DeleteCorrectedWrites` prove that exactly the deleted module
leaves the branch. `DeleteAction.DeleteHandlersAlike` and
`DeleteAction.DeleteAgrees` relate the two handlers.
