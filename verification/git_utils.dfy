/** The git wrapper (lib/git/git_utils.js): the command lines it issues and
    the predicates it computes from git's textual output. Running git is not
    modelled; its output is an input to these functions. */
module GitUtils {
  import opened Results
  import opened Text

  /** Remote used when PUPPETFILE_GIT_REMOTE_NAME is unset or empty. */
  const DefaultRemote: string := "origin"

  /** `process.env.PUPPETFILE_GIT_REMOTE_NAME || 'origin'`. */
  function RemoteName(configured: Option<string>): (r: string)
    ensures r != ""
    ensures configured.Some? && configured.value != "" ==> r == configured.value
    ensures (configured.None? || configured.value == "") ==> r == DefaultRemote
  {
    if configured.Some? && configured.value != "" then configured.value else DefaultRemote
  }

  /** One git invocation of the wrapper. */
  datatype GitOp =
    | Clone(url: string, dir: string)
    | Fetch
    | ListRemoteHeads
    | CheckoutForce(branch: string)
    | Pull(branch: string)
    | MergeProduction
    | CheckoutNew(branch: string)
    | Commit(moduleName: string, branch: string)
    | Push(branch: string)
    | DeleteBranch(branch: string)
    | Status

  /** The commit message of `commit`. */
  function CommitMessage(moduleName: string, branch: string): string {
    "Changing :ref for module " + moduleName + " in branch " + branch
  }

  /** The command string handed to git for `op`, given the remote name. */
  function CommandLine(op: GitOp, remote: string): string {
    match op
    case Clone(url, dir) => "clone " + url + " " + dir
    case Fetch => "fetch --prune -v " + remote
    case ListRemoteHeads => "ls-remote --heads"
    case CheckoutForce(b) => "checkout --force " + b
    case Pull(b) => "pull " + remote + " " + b
    case MergeProduction => "merge " + remote + "/production -X ours --no-edit"
    case CheckoutNew(b) => "checkout -b " + b
    case Commit(m, b) => "commit -a -m \"" + CommitMessage(m, b) + "\""
    case Push(b) => "push " + remote + " " + b
    case DeleteBranch(b) => "push " + remote + " --delete " + b
    case Status => "status --porcelain"
  }

  /** The arguments each invocation is meant to pass to git, word by word
      (the commit message, which is quoted, is covered separately). */
  function Arguments(op: GitOp, remote: string): seq<string> {
    match op
    case Clone(url, dir) => ["clone", url, dir]
    case Fetch => ["fetch", "--prune", "-v", remote]
    case ListRemoteHeads => ["ls-remote", "--heads"]
    case CheckoutForce(b) => ["checkout", "--force", b]
    case Pull(b) => ["pull", remote, b]
    case MergeProduction => ["merge", remote + "/production", "-X", "ours", "--no-edit"]
    case CheckoutNew(b) => ["checkout", "-b", b]
    case Commit(m, b) => ["commit", "-a", "-m", "\"" + CommitMessage(m, b) + "\""]
    case Push(b) => ["push", remote, b]
    case DeleteBranch(b) => ["push", remote, "--delete", b]
    case Status => ["status", "--porcelain"]
  }

  /** The names an invocation interpolates contain no blank. */
  predicate BlankFree(op: GitOp, remote: string) {
    && ' ' !in remote
    && match op
       case Clone(url, dir) => ' ' !in url && ' ' !in dir
       case CheckoutForce(b) => ' ' !in b
       case Pull(b) => ' ' !in b
       case CheckoutNew(b) => ' ' !in b
       case Push(b) => ' ' !in b
       case DeleteBranch(b) => ' ' !in b
       case _ => true
  }

  /** The steps of `checkoutExisting`, in order: forced checkout, pull from
      the remote, merge of the remote's production branch preferring ours. */
  function CheckoutExistingOps(branch: string): seq<GitOp> {
    [CheckoutForce(branch), Pull(branch), MergeProduction]
  }

  /** `branchExist`: the `ls-remote --heads` output has
      `refs/heads/<branch>` right before a line end (`m`-flag `$`). */
  predicate BranchExist(lsRemote: string, branch: string) {
    OccursAtLineEnd(lsRemote, "refs/heads/" + branch)
  }

  const UpToDate: string := "Already up-to-date."

  /** The value `checkoutExisting` returns: after trimming the merge output,
      some `m`-flag line start is not followed by "Already up-to-date.". */
  predicate MergeContributed(mergeOutput: string) {
    LacksAtLineStart(Trim(mergeOutput), UpToDate)
  }

  /** `status`: the porcelain output is non-empty. */
  predicate HasChanges(porcelain: string) {
    |porcelain| > 0
  }

  /** The `ls-remote` test is true exactly when one of its lines ends with
      `refs/heads/<branch>`. */
  lemma BranchExistLines(lsRemote: string, branch: string)
    requires NoneSatisfy(branch, IsLineTerminator)
    ensures BranchExist(lsRemote, branch) <==> SomeLineEndsWith(Lines(lsRemote), "refs/heads/" + branch)
  {
    var pat := "refs/heads/" + branch;
    forall i | 0 <= i < |pat| ensures !IsLineTerminator(pat[i]) {
      if i >= 11 {
        assert pat[i] == branch[i - 11];
      }
    }
    LineEndOccurrenceIff(lsRemote, pat);
  }

  /** The merge added commits exactly when some line of the trimmed output
      does not start with "Already up-to-date."; an empty output counts as
      a contribution. */
  lemma MergeContributedLines(mergeOutput: string)
    ensures MergeContributed(mergeOutput) <==> SomeLineLacks(Lines(Trim(mergeOutput)), UpToDate)
    ensures Trim(mergeOutput) == "" ==> MergeContributed(mergeOutput)
  {
    LineStartLacksIff(Trim(mergeOutput), UpToDate);
    if Trim(mergeOutput) == "" {
      assert LineStart("", 0) && !StartsWith(""[0..], UpToDate);
    }
  }

  /** The one-line "up to date" answer, with git's trailing newline, is not
      a contribution: trimming removes the newline first. */
  lemma UpToDateIsNoContribution()
    ensures !MergeContributed(UpToDate + "\n")
  {
    var out := UpToDate + "\n";
    TrimTrailingNewline(UpToDate);
    assert NoneSatisfy(UpToDate, IsLineTerminator);
    SplitWhereNone(UpToDate, IsLineTerminator);
    MergeContributedLines(out);
    assert Lines(Trim(out)) == [UpToDate];
    assert StartsWith(UpToDate, UpToDate);
  }

  /** Each command string splits at blanks into exactly the intended
      arguments when the interpolated names have no blank: the remote and
      the branch end up as separate arguments. */
  lemma CommandArguments(op: GitOp, remote: string)
    requires !op.Commit?
    requires BlankFree(op, remote)
    ensures Split(CommandLine(op, remote), ' ') == Arguments(op, remote)
  {
    match op
    case Clone(url, dir) => CloneArguments(url, dir);
    case Fetch => FetchArguments(remote);
    case ListRemoteHeads =>
      assert "ls-remote --heads" == "ls-remote" + " " + "--heads";
      Words2("ls-remote", "--heads");
    case CheckoutForce(b) =>
      assert "checkout --force " == "checkout " + "--force" + " ";
      CheckoutArguments("--force", b);
    case Pull(b) =>
      assert "pull " == "pull" + " ";
      RemoteBranchArguments("pull", remote, b);
    case MergeProduction => MergeArguments(remote);
    case CheckoutNew(b) =>
      assert "checkout -b " == "checkout " + "-b" + " ";
      CheckoutArguments("-b", b);
    case Push(b) =>
      assert "push " == "push" + " ";
      RemoteBranchArguments("push", remote, b);
    case DeleteBranch(b) => DeleteArguments(remote, b);
    case Status =>
      assert "status --porcelain" == "status" + " " + "--porcelain";
      Words2("status", "--porcelain");
  }

  lemma CloneArguments(url: string, dir: string)
    requires ' ' !in url && ' ' !in dir
    ensures Split("clone " + url + " " + dir, ' ') == ["clone", url, dir]
  {
    assert "clone " + url + " " + dir == "clone" + " " + url + " " + dir;
    Words3("clone", url, dir);
  }

  lemma FetchArguments(remote: string)
    requires ' ' !in remote
    ensures Split("fetch --prune -v " + remote, ' ') == ["fetch", "--prune", "-v", remote]
  {
    assert "fetch --prune -v " == "fetch" + " " + "--prune" + " " + "-v" + " ";
    Words4("fetch", "--prune", "-v", remote);
  }

  lemma CheckoutArguments(flag: string, b: string)
    requires flag == "--force" || flag == "-b"
    requires ' ' !in b
    ensures Split("checkout " + flag + " " + b, ' ') == ["checkout", flag, b]
  {
    assert "checkout " + flag + " " + b == "checkout" + " " + flag + " " + b;
    Words3("checkout", flag, b);
  }

  lemma RemoteBranchArguments(verb: string, remote: string, b: string)
    requires verb == "pull" || verb == "push"
    requires ' ' !in remote && ' ' !in b
    ensures Split(verb + " " + remote + " " + b, ' ') == [verb, remote, b]
  {
    Words3(verb, remote, b);
  }

  lemma MergeArguments(remote: string)
    requires ' ' !in remote
    ensures Split("merge " + remote + "/production -X ours --no-edit", ' ')
         == ["merge", remote + "/production", "-X", "ours", "--no-edit"]
  {
    var target := remote + "/production";
    assert ' ' !in target by {
      assert forall i :: 0 <= i < |remote| ==> target[i] == remote[i];
    }
    assert "merge " + remote + "/production -X ours --no-edit"
        == "merge" + " " + target + " " + "-X" + " " + "ours" + " " + "--no-edit";
    Words5("merge", target, "-X", "ours", "--no-edit");
  }

  lemma DeleteArguments(remote: string, b: string)
    requires ' ' !in remote && ' ' !in b
    ensures Split("push " + remote + " --delete " + b, ' ') == ["push", remote, "--delete", b]
  {
    assert "push " + remote + " --delete " + b == "push" + " " + remote + " " + "--delete" + " " + b;
    Words4("push", remote, "--delete", b);
  }

  /** The commit message splits at blanks into its eight words when the
      module and branch names have no blank. */
  lemma CommitMessageWords(moduleName: string, branch: string)
    requires ' ' !in moduleName && ' ' !in branch
    ensures Split(CommitMessage(moduleName, branch), ' ')
         == ["Changing", ":ref", "for", "module", moduleName, "in", "branch", branch]
  {
    var r6 := "branch" + [' '] + branch;
    var r5 := "in" + [' '] + r6;
    var r4 := moduleName + [' '] + r5;
    var r3 := "module" + [' '] + r4;
    var r2 := "for" + [' '] + r3;
    var r1 := ":ref" + [' '] + r2;
    CommitMessageSpaced(moduleName, branch);
    assert CommitMessage(moduleName, branch) == "Changing" + [' '] + r1;
    SplitWord(branch, ' ');
    SplitCons("branch", ' ', branch);
    SplitCons("in", ' ', r6);
    SplitCons(moduleName, ' ', r5);
    SplitCons("module", ' ', r4);
    SplitCons("for", ' ', r3);
    SplitCons(":ref", ' ', r2);
    SplitCons("Changing", ' ', r1);
  }

  /** The commit message with each blank set apart. */
  lemma CommitMessageSpaced(moduleName: string, branch: string)
    ensures CommitMessage(moduleName, branch) ==
              "Changing" + [' '] + (":ref" + [' '] + ("for" + [' '] + ("module" + [' '] +
              (moduleName + [' '] + ("in" + [' '] + ("branch" + [' '] + branch))))))
  {
    assert "Changing :ref for module " == "Changing" + [' '] + (":ref" + [' '] + ("for" + [' '] + ("module" + [' '])));
    assert " in branch " == [' '] + ("in" + [' '] + ("branch" + [' ']));
  }
}
