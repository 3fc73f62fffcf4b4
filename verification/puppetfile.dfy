/** The Puppetfile edits the three action handlers make: find a module's
    `:ref`, point it at a branch, append a new `mod` entry, list the modules
    that still reference a branch, and point a module back at `production`. */
module Puppetfile {
  import opened Results
  import opened Text
  import opened PuppetfileMatch

  /** One `mod "<name>",\n  :git => "<url>",\n  :ref => "<ref>"` entry. */
  datatype Entry = Entry(name: string, url: string, ref: string)

  /** The four fixed pieces of an appended entry. */
  const ModPart: string := "\nmod \""
  const GitPart: string := "\",\n  :git => \""
  const RefPart: string := "\",\n  :ref => \""
  const EndPart: string := "\"\n"

  /** The text appended for a module that the Puppetfile does not list. */
  function EntryText(e: Entry): (r: string)
    ensures |r| == |e.name| + |e.url| + |e.ref| + 36
  {
    ModPart + e.name + GitPart + e.url + RefPart + e.ref + EndPart
  }

  /** The branch every reset module goes back to. */
  const Production: string := "production"

  /** `(<url>['"],\s*:ref\s*=>\s*['"])([^'"]+)(['"]\s*)$`, the expression
      of the create and modify handlers. */
  function RefPattern(url: string): Pattern {
    Pattern(Literal(url), AnyRef, true)
  }

  /** `([-\w]+)\.git['"],\s*:ref\s*=>\s*['"]<branch>['"]$`, the expression
      that finds the modules still on a branch. */
  function BranchPattern(branch: string): Pattern {
    Pattern(RepoBasename, ExactRef(branch), false)
  }

  /** `(<name>\.git['"],\s*:ref\s*=>\s*['"])<branch>(['"]\s*)$`, the reset
      expression of the delete handler as written: nothing stops the name
      from matching the tail of a longer repository name. */
  function ResetPatternAsWritten(name: string, branch: string): Pattern {
    Pattern(Literal(name + ".git"), ExactRef(branch), true)
  }

  /** The reset expression with the name required to start the repository
      name (no `[-\w]` character in front of it). */
  function ResetPattern(name: string, branch: string): Pattern {
    Pattern(BoundedLiteral(name + ".git"), ExactRef(branch), true)
  }

  /** The second group of the first match from `from` on, if any. */
  function MatchedRef(s: string, pat: Pattern, from: nat): (r: Option<string>)
    requires from <= |s|
    ensures r.Some? <==> FirstMatch(s, pat, from).Some?
  {
    match FirstMatch(s, pat, from)
    case None => None
    case Some(m) => Some(s[m.refStart..m.refEnd])
  }

  /** `module_regex.exec(content)[2]`: the ref of the first entry whose URL
      ends the `:git` value, if any. */
  function FindRef(content: string, url: string): (r: Option<string>)
    ensures r.Some? <==> FirstMatch(content, RefPattern(url), 0).Some?
  {
    MatchedRef(content, RefPattern(url), 0)
  }

  /** `content.replace(module_regex, '$1' + branch + '$3')`. */
  function SetRef(content: string, url: string, branch: string): string {
    ReplaceAll(content, RefPattern(url), branch, 0)
  }

  /** The entry appended when `FindRef` finds nothing. */
  function AppendEntry(content: string, e: Entry): (r: string)
    ensures StartsWith(r, content) && EndsWith(r, EntryText(e))
  {
    content + EntryText(e)
  }

  /** The first group of every `BranchPattern` match, in order. */
  function ModulesOnBranch(content: string, branch: string): seq<string> {
    Captures(content, BranchPattern(branch), 0)
  }

  /** The names other than `current`, in order (the callback that skips the
      module being deleted). */
  function OtherModules(names: seq<string>, current: string): (r: seq<string>)
    ensures forall x :: x in r <==> x in names && x != current
    ensures |r| <= |names|
  {
    if |names| == 0 then []
    else if names[0] == current then OtherModules(names[1..], current)
    else [names[0]] + OtherModules(names[1..], current)
  }

  /** `content.replace(module_regex, '$1production$2')` as written. */
  function ResetToProductionAsWritten(content: string, name: string, branch: string): string {
    ReplaceAll(content, ResetPatternAsWritten(name, branch), Production, 0)
  }

  /** The reset with the corrected expression. */
  function ResetToProduction(content: string, name: string, branch: string): string {
    ReplaceAll(content, ResetPattern(name, branch), Production, 0)
  }

  /** Where the run of `[-\w]` characters that ends at `j` starts. */
  function RunStart(t: string, j: nat): (i: nat)
    requires j <= |t|
    ensures i <= j
    ensures forall x :: i <= x < j ==> IsNameChar(t[x])
    ensures i == 0 || !IsNameChar(t[i - 1])
    decreases j
  {
    if j > 0 && IsNameChar(t[j - 1]) then RunStart(t, j - 1) else j
  }

  /** The repository name in a `.git` URL: the `[-\w]` run before `.git`. */
  function Basename(url: string): (r: string)
    ensures EndsWith(url, ".git") ==> EndsWith(url[..|url| - 4], r)
    ensures forall i :: 0 <= i < |r| ==> IsNameChar(r[i])
  {
    if |url| < 4 then "" else url[RunStart(url, |url| - 4)..|url| - 4]
  }
}
