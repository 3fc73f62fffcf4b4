/** What the Puppetfile edits of the action handlers do to a Puppetfile
    written as a header followed by `mod` entries in the handlers' own
    format, stated per entry: which ref is found, which entries are pointed
    at a branch, which module names are listed, which entries are reset. */
module PuppetfileEdits {
  import opened Results
  import opened Text
  import opened PuppetfileMatch
  import opened Puppetfile
  import opened EntryLayout
  import opened Manifest

  /** A module name the reset expression can be built from: a non-empty
      run of `[-\w]` characters. */
  predicate IsName(t: string) {
    |t| > 0 && forall i :: 0 <= i < |t| ==> IsNameChar(t[i])
  }

  /** The run of name characters ending at `j` starts at `i` when `i` is
      where the characters stop being name characters. */
  lemma {:induction false} RunStartIs(t: string, j: nat, i: nat)
    requires i <= j <= |t|
    requires forall x :: i <= x < j ==> IsNameChar(t[x])
    requires i == 0 || !IsNameChar(t[i - 1])
    ensures RunStart(t, j) == i
    decreases j
  {
    if j > i {
      RunStartIs(t, j - 1, i);
    }
  }

  /** The create and modify expression hits exactly the entries whose
      `:git` URL ends with the repository URL. */
  lemma RefPatternHit(url: string, e: Entry)
    ensures Hit(RefPattern(url), e) <==> EndsWith(e.url, url)
  {
  }

  /** The branch expression hits exactly the entries on `branch` whose URL
      ends in `.git` after a non-empty repository name. */
  lemma BranchPatternHit(branch: string, e: Entry)
    ensures Hit(BranchPattern(branch), e) <==>
              EndsWith(e.url, ".git") && Basename(e.url) != "" && e.ref == branch
  {
    if EndsWith(e.url, ".git") && |e.url| >= 4 {
      var i := RunStart(e.url, |e.url| - 4);
      assert |Basename(e.url)| == |e.url| - 4 - i;
      if |e.url| > 4 && IsNameChar(e.url[|e.url| - 5]) {
        assert i < |e.url| - 4;
      }
    }
  }

  /** A URL the corrected anchor accepts has `name` as its repository
      name. */
  lemma BoundedNameIsBasename(name: string, url: string)
    requires IsName(name) && AnchorHit(BoundedLiteral(name + ".git"), url)
    ensures EndsWith(url, ".git") && Basename(url) == name
  {
    var t := name + ".git";
    var i := |url| - |t|;
    assert url[i..] == t;
    assert url[i..|url| - 4] == url[i..][..|name|] == name;
    assert url[|url| - 4..] == url[i..][|name|..] == ".git";
    RunStartIs(url, |url| - 4, i);
  }

  /** A `.git` URL whose repository name is `name` is accepted by the
      corrected anchor. */
  lemma BasenameIsBoundedName(name: string, url: string)
    requires IsName(name) && EndsWith(url, ".git") && Basename(url) == name
    ensures AnchorHit(BoundedLiteral(name + ".git"), url)
  {
    var i := RunStart(url, |url| - 4);
    assert url[i..|url| - 4] == name;
    assert url[i..] == url[i..|url| - 4] + url[|url| - 4..];
  }

  /** The corrected reset expression hits exactly the entries on `branch`
      whose repository name is `name`. */
  lemma ResetPatternHit(name: string, branch: string, e: Entry)
    requires IsName(name)
    ensures Hit(ResetPattern(name, branch), e) <==>
              EndsWith(e.url, ".git") && Basename(e.url) == name && e.ref == branch
  {
    if AnchorHit(BoundedLiteral(name + ".git"), e.url) {
      BoundedNameIsBasename(name, e.url);
    }
    if EndsWith(e.url, ".git") && Basename(e.url) == name {
      BasenameIsBoundedName(name, e.url);
    }
  }

  /** The reset expression as written hits every entry on `branch` whose URL
      merely ends with `<name>.git`. */
  lemma ResetAsWrittenHit(name: string, branch: string, e: Entry)
    ensures Hit(ResetPatternAsWritten(name, branch), e) <==>
              EndsWith(e.url, name + ".git") && e.ref == branch
  {
  }

  /** `FindRef` on a rendered Puppetfile gives the ref of the first entry
      whose URL ends with the repository URL. */
  lemma FindRefRendered(h: string, es: seq<Entry>, url: string)
    requires SafeHeader(h) && AllWellFormed(es) && Clean(url)
    ensures FindRef(Render(h, es), url) == FirstHitRef(es, RefPattern(url))
  {
    MatchedRefRendered(h, es, RefPattern(url));
  }

  /** `SetRef` on a rendered Puppetfile points every entry whose URL ends
      with the repository URL at the branch and changes nothing else. */
  lemma SetRefRendered(h: string, es: seq<Entry>, url: string, branch: string)
    requires SafeHeader(h) && AllWellFormed(es) && Clean(url)
    ensures SetRef(Render(h, es), url, branch) == Render(h, Retarget(es, RefPattern(url), branch))
  {
    ReplaceRendered(h, es, RefPattern(url), branch);
  }

  /** After `SetRef`, `FindRef` finds the branch, provided it found a ref
      before. */
  lemma SetRefThenFind(h: string, es: seq<Entry>, url: string, branch: string)
    requires SafeHeader(h) && AllWellFormed(es) && Clean(url) && IsToken(branch)
    ensures FindRef(SetRef(Render(h, es), url, branch), url) ==
              if FindRef(Render(h, es), url).Some? then Some(branch) else None
  {
    var pat := RefPattern(url);
    SetRefRendered(h, es, url, branch);
    RetargetWellFormed(es, pat, branch);
    FindRefRendered(h, Retarget(es, pat, branch), url);
    FindRefRendered(h, es, url);
    FirstHitRefRetarget(es, pat, branch);
  }

  /** Pointing a rendered Puppetfile at a branch twice is doing it once. */
  lemma SetRefTwice(h: string, es: seq<Entry>, url: string, branch: string)
    requires SafeHeader(h) && AllWellFormed(es) && Clean(url) && IsToken(branch)
    ensures SetRef(SetRef(Render(h, es), url, branch), url, branch) == SetRef(Render(h, es), url, branch)
  {
    var pat := RefPattern(url);
    SetRefRendered(h, es, url, branch);
    RetargetWellFormed(es, pat, branch);
    SetRefRendered(h, Retarget(es, pat, branch), url, branch);
    RetargetTwice(es, pat, branch);
  }

  /** Appending an entry's text renders the list with the entry appended. */
  lemma AppendRendered(h: string, es: seq<Entry>, e: Entry)
    ensures AppendEntry(Render(h, es), e) == Render(h, es + [e])
  {
    ConcatAppend(es, e);
    assert Render(h, es + [e]) == h + (Concat(es) + EntryText(e));
  }

  lemma AppendWellFormed(es: seq<Entry>, e: Entry)
    requires AllWellFormed(es) && WellFormed(e)
    ensures AllWellFormed(es + [e])
  {
    forall i | 0 <= i < |es + [e]| ensures WellFormed((es + [e])[i]) {
      if i < |es| { assert (es + [e])[i] == es[i]; }
    }
  }

  /** When `FindRef` finds nothing, the appended entry is the rendered
      Puppetfile with one more entry, and `FindRef` then finds its ref. */
  lemma AppendFound(h: string, es: seq<Entry>, e: Entry)
    requires SafeHeader(h) && AllWellFormed(es) && WellFormed(e)
    requires FindRef(Render(h, es), e.url).None?
    ensures AppendEntry(Render(h, es), e) == Render(h, es + [e])
    ensures FindRef(AppendEntry(Render(h, es), e), e.url) == Some(e.ref)
  {
    AppendRendered(h, es, e);
    AppendWellFormed(es, e);
    FindRefRendered(h, es, e.url);
    FindRefRendered(h, es + [e], e.url);
    FirstHitRefAppend(es, e, RefPattern(e.url));
  }

  /** The modules still on `branch` in a rendered Puppetfile: the repository
      names of the `.git` entries whose ref is the branch, in order. */
  lemma ModulesOnBranchRendered(h: string, es: seq<Entry>, branch: string)
    requires SafeHeader(h) && AllWellFormed(es) && CleanRef(ExactRef(branch))
    ensures ModulesOnBranch(Render(h, es), branch) == HitNames(es, BranchPattern(branch))
    ensures forall x :: x in ModulesOnBranch(Render(h, es), branch) <==>
              exists i :: 0 <= i < |es| && EndsWith(es[i].url, ".git") && Basename(es[i].url) == x
                                          && x != "" && es[i].ref == branch
  {
    CapturesRendered(h, es, BranchPattern(branch));
    forall i | 0 <= i < |es| {
      BranchPatternHit(branch, es[i]);
    }
  }

  /** A module name with `.git` appended is a literal a walk stays inside. */
  lemma NameClean(name: string)
    requires IsName(name)
    ensures Clean(name + ".git")
  {
    assert forall i :: 0 <= i < |name| ==> (name + ".git")[i] == name[i];
  }

  /** The corrected reset on a rendered Puppetfile points exactly the
      entries on `branch` whose repository name is `name` back at
      `production`. */
  lemma ResetRendered(h: string, es: seq<Entry>, name: string, branch: string)
    requires SafeHeader(h) && AllWellFormed(es) && IsName(name) && CleanRef(ExactRef(branch))
    ensures ResetToProduction(Render(h, es), name, branch) ==
              Render(h, Retarget(es, ResetPattern(name, branch), Production))
  {
    NameClean(name);
    ReplaceRendered(h, es, ResetPattern(name, branch), Production);
  }

  /** The reset as written on a rendered Puppetfile points every entry on
      `branch` whose URL ends with `<name>.git` back at `production`. */
  lemma ResetAsWrittenRendered(h: string, es: seq<Entry>, name: string, branch: string)
    requires SafeHeader(h) && AllWellFormed(es) && IsName(name) && CleanRef(ExactRef(branch))
    ensures ResetToProductionAsWritten(Render(h, es), name, branch) ==
              Render(h, Retarget(es, ResetPatternAsWritten(name, branch), Production))
  {
    NameClean(name);
    ReplaceRendered(h, es, ResetPatternAsWritten(name, branch), Production);
  }

  /** Two modules on branch `feat`, one whose repository name ends with the
      other's. */
  const Longer: Entry := Entry("puppet-apache", "git@h:o/puppet-apache.git", "feat")
  const Shorter: Entry := Entry("apache", "git@h:o/apache.git", "feat")

  lemma LongerUrl(u: string)
    requires u == Longer.url
    ensures EndsWith(u, "apache.git") && u[|u| - 11] == '-'
  {
    assert u[15..] == "apache.git";
  }

  lemma ShorterUrl(u: string)
    requires u == Shorter.url
    ensures EndsWith(u, "apache.git") && u[|u| - 11] == '/'
  {
    assert u[8..] == "apache.git";
  }

  /** The as-written reset expression for `apache` hits both entries; the
      corrected one hits only `apache`. */
  lemma OverreachHits(t: string)
    requires t == "apache" + ".git"
    ensures Hit(ResetPatternAsWritten("apache", "feat"), Longer)
    ensures Hit(ResetPatternAsWritten("apache", "feat"), Shorter)
    ensures !Hit(ResetPattern("apache", "feat"), Longer)
    ensures Hit(ResetPattern("apache", "feat"), Shorter)
  {
    assert t == "apache.git";
    LongerUrl(Longer.url);
    ShorterUrl(Shorter.url);
  }

  /** A text of name characters and URL punctuation is a token. */
  lemma PlainToken(t: string)
    requires |t| > 0
    requires forall i :: 0 <= i < |t| ==> IsNameChar(t[i]) || t[i] in "@:/."
    ensures IsToken(t)
  {
  }

  lemma ExampleToken(t: string)
    requires t in ["puppet-apache", "git@h:o/puppet-apache.git", "apache", "git@h:o/apache.git", "feat"]
    ensures IsToken(t)
  {
    PlainToken(t);
  }

  /** Both example entries are well formed and `apache` is a name. */
  lemma ExamplesWellFormed(es: seq<Entry>)
    requires es == [Longer, Shorter]
    ensures AllWellFormed(es) && IsName("apache")
  {
    ExampleToken(Longer.name);
    ExampleToken(Longer.url);
    ExampleToken(Longer.ref);
    ExampleToken(Shorter.name);
    ExampleToken(Shorter.url);
  }

  /** What each reset does to the example list, entry by entry. */
  lemma ExampleRetargets(es: seq<Entry>)
    requires es == [Longer, Shorter]
    ensures Retarget(es, ResetPatternAsWritten("apache", "feat"), Production) ==
              [Longer.(ref := Production), Shorter.(ref := Production)]
    ensures Retarget(es, ResetPattern("apache", "feat"), Production) ==
              [Longer, Shorter.(ref := Production)]
  {
    OverreachHits("apache" + ".git");
  }

  /** Deleting module `apache` on `feat`: the reset as written also moves
      `puppet-apache` back to `production`, the corrected one does not. */
  lemma ResetAsWrittenOverreaches(es: seq<Entry>)
    requires es == [Longer, Shorter]
    ensures ResetToProductionAsWritten(Render("", es), "apache", "feat") ==
              Render("", [Longer.(ref := Production), Shorter.(ref := Production)])
    ensures ResetToProduction(Render("", es), "apache", "feat") ==
              Render("", [Longer, Shorter.(ref := Production)])
  {
    ExamplesWellFormed(es);
    assert CleanRef(ExactRef("feat"));
    ResetAsWrittenRendered("", es, "apache", "feat");
    ResetRendered("", es, "apache", "feat");
    ExampleRetargets(es);
  }
}
