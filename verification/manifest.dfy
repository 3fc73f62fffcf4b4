/** Puppetfiles made of a header followed by entries in the format the
    handlers append, and what the three expressions do to them: which
    entries they find, rewrite and list. */
module Manifest {
  import opened Results
  import opened Text
  import opened PuppetfileMatch
  import opened Puppetfile
  import opened EntryLayout

  /** The entries' texts, in order. */
  function Concat(es: seq<Entry>): string {
    if |es| == 0 then "" else EntryText(es[0]) + Concat(es[1..])
  }

  /** A Puppetfile: a header, then the entries. */
  function Render(header: string, es: seq<Entry>): string {
    header + Concat(es)
  }

  /** No quote in the header is followed by a comma, so no match can
      anchor in it. */
  predicate SafeHeader(h: string) {
    forall i :: 0 <= i < |h| - 1 && IsQuote(h[i]) ==> h[i + 1] != ','
  }

  predicate AllWellFormed(es: seq<Entry>) {
    forall i :: 0 <= i < |es| ==> WellFormed(es[i])
  }

  /** Where entry `j` starts in `Render(h, es)`. */
  function Offset(h: string, es: seq<Entry>, j: nat): nat
    requires j <= |es|
  {
    |h| + |Concat(es[..j])|
  }

  /** An entry with its ref replaced when `pat` hits it. */
  function Retargeted(e: Entry, pat: Pattern, v: string): Entry {
    if Hit(pat, e) then e.(ref := v) else e
  }

  /** Every entry retargeted. */
  function Retarget(es: seq<Entry>, pat: Pattern, v: string): (r: seq<Entry>)
    ensures |r| == |es|
    ensures forall i :: 0 <= i < |es| ==> r[i] == Retargeted(es[i], pat, v)
  {
    if |es| == 0 then [] else [Retargeted(es[0], pat, v)] + Retarget(es[1..], pat, v)
  }

  /** The ref of the first entry `pat` hits. */
  function FirstHitRef(es: seq<Entry>, pat: Pattern): (r: Option<string>)
    ensures r.None? <==> forall i :: 0 <= i < |es| ==> !Hit(pat, es[i])
    ensures r.Some? ==> exists i :: 0 <= i < |es| && Hit(pat, es[i]) && es[i].ref == r.value
  {
    if |es| == 0 then None
    else if Hit(pat, es[0]) then Some(es[0].ref)
    else FirstHitRef(es[1..], pat)
  }

  /** The repository names of the entries `pat` hits, in order. */
  function HitNames(es: seq<Entry>, pat: Pattern): (r: seq<string>)
    ensures |r| <= |es|
    ensures forall x :: x in r <==> exists i :: 0 <= i < |es| && Hit(pat, es[i]) && Basename(es[i].url) == x
  {
    if |es| == 0 then []
    else if Hit(pat, es[0]) then [Basename(es[0].url)] + HitNames(es[1..], pat)
    else HitNames(es[1..], pat)
  }

  lemma {:induction false} ConcatSplit(es: seq<Entry>, j: nat)
    requires j <= |es|
    ensures Concat(es) == Concat(es[..j]) + Concat(es[j..])
    decreases j
  {
    if j == 0 {
      assert es[..0] == [] && es[0..] == es;
    } else {
      ConcatSplit(es[1..], j - 1);
      assert es[1..][..j - 1] == es[..j][1..];
      assert es[1..][j - 1..] == es[j..];
      assert es[..j][0] == es[0];
      assert Concat(es[..j]) == EntryText(es[0]) + Concat(es[1..][..j - 1]);
      assert Concat(es) == EntryText(es[0]) + Concat(es[1..]);
      Reassociate(Concat(es), EntryText(es[0]), Concat(es[1..][..j - 1]), Concat(es[j..]), Concat(es[..j]));
    }
  }

  lemma Reassociate(x: string, a: string, b: string, c: string, ab: string)
    requires x == a + (b + c) && ab == a + b
    ensures x == ab + c
  {
  }

  /** Entry `j` sits at its offset, and the next offset follows it. */
  lemma EntryInRender(h: string, es: seq<Entry>, j: nat)
    requires j < |es|
    ensures Offset(h, es, j + 1) == Offset(h, es, j) + |EntryText(es[j])|
    ensures Offset(h, es, j + 1) <= |Render(h, es)|
    ensures Placed(Render(h, es), Offset(h, es, j), es[j])
  {
    ConcatSplit(es, j);
    ConcatPrefixStep(es, j);
    ConcatSuffixStep(es, j);
    AtBetween(Render(h, es), h, Concat(es), Concat(es[..j]), Concat(es[j..]), EntryText(es[j]),
              Concat(es[j + 1..]), Concat(es[..j + 1]));
  }

  /** A piece between a prefix and a suffix sits right after the prefix. */
  lemma AtBetween(s: string, h: string, all: string, pre: string, post: string, t: string, rest: string, upTo: string)
    requires s == h + all && all == pre + post && post == t + rest && upTo == pre + t
    ensures |h| + |upTo| == |h| + |pre| + |t| <= |s|
    ensures At(s, |h| + |pre|, t)
  {
    AtMiddle(h + pre, t, rest);
    assert s == (h + pre) + (t + rest);
  }

  /** One entry more in the prefix adds its text at the end. */
  lemma ConcatPrefixStep(es: seq<Entry>, j: nat)
    requires j < |es|
    ensures Concat(es[..j + 1]) == Concat(es[..j]) + EntryText(es[j])
  {
    ConcatSplit(es[..j + 1], j);
    assert es[..j + 1][..j] == es[..j];
    assert es[..j + 1][j..] == [es[j]];
    assert Concat([es[j]]) == EntryText(es[j]);
  }

  /** A non-empty suffix starts with its first entry's text. */
  lemma ConcatSuffixStep(es: seq<Entry>, j: nat)
    requires j < |es|
    ensures Concat(es[j..]) == EntryText(es[j]) + Concat(es[j + 1..])
  {
    assert es[j..][0] == es[j];
    assert es[j..][1..] == es[j + 1..];
  }

  /** A string sits right after what precedes it. */
  lemma AtMiddle(x: string, t: string, y: string)
    ensures At(x + (t + y), |x|, t)
  {
    assert (x + (t + y))[|x|..|x| + |t|] == t;
  }

  lemma OffsetEnd(h: string, es: seq<Entry>)
    ensures Offset(h, es, |es|) == |Render(h, es)|
  {
    assert es[..|es|] == es;
  }

  lemma OffsetStart(h: string, es: seq<Entry>)
    ensures Offset(h, es, 0) == |h|
    ensures |es| > 0 ==> Render(h, es)[|h|] == '\n'
  {
    assert es[..0] == [];
    if |es| > 0 {
      EntryInRender(h, es, 0);
      AtChar(Render(h, es), |h|, EntryText(es[0]), |h|);
    }
  }

  /** Every entry is followed by the end of the text or the next entry. */
  lemma FollowedInRender(h: string, es: seq<Entry>, j: nat)
    requires j < |es|
    ensures Followed(Render(h, es), Offset(h, es, j + 1))
  {
    var s := Render(h, es);
    if j + 1 == |es| {
      OffsetEnd(h, es);
    } else {
      var z := Offset(h, es, j + 1);
      EntryInRender(h, es, j + 1);
      var l := LayoutOf(z, es[j + 1]);
      Pieces(s, z, es[j + 1], l);
      AtChar(s, z, ModPart, z);
      AtChar(s, z, ModPart, z + 1);
    }
  }

  /** No match starts in a safe header. */
  lemma HeaderNoMatch(h: string, es: seq<Entry>, pat: Pattern, p: nat)
    requires SafeHeader(h) && CleanAnchor(pat.anchor) && p < |h|
    ensures MatchAt(Render(h, es), p, pat).None?
  {
    var s := Render(h, es);
    if MatchAt(s, p, pat).Some? {
      MatchAnchor(s, p, pat);
      var q := MatchAt(s, p, pat).value.anchorEnd;
      AnchorRegion(s, p, pat.anchor, q);
      MiddleComma(s, q);
      OffsetStart(h, es);
      NoCommaAfterHeader(h, s, p, q);
    }
  }

  /** An unquoted, space-free run starting in a safe header that the line
      break after it cannot cross ends before a quote and a comma. */
  lemma NoCommaAfterHeader(h: string, s: string, p: nat, q: nat)
    requires SafeHeader(h) && |h| <= |s| && s[..|h|] == h
    requires p < |h| && p < q <= |s| && forall i :: p <= i < q ==> !IsQuote(s[i]) && !IsSpace(s[i])
    requires |s| > |h| ==> s[|h|] == '\n'
    ensures !(q + 1 < |s| && IsQuote(s[q]) && s[q + 1] == ',')
  {
  }

  /** The edited entry text: the entry with its ref replaced by `v`. */
  lemma RetargetText(s: string, k: nat, e: Entry, v: string, l: Layout)
    requires Placed(s, k, e) && l == LayoutOf(k, e)
    ensures l.r1 <= l.z <= |s|
    ensures s[k..l.r0] + v + s[l.r1..l.z] == EntryText(e.(ref := v))
  {
    var head := ModPart + e.name + GitPart + e.url + RefPart;
    EntryTextSplit(e, head);
    EntryTextSplit(e.(ref := v), head);
    AtConcat(s, k, head, e.ref + EndPart);
    AtConcat(s, l.r0, e.ref, EndPart);
    SpliceJoin(s[k..l.r0], v, s[l.r1..l.z], head, EndPart);
  }

  /** An entry's text around its ref. */
  lemma EntryTextSplit(e: Entry, head: string)
    requires head == ModPart + e.name + GitPart + e.url + RefPart
    ensures EntryText(e) == head + (e.ref + EndPart)
  {
  }

  lemma SpliceJoin(a: string, v: string, b: string, head: string, tail: string)
    requires a == head && b == tail
    ensures a + v + b == head + (v + tail)
  {
  }

  /** Nothing matches at the very end of a text. */
  lemma NoMatchAtEnd(s: string, pat: Pattern)
    ensures FirstMatch(s, pat, |s|).None?
  {
    assert MatchAt(s, |s|, pat).None?;
  }

  /** Where the leftmost match in an entry starts. */
  function HitStart(s: string, k: nat, e: Entry, pat: Pattern): nat
    requires AnchorHit(pat.anchor, e.url)
  {
    LayoutOf(k, e).u0 + AnchorStart(pat.anchor, e.url)
  }

  /** The search for a match from the start of an entry that the pattern
      hits finds the hit: its ref is the entry's ref and it ends at the end
      of the entry (before its newline when the pattern has no spaces before
      the end). */
  lemma FirstMatchInEntry(s: string, k: nat, e: Entry, pat: Pattern, l: Layout)
    requires Placed(s, k, e) && WellFormed(e) && CleanPattern(pat) && Hit(pat, e)
    requires l == LayoutOf(k, e) && Followed(s, l.z)
    ensures FirstMatch(s, pat, k).Some?
    ensures FirstMatch(s, pat, k).value.start == HitStart(s, k, e, pat)
    ensures FirstMatch(s, pat, k).value.refStart == l.r0
    ensures FirstMatch(s, pat, k).value.refEnd == l.r1
    ensures FirstMatch(s, pat, k).value.end == MatchEnd(pat, l.z)
    ensures pat.anchor.RepoBasename? ==> FirstMatch(s, pat, k).value.nameEnd == l.u1 - 4
  {
    var p0 := HitStart(s, k, e, pat);
    HitMatch(s, k, e, pat, l, p0);
    forall p | k <= p < p0 ensures MatchAt(s, p, pat).None? {
      NoEarlyMatch(s, k, e, pat, l, p);
    }
    FirstMatchSkip(s, pat, k, p0);
  }

  /** The search from the start of an entry that the pattern misses goes on
      at the next entry. */
  lemma FirstMatchPastEntry(s: string, k: nat, e: Entry, pat: Pattern, l: Layout)
    requires Placed(s, k, e) && WellFormed(e) && CleanPattern(pat) && !Hit(pat, e)
    requires l == LayoutOf(k, e) && Followed(s, l.z)
    ensures l.z <= |s|
    ensures forall p :: k <= p < l.z ==> MatchAt(s, p, pat).None?
  {
    Pieces(s, k, e, l);
    forall p | k <= p < l.z ensures MatchAt(s, p, pat).None? {
      MissNoMatch(s, k, e, pat, l, p);
    }
  }

  /** Past a hit's match, the rest of its entry holds no match. */
  lemma RestOfEntry(s: string, k: nat, e: Entry, pat: Pattern, l: Layout)
    requires Placed(s, k, e) && WellFormed(e) && CleanPattern(pat)
    requires l == LayoutOf(k, e) && l.z <= |s|
    ensures forall p :: MatchEnd(pat, l.z) <= p < l.z ==> MatchAt(s, p, pat).None?
  {
    forall p | MatchEnd(pat, l.z) <= p < l.z ensures MatchAt(s, p, pat).None? {
      NoLateMatch(s, k, e, pat, l, p);
    }
  }

  /** Replacing from the start of a hit entry rewrites its ref and goes on
      after it. */
  lemma ReplaceHitEntry(s: string, k: nat, e: Entry, pat: Pattern, v: string, l: Layout)
    requires Placed(s, k, e) && WellFormed(e) && CleanPattern(pat) && Hit(pat, e)
    requires l == LayoutOf(k, e) && Followed(s, l.z)
    ensures l.z <= |s|
    ensures ReplaceAll(s, pat, v, k) == EntryText(e.(ref := v)) + ReplaceAll(s, pat, v, l.z)
  {
    FirstMatchInEntry(s, k, e, pat, l);
    var end := MatchEnd(pat, l.z);
    ReplaceAtMatch(s, pat, v, k, l.r0, l.r1, end);
    RestOfEntry(s, k, e, pat, l);
    ReplaceSkip(s, pat, v, end, l.z);
    RetargetText(s, k, e, v, l);
    Regroup(s, k, l.r0, l.r1, end, l.z, v, ReplaceAll(s, pat, v, l.z));
  }

  lemma Regroup(s: string, k: nat, r0: nat, r1: nat, end: nat, z: nat, v: string, rest: string)
    requires k <= r0 <= r1 <= end <= z <= |s|
    ensures s[k..r0] + v + s[r1..end] + (s[end..z] + rest) == s[k..r0] + v + s[r1..z] + rest
  {
    assert s[r1..end] + s[end..z] == s[r1..z];
  }

  /** Replacing from a position whose first match is known. */
  lemma ReplaceAtMatch(s: string, pat: Pattern, v: string, k: nat, r0: nat, r1: nat, end: nat)
    requires k <= |s| && FirstMatch(s, pat, k).Some?
    requires FirstMatch(s, pat, k).value.refStart == r0
    requires FirstMatch(s, pat, k).value.refEnd == r1
    requires FirstMatch(s, pat, k).value.end == end
    ensures k <= r0 <= r1 <= end <= |s|
    ensures ReplaceAll(s, pat, v, k) == s[k..r0] + v + s[r1..end] + ReplaceAll(s, pat, v, end)
  {
  }

  /** Replacing from the start of an entry the pattern misses keeps it. */
  lemma ReplaceMissEntry(s: string, k: nat, e: Entry, pat: Pattern, v: string, l: Layout)
    requires Placed(s, k, e) && WellFormed(e) && CleanPattern(pat) && !Hit(pat, e)
    requires l == LayoutOf(k, e) && Followed(s, l.z)
    ensures l.z <= |s|
    ensures ReplaceAll(s, pat, v, k) == EntryText(e) + ReplaceAll(s, pat, v, l.z)
  {
    FirstMatchPastEntry(s, k, e, pat, l);
    ReplaceSkip(s, pat, v, k, l.z);
    assert s[k..l.z] == EntryText(e);
  }

  /** Replacing from the start of entry `j` rewrites that entry and goes on
      at the next. */
  lemma ReplaceEntry(h: string, es: seq<Entry>, pat: Pattern, v: string, j: nat)
    requires AllWellFormed(es) && CleanPattern(pat) && j < |es|
    ensures Offset(h, es, j + 1) == Offset(h, es, j) + |EntryText(es[j])|
    ensures Offset(h, es, j + 1) <= |Render(h, es)|
    ensures ReplaceAll(Render(h, es), pat, v, Offset(h, es, j)) ==
              EntryText(Retargeted(es[j], pat, v)) + ReplaceAll(Render(h, es), pat, v, Offset(h, es, j + 1))
  {
    var s := Render(h, es);
    var k := Offset(h, es, j);
    var l := LayoutOf(k, es[j]);
    EntryInRender(h, es, j);
    FollowedInRender(h, es, j);
    assert l.z == Offset(h, es, j + 1);
    if Hit(pat, es[j]) {
      ReplaceHitEntry(s, k, es[j], pat, v, l);
    } else {
      ReplaceMissEntry(s, k, es[j], pat, v, l);
    }
  }

  lemma {:induction false} ReplaceFrom(h: string, es: seq<Entry>, pat: Pattern, v: string, j: nat)
    requires AllWellFormed(es) && CleanPattern(pat) && j <= |es|
    ensures Offset(h, es, j) <= |Render(h, es)|
    ensures ReplaceAll(Render(h, es), pat, v, Offset(h, es, j)) == Concat(Retarget(es[j..], pat, v))
    decreases |es| - j
  {
    if j == |es| {
      OffsetEnd(h, es);
      NoMatchAtEnd(Render(h, es), pat);
      assert es[j..] == [];
    } else {
      ReplaceEntry(h, es, pat, v, j);
      ReplaceFrom(h, es, pat, v, j + 1);
      assert es[j..][1..] == es[j + 1..];
    }
  }

  /** The ref of a written entry sits between its `:ref => "` and its
      closing quote. */
  lemma RefSlice(s: string, k: nat, e: Entry, l: Layout)
    requires Placed(s, k, e) && l == LayoutOf(k, e)
    ensures l.r1 <= |s| && s[l.r0..l.r1] == e.ref
  {
    Pieces(s, k, e, l);
  }

  /** The search from the start of entry `j` finds that entry's ref when the
      pattern hits it and goes on at the next entry otherwise. */
  lemma FindEntry(h: string, es: seq<Entry>, pat: Pattern, j: nat)
    requires AllWellFormed(es) && CleanPattern(pat) && j < |es|
    ensures Offset(h, es, j + 1) == Offset(h, es, j) + |EntryText(es[j])|
    ensures Offset(h, es, j + 1) <= |Render(h, es)|
    ensures Hit(pat, es[j]) ==> MatchedRef(Render(h, es), pat, Offset(h, es, j)) == Some(es[j].ref)
    ensures !Hit(pat, es[j]) ==>
              MatchedRef(Render(h, es), pat, Offset(h, es, j)) == MatchedRef(Render(h, es), pat, Offset(h, es, j + 1))
  {
    var s := Render(h, es);
    var k := Offset(h, es, j);
    var l := LayoutOf(k, es[j]);
    EntryInRender(h, es, j);
    FollowedInRender(h, es, j);
    if Hit(pat, es[j]) {
      FirstMatchInEntry(s, k, es[j], pat, l);
      RefSlice(s, k, es[j], l);
    } else {
      FirstMatchPastEntry(s, k, es[j], pat, l);
      FirstMatchSkip(s, pat, k, l.z);
    }
  }

  lemma {:induction false} FindFrom(h: string, es: seq<Entry>, pat: Pattern, j: nat)
    requires AllWellFormed(es) && CleanPattern(pat) && j <= |es|
    ensures Offset(h, es, j) <= |Render(h, es)|
    ensures MatchedRef(Render(h, es), pat, Offset(h, es, j)) == FirstHitRef(es[j..], pat)
    decreases |es| - j
  {
    if j == |es| {
      OffsetEnd(h, es);
      NoMatchAtEnd(Render(h, es), pat);
      assert es[j..] == [];
    } else {
      FindEntry(h, es, pat, j);
      FindFrom(h, es, pat, j + 1);
      assert es[j..][0] == es[j];
      assert es[j..][1..] == es[j + 1..];
    }
  }

  /** The repository name of a written `.git` URL sits where a basename
      match captures it. */
  lemma NameSlice(s: string, k: nat, e: Entry, pat: Pattern, l: Layout)
    requires Placed(s, k, e) && l == LayoutOf(k, e)
    requires pat.anchor.RepoBasename? && AnchorHit(pat.anchor, e.url)
    ensures HitStart(s, k, e, pat) <= l.u1 - 4 <= |s|
    ensures s[HitStart(s, k, e, pat)..l.u1 - 4] == Basename(e.url)
  {
    Pieces(s, k, e, l);
    AtSub(s, l.u0, e.url, RunStart(e.url, |e.url| - 4), |e.url| - 4);
  }

  /** Collecting from a position whose first match is known. */
  lemma CapturesAtMatch(s: string, pat: Pattern, k: nat, a: nat, b: nat, end: nat)
    requires k <= |s| && FirstMatch(s, pat, k).Some?
    requires FirstMatch(s, pat, k).value.start == a
    requires FirstMatch(s, pat, k).value.nameEnd == b
    requires FirstMatch(s, pat, k).value.end == end
    ensures k <= a <= b <= end <= |s|
    ensures Captures(s, pat, k) == [s[a..b]] + Captures(s, pat, end)
  {
  }

  /** Collecting from the start of an entry a basename pattern hits. */
  lemma CapturesHitEntry(s: string, k: nat, e: Entry, pat: Pattern, l: Layout)
    requires Placed(s, k, e) && WellFormed(e) && CleanPattern(pat) && Hit(pat, e)
    requires pat.anchor.RepoBasename? && l == LayoutOf(k, e) && Followed(s, l.z)
    ensures l.z <= |s|
    ensures Captures(s, pat, k) == [Basename(e.url)] + Captures(s, pat, l.z)
  {
    FirstMatchInEntry(s, k, e, pat, l);
    NameSlice(s, k, e, pat, l);
    CapturesAtMatch(s, pat, k, HitStart(s, k, e, pat), l.u1 - 4, MatchEnd(pat, l.z));
    RestOfEntry(s, k, e, pat, l);
    CapturesSkip(s, pat, MatchEnd(pat, l.z), l.z);
  }

  /** Collecting from the start of entry `j` collects its repository name
      when the pattern hits it, then goes on at the next entry. */
  lemma CapturesEntry(h: string, es: seq<Entry>, pat: Pattern, j: nat)
    requires AllWellFormed(es) && CleanPattern(pat) && pat.anchor.RepoBasename? && j < |es|
    ensures Offset(h, es, j + 1) == Offset(h, es, j) + |EntryText(es[j])|
    ensures Offset(h, es, j + 1) <= |Render(h, es)|
    ensures Captures(Render(h, es), pat, Offset(h, es, j)) ==
              (if Hit(pat, es[j]) then [Basename(es[j].url)] else []) + Captures(Render(h, es), pat, Offset(h, es, j + 1))
  {
    var s := Render(h, es);
    var k := Offset(h, es, j);
    var l := LayoutOf(k, es[j]);
    EntryInRender(h, es, j);
    FollowedInRender(h, es, j);
    if Hit(pat, es[j]) {
      CapturesHitEntry(s, k, es[j], pat, l);
    } else {
      FirstMatchPastEntry(s, k, es[j], pat, l);
      CapturesSkip(s, pat, k, l.z);
    }
  }

  lemma {:induction false} CapturesFrom(h: string, es: seq<Entry>, pat: Pattern, j: nat)
    requires AllWellFormed(es) && CleanPattern(pat) && pat.anchor.RepoBasename? && j <= |es|
    ensures Offset(h, es, j) <= |Render(h, es)|
    ensures Captures(Render(h, es), pat, Offset(h, es, j)) == HitNames(es[j..], pat)
    decreases |es| - j
  {
    if j == |es| {
      OffsetEnd(h, es);
      NoMatchAtEnd(Render(h, es), pat);
      assert es[j..] == [];
    } else {
      CapturesEntry(h, es, pat, j);
      CapturesFrom(h, es, pat, j + 1);
      assert es[j..][0] == es[j];
      assert es[j..][1..] == es[j + 1..];
    }
  }

  /** No match starts in a safe header. */
  lemma HeaderSkip(h: string, es: seq<Entry>, pat: Pattern)
    requires SafeHeader(h) && CleanAnchor(pat.anchor)
    ensures |h| <= |Render(h, es)|
    ensures forall p :: 0 <= p < |h| ==> MatchAt(Render(h, es), p, pat).None?
  {
    forall p | 0 <= p < |h| ensures MatchAt(Render(h, es), p, pat).None? {
      HeaderNoMatch(h, es, pat, p);
    }
  }

  /** Replacing over a whole rendered Puppetfile retargets exactly the
      entries the pattern hits and keeps the header. */
  lemma ReplaceRendered(h: string, es: seq<Entry>, pat: Pattern, v: string)
    requires SafeHeader(h) && AllWellFormed(es) && CleanPattern(pat)
    ensures ReplaceAll(Render(h, es), pat, v, 0) == Render(h, Retarget(es, pat, v))
  {
    var s := Render(h, es);
    HeaderSkip(h, es, pat);
    ReplaceSkip(s, pat, v, 0, |h|);
    OffsetStart(h, es);
    ReplaceFrom(h, es, pat, v, 0);
    assert es[0..] == es;
    assert s[0..|h|] == h;
  }

  /** The ref the first match captures in a rendered Puppetfile is the ref of
      the first entry the pattern hits. */
  lemma MatchedRefRendered(h: string, es: seq<Entry>, pat: Pattern)
    requires SafeHeader(h) && AllWellFormed(es) && CleanPattern(pat)
    ensures MatchedRef(Render(h, es), pat, 0) == FirstHitRef(es, pat)
  {
    var s := Render(h, es);
    HeaderSkip(h, es, pat);
    FirstMatchSkip(s, pat, 0, |h|);
    OffsetStart(h, es);
    FindFrom(h, es, pat, 0);
    assert es[0..] == es;
  }

  /** The names a basename pattern collects from a rendered Puppetfile are
      those of the entries it hits, in order. */
  lemma CapturesRendered(h: string, es: seq<Entry>, pat: Pattern)
    requires SafeHeader(h) && AllWellFormed(es) && CleanPattern(pat) && pat.anchor.RepoBasename?
    ensures Captures(Render(h, es), pat, 0) == HitNames(es, pat)
  {
    var s := Render(h, es);
    HeaderSkip(h, es, pat);
    CapturesSkip(s, pat, 0, |h|);
    OffsetStart(h, es);
    CapturesFrom(h, es, pat, 0);
    assert es[0..] == es;
  }

  /** An appended entry comes after the others. */
  lemma ConcatAppend(es: seq<Entry>, e: Entry)
    ensures Concat(es + [e]) == Concat(es) + EntryText(e)
  {
    ConcatSplit(es + [e], |es|);
    assert (es + [e])[..|es|] == es;
    assert (es + [e])[|es|..] == [e];
    assert Concat([e]) == EntryText(e) + Concat([e][1..]);
  }

  /** The first hit of a list with an entry appended is the first hit of the
      list, else the new entry when the pattern hits it. */
  lemma {:induction false} FirstHitRefAppend(es: seq<Entry>, e: Entry, pat: Pattern)
    ensures FirstHitRef(es + [e], pat) ==
              if FirstHitRef(es, pat).Some? then FirstHitRef(es, pat)
              else if Hit(pat, e) then Some(e.ref) else None
  {
    if |es| > 0 {
      FirstHitRefAppend(es[1..], e, pat);
      assert (es + [e])[1..] == es[1..] + [e];
    } else {
      assert es + [e] == [e];
    }
  }

  /** Retargeting with a token keeps every entry well formed. */
  lemma RetargetWellFormed(es: seq<Entry>, pat: Pattern, v: string)
    requires AllWellFormed(es) && IsToken(v)
    ensures AllWellFormed(Retarget(es, pat, v))
  {
  }

  /** When the pattern takes any ref, retargeting changes no hit, so the
      first hit's ref becomes the new ref. */
  lemma {:induction false} FirstHitRefRetarget(es: seq<Entry>, pat: Pattern, v: string)
    requires pat.ref.AnyRef?
    ensures FirstHitRef(Retarget(es, pat, v), pat) ==
              if FirstHitRef(es, pat).Some? then Some(v) else None
  {
    if |es| > 0 {
      FirstHitRefRetarget(es[1..], pat, v);
      assert Retarget(es, pat, v)[1..] == Retarget(es[1..], pat, v);
    }
  }

  /** When the pattern takes any ref, retargeting twice is retargeting
      once. */
  lemma RetargetTwice(es: seq<Entry>, pat: Pattern, v: string)
    requires pat.ref.AnyRef?
    ensures Retarget(Retarget(es, pat, v), pat, v) == Retarget(es, pat, v)
  {
  }
}
