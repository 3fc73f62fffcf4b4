/** How the three Puppetfile expressions meet one `mod` entry written in the
    service's own format: the only place a match can anchor is the `:git`
    URL, and whether it matches is decided by the entry's URL and ref. */
module EntryLayout {
  import opened Results
  import opened Text
  import opened PuppetfileMatch
  import opened Puppetfile

  /** A character that can stand in a name, URL or ref of a written entry:
      no quote, no white space, no comma. */
  predicate TokenChar(c: char) { !IsQuote(c) && !IsSpace(c) && c != ',' }

  predicate IsToken(t: string) {
    |t| > 0 && forall i :: 0 <= i < |t| ==> TokenChar(t[i])
  }

  predicate WellFormed(e: Entry) {
    IsToken(e.name) && IsToken(e.url) && IsToken(e.ref)
  }

  /** A literal that a walk can only cross inside one entry value. */
  predicate Clean(t: string) {
    |t| > 0 && forall i :: 0 <= i < |t| ==> !IsQuote(t[i]) && !IsSpace(t[i])
  }

  predicate CleanAnchor(a: Anchor) {
    match a
    case Literal(t) => Clean(t)
    case BoundedLiteral(t) => Clean(t)
    case RepoBasename => true
  }

  predicate CleanRef(r: RefKind) {
    match r
    case AnyRef => true
    case ExactRef(t) => forall i :: 0 <= i < |t| ==> !IsQuote(t[i])
  }

  predicate CleanPattern(pat: Pattern) {
    CleanAnchor(pat.anchor) && CleanRef(pat.ref)
  }

  /** Entry `e` is written at position `k` of `s`. */
  predicate Placed(s: string, k: nat, e: Entry) {
    At(s, k, EntryText(e))
  }

  /** What follows an entry ending at `z`: the end of the text or the next
      written entry. */
  predicate Followed(s: string, z: nat) {
    z == |s| || (z + 1 < |s| && s[z] == '\n' && s[z + 1] == 'm')
  }

  /** Positions of an entry at `k`: name `n0..n1`, URL `u0..u1`, ref
      `r0..r1`, end `z`. */
  datatype Layout = Layout(n0: nat, n1: nat, u0: nat, u1: nat, r0: nat, r1: nat, z: nat)

  function LayoutOf(k: nat, e: Entry): (l: Layout)
    ensures l.z == k + |EntryText(e)|
  {
    var n1 := k + 6 + |e.name|;
    var u1 := n1 + 14 + |e.url|;
    var r1 := u1 + 14 + |e.ref|;
    Layout(k + 6, n1, n1 + 14, u1, u1 + 14, r1, r1 + 2)
  }

  lemma AtConcat(s: string, a: nat, t1: string, t2: string)
    requires At(s, a, t1 + t2)
    ensures At(s, a, t1) && At(s, a + |t1|, t2)
  {
    assert s[a..a + |t1|] == (t1 + t2)[..|t1|];
    assert s[a + |t1|..a + |t1| + |t2|] == (t1 + t2)[|t1|..];
  }

  lemma AtChar(s: string, a: nat, t: string, i: nat)
    requires At(s, a, t) && a <= i < a + |t|
    ensures s[i] == t[i - a]
  {
    assert s[a..a + |t|][i - a] == s[i];
  }

  /** The seven pieces of an entry, at their positions. */
  lemma Pieces(s: string, k: nat, e: Entry, l: Layout)
    requires Placed(s, k, e) && l == LayoutOf(k, e)
    ensures l.z <= |s|
    ensures At(s, k, ModPart) && At(s, l.n0, e.name) && At(s, l.n1, GitPart)
    ensures At(s, l.u0, e.url) && At(s, l.u1, RefPart) && At(s, l.r0, e.ref)
    ensures At(s, l.r1, EndPart)
  {
    var x1 := ModPart + e.name;
    var x2 := x1 + GitPart;
    var x3 := x2 + e.url;
    var x4 := x3 + RefPart;
    var x5 := x4 + e.ref;
    assert EntryText(e) == x5 + EndPart;
    AtConcat(s, k, x5, EndPart);
    AtConcat(s, k, x4, e.ref);
    AtConcat(s, k, x3, RefPart);
    AtConcat(s, k, x2, e.url);
    AtConcat(s, k, x1, GitPart);
    AtConcat(s, k, ModPart, e.name);
  }

  /** The next four lemmas each bring one of the facts of `Pieces` into a
      proof. A caller that needs one piece then does not carry the other
      six `At` facts, which keeps its proof small. */

  /** The `:git` piece of an entry, alone. */
  lemma GitPartAt(s: string, k: nat, e: Entry, l: Layout)
    requires Placed(s, k, e) && l == LayoutOf(k, e)
    ensures l.z <= |s| && At(s, l.n1, GitPart)
  {
    Pieces(s, k, e, l);
  }

  /** The ref of an entry, alone. */
  lemma RefAt(s: string, k: nat, e: Entry, l: Layout)
    requires Placed(s, k, e) && l == LayoutOf(k, e)
    ensures l.z <= |s| && At(s, l.r0, e.ref)
  {
    Pieces(s, k, e, l);
  }

  /** The `:ref` piece of an entry, alone. */
  lemma RefPartAt(s: string, k: nat, e: Entry, l: Layout)
    requires Placed(s, k, e) && l == LayoutOf(k, e)
    ensures l.z <= |s| && At(s, l.u1, RefPart)
  {
    Pieces(s, k, e, l);
  }

  /** The closing piece of an entry, alone. */
  lemma EndPartAt(s: string, k: nat, e: Entry, l: Layout)
    requires Placed(s, k, e) && l == LayoutOf(k, e)
    ensures l.z <= |s| && At(s, l.r1, EndPart)
  {
    Pieces(s, k, e, l);
  }

  /** The quotes of the fixed pieces. */
  lemma PieceQuotes()
    ensures forall j :: 0 <= j < 6 ==> (IsQuote(ModPart[j]) <==> j == 5)
    ensures forall j :: 0 <= j < 14 ==> (IsQuote(GitPart[j]) <==> j == 0 || j == 13)
    ensures forall j :: 0 <= j < 14 ==> (IsQuote(RefPart[j]) <==> j == 0 || j == 13)
    ensures IsQuote(EndPart[0]) && !IsQuote(EndPart[1]) && IsSpace(EndPart[1])
  {
  }

  /** A quote followed by a comma inside an entry closes the name or the
      URL. */
  lemma QuoteComma(s: string, k: nat, e: Entry, q: nat)
    requires Placed(s, k, e) && WellFormed(e)
    requires k <= q < LayoutOf(k, e).z && q + 1 < |s| && IsQuote(s[q]) && s[q + 1] == ','
    ensures q == LayoutOf(k, e).n1 || q == LayoutOf(k, e).u1
  {
    var l := LayoutOf(k, e);
    Pieces(s, k, e, l);
    QuoteCommaPieces(s, k, e, l, q);
  }

  lemma QuoteCommaPieces(s: string, k: nat, e: Entry, l: Layout, q: nat)
    requires WellFormed(e) && l == LayoutOf(k, e) && l.z <= |s|
    requires At(s, k, ModPart) && At(s, l.n0, e.name) && At(s, l.n1, GitPart)
    requires At(s, l.u0, e.url) && At(s, l.u1, RefPart) && At(s, l.r0, e.ref)
    requires At(s, l.r1, EndPart)
    requires k <= q < l.z && q + 1 < |s| && IsQuote(s[q]) && s[q + 1] == ','
    ensures q == l.n1 || q == l.u1
  {
    InnerQuotes();
    QuoteInPiece(s, k, ModPart, e.name, q);
    AtChar(s, k, ModPart, k);
    QuoteInPiece(s, l.n1, GitPart, e.url, q);
    QuoteInPiece(s, l.u1, RefPart, e.ref, q);
    QuoteAtEnd(s, l.r1, q);
  }

  /** The fixed pieces are quoted at most at their ends. */
  lemma InnerQuotes()
    ensures InnerUnquoted(ModPart) && InnerUnquoted(GitPart) && InnerUnquoted(RefPart)
  {
    PieceQuotes();
  }

  predicate InnerUnquoted(piece: string) {
    |piece| >= 2 && forall j :: 0 < j < |piece| - 1 ==> !IsQuote(piece[j])
  }

  /** In a fixed piece quoted at most at its ends and followed by a token, a
      quote followed by a comma can only be the piece's first character. */
  lemma QuoteInPiece(s: string, a: nat, piece: string, t: string, q: nat)
    requires InnerUnquoted(piece) && At(s, a, piece) && At(s, a + |piece|, t) && IsToken(t)
    ensures a <= q < a + |piece| + |t| && IsQuote(s[q]) && q + 1 < |s| && s[q + 1] == ',' ==> q == a
  {
    if a <= q < a + |piece| + |t| && IsQuote(s[q]) && q + 1 < |s| && s[q + 1] == ',' {
      if q < a + |piece| {
        AtChar(s, a, piece, q);
        if q == a + |piece| - 1 {
          AtChar(s, a + |piece|, t, q + 1);
        }
      } else {
        AtChar(s, a + |piece|, t, q);
      }
    }
  }

  /** The closing quote of an entry is not followed by a comma. */
  lemma QuoteAtEnd(s: string, r1: nat, q: nat)
    requires At(s, r1, EndPart)
    ensures r1 <= q < r1 + 2 && IsQuote(s[q]) && q + 1 < |s| ==> s[q + 1] != ','
  {
    if r1 <= q < r1 + 2 && IsQuote(s[q]) && q + 1 < |s| {
      AtChar(s, r1, EndPart, q);
      if q == r1 {
        AtChar(s, r1, EndPart, q + 1);
      }
    }
  }

  /** The end of a run is where the class stops holding. */
  lemma SkipWhileIs(s: string, a: nat, b: nat, k: CharClass)
    requires a <= b < |s|
    requires forall i :: a <= i < b ==> InClass(s[i], k)
    requires !InClass(s[b], k)
    ensures SkipWhile(s, a, k) == b
  {
  }

  /** The anchor of a clean pattern reads at least one character, and no
      quote or white space. Literal anchors end after the literal, and the
      repository-name anchor ends four characters after its name run. */
  lemma AnchorRegion(s: string, p: nat, a: Anchor, q: nat)
    requires p <= |s| && CleanAnchor(a) && Walk(s, p, AnchorTokens(a)).Some?
    requires q == LastEnd(p, Walk(s, p, AnchorTokens(a)).value)
    ensures p < q
    ensures forall i :: p <= i < q ==> !IsQuote(s[i]) && !IsSpace(s[i])
    ensures a.Literal? ==> q == p + |a.text| && At(s, p, a.text)
    ensures a.BoundedLiteral? ==> q == p + |a.text| && At(s, p, a.text) && LeftBoundary(s, p)
    ensures a.RepoBasename? ==>
              && p < SkipWhile(s, p, NameChars)
              && q == SkipWhile(s, p, NameChars) + 4
              && At(s, SkipWhile(s, p, NameChars), ".git")
  {
    match a
    case Literal(t) => LiteralRegion(s, p, t, q);
    case BoundedLiteral(t) => BoundedRegion(s, p, t, q);
    case RepoBasename => BasenameRegion(s, p, q);
  }

  lemma LiteralRegion(s: string, p: nat, t: string, q: nat)
    requires p <= |s| && Clean(t) && Walk(s, p, [Text(t)]).Some?
    requires q == LastEnd(p, Walk(s, p, [Text(t)]).value)
    ensures p < q == p + |t| && At(s, p, t)
    ensures forall i :: p <= i < q ==> !IsQuote(s[i]) && !IsSpace(s[i])
  {
    WalkStep(s, p, [Text(t)], 0);
    forall i | p <= i < p + |t| ensures !IsQuote(s[i]) && !IsSpace(s[i]) {
      AtChar(s, p, t, i);
    }
  }

  lemma BoundedRegion(s: string, p: nat, t: string, q: nat)
    requires p <= |s| && Clean(t) && Walk(s, p, [Boundary, Text(t)]).Some?
    requires q == LastEnd(p, Walk(s, p, [Boundary, Text(t)]).value)
    ensures p < q == p + |t| && At(s, p, t) && LeftBoundary(s, p)
    ensures forall i :: p <= i < q ==> !IsQuote(s[i]) && !IsSpace(s[i])
  {
    WalkStep(s, p, [Boundary, Text(t)], 0);
    WalkStep(s, p, [Boundary, Text(t)], 1);
    forall i | p <= i < p + |t| ensures !IsQuote(s[i]) && !IsSpace(s[i]) {
      AtChar(s, p, t, i);
    }
  }

  lemma BasenameRegion(s: string, p: nat, q: nat)
    requires p <= |s| && Walk(s, p, [Plus(NameChars), Text(".git")]).Some?
    requires q == LastEnd(p, Walk(s, p, [Plus(NameChars), Text(".git")]).value)
    ensures p < SkipWhile(s, p, NameChars) && q == SkipWhile(s, p, NameChars) + 4
    ensures At(s, SkipWhile(s, p, NameChars), ".git")
    ensures forall i :: p <= i < q ==> !IsQuote(s[i]) && !IsSpace(s[i])
  {
    var toks := [Plus(NameChars), Text(".git")];
    WalkStep(s, p, toks, 0);
    WalkStep(s, p, toks, 1);
    NameThenGit(s, p, SkipWhile(s, p, NameChars));
  }

  /** A `[-\w]` run and `.git` hold no quote or white space. */
  lemma NameThenGit(s: string, p: nat, e: nat)
    requires p <= e && At(s, e, ".git") && forall i :: p <= i < e ==> InClass(s[i], NameChars)
    ensures forall i :: p <= i < e + 4 ==> !IsQuote(s[i]) && !IsSpace(s[i])
  {
    forall i | e <= i < e + 4 ensures !IsQuote(s[i]) && !IsSpace(s[i]) {
      AtChar(s, e, ".git", i);
    }
  }

  /** The `:git` line is not a `:ref` line: after the quote that closes a
      name, the spaces end at `:git`. */
  lemma NoRefAfterName(s: string, g: nat)
    requires At(s, g, GitPart)
    ensures !At(s, SkipWhile(s, g + 2, Spaces), ":ref")
  {
    assert GitPart[2] == '\n' && GitPart[3] == ' ' && GitPart[4] == ' ';
    assert GitPart[5] == ':' && GitPart[6] == 'g';
    AtChar(s, g, GitPart, g + 2);
    AtChar(s, g, GitPart, g + 3);
    AtChar(s, g, GitPart, g + 4);
    AtChar(s, g, GitPart, g + 5);
    AtChar(s, g, GitPart, g + 6);
    SkipWhileIs(s, g + 2, g + 5, Spaces);
    if At(s, g + 5, ":ref") {
      AtChar(s, g + 5, ":ref", g + 6);
    }
  }

  /** A quote-and-space-free run from inside an entry that stops at a
      quote, a comma and then `:ref` is the URL. */
  lemma RunToRef(s: string, k: nat, e: Entry, p: nat, q: nat)
    requires Placed(s, k, e) && WellFormed(e)
    requires k <= p < LayoutOf(k, e).z && p < q && q + 1 < |s|
    requires forall i :: p <= i < q ==> !IsQuote(s[i]) && !IsSpace(s[i])
    requires IsQuote(s[q]) && s[q + 1] == ','
    requires q + 2 <= |s| && At(s, SkipWhile(s, q + 2, Spaces), ":ref")
    ensures LayoutOf(k, e).u0 <= p && q == LayoutOf(k, e).u1
  {
    var l := LayoutOf(k, e);
    EndPartAt(s, k, e, l);
    GitPartAt(s, k, e, l);
    if q >= l.z {
      AtChar(s, l.r1, EndPart, l.z - 1);
      assert false;
    }
    QuoteComma(s, k, e, q);
    if q == l.n1 {
      NoRefAfterName(s, l.n1);
      assert false;
    }
    if p < l.u0 {
      AtChar(s, l.n1, GitPart, l.u0 - 1);
      assert false;
    }
  }

  /** A match that starts inside a well-formed entry anchors on its URL: it
      starts in the URL and its anchor ends where the URL ends. */
  lemma OnlyUrlAnchor(s: string, k: nat, e: Entry, pat: Pattern, p: nat)
    requires Placed(s, k, e) && WellFormed(e) && CleanAnchor(pat.anchor)
    requires k <= p < LayoutOf(k, e).z && MatchAt(s, p, pat).Some?
    ensures LayoutOf(k, e).u0 <= p
    ensures MatchAt(s, p, pat).value.anchorEnd == LayoutOf(k, e).u1
  {
    MatchAnchor(s, p, pat);
    var q := MatchAt(s, p, pat).value.anchorEnd;
    AnchorRegion(s, p, pat.anchor, q);
    MiddleShape(s, q);
    RunToRef(s, k, e, p, q);
  }

  lemma AtSub(s: string, a: nat, t: string, i: nat, j: nat)
    requires At(s, a, t) && i <= j <= |t|
    ensures At(s, a + i, t[i..j])
  {
    var w := s[a..a + |t|];
    assert forall x :: 0 <= x < j - i ==> s[a + i..a + j][x] == w[i..j][x];
  }

  /** The steps of `Middle` across a written `:ref` line, up to `:ref`. */
  lemma MiddleStepsHead(s: string, q: nat)
    requires At(s, q, RefPart)
    ensures Step(s, q, Quote) == Some(q + 1)
    ensures Step(s, q + 1, Text(",")) == Some(q + 2)
    ensures Step(s, q + 2, Star(Spaces)) == Some(q + 5)
  {
    assert RefPart[1..2] == ",";
    AtSub(s, q, RefPart, 1, 2);
    assert IsQuote(RefPart[0]) && IsSpace(RefPart[2]) && IsSpace(RefPart[3]);
    assert IsSpace(RefPart[4]) && !IsSpace(RefPart[5]);
    AtChar(s, q, RefPart, q);
    AtChar(s, q, RefPart, q + 2);
    AtChar(s, q, RefPart, q + 3);
    AtChar(s, q, RefPart, q + 4);
    AtChar(s, q, RefPart, q + 5);
    SkipWhileIs(s, q + 2, q + 5, Spaces);
  }

  /** The steps of `Middle` across a written `:ref` line, from `:ref` on. */
  lemma MiddleStepsTail(s: string, q: nat)
    requires At(s, q, RefPart)
    ensures Step(s, q + 5, Text(":ref")) == Some(q + 9)
    ensures Step(s, q + 9, Star(Spaces)) == Some(q + 10)
    ensures Step(s, q + 10, Text("=>")) == Some(q + 12)
    ensures Step(s, q + 12, Star(Spaces)) == Some(q + 13)
    ensures Step(s, q + 13, Quote) == Some(q + 14)
  {
    assert RefPart[5..9] == ":ref" && RefPart[10..12] == "=>";
    AtSub(s, q, RefPart, 5, 9);
    AtSub(s, q, RefPart, 10, 12);
    assert IsSpace(RefPart[9]) && !IsSpace(RefPart[10]);
    assert IsSpace(RefPart[12]) && !IsSpace(RefPart[13]) && IsQuote(RefPart[13]);
    AtChar(s, q, RefPart, q + 9);
    AtChar(s, q, RefPart, q + 10);
    AtChar(s, q, RefPart, q + 12);
    AtChar(s, q, RefPart, q + 13);
    SkipWhileIs(s, q + 9, q + 10, Spaces);
    SkipWhileIs(s, q + 12, q + 13, Spaces);
  }

  /** `Middle` walks across a written `:ref` line. */
  lemma MiddleWalk(s: string, q: nat)
    requires At(s, q, RefPart)
    ensures Walk(s, q, Middle).Some? && Walk(s, q, Middle).value[7] == q + 14
  {
    MiddleStepsHead(s, q);
    MiddleStepsTail(s, q);
    var front := [Quote, Text(","), Star(Spaces), Text(":ref")];
    var back := [Star(Spaces), Text("=>"), Star(Spaces), Quote];
    Walk4(s, q, Quote, Text(","), Star(Spaces), Text(":ref"), q + 1, q + 2, q + 5, q + 9);
    Walk4(s, q + 9, Star(Spaces), Text("=>"), Star(Spaces), Quote, q + 10, q + 12, q + 13, q + 14);
    WalkAppend(s, q, front, back);
    assert Middle == front + back;
  }

  /** The ref part of a pattern accepts the ref `ref`. */
  predicate RefHit(r: RefKind, ref: string) {
    match r
    case AnyRef => true
    case ExactRef(t) => t == ref
  }

  /** Where the ref-and-quote part of a pattern gets to over a written ref:
      it reaches the closing quote exactly when the ref is accepted. */
  lemma RefThenQuote(s: string, k: nat, e: Entry, r: RefKind, l: Layout)
    requires Placed(s, k, e) && WellFormed(e) && CleanRef(r) && l == LayoutOf(k, e)
    ensures l.r0 <= |s|
    ensures RefHit(r, e.ref) <==>
              (Step(s, l.r0, RefToken(r)).Some? && Step(s, l.r0, RefToken(r)).value < |s| &&
               IsQuote(s[Step(s, l.r0, RefToken(r)).value]))
    ensures RefHit(r, e.ref) ==> Step(s, l.r0, RefToken(r)) == Some(l.r1)
  {
    RefAt(s, k, e, l);
    EndPartAt(s, k, e, l);
    AtChar(s, l.r1, EndPart, l.r1);
    RefBeforeQuote(s, l.r0, e.ref, r);
  }

  /** The ref-and-quote part of a pattern over a ref token closed by a
      quote. */
  lemma RefBeforeQuote(s: string, r0: nat, ref: string, r: RefKind)
    requires At(s, r0, ref) && IsToken(ref) && CleanRef(r)
    requires r0 + |ref| < |s| && IsQuote(s[r0 + |ref|])
    ensures RefHit(r, ref) <==>
              (Step(s, r0, RefToken(r)).Some? && Step(s, r0, RefToken(r)).value < |s| &&
               IsQuote(s[Step(s, r0, RefToken(r)).value]))
    ensures RefHit(r, ref) ==> Step(s, r0, RefToken(r)) == Some(r0 + |ref|)
  {
    var r1 := r0 + |ref|;
    match r
    case AnyRef =>
      forall i | r0 <= i < r1 ensures InClass(s[i], NonQuotes) {
        AtChar(s, r0, ref, i);
      }
      SkipWhileIs(s, r0, r1, NonQuotes);
    case ExactRef(t) =>
      if At(s, r0, t) && r0 + |t| < |s| && IsQuote(s[r0 + |t|]) {
        UnquotedRun(s, r0, ref);
        UnquotedRun(s, r0, t);
        if |t| != |ref| {
          assert false;
        }
      }
  }

  /** A quote-free literal gives a quote-free run of the text. */
  lemma UnquotedRun(s: string, a: nat, t: string)
    requires At(s, a, t) && forall i :: 0 <= i < |t| ==> !IsQuote(t[i])
    ensures forall i :: a <= i < a + |t| ==> !IsQuote(s[i])
  {
    forall i | a <= i < a + |t| ensures !IsQuote(s[i]) {
      AtChar(s, a, t, i);
    }
  }


  /** The end of a pattern over the newline that closes a written entry:
      `\s*$` takes the newline, `$` stops in front of it. */
  lemma EndStep(s: string, z: nat, spaces: bool)
    requires 0 < z <= |s| && s[z - 1] == '\n' && Followed(s, z)
    ensures Step(s, z - 1, if spaces then SpacesThenLineEnd else LineEndHere) ==
              Some(if spaces then z else z - 1)
  {
    if spaces {
      if z == |s| {
        assert SkipWhile(s, z - 1, Spaces) == z;
      } else {
        SkipWhileIs(s, z - 1, z + 1, Spaces);
        assert !LineEnd(s, z + 1);
        assert LineEnd(s, z);
        assert LastLineEnd(s, z - 1, z) == Some(z);
      }
    }
  }

  /** Where a pattern's match over a written entry ends: after the newline
      for `\s*$`, in front of it for `$`. */
  function MatchEnd(pat: Pattern, z: nat): nat
    requires z > 0
  {
    if pat.spacesBeforeEnd then z else z - 1
  }

  /** The closing quote and the newline of a written entry. */
  lemma CloseSteps(s: string, k: nat, e: Entry, spaces: bool, l: Layout)
    requires Placed(s, k, e) && l == LayoutOf(k, e) && Followed(s, l.z)
    ensures l.z <= |s|
    ensures Step(s, l.r1, Quote) == Some(l.r1 + 1)
    ensures Step(s, l.z - 1, if spaces then SpacesThenLineEnd else LineEndHere) ==
              Some(if spaces then l.z else l.z - 1)
  {
    EndPartAt(s, k, e, l);
    AtChar(s, l.r1, EndPart, l.r1);
    AtChar(s, l.r1, EndPart, l.z - 1);
    EndStep(s, l.z, spaces);
  }

  /** The tail of a pattern walks over an accepted written ref and the
      newline after it. */
  lemma TailWalkHit(s: string, k: nat, e: Entry, pat: Pattern, l: Layout)
    requires Placed(s, k, e) && WellFormed(e) && CleanRef(pat.ref) && RefHit(pat.ref, e.ref)
    requires l == LayoutOf(k, e) && Followed(s, l.z)
    ensures l.r0 <= |s|
    ensures Walk(s, l.r0, TailTokens(pat)) == Some([l.r1, l.r1 + 1, MatchEnd(pat, l.z)])
  {
    RefThenQuote(s, k, e, pat.ref, l);
    CloseSteps(s, k, e, pat.spacesBeforeEnd, l);
    TailFromSteps(s, l.r0, pat, l.r1, l.r1 + 1, MatchEnd(pat, l.z));
  }

  /** A tail walk from its three steps. */
  lemma TailFromSteps(s: string, r0: nat, pat: Pattern, a: nat, b: nat, c: nat)
    requires r0 <= |s| && Step(s, r0, RefToken(pat.ref)) == Some(a)
    requires a <= |s| && Step(s, a, Quote) == Some(b)
    requires b <= |s| && Step(s, b, if pat.spacesBeforeEnd then SpacesThenLineEnd else LineEndHere) == Some(c)
    ensures Walk(s, r0, TailTokens(pat)) == Some([a, b, c])
  {
    Walk3(s, r0, RefToken(pat.ref), Quote, if pat.spacesBeforeEnd then SpacesThenLineEnd else LineEndHere, a, b, c);
  }

  /** The tail of a pattern does not walk over a ref it does not accept. */
  lemma TailWalkMiss(s: string, k: nat, e: Entry, pat: Pattern)
    requires Placed(s, k, e) && WellFormed(e) && CleanRef(pat.ref) && !RefHit(pat.ref, e.ref)
    ensures var l := LayoutOf(k, e);
            l.r0 <= |s| && Walk(s, l.r0, TailTokens(pat)).None?
  {
    var l := LayoutOf(k, e);
    RefThenQuote(s, k, e, pat.ref, l);
    var endTok := if pat.spacesBeforeEnd then SpacesThenLineEnd else LineEndHere;
    var toks := TailTokens(pat);
    assert toks[0] == RefToken(pat.ref) && toks[1..] == [Quote, endTok];
    match Step(s, l.r0, RefToken(pat.ref))
    case None =>
    case Some(x) =>
      assert Step(s, x, Quote).None?;
  }

  /** The anchor of a pattern accepts the URL `url`. */
  predicate AnchorHit(a: Anchor, url: string) {
    match a
    case Literal(t) => EndsWith(url, t)
    case BoundedLiteral(t) => EndsWith(url, t) && (|t| == |url| || !IsNameChar(url[|url| - |t| - 1]))
    case RepoBasename => EndsWith(url, ".git") && |url| > 4 && IsNameChar(url[|url| - 5])
  }

  /** Pattern `pat` matches a written entry `e`. */
  predicate Hit(pat: Pattern, e: Entry) {
    AnchorHit(pat.anchor, e.url) && RefHit(pat.ref, e.ref)
  }

  /** Where in the URL the leftmost match starts. */
  function AnchorStart(a: Anchor, url: string): (i: nat)
    requires AnchorHit(a, url)
    ensures i <= |url|
  {
    match a
    case Literal(t) => |url| - |t|
    case BoundedLiteral(t) => |url| - |t|
    case RepoBasename => RunStart(url, |url| - 4)
  }

  /** The URL ends with the text that a walk inside it ended on. */
  lemma AtTail(s: string, a: nat, url: string, p: nat, t: string)
    requires At(s, a, url) && At(s, p, t) && a <= p && p + |t| == a + |url|
    ensures EndsWith(url, t)
  {
    forall x | 0 <= x < |t| ensures url[|url| - |t| + x] == t[x] {
      AtChar(s, a, url, p + x);
      AtChar(s, p, t, p + x);
    }
  }

  lemma StepText(s: string, a: nat, lit: string)
    requires At(s, a, lit)
    ensures Step(s, a, Text(lit)) == Some(a + |lit|)
  {
  }

  /** The literal of a literal anchor sits at its start in a URL it
      accepts, after a character that is not `[-\w]`. */
  lemma LiteralAt(s: string, u0: nat, url: string, a: Anchor)
    requires At(s, u0, url) && u0 >= 14 && At(s, u0 - 14, GitPart)
    requires (a.Literal? || a.BoundedLiteral?) && AnchorHit(a, url)
    ensures At(s, u0 + AnchorStart(a, url), a.text)
    ensures a.BoundedLiteral? ==> LeftBoundary(s, u0 + AnchorStart(a, url))
  {
    var i := AnchorStart(a, url);
    AtSub(s, u0, url, i, |url|);
    assert url[i..] == a.text;
    if !a.BoundedLiteral? {
    } else if i == 0 {
      AtChar(s, u0 - 14, GitPart, u0 - 1);
    } else {
      AtChar(s, u0, url, u0 + i - 1);
    }
  }

  /** A literal anchor walks from its start in a URL it accepts to the
      URL's end. */
  lemma LiteralWalkHit(s: string, u0: nat, url: string, a: Anchor, p0: nat)
    requires At(s, u0, url) && u0 >= 14 && At(s, u0 - 14, GitPart)
    requires (a.Literal? || a.BoundedLiteral?) && AnchorHit(a, url)
    requires p0 == u0 + AnchorStart(a, url)
    ensures p0 <= |s|
    ensures a.Literal? ==> Walk(s, p0, AnchorTokens(a)) == Some([u0 + |url|])
    ensures a.BoundedLiteral? ==> Walk(s, p0, AnchorTokens(a)) == Some([p0, u0 + |url|])
  {
    LiteralAt(s, u0, url, a);
    StepText(s, p0, a.text);
    if a.Literal? {
      Walk1(s, p0, Text(a.text), u0 + |url|);
    } else {
      Walk2(s, p0, Boundary, Text(a.text), p0, u0 + |url|);
    }
  }

  /** The run of `[-\w]` that starts the repository name ends at `.git`. */
  lemma BasenameRun(s: string, u0: nat, url: string)
    requires At(s, u0, url) && AnchorHit(RepoBasename, url)
    ensures var u1 := u0 + |url|;
            && u1 <= |s|
            && u0 + AnchorStart(RepoBasename, url) < u1 - 4
            && SkipWhile(s, u0 + AnchorStart(RepoBasename, url), NameChars) == u1 - 4
            && At(s, u1 - 4, ".git")
  {
    assert AnchorStart(RepoBasename, url) < |url| - 4;
    var p0 := u0 + AnchorStart(RepoBasename, url);
    var u1 := u0 + |url|;
    var j := |url| - 4;
    AtSub(s, u0, url, j, |url|);
    assert url[j..] == ".git";
    forall x | p0 <= x < u1 - 4 ensures InClass(s[x], NameChars) {
      AtChar(s, u0, url, x);
    }
    AtChar(s, u0, url, u1 - 4);
    SkipWhileIs(s, p0, u1 - 4, NameChars);
  }

  /** The repository-name anchor walks from the start of the name run to
      the URL's end. */
  lemma BasenameWalkHit(s: string, u0: nat, url: string, p0: nat)
    requires At(s, u0, url) && AnchorHit(RepoBasename, url)
    requires p0 == u0 + AnchorStart(RepoBasename, url)
    ensures p0 <= |s|
    ensures Walk(s, p0, AnchorTokens(RepoBasename)) == Some([u0 + |url| - 4, u0 + |url|])
  {
    BasenameRun(s, u0, url);
    NameGitWalk(s, p0, u0 + |url|);
  }

  lemma NameGitWalk(s: string, p0: nat, u1: nat)
    requires 4 <= u1 <= |s| && p0 < u1 - 4
    requires SkipWhile(s, p0, NameChars) == u1 - 4 && At(s, u1 - 4, ".git")
    ensures Walk(s, p0, AnchorTokens(RepoBasename)) == Some([u1 - 4, u1])
  {
    StepText(s, u1 - 4, ".git");
    Walk2(s, p0, Plus(NameChars), Text(".git"), u1 - 4, u1);
  }

  /** The anchor of a pattern that hits an entry walks from its start in
      the URL to the URL's end. */
  lemma AnchorWalkHit(s: string, k: nat, e: Entry, a: Anchor, l: Layout, p0: nat)
    requires Placed(s, k, e) && WellFormed(e) && CleanAnchor(a) && AnchorHit(a, e.url)
    requires l == LayoutOf(k, e) && p0 == l.u0 + AnchorStart(a, e.url)
    ensures p0 <= |s| && Walk(s, p0, AnchorTokens(a)).Some?
    ensures LastEnd(p0, Walk(s, p0, AnchorTokens(a)).value) == l.u1
    ensures a.RepoBasename? ==> Walk(s, p0, AnchorTokens(a)).value[0] == l.u1 - 4
  {
    Pieces(s, k, e, l);
    if a.RepoBasename? {
      BasenameWalkHit(s, l.u0, e.url, p0);
    } else {
      LiteralWalkHit(s, l.u0, e.url, a, p0);
    }
  }

  /** An entry that a pattern hits is matched from the anchor's start in its
      URL, with the ref as the replaced part. */
  lemma HitMatch(s: string, k: nat, e: Entry, pat: Pattern, l: Layout, p0: nat)
    requires Placed(s, k, e) && WellFormed(e) && CleanPattern(pat) && Hit(pat, e)
    requires l == LayoutOf(k, e) && Followed(s, l.z)
    requires p0 == l.u0 + AnchorStart(pat.anchor, e.url)
    ensures p0 <= |s| && MatchAt(s, p0, pat).Some?
    ensures MatchAt(s, p0, pat).value.refStart == l.r0
    ensures MatchAt(s, p0, pat).value.refEnd == l.r1
    ensures MatchAt(s, p0, pat).value.end == MatchEnd(pat, l.z)
    ensures pat.anchor.RepoBasename? ==> MatchAt(s, p0, pat).value.nameEnd == l.u1 - 4
  {
    AnchorWalkHit(s, k, e, pat.anchor, l, p0);
    var ea := Walk(s, p0, AnchorTokens(pat.anchor)).value;
    EntryMiddle(s, k, e, l);
    var em := Walk(s, l.u1, Middle).value;
    TailWalkHit(s, k, e, pat, l);
    MatchFromWalks(s, p0, pat, ea, em, [l.r1, l.r1 + 1, MatchEnd(pat, l.z)]);
  }

  /** Below the start of the repository name no run reaches `.git`. */
  lemma BasenameNoEarly(s: string, u0: nat, url: string, p: nat, p0: nat)
    requires At(s, u0, url) && AnchorHit(RepoBasename, url)
    requires p0 == u0 + AnchorStart(RepoBasename, url) && u0 <= p < p0
    ensures SkipWhile(s, p, NameChars) + 4 < u0 + |url|
  {
    BasenameRun(s, u0, url);
    AtChar(s, u0, url, p0 - 1);
  }

  /** No match starts in an entry before the anchor's start in its URL. */
  lemma NoEarlyMatch(s: string, k: nat, e: Entry, pat: Pattern, l: Layout, p: nat)
    requires Placed(s, k, e) && WellFormed(e) && CleanAnchor(pat.anchor)
    requires AnchorHit(pat.anchor, e.url) && l == LayoutOf(k, e)
    requires k <= p < l.u0 + AnchorStart(pat.anchor, e.url)
    ensures MatchAt(s, p, pat).None?
  {
    if MatchAt(s, p, pat).Some? {
      OnlyUrlAnchor(s, k, e, pat, p);
      MatchAnchor(s, p, pat);
      AnchorRegion(s, p, pat.anchor, l.u1);
      if pat.anchor.RepoBasename? {
        Pieces(s, k, e, l);
        BasenameNoEarly(s, l.u0, e.url, p, l.u0 + AnchorStart(pat.anchor, e.url));
      }
    }
  }

  /** No match starts in an entry past the end of its URL. */
  lemma NoLateMatch(s: string, k: nat, e: Entry, pat: Pattern, l: Layout, p: nat)
    requires Placed(s, k, e) && WellFormed(e) && CleanAnchor(pat.anchor) && l == LayoutOf(k, e)
    requires l.u1 < p < l.z
    ensures MatchAt(s, p, pat).None?
  {
    if MatchAt(s, p, pat).Some? {
      OnlyUrlAnchor(s, k, e, pat, p);
    }
  }

  /** A repository-name run ending at `.git` at the end of a URL means the
      URL has a repository name. */
  lemma BasenameAccepts(s: string, u0: nat, url: string, p: nat, e1: nat)
    requires At(s, u0, url) && u0 <= p < e1 && e1 + 4 == u0 + |url|
    requires At(s, e1, ".git") && IsNameChar(s[e1 - 1])
    ensures AnchorHit(RepoBasename, url)
  {
    AtTail(s, u0, url, e1, ".git");
    AtChar(s, u0, url, e1 - 1);
  }

  /** A bounded literal at the end of a URL means the URL is accepted. */
  lemma BoundedAccepts(s: string, u0: nat, url: string, p: nat, t: string)
    requires At(s, u0, url) && u0 <= p && p + |t| == u0 + |url|
    requires At(s, p, t) && LeftBoundary(s, p)
    ensures AnchorHit(BoundedLiteral(t), url)
  {
    AtTail(s, u0, url, p, t);
    if p > u0 {
      AtChar(s, u0, url, p - 1);
    }
  }

  /** A match that anchors on the URL means the anchor accepts the URL. */
  lemma AnchorAccepts(s: string, k: nat, e: Entry, pat: Pattern, l: Layout, p: nat)
    requires Placed(s, k, e) && WellFormed(e) && CleanAnchor(pat.anchor) && l == LayoutOf(k, e)
    requires k <= p < l.z && MatchAt(s, p, pat).Some?
    ensures AnchorHit(pat.anchor, e.url)
  {
    OnlyUrlAnchor(s, k, e, pat, p);
    MatchAnchor(s, p, pat);
    AnchorRegion(s, p, pat.anchor, l.u1);
    Pieces(s, k, e, l);
    match pat.anchor
    case Literal(t) =>
      AtTail(s, l.u0, e.url, p, t);
    case BoundedLiteral(t) =>
      BoundedAccepts(s, l.u0, e.url, p, t);
    case RepoBasename =>
      var e1 := SkipWhile(s, p, NameChars);
      assert InClass(s[e1 - 1], NameChars);
      BasenameAccepts(s, l.u0, e.url, p, e1);
  }

  /** `Middle` walks from the end of an entry's URL to its ref. */
  lemma EntryMiddle(s: string, k: nat, e: Entry, l: Layout)
    requires Placed(s, k, e) && l == LayoutOf(k, e)
    ensures l.u1 <= |s| && Walk(s, l.u1, Middle).Some? && Walk(s, l.u1, Middle).value[7] == l.r0
  {
    RefPartAt(s, k, e, l);
    MiddleWalk(s, l.u1);
  }

  /** A tail walk from the ref that follows the written `:ref` piece means
      the ref part accepts the written ref. */
  lemma RefAccepts(s: string, k: nat, e: Entry, pat: Pattern, l: Layout, r: nat)
    requires Placed(s, k, e) && WellFormed(e) && CleanRef(pat.ref) && l == LayoutOf(k, e)
    requires l.u1 <= |s| && Walk(s, l.u1, Middle).Some? && Walk(s, l.u1, Middle).value[7] == r
    requires r <= |s| && Walk(s, r, TailTokens(pat)).Some?
    ensures RefHit(pat.ref, e.ref)
  {
    EntryMiddle(s, k, e, l);
    if !RefHit(pat.ref, e.ref) {
      TailWalkMiss(s, k, e, pat);
      assert false;
    }
  }

  /** A pattern that does not hit an entry matches nowhere in it. */
  lemma MissNoMatch(s: string, k: nat, e: Entry, pat: Pattern, l: Layout, p: nat)
    requires Placed(s, k, e) && WellFormed(e) && CleanPattern(pat) && !Hit(pat, e)
    requires l == LayoutOf(k, e) && Followed(s, l.z) && k <= p < l.z
    ensures MatchAt(s, p, pat).None?
  {
    if MatchAt(s, p, pat).Some? {
      AnchorAccepts(s, k, e, pat, l, p);
      OnlyUrlAnchor(s, k, e, pat, p);
      MatchTail(s, p, pat);
      RefAccepts(s, k, e, pat, l, MatchAt(s, p, pat).value.refStart);
      assert false;
    }
  }
}
