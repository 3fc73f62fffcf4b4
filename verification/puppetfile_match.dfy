/** The three Puppetfile regular expressions of the action handlers, run the
    way JavaScript runs a global (`g`), multiline (`m`) expression.

    Each expression is written as a sequence of tokens of the form
      ANCHOR ['"] , \s* :ref \s* => \s* ['"] REF ['"] END
    where ANCHOR is an interpolated literal (a repository URL, or a module
    name followed by `.git`) or `[-\w]+\.git`, REF is `[^'"]+` or an
    interpolated branch name, and END is `\s*$` or `$`. In all of them every
    `\s*`, `[^'"]+` and `[-\w]+` is followed by a token that cannot start
    with a character of its class, so backtracking cannot shorten the run:
    the only choice left is in `\s*$`, whose greedy run backs off to the last
    line end it covers. A match at a start position is therefore decided by
    one walk over the tokens, and scanning start positions left to right
    gives `exec`, `replace` and the callback form of `replace`. */
module PuppetfileMatch {
  import opened Results
  import opened Text

  /** `['"]`. */
  predicate IsQuote(c: char) { c == '\'' || c == '"' }

  /** `[-\w]`: ASCII letters, digits, `_` and `-`. */
  predicate IsNameChar(c: char) {
    ('a' <= c <= 'z') || ('A' <= c <= 'Z') || ('0' <= c <= '9') || c == '_' || c == '-'
  }

  /** The character classes the expressions repeat. */
  datatype CharClass = Spaces | NameChars | NonQuotes

  predicate InClass(c: char, k: CharClass) {
    match k
    case Spaces => IsSpace(c)
    case NameChars => IsNameChar(c)
    case NonQuotes => !IsQuote(c)
  }

  /** The literal `lit` occurs in `s` at position `p`. */
  predicate At(s: string, p: nat, lit: string) {
    p + |lit| <= |s| && s[p..p + |lit|] == lit
  }

  /** Position `p` is not preceded by a `[-\w]` character. */
  predicate LeftBoundary(s: string, p: nat) {
    p == 0 || (p <= |s| && !IsNameChar(s[p - 1]))
  }

  /** The end of the longest run of class-`k` characters starting at `p`. */
  function SkipWhile(s: string, p: nat, k: CharClass): (e: nat)
    requires p <= |s|
    ensures p <= e <= |s|
    ensures forall i :: p <= i < e ==> InClass(s[i], k)
    ensures e < |s| ==> !InClass(s[e], k)
    decreases |s| - p
  {
    if p < |s| && InClass(s[p], k) then SkipWhile(s, p + 1, k) else p
  }

  /** The largest position in `lo..hi` at which `$` matches under `m`. */
  function LastLineEnd(s: string, lo: nat, hi: nat): (r: Option<nat>)
    requires lo <= hi <= |s|
    ensures r.Some? ==> lo <= r.value <= hi && LineEnd(s, r.value)
    ensures r.Some? ==> forall e :: r.value < e <= hi ==> !LineEnd(s, e)
    ensures r.None? ==> forall e :: lo <= e <= hi ==> !LineEnd(s, e)
    decreases hi - lo
  {
    if LineEnd(s, hi) then Some(hi)
    else if hi == lo then None
    else LastLineEnd(s, lo, hi - 1)
  }

  /** One token of an expression. `Boundary` is a zero-width guard that the
      corrected delete expression adds; the others are written in the
      service's expressions. */
  datatype Token =
    | Text(text: string)
    | Boundary
    | Quote
    | Star(k: CharClass)
    | Plus(k: CharClass)
    | SpacesThenLineEnd
    | LineEndHere

  /** Where token `t` ends when it starts at `p`. */
  function Step(s: string, p: nat, t: Token): (r: Option<nat>)
    requires p <= |s|
    ensures r.Some? ==> p <= r.value <= |s|
  {
    match t
    case Text(lit) => if At(s, p, lit) then Some(p + |lit|) else None
    case Boundary => if LeftBoundary(s, p) then Some(p) else None
    case Quote => if p < |s| && IsQuote(s[p]) then Some(p + 1) else None
    case Star(k) => Some(SkipWhile(s, p, k))
    case Plus(k) => var e := SkipWhile(s, p, k); if e > p then Some(e) else None
    case SpacesThenLineEnd => LastLineEnd(s, p, SkipWhile(s, p, Spaces))
    case LineEndHere => if LineEnd(s, p) then Some(p) else None
  }

  /** `ends` are non-decreasing positions of `s`, none before `p`. */
  predicate Ascending(s: string, p: nat, ends: seq<nat>) {
    && (forall i :: 0 <= i < |ends| ==> p <= ends[i] <= |s|)
    && (forall i, j :: 0 <= i <= j < |ends| ==> ends[i] <= ends[j])
  }

  /** The end positions of the tokens `toks` walked from `p`, one per token. */
  function Walk(s: string, p: nat, toks: seq<Token>): (r: Option<seq<nat>>)
    requires p <= |s|
    ensures r.Some? ==> |r.value| == |toks| && Ascending(s, p, r.value)
    decreases |toks|
  {
    if |toks| == 0 then Some([])
    else
      match Step(s, p, toks[0])
      case None => None
      case Some(q) =>
        match Walk(s, q, toks[1..])
        case None => None
        case Some(rest) => Some([q] + rest)
  }

  /** Each end in a walk is where its token ends when started at the
      previous end (at `p` for the first token). */
  lemma {:induction false} WalkStep(s: string, p: nat, toks: seq<Token>, i: nat)
    requires p <= |s| && Walk(s, p, toks).Some? && i < |toks|
    ensures var ends := Walk(s, p, toks).value;
            var prev := if i == 0 then p else ends[i - 1];
            prev <= |s| && Step(s, prev, toks[i]) == Some(ends[i])
    decreases i
  {
    if i > 0 {
      var q := Step(s, p, toks[0]).value;
      WalkStep(s, q, toks[1..], i - 1);
    }
  }

  /** The second walk of a concatenation, from where the first ended. */
  function WalkThen(s: string, p: nat, xs: seq<Token>, ys: seq<Token>): Option<seq<nat>>
    requires p <= |s|
  {
    match Walk(s, p, xs)
    case None => None
    case Some(e1) =>
      match Walk(s, LastEnd(p, e1), ys)
      case None => None
      case Some(e2) => Some(e1 + e2)
  }

  /** Walking a concatenation walks the first part, then the second from
      where the first ended. */
  lemma {:induction false} WalkAppend(s: string, p: nat, xs: seq<Token>, ys: seq<Token>)
    requires p <= |s|
    ensures Walk(s, p, xs + ys) == WalkThen(s, p, xs, ys)
    decreases |xs|, 1
  {
    if |xs| == 0 {
      WalkAppendNil(s, p, xs, ys);
    } else {
      WalkAppendCons(s, p, xs, ys);
    }
  }

  lemma WalkAppendNil(s: string, p: nat, xs: seq<Token>, ys: seq<Token>)
    requires p <= |s| && |xs| == 0
    ensures Walk(s, p, xs + ys) == WalkThen(s, p, xs, ys)
  {
    assert xs + ys == ys;
    match Walk(s, p, ys)
    case None =>
    case Some(e2) => assert [] + e2 == e2;
  }

  lemma {:induction false} WalkAppendCons(s: string, p: nat, xs: seq<Token>, ys: seq<Token>)
    requires p <= |s| && |xs| > 0
    ensures Walk(s, p, xs + ys) == WalkThen(s, p, xs, ys)
    decreases |xs|, 0
  {
    assert (xs + ys)[0] == xs[0];
    assert (xs + ys)[1..] == xs[1..] + ys;
    match Step(s, p, xs[0])
    case None =>
    case Some(q) =>
      WalkAppend(s, q, xs[1..], ys);
      match Walk(s, q, xs[1..])
      case None =>
      case Some(e1) =>
        assert LastEnd(q, e1) == LastEnd(p, [q] + e1);
        match Walk(s, LastEnd(q, e1), ys)
        case None =>
        case Some(e2) =>
          assert [q] + (e1 + e2) == ([q] + e1) + e2;
  }

  /** Walks of one, two and three tokens from their steps. */
  lemma Walk1(s: string, p: nat, t1: Token, q1: nat)
    requires p <= |s| && Step(s, p, t1) == Some(q1)
    ensures Walk(s, p, [t1]) == Some([q1])
  {
    var toks := [t1];
    assert toks[0] == t1 && toks[1..] == [];
    assert Walk(s, q1, []) == Some([]);
    assert [q1] + [] == [q1];
  }

  lemma Walk2(s: string, p: nat, t1: Token, t2: Token, q1: nat, q2: nat)
    requires p <= |s| && Step(s, p, t1) == Some(q1) && q1 <= |s| && Step(s, q1, t2) == Some(q2)
    ensures Walk(s, p, [t1, t2]) == Some([q1, q2])
  {
    Walk1(s, q1, t2, q2);
    var toks := [t1, t2];
    assert toks[0] == t1 && toks[1..] == [t2];
    assert [q1] + [q2] == [q1, q2];
  }

  lemma Walk3(s: string, p: nat, t1: Token, t2: Token, t3: Token, q1: nat, q2: nat, q3: nat)
    requires p <= |s| && Step(s, p, t1) == Some(q1) && q1 <= |s| && Step(s, q1, t2) == Some(q2)
    requires q2 <= |s| && Step(s, q2, t3) == Some(q3)
    ensures Walk(s, p, [t1, t2, t3]) == Some([q1, q2, q3])
  {
    Walk2(s, q1, t2, t3, q2, q3);
    var toks := [t1, t2, t3];
    assert toks[0] == t1 && toks[1..] == [t2, t3];
    assert [q1] + [q2, q3] == [q1, q2, q3];
  }

  lemma Walk4(s: string, p: nat, t1: Token, t2: Token, t3: Token, t4: Token,
               q1: nat, q2: nat, q3: nat, q4: nat)
    requires p <= |s| && Step(s, p, t1) == Some(q1) && q1 <= |s| && Step(s, q1, t2) == Some(q2)
    requires q2 <= |s| && Step(s, q2, t3) == Some(q3) && q3 <= |s| && Step(s, q3, t4) == Some(q4)
    ensures Walk(s, p, [t1, t2, t3, t4]) == Some([q1, q2, q3, q4])
  {
    Walk3(s, q1, t2, t3, t4, q2, q3, q4);
    var toks := [t1, t2, t3, t4];
    assert toks[0] == t1 && toks[1..] == [t2, t3, t4];
    assert [q1] + [q2, q3, q4] == [q1, q2, q3, q4];
  }

  /** Where a walk ends: its last token's end, or `p` for no tokens. */
  function LastEnd(p: nat, ends: seq<nat>): nat {
    if |ends| == 0 then p else ends[|ends| - 1]
  }

  /** What precedes the first quote: an interpolated literal, the same
      literal behind a guard against a preceding `[-\w]` character, or
      `([-\w]+)\.git`. */
  datatype Anchor = Literal(text: string) | BoundedLiteral(text: string) | RepoBasename

  /** What stands between the `:ref` quotes: `([^'"]+)` or a literal. */
  datatype RefKind = AnyRef | ExactRef(ref: string)

  /** One expression; `spacesBeforeEnd` is a `\s*` in front of the `$`. */
  datatype Pattern = Pattern(anchor: Anchor, ref: RefKind, spacesBeforeEnd: bool)

  function AnchorTokens(a: Anchor): seq<Token> {
    match a
    case Literal(t) => [Text(t)]
    case BoundedLiteral(t) => [Boundary, Text(t)]
    case RepoBasename => [Plus(NameChars), Text(".git")]
  }

  function RefToken(r: RefKind): Token {
    match r
    case AnyRef => Plus(NonQuotes)
    case ExactRef(t) => Text(t)
  }

  /** `['"],\s*:ref\s*=>\s*['"]`, shared by all three expressions. */
  const Middle: seq<Token> :=
    [Quote, Text(","), Star(Spaces), Text(":ref"), Star(Spaces), Text("=>"), Star(Spaces), Quote]

  /** What follows the ref: its closing quote, then `\s*$` or `$`. */
  function TailTokens(pat: Pattern): seq<Token> {
    [RefToken(pat.ref), Quote, if pat.spacesBeforeEnd then SpacesThenLineEnd else LineEndHere]
  }

  /** The whole expression as tokens. */
  function Tokens(pat: Pattern): (r: seq<Token>)
    ensures |r| == |AnchorTokens(pat.anchor)| + 11
  {
    AnchorTokens(pat.anchor) + Middle + TailTokens(pat)
  }

  /** A match: `start..nameEnd` is the first group (the first anchor token),
      the anchor ends at `anchorEnd`, the ref is `refStart..refEnd`, and the
      whole match is `start..end`. */
  datatype Match = Match(start: nat, nameEnd: nat, anchorEnd: nat, refStart: nat, refEnd: nat, end: nat)

  /** The match starting at `p`, if any. */
  function MatchAt(s: string, p: nat, pat: Pattern): (r: Option<Match>)
    requires p <= |s|
    ensures r.Some? ==>
              && r.value.start == p <= r.value.nameEnd <= r.value.anchorEnd
              && r.value.anchorEnd <= r.value.refStart <= r.value.refEnd < r.value.end <= |s|
  {
    var toks := Tokens(pat);
    var a := |AnchorTokens(pat.anchor)|;
    match Walk(s, p, toks)
    case None => None
    case Some(ends) =>
      assert toks[a + 9] == Quote;
      WalkStep(s, p, toks, a + 9);
      Some(Match(p, if a == 0 then p else ends[0], if a == 0 then p else ends[a - 1],
                 ends[a + 7], ends[a + 8], ends[a + 10]))
  }

  /** A match is an anchor walk, then the `Middle` walk from where the
      anchor ended, then the tail walk from where `Middle` ended. */
  lemma MatchDecompose(s: string, p: nat, pat: Pattern)
    requires p <= |s|
    ensures MatchAt(s, p, pat) ==
              match Walk(s, p, AnchorTokens(pat.anchor))
              case None => None
              case Some(ea) =>
                var q := LastEnd(p, ea);
                match Walk(s, q, Middle)
                case None => None
                case Some(em) =>
                  match Walk(s, em[7], TailTokens(pat))
                  case None => None
                  case Some(et) =>
                    Some(Match(p, if |ea| == 0 then p else ea[0], q, em[7], et[0], et[2]))
  {
    var at := AnchorTokens(pat.anchor);
    assert Tokens(pat) == at + (Middle + TailTokens(pat));
    WalkAppend(s, p, at, Middle + TailTokens(pat));
    match Walk(s, p, at)
    case None =>
    case Some(ea) =>
      var q := LastEnd(p, ea);
      WalkAppend(s, q, Middle, TailTokens(pat));
      match Walk(s, q, Middle)
      case None =>
      case Some(em) =>
        assert LastEnd(q, em) == em[7];
        match Walk(s, em[7], TailTokens(pat))
        case None =>
        case Some(et) =>
          var ends := ea + (em + et);
          assert Walk(s, p, Tokens(pat)) == Some(ends);
          assert ends[|at| + 7] == em[7];
          assert ends[|at| + 8] == et[0];
          assert ends[|at| + 10] == et[2];
          assert |at| > 0 ==> ends[|at| - 1] == ea[|ea| - 1] && ends[0] == ea[0];
  }

  /** A match walks its anchor, and `Middle` from where the anchor ended. */
  lemma MatchAnchor(s: string, p: nat, pat: Pattern)
    requires p <= |s| && MatchAt(s, p, pat).Some?
    ensures Walk(s, p, AnchorTokens(pat.anchor)).Some?
    ensures MatchAt(s, p, pat).value.anchorEnd == LastEnd(p, Walk(s, p, AnchorTokens(pat.anchor)).value)
    ensures Walk(s, MatchAt(s, p, pat).value.anchorEnd, Middle).Some?
  {
    MatchDecompose(s, p, pat);
  }

  /** A match from its three walks. */
  lemma MatchFromWalks(s: string, p: nat, pat: Pattern, ea: seq<nat>, em: seq<nat>, et: seq<nat>)
    requires p <= |s| && Walk(s, p, AnchorTokens(pat.anchor)) == Some(ea)
    requires LastEnd(p, ea) <= |s| && Walk(s, LastEnd(p, ea), Middle) == Some(em)
    requires |em| == 8 && em[7] <= |s| && Walk(s, em[7], TailTokens(pat)) == Some(et)
    ensures |et| == 3
    ensures MatchAt(s, p, pat) ==
              Some(Match(p, if |ea| == 0 then p else ea[0], LastEnd(p, ea), em[7], et[0], et[2]))
  {
    MatchDecompose(s, p, pat);
  }

  /** A match walks `Middle` from its anchor's end to its ref's start, and
      its tail from there. */
  lemma MatchTail(s: string, p: nat, pat: Pattern)
    requires p <= |s| && MatchAt(s, p, pat).Some?
    ensures MatchAt(s, p, pat).value.anchorEnd <= |s|
    ensures Walk(s, MatchAt(s, p, pat).value.anchorEnd, Middle).Some?
    ensures Walk(s, MatchAt(s, p, pat).value.anchorEnd, Middle).value[7] == MatchAt(s, p, pat).value.refStart
    ensures Walk(s, MatchAt(s, p, pat).value.refStart, TailTokens(pat)).Some?
  {
    MatchDecompose(s, p, pat);
  }

  /** What a successful `Middle` walk reads: a quote, a comma, and `:ref`
      after the run of spaces that follows. */
  lemma MiddleShape(s: string, q: nat)
    requires q <= |s| && Walk(s, q, Middle).Some?
    ensures q + 1 < |s| && IsQuote(s[q]) && s[q + 1] == ','
    ensures At(s, SkipWhile(s, q + 2, Spaces), ":ref")
  {
    MiddleComma(s, q);
    MiddleRef(s, q);
  }

  lemma MiddleQuote(s: string, q: nat)
    requires q <= |s| && Walk(s, q, Middle).Some?
    ensures q < |s| && IsQuote(s[q]) && Walk(s, q, Middle).value[0] == q + 1
  {
    assert Middle[0] == Quote;
    WalkStep(s, q, Middle, 0);
  }

  lemma MiddleComma(s: string, q: nat)
    requires q <= |s| && Walk(s, q, Middle).Some?
    ensures q + 1 < |s| && IsQuote(s[q]) && s[q + 1] == ','
    ensures Walk(s, q, Middle).value[1] == q + 2
  {
    MiddleQuote(s, q);
    assert Middle[1] == Text(",");
    WalkStep(s, q, Middle, 1);
    assert At(s, q + 1, ",");
    assert s[q + 1] == s[q + 1..q + 2][0];
  }

  lemma MiddleRef(s: string, q: nat)
    requires q <= |s| && Walk(s, q, Middle).Some?
    ensures q + 2 <= |s| && At(s, SkipWhile(s, q + 2, Spaces), ":ref")
  {
    MiddleComma(s, q);
    var ends := Walk(s, q, Middle).value;
    assert Middle[2] == Star(Spaces) && Middle[3] == Text(":ref");
    WalkStep(s, q, Middle, 2);
    assert ends[2] == SkipWhile(s, q + 2, Spaces);
    WalkStep(s, q, Middle, 3);
  }

  /** The leftmost match starting at or after `from` (`exec` with
      `lastIndex` = `from`). */
  function FirstMatch(s: string, pat: Pattern, from: nat): (r: Option<Match>)
    requires from <= |s|
    ensures r.Some? ==> from <= r.value.start <= |s| && MatchAt(s, r.value.start, pat) == r
    ensures r.Some? ==> forall p :: from <= p < r.value.start ==> MatchAt(s, p, pat).None?
    ensures r.None? ==> forall p :: from <= p <= |s| ==> MatchAt(s, p, pat).None?
    decreases |s| - from
  {
    match MatchAt(s, from, pat)
    case Some(m) => Some(m)
    case None => if from == |s| then None else FirstMatch(s, pat, from + 1)
  }

  /** `s.replace(re, '$1' + v + '$3')` from `from` on: every match, left to
      right, gets its ref replaced by `v`; the text in between is kept. */
  function ReplaceAll(s: string, pat: Pattern, v: string, from: nat): (r: string)
    requires from <= |s|
    ensures FirstMatch(s, pat, from).None? ==> r == s[from..]
    decreases |s| - from
  {
    match FirstMatch(s, pat, from)
    case None => s[from..]
    case Some(m) => s[from..m.refStart] + v + s[m.refEnd..m.end] + ReplaceAll(s, pat, v, m.end)
  }

  /** The first group of every match, left to right (the callback form of
      `replace`). */
  function Captures(s: string, pat: Pattern, from: nat): (r: seq<string>)
    requires from <= |s|
    ensures FirstMatch(s, pat, from).None? <==> r == []
    decreases |s| - from
  {
    match FirstMatch(s, pat, from)
    case None => []
    case Some(m) => [s[m.start..m.nameEnd]] + Captures(s, pat, m.end)
  }

  /** Starting the search later changes nothing when no match starts in
      between. */
  lemma FirstMatchSkip(s: string, pat: Pattern, from: nat, to: nat)
    requires from <= to <= |s|
    requires forall p :: from <= p < to ==> MatchAt(s, p, pat).None?
    ensures FirstMatch(s, pat, from) == FirstMatch(s, pat, to)
  {
    var r1 := FirstMatch(s, pat, from);
    var r2 := FirstMatch(s, pat, to);
    if r1.Some? {
      assert to <= r1.value.start;
      assert r2.Some?;
      assert r2.value.start == r1.value.start;
    } else {
      assert r2.None?;
    }
  }

  /** Text in which no match starts is copied unchanged. */
  lemma ReplaceSkip(s: string, pat: Pattern, v: string, from: nat, to: nat)
    requires from <= to <= |s|
    requires forall p :: from <= p < to ==> MatchAt(s, p, pat).None?
    ensures ReplaceAll(s, pat, v, from) == s[from..to] + ReplaceAll(s, pat, v, to)
  {
    FirstMatchSkip(s, pat, from, to);
    ReplaceSame(s, pat, v, from, to);
  }

  /** Two starts with the same first match replace alike past the later. */
  lemma ReplaceSame(s: string, pat: Pattern, v: string, from: nat, to: nat)
    requires from <= to <= |s| && FirstMatch(s, pat, from) == FirstMatch(s, pat, to)
    ensures ReplaceAll(s, pat, v, from) == s[from..to] + ReplaceAll(s, pat, v, to)
  {
    match FirstMatch(s, pat, to)
    case None =>
      assert s[from..] == s[from..to] + s[to..];
    case Some(m) =>
      ReplaceAllAt(s, pat, v, from, m);
      ReplaceAllAt(s, pat, v, to, m);
      SliceJoin(s, from, to, m.refStart, v + s[m.refEnd..m.end] + ReplaceAll(s, pat, v, m.end));
  }

  /** `ReplaceAll` at its first match. */
  lemma ReplaceAllAt(s: string, pat: Pattern, v: string, from: nat, m: Match)
    requires from <= |s| && FirstMatch(s, pat, from) == Some(m)
    ensures from <= m.refStart <= m.refEnd <= m.end <= |s|
    ensures ReplaceAll(s, pat, v, from) == s[from..m.refStart] + (v + s[m.refEnd..m.end] + ReplaceAll(s, pat, v, m.end))
  {
  }

  lemma SliceJoin(s: string, i: nat, j: nat, k: nat, x: string)
    requires i <= j <= k <= |s|
    ensures s[i..k] + x == s[i..j] + (s[j..k] + x)
  {
    assert s[i..k] == s[i..j] + s[j..k];
  }

  /** No capture is collected from text in which no match starts. */
  lemma CapturesSkip(s: string, pat: Pattern, from: nat, to: nat)
    requires from <= to <= |s|
    requires forall p :: from <= p < to ==> MatchAt(s, p, pat).None?
    ensures Captures(s, pat, from) == Captures(s, pat, to)
  {
    FirstMatchSkip(s, pat, from, to);
  }
}
