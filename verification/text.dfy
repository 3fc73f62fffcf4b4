/** The JavaScript string primitives the service relies on: `split`, `trim`,
    `join`, the `\s` character class, and the line structure that the
    multiline (`m`) regular-expression flag sees. */
module Text {

  /** JavaScript `\s`: the WhiteSpace and LineTerminator characters. The same
      set is what `String.prototype.trim` removes. */
  predicate IsSpace(c: char) {
    || c == '\t' || c == '\n' || c == '\U{000B}' || c == '\U{000C}' || c == '\r' || c == ' '
    || c == '\U{00A0}' || c == '\U{1680}' || ('\U{2000}' <= c <= '\U{200A}')
    || c == '\U{2028}' || c == '\U{2029}' || c == '\U{202F}' || c == '\U{205F}'
    || c == '\U{3000}' || c == '\U{FEFF}'
  }

  /** The characters at which `^` and `$` match under the `m` flag. */
  predicate IsLineTerminator(c: char) {
    c == '\n' || c == '\r' || c == '\U{2028}' || c == '\U{2029}'
  }

  predicate StartsWith(s: string, prefix: string) {
    |prefix| <= |s| && s[..|prefix|] == prefix
  }

  predicate EndsWith(s: string, suffix: string) {
    |suffix| <= |s| && s[|s| - |suffix|..] == suffix
  }

  /** No character of `s` satisfies `p`. */
  predicate NoneSatisfy(s: string, p: char -> bool) {
    forall i :: 0 <= i < |s| ==> !p(s[i])
  }

  /** `s.split(sep)` generalised to a separator class: the maximal
      separator-free pieces, one more than there are separators. */
  function SplitWhere(s: string, isSep: char -> bool): (r: seq<string>)
    ensures |r| >= 1
    decreases |s|
  {
    if |s| == 0 then [""]
    else
      var rest := SplitWhere(s[1..], isSep);
      if isSep(s[0]) then [""] + rest else [[s[0]] + rest[0]] + rest[1..]
  }

  /** `s.split('/')` and friends: splitting on one character. */
  function Split(s: string, sep: char): seq<string> {
    SplitWhere(s, c => c == sep)
  }

  /** `parts.join(sep)`. */
  function Join(parts: seq<string>, sep: char): string
    decreases |parts|
  {
    if |parts| == 0 then ""
    else if |parts| == 1 then parts[0]
    else parts[0] + [sep] + Join(parts[1..], sep)
  }

  /** The lines of `s` as the `m` flag delimits them: every terminator
      character ends a line, so "\r\n" encloses an empty line. */
  function Lines(s: string): seq<string> {
    SplitWhere(s, IsLineTerminator)
  }

  /** `^` under the `m` flag matches at position `p`. */
  predicate LineStart(s: string, p: nat) {
    p == 0 || (0 < p <= |s| && IsLineTerminator(s[p - 1]))
  }

  /** `$` under the `m` flag matches at position `p`. */
  predicate LineEnd(s: string, p: nat) {
    p == |s| || (p < |s| && IsLineTerminator(s[p]))
  }

  /** Number of leading characters of `s` that are `\s`. */
  function LeadingSpace(s: string): (n: nat)
    ensures n <= |s|
    ensures forall i :: 0 <= i < n ==> IsSpace(s[i])
    ensures n < |s| ==> !IsSpace(s[n])
    decreases |s|
  {
    if |s| == 0 || !IsSpace(s[0]) then 0 else 1 + LeadingSpace(s[1..])
  }

  /** Number of trailing characters of `s` that are `\s`. */
  function TrailingSpace(s: string): (n: nat)
    ensures n <= |s|
    ensures forall i :: |s| - n <= i < |s| ==> IsSpace(s[i])
    ensures n < |s| ==> !IsSpace(s[|s| - n - 1])
    decreases |s|
  {
    if |s| == 0 || !IsSpace(s[|s| - 1]) then 0 else 1 + TrailingSpace(s[..|s| - 1])
  }

  /** `s.trim()`: the slice of `s` left once the leading and trailing `\s`
      runs are removed; it is empty or starts and ends with non-space. */
  function Trim(s: string): (r: string)
    ensures |r| <= |s|
    ensures r == [] || (!IsSpace(r[0]) && !IsSpace(r[|r| - 1]))
    ensures var a := LeadingSpace(s);
            a + |r| <= |s| && r == s[a..a + |r|]
            && forall i :: a + |r| <= i < |s| ==> IsSpace(s[i])
  {
    var a := LeadingSpace(s);
    var t := s[a..];
    var b := |t| - TrailingSpace(t);
    assert forall i :: a + b <= i < |s| ==> s[i] == t[i - a];
    t[..b]
  }

  /** Decimal rendering of a natural number (`'' + n` in JavaScript). */
  function NatToString(n: nat): (r: string)
    ensures |r| >= 1
    ensures forall i :: 0 <= i < |r| ==> '0' <= r[i] <= '9'
    decreases n
  {
    if n < 10 then [Digit(n)] else NatToString(n / 10) + [Digit(n % 10)]
  }

  function Digit(d: nat): (c: char)
    requires d < 10
    ensures '0' <= c <= '9'
  {
    ['0', '1', '2', '3', '4', '5', '6', '7', '8', '9'][d]
  }

  /** The decimal text of a number is exactly what parsing reads back. */
  function ParseNat(s: string): nat
    decreases |s|
  {
    if |s| == 0 then 0 else 10 * ParseNat(s[..|s| - 1]) + DigitValue(s[|s| - 1])
  }

  function DigitValue(c: char): nat {
    if '0' <= c <= '9' then (c as int - '0' as int) as nat else 0
  }

  lemma {:induction false} ParseNatToString(n: nat)
    ensures ParseNat(NatToString(n)) == n
    decreases n
  {
    var r := NatToString(n);
    if n < 10 {
      assert r == [Digit(n)];
      assert r[..0] == [];
      DigitRoundTrip(n);
    } else {
      var hi := NatToString(n / 10);
      var d := n % 10;
      assert r == hi + [Digit(d)];
      assert r[..|r| - 1] == hi;
      assert r[|r| - 1] == Digit(d);
      ParseNatToString(n / 10);
      DigitRoundTrip(d);
      assert n == 10 * (n / 10) + d;
    }
  }

  lemma DigitRoundTrip(d: nat)
    requires d < 10
    ensures DigitValue(Digit(d)) == d
  {
  }

  /** Splitting at a separator character distributes over concatenation. */
  lemma {:induction false} SplitWhereAppend(a: string, c: char, b: string, isSep: char -> bool)
    requires isSep(c)
    ensures SplitWhere(a + [c] + b, isSep) == SplitWhere(a, isSep) + SplitWhere(b, isSep)
    decreases |a|
  {
    if |a| == 0 {
      assert a + [c] + b == [c] + b;
      assert ([c] + b)[1..] == b;
    } else {
      var x := a + [c] + b;
      assert x[0] == a[0];
      assert x[1..] == a[1..] + [c] + b;
      SplitWhereAppend(a[1..], c, b, isSep);
      SplitWhereStep(x, isSep);
      SplitWhereStep(a, isSep);
      FirstPieceJoin(a[0], isSep(a[0]), SplitWhere(a[1..], isSep), SplitWhere(b, isSep));
    }
  }

  /** One unfolding of a split of a non-empty string. */
  lemma SplitWhereStep(x: string, isSep: char -> bool)
    requires |x| > 0
    ensures SplitWhere(x, isSep) == SplitFirst(x[0], isSep(x[0]), SplitWhere(x[1..], isSep))
  {
  }

  /** The pieces of `h` followed by the text that splits into `rest`. */
  function SplitFirst(h: char, sep: bool, rest: seq<string>): seq<string>
    requires |rest| >= 1
  {
    if sep then [""] + rest else [[h] + rest[0]] + rest[1..]
  }

  lemma FirstPieceJoin(h: char, sep: bool, ra: seq<string>, rb: seq<string>)
    requires |ra| >= 1
    ensures SplitFirst(h, sep, ra + rb) == SplitFirst(h, sep, ra) + rb
  {
    if !sep {
      assert (ra + rb)[0] == ra[0];
      assert (ra + rb)[1..] == ra[1..] + rb;
    }
  }

  /** A separator-free string is one piece. */
  lemma {:induction false} SplitWhereNone(a: string, isSep: char -> bool)
    requires NoneSatisfy(a, isSep)
    ensures SplitWhere(a, isSep) == [a]
    decreases |a|
  {
    if |a| > 0 {
      SplitWhereNone(a[1..], isSep);
      assert [a[0]] + a[1..] == a;
    }
  }

  /** No piece of a split contains a separator. */
  lemma {:induction false} SplitWherePieces(s: string, isSep: char -> bool)
    ensures forall k :: 0 <= k < |SplitWhere(s, isSep)| ==> NoneSatisfy(SplitWhere(s, isSep)[k], isSep)
    decreases |s|
  {
    if |s| > 0 {
      SplitWherePieces(s[1..], isSep);
    }
  }

  /** `split` inverts `join` when no part contains the separator. */
  lemma {:induction false} SplitJoin(parts: seq<string>, sep: char)
    requires |parts| >= 1
    requires forall k :: 0 <= k < |parts| ==> sep !in parts[k]
    ensures Split(Join(parts, sep), sep) == parts
    decreases |parts|
  {
    var isSep := (c: char) => c == sep;
    assert NoneSatisfy(parts[0], isSep);
    SplitWhereNone(parts[0], isSep);
    if |parts| > 1 {
      SplitJoin(parts[1..], sep);
      SplitWhereAppend(parts[0], sep, Join(parts[1..], sep), isSep);
      assert [parts[0]] + parts[1..] == parts;
    }
  }

  /** `join` inverts `split`. */
  lemma {:induction false} JoinSplit(s: string, sep: char)
    ensures Join(Split(s, sep), sep) == s
    decreases |s|
  {
    var isSep := (c: char) => c == sep;
    if |s| > 0 {
      JoinSplit(s[1..], sep);
      var rest := SplitWhere(s[1..], isSep);
      assert Split(s[1..], sep) == rest;
      if s[0] == sep {
        assert Split(s, sep) == [""] + rest;
        assert ([""] + rest)[1..] == rest;
      } else {
        assert Split(s, sep) == [[s[0]] + rest[0]] + rest[1..];
        if |rest| == 1 {
          assert Join(rest, sep) == rest[0];
        } else {
          assert Join(rest, sep) == rest[0] + [sep] + Join(rest[1..], sep);
          assert ([[s[0]] + rest[0]] + rest[1..])[1..] == rest[1..];
        }
        assert [s[0]] + s[1..] == s;
      }
    }
  }

  /** A separator-free string splits into itself. */
  lemma SplitWord(word: string, sep: char)
    requires sep !in word
    ensures Split(word, sep) == [word]
  {
    var isSep := (c: char) => c == sep;
    assert NoneSatisfy(word, isSep);
    SplitWhereNone(word, isSep);
  }

  /** Splitting a separator-free word followed by a separator peels off that
      word. */
  lemma SplitCons(word: string, sep: char, rest: string)
    requires sep !in word
    ensures Split(word + [sep] + rest, sep) == [word] + Split(rest, sep)
  {
    var isSep := (c: char) => c == sep;
    SplitWord(word, sep);
    SplitWhereAppend(word, sep, rest, isSep);
  }

  /** Trimming a string that has no space at either end, followed by one
      trailing newline, gives back the string. */
  lemma TrimTrailingNewline(s: string)
    requires |s| > 0 && !IsSpace(s[0]) && !IsSpace(s[|s| - 1])
    ensures Trim(s + "\n") == s
  {
    var out := s + "\n";
    assert out[0] == s[0];
    assert LeadingSpace(out) == 0;
    var r := Trim(out);
    assert r == out[..|r|];
    assert r == out[..|s|] == s;
  }

  /** The first line of `s` and how the remaining lines continue after it. */
  lemma {:induction false} FirstLine(s: string)
    ensures |Lines(s)[0]| <= |s|
    ensures Lines(s)[0] == s[..|Lines(s)[0]|]
    ensures NoneSatisfy(Lines(s)[0], IsLineTerminator)
    ensures |Lines(s)[0]| == |s| ==> Lines(s) == [s]
    ensures |Lines(s)[0]| < |s| ==>
              IsLineTerminator(s[|Lines(s)[0]|]) && Lines(s)[1..] == Lines(s[|Lines(s)[0]| + 1..])
    decreases |s|
  {
    SplitWherePieces(s, IsLineTerminator);
    if |s| > 0 {
      FirstLine(s[1..]);
      var rest := Lines(s[1..]);
      if IsLineTerminator(s[0]) {
        assert Lines(s) == [""] + rest;
        assert Lines(s)[1..] == rest;
      } else {
        var r0 := rest[0];
        assert Lines(s) == [[s[0]] + r0] + rest[1..];
        assert s[..1 + |r0|] == [s[0]] + s[1..][..|r0|];
        assert [s[0]] + s[1..] == s;
        if 1 + |r0| < |s| {
          assert s[1..][|r0| + 1..] == s[|r0| + 2..];
        }
      }
    }
  }

  /** `s[..n]` is the first line of `s`: no terminator before `n`, and a
      terminator or the end of the text at `n`. */
  predicate FirstLineEndsAt(s: string, n: nat) {
    && n <= |s|
    && (forall i :: 0 <= i < n ==> !IsLineTerminator(s[i]))
    && (n == |s| || IsLineTerminator(s[n]))
  }

  lemma FirstLineFacts(s: string)
    ensures FirstLineEndsAt(s, |Lines(s)[0]|)
    ensures Lines(s)[0] == s[..|Lines(s)[0]|]
    ensures |Lines(s)[0]| == |s| ==> Lines(s) == [s]
    ensures |Lines(s)[0]| < |s| ==> Lines(s) == [Lines(s)[0]] + Lines(s[|Lines(s)[0]| + 1..])
  {
    FirstLine(s);
    var first := Lines(s)[0];
    forall i | 0 <= i < |first| ensures !IsLineTerminator(s[i]) {
      assert s[i] == first[i];
    }
    assert Lines(s) == [first] + Lines(s)[1..];
  }

  /** `^` under the `m` flag finds a position not followed by `lit`. */
  predicate LacksAtLineStart(s: string, lit: string) {
    exists p: nat | p <= |s| :: LineStart(s, p) && !StartsWith(s[p..], lit)
  }

  /** Some line does not start with `lit`. */
  predicate SomeLineLacks(lines: seq<string>, lit: string) {
    exists k :: 0 <= k < |lines| && !StartsWith(lines[k], lit)
  }

  /** Some line ends with `pat`. */
  predicate SomeLineEndsWith(lines: seq<string>, pat: string) {
    exists k :: 0 <= k < |lines| && EndsWith(lines[k], pat)
  }

  /** The text from a line start and that line agree on a terminator-free
      prefix. */
  lemma StartsWithFirstLine(s: string, n: nat, lit: string)
    requires FirstLineEndsAt(s, n)
    requires NoneSatisfy(lit, IsLineTerminator)
    ensures StartsWith(s, lit) <==> StartsWith(s[..n], lit)
  {
    if |lit| <= n {
      assert s[..|lit|] == s[..n][..|lit|];
    } else if |lit| <= |s| {
      assert s[..|lit|][n] == s[n];
    }
  }

  /** Line starts of `s` beyond its first line are those of the rest. */
  lemma LacksSplit(s: string, n: nat, lit: string)
    requires FirstLineEndsAt(s, n) && n < |s|
    requires NoneSatisfy(lit, IsLineTerminator)
    ensures LacksAtLineStart(s, lit) <==> !StartsWith(s[..n], lit) || LacksAtLineStart(s[n + 1..], lit)
  {
    StartsWithFirstLine(s, n, lit);
    assert s[0..] == s;
    if LacksAtLineStart(s, lit) {
      var p: nat :| p <= |s| && LineStart(s, p) && !StartsWith(s[p..], lit);
      if p > 0 {
        LacksLater(s, n, lit, p);
      }
    }
    if LacksAtLineStart(s[n + 1..], lit) {
      var q: nat :| q <= |s[n + 1..]| && LineStart(s[n + 1..], q) && !StartsWith(s[n + 1..][q..], lit);
      LacksEarlier(s, n, lit, q);
    }
  }

  /** A later line start of `s` is one of the text after its first line. */
  lemma LacksLater(s: string, n: nat, lit: string, p: nat)
    requires FirstLineEndsAt(s, n) && n < |s|
    requires 0 < p <= |s| && LineStart(s, p) && !StartsWith(s[p..], lit)
    ensures LacksAtLineStart(s[n + 1..], lit)
  {
    var rest := s[n + 1..];
    assert IsLineTerminator(s[p - 1]);
    assert p > n;
    var q := p - n - 1;
    assert rest[q..] == s[p..];
    assert q > 0 ==> rest[q - 1] == s[p - 1];
    assert LineStart(rest, q);
  }

  /** A line start of the text after the first line is one of `s`. */
  lemma LacksEarlier(s: string, n: nat, lit: string, q: nat)
    requires FirstLineEndsAt(s, n) && n < |s|
    requires q <= |s[n + 1..]| && LineStart(s[n + 1..], q) && !StartsWith(s[n + 1..][q..], lit)
    ensures LacksAtLineStart(s, lit)
  {
    var rest := s[n + 1..];
    assert s[n + 1 + q..] == rest[q..];
    assert q > 0 ==> rest[q - 1] == s[n + q];
    assert LineStart(s, n + 1 + q);
  }

  /** Under the `m` flag, a line start where `lit` does not follow exists
      exactly when some line does not start with `lit`. */
  lemma {:induction false} LineStartLacksIff(s: string, lit: string)
    requires NoneSatisfy(lit, IsLineTerminator)
    ensures LacksAtLineStart(s, lit) <==> SomeLineLacks(Lines(s), lit)
    decreases |s|
  {
    FirstLineFacts(s);
    var n := |Lines(s)[0]|;
    if n < |s| {
      var rest := s[n + 1..];
      LineStartLacksIff(rest, lit);
      LacksSplit(s, n, lit);
      assert SomeLineLacks(Lines(s), lit) <==> !StartsWith(s[..n], lit) || SomeLineLacks(Lines(rest), lit) by {
        var ls := Lines(s);
        assert ls == [s[..n]] + Lines(rest);
        if SomeLineLacks(ls, lit) {
          var k :| 0 <= k < |ls| && !StartsWith(ls[k], lit);
          if k > 0 {
            assert Lines(rest)[k - 1] == ls[k];
          }
        }
        if SomeLineLacks(Lines(rest), lit) {
          var k :| 0 <= k < |Lines(rest)| && !StartsWith(Lines(rest)[k], lit);
          assert ls[k + 1] == Lines(rest)[k];
        }
      }
    } else {
      assert s[..n] == s && s[0..] == s;
      if LacksAtLineStart(s, lit) {
        var p: nat :| p <= |s| && LineStart(s, p) && !StartsWith(s[p..], lit);
        assert p == 0;
      }
      assert Lines(s)[0] == s;
    }
  }

  /** `pat` occurs at position `p` and a `$` position follows it. */
  predicate EndsLineAt(s: string, pat: string, p: nat) {
    p + |pat| <= |s| && s[p..p + |pat|] == pat && LineEnd(s, p + |pat|)
  }

  /** `pat$` matches somewhere under the `m` flag. */
  predicate OccursAtLineEnd(s: string, pat: string) {
    exists p: nat | p <= |s| :: EndsLineAt(s, pat, p)
  }

  /** An occurrence of a terminator-free `pat` either closes the first line
      or lies wholly after it. */
  lemma OccurrenceWithinLine(s: string, n: nat, pat: string, p: nat)
    requires FirstLineEndsAt(s, n)
    requires NoneSatisfy(pat, IsLineTerminator)
    requires EndsLineAt(s, pat, p)
    ensures (p + |pat| == n && EndsWith(s[..n], pat)) || (n < |s| && p > n)
  {
    var e := p + |pat|;
    forall i | p <= i < e ensures !IsLineTerminator(s[i]) {
      assert s[i] == s[p..e][i - p];
    }
    if e <= n {
      assert e < |s| ==> IsLineTerminator(s[e]);
      assert e == n;
      assert s[..n][n - |pat|..] == s[p..e];
    } else {
      assert p > n;
    }
  }

  /** An occurrence after the first line is one in the rest of the text. */
  lemma OccurrenceShift(s: string, n: nat, pat: string, p: nat)
    requires n < p && EndsLineAt(s, pat, p)
    ensures EndsLineAt(s[n + 1..], pat, p - n - 1)
  {
    var rest := s[n + 1..];
    var q := p - n - 1;
    assert rest[q..q + |pat|] == s[p..p + |pat|];
    assert q + |pat| < |rest| ==> rest[q + |pat|] == s[p + |pat|];
  }

  /** An occurrence in the rest of the text is one in the whole text. */
  lemma OccurrenceUnshift(s: string, n: nat, pat: string, q: nat)
    requires n < |s| && EndsLineAt(s[n + 1..], pat, q)
    ensures EndsLineAt(s, pat, n + 1 + q)
  {
    var rest := s[n + 1..];
    var p := n + 1 + q;
    assert s[p..p + |pat|] == rest[q..q + |pat|];
    assert p + |pat| < |s| ==> s[p + |pat|] == rest[q + |pat|];
  }

  lemma OccurrenceSplit(s: string, n: nat, pat: string)
    requires FirstLineEndsAt(s, n) && n < |s|
    requires NoneSatisfy(pat, IsLineTerminator)
    ensures OccursAtLineEnd(s, pat) <==> EndsWith(s[..n], pat) || OccursAtLineEnd(s[n + 1..], pat)
  {
    var rest := s[n + 1..];
    if OccursAtLineEnd(s, pat) {
      var p: nat :| p <= |s| && EndsLineAt(s, pat, p);
      OccurrenceWithinLine(s, n, pat, p);
      if p > n {
        OccurrenceShift(s, n, pat, p);
      }
    }
    if EndsWith(s[..n], pat) {
      var p := n - |pat|;
      assert s[p..n] == s[..n][p..];
      assert EndsLineAt(s, pat, p);
    }
    if OccursAtLineEnd(rest, pat) {
      var q: nat :| q <= |rest| && EndsLineAt(rest, pat, q);
      OccurrenceUnshift(s, n, pat, q);
    }
  }

  /** Under the `m` flag, `pat$` matches exactly when some line ends with
      `pat`. */
  lemma {:induction false} LineEndOccurrenceIff(s: string, pat: string)
    requires NoneSatisfy(pat, IsLineTerminator)
    ensures OccursAtLineEnd(s, pat) <==> SomeLineEndsWith(Lines(s), pat)
    decreases |s|
  {
    FirstLineFacts(s);
    var n := |Lines(s)[0]|;
    if n < |s| {
      var rest := s[n + 1..];
      LineEndOccurrenceIff(rest, pat);
      OccurrenceSplit(s, n, pat);
      assert SomeLineEndsWith(Lines(s), pat) <==> EndsWith(s[..n], pat) || SomeLineEndsWith(Lines(rest), pat) by {
        var ls := Lines(s);
        assert ls == [s[..n]] + Lines(rest);
        if SomeLineEndsWith(ls, pat) {
          var k :| 0 <= k < |ls| && EndsWith(ls[k], pat);
          if k > 0 {
            assert Lines(rest)[k - 1] == ls[k];
          }
        }
        if SomeLineEndsWith(Lines(rest), pat) {
          var k :| 0 <= k < |Lines(rest)| && EndsWith(Lines(rest)[k], pat);
          assert ls[k + 1] == Lines(rest)[k];
        }
      }
    } else {
      assert s[..n] == s;
      if OccursAtLineEnd(s, pat) {
        var p: nat :| p <= |s| && EndsLineAt(s, pat, p);
        OccurrenceWithinLine(s, n, pat, p);
      }
      if EndsWith(s, pat) {
        assert s[|s| - |pat|..] == s[|s| - |pat|..|s|];
        assert EndsLineAt(s, pat, |s| - |pat|);
      }
      assert Lines(s)[0] == s;
    }
  }

  /** Blank-separated words split back into themselves. */
  lemma Words2(a: string, b: string)
    requires ' ' !in a && ' ' !in b
    ensures Split(a + " " + b, ' ') == [a, b]
  {
    SplitCons(a, ' ', b);
    SplitWord(b, ' ');
  }

  lemma Words3(a: string, b: string, c: string)
    requires ' ' !in a && ' ' !in b && ' ' !in c
    ensures Split(a + " " + b + " " + c, ' ') == [a, b, c]
  {
    assert a + " " + b + " " + c == a + [' '] + (b + " " + c);
    SplitCons(a, ' ', b + " " + c);
    Words2(b, c);
  }

  lemma Words4(a: string, b: string, c: string, d: string)
    requires ' ' !in a && ' ' !in b && ' ' !in c && ' ' !in d
    ensures Split(a + " " + b + " " + c + " " + d, ' ') == [a, b, c, d]
  {
    assert a + " " + b + " " + c + " " + d == a + [' '] + (b + " " + c + " " + d);
    SplitCons(a, ' ', b + " " + c + " " + d);
    Words3(b, c, d);
  }

  lemma Words5(a: string, b: string, c: string, d: string, e: string)
    requires ' ' !in a && ' ' !in b && ' ' !in c && ' ' !in d && ' ' !in e
    ensures Split(a + " " + b + " " + c + " " + d + " " + e, ' ') == [a, b, c, d, e]
  {
    assert a + " " + b + " " + c + " " + d + " " + e == a + [' '] + (b + " " + c + " " + d + " " + e);
    SplitCons(a, ' ', b + " " + c + " " + d + " " + e);
    Words4(b, c, d, e);
  }
}
