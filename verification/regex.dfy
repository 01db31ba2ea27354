/**
 * The fragment of JavaScript regular expressions the tutoring core uses,
 * with the meaning `RegExp.prototype.test` gives it: a pattern is a `Re`
 * value, `Matches(r, s, i, j)` says that `r` can match `s[i..j]`, and
 * `Test(r, s)` says that some substring matches.  Patterns with the `i`
 * flag are written in lower case and matched against `ToLower(s)`; every
 * character class used here is closed under ASCII case folding.
 *
 * Global-flag counting (`s.match(/a|b/g).length`) over alternations of
 * literals is `CountWords`: leftmost match first, alternatives tried in
 * order, the scan resuming after each match.
 */
module Regex {
  import opened Strings

  datatype CharClass =
    | Dot                   // `.`: anything but a line terminator
    | SpaceClass            // `\s`
    | DigitClass            // `\d`, `[0-9]`
    | WordClass             // `\w`
    | LetterClass           // `[a-zA-Z]`
    | OneOf(cs: string)     // `[...]`
    | NoneOf(cs: string)    // `[^...]`

  predicate InClass(c: CharClass, x: char) {
    match c
    case Dot => !IsLineTerminator(x)
    case SpaceClass => IsSpace(x)
    case DigitClass => IsDigit(x)
    case WordClass => IsWordChar(x)
    case LetterClass => IsAsciiLetter(x)
    case OneOf(cs) => x in cs
    case NoneOf(cs) => x !in cs
  }

  datatype Re =
    | Eps                   // the empty pattern
    | Str(w: string)        // a literal
    | Class(c: CharClass)   // one character of a class
    | Cat(a: Re, b: Re)     // `ab`
    | Alt(a: Re, b: Re)     // `a|b`
    | Star(r: Re)           // `r*`
    | Bol                   // `^` (no `m` flag: start of input)
    | Eol                   // `$` (no `m` flag: end of input)
    | WordBoundary          // `\b`

  function Plus(r: Re): Re { Cat(r, Star(r)) }

  function Opt(r: Re): Re { Alt(r, Eps) }

  /** `w1|w2|...|wn` over literals. */
  function Words(ws: seq<string>): Re
    decreases |ws|
  {
    if |ws| == 0 then Class(OneOf(""))  // matches nothing
    else if |ws| == 1 then Str(ws[0])
    else Alt(Str(ws[0]), Words(ws[1..]))
  }

  /** Concatenation of a sequence of patterns. */
  function Seq(rs: seq<Re>): Re
    decreases |rs|
  {
    if |rs| == 0 then Eps
    else if |rs| == 1 then rs[0]
    else Cat(rs[0], Seq(rs[1..]))
  }

  const Spaces: Re := Star(Class(SpaceClass))        // `\s*`
  const Spaces1: Re := Plus(Class(SpaceClass))       // `\s+`
  const Digits1: Re := Plus(Class(DigitClass))       // `\d+`
  const AnyText: Re := Star(Class(Dot))              // `.*`

  predicate IsWordAt(s: string, k: int) {
    0 <= k < |s| && IsWordChar(s[k])
  }

  /** `r` can match exactly `s[i..j]`. */
  predicate Matches(r: Re, s: string, i: nat, j: nat)
    decreases r, j - i
  {
    i <= j <= |s| &&
    match r
    case Eps => i == j
    case Str(w) => j == i + |w| && s[i..j] == w
    case Class(c) => j == i + 1 && InClass(c, s[i])
    case Cat(a, b) => exists k | i <= k <= j :: Matches(a, s, i, k) && Matches(b, s, k, j)
    case Alt(a, b) => Matches(a, s, i, j) || Matches(b, s, i, j)
    case Star(a) => i == j || exists k | i < k <= j :: Matches(a, s, i, k) && Matches(Star(a), s, k, j)
    case Bol => i == j == 0
    case Eol => i == j == |s|
    case WordBoundary => i == j && IsWordAt(s, i - 1) != IsWordAt(s, i)
  }

  /** `r.test(s)`. */
  predicate Test(r: Re, s: string) {
    exists i, j | 0 <= i <= j <= |s| :: Matches(r, s, i, j)
  }

  /** `r.test(s)` for a pattern carrying the `i` flag. */
  predicate TestI(r: Re, s: string) {
    Test(r, ToLower(s))
  }

  // ------------------------------------------------------------ introduction rules

  lemma StrMatches(s: string, w: string, i: nat)
    requires At(s, w, i)
    ensures Matches(Str(w), s, i, i + |w|)
  {
  }

  lemma CatMatches(a: Re, b: Re, s: string, i: nat, k: nat, j: nat)
    requires Matches(a, s, i, k) && Matches(b, s, k, j)
    ensures Matches(Cat(a, b), s, i, j)
  {
  }

  /** An alternation matches when either side does. */
  lemma TestAlt(a: Re, b: Re, s: string)
    ensures Test(Alt(a, b), s) <==> Test(a, s) || Test(b, s)
  {
    if Test(Alt(a, b), s) {
      var i, j :| 0 <= i <= j <= |s| && Matches(Alt(a, b), s, i, j);
      assert Matches(a, s, i, j) || Matches(b, s, i, j);
    }
    if Test(a, s) {
      var i, j :| 0 <= i <= j <= |s| && Matches(a, s, i, j);
      assert Matches(Alt(a, b), s, i, j);
    }
    if Test(b, s) {
      var i, j :| 0 <= i <= j <= |s| && Matches(b, s, i, j);
      assert Matches(Alt(a, b), s, i, j);
    }
  }

  lemma CatSplit(a: Re, b: Re, s: string, i: nat, j: nat)
    requires Matches(Cat(a, b), s, i, j)
    ensures exists k | i <= k <= j :: Matches(a, s, i, k) && Matches(b, s, k, j)
  {
  }

  /** A match of `.*` lies on a single line. */
  lemma AnyTextSingleLine(s: string, i: nat, j: nat)
    requires Matches(AnyText, s, i, j)
    ensures forall k :: i <= k < j ==> !IsLineTerminator(s[k])
    decreases j - i
  {
    if i < j {
      var k :| i < k <= j && Matches(Class(Dot), s, i, k) && Matches(AnyText, s, k, j);
      AnyTextSingleLine(s, k, j);
    }
  }

  /** A pattern that starts with a literal can only match where the literal occurs. */
  lemma CatStrAt(w: Re, b: Re, s: string, i: nat, j: nat)
    requires w.Str? && Matches(Cat(w, b), s, i, j)
    ensures At(s, w.w, i)
  {
  }

  /** A literal inside a concatenation is found in the matched text. */
  lemma TestCatStrContains(w: string, b: Re, s: string)
    requires Test(Cat(Str(w), b), s)
    ensures Contains(s, w)
  {
    var i, j :| 0 <= i <= j <= |s| && Matches(Cat(Str(w), b), s, i, j);
    CatStrAt(Str(w), b, s, i, j);
  }

  /** `Words(ws)` matches exactly where one of the literals occurs. */
  lemma WordsMatches(ws: seq<string>, s: string, i: nat, j: nat)
    requires |ws| > 0
    ensures Matches(Words(ws), s, i, j) <==>
      exists k | 0 <= k < |ws| :: j == i + |ws[k]| && At(s, ws[k], i)
    decreases |ws|
  {
    if |ws| > 1 {
      WordsMatches(ws[1..], s, i, j);
      if Matches(Words(ws[1..]), s, i, j) {
        var k :| 0 <= k < |ws[1..]| && j == i + |ws[1..][k]| && At(s, ws[1..][k], i);
        assert ws[k + 1] == ws[1..][k];
      }
      if exists k | 0 <= k < |ws| :: j == i + |ws[k]| && At(s, ws[k], i) {
        var k :| 0 <= k < |ws| && j == i + |ws[k]| && At(s, ws[k], i);
        if k > 0 {
          assert ws[1..][k - 1] == ws[k];
        }
      }
    }
  }

  /** Testing an alternation of literals is `ContainsAny`. */
  lemma TestWordsIffContainsAny(ws: seq<string>, s: string)
    requires |ws| > 0
    ensures Test(Words(ws), s) <==> ContainsAny(s, ws)
  {
    if Test(Words(ws), s) {
      var i, j :| 0 <= i <= j <= |s| && Matches(Words(ws), s, i, j);
      WordsMatches(ws, s, i, j);
      var k :| 0 <= k < |ws| && j == i + |ws[k]| && At(s, ws[k], i);
      assert Contains(s, ws[k]);
    }
    if ContainsAny(s, ws) {
      var k :| 0 <= k < |ws| && Contains(s, ws[k]);
      var i :| 0 <= i <= |s| - |ws[k]| && At(s, ws[k], i);
      WordsMatches(ws, s, i, i + |ws[k]|);
    }
  }

  // ------------------------------------------------------------ `a.*b`

  /** `a.*b` for literals `a` and `b`. */
  function Pair(a: string, b: string): Re {
    Cat(Str(a), Cat(AnyText, Str(b)))
  }

  /** `a.*b|b.*a`. */
  function EitherOrder(a: string, b: string): Re {
    Alt(Pair(a, b), Pair(b, a))
  }

  /** `a.*b.*c`. */
  function Triple(a: string, b: string, c: string): Re {
    Cat(Str(a), Cat(AnyText, Pair(b, c)))
  }

  predicate NoLineBreak(s: string, i: int, j: int)
    requires 0 <= i <= j <= |s|
  {
    forall k | i <= k < j :: !IsLineTerminator(s[k])
  }

  /** `a` occurs and `b` occurs later on the same line, without overlapping it. */
  predicate SameLineBefore(s: string, a: string, b: string) {
    exists i, j | 0 <= i && i + |a| <= j <= |s| - |b| :: At(s, a, i) && At(s, b, j) && NoLineBreak(s, i + |a|, j)
  }

  /** `a.*b` finds exactly a same-line occurrence of `a` before `b`. */
  lemma PairIff(a: string, b: string, s: string)
    ensures Test(Pair(a, b), s) <==> SameLineBefore(s, a, b)
  {
    if Test(Pair(a, b), s) {
      var i, j :| 0 <= i <= j <= |s| && Matches(Pair(a, b), s, i, j);
      PairMatchSameLine(a, b, s, i, j);
    }
    if SameLineBefore(s, a, b) {
      var i, j :| 0 <= i && i + |a| <= j <= |s| - |b| && At(s, a, i) && At(s, b, j) && NoLineBreak(s, i + |a|, j);
      SameLinePairMatches(a, b, s, i, j);
    }
  }

  /** A match of `a.*b` is an `a`, then a line-break-free run, then a `b`. */
  lemma PairMatchSameLine(a: string, b: string, s: string, i: nat, j: nat)
    requires i <= j <= |s| && Matches(Pair(a, b), s, i, j)
    ensures SameLineBefore(s, a, b)
  {
    assert Matches(Cat(Str(a), Cat(AnyText, Str(b))), s, i, j);
    var k :| i <= k <= j && Matches(Str(a), s, i, k) && Matches(Cat(AnyText, Str(b)), s, k, j);
    CatSplit(AnyText, Str(b), s, k, j);
    var m :| k <= m <= j && Matches(AnyText, s, k, m) && Matches(Str(b), s, m, j);
    AnyTextSingleLine(s, k, m);
    assert At(s, a, i) && At(s, b, m) && NoLineBreak(s, i + |a|, m);
  }

  /** An `a` followed on the same line by a `b` is a match of `a.*b`. */
  lemma SameLinePairMatches(a: string, b: string, s: string, i: nat, j: nat)
    requires i + |a| <= j <= |s| - |b| && At(s, a, i) && At(s, b, j) && NoLineBreak(s, i + |a|, j)
    ensures Test(Pair(a, b), s)
  {
    RunMatches(Dot, s, i + |a|, j);
    StrMatches(s, b, j);
    CatMatches(AnyText, Str(b), s, i + |a|, j, j + |b|);
    StrMatches(s, a, i);
    CatMatches(Str(a), Cat(AnyText, Str(b)), s, i, i + |a|, j + |b|);
  }

  /** A same-line pair mentions both words. */
  lemma SameLineBeforeContains(s: string, a: string, b: string)
    requires SameLineBefore(s, a, b)
    ensures Contains(s, a) && Contains(s, b)
  {
    var i, j :| 0 <= i && i + |a| <= j <= |s| - |b| && At(s, a, i) && At(s, b, j) && NoLineBreak(s, i + |a|, j);
  }

  /** `a.*b|b.*a` finds a same-line pair in either order. */
  lemma EitherOrderIff(a: string, b: string, s: string)
    ensures Test(EitherOrder(a, b), s) <==> SameLineBefore(s, a, b) || SameLineBefore(s, b, a)
  {
    PairIff(a, b, s);
    PairIff(b, a, s);
    TestAlt(Pair(a, b), Pair(b, a), s);
  }

  /** `a.*b.*c` mentions all three words. */
  lemma TripleContains(a: string, b: string, c: string, s: string)
    requires Test(Triple(a, b, c), s)
    ensures Contains(s, a) && Contains(s, b) && Contains(s, c)
  {
    var i, j :| 0 <= i <= j <= |s| && Matches(Triple(a, b, c), s, i, j);
    assert Matches(Cat(Str(a), Cat(AnyText, Pair(b, c))), s, i, j);
    var k :| i <= k <= j && Matches(Str(a), s, i, k) && Matches(Cat(AnyText, Pair(b, c)), s, k, j);
    CatSplit(AnyText, Pair(b, c), s, k, j);
    var m :| k <= m <= j && Matches(AnyText, s, k, m) && Matches(Pair(b, c), s, m, j);
    assert At(s, a, i);
    assert Test(Pair(b, c), s);
    PairIff(b, c, s);
    SameLineBeforeContains(s, b, c);
  }

  // ------------------------------------------------------------ global counting

  /** Index of the first literal of `ws` occurring at `i`, if any. */
  function FirstWordAt(ws: seq<string>, s: string, i: nat): (r: Option<nat>)
    ensures r.Some? ==> r.value < |ws| && At(s, ws[r.value], i)
    ensures r.None? ==> forall k :: 0 <= k < |ws| ==> !At(s, ws[k], i)
    decreases |ws|
  {
    if |ws| == 0 then None
    else if At(s, ws[0], i) then Some(0)
    else match FirstWordAt(ws[1..], s, i)
      case None => None
      case Some(k) => Some(k + 1)
  }

  predicate WordAt(ws: seq<string>, s: string, p: int) {
    exists k | 0 <= k < |ws| :: At(s, ws[k], p)
  }

  /**
   * Number of matches `s.match(/w1|...|wn/g)` finds from position `i` on,
   * for non-empty literals.
   */
  function CountWordsFrom(ws: seq<string>, s: string, i: nat): (n: nat)
    requires forall k :: 0 <= k < |ws| ==> |ws[k]| > 0
    ensures n > 0 ==> exists p | i <= p <= |s| :: WordAt(ws, s, p)
    decreases |s| - i
  {
    if i >= |s| then 0
    else match FirstWordAt(ws, s, i)
      case Some(k) =>
        assert WordAt(ws, s, i);
        1 + CountWordsFrom(ws, s, i + |ws[k]|)
      case None => CountWordsFrom(ws, s, i + 1)
  }

  function CountWords(ws: seq<string>, s: string): nat
    requires forall k :: 0 <= k < |ws| ==> |ws[k]| > 0
  {
    CountWordsFrom(ws, s, 0)
  }

  /** A positive count means one of the literals occurs. */
  lemma CountWordsPositive(ws: seq<string>, s: string)
    requires forall k :: 0 <= k < |ws| ==> |ws[k]| > 0
    requires CountWords(ws, s) > 0
    ensures ContainsAny(s, ws)
  {
    var p :| 0 <= p <= |s| && WordAt(ws, s, p);
    var k :| 0 <= k < |ws| && At(s, ws[k], p);
    assert Contains(s, ws[k]);
  }

  // ------------------------------------------------------------ deterministic scanning

  /**
   * End of the longest run of `c`-characters starting at `i`: where a greedy
   * `[c]*` starting at `i` stops.
   */
  function RunEnd(c: CharClass, s: string, i: nat): (k: nat)
    requires i <= |s|
    ensures i <= k <= |s|
    ensures forall m :: i <= m < k ==> InClass(c, s[m])
    ensures k == |s| || !InClass(c, s[k])
    decreases |s| - i
  {
    if i < |s| && InClass(c, s[i]) then RunEnd(c, s, i + 1) else i
  }

  /** The greedy run found by `RunEnd` is matched by `[c]*`. */
  lemma RunMatches(c: CharClass, s: string, i: nat, j: nat)
    requires i <= j <= |s|
    requires forall m :: i <= m < j ==> InClass(c, s[m])
    ensures Matches(Star(Class(c)), s, i, j)
    decreases j - i
  {
    if i < j {
      RunMatches(c, s, i + 1, j);
      assert Matches(Class(c), s, i, i + 1);
    }
  }

  /** The greedy run is determined by where the class first fails. */
  lemma RunEndIs(c: CharClass, s: string, i: nat, k: nat)
    requires i <= k <= |s|
    requires forall m :: i <= m < k ==> InClass(c, s[m])
    requires k == |s| || !InClass(c, s[k])
    ensures RunEnd(c, s, i) == k
  {
  }
}
