/**
 * Extraction of math from chat text: the bodies of LaTeX-delimited
 * expressions, simple equations written in plain text, and the two lists
 * combined without duplicates.
 */
module MathExtractor {
  import opened Strings
  import opened Regex

  // ------------------------------------------------------------ the delimiter pattern

  /** `\(` or `\[` at `p`. */
  predicate BackslashOpenerAt(s: string, p: nat) {
    p + 1 < |s| && s[p] == '\\' && (s[p + 1] == '(' || s[p + 1] == '[')
  }

  /** `\)` or `\]` at `e`. */
  predicate BackslashCloserAt(s: string, e: nat) {
    e + 1 < |s| && s[e] == '\\' && (s[e + 1] == ')' || s[e + 1] == ']')
  }

  /**
   * Length of the closer `\\(?:\)|\])|\$\$?` at `e`, or 0 when none starts
   * there; a `$` followed by another is the two-character closer.
   */
  function CloserLength(s: string, e: nat): (n: nat)
    requires e <= |s|
    ensures n <= 2 && e + n <= |s|
    ensures n > 0 <==> BackslashCloserAt(s, e) || (e < |s| && s[e] == '$')
  {
    if BackslashCloserAt(s, e) then 2
    else if e < |s| && s[e] == '$' then (if e + 1 < |s| && s[e + 1] == '$' then 2 else 1)
    else 0
  }

  /** Where the lazy body `([\s\S]*?)` starting at `o` ends: the first closer at or after `o`. */
  function BodyEnd(s: string, o: nat): (r: Option<nat>)
    requires o <= |s|
    ensures r.None? ==> forall e | o <= e <= |s| :: CloserLength(s, e) == 0
    ensures r.Some? ==>
      && o <= r.value < |s| && CloserLength(s, r.value) > 0
      && forall e | o <= e < r.value :: CloserLength(s, e) == 0
    decreases |s| - o
  {
    if CloserLength(s, o) > 0 then Some(o)
    else if o == |s| then None
    else BodyEnd(s, o + 1)
  }

  /** One match of the delimiter pattern: the opener is `s[start..bodyStart]`, the closer `s[bodyEnd..end]`. */
  datatype MathMatch = MathMatch(start: nat, bodyStart: nat, bodyEnd: nat, end: nat)

  predicate WellFormed(s: string, m: MathMatch) {
    m.start < m.bodyStart <= m.bodyEnd < m.end <= |s|
  }

  function Opener(s: string, m: MathMatch): string requires WellFormed(s, m) { s[m.start..m.bodyStart] }
  function Body(s: string, m: MathMatch): string requires WellFormed(s, m) { s[m.bodyStart..m.bodyEnd] }
  function Closer(s: string, m: MathMatch): string requires WellFormed(s, m) { s[m.bodyEnd..m.end] }

  /** The match opened at `p` whose body starts at `o`, if a closer follows. */
  function Closing(s: string, p: nat, o: nat): (r: Option<MathMatch>)
    requires p < o <= |s|
    ensures r.Some? ==>
      && WellFormed(s, r.value) && r.value.start == p && r.value.bodyStart == o
      && r.value.end == r.value.bodyEnd + CloserLength(s, r.value.bodyEnd)
      && BodyEnd(s, o) == Some(r.value.bodyEnd)
    ensures r.None? <==> BodyEnd(s, o).None?
  {
    match BodyEnd(s, o)
    case None => None
    case Some(e) => Some(MathMatch(p, o, e, e + CloserLength(s, e)))
  }

  /**
   * The match of `/(\\(?:\(|\[)|\$\$?)([\s\S]*?)(\\(?:\)|\])|\$\$?)/` that
   * starts at `p`, if any: `\(` or `\[` opens with two characters; `$$` is
   * tried before `$`, and falling back to `$` always succeeds when a second
   * `$` follows, because that one closes an empty body.
   */
  function MatchAt(s: string, p: nat): (r: Option<MathMatch>)
    requires p <= |s|
    ensures r.Some? ==> WellFormed(s, r.value) && r.value.start == p
  {
    if BackslashOpenerAt(s, p) then Closing(s, p, p + 2)
    else if p < |s| && s[p] == '$' then
      if p + 1 < |s| && s[p + 1] == '$' && Closing(s, p, p + 2).Some? then Closing(s, p, p + 2)
      else Closing(s, p, p + 1)
    else None
  }

  /** Openers are `\(`, `\[`, `$$` and `$`, closers any of `\)`, `\]`, `$$` and `$`, paired freely. */
  lemma Delimiters(s: string, p: nat)
    requires p <= |s| && MatchAt(s, p).Some?
    ensures Opener(s, MatchAt(s, p).value) in ["\\(", "\\[", "$$", "$"]
    ensures Closer(s, MatchAt(s, p).value) in ["\\)", "\\]", "$$", "$"]
  {
    var m := MatchAt(s, p).value;
    if BackslashOpenerAt(s, p) {
      assert Opener(s, m) == [s[p], s[p + 1]];
    } else if m.bodyStart == p + 2 {
      assert Opener(s, m) == [s[p], s[p + 1]];
    } else {
      assert Opener(s, m) == [s[p]];
    }
    var e := m.bodyEnd;
    if m.end == e + 2 {
      assert Closer(s, m) == [s[e], s[e + 1]];
    } else {
      assert Closer(s, m) == [s[e]];
    }
  }

  /** A `$` always starts a match: with a second `$` after it, falling back to the one-character opener closes at once. */
  lemma DollarAlwaysOpens(s: string, p: nat)
    requires p + 1 < |s| && s[p] == '$' && s[p + 1] == '$'
    ensures MatchAt(s, p).Some?
  {
    if !BackslashOpenerAt(s, p) && Closing(s, p, p + 2).None? {
      assert CloserLength(s, p + 1) > 0;
    }
  }

  /** The next match a global `exec` finds from `i`: the leftmost start at or after `i`. */
  function NextMatch(s: string, i: nat): (r: Option<MathMatch>)
    requires i <= |s|
    ensures r.None? <==> forall p | i <= p <= |s| :: MatchAt(s, p).None?
    ensures r.Some? ==>
      && i <= r.value.start < |s| && MatchAt(s, r.value.start) == r
      && forall p | i <= p < r.value.start :: MatchAt(s, p).None?
    decreases |s| - i
  {
    if MatchAt(s, i).Some? then MatchAt(s, i)
    else if i == |s| then None
    else NextMatch(s, i + 1)
  }

  /** A non-empty string with no white space at either edge. */
  predicate Trimmed(x: string) {
    x != "" && !IsSpace(x[0]) && !IsSpace(x[|x| - 1])
  }

  /** `x.trim()` when that is not empty: what a scan keeps of one match. */
  function Kept(x: string): (r: seq<string>)
    ensures r == [] <==> Trim(x) == ""
    ensures r != [] ==> r == [Trim(x)] && Trimmed(r[0])
  {
    if Trim(x) != "" then [Trim(x)] else []
  }

  /** The trimmed non-empty bodies of the matches from `i` on, in order. */
  function BodiesFrom(s: string, i: nat): seq<string>
    requires i <= |s|
    decreases |s| - i
  {
    match NextMatch(s, i)
    case None => []
    case Some(m) =>
      Kept(Body(s, m)) + BodiesFrom(s, m.end)
  }

  predicate AllTrimmed(xs: seq<string>) {
    forall k | 0 <= k < |xs| :: Trimmed(xs[k])
  }

  lemma AllTrimmedConcat(xs: seq<string>, ys: seq<string>)
    requires AllTrimmed(xs) && AllTrimmed(ys)
    ensures AllTrimmed(xs + ys)
  {
    forall k | 0 <= k < |xs + ys| ensures Trimmed((xs + ys)[k]) {
      if k >= |xs| {
        assert (xs + ys)[k] == ys[k - |xs|];
      }
    }
  }

  /** Every extracted expression is non-empty and has no white space at either edge. */
  lemma {:induction false} BodiesTrimmed(s: string, i: nat)
    requires i <= |s|
    ensures AllTrimmed(BodiesFrom(s, i))
    decreases |s| - i
  {
    var next := NextMatch(s, i);
    if next.Some? {
      var m := next.value;
      BodiesStep(s, i, m);
      BodiesTrimmed(s, m.end);
      AllTrimmedConcat(Kept(Body(s, m)), BodiesFrom(s, m.end));
    }
  }

  /** One step of the scan: the first match's body, if not blank, then the rest. */
  lemma BodiesStep(s: string, i: nat, m: MathMatch)
    requires i <= |s| && NextMatch(s, i) == Some(m)
    ensures WellFormed(s, m) && i < m.end
    ensures BodiesFrom(s, i) == Kept(Body(s, m)) + BodiesFrom(s, m.end)
  {
  }

  /** No more matches: nothing more is extracted. */
  lemma BodiesEnd(s: string, i: nat)
    requires i <= |s| && NextMatch(s, i).None?
    ensures BodiesFrom(s, i) == []
  {
  }

  /** `extractMathExpressions`: the trimmed bodies of the delimited expressions, skipping empty ones. */
  method ExtractMathExpressions(content: string) returns (expressions: seq<string>)
    ensures expressions == BodiesFrom(content, 0)
  {
    expressions := [];
    var lastIndex := 0;
    while true
      invariant lastIndex <= |content|
      invariant expressions + BodiesFrom(content, lastIndex) == BodiesFrom(content, 0)
      decreases |content| - lastIndex
    {
      var found := NextMatch(content, lastIndex);
      if found.None? {
        BodiesEnd(content, lastIndex);
        break;
      }
      var m := found.value;
      ScanAdvance(content, lastIndex, m, expressions);
      expressions := expressions + Kept(Body(content, m));
      lastIndex := m.end;
    }
  }

  /** The scan's invariant survives taking the next match. */
  lemma ScanAdvance(s: string, i: nat, m: MathMatch, done: seq<string>)
    requires i <= |s| && NextMatch(s, i) == Some(m)
    requires done + BodiesFrom(s, i) == BodiesFrom(s, 0)
    ensures WellFormed(s, m) && i < m.end <= |s|
    ensures (done + Kept(Body(s, m))) + BodiesFrom(s, m.end) == BodiesFrom(s, 0)
  {
    BodiesStep(s, i, m);
    ScanStep(done, Kept(Body(s, m)), BodiesFrom(s, m.end), BodiesFrom(s, 0));
  }

  /** Moving one scanned piece from what is left to what is done keeps the whole. */
  lemma ScanStep<T>(done: seq<T>, piece: seq<T>, rest: seq<T>, all: seq<T>)
    requires done + (piece + rest) == all
    ensures (done + piece) + rest == all
  {
  }

  /** A body never runs past a closer: it holds no `$`, and no `\)` or `\]`. */
  lemma BodyIsShortest(s: string, m: MathMatch)
    requires WellFormed(s, m) && MatchAt(s, m.start) == Some(m)
    ensures '$' !in Body(s, m)
    ensures forall k | 0 <= k < |Body(s, m)| :: !BackslashCloserAt(Body(s, m), k)
  {
    var b := Body(s, m);
    assert BodyEnd(s, m.bodyStart) == Some(m.bodyEnd);
    forall k | 0 <= k < |b| ensures b[k] != '$' && !BackslashCloserAt(b, k) {
      assert b[k] == s[m.bodyStart + k];
      assert CloserLength(s, m.bodyStart + k) == 0;
      if k + 1 < |b| {
        assert b[k + 1] == s[m.bodyStart + k + 1];
      }
    }
  }

  // ------------------------------------------------------------ plain-text equations

  /**
   * One element of a pattern whose consecutive elements match disjoint
   * characters, so that greedy matching never needs to backtrack:
   * exactly one character, a run of one or more, or a run of zero or more.
   */
  datatype Token = One(c: CharClass) | Many(c: CharClass) | Any(c: CharClass)

  /** The end of the greedy match of `toks` at `p`, if it matches there. */
  function MatchTokens(s: string, p: nat, toks: seq<Token>): (r: Option<nat>)
    requires p <= |s|
    ensures r.Some? ==> p <= r.value <= |s|
    ensures r.Some? && |toks| > 0 && !toks[0].Any? ==> p < r.value
    decreases |toks|
  {
    if toks == [] then Some(p)
    else match toks[0]
      case One(c) => if p < |s| && InClass(c, s[p]) then MatchTokens(s, p + 1, toks[1..]) else None
      case Many(c) => if p < |s| && InClass(c, s[p]) then MatchTokens(s, RunEnd(c, s, p), toks[1..]) else None
      case Any(c) => MatchTokens(s, RunEnd(c, s, p), toks[1..])
  }

  /** The same tokens as a regular expression. */
  function TokensRe(toks: seq<Token>): Re
    decreases |toks|
  {
    if toks == [] then Eps
    else
      var head := match toks[0]
        case One(c) => Class(c)
        case Many(c) => Plus(Class(c))
        case Any(c) => Star(Class(c));
      Cat(head, TokensRe(toks[1..]))
  }

  /** What the greedy matcher finds is a match of the regular expression. */
  lemma {:induction false} MatchTokensSound(s: string, p: nat, toks: seq<Token>)
    requires p <= |s| && MatchTokens(s, p, toks).Some?
    ensures Matches(TokensRe(toks), s, p, MatchTokens(s, p, toks).value)
    decreases |toks|
  {
    var e := MatchTokens(s, p, toks).value;
    if toks != [] {
      match toks[0]
      case One(c) =>
        MatchTokensSound(s, p + 1, toks[1..]);
        assert Matches(Class(c), s, p, p + 1);
        CatMatches(Class(c), TokensRe(toks[1..]), s, p, p + 1, e);
      case Many(c) =>
        MatchTokensSound(s, RunEnd(c, s, p), toks[1..]);
        RunThen(c, TokensRe(toks[1..]), s, p, e, true);
      case Any(c) =>
        MatchTokensSound(s, RunEnd(c, s, p), toks[1..]);
        RunThen(c, TokensRe(toks[1..]), s, p, e, false);
    }
  }

  /** The greedy run of a class from `p` (at least one character when `nonEmpty`) followed by a match of `rest`. */
  lemma RunThen(c: CharClass, rest: Re, s: string, p: nat, e: nat, nonEmpty: bool)
    requires p <= |s| && Matches(rest, s, RunEnd(c, s, p), e)
    requires nonEmpty ==> p < |s| && InClass(c, s[p])
    ensures nonEmpty ==> Matches(Cat(Plus(Class(c)), rest), s, p, e)
    ensures Matches(Cat(Star(Class(c)), rest), s, p, e)
  {
    var k := RunEnd(c, s, p);
    RunMatches(c, s, p, k);
    CatMatches(Star(Class(c)), rest, s, p, k, e);
    if nonEmpty {
      RunMatches(c, s, p + 1, k);
      assert Matches(Class(c), s, p, p + 1);
      CatMatches(Class(c), Star(Class(c)), s, p, p + 1, k);
      CatMatches(Plus(Class(c)), rest, s, p, k, e);
    }
  }

  /** A pattern whose matches are never empty, so a global scan always advances. */
  predicate Advances(toks: seq<Token>) {
    |toks| > 0 && !toks[0].Any?
  }

  /** The texts a global `exec` loop finds from `i` on, each scan resuming at the end of the last match. */
  function TokenMatchesFrom(s: string, i: nat, toks: seq<Token>): (r: seq<string>)
    requires i <= |s| && Advances(toks)
    ensures forall k | 0 <= k < |r| :: |r[k]| > 0
    decreases |s| - i
  {
    if i == |s| then []
    else match MatchTokens(s, i, toks)
      case Some(e) => [s[i..e]] + TokenMatchesFrom(s, e, toks)
      case None => TokenMatchesFrom(s, i + 1, toks)
  }

  const Operator: CharClass := OneOf("+-*/")
  const EqualsSign: CharClass := OneOf("=")

  /** The four equation patterns, in the order they are scanned. */
  const EquationPatterns: seq<seq<Token>> := [
    // x = 5, y = 2x + 3
    [One(LetterClass), Any(SpaceClass), One(EqualsSign), Any(SpaceClass), Many(OneOf("0123456789+-*/()."))],
    // 2 + 3 = 5
    [Many(DigitClass), Any(SpaceClass), One(Operator), Any(SpaceClass), Many(DigitClass),
     Any(SpaceClass), One(EqualsSign), Any(SpaceClass), Many(DigitClass)],
    // x + 5 = 13
    [Many(LetterClass), Any(SpaceClass), One(Operator), Any(SpaceClass), Many(DigitClass),
     Any(SpaceClass), One(EqualsSign), Any(SpaceClass), Many(DigitClass)],
    // 2x + 5 = 13
    [Many(DigitClass), Any(SpaceClass), One(Operator), Any(SpaceClass), Many(LetterClass),
     Any(SpaceClass), One(EqualsSign), Any(SpaceClass), Many(DigitClass)]
  ]

  // ------------------------------------------------------------ de-duplication

  /** `acc` followed by the elements of `xs` not seen before, in first-occurrence order. */
  function Distinct(acc: seq<string>, xs: seq<string>): (r: seq<string>)
    ensures |acc| <= |r| && r[..|acc|] == acc
    decreases |xs|
  {
    if xs == [] then acc
    else Distinct(if xs[0] in acc then acc else acc + [xs[0]], xs[1..])
  }

  predicate NoDuplicates(xs: seq<string>) {
    forall j, k | 0 <= j < k < |xs| :: xs[j] != xs[k]
  }

  /** De-duplication keeps every element once: no duplicates, and exactly the elements of its inputs. */
  lemma {:induction false} DistinctProperties(acc: seq<string>, xs: seq<string>)
    requires NoDuplicates(acc)
    ensures NoDuplicates(Distinct(acc, xs))
    ensures forall x :: x in Distinct(acc, xs) <==> x in acc || x in xs
    decreases |xs|
  {
    if xs != [] {
      var next := if xs[0] in acc then acc else acc + [xs[0]];
      DistinctProperties(next, xs[1..]);
      assert forall x :: x in xs <==> x == xs[0] || x in xs[1..];
    }
  }

  /** De-duplicating a concatenation is de-duplicating its halves in turn. */
  lemma {:induction false} DistinctConcat(acc: seq<string>, xs: seq<string>, ys: seq<string>)
    ensures Distinct(acc, xs + ys) == Distinct(Distinct(acc, xs), ys)
    decreases |xs|
  {
    if xs == [] {
      assert xs + ys == ys;
    } else {
      assert (xs + ys)[1..] == xs[1..] + ys;
      DistinctConcat(if xs[0] in acc then acc else acc + [xs[0]], xs[1..], ys);
    }
  }

  /** The non-empty strings of `xs`, in order. */
  function NonEmpty(xs: seq<string>): (r: seq<string>)
    ensures forall k | 0 <= k < |r| :: r[k] != "" && r[k] in xs
    ensures forall x | x in xs && x != "" :: x in r
  {
    if xs == [] then []
    else (if xs[0] != "" then [xs[0]] else []) + NonEmpty(xs[1..])
  }

  lemma {:induction false} NonEmptyConcat(xs: seq<string>, ys: seq<string>)
    ensures NonEmpty(xs + ys) == NonEmpty(xs) + NonEmpty(ys)
  {
    if xs == [] {
      assert xs + ys == ys;
    } else {
      assert (xs + ys)[0] == xs[0] && (xs + ys)[1..] == xs[1..] + ys;
      NonEmptyConcat(xs[1..], ys);
    }
  }

  function TrimAll(xs: seq<string>): (r: seq<string>)
    ensures |r| == |xs| && forall k | 0 <= k < |xs| :: r[k] == Trim(xs[k])
  {
    if xs == [] then [] else [Trim(xs[0])] + TrimAll(xs[1..])
  }

  /** The trimmed matches of the patterns, pattern by pattern. */
  function CleanedMatches(s: string, patterns: seq<seq<Token>>): (r: seq<string>)
    requires forall k | 0 <= k < |patterns| :: Advances(patterns[k])
  {
    if patterns == [] then []
    else CleanedMatches(s, patterns[..|patterns| - 1]) + TrimAll(TokenMatchesFrom(s, 0, patterns[|patterns| - 1]))
  }

  /** The equations found with `patterns`: the non-empty trimmed matches, without duplicates, by pattern then position. */
  function Equations(s: string, patterns: seq<seq<Token>>): (r: seq<string>)
    requires forall k | 0 <= k < |patterns| :: Advances(patterns[k])
  {
    Distinct([], NonEmpty(CleanedMatches(s, patterns)))
  }

  /** One step of the scan: skip a blank or already-present equation, else append it. */
  lemma AddOne(acc: seq<string>, x: string, rest: seq<string>)
    ensures Distinct(acc, NonEmpty([x] + rest)) == Distinct(if x != "" && x !in acc then acc + [x] else acc, NonEmpty(rest))
  {
    NonEmptyConcat([x], rest);
    DistinctConcat(acc, NonEmpty([x]), NonEmpty(rest));
    assert NonEmpty([x]) == (if x != "" then [x] else []) + NonEmpty([]);
  }

  /** A match at `i` contributes its trimmed text, and the scan resumes at its end. */
  lemma MatchStep(s: string, i: nat, toks: seq<Token>, e: nat)
    requires i < |s| && Advances(toks) && MatchTokens(s, i, toks) == Some(e)
    ensures i < e <= |s|
    ensures TrimAll(TokenMatchesFrom(s, i, toks)) == [Trim(s[i..e])] + TrimAll(TokenMatchesFrom(s, e, toks))
  {
    var matches := TokenMatchesFrom(s, i, toks);
    assert matches == [s[i..e]] + TokenMatchesFrom(s, e, toks);
    assert matches[0] == s[i..e] && matches[1..] == TokenMatchesFrom(s, e, toks);
  }

  /** Without a match at `i`, the scan moves on by one character. */
  lemma NoMatchStep(s: string, i: nat, toks: seq<Token>)
    requires i < |s| && Advances(toks) && MatchTokens(s, i, toks).None?
    ensures TokenMatchesFrom(s, i, toks) == TokenMatchesFrom(s, i + 1, toks)
  {
  }

  /** Adding one pattern's matches extends the equations found with the earlier patterns. */
  lemma NextPattern(s: string, patterns: seq<seq<Token>>, k: nat)
    requires k < |patterns| && forall j | 0 <= j < |patterns| :: Advances(patterns[j])
    ensures Equations(s, patterns[..k + 1]) == Distinct(Equations(s, patterns[..k]), NonEmpty(TrimAll(TokenMatchesFrom(s, 0, patterns[k]))))
  {
    assert patterns[..k + 1][..k] == patterns[..k];
    var earlier := CleanedMatches(s, patterns[..k]);
    var latest := TrimAll(TokenMatchesFrom(s, 0, patterns[k]));
    assert CleanedMatches(s, patterns[..k + 1]) == earlier + latest;
    NonEmptyConcat(earlier, latest);
    DistinctConcat([], NonEmpty(earlier), NonEmpty(latest));
  }

  /** `extractEquations`: each pattern's matches in turn, trimmed, skipping empty and repeated ones. */
  method ExtractEquations(content: string, patterns: seq<seq<Token>>) returns (equations: seq<string>)
    requires forall k | 0 <= k < |patterns| :: Advances(patterns[k])
    ensures equations == Equations(content, patterns)
  {
    equations := [];
    for k := 0 to |patterns|
      invariant equations == Equations(content, patterns[..k])
    {
      var pattern := patterns[k];
      ghost var target := Distinct(equations, NonEmpty(TrimAll(TokenMatchesFrom(content, 0, pattern))));
      NextPattern(content, patterns, k);
      var lastIndex := 0;
      while lastIndex < |content|
        invariant lastIndex <= |content|
        invariant target == Distinct(equations, NonEmpty(TrimAll(TokenMatchesFrom(content, lastIndex, pattern))))
        decreases |content| - lastIndex
      {
        var found := MatchTokens(content, lastIndex, pattern);
        if found.None? {
          NoMatchStep(content, lastIndex, pattern);
          lastIndex := lastIndex + 1;
        } else {
          var e := found.value;
          MatchStep(content, lastIndex, pattern, e);
          var equation := Trim(content[lastIndex..e]);
          AddOne(equations, equation, TrimAll(TokenMatchesFrom(content, e, pattern)));
          if equation != "" && equation !in equations {
            equations := equations + [equation];
          }
          lastIndex := e;
        }
      }
    }
    assert patterns[..|patterns|] == patterns;
  }

  /** The equations hold no duplicates and no empty strings, and every non-empty trimmed match is among them. */
  lemma EquationsDistinct(s: string, patterns: seq<seq<Token>>)
    requires forall k | 0 <= k < |patterns| :: Advances(patterns[k])
    ensures NoDuplicates(Equations(s, patterns))
    ensures forall x :: x in Equations(s, patterns) <==> x in CleanedMatches(s, patterns) && x != ""
  {
    DistinctProperties([], NonEmpty(CleanedMatches(s, patterns)));
  }

  // ------------------------------------------------------------ everything

  /** `extractAllMath`: the LaTeX bodies, then the equations, each kept at its first occurrence. */
  method ExtractAllMath(content: string) returns (all: seq<string>)
    ensures all == Distinct([], BodiesFrom(content, 0) + Equations(content, EquationPatterns))
    ensures NoDuplicates(all)
    ensures forall x :: x in all <==> x in BodiesFrom(content, 0) || x in Equations(content, EquationPatterns)
    ensures |Distinct([], BodiesFrom(content, 0))| <= |all|
      && all[..|Distinct([], BodiesFrom(content, 0))|] == Distinct([], BodiesFrom(content, 0))
  {
    var latexExpressions := ExtractMathExpressions(content);
    var equations := ExtractEquations(content, EquationPatterns);
    all := Distinct([], latexExpressions + equations);
    DistinctProperties([], latexExpressions + equations);
    DistinctConcat([], latexExpressions, equations);
    ghost var latexOnly := Distinct([], latexExpressions);
    assert all == Distinct(latexOnly, equations);
  }
}
