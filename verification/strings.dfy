/**
 * JavaScript string primitives used throughout the tutoring core, stated over
 * `seq<char>`: character classes, ASCII case folding, substring search,
 * `trim`, `split`/`join` and decimal rendering of naturals.
 */
module Strings {

  /** Line terminators: the characters a regex `.` does not match. */
  predicate IsLineTerminator(c: char) {
    c == '\n' || c == '\r' || c == '\U{2028}' || c == '\U{2029}'
  }

  /** White space as JavaScript's `trim` and the regex class `\s` understand it. */
  predicate IsSpace(c: char) {
    || c == ' ' || c == '\t' || c == '\U{000B}' || c == '\U{000C}'
    || c == '\U{00A0}' || c == '\U{1680}' || ('\U{2000}' <= c <= '\U{200A}')
    || c == '\U{202F}' || c == '\U{205F}' || c == '\U{3000}' || c == '\U{FEFF}'
    || IsLineTerminator(c)
  }

  predicate IsDigit(c: char) { '0' <= c <= '9' }

  predicate IsAsciiLetter(c: char) { ('a' <= c <= 'z') || ('A' <= c <= 'Z') }

  /** The regex class `\w`. */
  predicate IsWordChar(c: char) { IsAsciiLetter(c) || IsDigit(c) || c == '_' }

  /** ASCII case folding (upper-case Latin letters to lower case). */
  function Lower(c: char): (r: char)
    ensures !('A' <= r <= 'Z')
    ensures IsSpace(c) <==> IsSpace(r)
    ensures IsLineTerminator(c) <==> IsLineTerminator(r)
    ensures IsDigit(c) <==> IsDigit(r)
    ensures IsWordChar(c) <==> IsWordChar(r)
    ensures !IsAsciiLetter(c) ==> r == c
  {
    if 'A' <= c <= 'Z' then (c as int + 32) as char else c
  }

  function ToLower(s: string): (r: string)
    ensures |r| == |s|
    ensures forall i :: 0 <= i < |s| ==> r[i] == Lower(s[i])
  {
    seq(|s|, i requires 0 <= i < |s| => Lower(s[i]))
  }

  lemma ToLowerConcat(a: string, b: string)
    ensures ToLower(a + b) == ToLower(a) + ToLower(b)
  {
  }

  /** Lowercasing twice is lowercasing once, so an `i`-flag test of lowered text is a plain test. */
  lemma ToLowerIdempotent(s: string)
    ensures ToLower(ToLower(s)) == ToLower(s)
  {
  }

  lemma ToLowerSlice(s: string, i: int, j: int)
    requires 0 <= i <= j <= |s|
    ensures ToLower(s[i..j]) == ToLower(s)[i..j]
  {
  }

  /** `p` occurs in `s` at index `i`. */
  predicate At(s: string, p: string, i: int) {
    0 <= i && i + |p| <= |s| && s[i..i + |p|] == p
  }

  predicate StartsWith(s: string, p: string) { At(s, p, 0) }

  predicate EndsWith(s: string, p: string) { |p| <= |s| && At(s, p, |s| - |p|) }

  lemma StartsWithConcat(a: string, b: string, p: string)
    requires StartsWith(a, p)
    ensures StartsWith(a + b, p)
  {
    assert (a + b)[..|p|] == a[..|p|];
  }

  lemma StartsWithPrepend(h: string, b: string, p: string)
    requires StartsWith(b, p)
    ensures StartsWith(h + b, h + p)
  {
    assert (h + b)[..|h + p|] == h + b[..|p|];
  }

  lemma EndsWithConcat(a: string, b: string)
    ensures EndsWith(a + b, b)
  {
    assert (a + b)[|a|..] == b;
  }

  /** Four texts joined start with the first two and end with the last. */
  lemma FourPartLayout(a: string, b: string, c: string, d: string)
    ensures StartsWith(a + b + c + d, a + b) && EndsWith(a + b + c + d, d)
  {
    assert (a + b + c + d)[..|a + b|] == a + b;
    EndsWithConcat(a + b + c, d);
  }

  /** A lower-case word inside the first of two texts is found in the lowercased whole. */
  lemma LowerWordFoundAt(a: string, b: string, w: string, i: nat)
    requires i + |w| <= |a| && a[i..i + |w|] == w && ToLower(w) == w
    ensures Contains(ToLower(a + b), w)
  {
    var t := a + b;
    assert t[i..i + |w|] == w;
    ToLowerSlice(t, i, i + |w|);
    assert At(ToLower(t), w, i);
  }

  /** Every piece of a word that occurs also occurs. */
  lemma ContainsPiece(s: string, p: string, i: int, j: int)
    requires 0 <= i <= j <= |p| && Contains(s, p)
    ensures Contains(s, p[i..j])
  {
    var k :| 0 <= k <= |s| - |p| && At(s, p, k);
    forall t | i <= t < j
      ensures s[k + t] == p[t]
    {
      assert s[k..k + |p|][t] == p[t];
    }
    assert s[k + i..k + j] == p[i..j];
    assert At(s, p[i..j], k + i);
  }

  /** `s.includes(p)`. */
  predicate Contains(s: string, p: string) {
    exists i | 0 <= i <= |s| - |p| :: At(s, p, i)
  }

  /** `words.some(w => s.includes(w))`, also a regex alternation of literals checked with `test`. */
  predicate ContainsAny(s: string, words: seq<string>) {
    exists k | 0 <= k < |words| :: Contains(s, words[k])
  }

  /** A word cannot occur where one of its characters is missing. */
  lemma CharAbsent(s: string, p: string, k: int)
    requires 0 <= k < |p| && p[k] !in s
    ensures !Contains(s, p)
  {
    forall i | 0 <= i <= |s| - |p|
      ensures !At(s, p, i)
    {
      assert s[i..i + |p|][k] == s[i + k];
      assert s[i + k] in s;
    }
  }

  /** A word cannot occur where two of its adjacent characters never meet. */
  lemma PairAbsent(s: string, p: string, k: int)
    requires 0 <= k && k + 1 < |p|
    requires forall i :: 0 <= i < |s| - 1 ==> !(s[i] == p[k] && s[i + 1] == p[k + 1])
    ensures !Contains(s, p)
  {
    forall i | 0 <= i <= |s| - |p|
      ensures !At(s, p, i)
    {
      assert s[i..i + |p|][k] == s[i + k] && s[i..i + |p|][k + 1] == s[i + k + 1];
    }
  }

  lemma AtInPrefix(a: string, b: string, p: string, i: int)
    requires At(a, p, i)
    ensures At(a + b, p, i)
  {
    assert (a + b)[i..i + |p|] == a[i..i + |p|];
  }

  lemma AtInSuffix(a: string, b: string, p: string, i: int)
    requires At(b, p, i)
    ensures At(a + b, p, |a| + i)
  {
    assert (a + b)[|a| + i..|a| + i + |p|] == b[i..i + |p|];
  }

  /** An occurrence of `p` covers only characters that occur in `p`. */
  lemma AtAvoids(s: string, p: string, i: int, c: char)
    requires At(s, p, i) && c !in p
    ensures forall j :: i <= j < i + |p| ==> s[j] != c
  {
    forall j | i <= j < i + |p| ensures s[j] != c {
      assert s[j] == s[i..i + |p|][j - i];
    }
  }

  lemma ContainsInConcat(a: string, b: string, p: string)
    ensures Contains(a, p) ==> Contains(a + b, p)
    ensures Contains(b, p) ==> Contains(a + b, p)
  {
    if Contains(a, p) {
      var i :| 0 <= i <= |a| - |p| && At(a, p, i);
      AtInPrefix(a, b, p, i);
    }
    if Contains(b, p) {
      var i :| 0 <= i <= |b| - |p| && At(b, p, i);
      AtInSuffix(a, b, p, i);
    }
  }

  /**
   * A word without the separator occurs in `a + sep + b` exactly when it
   * occurs in `a` or in `b`: no occurrence can straddle the separator.
   */
  lemma ContainsAcrossSeparator(a: string, sep: char, b: string, p: string)
    requires sep !in p
    ensures Contains(a + [sep] + b, p) <==> Contains(a, p) || Contains(b, p)
  {
    var s := a + [sep] + b;
    if Contains(s, p) {
      var i :| 0 <= i <= |s| - |p| && At(s, p, i);
      AtAvoids(s, p, i, sep);
      assert s[|a|] == sep;
      if i + |p| <= |a| {
        assert s[i..i + |p|] == a[i..i + |p|];
        assert At(a, p, i);
      } else if i > |a| {
        assert s[i..i + |p|] == b[i - |a| - 1..i - |a| - 1 + |p|];
        assert At(b, p, i - |a| - 1);
      } else {
        assert false;
      }
    }
    ContainsInConcat(a + [sep], b, p);
    ContainsInConcat(a, [sep], p);
  }

  // ---------------------------------------------------------------- trim

  /** `s` with its leading white space removed. */
  function TrimStart(s: string): (r: string)
    ensures |r| <= |s| && r == s[|s| - |r|..]
    ensures r == [] || !IsSpace(r[0])
    ensures forall k :: 0 <= k < |s| - |r| ==> IsSpace(s[k])
    decreases |s|
  {
    if s != [] && IsSpace(s[0]) then TrimStart(s[1..]) else s
  }

  /** `s` with its trailing white space removed. */
  function TrimEnd(s: string): (r: string)
    ensures |r| <= |s| && r == s[..|r|]
    ensures r == [] || !IsSpace(r[|r| - 1])
    ensures forall k :: |r| <= k < |s| ==> IsSpace(s[k])
    decreases |s|
  {
    if s != [] && IsSpace(s[|s| - 1]) then TrimEnd(s[..|s| - 1]) else s
  }

  /** JavaScript's `String.prototype.trim`. */
  function Trim(s: string): (r: string)
    ensures |r| <= |s|
    ensures r == [] || (!IsSpace(r[0]) && !IsSpace(r[|r| - 1]))
  {
    TrimEnd(TrimStart(s))
  }

  /** A string with no white space at either edge is its own trim. */
  lemma TrimOfTrimmed(s: string)
    requires s == [] || (!IsSpace(s[0]) && !IsSpace(s[|s| - 1]))
    ensures Trim(s) == s
  {
  }

  lemma TrimIdempotent(s: string)
    ensures Trim(Trim(s)) == Trim(s)
  {
    TrimOfTrimmed(Trim(s));
  }

  /** Trimming leaves nothing exactly when the string is all white space. */
  lemma TrimEmptyIff(s: string)
    ensures Trim(s) == [] <==> forall k :: 0 <= k < |s| ==> IsSpace(s[k])
  {
    var t := TrimStart(s);
    if Trim(s) != [] {
      var r := Trim(s);
      var k := |s| - |t|;
      assert s[k] == r[0];
    }
  }

  // ---------------------------------------------------------------- search

  /** Index of the first occurrence of `c` at or after `from`, if any. */
  function IndexOfChar(s: string, c: char, from: nat): (r: Option<nat>)
    ensures r.None? ==> forall k :: from <= k < |s| ==> s[k] != c
    ensures r.Some? ==> from <= r.value < |s| && s[r.value] == c
    ensures r.Some? ==> forall k :: from <= k < r.value ==> s[k] != c
    decreases |s| - from
  {
    if from >= |s| then None
    else if s[from] == c then Some(from)
    else IndexOfChar(s, c, from + 1)
  }

  /** Index of the last occurrence of `c`, if any. */
  function LastIndexOfChar(s: string, c: char): (r: Option<nat>)
    ensures r.None? ==> c !in s
    ensures r.Some? ==> r.value < |s| && s[r.value] == c && c !in s[r.value + 1..]
    decreases |s|
  {
    if s == [] then None
    else if s[|s| - 1] == c then Some(|s| - 1)
    else
      var r := LastIndexOfChar(s[..|s| - 1], c);
      assert s == s[..|s| - 1] + [s[|s| - 1]];
      r
  }

  /** `s.substring(0, n)`: the first `n` characters, or all of a shorter string. */
  function Prefix(s: string, n: nat): (r: string)
    ensures |r| == if |s| <= n then |s| else n
    ensures r == s[..|r|]
  {
    if |s| <= n then s else s[..n]
  }

  /** A prefix test of at most `n` characters sees the same on `s.substring(0, n)` as on `s`. */
  lemma PrefixStartsWith(s: string, n: nat, p: string)
    requires |p| <= n
    ensures StartsWith(Prefix(s, n), p) <==> StartsWith(s, p)
  {
    if |s| > n && |p| <= |s| {
      assert Prefix(s, n)[..|p|] == s[..|p|];
    }
  }

  /** `content || fallback` on strings: the empty string is falsy. */
  function OrElse(content: string, fallback: string): (r: string)
    ensures r == "" ==> content == "" && fallback == ""
    ensures content != "" ==> r == content
  {
    if content != "" then content else fallback
  }

  // ---------------------------------------------------------------- split and join

  /** `parts.join(sep)`. */
  function Join(parts: seq<string>, sep: string): string
    decreases |parts|
  {
    if |parts| == 0 then ""
    else if |parts| == 1 then parts[0]
    else parts[0] + sep + Join(parts[1..], sep)
  }

  /** A prefix of the joined tail, preceded by the first part and the separator, is a prefix of the join. */
  lemma JoinPrefix(parts: seq<string>, sep: string, p: string)
    requires |parts| >= 2 && StartsWith(Join(parts[1..], sep), p)
    ensures StartsWith(Join(parts, sep), parts[0] + sep + p)
  {
    StartsWithPrepend(parts[0] + sep, Join(parts[1..], sep), p);
  }

  lemma EndsWithPrepend(h: string, b: string, q: string)
    requires EndsWith(b, q)
    ensures EndsWith(h + b, q)
  {
    assert (h + b)[|h + b| - |q|..] == b[|b| - |q|..];
  }

  /** A join of two or more parts closes with the separator and the last part. */
  lemma JoinEndsWithLast(parts: seq<string>, sep: string)
    requires |parts| >= 2
    ensures EndsWith(Join(parts, sep), sep + parts[|parts| - 1])
    decreases |parts|
  {
    var last := parts[|parts| - 1];
    if |parts| == 2 {
      assert parts[1..] == [last];
      assert Join(parts, sep) == parts[0] + (sep + last);
      EndsWithConcat(parts[0], sep + last);
    } else {
      JoinEndsWithLast(parts[1..], sep);
      EndsWithPrepend(parts[0] + sep, Join(parts[1..], sep), sep + last);
    }
  }

  /** A join of five parts: the parts in order with the separator between each two. */
  lemma JoinFive(a: string, b: string, c: string, d: string, e: string, sep: string)
    ensures Join([a, b, c, d, e], sep) == a + sep + b + sep + c + sep + d + sep + e
    ensures StartsWith(Join([a, b, c, d, e], sep), a + sep + b + sep + c)
    ensures EndsWith(Join([a, b, c, d, e], sep), sep + e)
  {
    var parts := [a, b, c, d, e];
    assert parts[1..] == [b, c, d, e] && parts[1..][1..] == [c, d, e];
    assert parts[1..][1..][1..] == [d, e] && parts[1..][1..][1..][1..] == [e];
    assert Join([d, e], sep) == d + sep + e;
    assert Join([c, d, e], sep) == c + sep + (d + sep + e);
    assert Join([b, c, d, e], sep) == b + sep + (c + sep + (d + sep + e));
    assert a + sep + (b + sep + (c + sep + (d + sep + e))) == a + sep + b + sep + c + sep + d + sep + e;
    JoinStartsWithFirst(parts[2..], sep);
    assert parts[1..][1..] == parts[2..];
    JoinPrefix(parts[1..], sep, parts[2]);
    JoinPrefix(parts, sep, parts[1] + sep + parts[2]);
    assert parts[0] + sep + (parts[1] + sep + parts[2]) == parts[0] + sep + parts[1] + sep + parts[2];
    JoinEndsWithLast(parts, sep);
  }

  /** A join opens with its first part. */
  lemma JoinStartsWithFirst(parts: seq<string>, sep: string)
    requires |parts| > 0
    ensures StartsWith(Join(parts, sep), parts[0])
  {
    if |parts| > 1 {
      assert Join(parts, sep) == parts[0] + (sep + Join(parts[1..], sep));
      assert StartsWith(parts[0], parts[0]);
      StartsWithConcat(parts[0], sep + Join(parts[1..], sep), parts[0]);
    }
  }

  /** `s.split(sep)` for a one-character separator. */
  function Split(s: string, sep: char): (r: seq<string>)
    ensures |r| >= 1
    ensures forall k :: 0 <= k < |r| ==> sep !in r[k]
    ensures Join(r, [sep]) == s
    decreases |s|
  {
    match IndexOfChar(s, sep, 0)
    case None => [s]
    case Some(i) =>
      var rest := Split(s[i + 1..], sep);
      assert s == s[..i] + [sep] + s[i + 1..];
      [s[..i]] + rest
  }

  /** `parts.map(f).join(sep)` keeps one rendered item per part. */
  lemma JoinSingleton(p: string, sep: string)
    ensures Join([p], sep) == p
  {
  }

  // ---------------------------------------------------------------- numbers

  function DigitChar(d: nat): (c: char)
    requires d < 10
    ensures IsDigit(c)
  {
    ('0' as int + d) as char
  }

  /** Decimal rendering of a natural number, as template literals print it. */
  function NatToString(n: nat): (r: string)
    ensures |r| >= 1
    ensures forall k :: 0 <= k < |r| ==> IsDigit(r[k])
    ensures n < 10 ==> r == [DigitChar(n)]
    decreases n
  {
    if n < 10 then [DigitChar(n)] else NatToString(n / 10) + [DigitChar(n % 10)]
  }

  datatype Option<T> = None | Some(value: T)
}
