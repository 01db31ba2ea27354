/**
 * The combined whiteboard and chat panel: where extracted math is placed on
 * the board (three columns, filled top to bottom), which extracted
 * expressions are added to it, and which of the tutor's drawing commands are
 * drawn, decided by a history of the shapes already drawn.
 */
module Whiteboard {
  import opened Strings
  import opened Types
  import opened Regex

  // ------------------------------------------------------------ layout

  /**
   * How many math elements fit in one column: the space between the top
   * margin (60) and the bottom limit (height - 100) in slots of 80 + 20
   * pixels, rounded down (`/` on `int` rounds down for a positive divisor).
   */
  function PerColumn(height: int): (r: int)
    ensures r * 100 <= height - 160 < (r + 1) * 100
  {
    (height - 100 - 60) / (80 + 20)
  }

  /** Where an element goes: `x` is always a number, `y` is NaN when no element fits in a column. */
  datatype Placement = Placement(x: real, y: JsNumber)

  /**
   * Column and row of an index when `perColumn` elements fit in a column:
   * `floor(index / perColumn)` and `index % perColumn`, counted out by
   * whole columns.
   */
  function ColumnRow(index: nat, perColumn: nat): (r: (nat, nat))
    requires perColumn > 0
    ensures r.1 < perColumn
    ensures index < perColumn ==> r == (0, index)
    ensures index >= perColumn ==> r.0 >= 1
    ensures index >= perColumn ==> (r.0 == 1 <==> index < 2 * perColumn)
    decreases index
  {
    if index < perColumn then (0, index)
    else
      var r := ColumnRow(index - perColumn, perColumn);
      (r.0 + 1, r.1)
  }

  /** The counted column and row are the quotient and remainder of the division. */
  lemma {:induction false} ColumnRowIsDivision(index: nat, perColumn: nat)
    requires perColumn > 0
    ensures ColumnRow(index, perColumn) == (index / perColumn, index % perColumn)
    decreases index
  {
    if index >= perColumn {
      ColumnRowIsDivision(index - perColumn, perColumn);
      ShiftByDivisor(index - perColumn, perColumn);
    }
  }

  /** Adding the divisor adds one to the quotient and keeps the remainder. */
  lemma ShiftByDivisor(a: nat, b: int)
    requires b > 0
    ensures (a + b) / b == a / b + 1 && (a + b) % b == a % b
  {
    DivUnique(a + b, b, a / b + 1, a % b);
  }

  /** Quotient and remainder are the only pair that rebuilds the dividend with the remainder in range. */
  lemma DivUnique(a: int, b: int, q: int, r: int)
    requires b > 0 && a == b * q + r && 0 <= r < b
    ensures a / b == q && a % b == r
  {
    var d := a / b - q;
    assert b * d == r - a % b;
    assert d >= 1 ==> b * d >= b;
    assert d <= -1 ==> b * d <= -b;
  }

  /**
   * `calculatePosition`: the column is `floor(index / perColumn)` (0 left at
   * 80, 1 middle at half the width, anything else right at width - 80) and
   * the row is `index % perColumn`, 100 pixels apart from 60 down. With no
   * room for a single row the quotient is Infinity or NaN, which is neither
   * 0 nor 1, and the remainder is NaN. With a negative count the quotient is
   * 0 (a negative zero) for index 0 and negative otherwise, and the
   * remainder of a non-negative index is its remainder by the count's
   * magnitude.
   */
  function Position(index: nat, width: int, height: int): (r: Placement)
    ensures PerColumn(height) == 0 ==> r == Placement((width - 80) as real, NaN)
    ensures PerColumn(height) != 0 ==> r.y.Finite?
    ensures PerColumn(height) >= 1 ==> 60.0 <= r.y.value <= (height - 200) as real
    ensures PerColumn(height) >= 1 && index < PerColumn(height) ==> r.x == 80.0
    ensures PerColumn(height) >= 1 && PerColumn(height) <= index < 2 * PerColumn(height) ==> r.x == (width as real) / 2.0
    ensures PerColumn(height) >= 1 && index >= 2 * PerColumn(height) ==> r.x == (width - 80) as real
    ensures PerColumn(height) >= 1 ==> r.y == Finite(60.0 + ((index % PerColumn(height)) * 100) as real)
    ensures PerColumn(height) <= -1 ==> r.x == (if index == 0 then 80.0 else (width - 80) as real)
    ensures PerColumn(height) <= -1 ==> r.y == Finite(60.0 + ((index % -PerColumn(height)) * 100) as real)
  {
    var perColumn := PerColumn(height);
    if perColumn == 0 then Placement((width - 80) as real, NaN)
    else
      var magnitude: nat := if perColumn > 0 then perColumn else -perColumn;
      ColumnRowIsDivision(index, magnitude);
      var cr := ColumnRow(index, magnitude);
      var segment: int := if perColumn > 0 then cr.0 else if index == 0 then 0 else -1;
      var x := if segment == 0 then 80.0 else if segment == 1 then (width as real) / 2.0 else (width - 80) as real;
      Placement(x, Finite(60.0 + (cr.1 * 100) as real))
  }

  /** Moving one whole column on keeps the row: the same height, one column further right. */
  lemma NextColumnSameRow(index: nat, width: int, height: int)
    requires PerColumn(height) >= 1
    ensures Position(index + PerColumn(height), width, height).y == Position(index, width, height).y
  {
    assert ColumnRow(index + PerColumn(height), PerColumn(height)).1 == ColumnRow(index, PerColumn(height)).1;
  }

  // ------------------------------------------------------------ formatting extracted math

  /** `replace(/\s+/g, ' ')` on `s[i..]`: every run of white space becomes a single space. */
  function CollapseSpaces(s: string, i: nat): (r: string)
    requires i <= |s|
    ensures forall k | 0 <= k < |r| :: IsSpace(r[k]) ==> r[k] == ' ' && (k + 1 < |r| ==> !IsSpace(r[k + 1]))
    ensures i < |s| ==> r != [] && (IsSpace(r[0]) <==> IsSpace(s[i]))
    ensures forall ch | ch in r :: ch == ' ' || ch in s[i..]
    decreases |s| - i
  {
    if i == |s| then ""
    else if IsSpace(s[i]) then
      var rest := CollapseSpaces(s, RunEnd(SpaceClass, s, i));
      assert forall ch | ch in rest :: ch == ' ' || ch in s[i..] by {
        var e := RunEnd(SpaceClass, s, i);
        assert s[e..] == s[i..][e - i..];
      }
      " " + rest
    else
      var rest := CollapseSpaces(s, i + 1);
      assert s[i + 1..] == s[i..][1..];
      [s[i]] + rest
  }

  /** `replace(/c/g, rep)`: every `c` becomes `rep`. */
  function ReplaceChar(s: string, c: char, rep: string): (r: string)
    ensures c !in rep ==> c !in r
    ensures c !in s ==> r == s
    ensures forall ch | ch in r :: ch in s || ch in rep
    decreases |s|
  {
    if s == [] then []
    else
      var rest := ReplaceChar(s[1..], c, rep);
      assert s == [s[0]] + s[1..];
      (if s[0] == c then rep else [s[0]]) + rest
  }

  /** A mark, a braced run of non-marks and a text whose marks precede no digit: no mark precedes a digit. */
  lemma BracedRunKeepsMarksApart(mark: char, digits: string, rest: string)
    requires mark != '{' && mark != '}' && mark !in digits
    requires forall k | 0 <= k < |rest| - 1 :: rest[k] == mark ==> !IsDigit(rest[k + 1])
    ensures var r := [mark] + "{" + digits + "}" + rest;
      forall k | 0 <= k < |r| - 1 :: r[k] == mark ==> !IsDigit(r[k + 1])
  {
    var r := [mark] + "{" + digits + "}" + rest;
    var n := |digits| + 3;
    forall k | 0 <= k < |r| - 1 ensures r[k] == mark ==> !IsDigit(r[k + 1]) {
      if k == 0 {
        assert r[1] == '{';
      } else if k == 1 {
        assert r[k] == '{';
      } else if k < n - 1 {
        assert r[k] == digits[k - 2];
      } else if k == n - 1 {
        assert r[k] == '}';
      } else {
        assert r[k] == rest[k - n] && r[k + 1] == rest[k + 1 - n];
      }
    }
  }

  /**
   * `replace(/\^(\d+)/g, '^{$1}')` and `replace(/_(\d+)/g, '_{$1}')` on
   * `s[i..]`: a mark followed by digits gets the whole run of digits in
   * braces; a mark not followed by a digit is kept as it is.
   */
  function BraceDigits(s: string, mark: char, i: nat): (r: string)
    requires i <= |s|
    requires !IsDigit(mark) && mark != '{' && mark != '}'
    ensures i < |s| ==> r != [] && r[0] == s[i]
    ensures forall k | 0 <= k < |r| - 1 :: r[k] == mark ==> !IsDigit(r[k + 1])
    ensures forall ch | ch in r :: ch in s[i..] || ch == '{' || ch == '}'
    decreases |s| - i
  {
    if i == |s| then ""
    else if s[i] == mark && i + 1 < |s| && IsDigit(s[i + 1]) then
      var e := RunEnd(DigitClass, s, i + 1);
      var rest := BraceDigits(s, mark, e);
      assert forall ch | ch in s[i + 1..e] + rest :: ch in s[i..] || ch == '{' || ch == '}' by {
        assert s[i + 1..e] == s[i..][1..e - i];
        assert s[e..] == s[i..][e - i..];
      }
      BracedRunKeepsMarksApart(mark, s[i + 1..e], rest);
      [mark] + "{" + s[i + 1..e] + "}" + rest
    else
      var rest := BraceDigits(s, mark, i + 1);
      assert s[i + 1..] == s[i..][1..];
      [s[i]] + rest
  }

  /** Where the final run of `$` in `s[lo..j]` starts. */
  function DollarRunStart(s: string, lo: nat, j: nat): (r: nat)
    requires lo <= j <= |s|
    ensures lo <= r <= j
    ensures forall m | r <= m < j :: s[m] == '$'
    ensures r == lo || s[r - 1] != '$'
    decreases j
  {
    if j > lo && s[j - 1] == '$' then DollarRunStart(s, lo, j - 1) else j
  }

  /** `replace(/^\$+|\$+$/g, '')`: the leading and the trailing run of `$` removed. */
  function StripDollars(s: string): (r: string)
    ensures r == "" || (r[0] != '$' && r[|r| - 1] != '$')
    ensures forall ch | ch in r :: ch in s
  {
    var a := RunEnd(OneOf("$"), s, 0);
    var b := DollarRunStart(s, a, |s|);
    assert forall ch | ch in s[a..b] :: ch in s by {
      forall ch | ch in s[a..b] ensures ch in s {
        var k :| 0 <= k < b - a && s[a..b][k] == ch;
        assert s[a + k] == ch;
      }
    }
    s[a..b]
  }

  /** Text with no `$` at either end is left as it is. */
  lemma StripDollarsKeepsClean(s: string)
    requires s == "" || (s[0] != '$' && s[|s| - 1] != '$')
    ensures StripDollars(s) == s
  {
  }

  /** Dollar stripping is idempotent. */
  lemma StripDollarsIdempotent(s: string)
    ensures StripDollars(StripDollars(s)) == StripDollars(s)
  {
    StripDollarsKeepsClean(StripDollars(s));
  }

  /** The rewrites a plain equation goes through, in this order. */
  datatype Pass = CollapseWhitespace | Times | Divide | Superscripts | Subscripts

  const PlainPasses: seq<Pass> := [CollapseWhitespace, Times, Divide, Superscripts, Subscripts]

  /** One rewrite of the chain of `replace` calls. */
  function Apply(pass: Pass, s: string): (r: string)
    ensures pass == Times ==> '*' !in r
    ensures pass == Divide ==> '/' !in r
    ensures pass != CollapseWhitespace ==> forall ch | ch in r :: ch in s || (ch != '*' && ch != '/')
  {
    match pass
    case CollapseWhitespace => CollapseSpaces(s, 0)
    case Times => ReplaceChar(s, '*', " \\times ")
    case Divide => ReplaceChar(s, '/', " \\div ")
    case Superscripts => assert s[0..] == s; BraceDigits(s, '^', 0)
    case Subscripts => assert s[0..] == s; BraceDigits(s, '_', 0)
  }

  /** The rewrites applied one after the other, the first one first. */
  function ApplyAll(passes: seq<Pass>, s: string): string
    decreases |passes|
  {
    if passes == [] then s else ApplyAll(passes[1..], Apply(passes[0], s))
  }

  /**
   * The formatting of an extracted expression: text with no backslash that
   * does not start with `$` is a plain equation, which gets its white space
   * collapsed, `*` and `/` spelt as `\times` and `\div` and the digits after
   * `^` and `_` braced; then the dollars at both ends go.
   */
  function FormatLatex(latex: string): (r: string)
    ensures r == "" || (r[0] != '$' && r[|r| - 1] != '$')
  {
    StripDollars(if IsPlain(latex) then ApplyAll(PlainPasses, latex) else latex)
  }

  /** Text with no backslash that does not start with `$`. */
  predicate IsPlain(latex: string) {
    '\\' !in latex && !StartsWith(latex, "$")
  }

  /** Passes other than the white-space one never bring in a `*` or a `/` that was not there. */
  lemma {:induction false} NoneReintroduce(passes: seq<Pass>, s: string, c: char)
    requires c in "*/" && c !in s
    requires forall k | 0 <= k < |passes| :: passes[k] != CollapseWhitespace
    ensures c !in ApplyAll(passes, s)
    decreases |passes|
  {
    if passes != [] {
      NoneReintroduce(passes[1..], Apply(passes[0], s), c);
    }
  }

  /** A plain equation comes out with every `*` and `/` spelt as a LaTeX command. */
  lemma PlainHasNoOperators(latex: string)
    requires IsPlain(latex)
    ensures '*' !in FormatLatex(latex) && '/' !in FormatLatex(latex)
  {
    var spaced := Apply(CollapseWhitespace, latex);
    var timed := Apply(Times, spaced);
    var divided := Apply(Divide, timed);
    assert ApplyAll(PlainPasses, latex) == ApplyAll(PlainPasses[3..], divided) by {
      assert PlainPasses[1..][1..][1..] == PlainPasses[3..];
    }
    NoneReintroduce(PlainPasses[3..], divided, '*');
    NoneReintroduce(PlainPasses[3..], divided, '/');
  }

  // ------------------------------------------------------------ math elements

  datatype MathElement = MathElement(id: string, latex: string, x: real, y: JsNumber)

  /** The id `math-<now>-<index>`, where `index` is the expression's place in the batch. */
  function MathId(now: nat, index: nat): string {
    "math-" + NatToString(now) + "-" + NatToString(index)
  }

  /** Nothing but white space: what `trim()` turns into the falsy empty string. */
  predicate Blank(s: string)
    decreases |s|
  {
    s == [] || (IsSpace(s[0]) && Blank(s[1..]))
  }

  /** A string is blank exactly when trimming leaves nothing. */
  lemma {:induction false} BlankIffTrimEmpty(s: string)
    ensures Blank(s) <==> Trim(s) == ""
    decreases |s|
  {
    TrimEmptyIff(s);
    if s != [] {
      BlankIffTrimEmpty(s[1..]);
      TrimEmptyIff(s[1..]);
      assert forall k | 0 <= k < |s[1..]| :: s[1..][k] == s[k + 1];
    }
  }

  /** A formatted expression is added when it is not blank and no element on the board already shows it. */
  predicate Novel(prev: seq<MathElement>, latex: string) {
    !Blank(latex) && !Shown(prev, latex)
  }

  /** Some element on the board already shows the expression. */
  predicate Shown(prev: seq<MathElement>, latex: string) {
    exists k | 0 <= k < |prev| :: prev[k].latex == latex
  }

  /** Every expression of a batch put through `format` (on the board, `FormatLatex`). */
  function FormatAll(exprs: seq<string>, format: string -> string): (r: seq<string>)
    ensures |r| == |exprs| && forall j | 0 <= j < |exprs| :: r[j] == format(exprs[j])
  {
    seq(|exprs|, j requires 0 <= j < |exprs| => format(exprs[j]))
  }

  /**
   * The elements `handleMathExtracted` adds for a batch, given the batch's
   * formatted expressions: each novel one in batch order, placed by the
   * layout `place` at the next free index. Expressions of the same batch are compared only with
   * `prev`, never with each other.
   */
  function Additions(prev: seq<MathElement>, formatted: seq<string>, now: nat, place: nat -> Placement): seq<MathElement>
    decreases |formatted|
  {
    if formatted == [] then []
    else
      var init := Additions(prev, formatted[..|formatted| - 1], now, place);
      var latex := formatted[|formatted| - 1];
      if Novel(prev, latex) then
        var p := place(|prev| + |init|);
        init + [MathElement(MathId(now, |formatted| - 1), latex, p.x, p.y)]
      else init
  }

  /** One more expression of the batch: it is added, after the earlier additions, exactly when it is novel. */
  lemma AdditionsSnoc(prev: seq<MathElement>, formatted: seq<string>, now: nat, place: nat -> Placement, i: nat)
    requires i < |formatted|
    ensures var init := Additions(prev, formatted[..i], now, place);
      var p := place(|prev| + |init|);
      Additions(prev, formatted[..i + 1], now, place)
        == init + if Novel(prev, formatted[i]) then [MathElement(MathId(now, i), formatted[i], p.x, p.y)] else []
  {
    assert formatted[..i + 1][..i] == formatted[..i];
  }

  /** `AdditionsSnoc` with the earlier additions and the expression named, one case at a time. */
  lemma AdditionsStep(prev: seq<MathElement>, formatted: seq<string>, now: nat, place: nat -> Placement, i: nat,
                      init: seq<MathElement>, latex: string)
    requires i < |formatted| && init == Additions(prev, formatted[..i], now, place) && latex == formatted[i]
    ensures Novel(prev, latex) ==>
      Additions(prev, formatted[..i + 1], now, place)
        == init + [MathElement(MathId(now, i), latex, place(|prev| + |init|).x, place(|prev| + |init|).y)]
    ensures !Novel(prev, latex) ==> Additions(prev, formatted[..i + 1], now, place) == init
  {
    AdditionsSnoc(prev, formatted, now, place, i);
  }

  /** At most one element per expression, and each one added is novel with respect to the board. */
  lemma {:induction false} AdditionsNovel(prev: seq<MathElement>, formatted: seq<string>, now: nat, place: nat -> Placement)
    ensures var r := Additions(prev, formatted, now, place);
      |r| <= |formatted| && forall k | 0 <= k < |r| :: Novel(prev, r[k].latex)
    decreases |formatted|
  {
    if formatted != [] {
      AdditionsNovel(prev, formatted[..|formatted| - 1], now, place);
    }
  }

  /** The k-th added element sits at the position of index `|prev| + k` on the board. */
  lemma {:induction false} AdditionsPlaced(prev: seq<MathElement>, formatted: seq<string>, now: nat, place: nat -> Placement)
    ensures var r := Additions(prev, formatted, now, place);
      forall k | 0 <= k < |r| :: At(r[k]) == place(|prev| + k)
    decreases |formatted|
  {
    if formatted != [] {
      var n := |formatted| - 1;
      var front := formatted[..n];
      AdditionsPlaced(prev, front, now, place);
      AdditionsSnoc(prev, formatted, now, place, n);
      assert formatted[..n + 1] == formatted;
      var init := Additions(prev, front, now, place);
      var p := place(|prev| + |init|);
      assert At(MathElement(MathId(now, n), formatted[n], p.x, p.y)) == p;
      AppendPlaced(init, MathElement(MathId(now, n), formatted[n], p.x, p.y), |prev|, place, Novel(prev, formatted[n]));
    }
  }

  lemma AppendPlaced(init: seq<MathElement>, e: MathElement, base: nat, place: nat -> Placement, add: bool)
    requires forall k | 0 <= k < |init| :: At(init[k]) == place(base + k)
    requires At(e) == place(base + |init|)
    ensures var r := init + if add then [e] else [];
      forall k | 0 <= k < |r| :: At(r[k]) == place(base + k)
  {
  }

  /** Every added element shows one expression of the batch and carries that expression's id. */
  lemma {:induction false} AdditionsFromBatch(prev: seq<MathElement>, formatted: seq<string>, now: nat, place: nat -> Placement)
    ensures var r := Additions(prev, formatted, now, place);
      forall k | 0 <= k < |r| :: exists j | 0 <= j < |formatted| ::
        r[k].latex == formatted[j] && r[k].id == MathId(now, j)
    decreases |formatted|
  {
    if formatted != [] {
      var n := |formatted| - 1;
      var front := formatted[..n];
      AdditionsFromBatch(prev, front, now, place);
      AdditionsSnoc(prev, formatted, now, place, n);
      assert formatted[..n + 1] == formatted;
      var init := Additions(prev, front, now, place);
      var r := Additions(prev, formatted, now, place);
      forall k | 0 <= k < |r|
        ensures exists j | 0 <= j < |formatted| :: r[k].latex == formatted[j] && r[k].id == MathId(now, j)
      {
        if k < |init| {
          var j :| 0 <= j < |front| && init[k].latex == front[j] && init[k].id == MathId(now, j);
          assert r[k] == init[k] && formatted[j] == front[j];
        } else {
          assert r[k].latex == formatted[|formatted| - 1];
        }
      }
    }
  }

  /** Where an element sits. */
  function At(e: MathElement): Placement {
    Placement(e.x, e.y)
  }

  /** Nothing is added exactly when every expression of the batch is blank or already on the board. */
  lemma {:induction false} NothingAddedIff(prev: seq<MathElement>, formatted: seq<string>, now: nat, place: nat -> Placement)
    ensures Additions(prev, formatted, now, place) == [] <==>
      forall j | 0 <= j < |formatted| :: !Novel(prev, formatted[j])
    decreases |formatted|
  {
    if formatted != [] {
      var front := formatted[..|formatted| - 1];
      NothingAddedIff(prev, front, now, place);
      assert forall j | 0 <= j < |front| :: front[j] == formatted[j];
    }
  }

  /** Two equal non-blank expressions in one batch, on an empty board, are both added. */
  lemma SameBatchNotCompared(latex: string, now: nat, place: nat -> Placement)
    requires !Blank(latex)
    ensures |Additions([], [latex, latex], now, place)| == 2
  {
    AdditionsSnoc([], [latex, latex], now, place, 0);
    AdditionsSnoc([], [latex, latex], now, place, 1);
    assert [latex, latex][..0] == [];
    assert [latex, latex][..2] == [latex, latex];
  }

  /**
   * The updater `handleMathExtracted` hands to `setMathElements`: the novel
   * expressions of the batch are appended at the next free positions; when
   * none is novel the list is returned as it was. The formatting and the
   * layout are the parameters `format` and `place`; the board passes
   * `FormatLatex` and `Position` at its current size.
   */
  method NextElements(prev: seq<MathElement>, expressions: seq<string>, now: nat,
                      format: string -> string, place: nat -> Placement)
    returns (next: seq<MathElement>)
    ensures next == prev + Additions(prev, FormatAll(expressions, format), now, place)
  {
    ghost var formatted := FormatAll(expressions, format);
    var newElements: seq<MathElement> := [];
    for index := 0 to |expressions|
      invariant newElements == Additions(prev, formatted[..index], now, place)
    {
      var formattedLatex := format(expressions[index]);
      AdditionsStep(prev, formatted, now, place, index, newElements, formattedLatex);
      var alreadyShown := Shown(prev, formattedLatex);
      if !alreadyShown && !Blank(formattedLatex) {
        assert Novel(prev, formatted[index]);
        var totalIndex := |prev| + |newElements|;
        var p := place(totalIndex);
        newElements := newElements + [MathElement(MathId(now, index), formattedLatex, p.x, p.y)];
      } else {
        assert !Novel(prev, formatted[index]);
      }
    }
    assert formatted[..|expressions|] == formatted;
    if |newElements| == 0 {
      return prev;
    }
    return prev + newElements;
  }

  // ------------------------------------------------------------ drawing commands

  /** The presentational fields of a command (colours, labels, stroke, fill, …), which the duplicate key leaves out. */
  datatype Style = Style(color: Option<string>, labelText: Option<string>, strokeWidth: Option<real>)

  datatype Command =
    | Circle(x: real, y: real, radius: real, style: Style)
    | Line(x1: real, y1: real, x2: real, y2: real, style: Style)
    | Arrow(x1: real, y1: real, x2: real, y2: real, style: Style)
    | Text(x: real, y: real, text: string, style: Style)
    | Point(x: real, y: real, style: Style)
    | Rectangle(x: real, y: real, width: real, height: real, style: Style)
    | Triangle(x1: real, y1: real, x2: real, y2: real, x3: real, y3: real, style: Style)
    | Angle(x: real, y: real, x1: real, y1: real, x2: real, y2: real, style: Style)
    | Parabola(a: real, b: real, c: real, xMin: real, xMax: real, style: Style)
    | Axis(style: Style)
    | Grid(style: Style)

  /**
   * The JSON text of `{type, …geometry}` that identifies a command: its type
   * and, for circles, rectangles, triangles, lines, texts and parabolas, the
   * fields that fix the shape, in a fixed order.
   */
  datatype Key = Key(kind: string, numbers: seq<real>, text: Option<string>)

  function CommandKey(cmd: Command): Key {
    match cmd
    case Circle(x, y, radius, _) => Key("circle", [x, y, radius], None)
    case Rectangle(x, y, width, height, _) => Key("rectangle", [x, y, width, height], None)
    case Triangle(x1, y1, x2, y2, x3, y3, _) => Key("triangle", [x1, y1, x2, y2, x3, y3], None)
    case Line(x1, y1, x2, y2, _) => Key("line", [x1, y1, x2, y2], None)
    case Text(x, y, text, _) => Key("text", [x, y], Some(text))
    case Parabola(a, b, c, _, _, _) => Key("parabola", [a, b, c], None)
    case Arrow(_, _, _, _, _) => Key("arrow", [], None)
    case Point(_, _, _) => Key("point", [], None)
    case Angle(_, _, _, _, _, _, _) => Key("angle", [], None)
    case Axis(_) => Key("axis", [], None)
    case Grid(_) => Key("grid", [], None)
  }

  /** When two commands count as the same drawing: same type and, where the key has them, the same geometry. */
  predicate SameShape(a: Command, b: Command) {
    match a
    case Circle(x, y, radius, _) => b.Circle? && b.x == x && b.y == y && b.radius == radius
    case Rectangle(x, y, width, height, _) =>
      b.Rectangle? && b.x == x && b.y == y && b.width == width && b.height == height
    case Triangle(x1, y1, x2, y2, x3, y3, _) =>
      b.Triangle? && b.x1 == x1 && b.y1 == y1 && b.x2 == x2 && b.y2 == y2 && b.x3 == x3 && b.y3 == y3
    case Line(x1, y1, x2, y2, _) => b.Line? && b.x1 == x1 && b.y1 == y1 && b.x2 == x2 && b.y2 == y2
    case Text(x, y, text, _) => b.Text? && b.x == x && b.y == y && b.text == text
    case Parabola(pa, pb, pc, _, _, _) => b.Parabola? && b.a == pa && b.b == pb && b.c == pc
    case Arrow(_, _, _, _, _) => b.Arrow?
    case Point(_, _, _) => b.Point?
    case Angle(_, _, _, _, _, _, _) => b.Angle?
    case Axis(_) => b.Axis?
    case Grid(_) => b.Grid?
  }

  /** Two commands have the same key exactly when they are the same shape: labels, colours and the rest never matter. */
  lemma KeyIffSameShape(a: Command, b: Command)
    ensures CommandKey(a) == CommandKey(b) <==> SameShape(a, b)
  {
    if CommandKey(a) == CommandKey(b) {
      var ka := CommandKey(a).kind;
      assert ka == CommandKey(b).kind;
      match a {
        case Circle(_, _, _, _) => assert ka == "circle"; assert b.Circle? by { KindDetermines(b, ka); }
        case Rectangle(_, _, _, _, _) => assert ka == "rectangle"; assert b.Rectangle? by { KindDetermines(b, ka); }
        case Triangle(_, _, _, _, _, _, _) => assert ka == "triangle"; assert b.Triangle? by { KindDetermines(b, ka); }
        case Line(_, _, _, _, _) => assert ka == "line"; assert b.Line? by { KindDetermines(b, ka); }
        case Text(_, _, _, _) => assert ka == "text"; assert b.Text? by { KindDetermines(b, ka); }
        case Parabola(_, _, _, _, _, _) => assert ka == "parabola"; assert b.Parabola? by { KindDetermines(b, ka); }
        case Arrow(_, _, _, _, _) => assert ka == "arrow"; assert b.Arrow? by { KindDetermines(b, ka); }
        case Point(_, _, _) => assert ka == "point"; assert b.Point? by { KindDetermines(b, ka); }
        case Angle(_, _, _, _, _, _, _) => assert ka == "angle"; assert b.Angle? by { KindDetermines(b, ka); }
        case Axis(_) => assert ka == "axis"; assert b.Axis? by { KindDetermines(b, ka); }
        case Grid(_) => assert ka == "grid"; assert b.Grid? by { KindDetermines(b, ka); }
      }
    }
  }

  /** The type name in a key names exactly one kind of command. */
  lemma KindDetermines(b: Command, kind: string)
    requires CommandKey(b).kind == kind
    ensures kind == "circle" <==> b.Circle?
    ensures kind == "rectangle" <==> b.Rectangle?
    ensures kind == "triangle" <==> b.Triangle?
    ensures kind == "line" <==> b.Line?
    ensures kind == "text" <==> b.Text?
    ensures kind == "parabola" <==> b.Parabola?
    ensures kind == "arrow" <==> b.Arrow?
    ensures kind == "point" <==> b.Point?
    ensures kind == "angle" <==> b.Angle?
    ensures kind == "axis" <==> b.Axis?
    ensures kind == "grid" <==> b.Grid?
  {
  }

  /** The keys of a batch of commands. */
  function KeySet(cmds: seq<Command>): set<Key> {
    set k | 0 <= k < |cmds| :: CommandKey(cmds[k])
  }

  lemma KeySetCons(cmds: seq<Command>)
    requires cmds != []
    ensures KeySet(cmds) == {CommandKey(cmds[0])} + KeySet(cmds[1..])
  {
    forall key | key in KeySet(cmds) ensures key in {CommandKey(cmds[0])} + KeySet(cmds[1..]) {
      var k :| 0 <= k < |cmds| && CommandKey(cmds[k]) == key;
      if k > 0 {
        assert cmds[1..][k - 1] == cmds[k];
      }
    }
    forall key | key in KeySet(cmds[1..]) ensures key in KeySet(cmds) {
      var k :| 0 <= k < |cmds[1..]| && CommandKey(cmds[1..][k]) == key;
      assert cmds[k + 1] == cmds[1..][k];
    }
  }

  lemma KeySetSnoc(cmds: seq<Command>, i: nat)
    requires i < |cmds|
    ensures KeySet(cmds[..i + 1]) == KeySet(cmds[..i]) + {CommandKey(cmds[i])}
  {
    assert cmds[..i + 1][i] == cmds[i];
    forall key | key in KeySet(cmds[..i]) ensures key in KeySet(cmds[..i + 1]) {
      var k :| 0 <= k < i && CommandKey(cmds[..i][k]) == key;
      assert cmds[..i + 1][k] == cmds[..i][k];
    }
    forall key | key in KeySet(cmds[..i + 1]) ensures key in KeySet(cmds[..i]) + {CommandKey(cmds[i])} {
      var k :| 0 <= k < i + 1 && CommandKey(cmds[..i + 1][k]) == key;
      if k < i {
        assert cmds[..i + 1][k] == cmds[..i][k];
      }
    }
  }

  /**
   * The filter of a normal message, left to right: a command passes when its
   * key is not in the history, and its key joins the history at once.
   * Returns the passing commands and the history afterwards.
   */
  function Admit(history: set<Key>, cmds: seq<Command>): (seq<Command>, set<Key>)
    decreases |cmds|
  {
    if cmds == [] then ([], history)
    else
      var key := CommandKey(cmds[0]);
      if key in history then Admit(history, cmds[1..])
      else
        var rest := Admit(history + {key}, cmds[1..]);
        ([cmds[0]] + rest.0, rest.1)
  }

  /** Afterwards the history holds the old keys and the key of every command of the batch, passed or not. */
  lemma {:induction false} AdmitHistory(history: set<Key>, cmds: seq<Command>)
    ensures Admit(history, cmds).1 == history + KeySet(cmds)
    decreases |cmds|
  {
    if cmds != [] {
      KeySetCons(cmds);
      var key := CommandKey(cmds[0]);
      if key in history {
        AdmitHistory(history, cmds[1..]);
      } else {
        AdmitHistory(history + {key}, cmds[1..]);
      }
    }
  }

  /**
   * What passes is drawn from the batch, in order, is new to the history and
   * has no two commands of the same shape; every command of the batch was
   * either already drawn or has its shape among those that pass.
   */
  lemma {:induction false} AdmitFresh(history: set<Key>, cmds: seq<Command>)
    ensures var passed := Admit(history, cmds).0;
      && |passed| <= |cmds|
      && (forall k | 0 <= k < |passed| :: passed[k] in cmds && CommandKey(passed[k]) !in history)
      && (forall j, k | 0 <= j < k < |passed| :: CommandKey(passed[j]) != CommandKey(passed[k]))
      && KeySet(cmds) <= history + KeySet(passed)
    decreases |cmds|
  {
    if cmds != [] {
      KeySetCons(cmds);
      var key := CommandKey(cmds[0]);
      var tail := cmds[1..];
      if key in history {
        AdmitFresh(history, tail);
        var passed := Admit(history, tail).0;
        assert forall k | 0 <= k < |passed| :: passed[k] in tail ==> passed[k] in cmds;
      } else {
        AdmitFresh(history + {key}, tail);
        FreshCons(history, cmds, Admit(history + {key}, tail).0);
      }
    }
  }

  /** A command with a new key in front of what passed after it keeps the batch's pass fresh and distinct. */
  lemma FreshCons(history: set<Key>, cmds: seq<Command>, rest: seq<Command>)
    requires cmds != [] && CommandKey(cmds[0]) !in history
    requires |rest| <= |cmds[1..]|
    requires forall k | 0 <= k < |rest| :: rest[k] in cmds[1..] && CommandKey(rest[k]) !in history + {CommandKey(cmds[0])}
    requires forall j, k | 0 <= j < k < |rest| :: CommandKey(rest[j]) != CommandKey(rest[k])
    requires KeySet(cmds[1..]) <= history + {CommandKey(cmds[0])} + KeySet(rest)
    ensures var passed := [cmds[0]] + rest;
      && |passed| <= |cmds|
      && (forall k | 0 <= k < |passed| :: passed[k] in cmds && CommandKey(passed[k]) !in history)
      && (forall j, k | 0 <= j < k < |passed| :: CommandKey(passed[j]) != CommandKey(passed[k]))
      && KeySet(cmds) <= history + KeySet(passed)
  {
    var tail := cmds[1..];
    var passed := [cmds[0]] + rest;
    assert forall k | 0 <= k < |rest| :: rest[k] in tail ==> rest[k] in cmds;
    forall k | 0 <= k < |passed| ensures passed[k] in cmds && CommandKey(passed[k]) !in history {
      if k > 0 {
        assert passed[k] == rest[k - 1];
      }
    }
    forall j, k | 0 <= j < k < |passed| ensures CommandKey(passed[j]) != CommandKey(passed[k]) {
      assert passed[k] == rest[k - 1];
      if j > 0 {
        assert passed[j] == rest[j - 1];
      }
    }
    FreshConsKeys(history, cmds, rest);
  }

  lemma FreshConsKeys(history: set<Key>, cmds: seq<Command>, rest: seq<Command>)
    requires cmds != []
    requires KeySet(cmds[1..]) <= history + {CommandKey(cmds[0])} + KeySet(rest)
    ensures KeySet(cmds) <= history + KeySet([cmds[0]] + rest)
  {
    var passed := [cmds[0]] + rest;
    KeySetCons(cmds);
    KeySetCons(passed);
    assert passed[1..] == rest;
  }

  /** Nothing passes exactly when every key of the batch is already in the history. */
  lemma AllDuplicatesIff(history: set<Key>, cmds: seq<Command>)
    ensures Admit(history, cmds).0 == [] <==> KeySet(cmds) <= history
  {
    AdmitFresh(history, cmds);
    var passed := Admit(history, cmds).0;
    if passed == [] {
      assert KeySet(passed) == {};
    } else {
      var j :| 0 <= j < |cmds| && cmds[j] == passed[0];
      assert CommandKey(cmds[j]) in KeySet(cmds) && CommandKey(cmds[j]) !in history;
    }
  }

  /** The same batch sent twice draws nothing the second time. */
  lemma ResendDrawsNothing(history: set<Key>, cmds: seq<Command>)
    ensures Admit(Admit(history, cmds).1, cmds).0 == []
  {
    AdmitHistory(history, cmds);
    AllDuplicatesIff(Admit(history, cmds).1, cmds);
  }

  /** The id of the message that restores a saved session. */
  const RestoreId: string := "session-restore"

  // ------------------------------------------------------------ the component's state

  /**
   * The state `WhiteboardChatCombined` keeps across messages: the history of
   * drawn shapes, the commands handed to the board, whether the board was
   * asked to clear, the math elements on it and the measured canvas size.
   */
  class Board {
    var history: set<Key>
    var commands: seq<Command>
    var clearRequested: bool
    var elements: seq<MathElement>
    var width: int
    var height: int

    /** The initial state: nothing drawn, a 1000 by 800 canvas. */
    constructor()
      ensures history == {} && commands == [] && !clearRequested && elements == []
      ensures width == 1000 && height == 800
    {
      history := {};
      commands := [];
      clearRequested := false;
      elements := [];
      width := 1000;
      height := 800;
    }

    /** `updateDimensions`: the measured size of the board. */
    method Resize(newWidth: int, newHeight: int)
      modifies this
      ensures width == newWidth && height == newHeight
      ensures history == old(history) && commands == old(commands)
      ensures clearRequested == old(clearRequested) && elements == old(elements)
    {
      width := newWidth;
      height := newHeight;
    }

    /** `handleMathExtracted`: the board's elements become what the updater returns for the batch. */
    method HandleMathExtracted(expressions: seq<string>, now: nat)
      modifies this
      ensures var w, h := width, height;
        elements == old(elements) + Additions(old(elements), FormatAll(expressions, FormatLatex), now, (i: nat) => Position(i, w, h))
      ensures history == old(history) && commands == old(commands) && clearRequested == old(clearRequested)
      ensures width == old(width) && height == old(height)
    {
      var w, h := width, height;
      elements := NextElements(elements, expressions, now, FormatLatex, (i: nat) => Position(i, w, h));
    }

    /**
     * `handleMessageSent`, for a message with drawing commands. A session
     * restore refills the history with every command's key, draws them all
     * and asks for a clear. Otherwise the commands pass the history filter;
     * if any pass they become the board's commands, and a clearing message
     * then also empties the history; if none pass nothing changes.
     */
    method HandleMessageSent(id: string, drawingCommands: Option<seq<Command>>, clearCanvas: bool)
      modifies this
      ensures elements == old(elements) && width == old(width) && height == old(height)
      ensures drawingCommands.None? || drawingCommands.value == [] ==>
        history == old(history) && commands == old(commands) && clearRequested == old(clearRequested)
      ensures drawingCommands.Some? && drawingCommands.value != [] && id == RestoreId ==>
        history == KeySet(drawingCommands.value) && commands == drawingCommands.value && clearRequested
      ensures drawingCommands.Some? && drawingCommands.value != [] && id != RestoreId ==>
        var passed := Admit(old(history), drawingCommands.value).0;
        if passed == [] then
          history == old(history) && commands == old(commands) && clearRequested == old(clearRequested)
        else
          && commands == passed
          && history == (if clearCanvas then {} else old(history) + KeySet(drawingCommands.value))
          && clearRequested == (old(clearRequested) || clearCanvas)
    {
      if drawingCommands.None? || drawingCommands.value == [] {
        return;
      }
      var cmds := drawingCommands.value;
      if id == RestoreId {
        history := {};
        clearRequested := true;
        for i := 0 to |cmds|
          invariant history == KeySet(cmds[..i])
          invariant clearRequested && elements == old(elements) && width == old(width) && height == old(height)
        {
          KeySetSnoc(cmds, i);
          history := history + {CommandKey(cmds[i])};
        }
        assert cmds[..|cmds|] == cmds;
        commands := cmds;
      } else {
        var newCommands: seq<Command> := [];
        for i := 0 to |cmds|
          invariant newCommands + Admit(history, cmds[i..]).0 == Admit(old(history), cmds).0
          invariant Admit(history, cmds[i..]).1 == Admit(old(history), cmds).1
          invariant commands == old(commands) && clearRequested == old(clearRequested)
          invariant elements == old(elements) && width == old(width) && height == old(height)
        {
          assert cmds[i..][1..] == cmds[i + 1..];
          var commandHash := CommandKey(cmds[i]);
          if commandHash !in history {
            history := history + {commandHash};
            newCommands := newCommands + [cmds[i]];
          }
        }
        AdmitHistory(old(history), cmds);
        AllDuplicatesIff(old(history), cmds);
        if |newCommands| > 0 {
          commands := newCommands;
          if clearCanvas {
            clearRequested := true;
            history := {};
          }
        }
      }
    }
  }
}
