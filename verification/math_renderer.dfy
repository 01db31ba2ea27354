/**
 * Segmentation of a chat message for display: the text between delimited
 * math expressions is kept as text, and each expression becomes an inline
 * or a block math part holding its trimmed body.
 */
module MathRenderer {
  import opened Strings
  import opened MathExtractor

  /** A piece of the message: plain text, or a delimited expression with its delimiters. */
  datatype Segment = Gap(text: string) | Delimited(open: string, body: string, close: string)

  function Raw(seg: Segment): string {
    match seg
    case Gap(t) => t
    case Delimited(o, b, c) => o + b + c
  }

  function Flatten(segs: seq<Segment>): string {
    if segs == [] then "" else Raw(segs[0]) + Flatten(segs[1..])
  }

  /** The text before a match, when there is some. */
  function GapBefore(s: string, i: nat, j: nat): (r: seq<Segment>)
    requires i <= j <= |s|
    ensures r == [] <==> i == j
  {
    if i < j then [Gap(s[i..j])] else []
  }

  function MatchSegment(s: string, m: MathMatch): Segment
    requires WellFormed(s, m)
  {
    Delimited(Opener(s, m), Body(s, m), Closer(s, m))
  }

  /** The segments of `s[i..]`: gaps and matches in source order, as the global scan finds them. */
  function SegmentsFrom(s: string, i: nat): seq<Segment>
    requires i <= |s|
    decreases |s| - i
  {
    match NextMatch(s, i)
    case None => GapBefore(s, i, |s|)
    case Some(m) => GapBefore(s, i, m.start) + [MatchSegment(s, m)] + SegmentsFrom(s, m.end)
  }

  lemma FlattenConcat(a: seq<Segment>, b: seq<Segment>)
    ensures Flatten(a + b) == Flatten(a) + Flatten(b)
  {
    if a == [] {
      assert a + b == b;
    } else {
      assert (a + b)[0] == a[0] && (a + b)[1..] == a[1..] + b;
      FlattenConcat(a[1..], b);
    }
  }

  /** A match: the text before it, the match, and the segments after it. */
  lemma SegmentsStep(s: string, i: nat, m: MathMatch)
    requires i <= |s| && NextMatch(s, i) == Some(m)
    ensures WellFormed(s, m) && i <= m.start && i < m.end
    ensures SegmentsFrom(s, i) == GapBefore(s, i, m.start) + [MatchSegment(s, m)] + SegmentsFrom(s, m.end)
  {
  }

  /** No more matches: the rest of the text, if any. */
  lemma SegmentsEnd(s: string, i: nat)
    requires i <= |s| && NextMatch(s, i).None?
    ensures SegmentsFrom(s, i) == GapBefore(s, i, |s|)
  {
  }

  lemma FlattenGap(s: string, i: nat, j: nat)
    requires i <= j <= |s|
    ensures Flatten(GapBefore(s, i, j)) == s[i..j]
  {
    if i < j {
      FlattenSingle(Gap(s[i..j]));
    }
  }

  lemma FlattenMatch(s: string, m: MathMatch)
    requires WellFormed(s, m)
    ensures Flatten([MatchSegment(s, m)]) == s[m.start..m.end]
  {
    FlattenSingle(MatchSegment(s, m));
    SliceThree(s, m.start, m.bodyStart, m.bodyEnd, m.end);
  }

  lemma FlattenSingle(seg: Segment)
    ensures Flatten([seg]) == Raw(seg)
  {
    assert [seg][1..] == [];
  }

  lemma SliceThree(s: string, a: nat, b: nat, c: nat, d: nat)
    requires a <= b <= c <= d <= |s|
    ensures s[a..d] == s[a..b] + s[b..c] + s[c..d]
  {
  }

  /** The gaps and the matched expressions, delimiters included, put back together give the text exactly. */
  lemma {:induction false} Coverage(s: string, i: nat)
    requires i <= |s|
    ensures Flatten(SegmentsFrom(s, i)) == s[i..]
    decreases |s| - i
  {
    var next := NextMatch(s, i);
    if next.None? {
      SegmentsEnd(s, i);
      FlattenGap(s, i, |s|);
    } else {
      var m := next.value;
      SegmentsStep(s, i, m);
      Coverage(s, m.end);
      var gap := GapBefore(s, i, m.start);
      FlattenConcat(gap + [MatchSegment(s, m)], SegmentsFrom(s, m.end));
      FlattenConcat(gap, [MatchSegment(s, m)]);
      FlattenGap(s, i, m.start);
      FlattenMatch(s, m);
      SliceSplit(s, i, m.start, m.end);
    }
  }

  lemma SliceSplit(s: string, i: nat, j: nat, k: nat)
    requires i <= j <= k <= |s|
    ensures s[i..] == s[i..j] + s[j..k] + s[k..]
  {
  }

  /** Text segments are never empty, and each is followed by an expression, never by more text. */
  predicate Alternating(segs: seq<Segment>) {
    forall k | 0 <= k < |segs| :: segs[k].Gap? ==>
      segs[k].text != "" && (k + 1 < |segs| ==> segs[k + 1].Delimited?)
  }

  /** Text before an expression followed by alternating segments alternates. */
  lemma AlternatingStep(gap: seq<Segment>, x: Segment, rest: seq<Segment>)
    requires gap == [] || (|gap| == 1 && gap[0].Gap? && gap[0].text != "")
    requires x.Delimited? && Alternating(rest)
    ensures Alternating(gap + [x] + rest)
  {
    var segs := gap + [x] + rest;
    forall k | 0 <= k < |segs| && segs[k].Gap?
      ensures segs[k].text != "" && (k + 1 < |segs| ==> segs[k + 1].Delimited?)
    {
      if k < |gap| {
        assert segs[k + 1] == x;
      } else {
        assert segs[k] == rest[k - |gap| - 1];
        if k + 1 < |segs| {
          assert segs[k + 1] == rest[k + 1 - |gap| - 1];
        }
      }
    }
  }

  lemma {:induction false} GapsAlternate(s: string, i: nat)
    requires i <= |s|
    ensures Alternating(SegmentsFrom(s, i))
    decreases |s| - i
  {
    var next := NextMatch(s, i);
    if next.None? {
      SegmentsEnd(s, i);
    } else {
      var m := next.value;
      SegmentsStep(s, i, m);
      GapsAlternate(s, m.end);
      AlternatingStep(GapBefore(s, i, m.start), MatchSegment(s, m), SegmentsFrom(s, m.end));
    }
  }

  // ------------------------------------------------------------ rendering

  /** What is shown: text, or math with its trimmed body, displayed as a block or inline. */
  datatype Part = TextPart(text: string) | MathPart(math: string, block: bool)

  /** Block math is `\[ … \]` or `$$ … $$`; any other pairing of delimiters is inline. */
  predicate IsBlock(open: string, close: string) {
    (open == "\\[" && close == "\\]") || (open == "$$" && close == "$$")
  }

  /** A math part shows the body trimmed. */
  function Shown(body: string, block: bool): Part {
    MathPart(Trim(body), block)
  }

  function RenderSegment(seg: Segment): Part {
    match seg
    case Gap(t) => TextPart(t)
    case Delimited(o, b, c) => Shown(b, IsBlock(o, c))
  }

  function RenderAll(segs: seq<Segment>): (r: seq<Part>)
    ensures |r| == |segs|
  {
    if segs == [] then [] else [RenderSegment(segs[0])] + RenderAll(segs[1..])
  }

  lemma RenderAllConcat(a: seq<Segment>, b: seq<Segment>)
    ensures RenderAll(a + b) == RenderAll(a) + RenderAll(b)
  {
    if a == [] {
      assert a + b == b;
    } else {
      assert (a + b)[0] == a[0] && (a + b)[1..] == a[1..] + b;
      RenderAllConcat(a[1..], b);
    }
  }

  lemma RenderAllIndex(segs: seq<Segment>, k: nat)
    requires k < |segs|
    ensures RenderAll(segs)[k] == RenderSegment(segs[k])
  {
    if k > 0 {
      RenderAllIndex(segs[1..], k - 1);
    }
  }

  /** `renderMathContent`: empty content is a single empty text; otherwise the rendered segments, or the content itself when there are none. */
  function Rendered(content: string): seq<Part> {
    if content == "" then [TextPart("")]
    else
      var parts := RenderAll(SegmentsFrom(content, 0));
      if parts == [] then [TextPart(content)] else parts
  }

  /** One step of the scan. */
  lemma SegmentStep(s: string, i: nat, m: MathMatch)
    requires i <= |s| && NextMatch(s, i) == Some(m)
    ensures WellFormed(s, m) && i <= m.start && i < m.end
    ensures RenderAll(SegmentsFrom(s, i))
      == (if i < m.start then [TextPart(s[i..m.start])] else []) + [RenderSegment(MatchSegment(s, m))]
         + RenderAll(SegmentsFrom(s, m.end))
  {
    SegmentsStep(s, i, m);
    var gap := GapBefore(s, i, m.start);
    RenderAllConcat(gap + [MatchSegment(s, m)], SegmentsFrom(s, m.end));
    RenderAllConcat(gap, [MatchSegment(s, m)]);
    RenderGap(s, i, m.start);
    RenderSingle(MatchSegment(s, m));
  }

  lemma RenderSingle(seg: Segment)
    ensures RenderAll([seg]) == [RenderSegment(seg)]
  {
    assert [seg][1..] == [];
  }

  /** The text after the last match, when there is some. */
  lemma RenderEnd(s: string, i: nat)
    requires i <= |s| && NextMatch(s, i).None?
    ensures RenderAll(SegmentsFrom(s, i)) == if i < |s| then [TextPart(s[i..])] else []
  {
    SegmentsEnd(s, i);
    if i < |s| {
      assert s[i..|s|] == s[i..];
      RenderSingle(Gap(s[i..]));
    }
  }

  lemma RenderGap(s: string, i: nat, j: nat)
    requires i <= j <= |s|
    ensures RenderAll(GapBefore(s, i, j)) == if i < j then [TextPart(s[i..j])] else []
  {
    if i < j {
      RenderSingle(Gap(s[i..j]));
    }
  }

  /** The scan of `renderMathContent`, pushing the text before each match, then the match, then the text after the last. */
  method RenderMathContent(content: string) returns (parts: seq<Part>)
    ensures parts == Rendered(content)
  {
    if content == "" {
      return [TextPart(content)];
    }
    parts := [];
    var lastIndex := 0;
    while true
      invariant lastIndex <= |content|
      invariant parts + RenderAll(SegmentsFrom(content, lastIndex)) == RenderAll(SegmentsFrom(content, 0))
      decreases |content| - lastIndex
    {
      var found := NextMatch(content, lastIndex);
      if found.None? {
        RenderEnd(content, lastIndex);
        break;
      }
      var m := found.value;
      SegmentStep(content, lastIndex, m);
      ghost var rest := RenderAll(SegmentsFrom(content, m.end));
      var textBefore: seq<Part> := [];
      if m.start > lastIndex {
        textBefore := [TextPart(content[lastIndex..m.start])];
      }
      var startDelim := content[m.start..m.bodyStart];
      var endDelim := content[m.bodyEnd..m.end];
      var isBlockMath := IsBlock(startDelim, endDelim);
      var piece := Shown(content[m.bodyStart..m.bodyEnd], isBlockMath);
      assert piece == RenderSegment(MatchSegment(content, m));
      Regroup(parts, textBefore, piece, rest);
      parts := parts + textBefore + [piece];
      lastIndex := m.end;
    }
    if lastIndex < |content| {
      parts := parts + [TextPart(content[lastIndex..])];
    }
    if parts == [] {
      parts := [TextPart(content)];
    }
  }

  /** Text without any delimited expression is shown as it is, in one piece. */
  lemma NoDelimitersUnchanged(content: string)
    requires content != "" && forall p | 0 <= p <= |content| :: MatchAt(content, p).None?
    ensures Rendered(content) == [TextPart(content)]
  {
    RenderEnd(content, 0);
  }

  /** The non-empty math parts of the rendering, in order. */
  function MathOf(parts: seq<Part>): seq<string> {
    if parts == [] then []
    else (if parts[0].MathPart? && parts[0].math != "" then [parts[0].math] else []) + MathOf(parts[1..])
  }

  lemma MathOfConcat(a: seq<Part>, b: seq<Part>)
    ensures MathOf(a + b) == MathOf(a) + MathOf(b)
  {
    if a == [] {
      assert a + b == b;
    } else {
      assert (a + b)[0] == a[0] && (a + b)[1..] == a[1..] + b;
      MathOfConcat(a[1..], b);
    }
  }

  lemma Regroup<T>(a: seq<T>, b: seq<T>, x: T, c: seq<T>)
    ensures a + (b + [x] + c) == (a + b + [x]) + c
  {
  }

  /** The math shown for text before an expression, the expression, and what follows. */
  lemma MathOfStep(before: seq<Part>, x: Part, rest: seq<Part>, kept: seq<string>, bodies: seq<string>)
    requires MathOf(before) == [] && MathOf([x]) == kept && MathOf(rest) == bodies
    ensures MathOf(before + [x] + rest) == kept + bodies
  {
    MathOfConcat(before + [x], rest);
    MathOfConcat(before, [x]);
  }

  /** A math part contributes its body exactly when the trimmed body is not empty. */
  lemma MathOfShown(body: string, block: bool)
    ensures MathOf([Shown(body, block)]) == Kept(body)
  {
    assert [Shown(body, block)][1..] == [];
  }

  lemma MathOfText(t: string)
    ensures MathOf([TextPart(t)]) == []
  {
    assert [TextPart(t)][1..] == [];
  }

  /** The renderer shows as math exactly the expressions the extractor returns, in the same order. */
  lemma {:induction false} RendererAgreesWithExtractor(s: string, i: nat)
    requires i <= |s|
    ensures MathOf(RenderAll(SegmentsFrom(s, i))) == BodiesFrom(s, i)
    decreases |s| - i
  {
    var next := NextMatch(s, i);
    if next.None? {
      RenderEnd(s, i);
      BodiesEnd(s, i);
      if i < |s| {
        MathOfText(s[i..]);
      }
    } else {
      var m := next.value;
      SegmentStep(s, i, m);
      BodiesStep(s, i, m);
      RendererAgreesWithExtractor(s, m.end);
      var before: seq<Part> := if i < m.start then [TextPart(s[i..m.start])] else [];
      if i < m.start {
        MathOfText(s[i..m.start]);
      }
      MathOfShown(Body(s, m), IsBlock(Opener(s, m), Closer(s, m)));
      MathOfStep(before, RenderSegment(MatchSegment(s, m)), RenderAll(SegmentsFrom(s, m.end)),
        Kept(Body(s, m)), BodiesFrom(s, m.end));
    }
  }
}
