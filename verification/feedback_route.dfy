/**
 * The feedback endpoint: checks its two inputs, asks the completion service
 * for a step-by-step analysis, runs the local feedback heuristics, and
 * enriches their guidance and encouragement with the MISCONCEPTIONS and
 * CORRECT PARTS sections of the service's analysis.
 */
module FeedbackRoute {
  import opened Strings
  import opened Types
  import opened Feedback

  // ------------------------------------------------------------ section headers

  /**
   * Where the capture of `/WORDS?:/i` starts when the header begins at `p`
   * of the lowercased text: the plural form is tried first, as the greedy
   * `S?` does.
   */
  function HeaderStart(lower: string, word: string, p: nat): (r: Option<nat>)
    ensures r.Some? ==> r.value <= |lower|
    ensures r.Some? <==> At(lower, word + "s:", p) || At(lower, word + ":", p)
  {
    if At(lower, word + "s:", p) then Some(p + |word| + 2)
    else if At(lower, word + ":", p) then Some(p + |word| + 1)
    else None
  }

  /** The leftmost header at or after `i`: where it starts and where its capture starts. */
  function FindHeader(lower: string, word: string, i: nat): (r: Option<(nat, nat)>)
    requires i <= |lower|
    ensures r.None? <==> forall q | i <= q <= |lower| :: HeaderStart(lower, word, q).None?
    ensures r.Some? ==>
      && i <= r.value.0 <= |lower| && HeaderStart(lower, word, r.value.0) == Some(r.value.1)
      && forall q | i <= q < r.value.0 :: HeaderStart(lower, word, q).None?
    decreases |lower| - i
  {
    match HeaderStart(lower, word, i)
    case Some(c) => Some((i, c))
    case None => if i == |lower| then None else FindHeader(lower, word, i + 1)
  }

  /** Where the lazy `([\s\S]*?)(?=CORRECT|$)` stops: the first "correct" (any case) at or after `c`, else the end. */
  function CaptureEnd(lower: string, c: nat): (e: nat)
    requires c <= |lower|
    ensures c <= e <= |lower|
    ensures e == |lower| || At(lower, "correct", e)
    ensures forall k | c <= k < e :: !At(lower, "correct", k)
    decreases |lower| - c
  {
    if c == |lower| || At(lower, "correct", c) then c else CaptureEnd(lower, c + 1)
  }

  /** The capture of `/MISCONCEPTIONS?:([\s\S]*?)(?=CORRECT|$)/i`, when the header occurs. */
  function MisconceptionText(ai: string): (r: Option<string>)
    ensures r.Some? ==> |r.value| <= |ai|
  {
    var lower := ToLower(ai);
    match FindHeader(lower, "misconception", 0)
    case None => None
    case Some((_, c)) => Some(ai[c..CaptureEnd(lower, c)])
  }

  /** The capture of `/CORRECT PARTS?:([\s\S]*?)$/i`: everything after the first such header. */
  function CorrectPartsText(ai: string): (r: Option<string>)
    ensures r.Some? ==> EndsWith(ai, r.value)
  {
    match FindHeader(ToLower(ai), "correct part", 0)
    case None => None
    case Some((_, c)) => Some(ai[c..])
  }

  const MisconceptionLead: string := "\n\nI noticed a potential misconception: "
  const MisconceptionClose: string := ". Let's address this together."
  const PraiseLead: string := " Great job on: "

  /**
   * `enhanceFeedbackWithAI`: the misconception sentence is appended to the
   * guidance whenever the header occurs; the praise for the correct parts
   * is appended only when their text is not blank; everything else is
   * copied.
   */
  function Enhance(fa: FeedbackAnalysis, ai: string): (r: FeedbackAnalysis)
    ensures r.hasError == fa.hasError && r.errorAnalyses == fa.errorAnalyses
      && r.misconception == fa.misconception && r.nextSteps == fa.nextSteps
    ensures MisconceptionText(ai).None? ==> r.guidance == fa.guidance
    ensures MisconceptionText(ai).Some? ==>
      r.guidance == fa.guidance + MisconceptionLead + Trim(MisconceptionText(ai).value) + MisconceptionClose
    ensures r.encouragement == fa.encouragement <==> CorrectPartsText(ai).None? || Trim(CorrectPartsText(ai).value) == ""
    ensures r.encouragement != fa.encouragement ==>
      r.encouragement == fa.encouragement + PraiseLead + Trim(CorrectPartsText(ai).value)
  {
    var guidance := match MisconceptionText(ai)
      case Some(m) => fa.guidance + MisconceptionLead + Trim(m) + MisconceptionClose
      case None => fa.guidance;
    var encouragement := match CorrectPartsText(ai)
      case Some(t) => if Trim(t) != "" then fa.encouragement + PraiseLead + Trim(t) else fa.encouragement
      case None => fa.encouragement;
    fa.(guidance := guidance, encouragement := encouragement)
  }

  /** A misconception is captured exactly when the header occurs somewhere, in any case. */
  lemma MisconceptionFoundIff(ai: string)
    ensures MisconceptionText(ai).Some? <==>
      exists p | 0 <= p <= |ai| :: At(ToLower(ai), "misconceptions:", p) || At(ToLower(ai), "misconception:", p)
  {
    var lower := ToLower(ai);
    assert "misconception" + "s:" == "misconceptions:";
    assert "misconception" + ":" == "misconception:";
    if MisconceptionText(ai).Some? {
      var p := FindHeader(lower, "misconception", 0).value.0;
      assert At(lower, "misconceptions:", p) || At(lower, "misconception:", p);
    }
    forall p | 0 <= p <= |ai| && (At(lower, "misconceptions:", p) || At(lower, "misconception:", p))
      ensures MisconceptionText(ai).Some?
    {
      assert HeaderStart(lower, "misconception", p).Some?;
    }
  }

  /** An occurrence inside a slice is an occurrence in the whole string. */
  lemma AtInSlice(s: string, c: nat, e: nat, p: string, k: nat)
    requires c <= e <= |s| && At(s[c..e], p, k)
    ensures At(s, p, c + k)
  {
    forall m | 0 <= m < |p| ensures s[c + k..c + k + |p|][m] == p[m] {
      assert s[c + k..c + k + |p|][m] == s[c..e][k..k + |p|][m];
    }
    assert s[c + k..c + k + |p|] == p;
  }

  /** The captured misconception stops before the first "correct", so it never contains that word in any case. */
  lemma MisconceptionExcludesCorrect(ai: string)
    requires MisconceptionText(ai).Some?
    ensures !Contains(ToLower(MisconceptionText(ai).value), "correct")
  {
    var lower := ToLower(ai);
    var c := FindHeader(lower, "misconception", 0).value.1;
    var e := CaptureEnd(lower, c);
    ToLowerSlice(ai, c, e);
    var lm := lower[c..e];
    assert ToLower(MisconceptionText(ai).value) == lm;
    forall k | 0 <= k <= |lm| - 7 ensures !At(lm, "correct", k) {
      if At(lm, "correct", k) {
        AtInSlice(lower, c, e, "correct", k);
      }
    }
  }

  /**
   * The guidance grows even when the misconception text is blank: an
   * analysis that ends right after the header still appends the sentence.
   */
  lemma BlankMisconceptionStillAppended(fa: FeedbackAnalysis)
    ensures Enhance(fa, "MISCONCEPTIONS:").guidance == fa.guidance + MisconceptionLead + MisconceptionClose
  {
    var ai := "MISCONCEPTIONS:";
    assert ToLower(ai) == "misconceptions:";
    assert HeaderStart(ToLower(ai), "misconception", 0) == Some(15);
    assert MisconceptionText(ai) == Some("");
  }

  /** The praise is appended exactly when a correct-parts section exists and holds something other than white space. */
  lemma PraiseIffCorrectPartsNotBlank(fa: FeedbackAnalysis, ai: string)
    ensures Enhance(fa, ai).encouragement != fa.encouragement <==>
      CorrectPartsText(ai).Some? && exists k | 0 <= k < |CorrectPartsText(ai).value| :: !IsSpace(CorrectPartsText(ai).value[k])
  {
    if CorrectPartsText(ai).Some? {
      TrimEmptyIff(CorrectPartsText(ai).value);
    }
  }

  // ------------------------------------------------------------ the request

  const MissingInput: string := "Student response and problem context are required"
  const AnalysisFailed: string := "Failed to analyze feedback"

  datatype FeedbackReply =
    | Analyzed(feedback: FeedbackAnalysis, analysis: string)
    | Failure(status: nat, error: string)

  /** `!value`: an absent or empty input. */
  predicate Blank(value: Option<string>) {
    value.None? || value.value == ""
  }

  /**
   * `POST`: a blank student response or problem context is refused with 400
   * before the completion service is asked; a thrown call becomes 500;
   * otherwise the local feedback is enriched with the returned analysis
   * (empty when the reply has no content). `complete` is the service's reply
   * and `calls` the number of calls made.
   */
  method Post(studentResponse: Option<string>, problemContext: Option<string>, complete: Reply, pick: nat)
    returns (r: FeedbackReply, calls: nat)
    requires pick < |Encouragements|
    ensures Blank(studentResponse) || Blank(problemContext) <==> r == Failure(400, MissingInput) && calls == 0
    ensures !Blank(studentResponse) && !Blank(problemContext) ==> calls == 1
    ensures !Blank(studentResponse) && !Blank(problemContext) && complete.Thrown? ==> r == Failure(500, AnalysisFailed)
    ensures !Blank(studentResponse) && !Blank(problemContext) && complete.Completion? ==>
      r.Analyzed? && r.analysis == complete.content
      && !r.feedback.hasError && r.feedback.errorAnalyses == [] && r.feedback.nextSteps == DefaultNextSteps
      && r.feedback == Enhance(FeedbackAnalysis(false, [], None, Praise, NoErrorEncouragement, DefaultNextSteps), complete.content)
  {
    if Blank(studentResponse) || Blank(problemContext) {
      return Failure(400, MissingInput), 0;
    }
    calls := 1;
    match complete {
      case Thrown(_) =>
        r := Failure(500, AnalysisFailed);
      case Completion(analysis) =>
        var feedbackAnalysis := AnalyzeFeedback(studentResponse.value, pick);
        r := Analyzed(Enhance(feedbackAnalysis, analysis), analysis);
    }
  }
}
