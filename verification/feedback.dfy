/**
 * Feedback heuristics: splitting a student's answer into steps, classifying
 * an error by keyword patterns, looking up common misconceptions in a fixed
 * table, and assembling the feedback record with guidance, encouragement
 * and next steps.
 */
module Feedback {
  import opened Strings
  import opened Regex
  import opened Types

  // ------------------------------------------------------------ steps

  const NotDigit: CharClass := NoneOf("0123456789")

  /**
   * The end of a match of `/\d+[.)]\s*[^\d]+/` starting at `p`: the digit run
   * from `p`, then '.' or ')', then the run of non-digits after it, which must
   * not be empty (the spaces of `\s*` are non-digits too).
   */
  function StepMatchAt(s: string, p: nat): (r: Option<nat>)
    requires p <= |s|
    ensures r.Some? ==> p < r.value <= |s|
  {
    if p == |s| || !IsDigit(s[p]) then None
    else
      var e := RunEnd(DigitClass, s, p);
      if e == |s| || s[e] !in ".)" then None
      else
        var q := RunEnd(NotDigit, s, e + 1);
        if q == e + 1 then None else Some(q)
  }

  /** `s.match(/\d+[.)]\s*[^\d]+/g)` from position `i` on: the matches, left to right, each scan resuming after the last. */
  function NumberedMatchesFrom(s: string, i: nat): (r: seq<string>)
    requires i <= |s|
    ensures forall k :: 0 <= k < |r| ==> |r[k]| > 0 && IsDigit(r[k][0])
    decreases |s| - i
  {
    if i == |s| then []
    else match StepMatchAt(s, i)
      case Some(q) => [s[i..q]] + NumberedMatchesFrom(s, q)
      case None => NumberedMatchesFrom(s, i + 1)
  }

  /** `step.replace(/^\d+[.)]\s*\/, '').trim()`. */
  function StripNumber(step: string): (r: string)
    ensures r == [] || (!IsSpace(r[0]) && !IsSpace(r[|r| - 1]))
  {
    var e := RunEnd(DigitClass, step, 0);
    if e > 0 && e < |step| && step[e] in ".)" then Trim(step[RunEnd(SpaceClass, step, e + 1)..])
    else Trim(step)
  }

  /** The lines of `s` that are not blank, trimmed. */
  function NonBlankLines(lines: seq<string>): (r: seq<string>)
    ensures |r| <= |lines|
    ensures forall k :: 0 <= k < |r| ==> r[k] != "" && !IsSpace(r[k][0]) && !IsSpace(r[k][|r[k]| - 1])
  {
    if lines == [] then []
    else
      var t := Trim(lines[0]);
      (if t != "" then [t] else []) + NonBlankLines(lines[1..])
  }

  /**
   * `parseSteps`: more than one numbered match gives the matches without
   * their numbers; otherwise more than one non-blank line gives the trimmed
   * lines; otherwise the whole answer, trimmed, is the one step.
   */
  function ParseSteps(response: string): (r: seq<string>)
    ensures |r| >= 1
    ensures |r| == 1 ==> r == [Trim(response)]
    ensures |NumberedMatchesFrom(response, 0)| > 1 ==>
      |r| == |NumberedMatchesFrom(response, 0)|
      && forall k :: 0 <= k < |r| ==> r[k] == StripNumber(NumberedMatchesFrom(response, 0)[k])
    ensures |NumberedMatchesFrom(response, 0)| <= 1 && |r| > 1 ==>
      r == NonBlankLines(Split(response, '\n')) && forall k :: 0 <= k < |r| ==> r[k] != ""
  {
    var numbered := NumberedMatchesFrom(response, 0);
    if |numbered| > 1 then seq(|numbered|, k requires 0 <= k < |numbered| => StripNumber(numbered[k]))
    else
      var lines := NonBlankLines(Split(response, '\n'));
      if |lines| > 1 then lines else [Trim(response)]
  }

  /** Every numbered match is matched by the pattern `\d+[.)]\s*[^\d]+`, which `StepMatchAt` scans for greedily. */
  const StepPattern: Re := Seq([Digits1, Class(OneOf(".)")), Spaces, Plus(Class(NotDigit))])

  lemma StepMatchIsPatternMatch(s: string, p: nat)
    requires p <= |s| && StepMatchAt(s, p).Some?
    ensures Matches(StepPattern, s, p, StepMatchAt(s, p).value)
  {
    var e := RunEnd(DigitClass, s, p);
    var q := StepMatchAt(s, p).value;
    RunMatches(DigitClass, s, p + 1, e);
    assert Matches(Class(DigitClass), s, p, p + 1);
    CatMatches(Class(DigitClass), Star(Class(DigitClass)), s, p, p + 1, e);
    assert Matches(Class(OneOf(".)")), s, e, e + 1);
    assert Matches(Spaces, s, e + 1, e + 1);
    RunMatches(NotDigit, s, e + 2, q);
    assert Matches(Class(NotDigit), s, e + 1, e + 2);
    CatMatches(Class(NotDigit), Star(Class(NotDigit)), s, e + 1, e + 2, q);
    CatMatches(Spaces, Plus(Class(NotDigit)), s, e + 1, e + 1, q);
    assert Seq([Spaces, Plus(Class(NotDigit))]) == Cat(Spaces, Plus(Class(NotDigit)));
    CatMatches(Class(OneOf(".)")), Seq([Spaces, Plus(Class(NotDigit))]), s, e, e + 1, q);
    assert Seq([Class(OneOf(".)")), Spaces, Plus(Class(NotDigit))])
      == Cat(Class(OneOf(".)")), Seq([Spaces, Plus(Class(NotDigit))]));
    CatMatches(Digits1, Seq([Class(OneOf(".)")), Spaces, Plus(Class(NotDigit))]), s, p, e, q);
  }

  /** An answer on one line without two numbered steps is a single step: the whole answer, trimmed. */
  lemma SingleLineIsOneStep(response: string)
    requires '\n' !in response && |NumberedMatchesFrom(response, 0)| <= 1
    ensures ParseSteps(response) == [Trim(response)]
  {
    assert IndexOfChar(response, '\n', 0).None?;
    assert Split(response, '\n') == [response];
    assert |NonBlankLines([response])| <= 1;
  }

  /** `analyzeSteps`: the parsed steps, with no step yet judged correct or incorrect. */
  function AnalyzeSteps(response: string): (r: StepAnalysis)
    ensures r.steps == ParseSteps(response) && r.correctSteps == [] && r.incorrectSteps == []
  {
    StepAnalysis(ParseSteps(response), None, [], [])
  }

  // ------------------------------------------------------------ error classification

  /** `\d+\s*[+\-*\/]\s*\d+\s*=\s*\d+`: a worked arithmetic equation. */
  const EquationPattern: Re :=
    Seq([Digits1, Spaces, Class(OneOf("+-*/")), Spaces, Digits1, Spaces, Str("="), Spaces, Digits1])
  /** `\b\d+\s*[+\-*\/=]`: a number at a word boundary followed by an operator or '='. */
  const OperandPattern: Re := Seq([WordBoundary, Digits1, Spaces, Class(OneOf("+-*/="))])

  const CalculationWords: seq<string> := ["calculation", "arithmetic", "compute", "calculate"]
  const ConceptWords: seq<string> := ["concept", "understand", "meaning", "definition", "principle"]
  const ConfusionPhrases: seq<string> := ["doesn't make sense", "confused", "wrong idea"]
  const ProcedureWords: seq<string> := ["method", "approach", "procedure", "process", "steps", "algorithm"]
  const WrongMethodPhrases: seq<string> := ["wrong way", "incorrect method", "should use"]

  /** The calculation test, on the lowercased error location only. */
  predicate LooksLikeCalculation(lowerError: string) {
    Test(EquationPattern, lowerError) || Test(Words(CalculationWords), lowerError) || Test(OperandPattern, lowerError)
  }

  /** `classifyError`: calculation, then conceptual, then procedural, else unknown. */
  function ClassifyError(errorLocation: string, studentResponse: string): ErrorType {
    var lowerResponse := ToLower(studentResponse);
    var lowerError := ToLower(errorLocation);
    if LooksLikeCalculation(lowerError) then Calculation
    else if Test(Words(ConceptWords), lowerError) || Test(Words(ConfusionPhrases), lowerResponse) then Conceptual
    else if Test(Words(ProcedureWords), lowerError) || Test(Words(WrongMethodPhrases), lowerResponse) then Procedural
    else UnknownError
  }

  /**
   * The precedence of the classes, with the keyword tests read as substring
   * tests: conceptual only when the calculation test fails, procedural only
   * when both earlier tests fail.
   */
  lemma ClassifyPrecedence(errorLocation: string, studentResponse: string)
    ensures var lowerError := ToLower(errorLocation);
      var lowerResponse := ToLower(studentResponse);
      var conceptual := ContainsAny(lowerError, ConceptWords) || ContainsAny(lowerResponse, ConfusionPhrases);
      var procedural := ContainsAny(lowerError, ProcedureWords) || ContainsAny(lowerResponse, WrongMethodPhrases);
      && (ClassifyError(errorLocation, studentResponse) == Calculation <==> LooksLikeCalculation(lowerError))
      && (ContainsAny(lowerError, CalculationWords) ==> ClassifyError(errorLocation, studentResponse) == Calculation)
      && (ClassifyError(errorLocation, studentResponse) == Conceptual <==> !LooksLikeCalculation(lowerError) && conceptual)
      && (ClassifyError(errorLocation, studentResponse) == Procedural <==>
           !LooksLikeCalculation(lowerError) && !conceptual && procedural)
      && (ClassifyError(errorLocation, studentResponse) == UnknownError <==>
           !LooksLikeCalculation(lowerError) && !conceptual && !procedural)
  {
    var lowerError := ToLower(errorLocation);
    var lowerResponse := ToLower(studentResponse);
    TestWordsIffContainsAny(CalculationWords, lowerError);
    TestWordsIffContainsAny(ConceptWords, lowerError);
    TestWordsIffContainsAny(ConfusionPhrases, lowerResponse);
    TestWordsIffContainsAny(ProcedureWords, lowerError);
    TestWordsIffContainsAny(WrongMethodPhrases, lowerResponse);
  }

  /** Whether an error is a calculation error depends on the error location alone, not on the answer. */
  lemma CalculationIgnoresResponse(errorLocation: string, response1: string, response2: string)
    ensures ClassifyError(errorLocation, response1) == Calculation <==> ClassifyError(errorLocation, response2) == Calculation
  {
  }

  // ------------------------------------------------------------ misconceptions

  /** A pattern and whether it carries the `i` flag. */
  datatype Pattern = Pattern(re: Re, ignoreCase: bool)

  predicate PatternTest(p: Pattern, s: string) {
    if p.ignoreCase then TestI(p.re, s) else Test(p.re, s)
  }

  /** A table entry: the misconception's name and its patterns, tried in order. */
  datatype Entry = Entry(name: string, patterns: seq<Pattern>)

  predicate PatternFires(p: Pattern, response: string, location: string) {
    PatternTest(p, response) || PatternTest(p, location)
  }

  predicate EntryFires(e: Entry, response: string, location: string) {
    exists q | 0 <= q < |e.patterns| :: PatternFires(e.patterns[q], response, location)
  }

  /** The misconception table, in the order it is searched. */
  const Misconceptions: seq<Entry> := [
    Entry("negative-signs", [
      Pattern(Triple("negative", "negative", "positive"), true),
      Pattern(Triple("-", "-", "+"), false),
      Pattern(Pair("subtracting", "negative"), true)]),
    Entry("order-of-operations", [
      Pattern(Pair("left", "right"), true),
      Pattern(Pair("order", "operations"), true),
      Pattern(Str("pemdas"), true),
      Pattern(Str("bodmas"), true)]),
    Entry("fractions", [
      Pattern(Triple("add", "numerator", "denominator"), true),
      Pattern(Pair("multiply", "fractions"), true)]),
    Entry("equations", [
      Pattern(Pair("move", "side"), true),
      Pattern(Pair("change", "sign"), true)])
  ]

  /** The index of the first entry with a pattern that fires on the answer or the location. */
  function FirstFiring(table: seq<Entry>, response: string, location: string): (r: Option<nat>)
    ensures r.None? <==> forall t | 0 <= t < |table| :: !EntryFires(table[t], response, location)
    ensures r.Some? ==>
      && r.value < |table| && EntryFires(table[r.value], response, location)
      && forall u | 0 <= u < r.value :: !EntryFires(table[u], response, location)
    decreases |table|
  {
    if table == [] then None
    else if EntryFires(table[0], response, location) then Some(0)
    else
      var r := FirstFiring(table[1..], response, location);
      assert forall t | 1 <= t < |table| :: table[t] == table[1..][t - 1];
      if r.None? then None else Some(r.value + 1)
  }

  /** The name of the first entry that fires. */
  function FirstMisconception(table: seq<Entry>, response: string, location: string): (r: Option<string>)
    ensures r.None? <==> forall t | 0 <= t < |table| :: !EntryFires(table[t], response, location)
    ensures r.Some? ==> exists t | 0 <= t < |table| :: table[t].name == r.value && EntryFires(table[t], response, location)
  {
    match FirstFiring(table, response, location)
    case None => None
    case Some(t) => Some(table[t].name)
  }

  /** When no entry before `t` fires and entry `t` does, the search finds entry `t`. */
  lemma {:induction false} FirstMisconceptionAt(table: seq<Entry>, response: string, location: string, t: nat)
    requires t < |table| && EntryFires(table[t], response, location)
    requires forall u | 0 <= u < t :: !EntryFires(table[u], response, location)
    ensures FirstMisconception(table, response, location) == Some(table[t].name)
    decreases t
  {
    if t > 0 {
      assert !EntryFires(table[0], response, location);
      assert table[1..][t - 1] == table[t];
      forall u | 0 <= u < t - 1 ensures !EntryFires(table[1..][u], response, location) {
        assert table[1..][u] == table[u + 1];
      }
      FirstMisconceptionAt(table[1..], response, location, t - 1);
    }
  }

  const MisconceptionNames: set<string> := {"negative-signs", "order-of-operations", "fractions", "equations"}

  /** A detected misconception is always one of the four names in the table. */
  lemma DetectedNameIsKnown(response: string, location: string)
    ensures FirstMisconception(Misconceptions, response, location).Some? ==>
      FirstMisconception(Misconceptions, response, location).value in MisconceptionNames
  {
    var r := FirstFiring(Misconceptions, response, location);
    if r.Some? {
      assert r.value < 4;
    }
  }

  /** Each pattern is tried on the answer and on the location alike, so swapping the two finds the same misconception. */
  lemma {:induction false} FiresOnSwap(table: seq<Entry>, response: string, location: string)
    ensures FirstMisconception(table, response, location) == FirstMisconception(table, location, response)
    decreases |table|
  {
    assert forall e: Entry :: EntryFires(e, response, location) == EntryFires(e, location, response);
    if table != [] {
      FiresOnSwap(table[1..], response, location);
    }
  }

  /** `detectMisconception`: the entries in order, each entry's patterns in order, returning at the first that fires. */
  method DetectMisconception(table: seq<Entry>, location: string, response: string) returns (m: Option<string>)
    ensures m == FirstMisconception(table, response, location)
  {
    for t := 0 to |table|
      invariant forall u | 0 <= u < t :: !EntryFires(table[u], response, location)
    {
      var patterns := table[t].patterns;
      for q := 0 to |patterns|
        invariant forall v | 0 <= v < q :: !PatternFires(patterns[v], response, location)
      {
        if PatternTest(patterns[q], response) || PatternTest(patterns[q], location) {
          FirstMisconceptionAt(table, response, location, t);
          return Some(table[t].name);
        }
      }
    }
    return None;
  }

  // ------------------------------------------------------------ guidance, encouragement, next steps

  const Praise: string := "Great work! You're on the right track."
  const CalculationGuidance: string :=
    "I notice there might be a calculation error. Let's check your arithmetic step by step. What operation are you performing here?"
  const ConceptualGuidance: string :=
    "It looks like there might be a misunderstanding of the concept. Let's think about what this problem is really asking. "
    + "Can you explain what you understand so far?"
  const ProceduralGuidance: string :=
    "Your approach might need adjustment. Let's think about what method would work best here. "
    + "What strategies have you learned for this type of problem?"
  const ReviewGuidance: string := "Let's review this step together. Can you walk me through what you're thinking?"

  /** `generateGuidance`: praise without errors, else the text for the first error's type. */
  function GenerateGuidance(errors: seq<ErrorAnalysis>): (r: string)
    ensures errors == [] <==> r == Praise
    ensures errors != [] && errors[0].errorType == Calculation ==> r == CalculationGuidance
    ensures errors != [] && errors[0].errorType == Conceptual ==> r == ConceptualGuidance
    ensures errors != [] && errors[0].errorType == Procedural ==> r == ProceduralGuidance
    ensures errors != [] && errors[0].errorType == UnknownError ==> r == ReviewGuidance
  {
    if errors == [] then Praise
    else match errors[0].errorType
      case Calculation => CalculationGuidance
      case Conceptual => ConceptualGuidance
      case Procedural => ProceduralGuidance
      case UnknownError => ReviewGuidance
  }

  const NoErrorEncouragement: string := "Excellent thinking! You're making great progress."
  const Encouragements: seq<string> := [
    "Don't worry - mistakes help us learn! Let's work through this together.",
    "You're on the right track! Let's figure this out step by step.",
    "Great effort! Every mistake is a learning opportunity.",
    "I appreciate your persistence! Let's tackle this together."
  ]

  /** `generateEncouragement`; `pick` is the random index `Math.floor(Math.random() * 4)`. */
  function GenerateEncouragement(hasError: bool, pick: nat): (r: string)
    requires pick < |Encouragements|
    ensures !hasError <==> r == NoErrorEncouragement
    ensures hasError ==> r in Encouragements
  {
    if !hasError then NoErrorEncouragement else Encouragements[pick]
  }

  const DefaultNextSteps: seq<string> := ["Continue with the next step", "Review your work", "Check your final answer"]

  /** The three steps pushed for each error type; none for an unknown error. */
  function StepsForType(t: ErrorType): (r: seq<string>)
    ensures t == UnknownError <==> r == []
    ensures t != UnknownError ==> |r| == 3
  {
    match t
    case Calculation => ["Double-check your arithmetic", "Review the operation you're performing", "Verify each calculation step"]
    case Conceptual => ["Review the core concept", "Think about what the problem is asking", "Consider similar problems you've solved"]
    case Procedural => ["Consider alternative approaches", "Review the steps you've learned", "Think about what method fits this problem"]
    case UnknownError => []
  }

  /** `generateNextSteps`: the fixed steps without errors; else the first error's type steps, then its misconception if it has one. */
  function GenerateNextSteps(errors: seq<ErrorAnalysis>): (r: seq<string>)
    ensures errors == [] ==> r == DefaultNextSteps
    ensures errors != [] ==>
      |StepsForType(errors[0].errorType)| <= |r| && r[..|StepsForType(errors[0].errorType)|] == StepsForType(errors[0].errorType)
    ensures errors != [] ==>
      (|r| == |StepsForType(errors[0].errorType)| + 1 <==> errors[0].misconception.Some? && errors[0].misconception.value != "")
    ensures errors != [] && errors[0].misconception.Some? && errors[0].misconception.value != "" ==>
      r[|r| - 1] == "Address the misconception: " + errors[0].misconception.value
    ensures |r| <= 4
    ensures r == [] ==> errors != [] && errors[0].errorType == UnknownError
  {
    if errors == [] then DefaultNextSteps
    else
      var primaryError := errors[0];
      StepsForType(primaryError.errorType)
      + (if primaryError.misconception.Some? && primaryError.misconception.value != ""
         then ["Address the misconception: " + primaryError.misconception.value] else [])
  }

  // ------------------------------------------------------------ the analysis

  /** The error record of one incorrect step, `index` being 0-based. */
  function ErrorRecord(table: seq<Entry>, steps: seq<string>, index: nat, response: string): (r: ErrorAnalysis)
    requires index < |steps|
    ensures r.step == index + 1 && r.location == steps[index]
  {
    var step := steps[index];
    ErrorAnalysis(ClassifyError(step, response), index + 1, step, FirstMisconception(table, response, step),
                  "Error detected in step " + NatToString(index + 1))
  }

  /** The error records of the incorrect steps, in their order. */
  method CollectErrors(table: seq<Entry>, analysis: StepAnalysis, response: string) returns (errors: seq<ErrorAnalysis>)
    requires forall k :: 0 <= k < |analysis.incorrectSteps| ==> analysis.incorrectSteps[k] < |analysis.steps|
    ensures |errors| == |analysis.incorrectSteps|
    ensures forall k :: 0 <= k < |errors| ==> errors[k] == ErrorRecord(table, analysis.steps, analysis.incorrectSteps[k], response)
  {
    errors := [];
    for k := 0 to |analysis.incorrectSteps|
      invariant |errors| == k
      invariant forall m :: 0 <= m < k ==> errors[m] == ErrorRecord(table, analysis.steps, analysis.incorrectSteps[m], response)
    {
      var stepIndex := analysis.incorrectSteps[k];
      var step := analysis.steps[stepIndex];
      var errorType := ClassifyError(step, response);
      var misconception := DetectMisconception(table, step, response);
      errors := errors + [ErrorAnalysis(errorType, stepIndex + 1, step, misconception,
                                        "Error detected in step " + NatToString(stepIndex + 1))];
    }
  }

  /** The feedback record for a given step analysis. */
  method FeedbackFor(table: seq<Entry>, analysis: StepAnalysis, response: string, pick: nat) returns (r: FeedbackAnalysis)
    requires forall k :: 0 <= k < |analysis.incorrectSteps| ==> analysis.incorrectSteps[k] < |analysis.steps|
    requires pick < |Encouragements|
    ensures r.hasError <==> analysis.incorrectSteps != []
    ensures |r.errorAnalyses| == |analysis.incorrectSteps|
    ensures forall k :: 0 <= k < |r.errorAnalyses| ==>
      r.errorAnalyses[k] == ErrorRecord(table, analysis.steps, analysis.incorrectSteps[k], response)
    ensures r.misconception == if r.errorAnalyses == [] then None else r.errorAnalyses[0].misconception
    ensures r.guidance == GenerateGuidance(r.errorAnalyses)
    ensures r.encouragement == GenerateEncouragement(r.hasError, pick)
    ensures r.nextSteps == GenerateNextSteps(r.errorAnalyses)
    ensures r.errorAnalyses == [] ==> r.nextSteps == DefaultNextSteps
  {
    var errorAnalyses := CollectErrors(table, analysis, response);
    var hasError := |errorAnalyses| > 0;
    var guidance := GenerateGuidance(errorAnalyses);
    var encouragement := GenerateEncouragement(hasError, pick);
    r := FeedbackAnalysis(hasError, errorAnalyses, if errorAnalyses == [] then None else errorAnalyses[0].misconception,
                          guidance, encouragement, GenerateNextSteps(errorAnalyses));
  }

  /**
   * `analyzeFeedback`: since no step is judged incorrect yet, the analysis
   * never reports an error: praise, the no-error encouragement and the
   * three default next steps.
   */
  method AnalyzeFeedback(response: string, pick: nat) returns (r: FeedbackAnalysis)
    requires pick < |Encouragements|
    ensures !r.hasError && r.errorAnalyses == [] && r.misconception.None?
    ensures r.guidance == Praise && r.encouragement == NoErrorEncouragement && r.nextSteps == DefaultNextSteps
  {
    var analysis := AnalyzeSteps(response);
    r := FeedbackFor(Misconceptions, analysis, response, pick);
  }
}
