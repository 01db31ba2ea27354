/**
 * The accuracy validator for tutor replies: a table of patterns for
 * misleading analogies (area as paint, volume as weight, perimeter confused
 * with area), a check for phrases that acknowledge a correction, and the
 * combined quality verdict with its suggestions.
 *
 * Every pattern carries the `i` flag and is matched against the lowercased reply;
 * since lowercasing is idempotent (`Strings.ToLowerIdempotent`) that is a
 * plain test of the lowercased text.
 */
module ResponseValidator {
  import opened Strings
  import opened Regex

  /** One row of the accuracy table: a pattern, an optional context pattern that must also match, and the issue text. */
  datatype AccuracyRule = AccuracyRule(pattern: Re, context: Option<Re>, issue: string)

  const PaintIssue: string :=
    "Area is NOT the amount of paint needed. Area is a measure of 2D space (cm², m²). Paint amount depends on thickness, which is volume (cm³, m³)."
  const PaintEqualsIssue: string := "Area ≠ paint needed. Area measures 2D space, not material quantity."
  const PaintAmountIssue: string := "Inaccurate: Area measures 2D space, not paint quantity."
  const WeightIssue: string :=
    "Volume ≠ weight. Volume measures 3D space (cm³), weight measures mass (kg)."
  const PerimeterIssue: string :=
    "Perimeter and area are different concepts. Perimeter is distance around, area is space inside."

  /** The words that make a perimeter/area co-occurrence a confusion. */
  const ConfusionContextWords: seq<string> := ["confuse", "same", "equal", "like"]

  const AccuracyRules: seq<AccuracyRule> := [
    AccuracyRule(EitherOrder("area", "paint"), None, PaintIssue),
    AccuracyRule(Alt(Triple("area", "equals", "paint"), Triple("paint", "equals", "area")), None, PaintEqualsIssue),
    AccuracyRule(EitherOrder("area", "amount of paint"), None, PaintAmountIssue),
    AccuracyRule(EitherOrder("volume", "weight"), None, WeightIssue),
    AccuracyRule(EitherOrder("perimeter", "area"), Some(Words(ConfusionContextWords)), PerimeterIssue)
  ]

  /** A rule fires on (lowercased) text when its pattern matches and, if it has one, so does its context. */
  predicate Fires(rule: AccuracyRule, lower: string) {
    Test(rule.pattern, lower) &&
    match rule.context
    case None => true
    case Some(ctx) => Test(ctx, lower)
  }

  /** The issues of the firing rules, one per rule, in table order. */
  function AccuracyIssues(rules: seq<AccuracyRule>, lower: string): seq<string>
    decreases |rules|
  {
    if rules == [] then []
    else
      var last := rules[|rules| - 1];
      AccuracyIssues(rules[..|rules| - 1], lower) + (if Fires(last, lower) then [last.issue] else [])
  }

  /** An issue is reported exactly when some rule carrying it fires. */
  lemma {:induction false} AccuracyIssuesMembers(rules: seq<AccuracyRule>, lower: string, x: string)
    ensures x in AccuracyIssues(rules, lower) <==>
      exists k | 0 <= k < |rules| :: Fires(rules[k], lower) && rules[k].issue == x
    ensures |AccuracyIssues(rules, lower)| <= |rules|
    decreases |rules|
  {
    if rules != [] {
      var init := rules[..|rules| - 1];
      AccuracyIssuesMembers(init, lower, x);
      if exists k | 0 <= k < |init| :: Fires(init[k], lower) && init[k].issue == x {
        var k :| 0 <= k < |init| && Fires(init[k], lower) && init[k].issue == x;
        assert rules[k] == init[k];
      }
      if exists k | 0 <= k < |rules| :: Fires(rules[k], lower) && rules[k].issue == x {
        var k :| 0 <= k < |rules| && Fires(rules[k], lower) && rules[k].issue == x;
        if k < |init| {
          assert init[k] == rules[k];
        }
      }
    }
  }

  lemma AccuracyIssuesStep(rules: seq<AccuracyRule>, k: int, lower: string)
    requires 0 <= k < |rules|
    ensures AccuracyIssues(rules[..k + 1], lower) ==
      AccuracyIssues(rules[..k], lower) + (if Fires(rules[k], lower) then [rules[k].issue] else [])
  {
    assert rules[..k + 1][..k] == rules[..k];
  }

  /**
   * `validateMathematicalAccuracy`: one pass over the table pushing the
   * issue of every firing rule; accurate iff nothing was pushed.
   */
  method ValidateMathematicalAccuracy(response: string) returns (isAccurate: bool, issues: seq<string>)
    ensures issues == AccuracyIssues(AccuracyRules, ToLower(response))
    ensures isAccurate <==> issues == []
  {
    issues := CollectIssues(AccuracyRules, ToLower(response));
    isAccurate := |issues| == 0;
  }

  /** The pass of `validateMathematicalAccuracy` over a table of rules, on the lowercased text. */
  method CollectIssues(rules: seq<AccuracyRule>, lower: string) returns (issues: seq<string>)
    ensures issues == AccuracyIssues(rules, lower)
  {
    issues := [];
    var k := 0;
    while k < |rules|
      invariant 0 <= k <= |rules|
      invariant issues == AccuracyIssues(rules[..k], lower)
    {
      var rule := rules[k];
      if Test(rule.pattern, lower) {
        match rule.context {
          case Some(ctx) =>
            if Test(ctx, lower) {
              issues := issues + [rule.issue];
            }
          case None =>
            issues := issues + [rule.issue];
        }
      }
      AccuracyIssuesStep(rules, k, lower);
      k := k + 1;
    }
    assert rules[..k] == rules;
  }

  /** The table's issues in table order, each present exactly when its rule fires. */
  lemma IssuesInTableOrder(lower: string)
    ensures AccuracyIssues(AccuracyRules, lower) ==
      (if Fires(AccuracyRules[0], lower) then [PaintIssue] else [])
      + (if Fires(AccuracyRules[1], lower) then [PaintEqualsIssue] else [])
      + (if Fires(AccuracyRules[2], lower) then [PaintAmountIssue] else [])
      + (if Fires(AccuracyRules[3], lower) then [WeightIssue] else [])
      + (if Fires(AccuracyRules[4], lower) then [PerimeterIssue] else [])
  {
    var r := AccuracyRules;
    assert AccuracyIssues(r[..0], lower) == [];
    AccuracyIssuesStep(r, 0, lower);
    AccuracyIssuesStep(r, 1, lower);
    AccuracyIssuesStep(r, 2, lower);
    AccuracyIssuesStep(r, 3, lower);
    AccuracyIssuesStep(r, 4, lower);
    assert r[..5] == r;
  }

  /**
   * The paint rule flags exactly the text where "area" and "paint" occur on
   * one line, in either order (`.` does not cross a line break).
   */
  lemma PaintRuleIff(lower: string)
    ensures Fires(AccuracyRules[0], lower) <==>
      SameLineBefore(lower, "area", "paint") || SameLineBefore(lower, "paint", "area")
  {
    EitherOrderIff("area", "paint", lower);
  }

  /**
   * The perimeter rule flags a same-line perimeter/area pair only when one of
   * the confusion words appears somewhere in the text.
   */
  lemma PerimeterRuleIff(lower: string)
    ensures Fires(AccuracyRules[4], lower) <==>
      (SameLineBefore(lower, "perimeter", "area") || SameLineBefore(lower, "area", "perimeter"))
      && ContainsAny(lower, ConfusionContextWords)
  {
    EitherOrderIff("perimeter", "area", lower);
    TestWordsIffContainsAny(ConfusionContextWords, lower);
  }

  /**
   * Text that never mentions paint, weight or perimeter raises no issue: an
   * analogy such as the floor space a rug covers passes.
   */
  lemma NoPaintWeightPerimeterIsAccurate(lower: string)
    requires !Contains(lower, "paint") && !Contains(lower, "weight") && !Contains(lower, "perimeter")
    ensures AccuracyIssues(AccuracyRules, lower) == []
  {
    IssuesInTableOrder(lower);
    EitherOrderIff("area", "paint", lower);
    if SameLineBefore(lower, "area", "paint") { SameLineBeforeContains(lower, "area", "paint"); }
    if SameLineBefore(lower, "paint", "area") { SameLineBeforeContains(lower, "paint", "area"); }
    if Test(Triple("area", "equals", "paint"), lower) { TripleContains("area", "equals", "paint", lower); }
    if Test(Triple("paint", "equals", "area"), lower) { TripleContains("paint", "equals", "area", lower); }
    TestAlt(Triple("area", "equals", "paint"), Triple("paint", "equals", "area"), lower);
    assert "amount of paint"[10..15] == "paint";
    EitherOrderIff("area", "amount of paint", lower);
    if SameLineBefore(lower, "area", "amount of paint") {
      SameLineBeforeContains(lower, "area", "amount of paint");
      ContainsPiece(lower, "amount of paint", 10, 15);
    }
    if SameLineBefore(lower, "amount of paint", "area") {
      SameLineBeforeContains(lower, "amount of paint", "area");
      ContainsPiece(lower, "amount of paint", 10, 15);
    }
    EitherOrderIff("volume", "weight", lower);
    if SameLineBefore(lower, "volume", "weight") { SameLineBeforeContains(lower, "volume", "weight"); }
    if SameLineBefore(lower, "weight", "volume") { SameLineBeforeContains(lower, "weight", "volume"); }
    EitherOrderIff("perimeter", "area", lower);
    if SameLineBefore(lower, "perimeter", "area") { SameLineBeforeContains(lower, "perimeter", "area"); }
    if SameLineBefore(lower, "area", "perimeter") { SameLineBeforeContains(lower, "area", "perimeter"); }
  }

  // ------------------------------------------------------------ corrections

  const AcknowledgementWords: seq<string> :=
    ["you're right", "you're correct", "thank you for", "good catch", "you caught"]
  const SelfCorrectionWords: seq<string> :=
    ["let me correct", "i was wrong", "that was inaccurate", "i made an error"]

  const CorrectionPatterns: seq<Re> := [
    Words(AcknowledgementWords),
    Words(SelfCorrectionWords),
    Alt(Pair("actually", "area"), Alt(Pair("actually", "volume"), Pair("actually", "perimeter")))
  ]

  /** `checksForCorrections`: some correction pattern matches the lowercased reply. */
  predicate ChecksForCorrections(response: string) {
    exists k | 0 <= k < |CorrectionPatterns| :: Test(CorrectionPatterns[k], ToLower(response))
  }

  /**
   * A reply acknowledges a correction exactly when it contains one of the nine
   * acknowledgement or self-correction phrases, or says "actually" before
   * "area", "volume" or "perimeter" on one line.
   */
  lemma CorrectionsIff(response: string)
    ensures ChecksForCorrections(response) <==>
      ContainsAny(ToLower(response), AcknowledgementWords)
      || ContainsAny(ToLower(response), SelfCorrectionWords)
      || SameLineBefore(ToLower(response), "actually", "area")
      || SameLineBefore(ToLower(response), "actually", "volume")
      || SameLineBefore(ToLower(response), "actually", "perimeter")
  {
    var lower := ToLower(response);
    TestWordsIffContainsAny(AcknowledgementWords, lower);
    TestWordsIffContainsAny(SelfCorrectionWords, lower);
    PairIff("actually", "area", lower);
    PairIff("actually", "volume", lower);
    PairIff("actually", "perimeter", lower);
    ActuallyAlternatives(lower);
    assert ChecksForCorrections(response) <==>
      Test(CorrectionPatterns[0], lower) || Test(CorrectionPatterns[1], lower) || Test(CorrectionPatterns[2], lower);
  }

  lemma ActuallyAlternatives(lower: string)
    ensures Test(CorrectionPatterns[2], lower) <==>
      Test(Pair("actually", "area"), lower) || Test(Pair("actually", "volume"), lower)
      || Test(Pair("actually", "perimeter"), lower)
  {
    var a, v, p := Pair("actually", "area"), Pair("actually", "volume"), Pair("actually", "perimeter");
    TestAlt(a, Alt(v, p), lower);
    TestAlt(v, p, lower);
  }

  // ------------------------------------------------------------ quality

  const InaccurateSuggestion: string :=
    "Response contains mathematically inaccurate analogies. Use accurate definitions that precisely represent the mathematical concept."
  const AcknowledgeSuggestion: string :=
    "Student may have pointed out an inaccuracy. Acknowledge and correct it explicitly."

  /** The suggestions `validateResponseQuality` gives for a reply with the given accuracy issues. */
  function Suggestions(issues: seq<string>, hasCorrection: bool): seq<string> {
    (if issues != [] then [InaccurateSuggestion] else [])
    + (if !hasCorrection && issues != [] then [AcknowledgeSuggestion] else [])
  }

  /**
   * `validateResponseQuality`: the accuracy issues become the quality
   * issues; an inaccurate reply gets the accuracy suggestion and, unless it
   * already acknowledges a correction, the acknowledgement suggestion.
   */
  method ValidateResponseQuality(response: string) returns (isValid: bool, issues: seq<string>, suggestions: seq<string>)
    ensures issues == AccuracyIssues(AccuracyRules, ToLower(response))
    ensures isValid <==> issues == []
    ensures suggestions == Suggestions(issues, ChecksForCorrections(response))
  {
    issues := [];
    suggestions := [];
    var isAccurate, accuracyIssues := ValidateMathematicalAccuracy(response);
    if !isAccurate {
      issues := issues + accuracyIssues;
      suggestions := suggestions + [InaccurateSuggestion];
    }
    var hasCorrection := ChecksForCorrections(response);
    if !hasCorrection && |accuracyIssues| > 0 {
      suggestions := suggestions + [AcknowledgeSuggestion];
    }
    isValid := |issues| == 0;
  }

  /**
   * Accurate text gets no suggestion; inaccurate text gets the accuracy
   * suggestion first, and a second one exactly when it has no correction phrase.
   */
  lemma SuggestionsShape(issues: seq<string>, hasCorrection: bool)
    ensures var r := Suggestions(issues, hasCorrection);
      && (issues == [] <==> r == [])
      && (issues != [] ==> r[0] == InaccurateSuggestion)
      && (|r| == 2 <==> issues != [] && !hasCorrection)
  {
  }
}
