/**
 * The adaptive system prompt: fixed Socratic rules, the context section,
 * the adaptive instructions of the selected strategy, and the conversation
 * section with a summary of the last six messages.
 */
module PromptBuilder {
  import opened Strings
  import opened Types
  import opened StateDetector

  /** Opening of the fixed Socratic rules; the remainder of the block is fixed text. */
  const BaseSocraticInstructions: string :=
    "You are MathSageAI, a patient and encouraging math tutor that uses the Socratic method."

  const RememberLine: string :=
    "Remember: The goal is deep understanding, not just getting the right answer. "
    + "Students must discover solutions themselves through your questions. Errors are learning opportunities."

  const Beginning: string := "This is the beginning of the conversation."

  // ------------------------------------------------------------ conversation summary

  /** A message is quoted in full up to 150 characters, and cut to 150 plus '...' beyond. */
  function Truncate(content: string): (r: string)
    ensures |r| <= 153
    ensures |content| <= 150 ==> r == content
    ensures |content| > 150 ==> |r| == 153 && r[..150] == content[..150] && r[150..] == "..."
    ensures r == content <==> |content| <= 150 || (|content| == 153 && content[150..] == "...")
  {
    if |content| > 150 then
      var r := content[..150] + "...";
      assert r[..150] == content[..150] && r[150..] == "...";
      assert content == content[..150] + content[150..];
      r
    else content
  }

  function Speaker(m: Message): string {
    if m.role == User then "Student" else "MathSageAI"
  }

  /** Line `k` (0-based) of the summary. */
  function SummaryLine(m: Message, k: nat): string {
    NatToString(k + 1) + ". " + Speaker(m) + ": " + Truncate(m.content)
  }

  function SummaryLines(ms: seq<Message>): (r: seq<string>)
    ensures |r| == |ms|
    ensures forall k :: 0 <= k < |ms| ==> r[k] == SummaryLine(ms[k], k)
  {
    seq(|ms|, k requires 0 <= k < |ms| => SummaryLine(ms[k], k))
  }

  /** `summarizeRecentConversation`: the last six messages, numbered from 1. */
  function SummarizeRecentConversation(ms: seq<Message>): (r: string)
    ensures ms == [] <==> r == Beginning
  {
    var recent := LastN(ms, 6);
    if recent == [] then Beginning
    else
      var r := "Recent conversation:\n" + Join(SummaryLines(recent), "\n");
      assert r[0] != Beginning[0];
      r
  }

  /** A non-empty summary lists the oldest of the last six messages first, as line 1. */
  lemma SummaryStartsAtLineOne(ms: seq<Message>)
    requires ms != []
    ensures var first := LastN(ms, 6)[0];
      StartsWith(SummarizeRecentConversation(ms),
        "Recent conversation:\n" + ("1. " + Speaker(first) + ": " + Truncate(first.content)))
  {
    var recent := LastN(ms, 6);
    var lines := SummaryLines(recent);
    assert lines[0] == "1. " + Speaker(recent[0]) + ": " + Truncate(recent[0].content) by {
      assert NatToString(1) == "1";
    }
    JoinStartsWithFirst(lines, "\n");
    StartsWithPrepend("Recent conversation:\n", Join(lines, "\n"), lines[0]);
  }

  /** Only the last six messages matter: older history never reaches the prompt. */
  lemma SummaryUsesLastSix(older: seq<Message>, ms: seq<Message>)
    requires |ms| >= 6
    ensures SummarizeRecentConversation(older + ms) == SummarizeRecentConversation(ms)
  {
    assert LastN(older + ms, 6) == LastN(ms, 6);
  }

  /** Each summary line quotes at most 153 characters of its message. */
  lemma SummaryLineBounded(m: Message, k: nat)
    ensures |SummaryLine(m, k)| <= |NatToString(k + 1)| + 2 + |Speaker(m)| + 2 + 153
  {
  }

  // ------------------------------------------------------------ context section

  /** `Math.round`-like half-up rounding of a non-negative rational, as `toFixed(0)` does. */
  function RoundHalfUp(x: real): (n: nat)
    requires x >= 0.0
    ensures n as real <= x + 0.5 < n as real + 1.0
  {
    (x + 0.5).Floor
  }

  /** `(confidence * 100).toFixed(0)`. */
  function PercentText(c: JsNumber): string {
    match c
    case NaN => "NaN"
    case Finite(v) =>
      if v >= 0.0 then NatToString(RoundHalfUp(v * 100.0))
      else "-" + NatToString(RoundHalfUp(-v * 100.0))
  }

  /** A problem type is shown only when it is present and non-empty. */
  function ProblemTypeLine(t: Option<string>): string {
    if t.Some? && t.value != "" then "- Problem Type: " + t.value else ""
  }

  function ContextSection(d: DetectedState, g: StrategyConfig): string {
    "CURRENT CONTEXT:\n"
    + "- Student State: " + StateName(d.state) + " (confidence: " + PercentText(d.confidence) + "%)\n"
    + "- Evidence: " + Join(d.evidence, "; ") + "\n"
    + "- Turn Count: " + NatToString(d.context.turnCount) + "\n"
    + "- Student Sentiment: " + SentimentName(d.context.sentiment) + "\n"
    + ProblemTypeLine(d.context.problemType) + "\n\n"
    + "SELECTED STRATEGY:\n"
    + "- Strategy: " + StrategyName(g.name) + "\n"
    + "- Approach: " + g.approach + "\n"
    + "- Hint Level: " + HintLevelName(g.hintLevel) + "\n"
    + "- Question Style: " + QuestionStyleName(g.questionStyle) + "\n"
    + "- Tone: " + ToneName(g.tone)
  }

  // ------------------------------------------------------------ adaptive instructions

  /** Opening of the knowledge-gap continuity block; the remainder is fixed text. */
  const ContinuityBlock: string :=
    "\n\nCRITICAL - CONVERSATION CONTINUITY:\n"
    + "- Review your previous message to see what specific concept or question you asked about"

  const HelpWords: seq<string> := ["don't know", "tell me"]

  /** How many evidence items mention "don't know" or "tell me", in any case. */
  function HelpCount(evidence: seq<string>): (n: nat)
    ensures n <= |evidence|
  {
    CountMessages(MapLower(evidence), HelpWords)
  }

  function EscalationBlock(turnCount: nat, helpCount: nat): string {
    "\n\nFRUSTRATION ESCALATION RULES:\n"
    + "- Turn Count: " + NatToString(turnCount) + "\n"
    + "- Student has asked for help " + NatToString(helpCount) + " times\n"
    + "- After " + (if turnCount >= 3 then "3+" else "2+")
    + " turns with \"I don't know\" or \"tell me\", you MUST provide more direct guidance"
  }

  function HintText(h: HintLevel): string {
    match h
    case NoHints => "No hints yet, just clarifying questions"
    case Subtle => "Very subtle hints that guide thinking"
    case Moderate => "Moderate hints that point in the right direction"
    case Concrete => "Concrete hints that break down into smaller steps"
  }

  function QuestionStyleText(q: QuestionStyle): string {
    match q
    case Discovery => "Discovery questions that help students explore"
    case Probing => "Probing questions to understand where they're stuck"
    case Clarifying => "Clarifying questions to ensure understanding"
    case Challenging => "Challenging questions that push thinking forward"
  }

  function ToneText(t: Tone): string {
    match t
    case Encouraging => "Warm, encouraging, celebrating effort"
    case Supportive => "Supportive, patient, understanding"
    case Demanding => "Challenging but supportive, pushing thinking"
    case Empathic => "Empathic, understanding, normalizing struggle"
  }

  function RequirementsBlock(g: StrategyConfig): string {
    "\n\nRESPONSE REQUIREMENTS:\n"
    + "- Hint Level: " + HintText(g.hintLevel) + "\n"
    + "- Question Style: " + QuestionStyleText(g.questionStyle) + "\n"
    + "- Tone: " + ToneText(g.tone)
  }

  /** The blocks appended to the strategy instructions, in order. */
  function StateBlocks(d: DetectedState): string {
    (if d.state == KnowledgeGap then ContinuityBlock else "")
    + (if d.state == Frustrated then EscalationBlock(d.context.turnCount, HelpCount(d.evidence)) else "")
  }

  const InstructionsHeader: string := "ADAPTIVE INSTRUCTIONS FOR THIS SITUATION:\n"

  /** `buildAdaptiveInstructions`. */
  function AdaptiveInstructions(g: StrategyConfig, d: DetectedState): string {
    InstructionsHeader + g.instructions + StateBlocks(d) + RequirementsBlock(g)
  }

  /** The instructions open with the strategy's own block and always end with the requirements. */
  lemma AdaptiveInstructionsLayout(g: StrategyConfig, d: DetectedState)
    ensures StartsWith(AdaptiveInstructions(g, d), InstructionsHeader + g.instructions)
    ensures EndsWith(AdaptiveInstructions(g, d), RequirementsBlock(g))
  {
    FourPartLayout(InstructionsHeader, g.instructions, StateBlocks(d), RequirementsBlock(g));
  }

  /** At most one of the two state blocks is present, chosen by the state alone. */
  lemma StateBlocksByState(d: DetectedState)
    ensures d.state == KnowledgeGap ==> StateBlocks(d) == ContinuityBlock
    ensures d.state == Frustrated ==>
      StateBlocks(d) == EscalationBlock(d.context.turnCount, HelpCount(d.evidence))
    ensures d.state != KnowledgeGap && d.state != Frustrated ==> StateBlocks(d) == ""
  {
  }

  // ------------------------------------------------------------ conversation section

  /** The summary under its heading, then the problem context under its own heading when it is present and not empty. */
  function ConversationSection(summary: string, problemContext: Option<string>): (r: string)
    ensures StartsWith(r, "CONVERSATION CONTEXT:\n" + summary)
    ensures problemContext.Some? && problemContext.value != "" ==> EndsWith(r, "\n\nPROBLEM CONTEXT:\n" + problemContext.value)
    ensures problemContext.None? || problemContext.value == "" ==> r == "CONVERSATION CONTEXT:\n" + summary
  {
    var head := "CONVERSATION CONTEXT:\n" + summary;
    var tail := if problemContext.Some? && problemContext.value != "" then "\n\nPROBLEM CONTEXT:\n" + problemContext.value else "";
    assert (head + tail)[..|head|] == head;
    EndsWithConcat(head, tail);
    head + tail
  }

  // ------------------------------------------------------------ the whole prompt

  /** `buildAdaptivePrompt`. */
  function BuildAdaptivePrompt(d: DetectedState, g: StrategyConfig, ms: seq<Message>, problemContext: Option<string>): string {
    Join([BaseSocraticInstructions, ContextSection(d, g), AdaptiveInstructions(g, d),
          ConversationSection(SummarizeRecentConversation(ms), problemContext), RememberLine], "\n\n")
  }

  /**
   * The prompt is the fixed rules, the context section, the adaptive
   * instructions, the conversation section and the reminder, blank-line
   * separated, as the template writes them.
   */
  lemma PromptLayout(d: DetectedState, g: StrategyConfig, ms: seq<Message>, problemContext: Option<string>)
    ensures BuildAdaptivePrompt(d, g, ms, problemContext)
      == BaseSocraticInstructions + "\n\n" + ContextSection(d, g) + "\n\n" + AdaptiveInstructions(g, d) + "\n\n"
         + ConversationSection(SummarizeRecentConversation(ms), problemContext) + "\n\n" + RememberLine
    ensures StartsWith(BuildAdaptivePrompt(d, g, ms, problemContext),
      BaseSocraticInstructions + "\n\n" + ContextSection(d, g) + "\n\n" + AdaptiveInstructions(g, d))
    ensures EndsWith(BuildAdaptivePrompt(d, g, ms, problemContext), "\n\n" + RememberLine)
  {
    JoinFive(BaseSocraticInstructions, ContextSection(d, g), AdaptiveInstructions(g, d),
             ConversationSection(SummarizeRecentConversation(ms), problemContext), RememberLine, "\n\n");
  }

  /** The turn-count evidence line mentions no help request: it has neither an apostrophe nor an 'l'. */
  lemma TurnLineNamesNoHelp(n: nat)
    ensures !ContainsAny(ToLower("Turn count: " + NatToString(n)), HelpWords)
  {
    var digits := NatToString(n);
    var line := ToLower("Turn count: " + digits);
    ToLowerConcat("Turn count: ", digits);
    assert ToLower("Turn count: ") == "turn count: ";
    forall k | 0 <= k < |line|
      ensures line[k] != '\'' && line[k] != 'l'
    {
      if k >= 12 {
        assert line[k] == Lower(digits[k - 12]);
      }
    }
    CharAbsent(line, HelpWords[0], 3);
    CharAbsent(line, HelpWords[1], 2);
  }

  lemma HelpWordsAreLower()
    ensures ToLower("don't know") == "don't know"
  {
  }

  /** The request-count evidence line names "don't know". */
  lemma RequestLineNamesHelp(n: nat)
    ensures ContainsAny(ToLower("Multiple \"I don't know\" or \"tell me\" requests: " + NatToString(n)), HelpWords)
  {
    var head := "Multiple \"I don't know\" or \"tell me\" requests: ";
    assert head[12..22] == "don't know" by {
      assert forall k | 0 <= k < 10 :: head[12..22][k] == head[12 + k];
    }
    HelpWordsAreLower();
    LowerWordFoundAt(head, NatToString(n), HelpWords[0], 12);
  }

  /** The sentiment evidence line mentions no help request: no 'k', and no 'l' before another 'l'. */
  lemma SentimentLineNamesNoHelp(m: Sentiment)
    ensures !ContainsAny(ToLower("Sentiment: " + SentimentName(m)), HelpWords)
  {
    ToLowerConcat("Sentiment: ", SentimentName(m));
    assert ToLower("Sentiment: ") == "sentiment: ";
    match m {
      case Positive =>
        assert ToLower("positive") == "positive";
      case Negative =>
        assert ToLower("negative") == "negative";
      case Neutral =>
        assert ToLower("neutral") == "neutral";
    }
    SentimentLinesNoHelp(SentimentName(m));
  }

  lemma SentimentLinesNoHelp(name: string)
    requires name == "positive" || name == "neutral" || name == "negative"
    ensures !ContainsAny("sentiment: " + name, HelpWords)
  {
    NoHelpIn("sentiment: " + name);
  }

  /** A text without a 'k' and without a double 'l' names neither help request. */
  lemma NoHelpIn(line: string)
    requires 'k' !in line
    requires forall i | 0 <= i < |line| - 1 :: !(line[i] == 'l' && line[i + 1] == 'l')
    ensures !ContainsAny(line, HelpWords)
  {
    CharAbsent(line, HelpWords[0], 6);
    PairAbsent(line, HelpWords[1], 2);
  }

  /**
   * A frustration verdict of the fallback classifier always makes the
   * escalation block report exactly one help request: of its three evidence
   * items only the request-count line mentions "don't know" or "tell me",
   * whatever count that line carries.
   */
  lemma FallbackFrustrationReportsOneRequest(ms: seq<Message>, c: ConversationContext)
    requires FrustrationSignal(ms, c)
    ensures HelpCount(FallbackStateDetection(ms, c).evidence) == 1
  {
    var recent := RecentUserTexts(ms);
    var requests := CountMessages(recent, DontKnowWords) + CountMessages(recent, TellMeRequestWords);
    FrustrationLinesHelpCount(c.turnCount, requests, c.sentiment);
  }

  /** Of the three frustration evidence lines, exactly the request-count line names a help request. */
  lemma FrustrationLinesHelpCount(turns: nat, requests: nat, sentiment: Sentiment)
    ensures HelpCount(["Turn count: " + NatToString(turns),
                       "Multiple \"I don't know\" or \"tell me\" requests: " + NatToString(requests),
                       "Sentiment: " + SentimentName(sentiment)]) == 1
  {
    TurnLineNamesNoHelp(turns);
    RequestLineNamesHelp(requests);
    SentimentLineNamesNoHelp(sentiment);
    HelpCountOfThree("Turn count: " + NatToString(turns),
                     "Multiple \"I don't know\" or \"tell me\" requests: " + NatToString(requests),
                     "Sentiment: " + SentimentName(sentiment));
  }

  lemma HelpCountOfThree(a: string, b: string, e: string)
    ensures HelpCount([a, b, e]) ==
      (if ContainsAny(ToLower(a), HelpWords) then 1 else 0)
      + (if ContainsAny(ToLower(b), HelpWords) then 1 else 0)
      + (if ContainsAny(ToLower(e), HelpWords) then 1 else 0)
  {
    var lower := MapLower([a, b, e]);
    assert lower == [ToLower(a), ToLower(b), ToLower(e)];
    assert lower[1..] == [ToLower(b), ToLower(e)];
    assert lower[1..][1..] == [ToLower(e)];
    assert lower[1..][1..][1..] == [];
    assert CountMessages(lower[1..][1..], HelpWords) == if ContainsAny(ToLower(e), HelpWords) then 1 else 0;
    assert CountMessages(lower[1..], HelpWords) ==
      (if ContainsAny(ToLower(b), HelpWords) then 1 else 0) + CountMessages(lower[1..][1..], HelpWords);
  }
}
