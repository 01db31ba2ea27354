/**
 * Strategy selection: the total table from student state to tutoring
 * strategy, and the configuration of each strategy (approach, instructions,
 * hint level, question style and tone).
 */
module StrategySelector {
  import opened Strings
  import opened Types

  /** The state-to-strategy table. */
  function StrategyFor(s: StudentState): Strategy {
    match s
    case KnowledgeGap => MethodDiscovery
    case Stuck => ProgressiveHints
    case Confused => ClarificationFirst
    case MakingProgress => EncouragementChallenge
    case Frustrated => EmpathySimplification
    case ReadyToLearn => DeepExploration
  }

  /** The state each strategy serves. */
  function StateServedBy(g: Strategy): StudentState {
    match g
    case MethodDiscovery => KnowledgeGap
    case ProgressiveHints => Stuck
    case ClarificationFirst => Confused
    case EncouragementChallenge => MakingProgress
    case EmpathySimplification => Frustrated
    case DeepExploration => ReadyToLearn
  }

  /** The table is a bijection: every strategy serves exactly one state. */
  lemma StrategyTableBijective(s: StudentState, g: Strategy)
    ensures StateServedBy(StrategyFor(s)) == s
    ensures StrategyFor(StateServedBy(g)) == g
    ensures StrategyFor(s) == g <==> StateServedBy(g) == s
  {
  }

  /** Opening lines of the strategy instruction blocks; the rest of each block is fixed text. */
  const MethodDiscoveryInstructions: string :=
    "The student has indicated they don't know something specific that you just asked about."
  const ProgressiveHintsHead: string :=
    "The student is stuck and has tried but can't proceed.\n\nAPPROACH:\n"
    + "1. Ask probing questions to understand where exactly they're stuck\n"
    + "2. Provide subtle hints that guide thinking without giving answers\n"
  const ProgressiveHintsTail: string :=
    "\n4. Break down the problem into smaller steps if needed"
  const ClarificationFirstInstructions: string := "The student is confused about the problem itself."
  const EncouragementChallengeInstructions: string :=
    "The student is making progress and is on the right track."
  const EmpathySimplificationInstructions: string :=
    "The student is frustrated after multiple attempts and has asked to be told the answer multiple times."
  const DeepExplorationInstructions: string := "The student is engaged and ready to learn."

  /** The escalated hint level of progressive hints: moderate from the third turn on. */
  function EscalatedHint(turnCount: nat): HintLevel {
    if turnCount >= 3 then Moderate else Subtle
  }

  /** Step 3 of the progressive-hints instructions, which quotes the turn count. */
  function EscalationLine(turnCount: nat): string {
    EscalationHead + NatToString(turnCount) + " - use " + HintLevelName(EscalatedHint(turnCount)) + " hints)"
  }

  const EscalationHead: string := "3. Escalate hint level based on turn count (turn "

  /** The one-line approach of each strategy. */
  const MethodDiscoveryApproach: string :=
    "Address the specific knowledge gap through guided discovery, maintaining conversation continuity"
  const ProgressiveHintsApproach: string :=
    "Escalate hints gradually, ask probing questions to understand where they're stuck"
  const ClarificationFirstApproach: string := "Clarify problem understanding before attempting to solve"
  const EncouragementChallengeApproach: string := "Celebrate progress, then introduce next challenge"
  const EmpathySimplificationApproach: string :=
    "Acknowledge frustration, provide more direct guidance while still engaging student"
  const DeepExplorationApproach: string := "Guide through conceptual understanding with discovery questions"

  function Approach(g: Strategy): string {
    match g
    case MethodDiscovery => MethodDiscoveryApproach
    case ProgressiveHints => ProgressiveHintsApproach
    case ClarificationFirst => ClarificationFirstApproach
    case EncouragementChallenge => EncouragementChallengeApproach
    case EmpathySimplification => EmpathySimplificationApproach
    case DeepExploration => DeepExplorationApproach
  }

  /** The instruction block of each strategy; only progressive hints quotes the turn count. */
  function Instructions(g: Strategy, turnCount: nat): string {
    match g
    case MethodDiscovery => MethodDiscoveryInstructions
    case ProgressiveHints => ProgressiveHintsHead + EscalationLine(turnCount) + ProgressiveHintsTail
    case ClarificationFirst => ClarificationFirstInstructions
    case EncouragementChallenge => EncouragementChallengeInstructions
    case EmpathySimplification => EmpathySimplificationInstructions
    case DeepExploration => DeepExplorationInstructions
  }

  function HintLevelOf(g: Strategy, turnCount: nat): HintLevel {
    match g
    case MethodDiscovery => Subtle
    case ProgressiveHints => EscalatedHint(turnCount)
    case ClarificationFirst => NoHints
    case EncouragementChallenge => Subtle
    case EmpathySimplification => Concrete
    case DeepExploration => Subtle
  }

  function QuestionStyleOf(g: Strategy): QuestionStyle {
    match g
    case MethodDiscovery => Discovery
    case ProgressiveHints => Probing
    case ClarificationFirst => Clarifying
    case EncouragementChallenge => Challenging
    case EmpathySimplification => Clarifying
    case DeepExploration => Discovery
  }

  function ToneOf(g: Strategy): Tone {
    match g
    case MethodDiscovery => Encouraging
    case ProgressiveHints => Supportive
    case ClarificationFirst => Supportive
    case EncouragementChallenge => Encouraging
    case EmpathySimplification => Empathic
    case DeepExploration => Encouraging
  }

  /**
   * `getStrategyConfig`: the configuration record of a strategy for a
   * detected state, named after the strategy.
   */
  function GetStrategyConfig(g: Strategy, d: DetectedState): (r: StrategyConfig)
    ensures r.name == g
  {
    var tc := d.context.turnCount;
    StrategyConfig(g, Approach(g), Instructions(g, tc), HintLevelOf(g, tc), QuestionStyleOf(g), ToneOf(g))
  }

  /** `selectStrategy`: look the state up in the table and configure that strategy. */
  function SelectStrategy(d: DetectedState): (r: StrategyConfig)
    ensures r.name == StrategyFor(d.state)
  {
    GetStrategyConfig(StrategyFor(d.state), d)
  }

  /** Progressive hints is the only strategy whose hint level depends on the turn count. */
  lemma HintLevelByStrategy(d: DetectedState)
    ensures var r := SelectStrategy(d);
      && (r.hintLevel == Moderate <==> d.state == Stuck && d.context.turnCount >= 3)
      && (d.state == Stuck && d.context.turnCount < 3 ==> r.hintLevel == Subtle)
      && (d.state == Frustrated ==> r.hintLevel == Concrete && r.questionStyle == Clarifying && r.tone == Empathic)
      && (d.state == Confused ==> r.hintLevel == NoHints && r.questionStyle == Clarifying && r.tone == Supportive)
      && (d.state == KnowledgeGap ==> r.hintLevel == Subtle && r.questionStyle == Discovery && r.tone == Encouraging)
      && (d.state == MakingProgress ==> r.hintLevel == Subtle && r.questionStyle == Challenging && r.tone == Encouraging)
      && (d.state == ReadyToLearn ==> r.hintLevel == Subtle && r.questionStyle == Discovery && r.tone == Encouraging)
  {
    match d.state
    case KnowledgeGap =>
    case Stuck =>
    case Confused =>
    case MakingProgress =>
    case Frustrated =>
    case ReadyToLearn =>
  }

  /**
   * Only progressive hints reads the detected state, and only its turn count;
   * every other configuration is a constant.
   */
  lemma ConfigReadsOnlyTurnCount(g: Strategy, d1: DetectedState, d2: DetectedState)
    requires g != ProgressiveHints || d1.context.turnCount == d2.context.turnCount
    ensures GetStrategyConfig(g, d1) == GetStrategyConfig(g, d2)
  {
  }

  function HintRank(h: HintLevel): nat {
    match h
    case NoHints => 0
    case Subtle => 1
    case Moderate => 2
    case Concrete => 3
  }

  /** For a fixed state, hints never get weaker as the conversation goes on. */
  lemma HintLevelMonotone(d: DetectedState, later: nat)
    requires later >= d.context.turnCount
    ensures HintRank(SelectStrategy(d).hintLevel)
      <= HintRank(SelectStrategy(d.(context := d.context.(turnCount := later))).hintLevel)
  {
  }

  /** The instructions of progressive hints quote the turn count and the matching hint level. */
  lemma ProgressiveInstructionsQuoteTurn(d: DetectedState)
    requires d.state == Stuck
    ensures var r := SelectStrategy(d);
      r.instructions == ProgressiveHintsHead + EscalationLine(d.context.turnCount) + ProgressiveHintsTail
      && HintLevelName(r.hintLevel) == (if d.context.turnCount >= 3 then "moderate" else "subtle")
  {
  }
}
