/**
 * The records and enumerations shared by the tutoring pipeline: chat
 * messages, the six student states, the six tutoring strategies and their
 * configuration fields, the detected-state record, and the feedback
 * analysis records.
 */
module Types {
  import opened Strings

  datatype Role = User | Assistant | System

  /** A chat message; ids, timestamps and image URLs play no part in the core. */
  datatype Message = Message(role: Role, content: string)

  datatype StudentState =
    | KnowledgeGap | Stuck | Confused | MakingProgress | Frustrated | ReadyToLearn

  const AllStates: seq<StudentState> :=
    [KnowledgeGap, Stuck, Confused, MakingProgress, Frustrated, ReadyToLearn]

  /** The wire name of a state, as the completion service and the prompt spell it. */
  function StateName(s: StudentState): string {
    match s
    case KnowledgeGap => "knowledge_gap"
    case Stuck => "stuck"
    case Confused => "confused"
    case MakingProgress => "making_progress"
    case Frustrated => "frustrated"
    case ReadyToLearn => "ready_to_learn"
  }

  /** The state with the given wire name, if there is one. */
  function StateNamed(name: string): (r: Option<StudentState>)
    ensures r.Some? ==> StateName(r.value) == name
    ensures r.None? ==> forall s :: StateName(s) != name
  {
    if name == "knowledge_gap" then Some(KnowledgeGap)
    else if name == "stuck" then Some(Stuck)
    else if name == "confused" then Some(Confused)
    else if name == "making_progress" then Some(MakingProgress)
    else if name == "frustrated" then Some(Frustrated)
    else if name == "ready_to_learn" then Some(ReadyToLearn)
    else None
  }

  /** Wire names identify states: reading back a written name gives the state. */
  lemma StateNameRoundTrip(s: StudentState)
    ensures StateNamed(StateName(s)) == Some(s)
  {
  }

  datatype Sentiment = Positive | Neutral | Negative

  function SentimentName(s: Sentiment): string {
    match s
    case Positive => "positive"
    case Neutral => "neutral"
    case Negative => "negative"
  }

  datatype HintLevel = NoHints | Subtle | Moderate | Concrete

  function HintLevelName(h: HintLevel): string {
    match h
    case NoHints => "none"
    case Subtle => "subtle"
    case Moderate => "moderate"
    case Concrete => "concrete"
  }

  datatype QuestionStyle = Discovery | Probing | Clarifying | Challenging

  function QuestionStyleName(q: QuestionStyle): string {
    match q
    case Discovery => "discovery"
    case Probing => "probing"
    case Clarifying => "clarifying"
    case Challenging => "challenging"
  }

  datatype Tone = Encouraging | Supportive | Demanding | Empathic

  /** `Demanding` is the tone spelled 'challenging'. */
  function ToneName(t: Tone): string {
    match t
    case Encouraging => "encouraging"
    case Supportive => "supportive"
    case Demanding => "challenging"
    case Empathic => "empathic"
  }

  datatype Strategy =
    | MethodDiscovery | ProgressiveHints | ClarificationFirst
    | EncouragementChallenge | EmpathySimplification | DeepExploration

  function StrategyName(s: Strategy): string {
    match s
    case MethodDiscovery => "method_discovery"
    case ProgressiveHints => "progressive_hints"
    case ClarificationFirst => "clarification_first"
    case EncouragementChallenge => "encouragement_challenge"
    case EmpathySimplification => "empathy_simplification"
    case DeepExploration => "deep_exploration"
  }

  /** A JavaScript number where only finiteness versus NaN matters. */
  datatype JsNumber = Finite(value: real) | NaN

  /** `Math.max(0, Math.min(1, x))`: NaN propagates through both. */
  function Clamp01(x: JsNumber): (r: JsNumber)
    ensures x.NaN? <==> r.NaN?
    ensures r.Finite? ==> 0.0 <= r.value <= 1.0
    ensures x.Finite? && 0.0 <= x.value <= 1.0 ==> r == x
  {
    match x
    case NaN => NaN
    case Finite(v) => Finite(if v > 1.0 then 1.0 else if v < 0.0 then 0.0 else v)
  }

  /** What the detector knows about the conversation besides the state. */
  datatype ConversationContext = ConversationContext(
    turnCount: nat,
    problemType: Option<string>,
    recentErrors: seq<string>,
    sentiment: Sentiment,
    conversationLength: nat)

  datatype DetectedState = DetectedState(
    state: StudentState,
    confidence: JsNumber,
    evidence: seq<string>,
    context: ConversationContext)

  datatype StrategyConfig = StrategyConfig(
    name: Strategy,
    approach: string,
    instructions: string,
    hintLevel: HintLevel,
    questionStyle: QuestionStyle,
    tone: Tone)

  datatype ErrorType = Calculation | Conceptual | Procedural | UnknownError

  datatype ErrorAnalysis = ErrorAnalysis(
    errorType: ErrorType,
    step: nat,
    location: string,
    misconception: Option<string>,
    reasoning: string)

  datatype FeedbackAnalysis = FeedbackAnalysis(
    hasError: bool,
    errorAnalyses: seq<ErrorAnalysis>,
    misconception: Option<string>,
    guidance: string,
    encouragement: string,
    nextSteps: seq<string>)

  datatype StepAnalysis = StepAnalysis(
    steps: seq<string>,
    errorStep: Option<nat>,
    correctSteps: seq<nat>,
    incorrectSteps: seq<nat>)

  /** A reply of the completion service: the content of its first choice ("" when absent or empty), or an exception. */
  datatype Reply = Completion(content: string) | Thrown(message: string)
}
