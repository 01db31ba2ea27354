/**
 * Student-state detection: the conversation context, the parser for the
 * completion service's STATE/CONFIDENCE/EVIDENCE reply, the pattern-based
 * fallback classifier with its fixed rule priority, sentiment detection and
 * problem-type detection.
 */
module StateDetector {
  import opened Strings
  import opened Regex
  import opened Types

  // ------------------------------------------------------------ transcript views

  /** Contents of the user messages, in order. */
  function UserContents(ms: seq<Message>): (r: seq<string>)
    ensures |r| <= |ms|
    decreases |ms|
  {
    if ms == [] then []
    else (if ms[0].role == User then [ms[0].content] else []) + UserContents(ms[1..])
  }

  /** Contents of the assistant messages, in order (system messages are neither). */
  function AssistantContents(ms: seq<Message>): (r: seq<string>)
    ensures |r| <= |ms|
    decreases |ms|
  {
    if ms == [] then []
    else (if ms[0].role == Assistant then [ms[0].content] else []) + AssistantContents(ms[1..])
  }

  function Contents(ms: seq<Message>): (r: seq<string>)
    ensures |r| == |ms| && forall k :: 0 <= k < |ms| ==> r[k] == ms[k].content
  {
    seq(|ms|, k requires 0 <= k < |ms| => ms[k].content)
  }

  /** `xs.slice(-n)` for a positive `n`. */
  function LastN<T>(xs: seq<T>, n: nat): (r: seq<T>)
    ensures |r| == if |xs| < n then |xs| else n
    ensures r == xs[|xs| - |r|..]
  {
    if |xs| <= n then xs else xs[|xs| - n..]
  }

  /** The last element's content, or the empty string (`xs.slice(-1)[0]?.content || ''`). */
  function LastOr(xs: seq<string>): string {
    if xs == [] then "" else xs[|xs| - 1]
  }

  /** Assistant messages that mention an error, as recorded in `recentErrors`. */
  predicate MentionsError(m: Message) {
    m.role == Assistant && Contains(ToLower(m.content), "error")
  }

  function ErrorMentions(ms: seq<Message>): (r: seq<string>)
    ensures |r| <= |ms|
    ensures forall e :: e in r ==> exists k | 0 <= k < |ms| :: MentionsError(ms[k]) && ms[k].content == e
    ensures forall k :: 0 <= k < |ms| && MentionsError(ms[k]) ==> ms[k].content in r
    decreases |ms|
  {
    if ms == [] then []
    else
      var rest := ErrorMentions(ms[1..]);
      assert forall k :: 1 <= k < |ms| ==> ms[k] == ms[1..][k - 1];
      (if MentionsError(ms[0]) then [ms[0].content] else []) + rest
  }

  // ------------------------------------------------------------ sentiment

  const DontKnowWords: seq<string> := ["don't know", "dont know", "not sure", "no idea"]
  const TellMeWords: seq<string> := ["tell me", "just tell", "please tell"]
  const NegativeWords: seq<string> := [
    "can't", "too hard", "impossible", "frustrated", "frustrating", "frustrate",
    "don't understand", "stuck", "not sure", "i don't know", "dont know",
    "tell me", "just tell", "please tell", "tell me now", "give me",
    "i dont know", "dont know", "no idea", "give up"]
  const PositiveWords: seq<string> :=
    ["great", "thanks", "yes", "got it", "understand", "makes sense", "i see", "ah"]

  /** Sentiment of one message: repeated refusals, then negative words, then positive words. */
  function DetectSentiment(message: string): Sentiment {
    var lower := ToLower(message);
    if CountWords(DontKnowWords, lower) >= 2 || CountWords(TellMeWords, lower) >= 2 then Negative
    else if ContainsAny(lower, NegativeWords) then Negative
    else if ContainsAny(lower, PositiveWords) then Positive
    else Neutral
  }

  /**
   * Negative wins over positive, and the repeated "tell me" count never decides
   * anything on its own: every "tell me" phrase is already a negative word.
   */
  lemma SentimentCharacterisation(message: string)
    ensures var lower := ToLower(message);
      && (DetectSentiment(message) == Negative <==>
            CountWords(DontKnowWords, lower) >= 2 || ContainsAny(lower, NegativeWords))
      && (DetectSentiment(message) == Positive <==>
            !(CountWords(DontKnowWords, lower) >= 2 || ContainsAny(lower, NegativeWords))
            && ContainsAny(lower, PositiveWords))
  {
    var lower := ToLower(message);
    if CountWords(TellMeWords, lower) >= 2 {
      CountWordsPositive(TellMeWords, lower);
      var k :| 0 <= k < |TellMeWords| && Contains(lower, TellMeWords[k]);
      assert TellMeWords[k] == NegativeWords[11 + k];
    }
  }

  // ------------------------------------------------------------ problem type

  const QuadraticWords: seq<string> := ["quadratic", "x²"]
  const LinearWords: seq<string> := ["linear", "slope"]
  const GeometryWords: seq<string> := ["area", "perimeter"]
  const FractionWords: seq<string> := ["fraction", "divide"]

  /** The first keyword group found in the whole transcript, joined with spaces and lowercased. */
  function DetectProblemType(ms: seq<Message>): Option<string> {
    var allText := ToLower(Join(Contents(ms), " "));
    if ContainsAny(allText, QuadraticWords) then Some("quadratic_equation")
    else if ContainsAny(allText, LinearWords) then Some("linear_equation")
    else if ContainsAny(allText, GeometryWords) then Some("geometry")
    else if ContainsAny(allText, FractionWords) then Some("fractions")
    else None
  }

  /** Some message of the transcript, lowercased, contains a word of the group. */
  predicate Mentioned(cs: seq<string>, words: seq<string>) {
    exists k | 0 <= k < |cs| :: ContainsAny(ToLower(cs[k]), words)
  }

  lemma ContainsAnyAcrossSpace(a: string, b: string, words: seq<string>)
    requires forall k :: 0 <= k < |words| ==> ' ' !in words[k]
    ensures ContainsAny(a + " " + b, words) <==> ContainsAny(a, words) || ContainsAny(b, words)
  {
    forall k | 0 <= k < |words|
      ensures Contains(a + [' '] + b, words[k]) <==> Contains(a, words[k]) || Contains(b, words[k])
    {
      ContainsAcrossSeparator(a, ' ', b, words[k]);
    }
    assert a + " " + b == a + [' '] + b;
  }

  /** Joining the messages with spaces creates no keyword that no single message contains. */
  lemma {:induction false} JoinedMentions(cs: seq<string>, words: seq<string>)
    requires forall k :: 0 <= k < |words| ==> |words[k]| > 0 && ' ' !in words[k]
    ensures ContainsAny(ToLower(Join(cs, " ")), words) <==> Mentioned(cs, words)
    decreases |cs|
  {
    if |cs| == 0 {
      assert ToLower(Join(cs, " ")) == "";
    } else if |cs| == 1 {
      assert Join(cs, " ") == cs[0];
    } else {
      var rest := Join(cs[1..], " ");
      assert Join(cs, " ") == cs[0] + " " + rest;
      ToLowerConcat(cs[0] + " ", rest);
      ToLowerConcat(cs[0], " ");
      assert ToLower(" ") == " ";
      ContainsAnyAcrossSpace(ToLower(cs[0]), ToLower(rest), words);
      JoinedMentions(cs[1..], words);
      if Mentioned(cs[1..], words) {
        var k :| 0 <= k < |cs[1..]| && ContainsAny(ToLower(cs[1..][k]), words);
        assert cs[k + 1] == cs[1..][k];
      }
      if Mentioned(cs, words) {
        var k :| 0 <= k < |cs| && ContainsAny(ToLower(cs[k]), words);
        if k > 0 { assert cs[1..][k - 1] == cs[k]; }
      }
    }
  }

  /**
   * The problem type is decided message by message: the first group, in the
   * order quadratic, linear, geometry, fractions, that some message mentions.
   */
  lemma ProblemTypeByMessage(ms: seq<Message>)
    ensures var cs := Contents(ms);
      DetectProblemType(ms) ==
        if Mentioned(cs, QuadraticWords) then Some("quadratic_equation")
        else if Mentioned(cs, LinearWords) then Some("linear_equation")
        else if Mentioned(cs, GeometryWords) then Some("geometry")
        else if Mentioned(cs, FractionWords) then Some("fractions")
        else None
  {
    var cs := Contents(ms);
    JoinedMentions(cs, QuadraticWords);
    JoinedMentions(cs, LinearWords);
    JoinedMentions(cs, GeometryWords);
    JoinedMentions(cs, FractionWords);
  }

  // ------------------------------------------------------------ conversation context

  /** The context the detector derives from a transcript. */
  function ContextOf(ms: seq<Message>): (c: ConversationContext)
    ensures c.turnCount == |UserContents(ms)| <= |ms| == c.conversationLength
    ensures |c.recentErrors| <= 5
  {
    var users := UserContents(ms);
    ConversationContext(
      |users|, DetectProblemType(ms), ErrorMentions(LastN(ms, 5)),
      DetectSentiment(LastOr(users)), |ms|)
  }

  /**
   * Builds the conversation context, collecting the error mentions of the
   * last five messages one message at a time.
   */
  method ExtractConversationContext(ms: seq<Message>) returns (c: ConversationContext)
    ensures c == ContextOf(ms)
  {
    var window := LastN(ms, 5);
    var recentErrors: seq<string> := [];
    var k := 0;
    while k < |window|
      invariant 0 <= k <= |window|
      invariant recentErrors == ErrorMentions(window[..k])
    {
      ErrorMentionsSnoc(window[..k], window[k]);
      assert window[..k + 1] == window[..k] + [window[k]];
      if MentionsError(window[k]) {
        recentErrors := recentErrors + [window[k].content];
      }
      k := k + 1;
    }
    assert window[..k] == window;
    var users := UserContents(ms);
    c := ConversationContext(
      |users|, DetectProblemType(ms), recentErrors,
      DetectSentiment(LastOr(users)), |ms|);
  }

  lemma {:induction false} ErrorMentionsSnoc(ms: seq<Message>, m: Message)
    ensures ErrorMentions(ms + [m]) ==
      ErrorMentions(ms) + (if MentionsError(m) then [m.content] else [])
    decreases |ms|
  {
    if ms == [] {
      assert ErrorMentions([m]) == (if MentionsError(m) then [m.content] else []) + ErrorMentions([]);
    } else {
      assert (ms + [m])[1..] == ms[1..] + [m];
      ErrorMentionsSnoc(ms[1..], m);
    }
  }

  // ------------------------------------------------------------ fallback classifier

  const FrustrationWords: seq<string> := ["frustrated", "frustrating", "tell me now", "just tell"]
  const KnowledgeProbeWords: seq<string> :=
    ["do you remember", "do you know", "are you familiar", "have you learned", "recall"]
  const LackOfKnowledgeWords: seq<string> :=
    ["don't know", "not aware", "dont know", "no idea", "not sure", "i don't remember"]
  const StuckWords: seq<string> := ["stuck", "can't proceed"]
  const ConfusionWords: seq<string> := ["don't understand", "confused"]
  /** `/tell me|just tell|please tell|tell me now/i`: the last alternative is shadowed by the first. */
  const TellMeRequestWords: seq<string> := ["tell me", "just tell", "please tell", "tell me now"]

  /** How many of the messages contain one of the words (each message counts at most once). */
  function CountMessages(msgs: seq<string>, words: seq<string>): (n: nat)
    ensures n <= |msgs|
    decreases |msgs|
  {
    if msgs == [] then 0
    else (if ContainsAny(msgs[0], words) then 1 else 0) + CountMessages(msgs[1..], words)
  }

  function MapLower(xs: seq<string>): (r: seq<string>)
    ensures |r| == |xs| && forall k :: 0 <= k < |xs| ==> r[k] == ToLower(xs[k])
  {
    seq(|xs|, k requires 0 <= k < |xs| => ToLower(xs[k]))
  }

  /** The lowercased last user message. */
  function LastUserText(ms: seq<Message>): string {
    ToLower(LastOr(UserContents(ms)))
  }

  /** The lowercased last three user messages. */
  function RecentUserTexts(ms: seq<Message>): (r: seq<string>)
    ensures |r| <= 3
  {
    MapLower(LastN(UserContents(ms), 3))
  }

  /** The lowercased last assistant message. */
  function PreviousAssistantText(ms: seq<Message>): string {
    ToLower(LastOr(AssistantContents(ms)))
  }

  /** The first fallback rule: explicit frustration, repeated refusals, or lasting negativity. */
  predicate FrustrationSignal(ms: seq<Message>, c: ConversationContext) {
    var recent := RecentUserTexts(ms);
    || ContainsAny(LastUserText(ms), FrustrationWords)
    || (c.turnCount >= 3 &&
        (CountMessages(recent, DontKnowWords) >= 2 || CountMessages(recent, TellMeRequestWords) >= 2))
    || (c.turnCount >= 4 && c.sentiment == Negative)
  }

  /** The second rule: a bare "no" right after the tutor probed for prior knowledge. */
  predicate RefusedKnowledgeProbe(ms: seq<Message>) {
    var answer := Trim(LastUserText(ms));
    (answer == "no" || answer == "nope" || answer == "not really")
    && ContainsAny(PreviousAssistantText(ms), KnowledgeProbeWords)
  }

  function Verdict(state: StudentState, confidence: real, evidence: string, c: ConversationContext): DetectedState {
    DetectedState(state, Finite(confidence), [evidence], c)
  }

  /** The pattern-based classifier used when the completion service fails. */
  function FallbackStateDetection(ms: seq<Message>, c: ConversationContext): (r: DetectedState)
    ensures r.context == c
    ensures |r.evidence| >= 1
    ensures r.confidence in {Finite(0.85), Finite(0.8), Finite(0.75), Finite(0.6)}
  {
    var last := LastUserText(ms);
    var recent := RecentUserTexts(ms);
    var dontKnowCount := CountMessages(recent, DontKnowWords);
    var tellMeCount := CountMessages(recent, TellMeRequestWords);
    if FrustrationSignal(ms, c) then
      DetectedState(Frustrated, Finite(0.85), [
        "Turn count: " + NatToString(c.turnCount),
        "Multiple \"I don't know\" or \"tell me\" requests: " + NatToString(dontKnowCount + tellMeCount),
        "Sentiment: " + SentimentName(c.sentiment)], c)
    else if RefusedKnowledgeProbe(ms) then
      Verdict(KnowledgeGap, 0.85, "Student responded \"no\" to knowledge question", c)
    else if ContainsAny(last, LackOfKnowledgeWords) then
      if c.turnCount >= 3 then
        Verdict(Frustrated, 0.75, "Multiple turns with \"I don't know\" responses", c)
      else
        Verdict(KnowledgeGap, 0.8, "Student expressed lack of knowledge", c)
    else if ContainsAny(last, StuckWords) then
      Verdict(Stuck, 0.8, "Student expressed being stuck", c)
    else if ContainsAny(last, ConfusionWords) then
      Verdict(Confused, 0.8, "Student expressed confusion", c)
    else
      Verdict(ReadyToLearn, 0.6, "No specific indicators detected", c)
  }

  /**
   * The rules in priority order.  Frustration is reported with confidence 0.85
   * exactly when the first rule fires; the knowledge-probe rule needs the first
   * rule silent; and the fallback never reports making_progress.
   */
  lemma FallbackPriority(ms: seq<Message>, c: ConversationContext)
    ensures var r := FallbackStateDetection(ms, c);
      && (r.state == Frustrated && r.confidence == Finite(0.85) <==> FrustrationSignal(ms, c))
      && (r.state == KnowledgeGap && r.confidence == Finite(0.85) <==>
            !FrustrationSignal(ms, c) && RefusedKnowledgeProbe(ms))
      && r.state != MakingProgress
      && (r.state == ReadyToLearn <==> r.confidence == Finite(0.6))
      && (FrustrationSignal(ms, c) ==> |r.evidence| == 3)
      && (!FrustrationSignal(ms, c) ==> |r.evidence| == 1)
  {
    var last := LastUserText(ms);
    if FrustrationSignal(ms, c) {
    } else if RefusedKnowledgeProbe(ms) {
    } else if ContainsAny(last, LackOfKnowledgeWords) {
    } else if ContainsAny(last, StuckWords) {
    } else if ContainsAny(last, ConfusionWords) {
    }
  }

  /**
   * Don't-know language decides by turn count: frustrated from the third turn
   * on, a knowledge gap before, unless an earlier rule fired.
   */
  lemma LackOfKnowledgeByTurns(ms: seq<Message>, c: ConversationContext)
    requires !FrustrationSignal(ms, c) && !RefusedKnowledgeProbe(ms)
    requires ContainsAny(LastUserText(ms), LackOfKnowledgeWords)
    ensures var r := FallbackStateDetection(ms, c);
      (c.turnCount >= 3 ==> r.state == Frustrated && r.confidence == Finite(0.75))
      && (c.turnCount < 3 ==> r.state == KnowledgeGap && r.confidence == Finite(0.8))
  {
  }

  /** Each recent message counts at most once, so the reported request count is at most six. */
  lemma FrustrationCountBounded(ms: seq<Message>)
    ensures CountMessages(RecentUserTexts(ms), DontKnowWords)
      + CountMessages(RecentUserTexts(ms), TellMeRequestWords) <= 6
  {
  }

  /** Saying "frustrated" in the last message is frustration, whatever else holds. */
  lemma ExplicitFrustrationWins(ms: seq<Message>, c: ConversationContext)
    requires Contains(LastUserText(ms), "frustrated")
    ensures FallbackStateDetection(ms, c).state == Frustrated
    ensures FallbackStateDetection(ms, c).confidence == Finite(0.85)
  {
    assert ContainsAny(LastUserText(ms), FrustrationWords) by {
      assert FrustrationWords[0] == "frustrated";
    }
  }

  // ------------------------------------------------------------ parsing the analysis reply

  /** The three labelled fields of the reply. */
  datatype Field = StateField | ConfidenceField | EvidenceField

  function Label(f: Field): string {
    match f
    case StateField => "state:"
    case ConfidenceField => "confidence:"
    case EvidenceField => "evidence:"
  }

  const NumberChars: string := "0123456789."

  /** Last index in `[lo, hi)` whose character is not a newline. */
  function LastNonNewline(s: string, lo: nat, hi: nat): (r: Option<nat>)
    requires lo <= hi <= |s|
    ensures r.Some? ==> (lo <= r.value < hi && s[r.value] != '\n'
      && forall m :: r.value < m < hi ==> s[m] == '\n')
    ensures r.None? ==> forall m :: lo <= m < hi ==> s[m] == '\n'
    decreases hi - lo
  {
    if hi == lo then None
    else if s[hi - 1] != '\n' then Some(hi - 1)
    else LastNonNewline(s, lo, hi - 1)
  }

  /**
   * End of `[^\n]+(?:\n[^\n]+)*` matched greedily from `p`: whole lines up to
   * a blank line or the end of the input.
   */
  function LinesEnd(s: string, p: nat): (e: nat)
    requires p < |s| && s[p] != '\n'
    ensures p < e <= |s|
    ensures e == |s| || s[e] == '\n'
    decreases |s| - p
  {
    var q := RunEnd(NoneOf("\n"), s, p);
    if q + 1 < |s| && s[q + 1] != '\n' then LinesEnd(s, q + 1) else q
  }

  /**
   * The text the field's capture group takes when the pattern
   * `LABEL\s*(...)` (case-insensitive) is tried at index `i`, if it matches there.
   */
  function CaptureAt(f: Field, s: string, i: nat): (r: Option<string>)
    ensures r.Some? ==> r.value != []
    ensures r.Some? && f == EvidenceField ==> r.value[0] != '\n'
  {
    var tag := Label(f);
    if !At(ToLower(s), tag, i) then None
    else
      var p := RunEnd(SpaceClass, s, i + |tag|);
      match f
      case StateField =>
        var q := RunEnd(WordClass, s, p);
        if q == p then None else Some(s[p..q])
      case ConfidenceField =>
        var q := RunEnd(OneOf(NumberChars), s, p);
        if q == p then None else Some(s[p..q])
      case EvidenceField =>
        if p < |s| then Some(s[p..LinesEnd(s, p)])
        else
          // `\s*` gives back its last non-newline character to `[^\n]+`.
          match LastNonNewline(s, i + |tag|, p)
          case None => None
          case Some(k) => Some(s[k..k + 1])
  }

  /** `s.match(pattern)?.[1]`: the capture of the leftmost match at or after `from`. */
  function FirstCapture(f: Field, s: string, from: nat): (r: Option<string>)
    ensures r.Some? ==> r.value != []
    ensures r.Some? && f == EvidenceField ==> r.value[0] != '\n'
    ensures r.None? ==> forall i :: from <= i <= |s| ==> CaptureAt(f, s, i).None?
    decreases |s| + 1 - from
  {
    if from > |s| then None
    else match CaptureAt(f, s, from)
      case Some(t) => Some(t)
      case None => FirstCapture(f, s, from + 1)
  }

  function DigitsValue(ds: string): nat
    decreases |ds|
  {
    if ds == [] then 0
    else DigitsValue(ds[..|ds| - 1]) * 10 + (if IsDigit(ds[|ds| - 1]) then ds[|ds| - 1] as int - '0' as int else 0)
  }

  function Pow10(n: nat): (r: nat)
    ensures r >= 1
  {
    if n == 0 then 1 else 10 * Pow10(n - 1)
  }

  /**
   * `parseFloat` on a run of digits and dots: the longest prefix of the form
   * digits[.digits], NaN when that prefix holds no digit.
   */
  function ParseDecimal(t: string): (r: JsNumber)
    ensures r.Finite? ==> r.value >= 0.0
    ensures r.NaN? ==> t == [] || !IsDigit(t[0])
  {
    var ip := RunEnd(DigitClass, t, 0);
    var fp := if ip < |t| && t[ip] == '.' then RunEnd(DigitClass, t, ip + 1) else ip;
    var fraction := if fp > ip then t[ip + 1..fp] else [];
    if ip == 0 && fraction == [] then NaN
    else Finite(DigitsValue(t[..ip]) as real + DigitsValue(fraction) as real / Pow10(|fraction|) as real)
  }

  /** Splits on newlines and keeps the non-empty pieces (`split('\n').filter(Boolean)`). */
  function NonEmptyLines(t: string): (r: seq<string>)
    ensures forall k :: 0 <= k < |r| ==> r[k] != []
    ensures t != [] && t[0] != '\n' ==> |r| >= 1
  {
    var pieces := Split(t, '\n');
    if t != [] && t[0] != '\n' then
      assert pieces[0] != [];
      KeepNonEmpty(pieces)
    else KeepNonEmpty(pieces)
  }

  function KeepNonEmpty(xs: seq<string>): (r: seq<string>)
    ensures forall k :: 0 <= k < |r| ==> r[k] != []
    ensures |xs| > 0 && xs[0] != [] ==> |r| >= 1 && r[0] == xs[0]
    ensures forall k :: 0 <= k < |r| ==> r[k] in xs
    decreases |xs|
  {
    if xs == [] then []
    else if xs[0] == [] then KeepNonEmpty(xs[1..])
    else [xs[0]] + KeepNonEmpty(xs[1..])
  }

  const DefaultEvidence: string := "No specific evidence provided"

  /** The STATE field: a known state name, in any case, or ready_to_learn. */
  function StateOf(analysis: string): StudentState {
    var stateName := match FirstCapture(StateField, analysis, 0)
      case Some(t) => ToLower(t)
      case None => "ready_to_learn";
    match StateNamed(stateName)
    case Some(st) => st
    case None => ReadyToLearn
  }

  /** The CONFIDENCE field, parsed as a decimal; "0.7" when it is missing. */
  function ConfidenceOf(analysis: string): JsNumber {
    ParseDecimal(match FirstCapture(ConfidenceField, analysis, 0)
      case Some(t) => t
      case None => "0.7")
  }

  /** The non-blank lines of the EVIDENCE field, or the default evidence. */
  function EvidenceOf(analysis: string): (r: seq<string>)
    ensures |r| >= 1 && forall k :: 0 <= k < |r| ==> r[k] != []
    ensures FirstCapture(EvidenceField, analysis, 0).None? ==> r == [DefaultEvidence]
  {
    match FirstCapture(EvidenceField, analysis, 0)
    case Some(t) => NonEmptyLines(t)
    case None => [DefaultEvidence]
  }

  /** Reads the STATE, CONFIDENCE and EVIDENCE fields of the completion service's reply. */
  function ParseStateAnalysis(analysis: string, c: ConversationContext): (r: DetectedState)
    ensures r.context == c
    ensures r.confidence.NaN? || 0.0 <= r.confidence.value <= 1.0
    ensures |r.evidence| >= 1 && forall k :: 0 <= k < |r.evidence| ==> r.evidence[k] != []
  {
    DetectedState(StateOf(analysis), Clamp01(ConfidenceOf(analysis)), EvidenceOf(analysis), c)
  }

  /** Without the label anywhere in the reply, the field has no capture. */
  lemma {:induction false} NoLabelNoCapture(f: Field, s: string, from: nat)
    requires !Contains(ToLower(s), Label(f))
    ensures FirstCapture(f, s, from).None?
    decreases |s| + 1 - from
  {
    if from <= |s| {
      assert !At(ToLower(s), Label(f), from);
      NoLabelNoCapture(f, s, from + 1);
    }
  }

  /** A reply that opens with `STATE: <name>` on its own line yields that state. */
  lemma ParseReadsLeadingState(st: StudentState, rest: string)
    ensures StateOf("STATE: " + StateName(st) + "\n" + rest) == st
  {
    var name := StateName(st);
    StateNameIsLowerWord(st);
    LeadingWordCapture(name, rest);
    assert ToLower(name) == name;
    StateNameRoundTrip(st);
  }

  /** Every state name is a non-empty run of lower-case word characters. */
  lemma StateNameIsLowerWord(st: StudentState)
    ensures var name := StateName(st);
      name != [] && !IsSpace(name[0])
      && forall m :: 0 <= m < |name| ==> IsWordChar(name[m]) && Lower(name[m]) == name[m]
  {
    LowerWord(StateName(st));
  }

  /** A non-empty text of lower-case letters and underscores. */
  lemma LowerWord(name: string)
    requires name != [] && forall m | 0 <= m < |name| :: 'a' <= name[m] <= 'z' || name[m] == '_'
    ensures !IsSpace(name[0]) && forall m :: 0 <= m < |name| ==> IsWordChar(name[m]) && Lower(name[m]) == name[m]
  {
  }

  /** The capture of `STATE:\s*(\w+)` on a reply that opens with `STATE: <word>` and a newline. */
  lemma LeadingWordCapture(w: string, rest: string)
    requires w != [] && !IsSpace(w[0])
    requires forall m :: 0 <= m < |w| ==> IsWordChar(w[m])
    ensures FirstCapture(StateField, "STATE: " + w + "\n" + rest, 0) == Some(w)
  {
    var a := "STATE: " + w + "\n" + rest;
    assert a[..7] == "STATE: " && a[7..7 + |w|] == w && a[7 + |w|] == '\n';
    assert At(ToLower(a), "state:", 0) by {
      ToLowerSlice(a, 0, 6);
      assert a[0..6] == "STATE:";
    }
    assert RunEnd(SpaceClass, a, 6) == 7 by {
      assert a[7] == w[0];
      RunEndIs(SpaceClass, a, 6, 7);
    }
    assert RunEnd(WordClass, a, 7) == 7 + |w| by {
      assert forall m :: 7 <= m < 7 + |w| ==> a[m] == w[m - 7];
      RunEndIs(WordClass, a, 7, 7 + |w|);
    }
    assert CaptureAt(StateField, a, 0) == Some(w);
  }

  /** A reply without a CONFIDENCE label gets the default confidence 0.7. */
  lemma ParseDefaultConfidence(analysis: string)
    requires !Contains(ToLower(analysis), "confidence:")
    ensures ConfidenceOf(analysis) == Finite(0.7)
  {
    NoLabelNoCapture(ConfidenceField, analysis, 0);
    var t := "0.7";
    RunEndIs(DigitClass, t, 0, 1);
    RunEndIs(DigitClass, t, 2, 3);
    assert t[..1] == "0" && t[2..3] == "7";
    assert DigitsValue("0") == 0 by { assert "0"[..0] == []; }
    assert DigitsValue("7") == 7 by { assert "7"[..0] == []; }
  }

  /** A bare "." after CONFIDENCE: at the start of the reply parses to NaN, which clamping keeps. */
  lemma ParseDotConfidenceIsNaN(rest: string, c: ConversationContext)
    requires rest == [] || rest[0] !in NumberChars
    ensures ParseStateAnalysis("CONFIDENCE: ." + rest, c).confidence == NaN
  {
    DotCapture(rest);
    assert ParseDecimal(".") == NaN by {
      RunEndIs(DigitClass, ".", 0, 0);
    }
  }

  /** The capture of the CONFIDENCE field of a reply opening with `CONFIDENCE: .` is the dot. */
  lemma DotCapture(rest: string)
    requires rest == [] || rest[0] !in NumberChars
    ensures FirstCapture(ConfidenceField, "CONFIDENCE: ." + rest, 0) == Some(".")
  {
    var a := "CONFIDENCE: ." + rest;
    assert a[..13] == "CONFIDENCE: .";
    assert At(ToLower(a), "confidence:", 0) by {
      ToLowerSlice(a, 0, 11);
      assert a[0..11] == "CONFIDENCE:";
    }
    assert a[12..13] == "." && '.' in NumberChars;
    assert |a| == 13 || a[13] == rest[0];
    SpaceThenNumber(a, ".");
    OpeningConfidence(a, ".");
  }

  /** Digits and the decimal point are not white space. */
  lemma NumberCharNotSpace(c: char)
    requires c in NumberChars
    ensures !InClass(SpaceClass, c)
  {
  }

  /** A reply opening with the CONFIDENCE label, white space up to index 12 and then the run of number characters `v` captures that run. */
  lemma OpeningConfidence(a: string, v: string)
    requires v != [] && 12 + |v| <= |a| && At(ToLower(a), "confidence:", 0) && a[12..12 + |v|] == v
    requires RunEnd(SpaceClass, a, 11) == 12 && RunEnd(OneOf(NumberChars), a, 12) == 12 + |v|
    ensures FirstCapture(ConfidenceField, a, 0) == Some(v)
  {
    ConfidenceCaptureAt(a, 0);
    FirstCaptureAtStart(ConfidenceField, a);
  }

  /** Where the label is found, the CONFIDENCE capture is the run of number characters after the white space. */
  lemma ConfidenceCaptureAt(s: string, i: nat)
    requires At(ToLower(s), "confidence:", i)
    ensures var p := RunEnd(SpaceClass, s, i + 11);
      var q := RunEnd(OneOf(NumberChars), s, p);
      CaptureAt(ConfidenceField, s, i) == if q == p then None else Some(s[p..q])
  {
  }

  /** A pattern that matches at the start of the reply is the leftmost match. */
  lemma FirstCaptureAtStart(f: Field, s: string)
    requires CaptureAt(f, s, 0).Some?
    ensures FirstCapture(f, s, 0) == CaptureAt(f, s, 0)
  {
  }

  /** One space at index 11, then the run of number characters `v`. */
  lemma SpaceThenNumber(a: string, v: string)
    requires v != [] && 12 + |v| <= |a| && a[11] == ' '
    requires a[12..12 + |v|] == v && forall m | 0 <= m < |v| :: v[m] in NumberChars
    requires |a| == 12 + |v| || a[12 + |v|] !in NumberChars
    ensures RunEnd(SpaceClass, a, 11) == 12 && RunEnd(OneOf(NumberChars), a, 12) == 12 + |v|
  {
    assert a[12] == v[0];
    NumberCharNotSpace(v[0]);
    RunEndIs(SpaceClass, a, 11, 12);
    assert forall m | 12 <= m < 12 + |v| :: a[m] == v[m - 12];
    RunEndIs(OneOf(NumberChars), a, 12, 12 + |v|);
  }

  /**
   * `detectStudentState`: the reply of the completion service is parsed when
   * the call succeeds (`None` models a thrown error), and the fallback
   * classifier decides otherwise; both see the same conversation context.
   */
  function DetectStudentState(ms: seq<Message>, reply: Option<string>): (r: DetectedState)
    ensures r.context == ContextOf(ms)
    ensures |r.evidence| >= 1
    ensures reply.None? ==> r == FallbackStateDetection(ms, ContextOf(ms))
    ensures reply.Some? ==> r == ParseStateAnalysis(reply.value, ContextOf(ms))
  {
    var c := ContextOf(ms);
    match reply
    case Some(analysis) => ParseStateAnalysis(analysis, c)
    case None => FallbackStateDetection(ms, c)
  }
}
