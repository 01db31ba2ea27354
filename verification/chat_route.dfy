/**
 * The chat endpoint: the Socratic-compliance check of a draft reply, and the
 * request handler that detects the student's state, builds the adaptive
 * prompt, asks the completion service for a draft, and regenerates it at
 * most once for accuracy and at most once for compliance.
 *
 * The completion service is a parameter `complete` from the transcript sent
 * to it to its reply; a `Thrown` reply is an exception.
 */
module ChatRoute {
  import opened Strings
  import opened Regex
  import opened Types
  import opened StateDetector
  import opened StrategySelector
  import opened PromptBuilder
  import opened ResponseValidator
  import opened Env

  // ------------------------------------------------------------ compliance check

  const Dimensions: seq<string> := ["length", "width", "height", "base", "radius", "diameter"]
  const TimesWords: seq<string> := ["times", "by", "multiplied", "×", "*"]
  const OfIsEquals: seq<string> := ["of", "is", "equals"]
  const CalculateWords: seq<string> := ["calculate", "find", "compute", "multiply", "divide"]

  /** `\s+\d+` */
  const SpacedNumber: Re := Cat(Spaces1, Digits1)

  /** `the answer\s+is` */
  const TheAnswerIs: Re := Cat(Str("the answer"), Cat(Spaces1, Str("is")))

  const DirectAnswerPatterns: seq<Re> := [
    Cat(Str("the answer is"), SpacedNumber),
    Cat(Str("the solution is"), SpacedNumber),
    Seq([Str("equals"), SpacedNumber, Spaces, Eol]),
    Cat(Str("the result is"), SpacedNumber),
    Seq([Bol, Str("x"), Spaces, Str("="), Spaces, Digits1]),
    Seq([Str("final answer:"), Spaces, Digits1]),
    TheAnswerIs
  ]

  /** `\bverb\s+\d+\s+joiner\s+\d+` */
  function ArithmeticPhrase(verb: string, joiner: string): Re {
    Seq([WordBoundary, Str(verb), SpacedNumber, Spaces1, Str(joiner), SpacedNumber])
  }

  const FormulaPatterns: seq<Re> := [
    Seq([WordBoundary, Words(["formula", "equation", "is", "equals", "multiply", "divide", "add", "subtract"]),
         Spaces1, Words(Dimensions + ["area", "perimeter", "volume"]), Spaces, Words(TimesWords)]),
    Seq([WordBoundary, Str("area"), Spaces1, Words(OfIsEquals), Spaces1, Words(Dimensions), Spaces, Words(TimesWords)]),
    Seq([WordBoundary, Str("perimeter"), Spaces1, Words(OfIsEquals), Spaces1, AnyText, Spaces, Words(TimesWords)]),
    Seq([WordBoundary, Str("volume"), Spaces1, Words(OfIsEquals), Spaces1, AnyText, Spaces, Words(TimesWords)]),
    Seq([WordBoundary, Str("the"), Spaces1, Words(["area", "perimeter", "volume", "formula", "equation"]), Spaces1, Str("is")]),
    Seq([WordBoundary, Str("found"), Spaces1, Str("by"), Spaces1, Words(["multiplying", "dividing", "adding", "subtracting"])]),
    ArithmeticPhrase("multiply", "by"),
    ArithmeticPhrase("divide", "by"),
    ArithmeticPhrase("add", "and"),
    ArithmeticPhrase("subtract", "from"),
    Seq([WordBoundary, Words(["recall", "remember", "think about", "do you know"]), Spaces1, Words(["how", "what"]),
         Spaces1, Words(["to", "we", "you"]), Spaces1, Words(CalculateWords)]),
    Seq([WordBoundary, Str("how"), Spaces1, Words(["do", "might", "can"]), Spaces1, Words(["we", "you"]),
         Spaces1, Words(CalculateWords)]),
    Seq([WordBoundary, Str("using"), Spaces1, Words(["its", "the"]), Spaces1, Words(Dimensions)])
  ]

  const ImperativeVerbs: seq<string> := ["multiply", "divide", "add", "subtract", "calculate", "compute", "find", "solve"]

  /** `/^(multiply|...|solve)/i`. */
  const ImperativePattern: Re := Cat(Bol, Words(ImperativeVerbs))

  const DirectAnswerReason: string := "Direct answer detected"
  const FormulaReason: string := "Direct formula or method stated"
  const NoQuestionReason: string := "No guiding questions found - must use Socratic method"
  const ImperativeReason: string := "Imperative statement detected - must ask questions instead"

  datatype Verdict = Compliant | Violation(reason: string)

  /** Number of characters of `s` that belong to `cs` (`s.match(/[cs]/g).length`, 0 when there is none). */
  function CountChars(s: string, cs: string): (n: nat)
    ensures n <= |s|
    decreases |s|
  {
    if s == [] then 0 else (if s[0] in cs then 1 else 0) + CountChars(s[1..], cs)
  }

  function QuestionCount(response: string): nat {
    CountChars(response, "?")
  }

  /** Every '.', '!' and '?' counts as a sentence end, decimal points included. */
  function SentenceCount(response: string): nat {
    CountChars(response, ".!?")
  }

  /** Some pattern of the table matches. */
  predicate AnyTest(patterns: seq<Re>, s: string) {
    exists k | 0 <= k < |patterns| :: Test(patterns[k], s)
  }

  /** The checks of `validateResponse` in order, for given tables; the first failing one gives the reason. */
  function VerdictWith(response: string, direct: seq<Re>, formulas: seq<Re>, imperative: Re): Verdict {
    var lower := ToLower(response);
    if AnyTest(direct, lower) then Violation(DirectAnswerReason)
    else if AnyTest(formulas, lower) then Violation(FormulaReason)
    else LaterChecks(response, imperative)
  }

  /** The checks of `validateResponse` after the two tables: sentences without a question, then an imperative opening. */
  function LaterChecks(response: string, imperative: Re): Verdict {
    if SentenceCount(response) > 1 && QuestionCount(response) == 0 then Violation(NoQuestionReason)
    else if Test(imperative, ToLower(Trim(response))) then Violation(ImperativeReason)
    else Compliant
  }

  /** The verdict of `validateResponse` with its own tables. */
  function ComplianceOf(response: string): Verdict {
    VerdictWith(response, DirectAnswerPatterns, FormulaPatterns, ImperativePattern)
  }

  /**
   * The body of `validateResponse`: loops over the direct-answer and formula
   * tables returning at the first match, then the question and imperative checks.
   */
  method CheckResponse(response: string, direct: seq<Re>, formulas: seq<Re>, imperative: Re) returns (v: Verdict)
    ensures v == VerdictWith(response, direct, formulas, imperative)
  {
    var lower := ToLower(response);
    for k := 0 to |direct|
      invariant forall j | 0 <= j < k :: !Test(direct[j], lower)
    {
      if Test(direct[k], lower) {
        return Violation(DirectAnswerReason);
      }
    }
    for k := 0 to |formulas|
      invariant forall j | 0 <= j < k :: !Test(formulas[j], lower)
    {
      if Test(formulas[k], lower) {
        return Violation(FormulaReason);
      }
    }
    v := LaterChecks(response, imperative);
  }

  /** `validateResponse`. */
  method ValidateResponse(response: string) returns (v: Verdict)
    ensures v == ComplianceOf(response)
  {
    v := CheckResponse(response, DirectAnswerPatterns, FormulaPatterns, ImperativePattern);
  }

  lemma CountCharsConcat(a: string, b: string, cs: string)
    ensures CountChars(a + b, cs) == CountChars(a, cs) + CountChars(b, cs)
    decreases |a|
  {
    if a != [] {
      assert (a + b)[0] == a[0] && (a + b)[1..] == a[1..] + b;
      CountCharsConcat(a[1..], b, cs);
    } else {
      assert a + b == b;
    }
  }

  /**
   * A decimal point counts as a sentence end: a question-free reply holding a
   * decimal such as "3.5" and ending in a period fails the question check,
   * unless a pattern check already fired.
   */
  lemma DecimalPointCountsAsSentence(pre: string, d1: char, d2: char, direct: seq<Re>, formulas: seq<Re>, imperative: Re)
    requires IsDigit(d1) && IsDigit(d2) && '?' !in pre
    requires !AnyTest(direct, ToLower(pre + [d1, '.', d2, '.']))
    requires !AnyTest(formulas, ToLower(pre + [d1, '.', d2, '.']))
    ensures VerdictWith(pre + [d1, '.', d2, '.'], direct, formulas, imperative) == Violation(NoQuestionReason)
  {
    var tail := [d1, '.', d2, '.'];
    CountCharsConcat(pre, tail, ".!?");
    CountCharsConcat(pre, tail, "?");
    DecimalTailCounts(d1, d2);
    NoCharNoCount(pre, '?');
  }

  /** A digit, a point, a digit and a period: two sentence ends and no question mark. */
  lemma DecimalTailCounts(d1: char, d2: char)
    requires IsDigit(d1) && IsDigit(d2)
    ensures CountChars([d1, '.', d2, '.'], ".!?") == 2 && CountChars([d1, '.', d2, '.'], "?") == 0
  {
    var tail := [d1, '.', d2, '.'];
    assert tail[1..] == ['.', d2, '.'] && tail[1..][1..] == [d2, '.'] && tail[1..][1..][1..] == ['.'];
    assert d1 !in ".!?" && d2 !in ".!?" && d1 !in "?" && d2 !in "?";
    assert CountChars(['.'], ".!?") == 1 && CountChars(['.'], "?") == 0;
    assert CountChars([d2, '.'], ".!?") == 1 && CountChars([d2, '.'], "?") == 0;
  }

  lemma NoCharNoCount(s: string, c: char)
    requires c !in s
    ensures CountChars(s, [c]) == 0
    decreases |s|
  {
    if s != [] {
      assert s[0] != c;
      assert c !in s[1..];
      NoCharNoCount(s[1..], c);
    }
  }

  /** `/^(w1|w2|...)/` tests whether the text starts with one of the words. */
  lemma StartTestIff(ws: seq<string>, s: string)
    requires |ws| > 0
    ensures Test(Cat(Bol, Words(ws)), s) <==> exists k | 0 <= k < |ws| :: StartsWith(s, ws[k])
  {
    if Test(Cat(Bol, Words(ws)), s) {
      var i, j :| 0 <= i <= j <= |s| && Matches(Cat(Bol, Words(ws)), s, i, j);
      CatSplit(Bol, Words(ws), s, i, j);
      var m :| i <= m <= j && Matches(Bol, s, i, m) && Matches(Words(ws), s, m, j);
      WordsMatches(ws, s, 0, j);
      var k :| 0 <= k < |ws| && j == |ws[k]| && At(s, ws[k], 0);
      assert StartsWith(s, ws[k]);
    }
    if exists k | 0 <= k < |ws| :: StartsWith(s, ws[k]) {
      var k :| 0 <= k < |ws| && StartsWith(s, ws[k]);
      assert At(s, ws[k], 0);
      WordsMatches(ws, s, 0, |ws[k]|);
      CatMatches(Bol, Words(ws), s, 0, 0, |ws[k]|);
    }
  }

  /**
   * A reply that passes the pattern and question checks is rejected as
   * imperative exactly when its trimmed text starts with one of the verbs,
   * in any case and with no word boundary required ("Findings" counts).
   */
  lemma ImperativeCheckIff(response: string, direct: seq<Re>, formulas: seq<Re>, verbs: seq<string>)
    requires |verbs| > 0
    requires !AnyTest(direct, ToLower(response)) && !AnyTest(formulas, ToLower(response))
    requires !(SentenceCount(response) > 1 && QuestionCount(response) == 0)
    ensures VerdictWith(response, direct, formulas, Cat(Bol, Words(verbs))) == Violation(ImperativeReason) <==>
      exists k | 0 <= k < |verbs| :: StartsWith(ToLower(Trim(response)), verbs[k])
    ensures VerdictWith(response, direct, formulas, Cat(Bol, Words(verbs))).Compliant? <==>
      forall k | 0 <= k < |verbs| :: !StartsWith(ToLower(Trim(response)), verbs[k])
  {
    StartTestIff(verbs, ToLower(Trim(response)));
  }

  /** "the answer is" anywhere in the reply, in any case, is a direct answer. */
  lemma TheAnswerIsIsDirect(response: string)
    requires Contains(ToLower(response), "the answer is")
    ensures ComplianceOf(response) == Violation(DirectAnswerReason)
  {
    var lower := ToLower(response);
    assert Test(TheAnswerIs, lower) by {
      TheAnswerIsMatches(lower);
    }
    assert Test(DirectAnswerPatterns[6], lower);
  }

  lemma TheAnswerIsMatches(lower: string)
    requires Contains(lower, "the answer is")
    ensures Test(TheAnswerIs, lower)
  {
    var i :| 0 <= i <= |lower| - 13 && At(lower, "the answer is", i);
    assert lower[i..i + 10] == "the answer" && lower[i + 10] == ' ' && lower[i + 11..i + 13] == "is" by {
      assert lower[i..i + 13] == "the answer is";
      assert lower[i..i + 13][..10] == lower[i..i + 10];
      assert lower[i..i + 13][10] == lower[i + 10];
      assert lower[i..i + 13][11..] == lower[i + 11..i + 13];
    }
    RunMatches(SpaceClass, lower, i + 11, i + 11);
    assert Matches(Class(SpaceClass), lower, i + 10, i + 11);
    CatMatches(Class(SpaceClass), Spaces, lower, i + 10, i + 11, i + 11);
    StrMatches(lower, "is", i + 11);
    CatMatches(Spaces1, Str("is"), lower, i + 10, i + 11, i + 13);
    StrMatches(lower, "the answer", i);
    CatMatches(Str("the answer"), Cat(Spaces1, Str("is")), lower, i, i + 10, i + 13);
  }

  /** A compliant reply asks a question or has at most one sentence end, and does not open with an imperative. */
  lemma CompliantAsksOrIsShort(response: string, direct: seq<Re>, formulas: seq<Re>, imperative: Re)
    requires VerdictWith(response, direct, formulas, imperative).Compliant?
    ensures QuestionCount(response) > 0 || SentenceCount(response) <= 1
    ensures !Test(imperative, ToLower(Trim(response)))
    ensures !AnyTest(direct, ToLower(response)) && !AnyTest(formulas, ToLower(response))
  {
    var lower := ToLower(response);
    assert !AnyTest(direct, lower);
    assert !AnyTest(formulas, lower);
    assert !(SentenceCount(response) > 1 && QuestionCount(response) == 0);
  }

  // ------------------------------------------------------------ request handling

  datatype ChatResponse =
    | Answer(message: string, sessionId: Option<string>)
    | Failure(status: nat, error: string, message: string)

  const Apology: string := "I apologize, but I could not generate a response. Please try again."
  const RephraseRequest: string :=
    "Please rephrase your response " + "to ask guiding questions instead of providing direct answers. Focus on helping the student discover the solution themselves."

  /** `/inaccurate|wrong|not.*equal|not.*same|not.*correct/i`. */
  const StudentCorrectionPattern: Re :=
    Alt(Str("inaccurate"), Alt(Str("wrong"), Alt(Pair("not", "equal"), Alt(Pair("not", "same"), Pair("not", "correct")))))

  const CitingHead: string := "A student correctly " + "pointed out that your previous response was inaccurate. They said: \""
  const CitingTail: string :=
    "\". Acknowledge their correction immediately and provide an accurate explanation. Be precise and mathematically correct."
  const IssueHead: string := "Your response contains " + "a mathematically inaccurate analogy or definition. The issue: "
  const IssueTail: string :=
    ". Please correct this and provide an accurate explanation. Use precise mathematical definitions."

  function CitingPrompt(lastUserMessage: string): string {
    CitingHead + lastUserMessage + CitingTail
  }

  function IssuePrompt(issue: string): string {
    IssueHead + issue + IssueTail
  }

  /**
   * The student correction test on a lowercased message, written out
   * alternative by alternative; `StudentCorrectionIsRegex` proves it is the
   * regular expression's test.
   */
  predicate SaysReplyWasWrong(lower: string) {
    Contains(lower, "inaccurate") || Contains(lower, "wrong") || SameLineBefore(lower, "not", "equal")
    || SameLineBefore(lower, "not", "same") || SameLineBefore(lower, "not", "correct")
  }

  /** The correction request: it quotes the student when they said the reply was wrong, otherwise the first issue. */
  function CorrectionPrompt(ms: seq<Message>, issues: seq<string>): string
    requires issues != []
  {
    var lastUser := LastOr(UserContents(ms));
    if SaysReplyWasWrong(ToLower(lastUser)) then CitingPrompt(lastUser) else IssuePrompt(issues[0])
  }

  const AuthError: string := "Authentication failed"
  const AuthMessage: string := "Invalid OpenAI API key. Please check your .env.local file."
  const RateError: string := "Rate limit exceeded"
  const RateMessage: string := "Too many requests. Please try again in a moment."
  const NetworkError: string := "Network error"
  const NetworkMessage: string := "Failed to connect to OpenAI API. Please check your internet connection."
  const ChatError: string := "Failed to process chat request"
  const ConfigError: string := "Server configuration error"
  const NoMessages: string := "Messages array is required"

  /** The status, error and message of a caught exception, by substring in this order. */
  function ErrorResponse(message: string): (r: ChatResponse)
    ensures r.Failure? && r.status in {401, 429, 503, 500}
  {
    if Contains(message, "API key") || Contains(message, "authentication") then
      Failure(401, AuthError, AuthMessage)
    else if Contains(message, "rate limit") || Contains(message, "429") then
      Failure(429, RateError, RateMessage)
    else if Contains(message, "network") || Contains(message, "fetch") then
      Failure(503, NetworkError, NetworkMessage)
    else
      Failure(500, ChatError, message)
  }

  /** The transcript sent to the completion service: the system prompt, then the messages as user or assistant turns. */
  function ServiceTranscript(prompt: string, ms: seq<Message>): (r: seq<Message>)
    ensures |r| == |ms| + 1 && r[0] == Message(System, prompt)
    ensures forall k :: 0 <= k < |ms| ==> r[k + 1].content == ms[k].content && r[k + 1].role != System
    ensures forall k :: 0 <= k < |ms| ==> (r[k + 1].role == User <==> ms[k].role == User)
  {
    [Message(System, prompt)]
      + seq(|ms|, k requires 0 <= k < |ms| => Message(if ms[k].role == User then User else Assistant, ms[k].content))
  }

  /** `sessionId || null`. */
  function SessionOut(sessionId: Option<string>): Option<string> {
    if sessionId.Some? && sessionId.value != "" then sessionId else None
  }

  /** The adaptive system prompt: detect the state, select the strategy, build the prompt. */
  function AdaptivePrompt(ms: seq<Message>, problemContext: Option<string>, analysisReply: Option<string>): string {
    var state := DetectStudentState(ms, analysisReply);
    var strategy := SelectStrategy(state);
    BuildAdaptivePrompt(state, strategy, ms, problemContext)
  }

  /** The transcript of a follow-up request: the base transcript, the assistant's text, then the new request. */
  function FollowUp(base: seq<Message>, said: string, ask: string): (r: seq<Message>)
    ensures |r| == |base| + 2 && r[..|base|] == base
    ensures r[|base|] == Message(Assistant, said) && r[|base| + 1] == Message(User, ask)
  {
    base + [Message(Assistant, said), Message(User, ask)]
  }

  /** The accuracy correction step: the draft itself when there is no issue, else the service's corrected text or its error. */
  function Corrected(draft: string, issues: seq<string>, ms: seq<Message>, base: seq<Message>,
                     complete: seq<Message> -> Reply): (r: Reply)
    ensures issues == [] ==> r == Completion(draft)
    ensures r.Completion? && r.content == "" ==> draft == ""
    ensures issues != [] ==>
      var sent := complete(FollowUp(base, draft, CorrectionPrompt(ms, issues)));
      (sent.Thrown? ==> r == sent) && (sent.Completion? ==> r == Completion(if sent.content == "" then draft else sent.content))
  {
    if issues == [] then Completion(draft)
    else match complete(FollowUp(base, draft, CorrectionPrompt(ms, issues)))
      case Thrown(e) => Thrown(e)
      case Completion(c2) => Completion(OrElse(c2, draft))
  }

  /**
   * What follows the first draft, given its compliance verdict and its
   * accuracy issues: the response and the number of further calls.
   */
  function Revise(draft: string, verdict: Verdict, issues: seq<string>, ms: seq<Message>, base: seq<Message>,
                  sessionId: Option<string>, complete: seq<Message> -> Reply): (out: (ChatResponse, nat))
    ensures out.1 <= (if issues == [] then 0 else 1) + (if verdict.Compliant? then 0 else 1)
    ensures out.0.Answer? ==> out.0.sessionId == SessionOut(sessionId)
    ensures out.0.Failure? ==> out.0.status in {401, 429, 503, 500}
    ensures issues == [] && verdict.Compliant? ==> out == (Answer(draft, SessionOut(sessionId)), 0)
    ensures Corrected(draft, issues, ms, base, complete).Thrown? ==>
      out == (ErrorResponse(Corrected(draft, issues, ms, base, complete).message), if issues == [] then 0 else 1)
    ensures verdict.Compliant? && Corrected(draft, issues, ms, base, complete).Completion? ==>
      out == (Answer(Corrected(draft, issues, ms, base, complete).content, SessionOut(sessionId)), if issues == [] then 0 else 1)
    ensures !verdict.Compliant? && Corrected(draft, issues, ms, base, complete).Completion? ==>
      var response := Corrected(draft, issues, ms, base, complete).content;
      var strict := complete(FollowUp(base, response, RephraseRequest));
      out.1 == (if issues == [] then 0 else 1) + 1
      && (strict.Thrown? ==> out.0 == ErrorResponse(strict.message))
      && (strict.Completion? ==> out.0 == Answer(if strict.content == "" then response else strict.content, SessionOut(sessionId)))
  {
    var calls := if issues == [] then 0 else 1;
    match Corrected(draft, issues, ms, base, complete)
    case Thrown(e) => (ErrorResponse(e), calls)
    case Completion(response) =>
      if verdict.Compliant? then (Answer(response, SessionOut(sessionId)), calls)
      else match complete(FollowUp(base, response, RephraseRequest))
        case Thrown(e) => (ErrorResponse(e), calls + 1)
        case Completion(c3) => (Answer(OrElse(c3, response), SessionOut(sessionId)), calls + 1)
  }

  /**
   * The conversation once the base transcript is built: the first draft
   * (`fallback`, the apology in the handler, when the service returns no
   * content), then its revision.
   */
  function Converse(base: seq<Message>, ms: seq<Message>, sessionId: Option<string>,
                    complete: seq<Message> -> Reply, fallback: string, checks: Checks): (out: (ChatResponse, nat))
    ensures 1 <= out.1 <= 3
    ensures out.0.Answer? ==> out.0.sessionId == SessionOut(sessionId)
    ensures out.0.Failure? ==> out.0.status in {401, 429, 503, 500}
    ensures complete(base).Thrown? ==> out == (ErrorResponse(complete(base).message), 1)
    ensures complete(base).Completion? ==>
      var draft := if complete(base).content == "" then fallback else complete(base).content;
      out == Review(draft, Judge(draft, checks), ms, base, sessionId, complete)
  {
    match complete(base)
    case Thrown(e) => (ErrorResponse(e), 1)
    case Completion(c1) =>
      var draft := OrElse(c1, fallback);
      Review(draft, Judge(draft, checks), ms, base, sessionId, complete)
  }

  /** What the handler learns about the first draft: its compliance verdict and its accuracy issues. */
  datatype Judgement = Judgement(verdict: Verdict, issues: seq<string>)

  /** The tables the draft is judged by: the compliance patterns and the accuracy rules. */
  datatype Checks = Checks(direct: seq<Re>, formulas: seq<Re>, imperative: Re, rules: seq<AccuracyRule>)

  /** The tables of `validateResponse` and `validateMathematicalAccuracy`. */
  const RouteChecks: Checks := Checks(DirectAnswerPatterns, FormulaPatterns, ImperativePattern, AccuracyRules)

  function Judge(draft: string, checks: Checks): Judgement {
    Judgement(VerdictWith(draft, checks.direct, checks.formulas, checks.imperative),
              AccuracyIssues(checks.rules, ToLower(draft)))
  }

  /** With the route's tables the judgement is `validateResponse`'s verdict and `validateResponseQuality`'s issues. */
  lemma JudgeWithRouteChecks(draft: string)
    ensures Judge(draft, RouteChecks) == Judgement(ComplianceOf(draft), AccuracyIssues(AccuracyRules, ToLower(draft)))
  {
  }

  /**
   * The first draft revised after its judgement: the response and the calls
   * including the first. The compliance verdict belongs to the first draft:
   * a compliant first draft is never rephrased, even when the accuracy
   * correction returns a non-compliant text.
   */
  function Review(draft: string, judged: Judgement, ms: seq<Message>, base: seq<Message>, sessionId: Option<string>,
                  complete: seq<Message> -> Reply): (out: (ChatResponse, nat))
    ensures 1 <= out.1 <= 3
    ensures out.0.Answer? ==> out.0.sessionId == SessionOut(sessionId)
    ensures out.0.Failure? ==> out.0.status in {401, 429, 503, 500}
    ensures judged.verdict.Compliant? ==> out.1 == (if judged.issues == [] then 1 else 2)
    ensures !judged.verdict.Compliant? && Corrected(draft, judged.issues, ms, base, complete).Completion? ==>
      out.1 == (if judged.issues == [] then 2 else 3)
    ensures judged.verdict.Compliant? && Corrected(draft, judged.issues, ms, base, complete).Completion? ==>
      out.0 == Answer(Corrected(draft, judged.issues, ms, base, complete).content, SessionOut(sessionId))
    ensures judged.verdict.Compliant? && judged.issues == [] ==> out == (Answer(draft, SessionOut(sessionId)), 1)
  {
    var revised := Revise(draft, judged.verdict, judged.issues, ms, base, sessionId, complete);
    (revised.0, revised.1 + 1)
  }

  /**
   * The handler as one expression: the response and the number of
   * completion-service calls made (the state detector's own call is the
   * separate `analysisReply`).
   */
  function Respond(config: Config, messages: Option<seq<Message>>, sessionId: Option<string>,
                   problemContext: Option<string>, analysisReply: Option<string>,
                   complete: seq<Message> -> Reply): (out: (ChatResponse, nat))
    ensures out.1 <= 3
    ensures ValidateEnv(config).Missing? ==> out.1 == 0 && out.0.Failure? && out.0.status == 500
    ensures ValidateEnv(config).Valid? && messages.None? ==> out.1 == 0 && out.0.Failure? && out.0.status == 400
    ensures out.0.Answer? ==> out.1 >= 1 && out.0.sessionId == SessionOut(sessionId)
    ensures out.0.Failure? ==> out.0.status in {400, 401, 429, 500, 503}
  {
    match ValidateEnv(config)
    case Missing(msg) => (Failure(500, ConfigError, msg), 0)
    case Valid =>
      match messages
      case None => (Failure(400, NoMessages, ""), 0)
      case Some(ms) =>
        Converse(ServiceTranscript(AdaptivePrompt(ms, problemContext, analysisReply), ms), ms, sessionId, complete, Apology,
                 RouteChecks)
  }

  /**
   * The regeneration steps of the handler: at most one accuracy correction,
   * reassigning the draft, then at most one rephrase, whose result is
   * returned unchecked.
   */
  method Regenerate(draft: string, validation: Verdict, isValid: bool, issues: seq<string>, ms: seq<Message>,
                    base: seq<Message>, sessionId: Option<string>, complete: seq<Message> -> Reply)
    returns (r: ChatResponse, calls: nat)
    requires isValid <==> issues == []
    ensures (r, calls) == Revise(draft, validation, issues, ms, base, sessionId, complete)
  {
    calls := 0;
    var response := draft;
    if !isValid && |issues| > 0 {
      var prompt := CorrectionPrompt(ms, issues);
      var corrected := complete(FollowUp(base, response, prompt));
      calls := calls + 1;
      if corrected.Thrown? {
        return ErrorResponse(corrected.message), calls;
      }
      response := OrElse(corrected.content, response);
    }
    if validation.Violation? {
      var strict := complete(FollowUp(base, response, RephraseRequest));
      calls := calls + 1;
      if strict.Thrown? {
        return ErrorResponse(strict.message), calls;
      }
      return Answer(OrElse(strict.content, response), SessionOut(sessionId)), calls;
    }
    return Answer(response, SessionOut(sessionId)), calls;
  }

  /**
   * The conversation steps of the handler: the first draft, its compliance
   * verdict (the body of `validateResponse`) and its accuracy issues (the
   * pass of `validateMathematicalAccuracy`, whose issues are the quality
   * check's), then the regeneration steps.
   */
  method Chat(base: seq<Message>, ms: seq<Message>, sessionId: Option<string>, complete: seq<Message> -> Reply,
              fallback: string, checks: Checks)
    returns (r: ChatResponse, calls: nat)
    ensures (r, calls) == Converse(base, ms, sessionId, complete, fallback, checks)
  {
    var completion := complete(base);
    if completion.Thrown? {
      return ErrorResponse(completion.message), 1;
    }
    var response := OrElse(completion.content, fallback);
    var validation := CheckResponse(response, checks.direct, checks.formulas, checks.imperative);
    var issues := CollectIssues(checks.rules, ToLower(response));
    var isValid := |issues| == 0;
    var further;
    r, further := Regenerate(response, validation, isValid, issues, ms, base, sessionId, complete);
    calls := further + 1;
    ReviewAfterRevise(response, Judgement(validation, issues), ms, base, sessionId, complete);
  }

  /** The review counts the first call on top of the revision's. */
  lemma ReviewAfterRevise(draft: string, judged: Judgement, ms: seq<Message>, base: seq<Message>,
                          sessionId: Option<string>, complete: seq<Message> -> Reply)
    ensures var revised := Revise(draft, judged.verdict, judged.issues, ms, base, sessionId, complete);
      Review(draft, judged, ms, base, sessionId, complete) == (revised.0, revised.1 + 1)
  {
  }

  /**
   * The correction request quotes the student exactly when their last message
   * passes the correction regular expression, lowercased as `/i` matches it;
   * otherwise it names the first accuracy issue.
   */
  lemma CorrectionPromptChoice(ms: seq<Message>, issues: seq<string>)
    requires issues != []
    ensures var lastUser := LastOr(UserContents(ms));
      CorrectionPrompt(ms, issues)
        == if Test(StudentCorrectionPattern, ToLower(lastUser)) then CitingHead + lastUser + CitingTail
           else IssueHead + issues[0] + IssueTail
  {
    StudentCorrectionIsRegex(ToLower(LastOr(UserContents(ms))));
  }

  /**
   * No correction request is the rephrase request: they start differently.
   * (The long request texts are written as two literals so that their first
   * characters are visible to the proof; the text is unchanged.)
   */
  lemma CorrectionIsNotRephrase(ms: seq<Message>, issues: seq<string>)
    requires issues != []
    ensures CorrectionPrompt(ms, issues) != RephraseRequest
  {
    var lastUser := LastOr(UserContents(ms));
    assert RephraseRequest[0] == 'P';
    if SaysReplyWasWrong(ToLower(lastUser)) {
      assert CitingPrompt(lastUser)[0] == 'A';
    } else {
      assert IssuePrompt(issues[0])[0] == 'Y';
    }
  }

  /**
   * A compliant draft is never rephrased: two services that answer alike
   * everything except the rephrase request give the same revision.
   */
  lemma CompliantNeverRephrased(draft: string, verdict: Verdict, issues: seq<string>, ms: seq<Message>,
                                base: seq<Message>, sessionId: Option<string>,
                                complete: seq<Message> -> Reply, other: seq<Message> -> Reply)
    requires verdict.Compliant?
    requires forall t :: t == [] || t[|t| - 1] != Message(User, RephraseRequest) ==> complete(t) == other(t)
    ensures Revise(draft, verdict, issues, ms, base, sessionId, complete)
         == Revise(draft, verdict, issues, ms, base, sessionId, other)
  {
    CorrectedAgrees(draft, issues, ms, base, complete, other);
    var fixed := Corrected(draft, issues, ms, base, complete);
    assert fixed == Corrected(draft, issues, ms, base, other);
  }

  /** Services that agree on every transcript not ending in the rephrase request correct a draft alike. */
  lemma CorrectedAgrees(draft: string, issues: seq<string>, ms: seq<Message>, base: seq<Message>,
                        complete: seq<Message> -> Reply, other: seq<Message> -> Reply)
    requires forall t :: t == [] || t[|t| - 1] != Message(User, RephraseRequest) ==> complete(t) == other(t)
    ensures Corrected(draft, issues, ms, base, complete) == Corrected(draft, issues, ms, base, other)
  {
    if issues != [] {
      CorrectionIsNotRephrase(ms, issues);
      var t := FollowUp(base, draft, CorrectionPrompt(ms, issues));
      assert t[|t| - 1] == Message(User, CorrectionPrompt(ms, issues));
      assert complete(t) == other(t);
    }
  }

  /**
   * `POST /api/chat`: configuration and input checks, the adaptive prompt,
   * then the conversation.
   */
  method Post(config: Config, messages: Option<seq<Message>>, sessionId: Option<string>,
              problemContext: Option<string>, analysisReply: Option<string>,
              complete: seq<Message> -> Reply) returns (r: ChatResponse, calls: nat)
    ensures (r, calls) == Respond(config, messages, sessionId, problemContext, analysisReply, complete)
  {
    var check := ValidateEnv(config);
    if check.Missing? {
      return Failure(500, ConfigError, check.message), 0;
    }
    if messages.None? {
      return Failure(400, NoMessages, ""), 0;
    }
    var ms := messages.value;
    var prompt := AdaptivePrompt(ms, problemContext, analysisReply);
    r, calls := Chat(ServiceTranscript(prompt, ms), ms, sessionId, complete, Apology, RouteChecks);
  }

  /**
   * The written-out student correction test is the regular expression's:
   * "inaccurate" or "wrong" anywhere, or "not" followed on the same line by
   * "equal", "same" or "correct".
   */
  lemma StudentCorrectionIsRegex(lower: string)
    ensures Test(StudentCorrectionPattern, lower) <==> SaysReplyWasWrong(lower)
  {
    TestAlt(Str("inaccurate"), Alt(Str("wrong"), Alt(Pair("not", "equal"), Alt(Pair("not", "same"), Pair("not", "correct")))), lower);
    TestAlt(Str("wrong"), Alt(Pair("not", "equal"), Alt(Pair("not", "same"), Pair("not", "correct"))), lower);
    TestAlt(Pair("not", "equal"), Alt(Pair("not", "same"), Pair("not", "correct")), lower);
    TestAlt(Pair("not", "same"), Pair("not", "correct"), lower);
    TestStrIff("inaccurate", lower);
    TestStrIff("wrong", lower);
    PairIff("not", "equal", lower);
    PairIff("not", "same", lower);
    PairIff("not", "correct", lower);
  }

  lemma TestStrIff(w: string, s: string)
    ensures Test(Str(w), s) <==> Contains(s, w)
  {
    if Test(Str(w), s) {
      var i, j :| 0 <= i <= j <= |s| && Matches(Str(w), s, i, j);
      assert At(s, w, i);
    }
    if Contains(s, w) {
      var i :| 0 <= i <= |s| - |w| && At(s, w, i);
      StrMatches(s, w, i);
    }
  }

  /** Exceptions map to statuses by substring, in the order authentication, rate limit, network. */
  lemma ErrorStatusOrder(message: string)
    ensures ErrorResponse(message).status == 401 <==> Contains(message, "API key") || Contains(message, "authentication")
    ensures ErrorResponse(message).status == 429 <==>
      !(Contains(message, "API key") || Contains(message, "authentication"))
      && (Contains(message, "rate limit") || Contains(message, "429"))
    ensures ErrorResponse(message).status == 503 <==>
      !(Contains(message, "API key") || Contains(message, "authentication"))
      && !(Contains(message, "rate limit") || Contains(message, "429"))
      && (Contains(message, "network") || Contains(message, "fetch"))
    ensures ErrorResponse(message).status == 500 <==>
      !(Contains(message, "API key") || Contains(message, "authentication"))
      && !(Contains(message, "rate limit") || Contains(message, "429"))
      && !(Contains(message, "network") || Contains(message, "fetch"))
    ensures ErrorResponse(message).status == 500 ==> ErrorResponse(message).message == message
  {
  }
}
