# MathSageAI tutoring core in Dafny

This project models the decision logic of MathSageAI, a Socratic maths
tutor built on Next.js. It covers:

- **The adaptive tutoring pipeline.** A student's state is detected from
  the transcript, by the analysis the completion service returns or by the
  pattern-based fallback classifier. A teaching strategy is selected for
  that state. The adaptive system prompt is assembled in a fixed order.
- **The reply checks.** The tutor's draft reply is checked for mathematical
  accuracy and for Socratic compliance. The chat handler regenerates it at
  most once for each, and maps exceptions to HTTP statuses.
- **The image endpoint.** It recognises data URLs, web URLs and raw base64
  by magic prefix, applies an allow-list, and tries the vision models in
  order with a fallback.
- **The feedback heuristics.** A step parser, an error classifier, a
  misconception table, and the feedback endpoint that enriches its analysis
  with the service's sections.
- **The maths helpers.** An extractor and a renderer for delimited LaTeX.
  The renderer is proved to show exactly the expressions the extractor
  returns.
- **The whiteboard.** Column layout of extracted expressions, duplicate
  suppression for maths elements, and the history filter for drawing
  commands.
- **Secrets.** Normalisation of secret values, key choice inside JSON
  secrets, and the five-minute secret cache with its fallback order.
- **Small pure helpers.** Session titles, relative timestamps, upload
  validation with object keys and URLs, and environment defaults with
  their validation.

One Dafny module models each source file. `Strings` holds the JavaScript
string operations the modules share: lowercasing, `trim`, `includes`,
`split`, `startsWith` and `endsWith`. `Regex` gives the meaning of the
regular expressions as predicates over positions. `Types` holds the shared
records.

Where the source computes step by step, the model is a `method` with loop
invariants, proved equal to a specification function. This applies to the
pattern loops, the `exec` scans, the model-fallback loop, the whiteboard
updater, the handlers' regeneration steps and the secret cache (a class).
Where the source is expressions, the model is functions and lemmas.

The completion service is a function parameter from the transcript to a
reply or a thrown error. The handlers return the number of calls they
made. Clocks, UUIDs, random picks, base64 decoding, `JSON.parse` and the
storage services are parameters too.

## Model

| member | source | states |
|---|---|---|
| Types.StateNamed | app/utils/context/stateDetector.ts:161-172 | the state whose wire name is the given text, and none exactly when no state has that name |
| Types.StateNameRoundTrip | app/types/context.ts:7-13 | reading back a state's wire name gives the state |
| Types.Clamp01 | app/utils/context/stateDetector.ts:176 | NaN stays NaN; any other value lands in [0, 1], and values already there are kept |
| StateDetector.ErrorMentions | app/utils/context/stateDetector.ts:70-74 | the recorded errors are exactly the contents of the assistant messages whose lowercased text contains "error": each one comes from such a message and every such message is recorded |
| StateDetector.ErrorMentionsSnoc | app/utils/context/stateDetector.ts:70-74 | one more message extends the error list by its content exactly when it is an assistant message mentioning "error" |
| StateDetector.LastN | app/utils/context/stateDetector.ts:70 | `slice(-n)` keeps the last min(n, length) elements, as a suffix |
| StateDetector.ContextOf | app/utils/context/stateDetector.ts:64-90 | the turn count is the number of user messages, never more than the conversation length it reports; at most five recent errors |
| StateDetector.ExtractConversationContext | app/utils/context/stateDetector.ts:64-90 | the forEach over the last five messages builds exactly `ContextOf` |
| StateDetector.SentimentCharacterisation | app/utils/context/stateDetector.ts:292-323 | negative exactly when the don't-know pattern matches twice or a negative word occurs; positive exactly when not negative and a positive word occurs; the tell-me count never decides on its own |
| StateDetector.DetectSentiment | app/utils/context/stateDetector.ts:292-323 | direct definition without an ensures of its own; StateDetector.SentimentCharacterisation states it |
| StateDetector.JoinedMentions | app/utils/context/stateDetector.ts:329 | joining the messages with spaces creates no keyword that no single message contains |
| StateDetector.ProblemTypeByMessage | app/utils/context/stateDetector.ts:328-348 | the problem type is the first keyword group, in the order quadratic, linear, geometry, fractions, that some message mentions; none otherwise |
| StateDetector.DetectProblemType | app/utils/context/stateDetector.ts:328-348 | direct definition without an ensures of its own; StateDetector.ProblemTypeByMessage states it |
| StateDetector.CountMessages | app/utils/context/stateDetector.ts:199-204 | a non-global match counts each message at most once, so the count never exceeds the number of messages |
| StateDetector.RecentUserTexts | app/utils/context/stateDetector.ts:191 | at most the last three user messages |
| StateDetector.FallbackStateDetection | app/utils/context/stateDetector.ts:185-287 | the context is passed through, there is always evidence, and the confidence is one of 0.85, 0.8, 0.75, 0.6 |
| StateDetector.FallbackPriority | app/utils/context/stateDetector.ts:207-287 | frustrated at 0.85 exactly when the first rule fires; knowledge gap at 0.85 exactly when it does not and a bare "no" answers a knowledge probe; never making_progress; ready_to_learn exactly at 0.6; three evidence lines for frustration, one otherwise |
| StateDetector.LackOfKnowledgeByTurns | app/utils/context/stateDetector.ts:242-260 | don't-know language is frustration at 0.75 from the third turn on and a knowledge gap at 0.8 before it |
| StateDetector.FrustrationCountBounded | app/utils/context/stateDetector.ts:199-216 | the reported request count is at most six |
| StateDetector.ExplicitFrustrationWins | app/utils/context/stateDetector.ts:207-221 | "frustrated" in the last user message yields frustrated at 0.85 whatever else holds |
| StateDetector.LastNonNewline | app/utils/context/stateDetector.ts:154 | the last non-newline position of a range, every later one being a newline; none when the range is all newlines |
| StateDetector.LinesEnd | app/utils/context/stateDetector.ts:154 | the greedy match of whole lines ends at a newline or the end of the text, after its start |
| StateDetector.CaptureAt | app/utils/context/stateDetector.ts:152-154 | a capture is never empty, and an evidence capture does not start with a newline |
| StateDetector.FirstCapture | app/utils/context/stateDetector.ts:152-154 | the capture of the leftmost match; none only when the pattern matches at no position |
| StateDetector.NoLabelNoCapture | app/utils/context/stateDetector.ts:152-154 | a reply without the field's label, in any case, has no capture for it |
| StateDetector.ParseDecimal | app/utils/context/stateDetector.ts:157 | `parseFloat` of the digits-and-dots capture is non-negative, and NaN only when the text does not start with a digit |
| StateDetector.NonEmptyLines | app/utils/context/stateDetector.ts:158 | `split('\n').filter(Boolean)` keeps only non-empty lines, and at least one when the text starts with a non-newline |
| StateDetector.KeepNonEmpty | app/utils/context/stateDetector.ts:158 | `filter(Boolean)` keeps only non-empty members of the input, the first one included when it is non-empty |
| StateDetector.EvidenceOf | app/utils/context/stateDetector.ts:154-158 | at least one evidence line, none empty; the default line when there is no EVIDENCE field |
| StateDetector.ParseStateAnalysis | app/utils/context/stateDetector.ts:147-180 | the context is passed through, the confidence is NaN or clamped into [0, 1], the evidence is non-empty with no empty line |
| StateDetector.LeadingWordCapture | app/utils/context/stateDetector.ts:152 | a reply opening with `STATE: <word>` and a newline captures exactly that word |
| StateDetector.ParseReadsLeadingState | app/utils/context/stateDetector.ts:152-172 | a reply opening with `STATE: <name>` of a known state yields that state |
| StateDetector.ParseDefaultConfidence | app/utils/context/stateDetector.ts:153-157 | without a CONFIDENCE label the confidence is 0.7 |
| StateDetector.ParseDotConfidenceIsNaN | app/utils/context/stateDetector.ts:153-176 | a reply opening with `CONFIDENCE: .`, the dot followed by anything but a digit or another dot, gets a NaN confidence, which the clamp keeps |
| StateDetector.DetectStudentState | app/utils/context/stateDetector.ts:19-59 | a successful completion is parsed and a thrown one falls back to the pattern classifier; both see `ContextOf` the messages |
| StrategySelector.StrategyTableBijective | app/utils/context/strategySelector.ts:20-27 | the state-to-strategy table is a bijection: every strategy serves exactly one state |
| StrategySelector.StrategyFor | app/utils/context/strategySelector.ts:20-29 | direct definition without an ensures of its own; StrategySelector.StrategyTableBijective states it |
| StrategySelector.GetStrategyConfig | app/utils/context/strategySelector.ts:38-185 | the configuration is named after the strategy asked for |
| StrategySelector.SelectStrategy | app/utils/context/strategySelector.ts:18-33 | the configuration chosen is the one of the state's strategy in the table |
| StrategySelector.HintLevelByStrategy | app/utils/context/strategySelector.ts:68-176 | moderate hints exactly for a stuck student from the third turn on; the hint level, question style and tone of every other state |
| StrategySelector.ConfigReadsOnlyTurnCount | app/utils/context/strategySelector.ts:42-185 | only progressive hints depends on the detected state, and only through its turn count |
| StrategySelector.HintLevelMonotone | app/utils/context/strategySelector.ts:87 | for a fixed state the hint level never weakens as the turn count grows |
| StrategySelector.ProgressiveInstructionsQuoteTurn | app/utils/context/strategySelector.ts:75-87 | the progressive-hints instructions quote the turn count and the same hint level the configuration uses |
| PromptBuilder.Truncate | app/utils/context/promptBuilder.ts:188-190 | at most 153 characters; a message of up to 150 is quoted whole, a longer one as its first 150 and "..."; the quote equals the message exactly when nothing was cut or the cut is invisible |
| PromptBuilder.SummaryLines | app/utils/context/promptBuilder.ts:186-192 | one numbered line per message, in order |
| PromptBuilder.SummarizeRecentConversation | app/utils/context/promptBuilder.ts:178-195 | the beginning-of-conversation text exactly when there are no messages |
| PromptBuilder.SummaryStartsAtLineOne | app/utils/context/promptBuilder.ts:180-194 | a non-empty summary starts with line 1, the oldest of the last six messages |
| PromptBuilder.SummaryUsesLastSix | app/utils/context/promptBuilder.ts:180 | history older than the last six messages never reaches the summary |
| PromptBuilder.SummaryLineBounded | app/utils/context/promptBuilder.ts:186-191 | a summary line quotes at most 153 characters of its message |
| PromptBuilder.RoundHalfUp | app/utils/context/promptBuilder.ts:79 | the confidence percentage is rounded half up to the nearest whole number |
| PromptBuilder.HelpCount | app/utils/context/promptBuilder.ts:125 | the number of evidence items mentioning "don't know" or "tell me" never exceeds the number of items |
| PromptBuilder.AdaptiveInstructionsLayout | app/utils/context/promptBuilder.ts:96-155 | the instructions open with the header and the strategy's own instructions and close with the response requirements |
| PromptBuilder.StateBlocksByState | app/utils/context/promptBuilder.ts:104-136 | the continuity block for a knowledge gap, the escalation block for frustration, nothing for the other states |
| PromptBuilder.PromptLayout | app/utils/context/promptBuilder.ts:41-69 | the whole prompt is the fixed rules, the context section, the adaptive instructions, the conversation section of the six-message summary and the problem context, and the reminder, separated by blank lines |
| PromptBuilder.BuildAdaptivePrompt | app/utils/context/promptBuilder.ts:41-69 | direct definition without an ensures of its own; PromptBuilder.PromptLayout states its layout |
| PromptBuilder.ContextSection | app/utils/context/promptBuilder.ts:74-94 | direct definition without an ensures of its own: the state with its confidence percentage, the evidence, turn count, sentiment, problem type when present, then the strategy fields |
| PromptBuilder.AdaptiveInstructions | app/utils/context/promptBuilder.ts:96-155 | direct definition without an ensures of its own; PromptBuilder.AdaptiveInstructionsLayout and PromptBuilder.StateBlocksByState state it |
| PromptBuilder.EscalationBlock | app/utils/context/promptBuilder.ts:124-135 | direct definition without an ensures of its own: the turn count, the help count and "3+" from three turns on, else "2+"; the fixed closing lines of the block are not copied |
| PromptBuilder.RequirementsBlock | app/utils/context/promptBuilder.ts:138-152 | direct definition without an ensures of its own: the hint level, question style and tone texts of the strategy |
| PromptBuilder.ConversationSection | app/utils/context/promptBuilder.ts:160-173 | the summary under its heading first; the problem context under its own heading last exactly when it is present and not empty, else nothing more |
| PromptBuilder.TurnLineNamesNoHelp | app/utils/context/promptBuilder.ts:125 | a "Turn count" evidence line never counts as a help request |
| PromptBuilder.RequestLineNamesHelp | app/utils/context/promptBuilder.ts:125 | the request-count evidence line always counts as one help request |
| PromptBuilder.SentimentLineNamesNoHelp | app/utils/context/promptBuilder.ts:125 | a "Sentiment" evidence line never counts as a help request |
| PromptBuilder.FallbackFrustrationReportsOneRequest | app/utils/context/promptBuilder.ts:123-131 | after a fallback frustration verdict the escalation block reports exactly one help request, whatever the real count |
| ResponseValidator.AccuracyIssuesMembers | app/utils/responseValidator.ts:43-54 | an issue is reported exactly when some rule carrying it fires, and never more issues than rules |
| ResponseValidator.AccuracyIssues | app/utils/responseValidator.ts:10-63 | direct definition without an ensures of its own; ResponseValidator.AccuracyIssuesMembers and ResponseValidator.IssuesInTableOrder state it |
| ResponseValidator.AccuracyIssuesStep | app/utils/responseValidator.ts:43-54 | one more rule adds its issue exactly when it fires |
| ResponseValidator.ValidateMathematicalAccuracy | app/utils/responseValidator.ts:10-60 | the loop pushes the issues of the firing rules in table order; accurate exactly when there are none |
| ResponseValidator.CollectIssues | app/utils/responseValidator.ts:43-54 | the loop over the rule table pushes exactly the accuracy issues of the firing rules, in table order |
| ResponseValidator.IssuesInTableOrder | app/utils/responseValidator.ts:18-54 | the five issues appear in table order, each exactly when its rule fires |
| ResponseValidator.PaintRuleIff | app/utils/responseValidator.ts:20 | the paint rule fires exactly when "area" and "paint" occur on one line, in either order |
| ResponseValidator.PerimeterRuleIff | app/utils/responseValidator.ts:36-49 | the perimeter rule needs both a same-line perimeter/area pair and a confusion word anywhere |
| ResponseValidator.NoPaintWeightPerimeterIsAccurate | app/utils/responseValidator.ts:18-40 | text mentioning none of paint, weight and perimeter raises no issue |
| ResponseValidator.CorrectionsIff | app/utils/responseValidator.ts:65-75 | a reply acknowledges a correction exactly when it contains an acknowledgement or self-correction phrase, or "actually" before area, volume or perimeter on one line |
| ResponseValidator.ChecksForCorrections | app/utils/responseValidator.ts:65-78 | direct definition without an ensures of its own; ResponseValidator.CorrectionsIff states it |
| ResponseValidator.ActuallyAlternatives | app/utils/responseValidator.ts:71 | the third correction pattern is the union of its three alternatives |
| ResponseValidator.ValidateResponseQuality | app/utils/responseValidator.ts:80-107 | the issues are the accuracy issues, valid exactly when there are none, with the suggestions of `Suggestions` |
| ResponseValidator.SuggestionsShape | app/utils/responseValidator.ts:90-100 | no suggestion for accurate text; the accuracy suggestion first otherwise, and a second one exactly when no correction phrase is present |
| ChatRoute.CountChars | app/api/chat/route.ts:281-282 | the number of matches of a character class never exceeds the length |
| ChatRoute.CheckResponse | app/api/chat/route.ts:229-307 | the loops over the direct-answer and formula tables, then the question and imperative checks, give the verdict of the first failing check in that order, compliant when none fails |
| ChatRoute.ValidateResponse | app/api/chat/route.ts:229-307 | the verdict of `validateResponse` with its own pattern tables |
| ChatRoute.VerdictWith | app/api/chat/route.ts:229-307 | direct definition without an ensures of its own; ChatRoute.CheckResponse proves the loops equal to it and ChatRoute.ValidateResponse instantiates it |
| ChatRoute.CountCharsConcat | app/api/chat/route.ts:281-282 | character counts add up over concatenation |
| ChatRoute.DecimalPointCountsAsSentence | app/api/chat/route.ts:282-290 | a question-free reply holding a decimal such as "3.5" and ending in a period fails the question check (a decimal point counts as a sentence end) |
| ChatRoute.NoCharNoCount | app/api/chat/route.ts:281 | no question mark, no question counted |
| ChatRoute.StartTestIff | app/api/chat/route.ts:293-295 | an anchored word alternation matches exactly when the text starts with one of the words |
| ChatRoute.ImperativeCheckIff | app/api/chat/route.ts:293-306 | past the earlier checks, a reply is rejected as imperative exactly when its trimmed, lowercased text starts with one of the verbs, and compliant exactly when it starts with none |
| ChatRoute.TheAnswerIsIsDirect | app/api/chat/route.ts:240-268 | "the answer is" anywhere, in any case, makes the reply a direct answer |
| ChatRoute.TheAnswerIsMatches | app/api/chat/route.ts:240 | `the answer\s+is` matches any text containing "the answer is" |
| ChatRoute.CompliantAsksOrIsShort | app/api/chat/route.ts:261-306 | a compliant reply matches no table pattern, asks a question or has at most one sentence end, and does not open with an imperative |
| ChatRoute.ErrorResponse | app/api/chat/route.ts:176-221 | a caught exception always becomes a failure with status 401, 429, 503 or 500 |
| ChatRoute.ErrorStatusOrder | app/api/chat/route.ts:180-221 | 401 exactly for "API key"/"authentication"; 429 exactly for "rate limit"/"429" when not an authentication error; 503 exactly for "network"/"fetch" when neither of those; 500 exactly otherwise, carrying the exception's own message |
| ChatRoute.ServiceTranscript | app/api/chat/route.ts:91-97 | the system prompt first, then every message with its content kept; a message is a user turn exactly when its role is user, otherwise an assistant turn, never a system turn |
| ChatRoute.FollowUp | app/api/chat/route.ts:133-159 | a follow-up transcript keeps the base transcript and appends the assistant's text and the new request |
| ChatRoute.Corrected | app/api/chat/route.ts:116-143 | no issue leaves the draft unchanged; with issues the correction request follows the draft, a thrown error propagates, and the reply replaces the draft unless it is empty, when the draft stays |
| ChatRoute.CorrectionPrompt | app/api/chat/route.ts:118-130 | direct definition without an ensures of its own; ChatRoute.CorrectionPromptChoice states it |
| ChatRoute.CorrectionPromptChoice | app/api/chat/route.ts:118-130 | the correction request quotes the student's last message exactly when it passes the case-insensitive correction pattern ("inaccurate", "wrong", or "not" followed on the same line by "equal", "same" or "correct"), and otherwise names the first accuracy issue |
| ChatRoute.CorrectionIsNotRephrase | app/api/chat/route.ts:127-156 | no correction request is the rephrase request |
| ChatRoute.Regenerate | app/api/chat/route.ts:116-175 | the accuracy correction, then the rephrase of a non-compliant draft, as one function of the draft, its verdict and its issues |
| ChatRoute.Chat | app/api/chat/route.ts:100-175 | the handler's steps (first draft, the apology when it is empty, its compliance verdict and accuracy issues, then the regeneration steps) give exactly the response and call count of `Converse` |
| ChatRoute.Review | app/api/chat/route.ts:110-175 | one to three calls; the compliance verdict belongs to the first draft: a compliant draft takes the first call plus one per accuracy correction and no rephrase call, and is answered with the corrected text; a non-compliant draft whose correction succeeds takes one rephrase call more; an accurate, compliant draft is answered as is after one call |
| ChatRoute.CompliantNeverRephrased | app/api/chat/route.ts:151-175 | with a compliant verdict the revision is the same for any two services that differ only on the rephrase request: that request is never sent |
| ChatRoute.CorrectedAgrees | app/api/chat/route.ts:116-143 | two services that answer alike every transcript not ending in the rephrase request give the same accuracy correction |
| ChatRoute.Post | app/api/chat/route.ts:26-223 | the response and the number of completion calls of the whole handler |
| ChatRoute.Revise | app/api/chat/route.ts:116-175 | a thrown correction gives its mapped error; a compliant draft is answered with the corrected text and no further call; a non-compliant one sends the rephrase request after the corrected text and answers with its reply, with the corrected text when that reply is empty, or with the mapped error; answers echo the session id |
| ChatRoute.Converse | app/api/chat/route.ts:100-175 | a thrown first call gives its mapped error after one call; otherwise the draft is the reply, or `fallback` (the apology) when the reply is empty, and exactly that draft is judged and reviewed; one to three calls; answers echo the session id and failures carry 401, 429, 503 or 500 |
| ChatRoute.Respond | app/api/chat/route.ts:26-223 | at most three completion calls per request; none and a 500 for a missing configuration, none and a 400 without a messages array; every answer follows a call |
| ChatRoute.JudgeWithRouteChecks | app/api/chat/route.ts:110-116 | with the route's tables the draft is judged by `validateResponse`'s verdict and the accuracy issues of its lowercased text |
| ChatRoute.StudentCorrectionIsRegex | app/api/chat/route.ts:124 | the student-correction regex matches exactly when "inaccurate" or "wrong" occurs, or "not" is followed on the same line by "equal", "same" or "correct" |
| ChatRoute.TestStrIff | app/api/chat/route.ts:124 | a literal pattern matches exactly the texts containing it |
| ParseImage.MimeCaptureFrom | app/api/parse-image/route.ts:64-68 | a captured MIME type is non-empty, holds no ';' and occurs in the text as "data:" + type + ";" |
| ParseImage.NoSemicolonNoCapture | app/api/parse-image/route.ts:64-65 | without a ';' the MIME regex captures nothing |
| ParseImage.DataUrlVerbatim | app/api/parse-image/route.ts:61-68 | a data URL is passed on verbatim; its format is the text between "data:" and the first ';', or "unknown" when there is no ';' |
| ParseImage.HeicCheckedFirst | app/api/parse-image/route.ts:82-92 | raw base64 starting with "AAAA" is refused as HEIC whatever else it holds |
| ParseImage.MagicPrefixOrder | app/api/parse-image/route.ts:110-119 | past the HEIC and AVIF checks a PNG prefix wins, then JPEG |
| ParseImage.HeicBrandsRefused | app/api/parse-image/route.ts:82-92 | raw base64 whose decoded start holds the `ftypheif` or `ftypmif1` brand is refused as HEIC |
| ParseImage.AvifRefused | app/api/parse-image/route.ts:95-108 | past the HEIC checks, the `ftypavif` brand in the decoded bytes or "avif" in the decoded text is refused with the AVIF message |
| ParseImage.LaterMagicPrefixes | app/api/parse-image/route.ts:121-142 | past PNG and JPEG a GIF signature gives a GIF data URL, then a WebP signature a WebP data URL, and anything else is refused as unknown |
| ParseImage.RawFormat | app/api/parse-image/route.ts:76-143 | direct definition without an ensures of its own; the lemmas on either side state its branches |
| ParseImage.FormatOf | app/api/parse-image/route.ts:61-143 | direct definition without an ensures of its own; ParseImage.DataUrlVerbatim, ParseImage.UrlDetected and the raw-format lemmas state it |
| ParseImage.DetectFormat | app/api/parse-image/route.ts:57-155 | the branch-by-branch assignments of the image URL and format give the detection of `FormatOf` |
| ParseImage.AllowedFormatsAreImageSubtypes | app/api/parse-image/route.ts:158-162 | every allowed format is "image/" followed by its subtype |
| ParseImage.FormatExtension | app/api/parse-image/route.ts:159-160 | the extension holds no '/' and no space |
| ParseImage.AllowListIff | app/api/parse-image/route.ts:158-164 | a format passes exactly when its extension is png, jpeg, jpg, gif or webp |
| ParseImage.HttpUrlNotAllowed | app/api/parse-image/route.ts:69-179 | the format "http-url" of a web URL never passes the allow-list |
| ParseImage.UnknownNotAllowed | app/api/parse-image/route.ts:59-179 | the default format "unknown" never passes the allow-list |
| ParseImage.RawDetectionsAllowed | app/api/parse-image/route.ts:110-164 | every format detected from raw base64 is allowed and its URL is the matching base64 data URL |
| ParseImage.RawSubtype | app/api/parse-image/route.ts:110-129 | a raw detection wraps the image under one of the allowed subtypes |
| ParseImage.ImageSubtypeAllowed | app/api/parse-image/route.ts:158-164 | "image/" + an allowed subtype passes the allow-list |
| ParseImage.TryModels | app/api/parse-image/route.ts:186-260 | at most one call per model, and at least one when there is a model |
| ParseImage.FirstWorkingModel | app/api/parse-image/route.ts:193-260 | the loop's reply and call count are those of `TryModels` |
| ParseImage.SkipModelErrors | app/api/parse-image/route.ts:197-255 | after model errors on the first k models the outcome is that of the rest, with the last error remembered and k calls counted |
| ParseImage.FirstAnswerUsed | app/api/parse-image/route.ts:197-224 | the first model that answers after model errors on all before it gives the reply, after k+1 calls |
| ParseImage.OtherErrorRethrown | app/api/parse-image/route.ts:244-251 | a non-model error is rethrown at once and no later model is tried |
| ParseImage.LastErrorThrown | app/api/parse-image/route.ts:257-260 | when every model fails with a model error, the last one's error is thrown after trying them all |
| ParseImage.ErrorResponse | app/api/parse-image/route.ts:267-333 | a caught exception becomes a failure with status 401, 429, 403, 503 or 500 |
| ParseImage.Examine | app/api/parse-image/route.ts:148-262 | a refusal or a disallowed format is a 400 before any call; otherwise one to four calls, an empty answer gives the could-not-extract text, a non-empty one is the problem, and an error is mapped |
| ParseImage.Respond | app/api/parse-image/route.ts:19-266 | a 500 for a missing configuration, a 400 without an image, otherwise the examination of the format detected from the image and its decoded first 32 and 20 characters |
| ParseImage.Post | app/api/parse-image/route.ts:19-334 | the response and the vision call count of the whole handler |
| ParseImage.UrlInputsRefused | app/api/parse-image/route.ts:69-179 | a web URL always ends in a 400 naming "http-url", before any vision call |
| ParseImage.DataUrlWithoutSemicolonRefused | app/api/parse-image/route.ts:59-179 | a data URL without ';' always ends in a 400 naming "unknown", before any vision call |
| ParseImage.CallBound | app/api/parse-image/route.ts:19-334 | at most one call per vision model; none without a valid configuration, an image, and a detected, allowed format; failures carry a status of the table |
| ParseImage.DoesNotExistIsNotForbidden | app/api/parse-image/route.ts:245-312 | "does not exist" moves the loop to the next model but maps to a 500, not the 403 of model errors |
| Feedback.StepMatchAt | app/utils/feedback.ts:41 | a numbered-step match starting at p ends after p, inside the text |
| Feedback.NumberedMatchesFrom | app/utils/feedback.ts:41 | every numbered-step match is non-empty and starts with a digit |
| Feedback.StripNumber | app/utils/feedback.ts:43 | a step without its number is trimmed: no whitespace at either end |
| Feedback.NonBlankLines | app/utils/feedback.ts:47-49 | at most as many lines as given, each non-empty and trimmed |
| Feedback.ParseSteps | app/utils/feedback.ts:39-54 | at least one step; two or more numbered matches give those matches without their numbers; otherwise two or more non-blank lines give the trimmed lines; a single step is the whole answer trimmed |
| Feedback.StepMatchIsPatternMatch | app/utils/feedback.ts:41 | the scan's match is a match of `\d+[.)]\s*[^\d]+` over the same span |
| Feedback.SingleLineIsOneStep | app/utils/feedback.ts:39-54 | a one-line answer without two numbered steps is one step, the whole answer trimmed |
| Feedback.AnalyzeSteps | app/utils/feedback.ts:13-34 | the parsed steps, with no step judged correct or incorrect |
| Feedback.ClassifyPrecedence | app/utils/feedback.ts:59-93 | each class exactly when its test holds and every earlier test fails: calculation, conceptual, procedural, else unknown; a calculation keyword in the location always gives calculation |
| Feedback.ClassifyError | app/utils/feedback.ts:59-93 | direct definition without an ensures of its own; Feedback.ClassifyPrecedence states it |
| Feedback.CalculationIgnoresResponse | app/utils/feedback.ts:68-74 | whether an error is a calculation error depends on the location alone |
| Feedback.FirstFiring | app/utils/feedback.ts:129-137 | the first entry with a pattern that fires on the answer or the location, none exactly when no entry fires |
| Feedback.FirstMisconception | app/utils/feedback.ts:129-137 | none exactly when no entry fires; a name found belongs to an entry that fires |
| Feedback.FirstMisconceptionAt | app/utils/feedback.ts:129-135 | when entry t fires and none before it does, entry t's name is returned |
| Feedback.DetectedNameIsKnown | app/utils/feedback.ts:105-126 | a detected misconception is one of the four names of the table |
| Feedback.FiresOnSwap | app/utils/feedback.ts:131 | swapping the answer and the location finds the same misconception |
| Feedback.DetectMisconception | app/utils/feedback.ts:98-138 | the nested loops return the name of the first entry that fires, as `FirstMisconception` |
| Feedback.GenerateGuidance | app/utils/feedback.ts:194-217 | praise exactly when there is no error; otherwise the calculation, conceptual, procedural or review text, by the first error's type |
| Feedback.GenerateEncouragement | app/utils/feedback.ts:222-235 | the no-error text exactly when there is no error; otherwise one of the four encouragements |
| Feedback.StepsForType | app/utils/feedback.ts:252-270 | three steps per error type, none for an unknown error |
| Feedback.GenerateNextSteps | app/utils/feedback.ts:240-277 | the default three steps without errors; else the first error's type steps, followed by the misconception step exactly when it has a non-empty misconception; at most four |
| Feedback.ErrorRecord | app/utils/feedback.ts:156-166 | the record of a step carries its 1-based number and the step text |
| Feedback.CollectErrors | app/utils/feedback.ts:152-167 | one record per incorrect step, in their order |
| Feedback.FeedbackFor | app/utils/feedback.ts:149-188 | an error exactly when a step is incorrect; one record per incorrect step, the first record's misconception, the guidance and encouragement of those records, and next steps equal to Feedback.GenerateNextSteps of those records |
| Feedback.AnalyzeFeedback | app/utils/feedback.ts:143-189 | with no step judged incorrect, never an error: praise, the no-error encouragement and the default next steps |
| FeedbackRoute.HeaderStart | app/api/chat/feedback/route.ts:108 | a header starts at p exactly when the singular or plural header word and a colon occur there |
| FeedbackRoute.FindHeader | app/api/chat/feedback/route.ts:108-109 | the leftmost header at or after i, none exactly when no position holds one |
| FeedbackRoute.CaptureEnd | app/api/chat/feedback/route.ts:108 | the lazy capture stops at the first "correct" after its start, or at the end of the text |
| FeedbackRoute.MisconceptionText | app/api/chat/feedback/route.ts:108 | a captured misconception is no longer than the analysis |
| FeedbackRoute.CorrectPartsText | app/api/chat/feedback/route.ts:109 | the correct-parts capture runs to the end of the analysis |
| FeedbackRoute.Enhance | app/api/chat/feedback/route.ts:102-134 | only guidance and encouragement change; the misconception sentence is appended exactly when the header occurs; the praise exactly when the correct-parts text is not blank |
| FeedbackRoute.MisconceptionFoundIff | app/api/chat/feedback/route.ts:108-114 | a misconception is captured exactly when "misconception:" or "misconceptions:" occurs in any case |
| FeedbackRoute.AtInSlice | app/api/chat/feedback/route.ts:108 | an occurrence inside a slice is an occurrence in the whole text |
| FeedbackRoute.MisconceptionExcludesCorrect | app/api/chat/feedback/route.ts:108 | the captured misconception never contains "correct" in any case |
| FeedbackRoute.BlankMisconceptionStillAppended | app/api/chat/feedback/route.ts:114-117 | a blank misconception still appends the sentence |
| FeedbackRoute.PraiseIffCorrectPartsNotBlank | app/api/chat/feedback/route.ts:122-127 | the praise is appended exactly when a correct-parts section holds a non-space character |
| FeedbackRoute.Post | app/api/chat/feedback/route.ts:17-97 | a 400 and no call exactly when an input is missing or empty; otherwise one call, a 500 when it throws, else the enriched no-error analysis and the service's text |
| MathExtractor.CloserLength | app/utils/mathExtractor.ts:12 | a closer is `\)`, `\]`, `$$` or `$`, at most two characters, present exactly at those characters |
| MathExtractor.BodyEnd | app/utils/mathExtractor.ts:12 | the lazy body ends at the first closer after its start, none when no closer follows |
| MathExtractor.Closing | app/utils/mathExtractor.ts:12 | a match exists exactly when a closer follows the opener; it spans the opener, the shortest body and that closer |
| MathExtractor.MatchAt | app/utils/mathExtractor.ts:12 | a match found at p starts at p and is well formed |
| MathExtractor.Delimiters | app/utils/mathExtractor.ts:12 | openers are `\(`, `\[`, `$$`, `$` and closers `\)`, `\]`, `$$`, `$`, paired freely |
| MathExtractor.DollarAlwaysOpens | app/utils/mathExtractor.ts:12 | "$$" always starts a match, falling back to the one-dollar opener around an empty body |
| MathExtractor.NextMatch | app/utils/mathExtractor.ts:15 | the next `exec` match is the leftmost start at or after the last index; none exactly when no position matches |
| MathExtractor.Kept | app/utils/mathExtractor.ts:17-20 | a body is kept, trimmed, exactly when its trimmed text is not empty |
| MathExtractor.BodiesTrimmed | app/utils/mathExtractor.ts:17-20 | every extracted expression is non-empty with no white space at either edge |
| MathExtractor.BodiesStep | app/utils/mathExtractor.ts:15-21 | one loop step: the first match's kept body, then the scan from its end |
| MathExtractor.BodiesEnd | app/utils/mathExtractor.ts:15 | with no further match nothing more is extracted |
| MathExtractor.ExtractMathExpressions | app/utils/mathExtractor.ts:6-24 | the `exec` loop yields the trimmed non-empty bodies of the delimited expressions, in order |
| MathExtractor.BodyIsShortest | app/utils/mathExtractor.ts:12 | a body never holds a `$`, `\)` or `\]` |
| MathExtractor.MatchTokens | app/utils/mathExtractor.ts:35-38 | a token match ends inside the text, after its start when the first token is not optional |
| MathExtractor.MatchTokensSound | app/utils/mathExtractor.ts:35-38 | what the greedy token matcher finds is a match of the corresponding regular expression |
| MathExtractor.TokenMatchesFrom | app/utils/mathExtractor.ts:42-48 | every match found by the global scan is non-empty |
| MathExtractor.Distinct | app/utils/mathExtractor.ts:45-63 | de-duplication keeps what was already collected as a prefix |
| MathExtractor.DistinctProperties | app/utils/mathExtractor.ts:45-63 | the result has no duplicates and holds exactly the elements of its inputs |
| MathExtractor.DistinctConcat | app/utils/mathExtractor.ts:41-49 | de-duplicating a concatenation de-duplicates its halves in turn |
| MathExtractor.NonEmpty | app/utils/mathExtractor.ts:45 | only non-empty strings of the input, and all of them |
| MathExtractor.NonEmptyConcat | app/utils/mathExtractor.ts:45 | filtering distributes over concatenation |
| MathExtractor.TrimAll | app/utils/mathExtractor.ts:44 | each element trimmed, the length kept |
| MathExtractor.AddOne | app/utils/mathExtractor.ts:44-47 | one step skips a blank or already collected equation and appends any other |
| MathExtractor.MatchStep | app/utils/mathExtractor.ts:43-48 | a match contributes its trimmed text and the scan resumes at its end |
| MathExtractor.NoMatchStep | app/utils/mathExtractor.ts:43 | without a match at i the scan moves on by one character |
| MathExtractor.NextPattern | app/utils/mathExtractor.ts:41-49 | each further pattern extends the equations found with the earlier ones |
| MathExtractor.ExtractEquations | app/utils/mathExtractor.ts:30-52 | the loops yield each pattern's matches in turn, trimmed, skipping empty and repeated ones |
| MathExtractor.EquationsDistinct | app/utils/mathExtractor.ts:30-52 | no duplicates and no empty strings, and every non-empty trimmed match is among the equations |
| MathExtractor.ExtractAllMath | app/utils/mathExtractor.ts:57-64 | the LaTeX bodies then the equations, each once at its first occurrence: no duplicates, exactly the elements of both, the distinct bodies first |
| MathRenderer.GapBefore | app/utils/mathRenderer.tsx:33-38 | text is pushed before a match exactly when the match starts after the last index |
| MathRenderer.FlattenConcat | app/utils/mathRenderer.tsx:27-76 | putting segments back together distributes over concatenation |
| MathRenderer.SegmentsStep | app/utils/mathRenderer.tsx:27-68 | one loop step: the text before the match, the match, then the segments from its end |
| MathRenderer.SegmentsEnd | app/utils/mathRenderer.tsx:70-76 | after the last match only the remaining text, if any |
| MathRenderer.FlattenGap | app/utils/mathRenderer.tsx:34 | a text segment is the substring it was cut from |
| MathRenderer.FlattenMatch | app/utils/mathRenderer.tsx:28-30 | a math segment with its delimiters is the full match |
| MathRenderer.Coverage | app/utils/mathRenderer.tsx:27-76 | the text segments and the delimited expressions put back together give the content exactly |
| MathRenderer.AlternatingStep | app/utils/mathRenderer.tsx:33-38 | a non-empty text before an expression keeps the segments alternating |
| MathRenderer.GapsAlternate | app/utils/mathRenderer.tsx:27-76 | text segments are never empty and never follow each other |
| MathRenderer.RenderAll | app/utils/mathRenderer.tsx:27-76 | one part per segment |
| MathRenderer.RenderAllConcat | app/utils/mathRenderer.tsx:27-76 | rendering distributes over concatenation |
| MathRenderer.RenderAllIndex | app/utils/mathRenderer.tsx:43-60 | each part is the rendering of its segment: text as is, math trimmed, block exactly for `\[ \]` and `$$ $$` |
| MathRenderer.SegmentStep | app/utils/mathRenderer.tsx:27-68 | one loop step pushes the text before the match when the match starts later, then the match |
| MathRenderer.RenderEnd | app/utils/mathRenderer.tsx:70-76 | the remaining text is pushed exactly when some is left |
| MathRenderer.RenderGap | app/utils/mathRenderer.tsx:33-38 | the text before a match is one part when non-empty, none otherwise |
| MathRenderer.RenderMathContent | app/utils/mathRenderer.tsx:10-84 | the scan's parts are the rendering of the content: a single empty text for empty content, the content itself when nothing was pushed |
| MathRenderer.NoDelimitersUnchanged | app/utils/mathRenderer.tsx:78-81 | text without a delimited expression is shown as it is, in one piece |
| MathRenderer.MathOfConcat | app/utils/mathRenderer.tsx:27-76 | the math shown distributes over concatenation |
| MathRenderer.MathOfStep | app/utils/mathRenderer.tsx:27-68 | the math of text, an expression and the rest is the expression's then the rest's |
| MathRenderer.MathOfShown | app/utils/mathRenderer.tsx:48 | a math part shows a body exactly when the trimmed body is not empty |
| MathRenderer.MathOfText | app/utils/mathRenderer.tsx:36 | a text part shows no math |
| MathRenderer.RendererAgreesWithExtractor | app/utils/mathRenderer.tsx:24-68 | the renderer shows as math exactly the expressions the extractor returns, in the same order |
| Whiteboard.ColumnRow | components/WhiteboardChatCombined.tsx:39-42 | the row is below the column size; the first column holds the first `perColumn` indices, the second the next `perColumn` |
| Whiteboard.PerColumn | components/WhiteboardChatCombined.tsx:33-36 | the count is the floor of (height - 160) / 100 |
| Whiteboard.ColumnRowIsDivision | components/WhiteboardChatCombined.tsx:39-42 | the counted column and row are `floor(index / perColumn)` and `index % perColumn` |
| Whiteboard.ShiftByDivisor | components/WhiteboardChatCombined.tsx:39-42 | one more column's worth of indices adds one to the column and keeps the row |
| Whiteboard.DivUnique | components/WhiteboardChatCombined.tsx:39-42 | quotient and remainder are the only pair rebuilding the index with the remainder in range |
| Whiteboard.Position | components/WhiteboardChatCombined.tsx:26-61 | with no room for a row, x is the right column and y is NaN; with room, y is 60 + (index mod perColumn)·100, and x is 80 for the first column, half the width for the second, width - 80 beyond; with a negative count, y uses the count's magnitude and x is 80 for index 0, width - 80 otherwise |
| Whiteboard.NextColumnSameRow | components/WhiteboardChatCombined.tsx:39-58 | an index one whole column further on sits at the same height |
| Whiteboard.CollapseSpaces | components/WhiteboardChatCombined.tsx:98 | every run of white space becomes one space, and no other character is introduced |
| Whiteboard.ReplaceChar | components/WhiteboardChatCombined.tsx:99-100 | no occurrence of the replaced character survives unless the replacement holds it; text without it is unchanged |
| Whiteboard.BraceDigits | components/WhiteboardChatCombined.tsx:101-102 | no mark is left directly followed by a digit, and only braces are added |
| Whiteboard.DollarRunStart | components/WhiteboardChatCombined.tsx:106 | the start of the final run of `$` |
| Whiteboard.StripDollars | components/WhiteboardChatCombined.tsx:106 | no `$` at either end of the result, and no character introduced |
| Whiteboard.StripDollarsKeepsClean | components/WhiteboardChatCombined.tsx:106 | text with no `$` at either end is unchanged |
| Whiteboard.StripDollarsIdempotent | components/WhiteboardChatCombined.tsx:106 | stripping twice is stripping once |
| Whiteboard.Apply | components/WhiteboardChatCombined.tsx:98-102 | the times pass leaves no `*`, the divide pass no `/`, and no pass but the white-space one brings either in |
| Whiteboard.FormatLatex | components/WhiteboardChatCombined.tsx:92-106 | the formatted expression has no `$` at either end |
| Whiteboard.NoneReintroduce | components/WhiteboardChatCombined.tsx:99-102 | later passes never bring back a `*` or `/` that was removed |
| Whiteboard.PlainHasNoOperators | components/WhiteboardChatCombined.tsx:95-106 | a plain equation comes out with every `*` and `/` spelt as a LaTeX command |
| Whiteboard.BlankIffTrimEmpty | components/WhiteboardChatCombined.tsx:110 | the blank test is exactly `trim()` giving the empty string |
| Whiteboard.FormatAll | components/WhiteboardChatCombined.tsx:90-106 | each expression of the batch is formatted in its place |
| Whiteboard.AdditionsSnoc | components/WhiteboardChatCombined.tsx:90-122 | one more expression is added after the earlier additions exactly when it is novel, at the next free index with its batch index in its id |
| Whiteboard.AdditionsNovel | components/WhiteboardChatCombined.tsx:109-110 | at most one element per expression, each non-blank and absent from the board |
| Whiteboard.AdditionsPlaced | components/WhiteboardChatCombined.tsx:112-113 | the k-th added element sits at board index `prev.length + k` |
| Whiteboard.AppendPlaced | components/WhiteboardChatCombined.tsx:112-120 | appending at the next index keeps every element at its index's position |
| Whiteboard.AdditionsFromBatch | components/WhiteboardChatCombined.tsx:115-120 | every added element shows an expression of the batch and carries that expression's id |
| Whiteboard.NothingAddedIff | components/WhiteboardChatCombined.tsx:125-127 | nothing is added exactly when every expression is blank or already on the board |
| Whiteboard.SameBatchNotCompared | components/WhiteboardChatCombined.tsx:109 | two equal expressions in one batch are both added, since only the previous board is searched |
| Whiteboard.NextElements | components/WhiteboardChatCombined.tsx:84-130 | the loop's updater returns the board followed by the novel expressions of the batch |
| Whiteboard.KeyIffSameShape | components/WhiteboardChatCombined.tsx:174-183 | two commands share a key exactly when they have the same type and, for the six keyed types, the same geometry; labels and colours never matter |
| Whiteboard.CommandKey | components/WhiteboardChatCombined.tsx:174-182 | direct definition without an ensures of its own; Whiteboard.KeyIffSameShape and Whiteboard.KindDetermines state it |
| Whiteboard.KindDetermines | components/WhiteboardChatCombined.tsx:175 | the type in a key names exactly one kind of command |
| Whiteboard.KeySetCons | components/WhiteboardChatCombined.tsx:154-165 | the keys of a batch are the first one's and the rest's |
| Whiteboard.KeySetSnoc | components/WhiteboardChatCombined.tsx:154-165 | the keys of a longer prefix add the next command's key |
| Whiteboard.AdmitHistory | components/WhiteboardChatCombined.tsx:172-194 | afterwards the history holds the old keys and the key of every command of the batch |
| Whiteboard.Admit | components/WhiteboardChatCombined.tsx:172-194 | direct definition without an ensures of its own; Whiteboard.AdmitHistory, Whiteboard.AdmitFresh and Whiteboard.AllDuplicatesIff state it |
| Whiteboard.AdmitFresh | components/WhiteboardChatCombined.tsx:172-194 | what passes comes from the batch, is new to the history and has no two of the same shape; every key of the batch is then in the history or among those passed |
| Whiteboard.AllDuplicatesIff | components/WhiteboardChatCombined.tsx:196-208 | nothing passes exactly when every key of the batch is already in the history |
| Whiteboard.ResendDrawsNothing | components/WhiteboardChatCombined.tsx:172-194 | the same batch sent twice draws nothing the second time |
| Whiteboard.Board.constructor | components/WhiteboardChatCombined.tsx:16-22 | nothing drawn, no element, a 1000 by 800 canvas |
| Whiteboard.Board.Resize | components/WhiteboardChatCombined.tsx:65-75 | the measured size replaces the canvas size and nothing else changes |
| Whiteboard.Board.HandleMathExtracted | components/WhiteboardChatCombined.tsx:82-131 | the elements grow by the novel formatted expressions placed at the current canvas size; nothing else changes |
| Whiteboard.Board.HandleMessageSent | components/WhiteboardChatCombined.tsx:133-213 | no commands, no change; a restore sets the history to the batch's keys, draws all and asks for a clear; otherwise the passing commands are drawn, a clearing message empties the history, and nothing changes when none pass |
| Env.Setting | lib/env.ts:16-31 | a set, non-empty variable is used as is; an unset or empty one takes the fallback |
| Env.MissingNames | lib/env.ts:39-47 | each required name is listed exactly when its setting is empty; at most three |
| Env.ValidateEnv | lib/env.ts:38-57 | valid exactly when the three required settings are non-empty; otherwise the error lists the empty ones |
| Env.MissingMessage | lib/env.ts:50-53 | direct definition without an ensures of its own: the names joined by ", " between the two fixed lines |
| Env.ConfigOf | lib/env.ts:14-32 | direct definition without an ensures of its own: each setting or its default; Env.GetAwsConfig and Env.RegionNeverEmpty state the defaults they use |
| Env.OnlyOpenAIKeyCanBeMissing | lib/env.ts:16-57 | table and bucket have non-empty defaults, so only the OpenAI key is ever reported missing, and validation passes exactly when that variable is set and non-empty |
| Env.DevelopmentFlagQuirk | lib/env.ts:24-26 | with NODE_ENV unset the node environment reads "development" but `isDevelopment` is false; the two flags are never both set and each agrees with the node environment |
| Env.GetAwsConfig | lib/env.ts:63-72 | the AWS configuration carries the configured region |
| Env.RegionNeverEmpty | lib/env.ts:19-72 | the region is never empty, and defaults to us-east-1 |
| Secrets.Normalize | lib/secrets-manager.ts:21-28 | never longer than the input; no white space and no byte-order mark at either end |
| Secrets.NormalizeKeepsClean | lib/secrets-manager.ts:21-28 | a key with clean edges is left as it is |
| Secrets.NormalizeIdempotent | lib/secrets-manager.ts:21-28 | normalising twice is normalising once |
| Secrets.BlankNormalizesEmpty | lib/secrets-manager.ts:21-28 | a key made only of white space and byte-order marks normalises to nothing |
| Secrets.Field | lib/secrets-manager.ts:81 | a property is found exactly when the object has one of that name, and its value is that property's |
| Secrets.FirstTruthy | lib/secrets-manager.ts:81 | the `||` chain gives nothing exactly when no name is set to a truthy value; otherwise the value of the first name that is |
| Secrets.ChosenKey | lib/secrets-manager.ts:81 | nothing exactly for an empty object; without a truthy preferred property, the first property's value |
| Secrets.ApiKeyFirst | lib/secrets-manager.ts:81 | a non-empty `apiKey` string wins over every other property |
| Secrets.FirstValueFallback | lib/secrets-manager.ts:81 | an object with none of the preferred properties falls back to its first value |
| Secrets.SecretOfText | lib/secrets-manager.ts:68-95 | the secret read from a text reply is always normalised |
| Secrets.FromStore | lib/secrets-manager.ts:57-107 | a value read from the store is non-empty and normalised; a failed fetch keeps its message; a reply with no usable text and no binary is the "Secret value is empty" error |
| Secrets.PlainTextSecret | lib/secrets-manager.ts:91-95 | a text that is not JSON comes back normalised |
| Secrets.UnusableKeyFallsBackToText | lib/secrets-manager.ts:79-95 | an object whose chosen key is not a non-empty string yields the whole cleaned text, since the thrown error is caught by the parse handler |
| Secrets.EnvValue | lib/secrets-manager.ts:49-123 | the fallback variable's value exactly when its name and its value are both non-empty |
| Secrets.SecretCache.constructor | lib/secrets-manager.ts:11 | the cache starts empty |
| Secrets.SecretCache.GetSecret | lib/secrets-manager.ts:38-134 | an unexpired entry is returned without a fetch; in development a set fallback is returned normalised without a fetch; otherwise a fetched value is cached for five minutes and returned, and a failure gives the fallback or the wrapped error; the store is asked exactly when neither of the first two holds; the cache only ever holds non-empty normalised values; every value returned is normalised, and a cache hit is non-empty |
| Secrets.SecretCache.GetOpenAIApiKey | lib/secrets-manager.ts:140-143 | the secret named by OPENAI_SECRET_NAME, default "openai/sainathyai", served from the cache while unexpired; every value returned is normalised |
| Secrets.SecretCache.Clear | lib/secrets-manager.ts:148-154 | a non-empty name removes that entry only; no name or the empty name empties the cache |
| Session.FirstUser | lib/session-manager.ts:99 | the index of the first user message, none exactly when there is no user message |
| Session.Title | lib/session-manager.ts:98-108 | "New Conversation" without a user message; at most 53 characters; a trimmed first user message of up to 50 characters is the title, a longer one gives its first 50 characters followed by "..." |
| Session.ShortTitleIsTrimmed | lib/session-manager.ts:106-107 | a title that was not cut is already trimmed |
| Session.TitleStable | lib/session-manager.ts:99 | once a user message exists, later messages never change the title |
| Session.FirstUserOf | lib/session-manager.ts:99 | a user message preceded only by other roles is the one `find` returns |
| Session.AgeOf | lib/session-manager.ts:116-127 | the buckets partition the ages: just now below a minute (negative ages included), minutes below an hour, hours below a day, yesterday below two days, days below a week, the date beyond; each count is the floored quotient |
| Session.AgeText | lib/session-manager.ts:119-126 | a counted bucket's text starts with its count and unit and ends in " ago"; the date bucket is the locale date |
| Session.Plural | lib/session-manager.ts:122-123 | the "s" exactly when the count is above one |
| Session.FormatTimestamp | lib/session-manager.ts:113-128 | an unparsable date shows the locale date; under a minute (or in the future) "Just now"; then "N minute(s) ago" and "N hour(s) ago" with the floored count and "s" above one; one to two days "Yesterday"; two to six days "N days ago" with the floored count; a week or more the locale date |
| Session.FixedAges | lib/session-manager.ts:121-127 | under a minute the text is "Just now", one to two days "Yesterday", a week or more the locale date |
| Session.SingularAges | lib/session-manager.ts:122-123 | one to two minutes gives "1 minute ago", one to two hours "1 hour ago" |
| Session.CountedAges | lib/session-manager.ts:117-125 | the minutes, hours and days texts carry the floored count of the age, with "s" above one |
| Session.PluralEnding | lib/session-manager.ts:122-123 | a minute or hour count ends in "s ago" exactly when it is above one |
| Upload.LastPieceOf | app/api/upload-image/route.ts:48 | the last piece of the name split at its dots holds no dot, ends the name, and is the whole name or follows a dot |
| Upload.Extension | app/api/upload-image/route.ts:48 | never empty and never holding a dot; either "jpg" or a suffix of the name |
| Upload.EndsWithShorter | app/api/upload-image/route.ts:48 | a suffix of a suffix is a suffix |
| Upload.SuffixAfterLast | app/api/upload-image/route.ts:48 | a separator-free suffix that is the whole text or follows a separator is exactly the text after the last separator |
| Upload.ExtensionAfterLastDot | app/api/upload-image/route.ts:48 | the extension of a name with something after its last dot is that something |
| Upload.LastPieceAt | app/api/upload-image/route.ts:48 | the last piece starts right after the last dot |
| Upload.ExtensionDefault | app/api/upload-image/route.ts:48 | an empty name or one ending in a dot gets "jpg" |
| Upload.ObjectKey | app/api/upload-image/route.ts:52-53 | the key ends with "/" and the file name and starts with "users/<user>/<session>/" for a signed-in user, "guests/<session>/" otherwise |
| Upload.SplitCons | app/api/upload-image/route.ts:53 | splitting peels off a first part without the separator |
| Upload.ObjectKeyParts | app/api/upload-image/route.ts:52-53 | with no "/" inside its parts, the key splits back into its prefix, user, session and file name |
| Upload.SplitThree | app/api/upload-image/route.ts:53 | three separator-free pieces joined by the separator split back into them |
| Upload.SplitFour | app/api/upload-image/route.ts:53 | four separator-free pieces joined by the separator split back into them |
| Upload.ObjectUrl | app/api/upload-image/route.ts:77 | the URL starts with "https://<bucket>.s3." and ends with ".amazonaws.com/<key>" |
| Upload.Post | app/api/upload-image/route.ts:8-95 | the checks in order (file, session id, type, size), the first failing one a 400 with its message; uploaded exactly when all pass and the store write succeeds; a failed write is a 500 carrying its error; the file name, key and URL of an upload |
| Upload.LimitInclusive | app/api/upload-image/route.ts:39-40 | a file of exactly 5 MB passes the size check |

## Left out

- Network and storage calls are parameters, not modelled services: the completion service, the vision models, the AWS Secrets Manager client and the S3 `PutObject` call. Their replies are given as values or functions.
- The DynamoDB session routes, the `fetch` wrappers in lib/session-manager.ts and lib/image-upload.ts, and the Cognito/Amplify authentication are not part of this model. They are I/O plumbing around foreign services.
- React rendering is left out: components, pages, KaTeX output, the canvas drawing of commands and its floating-point geometry. The renderer model stops at the list of text and math parts.
- `Date.now`, `new Date`, `toLocaleDateString`, `uuidv4` and `Math.random` are parameters (`now`, `localeDate`, `uuid`, `pick`).
- Secrets.SecretCache.GetSecret: the clock is read once per call, where the source reads `Date.now()` separately for the expiry check and for the new entry.
- Base64 and hex decoding (`Buffer.from`) and `JSON.parse` are function parameters. A parsed JSON value is abstracted to a string, an object with its properties in the parser's order, or another value with its truthiness.
- ParseImage.Post: the 400 for base64 that cannot be decoded is not modelled, because the decoding parameters are total functions.
- Lowercasing and case-insensitive matching fold ASCII letters only. `toLowerCase` on other letters is not modelled.
- Session.Title: lengths count Unicode scalar values, not the UTF-16 code units JavaScript counts. Characters outside the Basic Multilingual Plane therefore measure differently. The same holds for PromptBuilder.Truncate.
- Numbers are integers or rationals. `parseFloat`, `toFixed` and the NaN cases the source can produce are modelled explicitly, via the confidence NaN, the canvas `y` and the quotient by a zero column count. Other floating-point rounding is not modelled. Canvas sizes are integers.
- Prompt and instruction texts are constants of the model. Their wording is copied only where a property depends on it, as in the help count, the quoted turn count and the correction prompts.
- ChatRoute.Post: the fallback base prompt, used when the adaptive pipeline throws, is not modelled. In the model the pipeline cannot throw: the state detector's own service failure already falls back to the pattern classifier inside `detectStudentState`.
- ChatRoute.Converse: the draft fallback and the judging tables are parameters, `fallback` and `checks`. ChatRoute.Respond and ChatRoute.Post pass the apology text and `RouteChecks`, the tables of `validateResponse` and `validateMathematicalAccuracy` (see ChatRoute.JudgeWithRouteChecks).
- ChatRoute.Post: the accuracy re-check after a correction only writes a log line, so it is not modelled. All console logging is left out.
- ResponseValidator.PaintRuleIff: the paint rule's `.*` does not cross line terminators, so "area" and "paint" must be on the same line. The rule is modelled that way, as the code does.
- MathRenderer.RenderMathContent: the KaTeX error fallback is not modelled. Rendering happens after the parts are built, so building them cannot fail.
- Whiteboard.NextElements: the formatting and the layout are parameters, `format` and `place`. Whiteboard.Board.HandleMathExtracted passes `FormatLatex` and `Position` at the current canvas size. The board-level contract states the result through those functions, not by unfolding them.
- Whiteboard.Board.HandleMessageSent: the key is a structured value. `JSON.stringify` would collapse NaN to `null` and `-0` to `0`, so two distinct numeric fields could share a key; that collapse is not modelled.
- ChatRoute.Respond: the request body is taken already parsed. A body that `request.json()` cannot parse throws inside the handler's `try` and is answered with a 500; that path is not modelled.
- ParseImage.Post: likewise, a body that `request.json()` cannot parse, answered with a 500 by the catch, is not modelled.
- FeedbackRoute.Post: likewise, a body that `request.json()` cannot parse, answered with a 500 by the catch, is not modelled.
- Upload.Post: likewise, form data that `request.formData()` cannot parse, answered with a 500 by the catch, is not modelled.
- Whiteboard.NextElements: one `now` serves the whole batch, where the source reads `Date.now()` once per element when it builds the `math-…` ids. Ids built in the same millisecond agree either way; across a millisecond boundary the source's ids differ in their time part.
- FeedbackRoute.Enhance: the ERRORS section capture is computed and never used in the source, so it is not modelled.
- The secret cache is a plain map in single-threaded JavaScript, so there is no concurrency to model. Concurrent awaits interleaving two `getSecret` calls are not modelled.
- Feedback.AnalyzeFeedback: `analyzeSteps` never judges a step incorrect, so the error path of `analyzeFeedback` is reached only through Feedback.FeedbackFor, which takes an arbitrary step analysis.
