/**
 * `POST /api/ai/explain-answer`: asks the completion service to explain a
 * student's answer, and falls back to the raw reply text with its own
 * answer comparison when the reply is not the expected JSON object.
 */
module ExplainAnswer {

  import opened Wrappers
  import opened Json
  import opened Text
  import opened Completion

  /** The request body; `options` may be left out. */
  datatype ExplainRequest = ExplainRequest(
    question: Option<string>,
    userAnswer: Option<string>,
    correctAnswer: Option<string>,
    exerciseType: Option<string>,
    level: Option<string>,
    options: Option<seq<string>>)

  const MissingMessage: string := "Missing required parameters"
  const RateLimitedMessage: string :=
    "AI explanations temporarily unavailable due to quota limits. Basic explanations will be used instead."
  const AuthFailedMessage: string := "AI service configuration error. Using basic explanations instead."
  const UnavailableMessage: string :=
    "AI explanation service temporarily unavailable. Basic explanations will be provided."

  const SystemMessage: string :=
    "You are a patient and encouraging English teacher. Provide clear, helpful explanations that help students understand their mistakes and learn from them. Always be positive and constructive."

  const TranslationNote: string :=
    "For translation exercises, be flexible with variations that convey the same meaning."

  /** All five string parameters are truthy. */
  predicate HasRequired(req: ExplainRequest)
  {
    Given(req.question) && Given(req.userAnswer) && Given(req.correctAnswer) && Given(req.exerciseType) && Given(req.level)
  }

  /** The list of choices, shown only for a multiple-choice exercise that sent them. */
  function OptionsText(exerciseType: string, options: Option<seq<string>>): string
  {
    if options.Some? && exerciseType == "multiple_choice" then "\nAvailable options were: " + Join(options.value, ", ")
    else ""
  }

  /** The template's line about translation, blank for other types. */
  function TranslationLine(exerciseType: string): string
  {
    if exerciseType == "translation" then TranslationNote else ""
  }

  /** The choices are shown exactly when they were sent for a multiple-choice exercise. */
  lemma OptionsShownOnlyForMultipleChoice(exerciseType: string, options: Option<seq<string>>)
    ensures OptionsText(exerciseType, options) != "" <==> options.Some? && exerciseType == "multiple_choice"
  {
    if options.Some? && exerciseType == "multiple_choice" {
      assert OptionsText(exerciseType, options)[0] == '\n';
    }
  }

  /** The translation note appears exactly for a translation exercise. */
  lemma TranslationNoteOnlyForTranslation(exerciseType: string)
    ensures TranslationLine(exerciseType) == TranslationNote <==> exerciseType == "translation"
    ensures exerciseType != "translation" ==> TranslationLine(exerciseType) == ""
  {
    assert TranslationNote != "";
  }

  /** The verdict line of the prompt. */
  function VerdictLine(isCorrect: bool): string
  {
    "Is Correct: " + BoolToString(isCorrect)
  }

  /** The fixed lines of `createExplanationPrompt`'s template, in order. */
  const Opening: string := "Analyze this English exercise answer and provide a helpful explanation:"
  const TypeLabel: string := "Exercise Type: "
  const LevelLabel: string := "Student Level: "
  const QuestionLabel: string := "Question: "
  const AnswerLabel: string := "Student's Answer: "
  const CorrectLabel: string := "Correct Answer: "
  const AskHeading: string := "Please provide a detailed explanation that:"
  const AskWhy: string := "1. Explains why the answer is correct or incorrect"
  const AskConcept: string := "2. Teaches the underlying grammar/vocabulary concept"
  const AskTips: string := "3. Gives practical tips for similar questions"
  const AskTone: string := "4. Is encouraging and constructive"
  const AskLevel: string := "5. Is appropriate for a "
  const ShapeHeading: string := "Return your response as a JSON object with this structure:"
  const ShapeExplanation: string := "  \"explanation\": \"Main explanation of the answer (2-3 sentences)\","
  const ShapeVerdict: string := "  \"isCorrect\": "
  const ShapeTips: string := "  \"tips\": [\"Tip 1 for similar questions\", \"Tip 2 for improvement\"],"
  const ShapeConcepts: string := "  \"relatedConcepts\": [\"Grammar concept 1\", \"Grammar concept 2\"]"
  const Closing: string :=
    "Keep the explanation clear, encouraging, and educational. Focus on helping the student learn and improve."

  /** The template's opening: the exercise, the two answers and the verdict. */
  function QuestionBlock(question: string, userAnswer: string, correctAnswer: string, isCorrect: bool,
                         exerciseType: string, level: string, options: Option<seq<string>>): seq<string>
  {
    [ Opening,
      "",
      TypeLabel + ReplaceFirstChar(exerciseType, '_', ' '),
      LevelLabel + level,
      QuestionLabel + Quoted(question) + OptionsText(exerciseType, options),
      AnswerLabel + Quoted(userAnswer),
      CorrectLabel + Quoted(correctAnswer),
      VerdictLine(isCorrect),
      "" ]
  }

  /** The template's numbered requests. */
  function RequestBlock(exerciseType: string, level: string): seq<string>
  {
    [ AskHeading, AskWhy, AskConcept, AskTips, AskTone,
      AskLevel + level + " level student",
      "",
      TranslationLine(exerciseType),
      "" ]
  }

  /** The template's description of the JSON object to return. */
  function ShapeBlock(isCorrect: bool): seq<string>
  {
    [ ShapeHeading,
      "{",
      ShapeExplanation,
      ShapeVerdict + BoolToString(isCorrect) + ",",
      ShapeTips,
      ShapeConcepts,
      "}",
      "",
      Closing ]
  }

  /**
   * The lines of `createExplanationPrompt`'s template, given the verdict
   * `isCorrect` it computes first.
   */
  function PromptLines(question: string, userAnswer: string, correctAnswer: string, isCorrect: bool,
                       exerciseType: string, level: string, options: Option<seq<string>>): seq<string>
  {
    QuestionBlock(question, userAnswer, correctAnswer, isCorrect, exerciseType, level, options)
    + (RequestBlock(exerciseType, level) + ShapeBlock(isCorrect))
  }

  /** `createExplanationPrompt(...)`: the verdict is the trimmed, lower-cased comparison. */
  function Prompt(question: string, userAnswer: string, correctAnswer: string, exerciseType: string,
                  level: string, options: Option<seq<string>>): string
  {
    var isCorrect := AnswersMatch(userAnswer, correctAnswer);
    Join(PromptLines(question, userAnswer, correctAnswer, isCorrect, exerciseType, level, options), "\n")
  }

  /** The prompt states the handler's own verdict on the answer. */
  lemma PromptStatesVerdict(question: string, userAnswer: string, correctAnswer: string, isCorrect: bool,
                            exerciseType: string, level: string, options: Option<seq<string>>)
    ensures Contains(Join(PromptLines(question, userAnswer, correctAnswer, isCorrect, exerciseType, level, options), "\n"),
      VerdictLine(isCorrect))
  {
    VerdictLineAt(question, userAnswer, correctAnswer, isCorrect, exerciseType, level, options);
    JoinHoldsFirst(QuestionBlock(question, userAnswer, correctAnswer, isCorrect, exerciseType, level, options),
      RequestBlock(exerciseType, level) + ShapeBlock(isCorrect), "\n", 7);
  }

  lemma VerdictLineAt(question: string, userAnswer: string, correctAnswer: string, isCorrect: bool,
                      exerciseType: string, level: string, options: Option<seq<string>>)
    ensures var lines := QuestionBlock(question, userAnswer, correctAnswer, isCorrect, exerciseType, level, options);
      |lines| == 9 && lines[7] == VerdictLine(isCorrect)
  {
  }

  /** The JSON template asks back for the same verdict the prompt states. */
  lemma PromptEchoesVerdict(question: string, userAnswer: string, correctAnswer: string, isCorrect: bool,
                            exerciseType: string, level: string, options: Option<seq<string>>)
    ensures Contains(Join(PromptLines(question, userAnswer, correctAnswer, isCorrect, exerciseType, level, options), "\n"),
      ShapeVerdict + BoolToString(isCorrect) + ",")
  {
    var rest := RequestBlock(exerciseType, level) + ShapeBlock(isCorrect);
    ShapeVerdictAt(exerciseType, level, isCorrect);
    JoinHoldsSecond(QuestionBlock(question, userAnswer, correctAnswer, isCorrect, exerciseType, level, options), rest, "\n", 12);
  }

  lemma ShapeVerdictAt(exerciseType: string, level: string, isCorrect: bool)
    ensures var rest := RequestBlock(exerciseType, level) + ShapeBlock(isCorrect);
      |rest| == 18 && rest[12] == ShapeVerdict + BoolToString(isCorrect) + ","
  {
    var shape := ShapeBlock(isCorrect);
    assert |RequestBlock(exerciseType, level)| == 9;
    assert |shape| == 9 && shape[3] == ShapeVerdict + BoolToString(isCorrect) + ",";
  }

  /** Every choice of a multiple-choice exercise is listed in the prompt. */
  lemma PromptListsOptions(question: string, userAnswer: string, correctAnswer: string, isCorrect: bool,
                           exerciseType: string, level: string, options: seq<string>, k: nat)
    requires exerciseType == "multiple_choice" && k < |options|
    ensures Contains(Join(PromptLines(question, userAnswer, correctAnswer, isCorrect, exerciseType, level, Some(options)), "\n"),
      options[k])
  {
    var prompt := Join(PromptLines(question, userAnswer, correctAnswer, isCorrect, exerciseType, level, Some(options)), "\n");
    var text := OptionsText(exerciseType, Some(options));
    var line := QuestionLabel + Quoted(question) + text;
    PromptHasQuestionLine(question, userAnswer, correctAnswer, isCorrect, exerciseType, level, Some(options));
    var listed := Join(options, ", ");
    JoinHolds(options, ", ", k);
    assert text == "\nAvailable options were: " + listed;
    ContainsEnd("\nAvailable options were: ", listed);
    ContainsTransitive(text, listed, options[k]);
    ContainsEnd(QuestionLabel + Quoted(question), text);
    ContainsTransitive(line, text, options[k]);
    ContainsTransitive(prompt, line, options[k]);
  }

  lemma PromptHasQuestionLine(question: string, userAnswer: string, correctAnswer: string, isCorrect: bool,
                              exerciseType: string, level: string, options: Option<seq<string>>)
    ensures Contains(Join(PromptLines(question, userAnswer, correctAnswer, isCorrect, exerciseType, level, options), "\n"),
      QuestionLabel + Quoted(question) + OptionsText(exerciseType, options))
  {
    QuestionLineAt(question, userAnswer, correctAnswer, isCorrect, exerciseType, level, options);
    JoinHoldsFirst(QuestionBlock(question, userAnswer, correctAnswer, isCorrect, exerciseType, level, options),
      RequestBlock(exerciseType, level) + ShapeBlock(isCorrect), "\n", 4);
  }

  lemma QuestionLineAt(question: string, userAnswer: string, correctAnswer: string, isCorrect: bool,
                       exerciseType: string, level: string, options: Option<seq<string>>)
    ensures var lines := QuestionBlock(question, userAnswer, correctAnswer, isCorrect, exerciseType, level, options);
      |lines| == 9 && lines[4] == QuestionLabel + Quoted(question) + OptionsText(exerciseType, options)
  {
  }

  /** The completion request the handler sends. */
  function CompletionCall(question: string, userAnswer: string, correctAnswer: string, exerciseType: string,
                          level: string, options: Option<seq<string>>): (c: CompletionRequest)
    ensures c.model == ChatModel && c.system == SystemMessage
    ensures c.temperature == 0.3 && c.maxTokens == 800
    ensures c.prompt == Prompt(question, userAnswer, correctAnswer, exerciseType, level, options)
  {
    CompletionRequest(ChatModel, SystemMessage, Prompt(question, userAnswer, correctAnswer, exerciseType, level, options), 0.3, 800)
  }

  /** The parsed reply passes validation: a truthy `explanation` and a boolean `isCorrect`. */
  predicate IsExplanation(parsed: Option<Json>)
  {
    parsed.Some? && Truthy(Field(parsed.value, "explanation"))
    && Field(parsed.value, "isCorrect").Some? && Field(parsed.value, "isCorrect").value.JBool?
  }

  /** The fallback body: the raw reply and the handler's own verdict. */
  function FallbackBody(text: string, isCorrect: bool): (body: Json)
    ensures Field(body, "success") == Some(JBool(true)) && Field(body, "explanation") == Some(JStr(text))
    ensures Field(body, "isCorrect") == Some(JBool(isCorrect))
    ensures Field(body, "tips") == Some(JArr([])) && Field(body, "relatedConcepts") == Some(JArr([]))
  {
    JObj(map["success" := JBool(true), "explanation" := JStr(text), "isCorrect" := JBool(isCorrect),
             "tips" := JArr([]), "relatedConcepts" := JArr([])])
  }

  /** The inner `try`: a valid reply is spread into the body, anything else falls back. */
  function Answer(parse: string -> Option<Json>, text: string, userAnswer: string, correctAnswer: string): (r: Result<Json, Thrown>)
    ensures r.Success?
    ensures IsExplanation(parse(text)) ==> r.value == SuccessSpread(parse(text).value.fields)
    ensures !IsExplanation(parse(text)) ==> r.value == FallbackBody(text, AnswersMatch(userAnswer, correctAnswer))
  {
    if IsExplanation(parse(text)) then Success(SuccessSpread(parse(text).value.fields))
    else Success(FallbackBody(text, AnswersMatch(userAnswer, correctAnswer)))
  }

  /** The outer `catch` for errors without a status code. */
  function Recover(e: Thrown): (r: (int, string))
    ensures e.status == Some(429) ==> r == (429, RateLimitedMessage)
    ensures e.status == Some(401) ==> r == (401, AuthFailedMessage)
    ensures e.status != Some(429) && e.status != Some(401) ==> r == (500, UnavailableMessage)
  {
    if e.status == Some(429) then (429, RateLimitedMessage)
    else if e.status == Some(401) then (401, AuthFailedMessage)
    else (500, UnavailableMessage)
  }

  /** The completion request for a request that has every required parameter. */
  function CallFor(req: ExplainRequest): CompletionRequest
    requires HasRequired(req)
  {
    CompletionCall(req.question.value, req.userAnswer.value, req.correctAnswer.value, req.exerciseType.value,
      req.level.value, req.options)
  }

  /** `Answer` for one request, as the handler hands it the reply text. */
  function AnswerFor(parse: string -> Option<Json>, userAnswer: string, correctAnswer: string): (f: string -> Result<Json, Thrown>)
    ensures forall text :: f(text) == Answer(parse, text, userAnswer, correctAnswer)
  {
    text => Answer(parse, text, userAnswer, correctAnswer)
  }

  /** The handler. */
  function Handle(req: ExplainRequest, apiKey: Option<string>, complete: CompletionRequest -> CompletionOutcome,
                  parse: string -> Option<Json>): (h: Handled)
    ensures !HasRequired(req) ==> h == Handled(HttpError(400, MissingMessage), None)
    ensures h.sent.Some? <==> HasRequired(req) && Given(apiKey)
    ensures h.sent.Some? ==> h.sent.value == CallFor(req)
  {
    if !HasRequired(req) then Handled(HttpError(400, MissingMessage), None)
    else Run(apiKey, CallFor(req), complete, AnswerFor(parse, req.userAnswer.value, req.correctAnswer.value), Recover)
  }

  /**
   * Once the service answers with text, the handler always succeeds: with
   * the reply's own object when it is valid, and otherwise with a fallback
   * whose verdict is the one the prompt stated.
   */
  lemma AnsweredMeansSuccess(req: ExplainRequest, apiKey: Option<string>, complete: CompletionRequest -> CompletionOutcome,
                             parse: string -> Option<Json>)
    requires HasRequired(req) && Given(apiKey) && ReplyText(complete(CallFor(req))).Some?
    ensures var h := Handle(req, apiKey, complete, parse);
      var text := ReplyText(complete(CallFor(req))).value;
      h.result.Ok?
      && (IsExplanation(parse(text)) ==> h.result.body == SuccessSpread(parse(text).value.fields))
      && (!IsExplanation(parse(text)) ==>
            h.result.body == FallbackBody(text, AnswersMatch(req.userAnswer.value, req.correctAnswer.value))
            && Contains(CallFor(req).prompt, VerdictLine(Field(h.result.body, "isCorrect").value.b)))
  {
    var answer := AnswerFor(parse, req.userAnswer.value, req.correctAnswer.value);
    RunSucceeds(apiKey, CallFor(req), complete, answer, Recover);
    PromptStatesVerdict(req.question.value, req.userAnswer.value, req.correctAnswer.value,
      AnswersMatch(req.userAnswer.value, req.correctAnswer.value), req.exerciseType.value, req.level.value, req.options);
  }

  /** Every failure is a status code the handler chose, or the service's own error passed on. */
  lemma HandleErrorCodes(req: ExplainRequest, apiKey: Option<string>, complete: CompletionRequest -> CompletionOutcome,
                         parse: string -> Option<Json>)
    ensures var h := Handle(req, apiKey, complete, parse);
      h.result.HttpError? ==>
        h.result.statusCode in {400, 401, 429, 500}
        || (h.sent.Some? && complete(h.sent.value).Failed? && HasStatusCode(complete(h.sent.value).error)
            && h.result == HttpError(complete(h.sent.value).error.statusCode.value, complete(h.sent.value).error.message))
  {
    if HasRequired(req) {
      RunFails(apiKey, CallFor(req), complete, AnswerFor(parse, req.userAnswer.value, req.correctAnswer.value), Recover);
    }
  }
}
