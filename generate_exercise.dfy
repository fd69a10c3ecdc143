/**
 * `POST /api/ai/generate-exercise`: checks the request, asks the completion
 * service for a JSON array of exercises, validates the array and returns it.
 */
module GenerateExercise {

  import opened Wrappers
  import opened Json
  import opened Text
  import opened Completion

  /** The request body; `count` may be left out. */
  datatype ExerciseRequest = ExerciseRequest(
    topic: Option<string>,
    level: Option<string>,
    exerciseType: Option<string>,
    count: Option<int>)

  const MissingMessage: string := "Missing required parameters: topic, level, and type are required"
  const ParseFailedMessage: string := "Failed to parse AI response. Please try again."
  const RateLimitedMessage: string := "AI service temporarily unavailable. Please check your OpenAI quota or try again later."
  const AuthFailedMessage: string := "AI service authentication failed. Please check your OpenAI API key configuration."
  const QuotaExceededMessage: string := "AI quota exceeded. Please upgrade your OpenAI plan or try again later."
  const UnavailableMessage: string := "AI service temporarily unavailable. Please try again later."

  const SystemMessage: string :=
    "You are an expert English language teacher. Generate high-quality, educational exercises that are appropriate for the specified level. Always respond with valid JSON format."

  const OptionsField: string := "\"options\": [\"Option 1\", \"Option 2\", \"Option 3\", \"Option 4\"],"

  /** The level and exercise type names the tables know. */
  const Beginner: string := "beginner"
  const Intermediate: string := "intermediate"
  const Advanced: string := "advanced"
  const MultipleChoice: string := "multiple_choice"
  const FillBlank: string := "fill_blank"
  const Translation: string := "translation"
  const Listening: string := "listening"

  /** `topic`, `level` and `type` are all truthy. */
  predicate HasRequired(req: ExerciseRequest)
  {
    Given(req.topic) && Given(req.level) && Given(req.exerciseType)
  }

  /** `const { count = 1 } = body`: the default replaces only a missing count. */
  function CountOf(req: ExerciseRequest): (n: int)
    ensures req.count.None? ==> n == 1
    ensures req.count.Some? ==> n == req.count.value
  {
    req.count.GetOr(1)
  }

  const BeginnerDescription: string := "simple vocabulary, basic grammar, common everyday situations"
  const IntermediateDescription: string :=
    "moderate vocabulary, intermediate grammar structures, workplace and social situations"
  const AdvancedDescription: string := "complex vocabulary, advanced grammar, academic and professional contexts"

  /** The level description table; any other key reads as `undefined`. */
  function LevelDescription(level: string): string
  {
    if level == Beginner then BeginnerDescription
    else if level == Intermediate then IntermediateDescription
    else if level == Advanced then AdvancedDescription
    else "undefined"
  }

  const MultipleChoiceInstruction: string :=
    "Generate multiple choice questions with 4 options each. Include the \"options\" field as an array of 4 strings."
  const FillBlankInstruction: string :=
    "Generate fill-in-the-blank exercises with a single word or short phrase missing. The question should contain \"___\" where the answer goes."
  const TranslationInstruction: string :=
    "Generate translation exercises from simple English to more complex English or vice versa, appropriate for the level."
  const ListeningInstruction: string :=
    "Generate listening comprehension questions (note: actual audio not provided, but create questions as if audio exists)."

  /** The instruction table for exercise types; any other key reads as `undefined`. */
  function TypeInstruction(exerciseType: string): string
  {
    if exerciseType == MultipleChoice then MultipleChoiceInstruction
    else if exerciseType == FillBlank then FillBlankInstruction
    else if exerciseType == Translation then TranslationInstruction
    else if exerciseType == Listening then ListeningInstruction
    else "undefined"
  }

  /** A level or type outside the tables renders as `undefined` in the prompt. */
  lemma UnknownKeysReadUndefined(level: string, exerciseType: string)
    requires level != Beginner && level != Intermediate && level != Advanced
    requires exerciseType != MultipleChoice && exerciseType != FillBlank
    requires exerciseType != Translation && exerciseType != Listening
    ensures LevelDescription(level) == "undefined" && TypeInstruction(exerciseType) == "undefined"
  {
  }

  /** The line of the template that carries the `options` field, blank unless multiple choice. */
  function OptionsLine(exerciseType: string): string
  {
    if exerciseType == MultipleChoice then "    " + OptionsField else "    "
  }

  /** The options line of the template asks for the `options` field exactly for multiple choice. */
  lemma OptionsLineOnlyForMultipleChoice(exerciseType: string)
    ensures Contains(OptionsLine(exerciseType), OptionsField) <==> exerciseType == MultipleChoice
  {
    if exerciseType == MultipleChoice {
      ContainsEnd("    ", OptionsField);
    } else {
      assert |OptionsLine(exerciseType)| < |OptionsField|;
    }
  }

  /** The template's `"type"` entry. */
  function TypeField(exerciseType: string): string
  {
    "\"type\": " + Quoted(exerciseType)
  }

  /** The template's `"difficulty_level"` entry. */
  function LevelField(level: string): string
  {
    "\"difficulty_level\": " + Quoted(level)
  }

  /** The fixed lines of `createExercisePrompt`'s template, in order. */
  const AskClear: string := "- Questions should be clear and unambiguous"
  const AskExplained: string := "- Include detailed explanations that help students learn"
  const AskPractical: string := "- Focus on practical, useful English skills"
  const AskNeutral: string := "- Avoid cultural references that might be confusing"
  const ShapeHeading: string := "Return ONLY a valid JSON array with this exact structure:"
  const ShapeQuestion: string := "    \"question\": \"The exercise question text\","
  const ShapeAnswer: string := "    \"correct_answer\": \"The correct answer\","
  const ShapeExplanation: string :=
    "    \"explanation\": \"Clear explanation of why this is correct and what concept it teaches\","
  const Closing: string := "Make sure the JSON is valid and properly formatted."

  const IntroCreate: string := "Create "
  const IntroEnglish: string := " high-quality English "
  const IntroAbout: string := " exercise(s) about "

  /** The opening line's text before the quoted topic. */
  function IntroHead(exerciseType: string, count: int): string
  {
    IntroCreate + IntToString(count) + IntroEnglish + ReplaceFirstChar(exerciseType, '_', ' ') + IntroAbout
  }

  /** The opening line's text after the quoted topic. */
  function IntroTail(level: string): string
  {
    " for " + level + " level students."
  }

  /** The template up to its requirements list. */
  function RequestBlock(topic: string, level: string, exerciseType: string, count: int): seq<string>
  {
    [ IntroHead(exerciseType, count) + Quoted(topic) + IntroTail(level),
      "",
      "Level requirements: " + LevelDescription(level),
      "Exercise type: " + TypeInstruction(exerciseType),
      "",
      "Requirements:",
      AskClear,
      "- Appropriate difficulty for " + level + " level",
      AskExplained,
      AskPractical,
      AskNeutral ]
  }

  /** The template's example of the JSON array to return. */
  function ShapeBlock(level: string, exerciseType: string): seq<string>
  {
    [ "",
      ShapeHeading,
      "[",
      "  {",
      ShapeQuestion,
      "    " + TypeField(exerciseType) + ",",
      OptionsLine(exerciseType),
      ShapeAnswer,
      ShapeExplanation,
      "    " + LevelField(level),
      "  }",
      "]",
      "",
      Closing ]
  }

  /** The lines of `createExercisePrompt`'s template. */
  function PromptLines(topic: string, level: string, exerciseType: string, count: int): seq<string>
  {
    RequestBlock(topic, level, exerciseType, count) + ShapeBlock(level, exerciseType)
  }

  /** `createExercisePrompt(topic, level, type, count)`. */
  function Prompt(topic: string, level: string, exerciseType: string, count: int): string
  {
    Join(PromptLines(topic, level, exerciseType, count), "\n")
  }

  /** Where the opening line and the template's `type`, `options` and level lines stand. */
  lemma TopicLineAt(topic: string, level: string, exerciseType: string, count: int)
    ensures var lines := RequestBlock(topic, level, exerciseType, count);
      |lines| == 11 && lines[0] == IntroHead(exerciseType, count) + Quoted(topic) + IntroTail(level)
  {
  }

  lemma TypeLineAt(level: string, exerciseType: string)
    ensures var lines := ShapeBlock(level, exerciseType);
      |lines| == 14 && lines[5] == "    " + TypeField(exerciseType) + ","
  {
  }

  lemma OptionsLineAt(level: string, exerciseType: string)
    ensures var lines := ShapeBlock(level, exerciseType);
      |lines| == 14 && lines[6] == OptionsLine(exerciseType)
  {
  }

  lemma LevelLineAt(level: string, exerciseType: string)
    ensures var lines := ShapeBlock(level, exerciseType);
      |lines| == 14 && lines[9] == "    " + LevelField(level)
  {
  }

  /**
   * The prompt states the count and the type with its first `_` turned into
   * a space, quotes the topic, names the type and level in the JSON
   * template, and asks for the `options` field for multiple choice.
   */
  lemma PromptMentions(topic: string, level: string, exerciseType: string, count: int)
    ensures Contains(Prompt(topic, level, exerciseType, count), IntToString(count))
    ensures Contains(Prompt(topic, level, exerciseType, count), ReplaceFirstChar(exerciseType, '_', ' '))
    ensures Contains(Prompt(topic, level, exerciseType, count), Quoted(topic))
    ensures Contains(Prompt(topic, level, exerciseType, count), TypeField(exerciseType))
    ensures Contains(Prompt(topic, level, exerciseType, count), LevelField(level))
    ensures exerciseType == MultipleChoice ==> Contains(Prompt(topic, level, exerciseType, count), OptionsField)
  {
    PromptOpensWithRequest(topic, level, exerciseType, count);
    PromptQuotesTopic(topic, level, exerciseType, count);
    PromptNamesType(topic, level, exerciseType, count);
    PromptNamesLevel(topic, level, exerciseType, count);
    if exerciseType == MultipleChoice {
      PromptAsksForOptions(topic, level, exerciseType, count);
    }
  }

  lemma PromptQuotesTopic(topic: string, level: string, exerciseType: string, count: int)
    ensures Contains(Prompt(topic, level, exerciseType, count), Quoted(topic))
  {
    TopicLineAt(topic, level, exerciseType, count);
    JoinHoldsFirst(RequestBlock(topic, level, exerciseType, count), ShapeBlock(level, exerciseType), "\n", 0);
    ContainsPiece(Prompt(topic, level, exerciseType, count), IntroHead(exerciseType, count), Quoted(topic), IntroTail(level));
  }

  /** The prompt holds its opening line. */
  lemma PromptHasOpeningLine(topic: string, level: string, exerciseType: string, count: int)
    ensures Contains(Prompt(topic, level, exerciseType, count),
      IntroHead(exerciseType, count) + Quoted(topic) + IntroTail(level))
  {
    TopicLineAt(topic, level, exerciseType, count);
    JoinHoldsFirst(RequestBlock(topic, level, exerciseType, count), ShapeBlock(level, exerciseType), "\n", 0);
  }

  /** The opening line's head states the count and the type with its first `_` turned into a space. */
  lemma IntroHeadStates(exerciseType: string, count: int)
    ensures Contains(IntroHead(exerciseType, count), IntToString(count))
    ensures Contains(IntroHead(exerciseType, count), ReplaceFirstChar(exerciseType, '_', ' '))
  {
    var number := IntToString(count);
    var kind := ReplaceFirstChar(exerciseType, '_', ' ');
    assert IntroHead(exerciseType, count) == IntroCreate + number + (IntroEnglish + kind + IntroAbout);
    ContainsMiddle(IntroCreate, number, IntroEnglish + kind + IntroAbout);
    assert IntroHead(exerciseType, count) == (IntroCreate + number + IntroEnglish) + kind + IntroAbout;
    ContainsMiddle(IntroCreate + number + IntroEnglish, kind, IntroAbout);
  }

  /**
   * The opening line states the count, the type with its first `_` turned
   * into a space, and the level.
   */
  lemma PromptOpensWithRequest(topic: string, level: string, exerciseType: string, count: int)
    ensures Contains(Prompt(topic, level, exerciseType, count), IntToString(count))
    ensures Contains(Prompt(topic, level, exerciseType, count), ReplaceFirstChar(exerciseType, '_', ' '))
    ensures Contains(Prompt(topic, level, exerciseType, count), IntroTail(level))
  {
    var head := IntroHead(exerciseType, count);
    PromptHasOpeningLine(topic, level, exerciseType, count);
    ContainsEnds(Prompt(topic, level, exerciseType, count), head, Quoted(topic), IntroTail(level));
    IntroHeadStates(exerciseType, count);
    ContainsTransitive(Prompt(topic, level, exerciseType, count), head, IntToString(count));
    ContainsTransitive(Prompt(topic, level, exerciseType, count), head, ReplaceFirstChar(exerciseType, '_', ' '));
  }

  lemma PromptNamesType(topic: string, level: string, exerciseType: string, count: int)
    ensures Contains(Prompt(topic, level, exerciseType, count), TypeField(exerciseType))
  {
    TypeLineAt(level, exerciseType);
    JoinHoldsSecond(RequestBlock(topic, level, exerciseType, count), ShapeBlock(level, exerciseType), "\n", 5);
    ContainsPiece(Prompt(topic, level, exerciseType, count), "    ", TypeField(exerciseType), ",");
  }

  lemma PromptNamesLevel(topic: string, level: string, exerciseType: string, count: int)
    ensures Contains(Prompt(topic, level, exerciseType, count), LevelField(level))
  {
    LevelLineAt(level, exerciseType);
    JoinHoldsSecond(RequestBlock(topic, level, exerciseType, count), ShapeBlock(level, exerciseType), "\n", 9);
    ContainsSuffixPiece(Prompt(topic, level, exerciseType, count), "    ", LevelField(level));
  }

  lemma PromptAsksForOptions(topic: string, level: string, exerciseType: string, count: int)
    requires exerciseType == MultipleChoice
    ensures Contains(Prompt(topic, level, exerciseType, count), OptionsField)
  {
    OptionsLineAt(level, exerciseType);
    JoinHoldsSecond(RequestBlock(topic, level, exerciseType, count), ShapeBlock(level, exerciseType), "\n", 6);
    assert OptionsLine(exerciseType) == "    " + OptionsField;
    ContainsSuffixPiece(Prompt(topic, level, exerciseType, count), "    ", OptionsField);
  }

  /** The completion request the handler sends. */
  function CompletionCall(topic: string, level: string, exerciseType: string, count: int): (c: CompletionRequest)
    ensures c.model == ChatModel && c.system == SystemMessage
    ensures c.temperature == 0.7 && c.maxTokens == 1000
    ensures c.prompt == Prompt(topic, level, exerciseType, count)
  {
    CompletionRequest(ChatModel, SystemMessage, Prompt(topic, level, exerciseType, count), 0.7, 1000)
  }

  /** The per-exercise check: `question`, `correct_answer` and `explanation` are all truthy. */
  predicate IsCompleteExercise(j: Json)
  {
    Truthy(Field(j, "question")) && Truthy(Field(j, "correct_answer")) && Truthy(Field(j, "explanation"))
  }

  /** The parsed reply passes validation: an array of complete exercises. */
  predicate AreExercises(parsed: Option<Json>)
  {
    parsed.Some? && parsed.value.JArr?
    && forall k :: 0 <= k < |parsed.value.items| ==> IsCompleteExercise(parsed.value.items[k])
  }

  /** `{ success: true, exercises }`. */
  function SuccessBody(items: seq<Json>): (body: Json)
    ensures body.JObj? && body.fields.Keys == {"success", "exercises"}
    ensures body.fields["success"] == JBool(true) && body.fields["exercises"] == JArr(items)
  {
    JObj(map["success" := JBool(true), "exercises" := JArr(items)])
  }

  /**
   * The inner `try` around `JSON.parse`: any parse or validation failure
   * becomes one HTTP 500 error. `parse` is `JSON.parse`, `None` where it throws.
   */
  function Answer(parse: string -> Option<Json>, text: string): (r: Result<Json, Thrown>)
    ensures r.Success? <==> AreExercises(parse(text))
    ensures r.Success? ==> r.value == SuccessBody(parse(text).value.items)
    ensures r.Failure? ==> r.error == HttpFailure(500, ParseFailedMessage)
  {
    if AreExercises(parse(text)) then Success(SuccessBody(parse(text).value.items))
    else Failure(HttpFailure(500, ParseFailedMessage))
  }

  /** The outer `catch` for errors without a status code, in the order it tests them. */
  function Recover(e: Thrown): (r: (int, string))
    ensures e.status == Some(429) ==> r == (429, RateLimitedMessage)
    ensures e.status == Some(401) ==> r == (401, AuthFailedMessage)
    ensures e.status != Some(429) && e.status != Some(401) && e.code == Some("insufficient_quota") ==>
      r == (429, QuotaExceededMessage)
    ensures e.status != Some(429) && e.status != Some(401) && e.code != Some("insufficient_quota") ==>
      r.0 == 500 && (e.message != "" ==> r.1 == e.message) && (e.message == "" ==> r.1 == UnavailableMessage)
  {
    if e.status == Some(429) then (429, RateLimitedMessage)
    else if e.status == Some(401) then (401, AuthFailedMessage)
    else if e.code == Some("insufficient_quota") then (429, QuotaExceededMessage)
    else (500, if e.message != "" then e.message else UnavailableMessage)
  }

  /** The completion request for a request that has every required parameter. */
  function CallFor(req: ExerciseRequest): CompletionRequest
    requires HasRequired(req)
  {
    CompletionCall(req.topic.value, req.level.value, req.exerciseType.value, CountOf(req))
  }

  /** `Answer` as the handler hands it the reply text. */
  function AnswerFor(parse: string -> Option<Json>): (f: string -> Result<Json, Thrown>)
    ensures forall text :: f(text) == Answer(parse, text)
  {
    text => Answer(parse, text)
  }

  /** The handler. `apiKey` is the configured key, `complete` the completion service. */
  function Handle(req: ExerciseRequest, apiKey: Option<string>, complete: CompletionRequest -> CompletionOutcome,
                  parse: string -> Option<Json>): (h: Handled)
    ensures !HasRequired(req) ==> h == Handled(HttpError(400, MissingMessage), None)
    ensures h.sent.Some? <==> HasRequired(req) && Given(apiKey)
    ensures h.sent.Some? ==> h.sent.value == CallFor(req)
  {
    if !HasRequired(req) then Handled(HttpError(400, MissingMessage), None)
    else Run(apiKey, CallFor(req), complete, AnswerFor(parse), Recover)
  }

  /**
   * The handler succeeds exactly when the request is complete, a key is
   * configured, the service answers with text and that text parses as an
   * array of complete exercises; the body then holds that array unchanged.
   */
  lemma HandleSucceeds(req: ExerciseRequest, apiKey: Option<string>, complete: CompletionRequest -> CompletionOutcome,
                       parse: string -> Option<Json>)
    ensures var h := Handle(req, apiKey, complete, parse);
      h.result.Ok? <==>
        HasRequired(req) && Given(apiKey) && h.sent.Some?
        && ReplyText(complete(h.sent.value)).Some? && AreExercises(parse(ReplyText(complete(h.sent.value)).value))
    ensures var h := Handle(req, apiKey, complete, parse);
      h.result.Ok? ==> h.result.body == SuccessBody(parse(ReplyText(complete(h.sent.value)).value).value.items)
  {
    if HasRequired(req) {
      RunSucceeds(apiKey, CallFor(req), complete, AnswerFor(parse), Recover);
    }
  }

  /**
   * Every failure is a 400, 401, 429 or 500 the handler chose, or the
   * service's own error passed on with its status code.
   */
  lemma HandleErrorCodes(req: ExerciseRequest, apiKey: Option<string>, complete: CompletionRequest -> CompletionOutcome,
                         parse: string -> Option<Json>)
    ensures var h := Handle(req, apiKey, complete, parse);
      h.result.HttpError? ==>
        h.result.statusCode in {400, 401, 429, 500}
        || (h.sent.Some? && complete(h.sent.value).Failed? && HasStatusCode(complete(h.sent.value).error)
            && h.result == HttpError(complete(h.sent.value).error.statusCode.value, complete(h.sent.value).error.message))
  {
    if HasRequired(req) {
      RunFails(apiKey, CallFor(req), complete, AnswerFor(parse), Recover);
    }
  }

  /** A rate-limit or quota error from the service reaches the client as HTTP 429. */
  lemma QuotaErrorsAre429(req: ExerciseRequest, apiKey: Option<string>, complete: CompletionRequest -> CompletionOutcome,
                          parse: string -> Option<Json>)
    requires HasRequired(req) && Given(apiKey)
    requires var call := CallFor(req);
      complete(call).Failed? && !HasStatusCode(complete(call).error)
      && (complete(call).error.status == Some(429)
          || (complete(call).error.status != Some(401) && complete(call).error.code == Some("insufficient_quota")))
    ensures Handle(req, apiKey, complete, parse).result.HttpError?
    ensures Handle(req, apiKey, complete, parse).result.statusCode == 429
  {
    RunFails(apiKey, CallFor(req), complete, AnswerFor(parse), Recover);
  }
}
