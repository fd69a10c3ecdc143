/**
 * `POST /api/ai/generate-feedback`: asks the completion service for
 * feedback on a finished lesson, and falls back to the raw reply text with
 * fixed advice when the reply is not the expected JSON object.
 */
module GenerateFeedback {

  import opened Wrappers
  import opened Json
  import opened Text
  import opened Numbers
  import opened Completion

  /** The `userProgress` object of the request. */
  datatype FeedbackProgress = FeedbackProgress(
    completedExercises: int,
    totalExercises: int,
    averageScore: int,
    weakAreas: seq<string>,
    strongAreas: seq<string>)

  /** The request body. */
  datatype FeedbackRequest = FeedbackRequest(
    lessonTopic: Option<string>,
    userProgress: Option<FeedbackProgress>,
    userLevel: Option<string>)

  const MissingMessage: string := "Missing required parameters"
  const FailedMessage: string := "Failed to generate feedback"

  const SystemMessage: string :=
    "You are an encouraging and insightful English language teacher. Provide personalized, constructive feedback that motivates students and gives them clear direction for improvement. Always be positive while being honest about areas for growth."

  /** The fallback body's fixed texts. */
  const FallbackMotivation: string :=
    "Great work on completing this lesson! Keep practicing to improve your English skills."
  const FallbackNextSteps: seq<string> := ["Continue practicing with similar exercises", "Review any challenging concepts"]
  const FallbackTopics: seq<string> := ["Grammar fundamentals", "Vocabulary building"]
  const FallbackTips: seq<string> := ["Practice regularly", "Review mistakes to learn from them"]

  /** `lessonTopic` and `userLevel` are truthy and `userProgress` is present (an object is always truthy). */
  predicate HasRequired(req: FeedbackRequest)
  {
    Given(req.lessonTopic) && req.userProgress.Some? && Given(req.userLevel)
  }

  /**
   * `Math.round((completed / total) * 100)`, `None` where the division by
   * zero makes it `NaN` or an infinity. `Math.round` rounds halves upwards.
   */
  function CompletionRate(completed: int, total: int): (r: Option<int>)
    ensures r.Some? <==> total != 0
    ensures total > 0 ==> 2 * total * r.value <= 200 * completed + total < 2 * total * (r.value + 1)
    ensures total < 0 ==> -2 * total * r.value <= -200 * completed - total < -2 * total * (r.value + 1)
  {
    if total > 0 then Some(RoundDiv(100 * completed, total))
    else if total < 0 then Some(RoundDiv(-100 * completed, -total))
    else None
  }

  /** The rate as the template prints it: a zero total prints `NaN`, `Infinity` or `-Infinity`. */
  function RateText(completed: int, total: int): (r: string)
    ensures total != 0 ==> r == IntToString(CompletionRate(completed, total).value)
    ensures total == 0 && completed == 0 ==> r == "NaN"
    ensures total == 0 && completed > 0 ==> r == "Infinity"
    ensures total == 0 && completed < 0 ==> r == "-Infinity"
  {
    match CompletionRate(completed, total)
    case Some(rate) => IntToString(rate)
    case None => if completed == 0 then "NaN" else if completed > 0 then "Infinity" else "-Infinity"
  }

  /** A lesson with no more completed exercises than exercises has a rate between 0 and 100. */
  lemma RateWithinBounds(completed: int, total: int)
    requires 0 <= completed <= total && total > 0
    ensures 0 <= CompletionRate(completed, total).value <= 100
  {
    RoundDivBounds(100 * completed, total, 0, 100);
  }

  /** Every exercise completed is a rate of exactly 100, none completed exactly 0. */
  lemma RateOfWholeLesson(total: int)
    requires total > 0
    ensures CompletionRate(total, total) == Some(100)
    ensures CompletionRate(0, total) == Some(0)
  {
    RoundDivExact(100, total);
    RoundDivExact(0, total);
  }

  const NoAreas: string := "None identified yet"

  /** An area list as the template prints it. */
  function AreasText(areas: seq<string>): string
  {
    if |areas| > 0 then Join(areas, ", ") else NoAreas
  }

  /** Every area of a non-empty list is printed. */
  lemma AreasListed(areas: seq<string>, k: nat)
    requires k < |areas|
    ensures Contains(AreasText(areas), areas[k])
  {
    JoinHolds(areas, ", ", k);
  }

  /** The fixed lines of `createFeedbackPrompt`'s template. */
  const Opening: string := "Generate personalized feedback for an English language student:"
  const LevelLabel: string := "Student Level: "
  const TopicLabel: string := "Lesson Topic: "
  const StatsHeading: string := "Progress Statistics:"
  const CompletedLabel: string := "- Completed: "
  const ScoreLabel: string := "- Average Score: "
  const StrongLabel: string := "- Strong Areas: "
  const WeakLabel: string := "- Weak Areas: "
  const AskHeading: string := "Please provide personalized feedback that:"
  const AskProgress: string := "1. Acknowledges their progress and effort"
  const AskStrengths: string := "2. Highlights their strengths"
  const AskImprovement: string := "3. Addresses areas for improvement constructively"
  const AskSteps: string := "4. Provides specific next steps"
  const AskTopics: string := "5. Recommends related topics to study"
  const AskTips: string := "6. Gives practical study tips"
  const ShapeHeading: string := "Return your response as a JSON object with this structure:"
  const ShapeMotivation: string :=
    "  \"motivationalMessage\": \"Encouraging message about their progress (1-2 sentences)\","
  const ShapeFeedback: string :=
    "  \"specificFeedback\": \"Detailed feedback about their performance on this lesson (2-3 sentences)\","
  const ShapeSteps: string := "  \"nextSteps\": [\"Specific action 1\", \"Specific action 2\", \"Specific action 3\"],"
  const ShapeTopics: string :=
    "  \"recommendedTopics\": [\"Related topic 1\", \"Related topic 2\", \"Related topic 3\"],"
  const ShapeTips: string := "  \"studyTips\": [\"Study tip 1\", \"Study tip 2\", \"Study tip 3\"]"
  const Closing: string :=
    "Keep the tone encouraging and constructive. Focus on growth and improvement rather than just pointing out mistakes."

  /** The statistics line: the counts and the rounded completion rate. */
  function CompletedLine(completed: int, total: int): string
  {
    CompletedLabel + IntToString(completed) + "/" + IntToString(total) + " exercises (" + RateText(completed, total) + "%)"
  }

  /** The template's opening: level, topic and the progress statistics. */
  function StatsBlock(lessonTopic: string, p: FeedbackProgress, userLevel: string): seq<string>
  {
    [ Opening,
      "",
      LevelLabel + userLevel,
      TopicLabel + Quoted(lessonTopic),
      StatsHeading,
      CompletedLine(p.completedExercises, p.totalExercises),
      ScoreLabel + IntToString(p.averageScore) + "%",
      StrongLabel + AreasText(p.strongAreas),
      WeakLabel + AreasText(p.weakAreas),
      "" ]
  }

  /** The template's numbered requests and the JSON object to return. */
  const RequestBlock: seq<string> :=
    [ AskHeading, AskProgress, AskStrengths, AskImprovement, AskSteps, AskTopics, AskTips,
      "",
      ShapeHeading,
      "{",
      ShapeMotivation,
      ShapeFeedback,
      ShapeSteps,
      ShapeTopics,
      ShapeTips,
      "}",
      "",
      Closing ]

  /** `createFeedbackPrompt(lessonTopic, userProgress, userLevel)`. */
  function Prompt(lessonTopic: string, p: FeedbackProgress, userLevel: string): string
  {
    Join(StatsBlock(lessonTopic, p, userLevel) + RequestBlock, "\n")
  }

  /** Where the topic, statistics and area lines stand in the opening. */
  lemma TopicLineAt(lessonTopic: string, p: FeedbackProgress, userLevel: string)
    ensures var lines := StatsBlock(lessonTopic, p, userLevel);
      |lines| == 10 && lines[3] == TopicLabel + Quoted(lessonTopic)
  {
  }

  lemma CompletedLineAt(lessonTopic: string, p: FeedbackProgress, userLevel: string)
    ensures var lines := StatsBlock(lessonTopic, p, userLevel);
      |lines| == 10 && lines[5] == CompletedLine(p.completedExercises, p.totalExercises)
  {
  }

  lemma AreaLinesAt(lessonTopic: string, p: FeedbackProgress, userLevel: string)
    ensures var lines := StatsBlock(lessonTopic, p, userLevel);
      |lines| == 10 && lines[7] == StrongLabel + AreasText(p.strongAreas) && lines[8] == WeakLabel + AreasText(p.weakAreas)
  {
  }

  /** The prompt quotes the lesson topic. */
  lemma PromptQuotesTopic(lessonTopic: string, p: FeedbackProgress, userLevel: string)
    ensures Contains(Prompt(lessonTopic, p, userLevel), Quoted(lessonTopic))
  {
    TopicLineAt(lessonTopic, p, userLevel);
    JoinHoldsFirst(StatsBlock(lessonTopic, p, userLevel), RequestBlock, "\n", 3);
    ContainsSuffixPiece(Prompt(lessonTopic, p, userLevel), TopicLabel, Quoted(lessonTopic));
  }

  /** The prompt states the counts and the completion rate. */
  lemma PromptStatesProgress(lessonTopic: string, p: FeedbackProgress, userLevel: string)
    ensures Contains(Prompt(lessonTopic, p, userLevel), CompletedLine(p.completedExercises, p.totalExercises))
  {
    CompletedLineAt(lessonTopic, p, userLevel);
    JoinHoldsFirst(StatsBlock(lessonTopic, p, userLevel), RequestBlock, "\n", 5);
  }

  /** Every strong and every weak area the request names is in the prompt. */
  lemma PromptListsAreas(lessonTopic: string, p: FeedbackProgress, userLevel: string, k: nat)
    ensures k < |p.strongAreas| ==> Contains(Prompt(lessonTopic, p, userLevel), p.strongAreas[k])
    ensures k < |p.weakAreas| ==> Contains(Prompt(lessonTopic, p, userLevel), p.weakAreas[k])
  {
    var prompt := Prompt(lessonTopic, p, userLevel);
    AreaLinesAt(lessonTopic, p, userLevel);
    if k < |p.strongAreas| {
      JoinHoldsFirst(StatsBlock(lessonTopic, p, userLevel), RequestBlock, "\n", 7);
      ContainsSuffixPiece(prompt, StrongLabel, AreasText(p.strongAreas));
      AreasListed(p.strongAreas, k);
      ContainsTransitive(prompt, AreasText(p.strongAreas), p.strongAreas[k]);
    }
    if k < |p.weakAreas| {
      JoinHoldsFirst(StatsBlock(lessonTopic, p, userLevel), RequestBlock, "\n", 8);
      ContainsSuffixPiece(prompt, WeakLabel, AreasText(p.weakAreas));
      AreasListed(p.weakAreas, k);
      ContainsTransitive(prompt, AreasText(p.weakAreas), p.weakAreas[k]);
    }
  }

  /** The completion request the handler sends. */
  function CompletionCall(lessonTopic: string, p: FeedbackProgress, userLevel: string): (c: CompletionRequest)
    ensures c.model == ChatModel && c.system == SystemMessage
    ensures c.temperature == 0.7 && c.maxTokens == 1000
    ensures c.prompt == Prompt(lessonTopic, p, userLevel)
  {
    CompletionRequest(ChatModel, SystemMessage, Prompt(lessonTopic, p, userLevel), 0.7, 1000)
  }

  /** The parsed reply passes validation: a truthy `motivationalMessage` and `specificFeedback`. */
  predicate IsFeedback(parsed: Option<Json>)
  {
    parsed.Some? && Truthy(Field(parsed.value, "motivationalMessage")) && Truthy(Field(parsed.value, "specificFeedback"))
  }

  /** The fallback body: the raw reply as the specific feedback, with fixed advice. */
  function FallbackBody(text: string): (body: Json)
    ensures Field(body, "success") == Some(JBool(true))
    ensures Field(body, "motivationalMessage") == Some(JStr(FallbackMotivation))
    ensures Field(body, "specificFeedback") == Some(JStr(text))
    ensures Field(body, "nextSteps") == Some(Strings(FallbackNextSteps))
    ensures Field(body, "recommendedTopics") == Some(Strings(FallbackTopics))
    ensures Field(body, "studyTips") == Some(Strings(FallbackTips))
  {
    JObj(map["success" := JBool(true), "motivationalMessage" := JStr(FallbackMotivation),
             "specificFeedback" := JStr(text), "nextSteps" := Strings(FallbackNextSteps),
             "recommendedTopics" := Strings(FallbackTopics), "studyTips" := Strings(FallbackTips)])
  }

  /**
   * The inner `try`: a valid reply object is spread into the body, and a
   * reply that does not parse or fails validation falls back. A valid
   * reply is always an object, since only an object has the two keys.
   */
  function Answer(parse: string -> Option<Json>, text: string): (r: Result<Json, Thrown>)
    ensures r.Success?
    ensures IsFeedback(parse(text)) ==> parse(text).value.JObj? && r.value == SuccessSpread(parse(text).value.fields)
    ensures !IsFeedback(parse(text)) ==> r.value == FallbackBody(text)
  {
    if IsFeedback(parse(text)) then Success(SuccessSpread(parse(text).value.fields))
    else Success(FallbackBody(text))
  }

  /** The outer `catch` for errors without a status code: 500 with the error's message, or a default. */
  function Recover(e: Thrown): (r: (int, string))
    ensures r.0 == 500
    ensures e.message != "" ==> r.1 == e.message
    ensures e.message == "" ==> r.1 == FailedMessage
  {
    (500, if e.message != "" then e.message else FailedMessage)
  }

  /** The completion request for a request that has every required parameter. */
  function CallFor(req: FeedbackRequest): CompletionRequest
    requires HasRequired(req)
  {
    CompletionCall(req.lessonTopic.value, req.userProgress.value, req.userLevel.value)
  }

  /** `Answer` as the handler hands it the reply text. */
  function AnswerFor(parse: string -> Option<Json>): (f: string -> Result<Json, Thrown>)
    ensures forall text :: f(text) == Answer(parse, text)
  {
    text => Answer(parse, text)
  }

  /** The handler. */
  function Handle(req: FeedbackRequest, apiKey: Option<string>, complete: CompletionRequest -> CompletionOutcome,
                  parse: string -> Option<Json>): (h: Handled)
    ensures !HasRequired(req) ==> h == Handled(HttpError(400, MissingMessage), None)
    ensures h.sent.Some? <==> HasRequired(req) && Given(apiKey)
    ensures h.sent.Some? ==> h.sent.value == CallFor(req)
  {
    if !HasRequired(req) then Handled(HttpError(400, MissingMessage), None)
    else Run(apiKey, CallFor(req), complete, AnswerFor(parse), Recover)
  }

  /**
   * Once the service answers with text, the handler always succeeds: with
   * the reply's own object when it is valid, and otherwise with the fallback
   * that carries the reply text.
   */
  lemma AnsweredMeansSuccess(req: FeedbackRequest, apiKey: Option<string>, complete: CompletionRequest -> CompletionOutcome,
                             parse: string -> Option<Json>)
    requires HasRequired(req) && Given(apiKey) && ReplyText(complete(CallFor(req))).Some?
    ensures var h := Handle(req, apiKey, complete, parse);
      var text := ReplyText(complete(CallFor(req))).value;
      h.result.Ok?
      && (IsFeedback(parse(text)) ==> h.result.body == SuccessSpread(parse(text).value.fields))
      && (!IsFeedback(parse(text)) ==> h.result.body == FallbackBody(text))
  {
    RunSucceeds(apiKey, CallFor(req), complete, AnswerFor(parse), Recover);
  }

  /** Every failure is a 400 or a 500 the handler chose, or the service's own error passed on. */
  lemma HandleErrorCodes(req: FeedbackRequest, apiKey: Option<string>, complete: CompletionRequest -> CompletionOutcome,
                         parse: string -> Option<Json>)
    ensures var h := Handle(req, apiKey, complete, parse);
      h.result.HttpError? ==>
        h.result.statusCode == 400 || h.result.statusCode == 500
        || (h.sent.Some? && complete(h.sent.value).Failed? && HasStatusCode(complete(h.sent.value).error)
            && h.result == HttpError(complete(h.sent.value).error.statusCode.value, complete(h.sent.value).error.message))
  {
    if HasRequired(req) {
      RunFails(apiKey, CallFor(req), complete, AnswerFor(parse), Recover);
    }
  }
}
