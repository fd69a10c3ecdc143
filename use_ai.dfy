/**
 * The `useAI` composable: the client side of the three AI endpoints. It
 * posts a request, reads the body the server sent back, picks the notice it
 * shows when generating exercises fails, and builds its own fallback
 * explanation and feedback when the server cannot help.
 *
 * A server reply reaches the client through `$fetch`: a 2xx body resolves,
 * any other status rejects with an error carrying that status code.
 */
module UseAi {

  import opened Wrappers
  import opened Json
  import opened Text
  import opened Completion
  import Numbers
  import GenerateExercise
  import ExplainAnswer
  import GenerateFeedback

  /** An error as the client's catch blocks inspect it. */
  datatype ClientError = ClientError(statusCode: Option<int>, message: string)

  /** What `$fetch` gives the caller: the response body, or a rejection. */
  datatype FetchReply = Body(body: Json) | Rejected(error: ClientError)

  /**
   * What the client receives for a server result. `describe` is the text
   * the fetch client makes of a failed response's status and message.
   */
  function Delivered(result: HttpResult, describe: (int, string) -> string): (r: FetchReply)
    ensures result.Ok? ==> r == Body(result.body)
    ensures result.HttpError? ==>
      r == Rejected(ClientError(Some(result.statusCode), describe(result.statusCode, result.statusMessage)))
  {
    match result
    case Ok(body) => Body(body)
    case HttpError(code, message) => Rejected(ClientError(Some(code), describe(code, message)))
  }

  /** The `TypeError` thrown by reading `property` of `undefined` or of `null`. */
  function CannotRead(ofNull: bool, property: string): ClientError
  {
    ClientError(None, "Cannot read properties of " + (if ofNull then "null" else "undefined") + " (reading '" + property + "')")
  }

  /** The notices `generateExercises` shows. */
  datatype Notice =
    | ExercisesCreated(count: Option<int>)
    | QuotaExceeded
    | ConfigurationError
    | ServiceUnavailable

  /** The title and text of each notice; a count that is not a number prints `undefined`. */
  function NoticeText(n: Notice): (string, string)
  {
    match n
    case ExercisesCreated(count) =>
      ("Exercises Generated!",
       "Created " + (if count.Some? then IntToString(count.value) else "undefined") + " AI-powered exercise"
       + (if count.Some? && count.value > 1 then "s" else ""))
    case QuotaExceeded => ("AI Quota Exceeded", "Please check your OpenAI billing or try again later. Basic features still work!")
    case ConfigurationError => ("AI Configuration Error", "OpenAI API key needs to be configured. Contact administrator.")
    case ServiceUnavailable => ("AI Service Unavailable", "AI features are temporarily down. Basic learning features still work!")
  }

  /** The error notice: a 429 or a message mentioning quota first, then a 401, then anything else. */
  function ErrorNotice(e: ClientError): (n: Notice)
    ensures n == QuotaExceeded <==> e.statusCode == Some(429) || Contains(e.message, "quota")
    ensures n == ConfigurationError <==> e.statusCode != Some(429) && !Contains(e.message, "quota") && e.statusCode == Some(401)
    ensures n == ServiceUnavailable <==> e.statusCode != Some(429) && !Contains(e.message, "quota") && e.statusCode != Some(401)
  {
    if e.statusCode == Some(429) || Contains(e.message, "quota") then QuotaExceeded
    else if e.statusCode == Some(401) then ConfigurationError
    else ServiceUnavailable
  }

  /** A text without a `q` does not mention quota. */
  lemma NoQuotaWithoutQ(s: string)
    requires 'q' !in s
    ensures !Contains(s, "quota")
  {
    forall i | 0 <= i <= |s| - 5 ensures !OccursAt(s, "quota", i) {
      assert s[i] != 'q';
      assert s[i..i + 5][0] == s[i];
    }
  }

  /** The errors the client raises itself never mention quota, so they read as an unavailable service. */
  lemma OwnErrorsAreUnavailable(ofNull: bool, property: string)
    requires 'q' !in property
    ensures ErrorNotice(CannotRead(ofNull, property)) == ServiceUnavailable
    ensures ErrorNotice(ClientError(None, "Failed to generate exercises")) == ServiceUnavailable
  {
    var kind := if ofNull then "null" else "undefined";
    var m := "Cannot read properties of " + kind + " (reading '" + property + "')";
    assert 'q' !in "Cannot read properties of " && 'q' !in kind && 'q' !in " (reading '" && 'q' !in "')";
    assert 'q' !in m;
    NoQuotaWithoutQ(m);
    NoQuotaWithoutQ("Failed to generate exercises");
  }

  /** The outcome of `generateExercises`: the exercises or the error it rethrows, and its notice. */
  datatype Generated = Generated(result: Result<Json, ClientError>, notice: Notice)

  /** The request body `generateExercises` posts; `count` defaults to 1. */
  function ExerciseBody(topic: string, level: string, exerciseType: string, count: Option<int>): (req: GenerateExercise.ExerciseRequest)
    ensures req.topic == Some(topic) && req.level == Some(level) && req.exerciseType == Some(exerciseType)
    ensures req.count == Some(count.GetOr(1))
  {
    GenerateExercise.ExerciseRequest(Some(topic), Some(level), Some(exerciseType), Some(count.GetOr(1)))
  }

  /** `x.length` as the success notice reads it: arrays and strings have one. */
  function LengthOf(j: Json): Option<int>
  {
    match j
    case JArr(items) => Some(|items|)
    case JStr(s) => Some(|s|)
    case _ => None
  }

  /** A failure the catch block turns into a notice and rethrows. */
  function Rethrown(e: ClientError): (g: Generated)
    ensures g.result == Failure(e) && g.notice == ErrorNotice(e)
  {
    Generated(Failure(e), ErrorNotice(e))
  }

  /**
   * From the response object on: refuse an unsuccessful one and return its
   * `exercises`, reading their length for the notice.
   */
  function FromResponse(response: Json): (g: Generated)
    ensures response.JNull? ==> g == Rethrown(CannotRead(true, "success"))
    ensures !response.JNull? && !Truthy(Field(response, "success")) ==>
      g == Rethrown(ClientError(None, "Failed to generate exercises"))
    ensures !response.JNull? && Truthy(Field(response, "success")) && Field(response, "exercises").None? ==>
      g == Rethrown(CannotRead(false, "length"))
    ensures !response.JNull? && Truthy(Field(response, "success")) && Field(response, "exercises") == Some(JNull) ==>
      g == Rethrown(CannotRead(true, "length"))
    ensures g.result.Success? <==>
      !response.JNull? && Truthy(Field(response, "success")) && Field(response, "exercises").Some?
      && !Field(response, "exercises").value.JNull?
    ensures g.result.Success? ==>
      g.result.value == Field(response, "exercises").value && g.notice == ExercisesCreated(LengthOf(g.result.value))
  {
    if response.JNull? then Rethrown(CannotRead(true, "success"))
    else if !Truthy(Field(response, "success")) then Rethrown(ClientError(None, "Failed to generate exercises"))
    else
      match Field(response, "exercises")
      case None => Rethrown(CannotRead(false, "length"))
      case Some(exercises) =>
        if exercises.JNull? then Rethrown(CannotRead(true, "length"))
        else Generated(Success(exercises), ExercisesCreated(LengthOf(exercises)))
  }

  /**
   * `generateExercises` as written: it destructures `data` out of the body
   * `$fetch` resolves with, and goes on with that.
   */
  function GenerateExercisesAsWritten(reply: FetchReply): (g: Generated)
    ensures reply.Rejected? ==> g == Rethrown(reply.error)
    ensures reply.Body? && Field(reply.body, "data").None? ==> g == Rethrown(CannotRead(false, "success"))
    ensures reply.Body? && Field(reply.body, "data").Some? ==> g == FromResponse(Field(reply.body, "data").value)
  {
    match reply
    case Rejected(e) => Rethrown(e)
    case Body(body) =>
      match Field(body, "data")
      case None => Rethrown(CannotRead(false, "success"))
      case Some(data) => FromResponse(data)
  }

  /** `generateExercises` reading the body itself, as the endpoint sends it. */
  function GenerateExercises(reply: FetchReply): (g: Generated)
    ensures reply.Rejected? ==> g == Rethrown(reply.error)
    ensures reply.Body? ==> g == FromResponse(reply.body)
  {
    match reply
    case Rejected(e) => Rethrown(e)
    case Body(body) => FromResponse(body)
  }

  /** Whatever happens, a failure is rethrown unchanged, with the notice its error calls for. */
  lemma FailuresAreRethrown(reply: FetchReply)
    ensures reply.Rejected? ==>
      GenerateExercises(reply).result == Failure(reply.error) && GenerateExercises(reply).notice == ErrorNotice(reply.error)
    ensures reply.Rejected? ==> GenerateExercisesAsWritten(reply) == GenerateExercises(reply)
  {
  }

  /**
   * The endpoint's success body carries no `data` key, so as written every
   * successful generation fails on the client with an unavailable notice,
   * while reading the body itself returns the endpoint's exercises.
   */
  lemma SuccessLostAsWritten(items: seq<Json>)
    ensures GenerateExercisesAsWritten(Body(GenerateExercise.SuccessBody(items))).result.Failure?
    ensures GenerateExercisesAsWritten(Body(GenerateExercise.SuccessBody(items))).notice == ServiceUnavailable
    ensures GenerateExercises(Body(GenerateExercise.SuccessBody(items))) ==
      Generated(Success(JArr(items)), ExercisesCreated(Some(|items|)))
  {
    var body := GenerateExercise.SuccessBody(items);
    assert "data" !in body.fields;
    OwnErrorsAreUnavailable(false, "success");
  }

  /**
   * End to end: when the endpoint succeeds, the client returns exactly the
   * array of complete exercises the endpoint validated, and announces how
   * many there are.
   */
  lemma ExercisesReachClient(req: GenerateExercise.ExerciseRequest, apiKey: Option<string>,
                             complete: CompletionRequest -> CompletionOutcome, parse: string -> Option<Json>,
                             describe: (int, string) -> string)
    requires GenerateExercise.Handle(req, apiKey, complete, parse).result.Ok?
    ensures var h := GenerateExercise.Handle(req, apiKey, complete, parse);
      var g := GenerateExercises(Delivered(h.result, describe));
      g.result.Success? && g.result.value.JArr?
      && (forall k :: 0 <= k < |g.result.value.items| ==> GenerateExercise.IsCompleteExercise(g.result.value.items[k]))
      && g.notice == ExercisesCreated(Some(|g.result.value.items|))
  {
    var h := GenerateExercise.Handle(req, apiKey, complete, parse);
    GenerateExercise.HandleSucceeds(req, apiKey, complete, parse);
    var parsed := parse(ReplyText(complete(h.sent.value)).value);
    SuccessLostAsWritten(parsed.value.items);
  }

  /** End to end: a rate-limit or quota failure of the service shows the quota notice. */
  lemma QuotaReachesClient(req: GenerateExercise.ExerciseRequest, apiKey: Option<string>,
                           complete: CompletionRequest -> CompletionOutcome, parse: string -> Option<Json>,
                           describe: (int, string) -> string)
    requires GenerateExercise.HasRequired(req) && Given(apiKey)
    requires var call := GenerateExercise.CallFor(req);
      complete(call).Failed? && !HasStatusCode(complete(call).error)
      && (complete(call).error.status == Some(429)
          || (complete(call).error.status != Some(401) && complete(call).error.code == Some("insufficient_quota")))
    ensures var h := GenerateExercise.Handle(req, apiKey, complete, parse);
      GenerateExercises(Delivered(h.result, describe)).notice == QuotaExceeded
  {
    GenerateExercise.QuotaErrorsAre429(req, apiKey, complete, parse);
  }

  /** `generateVariations`: multiple-choice exercises on a topic built from the question, three by default. */
  function VariationsBody(originalQuestion: string, level: string, count: Option<int>): (req: GenerateExercise.ExerciseRequest)
    ensures req == ExerciseBody("Similar to: " + originalQuestion, level, GenerateExercise.MultipleChoice, Some(count.GetOr(3)))
  {
    ExerciseBody("Similar to: " + originalQuestion, level, GenerateExercise.MultipleChoice, Some(count.GetOr(3)))
  }

  /**
   * End to end: a variations request passes the endpoint's check whenever a
   * level is given, and the prompt it leads to asks for the `options` field.
   */
  lemma VariationsAskForOptions(originalQuestion: string, level: string, count: Option<int>)
    requires level != ""
    ensures GenerateExercise.HasRequired(VariationsBody(originalQuestion, level, count))
    ensures GenerateExercise.CountOf(VariationsBody(originalQuestion, level, count)) == count.GetOr(3)
    ensures var req := VariationsBody(originalQuestion, level, count);
      Contains(GenerateExercise.CallFor(req).prompt, GenerateExercise.OptionsField)
  {
    var req := VariationsBody(originalQuestion, level, count);
    assert req.topic.value == "Similar to: " + originalQuestion;
    GenerateExercise.PromptAsksForOptions(req.topic.value, level, GenerateExercise.MultipleChoice, count.GetOr(3));
  }

  /** What `explainAnswer` returns; `undefined` properties of the body are `None`. */
  datatype Explanation = Explanation(explanation: Option<Json>, isCorrect: Option<Json>, tips: Json, relatedConcepts: Json)

  /** `value || fallback`. */
  function OrElse(value: Option<Json>, fallback: Json): (r: Json)
    ensures Truthy(value) ==> r == value.value
    ensures !Truthy(value) ==> r == fallback
  {
    if Truthy(value) then value.value else fallback
  }

  const CorrectText: string := "Correct! Well done."
  const AnswerWas: string := "The correct answer is "
  const KeepPracticing: string := ". Keep practicing!"

  /** The client's own explanation: the same comparison the endpoint makes, with no tips. */
  function FallbackExplanation(userAnswer: string, correctAnswer: string): (e: Explanation)
    ensures e.isCorrect == Some(JBool(AnswersMatch(userAnswer, correctAnswer)))
    ensures AnswersMatch(userAnswer, correctAnswer) ==> e.explanation == Some(JStr(CorrectText))
    ensures !AnswersMatch(userAnswer, correctAnswer) ==>
      e.explanation == Some(JStr(AnswerWas + Quoted(correctAnswer) + KeepPracticing))
    ensures e.tips == JArr([]) && e.relatedConcepts == JArr([])
  {
    var isCorrect := AnswersMatch(userAnswer, correctAnswer);
    Explanation(
      Some(JStr(if isCorrect then CorrectText else AnswerWas + Quoted(correctAnswer) + KeepPracticing)),
      Some(JBool(isCorrect)), JArr([]), JArr([]))
  }

  /**
   * `explainAnswer`: the body's fields when it reports success, with empty
   * lists for missing tips and concepts; any failure falls back.
   */
  function ExplainAnswerReply(userAnswer: string, correctAnswer: string, reply: FetchReply): (e: Explanation)
    ensures reply.Body? && Truthy(Field(reply.body, "success")) ==>
      e == Explanation(Field(reply.body, "explanation"), Field(reply.body, "isCorrect"),
        OrElse(Field(reply.body, "tips"), JArr([])), OrElse(Field(reply.body, "relatedConcepts"), JArr([])))
    ensures !(reply.Body? && Truthy(Field(reply.body, "success"))) ==> e == FallbackExplanation(userAnswer, correctAnswer)
  {
    if reply.Body? && Truthy(Field(reply.body, "success")) then
      Explanation(Field(reply.body, "explanation"), Field(reply.body, "isCorrect"),
        OrElse(Field(reply.body, "tips"), JArr([])), OrElse(Field(reply.body, "relatedConcepts"), JArr([])))
    else FallbackExplanation(userAnswer, correctAnswer)
  }

  /**
   * The request body `explainAnswer` posts: all six arguments. The endpoint
   * accepts it exactly when none of the five strings is empty.
   */
  function ExplainBody(question: string, userAnswer: string, correctAnswer: string, exerciseType: string, level: string,
                       options: Option<seq<string>>): (req: ExplainAnswer.ExplainRequest)
    ensures req == ExplainAnswer.ExplainRequest(Some(question), Some(userAnswer), Some(correctAnswer), Some(exerciseType),
      Some(level), options)
    ensures ExplainAnswer.HasRequired(req) <==>
      question != "" && userAnswer != "" && correctAnswer != "" && exerciseType != "" && level != ""
  {
    ExplainAnswer.ExplainRequest(Some(question), Some(userAnswer), Some(correctAnswer), Some(exerciseType), Some(level), options)
  }

  /** The endpoint accepted the request, holds a key and the service answered it with text. */
  predicate ExplainAnswered(req: ExplainAnswer.ExplainRequest, apiKey: Option<string>,
                            complete: CompletionRequest -> CompletionOutcome)
  {
    ExplainAnswer.HasRequired(req) && Given(apiKey) && ReplyText(complete(ExplainAnswer.CallFor(req))).Some?
  }

  /**
   * End to end, the verdict the student sees when the service did not
   * answer: the client's own fallback, whatever went wrong on the way.
   */
  lemma StudentVerdictUnanswered(question: string, userAnswer: string, correctAnswer: string, exerciseType: string,
                                 level: string, options: Option<seq<string>>, apiKey: Option<string>,
                                 complete: CompletionRequest -> CompletionOutcome, parse: string -> Option<Json>,
                                 describe: (int, string) -> string)
    requires !ExplainAnswered(ExplainBody(question, userAnswer, correctAnswer, exerciseType, level, options), apiKey, complete)
    ensures var req := ExplainBody(question, userAnswer, correctAnswer, exerciseType, level, options);
      ExplainAnswerReply(userAnswer, correctAnswer, Delivered(ExplainAnswer.Handle(req, apiKey, complete, parse).result, describe))
        == FallbackExplanation(userAnswer, correctAnswer)
  {
    var req := ExplainBody(question, userAnswer, correctAnswer, exerciseType, level, options);
    if ExplainAnswer.HasRequired(req) {
      RunSucceeds(apiKey, ExplainAnswer.CallFor(req), complete,
        ExplainAnswer.AnswerFor(parse, userAnswer, correctAnswer), ExplainAnswer.Recover);
    }
  }

  /**
   * End to end, the verdict the student sees once the service answered.
   * Unless the reply parses as an explanation the endpoint spreads into a
   * successful body, it is the endpoint's trimmed, case-blind comparison
   * of the two answers, or the client's own; otherwise it is the service's.
   */
  lemma StudentVerdictAnswered(question: string, userAnswer: string, correctAnswer: string, exerciseType: string,
                               level: string, options: Option<seq<string>>, apiKey: Option<string>,
                               complete: CompletionRequest -> CompletionOutcome, parse: string -> Option<Json>,
                               describe: (int, string) -> string)
    requires ExplainAnswered(ExplainBody(question, userAnswer, correctAnswer, exerciseType, level, options), apiKey, complete)
    ensures var req := ExplainBody(question, userAnswer, correctAnswer, exerciseType, level, options);
      var e := ExplainAnswerReply(userAnswer, correctAnswer,
        Delivered(ExplainAnswer.Handle(req, apiKey, complete, parse).result, describe));
      var parsed := parse(ReplyText(complete(ExplainAnswer.CallFor(req))).value);
      if ExplainAnswer.IsExplanation(parsed) && (Field(parsed.value, "success").None? || Truthy(Field(parsed.value, "success")))
      then e.isCorrect == Field(parsed.value, "isCorrect")
      else e.isCorrect == Some(JBool(AnswersMatch(userAnswer, correctAnswer)))
  {
    var req := ExplainBody(question, userAnswer, correctAnswer, exerciseType, level, options);
    var answer := ExplainAnswer.AnswerFor(parse, userAnswer, correctAnswer);
    RunSucceeds(apiKey, ExplainAnswer.CallFor(req), complete, answer, ExplainAnswer.Recover);
    var text := ReplyText(complete(ExplainAnswer.CallFor(req))).value;
    var parsed := parse(text);
    var isCorrect := AnswersMatch(userAnswer, correctAnswer);
    if !ExplainAnswer.IsExplanation(parsed) {
      FallbackVerdict(userAnswer, correctAnswer, parse, text, isCorrect);
    } else if Field(parsed.value, "success").None? || Truthy(Field(parsed.value, "success")) {
      SpreadVerdict(userAnswer, correctAnswer, parse, text);
    } else {
      SpreadRefusedVerdict(userAnswer, correctAnswer, parse, text, isCorrect);
    }
  }

  /** A reply that is no explanation reaches the client with the endpoint's verdict. */
  lemma FallbackVerdict(userAnswer: string, correctAnswer: string, parse: string -> Option<Json>, text: string,
                        isCorrect: bool)
    requires isCorrect == AnswersMatch(userAnswer, correctAnswer)
    requires !ExplainAnswer.IsExplanation(parse(text))
    ensures ExplainAnswerReply(userAnswer, correctAnswer,
      Body(ExplainAnswer.Answer(parse, text, userAnswer, correctAnswer).value)).isCorrect == Some(JBool(isCorrect))
  {
    ServerVerdictReachesClient(userAnswer, correctAnswer, text, isCorrect);
  }

  /** An explanation spread into a successful body reaches the client with the service's verdict. */
  lemma SpreadVerdict(userAnswer: string, correctAnswer: string, parse: string -> Option<Json>, text: string)
    requires ExplainAnswer.IsExplanation(parse(text))
    requires Field(parse(text).value, "success").None? || Truthy(Field(parse(text).value, "success"))
    ensures ExplainAnswerReply(userAnswer, correctAnswer,
      Body(ExplainAnswer.Answer(parse, text, userAnswer, correctAnswer).value)).isCorrect
      == Field(parse(text).value, "isCorrect")
  {
    SuccessSpreadFields(parse(text).value.fields);
  }

  /**
   * An explanation carrying a falsy `success` of its own overrides the
   * body's `success`, so the client ignores it and judges the answer itself.
   */
  lemma SpreadRefusedVerdict(userAnswer: string, correctAnswer: string, parse: string -> Option<Json>, text: string,
                             isCorrect: bool)
    requires isCorrect == AnswersMatch(userAnswer, correctAnswer)
    requires ExplainAnswer.IsExplanation(parse(text))
    requires !(Field(parse(text).value, "success").None? || Truthy(Field(parse(text).value, "success")))
    ensures ExplainAnswerReply(userAnswer, correctAnswer,
      Body(ExplainAnswer.Answer(parse, text, userAnswer, correctAnswer).value)).isCorrect == Some(JBool(isCorrect))
  {
    SuccessSpreadFields(parse(text).value.fields);
  }

  /**
   * An empty answer is refused with a 400 before the service is asked, and
   * the client judges it itself against the correct answer.
   */
  lemma EmptyAnswerJudgedByClient(question: string, correctAnswer: string, exerciseType: string, level: string,
                                  options: Option<seq<string>>, apiKey: Option<string>,
                                  complete: CompletionRequest -> CompletionOutcome, parse: string -> Option<Json>,
                                  describe: (int, string) -> string)
    ensures var h := ExplainAnswer.Handle(ExplainBody(question, "", correctAnswer, exerciseType, level, options),
      apiKey, complete, parse);
      h == Handled(HttpError(400, ExplainAnswer.MissingMessage), None)
      && ExplainAnswerReply("", correctAnswer, Delivered(h.result, describe)).isCorrect
        == Some(JBool(AnswersMatch("", correctAnswer)))
  {
    var h := ExplainAnswer.Handle(ExplainBody(question, "", correctAnswer, exerciseType, level, options),
      apiKey, complete, parse);
    ClientVerdictOnFailure("", correctAnswer, h.result, describe);
  }

  /**
   * End to end: when the endpoint falls back, the verdict the student sees
   * is the endpoint's own trimmed, case-blind comparison.
   */
  lemma ServerVerdictReachesClient(userAnswer: string, correctAnswer: string, text: string, isCorrect: bool)
    ensures ExplainAnswerReply(userAnswer, correctAnswer, Body(ExplainAnswer.FallbackBody(text, isCorrect))).isCorrect
      == Some(JBool(isCorrect))
  {
    var body := ExplainAnswer.FallbackBody(text, isCorrect);
    assert Truthy(Field(body, "success"));
  }

  /** When the endpoint fails, the client makes that same comparison itself. */
  lemma ClientVerdictOnFailure(userAnswer: string, correctAnswer: string, failure: HttpResult,
                               describe: (int, string) -> string)
    requires failure.HttpError?
    ensures ExplainAnswerReply(userAnswer, correctAnswer, Delivered(failure, describe)).isCorrect
      == Some(JBool(AnswersMatch(userAnswer, correctAnswer)))
  {
  }

  /** What `generateFeedback` returns. */
  datatype Feedback = Feedback(motivationalMessage: Option<Json>, specificFeedback: Option<Json>,
                               nextSteps: Json, recommendedTopics: Json, studyTips: Json)

  const FallbackSteps: seq<string> := ["Continue with the next lesson", "Review challenging concepts", "Practice regularly"]
  const FallbackTopics: seq<string> := ["Grammar fundamentals", "Vocabulary building"]
  const FallbackTips: seq<string> := ["Set aside time for daily practice", "Review your mistakes to learn from them"]

  const CompletedLead: string := "Great work! You've completed "
  const OfLesson: string := "% of this lesson."
  const ProgressLead: string := "You're making good progress on "
  const ProgressTail: string := ". Keep practicing to improve your skills."

  /** The client's own feedback: the completion rate, the topic and fixed advice. */
  function FallbackFeedback(lessonTopic: string, p: GenerateFeedback.FeedbackProgress): (f: Feedback)
    ensures f.motivationalMessage == Some(JStr(CompletedLead
      + GenerateFeedback.RateText(p.completedExercises, p.totalExercises) + OfLesson))
    ensures f.specificFeedback == Some(JStr(ProgressLead + lessonTopic + ProgressTail))
    ensures f.nextSteps == Strings(FallbackSteps) && f.recommendedTopics == Strings(FallbackTopics)
    ensures f.studyTips == Strings(FallbackTips)
  {
    var rate := GenerateFeedback.RateText(p.completedExercises, p.totalExercises);
    Feedback(Some(JStr(CompletedLead + rate + OfLesson)),
      Some(JStr(ProgressLead + lessonTopic + ProgressTail)),
      Strings(FallbackSteps), Strings(FallbackTopics), Strings(FallbackTips))
  }

  /** The fallback always offers three next steps, two topics and two study tips. */
  lemma FallbackFeedbackShape(lessonTopic: string, p: GenerateFeedback.FeedbackProgress)
    ensures var f := FallbackFeedback(lessonTopic, p);
      f.nextSteps.JArr? && |f.nextSteps.items| == 3 && f.recommendedTopics.JArr? && |f.recommendedTopics.items| == 2
      && f.studyTips.JArr? && |f.studyTips.items| == 2
  {
  }

  /** Seven of ten exercises completed reads as 70%. */
  lemma SevenOfTen(lessonTopic: string, p: GenerateFeedback.FeedbackProgress)
    requires p.completedExercises == 7 && p.totalExercises == 10
    ensures FallbackFeedback(lessonTopic, p).motivationalMessage == Some(JStr(CompletedLead + "70" + OfLesson))
  {
    Numbers.RoundDivExact(7, 10);
    assert GenerateFeedback.CompletionRate(7, 10) == Some(70);
    assert 70 / 10 == 7 && 70 % 10 == 0;
    assert DigitChar(7) == '7' && DigitChar(0) == '0';
    assert NatToString(7) == "7";
    assert NatToString(70) == NatToString(7) + [DigitChar(0)];
    assert IntToString(70) == "70";
  }

  /**
   * `generateFeedback`: the body's fields when it reports success, with
   * empty lists for missing ones; any failure falls back.
   */
  function GenerateFeedbackReply(lessonTopic: string, p: GenerateFeedback.FeedbackProgress, reply: FetchReply): (f: Feedback)
    ensures reply.Body? && Truthy(Field(reply.body, "success")) ==>
      f == Feedback(Field(reply.body, "motivationalMessage"), Field(reply.body, "specificFeedback"),
        OrElse(Field(reply.body, "nextSteps"), JArr([])), OrElse(Field(reply.body, "recommendedTopics"), JArr([])),
        OrElse(Field(reply.body, "studyTips"), JArr([])))
    ensures !(reply.Body? && Truthy(Field(reply.body, "success"))) ==> f == FallbackFeedback(lessonTopic, p)
  {
    if reply.Body? && Truthy(Field(reply.body, "success")) then
      Feedback(Field(reply.body, "motivationalMessage"), Field(reply.body, "specificFeedback"),
        OrElse(Field(reply.body, "nextSteps"), JArr([])), OrElse(Field(reply.body, "recommendedTopics"), JArr([])),
        OrElse(Field(reply.body, "studyTips"), JArr([])))
    else FallbackFeedback(lessonTopic, p)
  }

  /**
   * The request body `generateFeedback` posts: the topic, the progress and
   * the level. The endpoint accepts it exactly when neither string is empty.
   */
  function FeedbackBody(lessonTopic: string, p: GenerateFeedback.FeedbackProgress, userLevel: string): (req: GenerateFeedback.FeedbackRequest)
    ensures req == GenerateFeedback.FeedbackRequest(Some(lessonTopic), Some(p), Some(userLevel))
    ensures GenerateFeedback.HasRequired(req) <==> lessonTopic != "" && userLevel != ""
  {
    GenerateFeedback.FeedbackRequest(Some(lessonTopic), Some(p), Some(userLevel))
  }

  /** The endpoint accepted the request, holds a key and the service answered it with text. */
  predicate FeedbackAnswered(req: GenerateFeedback.FeedbackRequest, apiKey: Option<string>,
                             complete: CompletionRequest -> CompletionOutcome)
  {
    GenerateFeedback.HasRequired(req) && Given(apiKey) && ReplyText(complete(GenerateFeedback.CallFor(req))).Some?
  }

  /**
   * End to end, the feedback the student sees when the service did not
   * answer (an empty topic or level included): the client's own fallback.
   */
  lemma StudentFeedbackUnanswered(lessonTopic: string, p: GenerateFeedback.FeedbackProgress, userLevel: string,
                                  apiKey: Option<string>, complete: CompletionRequest -> CompletionOutcome,
                                  parse: string -> Option<Json>, describe: (int, string) -> string)
    requires !FeedbackAnswered(FeedbackBody(lessonTopic, p, userLevel), apiKey, complete)
    ensures var req := FeedbackBody(lessonTopic, p, userLevel);
      GenerateFeedbackReply(lessonTopic, p, Delivered(GenerateFeedback.Handle(req, apiKey, complete, parse).result, describe))
        == FallbackFeedback(lessonTopic, p)
  {
    var req := FeedbackBody(lessonTopic, p, userLevel);
    if GenerateFeedback.HasRequired(req) {
      RunSucceeds(apiKey, GenerateFeedback.CallFor(req), complete, GenerateFeedback.AnswerFor(parse),
        GenerateFeedback.Recover);
    }
  }

  /**
   * End to end, the feedback the student sees once the service answered: a
   * reply that is not valid feedback reaches the student as the specific
   * feedback under the endpoint's fixed motivation; valid feedback without
   * a `success` of its own reaches the student as the service wrote it.
   */
  lemma StudentFeedbackAnswered(lessonTopic: string, p: GenerateFeedback.FeedbackProgress, userLevel: string,
                                apiKey: Option<string>, complete: CompletionRequest -> CompletionOutcome,
                                parse: string -> Option<Json>, describe: (int, string) -> string)
    requires FeedbackAnswered(FeedbackBody(lessonTopic, p, userLevel), apiKey, complete)
    ensures var req := FeedbackBody(lessonTopic, p, userLevel);
      var f := GenerateFeedbackReply(lessonTopic, p,
        Delivered(GenerateFeedback.Handle(req, apiKey, complete, parse).result, describe));
      var text := ReplyText(complete(GenerateFeedback.CallFor(req))).value;
      var parsed := parse(text);
      (!GenerateFeedback.IsFeedback(parsed) ==>
        f.specificFeedback == Some(JStr(text))
        && f.motivationalMessage == Some(JStr(GenerateFeedback.FallbackMotivation)))
      && (GenerateFeedback.IsFeedback(parsed) && Field(parsed.value, "success").None? ==>
        f.specificFeedback == Field(parsed.value, "specificFeedback")
        && f.motivationalMessage == Field(parsed.value, "motivationalMessage"))
  {
    var req := FeedbackBody(lessonTopic, p, userLevel);
    RunSucceeds(apiKey, GenerateFeedback.CallFor(req), complete, GenerateFeedback.AnswerFor(parse),
      GenerateFeedback.Recover);
    AnsweredFeedback(lessonTopic, p, parse, ReplyText(complete(GenerateFeedback.CallFor(req))).value);
  }

  /** The feedback the client reads from the body the endpoint builds out of one reply text. */
  lemma AnsweredFeedback(lessonTopic: string, p: GenerateFeedback.FeedbackProgress, parse: string -> Option<Json>,
                         text: string)
    ensures var f := GenerateFeedbackReply(lessonTopic, p, Body(GenerateFeedback.Answer(parse, text).value));
      var parsed := parse(text);
      (!GenerateFeedback.IsFeedback(parsed) ==>
        f.specificFeedback == Some(JStr(text))
        && f.motivationalMessage == Some(JStr(GenerateFeedback.FallbackMotivation)))
      && (GenerateFeedback.IsFeedback(parsed) && Field(parsed.value, "success").None? ==>
        f.specificFeedback == Field(parsed.value, "specificFeedback")
        && f.motivationalMessage == Field(parsed.value, "motivationalMessage"))
  {
    if GenerateFeedback.IsFeedback(parse(text)) {
      SuccessSpreadFields(parse(text).value.fields);
    } else {
      FeedbackFallbackReachesClient(lessonTopic, p, text);
    }
  }

  /**
   * End to end: when the endpoint answers with its own fallback, the client
   * shows the reply text as the specific feedback together with the
   * endpoint's fixed advice.
   */
  lemma FeedbackFallbackReachesClient(lessonTopic: string, p: GenerateFeedback.FeedbackProgress, text: string)
    ensures var f := GenerateFeedbackReply(lessonTopic, p, Body(GenerateFeedback.FallbackBody(text)));
      f.specificFeedback == Some(JStr(text))
      && f.motivationalMessage == Some(JStr(GenerateFeedback.FallbackMotivation))
      && f.nextSteps == Strings(GenerateFeedback.FallbackNextSteps)
      && f.studyTips == Strings(GenerateFeedback.FallbackTips)
  {
    var body := GenerateFeedback.FallbackBody(text);
    assert Truthy(Field(body, "success"));
    assert Truthy(Field(body, "nextSteps")) && Truthy(Field(body, "studyTips"));
  }
}
