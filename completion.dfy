/**
 * What the three AI endpoints share: the request they send to the chat
 * completion service, the check of the configured API key, the check that
 * the service answered with text, and the catch block that passes on the
 * HTTP errors the handler raised itself.
 *
 * The completion service is a function parameter `complete`; the API key
 * the runtime configuration or the environment supplies is a parameter.
 */
module Completion {

  import opened Wrappers
  import opened Json

  const ChatModel: string := "gpt-3.5-turbo"
  const KeyMissingMessage: string := "OpenAI API key not configured"
  const NoResponseMessage: string := "No response from OpenAI"

  /** One `chat.completions.create` call: a system message and a user message. */
  datatype CompletionRequest = CompletionRequest(
    model: string,
    system: string,
    prompt: string,
    temperature: real,
    maxTokens: int)

  /**
   * A thrown value as the catch blocks inspect it: `createError` sets
   * `statusCode`, the completion client's errors carry `status` and `code`.
   */
  datatype Thrown = Thrown(statusCode: Option<int>, status: Option<int>, code: Option<string>, message: string)

  /** `createError({ statusCode, statusMessage })`. */
  function HttpFailure(statusCode: int, statusMessage: string): (e: Thrown)
    ensures e.statusCode == Some(statusCode) && e.message == statusMessage
    ensures e.status.None? && e.code.None?
  {
    Thrown(Some(statusCode), None, None, statusMessage)
  }

  /** `if (error.statusCode)`: present and not 0. */
  predicate HasStatusCode(e: Thrown)
  {
    e.statusCode.Some? && e.statusCode.value != 0
  }

  /** The completion call resolves with the first choice's content, or rejects. */
  datatype CompletionOutcome = Completed(content: Option<string>) | Failed(error: Thrown)

  /** What the handler sends back: a JSON body, or an HTTP error. */
  datatype HttpResult = Ok(body: Json) | HttpError(statusCode: int, statusMessage: string)

  /** The handler's result and the completion request it sent, if it got that far. */
  datatype Handled = Handled(result: HttpResult, sent: Option<CompletionRequest>)

  /** The inner `try` block's outcome and the request it sent. */
  datatype Attempt = Attempt(outcome: Result<Json, Thrown>, sent: Option<CompletionRequest>)

  /** `!!value` for an optional string parameter. */
  predicate Given(value: Option<string>)
  {
    value.Some? && value.value != ""
  }

  /** `completion.choices[0]?.message?.content` when it is a non-empty string. */
  function ReplyText(o: CompletionOutcome): (r: Option<string>)
    ensures r.Some? <==> o.Completed? && Given(o.content)
    ensures r.Some? ==> r.value == o.content.value && r.value != ""
  {
    if o.Completed? && Given(o.content) then o.content else None
  }

  /**
   * The part of each handler between its parameter check and its catch:
   * refuse without an API key, send `request`, insist on non-empty text,
   * and hand that text to `answer`.
   */
  function Ask(apiKey: Option<string>, request: CompletionRequest, complete: CompletionRequest -> CompletionOutcome,
               answer: string -> Result<Json, Thrown>): (a: Attempt)
    ensures a.sent.Some? <==> Given(apiKey)
    ensures a.sent.Some? ==> a.sent.value == request
    ensures !Given(apiKey) ==> a.outcome == Failure(HttpFailure(500, KeyMissingMessage))
    ensures Given(apiKey) && complete(request).Failed? ==> a.outcome == Failure(complete(request).error)
    ensures Given(apiKey) && complete(request).Completed? && ReplyText(complete(request)).None? ==>
      a.outcome == Failure(HttpFailure(500, NoResponseMessage))
    ensures Given(apiKey) && ReplyText(complete(request)).Some? ==>
      a.outcome == answer(ReplyText(complete(request)).value)
  {
    if !Given(apiKey) then Attempt(Failure(HttpFailure(500, KeyMissingMessage)), None)
    else
      match complete(request)
      case Failed(e) => Attempt(Failure(e), Some(request))
      case Completed(content) =>
        if Given(content) then Attempt(answer(content.value), Some(request))
        else Attempt(Failure(HttpFailure(500, NoResponseMessage)), Some(request))
  }

  /**
   * The outer `catch`: an error that already has a status code is thrown on
   * unchanged, any other goes to the handler's own `recover`, which picks
   * the status code and message of the error it throws instead.
   */
  function Caught(e: Thrown, recover: Thrown -> (int, string)): (r: HttpResult)
    ensures r.HttpError?
    ensures HasStatusCode(e) ==> r == HttpError(e.statusCode.value, e.message)
    ensures !HasStatusCode(e) ==> r == HttpError(recover(e).0, recover(e).1)
  {
    if HasStatusCode(e) then HttpError(e.statusCode.value, e.message) else HttpError(recover(e).0, recover(e).1)
  }

  /** The response the handler produces from its inner outcome. */
  function Respond(outcome: Result<Json, Thrown>, recover: Thrown -> (int, string)): (r: HttpResult)
    ensures r.Ok? <==> outcome.Success?
    ensures r.Ok? ==> r.body == outcome.value
    ensures outcome.Failure? ==> r == Caught(outcome.error, recover)
  {
    match outcome
    case Success(body) => Ok(body)
    case Failure(e) => Caught(e, recover)
  }

  /**
   * Each handler past its parameter check: `Ask`, then the catch turns the
   * outcome into the response.
   */
  function Run(apiKey: Option<string>, request: CompletionRequest, complete: CompletionRequest -> CompletionOutcome,
               answer: string -> Result<Json, Thrown>, recover: Thrown -> (int, string)): (h: Handled)
    ensures h.sent.Some? <==> Given(apiKey)
    ensures h.sent.Some? ==> h.sent.value == request
  {
    var a := Ask(apiKey, request, complete, answer);
    Handled(Respond(a.outcome, recover), a.sent)
  }

  /**
   * A handler succeeds exactly when a key is configured, the service answers
   * with text and `answer` accepts that text; the body is what `answer` built.
   */
  lemma RunSucceeds(apiKey: Option<string>, request: CompletionRequest, complete: CompletionRequest -> CompletionOutcome,
                    answer: string -> Result<Json, Thrown>, recover: Thrown -> (int, string))
    ensures var r := Run(apiKey, request, complete, answer, recover).result;
      r.Ok? <==> Given(apiKey) && ReplyText(complete(request)).Some? && answer(ReplyText(complete(request)).value).Success?
    ensures var r := Run(apiKey, request, complete, answer, recover).result;
      r.Ok? ==> r.body == answer(ReplyText(complete(request)).value).value
  {
  }

  /**
   * The four ways a handler fails past its parameter check: no key, the
   * service's error, a reply without text, or `answer` refusing the text.
   */
  lemma RunFails(apiKey: Option<string>, request: CompletionRequest, complete: CompletionRequest -> CompletionOutcome,
                 answer: string -> Result<Json, Thrown>, recover: Thrown -> (int, string))
    ensures var r := Run(apiKey, request, complete, answer, recover).result;
      r.HttpError? ==>
        (!Given(apiKey) && r == HttpError(500, KeyMissingMessage))
        || (Given(apiKey) && complete(request).Failed? && r == Caught(complete(request).error, recover))
        || (Given(apiKey) && complete(request).Completed? && ReplyText(complete(request)).None?
            && r == HttpError(500, NoResponseMessage))
        || (Given(apiKey) && ReplyText(complete(request)).Some?
            && answer(ReplyText(complete(request)).value).Failure?
            && r == Caught(answer(ReplyText(complete(request)).value).error, recover))
  {
  }

  /** An error the handler raised with `createError` reaches the client as raised. */
  lemma RaisedErrorsPassThrough(statusCode: int, message: string, recover: Thrown -> (int, string))
    requires statusCode != 0
    ensures Respond(Failure(HttpFailure(statusCode, message)), recover) == HttpError(statusCode, message)
  {
  }
}
