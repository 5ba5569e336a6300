/** The provider's webhook endpoint: it classifies an event by its
    `x-github-event` header and body, asks the review engine to review an
    opened or updated pull request, and always answers with a response. */
module WebhookRoute {
  import opened Records
  import Text

  /** The `repository` object of a pull-request body; `fullName` is absent when
      `full_name` is missing or not a string. */
  datatype RepositoryPayload = RepositoryPayload(fullName: Option<string>)

  /** The fields of the body the handler reads. */
  datatype Body = Body(action: Option<string>, repository: Option<RepositoryPayload>, number: Option<int>)

  /** What `req.json()` yields: a parse failure, a JSON value that is not an
      object (`null`, a number, ...), or an object. */
  datatype Payload = Malformed | NotAnObject | Object(body: Body)

  datatype ResponseBody = Message(message: string) | ErrorBody(error: string)

  datatype Response = Response(status: int, body: ResponseBody)

  /** The arguments of `reviewPullRequest(owner, repoName, prNumber)`; `repoName`
      is absent when `full_name` has no `/`, and `prNumber` when `number` is missing. */
  datatype ReviewCall = ReviewCall(owner: string, repoName: Option<string>, prNumber: Option<int>)

  /** What the handler logs about the review. */
  datatype ReviewLog = NoReview | ReviewCompleted | ReviewFailed

  datatype Handled = Handled(response: Response, review: Option<ReviewCall>, log: ReviewLog)

  const Pong := Response(200, Message("Pong"))
  const Processed := Response(200, Message("Event Processes"))
  const ServerError := Response(500, ErrorBody("Internal server error"))

  predicate TriggersReview(action: Option<string>) {
    action == Some("opened") || action == Some("synchronize")
  }

  /** The review call for a pull-request body, split out of `full_name`. */
  function ReviewCallFor(fullName: string, number: Option<int>): ReviewCall {
    var parts := Text.Split(fullName, '/');
    ReviewCall(parts[0], if |parts| > 1 then Some(parts[1]) else None, number)
  }

  /** `POST`: the review engine throwing (`reviewThrows`) is caught and logged.
      The handler always answers with one of its three responses; a review is
      only asked for under an acknowledged event and is always logged, as a
      failure exactly when the engine threw. */
  function HandleWebhook(payload: Payload, event: Option<string>, reviewThrows: bool): (h: Handled)
    ensures h.response == Pong || h.response == Processed || h.response == ServerError
    ensures h.review.Some? ==> h.response == Processed
    ensures h.review.Some? <==> h.log != NoReview
    ensures h.review.Some? ==> (h.log == ReviewFailed <==> reviewThrows)
  {
    if payload.Malformed? then Handled(ServerError, None, NoReview)
    else if event == Some("ping") then Handled(Pong, None, NoReview)
    else if event == Some("pull_request") then
      if payload.NotAnObject? then Handled(ServerError, None, NoReview)
      else
        var body := payload.body;
        if body.repository.None? || body.repository.value.fullName.None? then
          Handled(ServerError, None, NoReview)
        else if TriggersReview(body.action) then
          var call := ReviewCallFor(body.repository.value.fullName.value, body.number);
          Handled(Processed, Some(call), if reviewThrows then ReviewFailed else ReviewCompleted)
        else Handled(Processed, None, NoReview)
    else Handled(Processed, None, NoReview)
  }

  /** A body that names a repository and its `full_name`. */
  predicate NamesRepository(payload: Payload) {
    payload.Object? && payload.body.repository.Some? && payload.body.repository.value.fullName.Some?
  }

  /** The review engine is called exactly for a parsed `pull_request` event whose
      body names a repository and whose action is `opened` or `synchronize`;
      the owner passed is the text of `full_name` before the first `/`, and the
      pull-request number is `number`. */
  lemma ReviewCalledExactlyWhen(payload: Payload, event: Option<string>, reviewThrows: bool)
    ensures var h := HandleWebhook(payload, event, reviewThrows);
      && (h.review.Some? <==>
            event == Some("pull_request") && NamesRepository(payload) && TriggersReview(payload.body.action))
      && (h.review.Some? ==>
            && h.review.value.owner == Text.Before(payload.body.repository.value.fullName.value, '/')
            && h.review.value.prNumber == payload.body.number
            && h.response == Processed)
  {
    if payload.Object? && payload.body.repository.Some? && payload.body.repository.value.fullName.Some? {
      Text.FirstPieceIsBefore(payload.body.repository.value.fullName.value, '/');
    }
  }

  /** For a `full_name` of the form `owner/name`, the review is asked for exactly
      `(owner, name, number)`. */
  lemma ReviewCallSplitsFullName(owner: string, name: string, number: Option<int>)
    requires '/' !in owner && '/' !in name
    ensures ReviewCallFor(owner + "/" + name, number) == ReviewCall(owner, Some(name), number)
  {
    Text.SplitAtFirst(owner, name, '/');
    Text.SplitNoSeparator(name, '/');
  }

  /** Whether the review engine throws changes neither the response nor the call. */
  lemma ReviewFailureSwallowed(payload: Payload, event: Option<string>)
    ensures HandleWebhook(payload, event, true).response == HandleWebhook(payload, event, false).response
    ensures HandleWebhook(payload, event, true).review == HandleWebhook(payload, event, false).review
  {
  }

  /** The status is 500 exactly when the body did not parse, or when a
      `pull_request` body lacks a repository `full_name`, whatever the action.
      Any other answer is `Pong` for `ping` and "Event Processes" otherwise,
      including a `pull_request` whose action triggers no review. */
  lemma ServerErrorExactlyWhen(payload: Payload, event: Option<string>, reviewThrows: bool)
    ensures var h := HandleWebhook(payload, event, reviewThrows);
      && (h.response.status == 500 <==>
            payload.Malformed? || (event == Some("pull_request") && !NamesRepository(payload)))
      && (h.response.status == 500 ==> h.response == ServerError && h.review.None?)
      && (h.response.status != 500 ==> h.response == (if event == Some("ping") then Pong else Processed))
  {
  }

  /** A parsed `ping` answers `Pong` and reviews nothing; any parsed event other
      than `ping` and `pull_request` is acknowledged and reviews nothing. */
  lemma PingAndOtherEvents(payload: Payload, event: Option<string>, reviewThrows: bool)
    requires !payload.Malformed?
    ensures var h := HandleWebhook(payload, event, reviewThrows);
      && (event == Some("ping") ==> h == Handled(Pong, None, NoReview))
      && (event != Some("ping") && event != Some("pull_request") ==> h == Handled(Processed, None, NoReview))
  {
  }
}
