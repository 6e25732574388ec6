/** The client of the chat-completion service (server/services/openrouter.service.ts):
    the request payload, the translation of an HTTP failure into an error
    message, and the wrapping of every failure of a structured-JSON request.
    The network call and the decoding of the model's answer (`JSON.parse`
    followed by the answer schema) are parameters. */
module OpenRouter {
  import opened Common

  const DefaultModel := "anthropic/claude-3.5-sonnet"
  const BaseUrl := "https://openrouter.ai/api/v1"
  const SiteUrl := "https://todo.10x.show"
  const MissingKey := "Server configuration error: OpenRouter API key is missing."
  const NoChoices := "Invalid response structure from API."
  const ParsePrefix := "Failed to parse JSON response from model: "
  const FailurePrefix := "Failed to get a valid response from OpenRouter. Details: "
  const BadRequestPrefix := "Invalid request: "
  const BadRequest := "Bad request"
  const Unauthorized := "Authentication failed: Invalid API key"
  const RateLimited := "Rate limit exceeded: Too many requests"
  const Unavailable := "OpenRouter service unavailable. Please try again later."

  /** The service's read-only settings. */
  datatype Service = Service(apiKey: string, baseUrl: string, defaultModel: string, siteUrl: string)

  datatype Role = System | User
  datatype ChatMessage = ChatMessage(role: Role, content: string)

  /** `RequestOptions`: every member may be left out. */
  datatype RequestOptions = RequestOptions(model: Option<string>, temperature: Option<real>, maxTokens: Option<int>)

  /** The `response_format` member; `S` is the JSON schema derived from the
      answer schema. */
  datatype ResponseFormat<S> = ResponseFormat(kind: string, name: string, strict: bool, schema: S)

  datatype Payload<S> = Payload(
    model: string,
    messages: seq<ChatMessage>,
    responseFormat: ResponseFormat<S>,
    temperature: Option<real>,
    maxTokens: Option<int>)

  /** One entry of `choices`: an object entry whose `message` is absent or
      null, or a message whose `content` is a string or is absent or null.
      A null entry is `WithMessage(None)`: the optional chain on it yields an
      absent content without throwing. */
  datatype Choice = WithoutMessage | WithMessage(content: Option<string>)

  /** The service's answer: its `choices`, when that member is present at all. */
  datatype Reply = Reply(choices: Option<seq<Choice>>)

  /** A failed request: an HTTP error response with its status and the
      provider's `error.message`, or any other failure; each carries the
      value that was thrown. */
  datatype FetchError =
    | HttpError(status: int, providerMessage: Option<string>, thrown: Thrown)
    | OtherFailure(thrown: Thrown)

  /** The constructor: the API key must be truthy. */
  function NewService(apiKey: Option<string>): (r: Result<Service, Thrown>)
    ensures r.Ok? <==> Truthy(apiKey)
    ensures r.Ok? ==> r.value.apiKey == apiKey.value && r.value.defaultModel == DefaultModel
    ensures r.Err? ==> r.error == NewError(MissingKey)
  {
    if !Truthy(apiKey) then Err(NewError(MissingKey))
    else Ok(Service(apiKey.value, BaseUrl, DefaultModel, SiteUrl))
  }

  /** `buildJsonSchemaPayload` */
  function BuildPayload<S>(svc: Service, systemPrompt: string, userPrompt: string, schema: S, options: RequestOptions): (p: Payload<S>)
    ensures Truthy(options.model) ==> p.model == options.model.value
    ensures !Truthy(options.model) ==> p.model == svc.defaultModel
    ensures |p.messages| == 2
    ensures p.messages[0] == ChatMessage(System, systemPrompt) && p.messages[1] == ChatMessage(User, userPrompt)
    ensures p.responseFormat.kind == "json_schema" && p.responseFormat.name == "json_schema"
    ensures p.responseFormat.strict && p.responseFormat.schema == schema
    ensures p.temperature == options.temperature && p.maxTokens == options.maxTokens
  {
    Payload(
      OrElse(options.model, svc.defaultModel),
      [ChatMessage(System, systemPrompt), ChatMessage(User, userPrompt)],
      ResponseFormat("json_schema", "json_schema", true, schema),
      options.temperature,
      options.maxTokens)
  }

  /** A service made by its constructor falls back on Claude 3.5 Sonnet when
      no model, or an empty one, is asked for. */
  lemma DefaultModelUsed<S>(apiKey: Option<string>, systemPrompt: string, userPrompt: string, schema: S, options: RequestOptions)
    requires NewService(apiKey).Ok?
    requires options.model.None? || options.model == Some("")
    ensures BuildPayload(NewService(apiKey).value, systemPrompt, userPrompt, schema, options).model == DefaultModel
  {
  }

  /** The error `makeRequest` throws for a failed request: a known HTTP
      status gets its own message, anything else is thrown on unchanged. */
  function Classify(e: FetchError): (t: Thrown)
    ensures e.HttpError? && e.status == 400 ==> t == NewError(BadRequestPrefix + OrElse(e.providerMessage, BadRequest))
    ensures e.HttpError? && e.status == 401 ==> t == NewError(Unauthorized)
    ensures e.HttpError? && e.status == 429 ==> t == NewError(RateLimited)
    ensures e.HttpError? && e.status >= 500 ==> t == NewError(Unavailable)
    ensures !(e.HttpError? && (e.status in {400, 401, 429} || e.status >= 500)) ==> t == e.thrown
  {
    if e.HttpError? then
      if e.status == 400 then NewError(BadRequestPrefix + OrElse(e.providerMessage, BadRequest))
      else if e.status == 401 then NewError(Unauthorized)
      else if e.status == 429 then NewError(RateLimited)
      else if e.status >= 500 then NewError(Unavailable)
      else e.thrown
    else e.thrown
  }

  /** `makeRequest`: the reply, or the classified error. */
  method MakeRequest<S>(payload: Payload<S>, transport: Payload<S> -> Result<Reply, FetchError>) returns (r: Result<Reply, Thrown>)
    ensures transport(payload).Ok? ==> r == Ok(transport(payload).value)
    ensures transport(payload).Err? ==> r == Err(Classify(transport(payload).error))
  {
    var fetched := transport(payload);
    if fetched.Err? {
      return Err(Classify(fetched.error));
    }
    return Ok(fetched.value);
  }

  predicate HasChoices(reply: Reply)
  {
    reply.choices.Some? && reply.choices.value != []
  }

  /** `getJsonResponse`: build the payload, send it, take the first choice's
      content and decode it.  Every failure leaves wrapped in one message
      that starts with the same prefix.  Reading `content` from a first
      choice without a message throws `missingMessage` (the runtime's
      TypeError); `decode` stands for `JSON.parse` followed by the answer
      schema, and is given `None` for an absent or null content. */
  method GetJsonResponse<S, T>(
    svc: Service, systemPrompt: string, userPrompt: string, schema: S, options: RequestOptions,
    transport: Payload<S> -> Result<Reply, FetchError>, decode: Option<string> -> Result<T, Thrown>,
    missingMessage: Thrown)
    returns (r: Result<T, Thrown>)
    ensures r.Err? ==> r.error.Error? && StartsWith(r.error.message, FailurePrefix)
    ensures var f := transport(BuildPayload(svc, systemPrompt, userPrompt, schema, options));
      && (f.Err? ==> r == Err(NewError(FailurePrefix + MessageOf(Classify(f.error)))))
      && (f.Ok? && !HasChoices(f.value) ==> r == Err(NewError(FailurePrefix + NoChoices)))
      && (f.Ok? && HasChoices(f.value) && f.value.choices.value[0].WithoutMessage? ==>
            r == Err(NewError(FailurePrefix + MessageOf(missingMessage))))
      && (f.Ok? && HasChoices(f.value) && f.value.choices.value[0].WithMessage? ==>
            var d := decode(f.value.choices.value[0].content);
            && (d.Ok? ==> r == Ok(d.value))
            && (d.Err? ==> r == Err(NewError(FailurePrefix + ParsePrefix + MessageOf(d.error)))))
  {
    var payload := BuildPayload(svc, systemPrompt, userPrompt, schema, options);
    var response := MakeRequest(payload, transport);
    var failure: Thrown;
    if response.Err? {
      failure := response.error;
    } else if !HasChoices(response.value) {
      failure := NewError(NoChoices);
    } else if response.value.choices.value[0].WithoutMessage? {
      failure := missingMessage;
    } else {
      var content := response.value.choices.value[0].content;
      var decoded := decode(content);
      if decoded.Ok? {
        return Ok(decoded.value);
      }
      failure := NewError(ParsePrefix + MessageOf(decoded.error));
      assert FailurePrefix + MessageOf(failure) == FailurePrefix + ParsePrefix + MessageOf(decoded.error);
    }
    r := Err(NewError(FailurePrefix + MessageOf(failure)));
    assert (FailurePrefix + MessageOf(failure))[..|FailurePrefix|] == FailurePrefix;
  }
}
