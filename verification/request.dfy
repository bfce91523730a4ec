/** The request side of the chat route: the checks on the posted body and
    the sampling preset sent upstream. */
module Request {
  import opened Text
  import opened Decoder

  /** The posted body after `request.json()`. `messages` is `None` when the
      field is not an array; `selectedModel` and `serverUrl` are `None`
      when absent or null. */
  datatype Body<M> = Body(
    messages: Option<seq<M>>,
    selectedModel: Option<string>,
    serverUrl: Option<string>,
    enableThinking: ThinkingPref)

  /** The first check that failed. */
  datatype Rejection = InvalidMessages | NoModel | NoServerUrl

  /** A body that passed every check. */
  datatype Accepted<M> = Accepted(messages: seq<M>, model: string, serverUrl: string, pref: ThinkingPref)

  datatype Checked<M> = Valid(request: Accepted<M>) | Invalid(why: Rejection)

  /** The `details` text of the error response for each rejection. */
  function Details(why: Rejection): string {
    match why
    case InvalidMessages => "Geçerli mesaj dizisi gerekli"
    case NoModel => "Lütfen bir model seçin."
    case NoServerUrl => "Sunucu URL'si belirtilmedi"
  }

  /** A rejected body is answered with this HTTP status. */
  const ErrorStatus: nat := 500

  /** The checks, in source order: `messages` must be an array, then
      `selectedModel` must be truthy, then `serverUrl` must be truthy. The
      first failure decides the rejection. */
  function Validate<M>(b: Body<M>): (r: Checked<M>)
    ensures r == Invalid(InvalidMessages) <==> b.messages.None?
    ensures r == Invalid(NoModel) <==> b.messages.Some? && !Truthy(b.selectedModel)
    ensures r == Invalid(NoServerUrl) <==> b.messages.Some? && Truthy(b.selectedModel) && !Truthy(b.serverUrl)
    ensures r.Valid? <==> b.messages.Some? && Truthy(b.selectedModel) && Truthy(b.serverUrl)
    ensures r.Valid? ==>
      && r.request.messages == b.messages.value
      && r.request.model == b.selectedModel.value && r.request.model != ""
      && r.request.serverUrl == b.serverUrl.value && r.request.serverUrl != ""
      && r.request.pref == b.enableThinking
  {
    if b.messages.None? then Invalid(InvalidMessages)
    else if !Truthy(b.selectedModel) then Invalid(NoModel)
    else if !Truthy(b.serverUrl) then Invalid(NoServerUrl)
    else Valid(Accepted(b.messages.value, b.selectedModel.value, b.serverUrl.value, b.enableThinking))
  }

  /** Which of the two sampling presets is sent. Their floating-point
      values (temperature, top_p, min_p) are not modelled. */
  datatype Preset = ThinkingPreset | StandardPreset

  /** The JSON body of the upstream chat-completions call. `thinking` is
      the presence of the `thinking: true` field. */
  datatype Upstream<M> = Upstream(
    model: string,
    messages: seq<M>,
    preset: Preset,
    topK: nat,
    maxTokens: nat,
    stream: bool,
    thinking: bool)

  const Path: string := "/v1/chat/completions"
  const TopK: nat := 20
  const MaxTokens: nat := 2000

  /** The upstream URL: the server URL as given, then the endpoint path. */
  function Endpoint(serverUrl: string): (u: string)
    ensures StartsWith(u, serverUrl) && u[|serverUrl|..] == Path
  {
    serverUrl + Path
  }

  /** The upstream body: the thinking preset and the `thinking` field only
      when the preference is exactly `true`; both presets stream, keep
      `top_k` 20 and cap `max_tokens` at 2000, and forward the model and
      the messages untouched. */
  function UpstreamBody<M>(a: Accepted<M>): (u: Upstream<M>)
    ensures u.preset == ThinkingPreset <==> a.pref == On
    ensures u.thinking <==> a.pref == On
    ensures u.topK == 20 && u.maxTokens == 2000 && u.stream
    ensures u.model == a.model && u.messages == a.messages
  {
    if a.pref == On then Upstream(a.model, a.messages, ThinkingPreset, TopK, MaxTokens, true, true)
    else Upstream(a.model, a.messages, StandardPreset, TopK, MaxTokens, true, false)
  }

  /** The request side and the decoder read the preference differently:
      only exactly `true` asks for reasoning, only exactly `false` hides
      it. A preference that is neither asks for the standard preset yet
      still shows any reasoning the model sends. */
  lemma PreferenceReadings<M>(a: Accepted<M>)
    ensures UpstreamBody(a).thinking ==> !Suppressed(a.pref, true)
    ensures Suppressed(a.pref, true) ==> !UpstreamBody(a).thinking
    ensures a.pref == Unset ==> !UpstreamBody(a).thinking && !Suppressed(a.pref, true)
  {
  }

  /** Two server URLs give the same upstream URL only if they are equal. */
  lemma EndpointInjective(a: string, b: string)
    requires Endpoint(a) == Endpoint(b)
    ensures a == b
  {
    assert |a| == |b|;
    assert a == Endpoint(a)[..|a|] && b == Endpoint(b)[..|b|];
  }

  /** The `error` text of every failure response. */
  const FailureText: string := "LM Studio Server'a bağlanırken bir hata oluştu."

  /** What `POST` answers: the stream fed by the upstream call, or a
      failure response whose `details` is the thrown message. */
  datatype Reply<M> =
    | Stream(url: string, body: Upstream<M>)
    | Failure(status: nat, error: string, details: string)

  /** A body that fails a check is answered with status 500 and the
      message of the failed check; any other body starts the upstream call
      at the endpoint of its server URL with its preset. */
  function Respond<M>(b: Body<M>): (r: Reply<M>)
    ensures r.Failure? <==> Validate(b).Invalid?
    ensures r.Failure? ==>
      r.status == ErrorStatus && r.error == FailureText && r.details == Details(Validate(b).why)
    ensures r.Stream? ==>
      && r.url == Endpoint(b.serverUrl.value)
      && r.body.model == b.selectedModel.value && r.body.messages == b.messages.value
      && (r.body.thinking <==> b.enableThinking == On)
  {
    match Validate(b)
    case Invalid(why) => Failure(ErrorStatus, FailureText, Details(why))
    case Valid(a) => Stream(Endpoint(a.serverUrl), UpstreamBody(a))
  }

  /** Each failed check has its own message, so the `details` of a
      failure tells which check failed. */
  lemma DetailsIdentify(x: Rejection, y: Rejection)
    requires Details(x) == Details(y)
    ensures x == y
  {
  }
}
