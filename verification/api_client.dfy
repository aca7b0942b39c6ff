/**
 * The extension's call that saves a link: a pre-flight check of the shared secret, one POST
 * to the API, and the choice of the error message on a failed response. The network is a
 * parameter: `reply` is what the one request would receive.
 */
module ExtensionApi {
  import opened Wrappers
  import opened JsValues
  import opened ExtensionStorage
  import Numbers

  const NoSecretMessage: string := "Shared secret not configured. Please set up the extension."
  const UnknownErrorMessage: string := "Unknown error"
  const LinksPath: string := "/api/links"
  const SecretHeader: string := "X-QuickLink-Secret"

  /** The request body; optional members are `None` when absent. */
  datatype SaveLinkRequest = SaveLinkRequest(
    url: string,
    title: string,
    page: string,
    note: Option<string>,
    userIdentifier: Option<string>,
    tags: Option<seq<string>>)

  /** The one HTTP request the call makes. */
  datatype HttpRequest = HttpRequest(
    verb: string,
    url: string,
    headers: map<string, string>,
    body: SaveLinkRequest)

  /** What the request receives: an ok response with its parsed body, an ok response whose
      body does not parse (with the parser's message), a non-ok response with its status and
      its parsed body (`None` when the body is not JSON), or a network error carrying its
      message. */
  datatype Reply =
    | OkReply(body: Json)
    | OkUnparsable(parseError: string)
    | ErrorReply(status: int, errorBody: Option<Json>)
    | NetworkFailure(message: string)

  /** The request the call makes, if any, and what it returns or the message it throws. */
  datatype SaveOutcome = SaveOutcome(request: Option<HttpRequest>, result: Result<Json, string>)

  /** `HTTP <status>`. */
  function StatusMessage(status: int): string {
    "HTTP " + Numbers.IntToString(status)
  }

  /** The thrown message for a non-ok response: the body's truthy `error`, as a string;
      otherwise `HTTP <status>`. A body that cannot be parsed counts as `{error: "Unknown error"}`;
      a `null` body makes reading its `error` throw a `TypeError`. */
  function ErrorMessage(status: int, body: Option<Json>): (m: string)
    ensures body.None? ==> m == UnknownErrorMessage
    ensures body == Some(JNull) ==> m == NullPropertyError("error")
    ensures body.Some? && !body.value.JNull? && !TruthyOpt(Property(body, "error")) ==> m == StatusMessage(status)
    ensures (body.Some? && Property(body, "error").Some? && Property(body, "error").value.JString?
             && Property(body, "error").value.s != "") ==> m == Property(body, "error").value.s
  {
    var errorData := if body.Some? then body else Some(JObject(map["error" := JString(UnknownErrorMessage)]));
    if errorData == Some(JNull) then NullPropertyError("error")
    else
      var error := Property(errorData, "error");
      if TruthyOpt(error) then ToJsString(error.value) else StatusMessage(status)
  }

  /** `saveLink`: with an empty shared secret it throws before any request; otherwise it makes
      exactly one POST and returns the parsed ok body unchanged or throws: the parser's message,
      the selected error message, or the network error. */
  function SaveLink(config: Config, request: SaveLinkRequest, reply: Reply): (r: SaveOutcome)
    ensures r.request.None? <==> config.sharedSecret == ""
    ensures config.sharedSecret == "" ==> r.result == Failure(NoSecretMessage)
    ensures r.request.Some? ==>
      && r.request.value.verb == "POST"
      && r.request.value.url == config.apiBaseUrl + LinksPath
      && SecretHeader in r.request.value.headers
      && r.request.value.headers[SecretHeader] == config.sharedSecret
      && r.request.value.body == request
    ensures r.result.Success? <==> config.sharedSecret != "" && reply.OkReply?
    ensures r.result.Success? ==> r.result.value == reply.body
    ensures config.sharedSecret != "" && reply.OkUnparsable? ==> r.result == Failure(reply.parseError)
    ensures config.sharedSecret != "" && reply.ErrorReply? ==>
      r.result == Failure(ErrorMessage(reply.status, reply.errorBody))
    ensures config.sharedSecret != "" && reply.NetworkFailure? ==> r.result == Failure(reply.message)
  {
    if config.sharedSecret == "" then SaveOutcome(None, Failure(NoSecretMessage))
    else
      var http := HttpRequest("POST", config.apiBaseUrl + LinksPath,
        map["Content-Type" := "application/json", SecretHeader := config.sharedSecret], request);
      match reply
      case OkReply(body) => SaveOutcome(Some(http), Success(body))
      case OkUnparsable(parseError) => SaveOutcome(Some(http), Failure(parseError))
      case ErrorReply(status, errorBody) => SaveOutcome(Some(http), Failure(ErrorMessage(status, errorBody)))
      case NetworkFailure(message) => SaveOutcome(Some(http), Failure(message))
  }
}
