/**
 * The dashboard's authorised GET: the session token is read first, a missing token or a failed
 * read throws before any request is made, and the one request carries the token as a bearer credential.
 * The network is a parameter: `reply` is what the one request would receive.
 */
module DashboardFetch {
  import opened Wrappers
  import opened JsValues
  import Numbers

  const UnauthorizedMessage: string := "Unauthorized"
  const BearerPrefix: string := "Bearer "

  /** The one request: its address and its `Authorization` header. */
  datatype Request = Request(url: string, authorization: string)

  /** What the request receives: an ok response with its parsed body, an ok response whose
      body does not parse (with the parser's message), a non-ok response with its status, or a
      network error carrying its message. */
  datatype Reply =
    | OkReply(body: Json)
    | OkUnparsable(parseError: string)
    | ErrorReply(status: int)
    | NetworkFailure(message: string)

  /** The request made, if any, and the body returned or the message thrown. */
  datatype Outcome = Outcome(request: Option<Request>, result: Result<Json, string>)

  /** What `getToken()` settles to: a token or `null` (`None`), or the reason it rejects with. */
  type TokenRead = Result<Option<string>, string>

  /** A token `getToken` resolved to that is truthy. */
  predicate HasToken(token: TokenRead) {
    token.Success? && token.value.Some? && token.value.value != ""
  }

  /** The fetcher: a rejected token read is rethrown and a missing token throws `Unauthorized`,
      both before any request; otherwise one GET with `Authorization: Bearer <token>`, whose
      parsed ok body is returned and whose non-ok status is thrown after `failurePrefix`. */
  function AuthorizedGet(url: string, token: TokenRead, reply: Reply, failurePrefix: string): (r: Outcome)
    ensures r.request.None? <==> !HasToken(token)
    ensures token.Failure? ==> r.result == Failure(token.error)
    ensures token.Success? && !HasToken(token) ==> r.result == Failure(UnauthorizedMessage)
    ensures r.request.Some? ==> r.request.value.url == url
    ensures r.request.Some? ==> r.request.value.authorization == BearerPrefix + token.value.value
    ensures r.result.Success? <==> HasToken(token) && reply.OkReply?
    ensures r.result.Success? ==> r.result.value == reply.body
    ensures HasToken(token) && reply.OkUnparsable? ==> r.result == Failure(reply.parseError)
    ensures HasToken(token) && reply.ErrorReply? ==>
      r.result == Failure(failurePrefix + Numbers.IntToString(reply.status))
    ensures HasToken(token) && reply.NetworkFailure? ==> r.result == Failure(reply.message)
  {
    if token.Failure? then Outcome(None, Failure(token.error))
    else if !HasToken(token) then Outcome(None, Failure(UnauthorizedMessage))
    else
      var request := Request(url, BearerPrefix + token.value.value);
      match reply
      case OkReply(body) => Outcome(Some(request), Success(body))
      case OkUnparsable(parseError) => Outcome(Some(request), Failure(parseError))
      case ErrorReply(status) => Outcome(Some(request), Failure(failurePrefix + Numbers.IntToString(status)))
      case NetworkFailure(message) => Outcome(Some(request), Failure(message))
  }
}
