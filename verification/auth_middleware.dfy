/**
 * The API's authentication middleware: a request passes only with an `Authorization` header
 * of the form `<bearer> <token>` whose token the identity provider verifies and whose subject
 * is not empty; the subject is then stored in the request context as `user_id`. The
 * provider's verification is the parameter `verify`, from a token to its subject or an error.
 */
module AuthMiddleware {
  import opened Wrappers
  import opened JsValues
  import Text

  const UserIdKey: string := "user_id"
  const Unauthorized: int := 401
  const MissingHeader: string := "missing authorization header"
  const InvalidFormat: string := "invalid authorization header format"
  const InvalidToken: string := "invalid token"
  const NoSubject: string := "user_id not found in token"

  /** A JSON response: status and body. */
  datatype Response = Response(status: int, body: Json)

  /** The middleware's verdict on one request. */
  datatype Decision = Reject(body: Json) | Accept(userId: string)

  function ErrorBody(message: string): Json {
    JObject(map["error" := JString(message)])
  }

  /** The part of the decision that depends only on the token. */
  function TokenDecision(token: string, verify: string -> Result<string, string>): (d: Decision)
    ensures d.Accept? <==> verify(token).Success? && verify(token).value != ""
    ensures d.Accept? ==> d.userId == verify(token).value
  {
    match verify(token)
    case Failure(e) => Reject(JObject(map["error" := JString(InvalidToken), "detail" := JString(e)]))
    case Success(subject) => if subject == "" then Reject(ErrorBody(NoSubject)) else Accept(subject)
  }

  /** The header check: `SplitN(header, " ", 2)` must give two parts and the first must lower
      to `bearer`. Go's `ToLower` maps no non-ASCII character to an ASCII letter of "bearer",
      so lowering the ASCII letters decides the same comparison. */
  function Decide(header: string, verify: string -> Result<string, string>): (d: Decision)
    ensures header == "" ==> d == Reject(ErrorBody(MissingHeader))
  {
    if header == "" then Reject(ErrorBody(MissingHeader))
    else
      var parts := Text.SplitFirst(header, ' ');
      if |parts| != 2 || Text.AsciiLower(parts[0]) != "bearer" then Reject(ErrorBody(InvalidFormat))
      else TokenDecision(parts[1], verify)
  }

  /** A request is accepted exactly when the header is a case-insensitive `bearer` scheme, one
      space and a token whose verification yields a non-empty subject; the subject is the
      user. */
  lemma AcceptIff(header: string, verify: string -> Result<string, string>)
    ensures Decide(header, verify).Accept? <==>
      exists scheme, token :: header == scheme + " " + token && ' ' !in scheme && Text.AsciiLower(scheme) == "bearer"
        && verify(token).Success? && verify(token).value != ""
    ensures Decide(header, verify).Accept? ==> Decide(header, verify).userId != ""
  {
    if exists scheme, token :: header == scheme + " " + token && ' ' !in scheme && Text.AsciiLower(scheme) == "bearer"
        && verify(token).Success? && verify(token).value != "" {
      var scheme, token :| header == scheme + " " + token && ' ' !in scheme && Text.AsciiLower(scheme) == "bearer"
        && verify(token).Success? && verify(token).value != "";
      assert Decide(header, verify) == TokenDecision(token, verify) by {
        SchemeThenToken(scheme, token, verify);
      }
    }
    if Decide(header, verify).Accept? {
      var parts := Text.SplitFirst(header, ' ');
      assert header == parts[0] + " " + parts[1];
    }
  }

  /** With a `bearer` scheme of any case, the verdict depends on the token alone; the token is
      everything after the first space, further spaces included. */
  lemma SchemeThenToken(scheme: string, token: string, verify: string -> Result<string, string>)
    requires ' ' !in scheme && Text.AsciiLower(scheme) == "bearer"
    ensures Decide(scheme + " " + token, verify) == TokenDecision(token, verify)
  {
    var header := scheme + " " + token;
    assert header[|scheme|] == ' ';
    var parts := Text.SplitFirst(header, ' ');
    assert |parts| == 2;
    SplitFirstUnique(parts[0], parts[1], scheme, token);
  }

  /** The text before the first space determines where the split falls. */
  lemma SplitFirstUnique(a: string, b: string, c: string, d: string)
    requires ' ' !in a && ' ' !in c && a + " " + b == c + " " + d
    ensures a == c && b == d
  {
    var s := a + " " + b;
    assert s[|a|] == ' ' && s[|c|] == ' ';
    assert |a| <= |c| ==> s[|a|] !in c || |a| == |c|;
    assert a == s[..|a|] && c == s[..|c|];
    assert b == s[|a| + 1..] && d == s[|c| + 1..];
  }

  /** The request context: the values handlers share, whether the chain was aborted, the
      response written so far and whether the next handler ran. */
  class Context {
    var keys: map<string, string>
    var aborted: bool
    var response: Option<Response>
    var nextCalled: bool

    constructor()
      ensures keys == map[] && !aborted && response.None? && !nextCalled
    {
      keys := map[];
      aborted := false;
      response := None;
      nextCalled := false;
    }

    /** `GetUserID`: the stored user, or "" when the middleware stored none. */
    function UserId(): (id: string)
      reads this
      ensures UserIdKey !in keys ==> id == ""
      ensures UserIdKey in keys ==> id == keys[UserIdKey]
    {
      if UserIdKey in keys then keys[UserIdKey] else ""
    }
  }

  /** `ClerkAuth` on one request: a rejection writes the 401 response and aborts without
      storing anything or calling the next handler; an acceptance stores the subject and calls
      the next handler. */
  method ClerkAuth(c: Context, header: string, verify: string -> Result<string, string>)
    modifies c
    ensures Decide(header, verify).Reject? ==>
      && c.response == Some(Response(Unauthorized, Decide(header, verify).body))
      && c.aborted && c.keys == old(c.keys) && c.nextCalled == old(c.nextCalled)
    ensures Decide(header, verify).Accept? ==>
      && c.keys == old(c.keys)[UserIdKey := Decide(header, verify).userId]
      && c.nextCalled && c.aborted == old(c.aborted) && c.response == old(c.response)
  {
    var decision := Decide(header, verify);
    match decision
    case Reject(body) =>
      c.response := Some(Response(Unauthorized, body));
      c.aborted := true;
    case Accept(userId) =>
      c.keys := c.keys[UserIdKey := userId];
      c.nextCalled := true;
  }

  /** After the middleware, the handlers see the verified subject, or "" on a fresh context
      that was rejected. */
  lemma UserIdAfterAuth(keys: map<string, string>, header: string, verify: string -> Result<string, string>)
    ensures Decide(header, verify).Accept? ==>
      (keys[UserIdKey := Decide(header, verify).userId])[UserIdKey] != ""
  {
    AcceptIff(header, verify);
  }
}
