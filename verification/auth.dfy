/**
 * The extension's authentication-state evaluator: the stored token is checked for presence,
 * for the three-segment compact form of a JSON Web Token (section 3 of RFC 7519, section 7.1
 * of RFC 7515), for expiry and for a `sub` claim, in that order. Every failure after the
 * presence check clears the stored authentication.
 */
module ExtensionAuth {
  import opened Wrappers
  import Text
  import opened ExtensionStorage
  import opened JsValues

  /** The base64url-to-JSON decoding of a token segment (`atob`, percent-decoding and
      `JSON.parse`); `None` stands for any of them throwing. */
  type Decoder = string -> Option<Json>

  /** The dot-separated segments of a token, as `token.split(".")` gives them. */
  function Segments(token: string): seq<string> {
    Text.Split(token, {'.'})
  }

  /** `parseJwt`: the decoded second segment, or `None` (null) when that segment is missing
      or empty or its decoding throws. */
  function ParseJwt(token: string, decode: Decoder): (r: Option<Json>)
    ensures |Segments(token)| < 2 ==> r == None
    ensures |Segments(token)| >= 2 && Segments(token)[1] == "" ==> r == None
    ensures r.Some? ==> |Segments(token)| >= 2 && decode(Segments(token)[1]) == r
  {
    var parts := Segments(token);
    if |parts| < 2 || parts[1] == "" then None else decode(parts[1])
  }

  /** The compact serialization `header.payload.signature` of three dot-free segments. */
  function Compact(header: string, payload: string, signature: string): string {
    header + "." + payload + "." + signature
  }

  /** Splitting a compact token gives back its three segments. */
  lemma SegmentsOfCompact(header: string, payload: string, signature: string)
    requires '.' !in header && '.' !in payload && '.' !in signature
    ensures Segments(Compact(header, payload, signature)) == [header, payload, signature]
  {
    var parts := [header, payload, signature];
    forall i | 0 <= i < |parts|
      ensures Text.FreeOf(parts[i], {'.'})
    {
      assert '.' !in parts[i];
    }
    Text.SplitJoin(parts, '.', {'.'});
    assert Text.Join(parts[2..], ".") == signature;
    assert Text.Join(parts[1..], ".") == payload + "." + signature;
    assert Text.Join(parts, ".") == header + "." + (payload + "." + signature);
    assert Compact(header, payload, signature) == Text.Join(parts, ".");
  }

  /** `parseJwt` of a compact token decodes exactly its payload segment. */
  lemma ParseJwtOfCompact(header: string, payload: string, signature: string, decode: Decoder)
    requires '.' !in header && '.' !in payload && '.' !in signature
    ensures ParseJwt(Compact(header, payload, signature), decode)
         == (if payload == "" then None else decode(payload))
  {
    SegmentsOfCompact(header, payload, signature);
  }

  /** The payload check: `!tokenPayload || !userId` fails, where `userId` is
      `tokenPayload?.sub`. */
  predicate PayloadHasSubject(payload: Option<Json>) {
    TruthyOpt(payload) && TruthyOpt(Property(payload, "sub"))
  }

  /** The result record of the evaluator. */
  datatype AuthState = AuthState(
    isAuthenticated: bool,
    userId: Option<string>,
    token: Option<string>,
    expiresAt: Option<int>)

  const Unauthenticated: AuthState := AuthState(false, None, None, None)

  /** Which branch of the evaluator is taken. */
  datatype Verdict = NoCredentials | MalformedToken | ExpiredToken | InvalidPayload | Authenticated

  /** A branch that clears the stored authentication. */
  predicate Clears(v: Verdict) {
    v == MalformedToken || v == ExpiredToken || v == InvalidPayload
  }

  /** An expiry is set when it is non-zero, and it has passed once `now` is past it. */
  predicate HasExpired(c: Config, now: int) {
    c.clerkTokenExpiresAt != 0 && now > c.clerkTokenExpiresAt
  }

  /** The evaluator's checks in their order; the first that fails decides. */
  function Evaluate(c: Config, now: int, decode: Decoder): (v: Verdict)
    ensures v == NoCredentials <==> c.clerkToken == "" || c.clerkUserId == ""
    ensures v == MalformedToken ==> |Segments(c.clerkToken)| != 3
    ensures v == ExpiredToken ==> |Segments(c.clerkToken)| == 3 && HasExpired(c, now)
    ensures v == InvalidPayload ==> |Segments(c.clerkToken)| == 3 && !HasExpired(c, now)
    ensures v == Authenticated ==> PayloadHasSubject(ParseJwt(c.clerkToken, decode))
  {
    if c.clerkToken == "" || c.clerkUserId == "" then NoCredentials
    else if |Segments(c.clerkToken)| != 3 then MalformedToken
    else if HasExpired(c, now) then ExpiredToken
    else if !PayloadHasSubject(ParseJwt(c.clerkToken, decode)) then InvalidPayload
    else Authenticated
  }

  /** The state reported for a verdict: only success carries data, and that data is the
      stored user id and token, never the payload's `sub`. */
  function StateOf(c: Config, v: Verdict): (s: AuthState)
    ensures s.isAuthenticated <==> v == Authenticated
    ensures !s.isAuthenticated ==> s == Unauthenticated
    ensures s.isAuthenticated ==> s.userId == Some(c.clerkUserId) && s.token == Some(c.clerkToken)
    ensures s.isAuthenticated ==>
      s.expiresAt == (if c.clerkTokenExpiresAt == 0 then None else Some(c.clerkTokenExpiresAt))
  {
    if v == Authenticated then
      AuthState(true, Some(c.clerkUserId), Some(c.clerkToken),
        if c.clerkTokenExpiresAt == 0 then None else Some(c.clerkTokenExpiresAt))
    else Unauthenticated
  }

  /** Order-free statement of what a usable credential is. */
  predicate UsableCredentials(c: Config, now: int, decode: Decoder) {
    && c.clerkToken != ""
    && c.clerkUserId != ""
    && |Segments(c.clerkToken)| == 3
    && !HasExpired(c, now)
    && PayloadHasSubject(ParseJwt(c.clerkToken, decode))
  }

  /** The evaluator authenticates exactly the usable credentials, and clears exactly the
      present but unusable ones. */
  lemma EvaluateCharacterized(c: Config, now: int, decode: Decoder)
    ensures Evaluate(c, now, decode) == Authenticated <==> UsableCredentials(c, now, decode)
    ensures Clears(Evaluate(c, now, decode)) <==>
      c.clerkToken != "" && c.clerkUserId != "" && !UsableCredentials(c, now, decode)
  {
  }

  /** The checks run in order: a malformed token is reported as such whatever its expiry and
      payload, and an expired well-formed token whatever its payload. */
  lemma EvaluateOrder(c: Config, now: int, decode: Decoder)
    requires c.clerkToken != "" && c.clerkUserId != ""
    ensures |Segments(c.clerkToken)| != 3 ==> Evaluate(c, now, decode) == MalformedToken
    ensures |Segments(c.clerkToken)| == 3 && HasExpired(c, now) ==> Evaluate(c, now, decode) == ExpiredToken
  {
  }

  /** A token whose expiry equals `now` has not expired. */
  lemma ExpiryBoundaryPasses(c: Config, decode: Decoder)
    requires c.clerkToken != "" && c.clerkUserId != "" && |Segments(c.clerkToken)| == 3
    ensures Evaluate(c, c.clerkTokenExpiresAt, decode) != ExpiredToken
  {
  }

  /** A compact token with a decodable payload carrying a truthy `sub`, together with a stored
      user id, authenticates until its expiry, and reports the stored user id. */
  lemma CompactTokenAuthenticates(c: Config, header: string, payload: string, signature: string,
                                  now: int, decode: Decoder)
    requires '.' !in header && '.' !in payload && '.' !in signature && payload != ""
    requires c.clerkToken == Compact(header, payload, signature) && c.clerkUserId != ""
    requires decode(payload).Some? && decode(payload).value.JObject?
    requires "sub" in decode(payload).value.fields && Truthy(decode(payload).value.fields["sub"])
    requires c.clerkTokenExpiresAt == 0 || now <= c.clerkTokenExpiresAt
    ensures Evaluate(c, now, decode) == Authenticated
    ensures StateOf(c, Evaluate(c, now, decode)).userId == Some(c.clerkUserId)
  {
    SegmentsOfCompact(header, payload, signature);
    ParseJwtOfCompact(header, payload, signature, decode);
  }

  /** A stored token without a stored user id is reported unauthenticated and left in the
      store: the evaluator does not keep the two fields paired. */
  lemma HalfCredentialsKept(data: Store, now: int, decode: Decoder)
    requires ReadConfig(data).clerkToken != "" && ReadConfig(data).clerkUserId == ""
    ensures Evaluate(ReadConfig(data), now, decode) == NoCredentials
    ensures !Clears(Evaluate(ReadConfig(data), now, decode))
  {
  }

  /** `getAuthState`: evaluates the stored configuration, clearing the stored authentication
      on the three failure paths after the presence check. */
  method GetAuthState(store: SyncStore, now: int, decode: Decoder) returns (state: AuthState)
    modifies store
    ensures state == StateOf(ReadConfig(old(store.data)), Evaluate(ReadConfig(old(store.data)), now, decode))
    ensures store.data == (if Clears(Evaluate(ReadConfig(old(store.data)), now, decode))
                           then WithoutAuth(old(store.data)) else old(store.data))
  {
    var config := store.GetConfig();
    if config.clerkToken == "" || config.clerkUserId == "" {
      return Unauthenticated;
    }
    var tokenParts := Segments(config.clerkToken);
    if |tokenParts| != 3 {
      store.ClearAuthData();
      return Unauthenticated;
    }
    if config.clerkTokenExpiresAt != 0 && now > config.clerkTokenExpiresAt {
      store.ClearAuthData();
      return Unauthenticated;
    }
    var tokenPayload := ParseJwt(config.clerkToken, decode);
    if !PayloadHasSubject(tokenPayload) {
      store.ClearAuthData();
      return Unauthenticated;
    }
    state := AuthState(true, Some(config.clerkUserId), Some(config.clerkToken),
      if config.clerkTokenExpiresAt == 0 then None else Some(config.clerkTokenExpiresAt));
  }

  /** `isAuthenticated`: the flag of `getAuthState`, with the same effect on the store. */
  method IsAuthenticated(store: SyncStore, now: int, decode: Decoder) returns (b: bool)
    modifies store
    ensures b == StateOf(ReadConfig(old(store.data)), Evaluate(ReadConfig(old(store.data)), now, decode)).isAuthenticated
    ensures store.data == (if Clears(Evaluate(ReadConfig(old(store.data)), now, decode))
                           then WithoutAuth(old(store.data)) else old(store.data))
  {
    var state := GetAuthState(store, now, decode);
    b := state.isAuthenticated;
  }

  /** `getToken`: the token of `getAuthState`, with the same effect on the store. */
  method GetToken(store: SyncStore, now: int, decode: Decoder) returns (token: Option<string>)
    modifies store
    ensures token == StateOf(ReadConfig(old(store.data)), Evaluate(ReadConfig(old(store.data)), now, decode)).token
    ensures store.data == (if Clears(Evaluate(ReadConfig(old(store.data)), now, decode))
                           then WithoutAuth(old(store.data)) else old(store.data))
  {
    var state := GetAuthState(store, now, decode);
    token := state.token;
  }
}
