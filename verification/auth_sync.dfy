/**
 * The dashboard's authentication publisher: while the user is signed in, it posts the
 * session token to the page (once immediately, then every five minutes) for the extension's
 * bridge to pick up; teardown cancels it. The interval and the asynchronous token fetch are
 * explicit events.
 */
module AuthSync {
  import opened Wrappers
  import opened JsValues
  import AuthBridge

  const SyncSource: string := "quicklinks-web"
  const SyncIntervalMs: nat := 5 * 60 * 1000

  /** The message posted to the window. `apiBaseUrl` is absent when it is not configured. */
  datatype SyncMessage = SyncMessage(token: string, userId: string, apiBaseUrl: Option<string>)

  /** A posted message with the target origin it was posted to. */
  datatype Posted = Posted(message: SyncMessage, targetOrigin: string)

  /** What the asynchronous token request gives: a token, no token, or a thrown error. */
  datatype TokenOutcome = Token(value: string) | NoToken | TokenError

  /** The message as the page sees it. */
  function MessageData(m: SyncMessage): Json {
    JObject(
      map["source" := JString(SyncSource),
          "type" := JString(AuthBridge.ExtensionAuthType),
          "token" := JString(m.token),
          "userId" := JString(m.userId)]
      + (if m.apiBaseUrl.Some? then map["apiBaseUrl" := JString(m.apiBaseUrl.value)] else map[]))
  }

  /** `NEXT_PUBLIC_WEB_ORIGIN || window.location.origin`. */
  function TargetOrigin(configuredOrigin: string, windowOrigin: string): (o: string)
    ensures configuredOrigin != "" ==> o == configuredOrigin
    ensures configuredOrigin == "" ==> o == windowOrigin
  {
    if configuredOrigin != "" then configuredOrigin else windowOrigin
  }

  /** Whether a completed token request leads to a post: a non-empty token, a non-empty user
      id and a live effect. */
  predicate Publishes(outcome: TokenOutcome, userId: string, cancelled: bool) {
    outcome.Token? && outcome.value != "" && userId != "" && !cancelled
  }

  /** `window.postMessage` on the page's own window, as section 9.3.3 ("Posting messages") of
      the HTML Standard has it: the message is delivered only when its target origin is `*`,
      `/` or the window's own origin, and then arrives as an event from this window with the
      window's origin. Any other target origin drops the message silently. */
  function Delivered(p: Posted, windowOrigin: string): (ev: Option<AuthBridge.MessageEvent>)
    ensures ev.Some? <==> p.targetOrigin == "*" || p.targetOrigin == "/" || p.targetOrigin == windowOrigin
    ensures ev.Some? ==> ev.value.fromThisWindow && ev.value.origin == windowOrigin
    ensures ev.Some? ==> ev.value.data == Some(MessageData(p.message))
  {
    if p.targetOrigin == "*" || p.targetOrigin == "/" || p.targetOrigin == windowOrigin then
      Some(AuthBridge.MessageEvent(true, windowOrigin, Some(MessageData(p.message))))
    else None
  }

  /** A posted message reaches the page exactly when no other web origin is configured: left
      unset, the target is the window's own origin. */
  lemma PostReachesPage(m: SyncMessage, configuredOrigin: string, windowOrigin: string)
    ensures Delivered(Posted(m, TargetOrigin(configuredOrigin, windowOrigin)), windowOrigin).Some?
        <==> configuredOrigin in {"", "*", "/", windowOrigin}
  {
  }

  /** Every message the publisher posts that is delivered passes the bridge's checks, and the
      bridge forwards its token and user id. */
  lemma PublishedMessageRelayed(p: Posted, windowOrigin: string)
    requires p.message.token != ""
    ensures var ev := Delivered(p, windowOrigin);
      ev.Some? ==>
        AuthBridge.RelayOf(ev.value, windowOrigin)
          == AuthBridge.Forward(AuthBridge.SaveAuthMessage(p.message.token, Some(JString(p.message.userId))))
  {
    var data := MessageData(p.message);
    assert "type" in data.fields && data.fields["type"] == JString(AuthBridge.ExtensionAuthType);
    assert "token" in data.fields && data.fields["token"] == JString(p.message.token);
    assert "userId" in data.fields && data.fields["userId"] == JString(p.message.userId);
  }

  /** One run of the effect: its `cancelled` flag, its interval, the token requests still in
      flight, and the messages it has posted. */
  class SyncEffect {
    const signedIn: bool
    const userId: string
    const apiBaseUrl: Option<string>
    const targetOrigin: string
    var cancelled: bool
    var interval: Option<nat>
    var inFlight: nat
    var posted: seq<Posted>

    /** A stopped effect never starts anything again, and a signed-out one never starts. */
    predicate Valid()
      reads this
    {
      && (cancelled ==> interval.None?)
      && (!signedIn ==> interval.None? && inFlight == 0 && posted == [])
      && (interval.Some? ==> interval.value == SyncIntervalMs)
    }

    /** Mounting: when signed in, one sync starts at once and the five-minute interval is
        created; otherwise nothing happens. */
    constructor Mount(signedIn: bool, userId: string, apiBaseUrl: Option<string>,
                      configuredOrigin: string, windowOrigin: string)
      ensures Valid()
      ensures this.signedIn == signedIn && this.userId == userId && this.apiBaseUrl == apiBaseUrl
      ensures targetOrigin == TargetOrigin(configuredOrigin, windowOrigin)
      ensures !cancelled && posted == []
      ensures signedIn ==> interval == Some(SyncIntervalMs) && inFlight == 1
      ensures !signedIn ==> interval == None && inFlight == 0
    {
      this.signedIn := signedIn;
      this.userId := userId;
      this.apiBaseUrl := apiBaseUrl;
      targetOrigin := TargetOrigin(configuredOrigin, windowOrigin);
      cancelled := false;
      posted := [];
      if signedIn {
        inFlight := 1;
        interval := Some(SyncIntervalMs);
      } else {
        inFlight := 0;
        interval := None;
      }
    }

    /** The interval fires: another sync starts, if the interval still exists. */
    method Tick()
      requires Valid()
      modifies this
      ensures Valid()
      ensures inFlight == old(inFlight) + (if interval.Some? then 1 else 0)
      ensures cancelled || !signedIn ==> inFlight == old(inFlight)
      ensures interval == old(interval) && cancelled == old(cancelled) && posted == old(posted)
    {
      if interval.Some? {
        inFlight := inFlight + 1;
      }
    }

    /** A token request completes. The message is posted only for a non-empty token while the
        effect is live; a thrown error is caught and posts nothing. */
    method CompleteSync(outcome: TokenOutcome)
      requires Valid() && inFlight > 0
      modifies this
      ensures Valid()
      ensures inFlight == old(inFlight) - 1
      ensures interval == old(interval) && cancelled == old(cancelled)
      ensures Publishes(outcome, userId, cancelled) ==>
        posted == old(posted) + [Posted(SyncMessage(outcome.value, userId, apiBaseUrl), targetOrigin)]
      ensures !Publishes(outcome, userId, cancelled) ==> posted == old(posted)
      ensures cancelled ==> posted == old(posted)
    {
      inFlight := inFlight - 1;
      match outcome {
        case TokenError =>
        case NoToken =>
        case Token(token) =>
          if token == "" || userId == "" || cancelled {
            return;
          }
          posted := posted + [Posted(SyncMessage(token, userId, apiBaseUrl), targetOrigin)];
      }
    }

    /** Teardown: sets `cancelled` and clears the interval. */
    method Teardown()
      requires Valid()
      modifies this
      ensures Valid()
      ensures cancelled && interval.None?
      ensures inFlight == old(inFlight) && posted == old(posted)
    {
      cancelled := true;
      interval := None;
    }
  }
}
