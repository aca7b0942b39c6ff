/**
 * The content script that relays the dashboard's authentication message to the extension's
 * background: a chain of guards over a window `message` event, then one runtime message.
 */
module AuthBridge {
  import opened Wrappers
  import opened JsValues

  const ExtensionAuthType: string := "QUICKLINKS_EXTENSION_AUTH"
  const SaveAuthType: string := "QUICKLINKS_SAVE_AUTH"

  /** A window `message` event: whether its source is this window, its origin, and its data
      (`None` for `undefined`). */
  datatype MessageEvent = MessageEvent(fromThisWindow: bool, origin: string, data: Option<Json>)

  /** The runtime message sent to the background. `userId` is passed through as received. */
  datatype SaveAuthMessage = SaveAuthMessage(token: string, userId: Option<Json>)

  /** The guard that stopped an event, or the message it produced. */
  datatype Relay =
    | FromOtherSource
    | NotAnObject
    | WrongType
    | WrongOrigin
    | MissingToken
    | Forward(message: SaveAuthMessage)

  /** The guard chain, in its order; `windowOrigin` is `window.location.origin`. */
  function RelayOf(ev: MessageEvent, windowOrigin: string): (r: Relay)
    ensures !ev.fromThisWindow ==> r == FromOtherSource
    ensures r.Forward? ==> r.message.token != ""
    ensures r.Forward? ==> Property(ev.data, "token") == Some(JString(r.message.token))
    ensures r.Forward? ==> r.message.userId == Property(ev.data, "userId")
  {
    if !ev.fromThisWindow then FromOtherSource
    else if !TruthyOpt(ev.data) || !IsObjectType(ev.data.value) then NotAnObject
    else if Property(ev.data, "type") != Some(JString(ExtensionAuthType)) then WrongType
    else if ev.origin != windowOrigin then WrongOrigin
    else
      var token := Property(ev.data, "token");
      if token.None? || !token.value.JString? || token.value.s == "" then MissingToken
      else Forward(SaveAuthMessage(token.value.s, Property(ev.data, "userId")))
  }

  /** Order-free statement of what the bridge accepts. */
  predicate Acceptable(ev: MessageEvent, windowOrigin: string) {
    && ev.fromThisWindow
    && ev.data.Some? && ev.data.value.JObject?
    && "type" in ev.data.value.fields && ev.data.value.fields["type"] == JString(ExtensionAuthType)
    && ev.origin == windowOrigin
    && "token" in ev.data.value.fields && ev.data.value.fields["token"].JString?
    && ev.data.value.fields["token"].s != ""
  }

  /** An event is forwarded exactly when it is acceptable, and then carries its token and
      user id. */
  lemma RelayForwardsIffAcceptable(ev: MessageEvent, windowOrigin: string)
    ensures RelayOf(ev, windowOrigin).Forward? <==> Acceptable(ev, windowOrigin)
    ensures Acceptable(ev, windowOrigin) ==>
      RelayOf(ev, windowOrigin).message
        == SaveAuthMessage(ev.data.value.fields["token"].s, Property(ev.data, "userId"))
  {
  }

  /** A message of the right type from a foreign origin is dropped, whatever its token. */
  lemma ForeignOriginDropped(ev: MessageEvent, windowOrigin: string)
    requires ev.fromThisWindow && ev.data.Some? && ev.data.value.JObject?
    requires Property(ev.data, "type") == Some(JString(ExtensionAuthType))
    requires ev.origin != windowOrigin
    ensures RelayOf(ev, windowOrigin) == WrongOrigin
  {
  }

  /** The listener installed by the content script, with the runtime messages it has sent. */
  class BridgeListener {
    var sent: seq<SaveAuthMessage>

    constructor ()
      ensures sent == []
    {
      sent := [];
    }

    /** Handles one event. Whether the runtime then delivers the message makes no difference
        here: a failure is only logged, and the message, sent once, is not retried. */
    method OnMessage(ev: MessageEvent, windowOrigin: string)
      modifies this
      ensures RelayOf(ev, windowOrigin).Forward? ==> sent == old(sent) + [RelayOf(ev, windowOrigin).message]
      ensures !RelayOf(ev, windowOrigin).Forward? ==> sent == old(sent)
    {
      var r := RelayOf(ev, windowOrigin);
      if r.Forward? {
        sent := sent + [r.message];
      }
    }
  }
}
