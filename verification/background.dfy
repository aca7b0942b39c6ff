/**
 * The extension's background worker: the context-menu "save link" click and the runtime
 * message dispatcher. URL parsing, the clock, the random generator and the network reply are
 * parameters.
 */
module Background {
  import opened Wrappers
  import opened JsValues
  import opened ExtensionStorage
  import opened ExtensionApi
  import AuthBridge

  const ContextMenuId: string := "quicklinks-save-link"
  const SavedToastMessage: string := "Link saved!"
  const SaveLinkType: string := "SAVE_LINK"
  const GetConfigType: string := "GET_CONFIG"

  /** The click information: absent strings are "". */
  datatype ClickInfo = ClickInfo(menuItemId: string, linkUrl: string, selectionText: string, pageUrl: string)

  /** The tab the click happened in, when there is one; an absent URL is "". */
  datatype Tab = Tab(url: string, id: Option<int>)

  /** A toast request sent to a tab. */
  datatype Toast = Toast(tabId: int, message: string, success: bool)

  /** URL parsing: the hostname, or the message of the thrown error. */
  type UrlParser = string -> Result<string, string>

  /** The effects of one click: the store it leaves, the request it made, the toast it sent. */
  datatype ClickEffect = ClickEffect(store: Store, request: Option<HttpRequest>, toast: Option<Toast>)

  /** `tab?.url || info.pageUrl || ""`. */
  function PageUrl(info: ClickInfo, tab: Option<Tab>): (page: string)
    ensures tab.Some? && tab.value.url != "" ==> page == tab.value.url
    ensures (tab.None? || tab.value.url == "") ==> page == info.pageUrl
  {
    if tab.Some? && tab.value.url != "" then tab.value.url else info.pageUrl
  }

  /** `info.selectionText || new URL(linkUrl).hostname`; the URL is parsed only when there is
      no selection. */
  function LinkTitle(info: ClickInfo, parseUrl: UrlParser): (r: Result<string, string>)
    ensures info.selectionText != "" ==> r == Success(info.selectionText)
    ensures info.selectionText == "" ==> r == parseUrl(info.linkUrl)
  {
    if info.selectionText != "" then Success(info.selectionText) else parseUrl(info.linkUrl)
  }

  /** `tab?.id` is truthy. */
  predicate HasTabId(tab: Option<Tab>) {
    tab.Some? && tab.value.id.Some? && tab.value.id.value != 0
  }

  /** The toast for a save result, sent only to a tab with an id. */
  function ToastFor(tab: Option<Tab>, result: Result<Json, string>): (t: Option<Toast>)
    ensures t.Some? <==> HasTabId(tab)
    ensures t.Some? ==> t.value.tabId == tab.value.id.value && (t.value.success <==> result.Success?)
    ensures t.Some? && result.Success? ==> t.value.message == SavedToastMessage
    ensures t.Some? && result.Failure? ==> t.value.message == result.error
  {
    if !HasTabId(tab) then None
    else match result
      case Success(_) => Some(Toast(tab.value.id.value, SavedToastMessage, true))
      case Failure(message) => Some(Toast(tab.value.id.value, message, false))
  }

  /** The whole click handler: other menu items and clicks without a link do nothing; otherwise
      the user identifier is ensured, and a title failure or the save's result becomes a toast. */
  function MenuClick(data: Store, info: ClickInfo, tab: Option<Tab>, now: nat, randomPart: string,
                     parseUrl: UrlParser, reply: Reply): (e: ClickEffect)
    ensures info.menuItemId != ContextMenuId || info.linkUrl == "" ==> e == ClickEffect(data, None, None)
    ensures e.request.Some? ==> e.request.value.body.url == info.linkUrl
    ensures e.request.Some? ==> e.request.value.body.page == PageUrl(info, tab)
    ensures e.request.Some? ==> LinkTitle(info, parseUrl) == Success(e.request.value.body.title)
    ensures e.toast.Some? ==> HasTabId(tab)
  {
    if info.menuItemId != ContextMenuId || info.linkUrl == "" then ClickEffect(data, None, None)
    else
      var ensured := EnsureIdentifier(data, now, randomPart);
      var page := PageUrl(info, tab);
      match LinkTitle(info, parseUrl)
      case Failure(message) => ClickEffect(ensured.store, None, ToastFor(tab, Failure(message)))
      case Success(title) =>
        var request := SaveLinkRequest(info.linkUrl, title, page, None, Some(ensured.id), None);
        var outcome := SaveLink(ReadConfig(ensured.store), request, reply);
        ClickEffect(ensured.store, outcome.request, ToastFor(tab, outcome.result))
  }

  /** A save through the menu always carries the user identifier that the store then holds. */
  lemma MenuSaveCarriesIdentifier(data: Store, info: ClickInfo, tab: Option<Tab>, now: nat, randomPart: string,
                                  parseUrl: UrlParser, reply: Reply)
    ensures var e := MenuClick(data, info, tab, now, randomPart, parseUrl, reply);
      e.request.Some? ==> e.request.value.body.userIdentifier == Some(ReadConfig(e.store).userIdentifier)
  {
  }

  /** A click on a link with a configured secret makes exactly one request, and its toast
      reports the reply. */
  lemma MenuSaveToastMatchesReply(data: Store, info: ClickInfo, tab: Option<Tab>, now: nat, randomPart: string,
                                  parseUrl: UrlParser, reply: Reply)
    requires info.menuItemId == ContextMenuId && info.linkUrl != "" && info.selectionText != ""
    requires ReadConfig(data).sharedSecret != "" && HasTabId(tab)
    ensures var e := MenuClick(data, info, tab, now, randomPart, parseUrl, reply);
      e.request.Some? && e.toast.Some? && (e.toast.value.success <==> reply.OkReply?)
  {
    var ensured := EnsureIdentifier(data, now, randomPart);
    assert ReadConfig(ensured.store).sharedSecret == ReadConfig(data).sharedSecret by {
      assert SharedSecretKey != UserIdentifierKey;
    }
  }

  /** A runtime message as the dispatcher reads it. */
  datatype Message = Message(msgType: string, url: string, title: string, page: string, note: Option<string>)

  /** A response sent back to the message's sender. */
  datatype Response =
    | SaveResponse(success: bool, id: Option<Json>, error: Option<string>)
    | ConfigResponse(config: Config)

  /** `handleSaveLinkMessage`: every outcome becomes a response. A `null` ok body makes reading
      its `id` throw, which the handler reports like a failed save. */
  function SaveLinkResponse(config: Config, id: string, m: Message, reply: Reply): (r: Response)
    ensures r.SaveResponse?
    ensures r.success <==> config.sharedSecret != "" && reply.OkReply? && !reply.body.JNull?
    ensures r.success ==> r.id == Property(Some(reply.body), "id") && r.error.None?
    ensures !r.success ==> r.id.None? && r.error.Some?
    ensures config.sharedSecret != "" && reply == OkReply(JNull) ==> r.error == Some(NullPropertyError("id"))
    ensures var outcome := SaveLink(config, SaveLinkRequest(m.url, m.title, m.page, m.note, Some(id), None), reply);
      outcome.result.Failure? ==> r.error == Some(outcome.result.error)
  {
    var outcome := SaveLink(config, SaveLinkRequest(m.url, m.title, m.page, m.note, Some(id), None), reply);
    match outcome.result
    case Success(body) =>
      if body.JNull? then SaveResponse(false, None, Some(NullPropertyError("id")))
      else SaveResponse(true, Property(Some(body), "id"), None)
    case Failure(message) => SaveResponse(false, None, Some(message))
  }

  /** The dispatcher: `SAVE_LINK` and `GET_CONFIG` are answered, every other type is not. */
  method OnMessage(store: SyncStore, m: Message, now: nat, randomPart: string, reply: Reply)
    returns (response: Option<Response>)
    modifies store
    ensures m.msgType != SaveLinkType && m.msgType != GetConfigType ==>
      response.None? && store.data == old(store.data)
    ensures m.msgType == AuthBridge.SaveAuthType ==> response.None?
    ensures m.msgType == GetConfigType ==>
      response == Some(ConfigResponse(ReadConfig(old(store.data)))) && store.data == old(store.data)
    ensures m.msgType == SaveLinkType ==>
      var ensured := EnsureIdentifier(old(store.data), now, randomPart);
      && store.data == ensured.store
      && response == Some(SaveLinkResponse(ReadConfig(ensured.store), ensured.id, m, reply))
  {
    if m.msgType == SaveLinkType {
      var id := store.EnsureUserIdentifier(now, randomPart);
      var config := store.GetConfig();
      return Some(SaveLinkResponse(config, id, m, reply));
    }
    if m.msgType == GetConfigType {
      var config := store.GetConfig();
      return Some(ConfigResponse(config));
    }
    return None;
  }

  /** The context-menu click handler over the extension's store. */
  method OnMenuClick(store: SyncStore, info: ClickInfo, tab: Option<Tab>, now: nat, randomPart: string,
                     parseUrl: UrlParser, reply: Reply)
    returns (request: Option<HttpRequest>, toast: Option<Toast>)
    modifies store
    ensures ClickEffect(store.data, request, toast)
         == MenuClick(old(store.data), info, tab, now, randomPart, parseUrl, reply)
  {
    if info.menuItemId != ContextMenuId || info.linkUrl == "" {
      return None, None;
    }
    var userIdentifier := store.EnsureUserIdentifier(now, randomPart);
    var pageUrl := PageUrl(info, tab);
    var linkText := LinkTitle(info, parseUrl);
    if linkText.Failure? {
      return None, ToastFor(tab, Failure(linkText.error));
    }
    var config := store.GetConfig();
    var outcome := SaveLink(config, SaveLinkRequest(info.linkUrl, linkText.value, pageUrl, None, Some(userIdentifier), None), reply);
    request := outcome.request;
    toast := ToastFor(tab, outcome.result);
  }
}
