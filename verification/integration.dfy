/**
 * How the dashboard and the API fit together: the header the dashboard sends is the one the
 * middleware accepts, the page size it asks for is the one the API uses, and the metadata
 * reply of the API is what the link card reads.
 */
module Integration {
  import opened Wrappers
  import opened JsValues
  import Text
  import LinkFilters
  import LinkList
  import LinkCards
  import DashboardFetch
  import AuthMiddleware
  import LinksHandler
  import MetadataService

  /** The dashboard's `Bearer <token>` header gets the verdict of its token alone. */
  lemma DashboardHeaderAccepted(url: string, token: DashboardFetch.TokenRead, reply: DashboardFetch.Reply, prefix: string,
                                verify: string -> Result<string, string>)
    requires DashboardFetch.HasToken(token)
    ensures var request := DashboardFetch.AuthorizedGet(url, token, reply, prefix).request;
      request.Some? && AuthMiddleware.Decide(request.value.authorization, verify) == AuthMiddleware.TokenDecision(token.value.value, verify)
  {
    var scheme := "Bearer";
    assert Text.AsciiLower(scheme) == "bearer" by {
      Text.AsciiLowerAt(scheme, 0);
      assert Text.AsciiLower(scheme)[0] == 'b';
    }
    assert DashboardFetch.BearerPrefix + token.value.value == scheme + " " + token.value.value;
    AuthMiddleware.SchemeThenToken(scheme, token.value.value, verify);
  }

  /** A page size in [1, 100] that the list asks for is the one the API queries with; the
      default of both sides is 50. */
  lemma ListLimitHonoured(props: LinkFilters.ListProps, tz: Option<string>)
    requires LinksHandler.MinLimit <= LinkList.RequestedLimit(props) <= LinksHandler.MaxLimit
    ensures LinksHandler.LimitOf(LinkList.ListQuery(props, tz)) == LinkList.RequestedLimit(props)
  {
    LinkList.ListQueryLookup(props, tz);
    LinksHandler.LimitOfDecimal(LinkList.ListQuery(props, tz), LinkList.RequestedLimit(props));
  }

  /** The limits of the links page always reach the API unchanged. */
  lemma PageLimitHonoured(a: LinkFilters.ActiveFilters, tz: Option<string>)
    requires LinkFilters.MinLimit <= a.limit <= LinkFilters.MaxLimit
    ensures LinksHandler.LimitOf(LinkList.ListQuery(LinkFilters.ListPropsOf(a), tz)) == a.limit
  {
    ListLimitHonoured(LinkFilters.ListPropsOf(a), tz);
  }

  /** A string member of a JSON object, as the card reads it. */
  function StringMember(body: Json, key: string): (r: Option<string>)
    ensures r.Some? ==> Property(Some(body), key) == Some(JString(r.value))
  {
    match Property(Some(body), key)
    case Some(JString(s)) => Some(s)
    case _ => None
  }

  /** The card's view of a metadata reply body. */
  function OgDataOf(body: Json): LinkCards.OgData {
    LinkCards.OgData(StringMember(body, "title"), StringMember(body, "description"),
      StringMember(body, "image"), Property(Some(body), "blocked"))
  }

  /** The card shows the API's title, description and image, but never the blocked notice:
      the reply has no `blocked` member even when the service found a bot challenge. */
  lemma OgReplyAsShown(m: MetadataService.Meta)
    ensures var og := OgDataOf(LinksHandler.OgBody(m));
      && og.title == Some(m.title) && og.description == Some(m.description) && og.image == Some(m.image)
      && !LinkCards.ShowBlockedNotice(Some(og))
  {
    LinksHandler.OgBodyHasNoBlocked(m);
  }
}
