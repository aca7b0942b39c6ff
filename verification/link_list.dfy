/**
 * The dashboard's link list: the address of the API query it loads, built from its props
 * with `set` and `append` calls, and the authorised fetcher that loads it. The client's time
 * zone is a parameter (`None` when it cannot be resolved).
 */
module LinkList {
  import opened Wrappers
  import opened SearchParams
  import Numbers
  import LinkFilters
  import DashboardFetch

  const LinksPath: string := "/api/links?"
  const FailurePrefix: string := "Failed to fetch links: "

  /** The limit the list asks for: the prop, 50 when it is absent. */
  function RequestedLimit(props: LinkFilters.ListProps): int {
    props.limit.GetOr(LinkFilters.DefaultLimit)
  }

  /** The pairs the list sets before the tags: `limit` always and first, then the truthy
      text props in the order from, to, domain. */
  function HeadParams(props: LinkFilters.ListProps): Params {
    [("limit", Numbers.IntToString(RequestedLimit(props)))]
      + LinkFilters.OptionalPair("from", props.from.GetOr(""))
      + LinkFilters.OptionalPair("to", props.to.GetOr(""))
      + LinkFilters.OptionalPair("domain", props.domain.GetOr(""))
  }

  /** The pairs after the head: one `tag` per tag, then the time zone when it resolved. */
  function TailParams(props: LinkFilters.ListProps, tz: Option<string>): Params {
    LinkFilters.TagPairs(props.tags.GetOr([])) + LinkFilters.OptionalPair("tz", tz.GetOr(""))
  }

  /** The query of the list's request. */
  function ListQuery(props: LinkFilters.ListProps, tz: Option<string>): Params {
    HeadParams(props) + TailParams(props, tz)
  }

  /** `apiUrl`: no address without an API base, otherwise the base, the path and the query. */
  function ListUrl(apiBase: string, props: LinkFilters.ListProps, tz: Option<string>): Option<string> {
    if apiBase == "" then None else Some(apiBase + LinksPath + Serialize(ListQuery(props, tz)))
  }

  /** Builds `apiUrl` with `set` and `append` calls, as the component does. */
  method ApiUrl(apiBase: string, props: LinkFilters.ListProps, tz: Option<string>) returns (url: Option<string>)
    ensures url == ListUrl(apiBase, props, tz)
  {
    if apiBase == "" {
      return None;
    }
    var params := SetLimitAndRange(props);
    var head := params;
    if props.tags.Some? && |props.tags.value| > 0 {
      params := LinkFilters.AppendTags(params, props.tags.value);
    }
    assert params == head + LinkFilters.TagPairs(props.tags.GetOr([]));
    NoTimeZoneBeforeIt(head, props);
    params := LinkFilters.SetWhenPresent(params, "tz", tz.GetOr(""));
    assert params == head + TailParams(props, tz);
    url := Some(apiBase + LinksPath + Serialize(params));
  }

  /** The first `set` calls of `apiUrl`: the limit, then the date range and the domain. */
  method SetLimitAndRange(props: LinkFilters.ListProps) returns (params: Params)
    ensures params == HeadParams(props)
    ensures !HasName(params, "tz")
  {
    var limit := Numbers.IntToString(RequestedLimit(props));
    params := [];
    params := Set(params, "limit", limit);
    assert |"from"| == 4 && |"to"| == 2 && |"domain"| == 6 && |"limit"| == 5 && |"tz"| == 2 && |"tag"| == 3;
    HasNameOne("limit", limit, "from");
    HasNameOne("limit", limit, "to");
    HasNameOne("limit", limit, "domain");
    HasNameOne("limit", limit, "tz");
    params := LinkFilters.SetWhenPresent(params, "from", props.from.GetOr(""));
    params := LinkFilters.SetWhenPresent(params, "to", props.to.GetOr(""));
    params := LinkFilters.SetWhenPresent(params, "domain", props.domain.GetOr(""));
  }

  /** The pairs before the time zone do not hold one. */
  lemma NoTimeZoneBeforeIt(head: Params, props: LinkFilters.ListProps)
    requires !HasName(head, "tz")
    ensures !HasName(head + LinkFilters.TagPairs(props.tags.GetOr([])), "tz")
  {
    var tags := LinkFilters.TagPairs(props.tags.GetOr([]));
    LinkFilters.TagPairsValues(props.tags.GetOr([]));
    assert "tz" != "tag" by {
      assert |"tz"| == 2 && |"tag"| == 3;
    }
    assert Get(tags, "tz").None?;
    HasNameAppend(head, tags, "tz");
  }

  /** What a lookup in the head pairs finds. */
  function HeadValue(props: LinkFilters.ListProps, name: string): Option<string> {
    if name == "limit" then Some(Numbers.IntToString(RequestedLimit(props)))
    else if name == "from" then LinkFilters.NonEmptyOrAbsent(props.from.GetOr(""))
    else if name == "to" then LinkFilters.NonEmptyOrAbsent(props.to.GetOr(""))
    else if name == "domain" then LinkFilters.NonEmptyOrAbsent(props.domain.GetOr(""))
    else None
  }

  lemma {:induction false} HeadLookup(props: LinkFilters.ListProps, name: string)
    ensures Get(HeadParams(props), name) == HeadValue(props, name)
  {
    var l := [("limit", Numbers.IntToString(RequestedLimit(props)))];
    var a := LinkFilters.OptionalPair("from", props.from.GetOr(""));
    var b := LinkFilters.OptionalPair("to", props.to.GetOr(""));
    var c := LinkFilters.OptionalPair("domain", props.domain.GetOr(""));
    LinkFilters.GetFirstAppend(l + a + b, c, name);
    LinkFilters.GetFirstAppend(l + a, b, name);
    LinkFilters.GetFirstAppend(l, a, name);
    assert |"from"| == 4 && |"to"| == 2 && |"domain"| == 6 && |"limit"| == 5;
  }

  /** What a lookup in the tail pairs finds. */
  lemma {:induction false} TailLookup(props: LinkFilters.ListProps, tz: Option<string>, name: string)
    ensures name != "tag" ==>
              Get(TailParams(props, tz), name) == (if name == "tz" then LinkFilters.NonEmptyOrAbsent(tz.GetOr("")) else None)
    ensures GetAll(TailParams(props, tz), "tag") == props.tags.GetOr([])
  {
    var tags := props.tags.GetOr([]);
    var z := LinkFilters.OptionalPair("tz", tz.GetOr(""));
    LinkFilters.TagPairsValues(tags);
    LinkFilters.GetFirstAppend(LinkFilters.TagPairs(tags), z, name);
    GetAllAppend(LinkFilters.TagPairs(tags), z, "tag");
    assert |"tz"| == 2 && |"tag"| == 3;
    if z != [] {
      assert z[1..] == [];
    }
  }

  /** A lookup of a name other than `tag` finds the head's value, or the time zone. */
  lemma {:induction false} NamedLookup(props: LinkFilters.ListProps, tz: Option<string>, name: string)
    requires name != "tag"
    ensures Get(ListQuery(props, tz), name)
         == (if name == "tz" then LinkFilters.NonEmptyOrAbsent(tz.GetOr("")) else HeadValue(props, name))
  {
    HeadLookup(props, name);
    TailLookup(props, tz, name);
    LinkFilters.GetFirstAppend(HeadParams(props), TailParams(props, tz), name);
    assert |"from"| == 4 && |"to"| == 2 && |"domain"| == 6 && |"limit"| == 5 && |"tz"| == 2;
  }

  /** The query the list sends: `limit` first and always, each truthy text prop and the
      resolved time zone under its own name, and exactly the tags, in order, as `tag`. */
  lemma ListQueryLookup(props: LinkFilters.ListProps, tz: Option<string>)
    ensures ListQuery(props, tz)[0] == ("limit", Numbers.IntToString(RequestedLimit(props)))
    ensures Get(ListQuery(props, tz), "limit") == Some(Numbers.IntToString(RequestedLimit(props)))
    ensures Get(ListQuery(props, tz), "from") == LinkFilters.NonEmptyOrAbsent(props.from.GetOr(""))
    ensures Get(ListQuery(props, tz), "to") == LinkFilters.NonEmptyOrAbsent(props.to.GetOr(""))
    ensures Get(ListQuery(props, tz), "domain") == LinkFilters.NonEmptyOrAbsent(props.domain.GetOr(""))
    ensures Get(ListQuery(props, tz), "tz") == LinkFilters.NonEmptyOrAbsent(tz.GetOr(""))
    ensures GetAll(ListQuery(props, tz), "tag") == props.tags.GetOr([])
  {
    assert |"from"| == 4 && |"to"| == 2 && |"domain"| == 6 && |"limit"| == 5 && |"tz"| == 2 && |"tag"| == 3;
    NamedLookup(props, tz, "limit");
    NamedLookup(props, tz, "from");
    NamedLookup(props, tz, "to");
    NamedLookup(props, tz, "domain");
    NamedLookup(props, tz, "tz");
    HeadLookup(props, "tag");
    TailLookup(props, tz, "tag");
    GetAllAppend(HeadParams(props), TailParams(props, tz), "tag");
  }

  /** `fetcher`: the authorised GET of the list's address. */
  function FetchLinks(url: string, token: DashboardFetch.TokenRead, reply: DashboardFetch.Reply): (r: DashboardFetch.Outcome)
    ensures r == DashboardFetch.AuthorizedGet(url, token, reply, FailurePrefix)
    ensures r.request.Some? ==> r.request.value.url == url
  {
    DashboardFetch.AuthorizedGet(url, token, reply, FailurePrefix)
  }

  /** What the list loads: nothing is fetched when there is no address (SWR's key is null). */
  function LoadLinks(apiBase: string, props: LinkFilters.ListProps, tz: Option<string>,
                     token: DashboardFetch.TokenRead, reply: DashboardFetch.Reply): (r: Option<DashboardFetch.Outcome>)
    ensures r.None? <==> apiBase == ""
    ensures r.Some? && r.value.request.Some? ==>
      r.value.request.value.url == apiBase + LinksPath + Serialize(ListQuery(props, tz))
  {
    match ListUrl(apiBase, props, tz)
    case None => None
    case Some(url) => Some(FetchLinks(url, token, reply))
  }
}
