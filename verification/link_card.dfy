/**
 * The two link cards of the dashboard: the current card, which loads the page's OGP data
 * through the authorised API, and the older card, which loads it through the dashboard's own
 * route. Both show the same fallbacks, so the display functions below serve both. `encode` is
 * `encodeURIComponent`, a parameter of the model.
 */
module LinkCards {
  import opened Wrappers
  import opened JsValues
  import DashboardFetch

  const OgPath: string := "/api/og?url="
  const NoTitle: string := "No Title"
  const FailurePrefix: string := "Failed to fetch metadata: "

  /** A saved link as the API returns it. */
  datatype LinkItem = LinkItem(
    id: string,
    url: string,
    title: string,
    description: string,
    domain: string,
    ogImage: string,
    pageUrl: string,
    note: string,
    tags: seq<string>,
    userId: string,
    savedAt: string,
    publishedAt: Option<string>)

  /** The OGP data a card loads; members may be missing from the response. */
  datatype OgData = OgData(
    title: Option<string>,
    description: Option<string>,
    image: Option<string>,
    blocked: Option<Json>)

  /** `a || b` for an optional string: `a` when it is present and non-empty, else `b`. */
  function Or(a: Option<string>, b: string): (r: string)
    ensures a.Some? && a.value != "" ==> r == a.value
    ensures !(a.Some? && a.value != "") ==> r == b
  {
    if a.Some? && a.value != "" then a.value else b
  }

  function OgTitle(og: Option<OgData>): Option<string> {
    if og.Some? then og.value.title else None
  }

  function OgDescription(og: Option<OgData>): Option<string> {
    if og.Some? then og.value.description else None
  }

  function OgImage(og: Option<OgData>): Option<string> {
    if og.Some? then og.value.image else None
  }

  /** The image shown: the live image, else the stored one. */
  function DisplayImage(og: Option<OgData>, link: LinkItem): (image: string)
    ensures image == link.ogImage || (OgImage(og).Some? && image == OgImage(og).value)
    ensures image == "" <==> (OgImage(og).None? || OgImage(og).value == "") && link.ogImage == ""
  {
    Or(OgImage(og), link.ogImage)
  }

  /** The description shown: the live description, else the stored one. */
  function DisplayDescription(og: Option<OgData>, link: LinkItem): (desc: string)
    ensures desc == link.description || (OgDescription(og).Some? && desc == OgDescription(og).value)
    ensures desc == "" <==> (OgDescription(og).None? || OgDescription(og).value == "") && link.description == ""
  {
    Or(OgDescription(og), link.description)
  }

  /** The title shown: the live title, else the stored one, else `No Title`; never empty. */
  function DisplayTitle(og: Option<OgData>, link: LinkItem): (title: string)
    ensures title != ""
    ensures OgTitle(og).Some? && OgTitle(og).value != "" ==> title == OgTitle(og).value
    ensures (OgTitle(og).None? || OgTitle(og).value == "") && link.title != "" ==> title == link.title
    ensures (OgTitle(og).None? || OgTitle(og).value == "") && link.title == "" ==> title == NoTitle
  {
    Or(Some(Or(OgTitle(og), link.title)), NoTitle)
  }

  /** `!!ogData?.blocked`: the notice shows exactly when the loaded data says blocked. */
  predicate ShowBlockedNotice(og: Option<OgData>) {
    og.Some? && TruthyOpt(og.value.blocked)
  }

  /** `apiUrl` of the current card: only with both an API base and a link address. */
  function OgApiUrl(apiBase: string, link: LinkItem, encode: string -> string): (r: Option<string>)
    ensures r.None? <==> apiBase == "" || link.url == ""
    ensures r.Some? ==> r.value == apiBase + OldOgKey(link, encode)
  {
    if apiBase != "" && link.url != "" then Some(apiBase + OgPath + encode(link.url)) else None
  }

  /** `ogFetcher` of the current card: the authorised GET of the OGP address. */
  function FetchOg(url: string, token: DashboardFetch.TokenRead, reply: DashboardFetch.Reply): (r: DashboardFetch.Outcome)
    ensures r == DashboardFetch.AuthorizedGet(url, token, reply, FailurePrefix)
  {
    DashboardFetch.AuthorizedGet(url, token, reply, FailurePrefix)
  }

  /** The SWR key of the older card: the dashboard's own OGP route, for every link. */
  function OldOgKey(link: LinkItem, encode: string -> string): (key: string)
    ensures |key| >= |OgPath| && key[..|OgPath|] == OgPath && key[|OgPath|..] == encode(link.url)
  {
    OgPath + encode(link.url)
  }
}
