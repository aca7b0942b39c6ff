/**
 * The three authenticated API routes: saving a link (`POST /api/links`), listing the caller's
 * links (`GET /api/links`) and fetching page metadata for a URL (`GET /api/og`). Each handler
 * returns its reply instead of writing it to the request context. Its I/O outcomes are
 * parameters:
 * - the decoded request body;
 * - `url.Parse`, as `host`, which gives `None` for a parse error and the host otherwise;
 * - the metadata fetch;
 * - the database statement.
 */
module LinksHandler {
  import opened Wrappers
  import opened JsValues
  import Text
  import Numbers
  import SearchParams
  import MetadataService
  import LinkMapper
  import LinkRepository

  const Unauthorized: int := 401
  const BadRequest: int := 400
  const InternalError: int := 500
  const Ok: int := 200

  const MinLimit: int := 1
  const MaxLimit: int := 100
  const DefaultLimit: int := 50
  const DefaultLimitText: string := "50"

  /** `model.LinkCreateRequest`. `tags` is `None` when the body has no tag list. */
  datatype CreateRequest = CreateRequest(
    url: string,
    title: string,
    pageUrl: string,
    note: string,
    userIdentifier: string,
    tags: Option<seq<string>>)

  /** A handler's reply: a JSON body with a status, or the 200 reply carrying a link list. */
  datatype Reply = JsonReply(status: int, body: Json) | LinksReply(links: seq<LinkMapper.Link>)

  function Error(status: int, message: string): Reply {
    JsonReply(status, JObject(map["error" := JString(message)]))
  }

  function ErrorWithDetail(status: int, message: string, detail: string): Reply {
    JsonReply(status, JObject(map["error" := JString(message), "detail" := JString(detail)]))
  }

  // ---------------------------------------------------------------------------------------
  // POST /api/links

  /** `ShouldBindJSON`: the decoding outcome, then the `binding:"required"` checks on the URL,
      the title and the page, whose message is `validationError`. */
  function Bind(decoded: Result<CreateRequest, string>, validationError: string): (r: Result<CreateRequest, string>)
    ensures r.Success? <==> decoded.Success? && decoded.value.url != "" && decoded.value.title != "" && decoded.value.pageUrl != ""
    ensures r.Success? ==> r.value == decoded.value
  {
    match decoded
    case Failure(e) => Failure(e)
    case Success(req) =>
      if req.url == "" || req.title == "" || req.pageUrl == "" then Failure(validationError) else Success(req)
  }

  /** The host with one leading `www.` removed. */
  function DomainOf(host: string): (d: string)
    ensures Text.HasPrefix(host, "www.") ==> host == "www." + d
    ensures !Text.HasPrefix(host, "www.") ==> d == host
  {
    Text.TrimPrefix(host, "www.")
  }

  /** The title the insert stores: the metadata title replaces a missing title or one that is
      only the URL, when the fetch succeeded with a non-empty title. */
  function StoredTitle(req: CreateRequest, meta: Result<MetadataService.Meta, string>): string {
    if meta.Success? && (req.title == "" || req.title == req.url) && meta.value.title != "" then meta.value.title
    else req.title
  }

  /** The values of the insert statement. */
  function InsertedValues(userId: string, req: CreateRequest, host: string, meta: Result<MetadataService.Meta, string>)
    : LinkRepository.CreateLinkInput
  {
    LinkRepository.CreateLinkInput(
      userId, req.url, StoredTitle(req, meta),
      if meta.Success? then meta.value.description else "",
      DomainOf(host),
      if meta.Success? then meta.value.image else "",
      req.pageUrl, req.note,
      Some(req.tags.GetOr([])),
      None)
  }

  /** What a save stores: the authenticated user rather than the body's `user_identifier`,
      the request's URL, page and note, a tag list even when the body had none, and metadata
      fields only from a successful fetch; a failed fetch does not stop the save. */
  lemma InsertedProperties(userId: string, req: CreateRequest, host: string, meta: Result<MetadataService.Meta, string>)
    ensures var v := InsertedValues(userId, req, host, meta);
      && v.userId == userId && v.url == req.url && v.pageUrl == req.pageUrl && v.note == req.note
      && v.tags == Some(if req.tags.Some? then req.tags.value else [])
      && (meta.Failure? ==> v.title == req.title && v.description == "" && v.ogImage == "")
      && (meta.Success? ==> v.description == meta.value.description && v.ogImage == meta.value.image)
      && v.publishedAt.None?
    ensures InsertedValues(userId, req, host, meta).title != req.title <==>
      meta.Success? && meta.value.title != "" && meta.value.title != req.title && (req.title == "" || req.title == req.url)
  {
  }

  /** A bound request has a title, so only a title equal to the URL is ever replaced. */
  lemma BoundTitleReplacedOnlyWhenUrl(decoded: Result<CreateRequest, string>, validationError: string, meta: Result<MetadataService.Meta, string>)
    requires Bind(decoded, validationError).Success?
    ensures var req := Bind(decoded, validationError).value;
      StoredTitle(req, meta) != req.title ==> req.title == req.url
  {
  }

  /** A domain never keeps the single `www.` the handler strips, unless the host repeats it. */
  lemma DomainDropsOneWww(host: string)
    ensures Text.HasPrefix(DomainOf(host), "www.") ==> Text.HasPrefix(host, "www.www.")
  {
    var d := DomainOf(host);
    if Text.HasPrefix(d, "www.") && Text.HasPrefix(host, "www.") {
      assert host[..8] == "www." + d[..4];
    }
  }

  /** `CreateLink`. `row` is the insert's values when the insert is attempted, and `fetched`
      the URL whose metadata is fetched. */
  method CreateLink(
    userId: string,
    decoded: Result<CreateRequest, string>, validationError: string,
    host: string -> Option<string>,
    meta: Result<MetadataService.Meta, string>,
    insert: Result<string, string>)
    returns (reply: Reply, fetched: Option<string>, row: Option<LinkRepository.CreateLinkInput>)
    ensures userId == "" ==> reply == Error(Unauthorized, "unauthorized") && fetched.None? && row.None?
    ensures userId != "" && Bind(decoded, validationError).Failure? ==>
      reply == ErrorWithDetail(BadRequest, "invalid request", Bind(decoded, validationError).error) && fetched.None? && row.None?
    ensures userId != "" && Bind(decoded, validationError).Success? ==>
      var req := Bind(decoded, validationError).value;
      && (host(req.url).None? || host(req.url).value == "" ==> reply == Error(BadRequest, "invalid url") && fetched.None? && row.None?)
      && (host(req.url).Some? && host(req.url).value != "" ==>
        && fetched == Some(req.url)
        && row == Some(InsertedValues(userId, req, host(req.url).value, meta))
        && (insert.Failure? ==> reply == ErrorWithDetail(InternalError, "failed to insert link", insert.error))
        && (insert.Success? ==> reply == JsonReply(Ok, JObject(map["id" := JString(insert.value)]))))
  {
    fetched, row := None, None;
    if userId == "" {
      return Error(Unauthorized, "unauthorized"), fetched, row;
    }
    var bound := Bind(decoded, validationError);
    if bound.Failure? {
      return ErrorWithDetail(BadRequest, "invalid request", bound.error), fetched, row;
    }
    var req := bound.value;
    var parsed := host(req.url);
    if parsed.None? || parsed.value == "" {
      return Error(BadRequest, "invalid url"), fetched, row;
    }
    var domain := DomainOf(parsed.value);
    var description, ogImage := "", "";
    fetched := Some(req.url);
    if meta.Success? {
      description := meta.value.description;
      ogImage := meta.value.image;
      if req.title == "" || req.title == req.url {
        if meta.value.title != "" {
          req := req.(title := meta.value.title);
        }
      }
    }
    var tags := req.tags;
    if tags.None? {
      tags := Some([]);
    }
    row := Some(LinkRepository.CreateLinkInput(userId, req.url, req.title, description, domain, ogImage,
      req.pageUrl, req.note, tags, None));
    if insert.Failure? {
      reply := ErrorWithDetail(InternalError, "failed to insert link", insert.error);
    } else {
      reply := JsonReply(Ok, JObject(map["id" := JString(insert.value)]));
    }
  }

  // ---------------------------------------------------------------------------------------
  // GET /api/links

  /** The page size: the `limit` query value (default "50") read by `strconv.Atoi`; an
      unreadable value or one outside [1, 100] gives 50. */
  function LimitOf(query: SearchParams.Params): (n: int)
    ensures MinLimit <= n <= MaxLimit
  {
    var text := SearchParams.Get(query, "limit").GetOr(DefaultLimitText);
    match Numbers.GoAtoi(text)
    case Some(v) => if v < MinLimit || v > MaxLimit then DefaultLimit else v
    case None => DefaultLimit
  }

  /** A `limit` in range, written in decimal, is taken as is; an absent one is 50. */
  lemma LimitOfDecimal(query: SearchParams.Params, n: int)
    requires MinLimit <= n <= MaxLimit
    requires SearchParams.Get(query, "limit") == Some(Numbers.IntToString(n))
    ensures LimitOf(query) == n
  {
    Numbers.ParseDecimalOfIntToString(n);
  }

  lemma LimitOfAbsent(query: SearchParams.Params)
    requires SearchParams.Get(query, "limit").None?
    ensures LimitOf(query) == DefaultLimit
  {
    assert Numbers.ParseDecimal(DefaultLimitText) == Some(50) by {
      Numbers.ParseDecimalOfIntToString(50);
      assert Numbers.IntToString(50) == DefaultLimitText by {
        assert Numbers.NatToString(50) == Numbers.NatToString(5) + [Numbers.DigitChar(0)];
      }
    }
  }

  /** The rows that scanned, in the order the query returned them. */
  function Scanned(scans: seq<Result<LinkMapper.Link, string>>): (links: seq<LinkMapper.Link>)
    ensures |links| <= |scans|
  {
    if scans == [] then []
    else
      var last := scans[|scans| - 1];
      Scanned(scans[..|scans| - 1]) + (if last.Success? then [last.value] else [])
  }

  /** A row that fails to scan is skipped; every other row is kept, in order. */
  lemma {:induction false} ScannedMembers(scans: seq<Result<LinkMapper.Link, string>>, l: LinkMapper.Link)
    ensures l in Scanned(scans) <==> Success(l) in scans
    decreases |scans|
  {
    if scans != [] {
      var init := scans[..|scans| - 1];
      ScannedMembers(init, l);
      assert scans == init + [scans[|scans| - 1]];
    }
  }

  lemma {:induction false} ScannedAllSucceeded(scans: seq<Result<LinkMapper.Link, string>>)
    requires forall i | 0 <= i < |scans| :: scans[i].Success?
    ensures |Scanned(scans)| == |scans|
    decreases |scans|
  {
    if scans != [] {
      ScannedAllSucceeded(scans[..|scans| - 1]);
    }
  }

  /** The `rows.Next()` loop. */
  method CollectScanned(scans: seq<Result<LinkMapper.Link, string>>) returns (links: seq<LinkMapper.Link>)
    ensures links == Scanned(scans)
  {
    links := [];
    for i := 0 to |scans|
      invariant links == Scanned(scans[..i])
    {
      assert scans[..i + 1][..i] == scans[..i];
      if scans[i].Success? {
        links := links + [scans[i].value];
      }
    }
    assert scans[..|scans|] == scans;
  }

  /** `GetLinks`. `dbQuery` is the user and limit the query is run with, and `rows` its
      outcome: an error, or each returned row's scan. The query filters by user only: over a
      table `t` it returns `LinkRepository.Selected(t, userId, f)` for a filter `f` with no
      date, domain or tag condition and limit `LimitOf(query)`, except that it leaves the order
      of rows with the same effective time unspecified. */
  method GetLinks(userId: string, query: SearchParams.Params, rows: Result<seq<Result<LinkMapper.Link, string>>, string>)
    returns (reply: Reply, dbQuery: Option<(string, int)>)
    ensures userId == "" ==> reply == Error(Unauthorized, "unauthorized") && dbQuery.None?
    ensures userId != "" ==> dbQuery == Some((userId, LimitOf(query)))
    ensures userId != "" && rows.Failure? ==> reply == Error(InternalError, "failed to fetch links")
    ensures userId != "" && rows.Success? ==> reply == LinksReply(Scanned(rows.value))
  {
    if userId == "" {
      return Error(Unauthorized, "unauthorized"), None;
    }
    var limitText := SearchParams.Get(query, "limit").GetOr(DefaultLimitText);
    var limit: int;
    var parsed := Numbers.GoAtoi(limitText);
    if parsed.None? || parsed.value < MinLimit || parsed.value > MaxLimit {
      limit := DefaultLimit;
    } else {
      limit := parsed.value;
    }
    dbQuery := Some((userId, limit));
    if rows.Failure? {
      return Error(InternalError, "failed to fetch links"), dbQuery;
    }
    var links := CollectScanned(rows.value);
    reply := LinksReply(links);
  }

  // ---------------------------------------------------------------------------------------
  // GET /api/og

  /** The body of a successful `GetOGP`. `Metadata` has no publication date, so `date` is
      null. */
  function OgBody(m: MetadataService.Meta): Json {
    JObject(map["title" := JString(m.title), "description" := JString(m.description),
      "image" := JString(m.image), "date" := JNull])
  }

  /** `GetOGP`: `url` is required and must have a host; a failed fetch is a 500. */
  function GetOgp(query: SearchParams.Params, host: string -> Option<string>, meta: Result<MetadataService.Meta, string>)
    : (r: (Reply, Option<string>))
    ensures var target := SearchParams.Get(query, "url").GetOr("");
      && (target == "" ==> r == (Error(BadRequest, "url is required"), None))
      && (target != "" && (host(target).None? || host(target).value == "") ==> r == (Error(BadRequest, "invalid url"), None))
      && (target != "" && host(target).Some? && host(target).value != "" ==> r.1 == Some(target))
    ensures r.0.JsonReply? && r.0.status == Ok <==> r.1.Some? && meta.Success?
    ensures r.0.JsonReply? && r.0.status == Ok ==> r.0.body == OgBody(meta.value)
  {
    var target := SearchParams.Get(query, "url").GetOr("");
    if target == "" then (Error(BadRequest, "url is required"), None)
    else
      var parsed := host(target);
      if parsed.None? || parsed.value == "" then (Error(BadRequest, "invalid url"), None)
      else if meta.Failure? then (Error(InternalError, "failed to fetch metadata"), Some(target))
      else (JsonReply(Ok, OgBody(meta.value)), Some(target))
  }

  /** The metadata reply never carries the `blocked` flag the service computes. */
  lemma OgBodyHasNoBlocked(m: MetadataService.Meta)
    ensures OgBody(m).JObject? && "blocked" !in OgBody(m).fields
  {
    assert |"blocked"| == 7 && |"title"| == 5 && |"description"| == 11 && |"image"| == 5 && |"date"| == 4;
  }
}
