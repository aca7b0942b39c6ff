# QuickLinks in Dafny

QuickLinks saves links from the browser into a personal list. It has three parts:

- **The browser extension.** It saves a link in one of two ways. One is a long press on a link, through the content script's floating save button. The other is the context menu. The extension then posts the link to the API. It keeps its configuration and the dashboard's sign-in token in synced extension storage. A small bridge script relays the token that the dashboard publishes on its own window.
- **The Go API.** A bearer-token middleware puts the user id on the request. The handlers create a link, list the user's links and fetch a page's OGP metadata. The metadata service scrapes the page, with a reader proxy as fallback, and then sanitises what it found. The repository inserts links and lists them with filters, in a fixed order, up to a limit. A mapper turns the stored rows into API objects. The configuration and the CORS policy come from the environment.
- **The Next.js dashboard.** It publishes the sign-in token to the extension. It holds the filter forms, which keep their state in the URL query. Its link list and link cards fetch through the API with the bearer token.

The model takes each source file in the form the file has:

- **Pure logic** becomes datatypes, functions and lemmas. This covers token parsing, guard chains, URL building, tag parsing, badges, sanitising, filtering and ordering, and the handler decisions.
- **State changed step by step** becomes classes with `modifies` clauses. This covers:
  - the storage area;
  - the content script's module state;
  - the auth-sync effect;
  - the bridge listener;
  - the filter forms;
  - the gin context;
  - the link table;
  - the mutable metadata record.
- **Loops in the source** become methods with loop invariants. Each is proved equal to a recursive specification function. Lemmas then state what the source promises about that function.

Calls into code that is not modelled become parameters:

- the JWT payload decoder;
- `url.Parse`'s host;
- `encodeURIComponent`;
- the Clerk verifier;
- the URL check of the sanitiser.

Outcomes of I/O also become parameters: fetch replies, token requests, database results and the clock.

Where the code and its intended design differ, the code is followed:

- `model.Link` declares `UserIdentifier`, but `mapper.go` and the `GetLinks` scan assign `UserID`. Both are modelled as the one field `userIdentifier`.
- `CreateLink` reads `meta.PublishedAt` and `GetOGP` returns it as `"date"`, but `Metadata` has no such field. The inserted `publishedAt` is therefore `None`, and `"date"` is `null`.
- `GetOGP` returns no `blocked` member. The current link card's "blocked" notice therefore never shows (`Integration.OgReplyAsShown`).
- `GetLinks` ignores the list filters and orders by effective time only. The repository's `ListLinks` applies the filters and orders ties by `saved_at` and then `id`.
- `auth.ts` reads `clerkToken`, `clerkUserId` and `clerkTokenExpiresAt` from the configuration. The `getConfig` shown in `storage.ts` returns only three fields. The model's configuration reads all six keys.
- `getAuthState` clears the stored credentials for a malformed, expired or unreadable token. It does not clear them when only one of the token and the user id is set (`ExtensionAuth.HalfCredentialsKept`).

## Model

| member | source | states |
|---|---|---|
| ExtensionStorage.TextOr | extension/src/storage.ts:23-25 | a stored non-empty text is read back, anything else gives the default |
| ExtensionStorage.ReadConfig | extension/src/storage.ts:11-27 | each field is its stored non-empty text or the default; the API base URL is never empty |
| ExtensionStorage.WithoutAuth | extension/src/auth.ts:36-40 | exactly the three Clerk keys are removed, every other entry is kept |
| ExtensionStorage.WithoutAuthReadsEmpty | extension/src/auth.ts:36-40 | after clearing, the Clerk fields read empty or zero and the three extension settings are unchanged |
| ExtensionStorage.GeneratedIdentifier | extension/src/storage.ts:48-50 | a generated identifier starts with `ext_` |
| ExtensionStorage.EnsureIdentifier | extension/src/storage.ts:41-53 | the identifier is non-empty and is what the store then reads; an existing one is returned and the store is untouched |
| ExtensionStorage.EnsureIdentifierIdempotent | extension/src/storage.ts:42-45 | ensuring twice gives the first identifier and store, whatever the clock and randomness |
| ExtensionStorage.SyncStore.constructor | extension/src/storage.ts:20-21 | the store starts with the given entries |
| ExtensionStorage.SyncStore.GetConfig | extension/src/storage.ts:20-27 | returns `ReadConfig` of the current entries |
| ExtensionStorage.SyncStore.SaveConfig | extension/src/storage.ts:32-36 | the given keys are overwritten and all other entries are kept |
| ExtensionStorage.SyncStore.ClearAuthData | extension/src/auth.ts:36-40 | the entries become `WithoutAuth` of the old ones |
| ExtensionStorage.SyncStore.EnsureUserIdentifier | extension/src/storage.ts:41-53 | the identifier and new entries are those of `EnsureIdentifier` |
| ExtensionAuth.ParseJwt | extension/src/auth.ts:111-128 | no payload for fewer than two segments or an empty second segment; a payload is the decoder's result on the second segment |
| ExtensionAuth.SegmentsOfCompact | extension/src/auth.ts:35-36 | a dot-free header, payload and signature joined by dots split back into those three |
| ExtensionAuth.ParseJwtOfCompact | extension/src/auth.ts:111-128 | parsing a compact token decodes exactly its payload segment |
| ExtensionAuth.Evaluate | extension/src/auth.ts:24-89 | the verdict is "no credentials" exactly when token or user id is empty; the malformed, expired and invalid-payload verdicts imply their conditions |
| ExtensionAuth.StateOf | extension/src/auth.ts:84-89 | authenticated exactly for the authenticated verdict, and then carries the stored user id and token |
| ExtensionAuth.EvaluateCharacterized | extension/src/auth.ts:24-89 | authenticated iff both credentials are present, the token has three segments, it has not expired and its payload has a truthy `sub`; the stored credentials are cleared iff the token is malformed, expired or has no readable subject |
| ExtensionAuth.EvaluateOrder | extension/src/auth.ts:35-60 | the segment count is checked before the expiry |
| ExtensionAuth.ExpiryBoundaryPasses | extension/src/auth.ts:50-52 | a token is not expired at exactly its expiry time |
| ExtensionAuth.CompactTokenAuthenticates | extension/src/auth.ts:24-89 | a well-formed unexpired token with a truthy subject authenticates the stored user |
| ExtensionAuth.HalfCredentialsKept | extension/src/auth.ts:24-32 | a token without a user id reads as signed out and nothing is cleared |
| ExtensionAuth.GetAuthState | extension/src/auth.ts:13-90 | returns the state of the verdict and clears the stored credentials exactly when the verdict calls for it |
| ExtensionAuth.IsAuthenticated | extension/src/auth.ts:95-98 | the state's `isAuthenticated`, with the same clearing |
| ExtensionAuth.GetToken | extension/src/auth.ts:103-106 | the state's token, with the same clearing |
| AuthBridge.RelayOf | extension/src/web-auth-bridge.ts:5-62 | other windows are ignored first; a forwarded message carries the event's non-empty string token and its `userId` as received |
| AuthBridge.RelayForwardsIffAcceptable | extension/src/web-auth-bridge.ts:7-37 | forwarded iff same window, object data, the auth type, the page's own origin and a non-empty string token |
| AuthBridge.ForeignOriginDropped | extension/src/web-auth-bridge.ts:23-29 | a message of the right type from another origin is dropped whatever its token |
| AuthBridge.BridgeListener.constructor | extension/src/web-auth-bridge.ts:5 | nothing has been sent |
| AuthBridge.BridgeListener.OnMessage | extension/src/web-auth-bridge.ts:39-61 | exactly the relayed message is sent, once; nothing else is sent (a failed delivery is only logged) |
| AuthSync.TargetOrigin | web/src/components/ExtensionAuthSync.tsx:35-36 | the configured origin when set, the window's own otherwise |
| AuthSync.Delivered | web/src/components/ExtensionAuthSync.tsx:35-38 | the posted message reaches the page iff its target origin is `*`, `/` or the window's own origin, and then comes from this window with the window's origin |
| AuthSync.PostReachesPage | web/src/components/ExtensionAuthSync.tsx:35-38 | the dashboard's message reaches its own page iff the configured web origin is unset, `*`, `/` or the page's own origin |
| AuthSync.PublishedMessageRelayed | web/src/components/ExtensionAuthSync.tsx:27-38 | every message the dashboard posts that is delivered is forwarded by the bridge with its token and user id |
| AuthSync.SyncEffect.Mount | web/src/components/ExtensionAuthSync.tsx:11-48 | when signed in, one sync starts and the five-minute interval exists; when signed out, nothing starts |
| AuthSync.SyncEffect.Tick | web/src/components/ExtensionAuthSync.tsx:48 | a live interval starts one more sync; a torn-down or signed-out effect starts none |
| AuthSync.SyncEffect.CompleteSync | web/src/components/ExtensionAuthSync.tsx:18-42 | one message to the target origin is posted exactly for a non-empty token, a non-empty user id and a live effect; errors post nothing |
| AuthSync.SyncEffect.Teardown | web/src/components/ExtensionAuthSync.tsx:50-53 | the effect is cancelled and its interval cleared, so later completions post nothing |
| ExtensionApi.ErrorMessage | extension/src/api.ts:48-53 | an unreadable body gives "Unknown error"; a `null` body gives the `TypeError` of reading `error` of null; a truthy string `error` is the message; otherwise `HTTP <status>` |
| ExtensionApi.SaveLink | extension/src/api.ts:28-56 | no request and the setup error without a secret; otherwise one POST to `/api/links` with the secret header and the request as body; success iff the response is ok and its body parses, with that body returned; otherwise the parser's message, the error message or the network error is thrown |
| Background.PageUrl | extension/src/background.ts:35 | the tab's URL when non-empty, else the click's page URL |
| Background.LinkTitle | extension/src/background.ts:38 | the selection when non-empty, else the parsed URL's hostname or its parse error |
| Background.ToastFor | extension/src/background.ts:47-66 | a toast only for a tab with an id, successful exactly for a successful save, with the saved text or the error's message |
| Background.MenuClick | extension/src/background.ts:24-68 | other items and clicks without a link do nothing; a request carries the link, the page and the chosen title; toasts go only to tabs with ids |
| Background.MenuSaveCarriesIdentifier | extension/src/background.ts:34-45 | a menu save carries the user identifier the store then holds |
| Background.MenuSaveToastMatchesReply | extension/src/background.ts:33-66 | with a secret, a selection and a tab id, one request is made and the toast's success is the reply's |
| Background.SaveLinkResponse | extension/src/background.ts:87-109 | success iff a secret is set and the reply is ok with a non-null body, then with the body's `id`; a `null` body gives the `TypeError` of reading `id` of null; any thrown message of the save is the error; a failure has no id |
| Background.OnMessage | extension/src/background.ts:71-85 | `SAVE_LINK` ensures the identifier and answers the save; `GET_CONFIG` answers the configuration unchanged; every other type, the auth relay's included, gets no answer and changes nothing |
| Background.OnMenuClick | extension/src/background.ts:24-68 | the request, toast and new store are those of `MenuClick` |
| ContentScript.FindLinkElement | extension/src/content-script.ts:72-86 | a link exactly when the target is an element inside an anchor whose `href` is non-empty, not `#` and not a `javascript:` URL |
| ContentScript.ButtonLeft | extension/src/content-script.ts:101-112 | centred on the press when that fits; never left of the padding; never past the right margin when the viewport has room |
| ContentScript.ButtonTop | extension/src/content-script.ts:101-116 | above the press when that fits; never above the padding; never past the bottom margin when the viewport has room |
| ContentScript.ButtonInsideViewport | extension/src/content-script.ts:105-116 | in a viewport with room, the whole button lies inside it, padding from every edge |
| ContentScript.LinkTitle | extension/src/content-script.ts:173 | the trimmed link text when non-empty, else the `href` |
| ContentScript.ToastFor | extension/src/content-script.ts:177-185 | "saved" on success; the background's error or the generic failure otherwise |
| ContentScript.CaptureController.constructor | extension/src/content-script.ts:12-15 | no timer, no button, no target, nothing sent or shown |
| ContentScript.CaptureController.CancelLongPress | extension/src/content-script.ts:204-209 | the pending timer is cleared and forgotten; nothing else changes |
| ContentScript.CaptureController.StartLongPress | extension/src/content-script.ts:193-199 | exactly one timer is pending, for this press |
| ContentScript.CaptureController.RemoveSaveButton | extension/src/content-script.ts:144-150 | no button in the page and no target |
| ContentScript.CaptureController.ShowSaveButton | extension/src/content-script.ts:91-139 | styles injected; the only button is a new one at `ButtonLeft`/`ButtonTop` for this link; an auto-hide timer is armed for it |
| ContentScript.CaptureController.TouchStart | extension/src/content-script.ts:212-220 | a touch on a link starts the long press: the one pending press at the touch point, with a new remembered timer; otherwise nothing changes |
| ContentScript.CaptureController.MouseDown | extension/src/content-script.ts:231-239 | as a touch, at the pointer, but only for the main button |
| ContentScript.CaptureController.TouchEnd | extension/src/content-script.ts:222-224 | cancels the long press |
| ContentScript.CaptureController.TouchMove | extension/src/content-script.ts:226-228 | cancels the long press |
| ContentScript.CaptureController.MouseUp | extension/src/content-script.ts:241-243 | cancels the long press |
| ContentScript.CaptureController.MouseMove | extension/src/content-script.ts:245-247 | cancels the long press |
| ContentScript.CaptureController.LongPressFires | extension/src/content-script.ts:196-198 | the pending press's button is shown at its position for its link |
| ContentScript.CaptureController.AutoHideFires | extension/src/content-script.ts:134-138 | an auto-hide timer removes the button only if that button is still the current one |
| ContentScript.CaptureController.DocumentClick | extension/src/content-script.ts:250-255 | a click outside the save button removes it; a click on it keeps it |
| ContentScript.CaptureController.SaveClick | extension/src/content-script.ts:155-175 | without a target and a button nothing happens; otherwise one `SAVE_LINK` with the link's URL, title and page is sent |
| ContentScript.CaptureController.SaveFinishes | extension/src/content-script.ts:177-187 | the toast of the reply is shown and the button removed |
| ContentScript.CaptureController.ToastMessage | extension/src/content-script.ts:258-262 | a toast message is shown, with kind `info` when none is given; other messages are ignored |
| Numbers.IntToString | web/src/components/links/LinksFilterPanel.tsx:74 | non-empty, and all digits exactly for non-negative numbers |
| Numbers.ParseDecimalOfIntToString | web/src/app/links/LinksPageClient.tsx:33-34 | reading back a printed integer gives it back |
| Numbers.JsNumberOfIntToString | web/src/components/links/LinksPageClient.tsx:20-21 | `Number(String(n))` is `n` |
| Numbers.GoAtoi | api/internal/handler/links.go:141 | a parsed value lies in the 64-bit range and is the decimal reading of the text |
| SearchParams.Get | web/src/components/links/LinksPageClient.tsx:12-14 | absent iff no pair has the name; a value is one paired with the name |
| SearchParams.GetAllValues | web/src/components/links/LinksPageClient.tsx:15-16 | `getAll` returns exactly the values paired with the name |
| SearchParams.GetIsFirstOfAll | web/src/components/links/LinksPageClient.tsx:12-16 | `get` is the first value of `getAll` |
| SearchParams.Set | web/src/components/links/LinksFilterPanel.tsx:74-78 | afterwards the name has exactly the one value; other names keep their values; a new name is appended |
| SearchParams.Route | web/src/components/links/LinksFilterPanel.tsx:83-84 | the bare base for an empty query, else base, `?` and the query |
| LinkFilters.DedupeSpec | web/src/components/links/LinksFilterPanel.tsx:17-26 | the `Set` step keeps each value once, in first-occurrence order, and loses none |
| LinkFilters.DedupeOfDistinct | web/src/components/links/LinksFilterPanel.tsx:18-25 | distinct values pass unchanged |
| LinkFilters.ParseTagsInputSpec | web/src/components/links/LinksFilterPanel.tsx:17-26 | the tags are distinct, non-empty and trimmed, and are exactly the non-empty pieces between commas and white space |
| LinkFilters.ParseTagsOfJoined | web/src/components/links/LinksFilterPanel.tsx:39 | parsing tags joined by ", " gives the tags back, repeats dropped |
| LinkFilters.ParseTagsIdempotent | web/src/app/links/LinksPageClient.tsx:9-18 | parsing the joined result of a parse changes nothing |
| LinkFilters.ClampLimit | web/src/components/links/LinksPageClient.tsx:20-24 | the limit lies in 1..100; a non-finite number gives 50; a number in range is kept |
| LinkFilters.DefaultLimitText | web/src/components/links/LinksPageClient.tsx:20 | the printed default is "50" |
| LinkFilters.ActiveTagsClean | web/src/components/links/LinksPageClient.tsx:15-18 | the active tags are exactly the non-empty trimmed `tag` values |
| LinkFilters.ActiveLimit | web/src/components/links/LinksPageClient.tsx:20-24 | the active limit lies in 1..100 and is 50 without a `limit` |
| LinkFilters.ListPropsOf | web/src/components/links/LinksPageClient.tsx:39-45 | the list receives the limit, and each text filter or tag list only when non-empty |
| LinkFilters.OptionalPair | web/src/components/links/LinksFilterPanel.tsx:76-78 | a pair only for a non-empty input |
| LinkFilters.LimitPair | web/src/components/links/LinksFilterPanel.tsx:74 | no pair for the default limit, else the printed limit |
| LinkFilters.BuildFilterParams | web/src/components/links/LinksFilterPanel.tsx:70-81 | the query `applyFilters` builds is `FilterParams` |
| LinkFilters.FilterRoute | web/src/components/links/LinksFilterPanel.tsx:70-84 | the address is the route of `FilterParams` |
| LinkFilters.SetTextFilters | web/src/components/links/LinksFilterPanel.tsx:71-78 | the limit and text pairs built by the `set` calls |
| LinkFilters.SetWhenPresent | web/src/components/links/LinksFilterPanel.tsx:76-78 | the optional pair is appended and other names are untouched |
| LinkFilters.AppendTags | web/src/components/links/LinksFilterPanel.tsx:80-81 | one `tag` pair per tag, in order |
| LinkFilters.ApplyThenDerive | web/src/app/links/LinksPageClient.tsx:24-75 | deriving the filters from the applied query gives back the limit, the non-empty text inputs and the parsed tags |
| LinkFilters.WrittenLimit | web/src/app/links/LinksPageClient.tsx:33-37 | an in-range limit survives the round trip through the query |
| LinkFilters.WrittenTags | web/src/app/links/LinksPageClient.tsx:28-31 | the tags read back from the query are the parsed tag input |
| LinkFilters.FieldBadges | web/src/components/links/LinksFilterPanel.tsx:43-46 | at most three, none exactly when from, to and domain are all empty |
| LinkFilters.TagBadgesEmpty | web/src/components/links/LinksFilterPanel.tsx:47-51 | no tag badge exactly when every tag trims to empty |
| LinkFilters.Badges | web/src/components/links/LinksFilterPanel.tsx:41-53 | the badges computed by the memo are `BadgesOf` |
| LinkFilters.PushFieldBadges | web/src/components/links/LinksFilterPanel.tsx:43-46 | the field badges in order |
| LinkFilters.PushTagBadges | web/src/components/links/LinksFilterPanel.tsx:47-51 | one badge per non-empty trimmed tag, in order |
| LinkFilters.HasAnyActiveIff | web/src/components/links/LinksFilterPanel.tsx:55 | some badge is shown iff a text filter is set or some tag is not blank |
| FilterForms.ReapplyKeepsFilters | web/src/components/links/LinksFilterPanel.tsx:57-85 | applying the inputs the panel was filled from keeps the active filters, repeats among tags collapsed |
| FilterForms.PushFilterRoute | web/src/components/links/LinksFilterPanel.tsx:84 | the navigation log gains the filter route |
| FilterForms.FilterPanel.constructor | web/src/components/links/LinksFilterPanel.tsx:35-39 | closed, with inputs copied from the active filters |
| FilterForms.FilterPanel.Badges | web/src/components/links/LinksFilterPanel.tsx:41-53 | the badges of the active filters |
| FilterForms.FilterPanel.Rerender | web/src/components/links/LinksFilterPanel.tsx:28-39 | a new prop leaves the inputs as they are |
| FilterForms.FilterPanel.OpenPanel | web/src/components/links/LinksFilterPanel.tsx:57-64 | open, with inputs refilled from the active filters |
| FilterForms.FilterPanel.ClosePanel | web/src/components/links/LinksFilterPanel.tsx:66-68 | closed, inputs kept |
| FilterForms.FilterPanel.Toggle | web/src/components/links/LinksFilterPanel.tsx:57-68 | flips the panel, refilling the inputs only when opening |
| FilterForms.FilterPanel.Edit | web/src/components/links/LinksFilterPanel.tsx:36-39 | only the inputs change |
| FilterForms.FilterPanel.ApplyFilters | web/src/components/links/LinksFilterPanel.tsx:70-85 | one navigation to `/` with the query built from the inputs and the active limit |
| FilterForms.FilterPanel.ClearFilters | web/src/components/links/LinksFilterPanel.tsx:87-93 | inputs emptied and one navigation to `/` |
| FilterForms.LinksPage.ListProps | web/src/app/links/LinksPageClient.tsx:158-164 | the list always receives a limit in 1..100 |
| FilterForms.LinksPage.constructor | web/src/app/links/LinksPageClient.tsx:20-51 | inputs filled from the filters of the query |
| FilterForms.LinksPage.QueryChanged | web/src/app/links/LinksPageClient.tsx:53-58 | inputs refilled from the new query's filters |
| FilterForms.LinksPage.Edit | web/src/app/links/LinksPageClient.tsx:48-51 | only the inputs change |
| FilterForms.LinksPage.ApplyFilters | web/src/app/links/LinksPageClient.tsx:60-75 | one navigation to `/links` with the query built from the inputs and the active limit |
| FilterForms.LinksPage.ClearFilters | web/src/app/links/LinksPageClient.tsx:77-83 | inputs emptied and one navigation to `/links` |
| DashboardFetch.AuthorizedGet | web/src/components/links/LinkList.tsx:48-66 | no request, and the rejection or "Unauthorized", when the token read rejects or gives no token; otherwise one GET with `Bearer <token>`; the parsed body on ok, else the parser's message, the status in the message or the network error |
| LinkList.ApiUrl | web/src/components/links/LinkList.tsx:28-46 | the address the list fetches is `ListUrl` |
| LinkList.SetLimitAndRange | web/src/components/links/LinkList.tsx:30-34 | the limit and range pairs, without a time zone |
| LinkList.ListQueryLookup | web/src/components/links/LinkList.tsx:28-46 | the query starts with the limit and holds each text filter and the time zone only when non-empty, and the tags in order |
| LinkList.FetchLinks | web/src/components/links/LinkList.tsx:48-66 | the authorised GET of the list address |
| LinkList.LoadLinks | web/src/components/links/LinkList.tsx:68-71 | nothing is fetched without an API base; otherwise the request goes to the list address |
| LinkCards.Or | web/src/components/links/LinkCard.tsx:61-63 | the first value when present and non-empty, else the fallback |
| LinkCards.DisplayImage | web/src/components/links/LinkCard.tsx:61 | the OGP image or the stored one; empty only when both are |
| LinkCards.DisplayDescription | web/src/components/links/LinkCard.tsx:62 | the OGP description or the stored one; empty only when both are |
| LinkCards.DisplayTitle | web/src/components/links/LinkCard.tsx:63 | never empty: OGP title, stored title, then "No Title" |
| LinkCards.OgApiUrl | web/src/components/links/LinkCard.tsx:25-28 | no address without an API base or URL; otherwise the base and the encoded OGP path |
| LinkCards.FetchOg | web/src/components/links/LinkCard.tsx:30-48 | the authorised GET with the metadata failure prefix |
| LinkCards.OldOgKey | web/src/components/LinkCard.tsx:40-41 | the SWR key is the OGP path followed by the encoded URL |
| MetadataService.Metadata.constructor | api/internal/service/metadata.go:17-23 | the record holds the given values |
| MetadataService.ChallengeOfTrimmed | api/internal/service/metadata.go:65-68 | the challenge test ignores surrounding space and rejects the empty title |
| MetadataService.CloudflareTitleIsChallenge | api/internal/service/metadata.go:65-68 | "Just a moment..." is a challenge page |
| MetadataService.MergePreferExisting | api/internal/service/metadata.go:70-101 | keeps the primary's source and is never blocked |
| MetadataService.MergeProperties | api/internal/service/metadata.go:70-101 | the merged title is never a challenge; the primary's good title and description win; the image falls back only when the primary has none |
| MetadataService.Sanitized | api/internal/service/metadata.go:103-138 | keeps source and blocked |
| MetadataService.SanitizeMetadata | api/internal/service/metadata.go:103-138 | a nil record is not blocked; otherwise it becomes `Sanitized` and `blocked` follows the challenge rule |
| MetadataService.CleanFields | api/internal/service/metadata.go:103-138 | the cleaned values and the blocked flag of the sanitiser |
| MetadataService.SanitizedProperties | api/internal/service/metadata.go:103-138 | the title is trimmed and not a challenge; the description is within the cap; the image is trimmed and empty or an HTTP URL; fields already clean are kept |
| MetadataService.BlockedMeansEmpty | api/internal/service/metadata.go:130-136 | a blocked result has an empty title and description |
| MetadataService.FirstNonEmptyOf | api/internal/service/metadata.go:223-231 | the result is trimmed |
| MetadataService.FirstNonEmpty | api/internal/service/metadata.go:223-231 | the loop returns `FirstNonEmptyOf` |
| MetadataService.FirstNonEmptyIsFirst | api/internal/service/metadata.go:223-231 | empty iff every value trims to empty; otherwise the first value that does not, trimmed |
| MetadataService.JinaTitleOf | api/internal/service/metadata.go:255-263 | the title is trimmed |
| MetadataService.ParseJinaTitle | api/internal/service/metadata.go:255-263 | the loop returns `JinaTitleOf` of the lines |
| MetadataService.JinaTitleIsFirst | api/internal/service/metadata.go:255-263 | the title comes from the first `Title:` line, or is empty without one |
| MetadataService.FetchMetadata | api/internal/service/metadata.go:26-63 | fails iff the direct fetch fails, with its error; the proxy is asked only when needed; the result is `FetchedValue` |
| MetadataService.Finish | api/internal/service/metadata.go:49-61 | the record gets its source and is sanitised |
| MetadataService.FetchedProperties | api/internal/service/metadata.go:26-63 | a fetched title is trimmed and never a challenge; the description is within the cap; the source is direct or proxy; blocked results have no text |
| LinkSchema.WithDefaults | api/ent/schema/link.go:22-72 | a new row gets the fresh id, empty metadata and its own clock reading for each timestamp, and keeps every given field; valid iff the URL is non-empty |
| LinkSchema.Hex | api/ent/schema/link.go:22-24 | the hex text has the given width |
| LinkSchema.HexInjective | api/ent/schema/link.go:22-24 | distinct numbers in range have distinct hex texts |
| LinkSchema.UuidText | api/ent/schema/link.go:22-24 | 36 characters with dashes at 8, 13, 18 and 23 |
| LinkSchema.UuidTextInjective | api/ent/schema/link.go:22-24 | distinct ids have distinct texts |
| LinkMapper.TextOf | api/internal/repository/mapper.go:20-40 | a missing column reads as "" |
| LinkMapper.ToModel | api/internal/repository/mapper.go:9-55 | every field is copied, nullable text as `TextOf`, the id as its text |
| LinkMapper.ToModelKeepsIdsApart | api/internal/repository/mapper.go:43 | rows with distinct ids map to links with distinct ids |
| LinkMapper.ModelsOfAt | api/internal/repository/mapper.go:58-64 | the i-th link is the i-th row mapped |
| LinkMapper.ToModels | api/internal/repository/mapper.go:58-64 | the loop returns `ModelsOf` |
| LinkRepository.NewLinkOf | api/internal/repository/link_repository.go:52-66 | every input field is set on the new row |
| LinkRepository.CreatedReadsBack | api/internal/repository/link_repository.go:52-71 | a created row reads back as the input with its id and its `saved_at` reading; valid iff the URL is non-empty |
| LinkRepository.SharesTagIff | api/internal/repository/link_repository.go:128-150 | a row passes the tag filter iff no tags are asked for or it has one of them |
| LinkRepository.KeptMembers | api/internal/repository/link_repository.go:95-150 | a row is kept iff it is in the table and matches the user, domain, time range and tags |
| LinkRepository.Sort | api/internal/repository/link_repository.go:152-163 | a permutation of its input |
| LinkRepository.SortOrdered | api/internal/repository/link_repository.go:152-163 | the result is ordered by effective time, then saved time, then id, all descending |
| LinkRepository.OrderIsDetermined | api/internal/repository/link_repository.go:152-163 | with identifying ids, two ordered permutations of the same rows are equal |
| LinkRepository.SortIsTheOrder | api/internal/repository/link_repository.go:152-163 | with distinct ids, any ordered arrangement of the matching rows is the sorted one |
| LinkRepository.EffectiveLimit | api/internal/repository/link_repository.go:74-77 | a positive limit is kept, anything else becomes 50 |
| LinkRepository.Selected | api/internal/repository/link_repository.go:164-166 | at most the effective limit |
| LinkRepository.SelectedMatch | api/internal/repository/link_repository.go:95-150 | every listed row is in the table and matches the filter |
| LinkRepository.SelectedOrdered | api/internal/repository/link_repository.go:152-166 | the list is in the query's order |
| LinkRepository.SelectedComplete | api/internal/repository/link_repository.go:152-166 | a matching row is missing only when the list is full and every listed row ranks at least as high |
| LinkRepository.InsertOrdered | api/internal/repository/link_repository.go:152-163 | inserting into an ordered list keeps it ordered |
| LinkRepository.LinkStore.constructor | api/internal/repository/link_repository.go:47-50 | the table starts empty |
| LinkRepository.LinkStore.CreateLink | api/internal/repository/link_repository.go:52-71 | an empty URL, a taken id or a database error fail in that order and change nothing; otherwise one row is appended and its id text returned; row validity and distinct ids are kept |
| LinkRepository.LinkStore.ListLinks | api/internal/repository/link_repository.go:73-171 | the links are the mapped `Selected` rows, at most the effective limit |
| AuthMiddleware.TokenDecision | api/internal/middleware/auth.go:35-58 | accepted iff the verifier succeeds with a non-empty subject, which becomes the user id |
| AuthMiddleware.Decide | api/internal/middleware/auth.go:19-58 | an empty header is rejected as missing |
| AuthMiddleware.AcceptIff | api/internal/middleware/auth.go:19-58 | accepted iff the header is a case-insensitive `bearer`, one space and a token the verifier accepts; the user id is never empty |
| AuthMiddleware.SchemeThenToken | api/internal/middleware/auth.go:29-35 | a space-free bearer scheme and a space hand the rest of the header to the verifier |
| AuthMiddleware.Context.constructor | api/internal/middleware/auth.go:63-67 | no keys, not aborted, no response |
| AuthMiddleware.Context.UserId | api/internal/middleware/auth.go:63-69 | the stored user id, or "" when unset |
| AuthMiddleware.ClerkAuth | api/internal/middleware/auth.go:17-60 | a rejection aborts with 401 and its body and sets no key; an acceptance sets `user_id` and calls the next handler |
| AuthMiddleware.UserIdAfterAuth | api/internal/middleware/auth.go:56-69 | after acceptance the handler reads the verified user id |
| LinksHandler.Bind | api/internal/model/link.go:5-12 | binding succeeds iff URL, title and page URL are present, and keeps the request |
| LinksHandler.DomainOf | api/internal/handler/links.go:57-58 | one leading `www.` is removed |
| LinksHandler.InsertedProperties | api/internal/handler/links.go:64-121 | the insert carries the user, the request's fields, the domain, the fetched description and image, no published date and a tag list; the title is replaced only by a non-empty fetched title when it was empty or the URL |
| LinksHandler.BoundTitleReplacedOnlyWhenUrl | api/internal/handler/links.go:71-76 | after binding, the title changes only when it equals the URL |
| LinksHandler.DomainDropsOneWww | api/internal/handler/links.go:58 | only one `www.` is removed |
| LinksHandler.CreateLink | api/internal/handler/links.go:38-129 | 401 without a user, 400 with the binding error, 400 for a URL without host; otherwise metadata is fetched, the insert is attempted and its id or error is answered |
| LinksHandler.LimitOf | api/internal/handler/links.go:140-144 | the page size is in 1..100 |
| LinksHandler.LimitOfDecimal | api/internal/handler/links.go:140-144 | an in-range decimal limit is used as is |
| LinksHandler.LimitOfAbsent | api/internal/handler/links.go:140 | without a limit the size is 50 |
| LinksHandler.ScannedMembers | api/internal/handler/links.go:166-186 | the list holds exactly the rows that scanned |
| LinksHandler.ScannedAllSucceeded | api/internal/handler/links.go:166-186 | when every row scans, none is lost |
| LinksHandler.CollectScanned | api/internal/handler/links.go:165-186 | the loop returns `Scanned` |
| LinksHandler.GetLinks | api/internal/handler/links.go:131-189 | 401 without a user; otherwise the query is for the user and `LimitOf`, and the reply is 500 on a database error or the scanned links |
| LinksHandler.GetOgp | api/internal/handler/links.go:191-222 | 400 without a URL or host; 200 with title, description, image and a null date iff the fetch succeeds |
| LinksHandler.OgBodyHasNoBlocked | api/internal/handler/links.go:216-221 | the OGP reply has no `blocked` member |
| ServerConfig.Getenv | api/internal/config/config.go:19-20 | the variable's value, "" when unset |
| ServerConfig.GetenvOr | api/internal/config/config.go:58-63 | a set variable's value, even empty; the default when unset |
| ServerConfig.AllowedOriginsOf | api/internal/config/config.go:42-56 | no list exactly for the empty text |
| ServerConfig.ParseAllowedOrigins | api/internal/config/config.go:42-56 | the loop returns `AllowedOriginsOf` |
| ServerConfig.TrimmedNonEmptyMembers | api/internal/config/config.go:48-54 | the origins are exactly the non-empty trimmed pieces, all trimmed |
| ServerConfig.TrimmedNonEmptyOfClean | api/internal/config/config.go:48-54 | clean pieces pass unchanged |
| ServerConfig.OriginsRoundTrip | api/internal/config/config.go:42-56 | clean origins joined by commas parse back to themselves |
| ServerConfig.Load | api/internal/config/config.go:17-38 | succeeds iff both required variables are set; a missing database URL is reported first |
| ServerConfig.LoadedValues | api/internal/config/config.go:18-37 | the loaded fields are the variables, with defaults for port and environment |
| CorsPolicy.AllowedOutsideDevelopment | api/cmd/server/main.go:71-86 | outside development, an origin is allowed iff it is one of the three listed or a Chrome extension |
| CorsPolicy.ListNotConsulted | api/cmd/server/main.go:69-86 | the configured origin list does not affect the decision |
| CorsPolicy.TrailingSlashRejected | api/cmd/server/main.go:74-76 | the listed origins match only exactly |
| CorsPolicy.ExtensionsAllowed | api/cmd/server/main.go:80-82 | Chrome extension origins are always allowed; Firefox ones are not outside development |
| CorsPolicy.EnvironmentDecides | api/cmd/server/main.go:69-70 | without `ENVIRONMENT`, every origin is allowed |
| Integration.DashboardHeaderAccepted | api/internal/middleware/auth.go:29-35 | the dashboard's authorisation header reaches the verifier with exactly its token |
| Integration.ListLimitHonoured | api/internal/handler/links.go:140-144 | the list's in-range limit is the page size the API uses |
| Integration.PageLimitHonoured | web/src/components/links/LinksPageClient.tsx:39-45 | the page's active limit is the page size the API uses |
| Integration.StringMember | web/src/components/links/LinkCard.tsx:61-64 | a read string member is the body's member |
| Integration.OgReplyAsShown | web/src/components/links/LinkCard.tsx:61-64 | a card shows the API's OGP title, description and image, and never the blocked notice |

## Left out

- Network and platform calls are not modelled. Their outcomes are parameters. This covers `fetch`, Chrome messaging and storage, Clerk, the database, and the scraper's HTTP. Of `window.postMessage`, only the target-origin check is modelled.
- Timers are modelled as explicit events. Their delays (500 ms, 5 s, 5 min, 30 s, 60 s) are not modelled.
- Rendering, CSS, the toast widget, icons and layout are left out.
- The context-menu installation is left out.
- JavaScript `Number` is exact only for optionally signed decimal integers after trimming. Fractions, exponents and hexadecimal read as not finite.
- Percent-encoding in `URLSearchParams.toString` and `encodeURIComponent` is not modelled. The encoder is a parameter.
- Go strings are byte strings. `strings.TrimSpace` is modelled at byte level, including the multi-byte Unicode spaces.
- The challenge test lowers ASCII letters only.
- The description cap is a byte cap. Cutting in the middle of a rune is not modelled.
- The HTML parsing of `fetchAndParse` (goquery), `resolveMaybeRelativeURL` and `extractFirstImageURL` are left out. The scraped page is an input.
- SQL timeouts, the connection pool and the server lifecycle are left out.
- The gin-contrib CORS internals, such as browser-extension handling beyond `AllowOriginFunc`, are left out.
- The older link card's unauthenticated fetcher is left out. Only its SWR key is modelled.
- The time-range parsing of `ListLinks` (dates and time zones) is left out. The filter's bounds are given as instants.
- ExtensionStorage.SyncStore.ClearAuthData: the body of `clearAuthData` is not part of this model. It is modelled as removing the three Clerk keys.
- Background.OnMessage: the `QUICKLINKS_SAVE_AUTH` message that the bridge sends has no handler in `background.ts`. It is modelled as unanswered.
- ContentScript.ButtonLeft: the press coordinate and the viewport width are JavaScript doubles, modelled as exact reals. Floating-point rounding is not modelled.
- ContentScript.ButtonTop: the press coordinate and the viewport height are JavaScript doubles, modelled as exact reals. Floating-point rounding is not modelled.
- AuthSync.Delivered: the target origin is compared as a string. Its parsing and serialisation as a URL are not modelled, nor the `SyntaxError` that an unparsable target origin throws.
- AuthMiddleware.Decide: Go's `strings.ToLower` is modelled as ASCII lowering. This is exact for the comparison with `bearer`.
