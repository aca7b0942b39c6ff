/**
 * The API's metadata service: bot-challenge detection, the merge of a direct scrape with a
 * proxy scrape, the in-place clean-up of a `Metadata` record, and the decision of
 * `FetchMetadata` between the direct result and the proxy. Fetching and HTML extraction are
 * parameters: a `Page` is what one scrape found. Strings are Go strings (bytes).
 */
module MetadataService {
  import opened Wrappers
  import Text

  const DescriptionCap: nat := 2000
  const SourceDirect: string := "direct"
  const SourceJina: string := "jina"
  const JinaPrefix: string := "https://r.jina.ai/"
  const TitleMarker: string := "Title:"

  /** The values of a `Metadata` record. */
  datatype Meta = Meta(title: string, description: string, image: string, source: string, blocked: bool)

  /** The `Metadata` record, which `sanitizeMetadata` changes in place. */
  class Metadata {
    var title: string
    var description: string
    var image: string
    var source: string
    var blocked: bool

    function Value(): Meta
      reads this
    {
      Meta(title, description, image, source, blocked)
    }

    constructor(v: Meta)
      ensures Value() == v
    {
      title := v.title;
      description := v.description;
      image := v.image;
      source := v.source;
      blocked := v.blocked;
    }
  }

  // ---------------------------------------------------------------------------------------
  // Bot challenges

  /** `looksLikeBotChallenge`: the trimmed, lower-cased title contains one of the phrases of a
      bot-protection page. */
  predicate LooksLikeBotChallenge(title: string) {
    var t := Text.AsciiLower(Text.GoTrimSpace(title));
    Text.Contains(t, "just a moment") || Text.Contains(t, "attention required") || Text.Contains(t, "cloudflare")
  }

  /** Surrounding space does not change the verdict, and the empty title is no challenge. */
  lemma ChallengeOfTrimmed(title: string)
    ensures LooksLikeBotChallenge(Text.GoTrimSpace(title)) == LooksLikeBotChallenge(title)
    ensures !LooksLikeBotChallenge("")
  {
    Text.GoTrimSpaceIdempotent(title);
    assert Text.GoTrimSpace("") == "";
    assert Text.AsciiLower("") == "";
    Text.EmptyContainsNothing("just a moment");
    Text.EmptyContainsNothing("attention required");
    Text.EmptyContainsNothing("cloudflare");
  }

  /** The check ignores case: Cloudflare's own interstitial title is recognised. */
  lemma CloudflareTitleIsChallenge()
    ensures LooksLikeBotChallenge("Just a moment...")
  {
    var s := "Just a moment...";
    assert Text.IsGoTrimmed(s);
    Text.GoTrimSpaceOfTrimmed(s);
    var t := Text.AsciiLower(s);
    assert t[..13] == "just a moment";
    Text.ContainsAt(t, "just a moment", 0);
  }

  // ---------------------------------------------------------------------------------------
  // Merging

  /** `mergePreferExisting`: the primary's values win when present; a challenge title and its
      description count as missing on both sides. */
  function MergePreferExisting(primary: Meta, fallback: Meta): (out: Meta)
    ensures out.source == primary.source && !out.blocked
  {
    var primaryTitle := if LooksLikeBotChallenge(primary.title) then "" else primary.title;
    var primaryDesc := if LooksLikeBotChallenge(primary.title) then "" else primary.description;
    var fallbackTitle := if LooksLikeBotChallenge(fallback.title) then "" else fallback.title;
    var fallbackDesc := if LooksLikeBotChallenge(fallback.title) then "" else fallback.description;
    Meta(
      if primaryTitle != "" then primaryTitle else fallbackTitle,
      if primaryDesc != "" then primaryDesc else fallbackDesc,
      if primary.image != "" then primary.image else fallback.image,
      primary.source,
      false)
  }

  /** The merge keeps every usable primary value, fills the rest from the fallback, and never
      yields a challenge title. */
  lemma MergeProperties(primary: Meta, fallback: Meta)
    ensures !LooksLikeBotChallenge(MergePreferExisting(primary, fallback).title)
    ensures primary.title != "" && !LooksLikeBotChallenge(primary.title) ==>
              MergePreferExisting(primary, fallback).title == primary.title
    ensures primary.description != "" && !LooksLikeBotChallenge(primary.title) ==>
              MergePreferExisting(primary, fallback).description == primary.description
    ensures (primary.title == "" || LooksLikeBotChallenge(primary.title)) && !LooksLikeBotChallenge(fallback.title) ==>
              MergePreferExisting(primary, fallback).title == fallback.title
    ensures primary.image != "" ==> MergePreferExisting(primary, fallback).image == primary.image
    ensures primary.image == "" ==> MergePreferExisting(primary, fallback).image == fallback.image
  {
    ChallengeOfTrimmed("");
  }

  // ---------------------------------------------------------------------------------------
  // Clean-up

  /** The record `sanitizeMetadata` leaves: a challenge title and its description are
      dropped, the texts are trimmed, the description is cut to 2000 bytes, and an image that
      is not an absolute http(s) address with a host is dropped. `isHttpUrl` is that check on
      the result of `url.Parse`. */
  function Sanitized(v: Meta, isHttpUrl: string -> bool): (r: Meta)
    ensures r.source == v.source && r.blocked == v.blocked
  {
    v.(title := CleanTitle(v), description := CleanDescription(v), image := CleanImage(v.image, isHttpUrl))
  }

  function CleanTitle(v: Meta): string {
    Text.GoTrimSpace(if LooksLikeBotChallenge(v.title) then "" else v.title)
  }

  function CleanDescription(v: Meta): string {
    var desc := Text.GoTrimSpace(if LooksLikeBotChallenge(v.title) then "" else v.description);
    if |desc| > DescriptionCap then desc[..DescriptionCap] else desc
  }

  function CleanImage(image: string, isHttpUrl: string -> bool): string {
    var trimmed := Text.GoTrimSpace(image);
    if trimmed != "" && !isHttpUrl(trimmed) then "" else trimmed
  }

  /** The flag `sanitizeMetadata` returns: the title was a challenge, or a challenge was seen
      earlier and neither a title nor a description is left. */
  predicate SanitizeBlocked(v: Meta, hadChallenge: bool, isHttpUrl: string -> bool) {
    LooksLikeBotChallenge(v.title)
    || (hadChallenge && Sanitized(v, isHttpUrl).title == "" && Sanitized(v, isHttpUrl).description == "")
  }

  /** `sanitizeMetadata`, step by step on the record; a nil record is left alone and is not
      blocked. */
  method SanitizeMetadata(m: Metadata?, hadChallenge: bool, isHttpUrl: string -> bool) returns (blocked: bool)
    modifies m
    ensures m == null ==> !blocked
    ensures m != null ==> m.Value() == Sanitized(old(m.Value()), isHttpUrl)
    ensures m != null ==> blocked == SanitizeBlocked(old(m.Value()), hadChallenge, isHttpUrl)
  {
    if m == null {
      return false;
    }
    var cleaned;
    cleaned, blocked := CleanFields(m.Value(), hadChallenge, isHttpUrl);
    m.title, m.description, m.image := cleaned.title, cleaned.description, cleaned.image;
  }

  /** The steps of `sanitizeMetadata` on the values of the record. */
  method CleanFields(v: Meta, hadChallenge: bool, isHttpUrl: string -> bool) returns (r: Meta, blocked: bool)
    ensures r == Sanitized(v, isHttpUrl)
    ensures blocked == SanitizeBlocked(v, hadChallenge, isHttpUrl)
  {
    blocked := false;
    var challenged := hadChallenge;
    var title, description := v.title, v.description;
    if LooksLikeBotChallenge(title) {
      title, description := "", "";
      blocked := true;
      challenged := true;
    }
    title := Text.GoTrimSpace(title);
    description := Text.GoTrimSpace(description);
    var image := Text.GoTrimSpace(v.image);
    if |description| > DescriptionCap {
      description := description[..DescriptionCap];
    }
    if image != "" && !isHttpUrl(image) {
      image := "";
    }
    r := v.(title := title, description := description, image := image);
    if !blocked && challenged && title == "" && description == "" {
      blocked := true;
    }
  }

  /** What the clean-up guarantees: a trimmed title that is no challenge, a description of at
      most 2000 bytes cut from the trimmed one, and a trimmed image that is empty or passes
      the address check. */
  lemma SanitizedProperties(v: Meta, isHttpUrl: string -> bool)
    ensures Text.IsGoTrimmed(Sanitized(v, isHttpUrl).title)
    ensures !LooksLikeBotChallenge(Sanitized(v, isHttpUrl).title)
    ensures |Sanitized(v, isHttpUrl).description| <= DescriptionCap
    ensures !LooksLikeBotChallenge(v.title) ==>
              Text.HasPrefix(Text.GoTrimSpace(v.description), Sanitized(v, isHttpUrl).description)
    ensures |Text.GoTrimSpace(v.description)| <= DescriptionCap && !LooksLikeBotChallenge(v.title) ==>
              Sanitized(v, isHttpUrl).description == Text.GoTrimSpace(v.description)
    ensures Text.IsGoTrimmed(Sanitized(v, isHttpUrl).image)
    ensures Sanitized(v, isHttpUrl).image == "" || isHttpUrl(Sanitized(v, isHttpUrl).image)
  {
    ChallengeOfTrimmed(v.title);
    ChallengeOfTrimmed("");
    assert Text.GoTrimSpace("") == "";
  }

  /** A blocked record has neither a title nor a description. */
  lemma BlockedMeansEmpty(v: Meta, hadChallenge: bool, isHttpUrl: string -> bool)
    requires SanitizeBlocked(v, hadChallenge, isHttpUrl)
    ensures Sanitized(v, isHttpUrl).title == "" && Sanitized(v, isHttpUrl).description == ""
  {
    assert Text.GoTrimSpace("") == "";
  }

  // ---------------------------------------------------------------------------------------
  // Picking values

  /** The first value that is not empty after trimming, trimmed; "" when there is none. */
  function FirstNonEmptyOf(values: seq<string>): (r: string)
    ensures Text.IsGoTrimmed(r)
    decreases |values|
  {
    if values == [] then ""
    else
      var v := Text.GoTrimSpace(values[0]);
      if v != "" then v else FirstNonEmptyOf(values[1..])
  }

  /** `firstNonEmpty`, with its loop. */
  method FirstNonEmpty(values: seq<string>) returns (r: string)
    ensures r == FirstNonEmptyOf(values)
  {
    for i := 0 to |values|
      invariant FirstNonEmptyOf(values[i..]) == FirstNonEmptyOf(values)
    {
      assert values[i..][1..] == values[i + 1..];
      var v := Text.GoTrimSpace(values[i]);
      if v != "" {
        return v;
      }
    }
    return "";
  }

  /** The result is "" exactly when every value trims to "", and otherwise it is the trimmed
      value of the first one that does not. */
  lemma {:induction false} FirstNonEmptyIsFirst(values: seq<string>)
    ensures FirstNonEmptyOf(values) == "" <==> forall i :: 0 <= i < |values| ==> Text.GoTrimSpace(values[i]) == ""
    ensures FirstNonEmptyOf(values) != "" ==>
              exists i :: 0 <= i < |values| && FirstNonEmptyOf(values) == Text.GoTrimSpace(values[i])
                && forall j :: 0 <= j < i ==> Text.GoTrimSpace(values[j]) == ""
    decreases |values|
  {
    if values != [] && Text.GoTrimSpace(values[0]) == "" {
      var rest := values[1..];
      FirstNonEmptyIsFirst(rest);
      assert forall i :: 1 <= i < |values| ==> values[i] == rest[i - 1];
      if FirstNonEmptyOf(rest) != "" {
        var k :| 0 <= k < |rest| && FirstNonEmptyOf(rest) == Text.GoTrimSpace(rest[k])
          && forall j :: 0 <= j < k ==> Text.GoTrimSpace(rest[j]) == "";
        assert forall j :: 0 <= j < k + 1 ==> Text.GoTrimSpace(values[j]) == "" by {
          forall j | 0 <= j < k + 1
            ensures Text.GoTrimSpace(values[j]) == ""
          {
            if j > 0 {
              assert values[j] == rest[j - 1];
            }
          }
        }
      }
    } else if values != [] {
      assert FirstNonEmptyOf(values) == Text.GoTrimSpace(values[0]);
    }
  }

  /** The title of the first line that begins with `Title:` once trimmed: the rest of that
      line, trimmed; "" when no line does. */
  function JinaTitleOf(lines: seq<string>): (title: string)
    ensures Text.IsGoTrimmed(title)
    decreases |lines|
  {
    if lines == [] then ""
    else
      var line := Text.GoTrimSpace(lines[0]);
      if Text.HasPrefix(line, TitleMarker) then Text.GoTrimSpace(Text.TrimPrefix(line, TitleMarker))
      else JinaTitleOf(lines[1..])
  }

  predicate IsTitleLine(line: string) {
    Text.HasPrefix(Text.GoTrimSpace(line), TitleMarker)
  }

  /** `parseJinaTitle`, with its loop over the lines of the text. */
  method ParseJinaTitle(text: string) returns (title: string)
    ensures title == JinaTitleOf(Text.Split(text, {'\n'}))
  {
    var lines := Text.Split(text, {'\n'});
    for i := 0 to |lines|
      invariant JinaTitleOf(lines[i..]) == JinaTitleOf(lines)
    {
      assert lines[i..][1..] == lines[i + 1..];
      var line := Text.GoTrimSpace(lines[i]);
      if Text.HasPrefix(line, TitleMarker) {
        return Text.GoTrimSpace(Text.TrimPrefix(line, TitleMarker));
      }
    }
    return "";
  }

  /** The title comes from the first title line, and is "" when there is none. */
  lemma {:induction false} JinaTitleIsFirst(lines: seq<string>, k: nat)
    requires k <= |lines|
    requires forall j :: 0 <= j < k ==> !IsTitleLine(lines[j])
    ensures k == |lines| ==> JinaTitleOf(lines) == ""
    ensures k < |lines| && IsTitleLine(lines[k]) ==>
              JinaTitleOf(lines) == Text.GoTrimSpace(Text.GoTrimSpace(lines[k])[|TitleMarker|..])
    decreases k
  {
    if k > 0 {
      var rest := lines[1..];
      assert forall j :: 0 <= j < k - 1 ==> rest[j] == lines[j + 1];
      JinaTitleIsFirst(rest, k - 1);
      assert !IsTitleLine(lines[0]);
    }
  }

  // ---------------------------------------------------------------------------------------
  // Fetching

  /** What one scrape found, with the HTTP status of its response. */
  datatype Page = Page(title: string, description: string, image: string, status: int)

  /** The record a scrape yields: no source and not blocked. */
  function Scraped(p: Page): Meta {
    Meta(p.title, p.description, p.image, "", false)
  }

  /** The proxy is tried when the direct response is not 200, its title is a challenge, or it
      found none of title, description and image. */
  predicate NeedsProxy(p: Page) {
    p.status != 200 || LooksLikeBotChallenge(p.title) || (p.image == "" && p.title == "" && p.description == "")
  }

  /** The record `FetchMetadata` returns for a successful direct scrape. */
  function FetchedValue(direct: Page, proxy: Result<Page, string>, isHttpUrl: string -> bool): Meta {
    var directChallenge := LooksLikeBotChallenge(direct.title);
    if !NeedsProxy(direct) then
      var m := Scraped(direct).(source := SourceDirect);
      Sanitized(m, isHttpUrl).(blocked := SanitizeBlocked(m, false, isHttpUrl))
    else if proxy.Failure? then
      var m := Scraped(direct).(source := SourceDirect);
      Sanitized(m, isHttpUrl).(blocked := SanitizeBlocked(m, directChallenge, isHttpUrl))
    else
      var m := MergePreferExisting(Scraped(direct), Scraped(proxy.value)).(source := SourceJina);
      var challenged := directChallenge || LooksLikeBotChallenge(proxy.value.title);
      Sanitized(m, isHttpUrl).(blocked := SanitizeBlocked(m, challenged, isHttpUrl))
  }

  /** `FetchMetadata`: a failed direct scrape is returned as the error; otherwise the proxy
      is asked when the direct result is not usable. `requested` lists the addresses fetched. */
  method FetchMetadata(target: string, direct: Result<Page, string>, proxy: Result<Page, string>,
                       isHttpUrl: string -> bool)
    returns (r: Result<Metadata, string>, requested: seq<string>)
    ensures r.Failure? <==> direct.Failure?
    ensures direct.Failure? ==> r.error == direct.error && requested == [target]
    ensures direct.Success? ==>
      requested == [target] + (if NeedsProxy(direct.value) then [JinaPrefix + target] else [])
    ensures r.Success? ==> fresh(r.value) && r.value.Value() == FetchedValue(direct.value, proxy, isHttpUrl)
  {
    requested := [target];
    if direct.Failure? {
      return Failure(direct.error), requested;
    }
    var meta := new Metadata(Scraped(direct.value));
    var directChallenge := LooksLikeBotChallenge(meta.title);
    if direct.value.status != 200 || directChallenge || (meta.image == "" && meta.title == "" && meta.description == "") {
      requested := requested + [JinaPrefix + target];
      if proxy.Failure? {
        Finish(meta, SourceDirect, directChallenge, isHttpUrl);
        return Success(meta), requested;
      }
      var fallbackChallenge := LooksLikeBotChallenge(proxy.value.title);
      var merged := new Metadata(MergePreferExisting(meta.Value(), Scraped(proxy.value)));
      Finish(merged, SourceJina, directChallenge || fallbackChallenge, isHttpUrl);
      return Success(merged), requested;
    }
    Finish(meta, SourceDirect, false, isHttpUrl);
    r := Success(meta);
  }

  /** The last steps of every successful branch: the source is set, the record is cleaned up
      and the returned flag is stored as `Blocked`. */
  method Finish(m: Metadata, source: string, hadChallenge: bool, isHttpUrl: string -> bool)
    modifies m
    ensures m.Value() == Sanitized(old(m.Value()).(source := source), isHttpUrl)
                           .(blocked := SanitizeBlocked(old(m.Value()).(source := source), hadChallenge, isHttpUrl))
  {
    m.source := source;
    var b := SanitizeMetadata(m, hadChallenge, isHttpUrl);
    m.blocked := b;
  }

  /** What every fetched record satisfies: the clean-up guarantees, a source of `jina`
      exactly when the proxy was needed and answered, and no text when blocked. */
  lemma FetchedProperties(direct: Page, proxy: Result<Page, string>, isHttpUrl: string -> bool)
    ensures !LooksLikeBotChallenge(FetchedValue(direct, proxy, isHttpUrl).title)
    ensures Text.IsGoTrimmed(FetchedValue(direct, proxy, isHttpUrl).title)
    ensures |FetchedValue(direct, proxy, isHttpUrl).description| <= DescriptionCap
    ensures FetchedValue(direct, proxy, isHttpUrl).image == ""
         || isHttpUrl(FetchedValue(direct, proxy, isHttpUrl).image)
    ensures FetchedValue(direct, proxy, isHttpUrl).source
         == (if NeedsProxy(direct) && proxy.Success? then SourceJina else SourceDirect)
    ensures FetchedValue(direct, proxy, isHttpUrl).blocked ==>
              FetchedValue(direct, proxy, isHttpUrl).title == "" && FetchedValue(direct, proxy, isHttpUrl).description == ""
  {
    var m :=
      if !NeedsProxy(direct) || proxy.Failure? then Scraped(direct).(source := SourceDirect)
      else MergePreferExisting(Scraped(direct), Scraped(proxy.value)).(source := SourceJina);
    SanitizedProperties(m, isHttpUrl);
    var challenged :=
      if !NeedsProxy(direct) then false
      else if proxy.Failure? then LooksLikeBotChallenge(direct.title)
      else LooksLikeBotChallenge(direct.title) || LooksLikeBotChallenge(proxy.value.title);
    assert FetchedValue(direct, proxy, isHttpUrl) == Sanitized(m, isHttpUrl).(blocked := SanitizeBlocked(m, challenged, isHttpUrl));
    if SanitizeBlocked(m, challenged, isHttpUrl) {
      BlockedMeansEmpty(m, challenged, isHttpUrl);
    }
  }
}
