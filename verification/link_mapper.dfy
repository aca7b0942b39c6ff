/**
 * The conversion from stored rows to the link objects the API returns: every nullable text
 * column becomes a plain string, "" when the column is null.
 */
module LinkMapper {
  import opened Wrappers
  import opened LinkSchema

  /** The link object of the API responses. */
  datatype Link = Link(
    id: string,
    url: string,
    title: string,
    description: string,
    domain: string,
    ogImage: string,
    pageUrl: string,
    note: string,
    userIdentifier: string,
    publishedAt: Option<int>,
    savedAt: int)

  /** A nullable text column as a string. */
  function TextOf(column: Option<string>): (s: string)
    ensures column.None? ==> s == ""
    ensures column.Some? ==> s == column.value
  {
    if column.Some? then column.value else ""
  }

  /** `entLinkToModel`. */
  function ToModel(l: EntLink): (m: Link)
    ensures m.id == UuidText(l.id) && m.url == l.url
    ensures m.publishedAt == l.publishedAt && m.savedAt == l.savedAt
    ensures m.title == TextOf(l.title) && m.description == TextOf(l.description)
    ensures m.domain == TextOf(l.domain) && m.ogImage == TextOf(l.ogImage)
    ensures m.pageUrl == TextOf(l.pageUrl) && m.note == TextOf(l.note)
    ensures m.userIdentifier == TextOf(l.userId)
  {
    Link(UuidText(l.id), l.url, TextOf(l.title), TextOf(l.description), TextOf(l.domain),
      TextOf(l.ogImage), TextOf(l.pageUrl), TextOf(l.note), TextOf(l.userId), l.publishedAt, l.savedAt)
  }

  /** Different rows keep different ids once converted. */
  lemma ToModelKeepsIdsApart(a: EntLink, b: EntLink)
    requires a.id != b.id
    ensures ToModel(a).id != ToModel(b).id
  {
    if ToModel(a).id == ToModel(b).id {
      UuidTextInjective(a.id, b.id);
    }
  }

  /** The conversion of every row, in order. */
  function ModelsOf(rows: seq<EntLink>): (ms: seq<Link>)
    ensures |ms| == |rows|
  {
    if rows == [] then [] else ModelsOf(rows[..|rows| - 1]) + [ToModel(rows[|rows| - 1])]
  }

  /** The i-th link is the conversion of the i-th row. */
  lemma {:induction false} ModelsOfAt(rows: seq<EntLink>, i: nat)
    requires i < |rows|
    ensures ModelsOf(rows)[i] == ToModel(rows[i])
    decreases |rows|
  {
    if i < |rows| - 1 {
      assert rows[..|rows| - 1][i] == rows[i];
      ModelsOfAt(rows[..|rows| - 1], i);
    }
  }

  /** `entLinksToModels`: appends the conversion of each row in turn. */
  method ToModels(rows: seq<EntLink>) returns (result: seq<Link>)
    ensures result == ModelsOf(rows)
  {
    result := [];
    for i := 0 to |rows|
      invariant result == ModelsOf(rows[..i])
    {
      assert rows[..i + 1][..i] == rows[..i];
      result := result + [ToModel(rows[i])];
    }
    assert rows[..|rows|] == rows;
  }
}
