/**
 * The Ent-backed link repository: creation stores the given fields in a new row, and listing
 * selects one user's rows by domain, time range and tags, orders them newest first and keeps
 * at most `limit` of them. The table is the sequence `rows` of a `LinkStore`.
 */
module LinkRepository {
  import opened Wrappers
  import opened LinkSchema
  import opened LinkMapper

  /** `CreateLinkInput`. `tags` is `None` for a nil slice. */
  datatype CreateLinkInput = CreateLinkInput(
    userId: string,
    url: string,
    title: string,
    description: string,
    domain: string,
    ogImage: string,
    pageUrl: string,
    note: string,
    tags: Option<seq<string>>,
    publishedAt: Option<int>)

  /** `ListLinksFilter`: `from` is inclusive, `to` exclusive, `tags` match any-of. */
  datatype ListFilter = ListFilter(
    limit: int,
    from: Option<int>,
    to: Option<int>,
    domain: string,
    tags: seq<string>)

  /** Why a creation fails: the schema's non-empty URL check, the primary key, or the
      database itself. */
  datatype StoreError = EmptyUrl | DuplicateId | DatabaseError(message: string)

  const DefaultLimit: int := 50

  // ---------------------------------------------------------------------------------------
  // Creation

  /** The builder calls of `CreateLink`: every text field is set, even when it is "". */
  function NewLinkOf(input: CreateLinkInput): (v: NewLink)
    ensures v.userId == Some(input.userId) && v.url == input.url
    ensures v.title == Some(input.title) && v.description == Some(input.description)
    ensures v.domain == Some(input.domain) && v.ogImage == Some(input.ogImage)
    ensures v.pageUrl == Some(input.pageUrl) && v.note == Some(input.note)
    ensures v.tags == input.tags && v.publishedAt == input.publishedAt
  {
    NewLink(Some(input.userId), input.url, Some(input.title), Some(input.description),
      Some(input.domain), Some(input.ogImage), Some(input.pageUrl), Some(input.note),
      input.tags, input.publishedAt)
  }

  /** The row a successful creation adds. */
  function CreatedRow(input: CreateLinkInput, freshId: Uuid, savedNow: int, createdNow: int): EntLink {
    WithDefaults(NewLinkOf(input), freshId, savedNow, createdNow)
  }

  /** Whether some row has the id. */
  predicate IdTaken(rows: seq<EntLink>, id: Uuid) {
    exists i :: 0 <= i < |rows| && rows[i].id == id
  }

  /** A created link reads back, once converted, as exactly the input: every text field, the
      URL, the owner and the publication time, with the returned id text. */
  lemma CreatedReadsBack(input: CreateLinkInput, freshId: Uuid, savedNow: int, createdNow: int)
    ensures ToModel(CreatedRow(input, freshId, savedNow, createdNow)) ==
      Link(UuidText(freshId), input.url, input.title, input.description, input.domain,
        input.ogImage, input.pageUrl, input.note, input.userId, input.publishedAt, savedNow)
    ensures Valid(CreatedRow(input, freshId, savedNow, createdNow)) <==> input.url != ""
  {
  }

  // ---------------------------------------------------------------------------------------
  // Selection

  /** `COALESCE(published_at, saved_at)`. */
  function EffectiveTime(l: EntLink): int {
    if l.publishedAt.Some? then l.publishedAt.value else l.savedAt
  }

  /** Whether some filter tag is among the row's tags; the disjunction of one
      `tags @> '["t"]'` per filter tag. A null tag list contains nothing. */
  predicate SharesTag(filterTags: seq<string>, rowTags: Option<seq<string>>)
    decreases |filterTags|
  {
    filterTags != [] && ((rowTags.Some? && filterTags[0] in rowTags.value) || SharesTag(filterTags[1..], rowTags))
  }

  lemma {:induction false} SharesTagIff(filterTags: seq<string>, rowTags: Option<seq<string>>)
    ensures SharesTag(filterTags, rowTags) <==>
      rowTags.Some? && exists t :: t in filterTags && t in rowTags.value
    decreases |filterTags|
  {
    if filterTags != [] {
      SharesTagIff(filterTags[1..], rowTags);
      if rowTags.Some? && exists t :: t in filterTags && t in rowTags.value {
        var t :| t in filterTags && t in rowTags.value;
        if t != filterTags[0] {
          assert t in filterTags[1..];
        }
      }
    }
  }

  /** The `WHERE` clause of `ListLinks`. A null column never equals a value. */
  predicate Matches(l: EntLink, userId: string, f: ListFilter) {
    && l.userId == Some(userId)
    && (f.domain != "" ==> l.domain == Some(f.domain))
    && (f.from.Some? ==> EffectiveTime(l) >= f.from.value)
    && (f.to.Some? ==> EffectiveTime(l) < f.to.value)
    && (|f.tags| > 0 ==> SharesTag(f.tags, l.tags))
  }

  /** The rows the `WHERE` clause keeps, in table order. */
  function Kept(rows: seq<EntLink>, userId: string, f: ListFilter): (r: seq<EntLink>)
    ensures |r| <= |rows|
  {
    if rows == [] then []
    else (if Matches(rows[0], userId, f) then [rows[0]] else []) + Kept(rows[1..], userId, f)
  }

  lemma {:induction false} KeptMembers(rows: seq<EntLink>, userId: string, f: ListFilter, x: EntLink)
    ensures x in Kept(rows, userId, f) <==> x in rows && Matches(x, userId, f)
    decreases |rows|
  {
    if rows != [] {
      KeptMembers(rows[1..], userId, f, x);
      assert rows == [rows[0]] + rows[1..];
    }
  }

  /** `ORDER BY COALESCE(published_at, saved_at) DESC, saved_at DESC, id DESC`: whether `a`
      may come before `b`. */
  predicate RanksAtLeast(a: EntLink, b: EntLink) {
    || EffectiveTime(a) > EffectiveTime(b)
    || (EffectiveTime(a) == EffectiveTime(b) && (a.savedAt > b.savedAt || (a.savedAt == b.savedAt && a.id >= b.id)))
  }

  /** Every row ranks at least as high as every later one. */
  predicate Ordered(s: seq<EntLink>)
    decreases |s|
  {
    s == [] || ((forall e | e in s[1..] :: RanksAtLeast(s[0], e)) && Ordered(s[1..]))
  }

  lemma {:induction false} OrderedAt(s: seq<EntLink>, i: nat, j: nat)
    requires Ordered(s) && i < j < |s|
    ensures RanksAtLeast(s[i], s[j])
    decreases i
  {
    if i == 0 {
      assert s[j] in s[1..];
    } else {
      OrderedAt(s[1..], i - 1, j - 1);
    }
  }

  /** `x` placed before the first row it ranks at least as high as. */
  function Insert(x: EntLink, s: seq<EntLink>): (r: seq<EntLink>)
    ensures multiset(r) == multiset(s) + multiset{x}
  {
    if s == [] then [x]
    else if RanksAtLeast(x, s[0]) then [x] + s
    else
      assert s == [s[0]] + s[1..];
      [s[0]] + Insert(x, s[1..])
  }

  /** The rows in the `ORDER BY` order. */
  function Sort(s: seq<EntLink>): (r: seq<EntLink>)
    ensures multiset(r) == multiset(s)
  {
    if s == [] then []
    else
      assert s == [s[0]] + s[1..];
      Insert(s[0], Sort(s[1..]))
  }

  lemma {:induction false} InsertOrdered(x: EntLink, s: seq<EntLink>)
    requires Ordered(s)
    ensures Ordered(Insert(x, s))
    decreases |s|
  {
    var r := Insert(x, s);
    if s == [] {
      assert r[1..] == [];
    } else if RanksAtLeast(x, s[0]) {
      assert r[1..] == s;
      forall e | e in s
        ensures RanksAtLeast(x, e)
      {
        if e != s[0] {
          assert e in s[1..];
        }
      }
    } else {
      InsertOrdered(x, s[1..]);
      assert r[1..] == Insert(x, s[1..]);
      forall e | e in r[1..]
        ensures RanksAtLeast(s[0], e)
      {
        assert e in multiset(Insert(x, s[1..]));
      }
    }
  }

  lemma {:induction false} SortOrdered(s: seq<EntLink>)
    ensures Ordered(Sort(s))
    decreases |s|
  {
    if s != [] {
      SortOrdered(s[1..]);
      InsertOrdered(s[0], Sort(s[1..]));
    }
  }

  /** No two rows share an id, as the primary key guarantees. */
  predicate DistinctIds(s: seq<EntLink>) {
    forall i, j | 0 <= i < j < |s| :: s[i].id != s[j].id
  }

  /** No two different rows among `s` share an id. */
  predicate IdsIdentify(s: seq<EntLink>) {
    forall x, y | x in s && y in s && x.id == y.id :: x == y
  }

  /** When ids identify rows, `ORDER BY` leaves no ties: two orderings of the same rows are
      the same sequence. */
  lemma {:induction false} OrderIsDetermined(a: seq<EntLink>, b: seq<EntLink>)
    requires Ordered(a) && Ordered(b) && multiset(a) == multiset(b) && IdsIdentify(a)
    ensures a == b
    decreases |a|
  {
    if a != [] {
      assert |b| == |multiset(b)| == |a|;
      SameHead(a, b);
      assert multiset(a) == multiset{a[0]} + multiset(a[1..]) by {
        assert a == [a[0]] + a[1..];
      }
      assert multiset(b) == multiset{b[0]} + multiset(b[1..]) by {
        assert b == [b[0]] + b[1..];
      }
      assert multiset(a[1..]) == multiset(a) - multiset{a[0]};
      assert multiset(b[1..]) == multiset(b) - multiset{b[0]};
      assert forall x | x in a[1..] :: x in a;
      OrderIsDetermined(a[1..], b[1..]);
      assert a == [a[0]] + a[1..] && b == [b[0]] + b[1..];
    }
  }

  /** Two orderings of the same rows start with the same row. */
  lemma SameHead(a: seq<EntLink>, b: seq<EntLink>)
    requires a != [] && b != []
    requires Ordered(a) && Ordered(b) && multiset(a) == multiset(b) && IdsIdentify(a)
    ensures a[0] == b[0]
  {
    assert a == [a[0]] + a[1..] && b == [b[0]] + b[1..];
    assert a[0] in multiset(b) && b[0] in multiset(a);
    assert a[0] == b[0] || (a[0] in b[1..] && b[0] in a[1..]);
  }

  /** For a table with unique ids, the kept rows have exactly one order that `ORDER BY`
      accepts, and `Sort` computes it. */
  lemma SortIsTheOrder(rows: seq<EntLink>, userId: string, f: ListFilter, p: seq<EntLink>)
    requires DistinctIds(rows)
    requires Ordered(p) && multiset(p) == multiset(Kept(rows, userId, f))
    ensures p == Sort(Kept(rows, userId, f))
  {
    var kept := Kept(rows, userId, f);
    SortOrdered(kept);
    forall x, y | x in Sort(kept) && y in Sort(kept) && x.id == y.id
      ensures x == y
    {
      assert x in multiset(Sort(kept)) && y in multiset(Sort(kept));
      KeptMembers(rows, userId, f, x);
      KeptMembers(rows, userId, f, y);
      var i :| 0 <= i < |rows| && rows[i] == x;
      var j :| 0 <= j < |rows| && rows[j] == y;
    }
    OrderIsDetermined(Sort(kept), p);
  }

  /** `if limit <= 0 { limit = 50 }`. */
  function EffectiveLimit(limit: int): (n: int)
    ensures n >= 1
    ensures limit > 0 ==> n == limit
  {
    if limit <= 0 then DefaultLimit else limit
  }

  /** The rows the query returns: the kept rows in order, at most `limit` of them. */
  function Selected(rows: seq<EntLink>, userId: string, f: ListFilter): (r: seq<EntLink>)
    ensures |r| <= EffectiveLimit(f.limit)
  {
    var sorted := Sort(Kept(rows, userId, f));
    var n := EffectiveLimit(f.limit);
    if |sorted| <= n then sorted else sorted[..n]
  }

  /** Only the caller's matching rows are listed. */
  lemma SelectedMatch(rows: seq<EntLink>, userId: string, f: ListFilter, x: EntLink)
    requires x in Selected(rows, userId, f)
    ensures x in rows && Matches(x, userId, f)
  {
    var sorted := Sort(Kept(rows, userId, f));
    assert x in sorted;
    assert x in multiset(sorted);
    KeptMembers(rows, userId, f, x);
  }

  /** The listed rows are in the `ORDER BY` order. */
  lemma SelectedOrdered(rows: seq<EntLink>, userId: string, f: ListFilter)
    ensures Ordered(Selected(rows, userId, f))
  {
    var sorted := Sort(Kept(rows, userId, f));
    SortOrdered(Kept(rows, userId, f));
    OrderedPrefix(sorted, |Selected(rows, userId, f)|);
    assert Selected(rows, userId, f) == sorted[..|Selected(rows, userId, f)|];
  }

  /** A matching row is left out only when `limit` rows that rank at least as high fill the
      result. */
  lemma SelectedComplete(rows: seq<EntLink>, userId: string, f: ListFilter, x: EntLink)
    requires x in rows && Matches(x, userId, f)
    requires x !in Selected(rows, userId, f)
    ensures |Selected(rows, userId, f)| == EffectiveLimit(f.limit)
    ensures forall y | y in Selected(rows, userId, f) :: RanksAtLeast(y, x)
  {
    var kept := Kept(rows, userId, f);
    var sorted := Sort(kept);
    var sel := Selected(rows, userId, f);
    var j := PositionIn(rows, userId, f, x);
    assert sel == sorted[..|sel|];
    assert j >= |sel|;
    SortOrdered(kept);
    forall y | y in sel
      ensures RanksAtLeast(y, x)
    {
      var i :| 0 <= i < |sel| && sel[i] == y;
      OrderedAt(sorted, i, j);
    }
  }

  /** Where a matching row stands in the ordered kept rows. */
  lemma PositionIn(rows: seq<EntLink>, userId: string, f: ListFilter, x: EntLink) returns (j: nat)
    requires x in rows && Matches(x, userId, f)
    ensures j < |Sort(Kept(rows, userId, f))| && Sort(Kept(rows, userId, f))[j] == x
  {
    KeptMembers(rows, userId, f, x);
    assert x in multiset(Sort(Kept(rows, userId, f)));
    j :| 0 <= j < |Sort(Kept(rows, userId, f))| && Sort(Kept(rows, userId, f))[j] == x;
  }

  lemma {:induction false} OrderedPrefix(s: seq<EntLink>, k: nat)
    requires Ordered(s) && k <= |s|
    ensures Ordered(s[..k])
    decreases k
  {
    if k > 0 {
      OrderedPrefix(s[1..], k - 1);
      assert s[..k][1..] == s[1..][..k - 1];
      forall e | e in s[..k][1..]
        ensures RanksAtLeast(s[0], e)
      {
        assert e in s[1..];
      }
    }
  }

  /** The link table. */
  class LinkStore {
    var rows: seq<EntLink>

    /** Every row satisfies the schema and ids are unique. */
    predicate Valid()
      reads this
    {
      && (forall i | 0 <= i < |rows| :: LinkSchema.Valid(rows[i]))
      && DistinctIds(rows)
    }

    constructor()
      ensures rows == [] && Valid()
    {
      rows := [];
    }

    /** `CreateLink`: the builder, then `Save`. `freshId` is the `uuid.New()` draw, `savedNow`
        and `createdNow` the two `time.Now()` readings and `dbError` the outcome of the insert
        statement itself. */
    method CreateLink(input: CreateLinkInput, freshId: Uuid, savedNow: int, createdNow: int, dbError: Option<string>)
      returns (r: Result<string, StoreError>)
      requires Valid()
      modifies this
      ensures Valid()
      ensures input.url == "" ==> r == Failure(EmptyUrl)
      ensures input.url != "" && IdTaken(old(rows), freshId) ==> r == Failure(DuplicateId)
      ensures input.url != "" && !IdTaken(old(rows), freshId) && dbError.Some? ==>
        r == Failure(DatabaseError(dbError.value))
      ensures r.Success? <==> input.url != "" && !IdTaken(old(rows), freshId) && dbError.None?
      ensures r.Success? ==> rows == old(rows) + [CreatedRow(input, freshId, savedNow, createdNow)] && r.value == UuidText(freshId)
      ensures r.Failure? ==> rows == old(rows)
    {
      if input.url == "" {
        return Failure(EmptyUrl);
      }
      if exists i :: 0 <= i < |rows| && rows[i].id == freshId {
        return Failure(DuplicateId);
      }
      if dbError.Some? {
        return Failure(DatabaseError(dbError.value));
      }
      rows := rows + [CreatedRow(input, freshId, savedNow, createdNow)];
      r := Success(UuidText(freshId));
    }

    /** `ListLinks`: the selected rows, converted in order. */
    method ListLinks(userId: string, f: ListFilter) returns (links: seq<Link>)
      ensures links == ModelsOf(Selected(rows, userId, f))
      ensures |links| <= EffectiveLimit(f.limit)
    {
      links := ToModels(Selected(rows, userId, f));
    }
  }
}
