/**
 * The dashboard's link filters: tag-input parsing, the active filters derived from the URL's
 * query, the query written when filters are applied, and the badges shown for the active
 * filters. The list page and the filter panel share these rules.
 */
module LinkFilters {
  import opened Wrappers
  import Text
  import Numbers
  import opened SearchParams

  /** The characters of the tag-input separator class `[\s,]`. */
  const TagSeparators: set<char> := set c: char | Text.IsJsSpace(c) || c == ','
  const TagGlue: string := ", "
  const DefaultLimit: int := 50
  const MinLimit: int := 1
  const MaxLimit: int := 100

  // ---------------------------------------------------------------------------------------
  // Tag input

  predicate Distinct<T(==)>(xs: seq<T>) {
    forall i, j :: 0 <= i < j < |xs| ==> xs[i] != xs[j]
  }

  /** The position of the first occurrence of `x`. */
  function FirstIndex(xs: seq<string>, x: string): (k: nat)
    requires x in xs
    ensures k < |xs| && xs[k] == x
  {
    if xs[0] == x then 0 else 1 + FirstIndex(xs[1..], x)
  }

  /** No earlier position holds `x`. */
  lemma {:induction false} FirstIndexIsFirst(xs: seq<string>, x: string)
    requires x in xs
    ensures forall i :: 0 <= i < FirstIndex(xs, x) ==> xs[i] != x
    decreases |xs|
  {
    if xs[0] != x {
      FirstIndexIsFirst(xs[1..], x);
      assert forall i :: 1 <= i < |xs| ==> xs[i] == xs[1..][i - 1];
    }
  }

  lemma {:induction false} FirstIndexOfPrefix(xs: seq<string>, last: string, x: string)
    requires x in xs
    ensures FirstIndex(xs + [last], x) == FirstIndex(xs, x)
    decreases |xs|
  {
    if xs[0] != x {
      assert (xs + [last])[1..] == xs[1..] + [last];
      FirstIndexOfPrefix(xs[1..], last, x);
    }
  }

  /** `Array.from(new Set(xs))`: each element once, in the order of first occurrence. */
  function Dedupe(xs: seq<string>): (r: seq<string>)
    ensures |r| <= |xs|
    decreases |xs|
  {
    if xs == [] then []
    else
      var d := Dedupe(xs[..|xs| - 1]);
      if xs[|xs| - 1] in d then d else d + [xs[|xs| - 1]]
  }

  /** The deduplication holds each member once, holds exactly the members, and orders them by
      first occurrence. */
  lemma {:induction false} DedupeSpec(xs: seq<string>)
    ensures Distinct(Dedupe(xs))
    ensures forall x :: x in Dedupe(xs) <==> x in xs
    ensures forall i, j :: 0 <= i < j < |Dedupe(xs)| ==> FirstIndex(xs, Dedupe(xs)[i]) < FirstIndex(xs, Dedupe(xs)[j])
    decreases |xs|
  {
    if xs != [] {
      var init := xs[..|xs| - 1];
      var last := xs[|xs| - 1];
      var d := Dedupe(init);
      DedupeSpec(init);
      assert xs == init + [last];
      FirstIndicesKept(init, last, d);
    }
  }

  lemma FirstIndicesKept(init: seq<string>, last: string, d: seq<string>)
    requires forall x :: x in d ==> x in init
    ensures forall x :: x in d ==> FirstIndex(init + [last], x) == FirstIndex(init, x)
  {
    forall x | x in d
      ensures FirstIndex(init + [last], x) == FirstIndex(init, x)
    {
      FirstIndexOfPrefix(init, last, x);
    }
  }

  /** A list without duplicates is its own deduplication. */
  lemma {:induction false} DedupeOfDistinct(xs: seq<string>)
    requires Distinct(xs)
    ensures Dedupe(xs) == xs
    decreases |xs|
  {
    if xs != [] {
      var init := xs[..|xs| - 1];
      DedupeOfDistinct(init);
      DedupeSpec(init);
      assert xs[|xs| - 1] !in init;
      assert init + [xs[|xs| - 1]] == xs;
    }
  }

  /** Trims every element (`.map((t) => t.trim())`). */
  function TrimEach(xs: seq<string>): (r: seq<string>)
    ensures |r| == |xs|
  {
    seq(|xs|, i requires 0 <= i < |xs| => Text.TrimJs(xs[i]))
  }

  /** Trimming strings that have no whitespace at either end changes nothing. */
  lemma TrimEachOfTrimmed(xs: seq<string>)
    requires forall i :: 0 <= i < |xs| ==> Text.IsJsTrimmed(xs[i])
    ensures TrimEach(xs) == xs
  {
    forall i | 0 <= i < |xs|
      ensures TrimEach(xs)[i] == xs[i]
    {
      assert Text.TrimJs(xs[i]) == xs[i];
    }
  }

  lemma {:induction false} NonEmptyOfNonEmpty(xs: seq<string>)
    requires forall i :: 0 <= i < |xs| ==> xs[i] != ""
    ensures Text.NonEmpty(xs) == xs
    decreases |xs|
  {
    if xs != [] {
      NonEmptyOfNonEmpty(xs[1..]);
      assert xs == [xs[0]] + xs[1..];
    }
  }

  /** A string with no separator has no whitespace, so trimming keeps it. */
  lemma TrimmedWhenFree(s: string)
    requires Text.FreeOf(s, TagSeparators)
    ensures Text.IsJsTrimmed(s) && Text.TrimJs(s) == s
  {
    if s != [] {
      assert s[0] !in TagSeparators && s[|s| - 1] !in TagSeparators;
    }
  }

  /** `parseTagsInput`: split at runs of whitespace and commas, trim, drop empties, dedupe in
      first-occurrence order. Splitting at each single separator and dropping the empty pieces
      gives the same pieces as splitting at runs. */
  function ParseTagsInput(input: string): (tags: seq<string>)
    ensures |tags| <= |Text.Split(input, TagSeparators)|
  {
    Dedupe(Text.NonEmpty(TrimEach(Text.Split(input, TagSeparators))))
  }

  /** The parsed tags are distinct, non-empty, separator-free and trimmed, and they are exactly
      the non-empty pieces of the input. */
  lemma ParseTagsInputSpec(input: string)
    ensures var tags := ParseTagsInput(input);
      && Distinct(tags)
      && (forall i :: 0 <= i < |tags| ==> tags[i] != "" && Text.FreeOf(tags[i], TagSeparators))
      && (forall i :: 0 <= i < |tags| ==> Text.IsJsTrimmed(tags[i]))
      && (forall t :: t in tags <==> t != "" && t in Text.Split(input, TagSeparators))
  {
    var pieces := Text.Split(input, TagSeparators);
    Text.SplitPiecesFree(input, TagSeparators);
    PiecesTrimmed(pieces);
    TrimEachOfTrimmed(pieces);
    var tags := Dedupe(Text.NonEmpty(pieces));
    DedupeSpec(Text.NonEmpty(pieces));
    TagFacts(pieces, tags);
  }

  /** The deduplicated non-empty pieces are non-empty, separator-free and trimmed, and are
      exactly the non-empty pieces. */
  lemma TagFacts(pieces: seq<string>, tags: seq<string>)
    requires forall i :: 0 <= i < |pieces| ==> Text.FreeOf(pieces[i], TagSeparators)
    requires tags == Dedupe(Text.NonEmpty(pieces))
    requires forall t :: t in tags <==> t in Text.NonEmpty(pieces)
    ensures forall i :: 0 <= i < |tags| ==>
      tags[i] != "" && Text.FreeOf(tags[i], TagSeparators) && Text.IsJsTrimmed(tags[i])
    ensures forall t :: t in tags <==> t != "" && t in pieces
  {
    forall i | 0 <= i < |tags|
      ensures tags[i] != "" && Text.FreeOf(tags[i], TagSeparators) && Text.IsJsTrimmed(tags[i])
    {
      TagFact(pieces, tags[i]);
    }
    Text.NonEmptyMembers(pieces);
    forall t
      ensures t in tags <==> t != "" && t in pieces
    {
      if t in tags {
        TagFact(pieces, t);
      }
    }
  }

  lemma TagFact(pieces: seq<string>, t: string)
    requires forall i :: 0 <= i < |pieces| ==> Text.FreeOf(pieces[i], TagSeparators)
    requires t in Text.NonEmpty(pieces)
    ensures t != "" && t in pieces && Text.FreeOf(t, TagSeparators) && Text.IsJsTrimmed(t)
  {
    Text.NonEmptyMembers(pieces);
    assert t in pieces;
    var k :| 0 <= k < |pieces| && pieces[k] == t;
    TrimmedWhenFree(pieces[k]);
  }

  lemma PiecesTrimmed(pieces: seq<string>)
    requires forall i :: 0 <= i < |pieces| ==> Text.FreeOf(pieces[i], TagSeparators)
    ensures forall i :: 0 <= i < |pieces| ==> Text.IsJsTrimmed(pieces[i])
  {
    forall i | 0 <= i < |pieces|
      ensures Text.IsJsTrimmed(pieces[i])
    {
      TrimmedWhenFree(pieces[i]);
    }
  }

  /** Splitting tags joined by ", " and dropping the empty pieces gives the tags back. */
  lemma {:induction false} SplitJoinedTags(tags: seq<string>)
    requires forall i :: 0 <= i < |tags| ==> tags[i] != "" && Text.FreeOf(tags[i], TagSeparators)
    ensures Text.NonEmpty(Text.Split(Text.Join(tags, TagGlue), TagSeparators)) == tags
    decreases |tags|
  {
    if tags == [] {
    } else if |tags| == 1 {
      Text.SplitFree(tags[0], TagSeparators);
    } else {
      var rest := Text.Join(tags[1..], TagGlue);
      SplitJoinedTags(tags[1..]);
      assert Text.Join(tags, TagGlue) == tags[0] + [','] + ([' '] + rest);
      Text.SplitAfterPiece(tags[0], ',', [' '] + rest, TagSeparators);
      assert Text.FreeOf("", TagSeparators);
      assert [' '] + rest == "" + [' '] + rest;
      Text.SpaceIsJsSpace();
      Text.SplitAfterPiece("", ' ', rest, TagSeparators);
      var pieces := Text.Split(rest, TagSeparators);
      assert Text.Split(Text.Join(tags, TagGlue), TagSeparators) == [tags[0]] + ([""] + pieces);
      Text.NonEmptyAppend([tags[0]], [""] + pieces);
      Text.NonEmptyAppend([""], pieces);
      assert tags == [tags[0]] + tags[1..];
    }
  }

  /** Tags shown in the input as "a, b, c" parse back to the same tags, duplicates removed,
      provided no tag contains a separator. */
  lemma ParseTagsOfJoined(tags: seq<string>)
    requires forall i :: 0 <= i < |tags| ==> tags[i] != "" && Text.FreeOf(tags[i], TagSeparators)
    ensures ParseTagsInput(Text.Join(tags, TagGlue)) == Dedupe(tags)
  {
    var pieces := Text.Split(Text.Join(tags, TagGlue), TagSeparators);
    Text.SplitPiecesFree(Text.Join(tags, TagGlue), TagSeparators);
    PiecesTrimmed(pieces);
    TrimEachOfTrimmed(pieces);
    SplitJoinedTags(tags);
  }

  /** Parsing is idempotent: re-parsing the joined result of a parse gives the same tags. */
  lemma ParseTagsIdempotent(input: string)
    ensures ParseTagsInput(Text.Join(ParseTagsInput(input), TagGlue)) == ParseTagsInput(input)
  {
    var tags := ParseTagsInput(input);
    ParseTagsInputSpec(input);
    ParseTagsOfJoined(tags);
    DedupeOfDistinct(tags);
  }

  // ---------------------------------------------------------------------------------------
  // Active filters

  /** The filters the list shows, as derived from the URL's query. */
  datatype ActiveFilters = ActiveFilters(from: string, to: string, domain: string, tags: seq<string>, limit: int)

  /** `Number.isFinite(n) ? Math.min(100, Math.max(1, n)) : 50`. */
  function ClampLimit(n: Numbers.JsNumber): (limit: int)
    ensures MinLimit <= limit <= MaxLimit
    ensures n.NotFinite? ==> limit == DefaultLimit
    ensures n.Finite? && MinLimit <= n.value <= MaxLimit ==> limit == n.value
    ensures n.Finite? && n.value < MinLimit ==> limit == MinLimit
    ensures n.Finite? && n.value > MaxLimit ==> limit == MaxLimit
  {
    match n
    case Finite(v) => if v < MinLimit then MinLimit else if v > MaxLimit then MaxLimit else v
    case NotFinite => DefaultLimit
  }

  /** The default limit written out is "50". */
  lemma DefaultLimitText()
    ensures Numbers.IntToString(DefaultLimit) == "50"
  {
    assert Numbers.NatToString(5) == ['5'];
    assert Numbers.NatToString(50) == Numbers.NatToString(5) + ['0'];
  }

  /** `params.get(name) ?? ""`. */
  function GetOrEmpty(ps: Params, name: string): string {
    Get(ps, name).GetOr("")
  }

  /** The `active` memo: absent text filters are "", the tags are every `tag` value trimmed
      with empties dropped, and the limit is the clamped number or 50. */
  function DeriveActive(ps: Params): ActiveFilters {
    ActiveFilters(GetOrEmpty(ps, "from"), GetOrEmpty(ps, "to"), GetOrEmpty(ps, "domain"),
      ActiveTags(ps), ActiveLimit(ps))
  }

  /** Every `tag` value, trimmed, with the empty ones dropped; order and duplicates are kept. */
  function ActiveTags(ps: Params): (tags: seq<string>)
    ensures |tags| <= |GetAll(ps, "tag")|
  {
    Text.NonEmpty(TrimEach(GetAll(ps, "tag")))
  }

  /** The active tags are non-empty and trimmed, and they are the trimmed `tag` values. */
  lemma ActiveTagsClean(ps: Params)
    ensures forall t :: t in ActiveTags(ps) <==> t != "" && t in TrimEach(GetAll(ps, "tag"))
    ensures forall t :: t in ActiveTags(ps) ==> Text.IsJsTrimmed(t)
  {
    Text.NonEmptyMembers(TrimEach(GetAll(ps, "tag")));
  }

  /** `limit` read as a number and clamped to 1..100; absent or not a number, 50. */
  function ActiveLimit(ps: Params): (limit: int)
    ensures MinLimit <= limit <= MaxLimit
    ensures Get(ps, "limit").None? ==> limit == DefaultLimit
  {
    var limitRaw := Get(ps, "limit").GetOr("50");
    assert Get(ps, "limit").None? ==> Numbers.JsNumberOf(limitRaw) == Numbers.Finite(50) by {
      Numbers.JsNumberOfIntToString(50);
      DefaultLimitText();
    }
    ClampLimit(Numbers.JsNumberOf(limitRaw))
  }

  /** What the list component receives: empty text filters and an empty tag list become
      absent. */
  datatype ListProps = ListProps(
    limit: Option<int>,
    from: Option<string>,
    to: Option<string>,
    domain: Option<string>,
    tags: Option<seq<string>>)

  function NonEmptyOrAbsent(s: string): (r: Option<string>)
    ensures r.None? <==> s == ""
    ensures r.Some? ==> r.value == s
  {
    if s == "" then None else Some(s)
  }

  /** The list's props from the active filters. */
  function ListPropsOf(a: ActiveFilters): (p: ListProps)
    ensures p.limit == Some(a.limit)
    ensures p.from.None? <==> a.from == ""
    ensures p.to.None? <==> a.to == ""
    ensures p.domain.None? <==> a.domain == ""
    ensures p.tags.None? <==> a.tags == []
    ensures p.tags.Some? ==> p.tags.value == a.tags
  {
    ListProps(Some(a.limit), NonEmptyOrAbsent(a.from), NonEmptyOrAbsent(a.to), NonEmptyOrAbsent(a.domain),
      if a.tags == [] then None else Some(a.tags))
  }

  // ---------------------------------------------------------------------------------------
  // Applying filters

  /** The panel's four text inputs. */
  datatype Inputs = Inputs(from: string, to: string, domain: string, tags: string)

  const EmptyInputs: Inputs := Inputs("", "", "", "")

  /** The inputs as the panel fills them from the active filters: tags joined by ", ". */
  function InputsOf(a: ActiveFilters): Inputs {
    Inputs(a.from, a.to, a.domain, Text.Join(a.tags, TagGlue))
  }

  function OptionalPair(name: string, value: string): (ps: Params)
    ensures value == "" ==> ps == []
    ensures value != "" ==> ps == [(name, value)]
  {
    if value == "" then [] else [(name, value)]
  }

  /** One `tag` pair per tag, in order. */
  function TagPairs(tags: seq<string>): (ps: Params)
    ensures |ps| == |tags|
  {
    if tags == [] then [] else TagPairs(tags[..|tags| - 1]) + [("tag", tags[|tags| - 1])]
  }

  /** The `limit` pair, written only when the limit differs from 50. */
  function LimitPair(limit: int): (ps: Params)
    ensures limit == DefaultLimit ==> ps == []
    ensures limit != DefaultLimit ==> ps == [("limit", Numbers.IntToString(limit))]
  {
    if limit != DefaultLimit then [("limit", Numbers.IntToString(limit))] else []
  }

  /** The pairs `applyFilters` sets before the tags: `limit` only when it differs from 50, then
      the non-empty text inputs in the order from, to, domain. */
  function TextParams(limit: int, inputs: Inputs): Params {
    LimitPair(limit) + OptionalPair("from", inputs.from) + OptionalPair("to", inputs.to)
      + OptionalPair("domain", inputs.domain)
  }

  /** The query `applyFilters` writes: the text pairs, then one `tag` per parsed tag. */
  function FilterParams(limit: int, inputs: Inputs): Params {
    TextParams(limit, inputs) + TagPairs(ParseTagsInput(inputs.tags))
  }

  /** Builds the query of `applyFilters` with `set` and `append` calls, as the panel does. */
  method BuildFilterParams(limit: int, inputs: Inputs) returns (next: Params)
    ensures next == FilterParams(limit, inputs)
  {
    next := SetTextFilters(limit, inputs);
    next := AppendTags(next, ParseTagsInput(inputs.tags));
  }

  /** The address `applyFilters` navigates to: the page itself, with the query when there is one. */
  method FilterRoute(base: string, limit: int, inputs: Inputs) returns (route: string)
    ensures route == Route(base, FilterParams(limit, inputs))
  {
    var next := BuildFilterParams(limit, inputs);
    route := Route(base, next);
  }

  /** The `set` calls on a fresh query. */
  method SetTextFilters(limit: int, inputs: Inputs) returns (next: Params)
    ensures next == TextParams(limit, inputs)
  {
    next := [];
    if limit != DefaultLimit {
      next := Set(next, "limit", Numbers.IntToString(limit));
      assert |"from"| == 4 && |"to"| == 2 && |"domain"| == 6 && |"limit"| == 5;
      HasNameOne("limit", Numbers.IntToString(limit), "from");
      HasNameOne("limit", Numbers.IntToString(limit), "to");
      HasNameOne("limit", Numbers.IntToString(limit), "domain");
    }
    next := SetWhenPresent(next, "from", inputs.from);
    next := SetWhenPresent(next, "to", inputs.to);
    next := SetWhenPresent(next, "domain", inputs.domain);
  }

  /** `if (value) params.set(name, value)` on a query that does not have the name yet. */
  method SetWhenPresent(ps: Params, name: string, value: string) returns (next: Params)
    requires !HasName(ps, name)
    ensures next == ps + OptionalPair(name, value)
    ensures forall n :: n != name ==> (HasName(next, n) <==> HasName(ps, n))
  {
    next := ps;
    if value != "" {
      next := Set(next, name, value);
    }
    forall n | n != name
      ensures HasName(next, n) <==> HasName(ps, n)
    {
      HasNameAppend(ps, OptionalPair(name, value), n);
    }
  }

  /** Appends one `tag` pair per tag, in order. */
  method AppendTags(ps: Params, tags: seq<string>) returns (next: Params)
    ensures next == ps + TagPairs(tags)
  {
    next := ps;
    for i := 0 to |tags|
      invariant next == ps + TagPairs(tags[..i])
    {
      assert TagPairs(tags[..i + 1]) == TagPairs(tags[..i]) + [("tag", tags[i])] by {
        assert tags[..i + 1][..i] == tags[..i];
      }
      next := Append(next, "tag", tags[i]);
    }
    assert tags[..|tags|] == tags;
  }

  /** Applying filters and re-deriving the active filters from the written query recovers the
      text inputs, the parsed tags and a limit in range. */
  lemma {:induction false} ApplyThenDerive(limit: int, inputs: Inputs)
    requires MinLimit <= limit <= MaxLimit
    ensures DeriveActive(FilterParams(limit, inputs))
         == ActiveFilters(inputs.from, inputs.to, inputs.domain, ParseTagsInput(inputs.tags), limit)
  {
    var ps := FilterParams(limit, inputs);
    WrittenTags(limit, inputs);
    WrittenLimit(limit, inputs);
    assert GetOrEmpty(ps, "from") == inputs.from by {
      WrittenLookup(limit, inputs, "from");
    }
    assert GetOrEmpty(ps, "to") == inputs.to by {
      WrittenLookup(limit, inputs, "to");
    }
    assert GetOrEmpty(ps, "domain") == inputs.domain by {
      WrittenLookup(limit, inputs, "domain");
    }
  }

  /** The limit of the written query reads back as the limit that was written. */
  lemma WrittenLimit(limit: int, inputs: Inputs)
    requires MinLimit <= limit <= MaxLimit
    ensures ActiveLimit(FilterParams(limit, inputs)) == limit
  {
    WrittenLookup(limit, inputs, "limit");
    if limit != DefaultLimit {
      Numbers.JsNumberOfIntToString(limit);
    }
  }

  /** The tags of the written query, as the active filters read them back. */
  lemma WrittenTags(limit: int, inputs: Inputs)
    ensures Text.NonEmpty(TrimEach(GetAll(FilterParams(limit, inputs), "tag"))) == ParseTagsInput(inputs.tags)
  {
    var tags := ParseTagsInput(inputs.tags);
    var text := TextParams(limit, inputs);
    ParseTagsInputSpec(inputs.tags);
    TagPairsValues(tags);
    GetAllAppend(text, TagPairs(tags), "tag");
    TextLookup(limit, inputs, "tag");
    GetIsFirstOfAll(text, "tag");
    assert GetAll(FilterParams(limit, inputs), "tag") == tags;
    TrimEachOfTrimmed(tags);
    NonEmptyOfNonEmpty(tags);
  }

  /** A lookup of a name other than `tag` in the written query finds the text pair. */
  lemma WrittenLookup(limit: int, inputs: Inputs, name: string)
    requires name != "tag"
    ensures Get(FilterParams(limit, inputs), name) == Get(TextParams(limit, inputs), name)
    ensures Get(FilterParams(limit, inputs), name) == TextValue(limit, inputs, name)
  {
    var tags := ParseTagsInput(inputs.tags);
    TagPairsValues(tags);
    GetFirstAppend(TextParams(limit, inputs), TagPairs(tags), name);
    TextLookup(limit, inputs, name);
  }

  /** The value the text pairs hold for a name. */
  function TextValue(limit: int, inputs: Inputs, name: string): Option<string> {
    if name == "limit" then (if limit != DefaultLimit then Some(Numbers.IntToString(limit)) else None)
    else if name == "from" then NonEmptyOrAbsent(inputs.from)
    else if name == "to" then NonEmptyOrAbsent(inputs.to)
    else if name == "domain" then NonEmptyOrAbsent(inputs.domain)
    else None
  }

  lemma {:induction false} TagPairsValues(tags: seq<string>)
    ensures GetAll(TagPairs(tags), "tag") == tags
    ensures forall n :: n != "tag" ==> Get(TagPairs(tags), n).None?
    decreases |tags|
  {
    if tags != [] {
      var init := tags[..|tags| - 1];
      var last := [("tag", tags[|tags| - 1])];
      TagPairsValues(init);
      GetAllAppend(TagPairs(init), last, "tag");
      assert init + [tags[|tags| - 1]] == tags;
      forall n | n != "tag"
        ensures Get(TagPairs(tags), n).None?
      {
        GetFirstAppend(TagPairs(init), last, n);
      }
    }
  }

  /** `get` on the text pairs finds each name's own value. */
  lemma {:induction false} TextLookup(limit: int, inputs: Inputs, name: string)
    ensures Get(TextParams(limit, inputs), name) == TextValue(limit, inputs, name)
  {
    var l := LimitPair(limit);
    var a := OptionalPair("from", inputs.from);
    var b := OptionalPair("to", inputs.to);
    var c := OptionalPair("domain", inputs.domain);
    GetFirstAppend(l + a + b, c, name);
    GetFirstAppend(l + a, b, name);
    GetFirstAppend(l, a, name);
    assert "from" != "limit" && "to" != "limit" && "domain" != "limit";
    assert "to" != "from" && "domain" != "from" && "domain" != "to";
  }

  /** `get` on a concatenation looks in the first part first. */
  lemma {:induction false} GetFirstAppend(ps: Params, qs: Params, name: string)
    ensures Get(ps + qs, name) == (if Get(ps, name).Some? then Get(ps, name) else Get(qs, name))
    decreases |ps|
  {
    if ps != [] {
      assert (ps + qs)[1..] == ps[1..] + qs;
      GetFirstAppend(ps[1..], qs, name);
    } else {
      assert ps + qs == qs;
    }
  }

  // ---------------------------------------------------------------------------------------
  // Badges

  datatype Badge = Badge(key: string, caption: string)

  /** The badge of a text filter: keyed by its name, captioned "name: value". */
  function FieldBadge(name: string, value: string): Badge {
    Badge(name, name + ": " + value)
  }

  /** The badge of a tag: keyed "tag:" + tag, captioned "tag: " + tag. */
  function TagBadge(t: string): Badge {
    Badge("tag:" + t, "tag: " + t)
  }

  /** The badges of the text filters: from, to and domain, each only when non-empty. */
  function FieldBadges(a: ActiveFilters): (b: seq<Badge>)
    ensures |b| <= 3
    ensures |b| == 0 <==> a.from == "" && a.to == "" && a.domain == ""
  {
    (if a.from != "" then [FieldBadge("from", a.from)] else [])
    + (if a.to != "" then [FieldBadge("to", a.to)] else [])
    + (if a.domain != "" then [FieldBadge("domain", a.domain)] else [])
  }

  /** One badge per tag that is non-empty after trimming, in order. */
  function TagBadges(tags: seq<string>): (b: seq<Badge>)
    ensures |b| <= |tags|
  {
    if tags == [] then []
    else
      var t := Text.TrimJs(tags[|tags| - 1]);
      TagBadges(tags[..|tags| - 1]) + (if t != "" then [TagBadge(t)] else [])
  }

  function BadgesOf(a: ActiveFilters): seq<Badge> {
    FieldBadges(a) + TagBadges(a.tags)
  }

  /** The `badges` memo, built by pushing as the panel does. */
  method Badges(a: ActiveFilters) returns (b: seq<Badge>)
    ensures b == BadgesOf(a)
  {
    b := PushFieldBadges(a);
    var tagBadges := PushTagBadges(a.tags);
    b := b + tagBadges;
  }

  /** The pushes for the text filters. */
  method PushFieldBadges(a: ActiveFilters) returns (b: seq<Badge>)
    ensures b == FieldBadges(a)
  {
    b := [];
    if a.from != "" {
      b := b + [FieldBadge("from", a.from)];
    }
    if a.to != "" {
      b := b + [FieldBadge("to", a.to)];
    }
    if a.domain != "" {
      b := b + [FieldBadge("domain", a.domain)];
    }
  }

  /** The pushes for the tags: blank tags are skipped. */
  method PushTagBadges(tags: seq<string>) returns (b: seq<Badge>)
    ensures b == TagBadges(tags)
  {
    b := [];
    for i := 0 to |tags|
      invariant b == TagBadges(tags[..i])
    {
      var trimmed := Text.TrimJs(tags[i]);
      assert tags[..i + 1][..i] == tags[..i];
      if trimmed == "" {
        continue;
      }
      b := b + [TagBadge(trimmed)];
    }
    assert tags[..|tags|] == tags;
  }

  lemma {:induction false} TagBadgesEmpty(tags: seq<string>)
    ensures TagBadges(tags) == [] <==> forall t :: t in tags ==> Text.TrimJs(t) == ""
    decreases |tags|
  {
    if tags != [] {
      var init := tags[..|tags| - 1];
      TagBadgesEmpty(init);
      assert tags == init + [tags[|tags| - 1]];
    }
  }

  /** `hasAnyActive`: there is a badge exactly when a text filter is set or some tag is
      non-blank. */
  lemma HasAnyActiveIff(a: ActiveFilters)
    ensures |BadgesOf(a)| > 0 <==>
      a.from != "" || a.to != "" || a.domain != "" || exists t :: t in a.tags && Text.TrimJs(t) != ""
  {
    TagBadgesEmpty(a.tags);
  }
}
