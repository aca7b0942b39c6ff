/**
 * The `links` table as the Ent schema declares it: a random UUID key, a required URL, nullable
 * text columns, a JSON tag list, a JSON metadata object and three timestamps. Timestamps are
 * integers (instants on one clock); a missing value of a nullable column is `None`.
 */
module LinkSchema {
  import opened Wrappers
  import opened JsValues

  const UuidBound: nat := 0x1_0000_0000_0000_0000_0000_0000_0000_0000

  /** A UUID as the 128-bit number its bytes spell, most significant first; PostgreSQL
      orders UUIDs by these bytes, hence by this number. */
  type Uuid = n: nat | n < UuidBound

  /** A row of `links`. */
  datatype EntLink = EntLink(
    id: Uuid,
    userId: Option<string>,
    url: string,
    title: Option<string>,
    description: Option<string>,
    domain: Option<string>,
    ogImage: Option<string>,
    pageUrl: Option<string>,
    note: Option<string>,
    tags: Option<seq<string>>,
    metadata: map<string, Json>,
    savedAt: int,
    createdAt: int,
    publishedAt: Option<int>)

  /** The constraint the schema checks before saving: the URL is not empty. */
  predicate Valid(l: EntLink) {
    l.url != ""
  }

  /** The values a creation sets; the rest come from the defaults. */
  datatype NewLink = NewLink(
    userId: Option<string>,
    url: string,
    title: Option<string>,
    description: Option<string>,
    domain: Option<string>,
    ogImage: Option<string>,
    pageUrl: Option<string>,
    note: Option<string>,
    tags: Option<seq<string>>,
    publishedAt: Option<int>)

  /** A created row: the set values, a fresh id, `saved_at` and `created_at` at the time of
      creation, and an empty metadata object. `freshId` is the `uuid.New()` draw; each time
      field has its own `time.Now()` default, so `savedNow` and `createdNow` are two readings
      of the clock, which may differ. */
  function WithDefaults(v: NewLink, freshId: Uuid, savedNow: int, createdNow: int): (l: EntLink)
    ensures l.id == freshId && l.savedAt == savedNow && l.createdAt == createdNow && l.metadata == map[]
    ensures l.userId == v.userId && l.url == v.url && l.title == v.title && l.description == v.description
    ensures l.domain == v.domain && l.ogImage == v.ogImage && l.pageUrl == v.pageUrl && l.note == v.note
    ensures l.tags == v.tags && l.publishedAt == v.publishedAt
    ensures Valid(l) <==> v.url != ""
  {
    EntLink(freshId, v.userId, v.url, v.title, v.description, v.domain, v.ogImage, v.pageUrl, v.note,
      v.tags, map[], savedNow, createdNow, v.publishedAt)
  }

  // ---------------------------------------------------------------------------------------
  // The text form of an id

  function HexDigit(d: nat): (c: char)
    requires d < 16
  {
    if d < 10 then ('0' as int + d) as char else ('a' as int + d - 10) as char
  }

  /** The lower-case hexadecimal digits of `n`, most significant first, `width` of them. */
  function Hex(n: nat, width: nat): (s: string)
    ensures |s| == width
    decreases width
  {
    if width == 0 then "" else Hex(n / 16, width - 1) + [HexDigit(n % 16)]
  }

  function Pow16(k: nat): nat {
    if k == 0 then 1 else 16 * Pow16(k - 1)
  }

  /** Two numbers below 16^width with the same digits are equal. */
  lemma {:induction false} HexInjective(n: nat, m: nat, width: nat)
    requires n < Pow16(width) && m < Pow16(width)
    requires Hex(n, width) == Hex(m, width)
    ensures n == m
    decreases width
  {
    if width > 0 {
      var a := Hex(n, width);
      var b := Hex(m, width);
      assert a[..width - 1] == Hex(n / 16, width - 1) && b[..width - 1] == Hex(m / 16, width - 1);
      assert HexDigit(n % 16) == a[width - 1] == b[width - 1] == HexDigit(m % 16);
      HexInjective(n / 16, m / 16, width - 1);
    }
  }

  lemma UuidBoundIsPow16()
    ensures Pow16(32) == UuidBound
  {
    assert Pow16(0) == 1;
    assert Pow16(4) == 0x1_0000 by {
      assert Pow16(1) == 16 && Pow16(2) == 256 && Pow16(3) == 4096;
    }
    assert Pow16(8) == 0x1_0000_0000 by {
      assert Pow16(5) == 16 * Pow16(4) && Pow16(6) == 16 * Pow16(5) && Pow16(7) == 16 * Pow16(6);
    }
    assert Pow16(16) == 0x1_0000_0000_0000_0000 by {
      Pow16Add(8, 8);
    }
    Pow16Add(16, 16);
  }

  lemma {:induction false} Pow16Add(a: nat, b: nat)
    ensures Pow16(a + b) == Pow16(a) * Pow16(b)
    decreases a
  {
    if a > 0 {
      Pow16Add(a - 1, b);
    }
  }

  /** The 8-4-4-4-12 grouping of 32 digits. */
  function Dashed(h: string): (s: string)
    requires |h| == 32
    ensures |s| == 36
    ensures s[8] == '-' && s[13] == '-' && s[18] == '-' && s[23] == '-'
  {
    h[..8] + "-" + h[8..12] + "-" + h[12..16] + "-" + h[16..20] + "-" + h[20..]
  }

  /** The digits of a grouped text, dashes dropped. */
  function Undashed(s: string): string
    requires |s| == 36
  {
    s[..8] + s[9..13] + s[14..18] + s[19..23] + s[24..]
  }

  lemma UndashedDashed(h: string)
    requires |h| == 32
    ensures Undashed(Dashed(h)) == h
  {
    var s := Dashed(h);
    var d := Undashed(s);
    assert |d| == 32;
    forall i | 0 <= i < 32
      ensures d[i] == h[i]
    {
      if i < 8 {
        assert d[i] == s[i];
      } else if i < 12 {
        assert d[i] == s[i + 1];
      } else if i < 16 {
        assert d[i] == s[i + 2];
      } else if i < 20 {
        assert d[i] == s[i + 3];
      } else {
        assert d[i] == s[i + 4];
      }
    }
  }

  /** `uuid.UUID.String()`: 32 lower-case hexadecimal digits in groups of 8, 4, 4, 4 and 12. */
  function UuidText(u: Uuid): (s: string)
    ensures |s| == 36
    ensures s[8] == '-' && s[13] == '-' && s[18] == '-' && s[23] == '-'
  {
    Dashed(Hex(u, 32))
  }

  /** Different ids have different texts. */
  lemma UuidTextInjective(u: Uuid, v: Uuid)
    requires UuidText(u) == UuidText(v)
    ensures u == v
  {
    UndashedDashed(Hex(u, 32));
    UndashedDashed(Hex(v, 32));
    UuidBoundIsPow16();
    HexInjective(u, v, 32);
  }
}
