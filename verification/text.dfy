/**
 * Character-level string operations used by both halves of the system.
 *
 * JavaScript strings are sequences of UTF-16 code units; here each `char` stands for one
 * code unit. Go strings are sequences of bytes; where a Go function is modelled, each `char`
 * of the string stands for one byte (a value below 256), so that Go's `len` is `|s|` and
 * Go's slicing is Dafny's slicing.
 */
module Text {

  // ---------------------------------------------------------------------------------------
  // JavaScript whitespace and trim

  /** The code units that `String.prototype.trim` removes and that the regex class `\s`
      matches: ECMAScript WhiteSpace and LineTerminator. */
  const JsSpaceUnits: string :=
    "\t\n\U{B}\U{C}\r \U{A0}\U{1680}\U{2000}\U{2001}\U{2002}\U{2003}\U{2004}\U{2005}\U{2006}"
    + "\U{2007}\U{2008}\U{2009}\U{200A}\U{2028}\U{2029}\U{202F}\U{205F}\U{3000}\U{FEFF}"

  /** `c` is one of `units`. */
  predicate OccursIn(c: char, units: string)
    decreases |units|
  {
    units != [] && (units[0] == c || OccursIn(c, units[1..]))
  }

  predicate IsJsSpace(c: char) {
    OccursIn(c, JsSpaceUnits)
  }

  /** A code unit different from every unit of the list does not occur in it. */
  lemma {:induction false} NotOccursIn(c: char, units: string)
    requires forall i :: 0 <= i < |units| ==> units[i] != c
    ensures !OccursIn(c, units)
    decreases |units|
  {
    if units != [] {
      NotOccursIn(c, units[1..]);
    }
  }

  lemma {:induction false} OccursAt(c: char, units: string, i: nat)
    requires i < |units| && units[i] == c
    ensures OccursIn(c, units)
    decreases i
  {
    if i > 0 {
      OccursAt(c, units[1..], i - 1);
    }
  }

  /** The space character is whitespace. */
  lemma SpaceIsJsSpace()
    ensures IsJsSpace(' ')
  {
    OccursAt(' ', JsSpaceUnits, 5);
  }

  /** Decimal digits, the minus sign and the printable ASCII punctuation are not whitespace. */
  lemma PrintableNotJsSpace(c: char)
    requires '!' <= c <= '~'
    ensures !IsJsSpace(c)
  {
    NotOccursIn(c, JsSpaceUnits);
  }

  predicate IsJsTrimmed(s: string) {
    s == [] || (!IsJsSpace(s[0]) && !IsJsSpace(s[|s| - 1]))
  }

  /** Every character of `s` is JavaScript whitespace. */
  predicate AllJsSpace(s: string)
    decreases |s|
  {
    s == [] || (IsJsSpace(s[0]) && AllJsSpace(s[1..]))
  }

  lemma {:induction false} AllJsSpaceIff(s: string)
    ensures AllJsSpace(s) <==> forall k :: 0 <= k < |s| ==> IsJsSpace(s[k])
    decreases |s|
  {
    if s != [] {
      AllJsSpaceIff(s[1..]);
      assert forall k :: 1 <= k < |s| ==> s[k] == s[1..][k - 1];
    }
  }

  lemma {:induction false} AllJsSpaceAppend(a: string, b: string)
    ensures AllJsSpace(a + b) <==> AllJsSpace(a) && AllJsSpace(b)
    decreases |a|
  {
    if a == [] {
      assert a + b == b;
    } else {
      assert (a + b)[1..] == a[1..] + b;
      AllJsSpaceAppend(a[1..], b);
    }
  }

  /** Removes the leading whitespace: what is removed is all whitespace, and what is left does
      not begin with whitespace. */
  function TrimJsStart(s: string): (r: string)
    ensures |r| <= |s| && r == s[|s| - |r|..]
    ensures r == [] || !IsJsSpace(r[0])
    ensures AllJsSpace(s[..|s| - |r|])
    decreases |s|
  {
    if s != [] && IsJsSpace(s[0]) then
      var r := TrimJsStart(s[1..]);
      assert s[..|s| - |r|][1..] == s[1..][..|s| - 1 - |r|];
      r
    else s
  }

  /** Removes the trailing whitespace: what is removed is all whitespace, and what is left does
      not end with whitespace. */
  function TrimJsEnd(s: string): (r: string)
    ensures |r| <= |s| && r == s[..|r|]
    ensures r == [] || !IsJsSpace(r[|r| - 1])
    ensures AllJsSpace(s[|r|..])
    decreases |s|
  {
    if s != [] && IsJsSpace(s[|s| - 1]) then
      var init := s[..|s| - 1];
      var r := TrimJsEnd(init);
      assert s[|r|..] == init[|r|..] + [s[|s| - 1]];
      AllJsSpaceAppend(init[|r|..], [s[|s| - 1]]);
      r
    else s
  }

  /** `String.prototype.trim`: the result has no leading or trailing whitespace, it is empty
      exactly when the input is all whitespace, and a trimmed input is kept as it is. */
  function TrimJs(s: string): (r: string)
    ensures IsJsTrimmed(r)
    ensures |r| <= |s|
    ensures r == [] <==> AllJsSpace(s)
    ensures IsJsTrimmed(s) ==> r == s
  {
    var a := TrimJsStart(s);
    var r := TrimJsEnd(a);
    TrimmedBothEnds(a, r);
    assert s == s[..|s| - |a|] + a;
    EmptyWhenAllSpace(s, s[..|s| - |a|], a, r);
    KeptWhenTrimmed(s, a, r);
    r
  }

  lemma TrimmedBothEnds(a: string, r: string)
    requires (a == [] || !IsJsSpace(a[0])) && |r| <= |a| && r == a[..|r|]
    requires r == [] || !IsJsSpace(r[|r| - 1])
    ensures IsJsTrimmed(r)
  {
    assert r != [] ==> r[0] == a[0];
  }

  lemma EmptyWhenAllSpace(s: string, p: string, a: string, r: string)
    requires s == p + a && AllJsSpace(p)
    requires a == [] || !IsJsSpace(a[0])
    requires |r| <= |a| && AllJsSpace(a[|r|..])
    ensures r == [] <==> AllJsSpace(s)
  {
    AllJsSpaceAppend(p, a);
    EmptyWhenSuffixAllSpace(a, r);
  }

  lemma EmptyWhenSuffixAllSpace(a: string, r: string)
    requires a == [] || !IsJsSpace(a[0])
    requires |r| <= |a| && AllJsSpace(a[|r|..])
    ensures r == [] <==> AllJsSpace(a)
  {
    assert a[0..] == a;
  }

  lemma KeptWhenTrimmed(s: string, a: string, r: string)
    requires a == TrimJsStart(s) && r == TrimJsEnd(a)
    ensures IsJsTrimmed(s) ==> r == s
  {
  }

  // ---------------------------------------------------------------------------------------
  // Go's strings.TrimSpace, at the level of bytes

  /** The ASCII bytes Go treats as space. */
  predicate IsGoAsciiSpace(b: char) {
    b == '\t' || b == '\n' || b == '\U{B}' || b == '\U{C}' || b == '\r' || b == ' '
  }

  /** The two-byte UTF-8 encodings of a space rune: U+0085 and U+00A0. */
  predicate IsSpaceRune2(a: char, b: char) {
    a == '\U{C2}' && (b == '\U{85}' || b == '\U{A0}')
  }

  /** The three-byte UTF-8 encodings of a space rune: U+1680, U+2000..U+200A, U+2028,
      U+2029, U+202F, U+205F and U+3000. */
  predicate IsSpaceRune3(a: char, b: char, c: char) {
    || (a == '\U{E1}' && b == '\U{9A}' && c == '\U{80}')
    || (a == '\U{E2}' && b == '\U{80}' && (('\U{80}' <= c <= '\U{8A}') || c == '\U{A8}' || c == '\U{A9}' || c == '\U{AF}'))
    || (a == '\U{E2}' && b == '\U{81}' && c == '\U{9F}')
    || (a == '\U{E3}' && b == '\U{80}' && c == '\U{80}')
  }

  /** Number of bytes of the space rune that begins `s`, or 0 when `s` does not begin with one. */
  function LeadingSpaceWidth(s: string): (w: nat)
    ensures w <= |s| && w <= 3
  {
    if |s| >= 1 && IsGoAsciiSpace(s[0]) then 1
    else if |s| >= 2 && IsSpaceRune2(s[0], s[1]) then 2
    else if |s| >= 3 && IsSpaceRune3(s[0], s[1], s[2]) then 3
    else 0
  }

  /** Number of bytes of the space rune that ends `s`, or 0 when `s` does not end with one. */
  function TrailingSpaceWidth(s: string): (w: nat)
    ensures w <= |s| && w <= 3
  {
    var n := |s|;
    if n >= 1 && IsGoAsciiSpace(s[n - 1]) then 1
    else if n >= 2 && IsSpaceRune2(s[n - 2], s[n - 1]) then 2
    else if n >= 3 && IsSpaceRune3(s[n - 3], s[n - 2], s[n - 1]) then 3
    else 0
  }

  predicate IsGoTrimmed(s: string) {
    LeadingSpaceWidth(s) == 0 && TrailingSpaceWidth(s) == 0
  }

  /** Number of bytes of the space rune that begins at `s[i]`, or 0 when none does. */
  function SpaceWidthAt(s: string, i: nat): (w: nat)
    requires i <= |s|
    ensures i + w <= |s| && w <= 3
  {
    if i + 1 <= |s| && IsGoAsciiSpace(s[i]) then 1
    else if i + 2 <= |s| && IsSpaceRune2(s[i], s[i + 1]) then 2
    else if i + 3 <= |s| && IsSpaceRune3(s[i], s[i + 1], s[i + 2]) then 3
    else 0
  }

  /** Number of bytes of the space rune of `s[lo..j]` that ends just before `j`, or 0. */
  function SpaceWidthBefore(s: string, lo: nat, j: nat): (w: nat)
    requires lo <= j <= |s|
    ensures lo + w <= j && w <= 3
  {
    if lo + 1 <= j && IsGoAsciiSpace(s[j - 1]) then 1
    else if lo + 2 <= j && IsSpaceRune2(s[j - 2], s[j - 1]) then 2
    else if lo + 3 <= j && IsSpaceRune3(s[j - 3], s[j - 2], s[j - 1]) then 3
    else 0
  }

  /** Where the text begins once the space runes from `i` on are skipped. */
  function TrimStartIndex(s: string, i: nat): (k: nat)
    requires i <= |s|
    ensures i <= k <= |s| && SpaceWidthAt(s, k) == 0
    decreases |s| - i
  {
    var w := SpaceWidthAt(s, i);
    if w == 0 then i else TrimStartIndex(s, i + w)
  }

  /** Where the text of `s[lo..j]` ends once the space runes before `j` are skipped. */
  function TrimEndIndex(s: string, lo: nat, j: nat): (k: nat)
    requires lo <= j <= |s|
    ensures lo <= k <= j && SpaceWidthBefore(s, lo, k) == 0
    decreases j
  {
    var w := SpaceWidthBefore(s, lo, j);
    if w == 0 then j else TrimEndIndex(s, lo, j - w)
  }

  /** A slice that starts and ends with no space rune is trimmed. */
  lemma TrimmedSlice(s: string, lo: nat, hi: nat)
    requires lo <= hi <= |s| && SpaceWidthAt(s, lo) == 0 && SpaceWidthBefore(s, lo, hi) == 0
    ensures IsGoTrimmed(s[lo..hi])
  {
    var r := s[lo..hi];
    if |r| >= 1 {
      assert r[0] == s[lo] && r[|r| - 1] == s[hi - 1];
    }
    if |r| >= 2 {
      assert r[1] == s[lo + 1] && r[|r| - 2] == s[hi - 2];
    }
    if |r| >= 3 {
      assert r[2] == s[lo + 2] && r[|r| - 3] == s[hi - 3];
    }
  }

  /** `strings.TrimSpace`: the result begins and ends with no space rune. */
  function GoTrimSpace(s: string): (r: string)
    ensures IsGoTrimmed(r)
    ensures |r| <= |s|
  {
    var lo := TrimStartIndex(s, 0);
    var hi := TrimEndIndex(s, lo, |s|);
    TrimmedSlice(s, lo, hi);
    s[lo..hi]
  }

  /** Trimming a trimmed string changes nothing, so `strings.TrimSpace` is idempotent. */
  lemma GoTrimSpaceOfTrimmed(s: string)
    requires IsGoTrimmed(s)
    ensures GoTrimSpace(s) == s
  {
    assert SpaceWidthAt(s, 0) == LeadingSpaceWidth(s);
    assert SpaceWidthBefore(s, 0, |s|) == TrailingSpaceWidth(s);
    assert s[0..|s|] == s;
  }

  lemma GoTrimSpaceIdempotent(s: string)
    ensures GoTrimSpace(GoTrimSpace(s)) == GoTrimSpace(s)
  {
    GoTrimSpaceOfTrimmed(GoTrimSpace(s));
  }

  // ---------------------------------------------------------------------------------------
  // Case, prefixes and substrings

  function AsciiLowerChar(c: char): char {
    if 'A' <= c <= 'Z' then (c as int + 32) as char else c
  }

  /** Lower-casing of the ASCII letters; every other character is kept. */
  function AsciiLower(s: string): (r: string)
    ensures |r| == |s|
  {
    seq(|s|, i requires 0 <= i < |s| => AsciiLowerChar(s[i]))
  }

  /** Each character is lowered on its own. */
  lemma AsciiLowerAt(s: string, i: nat)
    requires i < |s|
    ensures AsciiLower(s)[i] == AsciiLowerChar(s[i])
  {
  }

  predicate HasPrefix(s: string, p: string) {
    |p| <= |s| && s[..|p|] == p
  }

  /** Go's `strings.TrimPrefix`: removes one leading copy of `p`, if there is one. */
  function TrimPrefix(s: string, p: string): (r: string)
    ensures HasPrefix(s, p) ==> s == p + r
    ensures !HasPrefix(s, p) ==> r == s
  {
    if HasPrefix(s, p) then s[|p|..] else s
  }

  /** `strings.Contains` / `String.prototype.includes`. */
  predicate Contains(s: string, p: string)
    decreases |s|
  {
    HasPrefix(s, p) || (s != [] && Contains(s[1..], p))
  }

  /** The empty string contains no non-empty string. */
  lemma EmptyContainsNothing(p: string)
    requires p != ""
    ensures !Contains("", p)
  {
  }

  lemma {:induction false} ContainsAt(s: string, p: string, i: nat)
    requires i + |p| <= |s| && s[i..i + |p|] == p
    ensures Contains(s, p)
    decreases i
  {
    if i > 0 {
      assert s[1..][i - 1..i - 1 + |p|] == s[i..i + |p|];
      ContainsAt(s[1..], p, i - 1);
    }
  }

  // ---------------------------------------------------------------------------------------
  // Splitting and joining

  /** Splits `s` at every character in `seps`, as `split` with a one-character separator
      does in both languages: `n` separators give `n + 1` pieces, some possibly empty. */
  function Split(s: string, seps: set<char>): (parts: seq<string>)
    ensures |parts| >= 1
    decreases |s|
  {
    if s == [] then [""]
    else
      var rest := Split(s[1..], seps);
      if s[0] in seps then [""] + rest else [[s[0]] + rest[0]] + rest[1..]
  }

  /** Number of characters of `s` that belong to `seps`. */
  function CountIn(s: string, seps: set<char>): nat {
    if s == [] then 0 else (if s[0] in seps then 1 else 0) + CountIn(s[1..], seps)
  }

  predicate FreeOf(s: string, seps: set<char>) {
    forall k :: 0 <= k < |s| ==> s[k] !in seps
  }

  /** `n` separators give exactly `n + 1` pieces. */
  lemma {:induction false} SplitCount(s: string, seps: set<char>)
    ensures |Split(s, seps)| == CountIn(s, seps) + 1
    decreases |s|
  {
    if s != [] {
      SplitCount(s[1..], seps);
    }
  }

  /** No piece contains a separator. */
  lemma {:induction false} SplitPiecesFree(s: string, seps: set<char>)
    ensures forall i :: 0 <= i < |Split(s, seps)| ==> FreeOf(Split(s, seps)[i], seps)
    decreases |s|
  {
    if s != [] {
      SplitPiecesFree(s[1..], seps);
    }
  }

  /** Joins pieces with `glue` between consecutive pieces. */
  function Join(parts: seq<string>, glue: string): string {
    if parts == [] then ""
    else if |parts| == 1 then parts[0]
    else parts[0] + glue + Join(parts[1..], glue)
  }

  /** A separator-free piece followed by a separator splits off as one piece. */
  lemma {:induction false} SplitAfterPiece(p: string, c: char, rest: string, seps: set<char>)
    requires FreeOf(p, seps) && c in seps
    ensures Split(p + [c] + rest, seps) == [p] + Split(rest, seps)
    decreases |p|
  {
    if p == [] {
      assert ([] + [c] + rest)[1..] == rest;
    } else {
      assert (p + [c] + rest)[1..] == p[1..] + [c] + rest;
      SplitAfterPiece(p[1..], c, rest, seps);
      assert [p[0]] + p[1..] == p;
    }
  }

  /** A separator-free string is a single piece. */
  lemma {:induction false} SplitFree(p: string, seps: set<char>)
    requires FreeOf(p, seps)
    ensures Split(p, seps) == [p]
    decreases |p|
  {
    if p != [] {
      SplitFree(p[1..], seps);
      assert [p[0]] + p[1..] == p;
    }
  }

  /** Splitting a one-character join of separator-free pieces gives the pieces back. */
  lemma {:induction false} SplitJoin(parts: seq<string>, c: char, seps: set<char>)
    requires |parts| >= 1 && c in seps
    requires forall i :: 0 <= i < |parts| ==> FreeOf(parts[i], seps)
    ensures Split(Join(parts, [c]), seps) == parts
    decreases |parts|
  {
    if |parts| == 1 {
      SplitFree(parts[0], seps);
    } else {
      SplitJoin(parts[1..], c, seps);
      SplitAfterPiece(parts[0], c, Join(parts[1..], [c]), seps);
      assert parts[0] + [c] + Join(parts[1..], [c]) == Join(parts, [c]);
    }
  }

  /** Joining the pieces of a split with the separator rebuilds the string. */
  lemma {:induction false} JoinSplit(s: string, c: char)
    ensures Join(Split(s, {c}), [c]) == s
    decreases |s|
  {
    if s != [] {
      var rest := Split(s[1..], {c});
      JoinSplit(s[1..], c);
      if s[0] == c {
        assert Join([""] + rest, [c]) == [c] + Join(rest, [c]);
      } else {
        var parts := [[s[0]] + rest[0]] + rest[1..];
        if |rest| == 1 {
          assert Join(parts, [c]) == [s[0]] + rest[0];
        } else {
          assert Join(rest, [c]) == rest[0] + [c] + Join(rest[1..], [c]);
          assert parts[1..] == rest[1..];
          assert Join(parts, [c]) == [s[0]] + rest[0] + [c] + Join(rest[1..], [c]);
        }
      }
    }
  }

  /** Go's `strings.SplitN(s, sep, 2)` for a one-character separator: the text before the first
      separator and everything after it, or the whole string when there is no separator. */
  function SplitFirst(s: string, sep: char): (parts: seq<string>)
    ensures 1 <= |parts| <= 2
    ensures |parts| == 1 <==> sep !in s
    ensures |parts| == 1 ==> parts[0] == s
    ensures |parts| == 2 ==> sep !in parts[0] && s == parts[0] + [sep] + parts[1]
    decreases |s|
  {
    if s == [] then [s]
    else if s[0] == sep then ["", s[1..]]
    else
      var rest := SplitFirst(s[1..], sep);
      assert s == [s[0]] + s[1..];
      if |rest| == 1 then [s] else [[s[0]] + rest[0], rest[1]]
  }

  // ---------------------------------------------------------------------------------------
  // Filtering

  /** Keeps the non-empty strings, in order (JavaScript's `.filter(Boolean)` on strings). */
  function NonEmpty(xs: seq<string>): (r: seq<string>)
    ensures |r| <= |xs|
  {
    if xs == [] then []
    else if xs[0] == "" then NonEmpty(xs[1..])
    else [xs[0]] + NonEmpty(xs[1..])
  }

  /** The kept strings are exactly the non-empty members. */
  lemma {:induction false} NonEmptyMembers(xs: seq<string>)
    ensures forall x :: x in NonEmpty(xs) <==> x in xs && x != ""
    decreases |xs|
  {
    if xs != [] {
      NonEmptyMembers(xs[1..]);
      assert xs == [xs[0]] + xs[1..];
    }
  }

  lemma {:induction false} NonEmptyAppend(xs: seq<string>, ys: seq<string>)
    ensures NonEmpty(xs + ys) == NonEmpty(xs) + NonEmpty(ys)
    decreases |xs|
  {
    if xs != [] {
      assert (xs + ys)[1..] == xs[1..] + ys;
      NonEmptyAppend(xs[1..], ys);
    } else {
      assert xs + ys == ys;
    }
  }
}
