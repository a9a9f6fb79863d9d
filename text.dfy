/** Character classes and string helpers shared by the chat app's pure logic:
    Python's notion of whitespace (used by str.strip), lower-casing, the word
    characters of a regular-expression word boundary, and substring search. */
module Text {

  /** Python's str.isspace() for one code point: the ASCII controls 9-13 and
      28-31, the space, and the Unicode separators Python also strips. */
  predicate IsSpace(c: char)
    ensures c == ' ' || c == '\t' || c == '\n' || c == '\r' ==> IsSpace(c)
    ensures '\U{000B}' <= c <= '\U{000C}' || '\U{001C}' <= c <= '\U{001F}' ==> IsSpace(c)
    ensures c == '\U{0085}' || c == '\U{00A0}' || c == '\U{2028}' || c == '\U{2029}' ==> IsSpace(c)
    ensures ' ' < c <= '~' ==> !IsSpace(c)
    ensures IsSpace(c) ==> !IsWordChar(c)
  {
    var n := c as int;
    (9 <= n <= 13) || (28 <= n <= 32) || n == 0x85 || n == 0xA0 || n == 0x1680
    || (0x2000 <= n <= 0x200A) || n == 0x2028 || n == 0x2029 || n == 0x202F
    || n == 0x205F || n == 0x3000
  }

  predicate AllSpace(s: string) {
    forall i :: 0 <= i < |s| ==> IsSpace(s[i])
  }

  /** Neither the first nor the last character is whitespace. */
  predicate NoEdgeSpace(s: string) {
    s == [] || (!IsSpace(s[0]) && !IsSpace(s[|s| - 1]))
  }

  /** Lower-casing of one character, restricted to ASCII. */
  function LowerChar(c: char): (d: char)
    ensures 'A' <= c <= 'Z' ==> d as int == c as int + 32
    ensures !('A' <= c <= 'Z') ==> d == c
  {
    if 'A' <= c <= 'Z' then (c as int + 32) as char else c
  }

  /** str.lower() on ASCII text. */
  function Lower(s: string): (r: string)
    ensures |r| == |s|
    ensures forall i :: 0 <= i < |s| ==> r[i] == LowerChar(s[i])
  {
    seq(|s|, i requires 0 <= i < |s| => LowerChar(s[i]))
  }

  /** No upper-case ASCII letter is left after lower-casing. */
  predicate IsLower(s: string) {
    forall i :: 0 <= i < |s| ==> !('A' <= s[i] <= 'Z')
  }

  lemma LowerIsLower(s: string)
    ensures IsLower(Lower(s))
    ensures IsLower(s) ==> Lower(s) == s
  {
  }

  /** Lower-casing twice is lower-casing once. */
  lemma LowerIdempotent(s: string)
    ensures Lower(Lower(s)) == Lower(s)
  {
    LowerIsLower(s);
  }

  /** The characters of the regular-expression class \w, restricted to ASCII. */
  predicate IsWordChar(c: char) {
    ('a' <= c <= 'z') || ('A' <= c <= 'Z') || ('0' <= c <= '9') || c == '_'
  }

  /** str.startswith. */
  predicate StartsWith(s: string, prefix: string) {
    |prefix| <= |s| && s[..|prefix|] == prefix
  }

  /** str.endswith. */
  predicate EndsWith(s: string, suffix: string) {
    |suffix| <= |s| && s[|s| - |suffix|..] == suffix
  }

  /** `needle` occurs in `hay` starting at `i`. */
  predicate OccursAt(hay: string, needle: string, i: int) {
    0 <= i && i + |needle| <= |hay| && hay[i..i + |needle|] == needle
  }

  /** An occurrence begins with the needle's first character. */
  lemma OccursAtFirst(hay: string, needle: string, i: int)
    requires OccursAt(hay, needle, i) && |needle| > 0
    ensures hay[i] == needle[0]
  {
    assert hay[i..i + |needle|][0] == hay[i];
  }

  /** Python's `needle in hay` for strings. */
  ghost predicate Occurs(hay: string, needle: string) {
    exists i :: OccursAt(hay, needle, i)
  }

  /** Left-to-right scan for `needle` from position `i` on. */
  function OccursFrom(hay: string, needle: string, i: nat): (found: bool)
    decreases |hay| - i
    ensures found <==> exists j :: i <= j && OccursAt(hay, needle, j)
  {
    if i + |needle| > |hay| then false
    else if hay[i..i + |needle|] == needle then assert OccursAt(hay, needle, i); true
    else OccursFrom(hay, needle, i + 1)
  }

  /** The substring test `needle in hay`. */
  function Contains(hay: string, needle: string): (found: bool)
    ensures found <==> Occurs(hay, needle)
  {
    OccursFrom(hay, needle, 0)
  }

  /** str.join: the parts with `sep` between neighbours. */
  function Join(parts: seq<string>, sep: string): (r: string)
    ensures |parts| == 0 ==> r == ""
    ensures |parts| == 1 ==> r == parts[0]
    ensures |parts| > 0 ==> StartsWith(r, parts[0]) && EndsWith(r, parts[|parts| - 1])
  {
    if |parts| == 0 then ""
    else if |parts| == 1 then parts[0]
    else parts[0] + sep + Join(parts[1..], sep)
  }

  /** An occurrence in `y` is an occurrence in `x + y`, shifted by `|x|`. */
  lemma OccursInSuffix(x: string, y: string, needle: string)
    requires Occurs(y, needle)
    ensures Occurs(x + y, needle)
  {
    var i :| OccursAt(y, needle, i);
    assert (x + y)[|x| + i..|x| + i + |needle|] == y[i..i + |needle|];
    assert OccursAt(x + y, needle, |x| + i);
  }

  /** Appending a part to a non-empty list appends the separator and that
      part to the join: the parts in order, `sep` between neighbours. */
  lemma {:induction false} JoinSnoc(parts: seq<string>, sep: string, x: string)
    requires |parts| > 0
    ensures Join(parts + [x], sep) == Join(parts, sep) + sep + x
    decreases |parts|
  {
    if |parts| == 1 {
      assert (parts + [x])[1..] == [x];
      assert Join(parts + [x], sep) == parts[0] + sep + Join([x], sep);
    } else {
      var tail := parts[1..];
      assert (parts + [x])[1..] == tail + [x];
      JoinSnoc(tail, sep, x);
      calc {
        Join(parts + [x], sep);
        parts[0] + sep + Join(tail + [x], sep);
        parts[0] + sep + (Join(tail, sep) + sep + x);
        (parts[0] + sep + Join(tail, sep)) + sep + x;
        Join(parts, sep) + sep + x;
      }
    }
  }

  /** Every part occurs in the joined string. */
  lemma JoinHoldsParts(parts: seq<string>, sep: string)
    ensures forall k :: 0 <= k < |parts| ==> Occurs(Join(parts, sep), parts[k])
  {
    forall k | 0 <= k < |parts| ensures Occurs(Join(parts, sep), parts[k]) {
      JoinHoldsPart(parts, sep, k);
    }
  }

  /** The part at index `k` occurs in the joined string: the first at its
      start, a later one inside the join of the rest. */
  lemma {:induction false} JoinHoldsPart(parts: seq<string>, sep: string, k: nat)
    requires k < |parts|
    ensures Occurs(Join(parts, sep), parts[k])
    decreases |parts|
  {
    if k == 0 {
      assert OccursAt(Join(parts, sep), parts[0], 0);
    } else {
      var rest := Join(parts[1..], sep);
      JoinHoldsPart(parts[1..], sep, k - 1);
      assert parts[1..][k - 1] == parts[k];
      assert Join(parts, sep) == parts[0] + (sep + rest);
      OccursInSuffix(sep, rest, parts[k]);
      OccursInSuffix(parts[0], sep + rest, parts[k]);
    }
  }

  function Min(a: int, b: int): int {
    if a <= b then a else b
  }
}
