/** Normalising the OpenAI API key read from a secret store, the environment,
    a dotfile or a form field, and the test that decides whether the app may
    go on with it. */
module ApiKey {
  import opened Wrappers
  import opened Text

  /** The number of whitespace characters `s` begins with. */
  function LeadingSpace(s: string): (n: nat)
    ensures n <= |s|
    ensures forall i :: 0 <= i < n ==> IsSpace(s[i])
    ensures n < |s| ==> !IsSpace(s[n])
  {
    if |s| > 0 && IsSpace(s[0]) then 1 + LeadingSpace(s[1..]) else 0
  }

  /** The number of whitespace characters `s` ends with. */
  function TrailingSpace(s: string): (n: nat)
    ensures n <= |s|
    ensures forall i :: |s| - n <= i < |s| ==> IsSpace(s[i])
    ensures n < |s| ==> !IsSpace(s[|s| - 1 - n])
  {
    if |s| > 0 && IsSpace(s[|s| - 1]) then 1 + TrailingSpace(s[..|s| - 1]) else 0
  }

  /** str.strip(): `s` without its leading and trailing whitespace. */
  function Strip(s: string): (r: string)
    ensures NoEdgeSpace(r)
  {
    var rest := s[LeadingSpace(s)..];
    rest[..|rest| - TrailingSpace(rest)]
  }

  /** What `Strip` removes is whitespace, at the two ends only. */
  lemma StripDecomposes(s: string)
    ensures exists i :: OccursAt(s, Strip(s), i) && AllSpace(s[..i]) && AllSpace(s[i + |Strip(s)|..])
  {
    var a := LeadingSpace(s);
    var rest := s[a..];
    var r := Strip(s);
    assert r == rest[..|rest| - TrailingSpace(rest)];
    assert s[a..a + |r|] == r;
    assert AllSpace(s[..a]);
    assert s[a + |r|..] == rest[|r|..];
    assert AllSpace(s[a + |r|..]);
    assert OccursAt(s, r, a) && AllSpace(s[..a]) && AllSpace(s[a + |r|..]);
  }

  /** Stripping gives back a whitespace-free core padded with any whitespace. */
  lemma StripPadded(pad1: string, core: string, pad2: string)
    requires AllSpace(pad1) && AllSpace(pad2) && NoEdgeSpace(core)
    ensures Strip(pad1 + core + pad2) == core
  {
    var s := pad1 + core + pad2;
    var a := LeadingSpace(s);
    if core == [] {
      assert AllSpace(s);
      assert a == |s|;
    } else {
      assert s[|pad1|] == core[0];
      assert a == |pad1|;
      var rest := s[a..];
      assert rest == core + pad2;
      var b := TrailingSpace(rest);
      var e := |rest| - 1 - |pad2|;
      assert rest[e] == core[|core| - 1];
      assert b == |pad2|;
      assert rest[..|rest| - b] == core;
    }
  }

  /** Both ends carry the same quote character, `"` or `'`; a lone quote
      counts, as it both starts and ends the string. */
  predicate QuotePair(s: string)
    ensures QuotePair(s) <==>
      (StartsWith(s, "\"") && EndsWith(s, "\"")) || (StartsWith(s, "'") && EndsWith(s, "'"))
  {
    assert |s| > 0 ==> s[..1] == [s[0]] && s[|s| - 1..] == [s[|s| - 1]];
    |s| > 0 && ((s[0] == '"' && s[|s| - 1] == '"') || (s[0] == '\'' && s[|s| - 1] == '\''))
  }

  /** Python's slice s[1:-1]. */
  function Inner(s: string): (r: string)
    ensures |s| < 2 ==> r == ""
    ensures |s| >= 2 ==> s == [s[0]] + r + [s[|s| - 1]]
  {
    if |s| < 2 then "" else s[1..|s| - 1]
  }

  /** `_clean_key`: None for a missing or empty value; otherwise the value
      stripped, then with one pair of matching surrounding quotes removed
      and the rest stripped again. */
  function CleanKey(k: Option<string>): (r: Option<string>)
    ensures r.None? <==> k.None? || k.value == ""
    ensures r.Some? ==> NoEdgeSpace(r.value)
  {
    if k.None? || k.value == "" then None
    else
      var s := Strip(k.value);
      if QuotePair(s) then
        Some(Strip(Inner(s)))
      else Some(s)
  }

  /** The test at the end of key loading: the app stops unless the key is
      present, non-empty and begins with "sk-". */
  function Accepted(k: Option<string>): (ok: bool)
    ensures ok <==> k.Some? && |k.value| >= 3 && k.value[0] == 's' && k.value[1] == 'k' && k.value[2] == '-'
  {
    !(k.None? || k.value == "" || !StartsWith(k.value, "sk-"))
  }

  /** A value without surrounding quotes comes back stripped of its padding. */
  lemma CleanUnquoted(pad1: string, key: string, pad2: string)
    requires AllSpace(pad1) && AllSpace(pad2) && NoEdgeSpace(key) && !QuotePair(key)
    requires pad1 + key + pad2 != ""
    ensures CleanKey(Some(pad1 + key + pad2)) == Some(key)
  {
    StripPadded(pad1, key, pad2);
  }

  /** A quoted value, padded outside, is cleaned to what lies between the quotes, stripped. */
  lemma CleanPaddedQuotePair(pad1: string, quoted: string, pad2: string)
    requires AllSpace(pad1) && AllSpace(pad2) && QuotePair(quoted)
    ensures CleanKey(Some(pad1 + quoted + pad2)) == Some(Strip(Inner(quoted)))
  {
    StripPadded(pad1, quoted, pad2);
  }

  /** One pair of matching quotes is removed, with the whitespace around it
      and inside it; whatever lies within is kept, even a second quote pair. */
  lemma CleanQuoted(pad1: string, q: char, pad3: string, key: string, pad4: string, pad2: string)
    requires q == '"' || q == '\''
    requires AllSpace(pad1) && AllSpace(pad2) && AllSpace(pad3) && AllSpace(pad4) && NoEdgeSpace(key)
    ensures CleanKey(Some(pad1 + [q] + pad3 + key + pad4 + [q] + pad2)) == Some(key)
  {
    var mid := pad3 + key + pad4;
    var quoted := [q] + mid + [q];
    assert pad1 + [q] + pad3 + key + pad4 + [q] + pad2 == pad1 + quoted + pad2;
    assert quoted[0] == q && quoted[|quoted| - 1] == q;
    CleanPaddedQuotePair(pad1, quoted, pad2);
    assert quoted[1..|quoted| - 1] == mid;
    StripPadded(pad3, key, pad4);
  }

  /** Quotes of two different kinds at the two ends are kept. */
  lemma MismatchedQuotesKept(pad1: string, key: string, pad2: string)
    requires AllSpace(pad1) && AllSpace(pad2) && |key| >= 2
    requires (key[0] == '"' && key[|key| - 1] == '\'') || (key[0] == '\'' && key[|key| - 1] == '"')
    ensures CleanKey(Some(pad1 + key + pad2)) == Some(key)
  {
    CleanUnquoted(pad1, key, pad2);
  }

  /** A lone quote, however padded, cleans to the empty string. */
  lemma CleanLoneQuote(pad1: string, q: char, pad2: string)
    requires q == '"' || q == '\''
    requires AllSpace(pad1) && AllSpace(pad2)
    ensures CleanKey(Some(pad1 + [q] + pad2)) == Some("")
  {
    StripPadded(pad1, [q], pad2);
  }

  /** A whitespace-only value is not None but the empty string, which the
      acceptance test then refuses. */
  lemma WhitespaceOnlyRefused(s: string)
    requires s != "" && AllSpace(s)
    ensures CleanKey(Some(s)) == Some("")
    ensures !Accepted(CleanKey(Some(s)))
  {
    StripPadded(s, "", "");
    assert s + "" + "" == s;
  }

  /** Only the outer pair of quotes is removed: `"'sk-1'"` cleans to `'sk-1'`. */
  lemma OnePairOnly(outer: char, inner: char, key: string)
    requires outer == '"' || outer == '\''
    requires inner == '"' || inner == '\''
    ensures CleanKey(Some([outer, inner] + key + [inner, outer])) == Some([inner] + key + [inner])
  {
    var kept := [inner] + key + [inner];
    assert NoEdgeSpace(kept) by {
      assert kept[0] == inner && kept[|kept| - 1] == inner;
    }
    assert [outer, inner] + key + [inner, outer] == "" + [outer] + "" + kept + "" + [outer] + "";
    CleanQuoted("", outer, "", kept, "", "");
  }

  /** A whitespace-free key starting with "sk-", padded with whitespace, is
      accepted after cleaning. */
  lemma PaddedKeyAccepted(pad1: string, key: string, pad2: string)
    requires AllSpace(pad1) && AllSpace(pad2) && NoEdgeSpace(key) && StartsWith(key, "sk-")
    ensures CleanKey(Some(pad1 + key + pad2)) == Some(key)
    ensures Accepted(CleanKey(Some(pad1 + key + pad2)))
  {
    assert key[0] == 's';
    CleanUnquoted(pad1, key, pad2);
  }

  /** The same key inside one pair of quotes, with whitespace inside and
      outside them, is accepted too. */
  lemma QuotedKeyAccepted(pad1: string, q: char, pad3: string, key: string, pad4: string, pad2: string)
    requires q == '"' || q == '\''
    requires AllSpace(pad1) && AllSpace(pad2) && AllSpace(pad3) && AllSpace(pad4)
    requires NoEdgeSpace(key) && StartsWith(key, "sk-")
    ensures Accepted(CleanKey(Some(pad1 + [q] + pad3 + key + pad4 + [q] + pad2)))
  {
    assert key[..3] == "sk-";
    CleanQuoted(pad1, q, pad3, key, pad4, pad2);
  }
}
