/** The few Python `str` operations the parsers rely on: `strip()`,
    whitespace `split()`, `split(sep)` into two parts, `startswith` and
    `int()` of a decimal token. */
module Text {
  import opened Wrappers

  /** The characters Python's `str.strip()` and `str.split()` treat as
      whitespace (`str.isspace`): the ASCII controls 9-13 and 28-31, the
      space, U+0085, U+00A0, U+1680, U+2000-U+200A, U+2028, U+2029, U+202F,
      U+205F and U+3000. */
  predicate IsSpace(c: char) {
    ('\U{09}' <= c <= '\U{0D}') || ('\U{1C}' <= c <= '\U{20}') || c == '\U{85}' || c == '\U{A0}'
    || c == '\U{1680}' || ('\U{2000}' <= c <= '\U{200A}') || c == '\U{2028}' || c == '\U{2029}'
    || c == '\U{202F}' || c == '\U{205F}' || c == '\U{3000}'
  }

  predicate AllSpace(s: string) {
    forall i :: 0 <= i < |s| ==> IsSpace(s[i])
  }

  predicate NoSpace(s: string) {
    forall i :: 0 <= i < |s| ==> !IsSpace(s[i])
  }

  /** The number of whitespace characters s starts with. */
  function LeadingSpaces(s: string): (n: nat)
    ensures n <= |s|
  {
    if s != [] && IsSpace(s[0]) then 1 + LeadingSpaces(s[1..]) else 0
  }

  /** The leading count is exact: all of those characters are whitespace,
      and the next one is not. */
  lemma {:induction false} LeadingSpacesExact(s: string)
    ensures AllSpace(s[..LeadingSpaces(s)])
    ensures LeadingSpaces(s) < |s| ==> !IsSpace(s[LeadingSpaces(s)])
  {
    if s != [] && IsSpace(s[0]) {
      var n := LeadingSpaces(s);
      LeadingSpacesExact(s[1..]);
      assert forall k :: 1 <= k < n ==> s[..n][k] == s[1..][..n - 1][k - 1];
    }
  }

  /** The number of whitespace characters s ends with. */
  function TrailingSpaces(s: string): (n: nat)
    ensures n <= |s|
  {
    if s != [] && IsSpace(s[|s| - 1]) then 1 + TrailingSpaces(s[..|s| - 1]) else 0
  }

  /** The trailing count is exact: all of those characters are whitespace,
      and the one before them is not. */
  lemma {:induction false} TrailingSpacesExact(s: string)
    ensures AllSpace(s[|s| - TrailingSpaces(s)..])
    ensures TrailingSpaces(s) < |s| ==> !IsSpace(s[|s| - TrailingSpaces(s) - 1])
  {
    if s != [] && IsSpace(s[|s| - 1]) {
      var t := s[..|s| - 1];
      var n := TrailingSpaces(s);
      assert n == 1 + TrailingSpaces(t);
      TrailingSpacesExact(t);
      var u, v := s[|s| - n..], t[|t| - (n - 1)..];
      forall i | 0 <= i < |u|
        ensures IsSpace(u[i])
      {
        if i < n - 1 {
          assert u[i] == v[i];
        }
      }
      if n < |s| {
        assert s[|s| - n - 1] == t[|t| - (n - 1) - 1];
      }
    }
  }

  /** `s.strip()`: s without its leading and trailing whitespace. */
  function Strip(s: string): string
  {
    var t := s[LeadingSpaces(s)..];
    t[..|t| - TrailingSpaces(t)]
  }

  /** `strip()` returns the middle slice between the leading and the
      trailing whitespace, with no whitespace at either end. */
  lemma {:induction false} StripMiddle(s: string)
    ensures var a, r := LeadingSpaces(s), Strip(s);
      && a + |r| <= |s|
      && r == s[a..a + |r|]
      && AllSpace(s[a + |r|..])
      && (r != [] ==> !IsSpace(r[0]) && !IsSpace(r[|r| - 1]))
  {
    var a := LeadingSpaces(s);
    var t := s[a..];
    var b := TrailingSpaces(t);
    var r := t[..|t| - b];
    assert r == Strip(s);
    LeadingSpacesExact(s);
    TrailingSpacesExact(t);
    assert r == s[a..a + |r|];
    assert s[a + |r|..] == t[|t| - b..];
    if r != [] {
      assert r[0] == t[0];
      assert r[|r| - 1] == t[|t| - b - 1];
    }
  }

  /** Stripping leaves nothing exactly when the string is all whitespace. */
  lemma StripEmptyIffBlank(s: string)
    ensures Strip(s) == [] <==> AllSpace(s)
  {
    var a := LeadingSpaces(s);
    LeadingSpacesExact(s);
    if a < |s| {
      var t := s[a..];
      TrailingSpacesExact(t);
      assert !IsSpace(t[0]);
      assert TrailingSpaces(t) < |t|;
    } else {
      assert s == s[..a];
    }
  }

  /** The length of the leading run of non-whitespace characters. */
  function WordLength(s: string): (n: nat)
    ensures n <= |s| && NoSpace(s[..n])
    ensures n < |s| ==> IsSpace(s[n])
  {
    if s == [] || IsSpace(s[0]) then 0 else 1 + WordLength(s[1..])
  }

  /** `s.split()`: the maximal runs of non-whitespace characters, in
      order. */
  function Split(s: string): (tokens: seq<string>)
    ensures forall k :: 0 <= k < |tokens| ==> tokens[k] != [] && NoSpace(tokens[k])
    decreases |s|
  {
    var t := s[LeadingSpaces(s)..];
    if t == [] then []
    else
      LeadingSpacesExact(s);
      var n := WordLength(t);
      [t[..n]] + Split(t[n..])
  }

  /** A string with some non-whitespace character has at least one
      token; an all-whitespace string has none. */
  lemma {:induction false} SplitEmptyIffBlank(s: string)
    ensures Split(s) == [] <==> AllSpace(s)
  {
    var a := LeadingSpaces(s);
    LeadingSpacesExact(s);
    if a < |s| {
      assert !IsSpace(s[a]);
    } else {
      assert s == s[..a];
    }
  }

  /** `s.startswith(prefix)`. */
  predicate StartsWith(s: string, prefix: string) {
    prefix <= s
  }

  function IndexOf(s: string, c: char): (i: nat)
    ensures i <= |s|
    ensures i < |s| ==> s[i] == c
    ensures forall k :: 0 <= k < i ==> s[k] != c
  {
    if s == [] then 0 else if s[0] == c then 0 else 1 + IndexOf(s[1..], c)
  }

  function Count(s: string, c: char): nat {
    if s == [] then 0 else (if s[0] == c then 1 else 0) + Count(s[1..], c)
  }

  /** `k, v = s.split(sep)`: unpacking succeeds only when s contains the
      separator exactly once (otherwise Python raises ValueError). */
  function SplitPair(s: string, sep: char): (r: Option<(string, string)>)
    ensures r.Some? <==> Count(s, sep) == 1
    ensures r.Some? ==> s == r.value.0 + [sep] + r.value.1 && sep !in r.value.0 && sep !in r.value.1
  {
    var i := IndexOf(s, sep);
    if i < |s| && Count(s[i + 1..], sep) == 0 then
      CountPrefixFree(s, i, sep);
      CountZeroMeansAbsent(s[i + 1..], sep);
      assert s == s[..i] + [sep] + s[i + 1..];
      Some((s[..i], s[i + 1..]))
    else
      CountPrefixFree(s, i, sep);
      None
  }

  /** Splitting `k + sep + v` on sep, when neither side holds sep, gives
      back the two sides. */
  lemma SplitPairJoin(k: string, v: string, sep: char)
    requires sep !in k && sep !in v
    ensures SplitPair(k + [sep] + v, sep) == Some((k, v))
  {
    var s := k + [sep] + v;
    assert IndexOf(s, sep) == |k| by {
      assert s[|k|] == sep;
    }
    assert s[|k| + 1..] == v;
    CountZeroMeansAbsent(v, sep);
    assert s[..|k|] == k;
  }

  lemma {:induction false} CountZeroMeansAbsent(s: string, c: char)
    ensures Count(s, c) == 0 <==> c !in s
  {
    if s != [] {
      CountZeroMeansAbsent(s[1..], c);
      assert c in s <==> s[0] == c || c in s[1..];
    }
  }

  /** When the first occurrence of c is at i, c occurs once in s[..i+1]. */
  lemma {:induction false} CountPrefixFree(s: string, i: nat, c: char)
    requires i <= |s| && forall k :: 0 <= k < i ==> s[k] != c
    ensures i < |s| && s[i] == c ==> Count(s, c) == 1 + Count(s[i + 1..], c)
    ensures i == |s| ==> Count(s, c) == 0
  {
    if i > 0 {
      CountPrefixFree(s[1..], i - 1, c);
      if i < |s| {
        assert s[1..][i..] == s[i + 1..];
      }
    } else if s != [] {
      assert s[1..] == s[i + 1..];
    }
  }

  predicate IsDigit(c: char) {
    '0' <= c <= '9'
  }

  function DigitValue(c: char): (v: nat)
    requires IsDigit(c)
    ensures v <= 9
  {
    c as int - '0' as int
  }

  function DigitsValue(s: string): nat
    requires forall i :: 0 <= i < |s| ==> IsDigit(s[i])
  {
    if s == [] then 0 else DigitsValue(s[..|s| - 1]) * 10 + DigitValue(s[|s| - 1])
  }

  /** `int(token)` for a decimal literal with an optional sign; None is the
      ValueError Python raises on anything else. */
  function ParseInt(s: string): (r: Option<int>)
    ensures r.Some? ==> s != [] && IsDigit(s[|s| - 1])
  {
    if |s| > 0 && (s[0] == '-' || s[0] == '+') then
      var body := s[1..];
      if body != [] && forall i :: 0 <= i < |body| ==> IsDigit(body[i]) then
        var magnitude: int := DigitsValue(body);
        Some(if s[0] == '-' then -magnitude else magnitude)
      else None
    else if s != [] && forall i :: 0 <= i < |s| ==> IsDigit(s[i]) then Some(DigitsValue(s))
    else None
  }
}
