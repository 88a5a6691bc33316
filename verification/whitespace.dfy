/** Python's `str.strip()` with no argument: removes leading and trailing
    characters for which `str.isspace()` holds. */
module Whitespace {

  /** The characters `str.isspace()` accepts (Unicode whitespace). */
  predicate IsSpace(c: char) {
    || c == ' '
    || '\t' <= c <= '\r'
    || '\U{1C}' <= c <= '\U{1F}'
    || c == '\U{85}'
    || c == '\U{A0}'
    || c == '\U{1680}'
    || '\U{2000}' <= c <= '\U{200A}'
    || c == '\U{2028}'
    || c == '\U{2029}'
    || c == '\U{202F}'
    || c == '\U{205F}'
    || c == '\U{3000}'
  }

  predicate AllSpace(s: string) {
    forall i :: 0 <= i < |s| ==> IsSpace(s[i])
  }

  /** A string that `strip` leaves alone: empty, or no whitespace at either end. */
  predicate IsStripped(s: string) {
    s == [] || (!IsSpace(s[0]) && !IsSpace(s[|s| - 1]))
  }

  /** `s` without its leading whitespace: a suffix of `s` preceded only by whitespace. */
  function TrimStart(s: string): (r: string)
    ensures |r| <= |s| && r == s[|s| - |r|..]
    ensures AllSpace(s[..|s| - |r|])
    ensures r == [] || !IsSpace(r[0])
  {
    if s != [] && IsSpace(s[0]) then
      var r := TrimStart(s[1..]);
      assert forall i :: 1 <= i < |s| - |r| ==> s[i] == s[1..][..|s| - 1 - |r|][i - 1];
      r
    else
      s
  }

  /** `s` without its trailing whitespace: a prefix of `s` followed only by whitespace. */
  function TrimEnd(s: string): (r: string)
    ensures |r| <= |s| && r == s[..|r|]
    ensures AllSpace(s[|r|..])
    ensures r == [] || !IsSpace(r[|r| - 1])
  {
    if s != [] && IsSpace(s[|s| - 1]) then
      var r := TrimEnd(s[..|s| - 1]);
      assert forall i :: |r| <= i < |s| - 1 ==> s[i] == s[..|s| - 1][|r|..][i - |r|];
      r
    else
      s
  }

  /** How many whitespace characters `s` starts with. */
  function LeadingSpace(s: string): (n: nat)
    ensures n <= |s| && AllSpace(s[..n])
    ensures n < |s| ==> !IsSpace(s[n])
  {
    |s| - |TrimStart(s)|
  }

  /** `s.strip()`: the slice of `s` that starts after its leading whitespace,
      is followed only by whitespace, and has no whitespace at either end. */
  function Strip(s: string): (r: string)
    ensures LeadingSpace(s) + |r| <= |s|
    ensures r == s[LeadingSpace(s)..LeadingSpace(s) + |r|]
    ensures AllSpace(s[LeadingSpace(s) + |r|..])
    ensures IsStripped(r)
  {
    var t := TrimStart(s);
    var r := TrimEnd(t);
    StripFacts(s, t, r, |s| - |t|);
    r
  }

  /** The slices `TrimStart` and `TrimEnd` leave, put together. */
  lemma StripFacts(s: string, t: string, r: string, n: nat)
    requires |t| <= |s| && n == |s| - |t| && t == s[|s| - |t|..] && (t == [] || !IsSpace(t[0]))
    requires |r| <= |t| && r == t[..|r|] && AllSpace(t[|r|..])
    requires r == [] || !IsSpace(r[|r| - 1])
    ensures n + |r| <= |s|
    ensures r == s[n..n + |r|]
    ensures AllSpace(s[n + |r|..])
    ensures IsStripped(r)
  {
    SliceOfSuffix(s, n, r);
    TrailingOfSuffix(s, n, |r|);
    PrefixKeepsStart(t, r);
  }

  lemma SliceOfSuffix(s: string, n: nat, r: string)
    requires n <= |s| && |r| <= |s| - n && r == s[n..][..|r|]
    ensures r == s[n..n + |r|]
  {
  }

  lemma TrailingOfSuffix(s: string, n: nat, k: nat)
    requires n + k <= |s| && AllSpace(s[n..][k..])
    ensures AllSpace(s[n + k..])
  {
    assert s[n..][k..] == s[n + k..];
  }

  lemma PrefixKeepsStart(t: string, r: string)
    requires r == [] || !IsSpace(r[|r| - 1])
    requires |r| <= |t| && r == t[..|r|] && (t == [] || !IsSpace(t[0]))
    ensures IsStripped(r)
  {
    if r != [] {
      assert r[0] == t[0];
    }
  }

  /** A stripped string is its own strip. */
  lemma StripKeepsStripped(s: string)
    requires IsStripped(s)
    ensures Strip(s) == s
  {
  }

  /** Stripping twice is stripping once. */
  lemma StripIdempotent(s: string)
    ensures Strip(Strip(s)) == Strip(s)
  {
    StripKeepsStripped(Strip(s));
  }

  /** A string of whitespace only strips to the empty string. */
  lemma StripAllSpace(s: string)
    requires AllSpace(s)
    ensures Strip(s) == ""
  {
  }

  /** `"  hello  ".strip()` is `"hello"`. */
  lemma StripHello()
    ensures Strip("  hello  ") == "hello"
  {
    HelloTrimStart();
    HelloTrimEnd();
  }

  lemma HelloTrimStart()
    ensures TrimStart("  hello  ") == "hello  "
  {
    assert !IsSpace('h');
    assert "hello  "[0] == 'h';
    assert TrimStart("hello  ") == "hello  ";
    assert " hello  "[1..] == "hello  ";
    assert TrimStart(" hello  ") == "hello  ";
    assert "  hello  "[1..] == " hello  ";
  }

  lemma HelloTrimEnd()
    ensures TrimEnd("hello  ") == "hello"
  {
    assert !IsSpace('o');
    assert "hello"[4] == 'o';
    assert TrimEnd("hello") == "hello";
    assert "hello "[..5] == "hello";
    assert TrimEnd("hello ") == "hello";
    assert "hello  "[..6] == "hello ";
  }
}
