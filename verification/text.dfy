/** Python's `str.strip()` with no arguments: removes leading and trailing
    whitespace, where whitespace is exactly the set of characters Python's
    `str.isspace` accepts. */
module Text {

  /** Python's whitespace characters: U+0009..U+000D, U+001C..U+0020, U+0085,
      U+00A0, U+1680, U+2000..U+200A, U+2028, U+2029, U+202F, U+205F, U+3000. */
  predicate IsSpace(c: char) {
    || ('\t' <= c <= '\r')
    || ('\U{1C}' <= c <= ' ')
    || c == '\U{85}' || c == '\U{A0}' || c == '\U{1680}'
    || ('\U{2000}' <= c <= '\U{200A}')
    || c == '\U{2028}' || c == '\U{2029}' || c == '\U{202F}' || c == '\U{205F}'
    || c == '\U{3000}'
  }

  /** Every character of `s` is whitespace (true of the empty string). */
  predicate AllSpace(s: string) {
    forall k :: 0 <= k < |s| ==> IsSpace(s[k])
  }

  /** Neither end of `s` is whitespace. */
  predicate Trimmed(s: string) {
    s != [] ==> !IsSpace(s[0]) && !IsSpace(s[|s| - 1])
  }

  /** `s` is `t` surrounded by whitespace-only padding on both sides. */
  ghost predicate PaddedBy(s: string, t: string) {
    exists i, j :: 0 <= i <= j <= |s| && s[i..j] == t && AllSpace(s[..i]) && AllSpace(s[j..])
  }

  /** Length of the leading run of whitespace in `s`. */
  function LeadingSpace(s: string): (i: nat)
    ensures i <= |s|
    ensures forall k :: 0 <= k < i ==> IsSpace(s[k])
    ensures i < |s| ==> !IsSpace(s[i])
  {
    if s == [] || !IsSpace(s[0]) then 0 else 1 + LeadingSpace(s[1..])
  }

  /** Index where the trailing run of whitespace in `s` begins. */
  function TrailingSpaceStart(s: string): (j: nat)
    ensures j <= |s|
    ensures forall k :: j <= k < |s| ==> IsSpace(s[k])
    ensures 0 < j ==> !IsSpace(s[j - 1])
  {
    if s == [] || !IsSpace(s[|s| - 1]) then |s| else TrailingSpaceStart(s[..|s| - 1])
  }

  /** `s.strip()`: the middle of `s` once both whitespace runs are cut off. */
  function Strip(s: string): (r: string)
    ensures r == [] <==> AllSpace(s)
    ensures Trimmed(r)
    ensures PaddedBy(s, r)
  {
    var i := LeadingSpace(s);
    if i == |s| then
      assert s[..i] == s && s[i..] == [];
      s[i..i]
    else
      var j := TrailingSpaceStart(s);
      assert !IsSpace(s[i]);
      assert i < j;
      assert AllSpace(s[..i]) && AllSpace(s[j..]);
      s[i..j]
  }

  /** Stripping is determined by its contract: a trimmed text padded by
      whitespace strips back to exactly that text. */
  lemma StripUnique(s: string, p: string, t: string, q: string)
    requires s == p + t + q
    requires AllSpace(p) && AllSpace(q) && Trimmed(t)
    ensures Strip(s) == t
  {
    var i := LeadingSpace(s);
    if t == [] {
      assert forall k :: 0 <= k < |s| ==> (k < |p| ==> s[k] == p[k]) && (|p| <= k ==> s[k] == q[k - |p|]);
      assert AllSpace(s);
    } else {
      assert s[|p|] == t[0];
      assert forall k :: 0 <= k < |p| ==> s[k] == p[k];
      assert i == |p|;
      var j := TrailingSpaceStart(s);
      assert s[|p| + |t| - 1] == t[|t| - 1];
      assert forall k :: |p| + |t| <= k < |s| ==> s[k] == q[k - |p| - |t|];
      assert j == |p| + |t|;
      assert s[i..j] == t;
    }
  }

  /** Stripping twice is the same as stripping once. */
  lemma StripIdempotent(s: string)
    ensures Strip(Strip(s)) == Strip(s)
  {
    var t := Strip(s);
    assert t == [] + t + [];
    StripUnique(t, [], t, []);
  }
}
