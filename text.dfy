/**
 * String primitives of Rust's `str` that the server relies on: prefix and
 * suffix tests, `split_once` on a character or a pattern, and the UTF-8
 * byte length that `str::len` reports.
 */
module Text {
  import opened Wrappers

  predicate StartsWith(s: string, prefix: string) {
    |prefix| <= |s| && s[..|prefix|] == prefix
  }

  /** `str::strip_prefix`: the rest of `s` after `prefix`, if `s` starts with it. */
  function StripPrefix(s: string, prefix: string): (r: Option<string>)
    ensures r.Some? <==> StartsWith(s, prefix)
    ensures r.Some? ==> prefix + r.value == s
  {
    if StartsWith(s, prefix) then
      assert s == s[..|prefix|] + s[|prefix|..];
      Some(s[|prefix|..])
    else None
  }

  /** Index of the first occurrence of `c` in `s`. */
  function FindChar(s: string, c: char): (r: Option<nat>)
    ensures r.Some? ==> r.value < |s| && s[r.value] == c && c !in s[..r.value]
    ensures r.None? <==> c !in s
  {
    if s == [] then None
    else if s[0] == c then Some(0)
    else
      var rest := FindChar(s[1..], c);
      assert s[1..] == s[..][1..];
      if rest.None? then None
      else
        assert s[..rest.value + 1] == [s[0]] + s[1..][..rest.value];
        Some(rest.value + 1)
  }

  /** `str::split_once(c)`: the text before and after the first `c`. */
  function SplitOnceChar(s: string, c: char): (r: Option<(string, string)>)
    ensures r.None? <==> c !in s
    ensures r.Some? ==> r.value.0 + [c] + r.value.1 == s && c !in r.value.0
  {
    match FindChar(s, c)
    case None => None
    case Some(i) =>
      assert s == s[..i] + [c] + s[i + 1..];
      Some((s[..i], s[i + 1..]))
  }

  /** Does `pat` occur in `s` at index `i`? */
  predicate OccursAt(s: string, pat: string, i: nat) {
    i + |pat| <= |s| && s[i..i + |pat|] == pat
  }

  /** Index of the first occurrence of the non-empty pattern `pat` in `s`. */
  function FindStr(s: string, pat: string): (r: Option<nat>)
    requires pat != []
    ensures r.Some? ==> OccursAt(s, pat, r.value) && forall j :: 0 <= j < r.value ==> !OccursAt(s, pat, j)
    ensures r.None? ==> forall j :: 0 <= j ==> !OccursAt(s, pat, j)
    decreases |s|
  {
    if |s| < |pat| then None
    else if s[..|pat|] == pat then Some(0)
    else
      var rest := FindStr(s[1..], pat);
      assert forall j :: 0 <= j ==> (OccursAt(s[1..], pat, j) <==> OccursAt(s, pat, j + 1)) by {
        forall j | 0 <= j ensures OccursAt(s[1..], pat, j) <==> OccursAt(s, pat, j + 1) {
          if j + 1 + |pat| <= |s| { assert s[1..][j..j + |pat|] == s[j + 1..j + 1 + |pat|]; }
        }
      }
      if rest.None? then
        assert forall j :: 1 <= j ==> !OccursAt(s, pat, j) by {
          forall j | 1 <= j ensures !OccursAt(s, pat, j) { assert !OccursAt(s[1..], pat, j - 1); }
        }
        None
      else
        assert forall j :: 1 <= j <= rest.value ==> !OccursAt(s, pat, j) by {
          forall j | 1 <= j <= rest.value ensures !OccursAt(s, pat, j) { assert !OccursAt(s[1..], pat, j - 1); }
        }
        Some(rest.value + 1)
  }

  /** `str::split_once(pat)` for a non-empty pattern: the text around its first occurrence. */
  function SplitOnceStr(s: string, pat: string): (r: Option<(string, string)>)
    requires pat != []
    ensures r.None? ==> forall j :: 0 <= j ==> !OccursAt(s, pat, j)
    ensures r.Some? ==> r.value.0 + pat + r.value.1 == s
    ensures r.Some? ==> OccursAt(s, pat, |r.value.0|) && forall j :: 0 <= j < |r.value.0| ==> !OccursAt(s, pat, j)
  {
    match FindStr(s, pat)
    case None => None
    case Some(i) =>
      assert s == s[..i] + s[i..i + |pat|] + s[i + |pat|..];
      Some((s[..i], s[i + |pat|..]))
  }

  /** Only ASCII letters and digits, as `rand::distributions::Alphanumeric` draws them. */
  predicate IsAlphanumeric(s: string) {
    forall i :: 0 <= i < |s| ==> ('a' <= s[i] <= 'z') || ('A' <= s[i] <= 'Z') || ('0' <= s[i] <= '9')
  }

  /** Number of bytes the UTF-8 encoding of `c` takes. */
  function Utf8Width(c: char): nat {
    if c as int < 0x80 then 1
    else if c as int < 0x800 then 2
    else if c as int < 0x1_0000 then 3
    else 4
  }

  /** `str::len`: the length of `s` in UTF-8 bytes, not in characters. */
  function Utf8Len(s: string): (n: nat)
    ensures |s| <= n <= 4 * |s|
  {
    if s == [] then 0 else Utf8Width(s[0]) + Utf8Len(s[1..])
  }

  predicate IsAscii(s: string) {
    forall i :: 0 <= i < |s| ==> s[i] as int < 0x80
  }

  /** On ASCII text, bytes and characters agree. */
  lemma {:induction false} AsciiUtf8Len(s: string)
    requires IsAscii(s)
    ensures Utf8Len(s) == |s|
  {
    if s != [] {
      assert IsAscii(s[1..]) by {
        forall i | 0 <= i < |s[1..]| ensures s[1..][i] as int < 0x80 { assert s[1..][i] == s[i + 1]; }
      }
      AsciiUtf8Len(s[1..]);
    }
  }

  /** Splitting at a character that the first part does not contain gives the parts back. */
  lemma SplitOnceCharAt(l: string, c: char, r: string)
    requires c !in l
    ensures SplitOnceChar(l + [c] + r, c) == Some((l, r))
  {
    var s := l + [c] + r;
    assert s[|l|] == c;
    assert forall k :: 0 <= k < |l| ==> s[k] == l[k];
    assert FindChar(s, c) == Some(|l|);
    assert s[..|l|] == l && s[|l| + 1..] == r;
  }

  /** Splitting the tail of a split again places the middle piece inside the whole. */
  lemma NestedSplit(s: string, pre: string, pat: string, right: string, left: string, sep: string, post: string)
    requires s == pre + pat + right && right == left + sep + post
    ensures s == pre + pat + left + sep + post
  {
  }

  /** Splitting at a pattern that does not occur before its first placed occurrence gives the parts back. */
  lemma SplitOnceStrAt(l: string, pat: string, r: string)
    requires pat != []
    requires forall j :: 0 <= j < |l| ==> !OccursAt(l + pat + r, pat, j)
    ensures SplitOnceStr(l + pat + r, pat) == Some((l, r))
  {
    var s := l + pat + r;
    assert OccursAt(s, pat, |l|) by { assert s[|l|..|l| + |pat|] == pat; }
    var split := SplitOnceStr(s, pat);
    var i := |split.value.0|;
    assert i == |l|;
    assert split.value.0 == s[..i] == l;
    assert split.value.1 == s[i + |pat|..] == r;
  }
}
