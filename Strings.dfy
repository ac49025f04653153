/**
 The handful of Python string operations the grabber applies to text scraped
 from the portal: `str.strip()`, `s.split(":")[0]`, the slice `s[0:-n]` and
 `s.replace(c, "")`. Strings are sequences of Unicode scalar values; a
 Python `str` is a sequence of code points and may also hold lone surrogates,
 which the text scraped from the portal is taken not to contain.
 */
module Strings {

  /** Python's `str.isspace()` for a single code point. */
  predicate IsSpace(c: char) {
    || c == ' '
    || '\t' <= c <= '\r'                  // \t \n \x0b \x0c \r
    || '\U{1C}' <= c <= '\U{1F}'          // file, group, record and unit separators
    || c == '\U{85}' || c == '\U{A0}' || c == '\U{1680}'
    || '\U{2000}' <= c <= '\U{200A}'
    || c == '\U{2028}' || c == '\U{2029}' || c == '\U{202F}' || c == '\U{205F}'
    || c == '\U{3000}'
  }

  /** Every character of `t` is white space. */
  predicate AllSpace(t: string) {
    forall i :: 0 <= i < |t| ==> IsSpace(t[i])
  }

  /** The number of white-space characters `s.lstrip()` cuts off the front:
      all of them are white space and the next one, if any, is not. */
  function LeadingSpaces(s: string): (n: nat)
    ensures n <= |s| && AllSpace(s[..n])
    ensures n < |s| ==> !IsSpace(s[n])
  {
    if s != [] && IsSpace(s[0]) then
      var rest := s[1..];
      var m := LeadingSpaces(rest);
      assert s[..m + 1] == [s[0]] + rest[..m];
      assert m < |rest| ==> rest[m] == s[m + 1];
      m + 1
    else 0
  }

  /** The number of white-space characters `s.rstrip()` cuts off the back:
      all of them are white space and the one before them, if any, is not. */
  function TrailingSpaces(s: string): (n: nat)
    ensures n <= |s| && AllSpace(s[|s| - n..])
    ensures n < |s| ==> !IsSpace(s[|s| - 1 - n])
  {
    if s != [] && IsSpace(s[|s| - 1]) then
      var front := s[..|s| - 1];
      var m := TrailingSpaces(front);
      assert s[|s| - (m + 1)..] == front[|front| - m..] + [s[|s| - 1]];
      assert m < |front| ==> front[|front| - 1 - m] == s[|s| - 1 - (m + 1)];
      m + 1
    else 0
  }

  /** `r` is what is left of `s` once `lo` characters of white space are cut
      off the front and the white space after `r` is cut off the back. */
  predicate CutAt(s: string, lo: int, r: string) {
    0 <= lo <= |s| - |r| && r == s[lo..lo + |r|]
    && AllSpace(s[..lo]) && AllSpace(s[lo + |r|..])
  }

  /** `s.strip()`: white space cut off both ends. That what is left
      neither starts nor ends with white space is stated here; that it is the
      slice of `s` between two runs of white space is lemma StripCut. */
  function Strip(s: string): (r: string)
    ensures r == [] || (!IsSpace(r[0]) && !IsSpace(r[|r| - 1]))
  {
    var lo := LeadingSpaces(s);
    var t := s[lo..];
    var n := TrailingSpaces(t);
    assert n < |t| ==> s[lo] == t[0] && s[|s| - 1 - n] == t[|t| - 1 - n];
    s[lo..|s| - n]
  }

  /** The stripped string is `s` with only white space cut off each end. */
  lemma StripCut(s: string)
    ensures exists lo :: CutAt(s, lo, Strip(s))
  {
    var lo := LeadingSpaces(s);
    var t := s[lo..];
    var n := TrailingSpaces(t);
    assert s[|s| - n..] == t[|t| - n..];
    assert Strip(s) == s[lo..|s| - n];
    assert CutAt(s, lo, s[lo..|s| - n]);
  }

  /** Stripping twice is stripping once. */
  lemma StripIdempotent(s: string)
    ensures Strip(Strip(s)) == Strip(s)
  {
    var r := Strip(s);
    StripCut(r);
    var lo :| CutAt(r, lo, Strip(r));
  }

  /** `s.split(":")[0]`: the longest prefix of `s` without a colon, which is
      the whole of `s` when `s` has no colon. */
  function BeforeColon(s: string): (r: string)
    ensures r <= s
    ensures ':' !in r
    ensures |r| < |s| ==> s[|r|] == ':'
  {
    if s == [] || s[0] == ':' then [] else [s[0]] + BeforeColon(s[1..])
  }

  /** The slice `s[0:-n]` for `n` at least 1, with Python's clamping: the
      prefix of `s` that is `n` shorter, or the empty string when `s` has
      fewer than `n` characters. (`s[0:-0]` is `s[0:0]`, hence `n > 0`.) */
  function DropLast(s: string, n: nat): (r: string)
    requires n > 0
    ensures r <= s
    ensures |r| == if |s| >= n then |s| - n else 0
  {
    if |s| >= n then s[..|s| - n] else []
  }

  /** `s.replace(c, "")`: every `c` deleted, and nothing but characters of
      `s` left; lemma RemoveCharCount states that every other character is
      kept as often as it occurs. */
  function RemoveChar(s: string, c: char): (r: string)
    ensures c !in r
    ensures forall d :: d in r ==> d in s
    ensures |r| <= |s|
  {
    if s == [] then []
    else if s[0] == c then RemoveChar(s[1..], c)
    else [s[0]] + RemoveChar(s[1..], c)
  }

  /** Deleting `c` takes every copy of `c` out of the multiset of
      characters and leaves every other count as it was. */
  lemma {:induction false} RemoveCharCount(s: string, c: char)
    ensures multiset(RemoveChar(s, c)) == multiset(s)[c := 0]
  {
    if s != [] {
      assert s == [s[0]] + s[1..];
      RemoveCharCount(s[1..], c);
    }
  }

  /** Deleting a character distributes over concatenation, so the relative
      order of the characters that are kept is that of `s`. */
  lemma {:induction false} RemoveCharConcat(a: string, b: string, c: char)
    ensures RemoveChar(a + b, c) == RemoveChar(a, c) + RemoveChar(b, c)
  {
    if a == [] {
      assert a + b == b;
    } else {
      assert (a + b)[0] == a[0] && (a + b)[1..] == a[1..] + b;
      RemoveCharConcat(a[1..], b, c);
      if a[0] != c {
        assert [a[0]] + (RemoveChar(a[1..], c) + RemoveChar(b, c))
            == ([a[0]] + RemoveChar(a[1..], c)) + RemoveChar(b, c);
      }
    }
  }

  /** Deleting a character that does not occur changes nothing. */
  lemma {:induction false} RemoveCharAbsent(s: string, c: char)
    requires c !in s
    ensures RemoveChar(s, c) == s
  {
    if s != [] {
      assert c !in s[1..];
      RemoveCharAbsent(s[1..], c);
    }
  }
}
