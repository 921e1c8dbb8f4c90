/** The pieces of Python's `str` behaviour that the core relies on:
    `str.isspace`, `str.strip()` without arguments, `str.lower()` and the
    `in` substring test. */
module PyText {

  /** Python's `str.isspace()`: the characters `str.strip()` removes. */
  predicate IsSpace(c: char)
  {
    || ('\t' <= c <= '\r')                // tab, line feed, vertical tab, form feed, carriage return
    || ('\U{1C}' <= c <= '\U{1F}')         // information separators
    || c == ' '
    || c == '\U{85}' || c == '\U{A0}' || c == '\U{1680}'
    || ('\U{2000}' <= c <= '\U{200A}')
    || c == '\U{2028}' || c == '\U{2029}' || c == '\U{202F}' || c == '\U{205F}' || c == '\U{3000}'
  }

  predicate IsAscii(c: char)
  {
    (c as int) < 128
  }

  predicate IsUpperAscii(c: char)
  {
    'A' <= c <= 'Z'
  }

  /** `str.lstrip()`: drop leading whitespace. */
  function StripStart(s: string): string
  {
    if s != [] && IsSpace(s[0]) then StripStart(s[1..]) else s
  }

  /** `str.rstrip()`: drop trailing whitespace. */
  function StripEnd(s: string): string
  {
    if s != [] && IsSpace(s[|s| - 1]) then StripEnd(s[..|s| - 1]) else s
  }

  /** `str.strip()`: both `str.lstrip()` and `str.rstrip()`. */
  function Strip(s: string): string
  {
    StripEnd(StripStart(s))
  }

  /** `str.lstrip()` cuts off a whitespace prefix and keeps a suffix that does
      not start with whitespace. */
  lemma {:induction false} StripStartCutsWhitespace(s: string)
    ensures var r := StripStart(s);
            |r| <= |s| && TrimmedAt(s, r, |s| - |r|) && (r == [] || !IsSpace(r[0]))
  {
    if s != [] && IsSpace(s[0]) {
      StripStartCutsWhitespace(s[1..]);
      var r := StripStart(s);
      assert s[1..][|s| - 1 - |r|..|s| - 1] == s[|s| - |r|..|s|];
      forall k | 0 <= k < |s| - |r| ensures IsSpace(s[k]) {
        if k > 0 {
          assert s[k] == s[1..][k - 1];
        }
      }
    }
  }

  /** `str.rstrip()` cuts off a whitespace suffix and keeps a prefix that does
      not end with whitespace. */
  lemma {:induction false} StripEndCutsWhitespace(s: string)
    ensures var r := StripEnd(s);
            |r| <= |s| && TrimmedAt(s, r, 0) && (r == [] || !IsSpace(r[|r| - 1]))
  {
    if s != [] && IsSpace(s[|s| - 1]) {
      StripEndCutsWhitespace(s[..|s| - 1]);
      var r := StripEnd(s);
      assert s[..|s| - 1][0..|r|] == s[0..|r|];
      forall k | |r| <= k < |s| ensures IsSpace(s[k]) {
        if k < |s| - 1 {
          assert s[k] == s[..|s| - 1][k];
        }
      }
    }
  }

  /** What `str.strip()` does: the result is the slice of `s` that starts
      after the leading whitespace, everything cut off on either side is
      whitespace, and neither end of the result is whitespace. */
  lemma StripCutsOnlyWhitespace(s: string)
    ensures TrimmedAt(s, Strip(s), |s| - |StripStart(s)|)
    ensures IsStripped(Strip(s))
  {
    var t := StripStart(s);
    var r := StripEnd(t);
    var lo := |s| - |t|;
    StripStartCutsWhitespace(s);
    StripEndCutsWhitespace(t);
    assert r == t[..|r|] == s[lo..lo + |t|][..|r|] == s[lo..lo + |r|];
    forall k | lo + |r| <= k < |s| ensures IsSpace(s[k]) {
      assert s[k] == t[k - lo];
    }
  }

  /** `r` is the slice of `s` starting at `lo`, and everything of `s` outside
      that slice is whitespace. */
  predicate TrimmedAt(s: string, r: string, lo: int)
  {
    && 0 <= lo && lo + |r| <= |s|
    && r == s[lo..lo + |r|]
    && (forall k :: 0 <= k < lo ==> IsSpace(s[k]))
    && (forall k :: lo + |r| <= k < |s| ==> IsSpace(s[k]))
  }

  /** Neither end of `s` is whitespace. */
  predicate IsStripped(s: string)
  {
    s == [] || (!IsSpace(s[0]) && !IsSpace(s[|s| - 1]))
  }

  lemma StrippedIsFixed(s: string)
    requires IsStripped(s)
    ensures Strip(s) == s
  {
  }

  lemma StripIdempotent(s: string)
    ensures Strip(Strip(s)) == Strip(s)
  {
    StripCutsOnlyWhitespace(s);
    StrippedIsFixed(Strip(s));
  }

  const KelvinSign: char := '\U{212A}'

  /** `str.lower()` on one character. ASCII capitals map to their small
      letters, and KELVIN SIGN maps to ASCII 'k' (the one non-ASCII character
      whose lowercase form is ASCII). Every other character is kept. */
  function LowerChar(c: char): (l: char)
    ensures !IsUpperAscii(l)
    ensures IsSpace(l) == IsSpace(c)
    ensures IsAscii(c) ==> IsAscii(l)
  {
    if IsUpperAscii(c) then (c as int + 32) as char
    else if c == KelvinSign then 'k'
    else c
  }

  /** `str.lower()`: character by character. */
  function Lower(s: string): (r: string)
    ensures |r| == |s|
  {
    seq(|s|, i requires 0 <= i < |s| => LowerChar(s[i]))
  }

  /** Lowercasing keeps whitespace where it is, so it cannot undo a strip. */
  lemma LowerKeepsStripped(s: string)
    requires IsStripped(s)
    ensures IsStripped(Lower(s))
  {
  }

  lemma LowerIdempotent(s: string)
    ensures Lower(Lower(s)) == Lower(s)
  {
  }

  predicate OccursAt(s: string, sub: string, i: nat)
  {
    i + |sub| <= |s| && s[i..i + |sub|] == sub
  }

  /** Python's `sub in s`: the empty string is in every string, and nothing
      longer than `s` is in it. */
  predicate Contains(s: string, sub: string)
    ensures sub == [] ==> Contains(s, sub)
    ensures Contains(s, sub) ==> |sub| <= |s|
  {
    assert sub == [] ==> OccursAt(s, sub, 0);
    exists i: nat | i <= |s| - |sub| :: OccursAt(s, sub, i)
  }
}
