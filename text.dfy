/** Text helpers shared by the delivery guard and the history wrapper: the
    whitespace class and `strip()` of Python strings, and the substring test
    that Python's `in` performs on two strings. */
module Text {

  /** Python's `str.isspace()` for a single character: the characters that
      `str.strip()` with no argument removes. */
  predicate IsWhitespace(c: char)
    ensures c == ' ' || c == '\t' || c == '\n' || c == '\r' ==> IsWhitespace(c)
    ensures '!' <= c <= '~' ==> !IsWhitespace(c)
  {
    ('\t' <= c <= '\r') || ('\U{1C}' <= c <= '\U{1F}') || c == ' ' ||
    c == '\U{85}' || c == '\U{A0}' || c == '\U{1680}' ||
    ('\U{2000}' <= c <= '\U{200A}') || c == '\U{2028}' || c == '\U{2029}' ||
    c == '\U{202F}' || c == '\U{205F}' || c == '\U{3000}'
  }

  /** Every character is whitespace (this includes the empty string). */
  predicate IsBlank(s: string) {
    forall i | 0 <= i < |s| :: IsWhitespace(s[i])
  }

  /** The first position at or after `i` that does not hold whitespace
      (`|s|` when there is none). */
  function SkipForward(s: string, i: nat): (k: nat)
    requires i <= |s|
    ensures i <= k <= |s|
    ensures forall m | i <= m < k :: IsWhitespace(s[m])
    ensures k == |s| || !IsWhitespace(s[k])
    decreases |s| - i
  {
    if i < |s| && IsWhitespace(s[i]) then SkipForward(s, i + 1) else i
  }

  /** The position just after the last character before `j` that is not
      whitespace (0 when there is none). */
  function SkipBackward(s: string, j: nat): (k: nat)
    requires j <= |s|
    ensures k <= j
    ensures forall m | k <= m < j :: IsWhitespace(s[m])
    ensures k == 0 || !IsWhitespace(s[k - 1])
  {
    if j > 0 && IsWhitespace(s[j - 1]) then SkipBackward(s, j - 1) else j
  }

  /** `s.strip()`: drop leading and trailing whitespace, so that the result
      neither starts nor ends with whitespace. */
  function Strip(s: string): (r: string)
    ensures |r| <= |s|
    ensures r == [] || (!IsWhitespace(r[0]) && !IsWhitespace(r[|r| - 1]))
  {
    var a := SkipForward(s, 0);
    var b := SkipBackward(s, |s|);
    if a < b then s[a..b] else []
  }

  /** What `Strip` leaves is `s` with a blank prefix and a blank suffix
      removed; with `Strip`'s own contract (no whitespace at either end of
      the result) this determines the result. */
  lemma StripTrims(s: string)
    ensures exists i | 0 <= i <= |s| - |Strip(s)| ::
      Strip(s) == s[i..i + |Strip(s)|] && IsBlank(s[..i]) && IsBlank(s[i + |Strip(s)|..])
  {
    var a := SkipForward(s, 0);
    var b := SkipBackward(s, |s|);
    if a < b {
      assert s[a..b] == s[a..a + (b - a)];
      assert IsBlank(s[..a]);
      assert IsBlank(s[b..]);
    } else {
      // Nothing survives: the whole string is whitespace.
      StripEmptyIffBlank(s);
      assert s[..0] == [] && s[0..] == s;
    }
  }

  /** Stripping leaves nothing exactly when the string is blank: the test
      `not s.strip()` is the same as "only whitespace". */
  lemma StripEmptyIffBlank(s: string)
    ensures Strip(s) == [] <==> IsBlank(s)
  {
    var a := SkipForward(s, 0);
    var b := SkipBackward(s, |s|);
    // When nothing survives, the leading and the trailing whitespace
    // together cover the whole string.
    if a < b {
      assert !IsWhitespace(s[a]);
    }
  }

  /** Python's `sub in s` on two strings. */
  predicate Contains(s: string, sub: string)
    ensures sub <= s ==> Contains(s, sub)
    ensures Contains(s, sub) ==> |sub| <= |s|
  {
    assert sub <= s ==> sub <= s[0..];
    exists k | 0 <= k <= |s| - |sub| :: sub <= s[k..]
  }

  /** Each part of a concatenation is a substring of it. */
  lemma {:induction false} ContainsConcat(a: string, b: string)
    ensures Contains(a + b, a) && Contains(a + b, b)
  {
    assert a <= (a + b)[0..];
    assert (a + b)[|a|..] == b;
  }
}
