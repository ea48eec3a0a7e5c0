/**
 * String helpers the handlers rely on: ECMAScript `String.prototype.trim` and
 * the decimal rendering a number gets when it is concatenated into a label.
 */
module Text {

  /** The characters `trim` removes: ECMAScript WhiteSpace (TAB, VT, FF, SPACE,
      NBSP, ZWNBSP and category Zs) and LineTerminator (LF, CR, LS, PS). */
  predicate IsJsWhitespace(c: char) {
    || c == '\t' || c == '\U{000B}' || c == '\U{000C}' || c == ' '
    || c == '\U{00A0}' || c == '\U{FEFF}' || c == '\U{1680}'
    || ('\U{2000}' <= c <= '\U{200A}')
    || c == '\U{202F}' || c == '\U{205F}' || c == '\U{3000}'
    || c == '\n' || c == '\r' || c == '\U{2028}' || c == '\U{2029}'
  }

  /** Reference definition: a string that holds nothing but whitespace. */
  ghost predicate AllWhitespace(s: string) {
    forall k :: 0 <= k < |s| ==> IsJsWhitespace(s[k])
  }

  /** Drops leading whitespace: the result is the longest suffix of `s` not starting with whitespace. */
  function TrimStart(s: string): (r: string)
    ensures |r| <= |s| && r == s[|s| - |r|..]
    ensures forall k :: 0 <= k < |s| - |r| ==> IsJsWhitespace(s[k])
    ensures |r| > 0 ==> !IsJsWhitespace(r[0])
  {
    if |s| > 0 && IsJsWhitespace(s[0]) then TrimStart(s[1..]) else s
  }

  /** Drops trailing whitespace: the result is the longest prefix of `s` not ending in whitespace. */
  function TrimEnd(s: string): (r: string)
    ensures |r| <= |s| && r == s[..|r|]
    ensures forall k :: |r| <= k < |s| ==> IsJsWhitespace(s[k])
    ensures |r| > 0 ==> !IsJsWhitespace(r[|r| - 1])
  {
    if |s| > 0 && IsJsWhitespace(s[|s| - 1]) then TrimEnd(s[..|s| - 1]) else s
  }

  /** `r` is the window `s[i..i + |r|]` and `s` is whitespace on both sides of it. */
  ghost predicate TrimWindow(s: string, r: string, i: int) {
    && 0 <= i && i + |r| <= |s| && r == s[i..i + |r|]
    && (forall k :: 0 <= k < i ==> IsJsWhitespace(s[k]))
    && (forall k :: i + |r| <= k < |s| ==> IsJsWhitespace(s[k]))
  }

  /** `String.prototype.trim`: the input with its leading and trailing
      whitespace removed, so that neither end of the result is whitespace. */
  function Trim(s: string): (r: string)
    ensures |r| <= |s|
    ensures exists i :: TrimWindow(s, r, i)
    ensures |r| > 0 ==> !IsJsWhitespace(r[0]) && !IsJsWhitespace(r[|r| - 1])
  {
    TrimCutsWhitespaceEnds(s);
    TrimEnd(TrimStart(s))
  }

  /** `Trim(s)` sits in `s` right after the leading whitespace and is followed only by whitespace. */
  lemma TrimCutsWhitespaceEnds(s: string)
    ensures TrimWindow(s, TrimEnd(TrimStart(s)), |s| - |TrimStart(s)|)
  {
    var t := TrimStart(s);
    var r := TrimEnd(t);
    var i := |s| - |t|;
    assert t == s[i..];
    assert r == t[..|r|];
    WindowOfSuffix(s, t, r, i);
  }

  /** A prefix `r` of the suffix `t == s[i..]` that `t` follows only with whitespace
      is a window of `s`, followed in `s` only by whitespace. */
  lemma WindowOfSuffix(s: string, t: string, r: string, i: int)
    requires 0 <= i <= |s| && t == s[i..] && |r| <= |t| && r == t[..|r|]
    requires forall k :: 0 <= k < i ==> IsJsWhitespace(s[k])
    requires forall k :: |r| <= k < |t| ==> IsJsWhitespace(t[k])
    ensures TrimWindow(s, r, i)
  {
    assert r == s[i..i + |r|];
    forall k | i + |r| <= k < |s|
      ensures IsJsWhitespace(s[k])
    {
      assert s[k] == t[k - i];
    }
  }

  /** A string is blank after trimming exactly when every character is whitespace. */
  lemma TrimEmptyIffAllWhitespace(s: string)
    ensures Trim(s) == [] <==> AllWhitespace(s)
  {
  }

  /** The blank test `!s.trim()`: nothing is left after trimming. */
  predicate IsBlank(s: string)
    ensures IsBlank(s) <==> AllWhitespace(s)
  {
    TrimEmptyIffAllWhitespace(s);
    Trim(s) == []
  }

  /** A non-empty run of decimal digits. */
  predicate IsDigits(s: string) {
    |s| >= 1 && forall k :: 0 <= k < |s| ==> '0' <= s[k] <= '9'
  }

  /** The decimal digit character for `d`. */
  function DigitChar(d: nat): (c: char)
    requires d < 10
    ensures '0' <= c <= '9'
    ensures c as int - '0' as int == d
  {
    ('0' as int + d) as char
  }

  /** The decimal rendering JavaScript gives a non-negative integer. */
  function NatToString(n: nat): (r: string)
    ensures IsDigits(r)
    ensures |r| > 1 ==> r[0] != '0'
    decreases n
  {
    if n < 10 then [DigitChar(n)] else NatToString(n / 10) + [DigitChar(n % 10)]
  }

  /** Reads a string of decimal digits back as a number (the partner of `NatToString`). */
  function DigitsValue(s: string): nat
    requires forall k :: 0 <= k < |s| ==> '0' <= s[k] <= '9'
    decreases |s|
  {
    if |s| == 0 then 0
    else DigitsValue(s[..|s| - 1]) * 10 + (s[|s| - 1] as int - '0' as int)
  }

  /** Rendering then reading back gives the number again. */
  lemma {:induction false} NatToStringRoundTrip(n: nat)
    ensures DigitsValue(NatToString(n)) == n
    decreases n
  {
    if n >= 10 {
      var p := NatToString(n / 10);
      var r := NatToString(n);
      assert r[..|r| - 1] == p;
      NatToStringRoundTrip(n / 10);
    }
  }

  /** Distinct numbers render as distinct strings. */
  lemma NatToStringInjective(a: nat, b: nat)
    ensures NatToString(a) == NatToString(b) ==> a == b
  {
    NatToStringRoundTrip(a);
    NatToStringRoundTrip(b);
  }

  /** Only zero renders as "0". */
  lemma NatToStringZero(n: nat)
    ensures NatToString(n) == "0" <==> n == 0
  {
    NatToStringInjective(n, 0);
  }
}
