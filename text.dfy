/**
 * The string primitives the source borrows from JavaScript: `trim`,
 * `toLowerCase`, `includes`, the digit classes `[0-9]`/`\d`/`\D` of its
 * regular expressions, number-to-text conversion in template literals and
 * `parseInt` on a run of digits.
 */
module Text {

  import opened Wrappers

  /** `[0-9]`, which is also what `\d` matches in a regular expression without the `u` flag. */
  predicate IsDigit(c: char) {
    '0' <= c <= '9'
  }

  /** The whole string matches `^\d*$`. */
  predicate IsDigits(s: string) {
    forall i :: 0 <= i < |s| ==> IsDigit(s[i])
  }

  /** No character of `s` is a digit. */
  predicate NoDigits(s: string) {
    forall i :: 0 <= i < |s| ==> !IsDigit(s[i])
  }

  /**
   * ECMAScript WhiteSpace and LineTerminator code points: the set that both
   * `String.prototype.trim` strips and the regular-expression class `\s` matches.
   */
  predicate IsJsWhitespace(c: char) {
    c == '\t' || c == '\n' || c == '\U{B}' || c == '\U{C}' || c == '\r' || c == ' '
    || c == '\U{A0}' || c == '\U{1680}' || ('\U{2000}' <= c <= '\U{200A}')
    || c == '\U{2028}' || c == '\U{2029}' || c == '\U{202F}' || c == '\U{205F}'
    || c == '\U{3000}' || c == '\U{FEFF}'
  }

  predicate AllWhitespace(s: string) {
    forall i :: 0 <= i < |s| ==> IsJsWhitespace(s[i])
  }

  /** A whitespace character in front of whitespace is still whitespace. */
  lemma AllWhitespaceCons(c: char, s: string)
    requires IsJsWhitespace(c) && AllWhitespace(s)
    ensures AllWhitespace([c] + s)
  {
    forall i | 0 <= i < |[c] + s| ensures IsJsWhitespace(([c] + s)[i]) {
      if i > 0 {
        assert ([c] + s)[i] == s[i - 1];
      }
    }
  }

  /** Whitespace followed by a whitespace character is still whitespace. */
  lemma AllWhitespaceSnoc(s: string, c: char)
    requires AllWhitespace(s) && IsJsWhitespace(c)
    ensures AllWhitespace(s + [c])
  {
    forall i | 0 <= i < |s + [c]| ensures IsJsWhitespace((s + [c])[i]) {
      if i < |s| {
        assert (s + [c])[i] == s[i];
      }
    }
  }

  /** `s` with its leading whitespace removed. */
  function TrimStart(s: string): (r: string)
    ensures |r| <= |s| && r == s[|s| - |r|..]
    ensures AllWhitespace(s[..|s| - |r|])
    ensures r == [] || !IsJsWhitespace(r[0])
  {
    if s != [] && IsJsWhitespace(s[0]) then
      var r := TrimStart(s[1..]);
      assert s[..|s| - |r|] == [s[0]] + s[1..][..|s[1..]| - |r|];
      AllWhitespaceCons(s[0], s[1..][..|s[1..]| - |r|]);
      r
    else s
  }

  /** `s` with its trailing whitespace removed. */
  function TrimEnd(s: string): (r: string)
    ensures |r| <= |s| && r == s[..|r|]
    ensures AllWhitespace(s[|r|..])
    ensures r == [] || !IsJsWhitespace(r[|r| - 1])
  {
    if s != [] && IsJsWhitespace(s[|s| - 1]) then
      var r := TrimEnd(s[..|s| - 1]);
      assert s[|r|..] == s[..|s| - 1][|r|..] + [s[|s| - 1]];
      AllWhitespaceSnoc(s[..|s| - 1][|r|..], s[|s| - 1]);
      r
    else s
  }

  /** `s.trim()`: a contiguous piece of `s` that neither starts nor ends with whitespace. */
  function Trim(s: string): (r: string)
    ensures |r| <= |s|
    ensures r == [] || (!IsJsWhitespace(r[0]) && !IsJsWhitespace(r[|r| - 1]))
    ensures exists a, b :: 0 <= a <= b <= |s| && r == s[a..b] && AllWhitespace(s[..a]) && AllWhitespace(s[b..])
  {
    var t := TrimStart(s);
    var r := TrimEnd(t);
    TrimPiece(s, t, r);
    r
  }

  /**
   * A prefix `r` of a suffix `t` of `s` is the slice of `s` it covers, and
   * what `t` has after `r` is what `s` has after that slice.
   */
  lemma TrimPiece(s: string, t: string, r: string)
    requires |t| <= |s| && t == s[|s| - |t|..]
    requires |r| <= |t| && r == t[..|r|] && AllWhitespace(t[|r|..])
    ensures var a := |s| - |t|;
      && r == s[a..a + |r|] && AllWhitespace(s[a + |r|..])
  {
    var a := |s| - |t|;
    assert s[a + |r|..] == t[|r|..];
  }

  /** `!value || !value.trim()`: the text is empty or only whitespace. */
  predicate IsBlank(s: string) {
    Trim(s) == ""
  }

  /** A string is blank exactly when every character in it is whitespace. */
  lemma BlankIffAllWhitespace(s: string)
    ensures IsBlank(s) <==> AllWhitespace(s)
  {
    var t := TrimStart(s);
    assert t != [] ==> t[0] == s[|s| - |t|];
    if Trim(s) == [] {
      assert AllWhitespace(t[0..]);
      assert t == [];
      assert s[..|s|] == s;
    }
  }

  /** Trimming a trimmed string changes nothing. */
  lemma TrimIdempotent(s: string)
    ensures Trim(Trim(s)) == Trim(s)
  {
    var r := Trim(s);
    assert TrimStart(r) == r;
    assert TrimEnd(r) == r;
  }

  /** `/[0-9]/g` replaced by `''`: every digit removed. */
  function StripDigits(s: string): (r: string)
    ensures NoDigits(r)
    ensures |r| <= |s|
    ensures forall c :: c in r ==> c in s
    ensures forall c :: c in s && !IsDigit(c) ==> c in r
  {
    if s == [] then []
    else if IsDigit(s[0]) then StripDigits(s[1..])
    else [s[0]] + StripDigits(s[1..])
  }

  /** Stripping works piecewise, so the kept characters keep their order. */
  lemma {:induction false} StripDigitsConcat(a: string, b: string)
    ensures StripDigits(a + b) == StripDigits(a) + StripDigits(b)
  {
    if a == [] {
      assert a + b == b;
    } else {
      assert (a + b)[1..] == a[1..] + b;
      StripDigitsConcat(a[1..], b);
    }
  }

  /** Text without digits passes through unchanged. */
  lemma {:induction false} StripDigitsKeepsDigitFree(s: string)
    requires NoDigits(s)
    ensures StripDigits(s) == s
  {
    if s != [] {
      StripDigitsKeepsDigitFree(s[1..]);
    }
  }

  /** Sanitising twice is the same as sanitising once. */
  lemma StripDigitsIdempotent(s: string)
    ensures StripDigits(StripDigits(s)) == StripDigits(s)
  {
    StripDigitsKeepsDigitFree(StripDigits(s));
  }

  /** `/\D/g` replaced by `''`: only the digits kept. */
  function KeepDigits(s: string): (r: string)
    ensures IsDigits(r)
    ensures |r| <= |s|
    ensures forall c :: c in r ==> c in s
    ensures forall c :: c in s && IsDigit(c) ==> c in r
  {
    if s == [] then []
    else if IsDigit(s[0]) then [s[0]] + KeepDigits(s[1..])
    else KeepDigits(s[1..])
  }

  /** Keeping digits works piecewise, so the digits keep their order. */
  lemma {:induction false} KeepDigitsConcat(a: string, b: string)
    ensures KeepDigits(a + b) == KeepDigits(a) + KeepDigits(b)
  {
    if a == [] {
      assert a + b == b;
    } else {
      assert (a + b)[1..] == a[1..] + b;
      KeepDigitsConcat(a[1..], b);
    }
  }

  /** Text made only of digits passes through unchanged. */
  lemma {:induction false} KeepDigitsKeepsDigits(s: string)
    requires IsDigits(s)
    ensures KeepDigits(s) == s
  {
    if s != [] {
      KeepDigitsKeepsDigits(s[1..]);
    }
  }

  /** `toLowerCase` on one character (A-Z only). */
  function LowerChar(c: char): char {
    if 'A' <= c <= 'Z' then (c as int + 32) as char else c
  }

  /** `s.toLowerCase()`, character by character. */
  function ToLower(s: string): (r: string)
    ensures |r| == |s|
    ensures forall i :: 0 <= i < |s| ==> r[i] == LowerChar(s[i])
  {
    seq(|s|, i requires 0 <= i < |s| => LowerChar(s[i]))
  }

  /** `sub` occurs in `s` at index `i`. */
  predicate OccursAt(s: string, sub: string, i: int) {
    0 <= i && i + |sub| <= |s| && s[i..i + |sub|] == sub
  }

  /** `s.startsWith(prefix)`. */
  predicate StartsWith(s: string, prefix: string) {
    |prefix| <= |s| && s[..|prefix|] == prefix
  }

  /** `s.includes(sub)`: is `sub` a prefix of `s` or of one of its suffixes. */
  predicate Contains(s: string, sub: string) {
    if StartsWith(s, sub) then true
    else if s == [] then false
    else Contains(s[1..], sub)
  }

  /** `Contains` finds exactly the strings that occur somewhere in `s`. */
  lemma {:induction false} ContainsIffOccurs(s: string, sub: string)
    ensures Contains(s, sub) <==> exists i :: OccursAt(s, sub, i)
  {
    if StartsWith(s, sub) {
      assert OccursAt(s, sub, 0);
    } else if s == [] {
    } else {
      ContainsIffOccurs(s[1..], sub);
      if Contains(s[1..], sub) {
        var i :| OccursAt(s[1..], sub, i);
        assert s[1..][i..i + |sub|] == s[i + 1..i + 1 + |sub|];
        assert OccursAt(s, sub, i + 1);
      } else {
        forall i | OccursAt(s, sub, i) ensures false {
          assert i != 0;
          assert s[1..][i - 1..i - 1 + |sub|] == s[i..i + |sub|];
          assert OccursAt(s[1..], sub, i - 1);
        }
      }
    }
  }

  /** Every string contains the empty string. */
  lemma ContainsEmpty(s: string)
    ensures Contains(s, "")
  {
    assert s[..0] == "";
  }

  /** A string that contains `sub` also contains it with text added on either side. */
  lemma ContainsExtend(pre: string, s: string, post: string, sub: string)
    requires Contains(s, sub)
    ensures Contains(pre + s + post, sub)
  {
    ContainsIffOccurs(s, sub);
    var i :| OccursAt(s, sub, i);
    assert (pre + s + post)[|pre| + i..|pre| + i + |sub|] == s[i..i + |sub|];
    assert OccursAt(pre + s + post, sub, |pre| + i);
    ContainsIffOccurs(pre + s + post, sub);
  }

  /** The character for a digit value. */
  function DigitChar(d: nat): (c: char)
    requires d < 10
    ensures IsDigit(c)
  {
    ('0' as int + d) as char
  }

  /** The value of a digit character. */
  function DigitValue(c: char): (d: nat)
    requires IsDigit(c)
    ensures d < 10 && DigitChar(d) == c
  {
    c as int - '0' as int
  }

  /** A non-negative integer in a template literal: decimal, no sign, no leading zero. */
  function NatToString(n: nat): (r: string)
    ensures |r| >= 1 && IsDigits(r)
    ensures |r| > 1 ==> r[0] != '0'
  {
    if n < 10 then [DigitChar(n)]
    else NatToString(n / 10) + [DigitChar(n % 10)]
  }

  /** `parseInt` of a string made of digits, read in base 10. */
  function DecimalValue(s: string): nat
    requires IsDigits(s)
  {
    if s == [] then 0
    else 10 * DecimalValue(s[..|s| - 1]) + DigitValue(s[|s| - 1])
  }

  /** Reading back the decimal text of `n` gives `n`. */
  lemma {:induction false} DecimalRoundTrip(n: nat)
    ensures DecimalValue(NatToString(n)) == n
  {
    if n >= 10 {
      var s := NatToString(n);
      assert s[..|s| - 1] == NatToString(n / 10);
      DecimalRoundTrip(n / 10);
    }
  }

  /** Index of the first digit in `s`, or `|s|` when there is none. */
  function FirstDigitIndex(s: string): (k: nat)
    ensures k <= |s|
    ensures NoDigits(s[..k])
    ensures k < |s| ==> IsDigit(s[k])
  {
    if s == [] || IsDigit(s[0]) then 0
    else
      var k := FirstDigitIndex(s[1..]);
      assert s[..k + 1] == [s[0]] + s[1..][..k];
      k + 1
  }

  /** Length of the run of digits that `s` starts with. */
  function DigitRunLength(s: string): (n: nat)
    ensures n <= |s|
    ensures IsDigits(s[..n])
    ensures n < |s| ==> !IsDigit(s[n])
  {
    if s == [] || !IsDigit(s[0]) then 0
    else
      var n := DigitRunLength(s[1..]);
      assert s[..n + 1] == [s[0]] + s[1..][..n];
      n + 1
  }

  /**
   * `s.match(/\d+/)?.[0]`: the first maximal run of digits. There is none
   * exactly when `s` has no digit; otherwise the run is preceded only by
   * non-digits and is followed by the end of `s` or a non-digit.
   */
  function FirstDigitRun(s: string): (r: Option<string>)
    ensures r.None? <==> NoDigits(s)
    ensures r.Some? ==>
      var k := FirstDigitIndex(s);
      && |r.value| >= 1 && IsDigits(r.value)
      && k + |r.value| <= |s| && s[k..k + |r.value|] == r.value
      && (k + |r.value| == |s| || !IsDigit(s[k + |r.value|]))
  {
    var k := FirstDigitIndex(s);
    if k == |s| then
      assert s[..k] == s;
      None
    else
      var n := DigitRunLength(s[k..]);
      assert s[k..][..n] == s[k..k + n];
      Some(s[k..k + n])
  }

  /** After a digit-free prefix, the first run of digits is a trailing all-digit part. */
  lemma FirstDigitRunAfter(pre: string, ds: string)
    requires NoDigits(pre) && IsDigits(ds) && |ds| >= 1
    ensures FirstDigitRun(pre + ds) == Some(ds)
  {
    var s := pre + ds;
    var k := FirstDigitIndex(s);
    assert s[|pre|] == ds[0];
    assert forall j :: 0 <= j < |pre| ==> s[j] == pre[j];
    assert forall j :: 0 <= j < k ==> s[..k][j] == s[j];
    assert k == |pre|;
    var r := FirstDigitRun(s).value;
    assert forall j :: k <= j < |s| ==> s[j] == ds[j - k];
    assert k + |r| == |s|;
    assert s[k..k + |r|] == ds;
  }
}
