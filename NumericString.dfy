/**
 * PHP's `is_numeric` on strings, as it decides whether a key of the array
 * handed to `Factory::fake` is numeric. The rules are those of PHP 8
 * numeric strings: optional leading whitespace, an optional sign, a decimal
 * mantissa with at most one dot and at least one digit, an optional
 * exponent, and optional trailing whitespace. Hexadecimal, binary and
 * `INF`/`NAN` spellings are not numeric.
 */
module NumericString {

  /** The whitespace PHP skips around a numeric string: space, \t, \n, \r, \v, \f. */
  predicate IsWhitespace(c: char) {
    c == ' ' || c == '\t' || c == '\n' || c == '\r' || c == '\U{0B}' || c == '\U{0C}'
  }

  predicate IsDigit(c: char) {
    '0' <= c <= '9'
  }

  predicate IsSign(c: char) {
    c == '+' || c == '-'
  }

  function TrimLeft(s: string): (r: string)
    ensures |r| <= |s| && r == s[|s| - |r|..]
    ensures r == [] || !IsWhitespace(r[0])
  {
    if |s| > 0 && IsWhitespace(s[0]) then TrimLeft(s[1..]) else s
  }

  function TrimRight(s: string): (r: string)
    ensures |r| <= |s| && r == s[..|r|]
    ensures r == [] || !IsWhitespace(r[|r| - 1])
  {
    if |s| > 0 && IsWhitespace(s[|s| - 1]) then TrimRight(s[..|s| - 1]) else s
  }

  function DropSign(s: string): string {
    if |s| > 0 && IsSign(s[0]) then s[1..] else s
  }

  /** Index of the first `e` or `E` in `s`, or `|s|` when there is none. */
  function ExponentAt(s: string): (i: nat)
    ensures i <= |s|
    ensures forall j :: 0 <= j < i ==> s[j] != 'e' && s[j] != 'E'
    ensures i < |s| ==> s[i] == 'e' || s[i] == 'E'
  {
    if s == [] then 0
    else if s[0] == 'e' || s[0] == 'E' then 0
    else 1 + ExponentAt(s[1..])
  }

  /** Digits with at most one dot, and at least one digit: `12`, `1.`, `.5`, `1.5`. */
  predicate IsMantissa(m: string) {
    && (forall i :: 0 <= i < |m| ==> IsDigit(m[i]) || m[i] == '.')
    && (forall i, j :: 0 <= i < j < |m| && m[i] == '.' ==> m[j] != '.')
    && (exists i :: 0 <= i < |m| && IsDigit(m[i]))
  }

  predicate IsDigitRun(d: string) {
    |d| > 0 && forall i :: 0 <= i < |d| ==> IsDigit(d[i])
  }

  /** Empty, or `e`/`E` followed by an optionally signed run of digits. */
  predicate IsExponent(x: string) {
    x == [] || ((x[0] == 'e' || x[0] == 'E') && IsDigitRun(DropSign(x[1..])))
  }

  /** An unsigned number with no surrounding whitespace: a mantissa, then an optional exponent. */
  predicate IsUnsignedNumber(body: string) {
    var e := ExponentAt(body);
    IsMantissa(body[..e]) && IsExponent(body[e..])
  }

  predicate IsNumericString(s: string) {
    IsUnsignedNumber(DropSign(TrimRight(TrimLeft(s))))
  }

  predicate HasDigit(s: string) {
    exists i :: 0 <= i < |s| && IsDigit(s[i])
  }

  /** Every numeric string holds a digit, so in particular `*` and `` are not numeric. */
  lemma NumericHasDigit(s: string)
    requires IsNumericString(s)
    ensures HasDigit(s)
  {
    var l := TrimLeft(s);
    var t := TrimRight(l);
    UnsignedHasDigit(DropSign(t));
    SuffixHasDigit(t, DropSign(t));
    PrefixHasDigit(l, t);
    SuffixHasDigit(s, l);
  }

  lemma UnsignedHasDigit(body: string)
    requires IsUnsignedNumber(body)
    ensures HasDigit(body)
  {
    var e := ExponentAt(body);
    var i :| 0 <= i < e && IsDigit(body[..e][i]);
    assert body[i] == body[..e][i];
  }

  lemma SuffixHasDigit(s: string, r: string)
    requires |r| <= |s| && r == s[|s| - |r|..] && HasDigit(r)
    ensures HasDigit(s)
  {
    var i :| 0 <= i < |r| && IsDigit(r[i]);
    assert s[|s| - |r| + i] == r[i];
  }

  lemma PrefixHasDigit(s: string, r: string)
    requires |r| <= |s| && r == s[..|r|] && HasDigit(r)
    ensures HasDigit(s)
  {
    var i :| 0 <= i < |r| && IsDigit(r[i]);
    assert s[i] == r[i];
  }

  /** A string without a digit, such as the wildcard pattern `*`, is not numeric. */
  lemma WithoutDigitsNotNumeric(s: string)
    requires forall i :: 0 <= i < |s| ==> !IsDigit(s[i])
    ensures !IsNumericString(s)
  {
    if IsNumericString(s) {
      NumericHasDigit(s);
    }
  }

  /** A non-empty run of decimal digits, such as an integer-like array key `"42"`, is numeric. */
  lemma DigitsAreNumeric(s: string)
    requires IsDigitRun(s)
    ensures IsUnsignedNumber(s) && IsNumericString(s)
  {
    assert TrimLeft(s) == s;
    assert TrimRight(s) == s;
    assert DropSign(s) == s;
    assert ExponentAt(s) == |s|;
    assert s[..|s|] == s;
    assert IsDigit(s[0]);
  }

  /** Any whitespace before and after a signed digit run keeps it numeric: `"\t -12 \n"` is numeric. */
  lemma PaddedSignedIsNumeric(pre: string, sign: char, digits: string, post: string)
    requires AllWhitespace(pre) && AllWhitespace(post)
    requires IsDigitRun(digits) && IsSign(sign)
    ensures IsNumericString(pre + ([sign] + digits + post))
  {
    PaddedBody(pre, sign, digits, post);
    DigitsAreNumeric(digits);
  }

  lemma PaddedBody(pre: string, sign: char, digits: string, post: string)
    requires AllWhitespace(pre) && AllWhitespace(post)
    requires IsDigitRun(digits) && IsSign(sign)
    ensures DropSign(TrimRight(TrimLeft(pre + ([sign] + digits + post)))) == digits
  {
    var signed := [sign] + digits;
    SignedStartsWithSign(sign, digits, post);
    TrimLeftWhitespace(pre, signed + post);
    SignedEndsWithDigit(sign, digits);
    TrimRightWhitespace(signed, post);
    assert signed[1..] == digits;
  }

  lemma SignedStartsWithSign(sign: char, digits: string, post: string)
    requires IsSign(sign)
    ensures ([sign] + digits + post)[0] == sign && !IsWhitespace(sign)
  {
  }

  lemma SignedEndsWithDigit(sign: char, digits: string)
    requires IsDigitRun(digits)
    ensures !IsWhitespace(([sign] + digits)[|digits|])
  {
    assert ([sign] + digits)[|digits|] == digits[|digits| - 1];
  }

  predicate AllWhitespace(s: string) {
    forall i :: 0 <= i < |s| ==> IsWhitespace(s[i])
  }

  /** A whitespace prefix is trimmed away, and trimming stops at the first other character. */
  lemma {:induction false} TrimLeftWhitespace(pre: string, x: string)
    requires AllWhitespace(pre)
    requires x != [] && !IsWhitespace(x[0])
    ensures TrimLeft(pre + x) == x
  {
    if pre == [] {
      assert pre + x == x;
    } else {
      assert (pre + x)[0] == pre[0];
      assert (pre + x)[1..] == pre[1..] + x;
      TrimLeftWhitespace(pre[1..], x);
    }
  }

  /** A whitespace suffix is trimmed away, and trimming stops at the last other character. */
  lemma {:induction false} TrimRightWhitespace(x: string, post: string)
    requires AllWhitespace(post)
    requires x != [] && !IsWhitespace(x[|x| - 1])
    ensures TrimRight(x + post) == x
  {
    if post == [] {
      assert x + post == x;
    } else {
      var n := |post| - 1;
      assert (x + post)[|x + post| - 1] == post[n];
      assert (x + post)[..|x + post| - 1] == x + post[..n];
      TrimRightWhitespace(x, post[..n]);
    }
  }
}
