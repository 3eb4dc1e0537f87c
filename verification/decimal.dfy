/**
 * A simplified model of Python's `int(text)` for base-10 strings, and of
 * `str(n)` as its inverse. `int` accepts surrounding whitespace, an
 * optional `+` or `-` sign and one to 4300 ASCII digits (leading zeros
 * allowed, and counted towards the limit); any other text raises
 * ValueError, modelled as `None`.
 */
module Decimal {
  import opened Wrappers
  import opened Text

  /**
   * The whitespace `int` skips: the ASCII characters tab, line feed,
   * vertical tab, form feed, carriage return and space, and every
   * non-ASCII character for which `str.isspace()` holds. Unlike
   * `str.strip()`, `int` does not skip U+001C to U+001F.
   */
  const IntWhitespace: set<char> := {
    '\t', '\n', '\U{000B}', '\U{000C}', '\r', ' ',
    '\U{0085}', '\U{00A0}', '\U{1680}',
    '\U{2000}', '\U{2001}', '\U{2002}', '\U{2003}', '\U{2004}', '\U{2005}',
    '\U{2006}', '\U{2007}', '\U{2008}', '\U{2009}', '\U{200A}',
    '\U{2028}', '\U{2029}', '\U{202F}', '\U{205F}', '\U{3000}'
  }

  /** The most digits `int` converts (`sys.int_info.default_max_str_digits`). */
  const MaxStrDigits := 4300

  predicate IsDigit(c: char) {
    '0' <= c <= '9'
  }

  predicate AllDigits(ds: string) {
    forall i :: 0 <= i < |ds| ==> IsDigit(ds[i])
  }

  /** The number a string of decimal digits denotes, most significant digit first. */
  function DigitsValue(ds: string): nat
    requires AllDigits(ds)
  {
    if ds == [] then 0 else DigitsValue(ds[..|ds| - 1]) * 10 + (ds[|ds| - 1] as int - '0' as int)
  }

  /** The decimal digits of `n`, without leading zeros. */
  function Digits(n: nat): (ds: string)
    ensures ds != [] && AllDigits(ds)
    ensures ds[0] != '0' || n == 0
  {
    var last := ('0' as int + n % 10) as char;
    if n < 10 then [last] else Digits(n / 10) + [last]
  }

  lemma {:induction false} DigitsRoundTrip(n: nat)
    ensures DigitsValue(Digits(n)) == n
  {
    if n >= 10 {
      DigitsRoundTrip(n / 10);
      var ds := Digits(n);
      assert ds[..|ds| - 1] == Digits(n / 10);
    }
  }

  function Magnitude(n: int): nat {
    if n < 0 then -n else n
  }

  /** `str(n)`: an optional minus sign followed by the digits of `|n|`. */
  function Format(n: int): (s: string)
    ensures s != [] && IsDigit(s[|s| - 1])
    ensures s[0] == '-' <==> n < 0
    ensures s[0] == '-' || IsDigit(s[0])
  {
    if n < 0 then "-" + Digits(-n) else Digits(n)
  }

  /** Digits and signs are not whitespace, so stripping never removes them. */
  lemma NumeralCharsAreNotWhitespace(c: char)
    requires IsDigit(c) || c == '-' || c == '+'
    ensures c !in IntWhitespace
  {
  }

  /**
   * A numeral as `int` reads it once whitespace is stripped: an optional
   * sign followed by one to `MaxStrDigits` digits.
   */
  function ParseNumeral(t: string): (r: Option<int>)
    ensures r.Some? ==> t != [] && IsDigit(t[|t| - 1])
    ensures r.Some? && r.value < 0 ==> t[0] == '-'
    ensures r.Some? ==> |t| <= MaxStrDigits + 1
  {
    var signed := t != [] && (t[0] == '-' || t[0] == '+');
    var ds := if signed then t[1..] else t;
    if ds == [] || !AllDigits(ds) || |ds| > MaxStrDigits then None
    else
      assert ds[|ds| - 1] == t[|t| - 1];
      var magnitude: int := DigitsValue(ds);
      Some(if signed && t[0] == '-' then -magnitude else magnitude)
  }

  /** `int(s)`: `None` where Python raises ValueError. */
  function ParseInt(s: string): (r: Option<int>)
    ensures r.Some? ==> exists i :: 0 <= i < |s| && IsDigit(s[i])
  {
    var t := Strip(s, IntWhitespace);
    var r := ParseNumeral(t);
    if r.Some? then
      StrippedCharFromSource(s, IntWhitespace, |t| - 1);
      r
    else r
  }

  /** The sign-and-digits reading of what `Format` prints is the number. */
  lemma NumeralRoundTrip(n: int)
    requires |Digits(Magnitude(n))| <= MaxStrDigits
    ensures ParseNumeral(Format(n)) == Some(n)
  {
    var t := Format(n);
    if n < 0 {
      var ds := Digits(-n);
      assert t == "-" + ds && t[1..] == ds;
      DigitsRoundTrip(-n);
      assert ParseNumeral(t) == Some(0 - DigitsValue(ds) as int);
    } else {
      assert t == Digits(n) && IsDigit(t[0]);
      DigitsRoundTrip(n);
      assert ParseNumeral(t) == Some(DigitsValue(t));
    }
  }

  /** Parsing what `Format` prints gives the number back, for numbers within the digit limit. */
  lemma FormatParseRoundTrip(n: int)
    requires |Digits(Magnitude(n))| <= MaxStrDigits
    ensures ParseInt(Format(n)) == Some(n)
  {
    StripKeepsNumeral(n);
    NumeralRoundTrip(n);
  }

  /** A numeral has no whitespace at its ends, so stripping keeps it whole. */
  lemma StripKeepsNumeral(n: int)
    ensures Strip(Format(n), IntWhitespace) == Format(n)
  {
    var f := Format(n);
    NumeralCharsAreNotWhitespace(f[0]);
    NumeralCharsAreNotWhitespace(f[|f| - 1]);
    StripIsUniqueTrim(f, IntWhitespace, 0, |f|);
    assert f[0..|f|] == f;
  }

  /** Whitespace that `int` skips is ignored around a number within the digit limit. */
  lemma ParseIgnoresSurroundingWhitespace(pre: string, n: int, post: string)
    requires AllIn(pre, IntWhitespace) && AllIn(post, IntWhitespace)
    requires |Digits(Magnitude(n))| <= MaxStrDigits
    ensures ParseInt(pre + Format(n) + post) == Some(n)
  {
    var f := Format(n);
    NumeralCharsAreNotWhitespace(f[0]);
    NumeralCharsAreNotWhitespace(f[|f| - 1]);
    StripPadded(pre, f, post, IntWhitespace);
    FormatParseRoundTrip(n);
    StripKeepsNumeral(n);
  }

  /** The optional sign of a numeral. */
  predicate IsSign(sign: string) {
    sign == "" || sign == "+" || sign == "-"
  }

  /** The number an optional sign and a string of digits denote. */
  function SignedValue(sign: string, ds: string): int
    requires AllDigits(ds)
  {
    var magnitude: int := DigitsValue(ds);
    if sign == "-" then -magnitude else magnitude
  }

  /**
   * `s` spells a numeral `int` accepts: skipped whitespace `pre`, an
   * optional sign, one to `MaxStrDigits` digits (leading zeros allowed),
   * and skipped whitespace `post`.
   */
  predicate IsPaddedNumeral(s: string, pre: string, sign: string, ds: string, post: string) {
    && s == pre + sign + ds + post
    && AllIn(pre, IntWhitespace) && AllIn(post, IntWhitespace)
    && IsSign(sign)
    && AllDigits(ds) && 1 <= |ds| <= MaxStrDigits
  }

  /** A signed digit string neither starts nor ends with whitespace `int` skips. */
  lemma SignedDigitsHaveNoPadding(sign: string, ds: string)
    requires IsSign(sign) && AllDigits(ds) && ds != []
    ensures (sign + ds)[0] !in IntWhitespace
    ensures (sign + ds)[|sign + ds| - 1] !in IntWhitespace
  {
    var w := sign + ds;
    if sign == "" {
      assert w[0] == ds[0];
    } else {
      assert w[0] == sign[0];
    }
    NumeralCharsAreNotWhitespace(w[0]);
    assert w[|w| - 1] == ds[|ds| - 1];
    NumeralCharsAreNotWhitespace(w[|w| - 1]);
  }

  /** Stripping a padded signed digit string leaves the sign and the digits. */
  lemma StripPaddedSigned(pre: string, sign: string, ds: string, post: string)
    requires AllIn(pre, IntWhitespace) && AllIn(post, IntWhitespace)
    requires IsSign(sign) && AllDigits(ds) && ds != []
    ensures Strip(pre + (sign + ds) + post, IntWhitespace) == sign + ds
  {
    var w := sign + ds;
    SignedDigitsHaveNoPadding(sign, ds);
    StripPadded(pre, w, post, IntWhitespace);
  }

  /** The sign-and-digits reading of a signed digit string within the limit is its signed value. */
  lemma ParseSignedDigits(sign: string, ds: string)
    requires IsSign(sign) && AllDigits(ds) && 1 <= |ds| <= MaxStrDigits
    ensures ParseNumeral(sign + ds) == Some(SignedValue(sign, ds))
  {
    var w := sign + ds;
    assert ds[0] != '-' && ds[0] != '+';
    if sign == "" {
      assert w == ds;
    } else {
      assert w[0] == sign[0] && w[1..] == ds;
    }
  }

  /** Every spelling of a numeral within the digit limit reads as its signed value. */
  lemma ParseAcceptsPaddedNumeral(s: string, pre: string, sign: string, ds: string, post: string)
    requires IsPaddedNumeral(s, pre, sign, ds, post)
    ensures ParseInt(s) == Some(SignedValue(sign, ds))
  {
    ConcatRegroup(pre, sign, ds, post);
    StripPaddedSigned(pre, sign, ds, post);
    ParseSignedDigits(sign, ds);
  }

  /** What `ParseNumeral` accepts is a sign followed by digits, and it reads their signed value. */
  lemma ParsedNumeralParts(t: string, n: int) returns (sign: string, ds: string)
    requires ParseNumeral(t) == Some(n)
    ensures t == sign + ds && IsSign(sign)
    ensures AllDigits(ds) && 1 <= |ds| <= MaxStrDigits
    ensures n == SignedValue(sign, ds)
  {
    var signed := t[0] == '-' || t[0] == '+';
    sign := if signed then t[..1] else "";
    ds := if signed then t[1..] else t;
    assert t == sign + ds;
  }

  /** `int` accepts nothing but a padded numeral within the digit limit, and returns its value. */
  lemma ParseAcceptsOnlyPaddedNumerals(s: string, n: int)
    requires ParseInt(s) == Some(n)
    ensures exists pre, sign, ds, post :: IsPaddedNumeral(s, pre, sign, ds, post) && n == SignedValue(sign, ds)
  {
    var t := Strip(s, IntWhitespace);
    var pre, post := StripSplits(s, IntWhitespace);
    var sign, ds := ParsedNumeralParts(t, n);
    ConcatRegroup(pre, sign, ds, post);
    assert IsPaddedNumeral(s, pre, sign, ds, post);
  }

  /** A signed digit string longer than the limit has no sign-and-digits reading. */
  lemma SignedDigitsTooLong(sign: string, ds: string)
    requires IsSign(sign) && AllDigits(ds) && |ds| > MaxStrDigits
    ensures ParseNumeral(sign + ds) == None
  {
    var w := sign + ds;
    assert ds[0] != '-' && ds[0] != '+';
    if sign == "" {
      assert w == ds;
    } else {
      assert w[0] == sign[0] && w[1..] == ds;
    }
  }

  /** A numeral with more than `MaxStrDigits` digits is refused, whatever its sign and value. */
  lemma ParseRefusesTooManyDigits(pre: string, sign: string, ds: string, post: string)
    requires AllIn(pre, IntWhitespace) && AllIn(post, IntWhitespace)
    requires IsSign(sign) && AllDigits(ds) && |ds| > MaxStrDigits
    ensures ParseInt(pre + sign + ds + post) == None
  {
    ConcatRegroup(pre, sign, ds, post);
    StripPaddedSigned(pre, sign, ds, post);
    SignedDigitsTooLong(sign, ds);
  }

  /** A leading information separator (U+001C to U+001F) is not skipped, so the text is refused. */
  lemma ParseRefusesLeadingSeparator(c: char, rest: string)
    requires '\U{001C}' <= c <= '\U{001F}'
    ensures ParseInt([c] + rest) == None
  {
    var s := [c] + rest;
    assert c !in IntWhitespace;
    assert LeadingIn(s, IntWhitespace) == 0;
    assert Strip(s, IntWhitespace)[0] == c;
  }
}
