/**
 * The two JavaScript string built-ins the handlers rely on:
 * `String.prototype.trim` (the `publishAVideo` field check) and
 * `parseInt(s, 10)` (the page and limit options handed to pagination).
 */
module JsText {
  import opened Common

  /** WhiteSpace and LineTerminator code points of ECMAScript: what both
      `trim` and `parseInt` skip. */
  predicate IsJsWhitespace(c: char) {
    c == '\t' || c == '\n' || c == '\U{B}' || c == '\U{C}' || c == '\r' || c == ' '
    || c == '\U{A0}' || c == '\U{1680}' || ('\U{2000}' <= c <= '\U{200A}')
    || c == '\U{2028}' || c == '\U{2029}' || c == '\U{202F}' || c == '\U{205F}'
    || c == '\U{3000}' || c == '\U{FEFF}'
  }

  predicate IsDigit(c: char) {
    '0' <= c <= '9'
  }

  predicate AllWhitespace(s: string) {
    forall i :: 0 <= i < |s| ==> IsJsWhitespace(s[i])
  }

  /** Drops the leading white space. */
  function TrimStart(s: string): (r: string)
    ensures |r| <= |s| && r == s[|s| - |r|..]
    ensures AllWhitespace(s[..|s| - |r|])
    ensures r == [] || !IsJsWhitespace(r[0])
  {
    if s != [] && IsJsWhitespace(s[0]) then TrimStart(s[1..]) else s
  }

  /** Drops the trailing white space. */
  function TrimEnd(s: string): (r: string)
    ensures |r| <= |s| && r == s[..|r|]
    ensures AllWhitespace(s[|r|..])
    ensures r == [] || !IsJsWhitespace(r[|r| - 1])
  {
    if s != [] && IsJsWhitespace(s[|s| - 1]) then TrimEnd(s[..|s| - 1]) else s
  }

  /** `s.trim()`. */
  function Trim(s: string): string {
    TrimEnd(TrimStart(s))
  }

  /** `s.trim() === ""` exactly when `s` consists of white space only. */
  lemma {:induction false} TrimEmptyIffBlank(s: string)
    ensures Trim(s) == "" <==> AllWhitespace(s)
  {
    var t := TrimStart(s);
    assert s[..|s|] == s;
    assert t[0..] == t;
  }

  /** The longest prefix of decimal digits. */
  function DigitPrefix(s: string): (r: string)
    ensures |r| <= |s| && r == s[..|r|]
    ensures forall i :: 0 <= i < |r| ==> IsDigit(r[i])
    ensures |r| < |s| ==> !IsDigit(s[|r|])
  {
    if s != [] && IsDigit(s[0]) then [s[0]] + DigitPrefix(s[1..]) else []
  }

  function DigitValue(c: char): nat
    requires IsDigit(c)
  {
    (c as int - '0' as int) as nat
  }

  function DigitChar(d: nat): (c: char)
    requires d < 10
    ensures IsDigit(c) && DigitValue(c) == d
  {
    ['0', '1', '2', '3', '4', '5', '6', '7', '8', '9'][d]
  }

  /** The number a string of decimal digits denotes. */
  function DigitsValue(s: string): nat
    requires forall i :: 0 <= i < |s| ==> IsDigit(s[i])
  {
    if s == [] then 0 else DigitsValue(s[..|s| - 1]) * 10 + DigitValue(s[|s| - 1])
  }

  /** The decimal rendering of a number, as `String(n)` gives it. */
  function DecimalString(n: nat): (s: string)
    ensures s != []
    ensures forall i :: 0 <= i < |s| ==> IsDigit(s[i])
  {
    if n < 10 then [DigitChar(n)] else DecimalString(n / 10) + [DigitChar(n % 10)]
  }

  /** `parseInt(s, 10)`: skip leading white space, then read a signed run of
      digits; `None` is `NaN`. */
  function ParseInt(s: string): Option<int> {
    ParseSigned(TrimStart(s))
  }

  /** An optional sign, then the longest run of digits; `None` (no digit at
      all) is `NaN`. */
  function ParseSigned(t: string): Option<int> {
    var negative := t != [] && t[0] == '-';
    var u := if t != [] && (t[0] == '-' || t[0] == '+') then t[1..] else t;
    var z := DigitPrefix(u);
    var magnitude: int := if z == [] then 0 else DigitsValue(z);
    if z == [] then None else Some(if negative then -magnitude else magnitude)
  }

  lemma {:induction false} DecimalStringValue(n: nat)
    ensures DigitsValue(DecimalString(n)) == n
  {
    if n >= 10 {
      var s := DecimalString(n);
      assert s[..|s| - 1] == DecimalString(n / 10);
      DecimalStringValue(n / 10);
    }
  }

  lemma {:induction false} DigitPrefixOfDigits(d: string, rest: string)
    requires forall i :: 0 <= i < |d| ==> IsDigit(d[i])
    requires rest == [] || !IsDigit(rest[0])
    ensures DigitPrefix(d + rest) == d
  {
    if d == [] {
      assert d + rest == rest;
    } else {
      assert (d + rest)[1..] == d[1..] + rest;
      DigitPrefixOfDigits(d[1..], rest);
    }
  }

  lemma {:induction false} TrimStartOfPadded(pad: string, t: string)
    requires AllWhitespace(pad)
    requires t == [] || !IsJsWhitespace(t[0])
    ensures TrimStart(pad + t) == t
  {
    if pad == [] {
      assert pad + t == t;
    } else {
      assert (pad + t)[1..] == pad[1..] + t;
      TrimStartOfPadded(pad[1..], t);
    }
  }

  /** Leading white space does not change what `parseInt` reads. */
  lemma {:induction false} ParseIntSkipsPadding(pad: string, t: string)
    requires AllWhitespace(pad)
    requires t == [] || !IsJsWhitespace(t[0])
    ensures ParseInt(pad + t) == ParseInt(t)
  {
    TrimStartOfPadded(pad, t);
    TrimStartOfPadded([], t);
    assert [] + t == t;
    assert TrimStart(t) == t;
  }

  lemma {:induction false} ParseIntUnsigned(u: string, d: string)
    requires d != [] && forall i :: 0 <= i < |d| ==> IsDigit(d[i])
    requires DigitPrefix(u) == d
    ensures ParseSigned(u) == Some(DigitsValue(d))
  {
    assert u[0] == d[0];
  }

  lemma {:induction false} ParseIntNegative(u: string, d: string)
    requires d != [] && forall i :: 0 <= i < |d| ==> IsDigit(d[i])
    requires DigitPrefix(u) == d
    ensures ParseSigned(['-'] + u) == Some(-(DigitsValue(d) as int))
  {
    var t := ['-'] + u;
    assert t[1..] == u;
  }

  /** The signed decimal text of `n` followed by a non-digit reads back as
      that number. */
  lemma {:induction false} ParseSignedDecimal(negative: bool, n: nat, rest: string)
    requires rest == [] || !IsDigit(rest[0])
    ensures ParseSigned((if negative then "-" else "") + DecimalString(n) + rest)
            == Some(if negative then -(n as int) else n)
  {
    var d := DecimalString(n);
    var u := d + rest;
    DigitPrefixOfDigits(d, rest);
    DecimalStringValue(n);
    if negative {
      var t := "-" + d + rest;
      assert t == ['-'] + u;
      ParseIntNegative(u, d);
      assert ParseSigned(t) == Some(-(n as int));
    } else {
      var t := "" + d + rest;
      assert t == u;
      ParseIntUnsigned(u, d);
      assert ParseSigned(t) == Some(n);
    }
  }

  /** `parseInt` reads back what `String(n)` writes, ignoring leading white
      space and whatever follows the digits, with an optional minus sign. */
  lemma {:induction false} ParseIntReadsDecimal(pad: string, negative: bool, n: nat, rest: string)
    requires AllWhitespace(pad)
    requires rest == [] || !IsDigit(rest[0])
    ensures ParseInt(pad + (if negative then "-" else "") + DecimalString(n) + rest)
            == Some(if negative then -(n as int) else n)
  {
    var d := DecimalString(n);
    var t := (if negative then "-" else "") + d + rest;
    assert pad + (if negative then "-" else "") + d + rest == pad + t;
    assert t[0] == if negative then '-' else d[0];
    TrimStartOfPadded(pad, t);
    ParseSignedDecimal(negative, n, rest);
  }

  /** Without any digit after the optional sign (`"x"`, `"-x"`, `"+"`,
      `"--5"`), `parseInt` gives `NaN`. `sign` is the sign as written. */
  lemma {:induction false} ParseIntNaN(pad: string, sign: string, rest: string)
    requires AllWhitespace(pad)
    requires sign == "" || sign == "-" || sign == "+"
    requires rest == [] || !IsDigit(rest[0])
    requires sign == "" && rest != [] ==> !IsJsWhitespace(rest[0]) && rest[0] != '-' && rest[0] != '+'
    ensures ParseInt(pad + sign + rest) == None
  {
    var t := sign + rest;
    assert pad + sign + rest == pad + t;
    TrimStartOfPadded(pad, t);
    if sign != "" {
      assert t[1..] == rest;
    } else {
      assert t == rest;
    }
  }
}
