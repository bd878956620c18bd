/**
 * The part of JavaScript's `parseInt(s, 10)` that the lookup field relies on:
 * skip leading white space, accept one optional sign, read the longest run of
 * decimal digits and ignore whatever follows. No digits at all gives NaN,
 * modelled as `None`. Also the decimal rendering of an integer (`String(n)`),
 * which is the partner the parser round-trips with.
 */
module JsParse {
  import opened Wrappers

  /** ECMAScript WhiteSpace and LineTerminator code points: what the parser skips. */
  predicate IsWhitespace(c: char) {
    || c == '\t' || c == '\n' || c == '\U{0B}' || c == '\U{0C}' || c == '\r' || c == ' '
    || c == '\U{A0}' || c == '\U{1680}' || ('\U{2000}' <= c <= '\U{200A}')
    || c == '\U{2028}' || c == '\U{2029}' || c == '\U{202F}' || c == '\U{205F}'
    || c == '\U{3000}' || c == '\U{FEFF}'
  }

  predicate IsDigit(c: char) {
    '0' <= c <= '9'
  }

  predicate AllWhitespace(s: string) {
    forall i :: 0 <= i < |s| ==> IsWhitespace(s[i])
  }

  predicate AllDigits(s: string) {
    forall i :: 0 <= i < |s| ==> IsDigit(s[i])
  }

  function DigitValue(c: char): (d: nat)
    requires IsDigit(c)
    ensures d < 10
  {
    c as int - '0' as int
  }

  function DigitChar(d: nat): (c: char)
    requires d < 10
    ensures IsDigit(c) && DigitValue(c) == d
  {
    ('0' as int + d) as char
  }

  /** The longest prefix of `s` made of decimal digits. */
  function LeadingDigits(s: string): (z: string)
    ensures |z| <= |s| && z == s[..|z|]
    ensures AllDigits(z)
    ensures |z| == |s| || !IsDigit(s[|z|])
  {
    if s != [] && IsDigit(s[0]) then [s[0]] + LeadingDigits(s[1..]) else []
  }

  /** The value of a string of decimal digits, most significant first. */
  function DigitsValue(z: string): nat
    requires AllDigits(z)
  {
    if z == [] then 0 else 10 * DigitsValue(z[..|z| - 1]) + DigitValue(z[|z| - 1])
  }

  /**
   * `parseInt(s, 10)`; `None` stands for NaN. Leading white space is skipped
   * one character at a time; the value -0 is read as 0.
   */
  function ParseInt(s: string): Option<int> {
    if s != [] && IsWhitespace(s[0]) then ParseInt(s[1..]) else ParseSigned(s)
  }

  /** What `parseInt` does once the leading white space is gone. */
  function ParseSigned(t: string): Option<int> {
    var z := LeadingDigits(Unsigned(t));
    if z == [] then None
    else if t[0] == '-' then Some(-(DigitsValue(z) as int))
    else Some(DigitsValue(z))
  }

  /** The text after one optional leading sign. */
  function Unsigned(t: string): string {
    if t != [] && (t[0] == '-' || t[0] == '+') then t[1..] else t
  }

  /** The canonical decimal rendering of a natural number. */
  function Decimal(n: nat): (s: string)
    ensures s != [] && AllDigits(s) && DigitsValue(s) == n
    ensures s[0] == '0' ==> n == 0 && s == "0"
  {
    if n < 10 then [DigitChar(n)]
    else
      var prefix := Decimal(n / 10);
      var s := prefix + [DigitChar(n % 10)];
      assert s[..|s| - 1] == prefix;
      s
  }

  /**
   * `String(n)` for an integer-valued number of magnitude below 10^21; at and
   * above that JavaScript switches to exponential notation, which is not
   * modelled here.
   */
  function IntToString(n: int): (s: string)
    ensures s != [] && (s[0] == '-' <==> n < 0)
    ensures var m := if n < 0 then s[1..] else s;
            m != [] && AllDigits(m) && DigitsValue(m) == (if n < 0 then -n else n) && (m[0] == '0' ==> m == "0")
  {
    if n < 0 then "-" + Decimal(-n) else Decimal(n)
  }

  lemma {:induction false} ParseIntSkipsWhitespace(ws: string, t: string)
    requires AllWhitespace(ws)
    requires t == [] || !IsWhitespace(t[0])
    ensures ParseInt(ws + t) == ParseSigned(t)
  {
    if ws != [] {
      assert (ws + t)[1..] == ws[1..] + t;
      ParseIntSkipsWhitespace(ws[1..], t);
    } else {
      assert ws + t == t;
    }
  }

  lemma {:induction false} LeadingDigitsStopsAtNonDigit(z: string, rest: string)
    requires AllDigits(z)
    requires rest == [] || !IsDigit(rest[0])
    ensures LeadingDigits(z + rest) == z
  {
    if z != [] {
      assert (z + rest)[1..] == z[1..] + rest;
      LeadingDigitsStopsAtNonDigit(z[1..], rest);
    } else {
      assert z + rest == rest;
    }
  }

  /** The sign a number may be written with, for stating the lemmas below. */
  datatype Sign = NoSign | Plus | Minus {
    function Text(): string {
      match this
      case NoSign => ""
      case Plus => "+"
      case Minus => "-"
    }

    function Apply(n: nat): int {
      if Minus? then -(n as int) else n
    }
  }

  lemma UnsignedDropsSign(sign: Sign, u: string)
    requires u == [] || (u[0] != '+' && u[0] != '-')
    ensures Unsigned(sign.Text() + u) == u
    ensures sign.Text() + u != [] ==> ((sign.Text() + u)[0] == '-' <==> sign.Minus?)
  {
    if sign.NoSign? {
      assert sign.Text() + u == u;
    } else {
      assert (sign.Text() + u)[1..] == u;
    }
  }

  lemma ParseSignedReadsDigits(sign: Sign, z: string, rest: string)
    requires z != [] && AllDigits(z)
    requires rest == [] || !IsDigit(rest[0])
    ensures ParseSigned(sign.Text() + (z + rest)) == Some(sign.Apply(DigitsValue(z)))
  {
    var u := z + rest;
    assert IsDigit(z[0]) && u[0] == z[0];
    UnsignedDropsSign(sign, u);
    LeadingDigitsStopsAtNonDigit(z, rest);
    ParseSignedOfParts(sign, sign.Text() + u, u, z);
  }

  lemma ParseSignedOfParts(sign: Sign, t: string, u: string, z: string)
    requires z != [] && AllDigits(z)
    requires Unsigned(t) == u && LeadingDigits(u) == z
    requires t != [] && (t[0] == '-' <==> sign.Minus?)
    ensures ParseSigned(t) == Some(sign.Apply(DigitsValue(z)))
  {
  }

  /** Leading zeros do not change the value of a digit string: "007" is worth 7. */
  lemma {:induction false} DigitsValueLeadingZero(z: string)
    requires AllDigits(z)
    ensures AllDigits("0" + z) && DigitsValue("0" + z) == DigitsValue(z)
    decreases |z|
  {
    if z != [] {
      var init := z[..|z| - 1];
      assert ("0" + z)[..|"0" + z| - 1] == "0" + init;
      assert ("0" + z)[|"0" + z| - 1] == z[|z| - 1];
      DigitsValueLeadingZero(init);
    } else {
      assert "0" + z == "0" && "0"[..0] == "";
    }
  }

  /**
   * Accepting direction: white space, an optional sign, a non-empty run of
   * digits (leading zeros allowed) and any tail that does not start with a
   * digit is read as the signed value of the digits; the tail is ignored.
   */
  lemma ParseIntReadsLeadingInteger(s: string, ws: string, sign: Sign, z: string, rest: string)
    requires s == ws + sign.Text() + z + rest
    requires AllWhitespace(ws)
    requires z != [] && AllDigits(z)
    requires rest == [] || !IsDigit(rest[0])
    ensures ParseInt(s) == Some(sign.Apply(DigitsValue(z)))
  {
    var t := sign.Text() + (z + rest);
    assert s == ws + t;
    assert !IsWhitespace(t[0]) by {
      if sign.NoSign? { assert t[0] == z[0]; } else { assert t[0] == sign.Text()[0]; }
    }
    ParseIntSkipsWhitespace(ws, t);
    ParseSignedReadsDigits(sign, z, rest);
  }

  /** Digits followed by a tail that does not start with a digit read as their value. */
  lemma ParseIntOfDigits(z: string, rest: string)
    requires z != [] && AllDigits(z)
    requires rest == [] || !IsDigit(rest[0])
    ensures ParseInt(z + rest) == Some(DigitsValue(z))
  {
    UnsignedText(z + rest);
    ParseIntReadsLeadingInteger(z + rest, "", NoSign, z, rest);
  }

  lemma UnsignedText(s: string)
    ensures s == "" + NoSign.Text() + s
  {
  }

  /** The decimal rendering of n, whatever non-digit text follows it, reads as n. */
  lemma ParseIntOfDecimal(n: nat, rest: string)
    requires rest == [] || !IsDigit(rest[0])
    ensures ParseInt(Decimal(n) + rest) == Some(n)
  {
    ParseIntOfDigits(Decimal(n), rest);
  }

  /**
   * Rejecting direction: when no digit follows the white space and the
   * optional sign, the result is NaN.
   */
  lemma ParseIntWithoutDigits(s: string, ws: string, sign: Sign, rest: string)
    requires s == ws + sign.Text() + rest
    requires AllWhitespace(ws)
    requires rest == [] || !IsDigit(rest[0])
    requires sign.NoSign? && rest != [] ==> !IsWhitespace(rest[0]) && rest[0] != '+' && rest[0] != '-'
    ensures ParseInt(s) == None
  {
    var t := sign.Text() + rest;
    assert s == ws + t;
    if sign.NoSign? {
      assert t == rest;
    } else {
      assert t[0] == sign.Text()[0];
      assert t[1..] == rest;
    }
    ParseIntSkipsWhitespace(ws, t);
  }

  /** Rendering an integer and parsing it back gives the integer. */
  lemma ParseIntOfIntToString(n: int)
    ensures ParseInt(IntToString(n)) == Some(n)
  {
    var s := IntToString(n);
    if n < 0 {
      var z := Decimal(-n);
      assert s == "" + Minus.Text() + z + "";
      ParseIntReadsLeadingInteger(s, "", Minus, z, "");
    } else {
      var z := Decimal(n);
      assert s == z + "";
      ParseIntOfDigits(z, "");
    }
  }
}
