/**
 * The effect that turns the settled input text into the lookup key: the text
 * is read with `parseInt(text, 10)` and becomes the key only when the number
 * lies in the catalog's range 1..1025. Otherwise the key stays as it was.
 */
module Validator {
  import opened Wrappers
  import opened JsParse

  const MinKey: int := 1
  const MaxKey: int := 1025

  /** The new lookup key for a settled input text, or `None` for "leave the key alone". */
  function Validate(settled: string): (key: Option<int>)
    ensures key.Some? ==> MinKey <= key.value <= MaxKey && ParseInt(settled) == key
    ensures key.None? ==> ParseInt(settled).None? || !(MinKey <= ParseInt(settled).value <= MaxKey)
  {
    var parsed := ParseInt(settled);
    if parsed.Some? && MinKey <= parsed.value && parsed.value <= MaxKey then parsed else None
  }

  /**
   * A settled text of the form white space, optional sign, digits, tail that
   * does not start with a digit gives key n exactly when its signed value n
   * is in range; the tail ("x" in "12x", ".7" in "25.7") is ignored.
   */
  lemma ValidateLeadingInteger(s: string, ws: string, sign: Sign, z: string, rest: string)
    requires s == ws + sign.Text() + z + rest
    requires AllWhitespace(ws)
    requires z != [] && AllDigits(z)
    requires rest == [] || !IsDigit(rest[0])
    ensures var n := sign.Apply(DigitsValue(z));
            Validate(s) == if MinKey <= n <= MaxKey then Some(n) else None
  {
    ParseIntReadsLeadingInteger(s, ws, sign, z, rest);
  }

  /** Text with no digit after the white space and the sign never changes the key. */
  lemma ValidateRejectsNonNumeric(s: string, ws: string, sign: Sign, rest: string)
    requires s == ws + sign.Text() + rest
    requires AllWhitespace(ws)
    requires rest == [] || !IsDigit(rest[0])
    requires sign.NoSign? && rest != [] ==> !IsWhitespace(rest[0]) && rest[0] != '+' && rest[0] != '-'
    ensures Validate(s) == None
  {
    ParseIntWithoutDigits(s, ws, sign, rest);
  }

  /** Every key in range, and only those, is reached by typing its decimal digits and any non-digit tail. */
  lemma ValidateDecimal(n: nat, rest: string)
    requires rest == [] || !IsDigit(rest[0])
    ensures Validate(Decimal(n) + rest) == if MinKey <= n <= MaxKey then Some(n) else None
  {
    ParseIntOfDecimal(n, rest);
  }

  /** The digit values the examples below rely on. */
  lemma BoundaryDigitValues()
    ensures AllDigits("0") && DigitsValue("0") == 0 && AllDigits("1") && DigitsValue("1") == 1
    ensures AllDigits("1025") && DigitsValue("1025") == 1025
    ensures AllDigits("1026") && DigitsValue("1026") == 1026
  {
    assert "0"[..0] == "" && "1"[..0] == "";
    assert "1025"[..3] == "102" && "1026"[..3] == "102";
    assert "102"[..2] == "10" && "10"[..1] == "1";
  }

  /** The range boundaries: 1 and 1025 are accepted. */
  lemma ValidateAcceptsBoundaries()
    ensures Validate("1") == Some(1) && Validate("1025") == Some(1025)
  {
    BoundaryDigitValues();
    assert "1" == "1" + "" && "1025" == "1025" + "";
    ParseIntOfDigits("1", "");
    ParseIntOfDigits("1025", "");
  }

  /** Just outside the range: 0 and 1026 are rejected. */
  lemma ValidateRejectsBeyondBoundaries()
    ensures Validate("0") == None && Validate("1026") == None
  {
    BoundaryDigitValues();
    assert "0" == "0" + "" && "1026" == "1026" + "";
    ParseIntOfDigits("0", "");
    ParseIntOfDigits("1026", "");
  }

  /** Characters after the leading digits are ignored: "12x" gives 12 and "25.7" gives 25. */
  lemma ValidateIgnoresTail()
    ensures Validate("12x") == Some(12) && Validate("25.7") == Some(25)
  {
    assert AllDigits("12") && DigitsValue("12") == 12 by {
      assert "12"[..1] == "1" && "1"[..0] == "";
    }
    assert AllDigits("25") && DigitsValue("25") == 25 by {
      assert "25"[..1] == "2" && "2"[..0] == "";
    }
    assert "12x" == "12" + "x" && "25.7" == "25" + ".7";
    ParseIntOfDigits("12", "x");
    ParseIntOfDigits("25", ".7");
  }

  /** Text without digits never yields a key: "" and "abc". */
  lemma ValidateRejectsText()
    ensures Validate("") == None && Validate("abc") == None
  {
    ValidateRejectsNonNumeric("", "", NoSign, "");
    ValidateRejectsNonNumeric("abc", "", NoSign, "abc");
  }

  /** The keys used in the interaction examples: "25" and "99" are accepted, "99999" is out of range. */
  lemma ValidateSampleKeys()
    ensures Validate("25") == Some(25) && Validate("99") == Some(99) && Validate("99999") == None
  {
    assert AllDigits("25") && DigitsValue("25") == 25 by {
      assert "25"[..1] == "2" && "2"[..0] == "";
    }
    assert AllDigits("99") && DigitsValue("99") == 99 by {
      assert "99"[..1] == "9" && "9"[..0] == "";
    }
    assert AllDigits("99999") && DigitsValue("99999") == 99999 by {
      assert "99999"[..4] == "9999" && "9999"[..3] == "999";
      assert "999"[..2] == "99" && "99"[..1] == "9" && "9"[..0] == "";
    }
    assert "25" == "25" + "" && "99" == "99" + "" && "99999" == "99999" + "";
    ParseIntOfDigits("25", "");
    ParseIntOfDigits("99", "");
    ParseIntOfDigits("99999", "");
  }
}
