/**
 * The global `parseInt(string)` of JavaScript, called without a radix, as
 * section 19.2.5 of ECMA-262 defines it: the argument is converted to a
 * string, leading white space is skipped, an optional sign is taken, a "0x"
 * or "0X" prefix switches to radix 16, and the longest run of leading digits
 * of the radix is read. No digits at all gives NaN, modelled as None.
 * Numbers are unbounded integers: the rounding of huge results to a double is
 * not modelled.
 */
module JsParseInt {
  import opened Wrappers

  /** WhiteSpace and LineTerminator code points of ECMA-262 (StrWhiteSpaceChar). */
  predicate IsJsWhitespace(c: char) {
    || c == '\t' || c == '\n' || c == '\U{000B}' || c == '\U{000C}' || c == '\r'
    || c == ' ' || c == '\U{00A0}' || c == '\U{1680}'
    || ('\U{2000}' <= c <= '\U{200A}')
    || c == '\U{2028}' || c == '\U{2029}' || c == '\U{202F}' || c == '\U{205F}'
    || c == '\U{3000}' || c == '\U{FEFF}'
  }

  predicate AllWhitespace(w: string) {
    forall i :: 0 <= i < |w| ==> IsJsWhitespace(w[i])
  }

  /** `ToString` of a query value: an absent parameter is `undefined`. */
  function ToJsString(v: Option<string>): string {
    match v
    case None => "undefined"
    case Some(s) => s
  }

  /** The string with its leading white space removed. */
  function TrimStart(s: string): string {
    if s != [] && IsJsWhitespace(s[0]) then TrimStart(s[1..]) else s
  }

  /** TrimStart removes a prefix of white space, and all of it. */
  lemma {:induction false} TrimStartDropsLeadingWhitespace(s: string)
    ensures |TrimStart(s)| <= |s| && TrimStart(s) == s[|s| - |TrimStart(s)|..]
    ensures AllWhitespace(s[..|s| - |TrimStart(s)|])
    ensures TrimStart(s) == [] || !IsJsWhitespace(TrimStart(s)[0])
  {
    if s != [] && IsJsWhitespace(s[0]) {
      TrimStartDropsLeadingWhitespace(s[1..]);
    }
  }

  /** The value of c as a digit in radixes up to 36; 36 for a character that is no digit at all. */
  function DigitValue(c: char): nat {
    if '0' <= c <= '9' then c as int - '0' as int
    else if 'a' <= c <= 'z' then c as int - 'a' as int + 10
    else if 'A' <= c <= 'Z' then c as int - 'A' as int + 10
    else 36
  }

  predicate IsRadixDigit(c: char, radix: nat) {
    DigitValue(c) < radix
  }

  predicate AllRadixDigits(z: string, radix: nat) {
    forall i :: 0 <= i < |z| ==> IsRadixDigit(z[i], radix)
  }

  /** The longest prefix of s made of digits of the radix. */
  function LeadingDigits(s: string, radix: nat): (z: string)
    ensures z <= s && AllRadixDigits(z, radix)
    ensures |z| == |s| || !IsRadixDigit(s[|z|], radix)
  {
    if s != [] && IsRadixDigit(s[0], radix) then [s[0]] + LeadingDigits(s[1..], radix) else []
  }

  /** The number that the digits z denote in the radix, most significant first. */
  function DigitsValue(z: string, radix: nat): nat {
    if z == [] then 0 else DigitsValue(z[..|z| - 1], radix) * radix + DigitValue(z[|z| - 1])
  }

  /** The digits of the radix at the head of v, read as a number; None when there are none. */
  function ParseDigits(v: string, radix: nat): Option<nat> {
    var z := LeadingDigits(v, radix);
    if z == [] then None else Some(DigitsValue(z, radix))
  }

  predicate HasHexPrefix(u: string) {
    |u| >= 2 && u[0] == '0' && (u[1] == 'x' || u[1] == 'X')
  }

  /** The unsigned part: radix 16 after a "0x" prefix, radix 10 otherwise. */
  function ParseMagnitude(u: string): Option<nat> {
    if HasHexPrefix(u) then ParseDigits(u[2..], 16) else ParseDigits(u, 10)
  }

  /** The optional sign and the unsigned part, for a string without leading white space. */
  function ParseSigned(t: string): Option<int> {
    if t != [] && t[0] == '-' then
      match ParseMagnitude(t[1..])
      case None => None
      case Some(m) => Some(-(m as int))
    else if t != [] && t[0] == '+' then
      match ParseMagnitude(t[1..])
      case None => None
      case Some(m) => Some(m)
    else
      match ParseMagnitude(t)
      case None => None
      case Some(m) => Some(m)
  }

  function ParseInt(s: string): Option<int> {
    ParseSigned(TrimStart(s))
  }

  /** `String(m)` for a non-negative integer: its decimal digits, no leading zero. */
  function NatToDecimal(m: nat): string {
    if m < 10 then ['0' + m as char] else NatToDecimal(m / 10) + ['0' + (m % 10) as char]
  }

  /** `String(n)` for an integer. */
  function ToDecimal(n: int): string {
    if n < 0 then "-" + NatToDecimal(-n) else NatToDecimal(n)
  }

  lemma {:induction false} NatToDecimalDigits(m: nat)
    ensures NatToDecimal(m) != [] && AllRadixDigits(NatToDecimal(m), 10)
    ensures NatToDecimal(m)[0] == '0' ==> m == 0
    ensures DigitsValue(NatToDecimal(m), 10) == m
  {
    if m >= 10 {
      NatToDecimalDigits(m / 10);
      var d := NatToDecimal(m);
      assert d[..|d| - 1] == NatToDecimal(m / 10);
    } else {
      var d := NatToDecimal(m);
      assert d[..|d| - 1] == [];
    }
  }

  lemma {:induction false} LeadingDigitsOfDigits(z: string, rest: string, radix: nat)
    requires AllRadixDigits(z, radix)
    requires rest == [] || !IsRadixDigit(rest[0], radix)
    ensures LeadingDigits(z + rest, radix) == z
  {
    if z != [] {
      assert (z + rest)[1..] == z[1..] + rest;
      LeadingDigitsOfDigits(z[1..], rest, radix);
    } else {
      assert z + rest == rest;
    }
  }

  lemma {:induction false} TrimStartAfterWhitespace(w: string, s: string)
    requires AllWhitespace(w)
    ensures TrimStart(w + s) == TrimStart(s)
  {
    if w != [] {
      assert (w + s)[1..] == w[1..] + s;
      TrimStartAfterWhitespace(w[1..], s);
    } else {
      assert w + s == s;
    }
  }

  /** parseInt stops at the first character that cannot continue the number. */
  lemma ParseIntReadsNumericPrefix(n: int, rest: string)
    requires rest == [] || DigitValue(rest[0]) >= 10
    requires n == 0 ==> rest == [] || (rest[0] != 'x' && rest[0] != 'X')
    ensures ParseInt(ToDecimal(n) + rest) == Some(n)
  {
    var m := if n < 0 then -n else n;
    var d := NatToDecimal(m);
    NatToDecimalDigits(m);
    assert d == "0" ==> m == 0 by {
      if d == "0" {
        assert d[0] == '0';
      }
    }
    var sign := if n < 0 then "-" else "";
    var u := d + rest;
    assert ToDecimal(n) + rest == sign + u;
    assert u[0] == d[0];
    MagnitudeOfDigits(d, rest);
    SignOfDigits(sign, u, m);
  }

  predicate IsSign(sign: string) {
    sign == "" || sign == "+" || sign == "-"
  }

  /** The value a sign gives to a magnitude. */
  function Signed(sign: string, m: nat): int {
    if sign == "-" then -(m as int) else m
  }

  /**
   * The general reading: white space, an optional sign, decimal digits z and a
   * tail that cannot continue them give the value of z with that sign. Leading
   * zeros are allowed, except that a lone "0" followed by "x" starts a hex number.
   */
  lemma ParseIntReadsSignedDigits(w: string, sign: string, z: string, rest: string)
    requires AllWhitespace(w) && IsSign(sign)
    requires z != [] && AllRadixDigits(z, 10)
    requires rest == [] || DigitValue(rest[0]) >= 10
    requires z == "0" ==> rest == [] || (rest[0] != 'x' && rest[0] != 'X')
    ensures ParseInt(w + sign + z + rest) == Some(Signed(sign, DigitsValue(z, 10)))
  {
    var u := z + rest;
    var t := sign + u;
    assert w + sign + z + rest == w + t;
    assert u[0] == z[0];
    MagnitudeOfDigits(z, rest);
    SignOfDigits(sign, u, DigitsValue(z, 10));
    TrimStartAfterWhitespace(w, t);
  }

  /** A sign (or none) before a digit: nothing is trimmed, and the sign applies to the magnitude. */
  lemma SignOfDigits(sign: string, u: string, m: nat)
    requires IsSign(sign) && u != [] && DigitValue(u[0]) < 10
    requires ParseMagnitude(u) == Some(m)
    ensures TrimStart(sign + u) == sign + u
    ensures ParseSigned(sign + u) == Some(Signed(sign, m))
  {
    assert '0' <= u[0] <= '9';
    if sign == "" {
      assert sign + u == u;
      UnsignedDigits(u, m);
    } else {
      ExplicitSign(sign, u, m);
    }
  }

  lemma UnsignedDigits(u: string, m: nat)
    requires u != [] && '0' <= u[0] <= '9'
    requires ParseMagnitude(u) == Some(m)
    ensures TrimStart(u) == u
    ensures ParseSigned(u) == Some(m)
  {
  }

  lemma ExplicitSign(sign: string, u: string, m: nat)
    requires sign == "+" || sign == "-"
    requires ParseMagnitude(u) == Some(m)
    ensures TrimStart(sign + u) == sign + u
    ensures ParseSigned(sign + u) == Some(Signed(sign, m))
  {
    var t := sign + u;
    assert t[0] == sign[0] && t[1..] == u;
    assert !IsJsWhitespace(t[0]);
    if sign == "-" {
      assert ParseSigned(t) == Some(-(m as int));
    } else {
      assert ParseSigned(t) == Some(m);
    }
  }

  lemma MagnitudeOfDigits(z: string, rest: string)
    requires z != [] && AllRadixDigits(z, 10)
    requires rest == [] || DigitValue(rest[0]) >= 10
    requires z == "0" ==> rest == [] || (rest[0] != 'x' && rest[0] != 'X')
    ensures ParseMagnitude(z + rest) == Some(DigitsValue(z, 10))
  {
    var u := z + rest;
    LeadingDigitsOfDigits(z, rest, 10);
    assert !HasHexPrefix(u) by {
      if |u| >= 2 && u[0] == '0' {
        if |z| >= 2 {
          assert u[1] == z[1];
        } else {
          assert z == "0" && u[1] == rest[0];
        }
      }
    }
  }

  /**
   * NaN when the first character after the white space and an optional sign
   * is not a decimal digit, whatever follows it.
   */
  lemma ParseIntWithoutLeadingDigit(w: string, sign: string, rest: string)
    requires AllWhitespace(w) && IsSign(sign)
    requires rest == [] || DigitValue(rest[0]) >= 10
    requires sign == "" && rest != [] ==>
      !IsJsWhitespace(rest[0]) && rest[0] != '+' && rest[0] != '-'
    ensures ParseInt(w + sign + rest) == None
  {
    var t := sign + rest;
    assert w + sign + rest == w + t;
    TrimStartAfterWhitespace(w, t);
    if t != [] {
      assert t[0] == (if sign == "" then rest[0] else sign[0]);
    }
    assert TrimStart(t) == t;
    if sign != "" {
      assert t[1..] == rest;
    }
    assert !HasHexPrefix(rest);
    assert LeadingDigits(rest, 10) == [];
  }

  /** Reading back `String(n)` gives n: parseInt inverts the decimal rendering. */
  lemma ParseIntOfDecimal(n: int)
    ensures ParseInt(ToDecimal(n)) == Some(n)
  {
    ParseIntReadsNumericPrefix(n, []);
    assert ToDecimal(n) + [] == ToDecimal(n);
  }

  /** Leading white space does not change what parseInt reads. */
  lemma ParseIntSkipsWhitespace(w: string, s: string)
    requires AllWhitespace(w)
    ensures ParseInt(w + s) == ParseInt(s)
  {
    TrimStartAfterWhitespace(w, s);
  }

  /** An argument containing no decimal digit is NaN; `"undefined"` is one. */
  lemma ParseIntWithoutDigits(s: string)
    requires forall i :: 0 <= i < |s| ==> DigitValue(s[i]) >= 10
    ensures ParseInt(s) == None
  {
    TrimStartDropsLeadingWhitespace(s);
    var t := TrimStart(s);
    assert forall i :: 0 <= i < |t| ==> t[i] == s[|s| - |t| + i];
  }

  /** Only the numeric prefix is read: "12abc" is 12. */
  lemma ParseIntStopsAtLetter()
    ensures ParseInt("12abc") == Some(12)
  {
    assert TrimStart("12abc") == "12abc";
    assert LeadingDigits("12abc", 10) == "12";
    assert DigitsValue("12", 10) == 12;
  }

  /** Leading blanks are skipped: "  7" is 7. */
  lemma ParseIntSkipsBlanks()
    ensures ParseInt("  7") == Some(7)
  {
  }

  /** A fraction is cut at the point: "1.9" is 1. */
  lemma ParseIntTruncatesAtPoint()
    ensures ParseInt("1.9") == Some(1)
  {
  }

  /** A minus sign is kept: "-3" is -3. */
  lemma ParseIntKeepsMinus()
    ensures ParseInt("-3") == Some(-3)
  {
  }

  /** Leading zeros are read as decimal: "007px" is 7. */
  lemma ParseIntLeadingZeros()
    ensures ParseInt("007px") == Some(7)
  {
    assert "007px" == "" + "" + "007" + "px";
    ParseIntReadsSignedDigits("", "", "007", "px");
    assert "007"[..2] == "00" && "00"[..1] == "0" && "0"[..0] == "";
    assert DigitsValue("007", 10) == 7;
  }

  /** A digit after the head does not help: "abc1" and "px10" are NaN. */
  lemma ParseIntLateDigit()
    ensures ParseInt("abc1") == None
    ensures ParseInt("px10") == None
  {
    assert "abc1" == "" + "" + "abc1";
    ParseIntWithoutLeadingDigit("", "", "abc1");
    assert "px10" == "" + "" + "px10";
    ParseIntWithoutLeadingDigit("", "", "px10");
  }

  /** Without a radix, "0x" selects radix 16: "0x1A" is 26, and "0x" alone is NaN. */
  lemma ParseIntHexPrefix()
    ensures ParseInt("0x1A") == Some(26)
    ensures ParseInt("0x") == None
  {
    assert TrimStart("0x1A") == "0x1A";
    assert HasHexPrefix("0x1A") && "0x1A"[2..] == "1A";
    assert LeadingDigits("1A", 16) == "1A";
    assert DigitsValue("1A", 16) == 26;
    assert TrimStart("0x") == "0x";
    assert HasHexPrefix("0x") && "0x"[2..] == "";
  }

  /** The empty string, a word and `undefined` are NaN. */
  lemma ParseIntNaNExamples()
    ensures ParseInt("") == None
    ensures ParseInt("abc") == None
    ensures ParseInt(ToJsString(None)) == None
  {
  }
}
