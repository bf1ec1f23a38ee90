/** JavaScript numbers as far as the client uses them: the decimal text a
    template literal writes for an integral number (`${n}`), and
    `parseInt(text, 10)`, which may give `NaN`. */
module Numbers {

  /** An integral JavaScript number, or `NaN`. */
  datatype Number = Int(value: int) | NaN

  predicate IsDigit(c: char)
  {
    '0' <= c <= '9'
  }

  predicate AllDigits(s: string)
  {
    forall i :: 0 <= i < |s| ==> IsDigit(s[i])
  }

  /** The white space `parseInt` skips, restricted to ASCII: space, tab, line
      feed, vertical tab, form feed and carriage return. */
  predicate IsWhitespace(c: char)
  {
    c == ' ' || '\t' <= c <= '\r'
  }

  function DigitChar(d: nat): (c: char)
    requires d < 10
    ensures IsDigit(c)
  {
    ('0' as int + d) as char
  }

  function DigitValue(c: char): (d: nat)
    requires IsDigit(c)
    ensures d < 10
  {
    c as int - '0' as int
  }

  /** The value of a string of decimal digits, most significant first. */
  function DigitsValue(s: string): nat
    requires AllDigits(s)
    decreases |s|
  {
    if s == [] then 0 else DigitsValue(s[..|s| - 1]) * 10 + DigitValue(s[|s| - 1])
  }

  /** The shortest decimal text of `n`: non-empty, digits only, and without a
      leading zero unless it is "0" itself. */
  function NatToDecimal(n: nat): (s: string)
    ensures |s| >= 1 && AllDigits(s)
    ensures |s| > 1 ==> s[0] != '0'
    ensures n == 0 <==> s == "0"
    decreases n
  {
    if n < 10 then [DigitChar(n)] else NatToDecimal(n / 10) + [DigitChar(n % 10)]
  }

  /** Reading the decimal text back gives the number it was written from. */
  lemma {:induction false} DecimalRoundTrip(n: nat)
    ensures DigitsValue(NatToDecimal(n)) == n
    decreases n
  {
    if n >= 10 {
      var s := NatToDecimal(n);
      assert s[..|s| - 1] == NatToDecimal(n / 10);
      DecimalRoundTrip(n / 10);
    }
  }

  /** The text a template literal writes for an integral number. */
  function IntToDecimal(i: int): (s: string)
    ensures s != []
    ensures i >= 0 ==> AllDigits(s)
    ensures i < 0 ==> s[0] == '-' && AllDigits(s[1..])
  {
    if i < 0 then "-" + NatToDecimal(-i) else NatToDecimal(i)
  }

  /** `${x}` for a number `x`. */
  function ToString(x: Number): (s: string)
    ensures s != []
    ensures s == "NaN" <==> x.NaN?
  {
    match x
    case Int(i) => IntToDecimal(i)
    case NaN => "NaN"
  }

  /** The text of a number holds only digits, a minus sign or the letters of
      "NaN", so it never contains a URL delimiter. */
  lemma ToStringAlphabet(x: Number)
    ensures forall i :: 0 <= i < |ToString(x)| ==>
      IsDigit(ToString(x)[i]) || ToString(x)[i] in "-Na"
    ensures '&' !in ToString(x) && '=' !in ToString(x)
    ensures '?' !in ToString(x) && '/' !in ToString(x)
    ensures ToString(x) != []
  {
    var s := ToString(x);
    if x.Int? && x.value < 0 {
      var d := NatToDecimal(-x.value);
      assert s == "-" + d;
      forall i | 0 <= i < |s| ensures IsDigit(s[i]) || s[i] in "-Na" {
        if i > 0 { assert s[i] == d[i - 1]; }
      }
    }
  }

  /** `s` with its leading white space removed. */
  function TrimStart(s: string): (t: string)
    ensures |t| <= |s| && t == s[|s| - |t|..]
    ensures t == [] || !IsWhitespace(t[0])
    ensures s == [] || !IsWhitespace(s[0]) ==> t == s
    ensures forall i :: 0 <= i < |s| - |t| ==> IsWhitespace(s[i])
    decreases |s|
  {
    if s != [] && IsWhitespace(s[0]) then TrimStart(s[1..]) else s
  }

  /** The length of the longest run of digits at the start of `s`. */
  function DigitRun(s: string): (n: nat)
    ensures n <= |s| && AllDigits(s[..n])
    ensures n < |s| ==> !IsDigit(s[n])
    ensures AllDigits(s) ==> n == |s|
    decreases |s|
  {
    if s != [] && IsDigit(s[0]) then 1 + DigitRun(s[1..]) else 0
  }

  /** The number written by the digit run at the start of `u`, or `NaN` when
      `u` does not start with a digit. */
  function LeadingDigits(u: string): (x: Number)
    ensures x.NaN? <==> u == [] || !IsDigit(u[0])
    ensures x.Int? ==> x.value >= 0
  {
    var k := DigitRun(u);
    if k == 0 then NaN else Int(DigitsValue(u[..k]))
  }

  function Negate(x: Number): Number
  {
    match x
    case Int(v) => Int(-v)
    case NaN => NaN
  }

  /** `parseInt(s, 10)`: after leading white space and an optional sign, the
      longest run of digits is read and anything after it is ignored; without
      any digit there the result is `NaN`. */
  function ParseInt(s: string): (x: Number)
    ensures s == [] ==> x == NaN
    ensures s != [] && AllDigits(s) ==> x == Int(DigitsValue(s))
  {
    var t := TrimStart(s);
    assert s != [] && AllDigits(s) ==> t == s && s[..|s|] == s by {
      if s != [] && AllDigits(s) {
        assert IsDigit(s[0]);
      }
    }
    if t != [] && t[0] == '-' then Negate(LeadingDigits(t[1..]))
    else if t != [] && t[0] == '+' then LeadingDigits(t[1..])
    else LeadingDigits(t)
  }

  /** `parseInt` reads back every number that a template literal wrote. */
  lemma ParseIntOfToString(x: Number)
    ensures ParseInt(ToString(x)) == x
  {
    if x.NaN? {
      ParseIntOfNaNText(x);
    } else if x.value < 0 {
      ParseIntOfNegativeText(x);
    } else {
      ParseIntOfNatText(x);
    }
  }

  lemma ParseIntOfNaNText(x: Number)
    requires x.NaN?
    ensures ParseInt(ToString(x)) == x
  {
    assert ToString(x) == "NaN";
    assert TrimStart("NaN") == "NaN";
    assert DigitRun("NaN") == 0;
  }

  lemma ParseIntOfNatText(x: Number)
    requires x.Int? && x.value >= 0
    ensures ParseInt(ToString(x)) == x
  {
    var d := NatToDecimal(x.value);
    assert ToString(x) == d;
    DecimalRoundTrip(x.value);
    ParseIntIgnoresTrailing(d, []);
    assert d + [] == d;
  }

  lemma ParseIntOfNegativeText(x: Number)
    requires x.Int? && x.value < 0
    ensures ParseInt(ToString(x)) == x
  {
    var n: nat := -x.value;
    NegativeText(x.value, n);
    ParseIntOfMinusDecimal(n);
  }

  lemma NegativeText(i: int, n: nat)
    requires i < 0 && n == -i
    ensures ToString(Int(i)) == "-" + NatToDecimal(n)
  {
  }

  lemma ParseIntOfMinusDecimal(n: nat)
    ensures ParseInt("-" + NatToDecimal(n)) == Int(-(n as int))
  {
    DecimalRoundTrip(n);
    ParseIntOfNegativeDigits(NatToDecimal(n));
  }

  /** White space in front of the text is skipped. */
  lemma ParseIntSkipsWhite(w: string, s: string)
    requires forall i :: 0 <= i < |w| ==> IsWhitespace(w[i])
    ensures ParseInt(w + s) == ParseInt(s)
  {
    TrimStartOfWhite(w, s);
  }

  lemma {:induction false} TrimStartOfWhite(w: string, s: string)
    requires forall i :: 0 <= i < |w| ==> IsWhitespace(w[i])
    ensures TrimStart(w + s) == TrimStart(s)
    decreases |w|
  {
    if w == [] {
      assert w + s == s;
    } else {
      assert (w + s)[0] == w[0];
      assert (w + s)[1..] == w[1..] + s;
      TrimStartOfWhite(w[1..], s);
    }
  }

  /** A plus sign before a digit run is accepted and changes nothing. */
  lemma ParseIntOfPlusDigits(digits: string)
    requires digits != [] && AllDigits(digits)
    ensures ParseInt("+" + digits) == Int(DigitsValue(digits))
  {
    var s := "+" + digits;
    assert TrimStart(s) == s;
    assert s[1..] == digits;
    LeadingDigitsOfDigits(digits, []);
    assert digits + [] == digits;
  }

  lemma ParseIntOfNegativeDigits(digits: string)
    requires digits != [] && AllDigits(digits)
    ensures ParseInt("-" + digits) == Int(-(DigitsValue(digits) as int))
  {
    var s := "-" + digits;
    assert TrimStart(s) == s;
    assert s[1..] == digits;
    LeadingDigitsOfDigits(digits, []);
    assert digits + [] == digits;
  }

  lemma LeadingDigitsOfDigits(digits: string, tail: string)
    requires digits != [] && AllDigits(digits)
    requires tail == [] || !IsDigit(tail[0])
    ensures LeadingDigits(digits + tail) == Int(DigitsValue(digits))
  {
    DigitRunOfDigits(digits, tail);
    assert (digits + tail)[..|digits|] == digits;
  }

  /** Text after the digits is ignored, as long as it does not start with a
      digit itself. */
  lemma ParseIntIgnoresTrailing(digits: string, tail: string)
    requires digits != [] && AllDigits(digits)
    requires tail == [] || !IsDigit(tail[0])
    ensures ParseInt(digits + tail) == Int(DigitsValue(digits))
  {
    var s := digits + tail;
    assert s[0] == digits[0];
    assert TrimStart(s) == s;
    LeadingDigitsOfDigits(digits, tail);
  }

  lemma {:induction false} DigitRunOfDigits(digits: string, tail: string)
    requires AllDigits(digits)
    requires tail == [] || !IsDigit(tail[0])
    ensures DigitRun(digits + tail) == |digits|
    decreases |digits|
  {
    if digits != [] {
      assert (digits + tail)[1..] == digits[1..] + tail;
      DigitRunOfDigits(digits[1..], tail);
    } else {
      assert digits + tail == tail;
    }
  }

  /** Different integers are written differently. */
  lemma IntToDecimalInjective(a: int, b: int)
    requires IntToDecimal(a) == IntToDecimal(b)
    ensures a == b
  {
    ParseIntOfToString(Int(a));
    ParseIntOfToString(Int(b));
  }
}
