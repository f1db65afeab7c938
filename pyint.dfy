/** Python's `str(n)` and `int(text)` for decimal integers. */
module PyInt {
  import opened Wrappers
  import opened Errors
  import opened PyStr

  predicate IsDigit(c: char)
  {
    '0' <= c <= '9'
  }

  predicate AllDigits(s: string)
  {
    forall i :: 0 <= i < |s| ==> IsDigit(s[i])
  }

  function DigitChar(d: nat): (c: char)
    requires d < 10
    ensures IsDigit(c)
  {
    "0123456789"[d]
  }

  function DigitValue(c: char): (d: nat)
    requires IsDigit(c)
    ensures d < 10
  {
    (c - '0') as nat
  }

  /** Decimal digits of `n`, most significant first, without leading zeros. */
  function NatToString(n: nat): (s: string)
    ensures s != [] && AllDigits(s)
  {
    if n < 10 then [DigitChar(n)] else NatToString(n / 10) + [DigitChar(n % 10)]
  }

  /** Python's `str(i)` for an int. */
  function IntToString(i: int): (s: string)
    ensures s != [] && '/' !in s && IsDigit(s[|s| - 1])
    ensures i >= 0 ==> AllDigits(s)
  {
    if i < 0 then "-" + NatToString(-i) else NatToString(i)
  }

  /** The value of a run of decimal digits. */
  function DigitsValue(s: string): (n: nat)
    requires AllDigits(s)
  {
    if s == [] then 0 else DigitsValue(s[..|s| - 1]) * 10 + DigitValue(s[|s| - 1])
  }

  /**
   * Python's `int(text)`: surrounding whitespace is ignored, one optional sign, then
   * at least one decimal digit; anything else raises ValueError.
   */
  function ParseInt(text: string): (r: Result<int, Error>)
    ensures r.Failure? ==> r.error == NotAnInteger(text)
  {
    var t := Strip(text);
    var signed := t != [] && (t[0] == '-' || t[0] == '+');
    var digits := if signed then t[1..] else t;
    if digits != [] && AllDigits(digits) then
      var v: int := DigitsValue(digits);
      Success(if signed && t[0] == '-' then -v else v)
    else Failure(NotAnInteger(text))
  }

  lemma {:induction false} DigitsOfNat(n: nat)
    ensures DigitsValue(NatToString(n)) == n
  {
    var s := NatToString(n);
    if n >= 10 {
      DigitsOfNat(n / 10);
      assert s[..|s| - 1] == NatToString(n / 10);
    }
  }

  /** The text of an integer has no whitespace to strip. */
  lemma StripIntText(i: int)
    ensures Strip(IntToString(i)) == IntToString(i)
  {
    var s := IntToString(i);
    assert !IsSpace(s[|s| - 1]);
    assert !IsSpace(s[0]) by {
      if i >= 0 { assert IsDigit(s[0]); }
    }
    assert "" + s + "" == s;
    StripPadded("", s, "");
  }

  /** `int` of a stripped run of digits is its value. */
  lemma ParseDigits(d: string)
    requires d != [] && AllDigits(d) && Strip(d) == d
    ensures ParseInt(d) == Success(DigitsValue(d))
  {
    assert IsDigit(d[0]);
  }

  /** `int` of a stripped minus sign followed by digits is the negated value. */
  lemma ParseNegative(d: string)
    requires d != [] && AllDigits(d) && Strip("-" + d) == "-" + d
    ensures ParseInt("-" + d) == Success(-(DigitsValue(d) as int))
  {
    var t := "-" + d;
    assert t[0] == '-' && t[1..] == d;
  }

  /** `int(str(i)) == i` for every integer. */
  lemma ParseIntToString(i: int)
    ensures ParseInt(IntToString(i)) == Success(i)
  {
    StripIntText(i);
    if i < 0 {
      ParseNegative(NatToString(-i));
      DigitsOfNat(-i);
    } else {
      ParseDigits(NatToString(i));
      DigitsOfNat(i);
    }
  }
}
