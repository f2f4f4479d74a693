/** Decimal text of integers: `Number.prototype.toString()` for the
    non-negative integers the application turns into text (user ids in
    lib/auth.ts, day counts in lib/utils.ts), and `parseInt`, which the
    route handlers apply to `session.user.id`. */
module Numerals {
  import opened Options

  predicate IsDigit(c: char)
  {
    '0' <= c <= '9'
  }

  predicate AllDigits(s: string)
  {
    forall i :: 0 <= i < |s| ==> IsDigit(s[i])
  }

  function DigitChar(d: nat): (c: char)
    requires d < 10
    ensures IsDigit(c)
  {
    ('0' as int + d) as char
  }

  function DigitValue(c: char): (d: nat)
    requires IsDigit(c)
    ensures d < 10
  {
    c as int - '0' as int
  }

  /** The shortest decimal text of `n`, most significant digit first. */
  function DecimalString(n: nat): (s: string)
    ensures |s| >= 1 && AllDigits(s)
    ensures s[0] == '0' ==> n == 0
  {
    if n < 10 then [DigitChar(n)] else DecimalString(n / 10) + [DigitChar(n % 10)]
  }

  /** The value of a run of decimal digits. */
  function DigitsValue(s: string): nat
    requires AllDigits(s)
  {
    if s == [] then 0 else DigitsValue(s[..|s| - 1]) * 10 + DigitValue(s[|s| - 1])
  }

  /** How many decimal digits `s` starts with. */
  function DigitRunLength(s: string): (k: nat)
    ensures k <= |s| && AllDigits(s[..k])
    ensures k < |s| ==> !IsDigit(s[k])
  {
    if s == [] || !IsDigit(s[0]) then 0
    else
      var k := 1 + DigitRunLength(s[1..]);
      assert s[..k] == [s[0]] + s[1..][..k - 1];
      k
  }

  /** `parseInt(s)` with no radix: an optional sign, then the longest run of
      decimal digits; any text after that run is ignored, and None (NaN)
      comes back when the run is empty. */
  function ParseInt(s: string): (r: Option<int>)
    ensures r.Some? <==> DigitRunLength(UnsignedPart(s)) > 0
  {
    var body := UnsignedPart(s);
    var k := DigitRunLength(body);
    if k == 0 then None
    else
      var magnitude: int := DigitsValue(body[..k]);
      if |s| > 0 && s[0] == '-' then Some(-magnitude) else Some(magnitude)
  }

  /** `s` with one leading sign character removed. */
  function UnsignedPart(s: string): (body: string)
    ensures |s| > 0 && (s[0] == '-' || s[0] == '+') ==> body == s[1..]
    ensures |s| == 0 || (s[0] != '-' && s[0] != '+') ==> body == s
  {
    if |s| > 0 && (s[0] == '-' || s[0] == '+') then s[1..] else s
  }

  lemma {:induction false} DigitsValueOfDecimal(n: nat)
    ensures DigitsValue(DecimalString(n)) == n
  {
    var s := DecimalString(n);
    if n >= 10 {
      DigitsValueOfDecimal(n / 10);
      assert s[..|s| - 1] == DecimalString(n / 10);
    }
  }

  lemma {:induction false} DigitRunOfAllDigits(s: string)
    requires AllDigits(s)
    ensures DigitRunLength(s) == |s|
  {
    if s != [] {
      DigitRunOfAllDigits(s[1..]);
    }
  }

  /** A run of digits followed by a non-digit is read up to that non-digit. */
  lemma {:induction false} DigitRunOfDigitsThen(s: string, rest: string)
    requires AllDigits(s)
    requires rest != [] && !IsDigit(rest[0])
    ensures DigitRunLength(s + rest) == |s|
  {
    if s == [] {
      assert s + rest == rest;
    } else {
      DigitRunOfDigitsThen(s[1..], rest);
      assert (s + rest)[1..] == s[1..] + rest;
    }
  }

  /** Text made of a digit run and a suffix starting with a non-digit splits
      back into that run and that suffix. */
  lemma DigitsThenSplit(s1: string, rest1: string, s2: string, rest2: string)
    requires AllDigits(s1) && AllDigits(s2)
    requires rest1 != [] && !IsDigit(rest1[0])
    requires rest2 != [] && !IsDigit(rest2[0])
    requires s1 + rest1 == s2 + rest2
    ensures s1 == s2 && rest1 == rest2
  {
    DigitRunOfDigitsThen(s1, rest1);
    DigitRunOfDigitsThen(s2, rest2);
    assert s1 == (s1 + rest1)[..|s1|];
    assert s2 == (s2 + rest2)[..|s2|];
    assert rest1 == (s1 + rest1)[|s1|..];
    assert rest2 == (s2 + rest2)[|s2|..];
  }

  /** `parseInt(n.toString()) === n`: the text a user id is turned into at
      sign-in parses back to the same id. */
  lemma ParseDecimalString(n: nat)
    ensures ParseInt(DecimalString(n)) == Some(n)
  {
    var s := DecimalString(n);
    DigitRunOfAllDigits(s);
    assert s[..|s|] == s;
    DigitsValueOfDecimal(n);
  }

  /** Distinct numbers have distinct decimal texts. */
  lemma DecimalStringInjective(a: nat, b: nat)
    requires DecimalString(a) == DecimalString(b)
    ensures a == b
  {
    ParseDecimalString(a);
    ParseDecimalString(b);
  }
}
