/** Decimal text of integers, as %d prints it and as strconv reads it, and 64-bit wrap-around. */
module Numerals {
  import opened Wrappers

  const TWO_64 := 0x1_0000_0000_0000_0000

  function Wrap64(x: int): int {
    (x + TWO_64 / 2) % TWO_64 - TWO_64 / 2
  }

  predicate InInt64(x: int) {
    -TWO_64 / 2 <= x < TWO_64 / 2
  }

  lemma Fits(x: int)
    requires InInt64(x)
    ensures Wrap64(x) == x
  {
  }

  /** Wrapping confuses exactly the values a multiple of 2^64 apart. */
  lemma WrapsTogether(x: int, y: int)
    ensures Wrap64(x) == Wrap64(y) <==> (y - x) % TWO_64 == 0
  {
  }

  /** Wrapping keeps distinct values apart while they are less than 2^64 apart. */
  lemma WrapApart(x: int, y: int)
    requires x < y < x + TWO_64
    ensures Wrap64(x) != Wrap64(y)
  {
  }

  predicate IsDigit(c: char) {
    '0' <= c <= '9'
  }

  function DigitChar(d: nat): char
    requires d < 10
  {
    '0' + d as char
  }

  function DigitValue(c: char): nat
    requires IsDigit(c)
  {
    (c - '0') as nat
  }

  function Digits(n: nat): (s: string)
    ensures s != "" && forall c | c in s :: IsDigit(c)
  {
    if n < 10 then [DigitChar(n)] else Digits(n / 10) + [DigitChar(n % 10)]
  }

  function Decimal(n: int): (s: string)
    ensures |s| >= 1 && forall i | 1 <= i < |s| :: IsDigit(s[i])
    ensures IsDigit(s[0]) <==> n >= 0
  {
    if n < 0 then "-" + Digits(-n) else Digits(n)
  }

  predicate AllDigits(s: string) {
    s != "" && forall c | c in s :: IsDigit(c)
  }

  function Value(s: string): nat
    requires forall c | c in s :: IsDigit(c)
  {
    if s == "" then 0
    else
      assert s[|s| - 1] in s;
      10 * Value(s[..|s| - 1]) + DigitValue(s[|s| - 1])
  }

  /** An optional sign and at least one digit. */
  function Parse(s: string): Option<int> {
    if AllDigits(s) then Some(Value(s))
    else if |s| > 1 && s[0] == '-' && AllDigits(s[1..]) then Some(0 - Value(s[1..]))
    else if |s| > 1 && s[0] == '+' && AllDigits(s[1..]) then Some(Value(s[1..]))
    else None
  }

  lemma {:induction false} ValueOfDigits(n: nat)
    ensures Value(Digits(n)) == n
  {
    if n < 10 {
      assert Digits(n)[..0] == "";
    } else {
      ValueOfDigits(n / 10);
      var s := Digits(n);
      assert s[..|s| - 1] == Digits(n / 10);
    }
  }

  lemma ParseOfDecimal(n: int)
    ensures Parse(Decimal(n)) == Some(n)
  {
    if n < 0 {
      ValueOfDigits(-n);
      assert Decimal(n)[1..] == Digits(-n);
      assert Decimal(n)[0] in Decimal(n);
    } else {
      ValueOfDigits(n);
    }
  }

  lemma DecimalInjective(a: int, b: int)
    requires Decimal(a) == Decimal(b)
    ensures a == b
  {
    ParseOfDecimal(a);
    ParseOfDecimal(b);
  }
}
