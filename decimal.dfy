/**
 * The text JavaScript produces for a non-negative integer inside a template
 * literal (`${n}`): its decimal digits, most significant first, without
 * leading zeros.
 */
module DecimalText {

  predicate IsDigit(c: char) {
    '0' <= c <= '9'
  }

  predicate AllDigits(s: string) {
    forall i :: 0 <= i < |s| ==> IsDigit(s[i])
  }

  function DigitChar(d: nat): (c: char)
    requires d < 10
    ensures IsDigit(c) && c as int - '0' as int == d
  {
    ('0' as int + d) as char
  }

  /** `${n}` for a non-negative integer n. */
  function Decimal(n: nat): (s: string)
    decreases n
    ensures |s| >= 1 && AllDigits(s)
    ensures s[0] == '0' <==> n == 0
  {
    if n < 10 then [DigitChar(n)] else Decimal(n / 10) + [DigitChar(n % 10)]
  }

  /** The number a string of decimal digits denotes: the reference reading of Decimal. */
  function Value(s: string): nat
    requires AllDigits(s)
  {
    if s == [] then 0
    else Value(s[..|s| - 1]) * 10 + (s[|s| - 1] as int - '0' as int)
  }

  /** Reading back the digits of `${n}` gives n. */
  lemma {:induction false} ValueOfDecimal(n: nat)
    ensures Value(Decimal(n)) == n
  {
    var s := Decimal(n);
    if n >= 10 {
      ValueOfDecimal(n / 10);
      assert s[..|s| - 1] == Decimal(n / 10);
    }
  }

  /** Different numbers print differently. */
  lemma DecimalInjective(m: nat, n: nat)
    requires Decimal(m) == Decimal(n)
    ensures m == n
  {
    ValueOfDecimal(m);
    ValueOfDecimal(n);
  }

  /** The length of the run of digits that s starts with. */
  function LeadingDigits(s: string): (n: nat)
    ensures n <= |s|
  {
    if s == [] || !IsDigit(s[0]) then 0 else 1 + LeadingDigits(s[1..])
  }

  lemma {:induction false} LeadingDigitsOfDigitsThenOther(d: string, x: string)
    requires AllDigits(d) && x != [] && !IsDigit(x[0])
    ensures LeadingDigits(d + x) == |d|
  {
    if d == [] {
      assert d + x == x;
    } else {
      assert (d + x)[1..] == d[1..] + x;
      LeadingDigitsOfDigitsThenOther(d[1..], x);
    }
  }

  /**
   * A number printed in front of text that starts with a non-digit can be
   * read back: such texts are equal only for equal numbers and equal rests.
   */
  lemma DecimalThenText(m: nat, x: string, n: nat, y: string)
    requires x != [] && !IsDigit(x[0]) && y != [] && !IsDigit(y[0])
    requires Decimal(m) + x == Decimal(n) + y
    ensures m == n && x == y
  {
    var a, b := Decimal(m), Decimal(n);
    LeadingDigitsOfDigitsThenOther(a, x);
    LeadingDigitsOfDigitsThenOther(b, y);
    assert a == (a + x)[..|a|];
    assert b == (b + y)[..|b|];
    DecimalInjective(m, n);
    assert x == (a + x)[|a|..];
    assert y == (b + y)[|b|..];
  }
}
