/** Decimal printing as Go's strconv, fmt and time.Format do it, with the facts that make printed
    numbers usable inside keys: printing is injective, and a printed number is never empty. */
module Decimal {

  function Digit(n: nat): char
    requires n < 10
  {
    '0' + n as char
  }

  /** A non-negative number without leading zeros. */
  function Digits(n: nat): string {
    if n < 10 then [Digit(n)] else Digits(n / 10) + [Digit(n % 10)]
  }

  /** `%d` and FormatInt. */
  function FormatInt(n: int): string {
    if n < 0 then "-" + Digits(-n) else Digits(n)
  }

  function Zeros(n: nat): string {
    seq(n, _ => '0')
  }

  /** Zero padding to a width, the sign kept outside the padding, as time.Format prints a year. */
  function Padded(n: int, width: nat): string {
    var digits := Digits(if n < 0 then -n else n);
    (if n < 0 then "-" else "") + Zeros(if |digits| < width then width - |digits| else 0) + digits
  }

  /** `%02d` for the months, days and weeks, which all have at most two digits. */
  function TwoDigits(n: nat): string
    requires n < 100
  {
    [Digit(n / 10), Digit(n % 10)]
  }

  predicate IsDigit(c: char) {
    '0' <= c <= '9'
  }

  function DigitValue(c: char): nat
    requires IsDigit(c)
  {
    (c - '0') as nat
  }

  /** The number a string of digits spells. */
  function Value(s: string): nat
    requires forall c | c in s :: IsDigit(c)
  {
    if s == [] then 0 else 10 * Value(s[..|s| - 1]) + DigitValue(s[|s| - 1])
  }

  lemma {:induction false} ValueOfDigits(n: nat)
    ensures |Digits(n)| > 0
    ensures forall c | c in Digits(n) :: IsDigit(c)
    ensures Value(Digits(n)) == n
  {
    if n >= 10 {
      ValueOfDigits(n / 10);
      assert Digits(n)[..|Digits(n)| - 1] == Digits(n / 10);
    } else {
      assert Digits(n)[..0] == [];
    }
  }

  lemma {:induction false} ValueIgnoresZeros(k: nat, s: string)
    requires forall c | c in s :: IsDigit(c)
    ensures forall c | c in Zeros(k) + s :: IsDigit(c)
    ensures Value(Zeros(k) + s) == Value(s)
  {
    var z := Zeros(k) + s;
    if s != [] {
      ValueIgnoresZeros(k, s[..|s| - 1]);
      assert z[..|z| - 1] == Zeros(k) + s[..|s| - 1];
    } else if k > 0 {
      ValueIgnoresZeros(k - 1, s);
      assert z[..|z| - 1] == Zeros(k - 1) + s;
    }
  }

  lemma PaddedInjective(a: int, b: int, width: nat)
    requires Padded(a, width) == Padded(b, width)
    ensures a == b
  {
    PaddedShape(a, width);
    PaddedShape(b, width);
  }

  /** The digits of a magnitude, filled up with zeros. */
  lemma PaddedDigits(m: nat, width: nat) returns (body: string)
    ensures body == Zeros(if |Digits(m)| < width then width - |Digits(m)| else 0) + Digits(m)
    ensures |body| > 0 && IsDigit(body[0]) && body[0] != '-'
    ensures (forall c | c in body :: IsDigit(c)) && Value(body) == m
  {
    var k := if |Digits(m)| < width then width - |Digits(m)| else 0;
    body := Zeros(k) + Digits(m);
    ValueOfDigits(m);
    ValueIgnoresZeros(k, Digits(m));
    assert body[0] in body;
  }

  /** What a padded number looks like: a minus sign exactly for a negative one, then only digits,
      which spell the magnitude. */
  lemma PaddedShape(n: int, width: nat)
    ensures var s := Padded(n, width);
            var body := if n < 0 then s[1..] else s;
            && |s| > 0
            && (s[0] == '-' <==> n < 0)
            && (s[0] == '-' || IsDigit(s[0]))
            && (forall c | c in body :: IsDigit(c))
            && Value(body) == (if n < 0 then -n else n)
  {
    var body := PaddedDigits(if n < 0 then -n else n, width);
    if n < 0 {
      assert Padded(n, width) == "-" + body;
      assert ("-" + body)[1..] == body;
    } else {
      assert Padded(n, width) == body;
    }
  }

  lemma FormatIntIsPadded(n: int)
    ensures FormatInt(n) == Padded(n, 0)
  {
    var digits := Digits(if n < 0 then -n else n);
    assert Zeros(0) + digits == digits;
  }

  lemma FormatIntInjective(a: int, b: int)
    requires FormatInt(a) == FormatInt(b)
    ensures a == b
  {
    FormatIntIsPadded(a);
    FormatIntIsPadded(b);
    PaddedInjective(a, b, 0);
  }

  lemma TwoDigitsInjective(a: nat, b: nat)
    requires a < 100 && b < 100 && TwoDigits(a) == TwoDigits(b)
    ensures a == b
  {
    assert a == 10 * (a / 10) + a % 10;
    assert TwoDigits(a)[0] == TwoDigits(b)[0] && TwoDigits(a)[1] == TwoDigits(b)[1];
  }
}
