/** Decimal numerals: printing a natural number and reading one back. */
module Numerals {
  import opened Wrappers

  function DigitChar(d: nat): char
    requires d < 10
  {
    ('0' as int + d) as char
  }

  predicate IsDigit(c: char) {
    '0' <= c <= '9'
  }

  function DigitValue(c: char): nat
    requires IsDigit(c)
  {
    (c as int - '0' as int) as nat
  }

  function Decimal(n: nat): (s: string)
    ensures s != [] && forall c | c in s :: IsDigit(c)
  {
    if n < 10 then [DigitChar(n)] else Decimal(n / 10) + [DigitChar(n % 10)]
  }

  /** One digit stands for itself, and a further digit makes the number ten times as large and adds its own value. */
  lemma DecimalIs(n: nat, d: nat)
    requires d < 10
    ensures Decimal(d) == ["0123456789"[d]]
    ensures n > 0 ==> Decimal(10 * n + d) == Decimal(n) + ["0123456789"[d]]
  {
    assert DigitChar(d) == "0123456789"[d];
    assert (10 * n + d) / 10 == n && (10 * n + d) % 10 == d;
  }

  /** `parseInt(s, 10)` on a run of digits. */
  function ParseInt(s: string): nat
    requires forall c | c in s :: IsDigit(c)
  {
    if s == "" then 0 else 10 * ParseInt(s[..|s| - 1]) + DigitValue(s[|s| - 1])
  }

  lemma {:induction false} ParseDecimal(n: nat)
    ensures ParseInt(Decimal(n)) == n
  {
    if n >= 10 {
      ParseDecimal(n / 10);
      assert Decimal(n)[..|Decimal(n)| - 1] == Decimal(n / 10);
    } else {
      assert Decimal(n)[..0] == "";
    }
  }

  /** The run of digits at the start of a string. */
  function Digits(s: string): (r: string)
    ensures forall c | c in r :: IsDigit(c)
  {
    if s == "" || !IsDigit(s[0]) then "" else [s[0]] + Digits(s[1..])
  }

  /** The first run of digits, as `match(/(\d+)/)` finds it, read as a number. */
  function FirstNumber(s: string): Option<nat> {
    if s == "" then None
    else if IsDigit(s[0]) then Some(ParseInt(Digits(s)))
    else FirstNumber(s[1..])
  }

  lemma {:induction false} DigitsOf(digits: string, rest: string)
    requires forall c | c in digits :: IsDigit(c)
    requires rest == "" || !IsDigit(rest[0])
    ensures Digits(digits + rest) == digits
  {
    if digits == "" {
      assert digits + rest == rest;
    } else {
      assert (digits + rest)[1..] == digits[1..] + rest;
      DigitsOf(digits[1..], rest);
    }
  }

  /** The number printed after text without digits is the first number found. */
  lemma {:induction false} FirstNumberAfter(before: string, n: nat, rest: string)
    requires forall c | c in before :: !IsDigit(c)
    requires rest == "" || !IsDigit(rest[0])
    ensures FirstNumber(before + Decimal(n) + rest) == Some(n)
  {
    var s := before + Decimal(n) + rest;
    if before == "" {
      assert s == Decimal(n) + rest && s[0] == Decimal(n)[0];
      DigitsOf(Decimal(n), rest);
      ParseDecimal(n);
    } else {
      assert s[1..] == before[1..] + Decimal(n) + rest;
      FirstNumberAfter(before[1..], n, rest);
    }
  }
}
