/**
 * Digit tokens and their integer values: `str.isdigit` and `int(...)`
 * as `parse_id_list` applies them to one token, restricted to ASCII digits.
 */
module Decimal {
  import opened Text

  predicate IsDigit(c: char) {
    '0' <= c <= '9'
  }

  /** Every character is a digit (the empty string included). */
  predicate DigitsOnly(t: String) {
    forall i :: 0 <= i < |t| ==> IsDigit(t[i])
  }

  /** `t.isdigit()` for ASCII text: non-empty and made of digits only.
      Such a token is a single word of `split()` and holds no comma. */
  predicate IsNumeral(t: String)
    ensures IsNumeral(t) ==> IsWord(t) && ',' !in t
  {
    |t| > 0 && DigitsOnly(t)
  }

  /** CPython's default `sys.get_int_max_str_digits()`: `int` refuses to
      convert a decimal string with more digits than this. */
  const MaxStrDigits: nat := 4300

  /** A digit token on which `int(t)` raises `ValueError`: it has more
      digits than the limit, leading zeros included. */
  predicate TooLongForInt(t: String) {
    IsNumeral(t) && |t| > MaxStrDigits
  }

  function Pow10(k: nat): (p: nat)
    ensures p >= 1
  {
    if k == 0 then 1 else 10 * Pow10(k - 1)
  }

  function DigitValue(c: char): (d: nat)
    requires IsDigit(c)
    ensures d < 10
  {
    c as int - '0' as int
  }

  function DigitChar(d: nat): (c: char)
    requires d < 10
    ensures IsDigit(c) && DigitValue(c) == d
  {
    ('0' as int + d) as char
  }

  /** `int(t)` for a string of ASCII digits: its decimal value, leading zeros allowed. */
  function Value(t: String): (n: nat)
    requires DigitsOnly(t)
    ensures n < Pow10(|t|)
    decreases |t|
  {
    if t == [] then 0
    else
      var p := Value(t[..|t| - 1]);
      assert p <= Pow10(|t| - 1) - 1;
      assert p * 10 <= (Pow10(|t| - 1) - 1) * 10;
      p * 10 + DigitValue(t[|t| - 1])
  }

  /** The canonical decimal numeral of `n`: no leading zeros, "0" for zero. */
  function Numeral(n: nat): (t: String)
    ensures IsNumeral(t)
    ensures |t| > 1 ==> t[0] != '0'
  {
    if n < 10 then [DigitChar(n)] else Numeral(n / 10) + [DigitChar(n % 10)]
  }

  function Zeros(k: nat): (t: String) {
    if k == 0 then [] else ['0'] + Zeros(k - 1)
  }

  /** Reading the canonical numeral of `n` gives `n` back. */
  lemma {:induction false} ValueOfNumeral(n: nat)
    ensures Value(Numeral(n)) == n
  {
    var t := Numeral(n);
    if n >= 10 {
      ValueOfNumeral(n / 10);
      assert t[..|t| - 1] == Numeral(n / 10);
    }
  }

  /** A leading zero does not change the value: `int("07") == int("7")`. */
  lemma {:induction false} ValueIgnoresLeadingZero(t: String)
    requires DigitsOnly(t)
    ensures DigitsOnly(['0'] + t) && Value(['0'] + t) == Value(t)
    decreases |t|
  {
    var z := ['0'] + t;
    if t != [] {
      var p := t[..|t| - 1];
      ValueIgnoresLeadingZero(p);
      assert z[..|z| - 1] == ['0'] + p;
    } else {
      assert z[..|z| - 1] == [];
    }
  }

  /** Any number of leading zeros leaves the value alone. */
  lemma {:induction false} ValueIgnoresLeadingZeros(k: nat, t: String)
    requires DigitsOnly(t)
    ensures DigitsOnly(Zeros(k) + t) && Value(Zeros(k) + t) == Value(t)
  {
    if k > 0 {
      ValueIgnoresLeadingZeros(k - 1, t);
      ValueIgnoresLeadingZero(Zeros(k - 1) + t);
      assert Zeros(k) + t == ['0'] + (Zeros(k - 1) + t);
    } else {
      assert Zeros(k) + t == t;
    }
  }

  /** Every numeral is some number of zeros in front of the canonical numeral of its value. */
  lemma {:induction false} NumeralOfValue(t: String)
    requires IsNumeral(t)
    ensures exists k: nat :: Zeros(k) + Numeral(Value(t)) == t
    decreases |t|
  {
    if |t| == 1 {
      assert Zeros(0) + Numeral(Value(t)) == t;
    } else if t[0] == '0' {
      var rest := t[1..];
      assert t == ['0'] + rest;
      ValueIgnoresLeadingZero(rest);
      NumeralOfValue(rest);
      var k: nat :| Zeros(k) + Numeral(Value(rest)) == rest;
      assert Zeros(k + 1) + Numeral(Value(t)) == t;
    } else {
      NumeralOfLeadingNonZero(t);
      assert Zeros(0) + Numeral(Value(t)) == t;
    }
  }

  /** A numeral without a leading zero is the canonical one. */
  lemma {:induction false} NumeralOfLeadingNonZero(t: String)
    requires IsNumeral(t) && t[0] != '0'
    ensures Numeral(Value(t)) == t
    decreases |t|
  {
    if |t| > 1 {
      var p := t[..|t| - 1];
      var d := DigitValue(t[|t| - 1]);
      NumeralOfLeadingNonZero(p);
      LeadingNonZeroIsLarge(p);
      var v := Value(t);
      assert v == Value(p) * 10 + d;
      assert v / 10 == Value(p) && v % 10 == d;
      assert DigitChar(d) == t[|t| - 1];
      assert t == p + [t[|t| - 1]];
    } else {
      assert t == [DigitChar(Value(t))];
    }
  }

  /** A numeral of length k + 1 without a leading zero is worth at least 10^k. */
  lemma {:induction false} LeadingNonZeroIsLarge(t: String)
    requires IsNumeral(t) && t[0] != '0'
    ensures Value(t) >= Pow10(|t| - 1)
    decreases |t|
  {
    if |t| > 1 {
      LeadingNonZeroIsLarge(t[..|t| - 1]);
    }
  }
}
