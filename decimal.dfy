/** Powers of ten and decimal digit strings. */
module Decimal {

  function Pow10Nat(e: nat): (p: nat)
    ensures p >= 1
  {
    if e == 0 then 1 else 10 * Pow10Nat(e - 1)
  }

  function DigitChar(k: int): (c: char)
    requires 0 <= k < 10
    ensures '0' <= c <= '9'
  {
    ('0' as int + k) as char
  }

  function DigitValue(c: char): (k: nat)
    ensures k < 10
  {
    if '0' <= c <= '9' then c as int - '0' as int else 0
  }

  /** The last `w` decimal digits of `n`, zero-padded on the left. */
  function Digits(n: nat, w: nat): (s: string)
    ensures |s| == w
  {
    if w == 0 then "" else Digits(n / 10, w - 1) + [DigitChar(n % 10)]
  }

  /** A rendering consists of decimal digits only. */
  lemma {:induction false} DigitsAreDigits(n: nat, w: nat)
    ensures forall i :: 0 <= i < w ==> '0' <= Digits(n, w)[i] <= '9'
  {
    if w > 0 {
      DigitsAreDigits(n / 10, w - 1);
      var s := Digits(n, w);
      assert forall i :: 0 <= i < w - 1 ==> s[i] == Digits(n / 10, w - 1)[i];
    }
  }

  /** The value of a string of decimal digits. */
  function ParseDigits(s: string): nat {
    if s == [] then 0 else 10 * ParseDigits(s[..|s| - 1]) + DigitValue(s[|s| - 1])
  }

  /** Reading back a zero-padded rendering of a number that fits gives the
      number. */
  lemma {:induction false} DigitsRoundTrip(n: nat, w: nat)
    requires n < Pow10Nat(w)
    ensures ParseDigits(Digits(n, w)) == n
  {
    if w > 0 {
      var s := Digits(n, w);
      assert s[..|s| - 1] == Digits(n / 10, w - 1);
      DigitsRoundTrip(n / 10, w - 1);
    }
  }

  /** The two scales the price oracles use. */
  lemma OracleScales()
    ensures Pow10Nat(8) == 100000000
    ensures Pow10Nat(18) == 1000000000000000000
  {
    assert Pow10Nat(1) == 10;
    assert Pow10Nat(2) == 100;
    assert Pow10Nat(3) == 1000;
    assert Pow10Nat(4) == 10000;
    assert Pow10Nat(5) == 100000;
    assert Pow10Nat(6) == 1000000;
    assert Pow10Nat(7) == 10000000;
    assert Pow10Nat(8) == 100000000;
    assert Pow10Nat(9) == 1000000000;
    assert Pow10Nat(10) == 10000000000;
    assert Pow10Nat(11) == 100000000000;
    assert Pow10Nat(12) == 1000000000000;
    assert Pow10Nat(13) == 10000000000000;
    assert Pow10Nat(14) == 100000000000000;
    assert Pow10Nat(15) == 1000000000000000;
    assert Pow10Nat(16) == 10000000000000000;
    assert Pow10Nat(17) == 100000000000000000;
    assert Pow10Nat(18) == 1000000000000000000;
  }
}
