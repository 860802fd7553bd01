/** Decimal numerals: what "%u" prints and what it reads. */
module Decimal {

  predicate IsDigit(c: char) {
    '0' <= c <= '9'
  }

  function DigitValue(c: char): (d: nat)
    requires IsDigit(c)
    ensures d <= 9
  {
    (c - '0') as int
  }

  function DigitOf(d: nat): (c: char)
    requires d <= 9
    ensures IsDigit(c) && DigitValue(c) == d
  {
    '0' + d as char
  }

  predicate AllDigits(s: string) {
    forall i :: 0 <= i < |s| ==> IsDigit(s[i])
  }

  /** The number a string of digits denotes; leading zeros are allowed. */
  function ValueOf(s: string): nat
    requires AllDigits(s)
  {
    if s == [] then 0 else 10 * ValueOf(s[..|s| - 1]) + DigitValue(s[|s| - 1])
  }

  /** What "%u" prints. */
  function Numeral(n: nat): (s: string)
    ensures s != [] && AllDigits(s)
  {
    if n < 10 then [DigitOf(n)] else Numeral(n / 10) + [DigitOf(n % 10)]
  }

  /** The ten digits, and one more digit at the end of a number. */
  lemma NumeralDigits(q: nat, d: nat)
    requires 0 < q && d < 10
    ensures Numeral(10 * q + d) == Numeral(q) + Numeral(d)
    ensures Numeral(0) == "0" && Numeral(1) == "1" && Numeral(2) == "2" && Numeral(3) == "3" && Numeral(4) == "4"
    ensures Numeral(5) == "5" && Numeral(6) == "6" && Numeral(7) == "7" && Numeral(8) == "8" && Numeral(9) == "9"
  {
  }

  lemma {:induction false} ValueOfNumeral(n: nat)
    ensures ValueOf(Numeral(n)) == n
  {
    var s := Numeral(n);
    if n >= 10 {
      ValueOfNumeral(n / 10);
      assert s[..|s| - 1] == Numeral(n / 10);
    } else {
      assert s[..0] == [];
    }
  }

  function Power10(k: nat): nat {
    if k == 0 then 1 else 10 * Power10(k - 1)
  }

  /** A number below 10^k prints in at most k digits. */
  lemma {:induction false} NumeralLength(n: nat, k: nat)
    requires 0 < k && n < Power10(k)
    ensures |Numeral(n)| <= k
  {
    if n >= 10 {
      assert Power10(1) == 10;
      NumeralLength(n / 10, k - 1);
    }
  }

  /** A number from 10^k on needs more than k digits. */
  lemma {:induction false} NumeralLong(n: nat, k: nat)
    requires Power10(k) <= n
    ensures k < |Numeral(n)|
  {
    if k > 0 {
      if n >= 10 {
        NumeralLong(n / 10, k - 1);
      } else {
        PowerPositive(k - 1);
      }
    }
  }

  lemma {:induction false} PowerPositive(k: nat)
    ensures Power10(k) > 0
  {
    if k > 0 {
      PowerPositive(k - 1);
    }
  }

  /** The length of the longest run of digits at the start of s. */
  function DigitRun(s: string): (n: nat)
    ensures n <= |s| && AllDigits(s[..n]) && (n < |s| ==> !IsDigit(s[n]))
  {
    if s == [] || !IsDigit(s[0]) then 0
    else
      var n := 1 + DigitRun(s[1..]);
      assert s[..n] == [s[0]] + s[1..][..n - 1];
      n
  }

  /** A numeral followed by anything but a digit is read back exactly. */
  lemma {:induction false} DigitRunOf(digits: string, rest: string)
    requires AllDigits(digits) && (rest == [] || !IsDigit(rest[0]))
    ensures DigitRun(digits + rest) == |digits|
  {
    if digits == [] {
      assert digits + rest == rest;
    } else {
      assert (digits + rest)[1..] == digits[1..] + rest;
      DigitRunOf(digits[1..], rest);
    }
  }
}
