/** Numbers written in decimal digits, and digits read as a number. */
module Decimals {
  function Digit(n: nat): char
    requires n < 10
  {
    '0' + n as char
  }

  function Pow10(w: nat): (r: nat)
    ensures r >= 1
  {
    if w == 0 then 1 else 10 * Pow10(w - 1)
  }

  /** `n` in `w` digits, with leading zeros. */
  function Digits(n: nat, w: nat): (s: string)
    ensures |s| == w
  {
    if w == 0 then "" else Digits(n / 10, w - 1) + [Digit(n % 10)]
  }

  predicate IsDigit(c: char) { '0' <= c <= '9' }

  function ValueOf(c: char): nat {
    if IsDigit(c) then c as nat - '0' as nat else 0
  }

  function Number(s: string): nat {
    if s == "" then 0 else 10 * Number(s[..|s| - 1]) + ValueOf(s[|s| - 1])
  }

  lemma {:induction false} LastDigit(n: nat, w: nat)
    requires w > 0
    ensures Digits(n, w)[..w - 1] == Digits(n / 10, w - 1) && Digits(n, w)[w - 1] == Digit(n % 10)
  {
  }

  lemma {:induction false} DigitsNumber(n: nat, w: nat)
    requires n < Pow10(w)
    ensures forall i :: 0 <= i < w ==> IsDigit(Digits(n, w)[i])
    ensures Number(Digits(n, w)) == n
  {
    if w > 0 {
      DigitsNumber(n / 10, w - 1);
      LastDigit(n, w);
      forall i | 0 <= i < w ensures IsDigit(Digits(n, w)[i]) {
        if i < w - 1 {
          assert Digits(n, w)[i] == Digits(n / 10, w - 1)[i];
        }
      }
    }
  }
}
