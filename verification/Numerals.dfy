/** Decimal digits as text. */
module Numerals {

  predicate IsDigit(c: char) {
    '0' <= c <= '9'
  }

  ghost predicate AllDigits(s: string) {
    forall i | 0 <= i < |s| :: IsDigit(s[i])
  }

  /** The number a text of digits denotes. */
  function Worth(digits: string): (n: nat)
    requires AllDigits(digits)
  {
    if digits == "" then 0
    else 10 * Worth(digits[..|digits| - 1]) + (digits[|digits| - 1] - '0') as nat
  }
}
