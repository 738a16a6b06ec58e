/** Decimal numerals as Go prints and reads them: F.ToString and strconv.Atoi on 64-bit ints. */
module Decimal {

  const MAX_INT: int := 0x7FFF_FFFF_FFFF_FFFF

  function Digit(d: nat): char
    requires d < 10
  {
    '0' + d as char
  }

  predicate IsDigit(c: char) { '0' <= c <= '9' }

  function Value(c: char): nat
    requires IsDigit(c)
  {
    (c - '0') as nat
  }

  predicate AllDigits(s: string) { forall i :: 0 <= i < |s| ==> IsDigit(s[i]) }

  function ToString(n: nat): (s: string)
    ensures |s| > 0 && AllDigits(s)
  {
    if n < 10 then [Digit(n)] else ToString(n / 10) + [Digit(n % 10)]
  }

  function Number(s: string): nat
    requires AllDigits(s)
  {
    if s == [] then 0 else 10 * Number(s[..|s| - 1]) + Value(s[|s| - 1])
  }

  /** strconv.Atoi with its error ignored: 0 for anything that is not a numeral, clamped when out of range. */
  function Atoi(s: string): int {
    var signed := s != [] && (s[0] == '+' || s[0] == '-');
    var digits := if signed then s[1..] else s;
    if digits == [] || !AllDigits(digits) then 0
    else if signed && s[0] == '-' then (if Number(digits) > MAX_INT + 1 then -MAX_INT - 1 else -(Number(digits) as int))
    else if Number(digits) > MAX_INT then MAX_INT
    else Number(digits)
  }

  lemma {:induction false} NumberOfToString(n: nat)
    ensures Number(ToString(n)) == n
  {
    if n >= 10 {
      var s := ToString(n);
      NumberOfToString(n / 10);
      assert s[..|s| - 1] == ToString(n / 10);
    }
  }

  /** Reading what was printed gives the number back. */
  lemma AtoiOfToString(n: nat)
    requires n <= MAX_INT
    ensures Atoi(ToString(n)) == n
  {
    NumberOfToString(n);
    assert IsDigit(ToString(n)[0]);
  }
}
