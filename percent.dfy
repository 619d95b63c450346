/**
 * The source's percentage expressions `d > 0 ? Math.round((n / d) * 100) : 0`,
 * computed exactly over the integers. `Math.round` rounds halves upwards, so
 * for d > 0 the value is floor(100 n / d + 1/2) = (200 n + d) div (2 d).
 */
module Percent {

  function RoundPercent(part: nat, whole: nat): (r: nat)
    ensures whole == 0 ==> r == 0
    // r is 100 * part / whole rounded to the nearest integer, halves upwards
    ensures whole > 0 ==> 2 * whole * r <= 200 * part + whole < 2 * whole * r + 2 * whole
    ensures part <= whole ==> r <= 100
  {
    if whole == 0 then 0
    else
      var r := (200 * part + whole) / (2 * whole);
      DivBounds(200 * part + whole, 2 * whole);
      if part <= whole then
        RoundedAtMostHundred(part, whole, r);
        r
      else r
  }

  lemma DivBounds(n: nat, d: nat)
    requires d > 0
    ensures d * (n / d) <= n < d * (n / d) + d
  {
  }

  lemma RoundedAtMostHundred(part: nat, whole: nat, r: nat)
    requires 0 < whole && part <= whole
    requires 2 * whole * r <= 200 * part + whole
    ensures r <= 100
  {
    if r > 100 {
      calc {
        2 * whole * r;
      >= { MulMono(2 * whole, 101, r); }
        2 * whole * 101;
      >
        200 * whole + whole;
      >=
        200 * part + whole;
      }
    }
  }

  lemma MulMono(a: nat, b: nat, c: nat)
    requires b <= c
    ensures a * b <= a * c
  {
  }
}
