/** Amounts in kopecks, and Python's `round(x, 2)` at the kopeck level. */
module Money {

  function Abs(x: int): (r: nat)
    ensures r == x || r == -x
  {
    if x < 0 then -x else x
  }

  /**
   * The whole number nearest to n / d, a tie going to the even neighbour
   * (Python's rounding rule for exact halves).
   */
  function RoundDiv(n: nat, d: nat): nat
    requires d > 0
  {
    var lower := n / d;
    var rem := n % d;
    if 2 * rem < d || (2 * rem == d && lower % 2 == 0) then lower else lower + 1
  }

  /** `round(x / 100, 2)` for x = n kopecks: the kopeck nearest to 1 % of n. */
  function OnePercent(n: nat): (q: nat)
    ensures 2 * n <= 200 * q + 100 && 200 * q <= 2 * n + 100
    ensures 2 * n == 200 * q + 100 || 200 * q == 2 * n + 100 ==> q % 2 == 0
  {
    RoundDiv(n, 100)
  }

  /** `round(x * 0.1, 2)` for x = n kopecks: the kopeck nearest to 10 % of n. */
  function OneTenth(n: nat): (q: nat)
    ensures 2 * n <= 20 * q + 10 && 20 * q <= 2 * n + 10
    ensures 2 * n == 20 * q + 10 || 20 * q == 2 * n + 10 ==> q % 2 == 0
  {
    RoundDiv(n, 10)
  }
}
