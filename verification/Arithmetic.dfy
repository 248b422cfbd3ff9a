/** Integer division as Go does it, and its bounds. */
module Arithmetic {
  function Max(a: int, b: int): int {
    if a > b then a else b
  }

  function Min(a: int, b: int): int {
    if a < b then a else b
  }

  /** Division rounding toward zero. */
  function Quotient(a: int, b: int): int
    requires b > 0
  {
    if a >= 0 then a / b else -((-a) / b)
  }

  /** The least integer not below a / b. */
  function Ceiling(a: int, b: int): int
    requires b > 0
  {
    -((-a) / b)
  }

  lemma QuotientAtMost(x: int, b: int, q: int)
    requires b > 0
    ensures x / b <= q <==> x < (q + 1) * b
  {
    assert x == (x / b) * b + x % b;
    if x / b <= q {
      assert (x / b) * b <= q * b;
    } else {
      assert (q + 1) * b <= (x / b) * b;
    }
  }

  lemma CeilingAtMost(x: int, b: int, q: int)
    requires b > 0
    ensures Ceiling(x, b) <= q <==> x <= q * b
  {
    QuotientAtMost(-x, b, -q - 1);
  }
}
