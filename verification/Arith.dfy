/** Division and remainder by a variable, which the verifier does not know by itself. */
module Arith {
  lemma MulSplit(b: int, x: int, y: int)
    ensures b * (x - y) == b * x - b * y
  {
  }

  lemma MulAtLeast(b: int, k: int)
    requires b > 0 && k >= 1
    ensures b * k >= b
  {
  }

  lemma QuotientNotAbove(b: int, q: int, r: int, q': int, r': int)
    requires 0 <= r < b && 0 <= r' < b && b * q + r == b * q' + r'
    ensures q <= q'
  {
    if q > q' {
      MulSplit(b, q, q');
      MulAtLeast(b, q - q');
      assert false;
    }
  }

  /** The quotient and remainder of a number are unique. */
  lemma DivModUnique(x: int, b: int, q: int, r: int)
    requires 0 <= r < b && x == b * q + r
    ensures x / b == q && x % b == r
  {
    var q0, r0 := x / b, x % b;
    assert x == b * q0 + r0;
    QuotientNotAbove(b, q, r, q0, r0);
    QuotientNotAbove(b, q0, r0, q, r);
  }

  lemma MultiplesAreApart(b: nat, x: nat, y: nat)
    requires b > 0 && x % b == 0 && y % b == 0 && x > y
    ensures x >= y + b
  {
    var i, j := x / b, y / b;
    assert x == b * i && y == b * j;
    assert i >= j + 1;
    assert b * i >= b * (j + 1) == y + b;
  }

  lemma NextMultiple(b: nat, x: nat)
    requires b > 0 && x % b == 0
    ensures (x + b) % b == 0
  {
    DivModUnique(x + b, b, x / b + 1, 0);
  }
}
