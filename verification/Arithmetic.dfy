/** Products that the solver does not compare by itself. */
module Arithmetic {

  lemma MulMono(c: nat, x: nat, y: nat)
    requires x <= y
    ensures c * x <= c * y && x * c <= y * c
  {
    assert c * y == c * x + c * (y - x);
  }
}
