/** What the linear parts of two components rely on about products. */
module Arithmetic {
  lemma MulStep(a: int, b: int, u: nat)
    requires a < b
    ensures a * u + u <= b * u
  {
    assert (b - a) * u >= u by {
      assert b - a >= 1;
      assert (b - a - 1) * u >= 0;
    }
  }

  lemma MulOrder(a: int, b: int, u: nat)
    requires a <= b
    ensures a * u <= b * u
  {
    assert (b - a) * u >= 0;
    assert b * u - a * u == (b - a) * u;
  }
}
