/** Monotonicity of multiplication, stated once for the nonlinear steps of the other modules. */
module Arithmetic {

  lemma MulLe(k: int, x: int, y: int)
    requires k >= 0 && x <= y
    ensures k * x <= k * y
  {
    assert k * y - k * x == k * (y - x);
  }

  /** k*y is at least k*x + k once y exceeds x. */
  lemma MulStep(k: int, x: int, y: int)
    requires k >= 0 && x < y
    ensures k * x + k <= k * y
  {
    MulLe(k, x + 1, y);
    assert k * (x + 1) == k * x + k;
  }
}
