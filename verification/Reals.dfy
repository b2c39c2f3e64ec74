/** Squares of reals. */
module Reals {
  lemma ProductPositive(a: real, b: real)
    requires a > 0.0 && b > 0.0
    ensures a * b > 0.0
  {
  }

  lemma LongerIsLonger(a: real, b: real)
    requires a > b >= 0.0
    ensures a * a > b * b
  {
    var gap := a - b;
    ProductPositive(gap, a);
    assert gap * b >= 0.0;
    assert a * a - b * b == gap * a + gap * b;
  }

  lemma SameSquareSameSize(a: real, b: real)
    requires a >= 0.0 && b >= 0.0 && a * a == b * b
    ensures a == b
  {
    if a > b {
      LongerIsLonger(a, b);
    } else if b > a {
      LongerIsLonger(b, a);
    }
  }
}
