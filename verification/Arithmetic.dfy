/** Facts about products and quotients that the solver does not find by itself. */
module Arithmetic {

  lemma MulGrows(d: int, x: int, y: int)
    requires d >= 0 && x <= y
    ensures d * x <= d * y
  {
  }

  /** The only multiple of `d` closer to 0 than `d` is 0. */
  lemma SmallMultiple(d: int, x: int)
    requires d > 0 && -d < d * x < d
    ensures x == 0
  {
    if x >= 1 {
      MulGrows(d, 1, x);
    } else if x <= -1 {
      MulGrows(d, x, -1);
    }
  }

  lemma QuotientIs(x: int, d: int, q: int, r: int)
    requires d > 0 && x == d * q + r && 0 <= r < d
    ensures x / d == q && x % d == r
  {
    var p := x / d;
    var y := p - q;
    assert d * y == d * p - d * q;
    SmallMultiple(d, y);
  }
}
