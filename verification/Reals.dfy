/** Signs of products of reals. */
module Reals {
  lemma {:induction false} Positive(a: real, b: real)
    requires a > 0.0 && b > 0.0
    ensures a * b > 0.0
  {
  }

  lemma {:induction false} NonNegative(a: real, b: real)
    requires a >= 0.0 && b >= 0.0
    ensures a * b >= 0.0
  {
  }

  lemma {:induction false} RootBounds(d: real, r: real)
    requires r >= 0.0 && d * d <= r * r
    ensures -r <= d <= r
  {
    Opposite(d);
    if d > r {
      Rises(r, d);
    }
    if -d > r {
      Rises(r, -d);
    }
  }

  lemma {:induction false} Opposite(d: real)
    ensures (-d) * (-d) == d * d
  {
  }

  lemma {:induction false} Rises(r: real, d: real)
    requires 0.0 <= r < d
    ensures r * r < d * d
  {
    assert d * d == r * r + (d - r) * (d + r);
    Positive(d - r, d + r);
  }

  lemma {:induction false} Ratio(d: real, m: real)
    requires m > 0.0 && -m <= d <= m
    ensures -1.0 <= d / m <= 1.0
  {
    var q := d / m;
    assert q * m == d;
    if q > 1.0 {
      Positive(q - 1.0, m);
    }
    if q < -1.0 {
      Positive(-1.0 - q, m);
    }
  }
}
