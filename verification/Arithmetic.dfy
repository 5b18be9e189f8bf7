/** Division facts used by the codecs. */
module Arithmetic {
  lemma SmallMultiple(k: int, d: nat)
    ensures -(d as int) < k * d < d ==> k == 0
  {
    if k >= 1 {
      assert k * d >= d;
    } else if k <= -1 {
      assert k * d <= -(d as int);
    }
  }

  /** Quotient and remainder are determined by the number. */
  lemma Unique(a: int, r: nat, b: int, s: nat, d: nat)
    requires r < d && s < d && a * d + r == b * d + s
    ensures a == b && r == s
  {
    assert (a - b) * d == s - r;
    SmallMultiple(a - b, d);
  }

  lemma AddMultiple(x: nat, q: nat, d: nat)
    requires d > 0
    ensures (q * d + x) / d == q + x / d
    ensures (q * d + x) % d == x % d
  {
    var y := q * d + x;
    assert y == (q + x / d) * d + x % d;
    Unique(y / d, y % d, q + x / d, x % d, d);
  }

  lemma DivMod(x: nat, d: nat)
    requires d > 0
    ensures x == x / d * d + x % d
    ensures 0 <= x % d < d
  {
  }

  lemma MulMonotone(a: nat, b: nat, c: nat)
    requires a <= b
    ensures a * c <= b * c
  {
    assert (b - a) * c >= 0;
    assert (b - a) * c == b * c - a * c;
  }
}
