/** Small facts on numbers and finite sets. */
module Arith {
  function Min(a: nat, b: nat): (m: nat) { if a < b then a else b }

  function Max(a: nat, b: nat): (m: nat) { if a > b then a else b }

  lemma SubsetSize(a: set<nat>, b: set<nat>)
    requires a <= b
    ensures |a| <= |b|
  {
    assert b == a + (b - a);
  }

  lemma MulCancelLess(a: int, b: int, k: nat)
    requires a * k < b * k
    ensures a < b
  {
    assert (b - a) * k > 0;
  }

  lemma MulMonotone(a: nat, b: nat, k: nat)
    requires a <= b
    ensures a * k <= b * k
  {}

  lemma DivModOf(q: nat, r: nat, w: nat)
    requires r < w
    ensures (q * w + r) / w == q && (q * w + r) % w == r
  {
    var p := q * w + r;
    var d := p / w;
    assert p == d * w + p % w;
    assert (d - 1) * w == d * w - w && (q - 1) * w == q * w - w;
    MulCancelLess(d - 1, q, w);
    MulCancelLess(q - 1, d, w);
  }

  /** Numbers less than w apart never share a ring index. */
  lemma ModDistinct(x: nat, y: nat, w: nat)
    requires x < y < x + w
    ensures x % w != y % w
  {
    var q, m, d := x / w, x % w, y - x;
    assert x == q * w + m;
    if m + d < w {
      DivModOf(q, m + d, w);
    } else {
      assert (q + 1) * w == q * w + w;
      DivModOf(q + 1, m + d - w, w);
    }
  }
}
