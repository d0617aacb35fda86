/** The nonlinear facts about products, quotients and remainders used elsewhere. */
module Arithmetic {

  /** `q` is the ceiling of `a / b`. */
  predicate IsCeiling(q: int, a: int, b: int) {
    (q - 1) * b < a <= q * b
  }

  lemma CeilingDivision(a: nat, b: nat)
    requires b >= 1
    ensures IsCeiling((a + b - 1) / b, a, b)
  {
    var q, r := (a + b - 1) / b, (a + b - 1) % b;
    assert a + b - 1 == q * b + r;
    assert (q - 1) * b == q * b - b;
  }

  /** One factor less. */
  lemma TimesPred(a: int, x: int)
    ensures a * x == (a - 1) * x + x
  {
  }

  lemma TimesDifference(a: int, x: int, y: int)
    ensures a * (x - y) == a * x - a * y
  {
  }

  lemma RealTimesPred(a: int, x: real)
    ensures a as real * x == (a - 1) as real * x + x
  {
    assert a as real == (a - 1) as real + 1.0;
  }

  lemma RealDouble(x: real, y: real)
    ensures x * (2.0 * y) == x * y + x * y
  {
  }

  lemma RealQuotient(x: real, n: real)
    requires n != 0.0
    ensures x / n * n == x
  {
  }

  lemma MulMonotone(a: int, b: int, c: int)
    requires a <= b && c >= 0
    ensures a * c <= b * c
  {
    assert b * c == a * c + (b - a) * c;
  }

  lemma MultipleAtLeast(d: int, k: nat)
    requires d >= 1
    ensures d * k >= k
  {
    assert d * k == (d - 1) * k + k;
  }

  lemma DivModUnique(x: nat, k: nat, q: nat, m: nat)
    requires k >= 1 && x == q * k + m && m < k
    ensures x / k == q && x % k == m
  {
    var d := x / k - q;
    assert x == (x / k) * k + x % k;
    assert d * k == (x / k) * k - q * k;
    assert -d * k == -(d * k);
    if d >= 1 {
      MultipleAtLeast(d, k);
    } else if d <= -1 {
      MultipleAtLeast(-d, k);
    }
  }

  /** The quotient grows by one, and the remainder starts again, at each multiple of k. */
  lemma NextQuotient(r: nat, k: nat)
    requires k >= 1
    ensures (r + 1) / k == r / k + if r % k + 1 == k then 1 else 0
    ensures (r + 1) % k == if r % k + 1 == k then 0 else r % k + 1
  {
    var q, m := r / k, r % k;
    assert r == q * k + m;
    if m + 1 == k {
      assert r + 1 == (q + 1) * k;
      DivModUnique(r + 1, k, q + 1, 0);
    } else {
      DivModUnique(r + 1, k, q, m + 1);
    }
  }
}
