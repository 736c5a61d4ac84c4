/** Facts about division with remainder by a variable divisor. */
module Arith {

  lemma MulStep(p: int, q: int, a: int)
    requires p < q && a > 0
    ensures p * a + a <= q * a
  {
    assert (q - p - 1) * a >= 0;
    assert (q - p - 1) * a == q * a - p * a - a;
  }

  /** Quotient and remainder are unique. */
  lemma DivModUnique(x: int, a: int, q: int, r: int)
    requires a > 0 && x == q * a + r && 0 <= r < a
    ensures x / a == q && x % a == r
  {
    var p := x / a;
    assert x == p * a + x % a;
    if p < q {
      MulStep(p, q, a);
      assert false;
    } else if q < p {
      MulStep(q, p, a);
      assert false;
    }
  }

  lemma MultipleMod(q: int, a: int)
    requires a > 0
    ensures q * a % a == 0
  {
    DivModUnique(q * a, a, q, 0);
  }

  /** Adding whole laps does not change a remainder. */
  lemma AddMultiple(x: int, q: int, a: int)
    requires a > 0
    ensures (x + q * a) % a == x % a
  {
    assert x + q * a == (x / a + q) * a + x % a by {
      assert (x / a + q) * a == x / a * a + q * a;
    }
    DivModUnique(x + q * a, a, x / a + q, x % a);
  }

  /** A cyclic position can be reduced before it advances. */
  lemma ModAdd(x: int, d: int, a: int)
    requires a > 0
    ensures (x % a + d) % a == (x + d) % a
  {
    assert x % a + d + x / a * a == x + d;
    AddMultiple(x % a + d, x / a, a);
  }

  /** Advancing a cyclic position by less than a lap wraps at most once. */
  lemma AddMod(x: int, d: int, a: int)
    requires a > 0 && 0 <= d < a
    ensures (x + d) % a == if x % a + d < a then x % a + d else x % a + d - a
  {
    var q := x / a;
    assert x == q * a + x % a;
    if x % a + d < a {
      DivModUnique(x + d, a, q, x % a + d);
    } else {
      assert (q + 1) * a == q * a + a;
      DivModUnique(x + d, a, q + 1, x % a + d - a);
    }
  }

  /** A sum of multiples is a multiple. */
  lemma SumOfMultiples(m: int, n: int, a: int)
    requires a > 0 && m % a == 0 && n % a == 0
    ensures (m + n) % a == 0
  {
    assert m + n == (m / a + n / a) * a by {
      assert (m / a + n / a) * a == m / a * a + n / a * a;
    }
    MultipleMod(m / a + n / a, a);
  }

  /** A product with a multiple is a multiple. */
  lemma ScaledMultiple(k: int, n: int, a: int)
    requires a > 0 && n % a == 0
    ensures k * n % a == 0
  {
    assert k * n == k * (n / a) * a by {
      assert n == n / a * a;
    }
    MultipleMod(k * (n / a), a);
  }

  /** Distinct multiples are at least one step apart. */
  lemma MultiplesApart(m: int, n: int, a: int)
    requires a > 0 && m % a == 0 && n % a == 0 && m < n
    ensures m + a <= n
  {
    var p, q := m / a, n / a;
    assert m == p * a && n == q * a;
    if p < q {
      MulStep(p, q, a);
    }
  }

  /** A remainder by a multiple of the step keeps its place in the step. */
  lemma ModOfMultiple(x: int, size: int, a: int)
    requires a > 0 && size > 0 && size % a == 0 && x % a == 0
    ensures x % size % a == 0
  {
    var q := x / size;
    assert x % size == x + (-q) * size;
    ScaledMultiple(-q, size, a);
    SumOfMultiples(x, -q * size, a);
  }
}
