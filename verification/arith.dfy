/** Facts about Euclidean division shared by the hash and the byte layouts. */
module Arith {
  lemma {:induction false} MulAtLeast(d: int, n: int)
    requires d >= 1 && n > 0
    ensures d * n >= n
  {
    if d > 1 {
      MulAtLeast(d - 1, n);
      assert d * n == (d - 1) * n + n;
    }
  }

  /** Multiplying by a non-negative factor keeps order. */
  lemma MulMonotone(a: int, b: int, n: int)
    requires 0 <= a <= b && n >= 0
    ensures a * n <= b * n
  {
    if a < b && n > 0 {
      MulAtLeast(b - a, n);
      assert b * n == (b - a) * n + a * n;
    }
  }

  /** Euclidean division is unique: a quotient and a remainder in range that
      reconstruct `a` are Dafny's `/` and `%`. */
  lemma ModUnique(a: int, n: int, q: int, s: int)
    requires n > 0 && a == q * n + s && 0 <= s < n
    ensures a % n == s && a / n == q
  {
    var q0 := a / n;
    var s0 := a % n;
    assert a == q0 * n + s0;
    if q0 < q {
      assert (q - q0) * n == q * n - q0 * n;
      MulAtLeast(q - q0, n);
    } else if q0 > q {
      assert (q0 - q) * n == q0 * n - q * n;
      MulAtLeast(q0 - q, n);
    }
  }
}
