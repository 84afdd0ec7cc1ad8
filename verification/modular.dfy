/** Facts about remainders by a positive modulus, used to follow a cyclic index. */
module Modular {
  /** If k = q * m + r with 0 <= r < m, then r is the remainder of k by m. */
  lemma ModUnique(k: int, m: int, q: int, r: int)
    requires m > 0 && 0 <= r < m && k == q * m + r
    ensures k % m == r
  {
    var q', r' := k / m, k % m;
    assert k == q' * m + r';
    assert (q - q') * m == r' - r;
    if q - q' >= 1 {
      MulAtLeast(q - q', m);
    } else if q' - q >= 1 {
      MulAtLeast(q' - q, m);
    }
    assert q == q';
  }

  lemma {:induction false} MulAtLeast(a: int, m: int)
    requires a >= 1 && m > 0
    ensures a * m >= m
  {
    assert a * m == (a - 1) * m + m;
    if a > 1 {
      MulAtLeast(a - 1, m);
    }
  }

  /** Taking the remainder before or after adding one lands on the same index. */
  lemma SuccessorMod(k: int, m: int)
    requires k >= 0 && m > 0
    ensures ((k % m) + 1) % m == (k + 1) % m
  {
    var q, r := k / m, k % m;
    assert k == q * m + r;
    if r + 1 < m {
      ModUnique(k + 1, m, q, r + 1);
      ModUnique(r + 1, m, 0, r + 1);
    } else {
      assert k + 1 == (q + 1) * m + 0;
      ModUnique(k + 1, m, q + 1, 0);
      ModUnique(r + 1, m, 1, 0);
    }
  }

  /** Adding the modulus does not change the remainder. */
  lemma AddModulus(r: int, m: int)
    requires 0 <= r < m
    ensures (r + m) % m == r
  {
    ModUnique(r + m, m, 1, r);
  }
}
