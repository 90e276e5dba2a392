/** Optional values, results that may be errors, 64-bit integers, and division. */
module Common {
  datatype Option<+T> = None | Some(value: T)

  datatype Result<+R, +E> = Success(value: R) | Failure(error: E)

  const TWO63: int := 0x8000_0000_0000_0000
  const TWO64: int := 0x1_0000_0000_0000_0000
  const MIN_INT64: int := -TWO63
  const MAX_INT64: int := TWO63 - 1

  predicate IsInt64(x: int) {
    MIN_INT64 <= x <= MAX_INT64
  }

  /** Two's-complement wrap-around of 64-bit arithmetic. */
  function Wrap(x: int): (r: int)
    ensures IsInt64(r)
    ensures IsInt64(x) ==> r == x
    ensures (r - x) % TWO64 == 0
  {
    (x - MIN_INT64) % TWO64 + MIN_INT64
  }

  // --- Division ---

  lemma ModOf(q: int, r: nat, n: nat)
    requires r < n
    ensures (q * n + r) % n == r && (q * n + r) / n == q
  {
    var x := q * n + r;
    assert x == (x / n) * n + x % n;
    assert (x / n - q) * n == r - x % n;
    Squeeze(x / n - q, n, r - x % n);
  }

  lemma Squeeze(k: int, n: int, d: int)
    requires k * n == d && -n < d < n
    ensures k == 0
  {
    AtLeastOnce(k, n);
    AtLeastOnce(-k, n);
  }

  lemma AtLeastOnce(k: int, n: int)
    requires n > 0
    ensures k >= 1 ==> k * n >= n
  {
    assert k * n == n + (k - 1) * n;
  }
}
