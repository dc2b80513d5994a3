/** Row-major indices: flattening a pair is undone by division and remainder. */
module Indexing {

  lemma MultipleAtLeast(a: int, d: int)
    requires a >= 1 && d > 0
    ensures a * d >= d
  {
  }

  lemma DivModUnique(d: int, q: int, r: int)
    requires 0 <= r < d
    ensures (q * d + r) / d == q && (q * d + r) % d == r
  {
    var x := q * d + r;
    var q', r' := x / d, x % d;
    assert x == q' * d + r';
    assert (q - q') * d == r' - r;
    if q > q' {
      MultipleAtLeast(q - q', d);
    } else if q < q' {
      MultipleAtLeast(q' - q, d);
    }
  }

  lemma FlattenBound(d: int, q: int, r: int, n: int)
    requires 0 <= r < d && 0 <= q < n
    ensures 0 <= q * d + r < n * d
  {
    assert q * d >= 0;
    assert (n - q) * d >= d by { MultipleAtLeast(n - q, d); }
    assert (n - q) * d == n * d - q * d;
  }

  lemma UnflattenBound(d: int, k: int, n: int)
    requires d > 0 && 0 <= k < n * d
    ensures 0 <= k / d < n && 0 <= k % d < d && k == k / d * d + k % d
  {
    var q := k / d;
    assert k == q * d + k % d;
    if q >= n {
      MultipleAtLeast(q - n + 1, d);
    }
  }
}
