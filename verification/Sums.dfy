/** Finite sums of reals, the arithmetic behind every conservation claim here. */
module Sums {

  /** f(0) + ... + f(n - 1). */
  ghost function Sum(n: nat, f: int -> real): real
  {
    if n == 0 then 0.0 else Sum(n - 1, f) + f(n - 1)
  }

  lemma {:induction false} SumCongruent(n: nat, f: int -> real, g: int -> real)
    requires forall i :: 0 <= i < n ==> f(i) == g(i)
    ensures Sum(n, f) == Sum(n, g)
  {
    if n > 0 {
      SumCongruent(n - 1, f, g);
      assert f(n - 1) == g(n - 1);
    }
  }

  lemma {:induction false} SumPlus(n: nat, f: int -> real, g: int -> real)
    ensures Sum(n, i => f(i) + g(i)) == Sum(n, f) + Sum(n, g)
  {
    if n > 0 {
      SumPlus(n - 1, f, g);
    }
  }

  lemma {:induction false} SumScale(n: nat, c: real, f: int -> real)
    ensures Sum(n, i => c * f(i)) == c * Sum(n, f)
  {
    if n > 0 {
      SumScale(n - 1, c, f);
    }
  }

  lemma {:induction false} SumZero(n: nat, f: int -> real)
    requires forall i :: 0 <= i < n ==> f(i) == 0.0
    ensures Sum(n, f) == 0.0
  {
    if n > 0 {
      SumZero(n - 1, f);
      assert f(n - 1) == 0.0;
    }
  }

  lemma {:induction false} SumNonNegative(n: nat, f: int -> real)
    requires forall i :: 0 <= i < n ==> f(i) >= 0.0
    ensures Sum(n, f) >= 0.0
  {
    if n > 0 {
      SumNonNegative(n - 1, f);
      assert f(n - 1) >= 0.0;
    }
  }

  /** A sum with one possibly nonzero term. */
  lemma {:induction false} SumSingle(n: nat, k: nat, f: int -> real)
    requires k < n
    requires forall i :: 0 <= i < n && i != k ==> f(i) == 0.0
    ensures Sum(n, f) == f(k)
  {
    if k == n - 1 {
      SumZero(n - 1, f);
    } else {
      SumSingle(n - 1, k, f);
      assert f(n - 1) == 0.0;
    }
  }

  /** A window [b, b + c) of [0, n): summing it directly or through an indicator is the same. */
  lemma {:induction false} SumWindow(n: nat, b: nat, c: nat, f: int -> real)
    requires b + c <= n
    ensures Sum(c, i => f(b + i)) == Sum(n, i => if b <= i < b + c then f(i) else 0.0)
  {
    var h := (i: int) => if b <= i < b + c then f(i) else 0.0;
    if n > b + c {
      SumWindow(n - 1, b, c, f);
    } else if c > 0 {
      SumWindow(n - 1, b, c - 1, f);
      var h' := (i: int) => if b <= i < b + (c - 1) then f(i) else 0.0;
      SumCongruent(n - 1, h, h');
    } else {
      SumZero(n, h);
    }
  }

  /** Interchanging the order of a double sum. */
  lemma {:induction false} SumSwap(n: nat, m: nat, f: (int, int) -> real)
    ensures Sum(n, i => Sum(m, j => f(i, j))) == Sum(m, j => Sum(n, i => f(i, j)))
  {
    if n == 0 {
      SumZero(m, j => Sum(n, i => f(i, j)));
    } else {
      SumSwap(n - 1, m, f);
      var rest := (j: int) => Sum(n - 1, i => f(i, j));
      var last := (j: int) => f(n - 1, j);
      SumPlus(m, rest, last);
      SumCongruent(m, j => rest(j) + last(j), j => Sum(n, i => f(i, j)));
      SumCongruent(m, j => Sum(n - 1, i => f(i, j)), rest);
      SumCongruent(m, last, j => f(n - 1, j));
    }
  }

  /** If for every j the parts over i add up to whole(j), so do the row totals over i. */
  lemma SumOfParts(n: nat, m: nat, part: (int, int) -> real, rows: int -> real, whole: int -> real)
    requires forall i :: 0 <= i < n ==> rows(i) == Sum(m, j => part(i, j))
    requires forall j :: 0 <= j < m ==> Sum(n, i => part(i, j)) == whole(j)
    ensures Sum(n, rows) == Sum(m, whole)
  {
    SumCongruent(n, rows, i => Sum(m, j => part(i, j)));
    SumSwap(n, m, part);
    SumCongruent(m, j => Sum(n, i => part(i, j)), whole);
  }

  lemma SumGains(n: nat, before: int -> real, gains: int -> real, after: int -> real)
    requires forall i :: 0 <= i < n ==> after(i) == before(i) + gains(i)
    ensures Sum(n, after) == Sum(n, before) + Sum(n, gains)
  {
    SumCongruent(n, after, i => before(i) + gains(i));
    SumPlus(n, before, gains);
  }
}
