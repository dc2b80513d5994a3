/** How near the tail's search comes, and when its cells fit. */
module AxisTailBounds {
  import opened AxisTail
  import opened Reals

  /** The largest count of cells these bounds are stated for. */
  const MOST_CELLS: nat := 0x100_0000_0000

  // 2^79 - 1, 2^80 - 2 and 2^81
  const WIDE: real := 604462909807314587353087.0
  const FINE: real := 1208925819614629174706174.0
  const SCALE: real := 2417851639229258349412352.0

  /** The ratio the search ends on when a tail of equal cells is already long enough. */
  const LEAST_RATIO: real := 1.0 + 1.0 / SCALE

  lemma {:induction false} PowAdd(r: real, a: nat, b: nat)
    ensures Pow(r, a + b) == Pow(r, a) * Pow(r, b)
  {
    if a > 0 {
      PowAdd(r, a - 1, b);
      Regroup(r, Pow(r, a - 1), Pow(r, b));
    }
  }

  lemma Regroup(a: real, b: real, c: real)
    ensures a * (b * c) == (a * b) * c
  {
  }

  lemma EightyHalvings()
    ensures Pow(2.0, BISECTIONS) == FINE + 2.0
  {
    assert Pow(2.0, 5) == 32.0;
    PowAdd(2.0, 5, 5);
    PowAdd(2.0, 10, 10);
    PowAdd(2.0, 20, 20);
    PowAdd(2.0, 40, 40);
  }

  lemma {:induction false} LengthOfEqualCells(width: real, count: nat)
    ensures Length(width, 1.0, count) == width * (count as real)
  {
    if count > 0 {
      LengthOfEqualCells(width, count - 1);
      PowOfOne(count);
      assert width * ((count - 1) as real) + width * 1.0 == width * (count as real);
    }
  }

  lemma {:induction false} PowOfOne(k: nat)
    ensures Pow(1.0, k) == 1.0
  {
    if k > 0 {
      PowOfOne(k - 1);
    }
  }

  // ----- ratios that differ by little

  /** The larger ratio exceeds the smaller by at most one part in n. */
  ghost predicate NearRatios(low: real, ratio: real, n: real) {
    1.0 <= low <= ratio && n > 0.0 && ratio * n <= low * (n + 1.0)
  }

  lemma {:induction false} PowNear(low: real, ratio: real, n: real, k: nat)
    requires NearRatios(low, ratio, n) && 2.0 * (k as real) <= n
    ensures Pow(ratio, k) * n <= Pow(low, k) * (n + 2.0 * (k as real))
  {
    if k > 0 {
      PowNear(low, ratio, n, k - 1);
      PowAtLeastOne(low, k - 1);
      NearStep(low, ratio, n, (k - 1) as real, Pow(low, k - 1), Pow(ratio, k - 1));
    }
  }

  lemma NearStep(low: real, ratio: real, n: real, k: real, p: real, q: real)
    requires NearRatios(low, ratio, n) && 0.0 <= 2.0 * k <= n && p >= 1.0
    requires q * n <= p * (n + 2.0 * k)
    ensures (ratio * q) * n <= (low * p) * (n + 2.0 * (k + 1.0))
  {
    var m := n + 2.0 * k;
    Scaled(ratio, q * n, p * m);
    RatioStep(low, ratio, n, k);
    Scaled(p, ratio * m, low * (n + 2.0 * (k + 1.0)));
    assert (ratio * q) * n == ratio * (q * n);
    assert ratio * (p * m) == p * (ratio * m);
    assert p * (low * (n + 2.0 * (k + 1.0))) == (low * p) * (n + 2.0 * (k + 1.0));
  }

  /** The ratio's excess times n, and times 2k, is at most the smaller ratio. */
  lemma RatioStep(low: real, ratio: real, n: real, k: real)
    requires NearRatios(low, ratio, n) && 0.0 <= 2.0 * k <= n
    ensures ratio * (n + 2.0 * k) <= low * (n + 2.0 * (k + 1.0))
  {
    var e := ratio - low;
    assert e * n <= low by {
      assert ratio * n == low * n + e * n;
      assert low * (n + 1.0) == low * n + low;
    }
    assert e * (2.0 * k) <= e * n by {
      Scaled(e, 2.0 * k, n);
    }
    assert ratio * (n + 2.0 * k) == low * n + low * (2.0 * k) + e * n + e * (2.0 * k);
    assert low * (n + 2.0 * (k + 1.0)) == low * n + low * (2.0 * k) + 2.0 * low;
  }

  lemma {:induction false} LengthNear(width: real, low: real, ratio: real, n: real, count: nat, m: real)
    requires width > 0.0 && NearRatios(low, ratio, n) && 2.0 * (count as real) <= n && n + 2.0 * (count as real) <= m
    ensures Length(width, ratio, count) * n <= Length(width, low, count) * m
  {
    if count > 0 {
      LengthNear(width, low, ratio, n, count - 1, m);
      PowNear(low, ratio, n, count);
      PowAtLeastOne(low, count);
      AddNear(width, Length(width, low, count - 1), Length(width, ratio, count - 1), Pow(low, count), Pow(ratio, count),
              n, count as real, m, Length(width, low, count), Length(width, ratio, count));
    } else {
      assert Length(width, ratio, 0) == 0.0 == Length(width, low, 0);
    }
  }

  lemma AddNear(width: real, sum: real, longer: real, p: real, q: real, n: real, k: real, m: real, sum': real,
                longer': real)
    requires width > 0.0 && p >= 1.0 && n + 2.0 * k <= m
    requires longer * n <= sum * m && q * n <= p * (n + 2.0 * k)
    requires longer' == longer + width * q && sum' == sum + width * p
    ensures longer' * n <= sum' * m
  {
    Scaled(p, n + 2.0 * k, m);
    Scaled(width, q * n, p * m);
    AddTerms(longer, width, q, n);
    AddTerms(sum, width, p, m);
  }

  lemma AddTerms(sum: real, width: real, p: real, n: real)
    ensures (sum + width * p) * n == sum * n + width * (p * n)
  {
  }

  /** Without its last cell the longer tail exceeds the shorter by less than one cell, on up to 2^40 cells. */
  lemma {:induction false} SumNear(width: real, low: real, ratio: real, n: real, count: nat)
    requires width > 0.0 && NearRatios(low, ratio, n) && 2.0 * (count as real) <= n
    ensures Length(width, ratio, count) * n
            <= Length(width, low, count) * n + (width * Pow(low, count)) * ((count * (count + 1)) as real)
  {
    if count > 0 {
      SumNear(width, low, ratio, n, count - 1);
      PowNear(low, ratio, n, count);
      PowRises(low, count);
      Triangular(count);
      AddCells(width, Length(width, low, count - 1), Length(width, ratio, count - 1), Pow(low, count - 1),
               Pow(low, count), Pow(ratio, count), n, count as real, ((count - 1) * count) as real);
    } else {
      assert Length(width, ratio, 0) == 0.0 == Length(width, low, 0);
    }
  }

  lemma PowRises(low: real, count: nat)
    requires low >= 1.0 && count > 0
    ensures 1.0 <= Pow(low, count - 1) <= Pow(low, count)
  {
    PowAtLeastOne(low, count - 1);
    Product(1.0, low, Pow(low, count - 1), Pow(low, count - 1));
  }

  lemma AddCells(width: real, sum: real, longer: real, before: real, p: real, q: real, n: real, k: real, t: real)
    requires width > 0.0 && 0.0 <= before <= p && t >= 0.0
    requires longer * n <= sum * n + (width * before) * t && q * n <= p * (n + 2.0 * k)
    ensures (longer + width * q) * n <= (sum + width * p) * n + (width * p) * (t + 2.0 * k)
  {
    Scaled(width, before, p);
    Scaled(t, width * before, width * p);
    Scaled(width, q * n, p * (n + 2.0 * k));
    AddTerms(longer, width, q, n);
    AddTerms(sum, width, p, n);
    Distribute(width, p, n, k, t);
  }

  lemma Triangular(count: nat)
    requires count > 0
    ensures (count * (count + 1)) as real == ((count - 1) * count) as real + 2.0 * (count as real)
  {
    assert count * (count + 1) == (count - 1) * count + 2 * count;
  }

  lemma Distribute(width: real, p: real, n: real, k: real, t: real)
    ensures width * (p * (n + 2.0 * k)) + (width * p) * t == width * (p * n) + (width * p) * (t + 2.0 * k)
  {
    assert width * (p * (n + 2.0 * k)) == (width * p) * n + (width * p) * (2.0 * k);
    assert width * (p * n) == (width * p) * n;
  }

  lemma ShorterFits(width: real, low: real, ratio: real, count: nat)
    requires width > 0.0 && NearRatios(low, ratio, FINE) && 0 < count <= MOST_CELLS
    ensures Length(width, ratio, count - 1) <= Length(width, low, count)
  {
    var p, q := Pow(low, count - 1), Pow(low, count);
    SumNear(width, low, ratio, FINE, count - 1);
    PowRises(low, count);
    Product(width, width, p, q);
    CellPairs(count);
    Product(width * p, width * q, ((count - 1) * count) as real, FINE);
    Divide(Length(width, ratio, count - 1), Length(width, low, count - 1) + width * q, FINE);
  }

  lemma CellPairs(count: nat)
    requires 0 < count <= MOST_CELLS
    ensures 0.0 <= ((count - 1) * count) as real <= FINE
  {
    Pairs(count - 1, count, MOST_CELLS - 1, MOST_CELLS);
    assert (MOST_CELLS - 1) * MOST_CELLS == 1208925819614629174706176 - 1099511627776;
    assert ((count - 1) * count) as real <= 1208925819614629174706176.0 - 1099511627776.0;
  }

  lemma Pairs(a: nat, b: nat, c: nat, d: nat)
    requires a <= c && b <= d
    ensures a * b <= c * d
  {
    assert a * b <= c * b <= c * d;
  }

  lemma Divide(a: real, b: real, n: real)
    requires n > 0.0 && a * n <= b * n
    ensures a <= b
  {
  }

  // ----- where the search ends

  /** The search's final ratio is near the bracket's lower end, and so is its upper end. */
  lemma SearchNear(length: real, width: real, count: nat, low: real, high: real, top: real)
    requires width > 0.0 && count > 0 && InBracket(RatioOf(length, width, count), length, width, count, low, high, top)
    ensures NearRatios(low, high, WIDE) && NearRatios(low, RatioOf(length, width, count), FINE)
  {
    EightyHalvings();
    if top > 2.0 && high < top / 2.0 {
      LengthMonotone(width, high, top / 2.0, count);
    }
    assert high >= top / 2.0;
    var gap := high - low;
    assert gap * (FINE + 2.0) <= 2.0 * high;
    assert gap * WIDE <= low;
    assert high * WIDE == low * WIDE + gap * WIDE;
    assert (gap / 2.0) * FINE <= low;
    assert (low + gap / 2.0) * FINE == low * FINE + (gap / 2.0) * FINE;
  }

  /** When equal cells are long enough already, the search ends on the least ratio it can reach. */
  lemma LeastRatio(length: real, width: real, count: nat)
    requires width > 0.0 && count > 0 && width * (count as real) >= length
    ensures RatioOf(length, width, count) == LEAST_RATIO
  {
    var low, high, top := RatioBracketed(length, width, count);
    LengthOfEqualCells(width, count);
    EightyHalvings();
    if top > 2.0 {
      LengthMonotone(width, 1.0, top / 2.0, count);
    }
    assert (high - 1.0) * (FINE + 2.0) == 1.0;
    assert high - 1.0 == 2.0 / SCALE;
  }

  lemma LeastIsNear()
    ensures NearRatios(1.0, LEAST_RATIO, FINE)
  {
    assert (1.0 / SCALE) * FINE <= 1.0;
  }

  /** Whether the order check can pass on one side is a matter of the caller's data alone: without its last cell, a tail
      of the least ratio must be shorter than the stretch. */
  lemma SideFitsExactly(length: real, width: real, count: nat)
    requires width > 0.0 && 0 < count <= MOST_CELLS
    ensures Length(width, RatioOf(length, width, count), count - 1) < length
            <==> Length(width, LEAST_RATIO, count - 1) < length
  {
    if width * (count as real) >= length {
      LeastRatio(length, width, count);
    } else {
      var low, high, top := RatioBracketed(length, width, count);
      LengthOfEqualCells(width, count);
      SearchNear(length, width, count, low, high, top);
      ShorterFits(width, low, RatioOf(length, width, count), count);
      LeastIsNear();
      ShorterFits(width, 1.0, LEAST_RATIO, count);
    }
  }

  /** The check at the end of the search passes whenever equal cells fall short of the stretch and the stretch is not so
      long that eighty halvings cannot resolve the tolerance. */
  lemma LongStretchMeets(length: real, width: real, count: nat)
    requires width > 0.0 && 0 < count <= MOST_CELLS && width * (count as real) < length
    requires length * (2.0 * (count as real)) <= CHECK * WIDE
    ensures Meets(length, width, count)
  {
    var low, high, top := RatioBracketed(length, width, count);
    var ratio, k := RatioOf(length, width, count), 2.0 * (count as real);
    LengthOfEqualCells(width, count);
    SearchNear(length, width, count, low, high, top);
    LengthMonotone(width, 1.0, low, count);
    LengthMonotone(width, low, ratio, count);
    LengthMonotone(width, ratio, high, count);
    LengthNear(width, low, high, WIDE, count, WIDE + k);
    Error(Length(width, low, count), Length(width, high, count), length, k);
  }

  lemma Error(shorter: real, longer: real, length: real, k: real)
    requires 0.0 <= shorter < length <= longer && k > 0.0 && length * k <= CHECK * WIDE
    requires longer * WIDE <= shorter * (WIDE + k)
    ensures longer - shorter < CHECK
  {
    assert (longer - shorter) * WIDE <= shorter * k < length * k;
    if longer - shorter >= CHECK {
      Scaled(WIDE, CHECK, longer - shorter);
    }
  }

  /** Otherwise it passes exactly when the tail of the least ratio is not too long. */
  lemma ShortStretchMeetsExactly(length: real, width: real, count: nat)
    requires width > 0.0 && count > 0 && width * (count as real) >= length
    ensures Meets(length, width, count) <==> Length(width, LEAST_RATIO, count) < length + CHECK
  {
    LeastRatio(length, width, count);
    LengthOfEqualCells(width, count);
    LengthMonotone(width, 1.0, LEAST_RATIO, count);
  }
}
