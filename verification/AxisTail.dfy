/** The geometric tail of a coarsened axis. */
module AxisTail {
  import opened Options
  import opened Reals

  const CHECK: real := 0.000000000001
  const BISECTIONS: nat := 80

  function Pow(r: real, k: nat): real {
    if k == 0 then 1.0 else r * Pow(r, k - 1)
  }

  /** width * r + width * r^2 + ... + width * r^count. */
  function Length(width: real, r: real, count: nat): real {
    if count == 0 then 0.0 else Length(width, r, count - 1) + width * Pow(r, count)
  }

  method Power(r: real, k: nat) returns (p: real)
    ensures p == Pow(r, k)
  {
    p := 1.0;
    var i := 0;
    while i < k
      invariant 0 <= i <= k && p == Pow(r, i)
    {
      p := r * p;
      i := i + 1;
    }
  }

  /** The widths of the tail's cells, from the core outwards, and their sum. */
  method Widths(width: real, r: real, count: nat) returns (widths: seq<real>, sum: real)
    ensures |widths| == count && sum == Length(width, r, count)
    ensures forall k :: 0 <= k < count ==> widths[k] == width * Pow(r, k + 1)
  {
    widths, sum := [], 0.0;
    var k := 0;
    while k < count
      invariant 0 <= k <= count == |widths| + (count - k) && sum == Length(width, r, k)
      invariant forall j :: 0 <= j < k ==> widths[j] == width * Pow(r, j + 1)
    {
      var p := Power(r, k + 1);
      widths, sum := widths + [width * p], sum + width * p;
      k := k + 1;
    }
  }

  lemma Product(a: real, b: real, c: real, d: real)
    requires 0.0 <= a <= b && 0.0 <= c <= d
    ensures 0.0 <= a * c <= b * d
  {
    assert a * c <= b * c <= b * d;
  }

  lemma {:induction false} PowAtLeastOne(r: real, k: nat)
    requires r >= 1.0
    ensures Pow(r, k) >= 1.0
  {
    if k > 0 {
      PowAtLeastOne(r, k - 1);
      Product(1.0, r, 1.0, Pow(r, k - 1));
    }
  }

  lemma {:induction false} PowMonotone(r: real, s: real, k: nat)
    requires 0.0 <= r <= s
    ensures 0.0 <= Pow(r, k) <= Pow(s, k)
  {
    if k > 0 {
      PowMonotone(r, s, k - 1);
      Product(r, s, Pow(r, k - 1), Pow(s, k - 1));
    }
  }

  lemma {:induction false} LengthMonotone(width: real, r: real, s: real, count: nat)
    requires width >= 0.0 && 0.0 <= r <= s
    ensures 0.0 <= Length(width, r, count) <= Length(width, s, count)
  {
    if count > 0 {
      LengthMonotone(width, r, s, count - 1);
      PowMonotone(r, s, count);
      Product(width, width, Pow(r, count), Pow(s, count));
    }
  }

  /** The first cell alone is as long as its width times the ratio. */
  lemma {:induction false} LengthAtLeast(width: real, r: real, count: nat)
    requires width > 0.0 && r >= 1.0 && count > 0
    ensures Length(width, r, count) >= width * r
  {
    if count == 1 {
      assert Pow(r, 1) == r * Pow(r, 0);
      assert Length(width, r, 1) == Length(width, r, 0) + width * Pow(r, 1);
    } else {
      LengthAtLeast(width, r, count - 1);
      PowAtLeastOne(r, count);
      Product(width, width, 1.0, Pow(r, count));
    }
  }

  lemma Quotient(width: real, high: real, length: real)
    requires width > 0.0 && width * high < length
    ensures high < length / width
  {
    var q := length / width;
    assert width * q == length;
    if high >= q {
      Scaled(width, q, high);
    }
  }

  /** The first of high, 2 high, 4 high, ... whose tail is long enough. */
  function Doubled(length: real, width: real, count: nat, high: real): real
    requires width > 0.0 && count > 0 && high >= 2.0
    decreases (length / width).Floor - high.Floor
  {
    if Length(width, high, count) >= length then high
    else
      LengthAtLeast(width, high, count);
      Quotient(width, high, length);
      Doubled(length, width, count, high * 2.0)
  }

  /** Doubling ends: the length is at least width times ratio. */
  method Bracket(length: real, width: real, count: nat) returns (high: real)
    requires width > 0.0 && count > 0
    ensures high == Doubled(length, width, count, 2.0)
    ensures high >= 2.0 && Length(width, high, count) >= length
    ensures high == 2.0 || Length(width, high / 2.0, count) < length
  {
    high := 2.0;
    var widths, sum := Widths(width, high, count);
    while sum < length
      invariant high >= 2.0 && sum == Length(width, high, count)
      invariant Doubled(length, width, count, high) == Doubled(length, width, count, 2.0)
      invariant high == 2.0 || Length(width, high / 2.0, count) < length
      decreases (length / width).Floor - high.Floor
    {
      LengthAtLeast(width, high, count);
      Quotient(width, high, length);
      high := high * 2.0;
      widths, sum := Widths(width, high, count);
    }
  }

  lemma {:induction false} DoubledLong(length: real, width: real, count: nat, high: real)
    requires width > 0.0 && count > 0 && high >= 2.0
    requires high == 2.0 || Length(width, high / 2.0, count) < length
    ensures var top := Doubled(length, width, count, high);
            && top >= 2.0 && Length(width, top, count) >= length
            && (top == 2.0 || Length(width, top / 2.0, count) < length)
    decreases (length / width).Floor - high.Floor
  {
    if Length(width, high, count) < length {
      LengthAtLeast(width, high, count);
      Quotient(width, high, length);
      DoubledLong(length, width, count, high * 2.0);
    }
  }

  /** The bracket: the length is passed between the two ratios, which are this far apart. */
  ghost predicate Brackets(length: real, width: real, count: nat, low: real, high: real, gap: real, halvings: nat) {
    && 1.0 <= low <= high && Length(width, high, count) >= length
    && (if Length(width, 1.0, count) < length then Length(width, low, count) < length else low == 1.0)
    && (high - low) * Pow(2.0, halvings) == gap
  }

  /** The bracket after some more bisections. */
  function Narrowed(length: real, width: real, count: nat, low: real, high: real, halvings: nat): (real, real)
    decreases halvings
  {
    if halvings == 0 then (low, high)
    else
      var ratio := (low + high) / 2.0;
      if Length(width, ratio, count) < length then Narrowed(length, width, count, ratio, high, halvings - 1)
      else Narrowed(length, width, count, low, ratio, halvings - 1)
  }

  /** Eighty bisections keep the bracket and halve it every time. */
  method Bisect(length: real, width: real, count: nat, top: real) returns (low: real, high: real)
    requires width > 0.0 && count > 0 && top >= 2.0 && Length(width, top, count) >= length
    ensures (low, high) == Narrowed(length, width, count, 1.0, top, BISECTIONS)
    ensures Brackets(length, width, count, low, high, top - 1.0, BISECTIONS)
  {
    low, high := 1.0, top;
    var n := 0;
    while n < BISECTIONS
      invariant 0 <= n <= BISECTIONS && Brackets(length, width, count, low, high, top - 1.0, n)
      invariant Narrowed(length, width, count, low, high, BISECTIONS - n)
                == Narrowed(length, width, count, 1.0, top, BISECTIONS)
    {
      var ratio := (low + high) / 2.0;
      var widths, sum := Widths(width, ratio, count);
      BracketStep(length, width, count, low, high, top - 1.0, n);
      if sum < length {
        low := ratio;
      } else {
        high := ratio;
      }
      n := n + 1;
    }
  }

  lemma BracketStep(length: real, width: real, count: nat, low: real, high: real, gap: real, n: nat)
    requires width > 0.0 && Brackets(length, width, count, low, high, gap, n)
    ensures var ratio := (low + high) / 2.0;
            if Length(width, ratio, count) < length then Brackets(length, width, count, ratio, high, gap, n + 1)
            else Brackets(length, width, count, low, ratio, gap, n + 1)
  {
    var ratio := (low + high) / 2.0;
    Halved(low, high, ratio, n);
    LengthMonotone(width, 1.0, ratio, count);
  }

  lemma {:induction false} NarrowedBrackets(length: real, width: real, count: nat, low: real, high: real, gap: real,
                                            n: nat, halvings: nat)
    requires width > 0.0 && Brackets(length, width, count, low, high, gap, n)
    ensures var bracket := Narrowed(length, width, count, low, high, halvings);
            Brackets(length, width, count, bracket.0, bracket.1, gap, n + halvings)
    decreases halvings
  {
    if halvings > 0 {
      var ratio := (low + high) / 2.0;
      BracketStep(length, width, count, low, high, gap, n);
      if Length(width, ratio, count) < length {
        NarrowedBrackets(length, width, count, ratio, high, gap, n + 1, halvings - 1);
      } else {
        NarrowedBrackets(length, width, count, low, ratio, gap, n + 1, halvings - 1);
      }
    }
  }

  lemma Halved(low: real, high: real, ratio: real, n: nat)
    requires ratio == (low + high) / 2.0
    ensures (high - ratio) * Pow(2.0, n + 1) == (high - low) * Pow(2.0, n)
    ensures (ratio - low) * Pow(2.0, n + 1) == (high - low) * Pow(2.0, n)
  {
    var p := Pow(2.0, n);
    assert Pow(2.0, n + 1) == 2.0 * p;
    assert (high - ratio) * (2.0 * p) == (2.0 * (high - ratio)) * p;
    assert (ratio - low) * (2.0 * p) == (2.0 * (ratio - low)) * p;
  }

  datatype Tail = Tail(widths: seq<real>, ratio: real)

  /** A tail that passed its own check: geometric widths whose sum agrees with the length. */
  ghost predicate Geometric(t: Tail, length: real, width: real, count: nat) {
    && |t.widths| == count && t.ratio >= 1.0
    && (forall k :: 0 <= k < count ==> t.widths[k] == width * Pow(t.ratio, k + 1))
    && -CHECK < Length(width, t.ratio, count) - length < CHECK
  }

  /** The ratio the search ends on. */
  function RatioOf(length: real, width: real, count: nat): real
    requires width > 0.0 && count > 0
  {
    var bracket := Narrowed(length, width, count, 1.0, Doubled(length, width, count, 2.0), BISECTIONS);
    (bracket.0 + bracket.1) / 2.0
  }

  /** The final check: the tail's length is off by less than the tolerance. */
  predicate Meets(length: real, width: real, count: nat)
    requires width > 0.0 && count > 0
  {
    -CHECK < Length(width, RatioOf(length, width, count), count) - length < CHECK
  }

  /** A tail the search returns. */
  ghost predicate FoundTail(t: Tail, length: real, width: real, count: nat) {
    width > 0.0 && count > 0 && Geometric(t, length, width, count) && t.ratio == RatioOf(length, width, count)
  }

  /** The whole search; the final assertion of the source is the only way it fails. */
  method FindTail(length: real, width: real, count: nat) returns (t: Option<Tail>)
    requires width > 0.0 && count > 0
    ensures t.Some? <==> Meets(length, width, count)
    ensures t.Some? ==> FoundTail(t.value, length, width, count)
  {
    var top := Bracket(length, width, count);
    var low, high := Bisect(length, width, count, top);
    var ratio := (low + high) / 2.0;
    var widths, sum := Widths(width, ratio, count);
    if !(-CHECK < sum - length < CHECK) {
      return None;
    }
    t := Some(Tail(widths, ratio));
  }

  ghost predicate InBracket(ratio: real, length: real, width: real, count: nat, low: real, high: real, top: real) {
    && ratio == (low + high) / 2.0 && Brackets(length, width, count, low, high, top - 1.0, BISECTIONS)
    && top >= 2.0 && (top == 2.0 || Length(width, top / 2.0, count) < length)
  }

  lemma RatioBracketed(length: real, width: real, count: nat) returns (low: real, high: real, top: real)
    requires width > 0.0 && count > 0
    ensures InBracket(RatioOf(length, width, count), length, width, count, low, high, top)
  {
    DoubledLong(length, width, count, 2.0);
    top := Doubled(length, width, count, 2.0);
    var bracket := Narrowed(length, width, count, 1.0, top, BISECTIONS);
    assert (top - 1.0) * Pow(2.0, 0) == top - 1.0;
    NarrowedBrackets(length, width, count, 1.0, top, top - 1.0, 0, BISECTIONS);
    low, high := bracket.0, bracket.1;
  }

  /** A bracketed ratio is as near to an exact one as half the final bracket: any ratio from one on whose length is
      exactly right lies in the bracket. */
  lemma ExactRatioNear(ratio: real, length: real, width: real, count: nat, low: real, high: real, top: real, r: real)
    requires width > 0.0 && count > 0 && InBracket(ratio, length, width, count, low, high, top)
    requires Length(width, 1.0, count) < length && Length(width, r, count) == length && r >= 1.0
    ensures low < r
    ensures r <= high || Length(width, high, count) == length
    ensures r <= high ==> -(high - low) <= 2.0 * (ratio - r) <= high - low
  {
    if r <= low {
      LengthMonotone(width, r, low, count);
    }
    if high < r {
      LengthMonotone(width, high, r, count);
    }
  }
}
