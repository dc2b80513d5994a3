/** Locating a coordinate between two cell centres. */
module Brackets {
  import opened Options
  import opened SamplingKernel

  ghost predicate Increasing(c: seq<real>) {
    forall i, j :: 0 <= i < j < |c| ==> c[i] < c[j]
  }

  /** The first position not below the target, found by halving. */
  method LowerBound(c: seq<real>, target: real) returns (found: nat)
    requires Increasing(c)
    ensures found <= |c|
    ensures forall i :: 0 <= i < |c| ==> (c[i] < target <==> i < found)
  {
    var low, high := 0, |c|;
    while low < high
      invariant 0 <= low <= high <= |c|
      invariant forall i :: 0 <= i < low ==> c[i] < target
      invariant forall i :: high <= i < |c| ==> target <= c[i]
    {
      var middle := (low + high) / 2;
      if c[middle] < target {
        low := middle + 1;
      } else {
        high := middle;
      }
    }
    found := low;
  }

  /** Succeeds exactly inside the range of centres, and interpolation between the bracketing centres with the
      returned weight reproduces the target. */
  method FindBracket(c: seq<real>, target: real) returns (r: Option<Bracket>)
    requires Increasing(c)
    ensures r.Some? <==> |c| > 0 && c[0] <= target <= c[|c| - 1]
    ensures r.Some? ==> ValidBracket(r.value, |c|) && r.value.upper <= r.value.lower + 1
    ensures r.Some? ==>
              (1.0 - r.value.upperWeight) * c[r.value.lower] + r.value.upperWeight * c[r.value.upper] == target
    ensures r.Some? && r.value.lower == r.value.upper ==> r.value.upperWeight == 0.0
    ensures r.Some? && r.value.lower < r.value.upper ==> c[r.value.lower] < target < c[r.value.upper]
  {
    if |c| == 0 || target < c[0] || target > c[|c| - 1] {
      return None;
    }
    var found := LowerBound(c, target);
    if found < |c| && c[found] == target {
      return Some(Bracket(found, found, 0.0));
    }
    if found == 0 || found == |c| {
      return None;
    }
    var upper, lower := found, found - 1;
    var width := c[upper] - c[lower];
    var weight := (target - c[lower]) / width;
    WeightInterpolates(c[lower], c[upper], target);
    r := Some(Bracket(lower, upper, weight));
  }

  lemma WeightInterpolates(a: real, b: real, t: real)
    requires a < t < b
    ensures var w := (t - a) / (b - a); 0.0 <= w <= 1.0 && (1.0 - w) * a + w * b == t
  {
    var w := (t - a) / (b - a);
    assert w * (b - a) == t - a;
    assert (1.0 - w) * a + w * b == a + w * (b - a);
    assert w >= 0.0;
    assert (1.0 - w) * (b - a) == b - t;
    if w > 1.0 {
      NegativeProduct(1.0 - w, b - a);
    }
  }

  lemma NegativeProduct(x: real, y: real)
    requires x < 0.0 && y > 0.0
    ensures x * y < 0.0
  {
  }
}
