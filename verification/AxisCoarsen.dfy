/** Coarsening an axis outside its protected interval. */
module AxisCoarsen {
  import opened AxisTail
  import opened AxisTailBounds
  import opened Options

  /** The library's bisections: on any axis, a position whose node is above the value while the one before it is not,
      and one whose node is not below the value while the one before it is. */
  function SearchAbove(axis: seq<real>, v: real, low: nat, high: nat): (r: nat)
    requires low <= high <= |axis|
    ensures low <= r <= high && (r > low ==> axis[r - 1] <= v) && (r < high ==> axis[r] > v)
    decreases high - low
  {
    if low == high then low
    else
      var middle := (low + high) / 2;
      if v < axis[middle] then SearchAbove(axis, v, low, middle) else SearchAbove(axis, v, middle + 1, high)
  }

  function SearchFrom(axis: seq<real>, v: real, low: nat, high: nat): (r: nat)
    requires low <= high <= |axis|
    ensures low <= r <= high && (r > low ==> axis[r - 1] < v) && (r < high ==> axis[r] >= v)
    decreases high - low
  {
    if low == high then low
    else
      var middle := (low + high) / 2;
      if axis[middle] < v then SearchFrom(axis, v, middle + 1, high) else SearchFrom(axis, v, low, middle)
  }

  method BisectRight(axis: seq<real>, v: real) returns (low: nat)
    ensures low == SearchAbove(axis, v, 0, |axis|)
  {
    low := 0;
    var high := |axis|;
    while low < high
      invariant low <= high <= |axis| && SearchAbove(axis, v, low, high) == SearchAbove(axis, v, 0, |axis|)
    {
      var middle := (low + high) / 2;
      if v < axis[middle] {
        high := middle;
      } else {
        low := middle + 1;
      }
    }
  }

  method BisectLeft(axis: seq<real>, v: real) returns (low: nat)
    ensures low == SearchFrom(axis, v, 0, |axis|)
  {
    low := 0;
    var high := |axis|;
    while low < high
      invariant low <= high <= |axis| && SearchFrom(axis, v, low, high) == SearchFrom(axis, v, 0, |axis|)
    {
      var middle := (low + high) / 2;
      if axis[middle] < v {
        low := middle + 1;
      } else {
        high := middle;
      }
    }
  }

  datatype Tails = Tails(left: Tail, right: Tail)

  function Growth(t: Tails): real {
    if t.left.ratio < t.right.ratio then t.right.ratio else t.left.ratio
  }

  /** The stretches outside the core and the widths of the core's edge cells. */
  datatype Sides = Sides(left: real, right: real, leftWidth: real, rightWidth: real)

  function SidesOf(axis: seq<real>, core: seq<real>): Sides
    requires |axis| > 0 && |core| >= 2
  {
    Sides(core[0] - axis[0], axis[|axis| - 1] - core[|core| - 1], core[1] - core[0],
          core[|core| - 1] - core[|core| - 2])
  }

  predicate Positive(s: Sides) {
    s.leftWidth > 0.0 && s.rightWidth > 0.0
  }

  /** The two tails around the core, for one split of the remaining cells; each passed its own check. */
  ghost predicate Candidate(t: Tails, s: Sides, nleft: nat, nright: nat) {
    FoundTail(t.left, s.left, s.leftWidth, nleft) && FoundTail(t.right, s.right, s.rightWidth, nright)
  }

  predicate IsSplit(remaining: int, nleft: int) {
    2 <= nleft < remaining - 1
  }

  /** Both tails of a split meet their lengths. */
  predicate SplitMeets(s: Sides, remaining: int, nleft: int)
    requires Positive(s) && IsSplit(remaining, nleft)
  {
    Meets(s.left, s.leftWidth, nleft) && Meets(s.right, s.rightWidth, remaining - nleft)
  }

  ghost predicate AllMeet(s: Sides, remaining: int, bound: int)
    requires Positive(s) && bound <= remaining - 1
  {
    forall nleft :: 2 <= nleft < bound ==> SplitMeets(s, remaining, nleft)
  }

  function SplitGrowth(s: Sides, remaining: int, nleft: int): real
    requires Positive(s) && IsSplit(remaining, nleft)
  {
    var left, right := RatioOf(s.left, s.leftWidth, nleft), RatioOf(s.right, s.rightWidth, remaining - nleft);
    if left < right then right else left
  }

  /** The first split of least growth among those up to a bound. */
  ghost predicate Chosen(s: Sides, remaining: int, bound: int, nleft: int)
    requires Positive(s) && bound <= remaining - 1
  {
    && 2 <= nleft < bound
    && (forall k :: 2 <= k < bound ==> SplitGrowth(s, remaining, nleft) <= SplitGrowth(s, remaining, k))
    && (forall k :: 2 <= k < nleft ==> SplitGrowth(s, remaining, nleft) < SplitGrowth(s, remaining, k))
  }

  method TrySplit(s: Sides, remaining: int, nleft: nat) returns (t: Option<Tails>)
    requires Positive(s) && IsSplit(remaining, nleft)
    ensures t.Some? <==> SplitMeets(s, remaining, nleft)
    ensures t.Some? ==> Candidate(t.value, s, nleft, remaining - nleft)
  {
    t := None;
    var left := FindTail(s.left, s.leftWidth, nleft);
    if left.Some? {
      var right := FindTail(s.right, s.rightWidth, remaining - nleft);
      if right.Some? {
        t := Some(Tails(left.value, right.value));
      }
    }
  }

  /** Trying every split; the first one with the least growth wins. Any tail that fails its check ends the attempt. */
  method BestSplit(s: Sides, remaining: int) returns (best: Option<Tails>, ghost chosen: nat)
    requires Positive(s) && remaining >= 4
    ensures best.Some? <==> AllMeet(s, remaining, remaining - 1)
    ensures best.Some? ==> Chosen(s, remaining, remaining - 1, chosen)
                           && Candidate(best.value, s, chosen, remaining - chosen)
  {
    best, chosen := None, 0;
    var nleft := 2;
    while nleft < remaining - 1
      invariant 2 <= nleft <= remaining - 1 && AllMeet(s, remaining, nleft)
      invariant best.Some? <==> nleft > 2
      invariant best.Some? ==>
                  Chosen(s, remaining, nleft, chosen) && Candidate(best.value, s, chosen, remaining - chosen)
    {
      var split := TrySplit(s, remaining, nleft);
      if split == None {
        assert !SplitMeets(s, remaining, nleft);
        return None, chosen;
      }
      if best == None || Growth(split.value) < Growth(best.value) {
        best, chosen := split, nleft;
      }
      nleft := nleft + 1;
    }
  }

  // ----- laying out the nodes

  /** The distance covered by the first cells of a tail. */
  ghost function Covered(t: Tail, n: nat): real
    requires n <= |t.widths|
  {
    if n == 0 then 0.0 else Covered(t, n - 1) + t.widths[n - 1]
  }

  /** The nodes of a tail, from the core outwards, in one direction. */
  method LayTail(start: real, t: Tail, sign: real) returns (nodes: seq<real>)
    ensures |nodes| == |t.widths|
    ensures forall k :: 0 <= k < |nodes| ==> nodes[k] == start + sign * Covered(t, k + 1)
  {
    nodes := [];
    var position, k := start, 0;
    while k < |t.widths|
      invariant 0 <= k <= |t.widths| && |nodes| == k && position == start + sign * Covered(t, k)
      invariant forall j :: 0 <= j < k ==> nodes[j] == start + sign * Covered(t, j + 1)
    {
      assert sign * Covered(t, k + 1) == sign * Covered(t, k) + sign * t.widths[k];
      position := position + sign * t.widths[k];
      nodes := nodes + [position];
      k := k + 1;
    }
  }

  method Reverse(nodes: seq<real>) returns (r: seq<real>)
    ensures |r| == |nodes| && forall k :: 0 <= k < |r| ==> r[k] == nodes[|nodes| - 1 - k]
  {
    r := seq(|nodes|, k requires 0 <= k < |nodes| => nodes[|nodes| - 1 - k]);
  }

  /** The axis and its growth, or the check that refused it. */
  datatype Outcome = BadInterval | Unordered | TailMissed | OutOfOrder | Coarse(axis: seq<real>, growth: real)

  /** The coarsened axis before its checks: left tail, core, right tail, with the two ends put back exactly. */
  ghost predicate LaidOut(result: seq<real>, axis: seq<real>, core: seq<real>, t: Tails)
    requires |axis| > 0 && |core| >= 2
  {
    var l, m, r := |t.left.widths|, |core|, |t.right.widths|;
    && |result| == l + m + r && l >= 2 && r >= 2
    && result[0] == axis[0] && result[|result| - 1] == axis[|axis| - 1]
    && (forall i :: 0 < i < l ==> result[i] == core[0] + -1.0 * Covered(t.left, l - i))
    && (forall i :: l <= i < l + m ==> result[i] == core[i - l])
    && (forall i :: l + m <= i < l + m + r - 1 ==> result[i] == core[m - 1] + 1.0 * Covered(t.right, i - (l + m) + 1))
  }

  method LayOut(axis: seq<real>, core: seq<real>, t: Tails) returns (result: seq<real>)
    requires |axis| > 0 && |core| >= 2 && |t.left.widths| >= 2 && |t.right.widths| >= 2
    ensures LaidOut(result, axis, core, t)
  {
    var leftNodes := LayTail(core[0], t.left, -1.0);
    var rightNodes := LayTail(core[|core| - 1], t.right, 1.0);
    var reversed := Reverse(leftNodes);
    result := reversed + core + rightNodes;
    result := result[0 := axis[0]][|result| - 1 := axis[|axis| - 1]];
  }

  /** The last cell of either tail outweighs the tail's own error: exactly then the ends put back leave the nodes in
      order. */
  ghost predicate EndsFit(t: Tails, axis: seq<real>, core: seq<real>)
    requires |axis| > 0 && |core| >= 2 && |t.left.widths| >= 2 && |t.right.widths| >= 2
  {
    && Covered(t.left, |t.left.widths| - 1) < core[0] - axis[0]
    && Covered(t.right, |t.right.widths| - 1) < axis[|axis| - 1] - core[|core| - 1]
  }

  ghost predicate StepsUp(s: seq<real>) {
    forall i :: 0 <= i < |s| - 1 ==> s[i] < s[i + 1]
  }

  /** Exactly when the final order check passes. */
  lemma OrderedExactly(result: seq<real>, axis: seq<real>, core: seq<real>, t: Tails, nleft: nat, nright: nat)
    requires |axis| > 0 && |core| >= 2 && StepsUp(core) && nleft >= 2 && nright >= 2
    requires Candidate(t, SidesOf(axis, core), nleft, nright) && LaidOut(result, axis, core, t)
    ensures StepsUp(result) <==> EndsFit(t, axis, core)
  {
    var l, m, r := |t.left.widths|, |core|, |t.right.widths|;
    assert result[1] == core[0] + -1.0 * Covered(t.left, l - 1);
    assert result[l + m + r - 2] == core[m - 1] + 1.0 * Covered(t.right, r - 1);
    if StepsUp(result) {
      assert result[0] < result[0 + 1];
      assert result[l + m + r - 2] < result[(l + m + r - 2) + 1];
    }
    if EndsFit(t, axis, core) {
      forall i | 0 <= i < |result| - 1
        ensures result[i] < result[i + 1]
      {
        NodeStep(result, axis, core, t, nleft, nright, i);
      }
    }
  }

  lemma PositiveWidth(t: Tail, length: real, width: real, count: nat, k: nat)
    requires Geometric(t, length, width, count) && width > 0.0 && k < count
    ensures t.widths[k] >= width
  {
    PowAtLeastOne(t.ratio, k + 1);
    Product(width, width, 1.0, Pow(t.ratio, k + 1));
  }

  lemma NodeStep(result: seq<real>, axis: seq<real>, core: seq<real>, t: Tails, nleft: nat, nright: nat, i: nat)
    requires |axis| > 0 && |core| >= 2 && StepsUp(core) && nleft >= 2 && nright >= 2 && i < |result| - 1
    requires Candidate(t, SidesOf(axis, core), nleft, nright) && LaidOut(result, axis, core, t)
    requires EndsFit(t, axis, core)
    ensures result[i] < result[i + 1]
  {
    var l, m, r := |t.left.widths|, |core|, |t.right.widths|;
    assert core[0] < core[0 + 1] && core[m - 2] < core[(m - 2) + 1];
    if i == 0 {
    } else if i < l {
      var k := l - i;
      PositiveWidth(t.left, core[0] - axis[0], core[1] - core[0], nleft, k - 1);
      assert Covered(t.left, k) == Covered(t.left, k - 1) + t.left.widths[k - 1];
    } else if i < l + m - 1 {
      assert core[i - l] < core[(i - l) + 1];
    } else if i < l + m + r - 2 {
      var k := i - (l + m) + 1;
      PositiveWidth(t.right, axis[|axis| - 1] - core[m - 1], core[m - 1] - core[m - 2], nright, k);
      assert Covered(t.right, k + 1) == Covered(t.right, k) + t.right.widths[k];
    }
  }

  lemma {:induction false} CoveredIsLength(t: Tail, length: real, width: real, count: nat, n: nat)
    requires Geometric(t, length, width, count) && n <= count
    ensures Covered(t, n) == Length(width, t.ratio, n)
  {
    if n > 0 {
      CoveredIsLength(t, length, width, count, n - 1);
    }
  }

  lemma TailFits(t: Tail, length: real, width: real, count: nat)
    requires Geometric(t, length, width, count) && width > CHECK && count > 0
    ensures Covered(t, count - 1) < length
  {
    CoveredIsLength(t, length, width, count, count);
    PositiveWidth(t, length, width, count, count - 1);
    assert Covered(t, count) == Covered(t, count - 1) + t.widths[count - 1];
  }

  /** When the core's edge cells are wider than the tolerance, the ends always fit. */
  lemma WideCellsFit(t: Tails, axis: seq<real>, core: seq<real>, nleft: nat, nright: nat)
    requires |axis| > 0 && |core| >= 2 && nleft >= 2 && nright >= 2 && Candidate(t, SidesOf(axis, core), nleft, nright)
    requires core[1] - core[0] > CHECK && core[|core| - 1] - core[|core| - 2] > CHECK
    ensures EndsFit(t, axis, core)
  {
    TailFits(t.left, core[0] - axis[0], core[1] - core[0], nleft);
    TailFits(t.right, axis[|axis| - 1] - core[|core| - 1], core[|core| - 1] - core[|core| - 2], nright);
  }

  /** What the order check asks of one side, before any search: without its last cell, a tail of the least ratio is
      shorter than the stretch. */
  predicate SideFits(length: real, width: real, count: nat)
    requires count > 0
  {
    Length(width, LEAST_RATIO, count - 1) < length
  }

  predicate SplitFits(s: Sides, remaining: int, nleft: int)
    requires IsSplit(remaining, nleft)
  {
    SideFits(s.left, s.leftWidth, nleft) && SideFits(s.right, s.rightWidth, remaining - nleft)
  }

  /** The ends fit exactly when both sides of the split do. */
  lemma FitsExactly(t: Tails, axis: seq<real>, core: seq<real>, nleft: nat, nright: nat)
    requires |axis| > 0 && |core| >= 2 && 2 <= nleft <= MOST_CELLS && 2 <= nright <= MOST_CELLS
    requires Candidate(t, SidesOf(axis, core), nleft, nright)
    ensures EndsFit(t, axis, core) <==> SplitFits(SidesOf(axis, core), nleft + nright, nleft)
  {
    var s := SidesOf(axis, core);
    CoveredIsLength(t.left, s.left, s.leftWidth, nleft, nleft - 1);
    CoveredIsLength(t.right, s.right, s.rightWidth, nright, nright - 1);
    SideFitsExactly(s.left, s.leftWidth, nleft);
    SideFitsExactly(s.right, s.rightWidth, nright);
  }

  /** A stretch no longer than the core's edge cell never fits. */
  lemma ShortStretchNeverFits(length: real, width: real, count: nat)
    requires width > 0.0 && length <= width && count >= 2
    ensures !SideFits(length, width, count)
  {
    LengthAtLeast(width, LEAST_RATIO, count - 1);
    Product(width, width, 1.0, LEAST_RATIO);
  }

  /** A coarsened axis: the wanted number of cells, strictly increasing, same ends, the protected core unchanged. */
  ghost predicate Coarsened(result: seq<real>, axis: seq<real>, left: int, right: int, count: int, at: int)
    requires 0 <= left <= right < |axis|
  {
    && |result| == count + 1 > 0 && StepsUp(result)
    && result[0] == axis[0] && result[|result| - 1] == axis[|axis| - 1]
    && 0 <= at && at + (right + 1 - left) <= |result| && result[at..at + (right + 1 - left)] == axis[left..right + 1]
  }

  method CheckSteps(s: seq<real>) returns (ok: bool)
    ensures ok == StepsUp(s)
  {
    var i := 0;
    while i < |s| - 1
      invariant 0 <= i && (i <= |s| - 1 || i == 0)
      invariant forall j :: 0 <= j < i ==> s[j] < s[j + 1]
    {
      if s[i] >= s[i + 1] {
        return false;
      }
      i := i + 1;
    }
    ok := true;
  }

  /** The protected interval's first and last node: the nodes around it, with a whole cell between, and at least four
      cells left for the tails. */
  predicate Protects(axis: seq<real>, lower: real, upper: real, left: int, right: int, count: int) {
    && 0 <= left < right < |axis| && axis[left] <= lower < axis[left + 1] && axis[right - 1] < upper <= axis[right]
    && count - (right - left) >= 4
  }

  /** Where the interval's first and last protected node are looked for. */
  function FirstNode(axis: seq<real>, lower: real): int {
    SearchAbove(axis, lower, 0, |axis|) - 1
  }

  function LastNode(axis: seq<real>, upper: real): int {
    SearchFrom(axis, upper, 0, |axis|)
  }

  predicate Usable(axis: seq<real>, left: int, right: int, count: int) {
    0 <= left < right < |axis| && count - (right - left) >= 4
  }

  function Core(axis: seq<real>, left: int, right: int): seq<real>
    requires 0 <= left < right < |axis|
  {
    axis[left..right + 1]
  }

  /** The coarsener, on any axis. Where nothing usable is protected, or the protected nodes do not increase, the source
      never returns; otherwise it fails exactly at a split whose tail misses its length, and after that exactly when the
      chosen split does not fit. */
  method Coarsen(axis: seq<real>, lower: real, upper: real, count: int) returns (r: Outcome)
    ensures r.BadInterval? <==> !Usable(axis, FirstNode(axis, lower), LastNode(axis, upper), count)
    ensures !r.BadInterval? ==> OutcomeAround(axis, FirstNode(axis, lower), LastNode(axis, upper), count, r)
  {
    var above := BisectRight(axis, lower);
    var left: int := above as int - 1;
    var right := BisectLeft(axis, upper);
    if left < 0 || right >= |axis| || right <= left || count - (right - left) < 4 {
      return BadInterval;
    }
    r := CoarsenAround(axis, left, right, count);
  }

  ghost predicate OutcomeAround(axis: seq<real>, left: int, right: int, count: int, r: Outcome)
    requires Usable(axis, left, right, count)
  {
    var core, remaining := Core(axis, left, right), count - (right - left);
    var s := SidesOf(axis, core);
    && (r.Unordered? <==> !StepsUp(core))
    && (StepsUp(core) ==> EdgesPositive(core) && (r.TailMissed? <==> !AllMeet(s, remaining, remaining - 1)))
    && (r.Coarse? || r.OutOfOrder? ==>
          StepsUp(core) && EdgesPositive(core) && exists nleft ::
            Chosen(s, remaining, remaining - 1, nleft)
            && (count <= MOST_CELLS ==> (r.Coarse? <==> SplitFits(s, remaining, nleft)))
            && (r.Coarse? ==> Coarsened(r.axis, axis, left, right, count, nleft)
                              && r.growth == SplitGrowth(s, remaining, nleft)))
    && (r.OutOfOrder? ==> NarrowEdge(axis, left, right))
  }

  predicate EdgesPositive(core: seq<real>)
    requires |core| >= 2
  {
    core[0] < core[1] && core[|core| - 2] < core[|core| - 1]
  }

  lemma CoreEdges(core: seq<real>)
    requires |core| >= 2 && StepsUp(core)
    ensures EdgesPositive(core)
  {
    assert core[0] < core[0 + 1] && core[|core| - 2] < core[(|core| - 2) + 1];
  }

  predicate NarrowEdge(axis: seq<real>, left: int, right: int)
    requires 0 <= left < right < |axis|
  {
    axis[left + 1] - axis[left] <= CHECK || axis[right] - axis[right - 1] <= CHECK
  }

  ghost predicate Sorted(axis: seq<real>) {
    forall i, j :: 0 <= i < j < |axis| ==> axis[i] <= axis[j]
  }

  /** On any axis a usable pair of nodes protects the interval; on a sorted one no other pair does. */
  lemma ProtectsExactly(axis: seq<real>, lower: real, upper: real, count: int, left: int, right: int)
    ensures var l, r := FirstNode(axis, lower), LastNode(axis, upper);
            Usable(axis, l, r, count) ==> Protects(axis, lower, upper, l, r, count)
    ensures Sorted(axis) && Protects(axis, lower, upper, left, right, count) ==>
              left == FirstNode(axis, lower) && right == LastNode(axis, upper) && Usable(axis, left, right, count)
  {
    if Sorted(axis) && Protects(axis, lower, upper, left, right, count) {
      OnlyNodes(axis, lower, upper, left, right);
    }
  }

  lemma OnlyNodes(axis: seq<real>, lower: real, upper: real, left: nat, right: nat)
    requires Sorted(axis) && left < right < |axis|
    requires axis[left] <= lower < axis[left + 1] && axis[right - 1] < upper <= axis[right]
    ensures left == FirstNode(axis, lower) && right == LastNode(axis, upper)
  {
  }

  method CoarsenAround(axis: seq<real>, left: nat, right: nat, count: int) returns (r: Outcome)
    requires Usable(axis, left, right, count)
    ensures !r.BadInterval? && OutcomeAround(axis, left, right, count, r)
  {
    var core := Core(axis, left, right);
    var ordered := CheckSteps(core);
    if !ordered {
      return Unordered;
    }
    CoreEdges(core);
    var s, remaining := SidesOf(axis, core), count - (right - left);
    var best, nleft := BestSplit(s, remaining);
    if best == None {
      return TailMissed;
    }
    r := Assemble(axis, core, best.value, nleft, remaining - nleft);
    if count <= MOST_CELLS {
      FitsExactly(best.value, axis, core, nleft, remaining - nleft);
    }
    assert r.Coarse? ==> Coarsened(r.axis, axis, left, right, count, nleft);
    assert Chosen(s, remaining, remaining - 1, nleft);
  }

  /** Laying out a chosen pair of tails, and the checks on the outcome. */
  method Assemble(axis: seq<real>, core: seq<real>, t: Tails, ghost nleft: nat, ghost nright: nat) returns (r: Outcome)
    requires |axis| > 0 && |core| >= 2 && StepsUp(core) && nleft >= 2 && nright >= 2
    requires Candidate(t, SidesOf(axis, core), nleft, nright)
    ensures r.Coarse? || r.OutOfOrder?
    ensures r.Coarse? <==> EndsFit(t, axis, core)
    ensures r.Coarse? ==>
              && |r.axis| == nleft + |core| + nright && StepsUp(r.axis) && r.axis[nleft..nleft + |core|] == core
              && r.axis[0] == axis[0] && r.axis[|r.axis| - 1] == axis[|axis| - 1] && r.growth == Growth(t)
    ensures r.OutOfOrder? ==> core[1] - core[0] <= CHECK || core[|core| - 1] - core[|core| - 2] <= CHECK
  {
    var result := LayOut(axis, core, t);
    OrderedExactly(result, axis, core, t, nleft, nright);
    var ordered := CheckSteps(result);
    if !ordered {
      if core[1] - core[0] > CHECK && core[|core| - 1] - core[|core| - 2] > CHECK {
        WideCellsFit(t, axis, core, nleft, nright);
      }
      return OutOfOrder;
    }
    r := Coarse(result, Growth(t));
  }

  // ----- an axis whose coarsening fails the order check

  const NARROW_AXIS: seq<real> := [0.0, 0.0000000000001, 0.0000000000002, 0.0000000000003]

  lemma TwoCells(width: real, r: real)
    ensures Length(width, r, 2) == width * r + width * (r * r)
  {
    assert Pow(r, 1) == r * Pow(r, 0) && Pow(r, 2) == r * Pow(r, 1);
    assert Length(width, r, 1) == Length(width, r, 0) + width * Pow(r, 1);
  }

  /** A cell of a tenth of the tolerance before a stretch of the same length. */
  lemma NarrowSide(width: real)
    requires width == NARROW_AXIS[1]
    ensures Meets(width, width, 2) && !SideFits(width, width, 2)
  {
    ShortStretchNeverFits(width, width, 2);
    ShortStretchMeetsExactly(width, width, 2);
    TwoCells(width, LEAST_RATIO);
  }

  lemma NarrowInterval(lower: real, upper: real)
    requires lower == NARROW_AXIS[1] && upper == NARROW_AXIS[2]
    ensures FirstNode(NARROW_AXIS, lower) == 1 && LastNode(NARROW_AXIS, upper) == 2 && Usable(NARROW_AXIS, 1, 2, 5)
    ensures Core(NARROW_AXIS, 1, 2) == [lower, upper] && StepsUp(Core(NARROW_AXIS, 1, 2))
  {
    OnlyNodes(NARROW_AXIS, lower, upper, 1, 2);
  }

  /** Three cells of a tenth of the tolerance, the middle one protected, to be coarsened to five: every tail meets its
      length, and the only split does not fit, so the order check fails. */
  lemma NarrowAxisOutOfOrder(lower: real, upper: real)
    requires lower == NARROW_AXIS[1] && upper == NARROW_AXIS[2]
    ensures FirstNode(NARROW_AXIS, lower) == 1 && LastNode(NARROW_AXIS, upper) == 2 && Usable(NARROW_AXIS, 1, 2, 5)
    ensures StepsUp(Core(NARROW_AXIS, 1, 2)) && EdgesPositive(Core(NARROW_AXIS, 1, 2))
    ensures var s := SidesOf(NARROW_AXIS, Core(NARROW_AXIS, 1, 2));
            AllMeet(s, 4, 3) && !SplitFits(s, 4, 2) && forall nleft :: Chosen(s, 4, 3, nleft) ==> nleft == 2
  {
    NarrowInterval(lower, upper);
    NarrowSide(lower);
    var s := SidesOf(NARROW_AXIS, [lower, upper]);
    assert s == Sides(lower, lower, lower, lower);
  }
}
