/** Accumulated moments are realizable: they are the moments of some nonnegative weighting. */
module Moments {
  import opened Sums
  import opened Indexing
  import opened GridTypes
  import opened SamplingKernel
  import opened StatisticsTypes
  import opened RunAccumulator

  /** The quadratic form of the moment matrix of (1, u, v), from the six slots of one profile row. */
  ghost function Form(s: int -> real, a: real, b: real, c: real): real {
    a * a * s(0) + 2.0 * a * b * s(1) + 2.0 * a * c * s(2)
    + b * b * s(3) + c * c * s(4) + 2.0 * b * c * s(5)
  }

  /** The moment matrix is positive semidefinite. */
  ghost predicate Psd(s: int -> real) {
    forall a, b, c :: Form(s, a, b, c) >= 0.0
  }

  ghost function CenterForm(s: int -> real, a: real, b: real): real {
    a * a * s(0) + 2.0 * a * b * s(1) + b * b * s(2)
  }

  ghost predicate CenterPsd(s: int -> real) {
    forall a, b :: CenterForm(s, a, b) >= 0.0
  }

  ghost function Row(values: seq<real>, row: int): int -> real {
    m => if 0 <= row * 6 + m < |values| then values[row * 6 + m] else 0.0
  }

  ghost function CenterRow(values: seq<real>, x: int): int -> real {
    m => if 0 <= x * 3 + m < |values| then values[x * 3 + m] else 0.0
  }

  ghost predicate Realizable(acc: Acc) {
    && (forall row :: 0 <= row < |acc.profile| / 6 ==> Psd(Row(acc.profile, row)))
    && (forall x :: 0 <= x < |acc.centerline| / 3 ==> CenterPsd(CenterRow(acc.centerline, x)))
  }

  // ----- what a positive semidefinite row says about the published moments

  ghost function Line(slope: real, offset: real, b: real): real {
    2.0 * b * slope + offset
  }

  lemma LineCrosses(slope: real, offset: real)
    requires slope != 0.0
    ensures Line(slope, offset, -(offset + 1.0) / (2.0 * slope)) == -1.0
  {
    var b := -(offset + 1.0) / (2.0 * slope);
    assert 2.0 * b * slope == -(offset + 1.0);
  }

  /** A line that never goes negative is level. */
  lemma LineVanishes(slope: real, offset: real)
    requires forall b :: Line(slope, offset, b) >= 0.0
    ensures slope == 0.0
  {
    if slope != 0.0 {
      LineCrosses(slope, offset);
    }
  }

  lemma PositiveFactor(w: real, value: real)
    requires w > 0.0 && w * value >= 0.0
    ensures value >= 0.0
  {
  }

  /** Completing the square eliminates the first variable of the form. */
  lemma Complete(s: int -> real, b: real, c: real)
    requires Psd(s)
    ensures s(0) * Pencil(s, b, c) >= 0.0
  {
    var w, u, v, p, q, r := s(0), s(1), s(2), s(3), s(4), s(5);
    var a := -(b * u + c * v);
    assert Form(s, a, b * w, c * w) >= 0.0;
    assert Form(s, a, b * w, c * w)
        == a * a * w + 2.0 * a * (b * w) * u + 2.0 * a * (c * w) * v
           + (b * w) * (b * w) * p + (c * w) * (c * w) * q + 2.0 * (b * w) * (c * w) * r;
    CompleteIdentity(w, u, v, p, q, r, b, c);
  }

  lemma CompleteIdentity(w: real, u: real, v: real, p: real, q: real, r: real, b: real, c: real)
    ensures var a := -(b * u + c * v);
            a * a * w + 2.0 * a * (b * w) * u + 2.0 * a * (c * w) * v
            + (b * w) * (b * w) * p + (c * w) * (c * w) * q + 2.0 * (b * w) * (c * w) * r
            == w * (b * b * (w * p - u * u) + c * c * (w * q - v * v) + 2.0 * b * c * (w * r - u * v))
  {
  }

  /** The Schur complement of the form: (weighted) variances of u and v and their covariance. */
  ghost function Pencil(s: int -> real, b: real, c: real): real {
    var w, u, v, p, q, r := s(0), s(1), s(2), s(3), s(4), s(5);
    b * b * (w * p - u * u) + c * c * (w * q - v * v) + 2.0 * b * c * (w * r - u * v)
  }

  /** sum_w * sum_uu >= sum_u^2, the same for v, and Cauchy-Schwarz for the (u, v) covariance. */
  lemma RowInequalities(s: int -> real)
    requires Psd(s)
    ensures s(0) >= 0.0 && s(3) >= 0.0 && s(4) >= 0.0
    ensures s(0) * s(3) >= s(1) * s(1) && s(0) * s(4) >= s(2) * s(2)
    ensures var uu := s(0) * s(3) - s(1) * s(1);
            var vv := s(0) * s(4) - s(2) * s(2);
            var uv := s(0) * s(5) - s(1) * s(2);
            uv * uv <= uu * vv
  {
    assert Form(s, 1.0, 0.0, 0.0) == s(0);
    assert Form(s, 0.0, 1.0, 0.0) == s(3);
    assert Form(s, 0.0, 0.0, 1.0) == s(4);
    if s(0) == 0.0 {
      forall b
        ensures Line(s(1), s(3), b) >= 0.0 && Line(s(2), s(4), b) >= 0.0
      {
        assert Form(s, b, 1.0, 0.0) >= 0.0;
        assert Form(s, b, 0.0, 1.0) >= 0.0;
      }
      LineVanishes(s(1), s(3));
      LineVanishes(s(2), s(4));
    } else {
      forall b, c
        ensures Pencil(s, b, c) >= 0.0
      {
        Complete(s, b, c);
        PositiveFactor(s(0), Pencil(s, b, c));
      }
      var x, y, z := s(0) * s(3) - s(1) * s(1), s(0) * s(4) - s(2) * s(2), s(0) * s(5) - s(1) * s(2);
      assert Pencil(s, 1.0, 0.0) == x;
      assert Pencil(s, 0.0, 1.0) == y;
      if y == 0.0 {
        forall b
          ensures Line(z, x, b) >= 0.0
        {
          assert Pencil(s, 1.0, b) == 1.0 * 1.0 * x + b * b * y + 2.0 * 1.0 * b * z;
          assert Line(z, x, b) == Pencil(s, 1.0, b);
        }
        LineVanishes(z, x);
      } else {
        assert Pencil(s, y, -z) == y * y * x + (-z) * (-z) * y + 2.0 * y * (-z) * z;
        PencilDeterminant(x, y, z);
        PositiveFactor(y, x * y - z * z);
      }
    }
  }

  lemma PencilDeterminant(x: real, y: real, z: real)
    ensures y * y * x + (-z) * (-z) * y + 2.0 * y * (-z) * z == y * (x * y - z * z)
  {
  }

  lemma CenterInequality(s: int -> real)
    requires CenterPsd(s)
    ensures s(0) >= 0.0 && s(2) >= 0.0 && s(0) * s(2) >= s(1) * s(1)
  {
    var w, u, p := s(0), s(1), s(2);
    assert CenterForm(s, 1.0, 0.0) == w;
    assert CenterForm(s, 0.0, 1.0) == p;
    if w == 0.0 {
      forall b
        ensures Line(u, p, b) >= 0.0
      {
        assert CenterForm(s, b, 1.0) >= 0.0;
      }
      LineVanishes(u, p);
    } else {
      assert CenterForm(s, -u, w) >= 0.0;
      assert CenterForm(s, -u, w) == w * (w * p - u * u);
      PositiveFactor(w, w * p - u * u);
    }
  }

  // ----- sampling and reduction keep rows positive semidefinite

  lemma FormPlus(s: int -> real, t: int -> real, r: int -> real, a: real, b: real, c: real)
    requires forall m :: 0 <= m < 6 ==> r(m) == s(m) + t(m)
    ensures Form(r, a, b, c) == Form(s, a, b, c) + Form(t, a, b, c)
  {
    assert r(0) == s(0) + t(0) && r(1) == s(1) + t(1) && r(2) == s(2) + t(2);
    assert r(3) == s(3) + t(3) && r(4) == s(4) + t(4) && r(5) == s(5) + t(5);
  }

  lemma CenterFormPlus(s: int -> real, t: int -> real, r: int -> real, a: real, b: real)
    requires forall m :: 0 <= m < 3 ==> r(m) == s(m) + t(m)
    ensures CenterForm(r, a, b) == CenterForm(s, a, b) + CenterForm(t, a, b)
  {
    assert r(0) == s(0) + t(0) && r(1) == s(1) + t(1) && r(2) == s(2) + t(2);
  }

  lemma PsdPlus(s: int -> real, t: int -> real, r: int -> real)
    requires Psd(s) && Psd(t) && forall m :: 0 <= m < 6 ==> r(m) == s(m) + t(m)
    ensures Psd(r)
  {
    forall a, b, c
      ensures Form(r, a, b, c) >= 0.0
    {
      FormPlus(s, t, r, a, b, c);
    }
  }

  lemma CenterPsdPlus(s: int -> real, t: int -> real, r: int -> real)
    requires CenterPsd(s) && CenterPsd(t) && forall m :: 0 <= m < 3 ==> r(m) == s(m) + t(m)
    ensures CenterPsd(r)
  {
    forall a, b
      ensures CenterForm(r, a, b) >= 0.0
    {
      CenterFormPlus(s, t, r, a, b);
    }
  }

  lemma PsdZero(s: int -> real)
    requires forall m :: 0 <= m < 6 ==> s(m) == 0.0
    ensures Psd(s)
  {
    forall a, b, c
      ensures Form(s, a, b, c) >= 0.0
    {
      FormPlus(s, s, s, a, b, c);
    }
  }

  lemma CenterPsdZero(s: int -> real)
    requires forall m :: 0 <= m < 3 ==> s(m) == 0.0
    ensures CenterPsd(s)
  {
    forall a, b
      ensures CenterForm(s, a, b) >= 0.0
    {
      CenterFormPlus(s, s, s, a, b);
    }
  }

  /** Sums of positive semidefinite rows are positive semidefinite. */
  lemma {:induction false} PsdSum(n: nat, part: int -> int -> real, total: int -> real)
    requires forall i :: 0 <= i < n ==> Psd(part(i))
    requires forall m :: 0 <= m < 6 ==> total(m) == Sum(n, i => part(i)(m))
    ensures Psd(total)
  {
    if n == 0 {
      PsdZero(total);
    } else {
      var rest := (m: int) => Sum(n - 1, i => part(i)(m));
      PsdSum(n - 1, part, rest);
      PsdPlus(rest, part(n - 1), total);
    }
  }

  lemma {:induction false} CenterPsdSum(n: nat, part: int -> int -> real, total: int -> real)
    requires forall i :: 0 <= i < n ==> CenterPsd(part(i))
    requires forall m :: 0 <= m < 3 ==> total(m) == Sum(n, i => part(i)(m))
    ensures CenterPsd(total)
  {
    if n == 0 {
      CenterPsdZero(total);
    } else {
      var rest := (m: int) => Sum(n - 1, i => part(i)(m));
      CenterPsdSum(n - 1, part, rest);
      CenterPsdPlus(rest, part(n - 1), total);
    }
  }

  /** One weighted reading contributes w * (a + b u + c v)^2. */
  lemma CellPsd(f: Field, x: int, y: int, z: int, w: real, s: int -> real)
    requires w >= 0.0 && forall m :: 0 <= m < 6 ==> s(m) == Column(f, x, y, m, w)(z)
    ensures Psd(s)
  {
    var u, v := Value(f(x, y, z).u), Value(f(x, y, z).v);
    forall m | 0 <= m < 6
      ensures s(m) == w * Monomial(m, u, v)
    {
    }
    assert s(0) == w && s(1) == w * u && s(2) == w * v;
    assert s(3) == w * (u * u) && s(4) == w * (v * v) && s(5) == w * (u * v);
    forall a, b, c
      ensures Form(s, a, b, c) >= 0.0
    {
      WeightedSquare(w, u, v, a, b, c);
    }
  }

  lemma WeightedSquare(w: real, u: real, v: real, a: real, b: real, c: real)
    requires w >= 0.0
    ensures a * a * w + 2.0 * a * b * (w * u) + 2.0 * a * c * (w * v)
            + b * b * (w * (u * u)) + c * c * (w * (v * v)) + 2.0 * b * c * (w * (u * v)) >= 0.0
  {
    var e := a + b * u + c * v;
    assert a * a * w + 2.0 * a * b * (w * u) + 2.0 * a * c * (w * v)
           + b * b * (w * (u * u)) + c * c * (w * (v * v)) + 2.0 * b * c * (w * (u * v)) == w * (e * e);
    assert e * e >= 0.0;
  }

  lemma CenterCellPsd(f: Field, x: int, y: int, z: int, w: real, s: int -> real)
    requires w >= 0.0 && forall m :: 0 <= m < 3 ==> s(m) == CenterColumn(f, x, y, m, w)(z)
    ensures CenterPsd(s)
  {
    var u := Value(f(x, y, z).u);
    assert s(0) == w && s(1) == w * u && s(2) == w * (u * u);
    forall a, b
      ensures CenterForm(s, a, b) >= 0.0
    {
      WeightedSquare(w, u, 0.0, a, b, 0.0);
    }
  }

  lemma OwnedSpanPsd(p: Patch, f: Field, x: int, y: int, w: real, s: int -> real)
    requires w >= 0.0 && forall m :: 0 <= m < 6 ==> s(m) == OwnedSpan(p, Column(f, x, y, m, w), x, y)
    ensures Psd(s)
  {
    if p.cells.z < 0 || !Owns(x, p.begin.x, p.cells.x) || !Owns(y, p.begin.y, p.cells.y) {
      PsdZero(s);
    } else {
      var b := p.begin.z;
      var part := (lz: int) => (m: int) => Column(f, x, y, m, w)(b + lz);
      forall lz | 0 <= lz < p.cells.z
        ensures Psd(part(lz))
      {
        CellPsd(f, x, y, b + lz, w, part(lz));
      }
      forall m | 0 <= m < 6
        ensures s(m) == Sum(p.cells.z, i => part(i)(m))
      {
        var column := Column(f, x, y, m, w);
        SumCongruent(p.cells.z, lz => column(b + lz), i => part(i)(m));
      }
      PsdSum(p.cells.z, part, s);
    }
  }

  lemma CenterSpanPsd(p: Patch, f: Field, x: int, y: int, w: real, s: int -> real)
    requires w >= 0.0 && forall m :: 0 <= m < 3 ==> s(m) == OwnedSpan(p, CenterColumn(f, x, y, m, w), x, y)
    ensures CenterPsd(s)
  {
    if p.cells.z < 0 || !Owns(x, p.begin.x, p.cells.x) || !Owns(y, p.begin.y, p.cells.y) {
      CenterPsdZero(s);
    } else {
      var b := p.begin.z;
      var part := (lz: int) => (m: int) => CenterColumn(f, x, y, m, w)(b + lz);
      forall lz | 0 <= lz < p.cells.z
        ensures CenterPsd(part(lz))
      {
        CenterCellPsd(f, x, y, b + lz, w, part(lz));
      }
      forall m | 0 <= m < 3
        ensures s(m) == Sum(p.cells.z, i => part(i)(m))
      {
        var column := CenterColumn(f, x, y, m, w);
        SumCongruent(p.cells.z, lz => column(b + lz), i => part(i)(m));
      }
      CenterPsdSum(p.cells.z, part, s);
    }
  }

  lemma ProfileRowGainPsd(g: Geometry, n: Int3, p: Patch, f: Field, dt: real, row: int, s: int -> real)
    requires n.y > 0 && 0 <= row < |g.stations| * n.y && ValidGeometry(g, n) && dt > 0.0
    requires forall m :: 0 <= m < 6 ==> s(m) == ProfileGain(g, n, p, f, dt, row * 6 + m)
    ensures Psd(s)
  {
    StationInRange(|g.stations|, n.y, row * 6);
    var b, y := g.stations[row / n.y], row % n.y;
    assert ValidBracket(b, n.x);
    var part := (side: int) => (m: int) => ProfileSides(p, f, dt, b, y, m)(side);
    forall side | 0 <= side < PlaneCount(b)
      ensures Psd(part(side))
    {
      WeightNonNegative(dt, b, side, n.x);
      forall m | 0 <= m < 6
        ensures part(side)(m)
             == OwnedSpan(p, Column(f, Plane(b, side), y, m, PlaneWeight(dt, b, side)), Plane(b, side), y)
      {
        assert part(side)(m) == ProfileSides(p, f, dt, b, y, m)(side);
      }
      OwnedSpanPsd(p, f, Plane(b, side), y, PlaneWeight(dt, b, side), part(side));
    }
    forall m | 0 <= m < 6
      ensures s(m) == Sum(PlaneCount(b), i => part(i)(m))
    {
      DivModUnique(6, row, m);
      StationInRange(|g.stations|, n.y, row * 6 + m);
      SumCongruent(PlaneCount(b), ProfileSides(p, f, dt, b, y, m), i => part(i)(m));
    }
    PsdSum(PlaneCount(b), part, s);
  }

  lemma WeightNonNegative(dt: real, b: Bracket, side: int, n: int)
    requires ValidBracket(b, n) && dt > 0.0
    ensures PlaneWeight(dt, b, side) >= 0.0
  {
  }

  lemma CenterRowGainPsd(g: Geometry, n: Int3, p: Patch, f: Field, dt: real, x: int, s: int -> real)
    requires ValidGeometry(g, n) && dt > 0.0
    requires forall m :: 0 <= m < 3 ==> s(m) == CenterGain(g, p, f, dt, x * 3 + m)
    ensures CenterPsd(s)
  {
    var b := g.centerline;
    var part := (side: int) => (m: int) => CenterSides(p, f, dt, b, x, m)(side);
    forall side | 0 <= side < PlaneCount(b)
      ensures CenterPsd(part(side))
    {
      WeightNonNegative(dt, b, side, n.y);
      forall m | 0 <= m < 3
        ensures part(side)(m)
             == OwnedSpan(p, CenterColumn(f, x, Plane(b, side), m, PlaneWeight(dt, b, side)), x, Plane(b, side))
      {
        assert part(side)(m) == CenterSides(p, f, dt, b, x, m)(side);
      }
      CenterSpanPsd(p, f, x, Plane(b, side), PlaneWeight(dt, b, side), part(side));
    }
    forall m | 0 <= m < 3
      ensures s(m) == Sum(PlaneCount(b), i => part(i)(m))
    {
      assert (x * 3 + m) / 3 == x && (x * 3 + m) % 3 == m;
      SumCongruent(PlaneCount(b), CenterSides(p, f, dt, b, x, m), i => part(i)(m));
    }
    CenterPsdSum(PlaneCount(b), part, s);
  }

  /** Sampling keeps an accumulator realizable. */
  lemma SampledRealizable(acc: Acc, g: Geometry, n: Int3, p: Patch, f: Field, dt: real)
    requires Sized(acc, g, n) && n.y > 0 && ValidGeometry(g, n) && dt > 0.0
    requires Realizable(acc)
    ensures Realizable(Sampled(acc, g, n, p, f, dt))
  {
    var next := Sampled(acc, g, n, p, f, dt);
    forall row | 0 <= row < |next.profile| / 6
      ensures Psd(Row(next.profile, row))
    {
      var rows := |g.stations| * n.y;
      var gain := (m: int) => if 0 <= m < 6 && 0 <= row * 6 + m < rows * 6
                              then ProfileGain(g, n, p, f, dt, row * 6 + m) else 0.0;
      ProfileRowGainPsd(g, n, p, f, dt, row, gain);
      PsdPlus(Row(acc.profile, row), gain, Row(next.profile, row));
    }
    forall x | 0 <= x < |next.centerline| / 3
      ensures CenterPsd(CenterRow(next.centerline, x))
    {
      var gain := (m: int) => CenterGain(g, p, f, dt, x * 3 + m);
      CenterRowGainPsd(g, n, p, f, dt, x, gain);
      CenterPsdPlus(CenterRow(acc.centerline, x), gain, CenterRow(next.centerline, x));
    }
  }

  lemma ReducedRowPsd(ranks: seq<Acc>, total: seq<real>, row: int)
    requires forall r :: 0 <= r < |ranks| ==> |ranks[r].profile| == |total| && Realizable(ranks[r])
    requires forall k :: 0 <= k < |total| ==> total[k] == Sum(|ranks|, ProfileSlots(ranks, k))
    requires 0 <= row < |total| / 6
    ensures Psd(Row(total, row))
  {
    var part := (r: int) => (m: int) => ProfileSlots(ranks, row * 6 + m)(r);
    forall r | 0 <= r < |ranks|
      ensures Psd(part(r))
    {
      PsdPlusZero(Row(ranks[r].profile, row), part(r));
    }
    forall m | 0 <= m < 6
      ensures Row(total, row)(m) == Sum(|ranks|, i => part(i)(m))
    {
      SumCongruent(|ranks|, ProfileSlots(ranks, row * 6 + m), i => part(i)(m));
    }
    PsdSum(|ranks|, part, Row(total, row));
  }

  lemma ReducedCenterRowPsd(ranks: seq<Acc>, total: seq<real>, x: int)
    requires forall r :: 0 <= r < |ranks| ==> |ranks[r].centerline| == |total| && Realizable(ranks[r])
    requires forall k :: 0 <= k < |total| ==> total[k] == Sum(|ranks|, CenterSlots(ranks, k))
    requires 0 <= x < |total| / 3
    ensures CenterPsd(CenterRow(total, x))
  {
    var part := (r: int) => (m: int) => CenterSlots(ranks, x * 3 + m)(r);
    forall r | 0 <= r < |ranks|
      ensures CenterPsd(part(r))
    {
      CenterPsdPlusZero(CenterRow(ranks[r].centerline, x), part(r));
    }
    forall m | 0 <= m < 3
      ensures CenterRow(total, x)(m) == Sum(|ranks|, i => part(i)(m))
    {
      SumCongruent(|ranks|, CenterSlots(ranks, x * 3 + m), i => part(i)(m));
    }
    CenterPsdSum(|ranks|, part, CenterRow(total, x));
  }

  /** An accumulator whose slots are rank sums of realizable accumulators is realizable. */
  lemma ReducedRealizable(ranks: seq<Acc>, total: Acc)
    requires forall r :: 0 <= r < |ranks| ==> |ranks[r].profile| == |total.profile| && Realizable(ranks[r])
    requires forall r :: 0 <= r < |ranks| ==> |ranks[r].centerline| == |total.centerline|
    requires forall k :: 0 <= k < |total.profile| ==> total.profile[k] == Sum(|ranks|, ProfileSlots(ranks, k))
    requires forall k :: 0 <= k < |total.centerline| ==> total.centerline[k] == Sum(|ranks|, CenterSlots(ranks, k))
    ensures Realizable(total)
  {
    forall row | 0 <= row < |total.profile| / 6
      ensures Psd(Row(total.profile, row))
    {
      ReducedRowPsd(ranks, total.profile, row);
    }
    forall x | 0 <= x < |total.centerline| / 3
      ensures CenterPsd(CenterRow(total.centerline, x))
    {
      ReducedCenterRowPsd(ranks, total.centerline, x);
    }
  }

  lemma PsdPlusZero(s: int -> real, r: int -> real)
    requires Psd(s) && forall m :: 0 <= m < 6 ==> r(m) == s(m)
    ensures Psd(r)
  {
    PsdZero(m => 0.0);
    PsdPlus(s, m => 0.0, r);
  }

  lemma CenterPsdPlusZero(s: int -> real, r: int -> real)
    requires CenterPsd(s) && forall m :: 0 <= m < 3 ==> r(m) == s(m)
    ensures CenterPsd(r)
  {
    CenterPsdZero(m => 0.0);
    CenterPsdPlus(s, m => 0.0, r);
  }
}
