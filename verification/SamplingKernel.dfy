/** The moments one step adds on one rank, and their rank sum. */
module SamplingKernel {
  import opened Sums
  import opened GridTypes
  import opened Indexing

  /** A stored velocity component: an IEEE value that is finite, or an infinity or NaN. */
  datatype Component = Finite(value: real) | NonFinite

  datatype Velocity = Velocity(u: Component, v: Component)

  /** The committed velocity, by global cell; a rank reads only the cells it owns. */
  type Field = (int, int, int) -> Velocity

  datatype Bracket = Bracket(lower: int, upper: int, upperWeight: real)

  datatype Geometry = Geometry(stations: seq<Bracket>, centerline: Bracket)

  function Value(c: Component): real {
    if c.Finite? then c.value else 0.0
  }

  /** Profile slots, in storage order: weight, u, v, uu, vv, uv. */
  function Monomial(m: int, u: real, v: real): real {
    if m == 0 then 1.0 else if m == 1 then u else if m == 2 then v
    else if m == 3 then u * u else if m == 4 then v * v else u * v
  }

  function Moment(m: int, c: Velocity): real {
    Monomial(m, Value(c.u), Value(c.v))
  }

  /** Centreline slots, in storage order: weight, u, uu. */
  function CenterMoment(m: int, c: Velocity): real {
    var u := Value(c.u);
    if m == 0 then 1.0 else if m == 1 then u else u * u
  }

  function PlaneCount(b: Bracket): nat {
    if b.lower == b.upper then 1 else 2
  }

  function Plane(b: Bracket, side: int): int {
    if side == 0 then b.lower else b.upper
  }

  function Weight(b: Bracket, side: int): real {
    if side == 0 then 1.0 - b.upperWeight else b.upperWeight
  }

  function PlaneWeight(dt: real, b: Bracket, side: int): real {
    dt * Weight(b, side)
  }

  predicate ValidBracket(b: Bracket, n: int) {
    0 <= b.lower <= b.upper < n && 0.0 <= b.upperWeight <= 1.0
  }

  predicate ValidGeometry(g: Geometry, n: Int3) {
    && (forall s :: 0 <= s < |g.stations| ==> ValidBracket(g.stations[s], n.x))
    && ValidBracket(g.centerline, n.y)
  }

  /** Six slots for every station and every row of cells. */
  function ProfileSlotCount(g: Geometry, n: Int3): int {
    |g.stations| * n.y * 6
  }

  // ----- what one rank adds to one slot

  ghost function Column(f: Field, x: int, y: int, m: int, w: real): int -> real {
    z => w * Moment(m, f(x, y, z))
  }

  ghost function CenterColumn(f: Field, x: int, y: int, m: int, w: real): int -> real {
    z => w * CenterMoment(m, f(x, y, z))
  }

  /** The owned part of one column of cells, in loop order. */
  ghost function Span(p: Patch, column: int -> real, count: nat): real {
    var b := p.begin.z;
    Sum(count, lz => column(b + lz))
  }

  lemma SpanWhole(n: Int3, column: int -> real)
    requires n.z >= 0
    ensures Span(Whole(n), column, n.z) == Sum(n.z, column)
  {
    var b := 0;
    SumCongruent(n.z, column, lz => column(b + lz));
  }

  /** The part of the column at (x, y) that the rank owning p contributes. */
  ghost function OwnedSpan(p: Patch, column: int -> real, x: int, y: int): real {
    if p.cells.z < 0 || !Owns(x, p.begin.x, p.cells.x) || !Owns(y, p.begin.y, p.cells.y) then 0.0
    else Span(p, column, p.cells.z)
  }

  /** The owned spans of the one or two planes that bracket a station (or the centreline). */
  ghost function ProfileSides(p: Patch, f: Field, dt: real, b: Bracket, y: int, m: int): int -> real {
    side => OwnedSpan(p, Column(f, Plane(b, side), y, m, PlaneWeight(dt, b, side)), Plane(b, side), y)
  }

  ghost function CenterSides(p: Patch, f: Field, dt: real, b: Bracket, x: int, m: int): int -> real {
    side => OwnedSpan(p, CenterColumn(f, x, Plane(b, side), m, PlaneWeight(dt, b, side)), x, Plane(b, side))
  }

  /** What the rank owning p adds to profile slot k, where k == (station * n.y + y) * 6 + m. */
  ghost function ProfileGain(g: Geometry, n: Int3, p: Patch, f: Field, dt: real, k: int): real
    requires n.y > 0 && 0 <= k < ProfileSlotCount(g, n)
  {
    StationInRange(|g.stations|, n.y, k);
    var b := g.stations[k / 6 / n.y];
    Sum(PlaneCount(b), ProfileSides(p, f, dt, b, k / 6 % n.y, k % 6))
  }

  /** What the rank owning p adds to centreline slot k, where k == x * 3 + m. */
  ghost function CenterGain(g: Geometry, p: Patch, f: Field, dt: real, k: int): real {
    Sum(PlaneCount(g.centerline), CenterSides(p, f, dt, g.centerline, k / 3, k % 3))
  }

  lemma StationInRange(stations: nat, ny: int, k: int)
    requires ny > 0 && 0 <= k < stations * ny * 6
    ensures 0 <= k / 6 / ny < stations && 0 <= k / 6 % ny < ny
  {
    UnflattenBound(6, k, stations * ny);
    UnflattenBound(ny, k / 6, stations);
  }

  // ----- the whole grid is the sum of its patches

  ghost function RankParts(tiling: seq<Patch>, column: int -> real, x: int, y: int): int -> real {
    r => if 0 <= r < |tiling| then OwnedSpan(tiling[r], column, x, y) else 0.0
  }

  /** One column: the owned spans of all ranks add up to the column over the whole grid. */
  lemma ColumnPartition(n: Int3, tiling: seq<Patch>, x: int, y: int, column: int -> real)
    requires Tiles(n, tiling) && 0 <= x < n.x && 0 <= y < n.y && n.z >= 0
    ensures Sum(|tiling|, RankParts(tiling, column, x, y)) == OwnedSpan(Whole(n), column, x, y)
  {
    var spans := RankParts(tiling, column, x, y);
    var owned := (r: int, z: int) =>
      if 0 <= r < |tiling| && OwnsCell(tiling[r], Int3(x, y, z)) then column(z) else 0.0;
    forall r | 0 <= r < |tiling|
      ensures spans(r) == Sum(n.z, z => owned(r, z))
    {
      var p := tiling[r];
      assert Inside(n, p);
      if Owns(x, p.begin.x, p.cells.x) && Owns(y, p.begin.y, p.cells.y) {
        SumWindow(n.z, p.begin.z, p.cells.z, column);
        var b, c := p.begin.z, p.cells.z;
        SumCongruent(c, i => column(b + i), lz => column(b + lz));
        SumCongruent(n.z, i => if b <= i < b + c then column(i) else 0.0, z => owned(r, z));
      } else {
        SumZero(n.z, z => owned(r, z));
      }
    }
    SumCongruent(|tiling|, spans, r => Sum(n.z, z => owned(r, z)));
    SumSwap(|tiling|, n.z, owned);
    forall z | 0 <= z < n.z
      ensures Sum(|tiling|, r => owned(r, z)) == column(z)
    {
      var c := Int3(x, y, z);
      OneOwner(n, tiling, c, column(z));
      var value := column(z);
      SumCongruent(|tiling|, r => owned(r, z),
                   r => if 0 <= r < |tiling| && OwnsCell(tiling[r], c) then value else 0.0);
    }
    SumCongruent(n.z, z => Sum(|tiling|, r => owned(r, z)), column);
    SpanWhole(n, column);
  }

  /** The gain of one profile slot on each rank. */
  ghost function ProfileGains(g: Geometry, n: Int3, tiling: seq<Patch>, f: Field, dt: real, k: int): int -> real
    requires n.y > 0 && 0 <= k < ProfileSlotCount(g, n)
  {
    r => if 0 <= r < |tiling| then ProfileGain(g, n, tiling[r], f, dt, k) else 0.0
  }

  ghost function CenterGains(g: Geometry, tiling: seq<Patch>, f: Field, dt: real, k: int): int -> real {
    r => if 0 <= r < |tiling| then CenterGain(g, tiling[r], f, dt, k) else 0.0
  }

  ghost function SideParts(tiling: seq<Patch>, sides: Patch -> int -> real, s: int): int -> real {
    r => if 0 <= r < |tiling| then sides(tiling[r])(s) else 0.0
  }

  /** One bracketing plane of one station row, over all ranks. */
  lemma ProfileSidePartition(n: Int3, tiling: seq<Patch>, f: Field, dt: real, b: Bracket, s: int, y: int, m: int)
    requires Tiles(n, tiling) && 0 <= Plane(b, s) < n.x && 0 <= y < n.y && n.z >= 0
    ensures Sum(|tiling|, SideParts(tiling, p => ProfileSides(p, f, dt, b, y, m), s))
         == ProfileSides(Whole(n), f, dt, b, y, m)(s)
  {
    var column := Column(f, Plane(b, s), y, m, PlaneWeight(dt, b, s));
    var parts := SideParts(tiling, p => ProfileSides(p, f, dt, b, y, m), s);
    forall r | 0 <= r < |tiling|
      ensures parts(r) == RankParts(tiling, column, Plane(b, s), y)(r)
    {
      var p := tiling[r];
      assert ProfileSides(p, f, dt, b, y, m)(s) == OwnedSpan(p, column, Plane(b, s), y);
    }
    SumCongruent(|tiling|, parts, RankParts(tiling, column, Plane(b, s), y));
    ColumnPartition(n, tiling, Plane(b, s), y, column);
  }

  lemma CenterSidePartition(n: Int3, tiling: seq<Patch>, f: Field, dt: real, b: Bracket, s: int, x: int, m: int)
    requires Tiles(n, tiling) && 0 <= Plane(b, s) < n.y && 0 <= x < n.x && n.z >= 0
    ensures Sum(|tiling|, SideParts(tiling, p => CenterSides(p, f, dt, b, x, m), s))
         == CenterSides(Whole(n), f, dt, b, x, m)(s)
  {
    var column := CenterColumn(f, x, Plane(b, s), m, PlaneWeight(dt, b, s));
    var parts := SideParts(tiling, p => CenterSides(p, f, dt, b, x, m), s);
    forall r | 0 <= r < |tiling|
      ensures parts(r) == RankParts(tiling, column, x, Plane(b, s))(r)
    {
      var p := tiling[r];
      assert CenterSides(p, f, dt, b, x, m)(s) == OwnedSpan(p, column, x, Plane(b, s));
    }
    SumCongruent(|tiling|, parts, RankParts(tiling, column, x, Plane(b, s)));
    ColumnPartition(n, tiling, x, Plane(b, s), column);
  }

  /** If every plane is partitioned by the tiling, so is the sum over the planes. */
  lemma SidesPartition(tiling: seq<Patch>, sides: Patch -> int -> real, count: nat, whole: int -> real,
                       gains: int -> real)
    requires forall s :: 0 <= s < count ==> Sum(|tiling|, SideParts(tiling, sides, s)) == whole(s)
    requires forall r :: 0 <= r < |tiling| ==> gains(r) == Sum(count, sides(tiling[r]))
    ensures Sum(|tiling|, gains) == Sum(count, whole)
  {
    var part := (r: int, s: int) => if 0 <= r < |tiling| then sides(tiling[r])(s) else 0.0;
    forall s | 0 <= s < count
      ensures Sum(|tiling|, i => part(i, s)) == whole(s)
    {
      SumCongruent(|tiling|, i => part(i, s), SideParts(tiling, sides, s));
    }
    forall r | 0 <= r < |tiling|
      ensures gains(r) == Sum(count, j => part(r, j))
    {
      SumCongruent(count, j => part(r, j), sides(tiling[r]));
    }
    SumOfParts(|tiling|, count, part, gains, whole);
  }

  /** A profile slot gains over all ranks exactly what one rank owning the whole grid would add. */
  lemma ProfileGainPartition(g: Geometry, n: Int3, tiling: seq<Patch>, f: Field, dt: real, k: int)
    requires Tiles(n, tiling) && ValidGeometry(g, n) && n.y > 0 && n.z >= 0 && 0 <= k < ProfileSlotCount(g, n)
    ensures Sum(|tiling|, ProfileGains(g, n, tiling, f, dt, k)) == ProfileGain(g, n, Whole(n), f, dt, k)
  {
    StationInRange(|g.stations|, n.y, k);
    var b, y, m := g.stations[k / 6 / n.y], k / 6 % n.y, k % 6;
    assert ValidBracket(b, n.x);
    forall s | 0 <= s < PlaneCount(b)
      ensures Sum(|tiling|, SideParts(tiling, p => ProfileSides(p, f, dt, b, y, m), s))
           == ProfileSides(Whole(n), f, dt, b, y, m)(s)
    {
      ProfileSidePartition(n, tiling, f, dt, b, s, y, m);
    }
    SidesPartition(tiling, p => ProfileSides(p, f, dt, b, y, m), PlaneCount(b),
                   ProfileSides(Whole(n), f, dt, b, y, m), ProfileGains(g, n, tiling, f, dt, k));
  }

  /** The same for a centreline slot. */
  lemma CenterGainPartition(g: Geometry, n: Int3, tiling: seq<Patch>, f: Field, dt: real, k: int)
    requires Tiles(n, tiling) && ValidGeometry(g, n) && n.z >= 0 && 0 <= k < n.x * 3
    ensures Sum(|tiling|, CenterGains(g, tiling, f, dt, k)) == CenterGain(g, Whole(n), f, dt, k)
  {
    var b, x, m := g.centerline, k / 3, k % 3;
    forall s | 0 <= s < PlaneCount(b)
      ensures Sum(|tiling|, SideParts(tiling, p => CenterSides(p, f, dt, b, x, m), s))
           == CenterSides(Whole(n), f, dt, b, x, m)(s)
    {
      CenterSidePartition(n, tiling, f, dt, b, s, x, m);
    }
    SidesPartition(tiling, p => CenterSides(p, f, dt, b, x, m), PlaneCount(b),
                   CenterSides(Whole(n), f, dt, b, x, m), CenterGains(g, tiling, f, dt, k));
  }
}
