/** The per-rank statistics accumulator and its in-place update by one accepted step. */
module RunAccumulator {
  import opened Sums
  import opened Indexing
  import opened GridTypes
  import opened SamplingKernel
  import opened StatisticsTypes

  // ----- which readings the update takes, and what one plane adds

  predicate Readable(c: Velocity) {
    c.u.Finite? && c.v.Finite?
  }

  ghost predicate PlaneReadable(p: Patch, f: Field, x: int) {
    forall y, z :: Owns(y, p.begin.y, p.cells.y) && Owns(z, p.begin.z, p.cells.z)
      ==> Readable(f(x, y, z))
  }

  ghost predicate CenterReadable(p: Patch, f: Field, y: int) {
    forall x, z :: Owns(x, p.begin.x, p.cells.x) && Owns(z, p.begin.z, p.cells.z) ==> f(x, y, z).u.Finite?
  }

  ghost function RowPlane(ny: int, p: Patch, f: Field, w: real, station: int, x: int, count: nat, k: int): real
    requires ny > 0
  {
    if k / 6 / ny == station && Owns(k / 6 % ny, p.begin.y, p.cells.y)
    then Span(p, Column(f, x, k / 6 % ny, k % 6, w), count) else 0.0
  }

  /** The cells of layer lz below row ly, already added. */
  ghost function RowPartial(ny: int, p: Patch, f: Field, w: real, station: int, x: int, lz: int, ly: int, k: int): real
    requires ny > 0
  {
    if k / 6 / ny == station && p.begin.y <= k / 6 % ny < p.begin.y + ly
    then Column(f, x, k / 6 % ny, k % 6, w)(p.begin.z + lz) else 0.0
  }

  lemma SpanNext(p: Patch, column: int -> real, count: nat)
    ensures Span(p, column, 0) == 0.0
    ensures Span(p, column, count + 1) == Span(p, column, count) + column(p.begin.z + count)
  {
  }

  lemma RowDecodes(ny: int, station: int, y: int, k: int)
    requires 0 <= y < ny && k >= 0
    ensures (k / 6 / ny == station && k / 6 % ny == y) <==> k / 6 == station * ny + y
  {
    DivModUnique(ny, station, y);
    assert k / 6 == k / 6 / ny * ny + k / 6 % ny;
  }

  function Increments(w: real, ux: real, uy: real): (r: seq<real>)
    ensures |r| == 6
  {
    [w, w * ux, w * uy, w * ux * ux, w * uy * uy, w * ux * uy]
  }

  lemma IncrementIsMoment(w: real, ux: real, uy: real, m: int)
    requires 0 <= m < 6
    ensures Increments(w, ux, uy)[m] == w * Monomial(m, ux, uy)
  {
  }

  /** The six additions of one cell. */
  method AddCell(profile: array<real>, base: int, w: real, ux: real, uy: real)
    requires 0 <= base && base + 6 <= profile.Length
    modifies profile
    ensures forall m :: 0 <= m < 6 ==>
      profile[base + m] == old(profile[base + m]) + Increments(w, ux, uy)[m]
    ensures forall k :: 0 <= k < profile.Length && !(base <= k < base + 6) ==> profile[k] == old(profile[k])
  {
    profile[base] := profile[base] + w;
    profile[base + 1] := profile[base + 1] + w * ux;
    profile[base + 2] := profile[base + 2] + w * uy;
    profile[base + 3] := profile[base + 3] + w * ux * ux;
    profile[base + 4] := profile[base + 4] + w * uy * uy;
    profile[base + 5] := profile[base + 5] + w * ux * uy;
  }

  /** Row ly of layer lz owns exactly the six slots from base on. */
  lemma LayerStep(ny: int, p: Patch, f: Field, w: real, station: int, x: int, lz: int, ly: nat, base: int, k: nat)
    requires 0 <= p.begin.y && p.begin.y + ly < ny
    requires base == (station * ny + p.begin.y + ly) * 6
    requires Readable(f(x, p.begin.y + ly, p.begin.z + lz))
    ensures RowPartial(ny, p, f, w, station, x, lz, ly + 1, k) - RowPartial(ny, p, f, w, station, x, lz, ly, k)
         == var c := f(x, p.begin.y + ly, p.begin.z + lz);
            if base <= k < base + 6 then Increments(w, c.u.value, c.v.value)[k - base] else 0.0
  {
    RowDecodes(ny, station, p.begin.y + ly, k);
    var c := f(x, p.begin.y + ly, p.begin.z + lz);
    if base <= k < base + 6 {
      IncrementIsMoment(w, c.u.value, c.v.value, k - base);
    }
  }

  /** One iteration of the y loop. */
  method AddRow(profile: array<real>, ny: int, stations: nat, p: Patch, f: Field, w: real,
                station: int, x: int, lz: int, ly: nat)
    returns (ok: bool)
    requires 0 <= station < stations && profile.Length == stations * ny * 6
    requires 0 <= p.begin.y && p.begin.y + ly < ny
    modifies profile
    ensures ok == Readable(f(x, p.begin.y + ly, p.begin.z + lz))
    ensures ok ==> forall k :: 0 <= k < profile.Length ==>
      profile[k] == old(profile[k]) + (RowPartial(ny, p, f, w, station, x, lz, ly + 1, k)
                                       - RowPartial(ny, p, f, w, station, x, lz, ly, k))
  {
    var cell := f(x, p.begin.y + ly, p.begin.z + lz);
    if !cell.u.Finite? || !cell.v.Finite? {
      return false;
    }
    FlattenBound(ny, station, p.begin.y + ly, stations);
    var base := (station * ny + p.begin.y + ly) * 6;
    AddCell(profile, base, w, cell.u.value, cell.v.value);
    ok := true;
    forall k | 0 <= k < profile.Length
      ensures profile[k] == old(profile[k]) + (RowPartial(ny, p, f, w, station, x, lz, ly + 1, k)
                                               - RowPartial(ny, p, f, w, station, x, lz, ly, k))
    {
      LayerStep(ny, p, f, w, station, x, lz, ly, base, k);
      if base <= k < base + 6 {
        var m := k - base;
        assert profile[base + m] == old(profile[base + m]) + Increments(w, cell.u.value, cell.v.value)[m];
      }
    }
  }

  /** The y loop over one layer of one owned plane. */
  method AddLayer(profile: array<real>, ny: int, stations: nat, p: Patch, f: Field, w: real,
                  station: int, x: int, lz: int)
    returns (ok: bool)
    requires 0 <= station < stations && profile.Length == stations * ny * 6 && ny > 0
    requires 0 <= p.begin.y && 0 <= p.cells.y && p.begin.y + p.cells.y <= ny
    modifies profile
    ensures ok == forall y :: Owns(y, p.begin.y, p.cells.y) ==> Readable(f(x, y, p.begin.z + lz))
    ensures ok ==> forall k :: 0 <= k < profile.Length ==>
      profile[k] == old(profile[k]) + RowPartial(ny, p, f, w, station, x, lz, p.cells.y, k)
  {
    var ly := 0;
    while ly < p.cells.y
      invariant 0 <= ly <= p.cells.y
      invariant forall k :: 0 <= k < profile.Length ==>
        profile[k] == old(profile[k]) + RowPartial(ny, p, f, w, station, x, lz, ly, k)
      invariant forall y :: Owns(y, p.begin.y, ly) ==> Readable(f(x, y, p.begin.z + lz))
    {
      var row := AddRow(profile, ny, stations, p, f, w, station, x, lz, ly);
      assert Owns(p.begin.y + ly, p.begin.y, p.cells.y);
      if !row {
        return false;
      }
      var next := ly + 1;
      forall y | Owns(y, p.begin.y, next)
        ensures Readable(f(x, y, p.begin.z + lz))
      {
        assert Owns(y, p.begin.y, ly) || y == p.begin.y + ly;
      }
      ly := next;
    }
    ok := true;
  }

  lemma PlaneStep(ny: int, p: Patch, f: Field, w: real, station: int, x: int, lz: nat, k: int)
    requires ny > 0
    ensures RowPlane(ny, p, f, w, station, x, lz + 1, k)
         == RowPlane(ny, p, f, w, station, x, lz, k) + RowPartial(ny, p, f, w, station, x, lz, p.cells.y, k)
  {
    SpanNext(p, Column(f, x, k / 6 % ny, k % 6, w), lz);
  }

  /** The profile after the first layers of a plane. */
  ghost predicate PlaneAdded(before: seq<real>, after: seq<real>, ny: int, p: Patch, f: Field, w: real, station: int,
                             x: int, count: nat)
    requires ny > 0
  {
    && |after| == |before|
    && forall k :: 0 <= k < |before| ==> after[k] == before[k] + RowPlane(ny, p, f, w, station, x, count, k)
  }

  ghost predicate LayersReadable(p: Patch, f: Field, x: int, count: nat) {
    forall y, z :: Owns(y, p.begin.y, p.cells.y) && Owns(z, p.begin.z, count) ==> Readable(f(x, y, z))
  }

  /** One turn of the z loop. */
  method AddNextLayer(profile: array<real>, ghost before: seq<real>, ny: int, stations: nat, p: Patch, f: Field,
                      w: real, station: int, x: int, lz: nat)
    returns (ok: bool)
    requires 0 <= station < stations && profile.Length == stations * ny * 6 && ny > 0
    requires 0 <= p.begin.y && 0 <= p.cells.y && p.begin.y + p.cells.y <= ny
    requires PlaneAdded(before, profile[..], ny, p, f, w, station, x, lz) && LayersReadable(p, f, x, lz)
    modifies profile
    ensures ok == LayersReadable(p, f, x, lz + 1)
    ensures ok ==> PlaneAdded(before, profile[..], ny, p, f, w, station, x, lz + 1)
  {
    ok := AddLayer(profile, ny, stations, p, f, w, station, x, lz);
    assert Owns(p.begin.z + lz, p.begin.z, lz + 1);
    if ok {
      forall k | 0 <= k < |before|
        ensures profile[..][k] == before[k] + RowPlane(ny, p, f, w, station, x, lz + 1, k)
      {
        PlaneStep(ny, p, f, w, station, x, lz, k);
        assert old(profile[..])[k] == old(profile[k]);
      }
      assert forall z :: Owns(z, p.begin.z, lz + 1) ==> Owns(z, p.begin.z, lz) || z == p.begin.z + lz;
    }
  }

  /** The z loop over the layers of one owned plane. */
  method AddPlane(profile: array<real>, ny: int, stations: nat, p: Patch, f: Field, w: real, station: int, x: int)
    returns (ok: bool)
    requires 0 <= station < stations && profile.Length == stations * ny * 6 && ny > 0
    requires 0 <= p.begin.y && 0 <= p.cells.y && p.begin.y + p.cells.y <= ny && 0 <= p.cells.z
    modifies profile
    ensures ok == PlaneReadable(p, f, x)
    ensures ok ==> forall k :: 0 <= k < profile.Length ==>
      profile[k] == old(profile[k]) + RowPlane(ny, p, f, w, station, x, p.cells.z, k)
  {
    ghost var before := profile[..];
    NothingAdded(before, ny, p, f, w, station, x);
    var lz := 0;
    while lz < p.cells.z
      invariant 0 <= lz <= p.cells.z
      invariant PlaneAdded(before, profile[..], ny, p, f, w, station, x, lz) && LayersReadable(p, f, x, lz)
    {
      var layer := AddNextLayer(profile, before, ny, stations, p, f, w, station, x, lz);
      if !layer {
        MoreLayers(p, f, x, lz + 1);
        return false;
      }
      lz := lz + 1;
    }
    ok := true;
  }

  lemma NothingAdded(before: seq<real>, ny: int, p: Patch, f: Field, w: real, station: int, x: int)
    requires ny > 0
    ensures PlaneAdded(before, before, ny, p, f, w, station, x, 0)
  {
  }

  lemma MoreLayers(p: Patch, f: Field, x: int, count: nat)
    requires count <= p.cells.z && !LayersReadable(p, f, x, count)
    ensures !PlaneReadable(p, f, x)
  {
    var y, z :| Owns(y, p.begin.y, p.cells.y) && Owns(z, p.begin.z, count) && !Readable(f(x, y, z));
    assert Owns(z, p.begin.z, p.cells.z);
  }

  // ----- the centreline

  ghost function CenterPlane(p: Patch, f: Field, w: real, y: int, count: nat, k: int): real {
    if Owns(k / 3, p.begin.x, p.cells.x) then Span(p, CenterColumn(f, k / 3, y, k % 3, w), count) else 0.0
  }

  ghost function CenterPartial(p: Patch, f: Field, w: real, y: int, lz: int, lx: int, k: int): real {
    if p.begin.x <= k / 3 < p.begin.x + lx then CenterColumn(f, k / 3, y, k % 3, w)(p.begin.z + lz) else 0.0
  }

  function CenterIncrements(w: real, ux: real): (r: seq<real>)
    ensures |r| == 3
  {
    [w, w * ux, w * ux * ux]
  }

  lemma CenterIncrementIsMoment(w: real, c: Velocity, m: int)
    requires c.u.Finite? && 0 <= m < 3
    ensures CenterIncrements(w, c.u.value)[m] == w * CenterMoment(m, c)
  {
  }

  /** The three additions of one centreline cell. */
  method AddCenterCell(centerline: array<real>, base: int, w: real, ux: real)
    requires 0 <= base && base + 3 <= centerline.Length
    modifies centerline
    ensures forall m :: 0 <= m < 3 ==>
      centerline[base + m] == old(centerline[base + m]) + CenterIncrements(w, ux)[m]
    ensures forall k :: 0 <= k < centerline.Length && !(base <= k < base + 3) ==> centerline[k] == old(centerline[k])
  {
    centerline[base] := centerline[base] + w;
    centerline[base + 1] := centerline[base + 1] + w * ux;
    centerline[base + 2] := centerline[base + 2] + w * ux * ux;
  }

  lemma CenterStep(p: Patch, f: Field, w: real, y: int, lz: int, lx: nat, base: int, k: nat)
    requires base == (p.begin.x + lx) * 3 && f(p.begin.x + lx, y, p.begin.z + lz).u.Finite?
    ensures CenterPartial(p, f, w, y, lz, lx + 1, k) - CenterPartial(p, f, w, y, lz, lx, k)
         == var u := f(p.begin.x + lx, y, p.begin.z + lz).u.value;
            if base <= k < base + 3 then CenterIncrements(w, u)[k - base] else 0.0
  {
    if base <= k < base + 3 {
      CenterIncrementIsMoment(w, f(p.begin.x + lx, y, p.begin.z + lz), k - base);
    }
  }

  /** One iteration of the x loop. */
  method AddCenterRow(centerline: array<real>, p: Patch, f: Field, w: real, y: int, lz: int, lx: nat) returns (ok: bool)
    requires 0 <= p.begin.x && (p.begin.x + lx + 1) * 3 <= centerline.Length
    modifies centerline
    ensures ok == f(p.begin.x + lx, y, p.begin.z + lz).u.Finite?
    ensures ok ==> forall k :: 0 <= k < centerline.Length ==>
      centerline[k] == old(centerline[k]) + (CenterPartial(p, f, w, y, lz, lx + 1, k)
                                             - CenterPartial(p, f, w, y, lz, lx, k))
  {
    var cell := f(p.begin.x + lx, y, p.begin.z + lz);
    if !cell.u.Finite? {
      return false;
    }
    var base := (p.begin.x + lx) * 3;
    AddCenterCell(centerline, base, w, cell.u.value);
    ok := true;
    forall k | 0 <= k < centerline.Length
      ensures centerline[k] == old(centerline[k]) + (CenterPartial(p, f, w, y, lz, lx + 1, k)
                                                     - CenterPartial(p, f, w, y, lz, lx, k))
    {
      CenterStep(p, f, w, y, lz, lx, base, k);
      if base <= k < base + 3 {
        var m := k - base;
        assert centerline[base + m] == old(centerline[base + m])
          + CenterIncrements(w, cell.u.value)[m];
      }
    }
  }

  /** The x loop over one layer of the owned centreline plane. */
  method AddCenterLayer(centerline: array<real>, p: Patch, f: Field, w: real, y: int, lz: int) returns (ok: bool)
    requires 0 <= p.begin.x && 0 <= p.cells.x && (p.begin.x + p.cells.x) * 3 <= centerline.Length
    modifies centerline
    ensures ok == forall x :: Owns(x, p.begin.x, p.cells.x) ==> f(x, y, p.begin.z + lz).u.Finite?
    ensures ok ==> forall k :: 0 <= k < centerline.Length ==>
      centerline[k] == old(centerline[k]) + CenterPartial(p, f, w, y, lz, p.cells.x, k)
  {
    var lx := 0;
    while lx < p.cells.x
      invariant 0 <= lx <= p.cells.x
      invariant forall k :: 0 <= k < centerline.Length ==>
        centerline[k] == old(centerline[k]) + CenterPartial(p, f, w, y, lz, lx, k)
      invariant forall x :: Owns(x, p.begin.x, lx) ==> f(x, y, p.begin.z + lz).u.Finite?
    {
      var row := AddCenterRow(centerline, p, f, w, y, lz, lx);
      assert Owns(p.begin.x + lx, p.begin.x, p.cells.x);
      if !row {
        return false;
      }
      var next := lx + 1;
      forall x | Owns(x, p.begin.x, next)
        ensures f(x, y, p.begin.z + lz).u.Finite?
      {
        assert Owns(x, p.begin.x, lx) || x == p.begin.x + lx;
      }
      lx := next;
    }
    ok := true;
  }

  /** The z loop over the owned centreline plane. */
  method AddCenterPlane(centerline: array<real>, p: Patch, f: Field, w: real, y: int) returns (ok: bool)
    requires 0 <= p.begin.x && 0 <= p.cells.x && (p.begin.x + p.cells.x) * 3 <= centerline.Length && 0 <= p.cells.z
    modifies centerline
    ensures ok == CenterReadable(p, f, y)
    ensures ok ==> forall k :: 0 <= k < centerline.Length ==>
      centerline[k] == old(centerline[k]) + CenterPlane(p, f, w, y, p.cells.z, k)
  {
    var lz := 0;
    while lz < p.cells.z
      invariant 0 <= lz <= p.cells.z
      invariant forall k :: 0 <= k < centerline.Length ==>
        centerline[k] == old(centerline[k]) + CenterPlane(p, f, w, y, lz, k)
      invariant forall x, z :: Owns(x, p.begin.x, p.cells.x) && Owns(z, p.begin.z, lz) ==> f(x, y, z).u.Finite?
    {
      ghost var before := centerline[..];
      var layer := AddCenterLayer(centerline, p, f, w, y, lz);
      assert Owns(p.begin.z + lz, p.begin.z, p.cells.z);
      if !layer {
        return false;
      }
      forall k | 0 <= k < centerline.Length
        ensures CenterPlane(p, f, w, y, lz + 1, k)
             == CenterPlane(p, f, w, y, lz, k) + CenterPartial(p, f, w, y, lz, p.cells.x, k)
      {
        SpanNext(p, CenterColumn(f, k / 3, y, k % 3, w), lz);
      }
      assert forall z :: Owns(z, p.begin.z, lz + 1) ==> Owns(z, p.begin.z, lz) || z == p.begin.z + lz;
      lz := lz + 1;
    }
    ok := true;
  }

  // ----- the whole update

  ghost predicate Sized(acc: Acc, g: Geometry, n: Int3) {
    |acc.profile| == ProfileSlotCount(g, n) && |acc.centerline| == n.x * 3
  }

  /** The update reads a bracketing plane when it carries weight and crosses the rank's box. */
  predicate ReadsPlane(b: Bracket, dt: real, begin: int, cells: int, side: int) {
    0 <= side < PlaneCount(b) && PlaneWeight(dt, b, side) != 0.0 && Owns(Plane(b, side), begin, cells)
  }

  ghost predicate StationReadable(g: Geometry, p: Patch, f: Field, dt: real, station: int)
    requires 0 <= station < |g.stations|
  {
    forall side :: ReadsPlane(g.stations[station], dt, p.begin.x, p.cells.x, side)
      ==> PlaneReadable(p, f, Plane(g.stations[station], side))
  }

  /** Every reading that the update of this rank takes is finite. */
  ghost predicate SampleReadable(g: Geometry, p: Patch, f: Field, dt: real) {
    && (forall s :: 0 <= s < |g.stations| ==> StationReadable(g, p, f, dt, s))
    && (forall side :: ReadsPlane(g.centerline, dt, p.begin.y, p.cells.y, side)
          ==> CenterReadable(p, f, Plane(g.centerline, side)))
  }

  /** One slot on every rank, the operand of a sum reduction. */
  ghost function ProfileSlots(ranks: seq<Acc>, k: int): int -> real {
    r => if 0 <= r < |ranks| && 0 <= k < |ranks[r].profile| then ranks[r].profile[k] else 0.0
  }

  ghost function CenterSlots(ranks: seq<Acc>, k: int): int -> real {
    r => if 0 <= r < |ranks| && 0 <= k < |ranks[r].centerline| then ranks[r].centerline[k] else 0.0
  }

  /** The accumulator of the rank owning p after one included step. */
  ghost function Sampled(acc: Acc, g: Geometry, n: Int3, p: Patch, f: Field, dt: real): Acc
    requires Sized(acc, g, n) && n.y > 0
  {
    Acc(seq(|acc.profile|, k requires 0 <= k < |acc.profile| => acc.profile[k] + ProfileGain(g, n, p, f, dt, k)),
        seq(|acc.centerline|, k requires 0 <= k < |acc.centerline| => acc.centerline[k] + CenterGain(g, p, f, dt, k)),
        acc.sampleSteps + 1, acc.epoch)
  }

  /** What the station loop has added to slot k when it reaches the given side of the given station. */
  ghost function PartialGain(g: Geometry, n: Int3, p: Patch, f: Field, dt: real, station: nat, side: nat, k: int): real
    requires n.y > 0 && 0 <= k < ProfileSlotCount(g, n) && station <= |g.stations|
  {
    StationInRange(|g.stations|, n.y, k);
    if k / 6 / n.y < station then ProfileGain(g, n, p, f, dt, k)
    else if k / 6 / n.y == station then Sum(side, ProfileSides(p, f, dt, g.stations[station], k / 6 % n.y, k % 6))
    else 0.0
  }

  lemma ColumnZero(p: Patch, column: int -> real, count: nat)
    requires forall z :: column(z) == 0.0
    ensures Span(p, column, count) == 0.0
  {
    var b := p.begin.z;
    SumZero(count, lz => column(b + lz));
  }

  /** A plane whose weight is zero, or that the rank does not own, adds nothing: skipping it is exact. */
  lemma SkippedPlane(p: Patch, f: Field, dt: real, b: Bracket, side: int, y: int, m: int)
    requires PlaneWeight(dt, b, side) == 0.0 || !Owns(Plane(b, side), p.begin.x, p.cells.x)
    ensures ProfileSides(p, f, dt, b, y, m)(side) == 0.0
  {
    var column := Column(f, Plane(b, side), y, m, PlaneWeight(dt, b, side));
    if p.cells.z >= 0 && PlaneWeight(dt, b, side) == 0.0 {
      ColumnZero(p, column, p.cells.z);
    }
  }

  lemma SkippedCenter(p: Patch, f: Field, dt: real, b: Bracket, side: int, x: int, m: int)
    requires PlaneWeight(dt, b, side) == 0.0 || !Owns(Plane(b, side), p.begin.y, p.cells.y)
    ensures CenterSides(p, f, dt, b, x, m)(side) == 0.0
  {
    var column := CenterColumn(f, x, Plane(b, side), m, PlaneWeight(dt, b, side));
    if p.cells.z >= 0 && PlaneWeight(dt, b, side) == 0.0 {
      ColumnZero(p, column, p.cells.z);
    }
  }

  lemma SideStep(g: Geometry, n: Int3, p: Patch, f: Field, dt: real, station: nat, side: nat, k: int)
    requires n.y > 0 && 0 <= k < ProfileSlotCount(g, n) && station < |g.stations| && p.cells.z >= 0
    requires Owns(Plane(g.stations[station], side), p.begin.x, p.cells.x)
    ensures PartialGain(g, n, p, f, dt, station, side + 1, k)
         == PartialGain(g, n, p, f, dt, station, side, k)
            + RowPlane(n.y, p, f, PlaneWeight(dt, g.stations[station], side), station,
                       Plane(g.stations[station], side), p.cells.z, k)
  {
    StationInRange(|g.stations|, n.y, k);
    var b, y, m := g.stations[station], k / 6 % n.y, k % 6;
    var x, w := Plane(b, side), PlaneWeight(dt, b, side);
    assert ProfileSides(p, f, dt, b, y, m)(side) == OwnedSpan(p, Column(f, x, y, m, w), x, y);
  }

  lemma SideSkip(g: Geometry, n: Int3, p: Patch, f: Field, dt: real, station: nat, side: nat, k: int)
    requires n.y > 0 && 0 <= k < ProfileSlotCount(g, n) && station < |g.stations|
    requires PlaneWeight(dt, g.stations[station], side) == 0.0
             || !Owns(Plane(g.stations[station], side), p.begin.x, p.cells.x)
    ensures PartialGain(g, n, p, f, dt, station, side + 1, k) == PartialGain(g, n, p, f, dt, station, side, k)
  {
    SkippedPlane(p, f, dt, g.stations[station], side, k / 6 % n.y, k % 6);
  }

  lemma StationDone(g: Geometry, n: Int3, p: Patch, f: Field, dt: real, station: nat, k: int)
    requires n.y > 0 && 0 <= k < ProfileSlotCount(g, n) && station < |g.stations|
    ensures PartialGain(g, n, p, f, dt, station, PlaneCount(g.stations[station]), k)
         == PartialGain(g, n, p, f, dt, station + 1, 0, k)
  {
  }

  lemma StationsDone(g: Geometry, n: Int3, p: Patch, f: Field, dt: real, k: int)
    requires n.y > 0 && 0 <= k < ProfileSlotCount(g, n)
    ensures PartialGain(g, n, p, f, dt, 0, 0, k) == 0.0
    ensures PartialGain(g, n, p, f, dt, |g.stations|, 0, k) == ProfileGain(g, n, p, f, dt, k)
  {
    StationInRange(|g.stations|, n.y, k);
  }

  class Accumulator {
    var profile: array<real>
    var centerline: array<real>
    var sampleSteps: nat
    var epoch: Epoch

    ghost predicate Valid()
      reads this
    {
      profile != centerline
    }

    ghost function Value(): Acc
      reads this, profile, centerline
    {
      Acc(profile[..], centerline[..], sampleSteps, epoch)
    }

    /** The side loop over one station's bracketing planes. */
    method AddStation(g: Geometry, n: Int3, p: Patch, f: Field, dt: real, station: nat) returns (ok: bool)
      requires Valid() && station < |g.stations| && profile.Length == ProfileSlotCount(g, n)
      requires ValidGeometry(g, n) && Inside(n, p) && n.y > 0
      modifies profile
      ensures ok == StationReadable(g, p, f, dt, station)
      ensures ok ==> forall k :: 0 <= k < profile.Length ==>
        profile[k] == old(profile[k]) + (PartialGain(g, n, p, f, dt, station + 1, 0, k)
                                         - PartialGain(g, n, p, f, dt, station, 0, k))
    {
      var selected := g.stations[station];
      var side := 0;
      while side < PlaneCount(selected)
        invariant 0 <= side <= PlaneCount(selected)
        invariant forall k :: 0 <= k < profile.Length ==>
          profile[k] == old(profile[k]) + (PartialGain(g, n, p, f, dt, station, side, k)
                                           - PartialGain(g, n, p, f, dt, station, 0, k))
        invariant forall s :: ReadsPlane(selected, dt, p.begin.x, p.cells.x, s) && s < side
                    ==> PlaneReadable(p, f, Plane(selected, s))
      {
        var gx := Plane(selected, side);
        var weight := PlaneWeight(dt, selected, side);
        if weight == 0.0 || !Owns(gx, p.begin.x, p.cells.x) {
          forall k | 0 <= k < profile.Length {
            SideSkip(g, n, p, f, dt, station, side, k);
          }
        } else {
          var plane := AddPlane(profile, n.y, |g.stations|, p, f, weight, station, gx);
          assert ReadsPlane(selected, dt, p.begin.x, p.cells.x, side);
          if !plane {
            return false;
          }
          forall k | 0 <= k < profile.Length {
            SideStep(g, n, p, f, dt, station, side, k);
          }
        }
        side := side + 1;
      }
      ok := true;
      forall k | 0 <= k < profile.Length {
        StationDone(g, n, p, f, dt, station, k);
      }
    }

    /** The side loop over the centreline's bracketing planes. */
    method AddCenterline(g: Geometry, n: Int3, p: Patch, f: Field, dt: real) returns (ok: bool)
      requires Valid() && centerline.Length == n.x * 3 && ValidGeometry(g, n) && Inside(n, p)
      modifies centerline
      ensures ok == forall side :: ReadsPlane(g.centerline, dt, p.begin.y, p.cells.y, side)
                      ==> CenterReadable(p, f, Plane(g.centerline, side))
      ensures ok ==> forall k :: 0 <= k < centerline.Length ==>
        centerline[k] == old(centerline[k]) + CenterGain(g, p, f, dt, k)
    {
      var selected := g.centerline;
      var side := 0;
      while side < PlaneCount(selected)
        invariant 0 <= side <= PlaneCount(selected)
        invariant forall k :: 0 <= k < centerline.Length ==>
          centerline[k] == old(centerline[k]) + Sum(side, CenterSides(p, f, dt, selected, k / 3, k % 3))
        invariant forall s :: ReadsPlane(selected, dt, p.begin.y, p.cells.y, s) && s < side
                    ==> CenterReadable(p, f, Plane(selected, s))
      {
        var gy := Plane(selected, side);
        var weight := PlaneWeight(dt, selected, side);
        if weight == 0.0 || !Owns(gy, p.begin.y, p.cells.y) {
          forall k | 0 <= k < centerline.Length {
            SkippedCenter(p, f, dt, selected, side, k / 3, k % 3);
          }
        } else {
          ghost var before := centerline[..];
          var plane := AddCenterPlane(centerline, p, f, weight, gy);
          assert ReadsPlane(selected, dt, p.begin.y, p.cells.y, side);
          if !plane {
            return false;
          }
          forall k | 0 <= k < centerline.Length
            ensures centerline[k] == before[k] + CenterSides(p, f, dt, selected, k / 3, k % 3)(side)
          {
            var column := CenterColumn(f, k / 3, gy, k % 3, weight);
            assert CenterSides(p, f, dt, selected, k / 3, k % 3)(side) == OwnedSpan(p, column, k / 3, gy);
          }
        }
        side := side + 1;
      }
      ok := true;
    }

    /** One included step on the rank owning p: refused without effect on the count when a reading is not finite. */
    method AddSample(g: Geometry, n: Int3, p: Patch, f: Field, dt: real) returns (ok: bool)
      requires Valid() && ValidGeometry(g, n) && Inside(n, p) && n.x > 0 && n.y > 0 && n.z > 0
      modifies this`sampleSteps, profile, centerline
      ensures ok == (dt > 0.0 && Sized(old(Value()), g, n) && SampleReadable(g, p, f, dt))
      ensures ok ==> Value() == Sampled(old(Value()), g, n, p, f, dt)
      ensures !ok ==> sampleSteps == old(sampleSteps)
    {
      if dt <= 0.0 || profile.Length != ProfileSlotCount(g, n) || centerline.Length != n.x * 3 {
        return false;
      }
      forall k | 0 <= k < profile.Length {
        StationsDone(g, n, p, f, dt, k);
      }
      var station := 0;
      while station < |g.stations|
        invariant 0 <= station <= |g.stations|
        invariant forall k :: 0 <= k < profile.Length ==>
          profile[k] == old(profile[k]) + PartialGain(g, n, p, f, dt, station, 0, k)
        invariant forall s :: 0 <= s < station ==> StationReadable(g, p, f, dt, s)
        invariant centerline[..] == old(centerline[..]) && sampleSteps == old(sampleSteps)
      {
        var added := AddStation(g, n, p, f, dt, station);
        if !added {
          return false;
        }
        station := station + 1;
      }
      var center := AddCenterline(g, n, p, f, dt);
      if !center {
        return false;
      }
      sampleSteps := sampleSteps + 1;
      ok := true;
    }
  }
}
