/** Adopting the native face fluxes, and the counters that say how many faces that changed. */
module MeshAudit {
  import opened Reals
  import opened GridOffsets
  import opened GridSums
  import opened GridTypes
  import opened MeshBlocks
  import opened MeshFaces
  import opened MeshFlux
  import opened Sums

  const ORIGIN := Int3(0, 0, 0)

  /** The four audited quantities of one face: is it changed, by how much; is it an interior face that was closed and
      now carries flow, and how much. */
  datatype Finding = Changed | Change | Opened | Flow

  function Size(what: Finding, before: real, after: real, interior: bool): real {
    match what
    case Changed => if before != after then 1.0 else 0.0
    case Change => if before != after then Abs(after - before) else 0.0
    case Opened => if interior && before == 0.0 && after != 0.0 then 1.0 else 0.0
    case Flow => if interior && before == 0.0 && after != 0.0 then Abs(after) else 0.0
  }

  predicate Interior(n: Int3, a: Axis, f: Int3) {
    0 < Along(a, f) < Along(a, n)
  }

  /** A finding at one of the rank's stored faces; faces another rank owns count nothing. */
  ghost function LocalFinding(what: Finding, before: seq<real>, after: seq<real>, n: Int3, p: Patch, a: Axis):
    Int3 -> real
  {
    l => if InGrid(OwnedFaces(n, p, a).cells, l) && Fits(before, p, a, l) && Fits(after, p, a, l)
         then Size(what, StoredAt(before, p, a, l), StoredAt(after, p, a, l), Interior(n, a, Plus(p.begin, l)))
         else 0.0
  }

  predicate Fits(values: seq<real>, p: Patch, a: Axis, l: Int3) {
    MeshFlux.Sized(values, p, a) && InGrid(Step(a, p.cells, 1), l)
  }

  datatype Tally = Tally(changed: nat, change: real, unsealed: nat, flow: real)

  function Amount(t: Tally, what: Finding): real {
    match what
    case Changed => t.changed as real
    case Change => t.change
    case Opened => t.unsealed as real
    case Flow => t.flow
  }

  /** From one tally to another, each finding grew by its amount. */
  ghost predicate Grew(t: Tally, u: Tally, amounts: Finding -> real) {
    forall what :: Amount(u, what) == Amount(t, what) + amounts(what)
  }

  ghost function FaceSizes(before: real, after: real, owned: bool, interior: bool): Finding -> real {
    what => if owned then Size(what, before, after, interior) else 0.0
  }

  ghost function FaceFindings(before: seq<real>, after: seq<real>, n: Int3, p: Patch, a: Axis, l: Int3):
    Finding -> real
  {
    what => LocalFinding(what, before, after, n, p, a)(l)
  }

  lemma SameGrowth(t: Tally, u: Tally, x: Finding -> real, y: Finding -> real)
    requires Grew(t, u, x) && forall what :: x(what) == y(what)
    ensures Grew(t, u, y)
  {
    forall what
      ensures Amount(u, what) == Amount(t, what) + y(what)
    {
      assert Amount(u, what) == Amount(t, what) + x(what);
    }
  }

  class Audit {
    var changed: nat
    var change: real
    var unsealed: nat
    var flow: real

    constructor ()
      ensures State() == Tally(0, 0.0, 0, 0.0)
    {
      changed, change, unsealed, flow := 0, 0.0, 0, 0.0;
    }

    function State(): Tally
      reads this
    {
      Tally(changed, change, unsealed, flow)
    }

    /** One face of the loop. */
    method Face(before: real, after: real, owned: bool, interior: bool)
      modifies this
      ensures Grew(old(State()), State(), FaceSizes(before, after, owned, interior))
    {
      if owned && before != after {
        changed := changed + 1;
        change := change + Abs(after - before);
      }
      if owned && interior && before == 0.0 && after != 0.0 {
        unsealed := unsealed + 1;
        flow := flow + Abs(after);
      }
    }
  }

  /** A native flux as it is read back. */
  datatype Reading = Finite(value: real) | NonFinite

  function Values(native: seq<Reading>): (r: seq<real>)
    ensures |r| == |native| && forall k :: 0 <= k < |r| && native[k].Finite? ==> r[k] == native[k].value
  {
    seq(|native|, k requires 0 <= k < |native| => if native[k].Finite? then native[k].value else 0.0)
  }

  ghost predicate FiniteTo(native: seq<Reading>, n: int) {
    n <= |native| && forall k :: 0 <= k < n ==> native[k].Finite?
  }

  /** The first stored faces have been replaced. */
  ghost predicate Replaced(image: seq<real>, before: seq<real>, native: seq<real>, n: int) {
    && |image| == |before| == |native|
    && forall k :: 0 <= k < |image| ==> image[k] == if k < n then native[k] else before[k]
  }

  ghost function RowSums(before: seq<real>, native: seq<real>, n: Int3, p: Patch, a: Axis, y: int, z: int, x: nat):
    Finding -> real
  {
    what => Sum(x, XLine(ORIGIN, LocalFinding(what, before, native, n, p, a), y, z))
  }

  ghost function SheetSums(before: seq<real>, native: seq<real>, n: Int3, p: Patch, a: Axis, z: int, y: nat):
    Finding -> real
  {
    what => Sum(y, YLine(Whole(Step(a, p.cells, 1)), LocalFinding(what, before, native, n, p, a), z))
  }

  ghost function BoxSums(before: seq<real>, native: seq<real>, n: Int3, p: Patch, a: Axis, z: nat): Finding -> real {
    what => Sum(z, ZLine(Whole(Step(a, p.cells, 1)), LocalFinding(what, before, native, n, p, a)))
  }

  lemma FindingFound(before: seq<real>, after: seq<real>, n: Int3, p: Patch, a: Axis, l: Int3, what: Finding)
    requires InGrid(Step(a, p.cells, 1), l) && MeshFlux.Sized(before, p, a) && MeshFlux.Sized(after, p, a)
    ensures FaceFindings(before, after, n, p, a, l)(what)
            == FaceSizes(StoredAt(before, p, a, l), StoredAt(after, p, a, l), InGrid(OwnedFaces(n, p, a).cells, l),
                         Interior(n, a, Plus(p.begin, l)))(what)
  {
    assert Fits(before, p, a, l) && Fits(after, p, a, l);
    var interior := Interior(n, a, Plus(p.begin, l));
    var size := Size(what, StoredAt(before, p, a, l), StoredAt(after, p, a, l), interior);
    assert LocalFinding(what, before, after, n, p, a)(l) == if InGrid(OwnedFaces(n, p, a).cells, l) then size else 0.0;
  }

  /** One face of the loop nest: refused if it is not finite, else audited if owned, then replaced. */
  method AdoptFace(audit: Audit, image: array<real>, ghost before: seq<real>, readings: seq<Reading>, n: Int3, p: Patch,
                   a: Axis, l: Int3, ghost at: int)
    returns (ok: bool)
    requires NonEmpty(p) && InGrid(Step(a, p.cells, 1), l) && at == Offset(Step(a, p.cells, 1), l)
    requires MeshFlux.Sized(before, p, a) && FiniteTo(readings, at) && Replaced(image[..], before, Values(readings), at)
    modifies audit, image
    ensures ok <==> FiniteTo(readings, at + 1)
    ensures ok ==> Replaced(image[..], before, Values(readings), at + 1)
    ensures ok ==> Grew(old(audit.State()), audit.State(), FaceFindings(before, Values(readings), n, p, a, l))
  {
    ghost var native := Values(readings);
    var extents, owned := Step(a, p.cells, 1), OwnedFaces(n, p, a).cells;
    OffsetInRange(extents, l);
    var face := Offset(extents, l);
    var global := Plus(p.begin, l);
    if readings[face].NonFinite? {
      return false;
    }
    var after := readings[face].value;
    assert image[face] == before[face] == StoredAt(before, p, a, l);
    assert after == native[face] == StoredAt(native, p, a, l);
    ghost var start := audit.State();
    audit.Face(image[face], after, InGrid(owned, l), Interior(n, a, global));
    ghost var sizes := FaceSizes(image[face], native[face], InGrid(owned, l), Interior(n, a, global));
    ghost var findings := FaceFindings(before, native, n, p, a, l);
    forall what
      ensures sizes(what) == findings(what)
    {
      FindingFound(before, native, n, p, a, l, what);
    }
    SameGrowth(start, audit.State(), sizes, findings);
    ghost var was := image[..];
    image[face] := after;
    assert image[..] == was[face := native[face]];
    ok := true;
  }

  /** The next face of a row, whose first faces have been adopted since a given tally. */
  method AdoptNext(audit: Audit, image: array<real>, ghost before: seq<real>, readings: seq<Reading>, n: Int3, p: Patch,
                   a: Axis, x: nat, y: int, z: int, ghost at: int, ghost start: Tally)
    returns (ok: bool)
    requires NonEmpty(p) && InGrid(Step(a, p.cells, 1), Int3(x, y, z))
    requires at == Offset(Step(a, p.cells, 1), Int3(x, y, z))
    requires MeshFlux.Sized(before, p, a) && FiniteTo(readings, at) && Replaced(image[..], before, Values(readings), at)
    requires Grew(start, audit.State(), RowSums(before, Values(readings), n, p, a, y, z, x))
    modifies audit, image
    ensures ok <==> FiniteTo(readings, at + 1)
    ensures ok ==> Replaced(image[..], before, Values(readings), at + 1)
    ensures ok ==> Grew(start, audit.State(), RowSums(before, Values(readings), n, p, a, y, z, x + 1))
  {
    ghost var was := audit.State();
    ok := AdoptFace(audit, image, before, readings, n, p, a, Int3(x, y, z), at);
    if ok {
      RowGrows(start, was, audit.State(), before, Values(readings), n, p, a, y, z, x);
    }
  }

  /** The faces of one row, which are stored one after the other. */
  method AdoptRow(audit: Audit, image: array<real>, ghost before: seq<real>, readings: seq<Reading>, n: Int3, p: Patch,
                  a: Axis, y: int, z: int, ghost at: int)
    returns (ok: bool)
    requires NonEmpty(p) && 0 <= y < Step(a, p.cells, 1).y && 0 <= z < Step(a, p.cells, 1).z
    requires at == Offset(Step(a, p.cells, 1), Int3(0, y, z))
    requires MeshFlux.Sized(before, p, a) && FiniteTo(readings, at) && Replaced(image[..], before, Values(readings), at)
    modifies audit, image
    ensures ok ==> FiniteTo(readings, at + Step(a, p.cells, 1).x)
    ensures !ok ==> !FiniteTo(readings, at + Step(a, p.cells, 1).x)
    ensures ok ==> Replaced(image[..], before, Values(readings), at + Step(a, p.cells, 1).x)
    ensures ok ==> Grew(old(audit.State()), audit.State(),
                        RowSums(before, Values(readings), n, p, a, y, z, Step(a, p.cells, 1).x))
  {
    var extents := Step(a, p.cells, 1);
    ghost var start := audit.State();
    var x := 0;
    while x < extents.x
      invariant 0 <= x <= extents.x && FiniteTo(readings, at + x)
      invariant Replaced(image[..], before, Values(readings), at + x)
      invariant Grew(start, audit.State(), RowSums(before, Values(readings), n, p, a, y, z, x))
    {
      AlongRow(extents, x, y, z);
      ok := AdoptNext(audit, image, before, readings, n, p, a, x, y, z, at + x, start);
      if !ok {
        return;
      }
      x := x + 1;
    }
    ok := true;
  }

  lemma AlongRow(extents: Int3, x: int, y: int, z: int)
    ensures Offset(extents, Int3(x, y, z)) == Offset(extents, Int3(0, y, z)) + x
  {
  }

  lemma RowEnd(extents: Int3, y: int, z: int)
    requires 0 <= y < extents.y && 0 <= z < extents.z && extents.x > 0
    ensures Offset(extents, Int3(0, y + 1, z)) == Offset(extents, Int3(0, y, z)) + extents.x
  {
    RowEnds(extents, y, z);
  }

  lemma RowGrows(t: Tally, u: Tally, v: Tally, before: seq<real>, native: seq<real>, n: Int3, p: Patch, a: Axis, y: int,
                 z: int, x: nat)
    requires Grew(t, u, RowSums(before, native, n, p, a, y, z, x))
    requires Grew(u, v, FaceFindings(before, native, n, p, a, Int3(x, y, z)))
    ensures Grew(t, v, RowSums(before, native, n, p, a, y, z, x + 1))
  {
    forall what
      ensures Amount(v, what) == Amount(t, what) + RowSums(before, native, n, p, a, y, z, x + 1)(what)
    {
      var line := XLine(ORIGIN, LocalFinding(what, before, native, n, p, a), y, z);
      assert Sum(x + 1, line) == Sum(x, line) + line(x);
      assert Int3(0 + x, 0 + y, 0 + z) == Int3(x, y, z);
      assert Amount(u, what) == Amount(t, what) + RowSums(before, native, n, p, a, y, z, x)(what);
      assert Amount(v, what) == Amount(u, what) + FaceFindings(before, native, n, p, a, Int3(x, y, z))(what);
    }
  }

  method AdoptSheet(audit: Audit, image: array<real>, ghost before: seq<real>, readings: seq<Reading>, n: Int3,
                    p: Patch, a: Axis, z: int)
    returns (ok: bool)
    requires NonEmpty(p) && 0 <= z < Step(a, p.cells, 1).z && MeshFlux.Sized(before, p, a)
    requires FiniteTo(readings, Offset(Step(a, p.cells, 1), Int3(0, 0, z)))
    requires Replaced(image[..], before, Values(readings), Offset(Step(a, p.cells, 1), Int3(0, 0, z)))
    modifies audit, image
    ensures ok <==> FiniteTo(readings, Offset(Step(a, p.cells, 1), Int3(0, 0, z + 1)))
    ensures ok ==> Replaced(image[..], before, Values(readings), Offset(Step(a, p.cells, 1), Int3(0, 0, z + 1)))
    ensures ok ==> Grew(old(audit.State()), audit.State(),
                        SheetSums(before, Values(readings), n, p, a, z, Step(a, p.cells, 1).y))
  {
    ghost var native := Values(readings);
    var extents := Step(a, p.cells, 1);
    ghost var start := audit.State();
    var y := 0;
    while y < extents.y
      invariant 0 <= y <= extents.y
      invariant FiniteTo(readings, Offset(extents, Int3(0, y, z)))
      invariant Replaced(image[..], before, native, Offset(extents, Int3(0, y, z)))
      invariant Grew(start, audit.State(), SheetSums(before, native, n, p, a, z, y))
    {
      ghost var here := audit.State();
      RowEnd(extents, y, z);
      ok := AdoptRow(audit, image, before, readings, n, p, a, y, z, Offset(extents, Int3(0, y, z)));
      if !ok {
        FiniteFails(readings, extents, y, z);
        return;
      }
      SheetGrows(start, here, audit.State(), before, native, n, p, a, z, y);
      y := y + 1;
    }
    RowEnds(extents, 0, z);
    ok := true;
  }

  /** Rows come one after the other, so a row that is not finite leaves its sheet, and a sheet the box, not finite. */
  lemma FiniteFails(readings: seq<Reading>, extents: Int3, y: int, z: int)
    requires extents.x > 0 && 0 <= y < extents.y && 0 <= z < extents.z
    requires !FiniteTo(readings, Offset(extents, Int3(0, y + 1, z)))
    ensures !FiniteTo(readings, Offset(extents, Int3(0, 0, z + 1)))
  {
    Rises(extents.x, y + 1 + extents.y * z, extents.y + extents.y * z);
    LastRow(extents.y, z);
  }

  lemma Rises(x: int, a: int, b: int)
    requires x > 0 && a <= b
    ensures x * a <= x * b
  {
  }

  lemma LastRow(ny: int, z: int)
    ensures ny + ny * z == 0 + ny * (z + 1)
  {
  }

  lemma SheetFails(readings: seq<Reading>, extents: Int3, z: int)
    requires extents.x > 0 && extents.y > 0 && 0 <= z < extents.z
    requires !FiniteTo(readings, Offset(extents, Int3(0, 0, z + 1)))
    ensures !FiniteTo(readings, Volume(extents))
  {
    Rises(extents.y, z + 1, extents.z);
    Rises(extents.x, 0 + extents.y * (z + 1), extents.y * extents.z);
  }

  lemma SheetGrows(t: Tally, u: Tally, v: Tally, before: seq<real>, native: seq<real>, n: Int3, p: Patch, a: Axis,
                   z: int, y: nat)
    requires NonEmpty(p)
    requires Grew(t, u, SheetSums(before, native, n, p, a, z, y))
    requires Grew(u, v, RowSums(before, native, n, p, a, y, z, Step(a, p.cells, 1).x))
    ensures Grew(t, v, SheetSums(before, native, n, p, a, z, y + 1))
  {
    forall what
      ensures Amount(v, what) == Amount(t, what) + SheetSums(before, native, n, p, a, z, y + 1)(what)
    {
      var line := YLine(Whole(Step(a, p.cells, 1)), LocalFinding(what, before, native, n, p, a), z);
      assert Sum(y + 1, line) == Sum(y, line) + line(y);
      assert line(y) == RowSums(before, native, n, p, a, y, z, Step(a, p.cells, 1).x)(what);
      assert Amount(u, what) == Amount(t, what) + SheetSums(before, native, n, p, a, z, y)(what);
    }
  }

  lemma BoxGrows(t: Tally, u: Tally, v: Tally, before: seq<real>, native: seq<real>, n: Int3, p: Patch, a: Axis, z: nat)
    requires NonEmpty(p)
    requires Grew(t, u, BoxSums(before, native, n, p, a, z))
    requires Grew(u, v, SheetSums(before, native, n, p, a, z, Step(a, p.cells, 1).y))
    ensures Grew(t, v, BoxSums(before, native, n, p, a, z + 1))
  {
    forall what
      ensures Amount(v, what) == Amount(t, what) + BoxSums(before, native, n, p, a, z + 1)(what)
    {
      var line := ZLine(Whole(Step(a, p.cells, 1)), LocalFinding(what, before, native, n, p, a));
      assert Sum(z + 1, line) == Sum(z, line) + line(z);
      assert line(z) == SheetSums(before, native, n, p, a, z, Step(a, p.cells, 1).y)(what);
      assert Amount(u, what) == Amount(t, what) + BoxSums(before, native, n, p, a, z)(what);
    }
  }

  ghost function RankFindings(before: seq<real>, native: seq<real>, n: Int3, p: Patch, a: Axis): Finding -> real {
    what => BoxSum(Whole(Step(a, p.cells, 1)), LocalFinding(what, before, native, n, p, a))
  }

  /** Where a rank stands: its box and its position among the processes. */
  datatype Place = Place(patch: Patch, processes: Int3, position: Int3)

  /** The native fluxes can be adopted: they belong to the same rank, fit its faces, and are finite. */
  ghost predicate Adoptable(here: Place, native: Place, readings: seq<Reading>, a: Axis) {
    native == here && |readings| == Volume(Step(a, here.patch.cells, 1)) && FiniteTo(readings, |readings|)
  }

  /** The adoption of one axis: the stored fluxes become the native ones, and every finding at an owned face is audited
      once. */
  method AdoptFlux(audit: Audit, image: array<real>, native: Place, readings: seq<Reading>, n: Int3, here: Place,
                   a: Axis)
    returns (ok: bool)
    requires NonEmpty(here.patch) && MeshFlux.Sized(image[..], here.patch, a)
    modifies audit, image
    ensures ok <==> Adoptable(here, native, readings, a)
    ensures native != here || |readings| != image.Length ==>
              image[..] == old(image[..]) && audit.State() == old(audit.State())
    ensures ok ==> image[..] == Values(readings)
    ensures ok ==> Grew(old(audit.State()), audit.State(),
                        RankFindings(old(image[..]), Values(readings), n, here.patch, a))
  {
    if native != here || image.Length != |readings| {
      return false;
    }
    var p := here.patch;
    var extents := Step(a, p.cells, 1);
    ghost var values := Values(readings);
    ghost var before, start := image[..], audit.State();
    var z := 0;
    while z < extents.z
      invariant 0 <= z <= extents.z && FiniteTo(readings, Offset(extents, Int3(0, 0, z)))
      invariant Replaced(image[..], before, values, Offset(extents, Int3(0, 0, z)))
      invariant Grew(start, audit.State(), BoxSums(before, values, n, p, a, z))
    {
      ghost var was := audit.State();
      ok := AdoptSheet(audit, image, before, readings, n, p, a, z);
      if !ok {
        SheetFails(readings, extents, z);
        return;
      }
      BoxGrows(start, was, audit.State(), before, values, n, p, a, z);
      z := z + 1;
    }
    LastOffset(extents);
    ok := true;
  }

  lemma LastOffset(cells: Int3)
    ensures Offset(cells, Int3(0, 0, cells.z)) == Volume(cells)
  {
  }

  // ----- the reduction over ranks

  /** A finding at a face of the grid. */
  ghost function GlobalFinding(what: Finding, before: Int3 -> real, after: Int3 -> real, n: Int3, a: Axis):
    Int3 -> real
  {
    f => Size(what, before(f), after(f), Interior(n, a, f))
  }

  ghost function Here(p: Patch, g: Int3 -> real): Int3 -> real {
    l => g(Plus(p.begin, l))
  }

  lemma LocalIsMasked(what: Finding, b: seq<real>, c: seq<real>, before: Int3 -> real, after: Int3 -> real, n: Int3,
                      p: Patch, a: Axis, l: Int3)
    requires Stores(b, p, a, before) && Stores(c, p, a, after) && InGrid(Step(a, p.cells, 1), l)
    ensures LocalFinding(what, b, c, n, p, a)(l)
            == Masked(Patch(ORIGIN, OwnedFaces(n, p, a).cells), Here(p, GlobalFinding(what, before, after, n, a)))(l)
  {
    assert StoredAt(b, p, a, l) == before(Plus(p.begin, l));
    assert StoredAt(c, p, a, l) == after(Plus(p.begin, l));
  }

  /** What a rank audits is a sum over the global faces it owns. */
  lemma RankAudit(what: Finding, b: seq<real>, c: seq<real>, before: Int3 -> real, after: Int3 -> real, n: Int3,
                  p: Patch, a: Axis)
    requires Inside(n, p) && Stores(b, p, a, before) && Stores(c, p, a, after)
    ensures RankFindings(b, c, n, p, a)(what)
            == BoxSum(OwnedFaces(n, p, a), GlobalFinding(what, before, after, n, a))
  {
    var extents, owned := Step(a, p.cells, 1), OwnedFaces(n, p, a);
    var g := GlobalFinding(what, before, after, n, a);
    var local := Patch(ORIGIN, owned.cells);
    forall l | OwnsCell(Whole(extents), l)
      ensures LocalFinding(what, b, c, n, p, a)(l) == Masked(local, Here(p, g))(l)
    {
      LocalIsMasked(what, b, c, before, after, n, p, a, l);
    }
    BoxPointwise(Whole(extents), LocalFinding(what, b, c, n, p, a), Masked(local, Here(p, g)));
    MaskedBox(extents, local, Here(p, g));
    HereSum(p, owned, g);
  }

  lemma HereSum(p: Patch, owned: Patch, g: Int3 -> real)
    requires owned.begin == p.begin
    ensures BoxSum(Patch(ORIGIN, owned.cells), Here(p, g)) == BoxSum(owned, g)
  {
    forall x, y, z | 0 <= x < owned.cells.x && 0 <= y < owned.cells.y && 0 <= z < owned.cells.z
      ensures XLine(ORIGIN, Here(p, g), y, z)(x) == XLine(owned.begin, g, y, z)(x)
    {
      assert Plus(p.begin, Int3(0 + x, 0 + y, 0 + z)) == Int3(p.begin.x + x, p.begin.y + y, p.begin.z + z);
    }
    BoxCongruent(Patch(ORIGIN, owned.cells), owned, Here(p, g), g);
  }

  ghost function RankAmounts(tiling: seq<Patch>, before: seq<seq<real>>, after: seq<seq<real>>, n: Int3, a: Axis,
                             what: Finding): int -> real
  {
    r => if 0 <= r < |tiling| && r < |before| && r < |after|
         then RankFindings(before[r], after[r], n, tiling[r], a)(what) else 0.0
  }

  /** Summed over the ranks, the audited counts are counts over the faces of the whole grid: no face is missed and none,
      shared as it may be, is counted twice. */
  lemma AuditIsGlobal(n: Int3, tiling: seq<Patch>, a: Axis, what: Finding, bs: seq<seq<real>>, cs: seq<seq<real>>,
                      before: Int3 -> real, after: Int3 -> real)
    requires Tiles(n, tiling) && |bs| == |cs| == |tiling|
    requires forall r :: 0 <= r < |tiling| ==> NonEmpty(tiling[r])
    requires forall r :: 0 <= r < |tiling| ==> Stores(bs[r], tiling[r], a, before) && Stores(cs[r], tiling[r], a, after)
    ensures Sum(|tiling|, RankAmounts(tiling, bs, cs, n, a, what))
            == BoxSum(Whole(FaceGrid(n, a)), GlobalFinding(what, before, after, n, a))
  {
    var g := GlobalFinding(what, before, after, n, a);
    forall r | 0 <= r < |tiling|
      ensures RankAmounts(tiling, bs, cs, n, a, what)(r) == RankSums(OwnedFaceBoxes(n, tiling, a), g)(r)
    {
      RankAudit(what, bs[r], cs[r], before, after, n, tiling[r], a);
    }
    SumCongruent(|tiling|, RankAmounts(tiling, bs, cs, n, a, what), RankSums(OwnedFaceBoxes(n, tiling, a), g));
    FaceSums(n, tiling, a, g);
  }
}
