/** Faces of the grid, their owners, and the divergence. */
module MeshFaces {
  import opened GridOffsets
  import opened GridSums
  import opened GridTypes
  import opened Sums

  /** One more face than cells along the axis. */
  function FaceGrid(n: Int3, a: Axis): Int3 {
    Step(a, n, 1)
  }

  /** The faces a rank owns: the lower face of each of its cells, and the domain's last face if its box ends there. */
  function OwnedFaces(n: Int3, p: Patch, a: Axis): Patch {
    Patch(p.begin, if Along(a, p.begin) + Along(a, p.cells) == Along(a, n) then Step(a, p.cells, 1) else p.cells)
  }

  function OwnedFaceBoxes(n: Int3, tiling: seq<Patch>, a: Axis): (r: seq<Patch>)
    ensures |r| == |tiling| && forall i :: 0 <= i < |r| ==> r[i] == OwnedFaces(n, tiling[i], a)
  {
    seq(|tiling|, i requires 0 <= i < |tiling| => OwnedFaces(n, tiling[i], a))
  }

  predicate NonEmpty(p: Patch) {
    p.cells.x > 0 && p.cells.y > 0 && p.cells.z > 0
  }

  /** The cell whose owner owns the face: the one above it, or the last one for the last face. */
  function OwningCell(n: Int3, a: Axis, f: Int3): Int3 {
    if Along(a, f) == Along(a, n) then Step(a, f, -1) else f
  }

  lemma OwnerOfFace(n: Int3, p: Patch, a: Axis, f: Int3)
    requires Inside(n, p) && NonEmpty(p)
    ensures OwnsCell(OwnedFaces(n, p, a), f) <==> OwnsCell(p, OwningCell(n, a, f))
  {
  }

  /** In any tiling by nonempty boxes, every face of the grid is owned by exactly one rank. */
  lemma FacesTiled(n: Int3, tiling: seq<Patch>, a: Axis)
    requires Tiles(n, tiling) && forall r :: 0 <= r < |tiling| ==> NonEmpty(tiling[r])
    ensures Tiles(FaceGrid(n, a), OwnedFaceBoxes(n, tiling, a))
  {
    var boxes := OwnedFaceBoxes(n, tiling, a);
    forall r | 0 <= r < |boxes|
      ensures Inside(FaceGrid(n, a), boxes[r])
    {
      assert Inside(n, tiling[r]);
    }
    forall f | InGrid(FaceGrid(n, a), f)
      ensures exists r :: 0 <= r < |boxes| && OwnsCell(boxes[r], f)
    {
      SomeRankHasCells(n, tiling);
      assert InGrid(n, OwningCell(n, a, f));
      var r :| 0 <= r < |tiling| && OwnsCell(tiling[r], OwningCell(n, a, f));
      OwnerOfFace(n, tiling[r], a, f);
      assert OwnsCell(boxes[r], f);
    }
    forall f, r, s | 0 <= r < |boxes| && 0 <= s < |boxes| && OwnsCell(boxes[r], f) && OwnsCell(boxes[s], f)
      ensures r == s
    {
      OwnerOfFace(n, tiling[r], a, f);
      OwnerOfFace(n, tiling[s], a, f);
    }
  }

  lemma SomeRankHasCells(n: Int3, tiling: seq<Patch>)
    requires Tiles(n, tiling) && forall r :: 0 <= r < |tiling| ==> NonEmpty(tiling[r])
    ensures n.x > 0 && n.y > 0 && n.z > 0
  {
    assert Inside(n, tiling[0]) && NonEmpty(tiling[0]);
  }

  /** Anything the ranks add up over the faces they own is a sum over the faces of the grid. */
  lemma FaceSums(n: Int3, tiling: seq<Patch>, a: Axis, f: Int3 -> real)
    requires Tiles(n, tiling) && forall r :: 0 <= r < |tiling| ==> NonEmpty(tiling[r])
    ensures Sum(|tiling|, RankSums(OwnedFaceBoxes(n, tiling, a), f)) == BoxSum(Whole(FaceGrid(n, a)), f)
  {
    FacesTiled(n, tiling, a);
    RanksSum(FaceGrid(n, a), OwnedFaceBoxes(n, tiling, a), f);
  }

  // ----- the divergence

  /** What leaves a cell along one axis. */
  ghost function AxisOutflow(flux: Int3 -> real, a: Axis): Int3 -> real {
    c => flux(Step(a, c, 1)) - flux(c)
  }

  /** The cells' faces on one plane across the axis. */
  function Slab(n: Int3, a: Axis, at: int): Patch {
    match a
    case X => Patch(Int3(at, 0, 0), Int3(1, n.y, n.z))
    case Y => Patch(Int3(0, at, 0), Int3(n.x, 1, n.z))
    case Z => Patch(Int3(0, 0, at), Int3(n.x, n.y, 1))
  }

  function Shifted(n: Int3, a: Axis): Patch {
    Patch(Step(a, Int3(0, 0, 0), 1), n)
  }

  lemma TwoBoxes(n: Int3, p: Patch, q: Patch)
    requires Inside(n, p) && Inside(n, q)
    requires forall c :: InGrid(n, c) ==> OwnsCell(p, c) || OwnsCell(q, c)
    requires forall c :: !(OwnsCell(p, c) && OwnsCell(q, c))
    ensures Tiles(n, [p, q])
  {
    var tiling := [p, q];
    forall c | InGrid(n, c)
      ensures exists r :: 0 <= r < |tiling| && OwnsCell(tiling[r], c)
    {
      if OwnsCell(p, c) {
        assert OwnsCell(tiling[0], c);
      } else {
        assert OwnsCell(tiling[1], c);
      }
    }
  }

  lemma TwoBoxSum(n: Int3, p: Patch, q: Patch, f: Int3 -> real)
    requires Inside(n, p) && Inside(n, q)
    requires forall c :: InGrid(n, c) ==> OwnsCell(p, c) || OwnsCell(q, c)
    requires forall c :: !(OwnsCell(p, c) && OwnsCell(q, c))
    ensures BoxSum(p, f) + BoxSum(q, f) == BoxSum(Whole(n), f)
  {
    TwoBoxes(n, p, q);
    RanksSum(n, [p, q], f);
    var sums := RankSums([p, q], f);
    assert Sum(2, sums) == Sum(1, sums) + sums(1) && Sum(1, sums) == Sum(0, sums) + sums(0);
  }

  ghost function Next(flux: Int3 -> real, a: Axis): Int3 -> real {
    c => flux(Step(a, c, 1))
  }

  ghost function Opposite(flux: Int3 -> real): Int3 -> real {
    c => -flux(c)
  }

  lemma BoxOpposite(p: Patch, f: Int3 -> real)
    ensures BoxSum(p, Opposite(f)) == -BoxSum(p, f)
  {
    BoxPlus(p, f, Opposite(f));
    BoxCongruent(p, p, Added(f, Opposite(f)), Zero());
    BoxZero(p);
  }

  ghost function ThroughBoundary(n: Int3, flux: Int3 -> real, a: Axis): real {
    BoxSum(Slab(n, a, Along(a, n)), flux) - BoxSum(Slab(n, a, 0), flux)
  }

  lemma NextShifts(n: Int3, flux: Int3 -> real, a: Axis)
    ensures BoxSum(Whole(n), Next(flux, a)) == BoxSum(Shifted(n, a), flux)
  {
    var b := Shifted(n, a).begin;
    forall x, y, z | 0 <= x < n.x && 0 <= y < n.y && 0 <= z < n.z
      ensures XLine(Whole(n).begin, Next(flux, a), y, z)(x) == XLine(b, flux, y, z)(x)
    {
      assert Step(a, Int3(0 + x, 0 + y, 0 + z), 1) == Int3(b.x + x, b.y + y, b.z + z);
    }
    BoxCongruent(Whole(n), Shifted(n, a), Next(flux, a), flux);
  }

  lemma FirstPlane(n: Int3, flux: Int3 -> real, a: Axis)
    requires n.x >= 0 && n.y >= 0 && n.z >= 0
    ensures BoxSum(Whole(n), Next(flux, a)) + BoxSum(Slab(n, a, 0), flux) == BoxSum(Whole(FaceGrid(n, a)), flux)
  {
    NextShifts(n, flux, a);
    TwoBoxSum(FaceGrid(n, a), Shifted(n, a), Slab(n, a, 0), flux);
  }

  lemma LastPlane(n: Int3, flux: Int3 -> real, a: Axis)
    requires n.x >= 0 && n.y >= 0 && n.z >= 0
    ensures BoxSum(Whole(n), flux) + BoxSum(Slab(n, a, Along(a, n)), flux) == BoxSum(Whole(FaceGrid(n, a)), flux)
  {
    TwoBoxSum(FaceGrid(n, a), Whole(n), Slab(n, a, Along(a, n)), flux);
  }

  lemma OutflowSplits(n: Int3, flux: Int3 -> real, a: Axis)
    ensures BoxSum(Whole(n), AxisOutflow(flux, a)) == BoxSum(Whole(n), Next(flux, a)) - BoxSum(Whole(n), flux)
  {
    BoxPlus(Whole(n), Next(flux, a), Opposite(flux));
    BoxOpposite(Whole(n), flux);
    BoxCongruent(Whole(n), Whole(n), AxisOutflow(flux, a), Added(Next(flux, a), Opposite(flux)));
  }

  /** Summed over the grid, the outflow along an axis is what crosses the last plane less what crosses the first. */
  lemma OutflowTelescopes(n: Int3, flux: Int3 -> real, a: Axis)
    requires n.x >= 0 && n.y >= 0 && n.z >= 0
    ensures BoxSum(Whole(n), AxisOutflow(flux, a)) == ThroughBoundary(n, flux, a)
  {
    FirstPlane(n, flux, a);
    LastPlane(n, flux, a);
    OutflowSplits(n, flux, a);
  }

  /** The discrete divergence: what leaves a cell through its six faces. */
  ghost function Divergence(flux: Axis -> Int3 -> real): Int3 -> real {
    c => AxisOutflow(flux(X), X)(c) + AxisOutflow(flux(Y), Y)(c) + AxisOutflow(flux(Z), Z)(c)
  }

  /** What the ranks sum over their own cells is the flux through the outer boundary: the interior cancels, also across
      rank boundaries. */
  lemma DivergenceIsBoundaryFlux(n: Int3, tiling: seq<Patch>, flux: Axis -> Int3 -> real)
    requires Tiles(n, tiling) && n.x >= 0 && n.y >= 0 && n.z >= 0
    ensures Sum(|tiling|, RankSums(tiling, Divergence(flux)))
            == ThroughBoundary(n, flux(X), X) + ThroughBoundary(n, flux(Y), Y) + ThroughBoundary(n, flux(Z), Z)
  {
    var x, y, z := AxisOutflow(flux(X), X), AxisOutflow(flux(Y), Y), AxisOutflow(flux(Z), Z);
    RanksSum(n, tiling, Divergence(flux));
    BoxCongruent(Whole(n), Whole(n), Divergence(flux), Added(Added(x, y), z));
    BoxPlus(Whole(n), Added(x, y), z);
    BoxPlus(Whole(n), x, y);
    OutflowTelescopes(n, flux(X), X);
    OutflowTelescopes(n, flux(Y), Y);
    OutflowTelescopes(n, flux(Z), Z);
  }
}
