/** The global grid, the boxes ranks own, and tilings of the grid by such boxes. */
module GridTypes {
  import opened Sums

  datatype Int3 = Int3(x: int, y: int, z: int)

  /** A rank's box of cells, in global coordinates. */
  datatype Patch = Patch(begin: Int3, cells: Int3)

  predicate Owns(global: int, begin: int, cells: int) {
    begin <= global < begin + cells
  }

  predicate OwnsCell(p: Patch, c: Int3) {
    && Owns(c.x, p.begin.x, p.cells.x)
    && Owns(c.y, p.begin.y, p.cells.y)
    && Owns(c.z, p.begin.z, p.cells.z)
  }

  predicate InGrid(n: Int3, c: Int3) {
    0 <= c.x < n.x && 0 <= c.y < n.y && 0 <= c.z < n.z
  }

  predicate Inside(n: Int3, p: Patch) {
    && 0 <= p.begin.x && 0 <= p.cells.x && p.begin.x + p.cells.x <= n.x
    && 0 <= p.begin.y && 0 <= p.cells.y && p.begin.y + p.cells.y <= n.y
    && 0 <= p.begin.z && 0 <= p.cells.z && p.begin.z + p.cells.z <= n.z
  }

  /** The box that a single rank owning everything would have. */
  function Whole(n: Int3): Patch {
    Patch(Int3(0, 0, 0), n)
  }

  /** Every cell of the grid lies in the box of exactly one rank; the boxes need not form a lattice. */
  ghost predicate Tiles(n: Int3, tiling: seq<Patch>) {
    && |tiling| > 0
    && (forall r :: 0 <= r < |tiling| ==> Inside(n, tiling[r]))
    && (forall c :: InGrid(n, c) ==> exists r :: 0 <= r < |tiling| && OwnsCell(tiling[r], c))
    && (forall c, r, s :: 0 <= r < |tiling| && 0 <= s < |tiling| && OwnsCell(tiling[r], c) && OwnsCell(tiling[s], c)
          ==> r == s)
  }

  /** Summed over the ranks, a value kept only by the owner of c counts once. */
  lemma OneOwner(n: Int3, tiling: seq<Patch>, c: Int3, value: real)
    requires Tiles(n, tiling) && InGrid(n, c)
    ensures Sum(|tiling|, r => if 0 <= r < |tiling| && OwnsCell(tiling[r], c) then value else 0.0) == value
  {
    var r :| 0 <= r < |tiling| && OwnsCell(tiling[r], c);
    SumSingle(|tiling|, r, i => if 0 <= i < |tiling| && OwnsCell(tiling[i], c) then value else 0.0);
  }
}
