/** A rank's source block: its box widened by one cell, read from the global row-major files. */
module MeshBlocks {
  import opened GridOffsets
  import opened GridTypes
  import opened MeshFaces

  function Plus(a: Int3, b: Int3): Int3 {
    Int3(a.x + b.x, a.y + b.y, a.z + b.z)
  }

  function Minus(a: Int3, b: Int3): Int3 {
    Int3(a.x - b.x, a.y - b.y, a.z - b.z)
  }

  // ----- the loop nest that fills a box

  lemma RowEnds(cells: Int3, y: int, z: int)
    requires 0 <= y < cells.y && 0 <= z < cells.z && cells.x > 0
    ensures cells.x * (y + cells.y * z) + cells.x == cells.x * ((y + 1) + cells.y * z)
    ensures cells.y + cells.y * z == 0 + cells.y * (z + 1)
    ensures 0 <= cells.x * (y + cells.y * z) && cells.x * (y + cells.y * z) + cells.x <= Volume(cells)
  {
    OffsetInRange(cells, Int3(0, y, z));
    OffsetInRange(cells, Int3(cells.x - 1, y, z));
  }

  /** One row of the box, at its place in the buffer. */
  method FillRow<T>(values: array<T>, cells: Int3, begin: Int3, f: Int3 -> T, y: int, z: int)
    requires 0 <= y < cells.y && 0 <= z < cells.z && cells.x > 0 && values.Length == Volume(cells)
    requires FilledTo(values[..], cells, begin, f, cells.x * (y + cells.y * z))
    modifies values
    ensures FilledTo(values[..], cells, begin, f, cells.x * ((y + 1) + cells.y * z))
  {
    RowEnds(cells, y, z);
    var start := cells.x * (y + cells.y * z);
    var x := 0;
    while x < cells.x
      invariant 0 <= x <= cells.x
      invariant FilledTo(values[..], cells, begin, f, start + x)
    {
      CellAtOffset(cells, Int3(x, y, z));
      FillNext(values[..], cells, begin, f, start + x);
      ghost var was := values[..];
      values[start + x] := f(Plus(begin, Int3(x, y, z)));
      assert values[..] == was[start + x := f(Plus(begin, Int3(x, y, z)))];
      x := x + 1;
    }
  }

  lemma FillNext<T>(values: seq<T>, cells: Int3, begin: Int3, f: Int3 -> T, k: int)
    requires cells.x > 0 && cells.y > 0 && 0 <= k < |values| && FilledTo(values, cells, begin, f, k)
    ensures FilledTo(values[k := f(Plus(begin, CellAt(cells, k)))], cells, begin, f, k + 1)
  {
  }

  /** The first entries hold the quantity at their cells. */
  ghost predicate FilledTo<T>(values: seq<T>, cells: Int3, begin: Int3, f: Int3 -> T, n: int)
    requires cells.x > 0 && cells.y > 0
  {
    n <= |values| && forall k :: 0 <= k < n ==> values[k] == f(Plus(begin, CellAt(cells, k)))
  }

  /** The loop nest over a box: afterwards the buffer holds the quantity of every cell at its row-major position. */
  method FillBox<T(0)>(cells: Int3, begin: Int3, f: Int3 -> T) returns (values: array<T>)
    requires cells.x > 0 && cells.y > 0 && cells.z > 0
    ensures fresh(values) && values.Length == Volume(cells)
    ensures FilledTo(values[..], cells, begin, f, Volume(cells))
  {
    OffsetInRange(cells, Int3(0, 0, 0));
    values := new T[Volume(cells)];
    var z := 0;
    while z < cells.z
      invariant 0 <= z <= cells.z
      invariant FilledTo(values[..], cells, begin, f, cells.x * (0 + cells.y * z))
    {
      var y := 0;
      while y < cells.y
        invariant 0 <= y <= cells.y
        invariant FilledTo(values[..], cells, begin, f, cells.x * (y + cells.y * z))
      {
        FillRow(values, cells, begin, f, y, z);
        y := y + 1;
      }
      RowEnds(cells, 0, z);
      z := z + 1;
    }
  }

  lemma FilledAt<T>(values: seq<T>, cells: Int3, begin: Int3, f: Int3 -> T, l: Int3)
    requires InGrid(cells, l) && |values| == Volume(cells) && FilledTo(values, cells, begin, f, Volume(cells))
    ensures 0 <= Offset(cells, l) < |values| && values[Offset(cells, l)] == f(Plus(begin, l))
  {
    OffsetInRange(cells, l);
    CellAtOffset(cells, l);
  }

  // ----- the source block

  function Max(a: int, b: int): int { if a < b then b else a }

  function Min(a: int, b: int): int { if b < a then b else a }

  /** The rank's box widened by one cell on every side, clipped to the grid. */
  function BlockBox(n: Int3, p: Patch): Patch {
    var begin := Int3(Max(0, p.begin.x - 1), Max(0, p.begin.y - 1), Max(0, p.begin.z - 1));
    var end := Int3(Min(n.x, p.begin.x + p.cells.x + 1), Min(n.y, p.begin.y + p.cells.y + 1),
                    Min(n.z, p.begin.z + p.cells.z + 1));
    Patch(begin, Minus(end, begin))
  }

  lemma BlockInside(n: Int3, p: Patch)
    requires Inside(n, p) && NonEmpty(p)
    ensures Inside(n, BlockBox(n, p)) && NonEmpty(BlockBox(n, p))
  {
  }

  /** Every cell needed for the faces of the rank's cells is in its block: the cells on both sides of each face that
      are in the grid. */
  lemma FaceCellsInBlock(n: Int3, p: Patch, a: Axis, f: Int3)
    requires Inside(n, p) && NonEmpty(p) && OwnsCell(Patch(p.begin, Step(a, p.cells, 1)), f)
    ensures Along(a, f) < Along(a, n) ==> OwnsCell(BlockBox(n, p), f)
    ensures 0 < Along(a, f) ==> OwnsCell(BlockBox(n, p), Step(a, f, -1))
  {
  }

  /** A value of a global row-major file, zero outside the grid. */
  function FileValue<T>(file: seq<T>, n: Int3, outside: T, c: Int3): T
    requires |file| == Volume(n)
  {
    if InGrid(n, c) then OffsetInRange(n, c); file[Offset(n, c)] else outside
  }

  function FileField<T>(file: seq<T>, n: Int3, outside: T): Int3 -> T
    requires |file| == Volume(n)
  {
    c => FileValue(file, n, outside, c)
  }
}
