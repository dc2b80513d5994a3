/** Directions on the grid, and row-major positions of cells. */
module GridOffsets {
  import opened GridTypes
  import opened Indexing

  datatype Axis = X | Y | Z

  function Along(a: Axis, c: Int3): int {
    match a
    case X => c.x
    case Y => c.y
    case Z => c.z
  }

  function Step(a: Axis, c: Int3, d: int): Int3 {
    match a
    case X => Int3(c.x + d, c.y, c.z)
    case Y => Int3(c.x, c.y + d, c.z)
    case Z => Int3(c.x, c.y, c.z + d)
  }

  /** The row-major position of a cell in a box of this size. */
  function Offset(cells: Int3, l: Int3): int {
    l.x + cells.x * (l.y + cells.y * l.z)
  }

  function Volume(cells: Int3): int {
    cells.x * (cells.y * cells.z)
  }

  /** The cell stored at a row-major position. */
  function CellAt(cells: Int3, k: int): Int3
    requires cells.x > 0 && cells.y > 0
  {
    Int3(k % cells.x, k / cells.x % cells.y, k / cells.x / cells.y)
  }

  lemma OffsetInRange(cells: Int3, l: Int3)
    requires InGrid(cells, l)
    ensures 0 <= Offset(cells, l) < Volume(cells)
  {
    var row := l.y + cells.y * l.z;
    FlattenBound(cells.y, l.z, l.y, cells.z);
    FlattenBound(cells.x, row, l.x, cells.y * cells.z);
    assert cells.z * cells.y == cells.y * cells.z;
    assert row * cells.x == cells.x * row;
    assert cells.y * cells.z * cells.x == Volume(cells);
  }

  /** Positions and cells determine each other. */
  lemma CellAtOffset(cells: Int3, l: Int3)
    requires InGrid(cells, l)
    ensures CellAt(cells, Offset(cells, l)) == l
  {
    var row := l.y + cells.y * l.z;
    DivModUnique(cells.x, row, l.x);
    DivModUnique(cells.y, l.z, l.y);
    assert row == l.z * cells.y + l.y && Offset(cells, l) == row * cells.x + l.x;
  }

  lemma OffsetCellAt(cells: Int3, k: int)
    requires cells.x > 0 && cells.y > 0 && cells.z > 0 && 0 <= k < Volume(cells)
    ensures InGrid(cells, CellAt(cells, k)) && Offset(cells, CellAt(cells, k)) == k
  {
    assert Volume(cells) == cells.y * cells.z * cells.x;
    UnflattenBound(cells.x, k, cells.y * cells.z);
    assert cells.y * cells.z == cells.z * cells.y;
    UnflattenBound(cells.y, k / cells.x, cells.z);
    var row := k / cells.x;
    assert row == row / cells.y * cells.y + row % cells.y;
    assert cells.x * row == row * cells.x;
    assert cells.y * (row / cells.y) == row / cells.y * cells.y;
  }
}
