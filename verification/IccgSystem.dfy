/** The generated systems on a grid, and when they are solvable. */
module IccgSystem {
  import opened GridOffsets
  import opened GridTypes
  import opened IccgMatrix
  import opened Options

  datatype Case = Case(shape: Int3, periodic: Axis -> bool, grounded: bool, solid: bool)

  predicate ShapeOk(s: Int3) {
    s.x > 0 && s.y > 0 && s.z > 0
  }

  lemma VolumePositive(s: Int3)
    requires ShapeOk(s)
    ensures Volume(s) > 0
  {
    OffsetInRange(s, Int3(0, 0, 0));
  }

  function CellCount(c: Case): (n: nat)
    requires ShapeOk(c.shape)
    ensures n > 0
  {
    VolumePositive(c.shape);
    Volume(c.shape)
  }

  /** The neighbour one up an axis; past the end, the first cell of a periodic axis and none otherwise. */
  function UpCell(c: Case, at: Int3, a: Axis): Option<Int3> {
    if Along(a, at) + 1 == Along(a, c.shape) then
      if c.periodic(a) then Some(Step(a, at, -Along(a, at))) else None
    else Some(Step(a, at, 1))
  }

  function DownCell(c: Case, at: Int3, a: Axis): Option<Int3> {
    if Along(a, at) == 0 then
      if c.periodic(a) then Some(Step(a, at, Along(a, c.shape) - 1)) else None
    else Some(Step(a, at, -1))
  }

  lemma UpDown(c: Case, at: Int3, to: Int3, a: Axis)
    requires ShapeOk(c.shape) && InGrid(c.shape, at) && InGrid(c.shape, to)
    ensures UpCell(c, at, a) == Some(to) <==> DownCell(c, to, a) == Some(at)
  {
  }

  function Indexed(shape: Int3, cell: Option<Int3>): Option<nat> {
    if cell.Some? && InGrid(shape, cell.value) then OffsetInRange(shape, cell.value); Some(Offset(shape, cell.value))
    else None
  }

  function Up(c: Case, i: nat, a: Axis): Option<nat>
    requires ShapeOk(c.shape)
  {
    if i < CellCount(c) then Indexed(c.shape, UpCell(c, CellAt(c.shape, i), a)) else None
  }

  function Down(c: Case, i: nat, a: Axis): Option<nat>
    requires ShapeOk(c.shape)
  {
    if i < CellCount(c) then Indexed(c.shape, DownCell(c, CellAt(c.shape, i), a)) else None
  }

  lemma IndexedUp(c: Case, i: nat, j: nat, a: Axis)
    requires ShapeOk(c.shape) && i < CellCount(c) && j < CellCount(c)
    ensures Up(c, i, a) == Some(j) <==> UpCell(c, CellAt(c.shape, i), a) == Some(CellAt(c.shape, j))
    ensures Down(c, i, a) == Some(j) <==> DownCell(c, CellAt(c.shape, i), a) == Some(CellAt(c.shape, j))
  {
    OffsetCellAt(c.shape, i);
    OffsetCellAt(c.shape, j);
    var up, down := UpCell(c, CellAt(c.shape, i), a), DownCell(c, CellAt(c.shape, i), a);
    if up.Some? {
      CellAtOffset(c.shape, up.value);
    }
    if down.Some? {
      CellAtOffset(c.shape, down.value);
    }
  }

  /** The weight of the edge up from a cell: the drawn one, or zero next to the solid cell. */
  function EdgeWeight(c: Case, draw: (nat, Axis) -> real, i: nat, a: Axis): real
    requires ShapeOk(c.shape)
  {
    var centre := CellCount(c) / 2;
    if c.solid && (i == centre || Up(c, i, a) == Some(centre)) then 0.0 else draw(i, a)
  }

  function SurplusAt(c: Case, i: nat): real
    requires ShapeOk(c.shape)
  {
    if c.solid && i == CellCount(c) / 2 then 1.0 else if !c.grounded || i == 0 then 0.125 else 0.0
  }

  /** The generated system as a wiring. */
  function WiringOf(c: Case, draw: (nat, Axis) -> real): Wiring
    requires ShapeOk(c.shape)
  {
    Wiring(CellCount(c), (i: nat, a: Axis) => Up(c, i, a), (i: nat, a: Axis) => Down(c, i, a),
           (i: nat, a: Axis) => EdgeWeight(c, draw, i, a), (i: nat) => SurplusAt(c, i))
  }

  ghost predicate DrawsPositive(draw: (nat, Axis) -> real) {
    forall i: nat, a :: draw(i, a) > 0.0
  }

  lemma IndexedInRange(shape: Int3, cell: Option<Int3>)
    requires ShapeOk(shape)
    ensures Indexed(shape, cell).Some? ==> Indexed(shape, cell).value < Volume(shape)
  {
    if cell.Some? && InGrid(shape, cell.value) {
      OffsetInRange(shape, cell.value);
    }
  }

  /** On every shape and periodicity, lengths one and two included, up and down are inverse. */
  lemma GridWired(c: Case, draw: (nat, Axis) -> real)
    requires ShapeOk(c.shape)
    ensures Wired(WiringOf(c, draw))
  {
    var w := WiringOf(c, draw);
    forall i: nat, a | i < w.n
      ensures w.next(i, a).Some? ==> w.next(i, a).value < w.n
      ensures w.prev(i, a).Some? ==> w.prev(i, a).value < w.n
    {
      IndexedInRange(c.shape, UpCell(c, CellAt(c.shape, i), a));
      IndexedInRange(c.shape, DownCell(c, CellAt(c.shape, i), a));
    }
    forall i: nat, j: nat, a | i < w.n && j < w.n
      ensures w.next(i, a) == Some(j) <==> w.prev(j, a) == Some(i)
    {
      OffsetCellAt(c.shape, i);
      OffsetCellAt(c.shape, j);
      IndexedUp(c, i, j, a);
      IndexedUp(c, j, i, a);
      UpDown(c, CellAt(c.shape, i), CellAt(c.shape, j), a);
    }
  }

  lemma GridNonNegative(c: Case, draw: (nat, Axis) -> real)
    requires ShapeOk(c.shape) && DrawsPositive(draw)
    ensures NonNegative(WiringOf(c, draw))
  {
    var w := WiringOf(c, draw);
    forall i: nat, a | i < w.n && w.next(i, a).Some?
      ensures w.weight(i, a) >= 0.0
    {
      assert draw(i, a) > 0.0;
    }
  }

  // ----- positive definiteness of the generated systems

  lemma SurplusEverywhere(c: Case, draw: (nat, Axis) -> real, cells: set<nat>)
    requires ShapeOk(c.shape) && !c.grounded && cells != {}
    ensures !Floating(WiringOf(c, draw), cells)
  {
    var i :| i in cells;
    assert WiringOf(c, draw).surplus(i) == SurplusAt(c, i) > 0.0;
  }

  /** Ungrounded systems are positive definite, with or without the solid cell. */
  lemma UngroundedDefinite(c: Case, draw: (nat, Axis) -> real)
    requires ShapeOk(c.shape) && DrawsPositive(draw) && !c.grounded
    ensures PositiveDefinite(WiringOf(c, draw))
  {
    var w := WiringOf(c, draw);
    GridWired(c, draw);
    GridNonNegative(c, draw);
    forall cells | Floating(w, cells)
      ensures cells == {}
    {
      if cells != {} {
        SurplusEverywhere(c, draw, cells);
      }
    }
    DefiniteExactly(w);
  }

  /** Every cell but the first has an edge from a cell of smaller index. */
  lemma HasLower(c: Case, draw: (nat, Axis) -> real, i: nat) returns (p: nat, a: Axis)
    requires ShapeOk(c.shape) && 0 < i < CellCount(c)
    ensures p < i && Up(c, p, a) == Some(i)
  {
    var shape := c.shape;
    OffsetCellAt(shape, i);
    var at := CellAt(shape, i);
    assert at != Int3(0, 0, 0);
    a := if at.x > 0 then X else if at.y > 0 then Y else Z;
    var below := Step(a, at, -1);
    OffsetInRange(shape, below);
    CellAtOffset(shape, below);
    p := Offset(shape, below);
    IndexedUp(c, p, i, a);
    LowerOffset(shape, at, a);
  }

  lemma LowerOffset(shape: Int3, at: Int3, a: Axis)
    requires ShapeOk(shape) && InGrid(shape, at) && Along(a, at) > 0
    ensures Offset(shape, Step(a, at, -1)) < Offset(shape, at)
  {
    match a
    case X =>
    case Y =>
      assert shape.x * (at.y - 1 + shape.y * at.z) == shape.x * (at.y + shape.y * at.z) - shape.x;
    case Z =>
      assert shape.y * (at.z - 1) == shape.y * at.z - shape.y;
      assert shape.x * (at.y + (shape.y * at.z - shape.y)) == shape.x * (at.y + shape.y * at.z) - shape.x * shape.y;
      assert shape.x * shape.y > 0;
  }

  /** Without the solid cell, a set that floats and holds any cell holds the first. */
  lemma {:induction false} ReachesFirst(c: Case, draw: (nat, Axis) -> real, cells: set<nat>, i: nat)
    requires ShapeOk(c.shape) && DrawsPositive(draw) && !c.solid
    requires Floating(WiringOf(c, draw), cells) && i in cells
    ensures 0 in cells
  {
    var w := WiringOf(c, draw);
    assert i < w.n;
    if i > 0 {
      var p, a := HasLower(c, draw, i);
      assert draw(p, a) > 0.0;
      assert p < w.n && w.next(p, a) == Some(i) && w.weight(p, a) > 0.0;
      ReachesFirst(c, draw, cells, p);
    }
  }

  /** Grounded systems without the solid cell are positive definite, because the grid is connected. */
  lemma GroundedDefinite(c: Case, draw: (nat, Axis) -> real)
    requires ShapeOk(c.shape) && DrawsPositive(draw) && !c.solid
    ensures PositiveDefinite(WiringOf(c, draw))
  {
    var w := WiringOf(c, draw);
    GridWired(c, draw);
    GridNonNegative(c, draw);
    forall cells | Floating(w, cells)
      ensures cells == {}
    {
      if cells != {} {
        var i :| i in cells;
        ReachesFirst(c, draw, cells, i);
        NoSurplusAtFirst(c, draw, cells);
      }
    }
    DefiniteExactly(w);
  }

  lemma NoSurplusAtFirst(c: Case, draw: (nat, Axis) -> real, cells: set<nat>)
    requires ShapeOk(c.shape) && !c.solid && Floating(WiringOf(c, draw), cells)
    ensures 0 !in cells
  {
    assert WiringOf(c, draw).surplus(0) == 0.125;
  }
}
