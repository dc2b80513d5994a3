/** When a generated system with a solid cell is definite. */
module IccgSolid {
  import opened GridOffsets
  import opened GridTypes
  import opened IccgMatrix
  import opened IccgSystem
  import opened IndexSets
  import opened Options

  const ORIGIN := Int3(0, 0, 0)

  /** The shape is a line of cells along this axis. */
  predicate IsLine(shape: Int3, d: Axis) {
    && (d != X ==> shape.x == 1) && (d != Y ==> shape.y == 1) && (d != Z ==> shape.z == 1)
  }

  /** The solid cell cuts the end of an open line off from the grounded cell. */
  predicate CutsLine(c: Case, d: Axis) {
    IsLine(c.shape, d) && Along(d, c.shape) >= 3 && !c.periodic(d)
  }

  predicate CutOff(c: Case) {
    c.grounded && c.solid && (CutsLine(c, X) || CutsLine(c, Y) || CutsLine(c, Z))
  }

  function Centre(c: Case): nat
    requires ShapeOk(c.shape)
  {
    CellCount(c) / 2
  }

  /** The place of the solid cell. */
  function SolidAt(c: Case): Int3
    requires ShapeOk(c.shape)
  {
    CellAt(c.shape, Centre(c))
  }

  ghost predicate Holds(c: Case, cells: set<nat>, q: Int3) {
    exists i: nat :: i == Offset(c.shape, q) && i in cells
  }

  // ----- equal membership along edges that avoid the solid cell

  lemma NotSolid(c: Case, q: Int3)
    requires ShapeOk(c.shape) && InGrid(c.shape, q) && q != SolidAt(c)
    ensures 0 <= Offset(c.shape, q) < CellCount(c) && Offset(c.shape, q) != Centre(c)
  {
    OffsetInRange(c.shape, q);
    CellAtOffset(c.shape, q);
  }

  lemma EdgeUp(c: Case, draw: (nat, Axis) -> real, cells: set<nat>, q: Int3, a: Axis)
    requires ShapeOk(c.shape) && DrawsPositive(draw) && Floating(WiringOf(c, draw), cells)
    requires InGrid(c.shape, q) && Along(a, q) + 1 < Along(a, c.shape)
    requires q != SolidAt(c) && Step(a, q, 1) != SolidAt(c)
    ensures Holds(c, cells, q) <==> Holds(c, cells, Step(a, q, 1))
  {
    var w := WiringOf(c, draw);
    NotSolid(c, q);
    NotSolid(c, Step(a, q, 1));
    var i, j := Offset(c.shape, q), Offset(c.shape, Step(a, q, 1));
    CellAtOffset(c.shape, q);
    CellAtOffset(c.shape, Step(a, q, 1));
    IndexedUp(c, i, j, a);
    assert draw(i, a) > 0.0;
    assert i < w.n && w.next(i, a) == Some(j) && w.weight(i, a) > 0.0;
  }

  /** The cell on an axis through the first cell. */
  function OnAxis(d: Axis, k: int): Int3 {
    Step(d, ORIGIN, k)
  }

  function Height(q: Int3): int {
    q.x + q.y + q.z
  }

  /** A plane across an axis that misses the solid cell is held as a whole or not at all. */
  lemma {:induction false} PlaneTogether(c: Case, draw: (nat, Axis) -> real, cells: set<nat>, d: Axis, q: Int3)
    requires ShapeOk(c.shape) && DrawsPositive(draw) && Floating(WiringOf(c, draw), cells)
    requires InGrid(c.shape, q) && Along(d, q) != Along(d, SolidAt(c))
    ensures Holds(c, cells, q) <==> Holds(c, cells, OnAxis(d, Along(d, q)))
    decreases Height(q)
  {
    var b := if d != X && q.x > 0 then X else if d != Y && q.y > 0 then Y else Z;
    if b == d || Along(b, q) == 0 {
      assert q == OnAxis(d, Along(d, q));
    } else {
      var below := Step(b, q, -1);
      PlaneTogether(c, draw, cells, d, below);
      EdgeUp(c, draw, cells, below, b);
      assert Step(b, below, 1) == q;
    }
  }

  /** Planes across different axes that miss the solid cell meet, so they are held together. */
  lemma PlanesMeet(c: Case, draw: (nat, Axis) -> real, cells: set<nat>, d: Axis, v: int, e: Axis, u: int)
    requires ShapeOk(c.shape) && DrawsPositive(draw) && Floating(WiringOf(c, draw), cells) && d != e
    requires 0 <= v < Along(d, c.shape) && v != Along(d, SolidAt(c))
    requires 0 <= u < Along(e, c.shape) && u != Along(e, SolidAt(c))
    ensures Holds(c, cells, OnAxis(d, v)) <==> Holds(c, cells, OnAxis(e, u))
  {
    var q := Step(e, OnAxis(d, v), u);
    PlaneTogether(c, draw, cells, d, q);
    PlaneTogether(c, draw, cells, e, q);
  }

  function Differs(p: Int3, q: Int3): Axis {
    if p.x != q.x then X else if p.y != q.y then Y else Z
  }

  lemma FirstCell(c: Case, cells: set<nat>, e: Axis)
    requires Holds(c, cells, OnAxis(e, 0))
    ensures 0 in cells
  {
    assert Offset(c.shape, ORIGIN) == 0;
  }

  /** With a second axis to go round by, a held plane and the plane of the first cell are held together. */
  lemma PlanesLinked(c: Case, draw: (nat, Axis) -> real, cells: set<nat>, d: Axis, v: int, e: Axis, f: Axis)
    requires ShapeOk(c.shape) && DrawsPositive(draw) && Floating(WiringOf(c, draw), cells)
    requires 0 <= v < Along(d, c.shape) && v != Along(d, SolidAt(c)) && 0 != Along(e, SolidAt(c))
    requires f != d && Along(f, c.shape) >= 2 && Holds(c, cells, OnAxis(d, v))
    ensures Holds(c, cells, OnAxis(e, 0))
  {
    if d != e {
      PlanesMeet(c, draw, cells, d, v, e, 0);
    } else {
      var u := if Along(f, SolidAt(c)) == 0 then 1 else 0;
      PlanesMeet(c, draw, cells, d, v, f, u);
      PlanesMeet(c, draw, cells, f, u, e, 0);
    }
  }

  lemma DiffersThere(p: Int3, q: Int3)
    requires p != q
    ensures Along(Differs(p, q), p) != Along(Differs(p, q), q)
  {
  }

  /** Then whatever floats reaches the first cell. */
  lemma GoesRound(c: Case, draw: (nat, Axis) -> real, cells: set<nat>, q: Int3, f: Axis)
    requires ShapeOk(c.shape) && DrawsPositive(draw) && Floating(WiringOf(c, draw), cells)
    requires InGrid(c.shape, q) && q != SolidAt(c) && SolidAt(c) != ORIGIN && Holds(c, cells, q)
    requires f != Differs(q, SolidAt(c)) && Along(f, c.shape) >= 2
    ensures 0 in cells
  {
    var d, e := Differs(q, SolidAt(c)), Differs(ORIGIN, SolidAt(c));
    DiffersThere(q, SolidAt(c));
    DiffersThere(ORIGIN, SolidAt(c));
    PlaneTogether(c, draw, cells, d, q);
    PlanesLinked(c, draw, cells, d, Along(d, q), e, f);
    FirstCell(c, cells, e);
  }

  // ----- lines

  lemma LineCells(shape: Int3, d: Axis, k: nat)
    requires ShapeOk(shape) && IsLine(shape, d) && k < Along(d, shape)
    ensures Volume(shape) == Along(d, shape)
    ensures CellAt(shape, k) == OnAxis(d, k) && Offset(shape, OnAxis(d, k)) == k
  {
    CellAtOffset(shape, OnAxis(d, k));
  }

  lemma LineUp(c: Case, d: Axis, i: nat, a: Axis)
    requires ShapeOk(c.shape) && IsLine(c.shape, d) && i < CellCount(c) == Along(d, c.shape)
    ensures Up(c, i, a) == if a != d then (if c.periodic(a) then Some(i) else None)
                           else if i + 1 < CellCount(c) then Some(i + 1)
                           else if c.periodic(d) then Some(0) else None
  {
    LineCells(c.shape, d, i);
    LineCells(c.shape, d, 0);
    if i + 1 < CellCount(c) {
      LineCells(c.shape, d, i + 1);
    }
    var at := OnAxis(d, i);
    assert a == d && i + 1 < CellCount(c) ==> UpCell(c, at, a) == Some(OnAxis(d, i + 1));
    assert a == d && i + 1 == CellCount(c) && c.periodic(d) ==> UpCell(c, at, a) == Some(OnAxis(d, 0));
    assert a != d && c.periodic(a) ==> UpCell(c, at, a) == Some(at);
  }

  lemma LineLink(c: Case, draw: (nat, Axis) -> real, cells: set<nat>, d: Axis, i: nat, j: nat)
    requires ShapeOk(c.shape) && DrawsPositive(draw) && Floating(WiringOf(c, draw), cells)
    requires i < CellCount(c) && Up(c, i, d) == Some(j) && i != Centre(c) && j != Centre(c)
    ensures i in cells <==> j in cells
  {
    var w := WiringOf(c, draw);
    assert draw(i, d) > 0.0;
    assert i < w.n && w.next(i, d) == Some(j) && w.weight(i, d) > 0.0;
  }

  lemma {:induction false} LineDown(c: Case, draw: (nat, Axis) -> real, cells: set<nat>, d: Axis, i: nat)
    requires ShapeOk(c.shape) && DrawsPositive(draw) && Floating(WiringOf(c, draw), cells)
    requires IsLine(c.shape, d) && CellCount(c) == Along(d, c.shape) && i in cells && i < Centre(c)
    ensures 0 in cells
  {
    if i > 0 {
      LineUp(c, d, i - 1, d);
      LineLink(c, draw, cells, d, i - 1, i);
      LineDown(c, draw, cells, d, i - 1);
    }
  }

  lemma {:induction false} LineRound(c: Case, draw: (nat, Axis) -> real, cells: set<nat>, d: Axis, i: nat)
    requires ShapeOk(c.shape) && DrawsPositive(draw) && Floating(WiringOf(c, draw), cells) && c.periodic(d)
    requires IsLine(c.shape, d) && CellCount(c) == Along(d, c.shape)
    requires i in cells && 0 < Centre(c) < i < CellCount(c)
    ensures 0 in cells
    decreases CellCount(c) - i
  {
    LineUp(c, d, i, d);
    if i + 1 < CellCount(c) {
      LineLink(c, draw, cells, d, i, i + 1);
      LineRound(c, draw, cells, d, i + 1);
    } else {
      LineLink(c, draw, cells, d, i, 0);
    }
  }

  lemma LineReaches(c: Case, draw: (nat, Axis) -> real, cells: set<nat>, d: Axis, i: nat)
    requires ShapeOk(c.shape) && DrawsPositive(draw) && Floating(WiringOf(c, draw), cells)
    requires IsLine(c.shape, d) && !CutsLine(c, d) && i in cells && i < CellCount(c) && i != Centre(c)
    ensures 0 in cells
  {
    LineCells(c.shape, d, 0);
    if i < Centre(c) {
      LineDown(c, draw, cells, d, i);
    } else {
      LineRound(c, draw, cells, d, i);
    }
  }

  // ----- the exact condition

  /** Grounded, solid, and not a cut line: nothing floats. */
  lemma NothingFloats(c: Case, draw: (nat, Axis) -> real, cells: set<nat>)
    requires ShapeOk(c.shape) && DrawsPositive(draw) && c.grounded && c.solid && !CutOff(c)
    requires Floating(WiringOf(c, draw), cells)
    ensures cells == {}
  {
    var w := WiringOf(c, draw);
    if cells != {} {
      var i :| i in cells;
      assert i < w.n && w.surplus(i) == SurplusAt(c, i) == 0.0;
      assert i != Centre(c);
      OffsetCellAt(c.shape, i);
      OffsetCellAt(c.shape, Centre(c));
      var q, m := CellAt(c.shape, i), SolidAt(c);
      assert q != m && Holds(c, cells, q);
      var d := Differs(q, m);
      var f := if d != X && c.shape.x >= 2 then X else if d != Y && c.shape.y >= 2 then Y else Z;
      if f != d && Along(f, c.shape) >= 2 {
        assert m != ORIGIN;
        GoesRound(c, draw, cells, q, f);
      } else {
        LineReaches(c, draw, cells, d, i);
      }
    }
  }

  /** The cells of a cut line beyond the solid one. */
  ghost function Beyond(c: Case): set<nat>
    requires ShapeOk(c.shape)
  {
    set i | i in Below(CellCount(c)) && Centre(c) < i
  }

  lemma BeyondExactly(c: Case, i: nat)
    requires ShapeOk(c.shape)
    ensures i in Beyond(c) <==> Centre(c) < i < CellCount(c)
  {
    BelowExactly(CellCount(c));
  }

  lemma BeyondEdge(c: Case, draw: (nat, Axis) -> real, d: Axis, i: nat, j: nat, a: Axis)
    requires ShapeOk(c.shape) && c.solid && CutsLine(c, d)
    requires i < CellCount(c) && Up(c, i, a) == Some(j) && EdgeWeight(c, draw, i, a) > 0.0
    ensures i in Beyond(c) <==> j in Beyond(c)
  {
    LineCells(c.shape, d, 0);
    LineUp(c, d, i, a);
    BeyondExactly(c, i);
    BeyondExactly(c, j);
    assert i != Centre(c) && j != Centre(c);
  }

  lemma BeyondGrounded(c: Case, i: nat)
    requires ShapeOk(c.shape) && c.grounded && i in Beyond(c)
    ensures i < CellCount(c) && SurplusAt(c, i) == 0.0
  {
    BeyondExactly(c, i);
  }

  lemma BeyondFloats(c: Case, draw: (nat, Axis) -> real, d: Axis)
    requires ShapeOk(c.shape) && c.grounded && c.solid && CutsLine(c, d)
    ensures Floating(WiringOf(c, draw), Beyond(c)) && CellCount(c) - 1 in Beyond(c)
  {
    var w := WiringOf(c, draw);
    LineCells(c.shape, d, 0);
    BeyondExactly(c, CellCount(c) - 1);
    forall i | i in Beyond(c)
      ensures i < w.n && w.surplus(i) == 0.0
    {
      BeyondGrounded(c, i);
    }
    forall i: nat, a | i < w.n && w.next(i, a).Some? && w.weight(i, a) > 0.0
      ensures i in Beyond(c) <==> w.next(i, a).value in Beyond(c)
    {
      BeyondEdge(c, draw, d, i, w.next(i, a).value, a);
    }
  }

  /** A generated system is positive definite for every draw, except where the solid cell cuts an open line of three
      or more cells that is grounded at its first cell only. */
  lemma CaseDefiniteExactly(c: Case, draw: (nat, Axis) -> real)
    requires ShapeOk(c.shape) && DrawsPositive(draw)
    ensures PositiveDefinite(WiringOf(c, draw)) <==> !CutOff(c)
  {
    var w := WiringOf(c, draw);
    if !c.grounded {
      UngroundedDefinite(c, draw);
    } else if !c.solid {
      GroundedDefinite(c, draw);
    } else {
      GridWired(c, draw);
      GridNonNegative(c, draw);
      DefiniteExactly(w);
      if CutOff(c) {
        var d := if CutsLine(c, X) then X else if CutsLine(c, Y) then Y else Z;
        BeyondFloats(c, draw, d);
      } else {
        forall cells | Floating(w, cells)
          ensures cells == {}
        {
          NothingFloats(c, draw, cells);
        }
      }
    }
  }

  /** Three cells in a row, the middle one solid, grounded at the first. */
  function SplitRow(): Case {
    Case(Int3(3, 1, 1), (a: Axis) => false, true, true)
  }

  /** So grounding does not always make a system solvable: this one is singular for every draw. */
  lemma GroundedSolidSingular(draw: (nat, Axis) -> real)
    requires DrawsPositive(draw)
    ensures !PositiveDefinite(WiringOf(SplitRow(), draw))
  {
    CaseDefiniteExactly(SplitRow(), draw);
    assert CutsLine(SplitRow(), X);
  }
}
