/** Filling the six neighbour and coefficient slots of every cell, and the scaled rows made from them. */
module IccgAssembly {
  import opened GridOffsets
  import opened IccgMatrix
  import opened IccgSystem
  import opened Options

  const AXES: seq<Axis> := [X, Y, Z]

  function Rank(a: Axis): (k: nat)
    ensures k < 3 && AXES[k] == a
  {
    match a
    case X => 0
    case Y => 1
    case Z => 2
  }

  /** The lower and the upper slot of an axis. */
  function LowSlot(a: Axis): (s: nat)
    ensures s < 6
  {
    2 * Rank(a)
  }

  function HighSlot(a: Axis): (s: nat)
    ensures s < 6
  {
    2 * Rank(a) + 1
  }

  /** The edge up from a cell along an axis has been visited before turn k of cell i. */
  predicate Done(c: nat, a: Axis, i: nat, k: nat) {
    c < i || (c == i && Rank(a) < k)
  }

  /** What a cell's two slots of an axis hold: neighbour and coefficient above, neighbour and coefficient below. */
  datatype Slots = Slots(above: Option<nat>, high: real, below: Option<nat>, low: real)

  /** The slots of a cell when the edges before turn k of cell i have been visited; the rest are still unwritten. */
  ghost predicate SlotsAt(w: Wiring, i: nat, k: nat, c: nat, a: Axis, s: Slots) {
    && s.above == (if Done(c, a, i, k) then w.next(c, a) else None)
    && s.high == (if Done(c, a, i, k) then High(w, c, a) else 0.0)
    && s.below == (if w.prev(c, a).Some? && Done(w.prev(c, a).value, a, i, k) then w.prev(c, a) else None)
    && s.low == (if w.prev(c, a).Some? && Done(w.prev(c, a).value, a, i, k) then Low(w, c, a) else 0.0)
  }

  ghost function SlotsOf(neighbours: array2<Option<nat>>, rows: array2<real>, c: nat, a: Axis): Slots
    requires neighbours.Length0 == rows.Length0 && neighbours.Length1 == rows.Length1 == 6 && c < rows.Length0
    reads neighbours, rows
  {
    Slots(neighbours[c, HighSlot(a)], rows[c, HighSlot(a)], neighbours[c, LowSlot(a)], rows[c, LowSlot(a)])
  }

  ghost predicate CellState(neighbours: array2<Option<nat>>, rows: array2<real>, w: Wiring, i: nat, k: nat, c: nat,
                            a: Axis)
    requires neighbours.Length0 == rows.Length0 == w.n && neighbours.Length1 == rows.Length1 == 6 && c < w.n
    reads neighbours, rows
  {
    SlotsAt(w, i, k, c, a, SlotsOf(neighbours, rows, c, a))
  }

  ghost predicate Filled(neighbours: array2<Option<nat>>, rows: array2<real>, w: Wiring, i: nat, k: nat)
    reads neighbours, rows
  {
    && neighbours.Length0 == rows.Length0 == w.n && neighbours.Length1 == rows.Length1 == 6
    && forall c: nat, a :: c < w.n ==> CellState(neighbours, rows, w, i, k, c, a)
  }

  /** One turn of the inner loop. Both slots it writes were unwritten. */
  method FillEdge(neighbours: array2<Option<nat>>, rows: array2<real>, w: Wiring, i: nat, k: nat)
    requires Wired(w) && i < w.n && k < 3 && Filled(neighbours, rows, w, i, k)
    modifies neighbours, rows
    ensures Filled(neighbours, rows, w, i, k + 1)
  {
    var a := AXES[k];
    assert Rank(a) == k;
    var next := w.next(i, a);
    ghost var turn := k + 1;
    if next.Some? {
      var j := next.value;
      assert w.prev(j, a) == Some(i);
      assert CellState(neighbours, rows, w, i, k, i, a) && CellState(neighbours, rows, w, i, k, j, a);
      assert neighbours[i, HighSlot(a)] == None && neighbours[j, LowSlot(a)] == None;
      assert rows[i, HighSlot(a)] == 0.0 && rows[j, LowSlot(a)] == 0.0;
      label Before:
      neighbours[i, HighSlot(a)] := Some(j);
      neighbours[j, LowSlot(a)] := Some(i);
      rows[i, HighSlot(a)] := w.weight(i, a);
      rows[j, LowSlot(a)] := w.weight(i, a);
      forall c: nat, b | c < w.n
        ensures CellState(neighbours, rows, w, i, turn, c, b)
      {
        assert old@Before(CellState(neighbours, rows, w, i, k, c, b));
        AfterEdge(w, i, k, j, a, c, b, old@Before(SlotsOf(neighbours, rows, c, b)), SlotsOf(neighbours, rows, c, b));
      }
    } else {
      forall c: nat, b | c < w.n
        ensures CellState(neighbours, rows, w, i, turn, c, b)
      {
        assert CellState(neighbours, rows, w, i, k, c, b);
        DoneNext(w, i, k, a, c, b);
      }
    }
  }

  /** Turn k of cell i visits the edge up its axis and no other. */
  lemma DoneNext(w: Wiring, i: nat, k: nat, a: Axis, c: nat, b: Axis)
    requires Wired(w) && i < w.n && k < 3 && Rank(a) == k && c < w.n
    ensures Done(c, b, i, k + 1) <==> Done(c, b, i, k) || (c == i && a == b)
    ensures w.prev(c, b).Some? ==>
              (Done(w.prev(c, b).value, b, i, k + 1) <==>
               Done(w.prev(c, b).value, b, i, k) || (a == b && w.next(i, a) == Some(c)))
    ensures LowSlot(a) == LowSlot(b) <==> a == b
    ensures HighSlot(a) == HighSlot(b) <==> a == b
  {
    if w.prev(c, b).Some? {
      assert w.next(w.prev(c, b).value, b) == Some(c);
      assert w.next(i, b) == Some(c) <==> w.prev(c, b) == Some(i);
    }
  }

  lemma CellFinished(neighbours: array2<Option<nat>>, rows: array2<real>, w: Wiring, i: nat)
    requires Filled(neighbours, rows, w, i, 3)
    ensures Filled(neighbours, rows, w, i + 1, 0)
  {
    var following := i + 1;
    forall c: nat, a | c < w.n
      ensures CellState(neighbours, rows, w, following, 0, c, a)
    {
      assert CellState(neighbours, rows, w, i, 3, c, a);
    }
  }

  /** Writing the two slots of an edge keeps every cell's slots in step. */
  lemma AfterEdge(w: Wiring, i: nat, k: nat, j: nat, a: Axis, c: nat, b: Axis, was: Slots, now: Slots)
    requires Wired(w) && i < w.n && j < w.n && c < w.n && k < 3 && Rank(a) == k && w.next(i, a) == Some(j)
    requires SlotsAt(w, i, k, c, b, was)
    requires if c == i && a == b then now.above == Some(j) && now.high == w.weight(i, a)
             else now.above == was.above && now.high == was.high
    requires if c == j && a == b then now.below == Some(i) && now.low == w.weight(i, a)
             else now.below == was.below && now.low == was.low
    ensures SlotsAt(w, i, k + 1, c, b, now)
  {
    DoneNext(w, i, k, a, c, b);
    assert w.prev(j, a) == Some(i);
  }

  /** The inner loop, over the axes. */
  method FillCell(neighbours: array2<Option<nat>>, rows: array2<real>, w: Wiring, i: nat)
    requires Wired(w) && i < w.n && Filled(neighbours, rows, w, i, 0)
    modifies neighbours, rows
    ensures Filled(neighbours, rows, w, i + 1, 0)
  {
    var k := 0;
    while k < 3
      invariant 0 <= k <= 3 && Filled(neighbours, rows, w, i, k)
    {
      FillEdge(neighbours, rows, w, i, k);
      k := k + 1;
    }
    CellFinished(neighbours, rows, w, i);
  }

  lemma Unfilled(neighbours: array2<Option<nat>>, rows: array2<real>, w: Wiring)
    requires neighbours.Length0 == rows.Length0 == w.n && neighbours.Length1 == rows.Length1 == 6
    requires forall c: nat, s: nat :: c < w.n && s < 6 ==> neighbours[c, s] == None && rows[c, s] == 0.0
    ensures Filled(neighbours, rows, w, 0, 0)
  {
  }

  /** The whole filling. Every slot is written at most once, and in the end each cell's slots hold its neighbours up and
      down every axis and the weights of the edges to them. */
  method Fill(w: Wiring) returns (neighbours: array2<Option<nat>>, rows: array2<real>)
    requires Wired(w)
    ensures fresh(neighbours) && fresh(rows) && Filled(neighbours, rows, w, w.n, 0)
  {
    neighbours := new Option<nat>[w.n, 6]((i, j) => None);
    rows := new real[w.n, 6]((i, j) => 0.0);
    Unfilled(neighbours, rows, w);
    var i := 0;
    while i < w.n
      invariant 0 <= i <= w.n && Filled(neighbours, rows, w, i, 0)
    {
      FillCell(neighbours, rows, w, i);
      i := i + 1;
    }
  }

  /** What the filled slots hold. */
  lemma FilledSlots(neighbours: array2<Option<nat>>, rows: array2<real>, w: Wiring, c: nat, a: Axis)
    requires Wired(w) && c < w.n && Filled(neighbours, rows, w, w.n, 0)
    ensures neighbours[c, HighSlot(a)] == w.next(c, a) && rows[c, HighSlot(a)] == High(w, c, a)
    ensures neighbours[c, LowSlot(a)] == w.prev(c, a) && rows[c, LowSlot(a)] == Low(w, c, a)
  {
    assert CellState(neighbours, rows, w, w.n, 0, c, a);
  }

  // ----- the scaled rows

  /** The manufactured solution. */
  function Exact(i: nat): real {
    (i % 13 - 6) as real / 8.0
  }

  datatype Row = Row(volume: real, diagonal: real, slots: seq<real>, rhs: real)

  function TermOf(coefficient: real, neighbour: Option<nat>, x: nat -> real): real {
    if coefficient != 0.0 && neighbour.Some? then coefficient * x(neighbour.value) else 0.0
  }

  lemma TermIsProduct(coefficient: real, neighbour: Option<nat>, x: nat -> real, value: real)
    requires neighbour.Some? ==> value == x(neighbour.value)
    requires neighbour.None? ==> value == 0.0
    ensures TermOf(coefficient, neighbour, x) == coefficient * value
  {
  }

  lemma TermsOfAxis(w: Wiring, x: nat -> real, i: nat, a: Axis)
    ensures TermOf(Low(w, i, a), w.prev(i, a), x) + TermOf(High(w, i, a), w.next(i, a), x) == Coupled(w, x, i, a)
  {
    TermIsProduct(Low(w, i, a), w.prev(i, a), x, PrevValue(w, x, i, a));
    TermIsProduct(High(w, i, a), w.next(i, a), x, NextValue(w, x, i, a));
  }

  /** The two slots of an axis: their coefficients, and their share of the off-diagonal sum. */
  method AxisSums(neighbours: array2<Option<nat>>, rows: array2<real>, w: Wiring, x: nat -> real, i: nat, a: Axis)
    returns (sum: real, off: real)
    requires Wired(w) && i < w.n && Filled(neighbours, rows, w, w.n, 0)
    ensures sum == Low(w, i, a) + High(w, i, a) && off == Coupled(w, x, i, a)
  {
    FilledSlots(neighbours, rows, w, i, a);
    var low, high := rows[i, LowSlot(a)], rows[i, HighSlot(a)];
    var below, above := neighbours[i, LowSlot(a)], neighbours[i, HighSlot(a)];
    sum, off := low + high, TermOf(low, below, x) + TermOf(high, above, x);
    TermsOfAxis(w, x, i, a);
  }

  /** The sum over the six slots, with the values at the neighbours; slots without coefficient are skipped. */
  method OffDiagonal(neighbours: array2<Option<nat>>, rows: array2<real>, w: Wiring, x: nat -> real, i: nat)
    returns (sum: real, off: real)
    requires Wired(w) && i < w.n && Filled(neighbours, rows, w, w.n, 0)
    ensures sum == Diagonal(w, i) - w.surplus(i)
    ensures off == Coupled(w, x, i, X) + Coupled(w, x, i, Y) + Coupled(w, x, i, Z)
  {
    var s0, o0 := AxisSums(neighbours, rows, w, x, i, X);
    var s1, o1 := AxisSums(neighbours, rows, w, x, i, Y);
    var s2, o2 := AxisSums(neighbours, rows, w, x, i, Z);
    sum, off := s0 + s1 + s2, o0 + o1 + o2;
  }

  /** The row the case file holds: everything divided by the cell's volume. */
  ghost predicate RowFor(row: Row, w: Wiring, volume: real, exact: nat -> real, i: nat) {
    && volume > 0.0 && |row.slots| == 6
    && row.volume == volume && row.diagonal * volume == Diagonal(w, i) && row.rhs * volume == Apply(w, exact, i)
    && (forall a :: SlotsFor(row.slots, w, volume, i, a))
  }

  ghost predicate SlotsFor(slots: seq<real>, w: Wiring, volume: real, i: nat, a: Axis)
    requires |slots| == 6
  {
    slots[LowSlot(a)] * volume == Low(w, i, a) && slots[HighSlot(a)] * volume == High(w, i, a)
  }

  lemma Divided(a: real, volume: real)
    requires volume > 0.0
    ensures a / volume * volume == a
  {
  }

  lemma SlotsScaled(slots: seq<real>, w: Wiring, volume: real, i: nat, a: Axis)
    requires |slots| == 6 && volume > 0.0
    requires slots[LowSlot(a)] == Low(w, i, a) / volume && slots[HighSlot(a)] == High(w, i, a) / volume
    ensures SlotsFor(slots, w, volume, i, a)
  {
    Divided(Low(w, i, a), volume);
    Divided(High(w, i, a), volume);
  }

  /** The six coefficients of a cell, divided by its volume. */
  method ScaleSlots(neighbours: array2<Option<nat>>, rows: array2<real>, w: Wiring, volume: real, i: nat)
    returns (slots: seq<real>)
    requires Wired(w) && i < w.n && Filled(neighbours, rows, w, w.n, 0) && volume > 0.0
    ensures |slots| == 6 && forall a :: SlotsFor(slots, w, volume, i, a)
  {
    slots := [];
    var s := 0;
    while s < 6
      invariant 0 <= s <= 6 && |slots| == s
      invariant forall t :: 0 <= t < s ==> slots[t] == rows[i, t] / volume
    {
      slots := slots + [rows[i, s] / volume];
      s := s + 1;
    }
    forall a
      ensures SlotsFor(slots, w, volume, i, a)
    {
      FilledSlots(neighbours, rows, w, i, a);
      SlotsScaled(slots, w, volume, i, a);
    }
  }

  method MakeRow(neighbours: array2<Option<nat>>, rows: array2<real>, w: Wiring, volume: real, exact: nat -> real,
                 i: nat)
    returns (row: Row)
    requires Wired(w) && i < w.n && Filled(neighbours, rows, w, w.n, 0) && volume > 0.0
    ensures RowFor(row, w, volume, exact, i)
  {
    var sum, off := OffDiagonal(neighbours, rows, w, exact, i);
    var diagonal := sum + w.surplus(i);
    var rhs := diagonal * exact(i) - off;
    ApplyFrom(w, exact, i, diagonal, off);
    var slots := ScaleSlots(neighbours, rows, w, volume, i);
    row := Row(volume, diagonal / volume, slots, rhs / volume);
    RowFrom(w, volume, exact, i, diagonal, rhs, slots);
  }

  lemma ApplyFrom(w: Wiring, x: nat -> real, i: nat, diagonal: real, off: real)
    requires diagonal == Diagonal(w, i) && off == Coupled(w, x, i, X) + Coupled(w, x, i, Y) + Coupled(w, x, i, Z)
    ensures diagonal * x(i) - off == Apply(w, x, i)
  {
  }

  lemma RowFrom(w: Wiring, volume: real, exact: nat -> real, i: nat, diagonal: real, rhs: real, slots: seq<real>)
    requires volume > 0.0 && diagonal == Diagonal(w, i) && rhs == Apply(w, exact, i)
    requires |slots| == 6 && forall a :: SlotsFor(slots, w, volume, i, a)
    ensures RowFor(Row(volume, diagonal / volume, slots, rhs / volume), w, volume, exact, i)
  {
    Divided(diagonal, volume);
    Divided(rhs, volume);
  }

  /** A row's equation, times its volume. */
  ghost predicate Solves(row: Row, w: Wiring, x: nat -> real, i: nat) {
    Apply(w, x, i) == row.rhs * row.volume
  }

  /** The generated rows are solved by `exact`, and, when the system is positive definite, by nothing else. */
  lemma ExactSolves(rows: seq<Row>, w: Wiring, volume: nat -> real, exact: nat -> real, x: nat -> real)
    requires |rows| == w.n && forall i: nat :: i < w.n ==> RowFor(rows[i], w, volume(i), exact, i)
    ensures forall i: nat :: i < w.n ==> Solves(rows[i], w, exact, i)
    ensures PositiveDefinite(w) && (forall i: nat :: i < w.n ==> Solves(rows[i], w, x, i)) ==>
              forall i: nat :: i < w.n ==> x(i) == exact(i)
  {
    forall i: nat | i < w.n
      ensures Solves(rows[i], w, exact, i)
    {
      assert RowFor(rows[i], w, volume(i), exact, i);
    }
    if PositiveDefinite(w) && forall i: nat :: i < w.n ==> Solves(rows[i], w, x, i) {
      forall i: nat | i < w.n
        ensures Apply(w, x, i) == Apply(w, exact, i)
      {
        assert Solves(rows[i], w, x, i) && Solves(rows[i], w, exact, i);
      }
      SolutionUnique(w, exact, x);
    }
  }

  /** The generator: slots, then rows. */
  method Generate(c: Case, draw: (nat, Axis) -> real, volume: nat -> real) returns (rows: seq<Row>)
    requires ShapeOk(c.shape) && forall i: nat :: volume(i) > 0.0
    ensures var w := WiringOf(c, draw);
            |rows| == w.n && forall i: nat :: i < w.n ==> RowFor(rows[i], w, volume(i), Exact, i)
  {
    GridWired(c, draw);
    var w := WiringOf(c, draw);
    var neighbours, slots := Fill(w);
    rows := [];
    var i := 0;
    while i < w.n
      invariant 0 <= i <= w.n && |rows| == i && Filled(neighbours, slots, w, w.n, 0)
      invariant forall j: nat :: j < i ==> RowFor(rows[j], w, volume(j), Exact, j)
    {
      var row := MakeRow(neighbours, slots, w, volume(i), Exact, i);
      rows := rows + [row];
      i := i + 1;
    }
  }
}
