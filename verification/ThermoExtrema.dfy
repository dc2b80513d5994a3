/** Regional extrema of the thermodynamic state: the local scan and the three-collective reduction. */
module ThermoExtrema {
  import opened GridSums
  import opened GridTypes
  import opened Indexing
  import opened StatisticsTypes
  import opened Sums

  /** A reduced value: a number, or the positive infinity an empty region starts from. */
  datatype Extended = Finite(v: real) | Infinite

  predicate Less(a: Extended, b: Extended) {
    a.Finite? && (b.Infinite? || a.v < b.v)
  }

  /** One cell's evaluated state; activity is 1 for a fluid cell and 0 for a solid one. */
  datatype CellState = CellState(pressure: real, temperature: real, density: real, activity: nat)

  type State = (int, int, int) -> CellState

  predicate ValidCell(c: CellState) {
    c.pressure > 0.0 && c.temperature > 0.0 && c.density > 0.0 && c.activity <= 1
  }

  function Region(c: CellState): nat {
    if c.activity == 1 then 0 else 1
  }

  /** p, -p, T, -T, rho, -rho: maxima are taken as minima of the negated values. */
  function Quantity(c: CellState, k: int): real {
    if k == 0 then c.pressure else if k == 1 then -c.pressure
    else if k == 2 then c.temperature else if k == 3 then -c.temperature
    else if k == 4 then c.density else -c.density
  }

  function GlobalCell(n: Int3, c: Int3): int {
    c.x + n.x * (c.y + n.y * c.z)
  }

  /** Slot s = region * 6 + quantity concerns the cells of its region. */
  predicate InSlot(state: State, s: int, c: Int3) {
    Region(state(c.x, c.y, c.z)) == s / 6
  }

  function SlotValue(state: State, s: int, c: Int3): real {
    Quantity(state(c.x, c.y, c.z), s % 6)
  }

  /** The lexicographic order on (value, global cell). */
  predicate Precedes(state: State, n: Int3, s: int, a: Int3, b: Int3) {
    SlotValue(state, s, a) < SlotValue(state, s, b)
    || (SlotValue(state, s, a) == SlotValue(state, s, b) && GlobalCell(n, a) <= GlobalCell(n, b))
  }

  /** The pair is the lexicographic minimum over the member cells of the slot's region, or the empty sentinel. */
  ghost predicate IsBest(state: State, n: Int3, s: int, members: iset<Int3>, value: Extended, cell: int) {
    || (value.Infinite? && cell == UINT64_MAX && forall c :: c in members ==> !InSlot(state, s, c))
    || (exists b :: b in members && InSlot(state, s, b) && BestAt(state, n, s, members, value, cell, b))
  }

  ghost predicate BestAt(state: State, n: Int3, s: int, members: iset<Int3>, value: Extended, cell: int, b: Int3) {
    && value == Finite(SlotValue(state, s, b)) && cell == GlobalCell(n, b)
    && forall c :: c in members && InSlot(state, s, c) ==> Precedes(state, n, s, b, c)
  }

  ghost function Cells(p: Patch): iset<Int3> {
    iset c | OwnsCell(p, c)
  }

  ghost function GridCells(n: Int3): iset<Int3> {
    iset c | InGrid(n, c)
  }

  // ----- the local scan

  /** The cells of p scanned before (x, y, z), in loop order. */
  ghost function Before(p: Patch, x: int, y: int, z: int): iset<Int3> {
    iset c | OwnsCell(p, c)
             && (c.z < p.begin.z + z
                 || (c.z == p.begin.z + z && (c.y < p.begin.y + y
                                              || (c.y == p.begin.y + y && c.x < p.begin.x + x))))
  }

  lemma BestGrows(state: State, n: Int3, s: int, members: iset<Int3>, value: Extended, cell: int, c: Int3)
    requires IsBest(state, n, s, members, value, cell)
    requires GlobalCell(n, c) < UINT64_MAX
    ensures var take := InSlot(state, s, c)
              && (Less(Finite(SlotValue(state, s, c)), value)
                  || (Finite(SlotValue(state, s, c)) == value && GlobalCell(n, c) < cell));
            IsBest(state, n, s, members + iset{c}, if take then Finite(SlotValue(state, s, c)) else value,
                   if take then GlobalCell(n, c) else cell)
  {
    var grown := members + iset{c};
    var v := SlotValue(state, s, c);
    if InSlot(state, s, c) {
      if value.Infinite? && cell == UINT64_MAX && (forall m :: m in members ==> !InSlot(state, s, m)) {
        assert BestAt(state, n, s, grown, Finite(v), GlobalCell(n, c), c);
      } else {
        var b :| b in members && InSlot(state, s, b) && BestAt(state, n, s, members, value, cell, b);
        if Precedes(state, n, s, b, c) {
          assert BestAt(state, n, s, grown, value, cell, b);
        } else {
          assert BestAt(state, n, s, grown, Finite(v), GlobalCell(n, c), c);
        }
      }
    } else if exists b :: b in members && InSlot(state, s, b) && BestAt(state, n, s, members, value, cell, b) {
      var b :| b in members && InSlot(state, s, b) && BestAt(state, n, s, members, value, cell, b);
      assert BestAt(state, n, s, grown, value, cell, b);
    }
  }

  ghost predicate SlotsBest(state: State, n: Int3, members: iset<Int3>, regional: seq<Extended>, regionCell: seq<int>) {
    |regional| == 12 && |regionCell| == 12
    && forall s :: 0 <= s < 12 ==> IsBest(state, n, s, members, regional[s], regionCell[s])
  }

  /** A region's count is zero exactly when no member cell lies in it. */
  ghost predicate Counted(state: State, members: iset<Int3>, region: int, count: nat) {
    count == 0 <==> forall c :: c in members ==> Region(state(c.x, c.y, c.z)) != region
  }

  /** One for each cell of a region. */
  ghost function InRegion(state: State, region: int): Int3 -> real {
    (c: Int3) => if Region(state(c.x, c.y, c.z)) == region then 1.0 else 0.0
  }

  lemma CellIdInRange(n: Int3, c: Int3)
    requires InGrid(n, c)
    ensures 0 <= GlobalCell(n, c) < n.x * n.y * n.z
  {
    FlattenBound(n.y, c.z, c.y, n.z);
    FlattenBound(n.x, c.y + n.y * c.z, c.x, n.z * n.y);
    assert n.z * n.y * n.x == n.x * n.y * n.z;
  }

  /** The slot loop for one scanned cell. */
  method ScanCell(state: State, n: Int3, c: Int3, regional: array<Extended>, regionCell: array<int>,
                  ghost members: iset<Int3>)
    requires regional.Length == 12 && regionCell.Length == 12
    requires SlotsBest(state, n, members, regional[..], regionCell[..])
    requires GlobalCell(n, c) < UINT64_MAX
    modifies regional, regionCell
    ensures SlotsBest(state, n, members + iset{c}, regional[..], regionCell[..])
  {
    var cell := state(c.x, c.y, c.z);
    var region := Region(cell);
    ghost var grown := members + iset{c};
    ghost var before, beforeCell := regional[..], regionCell[..];
    var k := 0;
    while k < 6
      invariant 0 <= k <= 6
      invariant forall s :: 0 <= s < 12 && !(region * 6 <= s < region * 6 + k) ==>
        regional[s] == before[s] && regionCell[s] == beforeCell[s]
      invariant forall s :: region * 6 <= s < region * 6 + k ==>
        IsBest(state, n, s, grown, regional[s], regionCell[s])
    {
      var slot := region * 6 + k;
      assert slot / 6 == region && slot % 6 == k;
      assert IsBest(state, n, slot, members, before[slot], beforeCell[slot]);
      TakeSlot(state, n, c, slot, regional, regionCell, members);
      k := k + 1;
    }
    forall s | 0 <= s < 12
      ensures IsBest(state, n, s, grown, regional[s], regionCell[s])
    {
      if !(region * 6 <= s < region * 6 + 6) {
        assert IsBest(state, n, s, members, before[s], beforeCell[s]);
        OtherSlot(state, n, s, members, before[s], beforeCell[s], c);
      }
    }
  }

  /** A slot of another region is not touched by the cell. */
  lemma OtherSlot(state: State, n: Int3, s: int, members: iset<Int3>, value: Extended, cell: int, c: Int3)
    requires IsBest(state, n, s, members, value, cell) && !InSlot(state, s, c) && GlobalCell(n, c) < UINT64_MAX
    ensures IsBest(state, n, s, members + iset{c}, value, cell)
  {
    BestGrows(state, n, s, members, value, cell, c);
  }

  /** One turn of the slot loop: the cell takes the slot if it precedes what is there. */
  method TakeSlot(state: State, n: Int3, c: Int3, slot: nat, regional: array<Extended>, regionCell: array<int>,
                  ghost members: iset<Int3>)
    requires regional.Length == 12 && regionCell.Length == 12 && slot < 12
    requires IsBest(state, n, slot, members, regional[slot], regionCell[slot])
    requires InSlot(state, slot, c) && GlobalCell(n, c) < UINT64_MAX
    modifies regional, regionCell
    ensures IsBest(state, n, slot, members + iset{c}, regional[slot], regionCell[slot])
    ensures forall s :: 0 <= s < 12 && s != slot ==>
              regional[s] == old(regional[s]) && regionCell[s] == old(regionCell[s])
  {
    BestGrows(state, n, slot, members, regional[slot], regionCell[slot], c);
    var value := Finite(SlotValue(state, slot, c));
    var globalCell := GlobalCell(n, c);
    if Less(value, regional[slot]) || (value == regional[slot] && globalCell < regionCell[slot]) {
      regional[slot] := value;
      regionCell[slot] := globalCell;
    }
  }

  lemma BeforeNext(p: Patch, x: int, y: int, z: int)
    requires 0 <= x < p.cells.x && 0 <= y < p.cells.y && 0 <= z < p.cells.z
    ensures Before(p, x + 1, y, z)
         == Before(p, x, y, z) + iset{Int3(p.begin.x + x, p.begin.y + y, p.begin.z + z)}
  {
  }

  lemma BeforeEnds(p: Patch, y: int, z: int)
    ensures Before(p, p.cells.x, y, z) == Before(p, 0, y + 1, z)
    ensures Before(p, 0, p.cells.y, z) == Before(p, 0, 0, z + 1)
    ensures Before(p, 0, 0, 0) == iset{}
    ensures Before(p, 0, 0, p.cells.z) == Cells(p)
  {
  }

  /** The running extrema of one rank. */
  class Scan {
    const regional: array<Extended>
    const regionCell: array<int>
    var count0: nat
    var count1: nat
    var valid: bool

    constructor ()
      ensures fresh(regional) && fresh(regionCell) && forall state, n :: Holds(state, n, iset{})
      ensures count0 == count1 == 0
    {
      regional := new Extended[12](_ => Infinite);
      regionCell := new int[12](_ => UINT64_MAX);
      count0, count1, valid := 0, 0, true;
    }

    /** Valid so far exactly when every scanned cell is; and then every slot holds its minimum over them. */
    ghost predicate Holds(state: State, n: Int3, members: iset<Int3>)
      reads this, regional, regionCell
    {
      && (valid == forall c :: c in members ==> ValidCell(state(c.x, c.y, c.z)))
      && (valid ==> SlotsBest(state, n, members, regional[..], regionCell[..]))
      && (valid ==> Counted(state, members, 0, count0) && Counted(state, members, 1, count1))
    }

    /** The counters have counted the cells scanned so far. */
    ghost predicate Tallied(state: State, p: Patch, x: nat, y: nat, z: nat)
      reads this
    {
      && count0 as real == Partial(p, InRegion(state, 0), x, y, z)
      && count1 as real == Partial(p, InRegion(state, 1), x, y, z)
    }

    method Cell(state: State, n: Int3, c: Int3, ghost members: iset<Int3>)
      requires Holds(state, n, members) && GlobalCell(n, c) < UINT64_MAX
      modifies this, regional, regionCell
      ensures Holds(state, n, members + iset{c}) && (valid ==> old(valid))
      ensures valid ==> count0 as real == old(count0) as real + InRegion(state, 0)(c)
      ensures valid ==> count1 as real == old(count1) as real + InRegion(state, 1)(c)
    {
      var cell := state(c.x, c.y, c.z);
      assert c in members + iset{c};
      if !ValidCell(cell) {
        valid := false;
      } else {
        if Region(cell) == 0 {
          count0 := count0 + 1;
        } else {
          count1 := count1 + 1;
        }
        if valid {
          ScanCell(state, n, c, regional, regionCell, members);
        }
      }
    }

    /** The state of the scan when the next cell is (x, y, z), in loop order. */
    ghost predicate Scanned(state: State, n: Int3, p: Patch, x: nat, y: nat, z: nat)
      reads this, regional, regionCell
    {
      Holds(state, n, Before(p, x, y, z)) && (valid ==> Tallied(state, p, x, y, z))
    }

    method ScanAt(state: State, n: Int3, p: Patch, x: nat, y: nat, z: nat)
      requires Inside(n, p) && n.x * n.y * n.z <= UINT64_MAX && x < p.cells.x && y < p.cells.y && z < p.cells.z
      requires Scanned(state, n, p, x, y, z)
      modifies this, regional, regionCell
      ensures Scanned(state, n, p, x + 1, y, z)
    {
      var c := Int3(p.begin.x + x, p.begin.y + y, p.begin.z + z);
      CellIdInRange(n, c);
      Cell(state, n, c, Before(p, x, y, z));
      BeforeNext(p, x, y, z);
      PartialNext(p, InRegion(state, 0), x, y, z);
      PartialNext(p, InRegion(state, 1), x, y, z);
    }

    lemma RowScanned(state: State, n: Int3, p: Patch, y: nat, z: nat)
      requires Inside(n, p)
      ensures Scanned(state, n, p, p.cells.x, y, z) ==> Scanned(state, n, p, 0, y + 1, z)
    {
      BeforeEnds(p, y, z);
      PartialEnds(p, InRegion(state, 0), y, z);
      PartialEnds(p, InRegion(state, 1), y, z);
    }

    lemma SheetScanned(state: State, n: Int3, p: Patch, z: nat)
      requires Inside(n, p)
      ensures Scanned(state, n, p, 0, p.cells.y, z) ==> Scanned(state, n, p, 0, 0, z + 1)
    {
      BeforeEnds(p, 0, z);
      PartialEnds(p, InRegion(state, 0), 0, z);
      PartialEnds(p, InRegion(state, 1), 0, z);
    }

    lemma StartScanned(state: State, n: Int3, p: Patch)
      requires Inside(n, p) && Holds(state, n, iset{}) && count0 == count1 == 0
      ensures Scanned(state, n, p, 0, 0, 0)
    {
      BeforeEnds(p, 0, 0);
      PartialEnds(p, InRegion(state, 0), 0, 0);
      PartialEnds(p, InRegion(state, 1), 0, 0);
    }

    lemma AllScanned(state: State, n: Int3, p: Patch)
      requires Inside(n, p) && Scanned(state, n, p, 0, 0, p.cells.z)
      ensures Holds(state, n, Cells(p))
      ensures valid ==> count0 as real == BoxSum(p, InRegion(state, 0))
      ensures valid ==> count1 as real == BoxSum(p, InRegion(state, 1))
    {
      BeforeEnds(p, 0, 0);
      PartialEnds(p, InRegion(state, 0), 0, 0);
      PartialEnds(p, InRegion(state, 1), 0, 0);
    }

    method Line(state: State, n: Int3, p: Patch, y: nat, z: nat)
      requires Inside(n, p) && n.x * n.y * n.z <= UINT64_MAX && y < p.cells.y && z < p.cells.z
      requires Scanned(state, n, p, 0, y, z)
      modifies this, regional, regionCell
      ensures Scanned(state, n, p, 0, y + 1, z)
    {
      var x := 0;
      while x < p.cells.x
        invariant 0 <= x <= p.cells.x && Scanned(state, n, p, x, y, z)
      {
        ScanAt(state, n, p, x, y, z);
        x := x + 1;
      }
      RowScanned(state, n, p, y, z);
    }

    method Sheet(state: State, n: Int3, p: Patch, z: nat)
      requires Inside(n, p) && n.x * n.y * n.z <= UINT64_MAX && z < p.cells.z
      requires Scanned(state, n, p, 0, 0, z)
      modifies this, regional, regionCell
      ensures Scanned(state, n, p, 0, 0, z + 1)
    {
      var y := 0;
      while y < p.cells.y
        invariant 0 <= y <= p.cells.y && Scanned(state, n, p, 0, y, z)
      {
        Line(state, n, p, y, z);
        y := y + 1;
      }
      SheetScanned(state, n, p, z);
    }

    /** The loops over one rank's cells. */
    method Patch(state: State, n: Int3, p: Patch)
      requires Inside(n, p) && n.x * n.y * n.z <= UINT64_MAX && Holds(state, n, iset{}) && count0 == count1 == 0
      modifies this, regional, regionCell
      ensures valid == forall c :: c in Cells(p) ==> ValidCell(state(c.x, c.y, c.z))
      ensures valid ==> SlotsBest(state, n, Cells(p), regional[..], regionCell[..])
      ensures valid ==> Counted(state, Cells(p), 0, count0) && Counted(state, Cells(p), 1, count1)
      ensures valid ==> count0 as real == BoxSum(p, InRegion(state, 0))
      ensures valid ==> count1 as real == BoxSum(p, InRegion(state, 1))
    {
      StartScanned(state, n, p);
      var z := 0;
      while z < p.cells.z
        invariant 0 <= z <= p.cells.z && Scanned(state, n, p, 0, 0, z)
      {
        Sheet(state, n, p, z);
        z := z + 1;
      }
      AllScanned(state, n, p);
    }
  }

  // ----- the three collectives

  ghost predicate IsMinimum(values: seq<Extended>, m: Extended) {
    m in values && forall r :: 0 <= r < |values| ==> !Less(values[r], m)
  }

  ghost predicate IsCellMinimum(cells: seq<int>, m: int) {
    m in cells && forall r :: 0 <= r < |cells| ==> m <= cells[r]
  }

  /** Ranks that do not hold the reduced value withdraw their cell before the last reduction. */
  function Withdrawn(values: seq<Extended>, cells: seq<int>, m: Extended): (r: seq<int>)
    requires |values| == |cells|
    ensures |r| == |cells|
  {
    seq(|cells|, i requires 0 <= i < |cells| => if values[i] != m then UINT64_MAX else cells[i])
  }

  /** The result does not depend on the partition: there is only one best pair. */
  lemma BestUnique(state: State, n: Int3, s: int, members: iset<Int3>, v: Extended, cell: int, v': Extended, cell': int)
    requires IsBest(state, n, s, members, v, cell) && IsBest(state, n, s, members, v', cell')
    ensures v == v' && cell == cell'
  {
    if b, b' :| b in members && InSlot(state, s, b) && BestAt(state, n, s, members, v, cell, b)
                && b' in members && InSlot(state, s, b') && BestAt(state, n, s, members, v', cell', b') {
      assert Precedes(state, n, s, b, b') && Precedes(state, n, s, b', b);
    }
  }

  /** What the three collectives combine: every rank's best pair, the least value, the least cell among its holders. */
  ghost predicate Reduction(state: State, n: Int3, tiling: seq<Patch>, s: int, values: seq<Extended>, cells: seq<int>,
                            value: Extended, cell: int)
  {
    && Tiles(n, tiling) && n.x * n.y * n.z <= UINT64_MAX && |values| == |cells| == |tiling|
    && (forall r :: 0 <= r < |tiling| ==> IsBest(state, n, s, Cells(tiling[r]), values[r], cells[r]))
    && IsMinimum(values, value) && IsCellMinimum(Withdrawn(values, cells, value), cell)
  }

  /** The reduced pair is the lexicographic minimum over the whole grid, for any tiling. */
  lemma ReducedIsBest(state: State, n: Int3, tiling: seq<Patch>, s: int, values: seq<Extended>, cells: seq<int>,
                      value: Extended, cell: int)
    requires Reduction(state, n, tiling, s, values, cells, value, cell)
    ensures IsBest(state, n, s, GridCells(n), value, cell)
  {
    if value.Infinite? {
      ReducedEmpty(state, n, tiling, s, values, cells, value, cell);
    } else {
      ReducedFound(state, n, tiling, s, values, cells, value, cell);
    }
  }

  lemma ReducedEmpty(state: State, n: Int3, tiling: seq<Patch>, s: int, values: seq<Extended>, cells: seq<int>,
                     value: Extended, cell: int)
    requires Reduction(state, n, tiling, s, values, cells, value, cell) && value.Infinite?
    ensures IsBest(state, n, s, GridCells(n), value, cell)
  {
    forall c | c in GridCells(n)
      ensures !InSlot(state, s, c)
    {
      var r :| 0 <= r < |tiling| && OwnsCell(tiling[r], c);
      assert !Less(values[r], value);
      assert IsBest(state, n, s, Cells(tiling[r]), values[r], cells[r]);
    }
    forall r | 0 <= r < |tiling|
      ensures Withdrawn(values, cells, value)[r] == UINT64_MAX
    {
      assert !Less(values[r], value);
      assert IsBest(state, n, s, Cells(tiling[r]), values[r], cells[r]);
    }
  }

  /** The rank whose cell survives the last reduction holds the reduced value. */
  lemma Winner(state: State, n: Int3, tiling: seq<Patch>, s: int, values: seq<Extended>, cells: seq<int>,
               value: Extended, cell: int)
    returns (r: nat)
    requires Reduction(state, n, tiling, s, values, cells, value, cell) && value.Finite?
    ensures r < |tiling| && values[r] == value && cells[r] == cell
  {
    var masked := Withdrawn(values, cells, value);
    var q :| 0 <= q < |values| && values[q] == value;
    var b := Witness(state, n, tiling, s, values, cells, q);
    CellIdInRange(n, b);
    assert masked[q] == cells[q] < UINT64_MAX;
    r :| 0 <= r < |masked| && masked[r] == cell;
  }

  lemma ReducedFound(state: State, n: Int3, tiling: seq<Patch>, s: int, values: seq<Extended>, cells: seq<int>,
                     value: Extended, cell: int)
    requires Reduction(state, n, tiling, s, values, cells, value, cell) && value.Finite?
    ensures IsBest(state, n, s, GridCells(n), value, cell)
  {
    var r := Winner(state, n, tiling, s, values, cells, value, cell);
    var w := Witness(state, n, tiling, s, values, cells, r);
    forall c | c in GridCells(n) && InSlot(state, s, c)
      ensures Precedes(state, n, s, w, c)
    {
      NoneBetter(state, n, tiling, s, values, cells, value, cell, r, w, c);
    }
    assert BestAt(state, n, s, GridCells(n), value, cell, w);
  }

  lemma NoneBetter(state: State, n: Int3, tiling: seq<Patch>, s: int, values: seq<Extended>, cells: seq<int>,
                   value: Extended, cell: int, r: nat, w: Int3, c: Int3)
    requires Reduction(state, n, tiling, s, values, cells, value, cell) && value.Finite?
    requires r < |tiling| && values[r] == value && cells[r] == cell
    requires BestAt(state, n, s, Cells(tiling[r]), value, cell, w) && InGrid(n, c) && InSlot(state, s, c)
    ensures Precedes(state, n, s, w, c)
  {
    var masked := Withdrawn(values, cells, value);
    var t :| 0 <= t < |tiling| && OwnsCell(tiling[t], c);
    var m := Witness2(state, n, tiling, s, values, cells, t, c);
    assert !Less(values[t], value);
    assert cell <= masked[t];
  }

  lemma Witness(state: State, n: Int3, tiling: seq<Patch>, s: int, values: seq<Extended>, cells: seq<int>, r: nat)
    returns (b: Int3)
    requires Tiles(n, tiling) && |values| == |cells| == |tiling| && r < |tiling| && values[r].Finite?
    requires IsBest(state, n, s, Cells(tiling[r]), values[r], cells[r])
    ensures InGrid(n, b) && InSlot(state, s, b) && BestAt(state, n, s, Cells(tiling[r]), values[r], cells[r], b)
  {
    b :| b in Cells(tiling[r]) && InSlot(state, s, b) && BestAt(state, n, s, Cells(tiling[r]), values[r], cells[r], b);
    assert Inside(n, tiling[r]);
  }

  lemma Witness2(state: State, n: Int3, tiling: seq<Patch>, s: int, values: seq<Extended>, cells: seq<int>, r: nat,
                 c: Int3)
    returns (b: Int3)
    requires Tiles(n, tiling) && |values| == |cells| == |tiling| && r < |tiling|
    requires OwnsCell(tiling[r], c) && InSlot(state, s, c)
    requires IsBest(state, n, s, Cells(tiling[r]), values[r], cells[r])
    ensures InGrid(n, b) && InSlot(state, s, b) && BestAt(state, n, s, Cells(tiling[r]), values[r], cells[r], b)
    ensures Precedes(state, n, s, b, c)
  {
    assert c in Cells(tiling[r]);
    b := Witness(state, n, tiling, s, values, cells, r);
  }

  /** With the summed counts: a region is reported empty exactly when it is, and then all its slots are sentinels. */
  lemma EmptyRegionExactly(state: State, n: Int3, s: int, value: Extended, cell: int)
    requires IsBest(state, n, s, GridCells(n), value, cell) && n.x * n.y * n.z <= UINT64_MAX
    ensures (forall c :: c in GridCells(n) ==> !InSlot(state, s, c)) <==> value.Infinite?
    ensures value.Infinite? <==> cell == UINT64_MAX
  {
    if b :| b in GridCells(n) && InSlot(state, s, b) && BestAt(state, n, s, GridCells(n), value, cell, b) {
      CellIdInRange(n, b);
    }
  }

  /** Summed over the ranks, the region counts are the numbers of cells of the whole grid in each region. */
  lemma RegionCountsGlobal(state: State, n: Int3, tiling: seq<Patch>, region: int)
    requires Tiles(n, tiling)
    ensures Sum(|tiling|, RankSums(tiling, InRegion(state, region))) == BoxSum(Whole(n), InRegion(state, region))
  {
    RanksSum(n, tiling, InRegion(state, region));
  }
}
